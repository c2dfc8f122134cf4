/** The stop-loss exit machine as a transition system.

    Bracket objects and exit tasks live in arenas (`brackets`, `tasks`) and are named by their index, because the
    source keeps using a bracket object, and an asyncio task, after the dictionaries have forgotten them.  Every
    function here is one uninterrupted stretch of the source between two awaits that yield to other work. */
module StopLoss {
  import opened Common
  import opened Ownership

  type Ticker = string
  type LedgerKey = string

  datatype ActionStatus = Pending | Submitted | Succeeded | Failed

  datatype Config = Config(
    hedgeMaxFactor: int,
    stopPrice: int,
    panicSellPrice: int,
    panicMaxRetries: int,
    maxQuoteAgeMs: int,
    abandonWhenNoBid: bool,
    noBidConfirmChecks: int,
    noBidMaxBid: int,
    manageExternal: bool,
    fastExit: bool,
    ledgerKey: Ticker -> Option<LedgerKey>)
  {
    function Factor(): (r: nat) ensures r >= 1 { Max(hedgeMaxFactor, 1) }
    function PanicPrice(): int { Max(1, if panicSellPrice == 0 then 1 else panicSellPrice) }
    function MaxRetries(): (r: nat) ensures r >= 1 { Max(panicMaxRetries, 1) }
    function QuoteAgeLimit(): int { if maxQuoteAgeMs == 0 then 30000 else maxQuoteAgeMs }
    function ConfirmChecks(): (r: nat) ensures r >= 1 { Max(noBidConfirmChecks, 1) }
  }

  datatype Quote = Quote(bid: Option<int>, ask: Option<int>)

  /** What the quote cache holds at one instant, with the age of that quote. */
  datatype Reading = Reading(quote: Option<Quote>, ageMs: Option<int>)

  datatype Bracket = Bracket(ticker: Ticker, quantity: int, counted: bool, unfillable: bool)

  /** A panic-flatten run; `attempt` is the loop counter of its next iteration. */
  datatype Task = Task(ticker: Ticker, bracket: nat, attempt: nat, noBid: nat, finished: bool)

  /** The log lines the claims are about: a revalidation of the quote, a sell a stop-loss execution handed to the
      exchange, and the limit sell of a scheduled exit. */
  datatype Line =
    | Revalidated(task: nat, reading: Reading)
    | Sell(origin: Option<nat>, ticker: Ticker, price: int, qty: int)
    | Limit(ticker: Ticker, price: int, qty: int)

  /** What memory was told of a market's size: the exchange listed a count to the exit machine, or something else
      overwrote the quantity.  `at` is the length of the log at that moment. */
  datatype Notice = Listed(ticker: Ticker, count: int, at: nat) | Told(ticker: Ticker, at: nat)

  datatype State = State(
    brackets: seq<Bracket>,
    active: map<Ticker, nat>,
    appOwned: map<Ticker, int>,
    actions: map<Ticker, ActionStatus>,
    ledger: map<LedgerKey, int>,
    exitTasks: map<Ticker, nat>,
    tasks: seq<Task>,
    log: seq<Line>,
    notices: seq<Notice>)

  const EMPTY := State([], map[], map[], map[], map[], map[], [], [], [])

  // ---- Replies of the exchange ------------------------------------------

  /** `Live(None, _)`: the exchange answered and holds no such position. */
  datatype PositionsReply = PositionsFailed | Live(count: Option<int>, fills: FillLookup)

  datatype SellReply = SellRaised(resetOk: bool) | MarketNotFound | SellDone(filled: int)

  datatype ExecEnv = ExecEnv(cooling: bool, sell: SellReply, after: PositionsReply)

  datatype AttemptEnv = AttemptEnv(missing: PositionsReply, reading: Reading, exec: ExecEnv, exhausted: PositionsReply)

  datatype Outcome = Gone | NotGone | Raised

  // ---- Well-formedness --------------------------------------------------

  ghost predicate Linked(s: State) {
    && (forall t :: t in s.active ==> s.active[t] < |s.brackets| && s.brackets[s.active[t]].ticker == t)
    && (forall i :: 0 <= i < |s.tasks| ==>
          s.tasks[i].bracket < |s.brackets| && s.brackets[s.tasks[i].bracket].ticker == s.tasks[i].ticker)
    && (forall t :: t in s.exitTasks ==> s.exitTasks[t] < |s.tasks| && s.tasks[s.exitTasks[t]].ticker == t)
  }

  /** Nothing the ledger claims depend on differs: counts, flags, tasks and the dictionary of tasks. */
  ghost predicate LedgerFrame(s: State, s': State) {
    && s'.ledger == s.ledger
    && s'.tasks == s.tasks
    && s'.exitTasks == s.exitTasks
    && SameFlags(s.brackets, s'.brackets)
  }

  ghost predicate SameFlags(a: seq<Bracket>, b: seq<Bracket>) {
    && |a| == |b|
    && forall i :: 0 <= i < |a| ==> a[i].ticker == b[i].ticker && a[i].counted == b[i].counted
  }

  // ---- Ledger -----------------------------------------------------------

  function Count(s: State, k: LedgerKey): int { if k in s.ledger then s.ledger[k] else 0 }

  function Increment(cfg: Config, s: State, t: Ticker): State {
    match cfg.ledgerKey(t)
    case None => s
    case Some(k) => s.(ledger := s.ledger[k := Min(Count(s, k) + 1, cfg.Factor())])
  }

  function Decrement(cfg: Config, s: State, t: Ticker): State {
    match cfg.ledgerKey(t)
    case None => s
    case Some(k) => if Count(s, k) > 0 then s.(ledger := s.ledger[k := Count(s, k) - 1]) else s
  }

  function SetCounted(s: State, b: nat, flag: bool): State
    requires b < |s.brackets|
  {
    s.(brackets := s.brackets[b := s.brackets[b].(counted := flag)])
  }

  /** `if not counted: increment; counted = True`. */
  function MarkCounted(cfg: Config, s: State, b: nat): State
    requires b < |s.brackets|
  {
    if s.brackets[b].counted then s
    else SetCounted(Increment(cfg, s, s.brackets[b].ticker), b, true)
  }

  /** Decrement regardless of the flag, then clear it. */
  function DecrementAndClear(cfg: Config, s: State, b: nat): State
    requires b < |s.brackets|
  {
    SetCounted(Decrement(cfg, s, s.brackets[b].ticker), b, false)
  }

  function Rollback(cfg: Config, s: State, b: nat): State
    requires b < |s.brackets|
  {
    if s.brackets[b].counted then DecrementAndClear(cfg, s, b) else s
  }

  // ---- Ownership --------------------------------------------------------

  function Recorded(s: State, t: Ticker): Option<int> {
    if t in s.appOwned then Some(s.appOwned[t]) else None
  }

  function SetOwnership(s: State, t: Ticker, total: int, app: int): (r: State)
    ensures t in r.appOwned && 0 <= r.appOwned[t] <= Max(total, 0)
  {
    s.(appOwned := s.appOwned[t := Clamp(app, Max(total, 0))])
  }

  function SetQuantity(s: State, b: nat, q: int): State
    requires b < |s.brackets|
  {
    s.(brackets := s.brackets[b := s.brackets[b].(quantity := q)])
  }

  /** A listing that was answered is noted. */
  function Heard(s: State, t: Ticker, reply: PositionsReply): (r: State)
    ensures LedgerFrame(s, r) && r.log == s.log && r.actions == s.actions && r.active == s.active
    ensures r.brackets == s.brackets && r.appOwned == s.appOwned && r.tasks == s.tasks && r.ledger == s.ledger
  {
    match reply
    case PositionsFailed => s
    case Live(count, _) =>
      s.(notices := s.notices + [Listed(t, if count.Some? then Max(count.value, 0) else 0, |s.log|)])
  }

  /** The quantity of a market's bracket is about to be overwritten from another source. */
  function WasTold(s: State, t: Ticker): (r: State)
    ensures LedgerFrame(s, r) && r.log == s.log && r.actions == s.actions && r.active == s.active
    ensures r.brackets == s.brackets && r.appOwned == s.appOwned && r.tasks == s.tasks && r.ledger == s.ledger
  {
    s.(notices := s.notices + [Told(t, |s.log|)])
  }

  datatype Remaining = Remaining(confirmed: bool, total: int, managed: int, app: int)

  /** What is left of the position, from the exchange when it answers and from memory when it does not. */
  function ConfirmRemaining(cfg: Config, s: State, b: nat, filled: int, reply: PositionsReply): (r: Remaining)
    requires b < |s.brackets|
    ensures 0 <= r.managed <= r.total && 0 <= r.app <= r.total
    ensures r.confirmed <==> reply.Live?
  {
    var bracket := s.brackets[b];
    var prior := Max(bracket.quantity, 0);
    match reply
    case PositionsFailed =>
      var e := ManagedExit(Recorded(s, bracket.ticker), prior, cfg.manageExternal);
      Remaining(false, prior, e.managed, e.app)
    case Live(count, fills) =>
      var total := if count.Some? then Max(count.value, 0) else 0;
      var priorApp := if bracket.ticker in s.appOwned then s.appOwned[bracket.ticker] else prior;
      var fallback := Min(Max(priorApp - Max(filled, 0), 0), total);
      var app := AppOwned(bracket.ticker, total, fallback, cfg.manageExternal, fills);
      Remaining(true, total, if cfg.manageExternal then total else app, app)
  }

  /** The bracket's quantity and the recorded ownership are both overwritten with what was confirmed. */
  function Reconcile(s: State, b: nat, r: Remaining): (s': State)
    requires b < |s.brackets|
    ensures LedgerFrame(s, s') && s'.log == s.log && s'.active == s.active
  {
    SetOwnership(SetQuantity(s, b, r.total), s.brackets[b].ticker, r.total, r.app)
  }

  function RemovePosition(s: State, t: Ticker): (r: State)
    ensures LedgerFrame(s, r) && r.log == s.log
  {
    s.(active := s.active - {t}, appOwned := s.appOwned - {t})
  }

  // ---- One sell, behind the idempotency record ---------------------------

  function SetAction(s: State, t: Ticker, status: ActionStatus): (r: State)
    ensures LedgerFrame(s, r) && r.log == s.log && r.active == s.active && r.brackets == s.brackets
  {
    s.(actions := s.actions[t := status])
  }

  /** The hard ceiling: a reactive sell is never priced above the stop. */
  function SellPrice(cfg: Config, override: Option<int>): (r: int)
    ensures r <= cfg.stopPrice
  {
    Min(if override.Some? then override.value else 1, cfg.stopPrice)
  }

  function ExitQuantity(cfg: Config, s: State, b: nat): ExitQty
    requires b < |s.brackets|
  {
    ManagedExit(Recorded(s, s.brackets[b].ticker), s.brackets[b].quantity, cfg.manageExternal)
  }

  /** The record lets a sell through: none yet, or the last one failed or is to be retried. */
  predicate MaySubmit(s: State, t: Ticker) {
    t in s.actions ==> s.actions[t].Pending? || s.actions[t].Failed?
  }

  /** The sell was answered; the position is looked up again. */
  function AfterAnswer(cfg: Config, s: State, b: nat, filled: int, after: PositionsReply): (r: State)
    requires b < |s.brackets|
    ensures LedgerFrame(s, r) && r.log == s.log
    ensures forall t :: t in r.active ==> t in s.active && r.active[t] == s.active[t]
  {
    var t := s.brackets[b].ticker;
    var rest := ConfirmRemaining(cfg, s, b, filled, after);
    var s1 := Heard(s, t, after);
    if rest.confirmed && rest.managed == 0 then RemovePosition(SetAction(s1, t, Succeeded), t)
    else Reconcile(SetAction(s1, t, Pending), b, rest)
  }

  /** Everything after the sell reached the exchange. */
  function AfterSell(cfg: Config, s: State, b: nat, env: ExecEnv): (r: (State, Outcome))
    requires b < |s.brackets|
    ensures LedgerFrame(s, r.0) && r.0.log == s.log
    ensures forall t :: t in r.0.active ==> t in s.active && r.0.active[t] == s.active[t]
    ensures r.1.Gone? ==> s.brackets[b].ticker !in r.0.active
  {
    var t := s.brackets[b].ticker;
    match env.sell
    case SellRaised(resetOk) => (if resetOk then SetAction(s, t, Failed) else s, Raised)
    case MarketNotFound => (RemovePosition(SetAction(s, t, Succeeded), t), Gone)
    case SellDone(filled) => (AfterAnswer(cfg, s, b, filled, env.after), NotGone)
  }

  /** The sell itself, once the record is marked SUBMITTED. */
  function SubmitSell(cfg: Config, s: State, b: nat, override: Option<int>, env: ExecEnv, origin: Option<nat>)
      : (r: (State, Outcome))
    requires b < |s.brackets|
    ensures LedgerFrame(s, r.0)
    ensures forall t :: t in r.0.active ==> t in s.active && r.0.active[t] == s.active[t]
    ensures r.1.Gone? ==> s.brackets[b].ticker !in r.0.active
  {
    var t := s.brackets[b].ticker;
    var qty := ExitQuantity(cfg, s, b).managed;
    if qty <= 0 then (SetAction(s, t, Pending), NotGone)
    else AfterSell(cfg, s.(log := s.log + [Sell(origin, t, SellPrice(cfg, override), qty)]), b, env)
  }

  function ExecuteStopLoss(cfg: Config, s: State, b: nat, override: Option<int>, bypassCooldown: bool,
                           env: ExecEnv, origin: Option<nat>): (r: (State, Outcome))
    requires b < |s.brackets|
    ensures LedgerFrame(s, r.0)
    ensures forall t :: t in r.0.active ==> t in s.active && r.0.active[t] == s.active[t]
    ensures r.1.Gone? ==> s.brackets[b].ticker !in r.0.active
  {
    var t := s.brackets[b].ticker;
    if !bypassCooldown && env.cooling then (s, NotGone)
    else if t in s.actions && s.actions[t].Succeeded? then (RemovePosition(s, t), Gone)
    else if t in s.actions && s.actions[t].Submitted? then (s, NotGone)
    else SubmitSell(cfg, SetAction(s, t, Submitted), b, override, env, origin)
  }

  // ---- The scheduled exit -------------------------------------------------

  /** What became of its limit sell: the executor has no limit sells; no order id came back; it filled, and the trade
      was recorded or not; it did not fill and was cancelled; or some call raised. */
  datatype LimitReply = NotSupported | NoOrderId | LimitFilled(recorded: bool) | Unfilled | LimitRaised

  /** The passed bid, or the bid the book corroborates when that one is lower. */
  function LimitPrice(bid: Option<int>, confirmed: Option<int>): Option<int> {
    if bid.None? || bid.value <= 0 then None
    else if confirmed.Some? && confirmed.value < bid.value then confirmed
    else bid
  }

  /** A sell limit at the bid, and the stop-loss sell when it does not fill. */
  function IntradayExit(cfg: Config, s: State, b: nat, bid: Option<int>, confirmed: Option<int>, reply: LimitReply,
                        exec: ExecEnv): (r: State)
    requires b < |s.brackets|
    ensures LedgerFrame(s, r)
    ensures forall t :: t in r.active ==> t in s.active && r.active[t] == s.active[t]
  {
    var t := s.brackets[b].ticker; var qty := ExitQuantity(cfg, s, b).managed; var price := LimitPrice(bid, confirmed);
    if qty <= 0 then s
    else if price.None? || reply.NotSupported? then ExecuteStopLoss(cfg, s, b, None, true, exec, None).0
    else
      var s1 := s.(log := s.log + [Limit(t, price.value, qty)]);
      if reply.LimitFilled? then (if reply.recorded then RemovePosition(s1, t) else s1)
      else ExecuteStopLoss(cfg, s1, b, None, true, exec, None).0
  }

  // ---- Dispatch ---------------------------------------------------------

  /** A buyer is back: the cached bid is above the no-bid ceiling. */
  predicate Revived(cfg: Config, quote: Option<Quote>) {
    quote.Some? && quote.value.bid.Some? && quote.value.bid.value > cfg.noBidMaxBid
  }

  predicate LatchedShut(cfg: Config, s: State, b: nat, quote: Option<Quote>)
    requires b < |s.brackets|
  {
    s.brackets[b].unfillable && !Revived(cfg, quote)
  }

  function ClearLatch(s: State, b: nat): State
    requires b < |s.brackets|
  {
    s.(brackets := s.brackets[b := s.brackets[b].(unfillable := false)])
  }

  predicate InFlight(s: State, t: Ticker) {
    t in s.exitTasks && s.exitTasks[t] < |s.tasks| && !s.tasks[s.exitTasks[t]].finished
  }

  function Dispatch(cfg: Config, s: State, b: nat, quote: Option<Quote>): State
    requires b < |s.brackets|
  {
    if LatchedShut(cfg, s, b, quote) then s
    else
      var s1 := ClearLatch(s, b);
      var t := s.brackets[b].ticker;
      if InFlight(s1, t) then s1 else StartRun(s1, t, b)
  }

  function StartRun(s: State, t: Ticker, b: nat): State {
    s.(tasks := s.tasks + [Task(t, b, 1, 0, false)], exitTasks := s.exitTasks[t := |s.tasks|])
  }

  // ---- One iteration of the panic-flatten loop ----------------------------

  function SetTask(s: State, id: nat, task: Task): State
    requires id < |s.tasks|
  {
    s.(tasks := s.tasks[id := task])
  }

  function Finish(s: State, id: nat): State
    requires id < |s.tasks|
  {
    SetTask(s, id, s.tasks[id].(finished := true))
  }

  predicate Degraded(cfg: Config, r: Reading) {
    || r.quote.None?
    || (cfg.QuoteAgeLimit() > 0 && r.ageMs.Some? && r.ageMs.value > cfg.QuoteAgeLimit())
  }

  predicate AskAtStop(cfg: Config, r: Reading) {
    r.quote.Some? && r.quote.value.ask.Some? && r.quote.value.ask.value <= cfg.stopPrice
  }

  /** No bid to sell into and the ask already at the panic floor. */
  predicate DeadBook(cfg: Config, r: Reading) {
    && r.quote.Some?
    && r.quote.value.bid.Some? && r.quote.value.bid.value <= cfg.noBidMaxBid
    && r.quote.value.ask.Some? && r.quote.value.ask.value <= cfg.PanicPrice()
  }

  predicate Holding(s: State, t: Ticker) {
    t in s.active && s.active[t] < |s.brackets| && s.brackets[s.active[t]].quantity > 0
  }

  /** The bracket an iteration works on: the active one, else the run's own bracket reconciled with the exchange.
      `None` as second component: the position is confirmed gone and the run ends. */
  function PickCurrent(cfg: Config, s: State, id: nat, reply: PositionsReply): (r: (State, Option<nat>))
    requires id < |s.tasks| && s.tasks[id].bracket < |s.brackets|
    ensures LedgerFrame(s, r.0) && r.0.log == s.log && r.0.actions == s.actions && r.0.active == s.active
    ensures r.1.Some? ==> r.1.value < |s.brackets|
    ensures r.1.Some? ==> r.1.value == s.tasks[id].bracket ||
                          (s.tasks[id].ticker in s.active && r.1.value == s.active[s.tasks[id].ticker])
  {
    var task := s.tasks[id];
    if Holding(s, task.ticker) then (s, Some(s.active[task.ticker]))
    else
      var rest := ConfirmRemaining(cfg, s, task.bracket, 0, reply);
      var s1 := Heard(s, s.brackets[task.bracket].ticker, reply);
      if rest.managed <= 0 then (s1, None)
      else (Reconcile(s1, task.bracket, rest), Some(task.bracket))
  }

  datatype Verdict = Recovered | Unfillable | Proceed

  function NextNoBid(cfg: Config, noBid: nat, r: Reading): nat {
    if Degraded(cfg, r) || !AskAtStop(cfg, r) || !cfg.abandonWhenNoBid then noBid
    else if DeadBook(cfg, r) then noBid + 1 else 0
  }

  /** The check made right before a sell is handed out. */
  function Revalidate(cfg: Config, noBid: nat, r: Reading): Verdict {
    if Degraded(cfg, r) then Proceed
    else if !AskAtStop(cfg, r) then Recovered
    else if cfg.abandonWhenNoBid && NextNoBid(cfg, noBid, r) >= cfg.ConfirmChecks() then Unfillable
    else Proceed
  }

  /** What happens once all attempts are used up. */
  function Exhausted(cfg: Config, s: State, id: nat, reply: PositionsReply): State
    requires id < |s.tasks| && s.tasks[id].bracket < |s.brackets|
  {
    var b := s.tasks[id].bracket;
    var rest := ConfirmRemaining(cfg, s, b, 0, reply);
    var s1 := Finish(Reconcile(Heard(s, s.brackets[b].ticker, reply), b, rest), id);
    if rest.managed <= 0 then
      var s2 := DecrementAndClear(cfg, s1, b);
      if rest.total > 0 then RemovePosition(s2, s.tasks[id].ticker) else s2
    else Rollback(cfg, s1, b)
  }

  /** What an iteration does with the outcome of its sell. */
  function AfterAttempt(cfg: Config, s: State, id: nat, cur: nat, outcome: Outcome, env: AttemptEnv): State
    requires id < |s.tasks| && s.tasks[id].bracket < |s.brackets| && cur < |s.brackets|
  {
    var task := s.tasks[id];
    if outcome.Gone? then DecrementAndClear(cfg, Finish(s, id), cur)
    else if outcome.NotGone? && task.ticker !in s.active then Finish(s, id)
    else if task.attempt < cfg.MaxRetries() then SetTask(s, id, task.(attempt := task.attempt + 1))
    else Exhausted(cfg, s, id, env.exhausted)
  }

  /** The state in which an iteration's quote has been read and its verdict logged. */
  function AfterReading(cfg: Config, s: State, id: nat, r: Reading): (s': State)
    requires id < |s.tasks|
    ensures s'.brackets == s.brackets && s'.ledger == s.ledger && s'.active == s.active
    ensures s'.exitTasks == s.exitTasks && |s'.tasks| == |s.tasks|
    ensures s'.log == s.log + [Revalidated(id, r)]
  {
    var task := s.tasks[id];
    SetTask(s, id, task.(noBid := NextNoBid(cfg, task.noBid, r))).(log := s.log + [Revalidated(id, r)])
  }

  function Attempt(cfg: Config, s: State, id: nat, env: AttemptEnv): State
    requires id < |s.tasks| && s.tasks[id].bracket < |s.brackets|
  {
    var (s1, current) := PickCurrent(cfg, s, id, env.missing);
    if current.None? then Finish(s1, id)
    else
      var cur := current.value;
      var s2 := AfterReading(cfg, s1, id, env.reading);
      match Revalidate(cfg, s1.tasks[id].noBid, env.reading)
      case Recovered => Rollback(cfg, Finish(s2, id), cur)
      case Unfillable => LatchUnfillable(Finish(s2, id), s.tasks[id].bracket)
      case Proceed =>
        var (s3, outcome) := ExecuteStopLoss(cfg, s2, cur, Some(cfg.PanicPrice()), true, env.exec, Some(id));
        AfterAttempt(cfg, s3, id, cur, outcome, env)
  }

  function LatchUnfillable(s: State, b: nat): State
    requires b < |s.brackets|
  {
    s.(brackets := s.brackets[b := s.brackets[b].(unfillable := true)])
  }

  // ---- Steps --------------------------------------------------------------

  datatype Step =
    | Enter(ticker: Ticker, qty: int, app: int, saved: bool)
    | Close(ticker: Ticker)
    | WatcherTrigger(ticker: Ticker, quantity: int, quote: Option<Quote>, exec: ExecEnv)
    | PhaseCTrigger(ticker: Ticker, quote: Option<Quote>, exec: ExecEnv)
    | PhaseCRecovered(ticker: Ticker)
    | BlindFlatten(ticker: Ticker, override: int, exec: ExecEnv)
    | ScheduledExit(ticker: Ticker, bid: Option<int>, confirmed: Option<int>, limit: LimitReply, exec: ExecEnv)
    | CloseOut(ticker: Ticker, exec: ExecEnv)
    | PositionSync(ticker: Ticker, count: Option<int>, fills: FillLookup)
    | Adopt(ticker: Ticker, qty: int, fills: FillLookup)
    | PanicAttempt(task: nat, env: AttemptEnv)
    | TaskCleanup(task: nat)

  /** Contracts join the active bracket, or a new bracket object becomes active. */
  function JoinPosition(s: State, t: Ticker, qty: int, app: int): State {
    var s1 := WasTold(s, t);
    if IsActive(s, t) then
      var total := s.brackets[s.active[t]].quantity + qty;
      SetOwnership(SetQuantity(s1, s.active[t], total), t, total, app)
    else
      var own := Bracket(t, qty, false, false);
      SetOwnership(s1.(brackets := s.brackets + [own], active := s.active[t := |s.brackets|]), t, qty, app)
  }

  /** The action record of an earlier stop-loss is deleted in the transaction that saves the entry, if that commits. */
  function ForgetAction(s: State, t: Ticker, saved: bool): State {
    if saved then s.(actions := s.actions - {t}) else s
  }

  /** A filled entry. */
  function EnterPosition(s: State, t: Ticker, qty: int, app: int, saved: bool): State {
    JoinPosition(ForgetAction(s, t, saved), t, qty, app)
  }

  /** The exchange lists a position memory does not hold; it is taken over as far as it is the application's.  The
      action record stays. */
  function AdoptPosition(cfg: Config, s: State, t: Ticker, qty: int, fills: FillLookup): State {
    if qty <= 0 || IsActive(s, t) then s
    else if cfg.manageExternal then JoinPosition(s, t, qty, qty)
    else
      var app := AppOwned(t, qty, 0, false, fills);
      if app <= 0 then SetOwnership(s, t, qty, app) else JoinPosition(s, t, qty, app)
  }

  /** The periodic reconciliation with the exchange's position list; `count` is `None` when it does not parse. */
  function SyncPosition(cfg: Config, s: State, b: nat, count: Option<int>, fills: FillLookup): State
    requires b < |s.brackets|
  {
    var t := s.brackets[b].ticker;
    if count == Some(0) then RemovePosition(s, t)
    else
      var q := if count.Some? then count.value else Max(s.brackets[b].quantity, 0);
      var known := if t in s.appOwned then s.appOwned[t] else q;
      SetOwnership(SetQuantity(WasTold(s, t), b, q), t, q, AppOwned(t, q, known, cfg.manageExternal, fills))
  }

  /** The exit itself: through a task, or directly when the fast exit is switched off. */
  function ExitNow(cfg: Config, s: State, b: nat, quote: Option<Quote>, exec: ExecEnv): State
    requires b < |s.brackets|
  {
    if cfg.fastExit then Dispatch(cfg, s, b, quote)
    else
      var (s1, outcome) := ExecuteStopLoss(cfg, s, b, None, false, exec, None);
      if outcome.Gone? then DecrementAndClear(cfg, s1, b) else s1
  }

  /** The watcher adopts the quantity it was told and re-clamps the recorded ownership to it. */
  function AdoptQuantity(s: State, b: nat, quantity: int): State
    requires b < |s.brackets|
  {
    var t := s.brackets[b].ticker;
    var known := if t in s.appOwned then s.appOwned[t] else quantity;
    SetOwnership(SetQuantity(WasTold(s, t), b, quantity), t, quantity, known)
  }

  function Watcher(cfg: Config, s: State, b: nat, quantity: int, quote: Option<Quote>, exec: ExecEnv): State
    requires b < |s.brackets|
  {
    if LatchedShut(cfg, s, b, quote) then s
    else ExitNow(cfg, MarkCounted(cfg, AdoptQuantity(ClearLatch(s, b), b, quantity), b), b, quote, exec)
  }

  function PhaseC(cfg: Config, s: State, b: nat, quote: Option<Quote>, exec: ExecEnv): State
    requires b < |s.brackets|
  {
    if s.brackets[b].quantity <= 0 then s.(active := s.active - {s.brackets[b].ticker})
    else if ExitQuantity(cfg, s, b).managed <= 0 then s
    else ExitNow(cfg, MarkCounted(cfg, s, b), b, quote, exec)
  }

  /** The price is back above the stop: the count is taken back unless a run is in flight or the exit succeeded. */
  function Recovery(cfg: Config, s: State, b: nat): State
    requires b < |s.brackets|
  {
    var t := s.brackets[b].ticker;
    if s.brackets[b].counted && !InFlight(s, t) && !(t in s.actions && s.actions[t].Succeeded?)
    then Rollback(cfg, s, b) else s
  }

  function Cleanup(s: State, id: nat): State {
    if id < |s.tasks| && s.tasks[id].finished && s.tasks[id].ticker in s.exitTasks
       && s.exitTasks[s.tasks[id].ticker] == id
    then s.(exitTasks := s.exitTasks - {s.tasks[id].ticker}) else s
  }

  predicate IsActive(s: State, t: Ticker) { t in s.active && s.active[t] < |s.brackets| }

  predicate IsRunning(s: State, id: nat) {
    id < |s.tasks| && !s.tasks[id].finished && s.tasks[id].bracket < |s.brackets|
  }

  function Apply(cfg: Config, s: State, step: Step): State {
    match step
    case Enter(t, qty, app, saved) => EnterPosition(s, t, qty, app, saved)
    case Close(t) => RemovePosition(s, t)
    case WatcherTrigger(t, quantity, quote, exec) =>
      if IsActive(s, t) then Watcher(cfg, s, s.active[t], quantity, quote, exec) else s
    case PhaseCTrigger(t, quote, exec) =>
      if IsActive(s, t) then PhaseC(cfg, s, s.active[t], quote, exec) else s
    case PhaseCRecovered(t) =>
      if IsActive(s, t) then Recovery(cfg, s, s.active[t]) else s
    case BlindFlatten(t, override, exec) =>
      if IsActive(s, t) && ExitQuantity(cfg, s, s.active[t]).app > 0
      then ExecuteStopLoss(cfg, s, s.active[t], Some(override), true, exec, None).0 else s
    case ScheduledExit(t, bid, confirmed, limit, exec) =>
      if IsActive(s, t) then IntradayExit(cfg, s, s.active[t], bid, confirmed, limit, exec) else s
    case CloseOut(t, exec) =>
      if IsActive(s, t) then ExecuteStopLoss(cfg, s, s.active[t], None, true, exec, None).0 else s
    case PositionSync(t, count, fills) =>
      if IsActive(s, t) then SyncPosition(cfg, s, s.active[t], count, fills) else s
    case Adopt(t, qty, fills) => AdoptPosition(cfg, s, t, qty, fills)
    case PanicAttempt(id, env) => if IsRunning(s, id) then Attempt(cfg, s, id, env) else s
    case TaskCleanup(id) => Cleanup(s, id)
  }

  function Run(cfg: Config, s: State, steps: seq<Step>): State
    decreases |steps|
  {
    if steps == [] then s else Run(cfg, Apply(cfg, s, steps[0]), steps[1..])
  }
}
