/** What each step of the stop-loss machine does to the fields, path by path. */
module StopLossPieces {
  import opened Common
  import opened Ownership
  import opened StopLoss
  import opened StopLossSafety
  import opened StopLossEffects

  // ------------------------------------------------------------------
  // Counting
  // ------------------------------------------------------------------

  function CountOf(s: State, k: LedgerKey): int { if k in s.ledger then s.ledger[k] else 0 }

  function Flagged(s: State, b: nat, flag: bool): seq<Bracket>
    requires b < |s.brackets|
  {
    s.brackets[b := Bracket(s.brackets[b].ticker, s.brackets[b].quantity, flag, s.brackets[b].unfillable)]
  }

  /** A bracket is counted once: the first time, its market's count rises by one, up to the factor and to one at least;
      a market without a key is flagged only. */
  lemma CountIs(cfg: Config, s: State, b: nat)
    requires b < |s.brackets|
    ensures var s' := MarkCounted(cfg, s, b); var key := cfg.ledgerKey(s.brackets[b].ticker);
      var cap := if cfg.hedgeMaxFactor < 1 then 1 else cfg.hedgeMaxFactor;
      && s' == s.(brackets := Flagged(s, b, true), ledger := s'.ledger)
      && s'.ledger ==
         if s.brackets[b].counted || key.None? then s.ledger
         else s.ledger[key.value := if CountOf(s, key.value) < cap then CountOf(s, key.value) + 1 else cap]
  {
    if s.brackets[b].counted { assert Flagged(s, b, true) == s.brackets; }
  }

  /** Taking a count back clears the flag, and lowers the market's count by one unless it is at zero. */
  lemma UncountIs(cfg: Config, s: State, b: nat)
    requires b < |s.brackets|
    ensures var s' := DecrementAndClear(cfg, s, b); var key := cfg.ledgerKey(s.brackets[b].ticker);
      && s' == s.(brackets := Flagged(s, b, false), ledger := s'.ledger)
      && s'.ledger == if key.None? || CountOf(s, key.value) <= 0 then s.ledger
                      else s.ledger[key.value := CountOf(s, key.value) - 1]
    ensures Rollback(cfg, s, b) == if s.brackets[b].counted then DecrementAndClear(cfg, s, b) else s
  {}

  // ------------------------------------------------------------------
  // Entries, adoptions and syncs
  // ------------------------------------------------------------------

  function Within(x: int, total: int): int { if x < 0 || total < 0 then 0 else if total < x then total else x }

  /** Contracts that join memory: the active bracket grows by them, or a fresh uncounted one of their size becomes
      active; what is recorded as owned is the given figure, within the new size. */
  lemma JoinIs(s: State, t: Ticker, qty: int, app: int)
    ensures var s' := JoinPosition(s, t, qty, app); var held := t in s.active && s.active[t] < |s.brackets|;
      var total := if held then s.brackets[s.active[t]].quantity + qty else qty;
      && s' == s.(brackets := s'.brackets, active := s'.active, appOwned := s.appOwned[t := Within(app, total)],
                  notices := s.notices + [Told(t, |s.log|)])
      && if held
         then
           var b := s.active[t];
           && s'.active == s.active && |s'.brackets| == |s.brackets|
           && s'.brackets[b] == s.brackets[b].(quantity := total)
           && forall c :: 0 <= c < |s.brackets| && c != b ==> s'.brackets[c] == s.brackets[c]
         else
           && s'.brackets == s.brackets + [Bracket(t, qty, false, false)] && s'.active == s.active[t := |s.brackets|]
  {}

  /** An entry joins memory, and its saving forgets how the market's last exit ended. */
  lemma EnterIs(s: State, t: Ticker, qty: int, app: int, saved: bool)
    ensures EnterPosition(s, t, qty, app, saved) ==
      JoinPosition(if saved then s.(actions := s.actions - {t}) else s, t, qty, app)
  {
    hide JoinPosition;
  }

  /** A listed position that memory does not hold is taken over whole when external contracts are managed, and for what
      the fills say is the application's otherwise; when that is nothing, only that is recorded. */
  lemma AdoptIs(cfg: Config, s: State, t: Ticker, qty: int, fills: FillLookup)
    ensures var s' := AdoptPosition(cfg, s, t, qty, fills);
      var owned := if cfg.manageExternal then qty else OwnedOf(cfg, t, qty, 0, 0, fills);
      if qty <= 0 || (t in s.active && s.active[t] < |s.brackets|) then s' == s
      else if owned == 0 then s' == s.(appOwned := s.appOwned[t := 0])
      else s' == JoinPosition(s, t, qty, owned) && 0 < owned <= qty
  {
    hide JoinPosition;
    if qty > 0 && !cfg.manageExternal {
      OwnedIsAppOwned(cfg, t, qty, 0, 0, fills);
      hide OwnedOf;
    }
  }

  /** A sync takes a position listed as zero out of memory; else the listed count, or the known one when it cannot be
      read, is the size, and the recorded ownership follows the fills, or stays within the new size without any. */
  lemma SyncIs(cfg: Config, s: State, b: nat, count: Option<int>, fills: FillLookup)
    requires b < |s.brackets|
    ensures var s' := SyncPosition(cfg, s, b, count, fills); var t := s.brackets[b].ticker;
      if count.Some? && count.value == 0 then s' == s.(active := s.active - {t}, appOwned := s.appOwned - {t})
      else
        var q := if count.Some? then count.value else if s.brackets[b].quantity < 0 then 0 else s.brackets[b].quantity;
        var known := if t in s.appOwned then s.appOwned[t] else q;
        var owned := if q < 0 then 0 else OwnedOf(cfg, t, q, known, 0, fills);
        s' == s.(brackets := s.brackets[b := s.brackets[b].(quantity := q)], appOwned := s.appOwned[t := owned],
                 notices := s.notices + [Told(t, |s.log|)])
  {
    hide OwnedOf, AppOwned, LedgerFrame, Clamp;
    var t := s.brackets[b].ticker;
    var q := if count.Some? then count.value else Max(s.brackets[b].quantity, 0);
    SyncedOwned(cfg, t, q, if t in s.appOwned then s.appOwned[t] else q, fills);
  }

  lemma SyncedOwned(cfg: Config, t: Ticker, q: int, known: int, fills: FillLookup)
    ensures Clamp(AppOwned(t, q, known, cfg.manageExternal, fills), Max(q, 0)) ==
      if q < 0 then 0 else OwnedOf(cfg, t, q, known, 0, fills)
  {
    if q >= 0 { OwnedWithin(cfg, t, q, known, fills); }
    hide OwnedOf, AppOwned;
  }

  lemma OwnedWithin(cfg: Config, t: Ticker, total: int, known: int, fills: FillLookup)
    requires total >= 0
    ensures AppOwned(t, total, known, cfg.manageExternal, fills) == OwnedOf(cfg, t, total, known, 0, fills)
    ensures 0 <= OwnedOf(cfg, t, total, known, 0, fills) <= total
  {
    OwnedIsAppOwned(cfg, t, total, known, 0, fills);
  }

  /** A websocket trigger brings its own quantity, which becomes the size and bounds the recorded ownership. */
  lemma QuantityIs(s: State, b: nat, quantity: int)
    requires b < |s.brackets|
    ensures var s' := AdoptQuantity(s, b, quantity); var t := s.brackets[b].ticker;
      var known := if t in s.appOwned then s.appOwned[t] else quantity;
      s' == s.(brackets := s.brackets[b := s.brackets[b].(quantity := quantity)],
               appOwned := s.appOwned[t := Within(known, quantity)], notices := s.notices + [Told(t, |s.log|)])
  {}

  // ------------------------------------------------------------------
  // Triggers
  // ------------------------------------------------------------------

  /** The bracket was latched unfillable and no bid above the ceiling has come back. */
  predicate Shut(cfg: Config, s: State, b: nat, quote: Option<Quote>)
    requires b < |s.brackets|
  {
    && s.brackets[b].unfillable
    && !(quote.Some? && quote.value.bid.Some? && cfg.noBidMaxBid < quote.value.bid.value)
  }

  /** The market's exit task is unfinished. */
  predicate Exiting(s: State, t: Ticker) {
    t in s.exitTasks && s.exitTasks[t] < |s.tasks| && !s.tasks[s.exitTasks[t]].finished
  }

  function Unlatched(s: State, b: nat): State
    requires b < |s.brackets|
  {
    s.(brackets := s.brackets[b := s.brackets[b].(unfillable := false)])
  }

  /** A shut bracket is left alone.  Any other is unlatched, and unless its market is exiting already, a run at its
      first attempt starts for it and is the market's task. */
  lemma DispatchIs(cfg: Config, s: State, b: nat, quote: Option<Quote>)
    requires b < |s.brackets|
    ensures var s' := Dispatch(cfg, s, b, quote); var t := s.brackets[b].ticker;
      if Shut(cfg, s, b, quote) then s' == s
      else if Exiting(s, t) then s' == Unlatched(s, b)
      else s' == Unlatched(s, b).(tasks := s.tasks + [Task(t, b, 1, 0, false)],
                                  exitTasks := s.exitTasks[t := |s.tasks|])
  {}

  /** The exit goes through a task when the fast exit is on; else a sell at one cent, or at a lower stop, is handed out
      at once unless it is cooling down, and a position found gone is not counted any more. */
  lemma ExitNowIs(cfg: Config, s: State, b: nat, quote: Option<Quote>, exec: ExecEnv)
    requires b < |s.brackets|
    ensures var direct := ExecuteStopLoss(cfg, s, b, None, false, exec, None);
      ExitNow(cfg, s, b, quote, exec) ==
        if cfg.fastExit then Dispatch(cfg, s, b, quote)
        else if direct.1 == Gone then DecrementAndClear(cfg, direct.0, b) else direct.0
  {
    hide ExecuteStopLoss, Dispatch, DecrementAndClear;
  }

  /** A websocket trigger on a bracket that is not shut unlatches it, takes the quantity over, counts it and exits. */
  lemma WatcherIs(cfg: Config, s: State, b: nat, quantity: int, quote: Option<Quote>, exec: ExecEnv)
    requires b < |s.brackets|
    ensures Watcher(cfg, s, b, quantity, quote, exec) ==
      if Shut(cfg, s, b, quote) then s
      else ExitNow(cfg, MarkCounted(cfg, AdoptQuantity(Unlatched(s, b), b, quantity), b), b, quote, exec)
  {
    hide ExitNow, MarkCounted, AdoptQuantity;
  }

  /** The polled trigger drops an empty bracket, leaves one with nothing to sell, and counts and exits any other. */
  lemma PhaseCIs(cfg: Config, s: State, b: nat, quote: Option<Quote>, exec: ExecEnv)
    requires b < |s.brackets|
    ensures var t, q := s.brackets[b].ticker, s.brackets[b].quantity;
      PhaseC(cfg, s, b, quote, exec) ==
        if q <= 0 then s.(active := s.active - {t})
        else if !cfg.manageExternal && t in s.appOwned && s.appOwned[t] <= 0 then s
        else ExitNow(cfg, MarkCounted(cfg, s, b), b, quote, exec)
  {
    hide ExitNow, MarkCounted;
  }

  /** A recovered price takes the count back when no exit of the market is unfinished or has succeeded; and a finished
      task is forgotten when it is still the market's. */
  lemma RecoveryIs(cfg: Config, s: State, b: nat, id: nat)
    requires b < |s.brackets|
    ensures var t := s.brackets[b].ticker;
      Recovery(cfg, s, b) ==
        if s.brackets[b].counted && !Exiting(s, t) && !(t in s.actions && s.actions[t] == Succeeded)
        then DecrementAndClear(cfg, s, b) else s
    ensures Cleanup(s, id) ==
      if id < |s.tasks| && s.tasks[id].finished && s.tasks[id].ticker in s.exitTasks
         && s.exitTasks[s.tasks[id].ticker] == id
      then s.(exitTasks := s.exitTasks - {s.tasks[id].ticker}) else s
  {
    hide DecrementAndClear;
  }

  // ------------------------------------------------------------------
  // A scheduled exit
  // ------------------------------------------------------------------

  /** Something of the bracket may be sold. */
  predicate Sellable(cfg: Config, s: State, b: nat)
    requires b < |s.brackets|
  {
    var t := s.brackets[b].ticker;
    0 < s.brackets[b].quantity && (cfg.manageExternal || t !in s.appOwned || 0 < s.appOwned[t])
  }

  /** A scheduled exit first hands out a limit at the bid, or at the confirmed bid when that is lower, for all that may
      be sold.  A limit that fills ends it, and a trade that is recorded takes the position out of memory; without a
      bid or limit sells, or when it does not fill, a stop-loss sell at one cent is handed out next. */
  lemma ScheduledIs(cfg: Config, s: State, b: nat, bid: Option<int>, confirmed: Option<int>, reply: LimitReply,
                    exec: ExecEnv)
    requires b < |s.brackets|
    ensures var t := s.brackets[b].ticker; var s' := IntradayExit(cfg, s, b, bid, confirmed, reply, exec);
      if !Sellable(cfg, s, b) then s' == s
      else if bid.None? || bid.value <= 0 || reply == NotSupported then
        s' == ExecuteStopLoss(cfg, s, b, None, true, exec, None).0
      else
        var price := if confirmed.Some? && confirmed.value < bid.value then confirmed.value else bid.value;
        var s1 := s.(log := s.log + [Limit(t, price, AsksFor(cfg, s, b))]);
        s' == if reply == LimitFilled(true) then s1.(active := s1.active - {t}, appOwned := s1.appOwned - {t})
              else if reply == LimitFilled(false) then s1
              else ExecuteStopLoss(cfg, s1, b, None, true, exec, None).0
  {
    hide ExecuteStopLoss;
    assert Sellable(cfg, s, b) <==> ExitQuantity(cfg, s, b).managed > 0;
    assert Sellable(cfg, s, b) ==> ExitQuantity(cfg, s, b).managed == AsksFor(cfg, s, b);
    hide ExitQuantity;
  }

  // ------------------------------------------------------------------
  // One attempt of a run
  // ------------------------------------------------------------------

  /** The bracket an attempt works on is the active one while it has contracts; else the exchange is asked about the
      run's own: memory takes over what it lists, or the position is gone when nothing of it is managed. */
  lemma PickIs(cfg: Config, s: State, id: nat, reply: PositionsReply)
    requires id < |s.tasks| && s.tasks[id].bracket < |s.brackets|
    ensures var (s', current) := PickCurrent(cfg, s, id, reply);
      var t, b := s.tasks[id].ticker, s.tasks[id].bracket; var u, q := s.brackets[b].ticker, s.brackets[b].quantity;
      var before := if u in s.appOwned then s.appOwned[u] else if q < 0 then 0 else q;
      if t in s.active && s.active[t] < |s.brackets| && 0 < s.brackets[s.active[t]].quantity
      then s' == s && current == Some(s.active[t])
      else if reply.PositionsFailed? then
        if !Sellable(cfg, s, b) then s' == s && current.None?
        else current == Some(b) && s' == s.(appOwned := s.appOwned[u := Within(before, q)])
      else
        var total := if reply.count.Some? && reply.count.value > 0 then reply.count.value else 0;
        var owned := OwnedOf(cfg, u, total, before, 0, reply.fills);
        var noted := s.(notices := s.notices + [Listed(u, total, |s.log|)]);
        if owned == 0 then s' == noted && current.None?
        else
          && current == Some(b)
          && s' == noted.(brackets := s.brackets[b := s.brackets[b].(quantity := total)],
                          appOwned := s.appOwned[u := owned])
  {
    hide ConfirmRemaining, OwnedOf, Sellable, LedgerFrame;
    var b := s.tasks[id].bracket;
    if reply.Live? { AnsweredIs(cfg, s, b, reply); } else { SilentIs(cfg, s, b); }
    assert s.brackets[b := s.brackets[b].(quantity := s.brackets[b].quantity)] == s.brackets;
  }

  lemma AnsweredIs(cfg: Config, s: State, b: nat, reply: PositionsReply)
    requires b < |s.brackets| && reply.Live?
    ensures var u, q := s.brackets[b].ticker, s.brackets[b].quantity;
      var before := if u in s.appOwned then s.appOwned[u] else if q < 0 then 0 else q;
      var total := if reply.count.Some? && reply.count.value > 0 then reply.count.value else 0;
      var owned := OwnedOf(cfg, u, total, before, 0, reply.fills);
      0 <= owned <= total && ConfirmRemaining(cfg, s, b, 0, reply) == Remaining(true, total, owned, owned)
  {
    var u, q := s.brackets[b].ticker, s.brackets[b].quantity;
    var total := if reply.count.Some? then Max(reply.count.value, 0) else 0;
    var before := if u in s.appOwned then s.appOwned[u] else Max(q, 0);
    OwnedIsAppOwned(cfg, u, total, before, 0, reply.fills);
    hide AppOwned, OwnedOf;
  }

  lemma SilentIs(cfg: Config, s: State, b: nat)
    requires b < |s.brackets|
    ensures var u, q := s.brackets[b].ticker, s.brackets[b].quantity;
      var before := if u in s.appOwned then s.appOwned[u] else if q < 0 then 0 else q;
      var r := ConfirmRemaining(cfg, s, b, 0, PositionsFailed);
      && !r.confirmed && r.total == (if q < 0 then 0 else q) && r.app == Within(before, q)
      && (r.managed > 0 <==> Sellable(cfg, s, b))
  {}

  /** The quote is missing, or older than allowed. */
  predicate Unusable(cfg: Config, r: Reading) {
    var limit := if cfg.maxQuoteAgeMs == 0 then 30000 else cfg.maxQuoteAgeMs;
    r.quote.None? || (0 < limit && r.ageMs.Some? && limit < r.ageMs.value)
  }

  /** The ask is at the panic floor and there is no bid above the ceiling. */
  predicate NoBuyer(cfg: Config, r: Reading) {
    && r.quote.Some? && r.quote.value.bid.Some? && r.quote.value.ask.Some?
    && r.quote.value.bid.value <= cfg.noBidMaxBid
    && (r.quote.value.ask.value <= 1 || r.quote.value.ask.value <= cfg.panicSellPrice)
  }

  /** Right before the sell: an unusable quote does not stop it; a usable one whose ask is gone or above the stop ends
      the run; and so does, when runs are abandoned, the last of as many quotes without a buyer in a row as are asked
      for. */
  lemma VerdictIs(cfg: Config, noBid: nat, r: Reading)
    ensures var gone := !Unusable(cfg, r) && (r.quote.value.ask.None? || cfg.stopPrice < r.quote.value.ask.value);
      var counts := !Unusable(cfg, r) && !gone && cfg.abandonWhenNoBid;
      && NextNoBid(cfg, noBid, r) == (if !counts then noBid else if NoBuyer(cfg, r) then noBid + 1 else 0)
      && (Revalidate(cfg, noBid, r) == Recovered <==> gone)
      && (Revalidate(cfg, noBid, r) == Unfillable <==>
            && counts && 1 <= NextNoBid(cfg, noBid, r) && cfg.noBidConfirmChecks <= NextNoBid(cfg, noBid, r))
  {}

  /** An attempt whose position is gone ends the run.  Else it reads the quote; the verdict ends the run, taking back
      the count of a recovered position and latching an unfillable one, or hands out a sell at the panic price. */
  lemma AttemptIs(cfg: Config, s: State, id: nat, env: AttemptEnv)
    requires id < |s.tasks| && s.tasks[id].bracket < |s.brackets|
    ensures var (s1, current) := PickCurrent(cfg, s, id, env.missing); var task := s.tasks[id];
      var over := s1.(tasks := s1.tasks[id := task.(finished := true)]);
      if current.None? then Attempt(cfg, s, id, env) == over
      else
        var noBid := NextNoBid(cfg, task.noBid, env.reading);
        var read := s1.(tasks := s1.tasks[id := task.(noBid := noBid)], log := s.log + [Revalidated(id, env.reading)]);
        var ended := read.(tasks := s1.tasks[id := task.(noBid := noBid, finished := true)]);
        match Revalidate(cfg, task.noBid, env.reading)
        case Recovered => Attempt(cfg, s, id, env) == Rollback(cfg, ended, current.value)
        case Unfillable =>
          var b := task.bracket;
          Attempt(cfg, s, id, env) == ended.(brackets := s1.brackets[b := s1.brackets[b].(unfillable := true)])
        case Proceed =>
          var price := if cfg.panicSellPrice < 1 then 1 else cfg.panicSellPrice;
          var (s3, outcome) := ExecuteStopLoss(cfg, read, current.value, Some(price), true, env.exec, Some(id));
          Attempt(cfg, s, id, env) == AfterAttempt(cfg, s3, id, current.value, outcome, env)
  {
    hide PickCurrent, NextNoBid, Revalidate, Rollback, ExecuteStopLoss, AfterAttempt, ConfirmRemaining;
    assert cfg.PanicPrice() == if cfg.panicSellPrice < 1 then 1 else cfg.panicSellPrice;
    var (s1, current) := PickCurrent(cfg, s, id, env.missing);
    assert s1.tasks == s.tasks;
    var task := s.tasks[id].(noBid := NextNoBid(cfg, s.tasks[id].noBid, env.reading));
    assert s1.tasks[id := task][id := task.(finished := true)] == s1.tasks[id := task.(finished := true)];
  }

  /** After its sell: a position gone for good ends the run and is not counted any more; one that has left memory ends
      it; otherwise the next attempt follows, or after the last one the exhaustion. */
  lemma OutcomeIs(cfg: Config, s: State, id: nat, cur: nat, outcome: Outcome, env: AttemptEnv)
    requires id < |s.tasks| && s.tasks[id].bracket < |s.brackets| && cur < |s.brackets|
    ensures var task := s.tasks[id]; var over := s.(tasks := s.tasks[id := task.(finished := true)]);
      var last := if cfg.panicMaxRetries < 1 then 1 else cfg.panicMaxRetries;
      AfterAttempt(cfg, s, id, cur, outcome, env) ==
        if outcome == Gone then DecrementAndClear(cfg, over, cur)
        else if outcome == NotGone && task.ticker !in s.active then over
        else if task.attempt < last then s.(tasks := s.tasks[id := task.(attempt := task.attempt + 1)])
        else Exhausted(cfg, s, id, env.exhausted)
  {
    hide DecrementAndClear, Exhausted;
  }

  /** A run out of attempts asks the exchange once more.  Memory takes over what it lists, and the count is taken back:
      without looking at the flag when nothing is left to manage, and then contracts that are not managed are dropped
      from memory. */
  lemma ExhaustionIs(cfg: Config, s: State, id: nat, reply: PositionsReply)
    requires id < |s.tasks| && s.tasks[id].bracket < |s.brackets|
    ensures var task := s.tasks[id]; var b := task.bracket; var u, q := s.brackets[b].ticker, s.brackets[b].quantity;
      var before := if u in s.appOwned then s.appOwned[u] else if q < 0 then 0 else q;
      var listed := if reply.Live? then (if reply.count.Some? && reply.count.value > 0 then reply.count.value else 0)
          else if q < 0 then 0 else q;
      var owned := if reply.Live? then OwnedOf(cfg, u, listed, before, 0, reply.fills) else Within(before, q);
      var managed := if reply.Live? then owned > 0 else Sellable(cfg, s, b);
      var over := s.(
        tasks := s.tasks[id := task.(finished := true)],
        brackets := s.brackets[b := s.brackets[b].(quantity := listed)], appOwned := s.appOwned[u := owned],
        notices := if reply.Live? then s.notices + [Listed(u, listed, |s.log|)] else s.notices);
      Exhausted(cfg, s, id, reply) ==
        if managed then Rollback(cfg, over, b)
        else
          var cleared := DecrementAndClear(cfg, over, b);
          if listed == 0 then cleared
          else cleared.(active := cleared.active - {task.ticker}, appOwned := cleared.appOwned - {task.ticker})
  {
    hide Rollback, DecrementAndClear, ConfirmRemaining, OwnedOf, Sellable, LedgerFrame;
    var b := s.tasks[id].bracket;
    if reply.Live? { AnsweredIs(cfg, s, b, reply); } else { SilentIs(cfg, s, b); }
  }

  /** The blind flatten of a market in memory sells, without a cooldown and at the given price, exactly when something
      of it is the application's, external contracts managed or not; a close-out sells at one cent. */
  lemma FlattenIs(cfg: Config, s: State, t: Ticker, override: int, exec: ExecEnv)
    ensures var held := t in s.active && s.active[t] < |s.brackets|;
      && Apply(cfg, s, BlindFlatten(t, override, exec)) ==
         (if held && 0 < s.brackets[s.active[t]].quantity
             && (s.brackets[s.active[t]].ticker in s.appOwned ==> 0 < s.appOwned[s.brackets[s.active[t]].ticker])
          then ExecuteStopLoss(cfg, s, s.active[t], Some(override), true, exec, None).0 else s)
      && Apply(cfg, s, CloseOut(t, exec)) ==
         (if held then ExecuteStopLoss(cfg, s, s.active[t], None, true, exec, None).0 else s)
  {
    hide ExecuteStopLoss, LedgerFrame;
  }

  /** The step names something memory does not know: a market that is not active, or a run that is not unfinished. */
  predicate Idle(s: State, step: Step) {
    if step.PanicAttempt? then
      !(step.task < |s.tasks| && !s.tasks[step.task].finished && s.tasks[step.task].bracket < |s.brackets|)
    else
      && !step.Enter? && !step.Adopt? && !step.Close? && !step.TaskCleanup?
      && !(step.ticker in s.active && s.active[step.ticker] < |s.brackets|)
  }

  /** An idle step does nothing, and a close takes its market out of memory and nothing else. */
  lemma IdleIs(cfg: Config, s: State, step: Step)
    ensures Idle(s, step) ==> Apply(cfg, s, step) == s
    ensures step.Close? ==>
      Apply(cfg, s, step) == s.(active := s.active - {step.ticker}, appOwned := s.appOwned - {step.ticker})
  {
    hide ExecuteStopLoss, LedgerFrame, EnterPosition, AdoptPosition, Attempt, IntradayExit;
  }

  /** Each trigger of a market in memory works on its active bracket. */
  lemma ActiveIs(cfg: Config, s: State, step: Step)
    requires !step.PanicAttempt? && !step.TaskCleanup?
    requires step.ticker in s.active && s.active[step.ticker] < |s.brackets|
    ensures var b := s.active[step.ticker];
      match step
      case WatcherTrigger(_, q, quote, exec) => Apply(cfg, s, step) == Watcher(cfg, s, b, q, quote, exec)
      case PhaseCTrigger(_, quote, exec) => Apply(cfg, s, step) == PhaseC(cfg, s, b, quote, exec)
      case PhaseCRecovered(_) => Apply(cfg, s, step) == Recovery(cfg, s, b)
      case ScheduledExit(_, bid, confirmed, limit, exec) =>
        Apply(cfg, s, step) == IntradayExit(cfg, s, b, bid, confirmed, limit, exec)
      case PositionSync(_, count, fills) => Apply(cfg, s, step) == SyncPosition(cfg, s, b, count, fills)
      case _ => true
  {
    hide Watcher, PhaseC, Recovery, IntradayExit, SyncPosition, LedgerFrame;
  }
}
