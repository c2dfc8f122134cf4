/** What the order log of every stop-loss run shows: how many sells a run may hand out, what it must have read
    right before each, when it may give up, and what silences a market. */
module StopLossLog {
  import opened Common
  import opened Ownership
  import opened StopLoss
  import opened StopLossSafety
  import opened StopLossLedger

  // ------------------------------------------------------------------
  // Reading the log
  // ------------------------------------------------------------------

  /** The sells handed out by exit run `id`. */
  function SellsOf(log: seq<Line>, id: nat): nat {
    if log == [] then 0
    else SellsOf(log[..|log| - 1], id) + (if log[|log| - 1].Sell? && log[|log| - 1].origin == Some(id) then 1 else 0)
  }

  /** The sells stop-loss executions have handed out for market `t`, by whatever path. */
  function SellsFor(log: seq<Line>, t: Ticker): nat {
    if log == [] then 0
    else SellsFor(log[..|log| - 1], t) + (if log[|log| - 1].Sell? && log[|log| - 1].ticker == t then 1 else 0)
  }

  /** The limit sells scheduled exits have handed out for market `t`. */
  function LimitsFor(log: seq<Line>, t: Ticker): nat {
    if log == [] then 0
    else LimitsFor(log[..|log| - 1], t) + (if log[|log| - 1].Limit? && log[|log| - 1].ticker == t then 1 else 0)
  }

  /** The quotes exit run `id` could trust, oldest first. */
  function Fresh(cfg: Config, log: seq<Line>, id: nat): seq<Reading>
    decreases |log|
  {
    if log == [] then []
    else
      var l := log[|log| - 1];
      Fresh(cfg, log[..|log| - 1], id) +
      (if l.Revalidated? && l.task == id && !Degraded(cfg, l.reading) then [l.reading] else [])
  }

  /** The last `n` trusted quotes all showed a dead book. */
  ghost predicate EndsDead(cfg: Config, f: seq<Reading>, n: nat) {
    n <= |f| && forall j :: |f| - n <= j < |f| ==> DeadBook(cfg, f[j])
  }

  /** How many quotes at the end of the list showed a dead book in a row. */
  function TrailingDead(cfg: Config, f: seq<Reading>): nat {
    if f == [] || !DeadBook(cfg, f[|f| - 1]) then 0 else 1 + TrailingDead(cfg, f[..|f| - 1])
  }

  lemma {:induction false} TrailingDeadIff(cfg: Config, f: seq<Reading>, n: nat)
    ensures EndsDead(cfg, f, n) <==> n <= TrailingDead(cfg, f)
  {
    if f != [] && n > 0 {
      var last := |f| - 1;
      if DeadBook(cfg, f[last]) {
        TrailingDeadIff(cfg, f[..last], n - 1);
        if EndsDead(cfg, f[..last], n - 1) {
          forall j | |f| - n <= j < |f| ensures DeadBook(cfg, f[j]) {
            if j < last { assert f[j] == f[..last][j]; }
          }
        }
      }
    }
  }

  /** A sell of an exit run is immediately preceded by that run reading a missing or stale quote, or an ask at or
      below the stop. */
  ghost predicate Justified(cfg: Config, log: seq<Line>, p: int)
    requires 0 <= p < |log|
  {
    log[p].Sell? && log[p].origin.Some? ==>
      && p > 0 && log[p - 1].Revalidated? && log[p - 1].task == log[p].origin.value
      && (Degraded(cfg, log[p - 1].reading) || AskAtStop(cfg, log[p - 1].reading))
  }

  ghost predicate PricedAtStop(cfg: Config, log: seq<Line>, p: int)
    requires 0 <= p < |log|
  {
    log[p].Sell? ==> log[p].price <= cfg.stopPrice && log[p].qty > 0
  }

  ghost predicate LogSound(cfg: Config, log: seq<Line>) {
    forall p :: 0 <= p < |log| ==> Justified(cfg, log, p) && PricedAtStop(cfg, log, p)
  }

  ghost predicate LogOnlyKnows(log: seq<Line>, n: nat) {
    forall p :: 0 <= p < |log| ==>
      && (log[p].Revalidated? ==> log[p].task < n)
      && (log[p].Sell? && log[p].origin.Some? ==> log[p].origin.value < n)
  }

  /** At most `MaxRetries` sells; and while the run is unfinished, fewer than its attempts, with the dead-book counter
      equal to the dead books its trusted quotes end with. */
  ghost predicate TaskLogged(cfg: Config, s: State, i: nat)
    requires i < |s.tasks|
  {
    && SellsOf(s.log, i) <= cfg.MaxRetries()
    && (!s.tasks[i].finished ==>
          && SellsOf(s.log, i) + 1 <= s.tasks[i].attempt
          && s.tasks[i].noBid == (if cfg.abandonWhenNoBid then TrailingDead(cfg, Fresh(cfg, s.log, i)) else 0))
  }

  ghost predicate LogInv(cfg: Config, s: State) {
    && LogSound(cfg, s.log) && LogOnlyKnows(s.log, |s.tasks|)
    && forall i :: 0 <= i < |s.tasks| ==> TaskLogged(cfg, s, i)
  }

  // ------------------------------------------------------------------
  // One appended line
  // ------------------------------------------------------------------

  lemma AppendLine(cfg: Config, log: seq<Line>, l: Line, id: nat, t: Ticker)
    ensures SellsOf(log + [l], id) == SellsOf(log, id) + (if l.Sell? && l.origin == Some(id) then 1 else 0)
    ensures SellsFor(log + [l], t) == SellsFor(log, t) + (if l.Sell? && l.ticker == t then 1 else 0)
    ensures LimitsFor(log + [l], t) == LimitsFor(log, t) + (if l.Limit? && l.ticker == t then 1 else 0)
    ensures Fresh(cfg, log + [l], id) ==
            if l.Revalidated? && l.task == id && !Degraded(cfg, l.reading)
            then Fresh(cfg, log, id) + [l.reading] else Fresh(cfg, log, id)
  {
    assert (log + [l])[..|log|] == log;
  }

  lemma AppendSound(cfg: Config, log: seq<Line>, l: Line)
    requires LogSound(cfg, log)
    requires Justified(cfg, log + [l], |log|) && PricedAtStop(cfg, log + [l], |log|)
    ensures LogSound(cfg, log + [l])
  {
    forall p | 0 <= p < |log| ensures Justified(cfg, log + [l], p) && PricedAtStop(cfg, log + [l], p) {
      assert Justified(cfg, log, p) && PricedAtStop(cfg, log, p);
    }
  }

  /** A run nobody has heard of has no lines. */
  lemma {:induction false} UnknownRun(cfg: Config, log: seq<Line>, n: nat)
    requires LogOnlyKnows(log, n)
    ensures SellsOf(log, n) == 0 && Fresh(cfg, log, n) == []
    decreases |log|
  {
    if log != [] { UnknownRun(cfg, log[..|log| - 1], n); }
  }

  // ------------------------------------------------------------------
  // What one sell adds to the log
  // ------------------------------------------------------------------

  /** A stop-loss execution adds at most one line.  When it does, the record let it through, and the quantity stays
      within the position and, with external management off, within what the application is recorded to own. */
  lemma ExecuteLog(cfg: Config, s: State, b: nat, override: Option<int>, bypass: bool, env: ExecEnv,
                   origin: Option<nat>)
    requires b < |s.brackets|
    ensures
      var s' := ExecuteStopLoss(cfg, s, b, override, bypass, env, origin).0; var t := s.brackets[b].ticker;
      s'.log == s.log ||
      exists price, qty :: s'.log == s.log + [Sell(origin, t, price, qty)]
        && MaySubmit(s, t) && price <= cfg.stopPrice
        && 0 < qty <= s.brackets[b].quantity
        && (!cfg.manageExternal && t in s.appOwned ==> qty <= s.appOwned[t])
  {
    hide AfterSell;
    var t := s.brackets[b].ticker;
    var s1 := SetAction(s, t, Submitted);
    var qty := ExitQuantity(cfg, s1, b).managed;
    if MaySubmit(s, t) && qty > 0 && (bypass || !env.cooling) {
      assert ExecuteStopLoss(cfg, s, b, override, bypass, env, origin).0.log
          == s.log + [Sell(origin, t, SellPrice(cfg, override), qty)];
    }
  }

  // ------------------------------------------------------------------
  // Preservation
  // ------------------------------------------------------------------

  /** Steps that leave the log alone and touch no run. */
  lemma LogFrame(cfg: Config, s: State, s': State)
    requires LogInv(cfg, s) && s'.log == s.log && s'.tasks == s.tasks
    ensures LogInv(cfg, s')
  {
    forall i | 0 <= i < |s'.tasks| ensures TaskLogged(cfg, s', i) { assert TaskLogged(cfg, s, i); }
  }

  /** A sell that belongs to no exit run (or finds nothing to do). */
  lemma PlainSellKeepsLog(cfg: Config, s: State, b: nat, override: Option<int>, bypass: bool, env: ExecEnv)
    requires LogInv(cfg, s) && b < |s.brackets|
    ensures LogInv(cfg, ExecuteStopLoss(cfg, s, b, override, bypass, env, None).0)
  {
    hide ExecuteStopLoss;
    ExecuteLog(cfg, s, b, override, bypass, env, None);
    var s' := ExecuteStopLoss(cfg, s, b, override, bypass, env, None).0;
    if s'.log == s.log {
      LogFrame(cfg, s, s');
    } else {
      var price, qty :| s'.log == s.log + [Sell(None, s.brackets[b].ticker, price, qty)] && price <= cfg.stopPrice
          && qty > 0;
      var l := Sell(None, s.brackets[b].ticker, price, qty);
      AppendSound(cfg, s.log, l);
      forall i | 0 <= i < |s'.tasks| ensures TaskLogged(cfg, s', i) {
        assert TaskLogged(cfg, s, i);
        AppendLine(cfg, s.log, l, i, l.ticker);
      }
    }
  }

  /** A scheduled exit: its limit, and its fallback. */
  lemma LimitKeepsLog(cfg: Config, s: State, t: Ticker, price: int, qty: int)
    requires LogInv(cfg, s)
    ensures LogInv(cfg, s.(log := s.log + [Limit(t, price, qty)]))
  {
    var l := Limit(t, price, qty);
    var s' := s.(log := s.log + [l]);
    AppendSound(cfg, s.log, l);
    forall i | 0 <= i < |s'.tasks| ensures TaskLogged(cfg, s', i) {
      assert TaskLogged(cfg, s, i);
      AppendLine(cfg, s.log, l, i, t);
    }
  }

  lemma ScheduledKeepsLog(cfg: Config, s: State, b: nat, bid: Option<int>, confirmed: Option<int>, reply: LimitReply,
                          exec: ExecEnv)
    requires LogInv(cfg, s) && b < |s.brackets|
    ensures LogInv(cfg, IntradayExit(cfg, s, b, bid, confirmed, reply, exec))
  {
    hide LogInv, ExecuteStopLoss, ExitQuantity;
    var t := s.brackets[b].ticker; var qty := ExitQuantity(cfg, s, b).managed; var price := LimitPrice(bid, confirmed);
    PlainSellKeepsLog(cfg, s, b, None, true, exec);
    if price.Some? {
      var s1 := s.(log := s.log + [Limit(t, price.value, qty)]);
      LimitKeepsLog(cfg, s, t, price.value, qty);
      PlainSellKeepsLog(cfg, s1, b, None, true, exec);
      LogFrame(cfg, s1, RemovePosition(s1, t));
    }
  }

  /** Reading the quote extends the run's list of trusted quotes and its dead-book count together. */
  lemma ReadingKeepsLog(cfg: Config, s: State, id: nat, r: Reading)
    requires LogInv(cfg, s) && Running(s, id)
    requires Revalidate(cfg, s.tasks[id].noBid, r) != Recovered
    ensures LogInv(cfg, AfterReading(cfg, s, id, r))
  {
    var s' := AfterReading(cfg, s, id, r);
    var l := Revalidated(id, r);
    AppendSound(cfg, s.log, l);
    CountsTogether(cfg, Fresh(cfg, s.log, id), r);
    hide Revalidate, NextNoBid, TrailingDead, Degraded;
    forall i | 0 <= i < |s'.tasks| ensures TaskLogged(cfg, s', i) {
      assert TaskLogged(cfg, s, i);
      AppendLine(cfg, s.log, l, i, "");
    }
  }

  /** The counter and the trailing dead books move alike on a quote that is not above the stop. */
  lemma CountsTogether(cfg: Config, f: seq<Reading>, r: Reading)
    ensures cfg.abandonWhenNoBid && !Degraded(cfg, r) && AskAtStop(cfg, r) ==>
              NextNoBid(cfg, TrailingDead(cfg, f), r) == TrailingDead(cfg, f + [r])
    ensures forall noBid: nat :: !cfg.abandonWhenNoBid || Degraded(cfg, r) ==> NextNoBid(cfg, noBid, r) == noBid
    ensures forall noBid: nat :: Revalidate(cfg, noBid, r) != Recovered ==> Degraded(cfg, r) || AskAtStop(cfg, r)
  {
    assert (f + [r])[..|f|] == f;
  }

  /** Marking a run finished gives up its obligations but keeps its sells bounded. */
  lemma FinishKeepsLog(cfg: Config, s: State, s': State, id: nat)
    requires LogInv(cfg, s) && Running(s, id) && s.tasks[id].attempt <= cfg.MaxRetries()
    requires s'.log == s.log && s'.tasks == s.tasks[id := s.tasks[id].(finished := true)]
    ensures LogInv(cfg, s')
  {
    forall i | 0 <= i < |s'.tasks| ensures TaskLogged(cfg, s', i) { assert TaskLogged(cfg, s, i); }
  }

  lemma RecoveredKeepsLog(cfg: Config, s: State, s': State, id: nat, r: Reading)
    requires LogInv(cfg, s) && Running(s, id)
    requires s'.log == s.log + [Revalidated(id, r)]
    requires |s'.tasks| == |s.tasks| && s'.tasks[id].finished
    requires forall i :: 0 <= i < |s.tasks| && i != id ==> s'.tasks[i] == s.tasks[i]
    ensures LogInv(cfg, s')
  {
    var l := Revalidated(id, r);
    AppendSound(cfg, s.log, l);
    forall i | 0 <= i < |s'.tasks| ensures TaskLogged(cfg, s', i) {
      assert TaskLogged(cfg, s, i);
      AppendLine(cfg, s.log, l, i, "");
    }
  }

  /** Tasks and log after the iteration's sell has been dealt with: the run is finished or moves to its next attempt. */
  lemma AfterAttemptTasks(cfg: Config, s: State, id: nat, cur: nat, outcome: Outcome, env: AttemptEnv)
    requires IsRunning(s, id) && cur < |s.brackets| && s.tasks[id].attempt <= cfg.MaxRetries()
    ensures var s' := AfterAttempt(cfg, s, id, cur, outcome, env); var task := s.tasks[id];
      && s'.log == s.log
      && (s'.tasks == s.tasks[id := task.(finished := true)] ||
          (task.attempt < cfg.MaxRetries() && s'.tasks == s.tasks[id := task.(attempt := task.attempt + 1)]))
  {
    hide Exhausted;
    ExhaustedTasks(cfg, s, id, env.exhausted);
  }

  lemma CountingKeepsTasks(cfg: Config, s: State, b: nat)
    requires b < |s.brackets|
    ensures DecrementAndClear(cfg, s, b).tasks == s.tasks && Rollback(cfg, s, b).tasks == s.tasks
    ensures DecrementAndClear(cfg, s, b).log == s.log && Rollback(cfg, s, b).log == s.log
  {}

  lemma ExhaustedTasks(cfg: Config, s: State, id: nat, reply: PositionsReply)
    requires IsRunning(s, id)
    ensures Exhausted(cfg, s, id, reply).log == s.log
    ensures Exhausted(cfg, s, id, reply).tasks == s.tasks[id := s.tasks[id].(finished := true)]
  {
    var b := s.tasks[id].bracket;
    hide ConfirmRemaining, DecrementAndClear, Rollback;
    CountingKeepsTasks(cfg, Finish(Reconcile(s, b, ConfirmRemaining(cfg, s, b, 0, reply)), id), b);
  }

  /** The sell of an iteration and what follows it. */
  lemma SellKeepsLog(cfg: Config, s: State, id: nat, cur: nat, env: AttemptEnv)
    requires LogInv(cfg, s) && IsRunning(s, id) && cur < |s.brackets| && s.tasks[id].attempt <= cfg.MaxRetries()
    requires |s.log| > 0 && s.log[|s.log| - 1] == Revalidated(id, env.reading)
    requires Degraded(cfg, env.reading) || AskAtStop(cfg, env.reading)
    ensures var (s1, outcome) := ExecuteStopLoss(cfg, s, cur, Some(cfg.PanicPrice()), true, env.exec, Some(id));
      LogInv(cfg, AfterAttempt(cfg, s1, id, cur, outcome, env))
  {
    hide ExecuteStopLoss, AfterAttempt;
    ExecuteLog(cfg, s, cur, Some(cfg.PanicPrice()), true, env.exec, Some(id));
    var (s1, outcome) := ExecuteStopLoss(cfg, s, cur, Some(cfg.PanicPrice()), true, env.exec, Some(id));
    AfterAttemptTasks(cfg, s1, id, cur, outcome, env);
    var s' := AfterAttempt(cfg, s1, id, cur, outcome, env);
    if s'.log != s.log {
      var t := s.brackets[cur].ticker;
      var price, qty :| s'.log == s.log + [Sell(Some(id), t, price, qty)] && price <= cfg.stopPrice && qty > 0;
      AppendSound(cfg, s.log, Sell(Some(id), t, price, qty));
      SoldOnce(cfg, s, s', id, Sell(Some(id), t, price, qty));
    } else {
      NotSold(cfg, s, s', id);
    }
  }

  lemma SoldOnce(cfg: Config, s: State, s': State, id: nat, l: Line)
    requires LogInv(cfg, s) && Running(s, id) && s.tasks[id].attempt <= cfg.MaxRetries()
    requires l.Sell? && l.origin == Some(id) && s'.log == s.log + [l] && LogSound(cfg, s'.log)
    requires var task := s.tasks[id];
      s'.tasks == s.tasks[id := task.(finished := true)]
          || s'.tasks == s.tasks[id := task.(attempt := task.attempt + 1)]
    ensures LogInv(cfg, s')
  {
    forall i | 0 <= i < |s'.tasks| ensures TaskLogged(cfg, s', i) {
      assert TaskLogged(cfg, s, i);
      AppendLine(cfg, s.log, l, i, l.ticker);
    }
  }

  lemma NotSold(cfg: Config, s: State, s': State, id: nat)
    requires LogInv(cfg, s) && Running(s, id) && s'.log == s.log
    requires var task := s.tasks[id];
      s'.tasks == s.tasks[id := task.(finished := true)]
          || s'.tasks == s.tasks[id := task.(attempt := task.attempt + 1)]
    ensures LogInv(cfg, s')
  {
    forall i | 0 <= i < |s'.tasks| ensures TaskLogged(cfg, s', i) { assert TaskLogged(cfg, s, i); }
  }

  lemma AttemptKeepsLog(cfg: Config, s: State, id: nat, env: AttemptEnv)
    requires LogInv(cfg, s) && IsRunning(s, id) && s.tasks[id].attempt <= cfg.MaxRetries()
    ensures LogInv(cfg, Attempt(cfg, s, id, env))
  {
    hide LogInv, ExecuteStopLoss, AfterAttempt, PickCurrent, AskAtStop, Degraded, DeadBook, NextNoBid;
    var (s1, current) := PickCurrent(cfg, s, id, env.missing);
    LogFrame(cfg, s, s1);
    assert Running(s1, id);
    if current.None? {
      FinishKeepsLog(cfg, s1, Finish(s1, id), id);
    } else {
      var cur := current.value;
      var s2 := AfterReading(cfg, s1, id, env.reading);
      match Revalidate(cfg, s1.tasks[id].noBid, env.reading) {
        case Recovered =>
          RecoveredKeepsLog(cfg, s1, Rollback(cfg, Finish(s2, id), cur), id, env.reading);
        case Unfillable =>
          ReadingKeepsLog(cfg, s1, id, env.reading);
          FinishKeepsLog(cfg, s2, LatchUnfillable(Finish(s2, id), s.tasks[id].bracket), id);
        case Proceed =>
          ReadingKeepsLog(cfg, s1, id, env.reading);
          SellKeepsLog(cfg, s2, id, cur, env);
      }
    }
  }

  lemma DispatchKeepsLog(cfg: Config, s: State, b: nat, quote: Option<Quote>)
    requires LogInv(cfg, s) && b < |s.brackets|
    ensures LogInv(cfg, Dispatch(cfg, s, b, quote))
  {
    hide Revived;
    var s' := Dispatch(cfg, s, b, quote);
    if |s'.tasks| == |s.tasks| {
      LogFrame(cfg, s, s');
    } else {
      UnknownRun(cfg, s.log, |s.tasks|);
      forall i | 0 <= i < |s'.tasks| ensures TaskLogged(cfg, s', i) {
        if i < |s.tasks| { assert TaskLogged(cfg, s, i); }
      }
    }
  }

  lemma TriggerKeepsLog(cfg: Config, s: State, b: nat, quote: Option<Quote>, exec: ExecEnv)
    requires LogInv(cfg, s) && b < |s.brackets|
    ensures LogInv(cfg, ExitNow(cfg, MarkCounted(cfg, s, b), b, quote, exec))
  {
    hide LogInv, ExecuteStopLoss, Dispatch;
    var s1 := MarkCounted(cfg, s, b);
    LogFrame(cfg, s, s1);
    DispatchKeepsLog(cfg, s1, b, quote);
    PlainSellKeepsLog(cfg, s1, b, None, false, exec);
    var (s2, outcome) := ExecuteStopLoss(cfg, s1, b, None, false, exec, None);
    LogFrame(cfg, s2, DecrementAndClear(cfg, s2, b));
  }

  lemma StepKeepsLog(cfg: Config, s: State, step: Step)
    requires Inv(cfg, s) && LogInv(cfg, s)
    ensures LogInv(cfg, Apply(cfg, s, step))
  {
    if step.PanicAttempt? && IsRunning(s, step.task) { AttemptOf(cfg, s, step.task); }
    if LogsNothing(step) { SilentSteps(cfg, s, step); }
    hide Inv, LogInv, ExecuteStopLoss, Attempt, ExitQuantity, ExitNow, MarkCounted, Watcher, PhaseC, IntradayExit;
    var s' := Apply(cfg, s, step);
    if LogsNothing(step) {
      LogFrame(cfg, s, s');
      return;
    }
    match step
    case WatcherTrigger(t, quantity, quote, exec) =>
      if IsActive(s, t) { WatcherKeepsLog(cfg, s, s.active[t], quantity, quote, exec); }
    case PhaseCTrigger(t, quote, exec) =>
      if IsActive(s, t) { PhaseCKeepsLog(cfg, s, s.active[t], quote, exec); }
    case BlindFlatten(t, override, exec) =>
      if IsActive(s, t) { PlainSellKeepsLog(cfg, s, s.active[t], Some(override), true, exec); }
    case CloseOut(t, exec) =>
      if IsActive(s, t) { PlainSellKeepsLog(cfg, s, s.active[t], None, true, exec); }
    case ScheduledExit(t, bid, confirmed, limit, exec) =>
      if IsActive(s, t) { ScheduledKeepsLog(cfg, s, s.active[t], bid, confirmed, limit, exec); }
    case PanicAttempt(id, env) => if IsRunning(s, id) { AttemptKeepsLog(cfg, s, id, env); }
    case _ =>
  }

  predicate LogsNothing(step: Step) {
    step.Enter? || step.Close? || step.PhaseCRecovered? || step.PositionSync? || step.Adopt? || step.TaskCleanup?
  }

  lemma SilentSteps(cfg: Config, s: State, step: Step)
    requires LogsNothing(step)
    ensures Apply(cfg, s, step).log == s.log && Apply(cfg, s, step).tasks == s.tasks
  {
    hide InFlight, JoinPosition, AppOwned, Rollback;
    match step
    case Enter(t, qty, app, saved) => JoinSilent(ForgetAction(s, t, saved), t, qty, app);
    case Adopt(t, qty, fills) =>
      JoinSilent(s, t, qty, qty);
      JoinSilent(s, t, qty, AppOwned(t, qty, 0, false, fills));
    case PhaseCRecovered(t) => if IsActive(s, t) { RollbackSilent(cfg, s, s.active[t]); }
    case _ =>
  }

  lemma JoinSilent(s: State, t: Ticker, qty: int, app: int)
    ensures JoinPosition(s, t, qty, app).log == s.log && JoinPosition(s, t, qty, app).tasks == s.tasks
  {}

  lemma RollbackSilent(cfg: Config, s: State, b: nat)
    requires b < |s.brackets|
    ensures Rollback(cfg, s, b).log == s.log && Rollback(cfg, s, b).tasks == s.tasks
  {}

  lemma WatcherKeepsLog(cfg: Config, s: State, b: nat, quantity: int, quote: Option<Quote>, exec: ExecEnv)
    requires LogInv(cfg, s) && b < |s.brackets|
    ensures LogInv(cfg, Watcher(cfg, s, b, quantity, quote, exec))
  {
    hide LogInv, ExitNow, MarkCounted, LatchedShut;
    var s1 := AdoptQuantity(ClearLatch(s, b), b, quantity);
    LogFrame(cfg, s, s1);
    TriggerKeepsLog(cfg, s1, b, quote, exec);
  }

  lemma PhaseCKeepsLog(cfg: Config, s: State, b: nat, quote: Option<Quote>, exec: ExecEnv)
    requires LogInv(cfg, s) && b < |s.brackets|
    ensures LogInv(cfg, PhaseC(cfg, s, b, quote, exec))
  {
    hide LogInv, ExitNow, MarkCounted, ExitQuantity;
    LogFrame(cfg, s, s.(active := s.active - {s.brackets[b].ticker}));
    TriggerKeepsLog(cfg, s, b, quote, exec);
  }

  /** The machine starts out well: nothing held, counted, running or logged. */
  lemma EmptyStart(cfg: Config)
    ensures Inv(cfg, EMPTY) && LogInv(cfg, EMPTY) && Paired(EMPTY)
    ensures forall k :: Drift(cfg, EMPTY, k) == 0
  {}

  /** In every run of the machine: each exit run hands out at most `MaxRetries` sells, each right after a missing or
      stale quote or an ask at or below the stop, and no sell is priced above the stop. */
  lemma {:induction false} RunKeepsLog(cfg: Config, s: State, steps: seq<Step>)
    requires Inv(cfg, s) && LogInv(cfg, s)
    ensures Inv(cfg, Run(cfg, s, steps)) && LogInv(cfg, Run(cfg, s, steps))
    ensures forall i :: 0 <= i < |Run(cfg, s, steps).tasks| ==> SellsOf(Run(cfg, s, steps).log, i) <= cfg.MaxRetries()
    decreases |steps|
  {
    if steps != [] {
      hide Apply, Inv;
      StepKeepsInv(cfg, s, steps[0]);
      StepKeepsLog(cfg, s, steps[0]);
      RunKeepsLog(cfg, Apply(cfg, s, steps[0]), steps[1..]);
    } else {
      forall i | 0 <= i < |s.tasks| ensures SellsOf(s.log, i) <= cfg.MaxRetries() { assert TaskLogged(cfg, s, i); }
    }
  }
}
