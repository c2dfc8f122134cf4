/** The two latches of the stop-loss machine: a bracket declared unfillable, and an action record that succeeded. */
module StopLossLatch {
  import opened Common
  import opened Ownership
  import opened StopLoss
  import opened StopLossSafety
  import opened StopLossLog
  import L = StopLossLedger

  // ------------------------------------------------------------------
  // Who may set or clear the unfillable latch
  // ------------------------------------------------------------------

  /** No known bracket is renamed, latched or unlatched. */
  ghost predicate LatchFrame(s: State, s': State) {
    |s.brackets| <= |s'.brackets| &&
    forall i :: 0 <= i < |s.brackets| ==>
      s'.brackets[i].unfillable == s.brackets[i].unfillable && s'.brackets[i].ticker == s.brackets[i].ticker
  }

  lemma CountingKeepsLatch(cfg: Config, s: State, b: nat)
    requires b < |s.brackets|
    ensures LatchFrame(s, MarkCounted(cfg, s, b)) && LatchFrame(s, Rollback(cfg, s, b))
    ensures LatchFrame(s, DecrementAndClear(cfg, s, b))
  {
    hide Increment, Decrement, LatchFrame;
    IncrementBrackets(cfg, s, s.brackets[b].ticker);
    SetCountedKeepsLatch(s, b, true);
    SetCountedKeepsLatch(s, b, false);
    SetCountedKeepsLatch(Increment(cfg, s, s.brackets[b].ticker), b, true);
    SetCountedKeepsLatch(Decrement(cfg, s, s.brackets[b].ticker), b, false);
    LatchRefl(s, Increment(cfg, s, s.brackets[b].ticker), SetCounted(s, b, true), MarkCounted(cfg, s, b));
    LatchRefl(s, Decrement(cfg, s, s.brackets[b].ticker), SetCounted(s, b, false), DecrementAndClear(cfg, s, b));
  }

  lemma IncrementBrackets(cfg: Config, s: State, t: Ticker)
    ensures Increment(cfg, s, t).brackets == s.brackets && Decrement(cfg, s, t).brackets == s.brackets
  {}

  lemma SetCountedKeepsLatch(s: State, b: nat, flag: bool)
    requires b < |s.brackets|
    ensures LatchFrame(s, SetCounted(s, b, flag))
  {}

  lemma LatchRefl(s: State, s1: State, s2: State, s3: State)
    requires LatchFrame(s, s2) && (s3.brackets == s2.brackets || s3.brackets == s.brackets)
    ensures LatchFrame(s, s3) && LatchFrame(s, s)
  {}

  lemma ReconcileKeepsLatch(s: State, b: nat, r: Remaining)
    requires b < |s.brackets|
    ensures LatchFrame(s, Reconcile(s, b, r))
    ensures Reconcile(s, b, r).tasks == s.tasks && |Reconcile(s, b, r).brackets| == |s.brackets|
  {}

  lemma AfterSellKeepsLatch(cfg: Config, s: State, b: nat, env: ExecEnv)
    requires b < |s.brackets|
    ensures LatchFrame(s, AfterSell(cfg, s, b, env).0) && AfterSell(cfg, s, b, env).0.tasks == s.tasks
  {
    hide ConfirmRemaining, Reconcile, LatchFrame, LedgerFrame, Heard;
    LatchSelf(s);
    var t := s.brackets[b].ticker;
    match env.sell
    case SellRaised(resetOk) => LatchSame(s, s, AfterSell(cfg, s, b, env).0);
    case MarketNotFound => LatchSame(s, s, RemovePosition(SetAction(s, t, Succeeded), t));
    case SellDone(filled) =>
      var rest := ConfirmRemaining(cfg, s, b, filled, env.after);
      var heard := Heard(s, t, env.after);
      var s1 := SetAction(heard, t, Pending);
      LatchSame(s, s, RemovePosition(SetAction(heard, t, Succeeded), t));
      LatchSame(s, s, s1);
      ReconcileKeepsLatch(s1, b, rest);
      LatchTrans(s, s1, Reconcile(s1, b, rest));
  }

  lemma ExecuteKeepsLatch(cfg: Config, s: State, b: nat, override: Option<int>, bypass: bool, env: ExecEnv,
                          origin: Option<nat>)
    requires b < |s.brackets|
    ensures LatchFrame(s, ExecuteStopLoss(cfg, s, b, override, bypass, env, origin).0)
    ensures ExecuteStopLoss(cfg, s, b, override, bypass, env, origin).0.tasks == s.tasks
  {
    hide SubmitSell, LatchFrame, LedgerFrame;
    var t := s.brackets[b].ticker;
    LatchSelf(s);
    LatchSame(s, s, RemovePosition(s, t));
    var s1 := SetAction(s, t, Submitted);
    LatchSame(s, s, s1);
    SubmitKeepsLatch(cfg, s1, b, override, env, origin);
    LatchTrans(s, s1, SubmitSell(cfg, s1, b, override, env, origin).0);
  }

  lemma SubmitKeepsLatch(cfg: Config, s: State, b: nat, override: Option<int>, env: ExecEnv, origin: Option<nat>)
    requires b < |s.brackets|
    ensures LatchFrame(s, SubmitSell(cfg, s, b, override, env, origin).0)
    ensures SubmitSell(cfg, s, b, override, env, origin).0.tasks == s.tasks
  {
    hide AfterSell, ExitQuantity, LatchFrame, LedgerFrame;
    var t := s.brackets[b].ticker;
    LatchSelf(s);
    LatchSame(s, s, SetAction(s, t, Pending));
    var s1 := s.(log := s.log + [Sell(origin, t, SellPrice(cfg, override), ExitQuantity(cfg, s, b).managed)]);
    LatchSame(s, s, s1);
    AfterSellKeepsLatch(cfg, s1, b, env);
    LatchTrans(s, s1, AfterSell(cfg, s1, b, env).0);
  }

  lemma ExhaustedKeepsLatch(cfg: Config, s: State, id: nat, reply: PositionsReply)
    requires IsRunning(s, id)
    ensures LatchFrame(s, Exhausted(cfg, s, id, reply))
  {
    hide ConfirmRemaining, Reconcile, DecrementAndClear, Rollback, Heard;
    var b := s.tasks[id].bracket;
    var rest := ConfirmRemaining(cfg, s, b, 0, reply);
    var heard := Heard(s, s.brackets[b].ticker, reply);
    ReconcileKeepsLatch(heard, b, rest);
    assert Reconcile(heard, b, rest).tasks == s.tasks;
    CountingKeepsLatch(cfg, Finish(Reconcile(heard, b, rest), id), b);
  }

  lemma AfterAttemptKeepsLatch(cfg: Config, s: State, id: nat, cur: nat, outcome: Outcome, env: AttemptEnv)
    requires IsRunning(s, id) && cur < |s.brackets|
    ensures LatchFrame(s, AfterAttempt(cfg, s, id, cur, outcome, env))
  {
    hide Exhausted, DecrementAndClear;
    ExhaustedKeepsLatch(cfg, s, id, env.exhausted);
    CountingKeepsLatch(cfg, Finish(s, id), cur);
  }

  lemma PickKeepsLatch(cfg: Config, s: State, id: nat, reply: PositionsReply)
    requires IsRunning(s, id)
    ensures LatchFrame(s, PickCurrent(cfg, s, id, reply).0)
  {
    hide ConfirmRemaining;
  }

  /** What an iteration does to the latches: nothing, unless its verdict is that the market has no buyer. */
  lemma AttemptLatch(cfg: Config, s: State, id: nat, env: AttemptEnv)
    requires IsRunning(s, id)
    ensures
      var (s1, current) := PickCurrent(cfg, s, id, env.missing); var s' := Attempt(cfg, s, id, env);
      if current.Some? && Revalidate(cfg, s1.tasks[id].noBid, env.reading).Unfillable?
      then LatchFrame(LatchUnfillable(s, s.tasks[id].bracket), s')
      else LatchFrame(s, s')
  {
    PickKeepsLatch(cfg, s, id, env.missing);
    hide PickCurrent, ExecuteStopLoss, AfterAttempt, Rollback, NextNoBid, Revalidate, LatchFrame;
    var (s1, current) := PickCurrent(cfg, s, id, env.missing);
    if current.None? {
      LatchSame(s, s1, Finish(s1, id));
    } else {
      var s2 := AfterReading(cfg, s1, id, env.reading);
      LatchSame(s, s1, s2);
      LatchSame(s, s1, Finish(s2, id));
      match Revalidate(cfg, s1.tasks[id].noBid, env.reading)
      case Recovered =>
        CountingKeepsLatch(cfg, Finish(s2, id), current.value);
        LatchTrans(s, s2, Rollback(cfg, Finish(s2, id), current.value));
      case Unfillable => LatchedTogether(s, Finish(s2, id), s.tasks[id].bracket);
      case Proceed =>
        var (s3, outcome) := ExecuteStopLoss(cfg, s2, current.value, Some(cfg.PanicPrice()), true, env.exec, Some(id));
        ExecuteKeepsLatch(cfg, s2, current.value, Some(cfg.PanicPrice()), true, env.exec, Some(id));
        AfterAttemptKeepsLatch(cfg, s3, id, current.value, outcome, env);
        LatchTrans(s, s2, s3);
        LatchTrans(s, s3, Attempt(cfg, s, id, env));
    }
  }

  lemma LatchSame(s: State, s1: State, s2: State)
    requires LatchFrame(s, s1) && s2.brackets == s1.brackets
    ensures LatchFrame(s, s2)
  {}

  lemma LatchTrans(s: State, s1: State, s2: State)
    requires LatchFrame(s, s1)
    ensures LatchFrame(s1, s2) ==> LatchFrame(s, s2)
    ensures forall s0: State :: s0.brackets == s1.brackets && LatchFrame(s0, s2) ==> LatchFrame(s, s2)
  {}

  lemma LatchedTogether(s: State, s1: State, b: nat)
    requires LatchFrame(s, s1) && |s1.brackets| == |s.brackets| && b < |s.brackets|
    ensures LatchFrame(LatchUnfillable(s, b), LatchUnfillable(s1, b))
  {}

  lemma SellKeepsLatch(cfg: Config, s: State, b: nat, bid: Option<int>, confirmed: Option<int>, reply: LimitReply,
                       exec: ExecEnv)
    requires b < |s.brackets|
    ensures LatchFrame(s, IntradayExit(cfg, s, b, bid, confirmed, reply, exec))
    ensures IntradayExit(cfg, s, b, bid, confirmed, reply, exec).tasks == s.tasks
  {
    hide ExecuteStopLoss, ExitQuantity, LatchFrame;
    var t := s.brackets[b].ticker; var qty := ExitQuantity(cfg, s, b).managed; var price := LimitPrice(bid, confirmed);
    LatchSelf(s);
    ExecuteKeepsLatch(cfg, s, b, None, true, exec, None);
    if price.Some? {
      var s1 := s.(log := s.log + [Limit(t, price.value, qty)]);
      ExecuteKeepsLatch(cfg, s1, b, None, true, exec, None);
      LatchSame(s, s, s1);
      LatchSame(s, s, RemovePosition(s1, t));
      LatchTrans(s, s1, ExecuteStopLoss(cfg, s1, b, None, true, exec, None).0);
    }
  }

  lemma LatchSelf(s: State)
    ensures LatchFrame(s, s)
  {}

  /** No known bracket is latched that was not. */
  ghost predicate NoneLatched(s: State, s': State) {
    |s.brackets| <= |s'.brackets| &&
    forall i :: 0 <= i < |s.brackets| ==> s'.brackets[i].unfillable ==> s.brackets[i].unfillable
  }

  lemma NoneLatchedTrans(s: State, s1: State, s2: State)
    requires (NoneLatched(s, s1) || LatchFrame(s, s1)) && (NoneLatched(s1, s2) || LatchFrame(s1, s2))
    ensures NoneLatched(s, s2)
  {}

  lemma ExitNeverLatches(cfg: Config, s: State, b: nat, quote: Option<Quote>, exec: ExecEnv)
    requires b < |s.brackets|
    ensures NoneLatched(s, ExitNow(cfg, MarkCounted(cfg, s, b), b, quote, exec))
  {
    hide ExecuteStopLoss, MarkCounted, DecrementAndClear, Revived, LatchFrame;
    CountingKeepsLatch(cfg, s, b);
    MarkTasks(cfg, s, b);
    var s1 := MarkCounted(cfg, s, b);
    if cfg.fastExit {
      NoneLatchedTrans(s, s1, Dispatch(cfg, s1, b, quote));
    } else {
      var (s2, outcome) := ExecuteStopLoss(cfg, s1, b, None, false, exec, None);
      ExecuteKeepsLatch(cfg, s1, b, None, false, exec, None);
      CountingKeepsLatch(cfg, s2, b);
      NoneLatchedTrans(s, s1, s2);
      NoneLatchedTrans(s, s2, DecrementAndClear(cfg, s2, b));
    }
  }

  lemma WatcherNeverLatches(cfg: Config, s: State, b: nat, quantity: int, quote: Option<Quote>, exec: ExecEnv)
    requires b < |s.brackets|
    ensures NoneLatched(s, Watcher(cfg, s, b, quantity, quote, exec))
  {
    hide ExitNow, MarkCounted, LatchedShut;
    var s1 := AdoptQuantity(ClearLatch(s, b), b, quantity);
    ExitNeverLatches(cfg, s1, b, quote, exec);
    MarkTasks(cfg, s1, b);
    NoneLatchedTrans(s, s1, ExitNow(cfg, MarkCounted(cfg, s1, b), b, quote, exec));
  }

  /** Steps that touch neither a latch nor a run. */
  predicate LatchQuiet(step: Step) { IsQuiet(step) || step.PhaseCRecovered? || step.TaskCleanup? }

  lemma LatchQuietStep(cfg: Config, s: State, step: Step)
    requires LatchQuiet(step)
    ensures LatchFrame(s, Apply(cfg, s, step)) && Apply(cfg, s, step).tasks == s.tasks
  {
    hide LatchFrame, LedgerFrame, ExecuteStopLoss, IntradayExit, SyncPosition, Recovery, ExitQuantity;
    LatchSelf(s);
    match step
    case PhaseCRecovered(t) => if IsActive(s, t) { RecoveryKeepsLatch(cfg, s, s.active[t]); }
    case BlindFlatten(t, override, exec) =>
      if IsActive(s, t) { ExecuteKeepsLatch(cfg, s, s.active[t], Some(override), true, exec, None); }
    case CloseOut(t, exec) => if IsActive(s, t) { ExecuteKeepsLatch(cfg, s, s.active[t], None, true, exec, None); }
    case ScheduledExit(t, bid, confirmed, limit, exec) =>
      if IsActive(s, t) { SellKeepsLatch(cfg, s, s.active[t], bid, confirmed, limit, exec); }
    case PositionSync(t, count, fills) => if IsActive(s, t) { SyncKeepsLatch(cfg, s, s.active[t], count, fills); }
    case _ => LatchSame(s, s, Apply(cfg, s, step));
  }

  /** Only an iteration of an exit run can set the latch. */
  lemma OthersNeverLatch(cfg: Config, s: State, step: Step)
    requires !step.PanicAttempt?
    ensures NoneLatched(s, Apply(cfg, s, step))
  {
    var s' := Apply(cfg, s, step);
    if LatchQuiet(step) {
      LatchQuietStep(cfg, s, step);
      hide Apply;
      NoneLatchedTrans(s, s', s');
      return;
    }
    hide LatchFrame, ExitNow, MarkCounted, Watcher, ExitQuantity, NoneLatched, JoinPosition, AdoptPosition;
    NoneLatchedSelf(s);
    match step
    case Enter(t, qty, app, saved) => EnterNeverLatches(s, t, qty, app, saved);
    case Adopt(t, qty, fills) => AdoptNeverLatches(cfg, s, t, qty, fills);
    case WatcherTrigger(t, quantity, quote, exec) =>
      if IsActive(s, t) { WatcherNeverLatches(cfg, s, s.active[t], quantity, quote, exec); }
    case PhaseCTrigger(t, quote, exec) =>
      if IsActive(s, t) { ExitNeverLatches(cfg, s, s.active[t], quote, exec); }
    case _ =>
  }

  lemma NoneLatchedSelf(s: State)
    ensures NoneLatched(s, s)
  {}

  lemma JoinNeverLatches(s: State, t: Ticker, qty: int, app: int)
    ensures NoneLatched(s, JoinPosition(s, t, qty, app))
  {}

  lemma EnterNeverLatches(s: State, t: Ticker, qty: int, app: int, saved: bool)
    ensures NoneLatched(s, EnterPosition(s, t, qty, app, saved))
  {
    JoinNeverLatches(ForgetAction(s, t, saved), t, qty, app);
    hide JoinPosition;
  }

  lemma AdoptNeverLatches(cfg: Config, s: State, t: Ticker, qty: int, fills: FillLookup)
    ensures NoneLatched(s, AdoptPosition(cfg, s, t, qty, fills))
  {
    hide JoinPosition, AppOwned;
    JoinNeverLatches(s, t, qty, qty);
    JoinNeverLatches(s, t, qty, AppOwned(t, qty, 0, false, fills));
  }

  lemma RecoveryKeepsLatch(cfg: Config, s: State, b: nat)
    requires b < |s.brackets|
    ensures LatchFrame(s, Recovery(cfg, s, b)) && Recovery(cfg, s, b).tasks == s.tasks
  {
    CountingKeepsLatch(cfg, s, b);
    ClearTasks(cfg, s, b);
    LatchSelf(s);
    hide Rollback, InFlight, LatchFrame;
  }

  /** The step is an iteration of the bracket's own exit run that reads a quote it can trust, at or below the stop, and
      with it the last `ConfirmChecks` quotes that run could trust were all dead books. */
  ghost predicate Latches(cfg: Config, s: State, step: Step, b: nat) {
    && step.PanicAttempt? && IsRunning(s, step.task) && s.tasks[step.task].bracket == b && cfg.abandonWhenNoBid
    && PickCurrent(cfg, s, step.task, step.env.missing).1.Some?
    && !Degraded(cfg, step.env.reading) && AskAtStop(cfg, step.env.reading)
    && EndsDead(cfg, Fresh(cfg, s.log, step.task) + [step.env.reading], cfg.ConfirmChecks())
  }

  /** A step latches a bracket unfillable if and only if it is that iteration; no trigger, entry, sell or sync ever
      does. */
  lemma LatchIff(cfg: Config, s: State, step: Step, b: nat)
    requires LogInv(cfg, s) && b < |s.brackets| && !s.brackets[b].unfillable
    ensures b < |Apply(cfg, s, step).brackets|
    ensures Apply(cfg, s, step).brackets[b].unfillable <==> Latches(cfg, s, step, b)
  {
    hide PickCurrent, Attempt, Revalidate, Degraded, AskAtStop, EndsDead, Fresh, ExecuteStopLoss, IntradayExit, Watcher,
         PhaseC, EnterPosition, AdoptPosition, SyncPosition;
    if !step.PanicAttempt? {
      OthersNeverLatch(cfg, s, step);
    } else if IsRunning(s, step.task) {
      AttemptLatch(cfg, s, step.task, step.env);
      UnfillableIff(cfg, s, step.task, step.env.reading);
      assert PickCurrent(cfg, s, step.task, step.env.missing).0.tasks == s.tasks;
    }
  }

  lemma UnfillableIff(cfg: Config, s: State, id: nat, r: Reading)
    requires LogInv(cfg, s) && IsRunning(s, id)
    ensures Revalidate(cfg, s.tasks[id].noBid, r).Unfillable? <==>
      && cfg.abandonWhenNoBid && !Degraded(cfg, r) && AskAtStop(cfg, r)
      && EndsDead(cfg, Fresh(cfg, s.log, id) + [r], cfg.ConfirmChecks())
  {
    assert TaskLogged(cfg, s, id);
    var f := Fresh(cfg, s.log, id);
    CountsTogether(cfg, f, r);
    TrailingDeadIff(cfg, f + [r], cfg.ConfirmChecks());
    hide LogInv, TrailingDead, EndsDead, Fresh, NextNoBid, Degraded, AskAtStop;
  }

  // ------------------------------------------------------------------
  // Silence while latched
  // ------------------------------------------------------------------

  lemma DispatchStartsRun(cfg: Config, s: State, b: nat, quote: Option<Quote>)
    requires b < |s.brackets|
    ensures |Dispatch(cfg, s, b, quote).tasks| == |s.tasks| +
            if !LatchedShut(cfg, s, b, quote) && !InFlight(s, s.brackets[b].ticker) then 1 else 0
  {
    hide Revived;
  }

  lemma ExitStartsRun(cfg: Config, s: State, b: nat, quote: Option<Quote>, exec: ExecEnv)
    requires b < |s.brackets|
    ensures |ExitNow(cfg, MarkCounted(cfg, s, b), b, quote, exec).tasks| == |s.tasks| +
            if cfg.fastExit && !LatchedShut(cfg, s, b, quote) && !InFlight(s, s.brackets[b].ticker) then 1 else 0
  {
    var s1 := MarkCounted(cfg, s, b);
    CountingKeepsLatch(cfg, s, b);
    CountingKeepsExits(cfg, s, b);
    if cfg.fastExit {
      DispatchStartsRun(cfg, s1, b, quote);
      hide Dispatch, MarkCounted, Revived;
    } else {
      var (s2, outcome) := ExecuteStopLoss(cfg, s1, b, None, false, exec, None);
      ExecuteKeepsLatch(cfg, s1, b, None, false, exec, None);
      ClearTasks(cfg, s2, b);
      hide ExecuteStopLoss, MarkCounted, DecrementAndClear, LatchedShut, InFlight;
    }
  }

  lemma CountingKeepsExits(cfg: Config, s: State, b: nat)
    requires b < |s.brackets|
    ensures var s1 := MarkCounted(cfg, s, b);
      s1.tasks == s.tasks && s1.exitTasks == s.exitTasks && |s1.brackets| == |s.brackets|
  {}

  /** The step is a trigger that the latch, the fast-exit switch, an unfinished run and, for the periodic evaluation,
      the managed quantity let through. */
  ghost predicate StartsRun(cfg: Config, s: State, step: Step) {
    && (step.WatcherTrigger? || step.PhaseCTrigger?) && IsActive(s, step.ticker) && cfg.fastExit
    && var b := s.active[step.ticker];
       && !LatchedShut(cfg, s, b, step.quote) && !InFlight(s, s.brackets[b].ticker)
       && (step.PhaseCTrigger? ==> s.brackets[b].quantity > 0 && ExitQuantity(cfg, s, b).managed > 0)
  }

  /** A step starts an exit run, and then exactly one, if and only if it is such a trigger. */
  lemma StepStartsRunIff(cfg: Config, s: State, step: Step)
    ensures |Apply(cfg, s, step).tasks| == |s.tasks| + if StartsRun(cfg, s, step) then 1 else 0
  {
    if LatchQuiet(step) {
      LatchQuietStep(cfg, s, step);
      hide Apply, StartsRun;
      assert !StartsRun(cfg, s, step) by { QuietStartsNothing(cfg, s, step); }
      return;
    }
    hide ExitNow, MarkCounted, Attempt, ExitQuantity, Revived;
    match step
    case WatcherTrigger(t, quantity, quote, exec) =>
      if IsActive(s, t) { WatcherStartsRun(cfg, s, s.active[t], quantity, quote, exec); }
    case PhaseCTrigger(t, quote, exec) => if IsActive(s, t) { ExitStartsRun(cfg, s, s.active[t], quote, exec); }
    case PanicAttempt(id, env) => if IsRunning(s, id) { L.AttemptFrame(cfg, s, id, env); }
    case _ =>
  }

  lemma WatcherStartsRun(cfg: Config, s: State, b: nat, quantity: int, quote: Option<Quote>, exec: ExecEnv)
    requires b < |s.brackets|
    ensures |Watcher(cfg, s, b, quantity, quote, exec).tasks| == |s.tasks| +
            if cfg.fastExit && !LatchedShut(cfg, s, b, quote) && !InFlight(s, s.brackets[b].ticker) then 1 else 0
  {
    hide ExitNow, MarkCounted, Revived;
    if !LatchedShut(cfg, s, b, quote) {
      ExitStartsRun(cfg, AdoptQuantity(ClearLatch(s, b), b, quantity), b, quote, exec);
    }
  }

  lemma QuietStartsNothing(cfg: Config, s: State, step: Step)
    requires LatchQuiet(step)
    ensures !StartsRun(cfg, s, step)
  {}

  /** The quote a trigger for bracket `b`'s market consults shows no buyer. */
  predicate NoBuyerFor(cfg: Config, s: State, step: Step, b: nat) {
    b < |s.brackets| &&
    ((step.WatcherTrigger? || step.PhaseCTrigger?) && step.ticker == s.brackets[b].ticker ==> !Revived(cfg, step.quote))
  }

  /** Bracket `b` is latched and every exit run numbered `n` or later belongs to some other bracket. */
  ghost predicate Silent(s: State, b: nat, n: nat) {
    && b < |s.brackets| && s.brackets[b].unfillable
    && forall i :: n <= i < |s.tasks| ==> s.tasks[i].bracket != b
  }

  lemma SilentFrame(s: State, s': State, b: nat, n: nat)
    requires Silent(s, b, n) && LatchFrame(s, s') && |s'.tasks| == |s.tasks|
    requires forall i :: 0 <= i < |s.tasks| ==> s'.tasks[i].bracket == s.tasks[i].bracket
    ensures Silent(s', b, n)
  {}

  lemma DispatchKeepsSilent(cfg: Config, s: State, c: nat, quote: Option<Quote>, b: nat, n: nat)
    requires Silent(s, b, n) && c < |s.brackets| && (c == b ==> !Revived(cfg, quote))
    ensures Silent(Dispatch(cfg, s, c, quote), b, n)
  {}

  lemma TriggerKeepsSilent(cfg: Config, s: State, c: nat, quote: Option<Quote>, exec: ExecEnv, b: nat, n: nat)
    requires Silent(s, b, n) && c < |s.brackets| && (c == b ==> !Revived(cfg, quote))
    ensures Silent(ExitNow(cfg, MarkCounted(cfg, s, c), c, quote, exec), b, n)
  {
    hide ExecuteStopLoss, Dispatch, MarkCounted, DecrementAndClear, Silent, Revived;
    var s1 := MarkCounted(cfg, s, c);
    CountingKeepsLatch(cfg, s, c);
    MarkTasks(cfg, s, c);
    SilentFrame(s, s1, b, n);
    if cfg.fastExit {
      DispatchKeepsSilent(cfg, s1, c, quote, b, n);
    } else {
      var (s2, outcome) := ExecuteStopLoss(cfg, s1, c, None, false, exec, None);
      ExecuteKeepsLatch(cfg, s1, c, None, false, exec, None);
      SilentFrame(s1, s2, b, n);
      CountingKeepsLatch(cfg, s2, c);
      ClearTasks(cfg, s2, c);
      SilentFrame(s2, DecrementAndClear(cfg, s2, c), b, n);
    }
  }

  lemma MarkTasks(cfg: Config, s: State, b: nat)
    requires b < |s.brackets|
    ensures MarkCounted(cfg, s, b).tasks == s.tasks && |MarkCounted(cfg, s, b).brackets| == |s.brackets|
  {}

  lemma ClearTasks(cfg: Config, s: State, b: nat)
    requires b < |s.brackets|
    ensures DecrementAndClear(cfg, s, b).tasks == s.tasks && Rollback(cfg, s, b).tasks == s.tasks
  {}

  lemma AttemptKeepsSilent(cfg: Config, s: State, id: nat, env: AttemptEnv, b: nat, n: nat)
    requires Silent(s, b, n) && IsRunning(s, id)
    ensures Silent(Attempt(cfg, s, id, env), b, n)
  {
    AttemptLatch(cfg, s, id, env);
    StopLossLedgerFrame(cfg, s, id, env);
    hide Attempt, PickCurrent, Revalidate;
  }

  lemma StopLossLedgerFrame(cfg: Config, s: State, id: nat, env: AttemptEnv)
    requires IsRunning(s, id)
    ensures var s' := Attempt(cfg, s, id, env);
      |s'.tasks| == |s.tasks| && forall i :: 0 <= i < |s.tasks| ==> s'.tasks[i].bracket == s.tasks[i].bracket
  {
    L.AttemptFrame(cfg, s, id, env);
    hide Attempt;
  }

  lemma StepKeepsSilent(cfg: Config, s: State, step: Step, b: nat, n: nat)
    requires Inv(cfg, s) && Silent(s, b, n) && NoBuyerFor(cfg, s, step, b)
    ensures Silent(Apply(cfg, s, step), b, n)
  {
    if LatchQuiet(step) {
      LatchQuietStep(cfg, s, step);
      hide Apply, Inv;
      return;
    }
    assert forall t :: IsActive(s, t) ==> s.brackets[s.active[t]].ticker == t;
    hide Silent, Inv, Attempt, Revived, Watcher, PhaseC, EnterPosition, AdoptPosition;
    match step
    case Enter(t, qty, app, saved) => EnterKeepsSilent(s, t, qty, app, saved, b, n);
    case Adopt(t, qty, fills) => AdoptKeepsSilent(cfg, s, t, qty, fills, b, n);
    case WatcherTrigger(t, quantity, quote, exec) =>
      if IsActive(s, t) { WatcherKeepsSilent(cfg, s, s.active[t], quantity, quote, exec, b, n); }
    case PhaseCTrigger(t, quote, exec) =>
      if IsActive(s, t) { PhaseCKeepsSilent(cfg, s, s.active[t], quote, exec, b, n); }
    case PanicAttempt(id, env) => if IsRunning(s, id) { AttemptKeepsSilent(cfg, s, id, env, b, n); }
    case _ =>
  }

  lemma PhaseCKeepsSilent(cfg: Config, s: State, c: nat, quote: Option<Quote>, exec: ExecEnv, b: nat, n: nat)
    requires Silent(s, b, n) && c < |s.brackets| && (c == b ==> !Revived(cfg, quote))
    ensures Silent(PhaseC(cfg, s, c, quote, exec), b, n)
  {
    TriggerKeepsSilent(cfg, s, c, quote, exec, b, n);
    hide ExitNow, MarkCounted, ExitQuantity;
  }

  lemma SyncKeepsLatch(cfg: Config, s: State, b: nat, count: Option<int>, fills: FillLookup)
    requires b < |s.brackets|
    ensures LatchFrame(s, SyncPosition(cfg, s, b, count, fills))
    ensures SyncPosition(cfg, s, b, count, fills).tasks == s.tasks
  {
    SyncFrame(cfg, s, b, count, fills);
    hide SyncPosition;
  }

  lemma AdoptKeepsSilent(cfg: Config, s: State, t: Ticker, qty: int, fills: FillLookup, b: nat, n: nat)
    requires Silent(s, b, n)
    ensures Silent(AdoptPosition(cfg, s, t, qty, fills), b, n)
  {}

  lemma EnterKeepsSilent(s: State, t: Ticker, qty: int, app: int, saved: bool, b: nat, n: nat)
    requires Silent(s, b, n)
    ensures Silent(EnterPosition(s, t, qty, app, saved), b, n)
  {}

  lemma WatcherKeepsSilent(cfg: Config, s: State, c: nat, quantity: int, quote: Option<Quote>, exec: ExecEnv, b: nat,
                           n: nat)
    requires Silent(s, b, n) && c < |s.brackets|
    requires c == b ==> !Revived(cfg, quote)
    ensures Silent(Watcher(cfg, s, c, quantity, quote, exec), b, n)
  {
    if LatchedShut(cfg, s, c, quote) { return; }
    var s1 := AdoptQuantity(ClearLatch(s, c), c, quantity);
    assert Silent(s1, b, n);
    hide ExitNow, MarkCounted, Silent, Revived;
    TriggerKeepsSilent(cfg, s1, c, quote, exec, b, n);
  }

  ghost predicate SilentRun(cfg: Config, s: State, steps: seq<Step>, b: nat)
    decreases |steps|
  {
    steps == [] || (NoBuyerFor(cfg, s, steps[0], b) && SilentRun(cfg, Apply(cfg, s, steps[0]), steps[1..], b))
  }

  /** While a bracket is latched and no cached bid rises above the no-bid limit, nothing unlatches it and no exit run is
      ever started for it again, whatever else happens. */
  lemma {:induction false} LatchSilences(cfg: Config, s: State, steps: seq<Step>, b: nat, n: nat)
    requires Inv(cfg, s) && Silent(s, b, n) && SilentRun(cfg, s, steps, b)
    ensures Silent(Run(cfg, s, steps), b, n)
    decreases |steps|
  {
    if steps != [] {
      hide Apply, Inv, Silent;
      StepKeepsInv(cfg, s, steps[0]);
      StepKeepsSilent(cfg, s, steps[0], b, n);
      LatchSilences(cfg, Apply(cfg, s, steps[0]), steps[1..], b, n);
    }
  }

  // ------------------------------------------------------------------
  // A succeeded action record
  // ------------------------------------------------------------------

  /** The record of market `t` says its stop-loss succeeded, and stop-loss executions have handed out `n` sells for
      it. */
  ghost predicate Done(s: State, t: Ticker, n: nat) {
    t in s.actions && s.actions[t].Succeeded? && SellsFor(s.log, t) == n
  }

  lemma AfterSellActions(cfg: Config, s: State, b: nat, env: ExecEnv, t: Ticker)
    requires b < |s.brackets| && t != s.brackets[b].ticker
    ensures var s' := AfterSell(cfg, s, b, env).0;
      (t in s'.actions <==> t in s.actions) && (t in s.actions ==> s'.actions[t] == s.actions[t])
  {
    hide AfterAnswer, LedgerFrame;
    if env.sell.SellDone? { AnswerActions(cfg, s, b, env.sell.filled, env.after, t); }
  }

  lemma AnswerActions(cfg: Config, s: State, b: nat, filled: int, after: PositionsReply, t: Ticker)
    requires b < |s.brackets| && t != s.brackets[b].ticker
    ensures var s' := AfterAnswer(cfg, s, b, filled, after);
      (t in s'.actions <==> t in s.actions) && (t in s.actions ==> s'.actions[t] == s.actions[t])
  {
    hide ConfirmRemaining, LedgerFrame, Heard;
  }

  /** A stop-loss execution leaves the records of other markets alone. */
  lemma ExecuteActions(cfg: Config, s: State, b: nat, override: Option<int>, bypass: bool, env: ExecEnv,
                       origin: Option<nat>, t: Ticker)
    requires b < |s.brackets| && t != s.brackets[b].ticker
    ensures var s' := ExecuteStopLoss(cfg, s, b, override, bypass, env, origin).0;
      (t in s'.actions <==> t in s.actions) && (t in s.actions ==> s'.actions[t] == s.actions[t])
  {
    hide AfterSell, ExitQuantity, LedgerFrame;
    var s1 := SetAction(s, s.brackets[b].ticker, Submitted);
    var l := Sell(origin, s.brackets[b].ticker, SellPrice(cfg, override), ExitQuantity(cfg, s1, b).managed);
    AfterSellActions(cfg, s1.(log := s1.log + [l]), b, env, t);
  }

  lemma ExecuteKeepsDone(cfg: Config, s: State, b: nat, override: Option<int>, bypass: bool, env: ExecEnv,
                         origin: Option<nat>, t: Ticker, n: nat)
    requires b < |s.brackets| && Done(s, t, n)
    ensures Done(ExecuteStopLoss(cfg, s, b, override, bypass, env, origin).0, t, n)
  {
    var u := s.brackets[b].ticker;
    if t == u {
      hide SubmitSell, SellsFor, LedgerFrame;
    } else {
      ExecuteActions(cfg, s, b, override, bypass, env, origin, t);
      ExecuteLog(cfg, s, b, override, bypass, env, origin);
      hide ExecuteStopLoss, SellsFor, MaySubmit;
      var s' := ExecuteStopLoss(cfg, s, b, override, bypass, env, origin).0;
      if s'.log != s.log {
        var price, qty :| s'.log == s.log + [Sell(origin, u, price, qty)];
        AppendLine(cfg, s.log, Sell(origin, u, price, qty), 0, t);
      }
    }
  }

  lemma DoneFrame(s: State, s': State, t: Ticker, n: nat)
    requires Done(s, t, n) && s'.log == s.log && s'.actions == s.actions
    ensures Done(s', t, n)
  {}

  lemma AfterAttemptActions(cfg: Config, s: State, id: nat, cur: nat, outcome: Outcome, env: AttemptEnv)
    requires IsRunning(s, id) && cur < |s.brackets|
    ensures AfterAttempt(cfg, s, id, cur, outcome, env).log == s.log
    ensures AfterAttempt(cfg, s, id, cur, outcome, env).actions == s.actions
  {
    hide Exhausted;
    ExhaustedActions(cfg, s, id, env.exhausted);
  }

  lemma CountingKeepsActions(cfg: Config, s: State, b: nat)
    requires b < |s.brackets|
    ensures DecrementAndClear(cfg, s, b).log == s.log && DecrementAndClear(cfg, s, b).actions == s.actions
    ensures Rollback(cfg, s, b).log == s.log && Rollback(cfg, s, b).actions == s.actions
  {}

  lemma ExhaustedActions(cfg: Config, s: State, id: nat, reply: PositionsReply)
    requires IsRunning(s, id)
    ensures Exhausted(cfg, s, id, reply).log == s.log && Exhausted(cfg, s, id, reply).actions == s.actions
  {
    hide ConfirmRemaining, DecrementAndClear, Rollback, LedgerFrame, Heard;
    var b := s.tasks[id].bracket;
    var heard := Heard(s, s.brackets[b].ticker, reply);
    CountingKeepsActions(cfg, Finish(Reconcile(heard, b, ConfirmRemaining(cfg, s, b, 0, reply)), id), b);
  }

  lemma AttemptKeepsDone(cfg: Config, s: State, id: nat, env: AttemptEnv, t: Ticker, n: nat)
    requires IsRunning(s, id) && Done(s, t, n)
    ensures Done(Attempt(cfg, s, id, env), t, n)
  {
    var (s1, current) := PickCurrent(cfg, s, id, env.missing);
    var s2 := AfterReading(cfg, s1, id, env.reading);
    assert Done(s1, t, n) && Done(s2, t, n) by {
      hide PickCurrent, NextNoBid;
      AppendLine(cfg, s.log, Revalidated(id, env.reading), id, t);
    }
    hide PickCurrent, ExecuteStopLoss, AfterAttempt, NextNoBid, Revalidate, Done, Rollback;
    if current.None? {
      DoneFrame(s1, Finish(s1, id), t, n);
    } else {
      match Revalidate(cfg, s1.tasks[id].noBid, env.reading)
      case Recovered => RollbackKeepsDone(cfg, s2, Finish(s2, id), current.value, t, n);
      case Unfillable => DoneFrame(s2, LatchUnfillable(Finish(s2, id), s.tasks[id].bracket), t, n);
      case Proceed =>
        var (s3, outcome) := ExecuteStopLoss(cfg, s2, current.value, Some(cfg.PanicPrice()), true, env.exec, Some(id));
        ExecuteKeepsDone(cfg, s2, current.value, Some(cfg.PanicPrice()), true, env.exec, Some(id), t, n);
        AfterAttemptActions(cfg, s3, id, current.value, outcome, env);
        DoneFrame(s3, Attempt(cfg, s, id, env), t, n);
    }
  }

  lemma RollbackKeepsDone(cfg: Config, s: State, s1: State, b: nat, t: Ticker, n: nat)
    requires Done(s, t, n) && s1.log == s.log && s1.actions == s.actions && b < |s1.brackets|
    ensures Done(Rollback(cfg, s1, b), t, n)
  {}

  lemma StepKeepsDone(cfg: Config, s: State, step: Step, t: Ticker, n: nat)
    requires Done(s, t, n) && !(step.Enter? && step.ticker == t && step.saved)
    ensures Done(Apply(cfg, s, step), t, n)
  {
    hide Done, ExecuteStopLoss, IntradayExit, SyncPosition, AdoptPosition, Attempt, ExitQuantity, Watcher, Recovery,
         PhaseC;
    var s' := Apply(cfg, s, step);
    match step
    case Enter(u, qty, app, saved) => EnterKeepsDone(s, u, qty, app, saved, t, n);
    case Close(u) => DoneFrame(s, s', t, n);
    case WatcherTrigger(u, quantity, quote, exec) =>
      if IsActive(s, u) {
        WatcherKeepsDone(cfg, s, s.active[u], quantity, quote, exec, t, n);
      }
    case PhaseCTrigger(u, quote, exec) =>
      if IsActive(s, u) { PhaseCKeepsDone(cfg, s, s.active[u], quote, exec, t, n); }
    case PhaseCRecovered(u) => if IsActive(s, u) { RecoveryKeepsDone(cfg, s, s.active[u], t, n); }
    case BlindFlatten(u, override, exec) =>
      if IsActive(s, u) { ExecuteKeepsDone(cfg, s, s.active[u], Some(override), true, exec, None, t, n); }
    case CloseOut(u, exec) =>
      if IsActive(s, u) { ExecuteKeepsDone(cfg, s, s.active[u], None, true, exec, None, t, n); }
    case ScheduledExit(u, bid, confirmed, limit, exec) =>
      if IsActive(s, u) { ScheduledKeepsDone(cfg, s, s.active[u], bid, confirmed, limit, exec, t, n); }
    case PositionSync(u, count, fills) =>
      if IsActive(s, u) {
        SyncFrame(cfg, s, s.active[u], count, fills);
        DoneFrame(s, s', t, n);
      }
    case Adopt(u, qty, fills) => AdoptActions(cfg, s, u, qty, fills); DoneFrame(s, s', t, n);
    case PanicAttempt(id, env) => if IsRunning(s, id) { AttemptKeepsDone(cfg, s, id, env, t, n); }
    case TaskCleanup(id) => DoneFrame(s, s', t, n);
  }

  lemma AdoptActions(cfg: Config, s: State, t: Ticker, qty: int, fills: FillLookup)
    ensures AdoptPosition(cfg, s, t, qty, fills).log == s.log
    ensures AdoptPosition(cfg, s, t, qty, fills).actions == s.actions
  {}

  lemma PhaseCKeepsDone(cfg: Config, s: State, b: nat, quote: Option<Quote>, exec: ExecEnv, t: Ticker, n: nat)
    requires b < |s.brackets| && Done(s, t, n)
    ensures Done(PhaseC(cfg, s, b, quote, exec), t, n)
  {
    hide Done, ExitNow, ExitQuantity;
    DoneFrame(s, s.(active := s.active - {s.brackets[b].ticker}), t, n);
    DoneFrame(s, MarkCounted(cfg, s, b), t, n);
    ExitNowKeepsDone(cfg, MarkCounted(cfg, s, b), b, quote, exec, t, n);
  }

  lemma ScheduledKeepsDone(cfg: Config, s: State, b: nat, bid: Option<int>, confirmed: Option<int>, reply: LimitReply,
                           exec: ExecEnv, t: Ticker, n: nat)
    requires b < |s.brackets| && Done(s, t, n)
    ensures Done(IntradayExit(cfg, s, b, bid, confirmed, reply, exec), t, n)
  {
    hide ExecuteStopLoss, ExitQuantity, Done;
    var u := s.brackets[b].ticker; var qty := ExitQuantity(cfg, s, b).managed; var price := LimitPrice(bid, confirmed);
    ExecuteKeepsDone(cfg, s, b, None, true, exec, None, t, n);
    if price.Some? {
      var s1 := s.(log := s.log + [Limit(u, price.value, qty)]);
      LimitKeepsDone(cfg, s, u, price.value, qty, t, n);
      DoneFrame(s1, RemovePosition(s1, u), t, n);
      ExecuteKeepsDone(cfg, s1, b, None, true, exec, None, t, n);
    }
  }

  lemma LimitKeepsDone(cfg: Config, s: State, u: Ticker, price: int, qty: int, t: Ticker, n: nat)
    requires Done(s, t, n)
    ensures Done(s.(log := s.log + [Limit(u, price, qty)]), t, n)
  {
    AppendLine(cfg, s.log, Limit(u, price, qty), 0, t);
  }

  lemma WatcherKeepsDone(cfg: Config, s: State, b: nat, quantity: int, quote: Option<Quote>, exec: ExecEnv, t: Ticker,
                         n: nat)
    requires b < |s.brackets| && Done(s, t, n)
    ensures Done(Watcher(cfg, s, b, quantity, quote, exec), t, n)
  {
    hide Done, LatchedShut, ExitNow;
    var s1 := MarkCounted(cfg, AdoptQuantity(ClearLatch(s, b), b, quantity), b);
    DoneFrame(s, s1, t, n);
    ExitNowKeepsDone(cfg, s1, b, quote, exec, t, n);
  }

  lemma RecoveryKeepsDone(cfg: Config, s: State, b: nat, t: Ticker, n: nat)
    requires b < |s.brackets| && Done(s, t, n)
    ensures Done(Recovery(cfg, s, b), t, n)
  {
    hide InFlight;
  }

  lemma EnterKeepsDone(s: State, u: Ticker, qty: int, app: int, saved: bool, t: Ticker, n: nat)
    requires Done(s, t, n) && !(saved && u == t)
    ensures Done(EnterPosition(s, u, qty, app, saved), t, n)
  {}

  lemma ExitNowKeepsDone(cfg: Config, s: State, b: nat, quote: Option<Quote>, exec: ExecEnv, t: Ticker, n: nat)
    requires b < |s.brackets| && Done(s, t, n)
    ensures Done(ExitNow(cfg, s, b, quote, exec), t, n)
  {
    hide Done, ExecuteStopLoss, LatchedShut;
    DoneFrame(s, Dispatch(cfg, s, b, quote), t, n);
    var (s1, outcome) := ExecuteStopLoss(cfg, s, b, None, false, exec, None);
    ExecuteKeepsDone(cfg, s, b, None, false, exec, None, t, n);
    DoneFrame(s1, DecrementAndClear(cfg, s1, b), t, n);
  }

  /** The step is a scheduled exit that hands out a limit sell for market `t`; the action record plays no part. */
  ghost predicate HandsOutLimit(cfg: Config, s: State, step: Step, t: Ticker) {
    && step.ScheduledExit? && IsActive(s, step.ticker) && s.brackets[s.active[step.ticker]].ticker == t
    && ExitQuantity(cfg, s, s.active[step.ticker]).managed > 0
    && LimitPrice(step.bid, step.confirmed).Some? && !step.limit.NotSupported?
  }

  ghost predicate SameLimits(s: State, s': State, t: Ticker) { LimitsFor(s'.log, t) == LimitsFor(s.log, t) }

  lemma ExecuteSameLimits(cfg: Config, s: State, b: nat, override: Option<int>, bypass: bool, env: ExecEnv,
                          origin: Option<nat>, t: Ticker)
    requires b < |s.brackets|
    ensures SameLimits(s, ExecuteStopLoss(cfg, s, b, override, bypass, env, origin).0, t)
  {
    ExecuteLog(cfg, s, b, override, bypass, env, origin);
    hide ExecuteStopLoss, LimitsFor;
    var s' := ExecuteStopLoss(cfg, s, b, override, bypass, env, origin).0;
    if s'.log != s.log {
      var price, qty :| s'.log == s.log + [Sell(origin, s.brackets[b].ticker, price, qty)];
      AppendLine(cfg, s.log, Sell(origin, s.brackets[b].ticker, price, qty), 0, t);
    }
  }

  lemma ExitSameLimits(cfg: Config, s: State, b: nat, quote: Option<Quote>, exec: ExecEnv, t: Ticker)
    requires b < |s.brackets|
    ensures SameLimits(s, ExitNow(cfg, MarkCounted(cfg, s, b), b, quote, exec), t)
  {
    hide ExecuteStopLoss, LimitsFor, LatchedShut;
    ExecuteSameLimits(cfg, MarkCounted(cfg, s, b), b, None, false, exec, None, t);
  }

  /** An iteration logs the quote it reads and what its sell logs. */
  lemma AttemptLog(cfg: Config, s: State, id: nat, env: AttemptEnv)
    requires IsRunning(s, id)
    ensures var (s1, current) := PickCurrent(cfg, s, id, env.missing);
      Attempt(cfg, s, id, env).log ==
      if current.None? then s.log
      else
        var s2 := AfterReading(cfg, s1, id, env.reading);
        if Revalidate(cfg, s1.tasks[id].noBid, env.reading).Proceed?
        then ExecuteStopLoss(cfg, s2, current.value, Some(cfg.PanicPrice()), true, env.exec, Some(id)).0.log else s2.log
  {
    hide PickCurrent, ExecuteStopLoss, AfterAttempt, NextNoBid, Revalidate, Rollback, LedgerFrame;
    var (s1, current) := PickCurrent(cfg, s, id, env.missing);
    FrameFacts(s, s1, 0);
    if current.Some? {
      var s2 := AfterReading(cfg, s1, id, env.reading);
      CountingKeepsActions(cfg, Finish(s2, id), current.value);
      var (s3, outcome) := ExecuteStopLoss(cfg, s2, current.value, Some(cfg.PanicPrice()), true, env.exec, Some(id));
      FrameFacts(s2, s3, 0);
      AfterAttemptActions(cfg, s3, id, current.value, outcome, env);
    }
  }

  lemma AttemptSameLimits(cfg: Config, s: State, id: nat, env: AttemptEnv, t: Ticker)
    requires IsRunning(s, id)
    ensures SameLimits(s, Attempt(cfg, s, id, env), t)
  {
    AttemptLog(cfg, s, id, env);
    AppendLine(cfg, s.log, Revalidated(id, env.reading), id, t);
    hide Attempt, PickCurrent, ExecuteStopLoss, NextNoBid, Revalidate, LimitsFor, LedgerFrame;
    var (s1, current) := PickCurrent(cfg, s, id, env.missing);
    if current.Some? {
      var s2 := AfterReading(cfg, s1, id, env.reading);
      ExecuteSameLimits(cfg, s2, current.value, Some(cfg.PanicPrice()), true, env.exec, Some(id), t);
    }
  }

  lemma ScheduledLimits(cfg: Config, s: State, b: nat, bid: Option<int>, confirmed: Option<int>, reply: LimitReply,
                        exec: ExecEnv, t: Ticker)
    requires b < |s.brackets|
    ensures LimitsFor(IntradayExit(cfg, s, b, bid, confirmed, reply, exec).log, t) == LimitsFor(s.log, t) +
      if s.brackets[b].ticker == t && ExitQuantity(cfg, s, b).managed > 0 && LimitPrice(bid, confirmed).Some?
         && !reply.NotSupported? then 1 else 0
  {
    hide ExecuteStopLoss, ExitQuantity, LimitsFor;
    var u := s.brackets[b].ticker; var qty := ExitQuantity(cfg, s, b).managed; var price := LimitPrice(bid, confirmed);
    ExecuteSameLimits(cfg, s, b, None, true, exec, None, t);
    if price.Some? {
      AppendLine(cfg, s.log, Limit(u, price.value, qty), 0, t);
      ExecuteSameLimits(cfg, s.(log := s.log + [Limit(u, price.value, qty)]), b, None, true, exec, None, t);
    }
  }

  /** A step hands out a limit sell for a market if and only if it is such a scheduled exit, whatever the record. */
  lemma LimitIff(cfg: Config, s: State, step: Step, t: Ticker)
    ensures LimitsFor(Apply(cfg, s, step).log, t) == LimitsFor(s.log, t)
      + (if HandsOutLimit(cfg, s, step, t) then 1 else 0)
  {
    hide ExecuteStopLoss, IntradayExit, Attempt, ExitNow, MarkCounted, ExitQuantity, LimitsFor, LatchedShut,
         LedgerFrame;
    if LogsNothing(step) { SilentSteps(cfg, s, step); }
    match step
    case WatcherTrigger(u, quantity, quote, exec) =>
      if IsActive(s, u) {
        var b := s.active[u];
        ExitSameLimits(cfg, AdoptQuantity(ClearLatch(s, b), b, quantity), b, quote, exec, t);
      }
    case PhaseCTrigger(u, quote, exec) => if IsActive(s, u) { ExitSameLimits(cfg, s, s.active[u], quote, exec, t); }
    case BlindFlatten(u, override, exec) =>
      if IsActive(s, u) { ExecuteSameLimits(cfg, s, s.active[u], Some(override), true, exec, None, t); }
    case CloseOut(u, exec) => if IsActive(s, u) { ExecuteSameLimits(cfg, s, s.active[u], None, true, exec, None, t); }
    case ScheduledExit(u, bid, confirmed, limit, exec) =>
      if IsActive(s, u) { ScheduledLimits(cfg, s, s.active[u], bid, confirmed, limit, exec, t); }
    case PanicAttempt(id, env) => if IsRunning(s, id) { AttemptSameLimits(cfg, s, id, env, t); }
    case _ =>
  }

  /** How many steps of a run hand out a limit sell for `t`. */
  ghost function LimitSteps(cfg: Config, s: State, steps: seq<Step>, t: Ticker): nat
    decreases |steps|
  {
    if steps == [] then 0
    else (if HandsOutLimit(cfg, s, steps[0], t) then 1 else 0) + LimitSteps(cfg, Apply(cfg, s, steps[0]), steps[1..], t)
  }

  /** Once the record says SUCCEEDED, no stop-loss execution hands out another sell for that market, by any path,
      until an entry is saved and deletes the record; the only sells still handed out are the limits of scheduled
      exits, one for each step that meets their condition. */
  lemma {:induction false} SucceededStopsSells(cfg: Config, s: State, steps: seq<Step>, t: Ticker, n: nat)
    requires Done(s, t, n)
    requires forall i :: 0 <= i < |steps| ==> !(steps[i].Enter? && steps[i].ticker == t && steps[i].saved)
    ensures Done(Run(cfg, s, steps), t, n)
    ensures LimitsFor(Run(cfg, s, steps).log, t) == LimitsFor(s.log, t) + LimitSteps(cfg, s, steps, t)
    decreases |steps|
  {
    if steps != [] {
      hide Apply, Done, HandsOutLimit, LimitsFor;
      StepKeepsDone(cfg, s, steps[0], t, n);
      LimitIff(cfg, s, steps[0], t);
      SucceededStopsSells(cfg, Apply(cfg, s, steps[0]), steps[1..], t, n);
    }
  }

  lemma ExitKeepsActive(cfg: Config, s: State, b: nat, quote: Option<Quote>, exec: ExecEnv)
    requires b < |s.brackets|
    ensures SubActive(s, ExitNow(cfg, MarkCounted(cfg, s, b), b, quote, exec))
  {
    hide ExecuteStopLoss, LatchedShut, InFlight, MarkCounted, DecrementAndClear;
    CountingKeepsActive(cfg, s, b);
    var (s1, outcome) := ExecuteStopLoss(cfg, MarkCounted(cfg, s, b), b, None, false, exec, None);
    CountingKeepsActive(cfg, s1, b);
  }

  lemma CountingKeepsActive(cfg: Config, s: State, b: nat)
    requires b < |s.brackets|
    ensures MarkCounted(cfg, s, b).active == s.active && |MarkCounted(cfg, s, b).brackets| == |s.brackets|
    ensures DecrementAndClear(cfg, s, b).active == s.active
  {}

  /** A step makes a market active only by entering or adopting it. */
  lemma StaysInactive(cfg: Config, s: State, step: Step, t: Ticker)
    requires t !in s.active && !((step.Enter? || step.Adopt?) && step.ticker == t)
    ensures t !in Apply(cfg, s, step).active
  {
    hide ExecuteStopLoss, IntradayExit, SyncPosition, Attempt, ExitQuantity, LatchedShut, LedgerFrame, ExitNow,
         MarkCounted, Rollback, InFlight;
    if IsQuiet(step) { QuietStep(cfg, s, step); }
    match step
    case WatcherTrigger(u, quantity, quote, exec) =>
      if IsActive(s, u) {
        var b := s.active[u];
        ExitKeepsActive(cfg, AdoptQuantity(ClearLatch(s, b), b, quantity), b, quote, exec);
      }
    case PhaseCTrigger(u, quote, exec) => if IsActive(s, u) { ExitKeepsActive(cfg, s, s.active[u], quote, exec); }
    case PhaseCRecovered(u) => if IsActive(s, u) { L.RollbackFrame(cfg, s, s.active[u]); }
    case PanicAttempt(id, env) => if IsRunning(s, id) { L.AttemptFrame(cfg, s, id, env); }
    case _ =>
  }

  /** While a market is not active and is neither entered nor adopted, no scheduled exit sells it. */
  lemma {:induction false} InactiveSellsNothing(cfg: Config, s: State, steps: seq<Step>, t: Ticker)
    requires Inv(cfg, s) && t !in s.active
    requires forall i :: 0 <= i < |steps| ==> !((steps[i].Enter? || steps[i].Adopt?) && steps[i].ticker == t)
    ensures LimitSteps(cfg, s, steps, t) == 0 && t !in Run(cfg, s, steps).active
    decreases |steps|
  {
    if steps != [] {
      assert !HandsOutLimit(cfg, s, steps[0], t);
      hide Apply, Inv, HandsOutLimit;
      StepKeepsInv(cfg, s, steps[0]);
      StaysInactive(cfg, s, steps[0], t);
      InactiveSellsNothing(cfg, Apply(cfg, s, steps[0]), steps[1..], t);
    }
  }

  const SOLD := ExecEnv(false, SellDone(1), Live(None, LookupFailed))

  /** What the exchange lists of a market bought, sold, and bought once more. */
  function BoughtAgain(t: Ticker): seq<Fill> {
    [Fill(t, "APP_1", 1.0, "buy"), Fill(t, "APP_2", 1.0, "sell"), Fill(t, "APP_3", 1.0, "buy")]
  }

  /** One contract is bought, sold by a stop-loss, bought again without the daemon noticing, and adopted. */
  function SoldAndAdopted(t: Ticker): seq<Step> {
    [Enter(t, 1, 1, true), BlindFlatten(t, 1, SOLD), Adopt(t, 1, Fills(BoughtAgain(t)))]
  }

  /** The record still says SUCCEEDED, stop-loss executions are silenced, and a scheduled exit sells all the same. */
  lemma AdoptedMarketIsSoldAgain(cfg: Config, t: Ticker)
    ensures var s := Run(cfg, EMPTY, SoldAndAdopted(t));
      && Inv(cfg, s) && Done(s, t, 1)
      && HandsOutLimit(cfg, s, ScheduledExit(t, Some(50), None, Unfilled, SOLD), t)
  {
    var steps := SoldAndAdopted(t);
    var s1 := Apply(cfg, EMPTY, steps[0]);
    assert s1 == State([Bracket(t, 1, false, false)], map[t := 0], map[t := 1], map[], map[], map[], [], [],
                       s1.notices);
    var s2 := Apply(cfg, s1, steps[1]);
    FlattenedOne(cfg, s1, t);
    AdoptedOne(cfg, s2, t);
    var s3 := Apply(cfg, s2, steps[2]);
    RunThree(cfg, EMPTY, steps);
    EmptyStart(cfg);
    StepKeepsInv(cfg, EMPTY, steps[0]);
    StepKeepsInv(cfg, s1, steps[1]);
    StepKeepsInv(cfg, s2, steps[2]);
  }

  lemma FlattenedOne(cfg: Config, s: State, t: Ticker)
    requires s == State([Bracket(t, 1, false, false)], map[t := 0], map[t := 1], map[], map[], map[], [], [], s.notices)
    ensures var s' := Apply(cfg, s, BlindFlatten(t, 1, SOLD));
      && t !in s'.active && t in s'.actions && s'.actions[t].Succeeded? && SellsFor(s'.log, t) == 1
  {
    hide SellPrice, AfterSell, ConfirmRemaining, LimitsFor, Inv, LedgerFrame, Attempt, IntradayExit, AdoptPosition,
         SyncPosition, Watcher, PhaseC, Dispatch, Cleanup;
    var sold := Sell(None, t, SellPrice(cfg, Some(1)), 1);
    var s1 := SetAction(s, t, Submitted);
    var s2 := s1.(log := [sold]);
    assert ExitQuantity(cfg, s, 0) == ExitQuantity(cfg, s1, 0) == ManagedExit(Some(1), 1, cfg.manageExternal);
    assert s1.log + [sold] == [sold];
    assert Apply(cfg, s, BlindFlatten(t, 1, SOLD)) == SubmitSell(cfg, s1, 0, Some(1), SOLD, None).0 ==
        AfterSell(cfg, s2, 0, SOLD).0;
    SoldOut(cfg, s2, t);
    assert [sold][..0] == [];
  }

  lemma SoldOut(cfg: Config, s: State, t: Ticker)
    requires |s.brackets| == 1 && s.brackets[0].ticker == t && s.brackets[0].quantity == 1 && s.appOwned == map[t := 1]
    ensures AfterSell(cfg, s, 0, SOLD) == (RemovePosition(SetAction(Heard(s, t, SOLD.after), t, Succeeded), t), NotGone)
  {
    hide LedgerFrame, RemovePosition, SetAction;
  }

  lemma AdoptedOne(cfg: Config, s: State, t: Ticker)
    requires t !in s.active
    ensures var s' := Apply(cfg, s, SoldAndAdopted(t)[2]);
      && s'.log == s.log && s'.actions == s.actions
      && IsActive(s', t) && s'.brackets[s'.active[t]].ticker == t && ExitQuantity(cfg, s', s'.active[t]).managed == 1
  {
    BoughtAgainNet(t);
    assert AppOwned(t, 1, 0, false, Fills(BoughtAgain(t))) == 1 by { hide Net; }
  }

  lemma BoughtAgainNet(t: Ticker)
    ensures Net(BoughtAgain(t), t) == 1.0 && exists f :: f in BoughtAgain(t) && Matches(f, t)
  {
    var bought, sold, again := Fill(t, "APP_1", 1.0, "buy"), Fill(t, "APP_2", 1.0, "sell"),
        Fill(t, "APP_3", 1.0, "buy");
    assert Lower("buy") == "buy" && Lower("sell") == "sell";
    assert BoughtAgain(t)[..2] == [bought, sold] && [bought, sold][..1] == [bought] && [bought][..0] == [];
    assert Matches(bought, t) && Matches(sold, t) && Matches(again, t);
    assert Net([bought], t) == 1.0 && Net([bought, sold], t) == 0.0;
  }

  lemma RunThree(cfg: Config, s: State, steps: seq<Step>)
    requires |steps| == 3
    ensures Run(cfg, s, steps) == Apply(cfg, Apply(cfg, Apply(cfg, s, steps[0]), steps[1]), steps[2])
  {
    hide Apply;
    var s1 := Apply(cfg, s, steps[0]);
    var s2 := Apply(cfg, s1, steps[1]);
    assert Run(cfg, s, steps) == Run(cfg, s1, steps[1..]) == Run(cfg, s2, steps[1..][1..]);
    assert steps[1..][1..] == [steps[2]] && [steps[2]][1..] == [];
    assert Run(cfg, Apply(cfg, s2, steps[2]), []) == Apply(cfg, s2, steps[2]);
  }
}
