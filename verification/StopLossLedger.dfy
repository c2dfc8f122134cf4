/** The stop-loss ledger against the flags of the bracket objects: when the two agree, and what a finished exit
    run does to the count. */
module StopLossLedger {
  import opened Common
  import opened Ownership
  import opened StopLoss
  import opened StopLossSafety

  // ------------------------------------------------------------------
  // Counting flags
  // ------------------------------------------------------------------

  function Weighs(cfg: Config, b: Bracket, k: LedgerKey): nat {
    if b.counted && cfg.ledgerKey(b.ticker) == Some(k) then 1 else 0
  }

  /** How many bracket objects of ledger row `k`, closed ones included, still carry the counted flag. */
  function Flags(cfg: Config, bs: seq<Bracket>, k: LedgerKey): nat
    decreases |bs|
  {
    if bs == [] then 0 else Flags(cfg, bs[..|bs| - 1], k) + Weighs(cfg, bs[|bs| - 1], k)
  }

  lemma {:induction false} FlagsUpdate(cfg: Config, bs: seq<Bracket>, i: nat, b: Bracket, k: LedgerKey)
    requires i < |bs|
    ensures Flags(cfg, bs[i := b], k) == Flags(cfg, bs, k) - Weighs(cfg, bs[i], k) + Weighs(cfg, b, k)
    ensures Weighs(cfg, bs[i], k) <= Flags(cfg, bs, k)
    decreases |bs|
  {
    var last := |bs| - 1;
    if i == last {
      assert bs[i := b][..last] == bs[..last];
    } else {
      assert bs[i := b][..last] == bs[..last][i := b];
      FlagsUpdate(cfg, bs[..last], i, b, k);
    }
  }

  lemma {:induction false} FlagsFrame(cfg: Config, a: seq<Bracket>, b: seq<Bracket>, k: LedgerKey)
    requires SameFlags(a, b)
    ensures Flags(cfg, a, k) == Flags(cfg, b, k)
    decreases |a|
  {
    if a != [] {
      FlagsFrame(cfg, a[..|a| - 1], b[..|b| - 1], k);
    }
  }

  /** Zero exactly when the ledger count equals the number of flags. */
  function Drift(cfg: Config, s: State, k: LedgerKey): int {
    Count(s, k) - Flags(cfg, s.brackets, k)
  }

  // ------------------------------------------------------------------
  // What the primitives do to the drift
  // ------------------------------------------------------------------

  lemma DriftFrame(cfg: Config, s: State, s': State, k: LedgerKey)
    requires s'.ledger == s.ledger && SameFlags(s.brackets, s'.brackets)
    ensures Drift(cfg, s', k) == Drift(cfg, s, k)
  {
    FlagsFrame(cfg, s.brackets, s'.brackets, k);
  }

  /** The increment for this bracket would exceed the factor and is swallowed. */
  predicate ClampsAt(cfg: Config, s: State, b: nat, k: LedgerKey)
    requires b < |s.brackets|
  {
    !s.brackets[b].counted && cfg.ledgerKey(s.brackets[b].ticker) == Some(k) && Count(s, k) >= cfg.Factor()
  }

  lemma DriftMark(cfg: Config, s: State, b: nat, k: LedgerKey)
    requires b < |s.brackets| && LedgerInRange(cfg, s)
    ensures Drift(cfg, MarkCounted(cfg, s, b), k) == Drift(cfg, s, k) - (if ClampsAt(cfg, s, b, k) then 1 else 0)
    ensures ClampsAt(cfg, s, b, k) ==> Count(MarkCounted(cfg, s, b), k) > 0
  {
    FlagsUpdate(cfg, s.brackets, b, s.brackets[b].(counted := true), k);
  }

  lemma DriftClear(cfg: Config, s: State, b: nat, k: LedgerKey)
    requires b < |s.brackets|
    ensures Drift(cfg, DecrementAndClear(cfg, s, b), k) ==
            if cfg.ledgerKey(s.brackets[b].ticker) != Some(k) then Drift(cfg, s, k)
            else Drift(cfg, s, k) + (if s.brackets[b].counted then 1 else 0) - (if Count(s, k) > 0 then 1 else 0)
    ensures s.brackets[b].counted && cfg.ledgerKey(s.brackets[b].ticker) == Some(k) ==>
            Flags(cfg, s.brackets, k) >= 1
  {
    FlagsUpdate(cfg, s.brackets, b, s.brackets[b].(counted := false), k);
  }

  /** Clearing a set flag takes exactly its own count back. */
  lemma ClearKeepsBalance(cfg: Config, s: State, b: nat, k: LedgerKey)
    requires b < |s.brackets| && s.brackets[b].counted && Drift(cfg, s, k) == 0
    ensures Drift(cfg, DecrementAndClear(cfg, s, b), k) == 0
  {
    DriftClear(cfg, s, b, k);
  }

  lemma RollbackKeepsBalance(cfg: Config, s: State, b: nat, k: LedgerKey)
    requires b < |s.brackets| && Drift(cfg, s, k) == 0
    ensures Drift(cfg, Rollback(cfg, s, b), k) == 0
  {
    if s.brackets[b].counted { ClearKeepsBalance(cfg, s, b, k); }
  }

  // ------------------------------------------------------------------
  // Exactly when a step keeps the balance
  // ------------------------------------------------------------------

  /** The bracket and state an iteration hands to the sell, when it gets that far. */
  function SellStage(cfg: Config, s: State, id: nat, env: AttemptEnv): (r: Option<(State, nat)>)
    requires IsRunning(s, id)
    ensures r.Some? ==> r.value.1 < |r.value.0.brackets|
  {
    var (s1, current) := PickCurrent(cfg, s, id, env.missing);
    if current.None? || !Revalidate(cfg, s1.tasks[id].noBid, env.reading).Proceed? then None
    else Some((AfterReading(cfg, s1, id, env.reading), current.value))
  }

  function SellOutcome(cfg: Config, s: State, id: nat, env: AttemptEnv): Outcome
    requires IsRunning(s, id) && SellStage(cfg, s, id, env).Some?
  {
    var (s2, cur) := SellStage(cfg, s, id, env).value;
    ExecuteStopLoss(cfg, s2, cur, Some(cfg.PanicPrice()), true, env.exec, Some(id)).1
  }

  /** The market is gone under a bracket whose flag is not set, so the unconditional decrement takes somebody else's
      count. */
  predicate UncountedGone(cfg: Config, s: State, step: Step, k: LedgerKey) {
    && step.PanicAttempt? && IsRunning(s, step.task)
    && SellStage(cfg, s, step.task, step.env).Some?
    && SellOutcome(cfg, s, step.task, step.env).Gone?
    && var (s2, cur) := SellStage(cfg, s, step.task, step.env).value;
       && !s2.brackets[cur].counted
       && cfg.ledgerKey(s2.brackets[cur].ticker) == Some(k)
       && Count(s, k) > 0
  }

  predicate Clamps(cfg: Config, s: State, step: Step, k: LedgerKey) {
    match step
    case WatcherTrigger(t, _, quote, _) =>
      IsActive(s, t) && !LatchedShut(cfg, s, s.active[t], quote) && ClampsAt(cfg, s, s.active[t], k)
    case PhaseCTrigger(t, _, _) =>
      && IsActive(s, t) && s.brackets[s.active[t]].quantity > 0
      && ExitQuantity(cfg, s, s.active[t]).managed > 0 && ClampsAt(cfg, s, s.active[t], k)
    case _ => false
  }

  lemma ExitNowDrift(cfg: Config, s: State, b: nat, quote: Option<Quote>, exec: ExecEnv, k: LedgerKey)
    requires b < |s.brackets| && s.brackets[b].counted
    requires Drift(cfg, s, k) == 0 || (Drift(cfg, s, k) == -1 && Count(s, k) > 0)
    ensures Drift(cfg, ExitNow(cfg, s, b, quote, exec), k) == Drift(cfg, s, k)
  {
    if cfg.fastExit {
      DriftFrame(cfg, s, Dispatch(cfg, s, b, quote), k);
    } else {
      var (s1, outcome) := ExecuteStopLoss(cfg, s, b, None, false, exec, None);
      DriftFrame(cfg, s, s1, k);
      if outcome.Gone? { DriftClear(cfg, s1, b, k); }
    }
  }

  lemma ExhaustedDrift(cfg: Config, s: State, id: nat, reply: PositionsReply, k: LedgerKey)
    requires IsRunning(s, id) && s.brackets[s.tasks[id].bracket].counted && Drift(cfg, s, k) == 0
    ensures Drift(cfg, Exhausted(cfg, s, id, reply), k) == 0
  {
    hide Heard, ConfirmRemaining, DecrementAndClear, Rollback, Drift;
    var b := s.tasks[id].bracket;
    var rest := ConfirmRemaining(cfg, s, b, 0, reply);
    var s1 := Finish(Reconcile(Heard(s, s.brackets[b].ticker, reply), b, rest), id);
    DriftFrame(cfg, s, s1, k);
    if rest.managed <= 0 {
      ClearKeepsBalance(cfg, s1, b, k);
      var s2 := DecrementAndClear(cfg, s1, b);
      DriftFrame(cfg, s2, RemovePosition(s2, s.tasks[id].ticker), k);
    } else {
      RollbackKeepsBalance(cfg, s1, b, k);
    }
  }

  lemma AttemptDrift(cfg: Config, s: State, id: nat, env: AttemptEnv, k: LedgerKey)
    requires Inv(cfg, s) && IsRunning(s, id) && Drift(cfg, s, k) == 0
    ensures Drift(cfg, Attempt(cfg, s, id, env), k) == if UncountedGone(cfg, s, PanicAttempt(id, env), k) then -1 else 0
  {
    hide Inv, ExecuteStopLoss, PickCurrent, AfterAttempt, Drift, NextNoBid, Revalidate, Rollback;
    RunIsCounted(cfg, s, id);
    var (s1, current) := PickCurrent(cfg, s, id, env.missing);
    DriftFrame(cfg, s, s1, k);
    if current.None? {
      DriftFrame(cfg, s1, Finish(s1, id), k);
    } else {
      var cur := current.value;
      var s2 := AfterReading(cfg, s1, id, env.reading);
      DriftFrame(cfg, s1, s2, k);
      DriftFrame(cfg, s2, Finish(s2, id), k);
      match Revalidate(cfg, s1.tasks[id].noBid, env.reading) {
        case Recovered => RollbackKeepsBalance(cfg, Finish(s2, id), cur, k);
        case Unfillable =>
          DriftFrame(cfg, Finish(s2, id), LatchUnfillable(Finish(s2, id), s.tasks[id].bracket), k);
        case Proceed =>
          var (s3, outcome) := ExecuteStopLoss(cfg, s2, cur, Some(cfg.PanicPrice()), true, env.exec, Some(id));
          DriftFrame(cfg, s2, s3, k);
          AfterAttemptDrift(cfg, s3, id, cur, outcome, env, k);
      }
    }
  }

  lemma RunIsCounted(cfg: Config, s: State, id: nat)
    requires Inv(cfg, s) && IsRunning(s, id)
    ensures s.brackets[s.tasks[id].bracket].counted
  {
    assert Running(s, id);
  }

  lemma AfterAttemptDrift(cfg: Config, s: State, id: nat, cur: nat, outcome: Outcome, env: AttemptEnv, k: LedgerKey)
    requires IsRunning(s, id) && cur < |s.brackets|
    requires s.brackets[s.tasks[id].bracket].counted && Drift(cfg, s, k) == 0
    ensures Drift(cfg, AfterAttempt(cfg, s, id, cur, outcome, env), k) ==
            if outcome.Gone? && !s.brackets[cur].counted && cfg.ledgerKey(s.brackets[cur].ticker) == Some(k)
               && Count(s, k) > 0 then -1 else 0
  {
    DriftFrame(cfg, s, Finish(s, id), k);
    var task := s.tasks[id];
    if outcome.Gone? {
      DriftClear(cfg, Finish(s, id), cur, k);
    } else if outcome.NotGone? && task.ticker !in s.active {
    } else if task.attempt < cfg.MaxRetries() {
      DriftFrame(cfg, s, SetTask(s, id, task.(attempt := task.attempt + 1)), k);
    } else {
      ExhaustedDrift(cfg, s, id, env.exhausted, k);
    }
  }

  lemma TriggerDrift(cfg: Config, s: State, b: nat, quote: Option<Quote>, exec: ExecEnv, k: LedgerKey)
    requires Inv(cfg, s) && b < |s.brackets| && Drift(cfg, s, k) == 0
    ensures Drift(cfg, ExitNow(cfg, MarkCounted(cfg, s, b), b, quote, exec), k) ==
            if ClampsAt(cfg, s, b, k) then -1 else 0
  {
    DriftMark(cfg, s, b, k);
    ExitNowDrift(cfg, MarkCounted(cfg, s, b), b, quote, exec, k);
  }

  lemma JoinBalance(cfg: Config, s: State, t: Ticker, qty: int, app: int, k: LedgerKey)
    requires Drift(cfg, s, k) == 0
    ensures Drift(cfg, JoinPosition(s, t, qty, app), k) == 0
  {
    var s' := JoinPosition(s, t, qty, app);
    if IsActive(s, t) {
      DriftFrame(cfg, s, s', k);
    } else {
      assert s'.brackets[..|s.brackets|] == s.brackets;
    }
  }

  lemma EnterBalance(cfg: Config, s: State, t: Ticker, qty: int, app: int, saved: bool, k: LedgerKey)
    requires Drift(cfg, s, k) == 0
    ensures Drift(cfg, EnterPosition(s, t, qty, app, saved), k) == 0
  {
    hide JoinPosition, Flags;
    JoinBalance(cfg, ForgetAction(s, t, saved), t, qty, app, k);
  }

  lemma AdoptBalance(cfg: Config, s: State, t: Ticker, qty: int, fills: FillLookup, k: LedgerKey)
    requires Drift(cfg, s, k) == 0
    ensures Drift(cfg, AdoptPosition(cfg, s, t, qty, fills), k) == 0
  {
    hide JoinPosition, Flags;
    JoinBalance(cfg, s, t, qty, qty, k);
    JoinBalance(cfg, s, t, qty, AppOwned(t, qty, 0, false, fills), k);
  }

  lemma WatcherBalance(cfg: Config, s: State, b: nat, quantity: int, quote: Option<Quote>, exec: ExecEnv, k: LedgerKey)
    requires Inv(cfg, s) && b < |s.brackets| && Drift(cfg, s, k) == 0
    ensures Drift(cfg, Watcher(cfg, s, b, quantity, quote, exec), k) ==
            if !LatchedShut(cfg, s, b, quote) && ClampsAt(cfg, s, b, k) then -1 else 0
  {
    hide Drift, ExitNow, MarkCounted, Inv;
    if !LatchedShut(cfg, s, b, quote) {
      var s1 := AdoptQuantity(ClearLatch(s, b), b, quantity);
      DriftFrame(cfg, s, s1, k);
      QuietKeepsInv(cfg, s, s1);
      TriggerDrift(cfg, s1, b, quote, exec, k);
    }
  }

  lemma PhaseCBalance(cfg: Config, s: State, b: nat, quote: Option<Quote>, exec: ExecEnv, k: LedgerKey)
    requires Inv(cfg, s) && b < |s.brackets| && Drift(cfg, s, k) == 0
    ensures Drift(cfg, PhaseC(cfg, s, b, quote, exec), k) ==
            if s.brackets[b].quantity > 0 && ExitQuantity(cfg, s, b).managed > 0 && ClampsAt(cfg, s, b, k) then -1
                else 0
  {
    hide Drift, ExitNow, MarkCounted, Inv, ExitQuantity;
    if s.brackets[b].quantity <= 0 {
      DriftFrame(cfg, s, PhaseC(cfg, s, b, quote, exec), k);
    } else if ExitQuantity(cfg, s, b).managed > 0 {
      TriggerDrift(cfg, s, b, quote, exec, k);
    }
  }

  /** One step from balance: the count still equals the number of flags if and only if the step neither swallowed an
      increment at the factor nor decremented for a bracket that was never counted. */
  lemma StepBalance(cfg: Config, s: State, step: Step, k: LedgerKey)
    requires Inv(cfg, s) && Drift(cfg, s, k) == 0
    ensures Drift(cfg, Apply(cfg, s, step), k) == 0 <==> !Clamps(cfg, s, step, k) && !UncountedGone(cfg, s, step, k)
  {
    hide Drift, EnterPosition, AdoptPosition, Watcher, PhaseC, Recovery, ExecuteStopLoss, IntradayExit, SyncPosition,
         Attempt, Cleanup, Inv, LatchedShut, ClampsAt, ExitQuantity, SellStage, SellOutcome;
    if IsQuiet(step) {
      QuietStep(cfg, s, step);
      DriftFrame(cfg, s, Apply(cfg, s, step), k);
      return;
    }
    match step
    case Enter(t, qty, app, saved) => EnterBalance(cfg, s, t, qty, app, saved, k);
    case Adopt(t, qty, fills) => AdoptBalance(cfg, s, t, qty, fills, k);
    case WatcherTrigger(t, quantity, quote, exec) =>
      if IsActive(s, t) { WatcherBalance(cfg, s, s.active[t], quantity, quote, exec, k); }
    case PhaseCTrigger(t, quote, exec) =>
      if IsActive(s, t) { PhaseCBalance(cfg, s, s.active[t], quote, exec, k); }
    case PhaseCRecovered(t) =>
      if IsActive(s, t) { RecoveryBalance(cfg, s, s.active[t], k); }
    case PanicAttempt(id, env) => if IsRunning(s, id) { AttemptDrift(cfg, s, id, env, k); }
    case TaskCleanup(id) => CleanupBalance(cfg, s, id, k);
    case _ =>
  }

  lemma RecoveryBalance(cfg: Config, s: State, b: nat, k: LedgerKey)
    requires b < |s.brackets| && Drift(cfg, s, k) == 0
    ensures Drift(cfg, Recovery(cfg, s, b), k) == 0
  {
    hide Drift, Rollback;
    RollbackKeepsBalance(cfg, s, b, k);
  }

  lemma CleanupBalance(cfg: Config, s: State, id: nat, k: LedgerKey)
    ensures Drift(cfg, Cleanup(s, id), k) == Drift(cfg, s, k)
  {
    hide Drift;
    DriftFrame(cfg, s, Cleanup(s, id), k);
  }

  // ------------------------------------------------------------------
  // Runs in which no bracket is replaced under its own exit run
  // ------------------------------------------------------------------

  /** While a run is unfinished its market's active bracket, if any, is the one the run was started for. */
  ghost predicate Paired(s: State) {
    forall i :: Running(s, i) && s.tasks[i].ticker in s.active ==> s.active[s.tasks[i].ticker] == s.tasks[i].bracket
  }

  /** A market is entered or adopted afresh although an exit run for its previous bracket is still unfinished. */
  predicate EntersDuringExit(s: State, step: Step) {
    (step.Enter? || step.Adopt?) && !IsActive(s, step.ticker) && InFlight(s, step.ticker)
  }

  lemma PairedNeverUncounted(cfg: Config, s: State, step: Step, k: LedgerKey)
    requires Inv(cfg, s) && Paired(s)
    ensures !UncountedGone(cfg, s, step, k)
  {
    if step.PanicAttempt? && IsRunning(s, step.task) {
      assert Running(s, step.task);
    }
  }

  /** Steps that start no run and make no bracket active keep the pairing. */
  lemma PairedFrame(s: State, s': State)
    requires Paired(s) && SubActive(s, s') && |s'.tasks| == |s.tasks|
    requires forall i :: 0 <= i < |s.tasks| ==>
      && s'.tasks[i].ticker == s.tasks[i].ticker && s'.tasks[i].bracket == s.tasks[i].bracket
      && (s.tasks[i].finished ==> s'.tasks[i].finished)
    ensures Paired(s')
  {
    forall i | Running(s', i) && s'.tasks[i].ticker in s'.active
      ensures s'.active[s'.tasks[i].ticker] == s'.tasks[i].bracket
    {
      assert Running(s, i);
    }
  }

  /** Runs may finish and markets may close, but no run starts and nothing is renamed. */
  ghost predicate TaskFrame(s: State, s': State) {
    && SubActive(s, s') && |s'.tasks| == |s.tasks| && |s'.brackets| == |s.brackets| && s'.exitTasks == s.exitTasks
    && (forall i :: 0 <= i < |s.tasks| ==>
          && s'.tasks[i].ticker == s.tasks[i].ticker && s'.tasks[i].bracket == s.tasks[i].bracket
          && (s.tasks[i].finished ==> s'.tasks[i].finished))
  }

  lemma ExhaustedFrame(cfg: Config, s: State, id: nat, reply: PositionsReply)
    requires IsRunning(s, id)
    ensures TaskFrame(s, Exhausted(cfg, s, id, reply)) && Exhausted(cfg, s, id, reply).tasks[id].finished
  {
    hide ConfirmRemaining;
  }

  lemma AfterAttemptFrame(cfg: Config, s: State, id: nat, cur: nat, outcome: Outcome, env: AttemptEnv)
    requires IsRunning(s, id) && cur < |s.brackets|
    ensures TaskFrame(s, AfterAttempt(cfg, s, id, cur, outcome, env))
  {
    hide Exhausted;
    ExhaustedFrame(cfg, s, id, env.exhausted);
  }

  lemma AttemptFrame(cfg: Config, s: State, id: nat, env: AttemptEnv)
    requires IsRunning(s, id)
    ensures TaskFrame(s, Attempt(cfg, s, id, env))
  {
    hide PickCurrent, ExecuteStopLoss, AfterAttempt, NextNoBid, Revalidate, Rollback;
    var (s1, current) := PickCurrent(cfg, s, id, env.missing);
    if current.Some? {
      var cur := current.value;
      var s2 := AfterReading(cfg, s1, id, env.reading);
      assert TaskFrame(s, s2);
      match Revalidate(cfg, s1.tasks[id].noBid, env.reading)
      case Recovered => RollbackFrame(cfg, Finish(s2, id), cur);
      case Unfillable =>
      case Proceed =>
        var (s3, outcome) := ExecuteStopLoss(cfg, s2, cur, Some(cfg.PanicPrice()), true, env.exec, Some(id));
        assert TaskFrame(s, s3);
        AfterAttemptFrame(cfg, s3, id, cur, outcome, env);
    }
  }

  lemma RollbackFrame(cfg: Config, s: State, b: nat)
    requires b < |s.brackets|
    ensures TaskFrame(s, Rollback(cfg, s, b))
  {}

  lemma DispatchKeepsPaired(cfg: Config, s: State, b: nat, quote: Option<Quote>)
    requires Paired(s) && b < |s.brackets|
    requires s.brackets[b].ticker in s.active && s.active[s.brackets[b].ticker] == b
    ensures Paired(Dispatch(cfg, s, b, quote))
  {
    hide Revived;
    var s' := Dispatch(cfg, s, b, quote);
    forall i | Running(s', i) && s'.tasks[i].ticker in s'.active
      ensures s'.active[s'.tasks[i].ticker] == s'.tasks[i].bracket
    {
      if i < |s.tasks| { assert Running(s, i); }
    }
  }

  lemma TriggerKeepsPaired(cfg: Config, s: State, b: nat, quote: Option<Quote>, exec: ExecEnv)
    requires Paired(s) && b < |s.brackets|
    requires s.brackets[b].ticker in s.active && s.active[s.brackets[b].ticker] == b
    ensures Paired(ExitNow(cfg, MarkCounted(cfg, s, b), b, quote, exec))
  {
    hide ExecuteStopLoss, Dispatch, Paired;
    var s1 := MarkCounted(cfg, s, b);
    PairedFrame(s, s1);
    if cfg.fastExit {
      DispatchKeepsPaired(cfg, s1, b, quote);
    } else {
      PairedFrame(s1, ExitNow(cfg, s1, b, quote, exec));
    }
  }

  lemma JoinKeepsPaired(s: State, t: Ticker, qty: int, app: int)
    requires Linked(s) && OneTaskPerTicker(s) && Paired(s)
    requires !IsActive(s, t) ==> !InFlight(s, t)
    ensures Paired(JoinPosition(s, t, qty, app))
  {
    var s' := JoinPosition(s, t, qty, app);
    forall i | Running(s', i) && s'.tasks[i].ticker in s'.active
      ensures s'.active[s'.tasks[i].ticker] == s'.tasks[i].bracket
    {
      assert Running(s, i);
    }
  }

  lemma EnterKeepsPaired(s: State, t: Ticker, qty: int, app: int, saved: bool)
    requires Linked(s) && OneTaskPerTicker(s) && Paired(s)
    requires !IsActive(s, t) ==> !InFlight(s, t)
    ensures Paired(EnterPosition(s, t, qty, app, saved))
  {
    hide JoinPosition;
    JoinKeepsPaired(ForgetAction(s, t, saved), t, qty, app);
  }

  lemma AdoptKeepsPaired(cfg: Config, s: State, t: Ticker, qty: int, fills: FillLookup)
    requires Linked(s) && OneTaskPerTicker(s) && Paired(s)
    requires !IsActive(s, t) ==> !InFlight(s, t)
    ensures Paired(AdoptPosition(cfg, s, t, qty, fills))
  {
    hide JoinPosition, Paired;
    var app := AppOwned(t, qty, 0, false, fills);
    JoinKeepsPaired(s, t, qty, qty);
    PairedFrame(s, SetOwnership(s, t, qty, app));
    JoinKeepsPaired(s, t, qty, app);
  }

  lemma WatcherKeepsPaired(cfg: Config, s: State, b: nat, quantity: int, quote: Option<Quote>, exec: ExecEnv)
    requires Paired(s) && b < |s.brackets|
    requires s.brackets[b].ticker in s.active && s.active[s.brackets[b].ticker] == b
    ensures Paired(Watcher(cfg, s, b, quantity, quote, exec))
  {
    hide ExitNow, MarkCounted, Paired;
    if !LatchedShut(cfg, s, b, quote) {
      var s1 := AdoptQuantity(ClearLatch(s, b), b, quantity);
      PairedFrame(s, s1);
      TriggerKeepsPaired(cfg, s1, b, quote, exec);
    }
  }

  lemma StepKeepsPaired(cfg: Config, s: State, step: Step)
    requires Inv(cfg, s) && Paired(s) && !EntersDuringExit(s, step)
    ensures Paired(Apply(cfg, s, step))
  {
    hide Paired, EnterPosition, AdoptPosition, Watcher, ExitNow, MarkCounted, Rollback, ExecuteStopLoss, IntradayExit,
         SyncPosition, Attempt, LatchedShut, ExitQuantity;
    if IsQuiet(step) {
      QuietStep(cfg, s, step);
      PairedFrame(s, Apply(cfg, s, step));
      return;
    }
    match step
    case Enter(t, qty, app, saved) => EnterKeepsPaired(s, t, qty, app, saved);
    case Adopt(t, qty, fills) => AdoptKeepsPaired(cfg, s, t, qty, fills);
    case WatcherTrigger(t, quantity, quote, exec) =>
      if IsActive(s, t) { WatcherKeepsPaired(cfg, s, s.active[t], quantity, quote, exec); }
    case PhaseCTrigger(t, quote, exec) =>
      if IsActive(s, t) {
        if s.brackets[s.active[t]].quantity <= 0 {
          PairedFrame(s, Apply(cfg, s, step));
        } else {
          TriggerKeepsPaired(cfg, s, s.active[t], quote, exec);
        }
      }
    case PhaseCRecovered(t) =>
      if IsActive(s, t) { RollbackKeepsPaired(cfg, s, s.active[t]); }
    case PanicAttempt(id, env) =>
      if IsRunning(s, id) {
        AttemptFrame(cfg, s, id, env);
        PairedFrame(s, Attempt(cfg, s, id, env));
      }
    case TaskCleanup(id) => PairedFrame(s, Cleanup(s, id));
    case _ =>
  }

  lemma RollbackKeepsPaired(cfg: Config, s: State, b: nat)
    requires Paired(s) && b < |s.brackets|
    ensures Paired(Rollback(cfg, s, b))
  {
    hide Paired;
    PairedFrame(s, Rollback(cfg, s, b));
  }

  /** No increment for row `k` is clamped and no market is re-entered under its own exit run. */
  ghost predicate OrderlyRun(cfg: Config, s: State, steps: seq<Step>, k: LedgerKey)
    decreases |steps|
  {
    steps == [] ||
    (!Clamps(cfg, s, steps[0], k) && !EntersDuringExit(s, steps[0]) &&
     OrderlyRun(cfg, Apply(cfg, s, steps[0]), steps[1..], k))
  }

  /** In every orderly run the ledger count equals the number of brackets still flagged as counted. */
  lemma {:induction false} LedgerBalance(cfg: Config, s: State, steps: seq<Step>, k: LedgerKey)
    requires Inv(cfg, s) && Paired(s) && Drift(cfg, s, k) == 0
    requires OrderlyRun(cfg, s, steps, k)
    ensures Count(Run(cfg, s, steps), k) == Flags(cfg, Run(cfg, s, steps).brackets, k)
    ensures 0 <= Count(Run(cfg, s, steps), k) <= cfg.Factor()
    decreases |steps|
  {
    if steps != [] {
      var s' := Apply(cfg, s, steps[0]);
      StepKeepsInv(cfg, s, steps[0]);
      StepKeepsPaired(cfg, s, steps[0]);
      PairedNeverUncounted(cfg, s, steps[0], k);
      StepBalance(cfg, s, steps[0], k);
      LedgerBalance(cfg, s', steps[1..], k);
    }
  }

  // ------------------------------------------------------------------
  // Why the run must be orderly
  // ------------------------------------------------------------------

  const SETTLED_MARKET := ExecEnv(false, MarketNotFound, PositionsFailed)

  /** One contract is bought, its stop triggers, the position is closed by another path while the exit run is still
      unfinished, and the market is entered again; then the run finds the market settled. */
  function ReentryUnderExit(t: Ticker): seq<Step> {
    [ Enter(t, 1, 1, true),
      WatcherTrigger(t, 1, None, SETTLED_MARKET),
      Close(t),
      Enter(t, 1, 1, true),
      PanicAttempt(0, AttemptEnv(PositionsFailed, Reading(None, None), SETTLED_MARKET, PositionsFailed)) ]
  }

  /** That run ends with a count of zero although the first bracket's stop-loss is still flagged as counted. */
  lemma ReentryLosesACount(cfg: Config, t: Ticker, k: LedgerKey)
    requires cfg.fastExit && cfg.ledgerKey(t) == Some(k) && cfg.stopPrice >= 1
    ensures Inv(cfg, EMPTY) && Paired(EMPTY) && Drift(cfg, EMPTY, k) == 0
    ensures var done := Run(cfg, EMPTY, ReentryUnderExit(t));
      Count(done, k) == 0 && Flags(cfg, done.brackets, k) == 1
  {
    var first, second := Bracket(t, 1, false, false), Bracket(t, 1, true, false);
    var steps := ReentryUnderExit(t);
    var s1 := Apply(cfg, EMPTY, steps[0]);
    assert s1 == State([first], map[t := 0], map[t := 1], map[], map[], map[], [], [], s1.notices);
    var s2 := Apply(cfg, s1, steps[1]);
    assert s2 == State([second], map[t := 0], map[t := 1], map[], map[k := 1], map[t := 0], [Task(t, 0, 1, 0, false)],
                       [], s2.notices);
    var s3 := Apply(cfg, s2, steps[2]);
    assert s3 == s2.(active := map[], appOwned := map[]);
    var s4 := Apply(cfg, s3, steps[3]);
    assert s4 == s2.(brackets := [second, first], active := map[t := 1], notices := s4.notices);
    UncountedRun(cfg, s4, t, k);
    RunFive(cfg, EMPTY, steps);
  }

  lemma RunFive(cfg: Config, s: State, steps: seq<Step>)
    requires |steps| == 5
    ensures Run(cfg, s, steps) ==
      Apply(cfg, Apply(cfg, Apply(cfg, Apply(cfg, Apply(cfg, s, steps[0]), steps[1]), steps[2]), steps[3]), steps[4])
  {
    hide Apply;
    var s1 := Apply(cfg, s, steps[0]);
    var s2 := Apply(cfg, s1, steps[1]);
    var s3 := Apply(cfg, s2, steps[2]);
    var s4 := Apply(cfg, s3, steps[3]);
    assert Run(cfg, s, steps) == Run(cfg, s1, steps[1..]) == Run(cfg, s2, steps[1..][1..]);
    assert steps[1..][1..] == steps[2..] && steps[2..][1..] == steps[3..] && steps[3..][1..] == steps[4..];
    assert Run(cfg, s2, steps[2..]) == Run(cfg, s3, steps[3..]) == Run(cfg, s4, steps[4..]);
    var s5 := Apply(cfg, s4, steps[4]);
    assert steps[4..] == [steps[4]] && steps[4..][1..] == [];
    assert Run(cfg, s4, steps[4..]) == Run(cfg, s5, []) == s5;
  }

  lemma UncountedRun(cfg: Config, s: State, t: Ticker, k: LedgerKey)
    requires cfg.ledgerKey(t) == Some(k)
    requires s.brackets == [Bracket(t, 1, true, false), Bracket(t, 1, false, false)] && s.active == map[t := 1]
    requires s.appOwned == map[t := 1] && s.actions == map[] && s.ledger == map[k := 1]
    requires s.tasks == [Task(t, 0, 1, 0, false)]
    ensures var s' := Apply(cfg, s, ReentryUnderExit(t)[4]);
      Count(s', k) == 0 && Flags(cfg, s'.brackets, k) == 1
  {
    hide SellPrice, ConfirmRemaining, LedgerFrame, Exhausted, Watcher, PhaseC, IntradayExit, AdoptPosition,
         SyncPosition, Cleanup;
    var env := AttemptEnv(PositionsFailed, Reading(None, None), SETTLED_MARKET, PositionsFailed);
    assert PickCurrent(cfg, s, 0, env.missing) == (s, Some(1));
    var s2 := AfterReading(cfg, s, 0, env.reading);
    assert ExitQuantity(cfg, SetAction(s2, t, Submitted), 1).managed == 1;
    var (s3, outcome) := ExecuteStopLoss(cfg, s2, 1, Some(cfg.PanicPrice()), true, env.exec, Some(0));
    assert outcome.Gone? && s3.brackets == s.brackets && s3.ledger == s.ledger;
    var s' := Apply(cfg, s, ReentryUnderExit(t)[4]);
    assert s'.brackets == s.brackets;
    var flagged := [s.brackets[0]];
    assert s.brackets[..1] == flagged && flagged[..0] == [];
    assert Flags(cfg, flagged, k) == 1;
  }

  // ------------------------------------------------------------------
  // What a finished exit run leaves in the ledger
  // ------------------------------------------------------------------

  datatype End = Continues | PositionGone | AskRecovered | NoBuyer | MarketGone | Filled | ExhaustedFlat | ExhaustedHeld

  function EndOf(cfg: Config, s: State, id: nat, outcome: Outcome, reply: PositionsReply): End
    requires IsRunning(s, id)
  {
    if outcome.Gone? then MarketGone
    else if outcome.NotGone? && s.tasks[id].ticker !in s.active then Filled
    else if s.tasks[id].attempt < cfg.MaxRetries() then Continues
    else if ConfirmRemaining(cfg, s, s.tasks[id].bracket, 0, reply).managed <= 0 then ExhaustedFlat
    else ExhaustedHeld
  }

  function AttemptEnd(cfg: Config, s: State, id: nat, env: AttemptEnv): End
    requires IsRunning(s, id)
  {
    var (s1, current) := PickCurrent(cfg, s, id, env.missing);
    if current.None? then PositionGone
    else
      match Revalidate(cfg, s1.tasks[id].noBid, env.reading)
      case Recovered => AskRecovered
      case Unfillable => NoBuyer
      case Proceed =>
        var s2 := AfterReading(cfg, s1, id, env.reading);
        var (s3, outcome) := ExecuteStopLoss(cfg, s2, current.value, Some(cfg.PanicPrice()), true, env.exec, Some(id));
        EndOf(cfg, s3, id, outcome, env.exhausted)
  }

  predicate TakesCountBack(e: End) { e.AskRecovered? || e.MarketGone? || e.ExhaustedFlat? || e.ExhaustedHeld? }

  /** The iterations of one run, with nothing in between. */
  function Iterate(cfg: Config, s: State, id: nat, envs: seq<AttemptEnv>): (r: (State, End))
    decreases |envs|
  {
    if envs == [] || !IsRunning(s, id) then (s, Continues)
    else
      var e := AttemptEnd(cfg, s, id, envs[0]);
      var s' := Attempt(cfg, s, id, envs[0]);
      if e.Continues? then Iterate(cfg, s', id, envs[1..]) else (s', e)
  }

  /** What an iteration that ends as `e` has done to the count and the flag of its bracket. */
  ghost predicate CountEffect(s: State, s': State, id: nat, e: End, k: LedgerKey)
    requires id < |s.tasks| && id < |s'.tasks| && s.tasks[id].bracket < |s'.brackets|
  {
    && Count(s', k) == Count(s, k) - (if TakesCountBack(e) then 1 else 0)
    && (e.Continues? <==> !s'.tasks[id].finished)
    && (s'.brackets[s.tasks[id].bracket].counted <==> !TakesCountBack(e))
  }

  lemma ExhaustedCount(cfg: Config, s: State, id: nat, reply: PositionsReply, k: LedgerKey)
    requires IsRunning(s, id) && s.brackets[s.tasks[id].bracket].counted && Count(s, k) > 0
    requires cfg.ledgerKey(s.brackets[s.tasks[id].bracket].ticker) == Some(k)
    ensures var s' := Exhausted(cfg, s, id, reply);
      && |s'.tasks| == |s.tasks| && |s'.brackets| == |s.brackets|
      && s'.tasks[id].finished && !s'.brackets[s.tasks[id].bracket].counted && Count(s', k) == Count(s, k) - 1
  {
    hide ConfirmRemaining;
  }

  lemma AfterAttemptCount(cfg: Config, s: State, id: nat, outcome: Outcome, env: AttemptEnv, k: LedgerKey)
    requires IsRunning(s, id) && s.brackets[s.tasks[id].bracket].counted && Count(s, k) > 0
    requires cfg.ledgerKey(s.brackets[s.tasks[id].bracket].ticker) == Some(k)
    ensures var s' := AfterAttempt(cfg, s, id, s.tasks[id].bracket, outcome, env);
      && |s'.tasks| == |s.tasks| && |s'.brackets| == |s.brackets|
      && CountEffect(s, s', id, EndOf(cfg, s, id, outcome, env.exhausted), k)
  {
    hide Exhausted, ConfirmRemaining;
    ExhaustedCount(cfg, s, id, env.exhausted, k);
  }

  lemma AttemptCount(cfg: Config, s: State, id: nat, env: AttemptEnv, k: LedgerKey)
    requires Inv(cfg, s) && Paired(s) && IsRunning(s, id) && cfg.ledgerKey(s.tasks[id].ticker) == Some(k)
    requires Count(s, k) > 0
    ensures TaskFrame(s, Attempt(cfg, s, id, env))
    ensures CountEffect(s, Attempt(cfg, s, id, env), id, AttemptEnd(cfg, s, id, env), k)
  {
    hide Inv, Paired, PickCurrent, ExecuteStopLoss, AfterAttempt, EndOf, NextNoBid, Revalidate, LedgerFrame,
         TaskFrame, Rollback;
    AttemptFrame(cfg, s, id, env);
    OwnBracket(cfg, s, id, env.missing);
    var b := s.tasks[id].bracket;
    var (s1, current) := PickCurrent(cfg, s, id, env.missing);
    FrameFacts(s, s1, b);
    if current.Some? {
      var s2 := AfterReading(cfg, s1, id, env.reading);
      match Revalidate(cfg, s1.tasks[id].noBid, env.reading)
      case Recovered => RecoveredCount(cfg, Finish(s2, id), b, k);
      case Unfillable =>
      case Proceed => SubmittedCount(cfg, s2, id, env, k);
    }
  }

  /** The run works on its own bracket, and that bracket is counted. */
  lemma OwnBracket(cfg: Config, s: State, id: nat, reply: PositionsReply)
    requires Inv(cfg, s) && Paired(s) && IsRunning(s, id)
    ensures var b := s.tasks[id].bracket;
      && s.brackets[b].counted && s.brackets[b].ticker == s.tasks[id].ticker
      && (PickCurrent(cfg, s, id, reply).1.Some? ==> PickCurrent(cfg, s, id, reply).1.value == b)
  {
    hide PickCurrent;
    assert Running(s, id);
  }

  lemma SubmittedCount(cfg: Config, s: State, id: nat, env: AttemptEnv, k: LedgerKey)
    requires IsRunning(s, id) && s.brackets[s.tasks[id].bracket].counted && Count(s, k) > 0
    requires cfg.ledgerKey(s.brackets[s.tasks[id].bracket].ticker) == Some(k)
    ensures var b := s.tasks[id].bracket;
      var (s1, outcome) := ExecuteStopLoss(cfg, s, b, Some(cfg.PanicPrice()), true, env.exec, Some(id));
      && IsRunning(s1, id) && s1.tasks[id].bracket == b
      && var s' := AfterAttempt(cfg, s1, id, b, outcome, env);
      && |s'.tasks| == |s.tasks| && |s'.brackets| == |s.brackets|
      && CountEffect(s, s', id, EndOf(cfg, s1, id, outcome, env.exhausted), k)
  {
    hide ExecuteStopLoss, AfterAttempt, EndOf, LedgerFrame;
    var b := s.tasks[id].bracket;
    var (s1, outcome) := ExecuteStopLoss(cfg, s, b, Some(cfg.PanicPrice()), true, env.exec, Some(id));
    FrameFacts(s, s1, b);
    AfterAttemptCount(cfg, s1, id, outcome, env, k);
  }

  lemma RecoveredCount(cfg: Config, s: State, b: nat, k: LedgerKey)
    requires b < |s.brackets| && s.brackets[b].counted && cfg.ledgerKey(s.brackets[b].ticker) == Some(k)
      && Count(s, k) > 0
    ensures var s' := Rollback(cfg, s, b);
      && Count(s', k) == Count(s, k) - 1 && s'.tasks == s.tasks && |s'.brackets| == |s.brackets|
        && !s'.brackets[b].counted
  {}

  /** An iteration either ends its run or moves it to the next attempt. */
  lemma AttemptAdvances(cfg: Config, s: State, id: nat, env: AttemptEnv)
    requires IsRunning(s, id)
    ensures var s' := Attempt(cfg, s, id, env);
      && |s'.tasks| == |s.tasks| && s'.tasks[id].bracket < |s'.brackets|
      && (AttemptEnd(cfg, s, id, env).Continues? <==> !s'.tasks[id].finished)
      && (!s'.tasks[id].finished ==> s'.tasks[id].attempt == s.tasks[id].attempt + 1)
  {
    hide PickCurrent, ExecuteStopLoss, AfterAttempt, EndOf, NextNoBid, Revalidate, Rollback, LedgerFrame;
    AttemptFrame(cfg, s, id, env);
    var (s1, current) := PickCurrent(cfg, s, id, env.missing);
    FrameFacts(s, s1, 0);
    if current.Some? {
      var s2 := AfterReading(cfg, s1, id, env.reading);
      match Revalidate(cfg, s1.tasks[id].noBid, env.reading)
      case Recovered => RollbackFrame(cfg, Finish(s2, id), current.value);
      case Unfillable =>
      case Proceed =>
        var (s3, outcome) := ExecuteStopLoss(cfg, s2, current.value, Some(cfg.PanicPrice()), true, env.exec, Some(id));
        FrameFacts(s2, s3, 0);
        AfterAttemptAdvances(cfg, s3, id, current.value, outcome, env);
    }
  }

  lemma AfterAttemptAdvances(cfg: Config, s: State, id: nat, cur: nat, outcome: Outcome, env: AttemptEnv)
    requires IsRunning(s, id) && cur < |s.brackets|
    ensures var s' := AfterAttempt(cfg, s, id, cur, outcome, env);
      && |s'.tasks| == |s.tasks|
      && (EndOf(cfg, s, id, outcome, env.exhausted).Continues? <==> !s'.tasks[id].finished)
      && (!s'.tasks[id].finished ==> s'.tasks[id].attempt == s.tasks[id].attempt + 1)
  {
    hide Exhausted, ConfirmRemaining;
    ExhaustedFrame(cfg, s, id, env.exhausted);
  }

  /** A running iteration that goes on leaves the run, and the count, as they were. */
  lemma ContinuesAlike(cfg: Config, s: State, id: nat, env: AttemptEnv, k: LedgerKey)
    requires Inv(cfg, s) && Paired(s) && IsRunning(s, id) && cfg.ledgerKey(s.tasks[id].ticker) == Some(k)
    requires Count(s, k) > 0
    ensures var s' := Attempt(cfg, s, id, env); var e := AttemptEnd(cfg, s, id, env);
      Count(s', k) == Count(s, k) - (if TakesCountBack(e) then 1 else 0)
      && (e.Continues? ==>
            Inv(cfg, s') && Paired(s') && IsRunning(s', id) && s'.tasks[id].ticker == s.tasks[id].ticker
            && Count(s', k) == Count(s, k))
  {
    hide Attempt, AttemptEnd, Inv, Paired;
    AttemptCount(cfg, s, id, env, k);
    assert Apply(cfg, s, PanicAttempt(id, env)) == Attempt(cfg, s, id, env);
    StepKeepsInv(cfg, s, PanicAttempt(id, env));
    StepKeepsPaired(cfg, s, PanicAttempt(id, env));
  }

  /** With no other activity: a run that ends because the ask recovered, the
      market is gone or the attempts are exhausted leaves the count where it was before the trigger; a run that
      ends with the position sold (or gone, or unsellable) leaves it exactly one higher. */
  lemma {:induction false} RunCount(cfg: Config, s: State, id: nat, envs: seq<AttemptEnv>, k: LedgerKey)
    requires Inv(cfg, s) && Paired(s) && IsRunning(s, id) && cfg.ledgerKey(s.tasks[id].ticker) == Some(k)
    requires Count(s, k) > 0
    ensures var (s', e) := Iterate(cfg, s, id, envs);
      Count(s', k) == Count(s, k) - (if TakesCountBack(e) then 1 else 0)
    decreases |envs|
  {
    if envs != [] {
      hide Attempt, AttemptEnd, Inv, Paired, Count;
      ContinuesAlike(cfg, s, id, envs[0], k);
      if AttemptEnd(cfg, s, id, envs[0]).Continues? {
        RunCount(cfg, Attempt(cfg, s, id, envs[0]), id, envs[1..], k);
      }
    }
  }

  lemma TriggerToEnd(cfg: Config, s: State, t: Ticker, quote: Option<Quote>, exec: ExecEnv,
                     envs: seq<AttemptEnv>, k: LedgerKey)
    requires Inv(cfg, s) && Paired(s) && cfg.fastExit && cfg.ledgerKey(t) == Some(k)
    requires IsActive(s, t) && !s.brackets[s.active[t]].counted && !InFlight(s, t)
    requires !LatchedShut(cfg, s, s.active[t], quote)
    requires Count(s, k) < cfg.Factor()
    ensures
      var started := Apply(cfg, s, WatcherTrigger(t, s.brackets[s.active[t]].quantity, quote, exec));
      var (done, e) := Iterate(cfg, started, |s.tasks|, envs);
      Count(done, k) == Count(s, k) + (if TakesCountBack(e) then 0 else 1)
  {
    var b := s.active[t];
    var step := WatcherTrigger(t, s.brackets[b].quantity, quote, exec);
    var started := Apply(cfg, s, step);
    StepKeepsInv(cfg, s, step);
    StepKeepsPaired(cfg, s, step);
    StartedRun(cfg, s, t, quote, exec, k);
    RunCount(cfg, started, |s.tasks|, envs, k);
  }

  lemma StartedRun(cfg: Config, s: State, t: Ticker, quote: Option<Quote>, exec: ExecEnv, k: LedgerKey)
    requires Inv(cfg, s) && cfg.fastExit && cfg.ledgerKey(t) == Some(k)
    requires IsActive(s, t) && !s.brackets[s.active[t]].counted && !InFlight(s, t)
    requires !LatchedShut(cfg, s, s.active[t], quote)
    requires Count(s, k) < cfg.Factor()
    ensures
      var started := Apply(cfg, s, WatcherTrigger(t, s.brackets[s.active[t]].quantity, quote, exec));
      && IsRunning(started, |s.tasks|) && started.tasks[|s.tasks|].ticker == t
      && Count(started, k) == Count(s, k) + 1
  {}
}
