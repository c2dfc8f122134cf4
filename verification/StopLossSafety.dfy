/** What every run of the stop-loss machine keeps. */
module StopLossSafety {
  import opened Common
  import opened Ownership
  import opened StopLoss

  // ------------------------------------------------------------------
  // The invariant
  // ------------------------------------------------------------------

  ghost predicate Running(s: State, i: int) { 0 <= i < |s.tasks| && !s.tasks[i].finished }

  /** Every unfinished run is the one its market's dictionary entry names, so no market has two. */
  ghost predicate OneTaskPerTicker(s: State) {
    forall i :: Running(s, i) ==> s.tasks[i].ticker in s.exitTasks && s.exitTasks[s.tasks[i].ticker] == i
  }

  ghost predicate TasksCounted(s: State) {
    forall i :: Running(s, i) ==> s.tasks[i].bracket < |s.brackets| && s.brackets[s.tasks[i].bracket].counted
  }

  ghost predicate AttemptsInRange(cfg: Config, s: State) {
    forall i :: Running(s, i) ==> 1 <= s.tasks[i].attempt <= cfg.MaxRetries()
  }

  ghost predicate LedgerInRange(cfg: Config, s: State) {
    forall k :: k in s.ledger ==> 0 <= s.ledger[k] <= cfg.Factor()
  }

  ghost predicate Inv(cfg: Config, s: State) {
    && Linked(s) && OneTaskPerTicker(s) && TasksCounted(s) && AttemptsInRange(cfg, s) && LedgerInRange(cfg, s)
    && (!cfg.fastExit ==> s.tasks == [])
  }

  ghost predicate SubActive(s: State, s': State) {
    forall t :: t in s'.active ==> t in s.active && s'.active[t] == s.active[t]
  }

  /** What a frame says about one bracket and about the rest of the state. */
  lemma FrameFacts(s: State, s': State, b: nat)
    requires LedgerFrame(s, s')
    ensures s'.ledger == s.ledger && s'.tasks == s.tasks && s'.exitTasks == s.exitTasks && |s'.brackets| == |s.brackets|
    ensures b < |s.brackets| ==>
      s'.brackets[b].counted == s.brackets[b].counted && s'.brackets[b].ticker == s.brackets[b].ticker
  {}

  lemma QuietKeepsInv(cfg: Config, s: State, s': State)
    requires Inv(cfg, s) && LedgerFrame(s, s') && SubActive(s, s')
    ensures Inv(cfg, s')
  {
    forall i | Running(s', i)
      ensures s'.tasks[i].ticker in s'.exitTasks && s'.exitTasks[s'.tasks[i].ticker] == i
      ensures s'.tasks[i].bracket < |s'.brackets| && s'.brackets[s'.tasks[i].bracket].counted
      ensures 1 <= s'.tasks[i].attempt <= cfg.MaxRetries()
    {
      assert Running(s, i);
    }
  }

  lemma SetTaskKeepsInv(cfg: Config, s: State, id: nat, task: Task)
    requires Inv(cfg, s) && Running(s, id)
    requires task.ticker == s.tasks[id].ticker && task.bracket == s.tasks[id].bracket
    requires !task.finished ==> 1 <= task.attempt <= cfg.MaxRetries()
    ensures Inv(cfg, SetTask(s, id, task))
  {
    var s' := SetTask(s, id, task);
    forall i | Running(s', i)
      ensures s'.tasks[i].ticker in s'.exitTasks && s'.exitTasks[s'.tasks[i].ticker] == i
      ensures s'.tasks[i].bracket < |s'.brackets| && s'.brackets[s'.tasks[i].bracket].counted
      ensures 1 <= s'.tasks[i].attempt <= cfg.MaxRetries()
    {
      assert Running(s, i);
    }
  }

  /** Once a market's run has finished, no unfinished run works on any of that market's brackets. */
  lemma FinishedFreesTicker(cfg: Config, s: State, id: nat, b: nat)
    requires Inv(cfg, s) && Running(s, id) && b < |s.brackets| && s.brackets[b].ticker == s.tasks[id].ticker
    ensures forall i :: Running(Finish(s, id), i) ==> Finish(s, id).tasks[i].bracket != b
  {
    forall i | Running(Finish(s, id), i) ensures Finish(s, id).tasks[i].bracket != b {
      assert Running(s, i) && i != id;
    }
  }

  /** The runs are as they were, each still named by its market's entry and working on a counted bracket. */
  lemma SameRunsKeepInv(cfg: Config, s: State, s': State)
    requires Inv(cfg, s) && Linked(s') && LedgerInRange(cfg, s') && s'.tasks == s.tasks
    requires forall i :: Running(s, i) ==>
      && s.tasks[i].ticker in s'.exitTasks && s'.exitTasks[s.tasks[i].ticker] == i
      && s.tasks[i].bracket < |s'.brackets| && s'.brackets[s.tasks[i].bracket].counted
    ensures Inv(cfg, s')
  {
    forall i | Running(s', i) ensures Running(s, i) {}
  }

  lemma ClearKeepsInv(cfg: Config, s: State, b: nat)
    requires Inv(cfg, s) && b < |s.brackets|
    requires forall i :: Running(s, i) ==> s.tasks[i].bracket != b
    ensures Inv(cfg, DecrementAndClear(cfg, s, b))
  {
    var s1 := Decrement(cfg, s, s.brackets[b].ticker);
    DecrementKeepsRange(cfg, s, s.brackets[b].ticker);
    hide Decrement, LedgerInRange;
    SameRunsKeepInv(cfg, s, SetCounted(s1, b, false));
  }

  lemma DecrementKeepsRange(cfg: Config, s: State, t: Ticker)
    requires LedgerInRange(cfg, s)
    ensures var s1 := Decrement(cfg, s, t);
      && s1 == s.(ledger := s1.ledger) && forall flags :: LedgerInRange(cfg, s1.(brackets := flags))
  {}

  lemma IncrementKeepsInv(cfg: Config, s: State, t: Ticker)
    requires Inv(cfg, s)
    ensures Inv(cfg, Increment(cfg, s, t))
  {
    var s' := Increment(cfg, s, t);
    assert OneTaskPerTicker(s') by {
      forall i | Running(s', i) ensures s'.tasks[i].ticker in s'.exitTasks && s'.exitTasks[s'.tasks[i].ticker] == i {
        assert Running(s, i);
      }
    }
    assert TasksCounted(s') && AttemptsInRange(cfg, s') by {
      forall i | Running(s', i) ensures Running(s, i) {}
    }
  }

  lemma RaiseFlagKeepsInv(cfg: Config, s: State, b: nat)
    requires Inv(cfg, s) && b < |s.brackets|
    ensures Inv(cfg, SetCounted(s, b, true))
  {
    var s' := SetCounted(s, b, true);
    forall i | Running(s', i)
      ensures s'.tasks[i].ticker in s'.exitTasks && s'.exitTasks[s'.tasks[i].ticker] == i
      ensures s'.tasks[i].bracket < |s'.brackets| && s'.brackets[s'.tasks[i].bracket].counted
      ensures 1 <= s'.tasks[i].attempt <= cfg.MaxRetries()
    {
      assert Running(s, i);
    }
  }

  lemma MarkKeepsInv(cfg: Config, s: State, b: nat)
    requires Inv(cfg, s) && b < |s.brackets|
    ensures Inv(cfg, MarkCounted(cfg, s, b))
    ensures MarkCounted(cfg, s, b).brackets[b].counted
  {
    if !s.brackets[b].counted {
      IncrementKeepsInv(cfg, s, s.brackets[b].ticker);
      RaiseFlagKeepsInv(cfg, Increment(cfg, s, s.brackets[b].ticker), b);
    }
  }

  lemma StartRunKeepsInv(cfg: Config, s: State, t: Ticker, b: nat)
    requires Inv(cfg, s) && b < |s.brackets| && s.brackets[b].counted && s.brackets[b].ticker == t
    requires cfg.fastExit && !InFlight(s, t)
    ensures Inv(cfg, StartRun(s, t, b))
  {
    var s' := StartRun(s, t, b);
    assert s'.tasks[..|s.tasks|] == s.tasks;
    assert OneTaskPerTicker(s') by {
      forall i | Running(s', i) ensures s'.tasks[i].ticker in s'.exitTasks && s'.exitTasks[s'.tasks[i].ticker] == i {
        if i < |s.tasks| { assert Running(s, i); }
      }
    }
    assert TasksCounted(s') && AttemptsInRange(cfg, s') by {
      forall i | Running(s', i) && i < |s.tasks| ensures Running(s, i) {}
    }
  }

  lemma DispatchKeepsInv(cfg: Config, s: State, b: nat, quote: Option<Quote>)
    requires Inv(cfg, s) && b < |s.brackets| && s.brackets[b].counted && cfg.fastExit
    ensures Inv(cfg, Dispatch(cfg, s, b, quote))
  {
    hide Inv, StartRun, Revived;
    if !LatchedShut(cfg, s, b, quote) {
      var s1 := ClearLatch(s, b);
      QuietKeepsInv(cfg, s, s1);
      if !InFlight(s1, s.brackets[b].ticker) {
        StartRunKeepsInv(cfg, s1, s.brackets[b].ticker, b);
      }
    }
  }

  // ------------------------------------------------------------------
  // Preservation by every step
  // ------------------------------------------------------------------

  lemma RollbackKeepsInv(cfg: Config, s: State, b: nat)
    requires Inv(cfg, s) && b < |s.brackets|
    requires forall i :: Running(s, i) ==> s.tasks[i].bracket != b
    ensures Inv(cfg, Rollback(cfg, s, b))
  {
    if s.brackets[b].counted {
      ClearKeepsInv(cfg, s, b);
    }
  }

  lemma ExhaustedKeepsInv(cfg: Config, s: State, id: nat, reply: PositionsReply)
    requires Inv(cfg, s) && Running(s, id)
    ensures Inv(cfg, Exhausted(cfg, s, id, reply))
  {
    var b := s.tasks[id].bracket;
    assert b < |s.brackets| && s.brackets[b].ticker == s.tasks[id].ticker;
    hide ConfirmRemaining, DecrementAndClear, Rollback, LedgerFrame, Inv, Heard;
    var rest := ConfirmRemaining(cfg, s, b, 0, reply);
    var heard := Heard(s, s.brackets[b].ticker, reply);
    FrameFacts(s, heard, b);
    QuietKeepsInv(cfg, s, heard);
    var s0 := Reconcile(heard, b, rest);
    QuietKeepsInv(cfg, heard, s0);
    FrameFacts(heard, s0, b);
    assert Running(s0, id);
    SetTaskKeepsInv(cfg, s0, id, s0.tasks[id].(finished := true));
    FinishedFreesTicker(cfg, s0, id, b);
    var s1 := Finish(s0, id);
    if rest.managed <= 0 {
      ClearKeepsInv(cfg, s1, b);
      var s2 := DecrementAndClear(cfg, s1, b);
      QuietKeepsInv(cfg, s2, RemovePosition(s2, s.tasks[id].ticker));
    } else {
      RollbackKeepsInv(cfg, s1, b);
    }
  }

  lemma AttemptOf(cfg: Config, s: State, id: nat)
    requires Inv(cfg, s) && Running(s, id)
    ensures 1 <= s.tasks[id].attempt <= cfg.MaxRetries()
  {}

  lemma AfterAttemptKeepsInv(cfg: Config, s: State, id: nat, cur: nat, outcome: Outcome, env: AttemptEnv)
    requires Inv(cfg, s) && Running(s, id)
    requires cur < |s.brackets| && s.brackets[cur].ticker == s.tasks[id].ticker
    ensures Inv(cfg, AfterAttempt(cfg, s, id, cur, outcome, env))
  {
    hide Exhausted, Inv, DecrementAndClear;
    var task := s.tasks[id];
    assert 1 <= task.attempt by { hide Linked; AttemptOf(cfg, s, id); }
    SetTaskKeepsInv(cfg, s, id, task.(finished := true));
    if outcome.Gone? {
      FinishedFreesTicker(cfg, s, id, cur);
      ClearKeepsInv(cfg, Finish(s, id), cur);
    } else if outcome.NotGone? && task.ticker !in s.active {
    } else if task.attempt < cfg.MaxRetries() {
      SetTaskKeepsInv(cfg, s, id, task.(attempt := task.attempt + 1));
    } else {
      ExhaustedKeepsInv(cfg, s, id, env.exhausted);
    }
  }

  lemma AttemptKeepsInv(cfg: Config, s: State, id: nat, env: AttemptEnv)
    requires Inv(cfg, s) && IsRunning(s, id)
    ensures Inv(cfg, Attempt(cfg, s, id, env))
  {
    assert Running(s, id);
    var (s1, current) := PickCurrent(cfg, s, id, env.missing);
    QuietKeepsInv(cfg, s, s1);
    assert Running(s1, id);
    if current.None? {
      SetTaskKeepsInv(cfg, s1, id, s1.tasks[id].(finished := true));
    } else {
      var cur := current.value;
      var s2 := AfterReading(cfg, s1, id, env.reading);
      ReadingKeepsInv(cfg, s1, id, env.reading);
      assert Running(s2, id);
      SetTaskKeepsInv(cfg, s2, id, s2.tasks[id].(finished := true));
      match Revalidate(cfg, s1.tasks[id].noBid, env.reading) {
        case Recovered =>
          FinishedFreesTicker(cfg, s2, id, cur);
          RollbackKeepsInv(cfg, Finish(s2, id), cur);
        case Unfillable =>
          QuietKeepsInv(cfg, Finish(s2, id), LatchUnfillable(Finish(s2, id), s.tasks[id].bracket));
        case Proceed =>
          var (s3, outcome) := ExecuteStopLoss(cfg, s2, cur, Some(cfg.PanicPrice()), true, env.exec, Some(id));
          QuietKeepsInv(cfg, s2, s3);
          assert Running(s3, id);
          AfterAttemptKeepsInv(cfg, s3, id, cur, outcome, env);
      }
    }
  }

  lemma ReadingKeepsInv(cfg: Config, s: State, id: nat, r: Reading)
    requires Inv(cfg, s) && Running(s, id)
    ensures Inv(cfg, AfterReading(cfg, s, id, r))
  {
    var task := s.tasks[id];
    var s' := SetTask(s, id, task.(noBid := NextNoBid(cfg, task.noBid, r)));
    SetTaskKeepsInv(cfg, s, id, task.(noBid := NextNoBid(cfg, task.noBid, r)));
    QuietKeepsInv(cfg, s', AfterReading(cfg, s, id, r));
  }

  lemma ExitNowKeepsInv(cfg: Config, s: State, b: nat, quote: Option<Quote>, exec: ExecEnv)
    requires Inv(cfg, s) && b < |s.brackets| && s.brackets[b].counted
    ensures Inv(cfg, ExitNow(cfg, s, b, quote, exec))
  {
    if cfg.fastExit {
      DispatchKeepsInv(cfg, s, b, quote);
    } else {
      var (s1, outcome) := ExecuteStopLoss(cfg, s, b, None, false, exec, None);
      QuietKeepsInv(cfg, s, s1);
      if outcome.Gone? {
        ClearKeepsInv(cfg, s1, b);
      }
    }
  }

  lemma RecoveryKeepsInv(cfg: Config, s: State, b: nat)
    requires Inv(cfg, s) && b < |s.brackets|
    ensures Inv(cfg, Recovery(cfg, s, b))
  {
    if !InFlight(s, s.brackets[b].ticker) {
      RollbackKeepsInv(cfg, s, b);
    }
  }

  lemma JoinKeepsInv(cfg: Config, s: State, t: Ticker, qty: int, app: int)
    requires Inv(cfg, s)
    ensures Inv(cfg, JoinPosition(s, t, qty, app))
  {
    var s' := JoinPosition(s, t, qty, app);
    if IsActive(s, t) {
      QuietKeepsInv(cfg, s, s');
    } else {
      forall i | Running(s', i)
        ensures s'.tasks[i].ticker in s'.exitTasks && s'.exitTasks[s'.tasks[i].ticker] == i
        ensures s'.tasks[i].bracket < |s'.brackets| && s'.brackets[s'.tasks[i].bracket].counted
        ensures 1 <= s'.tasks[i].attempt <= cfg.MaxRetries()
      {
        assert Running(s, i);
      }
    }
  }

  lemma CleanupKeepsInv(cfg: Config, s: State, id: nat)
    requires Inv(cfg, s)
    ensures Inv(cfg, Cleanup(s, id))
  {
    hide AttemptsInRange;
    if Cleanup(s, id) != s { SameRunsKeepInv(cfg, s, Cleanup(s, id)); }
  }

  lemma WatcherKeepsInv(cfg: Config, s: State, b: nat, quantity: int, quote: Option<Quote>, exec: ExecEnv)
    requires Inv(cfg, s) && b < |s.brackets|
    ensures Inv(cfg, Watcher(cfg, s, b, quantity, quote, exec))
  {
    if !LatchedShut(cfg, s, b, quote) {
      var s1 := AdoptQuantity(ClearLatch(s, b), b, quantity);
      QuietKeepsInv(cfg, s, s1);
      MarkKeepsInv(cfg, s1, b);
      ExitNowKeepsInv(cfg, MarkCounted(cfg, s1, b), b, quote, exec);
    }
  }

  lemma PhaseCKeepsInv(cfg: Config, s: State, b: nat, quote: Option<Quote>, exec: ExecEnv)
    requires Inv(cfg, s) && b < |s.brackets|
    ensures Inv(cfg, PhaseC(cfg, s, b, quote, exec))
  {
    if s.brackets[b].quantity <= 0 {
      QuietKeepsInv(cfg, s, PhaseC(cfg, s, b, quote, exec));
    } else if ExitQuantity(cfg, s, b).managed > 0 {
      MarkKeepsInv(cfg, s, b);
      ExitNowKeepsInv(cfg, MarkCounted(cfg, s, b), b, quote, exec);
    }
  }

  lemma EnterKeepsInv(cfg: Config, s: State, t: Ticker, qty: int, app: int, saved: bool)
    requires Inv(cfg, s)
    ensures Inv(cfg, EnterPosition(s, t, qty, app, saved))
  {
    hide Inv, JoinPosition;
    var s1 := ForgetAction(s, t, saved);
    QuietKeepsInv(cfg, s, s1);
    JoinKeepsInv(cfg, s1, t, qty, app);
  }

  lemma AdoptKeepsInv(cfg: Config, s: State, t: Ticker, qty: int, fills: FillLookup)
    requires Inv(cfg, s)
    ensures Inv(cfg, AdoptPosition(cfg, s, t, qty, fills))
  {
    hide Inv, JoinPosition;
    JoinKeepsInv(cfg, s, t, qty, qty);
    var app := AppOwned(t, qty, 0, false, fills);
    QuietKeepsInv(cfg, s, SetOwnership(s, t, qty, app));
    JoinKeepsInv(cfg, s, t, qty, app);
  }

  /** Steps that only sell, sync or close: they touch neither count, flag nor run, and make nothing active. */
  predicate IsQuiet(step: Step) {
    step.Close? || step.BlindFlatten? || step.ScheduledExit? || step.CloseOut? || step.PositionSync?
  }

  lemma QuietStep(cfg: Config, s: State, step: Step)
    requires IsQuiet(step)
    ensures LedgerFrame(s, Apply(cfg, s, step)) && SubActive(s, Apply(cfg, s, step))
  {
    hide ExecuteStopLoss, IntradayExit, SyncPosition, ExitQuantity, LedgerFrame;
    SameFrame(s, s);
    if step.Close? { SameFrame(s, RemovePosition(s, step.ticker)); }
    if step.PositionSync? && IsActive(s, step.ticker) {
      SyncFrame(cfg, s, s.active[step.ticker], step.count, step.fills);
    }
  }

  lemma SameFrame(s: State, s': State)
    requires s'.ledger == s.ledger && s'.tasks == s.tasks && s'.exitTasks == s.exitTasks && s'.brackets == s.brackets
    ensures LedgerFrame(s, s')
  {}

  lemma SyncFrame(cfg: Config, s: State, b: nat, count: Option<int>, fills: FillLookup)
    requires b < |s.brackets|
    ensures var s' := SyncPosition(cfg, s, b, count, fills);
      && LedgerFrame(s, s') && SubActive(s, s') && s'.log == s.log && s'.actions == s.actions
      && forall i :: 0 <= i < |s.brackets| ==> s'.brackets[i].unfillable == s.brackets[i].unfillable
  {
    hide AppOwned;
  }

  lemma StepKeepsInv(cfg: Config, s: State, step: Step)
    requires Inv(cfg, s)
    ensures Inv(cfg, Apply(cfg, s, step))
  {
    hide Inv, EnterPosition, AdoptPosition, Watcher, PhaseC, Recovery, Attempt, Cleanup, ExecuteStopLoss, IntradayExit,
         SyncPosition, ExitQuantity;
    if IsQuiet(step) {
      QuietStep(cfg, s, step);
      QuietKeepsInv(cfg, s, Apply(cfg, s, step));
      return;
    }
    match step
    case Enter(t, qty, app, saved) => EnterKeepsInv(cfg, s, t, qty, app, saved);
    case Adopt(t, qty, fills) => AdoptKeepsInv(cfg, s, t, qty, fills);
    case WatcherTrigger(t, quantity, quote, exec) =>
      if IsActive(s, t) { WatcherKeepsInv(cfg, s, s.active[t], quantity, quote, exec); }
    case PhaseCTrigger(t, quote, exec) =>
      if IsActive(s, t) { PhaseCKeepsInv(cfg, s, s.active[t], quote, exec); }
    case PhaseCRecovered(t) =>
      if IsActive(s, t) { RecoveryKeepsInv(cfg, s, s.active[t]); }
    case PanicAttempt(id, env) => if IsRunning(s, id) { AttemptKeepsInv(cfg, s, id, env); }
    case TaskCleanup(id) => CleanupKeepsInv(cfg, s, id);
    case _ =>
  }

  /** In every state of every run: at most one unfinished exit run per market, at most `MaxRetries` attempts each,
      and every ledger count between 0 and the factor. */
  lemma {:induction false} RunKeepsInv(cfg: Config, s: State, steps: seq<Step>)
    requires Inv(cfg, s)
    ensures Inv(cfg, Run(cfg, s, steps))
    decreases |steps|
  {
    if steps != [] {
      StepKeepsInv(cfg, s, steps[0]);
      RunKeepsInv(cfg, Apply(cfg, s, steps[0]), steps[1..]);
    }
  }
}
