/** The stop-loss part of the strategy object: its dictionaries and the methods that update them, each proved to take
    exactly the step the transition system describes. */
module TemperatureStrategyModel {
  import opened Common
  import opened Ownership
  import opened StopLoss
  import opened StopLossSafety
  import opened StopLossLedger
  import opened StopLossLog

  class TemperatureStrategy {
    const cfg: Config
    var brackets: seq<Bracket>
    var active: map<Ticker, nat>
    var appOwned: map<Ticker, int>
    var actions: map<Ticker, ActionStatus>
    var ledger: map<LedgerKey, int>
    var exitTasks: map<Ticker, nat>
    var tasks: seq<Task>
    var log: seq<Line>
    ghost var notices: seq<Notice>

    constructor (cfg: Config)
      ensures this.cfg == cfg
      ensures Abs() == EMPTY && Inv(cfg, Abs()) && LogInv(cfg, Abs()) && Paired(Abs())
    {
      this.cfg := cfg;
      brackets, active, appOwned, actions := [], map[], map[], map[];
      ledger, exitTasks, tasks, log, notices := map[], map[], [], [], [];
      new;
      EmptyStart(cfg);
    }

    ghost function Abs(): State
      reads this
    {
      State(brackets, active, appOwned, actions, ledger, exitTasks, tasks, log, notices)
    }

    method IncrementStopLossCount(t: Ticker)
      modifies this`ledger
      ensures Abs() == Increment(cfg, old(Abs()), t)
    {
      match cfg.ledgerKey(t)
      case None =>
      case Some(k) =>
        var maxCount := Max(cfg.hedgeMaxFactor, 1);
        if k !in ledger {
          ledger := ledger[k := Min(1, maxCount)];
        } else {
          var newCount := ledger[k] + 1;
          if newCount > maxCount {
            newCount := maxCount;
          }
          ledger := ledger[k := newCount];
        }
    }

    method DecrementStopLossCount(t: Ticker)
      modifies this`ledger
      ensures Abs() == Decrement(cfg, old(Abs()), t)
    {
      match cfg.ledgerKey(t)
      case None =>
      case Some(k) =>
        if k in ledger && ledger[k] > 0 {
          ledger := ledger[k := ledger[k] - 1];
        }
    }

    method RollbackIfCounted(b: nat)
      requires b < |brackets|
      modifies this`ledger, this`brackets
      ensures Abs() == Rollback(cfg, old(Abs()), b)
    {
      if brackets[b].counted {
        DecrementStopLossCount(brackets[b].ticker);
        brackets := brackets[b := brackets[b].(counted := false)];
      }
    }

    method CountOnce(b: nat)
      requires b < |brackets|
      modifies this`ledger, this`brackets
      ensures Abs() == MarkCounted(cfg, old(Abs()), b)
    {
      if !brackets[b].counted {
        IncrementStopLossCount(brackets[b].ticker);
        brackets := brackets[b := brackets[b].(counted := true)];
      }
    }

    method SetOwnershipOf(t: Ticker, totalQty: int, appQty: int) returns (app: int, external: int)
      modifies this`appOwned
      ensures Abs() == SetOwnership(old(Abs()), t, totalQty, appQty)
      ensures app + external == Max(totalQty, 0) && 0 <= app && 0 <= external && appOwned[t] == app
    {
      var total := Max(totalQty, 0);
      app := Max(Min(appQty, total), 0);
      external := Max(total - app, 0);
      appOwned := appOwned[t := app];
    }

    method ConfirmedRemaining(b: nat, filled: int, reply: PositionsReply) returns (r: Remaining)
      requires b < |brackets|
      ensures r == ConfirmRemaining(cfg, Abs(), b, filled, reply)
    {
      var t := brackets[b].ticker;
      var prior := Max(brackets[b].quantity, 0);
      var priorApp := if t in appOwned then appOwned[t] else prior;
      if reply.PositionsFailed? {
        var e := ManagedExit(if t in appOwned then Some(appOwned[t]) else None, prior, cfg.manageExternal);
        return Remaining(false, prior, e.managed, e.app);
      }
      var total := 0;
      if reply.count.Some? {
        total := Max(reply.count.value, 0);
      }
      var liveApp := total;
      if !cfg.manageExternal {
        var fallback := Max(priorApp - Max(filled, 0), 0);
        fallback := Min(fallback, total);
        liveApp := AppOwnedQtyFromFills(t, total, fallback, false, reply.fills);
      }
      r := Remaining(true, total, if cfg.manageExternal then total else liveApp, liveApp);
    }

    method ReconcilePosition(b: nat, r: Remaining)
      requires b < |brackets|
      modifies this`brackets, this`appOwned
      ensures Abs() == Reconcile(old(Abs()), b, r)
    {
      brackets := brackets[b := brackets[b].(quantity := r.total)];
      var _, _ := SetOwnershipOf(brackets[b].ticker, r.total, r.app);
    }

    method Forget(t: Ticker)
      modifies this`active, this`appOwned
      ensures Abs() == RemovePosition(old(Abs()), t)
    {
      active := active - {t};
      appOwned := appOwned - {t};
    }

    /** One stop-loss sell behind the idempotency record. */
    method Execute(b: nat, override: Option<int>, bypassCooldown: bool, env: ExecEnv, origin: Option<nat>)
      returns (outcome: Outcome)
      requires b < |brackets|
      modifies this
      ensures (Abs(), outcome) == ExecuteStopLoss(cfg, old(Abs()), b, override, bypassCooldown, env, origin)
    {
      hide SubmitSell;
      if !bypassCooldown && env.cooling {
        return NotGone;
      }
      var t := brackets[b].ticker;
      if t in actions && actions[t].Succeeded? {
        Forget(t);
        return Gone;
      }
      if t in actions && actions[t].Submitted? {
        return NotGone;
      }
      actions := actions[t := Submitted];
      outcome := Submit(b, override, env, origin);
    }

    method Submit(b: nat, override: Option<int>, env: ExecEnv, origin: Option<nat>) returns (outcome: Outcome)
      requires b < |brackets|
      modifies this
      ensures (Abs(), outcome) == SubmitSell(cfg, old(Abs()), b, override, env, origin)
    {
      hide AfterSell;
      var t := brackets[b].ticker;
      var price := if override.Some? then override.value else 1;
      if price > cfg.stopPrice {
        price := cfg.stopPrice;
      }
      var recorded := if t in appOwned then Some(appOwned[t]) else None;
      var exit := ManagedExit(recorded, brackets[b].quantity, cfg.manageExternal);
      if exit.managed <= 0 {
        actions := actions[t := Pending];
        return NotGone;
      }
      log := log + [Sell(origin, t, price, exit.managed)];
      outcome := SettleSell(b, env);
    }

    method SettleSell(b: nat, env: ExecEnv) returns (outcome: Outcome)
      requires b < |brackets|
      modifies this
      ensures (Abs(), outcome) == AfterSell(cfg, old(Abs()), b, env)
    {
      var t := brackets[b].ticker;
      match env.sell
      case SellRaised(resetOk) =>
        if resetOk {
          actions := actions[t := Failed];
        }
        outcome := Raised;
      case MarketNotFound =>
        actions := actions[t := Succeeded];
        Forget(t);
        outcome := Gone;
      case SellDone(filled) =>
        var rest := ConfirmedRemaining(b, filled, env.after);
        notices := Heard(Abs(), t, env.after).notices;
        if rest.confirmed && rest.managed == 0 {
          actions := actions[t := Succeeded];
          Forget(t);
        } else {
          actions := actions[t := Pending];
          ReconcilePosition(b, rest);
        }
        outcome := NotGone;
    }

    /** A scheduled exit: a limit at the bid, and the stop-loss sell when it does not fill. */
    method IntradayExecuteExit(b: nat, bid: Option<int>, confirmed: Option<int>, reply: LimitReply, exec: ExecEnv)
      requires b < |brackets|
      modifies this
      ensures Abs() == IntradayExit(cfg, old(Abs()), b, bid, confirmed, reply, exec)
    {
      hide ExecuteStopLoss, LimitPrice, ManagedExit, LedgerFrame;
      var t := brackets[b].ticker;
      var recorded := if t in appOwned then Some(appOwned[t]) else None;
      var exit := ManagedExit(recorded, brackets[b].quantity, cfg.manageExternal);
      if exit.managed <= 0 {
        return;
      }
      var price := BidPrice(bid, confirmed);
      if price.Some? && !reply.NotSupported? {
        log := log + [Limit(t, price.value, exit.managed)];
        if reply.LimitFilled? {
          RecordFill(t, reply);
          return;
        }
      }
      var _ := Execute(b, None, true, exec, None);
    }

    /** A filled limit counts as a success even when recording it fails. */
    method RecordFill(t: Ticker, reply: LimitReply)
      requires reply.LimitFilled?
      modifies this`active, this`appOwned
      ensures Abs() == if reply.recorded then RemovePosition(old(Abs()), t) else old(Abs())
    {
      hide LedgerFrame;
      if reply.recorded {
        Forget(t);
      }
    }

    /** One pass of the scheduled-exit loop that exits market `t`. */
    method RunScheduledExit(t: Ticker, bid: Option<int>, confirmed: Option<int>, reply: LimitReply, exec: ExecEnv)
      modifies this
      ensures Abs() == Apply(cfg, old(Abs()), ScheduledExit(t, bid, confirmed, reply, exec))
    {
      ScheduledStep(Abs(), t, bid, confirmed, reply, exec);
      hide Apply, IntradayExit, LedgerFrame;
      if t in active && active[t] < |brackets| {
        IntradayExecuteExit(active[t], bid, confirmed, reply, exec);
      }
    }

    lemma ScheduledStep(s: State, t: Ticker, bid: Option<int>, confirmed: Option<int>, reply: LimitReply, exec: ExecEnv)
      ensures Apply(cfg, s, ScheduledExit(t, bid, confirmed, reply, exec)) ==
        if IsActive(s, t) then IntradayExit(cfg, s, s.active[t], bid, confirmed, reply, exec) else s
    {
      hide IntradayExit, LedgerFrame;
    }

    /** The afternoon close-out of one market. */
    method CloseOutTicker(t: Ticker, exec: ExecEnv)
      modifies this
      ensures Abs() == Apply(cfg, old(Abs()), CloseOut(t, exec))
    {
      hide ExecuteStopLoss, LedgerFrame;
      if t in active && active[t] < |brackets| {
        var _ := Execute(active[t], None, true, exec, None);
      }
    }

    /** The periodic reconciliation of one listed position. */
    method SyncListedPosition(t: Ticker, count: Option<int>, fills: FillLookup)
      modifies this
      ensures Abs() == Apply(cfg, old(Abs()), PositionSync(t, count, fills))
    {
      SyncStep(Abs(), t, count, fills);
      hide Apply, SyncPosition;
      if t in active && active[t] < |brackets| {
        SyncBracket(active[t], count, fills);
      }
    }

    lemma SyncStep(s: State, t: Ticker, count: Option<int>, fills: FillLookup)
      ensures Apply(cfg, s, PositionSync(t, count, fills)) ==
        if IsActive(s, t) then SyncPosition(cfg, s, s.active[t], count, fills) else s
    {
      hide SyncPosition;
    }

    method SyncBracket(b: nat, count: Option<int>, fills: FillLookup)
      requires b < |brackets|
      modifies this`brackets, this`active, this`appOwned, this`notices
      ensures Abs() == SyncPosition(cfg, old(Abs()), b, count, fills)
    {
      hide AppOwned, LedgerFrame;
      var name := brackets[b].ticker;
      if count == Some(0) {
        Forget(name);
        return;
      }
      var quantity := if count.Some? then count.value else Max(brackets[b].quantity, 0);
      notices := WasTold(Abs(), name).notices;
      brackets := brackets[b := brackets[b].(quantity := quantity)];
      var known := if name in appOwned then appOwned[name] else quantity;
      known := AppOwnedQtyFromFills(name, quantity, known, cfg.manageExternal, fills);
      var _, _ := SetOwnershipOf(name, quantity, known);
    }

    /** A position the exchange lists and memory does not hold. */
    method AdoptUntracked(t: Ticker, qty: int, fills: FillLookup)
      modifies this
      ensures Abs() == Apply(cfg, old(Abs()), Adopt(t, qty, fills))
    {
      hide AppOwned;
      if qty <= 0 || (t in active && active[t] < |brackets|) {
        return;
      }
      var app := qty;
      if !cfg.manageExternal {
        app := AppOwnedQtyFromFills(t, qty, 0, false, fills);
        if app <= 0 {
          var _, _ := SetOwnershipOf(t, qty, app);
          return;
        }
      }
      hide JoinPosition;
      Join(t, qty, app);
    }

    /** Contracts join the active bracket, or a new bracket object becomes active. */
    method Join(t: Ticker, qty: int, app: int)
      modifies this`brackets, this`active, this`appOwned, this`notices
      ensures Abs() == JoinPosition(old(Abs()), t, qty, app)
    {
      notices := WasTold(Abs(), t).notices;
      if t in active && active[t] < |brackets| {
        var total := brackets[active[t]].quantity + qty;
        brackets := brackets[active[t] := brackets[active[t]].(quantity := total)];
        var _, _ := SetOwnershipOf(t, total, app);
      } else {
        active := active[t := |brackets|];
        brackets := brackets + [Bracket(t, qty, false, false)];
        var _, _ := SetOwnershipOf(t, qty, app);
      }
    }

    /** A position whose price cannot be seen for too long is flattened at a given price. */
    method FlattenBlind(t: Ticker, override: int, exec: ExecEnv)
      modifies this
      ensures Abs() == Apply(cfg, old(Abs()), BlindFlatten(t, override, exec))
    {
      hide ExecuteStopLoss, LedgerFrame;
      if t in active && active[t] < |brackets| {
        var b := active[t];
        var name := brackets[b].ticker;
        var recorded := if name in appOwned then Some(appOwned[name]) else None;
        var exit := ManagedExit(recorded, brackets[b].quantity, cfg.manageExternal);
        if exit.app > 0 {
          var _ := Execute(b, Some(override), true, exec, None);
        }
      }
    }

    method BidPrice(bid: Option<int>, confirmed: Option<int>) returns (price: Option<int>)
      ensures price == LimitPrice(bid, confirmed)
    {
      price := if bid.Some? && bid.value > 0 then bid else None;
      if confirmed.Some? && price.Some? && confirmed.value < price.value {
        price := confirmed;
      }
    }

    method DispatchStopLossExit(b: nat, quote: Option<Quote>)
      requires b < |brackets|
      modifies this
      ensures Abs() == Dispatch(cfg, old(Abs()), b, quote)
    {
      if brackets[b].unfillable {
        if !Revived(cfg, quote) {
          return;
        }
      }
      brackets := brackets[b := brackets[b].(unfillable := false)];
      var t := brackets[b].ticker;
      if t in exitTasks && exitTasks[t] < |tasks| && !tasks[exitTasks[t]].finished {
        return;
      }
      exitTasks := exitTasks[t := |tasks|];
      tasks := tasks + [Task(t, b, 1, 0, false)];
    }

    method Exit(b: nat, quote: Option<Quote>, exec: ExecEnv)
      requires b < |brackets|
      modifies this
      ensures Abs() == ExitNow(cfg, old(Abs()), b, quote, exec)
    {
      hide ExecuteStopLoss, Dispatch;
      if cfg.fastExit {
        DispatchStopLossExit(b, quote);
      } else {
        var outcome := Execute(b, None, false, exec, None);
        if outcome.Gone? {
          DecrementStopLossCount(brackets[b].ticker);
          brackets := brackets[b := brackets[b].(counted := false)];
        }
      }
    }

    /** A trigger from the websocket watcher. */
    method ExecuteStopLossFromWatcher(t: Ticker, quantity: int, quote: Option<Quote>, exec: ExecEnv)
      modifies this
      ensures Abs() == Apply(cfg, old(Abs()), WatcherTrigger(t, quantity, quote, exec))
    {
      hide ExitNow, MarkCounted;
      if !(t in active && active[t] < |brackets|) {
        return;
      }
      var b := active[t];
      if brackets[b].unfillable {
        if !Revived(cfg, quote) {
          return;
        }
      }
      brackets := brackets[b := brackets[b].(unfillable := false)];
      var name := brackets[b].ticker;
      notices := WasTold(Abs(), name).notices;
      brackets := brackets[b := brackets[b].(quantity := quantity)];
      var known := if name in appOwned then appOwned[name] else quantity;
      var _, _ := SetOwnershipOf(name, quantity, known);
      CountOnce(b);
      MarkFrame(b);
      Exit(b, quote, exec);
    }

    lemma MarkFrame(b: nat)
      ensures forall s: State :: b < |s.brackets| ==> |MarkCounted(cfg, s, b).brackets| == |s.brackets|
    {}

    /** The periodic evaluation found the ask at or below the stop. */
    method EvaluateTriggered(t: Ticker, quote: Option<Quote>, exec: ExecEnv)
      modifies this
      ensures Abs() == Apply(cfg, old(Abs()), PhaseCTrigger(t, quote, exec))
    {
      hide ExitNow, MarkCounted;
      if !(t in active && active[t] < |brackets|) {
        return;
      }
      var b := active[t];
      var name := brackets[b].ticker;
      if brackets[b].quantity <= 0 {
        active := active - {name};
        return;
      }
      var recorded := if name in appOwned then Some(appOwned[name]) else None;
      var exit := ManagedExit(recorded, brackets[b].quantity, cfg.manageExternal);
      if exit.managed <= 0 {
        return;
      }
      CountOnce(b);
      MarkFrame(b);
      Exit(b, quote, exec);
    }

    /** The periodic evaluation found the price back above the stop. */
    method EvaluateRecovered(t: Ticker)
      modifies this
      ensures Abs() == Apply(cfg, old(Abs()), PhaseCRecovered(t))
    {
      if t in active && active[t] < |brackets| {
        var b := active[t];
        var name := brackets[b].ticker;
        if brackets[b].counted {
          var inFlight := name in exitTasks && exitTasks[name] < |tasks| && !tasks[exitTasks[name]].finished;
          if !inFlight && !(name in actions && actions[name].Succeeded?) {
            RollbackIfCounted(b);
          }
        }
      }
    }

    /** What the run does when its attempts are used up. */
    method HandleExhaustion(id: nat, reply: PositionsReply)
      requires id < |tasks| && tasks[id].bracket < |brackets|
      modifies this
      ensures Abs() == Exhausted(cfg, old(Abs()), id, reply)
    {
      hide ConfirmRemaining;
      var b := tasks[id].bracket;
      var rest := ConfirmedRemaining(b, 0, reply);
      notices := Heard(Abs(), brackets[b].ticker, reply).notices;
      ReconcilePosition(b, rest);
      tasks := tasks[id := tasks[id].(finished := true)];
      if rest.managed <= 0 {
        DecrementStopLossCount(brackets[b].ticker);
        brackets := brackets[b := brackets[b].(counted := false)];
        if rest.total > 0 {
          Forget(tasks[id].ticker);
        }
      } else {
        RollbackIfCounted(b);
      }
    }

    /** The bracket to work on, after asking the exchange when memory holds no position; `None` ends the run. */
    method PickBracket(id: nat, reply: PositionsReply) returns (cur: Option<nat>)
      requires id < |tasks| && tasks[id].bracket < |brackets|
      modifies this`brackets, this`appOwned, this`notices
      ensures (Abs(), cur) == PickCurrent(cfg, old(Abs()), id, reply)
    {
      hide ConfirmRemaining;
      var t := tasks[id].ticker;
      var own := tasks[id].bracket;
      if t in active && active[t] < |brackets| && brackets[active[t]].quantity > 0 {
        return Some(active[t]);
      }
      var rest := ConfirmedRemaining(own, 0, reply);
      notices := Heard(Abs(), brackets[own].ticker, reply).notices;
      if rest.managed <= 0 {
        return None;
      }
      ReconcilePosition(own, rest);
      return Some(own);
    }

    /** The pre-submit revalidation of the ask, with the bottomed-out guard. */
    method RevalidateQuote(id: nat, r: Reading) returns (verdict: Verdict)
      requires id < |tasks|
      modifies this`tasks, this`log
      ensures Abs() == AfterReading(cfg, old(Abs()), id, r)
      ensures verdict == Revalidate(cfg, old(tasks[id].noBid), r)
    {
      hide DeadBook, Degraded, AskAtStop;
      log := log + [Revalidated(id, r)];
      verdict := Proceed;
      if !Degraded(cfg, r) {
        if !AskAtStop(cfg, r) {
          verdict := Recovered;
        } else if cfg.abandonWhenNoBid {
          var noBid := if DeadBook(cfg, r) then tasks[id].noBid + 1 else 0;
          tasks := tasks[id := tasks[id].(noBid := noBid)];
          if noBid >= cfg.ConfirmChecks() {
            verdict := Unfillable;
          }
        }
      }
    }

    /** One pass through the panic-flatten loop body. */
    method PanicIteration(id: nat, env: AttemptEnv)
      requires id < |tasks| && tasks[id].bracket < |brackets|
      modifies this
      ensures Abs() == Attempt(cfg, old(Abs()), id, env)
    {
      hide PickCurrent, ExecuteStopLoss, AfterAttempt, NextNoBid, Revalidate;
      var own := tasks[id].bracket;
      var picked := PickBracket(id, env.missing);
      if picked.None? {
        tasks := tasks[id := tasks[id].(finished := true)];
        return;
      }
      var cur := picked.value;
      var verdict := RevalidateQuote(id, env.reading);
      match verdict
      case Recovered =>
        tasks := tasks[id := tasks[id].(finished := true)];
        RollbackIfCounted(cur);
      case Unfillable =>
        tasks := tasks[id := tasks[id].(finished := true)];
        brackets := brackets[own := brackets[own].(unfillable := true)];
      case Proceed =>
        var outcome := Execute(cur, Some(cfg.PanicPrice()), true, env.exec, Some(id));
        Conclude(id, cur, outcome, env);
    }

    method Conclude(id: nat, cur: nat, outcome: Outcome, env: AttemptEnv)
      requires id < |tasks| && tasks[id].bracket < |brackets| && cur < |brackets|
      modifies this
      ensures Abs() == AfterAttempt(cfg, old(Abs()), id, cur, outcome, env)
    {
      hide Exhausted;
      if outcome.Gone? {
        tasks := tasks[id := tasks[id].(finished := true)];
        DecrementStopLossCount(brackets[cur].ticker);
        brackets := brackets[cur := brackets[cur].(counted := false)];
      } else if outcome.NotGone? && tasks[id].ticker !in active {
        tasks := tasks[id := tasks[id].(finished := true)];
      } else if tasks[id].attempt < cfg.MaxRetries() {
        tasks := tasks[id := tasks[id].(attempt := tasks[id].attempt + 1)];
      } else {
        HandleExhaustion(id, env.exhausted);
      }
    }

    /** The whole panic-flatten loop when nothing else is scheduled in between: it ends within `MaxRetries` iterations
        and hands out at most that many sells. */
    method RunPanicFlattenExit(id: nat, envs: seq<AttemptEnv>)
      requires Inv(cfg, Abs()) && LogInv(cfg, Abs()) && IsRunning(Abs(), id) && tasks[id].attempt == 1
      requires |envs| >= cfg.MaxRetries()
      modifies this
      ensures Inv(cfg, Abs()) && LogInv(cfg, Abs())
      ensures id < |tasks| && tasks[id].finished && SellsOf(log, id) <= cfg.MaxRetries()
      ensures Abs() == Iterate(cfg, old(Abs()), id, envs).0
    {
      hide Inv, LogInv, Attempt, AttemptEnd;
      var i := 0;
      ghost var start := Abs();
      IterateNone(start, id, envs);
      while !tasks[id].finished
        invariant 0 <= i <= |envs|
        invariant Inv(cfg, Abs()) && LogInv(cfg, Abs())
        invariant id < |tasks| && tasks[id].bracket < |brackets|
        invariant !tasks[id].finished ==> tasks[id].attempt == i + 1
        invariant if tasks[id].finished then Iterate(cfg, start, id, envs).0 == Abs()
                  else Iterate(cfg, start, id, envs) == Iterate(cfg, Abs(), id, envs[i..])
        decreases !tasks[id].finished, |envs| - i
      {
        ghost var before := Abs();
        AttemptsLeft(before, id);
        assert i < |envs|;
        StepKeepsInv(cfg, before, PanicAttempt(id, envs[i]));
        StepKeepsLog(cfg, before, PanicAttempt(id, envs[i]));
        AttemptAdvances(cfg, before, id, envs[i]);
        assert Apply(cfg, before, PanicAttempt(id, envs[i])) == Attempt(cfg, before, id, envs[i]);
        PanicIteration(id, envs[i]);
        assert envs[i..][0] == envs[i] && envs[i..][1..] == envs[i + 1..];
        i := i + 1;
      }
      SellsBounded(id);
    }

    lemma IterateNone(s: State, id: nat, envs: seq<AttemptEnv>)
      ensures envs[0..] == envs
    {}

    lemma AttemptsLeft(s: State, id: nat)
      requires Inv(cfg, s) && IsRunning(s, id)
      ensures s.tasks[id].attempt <= cfg.MaxRetries()
    {
      assert Running(s, id);
    }

    lemma SellsBounded(id: nat)
      requires LogInv(cfg, Abs()) && id < |tasks|
      ensures SellsOf(log, id) <= cfg.MaxRetries()
    {
      assert TaskLogged(cfg, Abs(), id);
    }

    /** A filled entry. */
    method RecordEntry(t: Ticker, qty: int, app: int, saved: bool)
      modifies this
      ensures Abs() == Apply(cfg, old(Abs()), Enter(t, qty, app, saved))
    {
      hide JoinPosition;
      if saved {
        actions := actions - {t};
      }
      Join(t, qty, app);
    }

    /** The done callback of an exit task: it drops the dictionary entry only when that entry is this task. */
    method CleanupTask(id: nat)
      modifies this
      ensures Abs() == Apply(cfg, old(Abs()), TaskCleanup(id))
    {
      if id < |tasks| && tasks[id].finished {
        var t := tasks[id].ticker;
        if t in exitTasks && exitTasks[t] == id {
          exitTasks := exitTasks - {t};
        }
      }
    }
  }
}
