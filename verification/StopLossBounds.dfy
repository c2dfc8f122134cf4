/** How much every sell of every run may ask for: never more than the position known when it is handed out, nor, with
    external management off, more than what is then recorded as owned by the application. */
module StopLossBounds {
  import opened Common
  import opened StopLoss
  import opened StopLossLog
  import opened StopLossLatch
  import opened IntradaySell

  /** A sell for bracket `b`, by a stop-loss or a scheduled exit, within position and recorded ownership; a stop-loss
      sell is not priced above the stop. */
  ghost predicate Within(cfg: Config, s: State, b: nat, l: Line) {
    && b < |s.brackets| && !l.Revalidated? && l.ticker == s.brackets[b].ticker
    && 0 < l.qty <= s.brackets[b].quantity
    && (!cfg.manageExternal && l.ticker in s.appOwned ==> l.qty <= s.appOwned[l.ticker])
    && (l.Sell? ==> l.price <= cfg.stopPrice)
  }

  /** What is known of positions when a step hands out its sells: a websocket trigger first takes over the quantity it
      was told, and an iteration without an active bracket first asks the exchange. */
  function Known(cfg: Config, s: State, step: Step): State {
    match step
    case WatcherTrigger(t, quantity, _, _) =>
      if IsActive(s, t) then AdoptQuantity(ClearLatch(s, s.active[t]), s.active[t], quantity) else s
    case PanicAttempt(id, env) => if IsRunning(s, id) then PickCurrent(cfg, s, id, env.missing).0 else s
    case _ => s
  }

  /** The bracket a step sells: the one an iteration picks, or the active one of the market. */
  function Sold(cfg: Config, s: State, step: Step): Option<nat> {
    match step
    case PanicAttempt(id, env) => if IsRunning(s, id) then PickCurrent(cfg, s, id, env.missing).1 else None
    case TaskCleanup(_) => None
    case _ => if IsActive(s, step.ticker) then Some(s.active[step.ticker]) else None
  }

  /** The second log continues the first, and each sell it adds is of bracket `b` and within its bounds. */
  ghost predicate AddsWithin(cfg: Config, known: State, b: Option<nat>, before: seq<Line>, after: seq<Line>) {
    && before <= after
    && forall p :: |before| <= p < |after| && !after[p].Revalidated? ==>
      b.Some? && Within(cfg, known, b.value, after[p])
  }

  /** The two states agree on whose brackets there are, how large, and what is owned. */
  ghost predicate SameHoldings(s: State, s': State) {
    && s.appOwned == s'.appOwned && |s.brackets| == |s'.brackets|
    && forall b :: 0 <= b < |s.brackets| ==>
         s.brackets[b].ticker == s'.brackets[b].ticker && s.brackets[b].quantity == s'.brackets[b].quantity
  }

  lemma AddsNothing(cfg: Config, known: State, b: Option<nat>, log: seq<Line>)
    ensures AddsWithin(cfg, known, b, log, log)
  {}

  lemma AddsOne(cfg: Config, known: State, b: nat, log: seq<Line>, l: Line)
    requires l.Revalidated? || Within(cfg, known, b, l)
    ensures AddsWithin(cfg, known, Some(b), log, log + [l])
  {
    hide Within;
  }

  lemma AddsMore(cfg: Config, known: State, b: Option<nat>, log: seq<Line>, more: seq<Line>, most: seq<Line>)
    requires AddsWithin(cfg, known, b, log, more) && AddsWithin(cfg, known, b, more, most)
    ensures AddsWithin(cfg, known, b, log, most)
  {
    hide Within;
    forall p | |log| <= p < |most| && !most[p].Revalidated? ensures b.Some? && Within(cfg, known, b.value, most[p]) {
      if p < |more| { assert most[p] == more[p]; }
    }
  }

  lemma ExecuteWithin(cfg: Config, known: State, s: State, b: nat, override: Option<int>, bypass: bool, env: ExecEnv,
                      origin: Option<nat>)
    requires b < |s.brackets| && SameHoldings(known, s)
    ensures AddsWithin(cfg, known, Some(b), s.log, ExecuteStopLoss(cfg, s, b, override, bypass, env, origin).0.log)
  {
    hide ExecuteStopLoss, AddsWithin;
    ExecuteLog(cfg, s, b, override, bypass, env, origin);
    AddsNothing(cfg, known, Some(b), s.log);
    var s' := ExecuteStopLoss(cfg, s, b, override, bypass, env, origin).0;
    if s'.log != s.log {
      var price, qty :| s'.log == s.log + [Sell(origin, s.brackets[b].ticker, price, qty)] && price <= cfg.stopPrice
        && 0 < qty <= s.brackets[b].quantity
        && (!cfg.manageExternal && s.brackets[b].ticker in s.appOwned ==> qty <= s.appOwned[s.brackets[b].ticker]);
      AddsOne(cfg, known, b, s.log, Sell(origin, s.brackets[b].ticker, price, qty));
    }
  }

  lemma MarkKeepsHoldings(cfg: Config, s: State, b: nat)
    requires b < |s.brackets|
    ensures SameHoldings(s, MarkCounted(cfg, s, b)) && MarkCounted(cfg, s, b).log == s.log
  {}

  lemma CountsKeepLog(cfg: Config, s: State, b: nat)
    requires b < |s.brackets|
    ensures DecrementAndClear(cfg, s, b).log == s.log
  {}

  lemma ExitWithin(cfg: Config, s: State, b: nat, quote: Option<Quote>, exec: ExecEnv)
    requires b < |s.brackets|
    ensures AddsWithin(cfg, s, Some(b), s.log, ExitNow(cfg, MarkCounted(cfg, s, b), b, quote, exec).log)
  {
    hide ExecuteStopLoss, AddsWithin, MarkCounted, DecrementAndClear, LatchedShut, SameHoldings;
    MarkKeepsHoldings(cfg, s, b);
    var s1 := MarkCounted(cfg, s, b);
    AddsNothing(cfg, s, Some(b), s.log);
    ExecuteWithin(cfg, s, s1, b, None, false, exec, None);
    CountsKeepLog(cfg, ExecuteStopLoss(cfg, s1, b, None, false, exec, None).0, b);
  }

  lemma ScheduledWithin(cfg: Config, s: State, b: nat, bid: Option<int>, confirmed: Option<int>, reply: LimitReply,
                        exec: ExecEnv)
    requires b < |s.brackets|
    ensures AddsWithin(cfg, s, Some(b), s.log, IntradayExit(cfg, s, b, bid, confirmed, reply, exec).log)
  {
    AsksWithinOwned(cfg, s, b, bid, confirmed, reply, exec);
    hide IntradayExit;
    var log := IntradayExit(cfg, s, b, bid, confirmed, reply, exec).log;
    forall p | |s.log| <= p < |log| ensures Within(cfg, s, b, log[p]) { assert Bounded(cfg, s, b, bid, log[p]); }
  }

  lemma AttemptWithin(cfg: Config, s: State, id: nat, env: AttemptEnv)
    requires IsRunning(s, id)
    ensures var (known, current) := PickCurrent(cfg, s, id, env.missing);
      AddsWithin(cfg, known, current, s.log, Attempt(cfg, s, id, env).log)
  {
    hide Attempt, PickCurrent, ExecuteStopLoss, NextNoBid, Revalidate, AddsWithin;
    AttemptLog(cfg, s, id, env);
    var (known, current) := PickCurrent(cfg, s, id, env.missing);
    AddsNothing(cfg, known, current, s.log);
    if current.Some? {
      var s2 := AfterReading(cfg, known, id, env.reading);
      assert SameHoldings(known, s2);
      AddsOne(cfg, known, current.value, s.log, Revalidated(id, env.reading));
      ExecuteWithin(cfg, known, s2, current.value, Some(cfg.PanicPrice()), true, env.exec, Some(id));
      AddsMore(cfg, known, current, s.log, s2.log,
               ExecuteStopLoss(cfg, s2, current.value, Some(cfg.PanicPrice()), true, env.exec, Some(id)).0.log);
    }
  }

  /** Whatever the step, each sell it hands out is within the position and the recorded ownership known at that
      moment. */
  lemma StepSellsWithin(cfg: Config, s: State, step: Step)
    ensures AddsWithin(cfg, Known(cfg, s, step), Sold(cfg, s, step), s.log, Apply(cfg, s, step).log)
  {
    hide AddsWithin, ExecuteStopLoss, IntradayExit, Attempt, ExitNow, MarkCounted, ExitQuantity, PickCurrent,
         LatchedShut, SameHoldings;
    AddsNothing(cfg, Known(cfg, s, step), Sold(cfg, s, step), s.log);
    if LogsNothing(step) { SilentSteps(cfg, s, step); }
    assert SameHoldings(s, s) by { HoldingsSelf(s); }
    match step
    case WatcherTrigger(t, quantity, quote, exec) =>
      if IsActive(s, t) {
        var b := s.active[t];
        ExitWithin(cfg, AdoptQuantity(ClearLatch(s, b), b, quantity), b, quote, exec);
      }
    case PhaseCTrigger(t, quote, exec) => if IsActive(s, t) { ExitWithin(cfg, s, s.active[t], quote, exec); }
    case BlindFlatten(t, override, exec) =>
      if IsActive(s, t) { ExecuteWithin(cfg, s, s, s.active[t], Some(override), true, exec, None); }
    case CloseOut(t, exec) => if IsActive(s, t) { ExecuteWithin(cfg, s, s, s.active[t], None, true, exec, None); }
    case ScheduledExit(t, bid, confirmed, limit, exec) =>
      if IsActive(s, t) { ScheduledWithin(cfg, s, s.active[t], bid, confirmed, limit, exec); }
    case PanicAttempt(id, env) => if IsRunning(s, id) { AttemptWithin(cfg, s, id, env); }
    case _ =>
  }

  lemma HoldingsSelf(s: State)
    ensures SameHoldings(s, s)
  {}

  /** The sell was handed out by step `i` of the run, within what was known then of the bracket it sold. */
  ghost predicate HandedOut(cfg: Config, s: State, steps: seq<Step>, i: nat, l: Line) {
    && i < |steps|
    && var si := Run(cfg, s, steps[..i]);
       && Sold(cfg, si, steps[i]).Some?
       && Within(cfg, Known(cfg, si, steps[i]), Sold(cfg, si, steps[i]).value, l)
  }

  /** In every run, every sell in the log beyond the start was within the position and the recorded ownership known to
      the step that handed it out. */
  lemma {:induction false} RunSellsWithin(cfg: Config, s: State, steps: seq<Step>)
    ensures var log := Run(cfg, s, steps).log;
      && s.log <= log
      && forall p :: |s.log| <= p < |log| && !log[p].Revalidated? ==>
        exists i: nat :: HandedOut(cfg, s, steps, i, log[p])
    decreases |steps|
  {
    if steps != [] {
      hide Apply, Within, Known, Sold;
      var s1, rest := Apply(cfg, s, steps[0]), steps[1..];
      StepSellsWithin(cfg, s, steps[0]);
      RunSellsWithin(cfg, s1, rest);
      var log := Run(cfg, s, steps).log;
      forall p | |s.log| <= p < |log| && !log[p].Revalidated?
        ensures exists i: nat :: HandedOut(cfg, s, steps, i, log[p])
      {
        if p < |s1.log| {
          assert log[p] == s1.log[p] && Run(cfg, s, steps[..0]) == s;
          assert HandedOut(cfg, s, steps, 0, log[p]);
        } else {
          var i: nat :| HandedOut(cfg, s1, rest, i, log[p]);
          assert steps[..i + 1][1..] == rest[..i] && steps[i + 1] == rest[i];
          assert steps[..i + 1][0] == steps[0] && Run(cfg, s, steps[..i + 1]) == Run(cfg, s1, rest[..i]);
          assert HandedOut(cfg, s, steps, i + 1, log[p]);
        }
      }
    }
  }
}
