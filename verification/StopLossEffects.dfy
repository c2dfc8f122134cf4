/** What the pieces of the stop-loss machine do, said in terms of the fields they leave behind. */
module StopLossEffects {
  import opened Common
  import opened Ownership
  import opened StopLoss
  import opened StopLossSafety

  // ------------------------------------------------------------------
  // One execution, in terms of the fields
  // ------------------------------------------------------------------

  /** The execution hands out a sell: no cooldown, no sell on record that succeeded or is in flight, and something of
      the position may be sold. */
  predicate HandsOut(cfg: Config, s: State, b: nat, bypass: bool, env: ExecEnv)
    requires b < |s.brackets|
  {
    var t, q := s.brackets[b].ticker, s.brackets[b].quantity;
    && (bypass || !env.cooling)
    && (t in s.actions ==> s.actions[t] == Pending || s.actions[t] == Failed)
    && 0 < q && (!cfg.manageExternal && t in s.appOwned ==> 0 < s.appOwned[t])
  }

  /** The quantity it asks for. */
  function AsksFor(cfg: Config, s: State, b: nat): int
    requires b < |s.brackets|
  {
    var t, q := s.brackets[b].ticker, s.brackets[b].quantity;
    if !cfg.manageExternal && t in s.appOwned && s.appOwned[t] < q then s.appOwned[t] else q
  }

  /** What the application owns of `total` listed contracts: bought minus sold over its fills of the market; without
      any, what it owned before minus what the sell filled. */
  ghost function OwnedOf(cfg: Config, t: Ticker, total: int, before: int, filled: int, fills: FillLookup): int {
    if cfg.manageExternal then total
    else if fills.Fills? && exists i :: 0 <= i < |fills.fills| && Matches(fills.fills[i], t) then
      var net := Bought(fills.fills, t) - Sold(fills.fills, t);
      if net <= 0.0 then 0 else if RoundHalfEven(net) < total then RoundHalfEven(net) else total
    else
      var left := before - (if filled > 0 then filled else 0);
      if left <= 0 then 0 else if left < total then left else total
  }

  /** Nothing but position, record, log and notices is touched. */
  ghost predicate OnlyHoldings(s: State, s': State) {
    s' == s.(brackets := s'.brackets, active := s'.active, appOwned := s'.appOwned, actions := s'.actions,
             log := s'.log, notices := s'.notices)
  }

  /** Without a sell: nothing happens during the cooldown or while a sell is in flight; a sell that succeeded before
      takes the position out of memory; with nothing to sell the record becomes PENDING. */
  lemma RefusedExecution(cfg: Config, s: State, b: nat, override: Option<int>, bypass: bool, env: ExecEnv,
                         origin: Option<nat>)
    requires b < |s.brackets| && !HandsOut(cfg, s, b, bypass, env)
    ensures var (s', outcome) := ExecuteStopLoss(cfg, s, b, override, bypass, env, origin);
      var t := s.brackets[b].ticker;
      if !bypass && env.cooling then s' == s && outcome == NotGone
      else if t in s.actions && s.actions[t] == Succeeded then
        s' == s.(active := s.active - {t}, appOwned := s.appOwned - {t}) && outcome == Gone
      else if t in s.actions && s.actions[t] == Submitted then s' == s && outcome == NotGone
      else s' == s.(actions := s.actions[t := Pending]) && outcome == NotGone
  {
    hide AfterSell;
    var t := s.brackets[b].ticker;
    assert s.actions[t := Submitted][t := Pending] == s.actions[t := Pending];
  }

  /** With a sell, whatever the exchange says to it: one line at the given price, at the stop at most; and when the
      exchange lists what is left, the bracket's quantity is the listed count and the recorded ownership follows the
      fills, unless nothing is left to manage, which takes the position out of memory; when it does not, memory stays
      as it is. */
  lemma HandedOutExecution(cfg: Config, s: State, b: nat, override: Option<int>, bypass: bool, env: ExecEnv,
                           origin: Option<nat>)
    requires b < |s.brackets| && HandsOut(cfg, s, b, bypass, env)
    ensures var (s', outcome) := ExecuteStopLoss(cfg, s, b, override, bypass, env, origin);
      var t, q := s.brackets[b].ticker, s.brackets[b].quantity;
      var before := if t in s.appOwned then s.appOwned[t] else q;
      var asked := if override.Some? then override.value else 1;
      && OnlyHoldings(s, s')
      && s'.log == s.log + [Sell(origin, t, if asked < cfg.stopPrice then asked else cfg.stopPrice, AsksFor(cfg, s, b))]
      && (!(env.sell.SellDone? && env.after.Live?) ==> s'.notices == s.notices)
      && (env.sell.SellRaised? ==>
            && outcome == Raised && s'.brackets == s.brackets && s'.active == s.active && s'.appOwned == s.appOwned
            && s'.actions == s.actions[t := if env.sell.resetOk then Failed else Submitted])
      && (env.sell.MarketNotFound? ==>
            && outcome == Gone && s'.brackets == s.brackets
            && s'.active == s.active - {t} && s'.appOwned == s.appOwned - {t}
            && s'.actions == s.actions[t := Succeeded])
      && (env.sell.SellDone? && env.after.PositionsFailed? ==>
            && outcome == NotGone && s'.brackets == s.brackets && s'.active == s.active
            && s'.actions == s.actions[t := Pending]
            && s'.appOwned == s.appOwned[t := if before <= 0 then 0 else if before < q then before else q])
      && (env.sell.SellDone? && env.after.Live? ==>
            var total := if env.after.count.Some? && env.after.count.value > 0 then env.after.count.value else 0;
            var owned := OwnedOf(cfg, t, total, before, env.sell.filled, env.after.fills);
            && outcome == NotGone
            && s'.notices == s.notices + [Listed(t, total, |s.log| + 1)]
            && if owned == 0 then
                 && s'.brackets == s.brackets && s'.active == s.active - {t} && s'.appOwned == s.appOwned - {t}
                 && s'.actions == s.actions[t := Succeeded]
               else
                 && s'.brackets == s.brackets[b := s.brackets[b].(quantity := total)] && s'.active == s.active
                 && s'.appOwned == s.appOwned[t := owned] && s'.actions == s.actions[t := Pending])
  {
    hide *;
    var t := s.brackets[b].ticker;
    var asked := if override.Some? then override.value else 1;
    var sold := Sell(origin, t, if asked < cfg.stopPrice then asked else cfg.stopPrice, AsksFor(cfg, s, b));
    var s1 := s.(actions := s.actions[t := Submitted], log := s.log + [sold]);
    SomethingToSell(cfg, s, b, bypass, env);
    Handing(cfg, s, b, override, bypass, env, origin, sold);
    Overwrite(s.actions, t);
    if env.sell.SellDone? && env.after.Live? {
      AnsweredSell(cfg, s1, b, env);
    } else {
      NoReply(cfg, s1, b, env);
      if env.sell.SellDone? { UnansweredSell(cfg, s1, b, env); } else { UnsoldSell(cfg, s1, b, env); }
    }
    SellFrame(cfg, s1, b, env);
    OnlyHoldingsOf(s, s1, AfterSell(cfg, s1, b, env).0);
  }

  lemma SellFrame(cfg: Config, s: State, b: nat, env: ExecEnv)
    requires b < |s.brackets|
    ensures var s' := AfterSell(cfg, s, b, env).0;
      s'.ledger == s.ledger && s'.tasks == s.tasks && s'.exitTasks == s.exitTasks
  {
    hide AfterSell;
    FrameFacts(s, AfterSell(cfg, s, b, env).0, b);
  }

  lemma SomethingToSell(cfg: Config, s: State, b: nat, bypass: bool, env: ExecEnv)
    requires b < |s.brackets| && HandsOut(cfg, s, b, bypass, env)
    ensures 0 < s.brackets[b].quantity && 0 < AsksFor(cfg, s, b) <= s.brackets[b].quantity
  {}

  lemma UnsoldSell(cfg: Config, s: State, b: nat, env: ExecEnv)
    requires b < |s.brackets| && !env.sell.SellDone? && s.brackets[b].ticker in s.actions
    requires s.actions[s.brackets[b].ticker] == Submitted
    ensures var (s', outcome) := AfterSell(cfg, s, b, env);
      var t := s.brackets[b].ticker;
      && s'.log == s.log && s'.brackets == s.brackets
      && if env.sell.SellRaised? then
           && outcome == Raised && s'.active == s.active && s'.appOwned == s.appOwned
           && s'.actions == s.actions[t := if env.sell.resetOk then Failed else Submitted]
         else
           && outcome == Gone && s'.active == s.active - {t} && s'.appOwned == s.appOwned - {t}
           && s'.actions == s.actions[t := Succeeded]
  {
    hide LedgerFrame, ConfirmRemaining;
    assert s.actions[s.brackets[b].ticker := Submitted] == s.actions;
  }

  lemma NoReply(cfg: Config, s: State, b: nat, env: ExecEnv)
    requires b < |s.brackets| && !(env.sell.SellDone? && env.after.Live?)
    ensures AfterSell(cfg, s, b, env).0.notices == s.notices
  {
    hide ConfirmRemaining, LedgerFrame;
  }

  lemma Overwrite(actions: map<Ticker, ActionStatus>, t: Ticker)
    ensures actions[t := Submitted][t := Submitted] == actions[t := Submitted]
    ensures actions[t := Submitted][t := Failed] == actions[t := Failed]
    ensures actions[t := Submitted][t := Pending] == actions[t := Pending]
    ensures actions[t := Submitted][t := Succeeded] == actions[t := Succeeded]
  {}

  lemma OnlyHoldingsOf(s: State, s1: State, s2: State)
    requires s1 == s.(actions := s1.actions, log := s1.log)
    requires s2.ledger == s1.ledger && s2.tasks == s1.tasks && s2.exitTasks == s1.exitTasks
    ensures OnlyHoldings(s, s2)
  {}

  lemma Handing(cfg: Config, s: State, b: nat, override: Option<int>, bypass: bool, env: ExecEnv, origin: Option<nat>,
                sold: Line)
    requires b < |s.brackets| && HandsOut(cfg, s, b, bypass, env)
    requires var asked := if override.Some? then override.value else 1;
      var price := if asked < cfg.stopPrice then asked else cfg.stopPrice;
      sold == Sell(origin, s.brackets[b].ticker, price, AsksFor(cfg, s, b))
    ensures ExecuteStopLoss(cfg, s, b, override, bypass, env, origin) ==
      AfterSell(cfg, s.(actions := s.actions[s.brackets[b].ticker := Submitted], log := s.log + [sold]), b, env)
  {
    hide AfterSell;
    var s1 := SetAction(s, s.brackets[b].ticker, Submitted);
    assert ExitQuantity(cfg, s1, b).managed == AsksFor(cfg, s, b);
    assert SellPrice(cfg, override) == sold.price;
  }

  lemma AnsweredSell(cfg: Config, s: State, b: nat, env: ExecEnv)
    requires b < |s.brackets| && env.sell.SellDone? && env.after.Live? && 0 < s.brackets[b].quantity
    ensures var (s', outcome) := AfterSell(cfg, s, b, env);
      var t, q := s.brackets[b].ticker, s.brackets[b].quantity;
      var before := if t in s.appOwned then s.appOwned[t] else q;
      var total := if env.after.count.Some? && env.after.count.value > 0 then env.after.count.value else 0;
      var owned := OwnedOf(cfg, t, total, before, env.sell.filled, env.after.fills);
      && outcome == NotGone && s'.notices == s.notices + [Listed(t, total, |s.log|)] && s'.log == s.log
      && if owned == 0 then
           && s'.brackets == s.brackets && s'.active == s.active - {t} && s'.appOwned == s.appOwned - {t}
           && s'.actions == s.actions[t := Succeeded]
         else
           && s'.brackets == s.brackets[b := s.brackets[b].(quantity := total)] && s'.active == s.active
           && s'.appOwned == s.appOwned[t := owned] && s'.actions == s.actions[t := Pending]
  {
    hide ConfirmRemaining, LedgerFrame, OwnedOf, AppOwned;
    AnsweredRemaining(cfg, s, b, env.sell.filled, env.after);
  }

  lemma AnsweredRemaining(cfg: Config, s: State, b: nat, filled: int, reply: PositionsReply)
    requires b < |s.brackets| && reply.Live? && 0 < s.brackets[b].quantity
    ensures var t, q := s.brackets[b].ticker, s.brackets[b].quantity;
      var before := if t in s.appOwned then s.appOwned[t] else q;
      var total := if reply.count.Some? && reply.count.value > 0 then reply.count.value else 0;
      var owned := OwnedOf(cfg, t, total, before, filled, reply.fills);
      0 <= owned <= total && ConfirmRemaining(cfg, s, b, filled, reply) == Remaining(true, total, owned, owned)
  {
    var t, q := s.brackets[b].ticker, s.brackets[b].quantity;
    var total := if reply.count.Some? then Max(reply.count.value, 0) else 0;
    OwnedIsAppOwned(cfg, t, total, if t in s.appOwned then s.appOwned[t] else q, filled, reply.fills);
    hide AppOwned, OwnedOf;
  }

  lemma UnansweredSell(cfg: Config, s: State, b: nat, env: ExecEnv)
    requires b < |s.brackets| && env.sell.SellDone? && env.after.PositionsFailed? && 0 < s.brackets[b].quantity
    ensures var (s', outcome) := AfterSell(cfg, s, b, env);
      var t, q := s.brackets[b].ticker, s.brackets[b].quantity;
      var before := if t in s.appOwned then s.appOwned[t] else q;
      && outcome == NotGone && s'.brackets == s.brackets && s'.active == s.active && s'.log == s.log
      && s'.actions == s.actions[t := Pending] && s'.notices == s.notices
      && s'.appOwned == s.appOwned[t := if before <= 0 then 0 else if before < q then before else q]
  {
    assert s.brackets[b := s.brackets[b].(quantity := s.brackets[b].quantity)] == s.brackets;
  }

  /** The two ways to say what is owned. */
  lemma OwnedIsAppOwned(cfg: Config, t: Ticker, total: int, before: int, filled: int, fills: FillLookup)
    requires total >= 0
    ensures AppOwned(t, total, Min(Max(before - Max(filled, 0), 0), total), cfg.manageExternal, fills) ==
            OwnedOf(cfg, t, total, before, filled, fills)
  {
    if !cfg.manageExternal && fills.Fills? && MatchedAny(fills.fills, t) {
      AppOwnedIsClampedNet(t, total, Min(Max(before - Max(filled, 0), 0), total), fills.fills);
      RoundIsMonotone(Bought(fills.fills, t) - Sold(fills.fills, t));
    }
  }

  lemma RoundIsMonotone(x: real)
    ensures x > 0.0 ==> RoundHalfEven(x) >= 0
  {}
}
