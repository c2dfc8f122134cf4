/** What one scheduled exit asks the exchange to sell. */
module IntradaySell {
  import opened Common
  import opened StopLoss

  /** The contracts the sells of these lines ask for. */
  function Asked(lines: seq<Line>): int {
    if lines == [] then 0
    else
      var l := lines[|lines| - 1];
      Asked(lines[..|lines| - 1]) + (if l.Sell? || l.Limit? then l.qty else 0)
  }

  /** A sell of market `t` within the position and, with external management off, within what the application is
      recorded to own; a stop-loss sell at the stop or below, a limit at the passed bid or below. */
  ghost predicate Bounded(cfg: Config, s: State, b: nat, bid: Option<int>, l: Line)
    requires b < |s.brackets|
  {
    && !l.Revalidated? && l.ticker == s.brackets[b].ticker && 0 < l.qty <= s.brackets[b].quantity
    && (!cfg.manageExternal && l.ticker in s.appOwned ==> l.qty <= s.appOwned[l.ticker])
    && (l.Sell? ==> l.origin.None? && l.price <= cfg.stopPrice)
    && (l.Limit? ==> bid.Some? && l.price <= bid.value)
  }

  /** The lines an exit adds: its limit, if it hands one out, and its fallback, if it comes to one and the record lets
      it through. */
  function Added(cfg: Config, s: State, b: nat, bid: Option<int>, confirmed: Option<int>, reply: LimitReply): seq<Line>
    requires b < |s.brackets|
  {
    var t := s.brackets[b].ticker; var qty := ExitQuantity(cfg, s, b).managed; var price := LimitPrice(bid, confirmed);
    var limited := qty > 0 && price.Some? && !reply.NotSupported?;
    (if limited then [Limit(t, price.value, qty)] else [])
    + (if qty > 0 && !(limited && reply.LimitFilled?) && MaySubmit(s, t)
       then [Sell(None, t, SellPrice(cfg, None), qty)] else [])
  }

  lemma ExitAdds(cfg: Config, s: State, b: nat, bid: Option<int>, confirmed: Option<int>, reply: LimitReply,
                 exec: ExecEnv)
    requires b < |s.brackets|
    ensures IntradayExit(cfg, s, b, bid, confirmed, reply, exec).log == s.log + Added(cfg, s, b, bid, confirmed, reply)
  {
    hide ExecuteStopLoss, ExitQuantity, LedgerFrame, LimitPrice, MaySubmit, SellPrice, RemovePosition, Reconcile;
    var t := s.brackets[b].ticker; var qty := ExitQuantity(cfg, s, b).managed; var price := LimitPrice(bid, confirmed);
    if qty > 0 {
      if price.Some? && !reply.NotSupported? {
        var s1 := s.(log := s.log + [Limit(t, price.value, qty)]);
        SameQuantity(cfg, s, s1, b);
        FallbackLog(cfg, s1, b, exec);
      } else {
        FallbackLog(cfg, s, b, exec);
      }
    }
  }

  lemma SameQuantity(cfg: Config, s: State, s1: State, b: nat)
    requires b < |s.brackets| && s1 == s.(log := s1.log)
    ensures ExitQuantity(cfg, s1, b) == ExitQuantity(cfg, s, b)
    ensures MaySubmit(s1, s.brackets[b].ticker) == MaySubmit(s, s.brackets[b].ticker)
  {}

  /** What the fallback adds to the log. */
  lemma FallbackLog(cfg: Config, s: State, b: nat, exec: ExecEnv)
    requires b < |s.brackets| && ExitQuantity(cfg, s, b).managed > 0
    ensures ExecuteStopLoss(cfg, s, b, None, true, exec, None).0.log ==
      if MaySubmit(s, s.brackets[b].ticker)
      then s.log + [Sell(None, s.brackets[b].ticker, SellPrice(cfg, None), ExitQuantity(cfg, s, b).managed)] else s.log
  {
    hide AfterSell;
    var s1 := SetAction(s, s.brackets[b].ticker, Submitted);
    assert ExitQuantity(cfg, s1, b) == ExitQuantity(cfg, s, b);
  }

  /** A scheduled exit only adds sells of its own market, at most two, each bounded by the position, the recorded
      ownership and its price ceiling; and it leaves the stop-loss counts and flags alone. */
  lemma AsksWithinOwned(cfg: Config, s: State, b: nat, bid: Option<int>, confirmed: Option<int>, reply: LimitReply,
                        exec: ExecEnv)
    requires b < |s.brackets|
    ensures var s' := IntradayExit(cfg, s, b, bid, confirmed, reply, exec);
      && LedgerFrame(s, s') && s.log <= s'.log && |s'.log| <= |s.log| + 2
      && forall p :: |s.log| <= p < |s'.log| ==> Bounded(cfg, s, b, bid, s'.log[p])
  {
    hide IntradayExit, LedgerFrame, Added, Bounded;
    ExitAdds(cfg, s, b, bid, confirmed, reply, exec);
    var added := Added(cfg, s, b, bid, confirmed, reply);
    AddedIsBounded(cfg, s, b, bid, confirmed, reply);
    var s' := IntradayExit(cfg, s, b, bid, confirmed, reply, exec);
    forall p | |s.log| <= p < |s'.log| ensures Bounded(cfg, s, b, bid, s'.log[p]) {
      assert s'.log[p] == added[p - |s.log|];
    }
  }

  lemma AddedIsBounded(cfg: Config, s: State, b: nat, bid: Option<int>, confirmed: Option<int>, reply: LimitReply)
    requires b < |s.brackets|
    ensures |Added(cfg, s, b, bid, confirmed, reply)| <= 2
    ensures forall l :: l in Added(cfg, s, b, bid, confirmed, reply) ==> Bounded(cfg, s, b, bid, l)
  {}

  lemma AskedTwo(a: Line, l: Line)
    requires !a.Revalidated? && !l.Revalidated?
    ensures Asked([a]) == a.qty && Asked([a, l]) == a.qty + l.qty
  {
    assert [a][..0] == [] && [a, l][..1] == [a];
  }

  /** Together the sells of one exit ask for no more than the managed quantity, except exactly when the limit was
      handed out and did not fill while the record lets the fallback through: then they ask for twice that quantity,
      whatever part of the limit had already filled. */
  lemma AsksTwiceIff(cfg: Config, s: State, b: nat, bid: Option<int>, confirmed: Option<int>, reply: LimitReply,
                     exec: ExecEnv)
    requires b < |s.brackets|
    ensures var s' := IntradayExit(cfg, s, b, bid, confirmed, reply, exec);
      var managed := ExitQuantity(cfg, s, b).managed;
      && s.log <= s'.log
      && var asked := Asked(s'.log[|s.log|..]);
         && (asked > managed <==>
               && managed > 0 && LimitPrice(bid, confirmed).Some? && !reply.NotSupported? && !reply.LimitFilled?
               && MaySubmit(s, s.brackets[b].ticker))
         && (asked > managed ==> asked == 2 * managed)
  {
    hide *;
    ExitAdds(cfg, s, b, bid, confirmed, reply, exec);
    AddedAsks(cfg, s, b, bid, confirmed, reply);
    assert (s.log + Added(cfg, s, b, bid, confirmed, reply))[|s.log|..] == Added(cfg, s, b, bid, confirmed, reply);
  }

  lemma AddedAsks(cfg: Config, s: State, b: nat, bid: Option<int>, confirmed: Option<int>, reply: LimitReply)
    requires b < |s.brackets|
    ensures var managed := ExitQuantity(cfg, s, b).managed;
      managed >= 0 && Asked(Added(cfg, s, b, bid, confirmed, reply)) ==
      if managed <= 0 then 0
      else
        (if LimitPrice(bid, confirmed).Some? && !reply.NotSupported? then managed else 0) +
        (if !(LimitPrice(bid, confirmed).Some? && reply.LimitFilled?) && MaySubmit(s, s.brackets[b].ticker)
         then managed else 0)
  {
    hide MaySubmit, ExitQuantity, LimitPrice, Asked, SellPrice;
    ManagedIsNat(cfg, s, b);
    var t := s.brackets[b].ticker; var qty := ExitQuantity(cfg, s, b).managed; var price := LimitPrice(bid, confirmed);
    var limit, fallback := Limit(t, if price.Some? then price.value else 0, qty),
        Sell(None, t, SellPrice(cfg, None), qty);
    AskedTwo(limit, fallback);
    AskedTwo(fallback, fallback);
    assert Asked([]) == 0 by { AskedNothing(); }
    var added := Added(cfg, s, b, bid, confirmed, reply);
    assert added == [] || added == [limit] || added == [fallback] || added == [limit, fallback];
  }

  lemma ManagedIsNat(cfg: Config, s: State, b: nat)
    requires b < |s.brackets|
    ensures ExitQuantity(cfg, s, b).managed >= 0
  {}

  lemma AskedNothing()
    ensures Asked([]) == 0
  {}
}
