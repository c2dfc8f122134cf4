/** What a reconciliation, an entry and an exit write, said of the trades and the fields of the row. */
module ReconcilerRows {
  import opened Common
  import opened Reconciler

  // ------------------------------------------------------------------
  // Totals by kind of trade
  // ------------------------------------------------------------------

  const EXITS := {SellAction, StopLoss}

  function Contracts(ts: seq<Trade>, kinds: set<Action>): int {
    if ts == [] then 0 else (if ts[0].action in kinds then ts[0].quantity else 0) + Contracts(ts[1..], kinds)
  }

  function Value(ts: seq<Trade>, kinds: set<Action>): int {
    if ts == [] then 0 else (if ts[0].action in kinds then ts[0].price * ts[0].quantity else 0) + Value(ts[1..], kinds)
  }

  lemma {:induction false} OneMoreTrade(ts: seq<Trade>, t: Trade, kinds: set<Action>)
    ensures Contracts(ts + [t], kinds) == Contracts(ts, kinds) + (if t.action in kinds then t.quantity else 0)
    ensures Value(ts + [t], kinds) == Value(ts, kinds) + (if t.action in kinds then t.price * t.quantity else 0)
  {
    if ts != [] {
      assert (ts + [t])[1..] == ts[1..] + [t];
      OneMoreTrade(ts[1..], t, kinds);
    } else {
      assert [] + [t] == [t];
    }
  }

  lemma {:induction false} BuysTotal(ts: seq<Trade>)
    ensures Qty(Buys(ts)) == Contracts(ts, {Buy}) && Cost(Buys(ts)) == Value(ts, {Buy})
    ensures Buys(ts) == [] <==> forall i :: 0 <= i < |ts| ==> ts[i].action != Buy
  {
    if ts != [] {
      hide *;
      var n := |ts| - 1;
      BuysTotal(ts[..n]);
      OneMoreTrade(ts[..n], ts[n], {Buy});
      assert ts == ts[..n] + [ts[n]];
      OneMore(ts[..n], ts[n]);
      OneMore(Buys(ts[..n]), ts[n]);
      assert Buys(ts[..n]) + [] == Buys(ts[..n]);
    }
  }

  /** Trade `i` is the last of the exits. */
  ghost predicate IsLastExit(ts: seq<Trade>, i: int) {
    0 <= i < |ts| && ts[i].action in EXITS && forall k :: i < k < |ts| ==> ts[k].action !in EXITS
  }

  ghost predicate AnyExit(ts: seq<Trade>) { exists i :: 0 <= i < |ts| && ts[i].action in EXITS }

  lemma InExits(a: Action)
    ensures a in EXITS <==> a.StopLoss? || a.SellAction?
  {}

  lemma {:induction false} ExitsTotal(ts: seq<Trade>)
    ensures Qty(Exits(ts)) == Contracts(ts, EXITS) && Cost(Exits(ts)) == Value(ts, EXITS)
  {
    if ts != [] {
      hide *;
      var n := |ts| - 1;
      ExitsTotal(ts[..n]);
      InExits(ts[n].action);
      OneMoreTrade(ts[..n], ts[n], EXITS);
      assert ts == ts[..n] + [ts[n]];
      OneMore(ts[..n], ts[n]);
      OneMore(Exits(ts[..n]), ts[n]);
      assert Exits(ts[..n]) + [] == Exits(ts[..n]);
    }
  }

  lemma {:induction false} LastOfExits(ts: seq<Trade>)
    ensures Exits(ts) != [] <==> AnyExit(ts)
    ensures forall i :: IsLastExit(ts, i) ==> Exits(ts) != [] && Exits(ts)[|Exits(ts)| - 1] == ts[i]
  {
    if ts != [] {
      hide *;
      var n := |ts| - 1;
      LastOfExits(ts[..n]);
      InExits(ts[n].action);
      assert ts == ts[..n] + [ts[n]];
      OneMore(ts[..n], ts[n]);
      LastExitMoves(ts);
    }
  }

  lemma LastExitMoves(ts: seq<Trade>)
    requires ts != []
    ensures var before, t := ts[..|ts| - 1], ts[|ts| - 1];
      && (AnyExit(ts) <==> AnyExit(before) || t.action in EXITS)
      && forall i :: IsLastExit(ts, i) ==>
           0 <= i < |ts| && if t.action in EXITS then i == |ts| - 1 else IsLastExit(before, i) && before[i] == ts[i]
  {
    var n := |ts| - 1;
    assert forall k :: 0 <= k < n ==> ts[..n][k] == ts[k];
  }

  // ------------------------------------------------------------------
  // What a reconciliation works out
  // ------------------------------------------------------------------

  /** The exits cover what was bought. */
  ghost predicate Closed(ts: seq<Trade>) { AnyExit(ts) && Contracts(ts, {Buy}) <= Contracts(ts, EXITS) }

  /** Nothing is worked out for a final row or without a buy; the call raises exactly when the exits, all empty, cover
      empty buys. */
  lemma WritesIff(existing: Option<Outcome>, trades: seq<Trade>, datePassed: bool, result: MarketResult)
    requires NonNegative(trades)
    ensures var p := Decide(existing, trades, datePassed, result);
      && (p.Nothing? <==>
            (existing.Some? && existing.value != Open) || forall i :: 0 <= i < |trades| ==> trades[i].action != Buy)
      && (p.Crashed? <==> !p.Nothing? && Closed(trades) && Contracts(trades, EXITS) == 0)
  {
    BuysTotal(trades);
    ExitsTotal(trades);
    LastOfExits(trades);
    hide Buys, Exits, Qty, Cost, Contracts, Value, Average, ComputePnl, AnyExit;
  }

  /** What is worked out says what was bought, at its floor average, and whether there was an exit. */
  lemma EntrySideIs(existing: Option<Outcome>, trades: seq<Trade>, datePassed: bool, result: MarketResult)
    requires NonNegative(trades) && Decide(existing, trades, datePassed, result).Write?
    ensures var d := Decide(existing, trades, datePassed, result).decision; var bought := Contracts(trades, {Buy});
      && d.entryQty == bought && (d.anyExit <==> AnyExit(trades))
      && if bought == 0 then d.entryAvg == 0 else FloorOf(d.entryAvg, Value(trades, {Buy}), bought)
  {
    hide Buys, Exits, Qty, Cost, Contracts, Value, AnyExit, FloorOf, Average, ComputePnl, NonNegative, IsExit;
    BuysTotal(trades);
    LastOfExits(trades);
    if Contracts(trades, {Buy}) > 0 { AverageFloors(Value(trades, {Buy}), Contracts(trades, {Buy})); }
  }

  /** A closed position is a stop-out when its last exit was one and closed out otherwise; its profit is that of what
      was bought, sold at the floor average of the exits. */
  lemma ClosedIs(existing: Option<Outcome>, trades: seq<Trade>, datePassed: bool, result: MarketResult, last: int)
    requires NonNegative(trades) && Decide(existing, trades, datePassed, result).Write? && Closed(trades)
    ensures var d := Decide(existing, trades, datePassed, result).decision; var sold := Contracts(trades, EXITS);
      && (IsLastExit(trades, last) ==> d.outcome == if trades[last].action == StopLoss then Stopped else ClosedOut)
      && d.exitQty == sold && d.exitAvg.Some? && FloorOf(d.exitAvg.value, Value(trades, EXITS), sold)
      && d.pnl == Some((d.exitAvg.value - d.entryAvg) * Contracts(trades, {Buy}))
  {
    hide Buys, Exits, Qty, Cost, Contracts, Value, AnyExit, FloorOf, Average, NonNegative, IsExit;
    BuysTotal(trades);
    ExitsTotal(trades);
    LastOfExits(trades);
    if Contracts(trades, EXITS) > 0 { AverageFloors(Value(trades, EXITS), Contracts(trades, EXITS)); }
  }

  /** For one that is not closed the market decides, once it has settled and the date has passed: the exits count at
      their floor average, and what was not sold at the settlement. */
  lemma SettledIs(existing: Option<Outcome>, trades: seq<Trade>, datePassed: bool, result: MarketResult, avg: int)
    requires NonNegative(trades) && Decide(existing, trades, datePassed, result).Write? && !Closed(trades)
    requires datePassed && result != Unresolved
    requires Contracts(trades, EXITS) > 0 ==> FloorOf(avg, Value(trades, EXITS), Contracts(trades, EXITS))
    ensures var d := Decide(existing, trades, datePassed, result).decision;
      var bought, sold := Contracts(trades, {Buy}), Contracts(trades, EXITS);
      var settle := if result == Yes then 100 else 0;
      && d.outcome == (if result == Yes then SettledWin else SettledLoss)
      && d.exitAvg == Some(settle) && d.exitQty == bought
      && d.pnl == Some((if sold > 0 then (avg - d.entryAvg) * sold else 0) + (settle - d.entryAvg) * (bought - sold))
  {
    hide *;
    var bought, sold := Contracts(trades, {Buy}), Contracts(trades, EXITS);
    SettledParts(existing, trades, datePassed, result);
    if sold > 0 {
      AverageFloors(Value(trades, EXITS), sold);
      FloorUnique(avg, Average(Value(trades, EXITS), sold), Value(trades, EXITS), sold);
    }
    var entry := Decide(existing, trades, datePassed, result).decision.entryAvg;
    ProfitIs(entry, avg, sold);
    ProfitIs(entry, if result == Yes then 100 else 0, bought - sold);
  }

  lemma SettledParts(existing: Option<Outcome>, trades: seq<Trade>, datePassed: bool, result: MarketResult)
    requires NonNegative(trades) && Decide(existing, trades, datePassed, result).Write? && !Closed(trades)
    requires datePassed && result != Unresolved
    ensures var d := Decide(existing, trades, datePassed, result).decision;
      var bought, sold := Contracts(trades, {Buy}), Contracts(trades, EXITS);
      var settle := if result == Yes then 100 else 0;
      && d.outcome == (if result == Yes then SettledWin else SettledLoss)
      && d.exitAvg == Some(settle) && d.exitQty == bought && sold >= 0
      && d.pnl == Some((if sold > 0 then ComputePnl(d.entryAvg, Average(Value(trades, EXITS), sold), sold) else 0)
                       + ComputePnl(d.entryAvg, settle, bought - sold))
  {
    hide Buys, Exits, Qty, Cost, Contracts, Value, AnyExit, FloorOf, Average, ComputePnl, NonNegative, IsExit;
    BuysTotal(trades);
    ExitsTotal(trades);
    SoldAtMost(trades);
    assert !(Exits(trades) != [] && Qty(Buys(trades)) - Qty(Exits(trades)) <= 0) by { LastOfExits(trades); }
    hide Closed;
  }

  lemma SoldAtMost(trades: seq<Trade>)
    requires NonNegative(trades) && !Closed(trades)
    ensures 0 <= Contracts(trades, EXITS) <= Contracts(trades, {Buy})
  {
    hide Buys, Exits, Cost, Contracts, Value, AnyExit;
    BuysTotal(trades);
    ExitsTotal(trades);
    LastOfExits(trades);
  }

  /** And otherwise the outcome stays, and there is no profit yet. */
  lemma UnsettledIs(existing: Option<Outcome>, trades: seq<Trade>, datePassed: bool, result: MarketResult)
    requires NonNegative(trades) && Decide(existing, trades, datePassed, result).Write? && !Closed(trades)
    requires !datePassed || result == Unresolved
    ensures var d := Decide(existing, trades, datePassed, result).decision; var sold := Contracts(trades, EXITS);
      && d.outcome == (if existing.Some? then existing.value else Open) && d.pnl.None? && d.exitQty == sold
      && if sold == 0 then d.exitAvg.None?
         else d.exitAvg.Some? && FloorOf(d.exitAvg.value, Value(trades, EXITS), sold)
  {
    hide Buys, Exits, Qty, Cost, Contracts, Value, AnyExit, FloorOf, Average, NonNegative, IsExit;
    BuysTotal(trades);
    ExitsTotal(trades);
    LastOfExits(trades);
    if Contracts(trades, EXITS) > 0 { AverageFloors(Value(trades, EXITS), Contracts(trades, EXITS)); }
  }

  lemma FloorUnique(a: int, b: int, total: int, qty: int)
    requires qty > 0 && FloorOf(a, total, qty) && FloorOf(b, total, qty)
    ensures a == b
  {
    FloorAtMost(a, b, total, qty);
    FloorAtMost(b, a, total, qty);
  }

  lemma FloorAtMost(a: int, b: int, total: int, qty: int)
    requires qty > 0 && a * qty <= total < (b + 1) * qty
    ensures a <= b
  {
    assert (a - b - 1) * qty == a * qty - (b + 1) * qty;
  }

  lemma AverageFloors(total: int, qty: int)
    requires qty > 0
    ensures FloorOf(Average(total, qty), total, qty)
  {
    DivIsFloor(total, qty);
  }

  lemma ProfitIs(entry: int, exit: int, qty: int)
    ensures ComputePnl(entry, exit, qty) == (exit - entry) * qty
    ensures ComputePnl(entry, exit, 0) == 0
  {}

  // ------------------------------------------------------------------
  // What is written
  // ------------------------------------------------------------------

  /** A new row takes the decision, with an exit quantity only if there was an exit or a settlement.  A row that
      exists takes the entry side and every part of the rest that the decision has, but OPEN does not reopen it. */
  lemma RowIs(now: Option<RowData>, d: Decision)
    ensures var r := Upserted(now, d);
      && r.entryAvg == d.entryAvg && r.entryQty == d.entryQty
      && (now.None? ==>
            && r.outcome == d.outcome && r.exitAvg == d.exitAvg && r.pnl == d.pnl
            && r.exitQty == if d.anyExit || d.outcome in {SettledWin, SettledLoss} then Some(d.exitQty) else None)
      && (now.Some? ==>
            && r.outcome == (if d.outcome == Open then now.value.outcome else d.outcome)
            && r.exitAvg == (if d.exitAvg == None then now.value.exitAvg else d.exitAvg)
            && r.exitQty == (if d.exitQty <= 0 then now.value.exitQty else Some(d.exitQty))
            && r.pnl == if d.pnl == None then now.value.pnl else d.pnl)
  {}

  /** A reconciliation writes its decision, and nothing when it reaches none. */
  lemma ReconciledIs(read: Option<Outcome>, now: Option<RowData>, trades: seq<Trade>, datePassed: bool,
                     result: MarketResult)
    requires NonNegative(trades)
    ensures var p := Decide(read, trades, datePassed, result);
      Reconciled(read, now, trades, datePassed, result) == if p.Write? then Some(Upserted(now, p.decision)) else now
  {}

  /** `avg` is the quotient rounded down, whatever the signs. */
  predicate RoundsDown(avg: int, total: int, qty: int) {
    if qty > 0 then FloorOf(avg, total, qty) else (avg + 1) * qty < total <= avg * qty
  }

  /** An entry opens the row.  A new one takes the fill; one with an entry side averages the fill into it, rounded down;
      nothing else of a row changes, its profit included. */
  lemma EntryIs(row: Option<RowData>, price: int, qty: int)
    ensures var r := EntryRecorded(row, price, qty);
      && r.outcome == Open
      && (row.None? ==> r.entryAvg == price && r.entryQty == qty && r.exitAvg == r.exitQty == r.pnl == None)
      && (row.Some? ==>
            && r.exitAvg == row.value.exitAvg && r.exitQty == row.value.exitQty && r.pnl == row.value.pnl
            && if row.value.entryQty == 0 || row.value.entryAvg == 0
               then r.entryAvg == row.value.entryAvg && r.entryQty == row.value.entryQty
               else
                 && r.entryQty == row.value.entryQty + qty
                 && if r.entryQty == 0 then r.entryAvg == price
                    else RoundsDown(r.entryAvg, row.value.entryAvg * row.value.entryQty + price * qty, r.entryQty))
  {
    if row.Some? {
      var total, sum := row.value.entryQty + qty, row.value.entryAvg * row.value.entryQty + price * qty;
      if total != 0 { DivRoundsDown(sum, total); }
    }
    hide RoundsDown, FloorDiv;
  }

  lemma DivRoundsDown(total: int, qty: int)
    requires qty != 0
    ensures RoundsDown(FloorDiv(total, qty), total, qty)
  {
    if qty > 0 {
      DivIsFloor(total, qty);
    } else {
      DivIsFloor(-total, -qty);
      var q := -total / -qty;
      assert q * -qty == -(q * qty) && (q + 1) * -qty == -((q + 1) * qty);
    }
  }

  /** An exit stops the row that exists out at its price, and counts a profit on the smaller of its quantity and the
      row's entry, or all of it when the row has none; an empty exit counts none. */
  lemma ExitIs(row: Option<RowData>, price: int, qty: int)
    ensures var r := ExitRecorded(row, price, qty);
      && (r.Some? <==> row.Some?)
      && (row.Some? ==>
            && r.value.outcome == Stopped && r.value.exitAvg == Some(price) && r.value.exitQty == Some(qty)
            && r.value.entryAvg == row.value.entryAvg && r.value.entryQty == row.value.entryQty
            && var used := if row.value.entryQty != 0 && row.value.entryQty < qty then row.value.entryQty else qty;
               r.value.pnl == if qty == 0 then None else Some((price - row.value.entryAvg) * used))
  {}
}
