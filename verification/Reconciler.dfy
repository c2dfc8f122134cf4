/** The settlement reconciler and the two other writers of an outcome row: realized profit from floor-averaged prices,
    and exactly when a row stays final and when it shows a profit. */
module Reconciler {
  import opened Common

  datatype Action = Buy | SellAction | StopLoss | HedgeAction

  datatype Trade = Trade(action: Action, price: int, quantity: int)

  datatype Outcome = Open | Stopped | ClosedOut | SettledWin | SettledLoss

  datatype MarketResult = Yes | No | Unresolved

  predicate IsFinal(o: Outcome) { !o.Open? }

  // ------------------------------------------------------------------
  // Totals
  // ------------------------------------------------------------------

  /** Recorded fills: an unfilled order is recorded with quantity zero. */
  ghost predicate NonNegative(ts: seq<Trade>) { forall i :: 0 <= i < |ts| ==> ts[i].quantity >= 0 }

  function Buys(ts: seq<Trade>): (r: seq<Trade>)
    ensures NonNegative(ts) ==> NonNegative(r)
  {
    if ts == [] then []
    else Buys(ts[..|ts| - 1]) + (if ts[|ts| - 1].action.Buy? then [ts[|ts| - 1]] else [])
  }

  predicate IsExit(t: Trade) { t.action.StopLoss? || t.action.SellAction? }

  function Exits(ts: seq<Trade>): (r: seq<Trade>)
    ensures NonNegative(ts) ==> NonNegative(r)
    ensures forall i :: 0 <= i < |r| ==> IsExit(r[i])
  {
    if ts == [] then []
    else Exits(ts[..|ts| - 1]) + (if IsExit(ts[|ts| - 1]) then [ts[|ts| - 1]] else [])
  }

  function Qty(ts: seq<Trade>): (r: int)
    ensures NonNegative(ts) ==> r >= 0
  {
    if ts == [] then 0 else Qty(ts[..|ts| - 1]) + ts[|ts| - 1].quantity
  }

  function Cost(ts: seq<Trade>): int {
    if ts == [] then 0 else Cost(ts[..|ts| - 1]) + ts[|ts| - 1].price * ts[|ts| - 1].quantity
  }

  /** Floor division, the average price in whole cents. */
  function Average(cost: int, qty: int): int
    requires qty > 0
  {
    cost / qty
  }

  function ClassifyExit(a: Action): Outcome { if a.StopLoss? then Stopped else ClosedOut }

  /** The settlement price a final outcome assumes for what was not sold. */
  function SettlePrice(o: Outcome): int { if o.SettledWin? then 100 else 0 }

  function ComputePnl(entry: int, exit: int, qty: int): int { (exit - entry) * qty }

  // ------------------------------------------------------------------
  // One reconciliation
  // ------------------------------------------------------------------

  /** What the reconciler has worked out and is about to write. */
  datatype Decision = Decision(
    outcome: Outcome,
    entryAvg: int,
    entryQty: int,
    exitAvg: Option<int>,
    exitQty: int,
    anyExit: bool,
    pnl: Option<int>)

  /** `Crashed`: the exit average is missing where the source multiplies with it, so the call raises. */
  datatype Plan = Nothing | Crashed | Write(decision: Decision)

  function Decide(existing: Option<Outcome>, trades: seq<Trade>, datePassed: bool, result: MarketResult): Plan
    requires NonNegative(trades)
  {
    var buys, exits := Buys(trades), Exits(trades);
    if (existing.Some? && IsFinal(existing.value)) || buys == [] then Nothing
    else
      var bought, exited := Qty(buys), Qty(exits);
      var entryAvg := if bought != 0 then Average(Cost(buys), bought) else 0;
      var exitAvg := if exited != 0 then Some(Average(Cost(exits), exited)) else None;
      var used := Min(bought, exited);
      var partial := if used > 0 && exitAvg.Some? then ComputePnl(entryAvg, exitAvg.value, used) else 0;
      var kept := if existing.Some? then existing.value else Open;
      if exits != [] && bought - exited <= 0 then
        if exitAvg.None? then Crashed
        else Write(Decision(ClassifyExit(exits[|exits| - 1].action), entryAvg, bought, exitAvg, exited, true,
                            Some(ComputePnl(entryAvg, exitAvg.value, used))))
      else if datePassed && !result.Unresolved? then
        var settle := if result.Yes? then 100 else 0;
        var remaining := Max(Min(bought, bought - exited), 0);
        Write(Decision(if result.Yes? then SettledWin else SettledLoss, entryAvg, bought, Some(settle),
                       used + remaining, exits != [], Some(partial + ComputePnl(entryAvg, settle, remaining))))
      else Write(Decision(kept, entryAvg, bought, exitAvg, exited, exits != [], None))
  }

  // ------------------------------------------------------------------
  // The outcome row
  // ------------------------------------------------------------------

  datatype RowData = RowData(outcome: Outcome, entryAvg: int, entryQty: int, exitAvg: Option<int>,
                             exitQty: Option<int>, pnl: Option<int>)

  function Inserted(d: Decision): RowData {
    RowData(d.outcome, d.entryAvg, d.entryQty, d.exitAvg,
            if d.anyExit || d.outcome.SettledWin? || d.outcome.SettledLoss? then Some(d.exitQty) else None, d.pnl)
  }

  function Updated(row: RowData, d: Decision): RowData {
    RowData(if IsFinal(d.outcome) || row.outcome.Open? then d.outcome else row.outcome,
            d.entryAvg, d.entryQty,
            if d.exitAvg.Some? then d.exitAvg else row.exitAvg,
            if d.exitQty > 0 then Some(d.exitQty) else row.exitQty,
            if d.pnl.Some? then d.pnl else row.pnl)
  }

  function Upserted(row: Option<RowData>, d: Decision): RowData {
    if row.Some? then Updated(row.value, d) else Inserted(d)
  }

  /** The row a reconciliation leaves, when it read outcome `read` and finds `now` at the time it writes. */
  function Reconciled(read: Option<Outcome>, now: Option<RowData>, trades: seq<Trade>, datePassed: bool,
                      result: MarketResult)
    : Option<RowData>
    requires NonNegative(trades)
  {
    match Decide(read, trades, datePassed, result)
    case Write(d) => Some(Upserted(now, d))
    case _ => now
  }

  // ------------------------------------------------------------------
  // The strategy's two writers
  // ------------------------------------------------------------------

  /** Division that rounds down, whatever the sign of the divisor. */
  function FloorDiv(a: int, b: int): int
    requires b != 0
  {
    if b > 0 then a / b else -a / -b
  }

  /** What the strategy writes after a filled entry: a new row, or a recovery entry averaged into the one there is,
      whose exit side and profit stay. */
  function EntryRecorded(row: Option<RowData>, price: int, qty: int): RowData {
    match row
    case None => RowData(Open, price, qty, None, None, None)
    case Some(r) =>
      if r.entryQty == 0 || r.entryAvg == 0 then r.(outcome := Open)
      else
        var total := r.entryQty + qty;
        var avg := if total != 0 then FloorDiv(r.entryAvg * r.entryQty + price * qty, total) else price;
        r.(outcome := Open, entryAvg := avg, entryQty := total)
  }

  function ExitProfit(row: RowData, price: int, qty: int): Option<int> {
    if qty == 0 then None
    else Some((price - row.entryAvg) * Min(if row.entryQty != 0 then row.entryQty else qty, qty))
  }

  /** What the strategy writes when an exit fills: price, quantity, STOPPED and the profit of a row that exists. */
  function ExitRecorded(row: Option<RowData>, price: int, qty: int): Option<RowData> {
    match row
    case None => None
    case Some(r) => Some(RowData(Stopped, r.entryAvg, r.entryQty, Some(price), Some(qty), ExitProfit(r, price, qty)))
  }

  /** A row that was final when first read is not touched. */
  lemma FinalRowUnchanged(read: Outcome, now: Option<RowData>, trades: seq<Trade>, datePassed: bool,
                          result: MarketResult)
    requires NonNegative(trades) && IsFinal(read)
    ensures Reconciled(Some(read), now, trades, datePassed, result) == now
  {}

  /** Whoever finalises the row between the read and the write, it is final afterwards; a decision of OPEN leaves its
      outcome and its profit exactly as the other writer set them. */
  lemma FinalStaysFinal(read: Option<Outcome>, now: RowData, trades: seq<Trade>, datePassed: bool, result: MarketResult)
    requires NonNegative(trades) && IsFinal(now.outcome)
    ensures var after := Reconciled(read, Some(now), trades, datePassed, result);
      && after.Some? && IsFinal(after.value.outcome)
      && (Decide(read, trades, datePassed, result).Write?
          && Decide(read, trades, datePassed, result).decision.outcome.Open? ==>
            after.value.outcome == now.outcome && after.value.pnl == now.pnl)
  {}

  /** A profit is written together with a final outcome, and never with OPEN. */
  lemma ProfitComesWithFinality(read: Option<Outcome>, trades: seq<Trade>, datePassed: bool, result: MarketResult)
    requires NonNegative(trades)
    ensures var p := Decide(read, trades, datePassed, result);
      p.Write? ==> (p.decision.pnl.Some? <==> IsFinal(p.decision.outcome))
  {}

  // ------------------------------------------------------------------
  // A row finalised between the read and the write
  // ------------------------------------------------------------------

  /** Nothing is written: the row was final when read, nothing was ever bought, or every recorded fill is empty. */
  ghost predicate NothingWritten(read: Option<Outcome>, trades: seq<Trade>)
    requires NonNegative(trades)
  {
    || (read.Some? && IsFinal(read.value))
    || Buys(trades) == []
    || (Exits(trades) != [] && Qty(Buys(trades)) == 0 == Qty(Exits(trades)))
  }

  /** The final outcome the trades and the market speak for; `None` while the position is open and not settled. */
  ghost function Verdict(trades: seq<Trade>, datePassed: bool, result: MarketResult): Option<Outcome> {
    if Exits(trades) != [] && Qty(Buys(trades)) <= Qty(Exits(trades))
    then Some(ClassifyExit(Exits(trades)[|Exits(trades)| - 1].action))
    else if datePassed && !result.Unresolved? then Some(if result.Yes? then SettledWin else SettledLoss)
    else None
  }

  ghost function EntryAverage(trades: seq<Trade>): int {
    var bought := Qty(Buys(trades)); if bought != 0 then Average(Cost(Buys(trades)), Max(bought, 1)) else 0
  }

  ghost function ExitAverage(trades: seq<Trade>): int {
    var exited := Qty(Exits(trades)); if exited != 0 then Average(Cost(Exits(trades)), Max(exited, 1)) else 0
  }

  /** The profit on what was sold and on what is settled, at the floor averages. */
  ghost function RecordedProfit(trades: seq<Trade>, verdict: Outcome): int {
    var bought, exited := Qty(Buys(trades)), Qty(Exits(trades));
    ComputePnl(EntryAverage(trades), ExitAverage(trades), Min(bought, exited))
    + (if verdict.SettledWin? || verdict.SettledLoss?
       then ComputePnl(EntryAverage(trades), SettlePrice(verdict), Max(bought - exited, 0)) else 0)
  }

  /** Exactly when a row that another writer finalised keeps its outcome and its profit: nothing is written, or the
      exits leave the position open and the market is not settled, or the verdict (the profit) is the one the row
      already has. */
  lemma RaceKeepsVerdictIff(read: Option<Outcome>, now: RowData, trades: seq<Trade>, datePassed: bool,
                            result: MarketResult)
    requires NonNegative(trades) && IsFinal(now.outcome)
    ensures var after := Reconciled(read, Some(now), trades, datePassed, result).value;
      var verdict := Verdict(trades, datePassed, result);
      && (after.outcome == now.outcome <==>
            NothingWritten(read, trades) || verdict.None? || verdict == Some(now.outcome))
      && (after.pnl == now.pnl <==>
            NothingWritten(read, trades) || verdict.None? || now.pnl == Some(RecordedProfit(trades, verdict.value)))
  {
    assert ComputePnl(EntryAverage(trades), ExitAverage(trades), 0) == 0;
    hide Buys, Exits, Cost, ComputePnl, Average;
  }

  /** Exactly when it keeps its averages: the entry side only when nothing is written or it is the same; the exit side
      also when nothing was sold and nothing is settled. */
  lemma RaceKeepsAveragesIff(read: Option<Outcome>, now: RowData, trades: seq<Trade>, datePassed: bool,
                             result: MarketResult)
    requires NonNegative(trades) && IsFinal(now.outcome)
    ensures var after := Reconciled(read, Some(now), trades, datePassed, result).value;
      var verdict := Verdict(trades, datePassed, result); var exited := Qty(Exits(trades));
      var settled := verdict.Some? && (verdict.value.SettledWin? || verdict.value.SettledLoss?);
      && (after.entryAvg == now.entryAvg && after.entryQty == now.entryQty <==>
            NothingWritten(read, trades)
            || (now.entryAvg == EntryAverage(trades) && now.entryQty == Qty(Buys(trades))))
      && (after.exitAvg == now.exitAvg <==>
            NothingWritten(read, trades) || (exited == 0 && !settled)
            || now.exitAvg == Some(if settled then SettlePrice(verdict.value) else ExitAverage(trades)))
  {
    hide Buys, Exits, Cost, ComputePnl, Average;
  }

  const BOUGHT_ONE := [Trade(Buy, 50, 1)]

  /** One contract bought at 50 is stopped out at 20 after the reconciler has read the open row but before the exit's
      trade row is seen; the market has settled at yes.  The recorded stop-out of -30 becomes a win of +50. */
  lemma RaceOverwritesStopOut()
    ensures var open := RowData(Open, 50, 1, None, None, None);
      var stopped := ExitRecorded(Some(open), 20, 1);
      && stopped == Some(RowData(Stopped, 50, 1, Some(20), Some(1), Some(-30))) && NonNegative(BOUGHT_ONE)
      && Reconciled(Some(Open), stopped, BOUGHT_ONE, true, Yes) ==
         Some(RowData(SettledWin, 50, 1, Some(100), Some(1), Some(50)))
  {
    assert BOUGHT_ONE[..0] == [] && Buys(BOUGHT_ONE) == BOUGHT_ONE && Exits(BOUGHT_ONE) == [];
    assert Qty(BOUGHT_ONE) == 1 && Cost(BOUGHT_ONE) == 50;
  }

  // ------------------------------------------------------------------
  // Runs
  // ------------------------------------------------------------------

  /** One write to the row: a reconciliation with whatever it had read, an entry, or an exit. */
  datatype Event =
    | Reconcile(read: Option<Outcome>, trades: seq<Trade>, datePassed: bool, result: MarketResult)
    | Entry(price: int, qty: int)
    | Exit(price: int, qty: int)

  ghost predicate Sane(e: Event) { e.Reconcile? ==> NonNegative(e.trades) }

  ghost predicate AllSane(es: seq<Event>) { forall i :: 0 <= i < |es| ==> Sane(es[i]) }

  function ApplyEvent(row: Option<RowData>, e: Event): Option<RowData>
    requires Sane(e)
  {
    match e
    case Reconcile(read, trades, datePassed, result) => Reconciled(read, row, trades, datePassed, result)
    case Entry(price, qty) => Some(EntryRecorded(row, price, qty))
    case Exit(price, qty) => ExitRecorded(row, price, qty)
  }

  ghost function RunEvents(row: Option<RowData>, es: seq<Event>): Option<RowData>
    requires AllSane(es)
  {
    if es == [] then row else ApplyEvent(RunEvents(row, es[..|es| - 1]), es[|es| - 1])
  }

  /** The event gives a row that exists a final outcome: an exit, or a reconciliation that writes and reaches a
      verdict. */
  ghost predicate WritesFinal(e: Event)
    requires Sane(e)
  {
    match e
    case Reconcile(read, trades, datePassed, result) =>
      !NothingWritten(read, trades) && Verdict(trades, datePassed, result).Some?
    case Entry(_, _) => false
    case Exit(_, _) => true
  }

  /** Nothing final is written after event `i`. */
  ghost predicate NoneFinal(es: seq<Event>, i: int)
    requires AllSane(es) && -1 <= i
  {
    forall j :: i < j < |es| ==> !WritesFinal(es[j])
  }

  /** The last entry came after the last final write. */
  ghost predicate EnteredLast(es: seq<Event>)
    requires AllSane(es)
  {
    exists i :: 0 <= i < |es| && es[i].Entry? && NoneFinal(es, i)
  }

  /** The last final write left a profit: only an exit of quantity zero leaves none. */
  ghost predicate ProfitLast(es: seq<Event>)
    requires AllSane(es)
  {
    exists i :: 0 <= i < |es| && WritesFinal(es[i]) && NoneFinal(es, i) && (es[i].Exit? ==> es[i].qty != 0)
  }

  /** One write, seen from the row it finds. */
  lemma EventMoves(row: RowData, e: Event)
    requires Sane(e)
    ensures var after := ApplyEvent(Some(row), e);
      && after.Some?
      && (after.value.outcome.Open? <==> e.Entry? || (row.outcome.Open? && !WritesFinal(e)))
      && (after.value.pnl.Some? <==>
            if WritesFinal(e) then (e.Exit? ==> e.qty != 0) else row.pnl.Some?)
  {
    hide Buys, Exits, Qty, Cost, ComputePnl, Average;
  }

  lemma NoneFinalStep(es: seq<Event>)
    requires AllSane(es) && es != []
    ensures var before, e := es[..|es| - 1], es[|es| - 1];
      forall i :: -1 <= i < |es| - 1 ==> (NoneFinal(es, i) <==> NoneFinal(before, i) && !WritesFinal(e))
  {
    hide WritesFinal;
    var n := |es| - 1;
    assert forall j :: 0 <= j < n ==> es[..n][j] == es[j];
    forall i | -1 <= i < n ensures NoneFinal(es, i) <==> NoneFinal(es[..n], i) && !WritesFinal(es[n]) {
      if NoneFinal(es, i) { assert !WritesFinal(es[n]); }
    }
  }

  lemma LastEvent(es: seq<Event>)
    requires AllSane(es) && es != []
    ensures var before, e := es[..|es| - 1], es[|es| - 1];
      && (EnteredLast(es) <==> e.Entry? || (EnteredLast(before) && !WritesFinal(e)))
      && (ProfitLast(es) <==> if WritesFinal(e) then (e.Exit? ==> e.qty != 0) else ProfitLast(before))
      && (NoneFinal(es, -1) <==> NoneFinal(before, -1) && !WritesFinal(e))
      && (e.Entry? ==> !WritesFinal(e))
  {
    assert es[|es| - 1].Entry? ==> !WritesFinal(es[|es| - 1]);
    hide WritesFinal;
    var n := |es| - 1;
    var before, e := es[..n], es[n];
    assert NoneFinal(es, n);
    NoneFinalStep(es);
  }

  /** Over any run of the three writers a row ends OPEN if and only if an entry came after the last final write, or it
      was OPEN and nothing final was written; and it ends with a profit if and only if its last final write left one,
      or it had one and nothing final was written. */
  lemma {:induction false} OutcomeIff(row: RowData, es: seq<Event>)
    requires AllSane(es)
    ensures var after := RunEvents(Some(row), es);
      && after.Some?
      && (after.value.outcome.Open? <==> EnteredLast(es) || (row.outcome.Open? && NoneFinal(es, -1)))
      && (after.value.pnl.Some? <==> ProfitLast(es) || (row.pnl.Some? && NoneFinal(es, -1)))
    decreases |es|
  {
    if es != [] {
      var n := |es| - 1;
      OutcomeIff(row, es[..n]);
      LastEvent(es);
      EventMoves(RunEvents(Some(row), es[..n]).value, es[n]);
      hide ApplyEvent, WritesFinal, EnteredLast, ProfitLast, NoneFinal;
    }
  }

  /** A final row is OPEN after a run if and only if an entry came after the run's last final write. */
  lemma ReopenedIff(row: RowData, es: seq<Event>)
    requires AllSane(es) && IsFinal(row.outcome)
    ensures var after := RunEvents(Some(row), es);
      after.Some? && (after.value.outcome.Open? <==> EnteredLast(es))
  {
    OutcomeIff(row, es);
  }

  /** A final row is final in every state of a run if and only if the run records no entry, whatever the reconciliations
      had read and whatever exits are recorded in between. */
  lemma FinalForGood(row: RowData, es: seq<Event>)
    requires AllSane(es) && IsFinal(row.outcome)
    ensures (forall k :: 0 <= k <= |es| ==>
               RunEvents(Some(row), es[..k]).Some? && IsFinal(RunEvents(Some(row), es[..k]).value.outcome))
        <==> forall i :: 0 <= i < |es| ==> !es[i].Entry?
  {
    hide ApplyEvent, WritesFinal;
    forall k | 0 <= k <= |es|
      ensures RunEvents(Some(row), es[..k]).Some?
      ensures IsFinal(RunEvents(Some(row), es[..k]).value.outcome) <==> !EnteredLast(es[..k])
    {
      ReopenedIff(row, es[..k]);
    }
    forall i | 0 <= i < |es| && es[i].Entry? ensures EnteredLast(es[..i + 1]) {
      assert es[..i + 1][i].Entry? && NoneFinal(es[..i + 1], i);
    }
  }

  /** A profit is shown with a final outcome only. */
  ghost predicate ProfitMeansFinal(row: Option<RowData>) { ShowsProfit(row) ==> IsFinal(row.value.outcome) }

  predicate ShowsProfit(row: Option<RowData>) { row.Some? && row.value.pnl.Some? }

  lemma EventStales(row: Option<RowData>, e: Event)
    requires Sane(e)
    ensures !ProfitMeansFinal(ApplyEvent(row, e)) <==>
      (e.Entry? && ShowsProfit(row)) || (!ProfitMeansFinal(row) && !WritesFinal(e))
  {
    if row.Some? {
      EventMoves(row.value, e);
    } else if e.Reconcile? {
      ProfitComesWithFinality(e.read, e.trades, e.datePassed, e.result);
      hide Decide;
    }
  }

  /** An entry was recorded on a row with a profit, and nothing final was written since. */
  ghost predicate EnteredOnProfit(row: Option<RowData>, es: seq<Event>)
    requires AllSane(es)
  {
    exists i :: 0 <= i < |es| && es[i].Entry? && ShowsProfit(RunEvents(row, es[..i])) && NoneFinal(es, i)
  }

  lemma EnteredOnProfitStep(row: Option<RowData>, es: seq<Event>)
    requires AllSane(es) && es != []
    ensures var before, e := es[..|es| - 1], es[|es| - 1];
      EnteredOnProfit(row, es) <==>
        (e.Entry? && ShowsProfit(RunEvents(row, before))) || (EnteredOnProfit(row, before) && !WritesFinal(e))
  {
    hide WritesFinal, RunEvents, ShowsProfit;
    var n := |es| - 1;
    var before, e := es[..n], es[n];
    assert NoneFinal(es, n);
    NoneFinalStep(es);
    assert forall i :: 0 <= i < n ==> before[i] == es[i] && before[..i] == es[..i];
  }

  /** Over any run of the three writers a row shows a profit while OPEN if and only if an entry was recorded on a row
      with a profit and nothing final has been written since. */
  lemma {:induction false} StaleProfitIff(row: Option<RowData>, es: seq<Event>)
    requires AllSane(es) && ProfitMeansFinal(row)
    ensures !ProfitMeansFinal(RunEvents(row, es)) <==> EnteredOnProfit(row, es)
    decreases |es|
  {
    if es != [] {
      var n := |es| - 1;
      StaleProfitIff(row, es[..n]);
      EventStales(RunEvents(row, es[..n]), es[n]);
      EnteredOnProfitStep(row, es);
      hide ApplyEvent, WritesFinal, ProfitMeansFinal, EnteredOnProfit;
    }
  }

  /** One contract bought at 50, stopped out at 20, and one bought again at 40; a reconciliation on the same day. */
  const RECOVERY := [
    Entry(50, 1), Exit(20, 1), Entry(40, 1),
    Reconcile(Some(Open), [Trade(Buy, 50, 1), Trade(StopLoss, 20, 1), Trade(Buy, 40, 1)], false, Unresolved)]

  lemma OneMore(ts: seq<Trade>, t: Trade)
    ensures Buys(ts + [t]) == Buys(ts) + (if t.action.Buy? then [t] else [])
    ensures Exits(ts + [t]) == Exits(ts) + (if t.action.StopLoss? || t.action.SellAction? then [t] else [])
    ensures Qty(ts + [t]) == Qty(ts) + t.quantity && Cost(ts + [t]) == Cost(ts) + t.price * t.quantity
    ensures Buys([]) == [] && Exits([]) == [] && Qty([]) == 0 && Cost([]) == 0
  {
    assert (ts + [t])[..|ts|] == ts;
  }

  lemma RecoveryTotals()
    ensures var trades := RECOVERY[3].trades;
      && Buys(trades) != [] && Exits(trades) != []
      && Qty(Buys(trades)) == 2 && Cost(Buys(trades)) == 90 && Qty(Exits(trades)) == 1 && Cost(Exits(trades)) == 20
  {
    hide Buys, Exits, Qty, Cost;
    var bought, stopped, again := Trade(Buy, 50, 1), Trade(StopLoss, 20, 1), Trade(Buy, 40, 1);
    var two, trades := [bought] + [stopped], [bought] + [stopped] + [again];
    assert [] + [bought] == [bought] && [] + [stopped] == [stopped] && RECOVERY[3].trades == trades;
    OneMore([], bought);
    OneMore([bought], stopped);
    OneMore(two, again);
    assert Buys(trades) == [bought] + [again] && Exits(trades) == [stopped];
    OneMore([bought], again);
    OneMore([], stopped);
  }

  /** The row of the position held shows the exit and the loss of the one before. */
  lemma RecoveryShowsOldLoss()
    ensures AllSane(RECOVERY)
    ensures RunEvents(None, RECOVERY[..2]) == Some(RowData(Stopped, 50, 1, Some(20), Some(1), Some(-30)))
    ensures RunEvents(None, RECOVERY) == Some(RowData(Open, 45, 2, Some(20), Some(1), Some(-30)))
  {
    RecoveryTotals();
    var es := RECOVERY;
    hide Buys, Exits, Qty, Cost;
    assert es[..4] == es && es[..3][..2] == es[..2] && es[..2][..1] == es[..1] && es[..1][..0] == [];
    assert RunEvents(None, es[..1]) == Some(RowData(Open, 50, 1, None, None, None));
    assert RunEvents(None, es[..2]) == Some(RowData(Stopped, 50, 1, Some(20), Some(1), Some(-30)));
    assert RunEvents(None, es[..3]) == Some(RowData(Open, 45, 2, Some(20), Some(1), Some(-30)));
    assert es == es[..3] + [es[3]];
  }

  /** The event leaves the verdict of a final row alone: a reconciliation that writes nothing, reaches no verdict, or
      reaches the one the row has; or an exit that was recorded already.  An entry never does. */
  ghost predicate Harmless(row: RowData, e: Event)
    requires Sane(e)
  {
    match e
    case Reconcile(read, trades, datePassed, result) =>
      var verdict := Verdict(trades, datePassed, result);
      || NothingWritten(read, trades) || verdict.None?
      || (verdict == Some(row.outcome) && row.pnl == Some(RecordedProfit(trades, verdict.value)))
    case Entry(_, _) => false
    case Exit(price, qty) => row.outcome.Stopped? && row.pnl == ExitProfit(row, price, qty)
  }

  /** Outcome and profit of a final row survive one event if and only if it is harmless. */
  lemma SurvivesIff(row: RowData, e: Event)
    requires IsFinal(row.outcome) && Sane(e)
    ensures var after := ApplyEvent(Some(row), e);
      after.Some? && (after.value.outcome == row.outcome && after.value.pnl == row.pnl <==> Harmless(row, e))
  {
    match e
    case Reconcile(read, trades, datePassed, result) =>
      RaceKeepsVerdictIff(read, row, trades, datePassed, result);
      FinalStaysFinal(read, row, trades, datePassed, result);
      hide Reconciled, RecordedProfit, Verdict, NothingWritten;
    case _ =>
  }

  /** Over any run each of whose events is harmless to the row it finds, a final row keeps its outcome and profit. */
  lemma {:induction false} VerdictForGood(row: RowData, es: seq<Event>)
    requires IsFinal(row.outcome) && AllSane(es)
    requires forall i :: 0 <= i < |es| ==>
      RunEvents(Some(row), es[..i]).Some? ==> Harmless(RunEvents(Some(row), es[..i]).value, es[i])
    ensures var after := RunEvents(Some(row), es);
      after.Some? && after.value.outcome == row.outcome && after.value.pnl == row.pnl
    decreases |es|
  {
    hide Harmless, ApplyEvent, NonNegative;
    if es != [] {
      var n := |es| - 1;
      assert forall i :: 0 <= i < n ==> es[..n][i] == es[i] && es[..n][..i] == es[..i];
      VerdictForGood(row, es[..n]);
      SurvivesIff(RunEvents(Some(row), es[..n]).value, es[n]);
    }
  }

  /** The events are reconciliations that each read the row as it then is. */
  ghost predicate Sequential(row: Option<RowData>, es: seq<Event>)
    requires AllSane(es)
  {
    forall i :: 0 <= i < |es| ==>
      && es[i].Reconcile?
      && es[i].read == (match RunEvents(row, es[..i]) case Some(r) => Some(r.outcome) case None => None)
  }

  /** Without a race a final row is never touched again: not its outcome, profit, averages or quantities. */
  lemma {:induction false} FinalRowIsFixed(row: RowData, es: seq<Event>)
    requires IsFinal(row.outcome) && AllSane(es) && Sequential(Some(row), es)
    ensures RunEvents(Some(row), es) == Some(row)
    decreases |es|
  {
    hide Reconciled, NonNegative, EntryRecorded, ExitRecorded;
    if es != [] {
      var n := |es| - 1;
      assert forall i :: 0 <= i < n ==> es[..n][i] == es[i] && es[..n][..i] == es[..i];
      FinalRowIsFixed(row, es[..n]);
      FinalRowUnchanged(row.outcome, Some(row), es[n].trades, es[n].datePassed, es[n].result);
    }
  }

  // ------------------------------------------------------------------
  // The reconciler itself
  // ------------------------------------------------------------------

  /** Entries and exits of the strategy. */
  ghost predicate ByStrategy(es: seq<Event>) { forall i :: 0 <= i < |es| ==> !es[i].Reconcile? }

  class OutcomeStore {
    var row: Option<RowData>

    constructor (row: Option<RowData>)
      ensures this.row == row
    {
      this.row := row;
    }

    /** The outcome row of a filled entry, created or updated. */
    method RecordEntry(price: int, qty: int)
      modifies this
      ensures row == Some(EntryRecorded(old(row), price, qty))
    {
      if row.None? {
        row := Some(RowData(Open, price, qty, None, None, None));
      } else {
        var r := row.value;
        if r.entryQty != 0 && r.entryAvg != 0 {
          var oldCost := r.entryAvg * r.entryQty;
          var newCost := price * qty;
          var newQty := r.entryQty + qty;
          r := r.(entryAvg := if newQty != 0 then FloorDiv(oldCost + newCost, newQty) else price, entryQty := newQty);
        }
        row := Some(r.(outcome := Open));
      }
    }

    /** The outcome row of a filled exit, when there is one. */
    method RecordExit(price: int, qty: int)
      modifies this
      ensures row == ExitRecorded(old(row), price, qty)
    {
      if row.None? {
        return;
      }
      var r := row.value;
      var pnl: Option<int> := None;
      if qty != 0 {
        var used := Min(if r.entryQty != 0 then r.entryQty else qty, qty);
        pnl := Some((price - r.entryAvg) * used);
      }
      row := Some(r.(exitAvg := Some(price), exitQty := Some(qty), outcome := Stopped, pnl := pnl));
    }

    /** What the strategy does to the row while the reconciler has no session open: any entries and exits, in any
        order. */
    method OthersWrite() returns (ghost es: seq<Event>)
      modifies this
      ensures ByStrategy(es) && AllSane(es) && row == RunEvents(old(row), es)
    {
      es := [];
      var more := 0;
      more :| 0 <= more;
      for i := 0 to more
        invariant ByStrategy(es) && AllSane(es) && row == RunEvents(old(row), es)
      {
        var entry: bool, price: int, qty: int := *, *, *;
        ghost var e := if entry then Entry(price, qty) else Exit(price, qty);
        assert (es + [e])[..|es|] == es;
        if entry {
          RecordEntry(price, qty);
        } else {
          RecordExit(price, qty);
        }
        es := es + [e];
      }
    }

    /** The field-by-field update of an existing row. */
    method UpdateRow(d: Decision)
      requires row.Some?
      modifies this
      ensures row == Some(Updated(old(row).value, d))
    {
      var r := row.value;
      if !d.outcome.Open? || r.outcome.Open? {
        r := r.(outcome := d.outcome);
      }
      r := r.(entryAvg := d.entryAvg, entryQty := d.entryQty);
      if d.exitAvg.Some? {
        r := r.(exitAvg := d.exitAvg);
      }
      if d.exitQty > 0 {
        r := r.(exitQty := Some(d.exitQty));
      }
      if d.pnl.Some? {
        r := r.(pnl := d.pnl);
      }
      row := Some(r);
    }

    /** Totals, averages and the outcome, for a row that is not final. */
    method WorkOut(existing: Option<Outcome>, trades: seq<Trade>, datePassed: bool, result: MarketResult)
        returns (plan: Plan)
      requires NonNegative(trades) && (existing.None? || existing.value.Open?)
      ensures plan == Decide(existing, trades, datePassed, result)
    {
      hide Buys, Exits, Qty, Cost, NonNegative;
      var buys := Buys(trades);
      var exits := Exits(trades);
      if buys == [] {
        return Nothing;
      }
      var bought, exited := Qty(buys), Qty(exits);
      var entryAvg := if bought != 0 then Cost(buys) / bought else 0;
      var exitAvg := if exited != 0 then Some(Cost(exits) / exited) else None;
      var net := bought - exited;
      var used := Min(bought, exited);
      var partial := 0;
      if used > 0 && exitAvg.Some? {
        partial := ComputePnl(entryAvg, exitAvg.value, used);
      }
      var outcome := Open;
      var pnl: Option<int> := None;
      var exitQty := exited;
      if exits != [] && net <= 0 {
        if exitAvg.None? {
          return Crashed;
        }
        outcome := ClassifyExit(exits[|exits| - 1].action);
        pnl := Some(ComputePnl(entryAvg, exitAvg.value, used));
      } else if datePassed && !result.Unresolved? {
        outcome := if result.Yes? then SettledWin else SettledLoss;
        var settle := if result.Yes? then 100 else 0;
        var remaining := Max(Min(bought, net), 0);
        var remainingPnl := if remaining > 0 then ComputePnl(entryAvg, settle, remaining) else 0;
        pnl := Some(partial + remainingPnl);
        exitQty := used + remaining;
        exitAvg := Some(settle);
      } else {
        outcome := if existing.Some? then existing.value else Open;
      }
      plan := Write(Decision(outcome, entryAvg, bought, exitAvg, exitQty, exits != [], pnl));
    }

    /** Reads the row, works out the outcome, and writes it to whatever the row has become meanwhile.  `crashed` reports
        an exception, after which nothing has been written. */
    method ReconcileOneMarket(trades: seq<Trade>, datePassed: bool, result: MarketResult)
      returns (crashed: bool, ghost between: seq<Event>)
      requires NonNegative(trades)
      modifies this
      ensures ByStrategy(between) && AllSane(between)
      ensures
        var read := match old(row) case Some(r) => Some(r.outcome) case None => None;
        row == Reconciled(read, RunEvents(old(row), between), trades, datePassed, result)
      ensures old(row).Some? && IsFinal(old(row).value.outcome) ==> row == old(row)
    {
      var existing := row;
      crashed, between := false, [];
      if existing.Some? && !existing.value.outcome.Open? {
        return;
      }
      var plan := WorkOut(if existing.Some? then Some(existing.value.outcome) else None, trades, datePassed, result);
      if !plan.Write? {
        crashed := plan.Crashed?;
        return;
      }
      var d := plan.decision;
      between := OthersWrite();
      if row.None? {
        row := Some(RowData(d.outcome, d.entryAvg, d.entryQty, d.exitAvg,
                            if d.anyExit || d.outcome.SettledWin? || d.outcome.SettledLoss? then Some(d.exitQty)
                                else None,
                            d.pnl));
      } else {
        UpdateRow(d);
      }
    }
  }

  // ------------------------------------------------------------------
  // The profit
  // ------------------------------------------------------------------

  lemma FloorError(cost: int, qty: int)
    requires qty > 0
    ensures Average(cost, qty) * qty == cost - cost % qty
  {
    assert cost == qty * (cost / qty) + cost % qty;
  }

  /** What really came in and went out: exit proceeds plus settlement of the rest, minus the purchases. */
  function CashPnl(trades: seq<Trade>, settle: int): int {
    CashOf(Cost(Buys(trades)), Qty(Buys(trades)), Cost(Exits(trades)), Qty(Exits(trades)), settle)
  }

  function CashOf(boughtCost: int, bought: int, exitCost: int, exited: int, settle: int): int {
    exitCost + settle * (bought - exited) - boughtCost
  }

  function Remainder(cost: int, qty: int): int { if qty > 0 then cost % qty else 0 }

  /** The written profit in terms of the two averages. */
  lemma WrittenPnl(existing: Option<Outcome>, trades: seq<Trade>, datePassed: bool, result: MarketResult)
    requires NonNegative(trades) && 0 < Qty(Buys(trades)) && Qty(Exits(trades)) <= Qty(Buys(trades))
    requires Decide(existing, trades, datePassed, result).Write?
    requires Decide(existing, trades, datePassed, result).decision.pnl.Some?
    ensures var d := Decide(existing, trades, datePassed, result).decision;
      var bought, exited := Qty(Buys(trades)), Qty(Exits(trades));
      var entry := Average(Cost(Buys(trades)), bought);
      var exit := if exited > 0 then Average(Cost(Exits(trades)), exited) else 0;
      d.pnl.value == ComputePnl(entry, exit, exited) + ComputePnl(entry, SettlePrice(d.outcome), bought - exited)
  {
    hide Buys, Exits, Qty, Cost, Average, ClassifyExit, ComputePnl, NonNegative;
    var bought, exited := Qty(Buys(trades)), Qty(Exits(trades));
    var entry := Average(Cost(Buys(trades)), bought);
    var d := Decide(existing, trades, datePassed, result).decision;
    NothingNoPnl(entry, 0);
    NothingNoPnl(entry, SettlePrice(d.outcome));
    assert Min(bought, exited) == exited && Max(Min(bought, bought - exited), 0) == bought - exited;
  }

  lemma NothingNoPnl(entry: int, price: int)
    ensures ComputePnl(entry, price, 0) == 0
  {}

  lemma ErrorArithmetic(boughtCost: int, bought: int, exitCost: int, exited: int, settle: int)
    requires 0 < bought && 0 <= exited <= bought && (exited == 0 ==> exitCost == 0)
    ensures var entry := Average(boughtCost, bought); var exit := if exited > 0 then Average(exitCost, exited) else 0;
      ComputePnl(entry, exit, exited) + ComputePnl(entry, settle, bought - exited)
        - CashOf(boughtCost, bought, exitCost, exited, settle)
      == Remainder(boughtCost, bought) - Remainder(exitCost, exited)
  {
    FloorError(boughtCost, bought);
    if exited > 0 { FloorError(exitCost, exited); }
    var entry, exit := Average(boughtCost, bought), if exited > 0 then Average(exitCost, exited) else 0;
    hide Average;
    assert ComputePnl(entry, exit, exited) == exit * exited - entry * exited;
    assert ComputePnl(entry, settle, bought - exited) == settle * (bought - exited) - entry * bought + entry * exited;
  }

  /** For full exits and for early exits followed by settlement alike, the recorded profit misses the cash profit by
      exactly the two remainders the floor averages dropped. */
  lemma PnlErrorExact(existing: Option<Outcome>, trades: seq<Trade>, datePassed: bool, result: MarketResult)
    requires NonNegative(trades) && 0 < Qty(Buys(trades)) && Qty(Exits(trades)) <= Qty(Buys(trades))
    requires Decide(existing, trades, datePassed, result).Write?
    requires Decide(existing, trades, datePassed, result).decision.pnl.Some?
    ensures var d := Decide(existing, trades, datePassed, result).decision;
      d.pnl.value - CashPnl(trades, SettlePrice(d.outcome)) ==
      Remainder(Cost(Buys(trades)), Qty(Buys(trades))) - Remainder(Cost(Exits(trades)), Qty(Exits(trades)))
  {
    hide Decide, Average, Remainder, ComputePnl, CashOf, Buys, Exits, Qty, Cost, NonNegative;
    WrittenPnl(existing, trades, datePassed, result);
    NoExitsNoCost(trades);
    var d := Decide(existing, trades, datePassed, result).decision;
    ErrorArithmetic(Cost(Buys(trades)), Qty(Buys(trades)), Cost(Exits(trades)), Qty(Exits(trades)),
                    SettlePrice(d.outcome));
  }

  /** Exits of quantity zero cost nothing when no quantity is negative. */
  lemma {:induction false} NoQuantityNoCost(ts: seq<Trade>)
    requires NonNegative(ts) && Qty(ts) == 0
    ensures Cost(ts) == 0
  {
    if ts != [] { NoQuantityNoCost(ts[..|ts| - 1]); }
  }

  lemma NoExitsNoCost(trades: seq<Trade>)
    requires NonNegative(trades)
    ensures 0 <= Qty(Exits(trades)) && (Qty(Exits(trades)) == 0 ==> Cost(Exits(trades)) == 0)
  {
    if Qty(Exits(trades)) == 0 { NoQuantityNoCost(Exits(trades)); }
  }

  /** The error stays strictly between minus the exited and the bought quantity, in cents, and is not negative when
      nothing was exited. */
  lemma PnlErrorBound(existing: Option<Outcome>, trades: seq<Trade>, datePassed: bool, result: MarketResult)
    requires NonNegative(trades) && 0 < Qty(Buys(trades)) && Qty(Exits(trades)) <= Qty(Buys(trades))
    requires Decide(existing, trades, datePassed, result).Write?
    requires Decide(existing, trades, datePassed, result).decision.pnl.Some?
    ensures var d := Decide(existing, trades, datePassed, result).decision;
      var error := d.pnl.value - CashPnl(trades, SettlePrice(d.outcome));
      && error < Qty(Buys(trades))
      && (if Qty(Exits(trades)) > 0 then -Qty(Exits(trades)) < error else 0 <= error)
  {
    PnlErrorExact(existing, trades, datePassed, result);
  }
}
