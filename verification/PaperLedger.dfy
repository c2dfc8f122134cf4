/** The simulated executor: cash, positions with a floor-averaged entry price, and resting buys that reserve cash. */
module PaperLedger {
  import opened Common

  datatype Position = Position(quantity: int, avg: int)

  datatype Resting = Resting(ticker: string, bid: int, remaining: int, reserved: int)

  /** A resting order's id is the clock in milliseconds together with the ticker. */
  datatype OrderId = OrderId(ms: int, ticker: string)

  datatype Result = Rejected | Filled(price: int, quantity: int) | RestingAt(id: OrderId)

  datatype FillInfo = NotFound | StillResting | FilledInfo(quantity: int, price: int)

  datatype Ledger = Ledger(balance: int, positions: map<string, Position>, resting: map<OrderId, Resting>)

  // ------------------------------------------------------------------
  // The ledger operations
  // ------------------------------------------------------------------

  function FloorAverage(oldCost: int, newCost: int, qty: int): int
    requires qty > 0
  {
    (oldCost + newCost) / qty
  }

  /** Adds bought contracts to a position. */
  function AddTo(positions: map<string, Position>, t: string, price: int, qty: int): map<string, Position>
    requires qty > 0 && (t in positions ==> positions[t].quantity > 0)
  {
    if t in positions then
      var p := positions[t];
      positions[t := Position(p.quantity + qty, FloorAverage(p.avg * p.quantity, price * qty, p.quantity + qty))]
    else positions[t := Position(qty, price)]
  }

  function HeldQty(positions: map<string, Position>, t: string): int {
    if t in positions then Max(positions[t].quantity, 0) else 0
  }

  /** The price a marketable buy fills at: the best ask when it is at or below the limit. */
  function BuyFill(limit: int, topAsk: Option<int>): (r: int)
    ensures r <= limit && (topAsk.Some? && topAsk.value <= limit ==> r == topAsk.value)
  {
    if topAsk.Some? && topAsk.value <= limit then topAsk.value else limit
  }

  function SellFill(limit: int, topBid: Option<int>): (r: int)
    ensures r >= limit
  {
    if topBid.Some? then Max(limit, topBid.value) else limit
  }

  predicate BuyBlocked(l: Ledger, t: string, price: int, qty: int, maxQty: Option<int>, maxPrice: Option<int>) {
    || (maxQty.Some? && (qty > maxQty.value || HeldQty(l.positions, t) + qty > maxQty.value))
    || (maxPrice.Some? && price > maxPrice.value)
  }

  function Buy(l: Ledger, t: string, price: int, qty: int, maxQty: Option<int>, maxPrice: Option<int>,
               topAsk: Option<int>)
    : (Ledger, Result)
    requires qty > 0 && (t in l.positions ==> l.positions[t].quantity > 0)
  {
    var fill := BuyFill(price, topAsk);
    if BuyBlocked(l, t, price, qty, maxQty, maxPrice) || l.balance < fill * qty then (l, Rejected)
    else (l.(balance := l.balance - fill * qty, positions := AddTo(l.positions, t, fill, qty)), Filled(fill, qty))
  }

  function Sell(l: Ledger, t: string, price: int, qty: int, topBid: Option<int>): (Ledger, Result) {
    var fill := SellFill(price, topBid);
    if t !in l.positions || l.positions[t].quantity < qty then (l, Rejected)
    else
      var left := l.positions[t].quantity - qty;
      (l.(balance := l.balance + fill * qty,
          positions := if left == 0 then l.positions - {t} else l.positions[t := l.positions[t].(quantity := left)]),
       Filled(fill, qty))
  }

  function PlaceBuy(l: Ledger, t: string, price: int, qty: int, ms: int): (Ledger, Result) {
    if l.balance < price * qty then (l, Rejected)
    else
      var id := OrderId(ms, t);
      (l.(balance := l.balance - price * qty, resting := l.resting[id := Resting(t, price, qty, price * qty)]),
       RestingAt(id))
  }

  function Cancel(l: Ledger, id: OrderId): Ledger {
    if id in l.resting then l.(balance := l.balance + l.resting[id].reserved, resting := l.resting - {id}) else l
  }

  function Poll(l: Ledger, id: OrderId, topAsk: Option<int>): (Ledger, FillInfo)
    requires id in l.resting ==> l.resting[id].remaining > 0
    requires id in l.resting && l.resting[id].ticker in l.positions ==> l.positions[l.resting[id].ticker].quantity > 0
  {
    if id !in l.resting then (l, NotFound)
    else
      var r := l.resting[id];
      if topAsk.Some? && topAsk.value <= r.bid then
        (l.(balance := l.balance + r.reserved - topAsk.value * r.remaining,
            positions := AddTo(l.positions, r.ticker, topAsk.value, r.remaining),
            resting := l.resting - {id}),
         FilledInfo(r.remaining, topAsk.value))
      else (l, StillResting)
  }

  // ------------------------------------------------------------------
  // Conservation
  // ------------------------------------------------------------------

  ghost function Reserved(l: Ledger): int { Sum(map id | id in l.resting :: l.resting[id].reserved) }

  /** Cash together with what is reserved for resting orders. */
  ghost function Equity(l: Ledger): int { l.balance + Reserved(l) }

  ghost predicate Sound(l: Ledger) {
    && l.balance >= 0
    && (forall id :: id in l.resting ==>
          var r := l.resting[id]; r.remaining > 0 && r.bid >= 0 && r.reserved == r.bid * r.remaining)
    && (forall t :: t in l.positions ==> l.positions[t].quantity > 0)
  }

  lemma ReservedInsert(l: Ledger, id: OrderId, r: Resting)
    ensures Reserved(l.(resting := l.resting[id := r])) ==
            Reserved(l) + r.reserved - (if id in l.resting then l.resting[id].reserved else 0)
  {
    var m := map i | i in l.resting :: l.resting[i].reserved;
    SumUpdate(m, id, r.reserved);
    var after := l.resting[id := r];
    assert m[id := r.reserved] == map i | i in after :: after[i].reserved;
  }

  lemma ReservedRemove(l: Ledger, id: OrderId)
    requires id in l.resting
    ensures Reserved(l.(resting := l.resting - {id})) == Reserved(l) - l.resting[id].reserved
  {
    var m := map i | i in l.resting :: l.resting[i].reserved;
    SumTake(m, id);
    assert m - {id} == map i | i in l.resting - {id} :: (l.resting - {id})[i].reserved;
  }

  lemma ProductMonotone(a: int, b: int, n: int)
    requires a <= b && n >= 0
    ensures a * n <= b * n
  {}

  /** A marketable buy turns exactly its fill cost from cash into contracts. */
  lemma BuyConserves(l: Ledger, t: string, price: int, qty: int, maxQty: Option<int>, maxPrice: Option<int>,
                     topAsk: Option<int>)
    requires Sound(l) && qty > 0
    ensures var (l', r) := Buy(l, t, price, qty, maxQty, maxPrice, topAsk);
      && Sound(l')
      && Equity(l') == Equity(l) - (if r.Filled? then r.price * r.quantity else 0)
      && HeldQty(l'.positions, t) == HeldQty(l.positions, t) + (if r.Filled? then r.quantity else 0)
  {}

  lemma SellConserves(l: Ledger, t: string, price: int, qty: int, topBid: Option<int>)
    requires Sound(l) && qty > 0 && price >= 0
    ensures var (l', r) := Sell(l, t, price, qty, topBid);
      && Sound(l')
      && Equity(l') == Equity(l) + (if r.Filled? then r.price * r.quantity else 0)
      && HeldQty(l'.positions, t) == HeldQty(l.positions, t) - (if r.Filled? then r.quantity else 0)
  {
    ProductMonotone(0, SellFill(price, topBid), qty);
  }

  /** A resting buy conserves cash plus reservations if and only if it is rejected, its id is fresh, or the order it
      overwrites had nothing reserved: ids are a millisecond clock and a ticker, so two in one millisecond collide. */
  lemma PlaceBuyConservesIff(l: Ledger, t: string, price: int, qty: int, ms: int)
    requires Sound(l) && qty > 0 && price >= 0
    ensures Sound(PlaceBuy(l, t, price, qty, ms).0)
    ensures Equity(PlaceBuy(l, t, price, qty, ms).0) == Equity(l) <==>
            l.balance < price * qty || OrderId(ms, t) !in l.resting || l.resting[OrderId(ms, t)].reserved == 0
  {
    var placed := l.(resting := l.resting[OrderId(ms, t) := Resting(t, price, qty, price * qty)]);
    ReservedInsert(l, OrderId(ms, t), Resting(t, price, qty, price * qty));
    assert PlaceBuy(l, t, price, qty, ms).1.RestingAt? ==>
        Reserved(PlaceBuy(l, t, price, qty, ms).0) == Reserved(placed);
  }

  lemma CancelConserves(l: Ledger, id: OrderId)
    requires Sound(l)
    ensures Sound(Cancel(l, id)) && Equity(Cancel(l, id)) == Equity(l) && id !in Cancel(l, id).resting
  {
    if id in l.resting {
      ReservedRemove(l, id);
      assert Reserved(Cancel(l, id)) == Reserved(l.(resting := l.resting - {id}));
      ProductMonotone(0, l.resting[id].bid, l.resting[id].remaining);
    }
  }

  /** A resting fill pays the ask and refunds the rest of its reservation. */
  lemma PollConserves(l: Ledger, id: OrderId, topAsk: Option<int>)
    requires Sound(l)
    ensures var (l', r) := Poll(l, id, topAsk);
      && Sound(l')
      && Equity(l') == Equity(l) - (if r.FilledInfo? then r.price * r.quantity else 0)
  {
    if id in l.resting && topAsk.Some? && topAsk.value <= l.resting[id].bid {
      ReservedRemove(l, id);
      ProductMonotone(topAsk.value, l.resting[id].bid, l.resting[id].remaining);
      assert Reserved(Poll(l, id, topAsk).0) == Reserved(l.(resting := l.resting - {id}));
    }
  }

  // ------------------------------------------------------------------
  // What each operation leaves, field by field
  // ------------------------------------------------------------------

  /** The position of a market once `qty` contracts are bought for `price`: the others stay. */
  ghost predicate Grown(before: map<string, Position>, after: map<string, Position>, t: string, price: int, qty: int) {
    && after.Keys == before.Keys + {t} && (forall u :: u in before && u != t ==> after[u] == before[u])
    && if t in before
       then
         && after[t].quantity == before[t].quantity + qty
         && FloorOf(after[t].avg, before[t].avg * before[t].quantity + price * qty, before[t].quantity + qty)
       else after[t].quantity == qty && after[t].avg == price
  }

  lemma AddGrows(positions: map<string, Position>, t: string, price: int, qty: int)
    requires qty > 0 && (t in positions ==> positions[t].quantity > 0)
    ensures Grown(positions, AddTo(positions, t, price, qty), t, price, qty)
  {
    if t in positions {
      var p := positions[t];
      DivIsFloor(p.avg * p.quantity + price * qty, p.quantity + qty);
    }
  }

  /** A buy is refused exactly when it is over the contract cap, counting what is held, or over the price cap, or not
      covered by the cash at its fill: the best ask when that is under the limit, and the limit otherwise. */
  lemma BuyLeaves(l: Ledger, t: string, price: int, qty: int, maxQty: Option<int>, maxPrice: Option<int>,
                  topAsk: Option<int>)
    requires qty > 0 && (t in l.positions ==> l.positions[t].quantity > 0)
    ensures var (l', r) := Buy(l, t, price, qty, maxQty, maxPrice, topAsk);
      var held := if t in l.positions then l.positions[t].quantity else 0;
      var fill := if topAsk.Some? && topAsk.value < price then topAsk.value else price;
      if || (maxQty.Some? && maxQty.value < held + qty) || (maxPrice.Some? && maxPrice.value < price)
         || l.balance < fill * qty
      then l' == l && r == Rejected
      else
        && r == Filled(fill, qty) && l'.balance + fill * qty == l.balance && l'.resting == l.resting
        && Grown(l.positions, l'.positions, t, fill, qty)
  {
    hide AddTo, Grown;
    var fill := if topAsk.Some? && topAsk.value < price then topAsk.value else price;
    AddGrows(l.positions, t, fill, qty);
  }

  /** A sell is refused exactly when fewer contracts are held; it fills at the best bid when that is above the limit,
      and a position that is sold out is dropped. */
  lemma SellLeaves(l: Ledger, t: string, price: int, qty: int, topBid: Option<int>)
    ensures var (l', r) := Sell(l, t, price, qty, topBid);
      var fill := if topBid.Some? && price < topBid.value then topBid.value else price;
      if t !in l.positions || l.positions[t].quantity < qty
      then l' == l && r == Rejected
      else
        && r == Filled(fill, qty) && l'.balance == l.balance + fill * qty && l'.resting == l.resting
        && (forall u :: u in l.positions && u != t ==> u in l'.positions && l'.positions[u] == l.positions[u])
        && (forall u :: u in l'.positions ==> u in l.positions)
        && (t in l'.positions <==> qty != l.positions[t].quantity)
        && (t in l'.positions ==>
              && l'.positions[t].quantity + qty == l.positions[t].quantity
              && l'.positions[t].avg == l.positions[t].avg)
  {}

  /** A placed buy reserves its whole cost, and is refused exactly when the cash does not cover that; a cancel gives the
      reservation back and drops the order. */
  lemma OrderLeaves(l: Ledger, t: string, price: int, qty: int, ms: int, id: OrderId)
    ensures var (l', r) := PlaceBuy(l, t, price, qty, ms);
      if l.balance < price * qty
      then l' == l && r == Rejected
      else
        && r == RestingAt(OrderId(ms, t)) && l'.balance + price * qty == l.balance && l'.positions == l.positions
        && l'.resting.Keys == l.resting.Keys + {r.id} && l'.resting[r.id] == Resting(t, price, qty, price * qty)
        && forall i :: i in l.resting && i != r.id ==> l'.resting[i] == l.resting[i]
    ensures var l' := Cancel(l, id);
      && l'.positions == l.positions && l'.resting == l.resting - {id}
      && l'.balance - l.balance == if id in l.resting then l.resting[id].reserved else 0
  {}

  /** A poll fills a resting order exactly when the best ask is at its bid or under: then the order is gone, its
      contracts are held, and of its reservation what they cost at the ask is spent. */
  lemma PollLeaves(l: Ledger, id: OrderId, topAsk: Option<int>)
    requires Sound(l)
    ensures var (l', r) := Poll(l, id, topAsk);
      if id in l.resting && topAsk.Some? && topAsk.value <= l.resting[id].bid
      then
        var order := l.resting[id];
        && r == FilledInfo(order.remaining, topAsk.value) && l'.resting == l.resting - {id}
        && l'.balance == l.balance + order.reserved - topAsk.value * order.remaining
        && Grown(l.positions, l'.positions, order.ticker, topAsk.value, order.remaining)
      else l' == l && r == if id in l.resting then StillResting else NotFound
  {
    hide AddTo, Grown;
    if id in l.resting && topAsk.Some? {
      AddGrows(l.positions, l.resting[id].ticker, topAsk.value, l.resting[id].remaining);
    }
  }

  // ------------------------------------------------------------------
  // Whole runs
  // ------------------------------------------------------------------

  datatype Op =
    | BuyOp(ticker: string, price: int, qty: int, maxQty: Option<int>, maxPrice: Option<int>, topAsk: Option<int>)
    | SellOp(ticker: string, price: int, qty: int, topBid: Option<int>)
    | PlaceOp(ticker: string, price: int, qty: int, ms: int)
    | CancelOp(id: OrderId)
    | PollOp(id: OrderId, topAsk: Option<int>)

  /** Orders are for at least one contract at a price that is not negative. */
  predicate WellFormedOp(op: Op) {
    match op
    case BuyOp(_, _, qty, _, _, _) => qty > 0
    case SellOp(_, price, qty, _) => qty > 0 && price >= 0
    case PlaceOp(_, price, qty, _) => qty > 0 && price >= 0
    case _ => true
  }

  /** A fill: what it costs (negative for a sale) and which position it changes. */
  datatype Trade = Bought(ticker: string, price: int, qty: int) | Sold(ticker: string, price: int, qty: int)

  function Apply(l: Ledger, op: Op): (Ledger, Option<Trade>)
    requires Sound(l) && WellFormedOp(op)
  {
    match op
    case BuyOp(t, price, qty, maxQty, maxPrice, topAsk) =>
      var (l', r) := Buy(l, t, price, qty, maxQty, maxPrice, topAsk);
      (l', if r.Filled? then Some(Bought(t, r.price, r.quantity)) else None)
    case SellOp(t, price, qty, topBid) =>
      var (l', r) := Sell(l, t, price, qty, topBid);
      (l', if r.Filled? then Some(Sold(t, r.price, r.quantity)) else None)
    case PlaceOp(t, price, qty, ms) => (PlaceBuy(l, t, price, qty, ms).0, None)
    case CancelOp(id) => (Cancel(l, id), None)
    case PollOp(id, topAsk) =>
      var (l', r) := Poll(l, id, topAsk);
      (l', if r.FilledInfo? then Some(Bought(l.resting[id].ticker, r.price, r.quantity)) else None)
  }

  function Paid(t: Option<Trade>): int {
    match t
    case None => 0
    case Some(Bought(_, price, qty)) => price * qty
    case Some(Sold(_, price, qty)) => -(price * qty)
  }

  /** Placements never reuse the id of an order that still has cash reserved. */
  predicate FreshId(l: Ledger, op: Op) {
    op.PlaceOp? ==> OrderId(op.ms, op.ticker) !in l.resting || l.resting[OrderId(op.ms, op.ticker)].reserved == 0
  }

  lemma ApplySound(l: Ledger, op: Op)
    requires Sound(l) && WellFormedOp(op)
    ensures Sound(Apply(l, op).0)
    ensures FreshId(l, op) ==> Equity(Apply(l, op).0) == Equity(l) - Paid(Apply(l, op).1)
  {
    match op
    case BuyOp(t, price, qty, maxQty, maxPrice, topAsk) => BuyConserves(l, t, price, qty, maxQty, maxPrice, topAsk);
    case SellOp(t, price, qty, topBid) => SellConserves(l, t, price, qty, topBid);
    case PlaceOp(t, price, qty, ms) => PlaceBuyConservesIff(l, t, price, qty, ms);
    case CancelOp(id) => CancelConserves(l, id);
    case PollOp(id, topAsk) => PollConserves(l, id, topAsk);
  }

  ghost predicate GoodRun(l: Ledger, ops: seq<Op>)
    requires Sound(l)
    decreases |ops|
  {
    ops == [] ||
    (WellFormedOp(ops[0]) && FreshId(l, ops[0]) && (ApplySound(l, ops[0]); GoodRun(Apply(l, ops[0]).0, ops[1..])))
  }

  /** The final ledger and everything paid, net of sale proceeds. */
  ghost function Run(l: Ledger, ops: seq<Op>): (Ledger, int)
    requires Sound(l) && GoodRun(l, ops)
    decreases |ops|
  {
    if ops == [] then (l, 0)
    else
      var (l', trade) := Apply(l, ops[0]);
      ApplySound(l, ops[0]);
      var (last, paid) := Run(l', ops[1..]);
      (last, Paid(trade) + paid)
  }

  /** After any run with fresh ids: balance plus reserved cash equals the starting total minus fill costs plus sale
      proceeds, the balance is not negative, and every reservation equals bid times remaining. */
  lemma {:induction false} LedgerConserved(l: Ledger, ops: seq<Op>)
    requires Sound(l) && GoodRun(l, ops)
    ensures Equity(Run(l, ops).0) == Equity(l) - Run(l, ops).1
    ensures Sound(Run(l, ops).0)
    decreases |ops|
  {
    if ops != [] {
      ApplySound(l, ops[0]);
      LedgerConserved(Apply(l, ops[0]).0, ops[1..]);
    }
  }

  // ------------------------------------------------------------------
  // The averaged entry price
  // ------------------------------------------------------------------

  /** A floor average lies between the bounds of what it averages. */
  lemma FloorAverageBetween(avg: int, q: int, price: int, n: int, lo: int, hi: int)
    requires q > 0 && n > 0 && lo <= avg <= hi && lo <= price <= hi
    ensures lo <= FloorAverage(avg * q, price * n, q + n) <= hi
  {
    var total, all := avg * q + price * n, q + n;
    ProductMonotone(lo, avg, q);
    ProductMonotone(avg, hi, q);
    ProductMonotone(lo, price, n);
    ProductMonotone(price, hi, n);
    assert lo * all <= total <= hi * all;
    DivBetween(total, all, lo, hi);
  }

  lemma DivBetween(total: int, all: int, lo: int, hi: int)
    requires all > 0 && lo * all <= total <= hi * all
    ensures lo <= total / all <= hi
  {
    var q, r := total / all, total % all;
    assert total == q * all + r;
    if q < lo { ProductMonotone(q + 1, lo, all); }
    if q > hi { ProductMonotone(hi + 1, q, all); }
  }

  /** The fill prices of a position since it was last opened. */
  function Since(prices: map<string, seq<int>>, l': Ledger, trade: Option<Trade>): map<string, seq<int>> {
    match trade
    case None => prices
    case Some(Bought(t, price, _)) => prices[t := (if t in prices then prices[t] else []) + [price]]
    case Some(Sold(t, _, _)) => if t in l'.positions then prices else prices - {t}
  }

  ghost predicate Within(prices: seq<int>, x: int) {
    (exists i :: 0 <= i < |prices| && prices[i] <= x) && (exists i :: 0 <= i < |prices| && x <= prices[i])
  }

  ghost predicate Averaged(l: Ledger, prices: map<string, seq<int>>) {
    l.positions.Keys == prices.Keys && forall t :: t in l.positions ==> Within(prices[t], l.positions[t].avg)
  }

  lemma AddKeepsAverage(positions: map<string, Position>, prices: map<string, seq<int>>, t: string, price: int,
                        qty: int)
    requires qty > 0 && (t in positions ==> positions[t].quantity > 0) && positions.Keys == prices.Keys
    requires forall u :: u in positions ==> Within(prices[u], positions[u].avg)
    ensures var after := AddTo(positions, t, price, qty);
      var now := prices[t := (if t in prices then prices[t] else []) + [price]];
      after.Keys == now.Keys && forall u :: u in after ==> Within(now[u], after[u].avg)
  {
    var was := if t in prices then prices[t] else [];
    var now := was + [price];
    assert now[|was|] == price;
    if t in positions {
      var p := positions[t];
      var i :| 0 <= i < |was| && was[i] <= p.avg;
      var j :| 0 <= j < |was| && p.avg <= was[j];
      assert now[i] == was[i] && now[j] == was[j];
      FloorAverageBetween(p.avg, p.quantity, price, qty, Min(was[i], price), Max(was[j], price));
      var lo, hi := if was[i] <= price then i else |was|, if was[j] >= price then j else |was|;
      assert now[lo] == Min(was[i], price) && now[hi] == Max(was[j], price);
      assert Within(now, FloorAverage(p.avg * p.quantity, price * qty, p.quantity + qty));
    } else {
      assert Within(now, price);
    }
  }

  /** In every run a position's entry price stays between the lowest and the highest fill price since it was opened. */
  lemma ApplyKeepsAverage(l: Ledger, op: Op, prices: map<string, seq<int>>)
    requires Sound(l) && WellFormedOp(op) && Averaged(l, prices)
    ensures Averaged(Apply(l, op).0, Since(prices, Apply(l, op).0, Apply(l, op).1))
  {
    var (l', trade) := Apply(l, op);
    if trade.Some? && trade.value.Bought? {
      AddKeepsAverage(l.positions, prices, trade.value.ticker, trade.value.price, trade.value.qty);
    }
  }

  ghost function RunPrices(l: Ledger, ops: seq<Op>, prices: map<string, seq<int>>): map<string, seq<int>>
    requires Sound(l) && GoodRun(l, ops)
    decreases |ops|
  {
    if ops == [] then prices
    else
      var (l', trade) := Apply(l, ops[0]);
      ApplySound(l, ops[0]);
      RunPrices(l', ops[1..], Since(prices, l', trade))
  }

  lemma {:induction false} EntryPriceWithinFills(l: Ledger, ops: seq<Op>, prices: map<string, seq<int>>)
    requires Sound(l) && GoodRun(l, ops) && Averaged(l, prices)
    ensures Averaged(Run(l, ops).0, RunPrices(l, ops, prices))
    decreases |ops|
  {
    if ops != [] {
      var (l', trade) := Apply(l, ops[0]);
      ApplySound(l, ops[0]);
      ApplyKeepsAverage(l, ops[0], prices);
      EntryPriceWithinFills(l', ops[1..], Since(prices, l', trade));
    }
  }

  // ------------------------------------------------------------------
  // The executor object
  // ------------------------------------------------------------------

  class PaperTradeExecutor {
    const maxBuyQty: Option<int>
    var balance: int
    var positions: map<string, Position>
    var resting: map<OrderId, Resting>

    ghost function Abs(): Ledger
      reads this
    {
      Ledger(balance, positions, resting)
    }

    constructor (initial: int, maxBuyQty: Option<int>)
      ensures this.maxBuyQty == maxBuyQty && Abs() == Ledger(initial, map[], map[])
      ensures initial >= 0 ==> Sound(Abs())
    {
      this.maxBuyQty, balance, positions, resting := maxBuyQty, initial, map[], map[];
    }

    method AddPosition(t: string, price: int, qty: int)
      requires qty > 0 && (t in positions ==> positions[t].quantity > 0)
      modifies this`positions
      ensures positions == AddTo(old(positions), t, price, qty)
    {
      if t in positions {
        var pos := positions[t];
        var oldCost := pos.avg * pos.quantity;
        var newQty := pos.quantity + qty;
        positions := positions[t := Position(newQty, (oldCost + price * qty) / newQty)];
      } else {
        positions := positions[t := Position(qty, price)];
      }
    }

    method BuyYes(t: string, price: int, qty: int, maxPrice: Option<int>, topAsk: Option<int>) returns (r: Result)
      requires Sound(Abs()) && qty > 0
      modifies this
      ensures (Abs(), r) == Buy(old(Abs()), t, price, qty, maxBuyQty, maxPrice, topAsk)
      ensures Sound(Abs())
    {
      BuyConserves(Abs(), t, price, qty, maxBuyQty, maxPrice, topAsk);
      if maxBuyQty.Some? && qty > maxBuyQty.value {
        return Rejected;
      }
      if maxBuyQty.Some? {
        var existing := if t in positions then Max(positions[t].quantity, 0) else 0;
        if existing + Max(qty, 0) > maxBuyQty.value {
          return Rejected;
        }
      }
      if maxPrice.Some? && price > maxPrice.value {
        return Rejected;
      }
      var fill := price;
      if topAsk.Some? {
        if topAsk.value <= price {
          fill := topAsk.value;
        }
      }
      if balance < fill * qty {
        return Rejected;
      }
      balance := balance - fill * qty;
      AddPosition(t, fill, qty);
      r := Filled(fill, qty);
    }

    method SellYes(t: string, price: int, qty: int, topBid: Option<int>) returns (r: Result)
      requires Sound(Abs()) && qty > 0 && price >= 0
      modifies this
      ensures (Abs(), r) == Sell(old(Abs()), t, price, qty, topBid)
      ensures Sound(Abs())
    {
      SellConserves(Abs(), t, price, qty, topBid);
      var fill := price;
      if topBid.Some? {
        fill := Max(price, topBid.value);
      }
      if t !in positions {
        return Rejected;
      }
      var pos := positions[t];
      if pos.quantity < qty {
        return Rejected;
      }
      positions := positions[t := pos.(quantity := pos.quantity - qty)];
      if positions[t].quantity == 0 {
        positions := positions - {t};
        assert positions == old(positions) - {t};
      }
      balance := balance + fill * qty;
      r := Filled(fill, qty);
    }

    method PlaceLimitBuy(t: string, price: int, qty: int, ms: int) returns (r: Result)
      requires Sound(Abs()) && qty > 0 && price >= 0
      modifies this
      ensures (Abs(), r) == PlaceBuy(old(Abs()), t, price, qty, ms)
      ensures Sound(Abs())
    {
      PlaceBuyConservesIff(Abs(), t, price, qty, ms);
      var cost := price * qty;
      if balance < cost {
        return Rejected;
      }
      balance := balance - cost;
      resting := resting[OrderId(ms, t) := Resting(t, price, qty, cost)];
      r := RestingAt(OrderId(ms, t));
    }

    method CancelOrder(id: OrderId)
      requires Sound(Abs())
      modifies this
      ensures Abs() == Cancel(old(Abs()), id) && Sound(Abs())
    {
      CancelConserves(Abs(), id);
      if id in resting {
        balance := balance + resting[id].reserved;
        resting := resting - {id};
      }
    }

    method GetOrderFillInfo(id: OrderId, topAsk: Option<int>) returns (r: FillInfo)
      requires Sound(Abs())
      modifies this
      ensures (Abs(), r) == Poll(old(Abs()), id, topAsk)
      ensures Sound(Abs())
    {
      PollConserves(Abs(), id, topAsk);
      if id !in resting {
        return NotFound;
      }
      var order := resting[id];
      if topAsk.Some? && topAsk.value <= order.bid {
        balance := balance + order.reserved - topAsk.value * order.remaining;
        AddPosition(order.ticker, topAsk.value, order.remaining);
        resting := resting - {id};
        return FilledInfo(order.remaining, topAsk.value);
      }
      r := StillResting;
    }
  }
}
