/** One monitor cycle: every open position may buy a hedge, several of them into the same target bracket, and the
    cycle's own ledgers of known contracts and cost keep each purchase inside the caps. */
module Monitor {
  import opened Common
  import opened EventExposure

  /** A row of the positions table, as loaded at the start of the cycle. */
  datatype Position = Position(ticker: string, quantity: int, avgEntry: int, hedgeQty: int, hedgeTarget: Option<string>)

  datatype PriceData = PriceData(last: Option<int>, ask: Option<int>, bid: Option<int>)

  /** Everything the outside world answers while one position is processed. */
  datatype Feed = Feed(
    legacyBracket: Option<string>,
    price: Option<PriceData>,
    dateExpired: bool,
    bracket: Option<string>,
    hedge: Option<PriceData>,
    lookupOk: bool,
    eventExpired: bool)

  datatype Order = Order(ticker: string, price: int, qty: int, knownQty: int)

  datatype Reply = Rejected | Result(fillQty: int, fillPrice: int, totalCost: int)

  /** A HEDGE row of the executed-trades table. */
  datatype Trade = Trade(ticker: string, price: int, qty: int, cost: int, complete: bool)

  function OrZero(x: Option<int>): int { if x.Some? then x.value else 0 }

  function Pow2(n: nat): nat { if n == 0 then 1 else 2 * Pow2(n - 1) }

  function MaxAllowed(cfg: Config): int {
    cfg.initialContractCount * Pow2(Max(cfg.hedgeMaxFactor, 1) - 1)
  }

  // ------------------------------------------------------------------
  // The executor
  // ------------------------------------------------------------------

  /** The price a hedge order is submitted at. */
  function SubmittedLimit(cfg: Config, price: int): int {
    if cfg.crossSpreadToCeiling then cfg.spreadMonitorPrice else Min(price, cfg.spreadMonitorPrice)
  }

  /** A fill of at most what was asked for, paid at no more than the submitted limit. */
  ghost predicate Honest(cfg: Config, order: Order, r: Reply) {
    r.Result? ==> 0 <= r.fillQty <= order.qty && r.totalCost <= r.fillQty * SubmittedLimit(cfg, order.price)
  }

  class Executor {
    const cfg: Config
    var submitted: seq<Order>

    constructor (cfg: Config)
      ensures this.cfg == cfg && submitted == []
    {
      this.cfg, submitted := cfg, [];
    }

    /** The exchange may reject, or fill any part at any price within the limit. */
    method BuyYes(order: Order) returns (r: Reply)
      modifies this
      ensures submitted == old(submitted) + [order]
      ensures Honest(cfg, order, r)
    {
      submitted := submitted + [order];
      r := Rejected;
      var answered: bool, filled: int, price: int, cost: int := *, *, *, *;
      if answered && 0 <= filled <= order.qty && cost <= filled * SubmittedLimit(cfg, order.price) {
        r := Result(filled, price, cost);
      }
    }
  }

  // ------------------------------------------------------------------
  // What one position asks for, and whether it is let through
  // ------------------------------------------------------------------

  function HedgeTarget(p: Position, f: Feed): Option<string> {
    if Max(p.hedgeQty, 0) > 0 && p.hedgeTarget.None? then f.legacyBracket else p.hedgeTarget
  }

  predicate Settled(f: Feed) {
    f.price.Some? && OrZero(f.price.value.ask) == 0 && OrZero(f.price.value.bid) == 0 && f.dateExpired
  }

  function CurrentPrice(d: PriceData): int { if OrZero(d.last) != 0 then d.last.value else OrZero(d.ask) }

  function HedgePrice(d: PriceData): int { if OrZero(d.ask) != 0 then d.ask.value else OrZero(d.last) }

  /** The hedge a position wants this cycle: target, price and quantity still missing. */
  function Wanted(cfg: Config, p: Position, f: Feed): (r: Option<(string, int, int)>)
    ensures r.Some? ==> r.value.1 > 0 && r.value.2 > 0 && Max(p.hedgeQty, 0) + r.value.2 == Max(p.quantity, 0)
  {
    if f.price.None? || Settled(f) then None
    else
      var current := CurrentPrice(f.price.value);
      var needed := Max(p.quantity, 0) - Max(p.hedgeQty, 0);
      if !(current <= cfg.hedgeTriggerPrice && current > 0 && needed > 0) then None
      else
        var target := if HedgeTarget(p, f).Some? then HedgeTarget(p, f) else f.bracket;
        if target.None? || f.hedge.None? then None
        else
          var price := HedgePrice(f.hedge.value);
          if price <= 0 then None else Some((target.value, price, needed))
  }

  function Get(m: map<string, int>, t: string): int { if t in m then m[t] else 0 }

  function LookupOf(rows: map<string, Row>, f: Feed): Lookup {
    if f.lookupOk then Rows(rows, f.eventExpired) else LookupFailed
  }

  /** The caps a hedge order must pass: per-target quantity, price ceiling, per-event exposure. */
  ghost predicate Admitted(cfg: Config, lookup: Lookup, ticker: string, price: int, qty: int, existing: int,
                           extra: Holdings) {
    && qty <= MaxAllowed(cfg) && Max(existing, 0) + Max(qty, 0) <= MaxAllowed(cfg)
    && price <= cfg.spreadMonitorPrice
    && Allows(cfg, lookup, ticker, qty, price, KnownHoldings(cfg, extra, ticker, existing), map[], None)
  }

  function KnownHoldings(cfg: Config, extra: Holdings, ticker: string, existing: int): Holdings {
    if Max(existing, 0) > (if ticker in extra then extra[ticker].qty else 0)
    then extra[ticker := Holding(Max(existing, 0), cfg.spreadMonitorPrice)] else extra
  }

  /** Submits the order if and only if it is admitted. */
  method BuyHedge(cfg: Config, executor: Executor, ticker: string, price: int, qty: int, existing: int,
                  lookup: Lookup, extra: Holdings) returns (r: Reply)
    requires executor.cfg == cfg
    modifies executor
    ensures executor.submitted == old(executor.submitted) +
              (if Admitted(cfg, lookup, ticker, price, qty, existing, extra)
               then [Order(ticker, price, qty, Max(existing, 0))] else [])
    ensures r.Result? ==> Admitted(cfg, lookup, ticker, price, qty, existing, extra)
    ensures Honest(cfg, Order(ticker, price, qty, Max(existing, 0)), r)
  {
    hide Allows;
    var factor := Max(cfg.hedgeMaxFactor, 1);
    var maxAllowed := cfg.initialContractCount * Pow2(factor - 1);
    var total := Max(existing, 0) + Max(qty, 0);
    if qty > maxAllowed || total > maxAllowed {
      return Rejected;
    }
    if price > cfg.spreadMonitorPrice {
      return Rejected;
    }
    var known := extra;
    if Max(existing, 0) > (if ticker in known then known[ticker].qty else 0) {
      known := known[ticker := Holding(Max(existing, 0), cfg.spreadMonitorPrice)];
    }
    var allowed := EventExposureAllowsBuy(cfg, lookup, ticker, qty, price, known, map[], None);
    if !allowed {
      return Rejected;
    }
    r := executor.BuyYes(Order(ticker, price, qty, Max(existing, 0)));
  }

  // ------------------------------------------------------------------
  // The ledgers at the start of the cycle
  // ------------------------------------------------------------------

  function StandaloneQty(ps: seq<Position>, t: string): int {
    if ps == [] then 0
    else if ps[|ps| - 1].ticker == t then Max(ps[|ps| - 1].quantity, 0)
    else StandaloneQty(ps[..|ps| - 1], t)
  }

  function EntryPrice(cfg: Config, p: Position): int {
    if Max(p.avgEntry, 0) != 0 then Max(p.avgEntry, 0) else cfg.spreadMonitorPrice
  }

  function StandalonePrice(cfg: Config, ps: seq<Position>, t: string): int {
    if ps == [] then 0
    else if ps[|ps| - 1].ticker == t then EntryPrice(cfg, ps[|ps| - 1])
    else StandalonePrice(cfg, ps[..|ps| - 1], t)
  }

  /** Contracts that parents already hold as hedges in target `t`. */
  function ParentHedge(ps: seq<Position>, fs: seq<Feed>, t: string): int
    requires |ps| == |fs|
  {
    if ps == [] then 0
    else
      var n := |ps| - 1;
      ParentHedge(ps[..n], fs[..n], t) + (if HedgeTarget(ps[n], fs[n]) == Some(t) then Max(ps[n].hedgeQty, 0) else 0)
  }

  ghost predicate Distinct(ps: seq<Position>) {
    forall i, j :: 0 <= i < j < |ps| ==> ps[i].ticker != ps[j].ticker
  }

  ghost predicate Open(ps: seq<Position>) { forall i :: 0 <= i < |ps| ==> ps[i].quantity > 0 }

  /** The price the starting contracts of a target are taken at: its own entry price, or the ceiling when the parents'
      hedges are the larger figure. */
  function StartPrice(cfg: Config, ps: seq<Position>, fs: seq<Feed>, t: string): int
    requires |ps| == |fs|
  {
    if StandaloneQty(ps, t) >= ParentHedge(ps, fs, t) then StandalonePrice(cfg, ps, t) else cfg.spreadMonitorPrice
  }

  ghost predicate KnownAtStart(cfg: Config, ps: seq<Position>, fs: seq<Feed>, qty: map<string, int>,
                               cost: map<string, int>)
    requires |ps| == |fs|
  {
    && qty.Keys == cost.Keys
    && (forall t :: t in qty ==> qty[t] > 0)
    && (forall t :: Get(qty, t) == Max(StandaloneQty(ps, t), ParentHedge(ps, fs, t)))
    && (forall t :: t in cost ==> cost[t] == qty[t] * StartPrice(cfg, ps, fs, t))
  }

  ghost predicate RowsOf(ps: seq<Position>, rows: map<string, Row>) {
    && (forall i :: 0 <= i < |ps| ==> ps[i].ticker in rows && rows[ps[i].ticker] == Row(ps[i].quantity, ps[i].avgEntry))
    && (forall t :: t in rows ==> exists i :: 0 <= i < |ps| && ps[i].ticker == t)
  }

  lemma {:induction false} ParentHedgeNonNegative(ps: seq<Position>, fs: seq<Feed>, t: string)
    requires |ps| == |fs|
    ensures ParentHedge(ps, fs, t) >= 0
  {
    if ps != [] { ParentHedgeNonNegative(ps[..|ps| - 1], fs[..|ps| - 1], t); }
  }

  lemma {:induction false} StandaloneOf(cfg: Config, ps: seq<Position>, i: nat)
    requires Distinct(ps) && i < |ps|
    ensures StandaloneQty(ps, ps[i].ticker) == Max(ps[i].quantity, 0)
    ensures StandalonePrice(cfg, ps, ps[i].ticker) == EntryPrice(cfg, ps[i])
  {
    if i < |ps| - 1 { StandaloneOf(cfg, ps[..|ps| - 1], i); }
  }

  /** The three dictionaries filled by the first loop. */
  method ScanPositions(cfg: Config, ps: seq<Position>, fs: seq<Feed>)
    returns (qty: map<string, int>, price: map<string, int>, parent: map<string, int>, rows: map<string, Row>)
    requires |ps| == |fs| && Distinct(ps) && Open(ps)
    ensures qty.Keys == price.Keys
    ensures forall t :: t in qty ==> qty[t] > 0 && price[t] == StandalonePrice(cfg, ps, t)
    ensures forall t :: Get(qty, t) == StandaloneQty(ps, t)
    ensures forall t :: t in parent ==> parent[t] > 0
    ensures forall t :: Get(parent, t) == ParentHedge(ps, fs, t)
    ensures RowsOf(ps, rows)
  {
    qty, price, parent, rows := map[], map[], map[], map[];
    for i := 0 to |ps|
      invariant qty.Keys == price.Keys && StandaloneScanned(cfg, ps[..i], qty, price)
      invariant ParentsScanned(ps[..i], fs[..i], parent)
      invariant RowsOf(ps[..i], rows)
    {
      hide RowsOf, StandaloneScanned, ParentsScanned;
      var p := ps[i];
      StandaloneStep(cfg, ps, i, qty, price);
      ParentStep(ps, fs, i, parent);
      RowsGrow(ps, i, rows, rows[p.ticker := Row(p.quantity, p.avgEntry)]);
      qty := qty[p.ticker := Max(p.quantity, 0)];
      price := price[p.ticker := EntryPrice(cfg, p)];
      rows := rows[p.ticker := Row(p.quantity, p.avgEntry)];
      var hedged := Max(p.hedgeQty, 0);
      var target := p.hedgeTarget;
      if hedged > 0 && target.None? {
        target := fs[i].legacyBracket;
      }
      if hedged > 0 && target.Some? {
        parent := parent[target.value := (if target.value in parent then parent[target.value] else 0) + hedged];
      }
    }
    assert ps[..|ps|] == ps && fs[..|fs|] == fs;
  }

  ghost predicate StandaloneScanned(cfg: Config, ps: seq<Position>, qty: map<string, int>, price: map<string, int>) {
    && (forall t :: t in qty ==> qty[t] > 0 && t in price && price[t] == StandalonePrice(cfg, ps, t))
    && (forall t :: Get(qty, t) == StandaloneQty(ps, t))
  }

  ghost predicate ParentsScanned(ps: seq<Position>, fs: seq<Feed>, parent: map<string, int>)
    requires |ps| == |fs|
  {
    && (forall t :: t in parent ==> parent[t] > 0)
    && (forall t :: Get(parent, t) == ParentHedge(ps, fs, t))
  }

  lemma StandaloneStep(cfg: Config, ps: seq<Position>, i: nat, qty: map<string, int>, price: map<string, int>)
    requires i < |ps| && Open(ps) && StandaloneScanned(cfg, ps[..i], qty, price)
    ensures StandaloneScanned(cfg, ps[..i + 1], qty[ps[i].ticker := Max(ps[i].quantity, 0)],
                              price[ps[i].ticker := EntryPrice(cfg, ps[i])])
  {
    var longer := ps[..i + 1];
    assert longer[..i] == ps[..i] && longer[i] == ps[i];
    forall t
      ensures StandaloneQty(longer, t) == if ps[i].ticker == t then Max(ps[i].quantity, 0)
        else StandaloneQty(ps[..i], t)
      ensures StandalonePrice(cfg, longer, t) ==
              if ps[i].ticker == t then EntryPrice(cfg, ps[i]) else StandalonePrice(cfg, ps[..i], t)
    {}
  }

  lemma ParentStep(ps: seq<Position>, fs: seq<Feed>, i: nat, parent: map<string, int>)
    requires |ps| == |fs| && i < |ps| && ParentsScanned(ps[..i], fs[..i], parent)
    ensures var hedged := Max(ps[i].hedgeQty, 0); var target := HedgeTarget(ps[i], fs[i]);
      ParentsScanned(ps[..i + 1], fs[..i + 1],
        if hedged > 0 && target.Some? then parent[target.value := Get(parent, target.value) + hedged] else parent)
  {
    var longer, feeds := ps[..i + 1], fs[..i + 1];
    assert longer[..i] == ps[..i] && feeds[..i] == fs[..i] && longer[i] == ps[i] && feeds[i] == fs[i];
    forall t
      ensures ParentHedge(longer, feeds, t) == ParentHedge(ps[..i], fs[..i], t) +
              (if HedgeTarget(ps[i], fs[i]) == Some(t) then Max(ps[i].hedgeQty, 0) else 0)
    {}
    hide HedgeTarget;
    forall t ensures ParentHedge(ps[..i], fs[..i], t) >= 0 { ParentHedgeNonNegative(ps[..i], fs[..i], t); }
  }

  lemma RowsGrow(ps: seq<Position>, i: nat, before: map<string, Row>, rows: map<string, Row>)
    requires i < |ps| && Distinct(ps) && RowsOf(ps[..i], before)
    requires rows == before[ps[i].ticker := Row(ps[i].quantity, ps[i].avgEntry)]
    ensures RowsOf(ps[..i + 1], rows)
  {
    var shorter, longer := ps[..i], ps[..i + 1];
    forall j | 0 <= j < |longer|
      ensures longer[j].ticker in rows && rows[longer[j].ticker] == Row(longer[j].quantity, longer[j].avgEntry)
    {
      if j < i { assert longer[j] == shorter[j]; }
    }
    forall t | t in rows ensures exists j :: 0 <= j < |longer| && longer[j].ticker == t {
      if t == ps[i].ticker {
        assert longer[i].ticker == t;
      } else {
        var j :| 0 <= j < |shorter| && shorter[j].ticker == t;
        assert longer[j].ticker == t;
      }
    }
  }

  method InitialLedgers(cfg: Config, ps: seq<Position>, fs: seq<Feed>)
    returns (knownQty: map<string, int>, knownCost: map<string, int>, rows: map<string, Row>)
    requires |ps| == |fs| && Distinct(ps) && Open(ps)
    ensures KnownAtStart(cfg, ps, fs, knownQty, knownCost) && RowsOf(ps, rows)
  {
    var qty, price, parent, r := ScanPositions(cfg, ps, fs);
    rows := r;
    knownQty := map t | t in qty.Keys + parent.Keys ::
      Max(if t in qty then qty[t] else 0, if t in parent then parent[t] else 0);
    knownCost := map t | t in qty.Keys + parent.Keys ::
      Max(if t in qty then qty[t] else 0, if t in parent then parent[t] else 0) *
      (if (if t in qty then qty[t] else 0) >= (if t in parent then parent[t] else 0)
       then (if t in price then price[t] else cfg.spreadMonitorPrice) else cfg.spreadMonitorPrice);
    forall t
      ensures Get(knownQty, t) == Max(StandaloneQty(ps, t), ParentHedge(ps, fs, t))
      ensures t in knownCost ==> knownCost[t] == knownQty[t] * StartPrice(cfg, ps, fs, t)
    {
      assert Get(qty, t) == StandaloneQty(ps, t) && Get(parent, t) == ParentHedge(ps, fs, t);
    }
  }

  /** What the parents already hold in target `t`: the recorded target of each hedge, or the bracket found under the old
      naming when none is recorded. */
  function HedgesInto(ps: seq<Position>, fs: seq<Feed>, t: string): int
    requires |ps| == |fs|
  {
    if ps == [] then 0
    else
      var p := ps[0];
      var ours := p.hedgeTarget == Some(t) || (p.hedgeTarget.None? && fs[0].legacyBracket == Some(t));
      (if ours && p.hedgeQty > 0 then p.hedgeQty else 0) + HedgesInto(ps[1..], fs[1..], t)
  }

  lemma {:induction false} HedgesIntoMore(ps: seq<Position>, fs: seq<Feed>, t: string)
    requires |ps| == |fs| && ps != []
    ensures var n := |ps| - 1;
      HedgesInto(ps, fs, t) == HedgesInto(ps[..n], fs[..n], t) + HedgesInto(ps[n..], fs[n..], t)
  {
    var n := |ps| - 1;
    if n > 0 {
      HedgesIntoMore(ps[1..], fs[1..], t);
      assert ps[1..][..n - 1] == ps[..n][1..] && fs[1..][..n - 1] == fs[..n][1..];
      assert ps[1..][n - 1..] == ps[n..] && fs[1..][n - 1..] == fs[n..];
    } else {
      assert ps[n..] == ps && fs[n..] == fs;
    }
  }

  lemma {:induction false} ParentHedgeIs(ps: seq<Position>, fs: seq<Feed>, t: string)
    requires |ps| == |fs|
    ensures ParentHedge(ps, fs, t) == HedgesInto(ps, fs, t) >= 0
  {
    if ps != [] {
      var n := |ps| - 1;
      ParentHedgeIs(ps[..n], fs[..n], t);
      HedgesIntoMore(ps, fs, t);
      assert ps[n..][1..] == [] && fs[n..][1..] == [];
    }
  }

  lemma {:induction false} NoStandalone(cfg: Config, ps: seq<Position>, t: string)
    requires forall i :: 0 <= i < |ps| ==> ps[i].ticker != t
    ensures StandaloneQty(ps, t) == 0
  {
    if ps != [] { NoStandalone(cfg, ps[..|ps| - 1], t); }
  }

  /** What the cycle takes a target to hold at its start: the larger of its own row and of the parents' hedges, at the
      entry price of its row when that is the larger and has one, and at the ceiling otherwise. */
  lemma StartsFrom(cfg: Config, ps: seq<Position>, fs: seq<Feed>, qty: map<string, int>, cost: map<string, int>,
                   t: string)
    requires |ps| == |fs| && Distinct(ps) && Open(ps) && KnownAtStart(cfg, ps, fs, qty, cost)
    ensures var hedges := HedgesInto(ps, fs, t);
      && (forall i :: 0 <= i < |ps| && ps[i].ticker == t ==>
            && t in qty && qty[t] == (if ps[i].quantity < hedges then hedges else ps[i].quantity)
            && t in cost && cost[t] == qty[t] * (if ps[i].quantity < hedges || ps[i].avgEntry <= 0
                                                 then cfg.spreadMonitorPrice else ps[i].avgEntry))
      && ((forall i :: 0 <= i < |ps| ==> ps[i].ticker != t) ==>
            && (t in qty <==> hedges > 0)
            && (t in qty ==> qty[t] == hedges && t in cost && cost[t] == hedges * cfg.spreadMonitorPrice))
  {
    ParentHedgeIs(ps, fs, t);
    hide ParentHedge, HedgesInto, StandaloneQty, StandalonePrice;
    assert Get(qty, t) == Max(StandaloneQty(ps, t), ParentHedge(ps, fs, t));
    forall i | 0 <= i < |ps| && ps[i].ticker == t
      ensures StandaloneQty(ps, t) == ps[i].quantity && StandalonePrice(cfg, ps, t) == EntryPrice(cfg, ps[i])
    {
      StandaloneOf(cfg, ps, i);
    }
    if forall i :: 0 <= i < |ps| ==> ps[i].ticker != t { NoStandalone(cfg, ps, t); }
  }

  /** The cap on a target doubles with every further factor. */
  lemma {:induction false} Pow2Laws(a: nat, b: nat)
    ensures Pow2(0) == 1 && Pow2(1) == 2 && Pow2(a + b) == Pow2(a) * Pow2(b)
  {
    if a > 0 { Pow2Laws(a - 1, b); }
  }

  /** What the exposure check is told of a target: the tracked holding, or the given quantity, at the ceiling, when that
      is the larger. */
  lemma KnownIs(cfg: Config, extra: Holdings, ticker: string, existing: int, t: string)
    ensures var h := KnownHoldings(cfg, extra, ticker, existing);
      var given, tracked := if existing < 0 then 0 else existing, if ticker in extra then extra[ticker].qty else 0;
      if t == ticker && tracked < given then t in h && h[t] == Holding(given, cfg.spreadMonitorPrice)
      else (t in h <==> t in extra) && (t in h ==> h[t] == extra[t])
  {}

  lemma TimesMonotone(n: int, a: int, b: int)
    requires n >= 0 && a <= b
    ensures n * a <= n * b
  {}

  /** The ledgers start out covering everything the database knows. */
  lemma StartCovers(cfg: Config, ps: seq<Position>, fs: seq<Feed>, qty: map<string, int>, cost: map<string, int>,
                    rows: map<string, Row>)
    requires |ps| == |fs| && Distinct(ps) && Open(ps)
    requires KnownAtStart(cfg, ps, fs, qty, cost) && RowsOf(ps, rows)
    ensures Covered(cfg, rows, qty, cost)
  {
    forall t | t in rows && rows[t].qty > 0
      ensures t in qty && rows[t].qty <= qty[t]
      ensures rows[t].qty == qty[t] ==> cost[t] <= rows[t].qty * RowHolding(rows[t], cfg.Ceiling()).price
    {
      var i :| 0 <= i < |ps| && ps[i].ticker == t;
      StandaloneOf(cfg, ps, i);
      assert Get(qty, t) == Max(StandaloneQty(ps, t), ParentHedge(ps, fs, t));
      TimesMonotone(rows[t].qty, EntryPrice(cfg, ps[i]), RowHolding(rows[t], cfg.Ceiling()).price);
    }
  }

  // ------------------------------------------------------------------
  // One purchase
  // ------------------------------------------------------------------

  datatype Ledgers = Ledgers(qty: map<string, int>, cost: map<string, int>)

  /** The ledgers after a hedge of `trade.qty` contracts. */
  function Record(l: Ledgers, trade: Trade): Ledgers {
    Ledgers(l.qty[trade.ticker := Get(l.qty, trade.ticker) + trade.qty],
            l.cost[trade.ticker := Get(l.cost, trade.ticker) + Max(trade.cost, 0)])
  }

  ghost predicate Sound(cfg: Config, rows: map<string, Row>, l: Ledgers) {
    l.qty.Keys == l.cost.Keys && Covered(cfg, rows, l.qty, l.cost)
  }

  /** A purchase only ever raises the ledger above the database row of its target. */
  lemma RecordKeepsSound(cfg: Config, rows: map<string, Row>, l: Ledgers, trade: Trade)
    requires Sound(cfg, rows, l) && trade.qty > 0
    ensures Sound(cfg, rows, Record(l, trade))
  {}

  lemma ExpiryKeepsSound(cfg: Config, rows: map<string, Row>, l: Ledgers, t: string)
    requires Sound(cfg, rows, l)
    ensures Sound(cfg, rows - {t}, l)
  {}

  ghost predicate Verifiable(cfg: Config, f: Feed) { f.lookupOk || cfg.exposureFailClosed }

  /** What is true of every recorded hedge. */
  ghost predicate GoodTrade(cfg: Config, p: Position, f: Feed, l: Ledgers, trade: Trade) {
    && trade.qty > 0
    && Wanted(cfg, p, f).Some? && trade.ticker == Wanted(cfg, p, f).value.0 && trade.qty <= Wanted(cfg, p, f).value.2
    && Max(Get(l.qty, trade.ticker), 0) + trade.qty <= MaxAllowed(cfg)
    && (trade.complete <==> trade.qty == Wanted(cfg, p, f).value.2)
    && (Verifiable(cfg, f) && EventKey(trade.ticker).Some? ==>
          var key := EventKey(trade.ticker).value;
          WithinCaps(cfg, EventTotal(l.qty, key) + trade.qty, EventTotal(l.cost, key) + Max(trade.cost, 0)))
  }

  /** The fill is paid at no more than the limit the exposure check reserved. */
  lemma PaidWithinReserve(cfg: Config, price: int, want: int, filled: int, cost: int)
    requires 0 < price <= cfg.spreadMonitorPrice && 0 <= filled <= want
    requires cost <= filled * SubmittedLimit(cfg, price)
    ensures Max(cost, 0) <= want * ProposedLimit(cfg, price)
  {
    assert SubmittedLimit(cfg, price) == ProposedLimit(cfg, price) > 0;
    var limit := ProposedLimit(cfg, price);
    TimesMonotone(limit, filled, want);
    TimesMonotone(limit, 0, want);
  }

  lemma ExtraIsKnown(cfg: Config, l: Ledgers, ticker: string)
    requires l.qty.Keys == l.cost.Keys && forall t :: t in l.qty ==> l.qty[t] > 0
    ensures KnownHoldings(cfg, AsHoldings(l.qty, l.cost), ticker, Get(l.qty, ticker)) == AsHoldings(l.qty, l.cost)
  {}

  /** The order a position's turn submits, if any. */
  ghost function OrderFor(cfg: Config, rows: map<string, Row>, p: Position, f: Feed, l: Ledgers): Option<Order>
    requires l.qty.Keys == l.cost.Keys
  {
    var w := Wanted(cfg, p, f);
    if w.Some? && Admitted(cfg, LookupOf(rows, f), w.value.0, w.value.1, w.value.2, Get(l.qty, w.value.0),
                           AsHoldings(l.qty, l.cost))
    then Some(Order(w.value.0, w.value.1, w.value.2, Max(Get(l.qty, w.value.0), 0))) else None
  }

  /** The row is not worth looking at: its price could not be fetched, or nobody quotes it and its day is over. */
  predicate LeftAlone(f: Feed) {
    || f.price.None?
    || (f.dateExpired
        && (f.price.value.ask.None? || f.price.value.ask.value == 0)
        && (f.price.value.bid.None? || f.price.value.bid.value == 0))
  }

  /** The first price, unless it is missing or zero; then the second, with zero for a missing one. */
  function Quoted(first: Option<int>, second: Option<int>): int {
    if first.Some? && first.value != 0 then first.value else if second.Some? then second.value else 0
  }

  /** `order` is the hedge position `p` calls for, in terms of its row, its feed and the ledger. */
  ghost predicate CalledFor(cfg: Config, p: Position, f: Feed, l: Ledgers, order: Order) {
    && !LeftAlone(f)
    && 0 < Quoted(f.price.value.last, f.price.value.ask) <= cfg.hedgeTriggerPrice
    && (if p.hedgeTarget.Some? then p.hedgeTarget == Some(order.ticker)
        else if p.hedgeQty > 0 && f.legacyBracket.Some? then f.legacyBracket == Some(order.ticker)
        else f.bracket == Some(order.ticker))
    && f.hedge.Some? && order.price == Quoted(f.hedge.value.ask, f.hedge.value.last) && 0 < order.price
    && order.qty == (if p.quantity > 0 then p.quantity else 0) - (if p.hedgeQty > 0 then p.hedgeQty else 0)
    && 0 < order.qty
    && order.knownQty == if order.ticker in l.qty && l.qty[order.ticker] > 0 then l.qty[order.ticker] else 0
  }

  /** The three caps: contracts of the target, price, and the event. */
  ghost predicate PassesCaps(cfg: Config, rows: map<string, Row>, f: Feed, l: Ledgers, order: Order)
    requires l.qty.Keys == l.cost.Keys
  {
    var doublings := if cfg.hedgeMaxFactor > 1 then cfg.hedgeMaxFactor - 1 else 0;
    var lookup := if f.lookupOk then Rows(rows, f.eventExpired) else LookupFailed;
    && order.qty + order.knownQty <= cfg.initialContractCount * Pow2(doublings)
    && order.price <= cfg.spreadMonitorPrice
    && Allows(cfg, lookup, order.ticker, order.qty, order.price, AsHoldings(l.qty, l.cost), map[], None)
  }

  /** A position's turn submits an order if and only if the position calls for it and it passes the caps; no turn
      submits two. */
  lemma OrderIff(cfg: Config, rows: map<string, Row>, p: Position, f: Feed, l: Ledgers, order: Order)
    requires Sound(cfg, rows, l)
    ensures OrderFor(cfg, rows, p, f, l) == Some(order) <==>
            CalledFor(cfg, p, f, l, order) && PassesCaps(cfg, rows, f, l, order)
  {
    hide Allows, AsHoldings;
    var w := Wanted(cfg, p, f);
    if w.Some? { KnownIsExtra(cfg, rows, l, w.value.0); }
    KnownIsExtra(cfg, rows, l, order.ticker);
    hide KnownHoldings, Covered;
  }

  lemma KnownIsExtra(cfg: Config, rows: map<string, Row>, l: Ledgers, ticker: string)
    requires Sound(cfg, rows, l)
    ensures KnownHoldings(cfg, AsHoldings(l.qty, l.cost), ticker, Get(l.qty, ticker)) == AsHoldings(l.qty, l.cost)
  {
    ExtraIsKnown(cfg, l, ticker);
  }

  lemma TradeIsGood(cfg: Config, rows: map<string, Row>, p: Position, f: Feed, l: Ledgers, trade: Trade, price: int)
    requires Sound(cfg, rows, l) && OrderFor(cfg, rows, p, f, l).Some?
    requires trade.ticker == Wanted(cfg, p, f).value.0 && price == Wanted(cfg, p, f).value.1
    requires 0 < trade.qty <= Wanted(cfg, p, f).value.2
    requires trade.complete <==> trade.qty == Wanted(cfg, p, f).value.2
    requires trade.cost <= trade.qty * SubmittedLimit(cfg, price)
    ensures GoodTrade(cfg, p, f, l, trade)
  {
    hide Allows, WithinCaps, EventTotal, EventKey, MaxAllowed;
    var want := Wanted(cfg, p, f).value.2;
    ExtraIsKnown(cfg, l, trade.ticker);
    PaidWithinReserve(cfg, price, want, trade.qty, trade.cost);
    if Verifiable(cfg, f) && EventKey(trade.ticker).Some? {
      AllowedBuyStaysWithinCaps(cfg, LookupOf(rows, f), trade.ticker, want, price, l.qty, l.cost,
                                trade.qty, Max(trade.cost, 0));
    }
  }

  /** The trade row of a reply: whatever was filled, at the price of the fill or, without one, of the order. */
  ghost predicate Recorded(order: Option<Order>, reply: Option<Reply>, trade: Option<Trade>) {
    && (reply.Some? ==> order.Some?)
    && (trade.Some? <==> reply.Some? && reply.value.Result? && reply.value.fillQty > 0)
    && (trade.Some? ==>
          var r := reply.value;
          var price := if r.fillPrice != 0 then r.fillPrice else order.value.price;
          trade.value == Trade(order.value.ticker, price, r.fillQty, r.totalCost, r.fillQty == order.value.qty))
  }

  /** One position's turn: at most one order, and at most one recorded trade, of what its reply says was filled. */
  method HedgePosition(cfg: Config, executor: Executor, rows: map<string, Row>, p: Position, f: Feed, l: Ledgers)
    returns (trade: Option<Trade>, ghost reply: Option<Reply>)
    requires executor.cfg == cfg && Sound(cfg, rows, l)
    modifies executor
    ensures executor.submitted == old(executor.submitted) +
              (if OrderFor(cfg, rows, p, f, l).Some? then [OrderFor(cfg, rows, p, f, l).value] else [])
    ensures reply.Some? <==> OrderFor(cfg, rows, p, f, l).Some?
    ensures Recorded(OrderFor(cfg, rows, p, f, l), reply, trade)
    ensures trade.Some? ==> GoodTrade(cfg, p, f, l, trade.value)
  {
    hide Admitted, Covered, GoodTrade, MaxAllowed;
    trade, reply := None, None;
    if f.price.None? || Settled(f) {
      return;
    }
    var current := CurrentPrice(f.price.value);
    var already := Max(p.hedgeQty, 0);
    var needed := Max(p.quantity, 0) - already;
    if current <= cfg.hedgeTriggerPrice && current > 0 && needed > 0 {
      var target := HedgeTarget(p, f);
      if target.None? {
        target := f.bracket;
      }
      if target.None? || f.hedge.None? {
        return;
      }
      var price := HedgePrice(f.hedge.value);
      if price <= 0 {
        return;
      }
      var t := target.value;
      var existing := if t in l.qty then l.qty[t] else 0;
      var result := BuyHedge(cfg, executor, t, price, needed, existing, LookupOf(rows, f), AsHoldings(l.qty, l.cost));
      if OrderFor(cfg, rows, p, f, l).Some? {
        reply := Some(result);
      }
      if result.Rejected? {
        return;
      }
      var filled := Max(result.fillQty, 0);
      if filled <= 0 {
        return;
      }
      var at := if result.fillPrice != 0 then result.fillPrice else price;
      var done := Trade(t, at, filled, result.totalCost, filled >= needed);
      TradeIsGood(cfg, rows, p, f, l, done, price);
      trade := Some(done);
    }
  }

  // ------------------------------------------------------------------
  // The cycle
  // ------------------------------------------------------------------

  function HedgeSum(ps: seq<Position>): int {
    if ps == [] then 0 else HedgeSum(ps[..|ps| - 1]) + Max(ps[|ps| - 1].hedgeQty, 0)
  }

  function TradeSum(trades: seq<Trade>): int {
    if trades == [] then 0 else TradeSum(trades[..|trades| - 1]) + trades[|trades| - 1].qty
  }

  lemma {:induction false} HedgeSumUpdate(ps: seq<Position>, i: nat, p: Position)
    requires i < |ps|
    ensures HedgeSum(ps[i := p]) == HedgeSum(ps) - Max(ps[i].hedgeQty, 0) + Max(p.hedgeQty, 0)
  {
    var n := |ps| - 1;
    if i == n {
      assert ps[i := p][..n] == ps[..n];
    } else {
      assert ps[i := p][..n] == ps[..n][i := p];
      HedgeSumUpdate(ps[..n], i, p);
    }
  }

  lemma TradeSumAppend(trades: seq<Trade>, t: Trade)
    ensures TradeSum(trades + [t]) == TradeSum(trades) + t.qty
  {
    assert (trades + [t])[..|trades|] == trades;
  }

  /** No event's tracked total has grown beyond the larger of where it started and its cap. */
  ghost predicate Capped(start: map<string, int>, now: map<string, int>, cap: Option<int>) {
    cap.Some? ==> forall key :: EventTotal(now, key) <= Max(EventTotal(start, key), cap.value)
  }

  /** No target's known quantity has grown beyond the larger of where it started and the per-target maximum. */
  ghost predicate TargetsCapped(start: map<string, int>, now: map<string, int>, cap: int) {
    forall t :: t in now ==> now[t] <= Max(Get(start, t), cap)
  }

  /** A row whose hedge differs from its start is hedged for no more than the position holds; nothing else changes. */
  ghost predicate HedgesCapped(before: seq<Position>, now: seq<Position>) {
    |now| == |before| &&
    forall i :: 0 <= i < |now| ==>
      now[i] == before[i] ||
      (&& now[i] == before[i].(hedgeQty := now[i].hedgeQty, hedgeTarget := now[i].hedgeTarget)
       && Max(before[i].hedgeQty, 0) < now[i].hedgeQty <= before[i].quantity)
  }

  lemma RecordKeepsCaps(cfg: Config, p: Position, f: Feed, start: Ledgers, l: Ledgers, trade: Trade)
    requires GoodTrade(cfg, p, f, l, trade) && Verifiable(cfg, f)
    requires Capped(start.qty, l.qty, cfg.MaxContracts()) && Capped(start.cost, l.cost, cfg.MaxCost())
    ensures Capped(start.qty, Record(l, trade).qty, cfg.MaxContracts())
    ensures Capped(start.cost, Record(l, trade).cost, cfg.MaxCost())
  {
    hide EventTotal, EventKey, Wanted, MaxAllowed;
    forall key
      ensures cfg.MaxContracts().Some? ==>
        EventTotal(Record(l, trade).qty, key) <= Max(EventTotal(start.qty, key), cfg.MaxContracts().value)
      ensures cfg.MaxCost().Some? ==>
        EventTotal(Record(l, trade).cost, key) <= Max(EventTotal(start.cost, key), cfg.MaxCost().value)
    {
      EventTotalUpdate(l.qty, trade.ticker, Get(l.qty, trade.ticker) + trade.qty, key);
      EventTotalUpdate(l.cost, trade.ticker, Get(l.cost, trade.ticker) + Max(trade.cost, 0), key);
    }
  }

  function Hedged(p: Position, t: Trade): Position {
    p.(hedgeQty := Max(p.hedgeQty, 0) + t.qty, hedgeTarget := Some(t.ticker))
  }

  /** The database rows and the ledgers at the moment a position's turn begins. */
  datatype Turn = Turn(rows: map<string, Row>, ledgers: Ledgers)

  ghost predicate SoundTurn(cfg: Config, turn: Turn) { Sound(cfg, turn.rows, turn.ledgers) }

  /** The orders the positions submit, each decided by the ledgers at its own turn. */
  ghost function OrdersOf(cfg: Config, turns: seq<TurnRecord>, ps: seq<Position>, fs: seq<Feed>): seq<Order>
    requires |turns| == |ps| == |fs| && forall i :: 0 <= i < |turns| ==> SoundTurn(cfg, turns[i].turn)
    decreases |turns|
  {
    if turns == [] then []
    else
      var n := |turns| - 1;
      assert SoundTurn(cfg, turns[n].turn);
      var order := OrderFor(cfg, turns[n].turn.rows, ps[n], fs[n], turns[n].turn.ledgers);
      OrdersOf(cfg, turns[..n], ps[..n], fs[..n]) + (if order.Some? then [order.value] else [])
  }

  lemma OrdersOfStep(cfg: Config, turns: seq<TurnRecord>, turn: TurnRecord, ps: seq<Position>, fs: seq<Feed>)
    requires |turns| < |ps| == |fs| && SoundTurn(cfg, turn.turn)
    requires forall i :: 0 <= i < |turns| ==> SoundTurn(cfg, turns[i].turn)
    ensures var n := |turns|; var order := OrderFor(cfg, turn.turn.rows, ps[n], fs[n], turn.turn.ledgers);
      OrdersOf(cfg, turns + [turn], ps[..n + 1], fs[..n + 1]) ==
      OrdersOf(cfg, turns, ps[..n], fs[..n]) + (if order.Some? then [order.value] else [])
  {
    hide OrderFor, SoundTurn;
    var n := |turns|;
    assert (turns + [turn])[..n] == turns && ps[..n + 1][..n] == ps[..n] && fs[..n + 1][..n] == fs[..n];
  }

  /** A turn as it went: where it began, what the exchange replied to its order, and the trade row it wrote. */
  datatype TurnRecord = TurnRecord(turn: Turn, reply: Option<Reply>, trade: Option<Trade>)

  /** What a turn does, field by field.  Only a trade changes the position's row, by its quantity and target, and the
      ledgers, by its quantity and cost; only a row nobody quotes after its day leaves the database. */
  ghost predicate TurnDone(cfg: Config, p: Position, f: Feed, r: TurnRecord, next: Turn, after: Position)
    requires SoundTurn(cfg, r.turn)
  {
    var l, order := r.turn.ledgers, OrderFor(cfg, r.turn.rows, p, f, r.turn.ledgers);
    && (r.reply.Some? <==> order.Some?)
    && Recorded(order, r.reply, r.trade)
    && next.rows == (if f.price.Some? && LeftAlone(f) then r.turn.rows - {p.ticker} else r.turn.rows)
    && match r.trade
       case None => after == p && next.ledgers == l
       case Some(t) =>
         && after == p.(hedgeQty := (if p.hedgeQty > 0 then p.hedgeQty else 0) + t.qty, hedgeTarget := Some(t.ticker))
         && next.ledgers.qty == l.qty[t.ticker := (if t.ticker in l.qty then l.qty[t.ticker] else 0) + t.qty]
         && next.ledgers.cost ==
            l.cost[t.ticker := (if t.ticker in l.cost then l.cost[t.ticker] else 0) + if t.cost > 0 then t.cost else 0]
  }

  /** Where turn `i` began; after the last one, where the cycle ended. */
  function BeginOf(turns: seq<TurnRecord>, i: nat, last: Turn): Turn {
    if i < |turns| then turns[i].turn else last
  }

  function TradesOf(turns: seq<TurnRecord>): seq<Trade> {
    if turns == [] then []
    else
      var n := |turns| - 1;
      TradesOf(turns[..n]) + (if turns[n].trade.Some? then [turns[n].trade.value] else [])
  }

  /** The turns so far, from `first` to `last`, each done on its position and handing over to the next. */
  ghost predicate Traced(cfg: Config, before: seq<Position>, now: seq<Position>, fs: seq<Feed>, turns: seq<TurnRecord>,
                         first: Turn, last: Turn, trades: seq<Trade>)
  {
    && |turns| <= |before| == |now| == |fs|
    && (forall i :: 0 <= i < |turns| ==> SoundTurn(cfg, turns[i].turn))
    && BeginOf(turns, 0, last) == first
    && trades == TradesOf(turns)
    && forall i :: 0 <= i < |turns| ==> TurnDone(cfg, before[i], fs[i], turns[i], BeginOf(turns, i + 1, last), now[i])
  }

  lemma TracedStart(cfg: Config, before: seq<Position>, fs: seq<Feed>, first: Turn)
    requires |before| == |fs|
    ensures Traced(cfg, before, before, fs, [], first, first, [])
  {}

  lemma TracedStep(cfg: Config, before: seq<Position>, now: seq<Position>, fs: seq<Feed>, turns: seq<TurnRecord>,
                   first: Turn, last: Turn, trades: seq<Trade>, r: TurnRecord, next: Turn, after: seq<Position>)
    requires Traced(cfg, before, now, fs, turns, first, last, trades)
    requires |turns| < |fs| && r.turn == last && SoundTurn(cfg, last) && |after| == |now|
    requires TurnDone(cfg, before[|turns|], fs[|turns|], r, next, after[|turns|])
    requires forall j :: 0 <= j < |turns| ==> after[j] == now[j]
    ensures Traced(cfg, before, after, fs, turns + [r], first, next,
                   if r.trade.Some? then trades + [r.trade.value] else trades)
  {
    hide TurnDone, SoundTurn, TradesOf;
    TradesOfStep(turns, r);
    assert trades + [] == trades;
    var more := turns + [r];
    forall i | 0 <= i < |more| ensures TurnDone(cfg, before[i], fs[i], more[i], BeginOf(more, i + 1, next), after[i]) {
      if i < |turns| {
        assert TurnDone(cfg, before[i], fs[i], turns[i], BeginOf(turns, i + 1, last), now[i]);
        assert BeginOf(more, i + 1, next) == BeginOf(turns, i + 1, last);
      }
    }
  }

  lemma TradesOfStep(turns: seq<TurnRecord>, r: TurnRecord)
    ensures TradesOf(turns + [r]) == TradesOf(turns) + (if r.trade.Some? then [r.trade.value] else [])
  {
    assert (turns + [r])[..|turns|] == turns;
  }

  /** Over a cycle: turn `i` submits an order exactly when its position calls for it and it passes the caps as the
      ledgers then stand; otherwise it submits nothing. */
  lemma CycleOrdersIff(cfg: Config, turns: seq<TurnRecord>, ps: seq<Position>, fs: seq<Feed>, i: nat, order: Order)
    requires i < |turns| == |ps| == |fs| && forall j :: 0 <= j < |turns| ==> SoundTurn(cfg, turns[j].turn)
    ensures var earlier := OrdersOf(cfg, turns[..i], ps[..i], fs[..i]);
      var now := OrdersOf(cfg, turns[..i + 1], ps[..i + 1], fs[..i + 1]);
      var turn := turns[i].turn;
      && (now == earlier + [order] <==>
            CalledFor(cfg, ps[i], fs[i], turn.ledgers, order) && PassesCaps(cfg, turn.rows, fs[i], turn.ledgers, order))
      && (now == earlier || exists o :: now == earlier + [o])
  {
    assert turns[..i + 1] == turns[..i] + [turns[i]];
    OrdersOfStep(cfg, turns[..i], turns[i], ps, fs);
    OrderIff(cfg, turns[i].turn.rows, ps[i], fs[i], turns[i].turn.ledgers, order);
    var earlier := OrdersOf(cfg, turns[..i], ps[..i], fs[..i]);
    var o := OrderFor(cfg, turns[i].turn.rows, ps[i], fs[i], turns[i].turn.ledgers);
    hide OrderFor, CalledFor, PassesCaps, OrdersOf;
    assert (earlier + [order])[|earlier|] == order;
    if o.Some? { assert (earlier + [o.value])[|earlier|] == o.value; } else { assert earlier + [] == earlier; }
  }

  /** One position's turn in the loop: its order, its trade row, and the row and ledgers it leaves behind. */
  method TakeTurn(cfg: Config, executor: Executor, positions: array<Position>, i: nat, f: Feed, turn: Turn)
    returns (next: Turn, trade: Option<Trade>, ghost reply: Option<Reply>)
    requires executor.cfg == cfg && i < positions.Length && SoundTurn(cfg, turn)
    modifies executor, positions
    ensures SoundTurn(cfg, next)
    ensures executor.submitted == old(executor.submitted) +
              var order := OrderFor(cfg, turn.rows, old(positions[i]), f, turn.ledgers);
              if order.Some? then [order.value] else []
    ensures trade.Some? ==> GoodTrade(cfg, old(positions[i]), f, turn.ledgers, trade.value)
    ensures next.ledgers == if trade.Some? then Record(turn.ledgers, trade.value) else turn.ledgers
    ensures TurnDone(cfg, old(positions[i]), f, TurnRecord(turn, reply, trade), next, positions[i])
    ensures positions[..] == if trade.Some? then old(positions[..])[i := Hedged(old(positions[i]), trade.value)]
      else old(positions[..])
  {
    hide Covered, EventTotal, MaxAllowed, GoodTrade, Admitted;
    var p := positions[i];
    trade, reply := None, None;
    next := turn;
    if Settled(f) {
      ExpiryKeepsSound(cfg, turn.rows, turn.ledgers, p.ticker);
      next := turn.(rows := turn.rows - {p.ticker});
    } else {
      trade, reply := HedgePosition(cfg, executor, turn.rows, p, f, turn.ledgers);
      if trade.Some? {
        TradeIsPositive(cfg, p, f, turn.ledgers, trade.value);
        RecordKeepsSound(cfg, turn.rows, turn.ledgers, trade.value);
        positions[i] := Hedged(p, trade.value);
        next := turn.(ledgers := Record(turn.ledgers, trade.value));
      }
    }
  }

  lemma TradeIsPositive(cfg: Config, p: Position, f: Feed, l: Ledgers, trade: Trade)
    requires GoodTrade(cfg, p, f, l, trade)
    ensures trade.qty > 0
  {}

  /** The four bounds a cycle keeps. */
  ghost predicate CycleInv(cfg: Config, before: seq<Position>, now: seq<Position>, start: Ledgers, l: Ledgers,
                           trades: seq<Trade>, verifiable: bool)
  {
    && (verifiable ==> Capped(start.qty, l.qty, cfg.MaxContracts()) && Capped(start.cost, l.cost, cfg.MaxCost()))
    && TargetsCapped(start.qty, l.qty, MaxAllowed(cfg))
    && HedgesCapped(before, now)
    && HedgeSum(now) - HedgeSum(before) == TradeSum(trades)
  }

  lemma TradeKeepsCycleInv(cfg: Config, before: seq<Position>, now: seq<Position>, start: Ledgers, l: Ledgers,
                           trades: seq<Trade>, verifiable: bool, i: nat, f: Feed, t: Trade)
    requires CycleInv(cfg, before, now, start, l, trades, verifiable)
    requires i < |now| && now[i] == before[i] && now[i].quantity > 0
    requires GoodTrade(cfg, now[i], f, l, t)
    ensures CycleInv(cfg, before, now[i := Hedged(now[i], t)], start, Record(l, t), trades + [t],
                     verifiable && Verifiable(cfg, f))
  {
    hide EventTotal, EventKey, MaxAllowed, GoodTrade, Capped, TargetsCapped;
    TradeEffects(cfg, now[i], f, l, t);
    if verifiable && Verifiable(cfg, f) {
      RecordKeepsCaps(cfg, now[i], f, start, l, t);
    }
    RecordKeepsTargets(start, l, t, MaxAllowed(cfg));
    HedgeSumUpdate(now, i, Hedged(now[i], t));
    TradeSumAppend(trades, t);
  }

  ghost predicate AllVerifiable(cfg: Config, fs: seq<Feed>) {
    forall i :: 0 <= i < |fs| ==> Verifiable(cfg, fs[i])
  }

  /** Over a whole cycle, with any number of parents sharing targets and any partial fills: each event stays within the
      larger of its start and its enabled cap, for contracts and for cost, as long as every exposure lookup succeeds or
      a failing one blocks; each target stays within the per-target maximum; no parent is over-hedged; and the hedge
      quantities grow by exactly what the trade rows record.  Every order is the one its position wants at its turn. */
  method RunMonitorCycle(cfg: Config, executor: Executor, positions: array<Position>, feeds: seq<Feed>)
    returns (start: Ledgers, known: Ledgers, trades: seq<Trade>, ghost turns: seq<TurnRecord>,
             ghost first: Turn, ghost last: Turn)
    requires executor.cfg == cfg && |feeds| == positions.Length
    requires Distinct(positions[..]) && Open(positions[..])
    modifies executor, positions
    ensures KnownAtStart(cfg, old(positions[..]), feeds, start.qty, start.cost)
    ensures CycleInv(cfg, old(positions[..]), positions[..], start, known, trades, AllVerifiable(cfg, feeds))
    ensures |turns| == |feeds| && first.ledgers == start && last.ledgers == known
    ensures RowsOf(old(positions[..]), first.rows)
    ensures Traced(cfg, old(positions[..]), positions[..], feeds, turns, first, last, trades)
    ensures executor.submitted == old(executor.submitted) + OrdersOf(cfg, turns, old(positions[..]), feeds)
  {
    hide GoodTrade, KnownAtStart, OrderFor, SoundTurn, OrdersOf, CycleInv, AllVerifiable, Record, TurnDone, RowsOf,
         Traced;
    ghost var before := positions[..];
    var qty, cost, rows := InitialLedgers(cfg, positions[..], feeds);
    start := Ledgers(qty, cost);
    known := start;
    trades, turns := [], [];
    StartIsSound(cfg, before, feeds, start, rows);
    var turn := Turn(rows, start);
    first, last := turn, turn;
    TracedStart(cfg, before, feeds, turn);
    assert feeds[..0] == [] && before[..0] == [];
    for i := 0 to positions.Length
      invariant SoundTurn(cfg, turn) && turn.ledgers == known && last == turn
      invariant CycleInv(cfg, before, positions[..], start, known, trades, AllVerifiable(cfg, feeds[..i]))
      invariant forall j :: i <= j < positions.Length ==> positions[j] == before[j]
      invariant |turns| == i && first == Turn(rows, start)
      invariant Traced(cfg, before, positions[..], feeds, turns, first, last, trades)
      invariant forall j :: 0 <= j < i ==> SoundTurn(cfg, turns[j].turn)
      invariant executor.submitted == old(executor.submitted) + OrdersOf(cfg, turns, before[..i], feeds[..i])
    {
      ghost var ps := positions[..];
      assert ps[i] == before[i] && before[i].quantity > 0;
      var next, trade, reply := TakeTurn(cfg, executor, positions, i, feeds[i], turn);
      OrdersOfStep(cfg, turns, TurnRecord(turn, reply, trade), before, feeds);
      TracedStep(cfg, before, ps, feeds, turns, first, last, trades, TurnRecord(turn, reply, trade), next,
                 positions[..]);
      turns := turns + [TurnRecord(turn, reply, trade)];
      TurnKeepsCycleInv(cfg, before, ps, start, known, trades, feeds, i, trade);
      if trade.Some? {
        trades := trades + [trade.value];
      }
      turn, last := next, next;
      known := next.ledgers;
    }
    assert feeds[..|feeds|] == feeds && before[..|feeds|] == before;
  }

  lemma TurnKeepsCycleInv(cfg: Config, before: seq<Position>, ps: seq<Position>, start: Ledgers, known: Ledgers,
                          trades: seq<Trade>, feeds: seq<Feed>, i: nat, trade: Option<Trade>)
    requires i < |ps| && i < |feeds| && i < |before|
    requires CycleInv(cfg, before, ps, start, known, trades, AllVerifiable(cfg, feeds[..i]))
    requires trade.Some? ==>
      ps[i] == before[i] && before[i].quantity > 0 && GoodTrade(cfg, ps[i], feeds[i], known, trade.value)
    ensures if trade.Some?
      then CycleInv(cfg, before, ps[i := Hedged(ps[i], trade.value)], start, Record(known, trade.value),
                    trades + [trade.value], AllVerifiable(cfg, feeds[..i + 1]))
      else CycleInv(cfg, before, ps, start, known, trades, AllVerifiable(cfg, feeds[..i + 1]))
  {
    hide CycleInv, AllVerifiable, GoodTrade, Record, Hedged;
    VerifiableStep(cfg, feeds, i);
    if trade.Some? {
      TradeKeepsCycleInv(cfg, before, ps, start, known, trades, AllVerifiable(cfg, feeds[..i]), i, feeds[i],
                         trade.value);
    } else {
      CycleInvWeakens(cfg, before, ps, start, known, trades, AllVerifiable(cfg, feeds[..i]), Verifiable(cfg, feeds[i]));
    }
  }

  lemma VerifiableStep(cfg: Config, fs: seq<Feed>, i: nat)
    requires i < |fs|
    ensures AllVerifiable(cfg, fs[..i + 1]) <==> AllVerifiable(cfg, fs[..i]) && Verifiable(cfg, fs[i])
  {
    if AllVerifiable(cfg, fs[..i + 1]) {
      assert Verifiable(cfg, fs[..i + 1][i]);
      forall j | 0 <= j < i ensures Verifiable(cfg, fs[..i][j]) { assert Verifiable(cfg, fs[..i + 1][j]); }
    }
  }

  lemma CycleInvWeakens(cfg: Config, before: seq<Position>, now: seq<Position>, start: Ledgers, l: Ledgers,
                        trades: seq<Trade>, verifiable: bool, also: bool)
    requires CycleInv(cfg, before, now, start, l, trades, verifiable)
    ensures CycleInv(cfg, before, now, start, l, trades, verifiable && also)
  {
    hide Capped, TargetsCapped, HedgesCapped, HedgeSum, TradeSum;
  }

  lemma StartIsSound(cfg: Config, ps: seq<Position>, fs: seq<Feed>, start: Ledgers, rows: map<string, Row>)
    requires |ps| == |fs| && Distinct(ps) && Open(ps)
    requires KnownAtStart(cfg, ps, fs, start.qty, start.cost) && RowsOf(ps, rows)
    ensures SoundTurn(cfg, Turn(rows, start))
    ensures CycleInv(cfg, ps, ps, start, start, [], true)
    ensures OrdersOf(cfg, [], [], []) == [] && AllVerifiable(cfg, [])
  {
    hide EventTotal, MaxAllowed, HedgeSum;
    StartCovers(cfg, ps, fs, start.qty, start.cost, rows);
  }

  lemma TradeEffects(cfg: Config, p: Position, f: Feed, l: Ledgers, trade: Trade)
    requires GoodTrade(cfg, p, f, l, trade) && p.quantity > 0
    ensures trade.qty > 0 && Max(p.hedgeQty, 0) + trade.qty <= p.quantity
    ensures Get(l.qty, trade.ticker) + trade.qty <= MaxAllowed(cfg)
  {
    hide Wanted;
  }

  lemma RecordKeepsTargets(start: Ledgers, l: Ledgers, trade: Trade, cap: int)
    requires TargetsCapped(start.qty, l.qty, cap) && Get(l.qty, trade.ticker) + trade.qty <= cap
    ensures TargetsCapped(start.qty, Record(l, trade).qty, cap)
  {}
}
