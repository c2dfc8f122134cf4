/** The per-event exposure cap: holdings of one city and day, merged from the database and from memory, against the
    configured limits on contracts and cost. */
module EventExposure {
  import opened Common

  datatype Holding = Holding(qty: int, price: int)

  type Holdings = map<string, Holding>

  datatype Config = Config(
    eventMaxContracts: int,
    eventMaxCostCents: int,
    spreadMonitorPrice: int,
    exposureFailClosed: bool,
    crossSpreadToCeiling: bool,
    initialContractCount: int,
    hedgeMaxFactor: int,
    hedgeTriggerPrice: int)
  {
    /** The highest price a buy may be submitted at, as the exposure check sees it. */
    function Ceiling(): (r: int) ensures r >= 1 && r >= spreadMonitorPrice {
      Max(if spreadMonitorPrice == 0 then 100 else spreadMonitorPrice, 1)
    }
    function MaxContracts(): Option<int> { if eventMaxContracts > 0 then Some(eventMaxContracts) else None }
    function MaxCost(): Option<int> { if eventMaxCostCents > 0 then Some(eventMaxCostCents) else None }
  }

  /** A row of the positions table. */
  datatype Row = Row(qty: int, avgEntry: int)

  /** The database answer for one check; `expired` says that the event's date has passed in its own city. */
  datatype Lookup = LookupFailed | Rows(rows: map<string, Row>, expired: bool)

  // ---- Event keys ---------------------------------------------------------

  function UpperChar(c: char): char {
    if 'a' <= c <= 'z' then (c as int - 32) as char else c
  }

  function Upper(s: string): string {
    seq(|s|, i requires 0 <= i < |s| => UpperChar(s[i]))
  }

  function UpTo(s: string, c: char): (n: nat)
    ensures n <= |s|
  {
    if s == [] || s[0] == c then 0 else 1 + UpTo(s[1..], c)
  }

  /** `SERIES-DATE` of a market ticker, or `None` when it has no two leading non-empty parts. */
  function EventKey(ticker: string): Option<string> {
    var u := Upper(ticker);
    var i := UpTo(u, '-');
    if i == |u| then None
    else
      var rest := u[i + 1..];
      var j := UpTo(rest, '-');
      if i == 0 || j == 0 then None else Some(u[..i] + "-" + rest[..j])
  }

  // ---- Loading and merging -------------------------------------------------

  function RowHolding(r: Row, ceiling: int): Holding {
    Holding(r.qty, if r.avgEntry > 0 then r.avgEntry else ceiling)
  }

  function Loaded(rows: map<string, Row>, key: string, expired: bool, ceiling: int): Holdings {
    if expired then map[]
    else map t | t in rows && EventKey(t) == Some(key) && rows[t].qty > 0 :: RowHolding(rows[t], ceiling)
  }

  method LoadEventHoldings(rows: map<string, Row>, key: string, expired: bool, ceiling: int)
      returns (holdings: Holdings)
    ensures holdings == Loaded(rows, key, expired, ceiling)
  {
    hide EventKey;
    holdings := map[];
    if expired {
      return;
    }
    var todo := rows.Keys;
    while todo != {}
      invariant todo <= rows.Keys
      invariant holdings ==
        map t | t in rows && t !in todo && EventKey(t) == Some(key) && rows[t].qty > 0 :: RowHolding(rows[t], ceiling)
      decreases |todo|
    {
      var t :| t in todo;
      todo := todo - {t};
      if EventKey(t) == Some(key) {
        var qty := Max(rows[t].qty, 0);
        if qty > 0 {
          holdings := holdings[t := Holding(qty, if rows[t].avgEntry > 0 then rows[t].avgEntry else ceiling)];
        }
      }
    }
  }

  predicate Takes(base: Holdings, extra: Holdings, t: string)
    requires t in extra
  {
    extra[t].qty > 0 && (t in base ==> extra[t].qty > base[t].qty)
  }

  /** Per ticker the larger quantity wins, and the base on a tie. */
  function Merged(base: Holdings, extra: Holdings): (r: Holdings)
    ensures forall t :: t in base ==> t in r && r[t].qty >= base[t].qty
    ensures forall t :: t in extra && extra[t].qty > 0 ==> t in r && r[t].qty >= extra[t].qty
    ensures forall t :: t in r ==> (t in base && r[t] == base[t]) || (t in extra && r[t] == extra[t])
  {
    base + map t | t in extra && Takes(base, extra, t) :: extra[t]
  }

  /** The merge after looking at the extra holdings outside `todo`. */
  ghost function MergedSoFar(base: Holdings, extra: Holdings, todo: set<string>): Holdings {
    base + map t | t in extra && t !in todo && Takes(base, extra, t) :: extra[t]
  }

  lemma MergeStep(base: Holdings, extra: Holdings, todo: set<string>, t: string)
    requires t in todo && t in extra
    ensures MergedSoFar(base, extra, todo - {t}) ==
      if Takes(base, extra, t) then MergedSoFar(base, extra, todo)[t := extra[t]] else MergedSoFar(base, extra, todo)
    ensures (t in MergedSoFar(base, extra, todo) <==> t in base)
    ensures t in base ==> MergedSoFar(base, extra, todo)[t] == base[t]
  {
    hide Takes;
    var before := map u | u in extra && u !in todo && Takes(base, extra, u) :: extra[u];
    var after := map u | u in extra && u !in todo - {t} && Takes(base, extra, u) :: extra[u];
    if Takes(base, extra, t) {
      assert after == before[t := extra[t]];
    } else {
      assert after == before;
    }
  }

  method Merge(base: Holdings, extra: Holdings) returns (out: Holdings)
    ensures out == Merged(base, extra)
  {
    out := base;
    var todo := extra.Keys;
    assert MergedSoFar(base, extra, todo) == base && MergedSoFar(base, extra, {}) == Merged(base, extra);
    hide MergedSoFar, Merged;
    while todo != {}
      invariant todo <= extra.Keys
      invariant out == MergedSoFar(base, extra, todo)
      decreases |todo|
    {
      var t :| t in todo;
      MergeStep(base, extra, todo, t);
      todo := todo - {t};
      var qty := Max(extra[t].qty, 0);
      if qty > 0 && (t !in out || qty > out[t].qty) {
        out := out[t := Holding(qty, extra[t].price)];
      }
    }
  }

  /** The caller's own figure for the target market replaces whatever was merged for it. */
  function ReplaceTarget(h: Holdings, ticker: string, existing: int, price: int, ceiling: int): Holdings {
    var same := set t | t in h && Upper(t) == Upper(ticker);
    if existing <= 0 then h - same
    else if same == {} then h[ticker := Holding(existing, if Max(price, 0) != 0 then Max(price, 0) else ceiling)]
    else map t | t in h :: if t in same then Holding(existing, h[t].price) else h[t]
  }

  // ---- Totals ---------------------------------------------------------------

  ghost function Qtys(h: Holdings): map<string, int> { map t | t in h :: h[t].qty }

  ghost function Costs(h: Holdings): map<string, int> { map t | t in h :: h[t].qty * h[t].price }

  method Totals(h: Holdings) returns (qty: int, cost: int)
    ensures qty == Sum(Qtys(h)) && cost == Sum(Costs(h))
  {
    qty, cost := 0, 0;
    var rest := h;
    while rest != map[]
      invariant qty + Sum(Qtys(rest)) == Sum(Qtys(h))
      invariant cost + Sum(Costs(rest)) == Sum(Costs(h))
      decreases |rest|
    {
      var t :| t in rest;
      SumTake(Qtys(rest), t);
      SumTake(Costs(rest), t);
      assert Qtys(rest) - {t} == Qtys(rest - {t});
      assert Costs(rest) - {t} == Costs(rest - {t});
      qty := qty + rest[t].qty;
      cost := cost + rest[t].qty * rest[t].price;
      rest := rest - {t};
    }
  }

  function SameEvent(h: Holdings, key: string): Holdings {
    map t | t in h && EventKey(t) == Some(key) :: h[t]
  }

  /** Working orders with no price are taken at the ceiling, and negative quantities as nothing. */
  function Working(h: Holdings, key: string, ceiling: int): Holdings {
    map t | t in h && EventKey(t) == Some(key) ::
      Holding(Max(h[t].qty, 0), if h[t].price != 0 then h[t].price else ceiling)
  }

  /** The most a submitted buy can pay per contract. */
  function ProposedLimit(cfg: Config, price: int): int {
    if cfg.crossSpreadToCeiling then cfg.Ceiling() else Min(Max(price, 0), cfg.Ceiling())
  }

  ghost function Existing(cfg: Config, rows: map<string, Row>, expired: bool, key: string, ticker: string, price: int,
                          extra: Holdings, targetQty: Option<int>): Holdings
  {
    var merged := Merged(Loaded(rows, key, expired, cfg.Ceiling()), SameEvent(extra, key));
    if targetQty.None? then merged else ReplaceTarget(merged, ticker, targetQty.value, price, cfg.Ceiling())
  }

  ghost predicate WithinCaps(cfg: Config, qty: int, cost: int) {
    && (cfg.MaxContracts().Some? ==> qty <= cfg.MaxContracts().value)
    && (cfg.MaxCost().Some? ==> cost <= cfg.MaxCost().value)
  }

  /** When a buy is let through. */
  ghost predicate Allows(cfg: Config, lookup: Lookup, ticker: string, qty: int, price: int,
                         extra: Holdings, inflight: Holdings, targetQty: Option<int>)
  {
    || (cfg.MaxContracts().None? && cfg.MaxCost().None?)
    || EventKey(ticker).None?
    || (lookup.LookupFailed? && !cfg.exposureFailClosed)
    || (lookup.Rows? &&
        var key := EventKey(ticker).value;
        var held := Existing(cfg, lookup.rows, lookup.expired, key, ticker, price, extra, targetQty);
        var working := Working(inflight, key, cfg.Ceiling());
        WithinCaps(cfg, Sum(Qtys(held)) + Sum(Qtys(working)) + Max(qty, 0),
                   Sum(Costs(held)) + Sum(Costs(working)) + Max(qty, 0) * ProposedLimit(cfg, price)))
  }

  method EventExposureAllowsBuy(cfg: Config, lookup: Lookup, ticker: string, qty: int, price: int,
                                extra: Holdings, inflight: Holdings, targetQty: Option<int>) returns (allowed: bool)
    ensures allowed <==> Allows(cfg, lookup, ticker, qty, price, extra, inflight, targetQty)
  {
    hide EventKey, Loaded, Merged, SameEvent, ReplaceTarget, Working, Qtys, Costs, Sum, ProposedLimit;
    var maxContracts, maxCost := cfg.MaxContracts(), cfg.MaxCost();
    if maxContracts.None? && maxCost.None? {
      return true;
    }
    var key := EventKey(ticker);
    if key.None? {
      return true;
    }
    if lookup.LookupFailed? {
      return !cfg.exposureFailClosed;
    }
    var holdings := LoadEventHoldings(lookup.rows, key.value, lookup.expired, cfg.Ceiling());
    holdings := Merge(holdings, SameEvent(extra, key.value));
    if targetQty.Some? {
      holdings := ReplaceTarget(holdings, ticker, targetQty.value, price, cfg.Ceiling());
    }
    var existingQty, existingCost := Totals(holdings);
    var workingQty, workingCost := Totals(Working(inflight, key.value, cfg.Ceiling()));
    var addQty := Max(qty, 0);
    var totalQty := existingQty + workingQty + addQty;
    var totalCost := existingCost + workingCost + addQty * ProposedLimit(cfg, price);
    var overContracts := maxContracts.Some? && totalQty > maxContracts.value;
    var overCost := maxCost.Some? && totalCost > maxCost.value;
    allowed := !overContracts && !overCost;
  }

  // ---- What the check means for tracked exposure ------------------------------

  /** Contracts, or cents, that a per-ticker ledger attributes to one event. */
  ghost function EventTotal(m: map<string, int>, key: string): int {
    Sum(map t | t in m && EventKey(t) == Some(key) :: m[t])
  }

  lemma EventTotalUpdate(m: map<string, int>, t: string, v: int, key: string)
    ensures EventTotal(m[t := v], key) ==
            EventTotal(m, key) + (if EventKey(t) == Some(key) then v - (if t in m then m[t] else 0) else 0)
  {
    hide EventKey;
    var own := map u | u in m && EventKey(u) == Some(key) :: m[u];
    var updated := map u | u in m[t := v] && EventKey(u) == Some(key) :: m[t := v][u];
    if EventKey(t) == Some(key) {
      assert updated == own[t := v];
      SumUpdate(own, t, v);
    } else {
      assert updated == own;
    }
  }

  /** Rounding a cost up to a per-contract price never understates it. */
  lemma CeilCovers(cost: int, qty: int)
    requires qty > 0
    ensures qty * ((cost + qty - 1) / qty) >= cost
  {
    var n := cost + qty - 1;
    assert n == qty * (n / qty) + n % qty;
  }

  /** The per-ticker ledgers as the holdings a check is given. */
  function AsHoldings(qty: map<string, int>, cost: map<string, int>): Holdings
    requires qty.Keys == cost.Keys
  {
    map t | t in qty && qty[t] > 0 :: Holding(qty[t], (cost[t] + qty[t] - 1) / qty[t])
  }

  /** Each ledger entry that is for something is a holding, at the lowest whole price that covers its cost. */
  lemma AsHoldingsIs(qty: map<string, int>, cost: map<string, int>, t: string)
    requires qty.Keys == cost.Keys
    ensures var h := AsHoldings(qty, cost);
      && (t in h <==> t in qty && qty[t] > 0)
      && (t in h ==> h[t].qty == qty[t] && (h[t].price - 1) * qty[t] < cost[t] <= h[t].price * qty[t])
  {
    if t in qty && qty[t] > 0 {
      CeilCovers(cost[t], qty[t]);
      DivIsFloor(cost[t] + qty[t] - 1, qty[t]);
      var p := (cost[t] + qty[t] - 1) / qty[t];
      assert (p - 1) * qty[t] == p * qty[t] - qty[t];
    }
  }

  /** Every database row is known to the ledgers, which hold at least as much and, on equal quantity, at most the cost
      the database would show. */
  ghost predicate Covered(cfg: Config, rows: map<string, Row>, qty: map<string, int>, cost: map<string, int>)
    requires qty.Keys == cost.Keys
  {
    && (forall t :: t in qty ==> qty[t] > 0)
    && (forall t :: t in rows && rows[t].qty > 0 ==> t in qty && rows[t].qty <= qty[t])
    && (forall t :: t in rows && rows[t].qty > 0 && t in qty && rows[t].qty == qty[t] ==>
          cost[t] <= rows[t].qty * RowHolding(rows[t], cfg.Ceiling()).price)
  }

  /** What the check adds up for an event is never less than what the ledgers track for it. */
  lemma HeldCoversLedger(cfg: Config, rows: map<string, Row>, expired: bool, key: string, ticker: string, price: int,
                         qty: map<string, int>, cost: map<string, int>)
    requires qty.Keys == cost.Keys && Covered(cfg, rows, qty, cost)
    ensures var held := Existing(cfg, rows, expired, key, ticker, price, AsHoldings(qty, cost), None);
      EventTotal(qty, key) <= Sum(Qtys(held)) && EventTotal(cost, key) <= Sum(Costs(held))
  {
    var held := Existing(cfg, rows, expired, key, ticker, price, AsHoldings(qty, cost), None);
    var q := map t | t in qty && EventKey(t) == Some(key) :: qty[t];
    var c := map t | t in cost && EventKey(t) == Some(key) :: cost[t];
    hide Existing, Covered, AsHoldings, EventKey;
    forall t | t in q ensures t in held && q[t] <= held[t].qty && c[t] <= held[t].qty * held[t].price {
      HeldCoversTicker(cfg, rows, expired, key, ticker, price, qty, cost, t);
    }
    forall t | t in held ensures t in q {
      HeldIsKnown(cfg, rows, expired, key, ticker, price, qty, cost, t);
    }
    SumMonotone(q, Qtys(held));
    SumMonotone(c, Costs(held));
  }

  lemma HeldCoversTicker(cfg: Config, rows: map<string, Row>, expired: bool, key: string, ticker: string, price: int,
                         qty: map<string, int>, cost: map<string, int>, t: string)
    requires qty.Keys == cost.Keys && Covered(cfg, rows, qty, cost)
    requires t in qty && EventKey(t) == Some(key)
    ensures var held := Existing(cfg, rows, expired, key, ticker, price, AsHoldings(qty, cost), None);
      t in held && qty[t] <= held[t].qty && cost[t] <= held[t].qty * held[t].price
  {
    hide EventKey;
    CeilCovers(cost[t], qty[t]);
    assert t in SameEvent(AsHoldings(qty, cost), key);
  }

  lemma HeldIsKnown(cfg: Config, rows: map<string, Row>, expired: bool, key: string, ticker: string, price: int,
                    qty: map<string, int>, cost: map<string, int>, t: string)
    requires qty.Keys == cost.Keys && Covered(cfg, rows, qty, cost)
    ensures t in Existing(cfg, rows, expired, key, ticker, price, AsHoldings(qty, cost), None) ==>
              t in qty && EventKey(t) == Some(key)
  {
    hide EventKey;
  }

  /** A buy the check lets through, filled in part or in full at no more than the submitted limit, leaves the event
      within every enabled cap. */
  lemma AllowedBuyStaysWithinCaps(cfg: Config, lookup: Lookup, ticker: string, want: int, price: int,
                                  qty: map<string, int>, cost: map<string, int>, filled: int, paid: int)
    requires qty.Keys == cost.Keys
    requires lookup.Rows? ==> Covered(cfg, lookup.rows, qty, cost)
    requires lookup.LookupFailed? ==> cfg.exposureFailClosed
    requires EventKey(ticker).Some?
    requires Allows(cfg, lookup, ticker, want, price, AsHoldings(qty, cost), map[], None)
    requires 0 <= filled <= want && paid <= want * ProposedLimit(cfg, price)
    ensures var key := EventKey(ticker).value;
      WithinCaps(cfg, EventTotal(qty, key) + filled, EventTotal(cost, key) + paid)
  {
    var key := EventKey(ticker).value;
    NothingWorking(key, cfg.Ceiling());
    hide EventKey, Existing, Covered, AsHoldings, EventTotal, Working, Qtys, Costs, Sum, ProposedLimit;
    if lookup.Rows? {
      HeldCoversLedger(cfg, lookup.rows, lookup.expired, key, ticker, price, qty, cost);
    }
  }

  lemma NothingWorking(key: string, ceiling: int)
    ensures Sum(Qtys(Working(map[], key, ceiling))) == 0 && Sum(Costs(Working(map[], key, ceiling))) == 0
  {
    hide EventKey;
    assert Working(map[], key, ceiling) == map[];
    assert Qtys(map[]) == map[] && Costs(map[]) == map[];
  }

  // ---- The check ticker by ticker ----------------------------------------------

  lemma {:induction false} UpToFirst(s: string, c: char)
    ensures forall i :: 0 <= i < UpTo(s, c) ==> s[i] != c
    ensures UpTo(s, c) < |s| ==> s[UpTo(s, c)] == c
  {
    if s != [] && s[0] != c { UpToFirst(s[1..], c); }
  }

  /** The text, in capitals, is the series, a dash, the date and then nothing or another dash. */
  ghost predicate SplitsInto(text: string, series: string, date: string, rest: string) {
    && series != [] && date != [] && '-' !in series && '-' !in date && text == series + "-" + date + rest
    && (rest == [] || rest[0] == '-')
  }

  /** Which tickers belong to an event: those that begin, in either case, with its series, a dash and its date. */
  lemma EventKeyIff(ticker: string, key: string)
    ensures EventKey(ticker) == Some(key) <==>
      exists series, date, rest :: SplitsInto(Upper(ticker), series, date, rest) && key == series + "-" + date
  {
    if EventKey(ticker) == Some(key) { SplitOfKey(ticker, key); }
    hide EventKey, Upper;
    if series, date, rest :| SplitsInto(Upper(ticker), series, date, rest) && key == series + "-" + date {
      KeyFromSplit(ticker, series, date, rest);
    }
  }

  lemma SplitOfKey(ticker: string, key: string)
    requires EventKey(ticker) == Some(key)
    ensures exists series, date, rest ::
      SplitsInto(Upper(ticker), series, date, rest) && key == series + "-" + date
  {
    hide Upper;
    var u := Upper(ticker);
    var i := UpTo(u, '-');
    UpToFirst(u, '-');
    var tail := u[i + 1..];
    var j := UpTo(tail, '-');
    UpToFirst(tail, '-');
    hide UpTo;
    assert u == u[..i] + "-" + tail[..j] + tail[j..];
    assert SplitsInto(u, u[..i], tail[..j], tail[j..]);
  }

  lemma KeyFromSplit(ticker: string, series: string, date: string, rest: string)
    requires SplitsInto(Upper(ticker), series, date, rest)
    ensures EventKey(ticker) == Some(series + "-" + date)
  {
    KeyOfSplit(Upper(ticker), series, date, rest);
    hide SplitsInto, Upper, UpTo;
  }

  lemma KeyOfSplit(u: string, series: string, date: string, rest: string)
    requires SplitsInto(u, series, date, rest)
    ensures var i := UpTo(u, '-');
      i == |series| && i < |u| && u[..i] == series
      && var tail := u[i + 1..]; var j := UpTo(tail, '-'); j == |date| && tail[..j] == date
  {
    UpToEnds(series, "-" + date + rest);
    assert u == series + ("-" + date + rest);
    assert u[|series| + 1..] == date + rest;
    UpToEnds(date, rest);
  }

  lemma {:induction false} UpToEnds(a: string, b: string)
    requires '-' !in a && (b == [] || b[0] == '-')
    ensures UpTo(a + b, '-') == |a|
  {
    if a != [] {
      assert (a + b)[1..] == a[1..] + b;
      UpToEnds(a[1..], b);
    } else {
      assert a + b == b;
    }
  }

  /** Case does not matter: capitals stand for themselves, and so does everything that is not a letter from a to z. */
  lemma UpperIs(s: string, i: nat)
    requires i < |s|
    ensures |Upper(s)| == |s|
    ensures Upper(s)[i] == if s[i] < 'a' || 'z' < s[i] then s[i] else ('A' as int + (s[i] as int - 'a' as int)) as char
  {}

  /** What counts as held for an event: of the table, until the event's date has passed, and of memory the larger
      quantity, the table's on a tie; a row without an entry price counts at the ceiling. */
  ghost predicate IsMerged(cfg: Config, rows: map<string, Row>, expired: bool, key: string, extra: Holdings,
                           h: Holdings)
  {
    forall t ::
      var db := if !expired && t in rows && rows[t].qty > 0 then rows[t].qty else 0;
      var mem := if t in extra && extra[t].qty > 0 then extra[t].qty else 0;
      && (t in h <==> EventKey(t) == Some(key) && (db > 0 || mem > 0))
      && (t in h ==>
            h[t] == if mem > db then extra[t]
                    else Holding(db, if t in rows && rows[t].avgEntry > 0 then rows[t].avgEntry else cfg.Ceiling()))
  }

  /** A figure given for the target market stands in for whatever is held under its name, in either case; a target not
      held is added at its price. */
  ghost predicate IsReplaced(cfg: Config, m: Holdings, ticker: string, price: int, target: Option<int>, h: Holdings) {
    if target.None? then h == m
    else
      && (forall t :: Upper(t) != Upper(ticker) ==> (t in h <==> t in m) && (t in m ==> h[t] == m[t]))
      && var known := exists t :: t in m && Upper(t) == Upper(ticker);
         forall t :: Upper(t) == Upper(ticker) ==>
           && (t in h <==> target.value > 0 && (t in m || (!known && t == ticker)))
           && (t in h ==> h[t] == Holding(target.value, if t in m then m[t].price
                                                        else if price > 0 then price else cfg.Ceiling()))
  }

  ghost predicate IsWorking(cfg: Config, key: string, inflight: Holdings, w: Holdings) {
    forall t ::
      && (t in w <==> t in inflight && EventKey(t) == Some(key))
      && (t in w ==> w[t] == Holding(Max(inflight[t].qty, 0),
                                     if inflight[t].price == 0 then cfg.Ceiling() else inflight[t].price))
  }

  lemma MergedIs(cfg: Config, rows: map<string, Row>, expired: bool, key: string, extra: Holdings)
    ensures IsMerged(cfg, rows, expired, key, extra,
                     Merged(Loaded(rows, key, expired, cfg.Ceiling()), SameEvent(extra, key)))
  {
    hide EventKey;
  }

  lemma SameHoldings(a: Holdings, b: Holdings)
    requires forall t :: (t in a <==> t in b) && (t in a ==> a[t] == b[t])
    ensures a == b
  {}

  lemma MergedUnique(cfg: Config, rows: map<string, Row>, expired: bool, key: string, extra: Holdings, a: Holdings,
                     b: Holdings)
    requires IsMerged(cfg, rows, expired, key, extra, a) && IsMerged(cfg, rows, expired, key, extra, b)
    ensures a == b
  {
    hide EventKey;
    SameHoldings(a, b);
  }

  lemma ReplacedIs(cfg: Config, m: Holdings, ticker: string, price: int, target: Option<int>)
    ensures IsReplaced(cfg, m, ticker, price, target,
                       if target.None? then m else ReplaceTarget(m, ticker, target.value, price, cfg.Ceiling()))
  {
    hide Upper;
    if target.Some? {
      var same := set t | t in m && Upper(t) == Upper(ticker);
      var known := exists t :: t in m && Upper(t) == Upper(ticker);
      if known {
        var t :| t in m && Upper(t) == Upper(ticker);
        assert t in same;
      } else {
        assert same == {};
      }
      var h := ReplaceTarget(m, ticker, target.value, price, cfg.Ceiling());
      forall t | Upper(t) != Upper(ticker) ensures (t in h <==> t in m) && (t in m ==> h[t] == m[t]) {
        assert t !in same;
      }
    }
  }

  lemma ReplacedUnique(cfg: Config, m: Holdings, ticker: string, price: int, target: Option<int>, a: Holdings,
                       b: Holdings)
    requires IsReplaced(cfg, m, ticker, price, target, a) && IsReplaced(cfg, m, ticker, price, target, b)
    ensures a == b
  {
    hide Upper;
    forall t ensures (t in a <==> t in b) && (t in a ==> a[t] == b[t]) {
      if Upper(t) == Upper(ticker) {} else {}
    }
    SameHoldings(a, b);
  }

  lemma WorkingIs(cfg: Config, key: string, inflight: Holdings, w: Holdings)
    requires IsWorking(cfg, key, inflight, w)
    ensures w == Working(inflight, key, cfg.Ceiling())
  {
    hide EventKey;
  }

  /** When a buy is let through: no cap is set, or the ticker belongs to no event, or the table cannot be read and the
      check fails open, or what is held and working for the event together with this buy, at the ceiling when buys cross
      the spread and at the lower of its price and the ceiling otherwise, is within each cap that is set. */
  lemma AllowsIff(cfg: Config, lookup: Lookup, ticker: string, key: string, qty: int, price: int, extra: Holdings,
                  inflight: Holdings, target: Option<int>, merged: Holdings, held: Holdings, working: Holdings)
    requires lookup.Rows? && EventKey(ticker) == Some(key) ==>
      && IsMerged(cfg, lookup.rows, lookup.expired, key, extra, merged)
      && IsReplaced(cfg, merged, ticker, price, target, held) && IsWorking(cfg, key, inflight, working)
    requires EventKey(ticker).Some? ==> EventKey(ticker).value == key
    ensures Allows(cfg, lookup, ticker, qty, price, extra, inflight, target) <==>
      || (cfg.eventMaxContracts <= 0 && cfg.eventMaxCostCents <= 0)
      || EventKey(ticker) != Some(key)
      || (if lookup.LookupFailed? then !cfg.exposureFailClosed
          else
            var n := if qty > 0 then qty else 0;
            var limit := if cfg.crossSpreadToCeiling || price > cfg.Ceiling() then cfg.Ceiling()
                else if price > 0 then price else 0;
            && (cfg.eventMaxContracts <= 0 || Sum(Qtys(held)) + Sum(Qtys(working)) + n <= cfg.eventMaxContracts)
            && (cfg.eventMaxCostCents <= 0
                || Sum(Costs(held)) + Sum(Costs(working)) + n * limit <= cfg.eventMaxCostCents))
  {
    hide EventKey, IsMerged, IsReplaced, IsWorking, Qtys, Costs, Sum, Merged, Loaded, SameEvent, ReplaceTarget, Working;
    if lookup.Rows? && EventKey(ticker) == Some(key) {
      MergedIs(cfg, lookup.rows, lookup.expired, key, extra);
      MergedUnique(cfg, lookup.rows, lookup.expired, key, extra, merged,
                   Merged(Loaded(lookup.rows, key, lookup.expired, cfg.Ceiling()), SameEvent(extra, key)));
      ReplacedIs(cfg, merged, ticker, price, target);
      ReplacedUnique(cfg, merged, ticker, price, target, held,
                     if target.None? then merged
                     else ReplaceTarget(merged, ticker, target.value, price, cfg.Ceiling()));
      WorkingIs(cfg, key, inflight, working);
    }
  }

  /** The ceiling is the monitor's price, at least one cent, and the whole dollar when none is set. */
  lemma CeilingIs(cfg: Config)
    ensures cfg.Ceiling() == if cfg.spreadMonitorPrice == 0 then 100
                             else if cfg.spreadMonitorPrice < 1 then 1 else cfg.spreadMonitorPrice
  {}
}
