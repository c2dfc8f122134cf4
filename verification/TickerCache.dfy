/** The in-memory order books: sorted level lists kept in step with snapshots and deltas, and the spoof-guarded prices
    read from them. */
module TickerCacheModel {
  import opened Common

  datatype Level = Level(price: int, quantity: int)

  /** A snapshot entry: price already in cents, quantity as the parsed decimal. */
  datatype Entry = Entry(price: int, qty: real)

  /** Python's `int`: truncation toward zero. */
  function Truncate(x: real): int { if x >= 0.0 then x.Floor else -((-x).Floor) }

  /** The whole part, with the sign of the number. */
  lemma TruncateIff(x: real, n: int)
    ensures Truncate(x) == n <==>
      if x >= 0.0 then n as real <= x < n as real + 1.0 else n as real - 1.0 < x <= n as real
  {
    var f, g := x.Floor, (-x).Floor;
    assert f as real <= x < f as real + 1.0 && g as real <= -x < g as real + 1.0;
    if x >= 0.0 {
      if n < f { assert n + 1 <= f; assert n as real + 1.0 <= f as real; }
      if n > f { assert n >= f + 1; assert n as real >= f as real + 1.0; }
    } else {
      if n < -g { assert n <= -g - 1; assert n as real <= (-g) as real - 1.0; }
      if n > -g { assert n >= -g + 1; assert n as real >= (-g) as real + 1.0; }
      assert (-g) as real == -(g as real);
    }
  }

  // ------------------------------------------------------------------
  // Level lists
  // ------------------------------------------------------------------

  function NegPrice(l: Level): int { -l.price }

  /** `sort(key=price, reverse=True)`, which keeps equal prices in their given order. */
  function SortDescending(levels: seq<Level>): seq<Level> { StableSort(levels, NegPrice) }

  function KeptEntries(entries: seq<Entry>): seq<Level> {
    if entries == [] then []
    else
      var e := entries[|entries| - 1];
      KeptEntries(entries[..|entries| - 1]) + (if e.qty > 0.0 then [Level(e.price, Truncate(e.qty))] else [])
  }

  function FromSnapshot(entries: seq<Entry>): seq<Level> { SortDescending(KeptEntries(entries)) }

  function Without(levels: seq<Level>, price: int): seq<Level> {
    if levels == [] then []
    else (if levels[0].price != price then [levels[0]] else []) + Without(levels[1..], price)
  }

  /** The quantity of the first level at a price, or zero. */
  function QtyAt(levels: seq<Level>, price: int): int {
    if levels == [] then 0 else if levels[0].price == price then levels[0].quantity else QtyAt(levels[1..], price)
  }

  function WithDelta(levels: seq<Level>, price: int, delta: int): seq<Level> {
    var qty := QtyAt(levels, price) + delta;
    SortDescending(Without(levels, price) + (if qty > 0 then [Level(price, qty)] else []))
  }

  // ------------------------------------------------------------------
  // The book as a map
  // ------------------------------------------------------------------

  /** Strictly descending prices, each with something to trade. */
  ghost predicate WellFormed(levels: seq<Level>) {
    && (forall i, j :: 0 <= i < j < |levels| ==> levels[i].price > levels[j].price)
    && (forall i :: 0 <= i < |levels| ==> levels[i].quantity > 0)
  }

  /** The map a level list stands for. */
  ghost predicate Represents(levels: seq<Level>, m: map<int, int>) {
    && (forall p :: p in m <==> exists i :: 0 <= i < |levels| && levels[i].price == p)
    && (forall i :: 0 <= i < |levels| ==> levels[i].price in m && m[levels[i].price] == levels[i].quantity)
  }

  function DeltaMap(m: map<int, int>, price: int, delta: int): map<int, int> {
    var qty := (if price in m then m[price] else 0) + delta;
    if qty > 0 then m[price := qty] else m - {price}
  }

  lemma Largest(levels: seq<Level>, m: map<int, int>)
    requires WellFormed(levels) && Represents(levels, m)
    ensures levels == [] <==> m.Keys == {}
    ensures levels != [] ==> levels[0].price in m && forall p :: p in m ==> p <= levels[0].price
  {
    if levels != [] {
      assert levels[0].price in m.Keys;
      forall p | p in m ensures p <= levels[0].price {
        var i :| 0 <= i < |levels| && levels[i].price == p;
      }
    } else {
      assert forall p :: p !in m.Keys;
    }
  }

  /** One map has exactly one well-formed level list. */
  lemma {:induction false} RepresentationUnique(a: seq<Level>, b: seq<Level>, m: map<int, int>)
    requires WellFormed(a) && WellFormed(b) && Represents(a, m) && Represents(b, m)
    ensures a == b
    decreases |a|
  {
    SameFirst(a, b, m);
    if a != [] {
      TailRepresents(a, m);
      TailRepresents(b, m);
      hide Represents, WellFormed;
      RepresentationUnique(a[1..], b[1..], m - {a[0].price});
      assert a == [a[0]] + a[1..] && b == [b[0]] + b[1..];
    }
  }

  lemma SameFirst(a: seq<Level>, b: seq<Level>, m: map<int, int>)
    requires WellFormed(a) && WellFormed(b) && Represents(a, m) && Represents(b, m)
    ensures a == [] <==> b == []
    ensures a != [] ==> a[0] == b[0]
  {
    Largest(a, m);
    Largest(b, m);
    hide WellFormed;
  }

  lemma TailRepresents(a: seq<Level>, m: map<int, int>)
    requires a != [] && WellFormed(a) && Represents(a, m)
    ensures WellFormed(a[1..]) && Represents(a[1..], m - {a[0].price})
  {
    var rest := m - {a[0].price};
    forall p | p in rest ensures exists i :: 0 <= i < |a[1..]| && a[1..][i].price == p {
      var i :| 0 <= i < |a| && a[i].price == p;
      assert a[1..][i - 1].price == p;
    }
    forall i | 0 <= i < |a[1..]| ensures a[1..][i].price in rest && rest[a[1..][i].price] == a[1..][i].quantity {
      assert a[1..][i] == a[i + 1];
    }
  }

  lemma {:induction false} WithoutMembers(levels: seq<Level>, price: int)
    ensures forall l :: l in Without(levels, price) <==> l in levels && l.price != price
  {
    if levels != [] {
      WithoutMembers(levels[1..], price);
      assert levels == [levels[0]] + levels[1..];
    }
  }

  lemma {:induction false} WithoutDistinct(levels: seq<Level>, price: int)
    requires WellFormed(levels)
    ensures Distinct(Without(levels, price))
  {
    if levels != [] {
      WithoutDistinct(levels[1..], price);
      WithoutMembers(levels[1..], price);
      forall l | l in Without(levels[1..], price) ensures l.price < levels[0].price {
        var j :| 0 <= j < |levels[1..]| && levels[1..][j] == l;
      }
    }
  }

  ghost predicate Distinct(levels: seq<Level>) {
    forall i, j :: 0 <= i < j < |levels| ==> levels[i].price != levels[j].price
  }

  lemma {:induction false} InsertDistinct(x: Level, s: seq<Level>)
    requires Distinct(s) && forall l :: l in s ==> l.price != x.price
    ensures Distinct(Insert(x, s, NegPrice))
  {
    if s != [] && NegPrice(x) > NegPrice(s[0]) {
      InsertDistinct(x, s[1..]);
      InsertPermutes(x, s[1..], NegPrice);
      var rest := Insert(x, s[1..], NegPrice);
      forall j | 0 <= j < |rest| ensures rest[j].price != s[0].price {
        assert rest[j] in multiset{x} + multiset(s[1..]);
        assert rest[j] == x || rest[j] in s[1..];
      }
    }
  }

  /** Sorting distinct prices gives strictly descending ones. */
  lemma {:induction false} SortKeepsDistinct(levels: seq<Level>)
    requires Distinct(levels)
    ensures Distinct(SortDescending(levels))
  {
    if levels != [] {
      SortKeepsDistinct(levels[1..]);
      SortCorrect(levels[1..], NegPrice);
      InsertDistinct(levels[0], SortDescending(levels[1..]));
    }
  }

  lemma SortWellFormed(levels: seq<Level>)
    requires Distinct(levels) && forall l :: l in levels ==> l.quantity > 0
    ensures WellFormed(SortDescending(levels))
    ensures forall l :: l in SortDescending(levels) <==> l in levels
  {
    SortKeepsDistinct(levels);
    SortCorrect(levels, NegPrice);
    var sorted := SortDescending(levels);
    forall i, j | 0 <= i < j < |sorted| ensures sorted[i].price > sorted[j].price {
      assert NegPrice(sorted[i]) <= NegPrice(sorted[j]);
    }
    forall i | 0 <= i < |sorted| ensures sorted[i].quantity > 0 { assert sorted[i] in levels; }
  }

  lemma {:induction false} QtyAtMap(levels: seq<Level>, m: map<int, int>, price: int)
    requires WellFormed(levels) && Represents(levels, m)
    ensures QtyAt(levels, price) == if price in m then m[price] else 0
    decreases |levels|
  {
    if levels != [] && levels[0].price != price {
      TailRepresents(levels, m);
      QtyAtMap(levels[1..], m - {levels[0].price}, price);
    }
  }

  /** A delta keeps the list strictly descending and positive, and sets the price's quantity to max(0, old + delta). */
  lemma DeltaRefines(levels: seq<Level>, m: map<int, int>, price: int, delta: int)
    requires WellFormed(levels) && Represents(levels, m)
    ensures WellFormed(WithDelta(levels, price, delta))
    ensures Represents(WithDelta(levels, price, delta), DeltaMap(m, price, delta))
  {
    QtyAtMap(levels, m, price);
    WithoutMembers(levels, price);
    var qty := QtyAt(levels, price) + delta;
    var all := Without(levels, price) + (if qty > 0 then [Level(price, qty)] else []);
    ChangedLevels(levels, price, qty);
    hide Distinct, WellFormed, Represents, Without, QtyAt;
    SortWellFormed(all);
    assert forall l :: l in all <==> l in Without(levels, price) || (qty > 0 && l == Level(price, qty));
    SameContents(levels, all, WithDelta(levels, price, delta), m, price, delta);
  }

  lemma ChangedLevels(levels: seq<Level>, price: int, qty: int)
    requires WellFormed(levels)
    ensures var all := Without(levels, price) + (if qty > 0 then [Level(price, qty)] else []);
      Distinct(all) && forall l :: l in all ==> l.quantity > 0
  {
    WithoutMembers(levels, price);
    WithoutDistinct(levels, price);
    var kept := Without(levels, price);
    var all := kept + (if qty > 0 then [Level(price, qty)] else []);
    forall l | l in all ensures l.quantity > 0 {
      if l in kept { assert l in levels; }
    }
    hide Without, WellFormed;
    forall i, j | 0 <= i < j < |all| ensures all[i].price != all[j].price {
      if j == |kept| { assert all[i] in kept; }
    }
  }

  lemma SameContents(levels: seq<Level>, all: seq<Level>, sorted: seq<Level>, m: map<int, int>, price: int, delta: int)
    requires Represents(levels, m)
    requires forall l :: l in sorted <==> l in all
    requires var qty := (if price in m then m[price] else 0) + delta;
      forall l :: l in all <==> (l in levels && l.price != price) || (qty > 0 && l == Level(price, qty))
    ensures Represents(sorted, DeltaMap(m, price, delta))
  {
    var m' := DeltaMap(m, price, delta);
    var qty := (if price in m then m[price] else 0) + delta;
    forall i | 0 <= i < |sorted| ensures sorted[i].price in m' && m'[sorted[i].price] == sorted[i].quantity {
      assert sorted[i] in all;
      if sorted[i].price != price {
        var j :| 0 <= j < |levels| && levels[j] == sorted[i];
      }
    }
    forall p | p in m' ensures exists i :: 0 <= i < |sorted| && sorted[i].price == p {
      if p == price {
        assert Level(price, qty) in sorted;
      } else {
        var j :| 0 <= j < |levels| && levels[j].price == p;
        assert levels[j] in sorted;
      }
    }
  }

  /** The book a snapshot produces is well-formed if and only if its kept entries have distinct prices and each of them
      is for at least one whole contract. */
  lemma SnapshotWellFormedIff(entries: seq<Entry>)
    ensures WellFormed(FromSnapshot(entries)) <==> Whole(entries)
  {
    var kept := KeptEntries(entries);
    var sorted := FromSnapshot(entries);
    SortCorrect(kept, NegPrice);
    if WellFormed(sorted) {
      forall l | l in kept ensures l.quantity > 0 {
        assert l in sorted;
      }
      if !Distinct(kept) {
        var i, j :| 0 <= i < j < |kept| && kept[i].price == kept[j].price;
        DuplicateSurvives(kept, sorted, i, j);
      }
    } else if Distinct(kept) && forall l :: l in kept ==> l.quantity > 0 {
      SortWellFormed(kept);
    }
  }

  /** Two levels of one price are still two after sorting. */
  lemma DuplicateSurvives(kept: seq<Level>, sorted: seq<Level>, i: nat, j: nat)
    requires multiset(sorted) == multiset(kept) && i < j < |kept| && kept[i].price == kept[j].price
    ensures !WellFormed(sorted)
  {
    if WellFormed(sorted) {
      assert kept[i] in multiset(sorted) && kept[j] in multiset(sorted);
      if kept[i] == kept[j] {
        assert kept == kept[..j] + [kept[j]] + kept[j + 1..];
        assert kept[i] in kept[..j];
        assert multiset(sorted)[kept[i]] >= 2;
        UniqueInSorted(sorted, kept[i]);
      }
    }
  }

  lemma {:induction false} UniqueInSorted(s: seq<Level>, l: Level)
    requires WellFormed(s)
    ensures multiset(s)[l] <= 1
    decreases |s|
  {
    if s != [] {
      assert s == [s[0]] + s[1..];
      UniqueInSorted(s[1..], l);
      if s[0] == l {
        forall k | 0 <= k < |s[1..]| ensures s[1..][k] != l { assert s[1..][k] == s[k + 1]; }
        assert multiset(s[1..])[l] == 0;
      }
    }
  }

  /** A fraction of a contract is kept as a level of quantity zero. */
  lemma FractionLeavesEmptyLevel()
    ensures FromSnapshot([Entry(40, 0.5)]) == [Level(40, 0)] && !WellFormed(FromSnapshot([Entry(40, 0.5)]))
  {
    assert [Entry(40, 0.5)][..0] == [];
    assert (0.5).Floor == 0;
    assert KeptEntries([Entry(40, 0.5)]) == [Level(40, 0)];
    assert [Level(40, 0)][1..] == [];
  }

  /** The price-to-quantity map a snapshot describes. */
  function SnapshotMap(entries: seq<Entry>): map<int, int> {
    if entries == [] then map[]
    else
      var m, e := SnapshotMap(entries[..|entries| - 1]), entries[|entries| - 1];
      if e.qty > 0.0 then m[e.price := Truncate(e.qty)] else m
  }

  /** The kept entries have distinct prices and are for at least one whole contract each. */
  ghost predicate Whole(entries: seq<Entry>) {
    Distinct(KeptEntries(entries)) && forall l :: l in KeptEntries(entries) ==> l.quantity > 0
  }

  lemma RepresentsMore(levels: seq<Level>, m: map<int, int>, l: Level)
    requires Represents(levels, m) && Distinct(levels + [l])
    ensures Represents(levels + [l], m[l.price := l.quantity])
  {
    var more := levels + [l];
    assert more[|levels|] == l;
    forall i | 0 <= i < |levels| ensures more[i] == levels[i] && levels[i].price != l.price {
      assert more[i].price != more[|levels|].price;
    }
    forall p | p in m ensures exists i :: 0 <= i < |more| && more[i].price == p {
      var i :| 0 <= i < |levels| && levels[i].price == p;
      assert more[i].price == p;
    }
  }

  lemma {:induction false} KeptRepresents(entries: seq<Entry>)
    requires Distinct(KeptEntries(entries))
    ensures Represents(KeptEntries(entries), SnapshotMap(entries))
  {
    if entries != [] {
      var before, e := entries[..|entries| - 1], entries[|entries| - 1];
      var kept := KeptEntries(before);
      assert Distinct(kept) by {
        forall i, j | 0 <= i < j < |kept| ensures kept[i].price != kept[j].price {
          assert KeptEntries(entries)[i] == kept[i] && KeptEntries(entries)[j] == kept[j];
        }
      }
      KeptRepresents(before);
      if e.qty > 0.0 {
        RepresentsMore(kept, SnapshotMap(before), Level(e.price, Truncate(e.qty)));
      } else {
        assert KeptEntries(entries) == kept;
      }
    }
  }

  lemma RepresentsReordered(a: seq<Level>, b: seq<Level>, m: map<int, int>)
    requires Represents(a, m) && forall l :: l in b <==> l in a
    ensures Represents(b, m)
  {
    forall i | 0 <= i < |b| ensures b[i].price in m && m[b[i].price] == b[i].quantity {
      assert b[i] in a;
      var j :| 0 <= j < |a| && a[j] == b[i];
    }
    forall p | p in m ensures exists i :: 0 <= i < |b| && b[i].price == p {
      var j :| 0 <= j < |a| && a[j].price == p;
      assert a[j] in b;
    }
  }

  /** A snapshot with distinct prices gives the list of the map it describes. */
  lemma SnapshotRepresents(entries: seq<Entry>)
    requires Distinct(KeptEntries(entries))
    ensures Represents(FromSnapshot(entries), SnapshotMap(entries))
  {
    KeptRepresents(entries);
    SortCorrect(KeptEntries(entries), NegPrice);
    RepresentsReordered(KeptEntries(entries), FromSnapshot(entries), SnapshotMap(entries));
  }

  // ------------------------------------------------------------------
  // Best prices
  // ------------------------------------------------------------------

  datatype OrderBook = OrderBook(yesBids: seq<Level>, yesAsks: seq<Level>, noBids: seq<Level>) {
    function BestBid(): Option<int> { if yesBids != [] then Some(yesBids[0].price) else None }

    function BestAsk(): Option<int> {
      if yesAsks != [] then Some(yesAsks[0].price)
      else if noBids != [] then Some(100 - noBids[0].price) else None
    }
  }

  /** The best bid is the largest YES price, and the derived ask is 100 minus the largest NO price. */
  lemma BestPrices(ob: OrderBook, yes: map<int, int>, no: map<int, int>)
    requires WellFormed(ob.yesBids) && Represents(ob.yesBids, yes)
    requires WellFormed(ob.noBids) && Represents(ob.noBids, no) && ob.yesAsks == []
    ensures ob.BestBid().None? <==> yes.Keys == {}
    ensures ob.BestBid().Some? ==> ob.BestBid().value in yes && forall p :: p in yes ==> p <= ob.BestBid().value
    ensures ob.BestAsk().None? <==> no.Keys == {}
    ensures ob.BestAsk().Some? ==> 100 - ob.BestAsk().value in no && forall p :: p in no ==>
      100 - p >= ob.BestAsk().value
  {
    Largest(ob.yesBids, yes);
    Largest(ob.noBids, no);
  }

  // ------------------------------------------------------------------
  // The feed of one market
  // ------------------------------------------------------------------

  datatype Side = Yes | No

  /** A delta may lack any of its fields. */
  datatype Message =
    | Snapshot(yes: seq<Entry>, no: seq<Entry>)
    | Delta(price: Option<int>, delta: Option<real>, side: Option<Side>)

  predicate Complete(m: Message) { m.Snapshot? || (m.price.Some? && m.delta.Some? && m.side.Some?) }

  /** The book after a message; a delta before the first snapshot, or with a missing field, changes nothing. */
  function BookStep(ob: Option<OrderBook>, m: Message): Option<OrderBook> {
    match m
    case Snapshot(yes, no) => Some(OrderBook(FromSnapshot(yes), [], FromSnapshot(no)))
    case Delta(price, delta, side) =>
      if ob.None? || !Complete(m) then ob
      else
        var d := Truncate(delta.value);
        if side.value.Yes? then Some(ob.value.(yesBids := WithDelta(ob.value.yesBids, price.value, d)))
        else Some(ob.value.(noBids := WithDelta(ob.value.noBids, price.value, d)))
  }

  /** The two sides as plain maps. */
  datatype Sides = Sides(yes: map<int, int>, no: map<int, int>)

  function SidesStep(m: Option<Sides>, msg: Message): Option<Sides> {
    match msg
    case Snapshot(yes, no) => Some(Sides(SnapshotMap(yes), SnapshotMap(no)))
    case Delta(price, delta, side) =>
      if m.None? || !Complete(msg) then m
      else
        var d := Truncate(delta.value);
        if side.value.Yes? then Some(m.value.(yes := DeltaMap(m.value.yes, price.value, d)))
        else Some(m.value.(no := DeltaMap(m.value.no, price.value, d)))
  }

  function Book(msgs: seq<Message>): Option<OrderBook> {
    if msgs == [] then None else BookStep(Book(msgs[..|msgs| - 1]), msgs[|msgs| - 1])
  }

  function SidesOf(msgs: seq<Message>): Option<Sides> {
    if msgs == [] then None else SidesStep(SidesOf(msgs[..|msgs| - 1]), msgs[|msgs| - 1])
  }

  /** Both lists are the well-formed lists of the two maps. */
  ghost predicate Tracks(ob: Option<OrderBook>, m: Option<Sides>) {
    && (ob.Some? <==> m.Some?)
    && (ob.Some? ==>
          && ob.value.yesAsks == []
          && WellFormed(ob.value.yesBids) && Represents(ob.value.yesBids, m.value.yes)
          && WellFormed(ob.value.noBids) && Represents(ob.value.noBids, m.value.no))
  }

  ghost predicate WholeMessage(m: Message) { m.Snapshot? ==> Whole(m.yes) && Whole(m.no) }

  lemma StepTracks(ob: Option<OrderBook>, m: Option<Sides>, msg: Message)
    requires Tracks(ob, m) && WholeMessage(msg)
    ensures Tracks(BookStep(ob, msg), SidesStep(m, msg))
  {
    hide WellFormed, Represents, FromSnapshot, SnapshotMap, WithDelta, DeltaMap;
    match msg
    case Snapshot(yes, no) =>
      WholeSnapshot(yes);
      WholeSnapshot(no);
    case Delta(price, delta, side) =>
      if ob.Some? && Complete(msg) {
        DeltaRefines(ob.value.yesBids, m.value.yes, price.value, Truncate(delta.value));
        DeltaRefines(ob.value.noBids, m.value.no, price.value, Truncate(delta.value));
      }
  }

  lemma WholeSnapshot(entries: seq<Entry>)
    requires Whole(entries)
    ensures WellFormed(FromSnapshot(entries)) && Represents(FromSnapshot(entries), SnapshotMap(entries))
  {
    SnapshotWellFormedIff(entries);
    SnapshotRepresents(entries);
  }

  /** After any sequence of messages whose snapshots are whole, snapshots and deltas in any order, both sides of the
      book are exactly the sorted lists of the maps the same messages build: no other well-formed list stands for
      them. */
  lemma {:induction false} BookRefinesMap(msgs: seq<Message>)
    requires forall i :: 0 <= i < |msgs| ==> WholeMessage(msgs[i])
    ensures Tracks(Book(msgs), SidesOf(msgs))
    ensures Book(msgs).Some? ==>
      && (forall list :: WellFormed(list) && Represents(list, SidesOf(msgs).value.yes) ==>
          list == Book(msgs).value.yesBids)
      && (forall list :: WellFormed(list) && Represents(list, SidesOf(msgs).value.no) ==>
          list == Book(msgs).value.noBids)
  {
    if msgs != [] {
      BookRefinesMap(msgs[..|msgs| - 1]);
      StepTracks(Book(msgs[..|msgs| - 1]), SidesOf(msgs[..|msgs| - 1]), msgs[|msgs| - 1]);
      hide Represents, WellFormed, BookStep, SidesStep;
      if Book(msgs).Some? {
        forall list | WellFormed(list) && Represents(list, SidesOf(msgs).value.yes)
          ensures list == Book(msgs).value.yesBids
        {
          RepresentationUnique(list, Book(msgs).value.yesBids, SidesOf(msgs).value.yes);
        }
        forall list | WellFormed(list) && Represents(list, SidesOf(msgs).value.no)
          ensures list == Book(msgs).value.noBids
        {
          RepresentationUnique(list, Book(msgs).value.noBids, SidesOf(msgs).value.no);
        }
      }
    }
  }

  // ------------------------------------------------------------------
  // The spoof guard
  // ------------------------------------------------------------------

  /** The distinct prices of the live levels, in book order. */
  function LivePrices(levels: seq<Level>): seq<int> {
    if levels == [] then []
    else
      var l := levels[|levels| - 1];
      var before := LivePrices(levels[..|levels| - 1]);
      if l.quantity <= 0 || l.price in before then before else before + [l.price]
  }

  function ConfirmedAsk(noBids: seq<Level>, gap: int): Option<int> {
    var live := LivePrices(noBids);
    if live == [] then None
    else if gap <= 0 then Some(100 - live[0])
    else if |live| < 2 then None
    else if live[0] - live[1] > gap then Some(100 - live[1])
    else Some(100 - live[0])
  }

  function ConfirmedBid(yesBids: seq<Level>, gap: int): Option<int> {
    var live := LivePrices(yesBids);
    if live == [] then None
    else if gap <= 0 || |live| < 2 then Some(live[0])
    else if live[0] - live[1] > gap then Some(live[1])
    else Some(live[0])
  }

  /** The source's loop over the NO bids. */
  method GetConfirmedAsk(noBids: seq<Level>, gap: int) returns (r: Option<int>)
    ensures r == ConfirmedAsk(noBids, gap)
  {
    var asks: seq<int> := [];
    var seen: set<int> := {};
    for i := 0 to |noBids|
      invariant |asks| == |LivePrices(noBids[..i])|
      invariant forall k :: 0 <= k < |asks| ==> asks[k] == 100 - LivePrices(noBids[..i])[k]
      invariant forall a :: a in seen <==> 100 - a in LivePrices(noBids[..i])
    {
      assert noBids[..i + 1][..i] == noBids[..i];
      var level := noBids[i];
      if level.quantity <= 0 {
        continue;
      }
      var ask := 100 - level.price;
      if ask in seen {
        continue;
      }
      seen := seen + {ask};
      asks := asks + [ask];
    }
    assert noBids[..|noBids|] == noBids;
    if asks == [] {
      return None;
    }
    if gap <= 0 {
      return Some(asks[0]);
    }
    if |asks| < 2 {
      return None;
    }
    if asks[1] - asks[0] > gap {
      return Some(asks[1]);
    }
    r := Some(asks[0]);
  }

  method GetConfirmedBid(yesBids: seq<Level>, gap: int) returns (r: Option<int>)
    ensures r == ConfirmedBid(yesBids, gap)
  {
    var bids: seq<int> := [];
    for i := 0 to |yesBids|
      invariant bids == LivePrices(yesBids[..i])
    {
      assert yesBids[..i + 1][..i] == yesBids[..i];
      if yesBids[i].quantity > 0 && yesBids[i].price !in bids {
        bids := bids + [yesBids[i].price];
      }
    }
    assert yesBids[..|yesBids|] == yesBids;
    if bids == [] {
      return None;
    }
    if gap <= 0 || |bids| < 2 {
      return Some(bids[0]);
    }
    r := if bids[0] - bids[1] > gap then Some(bids[1]) else Some(bids[0]);
  }

  lemma {:induction false} LivePricesOfWellFormed(levels: seq<Level>)
    requires WellFormed(levels)
    ensures |LivePrices(levels)| == |levels|
    ensures forall i :: 0 <= i < |levels| ==> LivePrices(levels)[i] == levels[i].price
    decreases |levels|
  {
    if levels != [] {
      LivePricesOfWellFormed(levels[..|levels| - 1]);
    }
  }

  /** The two highest prices after one level is injected: the top is the larger of the old top and the new price, and
      when the new price is the top the old top is next. */
  lemma InjectedTop(levels: seq<Level>, m: map<int, int>, price: int, qty: int)
    requires WellFormed(levels) && Represents(levels, m) && levels != [] && qty > 0
    ensures var after := WithDelta(levels, price, qty);
      && after != [] && after[0].price == Max(price, levels[0].price)
      && (price > levels[0].price ==> |after| >= 2 && after[1].price == levels[0].price)
      && (price < levels[0].price ==> |after| >= 2 && after[1].price < levels[0].price)
  {
    DeltaRefines(levels, m, price, qty);
    var after := WithDelta(levels, price, qty);
    var m' := DeltaMap(m, price, qty);
    Largest(levels, m);
    Largest(after, m');
    assert price in m' && levels[0].price in m';
    if price > levels[0].price {
      var j :| 0 <= j < |after| && after[j].price == levels[0].price;
      assert j > 0;
      assert after[1].price in m';
    } else if price < levels[0].price {
      var j :| 0 <= j < |after| && after[j].price == price;
    }
  }

  lemma TopTwoDecide(noBids: seq<Level>, gap: int)
    requires WellFormed(noBids) && |noBids| >= 2 && gap > 0
    ensures ConfirmedAsk(noBids, gap) ==
            Some(100 - (if noBids[0].price - noBids[1].price > gap then noBids[1].price else noBids[0].price))
  {
    LivePricesOfWellFormed(noBids);
    hide LivePrices;
  }

  /** Injecting one NO bid at any price and size into a non-empty NO book never moves the confirmed ask more than the
      gap below the honest best ask. */
  lemma AskSpoofBound(noBids: seq<Level>, m: map<int, int>, price: int, qty: int, gap: int)
    requires WellFormed(noBids) && Represents(noBids, m) && noBids != [] && qty > 0 && gap > 0
    ensures var spoofed := ConfirmedAsk(WithDelta(noBids, price, qty), gap);
      var honest := OrderBook([], [], noBids).BestAsk().value;
      && (spoofed.Some? ==> spoofed.value >= honest - gap)
      && (spoofed.Some? && spoofed.value < honest ==> spoofed.value == 100 - price)
  {
    hide WithDelta, Represents, DeltaMap, LivePrices;
    InjectedTop(noBids, m, price, qty);
    DeltaRefines(noBids, m, price, qty);
    LivePricesOfWellFormed(WithDelta(noBids, price, qty));
  }

  /** The bound is attained: a bid exactly `gap` above the book's best is believed. */
  lemma AskSpoofBoundTight(noBids: seq<Level>, m: map<int, int>, qty: int, gap: int)
    requires WellFormed(noBids) && Represents(noBids, m) && noBids != [] && qty > 0 && gap > 0
    ensures ConfirmedAsk(WithDelta(noBids, noBids[0].price + gap, qty), gap) ==
            Some(OrderBook([], [], noBids).BestAsk().value - gap)
  {
    var price := noBids[0].price + gap;
    hide WithDelta, Represents, DeltaMap, WellFormed, ConfirmedAsk;
    InjectedTop(noBids, m, price, qty);
    DeltaRefines(noBids, m, price, qty);
    TopTwoDecide(WithDelta(noBids, price, qty), gap);
  }

  /** The mirror bound for one injected YES bid. */
  lemma BidSpoofBound(yesBids: seq<Level>, m: map<int, int>, price: int, qty: int, gap: int)
    requires WellFormed(yesBids) && Represents(yesBids, m) && yesBids != [] && qty > 0 && gap > 0
    ensures var spoofed := ConfirmedBid(WithDelta(yesBids, price, qty), gap);
      spoofed.Some? && spoofed.value <= yesBids[0].price + gap
  {
    hide WithDelta, Represents, DeltaMap, LivePrices;
    InjectedTop(yesBids, m, price, qty);
    DeltaRefines(yesBids, m, price, qty);
    LivePricesOfWellFormed(WithDelta(yesBids, price, qty));
  }

  function SafeAsk(bookAsk: Option<int>, quoteAsk: Option<int>, gap: int): Option<int> {
    var tickerAsk := if quoteAsk.Some? && quoteAsk.value > 0 then quoteAsk else None;
    if bookAsk.None? then tickerAsk
    else if tickerAsk.None? || gap <= 0 then bookAsk
    else if tickerAsk.value - bookAsk.value > gap then tickerAsk
    else bookAsk
  }

  /** With a positive gap and a positive ticker-channel ask, no contents of the book, well-formed or not, bring the
      stop-loss ask more than the gap below that ask; and the book is overruled if and only if it tries to. */
  lemma SafeAskBound(noBids: Option<seq<Level>>, quoteAsk: int, gap: int)
    requires gap > 0 && quoteAsk > 0
    ensures var book := if noBids.Some? then ConfirmedAsk(noBids.value, gap) else None;
      var safe := SafeAsk(book, Some(quoteAsk), gap);
      && safe.Some? && safe.value >= quoteAsk - gap
      && (book.Some? && safe != book <==> book.Some? && book.value < quoteAsk - gap)
  {}

  // ------------------------------------------------------------------
  // The guarded prices, said of the levels
  // ------------------------------------------------------------------

  /** Some level with something to trade has the price. */
  ghost predicate Live(levels: seq<Level>, p: int) {
    exists i :: 0 <= i < |levels| && levels[i].price == p && levels[i].quantity > 0
  }

  /** The highest live price under `limit`, or of all. */
  ghost predicate TopLive(levels: seq<Level>, limit: Option<int>, p: int) {
    && Live(levels, p) && (limit.Some? ==> p < limit.value)
    && forall q :: Live(levels, q) && (limit.Some? ==> q < limit.value) ==> q <= p
  }

  /** Whatever book came of the feed, its lists descend. */
  ghost predicate Descends(levels: seq<Level>) {
    forall i, j :: 0 <= i < j < |levels| ==> levels[i].price >= levels[j].price
  }

  lemma SortedDescends(levels: seq<Level>)
    ensures Descends(SortDescending(levels))
  {
    SortCorrect(levels, NegPrice);
    var sorted := SortDescending(levels);
    forall i, j | 0 <= i < j < |sorted| ensures sorted[i].price >= sorted[j].price {
      assert NegPrice(sorted[i]) <= NegPrice(sorted[j]);
    }
  }

  /** So it is for both lists of a book, whatever messages it was built from. */
  lemma {:induction false} BooksDescend(msgs: seq<Message>)
    ensures Book(msgs).Some? ==>
      Descends(Book(msgs).value.yesBids) && Descends(Book(msgs).value.noBids) && Book(msgs).value.yesAsks == []
  {
    if msgs != [] {
      BooksDescend(msgs[..|msgs| - 1]);
      forall levels ensures Descends(SortDescending(levels)) { SortedDescends(levels); }
      hide Descends, SortDescending;
    }
  }

  lemma {:induction false} LivePricesAre(levels: seq<Level>)
    requires Descends(levels)
    ensures var live := LivePrices(levels);
      && (forall p :: p in live <==> Live(levels, p))
      && forall i, j :: 0 <= i < j < |live| ==> live[i] > live[j]
  {
    if levels != [] {
      var n := |levels| - 1;
      var before, l := levels[..n], levels[n];
      LivePricesAre(before);
      var live := LivePrices(before);
      forall p ensures Live(levels, p) <==> Live(before, p) || (l.quantity > 0 && l.price == p) {
        if Live(before, p) {
          var i :| 0 <= i < n && before[i].price == p && before[i].quantity > 0;
          assert levels[i] == before[i];
        }
        if Live(levels, p) {
          var i :| 0 <= i < |levels| && levels[i].price == p && levels[i].quantity > 0;
          if i < n { assert before[i] == levels[i]; }
        }
      }
      forall i | 0 <= i < |live| ensures live[i] >= l.price {
        assert Live(before, live[i]);
        var k :| 0 <= k < n && before[k].price == live[i];
        assert levels[k] == before[k];
      }
    }
  }

  /** The confirmed ask is 100 minus the highest live NO price; minus the one below it when the gap between the two is
      wider than allowed; and there is none without a second price to compare with, while the guard is on. */
  lemma ConfirmedAskIff(noBids: seq<Level>, gap: int, top: int, next: int)
    requires Descends(noBids)
    ensures (forall p :: !Live(noBids, p)) ==> ConfirmedAsk(noBids, gap).None?
    ensures TopLive(noBids, None, top) && gap <= 0 ==> ConfirmedAsk(noBids, gap) == Some(100 - top)
    ensures TopLive(noBids, None, top) && gap > 0 && (forall p :: Live(noBids, p) ==> p == top) ==>
      ConfirmedAsk(noBids, gap).None?
    ensures TopLive(noBids, None, top) && TopLive(noBids, Some(top), next) && gap > 0 ==>
      ConfirmedAsk(noBids, gap) == Some(if next + gap < top then 100 - next else 100 - top)
  {
    LivePricesAre(noBids);
    hide LivePrices, Live, Descends;
    var live := LivePrices(noBids);
    if TopLive(noBids, None, top) {
      assert top in live;
      if TopLive(noBids, Some(top), next) { assert next in live; }
    }
    if |live| > 0 { assert live[0] in live; }
    if |live| > 1 { assert live[1] in live; }
  }

  /** The confirmed bid likewise, but a lone price is believed. */
  lemma ConfirmedBidIff(yesBids: seq<Level>, gap: int, top: int, next: int)
    requires Descends(yesBids)
    ensures (forall p :: !Live(yesBids, p)) ==> ConfirmedBid(yesBids, gap).None?
    ensures TopLive(yesBids, None, top) && (gap <= 0 || forall p :: Live(yesBids, p) ==> p == top) ==>
      ConfirmedBid(yesBids, gap) == Some(top)
    ensures TopLive(yesBids, None, top) && TopLive(yesBids, Some(top), next) && gap > 0 ==>
      ConfirmedBid(yesBids, gap) == Some(if next + gap < top then next else top)
  {
    LivePricesAre(yesBids);
    hide LivePrices, Live, Descends;
    var live := LivePrices(yesBids);
    if TopLive(yesBids, None, top) {
      assert top in live;
      if TopLive(yesBids, Some(top), next) { assert next in live; }
    }
    if |live| > 0 { assert live[0] in live; }
    if |live| > 1 { assert live[1] in live; }
  }

  /** A book's own YES asks come first; without any, the ask is derived from the best NO bid. */
  lemma BestAskIs(ob: OrderBook)
    ensures |ob.yesAsks| > 0 ==> ob.BestAsk() == Some(ob.yesAsks[0].price)
    ensures |ob.yesAsks| == 0 && |ob.noBids| > 0 ==> ob.BestAsk() == Some(100 - ob.noBids[0].price)
    ensures |ob.yesAsks| == 0 && |ob.noBids| == 0 ==> ob.BestAsk() == None
  {}

  /** The stop-loss ask is the book's, unless the book has none or, with the guard on, is lower than the quote by more
      than the gap; a quote of zero or less counts as none. */
  lemma SafeAskIff(bookAsk: Option<int>, quoteAsk: Option<int>, gap: int)
    ensures var quoted := quoteAsk.Some? && 0 < quoteAsk.value;
      SafeAsk(bookAsk, quoteAsk, gap) ==
        if quoted && (bookAsk.None? || (0 < gap && bookAsk.value + gap < quoteAsk.value)) then quoteAsk else bookAsk
  {}

  // ------------------------------------------------------------------
  // One message, price by price
  // ------------------------------------------------------------------

  function QuantityAt(m: map<int, int>, price: int): int { if price in m then m[price] else 0 }

  /** Of the first `n` entries, `i` is the last at its price with anything to trade. */
  ghost predicate LastAt(entries: seq<Entry>, n: nat, i: int)
    requires n <= |entries|
  {
    && 0 <= i < n && 0.0 < entries[i].qty
    && forall k :: i < k < n && entries[k].price == entries[i].price ==> entries[k].qty <= 0.0
  }

  ghost predicate HasLast(entries: seq<Entry>, n: nat, p: int)
    requires n <= |entries|
  {
    exists i :: LastAt(entries, n, i) && entries[i].price == p
  }

  lemma LastStep(entries: seq<Entry>, n: nat)
    requires 0 < n <= |entries|
    ensures forall i :: LastAt(entries, n, i) <==>
      if i == n - 1 then 0.0 < entries[n - 1].qty
      else LastAt(entries, n - 1, i) && (entries[n - 1].price == entries[i].price ==> entries[n - 1].qty <= 0.0)
  {}

  lemma HasStep(entries: seq<Entry>, n: nat, p: int)
    requires 0 < n <= |entries|
    ensures HasLast(entries, n, p) <==>
      HasLast(entries, n - 1, p) || (entries[n - 1].price == p && 0.0 < entries[n - 1].qty)
  {
    var e := entries[n - 1];
    LastStep(entries, n);
    hide LastAt;
    if e.price == p && 0.0 < e.qty {
      assert LastAt(entries, n, n - 1);
    } else if HasLast(entries, n - 1, p) {
      var i :| LastAt(entries, n - 1, i) && entries[i].price == p;
      assert i < n - 1 by { InRange(entries, n - 1, i); }
      assert LastAt(entries, n, i);
    }
    if HasLast(entries, n, p) {
      var i :| LastAt(entries, n, i) && entries[i].price == p;
      if i != n - 1 { assert LastAt(entries, n - 1, i); }
    }
  }

  lemma InRange(entries: seq<Entry>, n: nat, i: int)
    requires n <= |entries| && LastAt(entries, n, i)
    ensures 0 <= i < n
  {}

  /** A snapshot replaces what was there: a price is in the map if and only if an entry of it is for more than nothing,
      and the last such entry, cut to whole contracts, is its quantity. */
  lemma {:induction false} SnapshotIs(entries: seq<Entry>, n: nat, p: int)
    requires n <= |entries|
    ensures p in SnapshotMap(entries[..n]) <==> HasLast(entries, n, p)
    ensures forall i :: LastAt(entries, n, i) && entries[i].price == p ==>
      p in SnapshotMap(entries[..n]) && SnapshotMap(entries[..n])[p] == Truncate(entries[i].qty)
    decreases n
  {
    hide Truncate;
    if n > 0 {
      SnapshotIs(entries, n - 1, p);
      assert entries[..n][..n - 1] == entries[..n - 1];
      LastStep(entries, n);
      HasStep(entries, n, p);
      hide LastAt, HasLast;
      forall i | LastAt(entries, n, i) && entries[i].price == p
        ensures p in SnapshotMap(entries[..n]) && SnapshotMap(entries[..n])[p] == Truncate(entries[i].qty)
      {
        InRange(entries, n, i);
      }
    }
  }

  /** What a message does: a snapshot sets both sides; a delta with all its fields, after a snapshot, adds its whole
      contracts at its price on its side, down to nothing at the least; any other changes nothing. */
  lemma MessageMoves(m: Option<Sides>, msg: Message, p: int)
    ensures msg.Snapshot? ==> SidesStep(m, msg) == Some(Sides(SnapshotMap(msg.yes), SnapshotMap(msg.no)))
    ensures msg.Delta? && (m.None? || msg.price.None? || msg.delta.None? || msg.side.None?) ==> SidesStep(m, msg) == m
    ensures msg.Delta? && m.Some? && msg.price.Some? && msg.delta.Some? && msg.side.Some? ==>
      && SidesStep(m, msg).Some?
      && var after := SidesStep(m, msg).value;
         var yes, no := QuantityAt(m.value.yes, p), QuantityAt(m.value.no, p);
         var d := Truncate(msg.delta.value);
         && (msg.price.value != p || msg.side.value.No? ==>
               QuantityAt(after.yes, p) == yes && (p in after.yes <==> p in m.value.yes))
         && (msg.price.value != p || msg.side.value.Yes? ==>
               QuantityAt(after.no, p) == no && (p in after.no <==> p in m.value.no))
         && (msg.price.value == p && msg.side.value.Yes? ==>
               QuantityAt(after.yes, p) == (if yes + d > 0 then yes + d else 0) && (p in after.yes <==> yes + d > 0))
         && (msg.price.value == p && msg.side.value.No? ==>
               QuantityAt(after.no, p) == (if no + d > 0 then no + d else 0) && (p in after.no <==> no + d > 0))
  {
    hide Truncate, SnapshotMap;
  }

  // ------------------------------------------------------------------
  // The cache
  // ------------------------------------------------------------------

  class TickerCache {
    var orderbooks: map<string, OrderBook>
    var quotes: map<string, (int, int)>
    /** Every message received per market. */
    ghost var feeds: map<string, seq<Message>>

    constructor ()
      ensures orderbooks == map[] && quotes == map[] && feeds == map[] && Valid()
    {
      orderbooks, quotes, feeds := map[], map[], map[];
    }

    function OrderbookOf(ticker: string): Option<OrderBook>
      reads this
    {
      if ticker in orderbooks then Some(orderbooks[ticker]) else None
    }

    ghost function FeedOf(ticker: string): seq<Message>
      reads this
    {
      if ticker in feeds then feeds[ticker] else []
    }

    /** Every stored book is the one its market's messages lead to. */
    ghost predicate Valid()
      reads this
    {
      forall t :: OrderbookOf(t) == Book(FeedOf(t))
    }

    /** So a market whose snapshots were whole has exactly the lists of its two price maps. */
    lemma StoredBookRefinesMap(ticker: string)
      requires Valid() && forall i :: 0 <= i < |FeedOf(ticker)| ==> WholeMessage(FeedOf(ticker)[i])
      ensures Tracks(OrderbookOf(ticker), SidesOf(FeedOf(ticker)))
    {
      BookRefinesMap(FeedOf(ticker));
      hide Tracks;
    }

    /** The stop-loss ask of a market as the cache stands. */
    function SafeAskOf(ticker: string, gap: int): Option<int>
      reads this
    {
      SafeAsk(if ticker in orderbooks then ConfirmedAsk(orderbooks[ticker].noBids, gap) else None,
              if ticker in quotes then Some(quotes[ticker].1) else None, gap)
    }

    /** Whatever book is stored, the stop-loss ask stays within the gap of a positive stored quote. */
    lemma StoredQuoteBounds(ticker: string, gap: int)
      requires ticker in quotes && quotes[ticker].1 > 0 && gap > 0
      ensures SafeAskOf(ticker, gap).Some? && SafeAskOf(ticker, gap).value >= quotes[ticker].1 - gap
    {
      SafeAskBound(if ticker in orderbooks then Some(orderbooks[ticker].noBids) else None, quotes[ticker].1, gap);
    }

    /** A quote of the ticker channel leaves every book alone, and bounds its market's stop-loss ask from below. */
    method UpdateQuote(ticker: string, yesBid: int, yesAsk: int)
      requires Valid()
      modifies this`quotes
      ensures Valid() && quotes == old(quotes)[ticker := (yesBid, yesAsk)]
      ensures yesAsk > 0 ==> forall gap :: gap > 0 ==>
        SafeAskOf(ticker, gap).Some? && SafeAskOf(ticker, gap).value >= yesAsk - gap
      ensures forall t, gap :: t != ticker ==> SafeAskOf(t, gap) == old(SafeAskOf(t, gap))
    {
      assert forall t :: OrderbookOf(t) == Book(FeedOf(t));
      quotes := quotes[ticker := (yesBid, yesAsk)];
      assert forall t :: OrderbookOf(t) == old(OrderbookOf(t)) && FeedOf(t) == old(FeedOf(t));
      forall gap | yesAsk > 0 && gap > 0
        ensures SafeAskOf(ticker, gap).Some? && SafeAskOf(ticker, gap).value >= yesAsk - gap
      {
        StoredQuoteBounds(ticker, gap);
      }
    }

    method CollectLevels(entries: seq<Entry>) returns (levels: seq<Level>)
      ensures levels == FromSnapshot(entries)
    {
      levels := [];
      for i := 0 to |entries|
        invariant levels == KeptEntries(entries[..i])
      {
        assert entries[..i + 1][..i] == entries[..i];
        if entries[i].qty > 0.0 {
          levels := levels + [Level(entries[i].price, Truncate(entries[i].qty))];
        }
      }
      assert entries[..|entries|] == entries;
      levels := SortDescending(levels);
    }

    /** Files a message under its market: `book` is the stored book afterwards. */
    ghost method Received(ticker: string, msg: Message)
      requires OrderbookOf(ticker) == BookStep(Book(FeedOf(ticker)), msg)
      requires forall t :: t != ticker ==> OrderbookOf(t) == Book(FeedOf(t))
      modifies this`feeds
      ensures feeds == old(feeds)[ticker := old(FeedOf(ticker)) + [msg]] && Valid()
    {
      var feed := FeedOf(ticker);
      assert (feed + [msg])[..|feed|] == feed;
      assert Book(feed + [msg]) == BookStep(Book(feed), msg);
      hide BookStep, Book;
      feeds := feeds[ticker := feed + [msg]];
      forall t ensures OrderbookOf(t) == Book(FeedOf(t)) {
        if t != ticker { assert FeedOf(t) == old(FeedOf(t)) && OrderbookOf(t) == old(OrderbookOf(t)); }
      }
    }

    method UpdateOrderbookSnapshot(ticker: string, yes: seq<Entry>, no: seq<Entry>)
      requires Valid()
      modifies this`orderbooks, this`feeds
      ensures orderbooks == old(orderbooks)[ticker := OrderBook(FromSnapshot(yes), [], FromSnapshot(no))]
      ensures Valid() && feeds == old(feeds)[ticker := old(FeedOf(ticker)) + [Snapshot(yes, no)]]
    {
      hide FromSnapshot, Book;
      assert forall t :: OrderbookOf(t) == Book(FeedOf(t));
      var yesBids := CollectLevels(yes);
      var noBids := CollectLevels(no);
      orderbooks := orderbooks[ticker := OrderBook(yesBids, [], noBids)];
      forall t | t != ticker ensures OrderbookOf(t) == Book(FeedOf(t)) {
        assert OrderbookOf(t) == old(OrderbookOf(t)) && FeedOf(t) == old(FeedOf(t));
      }
      Received(ticker, Snapshot(yes, no));
    }

    /** One side's list after a change at one price. */
    method ChangeLevel(levels: seq<Level>, price: int, delta: int) returns (r: seq<Level>)
      ensures r == WithDelta(levels, price, delta)
    {
      var oldQty := 0;
      var i := 0;
      assert levels[0..] == levels;
      while i < |levels| && levels[i].price != price
        invariant 0 <= i <= |levels|
        invariant QtyAt(levels, price) == QtyAt(levels[i..], price)
      {
        assert levels[i..][0] == levels[i] && levels[i..][1..] == levels[i + 1..];
        i := i + 1;
      }
      if i < |levels| {
        assert levels[i..][0] == levels[i];
        oldQty := levels[i].quantity;
      }
      assert oldQty == QtyAt(levels, price);
      var newQty := oldQty + delta;
      r := Without(levels, price);
      if newQty > 0 {
        r := r + [Level(price, newQty)];
      }
      assert r == Without(levels, price) + (if newQty > 0 then [Level(price, newQty)] else []);
      r := SortDescending(r);
    }

    /** A delta before the first snapshot, or with a missing field, changes nothing. */
    method UpdateOrderbookDelta(ticker: string, price: Option<int>, delta: Option<real>, side: Option<Side>)
      requires Valid()
      modifies this`orderbooks, this`feeds
      ensures Valid() && feeds == old(feeds)[ticker := old(FeedOf(ticker)) + [Delta(price, delta, side)]]
      ensures OrderbookOf(ticker) == BookStep(old(OrderbookOf(ticker)), Delta(price, delta, side))
      ensures forall t :: t != ticker ==> OrderbookOf(t) == old(OrderbookOf(t))
    {
      hide WithDelta, Book;
      if !(ticker !in orderbooks || price.None? || delta.None? || side.None?) {
        var ob := orderbooks[ticker];
        var deltaQty := Truncate(delta.value);
        match side.value {
          case Yes =>
            var bids := ChangeLevel(ob.yesBids, price.value, deltaQty);
            orderbooks := orderbooks[ticker := ob.(yesBids := bids)];
          case No =>
            var bids := ChangeLevel(ob.noBids, price.value, deltaQty);
            orderbooks := orderbooks[ticker := ob.(noBids := bids)];
        }
      }
      forall t | t != ticker ensures OrderbookOf(t) == Book(FeedOf(t)) {
        assert OrderbookOf(t) == old(OrderbookOf(t)) && FeedOf(t) == old(FeedOf(t));
      }
      assert old(OrderbookOf(ticker)) == Book(FeedOf(ticker)) by { assert FeedOf(ticker) == old(FeedOf(ticker)); }
      Received(ticker, Delta(price, delta, side));
    }

    /** The ask for stop-loss evaluation. */
    method GetSafeAsk(ticker: string, gap: int) returns (r: Option<int>)
      ensures r == SafeAskOf(ticker, gap)
    {
      var bookAsk: Option<int> := None;
      if ticker in orderbooks {
        bookAsk := GetConfirmedAsk(orderbooks[ticker].noBids, gap);
      }
      var tickerAsk := if ticker in quotes && quotes[ticker].1 > 0 then Some(quotes[ticker].1) else None;
      if bookAsk.None? {
        return tickerAsk;
      }
      if tickerAsk.None? || gap <= 0 {
        return bookAsk;
      }
      if tickerAsk.value - bookAsk.value > gap {
        return tickerAsk;
      }
      r := bookAsk;
    }
  }
}
