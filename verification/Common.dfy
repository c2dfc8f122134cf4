/** Small shared vocabulary: optional values, stable sorting, and sums over maps. */
module Common {

  datatype Option<+T> = None | Some(value: T)

  function Max(a: int, b: int): int { if a < b then b else a }

  function Min(a: int, b: int): int { if a < b then a else b }

  /** A quantity forced into the range 0..hi, as in `max(min(x, hi), 0)`. */
  function Clamp(x: int, hi: int): int { Max(Min(x, hi), 0) }

  /** The largest whole price whose value for `qty` contracts is not above `total`. */
  predicate FloorOf(avg: int, total: int, qty: int) { avg * qty <= total < (avg + 1) * qty }

  lemma DivIsFloor(total: int, qty: int)
    requires qty > 0
    ensures FloorOf(total / qty, total, qty)
  {
    var q, r := total / qty, total % qty;
    assert total == q * qty + r;
    assert (q + 1) * qty == q * qty + qty;
  }

  // ------------------------------------------------------------------
  // Stable sorting (the source relies on Python's stable `list.sort`)
  // ------------------------------------------------------------------

  ghost predicate SortedBy<T>(s: seq<T>, key: T -> int) {
    forall i, j :: 0 <= i < j < |s| ==> key(s[i]) <= key(s[j])
  }

  /** Inserts `x` before every element of equal key, so that sorting from the right is stable. */
  function Insert<T>(x: T, s: seq<T>, key: T -> int): (r: seq<T>)
  {
    if s == [] then [x]
    else if key(x) <= key(s[0]) then [x] + s
    else [s[0]] + Insert(x, s[1..], key)
  }

  function StableSort<T>(s: seq<T>, key: T -> int): (r: seq<T>)
  {
    if s == [] then [] else Insert(s[0], StableSort(s[1..], key), key)
  }

  lemma {:induction false} InsertPermutes<T>(x: T, s: seq<T>, key: T -> int)
    ensures multiset(Insert(x, s, key)) == multiset{x} + multiset(s)
  {
    if s != [] {
      assert s == [s[0]] + s[1..];
      if key(x) > key(s[0]) {
        InsertPermutes(x, s[1..], key);
      }
    }
  }

  lemma {:induction false} InsertSorted<T>(x: T, s: seq<T>, key: T -> int)
    requires SortedBy(s, key)
    ensures SortedBy(Insert(x, s, key), key)
  {
    if s != [] && key(x) > key(s[0]) {
      var rest := Insert(x, s[1..], key);
      InsertSorted(x, s[1..], key);
      forall j | 0 <= j < |rest| ensures key(s[0]) <= key(rest[j]) {
        InsertPermutes(x, s[1..], key);
        assert rest[j] in multiset{x} + multiset(s[1..]);
        assert rest[j] == x || rest[j] in s[1..];
      }
    }
  }

  /** Sorting orders the elements and neither drops nor invents one. */
  lemma {:induction false} SortCorrect<T>(s: seq<T>, key: T -> int)
    ensures SortedBy(StableSort(s, key), key)
    ensures multiset(StableSort(s, key)) == multiset(s)
    ensures |StableSort(s, key)| == |s|
    ensures forall x :: x in StableSort(s, key) <==> x in s
  {
    if s != [] {
      SortCorrect(s[1..], key);
      InsertSorted(s[0], StableSort(s[1..], key), key);
      InsertPermutes(s[0], StableSort(s[1..], key), key);
      assert s == [s[0]] + s[1..];
    }
    hide *;
    SameElements(StableSort(s, key), s);
  }

  lemma SameElements<T>(a: seq<T>, b: seq<T>)
    requires multiset(a) == multiset(b)
    ensures |a| == |b|
    ensures forall x :: x in a <==> x in b
  {
    assert |multiset(a)| == |multiset(b)|;
    forall x ensures x in a <==> x in b {
      assert x in a <==> x in multiset(a);
    }
  }

  lemma TakeOut<T>(s: seq<T>, k: nat, x: T)
    requires k < |s| && s[k] == x
    ensures multiset(s[..k] + s[k + 1..]) == multiset(s) - multiset{x}
  {
    assert s == s[..k] + [s[k]] + s[k + 1..];
    assert multiset(s) == multiset(s[..k] + s[k + 1..]) + multiset{x};
  }

  lemma HeadOut<T>(s: seq<T>)
    requires s != []
    ensures multiset(s[1..]) == multiset(s) - multiset{s[0]}
  {
    assert s == [s[0]] + s[1..];
    assert multiset(s) == multiset{s[0]} + multiset(s[1..]);
  }

  /** `order` names every place of `s`, by key and at equal keys by place; and `r` is `s` in that order. */
  ghost predicate StableOrder<T>(s: seq<T>, r: seq<T>, key: T -> int, order: seq<int>) {
    Picks(s, r, order) && Ascends(r, key, order) && forall k :: 0 <= k < |s| ==> k in order
  }

  ghost predicate Picks<T>(s: seq<T>, r: seq<T>, order: seq<int>) {
    |order| == |r| && forall a :: 0 <= a < |order| ==> 0 <= order[a] < |s| && r[a] == s[order[a]]
  }

  ghost predicate Ascends<T>(r: seq<T>, key: T -> int, order: seq<int>)
    requires |order| == |r|
  {
    forall a, b :: 0 <= a < b < |r| ==> key(r[a]) < key(r[b]) || (key(r[a]) == key(r[b]) && order[a] < order[b])
  }

  lemma {:induction false} InsertAt<T>(x: T, s: seq<T>, key: T -> int) returns (p: nat)
    ensures p <= |s| && Insert(x, s, key) == s[..p] + [x] + s[p..]
    ensures forall a :: 0 <= a < p ==> key(s[a]) < key(x)
    ensures p < |s| ==> key(x) <= key(s[p])
  {
    p := 0;
    if s != [] && key(x) > key(s[0]) {
      var q := InsertAt(x, s[1..], key);
      p := q + 1;
      assert s[..p] == [s[0]] + s[1..][..q] && s[p..] == s[1..][q..];
    }
  }

  /** Sorting is stable. */
  lemma {:induction false} SortIsStable<T>(s: seq<T>, key: T -> int) returns (order: seq<int>)
    ensures StableOrder(s, StableSort(s, key), key, order)
  {
    order := [];
    if s != [] {
      var rest := StableSort(s[1..], key);
      var later := SortIsStable(s[1..], key);
      var p := InsertAt(s[0], rest, key);
      order := Inserted(s, rest, key, later, p);
    }
  }

  /** Where place `a` of the longer list was before the insertion at `p`. */
  function Before(a: int, p: int): int { if a < p then a else a - 1 }

  lemma Inserted<T>(s: seq<T>, rest: seq<T>, key: T -> int, later: seq<int>, p: nat) returns (order: seq<int>)
    requires s != [] && StableOrder(s[1..], rest, key, later) && p <= |rest|
    requires forall a :: 0 <= a < p ==> key(rest[a]) < key(s[0])
    requires p < |rest| ==> key(s[0]) <= key(rest[p])
    ensures StableOrder(s, rest[..p] + [s[0]] + rest[p..], key, order)
  {
    var r := rest[..p] + [s[0]] + rest[p..];
    order := seq(|r|, a requires 0 <= a < |r| => if a == p then 0 else later[Before(a, p)] + 1);
    hide Ascends;
    InsertedAscends(s[0], rest, r, key, later, order, p);
    hide Picks;
    InsertedNames(|s|, later, order, p);
  }

  lemma InsertedNames(n: nat, later: seq<int>, order: seq<int>, p: nat)
    requires p <= |later| && |order| == |later| + 1
    requires forall a :: 0 <= a < |order| ==> order[a] == if a == p then 0 else later[Before(a, p)] + 1
    requires forall k :: 0 <= k < n - 1 ==> k in later
    ensures forall k :: 0 <= k < n ==> k in order
  {
    forall k | 0 <= k < n ensures k in order {
      if k > 0 {
        assert k - 1 in later;
        var a :| 0 <= a < |later| && later[a] == k - 1;
        assert order[if a < p then a else a + 1] == k;
      } else {
        assert order[p] == 0;
      }
    }
  }

  lemma InsertedAscends<T>(x: T, rest: seq<T>, r: seq<T>, key: T -> int, later: seq<int>, order: seq<int>, p: nat)
    requires |later| == |rest| && |order| == |r| && p <= |rest| && r == rest[..p] + [x] + rest[p..]
    requires Ascends(rest, key, later)
    requires forall a :: 0 <= a < |r| ==> order[a] == if a == p then 0 else later[Before(a, p)] + 1
    requires forall a :: 0 <= a < |later| ==> 0 <= later[a]
    requires forall a :: 0 <= a < p ==> key(rest[a]) < key(x)
    requires p < |rest| ==> key(x) <= key(rest[p])
    ensures Ascends(r, key, order)
  {
    forall a, b | 0 <= a < b < |r|
      ensures key(r[a]) < key(r[b]) || (key(r[a]) == key(r[b]) && order[a] < order[b])
    {
      if b == p {
        assert r[a] == rest[a];
      } else if a == p {
        assert r[b] == rest[b - 1];
        if p < b - 1 { assert key(rest[p]) <= key(rest[b - 1]); }
      } else {
        var c, d := Before(a, p), Before(b, p);
        assert r[a] == rest[c] && r[b] == rest[d];
        assert order[a] == later[c] + 1 && order[b] == later[d] + 1;
      }
    }
  }

  // ------------------------------------------------------------------
  // Sums over the values of a map
  // ------------------------------------------------------------------

  ghost function Sum<K>(m: map<K, int>): (r: int)
    decreases |m|
  {
    if m == map[] then 0
    else var k :| k in m; m[k] + Sum(m - {k})
  }

  /** The sum does not depend on the order in which keys are taken. */
  lemma {:induction false} SumTake<K>(m: map<K, int>, k: K)
    requires k in m
    ensures Sum(m) == m[k] + Sum(m - {k})
    decreases |m|
  {
    var c :| c in m && Sum(m) == m[c] + Sum(m - {c});
    if c != k {
      SumTake(m - {c}, k);
      SumTake(m - {k}, c);
      assert m - {c} - {k} == m - {k} - {c};
    }
  }

  /** Writing one entry changes the sum by exactly the change of that entry. */
  lemma {:induction false} SumUpdate<K>(m: map<K, int>, k: K, v: int)
    ensures Sum(m[k := v]) == Sum(m) - (if k in m then m[k] else 0) + v
  {
    SumTake(m[k := v], k);
    if k in m {
      SumTake(m, k);
      assert m[k := v] - {k} == m - {k};
    } else {
      assert m[k := v] - {k} == m;
    }
  }

  /** A map whose entries dominate another's, key by key, has at least its sum. */
  lemma {:induction false} SumMonotone<K>(a: map<K, int>, b: map<K, int>)
    requires forall k :: k in a ==> k in b && a[k] <= b[k]
    requires forall k :: k in b && k !in a ==> 0 <= b[k]
    ensures Sum(a) <= Sum(b)
    decreases |b|
  {
    if b != map[] {
      var k :| k in b;
      SumTake(b, k);
      if k in a {
        SumTake(a, k);
        SumMonotone(a - {k}, b - {k});
      } else {
        assert a - {k} == a;
        SumMonotone(a, b - {k});
      }
    } else {
      assert a == map[];
    }
  }
}
