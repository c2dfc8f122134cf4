/** What a check makes of its batch, said of the observations: their times, their degrees and their places in it. */
module SunriseObservations {
  import opened Common
  import opened SunriseGate

  /** The whole degree nearest to the temperature, the upper one when two are. */
  lemma WholeFIff(o: Obs, f: int)
    ensures WholeF(o) == f <==> f as real - 0.5 <= o.celsius * 1.8 + 32.0 < f as real + 0.5
  {
    var x := o.celsius * 1.8 + 32.5;
    assert CToF(o.celsius) + 0.5 == x;
    assert x.Floor as real <= x < x.Floor as real + 1.0;
    if f < x.Floor { assert f + 1 <= x.Floor; assert f as real + 1.0 <= x.Floor as real; }
    if f > x.Floor { assert f >= x.Floor + 1; assert f as real >= x.Floor as real + 1.0; }
  }

  // ------------------------------------------------------------------
  // The window of a batch
  // ------------------------------------------------------------------

  predicate InWindow(i: LatchInput, k: int) {
    i.fetch.Batch? && 0 <= k < |i.fetch.obs| && i.baselineStart <= i.fetch.obs[k].ts
  }

  function TimeOf(i: LatchInput, k: int): int
    requires InWindow(i, k)
  {
    i.fetch.obs[k].ts
  }

  function DegreeOf(i: LatchInput, k: int): int
    requires InWindow(i, k)
  {
    WholeF(i.fetch.obs[k])
  }

  /** Observation `k` precedes `m`: in time, and at equal times in the batch. */
  predicate Earlier(i: LatchInput, k: int, m: int)
    requires InWindow(i, k) && InWindow(i, m)
  {
    TimeOf(i, k) < TimeOf(i, m) || (TimeOf(i, k) == TimeOf(i, m) && k < m)
  }

  /** The readings are those of the window, each observation once, in whole degrees and ascending in time. */
  ghost predicate ListsWindow(i: LatchInput, rs: seq<Reading>, order: seq<int>) {
    && |order| == |rs|
    && (forall a :: 0 <= a < |rs| ==> InWindow(i, order[a]))
    && (forall a :: 0 <= a < |rs| ==> rs[a].ts == TimeOf(i, order[a]) && rs[a].f == DegreeOf(i, order[a]))
    && (forall a, b :: 0 <= a < b < |rs| ==> Earlier(i, order[a], order[b]))
    && forall k :: InWindow(i, k) ==> k in order
  }

  /** The readings are the kept ones of the first `n` observations, from those places, in the order of the batch. */
  ghost predicate KeepsPlaces(obs: seq<Obs>, n: nat, start: int, rs: seq<Reading>, places: seq<int>)
    requires n <= |obs|
  {
    && |places| == |rs|
    && (forall a :: 0 <= a < |rs| ==> 0 <= places[a] < n && start <= obs[places[a]].ts)
    && (forall a :: 0 <= a < |rs| ==> rs[a].ts == obs[places[a]].ts && rs[a].f == WholeF(obs[places[a]]))
    && (forall a, b :: 0 <= a < b < |rs| ==> places[a] < places[b])
    && forall k :: 0 <= k < n && start <= obs[k].ts ==> k in places
  }

  lemma {:induction false} KeptPlaces(obs: seq<Obs>, n: nat, start: int) returns (places: seq<int>)
    requires n <= |obs|
    ensures KeepsPlaces(obs, n, start, Kept(obs[..n], start), places)
    decreases n
  {
    if n == 0 {
      places := [];
    } else {
      hide KeepsPlaces, WholeF;
      places := KeptPlaces(obs, n - 1, start);
      var rs := Kept(obs[..n - 1], start);
      assert obs[..n][..n - 1] == obs[..n - 1];
      if obs[n - 1].ts >= start {
        KeepsMore(obs, n, start, rs, places);
        places := places + [n - 1];
      } else {
        KeepsSame(obs, n, start, rs, places);
      }
    }
  }

  lemma KeepsSame(obs: seq<Obs>, n: nat, start: int, rs: seq<Reading>, places: seq<int>)
    requires 0 < n <= |obs| && KeepsPlaces(obs, n - 1, start, rs, places) && obs[n - 1].ts < start
    ensures KeepsPlaces(obs, n, start, rs, places)
  {
    hide WholeF;
  }

  lemma KeepsMore(obs: seq<Obs>, n: nat, start: int, rs: seq<Reading>, places: seq<int>)
    requires 0 < n <= |obs| && KeepsPlaces(obs, n - 1, start, rs, places) && obs[n - 1].ts >= start
    ensures KeepsPlaces(obs, n, start, rs + [Reading(obs[n - 1].ts, WholeF(obs[n - 1]))], places + [n - 1])
  {
    hide WholeF;
    forall k | 0 <= k < n && start <= obs[k].ts ensures k in places + [n - 1] {
      if k < n - 1 { assert k in places; }
    }
  }

  lemma ParsedListsWindow(i: LatchInput) returns (order: seq<int>)
    ensures ListsWindow(i, Parsed(i), order)
  {
    order := [];
    if i.fetch.Batch? {
      var kept := Kept(i.fetch.obs, i.baselineStart);
      var places := KeptPlaces(i.fetch.obs, |i.fetch.obs|, i.baselineStart);
      assert i.fetch.obs[..|i.fetch.obs|] == i.fetch.obs;
      var sorted := SortIsStable(kept, TsOf);
      hide Kept, StableSort, WholeF;
      order := seq(|sorted|, a requires 0 <= a < |sorted| => places[sorted[a]]);
      Composed(i, kept, places, Parsed(i), sorted, order);
    }
  }

  lemma Composed(i: LatchInput, kept: seq<Reading>, places: seq<int>, rs: seq<Reading>, sorted: seq<int>,
                 order: seq<int>)
    requires i.fetch.Batch? && KeepsPlaces(i.fetch.obs, |i.fetch.obs|, i.baselineStart, kept, places)
    requires StableOrder(kept, rs, TsOf, sorted)
    requires |order| == |rs| && forall a :: 0 <= a < |rs| ==> order[a] == places[sorted[a]]
    ensures ListsWindow(i, rs, order)
  {
    hide WholeF;
    forall a, b | 0 <= a < b < |rs| ensures Earlier(i, order[a], order[b]) {
      assert TsOf(rs[a]) == rs[a].ts && TsOf(rs[b]) == rs[b].ts;
    }
    forall k | InWindow(i, k) ensures k in order {
      assert k in places;
      var c :| 0 <= c < |places| && places[c] == k;
      assert c in sorted;
      var a :| 0 <= a < |sorted| && sorted[a] == c;
      assert order[a] == k;
    }
  }

  // ------------------------------------------------------------------
  // The answer of a check
  // ------------------------------------------------------------------

  /** `k` is the newest observation of the window and `n` the one before it. */
  ghost predicate Newest(i: LatchInput, k: int, n: int) {
    && InWindow(i, k) && InWindow(i, n) && Earlier(i, n, k)
    && forall m :: InWindow(i, m) && m != k && m != n ==> Earlier(i, m, n)
  }

  predicate Fresh(i: LatchInput, k: int)
    requires InWindow(i, k)
  {
    i.now - TimeOf(i, k) <= i.maxAgeMinutes * 60
  }

  predicate WarmerBy(required: real, f: int, g: int) { f as real >= g as real + required }

  /** Observation `k` is by the requirement warmer than some observation of the window or than the date's minimum. */
  ghost predicate Above(required: real, st: RiseState, i: LatchInput, k: int)
    requires InWindow(i, k)
  {
    || (exists m :: InWindow(i, m) && WarmerBy(required, DegreeOf(i, k), DegreeOf(i, m)))
    || (st.date == Some(i.date) && st.runningMin.Some? && WarmerBy(required, DegreeOf(i, k), st.runningMin.value))
  }

  /** The two newest observations of the window have risen so, and the newest is fresh. */
  ghost predicate Warms(required: real, st: RiseState, i: LatchInput) {
    exists k, n :: Newest(i, k, n) && Fresh(i, k) && Above(required, st, i, k) && Above(required, st, i, n)
  }

  lemma {:induction false} MinOverIsLeast(m: Option<int>, xs: seq<int>)
    ensures var r := MinOver(m, xs);
      && (r.Some? <==> m.Some? || xs != [])
      && (r.Some? ==> r == m || r.value in xs)
      && (m.Some? ==> r.value <= m.value)
      && forall k :: 0 <= k < |xs| ==> r.value <= xs[k]
  {
    if xs != [] { MinOverIsLeast(m, xs[..|xs| - 1]); }
  }

  lemma NewestIsLast(i: LatchInput, rs: seq<Reading>, order: seq<int>, k: int, n: int)
    requires ListsWindow(i, rs, order) && Newest(i, k, n)
    ensures |rs| >= 2 && k == order[|rs| - 1] && n == order[|rs| - 2]
  {
    hide WholeF;
    assert k in order && n in order;
    var a :| 0 <= a < |rs| && order[a] == k;
    var b :| 0 <= b < |rs| && order[b] == n;
    assert b < a;
    assert InWindow(i, order[|rs| - 1]) && InWindow(i, order[|rs| - 2]);
  }

  lemma LastIsNewest(i: LatchInput, rs: seq<Reading>, order: seq<int>)
    requires ListsWindow(i, rs, order) && |rs| >= 2
    ensures Newest(i, order[|rs| - 1], order[|rs| - 2])
  {
    hide WholeF;
    var k, n := order[|rs| - 1], order[|rs| - 2];
    forall m | InWindow(i, m) && m != k && m != n ensures Earlier(i, m, n) {
      assert m in order;
      var a :| 0 <= a < |rs| && order[a] == m;
      assert a < |rs| - 2;
    }
  }

  lemma AboveIsRisen(required: real, st: RiseState, i: LatchInput, rs: seq<Reading>, order: seq<int>, k: int)
    requires ListsWindow(i, rs, order) && InWindow(i, k)
    ensures var min := MinOver(ForDate(st, i.date).runningMin, Degrees(rs));
      min.Some? && (Above(required, st, i, k) <==> Risen(DegreeOf(i, k), min.value, required))
  {
    hide WholeF, MinOver;
    var m0, xs := ForDate(st, i.date).runningMin, Degrees(rs);
    var min, f := MinOver(m0, xs), DegreeOf(i, k);
    MinOverIsLeast(m0, xs);
    assert k in order;
    if Above(required, st, i, k) && !(m0.Some? && WarmerBy(required, f, m0.value)) {
      var m :| InWindow(i, m) && WarmerBy(required, f, DegreeOf(i, m));
      assert m in order;
      var c :| 0 <= c < |rs| && order[c] == m;
      assert min.value <= xs[c] == DegreeOf(i, m);
    }
    if Risen(f, min.value, required) && min != m0 {
      var c :| 0 <= c < |xs| && xs[c] == min.value;
      assert InWindow(i, order[c]) && WarmerBy(required, f, DegreeOf(i, order[c]));
    }
  }

  /** Which checks answer yes, of those not latched for their date: the ones whose batch warms so. */
  lemma LatchesIff(required: real, st: RiseState, i: LatchInput)
    requires st.latched == st.latchedForDay && !(st.date == Some(i.date) && st.latched)
    ensures LatchStep(required, st, i).1 <==> Warms(required, st, i)
  {
    LatchesOnReadings(required, st, i);
    var rs := Parsed(i);
    var order := ParsedListsWindow(i);
    hide LatchStep, Parsed, WholeF, MinOver;
    if Warms(required, st, i) {
      var k, n :| Newest(i, k, n) && Fresh(i, k) && Above(required, st, i, k) && Above(required, st, i, n);
      NewestIsLast(i, rs, order, k, n);
      AboveIsRisen(required, st, i, rs, order, k);
      AboveIsRisen(required, st, i, rs, order, n);
    }
    if LatchStep(required, st, i).1 {
      var k, n := order[|rs| - 1], order[|rs| - 2];
      LastIsNewest(i, rs, order);
      AboveIsRisen(required, st, i, rs, order, k);
      AboveIsRisen(required, st, i, rs, order, n);
      assert Newest(i, k, n) && Fresh(i, k);
    }
  }

  // ------------------------------------------------------------------
  // The state a check leaves
  // ------------------------------------------------------------------

  /** Some observation of the window is recent enough for the batch to be judged. */
  ghost predicate Judgeable(i: LatchInput) { exists k :: InWindow(i, k) && Fresh(i, k) }

  /** The minimum over the date's minimum so far and the window. */
  ghost predicate IsLeast(st: RiseState, i: LatchInput, min: int) {
    && (forall m :: InWindow(i, m) ==> min <= DegreeOf(i, m))
    && (st.date == Some(i.date) && st.runningMin.Some? ==> min <= st.runningMin.value)
    && ((exists m :: InWindow(i, m) && DegreeOf(i, m) == min)
        || (st.date == Some(i.date) && st.runningMin == Some(min)))
  }

  /** Nothing but the date is carried over from another date. */
  predicate SameBut(st: RiseState, i: LatchInput, s: RiseState) {
    && s.date == Some(i.date)
    && s.dayMin == (if st.date == Some(i.date) then st.dayMin else None)
    && s.refreshedAt == (if st.date == Some(i.date) then st.refreshedAt else 0)
  }

  lemma JudgeableIff(i: LatchInput, rs: seq<Reading>, order: seq<int>)
    requires ListsWindow(i, rs, order)
    ensures Judgeable(i) <==> rs != [] && !Stale(i, rs)
  {
    hide WholeF;
    if Judgeable(i) {
      var k :| InWindow(i, k) && Fresh(i, k);
      assert k in order;
      var a :| 0 <= a < |rs| && order[a] == k;
      assert rs[a].ts <= rs[|rs| - 1].ts;
    }
    if rs != [] && !Stale(i, rs) { assert Fresh(i, order[|rs| - 1]); }
  }

  lemma LeastIsMin(st: RiseState, i: LatchInput, rs: seq<Reading>, order: seq<int>)
    requires ListsWindow(i, rs, order) && rs != []
    ensures var min := MinOver(ForDate(st, i.date).runningMin, Degrees(rs)); min.Some? && IsLeast(st, i, min.value)
  {
    hide WholeF, MinOver;
    var m0, xs := ForDate(st, i.date).runningMin, Degrees(rs);
    var min := MinOver(m0, xs);
    MinOverIsLeast(m0, xs);
    forall m | InWindow(i, m) ensures min.value <= DegreeOf(i, m) {
      assert m in order;
      var c :| 0 <= c < |rs| && order[c] == m;
      assert xs[c] == DegreeOf(i, m);
    }
    if min != m0 {
      var c :| 0 <= c < |xs| && xs[c] == min.value;
      assert InWindow(i, order[c]);
    }
  }

  /** A check of a date already latched changes nothing and answers yes; any other answers yes if and only if its batch
      warms so.  A batch that can be judged lowers the minimum to the least of it, and a yes keeps that as the baseline
      and latches the date; nothing else is touched. */
  lemma CheckLeaves(required: real, st: RiseState, i: LatchInput)
    requires st.latched == st.latchedForDay
    ensures var (s, yes) := LatchStep(required, st, i); var shut := st.date == Some(i.date) && st.latched;
      && SameBut(st, i, s)
      && (shut ==> s == st && yes)
      && (!shut ==>
            && (yes <==> Warms(required, st, i)) && s.latched == s.latchedForDay == yes
            && (Judgeable(i) ==> s.runningMin.Some? && IsLeast(st, i, s.runningMin.value))
            && (!Judgeable(i) ==> s.runningMin == if st.date == Some(i.date) then st.runningMin else None)
            && s.baseline == if yes then s.runningMin else if st.date == Some(i.date) then st.baseline else None)
  {
    var rs := Parsed(i);
    var order := ParsedListsWindow(i);
    var s0 := ForDate(st, i.date);
    TakeAllMin(s0, rs);
    if !(st.date == Some(i.date) && st.latched) { LatchesIff(required, st, i); }
    hide Parsed, WholeF, MinOver, Warms, IsLeast, Judgeable, ListsWindow, TakeAll, Sustained, Stale;
    JudgeableIff(i, rs, order);
    if rs != [] { LeastIsMin(st, i, rs, order); }
  }

  // ------------------------------------------------------------------
  // The order of the batch
  // ------------------------------------------------------------------

  lemma {:induction false} KeptConcat(a: seq<Obs>, b: seq<Obs>, start: int)
    ensures Kept(a + b, start) == Kept(a, start) + Kept(b, start)
  {
    if b == [] {
      assert a + b == a;
    } else {
      hide WholeF;
      assert (a + b)[..|a + b| - 1] == a + b[..|b| - 1];
      KeptConcat(a, b[..|b| - 1], start);
    }
  }

  /** What the window keeps of a batch does not depend on the order of the batch. */
  lemma {:induction false} KeptPermutes(a: seq<Obs>, b: seq<Obs>, start: int)
    requires multiset(a) == multiset(b)
    ensures multiset(Kept(a, start)) == multiset(Kept(b, start))
  {
    hide WholeF;
    if a == [] {
      assert |multiset(b)| == 0;
    } else {
      var n, x := |a| - 1, a[|a| - 1];
      assert x in multiset(a);
      var k :| 0 <= k < |b| && b[k] == x;
      hide *;
      WithoutOne(a, b, k);
      KeptPermutes(a[..n], b[..k] + b[k + 1..], start);
      assert a == a[..n] + [x] && b == b[..k] + ([x] + b[k + 1..]);
      KeptConcat(a[..n], [x], start);
      KeptBetween(b[..k], x, b[k + 1..], start);
    }
  }

  lemma WithoutOne(a: seq<Obs>, b: seq<Obs>, k: nat)
    requires multiset(a) == multiset(b) && a != [] && k < |b| && b[k] == a[|a| - 1]
    ensures multiset(a[..|a| - 1]) == multiset(b[..k] + b[k + 1..])
  {
    TakeOut(a, |a| - 1, b[k]);
    TakeOut(b, k, b[k]);
    assert a[..|a| - 1] + a[|a|..] == a[..|a| - 1];
  }

  lemma KeptBetween(a: seq<Obs>, x: Obs, b: seq<Obs>, start: int)
    ensures multiset(Kept(a + ([x] + b), start)) == multiset(Kept(a + b, start)) + multiset(Kept([x], start))
  {
    hide Kept;
    KeptConcat(a, b, start);
    KeptConcat(a, [x] + b, start);
    KeptConcat([x], b, start);
  }

  lemma {:induction false} SortedSame(a: seq<Reading>, b: seq<Reading>)
    requires multiset(a) == multiset(b) && SortedBy(b, TsOf)
    requires forall x, y :: 0 <= x < y < |a| ==> a[x].ts < a[y].ts
    ensures a == b
  {
    SameElements(a, b);
    if a != [] {
      HeadsAgree(a, b);
      TailsPermute(a, b);
      SortedSame(a[1..], b[1..]);
      hide *;
      SameByParts(a, b);
    }
  }

  lemma TailsPermute(a: seq<Reading>, b: seq<Reading>)
    requires a != [] && b != [] && a[0] == b[0] && multiset(a) == multiset(b)
    ensures multiset(a[1..]) == multiset(b[1..])
  {
    HeadOut(a);
    HeadOut(b);
  }

  lemma SameByParts(a: seq<Reading>, b: seq<Reading>)
    requires a != [] && b != [] && a[0] == b[0] && a[1..] == b[1..]
    ensures a == b
  {
    assert a == [a[0]] + a[1..] && b == [b[0]] + b[1..];
  }

  lemma HeadsAgree(a: seq<Reading>, b: seq<Reading>)
    requires a != [] && b != [] && SortedBy(b, TsOf) && forall x :: x in a <==> x in b
    requires forall x, y :: 0 <= x < y < |a| ==> a[x].ts < a[y].ts
    ensures a[0] == b[0]
  {
    assert a[0] in b && b[0] in a;
    var p :| 0 <= p < |b| && b[p] == a[0];
    var q :| 0 <= q < |a| && a[q] == b[0];
    assert TsOf(b[0]) <= TsOf(b[p]);
  }

  /** The observations of the window were made at different times. */
  ghost predicate DistinctTimes(i: LatchInput) {
    forall k, m :: InWindow(i, k) && InWindow(i, m) && k != m ==> TimeOf(i, k) != TimeOf(i, m)
  }

  /** When the times of the window differ, neither the state nor the answer depends on the order of the batch. */
  lemma OrderIrrelevant(required: real, st: RiseState, i: LatchInput, obs: seq<Obs>)
    requires i.fetch.Batch? && DistinctTimes(i) && multiset(obs) == multiset(i.fetch.obs)
    ensures LatchStep(required, st, i.(fetch := Batch(obs))) == LatchStep(required, st, i)
  {
    var j := i.(fetch := Batch(obs));
    var order := ParsedListsWindow(i);
    SortCorrect(Kept(i.fetch.obs, i.baselineStart), TsOf);
    SortCorrect(Kept(obs, i.baselineStart), TsOf);
    KeptPermutes(i.fetch.obs, obs, i.baselineStart);
    assert Parsed(i) == Parsed(j) by {
      hide Kept, StableSort, WholeF;
      SortedSame(Parsed(i), Parsed(j));
    }
    hide Parsed, Evaluate;
  }

  /** Two observations of one time may count in the order of the batch: here 52 and 50 degrees, before a later 52. */
  lemma EqualTimesDepend(d: Date)
    ensures var cold, warm, later := Obs(0, d, 10.0), Obs(0, d, 11.0), Obs(10, d, 11.0);
      var i := LatchInput(d, 20, 0, 60, Batch([warm, cold, later]));
      !LatchStep(1.0, BLANK, i).1 && LatchStep(1.0, BLANK, i.(fetch := Batch([cold, warm, later]))).1
  {
    var cold, warm, later := Obs(0, d, 10.0), Obs(0, d, 11.0), Obs(10, d, 11.0);
    var i := LatchInput(d, 20, 0, 60, Batch([warm, cold, later]));
    var j := i.(fetch := Batch([cold, warm, later]));
    WholeFIff(cold, 50);
    WholeFIff(warm, 52);
    WholeFIff(later, 52);
    hide WholeF, LatchStep;
    LatchesIff(1.0, BLANK, i);
    LatchesIff(1.0, BLANK, j);
    assert Newest(j, 2, 1);
    assert WarmerBy(1.0, DegreeOf(j, 1), DegreeOf(j, 0)) && WarmerBy(1.0, DegreeOf(j, 2), DegreeOf(j, 0));
    forall k, n | Newest(i, k, n) ensures n == 1 {
      assert InWindow(i, 0) && InWindow(i, 1) && InWindow(i, 2);
    }
  }

  // ------------------------------------------------------------------
  // The day minimum
  // ------------------------------------------------------------------

  predicate OfDate(i: DayMinInput, k: int) {
    i.fetch.Batch? && 0 <= k < |i.fetch.obs| && i.fetch.obs[k].date == i.date
  }

  lemma {:induction false} OnDateIs(obs: seq<Obs>, d: Date)
    ensures forall f :: f in OnDate(obs, d) <==> exists k :: 0 <= k < |obs| && obs[k].date == d && WholeF(obs[k]) == f
  {
    hide WholeF;
    if obs != [] {
      var n := |obs| - 1;
      OnDateIs(obs[..n], d);
      forall f ensures f in OnDate(obs, d) <==> exists k :: 0 <= k < |obs| && obs[k].date == d && WholeF(obs[k]) == f {
        if k :| 0 <= k < |obs| && obs[k].date == d && WholeF(obs[k]) == f {
          if k < n { assert obs[..n][k] == obs[k]; }
        }
        if f in OnDate(obs[..n], d) {
          var k :| 0 <= k < n && obs[..n][k].date == d && WholeF(obs[..n][k]) == f;
          assert obs[k] == obs[..n][k];
        }
      }
    }
  }

  /** The tracker asks for a batch when the date has no minimum yet or the last batch is a minute old; a batch that
      comes makes the minimum the least over the one before and the observations of the date.  Otherwise all is kept,
      but a new date starts afresh. */
  lemma TrackerLeaves(st: RiseState, i: DayMinInput)
    ensures var s := DayMinStep(st, i); var same := st.date == Some(i.date);
      var before := if same then st.dayMin else None;
      && s.date == Some(i.date)
      && s.(dayMin := None, refreshedAt := 0)
         == (if same then st.(dayMin := None, refreshedAt := 0) else BLANK.(date := s.date))
      && if i.fetch.Batch? && (before.None? || st.refreshedAt + 60 <= i.mono)
         then
           && s.refreshedAt == i.mono
           && (s.dayMin.None? <==> before.None? && forall k :: !OfDate(i, k))
           && (s.dayMin.Some? ==>
                 && (before.Some? ==> s.dayMin.value <= before.value)
                 && (forall k :: OfDate(i, k) ==> s.dayMin.value <= WholeF(i.fetch.obs[k]))
                 && (s.dayMin == before || exists k :: OfDate(i, k) && s.dayMin.value == WholeF(i.fetch.obs[k])))
         else s.dayMin == before && s.refreshedAt == if same then st.refreshedAt else 0
  {
    hide WholeF;
    if i.fetch.Batch? {
      var before := ForDate(st, i.date).dayMin;
      var on := OnDate(i.fetch.obs, i.date);
      OnDateIs(i.fetch.obs, i.date);
      MinOverIsLeast(before, on);
      hide OnDate, MinOver;
      forall k | OfDate(i, k) ensures WholeF(i.fetch.obs[k]) in on {}
      forall k | 0 <= k < |on| ensures exists m :: OfDate(i, m) && WholeF(i.fetch.obs[m]) == on[k] {
        assert on[k] in on;
      }
    }
  }
}
