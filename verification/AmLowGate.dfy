/** The AM-low decision: provisional until a forecast that covered the morning locks it for the local date, and kept
    in a table so that it outlives the process. */
module AmLowGate {
  import opened Common
  import SunriseGate

  type Series = string
  type Date = int

  type Hour = h: int | 0 <= h < 24

  /** A second of the local day. */
  type Second = t: int | 0 <= t < 86400

  datatype Key = Key(series: Series, date: Date)

  /** An hourly forecast period at a local date and second of the day; one without a readable time or temperature is
      `Unreadable`. */
  datatype Period = Unreadable | Hourly(date: Date, second: Second, degrees: real, celsius: bool)

  datatype Forecast = MetadataError | FetchError | Periods(periods: seq<Period>)

  datatype Config = Config(snapshotHour: Hour, deadlineHour: Hour)

  const CACHE_TTL_SECONDS := 1800

  function HourOf(t: Second): Hour { t / 3600 }

  // ------------------------------------------------------------------
  // The minimum of a day's forecast
  // ------------------------------------------------------------------

  predicate Usable(p: Period, d: Date) { p.Hourly? && p.date == d }

  function TempF(p: Period): real
    requires p.Hourly?
  {
    if p.celsius then SunriseGate.CToF(p.degrees) else p.degrees
  }

  datatype DayMin = NoPeriods | DayMin(min: real, minSecond: Second, firstSecond: Second)

  function Scan(ps: seq<Period>, d: Date): DayMin {
    if ps == [] then NoPeriods
    else
      var m, p := Scan(ps[..|ps| - 1], d), ps[|ps| - 1];
      if !Usable(p, d) then m
      else if m.NoPeriods? then DayMin(TempF(p), p.second, p.second)
      else
        var first := Min(m.firstSecond, p.second);
        if TempF(p) < m.min then DayMin(TempF(p), p.second, first) else m.(firstSecond := first)
  }

  /** Period `i` is as cold as any usable period. */
  ghost predicate Coldest(ps: seq<Period>, d: Date, i: int) {
    && 0 <= i < |ps| && Usable(ps[i], d)
    && forall k :: 0 <= k < |ps| && Usable(ps[k], d) ==> TempF(ps[i]) <= TempF(ps[k])
  }

  /** ... and the first such in list order. */
  ghost predicate FirstColdest(ps: seq<Period>, d: Date, i: int) {
    Coldest(ps, d, i) && forall k :: 0 <= k < i ==> !Coldest(ps, d, k)
  }

  ghost predicate Earliest(ps: seq<Period>, d: Date, i: int) {
    && 0 <= i < |ps| && Usable(ps[i], d)
    && forall k :: 0 <= k < |ps| && Usable(ps[k], d) ==> ps[i].second <= ps[k].second
  }

  lemma {:induction false} ScanFindsNothing(ps: seq<Period>, d: Date)
    ensures Scan(ps, d).NoPeriods? <==> forall k :: 0 <= k < |ps| ==> !Usable(ps[k], d)
  {
    if ps != [] { ScanFindsNothing(ps[..|ps| - 1], d); }
  }

  lemma ColdestExtends(before: seq<Period>, p: Period, d: Date, i: int)
    requires FirstColdest(before, d, i) && (Usable(p, d) ==> TempF(before[i]) <= TempF(p))
    ensures FirstColdest(before + [p], d, i)
  {
    var ps := before + [p];
    forall k | 0 <= k < |ps| && Usable(ps[k], d) ensures TempF(ps[i]) <= TempF(ps[k]) {
      if k < |before| { assert ps[k] == before[k]; }
    }
    forall k | 0 <= k < i ensures !Coldest(ps, d, k) {
      assert !Coldest(before, d, k);
      assert forall l :: 0 <= l < |before| ==> ps[l] == before[l];
    }
  }

  /** The scan reports the first of the coldest periods in list order. */
  lemma {:induction false} ScanFindsFirstColdest(ps: seq<Period>, d: Date) returns (i: int)
    requires Scan(ps, d).DayMin?
    ensures FirstColdest(ps, d, i) && Scan(ps, d).min == TempF(ps[i]) && Scan(ps, d).minSecond == ps[i].second
  {
    var n := |ps| - 1;
    var before, p := ps[..n], ps[n];
    assert ps == before + [p];
    i := n;
    if Scan(before, d).DayMin? {
      i := ScanFindsFirstColdest(before, d);
      if Usable(p, d) && TempF(p) < Scan(before, d).min {
        forall k | 0 <= k < n && Usable(ps[k], d) ensures TempF(p) < TempF(ps[k]) { assert ps[k] == before[k]; }
        i := n;
      } else {
        ColdestExtends(before, p, d, i);
      }
    } else {
      ScanFindsNothing(before, d);
      assert forall k :: 0 <= k < n ==> ps[k] == before[k];
    }
  }

  /** ... and the earliest period on offer. */
  lemma {:induction false} ScanFindsEarliest(ps: seq<Period>, d: Date) returns (i: int)
    requires Scan(ps, d).DayMin?
    ensures Earliest(ps, d, i) && Scan(ps, d).firstSecond == ps[i].second
  {
    var n := |ps| - 1;
    var before, p := ps[..n], ps[n];
    assert forall k :: 0 <= k < n ==> ps[k] == before[k];
    i := n;
    if Scan(before, d).DayMin? {
      i := ScanFindsEarliest(before, d);
      if Usable(p, d) && p.second < ps[i].second { i := n; }
    } else {
      ScanFindsNothing(before, d);
    }
  }

  // ------------------------------------------------------------------
  // What one forecast says
  // ------------------------------------------------------------------

  /** To one decimal, in tenths, ties to the even one. */
  function Tenths(x: real): int {
    var n := (x * 10.0).Floor;
    var rest := x * 10.0 - n as real;
    if rest < 0.5 || (rest == 0.5 && n % 2 == 0) then n else n + 1
  }

  datatype Decision = Unavailable | Partial(min: int, second: Second) | Full(passed: bool, min: int, second: Second)

  /** A forecast that starts after the snapshot hour has not seen the morning. */
  predicate IsLockable(firstHour: Hour, snapshotHour: Hour) { firstHour <= snapshotHour }

  function Decide(cfg: Config, d: Date, f: Forecast): Decision {
    if !f.Periods? then Unavailable
    else
      match Scan(f.periods, d)
      case NoPeriods => Unavailable
      case DayMin(min, second, first) =>
        if IsLockable(HourOf(first), cfg.snapshotHour) then Full(HourOf(second) < cfg.deadlineHour, Tenths(min), second)
        else Partial(Tenths(min), second)
  }

  /** A forecast decides against the day exactly when it has a period no later than the snapshot hour and the first of
      its coldest periods is at the deadline hour or after. */
  lemma BlocksIff(cfg: Config, d: Date, f: Forecast)
    ensures Decide(cfg, d, f).Full? && !Decide(cfg, d, f).passed <==>
      && f.Periods?
      && (exists k ::
            0 <= k < |f.periods| && Usable(f.periods[k], d) && HourOf(f.periods[k].second) <= cfg.snapshotHour)
      && (exists i :: FirstColdest(f.periods, d, i) && cfg.deadlineHour <= HourOf(f.periods[i].second))
  {
    if f.Periods? {
      var ps := f.periods;
      ScanFindsNothing(ps, d);
      if Scan(ps, d).DayMin? {
        var i := ScanFindsFirstColdest(ps, d);
        var e := ScanFindsEarliest(ps, d);
        forall j | FirstColdest(ps, d, j) ensures j == i { OnlyOneFirst(ps, d, i, j); }
        forall k | 0 <= k < |ps| && Usable(ps[k], d) && HourOf(ps[k].second) <= cfg.snapshotHour
          ensures HourOf(ps[e].second) <= cfg.snapshotHour
        {}
      }
    }
  }

  lemma OnlyOneFirst(ps: seq<Period>, d: Date, i: int, j: int)
    requires FirstColdest(ps, d, i) && FirstColdest(ps, d, j)
    ensures i == j
  {
    assert Coldest(ps, d, i) && Coldest(ps, d, j);
  }

  predicate Late(cfg: Config, p: Period) { p.Hourly? && cfg.deadlineHour <= HourOf(p.second) }

  ghost predicate Passes(cfg: Config, d: Date, ps: seq<Period>) {
    var m := Scan(ps, d);
    m.DayMin? && HourOf(m.minSecond) < cfg.deadlineHour
  }

  /** The coldest periods of a forecast all lie on one side of the deadline hour. */
  ghost predicate OneSided(cfg: Config, d: Date, ps: seq<Period>) {
    forall i, j :: Coldest(ps, d, i) && Coldest(ps, d, j) ==> Late(cfg, ps[i]) == Late(cfg, ps[j])
  }

  lemma ColdestElsewhere(a: seq<Period>, b: seq<Period>, d: Date, i: int) returns (j: int)
    requires multiset(a) == multiset(b) && Coldest(a, d, i)
    ensures Coldest(b, d, j) && b[j] == a[i]
  {
    assert a[i] in multiset(b);
    j :| 0 <= j < |b| && b[j] == a[i];
    forall k | 0 <= k < |b| && Usable(b[k], d) ensures TempF(b[j]) <= TempF(b[k]) {
      assert b[k] in multiset(a);
    }
  }

  /** The periods of `a` with the `i`-th moved to the front. */
  function ToFront(a: seq<Period>, i: nat): seq<Period>
    requires i < |a|
  {
    [a[i]] + a[..i] + a[i + 1..]
  }

  /** A coldest period listed first decides. */
  lemma FrontDecides(cfg: Config, d: Date, a: seq<Period>, i: int)
    requires Coldest(a, d, i)
    ensures multiset(ToFront(a, i)) == multiset(a)
    ensures Passes(cfg, d, ToFront(a, i)) <==> !Late(cfg, a[i])
  {
    var b := ToFront(a, i);
    assert a == a[..i] + [a[i]] + a[i + 1..];
    assert b[0] == a[i];
    forall k | 0 <= k < |b| && Usable(b[k], d) ensures TempF(b[0]) <= TempF(b[k]) {
      assert b[k] in multiset(a);
    }
    ScanFindsNothing(b, d);
    var k := ScanFindsFirstColdest(b, d);
    assert Coldest(b, d, 0);
  }

  lemma SameSideAnyOrder(cfg: Config, d: Date, a: seq<Period>, b: seq<Period>)
    requires multiset(a) == multiset(b) && OneSided(cfg, d, a)
    ensures Passes(cfg, d, b) ==> Passes(cfg, d, a)
    ensures Scan(b, d).DayMin? && Passes(cfg, d, a) ==> Passes(cfg, d, b)
  {
    if Scan(b, d).DayMin? {
      var q := ScanFindsFirstColdest(b, d);
      var r := ColdestElsewhere(b, a, d, q);
      ScanFindsNothing(a, d);
      var p := ScanFindsFirstColdest(a, d);
      assert Late(cfg, a[p]) == Late(cfg, a[r]);
    }
  }

  /** The verdict does not depend on the order in which a forecast lists its periods if and only if its coldest periods
      all lie on one side of the deadline hour. */
  lemma OrderIrrelevantIff(cfg: Config, d: Date, a: seq<Period>)
    ensures (forall b: seq<Period> :: multiset(b) == multiset(a) ==> Passes(cfg, d, b) == Passes(cfg, d, a)) <==>
            OneSided(cfg, d, a)
  {
    if forall b: seq<Period> :: multiset(b) == multiset(a) ==> Passes(cfg, d, b) == Passes(cfg, d, a) {
      forall i, j | Coldest(a, d, i) && Coldest(a, d, j) ensures Late(cfg, a[i]) == Late(cfg, a[j]) {
        FrontDecides(cfg, d, a, i);
        FrontDecides(cfg, d, a, j);
      }
    }
    if OneSided(cfg, d, a) {
      forall b: seq<Period> | multiset(b) == multiset(a) ensures Passes(cfg, d, b) == Passes(cfg, d, a) {
        SameSideAnyOrder(cfg, d, a, b);
        if Scan(a, d).DayMin? {
          var i := ScanFindsFirstColdest(a, d);
          var j := ColdestElsewhere(a, b, d, i);
          ScanFindsNothing(b, d);
        }
      }
    }
  }

  // ------------------------------------------------------------------
  // Cache, table and steps
  // ------------------------------------------------------------------

  datatype Entry = Entry(locked: bool, passed: bool, min: Option<int>, second: Option<Second>, cachedAt: int)

  datatype Row = Row(passed: bool, min: Option<int>, second: Option<Second>, hour: Hour)

  datatype State = State(cache: map<Key, Entry>, rows: map<Key, Row>)

  const EMPTY := State(map[], map[])

  /** One check: the monotonic clock, the local hour, what a fetch would return, and whether the table answers a read
      and accepts a write. */
  datatype CheckInput = CheckInput(key: Key, mono: int, hour: Hour, readOk: bool, forecast: Forecast, writeOk: bool)

  /** The scheduler's own evaluation at the snapshot hour. */
  datatype SnapshotInput = SnapshotInput(key: Key, hour: Hour, forecast: Forecast, writeOk: bool)

  datatype Event = Check(check: CheckInput) | Snapshot(snapshot: SnapshotInput) | Restart

  predicate Live(st: State, i: CheckInput) {
    i.key in st.cache && (st.cache[i.key].locked || i.mono - st.cache[i.key].cachedAt < CACHE_TTL_SECONDS)
  }

  function CheckStep(cfg: Config, st: State, i: CheckInput): (State, bool) {
    if Live(st, i) then (st, st.cache[i.key].passed)
    else if i.readOk && i.key in st.rows then
      var row := st.rows[i.key];
      (st.(cache := st.cache[i.key := Entry(true, row.passed, row.min, row.second, i.mono)]), row.passed)
    else
      match Decide(cfg, i.key.date, i.forecast)
      case Unavailable => (st.(cache := st.cache[i.key := Entry(false, false, None, None, i.mono)]), false)
      case Partial(min, second) =>
        (st.(cache := st.cache[i.key := Entry(false, true, Some(min), Some(second), i.mono)]), true)
      case Full(passed, min, second) =>
        var lock := i.hour >= cfg.snapshotHour;
        var rows := if lock && i.writeOk then st.rows[i.key := Row(passed, Some(min), Some(second), i.hour)]
            else st.rows;
        (State(st.cache[i.key := Entry(lock, passed, Some(min), Some(second), i.mono)], rows), passed)
  }

  function SnapshotStep(cfg: Config, st: State, i: SnapshotInput): (State, bool) {
    match Decide(cfg, i.key.date, i.forecast)
    case Full(passed, min, second) =>
      (if i.writeOk then st.(rows := st.rows[i.key := Row(passed, Some(min), Some(second), i.hour)]) else st, true)
    case _ => (st, false)
  }

  function Step(cfg: Config, st: State, e: Event): State {
    match e
    case Check(i) => CheckStep(cfg, st, i).0
    case Snapshot(i) => SnapshotStep(cfg, st, i).0
    case Restart => st.(cache := map[])
  }

  function Run(cfg: Config, st: State, es: seq<Event>): State {
    if es == [] then st else Step(cfg, Run(cfg, st, es[..|es| - 1]), es[|es| - 1])
  }

  // ------------------------------------------------------------------
  // What a forecast and a check come to, field by field
  // ------------------------------------------------------------------

  function Fahrenheit(p: Period): real
    requires p.Hourly?
  {
    if p.celsius then p.degrees * 1.8 + 32.0 else p.degrees
  }

  /** The first of the date's periods, in list order, than which none of the date is colder. */
  ghost predicate FirstLowest(ps: seq<Period>, d: Date, i: int) {
    && 0 <= i < |ps| && ps[i].Hourly? && ps[i].date == d
    && forall k :: 0 <= k < |ps| && ps[k].Hourly? && ps[k].date == d ==>
         Fahrenheit(ps[i]) <= Fahrenheit(ps[k]) && (k < i ==> Fahrenheit(ps[i]) < Fahrenheit(ps[k]))
  }

  /** A period of the date in or before the snapshot hour. */
  ghost predicate SeesMorning(cfg: Config, ps: seq<Period>, d: Date) {
    exists k :: 0 <= k < |ps| && ps[k].Hourly? && ps[k].date == d && ps[k].second < (cfg.snapshotHour + 1) * 3600
  }

  lemma FirstLowestIff(ps: seq<Period>, d: Date, i: int)
    ensures FirstLowest(ps, d, i) <==> FirstColdest(ps, d, i)
  {
    assert forall p: Period :: p.Hourly? ==> Fahrenheit(p) == TempF(p);
    if FirstLowest(ps, d, i) {
      forall k | 0 <= k < i ensures !Coldest(ps, d, k) {}
    }
    if FirstColdest(ps, d, i) {
      forall k | 0 <= k < i && Usable(ps[k], d) ensures TempF(ps[i]) < TempF(ps[k]) {
        assert !Coldest(ps, d, k);
        var m :| 0 <= m < |ps| && Usable(ps[m], d) && TempF(ps[m]) < TempF(ps[k]);
        assert TempF(ps[i]) <= TempF(ps[m]);
      }
    }
  }

  /** A forecast says nothing exactly when it has no period of the date; otherwise its first lowest period gives the
      minimum and the time, and decides, by whether that is before the deadline hour, exactly when a period of the date
      is in the snapshot hour or earlier. */
  lemma DecidesIff(cfg: Config, d: Date, ps: seq<Period>, i: int)
    ensures Decide(cfg, d, Periods(ps)).Unavailable? <==>
      forall k :: 0 <= k < |ps| && ps[k].Hourly? ==> ps[k].date != d
    ensures FirstLowest(ps, d, i) ==>
      Decide(cfg, d, Periods(ps)) ==
        if SeesMorning(cfg, ps, d)
        then Full(ps[i].second < cfg.deadlineHour * 3600, Tenths(Fahrenheit(ps[i])), ps[i].second)
        else Partial(Tenths(Fahrenheit(ps[i])), ps[i].second)
  {
    ScanFindsNothing(ps, d);
    if Scan(ps, d).DayMin? && FirstLowest(ps, d, i) {
      FirstLowestIff(ps, d, i);
      var j := ScanFindsFirstColdest(ps, d);
      OnlyOneFirst(ps, d, i, j);
      var e := ScanFindsEarliest(ps, d);
      assert Fahrenheit(ps[i]) == TempF(ps[i]);
      hide Scan, Tenths, FirstColdest, FirstLowest, TempF;
      if SeesMorning(cfg, ps, d) {
        var k :| 0 <= k < |ps| && ps[k].Hourly? && ps[k].date == d && ps[k].second < (cfg.snapshotHour + 1) * 3600;
        assert Usable(ps[k], d);
      }
    }
  }

  /** Tenths are rounded to the nearest, a tie to the even one. */
  lemma TenthsIff(x: real, n: int)
    ensures Tenths(x) == n <==>
      n as real - 0.5 <= x * 10.0 <= n as real + 0.5 && (n % 2 == 0 || n as real - 0.5 < x * 10.0 < n as real + 0.5)
  {
    var y := x * 10.0;
    var f := y.Floor;
    assert f as real <= y < f as real + 1.0;
    if n < f { assert n + 1 <= f; assert n as real + 1.0 <= f as real; }
    if n > f + 1 { assert n >= f + 2; assert n as real >= f as real + 2.0; }
    assert n == f + 1 ==> n as real == f as real + 1.0;
  }

  /** A check keeps to an entry that is locked or under half an hour old; to a stored row otherwise, which it locks;
      and otherwise to the forecast.  A forecast that decides locks the entry, and stores the row, from the snapshot
      hour on; one that has not seen the morning opens, one that says nothing closes, and neither touches the table. */
  lemma CheckLeaves(cfg: Config, st: State, i: CheckInput)
    ensures var (s, open) := CheckStep(cfg, st, i); var k := i.key;
      if k in st.cache && (st.cache[k].locked || i.mono < st.cache[k].cachedAt + 1800)
      then s == st && open == st.cache[k].passed
      else
        && s.cache.Keys == st.cache.Keys + {k} && (forall u :: u in st.cache && u != k ==> s.cache[u] == st.cache[u])
        && s.cache[k].cachedAt == i.mono && s.cache[k].passed == open
        && if i.readOk && k in st.rows
           then
             && s.rows == st.rows && open == st.rows[k].passed && s.cache[k].locked
             && s.cache[k].min == st.rows[k].min && s.cache[k].second == st.rows[k].second
           else
             match Decide(cfg, k.date, i.forecast)
             case Unavailable => s.rows == st.rows && !open && s.cache[k] == Entry(false, false, None, None, i.mono)
             case Partial(min, second) =>
               s.rows == st.rows && open && s.cache[k] == Entry(false, true, Some(min), Some(second), i.mono)
             case Full(passed, min, second) =>
               && open == passed && (s.cache[k].locked <==> cfg.snapshotHour <= i.hour)
               && s.cache[k].min == Some(min) && s.cache[k].second == Some(second)
               && s.rows == (if cfg.snapshotHour <= i.hour && i.writeOk
                             then st.rows[k := Row(passed, Some(min), Some(second), i.hour)] else st.rows)
  {
    hide Decide;
  }

  /** The scheduler's job stores what a forecast decides, at any hour and over any row, and nothing else. */
  lemma SnapshotLeaves(cfg: Config, st: State, i: SnapshotInput)
    ensures var (s, ok) := SnapshotStep(cfg, st, i); var d := Decide(cfg, i.key.date, i.forecast);
      && s.cache == st.cache && (ok <==> d.Full?)
      && s.rows == (if d.Full? && i.writeOk
                    then st.rows[i.key := Row(d.passed, Some(d.min), Some(d.second), i.hour)] else st.rows)
  {
    hide Decide;
  }

  predicate IsCheckOf(e: Event, k: Key) { e.Check? && e.check.key == k }

  function Answer(cfg: Config, st: State, es: seq<Event>, j: nat): bool
    requires j < |es| && es[j].Check?
  {
    CheckStep(cfg, Run(cfg, st, es[..j]), es[j].check).1
  }

  // ------------------------------------------------------------------
  // A partial morning decides nothing
  // ------------------------------------------------------------------

  /** Whatever was stored before, a forecast that has not seen the morning leaves the table as it was, and a check that
      has to consult it lets the day through on an unlocked entry. */
  lemma PartialNeverDecides(cfg: Config, st: State, i: CheckInput)
    requires Decide(cfg, i.key.date, i.forecast).Partial?
    ensures var (after, open) := CheckStep(cfg, st, i);
      && after.rows == st.rows
      && (!Live(st, i) && !(i.readOk && i.key in st.rows) ==> open && !after.cache[i.key].locked)
      && (!open ==> (Live(st, i) && !st.cache[i.key].passed) || (i.key in st.rows && !st.rows[i.key].passed))
      && (i.key in after.cache && after.cache[i.key].locked ==>
            (i.key in st.cache && st.cache[i.key].locked) || (i.readOk && i.key in st.rows))
  {}

  // ------------------------------------------------------------------
  // Locked entries and stored rows
  // ------------------------------------------------------------------

  predicate Matches(e: Entry, r: Row) { e.passed == r.passed && e.min == r.min && e.second == r.second }

  predicate KeyAgrees(st: State, k: Key) {
    k in st.cache && st.cache[k].locked ==> k in st.rows && Matches(st.cache[k], st.rows[k])
  }

  /** Every locked cache entry agrees with a stored row. */
  ghost predicate Agrees(st: State) {
    forall k :: k in st.cache ==> KeyAgrees(st, k)
  }

  /** The row a fresh decision asks for, when it locks. */
  function Wanted(cfg: Config, d: Date, f: Forecast, hour: Hour): Option<Row> {
    match Decide(cfg, d, f)
    case Full(passed, min, second) => Some(Row(passed, Some(min), Some(second), hour))
    case _ => None
  }

  predicate SameVerdict(a: Row, b: Row) { a.passed == b.passed && a.min == b.min && a.second == b.second }

  /** What keeps the cache and the table together at one step: a check that locks a fresh decision gets it written, or
      finds it there already; and the scheduler does not replace the row under a locked entry by a different one. */
  predicate Orderly(cfg: Config, st: State, e: Event) {
    match e
    case Restart => true
    case Check(i) =>
      var w := Wanted(cfg, i.key.date, i.forecast, i.hour);
      Live(st, i) || (i.readOk && i.key in st.rows) || w.None? || i.hour < cfg.snapshotHour || i.writeOk
      || (i.key in st.rows && SameVerdict(st.rows[i.key], w.value))
    case Snapshot(i) =>
      var w := Wanted(cfg, i.key.date, i.forecast, i.hour);
      w.None? || !i.writeOk || !(i.key in st.cache && st.cache[i.key].locked)
      || (i.key in st.rows && SameVerdict(st.rows[i.key], w.value))
  }

  /** Agreement is kept by a step exactly when the step is orderly. */
  lemma AgreementKeptIff(cfg: Config, st: State, e: Event)
    requires Agrees(st)
    ensures Agrees(Step(cfg, st, e)) <==> Orderly(cfg, st, e)
  {
    var after := Step(cfg, st, e);
    match e
    case Restart =>
    case Check(i) =>
      assert KeyAgrees(after, i.key) <==> Orderly(cfg, st, e) by {
        if i.key in st.cache { assert KeyAgrees(st, i.key); }
      }
      forall k | k in after.cache && k != i.key ensures KeyAgrees(after, k) { assert KeyAgrees(st, k); }
    case Snapshot(i) =>
      assert KeyAgrees(after, i.key) <==> Orderly(cfg, st, e) by {
        if i.key in st.cache { assert KeyAgrees(st, i.key); }
      }
      forall k | k in after.cache && k != i.key ensures KeyAgrees(after, k) { assert KeyAgrees(st, k); }
  }

  ghost predicate OrderlyRun(cfg: Config, es: seq<Event>) {
    forall j :: 0 <= j < |es| ==> Orderly(cfg, Run(cfg, EMPTY, es[..j]), es[j])
  }

  lemma {:induction false} LockedEntriesAgree(cfg: Config, es: seq<Event>)
    requires OrderlyRun(cfg, es)
    ensures Agrees(Run(cfg, EMPTY, es))
  {
    if es != [] {
      var before := es[..|es| - 1];
      forall j | 0 <= j < |before| ensures Orderly(cfg, Run(cfg, EMPTY, before[..j]), before[j]) {
        assert before[..j] == es[..j];
      }
      LockedEntriesAgree(cfg, before);
      AgreementKeptIff(cfg, Run(cfg, EMPTY, before), es[|es| - 1]);
    }
  }

  // ------------------------------------------------------------------
  // The verdict of a day
  // ------------------------------------------------------------------

  /** Checks of the key can read the table and the scheduler does not write the key again; restarts, forecasts, failed
      writes and everything that happens to other keys are free. */
  predicate Undisturbed(es: seq<Event>, k: Key) {
    forall j :: 0 <= j < |es| ==>
      (IsCheckOf(es[j], k) ==> es[j].check.readOk) && (es[j].Snapshot? ==> es[j].snapshot.key != k)
  }

  /** Every undisturbed future answers `v` for the key. */
  ghost predicate AlwaysAnswers(cfg: Config, st: State, k: Key, v: bool) {
    forall es: seq<Event>, j: nat ::
      Undisturbed(es, k) && j < |es| && IsCheckOf(es[j], k) ==> Answer(cfg, st, es, j) == v
  }

  /** Whether any forecast at all can let a day through: under a deadline of midnight none that saw the morning does,
      and a snapshot hour of 23 leaves no partial ones. */
  predicate CanPass(cfg: Config) { cfg.snapshotHour < 23 || cfg.deadlineHour > 0 }

  /** The row says `v` and nothing in memory says otherwise. */
  predicate Settled(cfg: Config, st: State, k: Key, v: bool) {
    && (if k in st.rows then st.rows[k].passed == v else !v && !CanPass(cfg))
    && (k in st.cache ==> st.cache[k].passed == v)
  }

  lemma NeverPasses(cfg: Config, d: Date, f: Forecast)
    requires !CanPass(cfg)
    ensures Decide(cfg, d, f).Unavailable? || (Decide(cfg, d, f).Full? && !Decide(cfg, d, f).passed)
  {}

  lemma {:induction false} SettledStays(cfg: Config, st: State, k: Key, v: bool, es: seq<Event>)
    requires Settled(cfg, st, k, v) && Undisturbed(es, k)
    ensures Settled(cfg, Run(cfg, st, es), k, v)
    ensures k in st.rows ==> k in Run(cfg, st, es).rows && Run(cfg, st, es).rows[k] == st.rows[k]
  {
    if es != [] {
      var before := es[..|es| - 1];
      assert Undisturbed(before, k);
      SettledStays(cfg, st, k, v, before);
      if !CanPass(cfg) && es[|es| - 1].Check? {
        NeverPasses(cfg, es[|es| - 1].check.key.date, es[|es| - 1].check.forecast);
      }
    }
  }

  /** What a check answers alone. */
  lemma OneCheck(cfg: Config, st: State, i: CheckInput)
    ensures Answer(cfg, st, [Check(i)], 0) == CheckStep(cfg, st, i).1
    ensures Answer(cfg, st, [Restart, Check(i)], 1) == CheckStep(cfg, st.(cache := map[]), i).1
  {
    var two := [Restart, Check(i)];
    assert [Check(i)][..0] == [] && two[..1] == [Restart] && [Restart][..0] == [];
  }

  /** The verdict of a key is final, through any forecasts and any number of restarts, if and only if it is stored and
      no unlocked entry contradicts the stored one. */
  lemma FinalIff(cfg: Config, st: State, k: Key, v: bool)
    ensures AlwaysAnswers(cfg, st, k, v) <==> Settled(cfg, st, k, v)
  {
    if Settled(cfg, st, k, v) {
      forall es: seq<Event>, j: nat | Undisturbed(es, k) && j < |es| && IsCheckOf(es[j], k)
        ensures Answer(cfg, st, es, j) == v
      {
        assert Undisturbed(es[..j], k);
        SettledStays(cfg, st, k, v, es[..j]);
        if !CanPass(cfg) { NeverPasses(cfg, k.date, es[j].check.forecast); }
      }
    }
    if AlwaysAnswers(cfg, st, k, v) {
      var down := CheckInput(k, 0, 0, true, MetadataError, false);
      Answers(cfg, st, k, v, down);
      if CanPass(cfg) {
        var hour: Hour := if cfg.snapshotHour < 23 then cfg.snapshotHour + 1 else 0;
        var p := Hourly(k.date, hour * 3600, 0.0, false);
        OnePeriod(p, k.date);
        Answers(cfg, st, k, v, CheckInput(k, 0, 0, true, Periods([p]), false));
      }
      if k in st.cache {
        Answers(cfg, st, k, v, CheckInput(k, st.cache[k].cachedAt, 0, true, MetadataError, false));
      }
    }
  }

  lemma OnePeriod(p: Period, d: Date)
    requires Usable(p, d)
    ensures Scan([p], d) == DayMin(TempF(p), p.second, p.second)
  {
    assert [p][..0] == [];
  }

  lemma Answers(cfg: Config, st: State, k: Key, v: bool, i: CheckInput)
    requires AlwaysAnswers(cfg, st, k, v) && i.key == k && i.readOk
    ensures CheckStep(cfg, st, i).1 == v && CheckStep(cfg, st.(cache := map[]), i).1 == v
  {
    OneCheck(cfg, st, i);
    assert Undisturbed([Check(i)], k) && Undisturbed([Restart, Check(i)], k);
    assert IsCheckOf([Check(i)][0], k) && IsCheckOf([Restart, Check(i)][1], k);
  }

  /** A verdict locked in an orderly run is final for its key. */
  lemma LockedIsFinal(cfg: Config, es: seq<Event>, k: Key)
    requires OrderlyRun(cfg, es)
    requires var st := Run(cfg, EMPTY, es); k in st.cache && st.cache[k].locked
    ensures AlwaysAnswers(cfg, Run(cfg, EMPTY, es), k, Run(cfg, EMPTY, es).cache[k].passed)
  {
    var st := Run(cfg, EMPTY, es);
    LockedEntriesAgree(cfg, es);
    assert KeyAgrees(st, k);
    FinalIff(cfg, st, k, st.cache[k].passed);
  }

  /** Within one process nothing moves a locked entry: not a failing table, not the scheduler, not a new forecast. */
  lemma {:induction false} LockHoldsWithinProcess(cfg: Config, st: State, k: Key, es: seq<Event>)
    requires k in st.cache && st.cache[k].locked
    requires forall j :: 0 <= j < |es| ==> !es[j].Restart?
    ensures k in Run(cfg, st, es).cache && Run(cfg, st, es).cache[k] == st.cache[k]
    ensures forall j: nat :: j < |es| && IsCheckOf(es[j], k) ==> Answer(cfg, st, es, j) == st.cache[k].passed
  {
    if es != [] {
      var before := es[..|es| - 1];
      LockHoldsWithinProcess(cfg, st, k, before);
      forall j: nat | j < |es| && IsCheckOf(es[j], k) ensures Answer(cfg, st, es, j) == st.cache[k].passed {
        if j < |before| {
          assert before[j] == es[j] && before[..j] == es[..j];
          assert Answer(cfg, st, before, j) == st.cache[k].passed;
        } else {
          assert es[..j] == before;
        }
      }
    }
  }

  /** A lock whose write failed does not outlive the process: a restart and a lost forecast service turn it around. */
  lemma UnwrittenLockIsLost(cfg: Config, k: Key)
    requires cfg.snapshotHour == 3 && cfg.deadlineHour == 12
    ensures var i := CheckInput(k, 0, 4, true, Periods([Hourly(k.date, 0, 50.0, false)]), false);
      var again := CheckInput(k, 0, 4, true, MetadataError, true);
      var es := [Check(i), Restart, Check(again)];
      && Run(cfg, EMPTY, es[..1]).cache[k].locked
      && Answer(cfg, EMPTY, es, 0) && !Answer(cfg, EMPTY, es, 2)
  {
    var i := CheckInput(k, 0, 4, true, Periods([Hourly(k.date, 0, 50.0, false)]), false);
    var again := CheckInput(k, 0, 4, true, MetadataError, true);
    var es := [Check(i), Restart, Check(again)];
    OnePeriod(i.forecast.periods[0], k.date);
    assert es[..0] == [] && es[..1][..0] == [] && es[..2][..1] == es[..1];
  }

  // ------------------------------------------------------------------
  // The gate object
  // ------------------------------------------------------------------

  class ForecastTable {
    var rows: map<Key, Row>

    constructor ()
      ensures rows == map[]
    {
      rows := map[];
    }

    /** A failed read looks like a missing row. */
    method Stored(k: Key, readOk: bool) returns (row: Option<Row>)
      ensures row == if readOk && k in rows then Some(rows[k]) else None
    {
      row := if readOk && k in rows then Some(rows[k]) else None;
    }

    method Upsert(k: Key, row: Row, writeOk: bool)
      modifies this
      ensures rows == if writeOk then old(rows)[k := row] else old(rows)
    {
      if writeOk {
        rows := rows[k := row];
      }
    }
  }

  method ScanDayMin(ps: seq<Period>, d: Date) returns (m: DayMin)
    ensures m == Scan(ps, d)
  {
    m := NoPeriods;
    for n := 0 to |ps|
      invariant m == Scan(ps[..n], d)
    {
      assert ps[..n + 1][..n] == ps[..n];
      var p := ps[n];
      if Usable(p, d) {
        if m.NoPeriods? {
          m := DayMin(TempF(p), p.second, p.second);
        } else {
          if p.second < m.firstSecond { m := m.(firstSecond := p.second); }
          if TempF(p) < m.min { m := m.(min := TempF(p), minSecond := p.second); }
        }
      }
    }
    assert ps[..|ps|] == ps;
  }

  /** The part of the sunrise gate that holds the AM-low decision. */
  class SunriseEntryGate {
    const cfg: Config
    const table: ForecastTable
    var cache: map<Key, Entry>

    constructor (cfg: Config, table: ForecastTable)
      ensures this.cfg == cfg && this.table == table && cache == map[]
    {
      this.cfg, this.table, cache := cfg, table, map[];
    }

    function Abs(): State
      reads this, table
    {
      State(cache, table.rows)
    }

    method CheckAmLowForecast(i: CheckInput) returns (open: bool)
      modifies this, table
      ensures (Abs(), open) == CheckStep(cfg, old(Abs()), i)
    {
      var k := i.key;
      if k in cache {
        var e := cache[k];
        if e.locked || i.mono - e.cachedAt < CACHE_TTL_SECONDS {
          return e.passed;
        }
      }
      var stored := table.Stored(k, i.readOk);
      if stored.Some? {
        cache := cache[k := Entry(true, stored.value.passed, stored.value.min, stored.value.second, i.mono)];
        return stored.value.passed;
      }
      if !i.forecast.Periods? {
        cache := cache[k := Entry(false, false, None, None, i.mono)];
        return false;
      }
      var m := ScanDayMin(i.forecast.periods, k.date);
      if m.NoPeriods? {
        cache := cache[k := Entry(false, false, None, None, i.mono)];
        return false;
      }
      var passed := HourOf(m.minSecond) < cfg.deadlineHour;
      if !IsLockable(HourOf(m.firstSecond), cfg.snapshotHour) {
        cache := cache[k := Entry(false, true, Some(Tenths(m.min)), Some(m.minSecond), i.mono)];
        return true;
      }
      var lock := i.hour >= cfg.snapshotHour;
      if lock {
        table.Upsert(k, Row(passed, Some(Tenths(m.min)), Some(m.minSecond), i.hour), i.writeOk);
      }
      cache := cache[k := Entry(lock, passed, Some(Tenths(m.min)), Some(m.minSecond), i.mono)];
      return passed;
    }
  }

  /** The scheduler's job writes the table without looking at what is there. */
  method SnapshotAmLowForecast(cfg: Config, table: ForecastTable, i: SnapshotInput) returns (ok: bool)
    modifies table
    ensures forall cache :: SnapshotStep(cfg, State(cache, old(table.rows)), i) == (State(cache, table.rows), ok)
  {
    if !i.forecast.Periods? {
      return false;
    }
    var m := ScanDayMin(i.forecast.periods, i.key.date);
    if m.NoPeriods? || !IsLockable(HourOf(m.firstSecond), cfg.snapshotHour) {
      return false;
    }
    var passed := HourOf(m.minSecond) < cfg.deadlineHour;
    table.Upsert(i.key, Row(passed, Some(Tenths(m.min)), Some(m.minSecond), i.hour), i.writeOk);
    return true;
  }
}
