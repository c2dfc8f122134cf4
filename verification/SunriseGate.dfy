/** The once-per-day temperature-rise latch and the day-minimum tracker that shares its per-series state. */
module SunriseGate {
  import opened Common
  import opened BracketRanges

  type Series = string
  type Date = int

  /** One station observation: UTC seconds, its local date, and degrees Celsius. */
  datatype Obs = Obs(ts: int, date: Date, celsius: real)

  datatype Fetch = Failed | Batch(obs: seq<Obs>)

  datatype Reading = Reading(ts: int, f: int)

  const RISE_CONFIRM_OBS := 2
  const DAY_MIN_REFRESH_SECONDS := 60

  function CToF(c: real): real { c * (9.0 / 5.0) + 32.0 }

  /** To the nearest whole degree, ties up. */
  function RoundHalfUp(x: real): int { (x + 0.5).Floor }

  function WholeF(o: Obs): int { RoundHalfUp(CToF(o.celsius)) }

  // ------------------------------------------------------------------
  // State
  // ------------------------------------------------------------------

  /** `runningMin` and `dayMin` are `None` before the first observation (infinity in the source). */
  datatype RiseState = RiseState(
    date: Option<Date>,
    runningMin: Option<int>,
    latched: bool,
    latchedForDay: bool,
    baseline: Option<int>,
    dayMin: Option<int>,
    refreshedAt: int)

  const BLANK := RiseState(None, None, false, false, None, None, 0)

  function ForDate(st: RiseState, d: Date): RiseState {
    if st.date == Some(d) then st else BLANK.(date := Some(d))
  }

  function MinWith(m: Option<int>, x: int): Option<int> {
    if m.Some? && m.value <= x then m else Some(x)
  }

  function MinOf(xs: seq<int>): Option<int> {
    if xs == [] then None else MinWith(MinOf(xs[..|xs| - 1]), xs[|xs| - 1])
  }

  function MinOver(m: Option<int>, xs: seq<int>): Option<int> {
    if xs == [] then m else MinWith(MinOver(m, xs[..|xs| - 1]), xs[|xs| - 1])
  }

  lemma {:induction false} MinOfConcat(a: seq<int>, b: seq<int>)
    ensures MinOf(a + b) == MinOver(MinOf(a), b)
  {
    if b == [] {
      assert a + b == a;
    } else {
      assert (a + b)[..|a + b| - 1] == a + b[..|b| - 1];
      MinOfConcat(a, b[..|b| - 1]);
    }
  }

  /** The minimum of a list is one of its members and below all of them. */
  lemma {:induction false} MinOfIsMinimum(xs: seq<int>)
    ensures xs == [] <==> MinOf(xs).None?
    ensures xs != [] ==> MinOf(xs).value in xs && forall i :: 0 <= i < |xs| ==> MinOf(xs).value <= xs[i]
  {
    if xs != [] { MinOfIsMinimum(xs[..|xs| - 1]); }
  }

  // ------------------------------------------------------------------
  // The latch
  // ------------------------------------------------------------------

  datatype LatchInput = LatchInput(date: Date, now: int, baselineStart: int, maxAgeMinutes: int, fetch: Fetch)

  function TsOf(r: Reading): int { r.ts }

  function Kept(obs: seq<Obs>, start: int): seq<Reading> {
    if obs == [] then []
    else
      var o := obs[|obs| - 1];
      Kept(obs[..|obs| - 1], start) + (if o.ts >= start then [Reading(o.ts, WholeF(o))] else [])
  }

  /** The whole-degree readings of the baseline window, oldest first. */
  function Parsed(i: LatchInput): seq<Reading> {
    if i.fetch.Failed? then [] else StableSort(Kept(i.fetch.obs, i.baselineStart), TsOf)
  }

  predicate Stale(i: LatchInput, rs: seq<Reading>)
    requires rs != []
  {
    i.now - rs[|rs| - 1].ts > i.maxAgeMinutes * 60
  }

  function Degrees(rs: seq<Reading>): seq<int> { seq(|rs|, k requires 0 <= k < |rs| => rs[k].f) }

  /** A reading under the running minimum; while only provisionally latched, one under the latch baseline unlatches.  A
      baseline of zero degrees counts as no baseline. */
  function TakeMin(st: RiseState, f: int): RiseState {
    if st.runningMin.Some? && st.runningMin.value <= f then st
    else if st.latched && !st.latchedForDay && (st.baseline.None? || st.baseline.value == 0 || f < st.baseline.value)
    then st.(latched := false, baseline := None, runningMin := Some(f))
    else st.(runningMin := Some(f))
  }

  function TakeAll(st: RiseState, rs: seq<Reading>): RiseState {
    if rs == [] then st else TakeMin(TakeAll(st, rs[..|rs| - 1]), rs[|rs| - 1].f)
  }

  predicate Risen(f: int, min: int, required: real) { f as real >= min as real + required }

  /** How many of the newest readings in a row have risen by the requirement. */
  function Sustained(rs: seq<Reading>, min: int, required: real): nat {
    if rs == [] || !Risen(rs[|rs| - 1].f, min, required) then 0
    else 1 + Sustained(rs[..|rs| - 1], min, required)
  }

  /** A batch that is neither empty nor stale. */
  function Evaluate(required: real, st: RiseState, rs: seq<Reading>): RiseState
    requires rs != []
  {
    var s := TakeAll(st, rs);
    if s.runningMin.Some? && !s.latched && Risen(rs[|rs| - 1].f, s.runningMin.value, required)
       && Sustained(rs, s.runningMin.value, required) >= RISE_CONFIRM_OBS
    then s.(latched := true, latchedForDay := true, baseline := s.runningMin)
    else s
  }

  function LatchStep(required: real, st0: RiseState, i: LatchInput): (RiseState, bool) {
    var st := ForDate(st0, i.date);
    if st.latchedForDay then (st, true)
    else if i.fetch.Failed? then (st, false)
    else
      var rs := Parsed(i);
      if rs == [] || Stale(i, rs) then (if st.latched then (st.(latchedForDay := true), true) else (st, false))
      else
        var s := Evaluate(required, st, rs);
        (s, s.latched)
  }

  // ------------------------------------------------------------------
  // The day minimum
  // ------------------------------------------------------------------

  datatype DayMinInput = DayMinInput(date: Date, mono: int, fetch: Fetch)

  function OnDate(obs: seq<Obs>, d: Date): seq<int> {
    if obs == [] then []
    else
      var o := obs[|obs| - 1];
      OnDate(obs[..|obs| - 1], d) + (if o.date == d then [WholeF(o)] else [])
  }

  function DayMinStep(st0: RiseState, i: DayMinInput): RiseState {
    var st := ForDate(st0, i.date);
    if (st.dayMin.None? || i.mono - st.refreshedAt >= DAY_MIN_REFRESH_SECONDS) && i.fetch.Batch?
    then st.(dayMin := MinOver(st.dayMin, OnDate(i.fetch.obs, i.date)), refreshedAt := i.mono)
    else st
  }

  // ------------------------------------------------------------------
  // Runs that interleave the two
  // ------------------------------------------------------------------

  datatype Event = Latch(latch: LatchInput) | DayMin(dayMin: DayMinInput)

  function EventDate(e: Event): Date { if e.Latch? then e.latch.date else e.dayMin.date }

  function Step(required: real, st: RiseState, e: Event): RiseState {
    match e
    case Latch(i) => LatchStep(required, st, i).0
    case DayMin(i) => DayMinStep(st, i)
  }

  function Run(required: real, es: seq<Event>): RiseState
  {
    if es == [] then BLANK else Step(required, Run(required, es[..|es| - 1]), es[|es| - 1])
  }

  /** The answer given at event `j`, when it is a latch check. */
  function Answer(required: real, es: seq<Event>, j: nat): bool
    requires j < |es| && es[j].Latch?
  {
    LatchStep(required, Run(required, es[..j]), es[j].latch).1
  }

  lemma {:induction false} TakeAllMin(st: RiseState, rs: seq<Reading>)
    requires st.latched ==> st.latchedForDay
    ensures TakeAll(st, rs) == st.(runningMin := MinOver(st.runningMin, Degrees(rs)))
  {
    if rs != [] {
      TakeAllMin(st, rs[..|rs| - 1]);
      assert Degrees(rs)[..|rs| - 1] == Degrees(rs[..|rs| - 1]);
    }
  }

  /** In every reachable state the latch and the day latch agree, so the branch that unlatches within a day is dead: a
      batch changes nothing but the running minimum before the rise is judged. */
  lemma {:induction false} LatchesAgree(required: real, es: seq<Event>)
    ensures Run(required, es).latched == Run(required, es).latchedForDay
    ensures forall rs: seq<Reading> ::
      TakeAll(Run(required, es), rs) ==
          Run(required, es).(runningMin := MinOver(Run(required, es).runningMin, Degrees(rs)))
  {
    if es != [] {
      var before, e := Run(required, es[..|es| - 1]), es[|es| - 1];
      LatchesAgree(required, es[..|es| - 1]);
      if e.Latch? && !ForDate(before, e.latch.date).latchedForDay {
        var rs := Parsed(e.latch);
        TakeAllMin(ForDate(before, e.latch.date), rs);
      }
    }
    forall rs: seq<Reading>
      ensures TakeAll(Run(required, es), rs) ==
        Run(required, es).(runningMin := MinOver(Run(required, es).runningMin, Degrees(rs)))
    {
      TakeAllMin(Run(required, es), rs);
    }
  }

  /** Once a check has answered yes, every later check of that date answers yes, whatever it observes and however often
      the day-minimum tracker touches the state in between. */
  lemma {:induction false} YesStaysYes(required: real, es: seq<Event>, i: nat, j: nat)
    requires i < j < |es| && es[i].Latch? && es[j].Latch? && Answer(required, es, i)
    requires forall k :: i <= k <= j ==> EventDate(es[k]) == EventDate(es[i])
    ensures Answer(required, es, j)
  {
    LatchedUntil(required, es, i, j);
  }

  lemma {:induction false} LatchedUntil(required: real, es: seq<Event>, i: nat, n: nat)
    requires i < n <= |es| && es[i].Latch? && Answer(required, es, i)
    requires forall k :: i <= k < n ==> EventDate(es[k]) == EventDate(es[i])
    ensures var st := Run(required, es[..n]); st.latchedForDay && st.date == Some(EventDate(es[i]))
    decreases n
  {
    assert es[..n][..n - 1] == es[..n - 1];
    LatchesAgree(required, es[..n]);
    if n - 1 > i { LatchedUntil(required, es, i, n - 1); }
    if es[n - 1].Latch? {
      TakeAllKeepsDayMin(ForDate(Run(required, es[..n - 1]), EventDate(es[n - 1])), Parsed(es[n - 1].latch));
    }
  }

  lemma SustainedTwo(rs: seq<Reading>, min: int, required: real)
    ensures Sustained(rs, min, required) >= RISE_CONFIRM_OBS <==>
            |rs| >= 2 && Risen(rs[|rs| - 1].f, min, required) && Risen(rs[|rs| - 2].f, min, required)
  {
    if |rs| >= 2 { assert rs[..|rs| - 1][|rs| - 2] == rs[|rs| - 2]; }
  }

  /** A check that is not already latched answers yes if and only if its batch is fresh and its two newest whole-degree
      readings both exceed the running minimum, this batch included, by the requirement. */
  lemma LatchesOnReadings(required: real, st: RiseState, i: LatchInput)
    requires st.latched == st.latchedForDay && !ForDate(st, i.date).latched
    ensures var rs := Parsed(i); var min := MinOver(ForDate(st, i.date).runningMin, Degrees(rs));
      LatchStep(required, st, i).1 <==>
        && |rs| >= 2 && !Stale(i, rs) && min.Some?
        && Risen(rs[|rs| - 1].f, min.value, required) && Risen(rs[|rs| - 2].f, min.value, required)
  {
    var rs := Parsed(i);
    var min := MinOver(ForDate(st, i.date).runningMin, Degrees(rs));
    TakeAllMin(ForDate(st, i.date), rs);
    if min.Some? { SustainedTwo(rs, min.value, required); }
  }

  /** The readings that reached the minimum: those of the fresh batches judged on this date, up to the latch. */
  function Judged(required: real, es: seq<Event>): seq<int> {
    if es == [] then []
    else
      var before, e := es[..|es| - 1], es[|es| - 1];
      var st := Run(required, before);
      var earlier := if st.date == Some(EventDate(e)) then Judged(required, before) else [];
      if e.Latch? && !ForDate(st, e.latch.date).latchedForDay && Parsed(e.latch) != []
          && !Stale(e.latch, Parsed(e.latch))
      then earlier + Degrees(Parsed(e.latch)) else earlier
  }

  /** The running minimum is the minimum over all those readings. */
  lemma {:induction false} RunningMinIsMinimum(required: real, es: seq<Event>)
    ensures Run(required, es).runningMin == MinOf(Judged(required, es))
  {
    if es != [] {
      var before, e := es[..|es| - 1], es[|es| - 1];
      RunningMinIsMinimum(required, before);
      LatchesAgree(required, before);
      var st := Run(required, before);
      var earlier := if st.date == Some(EventDate(e)) then Judged(required, before) else [];
      if e.Latch? {
        TakeAllMin(ForDate(st, e.latch.date), Parsed(e.latch));
        MinOfConcat(earlier, Degrees(Parsed(e.latch)));
      }
    }
  }

  // ------------------------------------------------------------------
  // What the requirement means on whole degrees
  // ------------------------------------------------------------------

  lemma RisenOnWholeDegrees(f: int, min: int, required: real)
    requires 0.0 < required <= 1.0
    ensures Risen(f, min, required) <==> Risen(f, min, 1.0)
  {
    if f >= min + 1 {
      assert f as real >= (min + 1) as real == min as real + 1.0;
    } else {
      assert f as real <= min as real;
    }
  }

  lemma {:induction false} SustainedAlike(rs: seq<Reading>, min: int, required: real)
    requires 0.0 < required <= 1.0
    ensures Sustained(rs, min, required) == Sustained(rs, min, 1.0)
  {
    if rs != [] {
      RisenOnWholeDegrees(rs[|rs| - 1].f, min, required);
      SustainedAlike(rs[..|rs| - 1], min, required);
    }
  }

  lemma StepAlike(required: real, st: RiseState, e: Event)
    requires 0.0 < required <= 1.0
    ensures Step(required, st, e) == Step(1.0, st, e)
    ensures e.Latch? ==> LatchStep(required, st, e.latch).1 == LatchStep(1.0, st, e.latch).1
  {
    if e.Latch? && e.latch.fetch.Batch? {
      var rs := Parsed(e.latch);
      var s := TakeAll(ForDate(st, e.latch.date), rs);
      if s.runningMin.Some? && rs != [] {
        SustainedAlike(rs, s.runningMin.value, required);
        RisenOnWholeDegrees(rs[|rs| - 1].f, s.runningMin.value, required);
      }
    }
  }

  /** Every requirement of at most one degree gives exactly the states, and so the answers, of a requirement of one. */
  lemma {:induction false} SubDegreeRequirementsAgree(required: real, es: seq<Event>)
    requires 0.0 < required <= 1.0
    ensures Run(required, es) == Run(1.0, es)
    ensures forall j: nat :: j < |es| && es[j].Latch? ==> Answer(required, es, j) == Answer(1.0, es, j)
  {
    if es != [] {
      var before := es[..|es| - 1];
      SubDegreeRequirementsAgree(required, before);
      StepAlike(required, Run(1.0, before), es[|es| - 1]);
      forall j: nat | j < |es| && es[j].Latch? ensures Answer(required, es, j) == Answer(1.0, es, j) {
        if j < |before| {
          assert before[j] == es[j] && before[..j] == es[..j];
          assert Answer(required, before, j) == Answer(1.0, before, j);
        } else {
          assert es[..j] == before;
        }
      }
    }
  }

  /** Every observation of every batch rounds to the same whole degree. */
  ghost predicate FlatAt(es: seq<Event>, w: int) {
    forall j :: 0 <= j < |es| && es[j].Latch? && es[j].latch.fetch.Batch? ==>
      forall k :: 0 <= k < |es[j].latch.fetch.obs| ==> WholeF(es[j].latch.fetch.obs[k]) == w
  }

  lemma {:induction false} KeptFlat(obs: seq<Obs>, start: int, w: int)
    requires forall k :: 0 <= k < |obs| ==> WholeF(obs[k]) == w
    ensures forall k :: 0 <= k < |Kept(obs, start)| ==> Kept(obs, start)[k].f == w
  {
    if obs != [] { KeptFlat(obs[..|obs| - 1], start, w); }
  }

  lemma ParsedFlat(i: LatchInput, w: int)
    requires i.fetch.Batch? ==> forall k :: 0 <= k < |i.fetch.obs| ==> WholeF(i.fetch.obs[k]) == w
    ensures forall k :: 0 <= k < |Parsed(i)| ==> Parsed(i)[k].f == w
  {
    if i.fetch.Batch? {
      var kept := Kept(i.fetch.obs, i.baselineStart);
      KeptFlat(i.fetch.obs, i.baselineStart, w);
      SortCorrect(kept, TsOf);
      forall k | 0 <= k < |Parsed(i)| ensures Parsed(i)[k].f == w { assert Parsed(i)[k] in kept; }
    }
  }

  lemma {:induction false} MinOverFlat(m: Option<int>, xs: seq<int>, w: int)
    requires (m.None? || m.value == w) && forall k :: 0 <= k < |xs| ==> xs[k] == w
    ensures MinOver(m, xs).None? || MinOver(m, xs).value == w
    ensures xs != [] ==> MinOver(m, xs) == Some(w)
  {
    if xs != [] { MinOverFlat(m, xs[..|xs| - 1], w); }
  }

  /** A series whose readings all round to one whole degree never latches, for any positive requirement. */
  lemma {:induction false} FlatNeverLatches(required: real, es: seq<Event>, w: int)
    requires required > 0.0 && FlatAt(es, w)
    ensures !Run(required, es).latched && !Run(required, es).latchedForDay
    ensures Run(required, es).runningMin.None? || Run(required, es).runningMin.value == w
  {
    if es != [] {
      var before, e := es[..|es| - 1], es[|es| - 1];
      FlatNeverLatches(required, before, w);
      if e.Latch? {
        var st := Run(required, before);
        ParsedFlat(e.latch, w);
        MinOverFlat(ForDate(st, e.latch.date).runningMin, Degrees(Parsed(e.latch)), w);
        TakeAllMin(ForDate(st, e.latch.date), Parsed(e.latch));
        LatchesOnReadings(required, st, e.latch);
      }
    }
  }

  // ------------------------------------------------------------------
  // Verdicts within a day
  // ------------------------------------------------------------------

  lemma {:induction false} MinOverFalls(m: Option<int>, xs: seq<int>)
    ensures m.Some? ==> MinOver(m, xs).Some? && MinOver(m, xs).value <= m.value
  {
    if xs != [] { MinOverFalls(m, xs[..|xs| - 1]); }
  }

  lemma StepKeepsDayMin(required: real, st: RiseState, e: Event)
    requires st.date == Some(EventDate(e)) && st.dayMin.Some?
    ensures var st' := Step(required, st, e);
      st'.date == st.date && st'.dayMin.Some? && st'.dayMin.value <= st.dayMin.value
  {
    match e
    case Latch(i) =>
      if i.fetch.Batch? && !st.latchedForDay { TakeAllKeepsDayMin(st, Parsed(i)); }
    case DayMin(i) =>
      if i.fetch.Batch? { MinOverFalls(st.dayMin, OnDate(i.fetch.obs, i.date)); }
  }

  lemma {:induction false} TakeAllKeepsDayMin(st: RiseState, rs: seq<Reading>)
    ensures TakeAll(st, rs).dayMin == st.dayMin && TakeAll(st, rs).date == st.date
  {
    if rs != [] { TakeAllKeepsDayMin(st, rs[..|rs| - 1]); }
  }

  lemma {:induction false} DayMinFalls(required: real, es: seq<Event>, i: nat, j: nat)
    requires i <= j <= |es| && Run(required, es[..i]).dayMin.Some?
    requires forall k :: i <= k < j ==> Some(EventDate(es[k])) == Run(required, es[..i]).date
    ensures var a, b := Run(required, es[..i]), Run(required, es[..j]);
      b.date == a.date && b.dayMin.Some? && b.dayMin.value <= a.dayMin.value
    decreases j
  {
    if i < j {
      DayMinFalls(required, es, i, j - 1);
      assert es[..j][..j - 1] == es[..j - 1];
      StepKeepsDayMin(required, Run(required, es[..j - 1]), es[j - 1]);
    }
  }

  /** Within a local day, once an observation exists, the verdict of a two-degree window only moves from never reached
      to allowed to below range. */
  lemma WindowVerdictMovesForward(required: real, es: seq<Event>, i: nat, j: nat, b: Bracket, lines: seq<real>)
    requires b.kind.B? && i <= j <= |es| && Run(required, es[..i]).dayMin.Some?
    requires forall k :: i <= k < j ==> Some(EventDate(es[k])) == Run(required, es[..i]).date
    ensures Run(required, es[..j]).dayMin.Some?
    ensures var r := ReachabilityRange(b, lines);
      Rank(VerdictOf(r, Run(required, es[..i]).dayMin.value)) <= Rank(VerdictOf(r, Run(required, es[..j]).dayMin.value))
  {
    DayMinFalls(required, es, i, j);
    VerdictOnlyMovesForward(ReachabilityRange(b, lines), Run(required, es[..i]).dayMin.value,
                            Run(required, es[..j]).dayMin.value);
  }

  // ------------------------------------------------------------------
  // The gate object
  // ------------------------------------------------------------------

  class SunriseEntryGate {
    const riseRequired: real
    var riseState: map<Series, RiseState>

    constructor (riseRequired: real)
      ensures this.riseRequired == riseRequired && riseState == map[]
    {
      this.riseRequired, riseState := riseRequired, map[];
    }

    function StateOf(s: Series): RiseState
      reads this
    {
      if s in riseState then riseState[s] else BLANK
    }

    method ParseObservations(i: LatchInput) returns (rs: seq<Reading>)
      requires i.fetch.Batch?
      ensures rs == Parsed(i)
    {
      rs := [];
      var obs := i.fetch.obs;
      for k := 0 to |obs|
        invariant rs == Kept(obs[..k], i.baselineStart)
      {
        assert obs[..k + 1][..k] == obs[..k];
        if obs[k].ts >= i.baselineStart {
          rs := rs + [Reading(obs[k].ts, WholeF(obs[k]))];
        }
      }
      assert obs[..|obs|] == obs;
      rs := StableSort(rs, TsOf);
    }

    method UpdateRunningMin(st: RiseState, rs: seq<Reading>) returns (s: RiseState)
      ensures s == TakeAll(st, rs)
    {
      s := st;
      for k := 0 to |rs|
        invariant s == TakeAll(st, rs[..k])
      {
        assert rs[..k + 1][..k] == rs[..k];
        var f := rs[k].f;
        if s.runningMin.None? || f < s.runningMin.value {
          if s.latched && !s.latchedForDay && (s.baseline.None? || s.baseline.value == 0 || f < s.baseline.value) {
            s := s.(latched := false, baseline := None);
          }
          s := s.(runningMin := Some(f));
        }
      }
      assert rs[..|rs|] == rs;
    }

    /** Counts back from the newest reading. */
    method CountSustained(rs: seq<Reading>, min: int) returns (n: nat)
      ensures n == Sustained(rs, min, riseRequired)
    {
      n := 0;
      assert rs[..|rs| - n] == rs;
      while n < |rs| && Risen(rs[|rs| - 1 - n].f, min, riseRequired)
        invariant 0 <= n <= |rs|
        invariant Sustained(rs, min, riseRequired) == n + Sustained(rs[..|rs| - n], min, riseRequired)
      {
        assert rs[..|rs| - n][..|rs| - n - 1] == rs[..|rs| - n - 1];
        n := n + 1;
      }
    }

    method CheckTempRiseLatch(series: Series, i: LatchInput) returns (open: bool)
      modifies this
      ensures riseState == old(riseState)[series := LatchStep(riseRequired, old(StateOf(series)), i).0]
      ensures open == LatchStep(riseRequired, old(StateOf(series)), i).1
    {
      var state := if series in riseState then riseState[series] else BLANK;
      if state.date != Some(i.date) {
        state := BLANK.(date := Some(i.date));
      }
      riseState := riseState[series := state];
      if state.latchedForDay {
        return true;
      }
      if i.fetch.Failed? {
        return false;
      }
      var rs := ParseObservations(i);
      if rs == [] || Stale(i, rs) {
        if state.latched {
          riseState := riseState[series := state.(latchedForDay := true)];
          return true;
        }
        return false;
      }
      state := UpdateRunningMin(state, rs);
      if state.runningMin.Some? {
        var min := state.runningMin.value;
        var consecutive := CountSustained(rs, min);
        if !state.latched {
          if Risen(rs[|rs| - 1].f, min, riseRequired) && consecutive >= RISE_CONFIRM_OBS {
            state := state.(latched := true, latchedForDay := true, baseline := state.runningMin);
          }
        }
      }
      riseState := riseState[series := state];
      open := state.latched;
    }

    /** Refreshes the day minimum at most once a minute and answers whether it has dipped under the bracket. */
    method DayHasDippedBelow(series: Series, b: Bracket, i: DayMinInput) returns (blocked: bool, dayMin: Option<int>)
      modifies this
      ensures riseState == old(riseState)[series := DayMinStep(old(StateOf(series)), i)]
      ensures dayMin == DayMinStep(old(StateOf(series)), i).dayMin
      ensures blocked <==> dayMin.Some? && Dipped(b, dayMin.value)
    {
      var state := if series in riseState then riseState[series] else BLANK;
      if state.date != Some(i.date) {
        state := BLANK.(date := Some(i.date));
      }
      if (state.dayMin.None? || i.mono - state.refreshedAt >= DAY_MIN_REFRESH_SECONDS) && i.fetch.Batch? {
        var obs := i.fetch.obs;
        var low := state.dayMin;
        for k := 0 to |obs|
          invariant low == MinOver(state.dayMin, OnDate(obs[..k], i.date))
        {
          assert obs[..k + 1][..k] == obs[..k];
          if obs[k].date == i.date {
            ghost var seen := OnDate(obs[..k], i.date);
            var f := WholeF(obs[k]);
            assert (seen + [f])[..|seen|] == seen;
            assert OnDate(obs[..k + 1], i.date) == seen + [f];
            assert MinOver(state.dayMin, seen + [f]) == MinWith(low, f);
            if low.None? || f < low.value {
              low := Some(f);
            }
          } else {
            assert OnDate(obs[..k + 1], i.date) == OnDate(obs[..k], i.date);
          }
        }
        assert obs[..|obs|] == obs;
        state := state.(dayMin := low, refreshedAt := i.mono);
      }
      riseState := riseState[series := state];
      dayMin := state.dayMin;
      blocked := dayMin.Some? && Dipped(b, dayMin.value);
    }

    /** Whether the day's minimum keeps the bracket from being traded; nothing observed blocks nothing. */
    method DayReachedBracket(series: Series, b: Bracket, lines: seq<real>, i: DayMinInput)
      returns (blocked: bool, verdict: Option<Verdict>)
      modifies this
      ensures riseState == old(riseState)[series := DayMinStep(old(StateOf(series)), i)]
      ensures var min := DayMinStep(old(StateOf(series)), i).dayMin;
        verdict == if min.None? then None else Some(VerdictOf(ReachabilityRange(b, lines), min.value))
      ensures blocked <==> verdict.Some? && !verdict.value.Allowed?
    {
      var _, dayMin := DayHasDippedBelow(series, b, i);
      if dayMin.None? {
        return false, None;
      }
      var range := ReachabilityRange(b, lines);
      if range.AtLeast? {
        return false, Some(Allowed);
      }
      if range.Window? && dayMin.value < range.lo {
        return true, Some(BelowRange);
      }
      if dayMin.value > range.hi {
        return true, Some(NeverReached);
      }
      return false, Some(Allowed);
    }
  }
}
