/** The log suppressor: repeated identical entries of one scope are held back and reported later as a count. */
module LogDedupe {
  import opened Common

  /** A structured log value. */
  datatype Value =
    | Text(text: string) | Number(number: int) | DateTime(iso: string) | List(items: seq<Value>)
    | Tuple(elements: seq<Value>)

  type Fields = map<string, Value>

  /** Event, key and day of a log call. */
  datatype Scope = Scope(event: string, key: string, day: string)

  // ------------------------------------------------------------------
  // Fingerprints
  // ------------------------------------------------------------------

  /** Dates become their ISO text and lists become tuples; the rest is kept. */
  function Normalize(v: Value): Value {
    match v
    case DateTime(iso) => Text(iso)
    case List(items) => Tuple(NormalizeAll(items))
    case Tuple(items) => Tuple(NormalizeAll(items))
    case _ => v
  }

  function NormalizeAll(vs: seq<Value>): seq<Value> {
    if vs == [] then [] else [Normalize(vs[0])] + NormalizeAll(vs[1..])
  }

  /** The sorted tuple of normalised items, which two field sets share exactly when these maps are equal. */
  function Fingerprint(f: Fields): Fields { map k | k in f :: Normalize(f[k]) }

  /** Normalising is idempotent, so a fingerprint stands for itself. */
  lemma {:induction false} NormalizeTwice(v: Value)
    ensures Normalize(Normalize(v)) == Normalize(v)
  {
    match v
    case List(items) => NormalizeAllTwice(items);
    case Tuple(items) => NormalizeAllTwice(items);
    case _ =>
  }

  lemma {:induction false} NormalizeAllTwice(vs: seq<Value>)
    ensures NormalizeAll(NormalizeAll(vs)) == NormalizeAll(vs)
  {
    if vs != [] {
      NormalizeTwice(vs[0]);
      NormalizeAllTwice(vs[1..]);
      assert NormalizeAll(vs)[1..] == NormalizeAll(vs[1..]);
    }
  }

  // ------------------------------------------------------------------
  // Which entries repeat one another
  // ------------------------------------------------------------------

  /** Two values that log alike: a date is its ISO text, and lists and tuples compare item by item. */
  predicate Alike(v: Value, w: Value) {
    match v
    case Number(n) => w == Number(n)
    case Text(a) => (w.Text? && w.text == a) || (w.DateTime? && w.iso == a)
    case DateTime(a) => (w.Text? && w.text == a) || (w.DateTime? && w.iso == a)
    case List(a) => (w.List? && AllAlike(a, w.items)) || (w.Tuple? && AllAlike(a, w.elements))
    case Tuple(a) => (w.List? && AllAlike(a, w.items)) || (w.Tuple? && AllAlike(a, w.elements))
  }

  predicate AllAlike(a: seq<Value>, b: seq<Value>) {
    |a| == |b| && forall i :: 0 <= i < |a| ==> Alike(a[i], b[i])
  }

  lemma {:induction false} NormalizeIff(v: Value, w: Value)
    ensures Normalize(v) == Normalize(w) <==> Alike(v, w)
    decreases v
  {
    if v.List? || v.Tuple? {
      var a := if v.List? then v.items else v.elements;
      if w.List? || w.Tuple? {
        var b := if w.List? then w.items else w.elements;
        forall i | 0 <= i < |a| && i < |b| ensures Normalize(a[i]) == Normalize(b[i]) <==> Alike(a[i], b[i]) {
          NormalizeIff(a[i], b[i]);
        }
        NormalizedItems(a);
        NormalizedItems(b);
      }
    }
  }

  lemma {:induction false} NormalizedItems(vs: seq<Value>)
    ensures |NormalizeAll(vs)| == |vs| && forall i :: 0 <= i < |vs| ==> NormalizeAll(vs)[i] == Normalize(vs[i])
  {
    if vs != [] { NormalizedItems(vs[1..]); }
  }

  /** The same field names, with values that log alike. */
  ghost predicate SameEntry(f: Fields, g: Fields) { f.Keys == g.Keys && forall k :: k in f ==> Alike(f[k], g[k]) }

  /** Two entries share a fingerprint if and only if they repeat one another. */
  lemma FingerprintIff(f: Fields, g: Fields)
    ensures Fingerprint(f) == Fingerprint(g) <==> SameEntry(f, g)
  {
    forall k | k in f && k in g ensures Normalize(f[k]) == Normalize(g[k]) <==> Alike(f[k], g[k]) {
      NormalizeIff(f[k], g[k]);
    }
    hide Normalize, Alike;
    if Fingerprint(f) == Fingerprint(g) {
      assert Fingerprint(f).Keys == f.Keys && Fingerprint(g).Keys == g.Keys;
      forall k | k in f ensures Normalize(f[k]) == Normalize(g[k]) { assert Fingerprint(f)[k] == Fingerprint(g)[k]; }
    }
  }

  // ------------------------------------------------------------------
  // State and output
  // ------------------------------------------------------------------

  datatype ScopeState = ScopeState(fingerprint: Fields, lastFields: Fields, suppressed: nat, lastSummary: int)

  /** An emitted line: the entry itself, or a `.repeated` summary whose fields carry the count.  `byInterval` marks a
      summary written because the interval had passed. */
  datatype Line =
    | Entry(scope: Scope, fields: Fields, at: int)
    | Repeated(scope: Scope, fields: Fields, at: int, byInterval: bool)

  datatype Call = Call(scope: Scope, fields: Fields, now: int)

  datatype State = State(scopes: map<Scope, ScopeState>, lines: seq<Line>)

  /** `{"count": n, **fields}`: a field of the same name replaces the count. */
  function SummaryFields(n: nat, fields: Fields): Fields { map["count" := Number(n)] + fields }

  function Summary(scope: Scope, st: ScopeState, now: int, byInterval: bool): Line {
    Repeated(scope, SummaryFields(st.suppressed, st.lastFields), now, byInterval)
  }

  function Step(interval: int, s: State, c: Call): State {
    var fp := Fingerprint(c.fields);
    var entry := Entry(c.scope, c.fields, c.now);
    if c.scope !in s.scopes then
      State(s.scopes[c.scope := ScopeState(fp, c.fields, 0, c.now)], s.lines + [entry])
    else
      var st := s.scopes[c.scope];
      if st.fingerprint != fp then
        State(s.scopes[c.scope := ScopeState(fp, c.fields, 0, c.now)],
              s.lines + (if st.suppressed > 0 then [Summary(c.scope, st, c.now, false)] else []) + [entry])
      else
        var more := st.(suppressed := st.suppressed + 1);
        if c.now - st.lastSummary < interval then State(s.scopes[c.scope := more], s.lines)
        else State(s.scopes[c.scope := more.(suppressed := 0, lastSummary := c.now)],
                   s.lines + [Summary(c.scope, more, c.now, true)])
  }

  function Run(interval: int, calls: seq<Call>): State {
    if calls == [] then State(map[], [])
    else Step(interval, Run(interval, calls[..|calls| - 1]), calls[|calls| - 1])
  }

  // ------------------------------------------------------------------
  // Reading the output back
  // ------------------------------------------------------------------

  function Copies<T>(n: nat, x: T): seq<T> { seq(n, _ => x) }

  /** What one line says was logged: itself, or as many copies as its count of the remaining fields. */
  function Expand(l: Line): seq<Fields> {
    match l
    case Entry(_, fields, _) => [Fingerprint(fields)]
    case Repeated(_, fields, _, _) =>
      if "count" in fields && fields["count"].Number? && fields["count"].number >= 0
      then Copies(fields["count"].number, Fingerprint(fields - {"count"})) else []
  }

  function Decode(lines: seq<Line>, sc: Scope): seq<Fields> {
    if lines == [] then []
    else
      var l := lines[|lines| - 1];
      Decode(lines[..|lines| - 1], sc) + (if l.scope == sc then Expand(l) else [])
  }

  function Logged(calls: seq<Call>, sc: Scope): seq<Fields> {
    if calls == [] then []
    else
      var c := calls[|calls| - 1];
      Logged(calls[..|calls| - 1], sc) + (if c.scope == sc then [Fingerprint(c.fields)] else [])
  }

  /** Copies held back and not yet reported. */
  function Pending(s: State, sc: Scope): seq<Fields> {
    if sc in s.scopes then Copies(s.scopes[sc].suppressed, s.scopes[sc].fingerprint) else []
  }

  lemma DecodeAppend(lines: seq<Line>, l: Line, sc: Scope)
    ensures Decode(lines + [l], sc) == Decode(lines, sc) + (if l.scope == sc then Expand(l) else [])
  {
    assert (lines + [l])[..|lines|] == lines;
  }

  /** A summary reads back as the copies it stands for, if and only if no logged field is itself called `count`. */
  lemma SummaryReadsBack(scope: Scope, st: ScopeState, now: int, byInterval: bool)
    requires st.suppressed > 0 && st.fingerprint == Fingerprint(st.lastFields)
    ensures Expand(Summary(scope, st, now, byInterval)) == Copies(st.suppressed, st.fingerprint)
            <==> "count" !in st.lastFields
  {
    var fields := SummaryFields(st.suppressed, st.lastFields);
    if "count" !in st.lastFields {
      assert fields - {"count"} == st.lastFields;
    } else {
      assert Copies(st.suppressed, st.fingerprint)[0] == st.fingerprint && "count" in st.fingerprint;
      assert forall x :: x in Expand(Summary(scope, st, now, byInterval)) ==> "count" !in x;
    }
  }

  // ------------------------------------------------------------------
  // Nothing is lost
  // ------------------------------------------------------------------

  ghost predicate StatesMatch(s: State) {
    forall sc :: sc in s.scopes ==> s.scopes[sc].fingerprint == Fingerprint(s.scopes[sc].lastFields)
  }

  /** What has been written plus what is pending is exactly what was logged. */
  ghost predicate Faithful(s: State, calls: seq<Call>, sc: Scope) {
    Decode(s.lines, sc) + Pending(s, sc) == Logged(calls, sc)
  }

  /** The call writes a summary of fields that contain one called `count`. */
  predicate WritesBadSummary(interval: int, s: State, c: Call) {
    && c.scope in s.scopes && "count" in s.scopes[c.scope].lastFields
    && if s.scopes[c.scope].fingerprint != Fingerprint(c.fields) then s.scopes[c.scope].suppressed > 0
       else c.now - s.scopes[c.scope].lastSummary >= interval
  }

  lemma CopiesSplit<T>(a: nat, b: nat, x: T)
    ensures Copies(a, x) + Copies(b, x) == Copies(a + b, x)
  {}

  /** Lines of other scopes do not show in a scope's reading. */
  lemma {:induction false} OtherLines(lines: seq<Line>, added: seq<Line>, sc: Scope)
    requires forall i :: 0 <= i < |added| ==> added[i].scope != sc
    ensures Decode(lines + added, sc) == Decode(lines, sc)
    decreases |added|
  {
    if added == [] {
      assert lines + added == lines;
    } else {
      var n := |added| - 1;
      OtherLines(lines, added[..n], sc);
      assert lines + added == lines + added[..n] + [added[n]];
      DecodeAppend(lines + added[..n], added[n], sc);
    }
  }

  /** What a call adds to the lines belongs to its scope. */
  lemma AddedLines(interval: int, s: State, c: Call) returns (added: seq<Line>)
    ensures Step(interval, s, c).lines == s.lines + added
    ensures forall i :: 0 <= i < |added| ==> added[i].scope == c.scope
  {
    var s' := Step(interval, s, c);
    hide Fingerprint, SummaryFields;
    added := s'.lines[|s.lines|..];
  }

  lemma OtherScope(interval: int, s: State, calls: seq<Call>, c: Call, sc: Scope)
    requires Faithful(s, calls, sc) && c.scope != sc
    ensures Faithful(Step(interval, s, c), calls + [c], sc)
  {
    assert Logged(calls + [c], sc) == Logged(calls, sc) by { assert (calls + [c])[..|calls|] == calls; }
    OtherPending(interval, s, c, sc);
    hide Step, Pending, Decode, Logged;
    var added := AddedLines(interval, s, c);
    OtherLines(s.lines, added, sc);
  }

  lemma OtherPending(interval: int, s: State, c: Call, sc: Scope)
    requires c.scope != sc
    ensures Pending(Step(interval, s, c), sc) == Pending(s, sc)
  {
    hide Fingerprint, Summary, Copies;
  }

  /** One call keeps its scope faithful if and only if it does not write a summary of fields with a `count` of their
      own. */
  lemma StepFaithful(interval: int, s: State, calls: seq<Call>, c: Call)
    requires StatesMatch(s) && Faithful(s, calls, c.scope)
    ensures Faithful(Step(interval, s, c), calls + [c], c.scope) <==> !WritesBadSummary(interval, s, c)
  {
    assert (calls + [c])[..|calls|] == calls;
    var sc, fp, entry := c.scope, Fingerprint(c.fields), Entry(c.scope, c.fields, c.now);
    DecodeAppend(s.lines, entry, sc);
    if sc in s.scopes {
      var st := s.scopes[sc];
      if st.fingerprint != fp {
        if st.suppressed > 0 {
          ChangeAfterRepeats(s, calls, c);
        } else {
          assert s.lines + [] + [entry] == s.lines + [entry];
        }
      } else {
        CopiesSplit(st.suppressed, 1, fp);
        assert Decode(s.lines, sc) + Pending(s, sc) + [fp] == Decode(s.lines, sc) + (Pending(s, sc) + [fp]);
        if c.now - st.lastSummary >= interval {
          IntervalSummary(interval, s, calls, c);
        }
      }
    }
  }

  lemma ChangeAfterRepeats(s: State, calls: seq<Call>, c: Call)
    requires StatesMatch(s) && Faithful(s, calls, c.scope) && c.scope in s.scopes
    requires s.scopes[c.scope].suppressed > 0
    ensures var st := s.scopes[c.scope]; var entry := Entry(c.scope, c.fields, c.now);
      (Decode(s.lines + [Summary(c.scope, st, c.now, false)] + [entry], c.scope)
        == Logged(calls, c.scope) + [Fingerprint(c.fields)])
      <==> "count" !in st.lastFields
  {
    var st, sc := s.scopes[c.scope], c.scope;
    var summary := Summary(sc, st, c.now, false);
    SummaryReadsBack(sc, st, c.now, false);
    DecodeAppend(s.lines, summary, sc);
    DecodeAppend(s.lines + [summary], Entry(sc, c.fields, c.now), sc);
    CancelLeft(Decode(s.lines, sc), Expand(summary), Pending(s, sc), [Fingerprint(c.fields)]);
  }

  lemma IntervalSummary(interval: int, s: State, calls: seq<Call>, c: Call)
    requires StatesMatch(s) && Faithful(s, calls, c.scope) && c.scope in s.scopes
    requires s.scopes[c.scope].fingerprint == Fingerprint(c.fields)
    ensures var st := s.scopes[c.scope]; var more := st.(suppressed := st.suppressed + 1);
      (Decode(s.lines + [Summary(c.scope, more, c.now, true)], c.scope)
        == Logged(calls, c.scope) + [Fingerprint(c.fields)])
      <==> "count" !in st.lastFields
  {
    var st, sc := s.scopes[c.scope], c.scope;
    var more := st.(suppressed := st.suppressed + 1);
    var summary := Summary(sc, more, c.now, true);
    SummaryReadsBack(sc, more, c.now, true);
    DecodeAppend(s.lines, summary, sc);
    CopiesSplit(st.suppressed, 1, st.fingerprint);
    assert Pending(s, sc) + [st.fingerprint] == Copies(more.suppressed, st.fingerprint);
    CancelLeft(Decode(s.lines, sc), Expand(summary), Pending(s, sc) + [st.fingerprint], []);
    assert Decode(s.lines, sc) + Pending(s, sc) + [st.fingerprint] == Decode(s.lines, sc)
        + (Pending(s, sc) + [st.fingerprint]);
  }

  lemma CancelLeft<T>(a: seq<T>, b: seq<T>, c: seq<T>, d: seq<T>)
    ensures a + b + d == a + c + d <==> b == c
  {
    if a + b + d == a + c + d {
      assert |b| == |c|;
      forall i | 0 <= i < |b| ensures b[i] == c[i] {
        assert (a + b + d)[|a| + i] == b[i] && (a + c + d)[|a| + i] == c[i];
      }
    }
  }

  ghost predicate NoCountField(calls: seq<Call>) { forall i :: 0 <= i < |calls| ==> "count" !in calls[i].fields }

  lemma {:induction false} RunStates(interval: int, calls: seq<Call>)
    ensures StatesMatch(Run(interval, calls))
    ensures NoCountField(calls) ==>
      forall sc :: sc in Run(interval, calls).scopes ==> "count" !in Run(interval, calls).scopes[sc].lastFields
  {
    if calls != [] {
      RunStates(interval, calls[..|calls| - 1]);
      StepStates(interval, Run(interval, calls[..|calls| - 1]), calls[|calls| - 1]);
      hide Step, StatesMatch;
    }
  }

  /** A call touches its own scope only, which then holds its fields or, when they repeat, what it held. */
  lemma StepStates(interval: int, s: State, c: Call)
    requires StatesMatch(s)
    ensures var s' := Step(interval, s, c);
      && StatesMatch(s')
      && forall sc :: sc in s'.scopes ==>
           (sc in s.scopes && s'.scopes[sc].lastFields == s.scopes[sc].lastFields)
               || s'.scopes[sc].lastFields == c.fields
  {
    hide Fingerprint, Summary;
  }

  // ------------------------------------------------------------------
  // What one call writes
  // ------------------------------------------------------------------

  /** A call writes its entry unless it repeats the last one of its scope.  Repeats are counted, and the count is
      written when an entry that does not repeat follows, or when the interval has passed since the scope last wrote. */
  lemma CallWrites(interval: int, s: State, c: Call)
    requires StatesMatch(s)
    ensures var s' := Step(interval, s, c); var known := c.scope in s.scopes;
      var repeats := known && SameEntry(s.scopes[c.scope].lastFields, c.fields);
      var due := known && s.scopes[c.scope].lastSummary + interval <= c.now;
      var held := if known then s.scopes[c.scope].suppressed else 0;
      && s'.scopes.Keys == s.scopes.Keys + {c.scope}
      && (forall sc :: sc in s.scopes && sc != c.scope ==> s'.scopes[sc] == s.scopes[sc])
      && var after := s'.scopes[c.scope];
         && after.lastFields == (if repeats then s.scopes[c.scope].lastFields else c.fields)
         && after.suppressed == (if repeats && !due then held + 1 else 0)
         && after.lastSummary == (if repeats && !due then s.scopes[c.scope].lastSummary else c.now)
         && s'.lines == s.lines +
            (if repeats && !due then []
             else if repeats then [Repeated(c.scope, map["count" := Number(held + 1)] + after.lastFields, c.now, true)]
             else if held == 0 then [Entry(c.scope, c.fields, c.now)]
             else [Repeated(c.scope, map["count" := Number(held)] + s.scopes[c.scope].lastFields, c.now, false),
                   Entry(c.scope, c.fields, c.now)])
  {
    if c.scope in s.scopes { FingerprintIff(s.scopes[c.scope].lastFields, c.fields); }
    hide Fingerprint, SameEntry;
  }

  /** For every interleaving of scopes: expanding each line of a scope and appending the held-back copies gives exactly
      the sequence of entries logged for it, provided no entry carries a field called `count`. */
  lemma {:induction false} NothingIsLost(interval: int, calls: seq<Call>, sc: Scope)
    requires NoCountField(calls)
    ensures Faithful(Run(interval, calls), calls, sc)
  {
    if calls != [] {
      var before, c := calls[..|calls| - 1], calls[|calls| - 1];
      NothingIsLost(interval, before, sc);
      RunStates(interval, before);
      assert before + [c] == calls;
      if c.scope == sc {
        StepFaithful(interval, Run(interval, before), before, c);
      } else {
        OtherScope(interval, Run(interval, before), before, c, sc);
      }
    }
  }

  /** With a `count` field, two equal entries an interval apart already read back wrong. */
  lemma CountFieldMisreads(interval: int, sc: Scope, f: Fields)
    requires "count" in f
    ensures var calls := [Call(sc, f, 0), Call(sc, f, Max(interval, 0))];
      !Faithful(Run(interval, calls), calls, sc)
  {
    var first, second := Call(sc, f, 0), Call(sc, f, Max(interval, 0));
    FirstCall(interval, first);
    StepFaithful(interval, Run(interval, [first]), [first], second);
    assert [first, second][..1] == [first] && [first] + [second] == [first, second];
  }

  lemma FirstCall(interval: int, c: Call)
    ensures var s := Run(interval, [c]);
      && s.scopes == map[c.scope := ScopeState(Fingerprint(c.fields), c.fields, 0, c.now)]
      && Faithful(s, [c], c.scope)
  {
    assert [c][..0] == [];
    var entry := Entry(c.scope, c.fields, c.now);
    assert Run(interval, [c]) == Step(interval, State(map[], []), c);
    assert [] + [entry] == [entry] && [entry][..0] == [];
    hide Normalize, Fingerprint;
    assert Decode([entry], c.scope) == [Fingerprint(c.fields)];
    assert Logged([c], c.scope) == [Fingerprint(c.fields)];
  }

  // ------------------------------------------------------------------
  // How often
  // ------------------------------------------------------------------

  ghost predicate Monotone(calls: seq<Call>) {
    forall i, j :: 0 <= i < j < |calls| ==> calls[i].now <= calls[j].now
  }

  /** Every line of a scope was written no later than the scope's summary clock says. */
  ghost predicate ClockCovers(s: State) {
    forall p :: 0 <= p < |s.lines| ==>
      s.lines[p].scope in s.scopes && s.lines[p].at <= s.scopes[s.lines[p].scope].lastSummary
  }

  predicate SameScopeSummary(lines: seq<Line>, p: int, q: int)
    requires 0 <= p < |lines| && 0 <= q < |lines|
  {
    lines[p].scope == lines[q].scope && lines[q].Repeated? && lines[q].byInterval
  }

  /** An interval-driven summary comes at least the interval after every earlier line of its scope. */
  ghost predicate Spaced(interval: int, lines: seq<Line>) {
    forall p, q :: 0 <= p < q < |lines| && SameScopeSummary(lines, p, q) ==> lines[q].at - lines[p].at >= interval
  }

  ghost predicate ClockBehind(s: State, now: int) { forall sc :: sc in s.scopes ==> s.scopes[sc].lastSummary <= now }

  lemma StepSpaced(interval: int, s: State, c: Call)
    requires ClockCovers(s) && Spaced(interval, s.lines) && ClockBehind(s, c.now)
    ensures var s' := Step(interval, s, c); ClockCovers(s') && Spaced(interval, s'.lines) && ClockBehind(s', c.now)
  {}

  /** With a clock that never runs backwards, interval-driven summaries are at least the interval apart from each other
      and from everything else their scope has written. */
  lemma {:induction false} SummariesAreSpaced(interval: int, calls: seq<Call>)
    requires Monotone(calls)
    ensures ClockCovers(Run(interval, calls)) && Spaced(interval, Run(interval, calls).lines)
    ensures calls != [] ==> ClockBehind(Run(interval, calls), calls[|calls| - 1].now)
  {
    if calls != [] {
      SummariesAreSpaced(interval, calls[..|calls| - 1]);
      StepSpaced(interval, Run(interval, calls[..|calls| - 1]), calls[|calls| - 1]);
    }
  }

  // ------------------------------------------------------------------
  // The logger object
  // ------------------------------------------------------------------

  class DedupeLogger {
    const interval: int
    var states: map<Scope, ScopeState>
    var emitted: seq<Line>

    constructor (interval: int)
      ensures this.interval == interval && states == map[] && emitted == []
    {
      this.interval, states, emitted := interval, map[], [];
    }

    method Emit(l: Line)
      modifies this`emitted
      ensures emitted == old(emitted) + [l]
    {
      emitted := emitted + [l];
    }

    method Log(scope: Scope, fields: Fields, now: int)
      modifies this
      ensures State(states, emitted) == Step(interval, old(State(states, emitted)), Call(scope, fields, now))
    {
      var fingerprint := Fingerprint(fields);
      if scope !in states {
        Emit(Entry(scope, fields, now));
        states := states[scope := ScopeState(fingerprint, fields, 0, now)];
        return;
      }
      var state := states[scope];
      if state.fingerprint != fingerprint {
        if state.suppressed > 0 {
          Emit(Repeated(scope, map["count" := Number(state.suppressed)] + state.lastFields, now, false));
          state := state.(suppressed := 0);
        } else {
          assert emitted + [] == emitted;
        }
        Emit(Entry(scope, fields, now));
        state := state.(fingerprint := fingerprint, lastFields := fields, lastSummary := now);
        states := states[scope := state];
        return;
      }
      state := state.(suppressed := state.suppressed + 1);
      states := states[scope := state];
      if now - state.lastSummary < interval {
        return;
      }
      Emit(Repeated(scope, map["count" := Number(state.suppressed)] + state.lastFields, now, true));
      state := state.(suppressed := 0, lastSummary := now);
      states := states[scope := state];
    }
  }
}
