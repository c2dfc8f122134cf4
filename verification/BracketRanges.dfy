/** Which whole degrees each bracket of a temperature event can win. */
module BracketRanges {

  /** `T` lines are the open ends of an event, `B` lines its two-degree windows. */
  datatype Kind = T | B

  datatype Bracket = Bracket(kind: Kind, line: real)

  datatype Range = AtMost(hi: int) | Window(lo: int, hi: int) | AtLeast(lo: int)

  predicate AtOrUnderAll(line: real, lines: seq<real>) { forall i :: 0 <= i < |lines| ==> line <= lines[i] }

  /** The range a bracket can win, given the lines of the event's `T` brackets.  A `T` is the bottom only when at least
      two lines are known and none is smaller. */
  function ReachabilityRange(b: Bracket, siblings: seq<real>): Range {
    if b.kind.B? then Window(b.line.Floor, b.line.Floor + 1)
    else if |siblings| >= 2 && AtOrUnderAll(b.line, siblings) then AtMost(b.line.Floor - 1)
    else AtLeast(b.line.Floor + 1)
  }

  predicate Covers(r: Range, degree: int) {
    match r
    case AtMost(hi) => degree <= hi
    case Window(lo, hi) => lo <= degree <= hi
    case AtLeast(lo) => lo <= degree
  }

  /** A well-formed event: bottom `T` at n, `B` windows at n+0.5, n+2.5, ..., top `T` at n+2k-1. */
  function Ladder(n: int, k: nat): seq<Bracket>
    requires k >= 1
  {
    [Bracket(T, n as real)] + seq(k, i => Bracket(B, (n + 2 * i) as real + 0.5)) + [Bracket(T, (n + 2 * k - 1) as real)]
  }

  /** The lines of the event's `T` brackets, in any order and possibly repeated. */
  ghost predicate LadderLines(n: int, k: nat, lines: seq<real>) {
    && |lines| >= 2
    && (n as real) in lines
    && forall i :: 0 <= i < |lines| ==> lines[i] == n as real || lines[i] == (n + 2 * k - 1) as real
  }

  /** The bracket that wins on a degree. */
  function Winner(n: int, k: nat, degree: int): (r: nat)
    ensures k >= 1 ==> r < k + 2
  {
    if degree < n then 0 else if degree > n + 2 * k - 1 then k + 1 else 1 + (degree - n) / 2
  }

  lemma FloorOfHalf(m: int)
    ensures (m as real + 0.5).Floor == m
  {}

  /** The ranges of a well-formed event partition the whole degrees: every degree is covered by exactly one bracket. */
  lemma LadderPartitions(n: int, k: nat, lines: seq<real>, degree: int, i: nat)
    requires k >= 1 && LadderLines(n, k, lines) && i < k + 2
    ensures Covers(ReachabilityRange(Ladder(n, k)[i], lines), degree) <==> i == Winner(n, k, degree)
  {
    var b := Ladder(n, k)[i];
    if i == 0 {
      assert AtOrUnderAll(b.line, lines);
    } else if i == k + 1 {
      assert !AtOrUnderAll(b.line, lines);
    } else {
      FloorOfHalf(n + 2 * (i - 1));
      assert b == Bracket(B, (n + 2 * (i - 1)) as real + 0.5);
    }
  }

  /** With fewer than two lines the bottom bracket is read as a top one, and the degrees it wins are left uncovered by
      it. */
  lemma LoneLineMisreadsBottom(n: int, k: nat, lines: seq<real>, degree: int)
    requires k >= 1 && |lines| < 2 && degree < n
    ensures !Covers(ReachabilityRange(Ladder(n, k)[0], lines), degree)
  {}

  // ------------------------------------------------------------------
  // The two gates on the observed minimum
  // ------------------------------------------------------------------

  datatype Verdict = NeverReached | Allowed | BelowRange

  function Rank(v: Verdict): int { match v case NeverReached => 0 case Allowed => 1 case BelowRange => 2 }

  /** The reachability verdict; the open top is exempt. */
  function VerdictOf(r: Range, dayMin: int): Verdict {
    match r
    case AtLeast(_) => Allowed
    case AtMost(hi) => if dayMin > hi then NeverReached else Allowed
    case Window(lo, hi) => if dayMin < lo then BelowRange else if dayMin > hi then NeverReached else Allowed
  }

  /** The dip guard: `B` lines tolerate equality with the whole-degree line, `T` lines do not. */
  predicate Dipped(b: Bracket, dayMin: int) {
    if b.kind.B? then dayMin < b.line.Floor else dayMin <= b.line.Floor
  }

  /** For a window the two gates together let exactly its own degrees through, and the dip guard says by itself when
      the minimum is below them. */
  lemma WindowGates(b: Bracket, lines: seq<real>, dayMin: int)
    requires b.kind.B?
    ensures var r := ReachabilityRange(b, lines);
      && (Dipped(b, dayMin) <==> VerdictOf(r, dayMin).BelowRange?)
      && (!Dipped(b, dayMin) && VerdictOf(r, dayMin).Allowed? <==> Covers(r, dayMin))
  {}

  /** For the top bracket the dip guard blocks exactly the degrees the bracket cannot win; for the bottom bracket it
      blocks every degree the bracket wins. */
  lemma OpenEndGates(n: int, k: nat, lines: seq<real>, dayMin: int)
    requires k >= 1 && LadderLines(n, k, lines)
    ensures var top, bottom := Ladder(n, k)[k + 1], Ladder(n, k)[0];
      && (Dipped(top, dayMin) <==> !Covers(ReachabilityRange(top, lines), dayMin))
      && (Covers(ReachabilityRange(bottom, lines), dayMin) ==> Dipped(bottom, dayMin))
  {
    LadderPartitions(n, k, lines, dayMin, k + 1);
    LadderPartitions(n, k, lines, dayMin, 0);
  }

  /** A falling minimum only moves a verdict forward. */
  lemma VerdictOnlyMovesForward(r: Range, before: int, after: int)
    requires after <= before && r.Window?
    ensures Rank(VerdictOf(r, before)) <= Rank(VerdictOf(r, after))
  {}

  /** Which minima a verdict refuses: those over the range, when it is not the open top, and those under a window. */
  lemma VerdictIff(r: Range, dayMin: int)
    ensures VerdictOf(r, dayMin).NeverReached? <==>
      (r.AtMost? && r.hi < dayMin) || (r.Window? && r.lo <= dayMin && r.hi < dayMin)
    ensures VerdictOf(r, dayMin).BelowRange? <==> r.Window? && dayMin < r.lo
  {}
}
