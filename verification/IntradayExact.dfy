/** Exactly which views make a scheduled exit, said without the automata: from dates, minutes, quotes and clocks
    alone. */
module IntradayExact {
  import opened Common
  import opened IntradayExits

  // ------------------------------------------------------------------
  // The confirmation clock
  // ------------------------------------------------------------------

  /** What a reading does to the clock: nothing; it starts one unless one runs; or it clears it. */
  datatype Mark = Nothing | Starts | Clears

  /** The reading whose clock runs after these. */
  function Running(marks: seq<Mark>): (r: Option<nat>)
    ensures r.Some? ==> r.value < |marks|
  {
    if marks == [] then None
    else
      var n := |marks| - 1; var before := Running(marks[..n]);
      match marks[n]
      case Nothing => before
      case Starts => if before.Some? then before else Some(n)
      case Clears => None
  }

  /** Reading `i` starts a clock, nothing after it clears it, and every start before it was cleared before it. */
  ghost predicate IsClock(marks: seq<Mark>, i: nat) {
    && i < |marks| && marks[i] == Starts
    && (forall k :: i < k < |marks| ==> marks[k] != Clears)
    && forall k :: 0 <= k < i && marks[k] == Starts ==> exists m :: k < m < i && marks[m] == Clears
  }

  lemma {:induction false} RunningIsClock(marks: seq<Mark>)
    ensures Running(marks).Some? ==> IsClock(marks, Running(marks).value)
    ensures Running(marks).None? ==>
      forall k :: 0 <= k < |marks| && marks[k] == Starts ==> exists m :: k < m < |marks| && marks[m] == Clears
  {
    if marks != [] {
      var n := |marks| - 1; var before := marks[..n];
      RunningIsClock(before);
      assert forall k :: 0 <= k < n ==> before[k] == marks[k];
      if Running(marks).Some? {
        forall k | 0 <= k < Running(marks).value && marks[k] == Starts
          ensures exists m :: k < m < Running(marks).value && marks[m] == Clears
        {
          var end := if Running(before).Some? then Running(before).value else n;
          var m :| k < m < end && before[m] == Clears;
          assert marks[m] == Clears;
        }
      } else {
        forall k | 0 <= k < n && marks[k] == Starts ensures exists m :: k < m < |marks| && marks[m] == Clears {
          if marks[n] != Clears {
            var m :| k < m < n && before[m] == Clears;
            assert marks[m] == Clears;
          }
        }
      }
    }
  }

  /** There is at most one such reading. */
  lemma ClockIsRunning(marks: seq<Mark>, i: nat)
    requires IsClock(marks, i)
    ensures Running(marks) == Some(i)
  {
    RunningIsClock(marks);
  }

  // ------------------------------------------------------------------
  // One checkpoint
  // ------------------------------------------------------------------

  /** The checkpoint's time has come, on the view's clock. */
  predicate TimeHasCome(l: Look) { l.check.minute.Some? && l.check.minute.value <= l.view.minute }

  predicate AskUnder(l: Look) { l.view.ask.Some? && l.view.ask.value < l.check.threshold }

  predicate Wide(cfg: Config, l: Look) {
    && cfg.spreadLimit > 0 && l.view.ask.Some? && l.view.bid.Some?
    && l.view.bid.value + cfg.spreadLimit < l.view.ask.value
  }

  /** Look `k` settles the checkpoint for its date: no ask, or one at the threshold or above; a low one with no wide
      spread in the grace period; or an exit. */
  predicate Settles(cfg: Config, ls: seq<Look>, k: nat)
    requires k < |ls|
  {
    && TimeHasCome(ls[k])
    && (!AskUnder(ls[k]) || (!Wide(cfg, ls[k]) && ls[k].view.inGrace) || FiresAt(cfg, ls, k))
  }

  ghost predicate SettledBefore(cfg: Config, ls: seq<Look>, n: nat)
    requires n < |ls|
  {
    exists k :: 0 <= k < n && ls[k].view.date == ls[n].view.date && Settles(cfg, ls, k)
  }

  /** Look `n` judges the ask. */
  ghost predicate Judges(cfg: Config, ls: seq<Look>, n: nat)
    requires n < |ls|
  {
    TimeHasCome(ls[n]) && !SettledBefore(cfg, ls, n)
  }

  ghost function MarkOf(cfg: Config, ls: seq<Look>, n: nat): Mark
    requires n < |ls|
  {
    if !Judges(cfg, ls, n) then Nothing
    else if !AskUnder(ls[n]) || Wide(cfg, ls[n]) || FiresAt(cfg, ls, n) then Clears
    else if ls[n].view.inGrace then Nothing
    else Starts
  }

  ghost function Marks(cfg: Config, ls: seq<Look>, n: nat): (r: seq<Mark>)
    requires n <= |ls|
    ensures |r| == n
  {
    seq(n, i requires 0 <= i < n => MarkOf(cfg, ls, i))
  }

  /** The automaton's date is the last settled one. */
  lemma {:induction false} EvaluatedIs(cfg: Config, ls: seq<Look>, n: nat)
    requires n <= |ls| && LooksAscend(ls)
    ensures var e := CheckRun(cfg, ls[..n]).evaluated;
      && (e.Some? ==> n > 0 && e.value <= ls[n - 1].view.date)
      && (e.Some? ==> exists k :: 0 <= k < n && ls[k].view.date == e.value && Settles(cfg, ls, k))
      && (forall k :: 0 <= k < n && Settles(cfg, ls, k) ==> e.Some? && ls[k].view.date <= e.value)
    decreases n
  {
    if n > 0 {
      EvaluatedIs(cfg, ls, n - 1);
      assert ls[..n][..n - 1] == ls[..n - 1];
      var st := CheckRun(cfg, ls[..n - 1]);
      assert CheckRun(cfg, ls[..n]) == LookStep(cfg, st, ls[n - 1]);
      assert FiresAt(cfg, ls, n - 1) <==> Fires(cfg, st, ls[n - 1].check, ls[n - 1].view);
      StepSettles(cfg, ls, n - 1, st);
      hide CheckRun, CheckFrom, Settles, LookStep, FiresAt;
      if LookStep(cfg, st, ls[n - 1]).evaluated != st.evaluated { assert Settles(cfg, ls, n - 1); }
    }
  }

  lemma StepSettles(cfg: Config, ls: seq<Look>, n: nat, st: CheckState)
    requires n < |ls| && (FiresAt(cfg, ls, n) <==> Fires(cfg, st, ls[n].check, ls[n].view))
    ensures var after := LookStep(cfg, st, ls[n]);
      if Settles(cfg, ls, n) then after.evaluated == Some(ls[n].view.date) else after.evaluated == st.evaluated
  {}

  lemma JudgesIff(cfg: Config, ls: seq<Look>, n: nat)
    requires n < |ls| && LooksAscend(ls)
    ensures Judges(cfg, ls, n) <==> EvaluatedAt(cfg, ls, n)
  {
    EvaluatedIs(cfg, ls, n);
    hide CheckRun, Settles;
    var e := CheckRun(cfg, ls[..n]).evaluated;
    if e == Some(ls[n].view.date) {
      var k :| 0 <= k < n && ls[k].view.date == e.value && Settles(cfg, ls, k);
      assert SettledBefore(cfg, ls, n);
    }
    if SettledBefore(cfg, ls, n) {
      var k :| 0 <= k < n && ls[k].view.date == ls[n].view.date && Settles(cfg, ls, k);
      assert n > 0 && ls[n - 1].view.date <= ls[n].view.date;
    }
  }

  /** The automaton's clock is the running one. */
  lemma {:induction false} PendingIsRunning(cfg: Config, ls: seq<Look>, n: nat)
    requires n <= |ls| && LooksAscend(ls)
    ensures var clock := Running(Marks(cfg, ls, n));
      CheckRun(cfg, ls[..n]).pending == if clock.Some? then Some(ls[clock.value].view.mono) else None
    decreases n
  {
    if n > 0 {
      PendingIsRunning(cfg, ls, n - 1);
      JudgesIff(cfg, ls, n - 1);
      assert ls[..n][..n - 1] == ls[..n - 1];
      assert Marks(cfg, ls, n)[..n - 1] == Marks(cfg, ls, n - 1);
      var st := CheckRun(cfg, ls[..n - 1]);
      StepMarks(cfg, ls, n - 1, st);
      hide Marks, MarkOf, LookStep, Judges, EvaluatedAt;
    }
  }

  lemma StepMarks(cfg: Config, ls: seq<Look>, n: nat, st: CheckState)
    requires n < |ls| && st == CheckRun(cfg, ls[..n]) && (Judges(cfg, ls, n) <==> EvaluatedAt(cfg, ls, n))
    ensures LookStep(cfg, st, ls[n]).pending ==
      match MarkOf(cfg, ls, n)
      case Nothing => st.pending
      case Starts => if st.pending.Some? then st.pending else Some(ls[n].view.mono)
      case Clears => None
  {
    hide CheckRun, SettledBefore;
  }

  /** Which looks exit: those past the checkpoint's minute that no look of the date has settled before, with an ask
      under the threshold, no wide spread, out of the grace period, and at least a minute after the reading whose
      clock runs. */
  lemma ExitsIff(cfg: Config, ls: seq<Look>, j: nat)
    requires j < |ls| && LooksAscend(ls)
    ensures FiresAt(cfg, ls, j) <==>
      && TimeHasCome(ls[j]) && !SettledBefore(cfg, ls, j)
      && AskUnder(ls[j]) && !Wide(cfg, ls[j]) && !ls[j].view.inGrace
      && exists i: nat :: IsClock(Marks(cfg, ls, j), i) && ls[i].view.mono + 60 <= ls[j].view.mono
  {
    JudgesIff(cfg, ls, j);
    PendingIsRunning(cfg, ls, j);
    var marks := Marks(cfg, ls, j);
    RunningIsClock(marks);
    forall i: nat | IsClock(marks, i) ensures Running(marks) == Some(i) { ClockIsRunning(marks, i); }
    hide CheckRun, Marks, IsClock, Running, SettledBefore;
  }

  // ------------------------------------------------------------------
  // Runs of passes
  // ------------------------------------------------------------------

  /** A pass exits for a checkpoint if and only if the last look it takes at it is such a look. */
  lemma PassExitsIff(cfg: Config, vs: seq<View>, p: nat, name: string)
    requires p < |vs| && DatesAscend(vs)
    ensures var before, trail := Trail(cfg, vs[..p], name), Trail(cfg, vs[..p + 1], name);
      var j := |trail| - 1;
      CheckpointExit(name) in ExitsAt(cfg, vs, p) <==>
      && |before| < |trail| && trail[j].view == vs[p]
      && TimeHasCome(trail[j]) && !SettledBefore(cfg, trail, j)
      && AskUnder(trail[j]) && !Wide(cfg, trail[j]) && !vs[p].inGrace
      && exists i: nat :: IsClock(Marks(cfg, trail, j), i) && trail[i].view.mono + 60 <= vs[p].mono
  {
    hide *;
    CheckpointExitIff(cfg, vs, p, name);
    PrefixAscends(vs, p + 1);
    TrailAscends(cfg, vs[..p + 1], name);
    var trail := Trail(cfg, vs[..p + 1], name);
    if trail != [] { ExitsIff(cfg, trail, |trail| - 1); }
  }

  lemma SettlesWhen(cfg: Config, ls: seq<Look>, k: nat, n: nat)
    requires k < n < |ls| && ls[k].view.date == ls[n].view.date
    requires TimeHasCome(ls[k]) && (!AskUnder(ls[k]) || (!Wide(cfg, ls[k]) && ls[k].view.inGrace))
    ensures SettledBefore(cfg, ls, n)
  {
    assert Settles(cfg, ls, k);
  }

  lemma LookSettles(cfg: Config, l: Look)
    requires l.check.minute.Some? && l.check.minute.value <= l.view.minute
    requires var v := l.view;
      || v.ask.None? || l.check.threshold <= v.ask.value
      || (v.inGrace && (cfg.spreadLimit <= 0 || v.bid.None? || v.ask.value - v.bid.value <= cfg.spreadLimit))
    ensures TimeHasCome(l) && (!AskUnder(l) || (!Wide(cfg, l) && l.view.inGrace))
  {}

  /** Once a pass has come to a checkpoint past its minute and found no ask, or one at the threshold or above, or a
      low one with no wide spread in the grace period, no later pass of that date exits for it. */
  lemma SettledForTheDate(cfg: Config, vs: seq<View>, p: nat, q: nat, k: nat, name: string)
    requires p < q < |vs| && DatesAscend(vs) && vs[q].date == vs[p].date
    requires |Trail(cfg, vs[..p], name)| <= k < |Trail(cfg, vs[..p + 1], name)|
    requires var l := Trail(cfg, vs[..p + 1], name)[k];
      && l.check.minute.Some? && l.check.minute.value <= vs[p].minute
      && (|| vs[p].ask.None? || l.check.threshold <= vs[p].ask.value
          || (vs[p].inGrace
              && (cfg.spreadLimit <= 0 || vs[p].bid.None? || vs[p].ask.value - vs[p].bid.value <= cfg.spreadLimit)))
    ensures CheckpointExit(name) !in ExitsAt(cfg, vs, q)
  {
    hide *;
    var early, trail := Trail(cfg, vs[..p + 1], name), Trail(cfg, vs[..q + 1], name);
    var j, l := |trail| - 1, early[k];
    CheckpointExitIff(cfg, vs, p, name);
    TrailPrefix(cfg, vs, p + 1, q, name);
    TrailPrefix(cfg, vs, q, q + 1, name);
    assert trail[k] == l;
    LookSettles(cfg, l);
    PassExitsIff(cfg, vs, q, name);
    if |Trail(cfg, vs[..q], name)| <= j && trail[j].view == vs[q] { SettlesWhen(cfg, trail, k, j); }
  }

  /** An excluded position, and one with both exits switched off, is never exited; a position in its grace period
      neither. */
  lemma NoExit(cfg: Config, vs: seq<View>, p: nat)
    requires p < |vs| && DatesAscend(vs)
    requires vs[p].excluded || (!cfg.intradayEnabled && !cfg.hwmEnabled) || vs[p].inGrace
    ensures ExitsAt(cfg, vs, p) == []
  {
    var ts := TickerRun(cfg, vs[..p]);
    OneExitPerPass(cfg, ts, vs[p]);
    if ExitsAt(cfg, vs, p) != [] && vs[p].inGrace {
      match ExitsAt(cfg, vs, p)[0]
      case CheckpointExit(name) => PassExitsIff(cfg, vs, p, name);
      case HwmExit =>
    }
  }

  // ------------------------------------------------------------------
  // The high-water mark
  // ------------------------------------------------------------------

  /** At view `n` the exit is armed for its date: some view of the date up to it, at or after noon, had an ask at the
      arming price, and no view of the date has exited since. */
  ghost predicate ArmedAt(cfg: Config, vs: seq<View>, n: nat)
    requires n < |vs|
  {
    exists a :: ArmsUntil(cfg, vs, a, n)
  }

  ghost predicate ArmsUntil(cfg: Config, vs: seq<View>, a: int, n: nat)
    requires n < |vs|
  {
    && 0 <= a <= n && vs[a].date == vs[n].date && 720 <= vs[a].minute
    && vs[a].ask.Some? && cfg.hwmArmPrice <= vs[a].ask.value
    && forall k :: a <= k < n && vs[k].date == vs[n].date ==> !HwmFiresAt(cfg, vs, k)
  }

  predicate AskAtMost(cfg: Config, v: View) { v.ask.Some? && v.ask.value <= cfg.hwmExitPrice && !v.inGrace }

  ghost function HwmMarkOf(cfg: Config, vs: seq<View>, n: nat): Mark
    requires n < |vs|
  {
    if !ArmedAt(cfg, vs, n) then Nothing
    else if !AskAtMost(cfg, vs[n]) || HwmFiresAt(cfg, vs, n) then Clears
    else Starts
  }

  ghost function HwmMarks(cfg: Config, vs: seq<View>, n: nat): (r: seq<Mark>)
    requires n <= |vs|
    ensures |r| == n
  {
    seq(n, i requires 0 <= i < n => HwmMarkOf(cfg, vs, i))
  }

  /** Something among the first `n` views arms the exit for the date, and none of the date has exited since. */
  ghost predicate ArmedBefore(cfg: Config, vs: seq<View>, d: Date, n: nat)
    requires n <= |vs|
  {
    exists a :: ArmsBefore(cfg, vs, d, a, n)
  }

  ghost predicate ArmsBefore(cfg: Config, vs: seq<View>, d: Date, a: int, n: nat)
    requires n <= |vs|
  {
    && 0 <= a < n && vs[a].date == d && 720 <= vs[a].minute
    && vs[a].ask.Some? && cfg.hwmArmPrice <= vs[a].ask.value
    && forall k :: a <= k < n && vs[k].date == d ==> !HwmFiresAt(cfg, vs, k)
  }

  lemma {:induction false} ArmedIs(cfg: Config, vs: seq<View>, d: Date, n: nat)
    requires n <= |vs|
    ensures d in HwmRun(cfg, vs[..n]).armed <==> ArmedBefore(cfg, vs, d, n)
    decreases n
  {
    if n > 0 {
      ArmedIs(cfg, vs, d, n - 1);
      assert vs[..n][..n - 1] == vs[..n - 1];
      var st := HwmRun(cfg, vs[..n - 1]);
      assert HwmRun(cfg, vs[..n]) == HwmStep(cfg, st, vs[n - 1]);
      assert HwmFiresAt(cfg, vs, n - 1) <==> HwmFires(cfg, st, vs[n - 1]);
      hide *;
      ArmedStep(cfg, st, vs[n - 1], d);
      ArmedBeforeStep(cfg, vs, d, n);
    } else {
      hide HwmFiresAt, HwmStep;
    }
  }

  lemma ArmedStep(cfg: Config, st: HwmState, v: View, d: Date)
    ensures d in HwmStep(cfg, st, v).armed <==>
      if v.date == d then (d in st.armed || Arms(cfg, v)) && !HwmFires(cfg, st, v) else d in st.armed
  {}

  lemma ArmedBeforeStep(cfg: Config, vs: seq<View>, d: Date, n: nat)
    requires 0 < n <= |vs|
    ensures ArmedBefore(cfg, vs, d, n) <==>
      if vs[n - 1].date == d
      then (ArmedBefore(cfg, vs, d, n - 1) || Arms(cfg, vs[n - 1])) && !HwmFiresAt(cfg, vs, n - 1)
      else ArmedBefore(cfg, vs, d, n - 1)
  {
    hide HwmFiresAt;
    if vs[n - 1].date != d || !HwmFiresAt(cfg, vs, n - 1) {
      if ArmedBefore(cfg, vs, d, n - 1) {
        var a :| ArmsBefore(cfg, vs, d, a, n - 1);
        assert ArmsBefore(cfg, vs, d, a, n);
      }
      if vs[n - 1].date == d && Arms(cfg, vs[n - 1]) { assert ArmsBefore(cfg, vs, d, n - 1, n); }
    }
    if ArmedBefore(cfg, vs, d, n) {
      var a :| ArmsBefore(cfg, vs, d, a, n);
      if a < n - 1 { assert ArmsBefore(cfg, vs, d, a, n - 1); }
    }
  }

  lemma JudgedIff(cfg: Config, vs: seq<View>, n: nat)
    requires n < |vs|
    ensures ArmedAt(cfg, vs, n) <==> HwmJudgedAt(cfg, vs, n)
  {
    var d := vs[n].date;
    ArmedIs(cfg, vs, d, n);
    hide HwmRun, HwmFiresAt;
    if ArmedBefore(cfg, vs, d, n) {
      var a :| ArmsBefore(cfg, vs, d, a, n);
      assert ArmsUntil(cfg, vs, a, n);
    }
    if Arms(cfg, vs[n]) { assert ArmsUntil(cfg, vs, n, n); }
    if ArmedAt(cfg, vs, n) {
      var a :| ArmsUntil(cfg, vs, a, n);
      if a < n { assert ArmsBefore(cfg, vs, d, a, n); }
    }
  }

  lemma {:induction false} HwmPendingIsRunning(cfg: Config, vs: seq<View>, n: nat)
    requires n <= |vs|
    ensures var clock := Running(HwmMarks(cfg, vs, n));
      HwmRun(cfg, vs[..n]).pending == if clock.Some? then Some(vs[clock.value].mono) else None
    decreases n
  {
    if n > 0 {
      HwmPendingIsRunning(cfg, vs, n - 1);
      JudgedIff(cfg, vs, n - 1);
      assert vs[..n][..n - 1] == vs[..n - 1];
      assert HwmMarks(cfg, vs, n)[..n - 1] == HwmMarks(cfg, vs, n - 1);
      HwmStepMarks(cfg, vs, n - 1, HwmRun(cfg, vs[..n - 1]));
      hide HwmMarks, HwmMarkOf, HwmStep, HwmJudgedAt;
    }
  }

  lemma HwmStepMarks(cfg: Config, vs: seq<View>, n: nat, st: HwmState)
    requires n < |vs| && st == HwmRun(cfg, vs[..n]) && (ArmedAt(cfg, vs, n) <==> HwmJudgedAt(cfg, vs, n))
    ensures HwmStep(cfg, st, vs[n]).pending ==
      match HwmMarkOf(cfg, vs, n)
      case Nothing => st.pending
      case Starts => if st.pending.Some? then st.pending else Some(vs[n].mono)
      case Clears => None
  {
    hide HwmRun, ArmedAt;
  }

  /** Which views exit at the high-water mark: those for whose date the exit is armed, with an ask at the exit price
      or under, out of the grace period, at least a minute after the reading whose clock runs. */
  lemma HwmExitsIff(cfg: Config, vs: seq<View>, j: nat)
    requires j < |vs|
    ensures HwmFiresAt(cfg, vs, j) <==>
      && ArmedAt(cfg, vs, j) && AskAtMost(cfg, vs[j])
      && exists i: nat :: IsClock(HwmMarks(cfg, vs, j), i) && vs[i].mono + 60 <= vs[j].mono
  {
    JudgedIff(cfg, vs, j);
    HwmPendingIsRunning(cfg, vs, j);
    var marks := HwmMarks(cfg, vs, j);
    RunningIsClock(marks);
    forall i: nat | IsClock(marks, i) ensures Running(marks) == Some(i) { ClockIsRunning(marks, i); }
    hide HwmRun, HwmMarks, IsClock, Running, ArmedAt;
  }

  /** A pass exits at the high-water mark if and only if it comes to that block, which a checkpoint exit of the same
      pass keeps it from, and its view is such a view among those that came to it. */
  lemma PassHwmExitsIff(cfg: Config, vs: seq<View>, p: nat)
    requires p < |vs|
    ensures var before, trail := HwmTrail(cfg, vs[..p]), HwmTrail(cfg, vs[..p + 1]);
      HwmExit in ExitsAt(cfg, vs, p) <==>
      && trail == before + [vs[p]]
      && ArmedAt(cfg, trail, |before|) && AskAtMost(cfg, vs[p])
      && exists i: nat :: IsClock(HwmMarks(cfg, trail, |before|), i) && trail[i].mono + 60 <= vs[p].mono
    ensures HwmTrail(cfg, vs[..p + 1]) ==
      if cfg.hwmEnabled && !vs[p].excluded && (forall name :: CheckpointExit(name) !in ExitsAt(cfg, vs, p))
      then HwmTrail(cfg, vs[..p]) + [vs[p]] else HwmTrail(cfg, vs[..p])
  {
    var before, trail := HwmTrail(cfg, vs[..p]), HwmTrail(cfg, vs[..p + 1]);
    HwmExitIff(cfg, vs, p);
    if |before| < |trail| { HwmExitsIff(cfg, trail, |before|); }
    ComesToBlock(cfg, vs, p);
    hide HwmTrail, ExitsAt, HwmFiresAt, ArmedAt, IsClock, HwmMarks;
  }

  lemma ComesToBlock(cfg: Config, vs: seq<View>, p: nat)
    requires p < |vs|
    ensures HwmTrail(cfg, vs[..p + 1]) ==
      if cfg.hwmEnabled && !vs[p].excluded && (forall name :: CheckpointExit(name) !in ExitsAt(cfg, vs, p))
      then HwmTrail(cfg, vs[..p]) + [vs[p]] else HwmTrail(cfg, vs[..p])
  {
    assert vs[..p + 1][..p] == vs[..p];
    var ts := TickerRun(cfg, vs[..p]);
    var exit := Checkpoints(cfg, ts.checks, cfg.schedule, vs[p]).1;
    forall name ensures CheckpointExit(name) in ExitsAt(cfg, vs, p) <==>
      cfg.intradayEnabled && !vs[p].excluded && exit == Some(CheckpointExit(name)) { PassExit(cfg, ts, vs[p], name); }
    hide Checkpoints, HwmStep, HwmFires, ExitsAt, TickerRun;
    if exit.Some? { assert exit == Some(CheckpointExit(exit.value.name)); }
  }
}
