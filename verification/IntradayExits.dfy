/** The scheduled exits: checkpoint exits that need two readings a minute apart, and the high-water-mark exit that must
    first be armed by a high afternoon ask. */
module IntradayExits {
  import opened Common

  type Ticker = string
  type Date = int

  const CONFIRM_SECONDS := 60
  const NOON := 12 * 60

  /** One schedule entry; `minute` is `None` when its time string does not parse. */
  datatype Checkpoint = Checkpoint(name: string, minute: Option<int>, threshold: int)

  datatype Config = Config(
    intradayEnabled: bool,
    hwmEnabled: bool,
    schedule: seq<Checkpoint>,
    spreadLimit: int,
    hwmArmPrice: int,
    hwmExitPrice: int)

  /** What one pass of the loop sees of one position: its local date and minute, a monotone clock, the quote, whether
      the entry grace period still runs, and whether the ticker is excluded. */
  datatype View = View(
    date: Date,
    minute: int,
    mono: int,
    ask: Option<int>,
    bid: Option<int>,
    inGrace: bool,
    excluded: bool)

  // ------------------------------------------------------------------
  // One checkpoint of one ticker
  // ------------------------------------------------------------------

  /** `evaluated`: the date on which this checkpoint was last settled; `pending`: the clock of its first low reading. */
  datatype CheckState = CheckState(evaluated: Option<Date>, pending: Option<int>)

  /** The checkpoint is looked at: not settled today, and its time has come. */
  predicate Due(st: CheckState, c: Checkpoint, v: View) {
    st.evaluated != Some(v.date) && c.minute.Some? && v.minute >= c.minute.value
  }

  predicate Below(c: Checkpoint, v: View) { v.ask.Some? && v.ask.value < c.threshold }

  predicate TooWide(cfg: Config, v: View) {
    cfg.spreadLimit > 0 && v.ask.Some? && v.bid.Some? && v.ask.value - v.bid.value > cfg.spreadLimit
  }

  /** The reading speaks for an exit. */
  predicate Low(cfg: Config, c: Checkpoint, v: View) { Below(c, v) && !TooWide(cfg, v) }

  predicate Confirmed(pending: Option<int>, v: View) {
    pending.Some? && v.mono - pending.value >= CONFIRM_SECONDS
  }

  predicate Fires(cfg: Config, st: CheckState, c: Checkpoint, v: View) {
    Due(st, c, v) && Low(cfg, c, v) && !v.inGrace && Confirmed(st.pending, v)
  }

  function CheckStep(cfg: Config, st: CheckState, c: Checkpoint, v: View): CheckState {
    if !Due(st, c, v) then st
    else if !Below(c, v) then CheckState(Some(v.date), None)
    else if TooWide(cfg, v) then st.(pending := None)
    else if v.inGrace then st.(evaluated := Some(v.date))
    else if st.pending.None? then st.(pending := Some(v.mono))
    else if Confirmed(st.pending, v) then CheckState(Some(v.date), None)
    else st
  }

  /** A pass comes to a checkpoint. */
  datatype Look = Look(check: Checkpoint, view: View)

  function LookStep(cfg: Config, st: CheckState, l: Look): CheckState { CheckStep(cfg, st, l.check, l.view) }

  /** One entry of the dictionaries through all the looks at its key, from a given state. */
  function CheckFrom(cfg: Config, st: CheckState, ls: seq<Look>): CheckState {
    if ls == [] then st else LookStep(cfg, CheckFrom(cfg, st, ls[..|ls| - 1]), ls[|ls| - 1])
  }

  function CheckRun(cfg: Config, ls: seq<Look>): CheckState { CheckFrom(cfg, CheckState(None, None), ls) }

  predicate FiresAt(cfg: Config, ls: seq<Look>, j: nat)
    requires j < |ls|
  {
    Fires(cfg, CheckRun(cfg, ls[..j]), ls[j].check, ls[j].view)
  }

  predicate EvaluatedAt(cfg: Config, ls: seq<Look>, j: nat)
    requires j < |ls|
  {
    Due(CheckRun(cfg, ls[..j]), ls[j].check, ls[j].view)
  }

  predicate LowLook(cfg: Config, l: Look) { Low(cfg, l.check, l.view) }

  /** Look `i` was an evaluation and low, and every evaluation after it and before `n` was low as well. */
  ghost predicate LowSince(cfg: Config, ls: seq<Look>, i: nat, n: nat)
    requires n <= |ls|
  {
    && i < n && EvaluatedAt(cfg, ls, i) && LowLook(cfg, ls[i]) && !ls[i].view.inGrace
    && forall k :: i < k < n && EvaluatedAt(cfg, ls, k) ==> LowLook(cfg, ls[k])
  }

  /** The look that started the pending clock. */
  function ClockLook(cfg: Config, ls: seq<Look>): (r: Option<nat>)
    ensures r.Some? ==> r.value < |ls|
  {
    if ls == [] || CheckRun(cfg, ls).pending.None? then None
    else if CheckRun(cfg, ls[..|ls| - 1]).pending.Some? then ClockLook(cfg, ls[..|ls| - 1])
    else Some(|ls| - 1)
  }

  /** The pending clock is that of a low evaluation with only low evaluations since. */
  lemma {:induction false} PendingIsLow(cfg: Config, ls: seq<Look>, n: nat)
    requires n <= |ls| && CheckRun(cfg, ls[..n]).pending.Some?
    ensures ClockLook(cfg, ls[..n]).Some?
    ensures var i := ClockLook(cfg, ls[..n]).value;
      LowSince(cfg, ls, i, n) && ls[i].view.mono == CheckRun(cfg, ls[..n]).pending.value
    decreases n
  {
    assert n > 0;
    var before := CheckRun(cfg, ls[..n - 1]);
    assert ls[..n][..n - 1] == ls[..n - 1];
    if before.pending.Some? {
      PendingIsLow(cfg, ls, n - 1);
      hide CheckFrom, ClockLook;
      KeptClockIsLow(cfg, before, ls[n - 1]);
    }
  }

  /** A clock that survives an evaluation was met by a low one. */
  lemma KeptClockIsLow(cfg: Config, st: CheckState, l: Look)
    requires st.pending.Some? && LookStep(cfg, st, l).pending.Some?
    ensures LookStep(cfg, st, l).pending == st.pending
    ensures Due(st, l.check, l.view) ==> LowLook(cfg, l)
  {}

  /** A checkpoint exit needs an earlier low evaluation, at least a minute old, with no evaluation in between that was
      at or above the threshold, without an ask, or too wide. */
  lemma CheckpointNeedsTwoReadings(cfg: Config, ls: seq<Look>, j: nat)
    requires j < |ls| && FiresAt(cfg, ls, j)
    ensures ClockLook(cfg, ls[..j]).Some?
    ensures var i := ClockLook(cfg, ls[..j]).value;
      LowSince(cfg, ls, i, j) && ls[j].view.mono - ls[i].view.mono >= CONFIRM_SECONDS
    ensures LowLook(cfg, ls[j]) && !ls[j].view.inGrace
  {
    PendingIsLow(cfg, ls, j);
  }

  ghost predicate LooksAscend(ls: seq<Look>) {
    forall i, j :: 0 <= i < j < |ls| ==> ls[i].view.date <= ls[j].view.date
  }

  /** After a firing the checkpoint is settled for that date, and dates only move on. */
  lemma {:induction false} FiredIsSettled(cfg: Config, ls: seq<Look>, i: nat, n: nat)
    requires i < n <= |ls| && LooksAscend(ls) && FiresAt(cfg, ls, i)
    ensures var st := CheckRun(cfg, ls[..n]);
      st.evaluated.Some? && ls[i].view.date <= st.evaluated.value <= ls[n - 1].view.date
    decreases n
  {
    assert ls[..n][..n - 1] == ls[..n - 1];
    if n - 1 > i {
      FiredIsSettled(cfg, ls, i, n - 1);
    }
  }

  /** A checkpoint fires at most once per local date. */
  lemma CheckpointFiresOncePerDate(cfg: Config, ls: seq<Look>, i: nat, j: nat)
    requires i < j < |ls| && LooksAscend(ls)
    requires FiresAt(cfg, ls, i) && FiresAt(cfg, ls, j)
    ensures ls[i].view.date < ls[j].view.date
  {
    FiredIsSettled(cfg, ls, i, j);
  }

  // ------------------------------------------------------------------
  // When the two readings lie on different days
  // ------------------------------------------------------------------

  /** Looks `f` to `j` are those of the date of `j`. */
  ghost predicate FirstOfDate(ls: seq<Look>, f: nat, j: nat)
    requires j < |ls|
  {
    && f <= j
    && (forall k :: f <= k <= j ==> ls[k].view.date == ls[j].view.date)
    && (forall k :: 0 <= k < f ==> ls[k].view.date < ls[j].view.date)
  }

  /** Before a firing, no look of its date has settled the checkpoint. */
  lemma {:induction false} NotSettledBefore(cfg: Config, ls: seq<Look>, f: nat, n: nat, j: nat)
    requires f <= n <= j < |ls| && FirstOfDate(ls, f, j) && FiresAt(cfg, ls, j)
    ensures CheckRun(cfg, ls[..n]).evaluated != Some(ls[j].view.date)
    decreases j - n
  {
    if n < j {
      NotSettledBefore(cfg, ls, f, n + 1, j);
      assert ls[..n + 1][..n] == ls[..n];
    }
  }

  lemma {:induction false} ClockBeforeDateIff(cfg: Config, ls: seq<Look>, f: nat, n: nat, j: nat)
    requires f <= n <= j < |ls| && FirstOfDate(ls, f, j) && FiresAt(cfg, ls, j)
    ensures var clock := ClockLook(cfg, ls[..n]);
      (clock.Some? && clock.value < f) <==>
        (CheckRun(cfg, ls[..f]).pending.Some? && forall k :: f <= k < n && EvaluatedAt(cfg, ls, k) ==>
         LowLook(cfg, ls[k]))
    decreases n
  {
    if n == f {
      if CheckRun(cfg, ls[..f]).pending.Some? { PendingIsLow(cfg, ls, f); }
    } else {
      ClockBeforeDateIff(cfg, ls, f, n - 1, j);
      NotSettledBefore(cfg, ls, f, n, j);
      assert ls[..n][..n - 1] == ls[..n - 1];
      var st := CheckRun(cfg, ls[..n - 1]);
      var clock := ClockLook(cfg, ls[..n - 1]);
      if st.pending.Some? { PendingIsLow(cfg, ls, n - 1); }
      UnsettledLook(cfg, st, ls[n - 1]);
      assert EvaluatedAt(cfg, ls, n - 1) <==> Due(st, ls[n - 1].check, ls[n - 1].view);
      assert CheckRun(cfg, ls[..n]) == LookStep(cfg, st, ls[n - 1]);
      assert ClockLook(cfg, ls[..n]) ==
        if CheckRun(cfg, ls[..n]).pending.None? then None else if st.pending.Some? then clock else Some(n - 1);
      hide CheckFrom, CheckRun, ClockLook, LookStep, LowLook, Due, EvaluatedAt, FiresAt, LowSince, FirstOfDate;
      assert (forall k :: f <= k < n && EvaluatedAt(cfg, ls, k) ==> LowLook(cfg, ls[k])) <==>
        (forall k :: f <= k < n - 1 && EvaluatedAt(cfg, ls, k) ==> LowLook(cfg, ls[k]))
        && (EvaluatedAt(cfg, ls, n - 1) ==> LowLook(cfg, ls[n - 1]));
    }
  }

  /** A look that does not settle its date: an evaluation keeps or starts the clock when low and clears it otherwise. */
  lemma UnsettledLook(cfg: Config, st: CheckState, l: Look)
    requires LookStep(cfg, st, l).evaluated != Some(l.view.date)
    ensures var after := LookStep(cfg, st, l).pending;
      if !Due(st, l.check, l.view) then after == st.pending
      else if !LowLook(cfg, l) then after.None?
      else after == if st.pending.Some? then st.pending else Some(l.view.mono)
  {}

  /** The first of the two readings behind an exit is from an earlier day if and only if, when the first look of the day
      came, a clock was still pending, and no evaluation of the day before the exit failed to be low: only an evaluation
      clears the clock, the change of date does not. */
  lemma ReadingsSpanDaysIff(cfg: Config, ls: seq<Look>, f: nat, j: nat)
    requires j < |ls| && FirstOfDate(ls, f, j) && FiresAt(cfg, ls, j)
    ensures ClockLook(cfg, ls[..j]).Some?
    ensures ls[ClockLook(cfg, ls[..j]).value].view.date < ls[j].view.date <==>
      CheckRun(cfg, ls[..f]).pending.Some? && forall k :: f <= k < j && EvaluatedAt(cfg, ls, k) ==> LowLook(cfg, ls[k])
  {
    CheckpointNeedsTwoReadings(cfg, ls, j);
    ClockBeforeDateIff(cfg, ls, f, j, j);
  }

  /** A low reading in the last minute of one day, a look before the checkpoint's time on the next, and a low reading at
      that time. */
  function OverMidnight(c: Checkpoint): seq<Look> {
    [ Look(c, View(1, 1439, 0, Some(70), Some(69), false, false)),
      Look(c, View(2, 0, 30, Some(70), Some(69), false, false)),
      Look(c, View(2, 600, 36030, Some(70), Some(69), false, false)) ]
  }

  /** They fire, although each day has a single low reading. */
  lemma ReadingsMaySpanDays(cfg: Config, c: Checkpoint)
    requires cfg.spreadLimit <= 0 && c.minute == Some(600) && c.threshold == 80
    ensures var ls := OverMidnight(c);
      FiresAt(cfg, ls, 2) && FirstOfDate(ls, 1, 2) && ClockLook(cfg, ls[..2]) == Some(0)
  {
    var ls := OverMidnight(c);
    assert ls[..1] == [ls[0]] && ls[..2] == [ls[0], ls[1]] && [ls[0], ls[1]][..1] == [ls[0]] && [ls[0]][..0] == [];
    assert CheckRun(cfg, []) == CheckState(None, None);
    assert CheckRun(cfg, [ls[0]]) == LookStep(cfg, CheckState(None, None), ls[0]) == CheckState(None, Some(0));
    assert CheckRun(cfg, ls[..2]) == CheckState(None, Some(0));
  }

  // ------------------------------------------------------------------
  // The high-water-mark exit of one ticker
  // ------------------------------------------------------------------

  ghost predicate DatesAscend(vs: seq<View>) {
    forall i, j :: 0 <= i < j < |vs| ==> vs[i].date <= vs[j].date
  }

  /** `armed` holds the dates on which the exit is armed. */
  datatype HwmState = HwmState(armed: set<Date>, pending: Option<int>)

  predicate Arms(cfg: Config, v: View) { v.minute >= NOON && v.ask.Some? && v.ask.value >= cfg.hwmArmPrice }

  predicate HwmLow(cfg: Config, v: View) { v.ask.Some? && v.ask.value <= cfg.hwmExitPrice && !v.inGrace }

  function ArmedAfter(cfg: Config, st: HwmState, v: View): set<Date> {
    if Arms(cfg, v) then st.armed + {v.date} else st.armed
  }

  predicate HwmFires(cfg: Config, st: HwmState, v: View) {
    v.date in ArmedAfter(cfg, st, v) && HwmLow(cfg, v) && Confirmed(st.pending, v)
  }

  function HwmStep(cfg: Config, st: HwmState, v: View): HwmState {
    var armed := ArmedAfter(cfg, st, v);
    if v.date !in armed then st.(armed := armed)
    else if !HwmLow(cfg, v) then HwmState(armed, None)
    else if st.pending.None? then HwmState(armed, Some(v.mono))
    else if Confirmed(st.pending, v) then HwmState(armed - {v.date}, None)
    else st.(armed := armed)
  }

  function HwmRun(cfg: Config, vs: seq<View>): HwmState {
    if vs == [] then HwmState({}, None)
    else HwmStep(cfg, HwmRun(cfg, vs[..|vs| - 1]), vs[|vs| - 1])
  }

  predicate HwmFiresAt(cfg: Config, vs: seq<View>, j: nat)
    requires j < |vs|
  {
    HwmFires(cfg, HwmRun(cfg, vs[..j]), vs[j])
  }

  /** View `k` is judged: the exit is armed for its date. */
  predicate HwmJudgedAt(cfg: Config, vs: seq<View>, k: nat)
    requires k < |vs|
  {
    vs[k].date in ArmedAfter(cfg, HwmRun(cfg, vs[..k]), vs[k])
  }

  ghost predicate HwmLowSince(cfg: Config, vs: seq<View>, i: nat, n: nat)
    requires n <= |vs|
  {
    && i < n && HwmJudgedAt(cfg, vs, i) && HwmLow(cfg, vs[i])
    && forall k :: i < k < n && HwmJudgedAt(cfg, vs, k) ==> HwmLow(cfg, vs[k])
  }

  lemma {:induction false} ArmedHasCause(cfg: Config, vs: seq<View>, n: nat, d: Date)
    requires n <= |vs| && d in HwmRun(cfg, vs[..n]).armed
    ensures exists a: nat :: a < n && Arms(cfg, vs[a]) && vs[a].date == d
    decreases n
  {
    if n > 0 {
      assert vs[..n][..n - 1] == vs[..n - 1];
      if d in HwmRun(cfg, vs[..n - 1]).armed {
        ArmedHasCause(cfg, vs, n - 1, d);
      } else {
        assert Arms(cfg, vs[n - 1]) && vs[n - 1].date == d;
      }
    }
  }

  /** The view that started the pending clock. */
  function ClockView(cfg: Config, vs: seq<View>): (r: Option<nat>)
    ensures r.Some? ==> r.value < |vs|
  {
    if vs == [] || HwmRun(cfg, vs).pending.None? then None
    else if HwmRun(cfg, vs[..|vs| - 1]).pending.Some? then ClockView(cfg, vs[..|vs| - 1])
    else Some(|vs| - 1)
  }

  /** The pending clock is that of a judged low view with only low judged views since. */
  lemma {:induction false} HwmPendingIsLow(cfg: Config, vs: seq<View>, n: nat)
    requires n <= |vs| && HwmRun(cfg, vs[..n]).pending.Some?
    ensures ClockView(cfg, vs[..n]).Some?
    ensures var i := ClockView(cfg, vs[..n]).value;
      HwmLowSince(cfg, vs, i, n) && vs[i].mono == HwmRun(cfg, vs[..n]).pending.value
    decreases n
  {
    assert n > 0;
    assert vs[..n][..n - 1] == vs[..n - 1];
    var before := HwmRun(cfg, vs[..n - 1]);
    assert HwmRun(cfg, vs[..n]) == HwmStep(cfg, before, vs[n - 1]);
    assert ClockView(cfg, vs[..n]) == if before.pending.Some? then ClockView(cfg, vs[..n - 1]) else Some(n - 1);
    hide HwmRun, HwmStep, HwmLow, ArmedAfter, ClockView;
    HwmClock(cfg, before, vs[n - 1]);
    if before.pending.Some? { HwmPendingIsLow(cfg, vs, n - 1); }
  }

  /** A clock that is pending after a view was kept over it, or started by it; a judged view was then low. */
  lemma HwmClock(cfg: Config, st: HwmState, v: View)
    requires HwmStep(cfg, st, v).pending.Some?
    ensures v.date in ArmedAfter(cfg, st, v) ==> HwmLow(cfg, v)
    ensures if st.pending.Some? then HwmStep(cfg, st, v).pending == st.pending
            else v.date in ArmedAfter(cfg, st, v) && HwmStep(cfg, st, v).pending.value == v.mono
  {}

  /** A high-water-mark exit needs a view of the same local date, at or after noon, whose ask reached the arming price,
      and a judged low reading at least a minute old with no judged recovery since. */
  lemma HwmNeedsArmingAndTwoReadings(cfg: Config, vs: seq<View>, j: nat)
    requires j < |vs| && HwmFiresAt(cfg, vs, j)
    ensures exists a: nat :: a <= j && Arms(cfg, vs[a]) && vs[a].date == vs[j].date
    ensures exists i: nat :: HwmLowSince(cfg, vs, i, j) && vs[j].mono - vs[i].mono >= CONFIRM_SECONDS
  {
    HwmPendingIsLow(cfg, vs, j);
    if vs[j].date in HwmRun(cfg, vs[..j]).armed {
      ArmedHasCause(cfg, vs, j, vs[j].date);
    } else {
      assert Arms(cfg, vs[j]);
    }
  }

  /** A judged low reading of an earlier date does not survive until the next date is armed, because the arming view is
      itself judged and, with the exit price under the arming price, is not low. */
  lemma HwmReadingsShareTheDate(cfg: Config, vs: seq<View>, i: nat, j: nat)
    requires cfg.hwmExitPrice < cfg.hwmArmPrice && DatesAscend(vs)
    requires j < |vs| && HwmFiresAt(cfg, vs, j) && HwmLowSince(cfg, vs, i, j)
    ensures vs[i].date == vs[j].date
  {
    if vs[i].date != vs[j].date {
      assert vs[j].date in HwmRun(cfg, vs[..j]).armed;
      ArmedHasCause(cfg, vs, j, vs[j].date);
    }
  }

  /** Views `f` to `n - 1` are those of date `d`. */
  ghost predicate ViewsOfDate(vs: seq<View>, f: nat, n: nat, d: Date)
    requires n <= |vs|
  {
    && f <= n
    && (forall k :: f <= k < n ==> vs[k].date == d)
    && (forall k :: 0 <= k < f ==> vs[k].date < d)
  }

  /** A judged view leaves a pending clock alone: it is low, and the exit does not fire on it. */
  predicate LeavesClock(cfg: Config, vs: seq<View>, k: nat)
    requires k < |vs|
  {
    HwmJudgedAt(cfg, vs, k) ==> HwmLow(cfg, vs[k]) && !HwmFiresAt(cfg, vs, k)
  }

  lemma HwmClockMoves(cfg: Config, vs: seq<View>, n: nat)
    requires n < |vs|
    ensures var before, after := ClockView(cfg, vs[..n]), ClockView(cfg, vs[..n + 1]);
      if before.Some? then after == (if LeavesClock(cfg, vs, n) then before else None)
      else after.Some? ==> after.value == n
  {
    assert vs[..n + 1][..n] == vs[..n];
    ClockViewSome(cfg, vs[..n]);
    ClockViewSome(cfg, vs[..n + 1]);
    assert HwmRun(cfg, vs[..n + 1]) == HwmStep(cfg, HwmRun(cfg, vs[..n]), vs[n]);
  }

  lemma {:induction false} ClockViewSome(cfg: Config, vs: seq<View>)
    ensures ClockView(cfg, vs).Some? <==> HwmRun(cfg, vs).pending.Some?
  {
    if vs != [] { ClockViewSome(cfg, vs[..|vs| - 1]); }
  }

  lemma {:induction false} HwmClockBeforeDateIff(cfg: Config, vs: seq<View>, f: nat, n: nat)
    requires f <= n <= |vs|
    ensures var clock := ClockView(cfg, vs[..n]);
      (clock.Some? && clock.value < f) <==>
        (HwmRun(cfg, vs[..f]).pending.Some? && forall k :: f <= k < n ==> LeavesClock(cfg, vs, k))
    decreases n
  {
    if n == f {
      ClockViewSome(cfg, vs[..f]);
    } else {
      HwmClockBeforeDateIff(cfg, vs, f, n - 1);
      hide ClockView, HwmRun, LeavesClock;
      HwmClockMoves(cfg, vs, n - 1);
    }
  }

  /** The first of the two readings behind a high-water-mark exit is from an earlier day if and only if a clock was
      pending when the first view of the day came, and every view of the day judged before the exit was low and did
      not exit. */
  lemma HwmReadingsSpanDaysIff(cfg: Config, vs: seq<View>, f: nat, j: nat)
    requires j < |vs| && ViewsOfDate(vs, f, j + 1, vs[j].date) && HwmFiresAt(cfg, vs, j)
    ensures ClockView(cfg, vs[..j]).Some?
    ensures vs[ClockView(cfg, vs[..j]).value].date < vs[j].date <==>
      HwmRun(cfg, vs[..f]).pending.Some? && forall k :: f <= k < j ==> LeavesClock(cfg, vs, k)
  {
    HwmPendingIsLow(cfg, vs, j);
    HwmClockBeforeDateIff(cfg, vs, f, j);
  }

  /** A low reading in the last minute of one day, one before noon of the next, and one at noon. */
  const OVER_NIGHT := [
    View(1, 1439, 0, Some(82), Some(81), false, false),
    View(2, 0, 30, Some(82), Some(81), false, false),
    View(2, 720, 43230, Some(82), Some(81), false, false)]

  /** With an exit price above the arming price each arms and is low at once; they fire across the change of date. */
  lemma HwmReadingsMaySpanDays(cfg: Config)
    requires cfg.hwmArmPrice == 80 && cfg.hwmExitPrice == 85
    ensures HwmFiresAt(cfg, OVER_NIGHT, 2) && ViewsOfDate(OVER_NIGHT, 1, 3, 2)
    ensures ClockView(cfg, OVER_NIGHT[..2]) == Some(0)
  {
    var vs := OVER_NIGHT;
    assert vs[..1] == [vs[0]] && vs[..2] == [vs[0], vs[1]] && [vs[0], vs[1]][..1] == [vs[0]] && [vs[0]][..0] == [];
    assert HwmRun(cfg, []) == HwmState({}, None);
    assert HwmRun(cfg, [vs[0]]) == HwmStep(cfg, HwmState({}, None), vs[0]) == HwmState({1}, Some(0));
    assert HwmRun(cfg, vs[..2]) == HwmState({1}, Some(0));
  }

  // ------------------------------------------------------------------
  // One pass over one position
  // ------------------------------------------------------------------

  datatype TickerState = TickerState(checks: map<string, CheckState>, hwm: HwmState)

  datatype Exit = CheckpointExit(name: string) | HwmExit

  function CheckOf(checks: map<string, CheckState>, name: string): CheckState {
    if name in checks then checks[name] else CheckState(None, None)
  }

  /** The checkpoints in schedule order, up to and including the first that fires. */
  function Checkpoints(cfg: Config, checks: map<string, CheckState>, schedule: seq<Checkpoint>, v: View)
    : (r: (map<string, CheckState>, Option<Exit>))
    ensures r.1.Some? ==> r.1.value.CheckpointExit?
    decreases schedule
  {
    if schedule == [] then (checks, None)
    else
      var c := schedule[0];
      var st := CheckOf(checks, c.name);
      var next := checks[c.name := CheckStep(cfg, st, c, v)];
      if Fires(cfg, st, c, v) then (next, Some(CheckpointExit(c.name)))
      else Checkpoints(cfg, next, schedule[1..], v)
  }

  function PassSpec(cfg: Config, ts: TickerState, v: View): (TickerState, seq<Exit>) {
    var (checks, exit) := if cfg.intradayEnabled && !v.excluded then Checkpoints(cfg, ts.checks, cfg.schedule, v)
                          else (ts.checks, None);
    if exit.Some? then (TickerState(checks, ts.hwm), [exit.value])
    else if cfg.hwmEnabled && !v.excluded then
      (TickerState(checks, HwmStep(cfg, ts.hwm, v)), if HwmFires(cfg, ts.hwm, v) then [HwmExit] else [])
    else (TickerState(checks, ts.hwm), [])
  }

  ghost predicate DistinctNames(schedule: seq<Checkpoint>) {
    forall i, j :: 0 <= i < j < |schedule| ==> schedule[i].name != schedule[j].name
  }

  /** A checkpoint is reached when no earlier one in the schedule fired. */
  ghost predicate Reached(cfg: Config, checks: map<string, CheckState>, schedule: seq<Checkpoint>, v: View, i: nat)
    requires i < |schedule|
  {
    forall k :: 0 <= k < i ==> !Fires(cfg, CheckOf(checks, schedule[k].name), schedule[k], v)
  }

  /** In schedule order, every reached checkpoint takes exactly its own step, the others none, and the exit is that of
      the first one that fires. */
  lemma {:induction false} CheckpointsPointwise(cfg: Config, checks: map<string, CheckState>,
                                                schedule: seq<Checkpoint>, v: View, i: nat)
    requires DistinctNames(schedule) && i < |schedule|
    ensures var (after, exit) := Checkpoints(cfg, checks, schedule, v);
      var c := schedule[i]; var st := CheckOf(checks, c.name);
      && CheckOf(after, c.name) == (if Reached(cfg, checks, schedule, v, i) then CheckStep(cfg, st, c, v) else st)
      && (exit == Some(CheckpointExit(c.name)) <==> Reached(cfg, checks, schedule, v, i) && Fires(cfg, st, c, v))
    decreases schedule
  {
    var c := schedule[0];
    var next := checks[c.name := CheckStep(cfg, CheckOf(checks, c.name), c, v)];
    var rest := schedule[1..];
    if Fires(cfg, CheckOf(checks, c.name), c, v) {
    } else if i == 0 {
      Untouched(cfg, next, rest, v, c.name);
    } else {
      CheckpointsPointwise(cfg, next, rest, v, i - 1);
      assert forall k :: 0 <= k < |rest| ==>
          rest[k] == schedule[k + 1] && CheckOf(next, rest[k].name) == CheckOf(checks, rest[k].name);
      assert Reached(cfg, next, rest, v, i - 1) <==> Reached(cfg, checks, schedule, v, i) by {
        if Reached(cfg, next, rest, v, i - 1) {
          forall k | 0 <= k < i ensures !Fires(cfg, CheckOf(checks, schedule[k].name), schedule[k], v) {
            if k > 0 { assert rest[k - 1] == schedule[k]; }
          }
        }
      }
    }
  }

  lemma {:induction false} Untouched(cfg: Config, checks: map<string, CheckState>, schedule: seq<Checkpoint>, v: View,
                                     name: string)
    requires forall i :: 0 <= i < |schedule| ==> schedule[i].name != name
    ensures var (after, exit) := Checkpoints(cfg, checks, schedule, v);
      CheckOf(after, name) == CheckOf(checks, name) && exit != Some(CheckpointExit(name))
    decreases schedule
  {
    if schedule != [] {
      var c := schedule[0];
      Untouched(cfg, checks[c.name := CheckStep(cfg, CheckOf(checks, c.name), c, v)], schedule[1..], v, name);
    }
  }

  /** At most one exit per ticker and pass; the high-water-mark exit only when no checkpoint exited. */
  lemma OneExitPerPass(cfg: Config, ts: TickerState, v: View)
    ensures var exits := PassSpec(cfg, ts, v).1;
      && |exits| <= 1
      && (exits == [HwmExit] ==> HwmFires(cfg, ts.hwm, v))
      && (exits == [HwmExit] && cfg.intradayEnabled ==> Checkpoints(cfg, ts.checks, cfg.schedule, v).1.None?)
  {}

  // ------------------------------------------------------------------
  // Runs of passes
  // ------------------------------------------------------------------

  function TickerRun(cfg: Config, vs: seq<View>): TickerState {
    if vs == [] then TickerState(map[], HwmState({}, None))
    else PassSpec(cfg, TickerRun(cfg, vs[..|vs| - 1]), vs[|vs| - 1]).0
  }

  /** The exits the pass with view `p` makes. */
  function ExitsAt(cfg: Config, vs: seq<View>, p: nat): seq<Exit>
    requires p < |vs|
  {
    PassSpec(cfg, TickerRun(cfg, vs[..p]), vs[p]).1
  }

  /** The looks one pass takes at the checkpoints named `name`: those it comes to before a checkpoint fires. */
  function LooksIn(cfg: Config, checks: map<string, CheckState>, schedule: seq<Checkpoint>, v: View,
                   name: string): seq<Look>
    decreases schedule
  {
    if schedule == [] then []
    else
      var c := schedule[0]; var st := CheckOf(checks, c.name);
      (if c.name == name then [Look(c, v)] else [])
      + (if Fires(cfg, st, c, v) then []
         else LooksIn(cfg, checks[c.name := CheckStep(cfg, st, c, v)], schedule[1..], v, name))
  }

  function PassLooks(cfg: Config, ts: TickerState, v: View, name: string): seq<Look> {
    if cfg.intradayEnabled && !v.excluded then LooksIn(cfg, ts.checks, cfg.schedule, v, name) else []
  }

  /** All the looks a run of passes takes at one checkpoint. */
  function Trail(cfg: Config, vs: seq<View>, name: string): seq<Look> {
    if vs == [] then []
    else Trail(cfg, vs[..|vs| - 1], name) + PassLooks(cfg, TickerRun(cfg, vs[..|vs| - 1]), vs[|vs| - 1], name)
  }

  lemma {:induction false} CheckFromConcat(cfg: Config, st: CheckState, a: seq<Look>, b: seq<Look>)
    ensures CheckFrom(cfg, st, a + b) == CheckFrom(cfg, CheckFrom(cfg, st, a), b)
  {
    if b == [] {
      assert a + b == a;
    } else {
      assert (a + b)[..|a + b| - 1] == a + b[..|b| - 1];
      CheckFromConcat(cfg, st, a, b[..|b| - 1]);
    }
  }

  /** The last look of a list fires from a given state. */
  ghost predicate LastFires(cfg: Config, st: CheckState, ls: seq<Look>) {
    ls != [] && var n := |ls| - 1; Fires(cfg, CheckFrom(cfg, st, ls[..n]), ls[n].check, ls[n].view)
  }

  lemma LastFiresAfter(cfg: Config, st: CheckState, l: Look, ls: seq<Look>)
    requires ls != []
    ensures LastFires(cfg, st, [l] + ls) <==> LastFires(cfg, LookStep(cfg, st, l), ls)
  {
    var n := |ls| - 1;
    assert ([l] + ls)[..n + 1] == [l] + ls[..n];
    CheckFromConcat(cfg, st, [l], ls[..n]);
    assert [l][..0] == [];
  }

  /** One pass: the entry moves by exactly its looks, and the pass exits for the checkpoint exactly when the last of
      them fires. */
  lemma {:induction false} LooksMoveEntry(cfg: Config, checks: map<string, CheckState>, schedule: seq<Checkpoint>,
                                          v: View, name: string)
    ensures var (after, exit) := Checkpoints(cfg, checks, schedule, v);
      var ls := LooksIn(cfg, checks, schedule, v, name);
      && CheckOf(after, name) == CheckFrom(cfg, CheckOf(checks, name), ls)
      && (exit == Some(CheckpointExit(name)) <==> LastFires(cfg, CheckOf(checks, name), ls))
      && forall k :: 0 <= k < |ls| ==> ls[k].view == v && ls[k].check.name == name
    decreases schedule
  {
    if schedule != [] {
      var c := schedule[0]; var st := CheckOf(checks, c.name);
      var next := checks[c.name := CheckStep(cfg, st, c, v)];
      var rest := LooksIn(cfg, next, schedule[1..], v, name);
      LooksMoveEntry(cfg, next, schedule[1..], v, name);
      var ls := LooksIn(cfg, checks, schedule, v, name);
      assert ls == (if c.name == name then [Look(c, v)] else []) + (if Fires(cfg, st, c, v) then [] else rest);
      hide LooksIn, CheckStep, Fires, CheckFrom, LastFires;
      NoLook(cfg, CheckOf(checks, name));
      if c.name == name {
        OneLook(cfg, st, Look(c, v));
        NoLook(cfg, LookStep(cfg, st, Look(c, v)));
        if Fires(cfg, st, c, v) || rest == [] {
          assert ls == [Look(c, v)];
        } else {
          LastFiresAfter(cfg, st, Look(c, v), rest);
          CheckFromConcat(cfg, st, [Look(c, v)], rest);
        }
      } else if Fires(cfg, st, c, v) {
        assert ls == [];
      } else {
        assert ls == rest && CheckOf(next, name) == CheckOf(checks, name);
      }
    } else {
      NoLook(cfg, CheckOf(checks, name));
    }
  }

  lemma NoLook(cfg: Config, st: CheckState)
    ensures CheckFrom(cfg, st, []) == st && !LastFires(cfg, st, [])
  {}

  lemma OneLook(cfg: Config, st: CheckState, l: Look)
    ensures CheckFrom(cfg, st, [l]) == LookStep(cfg, st, l)
      && (LastFires(cfg, st, [l]) <==> Fires(cfg, st, l.check, l.view))
  {
    assert [l][..0] == [];
  }

  lemma PassExit(cfg: Config, ts: TickerState, v: View, name: string)
    ensures CheckpointExit(name) in PassSpec(cfg, ts, v).1 <==>
            cfg.intradayEnabled && !v.excluded
                && Checkpoints(cfg, ts.checks, cfg.schedule, v).1 == Some(CheckpointExit(name))
  {
    hide Checkpoints, HwmFires, HwmStep;
  }

  lemma PassMoves(cfg: Config, ts: TickerState, v: View, name: string)
    ensures var after := PassSpec(cfg, ts, v).0;
      && CheckOf(after.checks, name) == CheckFrom(cfg, CheckOf(ts.checks, name), PassLooks(cfg, ts, v, name))
      && after.hwm == (if ReachesHwm(cfg, ts, v) then HwmStep(cfg, ts.hwm, v) else ts.hwm)
      && (HwmExit in PassSpec(cfg, ts, v).1 <==> ReachesHwm(cfg, ts, v) && HwmFires(cfg, ts.hwm, v))
    ensures forall l: Look :: l in PassLooks(cfg, ts, v, name) ==> l.view == v && l.check.name == name
  {
    LooksMoveEntry(cfg, ts.checks, cfg.schedule, v, name);
    hide Checkpoints, LooksIn, HwmFires, HwmStep;
  }

  /** Over any run of passes, whatever fires and cuts a pass short, each entry is the automaton run on the looks the
      passes took at its checkpoint. */
  lemma {:induction false} EntryIsItsTrail(cfg: Config, vs: seq<View>, name: string)
    ensures CheckOf(TickerRun(cfg, vs).checks, name) == CheckRun(cfg, Trail(cfg, vs, name))
  {
    if vs != [] {
      var before, v := vs[..|vs| - 1], vs[|vs| - 1];
      var ts := TickerRun(cfg, before);
      EntryIsItsTrail(cfg, before, name);
      PassMoves(cfg, ts, v, name);
      CheckFromConcat(cfg, CheckState(None, None), Trail(cfg, before, name), PassLooks(cfg, ts, v, name));
      hide PassSpec, PassLooks, CheckFrom;
    }
  }

  /** A pass exits for a checkpoint if and only if it took a look at it and the last one fired. */
  lemma CheckpointExitIff(cfg: Config, vs: seq<View>, p: nat, name: string)
    requires p < |vs|
    ensures var before, trail := Trail(cfg, vs[..p], name), Trail(cfg, vs[..p + 1], name);
      && before <= trail
      && (CheckpointExit(name) in ExitsAt(cfg, vs, p) <==> |before| < |trail| && FiresAt(cfg, trail, |trail| - 1))
      && forall k :: |before| <= k < |trail| ==> trail[k].view == vs[p] && trail[k].check.name == name
  {
    var ts := TickerRun(cfg, vs[..p]);
    var before, looks := Trail(cfg, vs[..p], name), PassLooks(cfg, ts, vs[p], name);
    TrailGrows(cfg, vs, p, name);
    assert CheckpointExit(name) in ExitsAt(cfg, vs, p) <==> LastFires(cfg, CheckRun(cfg, before), looks) by {
      LooksFire(cfg, vs, p, name);
    }
    hide *;
    PassMoves(cfg, ts, vs[p], name);
    if looks != [] { FiresAtEnd(cfg, before, looks); } else { NoLook(cfg, CheckRun(cfg, before)); }
    forall k | |before| <= k < |before + looks|
      ensures (before + looks)[k].view == vs[p] && (before + looks)[k].check.name == name
    {
      assert (before + looks)[k] in looks;
    }
  }

  lemma TrailGrows(cfg: Config, vs: seq<View>, p: nat, name: string)
    requires p < |vs|
    ensures Trail(cfg, vs[..p + 1], name) == Trail(cfg, vs[..p], name)
      + PassLooks(cfg, TickerRun(cfg, vs[..p]), vs[p], name)
  {
    assert vs[..p + 1][..p] == vs[..p];
    hide PassSpec, PassLooks;
  }

  lemma LooksFire(cfg: Config, vs: seq<View>, p: nat, name: string)
    requires p < |vs|
    ensures CheckpointExit(name) in ExitsAt(cfg, vs, p) <==>
            LastFires(cfg, CheckRun(cfg, Trail(cfg, vs[..p], name)),
                      PassLooks(cfg, TickerRun(cfg, vs[..p]), vs[p], name))
  {
    hide PassSpec, Checkpoints, LooksIn, Trail, TickerRun, CheckFrom, LastFires;
    var ts := TickerRun(cfg, vs[..p]);
    EntryIsItsTrail(cfg, vs[..p], name);
    LooksMoveEntry(cfg, ts.checks, cfg.schedule, vs[p], name);
    PassExit(cfg, ts, vs[p], name);
    NoLook(cfg, CheckOf(ts.checks, name));
  }

  lemma FiresAtEnd(cfg: Config, before: seq<Look>, looks: seq<Look>)
    requires looks != []
    ensures FiresAt(cfg, before + looks, |before + looks| - 1) <==> LastFires(cfg, CheckRun(cfg, before), looks)
  {
    var n := |looks| - 1;
    assert (before + looks)[..|before| + n] == before + looks[..n];
    CheckFromConcat(cfg, CheckState(None, None), before, looks[..n]);
    hide CheckFrom, Fires;
  }

  lemma {:induction false} TrailPrefix(cfg: Config, vs: seq<View>, p: nat, q: nat, name: string)
    requires p <= q <= |vs|
    ensures Trail(cfg, vs[..p], name) <= Trail(cfg, vs[..q], name)
    decreases q
  {
    if p < q {
      TrailPrefix(cfg, vs, p, q - 1, name);
      assert vs[..q][..q - 1] == vs[..q - 1];
    }
  }

  lemma {:induction false} TrailAscends(cfg: Config, vs: seq<View>, name: string)
    requires DatesAscend(vs)
    ensures var trail := Trail(cfg, vs, name);
      LooksAscend(trail) && forall k :: 0 <= k < |trail| ==> trail[k].view in vs
  {
    if vs != [] {
      var before, v := vs[..|vs| - 1], vs[|vs| - 1];
      TrailAscends(cfg, before, name);
      var ts := TickerRun(cfg, before);
      PassMoves(cfg, ts, v, name);
      var earlier: seq<Look>, looks: seq<Look> := Trail(cfg, before, name), PassLooks(cfg, ts, v, name);
      assert Trail(cfg, vs, name) == earlier + looks;
      hide Trail, PassLooks, PassSpec, TickerRun, CheckFrom;
      forall k | 0 <= k < |earlier + looks| ensures (earlier + looks)[k].view in vs {
        if k < |earlier| { assert earlier[k].view in before; } else { assert (earlier + looks)[k] in looks; }
      }
      forall a, b | 0 <= a < b < |earlier + looks|
        ensures (earlier + looks)[a].view.date <= (earlier + looks)[b].view.date
      {
        if b >= |earlier| {
          assert (earlier + looks)[b] in looks;
          assert (earlier + looks)[a].view in vs;
        }
      }
    }
  }

  lemma PrefixFires(cfg: Config, ls: seq<Look>, more: seq<Look>, j: nat)
    requires j < |ls| && ls <= more
    ensures FiresAt(cfg, ls, j) <==> FiresAt(cfg, more, j)
  {
    assert ls[..j] == more[..j];
  }

  lemma PrefixAscends(vs: seq<View>, n: nat)
    requires DatesAscend(vs) && n <= |vs|
    ensures DatesAscend(vs[..n])
  {}

  lemma FiringsApart(cfg: Config, first: seq<Look>, middle: seq<Look>, trail: seq<Look>)
    requires first <= middle <= trail && |middle| < |trail| && LooksAscend(trail)
    requires first != [] && FiresAt(cfg, first, |first| - 1) && FiresAt(cfg, trail, |trail| - 1)
    ensures first[|first| - 1].view.date < trail[|trail| - 1].view.date
  {
    hide *;
    assert first <= trail;
    PrefixFires(cfg, first, trail, |first| - 1);
    CheckpointFiresOncePerDate(cfg, trail, |first| - 1, |trail| - 1);
  }

  /** Over any run of passes, a ticker exits for a checkpoint at most once per local date. */
  lemma CheckpointExitsOncePerDate(cfg: Config, vs: seq<View>, p: nat, q: nat, name: string)
    requires p < q < |vs| && DatesAscend(vs)
    requires CheckpointExit(name) in ExitsAt(cfg, vs, p) && CheckpointExit(name) in ExitsAt(cfg, vs, q)
    ensures vs[p].date < vs[q].date
  {
    hide *;
    PrefixAscends(vs, q + 1);
    CheckpointExitIff(cfg, vs, p, name);
    CheckpointExitIff(cfg, vs, q, name);
    TrailPrefix(cfg, vs, p + 1, q, name);
    TrailAscends(cfg, vs[..q + 1], name);
    FiringsApart(cfg, Trail(cfg, vs[..p + 1], name), Trail(cfg, vs[..q], name), Trail(cfg, vs[..q + 1], name));
  }

  /** An exit a pass makes for a checkpoint is the second of two low readings of it, at least a minute apart, with no
      evaluation in between that was not low. */
  lemma CheckpointExitIsConfirmed(cfg: Config, vs: seq<View>, p: nat, name: string)
    requires p < |vs| && CheckpointExit(name) in ExitsAt(cfg, vs, p)
    ensures var trail := Trail(cfg, vs[..p + 1], name);
      && trail != [] && trail[|trail| - 1].view == vs[p] && LowLook(cfg, trail[|trail| - 1]) && !vs[p].inGrace
      && exists i: nat :: LowSince(cfg, trail, i, |trail| - 1) && vs[p].mono - trail[i].view.mono >= CONFIRM_SECONDS
  {
    hide *;
    var trail := Trail(cfg, vs[..p + 1], name);
    CheckpointExitIff(cfg, vs, p, name);
    CheckpointNeedsTwoReadings(cfg, trail, |trail| - 1);
  }

  /** The views of the passes that come to the high-water-mark block. */
  function HwmTrail(cfg: Config, vs: seq<View>): seq<View> {
    if vs == [] then []
    else
      var before, v := vs[..|vs| - 1], vs[|vs| - 1];
      HwmTrail(cfg, before) + (if ReachesHwm(cfg, TickerRun(cfg, before), v) then [v] else [])
  }

  predicate ReachesHwm(cfg: Config, ts: TickerState, v: View) {
    && cfg.hwmEnabled && !v.excluded
    && (cfg.intradayEnabled ==> Checkpoints(cfg, ts.checks, cfg.schedule, v).1.None?)
  }

  lemma {:induction false} HwmIsItsTrail(cfg: Config, vs: seq<View>)
    ensures TickerRun(cfg, vs).hwm == HwmRun(cfg, HwmTrail(cfg, vs))
  {
    if vs != [] {
      var before, v := vs[..|vs| - 1], vs[|vs| - 1];
      HwmIsItsTrail(cfg, before);
      PassMoves(cfg, TickerRun(cfg, before), v, "");
      hide PassSpec, ReachesHwm, HwmStep;
      var trail := HwmTrail(cfg, before);
      assert (trail + [v])[..|trail|] == trail;
      if !ReachesHwm(cfg, TickerRun(cfg, before), v) { assert HwmTrail(cfg, vs) == trail; }
    }
  }

  /** A pass exits at the high-water mark exactly when it comes to that block and fires there. */
  lemma HwmExitIff(cfg: Config, vs: seq<View>, p: nat)
    requires p < |vs|
    ensures var before, trail := HwmTrail(cfg, vs[..p]), HwmTrail(cfg, vs[..p + 1]);
      && (trail == before || trail == before + [vs[p]])
      && (HwmExit in ExitsAt(cfg, vs, p) <==> trail == before + [vs[p]] && HwmFiresAt(cfg, trail, |before|))
  {
    var ts := TickerRun(cfg, vs[..p]);
    var before := HwmTrail(cfg, vs[..p]);
    assert vs[..p + 1][..p] == vs[..p];
    PassMoves(cfg, ts, vs[p], "");
    HwmIsItsTrail(cfg, vs[..p]);
    hide PassSpec, TickerRun, ReachesHwm, HwmFires, HwmRun;
    assert (before + [vs[p]])[..|before|] == before;
  }

  /** Over any run of passes, a high-water-mark exit needs, among the passes that came to its block, an arming view of
      the same date at or after noon and a judged low reading at least a minute old with no judged recovery since. */
  lemma HwmExitIsArmedAndConfirmed(cfg: Config, vs: seq<View>, p: nat)
    requires p < |vs| && HwmExit in ExitsAt(cfg, vs, p)
    ensures var trail := HwmTrail(cfg, vs[..p + 1]);
      && trail != [] && trail[|trail| - 1] == vs[p]
      && (exists a: nat :: a < |trail| && Arms(cfg, trail[a]) && trail[a].date == vs[p].date)
      && exists i: nat :: HwmLowSince(cfg, trail, i, |trail| - 1) && vs[p].mono - trail[i].mono >= CONFIRM_SECONDS
  {
    hide *;
    HwmExitIff(cfg, vs, p);
    var trail := HwmTrail(cfg, vs[..p + 1]);
    HwmNeedsArmingAndTwoReadings(cfg, trail, |trail| - 1);
    var a: nat :| a < |trail| && Arms(cfg, trail[a]) && trail[a].date == vs[p].date;
  }

  /** Over any run of passes, the first reading behind a high-water-mark exit is from an earlier day if and only if a
      clock was pending when the first pass of the day came to the block, and every view judged there since was low
      and did not exit. */
  lemma HwmExitSpansDaysIff(cfg: Config, vs: seq<View>, p: nat, f: nat)
    requires p < |vs| && HwmExit in ExitsAt(cfg, vs, p)
    requires ViewsOfDate(HwmTrail(cfg, vs[..p + 1]), f, |HwmTrail(cfg, vs[..p + 1])|, vs[p].date)
    ensures var trail := HwmTrail(cfg, vs[..p + 1]); var j := |trail| - 1;
      && trail != [] && ClockView(cfg, trail[..j]).Some?
      && (trail[ClockView(cfg, trail[..j]).value].date < vs[p].date <==>
            HwmRun(cfg, trail[..f]).pending.Some? && forall k :: f <= k < j ==> LeavesClock(cfg, trail, k))
  {
    hide *;
    HwmExitIff(cfg, vs, p);
    var trail := HwmTrail(cfg, vs[..p + 1]);
    HwmReadingsSpanDaysIff(cfg, trail, f, |trail| - 1);
  }

  /** With the exit price under the arming price that never happens. */
  lemma HwmExitSharesTheDate(cfg: Config, vs: seq<View>, p: nat)
    requires p < |vs| && HwmExit in ExitsAt(cfg, vs, p) && DatesAscend(vs)
    requires cfg.hwmExitPrice < cfg.hwmArmPrice
    ensures var trail := HwmTrail(cfg, vs[..p + 1]); var j := |trail| - 1;
      && trail != [] && ClockView(cfg, trail[..j]).Some?
      && trail[ClockView(cfg, trail[..j]).value].date == vs[p].date
  {
    hide *;
    HwmExitIff(cfg, vs, p);
    HwmTrailAscends(cfg, vs, p + 1);
    var trail := HwmTrail(cfg, vs[..p + 1]); var j := |trail| - 1;
    HwmPending(cfg, trail, j);
    HwmReadingsShareTheDate(cfg, trail, ClockView(cfg, trail[..j]).value, j);
  }

  lemma HwmPending(cfg: Config, vs: seq<View>, j: nat)
    requires j < |vs| && HwmFiresAt(cfg, vs, j)
    ensures ClockView(cfg, vs[..j]).Some? && HwmLowSince(cfg, vs, ClockView(cfg, vs[..j]).value, j)
  {
    HwmPendingIsLow(cfg, vs, j);
  }

  lemma {:induction false} HwmTrailAscends(cfg: Config, vs: seq<View>, n: nat)
    requires DatesAscend(vs) && n <= |vs|
    ensures var trail := HwmTrail(cfg, vs[..n]);
      DatesAscend(trail) && forall k :: 0 <= k < |trail| ==> n > 0 && trail[k].date <= vs[n - 1].date
    decreases n
  {
    if n > 0 {
      HwmTrailAscends(cfg, vs, n - 1);
      assert vs[..n][..n - 1] == vs[..n - 1];
      assert n > 1 ==> vs[n - 2].date <= vs[n - 1].date;
      hide ReachesHwm, TickerRun;
    }
  }

  /** The dictionaries of the strategy object that the exit loop keeps. */
  class ExitMonitor {
    const cfg: Config
    var evalDates: map<(Ticker, string), Date>
    var pending: map<(Ticker, string), int>
    var hwmArmed: map<(Ticker, Date), bool>
    var hwmPending: map<Ticker, int>

    constructor (cfg: Config)
      ensures this.cfg == cfg && evalDates == map[] && pending == map[] && hwmArmed == map[] && hwmPending == map[]
    {
      this.cfg := cfg;
      evalDates, pending, hwmArmed, hwmPending := map[], map[], map[], map[];
    }

    /** What the dictionaries say about one checkpoint of one ticker. */
    function Check(t: Ticker, name: string): CheckState
      reads this`evalDates, this`pending
    {
      CheckState(if (t, name) in evalDates then Some(evalDates[(t, name)]) else None,
                 if (t, name) in pending then Some(pending[(t, name)]) else None)
    }

    function Hwm(t: Ticker): HwmState
      reads this`hwmArmed, this`hwmPending
    {
      HwmState(set k | k in hwmArmed && k.0 == t && hwmArmed[k] :: k.1,
               if t in hwmPending then Some(hwmPending[t]) else None)
    }

    /** One checkpoint: its own automaton takes a step, every other entry is left alone. */
    method EvaluateCheckpoint(t: Ticker, c: Checkpoint, v: View) returns (fired: bool)
      modifies this`evalDates, this`pending
      ensures fired <==> Fires(cfg, old(Check(t, c.name)), c, v)
      ensures Check(t, c.name) == CheckStep(cfg, old(Check(t, c.name)), c, v)
      ensures forall u, n :: (u, n) != (t, c.name) ==> Check(u, n) == old(Check(u, n))
    {
      var key := (t, c.name);
      fired := false;
      if key in evalDates && evalDates[key] == v.date {
        return;
      }
      if c.minute.None? || v.minute < c.minute.value {
        return;
      }
      if !(v.ask.Some? && v.ask.value < c.threshold) {
        evalDates := evalDates[key := v.date];
        pending := pending - {key};
        return;
      }
      if cfg.spreadLimit > 0 && v.bid.Some? && v.ask.value - v.bid.value > cfg.spreadLimit {
        pending := pending - {key};
        return;
      }
      if v.inGrace {
        evalDates := evalDates[key := v.date];
        return;
      }
      if key !in pending {
        pending := pending[key := v.mono];
        return;
      }
      if v.mono - pending[key] < CONFIRM_SECONDS {
        return;
      }
      evalDates := evalDates[key := v.date];
      pending := pending - {key};
      fired := true;
    }

    /** The high-water-mark block. */
    method EvaluateHwm(t: Ticker, v: View) returns (fired: bool)
      modifies this`hwmArmed, this`hwmPending
      ensures fired <==> HwmFires(cfg, old(Hwm(t)), v)
      ensures Hwm(t) == HwmStep(cfg, old(Hwm(t)), v)
      ensures forall u :: u != t ==> Hwm(u) == old(Hwm(u))
    {
      fired := false;
      var key := (t, v.date);
      ghost var before := Hwm(t);
      if v.minute >= NOON && v.ask.Some? && v.ask.value >= cfg.hwmArmPrice {
        if !(key in hwmArmed && hwmArmed[key]) {
          hwmArmed := hwmArmed[key := true];
        }
      }
      assert Hwm(t).armed == ArmedAfter(cfg, before, v);
      assert key in hwmArmed && hwmArmed[key] <==> v.date in Hwm(t).armed;
      if key in hwmArmed && hwmArmed[key] {
        if v.ask.Some? && v.ask.value <= cfg.hwmExitPrice && !v.inGrace {
          if t !in hwmPending {
            hwmPending := hwmPending[t := v.mono];
          } else if v.mono - hwmPending[t] >= CONFIRM_SECONDS {
            ghost var armed := Hwm(t).armed;
            hwmPending := hwmPending - {t};
            hwmArmed := hwmArmed[key := false];
            fired := true;
            assert Hwm(t).armed == armed - {v.date};
          }
        } else {
          hwmPending := hwmPending - {t};
        }
      }
    }

    /** One position in one pass. */
    method EvaluatePosition(t: Ticker, v: View, ghost ts: TickerState)
        returns (exits: seq<Exit>, ghost ts': TickerState)
      requires forall n :: CheckOf(ts.checks, n) == Check(t, n)
      requires ts.hwm == Hwm(t)
      modifies this
      ensures (ts', exits) == PassSpec(cfg, ts, v)
      ensures ts'.hwm == Hwm(t) && forall n :: CheckOf(ts'.checks, n) == Check(t, n)
      ensures forall u, n :: u != t ==> Check(u, n) == old(Check(u, n))
      ensures forall u :: u != t ==> Hwm(u) == old(Hwm(u))
    {
      exits := [];
      ghost var checks := ts.checks;
      var exited := false;
      ghost var exit: Option<Exit> := None;
      if cfg.intradayEnabled && !v.excluded {
        var i := 0;
        while i < |cfg.schedule| && !exited
          invariant 0 <= i <= |cfg.schedule|
          invariant forall n :: CheckOf(checks, n) == Check(t, n)
          invariant exited <==> exit.Some?
          invariant exits == if exit.Some? then [exit.value] else []
          invariant Checkpoints(cfg, ts.checks, cfg.schedule, v) ==
                    if exit.Some? then (checks, exit) else Checkpoints(cfg, checks, cfg.schedule[i..], v)
          invariant ts.hwm == Hwm(t)
          invariant forall u, n :: u != t ==> Check(u, n) == old(Check(u, n))
          invariant forall u :: Hwm(u) == old(Hwm(u))
        {
          var c := cfg.schedule[i];
          assert cfg.schedule[i..][0] == c && cfg.schedule[i..][1..] == cfg.schedule[i + 1..];
          var fired := EvaluateCheckpoint(t, c, v);
          checks := checks[c.name := CheckStep(cfg, CheckOf(checks, c.name), c, v)];
          if fired {
            exits := [CheckpointExit(c.name)];
            exit := Some(CheckpointExit(c.name));
            exited := true;
          }
          i := i + 1;
        }
      }
      ts' := TickerState(checks, ts.hwm);
      if cfg.hwmEnabled && !v.excluded && !exited {
        var fired := EvaluateHwm(t, v);
        ts' := TickerState(checks, HwmStep(cfg, ts.hwm, v));
        if fired {
          exits := [HwmExit];
        }
      }
    }

    /** One position watched over any number of passes, from a monitor that knows nothing of it. */
    method WatchPosition(t: Ticker, vs: seq<View>) returns (exits: seq<seq<Exit>>)
      requires forall n :: Check(t, n) == CheckState(None, None)
      requires Hwm(t) == HwmState({}, None)
      modifies this
      ensures |exits| == |vs| && forall p :: 0 <= p < |vs| ==> exits[p] == ExitsAt(cfg, vs, p)
      ensures forall n :: Check(t, n) == CheckRun(cfg, Trail(cfg, vs, n))
      ensures Hwm(t) == HwmRun(cfg, HwmTrail(cfg, vs))
    {
      exits := [];
      ghost var ts := TickerRun(cfg, []);
      for p := 0 to |vs|
        invariant ts == TickerRun(cfg, vs[..p]) && ts.hwm == Hwm(t) && forall n :: CheckOf(ts.checks, n) == Check(t, n)
        invariant |exits| == p && forall q :: 0 <= q < p ==> exits[q] == ExitsAt(cfg, vs, q)
      {
        assert vs[..p + 1][..p] == vs[..p];
        var made, next := EvaluatePosition(t, vs[p], ts);
        exits := exits + [made];
        ts := next;
      }
      assert vs[..|vs|] == vs;
      HwmIsItsTrail(cfg, vs);
      forall n ensures Check(t, n) == CheckRun(cfg, Trail(cfg, vs, n)) { EntryIsItsTrail(cfg, vs, n); }
    }
  }
}
