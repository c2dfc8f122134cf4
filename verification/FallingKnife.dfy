/** The falling-knife guard: two consecutive ticks above the ceiling close entries until something clears the guard. */
module FallingKnife {
  import opened Common

  datatype Config = Config(ceiling: int, decayMinutes: int)

  /** What the guard hears: a price tick with the buy trigger in force, or the entry window opening. */
  datatype Event = Tick(price: int, buyTrigger: Option<int>, now: int) | WindowReset

  datatype State = State(guard: bool, pending: bool, lastAbove: Option<int>)

  const RESET := State(false, false, None)

  predicate BelowTrigger(e: Event) { e.Tick? && e.buyTrigger.Some? && e.price < e.buyTrigger.value }

  predicate Above(cfg: Config, e: Event) { e.Tick? && !BelowTrigger(e) && e.price > cfg.ceiling }

  predicate InBand(cfg: Config, e: Event) { e.Tick? && !BelowTrigger(e) && e.price <= cfg.ceiling }

  predicate Decayed(cfg: Config, lastAbove: Option<int>, e: Event) {
    e.Tick? && cfg.decayMinutes > 0 && lastAbove.Some? && e.now - lastAbove.value > cfg.decayMinutes * 60
  }

  function Step(cfg: Config, s: State, e: Event): State {
    if e.WindowReset? || BelowTrigger(e) then RESET
    else if Above(cfg, e) then State(s.guard || s.pending, true, Some(e.now))
    else if s.guard && Decayed(cfg, s.lastAbove, e) then RESET
    else s.(pending := false)
  }

  function Run(cfg: Config, h: seq<Event>): State {
    if h == [] then RESET else Step(cfg, Run(cfg, h[..|h| - 1]), h[|h| - 1])
  }

  // ------------------------------------------------------------------
  // The guard as a statement about the history
  // ------------------------------------------------------------------

  /** The time of the last tick above the ceiling, whatever happened since. */
  function LastAbove(cfg: Config, h: seq<Event>): Option<int> {
    if h == [] then None
    else if Above(cfg, h[|h| - 1]) then Some(h[|h| - 1].now)
    else LastAbove(cfg, h[..|h| - 1])
  }

  /** Event `j` clears the guard: a window reset, a tick below the trigger, or a tick in band more than the decay time
      after the last one above the ceiling. */
  predicate Clears(cfg: Config, h: seq<Event>, j: nat)
    requires j < |h|
  {
    || h[j].WindowReset? || BelowTrigger(h[j])
    || (InBand(cfg, h[j]) && Decayed(cfg, LastAbove(cfg, h[..j]), h[j]))
  }

  /** Two consecutive ticks above the ceiling at `i`, and nothing since that clears. */
  ghost predicate Tripped(cfg: Config, h: seq<Event>, i: nat) {
    && i + 1 < |h| && Above(cfg, h[i]) && Above(cfg, h[i + 1])
    && forall j :: i + 1 < j < |h| ==> !Clears(cfg, h, j)
  }

  ghost predicate GuardSpec(cfg: Config, h: seq<Event>) { exists i: nat :: Tripped(cfg, h, i) }

  lemma PrefixClears(cfg: Config, h: seq<Event>, n: nat, j: nat)
    requires j < n <= |h|
    ensures Clears(cfg, h[..n], j) <==> Clears(cfg, h, j)
  {
    assert h[..n][..j] == h[..j];
  }

  /** Once tripped, the state remembers exactly the last tick above the ceiling. */
  lemma {:induction false} GuardRemembersLastAbove(cfg: Config, h: seq<Event>)
    ensures Run(cfg, h).guard || Run(cfg, h).pending ==> Run(cfg, h).lastAbove == LastAbove(cfg, h)
    ensures Run(cfg, h).pending <==> h != [] && Above(cfg, h[|h| - 1])
  {
    if h != [] { GuardRemembersLastAbove(cfg, h[..|h| - 1]); }
  }

  lemma SpecExtends(cfg: Config, h: seq<Event>, e: Event)
    ensures GuardSpec(cfg, h + [e]) <==>
            || (GuardSpec(cfg, h) && !Clears(cfg, h + [e], |h|))
            || (h != [] && Above(cfg, h[|h| - 1]) && Above(cfg, e))
  {
    var longer := h + [e];
    assert longer[..|h|] == h;
    forall j: nat | j < |h| ensures Clears(cfg, h, j) <==> Clears(cfg, longer, j) { PrefixClears(cfg, longer, |h|, j); }
    if GuardSpec(cfg, longer) {
      var i: nat :| Tripped(cfg, longer, i);
      if i + 1 < |h| { assert Tripped(cfg, h, i); }
    }
    if GuardSpec(cfg, h) && !Clears(cfg, longer, |h|) {
      var i: nat :| Tripped(cfg, h, i);
      assert Tripped(cfg, longer, i);
    }
    if h != [] && Above(cfg, h[|h| - 1]) && Above(cfg, e) {
      assert Tripped(cfg, longer, |h| - 1);
    }
  }

  /** After any history the guard is set if and only if two consecutive ticks were above the ceiling with no clearing
      event since. */
  lemma {:induction false} GuardIsTraceSpec(cfg: Config, h: seq<Event>)
    ensures Run(cfg, h).guard <==> GuardSpec(cfg, h)
  {
    if h != [] {
      var before, e := h[..|h| - 1], h[|h| - 1];
      assert before + [e] == h && h[..|before|] == before;
      GuardIsTraceSpec(cfg, before);
      GuardRemembersLastAbove(cfg, before);
      SpecExtends(cfg, before, e);
    }
  }

  /** The event is a tick over the ceiling that is not under the buy trigger. */
  predicate TicksAbove(cfg: Config, e: Event) {
    e.Tick? && cfg.ceiling < e.price && (e.buyTrigger.None? || e.buyTrigger.value <= e.price)
  }

  /** Event `k` is the last such tick before `n`. */
  ghost predicate LastTick(cfg: Config, h: seq<Event>, n: int, k: int) {
    0 <= k < n <= |h| && TicksAbove(cfg, h[k]) && forall m :: k < m < n ==> !TicksAbove(cfg, h[m])
  }

  /** The event is a window reset or a tick under the buy trigger; or a tick at the ceiling or under it, with a decay
      time set, when the last tick above the ceiling is longer ago than that. */
  ghost predicate ClearsAt(cfg: Config, h: seq<Event>, j: nat)
    requires j < |h|
  {
    var e := h[j];
    || e.WindowReset?
    || (e.buyTrigger.Some? && e.price < e.buyTrigger.value)
    || (&& e.price <= cfg.ceiling && 0 < cfg.decayMinutes
        && exists k :: LastTick(cfg, h, j, k) && h[k].now + 60 * cfg.decayMinutes < e.now)
  }

  lemma AboveIff(cfg: Config, e: Event)
    ensures Above(cfg, e) <==> TicksAbove(cfg, e)
  {}

  lemma {:induction false} LastAboveIs(cfg: Config, h: seq<Event>, n: nat) returns (k: int)
    requires n <= |h|
    ensures if LastAbove(cfg, h[..n]).Some? then LastTick(cfg, h, n, k) && h[k].now == LastAbove(cfg, h[..n]).value
            else forall m :: 0 <= m < n ==> !TicksAbove(cfg, h[m])
    decreases n
  {
    k := -1;
    if n > 0 {
      AboveIff(cfg, h[n - 1]);
      assert h[..n][..n - 1] == h[..n - 1];
      if TicksAbove(cfg, h[n - 1]) { k := n - 1; } else { k := LastAboveIs(cfg, h, n - 1); }
    }
  }

  lemma ClearsIff(cfg: Config, h: seq<Event>, j: nat)
    requires j < |h|
    ensures Clears(cfg, h, j) <==> ClearsAt(cfg, h, j)
  {
    var k := LastAboveIs(cfg, h, j);
    hide LastAbove;
    if n :| LastTick(cfg, h, j, n) { assert n == k; }
  }

  ghost predicate TrippedAt(cfg: Config, h: seq<Event>, i: nat) {
    && i + 1 < |h| && TicksAbove(cfg, h[i]) && TicksAbove(cfg, h[i + 1])
    && forall j :: i + 1 < j < |h| ==> !ClearsAt(cfg, h, j)
  }

  /** The guard is set exactly when two ticks in a row went over the ceiling and nothing after the second cleared it. */
  lemma GuardIff(cfg: Config, h: seq<Event>)
    ensures Run(cfg, h).guard <==> exists i: nat :: TrippedAt(cfg, h, i)
  {
    GuardIsTraceSpec(cfg, h);
    forall i: nat ensures Tripped(cfg, h, i) <==> TrippedAt(cfg, h, i) { TrippedIff(cfg, h, i); }
    hide Tripped, TrippedAt, Run;
  }

  lemma TrippedIff(cfg: Config, h: seq<Event>, i: nat)
    ensures Tripped(cfg, h, i) <==> TrippedAt(cfg, h, i)
  {
    hide Clears, ClearsAt, Above, TicksAbove;
    if i + 1 < |h| {
      AboveIff(cfg, h[i]);
      AboveIff(cfg, h[i + 1]);
    }
    forall j: nat | j < |h| ensures Clears(cfg, h, j) <==> ClearsAt(cfg, h, j) { ClearsIff(cfg, h, j); }
  }

  // ------------------------------------------------------------------
  // The bracket's fields
  // ------------------------------------------------------------------

  class MarketBracket {
    var fallingKnifeGuard: bool
    var pendingKnifeTick: bool
    var lastAboveCeilingAt: Option<int>
    ghost var history: seq<Event>

    ghost predicate Valid(cfg: Config)
      reads this
    {
      State(fallingKnifeGuard, pendingKnifeTick, lastAboveCeilingAt) == Run(cfg, history)
    }

    constructor (ghost cfg: Config)
      ensures Valid(cfg) && history == []
    {
      fallingKnifeGuard, pendingKnifeTick, lastAboveCeilingAt, history := false, false, None, [];
    }

    method ClearFields()
      modifies this`fallingKnifeGuard, this`pendingKnifeTick, this`lastAboveCeilingAt
      ensures State(fallingKnifeGuard, pendingKnifeTick, lastAboveCeilingAt) == RESET
    {
      fallingKnifeGuard, pendingKnifeTick, lastAboveCeilingAt := false, false, None;
    }

    /** The entry window opened after having been closed. */
    method ResetForWindow(ghost cfg: Config)
      requires Valid(cfg)
      modifies this
      ensures Valid(cfg) && history == old(history) + [WindowReset] && !fallingKnifeGuard
    {
      ClearFields();
      history := history + [WindowReset];
      assert history[..|history| - 1] == old(history);
    }

    method UpdateFallingKnifeGuard(cfg: Config, price: int, buyTrigger: Option<int>, now: int)
      requires Valid(cfg)
      modifies this
      ensures Valid(cfg) && history == old(history) + [Tick(price, buyTrigger, now)]
      ensures fallingKnifeGuard <==> GuardSpec(cfg, history)
    {
      GuardIsTraceSpec(cfg, history + [Tick(price, buyTrigger, now)]);
      history := history + [Tick(price, buyTrigger, now)];
      assert history[..|history| - 1] == old(history);
      if buyTrigger.Some? && price < buyTrigger.value {
        ClearFields();
        return;
      }
      if price > cfg.ceiling {
        lastAboveCeilingAt := Some(now);
        if pendingKnifeTick {
          fallingKnifeGuard := true;
        } else {
          pendingKnifeTick := true;
        }
        return;
      }
      pendingKnifeTick := false;
      if fallingKnifeGuard && cfg.decayMinutes > 0 && lastAboveCeilingAt.Some?
         && now - lastAboveCeilingAt.value > cfg.decayMinutes * 60 {
        ClearFields();
      }
    }
  }
}
