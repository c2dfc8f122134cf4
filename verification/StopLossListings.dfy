/** Memory follows the exchange: no sell asks for more than the exchange last listed of its market. */
module StopLossListings {
  import opened Common
  import opened Ownership
  import opened StopLoss
  import opened StopLossSafety
  import opened StopLossLedger
  import opened StopLossLog
  import opened StopLossEffects
  import opened StopLossPieces

  // ------------------------------------------------------------------
  // Every run
  // ------------------------------------------------------------------

  /** The latest notice of market `t` made when the log had at most `n` lines. */
  function LastNotice(ns: seq<Notice>, t: Ticker, n: int): Option<Notice> {
    if ns == [] then None
    else if ns[|ns| - 1].ticker == t && ns[|ns| - 1].at <= n then Some(ns[|ns| - 1])
    else LastNotice(ns[..|ns| - 1], t, n)
  }

  /** A sell asks for no more than the exchange last listed of its market, if a listing is the last thing memory was
      told of it. */
  ghost predicate WithinListing(s: State, p: nat)
    requires p < |s.log|
  {
    !s.log[p].Revalidated? ==>
      match LastNotice(s.notices, s.log[p].ticker, p)
      case Some(Listed(_, count, _)) => s.log[p].qty <= count
      case _ => true
  }

  /** No bracket that can still be sold for market `t` is larger than `count`: not the active one, and not that of an
      unfinished run unless the record says the market is sold. */
  ghost predicate Sized(s: State, t: Ticker, count: int) {
    && 0 <= count
    && (IsActive(s, t) ==> s.brackets[s.active[t]].quantity <= count)
    && forall i :: Running(s, i) && s.tasks[i].ticker == t && s.tasks[i].bracket < |s.brackets| ==>
         s.brackets[s.tasks[i].bracket].quantity <= count || (t in s.actions && s.actions[t] == Succeeded)
  }

  ghost predicate SizedAsListed(s: State, t: Ticker) {
    match LastNotice(s.notices, t, |s.log|)
    case Some(Listed(_, count, _)) => Sized(s, t, count)
    case _ => true
  }

  ghost predicate NoticeInv(s: State) {
    && (forall i :: 0 <= i < |s.notices| ==> s.notices[i].at <= |s.log|)
    && (forall p :: 0 <= p < |s.log| ==> WithinListing(s, p))
    && (forall t :: SizedAsListed(s, t))
  }

  // ---- Frames -------------------------------------------------------------

  /** As far as market `t` is concerned nothing became larger, more active or less sold. */
  ghost predicate NoLarger(s: State, s': State, t: Ticker) {
    && (IsActive(s', t) ==>
          IsActive(s, t) && s'.brackets[s'.active[t]].quantity <= Max(s.brackets[s.active[t]].quantity, 0))
    && (t in s.actions && s.actions[t] == Succeeded ==> t in s'.actions && s'.actions[t] == Succeeded)
    && forall i :: Running(s', i) && s'.tasks[i].ticker == t && s'.tasks[i].bracket < |s'.brackets| ==>
         && Running(s, i) && s.tasks[i].ticker == t && s.tasks[i].bracket < |s.brackets|
         && s'.brackets[s'.tasks[i].bracket].quantity <= Max(s.brackets[s.tasks[i].bracket].quantity, 0)
  }

  lemma NoLargerKeepsSized(s: State, s': State, t: Ticker, count: int)
    requires NoLarger(s, s', t) && Sized(s, t, count)
    ensures Sized(s', t, count)
  {}

  lemma NoLargerKeepsNotices(s: State, s': State)
    requires NoticeInv(s) && s'.notices == s.notices && s'.log == s.log
    requires forall t :: NoLarger(s, s', t)
    ensures NoticeInv(s')
  {
    forall t ensures SizedAsListed(s', t) {
      assert SizedAsListed(s, t) && NoLarger(s, s', t);
      hide NoLarger, Sized;
      match LastNotice(s.notices, t, |s.log|)
      case Some(Listed(_, count, _)) => NoLargerKeepsSized(s, s', t, count);
      case _ =>
    }
    forall p | 0 <= p < |s'.log| ensures WithinListing(s', p) { assert WithinListing(s, p); }
  }

  lemma {:induction false} EarlierNotices(ns: seq<Notice>, n: Notice, t: Ticker, at: int)
    requires at < n.at
    ensures LastNotice(ns + [n], t, at) == LastNotice(ns, t, at)
  {
    assert (ns + [n])[..|ns|] == ns;
  }

  lemma {:induction false} AllNoticesBy(ns: seq<Notice>, t: Ticker, m: int, n: int)
    requires m <= n && forall i :: 0 <= i < |ns| ==> ns[i].at <= m
    ensures LastNotice(ns, t, m) == LastNotice(ns, t, n)
  {
    if ns != [] { AllNoticesBy(ns[..|ns| - 1], t, m, n); }
  }

  lemma LatestNotice(ns: seq<Notice>, n: Notice, t: Ticker)
    ensures LastNotice(ns + [n], t, n.at) == if n.ticker == t then Some(n) else LastNotice(ns, t, n.at)
  {
    assert (ns + [n])[..|ns|] == ns;
  }

  /** A notice is added; its own market is sized as it says, and the others are as they were. */
  lemma NoticeAdded(s: State, s': State, n: Notice)
    requires NoticeInv(s) && s'.log == s.log && n.at == |s.log| && s'.notices == s.notices + [n]
    requires n.Listed? ==> Sized(s', n.ticker, n.count)
    requires forall t :: t != n.ticker ==> NoLarger(s, s', t)
    ensures NoticeInv(s')
  {
    forall t ensures SizedAsListed(s', t) {
      LatestNotice(s.notices, n, t);
      if t != n.ticker {
        assert SizedAsListed(s, t) && NoLarger(s, s', t);
        hide NoLarger, Sized, NoticeInv;
        match LastNotice(s.notices, t, |s.log|)
        case Some(Listed(_, count, _)) => NoLargerKeepsSized(s, s', t, count);
        case _ =>
      }
    }
    forall p | 0 <= p < |s'.log| ensures WithinListing(s', p) {
      assert WithinListing(s, p);
      if !s.log[p].Revalidated? { EarlierNotices(s.notices, n, s.log[p].ticker, p); }
    }
  }

  /** A line is added: a reading, or a sell within the size its market was last told. */
  lemma LineAdded(s: State, s': State, l: Line)
    requires NoticeInv(s) && s'.notices == s.notices && s'.log == s.log + [l]
    requires !l.Revalidated? ==>
      match LastNotice(s.notices, l.ticker, |s.log|) case Some(Listed(_, count, _)) => l.qty <= count case _ => true
    requires forall t :: NoLarger(s, s', t)
    ensures NoticeInv(s')
  {
    forall t ensures SizedAsListed(s', t) {
      AllNoticesBy(s.notices, t, |s.log|, |s'.log|);
      assert SizedAsListed(s, t) && NoLarger(s, s', t);
      hide NoLarger, Sized, NoticeInv;
      match LastNotice(s.notices, t, |s.log|)
      case Some(Listed(_, count, _)) => NoLargerKeepsSized(s, s', t, count);
      case _ =>
    }
    forall p | 0 <= p < |s'.log| ensures WithinListing(s', p) {
      if p < |s.log| { assert WithinListing(s, p) && s'.log[p] == s.log[p]; } else { assert s'.log[p] == l; }
    }
  }

  /** Steps that neither log nor hear anything, and change no quantity. */
  ghost predicate Still(s: State, s': State) {
    && s'.notices == s.notices && s'.log == s.log
    && |s'.brackets| == |s.brackets|
    && (forall b :: 0 <= b < |s.brackets| ==> s'.brackets[b].quantity <= Max(s.brackets[b].quantity, 0))
    && SubActive(s, s')
    && (forall t :: t in s.actions && s.actions[t] == Succeeded ==> t in s'.actions && s'.actions[t] == Succeeded)
    && (forall i :: Running(s', i) ==> Running(s, i) && s'.tasks[i].ticker == s.tasks[i].ticker
                                       && s'.tasks[i].bracket == s.tasks[i].bracket)
  }

  lemma StillKeepsNotices(s: State, s': State)
    requires NoticeInv(s) && Still(s, s')
    ensures NoticeInv(s')
  {
    forall t ensures NoLarger(s, s', t) {}
    hide NoticeInv, NoLarger;
    NoLargerKeepsNotices(s, s');
  }

  // ---- One execution --------------------------------------------------------

  /** Bracket `b` is the only one that can be sold for its market: the active one, if there is one, and that of the
      market's unfinished run, if there is one. */
  ghost predicate Sole(s: State, b: nat) {
    && b < |s.brackets|
    && var t := s.brackets[b].ticker;
       && (t in s.active ==> s.active[t] == b)
       && (forall i :: Running(s, i) && s.tasks[i].ticker == t ==> s.tasks[i].bracket == b)
       && (t in s.active || exists i :: Running(s, i) && s.tasks[i].ticker == t)
  }

  lemma SoleIsSized(s: State, b: nat, count: int)
    requires Sole(s, b) && Sized(s, s.brackets[b].ticker, count)
    ensures s.brackets[b].quantity <= count ||
            (s.brackets[b].ticker in s.actions && s.actions[s.brackets[b].ticker] == Succeeded)
  {
    var t := s.brackets[b].ticker;
    if t !in s.active {
      var i :| Running(s, i) && s.tasks[i].ticker == t;
      assert s.tasks[i].bracket == b;
    }
  }

  /** The market's only bracket has been set to `count`, or the market is sold. */
  lemma SoleResized(s: State, b: nat, count: int)
    requires b < |s.brackets| && 0 <= count
    requires var t := s.brackets[b].ticker;
      && (t in s.active ==> s.active[t] == b && s.brackets[b].quantity <= count)
      && (forall i :: Running(s, i) && s.tasks[i].ticker == t ==> s.tasks[i].bracket == b)
      && (s.brackets[b].quantity <= count || (t in s.actions && s.actions[t] == Succeeded))
    ensures Sized(s, s.brackets[b].ticker, count)
  {}

  /** Markets other than that of bracket `b` do not notice what happens to it. */
  lemma OthersNoLarger(cfg: Config, s: State, s': State, b: nat)
    requires Inv(cfg, s) && b < |s.brackets| && s'.tasks == s.tasks
    requires |s'.brackets| == |s.brackets|
    requires forall c :: 0 <= c < |s.brackets| && c != b ==> s'.brackets[c].quantity == s.brackets[c].quantity
    requires forall t :: t != s.brackets[b].ticker ==>
      && (t in s'.active ==> t in s.active && s'.active[t] == s.active[t])
      && (t in s.actions ==> t in s'.actions && s'.actions[t] == s.actions[t])
    ensures forall t :: t != s.brackets[b].ticker ==> NoLarger(s, s', t)
  {
    forall t | t != s.brackets[b].ticker ensures NoLarger(s, s', t) {
      forall i | Running(s', i) && s'.tasks[i].ticker == t ensures Running(s, i) && s.tasks[i].bracket != b {}
    }
  }

  lemma ExecutionKeepsNotices(cfg: Config, s: State, b: nat, override: Option<int>, bypass: bool, env: ExecEnv,
                              origin: Option<nat>)
    requires Inv(cfg, s) && NoticeInv(s) && Sole(s, b)
    ensures NoticeInv(ExecuteStopLoss(cfg, s, b, override, bypass, env, origin).0)
  {
    assert b < |s.brackets| by { SoleBracket(s, b); }
    hide *;
    if !HandsOut(cfg, s, b, bypass, env) {
      RefusalKeepsNotices(cfg, s, b, override, bypass, env, origin);
    } else {
      SellKeepsNotices(cfg, s, b, override, bypass, env, origin);
    }
  }

  lemma SoleBracket(s: State, b: nat)
    requires Sole(s, b)
    ensures b < |s.brackets|
  {}

  lemma RefusalKeepsNotices(cfg: Config, s: State, b: nat, override: Option<int>, bypass: bool, env: ExecEnv,
                            origin: Option<nat>)
    requires b < |s.brackets| && NoticeInv(s) && !HandsOut(cfg, s, b, bypass, env)
    ensures NoticeInv(ExecuteStopLoss(cfg, s, b, override, bypass, env, origin).0)
  {
    RefusedExecution(cfg, s, b, override, bypass, env, origin);
    hide NoticeInv, ExecuteStopLoss, HandsOut;
    StillKeepsNotices(s, ExecuteStopLoss(cfg, s, b, override, bypass, env, origin).0);
  }

  /** A handed-out sell adds its line, and then perhaps a notice. */
  lemma SellKeepsNotices(cfg: Config, s: State, b: nat, override: Option<int>, bypass: bool, env: ExecEnv,
                         origin: Option<nat>)
    requires Inv(cfg, s) && NoticeInv(s) && Sole(s, b) && HandsOut(cfg, s, b, bypass, env)
    ensures NoticeInv(ExecuteStopLoss(cfg, s, b, override, bypass, env, origin).0)
  {
    assert b < |s.brackets|;
    hide NoticeInv, Inv, Sole, Still, Sized, HandsOut;
    var s' := ExecuteStopLoss(cfg, s, b, override, bypass, env, origin).0;
    hide ExecuteStopLoss;
    var s1 := WithLine(cfg, s, s', b, override, bypass, env, origin);
    RecordsKeepInv(cfg, s, s1);
    if env.sell.SellDone? && env.after.Live? {
      var total := if env.after.count.Some? && env.after.count.value > 0 then env.after.count.value else 0;
      NoticeAdded(s1, s', Listed(s.brackets[b].ticker, total, |s1.log|)) by {
        SellResizes(cfg, s, s1, s', b, override, bypass, env, origin, total);
      }
    } else {
      SellLeavesSizes(cfg, s, s1, s', b, override, bypass, env, origin);
      StillKeepsNotices(s1, s');
    }
  }

  /** The state in which the sell's line is logged and the record says SUBMITTED. */
  lemma WithLine(cfg: Config, s: State, s': State, b: nat, override: Option<int>, bypass: bool, env: ExecEnv,
                 origin: Option<nat>) returns (s1: State)
    requires NoticeInv(s) && Sole(s, b) && HandsOut(cfg, s, b, bypass, env)
    requires s' == ExecuteStopLoss(cfg, s, b, override, bypass, env, origin).0
    ensures NoticeInv(s1) && s1.log == s'.log
    ensures s1 == s.(actions := s.actions[s.brackets[b].ticker := Submitted], log := s1.log) && |s1.log| == |s.log| + 1
  {
    HandedOutExecution(cfg, s, b, override, bypass, env, origin);
    hide ExecuteStopLoss, NoticeInv, Sole, OwnedOf;
    s1 := s.(actions := s.actions[s.brackets[b].ticker := Submitted], log := s'.log);
    SellLineKeepsNotices(s, s1, b, s'.log[|s.log|]);
  }

  lemma SellResizes(cfg: Config, s: State, s1: State, s': State, b: nat, override: Option<int>, bypass: bool,
                    env: ExecEnv,
                    origin: Option<nat>, total: int)
    requires Inv(cfg, s1) && Sole(s, b) && HandsOut(cfg, s, b, bypass, env)
    requires s' == ExecuteStopLoss(cfg, s, b, override, bypass, env, origin).0 && s1.log == s'.log
    requires s1 == s.(actions := s.actions[s.brackets[b].ticker := Submitted], log := s1.log) && |s1.log| == |s.log| + 1
    requires env.sell.SellDone? && env.after.Live?
    requires total == if env.after.count.Some? && env.after.count.value > 0 then env.after.count.value else 0
    ensures s'.notices == s1.notices + [Listed(s.brackets[b].ticker, total, |s1.log|)]
    ensures Sized(s', s.brackets[b].ticker, total)
    ensures forall t :: t != s.brackets[b].ticker ==> NoLarger(s1, s', t)
  {
    HandedOutExecution(cfg, s, b, override, bypass, env, origin);
    hide ExecuteStopLoss, HandsOut, OwnedOf, Inv;
    OthersNoLarger(cfg, s1, s', b);
    hide NoLarger;
    SoleResized(s', b, total);
  }

  lemma SellLeavesSizes(cfg: Config, s: State, s1: State, s': State, b: nat, override: Option<int>, bypass: bool,
                        env: ExecEnv, origin: Option<nat>)
    requires b < |s.brackets| && HandsOut(cfg, s, b, bypass, env)
    requires s' == ExecuteStopLoss(cfg, s, b, override, bypass, env, origin).0 && s1.log == s'.log
    requires s1 == s.(actions := s.actions[s.brackets[b].ticker := Submitted], log := s1.log) && |s1.log| == |s.log| + 1
    requires !(env.sell.SellDone? && env.after.Live?)
    ensures Still(s1, s')
  {
    hide Still;
    HandedOutExecution(cfg, s, b, override, bypass, env, origin);
    hide ExecuteStopLoss, HandsOut, OwnedOf;
    StillOf(s1, s', s.brackets[b].ticker);
  }

  lemma StillOf(s: State, s': State, t: Ticker)
    requires s'.notices == s.notices && s'.log == s.log && s'.brackets == s.brackets && s'.tasks == s.tasks
    requires s'.active == s.active || s'.active == s.active - {t}
    requires t in s.actions && s.actions[t] == Submitted
    requires forall u :: u in s.actions && u != t ==> u in s'.actions && s'.actions[u] == s.actions[u]
    ensures Still(s, s')
  {}

  lemma RecordsKeepInv(cfg: Config, s: State, s1: State)
    requires Inv(cfg, s) && s1 == s.(actions := s1.actions, log := s1.log)
    ensures Inv(cfg, s1)
  {
    QuietKeepsInv(cfg, s, s1);
  }

  lemma SellLineKeepsNotices(s: State, s1: State, b: nat, line: Line)
    requires NoticeInv(s) && Sole(s, b) && !line.Revalidated? && line.ticker == s.brackets[b].ticker
    requires line.qty <= s.brackets[b].quantity
    requires line.ticker in s.actions ==> s.actions[line.ticker] != Succeeded
    requires s1 == s.(actions := s1.actions, log := s.log + [line])
    requires forall t :: t in s.actions && s.actions[t] == Succeeded ==> t in s1.actions && s1.actions[t] == Succeeded
    ensures NoticeInv(s1)
  {
    forall t ensures NoLarger(s, s1, t) {}
    assert SizedAsListed(s, line.ticker);
    hide NoticeInv, NoLarger, Sole, Sized;
    match LastNotice(s.notices, line.ticker, |s.log|)
    case Some(Listed(_, count, _)) =>
      SoleIsSized(s, b, count);
      LineAdded(s, s1, line);
    case _ => LineAdded(s, s1, line);
  }

  // ---- The steps ------------------------------------------------------------

  lemma ActiveIsSole(cfg: Config, s: State, t: Ticker)
    requires Inv(cfg, s) && Paired(s) && IsActive(s, t)
    ensures Sole(s, s.active[t]) && s.brackets[s.active[t]].ticker == t
  {}

  lemma SoleFrame(s: State, s': State, b: nat)
    requires Sole(s, b) && s'.active == s.active && s'.tasks == s.tasks && |s'.brackets| == |s.brackets|
    requires s'.brackets[b].ticker == s.brackets[b].ticker
    ensures Sole(s', b)
  {
    if s.brackets[b].ticker !in s.active {
      var i :| Running(s, i) && s.tasks[i].ticker == s.brackets[b].ticker;
      assert Running(s', i);
    }
    forall i | Running(s', i) ensures Running(s, i) {}
  }

  ghost predicate SameSizes(s: State, s': State) {
    && s'.notices == s.notices && s'.log == s.log && s'.tasks == s.tasks && s'.active == s.active
    && s'.actions == s.actions && |s'.brackets| == |s.brackets|
    && forall b :: 0 <= b < |s.brackets| ==>
         s'.brackets[b].quantity == s.brackets[b].quantity && s'.brackets[b].ticker == s.brackets[b].ticker
  }

  lemma SameSizesIsStill(s: State, s': State)
    requires SameSizes(s, s')
    ensures Still(s, s')
  {
    forall i | Running(s', i) ensures Running(s, i) {}
  }

  lemma LedgerSizes(cfg: Config, s: State, t: Ticker)
    ensures SameSizes(s, s) && SameSizes(s, Increment(cfg, s, t)) && SameSizes(s, Decrement(cfg, s, t))
    ensures |Increment(cfg, s, t).brackets| == |Decrement(cfg, s, t).brackets| == |s.brackets|
  {}

  lemma FlagSizes(s: State, s1: State, b: nat, flag: bool)
    requires SameSizes(s, s1) && b < |s1.brackets|
    ensures SameSizes(s, SetCounted(s1, b, flag))
  {}

  lemma CountingIsStill(cfg: Config, s: State, b: nat)
    requires b < |s.brackets|
    ensures SameSizes(s, MarkCounted(cfg, s, b)) && Still(s, MarkCounted(cfg, s, b))
    ensures Still(s, Rollback(cfg, s, b)) && Still(s, DecrementAndClear(cfg, s, b))
  {
    hide Still, SameSizes, Increment, Decrement;
    var t := s.brackets[b].ticker;
    LedgerSizes(cfg, s, t);
    FlagSizes(s, s, b, true);
    FlagSizes(s, Increment(cfg, s, t), b, true);
    FlagSizes(s, Decrement(cfg, s, t), b, false);
    SameSizesIsStill(s, MarkCounted(cfg, s, b));
    SameSizesIsStill(s, Rollback(cfg, s, b));
    SameSizesIsStill(s, DecrementAndClear(cfg, s, b));
  }

  lemma StartRunKeepsNotices(s: State, t: Ticker, b: nat)
    requires NoticeInv(s) && IsActive(s, t) && s.active[t] == b
    ensures NoticeInv(StartRun(s, t, b))
  {
    var s' := StartRun(s, t, b);
    forall u ensures SizedAsListed(s', u) {
      assert SizedAsListed(s, u);
      forall i | Running(s', i) && i < |s.tasks| ensures Running(s, i) {}
    }
    forall p | 0 <= p < |s'.log| ensures WithinListing(s', p) { assert WithinListing(s, p); }
  }

  lemma DispatchKeepsNotices(cfg: Config, s: State, b: nat, quote: Option<Quote>)
    requires NoticeInv(s) && b < |s.brackets| && IsActive(s, s.brackets[b].ticker)
      && s.active[s.brackets[b].ticker] == b
    ensures NoticeInv(Dispatch(cfg, s, b, quote))
  {
    hide NoticeInv, LatchedShut, StartRun;
    var s1 := ClearLatch(s, b);
    StillKeepsNotices(s, s1);
    StartRunKeepsNotices(s1, s.brackets[b].ticker, b);
  }

  lemma ExitKeepsNotices(cfg: Config, s: State, b: nat, quote: Option<Quote>, exec: ExecEnv)
    requires Inv(cfg, s) && NoticeInv(s) && Sole(s, b) && s.brackets[b].ticker in s.active
    ensures NoticeInv(ExitNow(cfg, MarkCounted(cfg, s, b), b, quote, exec))
  {
    hide NoticeInv, MarkCounted, Inv, Dispatch, ExecuteStopLoss, DecrementAndClear;
    var s1 := MarkCounted(cfg, s, b);
    CountingIsStill(cfg, s, b);
    StillKeepsNotices(s, s1);
    MarkKeepsInv(cfg, s, b);
    SoleFrame(s, s1, b);
    if cfg.fastExit {
      DispatchKeepsNotices(cfg, s1, b, quote);
    } else {
      ExecutionKeepsNotices(cfg, s1, b, None, false, exec, None);
      var s2 := ExecuteStopLoss(cfg, s1, b, None, false, exec, None).0;
      FrameFacts(s1, s2, b);
      CountingIsStill(cfg, s2, b);
      StillKeepsNotices(s2, DecrementAndClear(cfg, s2, b));
    }
  }

  lemma WatcherKeepsNotices(cfg: Config, s: State, b: nat, quantity: int, quote: Option<Quote>, exec: ExecEnv)
    requires Inv(cfg, s) && NoticeInv(s) && Sole(s, b) && s.brackets[b].ticker in s.active
    ensures NoticeInv(Watcher(cfg, s, b, quantity, quote, exec))
  {
    hide NoticeInv, ExitNow, MarkCounted, Inv, LatchedShut;
    var s1 := AdoptQuantity(ClearLatch(s, b), b, quantity);
    OthersNoLarger(cfg, s, s1, b);
    NoticeAdded(s, s1, Told(s.brackets[b].ticker, |s.log|));
    QuietKeepsInv(cfg, s, s1);
    SoleFrame(s, s1, b);
    ExitKeepsNotices(cfg, s1, b, quote, exec);
  }

  lemma PhaseCKeepsNotices(cfg: Config, s: State, b: nat, quote: Option<Quote>, exec: ExecEnv)
    requires Inv(cfg, s) && NoticeInv(s) && Sole(s, b) && s.brackets[b].ticker in s.active
    ensures NoticeInv(PhaseC(cfg, s, b, quote, exec))
  {
    hide NoticeInv, ExitNow, MarkCounted, Inv, ExitQuantity;
    StillKeepsNotices(s, s.(active := s.active - {s.brackets[b].ticker}));
    ExitKeepsNotices(cfg, s, b, quote, exec);
  }

  lemma SyncKeepsNotices(cfg: Config, s: State, b: nat, count: Option<int>, fills: FillLookup)
    requires Inv(cfg, s) && NoticeInv(s) && b < |s.brackets|
    ensures NoticeInv(SyncPosition(cfg, s, b, count, fills))
  {
    hide NoticeInv, Inv, AppOwned;
    var s' := SyncPosition(cfg, s, b, count, fills);
    if count == Some(0) {
      StillKeepsNotices(s, s');
    } else {
      OthersNoLarger(cfg, s, s', b);
      NoticeAdded(s, s', Told(s.brackets[b].ticker, |s.log|));
    }
  }

  lemma JoinKeepsNotices(cfg: Config, s: State, s0: State, t: Ticker, qty: int, app: int)
    requires Inv(cfg, s) && NoticeInv(s) && s0 == s.(actions := s0.actions)
    requires forall u :: u != t && u in s.actions ==> u in s0.actions && s0.actions[u] == s.actions[u]
    ensures NoticeInv(JoinPosition(s0, t, qty, app))
  {
    hide NoticeInv, NoLarger, Inv;
    var s' := JoinPosition(s0, t, qty, app);
    forall u | u != t ensures NoLarger(s, s', u) {
      if IsActive(s, t) { JoinedElsewhere(cfg, s, s0, t, qty, app, u); }
          else { OpenedElsewhere(cfg, s, s0, t, qty, app, u); }
    }
    NoticeAdded(s, s', Told(t, |s.log|));
  }

  lemma JoinedElsewhere(cfg: Config, s: State, s0: State, t: Ticker, qty: int, app: int, u: Ticker)
    requires Inv(cfg, s) && s0 == s.(actions := s0.actions) && IsActive(s, t) && u != t
    requires u in s.actions ==> u in s0.actions && s0.actions[u] == s.actions[u]
    ensures NoLarger(s, JoinPosition(s0, t, qty, app), u)
  {
    var s' := JoinPosition(s0, t, qty, app);
    assert s'.brackets == s.brackets[s.active[t] := s'.brackets[s.active[t]]];
    forall i | Running(s', i) && s'.tasks[i].ticker == u ensures Running(s, i) {}
  }

  lemma OpenedElsewhere(cfg: Config, s: State, s0: State, t: Ticker, qty: int, app: int, u: Ticker)
    requires Inv(cfg, s) && s0 == s.(actions := s0.actions) && !IsActive(s, t) && u != t
    requires u in s.actions ==> u in s0.actions && s0.actions[u] == s.actions[u]
    ensures NoLarger(s, JoinPosition(s0, t, qty, app), u)
  {
    var s' := JoinPosition(s0, t, qty, app);
    assert s'.brackets[..|s.brackets|] == s.brackets;
    forall i | Running(s', i) && s'.tasks[i].ticker == u
      ensures Running(s, i) && s'.brackets[s'.tasks[i].bracket] == s.brackets[s.tasks[i].bracket]
    {}
  }

  lemma AdoptKeepsNotices(cfg: Config, s: State, t: Ticker, qty: int, fills: FillLookup)
    requires Inv(cfg, s) && NoticeInv(s)
    ensures NoticeInv(AdoptPosition(cfg, s, t, qty, fills))
  {
    hide NoticeInv, Inv, JoinPosition, AppOwned;
    var app := AppOwned(t, qty, 0, false, fills);
    JoinKeepsNotices(cfg, s, s, t, qty, qty);
    JoinKeepsNotices(cfg, s, s, t, qty, app);
    StillKeepsNotices(s, SetOwnership(s, t, qty, app));
  }

  lemma ScheduledKeepsNotices(cfg: Config, s: State, b: nat, bid: Option<int>, confirmed: Option<int>,
                              reply: LimitReply,
                              exec: ExecEnv)
    requires Inv(cfg, s) && NoticeInv(s) && Sole(s, b) && s.brackets[b].ticker in s.active
    ensures NoticeInv(IntradayExit(cfg, s, b, bid, confirmed, reply, exec))
  {
    assert b < |s.brackets|;
    hide NoticeInv, Inv, ExecuteStopLoss, ExitQuantity, LimitPrice, LedgerFrame, Sole, Still;
    var t := s.brackets[b].ticker; var qty := ExitQuantity(cfg, s, b).managed; var price := LimitPrice(bid, confirmed);
    ExecutionKeepsNotices(cfg, s, b, None, true, exec, None);
    if qty > 0 && price.Some? {
      var s1 := s.(log := s.log + [Limit(t, price.value, qty)]);
      LimitLine(cfg, s, s1, b, Limit(t, price.value, qty));
      ExecutionKeepsNotices(cfg, s1, b, None, true, exec, None);
      RemovalIsStill(s1, t);
      StillKeepsNotices(s1, RemovePosition(s1, t));
    }
  }

  lemma RemovalIsStill(s: State, t: Ticker)
    ensures Still(s, RemovePosition(s, t))
  {}

  lemma LimitLine(cfg: Config, s: State, s1: State, b: nat, line: Line)
    requires Inv(cfg, s) && NoticeInv(s) && Sole(s, b) && s.brackets[b].ticker in s.active
    requires line.Limit? && line.ticker == s.brackets[b].ticker && 0 < line.qty == ExitQuantity(cfg, s, b).managed
    requires s1 == s.(log := s.log + [line])
    ensures Inv(cfg, s1) && NoticeInv(s1) && Sole(s1, b)
  {
    assert line.qty <= s.brackets[b].quantity;
    hide NoticeInv, Inv, ExitQuantity;
    LimitLineKeepsNotices(s, s1, b, line);
    QuietKeepsInv(cfg, s, s1);
    SoleFrame(s, s1, b);
  }

  lemma LimitLineKeepsNotices(s: State, s1: State, b: nat, line: Line)
    requires NoticeInv(s) && b < |s.brackets| && line.Limit? && line.ticker == s.brackets[b].ticker
    requires IsActive(s, line.ticker) && s.active[line.ticker] == b && line.qty <= s.brackets[b].quantity
    requires s1 == s.(log := s.log + [line])
    ensures NoticeInv(s1)
  {
    forall t ensures NoLarger(s, s1, t) {}
    assert SizedAsListed(s, line.ticker);
    LineAdded(s, s1, line);
  }

  // ---- One iteration ----------------------------------------------------------

  lemma FinishIsStill(s: State, id: nat)
    requires id < |s.tasks|
    ensures Still(s, Finish(s, id))
  {
    forall i | Running(Finish(s, id), i) ensures Running(s, i) {}
  }

  /** An iteration works on the market's only bracket. */
  lemma RunIsSole(cfg: Config, s: State, id: nat)
    requires Inv(cfg, s) && Paired(s) && IsRunning(s, id)
    ensures var t, b := s.tasks[id].ticker, s.tasks[id].bracket;
      && Sole(s, b) && s.brackets[b].ticker == t && (t in s.active ==> s.active[t] == b)
      && forall i :: Running(s, i) && s.tasks[i].ticker == t ==> i == id
  {
    assert Running(s, id);
    forall i | Running(s, i) && s.tasks[i].ticker == s.tasks[id].ticker ensures i == id {}
  }

  lemma PickKeepsNotices(cfg: Config, s: State, id: nat, reply: PositionsReply)
    requires Inv(cfg, s) && Paired(s) && NoticeInv(s) && IsRunning(s, id)
    ensures var (s1, current) := PickCurrent(cfg, s, id, reply);
      if current.None? then NoticeInv(Finish(s1, id)) else NoticeInv(s1) && Sole(s1, current.value)
  {
    RunIsSole(cfg, s, id);
    hide NoticeInv, Inv, Paired, ConfirmRemaining, Sole, Reconcile;
    var b := s.tasks[id].bracket;
    if !Holding(s, s.tasks[id].ticker) {
      var (s1, current) := PickCurrent(cfg, s, id, reply);
      if reply.PositionsFailed? {
        UnheardPick(cfg, s, id, reply);
      } else if current.Some? {
        HeardPick(cfg, s, id, reply);
      } else {
        HeardAndFinished(cfg, s, id, reply);
      }
    }
  }

  lemma UnheardPick(cfg: Config, s: State, id: nat, reply: PositionsReply)
    requires NoticeInv(s) && IsRunning(s, id) && Sole(s, s.tasks[id].bracket) && reply.PositionsFailed?
    requires !Holding(s, s.tasks[id].ticker)
    ensures var (s1, current) := PickCurrent(cfg, s, id, reply);
      if current.None? then NoticeInv(Finish(s1, id)) else NoticeInv(s1) && Sole(s1, current.value)
  {
    var b := s.tasks[id].bracket;
    var (s1, current) := PickCurrent(cfg, s, id, reply);
    assert ConfirmRemaining(cfg, s, b, 0, reply).total == Max(s.brackets[b].quantity, 0);
    hide NoticeInv, ConfirmRemaining, Sole;
    FinishIsStill(s1, id);
    StillKeepsNotices(s, s1);
    hide Still;
    StillKeepsNotices(s1, Finish(s1, id));
    SoleFrame(s, s1, b);
  }

  lemma HeardPick(cfg: Config, s: State, id: nat, reply: PositionsReply)
    requires Inv(cfg, s) && Paired(s) && NoticeInv(s) && IsRunning(s, id) && reply.Live?
    requires !Holding(s, s.tasks[id].ticker) && PickCurrent(cfg, s, id, reply).1.Some?
    ensures var (s1, current) := PickCurrent(cfg, s, id, reply);
      NoticeInv(s1) && Sole(s1, current.value)
  {
    RunIsSole(cfg, s, id);
    var b := s.tasks[id].bracket;
    var (s1, current) := PickCurrent(cfg, s, id, reply);
    var rest := ConfirmRemaining(cfg, s, b, 0, reply);
    LiveTotal(cfg, s, b, 0, reply);
    hide NoticeInv, Inv, Paired, ConfirmRemaining;
    SoleFrame(s, s1, b);
    OthersNoLarger(cfg, s, s1, b);
    hide NoLarger;
    SoleResized(s1, b, rest.total);
    NoticeAdded(s, s1, Listed(s.brackets[b].ticker, rest.total, |s.log|));
  }

  lemma LiveTotal(cfg: Config, s: State, b: nat, filled: int, reply: PositionsReply)
    requires b < |s.brackets| && reply.Live?
    ensures ConfirmRemaining(cfg, s, b, filled, reply).total ==
            if reply.count.Some? && reply.count.value > 0 then reply.count.value else 0
  {
    hide AppOwned;
  }

  /** The exchange lists the market to a run that then ends; memory held nothing of it. */
  lemma HeardAndFinished(cfg: Config, s: State, id: nat, reply: PositionsReply)
    requires Inv(cfg, s) && Paired(s) && NoticeInv(s) && IsRunning(s, id) && reply.Live?
    requires !Holding(s, s.tasks[id].ticker)
    ensures NoticeInv(Finish(Heard(s, s.brackets[s.tasks[id].bracket].ticker, reply), id))
  {
    RunIsSole(cfg, s, id);
    var t := s.tasks[id].ticker;
    var s' := Finish(Heard(s, t, reply), id);
    forall u | u != t ensures NoLarger(s, s', u) {
      forall i | Running(s', i) ensures Running(s, i) && i != id {}
    }
    var n := s'.notices[|s.notices|];
    assert Sized(s', t, n.count) by {
      forall i | Running(s', i) ensures Running(s, i) && i != id {}
    }
    hide NoticeInv, NoLarger, Sized, Inv, Paired;
    NoticeAdded(s, s', n);
  }

  /** The same when the attempts are used up, with the quantity set to what is listed. */
  lemma ExhaustedKeepsNotices(cfg: Config, s: State, id: nat, reply: PositionsReply)
    requires Inv(cfg, s) && Paired(s) && NoticeInv(s) && IsRunning(s, id)
    ensures NoticeInv(Exhausted(cfg, s, id, reply))
  {
    var b := s.tasks[id].bracket;
    var rest := ConfirmRemaining(cfg, s, b, 0, reply);
    var s1 := Finish(Reconcile(Heard(s, s.brackets[b].ticker, reply), b, rest), id);
    RunIsSole(cfg, s, id);
    ReconciledKeepsNotices(cfg, s, id, reply);
    hide NoticeInv, Inv, Paired, ConfirmRemaining, DecrementAndClear, Rollback;
    CountingIsStill(cfg, s1, b);
    StillKeepsNotices(s1, Rollback(cfg, s1, b));
    var s2 := DecrementAndClear(cfg, s1, b);
    StillKeepsNotices(s1, s2);
    RemovalIsStill(s2, s.tasks[id].ticker);
    StillKeepsNotices(s2, RemovePosition(s2, s.tasks[id].ticker));
  }

  lemma ReconciledKeepsNotices(cfg: Config, s: State, id: nat, reply: PositionsReply)
    requires Inv(cfg, s) && Paired(s) && NoticeInv(s) && IsRunning(s, id)
    ensures var b := s.tasks[id].bracket;
      NoticeInv(Finish(Reconcile(Heard(s, s.brackets[b].ticker, reply), b, ConfirmRemaining(cfg, s, b, 0, reply)), id))
  {
    RunIsSole(cfg, s, id);
    var t, b := s.tasks[id].ticker, s.tasks[id].bracket;
    var rest := ConfirmRemaining(cfg, s, b, 0, reply);
    var s1 := Reconcile(Heard(s, t, reply), b, rest);
    var s' := Finish(s1, id);
    if reply.PositionsFailed? {
      assert rest.total == Max(s.brackets[b].quantity, 0);
      hide NoticeInv, Inv, Paired, ConfirmRemaining;
      StillKeepsNotices(s, s1);
      FinishIsStill(s1, id);
      StillKeepsNotices(s1, s');
    } else {
      LiveTotal(cfg, s, b, 0, reply);
      hide NoticeInv, ConfirmRemaining, Paired;
      OthersFinished(cfg, s, s', id);
      hide NoLarger, Inv;
      SoleResized(s', b, rest.total);
      NoticeAdded(s, s', Listed(t, rest.total, |s.log|));
    }
  }

  lemma OthersFinished(cfg: Config, s: State, s': State, id: nat)
    requires Inv(cfg, s) && IsRunning(s, id) && s'.tasks == Finish(s, id).tasks && s'.active == s.active
    requires |s'.brackets| == |s.brackets| && s'.actions == s.actions
    requires forall c :: 0 <= c < |s.brackets| && c != s.tasks[id].bracket ==>
      s'.brackets[c].quantity == s.brackets[c].quantity
    ensures forall t :: t != s.tasks[id].ticker ==> NoLarger(s, s', t)
    ensures forall i :: Running(s', i) ==> Running(s, i) && i != id
  {
    var b := s.tasks[id].bracket;
    assert s.brackets[b].ticker == s.tasks[id].ticker;
    forall t | t != s.tasks[id].ticker ensures NoLarger(s, s', t) {
      forall i | Running(s', i) && s'.tasks[i].ticker == t ensures Running(s, i) && s.tasks[i].bracket != b {}
    }
  }

  lemma AfterAttemptKeepsNotices(cfg: Config, s: State, id: nat, cur: nat, outcome: Outcome, env: AttemptEnv)
    requires Inv(cfg, s) && Paired(s) && NoticeInv(s) && IsRunning(s, id) && cur < |s.brackets|
    ensures NoticeInv(AfterAttempt(cfg, s, id, cur, outcome, env))
  {
    hide NoticeInv, Inv, Paired, Exhausted, DecrementAndClear;
    FinishIsStill(s, id);
    StillKeepsNotices(s, Finish(s, id));
    CountingIsStill(cfg, Finish(s, id), cur);
    StillKeepsNotices(Finish(s, id), DecrementAndClear(cfg, Finish(s, id), cur));
    var s1 := SetTask(s, id, s.tasks[id].(attempt := s.tasks[id].attempt + 1));
    NextAttemptIsStill(s, id);
    StillKeepsNotices(s, s1);
    ExhaustedKeepsNotices(cfg, s, id, env.exhausted);
  }

  lemma NextAttemptIsStill(s: State, id: nat)
    requires IsRunning(s, id)
    ensures Still(s, SetTask(s, id, s.tasks[id].(attempt := s.tasks[id].attempt + 1)))
  {
    var s1 := SetTask(s, id, s.tasks[id].(attempt := s.tasks[id].attempt + 1));
    assert s.tasks[id].finished == s1.tasks[id].finished;
    forall i | Running(s1, i) ensures Running(s, i) {}
  }

  lemma ReadingKeepsNotices(cfg: Config, s: State, id: nat, r: Reading)
    requires NoticeInv(s) && id < |s.tasks|
    ensures NoticeInv(AfterReading(cfg, s, id, r))
  {
    hide NextNoBid;
    var s' := AfterReading(cfg, s, id, r);
    forall t ensures NoLarger(s, s', t) {
      forall i | Running(s', i) ensures Running(s, i) {}
    }
    hide NoLarger, NoticeInv;
    LineAdded(s, s', Revalidated(id, r));
  }

  lemma AttemptKeepsNotices(cfg: Config, s: State, id: nat, env: AttemptEnv)
    requires Inv(cfg, s) && Paired(s) && NoticeInv(s) && IsRunning(s, id)
    ensures NoticeInv(Attempt(cfg, s, id, env))
  {
    hide NoticeInv, Inv, Paired, PickCurrent, ExecuteStopLoss, AfterAttempt, NextNoBid, Revalidate, Rollback, Sole;
    var (s1, current) := PickCurrent(cfg, s, id, env.missing);
    PickKeepsNotices(cfg, s, id, env.missing);
    if current.Some? {
      var cur := current.value;
      var s2 := AfterReading(cfg, s1, id, env.reading);
      FrameFacts(s, s1, 0);
      ReadingKeepsNotices(cfg, s1, id, env.reading);
      PickedKeepsInv(cfg, s, s1, id, env.reading);
      SoleAfterReading(cfg, s1, id, env.reading, cur);
      FinishIsStill(s2, id);
      StillKeepsNotices(s2, Finish(s2, id));
      match Revalidate(cfg, s1.tasks[id].noBid, env.reading)
      case Recovered =>
        CountingIsStill(cfg, Finish(s2, id), cur);
        StillKeepsNotices(Finish(s2, id), Rollback(cfg, Finish(s2, id), cur));
      case Unfillable =>
        SameSizesIsStill(Finish(s2, id), LatchUnfillable(Finish(s2, id), s.tasks[id].bracket));
        StillKeepsNotices(Finish(s2, id), LatchUnfillable(Finish(s2, id), s.tasks[id].bracket));
      case Proceed =>
        ExecutionKeepsNotices(cfg, s2, cur, Some(cfg.PanicPrice()), true, env.exec, Some(id));
        var (s3, outcome) := ExecuteStopLoss(cfg, s2, cur, Some(cfg.PanicPrice()), true, env.exec, Some(id));
        ExecutedKeepsInv(cfg, s2, cur, env.exec, id);
        AfterAttemptKeepsNotices(cfg, s3, id, cur, outcome, env);
    }
  }

  lemma PickedKeepsInv(cfg: Config, s: State, s1: State, id: nat, r: Reading)
    requires Inv(cfg, s) && Paired(s) && IsRunning(s, id) && LedgerFrame(s, s1) && s1.active == s.active
    ensures IsRunning(s1, id) && Inv(cfg, AfterReading(cfg, s1, id, r)) && Paired(AfterReading(cfg, s1, id, r))
    ensures IsRunning(AfterReading(cfg, s1, id, r), id)
  {
    QuietKeepsInv(cfg, s, s1);
    PairedFrame(s, s1);
    ReadingKeepsInv(cfg, s1, id, r);
    hide Paired, Inv, NextNoBid;
    PairedFrame(s1, AfterReading(cfg, s1, id, r));
  }

  lemma SoleAfterReading(cfg: Config, s: State, id: nat, r: Reading, b: nat)
    requires Sole(s, b) && id < |s.tasks|
    ensures Sole(AfterReading(cfg, s, id, r), b)
  {
    hide NextNoBid;
    var s' := AfterReading(cfg, s, id, r);
    forall i | Running(s', i) ensures Running(s, i) {}
    forall i | Running(s, i) ensures Running(s', i) {}
  }

  lemma ExecutedKeepsInv(cfg: Config, s: State, b: nat, exec: ExecEnv, id: nat)
    requires Inv(cfg, s) && Paired(s) && IsRunning(s, id) && b < |s.brackets|
    ensures var s' := ExecuteStopLoss(cfg, s, b, Some(cfg.PanicPrice()), true, exec, Some(id)).0;
      Inv(cfg, s') && Paired(s') && IsRunning(s', id) && b < |s'.brackets|
  {
    hide ExecuteStopLoss, Inv, Paired;
    var s' := ExecuteStopLoss(cfg, s, b, Some(cfg.PanicPrice()), true, exec, Some(id)).0;
    FrameFacts(s, s', b);
    QuietKeepsInv(cfg, s, s');
    PairedFrame(s, s');
  }

  // ---- The theorem --------------------------------------------------------------

  lemma CleanupIsStill(s: State, id: nat)
    ensures Still(s, Cleanup(s, id))
  {
    forall i | Running(Cleanup(s, id), i) ensures Running(s, i) {}
  }

  lemma StepKeepsNotices(cfg: Config, s: State, step: Step)
    requires Inv(cfg, s) && Paired(s) && NoticeInv(s)
    ensures NoticeInv(Apply(cfg, s, step))
  {
    hide NoticeInv, Inv, Paired, Sole, JoinPosition, AdoptPosition, Watcher, PhaseC, Rollback, ExecuteStopLoss,
         IntradayExit, SyncPosition, Attempt, ExitQuantity, InFlight;
    if IsQuiet(step) || step.WatcherTrigger? || step.PhaseCTrigger? || step.PhaseCRecovered? {
      if IsActive(s, step.ticker) {
        ActiveIsSole(cfg, s, step.ticker);
        CountingIsStill(cfg, s, s.active[step.ticker]);
      }
    }
    match step
    case Enter(t, qty, app, saved) => JoinKeepsNotices(cfg, s, ForgetAction(s, t, saved), t, qty, app);
    case Close(t) =>
      RemovalIsStill(s, t);
      StillKeepsNotices(s, RemovePosition(s, t));
    case WatcherTrigger(t, quantity, quote, exec) =>
      if IsActive(s, t) { WatcherKeepsNotices(cfg, s, s.active[t], quantity, quote, exec); }
    case PhaseCTrigger(t, quote, exec) => if IsActive(s, t) { PhaseCKeepsNotices(cfg, s, s.active[t], quote, exec); }
    case PhaseCRecovered(t) => if IsActive(s, t) { StillKeepsNotices(s, Rollback(cfg, s, s.active[t])); }
    case BlindFlatten(t, override, exec) =>
      if IsActive(s, t) { ExecutionKeepsNotices(cfg, s, s.active[t], Some(override), true, exec, None); }
    case CloseOut(t, exec) =>
      if IsActive(s, t) { ExecutionKeepsNotices(cfg, s, s.active[t], None, true, exec, None); }
    case ScheduledExit(t, bid, confirmed, limit, exec) =>
      if IsActive(s, t) { ScheduledKeepsNotices(cfg, s, s.active[t], bid, confirmed, limit, exec); }
    case PositionSync(t, count, fills) => if IsActive(s, t) { SyncKeepsNotices(cfg, s, s.active[t], count, fills); }
    case Adopt(t, qty, fills) => AdoptKeepsNotices(cfg, s, t, qty, fills);
    case PanicAttempt(id, env) => if IsRunning(s, id) { AttemptKeepsNotices(cfg, s, id, env); }
    case TaskCleanup(id) =>
      CleanupIsStill(s, id);
      StillKeepsNotices(s, Cleanup(s, id));
  }

  /** No market is entered or adopted afresh under its own unfinished exit run. */
  ghost predicate NeverReenters(cfg: Config, s: State, steps: seq<Step>)
    decreases |steps|
  {
    steps == [] || (!EntersDuringExit(s, steps[0]) && NeverReenters(cfg, Apply(cfg, s, steps[0]), steps[1..]))
  }

  /** In every run that never re-enters a market under its exit: whatever the exchange last listed of a market, and
      unless an entry, an adoption, a sync or a websocket trigger has set its size since, no sell handed out for it
      asks for more. */
  lemma {:induction false} SellsWithinListings(cfg: Config, s: State, steps: seq<Step>)
    requires Inv(cfg, s) && Paired(s) && NoticeInv(s) && NeverReenters(cfg, s, steps)
    ensures var s' := Run(cfg, s, steps);
      && NoticeInv(s')
      && forall p :: 0 <= p < |s'.log| && !s'.log[p].Revalidated? ==>
           var notice := LastNotice(s'.notices, s'.log[p].ticker, p);
           notice.Some? && notice.value.Listed? ==> s'.log[p].qty <= notice.value.count
    decreases |steps|
  {
    if steps != [] {
      hide NoticeInv, Inv, Paired, Apply;
      StepKeepsInv(cfg, s, steps[0]);
      StepKeepsPaired(cfg, s, steps[0]);
      StepKeepsNotices(cfg, s, steps[0]);
      SellsWithinListings(cfg, Apply(cfg, s, steps[0]), steps[1..]);
    } else {
      forall p | 0 <= p < |s.log| && !s.log[p].Revalidated?
        ensures var notice := LastNotice(s.notices, s.log[p].ticker, p);
          notice.Some? && notice.value.Listed? ==> s.log[p].qty <= notice.value.count
      {
        assert WithinListing(s, p);
      }
    }
  }

  lemma EmptyNotices(cfg: Config)
    ensures Inv(cfg, EMPTY) && Paired(EMPTY) && NoticeInv(EMPTY)
  {
    EmptyStart(cfg);
  }

  // ------------------------------------------------------------------
  // Why no market may be entered again under its exit
  // ------------------------------------------------------------------

  const BLIND := Reading(None, None)

  function StopTriggers(t: Ticker): Step { PhaseCTrigger(t, None, ExecEnv(false, SellRaised(true), PositionsFailed)) }

  /** Ten contracts are entered, their stop triggers, and another path closes the position under the run; five more are
      entered.  An attempt sells two of the five and is told that three are left.  They too are closed by another path,
      and at the next attempt the exchange does not answer. */
  function SellsTheOldBracket(t: Ticker): seq<Step> {
    var answered := ExecEnv(false, SellDone(2), Live(Some(3), Unsupported));
    var raised := ExecEnv(false, SellRaised(true), PositionsFailed);
    [ Enter(t, 10, 10, true), StopTriggers(t), Close(t), Enter(t, 5, 5, true),
      PanicAttempt(0, AttemptEnv(PositionsFailed, BLIND, answered, PositionsFailed)),
      Close(t),
      PanicAttempt(0, AttemptEnv(PositionsFailed, BLIND, raised, PositionsFailed)) ]
  }

  /** Then the run goes back to the bracket it started with and asks for all ten, although the exchange has listed three
      and nothing was entered, adopted or synced since. */
  lemma ReentryOversells(cfg: Config, t: Ticker)
    requires cfg.fastExit && !cfg.manageExternal && cfg.ledgerKey(t).None? && cfg.stopPrice >= 1
    requires cfg.panicMaxRetries >= 3
    ensures var done := Run(cfg, EMPTY, SellsTheOldBracket(t));
      && |done.log| == 4 && done.log[3].Sell? && done.log[3].ticker == t && done.log[3].qty == 10
      && LastNotice(done.notices, t, 3) == Some(Listed(t, 3, 2))
  {
    hide *;
    var steps := SellsTheOldBracket(t);
    SevenSteps(t);
    var s2 := Triggered(cfg, t);
    var s3 := Apply(cfg, s2, Close(t));
    var s4 := Apply(cfg, s3, Enter(t, 5, 5, true));
    EnteredAgain(cfg, t, s2, s3, s4);
    var s5 := Apply(cfg, s4, steps[4]);
    FirstAttempt(cfg, t, s4, s5);
    var s6 := Apply(cfg, s5, Close(t));
    SecondClose(cfg, t, s5, s6);
    var s7 := Apply(cfg, s6, steps[6]);
    SecondAttempt(cfg, t, s6, s7);
    RunSeven(cfg, EMPTY, steps, Apply(cfg, EMPTY, steps[0]), s2, s3, s4, s5, s6, s7);
    NoticesThen(t, s7.notices);
  }

  lemma SevenSteps(t: Ticker)
    ensures var steps := SellsTheOldBracket(t);
      && |steps| == 7 && steps[0] == Enter(t, 10, 10, true) && steps[1] == StopTriggers(t) && steps[2] == Close(t)
      && steps[3] == Enter(t, 5, 5, true) && steps[5] == Close(t)
  {}

  lemma Triggered(cfg: Config, t: Ticker) returns (s: State)
    requires cfg.fastExit && !cfg.manageExternal && cfg.ledgerKey(t).None?
    ensures s == Apply(cfg, Apply(cfg, EMPTY, Enter(t, 10, 10, true)), StopTriggers(t))
    ensures s == State([Bracket(t, 10, true, false)], map[t := 0], map[t := 10], map[], map[], map[t := 0],
                       [Task(t, 0, 1, 0, false)], [], [Told(t, 0)])
  {
    hide LedgerFrame;
    var s1 := Apply(cfg, EMPTY, Enter(t, 10, 10, true));
    assert s1 == State([Bracket(t, 10, false, false)], map[t := 0], map[t := 10], map[], map[], map[], [], [],
                       [Told(t, 0)]);
    s := Apply(cfg, s1, StopTriggers(t));
  }

  lemma EnteredAgain(cfg: Config, t: Ticker, s2: State, s3: State, s4: State)
    requires s3 == Apply(cfg, s2, Close(t)) && s4 == Apply(cfg, s3, Enter(t, 5, 5, true))
    requires s2 == State([Bracket(t, 10, true, false)], map[t := 0], map[t := 10], map[], map[], map[t := 0],
                         [Task(t, 0, 1, 0, false)], [], [Told(t, 0)])
    ensures s4 == s2.(brackets := [Bracket(t, 10, true, false), Bracket(t, 5, false, false)], active := map[t := 1],
                      appOwned := map[t := 5], notices := [Told(t, 0), Told(t, 0)])
  {
    hide LedgerFrame;
    assert s3 == s2.(active := map[], appOwned := map[]);
  }

  lemma SecondClose(cfg: Config, t: Ticker, s: State, s': State)
    requires s' == Apply(cfg, s, Close(t))
    ensures s' == s.(active := s.active - {t}, appOwned := s.appOwned - {t})
  {}

  lemma NoticesThen(t: Ticker, ns: seq<Notice>)
    requires ns == [Told(t, 0), Told(t, 0), Listed(t, 3, 2)]
    ensures LastNotice(ns, t, 3) == Some(Listed(t, 3, 2))
  {}

  lemma FirstAttempt(cfg: Config, t: Ticker, s: State, s': State)
    requires !cfg.manageExternal && cfg.stopPrice >= 1 && cfg.panicMaxRetries >= 3
    requires s.brackets == [Bracket(t, 10, true, false), Bracket(t, 5, false, false)] && s.active == map[t := 1]
    requires s.appOwned == map[t := 5] && s.actions == map[] && s.tasks == [Task(t, 0, 1, 0, false)] && s.log == []
    requires s.notices == [Told(t, 0), Told(t, 0)] && s' == Apply(cfg, s, SellsTheOldBracket(t)[4])
    ensures s'.brackets == [Bracket(t, 10, true, false), Bracket(t, 3, false, false)] && s'.active == map[t := 1]
    ensures s'.appOwned == map[t := 3] && s'.actions == map[t := Pending] && s'.tasks == [Task(t, 0, 2, 0, false)]
    ensures |s'.log| == 2 && s'.notices == s.notices + [Listed(t, 3, 2)]
  {
    hide Apply, Attempt, PickCurrent, Revalidate, ExecuteStopLoss, AfterAttempt, OwnedOf, LedgerFrame, Exhausted;
    var env := SellsTheOldBracket(t)[4].env;
    AttemptStep(cfg, s, 0, env);
    AttemptIs(cfg, s, 0, env);
    PickIs(cfg, s, 0, env.missing);
    VerdictIs(cfg, 0, BLIND);
    var read := s.(log := s.log + [Revalidated(0, BLIND)]);
    assert s.tasks[0 := Task(t, 0, 1, 0, false)] == s.tasks;
    var price := if cfg.panicSellPrice < 1 then 1 else cfg.panicSellPrice;
    HandedOutExecution(cfg, read, 1, Some(price), true, env.exec, Some(0));
    ThreeLeft(cfg, t);
    var (s3, outcome) := ExecuteStopLoss(cfg, read, 1, Some(price), true, env.exec, Some(0));
    OutcomeIs(cfg, s3, 0, 1, outcome, env);
  }

  lemma AttemptStep(cfg: Config, s: State, id: nat, env: AttemptEnv)
    requires IsRunning(s, id)
    ensures Apply(cfg, s, PanicAttempt(id, env)) == Attempt(cfg, s, id, env)
  {
    hide Attempt;
  }

  lemma ThreeLeft(cfg: Config, t: Ticker)
    requires !cfg.manageExternal
    ensures OwnedOf(cfg, t, 3, 5, 2, Unsupported) == 3
  {}

  lemma SecondAttempt(cfg: Config, t: Ticker, s: State, s': State)
    requires !cfg.manageExternal && cfg.stopPrice >= 1 && cfg.panicMaxRetries >= 3
    requires s.brackets == [Bracket(t, 10, true, false), Bracket(t, 3, false, false)] && s.active == map[]
    requires s.appOwned == map[] && s.actions == map[t := Pending] && s.tasks == [Task(t, 0, 2, 0, false)]
    requires |s.log| == 2 && s' == Apply(cfg, s, SellsTheOldBracket(t)[6])
    ensures |s'.log| == 4 && s'.log[3].Sell? && s'.log[3].ticker == t && s'.log[3].qty == 10
    ensures s'.notices == s.notices
  {
    hide Apply, Attempt, PickCurrent, Revalidate, ExecuteStopLoss, AfterAttempt, OwnedOf, LedgerFrame, Exhausted;
    var env := SellsTheOldBracket(t)[6].env;
    AttemptStep(cfg, s, 0, env);
    AttemptIs(cfg, s, 0, env);
    PickIs(cfg, s, 0, env.missing);
    VerdictIs(cfg, 0, BLIND);
    var read := s.(appOwned := map[t := 10], log := s.log + [Revalidated(0, BLIND)]);
    assert s.tasks[0 := Task(t, 0, 2, 0, false)] == s.tasks;
    var price := if cfg.panicSellPrice < 1 then 1 else cfg.panicSellPrice;
    HandedOutExecution(cfg, read, 0, Some(price), true, env.exec, Some(0));
    var (s3, outcome) := ExecuteStopLoss(cfg, read, 0, Some(price), true, env.exec, Some(0));
    OutcomeIs(cfg, s3, 0, 0, outcome, env);
  }

  lemma RunSeven(cfg: Config, s: State, steps: seq<Step>, s1: State, s2: State, s3: State, s4: State, s5: State,
                 s6: State, s7: State)
    requires |steps| == 7 && s1 == Apply(cfg, s, steps[0]) && s2 == Apply(cfg, s1, steps[1])
    requires s3 == Apply(cfg, s2, steps[2]) && s4 == Apply(cfg, s3, steps[3]) && s5 == Apply(cfg, s4, steps[4])
    requires s6 == Apply(cfg, s5, steps[5]) && s7 == Apply(cfg, s6, steps[6])
    ensures Run(cfg, s, steps) == s7
  {
    hide Apply;
    assert steps == [steps[0], steps[1]] + steps[2..];
    RunTwo(cfg, s, steps[0], steps[1], steps[2..]);
    assert steps[2..] == [steps[2], steps[3]] + steps[4..];
    RunTwo(cfg, s2, steps[2], steps[3], steps[4..]);
    assert steps[4..] == [steps[4], steps[5]] + steps[6..];
    RunTwo(cfg, s4, steps[4], steps[5], steps[6..]);
    assert steps[6..][1..] == [];
  }

  lemma RunTwo(cfg: Config, s: State, a: Step, b: Step, rest: seq<Step>)
    ensures Run(cfg, s, [a, b] + rest) == Run(cfg, Apply(cfg, Apply(cfg, s, a), b), rest)
  {
    hide Apply;
    assert ([a, b] + rest)[1..] == [b] + rest && ([b] + rest)[1..] == rest;
  }
}
