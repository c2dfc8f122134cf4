/** Which part of an exchange position belongs to this application.

    The quantity is reconstructed from the fill history and then bounds every exit sell. */
module Ownership {
  import opened Common

  const APP_PREFIX := "APP_"

  /** One exchange fill; `qty` is the already parsed count, floored at zero by `FillQty`. */
  datatype Fill = Fill(ticker: string, clientOrderId: string, qty: real, action: string)

  function LowerChar(c: char): char {
    if 'A' <= c <= 'Z' then (c as int + 32) as char else c
  }

  function Lower(s: string): string {
    seq(|s|, i requires 0 <= i < |s| => LowerChar(s[i]))
  }

  function FillQty(f: Fill): real { if f.qty < 0.0 then 0.0 else f.qty }

  predicate IsSell(f: Fill) {
    Lower(f.action) in ["sell", "ask", "sell_yes", "sell_no"]
  }

  /** A fill counts when it is for this market, carries the app prefix and moved something. */
  predicate Matches(f: Fill, ticker: string) {
    f.ticker == ticker && APP_PREFIX <= f.clientOrderId && FillQty(f) > 0.0
  }

  /** Python's `round`: to the nearest integer, ties to the even one. */
  function RoundHalfEven(x: real): int {
    var fl := x.Floor;
    var d := x - fl as real;
    if d < 0.5 then fl
    else if d > 0.5 then fl + 1
    else if fl % 2 == 0 then fl else fl + 1
  }

  function Signed(f: Fill, ticker: string): real {
    if !Matches(f, ticker) then 0.0
    else if IsSell(f) then -FillQty(f) else FillQty(f)
  }

  function Net(fills: seq<Fill>, ticker: string): real {
    if fills == [] then 0.0
    else Net(fills[..|fills| - 1], ticker) + Signed(fills[|fills| - 1], ticker)
  }

  predicate MatchedAny(fills: seq<Fill>, ticker: string) {
    exists i :: 0 <= i < |fills| && Matches(fills[i], ticker)
  }

  datatype FillLookup = Unsupported | LookupFailed | Fills(fills: seq<Fill>)

  /** What the application owns of `totalQty` contracts. */
  function AppOwned(ticker: string, totalQty: int, fallback: int, manageExternal: bool, lookup: FillLookup): (r: int)
    ensures 0 <= r <= Max(totalQty, 0)
    ensures manageExternal ==> r == Max(totalQty, 0)
    ensures !manageExternal && (!lookup.Fills? || !MatchedAny(lookup.fills, ticker))
            ==> r == Clamp(fallback, Max(totalQty, 0))
  {
    var total := Max(totalQty, 0);
    var fallbackQty := Clamp(fallback, total);
    if manageExternal || lookup.Unsupported? then (if manageExternal then total else fallbackQty)
    else if lookup.LookupFailed? || !MatchedAny(lookup.fills, ticker) then fallbackQty
    else
      var net := Net(lookup.fills, ticker);
      Clamp(RoundHalfEven(if net < 0.0 then 0.0 else net), total)
  }

  /** The source's loop over the fill list. */
  method AppOwnedQtyFromFills(ticker: string, totalQty: int, fallback: int, manageExternal: bool, lookup: FillLookup)
    returns (r: int)
    ensures r == AppOwned(ticker, totalQty, fallback, manageExternal, lookup)
  {
    var total := Max(totalQty, 0);
    var fallbackQty := Max(Min(fallback, total), 0);
    if manageExternal || lookup.Unsupported? {
      return if manageExternal then total else fallbackQty;
    }
    if lookup.LookupFailed? {
      return fallbackQty;
    }
    var fills := lookup.fills;
    var net := 0.0;
    var matched := false;
    for i := 0 to |fills|
      invariant net == Net(fills[..i], ticker)
      invariant matched <==> MatchedAny(fills[..i], ticker)
    {
      var f := fills[i];
      assert fills[..i + 1][..i] == fills[..i];
      assert fills[..i + 1][i] == f;
      assert matched ==> MatchedAny(fills[..i + 1], ticker);
      if f.ticker == ticker && APP_PREFIX <= f.clientOrderId && FillQty(f) > 0.0 {
        matched := true;
        net := if IsSell(f) then net - FillQty(f) else net + FillQty(f);
      }
    }
    assert fills[..|fills|] == fills;
    if !matched {
      return fallbackQty;
    }
    r := Max(Min(RoundHalfEven(if net < 0.0 then 0.0 else net), total), 0);
  }

  // ------------------------------------------------------------------
  // Which fills count, and for how much
  // ------------------------------------------------------------------

  /** `word`, in small letters, with any of its letters in capitals. */
  predicate InAnyCase(text: string, word: string) {
    && |text| == |word|
    && forall i :: 0 <= i < |word| ==>
         text[i] == word[i] || ('A' <= text[i] <= 'Z' && text[i] as int + 32 == word[i] as int)
  }

  predicate Small(word: string) { forall i :: 0 <= i < |word| ==> !('A' <= word[i] <= 'Z') }

  lemma LowerIff(text: string, word: string)
    requires Small(word)
    ensures Lower(text) == word <==> InAnyCase(text, word)
  {
    if InAnyCase(text, word) {
      forall i | 0 <= i < |word| ensures Lower(text)[i] == word[i] {}
    }
    if Lower(text) == word {
      forall i | 0 <= i < |word|
        ensures text[i] == word[i] || ('A' <= text[i] <= 'Z' && text[i] as int + 32 == word[i] as int)
      {
        assert Lower(text)[i] == LowerChar(text[i]);
      }
    }
  }

  /** A fill takes away when its action is one of four words, in any case. */
  lemma SellIff(f: Fill)
    ensures IsSell(f) <==>
      || InAnyCase(f.action, "sell") || InAnyCase(f.action, "ask")
      || InAnyCase(f.action, "sell_yes") || InAnyCase(f.action, "sell_no")
  {
    LowerIff(f.action, "sell");
    LowerIff(f.action, "ask");
    LowerIff(f.action, "sell_yes");
    LowerIff(f.action, "sell_no");
    hide Lower, InAnyCase;
  }

  /** A fill counts, in full, when it is for this market, its client id begins with the application's prefix and it is
      for more than nothing; any other counts for nothing. */
  lemma SignedIs(f: Fill, ticker: string)
    ensures var ours := f.ticker == ticker && |f.clientOrderId| >= 4 && f.clientOrderId[..4] == "APP_" && 0.0 < f.qty;
      && (Matches(f, ticker) <==> ours)
      && Signed(f, ticker) == if !ours then 0.0 else if IsSell(f) then -f.qty else f.qty
  {
    if APP_PREFIX <= f.clientOrderId { assert f.clientOrderId[..4] == APP_PREFIX; }
  }

  /** To the nearest integer, a tie to the even one. */
  lemma RoundIff(x: real, n: int)
    ensures RoundHalfEven(x) == n <==>
      n as real - 0.5 <= x <= n as real + 0.5 && (n % 2 == 0 || n as real - 0.5 < x < n as real + 0.5)
  {
    var f := x.Floor;
    assert f as real <= x < f as real + 1.0;
    if n < f { assert n + 1 <= f; assert n as real + 1.0 <= f as real; }
    if n > f + 1 { assert n >= f + 2; assert n as real >= f as real + 2.0; }
    assert n == f + 1 ==> n as real == f as real + 1.0;
  }

  // ------------------------------------------------------------------
  // The fill history as two independent totals
  // ------------------------------------------------------------------

  function Bought(fills: seq<Fill>, ticker: string): real {
    if fills == [] then 0.0
    else
      var f := fills[0];
      (if Matches(f, ticker) && !IsSell(f) then FillQty(f) else 0.0) + Bought(fills[1..], ticker)
  }

  function Sold(fills: seq<Fill>, ticker: string): real {
    if fills == [] then 0.0
    else (if Matches(fills[0], ticker) && IsSell(fills[0]) then FillQty(fills[0]) else 0.0) + Sold(fills[1..], ticker)
  }

  lemma {:induction false} NetConcat(a: seq<Fill>, b: seq<Fill>, ticker: string)
    ensures Net(a + b, ticker) == Net(a, ticker) + Net(b, ticker)
  {
    if b == [] {
      assert a + b == a;
    } else {
      var c := b[..|b| - 1];
      assert (a + b)[..|a + b| - 1] == a + c;
      NetConcat(a, c, ticker);
    }
  }

  lemma {:induction false} NetIsBoughtMinusSold(fills: seq<Fill>, ticker: string)
    ensures Net(fills, ticker) == Bought(fills, ticker) - Sold(fills, ticker)
  {
    if fills != [] {
      assert fills == [fills[0]] + fills[1..];
      NetConcat([fills[0]], fills[1..], ticker);
      NetIsBoughtMinusSold(fills[1..], ticker);
      assert [fills[0]][..0] == [];
    }
  }

  /** Matched fills decide the answer alone: clamp(bought - sold, 0, total), whatever the fallback. */
  lemma AppOwnedIsClampedNet(ticker: string, totalQty: int, fallback: int, fills: seq<Fill>)
    requires MatchedAny(fills, ticker)
    ensures AppOwned(ticker, totalQty, fallback, false, Fills(fills)) ==
            var net := Bought(fills, ticker) - Sold(fills, ticker);
            if net <= 0.0 then 0 else Clamp(RoundHalfEven(net), Max(totalQty, 0))
  {
    NetIsBoughtMinusSold(fills, ticker);
  }

  lemma {:induction false} NetPermutes(a: seq<Fill>, b: seq<Fill>, ticker: string)
    requires multiset(a) == multiset(b)
    ensures Net(a, ticker) == Net(b, ticker)
    decreases |a|
  {
    if a == [] {
      assert |multiset(b)| == 0;
    } else {
      assert a[0] in multiset(b);
      var j :| 0 <= j < |b| && b[j] == a[0];
      var rest := b[..j] + b[j + 1..];
      assert b == b[..j] + ([b[j]] + b[j + 1..]);
      assert a == [a[0]] + a[1..];
      assert multiset(rest) == multiset(b) - multiset{b[j]};
      assert multiset(a[1..]) == multiset(a) - multiset{a[0]};
      NetPermutes(a[1..], rest, ticker);
      NetConcat([a[0]], a[1..], ticker);
      NetConcat(b[..j], [b[j]] + b[j + 1..], ticker);
      NetConcat([b[j]], b[j + 1..], ticker);
      NetConcat(b[..j], b[j + 1..], ticker);
    }
  }

  /** Reordering the fill history never changes what the application owns. */
  lemma AppOwnedIgnoresOrder(ticker: string, totalQty: int, fallback: int, manageExternal: bool, a: seq<Fill>,
                             b: seq<Fill>)
    requires multiset(a) == multiset(b)
    ensures AppOwned(ticker, totalQty, fallback, manageExternal, Fills(a))
         == AppOwned(ticker, totalQty, fallback, manageExternal, Fills(b))
  {
    NetPermutes(a, b, ticker);
    forall i | 0 <= i < |a| ensures a[i] in b {
      assert a[i] in multiset(b);
    }
    forall i | 0 <= i < |b| ensures b[i] in a {
      assert b[i] in multiset(a);
    }
  }

  lemma NetWithoutForeign(ticker: string, before: seq<Fill>, foreign: Fill, after: seq<Fill>)
    requires !Matches(foreign, ticker)
    ensures Net(before + [foreign] + after, ticker) == Net(before + after, ticker)
  {
    NetConcat(before + [foreign], after, ticker);
    NetConcat(before, [foreign], ticker);
    NetConcat(before, after, ticker);
    assert [foreign][..0] == [];
  }

  lemma MatchedWithoutForeign(ticker: string, before: seq<Fill>, foreign: Fill, after: seq<Fill>)
    requires !Matches(foreign, ticker)
    ensures MatchedAny(before + [foreign] + after, ticker) <==> MatchedAny(before + after, ticker)
  {
    hide Matches;
    var all, kept := before + [foreign] + after, before + after;
    if MatchedAny(kept, ticker) {
      var i :| 0 <= i < |kept| && Matches(kept[i], ticker);
      assert all[if i < |before| then i else i + 1] == kept[i];
    }
    if MatchedAny(all, ticker) {
      var i :| 0 <= i < |all| && Matches(all[i], ticker);
      assert kept[if i < |before| then i else i - 1] == all[i];
    }
  }

  /** A fill placed by hand, for another market or of no size, changes nothing wherever it appears. */
  lemma AppOwnedIgnoresForeignFills(ticker: string, totalQty: int, fallback: int, manageExternal: bool,
                                    before: seq<Fill>, foreign: Fill, after: seq<Fill>)
    requires !Matches(foreign, ticker)
    ensures AppOwned(ticker, totalQty, fallback, manageExternal, Fills(before + [foreign] + after))
         == AppOwned(ticker, totalQty, fallback, manageExternal, Fills(before + after))
  {
    hide Net, MatchedAny, RoundHalfEven;
    NetWithoutForeign(ticker, before, foreign, after);
    MatchedWithoutForeign(ticker, before, foreign, after);
  }

  // ------------------------------------------------------------------
  // The exit quantity derived from the recorded ownership
  // ------------------------------------------------------------------

  datatype ExitQty = ExitQty(managed: int, app: int, external: int)

  /** How much of `totalQty` an exit may sell, given the recorded app-owned quantity (if any). */
  function ManagedExit(recorded: Option<int>, totalQty: int, manageExternal: bool): (r: ExitQty)
    ensures r.app + r.external == Max(totalQty, 0) && 0 <= r.app && 0 <= r.external
    ensures 0 <= r.managed <= Max(totalQty, 0)
    ensures !manageExternal ==> r.managed == r.app
    ensures !manageExternal && recorded.Some? ==> r.managed <= Max(recorded.value, 0)
    ensures recorded.Some? && 0 <= recorded.value <= totalQty ==> r.app == recorded.value
  {
    var total := Max(totalQty, 0);
    var app := Clamp(if recorded.Some? then recorded.value else total, total);
    ExitQty(if manageExternal then total else app, app, Max(total - app, 0))
  }

  /** An exit may sell the whole position when external contracts are managed, and otherwise what is recorded as the
      application's, the whole position again when nothing is recorded. */
  lemma ManagedIs(recorded: Option<int>, totalQty: int, manageExternal: bool)
    ensures var total := if totalQty < 0 then 0 else totalQty;
      ManagedExit(recorded, totalQty, manageExternal).managed ==
        if manageExternal || recorded.None? || total < recorded.value then total
        else if recorded.value < 0 then 0 else recorded.value
  {}
}
