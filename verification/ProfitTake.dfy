/** The resting take-profit sell: a cancel, list, verify, place protocol against an exchange that may refuse or delay
    cancels, lose the reply to a placement, and fill orders whenever it likes. */
module ProfitTake {
  import opened Common

  const PREFIX := "APP_PTS_"

  /** A resting sell order on the exchange. */
  datatype Order = Order(ticker: string, clientOrderId: string, price: int, qty: int)

  type Book = map<string, Order>

  predicate IsProfitTake(o: Order) { PREFIX <= o.clientOrderId }

  /** `id` is a resting take-profit sell of `ticker`. */
  predicate Rests(book: Book, ticker: string, id: string) {
    id in book && book[id].ticker == ticker && IsProfitTake(book[id])
  }

  /** At most one take-profit sell rests per market. */
  ghost predicate Single(book: Book) {
    forall a, b ::
      (a in book && b in book && IsProfitTake(book[a]) && IsProfitTake(book[b]) && book[a].ticker == book[b].ticker
       ==> a == b)
  }

  ghost predicate SubBook(small: Book, large: Book) {
    forall id :: id in small ==> id in large && small[id] == large[id]
  }

  lemma SubBookSingle(small: Book, large: Book)
    requires SubBook(small, large) && Single(large)
    ensures Single(small)
  {}

  /** `now` continues `before` with books that are all single. */
  ghost predicate Extends(before: seq<Book>, now: seq<Book>) {
    && |before| <= |now| && now[..|before|] == before
    && forall i :: |before| <= i < |now| ==> Single(now[i])
  }

  lemma ExtendsTrans(a: seq<Book>, b: seq<Book>, c: seq<Book>)
    requires Extends(a, b) && Extends(b, c)
    ensures Extends(a, c)
  {
    forall i | |a| <= i < |c| ensures Single(c[i]) {
      if i < |b| { assert c[i] == c[..|b|][i]; }
    }
    assert c[..|a|] == c[..|b|][..|a|];
  }

  // ------------------------------------------------------------------
  // The exchange
  // ------------------------------------------------------------------

  datatype CancelReply = Confirmed | Refused | CancelRaised

  datatype ListReply = Listed(rows: seq<Row>) | ListRaised

  datatype Row = Row(orderId: string, clientOrderId: string)

  /** `Placed(id)` with `success == false`, or an empty id, is a reply the caller cannot use. */
  datatype PlaceReply = Placed(success: bool, orderId: string) | PlaceRaised

  predicate Usable(r: PlaceReply) { r.Placed? && r.success && r.orderId != "" }

  datatype Status = Filled | Gone | StillResting | StatusRaised

  /** One request and its reply; for a listing also the book it was taken from. */
  datatype Call =
    | CancelCall(id: string, reply: CancelReply)
    | StatusCall(id: string, status: Status)
    | ListCall(ticker: string, listing: ListReply, shown: Book)
    | PlaceCall(order: Order, placement: PlaceReply)

  /** The orders whose cancels were confirmed. */
  function ConfirmedIds(calls: seq<Call>): set<string> {
    if calls == [] then {}
    else
      var c := calls[|calls| - 1];
      ConfirmedIds(calls[..|calls| - 1]) + (if c.CancelCall? && c.reply.Confirmed? then {c.id} else {})
  }

  lemma {:induction false} ConfirmedIdsMembers(calls: seq<Call>)
    ensures forall id :: id in ConfirmedIds(calls) <==> CancelConfirmed(calls, id)
  {
    if calls != [] {
      var n := |calls| - 1;
      ConfirmedIdsMembers(calls[..n]);
      forall id ensures id in ConfirmedIds(calls) <==> CancelConfirmed(calls, id) {
        if CancelConfirmed(calls, id) {
          var k :| 0 <= k < |calls| && calls[k] == CancelCall(id, Confirmed);
          if k < n { assert calls[..n][k] == calls[k]; }
        }
        if CancelConfirmed(calls[..n], id) {
          var k :| 0 <= k < n && calls[..n][k] == CancelCall(id, Confirmed);
          assert calls[k] == CancelCall(id, Confirmed);
        }
      }
    }
  }

  ghost predicate CancelConfirmed(calls: seq<Call>, id: string) {
    exists k :: 0 <= k < |calls| && calls[k] == CancelCall(id, Confirmed)
  }

  predicate ToCancel(r: Row) { PREFIX <= r.clientOrderId && r.orderId != "" }

  function Cancelled(rows: seq<Row>): seq<string> {
    if rows == [] then []
    else Cancelled(rows[..|rows| - 1]) + (if ToCancel(rows[|rows| - 1]) then [rows[|rows| - 1].orderId] else [])
  }

  lemma {:induction false} CancelledMembers(rows: seq<Row>, id: string)
    ensures id in Cancelled(rows) <==> exists row :: row in rows && ToCancel(row) && row.orderId == id
  {
    if rows != [] {
      var before, last := rows[..|rows| - 1], rows[|rows| - 1];
      CancelledMembers(before, id);
      assert forall row :: row in rows <==> row in before || row == last;
    }
  }

  /** The calls of a bulk cancel: one listing, and one cancel for each take-profit sell it shows, in its order, up to
      the first that raises.  A listing that fails looks empty. */
  ghost predicate BulkProtocol(ticker: string, calls: seq<Call>) {
    && calls != [] && calls[0].ListCall? && calls[0].ticker == ticker
    && if calls[0].listing.ListRaised? then |calls| == 1
       else CancelsInOrder(Cancelled(calls[0].listing.rows), calls[1..])
  }

  ghost predicate CancelsInOrder(ids: seq<string>, calls: seq<Call>) {
    && |calls| <= |ids|
    && (forall i :: 0 <= i < |calls| ==> calls[i].CancelCall? && calls[i].id == ids[i])
    && (forall i :: 0 <= i < |calls| - 1 ==> !calls[i].reply.CancelRaised?)
    && (|calls| < |ids| ==> calls != [] && calls[|calls| - 1].reply.CancelRaised?)
  }

  /** On a prompt exchange the book loses exactly the orders that left by themselves and those whose cancel was
      confirmed. */
  ghost predicate CancelEffect(before: Book, after: Book, calls: seq<Call>, left: set<string>) {
    left <= before.Keys && after == before - left - ConfirmedIds(calls)
  }

  lemma EffectStep(before: Book, now: Book, calls: seq<Call>, left: set<string>, call: Call, self: set<string>,
                   after: Book)
    requires CancelEffect(before, now, calls, left) && call.CancelCall? && self <= now.Keys
    requires after == now - self - (if call.reply.Confirmed? then {call.id} else {})
    ensures CancelEffect(before, after, calls + [call], left + self)
  {
    assert (calls + [call])[..|calls|] == calls;
  }

  lemma EffectStart(before: Book, after: Book, call: Call, left: set<string>)
    requires call.ListCall? && left <= before.Keys && after == before - left
    ensures CancelEffect(before, after, [call], left)
  {
    assert [call][..0] == [];
  }

  lemma EffectCompose(before: Book, middle: Book, after: Book, a: seq<Call>, b: seq<Call>, left: set<string>,
                      self: set<string>)
    requires CancelEffect(before, middle, a, left) && CancelEffect(middle, after, b, self)
    ensures CancelEffect(before, after, a + b, left + self)
  {
    ConfirmedIdsConcat(a, b);
  }

  lemma {:induction false} ConfirmedIdsConcat(a: seq<Call>, b: seq<Call>)
    ensures ConfirmedIds(a + b) == ConfirmedIds(a) + ConfirmedIds(b)
  {
    if b == [] {
      assert a + b == a;
    } else {
      assert (a + b)[..|a + b| - 1] == a + b[..|b| - 1];
      ConfirmedIdsConcat(a, b[..|b| - 1]);
    }
  }

  lemma HistoryShrinks(before: Book, now: Book, h0: seq<Book>, h1: seq<Book>, h2: seq<Book>)
    requires SubBook(now, before) && h1 == h0 + [now] && h1 <= h2
    requires forall i :: |h1| <= i < |h2| ==> SubBook(h2[i], now)
    ensures forall i :: |h0| <= i < |h2| ==> SubBook(h2[i], before)
  {
    forall i | |h0| <= i < |h2| ensures SubBook(h2[i], before) {
      if i < |h1| { assert h2[i] == h1[i] == now; } else { ShrinksOn(before, now, h2[i]); }
    }
  }

  lemma ShrinksOn(a: Book, b: Book, c: Book)
    requires SubBook(b, a) && SubBook(c, b)
    ensures SubBook(c, a)
  {}

  /** All cancels so far were sent for the first rows, and none raised. */
  ghost predicate SentSoFar(rows: seq<Row>, n: nat, calls: seq<Call>)
    requires n <= |rows|
  {
    CancelsInOrder(Cancelled(rows[..n]), calls) && |calls| == |Cancelled(rows[..n])|
    && forall i :: 0 <= i < |calls| ==> !calls[i].reply.CancelRaised?
  }

  lemma InOrderMore(ids: seq<string>, all: seq<string>, calls: seq<Call>, call: Call)
    requires |calls| == |ids| && CancelsInOrder(ids, calls) && forall i :: 0 <= i < |calls| ==>
      !calls[i].reply.CancelRaised?
    requires call.CancelCall? && ids + [call.id] <= all
    requires call.reply.CancelRaised? || |all| == |ids| + 1
    ensures CancelsInOrder(all, calls + [call])
  {
    var more := calls + [call];
    assert (ids + [call.id])[|ids|] == all[|ids|];
    forall i | 0 <= i < |more| ensures more[i].CancelCall? && more[i].id == all[i] {
      if i < |ids| { assert more[i] == calls[i] && (ids + [call.id])[i] == ids[i]; }
    }
  }

  lemma CancelledMore(rows: seq<Row>, n: nat)
    requires n < |rows|
    ensures Cancelled(rows[..n + 1]) == Cancelled(rows[..n]) + (if ToCancel(rows[n]) then [rows[n].orderId] else [])
  {
    assert rows[..n + 1][..n] == rows[..n];
  }

  lemma SentOneMore(rows: seq<Row>, n: nat, calls: seq<Call>, call: Call)
    requires n < |rows| && SentSoFar(rows, n, calls) && ToCancel(rows[n])
    requires call.CancelCall? && call.id == rows[n].orderId
    ensures if call.reply.CancelRaised? then CancelsInOrder(Cancelled(rows), calls + [call])
            else SentSoFar(rows, n + 1, calls + [call])
  {
    hide Cancelled, CancelsInOrder, ToCancel;
    CancelledMore(rows, n);
    if call.reply.CancelRaised? {
      CancelledPrefix(rows, n + 1);
      InOrderMore(Cancelled(rows[..n]), Cancelled(rows), calls, call);
    } else {
      InOrderMore(Cancelled(rows[..n]), Cancelled(rows[..n + 1]), calls, call);
    }
  }

  lemma SentNoMore(rows: seq<Row>, n: nat, calls: seq<Call>)
    requires n < |rows| && SentSoFar(rows, n, calls) && !ToCancel(rows[n])
    ensures SentSoFar(rows, n + 1, calls)
  {
    CancelledMore(rows, n);
    assert Cancelled(rows[..n]) + [] == Cancelled(rows[..n]);
  }

  lemma {:induction false} CancelledPrefix(rows: seq<Row>, n: nat)
    requires n <= |rows|
    ensures Cancelled(rows[..n]) <= Cancelled(rows)
    decreases |rows|
  {
    if n < |rows| {
      assert rows[..|rows| - 1][..n] == rows[..n];
      CancelledPrefix(rows[..|rows| - 1], n);
    } else {
      assert rows[..n] == rows;
    }
  }

  /** A listing taken once the orders in `left` had left. */
  lemma ListShows(before: Book, now: Book, ticker: string, call: Call, left: set<string>)
    requires call.ListCall? && now == before - left
    requires call.listing.Listed? ==>
      && (forall id :: id in now && now[id].ticker == ticker ==> Row(id, now[id].clientOrderId) in call.listing.rows)
      && (forall row :: row in call.listing.rows ==>
            row.orderId in now && now[row.orderId].ticker == ticker
                && now[row.orderId].clientOrderId == row.clientOrderId)
    ensures TruthfulList(before, ticker, [call], left)
  {
    if call.listing.Listed? {
      forall id | Rests(before, ticker, id) && id !in left
        ensures Row(id, before[id].clientOrderId) in call.listing.rows
      {
        assert now[id] == before[id];
      }
    }
  }

  lemma ListStillShows(before: Book, ticker: string, call: Call, sent: seq<Call>, left: set<string>, self: set<string>)
    requires TruthfulList(before, ticker, [call], left)
    ensures TruthfulList(before, ticker, [call] + sent, left + self)
  {
    assert ([call] + sent)[0] == call;
  }

  class Exchange {
    /** A confirmed cancel means that the order is gone when the reply arrives. */
    const prompt: bool
    var book: Book
    var calls: seq<Call>
    ghost var history: seq<Book>

    /** At every moment so far at most one take-profit sell per market was resting. */
    ghost predicate AlwaysSingle()
      reads this
    {
      Single(book) && forall i :: 0 <= i < |history| ==> Single(history[i])
    }

    constructor (book: Book, prompt: bool)
      ensures this.book == book && history == [book] && calls == [] && this.prompt == prompt
    {
      this.book, history, calls, this.prompt := book, [book], [], prompt;
    }

    /** Orders fill, expire, or are removed by a cancel that took its time: those in `left`. */
    method Drift() returns (ghost left: set<string>)
      modifies this`book, this`history
      ensures left <= old(book).Keys && book == old(book) - left
      ensures SubBook(book, old(book)) && history == old(history) + [book]
    {
      var gone: set<string> := *;
      left := gone * book.Keys;
      book := book - gone;
      history := history + [book];
    }

    /** The reply says nothing reliable about whether, or when, the order leaves the book; on a prompt exchange a
        confirmation does.  `left` are the orders that leave by themselves. */
    method CancelOrder(id: string) returns (r: CancelReply, ghost left: set<string>)
      modifies this
      ensures calls == old(calls) + [CancelCall(id, r)]
      ensures SubBook(book, old(book)) && history == old(history) + [book]
      ensures left <= old(book).Keys && book == old(book) - left - (if prompt && r.Confirmed? then {id} else {})
    {
      r := *;
      if prompt && r.Confirmed? {
        book := book - {id};
      }
      left := Drift();
      calls := calls + [CancelCall(id, r)];
    }

    /** Cancels one order after the other, up to the first cancel that raises. */
    method CancelRows(rows: seq<Row>) returns (cancelled: nat, raised: bool, ghost left: set<string>)
      modifies this
      ensures old(calls) <= calls && CancelsInOrder(Cancelled(rows), calls[|old(calls)|..])
      ensures prompt ==> CancelEffect(old(book), book, calls[|old(calls)|..], left)
      ensures SubBook(book, old(book)) && old(history) <= history
      ensures forall i :: |old(history)| <= i < |history| ==> SubBook(history[i], old(book))
    {
      cancelled, raised, left := 0, false, {};
      ghost var c0, b0, h0 := |calls|, book, |history|;
      var i := 0;
      assert rows[..0] == [];
      while i < |rows| && !raised
        invariant 0 <= i <= |rows| && old(calls) <= calls
        invariant if raised then CancelsInOrder(Cancelled(rows), calls[c0..]) else SentSoFar(rows, i, calls[c0..])
        invariant prompt ==> CancelEffect(b0, book, calls[c0..], left)
        invariant SubBook(book, b0) && old(history) <= history
        invariant forall k :: h0 <= k < |history| ==> SubBook(history[k], b0)
      {
        hide CancelEffect, SentSoFar, CancelsInOrder, ToCancel, SubBook, Cancelled;
        if ToCancel(rows[i]) {
          ghost var done, b, c := calls[c0..], book, calls;
          var r, self := CancelOrder(rows[i].orderId);
          ghost var call := CancelCall(rows[i].orderId, r);
          assert calls[c0..] == done + [call] by { assert c == c[..c0] + done; }
          ShrinksOn(b0, b, book);
          SentOneMore(rows, i, done, call);
          if prompt { EffectStep(b0, b, done, left, call, self, book); }
          left := left + self;
          if r.Confirmed? { cancelled := cancelled + 1; }
          raised := r.CancelRaised?;
        } else {
          SentNoMore(rows, i, calls[c0..]);
        }
        i := i + 1;
      }
      if !raised { assert rows[..i] == rows; }
    }

    /** What the live executor does to clear a market: list, and cancel each take-profit sell the listing shows. */
    method CancelOpenSellOrders(ticker: string) returns (cancelled: nat, raised: bool, ghost left: set<string>)
      modifies this
      ensures old(calls) <= calls && BulkProtocol(ticker, calls[|old(calls)|..])
      ensures TruthfulList(old(book), ticker, calls[|old(calls)|..], left)
      ensures prompt ==> CancelEffect(old(book), book, calls[|old(calls)|..], left)
      ensures SubBook(book, old(book)) && old(history) <= history
      ensures forall i :: |old(history)| <= i < |history| ==> SubBook(history[i], old(book))
    {
      hide CancelEffect, CancelsInOrder, TruthfulList, Cancelled, SubBook;
      ghost var c0, b0, h0 := |calls|, book, history;
      var listing, gone := ListOpenSellOrders(ticker);
      ghost var asked, b1 := calls[c0..], book;
      assert asked == [ListCall(ticker, listing, b1)];
      EffectStart(b0, b1, asked[0], gone);
      ListShows(b0, b1, ticker, asked[0], gone);
      if listing.ListRaised? {
        return 0, false, gone;
      }
      ghost var h1 := history;
      ghost var self: set<string>;
      cancelled, raised, self := CancelRows(listing.rows);
      left := gone + self;
      ghost var sent := calls[c0 + 1..];
      assert calls[c0..] == asked + sent && (asked + sent)[1..] == sent;
      ShrinksOn(b0, b1, book);
      HistoryShrinks(b0, b1, h0, h1, history);
      ListStillShows(b0, ticker, asked[0], sent, gone, self);
      if prompt { EffectCompose(b0, b1, book, asked, sent, gone, self); }
    }

    method GetOrderStatus(id: string) returns (s: Status)
      modifies this
      ensures calls == old(calls) + [StatusCall(id, s)]
      ensures SubBook(book, old(book)) && history == old(history) + [book]
    {
      ghost var left := Drift();
      s := *;
      calls := calls + [StatusCall(id, s)];
    }

    /** A list is either truthful about the market's resting sells at the moment it is taken, or the call raises. */
    method ListOpenSellOrders(ticker: string) returns (r: ListReply, ghost left: set<string>)
      modifies this
      ensures calls == old(calls) + [ListCall(ticker, r, book)]
      ensures SubBook(book, old(book)) && history == old(history) + [book]
      ensures left <= old(book).Keys && book == old(book) - left
      ensures r.Listed? ==> forall id :: id in book && book[id].ticker == ticker ==>
                Row(id, book[id].clientOrderId) in r.rows
      ensures r.Listed? ==> forall row :: row in r.rows ==>
                row.orderId in book && book[row.orderId].ticker == ticker
                    && book[row.orderId].clientOrderId == row.clientOrderId
    {
      left := Drift();
      var fails: bool := *;
      if fails {
        calls := calls + [ListCall(ticker, ListRaised, book)];
        return ListRaised, left;
      }
      var rows: seq<Row> := [];
      var todo := book.Keys;
      while todo != {}
        invariant todo <= book.Keys
        invariant forall id :: id in book && id !in todo && book[id].ticker == ticker ==>
          Row(id, book[id].clientOrderId) in rows
        invariant forall row :: row in rows ==>
          row.orderId in book && book[row.orderId].ticker == ticker
              && book[row.orderId].clientOrderId == row.clientOrderId
        decreases |todo|
      {
        var id :| id in todo;
        todo := todo - {id};
        if book[id].ticker == ticker {
          rows := rows + [Row(id, book[id].clientOrderId)];
        }
      }
      r := Listed(rows);
      calls := calls + [ListCall(ticker, r, book)];
    }

    /** The order may be rejected; or accepted under a fresh id, with a reply that may be lost or unusable.  Any order,
        the new one included, may already have left the book again when the reply arrives. */
    method PlaceLimitSell(order: Order) returns (r: PlaceReply)
      modifies this
      ensures calls == old(calls) + [PlaceCall(order, r)]
      ensures exists id ::
                (&& id !in old(book) && SubBook(book, old(book)[id := order])
                 && (Usable(r) ==> r.orderId == id))
      ensures |history| >= |old(history)| && history[..|old(history)|] == old(history)
      ensures forall i :: |old(history)| <= i < |history| ==>
        exists id :: id !in old(book) && SubBook(history[i], old(book)[id := order])
    {
      var id := FreshId();
      ghost var before := book;
      var accepted: bool := *;
      if accepted {
        book := book[id := order];
        history := history + [book];
        assert SubBook(history[|history| - 1], before[id := order]);
      }
      ghost var left := Drift();
      r := *;
      if Usable(r) {
        r := Placed(true, id);
      }
      calls := calls + [PlaceCall(order, r)];
      assert id !in before && SubBook(book, before[id := order]);
    }

    method FreshId() returns (id: string)
      ensures id !in book && id != ""
    {
      id := "x";
      ghost var tried: set<string> := {};
      while id in book
        invariant id != "" && tried <= book.Keys
        invariant forall t :: t in tried ==> |t| < |id|
        decreases |book.Keys - tried|
      {
        ghost var left := book.Keys - tried;
        tried := tried + {id};
        assert book.Keys - tried == left - {id};
        id := id + "x";
      }
    }
  }

  // ------------------------------------------------------------------
  // The requests a placement makes
  // ------------------------------------------------------------------

  /** The calls are one cancel for every take-profit sell in the listing, in its order. */
  ghost predicate CancelsAll(rows: seq<Row>, calls: seq<Call>) {
    && |calls| == |Cancelled(rows)|
    && forall i :: 0 <= i < |calls| ==> calls[i].CancelCall? && calls[i].id == Cancelled(rows)[i]
  }

  lemma CancelsOneMore(rows: seq<Row>, calls: seq<Call>, row: Row, call: Call)
    requires CancelsAll(rows, calls) && ToCancel(row) && call.CancelCall? && call.id == row.orderId
    ensures CancelsAll(rows + [row], calls + [call])
  {
    assert (rows + [row])[..|rows|] == rows;
  }

  lemma CancelsNoMore(rows: seq<Row>, calls: seq<Call>, row: Row)
    requires CancelsAll(rows, calls) && !ToCancel(row)
    ensures CancelsAll(rows + [row], calls)
  {
    assert (rows + [row])[..|rows|] == rows;
  }

  ghost predicate CleanListing(l: ListReply) {
    l.Listed? && forall row :: row in l.rows ==> !(PREFIX <= row.clientOrderId)
  }

  /** Cancel what is listed, then list again; `clean` when the second listing shows no take-profit sell. */
  ghost predicate ClearProtocol(ticker: string, calls: seq<Call>, clean: bool) {
    && calls != [] && calls[0].ListCall? && calls[0].ticker == ticker
    && if calls[0].listing.ListRaised? then |calls| == 1 && !clean
       else
         var n := |calls| - 1;
         && n >= 1 && CancelsAll(calls[0].listing.rows, calls[1..n])
         && calls[n].ListCall? && calls[n].ticker == ticker && (clean <==> CleanListing(calls[n].listing))
  }

  /** The requests of one placement: the known order is cancelled and confirmed first, the book is cleared, and the
      order is sent exactly when the book was then listed clean. */
  ghost predicate PlaceProtocol(ticker: string, current: string, order: Order, calls: seq<Call>, r: Option<string>) {
    if current != "" then
      && calls != [] && calls[0].CancelCall? && calls[0].id == current
      && if calls[0].reply.Confirmed? then ClearThenPlace(ticker, order, calls[1..], r) else |calls| == 1 && r.None?
    else ClearThenPlace(ticker, order, calls, r)
  }

  ghost predicate ClearThenPlace(ticker: string, order: Order, calls: seq<Call>, r: Option<string>) {
    || (ClearProtocol(ticker, calls, false) && r.None?)
    || (&& calls != [] && ClearProtocol(ticker, calls[..|calls| - 1], true)
        && calls[|calls| - 1].PlaceCall? && calls[|calls| - 1].order == order
        && r == (if Usable(calls[|calls| - 1].placement) then Some(calls[|calls| - 1].placement.orderId) else None))
  }

  /** A listing that succeeded shows every order of its market that was in the book. */
  ghost predicate Shows(c: Call) {
    c.ListCall? && c.listing.Listed? ==>
      forall id :: id in c.shown && c.shown[id].ticker == c.ticker ==>
          Row(id, c.shown[id].clientOrderId) in c.listing.rows
  }

  /** Whatever take-profit sell of the market was in the book when these requests listed it: a cancel is sent for it,
      or no order is. */
  ghost predicate ClearsOrRefuses(ticker: string, calls: seq<Call>) {
    forall k, id ::
      && 0 <= k < |calls| && calls[k].ListCall? && id in calls[k].shown && id != ""
      && calls[k].shown[id].ticker == ticker && "APP_PTS_" <= calls[k].shown[id].clientOrderId ==>
      (exists c :: 0 <= c < |calls| && calls[c].CancelCall? && calls[c].id == id) || NothingPlaced(calls)
  }

  /** Every order these requests send is a take-profit sell of the market, at the price and for the quantity; and
      nothing is sent after it. */
  ghost predicate OwnOrders(ticker: string, price: int, qty: int, calls: seq<Call>) {
    forall c :: 0 <= c < |calls| && calls[c].PlaceCall? ==>
      var o := calls[c].order;
      && o.ticker == ticker && "APP_PTS_" <= o.clientOrderId && o.price == price && o.qty == qty
      && c == |calls| - 1
  }

  ghost predicate NothingPlaced(calls: seq<Call>) { forall c :: 0 <= c < |calls| ==> !calls[c].PlaceCall? }

  ghost predicate AllShow(calls: seq<Call>) { forall k :: 0 <= k < |calls| ==> Shows(calls[k]) }

  /** A take-profit sell, as a listing shows it. */
  predicate ShownSell(row: Row) { "APP_PTS_" <= row.clientOrderId }

  predicate CancelsRow(c: Call, row: Row) { c.CancelCall? && c.id == row.orderId }

  ghost predicate CancelsOneOf(c: Call, rows: seq<Row>) {
    exists row :: row in rows && ShownSell(row) && CancelsRow(c, row)
  }

  /** The requests from the first listing at `k` to the last one at `f`: cancels only, in between, of take-profit sells
      the first listing showed, and one for each of those. */
  ghost predicate ListsAndCancels(ticker: string, calls: seq<Call>, k: nat, f: nat)
    requires k < f < |calls|
  {
    && calls[k].ListCall? && calls[k].ticker == ticker && calls[k].listing.Listed?
    && calls[f].ListCall? && calls[f].ticker == ticker
    && (forall c :: k < c < f ==> CancelsOneOf(calls[c], calls[k].listing.rows))
    && forall row :: row in calls[k].listing.rows && ShownSell(row) && row.orderId != "" ==>
         exists c :: k < c < f && CancelsRow(calls[c], row)
  }

  predicate ShowsNone(l: ListReply) { l.Listed? && forall row :: row in l.rows ==> !ShownSell(row) }

  /** From request `k` on: the book is listed; unless that fails, it is cancelled and listed again; and the order goes
      out, as the last request, exactly when that listing succeeded and showed no take-profit sell. */
  ghost predicate ClearsFrom(ticker: string, order: Order, calls: seq<Call>, k: nat) {
    && k < |calls| && calls[k].ListCall? && calls[k].ticker == ticker
    && if calls[k].listing == ListRaised then |calls| == k + 1
       else
         var placed := calls[|calls| - 1].PlaceCall?;
         var f := if placed then |calls| - 2 else |calls| - 1;
         && k < f && ListsAndCancels(ticker, calls, k, f) && (placed <==> ShowsNone(calls[f].listing))
         && (placed ==> calls[|calls| - 1].order == order)
  }

  /** A placement succeeds exactly when the last request is its order and the reply accepts it under an id. */
  predicate Accepts(last: Call, r: Option<string>) {
    if last.PlaceCall? && last.placement.Placed? && last.placement.success && last.placement.orderId != ""
    then r == Some(last.placement.orderId) else r == None
  }

  /** What one placement asks, and when it gets to send its order: a known order is cancelled first, and nothing else
      happens unless that is confirmed; then it clears the book. */
  lemma PlacesIff(ticker: string, current: string, order: Order, calls: seq<Call>, r: Option<string>)
    requires PlaceProtocol(ticker, current, order, calls, r)
    ensures calls != [] && Accepts(calls[|calls| - 1], r)
    ensures if current == "" then ClearsFrom(ticker, order, calls, 0)
            else
              && calls[0].CancelCall? && calls[0].id == current
              && if calls[0].reply == Confirmed then ClearsFrom(ticker, order, calls, 1) else |calls| == 1
  {
    hide ClearThenPlace, ClearsFrom;
    if current != "" {
      if calls[0].reply.Confirmed? { ClearPlacesIff(ticker, order, calls, 1, r); }
    } else {
      assert calls[0..] == calls;
      ClearPlacesIff(ticker, order, calls, 0, r);
    }
  }

  lemma ClearPlacesIff(ticker: string, order: Order, calls: seq<Call>, k: nat, r: Option<string>)
    requires k <= |calls| && ClearThenPlace(ticker, order, calls[k..], r)
    ensures k < |calls| && ClearsFrom(ticker, order, calls, k) && Accepts(calls[|calls| - 1], r)
  {
    hide ListsAndCancels, CancelsAll, ShowsNone, CleanListing;
    var rest := calls[k..];
    assert rest != [] && calls[|calls| - 1] == rest[|rest| - 1];
    var whole := ClearProtocol(ticker, rest, false) && r.None?;
    var cleared := if whole then rest else rest[..|rest| - 1];
    assert calls[k] == cleared[0];
    if calls[k].listing != ListRaised {
      var f := k + |cleared| - 1;
      assert calls[f] == cleared[|cleared| - 1];
      SentCancels(ticker, calls, cleared, k);
      CleanShowsNone(calls[f].listing);
    }
  }

  lemma CleanShowsNone(l: ListReply)
    ensures ShowsNone(l) <==> CleanListing(l)
  {
    assert forall row :: ShownSell(row) <==> PREFIX <= row.clientOrderId;
  }

  lemma SentCancels(ticker: string, calls: seq<Call>, cleared: seq<Call>, k: nat)
    requires |cleared| >= 2 && k + |cleared| <= |calls| && cleared == calls[k..k + |cleared|]
    requires cleared[0].ListCall? && cleared[0].ticker == ticker && cleared[0].listing.Listed?
    requires cleared[|cleared| - 1].ListCall? && cleared[|cleared| - 1].ticker == ticker
    requires CancelsAll(cleared[0].listing.rows, cleared[1..|cleared| - 1])
    ensures ListsAndCancels(ticker, calls, k, k + |cleared| - 1)
  {
    var rows, cancels := cleared[0].listing.rows, cleared[1..|cleared| - 1];
    var ids := Cancelled(rows);
    var f := k + |cleared| - 1;
    assert calls[k] == cleared[0] && calls[f] == cleared[|cleared| - 1];
    forall c | k < c < f ensures CancelsOneOf(calls[c], rows) {
      assert calls[c] == cancels[c - k - 1];
      assert ids[c - k - 1] in ids;
      CancelledMembers(rows, calls[c].id);
      var row :| row in rows && ToCancel(row) && row.orderId == calls[c].id;
      assert CancelsRow(calls[c], row);
    }
    forall row | row in rows && ShownSell(row) && row.orderId != ""
      ensures exists c :: k < c < f && CancelsRow(calls[c], row)
    {
      CancelledMembers(rows, row.orderId);
      assert ToCancel(row);
      var i :| 0 <= i < |ids| && ids[i] == row.orderId;
      assert cancels[i] == calls[k + 1 + i];
      assert CancelsRow(calls[k + 1 + i], row);
    }
  }

  lemma PlacementClears(ticker: string, order: Order, calls: seq<Call>, r: Option<string>)
    requires ClearThenPlace(ticker, order, calls, r) && AllShow(calls)
    ensures ClearsOrRefuses(ticker, calls)
    ensures forall c :: 0 <= c < |calls| && calls[c].PlaceCall? ==> calls[c].order == order && c == |calls| - 1
  {
    if ClearProtocol(ticker, calls, false) && r.None? {
      ClearPlacesNothing(ticker, calls, false);
    } else {
      var cleared := calls[..|calls| - 1];
      ClearPlacesNothing(ticker, cleared, true);
      hide ClearProtocol;
      assert forall c :: 0 <= c < |cleared| ==> calls[c] == cleared[c];
      forall k, id | 0 <= k < |calls| && calls[k].ListCall? && id in calls[k].shown && id != ""
                     && calls[k].shown[id].ticker == ticker && "APP_PTS_" <= calls[k].shown[id].clientOrderId
        ensures exists c :: 0 <= c < |calls| && calls[c].CancelCall? && calls[c].id == id
      {
        assert cleared[k] == calls[k] && Shows(calls[k]);
        hide Shows;
        var c := CleanClears(ticker, cleared, k, id);
        assert calls[c] == cleared[c];
      }
    }
  }

  lemma CancelFirst(ticker: string, price: int, qty: int, first: Call, calls: seq<Call>)
    requires first.CancelCall? && ClearsOrRefuses(ticker, calls) && OwnOrders(ticker, price, qty, calls)
    ensures ClearsOrRefuses(ticker, [first] + calls) && OwnOrders(ticker, price, qty, [first] + calls)
  {
    var all := [first] + calls;
    assert forall k :: 0 <= k < |calls| ==> all[k + 1] == calls[k];
    assert NothingPlaced(calls) ==> NothingPlaced(all);
    forall k, id | 0 <= k < |all| && all[k].ListCall? && id in all[k].shown && id != ""
                   && all[k].shown[id].ticker == ticker && "APP_PTS_" <= all[k].shown[id].clientOrderId
      ensures (exists c :: 0 <= c < |all| && all[c].CancelCall? && all[c].id == id) || NothingPlaced(all)
    {
      assert calls[k - 1] == all[k];
      if !NothingPlaced(calls) {
        var c :| 0 <= c < |calls| && calls[c].CancelCall? && calls[c].id == id;
        assert all[c + 1] == calls[c];
      }
    }
  }

  lemma ClearPlacesNothing(ticker: string, calls: seq<Call>, clean: bool)
    requires ClearProtocol(ticker, calls, clean)
    ensures NothingPlaced(calls)
  {
    if !calls[0].listing.ListRaised? {
      var n := |calls| - 1;
      forall c | 0 < c < n ensures calls[c].CancelCall? { assert calls[1..n][c - 1] == calls[c]; }
    }
  }

  /** When the second listing is clean, a sell that either listing showed was sent a cancel. */
  lemma CleanClears(ticker: string, calls: seq<Call>, k: nat, id: string) returns (c: nat)
    requires ClearProtocol(ticker, calls, true) && k < |calls| && calls[k].ListCall? && Shows(calls[k])
    requires id in calls[k].shown && id != "" && calls[k].shown[id].ticker == ticker
    requires PREFIX <= calls[k].shown[id].clientOrderId
    ensures c < |calls| && calls[c].CancelCall? && calls[c].id == id
  {
    var n := |calls| - 1;
    assert forall i :: 0 < i < n ==> calls[i] == calls[1..n][i - 1];
    var row := Row(id, calls[k].shown[id].clientOrderId);
    assert k == 0 || k == n;
    assert row in calls[k].listing.rows;
    CancelledMembers(calls[0].listing.rows, id);
    var ids := Cancelled(calls[0].listing.rows);
    var j :| 0 <= j < |ids| && ids[j] == id;
    c := j + 1;
  }

  // ------------------------------------------------------------------
  // What a cancel leaves
  // ------------------------------------------------------------------

  /** The known order is cancelled first, if there is one, and alone decides the answer; then the market is
      bulk-cancelled. */
  ghost predicate CancelProtocol(ticker: string, current: string, calls: seq<Call>, ok: bool) {
    if current == "" then ok && BulkProtocol(ticker, calls)
    else
      && calls != [] && calls[0].CancelCall? && calls[0].id == current && (ok <==> calls[0].reply.Confirmed?)
      && BulkProtocol(ticker, calls[1..])
  }

  /** What one cancel asks: the tracked order first, whose reply alone decides the answer; then, in any case, the book
      is listed and every take-profit sell shown is sent a cancel, unless one of these raises, which ends it. */
  lemma CancelsIff(ticker: string, current: string, calls: seq<Call>, ok: bool)
    requires CancelProtocol(ticker, current, calls, ok)
    ensures var k := if current == "" then 0 else 1;
      && k < |calls| && calls[k].ListCall? && calls[k].ticker == ticker
      && (current != "" ==> calls[0].CancelCall? && calls[0].id == current)
      && (ok <==> current == "" || calls[0].reply == Confirmed)
      && if calls[k].listing == ListRaised then |calls| == k + 1
         else
           var last, rows := calls[|calls| - 1], calls[k].listing.rows;
           && (forall c :: k < c < |calls| ==> CancelsOneOf(calls[c], rows))
           && ((last.CancelCall? && last.reply == CancelRaised)
               || forall row :: row in rows && ShownSell(row) && row.orderId != "" ==>
                    exists c :: k < c < |calls| && CancelsRow(calls[c], row))
  {
    var k: nat := if current == "" then 0 else 1;
    assert calls[0..] == calls;
    if calls[k].listing != ListRaised {
      BulkCancels(calls[k].listing.rows, calls, calls[k..][1..], k);
    }
  }

  lemma BulkCancels(rows: seq<Row>, calls: seq<Call>, cancels: seq<Call>, k: nat)
    requires k < |calls| && cancels == calls[k..][1..] && CancelsInOrder(Cancelled(rows), cancels)
    ensures forall c :: k < c < |calls| ==> CancelsOneOf(calls[c], rows)
    ensures (calls[|calls| - 1].CancelCall? && calls[|calls| - 1].reply == CancelRaised)
      || forall row :: row in rows && ShownSell(row) && row.orderId != "" ==>
           exists c :: k < c < |calls| && CancelsRow(calls[c], row)
  {
    var ids := Cancelled(rows);
    assert forall c :: k < c < |calls| ==> calls[c] == cancels[c - k - 1];
    forall c | k < c < |calls| ensures CancelsOneOf(calls[c], rows) {
      assert ids[c - k - 1] in ids;
      CancelledMembers(rows, calls[c].id);
      var row :| row in rows && ToCancel(row) && row.orderId == calls[c].id;
      assert CancelsRow(calls[c], row);
    }
    if |cancels| == |ids| {
      forall row | row in rows && ShownSell(row) && row.orderId != ""
        ensures exists c :: k < c < |calls| && CancelsRow(calls[c], row)
      {
        CancelledMembers(rows, row.orderId);
        assert ToCancel(row);
        var i :| 0 <= i < |ids| && ids[i] == row.orderId;
        assert CancelsRow(calls[k + 1 + i], row);
      }
    } else if cancels != [] {
      assert calls[|calls| - 1] == cancels[|cancels| - 1];
    }
  }

  function BulkOf(current: string, calls: seq<Call>): seq<Call> {
    if current != "" && calls != [] then calls[1..] else calls
  }

  /** The bulk cancel's listing succeeded and shows the order, and its cancel was confirmed. */
  ghost predicate ListedAndConfirmed(bulk: seq<Call>, id: string) {
    && bulk != [] && bulk[0].ListCall? && bulk[0].listing.Listed?
    && (exists row :: row in bulk[0].listing.rows && ToCancel(row) && row.orderId == id)
    && CancelConfirmed(bulk, id)
  }

  lemma BulkConfirms(ticker: string, bulk: seq<Call>, id: string)
    requires BulkProtocol(ticker, bulk)
    ensures CancelConfirmed(bulk, id) <==> ListedAndConfirmed(bulk, id)
  {
    if CancelConfirmed(bulk, id) {
      var k :| 0 <= k < |bulk| && bulk[k] == CancelCall(id, Confirmed);
      assert bulk[1..][k - 1] == bulk[k];
      CancelledMembers(bulk[0].listing.rows, id);
    }
  }

  /** After a cancel that answered true, no take-profit sell of the market rests if and only if every one that rested
      before, other than the tracked order and those that left by themselves, was listed by the bulk cancel and had its
      cancel confirmed.  The answer itself says nothing about them. */
  lemma TrueCancelLeavesNoneIff(before: Book, after: Book, ticker: string, current: string, calls: seq<Call>,
                                left: set<string>)
    requires CancelProtocol(ticker, current, calls, true) && CancelEffect(before, after, calls, left)
    ensures (forall id :: !Rests(after, ticker, id)) <==>
            forall id :: Rests(before, ticker, id) && id !in left && (id != current || current == "") ==>
              ListedAndConfirmed(BulkOf(current, calls), id)
  {
    var bulk := BulkOf(current, calls);
    var first := if current != "" then [calls[0]] else [];
    assert calls == first + bulk;
    ConfirmedIdsConcat(first, bulk);
    ConfirmedIdsMembers(first);
    ConfirmedIdsMembers(bulk);
    assert current != "" ==> first[0] == CancelCall(current, Confirmed);
    forall id ensures id in ConfirmedIds(calls) <==> (current != "" && id == current) || ListedAndConfirmed(bulk, id) {
      BulkConfirms(ticker, bulk, id);
    }
    hide BulkProtocol, ListedAndConfirmed, ConfirmedIds;
    assert forall id :: Rests(after, ticker, id) <==>
      Rests(before, ticker, id) && id !in left && !((current != "" && id == current) || ListedAndConfirmed(bulk, id));
  }

  /** The bulk cancel's listing, if it succeeded, shows exactly the market's take-profit sells that were resting and had
      not left when it was taken. */
  ghost predicate TruthfulList(before: Book, ticker: string, bulk: seq<Call>, left: set<string>) {
    bulk != [] && bulk[0].ListCall? && bulk[0].listing.Listed? ==>
      && (forall id :: Rests(before, ticker, id) && id !in left ==>
            Row(id, before[id].clientOrderId) in bulk[0].listing.rows)
      && (forall row :: row in bulk[0].listing.rows && PREFIX <= row.clientOrderId ==>
          Rests(before, ticker, row.orderId))
  }

  /** The listing succeeded and every take-profit sell it shows has left or had its cancel confirmed; or the listing
      failed and no other such sell was resting than the tracked one and those that left. */
  ghost predicate Cleared(before: Book, ticker: string, current: string, bulk: seq<Call>, left: set<string>) {
    && bulk != [] && bulk[0].ListCall?
    && if bulk[0].listing.Listed? then
         forall row :: row in bulk[0].listing.rows && PREFIX <= row.clientOrderId && row.orderId !in left ==>
           CancelConfirmed(bulk, row.orderId)
       else forall id :: Rests(before, ticker, id) ==> id in left || (current != "" && id == current)
  }

  /** The known order's cancel, alone decisive. */
  ghost predicate FirstCancel(current: string, first: seq<Call>, ok: bool) {
    if current == "" then first == [] && ok
    else |first| == 1 && first[0].CancelCall? && first[0].id == current && (ok <==> first[0].reply.Confirmed?)
  }

  lemma FirstConfirms(current: string, first: seq<Call>)
    requires FirstCancel(current, first, true)
    ensures ConfirmedIds(first) == if current == "" then {} else {current}
  {
    if current != "" { assert first[..0] == []; }
  }

  /** With a truthful listing, what a cancel that answered true leaves can be read off its replies. */
  lemma TruthfulCancelIff(before: Book, listed: Book, after: Book, ticker: string, current: string,
                          first: seq<Call>, bulk: seq<Call>, gone: set<string>, self: set<string>)
    requires FirstCancel(current, first, true) && CancelEffect(before, listed, first, gone)
    requires BulkProtocol(ticker, bulk) && TruthfulList(listed, ticker, bulk, self)
      && CancelEffect(listed, after, bulk, self)
    ensures (forall id :: !Rests(after, ticker, id)) <==> Cleared(before, ticker, current, bulk, gone + self)
  {
    FirstConfirms(current, first);
    ConfirmedIdsMembers(bulk);
    var rows := bulk[0].listing;
    if rows.Listed? {
      forall row | row in rows.rows && PREFIX <= row.clientOrderId
        ensures row.orderId !in gone
        ensures Rests(after, ticker, row.orderId) <==>
          row.orderId !in gone + self && !CancelConfirmed(bulk, row.orderId)
      {
        assert Rests(listed, ticker, row.orderId);
      }
      forall id | Rests(after, ticker, id) ensures Row(id, listed[id].clientOrderId) in rows.rows {
        assert Rests(listed, ticker, id);
      }
    } else {
      assert forall id :: !CancelConfirmed(bulk, id);
      assert forall id :: Rests(after, ticker, id) <==>
        Rests(before, ticker, id) && !(id in gone + self || (current != "" && id == current));
    }
  }

  /** A placement whose reply is lost leaves a resting sell the manager knows nothing of; when the bulk cancel's listing
      then fails, a cancel answers true and the sell rests on. */
  lemma LostPlacementSurvivesCancel(ticker: string, order: Order)
    requires order.ticker == ticker && IsProfitTake(order)
    ensures var clean := ListCall(ticker, Listed([]), map[]);
      var placing := [clean, clean, PlaceCall(order, PlaceRaised)];
      var book := map["x" := order]; var cancelling := [ListCall(ticker, ListRaised, book)];
      && PlaceProtocol(ticker, "", order, placing, None)
      && CancelProtocol(ticker, "", cancelling, true) && CancelEffect(book, book, cancelling, {})
      && Rests(book, ticker, "x")
  {
    var clean := ListCall(ticker, Listed([]), map[]); var placing := [clean, clean, PlaceCall(order, PlaceRaised)];
    var cancelling := [ListCall(ticker, ListRaised, map["x" := order])];
    assert placing[..2][1..1] == [] && CancelsAll([], placing[..2][1..1]);
    assert ClearProtocol(ticker, placing[..|placing| - 1], true);
    assert cancelling[..0] == [];
    assert ConfirmedIds(cancelling) == {};
  }

  // ------------------------------------------------------------------
  // The manager
  // ------------------------------------------------------------------

  class ProfitTakeSellManager {
    const exchange: Exchange
    const enabled: bool
    const price: int
    const paper: bool
    var orderIds: map<string, string>

    constructor (exchange: Exchange, enabled: bool, price: int, paper: bool)
      ensures this.exchange == exchange && this.enabled == enabled && this.paper == paper && orderIds == map[]
      ensures this.price >= 2 && (price >= 2 ==> this.price == price) && (price == 0 ==> this.price == 99)
    {
      this.exchange, this.enabled, this.paper := exchange, enabled, paper;
      this.price := Max(if price == 0 then 99 else price, 2);
      orderIds := map[];
    }

    method SetOrderId(ticker: string, orderId: string)
      modifies this
      ensures orderIds == if orderId != "" then old(orderIds)[ticker := orderId] else old(orderIds) - {ticker}
    {
      if orderId != "" {
        orderIds := orderIds[ticker := orderId];
      } else {
        orderIds := orderIds - {ticker};
      }
    }

    /** Everything the exchange went through since `before` kept at most one take-profit sell per market. */
    ghost predicate Kept(before: seq<Book>)
      reads exchange
    {
      Extends(before, exchange.history) && Single(exchange.book)
    }

    ghost function LastCancel(calls: seq<Call>): CancelReply {
      if calls != [] && calls[|calls| - 1].CancelCall? then calls[|calls| - 1].reply else Refused
    }

    method CancelOne(orderId: string) returns (ok: bool)
      requires Single(exchange.book)
      modifies exchange
      ensures SubBook(exchange.book, old(exchange.book)) && Kept(old(exchange.history))
      ensures exchange.calls == old(exchange.calls) + [CancelCall(orderId, LastCancel(exchange.calls))]
      ensures ok <==> LastCancel(exchange.calls).Confirmed?
    {
      ghost var before := exchange.book;
      var r, left := exchange.CancelOrder(orderId);
      SubBookSingle(exchange.book, before);
      ok := r.Confirmed?;
    }

    /** Cancels every take-profit sell in a listing. */
    method CancelListed(rows: seq<Row>)
      requires Single(exchange.book)
      modifies exchange
      ensures SubBook(exchange.book, old(exchange.book)) && Kept(old(exchange.history))
      ensures old(exchange.calls) <= exchange.calls && CancelsAll(rows, exchange.calls[|old(exchange.calls)|..])
    {
      for i := 0 to |rows|
        invariant old(exchange.calls) <= exchange.calls
        invariant CancelsAll(rows[..i], exchange.calls[|old(exchange.calls)|..])
        invariant SubBook(exchange.book, old(exchange.book)) && Kept(old(exchange.history))
      {
        if PREFIX <= rows[i].clientOrderId && rows[i].orderId != "" {
          ghost var h, done := exchange.history, exchange.calls[|old(exchange.calls)|..];
          var _ := CancelOne(rows[i].orderId);
          ExtendsTrans(old(exchange.history), h, exchange.history);
          CancelsOneMore(rows[..i], done, rows[i], exchange.calls[|exchange.calls| - 1]);
          assert exchange.calls[|old(exchange.calls)|..] == done + [exchange.calls[|exchange.calls| - 1]];
        } else {
          CancelsNoMore(rows[..i], exchange.calls[|old(exchange.calls)|..], rows[i]);
        }
        assert rows[..i + 1] == rows[..i] + [rows[i]];
      }
      assert rows[..|rows|] == rows;
    }

    /** The book has just been listed truthfully and holds no take-profit sell of this market. */
    method ConfirmClean(ticker: string) returns (clean: bool)
      requires Single(exchange.book)
      modifies exchange
      ensures SubBook(exchange.book, old(exchange.book)) && Kept(old(exchange.history))
      ensures clean ==> forall id :: !Rests(exchange.book, ticker, id)
      ensures |exchange.calls| == |old(exchange.calls)| + 1 && old(exchange.calls) <= exchange.calls
      ensures var last := exchange.calls[|old(exchange.calls)|];
        last.ListCall? && last.ticker == ticker && (clean <==> CleanListing(last.listing)) && Shows(last)
    {
      ghost var before := exchange.book;
      var after, left := exchange.ListOpenSellOrders(ticker);
      SubBookSingle(exchange.book, before);
      if after.ListRaised? {
        return false;
      }
      clean := true;
      for i := 0 to |after.rows|
        invariant clean <==> forall j :: 0 <= j < i ==> !(PREFIX <= after.rows[j].clientOrderId)
      {
        if PREFIX <= after.rows[i].clientOrderId {
          clean := false;
        }
      }
      assert clean <==> CleanListing(after);
    }

    /** One placement on a clean book keeps the market single at every later moment. */
    lemma PlacementSingle(before: Book, after: Book, order: Order, id: string)
      requires Single(before) && forall x :: !Rests(before, order.ticker, x)
      requires id !in before && SubBook(after, before[id := order])
      ensures Single(after)
      ensures forall x :: Rests(after, order.ticker, x) ==> x == id
    {
      forall a, b | a in after && b in after && IsProfitTake(after[a]) && IsProfitTake(after[b])
        && after[a].ticker == after[b].ticker ensures a == b
      {
        assert !Rests(before, order.ticker, a) && !Rests(before, order.ticker, b);
      }
      forall x | Rests(after, order.ticker, x) ensures x == id { assert !Rests(before, order.ticker, x); }
    }

    /** The client order id keeps the prefix by which a restart recognises the order. */
    function NewOrder(ticker: string, qty: int, suffix: string): Order {
      Order(ticker, PREFIX + Safe(ticker) + "_" + suffix, price, qty)
    }

    /** The ticker with its dashes and dots replaced. */
    function Safe(ticker: string): string {
      seq(|ticker|, i requires 0 <= i < |ticker| => if ticker[i] == '-' || ticker[i] == '.' then '_' else ticker[i])
    }

    function CurrentId(ids: map<string, string>, ticker: string, existing: Option<string>): string {
      if existing.Some? && existing.value != "" then existing.value else if ticker in ids then ids[ticker] else ""
    }

    method Submit(ticker: string, qty: int, suffix: string) returns (r: Option<string>)
      requires Single(exchange.book) && forall id :: !Rests(exchange.book, ticker, id)
      modifies this, exchange
      ensures Kept(old(exchange.history))
      ensures r.Some? ==> r.value != "" && forall id :: Rests(exchange.book, ticker, id) ==> id == r.value
      ensures r.Some? && r.value in exchange.book ==> exchange.book[r.value] == NewOrder(ticker, qty, suffix)
      ensures orderIds == if r.Some? then old(orderIds)[ticker := r.value] else old(orderIds)
      ensures forall id :: id in exchange.book && id !in old(exchange.book) ==>
        exchange.book[id] == NewOrder(ticker, qty, suffix)
      ensures |exchange.calls| == |old(exchange.calls)| + 1 && old(exchange.calls) <= exchange.calls
      ensures var last := exchange.calls[|old(exchange.calls)|];
        && last.PlaceCall? && last.order == NewOrder(ticker, qty, suffix)
        && r == (if Usable(last.placement) then Some(last.placement.orderId) else None)
    {
      var order := NewOrder(ticker, qty, suffix);
      ghost var before, past := exchange.book, exchange.history;
      var reply := exchange.PlaceLimitSell(order);
      ghost var id :| id !in before && SubBook(exchange.book, before[id := order])
        && (Usable(reply) ==> reply.orderId == id);
      PlacementSingle(before, exchange.book, order, id);
      forall i | |past| <= i < |exchange.history| ensures Single(exchange.history[i]) {
        var other :| other !in before && SubBook(exchange.history[i], before[other := order]);
        PlacementSingle(before, exchange.history[i], order, other);
      }
      r := None;
      if Usable(reply) {
        orderIds := orderIds[ticker := reply.orderId];
        r := Some(reply.orderId);
      }
    }

    /** Places the resting sell, or refuses.  Whatever the replies: at no moment do two take-profit sells of one market
        rest, and after a successful placement none rests but the new one. */
    method Place(ticker: string, qty: int, existing: Option<string>, suffix: string) returns (r: Option<string>)
      requires Single(exchange.book)
      modifies this, exchange
      ensures Kept(old(exchange.history))
      ensures !enabled || paper || qty <= 0 ==>
        r.None? && exchange.book == old(exchange.book) && exchange.history == old(exchange.history)
            && orderIds == old(orderIds)
      ensures r.Some? ==> ticker in orderIds && orderIds[ticker] == r.value
      ensures r.Some? && r.value in exchange.book ==>
        && Rests(exchange.book, ticker, r.value)
        && exchange.book[r.value].price == price && exchange.book[r.value].qty == qty
      ensures r.Some? ==> forall id :: Rests(exchange.book, ticker, id) ==> id == r.value
      ensures forall t :: t != ticker ==>
        (t in orderIds <==> t in old(orderIds)) && (t in orderIds ==> orderIds[t] == old(orderIds)[t])
      ensures forall id :: id in exchange.book && id !in old(exchange.book) ==>
        exchange.book[id] == NewOrder(ticker, qty, suffix)
      ensures old(exchange.calls) <= exchange.calls
      ensures if !enabled || paper || qty <= 0 then exchange.calls == old(exchange.calls)
        else PlaceProtocol(ticker, CurrentId(old(orderIds), ticker, existing), NewOrder(ticker, qty, suffix),
                           exchange.calls[|old(exchange.calls)|..], r)
      ensures OwnOrders(ticker, price, qty, exchange.calls[|old(exchange.calls)|..])
      ensures ClearsOrRefuses(ticker, exchange.calls[|old(exchange.calls)|..])
      ensures enabled && !paper && qty > 0 ==>
        && |old(exchange.calls)| < |exchange.calls|
        && var known := if existing.Some? && existing.value != "" then existing.value
               else if ticker in old(orderIds) then old(orderIds)[ticker] else "";
           var first := exchange.calls[|old(exchange.calls)|];
           && (if known == "" then first.ListCall? else first.CancelCall? && first.id == known)
           && orderIds == if r.Some? then old(orderIds)[ticker := r.value]
                          else if known != "" && first.reply == Confirmed then old(orderIds) - {ticker}
                          else old(orderIds)
    {
      hide Rests, Single, SubBook, Extends, ClearThenPlace, AllShow, ClearsOrRefuses, OwnOrders, NewOrder;
      ghost var h0, b0, c0 := exchange.history, exchange.book, |exchange.calls|;
      NoChange(h0, b0);
      NothingSent(ticker, price, qty);
      if !enabled || paper || qty <= 0 {
        assert exchange.calls[c0..] == [];
        return None;
      }
      var current := CurrentId(orderIds, ticker, existing);
      if current != "" {
        var replaced := CancelOne(current);
        assert exchange.calls[c0..] == [exchange.calls[c0]];
        if !replaced {
          OneCancel(ticker, price, qty, exchange.calls[c0]);
          return None;
        }
        orderIds := orderIds - {ticker};
      }
      ghost var h1, b1, c1 := exchange.history, exchange.book, |exchange.calls|;
      r := ClearAndPlace(ticker, qty, suffix);
      StartsByListing(ticker, NewOrder(ticker, qty, suffix), exchange.calls[c1..], r);
      ExtendsTrans(h0, h1, exchange.history);
      OnlyNew(exchange.book, b1, b0);
      if current != "" { DropOne(exchange.calls, c0, c1); }
      SentIsOwn(ticker, qty, suffix, exchange.calls[c1..], r);
      if current != "" {
        assert exchange.calls[c0..] == [exchange.calls[c0]] + exchange.calls[c1..];
        CancelFirst(ticker, price, qty, exchange.calls[c0], exchange.calls[c1..]);
      }
      if r.Some? && r.value in exchange.book { NewOrderRests(ticker, qty, suffix, r.value); }
    }

    lemma StartsByListing(ticker: string, order: Order, calls: seq<Call>, r: Option<string>)
      requires ClearThenPlace(ticker, order, calls, r)
      ensures calls != [] && calls[0].ListCall?
    {}

    lemma DropOne(calls: seq<Call>, c0: nat, c1: nat)
      requires c1 == c0 + 1 <= |calls|
      ensures calls[c0..][1..] == calls[c1..]
    {}

    lemma NothingSent(ticker: string, price: int, qty: int)
      ensures OwnOrders(ticker, price, qty, []) && ClearsOrRefuses(ticker, [])
    {}

    lemma OneCancel(ticker: string, price: int, qty: int, call: Call)
      requires call.CancelCall?
      ensures OwnOrders(ticker, price, qty, [call]) && ClearsOrRefuses(ticker, [call])
    {}

    lemma SentIsOwn(ticker: string, qty: int, suffix: string, calls: seq<Call>, r: Option<string>)
      requires ClearThenPlace(ticker, NewOrder(ticker, qty, suffix), calls, r) && AllShow(calls)
      ensures OwnOrders(ticker, price, qty, calls) && ClearsOrRefuses(ticker, calls)
    {
      PlacementClears(ticker, NewOrder(ticker, qty, suffix), calls, r);
      hide ClearThenPlace, AllShow, ClearsOrRefuses;
    }

    lemma NewOrderRests(ticker: string, qty: int, suffix: string, id: string)
      requires id in exchange.book && exchange.book[id] == NewOrder(ticker, qty, suffix)
      ensures Rests(exchange.book, ticker, id) && exchange.book[id].price == price && exchange.book[id].qty == qty
    {}

    /** The part of a placement after the tracked order is out of the way. */
    method ClearAndPlace(ticker: string, qty: int, suffix: string) returns (r: Option<string>)
      requires Single(exchange.book)
      modifies this, exchange
      ensures Kept(old(exchange.history))
      ensures r.Some? ==> forall id :: Rests(exchange.book, ticker, id) ==> id == r.value
      ensures r.Some? && r.value in exchange.book ==> exchange.book[r.value] == NewOrder(ticker, qty, suffix)
      ensures orderIds == if r.Some? then old(orderIds)[ticker := r.value] else old(orderIds)
      ensures forall id :: id in exchange.book && id !in old(exchange.book) ==>
        exchange.book[id] == NewOrder(ticker, qty, suffix)
      ensures old(exchange.calls) <= exchange.calls && AllShow(exchange.calls[|old(exchange.calls)|..])
      ensures ClearThenPlace(ticker, NewOrder(ticker, qty, suffix), exchange.calls[|old(exchange.calls)|..], r)
    {
      ghost var h0, b0, c0 := exchange.history, exchange.book, |exchange.calls|;
      var clean := ClearBook(ticker);
      hide Single, SubBook, Extends, ClearProtocol, Usable;
      if !clean {
        OnlyNew(exchange.book, exchange.book, b0);
        return None;
      }
      ghost var h1, b1, cleared := exchange.history, exchange.book, exchange.calls[c0..];
      r := Submit(ticker, qty, suffix);
      ExtendsTrans(h0, h1, exchange.history);
      OnlyNew(exchange.book, b1, b0);
      assert exchange.calls[c0..][..|cleared|] == cleared;
    }

    lemma NoChange(h: seq<Book>, b: Book)
      ensures Extends(h, h) && SubBook(b, b)
    {}

    lemma SubBookTrans(a: Book, b: Book, c: Book)
      requires SubBook(a, b) && SubBook(b, c)
      ensures SubBook(a, c)
      ensures forall id :: id in a ==> id in c
    {}

    lemma OnlyNew(a: Book, b: Book, c: Book)
      requires SubBook(b, c)
      ensures forall id :: id in a && id !in c ==> id !in b
      ensures SubBook(a, c) ==> forall id :: id in a ==> id in c
    {}

    /** Cancels what the exchange lists, then checks that it really is gone. */
    method ClearBook(ticker: string) returns (clean: bool)
      requires Single(exchange.book)
      modifies exchange
      ensures SubBook(exchange.book, old(exchange.book)) && Kept(old(exchange.history))
      ensures clean ==> forall id :: !Rests(exchange.book, ticker, id)
      ensures old(exchange.calls) <= exchange.calls && AllShow(exchange.calls[|old(exchange.calls)|..])
      ensures ClearProtocol(ticker, exchange.calls[|old(exchange.calls)|..], clean)
    {
      ghost var h0, b0 := exchange.history, exchange.book;
      ghost var c0 := |exchange.calls|;
      var open, left := exchange.ListOpenSellOrders(ticker);
      SubBookSingle(exchange.book, b0);
      ghost var h1, b1 := exchange.history, exchange.book;
      ghost var listed := exchange.calls[c0..];
      assert listed == [ListCall(ticker, open, b1)];
      if open.ListRaised? {
        return false;
      }
      assert Extends(h0, h1);
      hide Rests, Single, SubBook, Extends;
      CancelListed(open.rows);
      ghost var h2, b2 := exchange.history, exchange.book;
      ExtendsTrans(h0, h1, h2);
      SubBookTrans(b2, b1, b0);
      ghost var all := exchange.calls[c0..];
      assert all == listed + all[1..] && all[1..] == exchange.calls[c0 + 1..];
      clean := ConfirmClean(ticker);
      ExtendsTrans(h0, h2, exchange.history);
      SubBookTrans(exchange.book, b2, b0);
      assert exchange.calls[c0..][..|all|] == all;
      assert exchange.calls[c0..][1..|all|] == all[1..];
    }

    /** Cancels the tracked order, then whatever else the exchange lists under the prefix, and answers for the tracked
        order. */
    method Cancel(ticker: string) returns (ok: bool, ghost left: set<string>)
      requires Single(exchange.book)
      modifies this, exchange
      ensures SubBook(exchange.book, old(exchange.book)) && Kept(old(exchange.history))
      ensures orderIds == if enabled && ok then old(orderIds) - {ticker} else old(orderIds)
      ensures !enabled ==> ok && exchange.calls == old(exchange.calls)
      ensures old(exchange.calls) <= exchange.calls
      ensures enabled ==>
        CancelProtocol(ticker, CurrentId(old(orderIds), ticker, None), exchange.calls[|old(exchange.calls)|..], ok)
      ensures enabled && exchange.prompt ==>
        CancelEffect(old(exchange.book), exchange.book, exchange.calls[|old(exchange.calls)|..], left)
      ensures enabled && exchange.prompt && ok ==>
        var current := CurrentId(old(orderIds), ticker, None);
        (forall id :: !Rests(exchange.book, ticker, id)) <==>
          Cleared(old(exchange.book), ticker, current, BulkOf(current, exchange.calls[|old(exchange.calls)|..]), left)
    {
      left := {};
      if !enabled {
        return true, {};
      }
      ghost var h0, b0, c0 := exchange.history, exchange.book, exchange.calls;
      var orderId := if ticker in orderIds then orderIds[ticker] else "";
      ok, left := CancelKnown(orderId);
      if ok {
        orderIds := orderIds - {ticker};
      }
      ghost var h1, b1, c1 := exchange.history, exchange.book, exchange.calls;
      hide *;
      var cancelled, raised, self := exchange.CancelOpenSellOrders(ticker);
      Suffixes(c0, c1, exchange.calls);
      ProtocolOf(ticker, orderId, c1[|c0|..], exchange.calls[|c1|..], ok);
      if exchange.prompt {
        EffectCompose(b0, b1, exchange.book, c1[|c0|..], exchange.calls[|c1|..], left, self);
        if ok {
          TruthfulCancelIff(b0, b1, exchange.book, ticker, orderId, c1[|c0|..], exchange.calls[|c1|..], left, self);
          BulkAfterFirst(orderId, c1[|c0|..], exchange.calls[|c1|..]);
        }
      }
      left := left + self;
      KeptLater(h0, b0, h1, b1, exchange.history, exchange.book);
    }

    lemma Suffixes(a: seq<Call>, b: seq<Call>, c: seq<Call>)
      requires a <= b <= c
      ensures a <= c && c[|a|..] == b[|a|..] + c[|b|..]
    {}

    lemma KeptLater(h0: seq<Book>, b0: Book, h1: seq<Book>, b1: Book, h2: seq<Book>, b2: Book)
      requires Extends(h0, h1) && Single(b1) && SubBook(b1, b0) && SubBook(b2, b1) && h1 <= h2
      requires forall i :: |h1| <= i < |h2| ==> SubBook(h2[i], b1)
      ensures Extends(h0, h2) && Single(b2) && SubBook(b2, b0)
    {
      hide Single, SubBook, Extends;
      SinglesFollow(b1, h1, h2, b2);
      ExtendsTrans(h0, h1, h2);
      SubBookTrans(b2, b1, b0);
    }

    /** Cancels the known order; knowing none is fine. */
    method CancelKnown(orderId: string) returns (ok: bool, ghost left: set<string>)
      requires Single(exchange.book)
      modifies exchange
      ensures SubBook(exchange.book, old(exchange.book)) && Kept(old(exchange.history))
        && old(exchange.calls) <= exchange.calls
      ensures FirstCancel(orderId, exchange.calls[|old(exchange.calls)|..], ok)
      ensures exchange.prompt ==>
        CancelEffect(old(exchange.book), exchange.book, exchange.calls[|old(exchange.calls)|..], left)
    {
      if orderId == "" {
        NoChange(exchange.history, exchange.book);
        return true, {};
      }
      ok, left := CancelTracked(orderId);
    }

    lemma BulkAfterFirst(current: string, first: seq<Call>, bulk: seq<Call>)
      requires FirstCancel(current, first, true)
      ensures BulkOf(current, first + bulk) == bulk
    {
      assert current == "" ==> first + bulk == bulk;
    }

    lemma ProtocolOf(ticker: string, current: string, first: seq<Call>, bulk: seq<Call>, ok: bool)
      requires BulkProtocol(ticker, bulk) && FirstCancel(current, first, ok)
      ensures CancelProtocol(ticker, current, first + bulk, ok)
    {
      hide BulkProtocol;
      assert [] + bulk == bulk;
      if current != "" { assert (first + bulk)[1..] == bulk; }
    }

    method CancelTracked(orderId: string) returns (ok: bool, ghost left: set<string>)
      requires Single(exchange.book)
      modifies exchange
      ensures SubBook(exchange.book, old(exchange.book)) && Kept(old(exchange.history))
      ensures exchange.calls == old(exchange.calls) + [CancelCall(orderId, LastCancel(exchange.calls))]
      ensures ok <==> LastCancel(exchange.calls).Confirmed?
      ensures exchange.prompt ==>
        CancelEffect(old(exchange.book), exchange.book, exchange.calls[|old(exchange.calls)|..], left)
    {
      ghost var b, c := exchange.book, exchange.calls;
      var r;
      r, left := exchange.CancelOrder(orderId);
      ok := r.Confirmed?;
      SubBookSingle(exchange.book, b);
      ghost var call := CancelCall(orderId, r);
      assert [] + [call] == [call] && exchange.calls[|c|..] == [call];
      if exchange.prompt {
        assert CancelEffect(b, b, [], {});
        EffectStep(b, b, [], {}, call, left, exchange.book);
      }
    }

    lemma SinglesFollow(b: Book, h: seq<Book>, now: seq<Book>, after: Book)
      requires Single(b) && h <= now && SubBook(after, b)
      requires forall i :: |h| <= i < |now| ==> SubBook(now[i], b)
      ensures Extends(h, now) && Single(after)
    {
      SubBookSingle(after, b);
      forall i | |h| <= i < |now| ensures Single(now[i]) { SubBookSingle(now[i], b); }
    }

    method CancelOrphan(ticker: string, orderId: string)
      requires Single(exchange.book)
      modifies this, exchange
      ensures exchange.calls == old(exchange.calls) + [CancelCall(orderId, LastCancel(exchange.calls))]
      ensures SubBook(exchange.book, old(exchange.book)) && Kept(old(exchange.history))
      ensures orderIds == old(orderIds) - {ticker}
    {
      var _ := CancelOne(orderId);
      orderIds := orderIds - {ticker};
    }

    /** True exactly when the exchange reports the tracked order filled; the record is dropped when it is filled or
        gone. */
    method CheckFill(ticker: string) returns (filled: bool)
      requires Single(exchange.book)
      modifies this, exchange
      ensures SubBook(exchange.book, old(exchange.book)) && Kept(old(exchange.history))
      ensures filled ==> enabled && ticker in old(orderIds) && orderIds == old(orderIds) - {ticker}
      ensures orderIds == old(orderIds) || orderIds == old(orderIds) - {ticker}
      ensures var id := CurrentId(old(orderIds), ticker, None);
        if !enabled || id == "" then !filled && exchange.calls == old(exchange.calls) && orderIds == old(orderIds)
        else
          exists s: Status :: exchange.calls == old(exchange.calls) + [StatusCall(id, s)]
            && (filled <==> s.Filled?)
              && orderIds == (if s.Filled? || s.Gone? then old(orderIds) - {ticker} else old(orderIds))
    {
      if !enabled {
        return false;
      }
      if ticker !in orderIds || orderIds[ticker] == "" {
        return false;
      }
      ghost var b := exchange.book;
      var status := exchange.GetOrderStatus(orderIds[ticker]);
      SubBookSingle(exchange.book, b);
      filled := false;
      if status.Filled? {
        orderIds := orderIds - {ticker};
        filled := true;
      } else if status.Gone? {
        orderIds := orderIds - {ticker};
      }
    }

    /** A process restart: the in-memory order ids are forgotten, the exchange is not. */
    method Restart()
      modifies this
      ensures orderIds == map[]
    {
      orderIds := map[];
    }
  }

  // ------------------------------------------------------------------
  // Whole sessions
  // ------------------------------------------------------------------

  datatype Command =
    | PlaceCmd(ticker: string, qty: int, existing: Option<string>, suffix: string)
    | CancelCmd(ticker: string)
    | CancelOrphanCmd(ticker: string, orderId: string)
    | CheckFillCmd(ticker: string)
    | AdoptCmd(ticker: string, orderId: string)
    | RestartCmd
    | WaitCmd

  /** What the calls of one command may send: a placement only its own order, once it has cleared the book of what it
      saw; any other command nothing. */
  ghost predicate Sends(price: int, command: Command, calls: seq<Call>) {
    match command
    case PlaceCmd(ticker, qty, _, _) => OwnOrders(ticker, price, qty, calls) && ClearsOrRefuses(ticker, calls)
    case _ => NothingPlaced(calls)
  }

  lemma CancelPlacesNothing(ticker: string, current: string, calls: seq<Call>, ok: bool)
    requires CancelProtocol(ticker, current, calls, ok)
    ensures NothingPlaced(calls)
  {
    var bulk := BulkOf(current, calls);
    forall c | 0 <= c < |bulk| ensures !bulk[c].PlaceCall? {
      if c > 0 { assert bulk[1..][c - 1] == bulk[c]; }
    }
    forall c | 0 <= c < |calls| ensures !calls[c].PlaceCall? {
      if current != "" && c > 0 { assert bulk[c - 1] == calls[c]; }
    }
  }

  /** The calls of command `i`. */
  function Sent(calls: seq<Call>, marks: seq<nat>, i: nat): seq<Call>
    requires i + 1 < |marks| && marks[i] <= marks[i + 1] <= |calls|
  {
    calls[marks[i]..marks[i + 1]]
  }

  /** `marks` cuts the calls of a session into those of its commands, and each command sends what it may. */
  ghost predicate Cut(price: int, commands: seq<Command>, calls: seq<Call>, marks: seq<nat>) {
    && |marks| == |commands| + 1 && marks[0] == 0 && marks[|commands|] == |calls|
    && (forall i, j :: 0 <= i <= j < |marks| ==> marks[i] <= marks[j])
    && forall i :: 0 <= i < |commands| ==> Sends(price, commands[i], Sent(calls, marks, i))
  }

  lemma CutStep(price: int, commands: seq<Command>, n: nat, calls: seq<Call>, marks: seq<nat>, now: seq<Call>)
    requires n < |commands| && Cut(price, commands[..n], calls, marks) && calls <= now
    requires Sends(price, commands[n], now[|calls|..])
    ensures Cut(price, commands[..n + 1], now, marks + [|now|])
  {
    hide Sends;
    var more := marks + [|now|];
    forall i | 0 <= i < n + 1 ensures Sends(price, commands[..n + 1][i], Sent(now, more, i)) {
      if i < n {
        assert commands[..n][i] == commands[..n + 1][i];
        assert Sent(now, more, i) == Sent(calls, marks, i);
      } else {
        assert Sent(now, more, n) == now[|calls|..];
      }
    }
  }

  /** In a session, an order that an earlier placement was told is accepted, and that is still in the book when a
      later placement of its market lists it, is sent a cancel by that placement, or the placement sends no order:
      also when the manager has forgotten it. */
  lemma EarlierOrderIsCleared(price: int, commands: seq<Command>, calls: seq<Call>, marks: seq<nat>, a: nat, i: nat,
                              k: nat)
    requires Cut(price, commands, calls, marks) && i < |commands| && commands[i].PlaceCmd?
    requires a < marks[i] && calls[a].PlaceCall? && Usable(calls[a].placement)
      && calls[a].order.ticker == commands[i].ticker
    requires k < |Sent(calls, marks, i)| && Sent(calls, marks, i)[k].ListCall?
    requires var id, shown := calls[a].placement.orderId, Sent(calls, marks, i)[k].shown;
      id in shown && shown[id] == calls[a].order
    ensures var sent := Sent(calls, marks, i);
      || (exists c :: 0 <= c < |sent| && sent[c].CancelCall? && sent[c].id == calls[a].placement.orderId)
      || forall c :: 0 <= c < |sent| ==> !sent[c].PlaceCall?
  {
    var j := CommandOf(price, commands, calls, marks, a, i);
    assert Sends(price, commands[j], Sent(calls, marks, j));
    assert Sent(calls, marks, j)[a - marks[j]] == calls[a];
    assert "APP_PTS_" <= calls[a].order.clientOrderId;
    assert Sends(price, commands[i], Sent(calls, marks, i));
    hide Cut;
  }

  /** The command that made call `a`. */
  lemma {:induction false} CommandOf(price: int, commands: seq<Command>, calls: seq<Call>, marks: seq<nat>, a: nat,
                                     i: nat)
    returns (j: nat)
    requires Cut(price, commands, calls, marks) && i <= |commands| && a < marks[i]
    ensures j < i && marks[j] <= a < marks[j + 1]
  {
    if a >= marks[i - 1] { j := i - 1; } else { j := CommandOf(price, commands, calls, marks, a, i - 1); }
  }

  /** Any sequence of calls, restarts and pauses, from a book with at most one take-profit sell per market: at every
      moment of the session at most one rests, and each command sends only what it may. */
  method Session(m: ProfitTakeSellManager, commands: seq<Command>) returns (ghost marks: seq<nat>)
    requires m.exchange.AlwaysSingle()
    modifies m, m.exchange
    ensures m.exchange.AlwaysSingle()
    ensures old(m.exchange.calls) <= m.exchange.calls
    ensures Cut(m.price, commands, m.exchange.calls[|old(m.exchange.calls)|..], marks)
    ensures |m.exchange.history| >= |old(m.exchange.history)|
    ensures m.exchange.history[..|old(m.exchange.history)|] == old(m.exchange.history)
  {
    marks := [0];
    ghost var c0 := |m.exchange.calls|;
    for i := 0 to |commands|
      invariant m.exchange.AlwaysSingle()
      invariant old(m.exchange.calls) <= m.exchange.calls
      invariant Cut(m.price, commands[..i], m.exchange.calls[c0..], marks)
      invariant |m.exchange.history| >= |old(m.exchange.history)|
      invariant m.exchange.history[..|old(m.exchange.history)|] == old(m.exchange.history)
    {
      ghost var past, c := m.exchange.history, m.exchange.calls;
      RunCommand(m, commands[i]);
      assert m.exchange.calls[c0..][|c[c0..]|..] == m.exchange.calls[|c|..];
      CutStep(m.price, commands, i, c[c0..], marks, m.exchange.calls[c0..]);
      marks := marks + [|m.exchange.calls[c0..]|];
      forall j | 0 <= j < |m.exchange.history| ensures Single(m.exchange.history[j]) {
        if j < |past| { assert m.exchange.history[j] == past[j]; }
      }
    }
    assert commands[..|commands|] == commands;
  }

  method RunCommand(m: ProfitTakeSellManager, command: Command)
    requires Single(m.exchange.book)
    modifies m, m.exchange
    ensures Extends(old(m.exchange.history), m.exchange.history) && Single(m.exchange.book)
    ensures old(m.exchange.calls) <= m.exchange.calls
    ensures Sends(m.price, command, m.exchange.calls[|old(m.exchange.calls)|..])
  {
    hide OwnOrders, ClearsOrRefuses, PlaceProtocol, CancelProtocol, Cleared, CancelEffect;
    ghost var c, b := m.exchange.calls, m.exchange.book;
    match command
    case PlaceCmd(t, qty, existing, suffix) => var _ := m.Place(t, qty, existing, suffix);
    case CancelCmd(t) =>
      ghost var current := m.CurrentId(m.orderIds, t, None);
      var ok, _ := m.Cancel(t);
      if m.enabled { CancelPlacesNothing(t, current, m.exchange.calls[|c|..], ok); }
    case CancelOrphanCmd(t, id) => m.CancelOrphan(t, id);
    case CheckFillCmd(t) => var _ := m.CheckFill(t);
    case AdoptCmd(t, id) => m.SetOrderId(t, id);
    case RestartCmd => m.Restart();
    case WaitCmd =>
      ghost var left := m.exchange.Drift();
      SubBookSingle(m.exchange.book, b);
  }
}
