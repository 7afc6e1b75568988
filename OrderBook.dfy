/** The page query over the book of standing orders (market_order.go:26-41 and
    163-178): filter on side, state and limit price, sort by price, then take
    the rows `offset .. offset + size`. */
module OrderBook {
  import opened Domain

  /** Number of rows the matcher asks for per page (market_order.go:98, 235). */
  const PageSize: nat := 10

  /** The WHERE clause of the page query for resting orders of `side`: LIVE, of
      that side, and, when `limit` is not zero, priced at most `limit` (resting
      sells) or at least `limit` (resting buys). */
  predicate Matches(o: StandingOrder, side: Side, limit: real) {
    && o.side == side
    && o.state == Live
    && (limit == 0.0 || (if side == Sell then o.limitPrice <= limit else o.limitPrice >= limit))
  }

  /** The rows of `book` that satisfy the WHERE clause, in book order. */
  function Candidates(book: seq<StandingOrder>, side: Side, limit: real): (r: seq<StandingOrder>)
    ensures |r| <= |book|
    ensures forall o :: o in r <==> o in book && Matches(o, side, limit)
  {
    if book == [] then []
    else
      var rest := Candidates(book[1..], side, limit);
      assert book == [book[0]] + book[1..];
      if Matches(book[0], side, limit) then [book[0]] + rest else rest
  }

  /** The filter keeps every admitted row as often as it occurs in the book and
      drops every other row. */
  lemma {:induction false} CandidatesCount(book: seq<StandingOrder>, side: Side, limit: real)
    ensures forall o ::
      multiset(Candidates(book, side, limit))[o] == if Matches(o, side, limit) then multiset(book)[o] else 0
  {
    if book != [] {
      CandidatesCount(book[1..], side, limit);
      assert book == [book[0]] + book[1..];
    }
  }

  /** The ORDER BY clause: ascending price for resting sells, descending for resting buys. */
  predicate PriceFirst(side: Side, a: StandingOrder, b: StandingOrder) {
    if side == Sell then a.limitPrice <= b.limitPrice else a.limitPrice >= b.limitPrice
  }

  predicate InPriceOrder(s: seq<StandingOrder>, side: Side) {
    forall i, j :: 0 <= i < j < |s| ==> PriceFirst(side, s[i], s[j])
  }

  /** Inserts `o` in front of the first row it does not come after. */
  function Insert(o: StandingOrder, s: seq<StandingOrder>, side: Side): (r: seq<StandingOrder>)
    ensures multiset(r) == multiset(s) + multiset{o}
    ensures |r| == |s| + 1
  {
    if s == [] then [o]
    else if PriceFirst(side, o, s[0]) then [o] + s
    else
      assert s == [s[0]] + s[1..];
      [s[0]] + Insert(o, s[1..], side)
  }

  lemma {:induction false} InsertKeepsPriceOrder(o: StandingOrder, s: seq<StandingOrder>, side: Side)
    requires InPriceOrder(s, side)
    ensures InPriceOrder(Insert(o, s, side), side)
  {
    if s == [] {
    } else if PriceFirst(side, o, s[0]) {
      var r := [o] + s;
      forall i, j | 0 <= i < j < |r| ensures PriceFirst(side, r[i], r[j]) {
        if i == 0 && j > 1 {
          assert PriceFirst(side, s[0], s[j - 1]);
        }
      }
    } else {
      var tail := Insert(o, s[1..], side);
      InsertKeepsPriceOrder(o, s[1..], side);
      assert s == [s[0]] + s[1..];
      forall k | 0 <= k < |tail| ensures PriceFirst(side, s[0], tail[k]) {
        var x := tail[k];
        assert x in multiset(tail);
        if x != o {
          assert x in multiset(s[1..]);
          var m :| 0 <= m < |s[1..]| && s[1..][m] == x;
          assert PriceFirst(side, s[0], s[m + 1]);
        }
      }
      var r := [s[0]] + tail;
      forall i, j | 0 <= i < j < |r| ensures PriceFirst(side, r[i], r[j]) {
        if i > 0 {
          assert PriceFirst(side, tail[i - 1], tail[j - 1]);
        } else {
          assert PriceFirst(side, s[0], tail[j - 1]);
        }
      }
    }
  }

  /** Insertion sort by price; rows of equal price keep their book order. */
  function SortByPrice(s: seq<StandingOrder>, side: Side): (r: seq<StandingOrder>)
    ensures InPriceOrder(r, side)
    ensures multiset(r) == multiset(s)
    ensures |r| == |s|
  {
    if s == [] then []
    else
      assert s == [s[0]] + s[1..];
      var rest := SortByPrice(s[1..], side);
      InsertKeepsPriceOrder(s[0], rest, side);
      Insert(s[0], rest, side)
  }

  /** Every row of the sorted candidates is a row of the book the query admits. */
  lemma SortedCandidateIsAdmitted(book: seq<StandingOrder>, side: Side, limit: real, o: StandingOrder)
    requires o in SortByPrice(Candidates(book, side, limit), side)
    ensures o in book && Matches(o, side, limit)
  {
    var sorted := SortByPrice(Candidates(book, side, limit), side);
    assert o in multiset(sorted);
  }

  /** One page of the query: its rows, and whether it came back short, which the
      source reports as NO_MATCHING_STANDING_ORDERS (`RowsAffected < size`). */
  datatype Page = Page(orders: seq<StandingOrder>, lastPage: bool)

  function Min(a: int, b: int): int { if a <= b then a else b }

  /** OFFSET and LIMIT: the rows `offset .. offset + size` of `s`, fewer at its end. */
  function Window(s: seq<StandingOrder>, offset: nat, size: nat): (w: seq<StandingOrder>)
    ensures |w| == if offset >= |s| then 0 else Min(size, |s| - offset)
    ensures forall k :: 0 <= k < |w| ==> w[k] == s[offset + k]
  {
    if offset >= |s| then [] else s[offset..Min(offset + size, |s|)]
  }

  /** Every row the query admits, in the order of `ORDER BY limit_price`. */
  function Ranked(book: seq<StandingOrder>, side: Side, limit: real): seq<StandingOrder> {
    SortByPrice(Candidates(book, side, limit), side)
  }

  /** Each ranked row is an admitted row of the book, and the ranked rows are in price order. */
  lemma RankedRows(book: seq<StandingOrder>, side: Side, limit: real)
    ensures forall k :: 0 <= k < |Ranked(book, side, limit)| ==>
      Ranked(book, side, limit)[k] in book && Matches(Ranked(book, side, limit)[k], side, limit)
    ensures InPriceOrder(Ranked(book, side, limit), side)
  {
    var r := Ranked(book, side, limit);
    forall k | 0 <= k < |r| ensures r[k] in book && Matches(r[k], side, limit) {
      SortedCandidateIsAdmitted(book, side, limit, r[k]);
    }
  }

  /** A window of price-ordered admitted rows holds only admitted rows, in price order. */
  lemma WindowKeepsRows(s: seq<StandingOrder>, offset: nat, size: nat,
                        book: seq<StandingOrder>, side: Side, limit: real)
    requires forall k :: 0 <= k < |s| ==> s[k] in book && Matches(s[k], side, limit)
    requires InPriceOrder(s, side)
    ensures forall o :: o in Window(s, offset, size) ==> o in book && Matches(o, side, limit)
    ensures InPriceOrder(Window(s, offset, size), side)
  {
    var w := Window(s, offset, size);
    forall o | o in w ensures o in book && Matches(o, side, limit) {
      var k :| 0 <= k < |w| && w[k] == o;
      assert s[offset + k] == o;
    }
    forall i, j | 0 <= i < j < |w| ensures PriceFirst(side, w[i], w[j]) {
      assert w[i] == s[offset + i] && w[j] == s[offset + j];
    }
  }

  /** The page the query returns for rows `offset .. offset + size`. */
  function StandingOrders(book: seq<StandingOrder>, side: Side, limit: real, offset: nat, size: nat): (p: Page)
    ensures var r := Ranked(book, side, limit);
      |p.orders| == if offset >= |r| then 0 else Min(size, |r| - offset)
    ensures forall k :: 0 <= k < |p.orders| ==> p.orders[k] == Ranked(book, side, limit)[offset + k]
    ensures |p.orders| <= size
    ensures p.lastPage <==> |p.orders| < size
    ensures 0 < size && !p.lastPage ==> offset + size <= |book|
    ensures forall o :: o in p.orders ==> o in book && Matches(o, side, limit)
    ensures InPriceOrder(p.orders, side)
  {
    var rows := Window(Ranked(book, side, limit), offset, size);
    RankedRows(book, side, limit);
    WindowKeepsRows(Ranked(book, side, limit), offset, size, book, side, limit);
    Page(rows, |rows| < size)
  }

  /** getStandingSellOrders: the page of resting sells a buyer walks. */
  function StandingSellOrders(book: seq<StandingOrder>, limit: real, offset: nat, size: nat): (p: Page)
    ensures forall o :: o in p.orders ==> o in book && o.side == Sell && o.state == Live
    ensures limit != 0.0 ==> forall o :: o in p.orders ==> o.limitPrice <= limit
    ensures forall i, j :: 0 <= i < j < |p.orders| ==> p.orders[i].limitPrice <= p.orders[j].limitPrice
    ensures var r := Ranked(book, Sell, limit);
      |p.orders| == if offset >= |r| then 0 else Min(size, |r| - offset)
    ensures forall k :: 0 <= k < |p.orders| ==> p.orders[k] == Ranked(book, Sell, limit)[offset + k]
    ensures p.lastPage <==> |p.orders| < size
  {
    var p := StandingOrders(book, Sell, limit, offset, size);
    assert forall i, j :: 0 <= i < j < |p.orders| ==> PriceFirst(Sell, p.orders[i], p.orders[j]);
    p
  }

  /** getStandingBuyOrders: the page of resting buys a seller walks. */
  function StandingBuyOrders(book: seq<StandingOrder>, limit: real, offset: nat, size: nat): (p: Page)
    ensures forall o :: o in p.orders ==> o in book && o.side == Buy && o.state == Live
    ensures limit != 0.0 ==> forall o :: o in p.orders ==> o.limitPrice >= limit
    ensures forall i, j :: 0 <= i < j < |p.orders| ==> p.orders[i].limitPrice >= p.orders[j].limitPrice
    ensures var r := Ranked(book, Buy, limit);
      |p.orders| == if offset >= |r| then 0 else Min(size, |r| - offset)
    ensures forall k :: 0 <= k < |p.orders| ==> p.orders[k] == Ranked(book, Buy, limit)[offset + k]
    ensures p.lastPage <==> |p.orders| < size
  {
    var p := StandingOrders(book, Buy, limit, offset, size);
    assert forall i, j :: 0 <= i < j < |p.orders| ==> PriceFirst(Buy, p.orders[i], p.orders[j]);
    p
  }

  /** Price priority: the first row of the first page is at least as good a price
      as every order the query admits. */
  lemma {:induction false} FirstRowHasBestPrice(book: seq<StandingOrder>, side: Side, limit: real, size: nat, o: StandingOrder)
    requires o in book && Matches(o, side, limit)
    requires 0 < size
    ensures var p := StandingOrders(book, side, limit, 0, size);
      p.orders != [] && PriceFirst(side, p.orders[0], o)
  {
    var cands := Candidates(book, side, limit);
    var sorted := SortByPrice(cands, side);
    assert o in multiset(cands);
    assert o in sorted;
    var k :| 0 <= k < |sorted| && sorted[k] == o;
    if k > 0 {
      assert PriceFirst(side, sorted[0], sorted[k]);
    }
  }
}
