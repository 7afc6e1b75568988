/** The matcher of market_order.go: settling one fragment against a row of the
    book (BuyViaStandingOrder / SellViaStandingOrder) and walking the book page by
    page (BuySatoshis / SellSatoshis), as functions of the ledger, the rows of the
    user and standing-order tables. */
module Matching {
  import opened Domain
  import opened Money
  import opened OrderBook
  import opened Settlement

  /** The two tables the core reads and writes: user balances by user id and the
      standing orders, each at the position given by its id. */
  datatype Ledger = Ledger(users: map<UserId, User>, book: seq<StandingOrder>)

  /** What the model assumes of every row: ids are positions and each order's owner
      is a registered user, as the store keeps them, and limit prices are positive,
      which the source does not check (see "Left out" in README.md). */
  predicate WellFormed(L: Ledger) {
    forall i :: 0 <= i < |L.book| ==>
      L.book[i].id == i && L.book[i].owner in L.users && L.book[i].limitPrice > 0.0
  }

  /** Writing back a row with its own id, a registered owner and a positive price
      keeps the ledger well formed. */
  lemma WellFormedAfterWrite(L: Ledger, i: nat, o: StandingOrder)
    requires WellFormed(L) && i < |L.book|
    requires o.id == i && o.owner in L.users && o.limitPrice > 0.0
    ensures WellFormed(Ledger(L.users, L.book[i := o]))
  {
  }

  /** A well-formed ledger holds each of its orders at the position given by its id. */
  lemma InBookAtId(L: Ledger, o: StandingOrder)
    requires WellFormed(L) && o in L.book
    ensures o.id < |L.book| && L.book[o.id] == o
  {
  }

  /** Settlement changes no order's identity, owner, side, price or webhook, keeps
      `fulfilled + remaining`, and moves a state only to FULFILLED. */
  predicate SameRows(b: seq<StandingOrder>, b': seq<StandingOrder>) {
    && |b'| == |b|
    && forall i :: 0 <= i < |b| ==>
      && b'[i].id == b[i].id && b'[i].owner == b[i].owner && b'[i].side == b[i].side
      && b'[i].limitPrice == b[i].limitPrice && b'[i].webhookUrl == b[i].webhookUrl
      && b'[i].fulfilled + b'[i].remaining == b[i].fulfilled + b[i].remaining
      && (b'[i].state == b[i].state || b'[i].state == Fulfilled)
  }

  /** One settled fragment: the new ledger and what BuyViaStandingOrder /
      SellViaStandingOrder return. */
  datatype Step = Step(ledger: Ledger, settled: int, usdCents: int, demandExhausted: bool)

  /** A fragment in which the owner's balances are taken from `ownerCopy`; the rows
      are written in the source's order: the order, then the owner, then the demander. */
  function SettleWith(L: Ledger, demander: UserId, side: Side, orderId: nat, ownerCopy: User, requested: int): (s: Step)
    requires WellFormed(L) && demander in L.users && orderId < |L.book|
    ensures WellFormed(s.ledger) && s.ledger.users.Keys == L.users.Keys
    ensures SameRows(L.book, s.ledger.book)
    ensures forall i :: 0 <= i < |L.book| && i != orderId ==> s.ledger.book[i] == L.book[i]
  {
    var order := L.book[orderId];
    var f := if side == Buy then BuyFragment(L.users[demander], ownerCopy, order, requested)
             else SellFragment(L.users[demander], ownerCopy, order, requested);
    Step(Ledger(L.users[order.owner := f.counterparty][demander := f.demander], L.book[orderId := f.order]),
         f.settled, f.usdCents, f.demandExhausted)
  }

  /** What a fragment writes: the order filled by the settled quantity at the cost of
      that quantity, the owner's row replaced by `ownerCopy` moved by the fragment
      (unless the owner is the demander, whose row is written last), the demander's row
      moved the other way, and every other user untouched. */
  lemma SettleWithWrites(L: Ledger, demander: UserId, side: Side, orderId: nat, ownerCopy: User, requested: int)
    requires WellFormed(L) && demander in L.users && orderId < |L.book|
    ensures var s := SettleWith(L, demander, side, orderId, ownerCopy, requested);
      var order := L.book[orderId];
      var d := L.users[demander];
      && s.ledger.book[orderId] == Filled(order, s.settled)
      && s.usdCents == Cost(s.settled, order.limitPrice)
      && (order.owner != demander ==>
          s.ledger.users[order.owner]
            == if side == Buy then User(ownerCopy.usdCents + s.usdCents, ownerCopy.satoshis - s.settled)
               else User(ownerCopy.usdCents - s.usdCents, ownerCopy.satoshis + s.settled))
      && s.ledger.users[demander]
           == (if side == Buy then User(d.usdCents - s.usdCents, d.satoshis + s.settled)
               else User(d.usdCents + s.usdCents, d.satoshis - s.settled))
      && forall u :: u in L.users && u != order.owner && u != demander ==> s.ledger.users[u] == L.users[u]
  {
  }

  /** A fragment against the order `orderId` as the ledger holds it, with its owner's
      balances read from the ledger. */
  function Settle(L: Ledger, demander: UserId, side: Side, orderId: nat, requested: int): (s: Step)
    requires WellFormed(L) && demander in L.users && orderId < |L.book|
    ensures WellFormed(s.ledger) && s.ledger.users.Keys == L.users.Keys
    ensures SameRows(L.book, s.ledger.book)
  {
    SettleWith(L, demander, side, orderId, L.users[L.book[orderId].owner], requested)
  }

  /** The accumulators of the matching loop (market_order.go:97-101). */
  datatype Progress = Progress(ledger: Ledger, remaining: int, satisfied: int, usdCents: int)

  /** A walked page: the progress and whether the demand side ran out (`break outerLoop`). */
  datatype Walked = Walked(progress: Progress, exhausted: bool)

  /** One pass of the inner loop's body: settle against `orderId` with what is still
      wanted and add the fragment to the accumulators; `exhausted` says whether the
      demand side ran out. */
  function Advance(p: Progress, demander: UserId, side: Side, orderId: nat): (a: Walked)
    requires WellFormed(p.ledger) && demander in p.ledger.users && orderId < |p.ledger.book|
    ensures WellFormed(a.progress.ledger) && a.progress.ledger.users.Keys == p.ledger.users.Keys
    ensures |a.progress.ledger.book| == |p.ledger.book|
    ensures a.progress.remaining + a.progress.satisfied == p.remaining + p.satisfied
  {
    var s := Settle(p.ledger, demander, side, orderId, p.remaining);
    Walked(Progress(s.ledger, p.remaining - s.settled, p.satisfied + s.settled, p.usdCents + s.usdCents),
           s.demandExhausted)
  }

  /** One pass of the inner loop, given the fragment it settled. */
  lemma AdvanceSettles(p: Progress, demander: UserId, side: Side, orderId: nat,
                       after: Ledger, settled: int, usdCents: int, exhausted: bool)
    requires WellFormed(p.ledger) && demander in p.ledger.users && orderId < |p.ledger.book|
    requires Settle(p.ledger, demander, side, orderId, p.remaining) == Step(after, settled, usdCents, exhausted)
    ensures Advance(p, demander, side, orderId)
      == Walked(Progress(after, p.remaining - settled, p.satisfied + settled, p.usdCents + usdCents), exhausted)
  {
  }

  /** The inner loop of market_order.go:115-127 (and 252-264) over the rows of one page. */
  function WalkPage(p: Progress, demander: UserId, side: Side, page: seq<StandingOrder>): (w: Walked)
    requires WellFormed(p.ledger) && demander in p.ledger.users
    requires forall k :: 0 <= k < |page| ==> page[k].id < |p.ledger.book|
    ensures WellFormed(w.progress.ledger) && w.progress.ledger.users.Keys == p.ledger.users.Keys
    ensures |w.progress.ledger.book| == |p.ledger.book|
    ensures w.progress.remaining + w.progress.satisfied == p.remaining + p.satisfied
    decreases |page|
  {
    if page == [] then Walked(p, false)
    else
      var a := Advance(p, demander, side, page[0].id);
      if a.progress.remaining == 0 then Walked(a.progress, false)
      else if a.exhausted then a
      else
        WalkPage(a.progress, demander, side, page[1..])
  }

  /** One pass of the inner loop over the rows of a page from the `k`-th on. */
  lemma WalkPageStep(p: Progress, demander: UserId, side: Side, page: seq<StandingOrder>, k: nat)
    requires WellFormed(p.ledger) && demander in p.ledger.users
    requires k < |page| && forall j :: 0 <= j < |page| ==> page[j].id < |p.ledger.book|
    ensures var a := Advance(p, demander, side, page[k].id);
      WalkPage(p, demander, side, page[k..])
        == if a.progress.remaining == 0 then Walked(a.progress, false)
           else if a.exhausted then a
           else WalkPage(a.progress, demander, side, page[k + 1..])
  {
    assert page[k..][0] == page[k];
    assert page[k..][1..] == page[k + 1..];
  }

  /** The outer loop of market_order.go:109-132 (and 246-269), from page `offset` on:
      stop when nothing is left to settle, when the demand side ran out, or after a
      short page. */
  function MatchFrom(p: Progress, demander: UserId, side: Side, limit: real, offset: nat): (r: Progress)
    requires WellFormed(p.ledger) && demander in p.ledger.users
    requires offset <= |p.ledger.book|
    ensures WellFormed(r.ledger) && r.ledger.users.Keys == p.ledger.users.Keys
    ensures |r.ledger.book| == |p.ledger.book|
    ensures r.remaining + r.satisfied == p.remaining + p.satisfied
    decreases |p.ledger.book| - offset
  {
    if p.remaining <= 0 then p
    else
      var page := NextPage(p.ledger, side, limit, offset);
      var w := WalkPage(p, demander, side, page.orders);
      if w.exhausted || page.lastPage then w.progress
      else
        MatchFrom(w.progress, demander, side, limit, offset + PageSize)
  }

  /** One pass of the outer loop. */
  lemma MatchFromStep(p: Progress, demander: UserId, side: Side, limit: real, offset: nat)
    requires WellFormed(p.ledger) && demander in p.ledger.users && offset <= |p.ledger.book|
    requires p.remaining > 0
    ensures var page := NextPage(p.ledger, side, limit, offset);
      var w := WalkPage(p, demander, side, page.orders);
      && (!page.lastPage ==> offset + PageSize <= |w.progress.ledger.book|)
      && MatchFrom(p, demander, side, limit, offset)
           == if w.exhausted || page.lastPage then w.progress
              else MatchFrom(w.progress, demander, side, limit, offset + PageSize)
  {
  }

  /** A walked page changes no row's identity, owner, side, price or webhook, keeps
      each row's `fulfilled + remaining`, and moves a state only to FULFILLED. */
  lemma {:induction false} WalkPageKeepsRows(p: Progress, demander: UserId, side: Side, page: seq<StandingOrder>)
    requires WellFormed(p.ledger) && demander in p.ledger.users
    requires forall k :: 0 <= k < |page| ==> page[k].id < |p.ledger.book|
    ensures SameRows(p.ledger.book, WalkPage(p, demander, side, page).progress.ledger.book)
    decreases |page|
  {
    if page != [] {
      var a := Advance(p, demander, side, page[0].id);
      if a.progress.remaining != 0 && !a.exhausted {
        WalkPageKeepsRows(a.progress, demander, side, page[1..]);
        SameRowsTransitive(p.ledger.book, a.progress.ledger.book,
          WalkPage(a.progress, demander, side, page[1..]).progress.ledger.book);
      }
    }
  }

  /** So does the whole walk of the book from page `offset` on. */
  lemma {:induction false} MatchFromKeepsRows(p: Progress, demander: UserId, side: Side, limit: real, offset: nat)
    requires WellFormed(p.ledger) && demander in p.ledger.users
    requires offset <= |p.ledger.book|
    ensures SameRows(p.ledger.book, MatchFrom(p, demander, side, limit, offset).ledger.book)
    decreases |p.ledger.book| - offset
  {
    if p.remaining > 0 {
      var page := NextPage(p.ledger, side, limit, offset);
      var w := WalkPage(p, demander, side, page.orders);
      WalkPageKeepsRows(p, demander, side, page.orders);
      if !w.exhausted && !page.lastPage {
        MatchFromKeepsRows(w.progress, demander, side, limit, offset + PageSize);
        SameRowsTransitive(p.ledger.book, w.progress.ledger.book,
          MatchFrom(w.progress, demander, side, limit, offset + PageSize).ledger.book);
      }
    }
  }

  /** The page of resting orders of the side opposite to `side` at `offset`. */
  function NextPage(L: Ledger, side: Side, limit: real, offset: nat): (page: Page)
    requires WellFormed(L)
    ensures forall k :: 0 <= k < |page.orders| ==>
      page.orders[k].id < |L.book| && L.book[page.orders[k].id] == page.orders[k]
      && Matches(page.orders[k], side.Opposite(), limit)
    ensures !page.lastPage ==> offset + PageSize <= |L.book|
  {
    var page := StandingOrders(L.book, side.Opposite(), limit, offset, PageSize);
    PageIdsInBook(L, page.orders);
    page
  }

  lemma SameRowsTransitive(a: seq<StandingOrder>, b: seq<StandingOrder>, c: seq<StandingOrder>)
    requires SameRows(a, b) && SameRows(b, c)
    ensures SameRows(a, c)
  {
  }

  lemma PageIdsInBook(L: Ledger, rows: seq<StandingOrder>)
    requires WellFormed(L) && forall o :: o in rows ==> o in L.book
    ensures forall k :: 0 <= k < |rows| ==> rows[k].id < |L.book| && L.book[rows[k].id] == rows[k]
  {
    forall k | 0 <= k < |rows| ensures rows[k].id < |L.book| && L.book[rows[k].id] == rows[k] {
      InBookAtId(L, rows[k]);
    }
  }

  /** What BuySatoshis / SellSatoshis return (market_order.go:133-145). */
  datatype MatchResult = NoMatchingStandingOrders | Matched(satisfied: int, averagePrice: real)

  datatype MatchOutcome = MatchOutcome(ledger: Ledger, result: MatchResult)

  /** `demander` buys (side Buy) or sells (side Sell) `requested` satoshis against the
      book, at prices no worse than `limit` unless `limit` is zero. */
  function Match(L: Ledger, demander: UserId, side: Side, requested: int, limit: real): (m: MatchOutcome)
    requires WellFormed(L) && demander in L.users
    ensures WellFormed(m.ledger) && m.ledger.users.Keys == L.users.Keys
    ensures |m.ledger.book| == |L.book|
  {
    var r := MatchFrom(Progress(L, requested, 0, 0), demander, side, limit, 0);
    MatchOutcome(r.ledger, Outcome(r))
  }

  /** What the matcher reports once the loops end (market_order.go:133-145): nothing
      satisfied is NO_MATCHING_STANDING_ORDERS, otherwise the satisfied quantity and
      the cents paid per satoshi. */
  function Outcome(r: Progress): (o: MatchResult)
    ensures o.NoMatchingStandingOrders? <==> r.satisfied == 0
    ensures o.Matched? ==> o.satisfied == r.satisfied && o.averagePrice * r.satisfied as real == r.usdCents as real
  {
    if r.satisfied == 0 then NoMatchingStandingOrders
    else Matched(r.satisfied, Average(r.usdCents, r.satisfied))
  }
}
