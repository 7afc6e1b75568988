/** What a match leaves alone: a row the query never admits keeps every column, so a
    CANCELLED or FULFILLED order gains no fill, and a user who is neither the
    demander nor the owner of an admitted row keeps both balances. */
module MatchingFrame {
  import opened Domain
  import opened OrderBook
  import opened Settlement
  import opened Matching

  /** `u` is neither the demander nor the owner of a row of `L0` that a demand of
      `side` at `limit` can trade against. */
  predicate Bystander(L0: Ledger, u: UserId, demander: UserId, side: Side, limit: real) {
    && u != demander
    && forall i :: 0 <= i < |L0.book| && Matches(L0.book[i], side.Opposite(), limit) ==> L0.book[i].owner != u
  }

  /** Since `L0`, no row changed owner, no row the query does not admit changed, and
      no bystander's balances changed. */
  predicate Untouched(L0: Ledger, L: Ledger, demander: UserId, side: Side, limit: real) {
    && |L.book| == |L0.book|
    && (forall i :: 0 <= i < |L0.book| ==> L.book[i].owner == L0.book[i].owner)
    && (forall i :: 0 <= i < |L0.book| && !Matches(L0.book[i], side.Opposite(), limit) ==> L.book[i] == L0.book[i])
    && (forall u :: u in L0.users && Bystander(L0, u, demander, side, limit) ==> u in L.users && L.users[u] == L0.users[u])
  }

  /** One pass of the inner loop against a row the query admitted in `L0` writes only
      that row and the balances of its owner and of the demander. */
  lemma AdvanceFrame(L0: Ledger, p: Progress, demander: UserId, side: Side, limit: real, orderId: nat)
    requires WellFormed(p.ledger) && demander in p.ledger.users && orderId < |p.ledger.book|
    requires p.ledger.users.Keys == L0.users.Keys
    requires Untouched(L0, p.ledger, demander, side, limit)
    requires Matches(L0.book[orderId], side.Opposite(), limit)
    ensures Untouched(L0, Advance(p, demander, side, orderId).progress.ledger, demander, side, limit)
  {
    var L := p.ledger;
    SettleWithWrites(L, demander, side, orderId, L.users[L.book[orderId].owner], p.remaining);
  }

  /** The inner loop over a page of rows the query admitted in `L0`. */
  lemma {:induction false} WalkPageFrame(L0: Ledger, p: Progress, demander: UserId, side: Side, limit: real,
                                         page: seq<StandingOrder>)
    requires WellFormed(p.ledger) && demander in p.ledger.users
    requires p.ledger.users.Keys == L0.users.Keys
    requires Untouched(L0, p.ledger, demander, side, limit)
    requires forall k :: 0 <= k < |page| ==>
      page[k].id < |p.ledger.book| && Matches(L0.book[page[k].id], side.Opposite(), limit)
    ensures Untouched(L0, WalkPage(p, demander, side, page).progress.ledger, demander, side, limit)
    decreases |page|
  {
    if page != [] {
      AdvanceFrame(L0, p, demander, side, limit, page[0].id);
      var a := Advance(p, demander, side, page[0].id);
      if a.progress.remaining != 0 && !a.exhausted {
        forall k | 0 <= k < |page[1..]|
          ensures page[1..][k].id < |a.progress.ledger.book|
            && Matches(L0.book[page[1..][k].id], side.Opposite(), limit)
        {
          assert page[1..][k] == page[k + 1];
        }
        WalkPageFrame(L0, a.progress, demander, side, limit, page[1..]);
      }
    }
  }

  /** Every row of a page is a row the query admitted in `L0`: an unadmitted row of
      `L0` is unchanged, so the query still does not admit it. */
  lemma PageAdmittedAtStart(L0: Ledger, L: Ledger, demander: UserId, side: Side, limit: real, offset: nat)
    requires WellFormed(L) && Untouched(L0, L, demander, side, limit)
    ensures var page := NextPage(L, side, limit, offset).orders;
      forall k :: 0 <= k < |page| ==> page[k].id < |L.book| && Matches(L0.book[page[k].id], side.Opposite(), limit)
  {
    var page := NextPage(L, side, limit, offset).orders;
    forall k | 0 <= k < |page|
      ensures page[k].id < |L.book| && Matches(L0.book[page[k].id], side.Opposite(), limit)
    {
      assert L.book[page[k].id] == page[k] && Matches(page[k], side.Opposite(), limit);
    }
  }

  /** One page of the outer loop: walking the page the query returns at `offset`
      keeps the frame. */
  lemma PageFrame(L0: Ledger, p: Progress, demander: UserId, side: Side, limit: real, offset: nat)
    requires WellFormed(p.ledger) && demander in p.ledger.users
    requires p.ledger.users.Keys == L0.users.Keys
    requires Untouched(L0, p.ledger, demander, side, limit)
    ensures Untouched(L0, WalkPage(p, demander, side, NextPage(p.ledger, side, limit, offset).orders).progress.ledger,
                      demander, side, limit)
  {
    PageAdmittedAtStart(L0, p.ledger, demander, side, limit, offset);
    WalkPageFrame(L0, p, demander, side, limit, NextPage(p.ledger, side, limit, offset).orders);
  }

  /** The outer loop from page `offset` on. */
  lemma {:induction false} MatchFromFrame(L0: Ledger, p: Progress, demander: UserId, side: Side, limit: real, offset: nat)
    requires WellFormed(p.ledger) && demander in p.ledger.users && offset <= |p.ledger.book|
    requires p.ledger.users.Keys == L0.users.Keys
    requires Untouched(L0, p.ledger, demander, side, limit)
    ensures Untouched(L0, MatchFrom(p, demander, side, limit, offset).ledger, demander, side, limit)
    decreases |p.ledger.book| - offset
  {
    if p.remaining > 0 {
      var page := NextPage(p.ledger, side, limit, offset);
      PageFrame(L0, p, demander, side, limit, offset);
      var w := WalkPage(p, demander, side, page.orders);
      if !w.exhausted && !page.lastPage {
        MatchFromFrame(L0, w.progress, demander, side, limit, offset + PageSize);
      }
    }
  }

  /** Nothing else changes (market_order.go:97-146): a match writes no row the query
      does not admit, so no CANCELLED or FULFILLED order gains a fill, and leaves the
      balances of every user other than the demander and the owners of admitted rows. */
  lemma MatchFrame(L: Ledger, demander: UserId, side: Side, requested: int, limit: real)
    requires WellFormed(L) && demander in L.users
    ensures var m := Match(L, demander, side, requested, limit);
      && (forall i :: 0 <= i < |L.book| && !Matches(L.book[i], side.Opposite(), limit) ==>
            m.ledger.book[i] == L.book[i])
      && (forall u :: u in L.users && Bystander(L, u, demander, side, limit) ==>
            m.ledger.users[u] == L.users[u])
  {
    MatchFromFrame(L, Progress(L, requested, 0, 0), demander, side, limit, 0);
  }

  /** In particular a CANCELLED order is never filled by a match. */
  lemma MatchKeepsCancelled(L: Ledger, demander: UserId, side: Side, requested: int, limit: real, i: nat)
    requires WellFormed(L) && demander in L.users
    requires i < |L.book| && L.book[i].state == Cancelled
    ensures Match(L, demander, side, requested, limit).ledger.book[i] == L.book[i]
  {
    MatchFrame(L, demander, side, requested, limit);
  }
}
