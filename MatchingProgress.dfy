/** That the matcher trades: a fragment settles the clamp of the request, the demand
    side's cap and the resting quantity; the inner loop moves past a row only after
    emptying it; and a market order that can afford the best resting order trades
    against it first. */
module MatchingProgress {
  import opened Domain
  import opened OrderBook
  import opened Settlement
  import opened Matching
  import opened MatchingBounds

  /** A fragment settles the least of what is wanted, the demand side's cap and what
      rests on the order, and reports exhaustion as the clamp does. */
  lemma SettleClamps(L: Ledger, demander: UserId, side: Side, orderId: nat, requested: int)
    requires WellFormed(L) && demander in L.users && orderId < |L.book|
    ensures var o := L.book[orderId];
      var c := Clamp(requested, DemandCap(L.users[demander], side, o.limitPrice), o.remaining);
      var s := Settle(L, demander, side, orderId, requested);
      s.settled == c.quantity && s.demandExhausted == c.exhausted
  {
  }

  /** A pass of the inner loop after which the loop goes on (something is still wanted
      and the demand side did not run out) has emptied its row: the clamp stopped at the
      resting quantity, so the row is FULFILLED. */
  lemma AdvanceEmptiesRow(p: Progress, demander: UserId, side: Side, orderId: nat)
    requires WellFormed(p.ledger) && demander in p.ledger.users && orderId < |p.ledger.book|
    ensures var a := Advance(p, demander, side, orderId);
      a.progress.remaining != 0 && !a.exhausted ==>
        a.progress.ledger.book[orderId].remaining == 0 && a.progress.ledger.book[orderId].state == Fulfilled
  {
    var L := p.ledger;
    SettleClamps(L, demander, side, orderId, p.remaining);
    SettleWithWrites(L, demander, side, orderId, L.users[L.book[orderId].owner], p.remaining);
  }

  /** A row the walk has emptied stays empty for as long as the walk goes on. */
  lemma {:induction false} WalkPageKeepsEmptied(p: Progress, demander: UserId, side: Side, page: seq<StandingOrder>, i: nat)
    requires WellFormed(p.ledger) && demander in p.ledger.users
    requires forall k :: 0 <= k < |page| ==> page[k].id < |p.ledger.book|
    requires i < |p.ledger.book| && p.ledger.book[i].remaining == 0 && p.ledger.book[i].state == Fulfilled
    ensures var w := WalkPage(p, demander, side, page);
      w.progress.remaining != 0 && !w.exhausted ==>
        w.progress.ledger.book[i].remaining == 0 && w.progress.ledger.book[i].state == Fulfilled
    decreases |page|
  {
    if page != [] {
      var a := Advance(p, demander, side, page[0].id);
      AdvanceEmptiesRow(p, demander, side, page[0].id);
      if a.progress.remaining != 0 && !a.exhausted {
        forall k | 0 <= k < |page[1..]| ensures page[1..][k].id < |a.progress.ledger.book| {
          assert page[1..][k] == page[k + 1];
        }
        WalkPageKeepsEmptied(a.progress, demander, side, page[1..], i);
      }
    }
  }

  /** The stop condition of the inner loop (market_order.go:115-127): a walk that
      ends with satoshis still wanted and the demand side not run out has emptied every
      row of the page, each now FULFILLED. */
  lemma {:induction false} WalkPageEmptiesPage(p: Progress, demander: UserId, side: Side, page: seq<StandingOrder>)
    requires WellFormed(p.ledger) && demander in p.ledger.users
    requires forall k :: 0 <= k < |page| ==> page[k].id < |p.ledger.book|
    ensures var w := WalkPage(p, demander, side, page);
      w.progress.remaining != 0 && !w.exhausted ==>
        forall k :: 0 <= k < |page| ==>
          w.progress.ledger.book[page[k].id].remaining == 0 && w.progress.ledger.book[page[k].id].state == Fulfilled
    decreases |page|
  {
    if page != [] {
      var a := Advance(p, demander, side, page[0].id);
      AdvanceEmptiesRow(p, demander, side, page[0].id);
      if a.progress.remaining != 0 && !a.exhausted {
        var rest := page[1..];
        forall k | 0 <= k < |rest| ensures rest[k].id < |a.progress.ledger.book| {
          assert rest[k] == page[k + 1];
        }
        WalkPageKeepsEmptied(a.progress, demander, side, rest, page[0].id);
        WalkPageEmptiesPage(a.progress, demander, side, rest);
        var w := WalkPage(a.progress, demander, side, rest);
        forall k | 1 <= k < |page|
          ensures w.progress.remaining != 0 && !w.exhausted ==>
            w.progress.ledger.book[page[k].id].remaining == 0 && w.progress.ledger.book[page[k].id].state == Fulfilled
        {
          assert page[k] == rest[k - 1];
        }
      }
    }
  }

  /** The walk of a page goes on from its first fragment: it settles at least that
      fragment and only fills rows after it. */
  lemma WalkAfterFirst(p: Progress, demander: UserId, side: Side, page: seq<StandingOrder>)
    requires WellFormed(p.ledger) && Bounded(p.ledger, demander) && 0 <= p.remaining
    requires page != [] && forall k :: 0 <= k < |page| ==> page[k].id < |p.ledger.book|
    ensures var a := Advance(p, demander, side, page[0].id).progress;
      var w := WalkPage(p, demander, side, page).progress;
      a.satisfied <= w.satisfied && OnlyFills(a.ledger.book, w.ledger.book)
  {
    var a := Advance(p, demander, side, page[0].id);
    AdvanceBounded(p, demander, side, page[0].id);
    if a.progress.remaining != 0 && !a.exhausted {
      forall k | 0 <= k < |page[1..]| ensures page[1..][k].id < |a.progress.ledger.book| {
        assert page[1..][k] == page[k + 1];
      }
      WalkPageBounded(a.progress, demander, side, page[1..]);
    } else {
      assert OnlyFills(a.progress.ledger.book, a.progress.ledger.book);
    }
  }

  /** The outer loop goes on from the walk of its current page: it settles at least
      what that walk settled and only fills rows after it. */
  lemma MatchFromAfterPage(p: Progress, demander: UserId, side: Side, limit: real, offset: nat)
    requires WellFormed(p.ledger) && Bounded(p.ledger, demander) && 0 < p.remaining
    requires offset <= |p.ledger.book|
    ensures var w := WalkPage(p, demander, side, NextPage(p.ledger, side, limit, offset).orders).progress;
      var m := MatchFrom(p, demander, side, limit, offset);
      w.satisfied <= m.satisfied && OnlyFills(w.ledger.book, m.ledger.book)
  {
    var page := NextPage(p.ledger, side, limit, offset);
    var w := WalkPage(p, demander, side, page.orders);
    MatchFromStep(p, demander, side, limit, offset);
    WalkPageBounded(p, demander, side, page.orders);
    if !(w.exhausted || page.lastPage) {
      MatchFromBounded(w.progress, demander, side, limit, offset + PageSize);
      MatchFromOnlyFills(w.progress, demander, side, limit, offset + PageSize);
    } else {
      assert OnlyFills(w.progress.ledger.book, w.progress.ledger.book);
    }
  }

  /** Price priority, and that a market order trades (market_order.go:109-146): when
      something is asked for, the demander can afford at least one satoshi of the best
      resting order and that order has some left, the match reports a trade, of at least
      the fragment settled against that order first, and that order has lost at least
      that fragment. */
  lemma MatchTradesBestRow(L: Ledger, demander: UserId, side: Side, requested: int, limit: real)
    requires WellFormed(L) && Bounded(L, demander) && 0 < requested
    requires NextPage(L, side, limit, 0).orders != []
    requires var r := NextPage(L, side, limit, 0).orders[0];
      0 < r.remaining && 0 < DemandCap(L.users[demander], side, r.limitPrice)
    ensures var r := NextPage(L, side, limit, 0).orders[0];
      var s := Settle(L, demander, side, r.id, requested);
      var m := Match(L, demander, side, requested, limit);
      && 0 < s.settled
      && m.result.Matched? && s.settled <= m.result.satisfied
      && m.ledger.book[r.id].remaining <= r.remaining - s.settled
  {
    var p := Progress(L, requested, 0, 0);
    var page := NextPage(L, side, limit, 0).orders;
    var r := page[0];
    SettleClamps(L, demander, side, r.id, requested);
    SettleWithWrites(L, demander, side, r.id, L.users[r.owner], requested);
    WalkAfterFirst(p, demander, side, page);
    MatchFromAfterPage(p, demander, side, limit, 0);
    var a := Advance(p, demander, side, r.id).progress;
    var w := WalkPage(p, demander, side, page).progress;
    OnlyFillsTransitive(a.ledger.book, w.ledger.book, MatchFrom(p, demander, side, limit, 0).ledger.book);
  }
}
