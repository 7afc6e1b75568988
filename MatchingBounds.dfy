/** Bounds the matcher keeps: a demander with no debt never goes into debt, resting
    orders only fill, and a reported match lies between one satoshi and the quantity
    asked for. */
module MatchingBounds {
  import opened Domain
  import opened Money
  import opened OrderBook
  import opened Settlement
  import opened Matching

  /** The demander holds no negative balance and no row of the book has a negative
      remaining quantity. */
  predicate Bounded(L: Ledger, demander: UserId) {
    && demander in L.users
    && 0 <= L.users[demander].usdCents && 0 <= L.users[demander].satoshis
    && forall i :: 0 <= i < |L.book| ==> 0 <= L.book[i].remaining
  }

  /** Every row of `b'` has what is left of the same row of `b` after a fill. */
  predicate OnlyFills(b: seq<StandingOrder>, b': seq<StandingOrder>) {
    && |b'| == |b|
    && forall i :: 0 <= i < |b| ==> 0 <= b'[i].remaining <= b[i].remaining
  }

  lemma OnlyFillsTransitive(a: seq<StandingOrder>, b: seq<StandingOrder>, c: seq<StandingOrder>)
    requires OnlyFills(a, b) && OnlyFills(b, c)
    ensures OnlyFills(a, c)
  {
  }

  /** One fragment settles between nothing and what is still wanted, and keeps the bounds. */
  lemma AdvanceBounded(p: Progress, demander: UserId, side: Side, orderId: nat)
    requires WellFormed(p.ledger) && orderId < |p.ledger.book|
    requires Bounded(p.ledger, demander) && 0 <= p.remaining
    ensures var n := Advance(p, demander, side, orderId).progress;
      && Bounded(n.ledger, demander)
      && OnlyFills(p.ledger.book, n.ledger.book)
      && p.satisfied <= n.satisfied
      && 0 <= n.remaining <= p.remaining
  {
  }

  lemma {:induction false} WalkPageBounded(p: Progress, demander: UserId, side: Side, page: seq<StandingOrder>)
    requires WellFormed(p.ledger) && forall k :: 0 <= k < |page| ==> page[k].id < |p.ledger.book|
    requires Bounded(p.ledger, demander) && 0 <= p.remaining
    ensures var w := WalkPage(p, demander, side, page).progress;
      && Bounded(w.ledger, demander)
      && OnlyFills(p.ledger.book, w.ledger.book)
      && p.satisfied <= w.satisfied
      && 0 <= w.remaining <= p.remaining
    decreases |page|
  {
    if page != [] {
      var n := Advance(p, demander, side, page[0].id);
      AdvanceBounded(p, demander, side, page[0].id);
      if !(n.progress.remaining == 0 || n.exhausted) {
        var q := n.progress;
        forall k | 0 <= k < |page[1..]| ensures page[1..][k].id < |q.ledger.book| {
          assert page[1..][k] == page[k + 1];
        }
        WalkPageBounded(q, demander, side, page[1..]);
        OnlyFillsTransitive(p.ledger.book, q.ledger.book, WalkPage(q, demander, side, page[1..]).progress.ledger.book);
      }
    }
  }

  lemma {:induction false} MatchFromBounded(p: Progress, demander: UserId, side: Side, limit: real, offset: nat)
    requires WellFormed(p.ledger) && offset <= |p.ledger.book|
    requires Bounded(p.ledger, demander) && 0 <= p.remaining
    ensures var r := MatchFrom(p, demander, side, limit, offset);
      && Bounded(r.ledger, demander)
      && p.satisfied <= r.satisfied
      && 0 <= r.remaining <= p.remaining
    decreases |p.ledger.book| - offset
  {
    if p.remaining > 0 {
      var page := NextPage(p.ledger, side, limit, offset);
      WalkPageBounded(p, demander, side, page.orders);
      var w := WalkPage(p, demander, side, page.orders);
      if !(w.exhausted || page.lastPage) {
        MatchFromBounded(w.progress, demander, side, limit, offset + PageSize);
      }
    }
  }

  lemma {:induction false} MatchFromOnlyFills(p: Progress, demander: UserId, side: Side, limit: real, offset: nat)
    requires WellFormed(p.ledger) && offset <= |p.ledger.book|
    requires Bounded(p.ledger, demander) && 0 <= p.remaining
    ensures OnlyFills(p.ledger.book, MatchFrom(p, demander, side, limit, offset).ledger.book)
    decreases |p.ledger.book| - offset
  {
    if p.remaining > 0 {
      var page := NextPage(p.ledger, side, limit, offset);
      WalkPageBounded(p, demander, side, page.orders);
      var w := WalkPage(p, demander, side, page.orders);
      if !(w.exhausted || page.lastPage) {
        MatchFromOnlyFills(w.progress, demander, side, limit, offset + PageSize);
        OnlyFillsTransitive(p.ledger.book, w.progress.ledger.book,
          MatchFrom(w.progress, demander, side, limit, offset + PageSize).ledger.book);
      }
    } else {
      assert OnlyFills(p.ledger.book, p.ledger.book);
    }
  }

  /** A reported match settled between one satoshi and the quantity asked for; a
      quantity that is not positive matches nothing and changes nothing
      (market_order.go:109, 133-135); a demander with no debt ends with none; and
      resting orders only lose quantity. */
  lemma MatchBounded(L: Ledger, demander: UserId, side: Side, requested: int, limit: real)
    requires WellFormed(L) && Bounded(L, demander)
    ensures var m := Match(L, demander, side, requested, limit);
      && Bounded(m.ledger, demander)
      && OnlyFills(L.book, m.ledger.book)
      && (m.result.Matched? ==> 0 < m.result.satisfied <= requested)
      && (requested <= 0 ==> m.result.NoMatchingStandingOrders? && m.ledger == L)
  {
    var p := Progress(L, requested, 0, 0);
    if requested > 0 {
      MatchFromBounded(p, demander, side, limit, 0);
      MatchFromOnlyFills(p, demander, side, limit, 0);
    } else {
      assert OnlyFills(L.book, L.book);
    }
  }
}
