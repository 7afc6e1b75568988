/** What the matcher guarantees: money and satoshis are only moved, never created
    or destroyed; the demander never overdraws; the order rows only fill. */
module MatchingFacts {
  import opened Domain
  import opened Money
  import opened OrderBook
  import opened Settlement
  import opened Matching

  datatype Asset = UsdCents | Satoshis

  function Holding(u: User, a: Asset): int {
    if a == UsdCents then u.usdCents else u.satoshis
  }

  /** The amount of `a` held by all users together. */
  ghost function Total(users: map<UserId, User>, a: Asset): int
    decreases |users|
  {
    if users == map[] then 0
    else
      var k :| k in users;
      Holding(users[k], a) + Total(users - {k}, a)
  }

  lemma {:induction false} TotalRemove(users: map<UserId, User>, k: UserId, a: Asset)
    requires k in users
    ensures Total(users, a) == Holding(users[k], a) + Total(users - {k}, a)
    decreases |users|
  {
    var j :| j in users && Total(users, a) == Holding(users[j], a) + Total(users - {j}, a);
    if j != k {
      TotalRemove(users - {j}, k, a);
      TotalRemove(users - {k}, j, a);
      assert (users - {j}) - {k} == (users - {k}) - {j};
    }
  }

  lemma TotalUpdate(users: map<UserId, User>, k: UserId, u: User, a: Asset)
    requires k in users
    ensures Total(users[k := u], a) == Total(users, a) - Holding(users[k], a) + Holding(u, a)
  {
    TotalRemove(users[k := u], k, a);
    TotalRemove(users, k, a);
    assert users[k := u] - {k} == users - {k};
  }

  /** `after` is `before` having bought (side Buy) or sold (side Sell) `q` satoshis
      for `cents` USD cents. */
  predicate Credited(before: User, after: User, side: Side, q: int, cents: int) {
    if side == Buy then after.usdCents == before.usdCents - cents && after.satoshis == before.satoshis + q
    else after.usdCents == before.usdCents + cents && after.satoshis == before.satoshis - q
  }

  /** A fragment between two different users keeps the total of each asset. */
  lemma SettleConserves(L: Ledger, demander: UserId, side: Side, orderId: nat, requested: int, a: Asset)
    requires WellFormed(L) && demander in L.users && orderId < |L.book|
    requires L.book[orderId].owner != demander
    ensures Total(Settle(L, demander, side, orderId, requested).ledger.users, a) == Total(L.users, a)
  {
    var order := L.book[orderId];
    var f := if side == Buy then BuyFragment(L.users[demander], L.users[order.owner], order, requested)
             else SellFragment(L.users[demander], L.users[order.owner], order, requested);
    var u1 := L.users[order.owner := f.counterparty];
    TotalUpdate(L.users, order.owner, f.counterparty, a);
    TotalUpdate(u1, demander, f.demander, a);
  }

  /** The demander owns no LIVE order on the side it trades against. */
  predicate SelfTradeFree(book: seq<StandingOrder>, demander: UserId, side: Side) {
    forall i :: 0 <= i < |book| && book[i].side == side.Opposite() && book[i].state == Live ==>
      book[i].owner != demander
  }

  /** One pass of the inner loop keeps the total of each asset. */
  lemma AdvanceConserves(p: Progress, demander: UserId, side: Side, orderId: nat, a: Asset)
    requires WellFormed(p.ledger) && demander in p.ledger.users && orderId < |p.ledger.book|
    requires p.ledger.book[orderId].owner != demander
    ensures Total(Advance(p, demander, side, orderId).progress.ledger.users, a) == Total(p.ledger.users, a)
  {
    SettleConserves(p.ledger, demander, side, orderId, p.remaining, a);
  }

  /** One pass of the inner loop credits the demander with what it added to the
      accumulators. */
  lemma AdvanceCredits(p: Progress, demander: UserId, side: Side, orderId: nat)
    requires WellFormed(p.ledger) && demander in p.ledger.users && orderId < |p.ledger.book|
    ensures var n := Advance(p, demander, side, orderId).progress;
      Credited(p.ledger.users[demander], n.ledger.users[demander], side, n.satisfied - p.satisfied, n.usdCents - p.usdCents)
  {
  }

  lemma CreditChain(u0: User, u1: User, u2: User, side: Side, s0: int, s1: int, s2: int, c0: int, c1: int, c2: int)
    requires Credited(u0, u1, side, s1 - s0, c1 - c0)
    requires Credited(u1, u2, side, s2 - s1, c2 - c1)
    ensures Credited(u0, u2, side, s2 - s0, c2 - c0)
  {
  }

  lemma {:induction false} WalkPageConserves(p: Progress, demander: UserId, side: Side, page: seq<StandingOrder>, a: Asset)
    requires WellFormed(p.ledger) && demander in p.ledger.users
    requires forall k :: 0 <= k < |page| ==>
      page[k].id < |p.ledger.book| && p.ledger.book[page[k].id].owner != demander
    ensures Total(WalkPage(p, demander, side, page).progress.ledger.users, a) == Total(p.ledger.users, a)
    decreases |page|
  {
    if page != [] {
      var n := Advance(p, demander, side, page[0].id);
      AdvanceConserves(p, demander, side, page[0].id, a);
      if !(n.progress.remaining == 0 || n.exhausted) {
        var q := n.progress;
        forall k | 0 <= k < |page[1..]|
          ensures page[1..][k].id < |q.ledger.book| && q.ledger.book[page[1..][k].id].owner != demander
        {
          assert page[1..][k] == page[k + 1];
        }
        WalkPageConserves(q, demander, side, page[1..], a);
      }
    }
  }

  lemma {:induction false} WalkPageCredits(p: Progress, demander: UserId, side: Side, page: seq<StandingOrder>)
    requires WellFormed(p.ledger) && demander in p.ledger.users
    requires forall k :: 0 <= k < |page| ==> page[k].id < |p.ledger.book|
    ensures var w := WalkPage(p, demander, side, page).progress;
      Credited(p.ledger.users[demander], w.ledger.users[demander], side, w.satisfied - p.satisfied, w.usdCents - p.usdCents)
    decreases |page|
  {
    if page == [] {
    } else {
      var n := Advance(p, demander, side, page[0].id);
      AdvanceCredits(p, demander, side, page[0].id);
      if !(n.progress.remaining == 0 || n.exhausted) {
        var q := n.progress;
        forall k | 0 <= k < |page[1..]|
          ensures page[1..][k].id < |q.ledger.book|
        {
          assert page[1..][k] == page[k + 1];
        }
        WalkPageCredits(q, demander, side, page[1..]);
        var w := WalkPage(q, demander, side, page[1..]).progress;
        CreditChain(p.ledger.users[demander], q.ledger.users[demander], w.ledger.users[demander], side,
          p.satisfied, q.satisfied, w.satisfied, p.usdCents, q.usdCents, w.usdCents);
      }
    }
  }

  lemma SelfTradeFreeKept(b: seq<StandingOrder>, b': seq<StandingOrder>, demander: UserId, side: Side)
    requires SameRows(b, b') && SelfTradeFree(b, demander, side)
    ensures SelfTradeFree(b', demander, side)
  {
  }

  lemma {:induction false} MatchFromConserves(p: Progress, demander: UserId, side: Side, limit: real, offset: nat, a: Asset)
    requires WellFormed(p.ledger) && demander in p.ledger.users && offset <= |p.ledger.book|
    requires SelfTradeFree(p.ledger.book, demander, side)
    ensures Total(MatchFrom(p, demander, side, limit, offset).ledger.users, a) == Total(p.ledger.users, a)
    decreases |p.ledger.book| - offset
  {
    if p.remaining > 0 {
      var page := NextPage(p.ledger, side, limit, offset);
      WalkPageConserves(p, demander, side, page.orders, a);
      var w := WalkPage(p, demander, side, page.orders);
      if !(w.exhausted || page.lastPage) {
        WalkPageKeepsRows(p, demander, side, page.orders);
        SelfTradeFreeKept(p.ledger.book, w.progress.ledger.book, demander, side);
        MatchFromConserves(w.progress, demander, side, limit, offset + PageSize, a);
      }
    }
  }

  lemma {:induction false} MatchFromCredits(p: Progress, demander: UserId, side: Side, limit: real, offset: nat)
    requires WellFormed(p.ledger) && demander in p.ledger.users && offset <= |p.ledger.book|
    ensures var r := MatchFrom(p, demander, side, limit, offset);
      Credited(p.ledger.users[demander], r.ledger.users[demander], side, r.satisfied - p.satisfied, r.usdCents - p.usdCents)
    decreases |p.ledger.book| - offset
  {
    if p.remaining > 0 {
      var page := NextPage(p.ledger, side, limit, offset);
      WalkPageCredits(p, demander, side, page.orders);
      var w := WalkPage(p, demander, side, page.orders);
      if !(w.exhausted || page.lastPage) {
        MatchFromCredits(w.progress, demander, side, limit, offset + PageSize);
        var q := w.progress;
        var r := MatchFrom(q, demander, side, limit, offset + PageSize);
        CreditChain(p.ledger.users[demander], q.ledger.users[demander], r.ledger.users[demander], side,
          p.satisfied, q.satisfied, r.satisfied, p.usdCents, q.usdCents, r.usdCents);
      }
    }
  }

  /** Conservation (market_order.go:65-70, 202-207): a match moves USD cents and
      satoshis between users without creating or destroying any. */
  lemma MatchConserves(L: Ledger, demander: UserId, side: Side, requested: int, limit: real)
    requires WellFormed(L) && demander in L.users
    requires SelfTradeFree(L.book, demander, side)
    ensures var m := Match(L, demander, side, requested, limit);
      && Total(m.ledger.users, UsdCents) == Total(L.users, UsdCents)
      && Total(m.ledger.users, Satoshis) == Total(L.users, Satoshis)
  {
    var p := Progress(L, requested, 0, 0);
    MatchFromConserves(p, demander, side, limit, 0, UsdCents);
    MatchFromConserves(p, demander, side, limit, 0, Satoshis);
  }

  /** What a match result says about the demander's balances: nothing satisfied
      leaves its satoshis alone; otherwise its satoshis moved by `satisfied` and
      `averagePrice` is the cents moved per satoshi. */
  predicate ReportsCredit(before: User, after: User, side: Side, result: MatchResult) {
    match result
    case NoMatchingStandingOrders => after.satoshis == before.satoshis
    case Matched(q, avg) =>
      q != 0 &&
      if side == Buy then
        after.satoshis == before.satoshis + q && avg == Average(before.usdCents - after.usdCents, q)
      else
        after.satoshis == before.satoshis - q && avg == Average(after.usdCents - before.usdCents, q)
  }

  lemma OutcomeReportsCredit(before: User, after: User, side: Side, p: Progress, r: Progress)
    requires p.satisfied == 0 && p.usdCents == 0
    requires Credited(before, after, side, r.satisfied - p.satisfied, r.usdCents - p.usdCents)
    ensures ReportsCredit(before, after, side, Outcome(r))
  {
  }

  /** The demander's balances change by exactly the satoshis the match reports and
      their average price. */
  lemma MatchCreditsDemander(L: Ledger, demander: UserId, side: Side, requested: int, limit: real)
    requires WellFormed(L) && demander in L.users
    ensures var m := Match(L, demander, side, requested, limit);
      ReportsCredit(L.users[demander], m.ledger.users[demander], side, m.result)
  {
    var p := Progress(L, requested, 0, 0);
    MatchFromCredits(p, demander, side, limit, 0);
    var r := MatchFrom(p, demander, side, limit, 0);
    OutcomeReportsCredit(L.users[demander], r.ledger.users[demander], side, p, r);
  }
}
