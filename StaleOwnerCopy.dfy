/** The inner matching loop as market_order.go:115-127 runs it, where the owner of
    each row is the copy of the user loaded together with the page
    (`seller := standingOrder.User`, market_order.go:46; likewise market_order.go:183).
    When one owner has two rows on the same page, saving the second copy overwrites
    the credit the first fragment wrote. The rest of the model settles against the
    owner's current balances (`Matching.Settle`). */
module StaleOwnerCopy {
  import opened Domain
  import opened Settlement
  import opened OrderBook
  import opened Matching
  import opened MatchingFacts

  /** One pass of the inner loop's body as written: settle against `o` with its owner's
      balances taken from `loaded`, and add the fragment to the accumulators. */
  function AdvanceAsWritten(p: Progress, demander: UserId, side: Side, o: StandingOrder,
                            loaded: map<UserId, User>): (a: Walked)
    requires WellFormed(p.ledger) && demander in p.ledger.users
    requires o.id < |p.ledger.book| && o.owner in loaded
    ensures WellFormed(a.progress.ledger) && a.progress.ledger.users.Keys == p.ledger.users.Keys
    ensures |a.progress.ledger.book| == |p.ledger.book|
    ensures a.progress.remaining + a.progress.satisfied == p.remaining + p.satisfied
  {
    var s := SettleWith(p.ledger, demander, side, o.id, loaded[o.owner], p.remaining);
    Walked(Progress(s.ledger, p.remaining - s.settled, p.satisfied + s.settled, p.usdCents + s.usdCents),
           s.demandExhausted)
  }

  /** One pass of the inner loop as written, given the fragment it settled. */
  lemma AdvanceAsWrittenSettles(p: Progress, demander: UserId, side: Side, o: StandingOrder,
                                loaded: map<UserId, User>, after: Ledger, settled: int, usdCents: int, exhausted: bool)
    requires WellFormed(p.ledger) && demander in p.ledger.users
    requires o.id < |p.ledger.book| && o.owner in loaded
    requires SettleWith(p.ledger, demander, side, o.id, loaded[o.owner], p.remaining)
      == Step(after, settled, usdCents, exhausted)
    ensures AdvanceAsWritten(p, demander, side, o, loaded)
      == Walked(Progress(after, p.remaining - settled, p.satisfied + settled, p.usdCents + usdCents), exhausted)
  {
  }

  /** The inner loop with every row's owner taken from `loaded`, the users as the
      page query read them. */
  function WalkPageAsWritten(p: Progress, demander: UserId, side: Side, page: seq<StandingOrder>,
                             loaded: map<UserId, User>): (w: Walked)
    requires WellFormed(p.ledger) && demander in p.ledger.users
    requires forall k :: 0 <= k < |page| ==> page[k].id < |p.ledger.book| && page[k].owner in loaded
    ensures WellFormed(w.progress.ledger) && w.progress.ledger.users.Keys == p.ledger.users.Keys
    ensures |w.progress.ledger.book| == |p.ledger.book|
    ensures w.progress.remaining + w.progress.satisfied == p.remaining + p.satisfied
    decreases |page|
  {
    if page == [] then Walked(p, false)
    else
      var a := AdvanceAsWritten(p, demander, side, page[0], loaded);
      if a.progress.remaining == 0 then Walked(a.progress, false)
      else if a.exhausted then a
      else WalkPageAsWritten(a.progress, demander, side, page[1..], loaded)
  }

  /** A buyer `a` holding `buyer` and a seller `s` holding `seller`, with two resting
      sells of 5 satoshis at 1 cent each by `s`, of which `filled0` and `filled1` are
      settled. */
  function Example(a: UserId, s: UserId, buyer: User, seller: User, filled0: int, filled1: int): (L: Ledger)
    requires a != s
    ensures WellFormed(L) && a in L.users && s in L.users
    ensures L.users[a] == buyer && L.users[s] == seller
    ensures |L.book| == 2 && L.book[0].id == 0 && L.book[1].id == 1
    ensures L.book[0].owner == s && L.book[1].owner == s
  {
    Ledger(map[a := buyer, s := seller], [Row(0, s, filled0), Row(1, s, filled1)])
  }

  function Row(id: nat, s: UserId, filled: int): StandingOrder {
    StandingOrder(id, s, Sell, if filled == 5 then Fulfilled else Live, 1.0, filled, 5 - filled, "")
  }

  /** A buyer with at least 10 cents takes all 5 satoshis of a sell at 1 cent, for 5 cents. */
  lemma BuyFiveAtOneCent(buyer: User, seller: User, order: StandingOrder, requested: int)
    requires order.limitPrice == 1.0 && order.remaining == 5 && requested >= 5 && buyer.usdCents >= 10
    ensures var f := BuyFragment(buyer, seller, order, requested);
      f.settled == 5 && f.usdCents == 5 && !f.demandExhausted
  {
    assert buyer.usdCents as real / 1.0 == buyer.usdCents as real;
    assert BuyCap(buyer, 1.0) == buyer.usdCents;
    assert 5 as real * 1.0 == 5.0;
  }

  lemma SettleWithFirstRow(a: UserId, s: UserId)
    requires a != s
    ensures SettleWith(Example(a, s, User(1000, 0), User(0, 20), 0, 0), a, Buy, 0, User(0, 20), 10)
      == Step(Example(a, s, User(995, 5), User(5, 15), 5, 0), 5, 5, false)
  {
    var L := Example(a, s, User(1000, 0), User(0, 20), 0, 0);
    BuyFiveAtOneCent(User(1000, 0), User(0, 20), L.book[0], 10);
    assert L.users[s := User(5, 15)][a := User(995, 5)] == map[a := User(995, 5), s := User(5, 15)];
  }

  /** The second row settled as written: it starts from the seller's copy loaded
      with the page, which does not hold the first row's 5 cents. */
  lemma SettleWithStaleSecondRow(a: UserId, s: UserId)
    requires a != s
    ensures SettleWith(Example(a, s, User(995, 5), User(5, 15), 5, 0), a, Buy, 1, User(0, 20), 5)
      == Step(Example(a, s, User(990, 10), User(5, 15), 5, 5), 5, 5, false)
  {
    var L := Example(a, s, User(995, 5), User(5, 15), 5, 0);
    BuyFiveAtOneCent(User(995, 5), User(0, 20), L.book[1], 5);
    assert L.users[s := User(5, 15)][a := User(990, 10)] == map[a := User(990, 10), s := User(5, 15)];
  }

  /** The as-written walk over a page of two rows on which the first row leaves demand
      and the second meets it. */
  lemma WalkTwoRowsAsWritten(p: Progress, demander: UserId, side: Side, page: seq<StandingOrder>,
                             loaded: map<UserId, User>, L1: Ledger, n0: int, c0: int, L2: Ledger, n1: int, c1: int)
    requires WellFormed(p.ledger) && demander in p.ledger.users
    requires |page| == 2 && forall k :: 0 <= k < |page| ==> page[k].id < |p.ledger.book| && page[k].owner in loaded
    requires SettleWith(p.ledger, demander, side, page[0].id, loaded[page[0].owner], p.remaining)
      == Step(L1, n0, c0, false)
    requires p.remaining != n0
    requires SettleWith(L1, demander, side, page[1].id, loaded[page[1].owner], p.remaining - n0)
      == Step(L2, n1, c1, false)
    requires p.remaining == n0 + n1
    ensures WalkPageAsWritten(p, demander, side, page, loaded)
      == Walked(Progress(L2, 0, p.satisfied + n0 + n1, p.usdCents + c0 + c1), false)
  {
    AdvanceAsWrittenSettles(p, demander, side, page[0], loaded, L1, n0, c0, false);
    var q := Progress(L1, p.remaining - n0, p.satisfied + n0, p.usdCents + c0);
    AdvanceAsWrittenSettles(q, demander, side, page[1], loaded, L2, n1, c1, false);
    assert page[1..][0] == page[1];
  }

  /** As written: a buyer with 1000 cents buys 10 satoshis from a seller holding 20
      satoshis and no cents, whose two resting sells of 5 satoshis at 1 cent come on
      one page. The buyer pays 10 cents, yet the seller ends with 5 of them and still
      holds 15 of its 20 satoshis: 5 cents vanish and 5 satoshis appear. */
  lemma StaleOwnerCopyLosesCents(a: UserId, s: UserId)
    requires a != s
    ensures var L := Example(a, s, User(1000, 0), User(0, 20), 0, 0);
      WalkPageAsWritten(Progress(L, 10, 0, 0), a, Buy, L.book, L.users)
        == Walked(Progress(Example(a, s, User(990, 10), User(5, 15), 5, 5), 0, 10, 10), false)
  {
    var L := Example(a, s, User(1000, 0), User(0, 20), 0, 0);
    SettleWithFirstRow(a, s);
    SettleWithStaleSecondRow(a, s);
    WalkTwoRowsAsWritten(Progress(L, 10, 0, 0), a, Buy, L.book, L.users,
      Example(a, s, User(995, 5), User(5, 15), 5, 0), 5, 5,
      Example(a, s, User(990, 10), User(5, 15), 5, 5), 5, 5);
  }

  lemma SettleFirstRow(a: UserId, s: UserId)
    requires a != s
    ensures Settle(Example(a, s, User(1000, 0), User(0, 20), 0, 0), a, Buy, 0, 10)
      == Step(Example(a, s, User(995, 5), User(5, 15), 5, 0), 5, 5, false)
  {
    SettleWithFirstRow(a, s);
  }

  lemma SettleSecondRow(a: UserId, s: UserId)
    requires a != s
    ensures Settle(Example(a, s, User(995, 5), User(5, 15), 5, 0), a, Buy, 1, 5)
      == Step(Example(a, s, User(990, 10), User(10, 10), 5, 5), 5, 5, false)
  {
    var L := Example(a, s, User(995, 5), User(5, 15), 5, 0);
    BuyFiveAtOneCent(User(995, 5), User(5, 15), L.book[1], 5);
    assert L.users[s := User(10, 10)][a := User(990, 10)] == map[a := User(990, 10), s := User(10, 10)];
  }

  /** A page of two rows on which the first row leaves demand and the second meets it. */
  lemma WalkTwoRows(p: Progress, demander: UserId, side: Side, page: seq<StandingOrder>,
                    L1: Ledger, n0: int, c0: int, L2: Ledger, n1: int, c1: int)
    requires WellFormed(p.ledger) && demander in p.ledger.users
    requires |page| == 2 && page[0].id < |p.ledger.book| && page[1].id < |p.ledger.book|
    requires Settle(p.ledger, demander, side, page[0].id, p.remaining) == Step(L1, n0, c0, false)
    requires p.remaining != n0
    requires Settle(L1, demander, side, page[1].id, p.remaining - n0) == Step(L2, n1, c1, false)
    requires p.remaining == n0 + n1
    ensures WalkPage(p, demander, side, page)
      == Walked(Progress(L2, 0, p.satisfied + n0 + n1, p.usdCents + c0 + c1), false)
  {
    AdvanceSettles(p, demander, side, page[0].id, L1, n0, c0, false);
    var q := Progress(L1, p.remaining - n0, p.satisfied + n0, p.usdCents + c0);
    AdvanceSettles(q, demander, side, page[1].id, L2, n1, c1, false);
    assert page[1..][0] == page[1];
  }

  /** Corrected: on the same page, settling against the seller's current balances
      credits the seller all 10 cents the buyer paid and takes 10 of its satoshis. */
  lemma CurrentOwnerKeepsCents(a: UserId, s: UserId)
    requires a != s
    ensures var L := Example(a, s, User(1000, 0), User(0, 20), 0, 0);
      WalkPage(Progress(L, 10, 0, 0), a, Buy, L.book)
        == Walked(Progress(Example(a, s, User(990, 10), User(10, 10), 5, 5), 0, 10, 10), false)
  {
    var L := Example(a, s, User(1000, 0), User(0, 20), 0, 0);
    SettleFirstRow(a, s);
    SettleSecondRow(a, s);
    WalkTwoRows(Progress(L, 10, 0, 0), a, Buy, L.book,
      Example(a, s, User(995, 5), User(5, 15), 5, 0), 5, 5,
      Example(a, s, User(990, 10), User(10, 10), 5, 5), 5, 5);
  }

  /** The amount of an asset held by two different users together. */
  lemma TotalOfTwo(a: UserId, s: UserId, u: User, v: User, asset: Asset)
    requires a != s
    ensures Total(map[a := u, s := v], asset) == Holding(u, asset) + Holding(v, asset)
  {
    var m := map[a := u, s := v];
    TotalRemove(m, a, asset);
    assert m - {a} == map[s := v];
    TotalRemove(map[s := v], s, asset);
    assert map[s := v] - {s} == map[];
  }

  /** As written, the walk of `StaleOwnerCopyLosesCents` destroys 5 cents and creates
      5 satoshis; settled against current balances it keeps both totals. */
  lemma StaleOwnerCopyBreaksConservation(a: UserId, s: UserId)
    requires a != s
    ensures var L := Example(a, s, User(1000, 0), User(0, 20), 0, 0);
      var stale := WalkPageAsWritten(Progress(L, 10, 0, 0), a, Buy, L.book, L.users).progress.ledger.users;
      var current := WalkPage(Progress(L, 10, 0, 0), a, Buy, L.book).progress.ledger.users;
      && Total(stale, UsdCents) == Total(L.users, UsdCents) - 5
      && Total(stale, Satoshis) == Total(L.users, Satoshis) + 5
      && Total(current, UsdCents) == Total(L.users, UsdCents)
      && Total(current, Satoshis) == Total(L.users, Satoshis)
  {
    StaleOwnerCopyLosesCents(a, s);
    CurrentOwnerKeepsCents(a, s);
    TotalOfTwo(a, s, User(1000, 0), User(0, 20), UsdCents);
    TotalOfTwo(a, s, User(1000, 0), User(0, 20), Satoshis);
    TotalOfTwo(a, s, User(990, 10), User(5, 15), UsdCents);
    TotalOfTwo(a, s, User(990, 10), User(5, 15), Satoshis);
    TotalOfTwo(a, s, User(990, 10), User(10, 10), UsdCents);
    TotalOfTwo(a, s, User(990, 10), User(10, 10), Satoshis);
  }
}
