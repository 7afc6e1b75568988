/** The life of a standing order (standing_order.go): the balances its owner's LIVE
    orders pledge, admission as LIVE or CANCELLED, execution against the book, and
    cancellation by its owner. */
module Lifecycle {
  import opened Domain
  import opened Money
  import opened Settlement
  import opened Matching
  import opened MatchingFacts
  import opened MatchingBounds

  /** The USD cents `o` pledges for `owner`: the price of its remaining quantity
      when it is `owner`'s LIVE buy (standing_order.go:115, 123). */
  function PledgedCents(o: StandingOrder, owner: UserId): (n: int)
    ensures 0 <= o.remaining && 0.0 <= o.limitPrice ==> 0 <= n
    ensures o.owner != owner || o.side != Buy || o.state != Live ==> n == 0
  {
    ProductNonNegative(o.remaining, o.limitPrice);
    if o.owner == owner && o.side == Buy && o.state == Live then Cost(o.remaining, o.limitPrice)
    else 0
  }

  /** The satoshis `o` pledges for `owner`: its remaining quantity when it is
      `owner`'s LIVE sell (standing_order.go:131, 139). */
  function PledgedSatoshis(o: StandingOrder, owner: UserId): int {
    if o.owner == owner && o.side == Sell && o.state == Live then o.remaining else 0
  }

  /** GetBlockedUsdCents: the cents pledged by all of `owner`'s LIVE buys, each
      price truncated on its own (standing_order.go:113-126). */
  function BlockedUsdCents(book: seq<StandingOrder>, owner: UserId): int {
    if book == [] then 0
    else BlockedUsdCents(book[..|book| - 1], owner) + PledgedCents(book[|book| - 1], owner)
  }

  /** GetBlockedSatoshis: the satoshis pledged by all of `owner`'s LIVE sells
      (standing_order.go:129-142). */
  function BlockedSatoshis(book: seq<StandingOrder>, owner: UserId): int {
    if book == [] then 0
    else BlockedSatoshis(book[..|book| - 1], owner) + PledgedSatoshis(book[|book| - 1], owner)
  }

  /** With no negative quantity or price in the book, nothing blocked is negative. */
  lemma {:induction false} BlockedNonNegative(book: seq<StandingOrder>, owner: UserId)
    requires forall i :: 0 <= i < |book| ==> 0 <= book[i].remaining && 0.0 <= book[i].limitPrice
    ensures 0 <= BlockedUsdCents(book, owner) && 0 <= BlockedSatoshis(book, owner)
  {
    if book != [] {
      BlockedNonNegative(book[..|book| - 1], owner);
    }
  }

  /** Replacing one row changes a pledge total by exactly the difference of that
      row's pledges: the other rows, and so the other users' orders, do not count. */
  lemma BlockedAfterUpdate(book: seq<StandingOrder>, i: nat, o: StandingOrder, owner: UserId)
    requires i < |book|
    ensures BlockedUsdCents(book[i := o], owner)
      == BlockedUsdCents(book, owner) - PledgedCents(book[i], owner) + PledgedCents(o, owner)
    ensures BlockedSatoshis(book[i := o], owner)
      == BlockedSatoshis(book, owner) - PledgedSatoshis(book[i], owner) + PledgedSatoshis(o, owner)
  {
    BlockedCentsAfterUpdate(book, i, o, owner);
    BlockedSatoshisAfterUpdate(book, i, o, owner);
  }

  lemma {:induction false} BlockedCentsAfterUpdate(book: seq<StandingOrder>, i: nat, o: StandingOrder, owner: UserId)
    requires i < |book|
    ensures BlockedUsdCents(book[i := o], owner)
      == BlockedUsdCents(book, owner) - PledgedCents(book[i], owner) + PledgedCents(o, owner)
    decreases |book|
  {
    var n := |book| - 1;
    var b := book[i := o];
    assert BlockedUsdCents(b, owner) == BlockedUsdCents(b[..n], owner) + PledgedCents(b[n], owner);
    if i == n {
      assert b[..n] == book[..n];
    } else {
      assert b[..n] == book[..n][i := o];
      BlockedCentsAfterUpdate(book[..n], i, o, owner);
    }
  }

  lemma {:induction false} BlockedSatoshisAfterUpdate(book: seq<StandingOrder>, i: nat, o: StandingOrder, owner: UserId)
    requires i < |book|
    ensures BlockedSatoshis(book[i := o], owner)
      == BlockedSatoshis(book, owner) - PledgedSatoshis(book[i], owner) + PledgedSatoshis(o, owner)
    decreases |book|
  {
    var n := |book| - 1;
    var b := book[i := o];
    assert BlockedSatoshis(b, owner) == BlockedSatoshis(b[..n], owner) + PledgedSatoshis(b[n], owner);
    if i == n {
      assert b[..n] == book[..n];
    } else {
      assert b[..n] == book[..n][i := o];
      BlockedSatoshisAfterUpdate(book[..n], i, o, owner);
    }
  }

  /** A row appended to the book adds exactly its own pledge. */
  lemma BlockedAfterAppend(book: seq<StandingOrder>, o: StandingOrder, owner: UserId)
    ensures BlockedUsdCents(book + [o], owner) == BlockedUsdCents(book, owner) + PledgedCents(o, owner)
    ensures BlockedSatoshis(book + [o], owner) == BlockedSatoshis(book, owner) + PledgedSatoshis(o, owner)
  {
    assert (book + [o])[..|book|] == book;
  }

  /** The order to create, with its quantity already in satoshis and its limit
      price already in USD cents per satoshi (standing_order.go:37-44, 194-195). */
  datatype NewOrder = NewOrder(side: Side, quantity: int, limitPrice: real, webhookUrl: string)

  /** The admission test of standing_order.go:196-224: a buy must not ask for more
      satoshis than the cash left over by the pledges buys at its price; a sell must
      not offer more satoshis than its owner has left over by the pledges. */
  predicate Admitted(L: Ledger, owner: UserId, n: NewOrder)
    requires owner in L.users && n.limitPrice > 0.0
  {
    var u := L.users[owner];
    if n.side == Buy then
      n.quantity <= Quota(u.usdCents - BlockedUsdCents(L.book, owner), n.limitPrice)
    else
      n.quantity <= u.satoshis - BlockedSatoshis(L.book, owner)
  }

  /** The row CreateStandingOrder inserts (standing_order.go:225-232). */
  function NewRecord(id: nat, owner: UserId, n: NewOrder, state: OrderState): (o: StandingOrder)
    ensures o.id == id && o.owner == owner && o.side == n.side && o.state == state
    ensures o.fulfilled == 0 && o.remaining == n.quantity
    ensures o.limitPrice == n.limitPrice && o.webhookUrl == n.webhookUrl
  {
    StandingOrder(id, owner, n.side, state, n.limitPrice, 0, n.quantity, n.webhookUrl)
  }

  /** What CreateStandingOrder leaves behind: the ledger, the inserted row, and
      whether it reports INSUFFICIENT_BALANCE. */
  datatype Created = Created(ledger: Ledger, order: StandingOrder, insufficientBalance: bool)

  /** CreateStandingOrder (standing_order.go:193-253): the order is inserted LIVE when
      admitted and CANCELLED otherwise, with nothing filled, and no balance moves. */
  function Create(L: Ledger, owner: UserId, n: NewOrder): (c: Created)
    requires WellFormed(L) && owner in L.users && n.limitPrice > 0.0
    ensures WellFormed(c.ledger)
    ensures c.ledger.users == L.users && c.ledger.book == L.book + [c.order]
    ensures c.order == NewRecord(|L.book|, owner, n, c.order.state)
    ensures c.order.state == Live <==> Admitted(L, owner, n)
    ensures c.order.state == Cancelled <==> !Admitted(L, owner, n)
    ensures c.insufficientBalance <==> c.order.state == Cancelled
  {
    var state := if Admitted(L, owner, n) then Live else Cancelled;
    var o := NewRecord(|L.book|, owner, n, state);
    Created(Ledger(L.users, L.book + [o]), o, state == Cancelled)
  }

  /** Admission keeps a sell's pledges within its owner's satoshis: after a LIVE
      sell is created, the owner's blocked satoshis do not exceed its balance. */
  lemma SellAdmissionCovers(L: Ledger, owner: UserId, n: NewOrder)
    requires WellFormed(L) && owner in L.users && n.limitPrice > 0.0 && n.side == Sell
    ensures var c := Create(L, owner, n);
      c.order.state == Live ==> BlockedSatoshis(c.ledger.book, owner) <= L.users[owner].satoshis
  {
    var c := Create(L, owner, n);
    BlockedAfterAppend(L.book, c.order, owner);
  }

  /** Admission keeps a buy's pledges within its owner's cash: if the owner's
      pledges were covered before, they still are after a LIVE buy is created. */
  lemma BuyAdmissionCovers(L: Ledger, owner: UserId, n: NewOrder)
    requires WellFormed(L) && owner in L.users && n.limitPrice > 0.0 && n.side == Buy
    requires BlockedUsdCents(L.book, owner) <= L.users[owner].usdCents
    ensures var c := Create(L, owner, n);
      c.order.state == Live ==> BlockedUsdCents(c.ledger.book, owner) <= L.users[owner].usdCents
  {
    var c := Create(L, owner, n);
    if c.order.state == Live {
      var usd := L.users[owner].usdCents;
      var blocked := BlockedUsdCents(L.book, owner);
      assert n.quantity <= Quota(usd - blocked, n.limitPrice);
      PledgeWithinAvailable(usd, blocked, c.order, owner);
      BlockedAfterAppend(L.book, c.order, owner);
    }
  }

  /** The cap of standing_order.go:205-207 keeps the new buy's pledge within the cash
      the owner's other pledges leave over. */
  lemma PledgeWithinAvailable(usd: int, blocked: int, o: StandingOrder, owner: UserId)
    requires blocked <= usd && o.limitPrice > 0.0
    requires o.owner == owner && o.side == Buy && o.state == Live
    requires o.remaining <= Quota(usd - blocked, o.limitPrice)
    ensures blocked + PledgedCents(o, owner) <= usd
  {
    CostWithinCap(o.remaining, usd - blocked, o.limitPrice);
  }

  /** ExecuteStandingOrder (standing_order.go:144-188): the owner of `order` buys
      (or sells) its remaining quantity against the book at its limit price. With no
      match the transaction is rolled back; otherwise the satisfied quantity is
      folded into `order` as the caller holds it and that row is written back. */
  function Execute(L: Ledger, order: StandingOrder): (e: MatchOutcome)
    requires WellFormed(L) && order.id < |L.book| && order.owner in L.users && order.limitPrice > 0.0
    ensures WellFormed(e.ledger) && e.ledger.users.Keys == L.users.Keys && |e.ledger.book| == |L.book|
    ensures e.result.NoMatchingStandingOrders? ==> e.ledger == L
    ensures e.result.Matched? ==> e.ledger.book[order.id] == Filled(order, e.result.satisfied)
  {
    var m := Match(L, order.owner, order.side, order.remaining, order.limitPrice);
    match m.result
    case NoMatchingStandingOrders => MatchOutcome(L, m.result)
    case Matched(s, _) =>
      WellFormedAfterWrite(m.ledger, order.id, Filled(order, s));
      MatchOutcome(Ledger(m.ledger.users, m.ledger.book[order.id := Filled(order, s)]), m.result)
  }

  /** Execution folds the satisfied quantity into the order: it keeps
      `fulfilled + remaining`, ends with a remaining quantity between zero and what it
      had, and is FULFILLED exactly when nothing remains; the owner stays out of debt
      and every other row only fills. */
  lemma ExecuteBounded(L: Ledger, order: StandingOrder)
    requires WellFormed(L) && order.id < |L.book| && order.owner in L.users && order.limitPrice > 0.0
    requires Bounded(L, order.owner) && 0 <= order.remaining && order.state == Live
    ensures var e := Execute(L, order);
      && Bounded(e.ledger, order.owner)
      && (e.result.Matched? ==>
            var o := e.ledger.book[order.id];
            && 0 < e.result.satisfied <= order.remaining
            && o.fulfilled + o.remaining == order.fulfilled + order.remaining
            && 0 <= o.remaining < order.remaining
            && (o.state == Fulfilled <==> o.remaining == 0)
            && (o.state == Live <==> o.remaining != 0))
      && (forall i :: 0 <= i < |L.book| && i != order.id ==>
            0 <= e.ledger.book[i].remaining <= L.book[i].remaining)
  {
    MatchBounded(L, order.owner, order.side, order.remaining, order.limitPrice);
  }

  /** Execution between an owner and other users moves USD cents and satoshis
      without creating or destroying any. */
  lemma ExecuteConserves(L: Ledger, order: StandingOrder, a: Asset)
    requires WellFormed(L) && order.id < |L.book| && order.owner in L.users && order.limitPrice > 0.0
    requires SelfTradeFree(L.book, order.owner, order.side)
    ensures Total(Execute(L, order).ledger.users, a) == Total(L.users, a)
  {
    MatchConserves(L, order.owner, order.side, order.remaining, order.limitPrice);
  }

  /** The owner's balances move by exactly the satoshis execution reports, at the
      average price it reports. */
  lemma ExecuteCreditsOwner(L: Ledger, order: StandingOrder)
    requires WellFormed(L) && order.id < |L.book| && order.owner in L.users && order.limitPrice > 0.0
    ensures var e := Execute(L, order);
      ReportsCredit(L.users[order.owner], e.ledger.users[order.owner], order.side, e.result)
  {
    MatchCreditsDemander(L, order.owner, order.side, order.remaining, order.limitPrice);
  }

  /** CreateStandingOrder followed by the execution it starts for a LIVE order
      (standing_order.go:246-251), run here after creation rather than beside it. */
  function Place(L: Ledger, owner: UserId, n: NewOrder): (c: Created)
    requires WellFormed(L) && owner in L.users && n.limitPrice > 0.0
    ensures WellFormed(c.ledger) && c.ledger.users.Keys == L.users.Keys
    ensures c.order == Create(L, owner, n).order
    ensures c.insufficientBalance <==> c.order.state == Cancelled
    ensures c.insufficientBalance ==> c == Create(L, owner, n)
    // only an order born LIVE is executed, against the table that already holds it
    ensures c.order.state == Live ==> c.ledger == Execute(Create(L, owner, n).ledger, c.order).ledger
    ensures c.order.state == Cancelled ==> c.ledger == Create(L, owner, n).ledger
  {
    var c := Create(L, owner, n);
    if c.order.state == Live then Created(Execute(c.ledger, c.order).ledger, c.order, false)
    else c
  }

  /** What DeleteStandingOrder reports: success, gorm.ErrRecordNotFound, or
      PERMISSION_DENIED. */
  datatype DeleteResult = Deleted | NotFound | PermissionDenied

  datatype Deletion = Deletion(ledger: Ledger, result: DeleteResult)

  /** DeleteStandingOrder (standing_order.go:78-105): an unknown id is not found, an
      order of somebody else is refused, and otherwise the order becomes CANCELLED
      whatever its state was. */
  function Delete(L: Ledger, caller: UserId, id: int): (d: Deletion)
    ensures d.ledger.users == L.users && |d.ledger.book| == |L.book|
    ensures d.result == NotFound <==> !(0 <= id < |L.book|)
    ensures d.result == PermissionDenied <==> 0 <= id < |L.book| && L.book[id].owner != caller
    ensures d.result != Deleted ==> d.ledger == L
    ensures d.result == Deleted ==> d.ledger.book == L.book[id := L.book[id].(state := Cancelled)]
  {
    if !(0 <= id < |L.book|) then Deletion(L, NotFound)
    else if L.book[id].owner != caller then Deletion(L, PermissionDenied)
    else Deletion(Ledger(L.users, L.book[id := L.book[id].(state := Cancelled)]), Deleted)
  }

  /** Placing an order reports INSUFFICIENT_BALANCE exactly when it is not admitted,
      and an admitted order between its owner and other users creates or destroys no
      USD cents and no satoshis. */
  lemma PlaceConserves(L: Ledger, owner: UserId, n: NewOrder, a: Asset)
    requires WellFormed(L) && owner in L.users && n.limitPrice > 0.0
    requires SelfTradeFree(L.book, owner, n.side)
    ensures var c := Place(L, owner, n);
      && (c.insufficientBalance <==> !Admitted(L, owner, n))
      && Total(c.ledger.users, a) == Total(L.users, a)
  {
    var c := Create(L, owner, n);
    if c.order.state == Live {
      var b := c.ledger.book;
      forall i | 0 <= i < |b| && b[i].side == n.side.Opposite() && b[i].state == Live
        ensures b[i].owner != owner
      {
        if i < |L.book| {
          assert b[i] == L.book[i];
        }
      }
      ExecuteConserves(c.ledger, c.order, a);
    }
  }

  /** Deleting twice does what deleting once does. */
  lemma DeleteIdempotent(L: Ledger, caller: UserId, id: int)
    ensures var d := Delete(L, caller, id);
      Delete(d.ledger, caller, id) == d
  {
    var d := Delete(L, caller, id);
    if d.result == Deleted {
      assert d.ledger.book[id] == L.book[id].(state := Cancelled);
    }
  }

  /** A deleted order stops pledging: its owner's blocked totals fall by exactly its
      pledge, which is never negative, and every other user's stay the same. */
  lemma DeleteReleasesPledges(L: Ledger, caller: UserId, id: int, u: UserId)
    requires 0 <= id < |L.book| ==> 0 <= L.book[id].remaining && 0.0 <= L.book[id].limitPrice
    ensures var d := Delete(L, caller, id);
      && (d.result == Deleted ==>
            && BlockedUsdCents(d.ledger.book, u) == BlockedUsdCents(L.book, u) - PledgedCents(L.book[id], u)
            && BlockedSatoshis(d.ledger.book, u) == BlockedSatoshis(L.book, u) - PledgedSatoshis(L.book[id], u))
      && BlockedUsdCents(d.ledger.book, u) <= BlockedUsdCents(L.book, u)
      && BlockedSatoshis(d.ledger.book, u) <= BlockedSatoshis(L.book, u)
      && (u != caller ==>
            && BlockedUsdCents(d.ledger.book, u) == BlockedUsdCents(L.book, u)
            && BlockedSatoshis(d.ledger.book, u) == BlockedSatoshis(L.book, u))
  {
    var d := Delete(L, caller, id);
    if d.result == Deleted {
      BlockedAfterUpdate(L.book, id, L.book[id].(state := Cancelled), u);
    }
  }
}
