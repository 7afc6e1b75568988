/** The exchange as the Go code runs it: the user and standing-order tables as the
    mutable state of one object, and the matcher and the standing-order operations
    as step-by-step methods over them. Each method is proved to leave exactly the
    state, and return exactly the result, of the function of the same operation in
    Matching and Lifecycle, whose properties are proved there. */
module Exchange {
  import opened Domain
  import opened Money
  import opened OrderBook
  import opened Settlement
  import opened Matching
  import opened Lifecycle

  class Exchange {
    /** The user table: balances by user id. */
    var users: map<UserId, User>
    /** The standing-order table: each order at the position given by its id. */
    var book: seq<StandingOrder>

    function State(): Ledger
      reads this
    {
      Ledger(users, book)
    }

    predicate Valid()
      reads this
    {
      WellFormed(State())
    }

    /** An exchange with the given users and no standing orders. */
    constructor(registered: map<UserId, User>)
      ensures Valid() && users == registered && book == []
    {
      users := registered;
      book := [];
    }

    /** BuyViaStandingOrder (market_order.go:45-92): `buyer` buys up to `satoshiAmount`
        satoshis from the resting sell `orderId`. */
    method BuyViaStandingOrder(buyer: UserId, orderId: nat, satoshiAmount: int)
      returns (settled: int, usdCents: int, fundsExhausted: bool)
      requires Valid() && buyer in users && orderId < |book|
      modifies this
      ensures Valid()
      ensures var s := Settle(old(State()), buyer, Buy, orderId, satoshiAmount);
        && State() == s.ledger
        && settled == s.settled && usdCents == s.usdCents && fundsExhausted == s.demandExhausted
    {
      var order := book[orderId];
      var seller := users[order.owner];
      var user := users[buyer];
      ghost var f := BuyFragment(user, seller, order, satoshiAmount);
      settled, fundsExhausted := ClampDemand(satoshiAmount, BuyCap(user, order.limitPrice), order.remaining);
      usdCents := Cost(settled, order.limitPrice);
      assert f.settled == settled && f.usdCents == usdCents;
      user := user.(usdCents := user.usdCents - usdCents, satoshis := user.satoshis + settled);
      seller := seller.(usdCents := seller.usdCents + usdCents, satoshis := seller.satoshis - settled);
      order := FillOrder(order, settled);
      assert f.demander == user && f.counterparty == seller && f.order == order;
      // the resting order, then the seller, then the buyer are written back
      book := book[orderId := order];
      users := users[order.owner := seller];
      users := users[buyer := user];
    }

    /** SellViaStandingOrder (market_order.go:182-229): `seller` sells up to
        `satoshiAmount` of its satoshis to the resting buy `orderId`. */
    method SellViaStandingOrder(seller: UserId, orderId: nat, satoshiAmount: int)
      returns (settled: int, usdCents: int, satoshisExhausted: bool)
      requires Valid() && seller in users && orderId < |book|
      modifies this
      ensures Valid()
      ensures var s := Settle(old(State()), seller, Sell, orderId, satoshiAmount);
        && State() == s.ledger
        && settled == s.settled && usdCents == s.usdCents && satoshisExhausted == s.demandExhausted
    {
      var order := book[orderId];
      var buyer := users[order.owner];
      var user := users[seller];
      ghost var f := SellFragment(user, buyer, order, satoshiAmount);
      settled, satoshisExhausted := ClampDemand(satoshiAmount, user.satoshis, order.remaining);
      usdCents := Cost(settled, order.limitPrice);
      assert f.settled == settled && f.usdCents == usdCents;
      user := user.(usdCents := user.usdCents + usdCents, satoshis := user.satoshis - settled);
      buyer := buyer.(usdCents := buyer.usdCents - usdCents, satoshis := buyer.satoshis + settled);
      order := FillOrder(order, settled);
      book := book[orderId := order];
      users := users[order.owner := buyer];
      users := users[seller := user];
    }

    /** BuySatoshis (side Buy, market_order.go:97-146) and SellSatoshis (side Sell,
        market_order.go:234-283): walk the opposite side of the book, then report
        NO_MATCHING_STANDING_ORDERS or the satisfied quantity and its average price. */
    method MatchSatoshis(demander: UserId, side: Side, requested: int, limit: real)
      returns (result: MatchResult)
      requires Valid() && demander in users
      modifies this
      ensures Valid()
      ensures MatchOutcome(State(), result) == Match(old(State()), demander, side, requested, limit)
    {
      var remaining, satisfied, usdCents := WalkBook(demander, side, requested, limit);
      result := Outcome(Progress(State(), remaining, satisfied, usdCents));
    }

    /** The outer loop of BuySatoshis / SellSatoshis (market_order.go:109-132 and
        246-269): walk the book page by page until the demand is met, the demander
        runs out (`break outerLoop`), or a page comes back short. */
    method WalkBook(demander: UserId, side: Side, requested: int, limit: real)
      returns (remaining: int, satisfied: int, usdCents: int)
      requires Valid() && demander in users
      modifies this
      ensures Valid()
      ensures Progress(State(), remaining, satisfied, usdCents)
        == MatchFrom(Progress(old(State()), requested, 0, 0), demander, side, limit, 0)
    {
      remaining, satisfied, usdCents := requested, 0, 0;
      var offset: nat := 0;
      while remaining > 0
        invariant Valid() && demander in users && offset <= |book|
        invariant MatchFrom(Progress(State(), remaining, satisfied, usdCents), demander, side, limit, offset)
          == MatchFrom(Progress(old(State()), requested, 0, 0), demander, side, limit, 0)
        decreases |book| - offset
      {
        var stop;
        remaining, satisfied, usdCents, stop := MatchPage(demander, side, limit, offset, remaining, satisfied, usdCents);
        if stop {
          return;
        }
        offset := offset + PageSize;
      }
    }

    /** One pass of the outer loop of BuySatoshis / SellSatoshis (market_order.go:110-131
        and 247-268): load the page at `offset` and walk it; `stop` says that the
        demander ran out or that the page was the last one. */
    method MatchPage(demander: UserId, side: Side, limit: real, offset: nat, remaining0: int, satisfied0: int, usdCents0: int)
      returns (remaining: int, satisfied: int, usdCents: int, stop: bool)
      requires Valid() && demander in users && offset <= |book| && remaining0 > 0
      modifies this
      ensures Valid() && demander in users
      ensures stop ==>
        Progress(State(), remaining, satisfied, usdCents)
          == MatchFrom(Progress(old(State()), remaining0, satisfied0, usdCents0), demander, side, limit, offset)
      ensures !stop ==>
        && offset + PageSize <= |book|
        && MatchFrom(Progress(State(), remaining, satisfied, usdCents), demander, side, limit, offset + PageSize)
             == MatchFrom(Progress(old(State()), remaining0, satisfied0, usdCents0), demander, side, limit, offset)
    {
      var page := if side == Buy then StandingSellOrders(book, limit, offset, PageSize)
                  else StandingBuyOrders(book, limit, offset, PageSize);
      assert page == NextPage(State(), side, limit, offset);
      MatchFromStep(Progress(State(), remaining0, satisfied0, usdCents0), demander, side, limit, offset);
      var exhausted;
      remaining, satisfied, usdCents, exhausted := WalkOrders(demander, side, page.orders, remaining0, satisfied0, usdCents0);
      stop := exhausted || page.lastPage;
    }

    /** The inner loop of BuySatoshis / SellSatoshis (market_order.go:115-127 and
        252-264): settle against the rows of one page in order, stopping when the
        demand is met or the demander runs out; `exhausted` says the latter. */
    method WalkOrders(demander: UserId, side: Side, page: seq<StandingOrder>, remaining0: int, satisfied0: int, usdCents0: int)
      returns (remaining: int, satisfied: int, usdCents: int, exhausted: bool)
      requires Valid() && demander in users
      requires forall j :: 0 <= j < |page| ==> page[j].id < |book|
      modifies this
      ensures Valid()
      ensures Walked(Progress(State(), remaining, satisfied, usdCents), exhausted)
        == WalkPage(Progress(old(State()), remaining0, satisfied0, usdCents0), demander, side, page)
    {
      ghost var walked := WalkPage(Progress(State(), remaining0, satisfied0, usdCents0), demander, side, page);
      remaining, satisfied, usdCents, exhausted := remaining0, satisfied0, usdCents0, false;
      var k := 0;
      while k < |page|
        invariant Valid() && demander in users && k <= |page| && !exhausted
        invariant forall j :: 0 <= j < |page| ==> page[j].id < |book|
        invariant WalkPage(Progress(State(), remaining, satisfied, usdCents), demander, side, page[k..]) == walked
        decreases |page| - k
      {
        ghost var current := Progress(State(), remaining, satisfied, usdCents);
        WalkPageStep(current, demander, side, page, k);
        var demandExhausted;
        remaining, satisfied, usdCents, demandExhausted := SettleRow(demander, side, page[k].id, remaining, satisfied, usdCents);
        if remaining == 0 {
          return;
        }
        if demandExhausted {
          exhausted := true;
          return;
        }
        k := k + 1;
      }
      assert page[k..] == [];
    }

    /** One pass of the inner loop's body (market_order.go:117-120, 254-257): settle
        against the row `orderId` with what is still wanted and add the fragment to
        the accumulators. */
    method SettleRow(demander: UserId, side: Side, orderId: nat, remaining0: int, satisfied0: int, usdCents0: int)
      returns (remaining: int, satisfied: int, usdCents: int, demandExhausted: bool)
      requires Valid() && demander in users && orderId < |book|
      modifies this
      ensures Valid()
      ensures Walked(Progress(State(), remaining, satisfied, usdCents), demandExhausted)
        == Advance(Progress(old(State()), remaining0, satisfied0, usdCents0), demander, side, orderId)
    {
      ghost var current := Progress(State(), remaining0, satisfied0, usdCents0);
      var settled, cents;
      if side == Buy {
        settled, cents, demandExhausted := BuyViaStandingOrder(demander, orderId, remaining0);
      } else {
        settled, cents, demandExhausted := SellViaStandingOrder(demander, orderId, remaining0);
      }
      AdvanceSettles(current, demander, side, orderId, State(), settled, cents, demandExhausted);
      usdCents := usdCents0 + cents;
      satisfied := satisfied0 + settled;
      remaining := remaining0 - settled;
    }

    /** GetBlockedUsdCents (standing_order.go:113-126): the cents pledged by the
        remaining parts of `owner`'s LIVE buys, each truncated on its own. */
    method GetBlockedUsdCents(owner: UserId) returns (blocked: int)
      ensures blocked == BlockedUsdCents(book, owner)
    {
      blocked := 0;
      var i := 0;
      while i < |book|
        invariant 0 <= i <= |book|
        invariant blocked == BlockedUsdCents(book[..i], owner)
      {
        var o := book[i];
        if o.owner == owner && o.side == Buy && o.state == Live {
          blocked := blocked + Cost(o.remaining, o.limitPrice);
        }
        assert book[..i + 1][..i] == book[..i];
        i := i + 1;
      }
      assert book[..i] == book;
    }

    /** GetBlockedSatoshis (standing_order.go:129-142): the satoshis pledged by the
        remaining parts of `owner`'s LIVE sells. */
    method GetBlockedSatoshis(owner: UserId) returns (blocked: int)
      ensures blocked == BlockedSatoshis(book, owner)
    {
      blocked := 0;
      var i := 0;
      while i < |book|
        invariant 0 <= i <= |book|
        invariant blocked == BlockedSatoshis(book[..i], owner)
      {
        var o := book[i];
        if o.owner == owner && o.side == Sell && o.state == Live {
          blocked := blocked + o.remaining;
        }
        assert book[..i + 1][..i] == book[..i];
        i := i + 1;
      }
      assert book[..i] == book;
    }

    /** CreateStandingOrder (standing_order.go:193-253), up to the execution it starts:
        the new order is LIVE when its owner's balance left over by the pledges covers
        it and CANCELLED otherwise, which is reported as INSUFFICIENT_BALANCE. */
    method CreateStandingOrder(owner: UserId, n: NewOrder) returns (order: StandingOrder, insufficientBalance: bool)
      requires Valid() && owner in users && n.limitPrice > 0.0
      modifies this
      ensures Valid()
      ensures Created(State(), order, insufficientBalance) == Create(old(State()), owner, n)
    {
      var state := Live;
      var user := users[owner];
      if n.side == Buy {
        var blocked := GetBlockedUsdCents(owner);
        var available := user.usdCents - blocked;
        var buyLimit := Quota(available, n.limitPrice);
        if n.quantity > buyLimit {
          state := Cancelled;
        }
      } else {
        var blocked := GetBlockedSatoshis(owner);
        var sellLimit := user.satoshis - blocked;
        if n.quantity > sellLimit {
          state := Cancelled;
        }
      }
      order := StandingOrder(|book|, owner, n.side, state, n.limitPrice, 0, n.quantity, n.webhookUrl);
      book := book + [order];
      insufficientBalance := state == Cancelled;
    }

    /** ExecuteStandingOrder (standing_order.go:144-188): match the remaining quantity
        of `order` at its limit price; with no match roll back, otherwise fold the
        satisfied quantity into `order` as the caller holds it and write it back. */
    method ExecuteStandingOrder(order: StandingOrder) returns (result: MatchResult)
      requires Valid() && order.id < |book| && order.owner in users && order.limitPrice > 0.0
      modifies this
      ensures Valid()
      ensures MatchOutcome(State(), result) == Execute(old(State()), order)
    {
      var savedUsers, savedBook := users, book;
      result := MatchSatoshis(order.owner, order.side, order.remaining, order.limitPrice);
      match result {
        case NoMatchingStandingOrders =>
          users, book := savedUsers, savedBook;
        case Matched(satisfied, _) =>
          var filled := FillOrder(order, satisfied);
          WellFormedAfterWrite(State(), order.id, filled);
          book := book[order.id := filled];
      }
    }

    /** CreateStandingOrder followed by the execution it starts for a LIVE order
        (standing_order.go:246-251), run here after creation rather than beside it. */
    method PlaceStandingOrder(owner: UserId, n: NewOrder) returns (order: StandingOrder, insufficientBalance: bool)
      requires Valid() && owner in users && n.limitPrice > 0.0
      modifies this
      ensures Valid()
      ensures Created(State(), order, insufficientBalance) == Place(old(State()), owner, n)
    {
      order, insufficientBalance := CreateStandingOrder(owner, n);
      if !insufficientBalance {
        var _ := ExecuteStandingOrder(order);
      }
    }

    /** DeleteStandingOrder (standing_order.go:78-105): an unknown id is not found,
        somebody else's order is refused, and otherwise the order is CANCELLED. */
    method DeleteStandingOrder(caller: UserId, id: int) returns (result: DeleteResult)
      requires Valid()
      modifies this
      ensures Valid()
      ensures Deletion(State(), result) == Delete(old(State()), caller, id)
    {
      if !(0 <= id < |book|) {
        return NotFound;
      }
      var order := book[id];
      if order.owner != caller {
        return PermissionDenied;
      }
      order := order.(state := Cancelled);
      book := book[id := order];
      result := Deleted;
    }
  }

  /** The bookkeeping of market_order.go:72-76 (and 209-213) on the resting order. */
  method FillOrder(order: StandingOrder, settled: int) returns (filled: StandingOrder)
    ensures filled == Filled(order, settled)
  {
    filled := order.(fulfilled := order.fulfilled + settled, remaining := order.remaining - settled);
    if filled.remaining == 0 {
      filled := filled.(state := Fulfilled);
    }
  }

  /** The two clamps of market_order.go:49-60 (and 186-197), step by step: first to
      the demand side's cap, then to the resting order's remaining quantity. */
  method ClampDemand(requested: int, cap: int, remaining: int) returns (settled: int, exhausted: bool)
    ensures Clamped(settled, exhausted) == Clamp(requested, cap, remaining)
  {
    settled := requested;
    exhausted := false;
    if settled >= cap {
      settled := cap;
      exhausted := true;
    }
    if settled > remaining {
      settled := remaining;
      exhausted := false;
    }
  }
}
