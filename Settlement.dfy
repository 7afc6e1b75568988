/** One fragment: an incoming demand settled against one resting standing order
    (BuyViaStandingOrder, market_order.go:45-92, and SellViaStandingOrder,
    market_order.go:182-229), as a function of the three records it reads. */
module Settlement {
  import opened Domain
  import opened Money

  /** The quantity a fragment settles and whether the demand side ran out first. */
  datatype Clamped = Clamped(quantity: int, exhausted: bool)

  /** The two clamps of market_order.go:49-60 (and 186-197): first to the demand
      side's cap, which sets the exhausted flag, then to the resting order's
      remaining quantity, which clears it again. */
  function Clamp(requested: int, cap: int, remaining: int): (c: Clamped)
    ensures c.quantity <= requested && c.quantity <= cap && c.quantity <= remaining
    ensures c.quantity == requested || c.quantity == cap || c.quantity == remaining
    ensures c.exhausted <==> requested >= cap && cap <= remaining
  {
    var first := if requested >= cap then Clamped(cap, true) else Clamped(requested, false);
    if first.quantity > remaining then Clamped(remaining, false) else first
  }

  /** The outcome of one fragment: the settled satoshis, the USD cents paid for
      them, the exhausted flag, and the new demander, counterparty and order records. */
  datatype Fragment = Fragment(
    settled: int,
    usdCents: int,
    demandExhausted: bool,
    demander: User,
    counterparty: User,
    order: StandingOrder)

  /** The resting order after `q` satoshis of it were settled (market_order.go:72-76). */
  function Filled(order: StandingOrder, q: int): (o: StandingOrder)
    ensures o.fulfilled + o.remaining == order.fulfilled + order.remaining
    ensures o.remaining == order.remaining - q
    ensures o.state == if o.remaining == 0 then Fulfilled else order.state
    ensures o.id == order.id && o.owner == order.owner && o.side == order.side
    ensures o.limitPrice == order.limitPrice && o.webhookUrl == order.webhookUrl
  {
    var remaining := order.remaining - q;
    order.(fulfilled := order.fulfilled + q,
           remaining := remaining,
           state := if remaining == 0 then Fulfilled else order.state)
  }

  /** How many satoshis `buyer`'s cash buys at `price` (market_order.go:50). */
  function BuyCap(buyer: User, price: real): (n: int)
    requires price > 0.0
    ensures 0 <= buyer.usdCents ==> 0 <= n
  {
    assert 0 <= buyer.usdCents ==> 0.0 <= buyer.usdCents as real / price;

    Quota(buyer.usdCents, price)
  }

  /** Paying for at most `BuyCap` satoshis never overdraws the buyer. */
  lemma BuyPaymentCovered(buyer: User, price: real, q: int)
    requires price > 0.0
    ensures 0 <= buyer.usdCents && 0 <= q <= BuyCap(buyer, price) ==>
      0 <= Cost(q, price) <= buyer.usdCents
  {
    if 0 <= buyer.usdCents && 0 <= q <= BuyCap(buyer, price) {
      PaymentWithinCap(q, buyer.usdCents, price);
    }
  }

  /** What the demand side can settle at `price`: the satoshis a buyer's cash buys,
      or a seller's satoshis. */
  function DemandCap(demander: User, side: Side, price: real): int
    requires price > 0.0
  {
    if side == Buy then BuyCap(demander, price) else demander.satoshis
  }

  /** `buyer` buys up to `requested` satoshis from the resting sell `order`,
      whose owner's record is `seller`. */
  function BuyFragment(buyer: User, seller: User, order: StandingOrder, requested: int): (f: Fragment)
    requires order.limitPrice > 0.0
    // the clamp of market_order.go:49-60: the least of the request, the cap and what rests
    ensures f.settled == Clamp(requested, BuyCap(buyer, order.limitPrice), order.remaining).quantity
    ensures f.settled <= requested && f.settled <= order.remaining
    ensures f.settled <= BuyCap(buyer, order.limitPrice)
    ensures f.demandExhausted <==>
      requested >= BuyCap(buyer, order.limitPrice) && BuyCap(buyer, order.limitPrice) <= order.remaining
    ensures f.usdCents == Cost(f.settled, order.limitPrice)
    // the buyer pays the cents and receives the satoshis the seller gives up
    ensures f.demander.usdCents == buyer.usdCents - f.usdCents
    ensures f.demander.satoshis == buyer.satoshis + f.settled
    ensures f.counterparty.usdCents == seller.usdCents + f.usdCents
    ensures f.counterparty.satoshis == seller.satoshis - f.settled
    ensures f.order == Filled(order, f.settled)
    // with nothing negative going in, the buyer's cash stays covered
    ensures 0 <= buyer.usdCents && 0 <= requested && 0 <= order.remaining ==>
      0 <= f.settled && 0 <= f.usdCents && 0 <= f.demander.usdCents
    // a seller who covers the order keeps covering what is left of it
    ensures seller.satoshis >= order.remaining ==> f.counterparty.satoshis >= f.order.remaining
  {
    var cap := BuyCap(buyer, order.limitPrice);
    var c := Clamp(requested, cap, order.remaining);
    var cents := Cost(c.quantity, order.limitPrice);
    BuyPaymentCovered(buyer, order.limitPrice, c.quantity);
    Fragment(
      c.quantity,
      cents,
      c.exhausted,
      User(buyer.usdCents - cents, buyer.satoshis + c.quantity),
      User(seller.usdCents + cents, seller.satoshis - c.quantity),
      Filled(order, c.quantity))
  }

  /** `seller` sells up to `requested` of its satoshis to the resting buy `order`,
      whose owner's record is `buyer`. */
  function SellFragment(seller: User, buyer: User, order: StandingOrder, requested: int): (f: Fragment)
    // the clamp of market_order.go:186-197, capped by the seller's satoshis
    ensures f.settled == Clamp(requested, seller.satoshis, order.remaining).quantity
    ensures f.settled <= requested && f.settled <= order.remaining && f.settled <= seller.satoshis
    ensures f.demandExhausted <==> requested >= seller.satoshis && seller.satoshis <= order.remaining
    ensures f.usdCents == Cost(f.settled, order.limitPrice)
    // the seller receives the cents the buyer pays and gives up the satoshis
    ensures f.demander.usdCents == seller.usdCents + f.usdCents
    ensures f.demander.satoshis == seller.satoshis - f.settled
    ensures f.counterparty.usdCents == buyer.usdCents - f.usdCents
    ensures f.counterparty.satoshis == buyer.satoshis + f.settled
    ensures f.order == Filled(order, f.settled)
    // the seller never sells satoshis it does not have, and is never paid a negative amount
    ensures 0 <= seller.satoshis && 0 <= requested && 0 <= order.remaining ==>
      0 <= f.settled && 0 <= f.demander.satoshis && (0.0 <= order.limitPrice ==> 0 <= f.usdCents)
    // a buyer whose cents cover the order keeps covering what is left of it
    ensures 0 <= seller.satoshis && 0 <= requested && 0.0 <= order.limitPrice
      && buyer.usdCents >= Cost(order.remaining, order.limitPrice)
      ==> f.counterparty.usdCents >= Cost(f.order.remaining, order.limitPrice)
  {
    var c := Clamp(requested, seller.satoshis, order.remaining);
    var cents := Cost(c.quantity, order.limitPrice);
    ProductNonNegative(c.quantity, order.limitPrice);
    assert 0 <= c.quantity && 0.0 <= order.limitPrice ==>
      Cost(order.remaining - c.quantity, order.limitPrice) + cents <= Cost(order.remaining, order.limitPrice)
    by {
      if 0 <= c.quantity && 0.0 <= order.limitPrice {
        CostSplit(order.remaining - c.quantity, c.quantity, order.limitPrice);
      }
    }
    Fragment(
      c.quantity,
      cents,
      c.exhausted,
      User(seller.usdCents + cents, seller.satoshis - c.quantity),
      User(buyer.usdCents - cents, buyer.satoshis + c.quantity),
      Filled(order, c.quantity))
  }
}
