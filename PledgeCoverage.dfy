/** Whether a resting order's owner can still deliver. Admission
    (standing_order.go:205-223) checks a new order against the owner's unpledged
    balance, but a market sell is capped by the seller's whole satoshi balance
    (market_order.go:187), so it may spend satoshis pledged to the seller's own LIVE
    sell. A later buy against that still-LIVE sell then takes satoshis the owner no
    longer has (market_order.go:70). While every resting order stays covered by its
    owner's balance, a fragment leaves the owner solvent. */
module PledgeCoverage {
  import opened Domain
  import opened Money
  import opened Settlement

  /** A fragment leaves the owner of a covered resting order out of debt: a sell whose
      owner holds its remaining satoshis, or a buy whose owner holds the cents its
      remaining quantity costs. */
  lemma CoveredOwnerStaysSolvent(demander: User, owner: User, order: StandingOrder, side: Side, requested: int)
    requires order.limitPrice > 0.0 && 0 <= order.remaining && 0 <= requested
    requires 0 <= demander.usdCents && 0 <= demander.satoshis
    requires 0 <= owner.usdCents && 0 <= owner.satoshis
    requires side == Buy ==> order.remaining <= owner.satoshis
    requires side == Sell ==> Cost(order.remaining, order.limitPrice) <= owner.usdCents
    ensures var f := if side == Buy then BuyFragment(demander, owner, order, requested)
                     else SellFragment(demander, owner, order, requested);
      0 <= f.counterparty.usdCents && 0 <= f.counterparty.satoshis
  {
    if side == Sell {
      var f := SellFragment(demander, owner, order, requested);
      ProductNonNegative(f.order.remaining, order.limitPrice);
      TruncBounds(f.order.remaining as real * order.limitPrice);
    }
  }

  /** As written: a seller holding 10 satoshis market-sells 10 to a resting buy of 10
      at 2 cents. The cap is its whole balance, so it sells all 10, pledged or not. */
  lemma MarketSellSpendsPledge(seller: User, buyer: User, buy: StandingOrder)
    requires seller.satoshis == 10 && buy.remaining == 10 && buy.limitPrice == 2.0
    ensures var f := SellFragment(seller, buyer, buy, 10);
      f.settled == 10 && f.demander.satoshis == 0
  {
  }

  /** As written: a buyer holding 50 cents buys 10 satoshis from a resting sell of 10
      at 5 cents whose owner holds no satoshis; the owner ends 10 satoshis in debt. */
  lemma UncoveredSellOverdrawsOwner(buyer: User, owner: User, sell: StandingOrder)
    requires buyer.usdCents == 50 && owner.satoshis == 0 && sell.remaining == 10 && sell.limitPrice == 5.0
    ensures var f := BuyFragment(buyer, owner, sell, 10);
      f.settled == 10 && f.counterparty.satoshis == -10
  {
    assert buyer.usdCents as real / 5.0 == 10.0;
  }

  /** As written, the two in sequence: `seller` rests a sell of all its 10 satoshis,
      which they cover, then market-sells the same 10 satoshis to `buyer`'s resting buy;
      a buy of 10 against the still-LIVE sell then leaves `seller` 10 satoshis in debt. */
  lemma PledgedSatoshisSpentTwice(seller: User, buyer: User, taker: User, sell: StandingOrder, buy: StandingOrder)
    requires seller.satoshis == 10 && sell.remaining == 10 && sell.limitPrice == 5.0
    requires buy.remaining == 10 && buy.limitPrice == 2.0 && taker.usdCents == 50
    ensures sell.remaining <= seller.satoshis
    ensures var afterSale := SellFragment(seller, buyer, buy, 10).demander;
      BuyFragment(taker, afterSale, sell, 10).counterparty.satoshis == -10
  {
    MarketSellSpendsPledge(seller, buyer, buy);
    UncoveredSellOverdrawsOwner(taker, SellFragment(seller, buyer, buy, 10).demander, sell);
  }
}
