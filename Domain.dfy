/** The records of the exchange (users.go:13-19, standing_order.go:17-34). */
module Domain {

  /** A user is identified by the name chosen at registration. */
  type UserId = string

  /** The `Type` column of a standing order. */
  datatype Side = Buy | Sell
  {
    /** The side whose resting orders an incoming demand of this side trades against. */
    function Opposite(): (o: Side)
      ensures o != this
    {
      if this == Buy then Sell else Buy
    }
  }

  /** The `State` column of a standing order; FULFILLED and CANCELLED are terminal. */
  datatype OrderState = Live | Fulfilled | Cancelled

  /** The two balances of a user, in USD cents and in satoshis. */
  datatype User = User(usdCents: int, satoshis: int)

  /** A row of the standing-order table. `id` is the row's position in the book;
      quantities are in satoshis and `limitPrice` is in USD cents per satoshi.
      The float `AveragePrice` column is not part of this model. */
  datatype StandingOrder = StandingOrder(
    id: nat,
    owner: UserId,
    side: Side,
    state: OrderState,
    limitPrice: real,
    fulfilled: int,
    remaining: int,
    webhookUrl: string)
}
