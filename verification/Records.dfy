/** The rows and values that the other modules share. */
module Records {

  datatype Option<+T> = None | Some(value: T)

  datatype OrderId = OrderId(key: int)

  datatype UserId = UserId(key: int)

  /** Primary key of the `order_offers` table. */
  type Row = (OrderId, UserId)

  type TierNumber = t: int | 0 <= t <= 2

  /** `counts` of a decomposition: (package size, how many), smallest size first. */
  type PackCounts = seq<(nat, nat)>

  datatype OrderStatus = Pending | Offering | Taken | Completed | Cancelled | NoTakers | TimedOut

  datatype OfferStatus = Offered | OfferTaken | Declined | Expired

  datatype ProfileStatus = Inactive | Active | Banned

  /** What an order asks for: an amount of units (pack order) or a set of codes (code order). */
  datatype Job = Job(withCodes: bool, amount: int, codeAmounts: seq<int>)

  datatype Profile = Profile(
    status: ProfileStatus,
    online: bool,
    withCodes: bool,
    tier: TierNumber,
    prices: Option<map<nat, real>>)
}
