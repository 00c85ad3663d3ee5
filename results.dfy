/** Failure-carrying values used across the shop model.

    The source signals failures with exceptions; here each exception kind is a
    constructor of SaleError and an operation that may throw returns a Result
    (when it also produces a value) or an Outcome (when it does not). */
module Results {

  /** The reasons a sale can go wrong. */
  datatype SaleError =
    | GoodsNotFound(goodsId: int)                   // no inventory entry with this id
    | ExpiredGoods(goodsName: string)               // today is after the expiry day
    | InsufficientFunds(money: real, required: real) // the client cannot pay the total
    | InsufficientQuantity(goodsName: string)       // the stock is below the sold quantity

  datatype Option<+T> = None | Some(value: T)

  datatype Result<+T> = Success(value: T) | Failure(error: SaleError)

  datatype Outcome = Pass | Fail(error: SaleError)
}
