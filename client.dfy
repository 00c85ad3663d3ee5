/** The buyer of a sale: an immutable amount of money and one check against it. */
module Clients {
  import opened Results

  datatype Client = Client(money: real) {

    /** Refuses a total the client cannot pay; an exact amount is enough. */
    function CheckIsEnoughMoney(totalPrice: real): (r: Outcome)
      ensures r.Fail? <==> money < totalPrice
      ensures r.Fail? ==> r.error == InsufficientFunds(money, totalPrice)
    {
      if money < totalPrice then Fail(InsufficientFunds(money, totalPrice)) else Pass
    }
  }

  /** Paying exactly all the money passes the check. */
  lemma ExactAmountPasses(c: Client)
    ensures c.CheckIsEnoughMoney(c.money).Pass?
  {
  }

  /** A total the client can pay stays payable when it gets smaller. */
  lemma CheckIsMonotone(c: Client, total: real, smaller: real)
    requires c.CheckIsEnoughMoney(total).Pass?
    requires smaller <= total
    ensures c.CheckIsEnoughMoney(smaller).Pass?
  {
  }
}
