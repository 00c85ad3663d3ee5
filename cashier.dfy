/** A cashier is passive data: only the salary takes part in the shop's accounts. */
module Cashiers {
  datatype Cashier = Cashier(id: int, name: string, salary: real)
}
