# Shop sales model

A Dafny model of the pricing and sale logic of a small Java shop system.

- **Goods** (`Pricing`). A goods item is an object with a fixed id, name, buying price, category (food or non-food) and expiry day. Its stock quantity is mutable. Its selling price is the buying price plus the category's overcharge percentage. The category's decrease percentage comes off when fewer days than the category's window are left before expiry. Expired goods cannot be priced.
- **Client** (`Clients`). A client holds an immutable amount of money. It refuses any total above that amount.
- **Receipt** (`Receipts`). A receipt collects the lines of one sale. Adding a line checks the shared stock of the goods and takes the quantity out of it. It records the quantity and the unit price in two maps keyed by the goods, and adds price times quantity to the running total. The shop's ledger record holds the last receipt number and the cumulative takings. It is advanced with the receipt's total.
- **Shop** (`Shops`). A shop registers goods and cashiers and adds their costs. A sale runs in this order:
  1. A pricing pass that changes nothing.
  2. The funds check.
  3. Receipt numbering from the ledger.
  4. A commit pass that takes stock out through the receipt.
  5. Persistence and the ledger update.
  6. A refresh of the income from the ledger.

  Profit is income minus costs.

`Goods`, `Receipt` and `Shop` are classes whose methods update fields in place. A `Goods` object is shared between the shop's inventory and the receipt maps. The receipt keeps a ghost history `lines` of its successful additions. Its `Valid()` says that both maps and the running total are functions of that history.

The sale request is a hash map from goods id to quantity. It is modelled as a sequence of `Item`s with distinct ids. Its order is the iteration order, which the lemmas leave arbitrary.

Prices are exact `real`s. Days are integer day numbers, with `today` passed in. The ledger file is the `Ledger` value held by the shop.

The commit pass stops at the first entry whose stock is too small. The lines before it stay committed: those goods stay decremented, later goods are untouched, and the ledger and income do not change. The partially built receipt is still returned, not null, because the Java code assigns `receipt` before the commit pass and returns it from its catch-all handler. `receipt` starts as null (src/Shop.java:88) and is assigned at src/Shop.java:130; both catch blocks (src/Shop.java:158-163) fall through to the return at src/Shop.java:164. So null is returned only for a failure before line 130: a missing id, an expired goods, or insufficient funds.

## Model

| member | source | states |
|---|---|---|
| Pricing.Goods.constructor | src/Goods.java:24-32 | every field is the argument given |
| Pricing.Goods.SetQuantity | src/Goods.java:40-42 | the quantity becomes the argument; nothing else can change |
| Pricing.Goods.CalcSellingPrice | src/Goods.java:44-67 | pricing fails exactly when today is strictly after the expiry day, and the failure names the goods |
| Pricing.SellableUntilExpiry | src/Goods.java:45-47 | any day up to and including the expiry day can be priced |
| Pricing.UndiscountedPrice | src/Goods.java:50-58 | when the days left are at least the category's window, the price is exactly buyingPrice*(1+overcharge/100), with the category's own overcharge |
| Pricing.DiscountedPrice | src/Goods.java:56-62 | when the days left are fewer than the category's window, the price is exactly base*(1-decrease/100), with the category's own decrease |
| Pricing.DiscountIff | src/Goods.java:56-62 | for a non-zero decrease, buying price and base factor, the price differs from the base price if and only if the days left are fewer than the window; on the boundary there is no discount |
| Pricing.PriceBounds | src/Goods.java:53-62 | non-negative buying price and overcharge, with a decrease between 0 and 100, give 0 <= price <= base price |
| Pricing.FoodNearExpiryExample | src/Main.java:10-22 | the sample food at 2.0 with 4 days left sells at 2.16 |
| Pricing.FoodFarFromExpiryExample | src/Main.java:10-22 | the same food with 30 days left sells at 2.40 |
| Pricing.NonFoodExample | src/Main.java:10-23 | the sample non-food at 50.0 with 30 days left sells at 70.0 |
| Clients.Client.CheckIsEnoughMoney | src/Client.java:15-20 | the check fails if and only if money < total, and the failure carries both amounts |
| Clients.ExactAmountPasses | src/Client.java:16 | a total equal to the money passes |
| Clients.CheckIsMonotone | src/Client.java:16-18 | a total that passes keeps passing when it gets smaller |
| Receipts.Receipt.constructor | src/Receipt.java:33-43 | the new receipt has the given id, shop id, shop name and cashier, empty maps, total 0 and no lines |
| Receipts.Receipt.AddSaleOfGoods | src/Receipt.java:80-94 | fails iff the stock is below the quantity, and then nothing changes; otherwise the stock drops by the quantity (staying >= 0), only this goods' map entries are set, the total grows by price*quantity, and the line is appended to the history |
| Receipts.Receipt.UpdateShopTotalValue | src/Receipt.java:162-177 | the new ledger's receipt counter is the number passed in, and its total is the old total plus this receipt's total |
| Receipts.MapKeys | src/Receipt.java:89-91 | the keys of both maps are exactly the goods that appear on some line |
| Receipts.LastLineWins | src/Receipt.java:89-91 | each goods maps to the quantity and price of the last line that names it |
| Receipts.DistinctLinesTotal | src/Receipt.java:89-93 | when every goods is added once, the running total equals the sum of goodsPrices[g]*soldGoods[g] over the receipt's goods |
| Receipts.RepeatedGoodsCountedTwice | src/Receipt.java:89-93 | adding the same goods twice counts both lines in the total, but the maps keep only the second line |
| Shops.FindGoods | src/Shop.java:95 | the lookup finds nothing if and only if no inventory entry has the id; what it finds is in the inventory and has the id |
| Shops.FindGoodsIsFirst | src/Shop.java:95 | the goods found is the first inventory entry with that id |
| Shops.PriceItem | src/Shop.java:95-102 | pricing an entry succeeds if and only if the first inventory entry with its id exists and has not expired; the line is for exactly that goods, with the requested quantity and its selling price; otherwise the error is GoodsNotFound(id) when no entry has the id, or ExpiredGoods naming the goods found |
| Shops.PricedLines | src/Shop.java:91-103 | a successful pricing gives one line per entry, each for inventory goods |
| Shops.PricedLinesEntries | src/Shop.java:91-103 | the pricing succeeds if and only if every entry can be priced, and then line j is entry j's line |
| Shops.PricedLinesFirstFailure | src/Shop.java:91-103 | a failed pricing reports the error of the first entry, in iteration order, that cannot be priced |
| Shops.MissingGoodsRefused | src/Shop.java:95-97 | a request for an id the inventory lacks cannot be priced |
| Shops.ExpiredGoodsRefused | src/Shop.java:95-100 | a request whose goods is past its expiry day cannot be priced |
| Shops.PricedLinesDistinct | src/Shop.java:93-103 | distinct ids in the request give distinct goods on the priced lines |
| Shops.RequestedOfDistinct | src/Shop.java:133-142 | with distinct goods, a goods on a line is taken out by exactly that line's quantity, and a goods on no line not at all |
| Shops.FirstShortfall | src/Shop.java:133-142 | the commit pass commits exactly the leading lines whose stock suffices; the next line, if any, is short |
| Shops.StockStaysNonNegative | src/Shop.java:133-142 | starting from non-negative stock, the commit pass leaves every stock level non-negative |
| Shops.Shop.constructor | src/Shop.java:37-57 | empty inventory and cashiers, zero costs, and income equal to the stored ledger total |
| Shops.Shop.AddGoodsToList | src/Shop.java:74-77 | the goods is appended to the inventory and buyingPrice*quantity is added to the costs; cashiers, income and ledger are unchanged |
| Shops.Shop.AddCashierToList | src/Shop.java:80-83 | the cashier is appended and its salary is added to the costs; inventory, income and ledger are unchanged |
| Shops.Shop.CalculateProfit | src/Shop.java:195-197 | the profit is the ledger's cumulative total minus the costs |
| Shops.Shop.PricingPass | src/Shop.java:91-103 | the loop fails with the pricing's first error, or returns the request's total price, sum of price*quantity over the priced lines |
| Shops.Shop.CommitLine | src/Shop.java:133-142 | one step of the commit loop: entry i is looked up and priced as in the first pass; the step fails iff its goods' stock before the pass is short; otherwise the line is added to the receipt and taken out of stock |
| Shops.Shop.CommitPass | src/Shop.java:133-142 | the receipt ends with exactly the leading lines that had stock, the stock is the old stock minus those lines, and the pass fails with the first short goods' name iff some line was short |
| Shops.Shop.RecordSale | src/Shop.java:110-155 | the receipt is numbered last+1 and holds the committed lines; the ledger becomes (last+1, old total + receipt total) only when the whole request was committed and storage succeeded; income follows the ledger |
| Shops.Shop.SellGoods | src/Shop.java:86-165 | a missing, expired or unaffordable request gives null with stock, ledger and income unchanged; otherwise the result is a fresh receipt with the committed lines, whose total equals the funds-check total when complete; costs and the inventory list never change |

## Left out

- File and folder I/O are collapsed into the `storageOk` parameter of `SellGoods` and `RecordSale`. This covers folder creation in the receipt constructor, the text receipt, Java serialization and the ledger file write. Its own round trips (serialize and deserialize) are not modelled. A failed ledger write is modelled as leaving the ledger unchanged. In the code `new FileWriter(fileName)` (src/Receipt.java:172) truncates the record before writing, so a write that fails after opening leaves an empty record, which the next sale reads as receipt number 0 and total 0.0; that case is not captured.
- Parsing the ledger text is not modelled. `Receipt number:` and `Total value:` are scanned for, and `" BGN"` is stripped. The shop instead holds the ledger as a `Ledger` value. The constructor's income read is its `storedLedger` argument. The ledger read before the receipt is created cannot fail in the model.
- Shops.Shop.SellGoods: the refresh after the ledger update reads the stored total back. That value was printed with `%.2f`, and it reads as 0.0 when the file cannot be read. The model refreshes income with the exact new total.
- Rounding of IEEE doubles and the `%.2f` formatting are not modelled. Prices are exact reals.
- Clocks are replaced by one `today` parameter for the whole sale. In the code `calcSellingPrice` reads `LocalDate.now()` twice per call (src/Goods.java:45 and :56), and it is called once per entry in each pass (src/Shop.java:100 and :139). Midnight can therefore fall between two entries of one pass, between the two passes, or inside one call (goods on their expiry day pass the check at line 45 and then get `daysToExpire == -1` at line 56). The model cannot express any of these. The receipt's time stamp is not modelled.
- Console output and the `Main` driver are not modelled. Only the driver's sample prices appear, as lemmas.
- Getters, including `getQuantity`, are field reads in the model.
- Java `int` is 32 bits, but the model uses unbounded integers, so quantity arithmetic does not wrap around.
- A negative `saleQuantity` is accepted, as in the code, and it raises the stock.
- The six pricing fields of the shop are grouped into one `Policy` value.
- The receipt's reference to its shop is left out. It only supplies the currency for output.
- Repeated checks giving the same result is not stated as a lemma. `CheckIsEnoughMoney` is a function of an immutable value, so it holds by construction.
- The `Cashier` class is reduced to a datatype; only its salary feeds the costs. The exception classes become the `SaleError` datatype.
