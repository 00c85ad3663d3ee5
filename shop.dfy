/** The shop: inventory, cashiers, accounts, and the sale transaction. */
module Shops {
  import opened Results
  import opened Pricing
  import opened Clients
  import opened Cashiers
  import opened Receipts

  /** One entry of a sale request: a goods id and the quantity asked for. The
      request is a hash map, so its entries come in no particular order and each
      id occurs at most once. */
  datatype Item = Item(goodsId: int, quantity: int)

  predicate DistinctIds(items: seq<Item>) {
    forall i, j :: 0 <= i < j < |items| ==> items[i].goodsId != items[j].goodsId
  }

  /** The first inventory entry with the given id, if any. */
  function FindGoods(gs: seq<Goods>, goodsId: int): (r: Option<Goods>)
    ensures r.None? <==> forall i :: 0 <= i < |gs| ==> gs[i].id != goodsId
    ensures r.Some? ==> r.value in gs && r.value.id == goodsId
  {
    if gs == [] then None
    else if gs[0].id == goodsId then Some(gs[0])
    else
      var r := FindGoods(gs[1..], goodsId);
      assert forall i :: 0 <= i < |gs| - 1 ==> gs[1..][i] == gs[i + 1];
      r
  }

  /** The goods found is the first entry with that id: every earlier entry has
      another id. */
  lemma {:induction false} FindGoodsIsFirst(gs: seq<Goods>, goodsId: int)
    requires FindGoods(gs, goodsId).Some?
    ensures exists i :: && 0 <= i < |gs| && gs[i] == FindGoods(gs, goodsId).value
                        && forall j :: 0 <= j < i ==> gs[j].id != goodsId
  {
    if gs[0].id != goodsId {
      FindGoodsIsFirst(gs[1..], goodsId);
      var i :| && 0 <= i < |gs| - 1 && gs[1..][i] == FindGoods(gs[1..], goodsId).value
               && forall j :: 0 <= j < i ==> gs[1..][j].id != goodsId;
      assert forall j :: 0 <= j < i + 1 ==> gs[j].id != goodsId by {
        assert forall j :: 0 <= j < i ==> gs[1..][j] == gs[j + 1];
      }
    }
  }

  /** Looks up and prices one request entry, as each pass of a sale does. */
  function PriceItem(gs: seq<Goods>, p: Policy, item: Item, today: int): (r: Result<SaleLine>)
    ensures r.Success? ==> && r.value.goods in gs && r.value.goods.id == item.goodsId
                           && r.value.quantity == item.quantity
                           && r.value.goods.CalcSellingPrice(p, today).Success?
                           && r.value.goods.CalcSellingPrice(p, today).value == r.value.price
    ensures r.Success? <==> FindGoods(gs, item.goodsId).Some? && today <= FindGoods(gs, item.goodsId).value.dateOfExpiry
    ensures r.Success? ==> r.value.goods == FindGoods(gs, item.goodsId).value
    ensures r.Failure? && FindGoods(gs, item.goodsId).None? ==> r.error == GoodsNotFound(item.goodsId)
    ensures r.Failure? && FindGoods(gs, item.goodsId).Some? ==> r.error == ExpiredGoods(FindGoods(gs, item.goodsId).value.name)
  {
    match FindGoods(gs, item.goodsId)
    case None => Failure(GoodsNotFound(item.goodsId))
    case Some(g) =>
      match g.CalcSellingPrice(p, today)
      case Failure(e) => Failure(e)
      case Success(price) => Success(SaleLine(g, item.quantity, price))
  }

  /** The pricing of a whole request: one line per entry, or the failure of the
      first entry (in iteration order) that cannot be priced. */
  function PricedLines(gs: seq<Goods>, p: Policy, items: seq<Item>, today: int): (r: Result<seq<SaleLine>>)
    ensures r.Success? ==> |r.value| == |items| && forall j :: 0 <= j < |items| ==> r.value[j].goods in gs
  {
    if items == [] then Success([])
    else
      var pre := items[..|items| - 1];
      assert forall j :: 0 <= j < |pre| ==> pre[j] == items[j];
      match PricedLines(gs, p, pre, today)
      case Failure(e) => Failure(e)
      case Success(ls) =>
        match PriceItem(gs, p, items[|items| - 1], today)
        case Failure(e) => Failure(e)
        case Success(l) => Success(ls + [l])
  }

  /** The pricing of a request succeeds exactly when every entry can be priced,
      and then its lines are the entries' lines, in order. */
  lemma {:induction false} PricedLinesEntries(gs: seq<Goods>, p: Policy, items: seq<Item>, today: int)
    ensures PricedLines(gs, p, items, today).Success?
            <==> forall j :: 0 <= j < |items| ==> PriceItem(gs, p, items[j], today).Success?
    ensures PricedLines(gs, p, items, today).Success? ==>
              forall j :: 0 <= j < |items| ==> PriceItem(gs, p, items[j], today) == Success(PricedLines(gs, p, items, today).value[j])
  {
    if items != [] {
      var pre := items[..|items| - 1];
      assert forall j :: 0 <= j < |pre| ==> pre[j] == items[j];
      PricedLinesEntries(gs, p, pre, today);
    }
  }

  /** A failed pricing carries the error of the first entry that fails. */
  lemma {:induction false} PricedLinesFirstFailure(gs: seq<Goods>, p: Policy, items: seq<Item>, today: int)
    requires PricedLines(gs, p, items, today).Failure?
    ensures exists j :: && 0 <= j < |items|
                        && PriceItem(gs, p, items[j], today) == Failure(PricedLines(gs, p, items, today).error)
                        && forall i :: 0 <= i < j ==> PriceItem(gs, p, items[i], today).Success?
  {
    var pre := items[..|items| - 1];
    assert forall j :: 0 <= j < |pre| ==> pre[j] == items[j];
    PricedLinesEntries(gs, p, pre, today);
    if PricedLines(gs, p, pre, today).Failure? {
      PricedLinesFirstFailure(gs, p, pre, today);
    }
  }

  /** A failure of a prefix of the request is the failure of the whole request. */
  lemma {:induction false} PrefixFailure(gs: seq<Goods>, p: Policy, items: seq<Item>, today: int, i: nat)
    requires i <= |items|
    requires PricedLines(gs, p, items[..i], today).Failure?
    ensures PricedLines(gs, p, items, today) == PricedLines(gs, p, items[..i], today)
  {
    if i < |items| {
      var pre := items[..|items| - 1];
      assert pre[..i] == items[..i];
      PrefixFailure(gs, p, pre, today, i);
    } else {
      assert items[..i] == items;
    }
  }

  /** A request naming an id the inventory does not have cannot be priced. */
  lemma MissingGoodsRefused(gs: seq<Goods>, p: Policy, items: seq<Item>, today: int, j: nat)
    requires j < |items| && forall i :: 0 <= i < |gs| ==> gs[i].id != items[j].goodsId
    ensures PricedLines(gs, p, items, today).Failure?
  {
    PricedLinesEntries(gs, p, items, today);
    assert PriceItem(gs, p, items[j], today).Failure?;
  }

  /** A request whose goods (the first inventory entry with its id) is past its
      expiry day cannot be priced. */
  lemma ExpiredGoodsRefused(gs: seq<Goods>, p: Policy, items: seq<Item>, today: int, j: nat)
    requires j < |items| && FindGoods(gs, items[j].goodsId).Some?
    requires FindGoods(gs, items[j].goodsId).value.dateOfExpiry < today
    ensures PricedLines(gs, p, items, today).Failure?
  {
    PricedLinesEntries(gs, p, items, today);
    assert PriceItem(gs, p, items[j], today).Failure?;
  }

  /** Distinct ids in the request give distinct goods on the priced lines. */
  lemma PricedLinesDistinct(gs: seq<Goods>, p: Policy, items: seq<Item>, today: int)
    requires DistinctIds(items)
    requires PricedLines(gs, p, items, today).Success?
    ensures DistinctGoods(PricedLines(gs, p, items, today).value)
  {
    var ls := PricedLines(gs, p, items, today).value;
    PricedLinesEntries(gs, p, items, today);
    forall i, j | 0 <= i < j < |ls| ensures ls[i].goods != ls[j].goods {
      assert PriceItem(gs, p, items[i], today) == Success(ls[i]);
      assert PriceItem(gs, p, items[j], today) == Success(ls[j]);
    }
  }

  /** How many pieces of `g` the lines take out of stock. */
  function Requested(ls: seq<SaleLine>, g: Goods): (r: int) {
    if ls == [] then 0
    else Requested(ls[..|ls| - 1], g) + (if ls[|ls| - 1].goods == g then ls[|ls| - 1].quantity else 0)
  }

  lemma {:induction false} RequestedAppend(xs: seq<SaleLine>, ys: seq<SaleLine>, g: Goods)
    ensures Requested(xs + ys, g) == Requested(xs, g) + Requested(ys, g)
  {
    if ys != [] {
      assert (xs + ys)[..|xs + ys| - 1] == xs + ys[..|ys| - 1];
      RequestedAppend(xs, ys[..|ys| - 1], g);
    } else {
      assert xs + ys == xs;
    }
  }

  /** With distinct goods, a goods on a line is asked for exactly that line's
      quantity, and a goods on no line is not asked for. */
  lemma {:induction false} RequestedOfDistinct(ls: seq<SaleLine>, g: Goods)
    requires DistinctGoods(ls)
    ensures (forall j :: 0 <= j < |ls| ==> ls[j].goods != g) ==> Requested(ls, g) == 0
    ensures forall j :: 0 <= j < |ls| && ls[j].goods == g ==> Requested(ls, g) == ls[j].quantity
  {
    if ls != [] {
      var pre := ls[..|ls| - 1];
      assert forall j :: 0 <= j < |pre| ==> pre[j] == ls[j];
      assert DistinctGoods(pre);
      RequestedOfDistinct(pre, g);
    }
  }

  /** The stock levels of the given goods, in order. */
  ghost function Stock(gs: seq<Goods>): (r: seq<int>)
    reads gs
    ensures |r| == |gs| && forall j :: 0 <= j < |gs| ==> r[j] == gs[j].quantity
  {
    seq(|gs|, j requires 0 <= j < |gs| reads gs => gs[j].quantity)
  }

  /** The stock that `stock` records for `g`, where stock[j] is the stock of
      gs[j]; a goods outside `gs` has none. */
  function Available(gs: seq<Goods>, stock: seq<int>, g: Goods): (r: int)
    requires |stock| == |gs|
  {
    if gs == [] then 0
    else if gs[0] == g then stock[0]
    else Available(gs[1..], stock[1..], g)
  }

  /** Read from a snapshot of the inventory, the stock of a goods is its quantity. */
  lemma {:induction false} AvailableIsQuantity(gs: seq<Goods>, g: Goods)
    requires g in gs
    ensures Available(gs, Stock(gs), g) == g.quantity
  {
    if gs[0] != g {
      assert Stock(gs)[1..] == Stock(gs[1..]);
      AvailableIsQuantity(gs[1..], g);
    }
  }

  /** The stock levels of `gs` once the lines have been taken out of `before`. */
  function AfterSale(gs: seq<Goods>, before: seq<int>, ls: seq<SaleLine>): (r: seq<int>)
    requires |before| == |gs|
    ensures |r| == |gs| && forall j :: 0 <= j < |gs| ==> r[j] == before[j] - Requested(ls, gs[j])
  {
    seq(|gs|, j requires 0 <= j < |gs| => before[j] - Requested(ls, gs[j]))
  }

  /** Taking out two batches of lines one after the other takes out both. */
  lemma AfterSaleTwice(gs: seq<Goods>, stock0: seq<int>, xs: seq<SaleLine>, ys: seq<SaleLine>)
    requires |stock0| == |gs|
    ensures AfterSale(gs, AfterSale(gs, stock0, xs), ys) == AfterSale(gs, stock0, xs + ys)
  {
    forall j | 0 <= j < |gs|
      ensures AfterSale(gs, AfterSale(gs, stock0, xs), ys)[j] == AfterSale(gs, stock0, xs + ys)[j]
    {
      RequestedAppend(xs, ys, gs[j]);
    }
  }

  /** The stock recorded for a goods of the inventory drops by what the lines ask for. */
  lemma {:induction false} AvailableAfterSale(gs: seq<Goods>, stock0: seq<int>, ls: seq<SaleLine>, g: Goods)
    requires |stock0| == |gs| && g in gs
    ensures Available(gs, AfterSale(gs, stock0, ls), g) == Available(gs, stock0, g) - Requested(ls, g)
  {
    if gs[0] != g {
      assert AfterSale(gs, stock0, ls)[1..] == AfterSale(gs[1..], stock0[1..], ls);
      AvailableAfterSale(gs[1..], stock0[1..], ls, g);
    }
  }

  /** Before a line is taken out of stock, its goods still has all of its
      stock, since with distinct goods no earlier line names it. */
  lemma UntouchedAvailable(gs: seq<Goods>, stock0: seq<int>, ls: seq<SaleLine>, i: nat)
    requires |stock0| == |gs| && i < |ls| && ls[i].goods in gs
    requires DistinctGoods(ls)
    ensures Available(gs, AfterSale(gs, stock0, ls[..i]), ls[i].goods) == Available(gs, stock0, ls[i].goods)
  {
    assert forall j :: 0 <= j < i ==> ls[..i][j] == ls[j];
    assert DistinctGoods(ls[..i]);
    RequestedOfDistinct(ls[..i], ls[i].goods);
    AvailableAfterSale(gs, stock0, ls[..i], ls[i].goods);
  }

  /** The commit pass never drives a stock level below zero: every line it
      commits had enough stock, and with distinct goods each goods is taken
      out once. */
  lemma {:induction false} StockStaysNonNegative(gs: seq<Goods>, ls: seq<SaleLine>)
    requires DistinctGoods(ls) && forall j :: 0 <= j < |ls| ==> ls[j].goods in gs
    requires forall j :: 0 <= j < |gs| ==> gs[j].quantity >= 0
    ensures var k := FirstShortfall(gs, Stock(gs), ls);
            forall j :: 0 <= j < |gs| ==> AfterSale(gs, Stock(gs), ls[..k])[j] >= 0
  {
    var k := FirstShortfall(gs, Stock(gs), ls);
    var done := ls[..k];
    assert forall m :: 0 <= m < k ==> done[m] == ls[m];
    assert DistinctGoods(done);
    forall j | 0 <= j < |gs| ensures AfterSale(gs, Stock(gs), done)[j] >= 0 {
      RequestedOfDistinct(done, gs[j]);
      forall m | 0 <= m < k && done[m].goods == gs[j] ensures done[m].quantity <= gs[j].quantity {
        AvailableIsQuantity(gs, ls[m].goods);
      }
    }
  }

  /** The number of leading lines whose goods have enough stock in `stock`; the
      commit pass stops at the first line that does not. */
  function FirstShortfall(gs: seq<Goods>, stock: seq<int>, ls: seq<SaleLine>): (k: nat)
    requires |stock| == |gs|
    ensures k <= |ls|
    ensures forall j :: 0 <= j < k ==> ls[j].quantity <= Available(gs, stock, ls[j].goods)
    ensures k < |ls| ==> Available(gs, stock, ls[k].goods) < ls[k].quantity
  {
    if ls == [] then 0
    else if Available(gs, stock, ls[0].goods) < ls[0].quantity then 0
    else
      var k := FirstShortfall(gs, stock, ls[1..]);
      assert forall j :: 0 <= j < |ls| - 1 ==> ls[1..][j] == ls[j + 1];
      1 + k
  }

  class Shop {
    const id: int
    const name: string
    const currency: string
    const policy: Policy
    var allGoods: seq<Goods>
    var cashiers: seq<Cashier>
    var totalIncome: real
    var totalCosts: real
    /** The shop's ledger record, which outlives the object. */
    var ledger: Ledger

    /** The income is the ledger's cumulative total: it is read from there at
        construction and after every recorded sale. */
    ghost predicate Valid()
      reads this
    {
      totalIncome == ledger.totalValue
    }

    constructor (id: int, name: string, currency: string, policy: Policy, storedLedger: Ledger)
      ensures Valid()
      ensures this.id == id && this.name == name && this.currency == currency && this.policy == policy
      ensures allGoods == [] && cashiers == [] && totalCosts == 0.0
      ensures ledger == storedLedger && totalIncome == storedLedger.totalValue
    {
      this.id := id;
      this.name := name;
      this.currency := currency;
      this.policy := policy;
      allGoods := [];
      cashiers := [];
      ledger := storedLedger;
      totalIncome := storedLedger.totalValue;
      totalCosts := 0.0;
    }

    method AddGoodsToList(goods: Goods)
      modifies this
      ensures allGoods == old(allGoods) + [goods]
      ensures totalCosts == old(totalCosts) + goods.buyingPrice * goods.quantity as real
      ensures cashiers == old(cashiers) && totalIncome == old(totalIncome) && ledger == old(ledger)
    {
      allGoods := allGoods + [goods];
      totalCosts := totalCosts + goods.buyingPrice * goods.quantity as real;
    }

    method AddCashierToList(cashier: Cashier)
      modifies this
      ensures cashiers == old(cashiers) + [cashier]
      ensures totalCosts == old(totalCosts) + cashier.salary
      ensures allGoods == old(allGoods) && totalIncome == old(totalIncome) && ledger == old(ledger)
    {
      cashiers := cashiers + [cashier];
      totalCosts := totalCosts + cashier.salary;
    }

    /** Profit is the ledger's cumulative takings minus the registered costs. */
    function CalculateProfit(): (r: real)
      reads this
      ensures Valid() ==> r == ledger.totalValue - totalCosts
    {
      totalIncome - totalCosts
    }

    /** The first pass of a sale: looks up and prices every entry, changing nothing. */
    method PricingPass(items: seq<Item>, today: int) returns (r: Result<real>)
      ensures var priced := PricedLines(allGoods, policy, items, today);
              && (r.Success? <==> priced.Success?)
              && (r.Success? ==> r.value == LinesTotal(priced.value))
              && (r.Failure? ==> r.error == priced.error)
    {
      var totalPrice := 0.0;
      var i := 0;
      while i < |items|
        invariant 0 <= i <= |items|
        invariant PricedLines(allGoods, policy, items[..i], today).Success?
        invariant totalPrice == LinesTotal(PricedLines(allGoods, policy, items[..i], today).value)
      {
        assert items[..i + 1][..i] == items[..i];
        var goods := FindGoods(allGoods, items[i].goodsId);
        if goods.None? {
          PrefixFailure(allGoods, policy, items, today, i + 1);
          return Failure(GoodsNotFound(items[i].goodsId));
        }
        var sellingPrice := goods.value.CalcSellingPrice(policy, today);
        if sellingPrice.Failure? {
          PrefixFailure(allGoods, policy, items, today, i + 1);
          return Failure(sellingPrice.error);
        }
        totalPrice := totalPrice + sellingPrice.value * items[i].quantity as real;
        i := i + 1;
      }
      assert items[..i] == items;
      return Success(totalPrice);
    }

    /** The state of a sale's second pass after the first `i` priced lines were
        committed: the receipt holds them, and they came out of the stock the
        inventory had before the pass. */
    ghost predicate Committed(receipt: Receipt, ls: seq<SaleLine>, stock0: seq<int>, i: nat)
      reads this, allGoods, receipt
    {
      && |stock0| == |allGoods| && i <= |ls|
      && receipt.Valid() && receipt.lines == ls[..i]
      && Stock(allGoods) == AfterSale(allGoods, stock0, ls[..i])
    }

    /** One step of the second pass: finds and re-prices entry `i` of the request
        and adds it to the receipt. `ls` are the lines the first pass priced. */
    method CommitLine(receipt: Receipt, items: seq<Item>, i: nat, today: int,
                      ghost ls: seq<SaleLine>, ghost stock0: seq<int>) returns (r: Outcome)
      requires i < |items| == |ls| && DistinctGoods(ls)
      requires PriceItem(allGoods, policy, items[i], today) == Success(ls[i])
      requires Committed(receipt, ls, stock0, i)
      modifies receipt, ls[i].goods
      ensures r.Fail? <==> Available(allGoods, stock0, ls[i].goods) < ls[i].quantity
      ensures r.Fail? ==> r.error == InsufficientQuantity(ls[i].goods.name)
      ensures r.Fail? ==> Committed(receipt, ls, stock0, i)
      ensures r.Pass? ==> Committed(receipt, ls, stock0, i + 1)
    {
      ghost var l := ls[i];
      UntouchedAvailable(allGoods, stock0, ls, i);
      AvailableIsQuantity(allGoods, l.goods);
      AfterSaleTwice(allGoods, stock0, ls[..i], [l]);
      var goods := FindGoods(allGoods, items[i].goodsId);
      if goods.None? {
        assert false;  // the first pass found this entry
      }
      var sellingPrice := goods.value.CalcSellingPrice(policy, today);
      if sellingPrice.Failure? {
        assert false;  // the first pass priced this entry on the same day
      }
      ghost var before := Stock(allGoods);
      r := receipt.AddSaleOfGoods(goods.value, items[i].quantity, sellingPrice.value);
      if r.Pass? {
        assert [l][..0] == [];
        forall j | 0 <= j < |allGoods|
          ensures Stock(allGoods)[j] == AfterSale(allGoods, before, [l])[j]
        {
          if allGoods[j] != l.goods {
            assert allGoods[j].quantity == old(allGoods[j].quantity);
          }
        }
        assert Stock(allGoods) == AfterSale(allGoods, before, [l]);
        assert ls[..i + 1] == ls[..i] + [l];
      }
    }

    /** The second pass of a sale: adds every entry to the receipt, which takes
        the goods out of stock; it stops at the first entry whose stock is too
        small. */
    method CommitPass(receipt: Receipt, items: seq<Item>, today: int) returns (r: Outcome)
      requires receipt.Valid() && receipt.lines == []
      requires DistinctIds(items)
      requires PricedLines(allGoods, policy, items, today).Success?
      modifies receipt, allGoods
      ensures receipt.Valid()
      ensures var ls := PricedLines(allGoods, policy, items, today).value;
              var k := FirstShortfall(allGoods, old(Stock(allGoods)), ls);
              && (r.Pass? <==> k == |ls|)
              && (r.Fail? ==> r.error == InsufficientQuantity(ls[k].goods.name))
              && receipt.lines == ls[..k]
              && Stock(allGoods) == AfterSale(allGoods, old(Stock(allGoods)), ls[..k])
    {
      ghost var ls := PricedLines(allGoods, policy, items, today).value;
      PricedLinesDistinct(allGoods, policy, items, today);
      PricedLinesEntries(allGoods, policy, items, today);
      ghost var stock0 := Stock(allGoods);
      ghost var k := FirstShortfall(allGoods, stock0, ls);
      assert ls[..0] == [];
      var i := 0;
      while i < |items|
        invariant i <= k
        invariant Committed(receipt, ls, stock0, i)
      {
        var added := CommitLine(receipt, items, i, today, ls, stock0);
        if added.Fail? {
          assert k == i;
          return added;
        }
        i := i + 1;
      }
      assert ls[..i] == ls;
      r := Pass;
    }

    /** The second half of a sale that passed the price and funds checks: numbers
        a new receipt, commits the request to it and, when the whole request was
        committed and `storageOk` says the files could be written, records the
        sale in the ledger. */
    method RecordSale(cashier: Cashier, items: seq<Item>, today: int, storageOk: bool)
      returns (receipt: Receipt)
      requires Valid()
      requires DistinctIds(items)
      requires PricedLines(allGoods, policy, items, today).Success?
      modifies this, allGoods
      ensures Valid()
      ensures allGoods == old(allGoods) && cashiers == old(cashiers) && totalCosts == old(totalCosts)
      ensures var ls := PricedLines(allGoods, policy, items, today).value;
              var k := FirstShortfall(allGoods, old(Stock(allGoods)), ls);
              && fresh(receipt) && receipt.Valid()
              && receipt.receiptId == old(ledger.lastReceiptNumber) + 1
              && receipt.shopId == id && receipt.shopName == name && receipt.cashier == cashier
              && receipt.lines == ls[..k]
              && Stock(allGoods) == AfterSale(allGoods, old(Stock(allGoods)), ls[..k])
              && (k == |ls| ==> receipt.totalPrice == LinesTotal(ls))
              && (if k == |ls| && storageOk
                  then ledger == Ledger(old(ledger.lastReceiptNumber) + 1, old(ledger.totalValue) + receipt.totalPrice)
                  else ledger == old(ledger))
    {
      var currentReceiptNumber := ledger.lastReceiptNumber;
      receipt := new Receipt(id, name, cashier, currentReceiptNumber + 1);
      var committed := CommitPass(receipt, items, today);
      assert PricedLines(allGoods, policy, items, today).value[..|items|] == PricedLines(allGoods, policy, items, today).value;
      if committed.Fail? || !storageOk {
        return;
      }
      currentReceiptNumber := currentReceiptNumber + 1;
      ledger := receipt.UpdateShopTotalValue(ledger, currentReceiptNumber);
      totalIncome := ledger.totalValue;
    }

    /** Sells the requested goods to the client on day `today`. `storageOk` says
        whether writing the receipt files and the ledger record succeeds. The
        result is null when a request entry is missing or expired or the client
        cannot pay; otherwise it is the receipt, complete or partial. */
    method SellGoods(cashier: Cashier, items: seq<Item>, client: Client, today: int, storageOk: bool)
      returns (receipt: Receipt?)
      requires Valid()
      requires DistinctIds(items)
      modifies this, allGoods
      ensures Valid()
      ensures allGoods == old(allGoods) && cashiers == old(cashiers) && totalCosts == old(totalCosts)
      ensures var priced := PricedLines(allGoods, policy, items, today);
              priced.Failure? || client.CheckIsEnoughMoney(LinesTotal(priced.value)).Fail? ==>
                && receipt == null
                && ledger == old(ledger) && totalIncome == old(totalIncome)
                && Stock(allGoods) == old(Stock(allGoods))
      ensures var priced := PricedLines(allGoods, policy, items, today);
              priced.Success? && client.CheckIsEnoughMoney(LinesTotal(priced.value)).Pass? ==>
                var ls := priced.value;
                var k := FirstShortfall(allGoods, old(Stock(allGoods)), ls);
                && receipt != null && fresh(receipt) && receipt.Valid()
                && receipt.receiptId == old(ledger.lastReceiptNumber) + 1
                && receipt.shopId == id && receipt.shopName == name && receipt.cashier == cashier
                && receipt.lines == ls[..k]
                && Stock(allGoods) == AfterSale(allGoods, old(Stock(allGoods)), ls[..k])
                && (k == |ls| ==> receipt.totalPrice == LinesTotal(ls))
                && (if k == |ls| && storageOk
                    then ledger == Ledger(old(ledger.lastReceiptNumber) + 1, old(ledger.totalValue) + receipt.totalPrice)
                    else ledger == old(ledger))
    {
      receipt := null;
      var quote := PricingPass(items, today);
      if quote.Failure? {
        return;
      }
      var funds := client.CheckIsEnoughMoney(quote.value);
      if funds.Fail? {
        return;
      }
      receipt := RecordSale(cashier, items, today, storageOk);
    }
  }
}
