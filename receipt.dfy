/** A receipt collects the lines of one sale while it is being assembled. */
module Receipts {
  import opened Results
  import opened Pricing
  import opened Cashiers

  /** One successful addition to a receipt: the goods, how many, at what unit price. */
  datatype SaleLine = SaleLine(goods: Goods, quantity: int, price: real)

  /** The shop's ledger record: the last receipt number and the cumulative takings. */
  datatype Ledger = Ledger(lastReceiptNumber: int, totalValue: real)

  function LineValue(l: SaleLine): (r: real) {
    l.price * l.quantity as real
  }

  /** Sum of price times quantity over the lines, in the order they were added. */
  function LinesTotal(ls: seq<SaleLine>): (r: real) {
    if ls == [] then 0.0 else LinesTotal(ls[..|ls| - 1]) + LineValue(ls[|ls| - 1])
  }

  function GoodsOf(ls: seq<SaleLine>): (gs: seq<Goods>)
    ensures |gs| == |ls| && forall j :: 0 <= j < |ls| ==> gs[j] == ls[j].goods
  {
    seq(|ls|, j requires 0 <= j < |ls| => ls[j].goods)
  }

  predicate DistinctGoods(ls: seq<SaleLine>) {
    forall i, j :: 0 <= i < j < |ls| ==> ls[i].goods != ls[j].goods
  }

  /** The soldGoods map that a sequence of put calls produces. */
  function QuantityMap(ls: seq<SaleLine>): (r: map<Goods, int>) {
    if ls == [] then map[]
    else QuantityMap(ls[..|ls| - 1])[ls[|ls| - 1].goods := ls[|ls| - 1].quantity]
  }

  /** The goodsPrices map that a sequence of put calls produces. */
  function PriceMap(ls: seq<SaleLine>): (r: map<Goods, real>) {
    if ls == [] then map[]
    else PriceMap(ls[..|ls| - 1])[ls[|ls| - 1].goods := ls[|ls| - 1].price]
  }

  /** The goods that appear on some line. */
  function GoodsSet(ls: seq<SaleLine>): (r: set<Goods>)
    ensures forall j :: 0 <= j < |ls| ==> ls[j].goods in r
  {
    if ls == [] then {}
    else
      var pre := ls[..|ls| - 1];
      assert forall j :: 0 <= j < |pre| ==> pre[j] == ls[j];
      GoodsSet(pre) + {ls[|ls| - 1].goods}
  }

  /** Both maps have exactly the goods of the lines as keys. */
  lemma {:induction false} MapKeys(ls: seq<SaleLine>)
    ensures QuantityMap(ls).Keys == GoodsSet(ls) && PriceMap(ls).Keys == GoodsSet(ls)
  {
    if ls != [] {
      MapKeys(ls[..|ls| - 1]);
    }
  }

  /** A goods maps to the quantity and price of the last line that names it. */
  lemma {:induction false} LastLineWins(ls: seq<SaleLine>, j: nat)
    requires j < |ls|
    requires forall i :: j < i < |ls| ==> ls[i].goods != ls[j].goods
    ensures ls[j].goods in QuantityMap(ls) && ls[j].goods in PriceMap(ls)
    ensures QuantityMap(ls)[ls[j].goods] == ls[j].quantity
    ensures PriceMap(ls)[ls[j].goods] == ls[j].price
  {
    MapKeys(ls);
    if j < |ls| - 1 {
      var pre := ls[..|ls| - 1];
      assert pre[j] == ls[j];
      assert forall i :: j < i < |pre| ==> pre[i] == ls[i];
      LastLineWins(pre, j);
    }
  }

  /** Sum of price times quantity read from the two maps, over the given goods. */
  function MapSum(gs: seq<Goods>, qm: map<Goods, int>, pm: map<Goods, real>): (r: real)
    requires forall j :: 0 <= j < |gs| ==> gs[j] in qm && gs[j] in pm
  {
    if gs == [] then 0.0
    else MapSum(gs[..|gs| - 1], qm, pm) + MapTerm(gs[|gs| - 1], qm, pm)
  }

  function MapTerm(g: Goods, qm: map<Goods, int>, pm: map<Goods, real>): (r: real)
    requires g in qm && g in pm
  {
    pm[g] * qm[g] as real
  }

  lemma MapTermOfLine(qm: map<Goods, int>, pm: map<Goods, real>, l: SaleLine)
    requires l.goods in qm && l.goods in pm && qm[l.goods] == l.quantity && pm[l.goods] == l.price
    ensures MapTerm(l.goods, qm, pm) == LineValue(l)
  {
  }

  /** Overwriting the maps at goods outside `gs` does not change the sum over `gs`. */
  lemma {:induction false} MapSumFrame(gs: seq<Goods>, qm: map<Goods, int>, pm: map<Goods, real>,
                                       g: Goods, q: int, p: real)
    requires forall j :: 0 <= j < |gs| ==> gs[j] in qm && gs[j] in pm && gs[j] != g
    ensures MapSum(gs, qm[g := q], pm[g := p]) == MapSum(gs, qm, pm)
  {
    if gs != [] {
      MapSumFrame(gs[..|gs| - 1], qm, pm, g, q, p);
    }
  }

  /** When every goods appears on one line only, the running total equals the
      sum of goodsPrices[g] * soldGoods[g] over the receipt's goods. */
  lemma {:induction false} DistinctLinesTotal(ls: seq<SaleLine>)
    requires DistinctGoods(ls)
    ensures forall j :: 0 <= j < |ls| ==> ls[j].goods in QuantityMap(ls) && ls[j].goods in PriceMap(ls)
    ensures MapSum(GoodsOf(ls), QuantityMap(ls), PriceMap(ls)) == LinesTotal(ls)
  {
    if ls != [] {
      var n := |ls|;
      var pre := ls[..n - 1];
      var last := ls[n - 1];
      assert forall i, j :: 0 <= i < j < |pre| ==> pre[i].goods != pre[j].goods by {
        assert forall j :: 0 <= j < |pre| ==> pre[j] == ls[j];
      }
      DistinctLinesTotal(pre);
      MapKeys(pre);
      MapKeys(ls);
      var qm, pm := QuantityMap(pre), PriceMap(pre);
      assert QuantityMap(ls) == qm[last.goods := last.quantity];
      assert PriceMap(ls) == pm[last.goods := last.price];
      var gs := GoodsOf(ls);
      assert gs[..n - 1] == GoodsOf(pre);
      assert forall j :: 0 <= j < n - 1 ==> gs[j] in qm && gs[j] in pm && gs[j] != last.goods by {
        assert forall j :: 0 <= j < n - 1 ==> gs[j] == ls[j].goods && pre[j] == ls[j];
      }
      MapSumFrame(GoodsOf(pre), qm, pm, last.goods, last.quantity, last.price);
      assert gs[n - 1] == last.goods;
      MapTermOfLine(QuantityMap(ls), PriceMap(ls), last);
      assert MapSum(gs, QuantityMap(ls), PriceMap(ls))
          == MapSum(GoodsOf(pre), QuantityMap(ls), PriceMap(ls)) + LineValue(last);
    }
  }

  /** Adding the same goods twice: both lines count towards the total, but the
      maps keep only the second line's quantity and price. */
  lemma RepeatedGoodsCountedTwice(first: SaleLine, second: SaleLine)
    requires first.goods == second.goods
    ensures LinesTotal([first, second]) == LineValue(first) + LineValue(second)
    ensures QuantityMap([first, second]) == map[second.goods := second.quantity]
    ensures PriceMap([first, second]) == map[second.goods := second.price]
  {
    assert [first, second][..1] == [first];
    assert [first][..0] == [];
    assert LinesTotal([first]) == LineValue(first);
    assert QuantityMap([first]) == map[first.goods := first.quantity];
    assert PriceMap([first]) == map[first.goods := first.price];
  }

  class Receipt {
    const receiptId: int
    const cashier: Cashier
    const shopId: int
    const shopName: string
    var soldGoods: map<Goods, int>
    var goodsPrices: map<Goods, real>
    var totalPrice: real
    /** The successful additions so far, in order. */
    ghost var lines: seq<SaleLine>

    ghost predicate Valid()
      reads this
    {
      && soldGoods == QuantityMap(lines)
      && goodsPrices == PriceMap(lines)
      && totalPrice == LinesTotal(lines)
    }

    constructor (shopId: int, shopName: string, cashier: Cashier, receiptId: int)
      ensures Valid() && lines == []
      ensures this.shopId == shopId && this.shopName == shopName
      ensures this.cashier == cashier && this.receiptId == receiptId
      ensures soldGoods == map[] && goodsPrices == map[] && totalPrice == 0.0
    {
      this.shopId := shopId;
      this.shopName := shopName;
      this.receiptId := receiptId;
      this.cashier := cashier;
      soldGoods := map[];
      goodsPrices := map[];
      totalPrice := 0.0;
      lines := [];
    }

    /** Sells `saleQuantity` pieces of `goods` at `price`, taking them out of the
        shared stock. The quantity is not checked for sign. */
    method AddSaleOfGoods(goods: Goods, saleQuantity: int, price: real) returns (r: Outcome)
      requires Valid()
      modifies this, goods
      ensures Valid()
      ensures r.Fail? <==> old(goods.quantity) < saleQuantity
      ensures r.Fail? ==> r.error == InsufficientQuantity(goods.name)
      ensures r.Fail? ==> unchanged(this) && unchanged(goods)
      ensures r.Pass? ==> goods.quantity == old(goods.quantity) - saleQuantity && goods.quantity >= 0
      ensures r.Pass? ==> lines == old(lines) + [SaleLine(goods, saleQuantity, price)]
      ensures r.Pass? ==> soldGoods == old(soldGoods)[goods := saleQuantity]
      ensures r.Pass? ==> goodsPrices == old(goodsPrices)[goods := price]
      ensures r.Pass? ==> totalPrice == old(totalPrice) + price * saleQuantity as real
    {
      if goods.quantity < saleQuantity {
        return Fail(InsufficientQuantity(goods.name));
      }
      goods.SetQuantity(goods.quantity - saleQuantity);
      soldGoods := soldGoods[goods := saleQuantity];
      goodsPrices := goodsPrices[goods := price];
      totalPrice := totalPrice + price * saleQuantity as real;
      lines := lines + [SaleLine(goods, saleQuantity, price)];
      assert lines[..|lines| - 1] == old(lines);
      r := Pass;
    }

    /** The ledger record after this receipt: the given receipt number and the
        previous cumulative total plus this receipt's total. */
    function UpdateShopTotalValue(ledger: Ledger, currentReceiptNumber: int): (r: Ledger)
      reads this
      ensures r.lastReceiptNumber == currentReceiptNumber
      ensures r.totalValue - ledger.totalValue == totalPrice
    {
      Ledger(currentReceiptNumber, ledger.totalValue + totalPrice)
    }
  }
}
