/** Goods of the shop and the rule that prices them. */
module Pricing {
  import opened Results

  datatype GoodsType = Food | NonFood

  /** The pricing parameters a shop fixes at construction: a percentage added to
      the buying price, a percentage taken off near expiry, and the number of days
      before expiry at which that discount starts, each for food and non-food. */
  datatype Policy = Policy(
    percentageOverchargeFood: real,
    percentageOverchargeNonFood: real,
    percentageDecreaseFood: real,
    percentageDecreaseNonFood: real,
    daysTillExpiryFood: int,
    daysTillExpiryNonFood: int)
  {
    function Overcharge(t: GoodsType): (r: real) {
      if t == Food then percentageOverchargeFood else percentageOverchargeNonFood
    }

    function Decrease(t: GoodsType): (r: real) {
      if t == Food then percentageDecreaseFood else percentageDecreaseNonFood
    }

    function ExpiryWindow(t: GoodsType): (r: int) {
      if t == Food then daysTillExpiryFood else daysTillExpiryNonFood
    }

    /** Selling price before any expiry discount. */
    function BasePrice(buyingPrice: real, t: GoodsType): (r: real) {
      buyingPrice * (1.0 + Overcharge(t) / 100.0)
    }
  }

  /** Dates are day numbers; `today` is always passed in. */
  class Goods {
    const id: int
    const name: string
    const buyingPrice: real
    const goodsType: GoodsType
    const dateOfExpiry: int
    var quantity: int

    constructor (id: int, name: string, buyingPrice: real, goodsType: GoodsType, dateOfExpiry: int, quantity: int)
      ensures this.id == id && this.name == name && this.buyingPrice == buyingPrice
      ensures this.goodsType == goodsType && this.dateOfExpiry == dateOfExpiry
      ensures this.quantity == quantity
    {
      this.id := id;
      this.name := name;
      this.buyingPrice := buyingPrice;
      this.goodsType := goodsType;
      this.dateOfExpiry := dateOfExpiry;
      this.quantity := quantity;
    }

    /** Overwrites the stock; every other field is immutable. */
    method SetQuantity(quantity: int)
      modifies this
      ensures this.quantity == quantity
    {
      this.quantity := quantity;
    }

    /** The selling price on day `today` under the shop's policy. It reads only
        immutable fields, so it depends on nothing a sale changes. */
    function CalcSellingPrice(p: Policy, today: int): (r: Result<real>)
      ensures r.Failure? <==> dateOfExpiry < today
      ensures r.Failure? ==> r.error == ExpiredGoods(name)
    {
      if today > dateOfExpiry then Failure(ExpiredGoods(name))
      else
        var sellingPrice := p.BasePrice(buyingPrice, goodsType);
        var daysToExpire := dateOfExpiry - today;
        if (goodsType == Food && daysToExpire < p.daysTillExpiryFood)
           || (goodsType == NonFood && daysToExpire < p.daysTillExpiryNonFood)
        then
          Success(sellingPrice * (1.0 - p.Decrease(goodsType) / 100.0))
        else
          Success(sellingPrice)
    }
  }

  /** Selling on the expiry day itself, or any day before, succeeds. */
  lemma SellableUntilExpiry(g: Goods, p: Policy, today: int)
    requires today <= g.dateOfExpiry
    ensures g.CalcSellingPrice(p, today).Success?
  {
  }

  /** Without the discount the price is the buying price plus the category's
      overcharge, exactly. */
  lemma UndiscountedPrice(g: Goods, p: Policy, today: int)
    requires today <= g.dateOfExpiry
    requires g.dateOfExpiry - today >= p.ExpiryWindow(g.goodsType)
    ensures var r := g.CalcSellingPrice(p, today);
            r.Success? && r.value == g.buyingPrice * (1.0 + (if g.goodsType == Food then p.percentageOverchargeFood
                                                            else p.percentageOverchargeNonFood) / 100.0)
  {
    var r := g.CalcSellingPrice(p, today);
    if g.goodsType == Food {
      assert !(g.dateOfExpiry - today < p.daysTillExpiryFood);
    } else {
      assert !(g.dateOfExpiry - today < p.daysTillExpiryNonFood);
    }
    assert r.value == p.BasePrice(g.buyingPrice, g.goodsType);
  }

  /** Strictly inside the category's window the category's decrease is applied
      to the base price. */
  lemma DiscountedPrice(g: Goods, p: Policy, today: int)
    requires today <= g.dateOfExpiry
    requires g.dateOfExpiry - today < p.ExpiryWindow(g.goodsType)
    ensures var r := g.CalcSellingPrice(p, today);
            r.Success? && r.value == p.BasePrice(g.buyingPrice, g.goodsType)
                                     * (1.0 - (if g.goodsType == Food then p.percentageDecreaseFood
                                               else p.percentageDecreaseNonFood) / 100.0)
  {
    var r := g.CalcSellingPrice(p, today);
    if g.goodsType == Food {
      assert g.dateOfExpiry - today < p.daysTillExpiryFood;
    } else {
      assert g.dateOfExpiry - today < p.daysTillExpiryNonFood;
    }
    assert r.value == p.BasePrice(g.buyingPrice, g.goodsType) * (1.0 - p.Decrease(g.goodsType) / 100.0);
  }

  /** The discount is applied exactly when the days left are fewer than the
      window; on the boundary day count there is none. */
  lemma DiscountIff(g: Goods, p: Policy, today: int)
    requires today <= g.dateOfExpiry
    requires p.Decrease(g.goodsType) != 0.0
    requires g.buyingPrice != 0.0 && p.Overcharge(g.goodsType) != -100.0
    ensures g.CalcSellingPrice(p, today).value != p.BasePrice(g.buyingPrice, g.goodsType)
        <==> g.dateOfExpiry - today < p.ExpiryWindow(g.goodsType)
  {
    var base := p.BasePrice(g.buyingPrice, g.goodsType);
    if g.dateOfExpiry - today < p.ExpiryWindow(g.goodsType) {
      var d := p.Decrease(g.goodsType);
      assert base != 0.0 by {
        assert 1.0 + p.Overcharge(g.goodsType) / 100.0 != 0.0;
        NonZeroProduct(g.buyingPrice, 1.0 + p.Overcharge(g.goodsType) / 100.0);
      }
      assert 1.0 - d / 100.0 != 1.0;
      ScaledDiffers(base, 1.0 - d / 100.0);
    }
  }

  lemma NonZeroProduct(x: real, y: real)
    requires x != 0.0 && y != 0.0
    ensures x * y != 0.0
  {
  }

  lemma ScaledDiffers(x: real, f: real)
    requires x != 0.0 && f != 1.0
    ensures x * f != x
  {
    NonZeroProduct(x, f - 1.0);
    assert x * f - x == x * (f - 1.0);
  }

  /** With non-negative parameters and a decrease of at most 100 percent, the
      price is non-negative and never above the undiscounted price. */
  lemma PriceBounds(g: Goods, p: Policy, today: int)
    requires today <= g.dateOfExpiry
    requires g.buyingPrice >= 0.0 && p.Overcharge(g.goodsType) >= 0.0
    requires 0.0 <= p.Decrease(g.goodsType) <= 100.0
    ensures var r := g.CalcSellingPrice(p, today);
            r.Success? && 0.0 <= r.value <= p.BasePrice(g.buyingPrice, g.goodsType)
  {
    var base := p.BasePrice(g.buyingPrice, g.goodsType);
    var factor := 1.0 + p.Overcharge(g.goodsType) / 100.0;
    NonNegativeProduct(g.buyingPrice, factor);
    assert base >= 0.0;
    var keep := 1.0 - p.Decrease(g.goodsType) / 100.0;
    assert 0.0 <= keep <= 1.0;
    NonNegativeProduct(base, keep);
    AtMostOneShrinks(base, keep);
    if g.dateOfExpiry - today < p.ExpiryWindow(g.goodsType) {
      DiscountedPrice(g, p, today);
    } else {
      UndiscountedPrice(g, p, today);
    }
  }

  lemma NonNegativeProduct(x: real, y: real)
    requires x >= 0.0 && y >= 0.0
    ensures x * y >= 0.0
  {
  }

  lemma AtMostOneShrinks(x: real, f: real)
    requires x >= 0.0 && f <= 1.0
    ensures x * f <= x
  {
    NonNegativeProduct(x, 1.0 - f);
  }

  /** The pricing parameters of the sample shop in Main.java. */
  const SamplePolicy := Policy(20.0, 40.0, 10.0, 5.0, 7, 10)

  /** Food bought at 2.0 with 4 days left is inside the 7-day window: 2.16. */
  lemma FoodNearExpiryExample(g: Goods, today: int)
    requires g.goodsType == Food && g.buyingPrice == 2.0 && g.dateOfExpiry == today + 4
    ensures var r := g.CalcSellingPrice(SamplePolicy, today); r.Success? && r.value == 2.16
  {
  }

  /** The same food with 30 days left gets no discount: 2.40. */
  lemma FoodFarFromExpiryExample(g: Goods, today: int)
    requires g.goodsType == Food && g.buyingPrice == 2.0 && g.dateOfExpiry == today + 30
    ensures var r := g.CalcSellingPrice(SamplePolicy, today); r.Success? && r.value == 2.4
  {
  }

  /** Non-food bought at 50.0 with 30 days left is outside the 10-day window: 70.0. */
  lemma NonFoodExample(g: Goods, today: int)
    requires g.goodsType == NonFood && g.buyingPrice == 50.0 && g.dateOfExpiry == today + 30
    ensures var r := g.CalcSellingPrice(SamplePolicy, today); r.Success? && r.value == 70.0
  {
  }
}
