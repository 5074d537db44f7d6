/**
 * The static profit arithmetic of ShoppingCartProfitCalculator.js.
 * The class-level switch `valuePackEnabled` is passed explicitly to every call;
 * prices and times are reals (no IEEE rounding).
 */
module ProfitCalculator {

  /** Share of the market price that is realised when selling. */
  const TAX_PERCENTAGE: real := 0.65

  /** Extra factor on the selling price when the value pack is enabled. */
  const VALUE_PACK_MULTIPLIER: real := 1.3

  /** The fields of one shopping-cart entry that the calculator reads. */
  datatype ShoppingCartEntry = ShoppingCartEntry(expectedCount: int, individualPrice: real, cumulativeTimeSpent: real)

  /**
   * A JavaScript number that `Math.floor` of a quotient can give: an integer, or,
   * for a division by zero, an infinity of the profit's sign or NaN for 0 / 0.
   */
  datatype Rate = Finite(value: int) | PlusInfinity | MinusInfinity | NotANumber

  datatype ProfitValues = ProfitValues(profit: real, profitPerSecond: Rate)

  function SellingPrice(marketPrice: real, valuePackEnabled: bool): real
  {
    var sellingPrice := marketPrice * TAX_PERCENTAGE;
    if valuePackEnabled then VALUE_PACK_MULTIPLIER * sellingPrice else sellingPrice
  }

  /** Profit of selling one unit at `marketPrice` that cost `individualPrice`. */
  function CalculateProfit(marketPrice: real, individualPrice: real, valuePackEnabled: bool): (profit: real)
    ensures !valuePackEnabled ==> profit == marketPrice * 0.65 - individualPrice
    ensures valuePackEnabled ==> profit == marketPrice * 0.845 - individualPrice
  {
    var sellingPrice := SellingPrice(marketPrice, valuePackEnabled);
    sellingPrice - individualPrice
  }

  /**
   * Profit per second, rounded down (Math.floor). Over a zero time the quotient
   * is an infinity of the profit's sign, or NaN when the profit is zero too.
   */
  function CalculateProfitPerSecond(marketPrice: real, individualPrice: real, cumulativeTimeSpent: real, valuePackEnabled: bool): (profitPerSecond: Rate)
    ensures var profit := CalculateProfit(marketPrice, individualPrice, valuePackEnabled);
      cumulativeTimeSpent != 0.0 ==>
        && profitPerSecond.Finite?
        && profitPerSecond.value as real <= profit / cumulativeTimeSpent
        && profit / cumulativeTimeSpent < profitPerSecond.value as real + 1.0
    ensures var profit := CalculateProfit(marketPrice, individualPrice, valuePackEnabled);
      cumulativeTimeSpent == 0.0 ==>
        && (profitPerSecond == PlusInfinity <==> profit > 0.0)
        && (profitPerSecond == MinusInfinity <==> profit < 0.0)
        && (profitPerSecond == NotANumber <==> profit == 0.0)
  {
    var profit := CalculateProfit(marketPrice, individualPrice, valuePackEnabled);
    if cumulativeTimeSpent != 0.0 then Finite((profit / cumulativeTimeSpent).Floor)
    else if profit > 0.0 then PlusInfinity
    else if profit < 0.0 then MinusInfinity
    else NotANumber
  }

  /**
   * Profit figures for an item: only the first shopping-cart entry and the
   * item's market price are consulted.
   */
  function CalculateProfitValuesForItem(marketPrice: real, shoppingCartData: seq<ShoppingCartEntry>, valuePackEnabled: bool): (values: ProfitValues)
    requires |shoppingCartData| > 0
    ensures values.profit == CalculateProfit(marketPrice, shoppingCartData[0].individualPrice, valuePackEnabled)
    ensures values.profitPerSecond
         == CalculateProfitPerSecond(marketPrice, shoppingCartData[0].individualPrice, shoppingCartData[0].cumulativeTimeSpent, valuePackEnabled)
  {
    var entry := shoppingCartData[0];
    ProfitValues(CalculateProfit(marketPrice, entry.individualPrice, valuePackEnabled),
                 CalculateProfitPerSecond(marketPrice, entry.individualPrice, entry.cumulativeTimeSpent, valuePackEnabled))
  }

  /** The worked figures: 1000 and 300 give 350, or 545 with the value pack. */
  lemma ProfitExamples()
    ensures CalculateProfit(1000.0, 300.0, false) == 350.0
    ensures CalculateProfit(1000.0, 300.0, true) == 545.0
  {
  }

  /** A bought entry takes no time: its profit is still finite, and its rate is infinite. */
  lemma ZeroTimeFigures()
    ensures var values := CalculateProfitValuesForItem(1000.0, [ShoppingCartEntry(1, 300.0, 0.0)], false);
      values.profit == 350.0 && values.profitPerSecond == PlusInfinity
  {
  }

  /** A dearer acquisition always means strictly less profit. */
  lemma ProfitStrictlyDecreasingInCost(marketPrice: real, cheaper: real, dearer: real, valuePackEnabled: bool)
    requires cheaper < dearer
    ensures CalculateProfit(marketPrice, dearer, valuePackEnabled) < CalculateProfit(marketPrice, cheaper, valuePackEnabled)
  {
  }

  /** A higher market price never lowers the profit (the multiplier is positive). */
  lemma ProfitMonotoneInMarketPrice(lower: real, higher: real, individualPrice: real, valuePackEnabled: bool)
    requires lower <= higher
    ensures CalculateProfit(lower, individualPrice, valuePackEnabled) <= CalculateProfit(higher, individualPrice, valuePackEnabled)
  {
  }

  /** Enabling the value pack never lowers the profit for a non-negative market price. */
  lemma ValuePackNeverHurts(marketPrice: real, individualPrice: real)
    requires marketPrice >= 0.0
    ensures CalculateProfit(marketPrice, individualPrice, false) <= CalculateProfit(marketPrice, individualPrice, true)
  {
  }

  /** Over a positive time, a dearer acquisition never raises the rounded rate. */
  lemma ProfitPerSecondAntitoneInCost(marketPrice: real, cheaper: real, dearer: real, time: real, valuePackEnabled: bool)
    requires cheaper <= dearer && time > 0.0
    ensures CalculateProfitPerSecond(marketPrice, dearer, time, valuePackEnabled).value
         <= CalculateProfitPerSecond(marketPrice, cheaper, time, valuePackEnabled).value
  {
    var low := CalculateProfit(marketPrice, dearer, valuePackEnabled);
    var high := CalculateProfit(marketPrice, cheaper, valuePackEnabled);
    assert low <= high;
    assert low / time <= high / time by {
      assert high / time - low / time == (high - low) / time;
    }
  }

  /** Two carts that agree on their first entry give the same profit figures. */
  lemma ProfitValuesReadOnlyFirstEntry(marketPrice: real, cart: seq<ShoppingCartEntry>, other: seq<ShoppingCartEntry>, valuePackEnabled: bool)
    requires |cart| > 0 && |other| > 0 && cart[0] == other[0]
    ensures CalculateProfitValuesForItem(marketPrice, cart, valuePackEnabled)
         == CalculateProfitValuesForItem(marketPrice, other, valuePackEnabled)
  {
  }
}
