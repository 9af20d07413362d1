/** The products table's "Est. Margin" column. */
module ProductColumns {
  import opened Entities

  /** Retail price minus manufacturing cost. */
  function Margin(p: Product): real {
    p.retailPrice - p.manufactureCost
  }

  /** The margin as a percentage of the retail price; 0 when the price is not
      positive, so the division never sees a zero divisor. */
  function MarginPercent(p: Product): (r: real)
    ensures p.retailPrice > 0.0 ==> r * p.retailPrice == Margin(p) * 100.0
    ensures p.retailPrice <= 0.0 ==> r == 0.0
  {
    if p.retailPrice > 0.0 then Margin(p) / p.retailPrice * 100.0 else 0.0
  }

  /** For a positive price and a non-negative cost (what the product form
      enforces), the percentage is at most 100 and has the sign of the margin. */
  lemma MarginPercentBounds(p: Product)
    requires p.retailPrice > 0.0 && p.manufactureCost >= 0.0
    ensures MarginPercent(p) <= 100.0
    ensures MarginPercent(p) > 0.0 <==> Margin(p) > 0.0
    ensures MarginPercent(p) == 0.0 <==> Margin(p) == 0.0
    ensures MarginPercent(p) == 100.0 <==> p.manufactureCost == 0.0
  {
    var r := MarginPercent(p);
    assert r * p.retailPrice == Margin(p) * 100.0;
    assert Margin(p) <= p.retailPrice;
  }
}
