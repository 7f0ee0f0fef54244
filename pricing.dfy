/**
 * Line and order prices (orders/models.py): OrderItem.calculate_price,
 * OrderItem.total_price and the sum Order.update_total_price stores.
 */
module Pricing {
  import opened Wrappers
  import opened ProductsModel

  /** What an order line's generic foreign key resolves to; a deleted product resolves to nothing. */
  datatype Product = CakeProduct(cake: Cake) | SupplyProduct(supply: PartySupply) | NoProduct

  /** A chosen size variant together with the size it refers to. */
  datatype Chosen = Chosen(variant: SizeVariant, size: Size)

  /** calculate_price either yields a price or raises a ValidationError naming the size. */
  datatype PriceOutcome = Priced(amount: real) | WeightUndefined(sizeName: string)

  function Max0(x: real): (r: real)
    ensures r >= 0.0 && r >= x && (r == x || r == 0.0)
  {
    if x >= 0.0 then x else 0.0
  }

  /**
   * `override or size weight`: a zero override is falsy in Python, so it falls
   * through to the size's weight.
   */
  function LineWeight(c: Chosen): (w: Option<real>)
    ensures c.variant.weightOverride.Some? && c.variant.weightOverride.value != 0.0 ==> w == c.variant.weightOverride
    ensures c.variant.weightOverride.None? || c.variant.weightOverride.value == 0.0 ==> w == c.size.estimatedWeightKg
  {
    match c.variant.weightOverride
    case Some(o) => if o != 0.0 then Some(o) else c.size.estimatedWeightKg
    case None => c.size.estimatedWeightKg
  }

  /** Neither `not weight` nor `weight <= 0`. */
  predicate UsableWeight(w: Option<real>)
  {
    w.Some? && w.value > 0.0
  }

  predicate WeighedLine(p: Product, v: Option<Chosen>)
  {
    p.CakeProduct? && p.cake.priceType == PerKg && v.Some?
  }

  /** OrderItem.calculate_price for the resolved product and the chosen variant, if any. */
  function CalculatePrice(p: Product, v: Option<Chosen>): (r: PriceOutcome)
    ensures r.WeightUndefined? <==> WeighedLine(p, v) && !UsableWeight(LineWeight(v.value))
    ensures r.WeightUndefined? ==> r.sizeName == v.value.size.name
    ensures p.CakeProduct? && r.Priced? ==> r.amount >= 0.0
    ensures p.SupplyProduct? ==> r == Priced(p.supply.price)
    ensures p.NoProduct? ==> r == Priced(0.0)
  {
    match p
    case CakeProduct(cake) =>
      if WeighedLine(p, v) && !UsableWeight(LineWeight(v.value)) then WeightUndefined(v.value.size.name)
      else
        var base := if WeighedLine(p, v) then cake.basePrice * LineWeight(v.value).value else cake.basePrice;
        var modified := if v.Some? then base + v.value.variant.priceModifier else base;
        Priced(Max0(modified))
    case SupplyProduct(s) => Priced(s.price)
    case NoProduct => Priced(0.0)
  }

  /** A cake priced per unit costs its variant's final_price, floored at zero. */
  lemma FixedCakeCostsFinalPrice(cake: Cake, c: Chosen)
    requires cake.priceType != PerKg
    ensures CalculatePrice(CakeProduct(cake), Some(c)) == Priced(Max0(FinalPrice(cake, c.variant)))
  {
  }

  /** A cake without a chosen size costs its base price, floored at zero, whatever its price type. */
  lemma CakeWithoutVariant(cake: Cake)
    ensures CalculatePrice(CakeProduct(cake), None) == Priced(Max0(cake.basePrice))
  {
  }

  /**
   * A cake priced per kilogram with a non-zero override costs base price times
   * final_weight plus the modifier, floored at zero; without a usable weight it
   * has no price at all.
   */
  lemma PerKgCakeCost(cake: Cake, c: Chosen)
    requires cake.priceType == PerKg
    requires c.variant.weightOverride.Some? ==> c.variant.weightOverride.value != 0.0
    ensures LineWeight(c) == FinalWeight(c.variant, c.size)
    ensures UsableWeight(FinalWeight(c.variant, c.size)) ==>
      CalculatePrice(CakeProduct(cake), Some(c))
        == Priced(Max0(cake.basePrice * FinalWeight(c.variant, c.size).value + c.variant.priceModifier))
    ensures !UsableWeight(FinalWeight(c.variant, c.size)) ==>
      CalculatePrice(CakeProduct(cake), Some(c)) == WeightUndefined(c.size.name)
  {
  }

  /**
   * The two readings of the weight disagree on a zero override: final_weight
   * reports 0 kg while the line is priced with the size's weight.
   */
  lemma ZeroOverrideReadings(cake: Cake, c: Chosen)
    requires cake.priceType == PerKg
    requires c.variant.weightOverride == Some(0.0)
    requires UsableWeight(c.size.estimatedWeightKg)
    ensures FinalWeight(c.variant, c.size) == Some(0.0)
    ensures CalculatePrice(CakeProduct(cake), Some(c))
      == Priced(Max0(cake.basePrice * c.size.estimatedWeightKg.value + c.variant.priceModifier))
  {
  }

  /** A heavier cake never costs less when its base price is non-negative. */
  lemma PerKgMonotone(cake: Cake, c1: Chosen, c2: Chosen)
    requires cake.priceType == PerKg && cake.basePrice >= 0.0
    requires c1.variant.priceModifier == c2.variant.priceModifier
    requires UsableWeight(LineWeight(c1)) && UsableWeight(LineWeight(c2))
    requires LineWeight(c1).value <= LineWeight(c2).value
    ensures CalculatePrice(CakeProduct(cake), Some(c1)).amount <= CalculatePrice(CakeProduct(cake), Some(c2)).amount
  {
    var w1, w2 := LineWeight(c1).value, LineWeight(c2).value;
    MulNonNegative(cake.basePrice, w2 - w1);
    assert cake.basePrice * w2 - cake.basePrice * w1 == cake.basePrice * (w2 - w1);
  }

  lemma MulNonNegative(x: real, y: real)
    requires x >= 0.0 && y >= 0.0
    ensures x * y >= 0.0
  {
  }

  /** The amount is a whole number of cents, as a `decimal_places=2` column holds it. */
  predicate WholeCents(x: real)
  {
    (x * 100.0).Floor as real == x * 100.0
  }

  /** A non-negative amount to the nearest cent, halves up. */
  function CentsUp(y: real): (r: real)
    requires y >= 0.0
    ensures WholeCents(r) && r >= 0.0
    ensures y - 0.005 <= r <= y + 0.005
  {
    var n := (y * 100.0 + 0.5).Floor;
    assert (n as real / 100.0) * 100.0 == n as real;
    n as real / 100.0
  }

  /**
   * What a `DecimalField(decimal_places=2)` column stores for an amount: the
   * nearest whole number of cents, halves rounded away from zero.
   */
  function RoundCents(x: real): (r: real)
    ensures WholeCents(r)
    ensures x - 0.005 <= r <= x + 0.005
    ensures x >= 0.0 ==> r >= 0.0
  {
    if x >= 0.0 then CentsUp(x)
    else
      var m := CentsUp(-x);
      var k := (m * 100.0).Floor;
      assert -m * 100.0 == (-k) as real;
      assert ((-k) as real).Floor == -k;
      -m
  }

  /** A price as a `decimal_places=2` column stores it; an error stays as it is. */
  function InCents(p: PriceOutcome): (r: PriceOutcome)
    ensures r.Priced? <==> p.Priced?
    ensures r.Priced? ==> WholeCents(r.amount)
  {
    match p
    case Priced(amount) => Priced(RoundCents(amount))
    case WeightUndefined(name) => p
  }

  /** An amount already in whole cents is stored as it is. */
  lemma RoundCentsKeepsCents(x: real)
    requires WholeCents(x)
    ensures RoundCents(x) == x
  {
    var n := (x * 100.0).Floor;
    if x >= 0.0 {
      assert (x * 100.0 + 0.5).Floor == n;
    } else {
      assert (-x * 100.0 + 0.5).Floor == -n;
    }
  }

  /** One stored line: its quantity and the unit price frozen on it. */
  datatype Line = Line(quantity: nat, priceAtOrder: real)

  /** OrderItem.total_price. */
  function LineTotal(l: Line): real
  {
    l.quantity as real * l.priceAtOrder
  }

  /** The aggregate Sum(quantity * price_at_order), 0 for no lines. */
  function Total(lines: seq<Line>): real
  {
    if lines == [] then 0.0 else Total(lines[..|lines| - 1]) + LineTotal(lines[|lines| - 1])
  }

  /** Adding a line adds its line total. */
  lemma TotalAppend(lines: seq<Line>, l: Line)
    ensures Total(lines + [l]) == Total(lines) + LineTotal(l)
  {
    assert (lines + [l])[..|lines|] == lines;
  }

  /** The sum does not depend on the order the rows come back in. */
  lemma {:induction false} TotalConcat(a: seq<Line>, b: seq<Line>)
    ensures Total(a + b) == Total(a) + Total(b)
    decreases |b|
  {
    if b != [] {
      var b' := b[..|b| - 1];
      assert a + b == (a + b') + [b[|b| - 1]];
      TotalAppend(a + b', b[|b| - 1]);
      TotalConcat(a, b');
      TotalAppend(b', b[|b| - 1]);
      assert b == b' + [b[|b| - 1]];
    } else {
      assert a + b == a;
    }
  }

  lemma TotalSwap(a: seq<Line>, b: seq<Line>)
    ensures Total(a + b) == Total(b + a)
  {
    TotalConcat(a, b);
    TotalConcat(b, a);
  }

  /** Lines priced at zero or more sum to zero or more. */
  lemma {:induction false} TotalNonNegative(lines: seq<Line>)
    requires forall k :: 0 <= k < |lines| ==> lines[k].priceAtOrder >= 0.0
    ensures Total(lines) >= 0.0
    decreases |lines|
  {
    if lines != [] {
      TotalNonNegative(lines[..|lines| - 1]);
      var l := lines[|lines| - 1];
      assert l.quantity as real * l.priceAtOrder >= 0.0;
    }
  }
}
