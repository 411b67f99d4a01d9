/** The `units` table: a unit symbol names a conversion from a quantity
    written in that unit to the quantity that is aggregated, plus the display
    adjustment that is applied to the final totals. */
module Units {
  import opened Wrappers
  import opened Records

  /** The five entries of the table: grams, kilograms, litres, millilitres, pieces. */
  datatype Unit = G | Kg | L | Ml | St

  /** The labels the table knows. */
  const Labels: set<string> := {"g", "kg", "l", "ml", "st"}

  function Label(u: Unit): string {
    match u
    case G => "g"
    case Kg => "kg"
    case L => "l"
    case Ml => "ml"
    case St => "st"
  }

  /** `units[symbol]`: a symbol outside the table yields nothing (`undefined`). */
  function ParseUnit(symbol: string): (u: Option<Unit>)
    ensures u.Some? <==> symbol in Labels
    ensures u.Some? ==> Label(u.value) == symbol
  {
    if symbol == "g" then Some(G)
    else if symbol == "kg" then Some(Kg)
    else if symbol == "l" then Some(L)
    else if symbol == "ml" then Some(Ml)
    else if symbol == "st" then Some(St)
    else None
  }

  /** Every unit is found again under its own symbol. */
  lemma ParseLabel(u: Unit)
    ensures ParseUnit(Label(u)) == Some(u)
  {
  }

  /** The conversion function stored under each symbol. */
  function Apply(u: Unit, value: real): real {
    match u
    case G => value
    case Kg => value * 1000.0
    case L => value
    case Ml => value * 0.001
    case St => value
  }

  /** Looks `symbol` up in the table and applies its conversion to `value`.
      `g`, `l` and `st` keep the value, `kg` scales it by 1000, `ml` divides
      it by 1000; any other symbol fails. */
  function Convert(symbol: string, value: real): (r: Option<real>)
    ensures r.None? <==> symbol !in Labels
    ensures symbol == "g" || symbol == "l" || symbol == "st" ==> r == Some(value)
    ensures symbol == "kg" ==> r == Some(1000.0 * value)
    ensures symbol == "ml" ==> r == Some(value / 1000.0)
  {
    match ParseUnit(symbol)
    case None => None
    case Some(u) => Some(Apply(u, value))
  }

  /** Display adjustment of one total. The thresholds are taken from the
      table itself (`g(1000)` and `l(1)`), and a large total is passed through
      the `kg` conversion, which multiplies by 1000 instead of dividing. The
      source behaves this way for every ingredient, whatever its unit, and so
      does this model. */
  function Adjust(q: real): (r: real)
    ensures q >= 1000.0 ==> r == 1000.0 * q
    ensures q < 1.0 ==> r == q / 1000.0
    ensures 1.0 <= q < 1000.0 ==> r == q
  {
    if q >= Apply(G, 1000.0) then Apply(Kg, q)
    else if q < Apply(L, 1.0) then Apply(Ml, q)
    else q
  }

  /** The adjustment leaves a total alone exactly when it already lies in
      [1, 1000) or is zero. */
  lemma AdjustFixedPoints(q: real)
    ensures Adjust(q) == q <==> (1.0 <= q < 1000.0 || q == 0.0)
  {
    if q >= 1000.0 {
      assert Adjust(q) - q == 999.0 * q;
    } else if q < 1.0 {
      assert q - Adjust(q) == q * 0.999;
    }
  }

  /** The adjustment never moves a total into the [1, 1000) band: what is
      outside stays outside, and is pushed further away from it. */
  lemma AdjustNeverNormalizes(q: real)
    requires !(1.0 <= q < 1000.0)
    ensures !(1.0 <= Adjust(q) < 1000.0)
    ensures q >= 1000.0 ==> Adjust(q) >= 1000.0 * q
    ensures 0.0 <= q < 1.0 ==> Adjust(q) <= q
  {
  }

  /** Applying the adjustment twice is not the same as applying it once. */
  lemma AdjustNotIdempotent()
    ensures Adjust(Adjust(1000.0)) != Adjust(1000.0)
  {
    assert Adjust(1000.0) == 1000000.0;
    assert Adjust(1000000.0) == 1000000000.0;
  }

  /** Reference for `adjustUnits`: every value adjusted, keys and their order kept. */
  function AdjustAll(r: Record<real>): (r': Record<real>)
    ensures r'.order == r.order
    ensures r'.vals.Keys == r.vals.Keys
  {
    Rec(r.order, map k | k in r.vals :: Adjust(r.vals[k]))
  }

  /** `adjustUnits`: rewrites each entry of the object in place, in key order. */
  method AdjustUnits(r: Record<real>) returns (r': Record<real>)
    ensures r'.order == r.order
    ensures r'.vals.Keys == r.vals.Keys
    ensures forall k :: k in r.vals ==> r'.vals[k] == Adjust(r.vals[k])
    ensures r' == AdjustAll(r)
  {
    r' := r;
    var i := 0;
    while i < |r.order|
      invariant 0 <= i <= |r.order|
      invariant r'.order == r.order
      invariant r'.vals.Keys == r.vals.Keys
      invariant forall j :: 0 <= j < i ==> r'.vals[r.order[j]] == Adjust(r.vals[r.order[j]])
      invariant forall j :: i <= j < |r.order| ==> r'.vals[r.order[j]] == r.vals[r.order[j]]
    {
      var k := r.order[i];
      r' := Put(r', k, Adjust(r'.vals[k]));
      i := i + 1;
    }
    assert forall k :: k in r.vals ==> exists j :: 0 <= j < |r.order| && r.order[j] == k;
  }
}
