/** The mixed int64/float64 comparison behind `minimum` and `maximum`. */
module NumericBounds {
  import opened Float64
  import opened Json

  /** The three results of `asJSONNumberAndInt` on a numeric value. */
  datatype Number = Number(f: real, i: int, isInt: bool)

  predicate InSafeRange(x: real) {
    -(TWO_53 as real) <= x <= TWO_53 as real
  }

  function AsNumber(v: Value): Option<Number> {
    match v
    case Float(x) =>
      if IsIntegral(x) && InSafeRange(x) then Some(Number(x, x.Floor, true)) else Some(Number(x, 0, false))
    case Int(i) => Some(Number(FromInt64(i), i, true))
    case _ => None
  }

  function NumberToInt64(v: Value): Option<int> {
    match v
    case Float(x) => if IsIntegral(x) && InSafeRange(x) then Some(x.Floor) else None
    case Int(i) => Some(i)
    case _ => None
  }

  function NumberToFloat(v: Value): Option<real> {
    match v
    case Float(x) => Some(x)
    case Int(i) => Some(FromInt64(i))
    case _ => None
  }

  /** `compareNumericBound`: true when no out_of_range error is raised. */
  function WithinBound(bound: Value, n: Number, isMax: bool): bool {
    if n.isInt && NumberToInt64(bound).Some? then
      var b := NumberToInt64(bound).value;
      if isMax then n.i <= b else n.i >= b
    else
      match NumberToFloat(bound)
      case None => true
      case Some(b) => if isMax then n.f <= b else n.f >= b
  }

  /** `isJSONNumberKeyword` and `isLosslessNumericConstraint`: bounds `ValidateSchema` accepts. */
  predicate IsAcceptedBound(v: Value) {
    v.Int? || (v.Float? && InSafeRange(v.x))
  }

  /** A number some Go value can hold. */
  ghost predicate IsRepresentable(v: Value) {
    (v.Int? ==> IsInt64(v.i)) && (v.Float? ==> IsDouble(v.x))
  }

  predicate IsNumeric(v: Value) {
    v.Int? || v.Float?
  }

  /** The mathematical value, before any rounding. */
  function ExactValue(v: Value): real
    requires IsNumeric(v)
  {
    match v
    case Int(i) => i as real
    case Float(x) => x
  }

  predicate ExactlyWithin(bound: Value, v: Value, isMax: bool)
    requires IsNumeric(bound) && IsNumeric(v)
  {
    if isMax then ExactValue(v) <= ExactValue(bound) else ExactValue(v) >= ExactValue(bound)
  }

  /** A float beyond the safe range that is what the int64 bound rounds to. */
  predicate HitsRoundedBound(bound: Value, v: Value) {
    v.Float? && !InSafeRange(v.x) && bound.Int? && v.x == FromInt64(bound.i)
  }

  /** The one way a verdict can be wrong: such a float lies beyond the bound itself. */
  predicate PassesBeyondBound(bound: Value, v: Value, isMax: bool) {
    HitsRoundedBound(bound, v) && if isMax then v.x > bound.i as real else v.x < bound.i as real
  }

  lemma FractionAgainstInt(x: real, i: int)
    requires IsDouble(x) && !IsIntegral(x)
    ensures x <= FromInt64(i) <==> x <= i as real
    ensures x >= FromInt64(i) <==> x >= i as real
  {
    FractionsAreSmall(x);
    if i > TWO_53 {
      FromInt64Exact(TWO_53);
      FromInt64Monotone(TWO_53, i);
    } else if i < -TWO_53 {
      FromInt64Exact(-TWO_53);
      FromInt64Monotone(i, -TWO_53);
    } else {
      FromInt64Exact(i);
    }
  }

  lemma HugeFloatAgainstInt(x: real, i: int)
    requires IsDouble(x) && (x != FromInt64(i) || x == i as real)
    ensures x <= FromInt64(i) <==> x <= i as real
    ensures x >= FromInt64(i) <==> x >= i as real
  {
    FromInt64Nearest(i, x);
  }

  /** `minimum`, and `maximum`, is decided as over the mathematical numbers exactly when the value is not a
      float that passes beyond the bound because the bound was rounded. */
  lemma BoundIsExactIff(bound: Value, v: Value, n: Number, isMax: bool)
    requires IsAcceptedBound(bound) && IsRepresentable(bound) && IsRepresentable(v)
    requires AsNumber(v) == Some(n)
    ensures WithinBound(bound, n, isMax) == ExactlyWithin(bound, v, isMax) <==> !PassesBeyondBound(bound, v, isMax)
  {
    if n.isInt && NumberToInt64(bound).None? {
      if v.Int? {
        FractionAgainstInt(bound.x, v.i);
      }
    } else if !n.isInt && bound.Int? && !HitsRoundedBound(bound, v) {
      if IsIntegral(v.x) {
        HugeFloatAgainstInt(v.x, bound.i);
      } else {
        FractionAgainstInt(v.x, bound.i);
      }
    }
  }

  /** The wrong verdict does occur: 2^53+4 passes `maximum: 2^53+3`. */
  lemma HugeFloatCounterexample()
    ensures var bound, v := Int(TWO_53 + 3), Float((TWO_53 + 4) as real);
            && IsAcceptedBound(bound) && IsRepresentable(bound) && IsRepresentable(v)
            && AsNumber(v).Some? && WithinBound(bound, AsNumber(v).value, true)
            && !ExactlyWithin(bound, v, true)
  {
    assert Ulp((TWO_53 + 3) / 2) == 1;
    assert RoundNat(TWO_53 + 3) == TWO_53 + 4;
    FromInt64IsDouble(TWO_53 + 3);
  }
}
