/** Small helper datatypes shared by every module. */
module Wrappers {
  datatype Option<+T> = None | Some(value: T)
}

/**
 * Extended-real arithmetic standing in for the IEEE-754 doubles that pandas
 * and numpy compute with: a value is finite, NaN, or one of the two
 * infinities.  Finite arithmetic is exact (no rounding, no overflow) and
 * zero carries no sign.
 */
module Numeric {

  datatype Num = Fin(v: real) | NaN | PosInf | NegInf

  /** Negation. */
  function Neg(a: Num): Num
  {
    match a
    case Fin(x) => Fin(-x)
    case NaN => NaN
    case PosInf => NegInf
    case NegInf => PosInf
  }

  /** Addition: inf + (-inf) is NaN, an infinity absorbs a finite value. */
  function Add(a: Num, b: Num): Num
  {
    if a.NaN? || b.NaN? then NaN
    else if (a.PosInf? && b.NegInf?) || (a.NegInf? && b.PosInf?) then NaN
    else if a.PosInf? || b.PosInf? then PosInf
    else if a.NegInf? || b.NegInf? then NegInf
    else Fin(a.v + b.v)
  }

  function Sub(a: Num, b: Num): Num
  {
    Add(a, Neg(b))
  }

  function Abs(a: Num): Num
  {
    match a
    case Fin(x) => Fin(if x < 0.0 then -x else x)
    case NaN => NaN
    case _ => PosInf
  }

  /** Sign of a non-NaN value: -1, 0 or 1. */
  function Sign(a: Num): int
    requires !a.NaN?
  {
    match a
    case Fin(x) => if x < 0.0 then -1 else if x == 0.0 then 0 else 1
    case PosInf => 1
    case NegInf => -1
  }

  function Infinity(sign: int): Num
  {
    if sign < 0 then NegInf else PosInf
  }

  /** Multiplication: zero times an infinity is NaN. */
  function Mul(a: Num, b: Num): Num
  {
    if a.NaN? || b.NaN? then NaN
    else if a.Fin? && b.Fin? then Fin(a.v * b.v)
    else if Sign(a) == 0 || Sign(b) == 0 then NaN
    else Infinity(Sign(a) * Sign(b))
  }

  /**
   * Division: inf/inf and 0/0 are NaN, a finite value over an infinity is 0,
   * a non-zero value over zero is an infinity of the dividend's sign.
   */
  function Div(a: Num, b: Num): Num
  {
    if a.NaN? || b.NaN? then NaN
    else if !a.Fin? && !b.Fin? then NaN
    else if a.Fin? && !b.Fin? then Fin(0.0)
    else if b.v == 0.0 then (if Sign(a) == 0 then NaN else Infinity(Sign(a)))
    else if a.Fin? then Fin(a.v / b.v)
    else Infinity(Sign(a) * Sign(b))
  }

  /** Python's `<` on floats: every comparison with NaN is false. */
  predicate Less(a: Num, b: Num)
  {
    match (a, b)
    case (Fin(x), Fin(y)) => x < y
    case (NegInf, Fin(_)) => true
    case (NegInf, PosInf) => true
    case (Fin(_), PosInf) => true
    case _ => false
  }

  /** `pd.isna(x)` followed by `fillna(0)`. */
  function FillNaN(a: Num): Num
  {
    if a.NaN? then Fin(0.0) else a
  }

  /**
   * `np.nan_to_num(x, nan=0.0, posinf=999999, neginf=-999999)`.
   */
  function NanToNum(x: Num): (r: real)
    ensures x.Fin? ==> r == x.v
    ensures x.NaN? ==> r == 0.0
    ensures x.PosInf? ==> r == 999999.0
    ensures x.NegInf? ==> r == -999999.0
  {
    match x
    case Fin(y) => y
    case NaN => 0.0
    case PosInf => 999999.0
    case NegInf => -999999.0
  }

  /** Substituting a number for a value never changes it again: nan_to_num is idempotent. */
  lemma NanToNumIdempotent(x: Num)
    ensures NanToNum(Fin(NanToNum(x))) == NanToNum(x)
    ensures x.Fin? ==> Fin(NanToNum(x)) == x
  {
  }

  /** Less is a strict total order on the values that are not NaN. */
  lemma LessTotal(a: Num, b: Num)
    requires !a.NaN? && !b.NaN?
    ensures Less(a, b) || Less(b, a) || a == b
    ensures !(Less(a, b) && Less(b, a))
  {
  }

  lemma LessTransitive(a: Num, b: Num, c: Num)
    requires Less(a, b) && Less(b, c)
    ensures Less(a, c)
  {
  }

  // ---------------------------------------------------------------------
  // Aggregates over finite columns (pandas `sum`, `mean`, `max`).
  // ---------------------------------------------------------------------

  function Sum(s: seq<real>): real
  {
    if s == [] then 0.0 else Sum(s[..|s| - 1]) + s[|s| - 1]
  }

  function Mean(s: seq<real>): real
    requires |s| > 0
  {
    Sum(s) / (|s| as real)
  }

  /** The largest element; the result is an element and bounds every element. */
  function Max(s: seq<real>): (m: real)
    requires |s| > 0
    ensures m in s
    ensures forall i :: 0 <= i < |s| ==> s[i] <= m
  {
    if |s| == 1 then s[0]
    else
      var m' := Max(s[..|s| - 1]);
      assert forall i :: 0 <= i < |s| - 1 ==> s[..|s| - 1][i] == s[i];
      if s[|s| - 1] > m' then s[|s| - 1] else m'
  }

  lemma {:induction false} SumBounds(s: seq<real>, lo: real, hi: real)
    requires forall i :: 0 <= i < |s| ==> lo <= s[i] <= hi
    ensures (|s| as real) * lo <= Sum(s) <= (|s| as real) * hi
  {
    if s != [] {
      var t := s[..|s| - 1];
      assert forall i :: 0 <= i < |t| ==> t[i] == s[i];
      SumBounds(t, lo, hi);
      assert (|s| as real) * lo == (|t| as real) * lo + lo;
      assert (|s| as real) * hi == (|t| as real) * hi + hi;
    }
  }

  /** A mean lies between any lower and upper bound of its elements. */
  lemma MeanBounds(s: seq<real>, lo: real, hi: real)
    requires |s| > 0
    requires forall i :: 0 <= i < |s| ==> lo <= s[i] <= hi
    ensures lo <= Mean(s) <= hi
  {
    SumBounds(s, lo, hi);
    var n := |s| as real;
    assert Mean(s) * n == Sum(s);
  }

  /** The mean never exceeds the maximum. */
  lemma MeanAtMostMax(s: seq<real>)
    requires |s| > 0
    ensures Mean(s) <= Max(s)
  {
    MeanBounds(s, MinOf(s), Max(s));
  }

  /** The smallest element (helper for MeanAtMostMax). */
  function MinOf(s: seq<real>): (m: real)
    requires |s| > 0
    ensures forall i :: 0 <= i < |s| ==> m <= s[i]
  {
    if |s| == 1 then s[0]
    else
      var m' := MinOf(s[..|s| - 1]);
      assert forall i :: 0 <= i < |s| - 1 ==> s[..|s| - 1][i] == s[i];
      if s[|s| - 1] < m' then s[|s| - 1] else m'
  }
}
