/** JavaScript value semantics the pages rely on, stated over exact reals.

  A field read from a stored document or a form is a `Raw` value:
  - `Absent`      the field is missing (`undefined`),
  - `Numeric(v)`  a JavaScript number with value `v`,
  - `NonNumeric`  a truthy value whose numeric conversion is `NaN` (a stray string, say).
  Arithmetic on such values yields a `Num`, which is `NaN` or a finite real.
 */
module Js {

  datatype Option<+T> = None | Some(value: T)

  datatype Result<+R> = Ok(value: R) | Err(message: string)

  datatype Raw = Absent | Numeric(value: real) | NonNumeric

  datatype Num = NaN | Fin(v: real)

  /** JavaScript truthiness of a raw field. */
  predicate Truthy(x: Raw)
  {
    match x
    case Absent => false
    case Numeric(v) => v != 0.0
    case NonNumeric => true
  }

  /** `Number(x)`: the numeric conversion of a raw field. */
  function ToNumber(x: Raw): (n: Num)
    ensures n.Fin? <==> x.Numeric?
  {
    match x
    case Numeric(v) => Fin(v)
    case _ => NaN
  }

  /** `n || 0` on a number: `NaN` (and 0) become 0. */
  function OrZero(n: Num): (r: real)
    ensures n.Fin? ==> r == n.v
    ensures n.NaN? ==> r == 0.0
  {
    match n
    case NaN => 0.0
    case Fin(v) => v
  }

  /** `Number(x) || 0`: the permissive coercion used throughout the pages. */
  function Coerce(x: Raw): (r: real)
    ensures x.Numeric? ==> r == x.value
    ensures !x.Numeric? ==> r == 0.0
  {
    OrZero(ToNumber(x))
  }

  /** `x || d` on a raw field. */
  function RawOr(x: Raw, d: Raw): (r: Raw)
    ensures Truthy(x) ==> r == x
    ensures !Truthy(x) ==> r == d
  {
    if Truthy(x) then x else d
  }

  /** `s || d` on an optional string: a missing or empty string is falsy. */
  function StrOr(s: Option<string>, d: string): (r: string)
    ensures s.Some? && s.value != "" ==> r == s.value
    ensures (s.None? || s.value == "") ==> r == d
  {
    if s.Some? && s.value != "" then s.value else d
  }

  /** `a * b` with NaN propagation. */
  function Mul(a: Num, b: Num): (r: Num)
    ensures r.Fin? <==> a.Fin? && b.Fin?
    ensures r.Fin? ==> r.v == a.v * b.v
  {
    if a.Fin? && b.Fin? then Fin(a.v * b.v) else NaN
  }

  /** `a / d` for a divisor the callers have already checked to be non-zero. */
  function Div(a: Num, d: real): (r: Num)
    requires d != 0.0
    ensures r.Fin? <==> a.Fin?
    ensures r.Fin? ==> r.v * d == a.v
  {
    if a.Fin? then Fin(a.v / d) else NaN
  }

  /** `xs.reduce((s, x) => s + x, 0)`: a NaN anywhere makes the total NaN. */
  function Total(xs: seq<Num>): (r: Num)
    ensures r.Fin? <==> forall i :: 0 <= i < |xs| ==> xs[i].Fin?
  {
    if |xs| == 0 then Fin(0.0)
    else
      var rest := Total(xs[1..]);
      assert forall i :: 1 <= i < |xs| ==> xs[i] == xs[1..][i - 1];
      if xs[0].Fin? && rest.Fin? then Fin(xs[0].v + rest.v) else NaN
  }

  /** Plain sum of reals, the reference the totals are compared against. */
  function Sum(xs: seq<real>): real
  {
    if |xs| == 0 then 0.0 else xs[0] + Sum(xs[1..])
  }

  lemma {:induction false} SumAppend(a: seq<real>, b: seq<real>)
    ensures Sum(a + b) == Sum(a) + Sum(b)
  {
    if |a| == 0 {
      assert a + b == b;
    } else {
      assert (a + b)[1..] == a[1..] + b;
      SumAppend(a[1..], b);
    }
  }

  /** `xs.reduce((s, x) => s + (Number(x) || 0), 0)`: a left fold over the coerced values. */
  function SumCoerced(xs: seq<Raw>): real
  {
    if |xs| == 0 then 0.0 else SumCoerced(xs[..|xs| - 1]) + Coerce(xs[|xs| - 1])
  }

  function CoerceAll(xs: seq<Raw>): (ys: seq<real>)
    ensures |ys| == |xs|
    ensures forall i :: 0 <= i < |xs| ==> ys[i] == Coerce(xs[i])
  {
    if |xs| == 0 then [] else [Coerce(xs[0])] + CoerceAll(xs[1..])
  }

  /** The left fold used by the pages equals the plain sum of the coerced values:
      missing and non-numeric entries count as 0. */
  lemma {:induction false} SumCoercedIsSum(xs: seq<Raw>)
    ensures SumCoerced(xs) == Sum(CoerceAll(xs))
  {
    if |xs| > 0 {
      var n := |xs| - 1;
      SumCoercedIsSum(xs[..n]);
      var front := CoerceAll(xs[..n]);
      var last := [Coerce(xs[n])];
      var ys := CoerceAll(xs);
      forall k | 0 <= k < |xs| ensures ys[k] == (front + last)[k] {
        if k < n {
          assert xs[..n][k] == xs[k];
          assert (front + last)[k] == front[k];
        } else {
          assert (front + last)[k] == last[0];
        }
      }
      assert ys == front + last;
      assert last[1..] == [];
      SumAppend(front, last);
    }
  }

  /** The total of a concatenation is the sum of the totals. */
  lemma {:induction false} SumCoercedAppend(a: seq<Raw>, b: seq<Raw>)
    ensures SumCoerced(a + b) == SumCoerced(a) + SumCoerced(b)
  {
    if |b| == 0 {
      assert a + b == a;
    } else {
      var n := |b| - 1;
      assert (a + b)[..|a + b| - 1] == a + b[..n];
      assert (a + b)[|a + b| - 1] == b[n];
      SumCoercedAppend(a, b[..n]);
    }
  }

  /** Replacing one entry moves the total by the change in that entry's coerced value. */
  lemma SumCoercedReplace(xs: seq<Raw>, i: nat, v: Raw)
    requires i < |xs|
    ensures SumCoerced(xs[i := v]) == SumCoerced(xs) - Coerce(xs[i]) + Coerce(v)
  {
    var a := xs[..i];
    var b := xs[i + 1..];
    assert xs == a + [xs[i]] + b;
    assert xs[i := v] == a + [v] + b;
    SumCoercedAppend(a + [xs[i]], b);
    SumCoercedAppend(a, [xs[i]]);
    SumCoercedAppend(a + [v], b);
    SumCoercedAppend(a, [v]);
    assert [xs[i]][..0] == [] && [v][..0] == [];
  }

  /** Percent amounts add: v·p/100 + v·s/100 = v·(p+s)/100. */
  lemma AmountAdd(v: real, p: real, s: real)
    ensures v * p / 100.0 + v * s / 100.0 == v * (p + s) / 100.0
  {
  }
}
