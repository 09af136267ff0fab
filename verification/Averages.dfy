/** Sums and averages of the values that are given at all. */
module Averages {
  import opened Common

  function Sum(vs: seq<real>): real {
    if vs == [] then 0.0 else Sum(Init(vs)) + Last(vs)
  }

  /** The values that the elements have, in order; an element without one is passed over. */
  function Given<T(!new)>(xs: seq<T>, value: T -> Option<real>): seq<real> {
    if xs == [] then []
    else Given(Init(xs), value) + if value(Last(xs)).Some? then [value(Last(xs)).value] else []
  }

  /** The sum of some values, absent exactly if there are none. */
  predicate IsSum(out: Option<real>, vs: seq<real>) {
    (out.Some? <==> vs != []) && (out.Some? ==> out.value == Sum(vs))
  }

  /** Their mean: as many times as there are values it makes up their sum. */
  predicate IsMean(out: Option<real>, vs: seq<real>) {
    (out.Some? <==> vs != []) && (out.Some? ==> out.value * |vs| as real == Sum(vs))
  }

  lemma {:induction false} SumNext(vs: seq<real>, v: real)
    ensures Sum(vs + [v]) == Sum(vs) + v
  {
    InitOfAppend(vs, v);
  }

  lemma {:induction false} GivenNext<T(!new)>(xs: seq<T>, x: T, value: T -> Option<real>)
    ensures Given(xs + [x], value) == Given(xs, value) + if value(x).Some? then [value(x).value] else []
  {
    InitOfAppend(xs, x);
  }

  lemma {:induction false} SumBetween(vs: seq<real>, lo: real, hi: real, n: real)
    requires n == |vs| as real && forall i :: 0 <= i < |vs| ==> lo <= vs[i] <= hi
    ensures lo * n <= Sum(vs) <= hi * n
  {
    if vs != [] {
      SumBetween(Init(vs), lo, hi, n - 1.0);
      Bounded(lo, hi, n - 1.0, Sum(Init(vs)), Last(vs));
    }
  }

  lemma {:induction false} Bounded(lo: real, hi: real, n: real, sum: real, v: real)
    requires lo * n <= sum <= hi * n && lo <= v <= hi
    ensures lo * (n + 1.0) <= sum + v <= hi * (n + 1.0)
  {
  }

  /** A mean lies between any bounds of its values. */
  lemma {:induction false} MeanBetween(out: Option<real>, vs: seq<real>, lo: real, hi: real)
    requires IsMean(out, vs) && forall v :: v in vs ==> lo <= v <= hi
    ensures out.Some? ==> lo <= out.value <= hi
  {
    hide Sum;
    if out.Some? {
      MeanOfSum(out.value, vs, lo, hi, |vs| as real);
    }
  }

  lemma {:induction false} MeanOfSum(mean: real, vs: seq<real>, lo: real, hi: real, n: real)
    requires n == |vs| as real && vs != [] && mean * n == Sum(vs) && forall v :: v in vs ==> lo <= v <= hi
    ensures lo <= mean <= hi
  {
    hide Sum;
    assert forall i :: 0 <= i < |vs| ==> vs[i] in vs;
    SumBetween(vs, lo, hi, n);
    var low, sum, high := lo * n, Sum(vs), hi * n;
    Cancel(lo, mean, n, low, sum);
    Cancel(mean, hi, n, sum, high);
  }

  lemma {:induction false} Cancel(x: real, y: real, n: real, xn: real, yn: real)
    requires n > 0.0 && xn == x * n && yn == y * n && xn <= yn
    ensures x <= y
  {
    assert (y - x) * n >= 0.0;
  }
}
