/** The price series a back-test runs over: one immutable record per trading
    day, and the sequence of closing prices the indicators and strategies
    read. Only the close is ever consumed by the engine. */
module Series {

  /** One day of OHLCV data, in the order the data file lists it. */
  datatype Bar = Bar(date: string, open: real, high: real, low: real, close: real, volume: real)

  /** The closing prices of a run of bars, position for position. */
  function Closes(days: seq<Bar>): (cs: seq<real>)
    ensures |cs| == |days|
    ensures forall k :: 0 <= k < |days| ==> cs[k] == days[k].close
  {
    seq(|days|, k requires 0 <= k < |days| => days[k].close)
  }

  /** Every close is strictly positive, so dividing cash by a price is defined. */
  predicate PositivePrices(cs: seq<real>)
  {
    forall k :: 0 <= k < |cs| ==> cs[k] > 0.0
  }

  /** Every value of xs is c. */
  predicate Constant(xs: seq<real>, c: real)
  {
    forall k :: 0 <= k < |xs| ==> xs[k] == c
  }

  /** All values of xs are equal to one another. */
  predicate AllEqual(xs: seq<real>)
  {
    forall j, k :: 0 <= j < |xs| && 0 <= k < |xs| ==> xs[j] == xs[k]
  }

  function Min2(a: real, b: real): real { if a <= b then a else b }

  function Max2(a: real, b: real): real { if a >= b then a else b }

  /** Smallest value of a non-empty sequence. */
  function Min(xs: seq<real>): (m: real)
    requires |xs| > 0
    ensures forall k :: 0 <= k < |xs| ==> m <= xs[k]
    ensures exists k :: 0 <= k < |xs| && m == xs[k]
  {
    if |xs| == 1 then xs[0]
    else
      var rest := Min(xs[..|xs| - 1]);
      assert forall k :: 0 <= k < |xs| - 1 ==> xs[..|xs| - 1][k] == xs[k];
      Min2(rest, xs[|xs| - 1])
  }

  /** Largest value of a non-empty sequence. */
  function Max(xs: seq<real>): (m: real)
    requires |xs| > 0
    ensures forall k :: 0 <= k < |xs| ==> xs[k] <= m
    ensures exists k :: 0 <= k < |xs| && m == xs[k]
  {
    if |xs| == 1 then xs[0]
    else
      var rest := Max(xs[..|xs| - 1]);
      assert forall k :: 0 <= k < |xs| - 1 ==> xs[..|xs| - 1][k] == xs[k];
      Max2(rest, xs[|xs| - 1])
  }

  /** Sum of a sequence, accumulated left to right. */
  function Sum(xs: seq<real>): real
  {
    if |xs| == 0 then 0.0 else Sum(xs[..|xs| - 1]) + xs[|xs| - 1]
  }

  /** A sum is squeezed between length times the minimum and length times the maximum. */
  lemma {:induction false} SumBounds(xs: seq<real>, lo: real, hi: real)
    requires forall k :: 0 <= k < |xs| ==> lo <= xs[k] <= hi
    ensures |xs| as real * lo <= Sum(xs) <= |xs| as real * hi
  {
    if |xs| > 0 {
      SumBounds(xs[..|xs| - 1], lo, hi);
    }
  }
}
