/** Exact arithmetic over `real` standing in for the source's `double`
    aggregates: LINQ `Sum`, `Average`, `Min`, `Max` and `Math.Abs`. */
module Numerics {

  function Abs(x: real): (r: real)
    ensures r >= 0.0
    ensures r == x || r == -x
  {
    if x < 0.0 then -x else x
  }

  function Sum(s: seq<real>): real
    decreases |s|
  {
    if |s| == 0 then 0.0 else s[0] + Sum(s[1..])
  }

  /** LINQ `Average`: throws on an empty sequence, hence the precondition. */
  function Mean(s: seq<real>): real
    requires |s| > 0
  {
    Sum(s) / (|s| as real)
  }

  /** LINQ `Min` over a non-empty sequence. */
  function MinOf(s: seq<real>): (r: real)
    requires |s| > 0
    ensures forall i :: 0 <= i < |s| ==> r <= s[i]
    ensures exists i :: 0 <= i < |s| && r == s[i]
    decreases |s|
  {
    if |s| == 1 then s[0]
    else
      var m := MinOf(s[1..]);
      if s[0] <= m then s[0]
      else
        assert exists i :: 1 <= i < |s| && m == s[i] by {
          var j :| 0 <= j < |s[1..]| && m == s[1..][j];
          assert m == s[j + 1];
        }
        m
  }

  /** LINQ `Max` over a non-empty sequence. */
  function MaxOf(s: seq<real>): (r: real)
    requires |s| > 0
    ensures forall i :: 0 <= i < |s| ==> s[i] <= r
    ensures exists i :: 0 <= i < |s| && r == s[i]
    decreases |s|
  {
    if |s| == 1 then s[0]
    else
      var m := MaxOf(s[1..]);
      if m <= s[0] then s[0]
      else
        assert exists i :: 1 <= i < |s| && m == s[i] by {
          var j :| 0 <= j < |s[1..]| && m == s[1..][j];
          assert m == s[j + 1];
        }
        m
  }

  /** Every element of `s` moved by `c`. */
  function Shift(s: seq<real>, c: real): (r: seq<real>)
    ensures |r| == |s|
    ensures forall i :: 0 <= i < |s| ==> r[i] == s[i] + c
  {
    seq(|s|, i requires 0 <= i < |s| => s[i] + c)
  }

  lemma {:induction false} SumShift(s: seq<real>, c: real)
    ensures Sum(Shift(s, c)) == Sum(s) + (|s| as real) * c
    decreases |s|
  {
    if |s| > 0 {
      assert Shift(s, c)[1..] == Shift(s[1..], c);
      SumShift(s[1..], c);
    }
  }

  /** Moving every element by `c` moves the mean by `c`. */
  lemma MeanShift(s: seq<real>, c: real)
    requires |s| > 0
    ensures Mean(Shift(s, c)) == Mean(s) + c
  {
    SumShift(s, c);
    var n := |s| as real;
    assert (Sum(s) + n * c) / n == Sum(s) / n + c;
  }

  lemma {:induction false} SumAtLeast(s: seq<real>, m: real)
    requires forall i :: 0 <= i < |s| ==> m <= s[i]
    ensures (|s| as real) * m <= Sum(s)
    decreases |s|
  {
    if |s| > 0 {
      SumAtLeast(s[1..], m);
    }
  }

  lemma {:induction false} SumAtMost(s: seq<real>, m: real)
    requires forall i :: 0 <= i < |s| ==> s[i] <= m
    ensures Sum(s) <= (|s| as real) * m
    decreases |s|
  {
    if |s| > 0 {
      SumAtMost(s[1..], m);
    }
  }

  /** A lower bound of every element bounds the mean. */
  lemma MeanAtLeast(s: seq<real>, lo: real)
    requires |s| > 0
    requires forall i :: 0 <= i < |s| ==> lo <= s[i]
    ensures lo <= Mean(s)
  {
    SumAtLeast(s, lo);
    var n := |s| as real;
    assert n * lo / n == lo;
  }

  /** An upper bound of every element bounds the mean. */
  lemma MeanAtMost(s: seq<real>, hi: real)
    requires |s| > 0
    requires forall i :: 0 <= i < |s| ==> s[i] <= hi
    ensures Mean(s) <= hi
  {
    SumAtMost(s, hi);
    var n := |s| as real;
    assert n * hi / n == hi;
  }
}
