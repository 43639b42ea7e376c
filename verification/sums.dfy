/** Sums over sequences, used for the cash and P&L totals of the brokers. */
module Sums {

  /** The sum of `f` over `s`, accumulated left to right like Python's `sum`. */
  function Sum<T>(s: seq<T>, f: T -> real): real
    decreases |s|
  {
    if |s| == 0 then 0.0 else Sum(s[..|s| - 1], f) + f(s[|s| - 1])
  }

  lemma SumAppend<T>(s: seq<T>, x: T, f: T -> real)
    ensures Sum(s + [x], f) == Sum(s, f) + f(x)
  {
    assert (s + [x])[..|s|] == s;
  }

  /** Summing a concatenation is summing the parts. */
  lemma {:induction false} SumConcat<T>(a: seq<T>, b: seq<T>, f: T -> real)
    ensures Sum(a + b, f) == Sum(a, f) + Sum(b, f)
    decreases |b|
  {
    if |b| == 0 {
      assert a + b == a;
    } else {
      var b' := b[..|b| - 1];
      assert a + b == (a + b') + [b[|b| - 1]];
      assert b == b' + [b[|b| - 1]];
      SumAppend(a + b', b[|b| - 1], f);
      SumAppend(b', b[|b| - 1], f);
      SumConcat(a, b', f);
    }
  }

  /** Summing `x` in front of `s`. */
  lemma SumPrepend<T>(x: T, s: seq<T>, f: T -> real)
    ensures Sum([x] + s, f) == f(x) + Sum(s, f)
  {
    SumConcat([x], s, f);
    assert [x] == [] + [x];
    SumAppend([], x, f);
  }

  /** Dropping element `k` lowers the sum by exactly that element's share. */
  lemma SumRemoveAt<T>(s: seq<T>, k: nat, f: T -> real)
    requires k < |s|
    ensures Sum(s[..k] + s[k + 1..], f) == Sum(s, f) - f(s[k])
  {
    assert s == s[..k] + ([s[k]] + s[k + 1..]);
    SumConcat(s[..k], [s[k]] + s[k + 1..], f);
    SumConcat([s[k]], s[k + 1..], f);
    SumConcat(s[..k], s[k + 1..], f);
    assert Sum([s[k]], f) == f(s[k]) by {
      assert [s[k]] == [] + [s[k]];
      SumAppend([], s[k], f);
    }
  }

  /** Replacing element `k` by `x` changes the sum by the difference of their shares. */
  lemma SumReplaceAt<T>(s: seq<T>, k: nat, x: T, f: T -> real)
    requires k < |s|
    ensures Sum(s[k := x], f) == Sum(s, f) - f(s[k]) + f(x)
  {
    var t := s[k := x];
    assert t[..k] == s[..k] && t[k + 1..] == s[k + 1..];
    SumRemoveAt(s, k, f);
    SumRemoveAt(t, k, f);
  }
}
