/** Weighted sums over sequences: every counting argument of the project (shards covering a chunk,
    threads holding a reference, permits in flight) is a `Sum` with its own weight function. */
module Sums {

  function Sum<T>(s: seq<T>, w: T -> int): int {
    if s == [] then 0 else Sum(s[..|s| - 1], w) + w(s[|s| - 1])
  }

  lemma {:induction false} SumConcat<T>(a: seq<T>, b: seq<T>, w: T -> int)
    ensures Sum(a + b, w) == Sum(a, w) + Sum(b, w)
  {
    if b == [] {
      assert a + b == a;
    } else {
      assert (a + b)[..|a + b| - 1] == a + b[..|b| - 1];
      SumConcat(a, b[..|b| - 1], w);
    }
  }

  lemma SumPush<T>(s: seq<T>, x: T, w: T -> int)
    ensures Sum(s + [x], w) == Sum(s, w) + w(x)
  {
    assert (s + [x])[..|s|] == s;
  }

  /** Splitting a sum at position i. */
  lemma {:induction false} SumAt<T>(s: seq<T>, i: nat, w: T -> int)
    requires i < |s|
    ensures Sum(s, w) == Sum(s[..i], w) + w(s[i]) + Sum(s[i + 1..], w)
  {
    assert s == s[..i + 1] + s[i + 1..];
    SumConcat(s[..i + 1], s[i + 1..], w);
    assert s[..i + 1] == s[..i] + [s[i]];
    SumPush(s[..i], s[i], w);
  }

  /** Replacing one element changes the sum by the difference of the two weights. */
  lemma SumUpdate<T>(s: seq<T>, i: nat, x: T, w: T -> int)
    requires i < |s|
    ensures Sum(s[i := x], w) == Sum(s, w) - w(s[i]) + w(x)
  {
    SumAt(s, i, w);
    SumAt(s[i := x], i, w);
    assert s[i := x][..i] == s[..i];
    assert s[i := x][i + 1..] == s[i + 1..];
  }

  lemma {:induction false} SumMono<T>(s: seq<T>, v: T -> int, w: T -> int)
    requires forall i :: 0 <= i < |s| ==> v(s[i]) <= w(s[i])
    ensures Sum(s, v) <= Sum(s, w)
  {
    if s != [] {
      SumMono(s[..|s| - 1], v, w);
    }
  }

  lemma {:induction false} SumEqual<T, U>(s: seq<T>, t: seq<U>, v: T -> int, w: U -> int)
    requires |s| == |t|
    requires forall i :: 0 <= i < |s| ==> v(s[i]) == w(t[i])
    ensures Sum(s, v) == Sum(t, w)
  {
    if s != [] {
      SumEqual(s[..|s| - 1], t[..|t| - 1], v, w);
    }
  }

  lemma {:induction false} SumNonNegative<T>(s: seq<T>, w: T -> int)
    requires forall i :: 0 <= i < |s| ==> 0 <= w(s[i])
    ensures 0 <= Sum(s, w)
  {
    if s != [] {
      SumNonNegative(s[..|s| - 1], w);
    }
  }

  lemma {:induction false} SumZero<T>(s: seq<T>, w: T -> int)
    requires forall i :: 0 <= i < |s| ==> w(s[i]) == 0
    ensures Sum(s, w) == 0
  {
    if s != [] {
      SumZero(s[..|s| - 1], w);
    }
  }

  /** A non-negative weight at one position is a lower bound of the sum. */
  lemma SumAtLeast<T>(s: seq<T>, i: nat, w: T -> int)
    requires i < |s|
    requires forall j :: 0 <= j < |s| ==> 0 <= w(s[j])
    ensures w(s[i]) <= Sum(s, w)
  {
    SumAt(s, i, w);
    SumNonNegative(s[..i], w);
    SumNonNegative(s[i + 1..], w);
  }

  /** Two different positions contribute independently. */
  lemma SumAtLeastTwo<T>(s: seq<T>, i: nat, j: nat, w: T -> int)
    requires i < j < |s|
    requires forall j :: 0 <= j < |s| ==> 0 <= w(s[j])
    ensures w(s[i]) + w(s[j]) <= Sum(s, w)
  {
    SumAt(s, j, w);
    SumAtLeast(s[..j], i, w);
    SumNonNegative(s[j + 1..], w);
  }

  /** A positive sum has a position of positive weight. */
  lemma {:induction false} SumPositive<T>(s: seq<T>, w: T -> int) returns (i: nat)
    requires 0 < Sum(s, w)
    ensures i < |s| && 0 < w(s[i])
  {
    if 0 < w(s[|s| - 1]) {
      i := |s| - 1;
    } else {
      i := SumPositive(s[..|s| - 1], w);
    }
  }

  /** Weights of at most one bound the sum by the length. */
  lemma {:induction false} SumAtMostLength<T>(s: seq<T>, w: T -> int)
    requires forall i :: 0 <= i < |s| ==> w(s[i]) <= 1
    ensures Sum(s, w) <= |s|
  {
    if s != [] {
      SumAtMostLength(s[..|s| - 1], w);
    }
  }
}
