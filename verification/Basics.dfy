/**
  What several parts share: extremes, the size of a frame, and single samples.
 */
module Basics {

  /** 20 ms at 48 kHz. */
  const FRAME_SAMPLES: nat := 960

  function Min(a: int, b: int): int {
    if a < b then a else b
  }

  function Max(a: int, b: int): int {
    if a < b then b else a
  }

  function Clamp(x: real): (r: real)
    ensures -1.0 <= r <= 1.0
    ensures -1.0 <= x <= 1.0 ==> r == x
  {
    if x < -1.0 then -1.0 else if x > 1.0 then 1.0 else x
  }

  /** `y` is `x` cut to the range of a sample. */
  predicate Cut(x: real, y: real) {
    && (x > 1.0 ==> y == 1.0)
    && (x < -1.0 ==> y == -1.0)
    && (-1.0 <= x <= 1.0 ==> y == x)
  }

  function Distance(x: real, y: real): real {
    if x < y then y - x else x - y
  }

  /** Nothing in [-1, 1] is nearer to a sample than what it is clamped to. */
  lemma ClampIsNearest(x: real, y: real)
    requires -1.0 <= y <= 1.0
    ensures Distance(x, Clamp(x)) <= Distance(x, y) && Cut(x, Clamp(x))
  {
  }

  function Amplified(x: real, gain: real): real {
    x * gain
  }

  // ---------------------------------------------------------------------------
  // Permutations
  // ---------------------------------------------------------------------------

  /** Where a permutation of `a` keeps the last element of `a`. */
  lemma LastIn<T>(a: seq<T>, b: seq<T>) returns (k: nat)
    requires multiset(a) == multiset(b) && a != []
    ensures k < |b| && b[k] == a[|a| - 1]
    ensures multiset(a[..|a| - 1]) == multiset(b[..k] + b[k + 1..])
  {
    var last := a[|a| - 1];
    assert last in multiset(a);
    assert last in b;
    k :| 0 <= k < |b| && b[k] == last;
    TakenOut(a, |a| - 1);
    TakenOut(b, k);
    assert a[..|a| - 1] + a[|a|..] == a[..|a| - 1];
  }

  lemma TakenOut<T>(a: seq<T>, k: nat)
    requires k < |a|
    ensures multiset(a[..k] + a[k + 1..]) == multiset(a) - multiset{a[k]}
  {
    assert a == a[..k] + [a[k]] + a[k + 1..];
    MiddleOut(a[..k], [a[k]], a[k + 1..]);
  }

  lemma SameLength<T>(a: seq<T>, b: seq<T>)
    requires multiset(a) == multiset(b)
    ensures |a| == |b|
  {
    assert |multiset(a)| == |multiset(b)|;
  }

  lemma MiddleOut<T>(p: seq<T>, x: seq<T>, r: seq<T>)
    ensures multiset((p + x) + r) == multiset(p + r) + multiset(x)
  {
  }
}
