/** Finite sums of reals over an integer range, the dense reference against
    which every sparse kernel of the model is stated. */
module Sums {

  /** f(lo) + f(lo+1) + ... + f(hi-1); zero for an empty range. */
  function Sum(lo: int, hi: int, f: int -> real): real
    decreases hi - lo
  {
    if lo >= hi then 0.0 else f(lo) + Sum(lo + 1, hi, f)
  }

  /** Element j of v, or zero outside v (a vector read without a bounds precondition). */
  function At(v: seq<real>, j: int): real
  {
    if 0 <= j < |v| then v[j] else 0.0
  }

  lemma {:induction false} SumExt(lo: int, hi: int, f: int -> real, g: int -> real)
    requires forall k :: lo <= k < hi ==> f(k) == g(k)
    ensures Sum(lo, hi, f) == Sum(lo, hi, g)
    decreases hi - lo
  {
    if lo < hi {
      SumExt(lo + 1, hi, f, g);
    }
  }

  lemma {:induction false} SumAdd(lo: int, hi: int, f: int -> real, g: int -> real, h: int -> real)
    requires forall k :: lo <= k < hi ==> h(k) == f(k) + g(k)
    ensures Sum(lo, hi, h) == Sum(lo, hi, f) + Sum(lo, hi, g)
    decreases hi - lo
  {
    if lo < hi {
      SumAdd(lo + 1, hi, f, g, h);
    }
  }

  lemma {:induction false} SumScale(lo: int, hi: int, f: int -> real, g: int -> real, c: real)
    requires forall k :: lo <= k < hi ==> g(k) == c * f(k)
    ensures Sum(lo, hi, g) == c * Sum(lo, hi, f)
    decreases hi - lo
  {
    if lo < hi {
      SumScale(lo + 1, hi, f, g, c);
    }
  }

  lemma {:induction false} SumZero(lo: int, hi: int, f: int -> real)
    requires forall k :: lo <= k < hi ==> f(k) == 0.0
    ensures Sum(lo, hi, f) == 0.0
    decreases hi - lo
  {
    if lo < hi {
      SumZero(lo + 1, hi, f);
    }
  }

  /** A sum whose terms vanish except possibly at p is the term at p. */
  lemma {:induction false} SumPoint(lo: int, hi: int, f: int -> real, p: int)
    requires forall k :: lo <= k < hi && k != p ==> f(k) == 0.0
    ensures Sum(lo, hi, f) == if lo <= p < hi then f(p) else 0.0
    decreases hi - lo
  {
    if lo < hi {
      SumPoint(lo + 1, hi, f, p);
      if lo != p {
        assert f(lo) == 0.0;
      } else {
        SumZero(lo + 1, hi, f);
      }
    }
  }

  /** Splitting a sum at an interior point. */
  lemma {:induction false} SumSplit(lo: int, mid: int, hi: int, f: int -> real)
    requires lo <= mid <= hi
    ensures Sum(lo, hi, f) == Sum(lo, mid, f) + Sum(mid, hi, f)
    decreases mid - lo
  {
    if lo < mid {
      SumSplit(lo + 1, mid, hi, f);
    }
  }

  /** The order of a double sum does not matter. */
  lemma {:induction false} SumSwap(lo1: int, hi1: int, lo2: int, hi2: int, f: (int, int) -> real)
    ensures Sum(lo1, hi1, i => Sum(lo2, hi2, j => f(i, j)))
         == Sum(lo2, hi2, j => Sum(lo1, hi1, i => f(i, j)))
    decreases hi1 - lo1
  {
    if lo1 < hi1 {
      SumSwap(lo1 + 1, hi1, lo2, hi2, f);
      SumAdd(lo2, hi2, j => f(lo1, j), j => Sum(lo1 + 1, hi1, i => f(i, j)),
             j => Sum(lo1, hi1, i => f(i, j)));
    } else {
      SumZero(lo2, hi2, j => Sum(lo1, hi1, i => f(i, j)));
    }
  }

  /** a(lo)*b(lo) + ... + a(hi-1)*b(hi-1): the dense dot product of two
      vectors given as functions of the index. Every product in the model
      goes through Dot, so that equalities between dot products reduce to
      equalities between their factors. */
  function Dot(lo: int, hi: int, a: int -> real, b: int -> real): real
    decreases hi - lo
  {
    if lo >= hi then 0.0 else a(lo) * b(lo) + Dot(lo + 1, hi, a, b)
  }

  lemma ProdCong(a: real, b: real, c: real, d: real)
    requires a == c && b == d
    ensures a * b == c * d
  {
  }

  lemma Distrib(x: real, y: real, w: real, z: real)
    requires w == x + y
    ensures w * z == x * z + y * z
  {
  }

  lemma {:induction false} DotExt(lo: int, hi: int, a: int -> real, b: int -> real, c: int -> real, d: int -> real)
    requires forall k :: lo <= k < hi ==> a(k) == c(k) && b(k) == d(k)
    ensures Dot(lo, hi, a, b) == Dot(lo, hi, c, d)
    decreases hi - lo
  {
    if lo < hi {
      DotExt(lo + 1, hi, a, b, c, d);
      ProdCong(a(lo), b(lo), c(lo), d(lo));
    }
  }

  lemma {:induction false} DotComm(lo: int, hi: int, a: int -> real, b: int -> real)
    ensures Dot(lo, hi, a, b) == Dot(lo, hi, b, a)
    decreases hi - lo
  {
    if lo < hi {
      DotComm(lo + 1, hi, a, b);
    }
  }

  /** Dot is additive in its first argument. */
  lemma {:induction false} DotAddLeft(lo: int, hi: int, a1: int -> real, a2: int -> real, a: int -> real, b: int -> real)
    requires forall k :: lo <= k < hi ==> a(k) == a1(k) + a2(k)
    ensures Dot(lo, hi, a, b) == Dot(lo, hi, a1, b) + Dot(lo, hi, a2, b)
    decreases hi - lo
  {
    if lo < hi {
      DotAddLeft(lo + 1, hi, a1, a2, a, b);
      Distrib(a1(lo), a2(lo), a(lo), b(lo));
    }
  }

  /** A dot product whose first factor vanishes except possibly at p. */
  lemma {:induction false} DotPoint(lo: int, hi: int, a: int -> real, b: int -> real, p: int)
    requires forall k :: lo <= k < hi && k != p ==> a(k) == 0.0
    ensures Dot(lo, hi, a, b) == if lo <= p < hi then a(p) * b(p) else 0.0
    decreases hi - lo
  {
    if lo < hi {
      DotPoint(lo + 1, hi, a, b, p);
      if lo != p {
        ProdCong(a(lo), b(lo), 0.0, b(lo));
      } else {
        DotZeroLeft(lo + 1, hi, a, b);
      }
    }
  }

  lemma {:induction false} DotZeroLeft(lo: int, hi: int, a: int -> real, b: int -> real)
    requires forall k :: lo <= k < hi ==> a(k) == 0.0
    ensures Dot(lo, hi, a, b) == 0.0
    decreases hi - lo
  {
    if lo < hi {
      DotZeroLeft(lo + 1, hi, a, b);
      ProdCong(a(lo), b(lo), 0.0, b(lo));
    }
  }

  /** Against a vector of ones, a dot product is a plain sum. */
  lemma {:induction false} DotOnes(lo: int, hi: int, a: int -> real, b: int -> real)
    requires forall k :: lo <= k < hi ==> b(k) == 1.0
    ensures Dot(lo, hi, a, b) == Sum(lo, hi, a)
    decreases hi - lo
  {
    if lo < hi {
      DotOnes(lo + 1, hi, a, b);
      ProdCong(a(lo), b(lo), a(lo), 1.0);
    }
  }

  lemma {:induction false} DotZeroRight(lo: int, hi: int, a: int -> real, b: int -> real)
    requires forall k :: lo <= k < hi ==> b(k) == 0.0
    ensures Dot(lo, hi, a, b) == 0.0
    decreases hi - lo
  {
    if lo < hi {
      DotZeroRight(lo + 1, hi, a, b);
      ProdCong(a(lo), b(lo), a(lo), 0.0);
    }
  }

  /** Dot is additive in its second argument. */
  lemma {:induction false} DotAddRight(lo: int, hi: int, a: int -> real, b1: int -> real, b2: int -> real, b: int -> real)
    requires forall k :: lo <= k < hi ==> b(k) == b1(k) + b2(k)
    ensures Dot(lo, hi, a, b) == Dot(lo, hi, a, b1) + Dot(lo, hi, a, b2)
    decreases hi - lo
  {
    if lo < hi {
      DotAddRight(lo + 1, hi, a, b1, b2, b);
      Distrib(b1(lo), b2(lo), b(lo), a(lo));
    }
  }

  /** Summing dot products against the columns of F is the dot product
      against F's row sums. */
  lemma {:induction false} SumOfDots(lo: int, hi: int, lo2: int, hi2: int, a: int -> real, F: (int, int) -> real)
    ensures Sum(lo, hi, j => Dot(lo2, hi2, a, k => F(k, j)))
         == Dot(lo2, hi2, a, k => Sum(lo, hi, j => F(k, j)))
    decreases hi - lo
  {
    if lo < hi {
      SumOfDots(lo + 1, hi, lo2, hi2, a, F);
      DotAddRight(lo2, hi2, a, k => F(k, lo), k => Sum(lo + 1, hi, j => F(k, j)), k => Sum(lo, hi, j => F(k, j)));
    } else {
      DotZeroRight(lo2, hi2, a, k => Sum(lo, hi, j => F(k, j)));
    }
  }
}
