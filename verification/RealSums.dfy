/** Finite sums of real-valued functions of an integer index. */
module RealSums {

  /** The sum of f over lo <= i < hi. */
  function Sum(f: int -> real, lo: int, hi: int): real
    decreases hi - lo
  {
    if hi <= lo then 0.0 else Sum(f, lo, hi - 1) + f(hi - 1)
  }

  lemma {:induction false} SumLinear(f: int -> real, a: real, g: int -> real, h: int -> real, lo: int, hi: int)
    requires forall i | lo <= i < hi :: h(i) == f(i) + a * g(i)
    ensures Sum(h, lo, hi) == Sum(f, lo, hi) + a * Sum(g, lo, hi)
    decreases hi - lo
  {
    if lo < hi {
      SumLinear(f, a, g, h, lo, hi - 1);
      assert a * Sum(g, lo, hi) == a * Sum(g, lo, hi - 1) + a * g(hi - 1);
    }
  }

  lemma {:induction false} SumZero(f: int -> real, lo: int, hi: int)
    requires forall i | lo <= i < hi :: f(i) == 0.0
    ensures Sum(f, lo, hi) == 0.0
    decreases hi - lo
  {
    if lo < hi {
      SumZero(f, lo, hi - 1);
    }
  }

  lemma {:induction false} SumSplit(f: int -> real, lo: int, mid: int, hi: int)
    requires lo <= mid <= hi
    ensures Sum(f, lo, hi) == Sum(f, lo, mid) + Sum(f, mid, hi)
    decreases hi - mid
  {
    if mid < hi {
      SumSplit(f, lo, mid, hi - 1);
    }
  }

  /** A function that vanishes outside [a, b) has the same sum over any larger range. */
  lemma SumTrim(f: int -> real, lo: int, a: int, b: int, hi: int)
    requires lo <= a <= b <= hi
    requires forall i | lo <= i < hi && !(a <= i < b) :: f(i) == 0.0
    ensures Sum(f, lo, hi) == Sum(f, a, b)
  {
    SumSplit(f, lo, a, hi);
    SumSplit(f, a, b, hi);
    SumZero(f, lo, a);
    SumZero(f, b, hi);
  }

  lemma {:induction false} SumShift(f: int -> real, g: int -> real, d: int, lo: int, hi: int)
    requires forall i | lo <= i < hi :: g(i) == f(i - d)
    ensures Sum(g, lo, hi) == Sum(f, lo - d, hi - d)
    decreases hi - lo
  {
    if lo < hi {
      SumShift(f, g, d, lo, hi - 1);
    }
  }

  lemma {:induction false} SumNonNegative(f: int -> real, lo: int, hi: int)
    requires forall i | lo <= i < hi :: f(i) >= 0.0
    ensures Sum(f, lo, hi) >= 0.0
    ensures forall i | lo <= i < hi :: Sum(f, lo, hi) >= f(i)
    decreases hi - lo
  {
    if lo < hi {
      SumNonNegative(f, lo, hi - 1);
    }
  }

  lemma SumEmpty(f: int -> real, lo: int)
    ensures Sum(f, lo, lo) == 0.0
  {
  }

  lemma SumFirst(f: int -> real, lo: int, hi: int)
    requires lo < hi
    ensures Sum(f, lo, hi) == f(lo) + Sum(f, lo + 1, hi)
  {
    SumSplit(f, lo, lo + 1, hi);
    SumEmpty(f, lo);
  }
}
