/** Small vocabulary shared by every module: optional values, points of the plane,
  * sums over a range of integers, and a fact about multiples. */
module Options {
  datatype Option<+T> = None | Some(value: T)
}

module Plane {
  datatype Point = Point(x: real, y: real)
}

module Sums {
  /** f(lo) + f(lo + 1) + ... + f(hi - 1). */
  function Sum(f: int -> int, lo: int, hi: int): int
    decreases hi - lo
  {
    if hi <= lo then 0 else Sum(f, lo, hi - 1) + f(hi - 1)
  }

  lemma {:induction false} SumSplit(f: int -> int, lo: int, mid: int, hi: int)
    requires lo <= mid <= hi
    ensures Sum(f, lo, hi) == Sum(f, lo, mid) + Sum(f, mid, hi)
    decreases hi - mid
  {
    if mid < hi {
      SumSplit(f, lo, mid, hi - 1);
    }
  }

  lemma {:induction false} SumExt(f: int -> int, g: int -> int, lo: int, hi: int)
    requires forall i :: lo <= i < hi ==> f(i) == g(i)
    ensures Sum(f, lo, hi) == Sum(g, lo, hi)
    decreases hi - lo
  {
    if lo < hi {
      SumExt(f, g, lo, hi - 1);
    }
  }

  lemma {:induction false} SumZero(f: int -> int, lo: int, hi: int)
    requires forall i :: lo <= i < hi ==> f(i) == 0
    ensures Sum(f, lo, hi) == 0
    decreases hi - lo
  {
    if lo < hi {
      SumZero(f, lo, hi - 1);
    }
  }

  lemma {:induction false} SumOnes(f: int -> int, lo: int, hi: int)
    requires lo <= hi
    requires forall i :: lo <= i < hi ==> f(i) == 1
    ensures Sum(f, lo, hi) == hi - lo
    decreases hi - lo
  {
    if lo < hi {
      SumOnes(f, lo, hi - 1);
    }
  }

  lemma {:induction false} SumAdd(f: int -> int, g: int -> int, h: int -> int, lo: int, hi: int)
    requires forall i :: lo <= i < hi ==> h(i) == f(i) + g(i)
    ensures Sum(h, lo, hi) == Sum(f, lo, hi) + Sum(g, lo, hi)
    decreases hi - lo
  {
    if lo < hi {
      SumAdd(f, g, h, lo, hi - 1);
    }
  }

  /** A multiple less than one step from zero is zero. */
  lemma NoWrap(d: int, width: int)
    requires -width < d * width < width
    ensures d == 0
  {
    assert d >= 1 ==> (d - 1) * width >= 0;
    assert d <= -1 ==> (-d - 1) * width >= 0;
  }

  /** A function that vanishes outside one point sums to its value there. */
  lemma SumPoint(f: int -> int, lo: int, hi: int, p: int)
    requires forall i :: lo <= i < hi && i != p ==> f(i) == 0
    ensures Sum(f, lo, hi) == if lo <= p < hi then f(p) else 0
  {
    if lo <= p < hi {
      SumSplit(f, lo, p, hi);
      SumSplit(f, p, p + 1, hi);
      SumZero(f, lo, p);
      SumZero(f, p + 1, hi);
      assert Sum(f, p, p + 1) == Sum(f, p, p) + f(p);
    } else {
      SumZero(f, lo, hi);
    }
  }

  /** A function that vanishes outside [a, b) sums over any larger range to its
    * sum over the overlap. */
  lemma SumClip(f: int -> int, lo: int, hi: int, a: int, b: int)
    requires lo <= a <= b <= hi
    requires forall i :: lo <= i < hi && !(a <= i < b) ==> f(i) == 0
    ensures Sum(f, lo, hi) == Sum(f, a, b)
  {
    SumSplit(f, lo, a, hi);
    SumSplit(f, a, b, hi);
    SumZero(f, lo, a);
    SumZero(f, b, hi);
  }

  /** Termwise bound; equality of the sums forces equality of every term. */
  lemma {:induction false} SumLe(f: int -> int, g: int -> int, lo: int, hi: int)
    requires forall i :: lo <= i < hi ==> f(i) <= g(i)
    ensures Sum(f, lo, hi) <= Sum(g, lo, hi)
    ensures Sum(f, lo, hi) == Sum(g, lo, hi) ==> forall i :: lo <= i < hi ==> f(i) == g(i)
    decreases hi - lo
  {
    if lo < hi {
      SumLe(f, g, lo, hi - 1);
    }
  }

  /** When a + b is at least c termwise, so are the sums. */
  lemma {:induction false} SumCovers(a: int -> int, b: int -> int, c: int -> int, lo: int, hi: int)
    requires forall i :: lo <= i < hi ==> c(i) <= a(i) + b(i)
    ensures Sum(c, lo, hi) <= Sum(a, lo, hi) + Sum(b, lo, hi)
    decreases hi - lo
  {
    if lo < hi {
      SumCovers(a, b, c, lo, hi - 1);
    }
  }

  /** No sum of terms none of which is negative is, and it is zero exactly when
    * every term is. */
  lemma {:induction false} SumNonNegative(f: int -> int, lo: int, hi: int)
    requires forall i :: lo <= i < hi ==> f(i) >= 0
    ensures Sum(f, lo, hi) >= 0
    ensures Sum(f, lo, hi) == 0 <==> forall i :: lo <= i < hi ==> f(i) == 0
    decreases hi - lo
  {
    if lo < hi {
      SumNonNegative(f, lo, hi - 1);
    }
  }

  /** When a + b is at most 2c termwise, so are the sums, with equality exactly
    * when every term is equal. */
  lemma {:induction false} SumDominated(a: int -> int, b: int -> int, c: int -> int, lo: int, hi: int)
    requires forall i :: lo <= i < hi ==> a(i) + b(i) <= 2 * c(i)
    ensures Sum(a, lo, hi) + Sum(b, lo, hi) <= 2 * Sum(c, lo, hi)
    ensures Sum(a, lo, hi) + Sum(b, lo, hi) == 2 * Sum(c, lo, hi) <==>
            forall i :: lo <= i < hi ==> a(i) + b(i) == 2 * c(i)
    decreases hi - lo
  {
    if lo < hi {
      SumDominated(a, b, c, lo, hi - 1);
    }
  }
}
