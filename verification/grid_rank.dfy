/** Mixed-radix numerals: a digit vector, most significant digit first, read
    as a natural number. The parameter search visits the points of a grid in
    the order of this rank. */
module GridRank {

  predicate InRange(d: seq<int>, r: seq<int>) {
    |d| == |r| && forall i :: 0 <= i < |d| ==> 0 <= d[i] < r[i]
  }

  /** The value of the first k digits of d in radices r. */
  function Rank(d: seq<int>, r: seq<int>, k: nat): int
    requires k <= |d| && k <= |r|
  {
    if k == 0 then 0 else Rank(d, r, k - 1) * r[k - 1] + d[k - 1]
  }

  /** The number of digit vectors of length k: the product of the radices. */
  function Prod(r: seq<int>, k: nat): int
    requires k <= |r|
  {
    if k == 0 then 1 else Prod(r, k - 1) * r[k - 1]
  }

  lemma {:induction false} RankBounds(d: seq<int>, r: seq<int>, k: nat)
    requires InRange(d, r) && k <= |d|
    ensures 0 <= Rank(d, r, k) < Prod(r, k)
  {
    if k > 0 {
      RankBounds(d, r, k - 1);
      var a, p, x, b := Rank(d, r, k - 1), Prod(r, k - 1), d[k - 1], r[k - 1];
      assert a <= p - 1;
      assert a * b <= (p - 1) * b by {
        MulMono(a, p - 1, b);
      }
      assert 0 <= a * b by {
        MulMono(0, a, b);
      }
    }
  }

  lemma MulMono(a: int, c: int, b: int)
    requires a <= c && b >= 0
    ensures a * b <= c * b
  {
  }

  /** Only digits at or after position k matter beyond the first k: equal
      prefixes give equal partial ranks. */
  lemma {:induction false} RankPrefix(d: seq<int>, e: seq<int>, r: seq<int>, k: nat)
    requires k <= |d| && k <= |e| && k <= |r|
    requires forall i :: 0 <= i < k ==> d[i] == e[i]
    ensures Rank(d, r, k) == Rank(e, r, k)
  {
    if k > 0 {
      RankPrefix(d, e, r, k - 1);
    }
  }

  /** The all-zero vector has rank 0. */
  lemma {:induction false} RankZero(d: seq<int>, r: seq<int>, k: nat)
    requires k <= |d| && k <= |r|
    requires forall i :: 0 <= i < k ==> d[i] == 0
    ensures Rank(d, r, k) == 0
  {
    if k > 0 {
      RankZero(d, r, k - 1);
    }
  }

  /** The vector of maximal digits has the largest rank. */
  lemma {:induction false} RankAllMax(d: seq<int>, r: seq<int>, k: nat)
    requires k <= |d| && k <= |r|
    requires forall i :: 0 <= i < k ==> d[i] == r[i] - 1
    ensures Rank(d, r, k) == Prod(r, k) - 1
  {
    if k > 0 {
      RankAllMax(d, r, k - 1);
      assert Rank(d, r, k) == (Prod(r, k - 1) - 1) * r[k - 1] + r[k - 1] - 1;
    }
  }

  /** Odometer successor: increment the digit at p, given every later digit is
      maximal, and reset the later digits to zero; the rank grows by one. */
  lemma RankSucc(d: seq<int>, e: seq<int>, r: seq<int>, p: nat)
    requires |d| == |e| == |r| && p < |d|
    requires forall i :: 0 <= i < p ==> e[i] == d[i]
    requires e[p] == d[p] + 1
    requires forall i :: p < i < |d| ==> e[i] == 0 && d[i] == r[i] - 1
    ensures Rank(e, r, |d|) == Rank(d, r, |d|) + 1
  {
    RankPrefix(d, e, r, p);
    RankSuccFrom(d, e, r, p, |d|);
  }

  lemma {:induction false} RankSuccFrom(d: seq<int>, e: seq<int>, r: seq<int>, p: nat, k: nat)
    requires |d| == |e| == |r| && p < k <= |d|
    requires Rank(e, r, p) == Rank(d, r, p)
    requires e[p] == d[p] + 1
    requires forall i :: p < i < |d| ==> e[i] == 0 && d[i] == r[i] - 1
    ensures Rank(e, r, k) == Rank(d, r, k) + 1
  {
    if k > p + 1 {
      RankSuccFrom(d, e, r, p, k - 1);
      assert Rank(e, r, k) == (Rank(d, r, k - 1) + 1) * r[k - 1];
    }
  }

  function Pow(b: int, e: nat): int {
    if e == 0 then 1 else b * Pow(b, e - 1)
  }

  /** Distinct digit vectors have distinct ranks: the rank numbers the grid
      without collisions. */
  lemma {:induction false} RankInjective(d: seq<int>, e: seq<int>, r: seq<int>, k: nat)
    requires InRange(d, r) && InRange(e, r) && k <= |d|
    requires Rank(d, r, k) == Rank(e, r, k)
    ensures d[..k] == e[..k]
  {
    if k > 0 {
      DigitSplit(Rank(d, r, k - 1), d[k - 1], Rank(e, r, k - 1), e[k - 1], r[k - 1]);
      RankInjective(d, e, r, k - 1);
      assert d[..k] == d[..k - 1] + [d[k - 1]];
      assert e[..k] == e[..k - 1] + [e[k - 1]];
    }
  }

  /** Quotient and remainder are unique: a*b + x == c*b + y with both
      remainders below b forces equal quotients and remainders. */
  lemma DigitSplit(a: int, x: int, c: int, y: int, b: int)
    requires 0 <= x < b && 0 <= y < b
    requires a * b + x == c * b + y
    ensures a == c && x == y
  {
    if a < c {
      MulMono(a + 1, c, b);
    } else if c < a {
      MulMono(c + 1, a, b);
    }
  }
}
