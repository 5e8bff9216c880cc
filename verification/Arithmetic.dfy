/** The few facts about multiplication and the size of sets that the solver has to be told. */
module Arithmetic {

  lemma SubsetSize<T>(a: set<T>, b: set<T>)
    requires a <= b
    ensures |a| <= |b|
  {
    assert b == a + (b - a);
  }

  lemma {:induction false} MulAtLeast(k: nat, p: int)
    requires k > 0 && p > 0
    ensures k * p >= p
  {
    if k > 1 {
      MulAtLeast(k - 1, p);
      assert k * p == (k - 1) * p + p;
    }
  }

  lemma MulLess(a: int, b: int, p: int)
    requires p > 0
    ensures a < b <==> a * p < b * p
  {
    if a < b {
      MulAtLeast(b - a, p);
      assert b * p == a * p + (b - a) * p;
    } else if b < a {
      MulAtLeast(a - b, p);
      assert a * p == b * p + (a - b) * p;
    }
  }

  lemma AddMod(x: int, y: int)
    requires y > 0
    ensures (x + y) % y == x % y
  {
    var q, r := x / y, x % y;
    assert x + y == (q + 1) * y + r;
    DivModUnique(x + y, y, q + 1, r);
  }

  lemma DivModUnique(x: int, y: int, q: int, r: int)
    requires y > 0 && x == q * y + r && 0 <= r < y
    ensures x / y == q && x % y == r
  {
    var q', r' := x / y, x % y;
    assert x == q' * y + r';
    QuotientBelow(q, r, q', r', y);
    QuotientBelow(q', r', q, r, y);
  }

  lemma QuotientBelow(q: int, r: int, q': int, r': int, y: int)
    requires y > 0 && q * y + r == q' * y + r' && 0 <= r < y && 0 <= r' < y
    ensures q <= q'
  {
    if q > q' {
      MulAtLeast(q - q', y);
      MulSub(q, q', y);
    }
  }

  lemma MulSub(a: int, b: int, y: int)
    ensures (a - b) * y == a * y - b * y
  {
  }

  lemma MulMod(q: int, y: int)
    requires y > 0
    ensures (q * y) % y == 0
  {
    DivModUnique(q * y, y, q, 0);
  }

  /** The least multiple of y that is not below x. */
  function CeilBy(x: int, y: int): (r: int)
    requires y > 0
    ensures x <= r < x + y && r % y == 0
  {
    var q := (x + y - 1) / y;
    MulMod(q, y);
    q * y
  }
}
