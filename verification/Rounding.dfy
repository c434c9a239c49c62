/** Integer division, as the page's big integers do it, and what rounding up and down mean. */
module Rounding {
  /** A bigint division: toward zero. */
  function Quotient(a: int, b: int): int
    requires b > 0
  {
    if a >= 0 then a / b else -(-a / b)
  }

  lemma DivisionFits(a: nat, b: nat)
    requires b > 0
    ensures a / b * b <= a < a / b * b + b
  {
  }

  lemma QuotientIsGreatest(a: int, b: nat, n: int)
    requires b > 0 && n > 0
    ensures Quotient(a, b) >= n <==> a >= n * b
  {
    if a >= 0 {
      DivisionFits(a, b);
      if a / b >= n {
        assert a / b * b >= n * b;
      } else {
        assert (a / b + 1) * b <= n * b;
      }
    } else {
      assert n * b > 0;
      DivisionFits(-a, b);
    }
  }

  lemma ProductsFit(a: nat, b: nat, c: nat)
    ensures b <= c ==> a * b <= a * c
  {
    if b <= c {
      assert a * c == a * b + a * (c - b);
    }
  }

  lemma CeilingIsLeast(a: nat, b: nat, n: int)
    requires b > 0
    ensures n >= (a + b - 1) / b <==> n * b >= a
  {
    var ceiling := (a + b - 1) / b;
    DivisionFits(a + b - 1, b);
    if n >= ceiling {
      assert n * b >= ceiling * b;
    } else {
      assert n * b <= (ceiling - 1) * b == ceiling * b - b;
    }
  }

  lemma FloorIsGreatest(a: nat, b: nat, n: nat)
    requires b > 0
    ensures n <= a / b <==> n * b <= a
  {
    DivisionFits(a, b);
    if n <= a / b {
      assert n * b <= a / b * b;
    } else {
      assert n * b >= (a / b + 1) * b;
    }
  }
}
