/**
 Rust's signed 32-bit integer arithmetic, as far as the fuel calculator uses it.

 Dafny's `/` on `int` is Euclidean (the remainder is never negative), while
 Rust's `/` on `i32` rounds the quotient toward zero. The two agree on
 non-negative dividends and differ on negative ones that are not multiples
 of the divisor. The `i32` range is given as a predicate so that overflow
 can be discussed without building wrap-around into every operation.
 */
module RustInt {

  const I32Min: int := -0x8000_0000
  const I32Max: int := 0x7fff_ffff

  /** True iff `x` is a value of Rust's `i32`. */
  predicate InI32(x: int) {
    I32Min <= x <= I32Max
  }

  /** Rust's `a / d` for a positive divisor: the quotient rounded toward zero.
      For a non-negative dividend it is the largest `q` with `d * q <= a`; for a
      negative one it is the smallest `q` with `a <= d * q`. */
  function TruncDiv(a: int, d: int): (q: int)
    requires d > 0
    ensures a >= 0 ==> 0 <= q && d * q <= a < d * (q + 1)
    ensures a < 0 ==> q <= 0 && d * (q - 1) < a <= d * q
  {
    if a >= 0 then
      EuclideanBounds(a, d);
      a / d
    else
      EuclideanBounds(-a, d);
      -((-a) / d)
  }

  /** The quotient of Dafny's `/` on a non-negative dividend, bracketed. */
  lemma EuclideanBounds(a: int, d: int)
    requires a >= 0 && d > 0
    ensures 0 <= a / d && d * (a / d) <= a < d * (a / d + 1)
  {
    var q, r := a / d, a % d;
    assert a == d * q + r && 0 <= r < d;
    assert d * (q + 1) == d * q + d;
  }

  /** Rounding toward zero and Dafny's Euclidean division agree exactly on the
      non-negative dividends and on the exact multiples of the divisor. */
  lemma TruncDivAgreesWithEuclidean(a: int, d: int)
    requires d > 0
    ensures TruncDiv(a, d) == a / d <==> a >= 0 || a % d == 0
  {
    if a < 0 {
      var q := TruncDiv(a, d);
      if a % d == 0 {
        assert a == d * (a / d) + a % d;
        assert d * (a / d) == a;
        assert d * q == a by {
          assert -a == d * ((-a) / d) + (-a) % d;
          assert (-a) % d == 0 by {
            assert -a == d * (-(a / d));
          }
        }
        assert d * q == d * (a / d);
      } else {
        assert a == d * (a / d) + a % d;
        assert 0 < a % d < d;
        assert d * (a / d) < a;
        assert a / d < q by {
          assert d * (a / d) < d * q;
        }
      }
    }
  }
}
