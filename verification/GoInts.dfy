/** Go's 64-bit `int`: two's-complement wrap-around and division that truncates toward zero. */
module GoInts {

  const TWO_63: int := 0x8000_0000_0000_0000
  const TWO_64: int := 0x1_0000_0000_0000_0000

  predicate IsInt64(x: int) {
    -TWO_63 <= x < TWO_63
  }

  function Wrap(x: int): (r: int)
    ensures IsInt64(r)
    ensures IsInt64(x) ==> r == x
  {
    if IsInt64(x) then x else (x + TWO_63) % TWO_64 - TWO_63
  }

  /** Wrapping moves x by a multiple of 2^64. */
  lemma WrapWitness(x: int) returns (k: int)
    ensures x == Wrap(x) + k * TWO_64
  {
    k := (x + TWO_63) / TWO_64;
    assert x + TWO_63 == k * TWO_64 + (x + TWO_63) % TWO_64;
    if IsInt64(x) { ModUnique(x + TWO_63, 0, x + TWO_63); }
  }

  /** The quotient q of a / b in Go: |q| == |a| div |b|, negative when the signs differ.  The one
      quotient that does not fit, of the least integer and -1, wraps. */
  function TruncDiv(a: int, b: int): (q: int)
    requires b != 0
    ensures IsInt64(q)
    ensures IsInt64(a) && 0 <= a && 0 < b ==> q == a / b
  {
    if 0 <= a && 0 < b then
      QuotientBound(a, b);
      Wrap(a / b)
    else
      Wrap(if (0 <= a) == (0 < b) then Abs(a) / Abs(b) else -(Abs(a) / Abs(b)))
  }

  lemma QuotientBound(a: nat, b: int)
    requires 0 < b
    ensures 0 <= a / b <= a
  {
    if a < b {
      assert a / b == 0;
    } else {
      ProductBound(a / b, b);
    }
  }

  lemma ProductBound(q: nat, b: int)
    requires 0 < b
    ensures q <= q * b
  {
    assert q * b == q + q * (b - 1);
  }

  function Abs(x: int): nat {
    if x < 0 then -x else x
  }

  /** Wrapping is a ring homomorphism: an inner wrap-around never shows in the outer one. */
  lemma WrapSub(a: int, b: int)
    ensures Wrap(Wrap(a) - b) == Wrap(a - b)
  {
    var k := WrapWitness(a);
    WrapShift(Wrap(a) - b, k);
  }

  lemma WrapAdd(a: int, b: int)
    ensures Wrap(Wrap(a) + b) == Wrap(a + b)
  {
    WrapSub(a, -b);
  }

  lemma WrapShift(x: int, k: int)
    ensures Wrap(x + k * TWO_64) == Wrap(x)
  {
    var y := x + TWO_63;
    var q, m := y / TWO_64, y % TWO_64;
    assert y + k * TWO_64 == (q + k) * TWO_64 + m;
    ModUnique(y + k * TWO_64, q + k, m);
    WrapIsMod(x);
    WrapIsMod(x + k * TWO_64);
  }

  lemma WrapIsMod(x: int)
    ensures Wrap(x) == (x + TWO_63) % TWO_64 - TWO_63
  {
    if IsInt64(x) { ModUnique(x + TWO_63, 0, x + TWO_63); }
  }

  lemma ModUnique(y: int, q: int, m: int)
    requires y == q * TWO_64 + m && 0 <= m < TWO_64
    ensures y % TWO_64 == m
  {
    var q', m' := y / TWO_64, y % TWO_64;
    assert y == q' * TWO_64 + m';
    assert (q - q') * TWO_64 == m' - m;
  }

  lemma WrapZero(x: int)
    ensures Wrap(x) == 0 <==> x % TWO_64 == 0
  {
    if Wrap(x) == 0 {
      var k := WrapWitness(x);
      ModUnique(x, k, 0);
    }
    if x % TWO_64 == 0 {
      WrapShift(0, x / TWO_64);
    }
  }
}
