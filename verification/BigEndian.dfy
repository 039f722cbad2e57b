/** Bytes, fixed-width integers and the big-endian two's complement form both ends of the wire use. */
module BigEndian {
  type byte = b: int | 0 <= b < 0x100
  type int16 = n: int | -0x8000 <= n < 0x8000
  type int32 = n: int | -0x8000_0000 <= n < 0x8000_0000
  type int64 = n: int | -0x8000_0000_0000_0000 <= n < 0x8000_0000_0000_0000

  /** How many different values `width` bytes can hold. */
  function Span(width: nat): (n: int)
    ensures n > 0
  {
    if width == 0 then 1 else 0x100 * Span(width - 1)
  }

  lemma SpanValues()
    ensures Span(2) == 0x1_0000
    ensures Span(4) == 0x1_0000_0000
    ensures Span(8) == 0x1_0000_0000_0000_0000
  {
    assert Span(3) == 0x100_0000;
    assert Span(6) == 0x100 * Span(5) && Span(5) == 0x100 * Span(4);
  }

  /** The low `width` bytes of n, most significant first. */
  function Digits(n: int, width: nat): (bytes: seq<byte>)
    ensures |bytes| == width
    decreases width
  {
    if width == 0 then [] else Digits(n / 0x100, width - 1) + [n % 0x100]
  }

  function Unsigned(bytes: seq<byte>): (n: nat)
    ensures n < Span(|bytes|)
  {
    if bytes == [] then 0
    else 0x100 * Unsigned(bytes[..|bytes| - 1]) + bytes[|bytes| - 1]
  }

  /** The two's complement reading of a byte string. */
  function Signed(bytes: seq<byte>): int {
    var n := Unsigned(bytes);
    if 2 * n < Span(|bytes|) then n else n - Span(|bytes|)
  }

  /** Digits keeps exactly the residue of n: this is what a narrowing `as` cast keeps. */
  lemma {:induction false} UnsignedDigits(n: int, width: nat)
    ensures Unsigned(Digits(n, width)) == n % Span(width)
    decreases width
  {
    if width != 0 {
      var front := Digits(n / 0x100, width - 1);
      assert Digits(n, width)[..width - 1] == front;
      UnsignedDigits(n / 0x100, width - 1);
      SplitResidue(n, Span(width - 1));
    }
  }

  lemma SplitResidue(n: int, m: int)
    requires m > 0
    ensures 0x100 * ((n / 0x100) % m) + n % 0x100 == n % (0x100 * m)
  {
    var q, r := n / 0x100, n % 0x100;
    var k, s := q / m, q % m;
    assert n == (0x100 * m) * k + (0x100 * s + r) by {
      assert q == m * k + s;
      assert 0x100 * (m * k) == (0x100 * m) * k;
    }
    assert 0 <= 0x100 * s + r < 0x100 * m;
    ResidueUnique(n, 0x100 * m, k, 0x100 * s + r);
  }

  lemma ResidueUnique(n: int, m: int, k: int, r: int)
    requires m > 0 && n == m * k + r && 0 <= r < m
    ensures n % m == r
  {
    var d := n / m - k;
    assert m * d == r - n % m by {
      assert n == m * (n / m) + n % m;
      assert m * d == m * (n / m) - m * k;
    }
    assert -m < m * d < m;
    assert d == 0 by {
      Multiples(m, d);
    }
  }

  lemma Multiples(m: int, d: int)
    requires m > 0
    ensures d >= 1 ==> m * d >= m
    ensures d <= -1 ==> m * d <= -m
  {
  }

  /** Reading back what was written, for any integer the width can hold. */
  lemma SignedDigits(n: int, width: nat)
    requires width > 0 && -Span(width) <= 2 * n < Span(width)
    ensures Signed(Digits(n, width)) == n
  {
    UnsignedDigits(n, width);
    var m := Span(width);
    if n >= 0 {
      ResidueUnique(n, m, 0, n);
    } else {
      ResidueUnique(n, m, -1, n + m);
    }
  }

  /** Writing back what was read, whatever multiple of the span was added to it. */
  lemma {:induction false} DigitsUnsigned(bytes: seq<byte>, n: int, k: int)
    requires n == Unsigned(bytes) + k * Span(|bytes|)
    ensures Digits(n, |bytes|) == bytes
  {
    if bytes != [] {
      var front, last := bytes[..|bytes| - 1], bytes[|bytes| - 1];
      var m := Span(|front|);
      assert n == 0x100 * (Unsigned(front) + k * m) + last by {
        assert k * (0x100 * m) == 0x100 * (k * m);
      }
      assert n / 0x100 == Unsigned(front) + k * m && n % 0x100 == last;
      DigitsUnsigned(front, n / 0x100, k);
      assert bytes == front + [last];
    }
  }

  lemma DigitsSigned(bytes: seq<byte>)
    ensures Digits(Signed(bytes), |bytes|) == bytes
  {
    hide Unsigned, Digits;
    var n := Signed(bytes);
    if n >= 0 {
      DigitsUnsigned(bytes, n, 0);
    } else {
      DigitsUnsigned(bytes, n, -1);
    }
  }
}
