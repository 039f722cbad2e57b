/** The null bitset of a column: one bit a row, least significant bit first. */
module NullBits {
  import opened BigEndian

  predicate Bit(b: nat, j: nat)
    decreases j
  {
    if j == 0 then b % 2 == 1 else Bit(b / 2, j - 1)
  }

  function Pow2(n: nat): (p: nat)
    ensures p > 0
  {
    if n == 0 then 1 else 2 * Pow2(n - 1)
  }

  /** `b | 1 << j` */
  function SetBit(b: nat, j: nat): nat
    decreases j
  {
    if j == 0 then (if b % 2 == 1 then b else b + 1) else 2 * SetBit(b / 2, j - 1) + b % 2
  }

  lemma {:induction false} SetBitSets(b: nat, j: nat, k: nat)
    ensures Bit(SetBit(b, j), k) <==> j == k || Bit(b, k)
    decreases j
  {
    if j > 0 && k > 0 {
      SetBitSets(b / 2, j - 1, k - 1);
    }
  }

  lemma {:induction false} SetBitBound(b: nat, j: nat, n: nat)
    requires b < Pow2(n) && j < n
    ensures SetBit(b, j) < Pow2(n)
    decreases j
  {
    var half, high := Pow2(n - 1), b / 2;
    assert Pow2(n) == 2 * half && b == 2 * high + b % 2 && high < half;
    if j > 0 {
      SetBitBound(high, j - 1, n - 1);
      assert SetBit(b, j) == 2 * SetBit(high, j - 1) + b % 2;
    } else {
      assert SetBit(b, j) == 2 * high + 1;
    }
    hide Pow2;
  }

  lemma {:induction false} ZeroHasNoBits(j: nat)
    ensures !Bit(0, j)
    decreases j
  {
    if j > 0 {
      ZeroHasNoBits(j - 1);
    }
  }

  /** A number of n bits is determined by them. */
  lemma {:induction false} SameBits(a: nat, b: nat, n: nat)
    requires a < Pow2(n) && b < Pow2(n) && forall j: nat | j < n :: Bit(a, j) == Bit(b, j)
    ensures a == b
  {
    if n > 0 {
      forall j: nat | j < n - 1 ensures Bit(a / 2, j) == Bit(b / 2, j) {
        assert Bit(a, j + 1) == Bit(b, j + 1);
      }
      assert Bit(a, 0) == Bit(b, 0);
      SameBits(a / 2, b / 2, n - 1);
    }
  }

  lemma EightBits()
    ensures Pow2(8) == 0x100
  {
    assert Pow2(4) == 16;
  }

  function Bytes(rows: nat): nat { (rows + 7) / 8 }

  /** The bytes hold these flags, and zeros after them. */
  ghost predicate Holds(bytes: seq<byte>, flags: seq<bool>) {
    && |bytes| == Bytes(|flags|)
    && forall k: nat | k < 8 * |bytes| :: Bit(bytes[k / 8], k % 8) <==> k < |flags| && flags[k]
  }

  lemma HoldsUnique(a: seq<byte>, b: seq<byte>, flags: seq<bool>)
    requires Holds(a, flags) && Holds(b, flags)
    ensures a == b
  {
    EightBits();
    forall i | 0 <= i < |a| ensures a[i] == b[i] {
      forall j: nat | j < 8 ensures Bit(a[i], j) == Bit(b[i], j) {
        var k := 8 * i + j;
        assert k / 8 == i && k % 8 == j;
      }
      SameBits(a[i], b[i], 8);
    }
  }

  function ByteOf(flags: seq<bool>): (b: nat)
    ensures b < Pow2(|flags|)
  {
    if flags == [] then 0 else (if flags[0] then 1 else 0) + 2 * ByteOf(flags[1..])
  }

  lemma {:induction false} ByteOfBit(flags: seq<bool>, j: nat)
    ensures Bit(ByteOf(flags), j) <==> j < |flags| && flags[j]
    decreases flags
  {
    if flags == [] {
      ZeroHasNoBits(j);
    } else if j > 0 {
      ByteOfBit(flags[1..], j - 1);
    }
  }

  lemma {:induction false} Pow2Monotone(m: nat, n: nat)
    requires m <= n
    ensures Pow2(m) <= Pow2(n)
  {
    if m < n {
      Pow2Monotone(m, n - 1);
    }
  }

  /** The bitset of a list of flags. */
  function Pack(flags: seq<bool>): (bytes: seq<byte>)
    ensures |bytes| == Bytes(|flags|)
  {
    EightBits();
    if flags == [] then []
    else if |flags| <= 8 then
      Pow2Monotone(|flags|, 8);
      [ByteOf(flags)]
    else [ByteOf(flags[..8])] + Pack(flags[8..])
  }

  lemma {:induction false} PackHolds(flags: seq<bool>)
    ensures Holds(Pack(flags), flags)
    decreases |flags|
  {
    forall k: nat | k < 8 * Bytes(|flags|) ensures Bit(Pack(flags)[k / 8], k % 8) <==> k < |flags| && flags[k] {
      PackBit(flags, k);
    }
  }

  lemma {:induction false} PackBit(flags: seq<bool>, k: nat)
    requires k < 8 * Bytes(|flags|)
    ensures Bit(Pack(flags)[k / 8], k % 8) <==> k < |flags| && flags[k]
    decreases |flags|
  {
    hide ByteOf, Bit;
    if |flags| <= 8 {
      ByteOfBit(flags, k);
    } else if k < 8 {
      ByteOfBit(flags[..8], k);
    } else {
      PackBit(flags[8..], k - 8);
    }
  }
}
