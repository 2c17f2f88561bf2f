/** Fixed-width byte encodings of natural numbers: the big-endian form used by Solidity words,
    `u64` fields and storage keys, and the little-endian form a field element is read from. */
module ByteCodec {

  datatype Option<+T> = None | Some(value: T)

  datatype Result<+T, +E> = Ok(value: T) | Err(error: E)

  const TWO_64: nat := 0x1_0000_0000_0000_0000
  const TWO_160: nat := 0x1_00000000_00000000_00000000_00000000_00000000
  const TWO_248: nat := 0x1_00000000_00000000_00000000_00000000_00000000_00000000_00000000_000000
  const TWO_256: nat := 0x1_00000000_00000000_00000000_00000000_00000000_00000000_00000000_00000000

  type Byte = b: nat | b < 256
  type U64 = n: nat | n < TWO_64
  type Word = n: nat | n < TWO_256

  type Address = s: seq<Byte> | |s| == 20 witness Zeros(20)
  type B256 = s: seq<Byte> | |s| == 32 witness Zeros(32)

  function Zeros(n: nat): (s: seq<Byte>)
    ensures |s| == n
  {
    seq(n, _ => 0)
  }

  function Pow256(n: nat): (p: nat)
    ensures p > 0
  {
    if n == 0 then 1 else 256 * Pow256(n - 1)
  }

  lemma Pow256Widths()
    ensures Pow256(8) == TWO_64
    ensures Pow256(20) == TWO_160
    ensures Pow256(31) == TWO_248
    ensures Pow256(32) == TWO_256
  {
  }

  // ---- big-endian -----------------------------------------------------------------------------

  function BeNat(s: seq<Byte>): (n: nat) {
    if s == [] then 0 else BeNat(s[..|s| - 1]) * 256 + s[|s| - 1]
  }

  function ToBe(n: nat, width: nat): (s: seq<Byte>)
    ensures |s| == width
  {
    if width == 0 then [] else ToBe(n / 256, width - 1) + [n % 256]
  }

  lemma {:induction false} BeNatBound(s: seq<Byte>)
    ensures BeNat(s) < Pow256(|s|)
  {
    if s != [] {
      BeNatBound(s[..|s| - 1]);
    }
  }

  /** Reading back what was written returns every number that fits. */
  lemma {:induction false} BeRoundTrip(n: nat, width: nat)
    requires n < Pow256(width)
    ensures BeNat(ToBe(n, width)) == n
  {
    if width > 0 {
      BeRoundTrip(n / 256, width - 1);
      assert ToBe(n, width)[..width - 1] == ToBe(n / 256, width - 1);
    }
  }

  /** Writing back what was read returns every byte string. */
  lemma {:induction false} BeRoundTripBytes(s: seq<Byte>)
    ensures ToBe(BeNat(s), |s|) == s
  {
    if s != [] {
      var front := s[..|s| - 1];
      BeRoundTripBytes(front);
      assert BeNat(s) / 256 == BeNat(front) && BeNat(s) % 256 == s[|s| - 1];
      assert s == front + [s[|s| - 1]];
    }
  }

  /** Truncating to the width it was read from changes nothing. */
  lemma BeTruncated(s: seq<Byte>, modulus: nat)
    requires modulus == Pow256(|s|)
    ensures ToBe(BeNat(s) % modulus, |s|) == s
  {
    BeNatBound(s);
    SmallRemainder(BeNat(s), modulus);
    BeRoundTripBytes(s);
  }

  lemma SmallRemainder(n: nat, d: nat)
    requires n < d
    ensures n % d == n
  {
  }

  /** A wider encoding keeps the narrower one as its suffix (right alignment). */
  lemma {:induction false} BeSuffix(n: nat, width: nat, pad: nat)
    ensures ToBe(n, pad + width)[pad..] == ToBe(n, width)
  {
    if width > 0 {
      BeSuffix(n / 256, width - 1, pad);
      assert ToBe(n, pad + width) == ToBe(n / 256, pad + (width - 1)) + [n % 256];
    }
  }

  lemma {:induction false} DivByPower(n: nat, k: nat)
    ensures n / 256 / Pow256(k) == n / Pow256(k + 1)
  {
    var p := Pow256(k);
    var m := n / 256;
    var q, r := m / p, m % p;
    assert m == q * p + r;
    assert n == 256 * m + n % 256;
    assert 256 * (q * p + r) == (256 * p) * q + 256 * r;
    DivUnique(n, 256 * p, q, 256 * r + n % 256);
  }

  lemma {:induction false} MulGap(d: nat, a: nat, b: nat)
    requires a < b
    ensures d * a + d <= d * b
    decreases b
  {
    if a + 1 < b {
      MulGap(d, a, b - 1);
    }
  }

  lemma DivUnique(n: nat, d: nat, q: nat, r: nat)
    requires d > 0 && n == d * q + r && r < d
    ensures n / d == q
  {
    var q0, r0 := n / d, n % d;
    assert n == d * q0 + r0;
    if q0 < q {
      MulGap(d, q0, q);
    } else if q0 > q {
      MulGap(d, q, q0);
    }
  }

  lemma {:induction false} BeOfZero(width: nat)
    ensures ToBe(0, width) == Zeros(width)
  {
    if width > 0 {
      BeOfZero(width - 1);
    }
  }

  /** Byte `i` from the left is the digit of that place: the encoding is big-endian. */
  lemma {:induction false} BeDigit(n: nat, width: nat, i: nat)
    requires i < width
    ensures ToBe(n, width)[i] == n / Pow256(width - 1 - i) % 256
    decreases width
  {
    if i < width - 1 {
      BeDigit(n / 256, width - 1, i);
      DivByPower(n, width - 2 - i);
    }
  }

  // ---- little-endian --------------------------------------------------------------------------

  function LeNat(s: seq<Byte>): (n: nat) {
    if s == [] then 0 else s[0] + 256 * LeNat(s[1..])
  }

  function ToLe(n: nat, width: nat): (s: seq<Byte>)
    ensures |s| == width
  {
    if width == 0 then [] else [n % 256] + ToLe(n / 256, width - 1)
  }

  lemma {:induction false} LeNatBound(s: seq<Byte>)
    ensures LeNat(s) < Pow256(|s|)
  {
    if s != [] {
      LeNatBound(s[1..]);
    }
  }

  lemma {:induction false} LeRoundTrip(n: nat, width: nat)
    requires n < Pow256(width)
    ensures LeNat(ToLe(n, width)) == n
  {
    if width > 0 {
      LeRoundTrip(n / 256, width - 1);
      assert ToLe(n, width)[1..] == ToLe(n / 256, width - 1);
    }
  }

  lemma {:induction false} LeRoundTripBytes(s: seq<Byte>)
    ensures ToLe(LeNat(s), |s|) == s
  {
    if s != [] {
      LeRoundTripBytes(s[1..]);
      assert LeNat(s) / 256 == LeNat(s[1..]) && LeNat(s) % 256 == s[0];
    }
  }

  /** High-order zero bytes do not change a little-endian value. */
  lemma {:induction false} LeTrailingZeros(s: seq<Byte>, n: nat)
    ensures LeNat(s + Zeros(n)) == LeNat(s)
  {
    if s != [] {
      LeTrailingZeros(s[1..], n);
      assert (s + Zeros(n))[1..] == s[1..] + Zeros(n);
    } else if n > 0 {
      LeTrailingZeros([], n - 1);
      assert (s + Zeros(n))[1..] == [] + Zeros(n - 1);
    } else {
      assert s + Zeros(n) == [];
    }
  }

  /** Byte `i` from the left is the digit of place `i`: the encoding is little-endian. */
  lemma {:induction false} LeDigit(n: nat, width: nat, i: nat)
    requires i < width
    ensures ToLe(n, width)[i] == n / Pow256(i) % 256
    decreases width
  {
    if i > 0 {
      LeDigit(n / 256, width - 1, i - 1);
      DivByPower(n, i - 1);
    }
  }

  lemma MulAssociates(a: nat, b: nat, c: nat)
    ensures a * (b * c) == (a * b) * c
  {
  }

  /** A little-endian value is its first part plus the rest shifted past it. */
  lemma {:induction false} LeSplit(a: seq<Byte>, b: seq<Byte>)
    ensures LeNat(a + b) == LeNat(a) + Pow256(|a|) * LeNat(b)
  {
    if a == [] {
      assert a + b == b;
    } else {
      var rest := a[1..];
      assert a + b == [a[0]] + (rest + b) && (a + b)[1..] == rest + b;
      LeSplit(rest, b);
      MulAssociates(256, Pow256(|rest|), LeNat(b));
    }
  }

  /** A number that fits in `k` bytes leaves the rest of its little-endian encoding zero. */
  lemma {:induction false} LeHighZeros(n: nat, width: nat, k: nat)
    requires k <= width && n < Pow256(k)
    ensures ToLe(n, width)[k..] == Zeros(width - k)
    decreases width
  {
    if width > 0 {
      if k == 0 {
        LeHighZeros(0, width - 1, 0);
        assert ToLe(0, width - 1)[0..] == ToLe(0, width - 1);
        assert ToLe(0, width) == [0] + Zeros(width - 1);
      } else {
        LeHighZeros(n / 256, width - 1, k - 1);
        assert ToLe(n, width)[k..] == ToLe(n / 256, width - 1)[k - 1..];
      }
    }
  }
}
