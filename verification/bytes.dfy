/** Little-endian octets of natural numbers. */
module Bytes {
  type Byte = x: int | 0 <= x < 256

  const TWO16 := 0x1_0000
  const TWO32 := 0x1_0000_0000

  /** The `k` low octets of `n`, lowest first. */
  function Le(n: nat, k: nat): (r: seq<Byte>)
    ensures |r| == k
  {
    if k == 0 then [] else [n % 256] + Le(n / 256, k - 1)
  }

  function FromLe(bytes: seq<Byte>): nat {
    if bytes == [] then 0 else bytes[0] + 256 * FromLe(bytes[1..])
  }

  function Power256(k: nat): (r: nat)
    ensures r > 0
  {
    if k == 0 then 1 else 256 * Power256(k - 1)
  }

  lemma {:induction false} LeReads(n: nat, k: nat)
    requires n < Power256(k)
    ensures FromLe(Le(n, k)) == n
  {
    if k > 0 {
      LeReads(n / 256, k - 1);
      assert Le(n, k)[1..] == Le(n / 256, k - 1);
    }
  }

  lemma {:induction false} FromLeReads(bytes: seq<Byte>)
    ensures FromLe(bytes) < Power256(|bytes|)
    ensures Le(FromLe(bytes), |bytes|) == bytes
  {
    if bytes != [] {
      var b, rest := bytes[0], FromLe(bytes[1..]);
      FromLeReads(bytes[1..]);
      OneOctet(b, rest);
      assert Le(b + 256 * rest, |bytes|) == [b] + Le(rest, |bytes| - 1);
      assert bytes == [b] + bytes[1..];
    }
  }

  lemma {:induction false} OneOctet(b: nat, rest: nat)
    requires b < 256
    ensures (b + 256 * rest) % 256 == b && (b + 256 * rest) / 256 == rest
  {
  }

  /** An octet and a multiple of 256 keep apart. */
  lemma {:induction false} LowHigh(low: nat, m: nat)
    ensures (low + 256 * m) % 256 == low % 256 && (low + 256 * m) / 256 == low / 256 + m
  {
  }

  lemma {:induction false} Powers()
    ensures Power256(2) == TWO16 && Power256(4) == TWO32
    ensures Power256(8) == TWO32 * TWO32
  {
    assert Power256(1) == 256;
    assert Power256(3) == 256 * TWO16;
    assert Power256(5) == 256 * TWO32;
    assert Power256(6) == 256 * Power256(5);
    assert Power256(7) == 256 * Power256(6);
  }

  /** `wire.u16`: only the low 16 bits are written. */
  function U16(n: int): (r: seq<Byte>)
    ensures |r| == 2
  {
    Le(n % TWO16, 2)
  }

  /** `wire.u32`: only the low 32 bits are written. */
  function U32(n: int): (r: seq<Byte>)
    ensures |r| == 4
  {
    Le(n % TWO32, 4)
  }

  lemma {:induction false} U16Reads(n: int)
    ensures FromLe(U16(n)) == n % TWO16
  {
    Powers();
    LeReads(n % TWO16, 2);
  }

  lemma {:induction false} U32Reads(n: int)
    ensures FromLe(U32(n)) == n % TWO32
    ensures FromLe(U32(n)[..2]) == n % TWO16
  {
    Powers();
    LeReads(n % TWO32, 4);
    LowTwo(n);
    U16Reads(n);
  }

  /** The first two octets of four. */
  lemma {:induction false} LowTwo(n: int)
    ensures U32(n)[..2] == U16(n)
  {
    ModOfMod(n);
    LowOctets(n % TWO32);
    TwoOctets(n % TWO32, 2);
    TwoOctets(n % TWO16, 0);
  }

  lemma {:induction false} ModOfMod(n: int)
    ensures (n % TWO32) % TWO16 == n % TWO16
  {
    var q := n / TWO32;
    assert n == q * TWO32 + n % TWO32;
    assert q * TWO32 == (q * TWO16) * TWO16;
  }

  lemma {:induction false} LowOctets(m: nat)
    ensures m % TWO16 % 256 == m % 256
    ensures m % TWO16 / 256 % 256 == m / 256 % 256
  {
    var q, r := m / TWO16, m % TWO16;
    assert m == 256 * (256 * q) + r;
    assert m / 256 == 256 * q + r / 256;
  }

  lemma {:induction false} TwoOctets(m: nat, k: nat)
    ensures |Le(m, k + 2)| == k + 2 && Le(m, k + 2)[..2] == [m % 256, m / 256 % 256]
  {
    assert Le(m, k + 2) == [m % 256] + Le(m / 256, k + 1);
    assert Le(m / 256, k + 1) == [m / 256 % 256] + Le(m / 256 / 256, k);
  }

  function Zeros(n: nat): (r: seq<Byte>)
    ensures |r| == n
  {
    if n == 0 then [] else [0] + Zeros(n - 1)
  }

  function Align(size: nat): (r: nat)
    ensures r % 4 == 0 && size <= r < size + 4
  {
    (size + 3) / 4 * 4
  }
}
