/** Bytes on the wire: bitwise exclusive or, check values, bit counts and little-endian 16-bit numbers. */
module Bytes {
  datatype Option<+T> = None | Some(value: T)

  type Byte = b: int | 0 <= b < 256

  /** Bitwise exclusive or, binary digit by binary digit. */
  function Xor(a: nat, b: nat): nat
    decreases a + b
  {
    if a == 0 && b == 0 then 0 else 2 * Xor(a / 2, b / 2) + (if a % 2 == b % 2 then 0 else 1)
  }

  function Pow2(k: nat): nat {
    if k == 0 then 1 else 2 * Pow2(k - 1)
  }

  lemma {:induction false} XorBelow(a: nat, b: nat, k: nat)
    requires a < Pow2(k) && b < Pow2(k)
    ensures Xor(a, b) < Pow2(k)
  {
    if k == 0 {
    } else {
      XorBelow(a / 2, b / 2, k - 1);
    }
  }

  function XorByte(a: Byte, b: Byte): Byte {
    XorBelow(a, b, 8);
    assert Pow2(8) == 256;
    Xor(a, b)
  }

  lemma {:induction false} XorAssociative(a: nat, b: nat, c: nat)
    ensures Xor(Xor(a, b), c) == Xor(a, Xor(b, c))
    decreases a + b + c
  {
    if a + b + c > 0 {
      XorAssociative(a / 2, b / 2, c / 2);
      XorDigits(a, b);
      XorDigits(b, c);
      XorDigits(Xor(a, b), c);
      XorDigits(a, Xor(b, c));
    }
  }

  lemma XorDigits(a: nat, b: nat)
    ensures Xor(a, b) / 2 == Xor(a / 2, b / 2) && (Xor(a, b) % 2 == 0 <==> a % 2 == b % 2)
  {
  }

  /** XOR is addition without carry, binary digit by binary digit. */
  lemma {:induction false} XorIsBitwise(a: nat, b: nat, k: nat)
    ensures Digit(Xor(a, b), k) == (Digit(a, k) + Digit(b, k)) % 2
  {
    XorDigits(a, b);
    if k == 0 {
    } else {
      XorIsBitwise(a / 2, b / 2, k - 1);
    }
  }

  /** The k-th binary digit. */
  function Digit(a: nat, k: nat): nat {
    if k == 0 then a % 2 else Digit(a / 2, k - 1)
  }

  lemma {:induction false} XorCommutative(a: nat, b: nat)
    ensures Xor(a, b) == Xor(b, a)
    decreases a + b
  {
    if a + b > 0 {
      XorCommutative(a / 2, b / 2);
    }
  }

  lemma {:induction false} XorZero(a: nat)
    ensures Xor(a, 0) == a
  {
    if a == 0 {
    } else {
      XorZero(a / 2);
    }
  }

  lemma {:induction false} XorIsZeroIffEqual(a: nat, b: nat)
    ensures Xor(a, b) == 0 <==> a == b
    decreases a + b
  {
    if a + b > 0 {
      XorIsZeroIffEqual(a / 2, b / 2);
    }
  }

  /** XORing both pairs is XORing the four in any order. */
  lemma XorInterchange(a: nat, b: nat, c: nat, d: nat)
    ensures Xor(Xor(a, b), Xor(c, d)) == Xor(Xor(a, c), Xor(b, d))
  {
    XorAssociative(a, b, Xor(c, d));
    XorAssociative(b, c, d);
    XorCommutative(b, c);
    XorAssociative(c, b, d);
    XorAssociative(a, c, Xor(b, d));
  }

  /** The check byte of a payload: all its bytes XORed together, starting from 0. */
  function XorAll(s: seq<Byte>): Byte {
    if s == [] then 0 else XorByte(XorAll(s[..|s| - 1]), s[|s| - 1])
  }

  /** The payload a receiver sees when error vector `e` hits the payload `s`. */
  function Disturb(s: seq<Byte>, e: seq<Byte>): (r: seq<Byte>)
    requires |s| == |e|
    ensures |r| == |s|
  {
    seq(|s|, i requires 0 <= i < |s| => XorByte(s[i], e[i]))
  }

  lemma {:induction false} XorAllDisturb(s: seq<Byte>, e: seq<Byte>)
    requires |s| == |e|
    ensures XorAll(Disturb(s, e)) == XorByte(XorAll(s), XorAll(e))
  {
    if s == [] {
    } else {
      var n := |s| - 1;
      XorAllDisturb(s[..n], e[..n]);
      assert Disturb(s, e)[..n] == Disturb(s[..n], e[..n]);
      XorInterchange(XorAll(s[..n]), XorAll(e[..n]), s[n], e[n]);
    }
  }

  lemma {:induction false} XorAllZeroes(s: seq<Byte>)
    requires forall i :: 0 <= i < |s| ==> s[i] == 0
    ensures XorAll(s) == 0
  {
    if s == [] {
    } else {
      XorAllZeroes(s[..|s| - 1]);
    }
  }

  /** Bytes that are all zero but one XOR to that one. */
  lemma {:induction false} XorAllOneNonzero(s: seq<Byte>, k: nat)
    requires k < |s|
    requires forall i :: 0 <= i < |s| && i != k ==> s[i] == 0
    ensures XorAll(s) == s[k]
  {
    var n := |s| - 1;
    if k == n {
      XorAllZeroes(s[..n]);
      XorCommutative(0, s[n]);
      XorZero(s[n]);
    } else {
      XorAllOneNonzero(s[..n], k);
      XorZero(s[k]);
    }
  }

  /** The number of 1 digits of a binary number. */
  function BitCount(a: nat): nat {
    if a == 0 then 0 else BitCount(a / 2) + a % 2
  }

  function TotalBits(s: seq<Byte>): nat {
    if s == [] then 0 else TotalBits(s[..|s| - 1]) + BitCount(s[|s| - 1])
  }

  lemma BitCountStep(a: nat)
    ensures BitCount(a) == BitCount(a / 2) + a % 2
  {
  }

  lemma ParityStep(x: nat, a: nat, b: nat, dx: nat, da: nat, db: nat)
    requires x % 2 == (a + b) % 2
    requires dx < 2 && da < 2 && db < 2 && (dx == 0 <==> da == db)
    ensures (x + dx) % 2 == ((a + da) + (b + db)) % 2
  {
  }

  lemma {:induction false} BitCountOfXor(a: nat, b: nat)
    ensures BitCount(Xor(a, b)) % 2 == (BitCount(a) + BitCount(b)) % 2
    decreases a + b
  {
    if a + b > 0 {
      BitCountOfXor(a / 2, b / 2);
      XorDigits(a, b);
      BitCountStep(Xor(a, b));
      BitCountStep(a);
      BitCountStep(b);
      ParityStep(BitCount(Xor(a, b) / 2), BitCount(a / 2), BitCount(b / 2), Xor(a, b) % 2, a % 2, b % 2);
    }
  }

  lemma AddParity(sum: nat, a: nat, b: nat, c: nat)
    requires sum % 2 == (a + b) % 2 && a % 2 == c % 2
    ensures sum % 2 == (c + b) % 2
  {
  }

  /** XOR keeps the parity of the number of set bits. */
  lemma {:induction false} ParityOfXorAll(s: seq<Byte>)
    ensures BitCount(XorAll(s)) % 2 == TotalBits(s) % 2
  {
    if s == [] {
    } else {
      var rest, last := s[..|s| - 1], s[|s| - 1];
      ParityOfXorAll(rest);
      BitCountOfXor(XorAll(rest), last);
      AddParity(BitCount(XorAll(s)), BitCount(XorAll(rest)), BitCount(last), TotalBits(rest));
    }
  }

  /** The two bytes of a 16-bit number, least significant first. */
  function LittleEndian(n: nat): (r: seq<Byte>)
    requires n < 0x1_0000
    ensures |r| == 2
  {
    [n % 256, n / 256]
  }

  function FromLittleEndian(low: Byte, high: Byte): (n: nat)
    ensures n < 0x1_0000
  {
    low + 256 * high
  }
}
