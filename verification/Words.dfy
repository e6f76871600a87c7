/** Machine words of the C program, as integers, with the operators the program applies to them. */
module Words {

  type u8 = x: int | 0 <= x < 0x100
  type u16 = x: int | 0 <= x < 0x1_0000
  type u32 = x: int | 0 <= x < 0x1_0000_0000
  type s16 = x: int | -0x8000 <= x < 0x8000
  type s32 = x: int | -0x8000_0000 <= x < 0x8000_0000

  /** Parts of the program whose invariants are kept folded. */
  datatype Topic = TEXT | BLOCKS | HEAP | LIST | MERGE | PASS | RUN | NODES

  /** Always true.  A definition of the form `forall k :: Look(t, k) ==> P` says just P, but the verifier
      considers P only where `Look` is mentioned for the same topic. */
  ghost predicate Look(topic: Topic, k: int) {
    true
  }

  // ---------- Conversions ----------

  /** The bit pattern of a signed short, as the unsigned short that has the same bits. */
  function ToU16(x: int): u16 {
    x % 0x1_0000
  }

  /** Conversion to a signed short: two's complement wrap-around. */
  function ToS16(x: int): (y: s16) {
    if x % 0x1_0000 < 0x8000 then x % 0x1_0000 else x % 0x1_0000 - 0x1_0000
  }

  function ToS32(x: int): (y: s32) {
    if x % 0x1_0000_0000 < 0x8000_0000 then x % 0x1_0000_0000 else x % 0x1_0000_0000 - 0x1_0000_0000
  }

  // ---------- Bits ----------

  predicate Bit(x: nat, i: nat) {
    if i == 0 then x % 2 == 1 else Bit(x / 2, i - 1)
  }

  function BitValue(b: bool): nat {
    if b then 1 else 0
  }

  /** Bitwise exclusive or, the C operator ^. */
  function Xor(a: nat, b: nat): nat {
    if a == 0 && b == 0 then 0
    else 2 * Xor(a / 2, b / 2) + BitValue((a % 2 == 1) != (b % 2 == 1))
  }

  /** Bitwise inclusive or, the C operator |. */
  function Or(a: nat, b: nat): nat {
    if a == 0 && b == 0 then 0
    else 2 * Or(a / 2, b / 2) + BitValue(a % 2 == 1 || b % 2 == 1)
  }

  lemma {:induction false} XorBit(a: nat, b: nat, i: nat)
    ensures Bit(Xor(a, b), i) == (Bit(a, i) != Bit(b, i))
    decreases i
  {
    if i > 0 {
      XorBit(a / 2, b / 2, i - 1);
    }
  }

  lemma {:induction false} OrBit(a: nat, b: nat, i: nat)
    ensures Bit(Or(a, b), i) == (Bit(a, i) || Bit(b, i))
    decreases i
  {
    if i > 0 {
      OrBit(a / 2, b / 2, i - 1);
    }
  }

  function Pow2(n: nat): (p: nat)
    ensures p > 0
  {
    if n == 0 then 1 else 2 * Pow2(n - 1)
  }

  lemma Pow2Values()
    ensures Pow2(4) == 0x10 && Pow2(8) == 0x100 && Pow2(15) == 0x8000 && Pow2(16) == 0x1_0000
  {
    assert Pow2(4) == 0x10;
    assert Pow2(8) == 0x100;
    assert Pow2(12) == 0x1000;
    assert Pow2(15) == 0x8000;
  }

  lemma {:induction false} XorBound(a: nat, b: nat, n: nat)
    requires a < Pow2(n) && b < Pow2(n)
    ensures Xor(a, b) < Pow2(n)
  {
    if n > 0 {
      XorBound(a / 2, b / 2, n - 1);
    }
  }

  lemma {:induction false} OrBound(a: nat, b: nat, n: nat)
    requires a < Pow2(n) && b < Pow2(n)
    ensures Or(a, b) < Pow2(n)
  {
    if n > 0 {
      OrBound(a / 2, b / 2, n - 1);
    }
  }

  lemma {:induction false} XorInvolutive(a: nat, b: nat)
    ensures Xor(Xor(a, b), b) == a
    decreases a + b
  {
    if a != 0 || b != 0 {
      XorInvolutive(a / 2, b / 2);
    }
  }

  lemma {:induction false} XorCommutes(a: nat, b: nat)
    ensures Xor(a, b) == Xor(b, a)
    decreases a + b
  {
    if a != 0 || b != 0 {
      XorCommutes(a / 2, b / 2);
    }
  }

  lemma XorCancels(a: nat, b: nat, c: nat)
    requires Xor(a, b) == Xor(a, c)
    ensures b == c
  {
    XorCommutes(a, b);
    XorCommutes(a, c);
    XorInvolutive(b, a);
    XorInvolutive(c, a);
  }

  lemma {:induction false} XorZero(a: nat)
    ensures Xor(a, 0) == a
  {
    if a > 0 {
      XorZero(a / 2);
    }
  }

  lemma XorStep(a: nat, b: nat, half: nat)
    requires Xor(a / 2, b / 2) == half
    ensures Xor(a, b) == 2 * half + BitValue((a % 2 == 1) != (b % 2 == 1))
  {
  }

  /** A comma xor-ed with the low bytes of the seeds 0x3415 and 8. */
  lemma CommaXors()
    ensures Xor(0x2c, 0x15) == 0x39 && Xor(0x2c, 0x08) == 0x24
  {
    XorZero(0x01);
    XorStep(0x02, 0x01, 0x01);
    XorStep(0x05, 0x02, 0x03);
    XorStep(0x0b, 0x05, 0x07);
    XorStep(0x16, 0x0a, 0x0e);
    XorStep(0x2c, 0x15, 0x1c);
    XorZero(0x02);
    XorStep(0x05, 0x01, 0x02);
    XorStep(0x0b, 0x02, 0x04);
    XorStep(0x16, 0x04, 0x09);
    XorStep(0x2c, 0x08, 0x12);
  }

  lemma {:induction false} BitBeyond(x: nat, n: nat, i: nat)
    requires x < Pow2(n) && n <= i
    ensures !Bit(x, i)
    decreases i
  {
    if i > 0 {
      if n > 0 {
        BitBeyond(x / 2, n - 1, i - 1);
      } else {
        BitBeyond(0, 0, i - 1);
      }
    }
  }

  /** A word is determined by its bits. */
  lemma {:induction false} SameBits(a: nat, b: nat, n: nat)
    requires a < Pow2(n) && b < Pow2(n)
    requires forall i: nat | i < n :: Bit(a, i) == Bit(b, i)
    ensures a == b
  {
    if n > 0 {
      forall i: nat | i < n - 1
        ensures Bit(a / 2, i) == Bit(b / 2, i)
      {
        assert Bit(a, i + 1) == Bit(b, i + 1);
      }
      SameBits(a / 2, b / 2, n - 1);
      assert Bit(a, 0) == Bit(b, 0);
    }
  }

  lemma {:induction false} PowerBit(n: nat, i: nat)
    ensures Bit(Pow2(n), i) == (i == n)
  {
    if n > 0 && i > 0 {
      PowerBit(n - 1, i - 1);
    } else if n == 0 && i > 0 {
      BitBeyond(1, 1, i);
    }
  }

  /** Multiples of 2^n do not touch the bits below `n`. */
  lemma {:induction false} LowBit(x: nat, q: nat, n: nat, i: nat)
    requires i < n
    ensures Bit(x + Pow2(n) * q, i) == Bit(x, i)
    decreases i
  {
    var t := Pow2(n - 1) * q;
    assert Pow2(n) * q == 2 * t;
    if i > 0 {
      assert (x + 2 * t) / 2 == x / 2 + t;
      LowBit(x / 2, q, n - 1, i - 1);
    }
  }

  lemma LowByteBit(x: nat, i: nat)
    requires i < 8
    ensures Bit(x % 0x100, i) == Bit(x, i)
  {
    Pow2Values();
    LowBit(x % 0x100, x / 0x100, 8, i);
  }

  lemma HighByteBit(x: nat, i: nat)
    ensures Bit(x / 0x100, i) == Bit(x, i + 8)
  {
    HighBit(x, i + 4);
    HighBit(x / 16, i);
  }

  lemma HighBit(x: nat, i: nat)
    ensures Bit(x / 16, i) == Bit(x, i + 4)
  {
    assert Bit(x, i + 4) == Bit(x / 2, i + 3) == Bit(x / 4, i + 2);
    var y := x / 4;
    assert Bit(y, i + 2) == Bit(y / 2, i + 1) == Bit(y / 4, i);
  }

  // ---------- The operators on words of a given width ----------

  function Xor16(a: u16, b: u16): (r: u16)
    ensures r == Xor(a, b)
  {
    Pow2Values();
    XorBound(a, b, 16);
    Xor(a, b)
  }

  function Or16(a: u16, b: u16): (r: u16)
    ensures r == Or(a, b)
  {
    Pow2Values();
    OrBound(a, b, 16);
    Or(a, b)
  }

  function Xor8(a: u8, b: u8): (r: u8)
    ensures r == Xor(a, b)
  {
    Pow2Values();
    XorBound(a, b, 8);
    Xor(a, b)
  }
}
