/** The 16-bit cyclic redundancy code of core_util.c. */
module Crc {
  import opened Words

  // ---------- The code ----------

  /** One pass of the byte loop's body: `x16` is the data bit xor-ed with the bit shifted out. */
  function Turn(x16: bool, crc: u16): (r: u16) {
    if x16 then Or16(Xor16(crc, 0x4002) / 2, 0x8000) else crc / 2 % 0x8000
  }

  function Turns(n: nat, data: u8, crc: u16): (r: u16) {
    if n == 0 then crc
    else Turns(n - 1, data / 2, Turn(Xor(data % 2, crc % 2) == 1, crc))
  }

  function CrcByte(data: u8, crc: u16): (r: u16) {
    Turns(8, data, crc)
  }

  function CrcWord(newval: u16, crc: u16): (r: u16) {
    CrcByte(newval / 0x100, CrcByte(newval % 0x100, crc))
  }

  function CrcDouble(newval: u32, crc: u16): (r: u16) {
    CrcWord(newval / 0x1_0000, CrcWord(newval % 0x1_0000, crc))
  }

  /** The code of a message of 16-bit words, as chained by every caller in the program. */
  function CrcWords(ws: seq<u16>, crc: u16): (r: u16) {
    if ws == [] then crc else CrcWords(ws[1..], CrcWord(ws[0], crc))
  }

  method Crcu8(data: u8, crc: u16) returns (r: u16)
    ensures r == CrcByte(data, crc)
  {
    var d: u8 := data;
    r := crc;
    for i := 0 to 8
      invariant CrcByte(data, crc) == Turns(8 - i, d, r)
    {
      var x16 := Xor(d % 2, r % 2);
      d := d / 2;
      var carry := x16 == 1;
      if x16 == 1 {
        r := Xor16(r, 0x4002);
      }
      r := r / 2;
      if carry {
        r := Or16(r, 0x8000);
      } else {
        r := r % 0x8000;
      }
    }
  }

  method Crcu16(newval: u16, crc: u16) returns (r: u16)
    ensures r == CrcWord(newval, crc)
  {
    r := Crcu8(newval % 0x100, crc);
    r := Crcu8(newval / 0x100, r);
  }

  method Crcu32(newval: u32, crc: u16) returns (r: u16)
    ensures r == CrcDouble(newval, crc)
  {
    r := Crcu16(newval % 0x1_0000, crc);
    r := Crcu16(newval / 0x1_0000, r);
  }

  // ---------- Polynomials over GF(2) ----------

  /** A polynomial as its coefficients, highest degree first. */
  type Poly = seq<bool>

  function Zeros(n: nat): (p: Poly)
    ensures |p| == n
  {
    seq(n, _ => false)
  }

  function Add(p: Poly, q: Poly): (r: Poly)
    requires |p| == |q|
    ensures |r| == |p|
  {
    seq(|p|, i requires 0 <= i < |p| => p[i] != q[i])
  }

  /** x^16 + x^15 + x^2 + 1 */
  function Generator(): (g: Poly)
    ensures |g| == 17
  {
    seq(17, i => i == 0 || i == 1 || i == 14 || i == 16)
  }

  function TimesGenerator(q: Poly): (p: Poly)
    ensures |p| == |q| + 16
  {
    if q == [] then Zeros(16)
    else
      var shifted := TimesGenerator(q[..|q| - 1]) + [false];
      if q[|q| - 1] then Add(shifted, Zeros(|q| - 1) + Generator()) else shifted
  }

  /** `p` is `q` times the generator plus the remainder `r`, of degree below 16. */
  ghost predicate Division(p: Poly, q: Poly, r: Poly) {
    |r| == 16 && |p| == |q| + 16 && p == Add(TimesGenerator(q), Zeros(|q|) + r)
  }

  /** The `n` lowest bits of a word in the order the code takes them in: bit 0 first. */
  function Bits(n: nat, x: nat): (p: Poly)
    ensures |p| == n
  {
    seq(n, i requires 0 <= i < n => Bit(x, i))
  }

  /** The bits of a message of words, in the order the code takes them in. */
  function Message(ws: seq<u16>): (p: Poly)
    ensures |p| == 16 * |ws|
  {
    if ws == [] then [] else Bits(16, ws[0]) + Message(ws[1..])
  }

  /** A message times x^16, plus the initial register in front of it. */
  function Dividend(message: Poly, initial: Poly): (p: Poly)
    requires |initial| == 16
    ensures |p| == |message| + 16
  {
    Add(message + Zeros(16), initial + Zeros(|message|))
  }

  // ---------- The register as a remainder ----------

  /** Take one bit into a remainder: multiply by x, add the bit at x^16, reduce. */
  function Feed(bit: bool, r: Poly): (r': Poly)
    requires |r| == 16
    ensures |r'| == 16
  {
    var shifted := r[1..] + [false];
    if bit != r[0] then Add(shifted, Generator()[1..]) else shifted
  }

  function FeedAll(bits: Poly, r: Poly): (r': Poly)
    requires |r| == 16
    ensures |r'| == 16
  {
    if bits == [] then r else Feed(bits[|bits| - 1], FeedAll(bits[..|bits| - 1], r))
  }

  lemma TapBits(i: nat)
    ensures Bit(0x4002, i) == (i == 1 || i == 14)
  {
    if i >= 2 {
      assert Bit(0x4002, i) == Bit(0x2001, i - 1) == Bit(0x1000, i - 2);
      assert Pow2(12) == 0x1000 by { Pow2Values(); assert Pow2(15) == 8 * Pow2(12); }
      PowerBit(12, i - 2);
    }
  }

  lemma TopBit(i: nat)
    ensures Bit(0x8000, i) == (i == 15)
  {
    Pow2Values();
    PowerBit(15, i);
  }

  lemma TurnBit(x16: bool, r: u16, i: nat)
    requires i < 16
    ensures i == 15 ==> Bit(Turn(x16, r), i) == x16
    ensures i < 15 ==> Bit(Turn(x16, r), i) == (Bit(r, i + 1) != (x16 && (i == 0 || i == 13)))
  {
    if x16 {
      TurnTappedBit(r, i);
    } else {
      assert Turn(x16, r) == r / 2;
      if i == 15 {
        Pow2Values();
        BitBeyond(r / 2, 15, 15);
      }
    }
  }

  lemma TurnTappedBit(r: u16, i: nat)
    requires i < 16
    ensures i == 15 ==> Bit(Turn(true, r), i)
    ensures i < 15 ==> Bit(Turn(true, r), i) == (Bit(r, i + 1) != (i == 0 || i == 13))
  {
    var x := Xor16(r, 0x4002);
    OrBit(x / 2, 0x8000, i);
    TopBit(i);
    assert Bit(x / 2, i) == Bit(x, i + 1);
    XorBit(r, 0x4002, i + 1);
    TapBits(i + 1);
  }

  lemma TurnIsFeed(bit: bool, r: u16)
    ensures Bits(16, Turn(bit != Bit(r, 0), r)) == Feed(bit, Bits(16, r))
  {
    var x16, p := bit != Bit(r, 0), Bits(16, r);
    forall i | 0 <= i < 16
      ensures Bit(Turn(x16, r), i) == Feed(bit, p)[i]
    {
      TurnBit(x16, r, i);
    }
  }

  lemma {:induction false} FeedAllSplit(a: Poly, b: Poly, r: Poly)
    requires |r| == 16
    ensures FeedAll(a + b, r) == FeedAll(b, FeedAll(a, r))
  {
    if b == [] {
      assert a + b == a;
    } else {
      assert (a + b)[..|a + b| - 1] == a + b[..|b| - 1];
      FeedAllSplit(a, b[..|b| - 1], r);
    }
  }

  lemma FeedAllFirst(bits: Poly, r: Poly)
    requires |r| == 16 && bits != []
    ensures FeedAll(bits, r) == FeedAll(bits[1..], Feed(bits[0], r))
  {
    assert bits == bits[..1] + bits[1..];
    FeedAllSplit(bits[..1], bits[1..], r);
    assert FeedAll(bits[..1], r) == Feed(bits[0], FeedAll([], r));
  }

  lemma {:induction false} TurnsAreFeeds(n: nat, data: u8, crc: u16)
    ensures Bits(16, Turns(n, data, crc)) == FeedAll(Bits(n, data), Bits(16, crc))
  {
    if n > 0 {
      var next := Turn(Xor(data % 2, crc % 2) == 1, crc);
      FirstTurn(data, crc, next);
      BitsFirst(n, data, Bits(16, crc));
      TurnsAreFeeds(n - 1, data / 2, next);
    }
  }

  lemma FirstTurn(data: u8, crc: u16, next: u16)
    requires next == Turn(Xor(data % 2, crc % 2) == 1, crc)
    ensures Bits(16, next) == Feed(Bit(data, 0), Bits(16, crc))
  {
    XorBit(data % 2, crc % 2, 0);
    Pow2Values();
    XorBound(data % 2, crc % 2, 1);
    TurnIsFeed(Bit(data, 0), crc);
  }

  lemma BitsFirst(n: nat, data: nat, r: Poly)
    requires n > 0 && |r| == 16
    ensures FeedAll(Bits(n, data), r) == FeedAll(Bits(n - 1, data / 2), Feed(Bit(data, 0), r))
  {
    var bits := Bits(n, data);
    assert bits[1..] == Bits(n - 1, data / 2);
    FeedAllFirst(bits, r);
  }

  lemma WordBits(v: u16)
    ensures Bits(8, v % 0x100) + Bits(8, v / 0x100) == Bits(16, v)
  {
    Pow2Values();
    forall i | 0 <= i < 8
      ensures Bit(v % 0x100, i) == Bit(v, i) && Bit(v / 0x100, i) == Bit(v, i + 8)
    {
      LowByteBit(v, i);
      HighByteBit(v, i);
    }
  }

  lemma WordIsFeeds(v: u16, crc: u16)
    ensures Bits(16, CrcWord(v, crc)) == FeedAll(Bits(16, v), Bits(16, crc))
  {
    TurnsAreFeeds(8, v % 0x100, crc);
    TurnsAreFeeds(8, v / 0x100, CrcByte(v % 0x100, crc));
    WordBits(v);
    FeedAllSplit(Bits(8, v % 0x100), Bits(8, v / 0x100), Bits(16, crc));
  }

  lemma {:induction false} WordsAreFeeds(ws: seq<u16>, crc: u16)
    ensures Bits(16, CrcWords(ws, crc)) == FeedAll(Message(ws), Bits(16, crc))
  {
    if ws != [] {
      WordIsFeeds(ws[0], crc);
      WordsAreFeeds(ws[1..], CrcWord(ws[0], crc));
      FeedAllSplit(Bits(16, ws[0]), Message(ws[1..]), Bits(16, crc));
    }
  }

  lemma SameWord(a: u16, b: u16)
    requires Bits(16, a) == Bits(16, b)
    ensures a == b
  {
    Pow2Values();
    forall i: nat | i < 16
      ensures Bit(a, i) == Bit(b, i)
    {
      assert Bits(16, a)[i] == Bits(16, b)[i];
    }
    SameBits(a, b, 16);
  }

  // ---------- Division ----------

  lemma DivisionStep(p: Poly, q: Poly, r: Poly, b: bool)
    requires Division(p, q, r)
    ensures Division(Add(p + [false], Zeros(|q|) + [b] + Zeros(16)), q + [b != r[0]], Feed(b, r))
  {
    var n, q', r' := |q|, q + [b != r[0]], Feed(b, r);
    var p' := Add(p + [false], Zeros(n) + [b] + Zeros(16));
    assert q'[..n] == q;
    var s := Add(TimesGenerator(q'), Zeros(n + 1) + r');
    forall k | 0 <= k < n + 17
      ensures p'[k] == s[k]
    {
      if k < n + 16 {
        assert p[k] == (TimesGenerator(q)[k] != (Zeros(n) + r)[k]);
      }
    }
  }

  lemma DividendStep(bits: Poly, b: bool, r: Poly)
    requires |r| == 16
    ensures Dividend(bits + [b], r) == Add(Dividend(bits, r) + [false], Zeros(|bits|) + [b] + Zeros(16))
  {
  }

  lemma {:induction false} FeedAllDivides(bits: Poly, r: Poly) returns (q: Poly)
    requires |r| == 16
    ensures Division(Dividend(bits, r), q, FeedAll(bits, r))
  {
    if bits == [] {
      q := [];
      assert Dividend(bits, r) == r;
      assert Add(TimesGenerator(q), Zeros(0) + r) == r;
    } else {
      var init, b := bits[..|bits| - 1], bits[|bits| - 1];
      assert bits == init + [b];
      q := FeedAllDivides(init, r);
      DivisionStep(Dividend(init, r), q, FeedAll(init, r), b);
      DividendStep(init, b, r);
      q := q + [b != FeedAll(init, r)[0]];
    }
  }

  function Leading(b: bool, n: nat): (p: Poly)
    ensures |p| == n + 17
  {
    if b then Generator() + Zeros(n) else Zeros(n + 17)
  }

  /** Long division can also be read from the leading coefficient. */
  lemma {:induction false} TimesGeneratorFirst(b: bool, q: Poly)
    ensures TimesGenerator([b] + q) == Add(Leading(b, |q|), [false] + TimesGenerator(q))
  {
    var bq := [b] + q;
    if q == [] {
      assert bq[..0] == [];
      assert TimesGenerator([]) == Zeros(16);
    } else {
      var init, n := q[..|q| - 1], |q| - 1;
      assert bq[..|bq| - 1] == [b] + init;
      TimesGeneratorFirst(b, init);
      TimesGeneratorLast(q);
      TimesGeneratorLast(bq);
      forall k | 0 <= k < n + 18
        ensures TimesGenerator(bq)[k] == (Leading(b, n + 1)[k] != ([false] + TimesGenerator(q))[k])
      {
        if k < n + 17 {
          assert TimesGenerator([b] + init)[k] == (Leading(b, n)[k] != ([false] + TimesGenerator(init))[k]);
        }
      }
    }
  }

  lemma TimesGeneratorLast(q: Poly)
    requires q != []
    ensures forall k | 0 <= k < |q| + 16 ::
              TimesGenerator(q)[k] == ((k < |q| + 15 && TimesGenerator(q[..|q| - 1])[k])
                                       != (q[|q| - 1] && |q| - 1 <= k && Generator()[k - (|q| - 1)]))
  {
  }

  lemma {:induction false} DivisionUnique(p: Poly, q: Poly, r: Poly, q': Poly, r': Poly)
    requires Division(p, q, r) && Division(p, q', r')
    ensures q == q' && r == r'
    decreases |q|
  {
    if q == [] {
      assert forall k | 0 <= k < 16 :: p[k] == r[k] && p[k] == r'[k];
    } else {
      LeadingCoefficient(p, q, r);
      LeadingCoefficient(p, q', r');
      DivisionUnique(Rest(p), q[1..], r, q'[1..], r');
      assert q == [q[0]] + q[1..] && q' == [q'[0]] + q'[1..];
    }
  }

  /** The dividend after the first step of long division. */
  function Rest(p: Poly): (p': Poly)
    requires |p| >= 17
    ensures |p'| == |p| - 1
  {
    if p[0] then Add(p, Generator() + Zeros(|p| - 17))[1..] else p[1..]
  }

  lemma LeadingCoefficient(p: Poly, q: Poly, r: Poly)
    requires q != [] && Division(p, q, r)
    ensures p[0] == q[0] && Division(Rest(p), q[1..], r)
  {
    var t := q[1..];
    assert q == [q[0]] + t;
    TimesGeneratorFirst(q[0], t);
    assert TimesGenerator(q) == Add(Leading(q[0], |t|), [false] + TimesGenerator(t));
    assert p[0] == (TimesGenerator(q)[0] != (Zeros(|q|) + r)[0]);
    var s := Add(TimesGenerator(t), Zeros(|t|) + r);
    forall k | 0 <= k < |t| + 16
      ensures Rest(p)[k] == s[k]
    {
      assert p[k + 1] == (TimesGenerator(q)[k + 1] != (Zeros(|q|) + r)[k + 1]);
    }
  }

  // ---------- What the code promises ----------

  /** The code of a message is the remainder of the message, taken as a polynomial and multiplied by
      x^16 with the initial register in front, modulo the generator; and it is the only one. */
  lemma CrcIsTheRemainder(ws: seq<u16>, crc: u16) returns (quotient: Poly)
    ensures Division(Dividend(Message(ws), Bits(16, crc)), quotient, Bits(16, CrcWords(ws, crc)))
    ensures forall q, r :: Division(Dividend(Message(ws), Bits(16, crc)), q, r) ==>
                             r == Bits(16, CrcWords(ws, crc))
  {
    WordsAreFeeds(ws, crc);
    quotient := FeedAllDivides(Message(ws), Bits(16, crc));
    forall q, r | Division(Dividend(Message(ws), Bits(16, crc)), q, r)
      ensures r == Bits(16, CrcWords(ws, crc))
    {
      DivisionUnique(Dividend(Message(ws), Bits(16, crc)), q, r, quotient, Bits(16, CrcWords(ws, crc)));
    }
  }

  /** Bits not yet taken in may as well be xor-ed into the register beforehand. */
  lemma {:induction false} FeedAllMerge(bits: Poly, r: Poly)
    requires |r| == 16 && |bits| <= 16
    ensures FeedAll(bits, r) == FeedAll(Zeros(|bits|), Add(bits + Zeros(16 - |bits|), r))
    decreases |bits|
  {
    if bits == [] {
      assert Add(bits + Zeros(16), r) == r;
    } else {
      var n := |bits|;
      var merged := Add(bits + Zeros(16 - n), r);
      FeedAllFirst(bits, r);
      FeedAllFirst(Zeros(n), merged);
      assert Zeros(n)[1..] == Zeros(n - 1);
      FeedMerge(bits, r);
      FeedAllMerge(bits[1..], Feed(bits[0], r));
    }
  }

  lemma FeedMerge(bits: Poly, r: Poly)
    requires |r| == 16 && 1 <= |bits| <= 16
    ensures Feed(false, Add(bits + Zeros(16 - |bits|), r)) == Add(bits[1..] + Zeros(17 - |bits|), Feed(bits[0], r))
  {
  }

  lemma {:induction false} FeedZerosInjective(n: nat, r: Poly, r': Poly)
    requires |r| == |r'| == 16
    requires FeedAll(Zeros(n), r) == FeedAll(Zeros(n), r')
    ensures r == r'
  {
    if n > 0 {
      assert Zeros(n)[..n - 1] == Zeros(n - 1);
      FeedInjective(FeedAll(Zeros(n - 1), r), FeedAll(Zeros(n - 1), r'));
      FeedZerosInjective(n - 1, r, r');
    }
  }

  lemma FeedInjective(r: Poly, r': Poly)
    requires |r| == |r'| == 16
    requires Feed(false, r) == Feed(false, r')
    ensures r == r'
  {
    var f, f' := Feed(false, r), Feed(false, r');
    assert f[15] == r[0] && f'[15] == r'[0];
    forall i | 1 <= i < 16
      ensures r[i] == r'[i]
    {
      assert f[i - 1] == f'[i - 1];
    }
  }

  lemma {:induction false} FeedZeros(n: nat)
    ensures FeedAll(Zeros(n), Zeros(16)) == Zeros(16)
  {
    if n > 0 {
      assert Zeros(n)[..n - 1] == Zeros(n - 1);
      FeedZeros(n - 1);
      assert Feed(false, Zeros(16)) == Zeros(16);
    }
  }

  lemma WordMerges(v: u16, crc: u16)
    ensures Bits(16, CrcWord(v, crc)) == FeedAll(Zeros(16), Add(Bits(16, v), Bits(16, crc)))
  {
    WordIsFeeds(v, crc);
    FeedAllMerge(Bits(16, v), Bits(16, crc));
    assert Bits(16, v) + Zeros(0) == Bits(16, v);
  }

  /** crcu16(v, c) == crcu16(v ^ c, 0) */
  lemma CrcOfXor(v: u16, crc: u16)
    ensures CrcWord(v, crc) == CrcWord(Xor16(v, crc), 0)
  {
    WordMerges(v, crc);
    WordMerges(Xor16(v, crc), 0);
    forall i | 0 <= i < 16
      ensures Add(Bits(16, v), Bits(16, crc))[i] == Add(Bits(16, Xor16(v, crc)), Bits(16, 0))[i]
    {
      XorBit(v, crc, i);
      BitBeyond(0, 0, i);
    }
    assert Add(Bits(16, v), Bits(16, crc)) == Add(Bits(16, Xor16(v, crc)), Bits(16, 0));
    SameWord(CrcWord(v, crc), CrcWord(Xor16(v, crc), 0));
  }

  lemma CrcInjectiveInData(v: u16, v': u16, crc: u16)
    requires CrcWord(v, crc) == CrcWord(v', crc)
    ensures v == v'
  {
    WordMerges(v, crc);
    WordMerges(v', crc);
    var s, s' := Add(Bits(16, v), Bits(16, crc)), Add(Bits(16, v'), Bits(16, crc));
    FeedZerosInjective(16, s, s');
    forall i | 0 <= i < 16
      ensures Bits(16, v)[i] == Bits(16, v')[i]
    {
      assert s[i] == s'[i];
    }
    SameWord(v, v');
  }

  lemma CrcInjectiveInRegister(v: u16, crc: u16, crc': u16)
    requires CrcWord(v, crc) == CrcWord(v, crc')
    ensures crc == crc'
  {
    WordMerges(v, crc);
    WordMerges(v, crc');
    var s, s' := Add(Bits(16, v), Bits(16, crc)), Add(Bits(16, v), Bits(16, crc'));
    FeedZerosInjective(16, s, s');
    forall i | 0 <= i < 16
      ensures Bits(16, crc)[i] == Bits(16, crc')[i]
    {
      assert s[i] == s'[i];
    }
    SameWord(crc, crc');
  }

  lemma {:induction false} CrcWordsInjectiveInRegister(ws: seq<u16>, crc: u16, crc': u16)
    requires CrcWords(ws, crc) == CrcWords(ws, crc')
    ensures crc == crc'
  {
    if ws != [] {
      CrcWordsInjectiveInRegister(ws[1..], CrcWord(ws[0], crc), CrcWord(ws[0], crc'));
      CrcInjectiveInRegister(ws[0], crc, crc');
    }
  }

  /** A change confined to one word of a message of any length changes the code. */
  lemma {:induction false} CrcDetectsOneWord(ws: seq<u16>, k: nat, v: u16, crc: u16)
    requires k < |ws| && v != ws[k]
    ensures CrcWords(ws[k := v], crc) != CrcWords(ws, crc)
    decreases k
  {
    var ws' := ws[k := v];
    if k == 0 {
      assert ws'[1..] == ws[1..];
      if CrcWords(ws', crc) == CrcWords(ws, crc) {
        CrcWordsInjectiveInRegister(ws[1..], CrcWord(v, crc), CrcWord(ws[0], crc));
        CrcInjectiveInData(v, ws[0], crc);
      }
    } else {
      assert ws'[1..] == ws[1..][k - 1 := v];
      CrcDetectsOneWord(ws[1..], k - 1, v, CrcWord(ws[0], crc));
    }
  }

  /** Messages can be coded in parts. */
  lemma {:induction false} CrcWordsConcat(a: seq<u16>, b: seq<u16>, crc: u16)
    ensures CrcWords(a + b, crc) == CrcWords(b, CrcWords(a, crc))
  {
    if a == [] {
      assert a + b == b;
    } else {
      assert (a + b)[1..] == a[1..] + b;
      CrcWordsConcat(a[1..], b, CrcWord(a[0], crc));
    }
  }

  lemma {:induction false} CrcWordsAppend(ws: seq<u16>, v: u16, crc: u16)
    ensures CrcWords(ws + [v], crc) == CrcWord(v, CrcWords(ws, crc))
  {
    if ws == [] {
      assert ws + [v] == [v];
      assert CrcWords([], CrcWord(v, crc)) == CrcWord(v, crc);
    } else {
      assert (ws + [v])[1..] == ws[1..] + [v];
      CrcWordsAppend(ws[1..], v, CrcWord(ws[0], crc));
    }
  }

  /** A message followed by its own code has code zero, and by no other word. */
  lemma CrcResidue(ws: seq<u16>, v: u16, crc: u16)
    ensures CrcWords(ws + [v], crc) == 0 <==> v == CrcWords(ws, crc)
  {
    var c := CrcWords(ws, crc);
    CrcWordsAppend(ws, v, crc);
    WordMerges(c, c);
    assert Add(Bits(16, c), Bits(16, c)) == Zeros(16);
    FeedZeros(16);
    forall i | 0 <= i < 16
      ensures !Bit(0, i)
    {
      BitBeyond(0, 0, i);
    }
    assert Bits(16, 0) == Zeros(16);
    SameWord(CrcWord(c, c), 0);
    if CrcWord(v, c) == 0 {
      CrcInjectiveInData(v, c, c);
    }
  }
}
