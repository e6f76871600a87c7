/** core_bench_state and core_init_state of core_state.c: scan a text, corrupt it at a stride, scan it
    again, and undo the corruption; and the text that makes this safe. */
module StateBench {
  import opened Words
  import opened Crc
  import opened Scanner
  import opened Grammar

  // ---------- Strided corruption ----------

  /** One visited byte: commas are left alone. */
  function Flip(c: u8, s: u8): u8 {
    if c == COMMA then c else Xor8(c, s)
  }

  function Corrupted(b: seq<u8>, s: u8, step: nat): (r: seq<u8>)
    requires step > 0
    ensures |r| == |b|
  {
    seq(|b|, i requires 0 <= i < |b| => if i % step == 0 then Flip(b[i], s) else b[i])
  }

  lemma NextVisit(p: nat, step: nat, k: nat)
    requires step > 0 && p % step == 0 && p <= k < p + step
    ensures k % step == 0 <==> k == p
    ensures (p + step) % step == 0
  {
    var q, d := p / step, k - p;
    assert p == step * q;
    Remainder(step, q, d);
    Remainder(step, q + 1, 0);
    assert step * (q + 1) == p + step;
  }

  lemma Remainder(step: nat, q: nat, d: nat)
    requires d < step
    ensures (step * q + d) % step == d
  {
    var x := step * q + d;
    var e := q - x / step;
    assert x == step * (x / step) + x % step;
    assert step * e == x % step - d;
    Multiple(step, e);
  }

  /** A multiple of `n` strictly between -n and n is zero. */
  lemma Multiple(n: int, e: int)
    requires n > 0
    ensures -n < n * e < n ==> n * e == 0
  {
    if e >= 1 {
      assert n * e == n + n * (e - 1);
      assert n * (e - 1) >= 0;
    } else if e <= -1 {
      assert n * e == -n + n * (e + 1);
      assert n * (e + 1) <= 0;
    }
  }

  /** The corruption loop, which the code contains twice. */
  method Corrupt(mem: array<u8>, s: u8, step: nat)
    requires step > 0
    modifies mem
    ensures mem[..] == Corrupted(old(mem[..]), s, step)
  {
    ghost var b := mem[..];
    var p := 0;
    while p < mem.Length
      invariant p % step == 0
      invariant forall k :: 0 <= k < mem.Length ==> mem[k] == if k < p then Corrupted(b, s, step)[k] else b[k]
    {
      forall k: nat | p <= k < p + step
        ensures k % step == 0 <==> k == p
      {
        NextVisit(p, step, k);
      }
      NextVisit(p, step, p);
      if mem[p] != COMMA {
        mem[p] := Xor8(mem[p], s);
      }
      p := p + step;
    }
  }

  // ---------- When the corruption is undone ----------

  function CorruptedTwice(b: seq<u8>, s1: u8, s2: u8, step: nat): (r: seq<u8>)
    requires step > 0
    ensures |r| == |b|
  {
    Corrupted(Corrupted(b, s1, step), s2, step)
  }

  /** The bytes that both flips together leave as they are. */
  predicate Restored(c: u8, s1: u8, s2: u8) {
    c == COMMA || (s1 == s2 && Xor8(c, s1) != COMMA)
  }

  lemma FlipTwice(c: u8, s1: u8, s2: u8)
    ensures Flip(Flip(c, s1), s2) == c <==> Restored(c, s1, s2)
  {
    XorInvolutive(c, s1);
    if c != COMMA && Xor(Xor(c, s1), s2) == c {
      XorCancels(Xor(c, s1), s2, s1);
    }
  }

  /** Scanning twice leaves the block as it was exactly when no visited byte is lost: the two seeds
      must agree, and no byte may turn into a comma.  Agreement of the seeds alone is not enough. */
  lemma UndoneIff(b: seq<u8>, s1: u8, s2: u8, step: nat)
    requires step > 0
    ensures CorruptedTwice(b, s1, s2, step) == b <==>
            forall i | 0 <= i < |b| && i % step == 0 :: Restored(b[i], s1, s2)
  {
    var r := CorruptedTwice(b, s1, s2, step);
    forall i | 0 <= i < |b|
      ensures r[i] == if i % step == 0 then Flip(Flip(b[i], s1), s2) else b[i]
    {
    }
    forall i | 0 <= i < |b| && i % step == 0
      ensures r[i] == b[i] <==> Restored(b[i], s1, s2)
    {
      FlipTwice(b[i], s1, s2);
    }
  }

  lemma UndoneIffSameSeed(b: seq<u8>, s: u8, step: nat)
    requires step > 0
    ensures CorruptedTwice(b, s, s, step) == b <==>
            s == 0 || forall i | 0 <= i < |b| && i % step == 0 :: b[i] != Xor8(COMMA, s)
  {
    UndoneIff(b, s, s, step);
    forall c: u8
      ensures Restored(c, s, s) <==> s == 0 || c != Xor8(COMMA, s)
    {
      RestoredSameSeed(c, s);
    }
  }

  lemma RestoredSameSeed(c: u8, s: u8)
    ensures Restored(c, s, s) <==> s == 0 || c != Xor8(COMMA, s)
  {
    XorInvolutive(c, s);
    XorInvolutive(COMMA, s);
    XorZero(c);
    if s != 0 && Xor(COMMA, s) == COMMA {
      XorZero(COMMA);
      XorCancels(COMMA, s, 0);
    }
  }

  /** With equal seeds a visited byte either comes back or becomes a comma, and then stays one. */
  lemma BackOrComma(b: seq<u8>, s: u8, step: nat, i: nat)
    requires step > 0 && i < |b|
    ensures CorruptedTwice(b, s, s, step)[i] ==
            if i % step == 0 && s != 0 && b[i] == Xor8(COMMA, s) then COMMA else b[i]
  {
    XorInvolutive(b[i], s);
    XorInvolutive(COMMA, s);
    RestoredSameSeed(b[i], s);
    FlipTwice(b[i], s, s);
  }

  // ---------- The two scans ----------

  function StateAt(i: nat): (s: CoreState)
    requires i < 8
    ensures Index(s) == i
  {
    [START, INVALID, S1, S2, INT, FLOAT, EXPONENT, SCIENTIFIC][i]
  }

  /** Counters that hold the multiplicities in `m`. */
  function Counters(m: multiset<CoreState>): (c: seq<nat>)
    ensures |c| == 8
  {
    seq(8, i requires 0 <= i < 8 => m[StateAt(i)])
  }

  lemma CountedFromZero(after: seq<nat>, m: multiset<CoreState>)
    requires Counted(seq(8, _ => 0), after, m)
    ensures after == Counters(m)
  {
    forall i | 0 <= i < 8
      ensures after[i] == Counters(m)[i]
    {
      assert m[StateAt(i)] == after[Index(StateAt(i))];
    }
  }

  /** The code of the first `k` pairs of counters. */
  function CountersCrc(k: nat, finals: seq<nat>, track: seq<nat>, crc: u16): u16
    requires k <= 8 && |finals| == |track| == 8
  {
    if k == 0 then crc
    else CrcDouble(track[k - 1] % 0x1_0000_0000,
                   CrcDouble(finals[k - 1] % 0x1_0000_0000, CountersCrc(k - 1, finals, track, crc)))
  }

  function AllFinals(b: seq<u8>, s: u8, step: nat): multiset<CoreState>
    requires step > 0
  {
    Finals(Tokens(b, 0)) + Finals(Tokens(Corrupted(b, s, step), 0))
  }

  function AllTrack(b: seq<u8>, s: u8, step: nat): multiset<CoreState>
    requires step > 0
  {
    Track(Tokens(b, 0)) + Track(Tokens(Corrupted(b, s, step), 0))
  }

  function BenchCrc(b: seq<u8>, s: u8, step: nat, crc: u16): u16
    requires step > 0
  {
    CountersCrc(8, Counters(AllFinals(b, s, step)), Counters(AllTrack(b, s, step)), crc)
  }

  // ---------- What is coded ----------

  /** The two counters of a state as the words that are fed to the code, low halves first. */
  function StateWords(final: nat, track: nat): (ws: seq<u16>)
    ensures |ws| == 4
  {
    [final % 0x1_0000, final / 0x1_0000 % 0x1_0000, track % 0x1_0000, track / 0x1_0000 % 0x1_0000]
  }

  /** The words of the first `k` states. */
  function CounterWords(k: nat, finals: multiset<CoreState>, track: multiset<CoreState>): (ws: seq<u16>)
    requires k <= 8
    ensures |ws| == 4 * k
  {
    if k == 0 then []
    else CounterWords(k - 1, finals, track) + StateWords(finals[StateAt(k - 1)], track[StateAt(k - 1)])
  }

  lemma HalvesOf(x: nat)
    ensures x % 0x1_0000_0000 % 0x1_0000 == x % 0x1_0000
    ensures x % 0x1_0000_0000 / 0x1_0000 == x / 0x1_0000 % 0x1_0000
  {
    var q := x / 0x1_0000_0000;
    assert x == 0x1_0000 * (0x1_0000 * q + x % 0x1_0000_0000 / 0x1_0000) + x % 0x1_0000_0000 % 0x1_0000;
  }

  lemma DoubleIsTwoWords(ws: seq<u16>, x: nat, crc: u16)
    ensures CrcDouble(x % 0x1_0000_0000, CrcWords(ws, crc)) ==
            CrcWords(ws + [x % 0x1_0000] + [x / 0x1_0000 % 0x1_0000], crc)
  {
    HalvesOf(x);
    CrcWordsAppend(ws, x % 0x1_0000, crc);
    CrcWordsAppend(ws + [x % 0x1_0000], x / 0x1_0000 % 0x1_0000, crc);
  }

  lemma {:induction false} CountersAreWords(k: nat, finals: multiset<CoreState>, track: multiset<CoreState>, crc: u16)
    requires k <= 8
    ensures CountersCrc(k, Counters(finals), Counters(track), crc) == CrcWords(CounterWords(k, finals, track), crc)
  {
    if k > 0 {
      var ws, f, t := CounterWords(k - 1, finals, track), finals[StateAt(k - 1)], track[StateAt(k - 1)];
      CountersAreWords(k - 1, finals, track, crc);
      DoubleIsTwoWords(ws, f, crc);
      DoubleIsTwoWords(ws + [f % 0x1_0000] + [f / 0x1_0000 % 0x1_0000], t, crc);
      assert ws + [f % 0x1_0000] + [f / 0x1_0000 % 0x1_0000] + [t % 0x1_0000] + [t / 0x1_0000 % 0x1_0000] ==
             ws + StateWords(f, t);
    }
  }

  /** The 32 words that a call codes: for each state the tokens of both scans that ended in it, and how often
      both scans incremented its other counter. */
  function BenchWords(b: seq<u8>, s: u8, step: nat): (ws: seq<u16>)
    requires step > 0
    ensures |ws| == 32
  {
    var ts, ts' := Tokens(b, 0), Tokens(Corrupted(b, s, step), 0);
    CounterWords(8, Finals(ts) + Finals(ts'), Track(ts) + Track(ts'))
  }

  /** The value of the text benchmark is the code of these words. */
  lemma BenchCrcIsCode(b: seq<u8>, s: u8, step: nat, crc: u16)
    requires step > 0
    ensures BenchCrc(b, s, step, crc) == CrcWords(BenchWords(b, s, step), crc)
  {
    CountersAreWords(8, AllFinals(b, s, step), AllTrack(b, s, step), crc);
  }

  /** Texts whose counters differ in exactly one of these words have different values. */
  lemma OneCounterDetected(b: seq<u8>, b': seq<u8>, s: u8, step: nat, crc: u16, k: nat)
    requires step > 0 && k < 32 && BenchWords(b, s, step)[k] != BenchWords(b', s, step)[k]
    requires forall i :: 0 <= i < 32 && i != k ==> BenchWords(b, s, step)[i] == BenchWords(b', s, step)[i]
    ensures BenchCrc(b, s, step, crc) != BenchCrc(b', s, step, crc)
  {
    var ws, ws' := BenchWords(b, s, step), BenchWords(b', s, step);
    BenchCrcIsCode(b, s, step, crc);
    BenchCrcIsCode(b', s, step, crc);
    assert ws == ws'[k := ws[k]];
    CrcDetectsOneWord(ws', k, ws[k], crc);
  }

  /** Over both scans together the counters still balance, one final state a token. */
  lemma BenchBalanced(b: seq<u8>, s: u8, step: nat)
    requires step > 0
    ensures Balanced(AllTrack(b, s, step), AllFinals(b, s, step),
                     |Tokens(b, 0)| + |Tokens(Corrupted(b, s, step), 0)|)
  {
    var t, t' := Tokens(b, 0), Tokens(Corrupted(b, s, step), 0);
    TokensBalanced(b, 0);
    TokensBalanced(Corrupted(b, s, step), 0);
    BalancedSum(Track(t), Finals(t), |t|, Track(t'), Finals(t'), |t'|);
  }

  /** Finals and transitions of the tokens before `p`, completed by those from `p` on. */
  ghost predicate Progress(b: seq<u8>, p: nat, track: multiset<CoreState>, finals: multiset<CoreState>) {
    p <= |b| &&
    track + Track(Tokens(b, p)) == Track(Tokens(b, 0)) &&
    finals + Finals(Tokens(b, p)) == Finals(Tokens(b, 0))
  }

  lemma ProgressStep(b: seq<u8>, p: nat, track: multiset<CoreState>, finals: multiset<CoreState>)
    requires Progress(b, p, track, finals) && p < |b| && b[p] != 0
    ensures var t := FirstToken(b, p); Progress(b, t.end, track + t.bumps, finals + multiset{t.state})
  {
    var t := FirstToken(b, p);
    var rest := Tokens(b, t.end);
    assert Tokens(b, p) == [t] + rest;
    assert ([t] + rest)[1..] == rest;
  }

  lemma CountOne(before: seq<nat>, mid: seq<nat>, after: seq<nat>, m: multiset<CoreState>, state: CoreState)
    requires Counted(before, mid, m) && |after| == 8
    requires after == mid[Index(state) := mid[Index(state)] + 1]
    ensures Counted(before, after, m + multiset{state})
  {
  }

  /** One pass of the scanning loop's body. */
  method ScanOne(mem: array<u8>, p: nat, track: array<nat>, finals: array<nat>,
                 ghost t0: seq<nat>, ghost f0: seq<nat>,
                 ghost t: multiset<CoreState>, ghost f: multiset<CoreState>) returns (end: nat)
    requires track.Length == finals.Length == 8 && track != finals
    requires mem as object != track as object && mem as object != finals as object
    requires HasNul(mem[..], p) && mem[p] != 0
    requires Counted(t0, track[..], t) && Counted(f0, finals[..], f)
    modifies track, finals
    ensures end == FirstToken(mem[..], p).end && HasNul(mem[..], end)
    ensures Counted(t0, track[..], t + FirstToken(mem[..], p).bumps)
    ensures Counted(f0, finals[..], f + multiset{FirstToken(mem[..], p).state})
  {
    ghost var token, tm, fm := FirstToken(mem[..], p), track[..], finals[..];
    var state;
    end, state := CoreStateTransition(mem, p, track);
    CountedTwice(t0, tm, track[..], t, token.bumps);
    finals[Index(state)] := finals[Index(state)] + 1;
    CountOne(f0, fm, finals[..], f, token.state);
  }

  method ScanText(mem: array<u8>, track: array<nat>, finals: array<nat>)
    requires track.Length == finals.Length == 8 && track != finals
    requires mem as object != track as object && mem as object != finals as object
    requires HasNul(mem[..], 0)
    modifies track, finals
    ensures Counted(old(track[..]), track[..], Track(Tokens(mem[..], 0)))
    ensures Counted(old(finals[..]), finals[..], Finals(Tokens(mem[..], 0)))
  {
    ghost var b, t0, f0 := mem[..], track[..], finals[..];
    ghost var t: multiset<CoreState>, f: multiset<CoreState> := multiset{}, multiset{};
    var p := 0;
    while mem[p] != 0
      invariant unchanged(mem)
      invariant HasNul(b, p)
      invariant Progress(b, p, t, f)
      invariant Counted(t0, track[..], t)
      invariant Counted(f0, finals[..], f)
      decreases |b| - p
    {
      ghost var token := FirstToken(b, p);
      ProgressStep(b, p, t, f);
      assert mem[..] == b;
      p := ScanOne(mem, p, track, finals, t0, f0, t, f);
      t, f := t + token.bumps, f + multiset{token.state};
    }
    assert Tokens(b, p) == [];
    assert mem[..] == b;
    assert t == Track(Tokens(b, 0)) && f == Finals(Tokens(b, 0));
  }

  lemma CountBoth(zeros: seq<nat>, c1: seq<nat>, c2: seq<nat>, m1: multiset<CoreState>, m2: multiset<CoreState>)
    requires zeros == seq(8, _ => 0)
    requires Counted(zeros, c1, m1) && Counted(c1, c2, m2)
    ensures c2 == Counters(m1 + m2)
  {
    CountedTwice(zeros, c1, c2, m1, m2);
    CountedFromZero(c2, m1 + m2);
  }

  /** Scan the text, corrupt it, scan it again. */
  method ScanTwice(mem: array<u8>, s: u8, step: nat, track: array<nat>, finals: array<nat>)
    requires step > 0
    requires HasNul(mem[..], 0) && HasNul(Corrupted(mem[..], s, step), 0)
    requires track.Length == finals.Length == 8 && track != finals
    requires mem as object != track as object && mem as object != finals as object
    requires track[..] == finals[..] == seq(8, _ => 0)
    modifies mem, track, finals
    ensures mem[..] == Corrupted(old(mem[..]), s, step)
    ensures track[..] == Counters(AllTrack(old(mem[..]), s, step))
    ensures finals[..] == Counters(AllFinals(old(mem[..]), s, step))
  {
    ghost var b, zeros := mem[..], track[..];
    ScanText(mem, track, finals);
    ghost var t, f := track[..], finals[..];
    Corrupt(mem, s, step);
    ghost var b' := mem[..];
    ScanText(mem, track, finals);
    CountBoth(zeros, t, track[..], Track(Tokens(b, 0)), Track(Tokens(b', 0)));
    CountBoth(zeros, f, finals[..], Finals(Tokens(b, 0)), Finals(Tokens(b', 0)));
  }

  method CoreBenchState(blksize: nat, memblock: array<u8>, seed1: s16, seed2: s16, step: s16, crc: u16) returns (r: u16)
    requires blksize == memblock.Length && step > 0
    requires HasNul(memblock[..], 0) && HasNul(Corrupted(memblock[..], seed1 % 0x100, step), 0)
    modifies memblock
    ensures memblock[..] == CorruptedTwice(old(memblock[..]), seed1 % 0x100, seed2 % 0x100, step)
    ensures r == BenchCrc(old(memblock[..]), seed1 % 0x100, step, crc)
  {
    var finals, track := new nat[8](_ => 0), new nat[8](_ => 0);
    assert finals[..] == track[..] == seq(8, _ => 0);
    ScanTwice(memblock, seed1 % 0x100, step, track, finals);
    Corrupt(memblock, seed2 % 0x100, step);
    r := CrcOfCounters(finals[..], track[..], crc);
  }

  method CrcOfCounters(finals: seq<nat>, track: seq<nat>, crc: u16) returns (r: u16)
    requires |finals| == |track| == 8
    ensures r == CountersCrc(8, finals, track, crc)
  {
    r := crc;
    for i := 0 to 8
      invariant r == CountersCrc(i, finals, track, crc)
    {
      r := Crcu32(finals[i] % 0x1_0000_0000, r);
      r := Crcu32(track[i] % 0x1_0000_0000, r);
    }
  }
}
