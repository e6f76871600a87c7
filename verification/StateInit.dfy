/** core_init_state of core_state.c: the text that the scanner runs over. */
module StateInit {
  import opened Words
  import opened Scanner
  import opened Grammar
  import opened StateBench

  // ---------- The text ----------

  function Ascii(s: string): (b: seq<u8>)
    requires forall i | 0 <= i < |s| :: s[i] < 128 as char
    ensures |b| == |s|
  {
    seq(|s|, i requires 0 <= i < |s| => s[i] as int)
  }

  /** seed++ on a signed short. */
  function NextSeed(seed: s16): s16 {
    ToS16(seed + 1)
  }

  const INT_PATTERNS: seq<string> := ["5012", "1234", "-874", "+122"]
  const FLOAT_PATTERNS: seq<string> := ["35.54400", ".1234500", "-110.700", "+0.64400"]
  const SCIENTIFIC_PATTERNS: seq<string> := ["5.500e+3", "-.123e-2", "-87e+832", "+0.6e-12"]
  const ERROR_PATTERNS: seq<string> := ["T0.3e-1F", "-T.T++Tq", "1T3.4e4z", "34.0e-T^"]

  function PatternText(kind: nat, pick: nat): (s: string)
    requires kind < 8 && pick < 4
    ensures |s| == 4 || |s| == 8
    ensures forall i | 0 <= i < |s| :: s[i] < 128 as char
  {
    if kind <= 2 then INT_PATTERNS[pick]
    else if kind <= 4 then FLOAT_PATTERNS[pick]
    else if kind <= 6 then SCIENTIFIC_PATTERNS[pick]
    else ERROR_PATTERNS[pick]
  }

  /** The pattern that the running seed selects: bits 0-2 choose the kind, bits 3-4 one of four. */
  function Pattern(seed: s16): (b: seq<u8>)
    ensures |b| == 4 || |b| == 8
  {
    Ascii(PatternText(ToU16(seed) % 8, ToU16(seed) / 8 % 4))
  }

  /** The patterns of the seeds after `seed`, each with a comma, as far as they fit from `total` on. */
  function Fill(size: nat, seed: s16, total: nat): (b: seq<u8>)
    ensures total + 2 <= size ==> total + |b| + 2 <= size
    ensures total + 2 > size ==> b == []
    decreases size - total
  {
    var next := NextSeed(seed);
    var after := total + |Pattern(next)| + 1;
    if after + 1 < size then Pattern(next) + [COMMA] + Fill(size, next, after) else []
  }

  function InitialText(size: nat, seed: s16): (b: seq<u8>)
    ensures |b| == size
  {
    var text := Fill(size, seed, 0);
    text + seq(size - |text|, _ => 0)
  }

  // ---------- The code ----------

  /** What is still to come when `next` bytes of `buf` wait to be written at `total`. */
  function Pending(size: nat, seed: s16, total: nat, buf: seq<u8>): (b: seq<u8>)
    ensures total + 2 <= size ==> total + |b| + 2 <= size
  {
    if buf == [] then Fill(size, seed, total)
    else if total + |buf| + 2 < size then buf + [COMMA] + Fill(size, seed, total + |buf| + 1)
    else []
  }

  method WritePattern(p: array<u8>, total: nat, buf: seq<u8>)
    requires total + |buf| < p.Length
    modifies p
    ensures p[..total + |buf| + 1] == old(p[..total]) + buf + [COMMA]
  {
    for i := 0 to |buf|
      invariant p[..total] == old(p[..total])
      invariant p[total..total + i] == buf[..i]
    {
      p[total + i] := buf[i];
    }
    p[total + |buf|] := COMMA;
    assert p[..total + |buf| + 1] == p[..total] + p[total..total + |buf|] + [COMMA];
  }

  method FillZeros(p: array<u8>, start: nat)
    requires start <= p.Length
    modifies p
    ensures p[..] == old(p[..start]) + seq(p.Length - start, _ => 0)
  {
    var total := start;
    while total < p.Length
      invariant start <= total <= p.Length
      invariant p[..start] == old(p[..start])
      invariant forall i | start <= i < total :: p[i] == 0
    {
      p[total] := 0;
      total := total + 1;
    }
  }

  /** Writing out what waits leaves the same text to come. */
  lemma PendingStep(size: nat, seed: s16, total: nat, buf: seq<u8>)
    requires total + |buf| + 2 < size
    ensures Pending(size, seed, total, buf) ==
            WithComma(buf) + Fill(size, seed, total + |WithComma(buf)|)
  {
  }

  function WithComma(buf: seq<u8>): seq<u8> {
    if buf == [] then [] else buf + [COMMA]
  }

  /** Write out what waits; the text already there and the text to come stay the same together. */
  method Flush(p: array<u8>, total: nat, buf: seq<u8>, ghost rest: seq<u8>) returns (total': nat)
    requires total + |buf| < p.Length
    modifies p
    ensures total' == total + |WithComma(buf)| <= p.Length
    ensures p[..total'] + rest == old(p[..total]) + (WithComma(buf) + rest)
  {
    total' := total;
    if |buf| > 0 {
      WritePattern(p, total, buf);
      total' := total + |buf| + 1;
    }
  }

  /** What has been written and what is still to come make up `text`. */
  ghost predicate Writing(written: seq<u8>, size: nat, seed: s16, total: nat, buf: seq<u8>, text: seq<u8>) {
    forall k {:trigger Look(TEXT, k)} :: Look(TEXT, k) ==>
      total <= size == |written| && written[..total] + Pending(size, seed, total, buf) == text
  }

  lemma WritingBegins(written: seq<u8>, size: nat, seed: s16)
    requires |written| == size
    ensures Writing(written, size, seed, 0, [], Fill(size, seed, 0))
  {
  }

  lemma WritingEnds(written: seq<u8>, size: nat, seed: s16, total: nat, buf: seq<u8>, text: seq<u8>)
    requires Writing(written, size, seed, total, buf, text) && total + |buf| + 2 >= size
    requires buf == [] ==> total + 2 >= size
    ensures total <= |written| == size && written[..total] == text
  {
    assert Look(TEXT, 0);
    assert Pending(size, seed, total, buf) == [];
  }

  /** One turn of the loop: write out the pattern that waits, and select the next. */
  method WriteNext(size: nat, p: array<u8>, seed: s16, total: nat, buf: seq<u8>, ghost text: seq<u8>)
    returns (seed': s16, total': nat, buf': seq<u8>)
    requires Writing(p[..], size, seed, total, buf, text) && total + |buf| + 2 < size
    modifies p
    ensures Writing(p[..], size, seed', total', buf', text) && buf' != []
    ensures total' <= size && total' == total + |WithComma(buf)|
  {
    assert Look(TEXT, 0);
    PendingStep(size, seed, total, buf);
    total' := Flush(p, total, buf, Fill(size, seed, total + |WithComma(buf)|));
    PendingFill(size, seed, total');
    seed' := NextSeed(seed);
    buf' := Pattern(seed');
  }

  method CoreInitState(size: nat, seed: s16, p: array<u8>)
    requires size == p.Length && size >= 1
    modifies p
    ensures p[..] == InitialText(size, seed)
  {
    var total, buf, running := 0, [], seed;
    ghost var text := Fill(size, seed, 0);
    WritingBegins(p[..], size, seed);
    while total + |buf| + 1 < size - 1
      invariant total <= size
      invariant Writing(p[..], size, running, total, buf, text)
      decreases size - total, if buf == [] then 1 else 0
    {
      running, total, buf := WriteNext(size, p, running, total, buf, text);
    }
    WritingEnds(p[..], size, running, total, buf, text);
    FillZeros(p, total);
  }

  lemma PendingFill(size: nat, seed: s16, total: nat)
    ensures var next := NextSeed(seed);
            Fill(size, seed, total) == Pending(size, next, total, Pattern(next))
  {
  }

  // ---------- Why the scans are safe ----------

  /** The last two bytes are NUL. */
  predicate Padded(b: seq<u8>) {
    |b| >= 2 && b[|b| - 2] == 0 && b[|b| - 1] == 0
  }

  lemma InitialTextPadded(size: nat, seed: s16)
    requires size >= 2
    ensures Padded(InitialText(size, seed))
  {
  }

  /** From size 11 on the first pattern fits, and none begins with a NUL. */
  lemma InitialTextBegins(size: nat, seed: s16)
    requires size >= 11
    ensures InitialText(size, seed)[0] != 0
  {
    var pattern := FirstPattern(seed);
    PatternBytes(NextSeed(seed), 0);
    FillStep(size, seed, 0, pattern, |pattern| + 1);
  }

  /** A stride of two or more cannot visit both NULs, so one survives the corruption. */
  lemma PaddedStaysTerminated(b: seq<u8>, s: u8, step: nat)
    requires Padded(b) && step >= 2
    ensures HasNul(b, 0) && HasNul(Corrupted(b, s, step), 0)
  {
    var n, r := |b|, Corrupted(b, s, step);
    assert b[n - 1] == 0;
    if (n - 1) % step == 0 {
      NotBoth(n - 2, step);
      assert r[n - 2] == 0;
    } else {
      assert r[n - 1] == 0;
    }
  }

  lemma NotBoth(k: nat, step: nat)
    requires step >= 2
    ensures !(k % step == 0 && (k + 1) % step == 0)
  {
    if k % step == 0 {
      NextVisit(k, step, k + 1);
    }
  }

  /** Every stride that a data item asks for is a multiple of 17, so this NUL is never visited. */
  ghost predicate Safe(b: seq<u8>) {
    exists k :: 0 <= k < |b| && k % 17 != 0 && b[k] == 0
  }

  lemma InitialTextSafe(size: nat, seed: s16)
    requires size >= 2
    ensures Safe(InitialText(size, seed))
  {
    var b := InitialText(size, seed);
    InitialTextPadded(size, seed);
    NotBoth(size - 2, 17);
    assert b[size - 2] == 0 && b[size - 1] == 0;
  }

  lemma NotVisited(k: nat, step: nat)
    requires step > 0 && step % 17 == 0 && k % step == 0
    ensures k % 17 == 0
  {
    var m, q := step / 17, k / step;
    assert k == step * q && step == 17 * m;
    assert k == 17 * (m * q);
    Remainder(17, m * q, 0);
  }

  /** Whatever the seeds, corruption at such a stride keeps the text terminated. */
  lemma SafeStays(b: seq<u8>, s: u8, step: nat)
    requires Safe(b) && step > 0 && step % 17 == 0
    ensures Safe(Corrupted(b, s, step)) && HasNul(b, 0) && HasNul(Corrupted(b, s, step), 0)
  {
    var k: nat :| k < |b| && k % 17 != 0 && b[k] == 0;
    if k % step == 0 {
      NotVisited(k, step);
      assert false;
    }
    assert Corrupted(b, s, step)[k] == 0;
  }

  // ---------- Why the corruption is undone ----------

  /** The bytes of the patterns: signs, point, digits up to 8, and the letters F T ^ e q z. */
  predicate PatternByte(c: u8) {
    c == PLUS || c == MINUS || c == DOT || 0x30 <= c <= 0x38 ||
    c == 0x46 || c == 0x54 || c == 0x5e || c == LOWER_E || c == 0x71 || c == 0x7a
  }

  lemma PatternBytes(seed: s16, i: nat)
    requires i < |Pattern(seed)|
    ensures PatternByte(Pattern(seed)[i])
  {
  }

  predicate TextByte(c: u8) {
    c == 0 || c == COMMA || PatternByte(c)
  }

  ghost predicate AllText(b: seq<u8>) {
    forall k {:trigger Look(TEXT, k)} :: Look(TEXT, k) ==> forall i | 0 <= i < |b| :: TextByte(b[i])
  }

  lemma AllTextJoin(a: seq<u8>, b: seq<u8>)
    requires AllText(a) && AllText(b)
    ensures AllText(a + [COMMA] + b)
  {
    assert Look(TEXT, 0);
  }

  lemma PatternAllText(seed: s16)
    ensures AllText(Pattern(seed))
  {
    forall i: nat | i < |Pattern(seed)|
      ensures TextByte(Pattern(seed)[i])
    {
      PatternBytes(seed, i);
    }
  }

  /** The pattern that comes first, and the rest of the text. */
  function FirstPattern(seed: s16): seq<u8> {
    Pattern(NextSeed(seed))
  }

  lemma FillStep(size: nat, seed: s16, total: nat, pattern: seq<u8>, after: nat)
    requires pattern == FirstPattern(seed) && after == total + |pattern| + 1
    ensures after > total
    ensures Fill(size, seed, total) ==
            if after + 1 < size then pattern + [COMMA] + Fill(size, NextSeed(seed), after) else []
  {
  }

  lemma {:induction false} FillBytes(size: nat, seed: s16, total: nat)
    ensures AllText(Fill(size, seed, total))
    decreases size - total
  {
    var pattern := FirstPattern(seed);
    var after := total + |pattern| + 1;
    FillStep(size, seed, total, pattern, after);
    PatternAllText(NextSeed(seed));
    if after + 1 < size {
      FillBytes(size, NextSeed(seed), after);
      AllTextJoin(pattern, Fill(size, NextSeed(seed), after));
    }
  }

  /** On the texts the program builds, whatever the seed that built it, every stride is undone when
      the seed byte xor-ed with a comma is none of the text's bytes. */
  lemma InitialTextUndone(size: nat, seed: s16, s: u8, step: nat)
    requires step > 0
    requires s == 0 || !TextByte(Xor8(COMMA, s))
    ensures CorruptedTwice(InitialText(size, seed), s, s, step) == InitialText(size, seed)
  {
    FillBytes(size, seed, 0);
    assert Look(TEXT, 0);
    UndoneIffSameSeed(InitialText(size, seed), s, step);
  }

  /** The seed bytes of the validation (0x3415) and profile (8) runs qualify, as 0 always does. */
  lemma KnownSeedsQualify(s: u8)
    requires s == 0x15 || s == 0x08
    ensures !TextByte(Xor8(COMMA, s))
  {
    CommaXors();
  }

  /** The characters that the scanner tells apart. */
  lemma Symbols(c: u8)
    ensures IsDigit(c) <==> c in Ascii("0123456789")
    ensures IsSign(c) <==> c in Ascii("+-")
    ensures IsE(c) <==> c in Ascii("Ee")
    ensures c in Ascii(",") <==> c == COMMA
    ensures c in Ascii(".") <==> c == DOT
  {
    var d := Ascii("0123456789");
    assert d == [0x30, 0x31, 0x32, 0x33, 0x34, 0x35, 0x36, 0x37, 0x38, 0x39];
    assert Ascii("+-") == [0x2b, 0x2d] && Ascii("Ee") == [0x45, 0x65] && Ascii(",") == [0x2c] && Ascii(".") == [0x2e];
  }

  /** The word `w` stands at `p`, in front of a comma. */
  ghost predicate WordAt(b: seq<u8>, p: nat, w: seq<u8>) {
    forall n {:trigger Look(TEXT, n)} :: Look(TEXT, n) ==>
      p + |w| < |b| && b[p..p + |w|] == w && b[p + |w|] == COMMA && COMMA !in w && 0 !in w
  }

  lemma WordByteAt(b: seq<u8>, p: nat, w: seq<u8>, k: nat)
    requires WordAt(b, p, w) && k < |w|
    ensures p + k < |b| && b[p + k] == w[k] != 0 && w[k] != COMMA
  {
    assert Look(TEXT, 0);
    assert b[p + k] == b[p..p + |w|][k];
    assert w[k] in w;
  }

  lemma CommaBehind(b: seq<u8>, p: nat, w: seq<u8>)
    requires WordAt(b, p, w)
    ensures p + |w| < |b| && b[p + |w|] == COMMA
  {
    assert Look(TEXT, 0);
  }

  lemma PrefixInvalid(w: seq<u8>, k: nat)
    requires k <= |w| && Run(w[..k]) == INVALID
    ensures Run(w) == INVALID
  {
    assert w == w[..k] + w[k..];
    RunSticks(w[..k], w[k..]);
  }

  /** A token that begins at the word does not reach beyond it. */
  lemma TokenInWord(b: seq<u8>, p: nat, w: seq<u8>, j: nat)
    requires WordAt(b, p, w) && p <= j <= |b| && COMMA !in b[p..j]
    ensures j <= p + |w| && b[p..j] == w[..j - p]
  {
    assert Look(TEXT, 0);
    if p + |w| < j {
      CommaInside(b, p, p + |w|, j);
    }
    assert w[..j - p] == b[p..p + |w|][..j - p];
  }

  lemma CommaInside(b: seq<u8>, p: nat, q: nat, j: nat)
    requires p <= q < j <= |b| && b[q] == COMMA
    ensures COMMA in b[p..j]
  {
    assert b[p..j][q - p] == COMMA;
  }

  lemma WordEnds(b: seq<u8>, p: nat, w: seq<u8>, j: nat)
    requires WordAt(b, p, w) && p <= j <= p + |w| && (j >= |b| || b[j] == COMMA || b[j] == 0)
    ensures j == p + |w|
  {
    CommaBehind(b, p, w);
    if j < p + |w| {
      WordByteAt(b, p, w, j - p);
      assert false;
    }
  }

  /** What a token is in terms of the automaton. */
  ghost predicate RunsTo(b: seq<u8>, i: nat, j: nat, t: Token) {
    i <= j <= |b| && COMMA !in b[i..j] && Run(b[i..j]) == t.state &&
    (t.state != INVALID ==> (j == |b| || b[j] == COMMA || b[j] == 0) && (j < |b| && b[j] == COMMA ==> t.end == j + 1))
  }

  lemma SpansRun(b: seq<u8>, i: nat, j: nat, t: Token)
    requires Spans(b, i, j, t)
    ensures RunsTo(b, i, j, t)
  {
    if t.state == INVALID {
      RunIsViable(b[i..j]);
    } else {
      RunDecides(b[i..j], t.state);
    }
  }

  lemma TokenOfWord(b: seq<u8>, p: nat, w: seq<u8>, j: nat, t: Token)
    requires WordAt(b, p, w) && RunsTo(b, p, j, t)
    ensures t.state == Run(w) && (t.state != INVALID ==> t.end == p + |w| + 1)
  {
    TokenInWord(b, p, w, j);
    if t.state == INVALID {
      PrefixInvalid(w, j - p);
    } else {
      WordEnds(b, p, w, j);
      CommaBehind(b, p, w);
      assert w[..j - p] == w;
    }
  }

  /** Scanning a word in front of a comma ends in the state of the automaton for the word, and behind the
      comma unless the word is invalid. */
  lemma ScanWord(b: seq<u8>, p: nat, w: seq<u8>)
    requires WordAt(b, p, w)
    ensures p <= |b| && FirstToken(b, p).state == Run(w)
    ensures Run(w) != INVALID ==> FirstToken(b, p).end == p + |w| + 1
  {
    CommaBehind(b, p, w);
    var j := TokenMeaning(b, p);
    SpansRun(b, p, j, FirstToken(b, p));
    TokenOfWord(b, p, w, j, FirstToken(b, p));
  }

  lemma RunFour(w: seq<u8>)
    requires |w| == 4
    ensures Run(w) == Next(Next(Next(Next(START, w[0]), w[1]), w[2]), w[3])
  {
    assert w == [w[0]] + [w[1]] + [w[2]] + [w[3]];
    RunOne([], w[0]);
    assert [] + [w[0]] == [w[0]];
    RunOne([w[0]], w[1]);
    RunOne([w[0]] + [w[1]], w[2]);
    RunOne([w[0]] + [w[1]] + [w[2]], w[3]);
  }

  lemma RunEight(w: seq<u8>)
    requires |w| == 8
    ensures var half := Next(Next(Next(Next(START, w[0]), w[1]), w[2]), w[3]);
            Run(w) == Next(Next(Next(Next(half, w[4]), w[5]), w[6]), w[7])
  {
    var a := w[..4];
    RunFour(a);
    assert w == a + [w[4]] + [w[5]] + [w[6]] + [w[7]];
    RunOne(a, w[4]);
    RunOne(a + [w[4]], w[5]);
    RunOne(a + [w[4]] + [w[5]], w[6]);
    RunOne(a + [w[4]] + [w[5]] + [w[6]], w[7]);
  }

  /** What the patterns of each kind are, with one exception. */
  function KindState(kind: nat, pick: nat): CoreState
    requires kind < 8 && pick < 4
  {
    if kind <= 2 then INT
    else if kind <= 4 then FLOAT
    else if kind <= 6 && pick != 2 then SCIENTIFIC
    else INVALID
  }

  lemma IntPatterns(pick: nat)
    requires pick < 4
    ensures Run(Ascii(INT_PATTERNS[pick])) == INT
  {
    RunFour(Ascii(INT_PATTERNS[pick]));
  }

  lemma FloatPatterns(pick: nat)
    requires pick < 4
    ensures Run(Ascii(FLOAT_PATTERNS[pick])) == FLOAT
  {
    RunEight(Ascii(FLOAT_PATTERNS[pick]));
  }

  lemma ScientificPatterns(pick: nat)
    requires pick < 4
    ensures Run(Ascii(SCIENTIFIC_PATTERNS[pick])) == if pick == 2 then INVALID else SCIENTIFIC
  {
    RunEight(Ascii(SCIENTIFIC_PATTERNS[pick]));
  }

  lemma ErrorPatterns(pick: nat)
    requires pick < 4
    ensures Run(Ascii(ERROR_PATTERNS[pick])) == INVALID
  {
    RunEight(Ascii(ERROR_PATTERNS[pick]));
  }

  lemma PatternRuns(kind: nat, pick: nat)
    requires kind < 8 && pick < 4
    ensures Run(Ascii(PatternText(kind, pick))) == KindState(kind, pick)
  {
    IntPatterns(pick);
    FloatPatterns(pick);
    ScientificPatterns(pick);
    ErrorPatterns(pick);
  }

  lemma NoSeparators(seed: s16)
    ensures COMMA !in Pattern(seed) && 0 !in Pattern(seed)
  {
    forall i: nat | i < |Pattern(seed)|
      ensures Pattern(seed)[i] != COMMA && Pattern(seed)[i] != 0
    {
      PatternBytes(seed, i);
    }
  }

  /** The pattern of a seed is scanned as its kind says: bits 0-2 of the seed choose an integer in three cases
      of eight, a decimal in two, a scientific number in two, of which one of four is none, or an error. */
  lemma PatternScans(b: seq<u8>, p: nat, seed: s16)
    requires WordAt(b, p, Pattern(seed))
    ensures p <= |b|
    ensures var t, state := FirstToken(b, p), KindState(ToU16(seed) % 8, ToU16(seed) / 8 % 4);
            t.state == state && (state != INVALID ==> t.end == p + |Pattern(seed)| + 1)
  {
    var w := Pattern(seed);
    PatternRuns(ToU16(seed) % 8, ToU16(seed) / 8 % 4);
    ScanWord(b, p, w);
  }

  /** Where the i-th pattern begins, and the seed that selects it. */
  function PatternStart(seed: s16, i: nat): (p: nat) {
    if i == 0 then 0 else PatternStart(seed, i - 1) + |Pattern(PatternSeed(seed, i - 1))| + 1
  }

  function PatternSeed(seed: s16, i: nat): s16 {
    ToS16(seed + 1 + i)
  }

  /** The text still to come when the i-th pattern is next. */
  lemma {:induction false} TextFrom(size: nat, seed: s16, i: nat)
    requires i == 0 || PatternStart(seed, i) + 1 < size
    ensures PatternStart(seed, i) <= |Fill(size, seed, 0)| &&
            Fill(size, seed, 0)[PatternStart(seed, i)..] == Fill(size, ToS16(seed + i), PatternStart(seed, i))
  {
    if i == 0 {
      assert Fill(size, seed, 0)[0..] == Fill(size, seed, 0);
      SeedAgain(seed);
    } else {
      var j: nat := i - 1;
      TextFrom(size, seed, j);
      SeedSteps(seed, j);
      RestOfText(size, Fill(size, seed, 0), ToS16(seed + j), PatternStart(seed, j), PatternStart(seed, i));
    }
  }

  lemma RestOfText(size: nat, all: seq<u8>, seed: s16, p: nat, q: nat)
    requires p <= |all| && all[p..] == Fill(size, seed, p) && q == p + |FirstPattern(seed)| + 1 && q + 1 < size
    ensures q <= |all| && all[q..] == Fill(size, NextSeed(seed), q)
  {
    var pattern := FirstPattern(seed);
    FillStep(size, seed, p, pattern, q);
    assert all[q..] == all[p..][|pattern| + 1..];
  }

  lemma SeedAgain(seed: s16)
    ensures ToS16(seed + 0) == seed
  {
  }

  lemma SeedSteps(seed: s16, j: nat)
    ensures NextSeed(ToS16(seed + j)) == PatternSeed(seed, j) == ToS16(seed + (j + 1))
  {
  }

  /** The initial text, pattern by pattern: as long as they fit, the patterns of the successive seeds stand in
      it, each in front of a comma, and each is scanned as its kind says. */
  lemma TextScans(size: nat, seed: s16, i: nat)
    requires PatternStart(seed, i + 1) + 1 < size
    ensures WordAt(InitialText(size, seed), PatternStart(seed, i), Pattern(PatternSeed(seed, i)))
    ensures var s := ToU16(PatternSeed(seed, i));
            var t := FirstToken(InitialText(size, seed), PatternStart(seed, i));
            t.state == KindState(s % 8, s / 8 % 4) && (t.state != INVALID ==> t.end == PatternStart(seed, i + 1))
  {
    var p, q, pattern := PatternStart(seed, i), PatternStart(seed, i + 1), Pattern(PatternSeed(seed, i));
    var all, b := Fill(size, seed, 0), InitialText(size, seed);
    TextFrom(size, seed, i);
    SeedSteps(seed, i);
    FillStep(size, ToS16(seed + i), p, pattern, q);
    NoSeparators(PatternSeed(seed, i));
    WordInside(all, b, p, pattern);
    PatternScans(b, p, PatternSeed(seed, i));
  }

  lemma WordInside(all: seq<u8>, b: seq<u8>, p: nat, w: seq<u8>)
    requires all <= b && p <= |all| && w + [COMMA] <= all[p..] && COMMA !in w && 0 !in w
    ensures WordAt(b, p, w)
  {
    assert all[p..][..|w|] == w;
    assert all[p..][|w|] == (w + [COMMA])[|w|];
    assert b[p..p + |w|] == all[p..p + |w|] == all[p..][..|w|];
  }

  /** One of the texts meant as scientific numbers is none: its mantissa has no point. */
  lemma PointlessPatternIsInvalid(b: seq<u8>)
    requires Ascii("-87e+832") + [COMMA] <= b
    ensures FirstToken(b, 0).state == INVALID
  {
    var t := Ascii("-87e+832");
    assert b[0] == t[0] == 0x2d && b[1] == t[1] == 0x38 && b[2] == t[2] == 0x37 && b[3] == t[3] == 0x65;
    ScanTurn(b, 0, START, multiset{});
    ScanTurn(b, 1, S1, multiset{} + Bumps(START, b[0]));
    ScanTurn(b, 2, INT, multiset{} + Bumps(START, b[0]) + Bumps(S1, b[1]));
    ScanTurn(b, 3, INT, multiset{} + Bumps(START, b[0]) + Bumps(S1, b[1]) + Bumps(INT, b[2]));
  }

  // ---------- A seed that damages its own text ----------

  /** Byte `j` of the text still to come is `c`. */
  ghost predicate ByteAt(size: nat, seed: s16, total: nat, j: nat, c: u8) {
    forall k {:trigger Look(TEXT, k)} :: Look(TEXT, k) ==>
      j < |Fill(size, seed, total)| && Fill(size, seed, total)[j] == c
  }

  lemma PatternLength(seed: s16, len: nat)
    requires 0 <= seed < 100 && len == (if (seed + 1) % 8 <= 2 then 4 else 8)
    ensures NextSeed(seed) == seed + 1 && |FirstPattern(seed)| == len
  {
  }

  lemma InFirst(size: nat, seed: s16, total: nat, j: nat, pattern: seq<u8>)
    requires pattern == FirstPattern(seed) && j < |pattern| && total + |pattern| + 2 < size
    ensures ByteAt(size, seed, total, j, pattern[j])
  {
    FillStep(size, seed, total, pattern, total + |pattern| + 1);
  }

  /** What follows the first pattern and its comma. */
  lemma BehindFirst(size: nat, seed: s16, total: nat, len: nat, j: nat, c: u8)
    requires 0 <= seed < 100 && len == (if (seed + 1) % 8 <= 2 then 4 else 8) && total + len + 2 < size
    requires ByteAt(size, seed + 1, total + len + 1, j, c)
    ensures ByteAt(size, seed, total, len + 1 + j, c)
  {
    PatternLength(seed, len);
    BehindPattern(size, seed, total, FirstPattern(seed), j, c);
  }

  lemma BehindPattern(size: nat, seed: s16, total: nat, pattern: seq<u8>, j: nat, c: u8)
    requires pattern == FirstPattern(seed) && total + |pattern| + 2 < size
    requires ByteAt(size, NextSeed(seed), total + |pattern| + 1, j, c)
    ensures ByteAt(size, seed, total, |pattern| + 1 + j, c)
  {
    assert Look(TEXT, 0);
    FillStep(size, seed, total, pattern, total + |pattern| + 1);
  }

  lemma Pattern35(seed: s16)
    requires seed == 34
    ensures |FirstPattern(seed)| == 8 && FirstPattern(seed)[3] == 0x35
  {
    PatternLength(seed, 8);
    assert PatternText(3, 0) == "35.54400";
  }

  lemma From32(size: nat, seed: s16)
    requires size >= 100 && seed == 32
    ensures ByteAt(size, seed, 55, 13, 0x35)
  {
    Pattern35(seed + 2);
    InFirst(size, seed + 2, 65, 3, FirstPattern(seed + 2));
    BehindFirst(size, seed + 1, 60, 4, 3, 0x35);
    BehindFirst(size, seed, 55, 4, 8, 0x35);
  }

  lemma From29(size: nat, seed: s16)
    requires size >= 100 && seed == 29
    ensures ByteAt(size, seed, 32, 36, 0x35)
  {
    From32(size, seed + 3);
    BehindFirst(size, seed + 2, 50, 4, 13, 0x35);
    BehindFirst(size, seed + 1, 41, 8, 18, 0x35);
    BehindFirst(size, seed, 32, 8, 27, 0x35);
  }

  lemma From26(size: nat, seed: s16)
    requires size >= 100 && seed == 26
    ensures ByteAt(size, seed, 5, 63, 0x35)
  {
    From29(size, seed + 3);
    BehindFirst(size, seed + 2, 23, 8, 36, 0x35);
    BehindFirst(size, seed + 1, 14, 8, 45, 0x35);
    BehindFirst(size, seed, 5, 8, 54, 0x35);
  }

  /** For seed 25 the tenth pattern, 35.54400, starts at position 65. */
  lemma TextFor25(size: nat, seed: s16)
    requires size >= 100 && seed == 25
    ensures InitialText(size, seed)[68] == 0x35
  {
    From26(size, seed + 1);
    BehindFirst(size, seed, 0, 4, 63, 0x35);
    AtStart(size, seed, 68, 0x35);
  }

  lemma AtStart(size: nat, seed: s16, j: nat, c: u8)
    requires ByteAt(size, seed, 0, j, c)
    ensures j < size && InitialText(size, seed)[j] == c
  {
    assert Look(TEXT, 0);
  }

  lemma XorTo5()
    ensures Xor(0x35, 0x19) == 0x2c
  {
    XorZero(0x01);
    XorStep(0x03, 0x01, 0x01);
    XorStep(0x06, 0x03, 0x02);
    XorStep(0x0d, 0x06, 0x05);
    XorStep(0x1a, 0x0c, 0x0b);
    XorStep(0x35, 0x19, 0x16);
  }

  /** The comment's condition, that the seeds be equal, does not suffice, not even for the text that the
      seed itself selects: with seeds 25 and 25, byte 68 becomes a comma at the smallest stride. */
  lemma EqualSeedsMayDamage(size: nat, seed: s16)
    requires size >= 100 && seed == 25
    ensures InitialText(size, seed)[68] == 0x35 == Xor8(COMMA, seed)
    ensures CorruptedTwice(InitialText(size, seed), seed, seed, 0x22)[68] == COMMA
    ensures CorruptedTwice(InitialText(size, seed), seed, seed, 0x22) != InitialText(size, seed)
  {
    TextFor25(size, seed);
    XorTo5();
    XorInvolutive(0x35, 0x19);
    BackOrComma(InitialText(size, seed), seed, 0x22, 68);
  }
}
