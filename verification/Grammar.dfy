/** What the scanner's states mean: the grammar of numbers behind the automaton, and the accounting
    identities between its two sets of counters. */
module Grammar {
  import opened Words
  import opened Scanner

  // ---------- The grammar ----------

  predicate AllDigits(s: seq<u8>) {
    forall i :: 0 <= i < |s| ==> IsDigit(s[i])
  }

  function Unsigned(s: seq<u8>): seq<u8> {
    if s != [] && IsSign(s[0]) then s[1..] else s
  }

  function Init(s: seq<u8>): seq<u8>
    requires s != []
  {
    s[..|s| - 1]
  }

  function Last(s: seq<u8>): u8
    requires s != []
  {
    s[|s| - 1]
  }

  /** An optional sign, then at least one digit. */
  predicate Integer(s: seq<u8>) {
    Unsigned(s) != [] && AllDigits(Unsigned(s))
  }

  /** An optional sign, then digits around a single point. */
  predicate Decimal(s: seq<u8>) {
    var t := Unsigned(s);
    exists k :: 0 <= k < |t| && t[k] == DOT && AllDigits(t[..k]) && AllDigits(t[k + 1..])
  }

  predicate Exponential(s: seq<u8>) {
    s != [] && IsE(Last(s)) && Decimal(Init(s))
  }

  predicate SignedExponential(s: seq<u8>) {
    s != [] && IsSign(Last(s)) && Exponential(Init(s))
  }

  /** A decimal, an E, a sign, then at least one digit. */
  predicate Scientific(s: seq<u8>) {
    exists k :: 0 <= k < |s| && SignedExponential(s[..k]) && AllDigits(s[k..])
  }

  /** The strings that end in each of the states other than INVALID. */
  predicate Accepts(state: CoreState, s: seq<u8>) {
    match state
    case START => s == []
    case S1 => |s| == 1 && IsSign(s[0])
    case INT => Integer(s)
    case FLOAT => Decimal(s)
    case S2 => Exponential(s)
    case EXPONENT => SignedExponential(s)
    case SCIENTIFIC => Scientific(s)
    case INVALID => false
  }

  /** Some scientific number begins with `s`. */
  ghost predicate Viable(s: seq<u8>) {
    exists t :: Scientific(s + t)
  }

  function Run(s: seq<u8>): CoreState {
    if s == [] then START else Next(Run(Init(s)), Last(s))
  }

  // ---------- The automaton decides the grammar ----------

  lemma DigitsExtend(t: seq<u8>, c: u8)
    ensures AllDigits(t + [c]) <==> AllDigits(t) && IsDigit(c)
  {
    var s := t + [c];
    assert s[|t|] == c;
    assert forall i | 0 <= i < |t| :: s[i] == t[i];
  }

  lemma IntegerExtends(t: seq<u8>, c: u8)
    ensures Integer(t + [c]) <==> IsDigit(c) && (t == [] || (|t| == 1 && IsSign(t[0])) || Integer(t))
  {
    var s := t + [c];
    if t == [] {
      assert s[0] == c;
      assert Unsigned(s) == if IsSign(c) then [] else [c];
    } else {
      assert Unsigned(s) == Unsigned(t) + [c];
    }
    DigitsExtend(Unsigned(t), c);
  }

  predicate PointAt(t: seq<u8>, k: nat) {
    k < |t| && t[k] == DOT && AllDigits(t[..k]) && AllDigits(t[k + 1..])
  }

  lemma DecimalIsPoint(s: seq<u8>)
    ensures Decimal(s) <==> exists k: nat :: PointAt(Unsigned(s), k)
  {
    var t := Unsigned(s);
    if Decimal(s) {
      var k :| 0 <= k < |t| && t[k] == DOT && AllDigits(t[..k]) && AllDigits(t[k + 1..]);
      assert PointAt(t, k);
    }
  }

  lemma PointExtends(t: seq<u8>, c: u8, k: nat)
    ensures PointAt(t + [c], k) <==> (k == |t| && c == DOT && AllDigits(t)) || (IsDigit(c) && PointAt(t, k))
  {
    var s := t + [c];
    if k < |t| {
      assert s[..k] == t[..k];
      assert s[k + 1..] == t[k + 1..] + [c];
      DigitsExtend(t[k + 1..], c);
    } else if k == |t| {
      assert s[..k] == t;
      assert s[k + 1..] == [];
    }
  }

  lemma DecimalExtends(t: seq<u8>, c: u8)
    ensures Decimal(t + [c]) <==>
            (c == DOT && (t == [] || (|t| == 1 && IsSign(t[0])) || Integer(t))) || (IsDigit(c) && Decimal(t))
  {
    var u, v := Unsigned(t), Unsigned(t + [c]);
    DecimalIsPoint(t);
    DecimalIsPoint(t + [c]);
    if t == [] && IsSign(c) {
      assert v == [];
      assert !PointAt(v, 0);
    } else {
      assert v == u + [c];
      forall k: nat
        ensures PointAt(v, k) <==> (k == |u| && c == DOT && AllDigits(u)) || (IsDigit(c) && PointAt(u, k))
      {
        PointExtends(u, c, k);
      }
      if c == DOT && AllDigits(u) {
        assert PointAt(v, |u|);
      }
      if IsDigit(c) && Decimal(t) {
        var k: nat :| PointAt(u, k);
        assert PointAt(v, k);
      }
    }
  }

  predicate SplitAt(s: seq<u8>, k: nat) {
    k < |s| && SignedExponential(s[..k]) && AllDigits(s[k..])
  }

  lemma ScientificIsSplit(s: seq<u8>)
    ensures Scientific(s) <==> exists k: nat :: SplitAt(s, k)
  {
    if Scientific(s) {
      var k :| 0 <= k < |s| && SignedExponential(s[..k]) && AllDigits(s[k..]);
      assert SplitAt(s, k);
    }
  }

  lemma SplitExtends(t: seq<u8>, c: u8, k: nat)
    ensures SplitAt(t + [c], k) <==> IsDigit(c) && ((k == |t| && SignedExponential(t)) || SplitAt(t, k))
  {
    var s := t + [c];
    if k < |t| {
      assert s[..k] == t[..k];
      assert s[k..] == t[k..] + [c];
      DigitsExtend(t[k..], c);
    } else if k == |t| {
      assert s[..k] == t;
      assert s[k..] == [] + [c];
      DigitsExtend([], c);
    }
  }

  lemma ScientificExtends(t: seq<u8>, c: u8)
    ensures Scientific(t + [c]) <==> IsDigit(c) && (SignedExponential(t) || Scientific(t))
  {
    ScientificIsSplit(t);
    ScientificIsSplit(t + [c]);
    forall k: nat
      ensures SplitAt(t + [c], k) <==> IsDigit(c) && ((k == |t| && SignedExponential(t)) || SplitAt(t, k))
    {
      SplitExtends(t, c, k);
    }
    if IsDigit(c) && SignedExponential(t) {
      assert SplitAt(t + [c], |t|);
    }
    if IsDigit(c) && Scientific(t) {
      var k: nat :| SplitAt(t, k);
      assert SplitAt(t + [c], k);
    }
  }

  /** The language of each state, from the languages of the states before it. */
  lemma AcceptsExtends(t: seq<u8>, c: u8, state: CoreState)
    requires state != INVALID
    ensures Accepts(state, t + [c]) <==> exists p :: Next(p, c) == state && Accepts(p, t)
  {
    var s := t + [c];
    assert Init(s) == t && Last(s) == c;
    match state {
      case START =>
      case S1 =>
        assert Accepts(S1, s) <==> Next(START, c) == S1 && Accepts(START, t);
      case INT =>
        IntegerExtends(t, c);
        assert IsDigit(c) ==> Next(START, c) == Next(S1, c) == Next(INT, c) == INT;
      case FLOAT =>
        DecimalExtends(t, c);
        assert c == DOT ==> Next(START, c) == Next(S1, c) == Next(INT, c) == FLOAT;
        assert IsDigit(c) ==> Next(FLOAT, c) == FLOAT;
      case S2 =>
        assert IsE(c) ==> Next(FLOAT, c) == S2;
      case EXPONENT =>
        assert IsSign(c) ==> Next(S2, c) == EXPONENT;
      case SCIENTIFIC =>
        ScientificExtends(t, c);
        assert IsDigit(c) ==> Next(EXPONENT, c) == Next(SCIENTIFIC, c) == SCIENTIFIC;
    }
  }

  /** The automaton is in a state other than INVALID exactly after the strings of that state. */
  lemma {:induction false} RunDecides(s: seq<u8>, state: CoreState)
    requires state != INVALID
    ensures Run(s) == state <==> Accepts(state, s)
  {
    if s == [] {
      EmptyAccepted(state);
    } else {
      var t, c := Init(s), Last(s);
      assert s == t + [c];
      AcceptsExtends(t, c, state);
      forall p | p != INVALID
        ensures Run(t) == p <==> Accepts(p, t)
      {
        RunDecides(t, p);
      }
    }
  }

  lemma EmptyAccepted(state: CoreState)
    ensures Accepts(state, []) <==> state == START
  {
  }

  // ---------- Viability ----------

  lemma {:induction false} RunSticks(s: seq<u8>, t: seq<u8>)
    requires Run(s) == INVALID
    ensures Run(s + t) == INVALID
  {
    if t == [] {
      assert s + t == s;
    } else {
      assert Init(s + t) == s + Init(t);
      RunSticks(s, Init(t));
    }
  }

  /** A shortest way from each state to a scientific number: ".e+1" or an end of it. */
  function Completion(state: CoreState): seq<u8> {
    match state
    case START => [DOT, LOWER_E, PLUS, 0x31]
    case S1 => [DOT, LOWER_E, PLUS, 0x31]
    case INT => [DOT, LOWER_E, PLUS, 0x31]
    case FLOAT => [LOWER_E, PLUS, 0x31]
    case S2 => [PLUS, 0x31]
    case EXPONENT => [0x31]
    case SCIENTIFIC => []
    case INVALID => []
  }

  lemma RunOne(s: seq<u8>, c: u8)
    ensures Run(s + [c]) == Next(Run(s), c)
  {
    assert Init(s + [c]) == s;
  }

  lemma {:induction false} Completes(s: seq<u8>, state: CoreState)
    requires Run(s) == state && state != INVALID
    ensures Run(s + Completion(state)) == SCIENTIFIC
    decreases |Completion(state)|
  {
    if state == SCIENTIFIC {
      assert s + [] == s;
    } else {
      var c, rest := Completion(state)[0], Completion(state)[1..];
      RunOne(s, c);
      assert Completion(Next(state, c)) == rest;
      Completes(s + [c], Next(state, c));
      assert s + Completion(state) == (s + [c]) + rest;
    }
  }

  lemma RunIsViable(s: seq<u8>)
    ensures Run(s) != INVALID <==> Viable(s)
  {
    if Run(s) != INVALID {
      var t := Completion(Run(s));
      Completes(s, Run(s));
      RunDecides(s + t, SCIENTIFIC);
      assert Scientific(s + t);
    }
    if Viable(s) {
      var t :| Scientific(s + t);
      RunDecides(s + t, SCIENTIFIC);
      if Run(s) == INVALID {
        RunSticks(s, t);
      }
    }
  }

  /** A number with an exponent always has a point, so an integer mantissa is refused. */
  lemma ScientificHasPoint(s: seq<u8>)
    requires Scientific(s)
    ensures DOT in s
  {
    var k :| 0 <= k < |s| && SignedExponential(s[..k]) && AllDigits(s[k..]);
    var m := Init(Init(s[..k]));
    var t := Unsigned(m);
    var p :| 0 <= p < |t| && t[p] == DOT && AllDigits(t[..p]) && AllDigits(t[p + 1..]);
    assert t[p] in m;
    assert forall c | c in m :: c in s[..k];
    assert forall c | c in s[..k] :: c in s;
  }

  // ---------- What one call of the scanner finds ----------

  /** `t` is a token of `b` with text `b[i..j]`, in terms of the grammar alone: a number that ends
      before a comma (which is consumed) or a NUL (which is not), or else the shortest text with
      which no scientific number begins. */
  ghost predicate Spans(b: seq<u8>, i: nat, j: nat, t: Token) {
    i <= j <= |b| && COMMA !in b[i..j] && 0 !in b[i..j] &&
    if t.state == INVALID then
      t.end == j && i < j && !Viable(b[i..j]) && Viable(b[i..j - 1])
    else
      Accepts(t.state, b[i..j]) &&
      if j < |b| && b[j] == COMMA then t.end == j + 1 else t.end == j && (j == |b| || b[j] == 0)
  }

  // ---------- What the counters of a token say ----------

  /** The order in which states follow each other. */
  function Stage(state: CoreState): nat {
    match state
    case START => 0
    case S1 => 1
    case INT => 2
    case FLOAT => 3
    case S2 => 4
    case EXPONENT => 5
    case SCIENTIFIC => 6
    case INVALID => 7
  }

  lemma NextStage(state: CoreState, c: u8)
    ensures Next(state, c) == state || Stage(Next(state, c)) > Stage(state)
  {
  }

  lemma {:induction false} PrefixStage(w: seq<u8>, k: nat)
    requires k <= |w|
    ensures Run(w[..k]) == Run(w) || Stage(Run(w[..k])) < Stage(Run(w))
    decreases |w|
  {
    if k == |w| {
      assert w[..k] == w;
    } else {
      assert Init(w)[..k] == w[..k];
      PrefixStage(Init(w), k);
      NextStage(Run(Init(w)), Last(w));
    }
  }

  /** The automaton was in the state before the end of `w`. */
  ghost predicate WasIn(w: seq<u8>, state: CoreState) {
    exists k: nat :: k < |w| && Run(w[..k]) == state
  }

  /** It was, and is in it no more. */
  ghost predicate Left(w: seq<u8>, state: CoreState) {
    Run(w) != state && WasIn(w, state)
  }

  lemma WasInNext(w: seq<u8>, c: u8, state: CoreState)
    ensures WasIn(w + [c], state) <==> WasIn(w, state) || Run(w) == state
  {
    var v := w + [c];
    assert v[..|w|] == w;
    if WasIn(w, state) {
      var k: nat :| k < |w| && Run(w[..k]) == state;
      assert v[..k] == w[..k];
    }
    if WasIn(v, state) && Run(w) != state {
      var k: nat :| k < |v| && Run(v[..k]) == state;
      assert v[..k] == w[..k];
    }
  }

  lemma LeftStage(w: seq<u8>, state: CoreState)
    requires Left(w, state)
    ensures Stage(state) < Stage(Run(w))
  {
    var k: nat :| k < |w| && Run(w[..k]) == state;
    PrefixStage(w, k);
  }

  lemma LeftNext(w: seq<u8>, c: u8, state: CoreState)
    ensures Left(w + [c], state) <==> (Left(w, state) || Run(w) == state) && Next(Run(w), c) != state
    ensures Left(w, state) ==> Next(Run(w), c) != state
  {
    RunOne(w, c);
    NextStage(Run(w), c);
    WasInNext(w, c, state);
    if Left(w, state) {
      LeftStage(w, state);
    }
  }

  /** Only the first byte, or the byte behind a scientific number, counts as invalid. */
  predicate SuddenlyInvalid(w: seq<u8>) {
    w != [] && Run(w) == INVALID && (Run(Init(w)) == START || Run(Init(w)) == SCIENTIFIC)
  }

  /** How often the automaton increments each counter while it reads `w`. */
  ghost predicate Counts(w: seq<u8>, bumps: multiset<CoreState>) {
    forall n {:trigger Look(PASS, n)} :: Look(PASS, n) ==> forall s {:trigger bumps[s]} ::
      bumps[s] == if s == SCIENTIFIC then 0
                  else if s == INVALID then if SuddenlyInvalid(w) then 1 else 0
                  else if Left(w, s) then 1 else 0
  }

  lemma CountsNext(w: seq<u8>, c: u8, bumps: multiset<CoreState>)
    requires Counts(w, bumps) && Run(w) != INVALID
    ensures Counts(w + [c], bumps + Bumps(Run(w), c))
  {
    assert Look(PASS, 0);
    RunOne(w, c);
    assert Init(w + [c]) == w;
    forall s
      ensures (bumps + Bumps(Run(w), c))[s] == if s == SCIENTIFIC then 0
                else if s == INVALID then if SuddenlyInvalid(w + [c]) then 1 else 0
                else if Left(w + [c], s) then 1 else 0
    {
      LeftNext(w, c, s);
    }
  }

  /** In terms of the grammar alone: each counter says whether a beginning of the text, but not all of it,
      belongs to the state; but a scientific number that turns out invalid counts as invalid, and so does a
      text that is invalid from its first byte. */
  ghost predicate CountsText(w: seq<u8>, t: Token) {
    && (forall s :: s != SCIENTIFIC && s != INVALID ==>
          t.bumps[s] == if t.state != s && exists k: nat :: k < |w| && Accepts(s, w[..k]) then 1 else 0)
    && t.bumps[SCIENTIFIC] == 0
    && t.bumps[INVALID] == if t.state == INVALID && (|w| == 1 || (|w| > 1 && Scientific(Init(w)))) then 1 else 0
  }

  lemma CountsInGrammar(w: seq<u8>, t: Token)
    requires Counts(w, t.bumps) && Run(w) == t.state && (t.state == INVALID ==> w != [])
    ensures CountsText(w, t)
  {
    assert Look(PASS, 0);
    forall s | s != SCIENTIFIC && s != INVALID
      ensures t.bumps[s] == if t.state != s && exists k: nat :: k < |w| && Accepts(s, w[..k]) then 1 else 0
    {
      forall k: nat | k < |w|
        ensures Run(w[..k]) == s <==> Accepts(s, w[..k])
      {
        RunDecides(w[..k], s);
      }
    }
    if w != [] {
      RunDecides(Init(w), START);
      RunDecides(Init(w), SCIENTIFIC);
    }
  }

  /** Every token the scanner finds is one the grammar describes, and so are its counters. */
  lemma TokenMeaning(b: seq<u8>, i: nat) returns (j: nat)
    requires i <= |b|
    ensures Spans(b, i, j, FirstToken(b, i)) && CountsText(b[i..j], FirstToken(b, i))
  {
    assert b[i..i] == [];
    j := ScanMeaning(b, i, i, START, multiset{}, FirstToken(b, i));
    assert Look(TEXT, 0);
  }

  /** The scan that began at `i` is at `k` in `state`, having incremented `bumps`. */
  ghost predicate Reached(b: seq<u8>, i: nat, k: nat, state: CoreState, bumps: multiset<CoreState>) {
    forall n {:trigger Look(TEXT, n)} :: Look(TEXT, n) ==>
      && i <= k <= |b| && COMMA !in b[i..k] && 0 !in b[i..k] && state == Run(b[i..k]) && Counts(b[i..k], bumps)
      && (state == INVALID ==> i < k && Run(b[i..k - 1]) != INVALID)
  }

  ghost predicate Described(b: seq<u8>, i: nat, j: nat, t: Token) {
    forall n {:trigger Look(TEXT, n)} :: Look(TEXT, n) ==> Spans(b, i, j, t) && CountsText(b[i..j], t)
  }

  lemma {:induction false} ScanMeaning(b: seq<u8>, i: nat, k: nat, state: CoreState, bumps: multiset<CoreState>,
                                       t: Token)
    returns (j: nat)
    requires k <= |b| && Reached(b, i, k, state, bumps) && t == Scan(b, k, state, bumps)
    ensures Described(b, i, j, t)
    decreases |b| - k
  {
    if state == INVALID || k == |b| || b[k] == 0 || b[k] == COMMA {
      j := k;
      ScanEnds(b, i, k, state, bumps);
    } else {
      ReachedNext(b, i, k, state, bumps);
      ScanTurn(b, k, state, bumps);
      j := ScanMeaning(b, i, k + 1, Next(state, b[k]), bumps + Bumps(state, b[k]), t);
    }
  }

  lemma ReachedNext(b: seq<u8>, i: nat, k: nat, state: CoreState, bumps: multiset<CoreState>)
    requires Reached(b, i, k, state, bumps) && k < |b| && b[k] != 0 && b[k] != COMMA && state != INVALID
    ensures Reached(b, i, k + 1, Next(state, b[k]), bumps + Bumps(state, b[k]))
  {
    assert Look(TEXT, 0);
    assert b[i..k + 1] == b[i..k] + [b[k]];
    assert b[i..k + 1 - 1] == b[i..k];
    RunOne(b[i..k], b[k]);
    CountsNext(b[i..k], b[k], bumps);
  }

  lemma ScanEnds(b: seq<u8>, i: nat, k: nat, state: CoreState, bumps: multiset<CoreState>)
    requires Reached(b, i, k, state, bumps) && k <= |b|
    requires state == INVALID || k == |b| || b[k] == 0 || b[k] == COMMA
    ensures Described(b, i, k, Scan(b, k, state, bumps))
  {
    assert Look(TEXT, 0);
    CountsInGrammar(b[i..k], Scan(b, k, state, bumps));
    if state == INVALID {
      RunIsViable(b[i..k]);
      RunIsViable(b[i..k - 1]);
    } else {
      RunDecides(b[i..k], state);
    }
  }

  // ---------- Accounting ----------

  function Track(ts: seq<Token>): multiset<CoreState> {
    if ts == [] then multiset{} else ts[0].bumps + Track(ts[1..])
  }

  function Finals(ts: seq<Token>): multiset<CoreState> {
    if ts == [] then multiset{} else multiset{ts[0].state} + Finals(ts[1..])
  }

  /** How the counters of transitions relate to those of final states. */
  ghost predicate Balanced(track: multiset<CoreState>, finals: multiset<CoreState>, total: nat) {
    && |finals| == total
    && track[START] + finals[START] == total
    && track[SCIENTIFIC] == 0
    && track[S1] + finals[S1] <= track[START]
    && track[S2] + finals[S2] <= track[FLOAT]
    && track[EXPONENT] + finals[EXPONENT] <= track[S2]
    && finals[SCIENTIFIC] <= track[EXPONENT]
    && track[INVALID] <= finals[INVALID]
    && finals[S1] + finals[INT] + track[FLOAT] + finals[FLOAT] <= track[START]
  }

  lemma BalancedSum(t1: multiset<CoreState>, f1: multiset<CoreState>, n1: nat,
                    t2: multiset<CoreState>, f2: multiset<CoreState>, n2: nat)
    requires Balanced(t1, f1, n1) && Balanced(t2, f2, n2)
    ensures Balanced(t1 + t2, f1 + f2, n1 + n2)
  {
  }

  lemma BalancedStep(state: CoreState, c: u8, bumps: multiset<CoreState>)
    requires Balanced(bumps, multiset{state}, 1) && state != INVALID
    ensures Balanced(bumps + Bumps(state, c), multiset{Next(state, c)}, 1)
  {
  }

  lemma {:induction false} ScanBalanced(b: seq<u8>, i: nat, state: CoreState, bumps: multiset<CoreState>)
    requires i <= |b|
    requires Balanced(bumps, multiset{state}, 1)
    ensures var t := Scan(b, i, state, bumps); Balanced(t.bumps, multiset{t.state}, 1)
    decreases |b| - i
  {
    if i < |b| && b[i] != 0 && state != INVALID && b[i] != COMMA {
      BalancedStep(state, b[i], bumps);
      ScanBalanced(b, i + 1, Next(state, b[i]), bumps + Bumps(state, b[i]));
    }
  }

  /** The counters balance over every text. */
  lemma {:induction false} TokensBalanced(b: seq<u8>, i: nat)
    requires i <= |b|
    ensures var ts := Tokens(b, i); Balanced(Track(ts), Finals(ts), |ts|)
    decreases |b| - i
  {
    if i < |b| && b[i] != 0 {
      var t := FirstToken(b, i);
      ScanBalanced(b, i, START, multiset{});
      TokensBalanced(b, t.end);
      var rest := Tokens(b, t.end);
      assert Tokens(b, i) == [t] + rest;
      BalancedSum(t.bumps, multiset{t.state}, 1, Track(rest), Finals(rest), |rest|);
    }
  }

  lemma FirstTokenInside(b: seq<u8>, i: nat, nul: nat)
    requires i < nul < |b| && b[nul] == 0 && 0 !in b[i..nul]
    ensures b[i] != 0 && i < FirstToken(b, i).end <= nul && 0 !in b[FirstToken(b, i).end..nul]
  {
    assert b[i] in b[i..nul];
    ScanStops(b, i, START, multiset{}, nul);
    assert forall k | FirstToken(b, i).end <= k < nul :: b[k] in b[i..nul];
  }

  /** The tokens cover the text up to its first NUL without gaps: each begins where the one before it
      ends, and the last ends at the NUL. */
  lemma {:induction false} TokensPartition(b: seq<u8>, i: nat, nul: nat)
    requires i <= nul < |b| && b[nul] == 0 && 0 !in b[i..nul]
    ensures var ts := Tokens(b, i);
            (ts == [] <==> i == nul) &&
            (ts != [] ==> ts[|ts| - 1].end == nul) &&
            forall k | 0 <= k < |ts| ::
              var from := if k == 0 then i else ts[k - 1].end;
              i <= from < ts[k].end <= nul && ts[k] == FirstToken(b, from)
    decreases nul - i
  {
    if i < nul {
      var t, ts := FirstToken(b, i), Tokens(b, i);
      FirstTokenInside(b, i, nul);
      TokensPartition(b, t.end, nul);
      var rest := Tokens(b, t.end);
      assert ts == [t] + rest;
      forall k | 0 <= k < |ts|
        ensures var from := if k == 0 then i else ts[k - 1].end;
                i <= from < ts[k].end <= nul && ts[k] == FirstToken(b, from)
      {
        if k > 0 {
          assert ts[k] == rest[k - 1];
        }
      }
    }
  }
}
