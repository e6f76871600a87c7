/** The token scanner of core_state.c: a direct-coded automaton over a NUL-terminated buffer. */
module Scanner {
  import opened Words

  const COMMA: u8 := 0x2c
  const PLUS: u8 := 0x2b
  const MINUS: u8 := 0x2d
  const DOT: u8 := 0x2e
  const UPPER_E: u8 := 0x45
  const LOWER_E: u8 := 0x65

  datatype CoreState = START | INVALID | S1 | S2 | INT | FLOAT | EXPONENT | SCIENTIFIC

  /** The position of a state in the enumeration, which indexes the counters. */
  function Index(state: CoreState): (i: nat)
    ensures i < 8
  {
    match state
    case START => 0
    case INVALID => 1
    case S1 => 2
    case S2 => 3
    case INT => 4
    case FLOAT => 5
    case EXPONENT => 6
    case SCIENTIFIC => 7
  }

  predicate IsDigit(c: u8) {
    0x30 <= c <= 0x39
  }

  predicate IsSign(c: u8) {
    c == PLUS || c == MINUS
  }

  predicate IsE(c: u8) {
    c == UPPER_E || c == LOWER_E
  }

  // ---------- The automaton ----------

  function Next(state: CoreState, c: u8): CoreState {
    match state
    case START => if IsDigit(c) then INT else if IsSign(c) then S1 else if c == DOT then FLOAT else INVALID
    case S1 => if IsDigit(c) then INT else if c == DOT then FLOAT else INVALID
    case INT => if c == DOT then FLOAT else if IsDigit(c) then INT else INVALID
    case FLOAT => if IsE(c) then S2 else if IsDigit(c) then FLOAT else INVALID
    case S2 => if IsSign(c) then EXPONENT else INVALID
    case EXPONENT => if IsDigit(c) then SCIENTIFIC else INVALID
    case SCIENTIFIC => if IsDigit(c) then SCIENTIFIC else INVALID
    case INVALID => INVALID
  }

  /** The counters that the code increments while taking `c` in `state`. */
  function Bumps(state: CoreState, c: u8): multiset<CoreState> {
    var next := Next(state, c);
    match state
    case START => if next == INVALID then multiset{START, INVALID} else multiset{START}
    case SCIENTIFIC => if next == INVALID then multiset{INVALID} else multiset{}
    case INVALID => multiset{}
    case _ => if next == state then multiset{} else multiset{state}
  }

  datatype Token = Token(end: nat, state: CoreState, bumps: multiset<CoreState>)

  /** What one call of the scanner does from position `i`, in a given state of its loop. */
  function Scan(b: seq<u8>, i: nat, state: CoreState, bumps: multiset<CoreState>): (t: Token)
    requires i <= |b|
    ensures i <= t.end <= |b|
    ensures i < |b| && b[i] != 0 && state != INVALID ==> i < t.end
    decreases |b| - i
  {
    if i == |b| || b[i] == 0 || state == INVALID then Token(i, state, bumps)
    else if b[i] == COMMA then Token(i + 1, state, bumps)
    else Scan(b, i + 1, Next(state, b[i]), bumps + Bumps(state, b[i]))
  }

  function FirstToken(b: seq<u8>, i: nat): Token
    requires i <= |b|
  {
    Scan(b, i, START, multiset{})
  }

  /** The tokens that repeated calls find, up to the first NUL. */
  function Tokens(b: seq<u8>, i: nat): (ts: seq<Token>)
    requires i <= |b|
    decreases |b| - i
  {
    if i == |b| || b[i] == 0 then []
    else [FirstToken(b, i)] + Tokens(b, FirstToken(b, i).end)
  }

  ghost predicate HasNul(b: seq<u8>, i: nat) {
    exists k :: i <= k < |b| && b[k] == 0
  }

  /** Scanning never passes a NUL. */
  lemma {:induction false} ScanStops(b: seq<u8>, i: nat, state: CoreState, bumps: multiset<CoreState>, k: nat)
    requires i <= k < |b| && b[k] == 0
    ensures Scan(b, i, state, bumps).end <= k
    decreases |b| - i
  {
    if b[i] != 0 && state != INVALID && b[i] != COMMA {
      ScanStops(b, i + 1, Next(state, b[i]), bumps + Bumps(state, b[i]), k);
    }
  }

  /** The counters advanced by one for every occurrence in `bumps`. */
  ghost predicate Counted(before: seq<nat>, after: seq<nat>, bumps: multiset<CoreState>) {
    |before| == |after| == 8 &&
    forall s {:trigger bumps[s]} :: after[Index(s)] == before[Index(s)] + bumps[s]
  }

  lemma CountedTwice(a: seq<nat>, b: seq<nat>, c: seq<nat>, m: multiset<CoreState>, n: multiset<CoreState>)
    requires Counted(a, b, m) && Counted(b, c, n)
    ensures Counted(a, c, m + n)
  {
  }

  lemma ScanTurn(b: seq<u8>, i: nat, state: CoreState, bumps: multiset<CoreState>)
    requires i < |b| && b[i] != 0 && b[i] != COMMA && state != INVALID
    ensures Scan(b, i, state, bumps) == Scan(b, i + 1, Next(state, b[i]), bumps + Bumps(state, b[i]))
  {
  }

  // ---------- The code ----------

  /** transition_count[s]++ */
  method Increment(counts: array<nat>, s: CoreState)
    requires counts.Length == 8
    modifies counts
    ensures Counted(old(counts[..]), counts[..], multiset{s})
  {
    counts[Index(s)] := counts[Index(s)] + 1;
    IndexInjective(s);
  }

  lemma IndexInjective(s: CoreState)
    ensures forall r {:trigger Index(r)} :: Index(r) == Index(s) ==> r == s
  {
  }

  /** The body of the switch: one symbol taken in one state. */
  method Step(state: CoreState, c: u8, counts: array<nat>) returns (next: CoreState)
    requires counts.Length == 8
    modifies counts
    ensures next == Next(state, c)
    ensures Counted(old(counts[..]), counts[..], Bumps(state, c))
  {
    next := state;
    match state {
      case START =>
        if IsDigit(c) {
          next := INT;
        } else if c == PLUS || c == MINUS {
          next := S1;
        } else if c == DOT {
          next := FLOAT;
        } else {
          next := INVALID;
          Increment(counts, INVALID);
        }
        ghost var between := counts[..];
        Increment(counts, START);
        if next == INVALID {
          CountedTwice(old(counts[..]), between, counts[..], multiset{INVALID}, multiset{START});
        }
      case S1 =>
        if IsDigit(c) {
          next := INT;
          Increment(counts, S1);
        } else if c == DOT {
          next := FLOAT;
          Increment(counts, S1);
        } else {
          next := INVALID;
          Increment(counts, S1);
        }
      case INT =>
        if c == DOT {
          next := FLOAT;
          Increment(counts, INT);
        } else if !IsDigit(c) {
          next := INVALID;
          Increment(counts, INT);
        }
      case FLOAT =>
        if c == UPPER_E || c == LOWER_E {
          next := S2;
          Increment(counts, FLOAT);
        } else if !IsDigit(c) {
          next := INVALID;
          Increment(counts, FLOAT);
        }
      case S2 =>
        if c == PLUS || c == MINUS {
          next := EXPONENT;
          Increment(counts, S2);
        } else {
          next := INVALID;
          Increment(counts, S2);
        }
      case EXPONENT =>
        if IsDigit(c) {
          next := SCIENTIFIC;
          Increment(counts, EXPONENT);
        } else {
          next := INVALID;
          Increment(counts, EXPONENT);
        }
      case SCIENTIFIC =>
        if !IsDigit(c) {
          next := INVALID;
          Increment(counts, INVALID);
        }
      case INVALID =>
    }
  }

  /** The scan from the current position completes `token`, and the counters tell what has been bumped. */
  ghost predicate Scanning(b: seq<u8>, token: Token, first: seq<nat>, counts: seq<nat>, str: nat, state: CoreState,
                           bumps: multiset<CoreState>)
  {
    forall k {:trigger Look(TEXT, k)} :: Look(TEXT, k) ==>
      str <= |b| && Scan(b, str, state, bumps) == token && Counted(first, counts, bumps)
  }

  method TakeSymbol(state: CoreState, c: u8, counts: array<nat>, ghost b: seq<u8>, ghost token: Token,
                    ghost first: seq<nat>, ghost now: seq<nat>, ghost str: nat, ghost bumps: multiset<CoreState>)
    returns (next: CoreState, ghost now': seq<nat>, ghost bumps': multiset<CoreState>)
    requires counts.Length == 8 && counts[..] == now && Scanning(b, token, first, now, str, state, bumps)
    requires str < |b| && c == b[str] && c != 0 && c != COMMA && state != INVALID
    modifies counts
    ensures counts[..] == now' && Scanning(b, token, first, now', str + 1, next, bumps')
  {
    assert Look(TEXT, 0);
    ghost var bump := Bumps(state, c);
    ScanTurn(b, str, state, bumps);
    next := Step(state, c, counts);
    CountedTwice(first, now, counts[..], bumps, bump);
    now', bumps' := counts[..], bumps + bump;
  }

  lemma ScanningEnds(b: seq<u8>, token: Token, first: seq<nat>, counts: seq<nat>, str: nat, state: CoreState,
                     bumps: multiset<CoreState>)
    requires str < |b| && Scanning(b, token, first, counts, str, state, bumps)
    requires b[str] == 0 || state == INVALID || b[str] == COMMA
    ensures Counted(first, counts, token.bumps) && token.state == state
    ensures token.end == if b[str] != 0 && state != INVALID then str + 1 else str
  {
    assert Look(TEXT, 0);
  }

  /** The loop over the symbols of a token. */
  method ScanLoop(mem: array<u8>, instr: nat, counts: array<nat>, ghost b: seq<u8>, ghost token: Token,
                  ghost first: seq<nat>, ghost nul: nat)
    returns (str: nat, state: CoreState)
    requires counts.Length == 8 && mem as object != counts as object && mem[..] == b && counts[..] == first
    requires instr <= nul < |b| && b[nul] == 0 && Scanning(b, token, first, first, instr, START, multiset{})
    modifies counts
    ensures str == token.end && state == token.state && Counted(first, counts[..], token.bumps)
    ensures instr <= str <= nul
  {
    ghost var bumps, now := multiset{}, first;
    str, state := instr, START;
    while mem[str] != 0 && state != INVALID
      invariant instr <= str <= nul && unchanged(mem) && counts[..] == now
      invariant Scanning(b, token, first, now, str, state, bumps)
      decreases nul - str
    {
      var c := mem[str];
      if c == COMMA {
        ScanningEnds(b, token, first, now, str, state, bumps);
        str := str + 1;
        return;
      }
      state, now, bumps := TakeSymbol(state, c, counts, b, token, first, now, str, bumps);
      str := str + 1;
    }
    ScanningEnds(b, token, first, now, str, state, bumps);
  }

  method CoreStateTransition(mem: array<u8>, instr: nat, counts: array<nat>) returns (str: nat, state: CoreState)
    requires counts.Length == 8 && mem as object != counts as object
    requires HasNul(mem[..], instr)
    modifies counts
    ensures mem[..] == old(mem[..])
    ensures str == FirstToken(mem[..], instr).end
    ensures state == FirstToken(mem[..], instr).state
    ensures Counted(old(counts[..]), counts[..], FirstToken(mem[..], instr).bumps)
    ensures HasNul(mem[..], str)
  {
    ghost var b, first, token := mem[..], counts[..], FirstToken(mem[..], instr);
    ghost var nul :| instr <= nul < |b| && b[nul] == 0;
    str, state := ScanLoop(mem, instr, counts, b, token, first, nul);
    assert mem[..] == b;
  }
}
