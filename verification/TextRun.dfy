/** What a run does to the text of core_state.c when the low bytes of both seeds are equal: calc_func
    corrupts it and undoes the corruption for every list item it calculates, at the item's own stride. */
module TextRun {
  import opened Words
  import opened Records
  import opened Items
  import opened Sorting
  import opened SortProof
  import opened StateBench
  import opened Scanner

  /** A byte that the corruption turns into a comma, which is never turned back. */
  predicate Bad(s: u8, c: u8) {
    s != 0 && c == Xor8(COMMA, s)
  }

  /** Calculating this item runs the text benchmark, and visits position `j`. */
  predicate Visits(x: Item, j: nat) {
    !Cached(x.data16) && x.data16 % 8 == 0 && j % Stride(x.data16) == 0
  }

  ghost predicate HitsBad<N>(s: u8, items: map<N, Item>, text: seq<u8>, j: nat) {
    j < |text| && Bad(s, text[j]) && exists n :: n in items && Visits(items[n], j)
  }

  /** The text with a comma wherever some item hits a bad byte. */
  ghost function Damaged<N>(s: u8, items: map<N, Item>, text: seq<u8>): (t: seq<u8>)
    ensures |t| == |text|
  {
    seq(|text|, j requires 0 <= j < |text| => if HitsBad(s, items, text, j) then COMMA else text[j])
  }

  lemma BadIsNoComma(s: u8, c: u8)
    requires Bad(s, c)
    ensures c != COMMA
  {
    RestoredSameSeed(COMMA, s);
  }

  /** Damage is done once. */
  lemma DamagedTwice<N>(s: u8, items: map<N, Item>, text: seq<u8>)
    ensures Damaged(s, items, Damaged(s, items, text)) == Damaged(s, items, text)
  {
    var t := Damaged(s, items, text);
    forall j | 0 <= j < |text|
      ensures Damaged(s, items, t)[j] == t[j]
    {
      if HitsBad(s, items, t, j) {
        BadIsNoComma(s, t[j]);
      }
    }
  }

  lemma UndamagedIff<N>(s: u8, items: map<N, Item>, text: seq<u8>)
    ensures Damaged(s, items, text) == text <==> forall j: nat :: !HitsBad(s, items, text, j)
  {
    if Damaged(s, items, text) == text {
      forall j: nat
        ensures !HitsBad(s, items, text, j)
      {
        if HitsBad(s, items, text, j) {
          BadIsNoComma(s, text[j]);
          assert false;
        }
      }
    }
  }

  // ---------- During a sort ----------

  /** Items are as they were or cached; a byte is as it was or as it will be; and as it will be where an
      item that has been calculated visits it. */
  ghost predicate Between<N>(s: u8, items0: map<N, Item>, text0: seq<u8>, items: map<N, Item>, text: seq<u8>) {
    forall k {:trigger Look(TEXT, k)} :: Look(TEXT, k) ==>
      && items.Keys == items0.Keys && |text| == |text0|
      && (forall n :: n in items0 ==> items[n] == items0[n] || Cached(items[n].data16))
      && (forall j :: 0 <= j < |text| ==> text[j] == text0[j] || text[j] == Damaged(s, items0, text0)[j])
      && (forall n, j: nat :: n in items0 && j < |text| && Visits(items0[n], j) && Cached(items[n].data16) ==>
            text[j] == Damaged(s, items0, text0)[j])
  }

  lemma BetweenBegins<N>(s: u8, items: map<N, Item>, text: seq<u8>)
    ensures Between(s, items, text, items, text)
  {
  }

  lemma BetweenEnds<N>(s: u8, items0: map<N, Item>, text0: seq<u8>, items: map<N, Item>, text: seq<u8>)
    requires Between(s, items0, text0, items, text)
    requires forall n :: n in items0 ==> n in items && Cached(items[n].data16)
    ensures text == Damaged(s, items0, text0)
  {
    assert Look(TEXT, 0);
    var t := Damaged(s, items0, text0);
    forall j | 0 <= j < |text|
      ensures text[j] == t[j]
    {
      if HitsBad(s, items0, text0, j) {
        var n :| n in items0 && Visits(items0[n], j);
        assert text[j] == t[j];
      }
    }
  }

  /** One byte, when an item that visits it, or not, is calculated. */
  lemma ByteStep<N>(s: u8, items0: map<N, Item>, text0: seq<u8>, text: seq<u8>, step: nat, j: nat, n: N)
    requires step > 0 && j < |text| == |text0| && n in items0
    requires j % step == 0 ==> Visits(items0[n], j)
    requires text[j] == text0[j] || text[j] == Damaged(s, items0, text0)[j]
    ensures var c := CorruptedTwice(text, s, s, step)[j];
            var d := Damaged(s, items0, text0)[j];
            (c == text0[j] || c == d) && (text[j] == d ==> c == d) && (j % step == 0 ==> c == d)
  {
    BackOrComma(text, s, step, j);
    if Bad(s, text0[j]) {
      BadIsNoComma(s, text0[j]);
    }
    if j % step == 0 {
      assert Bad(s, text0[j]) ==> HitsBad(s, items0, text0, j);
    }
  }

  /** One item is looked at. */
  lemma TouchStep<N>(env: Env, s: u8, items0: map<N, Item>, text0: seq<u8>, items: map<N, Item>, regs: Regs, n: N)
    requires env.seed1 % 0x100 == env.seed2 % 0x100 == s
    requires Between(s, items0, text0, items, regs.text) && n in items
    ensures var x := items[n];
            Between(s, items0, text0, items[n := x.(data16 := CalcData(env, x.data16, regs))],
                    CalcRegs(env, x.data16, regs).text)
  {
    assert Look(TEXT, 0);
    var x := items[n];
    CalcCaches(env, x.data16, regs, regs);
    if Cached(x.data16) {
      assert items[n := x] == items;
    } else if x.data16 % 8 == 0 {
      forall j: nat | j < |text0|
        ensures var c := CorruptedTwice(regs.text, s, s, Stride(x.data16))[j];
                var d := Damaged(s, items0, text0)[j];
                (c == text0[j] || c == d) && (regs.text[j] == d ==> c == d) && (Visits(items0[n], j) ==> c == d)
      {
        ByteStep(s, items0, text0, regs.text, Stride(x.data16), j, n);
      }
    }
  }

  lemma CompareStep<N>(env: Env, s: u8, items0: map<N, Item>, text0: seq<u8>, p: N, q: N, st: State<N>)
    requires env.seed1 % 0x100 == env.seed2 % 0x100 == s && p != q && p in st.items && q in st.items
    requires Between(s, items0, text0, st.items, st.regs.text)
    ensures var st' := Compare(CmpComplex(env), p, q, st);
            Between(s, items0, text0, st'.items, st'.regs.text)
  {
    var x := st.items[p];
    TouchStep(env, s, items0, text0, st.items, st.regs, p);
    TouchStep(env, s, items0, text0, st.items[p := x.(data16 := CalcData(env, x.data16, st.regs))],
              CalcRegs(env, x.data16, st.regs), q);
  }

  lemma {:induction false} MergeStep<N>(env: Env, s: u8, items0: map<N, Item>, text0: seq<u8>, p: seq<N>, q: seq<N>,
                                        st: State<N>)
    requires env.seed1 % 0x100 == env.seed2 % 0x100 == s && Covers(st, p) && Covers(st, q) && Apart(p, q)
    requires Between(s, items0, text0, st.items, st.regs.text)
    ensures var r := Merge(CmpComplex(env), p, q, st);
            Between(s, items0, text0, r.st.items, r.st.regs.text)
    decreases |p| + |q|
  {
    if p != [] && q != [] {
      var cmp := CmpComplex(env);
      var st' := Compare(cmp, p[0], q[0], st);
      assert p[0] in p && q[0] in q;
      CompareStep(env, s, items0, text0, p[0], q[0], st);
      if KeyOf(cmp, p[0], st'.items) <= KeyOf(cmp, q[0], st'.items) {
        MergeStep(env, s, items0, text0, p[1..], q, st');
      } else {
        MergeStep(env, s, items0, text0, p, q[1..], st');
      }
    }
  }

  lemma {:induction false} PassStep<N>(env: Env, s: u8, items0: map<N, Item>, text0: seq<u8>, l: seq<N>, w: nat,
                                       st: State<N>)
    requires env.seed1 % 0x100 == env.seed2 % 0x100 == s && w > 0 && Covers(st, l) && NoRepeats(l)
    requires Between(s, items0, text0, st.items, st.regs.text)
    ensures var r := Pass(CmpComplex(env), l, w, st);
            Between(s, items0, text0, r.st.items, r.st.regs.text)
    decreases |l|
  {
    if l != [] {
      var k, m := Min(w, |l|), Min(2 * w, |l|);
      NoRepeatsSplit(l, k, m);
      MergeStep(env, s, items0, text0, l[..k], l[k..m], st);
      PassStep(env, s, items0, text0, l[m..], w, Merge(CmpComplex(env), l[..k], l[k..m], st).st);
    }
  }

  lemma {:induction false} SortStep<N>(env: Env, s: u8, items0: map<N, Item>, text0: seq<u8>, l: seq<N>, w: nat,
                                       st: State<N>)
    requires env.seed1 % 0x100 == env.seed2 % 0x100 == s && w > 0 && Covers(st, l) && NoRepeats(l)
    requires Between(s, items0, text0, st.items, st.regs.text)
    ensures var r := Sort(CmpComplex(env), l, w, st);
            Between(s, items0, text0, r.st.items, r.st.regs.text)
    decreases |l| - w
  {
    PassStep(env, s, items0, text0, l, w, st);
    if |l| > 2 * w {
      var pass := Pass(CmpComplex(env), l, w, st);
      PassPermutes(CmpComplex(env), l, w, st);
      CoversPermutation(l, st, pass);
      SortStep(env, s, items0, text0, pass.order, 2 * w, pass.st);
    }
  }

  /** The sort by data calculates every item, and so does all the damage there is to do. */
  lemma SortDamages<N>(env: Env, s: u8, l: seq<N>, st: State<N>)
    requires env.seed1 % 0x100 == env.seed2 % 0x100 == s && |l| >= 2 && NoRepeats(l)
    requires Covers(st, l) && forall n :: n in st.items ==> n in l
    ensures Sort(CmpComplex(env), l, 1, st).st.regs.text == Damaged(s, st.items, st.regs.text)
  {
    var r := Sort(CmpComplex(env), l, 1, st);
    BetweenBegins(s, st.items, st.regs.text);
    SortStep(env, s, st.items, st.regs.text, l, 1, st);
    CmpComplexLawful(env);
    SortIsRight(CmpComplex(env), l, st);
    BetweenEnds(s, st.items, st.regs.text, r.st.items, r.st.regs.text);
  }

  /** Once it is done, sorting any part of the list does no more. */
  lemma SortDamagesOnce<N>(env: Env, s: u8, l: seq<N>, st: State<N>)
    requires env.seed1 % 0x100 == env.seed2 % 0x100 == s && NoRepeats(l) && Covers(st, l)
    requires Damaged(s, st.items, st.regs.text) == st.regs.text
    ensures Sort(CmpComplex(env), l, 1, st).st.regs.text == st.regs.text
  {
    BetweenBegins(s, st.items, st.regs.text);
    SortStep(env, s, st.items, st.regs.text, l, 1, st);
    assert Look(TEXT, 0);
  }
}
