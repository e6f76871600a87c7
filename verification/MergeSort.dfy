/** core_list_mergesort of core_list_join.c, in place on the heap, against the function `Sort`.  The methods
    keep the locals of the C function; what the proof needs besides is bundled in a `View` and in `Runs`. */
module MergeSort {
  import opened Words
  import opened Records
  import opened Items
  import opened Sorting
  import opened SortProof
  import opened Results
  import opened LinkedList

  // ---------- The shape of the heap inside a pass ----------

  /** Everything merged so far is `done`, with `list` and `tail` at its ends; `p` and `q` start what is
      left of the first run and of the rest of the list. */
  ghost predicate Shape(nodes: set<ListHead>, done: seq<ListHead>, p: seq<ListHead>, r: seq<ListHead>,
                        list: ListHead?, tail: ListHead?, pp: ListHead?, q: ListHead?)
    reads done, p, r
  {
    && NoRepeats(done) && NoRepeats(p) && NoRepeats(r) && Apart(done, p) && Apart(done, r) && Apart(p, r)
    && (forall n :: n in done ==> n in nodes) && (forall n :: n in p ==> n in nodes)
    && (forall n :: n in r ==> n in nodes)
    && Linked(done) && Linked(p) && Chain(q, r)
    && (if done == [] then tail == null else tail == done[|done| - 1] && list == done[0])
    && (p != [] ==> pp == p[0])
  }

  /** Put `e` behind the merged list. */
  method Link(list: ListHead?, tail: ListHead?, e: ListHead, ghost done: seq<ListHead>)
    returns (list': ListHead?, tail': ListHead?)
    requires Linked(done) && NoRepeats(done) && e !in done
    requires if done == [] then tail == null else tail == done[|done| - 1] && list == done[0]
    modifies done`next
    ensures forall n :: n in done && n != tail ==> n.next == old(n.next)
    ensures tail != null ==> tail.next == e
    ensures Linked(done + [e]) && tail' == e && list' == (done + [e])[0]
  {
    list' := list;
    if tail != null {
      tail.next := e;
    } else {
      list' := e;
    }
    tail' := e;
  }

  method TakeFromP(list: ListHead?, tail: ListHead?, pp: ListHead, q: ListHead?, ghost nodes: set<ListHead>,
                   ghost done: seq<ListHead>, ghost p: seq<ListHead>, ghost r: seq<ListHead>)
    returns (list': ListHead?, tail': ListHead?, pp': ListHead?)
    requires Shape(nodes, done, p, r, list, tail, pp, q) && p != []
    modifies done`next
    ensures Shape(nodes, done + [p[0]], p[1..], r, list', tail', pp', q)
  {
    assert pp == p[0] && pp in p;
    assert forall i :: 0 <= i < |p| ==> p[i] in p && p[i] !in done;
    assert forall i :: 0 <= i < |r| ==> r[i] in r && r[i] !in done;
    pp' := pp.next;
    list', tail' := Link(list, tail, pp, done);
    assert forall n :: n in p[1..] ==> n in p;
  }

  method TakeFromQ(list: ListHead?, tail: ListHead?, pp: ListHead?, q: ListHead, ghost nodes: set<ListHead>,
                   ghost done: seq<ListHead>, ghost p: seq<ListHead>, ghost r: seq<ListHead>)
    returns (list': ListHead?, tail': ListHead?, q': ListHead?)
    requires Shape(nodes, done, p, r, list, tail, pp, q) && r != []
    modifies done`next
    ensures Shape(nodes, done + [r[0]], p, r[1..], list', tail', pp, q')
  {
    assert q == r[0] && q in r;
    assert forall i :: 0 <= i < |p| ==> p[i] in p && p[i] !in done;
    assert forall i :: 0 <= i < |r| ==> r[i] in r && r[i] !in done;
    q' := q.next;
    list', tail' := Link(list, tail, q, done);
    assert forall n :: n in r[1..] ==> n in r;
  }

  /** What a pass has merged so far, what is left of the first run, the rest of the list, and the state. */
  datatype Runs = Runs(done: seq<ListHead>, p: seq<ListHead>, r: seq<ListHead>, st: State<ListHead>)

  function TookP(g: Runs): Runs
    requires g.p != []
  {
    Runs(g.done + [g.p[0]], g.p[1..], g.r, g.st)
  }

  function TookQ(g: Runs): Runs
    requires g.r != []
  {
    Runs(g.done + [g.r[0]], g.p, g.r[1..], g.st)
  }

  /** The heap inside a pass: the blocks, the records, and the links. */
  ghost predicate Held(cmp: ListCmp, res: CoreResults?, v: View, g: Runs,
                       list: ListHead?, tail: ListHead?, pp: ListHead?, q: ListHead?)
    reads if res == null then {} else {res as object, res.memblock3, res.mat.a, res.mat.b}
    reads v.nodes, v.datas, g.done, g.p, g.r, set n | n in v.nodes :: n.info
  {
    forall k {:trigger Look(HEAP, k)} :: Look(HEAP, k) ==>
      && Serves(cmp, res, v.c, v.env) && Holds(v.nodes, v.datas, g.st, res)
      && Shape(v.nodes, g.done, g.p, g.r, list, tail, pp, q)
  }

  lemma HeldParts(cmp: ListCmp, res: CoreResults?, v: View, g: Runs,
                  list: ListHead?, tail: ListHead?, pp: ListHead?, q: ListHead?)
    requires Held(cmp, res, v, g, list, tail, pp, q)
    ensures Serves(cmp, res, v.c, v.env) && Holds(v.nodes, v.datas, g.st, res)
    ensures Shape(v.nodes, g.done, g.p, g.r, list, tail, pp, q)
  {
    assert Look(HEAP, 0);
  }

  lemma HeldIs(cmp: ListCmp, res: CoreResults?, v: View, g: Runs,
               list: ListHead?, tail: ListHead?, pp: ListHead?, q: ListHead?)
    requires Serves(cmp, res, v.c, v.env) && Holds(v.nodes, v.datas, g.st, res)
    requires Shape(v.nodes, g.done, g.p, g.r, list, tail, pp, q)
    ensures Held(cmp, res, v, g, list, tail, pp, q)
  {
  }

  /** Linking touches neither the records nor the blocks of the results structure. */
  method LinkP(list: ListHead?, tail: ListHead?, pp: ListHead, q: ListHead?,
               ghost cmp: ListCmp, ghost res: CoreResults?, ghost v: View, ghost g: Runs)
    returns (list': ListHead?, tail': ListHead?, pp': ListHead?)
    requires Serves(cmp, res, v.c, v.env) && Holds(v.nodes, v.datas, g.st, res)
    requires Shape(v.nodes, g.done, g.p, g.r, list, tail, pp, q) && g.p != []
    modifies v.nodes`next
    ensures Serves(cmp, res, v.c, v.env) && Holds(v.nodes, v.datas, g.st, res)
    ensures Shape(v.nodes, g.done + [g.p[0]], g.p[1..], g.r, list', tail', pp', q)
  {
    list', tail', pp' := TakeFromP(list, tail, pp, q, v.nodes, g.done, g.p, g.r);
  }

  method AdvanceP(list: ListHead?, tail: ListHead?, pp: ListHead, q: ListHead?,
                  ghost cmp: ListCmp, ghost res: CoreResults?, ghost v: View, ghost g: Runs)
    returns (list': ListHead?, tail': ListHead?, pp': ListHead?)
    requires Held(cmp, res, v, g, list, tail, pp, q) && g.p != []
    modifies v.nodes`next
    ensures Held(cmp, res, v, TookP(g), list', tail', pp', q)
  {
    HeldParts(cmp, res, v, g, list, tail, pp, q);
    list', tail', pp' := LinkP(list, tail, pp, q, cmp, res, v, g);
    HeldIs(cmp, res, v, TookP(g), list', tail', pp', q);
  }

  method LinkQ(list: ListHead?, tail: ListHead?, pp: ListHead?, q: ListHead,
               ghost cmp: ListCmp, ghost res: CoreResults?, ghost v: View, ghost g: Runs)
    returns (list': ListHead?, tail': ListHead?, q': ListHead?)
    requires Serves(cmp, res, v.c, v.env) && Holds(v.nodes, v.datas, g.st, res)
    requires Shape(v.nodes, g.done, g.p, g.r, list, tail, pp, q) && g.r != []
    modifies v.nodes`next
    ensures Serves(cmp, res, v.c, v.env) && Holds(v.nodes, v.datas, g.st, res)
    ensures Shape(v.nodes, g.done + [g.r[0]], g.p, g.r[1..], list', tail', pp, q')
  {
    list', tail', q' := TakeFromQ(list, tail, pp, q, v.nodes, g.done, g.p, g.r);
  }

  method AdvanceQ(list: ListHead?, tail: ListHead?, pp: ListHead?, q: ListHead,
                  ghost cmp: ListCmp, ghost res: CoreResults?, ghost v: View, ghost g: Runs)
    returns (list': ListHead?, tail': ListHead?, q': ListHead?)
    requires Held(cmp, res, v, g, list, tail, pp, q) && g.r != []
    modifies v.nodes`next
    ensures Held(cmp, res, v, TookQ(g), list', tail', pp, q')
  {
    HeldParts(cmp, res, v, g, list, tail, pp, q);
    list', tail', q' := LinkQ(list, tail, pp, q, cmp, res, v, g);
    HeldIs(cmp, res, v, TookQ(g), list', tail', pp, q');
  }

  // ---------- Merging two runs ----------

  function Prefixed(done: seq<ListHead>, m: Out<ListHead>): Out<ListHead> {
    Out(done + m.order, m.st)
  }

  /** What is merged already, together with what merging the rest will give, is the goal. */
  ghost predicate Merging(c: Comparator, goal: Out<ListHead>, done: seq<ListHead>,
                          p: seq<ListHead>, q: seq<ListHead>, st: State<ListHead>)
  {
    forall k {:trigger Look(MERGE, k)} :: Look(MERGE, k) ==> goal == Prefixed(done, Merge(c, p, q, st))
  }

  /** The code takes from `p` when `q` is used up, or when the head of `p` is not above that of `q`. */
  ghost predicate Takes(c: Comparator, fromP: bool, p: seq<ListHead>, q: seq<ListHead>,
                        st: State<ListHead>, st': State<ListHead>)
  {
    if p == [] then !fromP && q != [] && st' == st
    else if q == [] then fromP && st' == st
    else st' == Compare(c, p[0], q[0], st) &&
         (fromP <==> KeyOf(c, p[0], st'.items) <= KeyOf(c, q[0], st'.items))
  }

  lemma MergingStep(c: Comparator, goal: Out<ListHead>, done: seq<ListHead>, fromP: bool,
                    p: seq<ListHead>, q: seq<ListHead>, st: State<ListHead>, st': State<ListHead>)
    requires Merging(c, goal, done, p, q, st) && Takes(c, fromP, p, q, st, st')
    ensures fromP ==> p != [] && Merging(c, goal, done + [p[0]], p[1..], q, st')
    ensures !fromP ==> q != [] && Merging(c, goal, done + [q[0]], p, q[1..], st')
  {
    assert Look(MERGE, 0);
    var m := Merge(c, p, q, st);
    if fromP {
      var m' := Merge(c, p[1..], q, st');
      assert m.order == [p[0]] + m'.order && m.st == m'.st by {
        if q == [] {
          assert m'.order == p[1..];
        }
      }
      assert done + m.order == done + [p[0]] + m'.order;
    } else {
      var m' := Merge(c, p, q[1..], st');
      assert m.order == [q[0]] + m'.order && m.st == m'.st;
      assert done + m.order == done + [q[0]] + m'.order;
    }
  }

  /** Decide whether the next element comes from `p` or from `q`. */
  method Choose(cmp: ListCmp, res: CoreResults?, pp: ListHead?, psize: nat, qq: ListHead?, qsize: nat,
                ghost v: View, ghost p: seq<ListHead>, ghost q: seq<ListHead>, ghost st: State<ListHead>)
    returns (fromP: bool, ghost st': State<ListHead>)
    requires Serves(cmp, res, v.c, v.env) && Holds(v.nodes, v.datas, st, res)
    requires psize == |p| && (p != [] ==> pp == p[0] && pp in v.nodes)
    requires q == [] <==> qsize == 0 || qq == null
    requires q != [] ==> qq == q[0] && qq in v.nodes
    requires p != [] || q != []
    requires Apart(p, q)
    modifies v.datas`data16, Owner(res)`crc, Owner(res)`crcmatrix, Owner(res)`crcstate, Arrays(res)
    ensures Serves(cmp, res, v.c, v.env)
    ensures Holds(v.nodes, v.datas, st', res) && Takes(v.c, fromP, p, q, st, st')
    ensures unchanged(v.nodes)
  {
    if psize == 0 {
      fromP, st' := false, st;
    } else if qsize == 0 || qq == null {
      fromP, st' := true, st;
    } else {
      assert p[0] in p && q[0] in q;
      var r;
      r, st' := CallCmp(cmp, pp, qq, res, v, st);
      fromP := r <= 0;
    }
  }

  /** The part of a chain that belongs to the second run. */
  function Ahead(r: seq<ListHead>, qsize: nat): seq<ListHead> {
    r[..Min(qsize, |r|)]
  }

  lemma MergingDone(c: Comparator, goal: Out<ListHead>, done: seq<ListHead>, st: State<ListHead>)
    requires Merging(c, goal, done, [], [], st)
    ensures goal == Out(done, st)
  {
    assert Look(MERGE, 0);
    assert done + [] == done;
  }

  lemma AheadTail(r: seq<ListHead>, qsize: nat)
    requires r != [] && qsize > 0
    ensures Ahead(r, qsize) != [] && Ahead(r, qsize)[0] == r[0]
    ensures Ahead(r[1..], qsize - 1) == Ahead(r, qsize)[1..]
    ensures r[1..][|Ahead(r[1..], qsize - 1)|..] == r[|Ahead(r, qsize)|..]
  {
  }

  /** Choose, in the shape that the loop keeps; `goal` is what the merge will give. */
  method ChooseNext(cmp: ListCmp, res: CoreResults?, list: ListHead?, tail: ListHead?, pp: ListHead?, q: ListHead?,
                    psize: nat, qsize: nat, ghost v: View, ghost goal: Out<ListHead>, ghost g0: Runs)
    returns (fromP: bool, ghost g: Runs)
    requires Busy(cmp, res, v, goal, g0, list, tail, pp, q, psize, qsize)
    requires psize > 0 || (qsize > 0 && q != null)
    modifies v.datas`data16, Owner(res)`crc, Owner(res)`crcmatrix, Owner(res)`crcstate, Arrays(res)
    ensures g == g0.(st := g.st) && Held(cmp, res, v, g, list, tail, pp, q)
    ensures fromP ==> g.p != [] && pp != null && Towards(v, goal, TookP(g), qsize)
    ensures !fromP ==> g.r != [] && q != null && qsize > 0 && Towards(v, goal, TookQ(g), qsize - 1)
  {
    HeldParts(cmp, res, v, g0, list, tail, pp, q);
    ghost var p, r := g0.p, g0.r;
    ghost var ahead := Ahead(r, qsize);
    assert p != [] ==> p[0] in p;
    assert r != [] ==> r[0] in r;
    assert forall x :: x in ahead ==> x in r;
    ghost var st;
    fromP, st := Choose(cmp, res, pp, psize, q, qsize, v, p, ahead, g0.st);
    g := g0.(st := st);
    HeldIs(cmp, res, v, g, list, tail, pp, q);
    TowardsStep(v, goal, g0, qsize, fromP, st);
  }

  /** Merging what is left leads to the goal. */
  ghost predicate Towards(v: View, goal: Out<ListHead>, g: Runs, qsize: nat) {
    Merging(v.c, goal, g.done, g.p, Ahead(g.r, qsize), g.st)
  }

  lemma TowardsStep(v: View, goal: Out<ListHead>, g: Runs, qsize: nat, fromP: bool, st: State<ListHead>)
    requires Towards(v, goal, g, qsize) && Takes(v.c, fromP, g.p, Ahead(g.r, qsize), g.st, st)
    ensures fromP ==> g.p != [] && Towards(v, goal, TookP(g.(st := st)), qsize)
    ensures !fromP ==> g.r != [] && qsize > 0 && Towards(v, goal, TookQ(g.(st := st)), qsize - 1)
  {
    MergingStep(v.c, goal, g.done, fromP, g.p, Ahead(g.r, qsize), g.st, st);
    if !fromP {
      AheadTail(g.r, qsize);
    }
  }

  /** The invariant of the inner loop. */
  ghost predicate Busy(cmp: ListCmp, res: CoreResults?, v: View, goal: Out<ListHead>, g: Runs,
                       list: ListHead?, tail: ListHead?, pp: ListHead?, q: ListHead?, psize: nat, qsize: nat)
    reads if res == null then {} else {res as object, res.memblock3, res.mat.a, res.mat.b}
    reads v.nodes, v.datas, g.done, g.p, g.r, set n | n in v.nodes :: n.info
  {
    && Held(cmp, res, v, g, list, tail, pp, q)
    && psize == |g.p| && Towards(v, goal, g, qsize)
  }

  /** The loop's body: choose the next element and link it behind the merged list. */
  method MergeOne(cmp: ListCmp, res: CoreResults?, list0: ListHead?, tail0: ListHead?, pp0: ListHead?, q0: ListHead?,
                  psize0: nat, qsize0: nat, ghost v: View, ghost goal: Out<ListHead>, ghost g0: Runs)
    returns (list: ListHead?, tail: ListHead?, pp: ListHead?, q: ListHead?, psize: nat, qsize: nat, ghost g: Runs)
    requires Busy(cmp, res, v, goal, g0, list0, tail0, pp0, q0, psize0, qsize0)
    requires psize0 > 0 || (qsize0 > 0 && q0 != null)
    modifies v.nodes`next, v.datas`data16, Owner(res)`crc, Owner(res)`crcmatrix, Owner(res)`crcstate, Arrays(res)
    ensures Busy(cmp, res, v, goal, g, list, tail, pp, q, psize, qsize)
    ensures g.r[|Ahead(g.r, qsize)|..] == g0.r[|Ahead(g0.r, qsize0)|..]
    ensures |g.p| + |g.r| < |g0.p| + |g0.r|
  {
    list, tail, pp, q, psize, qsize := list0, tail0, pp0, q0, psize0, qsize0;
    var fromP;
    fromP, g := ChooseNext(cmp, res, list, tail, pp, q, psize, qsize, v, goal, g0);
    if fromP {
      list, tail, pp := AdvanceP(list, tail, pp, q, cmp, res, v, g);
      psize := psize - 1;
      g := TookP(g);
    } else {
      AheadTail(g.r, qsize);
      list, tail, q := AdvanceQ(list, tail, pp, q, cmp, res, v, g);
      qsize := qsize - 1;
      g := TookQ(g);
    }
  }

  /** The inner loop. */
  method MergeTwo(cmp: ListCmp, res: CoreResults?, list0: ListHead?, tail0: ListHead?, pp0: ListHead?, q0: ListHead?,
                  psize0: nat, insize: nat, ghost v: View, ghost goal: Out<ListHead>, ghost g0: Runs)
    returns (list: ListHead?, tail: ListHead?, q: ListHead?)
    requires Busy(cmp, res, v, goal, g0, list0, tail0, pp0, q0, psize0, insize)
    modifies v.nodes`next, v.datas`data16, Owner(res)`crc, Owner(res)`crcmatrix, Owner(res)`crcstate, Arrays(res)
    ensures Held(cmp, res, v, Runs(goal.order, [], g0.r[|Ahead(g0.r, insize)|..], goal.st), list, tail, null, q)
  {
    ghost var g := g0;
    var pp, psize, qsize := pp0, psize0, insize;
    list, tail, q := list0, tail0, q0;
    while psize > 0 || (qsize > 0 && q != null)
      invariant Busy(cmp, res, v, goal, g, list, tail, pp, q, psize, qsize)
      invariant g.r[|Ahead(g.r, qsize)|..] == g0.r[|Ahead(g0.r, insize)|..]
      decreases |g.p| + |g.r|
    {
      list, tail, pp, q, psize, qsize, g := MergeOne(cmp, res, list, tail, pp, q, psize, qsize, v, goal, g);
    }
    BusyEnds(cmp, res, v, goal, g, list, tail, pp, q, psize, qsize);
  }

  lemma BusyEnds(cmp: ListCmp, res: CoreResults?, v: View, goal: Out<ListHead>, g: Runs,
                 list: ListHead?, tail: ListHead?, pp: ListHead?, q: ListHead?, psize: nat, qsize: nat)
    requires Busy(cmp, res, v, goal, g, list, tail, pp, q, psize, qsize)
    requires psize == 0 && (qsize == 0 || q == null)
    ensures Held(cmp, res, v, Runs(goal.order, [], g.r[|Ahead(g.r, qsize)|..], goal.st), list, tail, null, q)
  {
    HeldParts(cmp, res, v, g, list, tail, pp, q);
    assert g.p == [] && Ahead(g.r, qsize) == [];
    MergingDone(v.c, goal, g.done, g.st);
    assert g.r[0..] == g.r;
    HeldIs(cmp, res, v, Runs(g.done, [], g.r, g.st), list, tail, null, q);
  }

  // ---------- One pass ----------

  lemma PassUnfolds(c: Comparator, s: seq<ListHead>, w: nat, k: nat, st: State<ListHead>)
    requires w > 0 && s != [] && k == Min(w, |s|)
    ensures var m := Merge(c, s[..k], Ahead(s[k..], w), st);
            Pass(c, s, w, st) == Prefixed(m.order, Pass(c, s[k..][|Ahead(s[k..], w)|..], w, m.st)) &&
            |m.order| == Min(2 * w, |s|)
  {
    var m := Min(2 * w, |s|);
    assert Ahead(s[k..], w) == s[k..m];
    assert s[k..][|Ahead(s[k..], w)|..] == s[m..];
  }

  /** What the pass has merged so far, with what it will make of the rest, is what it makes of all. */
  ghost predicate Passing(c: Comparator, goal: Out<ListHead>, done: seq<ListHead>, r: seq<ListHead>, w: nat,
                          st: State<ListHead>)
    requires w > 0
  {
    forall k {:trigger Look(PASS, k)} :: Look(PASS, k) ==> goal == Prefixed(done, Pass(c, r, w, st))
  }

  lemma PassingStep(c: Comparator, goal: Out<ListHead>, done: seq<ListHead>, r: seq<ListHead>, w: nat, k: nat,
                    st: State<ListHead>)
    requires w > 0 && r != [] && k == Min(w, |r|) && Passing(c, goal, done, r, w, st)
    ensures var m := Merge(c, r[..k], Ahead(r[k..], w), st);
            Passing(c, goal, done + m.order, r[k..][|Ahead(r[k..], w)|..], w, m.st) && |m.order| == Min(2 * w, |r|)
  {
    assert Look(PASS, 0);
    PassUnfolds(c, r, w, k, st);
    var m := Merge(c, r[..k], Ahead(r[k..], w), st);
    var rest := Pass(c, r[k..][|Ahead(r[k..], w)|..], w, m.st);
    assert done + (m.order + rest.order) == (done + m.order) + rest.order;
  }

  lemma PassingDone(c: Comparator, goal: Out<ListHead>, done: seq<ListHead>, w: nat, st: State<ListHead>)
    requires w > 0 && Passing(c, goal, done, [], w, st)
    ensures goal == Out(done, st)
  {
    assert Look(PASS, 0);
    assert done + [] == done;
  }

  /** Step `insize` places along from `p`, or to the end of the list. */
  method StepAlong(p: ListHead, insize: nat, ghost r: seq<ListHead>) returns (q: ListHead?, psize: nat)
    requires Chain(p, r) && r != [] && insize > 0
    ensures psize == Min(insize, |r|)
    ensures Linked(r[..psize]) && Chain(q, r[psize..])
  {
    q := p;
    psize := 0;
    var i := 0;
    while i < insize
      invariant i == psize < |r| && i <= insize
      invariant q == r[psize]
    {
      assert psize + 1 < |r| ==> r[psize].next == r[psize + 1];
      psize := psize + 1;
      q := q.next;
      if q == null {
        break;
      }
      i := i + 1;
    }
    assert psize == |r| ==> r[psize..] == [];
  }

  /** The invariant of a pass. */
  ghost predicate InPass(cmp: ListCmp, res: CoreResults?, v: View, goal: Out<ListHead>, g: Runs, w: nat,
                         list: ListHead?, tail: ListHead?, p: ListHead?)
    requires w > 0
    reads if res == null then {} else {res as object, res.memblock3, res.mat.a, res.mat.b}
    reads v.nodes, v.datas, g.done, g.p, g.r, set n | n in v.nodes :: n.info
  {
    g.p == [] && Held(cmp, res, v, g, list, tail, null, p) && Passing(v.c, goal, g.done, g.r, w, g.st)
  }

  lemma ShapeSplits(nodes: set<ListHead>, done: seq<ListHead>, r: seq<ListHead>, k: nat,
                    list: ListHead?, tail: ListHead?, p: ListHead?, q: ListHead?)
    requires Shape(nodes, done, [], r, list, tail, null, p) && 0 < k <= |r|
    requires Linked(r[..k]) && Chain(q, r[k..])
    ensures Shape(nodes, done, r[..k], r[k..], list, tail, p, q)
  {
    assert forall x :: x in r[..k] ==> x in r;
    assert forall x :: x in r[k..] ==> x in r;
    NoRepeatsSplit(r, k, |r|);
    assert r[k..|r|] == r[k..];
  }

  /** The first `k` elements of the rest set apart. */
  function Split(g: Runs, k: nat): Runs
    requires k <= |g.r|
  {
    Runs(g.done, g.r[..k], g.r[k..], g.st)
  }

  /** What merging the two runs will give. */
  function MergeGoal(v: View, g: Runs, qsize: nat): Out<ListHead> {
    Prefixed(g.done, Merge(v.c, g.p, Ahead(g.r, qsize), g.st))
  }

  lemma MergingBegins(v: View, g: Runs, qsize: nat, goal: Out<ListHead>)
    requires goal == MergeGoal(v, g, qsize)
    ensures Merging(v.c, goal, g.done, g.p, Ahead(g.r, qsize), g.st)
  {
  }

  /** Set the first run of the rest apart. */
  method SplitRun(cmp: ListCmp, res: CoreResults?, insize: nat, list: ListHead?, tail: ListHead?, p: ListHead,
                  ghost v: View, ghost g: Runs)
    returns (q: ListHead?, psize: nat)
    requires insize > 0 && g.r != [] && g.p == [] && Held(cmp, res, v, g, list, tail, null, p)
    ensures psize == Min(insize, |g.r|)
    ensures Busy(cmp, res, v, MergeGoal(v, Split(g, psize), insize), Split(g, psize), list, tail, p, q, psize, insize)
  {
    HeldParts(cmp, res, v, g, list, tail, null, p);
    q, psize := StepAlong(p, insize, g.r);
    ShapeSplits(v.nodes, g.done, g.r, psize, list, tail, p, q);
    HeldIs(cmp, res, v, Split(g, psize), list, tail, p, q);
    MergingBegins(v, Split(g, psize), insize, MergeGoal(v, Split(g, psize), insize));
  }

  /** The runs after two of them have been merged. */
  function Merged(v: View, g: Runs, w: nat): Runs
    requires g.r != [] && w > 0
  {
    var s := Split(g, Min(w, |g.r|));
    var m := MergeGoal(v, s, w);
    Runs(m.order, [], s.r[|Ahead(s.r, w)|..], m.st)
  }

  lemma MergedPassing(v: View, goal: Out<ListHead>, g: Runs, w: nat)
    requires w > 0 && g.r != [] && Passing(v.c, goal, g.done, g.r, w, g.st)
    ensures var h := Merged(v, g, w);
            Passing(v.c, goal, h.done, h.r, w, h.st) &&
            |h.done| == |g.done| + Min(2 * w, |g.r|) && |h.r| == |g.r| - Min(2 * w, |g.r|)
  {
    PassingStep(v.c, goal, g.done, g.r, w, Min(w, |g.r|), g.st);
  }

  /** The body of a pass: set two runs apart and merge them. */
  method PassOne(cmp: ListCmp, res: CoreResults?, insize: nat, list0: ListHead?, tail0: ListHead?, p: ListHead,
                 ghost v: View, ghost goal: Out<ListHead>, ghost g0: Runs)
    returns (list: ListHead?, tail: ListHead?, q: ListHead?, ghost g: Runs)
    requires insize > 0 && g0.r != [] && InPass(cmp, res, v, goal, g0, insize, list0, tail0, p)
    modifies v.nodes`next, v.datas`data16, Owner(res)`crc, Owner(res)`crcmatrix, Owner(res)`crcstate, Arrays(res)
    ensures InPass(cmp, res, v, goal, g, insize, list, tail, q)
    ensures |g.done| == |g0.done| + Min(2 * insize, |g0.r|) && |g.r| == |g0.r| - Min(2 * insize, |g0.r|)
  {
    var psize;
    q, psize := SplitRun(cmp, res, insize, list0, tail0, p, v, g0);
    ghost var s := Split(g0, psize);
    g := Merged(v, g0, insize);
    MergedPassing(v, goal, g0, insize);
    list, tail, q := MergeTwo(cmp, res, list0, tail0, p, q, psize, insize, v, MergeGoal(v, s, insize), s);
  }

  // ---------- The sort ----------

  /** What callers hand to the sort and get back: a list of these nodes, in this order, over this state. */
  ghost predicate Sortable(cmp: ListCmp, res: CoreResults?, v: View, s: seq<ListHead>, st: State<ListHead>,
                           list: ListHead?)
    reads if res == null then {} else {res as object, res.memblock3, res.mat.a, res.mat.b}
    reads v.nodes, v.datas, s, set n | n in v.nodes :: n.info
  {
    forall k {:trigger Look(HEAP, k)} :: Look(HEAP, k) ==>
      && Serves(cmp, res, v.c, v.env) && Holds(v.nodes, v.datas, st, res)
      && Chain(list, s) && NoRepeats(s) && forall n :: n in s ==> n in v.nodes
  }

  lemma PassBegins(cmp: ListCmp, res: CoreResults?, v: View, s: seq<ListHead>, w: nat, st: State<ListHead>,
                   list: ListHead?)
    requires w > 0 && Sortable(cmp, res, v, s, st, list)
    ensures InPass(cmp, res, v, Pass(v.c, s, w, st), Runs([], [], s, st), w, null, null, list)
    ensures list == null <==> s == []
  {
    assert Look(HEAP, 0);
    PassingBegins(v.c, s, w, st, Pass(v.c, s, w, st));
  }

  lemma PassingBegins(c: Comparator, s: seq<ListHead>, w: nat, st: State<ListHead>, goal: Out<ListHead>)
    requires w > 0 && goal == Pass(c, s, w, st)
    ensures Passing(c, goal, [], s, w, st)
  {
    assert Prefixed([], goal) == goal;
  }

  lemma InPassRest(cmp: ListCmp, res: CoreResults?, v: View, goal: Out<ListHead>, g: Runs, w: nat,
                   list: ListHead?, tail: ListHead?, p: ListHead?)
    requires w > 0 && InPass(cmp, res, v, goal, g, w, list, tail, p)
    ensures p == null <==> g.r == []
    ensures g.done != [] ==> tail == g.done[|g.done| - 1] && tail in v.nodes
    ensures g.r == [] ==> goal == Out(g.done, g.st)
  {
    assert Look(HEAP, 0);
    assert g.done != [] ==> g.done[|g.done| - 1] in g.done;
    if g.r == [] {
      PassingDone(v.c, goal, g.done, w, g.st);
    }
  }

  /** tail->next = NULL */
  method CloseList(cmp: ListCmp, res: CoreResults?, list: ListHead?, tail: ListHead, ghost v: View, ghost g: Runs)
    requires g.done != [] && tail in v.nodes && tail == g.done[|g.done| - 1] && g.p == [] && g.r == []
    requires Held(cmp, res, v, g, list, tail, null, null)
    modifies v.nodes`next
    ensures Sortable(cmp, res, v, g.done, g.st, list) && list != null
  {
    assert Look(HEAP, 0);
    tail.next := null;
  }

  /** One pass.  The ghost result is the state that the comparisons, one after the other, have led to. */
  method SortPass(cmp: ListCmp, res: CoreResults?, list0: ListHead, insize: nat,
                  ghost v: View, ghost s: seq<ListHead>, ghost st0: State<ListHead>)
    returns (list: ListHead?, nmerges: nat, ghost out: Out<ListHead>)
    requires insize > 0 && Sortable(cmp, res, v, s, st0, list0)
    modifies v.nodes`next, v.datas`data16, Owner(res)`crc, Owner(res)`crcmatrix, Owner(res)`crcstate, Arrays(res)
    ensures out == Pass(v.c, s, insize, st0) && Sortable(cmp, res, v, out.order, out.st, list)
    ensures list != null && (nmerges <= 1 <==> |s| <= 2 * insize)
  {
    ghost var goal, g := Pass(v.c, s, insize, st0), Runs([], [], s, st0);
    var p: ListHead? := list0;
    var tail: ListHead?;
    list, tail, nmerges := null, null, 0;
    PassBegins(cmp, res, v, s, insize, st0, list0);
    while p != null
      invariant InPass(cmp, res, v, goal, g, insize, list, tail, p)
      invariant |g.done| + |g.r| == |s|
      invariant if nmerges == 0 then g.done == []
                else if nmerges == 1 then |g.done| == Min(2 * insize, |s|)
                else |s| > 2 * insize
      decreases |g.r|
    {
      InPassRest(cmp, res, v, goal, g, insize, list, tail, p);
      nmerges := nmerges + 1;
      list, tail, p, g := PassOne(cmp, res, insize, list, tail, p, v, goal, g);
    }
    InPassRest(cmp, res, v, goal, g, insize, list, tail, p);
    CloseList(cmp, res, list, tail, v, g);
    out := Out(g.done, g.st);
  }

  /** What the turns of the outer loop keep: the rest of the sort leads to `sorted`, passes made and passes
      to come make up the whole number, and every pass has made at most n comparisons. */
  ghost predicate SortingOn(v: View, sorted: Out<ListHead>, out: Out<ListHead>, w: nat, n: nat, passes: nat, cmps: nat)
    requires w > 0
  {
    forall k {:trigger Look(PASS, k)} :: Look(PASS, k) ==>
      && |out.order| == n && Sort(v.c, out.order, w, out.st) == sorted && (w == 1 || w < n)
      && passes + Passes(n, w) == Passes(n, 1) && out.st.cmps <= cmps + n * passes
  }

  /** core_list_mergesort.  The list must not be empty: the code writes through `tail` after the first
      pass, before it looks at the number of merges.  `insize` never reaches the length of the list unless
      it is 1, so doubling it does not overflow; `passes` counts the turns of the outer loop. */
  method CoreListMergesort(list0: ListHead, cmp: ListCmp, res: CoreResults?,
                           ghost v: View, ghost s: seq<ListHead>, ghost st: State<ListHead>)
    returns (list: ListHead?, ghost passes: nat, ghost widest: nat, ghost out: Out<ListHead>)
    requires Sortable(cmp, res, v, s, st, list0)
    modifies v.nodes`next, v.datas`data16, Owner(res)`crc, Owner(res)`crcmatrix, Owner(res)`crcstate, Arrays(res)
    ensures out == Sort(v.c, s, 1, st) && Sortable(cmp, res, v, out.order, out.st, list)
    ensures passes == Passes(|s|, 1) && out.st.cmps <= st.cmps + |s| * passes
    ensures widest == 1 || widest < |s|
  {
    var insize := 1;
    ghost var sorted := Sort(v.c, s, 1, st);
    passes, widest, out := 0, 1, Out(s, st);
    list := list0;
    SortingBegins(v, s, st, sorted);
    while true
      invariant 0 < insize == widest && list != null
      invariant Sortable(cmp, res, v, out.order, out.st, list)
      invariant SortingOn(v, sorted, out, insize, |s|, passes, st.cmps)
      decreases |s| - insize
    {
      var nmerges;
      ghost var before := out;
      SortingStep(v, sorted, before, insize, |s|, passes, st.cmps);
      list, nmerges, out := SortPass(cmp, res, list, insize, v, before.order, before.st);
      passes := passes + 1;
      if nmerges <= 1 {
        return;
      }
      insize := insize * 2;
      widest := insize;
    }
  }

  lemma SortingBegins(v: View, s: seq<ListHead>, st: State<ListHead>, sorted: Out<ListHead>)
    requires sorted == Sort(v.c, s, 1, st)
    ensures SortingOn(v, sorted, Out(s, st), 1, |s|, 0, st.cmps)
  {
  }

  lemma SortingStep(v: View, sorted: Out<ListHead>, out: Out<ListHead>, w: nat, n: nat, passes: nat, cmps: nat)
    requires w > 0 && SortingOn(v, sorted, out, w, n, passes, cmps)
    ensures |out.order| == n && (w == 1 || w < n)
    ensures var next := Pass(v.c, out.order, w, out.st);
            if n <= 2 * w
            then next == sorted && passes + 1 == Passes(n, 1) && next.st.cmps <= cmps + n * (passes + 1)
            else SortingOn(v, sorted, next, 2 * w, n, passes + 1, cmps)
  {
    assert Look(PASS, 0);
    SortUnfolds(v.c, out.order, w, out.st);
    PassPermutes(v.c, out.order, w, out.st);
    TimesOneMore(n, passes);
  }

  lemma SortUnfolds(c: Comparator, s: seq<ListHead>, w: nat, st: State<ListHead>)
    requires w > 0
    ensures var pass := Pass(c, s, w, st);
            Sort(c, s, w, st) == if |s| <= 2 * w then pass else Sort(c, pass.order, 2 * w, pass.st)
  {
  }
}
