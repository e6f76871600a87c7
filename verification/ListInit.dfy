/** core_list_init of core_list_join.c: the list is built in a block of headers and data items, numbered,
    and sorted by idx. */
module ListInit {
  import opened Words
  import opened Records
  import opened Items
  import opened Sorting
  import opened SortProof
  import opened Results
  import opened LinkedList
  import opened ListOps
  import opened ListBench
  import opened ListIndex

  // ---------- Insertion ----------

  /** The next entry of a block from which entries are taken in order. */
  function NextOf<T>(block: seq<T>, k: nat): seq<T> {
    if k < |block| then [block[k]] else []
  }

  predicate Room(heads: seq<ListHead>, datas: seq<ListData>, memblock: nat, datablock: nat) {
    memblock + 1 < |heads| && datablock + 1 < |datas|
  }

  /** core_list_insert_new: the last entry of either block is never used. */
  method CoreListInsertNew(insertPoint: ListHead, data16: u16, idx: s16, heads: seq<ListHead>, datas: seq<ListData>,
                           memblock: nat, datablock: nat)
    returns (newitem: ListHead?, memblock': nat, datablock': nat)
    requires insertPoint !in NextOf(heads, memblock)
    modifies insertPoint`next, NextOf(heads, memblock), NextOf(datas, datablock)
    ensures if Room(heads, datas, memblock, datablock)
            then newitem == heads[memblock] && memblock' == memblock + 1 && datablock' == datablock + 1 &&
                 newitem.next == old(insertPoint.next) && insertPoint.next == newitem &&
                 newitem.info == datas[datablock] &&
                 datas[datablock].data16 == data16 && datas[datablock].idx == idx
            else newitem == null && memblock' == memblock && datablock' == datablock &&
                 unchanged(insertPoint) && unchanged(NextOf(heads, memblock)) && unchanged(NextOf(datas, datablock))
  {
    memblock', datablock' := memblock, datablock;
    if memblock + 1 >= |heads| {
      return null, memblock', datablock';
    }
    if datablock + 1 >= |datas| {
      return null, memblock', datablock';
    }
    newitem := heads[memblock];
    assert NextOf(heads, memblock)[0] == newitem && NextOf(datas, datablock)[0] == datas[datablock];
    memblock' := memblock + 1;
    newitem.next := insertPoint.next;
    insertPoint.next := newitem;
    newitem.info := datas[datablock];
    datablock' := datablock + 1;
    newitem.info.data16, newitem.info.idx := data16, idx;
  }

  // ---------- Building the list ----------

  /** The first `m` headers form the list: the first one leads to the newest, which leads to the others
      in the opposite order of their insertion. */
  ghost predicate Links(heads: seq<ListHead>, datas: seq<ListData>, m: nat)
    requires 2 <= m <= |heads| == |datas|
    reads heads
  {
    && heads[0].next == heads[m - 1] && heads[1].next == null
    && (forall j {:trigger heads[j].next} :: 2 <= j < m ==> heads[j].next == heads[j - 1])
    && (forall j {:trigger heads[j].info} :: 0 <= j < m ==> heads[j].info == datas[j])
  }

  /** The data of the j-th entry of the block. */
  function BlockData(seed: s16, j: nat): u16 {
    if j == 0 then HEADER_DATA else if j == 1 then TAIL_DATA else ItemData(seed, j - 2)
  }

  ghost predicate Filled(datas: seq<ListData>, seed: s16, m: nat)
    requires 2 <= m <= |datas|
    reads datas
  {
    && (forall j {:trigger datas[j].data16} :: 0 <= j < m ==> datas[j].data16 == BlockData(seed, j))
    && datas[0].idx == 0 && datas[1].idx == TAIL_IDX
  }

  /** Header and tail. */
  method InsertEnds(heads: seq<ListHead>, datas: seq<ListData>, seed: s16)
    requires |heads| == |datas| >= 3 && NoRepeats(heads) && NoRepeats(datas)
    modifies heads, datas
    ensures Links(heads, datas, 2) && Filled(datas, seed, 2)
  {
    var list := heads[0];
    list.next := null;
    list.info := datas[0];
    list.info.idx, list.info.data16 := 0, HEADER_DATA;
    var tail, memblock, datablock := CoreListInsertNew(list, TAIL_DATA, TAIL_IDX, heads, datas, 1, 1);
  }

  /** One more item, behind the header. */
  method InsertItem(heads: seq<ListHead>, datas: seq<ListData>, seed: s16, i: nat, m: nat)
    returns (memblock': nat, datablock': nat)
    requires 2 <= m < |heads| == |datas| && NoRepeats(heads) && NoRepeats(datas)
    requires Links(heads, datas, m) && Filled(datas, seed, m) && (m + 1 < |heads| ==> i == m - 2)
    modifies heads, datas
    ensures memblock' == datablock' == if m + 1 < |heads| then m + 1 else m
    ensures Links(heads, datas, memblock') && Filled(datas, seed, memblock')
  {
    var newitem;
    newitem, memblock', datablock' :=
      CoreListInsertNew(heads[0], ItemData(seed, i), TAIL_IDX, heads, datas, m, m);
  }

  method InsertItems(heads: seq<ListHead>, datas: seq<ListData>, seed: s16)
    requires |heads| == |datas| >= 3 && NoRepeats(heads) && NoRepeats(datas)
    requires Links(heads, datas, 2) && Filled(datas, seed, 2)
    modifies heads, datas
    ensures Links(heads, datas, |heads| - 1) && Filled(datas, seed, |heads| - 1)
  {
    var size, memblock, datablock := |heads|, 2, 2;
    for i := 0 to size
      invariant memblock == datablock == if i + 3 <= size then i + 2 else size - 1
      invariant Links(heads, datas, memblock) && Filled(datas, seed, memblock)
    {
      memblock, datablock := InsertItem(heads, datas, seed, i, memblock);
    }
  }

  // ---------- Numbering the list ----------

  /** The entries at positions 1 to `i` - 1 of the list have been numbered. */
  ghost predicate Numbered(datas: seq<ListData>, seed: s16, i: nat)
    requires 3 <= |datas| && i + 1 < |datas|
    reads datas
  {
    forall p {:trigger InitialIdx(|datas|, seed, p)} ::
      0 < p < i ==> datas[|datas| - 1 - p].idx == InitialIdx(|datas|, seed, p)
  }

  /** Number one entry. */
  method NumberItem(finder: ListHead, i: nat, datas: seq<ListData>, seed: s16) returns (i': nat)
    requires |datas| >= 3 && 1 <= i <= |datas| - 3 && NoRepeats(datas) && finder.info == datas[|datas| - 1 - i]
    requires Filled(datas, seed, |datas| - 1) && Numbered(datas, seed, i)
    modifies datas`idx
    ensures i' == i + 1 && Filled(datas, seed, |datas| - 1) && Numbered(datas, seed, i')
  {
    var size := |datas|;
    if i < size / 5 {
      finder.info.idx := ToS16(i);
      i' := i + 1;
    } else {
      var pat := Xor16(i % 0x1_0000, ToU16(seed));
      i' := i + 1;
      finder.info.idx := Or(i' % 8 * 0x100, pat) % 0x4000;
    }
    assert finder.info.idx == InitialIdx(size, seed, i);
  }

  method NumberItems(heads: seq<ListHead>, datas: seq<ListData>, seed: s16)
    requires |heads| == |datas| >= 3 && NoRepeats(heads) && NoRepeats(datas)
    requires Links(heads, datas, |heads| - 1) && Filled(datas, seed, |heads| - 1)
    modifies datas`idx
    ensures Filled(datas, seed, |heads| - 1) && Numbered(datas, seed, |heads| - 2)
  {
    var size, finder, i := |heads|, heads[0].next, 1;
    while finder.next != null
      invariant 1 <= i <= size - 2 && finder == heads[size - 1 - i]
      invariant Filled(datas, seed, size - 1) && Numbered(datas, seed, i)
      decreases size - i
    {
      i := NumberItem(finder, i, datas, seed);
      finder := finder.next;
    }
  }

  // ---------- The list ----------

  /** The list as it was inserted: the header, and the others from the newest to the tail. */
  function Inserted(heads: seq<ListHead>): (s: seq<ListHead>)
    requires |heads| >= 3
    ensures |s| == |heads| - 1
  {
    seq(|heads| - 1, p requires 0 <= p < |heads| - 1 => if p == 0 then heads[0] else heads[|heads| - 1 - p])
  }

  function Elements<T(==)>(s: seq<T>): set<T> {
    set x | x in s
  }

  /** All headers but the last, which stays unused. */
  function Used(heads: seq<ListHead>): set<ListHead>
    requires |heads| >= 3
  {
    Elements(Inserted(heads))
  }

  ghost function Snapshot(nodes: set<ListHead>): (items: map<ListHead, Item>)
    reads nodes, set n | n in nodes :: n.info
    ensures items.Keys == nodes
  {
    map n | n in nodes :: Item(n.info.data16, n.info.idx)
  }

  /** The records are the ones that initialisation gives to the positions of the list. */
  ghost predicate InitialRecords(heads: seq<ListHead>, seed: s16, items: map<ListHead, Item>)
    requires |heads| >= 3
  {
    && items.Keys == Used(heads)
    && forall p {:trigger InitialItem(|heads|, seed, p)} ::
         0 <= p < |heads| - 1 ==> items[Inserted(heads)[p]] == InitialItem(|heads|, seed, p)
  }

  lemma InsertedFacts(heads: seq<ListHead>)
    requires |heads| >= 3 && NoRepeats(heads)
    ensures NoRepeats(Inserted(heads))
    ensures forall n :: n in Inserted(heads) <==> n in Used(heads)
  {
  }

  /** What has been built is a list with these records. */
  lemma Built(heads: seq<ListHead>, datas: seq<ListData>, seed: s16, items: map<ListHead, Item>)
    requires |heads| == |datas| >= 3 && NoRepeats(heads) && NoRepeats(datas)
    requires Links(heads, datas, |heads| - 1) && Filled(datas, seed, |heads| - 1)
    requires Numbered(datas, seed, |heads| - 2) && items == Snapshot(Used(heads))
    ensures Listed(Used(heads), Elements(datas), Inserted(heads), items, heads[0])
    ensures InitialRecords(heads, seed, items)
  {
    var size, t := |heads|, Inserted(heads);
    InsertedFacts(heads);
    BuiltChain(heads, datas);
    forall p | 0 <= p < size - 1
      ensures t[p].info == datas[if p == 0 then 0 else size - 1 - p]
      ensures Item(t[p].info.data16, t[p].info.idx) == InitialItem(size, seed, p)
    {
      BuiltRecord(heads, datas, seed, p);
    }
    forall n, m | n in Used(heads) && m in Used(heads) && n != m
      ensures n.info != m.info
    {
      var p :| 0 <= p < |t| && t[p] == n;
      var q :| 0 <= q < |t| && t[q] == m;
      assert t[p].info != t[q].info;
    }
  }

  lemma BuiltChain(heads: seq<ListHead>, datas: seq<ListData>)
    requires |heads| == |datas| >= 3 && Links(heads, datas, |heads| - 1)
    ensures Chain(heads[0], Inserted(heads))
  {
    var size, t := |heads|, Inserted(heads);
    forall p | 0 <= p < |t| - 1
      ensures t[p].next == t[p + 1]
    {
      if p > 0 {
        assert heads[size - 1 - p].next == heads[size - 2 - p];
      }
    }
  }

  lemma BuiltRecord(heads: seq<ListHead>, datas: seq<ListData>, seed: s16, p: nat)
    requires |heads| == |datas| >= 3 && p < |heads| - 1
    requires Links(heads, datas, |heads| - 1) && Filled(datas, seed, |heads| - 1)
    requires Numbered(datas, seed, |heads| - 2)
    ensures Inserted(heads)[p].info == datas[if p == 0 then 0 else |heads| - 1 - p]
    ensures var d := Inserted(heads)[p].info;
            Item(d.data16, d.idx) == InitialItem(|heads|, seed, p)
  {
    var size := |heads|;
    var j := if p == 0 then 0 else size - 1 - p;
    assert heads[j].info == datas[j];
    assert datas[j].data16 == BlockData(seed, j);
    assert InitialIdx(size, seed, p) == InitialIdx(|datas|, seed, p);
  }

  /** Every record is its own backup, so that sorting by idx does not change any. */
  lemma InitialTouched(heads: seq<ListHead>, seed: s16, items: map<ListHead, Item>)
    requires |heads| >= 3 && InitialRecords(heads, seed, items)
    ensures AllTouched(CmpIdx(), Inserted(heads), items)
  {
    var t := Inserted(heads);
    forall n | n in t
      ensures n in items && Regenerated(items[n].data16)
    {
      var p :| 0 <= p < |t| && t[p] == n;
      InitialItemFacts(|heads|, seed, p);
      assert items[t[p]] == InitialItem(|heads|, seed, p);
    }
  }

  /** What the sort by idx makes of the new list. */
  ghost predicate InitialOrder(heads: seq<ListHead>, s: seq<ListHead>, items: map<ListHead, Item>)
    requires |heads| >= 3
  {
    StablySorted(CmpIdx(), Inserted(heads), s, items)
  }

  lemma InitialSort(heads: seq<ListHead>, seed: s16, items: map<ListHead, Item>)
    requires |heads| >= 3 && NoRepeats(heads) && InitialRecords(heads, seed, items)
    ensures var out := Sort(CmpIdx(), Inserted(heads), 1, State(items, NO_REGS, 0));
            out.st.items == items && InitialOrder(heads, out.order, items)
  {
    var t, st := Inserted(heads), State(items, NO_REGS, 0);
    InsertedFacts(heads);
    CmpIdxLawful();
    InitialTouched(heads, seed, items);
    SortIsRight(CmpIdx(), t, st);
    StepsNowhere(CmpIdx(), t, items, Sort(CmpIdx(), t, 1, st).st.items);
  }

  lemma StepsNowhere<N>(cmp: Comparator, s: seq<N>, before: map<N, Item>, after: map<N, Item>)
    requires Steps(cmp, before, after) && AllTouched(cmp, s, before) && forall n :: n in before ==> n in s
    ensures after == before
  {
  }

  /** core_list_init.  The block must have room for three headers: with fewer the tail is not inserted,
      and the numbering loop reads through a null pointer. */
  method CoreListInit(blksize: u32, heads: seq<ListHead>, datas: seq<ListData>, seed: s16)
    returns (list: ListHead?, ghost s: seq<ListHead>, ghost items: map<ListHead, Item>)
    requires |heads| == |datas| == ListSize(blksize) >= 3 && NoRepeats(heads) && NoRepeats(datas)
    modifies heads, datas
    ensures Listed(Used(heads), Elements(datas), s, items, list)
    ensures InitialRecords(heads, seed, items) && InitialOrder(heads, s, items)
  {
    InsertEnds(heads, datas, seed);
    InsertItems(heads, datas, seed);
    NumberItems(heads, datas, seed);
    items := Snapshot(Used(heads));
    Built(heads, datas, seed, items);
    InitialSort(heads, seed, items);
    list, s := SortInserted(heads, datas, items);
  }

  method SortInserted(heads: seq<ListHead>, datas: seq<ListData>, ghost items: map<ListHead, Item>)
    returns (list: ListHead?, ghost s: seq<ListHead>)
    requires |heads| >= 3 && Listed(Used(heads), Elements(datas), Inserted(heads), items, heads[0])
    modifies heads, datas
    ensures var out := Sort(CmpIdx(), Inserted(heads), 1, State(items, NO_REGS, 0));
            s == out.order && Listed(Used(heads), Elements(datas), s, out.st.items, list)
  {
    ghost var now := Out(Inserted(heads), State(items, NO_REGS, 0));
    s := SortedByIdx(now).order;
    list := SortIdx(heads[0], Used(heads), Elements(datas), now);
    assert Look(LIST, 0);
  }

  // ---------- What the list is good for ----------

  lemma InitialKey(heads: seq<ListHead>, seed: s16, items: map<ListHead, Item>, p: nat)
    requires |heads| >= 3 && InitialRecords(heads, seed, items) && p < |heads| - 1
    ensures KeyOf(CmpIdx(), Inserted(heads)[p], items) == InitialIdx(|heads|, seed, p)
  {
    assert InitialItem(|heads|, seed, p).idx == InitialIdx(|heads|, seed, p);
    assert Inserted(heads)[p] in items;
  }

  lemma InitialKeysDistinct(heads: seq<ListHead>, seed: s16, items: map<ListHead, Item>)
    requires |heads| >= 3 && InitialRecords(heads, seed, items)
    ensures DistinctKeys(CmpIdx(), Inserted(heads), items) <==> GoodSeed(|heads|, ToU16(seed))
  {
    var t, size := Inserted(heads), |heads|;
    IdxDistinctIff(size, seed);
    forall p: nat | p < size - 1
      ensures KeyOf(CmpIdx(), t[p], items) == InitialIdx(size, seed, p)
    {
      InitialKey(heads, seed, items, p);
    }
    assert DistinctKeys(CmpIdx(), t, items) <==> IdxDistinct(size, seed);
  }

  /** The element with the smallest key stays first in a stable sort. */
  lemma SmallestStaysFirst<N>(cmp: Comparator, s: seq<N>, r: seq<N>, items: map<N, Item>)
    requires s != [] && StablySorted(cmp, s, r, items)
    requires forall n :: n in s ==> KeyOf(cmp, s[0], items) <= KeyOf(cmp, n, items)
    ensures r != [] && r[0] == s[0]
  {
    var k := KeyOf(cmp, s[0], items);
    assert |r| == |multiset(r)| == |multiset(s)| == |s|;
    assert s[0] in multiset(r) && r[0] in multiset(s);
    var i :| 0 <= i < |r| && r[i] == s[0];
    assert r[0] in s && KeyOf(cmp, r[0], items) <= KeyOf(cmp, r[i], items);
    assert Filter(cmp, r, items, k)[0] == r[0] && Filter(cmp, s, items, k)[0] == s[0];
  }

  /** An element with a key larger than all others comes last. */
  lemma LargestComesLast<N>(cmp: Comparator, s: seq<N>, r: seq<N>, items: map<N, Item>)
    requires s != [] && StablySorted(cmp, s, r, items)
    requires forall n :: n in s && n != s[|s| - 1] ==> KeyOf(cmp, n, items) < KeyOf(cmp, s[|s| - 1], items)
    ensures r != [] && r[|r| - 1] == s[|s| - 1]
  {
    var x := s[|s| - 1];
    assert |r| == |multiset(r)| == |multiset(s)| == |s|;
    assert x in multiset(r) && r[|r| - 1] in multiset(s);
    var i :| 0 <= i < |r| && r[i] == x;
    assert r[|r| - 1] in s;
  }

  lemma EndItems(size: nat, seed: s16, p: nat)
    requires size >= 3 && p + 2 == size
    ensures InitialItem(size, seed, 0) == Item(0x8080, 0) && InitialItem(size, seed, p) == Item(0xffff, 0x7fff)
  {
  }

  lemma EndRecords(heads: seq<ListHead>, seed: s16, items: map<ListHead, Item>)
    requires |heads| >= 3 && InitialRecords(heads, seed, items)
    ensures heads[0] in items && items[heads[0]] == Item(0x8080, 0)
    ensures heads[1] in items && items[heads[1]] == Item(0xffff, 0x7fff)
  {
    var size, t := |heads|, Inserted(heads);
    assert t[0] in t && t[size - 2] in t;
    assert items[t[0]] == InitialItem(size, seed, 0) && items[t[size - 2]] == InitialItem(size, seed, size - 2);
    EndItems(size, seed, size - 2);
  }

  /** The fake header is the first node and the fake tail the last, and nothing is lost in between. */
  lemma EndsOfTheList(heads: seq<ListHead>, seed: s16, s: seq<ListHead>, items: map<ListHead, Item>)
    requires 3 <= |heads| <= 5 * 0x7fff && NoRepeats(heads)
    requires InitialRecords(heads, seed, items) && InitialOrder(heads, s, items)
    ensures |s| == |heads| - 1 && multiset(s) == multiset(heads[..|heads| - 1])
    ensures s[0] == heads[0] && s[|s| - 1] == heads[1]
    ensures s[0] in items && items[s[0]] == Item(0x8080, 0)
    ensures s[|s| - 1] in items && items[s[|s| - 1]] == Item(0xffff, 0x7fff)
  {
    var t, size := Inserted(heads), |heads|;
    forall n | n in t
      ensures KeyOf(CmpIdx(), t[0], items) <= KeyOf(CmpIdx(), n, items)
      ensures n != t[size - 2] ==> KeyOf(CmpIdx(), n, items) < KeyOf(CmpIdx(), t[size - 2], items)
    {
      var p :| 0 <= p < |t| && t[p] == n;
      InitialKey(heads, seed, items, 0);
      InitialKey(heads, seed, items, p);
      InitialKey(heads, seed, items, size - 2);
      IdxBounds(size, seed, p);
    }
    SmallestStaysFirst(CmpIdx(), t, s, items);
    LargestComesLast(CmpIdx(), t, s, items);
    assert |s| == |multiset(s)| == |multiset(t)| == |t|;
    ReversedPermutes(heads[1..size - 1]);
    assert t == [heads[0]] + Reversed(heads[1..size - 1]);
    assert heads[..size - 1] == [heads[0]] + heads[1..size - 1];
    EndRecords(heads, seed, items);
  }
}
