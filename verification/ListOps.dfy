/** Searching, reversing and rearranging the list of core_list_join.c. */
module ListOps {
  import opened Words
  import opened Records
  import opened Sorting
  import opened Results
  import opened LinkedList

  /** A list of distinct nodes whose records are `items`. */
  ghost predicate Listed(nodes: set<ListHead>, datas: set<ListData>, s: seq<ListHead>, items: map<ListHead, Item>,
                         list: ListHead?)
    reads nodes, datas, s, set n | n in nodes :: n.info
  {
    && Holds(nodes, datas, State(items, NO_REGS, 0), null)
    && Chain(list, s) && NoRepeats(s) && forall n :: n in s ==> n in nodes
  }

  /** Relinking the nodes of a list in another order gives a list. */
  lemma ListedPermutation(nodes: set<ListHead>, datas: set<ListData>, s: seq<ListHead>, t: seq<ListHead>,
                          items: map<ListHead, Item>, list: ListHead?)
    requires Holds(nodes, datas, State(items, NO_REGS, 0), null)
    requires NoRepeats(s) && (forall n :: n in s ==> n in nodes) && multiset(t) == multiset(s) && Chain(list, t)
    ensures Listed(nodes, datas, t, items, list)
  {
    SamePermutation(s, t);
  }

  // ---------- core_list_find ----------

  /** By idx, or for a negative idx by the low byte of the data. */
  predicate Matches(x: Item, idx: s16, data: u16) {
    if idx >= 0 then x.idx == idx else x.data16 % 0x100 == data
  }

  function ItemAt(items: map<ListHead, Item>, n: ListHead): Item {
    if n in items then items[n] else Item(0, 0)
  }

  /** The first position that matches, or the length of the list. */
  function FindIndex(items: map<ListHead, Item>, s: seq<ListHead>, idx: s16, data: u16): (k: nat)
    ensures k <= |s|
    ensures k < |s| ==> Matches(ItemAt(items, s[k]), idx, data)
    ensures forall i :: 0 <= i < k ==> !Matches(ItemAt(items, s[i]), idx, data)
  {
    if s == [] || Matches(ItemAt(items, s[0]), idx, data) then 0
    else 1 + FindIndex(items, s[1..], idx, data)
  }

  lemma {:induction false} FindIndexIs(items: map<ListHead, Item>, s: seq<ListHead>, idx: s16, data: u16, k: nat)
    requires k <= |s|
    requires forall i :: 0 <= i < k ==> !Matches(ItemAt(items, s[i]), idx, data)
    requires k < |s| ==> Matches(ItemAt(items, s[k]), idx, data)
    ensures FindIndex(items, s, idx, data) == k
  {
    if k > 0 {
      FindIndexIs(items, s[1..], idx, data, k - 1);
    }
  }

  method CoreListFind(list: ListHead?, idx: s16, data: u16,
                      ghost nodes: set<ListHead>, ghost datas: set<ListData>, ghost s: seq<ListHead>,
                      ghost items: map<ListHead, Item>)
    returns (r: ListHead?)
    requires Listed(nodes, datas, s, items, list)
    ensures var k := FindIndex(items, s, idx, data);
            r == if k < |s| then s[k] else null
  {
    ghost var k := 0;
    r := list;
    if idx >= 0 {
      while r != null && r.info.idx != idx
        invariant k <= |s| && r == if k < |s| then s[k] else null
        invariant forall i :: 0 <= i < k ==> !Matches(ItemAt(items, s[i]), idx, data)
        decreases |s| - k
      {
        assert s[k] in s;
        r := r.next;
        k := k + 1;
      }
    } else {
      while r != null && r.info.data16 % 0x100 != data
        invariant k <= |s| && r == if k < |s| then s[k] else null
        invariant forall i :: 0 <= i < k ==> !Matches(ItemAt(items, s[i]), idx, data)
        decreases |s| - k
      {
        assert s[k] in s;
        r := r.next;
        k := k + 1;
      }
    }
    assert k < |s| ==> s[k] in s;
    FindIndexIs(items, s, idx, data, k);
  }

  // ---------- core_list_reverse ----------

  function Reversed<N>(s: seq<N>): (r: seq<N>)
    ensures |r| == |s|
  {
    seq(|s|, i requires 0 <= i < |s| => s[|s| - 1 - i])
  }

  lemma ReversedPermutes<N>(s: seq<N>)
    ensures multiset(Reversed(s)) == multiset(s)
    decreases |s|
  {
    if s != [] {
      var t := s[..|s| - 1];
      ReversedPermutes(t);
      assert Reversed(s) == [s[|s| - 1]] + Reversed(t);
      assert s == t + [s[|s| - 1]];
    }
  }

  method CoreListReverse(list0: ListHead?, ghost nodes: set<ListHead>, ghost datas: set<ListData>,
                         ghost s: seq<ListHead>, ghost items: map<ListHead, Item>)
    returns (next: ListHead?)
    requires Listed(nodes, datas, s, items, list0)
    modifies nodes`next
    ensures Listed(nodes, datas, Reversed(s), items, next)
  {
    var list := list0;
    next := null;
    ghost var k := 0;
    while list != null
      invariant k <= |s|
      invariant list == if k < |s| then s[k] else null
      invariant next == if k > 0 then s[k - 1] else null
      invariant forall i :: k <= i < |s| - 1 ==> s[i].next == s[i + 1]
      invariant k < |s| ==> s[|s| - 1].next == null
      invariant forall i {:trigger s[i].next} :: 0 < i < k ==> s[i].next == s[i - 1]
      invariant k > 0 ==> s[0].next == null
      decreases |s| - k
    {
      assert s[k] in s;
      var tmp := list.next;
      list.next := next;
      next := list;
      list := tmp;
      k := k + 1;
    }
    ReversedLinks(s, next);
    ReversedPermutes(s);
    ListedPermutation(nodes, datas, s, Reversed(s), items, next);
  }

  lemma ReversedLinks(s: seq<ListHead>, next: ListHead?)
    requires next == if |s| > 0 then s[|s| - 1] else null
    requires forall i {:trigger s[i].next} :: 0 < i < |s| ==> s[i].next == s[i - 1]
    requires |s| > 0 ==> s[0].next == null
    ensures Chain(next, Reversed(s))
  {
    var r := Reversed(s);
    forall i | 0 <= i < |r| - 1
      ensures r[i].next == r[i + 1]
    {
      assert r[i] == s[|s| - 1 - i];
    }
  }

  // ---------- Moving the element behind the one found ----------

  /** The element at `j` taken out and put behind the head. */
  function MoveToFront<N>(s: seq<N>, j: nat): (r: seq<N>)
    requires 1 <= j < |s|
    ensures |r| == |s|
  {
    [s[0], s[j]] + s[1..j] + s[j + 1..]
  }

  lemma MoveToFrontPermutes<N>(s: seq<N>, j: nat)
    requires 1 <= j < |s|
    ensures multiset(MoveToFront(s, j)) == multiset(s)
  {
    assert s == [s[0]] + s[1..j] + [s[j]] + s[j + 1..];
  }

  lemma MoveToFrontAt<N>(s: seq<N>, j: nat, i: nat)
    requires 1 <= j < |s| && i < |s|
    ensures MoveToFront(s, j)[i] == if i == 0 || i > j then s[i] else if i == 1 then s[j] else s[i - 1]
  {
  }

  method MoveNext(list: ListHead, thisFind: ListHead, ghost nodes: set<ListHead>, ghost datas: set<ListData>,
                  ghost s: seq<ListHead>, ghost items: map<ListHead, Item>, ghost j: nat)
    requires Listed(nodes, datas, s, items, list) && 1 <= j < |s| && thisFind == s[j - 1]
    modifies nodes`next
    ensures Listed(nodes, datas, MoveToFront(s, j), items, list)
  {
    assert s[0] in s && s[j - 1] in s && s[j] in s;
    assert thisFind.next == s[j];
    var finder := thisFind.next;
    thisFind.next := finder.next;
    finder.next := list.next;
    list.next := finder;
    MovedLinks(s, j);
    MoveToFrontPermutes(s, j);
    ListedPermutation(nodes, datas, s, MoveToFront(s, j), items, list);
  }

  /** The element at `i`, or the end of the list. */
  function At(s: seq<ListHead>, i: nat): ListHead? {
    if i < |s| then s[i] else null
  }

  lemma MovedLinks(s: seq<ListHead>, j: nat)
    requires 1 <= j < |s|
    requires s[0].next == s[j]
    requires s[j].next == if j == 1 then At(s, 2) else s[1]
    requires j > 1 ==> s[j - 1].next == At(s, j + 1)
    requires forall i: nat {:trigger s[i].next} :: 0 < i < |s| && i != j - 1 && i != j ==> s[i].next == At(s, i + 1)
    ensures Chain(s[0], MoveToFront(s, j))
  {
    var t := MoveToFront(s, j);
    forall i: nat | i < |t|
      ensures t[i].next == At(t, i + 1)
    {
      MoveToFrontAt(s, j, i);
      if i + 1 < |t| {
        MoveToFrontAt(s, j, i + 1);
      }
    }
    assert t[|t| - 1].next == null;
  }

  // ---------- core_list_remove and core_list_undo_remove ----------

  /** Position 2 unlinked, with the records of positions 1 and 2 exchanged: the element of position 1
      disappears from the list in the node of position 2. */
  function Removed<N>(s: seq<N>): (r: seq<N>)
    requires |s| >= 3
  {
    s[..2] + s[3..]
  }

  function Exchanged<N(==)>(items: map<N, Item>, a: N, b: N): map<N, Item>
    requires a in items && b in items
  {
    items[a := items[b]][b := items[a]]
  }

  method CoreListRemove(item: ListHead, ghost list: ListHead, ghost nodes: set<ListHead>, ghost datas: set<ListData>,
                        ghost s: seq<ListHead>, ghost items: map<ListHead, Item>)
    returns (ret: ListHead)
    requires Listed(nodes, datas, s, items, list) && |s| >= 3 && item == s[1]
    modifies nodes
    ensures ret == s[2] && ret.next == null && s[1] in items && s[2] in items
    ensures Listed(nodes, datas, Removed(s), Exchanged(items, s[1], s[2]), list)
    ensures s[1].info == old(s[2].info) && s[2].info == old(s[1].info)
    ensures forall n :: n in nodes && n != s[1] && n != s[2] ==> n.info == old(n.info)
  {
    assert s[1] in s && s[2] in s;
    ret := item.next;
    var tmp := item.info;
    item.info := ret.info;
    ret.info := tmp;
    item.next := item.next.next;
    ret.next := null;
    RemovedLinks(list, s);
    RemovedListed(nodes, s);
  }

  lemma RemovedLinks(list: ListHead, s: seq<ListHead>)
    requires |s| >= 3 && list == s[0] && list.next == s[1] && s[1].next == At(s, 3)
    requires forall i: nat {:trigger s[i].next} :: 3 <= i < |s| ==> s[i].next == At(s, i + 1)
    ensures Chain(list, Removed(s))
  {
    var t := Removed(s);
    forall i: nat | i < |t|
      ensures t[i].next == At(t, i + 1)
    {
      assert t[i] == if i < 2 then s[i] else s[i + 1];
    }
    assert t[|t| - 1].next == null;
  }

  lemma RemovedListed(nodes: set<ListHead>, s: seq<ListHead>)
    requires |s| >= 3 && NoRepeats(s) && forall n :: n in s ==> n in nodes
    ensures NoRepeats(Removed(s)) && forall n :: n in Removed(s) ==> n in nodes
  {
  }

  /** Undoing a removal brings back the list as it was. */
  method CoreListUndoRemove(itemRemoved: ListHead, itemModified: ListHead, ghost list: ListHead,
                            ghost nodes: set<ListHead>, ghost datas: set<ListData>,
                            ghost s: seq<ListHead>, ghost items: map<ListHead, Item>)
    returns (r: ListHead)
    requires |s| >= 3 && itemModified == s[1] && itemRemoved == s[2]
    requires NoRepeats(s) && (forall n :: n in s ==> n in nodes) && s[1] in items && s[2] in items
    requires Listed(nodes, datas, Removed(s), Exchanged(items, s[1], s[2]), list)
    modifies nodes
    ensures r == itemRemoved
    ensures Listed(nodes, datas, s, items, list)
    ensures s[1].info == old(s[2].info) && s[2].info == old(s[1].info)
    ensures forall n :: n in nodes && n != s[1] && n != s[2] ==> n.info == old(n.info)
  {
    ghost var t := Removed(s);
    assert s[1] in s && s[2] in s;
    assert forall i: nat {:trigger s[i]} :: i < |s| && i != 2 ==> s[i] == t[if i < 2 then i else i - 1];
    assert itemModified.next == At(s, 3);
    var tmp := itemRemoved.info;
    itemRemoved.info := itemModified.info;
    itemModified.info := tmp;
    itemRemoved.next := itemModified.next;
    itemModified.next := itemRemoved;
    r := itemRemoved;
    RestoredLinks(list, s);
  }

  lemma RestoredLinks(list: ListHead, s: seq<ListHead>)
    requires |s| >= 3 && list == s[0]
    requires forall i: nat {:trigger s[i].next} :: i < |s| ==> s[i].next == At(s, i + 1)
    ensures Chain(list, s)
  {
    assert s[|s| - 1].next == null;
  }
}
