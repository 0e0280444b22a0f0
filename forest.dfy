/** The process forest GetServiceProcesses links from the records it read
    (internal/systemd/processes.go). Go links records by reference; here a
    record is its position in the slice of records, each record has a list of
    child positions, and the roots are a list of positions. */
module ProcessForest {
  import opened Types

  /** The pid -> position index of the first pass; a later record with the same
      pid overwrites an earlier one. */
  function PidIndex(nodes: seq<Process>): map<int, nat>
  {
    if nodes == [] then map[]
    else PidIndex(nodes[..|nodes| - 1])[nodes[|nodes| - 1].pid := |nodes| - 1]
  }

  /** `i` is the last position whose record has pid `p`. */
  predicate LastWithPid(nodes: seq<Process>, p: int, i: nat)
  {
    i < |nodes| && nodes[i].pid == p && forall k :: i < k < |nodes| ==> nodes[k].pid != p
  }

  /** The index holds the pid of every record, and maps it to the last record
      with that pid. */
  lemma {:induction false} PidIndexSpec(nodes: seq<Process>)
    ensures forall p :: p in PidIndex(nodes) ==> LastWithPid(nodes, p, PidIndex(nodes)[p])
    ensures forall k :: 0 <= k < |nodes| ==> nodes[k].pid in PidIndex(nodes)
  {
    if nodes != [] {
      var last := |nodes| - 1;
      var init := nodes[..last];
      PidIndexSpec(init);
      assert forall k :: 0 <= k < last ==> init[k] == nodes[k];
    }
  }

  /** Appending a record indexes its pid to its position. */
  lemma PidIndexAppend(nodes: seq<Process>, p: Process)
    ensures PidIndex(nodes + [p]) == PidIndex(nodes)[p.pid := |nodes|]
  {
    assert (nodes + [p])[..|nodes|] == nodes;
  }

  /** Where record `i` goes: under the record its parent pid indexes, or at the root level. */
  function ParentSlot(nodes: seq<Process>, i: nat): (r: Option<nat>)
    requires i < |nodes|
    ensures r.Some? ==> r.value < |nodes| && nodes[r.value].pid == nodes[i].parent
    ensures r.None? <==> forall k :: 0 <= k < |nodes| ==> nodes[k].pid != nodes[i].parent
  {
    PidIndexSpec(nodes);
    var m := PidIndex(nodes);
    if nodes[i].parent in m then Some(m[nodes[i].parent]) else None
  }

  /** The positions an index maps to are positions of records. */
  predicate IndexBelow(index: map<int, nat>, n: nat)
  {
    forall p :: p in index ==> index[p] < n
  }

  /** The slots the second pass reads off `index`: record `i` goes under the
      record its parent pid maps to, or to the root level. */
  function SlotsIn(nodes: seq<Process>, index: map<int, nat>): (r: seq<Option<nat>>)
    requires IndexBelow(index, |nodes|)
    ensures |r| == |nodes| && SlotsBelow(r)
    ensures forall i :: 0 <= i < |nodes| ==> (r[i].Some? <==> nodes[i].parent in index)
  {
    seq(|nodes|, i requires 0 <= i < |nodes| =>
      if nodes[i].parent in index then Some(index[nodes[i].parent]) else None)
  }

  /** The slot of every record, read off the pid index of the first pass. */
  function Slots(nodes: seq<Process>): (r: seq<Option<nat>>)
    ensures |r| == |nodes| && SlotsBelow(r)
    ensures forall i :: 0 <= i < |nodes| ==> r[i] == ParentSlot(nodes, i)
  {
    PidIndexSpec(nodes);
    SlotsIn(nodes, PidIndex(nodes))
  }

  predicate SlotsBelow(slots: seq<Option<nat>>)
  {
    forall i :: 0 <= i < |slots| && slots[i].Some? ==> slots[i].value < |slots|
  }

  /** The positions below `n` that go to `slot`, ascending. */
  function Placed(slots: seq<Option<nat>>, slot: Option<nat>, n: nat): (r: seq<nat>)
    requires n <= |slots|
    ensures forall k :: 0 <= k < |r| ==> r[k] < n && slots[r[k]] == slot
  {
    if n == 0 then []
    else Placed(slots, slot, n - 1) + (if slots[n - 1] == slot then [n - 1] else [])
  }

  /** The linked records the builder leaves behind, with positions for references:
      the records, the children of each record, and the returned roots. */
  datatype Forest = Forest(nodes: seq<Process>, children: seq<seq<nat>>, roots: seq<nat>)

  predicate WellIndexed(f: Forest)
  {
    && |f.children| == |f.nodes|
    && (forall j, k :: 0 <= j < |f.children| && 0 <= k < |f.children[j]| ==> f.children[j][k] < |f.nodes|)
    && (forall k :: 0 <= k < |f.roots| ==> f.roots[k] < |f.nodes|)
  }

  /** The children lists after the first `n` records are linked: record
      `n - 1` is appended to the list of its slot, if it has one. */
  function ChildLists(slots: seq<Option<nat>>, n: nat): (r: seq<seq<nat>>)
    requires n <= |slots| && SlotsBelow(slots)
    ensures |r| == |slots|
  {
    if n == 0 then seq(|slots|, _ => [])
    else
      var before := ChildLists(slots, n - 1);
      match slots[n - 1]
      case None => before
      case Some(j) => before[j := before[j] + [n - 1]]
  }

  /** The children list of record `j` holds the records whose slot is `j`, in order. */
  lemma {:induction false} ChildListsArePlaced(slots: seq<Option<nat>>, n: nat)
    requires n <= |slots| && SlotsBelow(slots)
    ensures forall j :: 0 <= j < |slots| ==> ChildLists(slots, n)[j] == Placed(slots, Some(j), n)
  {
    if n > 0 {
      ChildListsArePlaced(slots, n - 1);
    }
  }

  /** The roots the builder returns: the parentless records, or the first record
      when there are none. */
  function RootsOf(slots: seq<Option<nat>>): seq<nat>
  {
    var roots := Placed(slots, None, |slots|);
    if roots == [] && |slots| > 0 then [0] else roots
  }

  /** The second pass and the zero-roots fallback of GetServiceProcesses. */
  function Layout(nodes: seq<Process>): (f: Forest)
    ensures WellIndexed(f)
  {
    var slots := Slots(nodes);
    ChildListsArePlaced(slots, |nodes|);
    Forest(nodes, ChildLists(slots, |nodes|), RootsOf(slots))
  }

  /** Placement lists are in discovery order: ascending positions. */
  lemma {:induction false} PlacedAscending(slots: seq<Option<nat>>, slot: Option<nat>, n: nat)
    requires n <= |slots|
    ensures forall j, l :: 0 <= j < l < |Placed(slots, slot, n)| ==> Placed(slots, slot, n)[j] < Placed(slots, slot, n)[l]
  {
    if n > 0 {
      PlacedAscending(slots, slot, n - 1);
    }
  }

  /** Record `i` is in the list of exactly its own slot. */
  lemma {:induction false} PlacedIff(slots: seq<Option<nat>>, slot: Option<nat>, n: nat, i: nat)
    requires n <= |slots| && i < n
    ensures i in Placed(slots, slot, n) <==> slots[i] == slot
  {
    if i < n - 1 {
      PlacedIff(slots, slot, n - 1, i);
    }
  }

  function Flatten(lists: seq<seq<nat>>): seq<nat>
  {
    if lists == [] then [] else lists[0] + Flatten(lists[1..])
  }

  /** The positions 0, 1, ..., n - 1. */
  function Range(n: nat): (r: seq<nat>)
    ensures |r| == n && forall i :: 0 <= i < n ==> r[i] == i
  {
    if n == 0 then [] else Range(n - 1) + [n - 1]
  }

  lemma {:induction false} FlattenAppendAt(lists: seq<seq<nat>>, j: nat, x: nat)
    requires j < |lists|
    ensures multiset(Flatten(lists[j := lists[j] + [x]])) == multiset(Flatten(lists)) + multiset{x}
  {
    var updated := lists[j := lists[j] + [x]];
    if j == 0 {
      assert updated[1..] == lists[1..];
    } else {
      FlattenAppendAt(lists[1..], j - 1, x);
      assert updated[1..] == lists[1..][j - 1 := lists[1..][j - 1] + [x]];
    }
  }

  lemma {:induction false} EmptyFlatten(lists: seq<seq<nat>>)
    requires forall j :: 0 <= j < |lists| ==> lists[j] == []
    ensures Flatten(lists) == []
  {
    if lists != [] {
      EmptyFlatten(lists[1..]);
    }
  }

  /** Every linked record is placed exactly once: the root-level list and all
      the children lists together hold each position below `n` once, and
      nothing else. */
  lemma {:induction false} PlacedExactlyOnce(slots: seq<Option<nat>>, n: nat)
    requires n <= |slots| && SlotsBelow(slots)
    ensures multiset(Placed(slots, None, n) + Flatten(ChildLists(slots, n))) == multiset(Range(n))
  {
    if n == 0 {
      EmptyFlatten(ChildLists(slots, 0));
    } else {
      var last: nat := n - 1;
      PlacedExactlyOnce(slots, last);
      var roots := Placed(slots, None, last);
      var flat := Flatten(ChildLists(slots, last));
      assert Range(n) == Range(last) + [last];
      match slots[last]
      case Some(j) =>
        var before := ChildLists(slots, last);
        var after := ChildLists(slots, n);
        assert after == before[j := before[j] + [last]];
        FlattenAppendAt(before, j, last);
        assert Placed(slots, None, n) == roots;
        MultisetAppendRight(roots, flat, Flatten(after), Range(last), last);
      case None =>
        assert ChildLists(slots, n) == ChildLists(slots, last);
        MultisetAppendLeft(roots, flat, Range(last), last);
    }
  }

  lemma MultisetAppendLeft(a: seq<nat>, b: seq<nat>, r: seq<nat>, x: nat)
    requires multiset(a + b) == multiset(r)
    ensures multiset(a + [x] + b) == multiset(r + [x])
  {
    calc {
      multiset(a + [x] + b);
      multiset(a) + multiset{x} + multiset(b);
      multiset(a + b) + multiset{x};
    }
  }

  lemma MultisetAppendRight(a: seq<nat>, b: seq<nat>, b': seq<nat>, r: seq<nat>, x: nat)
    requires multiset(a + b) == multiset(r)
    requires multiset(b') == multiset(b) + multiset{x}
    ensures multiset(a + b') == multiset(r + [x])
  {
  }

  /** The builder's placement: every record is under its parent's record when
      its parent pid was read, and at the root level otherwise; the lists are
      in discovery order and place every record exactly once. */
  lemma LayoutSpec(nodes: seq<Process>, i: nat)
    requires i < |nodes|
    ensures forall j :: 0 <= j < |nodes| ==>
      (i in Layout(nodes).children[j] <==> nodes[i].parent in PidIndex(nodes) && PidIndex(nodes)[nodes[i].parent] == j)
    ensures i in Placed(Slots(nodes), None, |nodes|) <==> forall k :: 0 <= k < |nodes| ==> nodes[k].pid != nodes[i].parent
    ensures multiset(Placed(Slots(nodes), None, |nodes|) + Flatten(Layout(nodes).children)) == multiset(Range(|nodes|))
  {
    var slots := Slots(nodes);
    ChildListsArePlaced(slots, |nodes|);
    forall j | 0 <= j < |nodes|
      ensures i in Layout(nodes).children[j] <==> nodes[i].parent in PidIndex(nodes) && PidIndex(nodes)[nodes[i].parent] == j
    {
      PlacedIff(slots, Some(j), |nodes|, i);
    }
    PlacedIff(slots, None, |nodes|, i);
    PlacedExactlyOnce(slots, |nodes|);
  }

  /** Zero roots happen only with at least one record, and then the builder
      returns the first record alone, whose parent is itself among the records. */
  lemma {:induction false} FallbackRoot(nodes: seq<Process>)
    requires nodes != [] && Placed(Slots(nodes), None, |nodes|) == []
    ensures Layout(nodes).roots == [0]
    ensures exists k :: 0 <= k < |nodes| && nodes[k].pid == nodes[0].parent
  {
    PlacedIff(Slots(nodes), None, |nodes|, 0);
  }

  /** The second pass of GetServiceProcesses over the records of the first: each
      record is appended in place to the children of the record its parent pid
      maps to, or to the roots; with no roots the first record is the root. With
      the pid index of the first pass this builds `Layout`. */
  method LinkProcesses(processes: seq<Process>, processMap: map<int, nat>) returns (f: Forest)
    requires IndexBelow(processMap, |processes|)
    ensures f.nodes == processes
    ensures f.children == ChildLists(SlotsIn(processes, processMap), |processes|)
    ensures f.roots == RootsOf(SlotsIn(processes, processMap))
    ensures processMap == PidIndex(processes) ==> f == Layout(processes)
  {
    var n := |processes|;
    ghost var slots := SlotsIn(processes, processMap);
    var children := new seq<nat>[n](_ => []);
    var roots: seq<nat> := [];
    assert forall k :: 0 <= k < n ==> children[k] == [];
    ChildListsEmpty(slots);
    for i := 0 to n
      invariant roots == Placed(slots, None, i)
      invariant children[..] == ChildLists(slots, i)
    {
      var parent := processes[i].parent;
      LinkStep(slots, i);
      if parent in processMap {
        var j := processMap[parent];
        assert slots[i] == Some(j);
        ghost var before := children[..];
        children[j] := children[j] + [i];
        assert children[..] == before[j := before[j] + [i]];
      } else {
        roots := roots + [i];
      }
    }
    if |roots| == 0 && n > 0 {
      roots := [0];
    }
    f := Forest(processes, children[..], roots);
  }

  lemma ChildListsEmpty(slots: seq<Option<nat>>)
    requires SlotsBelow(slots)
    ensures forall j :: 0 <= j < |slots| ==> ChildLists(slots, 0)[j] == []
  {
  }

  /** Linking record `i`: it joins the list of its slot and no other. */
  lemma LinkStep(slots: seq<Option<nat>>, i: nat)
    requires i < |slots| && SlotsBelow(slots)
    ensures slots[i].None? ==>
      ChildLists(slots, i + 1) == ChildLists(slots, i) && Placed(slots, None, i + 1) == Placed(slots, None, i) + [i]
    ensures slots[i].Some? ==>
      var before := ChildLists(slots, i);
      var j := slots[i].value;
      ChildLists(slots, i + 1) == before[j := before[j] + [i]] && Placed(slots, None, i + 1) == Placed(slots, None, i)
  {
  }

  /** `p` carries the record `q` reads for one process: pid, name, command
      line and parent pid. */
  predicate Describes(p: Process, q: Process)
  {
    p.pid == q.pid && p.name == q.name && p.cmdline == q.cmdline && p.parent == q.parent
  }

  /** The children of record `i`, followed down to depth `fuel`. */
  function Unfold(f: Forest, i: nat, fuel: nat): (p: Process)
    requires WellIndexed(f) && i < |f.nodes|
    ensures Describes(p, f.nodes[i])
    ensures fuel == 0 ==> p.children == []
    ensures fuel > 0 ==> |p.children| == |f.children[i]|
    ensures fuel > 0 ==> forall k :: 0 <= k < |p.children| ==> Describes(p.children[k], f.nodes[f.children[i][k]])
    decreases fuel
  {
    var node := f.nodes[i];
    var kids := f.children[i];
    node.(children := if fuel == 0 then []
                      else seq(|kids|, k requires 0 <= k < |kids| => Unfold(f, kids[k], fuel - 1)))
  }

  /** The returned slice of root processes, as trees. */
  function Trees(f: Forest): (r: seq<Process>)
    requires WellIndexed(f)
    ensures |r| == |f.roots|
    ensures forall k :: 0 <= k < |r| ==>
      Describes(r[k], f.nodes[f.roots[k]]) && |r[k].children| == |f.children[f.roots[k]]|
  {
    seq(|f.roots|, k requires 0 <= k < |f.roots| => Unfold(f, f.roots[k], |f.nodes|))
  }

  /** In the trees the builder links, every child names its parent's pid as
      parent: a record is placed under the record its parent pid indexes. */
  lemma ChildNamesParent(nodes: seq<Process>, i: nat, fuel: nat)
    requires i < |nodes|
    ensures var p := Unfold(Layout(nodes), i, fuel);
      forall k :: 0 <= k < |p.children| ==> p.children[k].parent == p.pid
  {
    var f := Layout(nodes);
    var p := Unfold(f, i, fuel);
    forall k | 0 <= k < |p.children|
      ensures p.children[k].parent == p.pid
    {
      var j := f.children[i][k];
      LayoutSpec(nodes, j);
      assert j in f.children[i];
      PidIndexSpec(nodes);
    }
  }
}
