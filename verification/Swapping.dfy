/** Swapping a page out or in keeps the system consistent and every page's
    contents as its task sees them. */
module Swapping {
  import opened Wrappers
  import opened Frames
  import opened PageTables
  import opened Paging
  import opened Tasks
  import opened Steps

  lemma CutIsOneLeaf(tree: Tree, root: nat, v: nat)
    ensures OneLeaf(tree, tree - {Leaf(root, v)}, root, v)
  {
    hide FrameOf, PathOf;
  }

  lemma UntouchedPages(s: State, s': State, root: nat, v: nat)
    requires MemoryOk(s) && Untouched(s.bits, s.tree, s.ram, s'.ram)
    ensures PagesKept(s, s', root, v)
  {
    hide FrameOf, PathOf, NodeOk, SlotAgrees;
    forall n | n in s.tree && |n.path| == 4 ensures !IsTable(s.tree, FrameOf(s.tree[n])) {
      PageNotTable(s.ram, s.tree, n);
    }
  }

  lemma PageNotTable(ram: seq<Page>, tree: Tree, n: Node)
    requires TreeOk(ram, tree) && n in tree && |n.path| == 4
    ensures !IsTable(tree, FrameOf(tree[n]))
  {
    hide FrameOf, PathOf, NodeOk, SlotAgrees;
  }

  lemma CutTaken(s: State, leaf: Node)
    requires MemoryOk(s) && leaf in s.tree
    ensures FrameOf(s.tree[leaf]) < |s.bits|
    ensures Taken(Marked(s.bits, FrameOf(s.tree[leaf]), FrameOf(s.tree[leaf]) + 1, false), s.tree - {leaf})
  {
    hide FrameOf, PathOf, SlotAgrees;
    assert NodeOk(s.tree, leaf, |s.ram|);
  }

  // ---- out ----

  ghost predicate SwappedOut(s: State, s': State, t: nat, v: nat, x: nat) {
    Ordinary(v) && MovedOut(s, s', t, v, x)
  }

  /** What `swap_out` does to the state when it succeeds. */
  ghost predicate MovedOut(s: State, s': State, t: nat, v: nat, x: nat) {
    && t < |s.tasks| && s.tasks[t].root != 0 && x < |s.slots| && !s.slots[x] && s.active
    && var k := s.tasks[t];
    && var leaf := Leaf(k.root, v);
    && leaf in s.tree && !HasKey(k.swapMap, v) && |k.swapMap| < SWAP_MAX_PER_TASK
    && var f := FrameOf(s.tree[leaf]);
    && f < |s.ram| && |s.disk| == |s.slots|
    && TreeOk(s'.ram, s'.tree) && Untouched(s.bits, s.tree, s.ram, s'.ram)
    && s' == s.(bits := Marked(s.bits, f, f + 1, false), ram := s'.ram, tree := s.tree - {leaf},
                slots := s.slots[x := true], disk := s.disk[x := s.ram[f]],
                tasks := s.tasks[t := k.(swapMap := k.swapMap + [SwapEnt(v, x)])], owner := s.owner[x := (t, v)])
  }

  lemma OutTask(s: State, s': State, t: nat, v: nat, x: nat)
    requires StateOk(s) && SwappedOut(s, s', t, v, x)
    ensures TaskOk(s'.tasks[t], s'.tree, s'.slots, s'.win)
  {
    hide FrameOf, PathOf, TreeOk, SlotAgrees, RootsOk, Untouched, Taken, OneLeaf, RightsOk, HeapOk, ModelOk, EntOk,
      UserOnly, Find, Residents;
    var k, k' := s.tasks[t], s'.tasks[t];
    CutIsOneLeaf(s.tree, k.root, v);
    UserOnlyKept(s.tree, s'.tree, k.root, v, k.root);
    RightsKept(k, k', s.tree, s'.tree, v);
    ModelKept(k, k', s.tree, s'.tree, v, s.win);
    AppendedIs(k.swapMap, SwapEnt(v, x));
    assert HeapOk(k', s'.tree) by {
      OutHeap(s, t, v);
      HeapKept(k, k', s.tree, s'.tree, v);
    }
    forall e | e in k'.swapMap ensures EntOk(k', s'.tree, s'.slots, e) {
      if e in k.swapMap {
        assert EntOk(k, s.tree, s.slots, e);
        EntSlot(k, s.tree, s.slots, e);
        EntKept(k, k', s.tree, s'.tree, s.slots, s'.slots, v, e);
      } else {
        NewEnt(s, s', t, v, x);
      }
    }
    assert Root(k.root) in s'.tree;
  }

  lemma EntSlot(k: Task, tree: Tree, slots: seq<bool>, e: SwapEnt)
    requires EntOk(k, tree, slots, e)
    ensures e.slot < |slots| && slots[e.slot] && Ordinary(e.key) && Leaf(k.root, e.key) !in tree
      && TableOf(k.root, e.key) in tree
  {
  }

  lemma OutHeap(s: State, t: nat, v: nat)
    requires StateOk(s) && t < |s.tasks| && s.tasks[t].root != 0 && Leaf(s.tasks[t].root, v) in s.tree
    ensures var k := s.tasks[t];
      HeapOk(k, s.tree) && k.heapUsed <= 4096 * k.heapPages && k.heapPages <= HEAP_PAGES
        && !(HEAP + k.heapPages <= v < HEAP + HEAP_PAGES)
  {
  }

  lemma NewEnt(s: State, s': State, t: nat, v: nat, x: nat)
    requires StateOk(s) && SwappedOut(s, s', t, v, x)
    ensures EntOk(s'.tasks[t], s'.tree, s'.slots, SwapEnt(v, x))
  {
    hide FrameOf, PathOf, NodeOk, SlotAgrees;
    AboveLast(s.ram, s.tree, s.tasks[t].root, v);
  }

  lemma OutOwners(s: State, s': State, t: nat, v: nat, x: nat)
    requires StateOk(s) && SwappedOut(s, s', t, v, x)
    ensures OwnersOk(s')
  {
    hide FrameOf, PathOf, TreeOk, Untouched, Taken, TaskOk, Find, RootsOk, Leaf, TableOf;
  }

  lemma RootsKept(s: State, s': State, root: nat)
    requires RootsOk(s) && s'.making == s.making && |s'.tasks| == |s.tasks| && RootKnown(s.tasks, s.making, root)
    requires forall n :: n in s'.tree ==> n in s.tree || n.root == root
    requires forall u :: 0 <= u < |s.tasks| ==> s'.tasks[u].root == s.tasks[u].root
    ensures RootsOk(s')
  {
    hide FrameOf;
    forall n | n in s'.tree ensures RootKnown(s'.tasks, s'.making, n.root) {
      RootStays(s.tasks, s'.tasks, s.making, n.root);
    }
  }

  lemma RootStays(tasks: seq<Task>, tasks': seq<Task>, making: nat, r: nat)
    requires RootKnown(tasks, making, r) && |tasks'| == |tasks|
    requires forall u :: 0 <= u < |tasks| ==> tasks'[u].root == tasks[u].root
    ensures RootKnown(tasks', making, r)
  {
    if !(r == making && making != 0) {
      var u :| 0 <= u < |tasks| && tasks[u].root == r && r != 0;
      assert tasks'[u].root == r;
    }
  }

  lemma OutStrays(s: State, s': State, t: nat, v: nat, x: nat)
    requires StateOk(s) && SwappedOut(s, s', t, v, x)
    ensures StraysOk(s') && Strays(s') == Strays(s)
  {
    hide FrameOf, PathOf, TreeOk, Untouched, Taken, TaskOk, Find, RootsOk, OwnersOk, StraysOk, OneLeaf, LooseKept;
    CutLoose(s.bits, s.tree, Leaf(s.tasks[t].root, v));
    CutIsOneLeaf(s.tree, s.tasks[t].root, v);
    StraysElsewhere(s, s', s.tasks[t].root, v);
  }

  lemma SwapOutKeeps(s: State, s': State, t: nat, v: nat, x: nat)
    requires StateOk(s) && SwappedOut(s, s', t, v, x)
    ensures StateOk(s') && SameViews(s, s')
  {
    hide FrameOf, PathOf, NodeOk, SlotAgrees, RootsOk, OwnersOk, StraysOk, TaskOk, Find, IsTable;
    var k := s.tasks[t];
    CutIsOneLeaf(s.tree, k.root, v);
    UntouchedPages(s, s', k.root, v);
    CutTaken(s, Leaf(k.root, v));
    OutOwners(s, s', t, v, x);
    OutStrays(s, s', t, v, x);
    TaskRoot(s.tasks, s.making, t);
    RootsKept(s, s', k.root);
    OutTask(s, s', t, v, x);
    forall u | 0 <= u < |s.tasks| && u != t ensures TaskOk(s'.tasks[u], s'.tree, s'.slots, s'.win) {
      RootsDiffer(s, t, u);
      OtherTask(s.tasks[u], s.tree, s'.tree, s.slots, s'.slots, s.win, k.root, v);
    }
    forall u: nat, w: nat | w < VPNS ensures View(s', u, w) == View(s, u, w) {
      OutView(s, s', t, v, x, u, w);
    }
  }

  lemma RootsDiffer(s: State, t: nat, u: nat)
    requires RootsOk(s) && t < |s.tasks| && u < |s.tasks| && t != u && s.tasks[t].root != 0
    ensures s.tasks[u].root != s.tasks[t].root
  {
  }

  lemma OutView(s: State, s': State, t: nat, v: nat, x: nat, u: nat, w: nat)
    requires StateOk(s) && SwappedOut(s, s', t, v, x) && w < VPNS
    ensures View(s', u, w) == View(s, u, w)
  {
    hide *;
    if u >= |s.tasks| || s.tasks[u].root == 0 || (u == t && w == v) {
      OutViewHere(s, s', t, v, x, u, w);
    } else {
      OutFrame(s, s', t, v, x, u);
      OutEntry(s, s', t, v, x, u, w);
      SlotElsewhere(s, u, w, x);
      HasKeyIs(s.tasks[u].swapMap, w);
      ViewKept(s, s', s.tasks[t].root, v, u, w);
    }
  }

  lemma HasKeyIs(m: seq<SwapEnt>, key: nat)
    ensures HasKey(m, key) == (Find(m, key) < |m|)
  {
  }

  lemma OutViewHere(s: State, s': State, t: nat, v: nat, x: nat, u: nat, w: nat)
    requires SwappedOut(s, s', t, v, x) && StateOk(s) && (u >= |s.tasks| || s.tasks[u].root == 0 || (u == t && w == v))
    ensures View(s', u, w) == View(s, u, w)
  {
    hide FrameOf, PathOf, MemoryOk, OneLeaf, Find, RootsOk, OwnersOk, StraysOk, TreeOk, Untouched;
    InDistinct(s, t);
    AppendedIs(s.tasks[t].swapMap, SwapEnt(v, x));
  }

  lemma OutFrame(s: State, s': State, t: nat, v: nat, x: nat, u: nat)
    requires StateOk(s) && SwappedOut(s, s', t, v, x) && u < |s.tasks|
    ensures |s'.tasks| == |s.tasks| && t < |s.tasks| && s'.tasks[u].root == s.tasks[u].root && v < VPNS
    ensures x < |s.disk| == |s'.disk| && s'.disk == s.disk[x := s'.disk[x]]
    ensures x < |s.slots| && !s.slots[x]
    ensures OneLeaf(s.tree, s'.tree, s.tasks[t].root, v) && PagesKept(s, s', s.tasks[t].root, v)
  {
    hide FrameOf, PathOf, MemoryOk, Find, OneLeaf, TaskOk, OwnersOk, RootsOk, PagesKept, TreeOk, Untouched;
    CutIsOneLeaf(s.tree, s.tasks[t].root, v);
    UntouchedPages(s, s', s.tasks[t].root, v);
  }

  lemma OutEntry(s: State, s': State, t: nat, v: nat, x: nat, u: nat, w: nat)
    requires StateOk(s) && SwappedOut(s, s', t, v, x) && u < |s.tasks| && (u != t || w != v)
    ensures u != t ==> s.tasks[u].root != s.tasks[t].root
    ensures HasKey(s'.tasks[u].swapMap, w) == HasKey(s.tasks[u].swapMap, w)
    ensures HasKey(s.tasks[u].swapMap, w) ==>
      s'.tasks[u].swapMap[Find(s'.tasks[u].swapMap, w)] == s.tasks[u].swapMap[Find(s.tasks[u].swapMap, w)]
  {
    hide FrameOf, PathOf, MemoryOk, Find, OneLeaf, TaskOk, OwnersOk, TreeOk, Untouched;
    InDistinct(s, t);
    if u != t { RootsDiffer(s, t, u); } else { AppendedIs(s.tasks[t].swapMap, SwapEnt(v, x)); }
  }

  /** A free slot is in nobody's list. */
  lemma SlotElsewhere(s: State, u: nat, w: nat, x: nat)
    requires StateOk(s) && u < |s.tasks| && s.tasks[u].root != 0 && x < |s.slots| && !s.slots[x]
    ensures HasKey(s.tasks[u].swapMap, w) ==>
      var e := s.tasks[u].swapMap[Find(s.tasks[u].swapMap, w)];
      e.slot < |s.disk| && e.slot != x
  {
    hide FrameOf, PathOf, TreeOk, Untouched, Taken, Find, RightsOk, HeapOk, ModelOk, RootsOk;
    if HasKey(s.tasks[u].swapMap, w) {
      assert EntOk(s.tasks[u], s.tree, s.slots, s.tasks[u].swapMap[Find(s.tasks[u].swapMap, w)]);
    }
  }

  // ---- in ----

  /** What `swap_in` does to the state when it succeeds. */
  ghost predicate SwappedIn(s: State, s': State, t: nat, v: nat, f: nat) {
    && t < |s.tasks| && s.tasks[t].root != 0 && v < VPNS && HasKey(s.tasks[t].swapMap, v)
    && var k := s.tasks[t];
    && var i := Find(k.swapMap, v);
    && var x := k.swapMap[i].slot;
    && x < |s.slots| == |s.disk|
    && MemoryOk(s') && Placed(s.bits, s.tree, s.ram, s'.bits, s'.tree, s'.ram, k.root, v, f, s.disk[x], 6, true)
    && s' == s.(bits := s'.bits, ram := s'.ram, tree := s'.tree, slots := s.slots[x := false],
                tasks := s.tasks[t := k.(swapMap := Removed(k.swapMap, i))], owner := s.owner - {x})
  }

  /** The tables of a swapped-out page are still there. */
  lemma NoneMissing(s: State, t: nat, v: nat)
    requires StateOk(s) && t < |s.tasks| && s.tasks[t].root != 0 && HasKey(s.tasks[t].swapMap, v)
    ensures Missing(s.tree, s.tasks[t].root, v) == 0 && Ordinary(v) && Leaf(s.tasks[t].root, v) !in s.tree
  {
    hide FrameOf, PathOf, NodeOk, SlotAgrees, RightsOk, HeapOk, ModelOk, RootsOk, OwnersOk, StraysOk, Find;
    var k := s.tasks[t];
    assert EntOk(k, s.tree, s.slots, k.swapMap[Find(k.swapMap, v)]);
    AboveLast(s.ram, s.tree, k.root, v);
  }

  lemma InTask(s: State, s': State, t: nat, v: nat, f: nat)
    requires StateOk(s) && SwappedIn(s, s', t, v, f)
    ensures TaskOk(s'.tasks[t], s'.tree, s'.slots, s'.win)
  {
    hide FrameOf, PathOf, TreeOk, RootsOk, Taken, OneLeaf, RightsOk, HeapOk, ModelOk, EntOk, UserOnly, Find, Residents,
      Removed;
    var k, k' := s.tasks[t], s'.tasks[t];
    var i := Find(k.swapMap, v);
    NoneMissing(s, t, v);
    EntryParts(f, 7);
    UserOnlyKept(s.tree, s'.tree, k.root, v, k.root);
    RightsKept(k, k', s.tree, s'.tree, v);
    ModelKept(k, k', s.tree, s'.tree, v, s.win);
    RemovedIs(k.swapMap, i);
    assert HeapOk(k', s'.tree) by {
      InHeap(s, t, v);
      forall w | HasKey(k'.swapMap, w) ensures HasKey(k.swapMap, w) { RemovedFind(k.swapMap, i, w); }
      HeapKept(k, k', s.tree, s'.tree, v);
    }
    forall e | e in k'.swapMap ensures EntOk(k', s'.tree, s'.slots, e) {
      EntSlot(k, s.tree, s.slots, e);
      SlotsDiffer(s, t, e, k.swapMap[i]);
      EntKept(k, k', s.tree, s'.tree, s.slots, s'.slots, v, e);
    }
    RootInTree(s.tree, s'.tree, k.root, v);
    RemovedLength(k.swapMap, i);
  }

  lemma RemovedLength(m: seq<SwapEnt>, i: nat)
    requires i < |m|
    ensures |Removed(m, i)| == |m| - 1
  {
  }

  lemma RootInTree(tree: Tree, tree': Tree, root: nat, v: nat)
    requires OneLeaf(tree, tree', root, v) && Root(root) in tree
    ensures Root(root) in tree'
  {
  }

  lemma InHeap(s: State, t: nat, v: nat)
    requires StateOk(s) && t < |s.tasks| && s.tasks[t].root != 0 && HasKey(s.tasks[t].swapMap, v)
    ensures var k := s.tasks[t];
      HeapOk(k, s.tree) && k.heapUsed <= 4096 * k.heapPages && k.heapPages <= HEAP_PAGES
        && !(HEAP + k.heapPages <= v < HEAP + HEAP_PAGES)
  {
    hide FrameOf, NodeOk, SlotAgrees, RightsOk, ModelOk, RootsOk, OwnersOk, StraysOk, Find;
    assert Leaf(s.tasks[t].root, v) == Leaf(s.tasks[t].root, v);
  }

  lemma SlotsDiffer(s: State, t: nat, e: SwapEnt, d: SwapEnt)
    requires OwnersOk(s) && t < |s.tasks| && e in s.tasks[t].swapMap && d in s.tasks[t].swapMap && e.key != d.key
    ensures e.slot != d.slot
  {
  }

  lemma InOwners(s: State, s': State, t: nat, v: nat, f: nat)
    requires StateOk(s) && SwappedIn(s, s', t, v, f)
    ensures OwnersOk(s') && forall u :: 0 <= u < |s.tasks| && u != t ==> SlotsKept(s.tasks[u], s.slots, s'.slots)
  {
    hide FrameOf, PathOf, MemoryOk, Placed, TaskOk, Find, RootsOk, Leaf, TableOf, Removed;
    assert DistinctKeys(s.tasks[t].swapMap) by { InDistinct(s, t); }
    RemovedIs(s.tasks[t].swapMap, Find(s.tasks[t].swapMap, v));
    var m := s.tasks[t].swapMap;
    var i := Find(m, v);
    assert m[i] in m && m[i].key == v;
    forall x | x in s'.owner
      ensures s'.owner[x].0 < |s'.tasks| && SwapEnt(s'.owner[x].1, x) in s'.tasks[s'.owner[x].0].swapMap
    {
      assert x in s.owner && x != m[i].slot;
    }
  }

  lemma InDistinct(s: State, t: nat)
    requires StateOk(s) && t < |s.tasks|
    ensures DistinctKeys(s.tasks[t].swapMap)
  {
  }

  lemma InView(s: State, s': State, t: nat, v: nat, f: nat, u: nat, w: nat)
    requires StateOk(s) && SwappedIn(s, s', t, v, f) && w < VPNS
    ensures View(s', u, w) == View(s, u, w)
  {
    hide *;
    if u >= |s.tasks| || s.tasks[u].root == 0 {
      InViewNone(s, s', t, v, f, u, w);
    } else if u == t && w == v {
      InViewHere(s, s', t, v, f);
    } else {
      InFrame(s, s', t, v, f, u);
      InEntry(s, s', t, v, f, u, w);
      EntOnDisk(s, u, w);
      ViewKept(s, s', s.tasks[t].root, v, u, w);
    }
  }

  lemma InViewNone(s: State, s': State, t: nat, v: nat, f: nat, u: nat, w: nat)
    requires SwappedIn(s, s', t, v, f) && (u >= |s.tasks| || s.tasks[u].root == 0)
    ensures View(s', u, w) == View(s, u, w)
  {
    hide FrameOf, PathOf, MemoryOk, Placed, OneLeaf;
  }

  lemma InFrame(s: State, s': State, t: nat, v: nat, f: nat, u: nat)
    requires StateOk(s) && SwappedIn(s, s', t, v, f) && u < |s.tasks|
    ensures |s'.tasks| == |s.tasks| && t < |s.tasks| && s'.tasks[u].root == s.tasks[u].root && s'.disk == s.disk
      && v < VPNS
    ensures OneLeaf(s.tree, s'.tree, s.tasks[t].root, v) && PagesKept(s, s', s.tasks[t].root, v)
  {
    hide FrameOf, PathOf, MemoryOk, Find, OneLeaf, TaskOk, Removed, OwnersOk, RootsOk;
  }

  lemma InEntry(s: State, s': State, t: nat, v: nat, f: nat, u: nat, w: nat)
    requires StateOk(s) && SwappedIn(s, s', t, v, f) && u < |s.tasks| && (u != t || w != v)
    ensures u != t ==> s.tasks[u].root != s.tasks[t].root
    ensures HasKey(s'.tasks[u].swapMap, w) == HasKey(s.tasks[u].swapMap, w)
    ensures HasKey(s.tasks[u].swapMap, w) ==>
      s'.tasks[u].swapMap[Find(s'.tasks[u].swapMap, w)] == s.tasks[u].swapMap[Find(s.tasks[u].swapMap, w)]
  {
    hide FrameOf, PathOf, MemoryOk, Find, OneLeaf, TaskOk, Removed, OwnersOk, Placed;
    InDistinct(s, t);
    if u != t { RootsDiffer(s, t, u); } else { RemovedFind(s.tasks[t].swapMap, Find(s.tasks[t].swapMap, v), w); }
  }

  lemma InViewHere(s: State, s': State, t: nat, v: nat, f: nat)
    requires StateOk(s) && SwappedIn(s, s', t, v, f)
    ensures View(s', t, v) == View(s, t, v)
  {
    hide FrameOf, PathOf, MemoryOk, Find, RootsOk, OneLeaf, TaskOk, Removed, OwnersOk;
    NoneMissing(s, t, v);
    EntryParts(f, 7);
    assert View(s', t, v) == Some(s'.ram[f]);
  }

  lemma EntOnDisk(s: State, u: nat, w: nat)
    requires StateOk(s) && u < |s.tasks|
    ensures HasKey(s.tasks[u].swapMap, w) ==> s.tasks[u].swapMap[Find(s.tasks[u].swapMap, w)].slot < |s.disk|
  {
    hide FrameOf, PathOf, TreeOk, Find, RightsOk, HeapOk, ModelOk, RootsOk, OwnersOk, StraysOk, UserOnly;
    if HasKey(s.tasks[u].swapMap, w) {
      assert EntOk(s.tasks[u], s.tree, s.slots, s.tasks[u].swapMap[Find(s.tasks[u].swapMap, w)]);
    }
  }

  lemma InStrays(s: State, s': State, t: nat, v: nat, f: nat)
    requires StateOk(s) && SwappedIn(s, s', t, v, f)
    ensures StraysOk(s') && Strays(s') == Strays(s)
  {
    hide FrameOf, PathOf, MemoryOk, TaskOk, Find, RootsOk, OwnersOk, StraysOk, OneLeaf, LooseKept, Removed, Placed;
    NoneMissing(s, t, v);
    var e := s.tasks[t].swapMap[Find(s.tasks[t].swapMap, v)];
    PlacedLoose(s.bits, s.tree, s.ram, s'.bits, s'.tree, s'.ram, s.tasks[t].root, v, f, s.disk[e.slot], 6, true);
    PlacedOneLeaf(s.bits, s.tree, s.ram, s'.bits, s'.tree, s'.ram, s.tasks[t].root, v, f, s.disk[e.slot], 6, true);
    StraysElsewhere(s, s', s.tasks[t].root, v);
  }

  lemma SwapInKeeps(s: State, s': State, t: nat, v: nat, f: nat)
    requires StateOk(s) && SwappedIn(s, s', t, v, f)
    ensures StateOk(s') && SameViews(s, s')
  {
    hide FrameOf, PathOf, MemoryOk, RootsOk, OwnersOk, StraysOk, TaskOk, Find, SlotsKept, OneLeaf, Removed;
    var k := s.tasks[t];
    InOwners(s, s', t, v, f);
    InStrays(s, s', t, v, f);
    RootsKept(s, s', k.root) by { TaskRoot(s.tasks, s.making, t); OneLeafRoots(s.tree, s'.tree, k.root, v); }
    InTask(s, s', t, v, f);
    forall u | 0 <= u < |s.tasks| && u != t ensures TaskOk(s'.tasks[u], s'.tree, s'.slots, s'.win) {
      RootsDiffer(s, t, u);
      OtherTask(s.tasks[u], s.tree, s'.tree, s.slots, s'.slots, s.win, k.root, v);
    }
    forall u: nat, w: nat | w < VPNS ensures View(s', u, w) == View(s, u, w) {
      InView(s, s', t, v, f, u, w);
    }
  }

  lemma TaskRoot(tasks: seq<Task>, making: nat, t: nat)
    requires t < |tasks| && tasks[t].root != 0
    ensures RootKnown(tasks, making, tasks[t].root)
  {
  }

  lemma OneLeafRoots(tree: Tree, tree': Tree, root: nat, v: nat)
    requires OneLeaf(tree, tree', root, v)
    ensures forall n :: n in tree' ==> n in tree || n.root == root
  {
  }
}
