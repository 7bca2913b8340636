/** Model pages come and go, heap pages come: each changes one page of one
    task. The canonical weights stay outside, so a page equals its copy of
    them at the moment it is faulted in. */
module Residency {
  import opened Wrappers
  import opened Frames
  import opened PageTables
  import opened Paging
  import opened Tasks
  import opened Steps
  import opened Swapping

  /** Page `v` of task `t` may be remapped; no swap list changes. */
  ghost predicate Remapped(s: State, s': State, t: nat, v: nat) {
    && t < |s.tasks| && s.tasks[t].root != 0 && v < VPNS && |s'.tasks| == |s.tasks|
    && s'.slots == s.slots && s'.disk == s.disk && s'.owner == s.owner && s'.active == s.active && s'.making == s.making
    && s'.win == s.win
    && (forall u ::
       0 <= u < |s.tasks| ==> s'.tasks[u].root == s.tasks[u].root && s'.tasks[u].swapMap == s.tasks[u].swapMap)
    && (forall u :: 0 <= u < |s.tasks| && u != t ==> s'.tasks[u] == s.tasks[u])
    && OneLeaf(s.tree, s'.tree, s.tasks[t].root, v) && PagesKept(s, s', s.tasks[t].root, v) && MemoryOk(s')
  }

  lemma RemappedOwners(s: State, s': State, t: nat, v: nat)
    requires StateOk(s) && Remapped(s, s', t, v)
    ensures OwnersOk(s') && RootsOk(s')
  {
    hide *;
    RemappedTasks(s, s', t, v);
    TaskRoot(s.tasks, s.making, t);
    OneLeafRoots(s.tree, s'.tree, s.tasks[t].root, v);
    OwnersKept(s, s');
    RootsKept(s, s', s.tasks[t].root);
  }

  lemma RemappedTasks(s: State, s': State, t: nat, v: nat)
    requires StateOk(s) && Remapped(s, s', t, v)
    ensures t < |s.tasks| && s.tasks[t].root != 0 && v < VPNS && |s'.tasks| == |s.tasks| && s'.slots == s.slots
      && s'.win == s.win
    ensures s'.owner == s.owner && s'.active == s.active && s'.making == s.making && s'.disk == s.disk
    ensures forall u ::
      0 <= u < |s.tasks| ==> s'.tasks[u].root == s.tasks[u].root && s'.tasks[u].swapMap == s.tasks[u].swapMap
    ensures forall u :: 0 <= u < |s.tasks| && u != t ==> s'.tasks[u] == s.tasks[u]
    ensures OneLeaf(s.tree, s'.tree, s.tasks[t].root, v) && PagesKept(s, s', s.tasks[t].root, v)
    ensures OwnersOk(s) && RootsOk(s) && MemoryOk(s) && MemoryOk(s') && 1 <= s.win <= MODEL_MAX
    ensures forall u :: 0 <= u < |s.tasks| ==> TaskOk(s.tasks[u], s.tree, s.slots, s.win)
  {
    hide OneLeaf, PagesKept, MemoryOk, TaskOk, OwnersOk, RootsOk;
  }

  lemma OwnersKept(s: State, s': State)
    requires OwnersOk(s) && s'.slots == s.slots && s'.owner == s.owner && s'.active == s.active
      && |s'.tasks| == |s.tasks|
    requires forall u :: 0 <= u < |s.tasks| ==> s'.tasks[u].swapMap == s.tasks[u].swapMap
    ensures OwnersOk(s')
  {
  }

  lemma RemappedOthers(s: State, s': State, t: nat, v: nat, u: nat)
    requires StateOk(s) && Remapped(s, s', t, v) && u < |s.tasks| && u != t
    ensures TaskOk(s'.tasks[u], s'.tree, s'.slots, s'.win)
  {
    hide *;
    RemappedTasks(s, s', t, v);
    RootsDiffer(s, t, u);
    SameSlots(s.tasks[u], s.slots);
    OtherTask(s.tasks[u], s.tree, s'.tree, s.slots, s'.slots, s.win, s.tasks[t].root, v);
  }

  lemma SameSlots(k: Task, slots: seq<bool>)
    ensures SlotsKept(k, slots, slots)
  {
  }

  /** No other page, of this task or another, changes its contents. */
  lemma RemappedViews(s: State, s': State, t: nat, v: nat, u: nat, w: nat)
    requires StateOk(s) && Remapped(s, s', t, v) && (u != t || w != v) && w < VPNS
    ensures View(s', u, w) == View(s, u, w)
  {
    hide *;
    RemappedTasks(s, s', t, v);
    if u >= |s.tasks| || s.tasks[u].root == 0 {
      NoView(s, u, w);
      NoView(s', u, w);
    } else {
      if u != t { RootsDiffer(s, t, u); }
      EntOnDisk(s, u, w);
      ViewKept(s, s', s.tasks[t].root, v, u, w);
    }
  }

  lemma NoView(s: State, u: nat, w: nat)
    requires u >= |s.tasks| || s.tasks[u].root == 0
    ensures View(s, u, w) == None
  {
  }

  /** All of consistency follows once the task itself is still in order. */
  lemma RemappedKeeps(s: State, s': State, t: nat, v: nat)
    requires StateOk(s) && Remapped(s, s', t, v) && TaskOk(s'.tasks[t], s'.tree, s'.slots, s'.win) && StraysOk(s')
    ensures StateOk(s')
  {
    hide *;
    RemappedTasks(s, s', t, v);
    RemappedOwners(s, s', t, v);
    forall u | 0 <= u < |s'.tasks| ensures TaskOk(s'.tasks[u], s'.tree, s'.slots, s'.win) {
      if u != t { RemappedOthers(s, s', t, v, u); }
    }
    StateParts(s');
  }

  lemma StateParts(s: State)
    requires MemoryOk(s) && RootsOk(s) && OwnersOk(s) && StraysOk(s) && 1 <= s.win <= MODEL_MAX
    requires forall u :: 0 <= u < |s.tasks| ==> TaskOk(s.tasks[u], s.tree, s.slots, s.win)
    ensures StateOk(s)
  {
    hide MemoryOk, RootsOk, OwnersOk, StraysOk, TaskOk;
  }

  // ---- the changed task ----

  lemma SwapKept(k: Task, k': Task, tree: Tree, tree': Tree, slots: seq<bool>, v: nat)
    requires OneLeaf(tree, tree', k.root, v) && SwapOk(k, tree, slots) && v < VPNS && k'.root == k.root
      && k'.swapMap == k.swapMap
    requires HasKey(k.swapMap, v) ==> Leaf(k.root, v) !in tree'
    ensures SwapOk(k', tree', slots)
  {
    hide FrameOf, PathOf, EntOk, Find;
    forall e | e in k'.swapMap ensures EntOk(k', tree', slots, e) {
      var i :| 0 <= i < |k.swapMap| && k.swapMap[i] == e;
      FindOf(k.swapMap, i);
      EntSlot(k, tree, slots, e);
      EntKept(k, k', tree, tree', slots, slots, v, e);
    }
  }

  /** Bitmap, list and mapping change together at page `p`. */
  lemma ModelChanged(k: Task, k': Task, tree: Tree, tree': Tree, p: nat, win: nat)
    requires OneLeaf(tree, tree', k.root, MODEL + p) && ModelOk(k, tree, win) && p < |k.frames| && k'.root == k.root
    requires |k'.frames| == |k.frames| && |k'.resident| == |k.resident|
    requires forall q ::
      0 <= q < |k.frames| && q != p ==> k'.frames[q] == k.frames[q] && k'.resident[q] == k.resident[q]
    requires ModelPageOk(k', tree', p) && (Residents(k'.resident) > 0 ==> win <= |k.frames|)
    ensures ModelOk(k', tree', win)
  {
    hide FrameOf, PathOf, Residents;
    forall q | 0 <= q < MODEL_MAX ensures ModelPageOk(k', tree', q) {
      if q != p {
        assert ModelPageOk(k, tree, q);
        LeavesDiffer(k.root, MODEL + p, MODEL + q);
      }
    }
  }

  lemma WindowNotSwapped(k: Task, tree: Tree, slots: seq<bool>, v: nat)
    requires SwapOk(k, tree, slots) && !Ordinary(v)
    ensures !HasKey(k.swapMap, v)
  {
    hide Find, PathOf;
    forall e | e in k.swapMap ensures Ordinary(e.key) {
      assert EntOk(k, tree, slots, e);
    }
  }

  // ---- a model page in ----

  /** `model_fault_in_page` once it has a frame; `mapped` tells whether the
      mapping was entered or silently dropped for want of a table. */
  ghost predicate FaultedIn(s: State, s': State, t: nat, p: nat, f: nat, page: Page, faults: nat, mapped: bool) {
    && t < |s.tasks| && s.tasks[t].root != 0
    && var k := s.tasks[t];
    && p < |k.frames| == |k.resident| <= MODEL_MAX && s.win <= |k.frames| && !k.resident[p]
    && MemoryOk(s') && Placed(s.bits, s.tree, s.ram, s'.bits, s'.tree, s'.ram, k.root, MODEL + p, f, page, 4, mapped)
    && s' == s.(bits := s'.bits, ram := s'.ram, tree := s'.tree,
                tasks := s.tasks[t := k.(frames := k.frames[p := f], resident := k.resident[p := true],
                  weightsKb := k.weightsKb + 4,
                                         faults := faults)])
  }

  lemma FaultTask(s: State, s': State, t: nat, p: nat, f: nat, page: Page, faults: nat, mapped: bool)
    requires StateOk(s) && FaultedIn(s, s', t, p, f, page, faults, mapped)
    ensures Remapped(s, s', t, MODEL + p) && TaskOk(s'.tasks[t], s'.tree, s'.slots, s'.win)
    ensures View(s, t, MODEL + p) == None && View(s', t, MODEL + p) == if mapped then Some(page) else None
  {
    hide FrameOf, Entry, PathOf, MemoryOk, RootsOk, OwnersOk, StraysOk, OneLeaf, RightsOk, HeapOk, SwapOk, Residents,
      Find, UserOnly;
    var k, k', v := s.tasks[t], s'.tasks[t], MODEL + p;
    EntryParts(f, 5);
    UserOnlyKept(s.tree, s'.tree, k.root, v, k.root);
    RootInTree(s.tree, s'.tree, k.root, v);
    assert ModelPageOk(k, s.tree, p);
    RightsKept(k, k', s.tree, s'.tree, v);
    HeapStays(k, k', s.tree, s'.tree, v);
    WindowNotSwapped(k, s.tree, s.slots, v);
    SwapKept(k, k', s.tree, s'.tree, s.slots, v);
    ModelChanged(k, k', s.tree, s'.tree, p, s.win);
  }

  /** The code marks the page resident either way: it is a stray if and only if
      its mapping was dropped. */
  lemma FaultStrays(s: State, s': State, t: nat, p: nat, f: nat, page: Page, faults: nat, mapped: bool)
    requires StateOk(s) && FaultedIn(s, s', t, p, f, page, faults, mapped)
    ensures StraysOk(s') && (t, p) !in Strays(s)
    ensures Strays(s') == Strays(s) + if mapped then {} else {(t, p)}
  {
    hide FrameOf, Entry, PathOf, MemoryOk, RootsOk, OwnersOk, StraysOk, OneLeaf, Loose, LooseKept, Placed, TaskOk;
    var k := s.tasks[t];
    PlacedLoose(s.bits, s.tree, s.ram, s'.bits, s'.tree, s'.ram, k.root, MODEL + p, f, page, 4, mapped);
    PlacedOneLeaf(s.bits, s.tree, s.ram, s'.bits, s'.tree, s'.ram, k.root, MODEL + p, f, page, 4, mapped);
    PlacedFresh(s, s', t, p, f, page, mapped);
    forall u: nat, q: nat | u != t || q != p
      ensures (Stray(s', u, q) <==> Stray(s, u, q))
        && (Stray(s, u, q) ==> s'.tasks[u].frames[q] == s.tasks[u].frames[q])
    {
      if u < |s.tasks| && s.tasks[u].root != 0 {
        if u != t { StateRoots(s); RootsDiffer(s, t, u); }
        FewFrames(s, u);
        if q < MODEL_MAX { LeafStays(s.tree, s'.tree, k.root, MODEL + p, s.tasks[u].root, MODEL + q); }
      }
    }
    MoreStrays(s, s', t, p, f);
    StraysBut(s, s', t, p);
  }

  lemma StateRoots(s: State)
    requires StateOk(s)
    ensures RootsOk(s)
  {
  }

  lemma FewFrames(s: State, u: nat)
    requires StateOk(s) && u < |s.tasks| && s.tasks[u].root != 0
    ensures |s.tasks[u].frames| == |s.tasks[u].resident| <= MODEL_MAX
  {
  }

  lemma PlacedFresh(s: State, s': State, t: nat, p: nat, f: nat, page: Page, mapped: bool)
    requires StateOk(s) && t < |s.tasks| && s.tasks[t].root != 0 && p < |s.tasks[t].frames| == |s.tasks[t].resident|
    requires !s.tasks[t].resident[p]
    requires Placed(s.bits, s.tree, s.ram, s'.bits, s'.tree, s'.ram, s.tasks[t].root, MODEL + p, f, page, 4, mapped)
    ensures !HasFrame(s.tree, f) && !Loose(s.bits, s.tree, f)
    ensures Leaf(s.tasks[t].root, MODEL + p) in s'.tree <==> mapped
  {
    hide FrameOf, Entry, PathOf, TreeOk, RootsOk, OwnersOk, StraysOk, OneLeaf, RightsOk, HeapOk, SwapOk, Residents;
    assert ModelPageOk(s.tasks[t], s.tree, p);
  }

  lemma MoreStrays(s: State, s': State, t: nat, p: nat, f: nat)
    requires StraysOk(s) && LooseKept(s.bits, s.tree, s'.bits, s'.tree) && !Loose(s.bits, s.tree, f)
    requires Stray(s', t, p) ==> s'.tasks[t].frames[p] == f && Loose(s'.bits, s'.tree, f)
    requires forall u: nat, q: nat :: Stray(s', u, q) && (u != t || q != p) ==>
      Stray(s, u, q) && s'.tasks[u].frames[q] == s.tasks[u].frames[q]
    ensures StraysOk(s')
  {
    hide Loose;
    forall u: nat, q: nat | Stray(s', u, q) && (u != t || q != p)
      ensures Loose(s'.bits, s'.tree, s'.tasks[u].frames[q]) && s'.tasks[u].frames[q] != f
    {
      assert Stray(s, u, q);
    }
    forall u: nat, q: nat, w: nat, r: nat
      | Stray(s', u, q) && Stray(s', w, r) && s'.tasks[u].frames[q] == s'.tasks[w].frames[r]
      ensures u == w && q == r
    {
      if (u != t || q != p) && (w != t || r != p) { assert Stray(s, u, q) && Stray(s, w, r); }
    }
  }

  /** After a fault-in resident and mapped is the same thing exactly if it was
      before and the mapping was entered. */
  lemma FaultExact(s: State, s': State, t: nat, p: nat, f: nat, page: Page, faults: nat, mapped: bool)
    requires StateOk(s) && FaultedIn(s, s', t, p, f, page, faults, mapped)
    ensures StateOk(s') && (Strays(s') == {} <==> Strays(s) == {} && mapped)
  {
    hide FrameOf, Entry, PathOf, MemoryOk, RootsOk, OwnersOk, StraysOk, OneLeaf, Placed, TaskOk, Remapped, Strays;
    FaultTask(s, s', t, p, f, page, faults, mapped);
    FaultStrays(s, s', t, p, f, page, faults, mapped);
    RemappedKeeps(s, s', t, MODEL + p);
  }

  lemma HeapStays(k: Task, k': Task, tree: Tree, tree': Tree, v: nat)
    requires OneLeaf(tree, tree', k.root, v) && HeapOk(k, tree) && v < VPNS && !(HEAP <= v < STACK)
    requires k'.root == k.root && k'.heapUsed == k.heapUsed && k'.heapPages == k.heapPages && k'.swapMap == k.swapMap
    ensures HeapOk(k', tree')
  {
    HeapKept(k, k', tree, tree', v);
  }

  // ---- a model page out ----

  /** `model_evict_page`, and each step of `model_invalidate_task`. */
  ghost predicate Evicted(s: State, s': State, t: nat, p: nat) {
    && t < |s.tasks| && s.tasks[t].root != 0
    && var k := s.tasks[t];
    && p < |k.frames| == |k.resident| <= MODEL_MAX && k.resident[p] && k.weightsKb >= 4
    && var leaf := Leaf(k.root, MODEL + p);
    && TreeOk(s'.ram, s'.tree) && Untouched(s.bits, s.tree, s.ram, s'.ram)
    && s' == s.(bits := Marked(s.bits, k.frames[p], k.frames[p] + 1, false), ram := s'.ram, tree := s.tree - {leaf},
                tasks := s.tasks[t := k.(frames := k.frames[p := 0], resident := k.resident[p := false],
                  weightsKb := k.weightsKb - 4)])
  }

  lemma SameLength(bits: seq<bool>, tree: Tree, ram: seq<Page>, ram': seq<Page>)
    requires Untouched(bits, tree, ram, ram')
    ensures |ram'| == |ram| == |bits|
  {
  }

  lemma EvictTask(s: State, s': State, t: nat, p: nat)
    requires StateOk(s) && Evicted(s, s', t, p)
    ensures Remapped(s, s', t, MODEL + p) && TaskOk(s'.tasks[t], s'.tree, s'.slots, s'.win)
    ensures View(s', t, MODEL + p) == None
  {
    hide FrameOf, PathOf, TreeOk, Untouched, Taken, RootsOk, OwnersOk, StraysOk, OneLeaf, RightsOk, HeapOk, SwapOk,
      Find, UserOnly, PagesKept, Clear;
    var k, k', v := s.tasks[t], s'.tasks[t], MODEL + p;
    SameLength(s.bits, s.tree, s.ram, s'.ram);
    assert ModelPageOk(k, s.tree, p);
    ClearUpdate(k.resident, p, false);
    EvictTaken(s, t, p);
    CutIsOneLeaf(s.tree, k.root, v);
    UntouchedPages(s, s', k.root, v);
    UserOnlyKept(s.tree, s'.tree, k.root, v, k.root);
    RootInTree(s.tree, s'.tree, k.root, v);
    RightsKept(k, k', s.tree, s'.tree, v);
    HeapStays(k, k', s.tree, s'.tree, v);
    WindowNotSwapped(k, s.tree, s.slots, v);
    SwapKept(k, k', s.tree, s'.tree, s.slots, v);
    ModelChanged(k, k', s.tree, s'.tree, p, s.win);
  }

  /** The frame of a resident page, mapped or stray, is taken for that page. */
  lemma EvictTaken(s: State, t: nat, p: nat)
    requires StateOk(s) && t < |s.tasks| && s.tasks[t].root != 0 && p < |s.tasks[t].frames| && s.tasks[t].resident[p]
    ensures var f, leaf := s.tasks[t].frames[p], Leaf(s.tasks[t].root, MODEL + p);
      && 0 < f < |s.bits| && s.bits[f] && Taken(Marked(s.bits, f, f + 1, false), s.tree - {leaf})
      && (leaf in s.tree <==> HasFrame(s.tree, f))
  {
    hide FrameOf, PathOf, TreeOk, RootsOk, OwnersOk, OneLeaf, RightsOk, HeapOk, SwapOk, Find, UserOnly, Clear,
      Residents;
    var leaf := Leaf(s.tasks[t].root, MODEL + p);
    assert ModelPageOk(s.tasks[t], s.tree, p);
    if leaf in s.tree {
      CutTaken(s, leaf);
      TreeNode(s, leaf);
    } else {
      assert Stray(s, t, p);
      assert s.tree - {leaf} == s.tree;
    }
  }

  lemma TreeNode(s: State, n: Node)
    requires MemoryOk(s) && n in s.tree
    ensures 0 < FrameOf(s.tree[n]) < |s.bits| && s.bits[FrameOf(s.tree[n])]
  {
    assert NodeOk(s.tree, n, |s.ram|);
  }

  lemma EvictStrays(s: State, s': State, t: nat, p: nat)
    requires StateOk(s) && Evicted(s, s', t, p)
    ensures StraysOk(s') && Strays(s') == Strays(s) - {(t, p)}
  {
    hide FrameOf, PathOf, MemoryOk, Untouched, RootsOk, OwnersOk, StraysOk, OneLeaf, Clear, Loose, LooseKept, TaskOk;
    var k := s.tasks[t];
    CutIsOneLeaf(s.tree, k.root, MODEL + p);
    forall u: nat, q: nat | u != t || q != p
      ensures (Stray(s', u, q) <==> Stray(s, u, q))
        && (Stray(s, u, q) ==> s'.tasks[u].frames[q] == s.tasks[u].frames[q])
    {
      if u < |s.tasks| && s.tasks[u].root != 0 {
        if u != t { StateRoots(s); RootsDiffer(s, t, u); }
        FewFrames(s, u);
        if q < MODEL_MAX { LeafStays(s.tree, s'.tree, k.root, MODEL + p, s.tasks[u].root, MODEL + q); }
      }
    }
    FewerStrays(s, s', t, p);
    GoneStray(s, s', t, p);
    StraysBut(s, s', t, p);
  }

  lemma FewerStrays(s: State, s': State, t: nat, p: nat)
    requires StateOk(s) && Evicted(s, s', t, p)
    requires forall u: nat, q: nat :: Stray(s', u, q) && (u != t || q != p) ==>
      Stray(s, u, q) && s'.tasks[u].frames[q] == s.tasks[u].frames[q]
    ensures StraysOk(s')
  {
    hide FrameOf, PathOf, TreeOk, Untouched, RootsOk, OwnersOk, OneLeaf, Clear, TaskOk, Taken;
    EvictTaken(s, t, p);
    var f := s.tasks[t].frames[p];
    assert !Stray(s', t, p) by { GoneStray(s, s', t, p); }
    forall u: nat, q: nat | Stray(s', u, q)
      ensures Stray(s, u, q) && s'.tasks[u].frames[q] == s.tasks[u].frames[q]
        && Loose(s'.bits, s'.tree, s'.tasks[u].frames[q])
    {
      FrameApart(s, t, p, u, q);
    }
  }

  lemma GoneStray(s: State, s': State, t: nat, p: nat)
    requires Evicted(s, s', t, p)
    ensures !Stray(s', t, p)
  {
    hide Untouched, TreeOk, FrameOf, PathOf;
  }

  /** A stray shares its frame with no other resident page of the task. */
  lemma FrameApart(s: State, t: nat, p: nat, u: nat, q: nat)
    requires StateOk(s) && t < |s.tasks| && s.tasks[t].root != 0 && p < |s.tasks[t].frames| && s.tasks[t].resident[p]
    requires Stray(s, u, q) && (u != t || q != p)
    ensures s.tasks[u].frames[q] != s.tasks[t].frames[p]
  {
    hide FrameOf, PathOf, TreeOk, RootsOk, OwnersOk, OneLeaf, RightsOk, HeapOk, SwapOk, Find, UserOnly, Clear,
      Residents;
    EvictTaken(s, t, p);
    FewFrames(s, t);
    if Leaf(s.tasks[t].root, MODEL + p) !in s.tree {
      assert Stray(s, t, p);
    }
  }

  // ---- what the code does not guard against ----

  /** The swap system calls take any address. Of pages that are mapped, exactly
      the ordinary ones may be swapped out: a model page would still count as
      resident, in a frame that is free for anyone. */
  lemma SwapOutExact(s: State, s': State, t: nat, v: nat, x: nat)
    requires StateOk(s) && MovedOut(s, s', t, v, x) && (Ordinary(v) || InWindow(v))
    ensures StateOk(s') <==> Ordinary(v)
    ensures Ordinary(v) ==> SameViews(s, s')
    ensures InWindow(v) ==> Dangles(s', t, v - MODEL)
  {
    hide FrameOf, PathOf, TreeOk, Untouched, RootsOk, OwnersOk, StraysOk, TaskOk, Find, UserOnly, Residents, View,
      Dangles, SameViews;
    if Ordinary(v) {
      SwapOutKeeps(s, s', t, v, x);
    } else {
      Dangling(s, s', t, v, x);
      DanglesIs(s', t, v - MODEL);
    }
  }

  /** Model page `p` of task `t` counts as resident, in a frame that is free. */
  ghost predicate Dangles(s: State, t: nat, p: nat) {
    && t < |s.tasks| && s.tasks[t].root != 0 && p < |s.tasks[t].resident| == |s.tasks[t].frames|
       && s.tasks[t].resident[p]
    && Leaf(s.tasks[t].root, MODEL + p) !in s.tree
    && s.tasks[t].frames[p] < |s.bits| && !s.bits[s.tasks[t].frames[p]]
  }

  lemma Dangling(s: State, s': State, t: nat, v: nat, x: nat)
    requires StateOk(s) && MovedOut(s, s', t, v, x) && InWindow(v)
    ensures Dangles(s', t, v - MODEL)
  {
    hide FrameOf, PathOf, TreeOk, Untouched, RootsOk, OwnersOk, StraysOk, RightsOk, HeapOk, SwapOk, Find, UserOnly,
      Residents;
    FewFrames(s, t);
    assert ModelPageOk(s.tasks[t], s.tree, v - MODEL);
  }

  lemma DanglesIs(s: State, t: nat, p: nat)
    requires Dangles(s, t, p)
    ensures !StraysOk(s)
  {
    hide PathOf;
    assert Stray(s, t, p);
  }

  /** The smallest state in which a fault-in drops its mapping: a task with
      nothing but its top-level table, and one free frame. */
  lemma DroppedWitness() returns (s: State, s': State)
    ensures StateOk(s) && Strays(s) == {} && |s.tasks| == 2
      && 0 < Clear(s.bits) <= Missing(s.tree, s.tasks[1].root, MODEL)
    ensures FaultedIn(s, s', 1, 0, 2, ZeroPage(), 1, false) && StateOk(s') && Strays(s') == {(1, 0)}
    ensures View(s', 1, MODEL) == None
  {
    var idle := Task(false, 0, 0, 0, 8192, 0, 0, [], [], []);
    var k := Task(true, 1, 0, 0, 8192, 0, 0, [0], [false], []);
    s := State([true, true, false], [ZeroPage(), ZeroPage(), ZeroPage()], map[Root(1) := Entry(1, 0)], [], [],
      [idle, k], map[], true, 1, 0);
    s' := s.(bits := [true, true, true], tasks :=
      [idle, k.(frames := [2], resident := [true], weightsKb := 4, faults := 1)]);
    WitnessOk(s);
    WitnessFault(s, s');
    FaultStrays(s, s', 1, 0, 2, ZeroPage(), 1, false);
    FaultTask(s, s', 1, 0, 2, ZeroPage(), 1, false);
    RemappedKeeps(s, s', 1, MODEL);
  }

  ghost predicate Tiny(s: State) {
    && s.bits == [true, true, false] && s.ram == [ZeroPage(), ZeroPage(), ZeroPage()]
    && s.tree == map[Root(1) := Entry(1, 0)] && s.slots == [] && s.disk == [] && s.owner == map[]
    && |s.tasks| == 2 && s.tasks[0] == Task(false, 0, 0, 0, 8192, 0, 0, [], [], [])
    && s.tasks[1] == Task(true, 1, 0, 0, 8192, 0, 0, [0], [false], []) && s.active && s.win == 1 && s.making == 0
  }

  lemma WitnessOk(s: State)
    requires Tiny(s)
    ensures StateOk(s) && Strays(s) == {} && 0 < Clear(s.bits) <= Missing(s.tree, 1, MODEL)
  {
    hide PathOf, TreeOk, Taken, RootsOk, OwnersOk, TaskOk;
    WitnessTree(s);
    WitnessTask(s);
    assert Clear([true, true, false]) == Clear([true, true]) + 1 by { assert [true, true, false][..2] == [true, true]; }
    forall u: nat, p: nat ensures !Stray(s, u, p) {
    }
  }

  lemma WitnessTask(s: State)
    requires Tiny(s)
    ensures forall u :: 0 <= u < 2 ==> TaskOk(s.tasks[u], s.tree, s.slots, s.win)
  {
    hide PathOf;
    NoneResident([false]);
    var k := s.tasks[1];
    forall p | 0 <= p < MODEL_MAX ensures ModelPageOk(k, s.tree, p) {
      assert Leaf(1, MODEL + p) !in s.tree;
    }
    forall v | HEAP <= v < HEAP + HEAP_PAGES ensures Leaf(k.root, v) !in s.tree && !HasKey(k.swapMap, v) {
    }
    assert UserOnly(s.tree, 1) && RightsOk(k, s.tree) && SwapOk(k, s.tree, s.slots);
  }

  lemma WitnessTree(s: State)
    requires Tiny(s)
    ensures TreeOk(s.ram, s.tree)
    ensures Taken(s.bits, s.tree) && RootsOk(s) && OwnersOk(s)
  {
    hide PathOf;
    EntryParts(1, 0);
    ZeroAbsent();
    forall n: Node, i: nat ensures Child(n, i) !in s.tree {
      assert |Child(n, i).path| > 0;
    }
    assert FrameOf(Entry(1, 0)) == 1;
    forall n: Node, i: nat | n in s.tree && InTree(n, i) ensures SlotAgrees(s.ram, s.tree, n, i) {
      assert n == Root(1) && s.ram[1][i] == 0;
    }
    assert RootKnown(s.tasks, 0, 1) by { assert s.tasks[1].root == 1; }
  }

  lemma WitnessFault(s: State, s': State)
    requires Tiny(s) && MemoryOk(s)
    requires s' == s.(bits := [true, true, true],
      tasks := [s.tasks[0], s.tasks[1].(frames := [2], resident := [true], weightsKb := 4, faults := 1)])
    ensures FaultedIn(s, s', 1, 0, 2, ZeroPage(), 1, false)
  {
    hide PathOf, TreeOk;
    assert [0][0 := 2] == [2] && [false][0 := true] == [true];
  }

  // ---- a heap page ----

  /** One turn of the loop in `sys_alloc`. The page counts as handed out even
      if its mapping was dropped. */
  ghost predicate HeapGrown(s: State, s': State, t: nat, f: nat, ok: bool) {
    && t < |s.tasks| && s.tasks[t].root != 0 && s.tasks[t].heapPages < HEAP_PAGES
    && var k := s.tasks[t];
    && MemoryOk(s') && Placed(s.bits, s.tree, s.ram, s'.bits, s'.tree, s'.ram, k.root, HEAP + k.heapPages, f,
       ZeroPage(), 6, ok)
    && s' == s.(bits := s'.bits, ram := s'.ram, tree := s'.tree,
       tasks := s.tasks[t := k.(heapPages := k.heapPages + 1)])
  }

  lemma HeapTask(s: State, s': State, t: nat, f: nat, ok: bool)
    requires StateOk(s) && HeapGrown(s, s', t, f, ok)
    ensures Remapped(s, s', t, HEAP + s.tasks[t].heapPages) && TaskOk(s'.tasks[t], s'.tree, s'.slots, s'.win)
    ensures View(s, t, HEAP + s.tasks[t].heapPages) == None
    ensures View(s', t, HEAP + s.tasks[t].heapPages) == if ok then Some(ZeroPage()) else None
  {
    hide FrameOf, Entry, PathOf, MemoryOk, RootsOk, OwnersOk, StraysOk, OneLeaf, RightsOk, SwapOk, ModelOk, Residents,
      Find, UserOnly;
    var k, k', v := s.tasks[t], s'.tasks[t], HEAP + s.tasks[t].heapPages;
    assert Leaf(k.root, v) !in s.tree;
    EntryParts(f, 7);
    UserOnlyKept(s.tree, s'.tree, k.root, v, k.root);
    RootInTree(s.tree, s'.tree, k.root, v);
    RightsKept(k, k', s.tree, s'.tree, v);
    HeapKept(k, k', s.tree, s'.tree, v);
    SwapKept(k, k', s.tree, s'.tree, s.slots, v);
    ModelKept(k, k', s.tree, s'.tree, v, s.win);
  }

  lemma HeapStrays(s: State, s': State, t: nat, f: nat, ok: bool)
    requires StateOk(s) && HeapGrown(s, s', t, f, ok)
    ensures StraysOk(s') && Strays(s') == Strays(s)
  {
    hide FrameOf, PathOf, MemoryOk, TaskOk, Find, RootsOk, OwnersOk, StraysOk, OneLeaf, LooseKept, Placed;
    var k, v := s.tasks[t], HEAP + s.tasks[t].heapPages;
    PlacedLoose(s.bits, s.tree, s.ram, s'.bits, s'.tree, s'.ram, k.root, v, f, ZeroPage(), 6, ok);
    PlacedOneLeaf(s.bits, s.tree, s.ram, s'.bits, s'.tree, s'.ram, k.root, v, f, ZeroPage(), 6, ok);
    StraysElsewhere(s, s', k.root, v);
  }

  // ---- changes that touch no page ----

  predicate NonResident(k: Task) { forall p :: 0 <= p < |k.resident| ==> !k.resident[p] }

  /** Memory and tree stay as they are; model pages stay, or none is or was
      resident. */
  lemma StraysSame(s: State, s': State)
    requires StraysOk(s) && s'.bits == s.bits && s'.tree == s.tree && |s'.tasks| == |s.tasks|
    requires forall u ::
      0 <= u < |s.tasks| ==> SameModel(s, s', u) || (NonResident(s.tasks[u]) && NonResident(s'.tasks[u]))
    ensures StraysOk(s') && Strays(s') == Strays(s)
  {
    hide Loose, StraysOk;
    forall u: nat, p: nat
      ensures (Stray(s', u, p) <==> Stray(s, u, p))
        && (Stray(s', u, p) ==> s'.tasks[u].frames[p] == s.tasks[u].frames[p])
    {
      if u < |s.tasks| { assert SameModel(s, s', u) || (NonResident(s.tasks[u]) && NonResident(s'.tasks[u])); }
    }
    StraysStay(s, s');
    SameStrays(s, s');
  }

  lemma Refreshed(s: State, s': State, t: nat, k': Task)
    requires StateOk(s) && t < |s.tasks| && s' == s.(tasks := s.tasks[t := k'])
    requires k'.root == s.tasks[t].root && k'.swapMap == s.tasks[t].swapMap && TaskOk(k', s.tree, s.slots, s.win)
    requires (k'.frames == s.tasks[t].frames && k'.resident == s.tasks[t].resident)
      || (NonResident(s.tasks[t]) && NonResident(k'))
    ensures StateOk(s') && SameViews(s, s')
  {
    hide TreeOk, Taken, TaskOk, OneLeaf, Find, Leaf, StraysOk;
    StraysSame(s, s');
    OwnersKept(s, s');
    RootsKeptAll(s, s');
    forall u: nat, w: nat | w < VPNS ensures View(s', u, w) == View(s, u, w) {
    }
  }

  lemma RootsKeptAll(s: State, s': State)
    requires RootsOk(s) && s'.making == s.making && |s'.tasks| == |s.tasks| && s'.tree == s.tree
    requires forall u :: 0 <= u < |s.tasks| ==> s'.tasks[u].root == s.tasks[u].root
    ensures RootsOk(s')
  {
    forall n | n in s'.tree ensures RootKnown(s'.tasks, s'.making, n.root) {
      RootStays(s.tasks, s'.tasks, s.making, n.root);
    }
  }

  /** Bigger arrays, all zero: nothing was resident, because the window only
      grows after everything was invalidated. */
  lemma EnsuredTask(s: State, t: nat, k': Task)
    requires StateOk(s) && t < |s.tasks| && s.tasks[t].root != 0 && |s.tasks[t].frames| < s.win
    requires k' == s.tasks[t].(frames := seq(s.win, _ => 0), resident := seq(s.win, _ => false))
    ensures TaskOk(k', s.tree, s.slots, s.win) && Residents(s.tasks[t].resident) == 0 && Residents(k'.resident) == 0
    ensures NonResident(s.tasks[t]) && NonResident(k')
  {
    hide FrameOf, PathOf, OneLeaf, Clear, Find, UserOnly, EntOk, TreeOk, Taken, OwnersOk, RootsOk, SwapOk, HeapOk,
      RightsOk, Residents;
    var k := s.tasks[t];
    NoneResident(k.resident);
    NoneResident(k'.resident);
    forall p | 0 <= p < MODEL_MAX ensures ModelPageOk(k', s.tree, p) {
      assert ModelPageOk(k, s.tree, p);
    }
    SameButModel(k, k', s.tree, s.slots);
  }

  lemma SameButModel(k: Task, k': Task, tree: Tree, slots: seq<bool>)
    requires k'.root == k.root && k'.swapMap == k.swapMap && k'.heapUsed == k.heapUsed && k'.heapPages == k.heapPages
    ensures RightsOk(k, tree) ==> RightsOk(k', tree)
    ensures HeapOk(k, tree) ==> HeapOk(k', tree)
    ensures SwapOk(k, tree, slots) ==> SwapOk(k', tree, slots)
  {
    hide PathOf, Find, FrameOf, HasKey;
    if HeapOk(k, tree) {
      forall v | HEAP + k.heapPages <= v < HEAP + HEAP_PAGES ensures Leaf(k'.root, v) !in tree
        && !HasKey(k'.swapMap, v) {
        assert Leaf(k.root, v) !in tree;
      }
    }
    forall e | EntOk(k, tree, slots, e) ensures EntOk(k', tree, slots, e) {
    }
  }

  lemma {:induction false} NoneResident(r: seq<bool>)
    ensures Residents(r) == 0 <==> forall i :: 0 <= i < |r| ==> !r[i]
  {
    if r != [] {
      var q := r[..|r| - 1];
      NoneResident(q);
      assert forall i :: 0 <= i < |q| ==> r[i] == q[i];
    }
  }

  /** With nothing resident anywhere, the window can take any size. */
  lemma WindowChanged(s: State, s': State, win: nat)
    requires StateOk(s) && 1 <= win <= MODEL_MAX && s' == s.(win := win)
    requires forall t :: 0 <= t < |s.tasks| ==> Residents(s.tasks[t].resident) == 0
    ensures StateOk(s') && SameViews(s, s')
  {
    hide FrameOf, PathOf, TreeOk, Taken, OneLeaf, Clear, Find, UserOnly, RightsOk, HeapOk, SwapOk, Residents, OwnersOk,
      RootsOk, TaskOk;
    forall u | 0 <= u < |s.tasks| ensures TaskOk(s'.tasks[u], s'.tree, s'.slots, s'.win) {
      WindowTask(s.tasks[u], s.tree, s.slots, s.win, win);
    }
    WindowOwners(s, s');
    StraysSame(s, s');
    forall u: nat, w: nat | w < VPNS ensures View(s', u, w) == View(s, u, w) {
    }
  }

  lemma WindowTask(k: Task, tree: Tree, slots: seq<bool>, win: nat, win': nat)
    requires TaskOk(k, tree, slots, win) && Residents(k.resident) == 0
    ensures TaskOk(k, tree, slots, win')
  {
    hide FrameOf, PathOf, Residents, ModelPageOk, RightsOk, HeapOk, SwapOk;
  }

  lemma WindowOwners(s: State, s': State)
    requires OwnersOk(s) && RootsOk(s) && s' == s.(win := s'.win)
    ensures OwnersOk(s') && RootsOk(s')
  {
  }

  // ---- a user's store ----

  ghost predicate Stored(s: State, s': State, t: nat, v: nat, off: nat, word: nat) {
    && t < |s.tasks| && s.tasks[t].root != 0 && Ordinary(v) && off < 512
    && var leaf := Leaf(s.tasks[t].root, v);
    && leaf in s.tree && FrameOf(s.tree[leaf]) < |s.ram|
    && var f := FrameOf(s.tree[leaf]);
    && s' == s.(ram := s.ram[f := Write(s.ram[f], off, word)])
  }

  /** A store reaches one word of one page of one task. */
  lemma StoreKeeps(s: State, s': State, t: nat, v: nat, off: nat, word: nat)
    requires StateOk(s) && Stored(s, s', t, v, off, word)
    ensures Strays(s') == Strays(s)
    ensures off < 512 && StateOk(s') && View(s, t, v).Some?
      && View(s', t, v) == Some(Write(View(s, t, v).value, off, word))
    ensures forall u: nat, w: nat :: w < VPNS && (u != t || w != v) ==> View(s', u, w) == View(s, u, w)
  {
    hide FrameOf, PathOf, RootsOk, OwnersOk, StraysOk, OneLeaf, Find, NodeOk, SlotAgrees, TaskOk, Taken, View, TreeOk;
    var leaf := Leaf(s.tasks[t].root, v);
    StoreTree(s, s', t, v, off, word);
    StoreOwners(s, s');
    StraysSame(s, s');
    forall u: nat, w: nat | w < VPNS && (u != t || w != v) ensures View(s', u, w) == View(s, u, w) {
      if u >= |s.tasks| || s.tasks[u].root == 0 {
        NoView(s, u, w);
        NoView(s', u, w);
      } else {
        if u != t { RootsDiffer(s, t, u); }
        EntOnDisk(s, u, w);
        ViewKept(s, s', s.tasks[t].root, v, u, w);
      }
    }
    StoreView(s, t, v);
    StoreView(s', t, v);
  }

  lemma StoreView(s: State, t: nat, v: nat)
    requires t < |s.tasks| && s.tasks[t].root != 0 && Leaf(s.tasks[t].root, v) in s.tree
    requires FrameOf(s.tree[Leaf(s.tasks[t].root, v)]) < |s.ram|
    ensures View(s, t, v) == Some(s.ram[FrameOf(s.tree[Leaf(s.tasks[t].root, v)])])
  {
  }

  lemma StoreOwners(s: State, s': State)
    requires OwnersOk(s) && RootsOk(s) && s' == s.(ram := s'.ram)
    ensures OwnersOk(s') && RootsOk(s')
  {
  }

  lemma StoreTree(s: State, s': State, t: nat, v: nat, off: nat, word: nat)
    requires StateOk(s) && Stored(s, s', t, v, off, word)
    ensures TreeOk(s'.ram, s'.tree) && PagesKept(s, s', s.tasks[t].root, v)
      && OneLeaf(s.tree, s'.tree, s.tasks[t].root, v)
  {
    hide FrameOf, PathOf, RootsOk, OwnersOk, StraysOk, Find, SlotAgrees, TaskOk, Taken;
    TreeKept(s.ram, s.tree, s'.ram);
  }
}
