/** How consistency and contents travel across one step of the memory system:
    every step touches the mapping of at most one page. */
module Steps {
  import opened Frames
  import opened PageTables
  import opened Paging
  import opened Tasks

  lemma LeafInjective(r: nat, v: nat, w: nat)
    requires v < VPNS && w < VPNS && Leaf(r, v) == Leaf(r, w)
    ensures v == w
  {
    PathInjective(v, w);
  }

  lemma LeavesDiffer(r: nat, v: nat, w: nat)
    requires v < VPNS && w < VPNS && v != w
    ensures Leaf(r, v) != Leaf(r, w)
  {
    hide PathOf;
    if Leaf(r, v) == Leaf(r, w) {
      LeafInjective(r, v, w);
    }
  }

  /** A change at one page leaves every other walk, of this space or another,
      and the rights it grants, as they were. */
  lemma WalksElsewhere(ram: seq<Page>, tree: Tree, ram': seq<Page>, tree': Tree, root: nat, v: nat, r: nat, w: nat)
    requires TreeOk(ram, tree) && TreeOk(ram', tree') && OneLeaf(tree, tree', root, v) && Root(r) in tree
    requires v < VPNS && w < VPNS && (r != root || w != v) && PathOf(w)[0] != KERNEL
    ensures r < |ram| && r < |ram'| && Walk(ram', r, PathOf(w)) == Walk(ram, r, PathOf(w))
    ensures Hardware(ram', r, PathOf(w)) == Hardware(ram, r, PathOf(w))
  {
    hide FrameOf, PathOf, TreeOk, Walk, Hardware, Writable, UserOk;
    if r == root { LeavesDiffer(root, v, w); }
    assert Leaf(r, w) != Leaf(root, v);
    WalkIsFlat(ram, tree, r, w);
    WalkIsFlat(ram', tree', r, w);
  }

  ghost predicate SlotsKept(k: Task, slots: seq<bool>, slots': seq<bool>) {
    forall e :: e in k.swapMap && e.slot < |slots| && slots[e.slot] ==> e.slot < |slots'| && slots'[e.slot]
  }

  lemma UserOnlyKept(tree: Tree, tree': Tree, root: nat, v: nat, r: nat)
    requires OneLeaf(tree, tree', root, v) && UserOnly(tree, r)
    ensures UserOnly(tree', r)
  {
    hide Leaf, FrameOf;
    forall n | n in tree' && n.root == r && n.path != [] ensures n.path[0] == USER {
      assert n in tree || n !in tree;
    }
  }

  ghost predicate SameSpace(tree: Tree, tree': Tree, r: nat) {
    forall n: Node :: n.root == r ==> (n in tree <==> n in tree') && (n in tree ==> tree'[n] == tree[n])
  }

  /** A task whose own address space stays as it is does not notice. */
  lemma OtherSpace(k: Task, tree: Tree, tree': Tree, slots: seq<bool>, slots': seq<bool>, win: nat)
    requires TaskOk(k, tree, slots, win) && SameSpace(tree, tree', k.root) && SlotsKept(k, slots, slots')
    ensures TaskOk(k, tree', slots', win)
  {
    hide FrameOf, PathOf, Residents, Find, HasKey;
    if k.root != 0 {
      forall v | HEAP + k.heapPages <= v < HEAP + HEAP_PAGES ensures Leaf(k.root, v) !in tree'
        && !HasKey(k.swapMap, v) {
        assert Leaf(k.root, v) !in tree;
      }
      forall p | 0 <= p < MODEL_MAX ensures ModelPageOk(k, tree', p) {
        assert ModelPageOk(k, tree, p);
      }
      forall e | e in k.swapMap ensures EntOk(k, tree', slots', e) {
        assert EntOk(k, tree, slots, e);
      }
    }
  }

  lemma OtherTask(k: Task, tree: Tree, tree': Tree, slots: seq<bool>, slots': seq<bool>, win: nat, root: nat, v: nat)
    requires OneLeaf(tree, tree', root, v) && TaskOk(k, tree, slots, win) && k.root != root
      && SlotsKept(k, slots, slots')
    ensures TaskOk(k, tree', slots', win)
  {
    hide FrameOf, PathOf, TaskOk, SlotsKept;
    forall n: Node | n.root == k.root ensures (n in tree <==> n in tree') && (n in tree ==> tree'[n] == tree[n]) {
    }
    OtherSpace(k, tree, tree', slots, slots', win);
  }

  lemma RightsKept(k: Task, k': Task, tree: Tree, tree': Tree, v: nat)
    requires OneLeaf(tree, tree', k.root, v) && RightsOk(k, tree) && k'.root == k.root && v < VPNS
    requires Leaf(k.root, v) in tree' ==>
      (Ordinary(v) ==> tree'[Leaf(k.root, v)] % 4096 == 7) && (InWindow(v) ==> tree'[Leaf(k.root, v)] % 4096 == 5)
    ensures RightsOk(k', tree')
  {
    hide FrameOf, PathOf;
    forall w | (Ordinary(w) || InWindow(w)) && Leaf(k.root, w) in tree'
      ensures (Ordinary(w) ==> tree'[Leaf(k.root, w)] % 4096 == 7)
        && (InWindow(w) ==> tree'[Leaf(k.root, w)] % 4096 == 5)
    {
      if Leaf(k.root, w) == Leaf(k.root, v) {
        LeafInjective(k.root, v, w);
      }
    }
  }

  lemma ModelKept(k: Task, k': Task, tree: Tree, tree': Tree, v: nat, win: nat)
    requires OneLeaf(tree, tree', k.root, v) && ModelOk(k, tree, win) && Ordinary(v)
    requires k'.root == k.root && k'.frames == k.frames && k'.resident == k.resident
    ensures ModelOk(k', tree', win)
  {
    hide FrameOf, PathOf, Residents;
    forall p | 0 <= p < MODEL_MAX ensures ModelPageOk(k', tree', p) {
      assert ModelPageOk(k, tree, p);
      if Leaf(k.root, MODEL + p) == Leaf(k.root, v) {
        LeafInjective(k.root, v, MODEL + p);
        assert false;
      }
    }
  }

  lemma HeapKept(k: Task, k': Task, tree: Tree, tree': Tree, v: nat)
    requires OneLeaf(tree, tree', k.root, v) && HeapOk(k, tree) && v < VPNS
    requires k'.root == k.root && k'.heapUsed <= 4096 * k'.heapPages && k.heapPages <= k'.heapPages <= HEAP_PAGES
    requires !(HEAP + k'.heapPages <= v < HEAP + HEAP_PAGES)
    requires forall w :: HasKey(k'.swapMap, w) && w != v ==> HasKey(k.swapMap, w)
    ensures HeapOk(k', tree')
  {
    hide FrameOf, PathOf, Find;
    forall w | HEAP + k'.heapPages <= w < HEAP + HEAP_PAGES
      ensures Leaf(k'.root, w) !in tree' && !HasKey(k'.swapMap, w)
    {
      assert Leaf(k.root, w) !in tree && w != v;
      if Leaf(k.root, w) == Leaf(k.root, v) {
        LeafInjective(k.root, v, w);
      }
    }
  }

  // ---- strays ----

  /** Task `u` has the same model pages as before. */
  predicate SameModel(s: State, s': State, u: nat) {
    && u < |s.tasks| == |s'.tasks| && s'.tasks[u].root == s.tasks[u].root
    && s'.tasks[u].frames == s.tasks[u].frames && s'.tasks[u].resident == s.tasks[u].resident
  }

  /** No strays are new, and their frames are left alone. */
  lemma StraysStay(s: State, s': State)
    requires StraysOk(s) && LooseKept(s.bits, s.tree, s'.bits, s'.tree)
    requires forall t: nat, p: nat ::
      Stray(s', t, p) ==> Stray(s, t, p) && s'.tasks[t].frames[p] == s.tasks[t].frames[p]
    ensures StraysOk(s')
  {
    hide Loose;
    forall t: nat, p: nat | Stray(s', t, p) ensures Loose(s'.bits, s'.tree, s'.tasks[t].frames[p]) {
      assert Stray(s, t, p);
    }
    forall t: nat, p: nat, u: nat, q: nat
      | Stray(s', t, p) && Stray(s', u, q) && s'.tasks[t].frames[p] == s'.tasks[u].frames[q]
      ensures t == u && p == q
    {
      assert Stray(s, t, p) && Stray(s, u, q);
    }
  }

  lemma SameStrays(s: State, s': State)
    requires forall t: nat, p: nat :: Stray(s', t, p) <==> Stray(s, t, p)
    ensures Strays(s') == Strays(s)
  {
    hide Leaf;
    forall t: nat, p: nat ensures (t, p) in Strays(s') <==> (t, p) in Strays(s) {
      assert Stray(s', t, p) <==> Stray(s, t, p);
    }
  }

  /** All strays but page `p` of task `t` are as they were. */
  lemma StraysBut(s: State, s': State, t: nat, p: nat)
    requires forall u: nat, q: nat :: (u != t || q != p) ==> (Stray(s', u, q) <==> Stray(s, u, q))
    ensures Strays(s') == Strays(s) - {(t, p)} + if Stray(s', t, p) then {(t, p)} else {}
  {
    hide Leaf;
    forall u: nat, q: nat | u != t || q != p ensures (u, q) in Strays(s') <==> (u, q) in Strays(s) {
      assert Stray(s', u, q) <==> Stray(s, u, q);
    }
  }

  lemma LeafStays(tree: Tree, tree': Tree, root: nat, v: nat, r: nat, w: nat)
    requires OneLeaf(tree, tree', root, v) && v < VPNS && w < VPNS && (r != root || w != v)
    ensures Leaf(r, w) in tree' <==> Leaf(r, w) in tree
  {
    hide PathOf, FrameOf;
    if r == root { LeavesDiffer(r, v, w); }
  }

  lemma StraysElsewhere(s: State, s': State, root: nat, v: nat)
    requires StateOk(s) && LooseKept(s.bits, s.tree, s'.bits, s'.tree) && OneLeaf(s.tree, s'.tree, root, v)
    requires v < VPNS && |s'.tasks| == |s.tasks| && forall u :: 0 <= u < |s.tasks| ==> SameModel(s, s', u)
    requires !InWindow(v) || forall u :: 0 <= u < |s.tasks| ==> s.tasks[u].root != root || s.tasks[u].root == 0
    ensures StraysOk(s') && Strays(s') == Strays(s)
  {
    hide PathOf, FrameOf, LooseKept, StraysOk, MemoryOk, RootsOk, OwnersOk, RightsOk, HeapOk, SwapOk, OneLeaf,
      Residents;
    forall t: nat, p: nat ensures Stray(s', t, p) <==> Stray(s, t, p) {
      if t < |s.tasks| { assert SameModel(s, s', t); }
      if t < |s.tasks| && s.tasks[t].root != 0 && p < |s.tasks[t].frames| {
        assert TaskOk(s.tasks[t], s.tree, s.slots, s.win);
        LeafStays(s.tree, s'.tree, root, v, s.tasks[t].root, MODEL + p);
      }
    }
    forall t: nat, p: nat | Stray(s', t, p) ensures s'.tasks[t].frames[p] == s.tasks[t].frames[p] {
      assert SameModel(s, s', t);
    }
    StraysStay(s, s');
    SameStrays(s, s');
  }

  /** The entries of other pages stay good when `v` changes. */
  lemma EntKept(k: Task, k': Task, tree: Tree, tree': Tree, slots: seq<bool>, slots': seq<bool>, v: nat, e: SwapEnt)
    requires OneLeaf(tree, tree', k.root, v) && v < VPNS && k'.root == k.root
    requires EntOk(k, tree, slots, e) && (e.key == v ==> Leaf(k.root, v) !in tree') && e.slot < |slots'|
      && slots'[e.slot]
    ensures EntOk(k', tree', slots', e)
  {
    hide FrameOf, PathOf;
    if Leaf(k.root, e.key) == Leaf(k.root, v) {
      LeafInjective(k.root, v, e.key);
    }
  }

  // ---- contents ----

  /** The frames of all mapped pages but `v` keep what they hold. */
  ghost predicate PagesKept(s: State, s': State, root: nat, v: nat) {
    && |s'.ram| == |s.ram|
    && forall n :: n in s.tree && |n.path| == 4 && n != Leaf(root, v) && FrameOf(s.tree[n]) < |s.ram| ==>
      s'.ram[FrameOf(s.tree[n])] == s.ram[FrameOf(s.tree[n])]
  }

  /** A page keeps its contents if neither its mapping nor its entry changes. */
  lemma ViewKept(s: State, s': State, root: nat, v: nat, t: nat, w: nat)
    requires OneLeaf(s.tree, s'.tree, root, v) && PagesKept(s, s', root, v) && v < VPNS && w < VPNS
    requires t < |s.tasks| == |s'.tasks| && s'.tasks[t].root == s.tasks[t].root
    requires s.tasks[t].root != root || w != v
    requires HasKey(s'.tasks[t].swapMap, w) == HasKey(s.tasks[t].swapMap, w)
    requires HasKey(s.tasks[t].swapMap, w) ==>
      && s'.tasks[t].swapMap[Find(s'.tasks[t].swapMap, w)] == s.tasks[t].swapMap[Find(s.tasks[t].swapMap, w)]
      && var x := s.tasks[t].swapMap[Find(s.tasks[t].swapMap, w)].slot;
         x < |s.disk| && |s'.disk| == |s.disk| && s'.disk[x] == s.disk[x]
    ensures View(s', t, w) == View(s, t, w)
  {
    hide FrameOf, PathOf, Find;
    if Leaf(root, w) == Leaf(root, v) {
      LeafInjective(root, v, w);
    }
  }
}
