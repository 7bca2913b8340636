/** Address spaces come with a task and go with it. */
module Lifecycle {
  import opened Wrappers
  import opened Frames
  import opened PageTables
  import opened Paging
  import opened Tasks
  import opened Steps
  import opened Swapping
  import opened Residency

  // ---- exit ----

  function OwnersWithout(owner: map<nat, (nat, nat)>, t: nat): map<nat, (nat, nat)> {
    map x | x in owner && owner[x].0 != t :: owner[x]
  }

  predicate NamesSlot(m: seq<SwapEnt>, x: nat) {
    exists i :: 0 <= i < |m| && m[i].slot == x
  }

  /** `slots` with every slot of the list `m` given back. */
  ghost predicate SlotsCleared(slots: seq<bool>, slots': seq<bool>, m: seq<SwapEnt>) {
    |slots'| == |slots| && forall x :: 0 <= x < |slots| ==> slots'[x] == (slots[x] && !NamesSlot(m, x))
  }

  /** The memory side of `sched_exit_user`. */
  ghost predicate Exited(s: State, s': State, t: nat, k': Task) {
    && t < |s.tasks| && s.tasks[t].root != 0
    && k'.root == 0 && k'.swapMap == [] && k'.frames == [] && k'.resident == []
    && MemoryOk(s') && SlotsCleared(s.slots, s'.slots, s.tasks[t].swapMap)
       && LooseKept(s.bits, s.tree, s'.bits, s'.tree)
    && s' == s.(tree := Without(s.tree, s.tasks[t].root), bits := s'.bits, slots := s'.slots, tasks := s.tasks[t := k'],
                owner := OwnersWithout(s.owner, t))
  }

  lemma ExitOwners(s: State, s': State, t: nat, k': Task)
    requires StateOk(s) && Exited(s, s', t, k')
    ensures OwnersOk(s')
    ensures forall u :: 0 <= u < |s.tasks| && u != t ==> SlotsKept(s.tasks[u], s.slots, s'.slots)
  {
    hide FrameOf, PathOf, MemoryOk, TaskOk, RootsOk, Leaf;
    var m := s.tasks[t].swapMap;
    forall x | x in s.owner && s.owner[x].0 == t ensures NamesSlot(m, x) {
      var i :| 0 <= i < |m| && m[i] == SwapEnt(s.owner[x].1, x);
    }
    forall x | NamesSlot(m, x) ensures x in s.owner && s.owner[x].0 == t {
      var i :| 0 <= i < |m| && m[i].slot == x;
      assert m[i] in m;
    }
    forall u, e | 0 <= u < |s.tasks| && u != t && e in s.tasks[u].swapMap ensures !NamesSlot(m, e.slot) {
      assert s.owner[e.slot] == (u, e.key);
    }
    assert !s.active ==> s'.owner == map[];
  }

  lemma ExitRoots(s: State, s': State, t: nat, k': Task)
    requires StateOk(s) && Exited(s, s', t, k')
    ensures RootsOk(s')
  {
    hide FrameOf, PathOf, MemoryOk, TaskOk, OwnersOk, Leaf, SlotsCleared;
    forall n | n in s'.tree ensures RootKnown(s'.tasks, s'.making, n.root) {
      if !(n.root == s.making && s.making != 0) {
        var u :| 0 <= u < |s.tasks| && s.tasks[u].root == n.root && n.root != 0;
        assert s'.tasks[u].root == n.root;
      }
    }
  }

  /** The strays of task `t`, or all others. */
  ghost function StraysOf(s: State, t: nat, own: bool): set<(nat, nat)> {
    set x | x in Strays(s) && (x.0 == t) == own
  }

  /** A stray of another task stays one. */
  lemma ExitStrays(s: State, s': State, t: nat, k': Task)
    requires StateOk(s) && Exited(s, s', t, k')
    ensures StraysOk(s') && Strays(s') == StraysOf(s, t, false)
  {
    hide FrameOf, PathOf, MemoryOk, TaskOk, OwnersOk, RootsOk, StraysOk, SlotsCleared, Loose, LooseKept;
    forall u: nat, p: nat ensures Stray(s', u, p) <==> Stray(s, u, p) && u != t {
      if u < |s.tasks| && u != t {
        StateRoots(s);
        RootsDiffer(s, t, u);
      }
    }
    StraysStay(s, s');
    assert forall x :: x in Strays(s') <==> x in Strays(s) && x.0 != t;
  }

  /** After an exit the system is consistent, and no other task notices. */
  lemma ExitKeeps(s: State, s': State, t: nat, k': Task)
    requires StateOk(s) && Exited(s, s', t, k')
    ensures StateOk(s') && Strays(s') == StraysOf(s, t, false)
    ensures forall u: nat, w: nat :: w < VPNS ==> View(s', u, w) == if u == t then None else View(s, u, w)
  {
    hide FrameOf, PathOf, TreeOk, Taken, TaskOk, OwnersOk, RootsOk, StraysOk, SlotsCleared, Find, SlotsKept;
    var root := s.tasks[t].root;
    ExitOwners(s, s', t, k');
    ExitRoots(s, s', t, k');
    ExitStrays(s, s', t, k');
    forall u | 0 <= u < |s.tasks| ensures TaskOk(s'.tasks[u], s'.tree, s'.slots, s'.win) {
      if u == t {
        NoTask(k', s'.tree, s'.slots, s'.win);
      } else {
        RootsDiffer(s, t, u);
        OtherSpace(s.tasks[u], s.tree, s'.tree, s.slots, s'.slots, s.win);
      }
    }
    forall u: nat, w: nat | w < VPNS ensures View(s', u, w) == if u == t then None else View(s, u, w) {
      if u < |s.tasks| && u != t { RootsDiffer(s, t, u); }
    }
  }

  lemma NoTask(k: Task, tree: Tree, slots: seq<bool>, win: nat)
    requires k.root == 0 && k.swapMap == [] && k.frames == [] && k.resident == []
    ensures TaskOk(k, tree, slots, win)
  {
  }

  // ---- spawn ----

  /** Pages that a new address space may get: image, script, stack. */
  predicate ImagePage(v: int) { Ordinary(v) && !(HEAP <= v < HEAP + HEAP_PAGES) }

  /** The space that is being built maps nothing else, all of it read-write. */
  ghost predicate MakingOk(tree: Tree, root: nat) {
    && Root(root) in tree && UserOnly(tree, root)
    && forall v: nat {:trigger Leaf(root, v)} ::
       v < VPNS && Leaf(root, v) in tree ==> ImagePage(v) && tree[Leaf(root, v)] % 4096 == 7
  }

  /** What page `v` of the space that is being built holds. */
  function Made(s: State, v: nat): Option<Page> {
    var leaf := Leaf(s.making, v);
    if leaf in s.tree && FrameOf(s.tree[leaf]) < |s.ram| then Some(s.ram[FrameOf(s.tree[leaf])]) else None
  }

  /** Of that space, only the pages from `from` to `to` may differ. */
  ghost predicate MadeKept(s: State, s': State, from: nat, to: nat) {
    forall w: nat :: w < VPNS && !(from <= w < to) ==> Made(s', w) == Made(s, w)
  }

  ghost predicate Started(s: State, s': State, root: nat) {
    && s.making == 0 && root != 0 && root < |s.bits| && !s.bits[root] && MemoryOk(s')
    && (forall n :: n in s.tree ==> n.root != root)
    && LooseKept(s.bits, s.tree, s'.bits, s'.tree)
    && |s'.ram| == |s.ram| && (forall f :: 0 <= f < |s.ram| && f != root ==> s'.ram[f] == s.ram[f])
    && s' == s.(tree := s.tree[Root(root) := Entry(root, 0)], bits := s'.bits, ram := s'.ram, making := root)
  }

  lemma StartKeeps(s: State, s': State, root: nat)
    requires StateOk(s) && Started(s, s', root)
    ensures StateOk(s') && SameViews(s, s') && MakingOk(s'.tree, root)
  {
    hide FrameOf, Entry, PathOf, TreeOk, Taken, TaskOk, OwnersOk, RootsOk, StraysOk, Find, SlotsKept, HasKey;
    StartRoots(s, s', root);
    StartStrays(s, s');
    SameOwners(s, s');
    forall u | 0 <= u < |s.tasks| ensures s.tasks[u].root != root && TaskOk(s'.tasks[u], s'.tree, s'.slots, s'.win) {
      TaskRootIn(s, u);
      SameSlots(s.tasks[u], s.slots);
      OtherSpace(s.tasks[u], s.tree, s'.tree, s.slots, s'.slots, s.win);
    }
    forall n | n in s.tree ensures FrameOf(s.tree[n]) != root {
      TakenNot(s, n, root);
    }
    forall u: nat, w: nat | w < VPNS ensures View(s', u, w) == View(s, u, w) {
    }
  }

  /** Only the tree may differ, and no task loses a page. */
  lemma StartStrays(s: State, s': State)
    requires StraysOk(s) && LooseKept(s.bits, s.tree, s'.bits, s'.tree) && s'.tasks == s.tasks
    requires forall u, n: Node ::
      0 <= u < |s.tasks| && n.root == s.tasks[u].root != 0 && |n.path| == 4 ==> (n in s.tree <==> n in s'.tree)
    ensures StraysOk(s') && Strays(s') == Strays(s)
  {
    hide FrameOf, PathOf, StraysOk, Loose, LooseKept;
    StraysStay(s, s');
    SameStrays(s, s');
  }

  lemma TaskRootIn(s: State, u: nat)
    requires StateOk(s) && u < |s.tasks|
    ensures s.tasks[u].root != 0 ==> Root(s.tasks[u].root) in s.tree
  {
  }

  lemma TakenNot(s: State, n: Node, f: nat)
    requires MemoryOk(s) && n in s.tree && f < |s.bits| && !s.bits[f]
    ensures FrameOf(s.tree[n]) != f
  {
  }

  lemma SameOwners(s: State, s': State)
    requires OwnersOk(s) && s'.slots == s.slots && s'.owner == s.owner && s'.active == s.active && s'.tasks == s.tasks
    ensures OwnersOk(s')
  {
  }

  lemma StartRoots(s: State, s': State, root: nat)
    requires StateOk(s) && Started(s, s', root)
    ensures RootsOk(s')
  {
    hide FrameOf, Entry, PathOf, TreeOk, Taken, OwnersOk, Find;
    forall n | n in s'.tree ensures RootKnown(s'.tasks, s'.making, n.root) {
      if n in s.tree && n.root != root { assert RootKnown(s.tasks, s.making, n.root); }
    }
  }

  /** One more page of the space that is being built. */
  ghost predicate MadePage(s: State, s': State, v: nat, f: nat, content: Page, ok: bool) {
    && s.making != 0 && MakingOk(s.tree, s.making) && ImagePage(v) && MemoryOk(s')
    && Placed(s.bits, s.tree, s.ram, s'.bits, s'.tree, s'.ram, s.making, v, f, content, 6, ok)
    && s' == s.(bits := s'.bits, ram := s'.ram, tree := s'.tree)
  }

  lemma MakeKeeps(s: State, s': State, v: nat, f: nat, content: Page, ok: bool)
    requires StateOk(s) && MadePage(s, s', v, f, content, ok)
    ensures StateOk(s') && SameViews(s, s') && MakingOk(s'.tree, s'.making)
    ensures MadeKept(s, s', v, v + 1) && (ok ==> Made(s', v) == Some(content))
  {
    hide FrameOf, Entry, PathOf, TreeOk, Taken, TaskOk, OwnersOk, RootsOk, StraysOk, Find, SlotsKept, HasKey, OneLeaf,
      UserOnly, Made, MadeKept;
    MakeContents(s, s', v, f, content, ok);
    var root := s.making;
    EntryParts(f, 7);
    SameOwners(s, s');
    MakeStrays(s, s', v, f, content, ok);
    OneLeafRoots(s.tree, s'.tree, root, v);
    RootsKept(s, s', root) by { assert RootKnown(s.tasks, s.making, root); }
    UserOnlyKept(s.tree, s'.tree, root, v, root);
    RootInTree(s.tree, s'.tree, root, v);
    forall w: nat | w < VPNS && Leaf(root, w) in s'.tree ensures ImagePage(w) && s'.tree[Leaf(root, w)] % 4096 == 7 {
      if w != v {
        LeavesDiffer(root, v, w);
        OtherLeaf(s.tree, s'.tree, root, v, Leaf(root, w));
      } else {
        OldLeaf(s, v);
      }
    }
    forall u | 0 <= u < |s.tasks| ensures s.tasks[u].root != root && TaskOk(s'.tasks[u], s'.tree, s'.slots, s'.win) {
      NotMaking(s, u);
      SameSlots(s.tasks[u], s.slots);
      OtherTask(s.tasks[u], s.tree, s'.tree, s.slots, s'.slots, s.win, root, v);
    }
    forall u: nat, w: nat | w < VPNS ensures View(s', u, w) == View(s, u, w) {
      MakeView(s, s', v, u, w);
    }
  }

  lemma MakeStrays(s: State, s': State, v: nat, f: nat, content: Page, ok: bool)
    requires StateOk(s) && MadePage(s, s', v, f, content, ok)
    ensures StraysOk(s') && Strays(s') == Strays(s)
  {
    hide FrameOf, PathOf, MemoryOk, TaskOk, OwnersOk, RootsOk, StraysOk, LooseKept, OneLeaf, Placed, MakingOk;
    PlacedLoose(s.bits, s.tree, s.ram, s'.bits, s'.tree, s'.ram, s.making, v, f, content, 6, ok);
    PlacedOneLeaf(s.bits, s.tree, s.ram, s'.bits, s'.tree, s'.ram, s.making, v, f, content, 6, ok);
    StraysElsewhere(s, s', s.making, v);
  }

  lemma MakeContents(s: State, s': State, v: nat, f: nat, content: Page, ok: bool)
    requires StateOk(s) && MadePage(s, s', v, f, content, ok)
    ensures MadeKept(s, s', v, v + 1) && (ok ==> Made(s', v) == Some(content))
  {
    hide FrameOf, Entry, PathOf, TreeOk, Taken, TaskOk, OwnersOk, RootsOk, StraysOk, OneLeaf, UserOnly, Find;
    EntryParts(f, 7);
    PlacedOneLeaf(s.bits, s.tree, s.ram, s'.bits, s'.tree, s'.ram, s.making, v, f, content, 6, ok);
    forall w: nat | w < VPNS && w != v ensures Made(s', w) == Made(s, w) {
      LeavesDiffer(s.making, v, w);
      OtherLeaf(s.tree, s'.tree, s.making, v, Leaf(s.making, w));
    }
  }

  lemma OldLeaf(s: State, v: nat)
    requires MakingOk(s.tree, s.making) && v < VPNS
    ensures Leaf(s.making, v) in s.tree ==> s.tree[Leaf(s.making, v)] % 4096 == 7
  {
  }

  lemma NotMaking(s: State, u: nat)
    requires RootsOk(s) && u < |s.tasks| && s.making != 0
    ensures s.tasks[u].root != s.making
  {
  }

  lemma OtherLeaf(tree: Tree, tree': Tree, root: nat, v: nat, n: Node)
    requires OneLeaf(tree, tree', root, v) && |n.path| == 4 && n != Leaf(root, v)
    ensures (n in tree <==> n in tree') && (n in tree ==> tree'[n] == tree[n])
  {
  }

  lemma MakeView(s: State, s': State, v: nat, u: nat, w: nat)
    requires StateOk(s) && s.making != 0 && s' == s.(bits := s'.bits, ram := s'.ram, tree := s'.tree) && v < VPNS
      && w < VPNS
    requires OneLeaf(s.tree, s'.tree, s.making, v) && PagesKept(s, s', s.making, v)
    ensures View(s', u, w) == View(s, u, w)
  {
    if u < |s.tasks| && s.tasks[u].root != 0 {
      hide *;
      MakeParts(s);
      NotMaking(s, u);
      EntOnDisk(s, u, w);
      ViewKept(s, s', s.making, v, u, w);
    }
  }

  lemma MakeParts(s: State)
    requires StateOk(s)
    ensures RootsOk(s)
  {
  }

  /** The finished space is handed to the task in slot `t`. */
  ghost predicate Adopted(s: State, s': State, t: nat, k': Task) {
    && t < |s.tasks| && s.tasks[t].root == 0 && s.making != 0 && MakingOk(s.tree, s.making)
    && k'.user && k'.root == s.making && k'.heapUsed == 0 && k'.heapPages == 0
    && k'.swapMap == [] && k'.frames == [] && k'.resident == []
    && s' == s.(tasks := s.tasks[t := k'], making := 0)
  }

  lemma AdoptKeeps(s: State, s': State, t: nat, k': Task)
    requires StateOk(s) && Adopted(s, s', t, k')
    ensures StateOk(s') && Strays(s') == Strays(s)
    ensures forall u: nat, w: nat :: w < VPNS ==> View(s', u, w) == if u == t then Made(s, w) else View(s, u, w)
  {
    hide FrameOf, Entry, PathOf, TreeOk, Taken, Find, UserOnly, EntOk, TaskOk, RootsOk, OwnersOk, StraysOk, MakingOk;
    AdoptRoots(s, s', t, k');
    AdoptTask(s, s', t, k');
    NoList(s, t);
    OwnersKept(s, s');
    StraysSame(s, s');
    forall u: nat, w: nat | w < VPNS ensures View(s', u, w) == if u == t then Made(s, w) else View(s, u, w) {
    }
  }

  lemma NoList(s: State, t: nat)
    requires StateOk(s) && t < |s.tasks| && s.tasks[t].root == 0
    ensures s.tasks[t].swapMap == [] && s.tasks[t].resident == []
  {
  }

  lemma AdoptRoots(s: State, s': State, t: nat, k': Task)
    requires StateOk(s) && Adopted(s, s', t, k')
    ensures RootsOk(s')
  {
    hide FrameOf, PathOf, MemoryOk, TaskOk, OwnersOk, MakingOk;
    forall n | n in s'.tree ensures RootKnown(s'.tasks, s'.making, n.root) {
      if n.root == s.making {
        assert s'.tasks[t].root == n.root;
      } else {
        var u :| 0 <= u < |s.tasks| && s.tasks[u].root == n.root && n.root != 0;
        assert s'.tasks[u].root == n.root;
      }
    }
  }

  lemma AdoptTask(s: State, s': State, t: nat, k': Task)
    requires StateOk(s) && Adopted(s, s', t, k')
    ensures TaskOk(k', s'.tree, s'.slots, s'.win)
  {
    hide FrameOf, PathOf, MemoryOk, RootsOk, OwnersOk, StraysOk, Find, UserOnly;
    forall p | 0 <= p < MODEL_MAX ensures ModelPageOk(k', s.tree, p) {
      assert Leaf(k'.root, MODEL + p) !in s.tree;
    }
    forall v | HEAP <= v < HEAP + HEAP_PAGES ensures Leaf(k'.root, v) !in s.tree {
    }
    assert RightsOk(k', s.tree) by {
      forall v | InWindow(v) ensures Leaf(k'.root, v) !in s.tree {
      }
    }
  }

  /** A space given up: `vmm_free_address_space` on the failure paths. */
  ghost predicate Abandoned(s: State, s': State) {
    && s.making != 0 && MemoryOk(s') && LooseKept(s.bits, s.tree, s'.bits, s'.tree)
    && s' == s.(tree := Without(s.tree, s.making), bits := s'.bits, making := 0)
  }

  lemma AbandonKeeps(s: State, s': State)
    requires StateOk(s) && Abandoned(s, s')
    ensures StateOk(s') && SameViews(s, s')
  {
    hide FrameOf, PathOf, TreeOk, Taken, TaskOk, OwnersOk, RootsOk, StraysOk, Find, SlotsKept;
    SameOwners(s, s');
    AbandonRoots(s, s');
    forall u | 0 <= u < |s.tasks| ensures s.tasks[u].root != s.making { NotMaking(s, u); }
    StartStrays(s, s');
    forall u | 0 <= u < |s.tasks| ensures TaskOk(s'.tasks[u], s'.tree, s'.slots, s'.win)
      && s.tasks[u].root != s.making {
      NotMaking(s, u);
      SameSlots(s.tasks[u], s.slots);
      OtherSpace(s.tasks[u], s.tree, s'.tree, s.slots, s'.slots, s.win);
    }
    forall u: nat, w: nat | w < VPNS ensures View(s', u, w) == View(s, u, w) {
    }
  }

  lemma AbandonRoots(s: State, s': State)
    requires StateOk(s) && Abandoned(s, s')
    ensures RootsOk(s')
  {
    hide FrameOf, PathOf, MemoryOk, TaskOk, OwnersOk, Leaf;
    forall n | n in s'.tree ensures RootKnown(s'.tasks, s'.making, n.root) {
      assert n in s.tree && n.root != s.making && RootKnown(s.tasks, s.making, n.root);
      var u :| 0 <= u < |s.tasks| && s.tasks[u].root == n.root && n.root != 0;
      assert s'.tasks[u].root == n.root;
    }
  }
}
