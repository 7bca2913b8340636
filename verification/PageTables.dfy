/** Four-level page tables held in physical frames, and the flat map from
    virtual pages to frames that they stand for. Virtual pages are named by
    number (address / 4096); a path lists the indices of a walk. */
module PageTables {
  import opened Wrappers

  type Page = p: seq<nat> | |p| == 512 witness seq(512, _ => 0)

  function Write(p: Page, off: nat, word: nat): Page
    requires off < 512
  {
    p[off := word]
  }

  function ZeroPage(): Page { seq(512, _ => 0) }
  const KERNEL := 0   // top-level slot of the shared identity map
  const USER := 2     // top-level slot of the user region

  /** The entry for frame `f`; `flags` are the low bits P = 1, W = 2, U = 4. */
  function Entry(f: nat, flags: nat): nat { 4096 * f + flags }

  predicate Present(e: nat) { e % 2 == 1 }

  function FrameOf(e: nat): nat { e / 4096 }

  predicate Writable(e: nat) { e / 2 % 2 == 1 }

  predicate UserOk(e: nat) { e / 4 % 2 == 1 }

  /** Tables are entered with every right, so a page's own entry decides. */
  predicate ForTable(e: nat) { e % 4096 == 7 }

  predicate ForPage(e: nat) { Present(e) && e % 4096 < 8 }

  lemma EntryParts(f: nat, flags: nat)
    requires flags < 8
    ensures FrameOf(Entry(f, flags)) == f && Entry(f, flags) % 4096 == flags
    ensures flags == 7 ==> ForTable(Entry(f, flags))
    ensures flags % 2 == 1 ==> ForPage(Entry(f, flags))
  {
    var e := Entry(f, flags);
    assert e / 4096 == f && e % 4096 == flags;
    assert e == 2 * (2048 * f) + flags;
  }

  lemma ZeroAbsent()
    ensures !Present(0)
  {
  }

  lemma PageEntry(e: nat)
    requires ForPage(e)
    ensures Present(e)
  {
  }

  lemma TableEntry(e: nat)
    requires ForTable(e)
    ensures Present(e) && Writable(e) && UserOk(e)
  {
    var q := e / 4096;
    Half(e, 2048 * q + 3);
    Half(2048 * q + 3, 1024 * q + 1);
    Half(1024 * q + 1, 512 * q);
    Quarter(e);
  }

  lemma Half(x: nat, q: nat)
    requires x == 2 * q + 1
    ensures x % 2 == 1 && x / 2 == q
  {
  }

  lemma Quarter(x: nat)
    ensures x / 4 == x / 2 / 2
  {
  }

  function PathOf(vpn: nat): (p: seq<nat>)
    ensures |p| == 4 && forall k :: 0 <= k < 4 ==> p[k] < 512
  {
    [vpn / 512 / 512 / 512 % 512, vpn / 512 / 512 % 512, vpn / 512 % 512, vpn % 512]
  }

  lemma PathInjective(v: nat, w: nat)
    requires v < VPNS && w < VPNS && PathOf(v) == PathOf(w)
    ensures v == w
  {
    assert Digits(v) == Digits(w);
    DigitsOf(v);
    DigitsOf(w);
  }

  const VPNS := 0x10_0000_0000   // 36 bits of page number

  function Digits(v: nat): nat {
    var p := PathOf(v);
    ((p[0] * 512 + p[1]) * 512 + p[2]) * 512 + p[3]
  }

  lemma DigitsOf(v: nat)
    requires v < VPNS
    ensures Digits(v) == v
  {
    assert v / 512 / 512 / 512 < 512;
  }

  // ---- the tree behind the tables ----

  /** A table or page: the frame of its top-level table and the path to it. */
  datatype Node = Node(root: nat, path: seq<nat>)

  /** Every table and mapped page of every address space, with the entry that
      points at it (for a root, its bare frame address). */
  type Tree = map<Node, nat>

  function Root(r: nat): Node { Node(r, []) }

  function Child(n: Node, i: nat): Node { Node(n.root, n.path + [i]) }

  function Leaf(r: nat, vpn: nat): Node { Node(r, PathOf(vpn)) }

  predicate HasFrame(tree: Tree, f: nat) {
    exists n :: n in tree && FrameOf(tree[n]) == f
  }

  /** Slot `i` of table `n` belongs to the tree; the kernel's slot does not. */
  predicate InTree(n: Node, i: nat) {
    |n.path| < 4 && i < 512 && (n.path == [] ==> i != KERNEL)
  }

  predicate NodeOk(tree: Tree, n: Node, frames: nat)
    requires n in tree
  {
    && |n.path| <= 4 && 0 < FrameOf(tree[n]) < frames
    && Root(n.root) in tree
    && (n.path == [] ==> tree[n] == Entry(n.root, 0))
    && (1 <= |n.path| <= 3 ==> ForTable(tree[n]))
    && (|n.path| == 4 ==> ForPage(tree[n]))
  }

  /** The memory of a table agrees with the tree about slot `i`. */
  predicate SlotAgrees(ram: seq<Page>, tree: Tree, n: Node, i: nat)
    requires n in tree && FrameOf(tree[n]) < |ram| && i < 512
  {
    var e := ram[FrameOf(tree[n])][i];
    if Child(n, i) in tree then e == tree[Child(n, i)] else !Present(e)
  }

  ghost predicate TreeOk(ram: seq<Page>, tree: Tree) {
    && (forall n :: n in tree ==> NodeOk(tree, n, |ram|))
    && (forall n, i {:trigger Child(n, i)} :: Child(n, i) in tree ==> n in tree && InTree(n, i))
    && (forall n, i {:trigger Child(n, i)} :: n in tree && InTree(n, i) ==> SlotAgrees(ram, tree, n, i))
    && (forall m, n :: m in tree && n in tree && FrameOf(tree[m]) == FrameOf(tree[n]) ==> m == n)
  }

  // ---- walks ----

  /** `vmm_translate`: the entry of the page, or 0. */
  function Walk(ram: seq<Page>, root: nat, path: seq<nat>): nat
    requires root < |ram| && |path| > 0 && forall k :: 0 <= k < |path| ==> path[k] < 512
    decreases |path|
  {
    var e := ram[root][path[0]];
    if !Present(e) then 0
    else if |path| == 1 then e
    else if FrameOf(e) < |ram| then Walk(ram, FrameOf(e), path[1..])
    else 0
  }

  /** What the processor grants (section 4.6 of the Intel SDM, volume 3A): an
      access right must be set in the entry of every level. */
  datatype Access = Access(frame: nat, write: bool, user: bool)

  function Hardware(ram: seq<Page>, root: nat, path: seq<nat>): Option<Access>
    requires root < |ram| && |path| > 0 && forall k :: 0 <= k < |path| ==> path[k] < 512
    decreases |path|
  {
    var e := ram[root][path[0]];
    if !Present(e) then None
    else if |path| == 1 then Some(Access(FrameOf(e), Writable(e), UserOk(e)))
    else if FrameOf(e) < |ram| then
      match Hardware(ram, FrameOf(e), path[1..])
      case None => None
      case Some(a) => Some(Access(a.frame, a.write && Writable(e), a.user && UserOk(e)))
    else None
  }

  lemma {:induction false} WalkFrom(ram: seq<Page>, tree: Tree, n: Node, path: seq<nat>)
    requires TreeOk(ram, tree) && n in tree && |path| > 0 && |n.path| + |path| == 4
    requires forall k :: 0 <= k < |path| ==> path[k] < 512
    requires n.path == [] ==> path[0] != KERNEL
    ensures var leaf := Node(n.root, n.path + path);
      && Walk(ram, FrameOf(tree[n]), path) == (if leaf in tree then tree[leaf] else 0)
      && Hardware(ram, FrameOf(tree[n]), path) ==
           if leaf in tree then Some(Access(FrameOf(tree[leaf]), Writable(tree[leaf]), UserOk(tree[leaf]))) else None
    decreases |path|
  {
    hide FrameOf, Present, Entry, ForTable, ForPage, PathOf, Writable, UserOk;
    var c := Child(n, path[0]);
    assert NodeOk(tree, n, |ram|) && SlotAgrees(ram, tree, n, path[0]);
    if |path| == 1 {
      assert path == [path[0]];
      if c in tree {
        assert NodeOk(tree, c, |ram|);
        PageEntry(tree[c]);
      }
    } else {
      assert c.path + path[1..] == n.path + path;
      if c in tree {
        assert NodeOk(tree, c, |ram|);
        TableEntry(tree[c]);
        WalkFrom(ram, tree, c, path[1..]);
      } else if Node(n.root, n.path + path) in tree {
        AncestorsIn(ram, tree, c, path[1..]);
      }
    }
  }

  /** A node is never in the tree without the nodes above it. */
  lemma {:induction false} AncestorsIn(ram: seq<Page>, tree: Tree, n: Node, path: seq<nat>)
    requires TreeOk(ram, tree) && Node(n.root, n.path + path) in tree
    ensures n in tree
    decreases |path|
  {
    hide FrameOf, Present, Entry, ForTable, ForPage, PathOf, Writable, UserOk;
    if path == [] {
      assert n.path + path == n.path;
    } else {
      var p := path[..|path| - 1];
      assert n.path + p + [path[|p|]] == n.path + path;
      assert Child(Node(n.root, n.path + p), path[|p|]) == Node(n.root, n.path + path);
      AncestorsIn(ram, tree, n, p);
    }
  }

  /** The tables refine the flat map: a page translates exactly when the tree
      maps it, to the tree's frame, and the processor grants exactly the
      rights of the page's own entry. */
  lemma WalkIsFlat(ram: seq<Page>, tree: Tree, root: nat, vpn: nat)
    requires TreeOk(ram, tree) && Root(root) in tree && PathOf(vpn)[0] != KERNEL
    ensures root < |ram|
    ensures Walk(ram, root, PathOf(vpn)) == if Leaf(root, vpn) in tree then tree[Leaf(root, vpn)] else 0
    ensures Hardware(ram, root, PathOf(vpn)) ==
      if Leaf(root, vpn) in tree
      then Some(Access(FrameOf(tree[Leaf(root, vpn)]), Writable(tree[Leaf(root, vpn)]), UserOk(tree[Leaf(root, vpn)])))
      else None
  {
    hide FrameOf, Present, Entry, ForTable, ForPage, PathOf, Writable, UserOk;
    assert NodeOk(tree, Root(root), |ram|);
    EntryParts(root, 0);
    var p := PathOf(vpn);
    assert Root(root).path + p == p;
    WalkFrom(ram, tree, Root(root), p);
  }

  // ---- the kernel's slot ----

  /** Every address space has the same entry in the kernel's slot. */
  ghost predicate KernelShared(ram: seq<Page>, tree: Tree, e: nat) {
    forall r: nat :: Root(r) in tree ==> r < |ram| && ram[r][KERNEL] == e
  }

  /** So kernel addresses translate alike, with the same rights, in all of them. */
  lemma KernelAlike(ram: seq<Page>, tree: Tree, e: nat, r: nat, q: nat, vpn: nat)
    requires KernelShared(ram, tree, e) && Root(r) in tree && Root(q) in tree && PathOf(vpn)[0] == KERNEL
    ensures r < |ram| && q < |ram| && Walk(ram, r, PathOf(vpn)) == Walk(ram, q, PathOf(vpn))
    ensures Hardware(ram, r, PathOf(vpn)) == Hardware(ram, q, PathOf(vpn))
  {
    hide PathOf;
  }

  /** Memory changed in one frame: if that is a root, not in the kernel's slot. */
  lemma KernelKept(ram: seq<Page>, tree: Tree, e: nat, f: nat, page: Page)
    requires KernelShared(ram, tree, e) && f < |ram| && (Root(f) in tree ==> page[KERNEL] == ram[f][KERNEL])
    ensures KernelShared(ram[f := page], tree, e)
  {
  }

  /** Root tables are found in their own frames, and nowhere else. */
  lemma RootIsIts(ram: seq<Page>, tree: Tree, n: Node, f: nat)
    requires TreeOk(ram, tree) && n in tree && FrameOf(tree[n]) == f && Root(f) in tree
    ensures n == Root(f)
  {
    hide SlotAgrees, FrameOf;
    RootFrame(ram, tree, f);
  }

  // ---- what changes to memory do to the tree ----

  lemma ChildInjective(m: Node, i: nat, n: Node, j: nat)
    ensures Child(m, i) == Child(n, j) <==> m == n && i == j
  {
    if Child(m, i) == Child(n, j) {
      assert Child(m, i).path[..|Child(m, i).path| - 1] == m.path;
      assert Child(n, j).path[..|Child(n, j).path| - 1] == n.path;
      assert Child(m, i).path[|m.path|] == i;
    }
  }

  /** Reading a slot tells whether the tree goes on there, and where. */
  lemma SlotOf(ram: seq<Page>, tree: Tree, n: Node, i: nat)
    requires TreeOk(ram, tree) && n in tree && InTree(n, i)
    ensures 0 < FrameOf(tree[n]) < |ram|
    ensures var e := ram[FrameOf(tree[n])][i];
      Present(e) == (Child(n, i) in tree) && (Child(n, i) in tree ==> e == tree[Child(n, i)] && 0 < FrameOf(e) < |ram|)
  {
    hide FrameOf, Present, Entry, ForTable, ForPage, PathOf, Writable, UserOk;
    var c := Child(n, i);
    assert NodeOk(tree, n, |ram|) && SlotAgrees(ram, tree, n, i);
    if c in tree {
      assert NodeOk(tree, c, |ram|);
      if |n.path| == 3 { PageEntry(tree[c]); } else { TableEntry(tree[c]); }
    }
  }

  /** Memory that no table lives in can be written freely. */
  lemma TreeKept(ram: seq<Page>, tree: Tree, ram': seq<Page>)
    requires TreeOk(ram, tree) && |ram'| == |ram|
    requires forall n :: n in tree && |n.path| < 4 ==> ram'[FrameOf(tree[n])] == ram[FrameOf(tree[n])]
    ensures TreeOk(ram', tree)
  {
    hide FrameOf, Present, Entry, ForTable, ForPage, PathOf, Writable, UserOk;
    forall n, i | n in tree && InTree(n, i) ensures SlotAgrees(ram', tree, n, i) {
      assert SlotAgrees(ram, tree, n, i);
    }
  }

  /** Hang a fresh frame below table `n` at slot `i`: a new empty table, or a page. */
  lemma TreeAdd(ram: seq<Page>, tree: Tree, n: Node, i: nat, e: nat)
    requires TreeOk(ram, tree) && n in tree && InTree(n, i)
    requires 0 < FrameOf(e) < |ram| && !HasFrame(tree, FrameOf(e))
    requires if |n.path| == 3 then ForPage(e) else ForTable(e) && Child(n, i) !in tree && ram[FrameOf(e)] == ZeroPage()
    ensures FrameOf(tree[n]) < |ram|
    ensures TreeOk(ram[FrameOf(tree[n]) := ram[FrameOf(tree[n])][i := e]], tree[Child(n, i) := e])
  {
    hide FrameOf, Present, Entry, ForTable, ForPage, PathOf, Writable, UserOk;
    ZeroAbsent();
    var c := Child(n, i);
    assert NodeOk(tree, n, |ram|);
    var ram', tree' := ram[FrameOf(tree[n]) := ram[FrameOf(tree[n])][i := e]], tree[c := e];
    forall m | m in tree' ensures NodeOk(tree', m, |ram|) {
      if m != c { assert NodeOk(tree, m, |ram|); }
    }
    forall m: Node, j: nat | Child(m, j) in tree' ensures m in tree' && InTree(m, j) {
      ChildInjective(m, j, n, i);
    }
    forall m: Node, j: nat | m in tree' && InTree(m, j) ensures SlotAgrees(ram', tree', m, j) {
      ChildInjective(m, j, n, i);
      if m in tree {
        assert SlotAgrees(ram, tree, m, j);
        assert NodeOk(tree, m, |ram|);
        assert m == c ==> |n.path| == 3;
      } else {
        assert m == c && ram[FrameOf(e)][j] == 0;
        assert Child(m, j) !in tree;
      }
    }
  }

  /** Clear the slot of a page. */
  lemma TreeCut(ram: seq<Page>, tree: Tree, n: Node, i: nat)
    requires TreeOk(ram, tree) && n in tree && InTree(n, i) && |n.path| == 3
    ensures FrameOf(tree[n]) < |ram|
    ensures TreeOk(ram[FrameOf(tree[n]) := ram[FrameOf(tree[n])][i := 0]], tree - {Child(n, i)})
  {
    hide FrameOf, Present, Entry, ForTable, ForPage, PathOf, Writable, UserOk;
    ZeroAbsent();
    var c := Child(n, i);
    assert NodeOk(tree, n, |ram|);
    var ram', tree' := ram[FrameOf(tree[n]) := ram[FrameOf(tree[n])][i := 0]], tree - {c};
    forall m | m in tree' ensures NodeOk(tree', m, |ram|) {
      assert NodeOk(tree, m, |ram|);
    }
    forall m: Node, j: nat | Child(m, j) in tree' ensures m in tree' && InTree(m, j) {
      assert m == c ==> !InTree(m, j);
    }
    forall m: Node, j: nat | m in tree' && InTree(m, j) ensures SlotAgrees(ram', tree', m, j) {
      ChildInjective(m, j, n, i);
      assert SlotAgrees(ram, tree, m, j);
    }
  }

  lemma RootFrame(ram: seq<Page>, tree: Tree, r: nat)
    requires TreeOk(ram, tree) && Root(r) in tree
    ensures FrameOf(tree[Root(r)]) == r && 0 < r < |ram| && HasFrame(tree, r)
  {
    assert NodeOk(tree, Root(r), |ram|);
    EntryParts(r, 0);
  }

  /** A new address space: an empty top-level table but for the kernel's slot. */
  lemma TreeRoot(ram: seq<Page>, tree: Tree, f: nat)
    requires TreeOk(ram, tree) && 0 < f < |ram| && !HasFrame(tree, f)
    requires forall i :: 0 <= i < 512 && i != KERNEL ==> ram[f][i] == 0
    ensures Root(f) !in tree
    ensures TreeOk(ram, tree[Root(f) := Entry(f, 0)])
  {
    hide FrameOf, Present, Entry, ForTable, ForPage, PathOf, Writable, UserOk;
    ZeroAbsent();
    EntryParts(f, 0);
    forall r | Root(r) in tree ensures HasFrame(tree, r) { RootFrame(ram, tree, r); }
    var tree' := tree[Root(f) := Entry(f, 0)];
    forall m | m in tree' ensures NodeOk(tree', m, |ram|) {
      if m in tree { assert NodeOk(tree, m, |ram|); }
    }
    forall m: Node, j: nat | Child(m, j) in tree' ensures m in tree' && InTree(m, j) {
      assert |Child(m, j).path| > 0;
    }
    forall m: Node, j: nat | m in tree' && InTree(m, j) ensures SlotAgrees(ram, tree', m, j) {
      assert |Child(m, j).path| > 0;
      if m in tree {
        assert SlotAgrees(ram, tree, m, j);
      } else {
        assert Child(m, j) !in tree;
      }
    }
  }

  function Without(tree: Tree, root: nat): Tree {
    map n | n in tree && n.root != root :: tree[n]
  }

  /** Dropping a whole address space leaves the others as they were. */
  lemma TreeDrop(ram: seq<Page>, tree: Tree, root: nat)
    requires TreeOk(ram, tree)
    ensures TreeOk(ram, Without(tree, root))
  {
    hide FrameOf, Present, Entry, ForTable, ForPage, PathOf, Writable, UserOk;
    var tree' := Without(tree, root);
    assert forall m :: m in tree' ==> m in tree && tree'[m] == tree[m] && m.root != root;
    forall m | m in tree' ensures NodeOk(tree', m, |ram|) {
      assert NodeOk(tree, m, |ram|);
    }
    forall m: Node, j: nat | Child(m, j) in tree' ensures m in tree' && InTree(m, j) {
      assert Child(m, j) in tree;
    }
    forall m: Node, j: nat | m in tree' && InTree(m, j) ensures SlotAgrees(ram, tree', m, j) {
      assert SlotAgrees(ram, tree, m, j);
    }
  }

  // ---- whole subtrees ----

  /** `n` and everything below it. */
  function Under(tree: Tree, n: Node): set<Node> {
    set m | m in tree && m.root == n.root && n.path <= m.path
  }

  /** Everything below the first `i` slots of `n`. */
  function Below(tree: Tree, n: Node, i: nat): set<Node> {
    set m | m in tree && m.root == n.root && n.path < m.path && m.path[|n.path|] < i
  }

  function FramesOf(tree: Tree, ns: set<Node>): set<nat> {
    set m | m in ns && m in tree :: FrameOf(tree[m])
  }

  lemma BelowStep(tree: Tree, n: Node, i: nat)
    ensures Below(tree, n, i + 1) == Below(tree, n, i) + Under(tree, Child(n, i))
    ensures Below(tree, n, i) !! Under(tree, Child(n, i))
  {
    forall m | m in Below(tree, n, i + 1) && m !in Below(tree, n, i) ensures m in Under(tree, Child(n, i)) {
      assert m.path[..|n.path| + 1] == n.path + [i];
    }
    forall m | m in Under(tree, Child(n, i)) ensures m in Below(tree, n, i + 1) && m !in Below(tree, n, i) {
      assert m.path[|n.path|] == i && n.path == m.path[..|n.path| + 1][..|n.path|];
    }
  }

  lemma BelowAll(ram: seq<Page>, tree: Tree, n: Node)
    requires TreeOk(ram, tree) && n in tree
    ensures Under(tree, n) == Below(tree, n, 512) + {n} && n !in Below(tree, n, 512)
    ensures |n.path| == 4 ==> Under(tree, n) == {n}
  {
    hide FrameOf, Present, Entry, ForTable, ForPage, PathOf, Writable, UserOk, SlotAgrees;
    forall m | m in Under(tree, n) && m != n ensures m in Below(tree, n, 512) && |n.path| < 4 {
      assert |m.path| == |n.path| ==> m.path == n.path;
      var p := m.path[..|n.path| + 1];
      assert p + m.path[|n.path| + 1..] == m.path;
      AncestorsIn(ram, tree, Node(m.root, p), m.path[|n.path| + 1..]);
      assert Child(n, m.path[|n.path|]) == Node(m.root, p) by {
        assert p == n.path + [m.path[|n.path|]];
      }
    }
  }

  lemma UnderAbsent(ram: seq<Page>, tree: Tree, n: Node)
    requires TreeOk(ram, tree) && n !in tree
    ensures Under(tree, n) == {}
  {
    forall m | m in tree && m.root == n.root && n.path <= m.path ensures false {
      assert n.path + m.path[|n.path|..] == m.path;
      AncestorsIn(ram, tree, n, m.path[|n.path|..]);
    }
  }
}
