/** Address spaces: building, changing, walking and tearing down the tables. */
module Paging {
  import opened Frames
  import opened PageTables

  /** Frame 0 and every frame of the tree are marked as taken. */
  ghost predicate Taken(bits: seq<bool>, tree: Tree) {
    |bits| > 0 && bits[0] && forall n :: n in tree ==> FrameOf(tree[n]) < |bits| && bits[FrameOf(tree[n])]
  }

  /** A frame that is taken, though not for any address space. */
  ghost predicate Loose(bits: seq<bool>, tree: Tree, f: nat) {
    0 < f < |bits| && bits[f] && !HasFrame(tree, f)
  }

  ghost predicate LooseKept(bits: seq<bool>, tree: Tree, bits': seq<bool>, tree': Tree) {
    forall f: nat {:trigger Loose(bits, tree, f)} :: Loose(bits, tree, f) ==> Loose(bits', tree', f)
  }

  predicate IsTable(tree: Tree, f: nat) {
    exists n :: n in tree && |n.path| < 4 && FrameOf(tree[n]) == f
  }

  /** Frames that were taken and are not tables keep their contents. */
  ghost predicate Untouched(bits: seq<bool>, tree: Tree, ram: seq<Page>, ram': seq<Page>) {
    && |ram'| == |ram| == |bits|
    && forall f :: 0 <= f < |bits| && bits[f] && !IsTable(tree, f) ==> ram'[f] == ram[f]
  }

  /** The last-level table of a page. */
  function TableOf(root: nat, vpn: nat): Node { Node(root, PathOf(vpn)[..3]) }

  /** Tables that a walk to `vpn` would still have to create. */
  function Missing(tree: Tree, root: nat, vpn: nat): (k: nat)
    ensures k <= 3
  {
    Absent(tree, Node(root, PathOf(vpn)[..1])) + Absent(tree, Node(root, PathOf(vpn)[..2])) + Absent(tree,
      TableOf(root, vpn))
  }

  function Absent(tree: Tree, n: Node): nat { if n in tree then 0 else 1 }

  /** `tree'` adds to `tree` only tables on the way to `vpn`. */
  ghost predicate Grown(tree: Tree, tree': Tree, root: nat, vpn: nat) {
    && (forall n :: n in tree ==> n in tree' && tree'[n] == tree[n])
    && (forall n :: n in tree' && n !in tree ==> n.root == root && 1 <= |n.path| <= 3 && n.path <= PathOf(vpn))
  }

  /** The bitmap after taking the frames that `tree'` has beyond `bits`. */
  ghost predicate TakenFor(bits: seq<bool>, bits': seq<bool>, tree': Tree) {
    |bits'| == |bits| && forall f :: 0 <= f < |bits| ==> (bits'[f] <==> bits[f] || HasFrame(tree', f))
  }

  /** The bitmap after giving back the frames of `ns`. */
  ghost predicate Released(bits: seq<bool>, bits': seq<bool>, tree: Tree, ns: set<Node>) {
    |bits'| == |bits| && forall f :: 0 <= f < |bits| ==> (bits'[f] <==> bits[f] && f !in FramesOf(tree, ns))
  }

  /** From one state to another, only new tables on the way to `vpn` were
      added, each in a frame that was free. */
  ghost predicate Widened(b: seq<bool>, t: Tree, r: seq<Page>, b': seq<bool>, t': Tree, r': seq<Page>, root: nat,
      vpn: nat) {
    && Grown(t, t', root, vpn) && TakenFor(b, b', t') && Untouched(b, t, r, r') && (Packed(b) ==> Packed(b'))
    && forall n :: n in t' && n !in t ==> FrameOf(t'[n]) < |b| && !b[FrameOf(t'[n])]
  }

  lemma WidenedTwice(b0: seq<bool>, t0: Tree, r0: seq<Page>, b1: seq<bool>, t1: Tree, r1: seq<Page>,
                     b2: seq<bool>, t2: Tree, r2: seq<Page>, root: nat, vpn: nat)
    requires Widened(b0, t0, r0, b1, t1, r1, root, vpn) && Widened(b1, t1, r1, b2, t2, r2, root, vpn)
    ensures Widened(b0, t0, r0, b2, t2, r2, root, vpn)
  {
    hide FrameOf, PathOf, Untouched;
    forall f | 0 <= f < |b0| ensures b2[f] <==> b0[f] || HasFrame(t2, f) {
      if HasFrame(t1, f) {
        var n :| n in t1 && FrameOf(t1[n]) == f;
        assert n in t2;
      }
    }
    UntouchedOn(b0, t0, r0, b1, t1, r1, r2, root, vpn);
  }

  lemma WidenedKeeps(b0: seq<bool>, t0: Tree, r0: seq<Page>, b1: seq<bool>, t1: Tree, r1: seq<Page>, root: nat,
      vpn: nat, f: nat)
    requires Widened(b0, t0, r0, b1, t1, r1, root, vpn) && f < |b0| && b0[f]
    ensures f < |b1| && b1[f] && (HasFrame(t1, f) ==> HasFrame(t0, f)) && (IsTable(t1, f) ==> IsTable(t0, f))
  {
    hide FrameOf, PathOf;
    if HasFrame(t1, f) {
      var n :| n in t1 && FrameOf(t1[n]) == f;
      assert n in t0;
    }
    if IsTable(t1, f) {
      var n :| n in t1 && |n.path| < 4 && FrameOf(t1[n]) == f;
      assert n in t0;
    }
  }

  lemma WidenedParts(b: seq<bool>, t: Tree, r: seq<Page>, b': seq<bool>, t': Tree, r': seq<Page>, root: nat, vpn: nat)
    requires Widened(b, t, r, b', t', r', root, vpn)
    ensures Grown(t, t', root, vpn) && TakenFor(b, b', t') && Untouched(b, t, r, r')
    ensures NewFrames(b, t, t', Leaf(root, vpn)) && (Packed(b) ==> Packed(b'))
  {
  }

  lemma UntouchedOn(b0: seq<bool>, t0: Tree, r0: seq<Page>, b1: seq<bool>, t1: Tree, r1: seq<Page>, r2: seq<Page>,
                    root: nat, vpn: nat)
    requires Widened(b0, t0, r0, b1, t1, r1, root, vpn) && Untouched(b1, t1, r1, r2)
    ensures Untouched(b0, t0, r0, r2)
  {
    assert Untouched(b0, t0, r0, r1);
    hide Widened;
    forall f | 0 <= f < |b0| && b0[f] && !IsTable(t0, f) ensures r2[f] == r0[f] {
      WidenedKeeps(b0, t0, r0, b1, t1, r1, root, vpn, f);
    }
  }

  lemma WidenedByOne(bits: seq<bool>, tree: Tree, r: seq<Page>, r': seq<Page>, n: Node, i: nat, e: nat, vpn: nat)
    requires Taken(bits, tree) && Child(n, i) !in tree && FrameOf(e) < |bits| && !bits[FrameOf(e)]
    requires |n.path| < 3 && n.path + [i] <= PathOf(vpn) && Untouched(bits, tree, r, r')
    requires Packed(bits) ==> Packed(bits[FrameOf(e) := true])
    ensures Widened(bits, tree, r, bits[FrameOf(e) := true], tree[Child(n, i) := e], r', n.root, vpn)
  {
    hide FrameOf, Untouched, PathOf;
    var tree' := tree[Child(n, i) := e];
    forall f | 0 <= f < |bits| ensures bits[FrameOf(e) := true][f] <==> bits[f] || HasFrame(tree', f) {
      if f == FrameOf(e) {
        assert FrameOf(tree'[Child(n, i)]) == f;
      } else if HasFrame(tree', f) {
        var m :| m in tree' && FrameOf(tree'[m]) == f;
        assert m in tree;
      }
    }
  }

  lemma WidenedByNone(bits: seq<bool>, tree: Tree, r: seq<Page>, root: nat, vpn: nat)
    requires Taken(bits, tree) && |r| == |bits|
    ensures Widened(bits, tree, r, bits, tree, r, root, vpn)
  {
    hide FrameOf, PathOf;
  }

  lemma AboveLast(ram: seq<Page>, tree: Tree, root: nat, vpn: nat)
    requires TreeOk(ram, tree)
    ensures Leaf(root, vpn) in tree ==> TableOf(root, vpn) in tree
    ensures TableOf(root, vpn) in tree ==> Node(root, PathOf(vpn)[..2]) in tree && Node(root, PathOf(vpn)[..1]) in tree
  {
    hide FrameOf, Present, Entry, ForTable, ForPage, PathOf, SlotAgrees, NodeOk;
    PathParts(root, PathOf(vpn));
  }

  lemma RootsOnly(ram: seq<Page>, tree: Tree, root: nat)
    requires TreeOk(ram, tree) && Root(root) !in tree
    ensures forall n :: n in tree ==> n.root != root
  {
    hide FrameOf, Present, Entry, ForTable, ForPage, SlotAgrees;
    forall n | n in tree ensures n.root != root {
      assert NodeOk(tree, n, |ram|);
    }
  }

  lemma BelowNone(bits: seq<bool>, tree: Tree, n: Node)
    ensures Below(tree, n, 0) == {} && Released(bits, bits, tree, {})
  {
  }

  lemma BelowAll512(tree: Tree, n: Node, i: nat)
    requires i < 512
    ensures Under(tree, Child(n, i)) <= Below(tree, n, 512)
  {
    forall m | m in Under(tree, Child(n, i)) ensures m in Below(tree, n, 512) {
      assert m.path[|n.path|] == i && n.path == m.path[..|n.path| + 1][..|n.path|];
    }
  }

  lemma StillMarked(b: seq<bool>, b': seq<bool>, ram: seq<Page>, tree: Tree, gone: set<Node>, ns: set<Node>)
    requires TreeOk(ram, tree) && Released(b, b', tree, gone) && gone !! ns
    requires forall n :: n in ns && n in tree ==> FrameOf(tree[n]) < |b| && b[FrameOf(tree[n])]
    ensures forall n :: n in ns && n in tree ==> FrameOf(tree[n]) < |b'| && b'[FrameOf(tree[n])]
  {
    hide FrameOf, NodeOk, SlotAgrees;
  }

  lemma ReleasedMore(b0: seq<bool>, b1: seq<bool>, b2: seq<bool>, tree: Tree, s: set<Node>, t: set<Node>)
    requires Released(b0, b1, tree, s) && Released(b1, b2, tree, t)
    ensures Released(b0, b2, tree, s + t)
  {
    hide FrameOf;
    assert FramesOf(tree, s + t) == FramesOf(tree, s) + FramesOf(tree, t);
  }

  /** Nothing but the user slot of the space is in use. */
  ghost predicate UserOnly(tree: Tree, root: nat) {
    forall n :: n in tree && n.root == root && n.path != [] ==> n.path[0] == USER
  }

  lemma UserTree(ram: seq<Page>, tree: Tree, root: nat)
    requires TreeOk(ram, tree) && Root(root) in tree && UserOnly(tree, root)
    ensures Below(tree, Root(root), 512) == Under(tree, Child(Root(root), USER))
    ensures Under(tree, Root(root)) == Below(tree, Root(root), 512) + {Root(root)}
  {
    BelowAll(ram, tree, Root(root));
    BelowAll512(tree, Root(root), USER);
    forall n | n in Below(tree, Root(root), 512) ensures n in Under(tree, Child(Root(root), USER)) {
      assert Child(Root(root), USER).path == [n.path[0]];
    }
  }

  lemma WithoutSize(tree: Tree, root: nat)
    ensures |Without(tree, root)| == |tree| - |Under(tree, Root(root))|
  {
    assert Without(tree, root).Keys == tree.Keys - Under(tree, Root(root));
  }

  lemma StillTaken(b: seq<bool>, b': seq<bool>, ram: seq<Page>, tree: Tree, root: nat)
    requires TreeOk(ram, tree) && Root(root) in tree && Taken(b, tree) && Released(b, b', tree, Under(tree, Root(root)))
    ensures Taken(b', Without(tree, root))
  {
    hide FrameOf, SlotAgrees;
    var ns := Under(tree, Root(root));
    forall n | n in tree && n.root != root ensures b'[FrameOf(tree[n])] {
      assert FrameOf(tree[n]) !in FramesOf(tree, ns);
    }
    forall n | n in ns ensures FrameOf(tree[n]) != 0 {
      assert NodeOk(tree, n, |ram|);
    }
  }

  lemma StillTakenAll(b: seq<bool>, tree: Tree, root: nat)
    requires Taken(b, tree)
    ensures Taken(b, Without(tree, root))
  {
    hide FrameOf;
  }

  lemma PathParts(root: nat, p: seq<nat>)
    requires |p| == 4
    ensures Child(Root(root), p[0]) == Node(root, p[..1]) && Child(Node(root, p[..1]), p[1]) == Node(root, p[..2])
    ensures Child(Node(root, p[..2]), p[2]) == Node(root, p[..3]) && Child(Node(root, p[..3]), p[3]) == Node(root, p)
    ensures p[..1] <= p && p[..2] <= p && p[..3] <= p
  {
    assert p[..1] == [p[0]] && p[..2] == p[..1] + [p[1]] && p[..3] == p[..2] + [p[2]] && p == p[..3] + [p[3]];
  }

  /** Only the mapping of page `v` of space `root` may differ; tables may be new. */
  ghost predicate OneLeaf(tree: Tree, tree': Tree, root: nat, v: nat) {
    && (forall n: Node ::
       |n.path| == 4 && n != Leaf(root, v) ==> (n in tree <==> n in tree') && (n in tree ==> tree'[n] == tree[n]))
    && (forall n :: n in tree && |n.path| != 4 ==> n in tree' && tree'[n] == tree[n])
    && (forall n :: n in tree' && n !in tree ==> n.root == root && n.path != [] && n.path[0] == USER)
  }

  /** What `t'` has beyond `t`, but for `leaf`, are tables on the way to it, in
      frames that were clear. */
  ghost predicate NewFrames(b: seq<bool>, t: Tree, t': Tree, leaf: Node) {
    forall n :: n in t' && n !in t && n != leaf ==>
      n.root == leaf.root && |n.path| < 4 && n.path <= leaf.path && FrameOf(t'[n]) < |b| && !b[FrameOf(t'[n])]
  }

  /** What "take a frame, fill it, map it at `v`" does once a frame was found:
      nothing else changes, and the page is there unless a table was missing and
      could not be made (`!ok`), when the frame stays taken for nothing. */
  ghost predicate Placed(b: seq<bool>, t: Tree, r: seq<Page>, b': seq<bool>, t': Tree, r': seq<Page>,
                         root: nat, v: nat, f: nat, content: Page, flags: nat, ok: bool) {
    && |b| == |r| == |b'| == |r'| && 0 < f < |b| && !b[f] && b'[f] && (forall x :: 0 <= x < |b| && b[x] ==> b'[x])
    && OneLeaf(t, t', root, v) && NewFrames(b[f := true], t, t', Leaf(root, v)) && (Packed(b[f := true]) ==> Packed(b'))
    && (forall x :: 0 <= x < |b| && b'[x] ==> b[x] || x == f || HasFrame(t', x))
    && (forall x :: x in t && |x.path| == 4 && FrameOf(t[x]) < |r| ==> r'[FrameOf(t[x])] == r[FrameOf(t[x])])
    && var leaf := Leaf(root, v);
       if ok then leaf in t' && t'[leaf] == Entry(f, 1 + flags) && TableOf(root, v) in t' && r'[f] == content
       else (leaf in t' <==> leaf in t) && (leaf in t ==> t'[leaf] == t[leaf])
  }

  /** A frame that was nobody's still is, unless it is the one that was placed. */
  lemma PlacedLoose(b: seq<bool>, t: Tree, r: seq<Page>, b': seq<bool>, t': Tree, r': seq<Page>,
                    root: nat, v: nat, f: nat, content: Page, flags: nat, ok: bool)
    requires Placed(b, t, r, b', t', r', root, v, f, content, flags, ok) && flags < 7
    ensures LooseKept(b, t, b', t')
    ensures !ok && !HasFrame(t, f) ==> Loose(b', t', f)
  {
    hide FrameOf, Entry, PathOf;
    EntryParts(f, 1 + flags);
    forall x: nat | Loose(b, t, x) || (!ok && x == f && !HasFrame(t, f)) ensures Loose(b', t', x) {
      forall n | n in t' ensures FrameOf(t'[n]) != x {
        if n in t && n != Leaf(root, v) { SameNode(t, t', root, v, n); }
      }
    }
  }

  lemma PlacedOneLeaf(b: seq<bool>, t: Tree, r: seq<Page>, b': seq<bool>, t': Tree, r': seq<Page>,
                      root: nat, v: nat, f: nat, content: Page, flags: nat, ok: bool)
    requires Placed(b, t, r, b', t', r', root, v, f, content, flags, ok)
    ensures OneLeaf(t, t', root, v)
  {
  }

  lemma SameNode(t: Tree, t': Tree, root: nat, v: nat, n: Node)
    requires OneLeaf(t, t', root, v) && n in t && n != Leaf(root, v)
    ensures n in t' && t'[n] == t[n]
  {
  }

  lemma CutLoose(b: seq<bool>, t: Tree, leaf: Node)
    requires leaf in t
    ensures LooseKept(b, t, Marked(b, FrameOf(t[leaf]), FrameOf(t[leaf]) + 1, false), t - {leaf})
  {
    hide FrameOf;
  }

  lemma GrownIsOneLeaf(t: Tree, mid: Tree, t': Tree, root: nat, v: nat, e: nat)
    requires Grown(t, mid, root, v) && PathOf(v)[0] == USER && (t' == mid || t' == mid[Leaf(root, v) := e])
    ensures OneLeaf(t, t', root, v)
  {
    hide FrameOf, PathOf;
    forall n | n in t' && n !in t ensures n.root == root && n.path != [] && n.path[0] == USER {
      if n != Leaf(root, v) {
        assert n.path[0] == PathOf(v)[0];
      }
    }
  }

  lemma NewFramesAll(b: seq<bool>, t: Tree, mid: Tree, t': Tree, root: nat, v: nat, e: nat)
    requires NewFrames(b, t, mid, Leaf(root, v)) && (t' == mid || t' == mid[Leaf(root, v) := e]) && Taken(b, t)
    requires Grown(t, mid, root, v)
    ensures NewFrames(b, t, t', Leaf(root, v))
    ensures forall x: nat :: HasFrame(mid, x) ==> (x < |b| && b[x]) || HasFrame(t', x)
  {
    hide FrameOf, PathOf;
    forall x: nat | HasFrame(mid, x) ensures (x < |b| && b[x]) || HasFrame(t', x) {
      var n :| n in mid && FrameOf(mid[n]) == x;
      if n !in t {
        assert n in t' && t'[n] == mid[n];
      }
    }
  }

  lemma TreeKeptBut(ram: seq<Page>, tree: Tree, f: nat, page: Page)
    requires TreeOk(ram, tree) && f < |ram| && !HasFrame(tree, f)
    ensures TreeOk(ram[f := page], tree)
  {
    hide FrameOf, PathOf, SlotAgrees;
    forall n | n in tree ensures FrameOf(tree[n]) != f && FrameOf(tree[n]) < |ram| {
      assert NodeOk(tree, n, |ram|);
    }
    TreeKept(ram, tree, ram[f := page]);
  }

  lemma PlacedParts(ram: seq<Page>, t: Tree, mid: Tree, t': Tree, root: nat, v: nat)
    requires Grown(t, mid, root, v) && TreeOk(ram, t') && mid.Keys <= t'.Keys
    ensures (Leaf(root, v) in mid <==> Leaf(root, v) in t)
      && (Leaf(root, v) in t ==> mid[Leaf(root, v)] == t[Leaf(root, v)])
    ensures Leaf(root, v) in t' ==> TableOf(root, v) in t'
  {
    AboveLast(ram, t', root, v);
  }

  lemma FreshFrame(b: seq<bool>, t: Tree, f: nat)
    requires Taken(b, t) && f < |b| && !b[f]
    ensures !HasFrame(t, f) && !IsTable(t, f)
  {
    hide FrameOf;
  }

  /** A clear frame is no root table. */
  lemma NoRoot(b: seq<bool>, ram: seq<Page>, t: Tree, f: nat)
    requires Taken(b, t) && TreeOk(ram, t) && f < |b| && !b[f]
    ensures Root(f) !in t
  {
    hide FrameOf, SlotAgrees, NodeOk, TreeOk;
    if Root(f) in t { RootFrame(ram, t, f); }
  }

  /** A table is written in a slot of the tree, so no root in the kernel's slot. */
  lemma RootSlot(ram: seq<Page>, t: Tree, n: Node, i: nat, f: nat)
    requires TreeOk(ram, t) && n in t && InTree(n, i) && FrameOf(t[n]) == f
    ensures Root(f) in t ==> i != KERNEL
  {
    hide FrameOf, SlotAgrees, NodeOk, TreeOk;
    if Root(f) in t { RootIsIts(ram, t, n, f); }
  }

  lemma PagesStand(b: seq<bool>, ram: seq<Page>, t: Tree, r: seq<Page>, r': seq<Page>)
    requires TreeOk(ram, t) && Untouched(b, t, r, r') && Taken(b, t)
    ensures forall x :: x in t && |x.path| == 4 ==> FrameOf(t[x]) < |r| && r'[FrameOf(t[x])] == r[FrameOf(t[x])]
  {
    hide FrameOf, SlotAgrees, NodeOk;
    forall x | x in t && |x.path| == 4 ensures !IsTable(t, FrameOf(t[x])) {
    }
  }

  class AddressSpaces {
    const pool: FramePool
    const ram: array<Page>
    const kernelEntry: nat   // the boot table's slot for the kernel
    ghost var tree: Tree

    ghost predicate Valid()
      reads this, pool, pool.bitmap, ram
    {
      && pool.Valid() && ram.Length == pool.bitmap.Length
      && TreeOk(ram[..], tree) && Taken(pool.bitmap[..], tree) && KernelShared(ram[..], tree, kernelEntry)
    }

    constructor (pool: FramePool, ram: array<Page>, kernelEntry: nat)
      requires pool.Valid() && ram.Length == pool.bitmap.Length > 0 && pool.bitmap[0]
      ensures Valid() && tree == map[] && this.pool == pool && this.ram == ram
    {
      this.pool, this.ram, this.kernelEntry := pool, ram, kernelEntry;
      tree := map[];
    }

    /** Taken frames that no address space accounts for. */
    ghost function Unowned(): int
      reads this, pool
    {
      pool.bitmap.Length - pool.free - |tree|
    }

    /** `pt_new`: hang an empty table below slot `i` of `table`. */
    method NewTable(table: nat, i: nat, ghost n: Node) returns (f: nat)
      requires Valid() && n in tree && FrameOf(tree[n]) == table
      requires InTree(n, i) && |n.path| < 3 && Child(n, i) !in tree
      modifies this, pool, pool.bitmap, ram
      ensures Valid() && Untouched(old(pool.bitmap[..]), old(tree), old(ram[..]), ram[..])
      ensures f == 0 <==> old(pool.free) == 0
      ensures f == 0 ==>
        && tree == old(tree) && pool.bitmap[..] == old(pool.bitmap[..]) && pool.free == 0 && ram[..] == old(ram[..])
      ensures f != 0 ==>
        && tree == old(tree)[Child(n, i) := Entry(f, 7)] && pool.free == old(pool.free) - 1
        && pool.bitmap[..] == old(pool.bitmap[..])[f := true]
        && f < |old(pool.bitmap[..])| && !old(pool.bitmap[f])
      ensures Packed(old(pool.bitmap[..])) ==> Packed(pool.bitmap[..])
    {
      hide FrameOf, Present, Entry, ForTable, ForPage, PathOf, Writable, UserOk, SlotAgrees, TreeOk;
      assert table < ram.Length && pool.bitmap[..][table];
      f := pool.Alloc();
      if f == 0 {
        return;
      }
      EntryParts(f, 7);
      ghost var before := ram[..];
      TreeKept(before, tree, before[f := ZeroPage()]) by {
        assert forall m :: m in tree ==> old(pool.bitmap[..])[FrameOf(tree[m])];
      }
      NoRoot(old(pool.bitmap[..]), before, tree, f);
      KernelKept(before, tree, kernelEntry, f, ZeroPage());
      ram[f] := ZeroPage();
      assert ram[..] == before[f := ZeroPage()];
      TreeAdd(ram[..], tree, n, i, Entry(f, 7));
      ghost var cleared := ram[..];
      RootSlot(before, tree, n, i, table);
      KernelKept(cleared, tree, kernelEntry, table, cleared[table][i := Entry(f, 7)]);
      ram[table] := ram[table][i := Entry(f, 7)];
      assert ram[..] == cleared[table := cleared[table][i := Entry(f, 7)]];
      tree := tree[Child(n, i) := Entry(f, 7)];
      assert IsTable(old(tree), table);
    }

    /** One level of `vmm_map`: the table at slot `i`, made if it is missing. */
    method Descend(table: nat, i: nat, root: nat, vpn: nat, ghost n: Node) returns (next: nat)
      requires Valid() && n in tree && FrameOf(tree[n]) == table
      requires InTree(n, i) && |n.path| < 3 && n.root == root && n.path + [i] <= PathOf(vpn)
      modifies this, pool, pool.bitmap, ram
      ensures Valid() && tree.Keys == old(tree).Keys + if next == 0 then {} else {Child(n, i)}
      ensures Widened(old(pool.bitmap[..]), old(tree), old(ram[..]), pool.bitmap[..], tree, ram[..], root, vpn)
      ensures next == 0 <==> old(pool.free) == 0 && Child(n, i) !in old(tree)
      ensures next == 0 ==> tree == old(tree) && pool.free == 0
      ensures next != 0 ==> Child(n, i) in tree && FrameOf(tree[Child(n, i)]) == next
      ensures |tree| + pool.free == |old(tree)| + old(pool.free)
      ensures pool.free == old(pool.free) - if Child(n, i) in old(tree) || next == 0 then 0 else 1
    {
      hide FrameOf, Present, Entry, ForTable, ForPage, PathOf, Writable, UserOk, SlotAgrees, TreeOk, Untouched, Widened,
        Packed;
      WidenedByNone(pool.bitmap[..], tree, ram[..], root, vpn);
      SlotOf(ram[..], tree, n, i);
      var e := ram[table][i];
      if !Present(e) {
        next := NewTable(table, i, n);
        if next != 0 {
          EntryParts(next, 7);
          WidenedByOne(old(pool.bitmap[..]), old(tree), old(ram[..]), ram[..], n, i, Entry(next, 7), vpn);
        }
      } else {
        next := FrameOf(e);
      }
    }

    /** The first three levels of `vmm_map`; 0 when frames run out on the way. */
    method MakeTables(root: nat, vpn: nat) returns (pt: nat)
      requires Valid() && Root(root) in tree && PathOf(vpn)[0] != KERNEL
      modifies this, pool, pool.bitmap, ram
      ensures Valid()
      ensures Widened(old(pool.bitmap[..]), old(tree), old(ram[..]), pool.bitmap[..], tree, ram[..], root, vpn)
      ensures pt != 0 <==> old(pool.free) >= Missing(old(tree), root, vpn)
      ensures pt != 0 ==> TableOf(root, vpn) in tree && FrameOf(tree[TableOf(root, vpn)]) == pt
      ensures pool.free == if pt != 0 then old(pool.free) - Missing(old(tree), root, vpn) else 0
      ensures |tree| + pool.free == |old(tree)| + old(pool.free)
    {
      hide FrameOf, Present, Entry, ForTable, ForPage, PathOf, Writable, UserOk, SlotAgrees, TreeOk, Widened, Taken,
        Grown, TakenFor, Untouched, Packed;
      var p := PathOf(vpn);
      ghost var b0, t0, r0 := pool.bitmap[..], tree, ram[..];
      PathParts(root, p);
      RootFrame(ram[..], tree, root);
      pt := Descend(root, p[0], root, vpn, Root(root));
      ghost var b1, t1, r1 := pool.bitmap[..], tree, ram[..];
      if pt == 0 {
        return;
      }
      pt := Descend(pt, p[1], root, vpn, Node(root, p[..1]));
      ghost var b2, t2, r2 := pool.bitmap[..], tree, ram[..];
      WidenedTwice(b0, t0, r0, b1, t1, r1, b2, t2, r2, root, vpn);
      if pt == 0 {
        return;
      }
      pt := Descend(pt, p[2], root, vpn, Node(root, p[..2]));
      WidenedTwice(b0, t0, r0, b2, t2, r2, pool.bitmap[..], tree, ram[..], root, vpn);
    }

    /** Write the last-level slot of `vpn`: an entry for a frame of no table, or 0. */
    method SetLeaf(pt: nat, i: nat, e: nat, ghost root: nat, ghost vpn: nat)
      requires Valid() && TableOf(root, vpn) in tree && FrameOf(tree[TableOf(root, vpn)]) == pt && i == PathOf(vpn)[3]
      requires PathOf(vpn)[0] != KERNEL
      requires e == 0 || (ForPage(e) && 0 < FrameOf(e) < pool.bitmap.Length && pool.bitmap[FrameOf(e)]
        && !HasFrame(tree, FrameOf(e)))
      modifies `tree, ram
      ensures Valid() && ram.Length == |old(ram[..])|
      ensures tree == if e == 0 then old(tree) - {Leaf(root, vpn)} else old(tree)[Leaf(root, vpn) := e]
      ensures Untouched(pool.bitmap[..], old(tree), old(ram[..]), ram[..])
    {
      hide FrameOf, Present, Entry, ForTable, ForPage, PathOf, Writable, UserOk, SlotAgrees, TreeOk;
      ghost var n, r := TableOf(root, vpn), ram[..];
      PathParts(root, PathOf(vpn));
      if e == 0 { TreeCut(r, tree, n, i); } else { TreeAdd(r, tree, n, i, e); }
      RootSlot(r, tree, n, i, pt);
      KernelKept(r, tree, kernelEntry, pt, r[pt][i := e]);
      ram[pt] := ram[pt][i := e];
      assert ram[..] == r[pt := r[pt][i := e]];
      tree := if e == 0 then tree - {Leaf(root, vpn)} else tree[Leaf(root, vpn) := e];
      assert IsTable(old(tree), pt);
    }

    /** `vmm_map`. It does nothing visible when a table is missing and frames
        run out: `ok` says which. `mid` is the tree before the page itself is
        entered. */
    method Map(root: nat, vpn: nat, frame: nat, flags: nat) returns (ghost ok: bool, ghost mid: Tree)
      requires Valid() && Root(root) in tree && PathOf(vpn)[0] != KERNEL
      requires 0 < frame < pool.bitmap.Length && pool.bitmap[frame] && !HasFrame(tree, frame)
        && (flags == 4 || flags == 6)
      modifies this, pool, pool.bitmap, ram
      ensures Valid()
      ensures Grown(old(tree), mid, root, vpn) && TakenFor(old(pool.bitmap[..]), pool.bitmap[..], mid)
      ensures NewFrames(old(pool.bitmap[..]), old(tree), mid, Leaf(root, vpn))
      ensures Packed(old(pool.bitmap[..])) ==> Packed(pool.bitmap[..])
      ensures Untouched(old(pool.bitmap[..]), old(tree), old(ram[..]), ram[..])
      ensures tree == if ok then mid[Leaf(root, vpn) := Entry(frame, 1 + flags)] else mid
      ensures ok == (old(pool.free) >= Missing(old(tree), root, vpn))
      ensures pool.free == if ok then old(pool.free) - Missing(old(tree), root, vpn) else 0
      ensures |mid| + pool.free == |old(tree)| + old(pool.free)
    {
      hide FrameOf, Present, Entry, ForTable, ForPage, PathOf, Writable, UserOk, SlotAgrees, TreeOk, Widened, Taken,
        Grown, TakenFor, Missing, Untouched, HasFrame, NewFrames, Packed;
      ghost var b0, t0, r0 := pool.bitmap[..], tree, ram[..];
      var pt := MakeTables(root, vpn);
      ok, mid := pt != 0, tree;
      WidenedParts(b0, t0, r0, pool.bitmap[..], mid, ram[..], root, vpn);
      if pt == 0 {
        return;
      }
      ghost var b1, r1 := pool.bitmap[..], ram[..];
      EntryParts(frame, 1 + flags);
      WidenedKeeps(b0, t0, r0, b1, mid, r1, root, vpn, frame);
      SetLeaf(pt, PathOf(vpn)[3], Entry(frame, 1 + flags), root, vpn);
      UntouchedOn(b0, t0, r0, b1, mid, r1, ram[..], root, vpn);
    }

    /** The walk that `vmm_unmap` and `vmm_translate` share: the last-level
        table of `vpn`, or 0. */
    method LastTable(root: nat, vpn: nat) returns (pt: nat)
      requires Valid() && Root(root) in tree && PathOf(vpn)[0] != KERNEL
      ensures pt != 0 <==> TableOf(root, vpn) in tree
      ensures pt != 0 ==> FrameOf(tree[TableOf(root, vpn)]) == pt
    {
      hide FrameOf, Present, Entry, ForTable, ForPage, PathOf, Writable, UserOk, SlotAgrees, TreeOk, Taken;
      var p := PathOf(vpn);
      ghost var r := ram[..];
      PathParts(root, p);
      RootFrame(r, tree, root);
      AboveLast(r, tree, root, vpn);
      SlotOf(r, tree, Root(root), p[0]);
      if !Present(ram[root][p[0]]) {
        return 0;
      }
      var pdpt := FrameOf(ram[root][p[0]]);
      SlotOf(r, tree, Node(root, p[..1]), p[1]);
      if !Present(ram[pdpt][p[1]]) {
        return 0;
      }
      var pd := FrameOf(ram[pdpt][p[1]]);
      SlotOf(r, tree, Node(root, p[..2]), p[2]);
      if !Present(ram[pd][p[2]]) {
        return 0;
      }
      pt := FrameOf(ram[pd][p[2]]);
    }

    /** `vmm_unmap`: exactly that page goes; no table is given back. */
    method Unmap(root: nat, vpn: nat)
      requires Valid() && Root(root) in tree && PathOf(vpn)[0] != KERNEL
      modifies `tree, ram
      ensures Valid() && tree == old(tree) - {Leaf(root, vpn)}
      ensures Untouched(pool.bitmap[..], old(tree), old(ram[..]), ram[..])
    {
      hide FrameOf, Present, Entry, ForTable, ForPage, PathOf, Writable, UserOk, SlotAgrees, TreeOk, Taken, Untouched,
        Widened;
      AboveLast(ram[..], tree, root, vpn);
      WidenedByNone(pool.bitmap[..], tree, ram[..], root, vpn);
      WidenedParts(pool.bitmap[..], tree, ram[..], pool.bitmap[..], tree, ram[..], root, vpn);
      var pt := LastTable(root, vpn);
      if pt == 0 {
        assert tree == tree - {Leaf(root, vpn)};
      } else {
        SetLeaf(pt, PathOf(vpn)[3], 0, root, vpn);
      }
    }

    /** `vmm_translate`: the frame of the page, 0 if it has none. */
    method Translate(root: nat, vpn: nat) returns (f: nat)
      requires Valid() && Root(root) in tree && PathOf(vpn)[0] != KERNEL
      ensures f == if Leaf(root, vpn) in tree then FrameOf(tree[Leaf(root, vpn)]) else 0
      ensures f != 0 <==> Leaf(root, vpn) in tree
    {
      hide FrameOf, Present, Entry, ForTable, ForPage, PathOf, Writable, UserOk, SlotAgrees, TreeOk, Taken;
      AboveLast(ram[..], tree, root, vpn);
      PathParts(root, PathOf(vpn));
      var pt := LastTable(root, vpn);
      if pt == 0 {
        return 0;
      }
      SlotOf(ram[..], tree, TableOf(root, vpn), PathOf(vpn)[3]);
      var e := ram[pt][PathOf(vpn)[3]];
      if !Present(e) {
        return 0;
      }
      f := FrameOf(e);
    }

    /** A fresh address space that shares only the kernel's slot. */
    method NewSpace() returns (root: nat)
      requires Valid()
      modifies this, pool, pool.bitmap, ram
      ensures Valid() && (root == 0 <==> old(pool.free) == 0)
      ensures root == 0 ==>
        tree == old(tree) && pool.bitmap[..] == old(pool.bitmap[..]) && ram[..] == old(ram[..]) && pool.free == 0
      ensures root != 0 ==>
        && root < pool.bitmap.Length && !old(pool.bitmap[root]) && (forall n :: n in old(tree) ==> n.root != root)
        && tree == old(tree)[Root(root) := Entry(root, 0)] && pool.free == old(pool.free) - 1
        && pool.bitmap[..] == old(pool.bitmap[..])[root := true]
        && ram[..] == old(ram[..])[root := ZeroPage()[KERNEL := kernelEntry]]
      ensures Packed(old(pool.bitmap[..])) ==> Packed(pool.bitmap[..])
    {
      hide FrameOf, Present, Entry, ForTable, ForPage, PathOf, Writable, UserOk, SlotAgrees, TreeOk;
      root := pool.Alloc();
      if root == 0 {
        return;
      }
      ghost var r := ram[..];
      var top := ZeroPage()[KERNEL := kernelEntry];
      assert !HasFrame(tree, root) by {
        assert forall n :: n in tree ==> old(pool.bitmap[..])[FrameOf(tree[n])];
      }
      TreeKept(r, tree, r[root := top]);
      ram[root] := top;
      assert ram[..] == r[root := top];
      TreeRoot(ram[..], tree, root);
      EntryParts(root, 0);
      RootsOnly(ram[..], tree, root);
      tree := tree[Root(root) := Entry(root, 0)];
    }

    /** The frames of `ns` are still marked; the memory still holds the tree. */
    ghost predicate Dying(ns: set<Node>)
      reads this, pool, pool.bitmap, ram
    {
      && pool.Valid() && ram.Length == pool.bitmap.Length && TreeOk(ram[..], tree)
      && forall n :: n in ns && n in tree ==> FrameOf(tree[n]) < pool.bitmap.Length && pool.bitmap[FrameOf(tree[n])]
    }

    /** Give back one frame of the tree. */
    method FreeNode(f: nat, ghost n: Node)
      requires Dying({n}) && n in tree && FrameOf(tree[n]) == f
      modifies pool, pool.bitmap
      ensures pool.Valid() && pool.free == old(pool.free) + 1
      ensures Released(old(pool.bitmap[..]), pool.bitmap[..], tree, {n})
    {
      pool.Free(f);
    }

    /** The innermost loop: every page of one last-level table. */
    method FreePages(pt: nat, ghost n: Node)
      requires n in tree && |n.path| == 3 && FrameOf(tree[n]) == pt && Dying(Below(tree, n, 512))
      modifies pool, pool.bitmap
      ensures pool.Valid() && pool.free == old(pool.free) + |Below(tree, n, 512)|
      ensures Released(old(pool.bitmap[..]), pool.bitmap[..], tree, Below(tree, n, 512))
    {
      hide FrameOf, Present, Entry, ForTable, ForPage, PathOf, Writable, UserOk, SlotAgrees, TreeOk;
      hide Below, Under, Released;
      ghost var b := pool.bitmap[..];
      BelowNone(b, tree, n);
      var i := 0;
      while i < 512
        invariant i <= 512 && pool.Valid()
        invariant pool.free == old(pool.free) + |Below(tree, n, i)|
        invariant Released(b, pool.bitmap[..], tree, Below(tree, n, i))
      {
        BelowStep(tree, n, i);
        BelowAll512(tree, n, i);
        SlotOf(ram[..], tree, n, i);
        ghost var c, b1 := Child(n, i), pool.bitmap[..];
        if Present(ram[pt][i]) {
          BelowAll(ram[..], tree, c);
          StillMarked(b, b1, ram[..], tree, Below(tree, n, i), {c});
          FreeNode(FrameOf(ram[pt][i]), c);
          ReleasedMore(b, b1, pool.bitmap[..], tree, Below(tree, n, i), {c});
        } else {
          UnderAbsent(ram[..], tree, c);
        }
        i := i + 1;
      }
    }

    /** A last-level table with its pages. */
    method FreeLastTable(pt: nat, ghost n: Node)
      requires n in tree && |n.path| == 3 && FrameOf(tree[n]) == pt && Dying(Under(tree, n))
      modifies pool, pool.bitmap
      ensures pool.Valid() && pool.free == old(pool.free) + |Under(tree, n)|
      ensures Released(old(pool.bitmap[..]), pool.bitmap[..], tree, Under(tree, n))
    {
      hide FrameOf, Present, Entry, ForTable, ForPage, PathOf, Writable, UserOk, SlotAgrees, TreeOk, Below, Under,
        Released;
      ghost var b := pool.bitmap[..];
      BelowAll(ram[..], tree, n);
      FreePages(pt, n);
      FreeSelf(pt, n, b);
    }

    /** The table itself, after everything below it. */
    method FreeSelf(f: nat, ghost n: Node, ghost b: seq<bool>)
      requires n in tree && FrameOf(tree[n]) == f && Dying({}) && |b| == ram.Length && f < |b| && b[f]
      requires Released(b, pool.bitmap[..], tree, Below(tree, n, 512))
      modifies pool, pool.bitmap
      ensures pool.Valid() && pool.free == old(pool.free) + 1 && |Under(tree, n)| == |Below(tree, n, 512)| + 1
      ensures Released(b, pool.bitmap[..], tree, Under(tree, n))
    {
      hide FrameOf, Present, Entry, ForTable, ForPage, PathOf, Writable, UserOk, SlotAgrees, TreeOk, Below, Under,
        Released;
      ghost var b1 := pool.bitmap[..];
      BelowAll(ram[..], tree, n);
      StillMarked(b, b1, ram[..], tree, Below(tree, n, 512), {n});
      FreeNode(f, n);
      ReleasedMore(b, b1, pool.bitmap[..], tree, Below(tree, n, 512), {n});
    }

    /** The middle loop: the tables of one directory. */
    method FreeDirectory(pd: nat, ghost n: Node)
      requires n in tree && |n.path| == 2 && FrameOf(tree[n]) == pd && Dying(Under(tree, n))
      modifies pool, pool.bitmap
      ensures pool.Valid() && pool.free == old(pool.free) + |Under(tree, n)|
      ensures Released(old(pool.bitmap[..]), pool.bitmap[..], tree, Under(tree, n))
    {
      hide FrameOf, Present, Entry, ForTable, ForPage, PathOf, Writable, UserOk, SlotAgrees, TreeOk;
      hide Below, Under, Released;
      ghost var b := pool.bitmap[..];
      BelowNone(b, tree, n);
      BelowAll(ram[..], tree, n);
      var i := 0;
      while i < 512
        invariant i <= 512 && pool.Valid()
        invariant pool.free == old(pool.free) + |Below(tree, n, i)|
        invariant Released(b, pool.bitmap[..], tree, Below(tree, n, i))
      {
        BelowStep(tree, n, i);
        BelowAll512(tree, n, i);
        SlotOf(ram[..], tree, n, i);
        ghost var c, b1 := Child(n, i), pool.bitmap[..];
        if Present(ram[pd][i]) {
          StillMarked(b, b1, ram[..], tree, Below(tree, n, i), Under(tree, c));
          FreeLastTable(FrameOf(ram[pd][i]), c);
          ReleasedMore(b, b1, pool.bitmap[..], tree, Below(tree, n, i), Under(tree, c));
        } else {
          UnderAbsent(ram[..], tree, c);
        }
        i := i + 1;
      }
      FreeSelf(pd, n, b);
    }

    /** The outer loop: the directories below the user slot. */
    method FreeUserTree(pdpt: nat, ghost n: Node)
      requires n in tree && |n.path| == 1 && FrameOf(tree[n]) == pdpt && Dying(Under(tree, n))
      modifies pool, pool.bitmap
      ensures pool.Valid() && pool.free == old(pool.free) + |Under(tree, n)|
      ensures Released(old(pool.bitmap[..]), pool.bitmap[..], tree, Under(tree, n))
    {
      hide FrameOf, Present, Entry, ForTable, ForPage, PathOf, Writable, UserOk, SlotAgrees, TreeOk;
      hide Below, Under, Released;
      ghost var b := pool.bitmap[..];
      BelowNone(b, tree, n);
      BelowAll(ram[..], tree, n);
      var i := 0;
      while i < 512
        invariant i <= 512 && pool.Valid()
        invariant pool.free == old(pool.free) + |Below(tree, n, i)|
        invariant Released(b, pool.bitmap[..], tree, Below(tree, n, i))
      {
        BelowStep(tree, n, i);
        BelowAll512(tree, n, i);
        SlotOf(ram[..], tree, n, i);
        ghost var c, b1 := Child(n, i), pool.bitmap[..];
        if Present(ram[pdpt][i]) {
          StillMarked(b, b1, ram[..], tree, Below(tree, n, i), Under(tree, c));
          FreeDirectory(FrameOf(ram[pdpt][i]), c);
          ReleasedMore(b, b1, pool.bitmap[..], tree, Below(tree, n, i), Under(tree, c));
        } else {
          UnderAbsent(ram[..], tree, c);
        }
        i := i + 1;
      }
      FreeSelf(pdpt, n, b);
    }

    /** `vmm_free_address_space`. Every table and page of the space is given
        back, once, exactly when it has a user tree; the bare top-level table of
        a space without one stays taken. */
    method FreeSpace(root: nat)
      requires Valid() && Root(root) in tree && UserOnly(tree, root)
      modifies this, pool, pool.bitmap
      ensures Valid() && tree == Without(old(tree), root)
      ensures Child(Root(root), USER) in old(tree) ==>
        && pool.free == old(pool.free) + |Under(old(tree), Root(root))|
        && Released(old(pool.bitmap[..]), pool.bitmap[..], old(tree), Under(old(tree), Root(root)))
      ensures Child(Root(root), USER) !in old(tree) ==>
        && pool.free == old(pool.free) && pool.bitmap[..] == old(pool.bitmap[..])
           && Under(old(tree), Root(root)) == {Root(root)}
      ensures |tree| == |old(tree)| - |Under(old(tree), Root(root))|
    {
      hide FrameOf, Present, Entry, ForTable, ForPage, PathOf, Writable, UserOk, SlotAgrees, TreeOk;
      hide Below, Under, Released, UserOnly;
      ghost var n, c, b := Root(root), Child(Root(root), USER), pool.bitmap[..];
      RootFrame(ram[..], tree, root);
      SlotOf(ram[..], tree, n, USER);
      TreeDrop(ram[..], tree, root);
      WithoutSize(tree, root);
      UserTree(ram[..], tree, root);
      var e := ram[root][USER];
      if Present(e) {
        FreeUserTree(FrameOf(e), c);
        FreeSelf(root, n, b);
        StillTaken(b, pool.bitmap[..], ram[..], tree, root);
      } else {
        UnderAbsent(ram[..], tree, c);
        StillTakenAll(b, tree, root);
      }
      tree := Without(tree, root);
    }

    /** Fill the frame `f`, just taken from the pool, and map it at `vpn`;
        `b` is the bitmap from before it was taken. */
    method MapFilled(root: nat, vpn: nat, f: nat, content: Page, flags: nat, ghost b: seq<bool>)
        returns (ghost ok: bool)
      requires Valid() && Root(root) in tree && PathOf(vpn)[0] == USER && (flags == 4 || flags == 6)
      requires Taken(b, tree) && 0 < f < |b| && !b[f] && pool.bitmap[..] == b[f := true]
      modifies this, pool, pool.bitmap, ram
      ensures Valid() && Placed(b, old(tree), old(ram[..]), pool.bitmap[..], tree, ram[..], root, vpn, f, content,
        flags, ok)
      ensures ok == (old(pool.free) >= Missing(old(tree), root, vpn))
      ensures pool.free == (if ok then old(pool.free) - Missing(old(tree), root, vpn) else 0)
      ensures Leaf(root, vpn) !in old(tree) ==> Unowned() == old(Unowned()) - if ok then 1 else 0
    {
      hide KernelShared, FrameOf, Present, Entry, ForTable, ForPage, PathOf, Writable, UserOk, SlotAgrees, TreeOk,
        NodeOk, Grown, IsTable, HasFrame, Missing, Packed, NewFrames, Placed, TakenFor, Untouched;
      ghost var t0, r0, mid := tree, ram[..], tree;
      Fill(f, content, b);
      ok, mid := Map(root, vpn, f, flags);
      PlacedIs(b, t0, r0, pool.bitmap[..], mid, tree, ram[..], root, vpn, f, content, flags, ok);
    }

    method Fill(f: nat, content: Page, ghost b: seq<bool>)
      requires Valid() && Taken(b, tree) && 0 < f < |b| && !b[f] && pool.bitmap[..] == b[f := true]
      modifies ram
      ensures Valid() && ram[..] == old(ram[..])[f := content] && !HasFrame(tree, f)
    {
      hide KernelShared, FrameOf, PathOf, SlotAgrees, TreeOk, NodeOk, IsTable, HasFrame;
      ghost var r := ram[..];
      FreshFrame(b, tree, f);
      TreeKeptBut(r, tree, f, content);
      NoRoot(b, r, tree, f);
      KernelKept(r, tree, kernelEntry, f, content);
      ram[f] := content;
      assert ram[..] == r[f := content];
    }
  }

  lemma PlacedIs(b: seq<bool>, t: Tree, r: seq<Page>, b': seq<bool>, mid: Tree, t': Tree, r': seq<Page>,
                 root: nat, v: nat, f: nat, content: Page, flags: nat, ok: bool)
    requires Taken(b, t) && 0 < f < |b| == |r| && !b[f] && TreeOk(r, t) && (flags == 4 || flags == 6)
    requires Grown(t, mid, root, v) && TakenFor(b[f := true], b', mid)
    requires Untouched(b[f := true], t, r[f := content], r')
    requires NewFrames(b[f := true], t, mid, Leaf(root, v)) && (Packed(b[f := true]) ==> Packed(b'))
    requires t' == (if ok then mid[Leaf(root, v) := Entry(f, 1 + flags)] else mid) && TreeOk(r', t')
    requires PathOf(v)[0] == USER
    ensures Placed(b, t, r, b', t', r', root, v, f, content, flags, ok)
    ensures Leaf(root, v) in mid <==> Leaf(root, v) in t
  {
    hide FrameOf, Present, Entry, ForTable, ForPage, PathOf, SlotAgrees, TreeOk, NodeOk, Grown, IsTable, HasFrame,
      Packed, NewFrames, OneLeaf;
    FreshFrame(b, t, f);
    EntryParts(f, 1 + flags);
    PagesStand(b[f := true], r, t, r[f := content], r');
    GrownIsOneLeaf(t, mid, t', root, v, Entry(f, 1 + flags));
    NewFramesAll(b[f := true], t, mid, t', root, v, Entry(f, 1 + flags));
    PlacedParts(r', t, mid, t', root, v);
    assert forall x :: x in t ==> FrameOf(t[x]) != f;
  }
}
