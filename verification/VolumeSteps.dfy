/** The steps that file operations are made of, and what each keeps. */
module VolumeSteps {
  import opened Wrappers
  import opened Word
  import opened Frames
  import opened Volume

  /** The blocks and the header of inode `ino`, and what its blocks hold, stay. */
  ghost predicate SameFile(v: Vol, v': Vol, ino: nat) {
    && ino < |v.inodes| && ino < |v'.inodes| && v'.inodes[ino].size == v.inodes[ino].size
       && v'.inodes[ino].blocks == v.inodes[ino].blocks
    && |v'.clusters| == |v.clusters|
    && forall i :: 0 <= i < |v.inodes[ino].blocks| && 0 < v.inodes[ino].blocks[i] < |v.clusters| ==>
         v'.clusters[v.inodes[ino].blocks[i]] == v.clusters[v.inodes[ino].blocks[i]]
  }

  lemma {:induction false} JoinedSame(a: seq<Block>, b: seq<Block>, bs: seq<nat>)
    requires |a| == |b| && forall i :: 0 <= i < |bs| && bs[i] < |a| ==> b[bs[i]] == a[bs[i]]
    ensures Joined(a, bs) == Joined(b, bs)
  {
    if bs != [] {
      JoinedSame(a, b, bs[1..]);
    }
  }

  lemma ContentSame(v: Vol, v': Vol, ino: nat)
    requires SameFile(v, v', ino) && FileShape(v.inodes[ino])
    ensures FileShape(v'.inodes[ino]) && Content(v', ino) == Content(v, ino)
  {
    var n := v.inodes[ino];
    JoinedSame(v.clusters, v'.clusters, n.blocks[..BlocksFor(n.size)]);
  }

  /** With the directory as it was, a file whose inode and blocks stay is as it was. */
  lemma FileSame(v: Vol, v': Vol, name: string, but: nat)
    requires VolOk(v) && |v'.inodes| == |v.inodes| && |v'.inodes[0].blocks| > 0 && Entries(v') == Entries(v)
    requires forall ino :: 1 <= ino < INODES && ino != but ==> SameFile(v, v', ino)
    requires var k := Position(Entries(v), name); k < |Entries(v)| ==> Entries(v)[k].inode != but
    ensures File(v', name) == File(v, name)
  {
    hide OwnersOk, FileShape, Content, SameFile;
    var es := Entries(v);
    var k := Position(es, name);
    if k < |es| {
      assert LiveAt(es, k);
      ContentSame(v, v', es[k].inode);
    }
  }

  /** The cluster behind a pointer is nobody else's. */
  lemma NotShared(v: Vol, ino: nat, i: nat)
    requires OwnersOk(v) && ino < |v.inodes| && i < |v.inodes[ino].blocks| && v.inodes[ino].blocks[i] != 0
    ensures forall j, m {:trigger v.inodes[j].blocks[m]} ::
      0 <= j < |v.inodes| && j != ino && 0 <= m < |v.inodes[j].blocks| ==>
      v.inodes[j].blocks[m] != v.inodes[ino].blocks[i]
  {
    assert v.owner[v.inodes[ino].blocks[i]] == (ino, i);
  }

  // ---- one more block ----

  /** Cluster `c`, now marked and holding `b`, becomes block `i` of inode `ino`. */
  function AddBlock(v: Vol, ino: nat, i: nat, c: nat, b: Block, size: nat): Vol
    requires ino < |v.inodes| && i < |v.inodes[ino].blocks| && c < |v.clusters| && c < |v.bits|
  {
    var n := v.inodes[ino];
    v.(inodes := v.inodes[ino := n.(blocks := n.blocks[i := c], size := size)], clusters := v.clusters[c := b],
       bits := v.bits[c := true], owner := v.owner[c := (ino, i)])
  }

  lemma AddBlockOwners(v: Vol, ino: nat, i: nat, c: nat, b: Block, size: nat)
    requires OwnersOk(v) && ino < |v.inodes| && i < |v.inodes[ino].blocks| && v.inodes[ino].blocks[i] == 0
    requires 1 <= c < |v.clusters| == |v.bits| && !v.bits[c]
    ensures OwnersOk(AddBlock(v, ino, i, c, b, size))
  {
    var v' := AddBlock(v, ino, i, c, b, size);
    forall j, m {:trigger v'.inodes[j].blocks[m]} | 0 <= j < |v'.inodes| && 0 <= m < |v'.inodes[j].blocks|
      && v'.inodes[j].blocks[m] != 0
      ensures v'.inodes[j].blocks[m] in v'.owner && v'.owner[v'.inodes[j].blocks[m]] == (j, m)
    {
      if (j, m) != (ino, i) {
        assert v'.inodes[j].blocks[m] == v.inodes[j].blocks[m];
        assert v.inodes[j].blocks[m] in v.owner;
      }
    }
    forall d | d in v'.owner
      ensures 1 <= d < |v'.bits| && v'.bits[d] && v'.owner[d].0 < |v'.inodes|
        && v'.owner[d].1 < |v'.inodes[v'.owner[d].0].blocks|
        && v'.inodes[v'.owner[d].0].blocks[v'.owner[d].1] == d
    {
      if d != c { assert d in v.owner; }
    }
  }

  /** A cluster that is not marked is nobody's block. */
  lemma FreeIsNobodys(v: Vol, c: nat, ino: nat)
    requires OwnersOk(v) && c < |v.bits| && !v.bits[c] && ino < |v.inodes| && |v.clusters| == |v.bits|
    ensures forall i :: 0 <= i < |v.inodes[ino].blocks| ==> v.inodes[ino].blocks[i] != c || c == 0
  {
    forall i | 0 <= i < |v.inodes[ino].blocks| && v.inodes[ino].blocks[i] != 0 ensures v.inodes[ino].blocks[i] != c {
      assert v.inodes[ino].blocks[i] in v.owner;
    }
  }

  /** A file grows by a block: nobody else notices. */
  lemma AddFileBlock(v: Vol, ino: nat, i: nat, c: nat, b: Block)
    requires VolOk(v) && 1 <= ino < INODES && i < MAX_BLOCKS && BlocksFor(v.inodes[ino].size) == i
      && Named(Entries(v), ino)
    requires 1 <= c < |v.clusters| && !v.bits[c]
    ensures var v' := AddBlock(v, ino, i, c, b, (i + 1) * BLOCK);
      && VolOk(v') && Entries(v') == Entries(v)
      && (forall j :: 1 <= j < INODES && j != ino ==> SameFile(v, v', j))
  {
    var v' := AddBlock(v, ino, i, c, b, (i + 1) * BLOCK);
    AddBlockOwners(v, ino, i, c, b, (i + 1) * BLOCK);
    forall j | 0 <= j < INODES ensures forall m :: 0 <= m < |v.inodes[j].blocks| ==> v.inodes[j].blocks[m] != c {
      FreeIsNobodys(v, c, j);
    }
    assert Entries(v') == Entries(v);
  }

  /** The root directory gets its block, empty. */
  lemma AddRootBlock(v: Vol, c: nat)
    requires VolOk(v) && v.inodes[0].size == 0 && 1 <= c < |v.clusters| && !v.bits[c]
    ensures var v' := AddBlock(v, 0, 0, c, Raw(ZeroBytes()), BLOCK);
      && VolOk(v') && |Entries(v')| == DIRENTS && (forall k :: !LiveAt(Entries(v'), k))
      && forall name :: File(v', name) == File(v, name)
  {
    var v' := AddBlock(v, 0, 0, c, Raw(ZeroBytes()), BLOCK);
    AddBlockOwners(v, 0, 0, c, Raw(ZeroBytes()), BLOCK);
    assert Entries(v) == [];
    forall name ensures File(v', name) == File(v, name) {
      NoneLive(Entries(v'), name);
    }
  }

  lemma NoneLive(es: seq<Dirent>, name: string)
    requires forall k :: !LiveAt(es, k)
    ensures Position(es, name) == |es|
  {
    var k := Position(es, name);
    assert k < |es| ==> LiveAt(es, k);
  }

  // ---- fewer blocks ----

  predicate PointsFrom(n: Inode, from: nat, c: nat) {
    exists i :: from <= i < |n.blocks| && n.blocks[i] == c && c != 0
  }

  /** Block pointers from `from` on given up, and their clusters unmarked. */
  function DropFrom(v: Vol, ino: nat, from: nat): Vol
    requires ino < |v.inodes|
  {
    var n := v.inodes[ino];
    v.(inodes := v.inodes[ino := n.(blocks := Cut(n.blocks, from), size := if n.size <= from * BLOCK then
      n.size else from * BLOCK)],
       bits := seq(|v.bits|, c requires 0 <= c < |v.bits| => v.bits[c] && !PointsFrom(n, from, c)),
       owner := map c | c in v.owner && !(v.owner[c].0 == ino && v.owner[c].1 >= from) :: v.owner[c])
  }

  function Cut(bs: seq<nat>, from: nat): (r: seq<nat>)
    ensures |r| == |bs| && forall i :: 0 <= i < |bs| ==> r[i] == if i < from then bs[i] else 0
  {
    seq(|bs|, i requires 0 <= i < |bs| => if i < from then bs[i] else 0)
  }

  lemma DropOwners(v: Vol, ino: nat, from: nat)
    requires OwnersOk(v) && ino < |v.inodes|
    ensures OwnersOk(DropFrom(v, ino, from))
  {
    var v', n := DropFrom(v, ino, from), v.inodes[ino];
    forall c | c in v.owner ensures PointsFrom(n, from, c) <==> (v.owner[c].0 == ino && v.owner[c].1 >= from) {
      if PointsFrom(n, from, c) {
        var i :| from <= i < |n.blocks| && n.blocks[i] == c;
        assert v.owner[v.inodes[ino].blocks[i]] == (ino, i);
      }
    }
    forall j, m {:trigger v'.inodes[j].blocks[m]} | 0 <= j < |v'.inodes| && 0 <= m < |v'.inodes[j].blocks|
      && v'.inodes[j].blocks[m] != 0
      ensures v'.inodes[j].blocks[m] in v'.owner && v'.owner[v'.inodes[j].blocks[m]] == (j, m)
    {
      assert v'.inodes[j].blocks[m] == v.inodes[j].blocks[m];
      assert v.inodes[j].blocks[m] in v.owner;
    }
    forall c | c in v'.owner
      ensures 1 <= c < |v'.bits| && v'.bits[c] && v'.owner[c].0 < |v'.inodes|
        && v'.owner[c].1 < |v'.inodes[v'.owner[c].0].blocks|
        && v'.inodes[v'.owner[c].0].blocks[v'.owner[c].1] == c
    {
      assert c in v.owner;
    }
  }

  /** A file gives up blocks: nobody else notices. */
  lemma DropFileBlocks(v: Vol, ino: nat, from: nat)
    requires VolOk(v) && 1 <= ino < INODES && from <= MAX_BLOCKS
    ensures var v' := DropFrom(v, ino, from);
      && VolOk(v') && Entries(v') == Entries(v) && (forall j :: 1 <= j < INODES && j != ino ==> SameFile(v, v', j))
      && BlocksFor(v'.inodes[ino].size) == (if BlocksFor(v.inodes[ino].size) < from then
         BlocksFor(v.inodes[ino].size) else from)
  {
    DropOwners(v, ino, from);
    var v' := DropFrom(v, ino, from);
    assert Entries(v') == Entries(v);
  }

  // ---- contents and headers ----

  function Fill(v: Vol, c: nat, b: Block): Vol
    requires c < |v.clusters|
  {
    v.(clusters := v.clusters[c := b])
  }

  /** Writing a file's own block: nobody else notices. */
  lemma FillFileBlock(v: Vol, ino: nat, i: nat, b: Block)
    requires VolOk(v) && 1 <= ino < INODES && i < MAX_BLOCKS && v.inodes[ino].blocks[i] != 0
    ensures v.inodes[ino].blocks[i] < |v.clusters|
    ensures var v' := Fill(v, v.inodes[ino].blocks[i], b);
      VolOk(v') && Entries(v') == Entries(v) && (forall j :: 1 <= j < INODES && j != ino ==> SameFile(v, v', j))
  {
    var c := v.inodes[ino].blocks[i];
    assert c in v.owner;
    var v' := Fill(v, c, b);
    NotShared(v, ino, i);
    assert Entries(v') == Entries(v);
  }

  /** A new header that needs just the blocks there are. */
  lemma SetHeader(v: Vol, ino: nat, n: Inode)
    requires VolOk(v) && 1 <= ino < INODES && n.blocks == v.inodes[ino].blocks && n.size <= MAX_BLOCKS * BLOCK
    requires BlocksFor(n.size) == BlocksFor(v.inodes[ino].size) && (n.size == 0 || Named(Entries(v), ino))
    ensures var v' := v.(inodes := v.inodes[ino := n]);
      VolOk(v') && Entries(v') == Entries(v) && (forall j :: 1 <= j < INODES && j != ino ==> SameFile(v, v', j))
  {
    var v' := v.(inodes := v.inodes[ino := n]);
    assert Entries(v') == Entries(v);
    assert OwnersOk(v') by {
      assert forall j :: 0 <= j < |v.inodes| ==> v'.inodes[j].blocks == v.inodes[j].blocks;
    }
  }

  // ---- directory entries ----

  /** The root's block with entry `k` replaced. */
  function PutEntry(v: Vol, k: nat, d: Dirent): Vol
    requires |v.inodes| > 0 && |v.inodes[0].blocks| > 0 && k < |Entries(v)|
  {
    Fill(v, v.inodes[0].blocks[0], DirBlock(Entries(v)[k := d]))
  }

  lemma EntriesPut(v: Vol, k: nat, d: Dirent)
    requires VolOk(v) && k < |Entries(v)|
    ensures Entries(PutEntry(v, k, d)) == Entries(v)[k := d]
    ensures forall j :: 1 <= j < INODES ==> SameFile(v, PutEntry(v, k, d), j)
    ensures OwnersOk(PutEntry(v, k, d))
  {
    var c := v.inodes[0].blocks[0];
    NotShared(v, 0, 0);
  }

  /** The directory knows inode `ino` by that name. */
  ghost predicate Lookups(v: Vol, name: string, ino: nat) {
    var k := Position(Entries(v), name);
    k < |Entries(v)| && Entries(v)[k].inode == ino
  }

  /** Entry `k`, free so far, names inode `ino`, which has no block and no name. */
  lemma AddEntry(v: Vol, k: nat, d: Dirent)
    requires VolOk(v) && k < |Entries(v)| && !LiveAt(Entries(v), k)
    requires 1 <= d.inode < INODES && v.used[d.inode] && !Named(Entries(v), d.inode) && 1 <= |d.name| <= NAME_MAX
    requires Position(Entries(v), d.name) == |Entries(v)|
    ensures var v' := PutEntry(v, k, d);
      VolOk(v') && File(v', d.name) == Some([]) && OthersKept(v, v', d.name) && Lookups(v', d.name, d.inode)
  {
    hide FileShape, OwnersOk, Content, SameFile;
    var v', es := PutEntry(v, k, d), Entries(v);
    EntriesPut(v, k, d);
    forall m | LiveAt(es, m) ensures es[m].name != d.name && es[m].inode != d.inode {
      assert Named(es, es[m].inode);
    }
    forall j | Named(es, j) ensures Named(Entries(v'), j) {
      var m :| 0 <= m < |es| && LiveAt(es, m) && es[m].inode == j;
      assert LiveAt(Entries(v'), m);
    }
    assert DirOk(Entries(v'), v.used);
    PositionPut(es, k, d, d.name);
    ContentEmpty(v', d.inode);
    forall other: string | other != d.name ensures File(v', other) == File(v, other) {
      PositionPut(es, k, d, other);
      var p := Position(es, other);
      if p < |es| {
        assert LiveAt(es, p);
        ContentSame(v, v', es[p].inode);
      }
    }
  }

  lemma ContentEmpty(v: Vol, ino: nat)
    requires ino < |v.inodes| && FileShape(v.inodes[ino]) && v.inodes[ino].size == 0
    ensures Content(v, ino) == []
  {
  }

  /** Where names are found after entry `k`, free before, has been filled. */
  lemma {:induction false} PositionPut(es: seq<Dirent>, k: nat, d: Dirent, name: string)
    requires k < |es| && !LiveAt(es, k) && d.inode != 0
    requires name == d.name ==> Position(es, name) == |es|
    ensures Position(es[k := d], name) == if name == d.name then k else Position(es, name)
    decreases |es|
  {
    if k == 0 {
      assert es[k := d][1..] == es[1..];
    } else {
      assert es[k := d][1..] == es[1..][k - 1 := d];
      assert LiveAt(es[1..], k - 1) == LiveAt(es, k);
      PositionPut(es[1..], k - 1, d, name);
    }
  }

  /** Where names are found after the live entry `k` has been cleared. */
  lemma {:induction false} PositionCleared(es: seq<Dirent>, k: nat, name: string)
    requires k < |es| && LiveAt(es, k) && forall m ::
      0 <= m < |es| && m != k && LiveAt(es, m) ==> es[m].name != es[k].name
    ensures Position(es[k := ZeroDirent()], name) == if name == es[k].name then |es| else Position(es, name)
    decreases |es|
  {
    var r := es[k := ZeroDirent()];
    if name == es[k].name {
      var p := Position(r, name);
      assert p < |es| ==> LiveAt(r, p) && p != k && LiveAt(es, p);
    } else if k == 0 {
      assert r[1..] == es[1..];
    } else {
      assert r[1..] == es[1..][k - 1 := ZeroDirent()];
      assert forall m :: LiveAt(es[1..], m) <==> LiveAt(es, m + 1) && m >= 0;
      PositionCleared(es[1..], k - 1, name);
    }
  }

  /** Everything of a file is given up. */
  function Unlinked(v: Vol, k: nat): Vol
    requires |v.inodes| > 0 && |v.inodes[0].blocks| > 0 && k < |Entries(v)| && Entries(v)[k].inode < |v.inodes|
      && Entries(v)[k].inode < |v.used|
  {
    var ino := Entries(v)[k].inode;
    PutEntry(v, k, ZeroDirent()).(inodes := v.inodes[ino := ZeroInode()], used := v.used[ino := false])
  }

  /** A file without blocks loses its name; no other file notices. */
  lemma RemoveEntry(v: Vol, k: nat)
    requires VolOk(v) && LiveAt(Entries(v), k) && v.inodes[Entries(v)[k].inode].size == 0
    ensures var v' := Unlinked(v, k);
      VolOk(v') && File(v', Entries(v)[k].name) == None && OthersKept(v, v', Entries(v)[k].name)
  {
    hide OwnersOk, Content, FileShape, File, OthersKept;
    var es := Entries(v);
    var ino := es[k].inode;
    var v1, v' := PutEntry(v, k, ZeroDirent()), Unlinked(v, k);
    EmptyFile(v, ino);
    EntriesPut(v, k, ZeroDirent());
    assert Entries(v') == es[k := ZeroDirent()];
    ZeroOwners(v1, ino, v'.used);
    assert DirOk(Entries(v'), v'.used);
    forall j | Named(es, j) && j != ino ensures Named(Entries(v'), j) {
      var m :| 0 <= m < |es| && LiveAt(es, m) && es[m].inode == j;
      assert LiveAt(Entries(v'), m);
    }
    RemovedFiles(v, v', k);
  }

  lemma RemovedFiles(v: Vol, v': Vol, k: nat)
    requires VolOk(v) && LiveAt(Entries(v), k) && Entries(v') == Entries(v)[k := ZeroDirent()]
      && |v'.inodes| == |v.inodes|
    requires forall j :: 1 <= j < INODES && j != Entries(v)[k].inode ==> SameFile(v, v', j)
    ensures File(v', Entries(v)[k].name) == None && OthersKept(v, v', Entries(v)[k].name)
  {
    hide OwnersOk, Content, FileShape, SameFile;
    var es := Entries(v);
    PositionCleared(es, k, es[k].name);
    forall other: string | other != es[k].name ensures File(v', other) == File(v, other) {
      PositionCleared(es, k, other);
      var p := Position(es, other);
      if p < |es| {
        assert LiveAt(es, p) && p != k;
        ContentSame(v, v', es[p].inode);
      }
    }
  }

  lemma EmptyFile(v: Vol, ino: nat)
    requires VolOk(v) && 1 <= ino < INODES && v.inodes[ino].size == 0
    ensures |v.inodes[ino].blocks| == MAX_BLOCKS && (forall i :: 0 <= i < MAX_BLOCKS ==> v.inodes[ino].blocks[i] == 0)
    ensures FileShape(ZeroInode())
  {
    hide OwnersOk, DirOk, Entries;
  }

  lemma ZeroOwners(v: Vol, ino: nat, used: seq<bool>)
    requires OwnersOk(v) && ino < |v.inodes| && |v.inodes[ino].blocks| == MAX_BLOCKS
      && (forall i :: 0 <= i < MAX_BLOCKS ==> v.inodes[ino].blocks[i] == 0)
    ensures OwnersOk(v.(inodes := v.inodes[ino := ZeroInode()], used := used))
  {
    assert v.inodes[ino].blocks == ZeroInode().blocks;
    var v' := v.(inodes := v.inodes[ino := ZeroInode()], used := used);
    assert forall j :: 0 <= j < |v.inodes| ==> v'.inodes[j].blocks == v.inodes[j].blocks;
  }

  /** An inode without a name is taken, or set up afresh. */
  lemma UseInode(v: Vol, ino: nat, n: Inode)
    requires VolOk(v) && 1 <= ino < INODES && !Named(Entries(v), ino) && n.size == 0 && n.blocks == ZeroInode().blocks
    ensures var v' := v.(inodes := v.inodes[ino := n], used := v.used[ino := true]);
      VolOk(v') && Entries(v') == Entries(v) && forall name :: File(v', name) == File(v, name)
  {
    var v' := v.(inodes := v.inodes[ino := n], used := v.used[ino := true]);
    assert v.inodes[ino].blocks == n.blocks;
    assert OwnersOk(v') by {
      assert forall j :: 0 <= j < |v.inodes| ==> v'.inodes[j].blocks == v.inodes[j].blocks;
    }
    forall name ensures File(v', name) == File(v, name) {
      var k := Position(Entries(v), name);
      if k < |Entries(v)| { assert Named(Entries(v), Entries(v)[k].inode); }
      FileSame(v, v', name, ino);
    }
  }

  // ---- the bytes of a file ----

  /** The `i`-th block's worth of `data`, filled up with zeros. */
  function Chunk(data: seq<byte>, i: nat): Bytes
    requires i * BLOCK <= |data|
  {
    if |data| - i * BLOCK >= BLOCK then
      data[i * BLOCK..(i + 1) * BLOCK] else data[i * BLOCK..] + seq(BLOCK - (|data| - i * BLOCK), _ => 0)
  }

  lemma {:induction false} JoinedAt(clusters: seq<Block>, bs: seq<nat>, i: nat, o: nat)
    requires i < |bs| && o < BLOCK && bs[i] < |clusters|
    ensures i * BLOCK + o < |Joined(clusters, bs)| && Joined(clusters, bs)[i * BLOCK + o] == AsBytes(clusters[bs[i]])[o]
    decreases |bs|
  {
    if i > 0 {
      JoinedAt(clusters, bs[1..], i - 1, o);
    }
  }

  /** Blocks that hold the chunks of `data` hold `data`. */
  lemma ContentIs(v: Vol, ino: nat, data: seq<byte>)
    requires ino < |v.inodes| && FileShape(v.inodes[ino]) && v.inodes[ino].size == |data|
    requires forall i ::
      0 <= i < BlocksFor(|data|) ==>
      v.inodes[ino].blocks[i] < |v.clusters| && AsBytes(v.clusters[v.inodes[ino].blocks[i]]) == Chunk(data, i)
    ensures Content(v, ino) == data
  {
    hide BlocksFor, Joined, AsBytes, Chunk;
    ContentLength(v, ino);
    forall x | 0 <= x < |data| ensures Content(v, ino)[x] == data[x] {
      ContentByte(v, ino, data, x / BLOCK, x % BLOCK);
    }
  }

  lemma ContentLength(v: Vol, ino: nat)
    requires ino < |v.inodes| && FileShape(v.inodes[ino])
    ensures |Content(v, ino)| == v.inodes[ino].size
  {
  }

  lemma ContentByte(v: Vol, ino: nat, data: seq<byte>, i: nat, o: nat)
    requires ino < |v.inodes| && FileShape(v.inodes[ino]) && v.inodes[ino].size == |data| && o < BLOCK
      && i * BLOCK + o < |data|
    requires forall i ::
      0 <= i < BlocksFor(|data|) ==>
      v.inodes[ino].blocks[i] < |v.clusters| && AsBytes(v.clusters[v.inodes[ino].blocks[i]]) == Chunk(data, i)
    ensures i * BLOCK + o < |Content(v, ino)| && Content(v, ino)[i * BLOCK + o] == data[i * BLOCK + o]
  {
    hide AsBytes, Joined;
    var bs := v.inodes[ino].blocks[..BlocksFor(|data|)];
    assert i < BlocksFor(|data|) && bs[i] == v.inodes[ino].blocks[i];
    JoinedAt(v.clusters, bs, i, o);
    ChunkAt(data, i, o);
  }

  lemma ChunkAt(data: seq<byte>, i: nat, o: nat)
    requires o < BLOCK && i * BLOCK + o < |data|
    ensures Chunk(data, i)[o] == data[i * BLOCK + o]
  {
  }
}
