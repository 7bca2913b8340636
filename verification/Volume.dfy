/** The contents of a mounted NO_OSFS volume and when they are consistent: a
    flat directory of named files whose blocks are all accounted for. */
module Volume {
  import opened Wrappers
  import opened Word

  const BLOCK := 512
  const INODES := 256
  const NAME_MAX := 24
  const MAX_BLOCKS := 10
  const DIRENTS := 16      // 32-byte entries in a block

  type Bytes = b: seq<byte> | |b| == 512 witness seq(512, _ => 0)

  function ZeroBytes(): Bytes { seq(512, _ => 0) }

  /** A block pointer of 0 means none. */
  datatype Inode = Inode(mode: nat, nlinks: nat, size: nat, mtime: nat, blocks: seq<nat>)

  function ZeroInode(): Inode { Inode(0, 0, 0, 0, seq(MAX_BLOCKS, _ => 0)) }

  /** A directory entry; inode 0 means that it is unused. */
  datatype Dirent = Dirent(inode: nat, name: string, kind: nat)

  function ZeroDirent(): Dirent { Dirent(0, "", 0) }

  datatype Super = Super(blockCount: nat, bitmapStart: nat, bitmapBlocks: nat, inodeStart: nat, dataStart: nat,
    seqno: nat)

  /** A disk block, by what was written to it; a zeroed block is empty whatever
      it is read as. */
  datatype Block =
    | Raw(bytes: Bytes)
    | InodeBlock(ins: seq<Inode>)
    | DirBlock(ents: seq<Dirent>)
    | SuperBlock(sb: Super)
    | BitBlock(bits: seq<bool>)

  function AsDir(b: Block): (r: seq<Dirent>)
    ensures |r| == DIRENTS
  {
    if b.DirBlock? && |b.ents| == DIRENTS then b.ents else seq(DIRENTS, _ => ZeroDirent())
  }

  function AsBytes(b: Block): Bytes {
    if b.Raw? then b.bytes else ZeroBytes()
  }

  /** `owner` says which pointer of which inode each cluster in use belongs to. */
  datatype Vol = Vol(inodes: seq<Inode>, clusters: seq<Block>, bits: seq<bool>, used: seq<bool>, owner: map<nat,
    (nat, nat)>)

  function BlocksFor(size: nat): nat { (size + 511) / 512 }

  /** A file holds exactly the blocks that its size needs, in front. */
  predicate FileShape(n: Inode) {
    && |n.blocks| == MAX_BLOCKS && n.size <= MAX_BLOCKS * BLOCK
    && forall i :: 0 <= i < MAX_BLOCKS ==> (n.blocks[i] != 0 <==> i < BlocksFor(n.size))
  }

  predicate RootShape(n: Inode) {
    && |n.blocks| == MAX_BLOCKS && (n.size == 0 || n.size == BLOCK)
    && (n.blocks[0] != 0 <==> n.size > 0) && forall i :: 1 <= i < MAX_BLOCKS ==> n.blocks[i] == 0
  }

  /** The entries of the root directory: one block's worth, or none yet. */
  function Entries(v: Vol): (r: seq<Dirent>)
    ensures |r| == 0 || |r| == DIRENTS
  {
    if |v.inodes| == 0 || |v.inodes[0].blocks| == 0 then []
    else
      var c := v.inodes[0].blocks[0];
      if c == 0 || c >= |v.clusters| then [] else AsDir(v.clusters[c])
  }

  predicate LiveAt(es: seq<Dirent>, k: int) { 0 <= k < |es| && es[k].inode != 0 }

  ghost predicate DirOk(es: seq<Dirent>, used: seq<bool>) {
    && (forall k :: LiveAt(es, k) ==> 1 <= es[k].inode < |used| && used[es[k].inode] && 1 <= |es[k].name| <= NAME_MAX)
    && (forall k, m ::
       LiveAt(es, k) && LiveAt(es, m) && k != m ==> es[k].name != es[m].name && es[k].inode != es[m].inode)
  }

  predicate Named(es: seq<Dirent>, ino: nat) { exists k :: 0 <= k < |es| && LiveAt(es, k) && es[k].inode == ino }

  /** Block pointers and cluster bitmap agree: every pointer is good and its own,
      and every marked cluster is pointed at. */
  ghost predicate OwnersOk(v: Vol) {
    && (forall ino, i {:trigger v.inodes[ino].blocks[i]} ::
       0 <= ino < |v.inodes| && 0 <= i < |v.inodes[ino].blocks| && v.inodes[ino].blocks[i] != 0 ==>
          v.inodes[ino].blocks[i] in v.owner && v.owner[v.inodes[ino].blocks[i]] == (ino, i))
    && (forall c :: c in v.owner ==>
          && 1 <= c < |v.bits| && v.bits[c] && v.owner[c].0 < |v.inodes|
             && v.owner[c].1 < |v.inodes[v.owner[c].0].blocks|
          && v.inodes[v.owner[c].0].blocks[v.owner[c].1] == c)
    && (forall c :: 1 <= c < |v.bits| && v.bits[c] ==> c in v.owner)
  }

  ghost predicate VolOk(v: Vol) {
    && |v.inodes| == INODES && |v.used| == INODES && |v.bits| == |v.clusters| >= 1 && v.used[0]
    && RootShape(v.inodes[0]) && (forall ino :: 1 <= ino < INODES ==> FileShape(v.inodes[ino]))
    && OwnersOk(v) && DirOk(Entries(v), v.used)
    && (forall ino :: 1 <= ino < INODES && !Named(Entries(v), ino) ==> v.inodes[ino].size == 0)
  }

  // ---- what the volume means ----

  /** The bytes of the blocks `bs`, one after the other. */
  function Joined(clusters: seq<Block>, bs: seq<nat>): (r: seq<byte>)
    ensures |r| == 512 * |bs|
  {
    if bs == [] then []
    else (if bs[0] < |clusters| then AsBytes(clusters[bs[0]]) else ZeroBytes()) + Joined(clusters, bs[1..])
  }

  function Content(v: Vol, ino: nat): seq<byte>
    requires ino < |v.inodes| && FileShape(v.inodes[ino])
  {
    var n := v.inodes[ino];
    Joined(v.clusters, n.blocks[..BlocksFor(n.size)])[..n.size]
  }

  /** Where `name` is in the directory, the number of entries if it is not. */
  function Position(es: seq<Dirent>, name: string): (k: nat)
    ensures k <= |es| && (k < |es| ==> LiveAt(es, k) && es[k].name == name)
    ensures forall m :: 0 <= m < k ==> !(LiveAt(es, m) && es[m].name == name)
  {
    if es == [] then 0 else if es[0].inode != 0 && es[0].name == name then 0 else 1 + Position(es[1..], name)
  }

  /** The volume as a map: what the file `name` holds, if there is one. */
  function File(v: Vol, name: string): Option<seq<byte>> {
    var k := Position(Entries(v), name);
    if k == |Entries(v)| then None
    else
      var ino := Entries(v)[k].inode;
      if ino < |v.inodes| && FileShape(v.inodes[ino]) then Some(Content(v, ino)) else None
  }

  ghost predicate OthersKept(v: Vol, v': Vol, name: string) {
    forall other: string :: other != name ==> File(v', other) == File(v, other)
  }
}
