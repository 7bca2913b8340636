/** NO_OSFS: a flat root directory of small files, on one mounted volume. */
module FileSystem {
  import opened Wrappers
  import opened Word
  import opened Frames
  import opened Volume
  import opened VolumeSteps
  import opened Device

  const REG := 0x8000
  const DIR := 0x4000

  function OrReg(mode: nat): nat { if mode / REG % 2 == 1 then mode else mode + REG }

  /** Clusters that could still be allocated. */
  function FreeClusters(bits: seq<bool>): nat { if bits == [] then 0 else Clear(bits[1..]) }

  class FileSystem {
    const disk: array<Block>
    var sb: Super
    var clusterBits: seq<bool>   // as loaded at mount
    var inodeBits: seq<bool>
    ghost var owner: map<nat, (nat, nat)>

    ghost predicate Mounted()
      reads this, disk
    {
      Laid(sb, disk.Length) && |clusterBits| == sb.blockCount && |inodeBits| == INODES
    }

    ghost function Now(): Vol
      requires Mounted()
      reads this, disk
    {
      Vol(Masked(InodesOf(disk[..], sb), inodeBits), ClustersOf(disk[..], sb), clusterBits, inodeBits, owner)
    }

    ghost predicate Valid()
      reads this, disk
    {
      Mounted() && VolOk(Now())
    }

    /** A blank disk. */
    constructor (blocks: nat)
      ensures disk.Length == blocks && fresh(disk)
    {
      disk := new Block[blocks](_ => Raw(ZeroBytes()));
      sb := Super(0, 0, 0, 0, 0, 0);
      clusterBits, inodeBits, owner := [], [], map[];
    }

    // ---- clusters and inodes ----

    /** The lowest free cluster but cluster 0; 0 if there is none. */
    method AllocCluster() returns (c: nat)
      requires Mounted()
      modifies `clusterBits
      ensures Mounted() && (c == 0 <==> FreeClusters(old(clusterBits)) == 0)
      ensures c == 0 ==> clusterBits == old(clusterBits)
      ensures c != 0 ==>
        && c < |clusterBits| && !old(clusterBits)[c] && clusterBits == old(clusterBits)[c := true]
        && FreeClusters(clusterBits) == FreeClusters(old(clusterBits)) - 1
    {
      NoneClear(clusterBits[1..]);
      c := 1;
      while c < sb.blockCount
        invariant 1 <= c <= sb.blockCount && forall i :: 1 <= i < c ==> clusterBits[i]
      {
        if !clusterBits[c] {
          assert !clusterBits[1..][c - 1];
          ClearUpdate(clusterBits[1..], c - 1, true);
          assert clusterBits[c := true][1..] == clusterBits[1..][c - 1 := true];
          clusterBits := clusterBits[c := true];
          return;
        }
        c := c + 1;
      }
      assert forall i :: 0 <= i < |clusterBits[1..]| ==> clusterBits[1..][i] == clusterBits[i + 1];
      c := 0;
    }

    method ReadInode(ino: nat) returns (n: Inode)
      requires Mounted() && ino < INODES && inodeBits[ino]
      ensures n == Now().inodes[ino]
    {
      TableReach(sb, ino);
      n := AsInodes(disk[InodeLba(sb, ino)])[ino % INODES_PER_BLOCK];
    }

    method WriteInode(ino: nat, n: Inode)
      requires Mounted() && ino < INODES && inodeBits[ino]
      modifies disk
      ensures Mounted() && Now() == old(Now()).(inodes := old(Now()).inodes[ino := n])
    {
      InodeWritten(disk[..], sb, ino, n);
      ghost var d := disk[..];
      var lba := InodeLba(sb, ino);
      disk[lba] := InodeBlock(AsInodes(disk[lba])[ino % INODES_PER_BLOCK := n]);
      assert disk[..] == d[lba := disk[lba]];
      assert Masked(InodesOf(disk[..], sb), inodeBits) == Masked(InodesOf(d, sb), inodeBits)[ino := n];
    }

    method ReadCluster(c: nat) returns (b: Block)
      requires Mounted() && 1 <= c < sb.blockCount
      ensures b == Now().clusters[c]
    {
      ClusterRead(disk[..], sb, c);
      b := disk[sb.dataStart + c];
    }

    method WriteCluster(c: nat, b: Block)
      requires Mounted() && 1 <= c < sb.blockCount
      modifies disk
      ensures Mounted() && Now() == Fill(old(Now()), c, b)
    {
      ClusterWritten(disk[..], sb, c, b);
      ghost var d := disk[..];
      disk[sb.dataStart + c] := b;
      assert disk[..] == d[sb.dataStart + c := b];
    }

    // ---- the directory ----

    /** The entries of the root directory. */
    method Directory() returns (es: seq<Dirent>, c: nat)
      requires Valid()
      ensures es == Entries(Now()) && c == Now().inodes[0].blocks[0] && (es != [] ==> 1 <= c < sb.blockCount)
    {
      var root := ReadInode(0);
      c := root.blocks[0];
      if c == 0 {
        return [], 0;
      }
      assert c in owner;
      var b := ReadCluster(c);
      es := AsDir(b);
    }

    /** `fs_lookup`: the inode of the file called `name`, 0 if there is none. */
    method Lookup(name: string) returns (ino: nat)
      requires Valid()
      ensures var es := Entries(Now()); var k := Position(es, name);
        ino == (if k < |es| then es[k].inode else 0) && (ino == 0 <==> File(Now(), name) == None)
    {
      var es, c := Directory();
      var k := Find(es, name);
      Found(Now(), name);
      ino := if k < |es| then es[k].inode else 0;
    }

    /** The scan that lookup and unlink share. */
    method Find(es: seq<Dirent>, name: string) returns (k: nat)
      ensures k == Position(es, name)
    {
      k := 0;
      while k < |es| && !(es[k].inode != 0 && es[k].name == name)
        invariant k <= |es| && forall m :: 0 <= m < k ==> !(LiveAt(es, m) && es[m].name == name)
      {
        k := k + 1;
      }
      PositionIs(es, name, k);
    }

    /** The lowest free inode but the root; 0 if there is none. */
    method AllocInode() returns (ino: nat)
      requires Mounted()
      modifies `inodeBits
      ensures Mounted() && (ino == 0 <==> forall i :: 1 <= i < INODES ==> old(inodeBits)[i])
      ensures ino == 0 ==> inodeBits == old(inodeBits)
      ensures ino != 0 ==> ino < INODES && !old(inodeBits)[ino] && inodeBits == old(inodeBits)[ino := true]
    {
      ino := 1;
      while ino < INODES
        invariant 1 <= ino <= INODES && forall i :: 1 <= i < ino ==> inodeBits[i]
      {
        if !inodeBits[ino] {
          inodeBits := inodeBits[ino := true];
          return;
        }
        ino := ino + 1;
      }
      ino := 0;
    }

    /** `root_ensure_block`. */
    method EnsureRootBlock() returns (ok: bool)
      requires Valid()
      modifies this, disk
      ensures Valid() && sb == old(sb) && ok == (old(Entries(Now())) != [] || FreeClusters(old(clusterBits)) > 0)
      ensures forall name :: File(Now(), name) == old(File(Now(), name))
      ensures !ok ==> Now() == old(Now())
      ensures ok ==>
        Entries(Now()) != [] && Now().used == old(Now()).used && forall j ::
        1 <= j < INODES ==> Now().inodes[j] == old(Now()).inodes[j]
      ensures ok && old(Entries(Now())) != [] ==> Now() == old(Now())
      ensures ok && old(Entries(Now())) == [] ==> forall k :: !LiveAt(Entries(Now()), k)
      ensures ok ==>
        FreeClusters(clusterBits) == FreeClusters(old(clusterBits)) - if old(Entries(Now())) == [] then 1 else 0
    {
      hide OwnersOk, DirOk, FileShape;
      ghost var v := Now();
      var root := ReadInode(0);
      RootFacts(v);
      if root.size > 0 {
        return true;
      }
      var c := AllocCluster();
      if c == 0 {
        return false;
      }
      AddRootBlock(v, c);
      WriteCluster(c, Raw(ZeroBytes()));
      WriteInode(0, root.(blocks := root.blocks[0 := c], size := BLOCK));
      owner := owner[c := (0, 0)];
      assert Now() == AddBlock(v, 0, 0, c, Raw(ZeroBytes()), BLOCK);
      ok := true;
    }

    /** `dir_add_entry`. The directory never grows beyond one block. */
    method AddName(name: string, ino: nat, kind: nat) returns (ok: bool)
      requires Valid() && 1 <= ino < INODES && inodeBits[ino] && !Named(Entries(Now()), ino)
        && File(Now(), name) == None
      modifies this, disk
      ensures Valid() && sb == old(sb)
      ensures ok == (1 <= |name| <= NAME_MAX && (if old(Entries(Now())) == [] then
        FreeClusters(old(clusterBits)) > 0 else HasRoom(old(Entries(Now())))))
      ensures ok ==> File(Now(), name) == Some([]) && OthersKept(old(Now()), Now(), name) && Lookups(Now(), name, ino)
      ensures ok ==>
        FreeClusters(clusterBits) == FreeClusters(old(clusterBits)) - if old(Entries(Now())) == [] then 1 else 0
      ensures !ok ==> forall other :: File(Now(), other) == old(File(Now(), other))
    {
      hide Lookups, File, OthersKept, VolOk, Entries, Named, FreeClusters, Mounted, HasRoom;
      ghost var v0 := Now();
      if |name| == 0 || |name| > NAME_MAX {
        return false;
      }
      ok := EnsureRootBlock();
      if !ok {
        return;
      }
      ghost var v := Now();
      NotNamed(v0, v, ino);
      RoomOf(v0, v);
      ok := PlaceName(name, ino, kind);
      if ok { OthersFrom(v0, v, Now(), name); }
    }

    /** The first free entry, if there is one. */
    method PlaceName(name: string, ino: nat, kind: nat) returns (ok: bool)
      requires Valid() && 1 <= ino < INODES && inodeBits[ino] && !Named(Entries(Now()), ino)
        && File(Now(), name) == None
      requires Entries(Now()) != [] && 1 <= |name| <= NAME_MAX
      modifies disk
      ensures Valid() && ok == HasRoom(old(Entries(Now())))
      ensures ok ==> File(Now(), name) == Some([]) && OthersKept(old(Now()), Now(), name) && Lookups(Now(), name, ino)
      ensures !ok ==> Now() == old(Now())
    {
      hide Lookups, VolOk, Content, File, OthersKept, Entries;
      ghost var v := Now();
      Found(v, name);
      var es, c := Directory();
      var k := 0;
      while k < |es| && es[k].inode != 0
        invariant k <= |es| && forall m :: 0 <= m < k ==> LiveAt(es, m)
      {
        k := k + 1;
      }
      if k == |es| {
        return false;
      }
      assert !LiveAt(es, k);
      AddEntry(v, k, Dirent(ino, name, kind));
      WriteCluster(c, DirBlock(es[k := Dirent(ino, name, kind)]));
      ok := true;
    }

    /** `fs_create`. It succeeds exactly for a new, proper name while an inode, and
        room in the directory, are left; the new file is empty. */
    method Create(name: string, mode: nat, now: nat) returns (ino: nat)
      requires Valid()
      modifies this, disk
      ensures Valid() && sb == old(sb)
      ensures ino != 0 <==> old(
        && File(Now(), name) == None && 1 <= |name| <= NAME_MAX && (exists i :: 1 <= i < INODES && !inodeBits[i])
        && (if Entries(Now()) == [] then FreeClusters(clusterBits) > 0 else HasRoom(Entries(Now()))))
      ensures ino != 0 ==>
        File(Now(), name) == Some([]) && OthersKept(old(Now()), Now(), name) && Lookups(Now(), name, ino)
      ensures ino != 0 ==>
        FreeClusters(clusterBits) == FreeClusters(old(clusterBits)) - if old(Entries(Now())) == [] then 1 else 0
      ensures ino == 0 ==> forall other :: File(Now(), other) == old(File(Now(), other))
    {
      hide Lookups, OwnersOk, FileShape, Content, Entries, FreeClusters;
      ghost var v := Now();
      var found := Lookup(name);
      if found != 0 {
        return 0;
      }
      ino := AllocInode();
      if ino == 0 {
        return;
      }
      var n := Inode(mode, 1, 0, now, seq(MAX_BLOCKS, _ => 0));
      FreshInode(v, ino);
      UseInode(v, ino, n);
      WriteInode(ino, n);
      assert Now() == v.(inodes := v.inodes[ino := n], used := v.used[ino := true]);
      var ok := AddName(name, ino, if mode == DIR then 2 else 1);
      if !ok {
        ino := 0;
      }
    }

    // ---- contents ----

    /** Unmark the clusters of the block pointers from `from` on. */
    method FreeFrom(n: Inode, from: nat)
      requires Mounted() && |n.blocks| == MAX_BLOCKS
      modifies `clusterBits
      ensures |clusterBits| == |old(clusterBits)| && forall c ::
        0 <= c < |clusterBits| ==> clusterBits[c] == (old(clusterBits)[c] && !PointsFrom(n, from, c))
    {
      var i := from;
      while i < MAX_BLOCKS
        invariant from <= i && (i <= MAX_BLOCKS || i == from) && |clusterBits| == |old(clusterBits)|
        invariant forall c ::
          0 <= c < |clusterBits| ==> clusterBits[c] == (old(clusterBits)[c] && !PointsBetween(n, from, i, c))
      {
        if n.blocks[i] != 0 && n.blocks[i] < sb.blockCount {
          clusterBits := clusterBits[n.blocks[i] := false];
        }
        PointsMore(n, from, i);
        i := i + 1;
      }
      PointsAll(n, from, i);
    }

    /** The volume as the file being written sees it: its inode is only written
        back at the end, so on disk it still is as it was. */
    ghost predicate Pending(v: Vol, ino: nat, n: Inode)
      reads this, disk
    {
      && Mounted() && VolOk(v) && 1 <= ino < INODES && v == Now().(inodes := v.inodes)
         && v.inodes == Now().inodes[ino := v.inodes[ino]]
      && v.inodes[ino].blocks == n.blocks
    }

    lemma PendingVol(v: Vol, ino: nat, n: Inode)
      requires Pending(v, ino, n)
      ensures VolOk(v) && Mounted()
    {
    }

    /** The loop of `fs_write_file`: block by block, allocated where missing. */
    method WriteBlocks(ino: nat, n0: Inode, data: seq<byte>, ghost v0: Vol) returns (ok: bool, n: Inode, ghost v: Vol)
      requires Pending(v0, ino, n0) && Named(Entries(v0), ino) && BlocksFor(|data|) <= MAX_BLOCKS
        && Has(v0, ino) <= BlocksFor(|data|)
      modifies `clusterBits, `owner, disk
      ensures Mounted() && Now().inodes == old(Now().inodes)
      ensures sb == old(sb) && ok == (FreeClusters(old(clusterBits)) >= BlocksFor(|data|) - Has(v0, ino))
      ensures !ok ==> Pending(v, ino, n) && Rewritten(v0, v, ino) && FreeClusters(clusterBits) == 0
      ensures !ok && FreeClusters(old(clusterBits)) == 0 ==> v.inodes == v0.inodes
      ensures ok ==>
        && Pending(v, ino, n) && n == n0.(blocks := n.blocks) && Has(v, ino) == BlocksFor(|data|)
           && Rewritten(v0, v, ino)
        && (forall j :: 0 <= j < BlocksFor(|data|) ==> HoldsChunk(v, ino, j, data))
    {
      hide Pending, Rewritten, HoldsChunk, BlocksFor, Entries, FreeClusters, Has;
      PendingVol(v0, ino, n0);
      RewrittenSame(v0, ino);
      v, n, ok := v0, n0, false;
      var i := 0;
      while i < BlocksFor(|data|)
        invariant i <= BlocksFor(|data|) && Pending(v, ino, n) && n == n0.(blocks := n.blocks)
        invariant Mounted() && Now().inodes == old(Now().inodes)
        invariant Has(v, ino) == if i < Has(v0, ino) then Has(v0, ino) else i
        invariant FreeClusters(clusterBits) == FreeClusters(old(clusterBits)) - (if i < Has(v0, ino) then
          0 else i - Has(v0, ino))
        invariant FreeClusters(old(clusterBits)) == 0 ==> i <= Has(v0, ino) && v.inodes == v0.inodes
        invariant Rewritten(v0, v, ino) && forall j :: 0 <= j < i ==> HoldsChunk(v, ino, j, data)
      {
        ghost var v1 := v;
        var done;
        RewrittenNamed(v0, v, ino);
        done, n, v := WriteBlock(ino, n, i, data, v);
        if !done {
          return;
        }
        RewrittenChain(v0, v1, v, ino);
        i := i + 1;
      }
      ok := true;
    }

    method WriteBlock(ino: nat, n0: Inode, i: nat, data: seq<byte>, ghost v0: Vol)
        returns (ok: bool, n: Inode, ghost v: Vol)
      requires Pending(v0, ino, n0) && Named(Entries(v0), ino) && i < BlocksFor(|data|) <= MAX_BLOCKS
        && i <= Has(v0, ino)
      modifies `clusterBits, `owner, disk
      ensures Mounted() && Now().inodes == old(Now().inodes)
      ensures sb == old(sb) && ok == (i < Has(v0, ino) || FreeClusters(old(clusterBits)) > 0)
        && inodeBits == old(inodeBits)
      ensures !ok ==>
        v == v0 && n == n0 && Pending(v, ino, n) && FreeClusters(clusterBits) == FreeClusters(old(clusterBits))
      ensures i < Has(v0, ino) ==> v.inodes == v0.inodes
      ensures ok ==>
        && Pending(v, ino, n) && n == n0.(blocks := n.blocks) && Rewritten(v0, v, ino)
        && Has(v, ino) == (if i < Has(v0, ino) then Has(v0, ino) else i + 1)
        && HoldsChunk(v, ino, i, data) && (forall j ::
           0 <= j < i && HoldsChunk(v0, ino, j, data) ==> HoldsChunk(v, ino, j, data))
        && FreeClusters(clusterBits) == FreeClusters(old(clusterBits)) - if i < Has(v0, ino) then 0 else 1
    {
      hide OwnersOk, DirOk, Entries, Named, FreeClusters, SameFile, HoldsChunk, Rewritten;
      v, n := v0, n0;
      RewrittenSame(v0, ino);
      assert n.blocks[i] != 0 <==> i < Has(v0, ino);
      if n.blocks[i] == 0 {
        var c := AllocCluster();
        if c == 0 {
          return false, n, v;
        }
        AddFileBlock(v0, ino, i, c, v0.clusters[c]);
        v := AddBlock(v0, ino, i, c, v0.clusters[c], (i + 1) * BLOCK);
        AddedRewritten(v0, v, ino);
        n := n.(blocks := n.blocks[i := c]);
        owner := owner[c := (ino, i)];
      }
      StoreBlock(ino, n, i, data, v);
      ghost var v1 := v;
      v := Fill(v, n.blocks[i], Raw(Chunk(data, i)));
      RewrittenChain(v0, v1, v, ino);
      PointerGood(v1, ino, i);
      ChunksKept(v0, v1, ino, i, data);
      ok := true;
    }

    /** Write block `i` of the data to the cluster that the inode has for it. */
    method StoreBlock(ino: nat, n: Inode, i: nat, data: seq<byte>, ghost v: Vol)
      requires Pending(v, ino, n) && i < BlocksFor(|data|) && i < MAX_BLOCKS && n.blocks[i] != 0
      modifies disk
      ensures Mounted() && Now().inodes == old(Now().inodes)
      ensures n.blocks[i] < |v.clusters| && Pending(Fill(v, n.blocks[i], Raw(Chunk(data, i))), ino, n)
      ensures Rewritten(v, Fill(v, n.blocks[i], Raw(Chunk(data, i))), ino)
    {
      hide OwnersOk, DirOk, Entries, FreeClusters, SameFile, HoldsChunk;
      FillFileBlock(v, ino, i, Raw(Chunk(data, i)));
      PointerGood(v, ino, i);
      WriteCluster(n.blocks[i], Raw(Chunk(data, i)));
    }

    /** `fs_write_file`. It succeeds exactly when the data fits in ten blocks and
        there are clusters for what the file lacks; then the file holds the data,
        and no other file has changed. */
    method WriteFile(ino: nat, data: seq<byte>, now: nat, ghost name: string) returns (ok: bool)
      requires Valid() && Lookups(Now(), name, ino)
      modifies this, disk
      ensures sb == old(sb)
      ensures ok <==>
        BlocksFor(|data|) <= MAX_BLOCKS && FreeClusters(old(clusterBits)) + Has(old(Now()), ino) >= BlocksFor(|data|)
      ensures ok ==> Valid() && File(Now(), name) == Some(data) && OthersKept(old(Now()), Now(), name)
      ensures BlocksFor(|data|) > MAX_BLOCKS ==> Valid() && Now() == old(Now())
      ensures !ok && BlocksFor(|data|) <= MAX_BLOCKS ==>
        Mounted() && (VolOk(Now()) <==> FreeClusters(old(clusterBits)) == 0)
    {
      hide OwnersOk, DirOk, Entries, FreeClusters, SameFile, HoldsChunk, Rewritten, Content, VolOk, BlocksFor, Has,
        Named, Lookups, File, OthersKept;
      ghost var v0 := Now();
      LookupFacts(v0, name, ino);
      if BlocksFor(|data|) > MAX_BLOCKS {
        return false;
      }
      var n := ReadInode(ino);
      ghost var v, v1;
      n, v1 := CutDown(ino, n, BlocksFor(|data|));
      RewrittenNamed(v0, v1, ino);
      ok, n, v := WriteBlocks(ino, n, data, v1);
      if ok {
        RewrittenChain(v0, v1, v, ino);
        RewrittenNamed(v0, v, ino);
        RewrittenUsed(v0, v, ino);
        Finish(ino, n.(size := |data|, mtime := now, nlinks := 1, mode := OrReg(n.mode)), data, name, v0, v);
      } else {
        GaveUpState(v, ino, n);
        GaveUp(v0, v, Now(), ino);
      }
    }

    lemma GaveUpState(v: Vol, ino: nat, n: Inode)
      requires Pending(v, ino, n)
      ensures Now() == v.(inodes := Now().inodes) && v.bits == clusterBits && |clusterBits| == sb.blockCount
        && 1 <= ino < INODES
    {
    }

    /** Give up the blocks that the new length does not need. */
    method CutDown(ino: nat, n0: Inode, nb: nat) returns (n: Inode, ghost v: Vol)
      requires Valid() && 1 <= ino < INODES && nb <= MAX_BLOCKS && n0 == Now().inodes[ino]
      modifies `clusterBits, `owner
      ensures Mounted() && Now().inodes == old(Now().inodes)
      ensures sb == old(sb) && n == n0.(blocks := n.blocks) && Pending(v, ino, n) && Rewritten(old(Now()), v, ino)
      ensures Has(v, ino) == if Has(old(Now()), ino) < nb then Has(old(Now()), ino) else nb
      ensures Has(old(Now()), ino) <= nb ==> v == old(Now()) && clusterBits == old(clusterBits)
    {
      hide VolOk, Entries, FreeClusters, Rewritten, Has;
      ghost var v0 := Now();
      CutFacts(v0, ino, nb);
      v := DropFrom(v0, ino, nb);
      FreeFrom(n0, nb);
      n := n0.(blocks := Cut(n0.blocks, nb));
      owner := v.owner;
      assert clusterBits == v.bits;
    }

    /** The inode is written back, and the file is what was written. */
    method Finish(ino: nat, n: Inode, data: seq<byte>, ghost name: string, ghost v0: Vol, ghost v: Vol)
      requires Pending(v, ino, n) && n.size == |data| && BlocksFor(|data|) <= MAX_BLOCKS
        && Has(v, ino) == BlocksFor(|data|)
      requires Rewritten(v0, v, ino) && Lookups(v0, name, ino) && Named(Entries(v), ino) && inodeBits[ino]
      requires forall j :: 0 <= j < BlocksFor(|data|) ==> HoldsChunk(v, ino, j, data)
      modifies disk
      ensures Valid() && File(Now(), name) == Some(data) && OthersKept(v0, Now(), name)
    {
      hide VolOk, Entries, FreeClusters, SameFile, Content, Has, Rewritten, HoldsChunk, OthersKept, File, Lookups,
        BlocksFor, Named;
      Finished(ino, n, data, name, v0, v);
      WriteInode(ino, n);
      assert Now() == v.(inodes := v.inodes[ino := n]);
    }

    /** `fs_read_file`: as much of the file as fits in `max` bytes. */
    method ReadFile(ino: nat, max: nat) returns (data: seq<byte>)
      requires Valid() && 1 <= ino < INODES && inodeBits[ino]
      ensures var c := Content(Now(), ino); data == c[..if |c| < max then |c| else max]
    {
      hide VolOk, Content, FileShape, BlocksFor, AsBytes, InodesOf, ClustersOf;
      ghost var v := Now();
      FileFacts(v, ino);
      var n := ReadInode(ino);
      var want := if n.size < max then n.size else max;
      data := [];
      var left: nat, i: nat := want, 0;
      while left > 0 && i < MAX_BLOCKS && n.blocks[i] != 0
        invariant i <= MAX_BLOCKS && |data| + left == want && data == Content(v, ino)[..|data|]
        invariant left > 0 ==> |data| == i * BLOCK
      {
        PointerGood(v, ino, i);
        var b := ReadCluster(n.blocks[i]);
        var chunk := if left < BLOCK then left else BLOCK;
        ContentSlice(v, ino, i, chunk);
        ghost var c := Content(v, ino);
        data := data + AsBytes(b)[..chunk];
        assert data == c[..i * BLOCK + chunk];
        left := left - chunk;
        i := i + 1;
      }
    }

    /** Reading a file by the inode that lookup gives for its name. */
    method ReadNamed(ino: nat, max: nat, ghost name: string) returns (data: seq<byte>)
      requires Valid() && Lookups(Now(), name, ino)
      ensures File(Now(), name).Some? && var c := File(Now(), name).value; data == c[..if |c| < max then |c| else max]
    {
      LookupFacts(Now(), name, ino);
      Found(Now(), name);
      data := ReadFile(ino, max);
    }

    /** `fs_stat`, as far as the size goes. */
    method Size(ino: nat, ghost name: string) returns (size: nat)
      requires Valid() && Lookups(Now(), name, ino)
      ensures File(Now(), name).Some? && size == |File(Now(), name).value|
    {
      LookupFacts(Now(), name, ino);
      Found(Now(), name);
      FileFacts(Now(), ino);
      var n := ReadInode(ino);
      size := n.size;
    }

    /** `fs_unlink`. It succeeds exactly for a file there is; the file, its blocks
        and its inode are gone, and no other file has changed. */
    method Unlink(name: string) returns (ok: bool)
      requires Valid()
      modifies this, disk
      ensures Valid() && sb == old(sb) && ok == (old(File(Now(), name)) != None)
      ensures ok ==> File(Now(), name) == None && OthersKept(old(Now()), Now(), name)
      ensures !ok ==> Now() == old(Now())
    {
      hide VolOk, Entries, File, OthersKept, Content, DropFrom, Unlinked, PointsFrom;
      ghost var v := Now();
      Found(v, name);
      var ino := Lookup(name);
      if ino == 0 {
        return false;
      }
      var es, c := Directory();
      var k := Find(es, name);
      UnlinkFacts(v, k, name, ino);
      var n := ReadInode(ino);
      FreeFrom(n, 0);
      WriteInode(ino, ZeroInode());
      inodeBits := inodeBits[ino := false];
      owner := DropFrom(v, ino, 0).owner;
      WriteCluster(c, DirBlock(es[k := ZeroDirent()]));
      assert clusterBits == DropFrom(v, ino, 0).bits;
      assert Now().inodes == v.inodes[ino := ZeroInode()];
      assert Now() == Unlinked(DropFrom(v, ino, 0), k);
      ok := true;
    }

    // ---- format and mount ----

    method WriteRange(from: nat, n: nat, b: Block)
      requires from + n <= disk.Length
      modifies disk
      ensures forall l :: 0 <= l < disk.Length ==> disk[l] == if from <= l < from + n then b else old(disk[l])
    {
      var i := 0;
      while i < n
        invariant i <= n && forall l ::
          0 <= l < disk.Length ==> disk[l] == if from <= l < from + i then b else old(disk[l])
      {
        disk[from + i] := b;
        i := i + 1;
      }
    }

    /** `fs_format` of the blocks below `total`: an empty bitmap, an empty inode
        table but for the root, and both superblocks, the second copy first. */
    method Format(total: nat)
      requires BigEnough(total) && total <= disk.Length
      modifies `sb, disk
      ensures sb == Geometry(total) && Formatted(disk[..], sb)
    {
      GeometryLaid(total, disk.Length);
      sb := Geometry(total);
      WriteRange(sb.bitmapStart, sb.bitmapBlocks, BitBlock(NoBits()));
      WriteRange(sb.inodeStart, INODE_BLOCKS, Raw(ZeroBytes()));
      disk[sb.inodeStart] := InodeBlock(AsInodes(disk[sb.inodeStart])[0 := RootInode()]);
      disk[1] := SuperBlock(sb);
      disk[0] := SuperBlock(sb);
    }

    /** `fs_mount`: the newer of the superblocks that are good, the first on a tie;
        the cluster bitmap as it is on disk; of the inodes only the root is marked.
        A layout on disk fits the disk and its bitmap has a bit for every cluster. */
    method Mount() returns (ok: bool)
      requires disk.Length >= 2 && GoodLayout(disk[0], disk.Length) && GoodLayout(disk[1], disk.Length)
      modifies `sb, `clusterBits, `inodeBits, `owner
      ensures ok == (disk[0].SuperBlock? || disk[1].SuperBlock?)
      ensures ok ==> Mounted() && sb == Newest(disk[0], disk[1]) && owner == map[]
      ensures ok ==> inodeBits == seq(INODES, i => i == 0)
      ensures ok ==>
        forall c ::
        0 <= c < sb.blockCount ==>
        clusterBits[c] == AsBits(disk[sb.bitmapStart + c / BITS_PER_BLOCK])[c % BITS_PER_BLOCK]
    {
      ok := disk[0].SuperBlock? || disk[1].SuperBlock?;
      if !ok {
        return;
      }
      sb := Newest(disk[0], disk[1]);
      var bits, b := [], 0;
      while b < sb.bitmapBlocks
        invariant b <= sb.bitmapBlocks && |bits| == b * BITS_PER_BLOCK
        invariant forall c ::
          0 <= c < |bits| ==> bits[c] == AsBits(disk[sb.bitmapStart + c / BITS_PER_BLOCK])[c % BITS_PER_BLOCK]
      {
        bits := bits + AsBits(disk[sb.bitmapStart + b]);
        b := b + 1;
      }
      clusterBits := bits[..sb.blockCount];
      inodeBits := seq(INODES, i => i == 0);
      owner := map[];
    }

    /** A freshly formatted and mounted volume is consistent and holds no file,
        provided that the bitmap covers the clusters. */
    method FormatAndMount(total: nat)
      requires BigEnough(total) && total <= disk.Length && !Uncovered(total)
      modifies this, disk
      ensures Valid() && sb == Geometry(total) && forall name :: File(Now(), name) == None
      ensures Entries(Now()) == [] && FreeClusters(clusterBits) == sb.blockCount - 1
      ensures inodeBits == seq(INODES, i => i == 0)
    {
      GeometryLaid(total, disk.Length);
      BitmapCovers(total);
      Format(total);
      var ok := Mount();
      assert Newest(disk[0], disk[1]) == Geometry(total);
      FreshBits(disk[..], sb, clusterBits);
      FreshVolume(disk[..], sb, Now());
      AllFree(clusterBits);
    }
  }

  lemma AllFree(bits: seq<bool>)
    requires bits != [] && forall c :: 0 <= c < |bits| ==> !bits[c]
    ensures FreeClusters(bits) == |bits| - 1
  {
    AllClear(bits[1..]);
  }

  lemma {:induction false} AllClear(bits: seq<bool>)
    requires forall c :: 0 <= c < |bits| ==> !bits[c]
    ensures Clear(bits) == |bits|
    decreases |bits|
  {
    if bits != [] { AllClear(bits[..|bits| - 1]); }
  }

  /** A file that runs out of clusters: on a disk of 42 blocks one cluster is left
      for a file of 1024 bytes, which needs two. The volume is in order before
      the write and not after it. */
  method RunsOut() returns (fs: FileSystem, ok: bool, ghost before: Vol)
    ensures VolOk(before) && File(before, "a") == Some([]) && FreeClusters(before.bits) == 1
    ensures !ok && fs.Mounted() && fs.disk.Length == 42 && !VolOk(fs.Now())
  {
    hide VolOk, File, OthersKept, FreeClusters, Entries, Lookups, BlocksFor, Has;
    fs := new FileSystem(42);
    SmallDisk();
    fs.FormatAndMount(42);
    assert !fs.inodeBits[1];
    var ino := fs.Create("a", REG, 0);
    before := fs.Now();
    NoBlocks(before, "a", ino);
    ok := fs.WriteFile(ino, seq(1024, _ => 0), 0, "a");
  }

  lemma SmallDisk()
    ensures BigEnough(42) && !Uncovered(42) && Geometry(42).blockCount == 3
    ensures BlocksFor(1024) == 2
  {
  }

  lemma NoBlocks(v: Vol, name: string, ino: nat)
    requires VolOk(v) && Lookups(v, name, ino) && File(v, name) == Some([])
    ensures Has(v, ino) == 0
  {
    hide OwnersOk, Content;
    LookupFacts(v, name, ino);
    FileFacts(v, ino);
  }

  function NoBits(): seq<bool> { seq(BITS_PER_BLOCK, _ => false) }

  function RootInode(): Inode { ZeroInode().(mode := DIR, nlinks := 2) }

  function AsBits(b: Block): (r: seq<bool>)
    ensures |r| == BITS_PER_BLOCK
  {
    if b.BitBlock? && |b.bits| == BITS_PER_BLOCK then b.bits else NoBits()
  }

  /** The superblock to use, if at least one is good. */
  function Newest(b0: Block, b1: Block): Super
    requires b0.SuperBlock? || b1.SuperBlock?
  {
    if b0.SuperBlock? && b1.SuperBlock? then (if b0.sb.seqno >= b1.sb.seqno then b0.sb else b1.sb)
    else if b0.SuperBlock? then b0.sb else b1.sb
  }

  predicate GoodLayout(b: Block, blocks: nat) {
    b.SuperBlock? ==> Laid(b.sb, blocks) && b.sb.blockCount <= BITS_PER_BLOCK * b.sb.bitmapBlocks
  }

  ghost predicate Formatted(disk: seq<Block>, sb: Super) {
    && Laid(sb, |disk|) && disk[0] == SuperBlock(sb) && disk[1] == SuperBlock(sb)
    && (forall l :: sb.bitmapStart <= l < sb.inodeStart ==> disk[l] == BitBlock(NoBits()))
    && AsInodes(disk[sb.inodeStart]) == seq(INODES_PER_BLOCK, _ => ZeroInode())[0 := RootInode()]
    && (forall l :: sb.inodeStart < l < sb.dataStart ==> disk[l] == Raw(ZeroBytes()))
  }

  lemma FreshBits(disk: seq<Block>, sb: Super, bits: seq<bool>)
    requires Formatted(disk, sb) && sb.blockCount <= BITS_PER_BLOCK * sb.bitmapBlocks && |bits| == sb.blockCount
    requires forall c ::
      0 <= c < sb.blockCount ==> bits[c] == AsBits(disk[sb.bitmapStart + c / BITS_PER_BLOCK])[c % BITS_PER_BLOCK]
    ensures forall c :: 0 <= c < sb.blockCount ==> !bits[c]
  {
    forall c | 0 <= c < sb.blockCount ensures !bits[c] {
      assert c / BITS_PER_BLOCK < sb.bitmapBlocks;
    }
  }

  lemma FreshVolume(disk: seq<Block>, sb: Super, v: Vol)
    requires Formatted(disk, sb) && |v.used| == INODES && v.inodes == Masked(InodesOf(disk, sb), v.used)
      && v.clusters == ClustersOf(disk, sb)
    requires |v.bits| == sb.blockCount && (forall c :: 0 <= c < |v.bits| ==> !v.bits[c])
      && v.used == seq(INODES, i => i == 0) && v.owner == map[]
    ensures VolOk(v) && Entries(v) == [] && forall name :: File(v, name) == None
  {
    forall k | 0 <= k < INODES ensures v.inodes[k] == if k == 0 then RootInode() else ZeroInode() {
      TableReach(sb, k);
    }
  }

  lemma FileFacts(v: Vol, ino: nat)
    requires VolOk(v) && 1 <= ino < INODES
    ensures var n := v.inodes[ino];
      && FileShape(n) && |n.blocks| == MAX_BLOCKS && n.size <= MAX_BLOCKS * BLOCK && |Content(v, ino)| == n.size
      && forall i :: 0 <= i < MAX_BLOCKS && i * BLOCK < n.size ==> n.blocks[i] != 0
  {
    hide OwnersOk, DirOk, Entries;
  }

  /** Part of a file within one block is part of that block. */
  lemma ContentSlice(v: Vol, ino: nat, i: nat, n: nat)
    requires ino < |v.inodes| && FileShape(v.inodes[ino]) && i < MAX_BLOCKS && v.inodes[ino].blocks[i] < |v.clusters|
    requires n <= BLOCK && i * BLOCK + n <= v.inodes[ino].size && n > 0
    ensures |Content(v, ino)| == v.inodes[ino].size
    ensures Content(v, ino)[..i * BLOCK] + AsBytes(v.clusters[v.inodes[ino].blocks[i]])[..n] == Content(v,
      ino)[..i * BLOCK + n]
  {
    var bs := v.inodes[ino].blocks[..BlocksFor(v.inodes[ino].size)];
    assert bs[i] == v.inodes[ino].blocks[i];
    forall o | 0 <= o < n ensures Content(v, ino)[i * BLOCK + o] == AsBytes(v.clusters[bs[i]])[o] {
      JoinedAt(v.clusters, bs, i, o);
    }
  }

  lemma UnlinkFacts(v: Vol, k: nat, name: string, ino: nat)
    requires VolOk(v) && k == Position(Entries(v), name) < |Entries(v)| && Entries(v)[k].inode == ino
    ensures 1 <= ino < INODES && |v.inodes[ino].blocks| == MAX_BLOCKS && v.used[ino]
    ensures var v1, c := DropFrom(v, ino, 0), v.inodes[0].blocks[0];
      && Entries(v1) == Entries(v) && |v1.inodes| == INODES && |v1.used| == INODES && |v1.inodes[0].blocks| > 0
      && c < |v.clusters| && |v1.bits| == |v.bits|
      && (forall b :: 0 <= b < |v.bits| ==> v1.bits[b] == (v.bits[b] && !PointsFrom(v.inodes[ino], 0, b)))
      && Unlinked(v1, k) == v.(inodes := v.inodes[ino := ZeroInode()],
         clusters := v.clusters[c := DirBlock(Entries(v)[k := ZeroDirent()])],
         bits := v1.bits, used := v.used[ino := false], owner := v1.owner)
      && VolOk(Unlinked(v1, k)) && File(Unlinked(v1, k), name) == None && OthersKept(v, Unlinked(v1, k), name)
  {
    RootFacts(v);
    hide OwnersOk, Entries, SameFile, Content;
    var v1 := DropFrom(v, ino, 0);
    assert LiveAt(Entries(v), k);
    assert v1.inodes[ino := ZeroInode()] == v.inodes[ino := ZeroInode()];
    DropFileBlocks(v, ino, 0);
    RemoveEntry(v1, k);
    forall other: string | other != name ensures File(Unlinked(v1, k), other) == File(v, other) {
      OtherInode(v, name, other, ino);
      FileSame(v, v1, other, ino);
    }
  }

  lemma LookupFacts(v: Vol, name: string, ino: nat)
    requires VolOk(v) && Lookups(v, name, ino)
    ensures 1 <= ino < INODES && Named(Entries(v), ino) && v.used[ino]
  {
    assert LiveAt(Entries(v), Position(Entries(v), name));
  }

  lemma Finished(ino: nat, n: Inode, data: seq<byte>, name: string, v0: Vol, v: Vol)
    requires VolOk(v) && 1 <= ino < INODES && n.blocks == v.inodes[ino].blocks
    requires n.size == |data| && BlocksFor(|data|) <= MAX_BLOCKS && Has(v, ino) == BlocksFor(|data|)
    requires Rewritten(v0, v, ino) && Lookups(v0, name, ino) && Named(Entries(v), ino)
    requires forall j :: 0 <= j < BlocksFor(|data|) ==> HoldsChunk(v, ino, j, data)
    ensures var v' := v.(inodes := v.inodes[ino := n]);
      VolOk(v') && File(v', name) == Some(data) && OthersKept(v0, v', name)
  {
    hide OwnersOk, DirOk, Entries, SameFile, Content, File, OthersKept, Lookups;
    var v' := v.(inodes := v.inodes[ino := n]);
    SetHeader(v, ino, n);
    AddedRewritten(v, v', ino);
    RewrittenChain(v0, v, v', ino);
    forall i | 0 <= i < BlocksFor(|data|)
      ensures v'.inodes[ino].blocks[i] < |v'.clusters|
        && AsBytes(v'.clusters[v'.inodes[ino].blocks[i]]) == Chunk(data, i)
    {
      assert HoldsChunk(v, ino, i, data);
    }
    ContentIs(v', ino, data);
    FileRewritten(v0, v', name, ino, data);
  }

  lemma CutFacts(v: Vol, ino: nat, nb: nat)
    requires VolOk(v) && 1 <= ino < INODES && nb <= MAX_BLOCKS
    ensures var v' := DropFrom(v, ino, nb);
      && VolOk(v') && Rewritten(v, v', ino) && Has(v', ino) == (if Has(v, ino) < nb then Has(v, ino) else nb)
      && (Has(v, ino) <= nb ==> v' == v) && |v.inodes[ino].blocks| == MAX_BLOCKS
  {
    hide OwnersOk, DirOk, Entries, SameFile;
    DropFileBlocks(v, ino, nb);
    if Has(v, ino) <= nb { NoneDropped(v, ino, nb); }
  }

  /** Nothing is given up when the file is not longer than that. */
  lemma NoneDropped(v: Vol, ino: nat, from: nat)
    requires VolOk(v) && 1 <= ino < INODES && Has(v, ino) <= from
    ensures DropFrom(v, ino, from) == v
  {
    hide DirOk, Entries;
    var n := v.inodes[ino];
    forall c | 0 <= c < |v.bits| ensures !PointsFrom(n, from, c) {
    }
    assert DropFrom(v, ino, from).bits == v.bits;
    assert Cut(n.blocks, from) == n.blocks;
    assert n.size <= from * BLOCK;
    assert DropFrom(v, ino, from).inodes == v.inodes;
    assert DropFrom(v, ino, from).owner == v.owner;
  }

  /** A write that runs out of clusters returns before the inode is written back.
      What it had taken by then is lost: consistency survives exactly if it could
      not take any. */
  lemma GaveUp(v0: Vol, v: Vol, v': Vol, ino: nat)
    requires VolOk(v0) && Rewritten(v0, v, ino) && 1 <= ino < INODES && |v.bits| == |v0.bits|
    requires v' == v.(inodes := v'.inodes) && v'.inodes == v0.inodes && FreeClusters(v.bits) == 0
    requires FreeClusters(v0.bits) == 0 ==> v.inodes == v0.inodes
    ensures VolOk(v') <==> FreeClusters(v0.bits) == 0
  {
    if FreeClusters(v0.bits) == 0 {
      assert v' == v;
    } else {
      NoneClear(v0.bits[1..]);
      NoneClear(v.bits[1..]);
      var i :| 0 <= i < |v0.bits[1..]| && !v0.bits[1..][i];
      assert v.bits[1..][i];
      Leaked(v0, v', i + 1);
    }
  }

  /** A cluster that is marked, and was not when the inodes were as they are. */
  lemma Leaked(v0: Vol, v: Vol, c: nat)
    requires VolOk(v0) && v.inodes == v0.inodes && 1 <= c < |v.bits| && |v.bits| == |v0.bits| && v.bits[c]
      && !v0.bits[c]
    ensures !VolOk(v)
  {
    hide DirOk, Entries, FileShape;
    if c in v.owner && v.owner[c].0 < |v.inodes| {
      FreeIsNobodys(v0, c, v.owner[c].0);
    }
  }

  lemma FileRewritten(v: Vol, v': Vol, name: string, ino: nat, data: seq<byte>)
    requires Rewritten(v, v', ino) && Lookups(v, name, ino) && ino < INODES && Content(v', ino) == data
    ensures File(v', name) == Some(data) && OthersKept(v, v', name)
  {
    hide OwnersOk, Content, SameFile, FileShape;
    LookupFacts(v, name, ino);
    Found(v', name);
    forall other: string | other != name ensures File(v', other) == File(v, other) {
      OtherInode(v, name, other, ino);
      FileSame(v, v', other, ino);
    }
  }

  lemma OtherInode(v: Vol, name: string, other: string, ino: nat)
    requires VolOk(v) && Lookups(v, name, ino) && other != name
    ensures var k := Position(Entries(v), other); k < |Entries(v)| ==> Entries(v)[k].inode != ino
  {
    var es := Entries(v);
    var k, m := Position(es, name), Position(es, other);
    assert LiveAt(es, k) && (m < |es| ==> LiveAt(es, m) && es[m].name == other);
  }

  /** How many blocks inode `ino` has. */
  function Has(v: Vol, ino: nat): nat { if ino < |v.inodes| then BlocksFor(v.inodes[ino].size) else 0 }

  /** Only inode `ino`, and what its blocks hold, may differ. */
  ghost predicate Rewritten(v: Vol, v': Vol, ino: nat) {
    && VolOk(v) && VolOk(v') && Entries(v') == Entries(v) && v'.used == v.used
    && forall j :: 1 <= j < INODES && j != ino ==> SameFile(v, v', j)
  }

  lemma RewrittenSame(v: Vol, ino: nat)
    requires VolOk(v)
    ensures Rewritten(v, v, ino)
  {
    hide OwnersOk, DirOk, Entries;
  }

  lemma RewrittenNamed(v: Vol, v': Vol, ino: nat)
    requires Rewritten(v, v', ino) && Named(Entries(v), ino)
    ensures Named(Entries(v'), ino)
  {
    hide OwnersOk, DirOk, FileShape, Entries;
  }

  lemma RewrittenUsed(v: Vol, v': Vol, ino: nat)
    requires Rewritten(v, v', ino)
    ensures v'.used == v.used
  {
  }

  lemma RewrittenChain(v: Vol, v1: Vol, v2: Vol, ino: nat)
    requires Rewritten(v, v1, ino) && Rewritten(v1, v2, ino)
    ensures Rewritten(v, v2, ino)
  {
    hide OwnersOk, DirOk, FileShape, Entries, SameFile;
    forall j | 1 <= j < INODES && j != ino ensures SameFile(v, v2, j) {
      SameFileChain(v, v1, v2, j);
    }
  }

  lemma SameFileChain(v: Vol, v1: Vol, v2: Vol, j: nat)
    requires SameFile(v, v1, j) && SameFile(v1, v2, j)
    ensures SameFile(v, v2, j)
  {
  }

  lemma AddedRewritten(v: Vol, v': Vol, ino: nat)
    requires VolOk(v) && VolOk(v') && Entries(v') == Entries(v) && v'.used == v.used
    requires forall j :: 1 <= j < INODES && j != ino ==> SameFile(v, v', j)
    ensures Rewritten(v, v', ino)
  {
  }

  lemma PointerGood(v: Vol, ino: nat, i: nat)
    requires VolOk(v) && ino < INODES && i < |v.inodes[ino].blocks| && v.inodes[ino].blocks[i] != 0
    ensures 1 <= v.inodes[ino].blocks[i] < |v.clusters|
  {
    hide DirOk, Entries;
    assert v.inodes[ino].blocks[i] in v.owner;
  }

  ghost predicate HoldsChunk(v: Vol, ino: nat, j: nat, data: seq<byte>) {
    && ino < |v.inodes| && j < |v.inodes[ino].blocks| && v.inodes[ino].blocks[j] < |v.clusters| && j * BLOCK <= |data|
    && AsBytes(v.clusters[v.inodes[ino].blocks[j]]) == Chunk(data, j)
  }

  /** The chunks before block `i` stay when block `i` is added and written. */
  lemma ChunksKept(v0: Vol, v: Vol, ino: nat, i: nat, data: seq<byte>)
    requires OwnersOk(v) && ino < |v.inodes| && i < |v.inodes[ino].blocks| && 0 < v.inodes[ino].blocks[i] < |v.clusters|
      && i * BLOCK <= |data|
    requires v.clusters == v0.clusters && ino < |v0.inodes| && |v0.inodes[ino].blocks| == |v.inodes[ino].blocks|
    requires forall j :: 0 <= j < i ==> v0.inodes[ino].blocks[j] == v.inodes[ino].blocks[j]
    ensures var v' := Fill(v, v.inodes[ino].blocks[i], Raw(Chunk(data, i)));
      HoldsChunk(v', ino, i, data) && forall j ::
        0 <= j < i && HoldsChunk(v0, ino, j, data) ==> HoldsChunk(v', ino, j, data)
  {
    assert v.owner[v.inodes[ino].blocks[i]] == (ino, i);
    forall j | 0 <= j < i ensures v.inodes[ino].blocks[j] != v.inodes[ino].blocks[i] {
      assert v.inodes[ino].blocks[j] != 0 ==> v.owner[v.inodes[ino].blocks[j]] == (ino, j);
    }
  }

  predicate PointsBetween(n: Inode, from: nat, to: nat, c: nat) {
    exists i :: from <= i < to && i < |n.blocks| && n.blocks[i] == c && c != 0
  }

  lemma PointsMore(n: Inode, from: nat, i: nat)
    requires from <= i < |n.blocks|
    ensures forall c: nat ::
      PointsBetween(n, from, i + 1, c) <==> PointsBetween(n, from, i, c) || (n.blocks[i] == c && c != 0)
  {
  }

  lemma PointsAll(n: Inode, from: nat, i: nat)
    requires i >= |n.blocks|
    ensures forall c: nat :: PointsBetween(n, from, i, c) <==> PointsFrom(n, from, c)
  {
  }

  predicate HasRoom(es: seq<Dirent>) { exists k :: 0 <= k < |es| && !LiveAt(es, k) }

  lemma RootFacts(v: Vol)
    requires VolOk(v)
    ensures |v.inodes[0].blocks| == MAX_BLOCKS && (v.inodes[0].size == 0 <==> Entries(v) == [])
      && v.inodes[0].blocks[0] < |v.clusters|
    ensures v.inodes[0].size > 0 ==> v.inodes[0].size == BLOCK
  {
    if v.inodes[0].size > 0 {
      assert v.inodes[0].blocks[0] in v.owner;
    }
  }

  /** A free inode has no name. */
  lemma FreshInode(v: Vol, ino: nat)
    requires VolOk(v) && 1 <= ino < INODES && !v.used[ino]
    ensures !Named(Entries(v), ino)
  {
  }

  lemma OthersFrom(v: Vol, v1: Vol, v2: Vol, name: string)
    requires (forall other :: File(v1, other) == File(v, other)) && OthersKept(v1, v2, name)
    ensures OthersKept(v, v2, name)
  {
    hide File;
  }

  lemma RoomOf(v: Vol, v': Vol)
    requires (Entries(v) != [] ==> v' == v) && (Entries(v) == [] ==>
      Entries(v') != [] && forall k :: !LiveAt(Entries(v'), k))
    ensures Entries(v) == [] ==> HasRoom(Entries(v'))
  {
    if Entries(v) == [] { assert !LiveAt(Entries(v'), 0); }
  }

  lemma NotNamed(v: Vol, v': Vol, ino: nat)
    requires VolOk(v) && VolOk(v') && !Named(Entries(v), ino)
    requires Entries(v) != [] ==> v' == v
    requires Entries(v) == [] ==> forall k :: !LiveAt(Entries(v'), k)
    ensures !Named(Entries(v'), ino)
  {
  }

  lemma {:induction false} PositionIs(es: seq<Dirent>, name: string, k: nat)
    requires k <= |es| && (forall m :: 0 <= m < k ==> !(LiveAt(es, m) && es[m].name == name))
    requires k < |es| ==> LiveAt(es, k) && es[k].name == name
    ensures Position(es, name) == k
  {
    if k > 0 { PositionIs(es[1..], name, k - 1); }
  }

  lemma Found(v: Vol, name: string)
    requires VolOk(v)
    ensures var k := Position(Entries(v), name);
      && (File(v, name) == None <==> k == |Entries(v)|)
      && (k < |Entries(v)| ==>
         var ino := Entries(v)[k].inode;
         1 <= ino < INODES && FileShape(v.inodes[ino]) && File(v, name) == Some(Content(v, ino)))
  {
    var k := Position(Entries(v), name);
    assert k < |Entries(v)| ==> LiveAt(Entries(v), k);
  }
}
