/** Where a NO_OSFS volume lies on the disk. */
module Device {
  import opened Word
  import opened Volume

  const INODE_BYTES := 72                        // a `struct fs_inode` under natural alignment
  const INODES_PER_BLOCK := BLOCK / INODE_BYTES  // 7
  const INODE_BLOCKS := 36                       // INODES * INODE_BYTES rounded up to blocks
  const BITS_PER_BLOCK := 4096

  function AsInodes(b: Block): (r: seq<Inode>)
    ensures |r| == INODES_PER_BLOCK
  {
    if b.InodeBlock? && |b.ins| == INODES_PER_BLOCK then b.ins else seq(INODES_PER_BLOCK, _ => ZeroInode())
  }

  function InodeLba(sb: Super, ino: nat): nat { sb.inodeStart + ino / INODES_PER_BLOCK }

  /** The regions follow each other: superblocks, bitmap, inode table, clusters. */
  predicate Laid(sb: Super, blocks: nat) {
    && sb.bitmapStart == 2 && sb.inodeStart == 2 + sb.bitmapBlocks && sb.dataStart == sb.inodeStart + INODE_BLOCKS
    && sb.blockCount >= 1 && sb.dataStart + sb.blockCount <= blocks
  }

  function InodesOf(disk: seq<Block>, sb: Super): (r: seq<Inode>)
    requires Laid(sb, |disk|)
    ensures |r| == INODES
  {
    seq(INODES, k requires 0 <= k < INODES => AsInodes(disk[InodeLba(sb, k)])[k % INODES_PER_BLOCK])
  }

  /** What inodes that are not in use hold on disk is of no account: formatting
      leaves the last four as they were. */
  function Masked(ins: seq<Inode>, used: seq<bool>): (r: seq<Inode>)
    requires |ins| == |used|
    ensures |r| == |ins| && forall k :: 0 <= k < |r| ==> r[k] == if used[k] then ins[k] else ZeroInode()
  {
    seq(|ins|, k requires 0 <= k < |ins| => if used[k] then ins[k] else ZeroInode())
  }

  /** The allocatable clusters; cluster 0 is never one, and shows up empty here. */
  function ClustersOf(disk: seq<Block>, sb: Super): (r: seq<Block>)
    requires Laid(sb, |disk|)
    ensures |r| == sb.blockCount
  {
    [Raw(ZeroBytes())] + disk[sb.dataStart + 1..sb.dataStart + sb.blockCount]
  }

  /** The inode table reaches one block into the data area, and no further: its
      last four inodes lie in cluster 0. */
  lemma TableReach(sb: Super, ino: nat)
    requires ino < INODES
    ensures sb.inodeStart <= InodeLba(sb, ino) <= sb.inodeStart + INODE_BLOCKS
    ensures InodeLba(sb, ino) == sb.inodeStart + INODE_BLOCKS <==> ino >= 252
  {
  }

  /** Writing one inode changes that inode, and no allocatable cluster. */
  lemma InodeWritten(disk: seq<Block>, sb: Super, ino: nat, n: Inode)
    requires Laid(sb, |disk|) && ino < INODES
    ensures InodeLba(sb, ino) < |disk|
    ensures var lba := InodeLba(sb, ino);
      var disk' := disk[lba := InodeBlock(AsInodes(disk[lba])[ino % INODES_PER_BLOCK := n])];
      InodesOf(disk', sb) == InodesOf(disk, sb)[ino := n] && ClustersOf(disk', sb) == ClustersOf(disk, sb)
  {
    TableReach(sb, ino);
    var lba := InodeLba(sb, ino);
    var disk' := disk[lba := InodeBlock(AsInodes(disk[lba])[ino % INODES_PER_BLOCK := n])];
    forall k | 0 <= k < INODES ensures InodesOf(disk', sb)[k] == InodesOf(disk, sb)[ino := n][k] {
      TableReach(sb, k);
      assert InodeLba(sb, k) == lba && k % INODES_PER_BLOCK == ino % INODES_PER_BLOCK ==> k == ino;
    }
  }

  /** Writing an allocatable cluster changes that cluster, and no inode. */
  lemma ClusterWritten(disk: seq<Block>, sb: Super, c: nat, b: Block)
    requires Laid(sb, |disk|) && 1 <= c < sb.blockCount
    ensures var disk' := disk[sb.dataStart + c := b];
      InodesOf(disk', sb) == InodesOf(disk, sb) && ClustersOf(disk', sb) == ClustersOf(disk, sb)[c := b]
  {
    var disk' := disk[sb.dataStart + c := b];
    forall k | 0 <= k < INODES ensures InodesOf(disk', sb)[k] == InodesOf(disk, sb)[k] {
      TableReach(sb, k);
    }
  }

  lemma ClusterRead(disk: seq<Block>, sb: Super, c: nat)
    requires Laid(sb, |disk|) && 1 <= c < sb.blockCount
    ensures ClustersOf(disk, sb)[c] == disk[sb.dataStart + c]
  {
  }

  // ---- sharing the disk with swap ----

  const PAGE_SECTORS := 8

  datatype SwapArea = SwapArea(start: nat, blocks: nat, pages: nat)

  /** `swap_geometry`: a quarter of the disk, at least one page, at its end. */
  function SwapGeometry(disk: nat): SwapArea
    requires disk >= PAGE_SECTORS
  {
    var blocks := if disk / 4 < PAGE_SECTORS then PAGE_SECTORS else disk / 4;
    SwapArea(disk - blocks, blocks, blocks / PAGE_SECTORS)
  }

  /** The layout `fs_format` chooses below block `total`: the size of the bitmap
      is computed twice, the second time for the number of clusters of the first. */
  function Geometry(total: nat): Super
    requires BigEnough(total)
  {
    var n := total - (2 + Blocks(total) + INODE_BLOCKS);
    var bitmapBlocks := Blocks(n);
    var dataStart := 2 + bitmapBlocks + INODE_BLOCKS;
    Super(total - dataStart, 2, bitmapBlocks, 2 + bitmapBlocks, dataStart, 2)
  }

  function Blocks(bits: nat): nat { (bits + BITS_PER_BLOCK - 1) / BITS_PER_BLOCK }

  predicate BigEnough(total: nat) { total > 2 + Blocks(total) + INODE_BLOCKS }

  lemma {:induction false} GeometryLaid(total: nat, blocks: nat)
    requires BigEnough(total) && total <= blocks
    ensures var g := Geometry(total);
      Laid(g, blocks) && g.dataStart + g.blockCount == total && g.bitmapBlocks <= Blocks(total)
  {
  }

  /** The disk sizes for which one recomputation is not enough. */
  predicate Uncovered(total: nat)
    requires BigEnough(total)
  {
    (BITS_PER_BLOCK - 1) * ((total - 39) % (BITS_PER_BLOCK + 1)) <= (total - 39) / (BITS_PER_BLOCK + 1) + 38
  }

  /** For them, and no others, the bitmap has not a bit for every cluster. */
  lemma BitmapCovers(total: nat)
    requires BigEnough(total)
    ensures Geometry(total).blockCount <= BITS_PER_BLOCK * Geometry(total).bitmapBlocks <==> !Uncovered(total)
  {
    var q := total - 39;
    Sized(q, q / 4097, q % 4097, Blocks(total), Geometry(total).bitmapBlocks);
  }

  /** `first` and `second` are the sizes of the bitmap that are computed in turn,
      for `q` + 39 blocks. */
  lemma Sized(q: nat, b: nat, x: nat, first: nat, second: nat)
    requires q == 4097 * b + x && x < 4097
    requires 4096 * (first - 1) < q + 39 <= 4096 * first && 4096 * (second - 1) < q + 1 - first <= 4096 * second
    ensures q + 1 - second <= 4096 * second <==> 4095 * x > b + 38
  {
    if q >= 4097 * second {
      assert b >= second;
      assert first >= b + x + 1;
    }
    if 4095 * x <= b + 38 {
      assert first >= b + x + 1;
      assert second <= b;
    }
  }

  /** Up to 16621568 blocks, some eight gigabytes, they are one in 4097. */
  lemma OneIn4097(total: nat)
    requires BigEnough(total)
    ensures total < 16621569 ==> (Uncovered(total) <==> total % 4097 == 39)
    ensures BigEnough(16621569) && Uncovered(16621569) && 16621569 % 4097 != 39
  {
    var q := total - 39;
    assert q == 4097 * (q / 4097) + q % 4097;
    if total < 16621569 {
      FewOver(q, q / 4097, q % 4097);
      assert total == 4097 * (q / 4097) + (q % 4097 + 39);
    }
  }

  lemma FewOver(q: nat, b: nat, x: nat)
    requires q == 4097 * b + x && x < 4097 && q < 16621530
    ensures 4095 * x <= b + 38 <==> x == 0
    ensures (q + 39) % 4097 == 39 <==> x == 0
  {
    var t := q + 39;
    if x < 4058 {
      assert t == 4097 * b + (x + 39);
      assert t % 4097 == x + 39;
    } else {
      assert t == 4097 * (b + 1) + (x - 4058);
      assert t % 4097 == x - 4058;
    }
  }

  /** A disk of 5514 sectors leaves 4136 of them to the volume, whose bitmap is
      then one bit short. */
  lemma BitmapShort()
    ensures SwapGeometry(5514).start == 4136 && BigEnough(4136) && Uncovered(4136)
    ensures Geometry(4136).blockCount == BITS_PER_BLOCK * Geometry(4136).bitmapBlocks + 1
  {
  }

  /** Superblocks, bitmap, inode table, clusters and swap slots lie one after the
      other on any big enough disk: the data area ends exactly where swap starts,
      the inode table reaches into cluster 0 and no other, and no slot leaves the
      disk or meets another. */
  lemma Partition(disk: nat, c: nat, ino: nat, slot: nat, slot2: nat)
    requires disk >= PAGE_SECTORS && BigEnough(SwapGeometry(disk).start)
    requires 1 <= c < Geometry(SwapGeometry(disk).start).blockCount && ino < INODES
    requires slot < slot2 < SwapGeometry(disk).pages
    ensures var swap := SwapGeometry(disk); var g := Geometry(swap.start);
      && Laid(g, swap.start) && g.dataStart + g.blockCount == swap.start
      && 2 <= g.bitmapStart && g.bitmapStart + g.bitmapBlocks <= InodeLba(g, ino) <= g.dataStart < g.dataStart
         + c < swap.start
      && swap.start <= swap.start + slot * PAGE_SECTORS
      && swap.start + (slot + 1) * PAGE_SECTORS <= swap.start + slot2 * PAGE_SECTORS
      && swap.start + (slot2 + 1) * PAGE_SECTORS <= disk
  {
    GeometryLaid(SwapGeometry(disk).start, SwapGeometry(disk).start);
    TableReach(Geometry(SwapGeometry(disk).start), ino);
  }
}
