/** The kernel heap: first fit over a linked list of blocks, splitting on
    allocation and merging with both list neighbours on free. What the list
    says, in order, is a sequence of blocks; every operation is an edit of it. */
module Heap {
  import opened Frames

  const HDR := 32               // sizeof(block)
  const MAGIC := 0x4E4F_4F53_4C4C_4F43
  const GUARD := 100_000        // steps kfree takes in search of the previous block
  const TWO64 := 0x1_0000_0000_0000_0000

  function Align16(n: nat): nat { (n + 15) % TWO64 / 16 * 16 }

  /** A block: address of its header, payload bytes, and whether it is free. */
  datatype Block = Block(at: nat, size: nat, free: bool)

  function End(b: Block): nat { b.at + HDR + b.size }

  predicate Disjoint(a: Block, b: Block) { End(a) <= b.at || End(b) <= a.at }

  /** Blocks do not overlap, and everything is a multiple of 16. */
  ghost predicate Apart(bs: seq<Block>) {
    && (forall i :: 0 <= i < |bs| ==> bs[i].at > 0 && bs[i].at % 16 == 0 && bs[i].size % 16 == 0)
    && (forall i, j :: 0 <= i < |bs| && 0 <= j < |bs| && i != j ==> Disjoint(bs[i], bs[j]))
  }

  predicate Holds(b: Block, x: nat) { b.at <= x < End(b) }

  /** Byte `x` belongs to some block. */
  predicate Covered(bs: seq<Block>, x: nat) {
    exists b :: b in bs && Holds(b, x)
  }

  function UsedBytes(bs: seq<Block>): nat {
    if bs == [] then 0 else (if bs[0].free then 0 else bs[0].size) + UsedBytes(bs[1..])
  }

  /** Headers and payloads together. */
  function AllBytes(bs: seq<Block>): nat {
    if bs == [] then 0 else HDR + bs[0].size + AllBytes(bs[1..])
  }

  /** List neighbours that `kfree` would merge. */
  predicate Mergeable(a: Block, b: Block) { a.free && b.free && b.at == End(a) }

  predicate Coalesced(bs: seq<Block>) {
    forall i :: 0 < i < |bs| ==> !Mergeable(bs[i - 1], bs[i])
  }

  /** The allocations that callers hold: used blocks. */
  function Live(bs: seq<Block>): set<Block> {
    set b | b in bs && !b.free
  }

  // ---- edits ----

  /** Replace `n` blocks from `i` on by `mid`. */
  function Spliced(bs: seq<Block>, i: nat, n: nat, mid: seq<Block>): seq<Block>
    requires i + n <= |bs|
  {
    bs[..i] + mid + bs[i + n..]
  }

  /** A free block put to use for `size` bytes, split if the rest is big enough. */
  function Split(b: Block, size: nat): (mid: seq<Block>)
    requires size <= b.size
    ensures 1 <= |mid| <= 2
  {
    if b.size - size >= HDR + 16 then [Block(b.at, size, false), Block(b.at + HDR + size, b.size - size - HDR, true)]
    else [b.(free := false)]
  }

  /** Block `i` put to use. */
  function Taken(bs: seq<Block>, i: nat, size: nat): seq<Block>
    requires i < |bs| && size <= bs[i].size
  {
    Spliced(bs, i, 1, Split(bs[i], size))
  }

  /** Blocks `i` and `i + 1` made one. */
  function Merged(bs: seq<Block>, i: nat): seq<Block>
    requires i + 1 < |bs|
  {
    bs[..i] + [bs[i].(size := bs[i].size + HDR + bs[i + 1].size)] + bs[i + 2..]
  }

  /** `bs[i]` with what follows it, made one if possible. */
  function MergedNext(bs: seq<Block>, i: nat): seq<Block>
    requires i < |bs|
  {
    if i + 1 < |bs| && Mergeable(bs[i], bs[i + 1]) then Merged(bs, i) else bs
  }

  /** `kfree` of block `i`: freed, merged with its successor, then with its
      predecessor if that is within reach. */
  function Freed(bs: seq<Block>, i: nat): seq<Block>
    requires i < |bs|
  {
    var bs1 := MergedNext(Opened(bs, i), i);
    if 0 < i <= GUARD && Mergeable(bs1[i - 1], bs1[i]) then Merged(bs1, i - 1) else bs1
  }

  /** The first free block of at least `size` bytes; the length if none. */
  function FirstFit(bs: seq<Block>, size: nat): (i: nat)
    ensures i <= |bs| && (i < |bs| ==> bs[i].free && bs[i].size >= size)
    ensures forall j :: 0 <= j < i ==> !(bs[j].free && bs[j].size >= size)
  {
    if bs == [] then 0 else if bs[0].free && bs[0].size >= size then 0 else 1 + FirstFit(bs[1..], size)
  }

  // ---- what an edit keeps ----

  lemma {:induction false} SumsAppend(a: seq<Block>, b: seq<Block>)
    ensures UsedBytes(a + b) == UsedBytes(a) + UsedBytes(b) && AllBytes(a + b) == AllBytes(a) + AllBytes(b)
  {
    if a == [] {
      assert a + b == b;
    } else {
      assert (a + b)[1..] == a[1..] + b;
      SumsAppend(a[1..], b);
    }
  }

  lemma SpliceSums(bs: seq<Block>, i: nat, n: nat, mid: seq<Block>)
    requires i + n <= |bs|
    ensures UsedBytes(Spliced(bs, i, n, mid)) == UsedBytes(bs) - UsedBytes(bs[i..i + n]) + UsedBytes(mid)
    ensures AllBytes(Spliced(bs, i, n, mid)) == AllBytes(bs) - AllBytes(bs[i..i + n]) + AllBytes(mid)
  {
    assert bs == bs[..i] + bs[i..i + n] + bs[i + n..];
    SumsAppend(bs[..i] + bs[i..i + n], bs[i + n..]);
    SumsAppend(bs[..i], bs[i..i + n]);
    SumsAppend(bs[..i] + mid, bs[i + n..]);
    SumsAppend(bs[..i], mid);
  }

  /** The new blocks lie where the old ones lay. */
  ghost predicate Within(mid: seq<Block>, old_: seq<Block>) {
    forall x: nat :: Covered(mid, x) <==> Covered(old_, x)
  }

  lemma Overlap(a: Block, b: Block)
    ensures !Disjoint(a, b) ==> exists x: nat :: Holds(a, x) && Holds(b, x)
  {
    var x := if a.at < b.at then b.at else a.at;
    assert !Disjoint(a, b) ==> Holds(a, x) && Holds(b, x);
  }

  lemma Elsewhere(bs: seq<Block>, i: nat, n: nat, mid: seq<Block>, a: Block, k: nat)
    requires Apart(bs) && i + n <= |bs| && Within(mid, bs[i..i + n]) && a in mid && k < |bs| && !(i <= k < i + n)
    ensures Disjoint(a, bs[k]) && Disjoint(bs[k], a)
  {
    forall x: nat | Holds(a, x) ensures !Holds(bs[k], x) {
      assert Covered(mid, x) && Covered(bs[i..i + n], x);
      var b :| b in bs[i..i + n] && Holds(b, x);
      var j :| i <= j < i + n && bs[j] == b;
      assert Disjoint(bs[j], bs[k]);
    }
    Overlap(a, bs[k]);
  }

  lemma SpliceApart(bs: seq<Block>, i: nat, n: nat, mid: seq<Block>)
    requires Apart(bs) && i + n <= |bs| && Apart(mid) && Within(mid, bs[i..i + n])
    ensures Apart(Spliced(bs, i, n, mid))
  {
    var r := Spliced(bs, i, n, mid);
    forall p, q | 0 <= p < |r| && 0 <= q < |r| && p != q ensures Disjoint(r[p], r[q]) {
      var shift := n - |mid|;
      var pin, qin := i <= p < i + |mid|, i <= q < i + |mid|;
      var p0, q0 := if p < i then p else p + shift, if q < i then q else q + shift;
      assert !pin ==> r[p] == bs[p0];
      assert !qin ==> r[q] == bs[q0];
      assert pin ==> r[p] == mid[p - i] && r[p] in mid;
      assert qin ==> r[q] == mid[q - i] && r[q] in mid;
      if pin && !qin { Elsewhere(bs, i, n, mid, r[p], q0); }
      if qin && !pin { Elsewhere(bs, i, n, mid, r[q], p0); }
    }
    forall p | 0 <= p < |r| ensures r[p].at > 0 && r[p].at % 16 == 0 && r[p].size % 16 == 0 {
      assert r[p] in bs[..i] || r[p] in mid || r[p] in bs[i + n..];
    }
  }

  lemma SpliceCovers(bs: seq<Block>, i: nat, n: nat, mid: seq<Block>)
    requires i + n <= |bs| && Within(mid, bs[i..i + n])
    ensures Within(Spliced(bs, i, n, mid), bs)
  {
    var r := Spliced(bs, i, n, mid);
    assert forall b :: b in r <==> b in bs[..i] || b in mid || b in bs[i + n..];
    assert bs == bs[..i] + bs[i..i + n] + bs[i + n..];
    assert forall b :: b in bs <==> b in bs[..i] || b in bs[i..i + n] || b in bs[i + n..];
    forall x: nat ensures Covered(r, x) <==> Covered(bs, x) {
      if Covered(r, x) {
        var b :| b in r && Holds(b, x);
        if b in mid { assert Covered(mid, x) && Covered(bs[i..i + n], x); }
      }
      if Covered(bs, x) {
        var b :| b in bs && Holds(b, x);
        if b in bs[i..i + n] { assert Covered(bs[i..i + n], x) && Covered(mid, x); }
      }
    }
  }

  /** Everything about an allocation in block `i`: the list still tiles the same
      bytes, the counters move as the code moves them, and exactly one
      allocation is new. */
  lemma TakenKeeps(bs: seq<Block>, i: nat, size: nat)
    requires Apart(bs) && i < |bs| && bs[i].free && size <= bs[i].size && size % 16 == 0
    ensures var r := Taken(bs, i, size);
      && Apart(r) && Within(r, bs) && AllBytes(r) == AllBytes(bs)
      && i < |r| && r[i].at == bs[i].at && !r[i].free && size <= r[i].size < size + HDR + 16
      && UsedBytes(r) == UsedBytes(bs) + r[i].size
      && Live(r) == Live(bs) + {r[i]} && r[i] !in Live(bs)
  {
    var mid := Split(bs[i], size);
    assert bs[i..i + 1] == [bs[i]];
    SplitOk(bs[i], size);
    SpliceApart(bs, i, 1, mid);
    SpliceCovers(bs, i, 1, mid);
    SpliceSums(bs, i, 1, mid);
    TakenLive(bs, i, size);
  }

  lemma SplitOk(b: Block, size: nat)
    requires b.free && size <= b.size && size % 16 == 0 && Apart([b])
    ensures var mid := Split(b, size);
      && Apart(mid) && Within(mid, [b]) && AllBytes(mid) == AllBytes([b]) && UsedBytes(mid) == mid[0].size
         && UsedBytes([b]) == 0
      && mid[0].at == b.at && !mid[0].free && size <= mid[0].size < size + HDR + 16
  {
    var mid := Split(b, size);
    assert [b][0] == b;
    MidWithin(b, mid);
    SumsOne(b);
    SumsOne(mid[0]);
    if |mid| == 2 {
      assert mid == [mid[0]] + [mid[1]];
      SumsOne(mid[1]);
      SumsAppend([mid[0]], [mid[1]]);
    } else {
      assert mid == [mid[0]];
    }
  }

  lemma SumsOne(b: Block)
    ensures UsedBytes([b]) == (if b.free then 0 else b.size) && AllBytes([b]) == HDR + b.size
  {
    assert [b][1..] == [];
  }

  lemma MidWithin(b: Block, mid: seq<Block>)
    requires |mid| > 0 && mid[0].at == b.at
    requires (|mid| == 1 && End(mid[0]) == End(b)) || (|mid| == 2 && End(mid[0]) == mid[1].at && End(mid[1]) == End(b))
    ensures Within(mid, [b])
  {
    forall x: nat ensures Covered(mid, x) <==> Covered([b], x) {
      if Covered(mid, x) {
        assert b in [b] && Holds(b, x);
      }
      if Covered([b], x) {
        assert b in [b] && Holds(b, x);
        assert Holds(if |mid| == 2 && x >= mid[1].at then mid[1] else mid[0], x);
      }
    }
  }

  lemma TakenLive(bs: seq<Block>, i: nat, size: nat)
    requires Apart(bs) && i < |bs| && bs[i].free && size <= bs[i].size
    ensures var r := Taken(bs, i, size); Live(r) == Live(bs) + {r[i]} && r[i] !in Live(bs)
  {
    var r := Taken(bs, i, size);
    forall b | b in bs && !b.free ensures b in r && b != r[i] {
      var j :| 0 <= j < |bs| && bs[j] == b;
      assert Disjoint(bs[j], bs[i]);
      assert r[if j < i then j else j + |r| - |bs|] == b;
    }
    forall b | b in r && !b.free && b != r[i] ensures b in bs {
      var j :| 0 <= j < |r| && r[j] == b;
      assert j < i ==> bs[j] == b;
      assert j > i ==> j - (|r| - |bs|) > i && bs[j - (|r| - |bs|)] == b;
    }
  }

  /** Neighbours are merged wherever they can be, but for block `i` and its
      predecessor. */
  predicate CoalescedBut(bs: seq<Block>, i: nat) {
    forall k :: 0 < k < |bs| && k != i ==> !Mergeable(bs[k - 1], bs[k])
  }

  /** Using block `i` leaves nothing to merge, even if it could have been merged
      with its predecessor before. */
  lemma TakenCoalesced(bs: seq<Block>, i: nat, size: nat)
    requires i < |bs| && size <= bs[i].size && bs[i].free && CoalescedBut(bs, i)
    ensures Coalesced(Taken(bs, i, size))
  {
    var r := Taken(bs, i, size);
    var d := |r| - |bs|;
    forall k | 0 < k < |r| ensures !Mergeable(r[k - 1], r[k]) {
      if k < i {
        assert r[k - 1] == bs[k - 1] && r[k] == bs[k];
      } else if k > i + d + 1 {
        assert r[k - 1] == bs[k - 1 - d] && r[k] == bs[k - d];
      } else if k == i + d + 1 {
        assert r[k] == bs[i + 1] && End(r[k - 1]) == End(bs[i]);
        assert !Mergeable(bs[i + 1 - 1], bs[i + 1]);
      }
    }
  }

  // ---- merging ----

  lemma MergedKeeps(bs: seq<Block>, i: nat)
    requires Apart(bs) && i + 1 < |bs| && Mergeable(bs[i], bs[i + 1])
    ensures var r := Merged(bs, i);
      && |r| == |bs| - 1 && Apart(r) && Within(r, bs) && AllBytes(r) == AllBytes(bs) && UsedBytes(r) == UsedBytes(bs)
         && Live(r) == Live(bs)
  {
    var m := bs[i].(size := bs[i].size + HDR + bs[i + 1].size);
    hide Within, Live, AllBytes, UsedBytes, Covered;
    var two := bs[i..i + 2];
    ApartOne(bs, i, bs[i]);
    ApartOne(bs, i + 1, bs[i + 1]);
    MergedIs(bs, i, m);
    SumsAppend([bs[i]], [bs[i + 1]]);
    SumsOne(bs[i]);
    SumsOne(bs[i + 1]);
    SumsOne(m);
    MidWithin(m, two);
    SpliceApart(bs, i, 2, [m]);
    SpliceCovers(bs, i, 2, [m]);
    SpliceSums(bs, i, 2, [m]);
    MergedLive(bs, i);
  }

  lemma MergedIs(bs: seq<Block>, i: nat, m: Block)
    requires i + 1 < |bs| && m == bs[i].(size := bs[i].size + HDR + bs[i + 1].size)
    ensures bs[i..i + 2] == [bs[i]] + [bs[i + 1]] && Merged(bs, i) == Spliced(bs, i, 2, [m])
    ensures |Merged(bs, i)| == |bs| - 1
  {
  }

  lemma MergedLive(bs: seq<Block>, i: nat)
    requires i + 1 < |bs| && bs[i].free && bs[i + 1].free
    ensures Live(Merged(bs, i)) == Live(bs)
  {
    var r := Merged(bs, i);
    forall b | b in bs && !b.free ensures b in r {
      var j :| 0 <= j < |bs| && bs[j] == b;
      assert r[if j < i then j else j - 1] == b;
    }
    forall b | b in r && !b.free ensures b in bs {
      var j :| 0 <= j < |r| && r[j] == b;
      assert bs[if j < i then j else j + 1] == b;
    }
  }

  /** Merging `i` with `i + 1` settles that pair; the pairs around it were settled
      before, with `i - 1` possibly open. */
  lemma MergedCoalesced(bs: seq<Block>, i: nat, open: nat)
    requires i + 1 < |bs| && Mergeable(bs[i], bs[i + 1]) && open <= i
    requires forall k :: 0 < k < |bs| && k != i + 1 && k != open ==> !Mergeable(bs[k - 1], bs[k])
    ensures CoalescedBut(Merged(bs, i), open)
  {
    var r := Merged(bs, i);
    forall k | 0 < k < |r| && k != open ensures !Mergeable(r[k - 1], r[k]) {
      if k <= i {
        assert r[k - 1] == bs[k - 1] && r[k].at == bs[k].at && r[k].free == bs[k].free;
        assert !Mergeable(bs[k - 1], bs[k]);
      } else {
        assert r[k] == bs[k + 1] && End(r[k - 1]) == End(bs[k]) && r[k - 1].free == bs[k].free;
        assert !Mergeable(bs[k + 1 - 1], bs[k + 1]);
      }
    }
  }

  // ---- freeing ----

  /** `bs` with block `i` freed, before any merging. */
  function Opened(bs: seq<Block>, i: nat): seq<Block>
    requires i < |bs|
  {
    bs[i := bs[i].(free := true)]
  }

  lemma ApartOne(bs: seq<Block>, i: nat, b: Block)
    requires Apart(bs) && i < |bs| && b.at == bs[i].at && b.size == bs[i].size
    ensures Apart([b]) && b.at > 0 && b.at % 16 == 0 && b.size % 16 == 0
  {
  }

  lemma OpenedKeeps(bs: seq<Block>, i: nat)
    requires Apart(bs) && i < |bs| && !bs[i].free
    ensures var r := Opened(bs, i);
      && Apart(r) && Within(r, bs) && AllBytes(r) == AllBytes(bs) && UsedBytes(r) == UsedBytes(bs) - bs[i].size
      && Live(r) == Live(bs) - {bs[i]}
  {
    hide Within, Live, AllBytes, UsedBytes, Covered;
    var b := bs[i].(free := true);
    assert Opened(bs, i) == Spliced(bs, i, 1, [b]) && bs[i..i + 1] == [bs[i]];
    ApartOne(bs, i, b);
    SumsOne(bs[i]);
    SumsOne(b);
    MidWithin(bs[i], [b]);
    SpliceApart(bs, i, 1, [b]);
    SpliceCovers(bs, i, 1, [b]);
    SpliceSums(bs, i, 1, [b]);
    OpenedLive(bs, i);
  }

  lemma OpenedLive(bs: seq<Block>, i: nat)
    requires Apart(bs) && i < |bs| && !bs[i].free
    ensures Live(Opened(bs, i)) == Live(bs) - {bs[i]}
  {
    var r := Opened(bs, i);
    forall x | x in bs && !x.free && x != bs[i] ensures x in r {
      var j :| 0 <= j < |bs| && bs[j] == x;
      assert r[j] == x;
    }
    forall x | x in r && !x.free ensures x in bs && x != bs[i] {
      var j :| 0 <= j < |r| && r[j] == x;
      assert bs[j] == x && Disjoint(bs[j], bs[i]);
    }
  }

  lemma WithinChain(a: seq<Block>, b: seq<Block>, c: seq<Block>, d: seq<Block>)
    requires Within(b, a)
    ensures (c == b || Within(c, b)) && (d == c || Within(d, c)) ==> Within(d, a)
  {
    hide Covered;
  }

  /** Everything about a free: the list still tiles the same bytes, exactly that
      allocation is gone, and the counters follow. */
  lemma FreedKeeps(bs: seq<Block>, i: nat)
    requires Apart(bs) && i < |bs| && !bs[i].free
    ensures var r := Freed(bs, i);
      && Apart(r) && Within(r, bs) && AllBytes(r) == AllBytes(bs) && UsedBytes(r) == UsedBytes(bs) - bs[i].size
      && Live(r) == Live(bs) - {bs[i]}
  {
    hide Apart, Within, Live, AllBytes, UsedBytes, Merged, Covered;
    var bs0 := Opened(bs, i);
    OpenedKeeps(bs, i);
    WithinChain(bs, bs0, MergedNext(bs0, i), Freed(bs, i));
    var bs1 := MergedNext(bs0, i);
    if i + 1 < |bs| && Mergeable(bs0[i], bs0[i + 1]) {
      MergedKeeps(bs0, i);
    }
    if 0 < i <= GUARD && Mergeable(bs1[i - 1], bs1[i]) {
      MergedKeeps(bs1, i - 1);
    }
  }

  /** Merging is complete after a free exactly if the predecessor could not be
      merged or lay within the steps of the search. */
  lemma FreedCoalesced(bs: seq<Block>, i: nat)
    requires i < |bs| && !bs[i].free && Coalesced(bs)
    ensures Coalesced(Freed(bs, i)) <==> (i <= GUARD || !Mergeable(bs[i - 1], Opened(bs, i)[i]))
  {
    var bs0 := Opened(bs, i);
    forall k | 0 < k < |bs| && k != i && k != i + 1 ensures !Mergeable(bs0[k - 1], bs0[k]) {
      assert !Mergeable(bs[k - 1], bs[k]);
    }
    var bs1 := MergedNext(bs0, i);
    if i + 1 < |bs| && Mergeable(bs0[i], bs0[i + 1]) {
      MergedCoalesced(bs0, i, i);
    }
    assert CoalescedBut(bs1, i);
    if 0 < i && Mergeable(bs1[i - 1], bs1[i]) && i <= GUARD {
      MergedCoalesced(bs1, i - 1, 0);
    }
  }

  /** A heap of 64-byte blocks, all used but the last but one. */
  function LongList(): seq<Block> {
    seq(GUARD + 2, k requires 0 <= k < GUARD + 2 => Block(64 * (k + 1), 32, k == GUARD))
  }

  /** Freeing its last block leaves two free neighbours unmerged. */
  lemma GuardWitness()
    ensures var bs := LongList();
      && Apart(bs) && Coalesced(bs) && !bs[GUARD + 1].free
      && !Coalesced(Freed(bs, GUARD + 1))
  {
    var bs := LongList();
    forall i, j | 0 <= i < |bs| && 0 <= j < |bs| && i != j ensures Disjoint(bs[i], bs[j]) {
      assert bs[i].at == 64 * (i + 1) && bs[j].at == 64 * (j + 1);
    }
    forall i | 0 <= i < |bs| ensures bs[i].at > 0 && bs[i].at % 16 == 0 && bs[i].size % 16 == 0 {
      assert bs[i].at == 16 * (4 * (i + 1));
    }
    hide Freed;
    FreedCoalesced(bs, GUARD + 1);
  }

  // ---- growing ----

  /** A new free block, in bytes no block covers, at the end of the list. */
  lemma GrownKeeps(bs: seq<Block>, b: Block)
    requires Apart(bs) && b.free && b.at > 0 && b.at % 16 == 0 && b.size % 16 == 0
    requires forall x: nat :: Holds(b, x) ==> !Covered(bs, x)
    ensures var r := bs + [b];
      && Apart(r) && AllBytes(r) == AllBytes(bs) + HDR + b.size && UsedBytes(r) == UsedBytes(bs) && Live(r) == Live(bs)
  {
    SumsAppend(bs, [b]);
    SumsOne(b);
    forall i | 0 <= i < |bs| ensures Disjoint(bs[i], b) && Disjoint(b, bs[i]) {
      Overlap(bs[i], b);
      assert forall x: nat :: Holds(bs[i], x) ==> Covered(bs, x);
    }
    GrownLive(bs, b);
  }

  lemma GrownLive(bs: seq<Block>, b: Block)
    requires b.free
    ensures Live(bs + [b]) == Live(bs)
  {
  }

  lemma GrownCovers(bs: seq<Block>, b: Block)
    ensures forall x: nat :: Covered(bs + [b], x) <==> Covered(bs, x) || Holds(b, x)
  {
    forall x: nat ensures Covered(bs + [b], x) <==> Covered(bs, x) || Holds(b, x) {
      if Covered(bs, x) {
        var c :| c in bs && Holds(c, x);
        assert c in bs + [b];
      }
      if Holds(b, x) { assert b in bs + [b]; }
    }
  }

  lemma GrownCoalesced(bs: seq<Block>, b: Block)
    requires Coalesced(bs)
    ensures CoalescedBut(bs + [b], |bs|)
  {
  }

  // ---- the list in memory ----

  datatype Header = Header(size: nat, magic: nat, free: bool, next: nat)

  function At(bs: seq<Block>, i: nat): nat { if i < |bs| then bs[i].at else 0 }

  predicate Listed(bs: seq<Block>, a: nat) { exists i :: 0 <= i < |bs| && bs[i].at == a }

  predicate LinkedAt(mem: map<nat, Header>, bs: seq<Block>, i: nat)
    requires i < |bs|
  {
    bs[i].at in mem && mem[bs[i].at] == Header(bs[i].size, MAGIC, bs[i].free, At(bs, i + 1))
  }

  /** Memory holds the list: each block's header, linked in order. Headers that
      are not in the list any more were left behind by merging, marked free. */
  ghost predicate Linked(mem: map<nat, Header>, head: nat, bs: seq<Block>) {
    && head == At(bs, 0)
    && (forall i :: 0 <= i < |bs| ==> LinkedAt(mem, bs, i))
    && (forall a :: a in mem && !mem[a].free ==> Listed(bs, a))
  }

  ghost predicate DistinctAts(bs: seq<Block>) {
    forall i, j :: 0 <= i < |bs| && 0 <= j < |bs| && i != j ==> bs[i].at != bs[j].at
  }

  lemma ApartAts(bs: seq<Block>)
    requires Apart(bs)
    ensures DistinctAts(bs)
  {
    forall i, j | 0 <= i < |bs| && 0 <= j < |bs| && i != j ensures bs[i].at != bs[j].at {
      assert Disjoint(bs[i], bs[j]);
    }
  }

  /** The edits of the code carry the links over: block `i` split... */
  lemma LinkedSplit(mem: map<nat, Header>, head: nat, bs: seq<Block>, i: nat, size: nat)
    requires Linked(mem, head, bs) && i < |bs| && bs[i].size - size >= HDR + 16
    requires DistinctAts(bs) && DistinctAts(Taken(bs, i, size))
    ensures var a := bs[i].at; var n := a + HDR + size;
      a in mem && Linked(mem[n := Header(bs[i].size - size - HDR, MAGIC, true, mem[a].next)][a :=
        Header(size, MAGIC, false, n)], head, Taken(bs, i, size))
  {
    var a, n, r := bs[i].at, bs[i].at + HDR + size, Taken(bs, i, size);
    assert LinkedAt(mem, bs, i);
    var mem' := mem[n := Header(bs[i].size - size - HDR, MAGIC, true, mem[a].next)][a := Header(size, MAGIC, false, n)];
    assert r[i].at == a && r[i + 1].at == n;
    forall k | 0 <= k < |r| ensures LinkedAt(mem', r, k) {
      var k0 := if k < i then k else k - 1;
      if k != i && k != i + 1 {
        assert r[k] == bs[k0] && LinkedAt(mem, bs, k0) && r[k].at != a && r[k].at != n;
      }
      assert At(r, k + 1) == if k == i then n else At(bs, k0 + 1);
    }
    forall x | x in mem' && !mem'[x].free ensures Listed(r, x) {
      if x != a {
        assert Listed(bs, x);
        var k :| 0 <= k < |bs| && bs[k].at == x;
        assert r[if k < i then k else k + 1].at == x;
      }
    }
  }

  /** ... block `i` marked used or free as a whole ... */
  lemma LinkedWhole(mem: map<nat, Header>, head: nat, bs: seq<Block>, i: nat, free: bool)
    requires Linked(mem, head, bs) && i < |bs| && DistinctAts(bs)
    ensures var a := bs[i].at; a in mem && Linked(mem[a := mem[a].(free := free)], head, bs[i := bs[i].(free := free)])
  {
    var a, r := bs[i].at, bs[i := bs[i].(free := free)];
    assert LinkedAt(mem, bs, i);
    var mem' := mem[a := mem[a].(free := free)];
    forall k | 0 <= k < |r| ensures LinkedAt(mem', r, k) {
      assert LinkedAt(mem, bs, k) && At(r, k + 1) == At(bs, k + 1);
    }
    forall x | x in mem' && !mem'[x].free ensures Listed(r, x) {
      if x == a {
        assert r[i].at == x;
      } else {
        assert Listed(bs, x);
        var k :| 0 <= k < |bs| && bs[k].at == x;
        assert r[k].at == x;
      }
    }
  }

  /** ... block `i` merged with the free block after it ... */
  lemma LinkedMerged(mem: map<nat, Header>, head: nat, bs: seq<Block>, i: nat)
    requires Linked(mem, head, bs) && i + 1 < |bs| && bs[i + 1].free && DistinctAts(bs)
    ensures var a, b := bs[i].at, bs[i + 1].at;
      && a in mem && b in mem
      && Linked(mem[a := mem[a].(size := mem[a].size + HDR + mem[b].size, next := mem[b].next)], head, Merged(bs, i))
  {
    var a, b, r := bs[i].at, bs[i + 1].at, Merged(bs, i);
    assert LinkedAt(mem, bs, i) && LinkedAt(mem, bs, i + 1);
    var mem' := mem[a := mem[a].(size := mem[a].size + HDR + mem[b].size, next := mem[b].next)];
    forall k | 0 <= k < |r| ensures LinkedAt(mem', r, k) {
      var k0 := if k <= i then k else k + 1;
      assert LinkedAt(mem, bs, k0) && r[k].at == bs[k0].at;
      assert At(r, k + 1) == At(bs, if k < i then k + 1 else k + 2);
    }
    forall x | x in mem' && !mem'[x].free ensures Listed(r, x) {
      assert Listed(bs, x);
      var k :| 0 <= k < |bs| && bs[k].at == x;
      assert LinkedAt(mem, bs, k);
      assert k <= i ==> r[k].at == x;
      assert k > i + 1 ==> r[k - 1].at == x;
    }
  }

  /** ... or a new block linked in at the end. */
  lemma LinkedGrown(mem: map<nat, Header>, head: nat, bs: seq<Block>, b: Block)
    requires Linked(mem, head, bs) && b.free && DistinctAts(bs + [b])
    ensures var h := Header(b.size, MAGIC, true, 0);
      if bs == [] then Linked(mem[b.at := h], b.at, bs + [b])
      else var t := bs[|bs| - 1].at; t in mem && Linked(mem[b.at := h][t := mem[t].(next := b.at)], head, bs + [b])
  {
    var r, n := bs + [b], |bs|;
    var h := Header(b.size, MAGIC, true, 0);
    assert n > 0 ==> LinkedAt(mem, bs, n - 1);
    var mem' := if n == 0 then mem[b.at := h] else mem[b.at := h][bs[n - 1].at := mem[bs[n - 1].at].(next := b.at)];
    forall k | 0 <= k < |r| ensures LinkedAt(mem', r, k) {
      if k < n {
        assert LinkedAt(mem, bs, k) && r[k] == bs[k] && r[k].at != r[n].at;
        assert k < n - 1 ==> r[k].at != r[n - 1].at && At(r, k + 1) == At(bs, k + 1);
      } else {
        assert n > 0 ==> r[n].at != r[n - 1].at;
      }
    }
    forall x | x in mem' && !mem'[x].free ensures Listed(r, x) {
      if x != b.at {
        assert Listed(bs, x);
        var k :| 0 <= k < |bs| && bs[k].at == x;
        assert r[k].at == x;
      } else {
        assert r[n].at == x;
      }
    }
  }

  // ---- the allocator ----

  /** Every byte of a block lies in a frame that the frame pool has given out. */
  ghost predicate Backed(bits: seq<bool>, bs: seq<Block>) {
    forall x: nat :: Covered(bs, x) ==> x / 4096 < |bits| && bits[x / 4096]
  }

  /** The request survives the 64-bit arithmetic from alignment to frames. */
  predicate NoWrap(size: nat) { size + 15 + HDR + 4095 < TWO64 }

  function Bytes(size: nat): nat { Align16(if size == 0 then 1 else size) }

  /** The rounded size is at least the size asked for, and 16-aligned, if and
      only if rounding does not wrap. */
  lemma BytesExact(size: nat)
    requires size < TWO64
    ensures size <= Bytes(size) <==> size + 15 < TWO64
    ensures Bytes(size) % 16 == 0
  {
  }

  class KernelHeap {
    const pool: FramePool
    var mem: map<nat, Header>
    var head: nat
    var used: nat
    var count: nat
    ghost var blocks: seq<Block>   // what the list says
    ghost var frames: nat          // frames taken from the pool so far
    ghost var tidy: bool           // no free so far failed to reach its predecessor

    ghost predicate Valid()
      reads this, pool, pool.bitmap
    {
      && pool.Valid() && |pool.bitmap[..]| > 0 && pool.bitmap[0]
      && Linked(mem, head, blocks) && Apart(blocks) && Backed(pool.bitmap[..], blocks)
      && used == UsedBytes(blocks) && count == |blocks| && AllBytes(blocks) == 4096 * frames
      && (tidy ==> Coalesced(blocks))
    }

    constructor (pool: FramePool)
      requires pool.Valid() && pool.bitmap.Length > 0 && pool.bitmap[0]
      ensures Valid() && blocks == [] && tidy && frames == 0 && this.pool == pool
    {
      this.pool := pool;
      mem, head, used, count := map[], 0, 0, 0;
      blocks, frames, tidy := [], 0, true;
    }

    /** The first fit, as an address; 0 if no free block is big enough. */
    method Scan(size: nat) returns (b: nat, ghost i: nat)
      requires Valid()
      ensures b == At(blocks, FirstFit(blocks, size)) && (b == 0 <==> FirstFit(blocks, size) == |blocks|)
      ensures i == FirstFit(blocks, size)
    {
      b, i := head, 0;
      while b != 0
        invariant i <= |blocks| && b == At(blocks, i)
        invariant forall j :: 0 <= j < i ==> !(blocks[j].free && blocks[j].size >= size)
        decreases |blocks| - i
      {
        assert LinkedAt(mem, blocks, i);
        if mem[b].free && mem[b].size >= size {
          break;
        }
        b, i := mem[b].next, i + 1;
      }
      FitIs(blocks, size, i);
    }

    /** Put the block at `b` to use. */
    method Use(b: nat, size: nat, ghost i: nat)
      requires Valid() && i < |blocks| && blocks[i].at == b && blocks[i].free && size <= blocks[i].size
        && size % 16 == 0
      modifies this
      ensures blocks == Taken(old(blocks), i, size) && frames == old(frames) && tidy == old(tidy)
      ensures Linked(mem, head, blocks) && Apart(blocks) && Backed(pool.bitmap[..], blocks)
      ensures used == UsedBytes(blocks) && count == |blocks| && AllBytes(blocks) == 4096 * frames
    {
      hide Linked, Apart, Coalesced, Within, Backed, UsedBytes, AllBytes, Taken, Covered;
      ghost var bs := blocks;
      TakenKeeps(bs, i, size);
      TakenShape(bs, i, size);
      BackedStill(pool.bitmap[..], bs, Taken(bs, i, size));
      ApartAts(bs);
      ApartAts(Taken(bs, i, size));
      LinkedIs(mem, head, bs, i);
      if mem[b].size - size >= HDR + 16 {
        LinkedSplit(mem, head, bs, i, size);
        var nb := b + HDR + size;
        mem := mem[nb := Header(mem[b].size - size - HDR, MAGIC, true, mem[b].next)][b :=
          Header(size, MAGIC, false, nb)];
        count := count + 1;
      } else {
        LinkedWhole(mem, head, bs, i, false);
        mem := mem[b := mem[b].(free := false)];
      }
      blocks := Taken(bs, i, size);
      used := used + mem[b].size;
    }

    /** The last block of a list that is not empty. */
    method Tail() returns (t: nat)
      requires Linked(mem, head, blocks) && Apart(blocks) && head != 0
      ensures blocks != [] && t == blocks[|blocks| - 1].at && t in mem
    {
      EmptyOrNot(mem, head, blocks);
      LinkedIs(mem, head, blocks, 0);
      t := head;
      ghost var i := 0;
      while mem[t].next != 0
        invariant i < |blocks| && t == blocks[i].at && LinkedAt(mem, blocks, i)
        decreases |blocks| - i
      {
        LinkedIs(mem, head, blocks, i + 1);
        t, i := mem[t].next, i + 1;
      }
      PositiveAts(blocks);
    }

    /** Hang a new free block behind the last. */
    method LinkIn(b: nat, size: nat)
      requires Linked(mem, head, blocks) && Apart(blocks) && Apart(blocks + [Block(b, size, true)]) && b != 0
      modifies `mem, `head, `blocks
      ensures blocks == old(blocks) + [Block(b, size, true)] && Linked(mem, head, blocks)
    {
      hide Linked, Apart, LinkedAt, DistinctAts, At;
      ghost var bs, r := blocks, Block(b, size, true);
      LinkedGrown(mem, head, bs, r) by { ApartAts(bs + [r]); }
      EmptyOrNot(mem, head, bs);
      if head == 0 {
        mem := mem[b := Header(size, MAGIC, true, 0)];
        head := b;
      } else {
        var t := Tail();
        mem := mem[b := Header(size, MAGIC, true, 0)][t := mem[t].(next := b)];
      }
      blocks := bs + [r];
    }

    /** `region_alloc`: a run of frames made one free block at the end of the list. */
    method RegionAlloc(payload: nat) returns (b: nat)
      requires Valid() && payload < TWO64
      modifies this, pool, pool.bitmap
      ensures pool.Valid() && pool.bitmap[0] && used == UsedBytes(blocks) && count == |blocks|
        && AllBytes(blocks) == 4096 * frames
      ensures Linked(mem, head, blocks) && Apart(blocks) && Backed(pool.bitmap[..], blocks)
      ensures tidy == old(tidy) && (tidy ==> Coalesced(old(blocks)))
      ensures b != 0 <==> exists r :: RunAt(old(pool.bitmap[..]), r, RegionFrames(payload))
      ensures b == 0 ==> blocks == old(blocks) && frames == old(frames) && pool.free == old(pool.free)
      ensures b != 0 ==> blocks == old(blocks) + [Region(b, payload)] && frames == old(frames) + RegionFrames(payload)
      ensures b != 0 ==> pool.free < old(pool.free) && b % 4096 == 0
    {
      hide Linked, Apart, Coalesced, Backed, UsedBytes, AllBytes, Covered, LinkedAt, Live, Clear, DistinctAts, At;
      ghost var bs, bits := blocks, pool.bitmap[..];
      var need := (HDR + payload) % TWO64;
      var n := (need + 4095) % TWO64 / 4096;
      assert n == RegionFrames(payload);
      hide RegionFrames, Region, Holds;
      var base := pool.AllocRun(n);
      if base == 0 {
        NoRunAtZero(bits, n);
        assert pool.bitmap[..] == bits;
        return 0;
      }
      b := base * 4096;
      var size := n * 4096 - HDR;
      ghost var r := Block(b, size, true);
      RegionIs(base, payload);
      RegionApart(bits, bs, base, n);
      GrownKeeps(bs, r);
      BackedMore(bits, pool.bitmap[..], bs, base, n);
      LinkIn(b, size);
      frames := frames + n;
      count := count + 1;
    }

    /** `kmalloc`: the payload address, 0 on failure. The first fit is used if
        there is one, else the end of a new region, unless no run of frames is
        left. One allocation is new, all others stand. */
    method Kmalloc(size: nat) returns (p: nat, ghost u: Block)
      requires Valid() && size < TWO64
      modifies this, pool, pool.bitmap
      ensures Valid() && (NoWrap(size) ==> tidy == old(tidy))
      ensures p == 0 ==> Live(blocks) == old(Live(blocks))
      ensures p != 0 ==>
        && p == u.at + HDR && p % 16 == 0 && !u.free && u.size >= Bytes(size)
        && u !in old(Live(blocks)) && Live(blocks) == old(Live(blocks)) + {u}
      ensures Fits(old(blocks), size) ==>
        p != 0 && blocks == Taken(old(blocks), FirstFit(old(blocks), Bytes(size)), Bytes(size))
      ensures !Fits(old(blocks), size) && NoWrap(size) ==>
        && (p != 0 <==> exists r :: RunAt(old(pool.bitmap[..]), r, RegionFrames(Bytes(size))))
        && (p == 0 ==> blocks == old(blocks) && frames == old(frames))
        && (p != 0 ==> exists b :: blocks == Taken(old(blocks) + [Region(b, Bytes(size))], |old(blocks)|, Bytes(size)))
      decreases pool.free
    {
      hide Valid, Coalesced, Taken, Live, FirstFit, RunAt, RegionFrames;
      u := Block(0, 0, false);
      var want := Align16(if size == 0 then 1 else size);
      BytesExact(size);
      ghost var i, bits := 0, pool.bitmap[..];
      var b;
      b, i := Scan(want);
      assert pool.bitmap[..] == bits;
      if b != 0 {
        u := UseFit(b, want, i);
        return b + HDR, u;
      }
      ghost var bs, was := blocks, tidy;
      var nb := Grow(want);
      if nb == 0 {
        return 0, u;
      }
      GrownLive(bs, Region(nb, want));
      p, u := Kmalloc(want);
      if NoWrap(size) {
        NewFits(bs, Region(nb, want), size);
        Settle(bs, Region(nb, want), want, was);
      }
    }

    /** `RegionAlloc`; until the new block is used, it may be mergeable with the
        block before it. */
    method Grow(want: nat) returns (nb: nat)
      requires Valid() && want < TWO64
      modifies this, pool, pool.bitmap
      ensures Valid() && (nb != 0 <==> exists r :: RunAt(old(pool.bitmap[..]), r, RegionFrames(want)))
      ensures nb == 0 ==>
        blocks == old(blocks) && frames == old(frames) && pool.free == old(pool.free) && tidy == old(tidy)
      ensures nb != 0 ==> blocks == old(blocks) + [Region(nb, want)] && !tidy && pool.free < old(pool.free)
      ensures old(tidy) ==> Coalesced(old(blocks))
    {
      hide Linked, Apart, Coalesced, Backed, UsedBytes, AllBytes, Covered, Clear;
      nb := RegionAlloc(want);
      if nb != 0 {
        tidy := false;
      }
    }

    /** Using the new block leaves nothing to merge. */
    ghost method Settle(bs: seq<Block>, r: Block, want: nat, was: bool)
      requires Valid() && r.free && want <= r.size && blocks == Taken(bs + [r], |bs|, want) && (was ==> Coalesced(bs))
      modifies `tidy
      ensures Valid() && tidy == was
    {
      hide Linked, Apart, Backed, UsedBytes, AllBytes, Covered, Clear, Taken;
      if was {
        GrownCoalesced(bs, r);
        TakenCoalesced(bs + [r], |bs|, want);
      }
      tidy := was;
    }

    /** The block at `b`, the first fit, put to use. */
    method UseFit(b: nat, want: nat, ghost i: nat) returns (ghost u: Block)
      requires Valid() && want % 16 == 0 && b != 0 && i == FirstFit(blocks, want) < |blocks| && b == blocks[i].at
      modifies this
      ensures Valid() && tidy == old(tidy) && frames == old(frames) && blocks == Taken(old(blocks), i, want)
      ensures b == u.at && b % 16 == 0 && !u.free && u.size >= want && u !in old(Live(blocks))
        && Live(blocks) == old(Live(blocks)) + {u}
    {
      hide Linked, Coalesced, Backed, UsedBytes, AllBytes, Covered, Taken, Live, Clear, FirstFit;
      FitFacts(blocks, want);
      TakenKeeps(blocks, i, want);
      if tidy { TakenCoalesced(blocks, i, want); }
      u := Taken(blocks, i, want)[i];
      Use(b, want, i);
    }

    /** What the list says, apart from how well it is merged and the charge. */
    ghost predicate Listing()
      reads this
    {
      Linked(mem, head, blocks) && Apart(blocks) && count == |blocks|
    }

    /** `kfree`. A used block is freed and merged with its neighbours; a null
        pointer, and a block freed before, change nothing, even if the block has
        since been merged into another: its header stays behind. That is so only
        while nobody writes there. Once the bytes of a stale header lie inside
        the payload of another block, its owner may overwrite them, and a second
        free acts on whatever it finds; payloads are not part of this model. */
    method Kfree(ptr: nat) returns (ghost i: int)
      requires Valid() && (ptr == 0 || (ptr >= HDR && ptr - HDR in mem))
      modifies this
      ensures Valid() && frames == old(frames) && -1 <= i < |old(blocks)|
      ensures i == -1 <==> forall b :: b in old(blocks) && b.at + HDR == ptr ==> b.free
      ensures i == -1 ==> blocks == old(blocks) && used == old(used) && tidy == old(tidy)
      ensures i >= 0 ==>
        && old(blocks)[i].at + HDR == ptr && !old(blocks)[i].free && blocks == Freed(old(blocks), i)
        && Live(blocks) == Live(old(blocks)) - {old(blocks)[i]} && used == old(used) - old(blocks)[i].size
        && (old(tidy) ==> (tidy <==> i <= GUARD || !Mergeable(old(blocks)[i - 1], Opened(old(blocks), i)[i])))
    {
      hide Coalesced, UsedBytes, AllBytes, Covered, Freed, Live, Within, Backed, Linked, Apart, Clear, MergedNext,
        Merged;
      if ptr == 0 {
        NoneAtZero(blocks);
        return -1;
      }
      var b := ptr - HDR;
      if mem[b].magic != MAGIC || mem[b].free {
        FreeAlready(mem, head, blocks, b);
        return -1;
      }
      i := Position(mem, head, blocks, b);
      ghost var bs := blocks;
      FreedKeeps(bs, i);
      BackedStill(pool.bitmap[..], bs, Freed(bs, i));
      if tidy { FreedCoalesced(bs, i); }
      LinkedIs(mem, head, bs, i);
      var size := mem[b].size;
      UsedAtLeast(bs, i);
      MarkFree(b, i);
      used := used - size;
      MergeNext(b, i);
      MergePrev(b, i);
      assert blocks == Freed(bs, i) by { FreedIs(bs, i); }
      tidy := tidy && (i <= GUARD || !Mergeable(bs[i - 1], Opened(bs, i)[i]));
    }

    method MarkFree(b: nat, ghost i: nat)
      requires Listing() && i < |blocks| && blocks[i].at == b && !blocks[i].free
      modifies `mem, `blocks
      ensures Listing() && blocks == Opened(old(blocks), i)
    {
      hide Apart, Linked;
      ApartAts(blocks);
      LinkedWhole(mem, head, blocks, i, true);
      OpenedKeeps(blocks, i);
      mem := mem[b := mem[b].(free := true)];
      blocks := Opened(blocks, i);
    }

    /** Merge with the next block if it is adjacent and free. */
    method MergeNext(b: nat, ghost i: nat)
      requires Listing() && i < |blocks| && blocks[i].at == b && blocks[i].free
      modifies `mem, `blocks, `count
      ensures Listing() && blocks == MergedNext(old(blocks), i) && i < |blocks| && blocks[i].at == b && blocks[i].free
    {
      hide Apart, Linked;
      LinkedIs(mem, head, blocks, i);
      PositiveAts(blocks);
      if i + 1 < |blocks| { LinkedIs(mem, head, blocks, i + 1); }
      var n := mem[b].next;
      if n != 0 && mem[n].free && n == b + HDR + mem[b].size {
        Join(b, n, i);
      }
    }

    /** Block `n`, free and right behind block `b`, becomes part of it. */
    method Join(b: nat, n: nat, ghost i: nat)
      requires Listing() && i + 1 < |blocks| && blocks[i].at == b && blocks[i + 1].at == n
        && Mergeable(blocks[i], blocks[i + 1])
      requires b in mem && n in mem
      modifies `mem, `blocks, `count
      ensures Listing() && blocks == Merged(old(blocks), i)
    {
      hide Apart, Linked;
      ApartAts(blocks);
      LinkedMerged(mem, head, blocks, i);
      MergedKeeps(blocks, i);
      mem := mem[b := mem[b].(size := mem[b].size + HDR + mem[n].size, next := mem[n].next)];
      blocks := Merged(blocks, i);
      count := count - 1;
    }

    /** Merge with the previous block, found by a bounded search from the head. */
    method MergePrev(b: nat, ghost i: nat)
      requires Listing() && i < |blocks| && blocks[i].at == b && blocks[i].free
      modifies `mem, `blocks, `count
      ensures Listing()
      ensures blocks == if 0 < i <= GUARD && Mergeable(old(blocks)[i - 1], old(blocks)[i]) then
        Merged(old(blocks), i - 1) else old(blocks)
    {
      hide Apart, Linked;
      ApartAts(blocks);
      PositiveAts(blocks);
      LinkedHead(mem, head, blocks);
      var p, guard := head, 0;
      while p != 0 && p != b
        invariant Listing() && blocks == old(blocks) && guard <= i && guard <= GUARD && p == blocks[guard].at
        invariant guard == i && i > 0 ==> !Mergeable(blocks[i - 1], blocks[i])
        decreases i - guard
      {
        LinkedIs(mem, head, blocks, guard);
        LinkedIs(mem, head, blocks, guard + 1);
        guard := guard + 1;
        if guard > GUARD {
          break;
        }
        if mem[p].next == b && mem[p].free && b == p + HDR + mem[p].size {
          Join(p, b, i - 1);
          break;
        }
        p := mem[p].next;
      }
    }
  }

  lemma LinkedHead(mem: map<nat, Header>, head: nat, bs: seq<Block>)
    requires Linked(mem, head, bs)
    ensures head == At(bs, 0)
  {
  }

  lemma FreedIs(bs: seq<Block>, i: nat)
    requires i < |bs|
    ensures var bs1 := MergedNext(Opened(bs, i), i);
      Freed(bs, i) == if 0 < i <= GUARD && Mergeable(bs1[i - 1], bs1[i]) then Merged(bs1, i - 1) else bs1
  {
  }

  lemma NoneAtZero(bs: seq<Block>)
    ensures forall b :: b in bs ==> b.at + HDR != 0
  {
  }

  /** A header that says free, or is none of ours, is not that of a used block. */
  lemma FreeAlready(mem: map<nat, Header>, head: nat, bs: seq<Block>, a: nat)
    requires Linked(mem, head, bs) && a in mem && (mem[a].magic != MAGIC || mem[a].free)
    ensures forall b :: b in bs && b.at == a ==> b.free
  {
    forall b | b in bs && b.at == a ensures b.free {
      var i :| 0 <= i < |bs| && bs[i] == b;
      assert LinkedAt(mem, bs, i);
    }
  }

  lemma Position(mem: map<nat, Header>, head: nat, bs: seq<Block>, a: nat) returns (i: nat)
    requires Linked(mem, head, bs) && a in mem && !mem[a].free
    ensures i < |bs| && bs[i].at == a && !bs[i].free
  {
    assert Listed(bs, a);
    i :| 0 <= i < |bs| && bs[i].at == a;
    assert LinkedAt(mem, bs, i);
  }

  lemma {:induction false} UsedAtLeast(bs: seq<Block>, i: nat)
    requires i < |bs| && !bs[i].free
    ensures bs[i].size <= UsedBytes(bs)
  {
    if i > 0 { UsedAtLeast(bs[1..], i - 1); }
  }

  /** The new region is the first fit, and the rounded request fits it. */
  lemma NewFits(bs: seq<Block>, r: Block, size: nat)
    requires NoWrap(size) && FirstFit(bs, Bytes(size)) == |bs| && r.free
      && r.size >= RegionFrames(Bytes(size)) * 4096 - HDR
    ensures Bytes(Bytes(size)) == Bytes(size) && FirstFit(bs + [r], Bytes(size)) == |bs| && r.size >= Bytes(size)
  {
    hide Bytes, RegionFrames, FirstFit, Align16;
    var want := Bytes(size);
    BytesIs(size);
    BytesIs(want);
    FramesIs(want);
    FitIs(bs + [r], want, |bs|);
  }

  lemma BytesIs(size: nat)
    requires size + 15 < TWO64
    ensures Bytes(size) % 16 == 0 && size <= Bytes(size) <= size + 16 && Bytes(size) > 0
    ensures size % 16 == 0 && size > 0 ==> Bytes(size) == size
    ensures size > 0 ==> Bytes(size) <= size + 15
  {
  }

  lemma FramesIs(want: nat)
    requires HDR + want + 4095 < TWO64
    ensures HDR + want <= RegionFrames(want) * 4096
  {
  }

  predicate Fits(bs: seq<Block>, size: nat) { FirstFit(bs, Bytes(size)) < |bs| }

  lemma FitFacts(bs: seq<Block>, size: nat)
    ensures var i := FirstFit(bs, size);
      i < |bs| ==> bs[i].free && bs[i].size >= size && (Coalesced(bs) ==> CoalescedBut(bs, i))
  {
  }

  lemma EmptyOrNot(mem: map<nat, Header>, head: nat, bs: seq<Block>)
    requires Linked(mem, head, bs) && Apart(bs)
    ensures head == 0 <==> bs == []
  {
  }

  lemma PositiveAts(bs: seq<Block>)
    requires Apart(bs)
    ensures forall i :: 0 <= i < |bs| ==> bs[i].at > 0
  {
  }

  lemma NoRunAtZero(bits: seq<bool>, n: nat)
    requires |bits| > 0 && bits[0]
    ensures !RunAt(bits, 0, n)
  {
  }

  /** Clear frames hold no block. */
  lemma RegionApart(bits: seq<bool>, bs: seq<Block>, base: nat, n: nat)
    requires Backed(bits, bs) && RunAt(bits, base, n)
    ensures forall x: nat :: Holds(Block(base * 4096, n * 4096 - HDR, true), x) ==> !Covered(bs, x)
  {
    forall x: nat | base * 4096 <= x < (base + n) * 4096 ensures !Covered(bs, x) {
      assert !bits[x / 4096];
    }
  }

  lemma RegionIs(base: nat, payload: nat)
    requires base > 0 && RegionFrames(payload) > 0
    ensures var n := RegionFrames(payload);
      && Region(base * 4096, payload) == Block(base * 4096, n * 4096 - HDR, true)
      && base * 4096 > 0 && base * 4096 % 4096 == 0 && base * 4096 % 16 == 0 && (n * 4096 - HDR) % 16 == 0
  {
    var n := RegionFrames(payload);
    hide RegionFrames;
    assert base * 4096 == 16 * (256 * base) && n * 4096 - HDR == 16 * (256 * n - 2);
  }

  lemma BackedMore(bits: seq<bool>, bits': seq<bool>, bs: seq<Block>, base: nat, n: nat)
    requires |bits| > 0 && bits[0] && Backed(bits, bs) && RunAt(bits, base, n)
      && bits' == Marked(bits, base, base + n, true)
    ensures Backed(bits', bs + [Block(base * 4096, n * 4096 - HDR, true)]) && bits'[0]
  {
    var b := Block(base * 4096, n * 4096 - HDR, true);
    GrownCovers(bs, b);
    forall x: nat | Covered(bs + [b], x) ensures x / 4096 < |bits'| && bits'[x / 4096] {
      assert Holds(b, x) ==> base <= x / 4096 < base + n;
    }
  }

  function RegionFrames(payload: nat): nat { ((HDR + payload) % TWO64 + 4095) % TWO64 / 4096 }

  /** The block that `region_alloc` makes at `b`. */
  function Region(b: nat, payload: nat): Block {
    Block(b, if RegionFrames(payload) == 0 then 0 else RegionFrames(payload) * 4096 - HDR, true)
  }

  lemma FitIs(bs: seq<Block>, size: nat, i: nat)
    requires i <= |bs| && (forall j :: 0 <= j < i ==> !(bs[j].free && bs[j].size >= size))
    requires i < |bs| ==> bs[i].free && bs[i].size >= size
    ensures FirstFit(bs, size) == i
  {
  }

  lemma TakenShape(bs: seq<Block>, i: nat, size: nat)
    requires i < |bs| && size <= bs[i].size
    ensures var r, split := Taken(bs, i, size), bs[i].size - size >= HDR + 16;
      |r| == |bs| + (if split then 1 else 0) && r[i].size == if split then size else bs[i].size
    ensures bs[i].size - size < HDR + 16 ==> Taken(bs, i, size) == bs[i := bs[i].(free := false)]
  {
  }

  lemma BackedStill(bits: seq<bool>, bs: seq<Block>, r: seq<Block>)
    requires Backed(bits, bs) && Within(r, bs)
    ensures Backed(bits, r)
  {
  }

  lemma LinkedIs(mem: map<nat, Header>, head: nat, bs: seq<Block>, i: nat)
    requires Linked(mem, head, bs) && i < |bs|
    ensures LinkedAt(mem, bs, i)
  {
  }
}
