/** The physical frame allocator: a bitmap with one bit per 4 KiB frame and a
    count of the clear ones. Frames are named by number (address / 4096). */
module Frames {

  function Clear(bits: seq<bool>): (n: nat)
    ensures n <= |bits|
  {
    if bits == [] then 0 else Clear(bits[..|bits| - 1]) + (if bits[|bits| - 1] then 0 else 1)
  }

  /** `bits` with the frames [from, to) marked. */
  function Marked(bits: seq<bool>, from: int, to: int, v: bool): (r: seq<bool>)
    ensures |r| == |bits|
    ensures forall i {:trigger r[i]} :: 0 <= i < |bits| ==> r[i] == if from <= i < to then v else bits[i]
  {
    seq(|bits|, i requires 0 <= i < |bits| => if from <= i < to then v else bits[i])
  }

  /** All clear frames lie above all taken ones, as when none was ever freed. */
  ghost predicate Packed(bits: seq<bool>) {
    forall i, j :: 0 <= i < j < |bits| && bits[j] ==> bits[i]
  }

  /** `count` clear frames, at least one, start at `b`. */
  predicate RunAt(bits: seq<bool>, b: int, count: nat) {
    0 <= b && 0 < count && b + count <= |bits| && forall i :: b <= i < b + count ==> !bits[i]
  }

  lemma {:induction false} ClearUpdate(bits: seq<bool>, f: nat, v: bool)
    requires f < |bits|
    ensures Clear(bits[f := v]) == Clear(bits) + (if bits[f] then 1 else 0) - (if v then 1 else 0)
    decreases |bits|
  {
    var k := |bits| - 1;
    if f == k {
      assert bits[f := v][..k] == bits[..k];
    } else {
      assert bits[f := v][..k] == bits[..k][f := v];
      ClearUpdate(bits[..k], f, v);
    }
  }

  lemma {:induction false} ClearAll(bits: seq<bool>)
    requires forall i :: 0 <= i < |bits| ==> !bits[i]
    ensures Clear(bits) == |bits|
  {
    if bits != [] {
      ClearAll(bits[..|bits| - 1]);
    }
  }

  lemma {:induction false} NoneClear(bits: seq<bool>)
    ensures Clear(bits) == 0 <==> forall i :: 0 <= i < |bits| ==> bits[i]
  {
    if bits != [] {
      NoneClear(bits[..|bits| - 1]);
      assert forall i :: 0 <= i < |bits| - 1 ==> bits[i] == bits[..|bits| - 1][i];
    }
  }

  class FramePool {
    const bitmap: array<bool>
    var free: nat

    predicate Valid()
      reads this, bitmap
    {
      free == Clear(bitmap[..])
    }

    /** An empty pool of `total` frames, before anything is reserved. */
    constructor (total: nat)
      ensures Valid() && fresh(bitmap) && bitmap.Length == total && free == total
      ensures forall i :: 0 <= i < total ==> !bitmap[i]
    {
      bitmap := new bool[total](_ => false);
      free := total;
      new;
      ClearAll(bitmap[..]);
    }

    method Mark(f: nat)
      requires Valid() && f < bitmap.Length && !bitmap[f]
      modifies this, bitmap
      ensures Valid() && bitmap[..] == old(bitmap[..])[f := true] && free == old(free) - 1
    {
      ClearUpdate(bitmap[..], f, true);
      assert bitmap[..][f := true][f := false] == bitmap[..];
      bitmap[f] := true;
      free := free - 1;
    }

    /** Every frame that the byte range touches is taken from then on. */
    method Reserve(addr: nat, len: nat)
      requires Valid()
      modifies this, bitmap
      ensures Valid()
      ensures bitmap[..] == Marked(old(bitmap[..]), addr / 4096, (addr + len + 4095) / 4096, true)
    {
      var first, last := addr / 4096, (addr + len + 4095) / 4096;
      if last > bitmap.Length {
        last := bitmap.Length;
      }
      var i := first;
      while i < last
        invariant first <= i && (i <= last || i == first)
        invariant Valid()
        invariant bitmap[..] == Marked(old(bitmap[..]), first, i, true)
      {
        if !bitmap[i] {
          Mark(i);
        }
        i := i + 1;
      }
    }

    /** First fit. 0 means that no frame is clear, as long as frame 0 is taken. */
    method Alloc() returns (f: nat)
      requires Valid()
      modifies this, bitmap
      ensures Valid()
      ensures old(free) == 0 <==> forall i :: 0 <= i < bitmap.Length ==> old(bitmap[i])
      ensures old(free) == 0 ==> f == 0 && bitmap[..] == old(bitmap[..]) && free == 0
      ensures old(free) > 0 ==>
        && f < bitmap.Length && !old(bitmap[f]) && (forall i :: 0 <= i < f ==> old(bitmap[i]))
        && bitmap[..] == old(bitmap[..])[f := true] && free == old(free) - 1
      ensures Packed(old(bitmap[..])) ==> Packed(bitmap[..])
    {
      NoneClear(bitmap[..]);
      var i := 0;
      while i < bitmap.Length
        invariant i <= bitmap.Length
        invariant forall j :: 0 <= j < i ==> bitmap[j]
      {
        if !bitmap[i] {
          assert !bitmap[..][i];
          Mark(i);
          return i;
        }
        i := i + 1;
      }
      assert forall j :: 0 <= j < |bitmap[..]| ==> bitmap[..][j];
      return 0;
    }

    /** The lowest run of `count` clear frames; 0 when there is none, or when
        none is asked for. */
    method AllocRun(count: nat) returns (base: nat)
      requires Valid()
      modifies this, bitmap
      ensures Valid()
      ensures (exists b :: RunAt(old(bitmap[..]), b, count)) ==>
        && RunAt(old(bitmap[..]), base, count) && (forall b :: RunAt(old(bitmap[..]), b, count) ==> base <= b)
        && bitmap[..] == Marked(old(bitmap[..]), base, base + count, true) && free == old(free) - count
      ensures !(exists b :: RunAt(old(bitmap[..]), b, count)) ==>
        base == 0 && bitmap[..] == old(bitmap[..]) && free == old(free)
    {
      ghost var was := bitmap[..];
      var need, i := 0, 0;
      while i < bitmap.Length
        invariant need <= i <= bitmap.Length && (count > 0 ==> need < count)
        invariant was == bitmap[..] && forall j :: i - need <= j < i ==> !was[j]
        invariant i > need ==> was[i - need - 1]
        invariant forall b :: RunAt(was, b, count) ==> i - need <= b
      {
        if bitmap[i] {
          need := 0;
        } else {
          need := need + 1;
          if need == count {
            base := i - need + 1;
            assert RunAt(was, base, count);
            TakeRun(base, count);
            return;
          }
        }
        i := i + 1;
      }
      base := 0;
    }

    method TakeRun(base: nat, count: nat)
      requires Valid() && RunAt(bitmap[..], base, count)
      modifies this, bitmap
      ensures Valid()
      ensures bitmap[..] == Marked(old(bitmap[..]), base, base + count, true) && free == old(free) - count
    {
      var j := 0;
      while j < count
        invariant j <= count && Valid()
        invariant bitmap[..] == Marked(old(bitmap[..]), base, base + j, true) && free == old(free) - j
      {
        assert !old(bitmap[..])[base + j] && !bitmap[..][base + j];
        Mark(base + j);
        j := j + 1;
      }
    }

    /** Freeing a frame that is clear, or beyond the end, changes nothing. */
    method Free(f: nat)
      requires Valid()
      modifies this, bitmap
      ensures Valid()
      ensures bitmap[..] == Marked(old(bitmap[..]), f, f + 1, false)
      ensures free == old(free) + (if f < bitmap.Length && old(bitmap[f]) then 1 else 0)
    {
      if f < bitmap.Length && bitmap[f] {
        ClearUpdate(bitmap[..], f, false);
        bitmap[f] := false;
        assert bitmap[..] == old(bitmap[..])[f := false];
        free := free + 1;
      }
    }

    method FreeRun(base: nat, count: nat)
      requires Valid()
      modifies this, bitmap
      ensures Valid()
      ensures bitmap[..] == Marked(old(bitmap[..]), base, base + count, false)
    {
      var j := 0;
      while j < count
        invariant j <= count && Valid()
        invariant bitmap[..] == Marked(old(bitmap[..]), base, base + j, false)
      {
        Free(base + j);
        j := j + 1;
      }
    }
  }
}
