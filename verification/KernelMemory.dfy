/** The memory side of the kernel: swap, demand-paged model pages, user heaps,
    and the coming and going of address spaces. */
module KernelMemory {
  import opened Wrappers
  import opened Frames
  import opened PageTables
  import opened Paging
  import opened Tasks
  import opened Steps
  import opened Swapping
  import opened Residency
  import opened Lifecycle
  import opened Scripts
  import W = Word

  const MAX_BUDGET := 65536
  const TWO64 := 0x1_0000_0000_0000_0000

  /** The charge of every task: four KiB a resident page, and what it committed. */
  ghost predicate LedgerOk(tasks: seq<Task>, commits: seq<int>) {
    && |commits| == |tasks|
    && forall t {:trigger commits[t]} :: 0 <= t < |tasks| && (t == 0 || tasks[t].root != 0) ==>
         && commits[t] >= 0 && tasks[t].weightsKb == 4 * Residents(tasks[t].resident) + commits[t]
  }

  ghost predicate BudgetsOk(tasks: seq<Task>) {
    forall t :: 0 <= t < |tasks| ==> tasks[t].weightsKb <= MAX_BUDGET && tasks[t].budgetKb <= MAX_BUDGET
  }

  predicate HasClear(bits: seq<bool>) { exists x :: 0 <= x < |bits| && !bits[x] }

  /** Only the swap list of task `t` may differ. */
  predicate KeepsRest(tasks: seq<Task>, tasks': seq<Task>, t: nat) {
    && |tasks'| == |tasks|
    && forall u ::
       0 <= u < |tasks| ==> tasks'[u] == if u == t then tasks[u].(swapMap := tasks'[u].swapMap) else tasks[u]
  }

  class Kernel {
    const spaces: AddressSpaces
    const slots: array<bool>    // one bit per page of the swap region
    const disk: array<Page>     // the pages of the swap region
    var tasks: seq<Task>
    var active: bool
    var win: nat
    var blob: seq<Page>         // the canonical weights
    ghost var owner: map<nat, (nat, nat)>
    ghost var making: nat
    ghost var commits: seq<int>

    ghost function Hardware(): set<object> {
      {spaces, spaces.pool, spaces.pool.bitmap, spaces.ram, slots, disk}
    }

    ghost function Repr(): set<object> { {this} + Hardware() }

    ghost function Now(): State
      reads Repr()
    {
      State(spaces.pool.bitmap[..], spaces.ram[..], spaces.tree, slots[..], disk[..], tasks, owner, active, win, making)
    }

    ghost predicate Valid()
      reads Repr()
    {
      && slots != spaces.pool.bitmap && disk != spaces.ram
      && spaces.Valid() && StateOk(Now()) && |tasks| > 0 && tasks[0].root == 0
      && LedgerOk(tasks, commits) && BudgetsOk(tasks) && win <= |blob|
    }

    /** Frames that are lost for good: taken for no address space, nor for a
        resident page whose mapping was dropped. */
    ghost function Leaked(): int
      reads Repr()
    {
      spaces.Unowned() - |Strays(Now())|
    }

    /** Boot: every slot free, no task but the REPL, nothing resident. */
    constructor (spaces: AddressSpaces, pages: nat, count: nat, win: nat, blob: seq<Page>)
      requires spaces.Valid() && spaces.tree == map[] && count > 0 && 1 <= win <= MODEL_MAX && win <= |blob|
      ensures Valid() && this.spaces == spaces && slots.Length == pages && fresh(slots) && fresh(disk)
      ensures tasks == seq(count, _ => Idle()) && active && making == 0 && this.win == win && this.blob == blob
      ensures forall x :: 0 <= x < pages ==> !slots[x]
    {
      this.spaces, this.win, this.blob := spaces, win, blob;
      slots := new bool[pages](_ => false);
      disk := new Page[pages](_ => ZeroPage());
      tasks := seq(count, _ => Idle());
      active := true;
      owner, making, commits := map[], 0, seq(count, _ => 0);
      new;
      BootOk(Now(), commits);
    }

    // ---- swap ----

    /** `ent_find`, as an index. */
    method EntFind(t: nat, v: nat) returns (i: nat)
      requires Valid() && t < |tasks|
      ensures Valid() && i == Find(tasks[t].swapMap, v)
    {
      hide Valid;
      i := 0;
      while i < |tasks[t].swapMap|
        invariant i <= |tasks[t].swapMap|
        invariant forall j :: 0 <= j < i ==> tasks[t].swapMap[j].key != v
      {
        if tasks[t].swapMap[i].key == v {
          break;
        }
        i := i + 1;
      }
      FirstIs(tasks[t].swapMap, v, i);
    }

    /** The lowest clear slot, marked; the number of slots if all are taken. */
    method SlotAlloc() returns (x: nat)
      modifies slots
      ensures x <= slots.Length && (x < slots.Length <==> HasClear(old(slots[..])))
      ensures x == slots.Length ==> slots[..] == old(slots[..])
      ensures x < slots.Length ==>
        !old(slots[x]) && (forall y :: 0 <= y < x ==> old(slots[y])) && slots[..] == old(slots[..])[x := true]
    {
      x := 0;
      while x < slots.Length
        invariant x <= slots.Length && slots[..] == old(slots[..])
        invariant forall y :: 0 <= y < x ==> slots[y]
      {
        if !slots[x] {
          assert !slots[..][x];
          slots[x] := true;
          assert slots[..] == old(slots[..])[x := true];
          return;
        }
        x := x + 1;
      }
    }

    /** `swap_out`, with the outcome `io` of the disk write. It succeeds exactly
        for a mapped page of a live task with room in its list and on disk. Of an
        ordinary page no task can tell afterwards; a page of the model window
        would dangle, and nothing stops the system call from asking for that. */
    method SwapOut(t: nat, v: nat, io: bool) returns (ok: bool)
      requires Valid() && t < |tasks| && (Ordinary(v) || InWindow(v))
      modifies `tasks, `owner, Hardware()
      ensures KeepsRest(old(tasks), tasks, t)
      ensures ok == (active && tasks[t].root != 0 && Leaf(tasks[t].root, v) in old(spaces.tree)
                     && |old(tasks[t]).swapMap| < SWAP_MAX_PER_TASK && io && HasClear(old(slots[..])))
      ensures Ordinary(v) || !ok ==> Valid() && SameViews(old(Now()), Now()) && Leaked() == old(Leaked())
      ensures ok && InWindow(v) ==> !StateOk(Now()) && Dangles(Now(), t, v - MODEL)
      ensures ok ==> exists x :: MovedOut(old(Now()), Now(), t, v, x)
      ensures ok ==> spaces.pool.free == old(spaces.pool.free) + 1 && spaces.Unowned() == old(spaces.Unowned())
      ensures !ok ==> Now() == old(Now()) && spaces.pool.free == old(spaces.pool.free)
    {
      hide KernelShared, PathOf, FrameOf, TreeOk, Taken, RootsOk, OwnersOk, StraysOk, View, Find, TaskOk, Leaf,
        MovedOut, Strays, Dangles, StateOk;
      ghost var s := Now();
      var k := tasks[t];
      TaskFacts(s, t, v);
      ViewsSame(s);
      if !active || k.root == 0 {
        return false;
      }
      var i := EntFind(t, v);
      if i < |k.swapMap| || |k.swapMap| >= SWAP_MAX_PER_TASK {
        return false;
      }
      var f := spaces.Translate(k.root, v);
      if f == 0 {
        return false;
      }
      var x := SlotAlloc();
      if x == slots.Length {
        return false;
      }
      if !io {
        slots[x] := false;
        assert slots[..] == s.slots;
        return false;
      }
      MoveOut(t, v, f, x, s);
      ok := true;
    }

    /** The second half of `swap_out`: slot `x` has been marked. */
    method MoveOut(t: nat, v: nat, f: nat, x: nat, ghost s: State)
      requires slots != spaces.pool.bitmap && disk != spaces.ram && spaces.Valid()
      requires x < |s.slots| && !s.slots[x] && s.(slots := s.slots[x := true]) == Now()
      requires StateOk(s) && t < |tasks| && tasks[t].root != 0 && (Ordinary(v) || InWindow(v)) && active
        && LedgerOk(tasks, commits) && BudgetsOk(tasks)
      requires !HasKey(tasks[t].swapMap, v) && |tasks[t].swapMap| < SWAP_MAX_PER_TASK
      requires Leaf(tasks[t].root, v) in spaces.tree && f == FrameOf(spaces.tree[Leaf(tasks[t].root, v)])
      requires tasks[0].root == 0 && win <= |blob|
      modifies `tasks, `owner, Hardware()
      ensures MovedOut(s, Now(), t, v, x) && KeepsRest(old(tasks), tasks, t)
      ensures spaces.pool.free == old(spaces.pool.free) + 1 && spaces.Unowned() == old(spaces.Unowned())
      ensures Ordinary(v) ==> Valid() && SameViews(s, Now())
      ensures InWindow(v) ==> !StateOk(Now()) && Dangles(Now(), t, v - MODEL)
    {
      hide KernelShared, PathOf, FrameOf, TreeOk, RootsOk, OwnersOk, StraysOk, View, Find, TaskOk, Leaf, Taken,
        SameViews, Dangles, Untouched;
      TaskFacts(s, t, v);
      LeafFrame(s, Leaf(tasks[t].root, v));
      disk[x] := spaces.ram[f];
      spaces.Unmap(tasks[t].root, v);
      CutTaken(s, Leaf(tasks[t].root, v));
      spaces.pool.Free(f);
      tasks := tasks[t := tasks[t].(swapMap := tasks[t].swapMap + [SwapEnt(v, x)])];
      owner := owner[x := (t, v)];
      SwapOutExact(s, Now(), t, v, x);
    }

    /** `swap_in`, with the outcome `io` of the disk read. It succeeds exactly
        for a swapped-out page while a frame is free: no table is ever needed. */
    method SwapIn(t: nat, v: nat, io: bool) returns (ok: bool)
      requires Valid() && t < |tasks|
      modifies `tasks, `owner, Hardware()
      ensures Valid() && SameViews(old(Now()), Now()) && KeepsRest(old(tasks), tasks, t)
      ensures ok == (active && old(HasKey(tasks[t].swapMap, v)) && old(spaces.pool.free) > 0 && io)
      ensures ok ==> Leaf(tasks[t].root, v) in spaces.tree && exists f :: SwappedIn(old(Now()), Now(), t, v, f)
      ensures ok ==> spaces.pool.free == old(spaces.pool.free) - 1 && spaces.Unowned() == old(spaces.Unowned())
      ensures LeavesStay(old(spaces.tree), spaces.tree)
      ensures !ok ==> Now() == old(Now()) && spaces.pool.free == old(spaces.pool.free)
    {
      hide KernelShared, PathOf, FrameOf, TreeOk, Taken, RootsOk, OwnersOk, StraysOk, View, Find, TaskOk, Leaf,
        SwappedIn;
      ghost var s := Now();
      var k := tasks[t];
      ViewsSame(s);
      TaskIdle(s, t);
      if !active || k.root == 0 {
        return false;
      }
      var i := EntFind(t, v);
      if i == |k.swapMap| {
        return false;
      }
      var f := spaces.pool.Alloc();
      if f == 0 {
        assert spaces.pool.bitmap[..] == s.bits;
        return false;
      }
      if !io {
        spaces.pool.Free(f);
        assert spaces.pool.bitmap[..] == s.bits;
        return false;
      }
      TakenMore(s.bits, spaces.tree, f);
      MoveIn(t, v, i, f, s);
      ok := true;
    }

    /** The second half of `swap_in`: frame `f` has been taken and read into. */
    method MoveIn(t: nat, v: nat, i: nat, f: nat, ghost s: State)
      requires slots != spaces.pool.bitmap && disk != spaces.ram && spaces.Valid()
      requires 0 < f < |s.bits| && !s.bits[f] && s.(bits := s.bits[f := true]) == Now()
      requires StateOk(s) && t < |tasks| && tasks[t].root != 0 && LedgerOk(tasks, commits) && BudgetsOk(tasks)
      requires HasKey(tasks[t].swapMap, v) && i == Find(tasks[t].swapMap, v)
      requires tasks[0].root == 0 && win <= |blob|
      modifies `tasks, `owner, Hardware()
      ensures Valid() && SwappedIn(s, Now(), t, v, f) && KeepsRest(old(tasks), tasks, t)
        && Leaf(tasks[t].root, v) in spaces.tree
      ensures spaces.pool.free == old(spaces.pool.free) && spaces.Unowned() == old(spaces.Unowned()) - 1
      ensures SameViews(s, Now()) && LeavesStay(s.tree, spaces.tree)
    {
      hide KernelShared, PathOf, FrameOf, TreeOk, RootsOk, OwnersOk, StraysOk, View, Find, TaskOk, Leaf, Missing,
        OneLeaf, Placed,
        Removed, Taken, SameViews, LeavesStay;
      NoneMissing(s, t, v);
      TaskFacts(s, t, v);
      EntOnDisk(s, t, v);
      var e := tasks[t].swapMap[i];
      ghost var ok := spaces.MapFilled(tasks[t].root, v, f, disk[e.slot], 6, s.bits);
      slots[e.slot] := false;
      assert slots[..] == s.slots[e.slot := false];
      tasks := tasks[t := tasks[t].(swapMap := Removed(tasks[t].swapMap, i))];
      owner := owner - {e.slot};
      SwapInKeeps(s, Now(), t, v, f);
      BackInPlace(s, Now(), t, v, f);
    }

    lemma ValidState()
      requires Valid()
      ensures StateOk(Now()) && 1 <= win <= MODEL_MAX && win <= |blob| && LedgerOk(tasks, commits) && BudgetsOk(tasks)
    {
    }

    /** `swap_prefetch`, given the predicted page (0: no prediction). */
    method Prefetch(t: nat, p: nat, io: bool)
      requires Valid() && t < |tasks|
      modifies `tasks, `owner, Hardware()
      ensures Valid() && SameViews(old(Now()), Now()) && KeepsRest(old(tasks), tasks, t)
      ensures spaces.Unowned() == old(spaces.Unowned()) && spaces.pool.free >= old(spaces.pool.free) - 1
      ensures LeavesStay(old(spaces.tree), spaces.tree)
    {
      hide Valid, StateOk, SameViews, LedgerOk, BudgetsOk, Leaf, HasKey, SwappedOut, Find;
      ViewsSame(Now());
      if !active || tasks[t].root == 0 || p == 0 || p < IMAGE || p >= REGION_END {
        return;
      }
      var i := EntFind(t, p);
      if i == |tasks[t].swapMap| {
        return;
      }
      var ok := SwapIn(t, p, io);
    }

    /** One loop of `reclaim_task`: evict `count` pages from `base` on, until
        more than `low` frames are free. */
    method ReclaimRange(t: nat, base: nat, count: nat, low: nat, io: nat -> bool) returns (done: bool)
      requires Valid() && t < |tasks| && forall i :: base <= i < base + count ==> Ordinary(i)
      modifies `tasks, `owner, Hardware()
      ensures Valid() && SameViews(old(Now()), Now()) && KeepsRest(old(tasks), tasks, t)
      ensures spaces.Unowned() == old(spaces.Unowned()) && spaces.pool.free >= old(spaces.pool.free)
      ensures |tasks[t].swapMap| - |old(tasks[t]).swapMap| == spaces.pool.free - old(spaces.pool.free)
      ensures done ==> spaces.pool.free > low
    {
      hide Valid, StateOk, SameViews, LedgerOk, BudgetsOk, Leaf, HasKey, MovedOut, Dangles, Find, Strays;
      ViewsSame(Now());
      ghost var s := Now();
      var i := 0;
      while i < count
        invariant i <= count && Valid() && SameViews(s, Now()) && KeepsRest(s.tasks, tasks, t)
        invariant spaces.Unowned() == old(spaces.Unowned()) && spaces.pool.free >= old(spaces.pool.free)
        invariant |tasks[t].swapMap| - |s.tasks[t].swapMap| == spaces.pool.free - old(spaces.pool.free)
      {
        ghost var s1 := Now();
        var ok := SwapOut(t, base + i, io(base + i));
        ViewsChain(s, s1, Now());
        if ok {
          ListGrew(s1, Now(), t, base + i);
          if spaces.pool.free > low {
            return true;
          }
        }
        i := i + 1;
      }
      done := false;
    }

    /** `reclaim_task`: script, stack and heap, in this order. */
    method ReclaimTask(t: nat, io: nat -> bool)
      requires Valid() && t < |tasks|
      modifies `tasks, `owner, Hardware()
      ensures Valid() && SameViews(old(Now()), Now()) && KeepsRest(old(tasks), tasks, t)
      ensures spaces.Unowned() == old(spaces.Unowned()) && spaces.pool.free >= old(spaces.pool.free)
      ensures |tasks[t].swapMap| - |old(tasks[t]).swapMap| == spaces.pool.free - old(spaces.pool.free)
    {
      hide Valid, StateOk, SameViews, LedgerOk, BudgetsOk, Leaf, HasKey, SwappedOut, Find;
      ghost var s := Now();
      ViewsSame(s);
      ValidState();
      HeapBound(s, t);
      var low := spaces.pool.bitmap.Length / 25;
      if spaces.pool.free > low || tasks[t].root == 0 {
        return;
      }
      var done := ReclaimRange(t, SCRIPT, 8, low, io);
      if done {
        return;
      }
      ghost var s1 := Now();
      done := ReclaimRange(t, STACK, 16, low, io);
      ViewsChain(s, s1, Now());
      if done {
        return;
      }
      ghost var s2 := Now();
      done := ReclaimRange(t, HEAP, tasks[t].heapPages, low, io);
      ViewsChain(s, s2, Now());
    }

    /** `swap_reclaim`: every live task in turn. */
    method Reclaim(io: (nat, nat) -> bool)
      requires Valid()
      modifies `tasks, `owner, Hardware()
      ensures Valid() && SameViews(old(Now()), Now()) && |tasks| == |old(tasks)|
      ensures forall u :: 0 <= u < |tasks| ==> tasks[u] == old(tasks)[u].(swapMap := tasks[u].swapMap)
      ensures spaces.Unowned() == old(spaces.Unowned()) && spaces.pool.free >= old(spaces.pool.free)
      ensures Leaked() == old(Leaked())
    {
      hide Valid, StateOk, SameViews, LedgerOk, BudgetsOk, Leaf, HasKey, SwappedOut, Find, Strays;
      ghost var s := Now();
      ViewsSame(s);
      if !active || spaces.pool.free > spaces.pool.bitmap.Length / 25 {
        return;
      }
      var t := 0;
      while t < |tasks|
        invariant t <= |tasks| == |s.tasks| && Valid() && SameViews(s, Now())
        invariant forall u :: 0 <= u < |tasks| ==> tasks[u] == s.tasks[u].(swapMap := tasks[u].swapMap)
        invariant spaces.Unowned() == old(spaces.Unowned()) && spaces.pool.free >= old(spaces.pool.free)
      {
        ghost var s1 := Now();
        var me := t;
        ReclaimTask(me, (v: nat) => io(me, v));
        ViewsChain(s, s1, Now());
        t := t + 1;
      }
      ViewsApart(s, Now(), 0);
    }

    // ---- model pages ----

    /** `model_ensure_task` for the current window; `room` says whether the
        kernel heap can supply the arrays. */
    method EnsureTask(t: nat, room: bool) returns (ok: bool)
      requires Valid() && t < |tasks| && tasks[t].root != 0
      modifies `tasks
      ensures Valid() && SameViews(old(Now()), Now()) && Strays(Now()) == old(Strays(Now()))
      ensures ok == (win <= |old(tasks[t]).frames| || room)
      ensures ok ==> win <= |tasks[t].frames| == |tasks[t].resident|
      ensures Residents(tasks[t].resident) == old(Residents(tasks[t].resident))
      ensures forall p :: 0 <= p < win ==> IsResident(tasks[t], p) == IsResident(old(tasks[t]), p)
      ensures tasks == old(tasks)[t := old(tasks[t]).(frames := tasks[t].frames, resident := tasks[t].resident)]
    {
      hide PathOf, FrameOf, TreeOk, Taken, RootsOk, OwnersOk, StraysOk, View, Find, TaskOk, Leaf, Residents;
      ghost var s := Now();
      ViewsSame(s);
      ModelFacts(s, t);
      if win <= |tasks[t].frames| {
        return true;
      }
      if !room {
        return false;
      }
      EnsuredTask(s, t, tasks[t].(frames := seq(win, _ => 0), resident := seq(win, _ => false)));
      tasks := tasks[t := tasks[t].(frames := seq(win, _ => 0), resident := seq(win, _ => false))];
      Refreshed(s, Now(), t, tasks[t]);
      ok := true;
    }

    /** Page `p` of the canonical weights. */
    function Weights(p: int): Page
      reads this
    {
      if 0 <= p < |blob| then blob[p] else ZeroPage()
    }

    /** `model_fault_in_page`: copy page `p` of the weights into a fresh frame and
        map it read-only. Its mapping is dropped if and only if frames run out
        on the way; it counts as resident all the same. */
    method FaultInPage(t: nat, p: nat) returns (ok: bool, ghost lost: bool)
      requires Valid() && t < |tasks| && tasks[t].root != 0 && p < win <= |tasks[t].frames| && !IsResident(tasks[t], p)
      requires tasks[t].weightsKb + 4 <= tasks[t].budgetKb
      modifies `tasks, Hardware()
      ensures Valid() && ok == (old(spaces.pool.free) > 0) && lost == !old(NotDropped(t, MODEL + p))
      ensures Strays(Now()) == {} <==> old(Strays(Now()) == {} && NotDropped(t, MODEL + p))
      ensures Leaked() == old(Leaked())
      ensures ok ==> Arrived(old(Now()), Now(), t, MODEL + p, lost, Weights(p)) && Charged(old(tasks), tasks, t, p)
      ensures !ok ==> Now() == old(Now())
      ensures spaces.pool.free <= old(spaces.pool.free) <= spaces.pool.free + 4 && unchanged(slots)
    {
      hide KernelShared, PathOf, FrameOf, TreeOk, RootsOk, OwnersOk, StraysOk, View, Find, TaskOk, Leaf, Missing,
        OneLeaf, Placed,
        Clear, Taken, Arrived,
        Charged, Strays;
      ghost var s := Now();
      TaskIdle(s, t);
      var f := spaces.pool.Alloc();
      if f == 0 {
        assert spaces.pool.bitmap[..] == s.bits;
        return false, false;
      }
      TakenMore(s.bits, spaces.tree, f);
      lost := MoveModelIn(t, p, f, s);
      ArrivedStrays(s, Now(), t, MODEL + p, lost, Weights(p));
      ok := true;
    }

    method MoveModelIn(t: nat, p: nat, f: nat, ghost s: State) returns (ghost lost: bool)
      requires slots != spaces.pool.bitmap && disk != spaces.ram && spaces.Valid()
      requires 0 < f < |s.bits| && !s.bits[f] && s.(bits := s.bits[f := true]) == Now()
      requires StateOk(s) && t < |tasks| && tasks[t].root != 0 && LedgerOk(tasks, commits) && BudgetsOk(tasks)
      requires p < win <= |tasks[t].frames| && win <= |blob| && !IsResident(tasks[t], p) && tasks[0].root == 0
      requires tasks[t].weightsKb + 4 <= tasks[t].budgetKb
      modifies `tasks, Hardware()
      ensures Valid() && spaces.Unowned() == old(spaces.Unowned()) - if lost then 0 else 1
      ensures lost == (old(spaces.pool.free) < Missing(s.tree, s.tasks[t].root, MODEL + p))
      ensures spaces.pool.free <= old(spaces.pool.free) <= spaces.pool.free + 3
      ensures Charged(s.tasks, tasks, t, p) && Arrived(s, Now(), t, MODEL + p, lost, Weights(p)) && unchanged(slots)
    {
      hide KernelShared, PathOf, FrameOf, TreeOk, RootsOk, OwnersOk, StraysOk, View, Find, TaskOk, Leaf, Missing,
        OneLeaf, Placed,
        Clear, Taken, Strays;
      ghost var was, k := tasks, tasks[t];
      TaskFacts(s, t, MODEL + p);
      ModelFacts(s, t);
      AbsentPage(s, t, p);
      ghost var mapped := spaces.MapFilled(tasks[t].root, MODEL + p, f, Weights(p), 4, s.bits);
      lost := !mapped;
      tasks := tasks[t := tasks[t].(frames := tasks[t].frames[p := f], resident := tasks[t].resident[p := true],
                                    weightsKb := tasks[t].weightsKb + 4)];
      FaultTask(s, Now(), t, p, f, Weights(p), k.faults, mapped);
      FaultStrays(s, Now(), t, p, f, Weights(p), k.faults, mapped);
      RemappedKeeps(s, Now(), t, MODEL + p);
      RemappedOthersKept(s, Now(), t, MODEL + p);
      OneMore(k.resident, p);
      LedgerCharged(was, tasks, commits, t);
    }

    /** No frame is free, or enough for every table on the way to page `v`. */
    ghost predicate NotDropped(t: nat, v: nat)
      requires t < |tasks|
      reads this, spaces, spaces.pool
    {
      spaces.pool.free == 0 || spaces.pool.free > Missing(spaces.tree, tasks[t].root, v)
    }

    /** Can page `v` be faulted in as a model page, all checks considered? */
    ghost predicate Faultable(t: nat, v: nat, present: bool, room: bool)
      requires t < |tasks|
      reads this, spaces, spaces.pool
    {
      && MODEL <= v < MODEL + win && !present && (win <= |tasks[t].frames| || room)
      && (IsResident(tasks[t], v - MODEL) || (tasks[t].weightsKb + 4 <= tasks[t].budgetKb && spaces.pool.free > 0))
    }

    /** `model_demand_fault`; `present` is the low bit of the error code. A page
        that is not resident yet (`isNew`) appears with its copy of the weights,
        charged within the budget, or is `lost` if its mapping was dropped;
        nothing else changes for anyone. */
    method DemandFault(t: nat, v: nat, present: bool, room: bool)
        returns (ok: bool, ghost isNew: bool, ghost lost: bool)
      requires Valid() && t < |tasks| && tasks[t].root != 0
      modifies `tasks, Hardware()
      ensures FaultResult(old(Now()), Now(), t, v, isNew, lost, Weights(v - MODEL))
      ensures Valid() && Leaked() == old(Leaked()) && ok == old(Faultable(t, v, present, room))
      ensures spaces.pool.free <= old(spaces.pool.free) <= spaces.pool.free + 4 && unchanged(slots)
      ensures isNew == (ok && !old(IsResident(tasks[t], v - MODEL))) && (ok ==> IsResident(tasks[t], v - MODEL))
      ensures lost == (isNew && !old(NotDropped(t, v))) && (!ok ==> spaces.tree == old(spaces.tree))
    {
      hide Valid, StateOk, LedgerOk, BudgetsOk, Leaf, View, SameViews, Residents, Arrived, Missing, Strays;
      ghost var s := Now();
      ViewsSame(s);
      ValidState();
      isNew, lost := false, false;
      if !(MODEL <= v < MODEL + win) || present {
        return false, false, false;
      }
      ok := EnsureTask(t, room);
      if !ok || tasks[t].resident[v - MODEL] {
        return;
      }
      if tasks[t].weightsKb + 4 > tasks[t].budgetKb {
        return false, false, false;
      }
      ok, lost := ChargePage(t, v, s);
      if ok {
        CountFault(t, v, s, lost);
        isNew := true;
      }
    }

    method CountFault(t: nat, v: nat, ghost s: State, ghost lost: bool)
      requires Valid() && FaultResult(s, Now(), t, v, true, lost, Weights(v - MODEL)) && v < VPNS && tasks[t].root != 0
      modifies `tasks
      ensures Valid() && FaultResult(s, Now(), t, v, true, lost, Weights(v - MODEL)) && Leaked() == old(Leaked())
      ensures |tasks| == |old(tasks)| && tasks[t].resident == old(tasks)[t].resident
    {
      hide StateOk, LedgerOk, Leaf, View, SameViews, Residents, Arrived, Missing, Strays;
      ghost var s1 := Now();
      tasks := tasks[t := tasks[t].(faults := tasks[t].faults + 1)];
      FaultCounted(s, s1, Now(), t, v, lost, Weights(v - MODEL));
      LedgerCharged(s1.tasks, tasks, commits, t);
    }

    /** `FaultInPage`, seen from the state `s` before the arrays were made. */
    method ChargePage(t: nat, v: nat, ghost s: State) returns (ok: bool, ghost lost: bool)
      requires Valid() && t < |tasks| && tasks[t].root != 0
        && FaultResult(s, Now(), t, v, false, false, Weights(v - MODEL))
      requires MODEL <= v < MODEL + win <= MODEL + |tasks[t].frames| && !IsResident(tasks[t], v - MODEL)
      requires tasks[t].weightsKb + 4 <= tasks[t].budgetKb
      modifies `tasks, Hardware()
      ensures Valid() && ok == (old(spaces.pool.free) > 0) && Leaked() == old(Leaked())
        && lost == !old(NotDropped(t, v))
      ensures FaultResult(s, Now(), t, v, ok, lost, Weights(v - MODEL)) && (!ok ==> spaces.tree == old(spaces.tree))
      ensures spaces.pool.free <= old(spaces.pool.free) <= spaces.pool.free + 4 && unchanged(slots)
      ensures forall q :: IsResident(tasks[t], q) <==> IsResident(old(tasks)[t], q) || (ok && q == v - MODEL)
    {
      hide Valid, StateOk, LedgerOk, BudgetsOk, Leaf, View, Residents, Charged, Arrived, OthersKept, SameViews, Missing,
        Strays;
      ghost var s1 := Now();
      ValidState();
      ok, lost := FaultInPage(t, v - MODEL);
      if ok {
        ChargedOnly(s.tasks, s1.tasks, tasks, t, v - MODEL);
        ArrivedFrom(s, s1, Now(), t, v, lost, Weights(v - MODEL));
      }
    }

    /** `model_prefetch`, given the predicted page (0: no prediction). */
    method ModelPrefetch(t: nat, p: nat, room: bool) returns (ghost isNew: bool, ghost lost: bool)
      requires Valid() && t < |tasks| && tasks[t].root != 0
      modifies `tasks, Hardware()
      ensures FaultResult(old(Now()), Now(), t, p, isNew, lost, Weights(p - MODEL))
      ensures Valid() && Leaked() == old(Leaked())
      ensures isNew == old(Faultable(t, p, false, room) && !IsResident(tasks[t], p - MODEL))
      ensures isNew ==> InWindow(p)
      ensures lost == (isNew && !old(NotDropped(t, p)))
      ensures forall q :: 0 <= q < win && IsResident(old(tasks[t]), q) ==> IsResident(tasks[t], q)
    {
      hide Valid, StateOk, LedgerOk, BudgetsOk, Leaf, View, SameViews, Residents, Arrived, Missing, Strays;
      ghost var s := Now();
      ViewsSame(s);
      ValidState();
      isNew, lost := false, false;
      if p == 0 || !(MODEL <= p < MODEL + win) {
        return;
      }
      var ok := EnsureTask(t, room);
      if !ok || tasks[t].resident[p - MODEL] || tasks[t].weightsKb + 4 > tasks[t].budgetKb {
        return;
      }
      ok, lost := ChargePage(t, p, s);
      isNew := ok;
    }

    /** Drop resident page `p`: unmap it, give back its frame, refund it. The
        frame of a stray comes back too. */
    method DropPage(t: nat, p: nat)
      requires Valid() && t < |tasks| && tasks[t].root != 0 && p < MODEL_MAX && IsResident(tasks[t], p)
      modifies `tasks, Hardware()
      ensures Valid() && spaces.pool.free == old(spaces.pool.free) + 1
      ensures Strays(Now()) == old(Strays(Now())) - {(t, p)} && Leaked() == old(Leaked())
      ensures OthersKept(old(Now()), Now(), t, MODEL + p) && View(Now(), t, MODEL + p) == None
      ensures Refunded(old(tasks), tasks, t, p)
    {
      hide KernelShared, PathOf, FrameOf, TreeOk, RootsOk, OwnersOk, StraysOk, View, Find, TaskOk, Leaf, Missing,
        OneLeaf, Clear,
        OthersKept, Strays,
        Taken;
      ghost var s, k := Now(), tasks[t];
      TaskFacts(s, t, MODEL + p);
      ModelFacts(s, t);
      EvictTaken(s, t, p);
      StrayIs(s, t, p);
      OneLess(k.resident, p);
      spaces.Unmap(tasks[t].root, MODEL + p);
      spaces.pool.Free(tasks[t].frames[p]);
      assert k.weightsKb == 4 * Residents(k.resident) + commits[t];
      tasks := tasks[t := tasks[t].(frames := tasks[t].frames[p := 0], resident := tasks[t].resident[p := false],
                                    weightsKb := tasks[t].weightsKb - 4)];
      EvictKeeps(s, Now(), t, p);
      LedgerCharged(s.tasks, tasks, commits, t);
    }

    /** `model_evict_page`. The source leaves it to the caller that the task's
        arrays, if allocated, cover the page. */
    method EvictPage(t: nat, p: nat) returns (ok: bool)
      requires Valid() && t < |tasks| && tasks[t].root != 0
        && (p < win && tasks[t].frames != [] ==> p < |tasks[t].frames|)
      modifies `tasks, Hardware()
      ensures Valid() && ok == (p < win && old(IsResident(tasks[t], p))) && Leaked() == old(Leaked())
      ensures ok ==>
        && Strays(Now()) == old(Strays(Now())) - {(t, p)}
        && OthersKept(old(Now()), Now(), t, MODEL + p) && View(Now(), t, MODEL + p) == None
        && Refunded(old(tasks), tasks, t, p) && spaces.pool.free == old(spaces.pool.free) + 1
      ensures !ok ==> Now() == old(Now()) && spaces.pool.free == old(spaces.pool.free)
    {
      hide Valid, StateOk, LedgerOk, BudgetsOk, Leaf, View, OthersKept, Residents, Strays;
      ValidState();
      ModelFacts(Now(), t);
      if p >= win || tasks[t].frames == [] || !tasks[t].resident[p] {
        return false;
      }
      DropPage(t, p);
      ok := true;
    }

    /** `model_invalidate_task`: afterwards nothing of the window is resident,
        every frame is back, and only what was committed is still charged. */
    method InvalidateTask(t: nat)
      requires Valid() && t < |tasks| && tasks[t].root != 0
      modifies `tasks, Hardware()
      ensures OnlyTask(old(tasks), tasks, t) && OutsideKept(old(Now()), Now(), t)
      ensures Valid() && Leaked() == old(Leaked())
      ensures Residents(tasks[t].resident) == 0
      ensures spaces.pool.free == old(spaces.pool.free) + Residents(old(tasks)[t].resident)
    {
      hide Valid, StateOk, LedgerOk, BudgetsOk, Leaf, View, OthersKept, Residents, OutsideKept, Strays;
      ghost var s := Now();
      ValidState();
      OutsideSame(s, t);
      ModelFacts(s, t);
      var p := 0;
      while p < |tasks[t].frames|
        invariant Valid() && OnlyTask(s.tasks, tasks, t) && p <= |tasks[t].frames| == |tasks[t].resident| <= MODEL_MAX
        invariant forall q :: 0 <= q < p ==> !tasks[t].resident[q]
        invariant OutsideKept(s, Now(), t) && Leaked() == old(Leaked())
        invariant spaces.pool.free + Residents(tasks[t].resident) == old(spaces.pool.free)
          + Residents(s.tasks[t].resident)
      {
        if tasks[t].resident[p] {
          ghost var s1 := Now();
          DropPage(t, p);
          OutsideChain(s, s1, Now(), t, p);
        }
        p := p + 1;
      }
      NoneResident(tasks[t].resident);
    }

    /** `model_invalidate_all`. */
    method InvalidateAll()
      requires Valid()
      modifies `tasks, Hardware()
      ensures SameTasks(old(tasks), tasks) && NoneIn(tasks, |tasks|)
      ensures Valid() && Leaked() == old(Leaked()) && WindowsOnly(old(Now()), Now()) && Strays(Now()) == {}
    {
      hide Valid, StateOk, LedgerOk, BudgetsOk, Leaf, View, Residents, WindowsOnly, OutsideKept, Strays;
      ghost var s := Now();
      WindowsSame(s);
      var t := 0;
      while t < |tasks|
        invariant t <= |tasks| && Valid() && SameTasks(s.tasks, tasks) && NoneIn(tasks, t)
        invariant WindowsOnly(s, Now()) && Leaked() == old(Leaked())
      {
        ghost var s1 := Now();
        if tasks[t].root != 0 {
          InvalidateTask(t);
          WindowsChain(s, s1, Now(), t);
        } else {
          ValidState();
          NothingResident(Now(), t);
        }
        t := t + 1;
      }
      NoneStray(Now());
    }

    /** New weights, and with them a new window: everything resident is dropped
        before the window takes its new size. */
    method Resize(weights: seq<Page>)
      requires Valid() && |weights| > 0
      modifies `tasks, `win, `blob, Hardware()
      ensures SameTasks(old(tasks), tasks) && NoneIn(tasks, |tasks|)
      ensures Valid() && Leaked() == old(Leaked()) && WindowsOnly(old(Now()), Now()) && Strays(Now()) == {}
      ensures blob == weights && win == if |weights| > MODEL_MAX then MODEL_MAX else |weights|
    {
      hide StateOk, LedgerOk, BudgetsOk, Leaf, View, Residents, WindowsOnly, OutsideKept, Strays;
      ghost var s := Now();
      InvalidateAll();
      ghost var s1 := Now();
      blob := weights;
      win := if |weights| > MODEL_MAX then MODEL_MAX else |weights|;
      WindowChanged(s1, Now(), win);
      WindowsThenSame(s, s1, Now());
    }

    // ---- user heap ----

    /** One turn of the loop in `sys_alloc`: a zeroed page at the end of the
        heap, unless no frame is free. `lost` tells that its mapping was dropped. */
    method GrowHeap(t: nat) returns (ok: bool, ghost lost: nat)
      requires Valid() && t < |tasks| && tasks[t].root != 0 && tasks[t].heapPages < HEAP_PAGES
      modifies `tasks, Hardware()
      ensures Valid() && ok == (old(spaces.pool.free) > 0) && lost <= 1
        && spaces.Unowned() == old(spaces.Unowned()) + lost
      ensures Strays(Now()) == old(Strays(Now()))
      ensures !ok ==> lost == 0 && Now() == old(Now())
      ensures ok ==>
        && tasks == old(tasks)[t := old(tasks[t]).(heapPages := old(tasks[t]).heapPages + 1)]
        && HeapPageAdded(old(Now()), Now(), t, HEAP + old(tasks[t]).heapPages, lost)
        && (lost == 0 <==> old(spaces.pool.free > Missing(spaces.tree, tasks[t].root, HEAP + tasks[t].heapPages)))
    {
      hide KernelShared, PathOf, FrameOf, TreeOk, Taken, RootsOk, OwnersOk, StraysOk, View, Find, TaskOk, Leaf, Missing,
        HeapPageAdded;
      ghost var s := Now();
      TaskIdle(s, t);
      var f := spaces.pool.Alloc();
      if f == 0 {
        assert spaces.pool.bitmap[..] == s.bits;
        return false, 0;
      }
      TakenMore(s.bits, spaces.tree, f);
      lost := AddHeapPage(t, f, s);
      ok := true;
    }

    method AddHeapPage(t: nat, f: nat, ghost s: State) returns (ghost lost: nat)
      requires slots != spaces.pool.bitmap && disk != spaces.ram && spaces.Valid()
      requires 0 < f < |s.bits| && !s.bits[f] && s.(bits := s.bits[f := true]) == Now()
      requires StateOk(s) && t < |tasks| && tasks[t].root != 0 && LedgerOk(tasks, commits) && BudgetsOk(tasks)
      requires tasks[t].heapPages < HEAP_PAGES && win <= |blob| && tasks[0].root == 0
      modifies `tasks, Hardware()
      ensures tasks == old(tasks)[t := old(tasks)[t].(heapPages := old(tasks)[t].heapPages + 1)]
      ensures Valid() && lost <= 1 && spaces.Unowned() == old(spaces.Unowned()) - 1 + lost
      ensures HeapPageAdded(s, Now(), t, HEAP + old(tasks)[t].heapPages, lost) && Strays(Now()) == Strays(s)
      ensures lost == 0 <==> old(spaces.pool.free >= Missing(spaces.tree, tasks[t].root, HEAP + tasks[t].heapPages))
    {
      hide KernelShared, PathOf, FrameOf, TreeOk, RootsOk, OwnersOk, StraysOk, View, Find, TaskOk, Leaf, Missing,
        OneLeaf, Placed,
        Taken, OthersKept;
      var v := HEAP + tasks[t].heapPages;
      TaskFacts(s, t, v);
      NextHeapPage(s, t);
      ghost var mapped := spaces.MapFilled(tasks[t].root, v, f, ZeroPage(), 6, s.bits);
      lost := if mapped then 0 else 1;
      tasks := tasks[t := tasks[t].(heapPages := tasks[t].heapPages + 1)];
      HeapTask(s, Now(), t, f, mapped);
      HeapStrays(s, Now(), t, f, mapped);
      RemappedKeeps(s, Now(), t, v);
      RemappedOthersKept(s, Now(), t, v);
    }

    /** `sys_alloc`: the address of the block relative to the heap base plus 1,
        or 0. Sizes are 64-bit. On success every page up to the new end has been
        handed out, zeroed and mapped but for those whose mapping was dropped. */
    method SysAlloc(t: nat, size: nat) returns (r: nat, ghost lost: nat)
      requires Valid() && t < |tasks| && tasks[t].root != 0 && size < TWO64
      modifies `tasks, Hardware()
      ensures OnlyHeap(old(tasks), tasks, t) && Valid() && Leaked() == old(Leaked()) + lost
        && Strays(Now()) == old(Strays(Now()))
      ensures HeapPagesOnly(old(Now()), Now(), t, old(tasks)[t].heapPages, tasks[t].heapPages, lost)
      ensures var end := HeapEnd(old(tasks)[t].heapUsed, size);
        && (end > HEAP_BYTES ==> r == 0)
        && (r == 0 ==> tasks[t].heapUsed == old(tasks)[t].heapUsed)
        && (r != 0 ==> r == 1 + old(tasks)[t].heapUsed && tasks[t].heapUsed == end <= 4096 * tasks[t].heapPages)
        && (r == 0 && end <= HEAP_BYTES ==> spaces.pool.free == 0)
    {
      hide KernelShared, Valid, StateOk, LedgerOk, BudgetsOk, Leaf, View, HeapPagesOnly, OthersKept, Missing;
      ghost var s := Now();
      ValidState();
      HeapBound(s, t);
      HeapPagesSame(s, t);
      lost := 0;
      var used := tasks[t].heapUsed;
      var end := HeapEnd(used, size);
      if end > HEAP_BYTES {
        return 0, 0;
      }
      var want := (end + 4095) / 4096;
      while tasks[t].heapPages < want
        invariant Valid() && OnlyHeap(s.tasks, tasks, t) && tasks[t].heapUsed == used
          && tasks[t].heapPages <= HEAP_PAGES
        invariant HeapPagesOnly(s, Now(), t, s.tasks[t].heapPages, tasks[t].heapPages, lost)
        invariant spaces.Unowned() == old(spaces.Unowned()) + lost && Strays(Now()) == Strays(s)
        decreases HEAP_PAGES - tasks[t].heapPages
      {
        ghost var s1 := Now();
        ghost var more;
        var ok;
        ok, more := GrowHeap(t);
        if !ok {
          return 0, lost;
        }
        HeapPagesMore(s, s1, Now(), t, s.tasks[t].heapPages, s1.tasks[t].heapPages, lost, more);
        lost := lost + more;
      }
      MoveEnd(t, end, s, lost);
      r := 1 + used;
    }

    method MoveEnd(t: nat, end: nat, ghost s: State, ghost lost: nat)
      requires Valid() && OnlyHeap(s.tasks, tasks, t) && end <= 4096 * tasks[t].heapPages && tasks[t].root != 0
      requires HeapPagesOnly(s, Now(), t, s.tasks[t].heapPages, tasks[t].heapPages, lost)
      modifies `tasks
      ensures Valid() && tasks == old(tasks)[t := old(tasks)[t].(heapUsed := end)]
        && Strays(Now()) == old(Strays(Now()))
      ensures HeapPagesOnly(s, Now(), t, s.tasks[t].heapPages, tasks[t].heapPages, lost)
    {
      hide MemoryOk, OwnersOk, RootsOk, StraysOk, View, OneLeaf, TreeOk, Residents, TaskOk;
      ghost var s1 := Now();
      HeapBound(s1, t);
      EndMoved(s1, t, end);
      tasks := tasks[t := tasks[t].(heapUsed := end)];
      Refreshed(s1, Now(), t, tasks[t]);
      HeapPagesThenSame(s, s1, Now(), t, s.tasks[t].heapPages, tasks[t].heapPages, lost);
    }

    // ---- budgets ----

    method SetBudget(t: nat, kb: nat) returns (r: nat)
      requires Valid() && t < |tasks|
      modifies `tasks
      ensures Valid() && SameViews(old(Now()), Now()) && r <= kb && r <= MAX_BUDGET && (kb <= MAX_BUDGET ==> r == kb)
      ensures tasks == old(tasks)[t := old(tasks)[t].(budgetKb := r)] && Leaked() == old(Leaked())
    {
      hide Strays, MemoryOk, OwnersOk, RootsOk, StraysOk, View, OneLeaf, TreeOk, Residents, TaskOk;
      ghost var s := Now();
      r := if kb > MAX_BUDGET then MAX_BUDGET else kb;
      SettingsFree(tasks[t], tasks[t].(budgetKb := r), s.tree, s.slots, win);
      tasks := tasks[t := tasks[t].(budgetKb := r)];
      Refreshed(s, Now(), t, tasks[t]);
    }

    /** `SYS_MODEL_COMMIT`, which computes in 64 bits. The books stay right if
        and only if the sum, wrapped or not, still covers the resident pages. */
    method Commit(t: nat, pages: nat) returns (ok: bool)
      requires Valid() && t < |tasks|
      modifies `tasks, `commits
      ensures SameViews(old(Now()), Now()) && Leaked() == old(Leaked())
      ensures var k := old(tasks)[t]; var sum := CommitSum(k.weightsKb, pages);
        && ok == (sum <= k.budgetKb) && tasks == (if ok then old(tasks)[t := k.(weightsKb := sum)] else old(tasks))
        && (Valid() <==> !ok || 4 * Residents(k.resident) <= sum)
        && (k.weightsKb + 4 * pages < TWO64 ==> Valid() && sum == k.weightsKb + 4 * pages)
    {
      hide MemoryOk, OwnersOk, RootsOk, StraysOk, View, OneLeaf, TreeOk, Residents, TaskOk, LedgerOk, SameViews, Strays;
      ghost var s, c := Now(), commits;
      ViewsSame(s);
      CommitExact(tasks[t].weightsKb, pages);
      Covered(tasks, commits, s.tree, s.slots, win, t);
      var sum := CommitSum(tasks[t].weightsKb, pages);
      ok := sum <= tasks[t].budgetKb;
      if ok {
        SettingsFree(tasks[t], tasks[t].(weightsKb := sum), s.tree, s.slots, win);
        LedgerCommitted(s.tasks, c, t, sum);
        commits := commits[t := commits[t] + sum - tasks[t].weightsKb];
        tasks := tasks[t := tasks[t].(weightsKb := sum)];
        Refreshed(s, Now(), t, tasks[t]);
        ViewsApart(s, Now(), t);
      }
    }

    // ---- exit ----

    /** `swap_exit_task`: every slot of the task's list is given back. */
    method SwapExit(t: nat)
      requires t < |tasks| && forall e :: e in tasks[t].swapMap ==> e.slot < slots.Length
      modifies slots
      ensures SlotsCleared(old(slots[..]), slots[..], tasks[t].swapMap)
    {
      var i := 0;
      while i < |tasks[t].swapMap|
        invariant i <= |tasks[t].swapMap|
        invariant SlotsCleared(old(slots[..]), slots[..], tasks[t].swapMap[..i])
      {
        assert tasks[t].swapMap[i] in tasks[t].swapMap;
        ghost var b := slots[..];
        slots[tasks[t].swapMap[i].slot] := false;
        ClearedOne(old(slots[..]), b, slots[..], tasks[t].swapMap, i);
        i := i + 1;
      }
      assert tasks[t].swapMap[..i] == tasks[t].swapMap;
    }

    /** What an exit of task `t` leaves taken for good: its strays, and the bare
        top-level table of a space that never mapped anything. */
    ghost function ExitLoss(t: nat): nat
      reads this, Repr()
      requires t < |tasks|
    {
      |StraysOf(Now(), t, true)| + if Child(Root(tasks[t].root), USER) in spaces.tree then 0 else 1
    }

    /** The memory side of `sched_exit_user`: every table and page of the task,
        resident model pages included, goes back exactly once, as do its slots;
        no other task notices. Only the bare top-level table of a space that
        never mapped anything stays taken. */
    method ExitUser(t: nat)
      requires Valid() && t < |tasks| && tasks[t].root != 0
      modifies `tasks, `owner, Hardware()
      ensures Valid() && |tasks| == |old(tasks)| && (forall u ::
        0 <= u < |tasks| && u != t ==> tasks[u] == old(tasks)[u])
      ensures tasks[t].root == 0
      ensures forall u: nat, w: nat :: w < VPNS ==> View(Now(), u, w) == if u == t then None else View(old(Now()), u, w)
      ensures var root := old(tasks)[t].root;
        && spaces.tree == Without(old(spaces.tree), root)
        && (Child(Root(root), USER) in old(spaces.tree) ==>
              && spaces.pool.free == old(spaces.pool.free) + |Under(old(spaces.tree), Root(root))|
              && spaces.Unowned() == old(spaces.Unowned()))
        && (Child(Root(root), USER) !in old(spaces.tree) ==>
              spaces.pool.free == old(spaces.pool.free) && spaces.Unowned() == old(spaces.Unowned()) + 1)
      ensures Strays(Now()) == old(StraysOf(Now(), t, false)) && Leaked() == old(Leaked() + ExitLoss(t))
    {
      hide KernelShared, PathOf, FrameOf, TreeOk, Taken, RootsOk, OwnersOk, StraysOk, View, Find, TaskOk, Leaf,
        Released,
        SlotsCleared, Under, Residents, UserOnly,
        Strays, LooseKept;
      ghost var s, k := Now(), tasks[t];
      ExitFacts(s, t);
      SwapExit(t);
      spaces.FreeSpace(tasks[t].root);
      SpaceLoose(s, k.root, spaces.pool.bitmap[..]);
      StraysSplit(s, t);
      tasks := tasks[t := tasks[t].(root := 0, frames := [], resident := [], swapMap := [])];
      owner := OwnersWithout(owner, t);
      ExitKeeps(s, Now(), t, tasks[t]);
      OneUnder(s, k.root);
    }

    // ---- spawn ----

    /** One page of it, filled with `content` if there is some. */
    method MakePage(root: nat, v: nat, content: Option<Page>) returns (ok: bool, f: nat, ghost lost: nat)
      requires Valid() && root == making != 0 && MakingOk(spaces.tree, root) && ImagePage(v)
      requires Leaf(root, v) !in spaces.tree
      modifies Hardware()
      ensures Valid() && MakingOk(spaces.tree, root) && SameViews(old(Now()), Now())
      ensures lost <= 1 && spaces.Unowned() == old(spaces.Unowned()) + lost
      ensures Stretch(old(Now()), Now(), v, v + 1, Contents(content), !ok || lost > 0)
      ensures ok == (old(spaces.pool.free) > 0) && (!ok ==> lost == 0 && Now() == old(Now()) && spaces.pool.free == 0)
      ensures ok && lost > 0 ==> spaces.pool.free == 0 && old(Missing(spaces.tree, root, v)) > 0
      ensures ok && lost == 0 ==> Leaf(root, v) in spaces.tree && f == FrameOf(spaces.tree[Leaf(root, v)])
      ensures ok && lost == 0 && old(Packed(spaces.pool.bitmap[..]) && Missing(spaces.tree, root, v) > 0) ==>
        TableAt(old(spaces.tree), spaces.tree, root, v, f + 1)
    {
      hide KernelShared, PathOf, FrameOf, TreeOk, RootsOk, OwnersOk, StraysOk, View, Find, TaskOk, Leaf, Missing,
        OneLeaf, Placed,
        Taken, MakingOk, Stretch, Packed,
        TableAt, Strays;
      ghost var s := Now();
      MakingFacts(s, v);
      ViewsSame(s);
      ok, lost := false, 0;
      f := spaces.pool.Alloc();
      if f == 0 {
        assert spaces.pool.bitmap[..] == s.bits;
        StretchNone(s, v, v + 1, Contents(content));
        return;
      }
      TakenMore(s.bits, spaces.tree, f);
      var page := if content.Some? then content.value else spaces.ram[f];
      ghost var mapped := spaces.MapFilled(root, v, f, page, 6, s.bits);
      ok, lost := true, if mapped then 0 else 1;
      MakeKeeps(s, Now(), v, f, page, mapped);
      PlacedLeaf(s, Now(), v, f, page, mapped, Contents(content));
      if mapped { PlacedTable(s, Now(), v, f, page); }
    }

    /** Pages `from` to `from + n` of the space that is being built, filled from
        `image` as far as it goes. `lost` counts pages that are not there because
        a table was missing, which happens only when no frame is left. */
    method MakePages(root: nat, from: nat, n: nat, image: seq<Page>) returns (ok: bool, ghost lost: nat)
      requires Valid() && root == making != 0 && MakingOk(spaces.tree, root)
      requires (forall i :: from <= i < from + n ==> ImagePage(i)) && NoneThere(spaces.tree, root, from, from + n)
      modifies Hardware()
      ensures Valid() && MakingOk(spaces.tree, root) && SameViews(old(Now()), Now())
      ensures spaces.Unowned() == old(spaces.Unowned()) + lost
      ensures Stretch(old(Now()), Now(), from, from + n, image, !ok || lost > 0)
      ensures n > 0 && old(spaces.pool.free) == 0 ==> !ok
      ensures ok && lost > 0 ==> spaces.pool.free == 0
      ensures ok && n >= 2 && from / 512 == (from + n - 1) / 512 ==> lost == 0
    {
      hide KernelShared, Valid, StateOk, LedgerOk, BudgetsOk, Leaf, View, SameViews, MakingOk, Stretch, NoneThere,
        Missing, PathOf,
        MemoryOk, Entry, Strays,
        TableAt, Packed;
      ghost var s := Now();
      ViewsSame(s);
      StretchStart(s, from, image);
      lost := 0;
      var i := 0;
      while i < n
        invariant i <= n && Valid() && MakingOk(spaces.tree, root) && SameViews(s, Now())
        invariant spaces.Unowned() == old(spaces.Unowned()) + lost && Stretch(s, Now(), from, from + i, image, lost > 0)
        invariant (lost > 0 ==> spaces.pool.free == 0)
          && (i == 0 ==> lost == 0 && spaces.pool.free == old(spaces.pool.free))
        invariant i > 0 ==> old(spaces.pool.free) > 0
        invariant i >= 2 && from / 512 == (from + n - 1) / 512 ==> lost == 0
      {
        ghost var s1 := Now();
        ValidState();
        assert ImagePage(from + i);
        LeafNext(s, s1, from, from + i, from + n, image, lost > 0);
        if 0 < i && lost == 0 {
          Neighbours(s1, root, from + i - 1, from + i);
        }
        ghost var more;
        var f;
        ok, f, more := MakePage(root, from + i, if i < |image| then Some(image[i]) else None);
        StretchMore(s, s1, Now(), from, from + i, image, lost > 0, !ok || more > 0);
        if !ok {
          StretchOn(s, Now(), from, from + i + 1, from + n, image);
          return false, lost;
        }
        ViewsChain(s, s1, Now());
        lost := lost + more;
        i := i + 1;
      }
      ok := true;
    }

    /** A new address space, on its way to becoming a task's. */
    method BeginSpace() returns (root: nat)
      requires Valid() && making == 0
      modifies `making, Hardware()
      ensures Valid() && SameViews(old(Now()), Now()) && making == root && spaces.Unowned() == old(spaces.Unowned())
      ensures Packed(old(spaces.pool.bitmap[..])) ==> Packed(spaces.pool.bitmap[..])
      ensures root != 0 ==> MakingOk(spaces.tree, root) && Bare(spaces.tree, root)
      ensures unchanged(slots) && (root != 0 <==> old(spaces.pool.free) > 0)
        && spaces.pool.free == old(spaces.pool.free) - if root != 0 then 1 else 0
    {
      hide PathOf, FrameOf, TreeOk, Taken, RootsOk, OwnersOk, StraysOk, View, Find, TaskOk, Leaf, MakingOk;
      ghost var s := Now();
      ViewsSame(s);
      root := spaces.NewSpace();
      if root != 0 {
        making := root;
        NewLoose(s, Now(), root);
        StartKeeps(s, Now(), root);
      }
    }

    /** Give up the space that is being built. */
    method DropSpace(root: nat) returns (ghost lost: nat)
      requires Valid() && root == making != 0 && MakingOk(spaces.tree, root)
      modifies `making, Hardware()
      ensures Valid() && SameViews(old(Now()), Now()) && making == 0
      ensures lost == (if Child(Root(root), USER) in old(spaces.tree) then 0 else 1)
        && spaces.Unowned() == old(spaces.Unowned()) + lost
    {
      hide PathOf, FrameOf, TreeOk, Taken, RootsOk, OwnersOk, StraysOk, View, Find, TaskOk, Leaf, Released, Under,
        UserOnly;
      ghost var s := Now();
      OneUnder(s, root);
      lost := if Child(Root(root), USER) in spaces.tree then 0 else 1;
      spaces.FreeSpace(root);
      making := 0;
      SpaceLoose(s, root, spaces.pool.bitmap[..]);
      AbandonKeeps(s, Now());
    }

    /** Hand the space to the task in slot `t`. */
    method Adopt(t: nat, root: nat)
      requires Valid() && 0 < t < |tasks| && tasks[t].root == 0 && root == making != 0 && MakingOk(spaces.tree, root)
      modifies `tasks, `making, `commits
      ensures tasks == old(tasks)[t := Idle().(user := true, root := root)] && making == 0 && Valid()
        && Strays(Now()) == old(Strays(Now()))
      ensures forall u: nat, w: nat ::
        w < VPNS ==> View(Now(), u, w) == if u == t then Made(old(Now()), w) else View(old(Now()), u, w)
    {
      hide PathOf, FrameOf, TreeOk, Taken, RootsOk, OwnersOk, StraysOk, View, Find, TaskOk, Leaf, MakingOk, Made;
      ghost var s := Now();
      LedgerIdle(tasks, commits, t, root);
      tasks := tasks[t := Idle().(user := true, root := root)];
      making := 0;
      commits := commits[t := 0];
      AdoptKeeps(s, Now(), t, tasks[t]);
    }

    /** The pages of the script. `f` is the frame of the first of them; if frames
        were never freed, a table lies behind it. */
    method ScriptPages(root: nat) returns (ok: bool, f: nat, ghost lost: nat)
      requires Valid() && root == making != 0 && MakingOk(spaces.tree, root)
        && NoneThere(spaces.tree, root, SCRIPT, VPNS)
      modifies Hardware()
      ensures Valid() && MakingOk(spaces.tree, root) && SameViews(old(Now()), Now())
      ensures spaces.Unowned() == old(spaces.Unowned()) + lost && (old(spaces.pool.free) == 0 ==> !ok)
      ensures ok ==> lost == 0 && Stretch(old(Now()), Now(), SCRIPT, SCRIPT + 8, [], false)
      ensures ok ==> Leaf(root, SCRIPT) in spaces.tree && f == FrameOf(spaces.tree[Leaf(root, SCRIPT)])
      ensures ok && old(Packed(spaces.pool.bitmap[..]) && Missing(spaces.tree, root, SCRIPT) > 0) ==>
        TableAt(old(spaces.tree), spaces.tree, root, SCRIPT, f + 1)
    {
      hide KernelShared, Valid, StateOk, LedgerOk, BudgetsOk, View, SameViews, MakingOk, Leaf, Stretch, NoneThere,
        PathOf, Missing,
        TableAt, Packed, Strays,
        FrameOf;
      ghost var s := Now();
      ghost var more;
      NoneAt(s.tree, root, SCRIPT, VPNS, SCRIPT);
      ok, f, lost := MakePage(root, SCRIPT, None);
      ghost var s1 := Now();
      if !ok {
        return;
      }
      StretchEmpty(s, s1, SCRIPT, SCRIPT + 1, [], lost > 0, SCRIPT, VPNS);
      NoneWithin(s1.tree, root, SCRIPT + 1, VPNS, SCRIPT + 1, SCRIPT + 8);
      ok, more := MakePages(root, SCRIPT + 1, 7, []);
      ViewsChain(s, s1, Now());
      lost := lost + more;
      if ok {
        assert lost == 0 && more == 0;
        StretchJoin(s, s1, Now(), SCRIPT, SCRIPT + 1, SCRIPT + 8);
        TableStays(s, s1, Now(), f);
      }
    }

    /** Image and the pages of the script. */
    method LoadPages(root: nat, image: seq<Page>) returns (ok: bool, f: nat, ghost lost: nat)
      requires Valid() && root == making != 0 && MakingOk(spaces.tree, root) && |image| <= SCRIPT - IMAGE
        && Bare(spaces.tree, root)
      modifies Hardware()
      ensures Valid() && MakingOk(spaces.tree, root) && SameViews(old(Now()), Now())
      ensures spaces.Unowned() == old(spaces.Unowned()) + lost
      ensures ok ==>
        lost == 0 && Loaded(Now(), image) && ScriptFrame(Now(), f) && NoneThere(spaces.tree, root, SCRIPT + 8, VPNS)
      ensures ok && image != [] && old(Packed(spaces.pool.bitmap[..])) ==> TableNext(spaces.tree, f)
    {
      hide Valid, StateOk, LedgerOk, BudgetsOk, View, SameViews, MakingOk, Leaf, Stretch, NoneThere, PathOf, Missing,
        TableAt, TableNext, Packed,
        Strays, FrameOf, Loaded, Bare, ScriptFrame;
      ghost var s := Now();
      ghost var more;
      BareEmpty(spaces.tree, root, IMAGE, IMAGE + |image|);
      BareEmpty(spaces.tree, root, IMAGE, VPNS);
      ok, lost := MakePages(root, IMAGE, |image|, image);
      ghost var s1 := Now();
      ValidState();
      f := 0;
      if !ok {
        return;
      }
      StretchEmpty(s, s1, IMAGE, IMAGE + |image|, image, lost > 0, IMAGE, VPNS);
      NoneWithin(s1.tree, root, IMAGE + |image|, VPNS, SCRIPT, VPNS);
      ok, f, more := ScriptPages(root);
      ValidState();
      ViewsChain(s, s1, Now());
      lost := lost + more;
      if ok {
        StretchEmpty(s1, Now(), SCRIPT, SCRIPT + 8, [], false, SCRIPT, VPNS);
        AllLoaded(s, s1, Now(), image, f);
      }
    }

    /** `memcpy` and the terminator, through the physical address of frame `f`. */
    method CopyText(f: nat, code: seq<W.byte>)
      modifies spaces.ram
      ensures spaces.ram[..] == Copied(old(spaces.ram[..]), 4096 * f, Text(code))
    {
      hide Copied, Poked;
      var len := if |code| > TEXT_MAX then TEXT_MAX else |code|;
      ghost var r := spaces.ram[..];
      CopiedNone(r, 4096 * f);
      var i := 0;
      while i < len
        invariant i <= len && spaces.ram[..] == Copied(r, 4096 * f, code[..i])
      {
        CopiedSnoc(r, 4096 * f, code[..i], code[i]);
        assert code[..i] + [code[i]] == code[..i + 1];
        Poke(4096 * f + i, code[i]);
        i := i + 1;
      }
      CopiedSnoc(r, 4096 * f, code[..len], 0);
      assert code[..len] + [0] == Text(code);
      Poke(4096 * f + len, 0);
    }

    /** Write one byte of physical memory. */
    method Poke(a: nat, b: W.byte)
      modifies spaces.ram
      ensures spaces.ram[..] == Poked(old(spaces.ram[..]), a, b)
    {
      var f, i := a / 4096, a % 4096 / 8;
      if f < spaces.ram.Length {
        spaces.ram[f] := spaces.ram[f][i := SetByte(spaces.ram[f][i], a % 4096 % 8, b)];
      }
    }

    /** Image and script, for scripts of any length. `mid` is the state before the
        copy, where `Fits` says whether it will leave everything in order. A
        script of less than a page does; and where no frame was ever freed, a
        longer one does only if it spells out a table entry. */
    method Prepare(root: nat, image: seq<Page>, code: seq<W.byte>)
        returns (ok: bool, f: nat, ghost lost: nat, ghost mid: State)
      requires Valid() && root == making != 0 && MakingOk(spaces.tree, root) && |image| <= SCRIPT - IMAGE
        && Bare(spaces.tree, root)
      modifies Hardware()
      ensures StateOk(mid) && SameViews(old(Now()), mid) && spaces.Unowned() == old(spaces.Unowned()) + lost
      ensures spaces.tree == mid.tree && MakingOk(mid.tree, root)
      ensures if ok then
        lost == 0 && Loaded(mid, image) && ScriptFrame(mid, f) && NoneThere(mid.tree, root, SCRIPT + 8, VPNS)
        else Now() == mid
      ensures ok ==> Overrun(mid, Now(), f, code, spaces.kernelEntry)
      ensures ok && image != [] && old(Packed(spaces.pool.bitmap[..])) ==> TableNext(mid.tree, f)
      ensures if ok then Valid() <== Fits(mid, f, Text(code)) else Valid()
    {
      hide StateOk, LedgerOk, BudgetsOk, View, SameViews, MakingOk, Leaf, NoneThere, PathOf, TableNext, Packed, Strays,
        FrameOf, Loaded, Overrun,
        Copied, Text, TreeOk, Bare, ScriptFrame;
      ok, f, lost := LoadPages(root, image);
      mid := Now();
      ValidState();
      if ok {
        CopyText(f, code);
        CopyOutcome(mid, Now(), f, code, spaces.kernelEntry);
        if Fits(mid, f, Text(code)) { TreeStands(Now()); }
      }
    }

    /** Image, script and stack. Unless every page is there it fails. */
    method Populate(root: nat, image: seq<Page>, code: seq<W.byte>) returns (ok: bool, ghost lost: nat)
      requires Valid() && root == making != 0 && MakingOk(spaces.tree, root) && |image| <= SCRIPT - IMAGE
        && |code| < 4096
      requires Bare(spaces.tree, root)
      modifies Hardware()
      ensures Valid() && MakingOk(spaces.tree, root) && SameViews(old(Now()), Now())
      ensures spaces.Unowned() == old(spaces.Unowned()) + lost
      ensures ok ==>
        lost == 0 && Loaded(Now(), image) && ScriptThere(Now(), code) && AllThere(spaces.tree, root, STACK, STACK + 16)
    {
      hide Valid, StateOk, LedgerOk, BudgetsOk, View, SameViews, MakingOk, Leaf, Stretch, NoneThere, PathOf, Packed,
        Strays, FrameOf, Loaded,
        Overrun, MadeKept, ScriptThere, ScriptCopied, ScriptFrame, Bare;
      ghost var s := Now();
      ghost var mid, more;
      var f;
      ok, f, lost, mid := Prepare(root, image, code);
      if !ok {
        return;
      }
      ghost var s1 := Now();
      HarmlessCopy(mid, s1, f, image, code, spaces.kernelEntry);
      ViewsChain(s, mid, s1);
      NoneWithin(spaces.tree, root, SCRIPT + 8, VPNS, STACK, STACK + 16);
      ok, more := MakePages(root, STACK, 16, []);
      ViewsChain(s, s1, Now());
      lost := lost + more;
      if ok {
        StretchKeeps(s1, Now(), image, code);
      }
    }

    /** The memory side of `sched_spawn` in the unused slot `t`, for a script of
        less than a page (`Prepare` says what a longer one does): the runtime
        image, eight pages of script and sixteen of stack; `room` says whether
        the kernel heap can supply a kernel stack. A spawn that succeeds has
        mapped every one of them, with the image and the script in place, and
        wasted nothing; no other task notices either way. */
    method Spawn(t: nat, image: seq<Page>, code: seq<W.byte>, room: bool) returns (ok: bool, ghost lost: nat)
      requires Valid() && 0 < t < |tasks| && tasks[t].root == 0 && making == 0 && |image| <= SCRIPT - IMAGE
        && |code| < 4096
      modifies `tasks, `making, `commits, Hardware()
      ensures Valid() && |tasks| == |old(tasks)| && (forall u ::
        0 <= u < |tasks| && u != t ==> tasks[u] == old(tasks)[u]) && making == 0
      ensures forall u: nat, w: nat :: u != t && w < VPNS ==> View(Now(), u, w) == View(old(Now()), u, w)
      ensures Leaked() == old(Leaked()) + lost && Strays(Now()) == old(Strays(Now())) && (!ok ==> tasks[t] == Idle())
      ensures ok ==> lost == 0 && tasks[t].root != 0 && tasks[t] == Idle().(user := true, root := tasks[t].root)
      ensures ok ==> Populated(Now(), t, image, code)
    {
      hide Valid, StateOk, LedgerOk, BudgetsOk, Leaf, View, SameViews, MakingOk, Populated, Loaded, ScriptThere, Made,
        Packed, Strays, Bare;
      ghost var s := Now();
      ClearSlot(t);
      ghost var s0 := Now();
      lost := 0;
      var root := BeginSpace();
      ViewsChain(s, s0, Now());
      ghost var s1 := Now();
      if root == 0 {
        ViewsApart(s, Now(), t);
        return false, 0;
      }
      ok := room;
      if ok {
        ok, lost := Populate(root, image, code);
      }
      ghost var s2 := Now();
      if !room { ViewsSame(s2); }
      ViewsChain(s, s1, s2);
      ViewsApart(s, s2, t);
      if ok {
        Adopt(t, root);
        SpaceSeen(s2, Now(), t, image, code);
      } else {
        ghost var more := DropSpace(root);
        lost := lost + more;
        ViewsApart(s2, Now(), t);
      }
    }

    method ClearSlot(t: nat)
      requires Valid() && 0 < t < |tasks| && tasks[t].root == 0
      modifies `tasks
      ensures tasks == old(tasks)[t := Idle()] && Valid() && SameViews(old(Now()), Now())
    {
      hide MemoryOk, OwnersOk, RootsOk, StraysOk, View, OneLeaf, TreeOk, Residents, TaskOk;
      ghost var s := Now();
      NoList(s, t);
      NoTask(Idle(), s.tree, s.slots, win);
      tasks := tasks[t := Idle()];
      Refreshed(s, Now(), t, tasks[t]);
    }

    // ---- page faults and user accesses ----

    /** The swap half of the page-fault branch of `isr_dispatch`. */
    method FaultSwap(t: nat, v: nat, io: bool, predicted: nat, preIo: bool) returns (done: bool)
      requires Valid() && t < |tasks|
      modifies `tasks, `owner, Hardware()
      ensures Leaked() == old(Leaked()) && Strays(Now()) == old(Strays(Now()))
      ensures Valid() && SameViews(old(Now()), Now()) && KeepsRest(old(tasks), tasks, t)
      ensures done == old(active && HasKey(tasks[t].swapMap, v) && spaces.pool.free > 0 && io)
      ensures done ==> Leaf(tasks[t].root, v) in spaces.tree
      ensures !done ==> Now() == old(Now()) && spaces.pool.free == old(spaces.pool.free)
    {
      hide StateOk, LedgerOk, BudgetsOk, Leaf, View, SameViews, Find, Strays;
      ViewsSame(Now());
      var i := EntFind(t, v);
      if i == |tasks[t].swapMap| {
        return false;
      }
      done := BringIn(t, v, io, predicted, preIo);
    }

    method BringIn(t: nat, v: nat, io: bool, predicted: nat, preIo: bool) returns (done: bool)
      requires Valid() && t < |tasks|
      modifies `tasks, `owner, Hardware()
      ensures Leaked() == old(Leaked()) && Strays(Now()) == old(Strays(Now()))
      ensures Valid() && SameViews(old(Now()), Now()) && KeepsRest(old(tasks), tasks, t)
      ensures done == old(active && HasKey(tasks[t].swapMap, v) && spaces.pool.free > 0 && io)
      ensures done ==> Leaf(tasks[t].root, v) in spaces.tree
      ensures !done ==> Now() == old(Now()) && spaces.pool.free == old(spaces.pool.free)
    {
      hide Valid, StateOk, LedgerOk, BudgetsOk, PathOf, View, SameViews, Find, SwappedIn, HasKey, Strays;
      ghost var s := Now();
      done := SwapIn(t, v, io);
      if done {
        ghost var s1 := Now();
        Prefetch(t, predicted, preIo);
        ViewsChain(s, s1, Now());
        ViewsApart(s, Now(), t);
      }
    }

    /** The model half. */
    method FaultModel(t: nat, v: nat, present: bool, predicted: nat, room: bool) returns (done: bool)
      requires Valid() && t < |tasks| && tasks[t].root != 0
      modifies `tasks, Hardware()
      ensures OnlyTask(old(tasks), tasks, t) && Valid() && NothingLost(old(Now()), Now(), t)
        && Leaked() == old(Leaked())
      ensures done == old(Faultable(t, v, present, room))
      ensures done ==> (View(Now(), t, v).Some? <==> (t, v - MODEL) !in Strays(Now()))
      ensures !done ==> Strays(Now()) == old(Strays(Now())) && spaces.tree == old(spaces.tree)
      ensures old(spaces.pool.free == 0 || spaces.pool.free >= 8) ==> Strays(Now()) == old(Strays(Now()))
    {
      hide KernelShared, Valid, StateOk, LedgerOk, BudgetsOk, Leaf, View, SameViews, Missing, Arrived, Strays;
      ghost var s := Now();
      ghost var isNew, lost;
      ValidState();
      done, isNew, lost := DemandFault(t, v, present, room);
      FaultLost(s, Now(), t, v, isNew, lost, Weights(v - MODEL));
      if done {
        PrefetchNext(t, v, predicted, room, s);
      }
    }

    /** The prefetch behind a fault that was serviced. */
    method PrefetchNext(t: nat, v: nat, predicted: nat, room: bool, ghost s: State)
      requires Valid() && OnlyTask(s.tasks, tasks, t) && tasks[t].root != 0 && NothingLost(s, Now(), t)
      requires MODEL <= v < MODEL + win && IsResident(tasks[t], v - MODEL)
      modifies `tasks, Hardware()
      ensures OnlyTask(s.tasks, tasks, t) && Valid() && NothingLost(s, Now(), t) && Leaked() == old(Leaked())
      ensures View(Now(), t, v).Some? <==> (t, v - MODEL) !in Strays(Now())
      ensures old(spaces.pool.free == 0 || spaces.pool.free >= 4) ==> Strays(Now()) == old(Strays(Now()))
    {
      hide KernelShared, Valid, StateOk, LedgerOk, BudgetsOk, Leaf, View, SameViews, Missing, Arrived, Strays,
        Faultable;
      ghost var s1 := Now();
      ghost var isNew, lost;
      ValidState();
      isNew, lost := ModelPrefetch(t, predicted, room);
      FaultLost(s1, Now(), t, predicted, isNew, lost, Weights(predicted - MODEL));
      LostChain(s, s1, Now(), t);
      ValidState();
      FaultSeen(Now(), t, v - MODEL);
    }

    /** The page-fault branch of `isr_dispatch`: swap the page in, or fault in a
        model page, each with a prefetch of the predicted page after it; or kill
        the task. All that can have changed for anyone after a retry is that
        absent model pages of this task appeared. The retry finds the page
        unless it is a stray; with no frame free, or eight, none is new. */
    method PageFault(t: nat, v: nat, present: bool, io: bool, predicted: nat, preIo: bool, room: bool)
        returns (retry: bool)
      requires Valid() && t < |tasks| && tasks[t].root != 0
      modifies `tasks, `owner, Hardware()
      ensures Valid() && |tasks| == |old(tasks)| && forall u :: 0 <= u < |tasks| && u != t ==> tasks[u] == old(tasks)[u]
      ensures retry == old((active && HasKey(tasks[t].swapMap, v) && spaces.pool.free > 0 && io)
        || Faultable(t, v, present, room))
      ensures retry ==>
        tasks[t].root == old(tasks)[t].root && NothingLost(old(Now()), Now(), t) && Leaked() == old(Leaked())
      ensures retry ==> (View(Now(), t, v) == None <==> v >= MODEL && (t, v - MODEL) in Strays(Now()))
      ensures retry && old(spaces.pool.free == 0 || spaces.pool.free >= 8) ==> Strays(Now()) == old(Strays(Now()))
      ensures !retry ==>
        tasks[t].root == 0 && forall u: nat, w: nat ::
        u != t && w < VPNS ==> View(Now(), u, w) == View(old(Now()), u, w)
      ensures !retry ==> Leaked() == old(Leaked() + ExitLoss(t))
      ensures Ordinary(v) && retry ==> Leaf(tasks[t].root, v) in spaces.tree && SameViews(old(Now()), Now())
    {
      hide Valid, StateOk, LedgerOk, BudgetsOk, Leaf, View, SameViews, HasKey, NothingLost, Strays, Missing;
      ghost var s := Now();
      ValidState();
      retry := FaultSwap(t, v, io, predicted, preIo);
      if retry {
        NothingMoved(s, Now(), t);
        SwappedSeen(s, Now(), t, v);
        return;
      }
      retry := FaultModel(t, v, present, predicted, room);
      if !retry {
        ghost var s1 := Now();
        ExitUser(t);
        KilledViews(s, s1, Now(), t);
      }
    }

    /** Is page `v` mapped for task `t`? */
    method Mapped(t: nat, v: nat) returns (r: bool)
      requires Valid() && t < |tasks| && tasks[t].root != 0 && (Ordinary(v) || InWindow(v))
      ensures r == (Leaf(tasks[t].root, v) in spaces.tree)
    {
      hide PathOf, FrameOf, TreeOk, Taken, RootsOk, OwnersOk, StraysOk, TaskOk, Leaf;
      TaskFacts(Now(), t, v);
      var f := spaces.Translate(tasks[t].root, v);
      r := f != 0;
    }

    /** A user store to word `off` of an ordinary page: the processor walks the
        tables, a fault is serviced, the instruction is retried. If the task
        survives, exactly that word of that page has changed, for this task
        alone, wherever the page was before. */
    method UserStore(t: nat, v: nat, off: nat, word: nat, io: bool, predicted: nat, preIo: bool) returns (done: bool)
      requires Valid() && t < |tasks| && tasks[t].root != 0 && Ordinary(v) && off < 512
      modifies `tasks, `owner, Hardware()
      ensures Valid() && |tasks| == |old(tasks)| && forall u ::
        0 <= u < |tasks| && u != t ==> tasks[u].root == old(tasks)[u].root
      ensures done ==>
        tasks[t].root == old(tasks)[t].root && WordStored(old(Now()), Now(), t, v, off, word)
        && Leaked() == old(Leaked())
      ensures done == old(Leaf(tasks[t].root, v) in spaces.tree
        || (active && HasKey(tasks[t].swapMap, v) && spaces.pool.free > 0 && io))
      ensures !done ==>
        tasks[t].root == 0 && forall u: nat, w: nat ::
        u != t && w < VPNS ==> View(Now(), u, w) == View(old(Now()), u, w)
      ensures !done ==> Leaked() == old(Leaked() + ExitLoss(t))
    {
      hide Valid, StateOk, LedgerOk, BudgetsOk, Leaf, View, SameViews, HasKey, PathOf, WordStored, Strays, StraysOf,
        ExitLoss;
      ghost var s := Now();
      done := Reach(t, v, io, predicted, preIo);
      if done {
        StoreWord(t, v, off, word, s);
      }
    }

    /** See to it that the processor lets the task write to the page, or kill it. */
    method Reach(t: nat, v: nat, io: bool, predicted: nat, preIo: bool) returns (done: bool)
      requires Valid() && t < |tasks| && tasks[t].root != 0 && Ordinary(v)
      modifies `tasks, `owner, Hardware()
      ensures Valid() && |tasks| == |old(tasks)| && forall u :: 0 <= u < |tasks| && u != t ==> tasks[u] == old(tasks)[u]
      ensures done ==>
        tasks[t].root == old(tasks)[t].root && SameViews(old(Now()), Now()) && Leaf(tasks[t].root, v) in spaces.tree
      ensures done ==> Leaked() == old(Leaked())
      ensures done == old(Leaf(tasks[t].root, v) in spaces.tree
        || (active && HasKey(tasks[t].swapMap, v) && spaces.pool.free > 0 && io))
      ensures !done ==>
        tasks[t].root == 0 && forall u: nat, w: nat ::
        u != t && w < VPNS ==> View(Now(), u, w) == View(old(Now()), u, w)
      ensures !done ==> Leaked() == old(Leaked() + ExitLoss(t))
    {
      hide Valid, StateOk, LedgerOk, BudgetsOk, Leaf, View, SameViews, HasKey, NothingLost, PathOf, Strays, Missing,
        StraysOf, ExitLoss, Granted;
      ViewsSame(Now());
      GrantedIs(t, v);
      if Granted(t, v) {
        done := true;
      } else {
        done := PageFault(t, v, false, io, predicted, preIo, false);
      }
    }

    method StoreWord(t: nat, v: nat, off: nat, word: nat, ghost s: State)
      requires Valid() && t < |tasks| && tasks[t].root != 0 && Ordinary(v) && off < 512 && SameViews(s, Now())
      requires Leaf(tasks[t].root, v) in spaces.tree
      modifies spaces.ram
      ensures Valid() && WordStored(s, Now(), t, v, off, word) && Leaked() == old(Leaked())
    {
      hide View, SameViews, TaskOk, RootsOk, OwnersOk, StraysOk, TreeOk, Taken, FrameOf, PathOf, Leaf, Strays;
      ghost var s1 := Now();
      TaskFacts(s1, t, v);
      LeafFrame(s1, Leaf(tasks[t].root, v));
      var f := spaces.Translate(tasks[t].root, v);
      NoRootPage(s1, tasks[t].root, v, f);
      KernelKept(s1.ram, s1.tree, spaces.kernelEntry, f, Write(s1.ram[f], off, word));
      spaces.ram[f] := Write(spaces.ram[f], off, word);
      assert spaces.ram[..] == s1.ram[f := Write(s1.ram[f], off, word)];
      StoreKeeps(s1, Now(), t, v, off, word);
      StoreSeen(s, s1, Now(), t, v, off, word);
    }

    /** Does the processor let the task write to the page? */
    predicate Granted(t: nat, v: nat)
      reads Repr()
      requires Valid() && t < |tasks| && tasks[t].root != 0 && Ordinary(v)
    {
      RootInMemory(Now(), t, v);
      var a := PageTables.Hardware(spaces.ram[..], tasks[t].root, PathOf(v));
      a.Some? && a.value.write && a.value.user
    }

    lemma GrantedIs(t: nat, v: nat)
      requires Valid() && t < |tasks| && tasks[t].root != 0 && Ordinary(v)
      ensures Granted(t, v) <==> Leaf(tasks[t].root, v) in spaces.tree
    {
      hide View, SameViews, TaskOk, RootsOk, OwnersOk, StraysOk, TreeOk, Taken, FrameOf, PathOf, Leaf;
      TaskFacts(Now(), t, v);
      ReadWrite(Now(), t, v);
      WalkIsFlat(spaces.ram[..], spaces.tree, tasks[t].root, v);
    }
  }

  lemma RootInMemory(s: State, t: nat, v: nat)
    requires StateOk(s) && t < |s.tasks| && s.tasks[t].root != 0 && Ordinary(v)
    ensures s.tasks[t].root < |s.ram|
  {
    hide View, TaskOk, RootsOk, OwnersOk, StraysOk, TreeOk, Taken, FrameOf, PathOf, Leaf;
    TaskFacts(s, t, v);
    RootFrame(s.ram, s.tree, s.tasks[t].root);
  }

  /** In the space that is being built, the image is in place, and every page of
      the script is there. */
  ghost predicate Loaded(s: State, image: seq<Page>) {
    && AllThere(s.tree, s.making, IMAGE, IMAGE + |image|) && AllThere(s.tree, s.making, SCRIPT, SCRIPT + 8)
    && Filled(s, IMAGE, IMAGE + |image|, image)
  }

  ghost predicate ScriptThere(s: State, code: seq<W.byte>) {
    Made(s, SCRIPT).Some? && HoldsText(Made(s, SCRIPT).value, code)
  }

  /** Task `t` finds its image and its script, and every page of the script and
      the stack is mapped. */
  ghost predicate Populated(s: State, t: nat, image: seq<Page>, code: seq<W.byte>) {
    && t < |s.tasks|
    && (forall i :: 0 <= i < |image| ==> View(s, t, IMAGE + i) == Some(image[i]))
    && View(s, t, SCRIPT).Some? && HoldsText(View(s, t, SCRIPT).value, code)
    && AllThere(s.tree, s.tasks[t].root, SCRIPT, SCRIPT + 8) && AllThere(s.tree, s.tasks[t].root, STACK, STACK + 16)
  }

  lemma SpaceSeen(s: State, s': State, t: nat, image: seq<Page>, code: seq<W.byte>)
    requires Loaded(s, image) && ScriptThere(s, code) && AllThere(s.tree, s.making, STACK, STACK + 16)
      && |image| <= SCRIPT - IMAGE
    requires t < |s'.tasks| && s'.tree == s.tree && s'.tasks[t].root == s.making
    requires forall w: nat :: w < VPNS ==> View(s', t, w) == Made(s, w)
    ensures Populated(s', t, image, code)
  {
    hide View, Made, HoldsText;
    forall i | 0 <= i < |image| ensures View(s', t, IMAGE + i) == Some(image[i]) {
      assert Made(s, IMAGE + i) == Some(image[i]);
    }
  }

  lemma ViewsApart(s: State, s': State, t: nat)
    requires SameViews(s, s')
    ensures Strays(s') == Strays(s)
    ensures forall u: nat, w: nat :: u != t && w < VPNS ==> View(s', u, w) == View(s, u, w)
  {
    hide View;
  }

  /** The space is nothing but its top-level table. */
  ghost predicate Bare(tree: Tree, root: nat) {
    forall n :: n in tree && n.root == root ==> n == Root(root)
  }

  lemma BareEmpty(tree: Tree, root: nat, from: nat, to: nat)
    requires Bare(tree, root)
    ensures NoneThere(tree, root, from, to)
  {
    hide PathOf;
  }

  lemma LedgerIdle(tasks: seq<Task>, commits: seq<int>, t: nat, root: nat)
    requires LedgerOk(tasks, commits) && t < |tasks|
    ensures |commits| == |tasks| && LedgerOk(tasks[t := Idle().(user := true, root := root)], commits[t := 0])
  {
    hide Residents;
    NoneResident([]);
  }

  /** No page with contents lost or changed them, except that model pages of
      task `t` that were absent may be there. */
  ghost predicate NothingLost(s: State, s': State, t: nat) {
    forall u: nat, w: nat ::
      w < VPNS && (u != t || !InWindow(w) || View(s, u, w) != None) ==> View(s', u, w) == View(s, u, w)
  }

  lemma LostChain(s: State, s1: State, s2: State, t: nat)
    requires NothingLost(s, s1, t) && NothingLost(s1, s2, t)
    ensures NothingLost(s, s2, t)
  {
    hide View;
  }

  lemma FaultLost(s: State, s': State, t: nat, v: nat, isNew: bool, lost: bool, page: Page)
    requires FaultResult(s, s', t, v, isNew, lost, page) && (isNew ==> InWindow(v)) && (!isNew ==> !lost)
    ensures NothingLost(s, s', t) && (!lost ==> Strays(s') == Strays(s))
  {
    hide View, Strays;
  }

  /** Word `off` of page `v` of task `t` changed, and nothing else for anyone. */
  ghost predicate WordStored(s: State, s': State, t: nat, v: nat, off: nat, word: nat) {
    && off < 512 && View(s, t, v).Some? && View(s', t, v) == Some(Write(View(s, t, v).value, off, word))
    && forall u: nat, w: nat :: w < VPNS && (u != t || w != v) ==> View(s', u, w) == View(s, u, w)
  }

  lemma NoRootPage(s: State, r: nat, v: nat, f: nat)
    requires StateOk(s) && Leaf(r, v) in s.tree && FrameOf(s.tree[Leaf(r, v)]) == f
    ensures Root(f) !in s.tree
  {
    hide FrameOf, SlotAgrees, NodeOk, TreeOk, Taken, RootsOk, OwnersOk, StraysOk, TaskOk, PathOf;
    if Root(f) in s.tree { RootIsIts(s.ram, s.tree, Leaf(r, v), f); }
  }

  lemma StoreSeen(s: State, s1: State, s2: State, t: nat, v: nat, off: nat, word: nat)
    requires SameViews(s, s1) && WordStored(s1, s2, t, v, off, word) && v < VPNS
    ensures WordStored(s, s2, t, v, off, word)
  {
    hide View;
  }

  lemma ReadWrite(s: State, t: nat, v: nat)
    requires StateOk(s) && t < |s.tasks| && s.tasks[t].root != 0 && Ordinary(v)
    ensures Leaf(s.tasks[t].root, v) in s.tree ==> var e := s.tree[Leaf(s.tasks[t].root, v)]; Writable(e) && UserOk(e)
  {
    hide FrameOf, PathOf, TreeOk, HeapOk, SwapOk, ModelOk, RootsOk, OwnersOk, StraysOk, UserOnly, Taken, Writable,
      UserOk;
    if Leaf(s.tasks[t].root, v) in s.tree {
      TableEntry(s.tree[Leaf(s.tasks[t].root, v)]);
    }
  }

  /** A resident page has contents unless it is a stray. */
  lemma FaultSeen(s: State, t: nat, p: nat)
    requires StateOk(s) && t < |s.tasks| && s.tasks[t].root != 0 && IsResident(s.tasks[t], p) && p < MODEL_MAX
    ensures View(s, t, MODEL + p).Some? <==> (t, p) !in Strays(s)
  {
    hide StateOk, View, Strays, Leaf;
    StrayIs(s, t, p);
    if (t, p) in Strays(s) {
      StrayView(s, t, p);
    } else {
      TaskFacts(s, t, MODEL + p);
      LeafFrame(s, Leaf(s.tasks[t].root, MODEL + p));
      StoreView(s, t, MODEL + p);
    }
  }

  lemma StrayView(s: State, t: nat, p: nat)
    requires StateOk(s) && t < |s.tasks| && s.tasks[t].root != 0 && p < MODEL_MAX
      && Leaf(s.tasks[t].root, MODEL + p) !in s.tree
    ensures View(s, t, MODEL + p) == None
  {
    hide FrameOf, PathOf, TreeOk, RightsOk, HeapOk, Find, Residents, RootsOk, OwnersOk, StraysOk, EntOk;
    WindowNotSwapped(s.tasks[t], s.tree, s.slots, MODEL + p);
  }

  lemma StrayIs(s: State, t: nat, p: nat)
    requires StateOk(s) && t < |s.tasks| && s.tasks[t].root != 0 && IsResident(s.tasks[t], p)
    ensures (t, p) in Strays(s) <==> Leaf(s.tasks[t].root, MODEL + p) !in s.tree
    ensures p < |s.tasks[t].frames|
  {
    hide PathOf, MemoryOk, RootsOk, OwnersOk, StraysOk;
    FewFrames(s, t);
    assert Stray(s, t, p) <==> Leaf(s.tasks[t].root, MODEL + p) !in s.tree;
  }

  lemma NoneStray(s: State)
    requires NoneIn(s.tasks, |s.tasks|)
    ensures Strays(s) == {}
  {
    forall t: nat, p: nat ensures !Stray(s, t, p) {
      if t < |s.tasks| { NoneResident(s.tasks[t].resident); }
    }
  }

  lemma SwappedSeen(s: State, s': State, t: nat, v: nat)
    requires StateOk(s) && t < |s.tasks| && s.tasks[t].root != 0 && HasKey(s.tasks[t].swapMap, v) && SameViews(s, s')
    ensures View(s', t, v).Some? && Ordinary(v)
  {
    hide FrameOf, PathOf, TreeOk, Find, RightsOk, HeapOk, ModelOk, RootsOk, OwnersOk, StraysOk, UserOnly, Taken;
    assert EntOk(s.tasks[t], s.tree, s.slots, s.tasks[t].swapMap[Find(s.tasks[t].swapMap, v)]);
    assert View(s, t, v).Some?;
  }

  lemma KilledViews(s: State, s1: State, s2: State, t: nat)
    requires NothingLost(s, s1, t)
    requires forall u: nat, w: nat :: w < VPNS ==> View(s2, u, w) == if u == t then None else View(s1, u, w)
    ensures forall u: nat, w: nat :: u != t && w < VPNS ==> View(s2, u, w) == View(s, u, w)
  {
    hide View;
  }

  lemma NothingMoved(s: State, s': State, t: nat)
    requires SameViews(s, s')
    ensures NothingLost(s, s', t)
  {
    hide View;
  }

  function Contents(content: Option<Page>): seq<Page> {
    if content.Some? then [content.value] else []
  }

  ghost predicate AllThere(t: Tree, root: nat, from: nat, to: nat) {
    forall w: nat :: from <= w < to ==> Leaf(root, w) in t
  }

  ghost predicate NoneThere(t: Tree, root: nat, from: nat, to: nat) {
    forall w: nat :: from <= w < to ==> Leaf(root, w) !in t
  }

  lemma NoneWithin(t: Tree, root: nat, from: nat, to: nat, low: nat, high: nat)
    requires NoneThere(t, root, from, to) && from <= low && high <= to
    ensures NoneThere(t, root, low, high)
  {
    hide Leaf;
  }

  lemma NoneAt(t: Tree, root: nat, from: nat, to: nat, v: nat)
    requires NoneThere(t, root, from, to) && from <= v < to
    ensures Leaf(root, v) !in t
  {
  }

  /** The pages from `from` on hold `image`, as far as that goes. */
  ghost predicate Filled(s: State, from: nat, to: nat, image: seq<Page>) {
    forall i :: 0 <= i < |image| && from + i < to ==> Made(s, from + i) == Some(image[i])
  }

  ghost predicate TreeGrows(t: Tree, t': Tree) {
    forall n :: n in t ==> n in t' && t'[n] == t[n]
  }

  /** The path leads to a page in [from, to). */
  ghost predicate OnTheWay(p: seq<nat>, from: nat, to: nat) {
    exists w: nat :: from <= w < to && w < VPNS && p <= PathOf(w)
  }

  lemma LeafOnTheWay(root: nat, w: nat, from: nat, to: nat)
    requires w < VPNS && OnTheWay(Leaf(root, w).path, from, to)
    ensures from <= w < to
  {
    hide PathOf;
    var x: nat :| from <= x < to && x < VPNS && Leaf(root, w).path <= PathOf(x);
    PathInjective(w, x);
  }

  /** The space that is being built grew by pages in [from, to), filled from
      `image`, all of them unless one was `lost`; the others are as they were. */
  ghost predicate Stretch(s: State, s': State, from: nat, to: nat, image: seq<Page>, lost: bool) {
    && s'.making == s.making && TreeGrows(s.tree, s'.tree) && MadeKept(s, s', from, to)
       && (Packed(s.bits) ==> Packed(s'.bits))
    && (forall n :: n in s'.tree && n !in s.tree ==> n.root == s.making && OnTheWay(n.path, from, to))
    && (!lost ==> AllThere(s'.tree, s.making, from, to) && Filled(s', from, to, image))
  }

  lemma StretchStart(s: State, from: nat, image: seq<Page>)
    ensures Stretch(s, s, from, from, image, false)
  {
    hide Leaf, Made, Packed;
  }

  lemma StretchNone(s: State, from: nat, to: nat, image: seq<Page>)
    ensures Stretch(s, s, from, to, image, true)
  {
    hide Leaf, Made, Packed;
  }

  lemma StretchOn(s: State, s': State, from: nat, v: nat, to: nat, image: seq<Page>)
    requires Stretch(s, s', from, v, image, true) && v <= to
    ensures Stretch(s, s', from, to, image, true)
  {
    hide Leaf, Made, Packed;
  }

  lemma LeafNext(s: State, s1: State, from: nat, v: nat, to: nat, image: seq<Page>, lost: bool)
    requires Stretch(s, s1, from, v, image, lost) && NoneThere(s.tree, s.making, from, to) && from <= v < to && v < VPNS
    ensures Leaf(s.making, v) !in s1.tree && (!lost && from < v ==> Leaf(s.making, v - 1) in s1.tree)
  {
    hide PathOf, Made, Packed, OnTheWay;
    if Leaf(s.making, v) in s1.tree { LeafOnTheWay(s.making, v, from, v); }
  }

  lemma StretchMore(s: State, s1: State, s2: State, from: nat, v: nat, image: seq<Page>, lost: bool, more: bool)
    requires Stretch(s, s1, from, v, image, lost) && from <= v < VPNS
    requires Stretch(s1, s2, v, v + 1, Contents(if v - from < |image| then Some(image[v - from]) else None), more)
    ensures Stretch(s, s2, from, v + 1, image, lost || more)
  {
    hide PathOf, Made, Packed;
    if !lost && !more {
      forall w: nat | from <= w < v + 1 ensures Leaf(s.making, w) in s2.tree {
        if w < v { assert Leaf(s.making, w) in s1.tree; }
      }
      forall i | 0 <= i < |image| && from + i < v + 1 ensures Made(s2, from + i) == Some(image[i]) {
        if from + i == v {
          var c := Contents(Some(image[i]));
          assert c[0] == image[i] && Made(s2, v + 0) == Some(c[0]);
        } else {
          assert Made(s2, from + i) == Made(s1, from + i);
        }
      }
    }
  }

  /** A later stretch of the space is still empty. */
  lemma StretchEmpty(s: State, s': State, from: nat, to: nat, image: seq<Page>, lost: bool, low: nat, high: nat)
    requires Stretch(s, s', from, to, image, lost) && NoneThere(s.tree, s.making, low, high) && high <= VPNS
      && low <= from <= to
    ensures NoneThere(s'.tree, s.making, to, high)
  {
    hide PathOf, Made, Packed, OnTheWay;
    forall w: nat | to <= w < high ensures Leaf(s.making, w) !in s'.tree {
      if Leaf(s.making, w) in s'.tree { LeafOnTheWay(s.making, w, from, to); }
    }
  }

  /** An earlier one stands. */
  lemma StretchStands(s: State, s': State, from: nat, to: nat, im: seq<Page>, lost: bool, low: nat, high: nat,
      image: seq<Page>)
    requires Stretch(s, s', from, to, im, lost) && AllThere(s.tree, s.making, low, high) && Filled(s, low, high, image)
    requires high <= from <= VPNS
    ensures AllThere(s'.tree, s.making, low, high) && Filled(s', low, high, image)
  {
    hide PathOf, Made, Packed;
    forall w: nat | low <= w < high ensures Leaf(s.making, w) in s'.tree {
      assert Leaf(s.making, w) in s.tree;
    }
    forall i | 0 <= i < |image| && low + i < high ensures Made(s', low + i) == Some(image[i]) {
      assert Made(s', low + i) == Made(s, low + i);
    }
  }

  lemma StretchKeeps(s: State, s': State, image: seq<Page>, code: seq<W.byte>)
    requires Stretch(s, s', STACK, STACK + 16, [], false) && Loaded(s, image) && ScriptThere(s, code)
      && |image| <= SCRIPT - IMAGE
    ensures Loaded(s', image) && ScriptThere(s', code) && AllThere(s'.tree, s'.making, STACK, STACK + 16)
  {
    hide PathOf, Made, Packed, HoldsText;
    StretchStands(s, s', STACK, STACK + 16, [], false, IMAGE, IMAGE + |image|, image);
    StretchStands(s, s', STACK, STACK + 16, [], false, SCRIPT, SCRIPT + 8, []);
    assert Made(s', SCRIPT) == Made(s, SCRIPT);
  }

  lemma StretchJoin(s: State, s1: State, s2: State, from: nat, mid: nat, to: nat)
    requires Stretch(s, s1, from, mid, [], false) && Stretch(s1, s2, mid, to, [], false) && from <= mid <= to <= VPNS
    ensures Stretch(s, s2, from, to, [], false)
  {
    hide PathOf, Made, Packed;
    forall w: nat | from <= w < to ensures Leaf(s.making, w) in s2.tree {
      if w < mid { assert Leaf(s.making, w) in s1.tree; }
    }
  }

  lemma TableStays(s: State, s1: State, s2: State, f: nat)
    requires Stretch(s1, s2, SCRIPT + 1, SCRIPT + 8, [], false)
    ensures TableAt(s.tree, s1.tree, s.making, SCRIPT, f + 1) ==> TableAt(s.tree, s2.tree, s.making, SCRIPT, f + 1)
    ensures var leaf := Leaf(s.making, SCRIPT); leaf in s1.tree ==> leaf in s2.tree && s2.tree[leaf] == s1.tree[leaf]
  {
    hide PathOf, FrameOf, Made, Packed, OnTheWay;
  }

  lemma AllLoaded(s: State, s1: State, s2: State, image: seq<Page>, f: nat)
    requires Stretch(s, s1, IMAGE, IMAGE + |image|, image, false) && |image| <= SCRIPT - IMAGE
    requires Stretch(s1, s2, SCRIPT, SCRIPT + 8, [], false)
    requires StateOk(s1) && StateOk(s2) && s.making != 0 && MakingOk(s2.tree, s.making)
    requires Leaf(s.making, SCRIPT) in s2.tree && f == FrameOf(s2.tree[Leaf(s.making, SCRIPT)])
    requires Packed(s1.bits) && Missing(s1.tree, s.making, SCRIPT) > 0 ==>
      TableAt(s1.tree, s2.tree, s.making, SCRIPT, f + 1)
    requires Bare(s.tree, s.making)
    ensures Loaded(s2, image) && ScriptFrame(s2, f)
    ensures Packed(s.bits) && image != [] ==> TableNext(s2.tree, f)
  {
    hide PathOf, Made, Packed, MakingOk, StateOk, FrameOf, TableAt, TableNext, Missing, OnTheWay;
    StretchStands(s1, s2, SCRIPT, SCRIPT + 8, [], false, IMAGE, IMAGE + |image|, image);
    if Packed(s.bits) && image != [] {
      TablesMissing(s, s1, image);
      TableBehind(s1, s2, f);
    }
  }

  /** The image leaves the tables of the script still to be made. */
  lemma TablesMissing(s: State, s1: State, image: seq<Page>)
    requires Stretch(s, s1, IMAGE, IMAGE + |image|, image, false) && |image| <= SCRIPT - IMAGE && Bare(s.tree, s.making)
    ensures Missing(s1.tree, s.making, SCRIPT) > 0
  {
    hide PathOf, Made, Packed, TreeGrows, MadeKept, OnTheWay;
    ScriptPath();
    var n := Node(s.making, PathOf(SCRIPT)[..2]);
    if n in s1.tree {
      NotOnTheWay(n.path, IMAGE + |image|);
    }
  }

  lemma ScriptPath()
    ensures PathOf(SCRIPT) == [2, 3, 0, 0] && PathOf(IMAGE)[0] == 2 && PathOf(SCRIPT)[..2] == [2, 3]
  {
  }

  lemma NotOnTheWay(p: seq<nat>, to: nat)
    requires p == [2, 3] && to <= SCRIPT
    ensures !OnTheWay(p, IMAGE, to)
  {
    forall w: nat | IMAGE <= w < to ensures PathOf(w)[1] < 3 {
      assert 1024 <= w / 512 / 512 < 1027;
    }
  }

  lemma CopiedNone(ram: seq<Page>, a: nat)
    ensures Copied(ram, a, []) == ram
  {
  }

  lemma StillLoaded(s: State, s': State, image: seq<Page>, code: seq<W.byte>)
    requires Loaded(s, image) && MadeKept(s, s', SCRIPT, SCRIPT + 1) && s' == s.(ram := s'.ram)
      && |image| <= SCRIPT - IMAGE
    requires Made(s', SCRIPT).Some? && HoldsText(Made(s', SCRIPT).value, code)
    ensures Loaded(s', image) && ScriptThere(s', code)
  {
    hide PathOf, Made, HoldsText;
    forall i | 0 <= i < |image| ensures Made(s', IMAGE + i) == Some(image[i]) {
      assert Made(s', IMAGE + i) == Made(s, IMAGE + i);
    }
  }

  /** A table on the way to page `v` is new, and lies in frame `x`. */
  ghost predicate TableAt(t: Tree, t': Tree, root: nat, v: nat, x: nat) {
    exists n :: n in t' && n !in t && n.root == root && |n.path| < 4 && n.path <= PathOf(v) && FrameOf(t'[n]) == x
  }

  /** When frames were never freed, the first new table is right behind the page. */
  lemma PlacedTable(s: State, s': State, v: nat, f: nat, content: Page)
    requires StateOk(s) && MadePage(s, s', v, f, content, true) && (Packed(s.bits) ==> Packed(s.bits[f := true]))
    ensures Packed(s.bits) && Missing(s.tree, s.making, v) > 0 ==> TableAt(s.tree, s'.tree, s.making, v, f + 1)
  {
    hide PathOf, FrameOf, Entry, RootsOk, OwnersOk, StraysOk, TaskOk, TreeOk, OneLeaf, MakingOk;
    if Packed(s.bits) && Missing(s.tree, s.making, v) > 0 {
      EntryParts(f, 7);
      var m := NewNode(s, s', v);
      var g, b := FrameOf(s'.tree[m]), s.bits[f := true];
      assert NewFrames(b, s.tree, s'.tree, Leaf(s.making, v));
      assert Taken(s'.bits, s'.tree);
      assert g < |b| && !b[g];
      assert s'.bits[g] && b[f];
      assert Packed(b) && Packed(s'.bits);
      PackedNext(s.bits, b, s'.bits, f, g);
      assert HasFrame(s'.tree, f + 1);
      var n :| n in s'.tree && FrameOf(s'.tree[n]) == f + 1;
      assert n != Leaf(s.making, v);
      if n in s.tree {
        SameNode(s.tree, s'.tree, s.making, v, n);
      }
    }
  }

  lemma PackedNext(b0: seq<bool>, b1: seq<bool>, b2: seq<bool>, f: nat, g: nat)
    requires Packed(b0) && Packed(b1) && Packed(b2) && |b0| == |b1| == |b2| && f < |b0| && g < |b0|
    requires !b0[f] && b1[f] && !b1[g] && b2[g]
    ensures f < g && !b0[f + 1] && b2[f + 1]
  {
  }

  lemma NewNode(s: State, s': State, v: nat) returns (m: Node)
    requires StateOk(s) && MemoryOk(s') && Missing(s.tree, s.making, v) > 0 && TableOf(s.making, v) in s'.tree
    ensures m in s'.tree && m !in s.tree && m != Leaf(s.making, v)
  {
    hide PathOf, FrameOf, TreeOk;
    AboveLast(s'.ram, s'.tree, s.making, v);
    m := if TableOf(s.making, v) !in s.tree then TableOf(s.making, v)
         else if Node(s.making, PathOf(v)[..2]) !in s.tree then Node(s.making, PathOf(v)[..2])
         else Node(s.making, PathOf(v)[..1]);
  }

  /** Behind the first frame of the script lies a table of the script. */
  lemma TableBehind(s1: State, s2: State, f: nat)
    requires StateOk(s1) && StateOk(s2) && TableAt(s1.tree, s2.tree, s1.making, SCRIPT, f + 1)
    requires Leaf(s1.making, IMAGE) in s1.tree && Leaf(s1.making, SCRIPT) in s2.tree
    ensures TableNext(s2.tree, f)
  {
    hide FrameOf, RootsOk, OwnersOk, StraysOk, TaskOk, NodeOk, SlotAgrees, PathOf, Taken, TreeOk;
    ScriptPath();
    AboveLast(s1.ram, s1.tree, s1.making, IMAGE);
    AboveLast(s2.ram, s2.tree, s1.making, SCRIPT);
    PathParts(s1.making, PathOf(SCRIPT));
    TopTable(s1);
    var n :| n in s2.tree && n !in s1.tree && n.root == s1.making && |n.path| < 4 && n.path <= PathOf(SCRIPT)
      && FrameOf(s2.tree[n]) == f + 1;
    assert n.path == PathOf(SCRIPT)[..|n.path|];
    assert PathOf(IMAGE)[..1] == [2] == PathOf(SCRIPT)[..1];
    assert |n.path| == 2 || |n.path| == 3;
    assert Child(n, 0) in s2.tree;
  }

  lemma TopTable(s: State)
    requires StateOk(s) && Leaf(s.making, IMAGE) in s.tree
    ensures Root(s.making) in s.tree
  {
    hide FrameOf, RootsOk, OwnersOk, StraysOk, TaskOk, SlotAgrees, PathOf, Taken;
    assert NodeOk(s.tree, Leaf(s.making, IMAGE), |s.ram|);
  }

  /** What the copy of a script leads to, exactly. */
  ghost predicate Overrun(mid: State, s': State, f: nat, code: seq<W.byte>, e: nat) {
    && ScriptCopied(mid, s', f, code)
    && (|code| < 4096 ==>
          StateOk(s') && SameViews(mid, s') && MadeKept(mid, s', SCRIPT, SCRIPT + 1) && ScriptThere(s', code))
    && (|code| < 4096 ==> Fits(mid, f, Text(code)))
    && (InOrder(mid, s', e) <==> Fits(mid, f, Text(code)))
    && (TableNext(mid.tree, f) && 0 !in code && |code| >= 4096 && |mid.ram| <= 0x1000_0000_0000 ==>
          (Fits(mid, f, Text(code)) <==> Spells(mid.ram, f, code)) && (StateOk(s') ==> Spells(mid.ram, f, code)))
  }

  lemma CopyOutcome(mid: State, s': State, f: nat, code: seq<W.byte>, e: nat)
    requires StateOk(mid) && KernelShared(mid.ram, mid.tree, e) && ScriptFrame(mid, f)
      && ScriptCopied(mid, s', f, code)
    ensures Overrun(mid, s', f, code, e)
    ensures Fits(mid, f, Text(code)) ==> StateOk(s') && KernelShared(s'.ram, s'.tree, e)
  {
    hide StateOk, ScriptFrame, ScriptCopied, TableNext, SameViews, MadeKept, HoldsText, Made, Fits, Spells,
      KernelShared, Text;
    CopyExact(mid, s', f, code, e);
    if |code| < 4096 {
      ShortScript(mid, s', f, code);
      ShortFits(mid, f, code);
    }
    if TableNext(mid.tree, f) && 0 !in code && |code| >= 4096 && |mid.ram| <= 0x1000_0000_0000 {
      OverrunBreaks(mid, s', f, code, e);
    }
  }

  lemma ShortFits(s: State, f: nat, code: seq<W.byte>)
    requires |code| < 4096
    ensures Fits(s, f, Text(code))
  {
    hide FrameOf, ScriptPage;
  }

  lemma TreeStands(s: State)
    requires StateOk(s)
    ensures TreeOk(s.ram, s.tree)
  {
  }

  lemma HarmlessCopy(mid: State, s': State, f: nat, image: seq<Page>, code: seq<W.byte>, e: nat)
    requires Overrun(mid, s', f, code, e)
    requires Loaded(mid, image) && |image| <= SCRIPT - IMAGE && |code| < 4096
    ensures Loaded(s', image) && ScriptThere(s', code) && SameViews(mid, s')
  {
    hide StateOk, Copied, Text, SameViews, HoldsText, Made, Fits, Spells, KernelShared, Loaded, MadeKept;
    StillLoaded(mid, s', image, code);
  }

  lemma MakingFacts(s: State, v: nat)
    requires StateOk(s) && s.making != 0 && MakingOk(s.tree, s.making) && ImagePage(v)
    ensures PathOf(v)[0] == USER && Root(s.making) in s.tree && MemoryOk(s) && |s.bits| > 0 && s.bits[0]
  {
  }

  lemma PlacedLeaf(s: State, s': State, v: nat, f: nat, content: Page, ok: bool, image: seq<Page>)
    requires StateOk(s) && MadePage(s, s', v, f, content, ok) && MadeKept(s, s', v, v + 1)
      && (ok ==> Made(s', v) == Some(content))
    requires Leaf(s.making, v) !in s.tree && |image| <= 1 && (image != [] ==> image[0] == content)
      && (Packed(s.bits) ==> Packed(s.bits[f := true]))
    ensures Stretch(s, s', v, v + 1, image, !ok)
    ensures ok ==> Leaf(s.making, v) in s'.tree && FrameOf(s'.tree[Leaf(s.making, v)]) == f
  {
    hide FrameOf, Entry, PathOf, MemoryOk, RootsOk, OwnersOk, StraysOk, TaskOk, Made, Packed, MakingOk, StateOk;
    EntryParts(f, 7);
    forall w: nat | w < VPNS && w != v ensures Leaf(s.making, w) in s.tree <==> Leaf(s.making, w) in s'.tree {
      LeavesDiffer(s.making, v, w);
    }
    forall n | n in s.tree ensures n in s'.tree && s'.tree[n] == s.tree[n] {
      SameNode(s.tree, s'.tree, s.making, v, n);
    }
  }

  /** Two pages of one table: if one is mapped, the other lacks no table. */
  lemma Neighbours(s: State, root: nat, v: nat, w: nat)
    requires StateOk(s)
    ensures v / 512 == w / 512 && Leaf(root, v) in s.tree ==> Missing(s.tree, root, w) == 0
  {
    hide FrameOf, NodeOk, SlotAgrees, RootsOk, OwnersOk, StraysOk, TaskOk;
    if v / 512 == w / 512 && Leaf(root, v) in s.tree {
      AboveLast(s.ram, s.tree, root, v);
      assert PathOf(v)[..3] == PathOf(w)[..3] && PathOf(v)[..2] == PathOf(w)[..2] && PathOf(v)[..1] == PathOf(w)[..1];
    }
  }

  /** The charge covers the resident pages. */
  lemma Covered(tasks: seq<Task>, commits: seq<int>, tree: Tree, slots: seq<bool>, win: nat, t: nat)
    requires LedgerOk(tasks, commits) && t < |tasks| && TaskOk(tasks[t], tree, slots, win)
    ensures 4 * Residents(tasks[t].resident) <= tasks[t].weightsKb
    ensures tasks[t].root == 0 ==> tasks[t].resident == []
  {
    hide PathOf, FrameOf, Find, UserOnly;
    if t == 0 || tasks[t].root != 0 {
      assert commits[t] >= 0;
    } else {
      assert Residents([]) == 0;
    }
  }

  lemma LedgerCommitted(tasks: seq<Task>, commits: seq<int>, t: nat, sum: nat)
    requires LedgerOk(tasks, commits) && t < |tasks| && (t == 0 || tasks[t].root != 0 || tasks[t].resident == [])
    ensures |commits| == |tasks|
    ensures LedgerOk(tasks[t := tasks[t].(weightsKb := sum)], commits[t := commits[t] + sum - tasks[t].weightsKb])
      <==> 4 * Residents(tasks[t].resident) <= sum
  {
    assert Residents([]) == 0;
    hide Residents;
    var c := commits[t] + sum - tasks[t].weightsKb;
    assert commits[t := c][t] == c;
  }

  /** A budget, a charge or a counter does not bear on consistency. */
  lemma SettingsFree(k: Task, k': Task, tree: Tree, slots: seq<bool>, win: nat)
    requires TaskOk(k, tree, slots, win) && k' == k.(budgetKb := k'.budgetKb, weightsKb := k'.weightsKb,
      faults := k'.faults)
    ensures TaskOk(k', tree, slots, win)
  {
    hide PathOf, Find, FrameOf, Residents, UserOnly;
    SameButModel(k, k', tree, slots);
    forall p | 0 <= p < MODEL_MAX && ModelPageOk(k, tree, p) ensures ModelPageOk(k', tree, p) {
    }
  }

  /** The new charge, in the 64-bit arithmetic of the system call. */
  function CommitSum(kb: nat, pages: nat): nat {
    (kb + pages * 4 % TWO64) % TWO64
  }

  /** The charge is exact if and only if the true sum fits in 64 bits. */
  lemma CommitExact(kb: nat, pages: nat)
    ensures CommitSum(kb, pages) == kb + 4 * pages <==> kb + 4 * pages < TWO64
  {
  }

  /** A charge of 2^62 - 10 pages on top of 40 KiB comes out as nothing, and is
      granted. */
  lemma CommitWraps()
    ensures CommitSum(40, 0x3FFF_FFFF_FFFF_FFF6) == 0
  {
  }

  lemma ClearedOne(b0: seq<bool>, b1: seq<bool>, b2: seq<bool>, m: seq<SwapEnt>, i: nat)
    requires i < |m| && SlotsCleared(b0, b1, m[..i]) && m[i].slot < |b1| && b2 == b1[m[i].slot := false]
    ensures SlotsCleared(b0, b2, m[..i + 1])
  {
    forall x | 0 <= x < |b0| ensures NamesSlot(m[..i + 1], x) <==> NamesSlot(m[..i], x) || x == m[i].slot {
      if NamesSlot(m[..i], x) {
        var j :| 0 <= j < i && m[..i][j].slot == x;
        assert m[..i + 1][j].slot == x;
      }
      if x == m[i].slot {
        assert m[..i + 1][i].slot == x;
      }
    }
  }

  lemma ExitFacts(s: State, t: nat)
    requires StateOk(s) && t < |s.tasks| && s.tasks[t].root != 0
    ensures Root(s.tasks[t].root) in s.tree && UserOnly(s.tree, s.tasks[t].root) && MemoryOk(s)
    ensures forall e :: e in s.tasks[t].swapMap ==> e.slot < |s.slots|
  {
    hide PathOf, Find, FrameOf, Residents, UserOnly, TreeOk, RightsOk, HeapOk, ModelOk, RootsOk, OwnersOk, StraysOk;
    forall e | e in s.tasks[t].swapMap ensures e.slot < |s.slots| {
      assert EntOk(s.tasks[t], s.tree, s.slots, e);
    }
  }

  lemma NewLoose(s: State, s': State, root: nat)
    requires root < |s.bits| && !s.bits[root] && s'.bits == s.bits[root := true]
      && s'.tree == s.tree[Root(root) := Entry(root, 0)]
    requires forall n :: n in s.tree ==> n.root != root
    ensures LooseKept(s.bits, s.tree, s'.bits, s'.tree)
  {
    hide FrameOf, Entry;
    EntryParts(root, 0);
  }

  lemma SpaceLoose(s: State, root: nat, bits: seq<bool>)
    requires Released(s.bits, bits, s.tree, Under(s.tree, Root(root))) || bits == s.bits
    ensures LooseKept(s.bits, s.tree, bits, Without(s.tree, root))
  {
    hide FrameOf;
    forall f: nat | Loose(s.bits, s.tree, f) ensures Loose(bits, Without(s.tree, root), f) {
      assert f !in FramesOf(s.tree, Under(s.tree, Root(root)));
    }
  }

  lemma StraysSplit(s: State, t: nat)
    ensures |Strays(s)| == |StraysOf(s, t, true)| + |StraysOf(s, t, false)|
  {
    hide Strays;
    assert Strays(s) == StraysOf(s, t, true) + StraysOf(s, t, false);
  }

  lemma OneUnder(s: State, root: nat)
    ensures Under(s.tree, Root(root)) == {Root(root)} ==> |Under(s.tree, Root(root))| == 1
  {
  }

  /** The bump cursor after a request of `size` bytes, rounded up to 16; both
      sums are 64-bit. */
  function HeapEnd(used: nat, size: nat): nat {
    (used + (size + 15) % TWO64 / 16 * 16) % TWO64
  }

  predicate OnlyHeap(tasks: seq<Task>, tasks': seq<Task>, t: nat) {
    && t < |tasks| == |tasks'|
    && tasks' == tasks[t := tasks[t].(heapPages := tasks'[t].heapPages, heapUsed := tasks'[t].heapUsed)]
  }

  /** Only the heap pages from `from` to `to` are new, zeroed; `lost` counts
      those that are not there, because a table was missing. */
  ghost predicate HeapPagesOnly(s: State, s': State, t: nat, from: nat, to: nat, lost: nat) {
    && from <= to
    && (forall u: nat, w: nat ::
       w < VPNS && (u != t || !(HEAP + from <= w < HEAP + to)) ==> View(s', u, w) == View(s, u, w))
    && (forall w: nat ::
       HEAP + from <= w < HEAP + to ==>
       View(s, t, w) == None && (View(s', t, w) == None || View(s', t, w) == Some(ZeroPage())))
    && (lost == 0 ==> forall w: nat :: HEAP + from <= w < HEAP + to ==> View(s', t, w) == Some(ZeroPage()))
  }

  /** Page `v` of task `t` appears, zeroed, unless it was lost. */
  ghost predicate HeapPageAdded(s: State, s': State, t: nat, v: nat, lost: nat) {
    OthersKept(s, s', t, v) && View(s, t, v) == None && View(s', t, v) == if lost == 0 then Some(ZeroPage()) else None
  }

  lemma HeapPagesSame(s: State, t: nat)
    requires t < |s.tasks|
    ensures HeapPagesOnly(s, s, t, s.tasks[t].heapPages, s.tasks[t].heapPages, 0)
  {
  }

  lemma HeapPagesMore(s: State, s1: State, s2: State, t: nat, from: nat, to: nat, lost: nat, more: nat)
    requires HeapPagesOnly(s, s1, t, from, to, lost) && HeapPageAdded(s1, s2, t, HEAP + to, more) && HEAP + to < VPNS
    ensures HeapPagesOnly(s, s2, t, from, to + 1, lost + more)
  {
    hide View;
  }

  lemma HeapPagesThenSame(s: State, s1: State, s2: State, t: nat, from: nat, to: nat, lost: nat)
    requires HeapPagesOnly(s, s1, t, from, to, lost) && SameViews(s1, s2) && HEAP + to < VPNS
    ensures HeapPagesOnly(s, s2, t, from, to, lost)
  {
    hide View;
  }

  lemma NextHeapPage(s: State, t: nat)
    requires StateOk(s) && t < |s.tasks| && s.tasks[t].root != 0 && s.tasks[t].heapPages < HEAP_PAGES
    ensures Leaf(s.tasks[t].root, HEAP + s.tasks[t].heapPages) !in s.tree
  {
    hide PathOf, FrameOf, TreeOk, RootsOk, OwnersOk, StraysOk, RightsOk, SwapOk, ModelOk;
  }

  lemma EndMoved(s: State, t: nat, end: nat)
    requires StateOk(s) && t < |s.tasks| && s.tasks[t].root != 0 && end <= 4096 * s.tasks[t].heapPages
    ensures TaskOk(s.tasks[t].(heapUsed := end), s.tree, s.slots, s.win)
  {
    hide PathOf, FrameOf, TreeOk, RootsOk, OwnersOk, StraysOk, Find, Residents, UserOnly;
    var k, k' := s.tasks[t], s.tasks[t].(heapUsed := end);
    SameButModel(k, k'.(heapUsed := k.heapUsed), s.tree, s.slots);
    forall v | HEAP + k.heapPages <= v < HEAP + HEAP_PAGES ensures Leaf(k.root, v) !in s.tree && !HasKey(k.swapMap, v) {
    }
    forall p | 0 <= p < MODEL_MAX ensures ModelPageOk(k', s.tree, p) {
      assert ModelPageOk(k, s.tree, p);
    }
    forall e | e in k.swapMap ensures EntOk(k', s.tree, s.slots, e) {
      assert EntOk(k, s.tree, s.slots, e);
    }
  }

  predicate NoneIn(tasks: seq<Task>, n: nat) {
    forall t :: 0 <= t < n && t < |tasks| ==> Residents(tasks[t].resident) == 0
  }

  predicate SameTasks(tasks: seq<Task>, tasks': seq<Task>) {
    && |tasks'| == |tasks|
    && forall t :: 0 <= t < |tasks| ==>
         tasks'[t].root == tasks[t].root && tasks'[t].swapMap == tasks[t].swapMap
           && tasks'[t].budgetKb == tasks[t].budgetKb
  }

  /** Only pages in model windows may change their contents. */
  ghost predicate WindowsOnly(s: State, s': State) {
    forall u: nat, w: nat :: w < VPNS && !InWindow(w) ==> View(s', u, w) == View(s, u, w)
  }

  lemma WindowsSame(s: State)
    ensures WindowsOnly(s, s)
  {
  }

  lemma WindowsChain(s: State, s1: State, s2: State, t: nat)
    requires WindowsOnly(s, s1) && OutsideKept(s1, s2, t)
    ensures WindowsOnly(s, s2)
  {
    hide View;
  }

  lemma WindowsThenSame(s: State, s1: State, s2: State)
    requires WindowsOnly(s, s1) && SameViews(s1, s2)
    ensures WindowsOnly(s, s2)
  {
    hide View;
  }

  lemma NothingResident(s: State, t: nat)
    requires StateOk(s) && t < |s.tasks| && s.tasks[t].root == 0
    ensures Residents(s.tasks[t].resident) == 0
  {
    NoneResident(s.tasks[t].resident);
  }

  /** Page `p` of task `t` is no longer resident and no longer charged. */
  predicate Refunded(tasks: seq<Task>, tasks': seq<Task>, t: nat, p: nat) {
    && OnlyTask(tasks, tasks', t) && p < |tasks[t].resident| == |tasks[t].frames|
    && tasks'[t].resident == tasks[t].resident[p := false] && |tasks'[t].frames| == |tasks[t].frames|
    && tasks'[t].weightsKb == tasks[t].weightsKb - 4
    && Residents(tasks'[t].resident) == Residents(tasks[t].resident) - 1
  }

  /** No task but `t` changes, and it stays the task it is. */
  predicate OnlyTask(tasks: seq<Task>, tasks': seq<Task>, t: nat) {
    && t < |tasks| == |tasks'| && (forall u :: 0 <= u < |tasks| && u != t ==> tasks'[u] == tasks[u])
    && tasks'[t].root == tasks[t].root && tasks'[t].budgetKb == tasks[t].budgetKb
       && tasks'[t].swapMap == tasks[t].swapMap
  }

  /** Only pages in the model window of task `t` may change their contents. */
  ghost predicate OutsideKept(s: State, s': State, t: nat) {
    forall u: nat, w: nat :: w < VPNS && (u != t || !InWindow(w)) ==> View(s', u, w) == View(s, u, w)
  }

  lemma OutsideSame(s: State, t: nat)
    ensures OutsideKept(s, s, t)
  {
  }

  lemma OutsideChain(s: State, s1: State, s2: State, t: nat, p: nat)
    requires OutsideKept(s, s1, t) && OthersKept(s1, s2, t, MODEL + p) && p < MODEL_MAX
    ensures OutsideKept(s, s2, t)
  {
    hide View;
  }

  lemma OneLess(r: seq<bool>, p: nat)
    requires p < |r| && r[p]
    ensures Residents(r[p := false]) == Residents(r) - 1
  {
    ClearUpdate(r, p, false);
  }

  /** No task but `t` changes; it is charged `kb` more, within its budget. */
  predicate OnlyCharged(tasks: seq<Task>, tasks': seq<Task>, t: nat, kb: nat) {
    && t < |tasks| == |tasks'| && (forall u :: 0 <= u < |tasks| && u != t ==> tasks'[u] == tasks[u])
    && tasks'[t].root == tasks[t].root && tasks'[t].budgetKb == tasks[t].budgetKb
       && tasks'[t].swapMap == tasks[t].swapMap
    && tasks'[t].weightsKb == tasks[t].weightsKb + kb && (kb > 0 ==> tasks'[t].weightsKb <= tasks[t].budgetKb)
  }

  ghost predicate FaultResult(s: State, s': State, t: nat, v: nat, isNew: bool, lost: bool, page: Page) {
    if isNew then Arrived(s, s', t, v, lost, page) && OnlyCharged(s.tasks, s'.tasks, t, 4)
    else SameViews(s, s') && OnlyCharged(s.tasks, s'.tasks, t, 0)
  }

  lemma ArrivedFrom(s: State, s1: State, s2: State, t: nat, v: nat, lost: bool, page: Page)
    requires SameViews(s, s1) && Arrived(s1, s2, t, v, lost, page) && v < VPNS
    ensures Arrived(s, s2, t, v, lost, page)
  {
    hide View, Strays;
  }

  lemma ArrivedStrays(s: State, s': State, t: nat, v: nat, lost: bool, page: Page)
    requires Arrived(s, s', t, v, lost, page)
    ensures |Strays(s')| == |Strays(s)| + (if lost then 1 else 0)
    ensures Strays(s') == {} <==> Strays(s) == {} && !lost
  {
    hide View, Strays;
  }

  lemma ChargedOnly(tasks: seq<Task>, tasks1: seq<Task>, tasks2: seq<Task>, t: nat, p: nat)
    requires OnlyCharged(tasks, tasks1, t, 0) && Charged(tasks1, tasks2, t, p)
      && tasks1[t].weightsKb + 4 <= tasks1[t].budgetKb
    ensures OnlyCharged(tasks, tasks2, t, 4)
    ensures forall q :: IsResident(tasks2[t], q) <==> IsResident(tasks1[t], q) || q == p
  {
  }

  lemma FaultCounted(s: State, s1: State, s2: State, t: nat, v: nat, lost: bool, page: Page)
    requires StateOk(s1) && FaultResult(s, s1, t, v, true, lost, page) && v < VPNS
    requires s2 == s1.(tasks := s1.tasks[t := s1.tasks[t].(faults := s1.tasks[t].faults + 1)])
    ensures StateOk(s2) && FaultResult(s, s2, t, v, true, lost, page) && Strays(s2) == Strays(s1)
  {
    hide MemoryOk, OwnersOk, RootsOk, StraysOk, View, OneLeaf, TreeOk, Strays;
    var k, k' := s1.tasks[t], s2.tasks[t];
    assert TaskOk(k', s1.tree, s1.slots, s1.win) by { SettingsFree(k, k', s1.tree, s1.slots, s1.win); }
    Refreshed(s1, s2, t, k');
  }

  /** No page but page `v` of task `t` changes its contents. */
  ghost predicate OthersKept(s: State, s': State, t: nat, v: nat) {
    forall u: nat, w: nat :: w < VPNS && (u != t || w != v) ==> View(s', u, w) == View(s, u, w)
  }

  /** Model page `v` of task `t` becomes resident: it appears with these
      contents, or is a stray. */
  ghost predicate Arrived(s: State, s': State, t: nat, v: nat, lost: bool, content: Page) {
    && OthersKept(s, s', t, v) && View(s, t, v) == None && View(s', t, v) == (if lost then None else Some(content))
    && v >= MODEL && (t, v - MODEL) !in Strays(s) && Strays(s') == Strays(s) + if lost then {(t, v - MODEL)} else {}
  }

  /** Page `p` of task `t` becomes resident and is charged. */
  predicate Charged(tasks: seq<Task>, tasks': seq<Task>, t: nat, p: nat) {
    && t < |tasks| == |tasks'| && p < |tasks[t].resident|
    && tasks' == tasks[t := tasks[t].(frames := tasks'[t].frames, resident := tasks[t].resident[p := true],
       weightsKb := tasks[t].weightsKb + 4)]
    && |tasks'[t].frames| == |tasks[t].frames|
  }

  lemma LedgerCharged(tasks: seq<Task>, tasks': seq<Task>, commits: seq<int>, t: nat)
    requires LedgerOk(tasks, commits) && BudgetsOk(tasks) && t < |tasks| == |tasks'| && tasks[t].root != 0
    requires forall u :: 0 <= u < |tasks| && u != t ==> tasks'[u] == tasks[u]
    requires tasks'[t].root == tasks[t].root && tasks'[t].budgetKb == tasks[t].budgetKb
    requires tasks'[t].weightsKb - tasks[t].weightsKb ==
      4 * (Residents(tasks'[t].resident) - Residents(tasks[t].resident))
    requires tasks'[t].weightsKb <= MAX_BUDGET
    ensures LedgerOk(tasks', commits) && BudgetsOk(tasks')
  {
    hide Residents;
    assert tasks[t].weightsKb == 4 * Residents(tasks[t].resident) + commits[t];
  }

  lemma RemappedOthersKept(s: State, s': State, t: nat, v: nat)
    requires StateOk(s) && Remapped(s, s', t, v)
    ensures OthersKept(s, s', t, v)
  {
    hide StateOk, Remapped, View;
    forall u: nat, w: nat | w < VPNS && (u != t || w != v) ensures View(s', u, w) == View(s, u, w) {
      RemappedViews(s, s', t, v, u, w);
    }
  }

  lemma EvictKeeps(s: State, s': State, t: nat, p: nat)
    requires StateOk(s) && Evicted(s, s', t, p)
    ensures StateOk(s') && Strays(s') == Strays(s) - {(t, p)}
    ensures OthersKept(s, s', t, MODEL + p) && View(s', t, MODEL + p) == None
  {
    hide StateOk, Evicted, Remapped, OthersKept, View, Strays, StraysOk, TaskOk;
    EvictTask(s, s', t, p);
    EvictStrays(s, s', t, p);
    RemappedKeeps(s, s', t, MODEL + p);
    RemappedOthersKept(s, s', t, MODEL + p);
  }

  lemma OneMore(r: seq<bool>, p: nat)
    requires p < |r| && !r[p]
    ensures Residents(r[p := true]) == Residents(r) + 1
  {
    ClearUpdate(r, p, true);
  }

  lemma AbsentPage(s: State, t: nat, p: nat)
    requires StateOk(s) && t < |s.tasks| && s.tasks[t].root != 0 && p < MODEL_MAX && !IsResident(s.tasks[t], p)
    ensures Leaf(s.tasks[t].root, MODEL + p) !in s.tree && View(s, t, MODEL + p) == None
  {
    hide FrameOf, PathOf, TreeOk, RightsOk, HeapOk, Find, Residents, RootsOk, OwnersOk, StraysOk, EntOk;
    assert ModelPageOk(s.tasks[t], s.tree, p);
    WindowNotSwapped(s.tasks[t], s.tree, s.slots, MODEL + p);
  }

  predicate IsResident(k: Task, p: int) { 0 <= p < |k.resident| && k.resident[p] }

  lemma ModelFacts(s: State, t: nat)
    requires StateOk(s) && t < |s.tasks|
    ensures var k := s.tasks[t];
      |k.frames| == |k.resident| <= MODEL_MAX && (Residents(k.resident) == 0 <==> forall p :: !IsResident(k, p))
  {
    hide FrameOf, PathOf, TreeOk, RightsOk, HeapOk, SwapOk, Residents;
    var k := s.tasks[t];
    NoneResident(k.resident);
    if Residents(k.resident) != 0 {
      var i :| 0 <= i < |k.resident| && k.resident[i];
      assert IsResident(k, i);
    }
  }

  lemma ViewsChain(a: State, b: State, c: State)
    requires SameViews(a, b) && SameViews(b, c)
    ensures SameViews(a, c)
  {
    hide View;
  }

  lemma ListGrew(s: State, s': State, t: nat, v: nat)
    requires exists x :: MovedOut(s, s', t, v, x)
    ensures t < |s.tasks| == |s'.tasks| && |s'.tasks[t].swapMap| == |s.tasks[t].swapMap| + 1
  {
  }

  lemma HeapBound(s: State, t: nat)
    requires StateOk(s) && t < |s.tasks|
    ensures s.tasks[t].root != 0 ==> s.tasks[t].heapPages <= HEAP_PAGES
  {
  }

  lemma TakenMore(b: seq<bool>, tree: Tree, f: nat)
    requires Taken(b, tree) && f < |b|
    ensures Taken(b[f := true], tree)
  {
  }

  lemma TaskIdle(s: State, t: nat)
    requires StateOk(s) && t < |s.tasks|
    ensures MemoryOk(s) && |s.bits| > 0 && s.bits[0] && (s.tasks[t].root == 0 ==> s.tasks[t].swapMap == [])
  {
  }

  /** Every mapped page stays mapped. */
  ghost predicate LeavesStay(t: Tree, t': Tree) {
    forall n :: n in t && |n.path| == 4 ==> n in t'
  }

  lemma BackInPlace(s: State, s': State, t: nat, v: nat, f: nat)
    requires SwappedIn(s, s', t, v, f)
    ensures LeavesStay(s.tree, s'.tree) && Leaf(s.tasks[t].root, v) in s'.tree
  {
    hide PathOf, MemoryOk, FrameOf;
  }

  lemma ViewsSame(s: State)
    ensures SameViews(s, s)
  {
  }

  /** What a consistent state says about one page of one task. */
  lemma TaskFacts(s: State, t: nat, v: nat)
    requires StateOk(s) && t < |s.tasks| && (Ordinary(v) || InWindow(v))
    ensures PathOf(v)[0] == USER && MemoryOk(s)
    ensures s.tasks[t].root != 0 ==> Root(s.tasks[t].root) in s.tree
    ensures s.tasks[t].root != 0 && HasKey(s.tasks[t].swapMap, v) ==> Leaf(s.tasks[t].root, v) !in s.tree
    ensures s.tasks[t].root == 0 ==> s.tasks[t].swapMap == []
  {
    hide FrameOf, TreeOk, Taken, RootsOk, OwnersOk, StraysOk, RightsOk, HeapOk, ModelOk, Find;
    var m := s.tasks[t].swapMap;
    if s.tasks[t].root != 0 && HasKey(m, v) {
      assert EntOk(s.tasks[t], s.tree, s.slots, m[Find(m, v)]);
    }
  }

  lemma LeafFrame(s: State, n: Node)
    requires MemoryOk(s) && n in s.tree
    ensures 0 < FrameOf(s.tree[n]) < |s.ram| && s.bits[FrameOf(s.tree[n])]
  {
    assert NodeOk(s.tree, n, |s.ram|);
  }

  /** An unused slot of the task table. */
  function Idle(): Task { Task(false, 0, 0, 0, 8192, 0, 0, [], [], []) }

  lemma BootOk(s: State, commits: seq<int>)
    requires MemoryOk(s) && s.tree == map[] && s.owner == map[] && s.making == 0 && 1 <= s.win <= MODEL_MAX
    requires forall x :: 0 <= x < |s.slots| ==> !s.slots[x]
    requires |commits| == |s.tasks| && forall t :: 0 <= t < |s.tasks| ==> s.tasks[t] == Idle() && commits[t] == 0
    ensures StateOk(s) && LedgerOk(s.tasks, commits) && BudgetsOk(s.tasks)
  {
    hide TreeOk, Taken;
  }

  lemma {:induction false} FirstIs(m: seq<SwapEnt>, v: nat, i: nat)
    requires i <= |m| && (forall j :: 0 <= j < i ==> m[j].key != v) && (i < |m| ==> m[i].key == v)
    ensures Find(m, v) == i
  {
    if i > 0 { FirstIs(m[1..], v, i - 1); }
  }

  // ---- a page of the model window, swapped out ----

  /** A machine of sixteen frames, one swap slot and a model of one page. */
  method Boot() returns (k: Kernel)
    ensures k.Valid() && fresh(k) && fresh(k.Hardware()) && k.tasks == [Idle(), Idle()] && k.making == 0
    ensures k.win == 1 && k.blob == [ZeroPage()] && k.active && k.spaces.pool.free == 15
    ensures k.slots.Length == 1 && !k.slots[0]
  {
    hide StateOk, Clear, PathOf, TreeOk, MemoryOk;
    var pool := new FramePool(16);
    pool.Mark(0);
    var ram := new Page[16](_ => ZeroPage());
    var spaces := new AddressSpaces(pool, ram, 0);
    k := new Kernel(spaces, 1, 2, 1, [ZeroPage()]);
  }

  /** From boot: a task faults in model page 0, and asks for it to be swapped
      out. The call succeeds, and the page counts as resident in a free frame. */
  method SwapsModelPage() returns (k: Kernel, done: bool, ghost before: State)
    ensures StateOk(before) && View(before, 1, MODEL) == Some(ZeroPage()) && done
    ensures !StateOk(k.Now()) && Dangles(k.Now(), 1, 0)
  {
    hide StateOk, View, SameViews, Dangles, Strays, MakingOk, PathOf, Bare, Leaf, LedgerOk, BudgetsOk, TreeOk, Taken,
      KernelShared, Clear, Packed;
    k := Boot();
    var root := k.BeginSpace();
    k.Adopt(1, root);
    done, before := FaultAndSwap(k);
  }

  method FaultAndSwap(k: Kernel) returns (done: bool, ghost before: State)
    requires k.Valid() && |k.tasks| == 2 && k.tasks[1] == Idle().(user := true, root := k.tasks[1].root)
    requires k.tasks[1].root != 0 && k.win == 1 && k.blob == [ZeroPage()] && k.active && k.spaces.pool.free > 3
    requires k.slots.Length == 1 && !k.slots[0]
    modifies k`tasks, k`owner, k.Hardware()
    ensures StateOk(before) && View(before, 1, MODEL) == Some(ZeroPage()) && done
    ensures !StateOk(k.Now()) && Dangles(k.Now(), 1, 0)
  {
    hide StateOk, View, SameViews, Dangles, Strays, Missing, PathOf, Find, Leaf, MovedOut, LedgerOk, BudgetsOk, TreeOk,
      Taken, KernelShared, Residents, Clear;
    var ok;
    ghost var isNew, lost;
    ok, isNew, lost := k.DemandFault(1, MODEL, false, true);
    before := k.Now();
    SeenMapped(before, 1, MODEL);
    assert !k.slots[..][0];
    done := k.SwapOut(1, MODEL, true);
  }

  /** With nothing swapped out a page that can be seen is mapped. */
  lemma SeenMapped(s: State, t: nat, v: nat)
    requires t < |s.tasks| && s.tasks[t].swapMap == [] && View(s, t, v).Some?
    ensures Leaf(s.tasks[t].root, v) in s.tree
  {
    hide PathOf, FrameOf;
  }
}
