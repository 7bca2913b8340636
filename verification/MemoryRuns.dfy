/** Runs of the memory system: whatever happens in between, the pages of a task
    that stays alive hold exactly what the task stored in them. */
module MemoryRuns {
  import opened Wrappers
  import opened PageTables
  import opened Paging
  import opened Tasks
  import opened Swapping
  import opened Lifecycle
  import opened KernelMemory
  import W = Word

  /** One thing that can happen: an access or a system call of a live task, or a
      step the kernel takes on its own. Disk outcomes, predictions and kernel
      heap outcomes come with it. */
  datatype Event =
    | Store(t: nat, v: nat, off: nat, word: nat, io: bool, predicted: nat, preIo: bool)
    | Evict(t: nat, v: nat, io: bool)
    | Reclaim(disk: (nat, nat) -> bool)
    | Alloc(t: nat, size: nat)
    | Touch(t: nat, v: nat, io: bool, predicted: nat, preIo: bool, room: bool)
    | DropModel(t: nat, p: nat)
    | Resize(weights: seq<Page>)
    | Budget(t: nat, kb: nat)
    | Commit(t: nat, pages: nat)
    | Exit(t: nat)
    | Spawn(t: nat, image: seq<Page>, code: seq<W.byte>, room: bool)

  datatype Outcome = Done | Killed | Skipped

  /** The page after an event: only a completed store to it matters. */
  function After(e: Event, out: Outcome, t: nat, v: nat, page: Page): Page {
    if e.Store? && out.Done? && e.t == t && e.v == v && e.off < 512 then Write(page, e.off, e.word) else page
  }

  /** What page `v` of task `t` should hold after `events`, if it held `page`. */
  function Replay(events: seq<Event>, outs: seq<Outcome>, t: nat, v: nat, page: Page): Page
    requires |outs| == |events|
  {
    if events == [] then page
    else
      var n := |events| - 1;
      After(events[n], outs[n], t, v, Replay(events[..n], outs[..n], t, v, page))
  }

  /** Does the event end task `t`? Only its own exit or fault does. */
  predicate Ends(e: Event, out: Outcome, t: nat) {
    (e.Exit? && e.t == t && out.Done?) || ((e.Store? || e.Touch?) && e.t == t && out.Killed?)
  }

  /** Can the event leave frames taken for good? A page or a table of the dead or
      of a failed spawn may stay behind, or a heap page whose mapping was dropped. */
  predicate MayLeak(e: Event, out: Outcome) { e.Alloc? || e.Spawn? || e.Exit? || out.Killed? }

  function Sum(ns: seq<nat>): nat {
    if ns == [] then 0 else Sum(ns[..|ns| - 1]) + ns[|ns| - 1]
  }

  predicate Alive(s: State, t: nat) { t < |s.tasks| && s.tasks[t].root != 0 }

  /** The effect of one event on page `v` of task `t`. */
  ghost predicate Effect(s: State, s': State, e: Event, out: Outcome, t: nat, v: nat) {
    Alive(s, t) && View(s, t, v).Some? && !Ends(e, out, t) ==>
      Alive(s', t) && View(s', t, v) == Some(After(e, out, t, v, View(s, t, v).value))
  }

  /** Same page, same task: the effect of every event but a store. */
  lemma Unmoved(s: State, s': State, e: Event, out: Outcome, t: nat, v: nat)
    requires !(e.Store? && e.t == t && out.Done?) && (Alive(s, t) && !Ends(e, out, t) ==> Alive(s', t))
    requires Alive(s, t) && View(s, t, v).Some? && !Ends(e, out, t) ==> View(s', t, v) == View(s, t, v)
    ensures Effect(s, s', e, out, t, v)
  {
    hide View;
  }

  // An access needs an ordinary page and an offset inside it.
  method DoStore(k: Kernel, e: Event, ghost t: nat, ghost v: nat) returns (out: Outcome, ghost loss: nat)
    requires (e.Store?) && k.Valid() && k.making == 0 && Ordinary(v)
    modifies k.Repr()
    ensures k.Valid() && k.making == 0 && Effect(old(k.Now()), k.Now(), e, out, t, v)
    ensures k.Leaked() == old(k.Leaked()) + loss && (loss > 0 ==> MayLeak(e, out))
  {
    hide View, StateOk, LedgerOk, BudgetsOk, Leaf, SameViews, Strays, WordStored, HasKey, Kernel.Valid, Kernel.Leaked,
      Kernel.ExitLoss, Effect;
    out, loss := Skipped, 0;
    ghost var s := k.Now();
    if e.t < |k.tasks| && k.tasks[e.t].root != 0 && Ordinary(e.v) && e.off < 512 {
      ghost var exit := k.ExitLoss(e.t);
      var ok := k.UserStore(e.t, e.v, e.off, e.word, e.io, e.predicted, e.preIo);
      out, loss := if ok then Done else Killed, if ok then 0 else exit;
      StoreEffect(s, k.Now(), e, out, t, v);
    } else {
      Unmoved(s, s, e, out, t, v);
    }
  }

  lemma StoreEffect(s: State, s': State, e: Event, out: Outcome, t: nat, v: nat)
    requires e.Store? && Alive(s, e.t) && |s'.tasks| == |s.tasks| && v < VPNS && Ordinary(e.v)
    requires forall u :: 0 <= u < |s.tasks| && u != e.t ==> s'.tasks[u].root == s.tasks[u].root
    requires out.Done? ==> s'.tasks[e.t].root == s.tasks[e.t].root && WordStored(s, s', e.t, e.v, e.off, e.word)
    requires !out.Done? ==>
      out.Killed? && forall u: nat, w: nat :: u != e.t && w < VPNS ==> View(s', u, w) == View(s, u, w)
    ensures Effect(s, s', e, out, t, v)
  {
    hide View;
  }

  // Only ordinary pages may be swapped out.
  method DoSwap(k: Kernel, e: Event, ghost t: nat, ghost v: nat) returns (out: Outcome, ghost loss: nat)
    requires (e.Evict? || e.Reclaim?) && k.Valid() && k.making == 0 && Ordinary(v)
    modifies k.Repr()
    ensures k.Valid() && k.making == 0 && Effect(old(k.Now()), k.Now(), e, out, t, v)
    ensures k.Leaked() == old(k.Leaked()) + loss && (loss > 0 ==> MayLeak(e, out))
  {
    hide View, StateOk, LedgerOk, BudgetsOk, Kernel.Leaked, Leaf, SameViews, OthersKept, WindowsOnly, OutsideKept,
      HeapPagesOnly, Arrived, Strays, Populated, Kernel.Valid, Effect, SwappedOut;
    out, loss := Skipped, 0;
    ghost var s := k.Now();
    if e.Evict? {
      if e.t < |k.tasks| && Ordinary(e.v) {
        var ok := k.SwapOut(e.t, e.v, e.io);
        SeenSame(s, k.Now(), t, v);
        out := Done;
      }
    } else {
      k.Reclaim(e.disk);
      SeenSame(s, k.Now(), t, v);
      out := Done;
    }
    Unmoved(s, k.Now(), e, out, t, v);
  }

  // Sizes are 64-bit.
  method DoHeap(k: Kernel, e: Event, ghost t: nat, ghost v: nat) returns (out: Outcome, ghost loss: nat)
    requires (e.Alloc?) && k.Valid() && k.making == 0 && Ordinary(v)
    modifies k.Repr()
    ensures k.Valid() && k.making == 0 && Effect(old(k.Now()), k.Now(), e, out, t, v)
    ensures k.Leaked() == old(k.Leaked()) + loss && (loss > 0 ==> MayLeak(e, out))
  {
    hide View, StateOk, LedgerOk, BudgetsOk, Kernel.Leaked, Leaf, SameViews, OthersKept, WindowsOnly, OutsideKept,
      HeapPagesOnly, Arrived, Strays, Populated;
    out, loss := Skipped, 0;
    ghost var s := k.Now();
    if e.t < |k.tasks| && k.tasks[e.t].root != 0 && e.size < TWO64 {
      var r;
      ghost var lost;
      r, lost := k.SysAlloc(e.t, e.size);
      loss := lost;
      if View(s, t, v).Some? { SeenHeap(s, k.Now(), e.t, s.tasks[e.t].heapPages, k.tasks[e.t].heapPages, lost, t, v); }
      out := Done;
    }
    Unmoved(s, k.Now(), e, out, t, v);
  }

  // An access to any page. If it is mapped nothing happens.
  method DoTouch(k: Kernel, e: Event, ghost t: nat, ghost v: nat) returns (out: Outcome, ghost loss: nat)
    requires e.Touch? && k.Valid() && k.making == 0 && Ordinary(v)
    modifies k.Repr()
    ensures k.Valid() && k.making == 0 && Effect(old(k.Now()), k.Now(), e, out, t, v)
    ensures k.Leaked() == old(k.Leaked()) + loss && (loss > 0 ==> MayLeak(e, out))
  {
    hide View, StateOk, LedgerOk, BudgetsOk, Leaf, SameViews, Strays, Missing, Effect, NothingLost, HasKey,
      Kernel.Faultable, StraysOf,
      Kernel.Leaked, Kernel.ExitLoss, Kernel.Valid;
    out, loss := Skipped, 0;
    ghost var s := k.Now();
    if e.t < |k.tasks| && k.tasks[e.t].root != 0 {
      var here := false;
      if Ordinary(e.v) || InWindow(e.v) {
        here := k.Mapped(e.t, e.v);
      }
      out := Done;
      if !here {
        ghost var exit := k.ExitLoss(e.t);
        var ok := k.PageFault(e.t, e.v, false, e.io, e.predicted, e.preIo, e.room);
        out, loss := if ok then Done else Killed, if ok then 0 else exit;
        if ok { SeenLost(s, k.Now(), e.t, t, v); }
      }
    }
    Unmoved(s, k.Now(), e, out, t, v);
  }

  // The task's arrays must cover the page.
  method DoDrop(k: Kernel, e: Event, ghost t: nat, ghost v: nat) returns (out: Outcome, ghost loss: nat)
    requires (e.DropModel?) && k.Valid() && k.making == 0 && Ordinary(v)
    modifies k.Repr()
    ensures k.Valid() && k.making == 0 && Effect(old(k.Now()), k.Now(), e, out, t, v)
    ensures k.Leaked() == old(k.Leaked()) + loss && (loss > 0 ==> MayLeak(e, out))
  {
    hide View, StateOk, LedgerOk, BudgetsOk, Kernel.Leaked, Leaf, SameViews, OthersKept, WindowsOnly, OutsideKept,
      HeapPagesOnly, Arrived, Strays, Populated, Under, Residents, Without, Kernel.Valid, Missing, IsResident, Effect;
    out, loss := Skipped, 0;
    ghost var s := k.Now();
    if e.t < |k.tasks| && k.tasks[e.t].root != 0 && (e.p >= k.win || e.p < |k.tasks[e.t].frames|) {
      var ok := k.EvictPage(e.t, e.p);
      if ok { SeenOthers(s, k.Now(), e.t, MODEL + e.p, t, v); }
      out := Done;
    }
    Unmoved(s, k.Now(), e, out, t, v);
  }

  // There is always at least one page of weights.
  method DoResize(k: Kernel, e: Event, ghost t: nat, ghost v: nat) returns (out: Outcome, ghost loss: nat)
    requires (e.Resize?) && k.Valid() && k.making == 0 && Ordinary(v)
    modifies k.Repr()
    ensures k.Valid() && k.making == 0 && Effect(old(k.Now()), k.Now(), e, out, t, v)
    ensures k.Leaked() == old(k.Leaked()) + loss && (loss > 0 ==> MayLeak(e, out))
  {
    hide View, StateOk, LedgerOk, BudgetsOk, Kernel.Leaked, Leaf, SameViews, OthersKept, WindowsOnly, OutsideKept,
      HeapPagesOnly, Arrived, Strays, Populated, Under, Residents;
    out, loss := Skipped, 0;
    ghost var s := k.Now();
    if |e.weights| > 0 {
      k.Resize(e.weights);
      SeenWindows(s, k.Now(), t, v);
      out := Done;
    }
    Unmoved(s, k.Now(), e, out, t, v);
  }

  /** The charge is refused, or the sum still covers the resident pages. */
  predicate ChargeOk(k: Task, pages: nat) {
    var sum := CommitSum(k.weightsKb, pages);
    sum > k.budgetKb || 4 * Residents(k.resident) <= sum
  }

  // A charge that wraps must leave the resident pages paid for.
  method DoSettings(k: Kernel, e: Event, ghost t: nat, ghost v: nat) returns (out: Outcome, ghost loss: nat)
    requires (e.Budget? || e.Commit?) && k.Valid() && k.making == 0 && Ordinary(v)
    modifies k.Repr()
    ensures k.Valid() && k.making == 0 && Effect(old(k.Now()), k.Now(), e, out, t, v)
    ensures k.Leaked() == old(k.Leaked()) + loss && (loss > 0 ==> MayLeak(e, out))
  {
    hide View, StateOk, LedgerOk, BudgetsOk, Kernel.Leaked, Leaf, SameViews, OthersKept, WindowsOnly, OutsideKept,
      HeapPagesOnly, Arrived, Strays, Populated;
    out, loss := Skipped, 0;
    ghost var s := k.Now();
    if e.Budget? {
      if e.t < |k.tasks| {
        var r := k.SetBudget(e.t, e.kb);
        SeenSame(s, k.Now(), t, v);
        out := Done;
      }
    } else if e.t < |k.tasks| && ChargeOk(k.tasks[e.t], e.pages) {
      var ok := k.Commit(e.t, e.pages);
      SeenSame(s, k.Now(), t, v);
      out := Done;
    }
    Unmoved(s, k.Now(), e, out, t, v);
  }

  // Only a live task can exit.
  method DoExit(k: Kernel, e: Event, ghost t: nat, ghost v: nat) returns (out: Outcome, ghost loss: nat)
    requires (e.Exit?) && k.Valid() && k.making == 0 && Ordinary(v)
    modifies k.Repr()
    ensures k.Valid() && k.making == 0 && Effect(old(k.Now()), k.Now(), e, out, t, v)
    ensures k.Leaked() == old(k.Leaked()) + loss && (loss > 0 ==> MayLeak(e, out))
  {
    hide View, StateOk, LedgerOk, BudgetsOk, Kernel.Leaked, Leaf, SameViews, OthersKept, WindowsOnly, OutsideKept,
      HeapPagesOnly, Arrived, Strays, Populated, Under, Residents, Without, Kernel.Valid, Missing, Refunded, IsResident,
      Effect;
    out, loss := Skipped, 0;
    ghost var s := k.Now();
    if e.t < |k.tasks| && k.tasks[e.t].root != 0 {
      loss := k.ExitLoss(e.t);
      k.ExitUser(e.t);
      out := Done;
    }
    Unmoved(s, k.Now(), e, out, t, v);
  }

  // A task is made only in an unused slot other than that of the REPL, and
  // only with a script that fits in a page.
  method DoSpawn(k: Kernel, e: Event, ghost t: nat, ghost v: nat) returns (out: Outcome, ghost loss: nat)
    requires (e.Spawn?) && k.Valid() && k.making == 0 && Ordinary(v)
    modifies k.Repr()
    ensures k.Valid() && k.making == 0 && Effect(old(k.Now()), k.Now(), e, out, t, v)
    ensures k.Leaked() == old(k.Leaked()) + loss && (loss > 0 ==> MayLeak(e, out))
  {
    hide View, StateOk, LedgerOk, BudgetsOk, Kernel.Leaked, Leaf, SameViews, OthersKept, WindowsOnly, OutsideKept,
      HeapPagesOnly, Arrived, Strays, Populated, Under, Residents;
    out, loss := Skipped, 0;
    ghost var s := k.Now();
    if 0 < e.t < |k.tasks| && k.tasks[e.t].root == 0 && |e.image| <= SCRIPT - IMAGE && |e.code| < 4096 {
      var ok;
      ghost var lost;
      ok, lost := k.Spawn(e.t, e.image, e.code, e.room);
      out, loss := Done, lost;
    }
    Unmoved(s, k.Now(), e, out, t, v);
  }

  /** Carry out an event, if the task it names is there and the source's
      conditions on its callers are met; otherwise nothing happens. */
  method Step(k: Kernel, e: Event, ghost t: nat, ghost v: nat) returns (out: Outcome, ghost loss: nat)
    requires k.Valid() && k.making == 0 && Ordinary(v)
    modifies k.Repr()
    ensures k.Valid() && k.making == 0 && Effect(old(k.Now()), k.Now(), e, out, t, v)
    ensures k.Leaked() == old(k.Leaked()) + loss && (loss > 0 ==> MayLeak(e, out))
  {
    hide View, StateOk, LedgerOk, BudgetsOk, Effect;
    match e
    case Store(_, _, _, _, _, _, _) => out, loss := DoStore(k, e, t, v);
    case Evict(_, _, _) => out, loss := DoSwap(k, e, t, v);
    case Reclaim(_) => out, loss := DoSwap(k, e, t, v);
    case Alloc(_, _) => out, loss := DoHeap(k, e, t, v);
    case Touch(_, _, _, _, _, _) => out, loss := DoTouch(k, e, t, v);
    case DropModel(_, _) => out, loss := DoDrop(k, e, t, v);
    case Resize(_) => out, loss := DoResize(k, e, t, v);
    case Budget(_, _) => out, loss := DoSettings(k, e, t, v);
    case Commit(_, _) => out, loss := DoSettings(k, e, t, v);
    case Exit(_) => out, loss := DoExit(k, e, t, v);
    case Spawn(_, _, _, _) => out, loss := DoSpawn(k, e, t, v);
  }

  /** Every run, of any length: the system stays consistent, and as long as no
      event ends task `t`, its page `v` holds what it held at first with the
      task's own completed stores applied in order, through any number of
      evictions, reclaims, faults, resizes, spawns and exits. The frames that are
      lost for good are exactly those that single events lost. */
  method Run(k: Kernel, events: seq<Event>, ghost t: nat, ghost v: nat)
      returns (outs: seq<Outcome>, ghost losses: seq<nat>)
    requires k.Valid() && k.making == 0 && Ordinary(v)
    modifies k.Repr()
    ensures k.Valid() && k.making == 0 && |outs| == |events|
    ensures var s := old(k.Now());
      Alive(s, t) && View(s, t, v).Some? && (forall i :: 0 <= i < |events| ==> !Ends(events[i], outs[i], t)) ==>
        Alive(k.Now(), t) && View(k.Now(), t, v) == Some(Replay(events, outs, t, v, View(s, t, v).value))
    ensures |losses| == |events| && k.Leaked() == old(k.Leaked()) + Sum(losses)
    ensures forall i :: 0 <= i < |events| && losses[i] > 0 ==> MayLeak(events[i], outs[i])
  {
    hide View, StateOk, LedgerOk, BudgetsOk, Strays, Kernel.Leaked, Account, Sum, Effect, Kernel.Valid;
    ghost var s := k.Now();
    outs, losses := [], [];
    AccountNone(s, t, v);
    while |outs| < |events|
      invariant k.Valid() && k.making == 0 && |losses| == |outs| <= |events|
      invariant Account(s, k.Now(), events[..|outs|], outs, losses, t, v)
      invariant k.Leaked() == old(k.Leaked()) + Sum(losses)
    {
      var n := |outs|;
      var out;
      ghost var loss;
      ghost var s1 := k.Now();
      out, loss := Step(k, events[n], t, v);
      AccountMore(s, s1, k.Now(), events[..n], outs, losses, events[n], out, loss, t, v);
      assert events[..n + 1] == events[..n] + [events[n]];
      outs, losses := outs + [out], losses + [loss];
    }
    assert events[..|outs|] == events;
    AccountIs(s, k.Now(), events, outs, losses, t, v);
  }

  /** What holds after `events`: as long as task `t` lives, its page `v` holds what
      it stored, and only events that may leak did. */
  ghost predicate Account(s: State, s': State, events: seq<Event>, outs: seq<Outcome>, losses: seq<nat>, t: nat, v: nat)
  {
    && |losses| == |outs| == |events|
    && (Alive(s, t) && View(s, t, v).Some? && (forall i :: 0 <= i < |events| ==> !Ends(events[i], outs[i], t)) ==>
          Alive(s', t) && View(s', t, v) == Some(Replay(events, outs, t, v, View(s, t, v).value)))
    && (forall i :: 0 <= i < |events| && losses[i] > 0 ==> MayLeak(events[i], outs[i]))
  }

  lemma AccountNone(s: State, t: nat, v: nat)
    ensures Account(s, s, [], [], [], t, v) && Sum([]) == 0
  {
  }

  lemma AccountIs(s: State, s': State, events: seq<Event>, outs: seq<Outcome>, losses: seq<nat>, t: nat, v: nat)
    requires Account(s, s', events, outs, losses, t, v)
    ensures |losses| == |outs| == |events|
    ensures Alive(s, t) && View(s, t, v).Some? && (forall i :: 0 <= i < |events| ==> !Ends(events[i], outs[i], t)) ==>
      Alive(s', t) && View(s', t, v) == Some(Replay(events, outs, t, v, View(s, t, v).value))
    ensures forall i :: 0 <= i < |events| && losses[i] > 0 ==> MayLeak(events[i], outs[i])
  {
    hide View;
  }

  lemma AccountMore(s: State, s1: State, s2: State, events: seq<Event>, outs: seq<Outcome>, losses: seq<nat>,
                    e: Event, out: Outcome, loss: nat, t: nat, v: nat)
    requires Account(s, s1, events, outs, losses, t, v) && Effect(s1, s2, e, out, t, v)
    requires loss > 0 ==> MayLeak(e, out)
    ensures Account(s, s2, events + [e], outs + [out], losses + [loss], t, v)
    ensures Sum(losses + [loss]) == Sum(losses) + loss
  {
    hide View, Ends;
    var n := |events|;
    var es, os := events + [e], outs + [out];
    assert es[..n] == events && os[..n] == outs && (losses + [loss])[..n] == losses;
    if forall i :: 0 <= i < n + 1 ==> !Ends(es[i], os[i], t) {
      forall i | 0 <= i < n ensures !Ends(events[i], outs[i], t) {
        assert !Ends(es[i], os[i], t);
      }
      assert !Ends(es[n], os[n], t);
    }
  }

  lemma SeenSame(s: State, s': State, t: nat, v: nat)
    requires SameViews(s, s') && v < VPNS
    ensures View(s', t, v) == View(s, t, v)
  {
  }

  lemma SeenHeap(s: State, s': State, u: nat, from: nat, to: nat, lost: nat, t: nat, v: nat)
    requires HeapPagesOnly(s, s', u, from, to, lost) && v < VPNS && View(s, t, v).Some?
    ensures View(s', t, v) == View(s, t, v)
  {
    hide View;
  }

  lemma SeenOthers(s: State, s': State, u: nat, w: nat, t: nat, v: nat)
    requires OthersKept(s, s', u, w) && v < VPNS && v != w
    ensures View(s', t, v) == View(s, t, v)
  {
  }

  lemma SeenLost(s: State, s': State, u: nat, t: nat, v: nat)
    requires NothingLost(s, s', u) && Ordinary(v)
    ensures View(s', t, v) == View(s, t, v)
  {
    hide View;
  }

  lemma SeenWindows(s: State, s': State, t: nat, v: nat)
    requires WindowsOnly(s, s') && Ordinary(v)
    ensures View(s', t, v) == View(s, t, v)
  {
  }
}
