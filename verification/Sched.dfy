/** The round-robin scheduler: user tasks share the processor by swapping the
    interrupt frame; the REPL, task 0, runs when no user task can. */
module Sched {
  import opened Wrappers

  const TASK_MAX := 16

  datatype TaskState = Runnable | Running | Blocked | Zombie

  /** A register frame as the interrupt entry pushes it. */
  datatype Frame = Frame(rip: nat, cs: nat, rflags: nat, rsp: nat, ss: nat, general: seq<nat>)

  /** `sched_entry_frame`: where a task starts. */
  function EntryFrame(): Frame { Frame(0x100_0000_0000, 0x1B, 0x202, 0x100_F001_0000, 0x23, seq(17, _ => 0)) }

  datatype Task = Task(pid: nat, state: TaskState, user: bool, started: bool, ctx: Frame, wake: nat, onKey: bool)

  function Unused(): Task { Task(0, Runnable, false, false, Frame(0, 0, 0, 0, 0, []), 0, false) }

  predicate Ready(k: Task) { k.user && k.state == Runnable }

  // ---- the choice ----

  /** Slots after `last`, in the cyclic order of the search, that the choice tries
      before slot `t`; slot 0 is never tried. */
  function Before(last: nat, t: nat): (d: int)
    requires last < TASK_MAX && 1 <= t < TASK_MAX
    ensures 0 <= d <= TASK_MAX - 2
  {
    if last < t then t - last - 1 else TASK_MAX - 1 - last + t - 1
  }

  /** `idx` is what `sched_pick_user` finds: ready, and no ready slot is tried
      before it. 0 stands for none. */
  ghost predicate Picked(tasks: seq<Task>, last: nat, idx: nat)
    requires |tasks| == TASK_MAX && last < TASK_MAX
  {
    if idx == 0 then forall t :: 1 <= t < TASK_MAX ==> !Ready(tasks[t])
    else idx < TASK_MAX && Ready(tasks[idx]) && forall t ::
      1 <= t < TASK_MAX && Before(last, t) < Before(last, idx) ==> !Ready(tasks[t])
  }

  /** One pick brings every ready task that is not picked nearer. */
  lemma Nearer(tasks: seq<Task>, last: nat, idx: nat, t: nat)
    requires |tasks| == TASK_MAX && last < TASK_MAX && Picked(tasks, last, idx) && 1 <= t < TASK_MAX && Ready(tasks[t])
    ensures 1 <= idx < TASK_MAX && (idx != t ==> Before(idx, t) < Before(last, t))
  {
  }

  /** The `k`-th pick chooses another task although `t` is ready. */
  ghost predicate PassedOver(tables: seq<seq<Task>>, lasts: seq<nat>, k: nat, t: nat) {
    && k < |tables| && k + 1 < |lasts| && t < TASK_MAX == |tables[k]| && lasts[k] < TASK_MAX && Ready(tables[k][t])
    && Picked(tables[k], lasts[k], lasts[k + 1]) && lasts[k + 1] != t
  }

  /** A task that stays ready is picked within 15 picks, whatever happens to the
      other tasks in between: `lasts[k + 1]` is the pick made, instead of it, after
      `lasts[k]`, with the task table `tables[k]` at that time. */
  lemma {:induction false} Fair(tables: seq<seq<Task>>, lasts: seq<nat>, t: nat)
    requires |lasts| == |tables| + 1 && 1 <= t < TASK_MAX && forall k :: 0 <= k < |lasts| ==> lasts[k] < TASK_MAX
    requires forall k :: 0 <= k < |tables| ==> PassedOver(tables, lasts, k, t)
    ensures |tables| <= Before(lasts[0], t) <= TASK_MAX - 2
    decreases |tables|
  {
    if |tables| > 0 {
      assert PassedOver(tables, lasts, 0, t);
      Nearer(tables[0], lasts[0], lasts[1], t);
      forall k | 0 <= k < |tables| - 1 ensures PassedOver(tables[1..], lasts[1..], k, t) {
        assert PassedOver(tables, lasts, k + 1, t);
      }
      Fair(tables[1..], lasts[1..], t);
    }
  }

  // ---- the machine ----

  /** Who runs next, and with what registers. */
  datatype Resume = Repl | User(t: nat, frame: Frame)

  class Scheduler {
    const tasks: array<Task>
    var current: nat
    var last: nat
    var nextPid: nat
    ghost var saved: seq<Option<Frame>>   // the frame each task was last interrupted with, since it was made

    /** A task is running exactly if it is the current user task; the REPL's slot
        is no user task; what is to be restored is what was saved last. */
    ghost predicate Valid()
      reads this, tasks
    {
      && tasks.Length == TASK_MAX == |saved| && current < TASK_MAX && last < TASK_MAX
      && !tasks[0].user && tasks[0].state == Runnable
      && (forall t :: 0 <= t < TASK_MAX ==> (tasks[t].state == Running <==> t == current != 0))
      && (current != 0 ==> tasks[current].user && tasks[current].started)
      && nextPid > 0 && (forall t :: 1 <= t < TASK_MAX && tasks[t].user ==> tasks[t].pid != 0)
      && (forall t :: 1 <= t < TASK_MAX && tasks[t].user && t != current && tasks[t].state != Zombie ==>
            if tasks[t].started then saved[t] == Some(tasks[t].ctx) else saved[t] == None)
    }

    constructor ()
      ensures Valid() && current == 0 && fresh(tasks)
    {
      tasks := new Task[TASK_MAX](_ => Unused());
      current, last, nextPid, saved := 0, 0, 1, seq(TASK_MAX, _ => None);
    }

    /** `sched_pick_user`. */
    method PickUser() returns (idx: nat)
      requires tasks.Length == TASK_MAX && last < TASK_MAX
      modifies `last
      ensures Picked(tasks[..], old(last), idx) && last == (if idx == 0 then old(last) else idx) && last < TASK_MAX
    {
      var i := 0;
      while i < TASK_MAX
        invariant i <= TASK_MAX && last == old(last)
        invariant forall t :: 1 <= t < TASK_MAX && Tried(last, i, t) ==> !Ready(tasks[t])
      {
        idx := (last + 1 + i) % TASK_MAX;
        if idx != 0 && Ready(tasks[idx]) {
          assert forall t :: 1 <= t < TASK_MAX && Before(last, t) < Before(last, idx) ==> Tried(last, i, t);
          last := idx;
          return;
        }
        i := i + 1;
      }
      assert forall t :: 1 <= t < TASK_MAX ==> Tried(last, TASK_MAX, t);
      idx := 0;
    }

    /** `sched_switch_to_next`: the next ready user task gets the frame that was
        saved for it last, or starts; the REPL is resumed only if there is none. */
    method SwitchToNext() returns (r: Resume)
      requires Parked()
      modifies this`current, this`last, tasks
      ensures Valid() && Switched(old(tasks[..]), old(last), old(saved), r)
      ensures saved == old(saved) && OthersKept(old(tasks[..]), tasks[..], current)
    {
      var next := PickUser();
      if next == 0 {
        current := 0;
        return Repl;
      }
      r := Enter(next);
    }

    /** The task `next` runs. */
    method Enter(next: nat) returns (r: Resume)
      requires Parked() && 1 <= next < TASK_MAX && Ready(tasks[next])
      modifies this`current, tasks
      ensures Valid() && current == next && r == User(next, if saved[next].Some? then
        saved[next].value else EntryFrame())
      ensures OthersKept(old(tasks[..]), tasks[..], next)
    {
      current := next;
      var k := tasks[next];
      if !k.started {
        k := k.(ctx := EntryFrame(), started := true);
      }
      tasks[next] := k.(state := Running);
      r := User(next, k.ctx);
    }

    /** No user task is running: the state between leaving one and entering another. */
    ghost predicate Parked()
      reads this, tasks
    {
      && tasks.Length == TASK_MAX == |saved| && last < TASK_MAX && !tasks[0].user && tasks[0].state == Runnable
      && (forall t :: 0 <= t < TASK_MAX ==> tasks[t].state != Running)
      && nextPid > 0 && (forall t :: 1 <= t < TASK_MAX && tasks[t].user ==> tasks[t].pid != 0)
      && (forall t :: 1 <= t < TASK_MAX && tasks[t].user && tasks[t].state != Zombie ==>
            if tasks[t].started then saved[t] == Some(tasks[t].ctx) else saved[t] == None)
    }

    /** Who is resumed, given the table and the last pick before. */
    ghost predicate Switched(before: seq<Task>, lastBefore: nat, savedBefore: seq<Option<Frame>>, r: Resume)
      reads this
    {
      && |before| == TASK_MAX == |savedBefore| && lastBefore < TASK_MAX
      && match r
         case Repl => Picked(before, lastBefore, 0) && current == 0 && last == lastBefore
         case User(t, f) => Picked(before, lastBefore, t) && t < TASK_MAX && current == last == t != 0
                            && f == if savedBefore[t].Some? then savedBefore[t].value else EntryFrame()
    }

    /** The REPL gives way, if a user task is ready. */
    method YieldToUser() returns (r: Resume)
      requires Valid() && current == 0
      modifies this`current, this`last, tasks
      ensures Valid() && Switched(old(tasks[..]), old(last), old(saved), r) && saved == old(saved)
      ensures OthersKept(old(tasks[..]), tasks[..], current)
    {
      r := SwitchToNext();
    }

    /** The running task ends. */
    method Exit() returns (r: Resume)
      requires Valid() && current != 0
      modifies this`current, this`last, tasks
      ensures Valid() && saved == old(saved)
      ensures var left := old(tasks[..])[old(current) := old(tasks[current]).(state := Zombie)];
        Switched(left, old(last), saved, r) && OthersKept(left, tasks[..], current)
    {
      ghost var before := tasks[..];
      tasks[current] := tasks[current].(state := Zombie);
      assert tasks[..] == before[current := tasks[current]];
      r := SwitchToNext();
    }

    /** The running task is interrupted with frame `f` and leaves the processor in
        state `state`: `sched_preempt` and `sched_block_user`. */
    method Leave(f: Frame, state: TaskState, wake: nat, onKey: bool) returns (r: Resume)
      requires Valid() && current != 0 && (state == Runnable || state == Blocked)
      modifies this`current, this`last, this`saved, tasks
      ensures Valid() && saved == old(saved)[old(current) := Some(f)]
      ensures var left := old(tasks[..])[old(current) := LeftAs(old(tasks[current]), f, state, wake, onKey)];
        Switched(left, old(last), saved, r) && OthersKept(left, tasks[..], current)
    {
      ghost var before := tasks[..];
      tasks[current] := LeftAs(tasks[current], f, state, wake, onKey);
      saved := saved[current := Some(f)];
      assert tasks[..] == before[current := tasks[current]];
      r := SwitchToNext();
    }

    /** `sched_on_tick`: sleepers whose time has come wake, then the running user
        task, if there is one, is preempted. */
    method OnTick(now: nat, f: Frame) returns (r: Option<Resume>)
      requires Valid()
      modifies this`current, this`last, this`saved, tasks
      ensures Valid() && (r.None? <==> old(current) == 0)
      ensures r.None? ==>
        tasks[..] == Woken(old(tasks[..]), now) && saved == old(saved) && last == old(last) && current == 0
      ensures r.Some? ==> saved == old(saved)[old(current) := Some(f)]
      ensures r.Some? ==>
        var left := Woken(old(tasks[..]), now)[old(current) := LeftAs(old(tasks[current]), f, Runnable,
          old(tasks[current]).wake, old(tasks[current]).onKey)];
        Switched(left, old(last), saved, r.value)
    {
      var i := 1;
      while i < TASK_MAX
        modifies tasks
        invariant 1 <= i <= TASK_MAX && forall t ::
          0 <= t < TASK_MAX ==> tasks[t] == if t < i then Woken(old(tasks[..]), now)[t] else old(tasks[t])
      {
        if tasks[i].state == Blocked && tasks[i].wake != 0 && tasks[i].wake <= now {
          tasks[i] := tasks[i].(state := Runnable, wake := 0);
        }
        i := i + 1;
      }
      assert tasks[..] == Woken(old(tasks[..]), now);
      if current == 0 {
        return None;
      }
      var resume := Leave(f, Runnable, tasks[current].wake, tasks[current].onKey);
      r := Some(resume);
    }

    /** `sched_on_key`. */
    method OnKey()
      requires Valid()
      modifies tasks
      ensures Valid() && tasks[..] == KeyWoken(old(tasks[..]))
    {
      var i := 1;
      while i < TASK_MAX
        invariant 1 <= i <= TASK_MAX && forall t ::
          0 <= t < TASK_MAX ==> tasks[t] == if t < i then KeyWoken(old(tasks[..]))[t] else old(tasks[t])
      {
        if tasks[i].state == Blocked && tasks[i].onKey {
          tasks[i] := tasks[i].(state := Runnable, onKey := false);
        }
        i := i + 1;
      }
      assert tasks[..] == KeyWoken(old(tasks[..]));
    }

    /** `sched_spawn`, as far as the scheduler sees it: the lowest slot that was
        never used or whose task has exited; `ok` says whether memory sufficed.
        A slot that is taken is never that of the running task. */
    method Spawn(ok: bool) returns (slot: nat)
      requires Valid()
      modifies this`nextPid, this`saved, tasks
      ensures Valid() && slot < TASK_MAX && (slot != 0 ==> slot != current && Vacant(old(tasks[slot])))
      ensures slot == 0 ==>
        (forall t :: 1 <= t < TASK_MAX ==> !Vacant(old(tasks[t]))) && tasks[..] == old(tasks[..]) && saved == old(saved)
      ensures slot != 0 ==>
        OthersKept(old(tasks[..]), tasks[..], slot) && Ready(tasks[slot]) == ok && saved == old(saved)[slot := None]
    {
      slot := 1;
      while slot < TASK_MAX && !Vacant(tasks[slot])
        invariant 1 <= slot <= TASK_MAX && forall t :: 1 <= t < slot ==> !Vacant(tasks[t])
      {
        slot := slot + 1;
      }
      if slot == TASK_MAX {
        return 0;
      }
      tasks[slot] := Unused();
      saved := saved[slot := None];
      if ok {
        tasks[slot] := Unused().(pid := nextPid, user := true);
        nextPid := nextPid + 1;
      }
    }
  }

  // ---- runs ----

  /** What can happen; frames come from the interrupt entry. */
  datatype Event = Yield | Tick(now: nat, frame: Frame) | Key | Preempt(frame: Frame) | Block(frame: Frame, wake: nat,
    onKey: bool)
    | Exit | Spawn(ok: bool)

  // ---- what a run looks like from outside ----

  /** An event, the task that ran before it (0: the REPL), who was resumed by it,
      and the slot a spawn took. */
  datatype Seen = Seen(event: Event, running: nat, resume: Option<Resume>, slot: nat)

  function FrameIn(e: Event): Option<Frame> {
    match e
    case Tick(_, f) => Some(f)
    case Preempt(f) => Some(f)
    case Block(f, _, _) => Some(f)
    case _ => None
  }

  /** The frame each task was last interrupted with, since it was made. */
  function SavedIn(base: seq<Option<Frame>>, log: seq<Seen>): (r: seq<Option<Frame>>)
    ensures |r| == |base|
  {
    if log == [] then base
    else
      var o, before := log[|log| - 1], SavedIn(base, log[..|log| - 1]);
      if FrameIn(o.event).Some? && 0 < o.running < |base| then before[o.running := FrameIn(o.event)]
      else if o.event.Spawn? && 0 < o.slot < |base| then before[o.slot := None]
      else before
  }

  /** Who runs after all that. */
  function RunningIn(first: nat, log: seq<Seen>): nat {
    if log == [] then first
    else match log[|log| - 1].resume
      case Some(User(t, _)) => t
      case Some(Repl) => 0
      case None => RunningIn(first, log[..|log| - 1])
  }

  function ResumesIn(log: seq<Seen>): seq<Resume> {
    if log == [] then []
    else
      var o, before := log[|log| - 1], ResumesIn(log[..|log| - 1]);
      if o.resume.Some? then before + [o.resume.value] else before
  }

  /** The task resumed by the `k`-th event gets the very frame it was last
      interrupted with, or starts. */
  predicate RightFrame(base: seq<Option<Frame>>, log: seq<Seen>, k: nat)
    requires k < |log|
  {
    match log[k].resume
    case Some(User(t, f)) => 0 < t < |base| && var saved := SavedIn(base, log[..k + 1])[t];
      f == if saved.Some? then saved.value else EntryFrame()
    case _ => true
  }

  /** The log of a run is honest about events and running tasks, and every
      resumed task gets its own frame. */
  ghost predicate Faithful(base: seq<Option<Frame>>, first: nat, log: seq<Seen>, events: seq<Event>) {
    && |log| == |events|
    && forall k {:trigger log[k]} :: 0 <= k < |log| ==>
         log[k].event == events[k] && log[k].running == RunningIn(first, log[..k]) && RightFrame(base, log, k)
  }

  lemma FaithfulSnoc(base: seq<Option<Frame>>, first: nat, log: seq<Seen>, events: seq<Event>, o: Seen)
    requires Faithful(base, first, log, events) && o.running == RunningIn(first, log)
      && RightFrame(base, log + [o], |log|)
    ensures Faithful(base, first, log + [o], events + [o.event])
    ensures ResumesIn(log + [o]) == ResumesIn(log) + if o.resume.Some? then [o.resume.value] else []
  {
    var l := log + [o];
    forall k | 0 <= k < |l| ensures l[k].event == (events + [o.event])[k] && l[k].running == RunningIn(first, l[..k])
      && RightFrame(base, l, k) {
      if k < |log| {
        assert l[k] == log[k] && l[..k] == log[..k] && l[..k + 1] == log[..k + 1];
        assert RightFrame(base, log, k);
      } else {
        assert l[..k] == log;
      }
    }
    assert l[..|l| - 1] == log;
  }

  /** One choice: another slot, or none and the last pick stays. */
  ghost predicate Chosen(table: seq<Task>, last: nat, last': nat) {
    |table| == TASK_MAX && last < TASK_MAX && (if last' == last && Picked(table, last, 0) then
      true else last' != 0 && Picked(table, last, last'))
  }

  /** All choices of a run, with the table at the time of each. */
  ghost predicate Choices(tables: seq<seq<Task>>, lasts: seq<nat>) {
    |lasts| == |tables| + 1 && lasts[0] < TASK_MAX && forall k :: 0 <= k < |tables| ==> ChoiceAt(tables, lasts, k)
  }

  ghost predicate ChoiceAt(tables: seq<seq<Task>>, lasts: seq<nat>, k: nat) {
    k < |tables| && k + 1 < |lasts| && Chosen(tables[k], lasts[k], lasts[k + 1])
  }

  lemma ChoicesSnoc(tables: seq<seq<Task>>, lasts: seq<nat>, table: seq<Task>, last': nat)
    requires Choices(tables, lasts) && Chosen(table, lasts[|lasts| - 1], last')
    ensures Choices(tables + [table], lasts + [last'])
  {
    forall k | 0 <= k < |tables| + 1 ensures ChoiceAt(tables + [table], lasts + [last'], k) {
      if k < |tables| { assert ChoiceAt(tables, lasts, k); }
    }
  }

  lemma SwitchedChosen(s: Scheduler, before: seq<Task>, last: nat, saved: seq<Option<Frame>>, r: Resume)
    requires s.Switched(before, last, saved, r)
    ensures Chosen(before, last, s.last)
  {
  }

  /** In any run, whatever its events, a task that is ready at every choice is
      chosen at one of any 15 in a row. */
  lemma NeverStarved(tables: seq<seq<Task>>, lasts: seq<nat>, t: nat)
    requires Choices(tables, lasts) && 1 <= t < TASK_MAX && |tables| > TASK_MAX - 2
    requires forall k :: 0 <= k < |tables| && |tables[k]| == TASK_MAX ==> Ready(tables[k][t])
    ensures t in lasts[1..]
  {
    if t !in lasts[1..] {
      forall k | 0 <= k < |tables| ensures PassedOver(tables, lasts, k, t) {
        assert ChoiceAt(tables, lasts, k) && lasts[1..][k] == lasts[k + 1];
      }
      forall k | 0 <= k < |lasts| ensures lasts[k] < TASK_MAX {
        if k > 0 { assert ChoiceAt(tables, lasts, k - 1); }
      }
      Fair(tables, lasts, t);
    }
  }

  /** Every run keeps the scheduler in order, its choices are the round-robin
      ones, and every task it resumes gets the frame it was last interrupted
      with; an event that cannot happen in the state at hand is passed by. */
  method Run(s: Scheduler, events: seq<Event>)
    returns (resumes: seq<Resume>, ghost tables: seq<seq<Task>>, ghost lasts: seq<nat>, ghost log: seq<Seen>)
    requires s.Valid()
    modifies s, s.tasks
    ensures s.Valid() && Choices(tables, lasts) && |resumes| == |tables| && lasts[0] == old(s.last)
      && lasts[|lasts| - 1] == s.last
    ensures Faithful(old(s.saved), old(s.current), log, events) && resumes == ResumesIn(log)
    ensures s.current == RunningIn(old(s.current), log) && s.saved == SavedIn(old(s.saved), log)
  {
    resumes, tables, lasts, log := [], [], [s.last], [];
    var i := 0;
    while i < |events|
      invariant i <= |events| && s.Valid() && Choices(tables, lasts) && |resumes| == |tables|
      invariant lasts[0] == old(s.last) && lasts[|lasts| - 1] == s.last
      invariant Faithful(old(s.saved), old(s.current), log, events[..i]) && resumes == ResumesIn(log)
      invariant s.current == RunningIn(old(s.current), log) && s.saved == SavedIn(old(s.saved), log)
    {
      hide Choices, Chosen, Faithful, Picked;
      ghost var table, o;
      ghost var saved, running := s.saved, s.current;
      var r;
      r, table, o := Step(s, events[i]);
      LogNext(old(s.saved), old(s.current), log, o, saved, s.saved);
      FaithfulSnoc(old(s.saved), old(s.current), log, events[..i], o);
      log := log + [o];
      if r.Some? {
        ChoicesSnoc(tables, lasts, table, s.last);
        resumes, tables, lasts := resumes + [r.value], tables + [table], lasts + [s.last];
      }
      assert events[..i + 1] == events[..i] + [events[i]];
      i := i + 1;
    }
    assert events[..i] == events;
  }

  /** What one more observation makes of the log. */
  lemma LogNext(base: seq<Option<Frame>>, first: nat, log: seq<Seen>, o: Seen, saved: seq<Option<Frame>>,
      saved': seq<Option<Frame>>)
    requires saved == SavedIn(base, log) && saved' == SavedIn(saved, [o]) && RightFrame(saved, [o], 0)
    ensures saved' == SavedIn(base, log + [o]) && RightFrame(base, log + [o], |log|)
    ensures RunningIn(first, log + [o]) == RunningIn(RunningIn(first, log), [o])
  {
    var l := log + [o];
    assert l[..|l| - 1] == log && [o][..0] == [] && l[..|log| + 1] == l && [o][..1] == [o];
  }

  /** The effect of one observation. */
  lemma SeenOnce(base: seq<Option<Frame>>, first: nat, o: Seen)
    ensures SavedIn(base, [o]) ==
      if FrameIn(o.event).Some? && 0 < o.running < |base| then base[o.running := FrameIn(o.event)]
      else if o.event.Spawn? && 0 < o.slot < |base| then base[o.slot := None] else base
    ensures RunningIn(first, [o]) == match o.resume case Some(User(t, _)) => t case Some(Repl) => 0 case None => first
    ensures [o][..1] == [o]
  {
    assert [o][..0] == [];
  }

  method Step(s: Scheduler, e: Event) returns (r: Option<Resume>, ghost table: seq<Task>, ghost o: Seen)
    requires s.Valid()
    modifies s, s.tasks
    ensures s.Valid() && (r.Some? ==> Chosen(table, old(s.last), s.last)) && (r.None? ==> s.last == old(s.last))
    ensures o.event == e && o.running == old(s.current) && o.resume == r && s.current == RunningIn(old(s.current), [o])
    ensures s.saved == SavedIn(old(s.saved), [o]) && RightFrame(old(s.saved), [o], 0)
  {
    hide Picked, SavedIn, RunningIn;
    r, table := None, [];
    ghost var last, before, saved, running := s.last, s.tasks[..], s.saved, s.current;
    var slot := 0;
    match e {
      case Yield =>
        if s.current == 0 {
          table := before;
          var resume := s.YieldToUser();
          SwitchedChosen(s, table, last, s.saved, resume);
          r := Some(resume);
        }
      case Tick(now, f) =>
        r := s.OnTick(now, f);
        if r.Some? {
          table := Woken(before, now)[running := LeftAs(before[running], f, Runnable, before[running].wake,
            before[running].onKey)];
          SwitchedChosen(s, table, last, s.saved, r.value);
        }
      case Key => s.OnKey();
      case Preempt(f) =>
        if s.current != 0 {
          var k := s.tasks[s.current];
          table := before[s.current := LeftAs(k, f, Runnable, k.wake, k.onKey)];
          var resume := s.Leave(f, Runnable, k.wake, k.onKey);
          SwitchedChosen(s, table, last, s.saved, resume);
          r := Some(resume);
        }
      case Block(f, wake, onKey) =>
        if s.current != 0 {
          table := before[s.current := LeftAs(s.tasks[s.current], f, Blocked, wake, onKey)];
          var resume := s.Leave(f, Blocked, wake, onKey);
          SwitchedChosen(s, table, last, s.saved, resume);
          r := Some(resume);
        }
      case Exit =>
        if s.current != 0 {
          table := before[s.current := s.tasks[s.current].(state := Zombie)];
          var resume := s.Exit();
          SwitchedChosen(s, table, last, s.saved, resume);
          r := Some(resume);
        }
      case Spawn(ok) => slot := s.Spawn(ok);
    }
    o := Seen(e, running, r, slot);
    SeenOnce(saved, running, o);
  }

  predicate Vacant(k: Task) { k.state == Zombie || k.pid == 0 }

  function LeftAs(k: Task, f: Frame, state: TaskState, wake: nat, onKey: bool): Task {
    k.(ctx := f, state := state, wake := wake, onKey := onKey)
  }

  ghost predicate OthersKept(a: seq<Task>, b: seq<Task>, t: nat) {
    |a| == |b| && forall u :: 0 <= u < |a| && u != t ==> b[u] == a[u]
  }

  function Woken(tasks: seq<Task>, now: nat): seq<Task> {
    seq(|tasks|, t requires 0 <= t < |tasks| =>
      if t > 0 && tasks[t].state == Blocked && tasks[t].wake != 0
        && tasks[t].wake <= now then tasks[t].(state := Runnable, wake := 0) else tasks[t])
  }

  function KeyWoken(tasks: seq<Task>): seq<Task> {
    seq(|tasks|, t requires 0 <= t < |tasks| =>
      if t > 0 && tasks[t].state == Blocked && tasks[t].onKey then
        tasks[t].(state := Runnable, onKey := false) else tasks[t])
  }

  /** Slot `t` is among the first `i` that the search from `last` looks at. */
  predicate Tried(last: nat, i: nat, t: nat) {
    (if t > last then t - last - 1 else TASK_MAX - 1 - last + t) < i
  }
}
