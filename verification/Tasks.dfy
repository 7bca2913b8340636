/** What the kernel keeps per task about memory, and when a state of the whole
    memory system is consistent. Pages are named by number (address / 4096). */
module Tasks {
  import opened Wrappers
  import opened Frames
  import opened PageTables
  import opened Paging

  const IMAGE := 0x1000_0000
  const SCRIPT := 0x100C_0000
  const HEAP := 0x100D_0000
  const STACK := 0x100F_0000
  const MODEL := 0x100F_1000
  const REGION_END := 0x1010_0000
  const MODEL_MAX := 0x4_0000     // most pages the model window can have
  const HEAP_BYTES := 0x20_0000
  const HEAP_PAGES := 512
  const SWAP_MAX_PER_TASK := 128

  /** A user page outside the model window: image, script, heap or stack. */
  predicate Ordinary(v: int) { IMAGE <= v < MODEL }

  predicate InWindow(v: int) { MODEL <= v < MODEL + MODEL_MAX }

  datatype SwapEnt = SwapEnt(key: nat, slot: nat)

  /** `root` is the frame of the top-level table, 0 if there is none; `frames`
      and `resident` are empty while they are not allocated. */
  datatype Task = Task(user: bool, root: nat, heapUsed: nat, heapPages: nat,
                       budgetKb: nat, weightsKb: nat, faults: nat, frames: seq<nat>, resident: seq<bool>,
                       swapMap: seq<SwapEnt>)

  function Residents(r: seq<bool>): nat { |r| - Clear(r) }

  // ---- the swap list of a task ----

  /** Index of the entry for `key`; the length if there is none. */
  function Find(m: seq<SwapEnt>, key: nat): (i: nat)
    ensures i <= |m| && (i < |m| ==> m[i].key == key)
    ensures forall j :: 0 <= j < i ==> m[j].key != key
  {
    if m == [] then 0 else if m[0].key == key then 0 else 1 + Find(m[1..], key)
  }

  predicate HasKey(m: seq<SwapEnt>, key: nat) { Find(m, key) < |m| }

  /** The last entry takes the place of entry `i`. */
  function Removed(m: seq<SwapEnt>, i: nat): seq<SwapEnt>
    requires i < |m|
  {
    m[i := m[|m| - 1]][..|m| - 1]
  }

  predicate DistinctKeys(m: seq<SwapEnt>) {
    forall i, j :: 0 <= i < j < |m| ==> m[i].key != m[j].key
  }

  lemma FindOf(m: seq<SwapEnt>, i: nat)
    requires DistinctKeys(m) && i < |m|
    ensures Find(m, m[i].key) == i
  {
  }

  /** Removal takes away that entry and no other. */
  lemma RemovedIs(m: seq<SwapEnt>, i: nat)
    requires DistinctKeys(m) && i < |m|
    ensures DistinctKeys(Removed(m, i))
    ensures forall e :: e in Removed(m, i) <==> e in m && e != m[i]
    ensures forall e :: e in Removed(m, i) ==> e.key != m[i].key
  {
    var r := Removed(m, i);
    forall e | e in m && e != m[i] ensures e in r {
      var j :| 0 <= j < |m| && m[j] == e;
      assert r[if j == |m| - 1 then i else j] == e;
    }
  }

  lemma RemovedFind(m: seq<SwapEnt>, i: nat, k: nat)
    requires DistinctKeys(m) && i < |m|
    ensures k == m[i].key ==> !HasKey(Removed(m, i), k)
    ensures k != m[i].key ==> HasKey(Removed(m, i), k) == HasKey(m, k)
    ensures k != m[i].key && HasKey(m, k) ==> Removed(m, i)[Find(Removed(m, i), k)] == m[Find(m, k)]
  {
    hide Find;
    var r := Removed(m, i);
    RemovedIs(m, i);
    if HasKey(r, k) {
      assert r[Find(r, k)] in m;
    }
    if k != m[i].key && HasKey(m, k) {
      var j := Find(m, k);
      FindOf(r, if j == |m| - 1 then i else j);
    }
  }

  lemma AppendedIs(m: seq<SwapEnt>, e: SwapEnt)
    requires DistinctKeys(m) && !HasKey(m, e.key)
    ensures DistinctKeys(m + [e])
    ensures forall x :: x in m + [e] <==> x in m || x == e
    ensures forall k ::
      k != e.key ==>
      HasKey(m + [e], k) == HasKey(m, k) && (HasKey(m, k) ==> (m + [e])[Find(m + [e], k)] == m[Find(m, k)])
    ensures HasKey(m + [e], e.key) && (m + [e])[Find(m + [e], e.key)] == e
  {
    var m' := m + [e];
    FindOf(m', |m|);
    forall k | k != e.key ensures HasKey(m', k) == HasKey(m, k) && (HasKey(m, k) ==> m'[Find(m', k)] == m[Find(m, k)]) {
      if HasKey(m, k) { FindOf(m', Find(m, k)); }
    }
  }

  // ---- one task ----

  /** Ordinary pages are read-write; model pages are read-only. */
  ghost predicate RightsOk(k: Task, tree: Tree) {
    && (forall v {:trigger Leaf(k.root, v)} ::
       Ordinary(v) && Leaf(k.root, v) in tree ==> tree[Leaf(k.root, v)] % 4096 == 7)
    && (forall v {:trigger Leaf(k.root, v)} ::
       InWindow(v) && Leaf(k.root, v) in tree ==> tree[Leaf(k.root, v)] % 4096 == 5)
  }

  /** Heap pages not handed out yet are neither mapped nor swapped out. */
  ghost predicate HeapOk(k: Task, tree: Tree) {
    && k.heapUsed <= 4096 * k.heapPages && k.heapPages <= HEAP_PAGES
    && forall v {:trigger Leaf(k.root, v)} :: HEAP + k.heapPages <= v < HEAP + HEAP_PAGES ==>
         Leaf(k.root, v) !in tree && !HasKey(k.swapMap, v)
  }

  /** A page that is swapped out is not mapped, but its tables are there. */
  ghost predicate EntOk(k: Task, tree: Tree, slots: seq<bool>, e: SwapEnt) {
    && Ordinary(e.key) && Leaf(k.root, e.key) !in tree && TableOf(k.root, e.key) in tree
    && e.slot < |slots| && slots[e.slot]
  }

  ghost predicate SwapOk(k: Task, tree: Tree, slots: seq<bool>) {
    && |k.swapMap| <= SWAP_MAX_PER_TASK && DistinctKeys(k.swapMap)
    && forall e :: e in k.swapMap ==> EntOk(k, tree, slots, e)
  }

  /** Bitmap, frame list and mapping agree about model page `p`, but that the
      mapping of a resident page may have been dropped. */
  ghost predicate ModelPageOk(k: Task, tree: Tree, p: nat) {
    var leaf := Leaf(k.root, MODEL + p);
    if p < |k.frames| && p < |k.resident| && k.resident[p] then leaf in tree ==> k.frames[p] == FrameOf(tree[leaf])
    else leaf !in tree && (p < |k.frames| ==> k.frames[p] == 0)
  }

  ghost predicate ModelOk(k: Task, tree: Tree, win: nat) {
    && |k.frames| == |k.resident| <= MODEL_MAX
    && (forall p :: 0 <= p < MODEL_MAX ==> ModelPageOk(k, tree, p))
    && (Residents(k.resident) > 0 ==> win <= |k.frames|)
  }

  ghost predicate TaskOk(k: Task, tree: Tree, slots: seq<bool>, win: nat) {
    if k.root == 0 then k.swapMap == [] && k.frames == [] && k.resident == []
    else
      && k.user && Root(k.root) in tree && UserOnly(tree, k.root)
      && RightsOk(k, tree) && HeapOk(k, tree) && SwapOk(k, tree, slots) && ModelOk(k, tree, win)
  }

  // ---- the whole memory system ----

  /** `owner` says whose page, task and key, each used slot holds; `making` is
      an address space that is being built for a task. */
  datatype State = State(bits: seq<bool>, ram: seq<Page>, tree: Tree, slots: seq<bool>, disk: seq<Page>,
                         tasks: seq<Task>, owner: map<nat, (nat, nat)>, active: bool, win: nat, making: nat)

  predicate RootKnown(tasks: seq<Task>, making: nat, r: nat) {
    (r == making && making != 0) || exists t :: 0 <= t < |tasks| && tasks[t].root == r && r != 0
  }

  ghost predicate RootsOk(s: State) {
    && (forall t, u :: 0 <= t < |s.tasks| && 0 <= u < |s.tasks| && s.tasks[t].root == s.tasks[u].root != 0 ==> t == u)
    && (forall n :: n in s.tree ==> RootKnown(s.tasks, s.making, n.root))
    && (forall t :: 0 <= t < |s.tasks| && s.making != 0 ==> s.tasks[t].root != s.making)
  }

  /** A slot is marked exactly when one entry of one task's list names it. */
  ghost predicate OwnersOk(s: State) {
    && (forall x: nat :: x in s.owner <==> x < |s.slots| && s.slots[x])
    && (forall t, e ::
       0 <= t < |s.tasks| && e in s.tasks[t].swapMap ==> e.slot in s.owner && s.owner[e.slot] == (t, e.key))
    && (forall x ::
       x in s.owner ==> s.owner[x].0 < |s.tasks| && SwapEnt(s.owner[x].1, x) in s.tasks[s.owner[x].0].swapMap)
    && (!s.active ==> s.owner == map[])
  }

  ghost predicate MemoryOk(s: State) {
    |s.ram| == |s.bits| && |s.disk| == |s.slots| && TreeOk(s.ram, s.tree) && Taken(s.bits, s.tree)
  }

  /** Model page `p` of task `t` counts as resident, but is not mapped. */
  ghost predicate Stray(s: State, t: nat, p: nat) {
    && t < |s.tasks| && s.tasks[t].root != 0 && p < |s.tasks[t].frames| == |s.tasks[t].resident|
    && s.tasks[t].resident[p] && Leaf(s.tasks[t].root, MODEL + p) !in s.tree
  }

  /** The frame of such a page is taken, for that page alone. */
  ghost predicate StraysOk(s: State) {
    && (forall t: nat, p: nat :: Stray(s, t, p) ==> Loose(s.bits, s.tree, s.tasks[t].frames[p]))
    && (forall t: nat, p: nat, u: nat, q: nat ::
       Stray(s, t, p) && Stray(s, u, q) && s.tasks[t].frames[p] == s.tasks[u].frames[q] ==> t == u && p == q)
  }

  ghost function Strays(s: State): set<(nat, nat)> {
    set t, p | 0 <= t < |s.tasks| && 0 <= p < |s.tasks[t].resident| && Stray(s, t, p) :: (t, p)
  }

  ghost predicate StateOk(s: State) {
    && MemoryOk(s) && RootsOk(s) && OwnersOk(s) && StraysOk(s)
    && 1 <= s.win <= MODEL_MAX
    && forall t :: 0 <= t < |s.tasks| ==> TaskOk(s.tasks[t], s.tree, s.slots, s.win)
  }

  /** The contents a task sees at a page, wherever they are kept. */
  function View(s: State, t: nat, v: nat): Option<Page>
  {
    if t >= |s.tasks| || s.tasks[t].root == 0 then None
    else
      var k := s.tasks[t];
      var leaf, i := Leaf(k.root, v), Find(k.swapMap, v);
      if leaf in s.tree then
        if FrameOf(s.tree[leaf]) < |s.ram| then Some(s.ram[FrameOf(s.tree[leaf])]) else None
      else if i < |k.swapMap| && k.swapMap[i].slot < |s.disk| then Some(s.disk[k.swapMap[i].slot])
      else None
  }

  /** No page of any task changes its contents, or becomes a stray or ceases to
      be one. */
  ghost predicate SameViews(s: State, s': State) {
    && (forall u: nat, w: nat :: w < VPNS ==> View(s', u, w) == View(s, u, w))
    && Strays(s') == Strays(s)
  }
}
