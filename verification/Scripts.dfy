/** The script of a new task: copied byte by byte, with its terminator, through
    the physical address of the first of its eight frames. Nothing says that the
    other seven follow that one in physical memory. */
module Scripts {
  import opened Wrappers
  import opened Word
  import opened Frames
  import opened PageTables
  import opened Paging
  import opened Tasks
  import opened Steps
  import opened Swapping
  import opened Residency
  import opened Lifecycle

  const TEXT_MAX := 32768

  // ---- bytes of memory ----

  function ByteOf(w: nat, k: nat): byte {
    if k == 0 then w % 256 else ByteOf(w / 256, k - 1)
  }

  function SetByte(w: nat, k: nat, b: byte): nat {
    if k == 0 then w / 256 * 256 + b else SetByte(w / 256, k - 1, b) * 256 + w % 256
  }

  lemma {:induction false} SetByteIs(w: nat, k: nat, b: byte, j: nat)
    ensures ByteOf(SetByte(w, k, b), j) == if j == k then b else ByteOf(w, j)
    decreases k
  {
    if k == 0 {
      assert SetByte(w, k, b) / 256 == w / 256;
    } else {
      assert SetByte(w, k, b) / 256 == SetByte(w / 256, k - 1, b);
      if j > 0 { SetByteIs(w / 256, k - 1, b, j - 1); }
    }
  }

  /** The byte at physical address `a`. */
  function ByteAt(ram: seq<Page>, a: nat): byte
    requires a / 4096 < |ram|
  {
    ByteOf(ram[a / 4096][a % 4096 / 8], a % 4096 % 8)
  }

  function Poked(ram: seq<Page>, a: nat, b: byte): (r: seq<Page>)
    ensures |r| == |ram| && forall g :: 0 <= g < |ram| && g != a / 4096 ==> r[g] == ram[g]
  {
    var f, i := a / 4096, a % 4096 / 8;
    if f < |ram| then ram[f := ram[f][i := SetByte(ram[f][i], a % 4096 % 8, b)]] else ram
  }

  lemma PokedByte(ram: seq<Page>, a: nat, b: byte, x: nat)
    requires x / 4096 < |ram|
    ensures ByteAt(Poked(ram, a, b), x) == if x == a then b else ByteAt(ram, x)
  {
    hide ByteOf, SetByte;
    SameAddress(a, x);
    if x / 4096 == a / 4096 && x % 4096 / 8 == a % 4096 / 8 {
      SetByteIs(ram[a / 4096][a % 4096 / 8], a % 4096 % 8, b, x % 4096 % 8);
    }
  }

  lemma SameAddress(a: nat, x: nat)
    ensures x / 4096 == a / 4096 && x % 4096 / 8 == a % 4096 / 8 && x % 4096 % 8 == a % 4096 % 8 ==> x == a
  {
    assert a == 4096 * (a / 4096) + (8 * (a % 4096 / 8) + a % 4096 % 8);
    assert x == 4096 * (x / 4096) + (8 * (x % 4096 / 8) + x % 4096 % 8);
  }

  lemma InFrame(f: nat, i: nat)
    requires i < 4096
    ensures (4096 * f + i) / 4096 == f && (4096 * f + i) % 4096 == i
  {
  }

  /** `memcpy` of `text` to physical address `a`; nothing is there beyond the
      last frame. */
  function Copied(ram: seq<Page>, a: nat, text: seq<byte>): (r: seq<Page>)
    ensures |r| == |ram|
    decreases |text|
  {
    if text == [] then ram else Copied(Poked(ram, a, text[0]), a + 1, text[1..])
  }

  lemma {:induction false} CopiedFrames(ram: seq<Page>, a: nat, text: seq<byte>, g: nat)
    requires g < |ram| && (g < a / 4096 || a + |text| <= 4096 * g)
    ensures Copied(ram, a, text)[g] == ram[g]
    decreases |text|
  {
    hide Poked;
    if text != [] {
      assert g != a / 4096;
      CopiedFrames(Poked(ram, a, text[0]), a + 1, text[1..], g);
    }
  }

  /** The copy puts every byte where it belongs, and no other byte changes. */
  lemma {:induction false} CopiedByte(ram: seq<Page>, a: nat, text: seq<byte>, x: nat)
    requires x / 4096 < |ram|
    ensures ByteAt(Copied(ram, a, text), x) == if a <= x < a + |text| then text[x - a] else ByteAt(ram, x)
    decreases |text|
  {
    hide ByteAt;
    if text != [] {
      PokedByte(ram, a, text[0], x);
      CopiedByte(Poked(ram, a, text[0]), a + 1, text[1..], x);
    }
  }

  lemma {:induction false} CopiedSnoc(ram: seq<Page>, a: nat, text: seq<byte>, b: byte)
    ensures Copied(ram, a, text + [b]) == Poked(Copied(ram, a, text), a + |text|, b)
    decreases |text|
  {
    hide Poked;
    if text == [] {
      assert ([] + [b])[1..] == [];
    } else {
      assert (text + [b])[1..] == text[1..] + [b];
      CopiedSnoc(Poked(ram, a, text[0]), a + 1, text[1..], b);
    }
  }

  // ---- what the copy does ----

  /** What is copied: at most 32 KiB of the script, and a terminator. */
  function Text(code: seq<byte>): seq<byte> {
    (if |code| > TEXT_MAX then code[..TEXT_MAX] else code) + [0]
  }

  ghost predicate ScriptFrame(s: State, f: nat) {
    && s.making != 0 && MakingOk(s.tree, s.making) && Leaf(s.making, SCRIPT) in s.tree
    && f == FrameOf(s.tree[Leaf(s.making, SCRIPT)])
  }

  ghost predicate ScriptCopied(s: State, s': State, f: nat, code: seq<byte>) {
    s' == s.(ram := Copied(s.ram, 4096 * f, Text(code)))
  }

  /** The page starts with the script and its terminator. */
  predicate HoldsText(page: Page, code: seq<byte>) {
    |code| < 4096 && (forall i :: 0 <= i < |code| ==> ByteOf(page[i / 8], i % 8) == code[i])
      && ByteOf(page[|code| / 8], |code| % 8) == 0
  }

  /** A script that fits in one page, terminator included, changes that page of
      the new space and nothing else. */
  lemma ShortScript(s: State, s': State, f: nat, code: seq<byte>)
    requires StateOk(s) && ScriptFrame(s, f) && ScriptCopied(s, s', f, code) && |code| < 4096
    ensures StateOk(s') && SameViews(s, s') && MadeKept(s, s', SCRIPT, SCRIPT + 1)
    ensures Made(s', SCRIPT).Some? && HoldsText(Made(s', SCRIPT).value, code)
  {
    hide PathOf, FrameOf, StateOk, View, MakingOk, Copied, SameViews, Made, MadeKept;
    PageFrame(s, Leaf(s.making, SCRIPT));
    forall g | 0 <= g < |s.ram| && g != f ensures s'.ram[g] == s.ram[g] {
      CopiedFrames(s.ram, 4096 * f, Text(code), g);
    }
    OneFrame(s, s', f);
    ScriptSeen(s, s', f, code);
  }

  lemma RootAt(s: State, r: nat)
    requires StateOk(s) && Root(r) in s.tree
    ensures FrameOf(s.tree[Root(r)]) == r < |s.ram|
  {
    hide FrameOf;
    RootFrame(s.ram, s.tree, r);
  }

  lemma PageFrame(s: State, n: Node)
    requires StateOk(s) && n in s.tree
    ensures 0 < FrameOf(s.tree[n]) < |s.ram|
  {
    assert NodeOk(s.tree, n, |s.ram|);
  }

  lemma ScriptSeen(s: State, s': State, f: nat, code: seq<byte>)
    requires ScriptFrame(s, f) && ScriptCopied(s, s', f, code) && |code| < 4096 && f < |s.ram|
    ensures Made(s', SCRIPT).Some? && HoldsText(Made(s', SCRIPT).value, code)
  {
    hide PathOf, FrameOf, MakingOk, Copied, ByteOf, Leaf;
    forall i | 0 <= i <= |code| ensures ByteOf(s'.ram[f][i / 8], i % 8) == Text(code)[i] {
      CopiedByte(s.ram, 4096 * f, Text(code), 4096 * f + i);
      InFrame(f, i);
    }
  }

  /** Memory changed in one frame, that of the script. */
  lemma OneFrame(s: State, s': State, f: nat)
    requires StateOk(s) && ScriptFrame(s, f) && s' == s.(ram := s'.ram) && |s'.ram| == |s.ram|
    requires forall g :: 0 <= g < |s.ram| && g != f ==> s'.ram[g] == s.ram[g]
    ensures StateOk(s') && SameViews(s, s') && MadeKept(s, s', SCRIPT, SCRIPT + 1)
  {
    hide StateOk, PathOf, FrameOf, SameViews, MadeKept;
    forall n | n in s.tree && n != Leaf(s.making, SCRIPT) ensures 0 < FrameOf(s.tree[n]) < |s.ram|
      && FrameOf(s.tree[n]) != f {
      PageFrame(s, n);
      FramesDiffer(s, n, Leaf(s.making, SCRIPT));
    }
    SlotsSame(s, s'.ram, Leaf(s.making, SCRIPT));
    assert ScriptPage(s, Leaf(s.making, SCRIPT), SCRIPT + 1);
    SparedKeeps(s, s', SCRIPT + 1);
  }

  lemma FramesDiffer(s: State, m: Node, n: Node)
    requires StateOk(s) && m in s.tree && n in s.tree && m != n
    ensures FrameOf(s.tree[m]) != FrameOf(s.tree[n])
  {
    hide FrameOf, SlotAgrees;
  }

  lemma SlotsSame(s: State, ram: seq<Page>, page: Node)
    requires StateOk(s) && page in s.tree && |page.path| == 4 && |ram| == |s.ram|
    requires forall n ::
      n in s.tree && n != page ==> FrameOf(s.tree[n]) < |s.ram| && ram[FrameOf(s.tree[n])] == s.ram[FrameOf(s.tree[n])]
    ensures TreeOk(ram, s.tree)
  {
    hide FrameOf, SlotAgrees, NodeOk;
    TreeKept(s.ram, s.tree, ram);
  }

  // ---- when the copy does harm ----

  /** Page `SCRIPT` of the space that is being built, or one behind it before `to`. */
  ghost predicate ScriptPage(s: State, n: Node, to: nat) {
    exists v: nat :: SCRIPT <= v < to && n == Leaf(s.making, v)
  }

  /** No table has lost or gained an entry, and no page but those of the script
      before `to` has changed. */
  ghost predicate Spared(s: State, ram: seq<Page>, to: nat) {
    && TreeOk(ram, s.tree)
    && forall n :: n in s.tree && |n.path| == 4 && !ScriptPage(s, n, to) ==>
         FrameOf(s.tree[n]) < |s.ram| == |ram| && ram[FrameOf(s.tree[n])] == s.ram[FrameOf(s.tree[n])]
  }

  lemma SparedKeeps(s: State, s': State, to: nat)
    requires StateOk(s) && s.making != 0 && MakingOk(s.tree, s.making) && s' == s.(ram := s'.ram)
      && |s'.ram| == |s.ram| && Spared(s, s'.ram, to) && SCRIPT <= to <= VPNS
    ensures StateOk(s') && SameViews(s, s') && MadeKept(s, s', SCRIPT, to)
  {
    hide PathOf, FrameOf, RootsOk, OwnersOk, StraysOk, TaskOk, Find, TreeOk, MakingOk, OneLeaf, ScriptPage;
    StoreOwners(s, s');
    StraysSame(s, s');
    forall u: nat, w: nat | w < VPNS ensures View(s', u, w) == View(s, u, w) {
      SparedView(s, s', to, u, w);
    }
    forall w: nat | w < VPNS && !(SCRIPT <= w < to) ensures Made(s', w) == Made(s, w) {
      OffScript(s, w, to);
    }
  }

  lemma OffScript(s: State, w: nat, to: nat)
    requires w < VPNS && to <= VPNS && !(SCRIPT <= w < to)
    ensures !ScriptPage(s, Leaf(s.making, w), to)
  {
    hide PathOf;
    forall v: nat | SCRIPT <= v < to ensures Leaf(s.making, v) != Leaf(s.making, w) {
      LeavesDiffer(s.making, v, w);
    }
  }

  lemma SparedView(s: State, s': State, to: nat, u: nat, w: nat)
    requires StateOk(s) && s.making != 0 && MakingOk(s.tree, s.making) && s' == s.(ram := s'.ram)
      && |s'.ram| == |s.ram| && Spared(s, s'.ram, to)
    ensures View(s', u, w) == View(s, u, w)
  {
    hide PathOf, FrameOf, OwnersOk, StraysOk, TaskOk, Find, TreeOk, MakingOk;
    if u < |s.tasks| && s.tasks[u].root != 0 && Leaf(s.tasks[u].root, w) in s.tree {
      NotMaking(s, u);
    }
  }

  /** Everything is in order after the copy: tables and bookkeeping, the kernel's
      slot `e` of every address space, what every task sees, and every page of
      the new space that is not one of the script's eight. */
  ghost predicate InOrder(s: State, s': State, e: nat) {
    && StateOk(s') && KernelShared(s'.ram, s'.tree, e)
    && SameViews(s, s') && MadeKept(s, s', SCRIPT, SCRIPT + 8)
  }

  /** Slot `i` of node `n` has a word that must not change: a word of a page, an
      entry in use, the kernel's entry. */
  predicate Fixed(tree: Tree, n: Node, i: nat) {
    |n.path| == 4 || Child(n, i) in tree || (n.path == [] && i == KERNEL)
  }

  /** Byte `b` may be written to offset `off` of node `n`: it is there already, or
      it is in an empty slot and does not set the present bit. */
  predicate Suits(s: State, n: Node, off: nat, b: byte)
    requires n in s.tree && FrameOf(s.tree[n]) < |s.ram| && off < 4096
  {
    if Fixed(s.tree, n, off / 8) then b == ByteOf(s.ram[FrameOf(s.tree[n])][off / 8], off % 8)
    else off % 8 == 0 ==> b % 2 == 0
  }

  /** How far behind the start of frame `f` byte `off` of node `n` lies. */
  function Distance(s: State, f: nat, n: Node, off: nat): int
    requires n in s.tree
  {
    4096 * (FrameOf(s.tree[n]) - f) + off
  }

  /** The copy of `text` writes to offset `off` of node `n`, which is no script page. */
  ghost predicate Reached(s: State, f: nat, text: seq<byte>, n: Node, off: nat)
    requires n in s.tree
  {
    && !ScriptPage(s, n, SCRIPT + 8) && off < 4096 && f < FrameOf(s.tree[n]) < |s.ram|
    && Distance(s, f, n, off) < |text|
  }

  /** The text, from the second frame on, suits whatever it falls on. All of this
      can be read off memory before the copy. */
  ghost predicate Fits(s: State, f: nat, text: seq<byte>) {
    forall n, off: nat {:trigger Distance(s, f, n, off)} ::
      n in s.tree && Reached(s, f, text, n, off) ==> Suits(s, n, off, text[Distance(s, f, n, off)])
  }

  /** The exact condition, for scripts of any length, on the state before the
      copy. */
  lemma CopyExact(s: State, s': State, f: nat, code: seq<byte>, e: nat)
    requires StateOk(s) && KernelShared(s.ram, s.tree, e) && ScriptFrame(s, f) && ScriptCopied(s, s', f, code)
    ensures InOrder(s, s', e) <==> Fits(s, f, Text(code))
  {
    hide StateOk, KernelShared, ScriptFrame, SameViews, MadeKept, Fits, Spared, Copied, Text;
    if Fits(s, f, Text(code)) {
      FitsSpares(s, s', f, code, e);
      assert s.making != 0 && MakingOk(s.tree, s.making) by { MakingAt(s, f); }
      SparedKeeps(s, s', SCRIPT + 8);
    }
    if InOrder(s, s', e) {
      InOrderFits(s, s', f, code, e);
    }
  }

  lemma MakingAt(s: State, f: nat)
    requires ScriptFrame(s, f)
    ensures s.making != 0 && MakingOk(s.tree, s.making)
  {
  }

  /** In particular it does no harm if no table or page of any address space lies
      behind the first frame as far as the script goes. */
  lemma NothingBehind(s: State, f: nat, text: seq<byte>)
    requires forall g: nat :: f < g && 4096 * (g - f) < |text| ==> !HasFrame(s.tree, g)
    ensures Fits(s, f, text)
  {
    hide FrameOf, ScriptPage, Suits;
    forall n, off: nat | n in s.tree && off < 4096 && f < FrameOf(s.tree[n]) < |s.ram|
      ensures Distance(s, f, n, off) >= |text|
    {
      assert HasFrame(s.tree, FrameOf(s.tree[n]));
    }
  }

  // ---- the bytes of a word ----

  /** The part of a word above its eight bytes, 0 in the machine. */
  function Rest(w: nat, k: nat): nat {
    if k == 0 then w else Rest(w / 256, k - 1)
  }

  lemma {:induction false} SameWord(v: nat, w: nat, k: nat)
    requires Rest(v, k) == Rest(w, k) && forall j: nat :: j < k ==> ByteOf(v, j) == ByteOf(w, j)
    ensures v == w
  {
    if k > 0 {
      assert v % 256 == ByteOf(v, 0) == ByteOf(w, 0) == w % 256;
      forall j: nat | j < k - 1 ensures ByteOf(v / 256, j) == ByteOf(w / 256, j) {
        assert ByteOf(v, j + 1) == ByteOf(w, j + 1);
      }
      SameWord(v / 256, w / 256, k - 1);
    }
  }

  lemma {:induction false} SetByteRest(w: nat, k: nat, b: byte, n: nat)
    requires k < n
    ensures Rest(SetByte(w, k, b), n) == Rest(w, n)
    decreases n
  {
    if k == 0 {
      assert SetByte(w, k, b) / 256 == w / 256;
    } else {
      assert SetByte(w, k, b) / 256 == SetByte(w / 256, k - 1, b);
      SetByteRest(w / 256, k - 1, b, n - 1);
    }
  }

  lemma {:induction false} CopiedRest(ram: seq<Page>, a: nat, text: seq<byte>, g: nat, i: nat)
    requires g < |ram| && i < 512
    ensures Rest(Copied(ram, a, text)[g][i], 8) == Rest(ram[g][i], 8)
    decreases |text|
  {
    hide Rest, SetByte;
    if text != [] {
      CopiedRest(Poked(ram, a, text[0]), a + 1, text[1..], g, i);
      SetByteRest(ram[g][i], a % 4096 % 8, text[0], 8);
    }
  }

  /** What the copy leaves at byte `j` of word `i` of frame `g`. */
  lemma CopiedAt(ram: seq<Page>, f: nat, text: seq<byte>, g: nat, off: nat)
    requires g < |ram| && off < 4096
    ensures var d := 4096 * (g - f) + off;
      ByteOf(Copied(ram, 4096 * f, text)[g][off / 8], off % 8) ==
        if 0 <= d < |text| then text[d] else ByteOf(ram[g][off / 8], off % 8)
  {
    hide Copied, ByteOf;
    InFrame(g, off);
    CopiedByte(ram, 4096 * f, text, 4096 * g + off);
  }

  /** If byte `j` of a word that is now `w` is written to, it is there already. */
  predicate Agrees(text: seq<byte>, d: int, w: nat, j: nat) {
    0 <= d + j < |text| ==> text[d + j] == ByteOf(w, j)
  }

  /** A word keeps its value if each byte written to it was there. */
  lemma WordKept(ram: seq<Page>, f: nat, text: seq<byte>, g: nat, i: nat, d: int)
    requires g < |ram| && i < 512 && d == 4096 * (g - f) + 8 * i
    requires forall j: nat :: j < 8 ==> Agrees(text, d, ram[g][i], j)
    ensures Copied(ram, 4096 * f, text)[g][i] == ram[g][i]
  {
    hide Copied, ByteOf, Rest;
    var w := Copied(ram, 4096 * f, text)[g][i];
    forall j: nat | j < 8 ensures ByteOf(w, j) == ByteOf(ram[g][i], j) {
      Offset(i, j);
      CopiedAt(ram, f, text, g, 8 * i + j);
      assert Agrees(text, d, ram[g][i], j);
    }
    CopiedRest(ram, 4096 * f, text, g, i);
    SameWord(w, ram[g][i], 8);
  }

  lemma Offset(i: nat, j: nat)
    requires j < 8
    ensures (8 * i + j) / 8 == i && (8 * i + j) % 8 == j
  {
  }

  lemma Parity(w: nat)
    ensures ByteOf(w, 0) % 2 == w % 2
  {
    var q, r := w / 256, w % 256;
    assert w == 2 * (128 * q) + r;
    TwiceMore(128 * q, r);
  }

  lemma TwiceMore(x: nat, r: nat)
    ensures (2 * x + r) % 2 == r % 2
  {
  }

  // ---- the two directions ----

  lemma FitsSpares(s: State, s': State, f: nat, code: seq<byte>, e: nat)
    requires StateOk(s) && KernelShared(s.ram, s.tree, e) && ScriptFrame(s, f) && ScriptCopied(s, s', f, code)
    requires Fits(s, f, Text(code))
    ensures Spared(s, s'.ram, SCRIPT + 8) && KernelShared(s'.ram, s'.tree, e)
  {
    hide StateOk, ScriptFrame, Copied, Text, FrameOf, TreeOk, ScriptPage, Fits, Present, NodeOk, PathOf, SlotAgrees;
    forall n, i: nat | n in s.tree && i < 512 && !ScriptPage(s, n, SCRIPT + 8) ensures SlotSpared(s, s'.ram, n, i) {
      SlotFits(s, s', f, code, n, i);
    }
    TableSlots(s, s'.ram);
    forall r: nat | Root(r) in s.tree ensures r < |s.ram| && s'.ram[r][KERNEL] == s.ram[r][KERNEL] {
      RootAt(s, r);
      NotLeaf(s, Root(r));
      assert SlotSpared(s, s'.ram, Root(r), KERNEL);
    }
  }

  /** A fixed word is as it was, and an empty slot still empty. */
  ghost predicate SlotSpared(s: State, ram: seq<Page>, n: Node, i: nat)
    requires n in s.tree && i < 512
  {
    var g := FrameOf(s.tree[n]);
    && g < |s.ram| == |ram|
    && (Fixed(s.tree, n, i) ==> ram[g][i] == s.ram[g][i])
    && (!Fixed(s.tree, n, i) && !Present(s.ram[g][i]) ==> !Present(ram[g][i]))
  }

  lemma NotLeaf(s: State, n: Node)
    requires |n.path| < 4
    ensures !ScriptPage(s, n, SCRIPT + 8)
  {
    hide PathOf;
  }

  lemma SlotFits(s: State, s': State, f: nat, code: seq<byte>, n: Node, i: nat)
    requires StateOk(s) && ScriptFrame(s, f) && ScriptCopied(s, s', f, code) && Fits(s, f, Text(code))
    requires n in s.tree && !ScriptPage(s, n, SCRIPT + 8) && i < 512
    ensures SlotSpared(s, s'.ram, n, i)
  {
    hide StateOk, Copied, Text, FrameOf, TreeOk, MakingOk, PathOf, ByteOf, Fixed;
    PageFrame(s, n);
    var g, text := FrameOf(s.tree[n]), Text(code);
    assert g != f by { FirstFrame(s, f, n); }
    var d := 4096 * (g - f) + 8 * i;
    if Fixed(s.tree, n, i) {
      forall j: nat | j < 8 ensures Agrees(text, d, s.ram[g][i], j) {
        Offset(i, j);
        assert Distance(s, f, n, 8 * i + j) == d + j;
      }
      WordKept(s.ram, f, text, g, i, d);
    } else {
      Offset(i, 0);
      assert Distance(s, f, n, 8 * i) == d;
      CopiedAt(s.ram, f, text, g, 8 * i);
      Parity(s.ram[g][i]);
      Parity(s'.ram[g][i]);
    }
  }

  /** The first frame is that of the script's first page alone. */
  lemma FirstFrame(s: State, f: nat, n: Node)
    requires StateOk(s) && ScriptFrame(s, f) && n in s.tree && !ScriptPage(s, n, SCRIPT + 8)
    ensures FrameOf(s.tree[n]) != f
  {
    hide StateOk, FrameOf, PathOf, MakingOk;
    if FrameOf(s.tree[n]) == f && n != Leaf(s.making, SCRIPT) {
      FramesDiffer(s, n, Leaf(s.making, SCRIPT));
    }
  }

  /** The tables stand if used slots keep their words and empty ones stay absent. */
  lemma TableSlots(s: State, ram: seq<Page>)
    requires StateOk(s) && |ram| == |s.ram|
    requires forall n, i: nat ::
      n in s.tree && i < 512 && !ScriptPage(s, n, SCRIPT + 8) ==> SlotSpared(s, ram, n, i)
    ensures Spared(s, ram, SCRIPT + 8)
  {
    hide FrameOf, Present, NodeOk, OwnersOk, StraysOk, TaskOk, RootsOk, Taken, ScriptPage, PathOf;
    forall n | n in s.tree ensures FrameOf(s.tree[n]) < |s.ram| {
      PageFrame(s, n);
    }
    forall n, i | n in s.tree && InTree(n, i) ensures SlotAgrees(ram, s.tree, n, i) {
      NotLeaf(s, n);
      assert SlotAgrees(s.ram, s.tree, n, i) && SlotSpared(s, ram, n, i);
    }
    forall n | n in s.tree && |n.path| == 4 && !ScriptPage(s, n, SCRIPT + 8)
      ensures FrameOf(s.tree[n]) < |s.ram| && ram[FrameOf(s.tree[n])] == s.ram[FrameOf(s.tree[n])]
    {
      PageFrame(s, n);
      var g := FrameOf(s.tree[n]);
      forall i: nat | i < 512 ensures ram[g][i] == s.ram[g][i] {
        assert SlotSpared(s, ram, n, i);
      }
    }
  }

  lemma InOrderFits(s: State, s': State, f: nat, code: seq<byte>, e: nat)
    requires StateOk(s) && KernelShared(s.ram, s.tree, e) && ScriptFrame(s, f) && ScriptCopied(s, s', f, code)
    requires InOrder(s, s', e)
    ensures Fits(s, f, Text(code))
  {
    hide StateOk, KernelShared, ScriptFrame, Copied, Text, FrameOf, ScriptPage, SameViews, MadeKept, ByteOf;
    forall n, off: nat | n in s.tree && Reached(s, f, Text(code), n, off)
      ensures Suits(s, n, off, Text(code)[Distance(s, f, n, off)])
    {
      CopiedAt(s.ram, f, Text(code), FrameOf(s.tree[n]), off);
      SlotKept(s, s', e, n, off / 8);
      Parity(s'.ram[FrameOf(s.tree[n])][off / 8]);
    }
  }

  /** In an orderly outcome fixed words are as they were, and empty slots empty. */
  lemma SlotKept(s: State, s': State, e: nat, n: Node, i: nat)
    requires StateOk(s) && KernelShared(s.ram, s.tree, e) && InOrder(s, s', e)
    requires s' == s.(ram := s'.ram) && |s'.ram| == |s.ram|
    requires n in s.tree && !ScriptPage(s, n, SCRIPT + 8) && i < 512
    ensures FrameOf(s.tree[n]) < |s.ram|
    ensures Fixed(s.tree, n, i) ==> s'.ram[FrameOf(s.tree[n])][i] == s.ram[FrameOf(s.tree[n])][i]
    ensures !Fixed(s.tree, n, i) ==> s'.ram[FrameOf(s.tree[n])][i] % 2 == 0
  {
    hide FrameOf, OwnersOk, StraysOk, TaskOk, RootsOk, Taken, ScriptPage, PathOf, SameViews, MadeKept;
    PageFrame(s, n);
    assert NodeOk(s.tree, n, |s.ram|);
    if |n.path| == 4 {
      SeenPage(s, s', n);
    } else if InTree(n, i) {
      assert SlotAgrees(s.ram, s.tree, n, i) && SlotAgrees(s'.ram, s.tree, n, i);
    } else {
      KernelWord(s, s', e, n);
    }
  }

  lemma KernelWord(s: State, s': State, e: nat, n: Node)
    requires StateOk(s) && KernelShared(s.ram, s.tree, e) && KernelShared(s'.ram, s'.tree, e)
    requires s' == s.(ram := s'.ram) && |s'.ram| == |s.ram| && n in s.tree && |n.path| < 4 && !InTree(n, KERNEL)
    ensures FrameOf(s.tree[n]) < |s.ram|
    ensures s'.ram[FrameOf(s.tree[n])][KERNEL] == s.ram[FrameOf(s.tree[n])][KERNEL]
  {
    hide StateOk, FrameOf;
    assert n == Root(n.root);
    RootAt(s, n.root);
  }

  /** Every mapped page is seen by its task, or belongs to the new space. */
  lemma SeenPage(s: State, s': State, n: Node)
    requires StateOk(s) && s' == s.(ram := s'.ram) && |s'.ram| == |s.ram|
    requires SameViews(s, s') && MadeKept(s, s', SCRIPT, SCRIPT + 8)
    requires n in s.tree && |n.path| == 4 && !ScriptPage(s, n, SCRIPT + 8)
    ensures FrameOf(s.tree[n]) < |s.ram| && s'.ram[FrameOf(s.tree[n])] == s.ram[FrameOf(s.tree[n])]
  {
    hide PathOf, FrameOf, OwnersOk, StraysOk, TaskOk, Find, TreeOk, MakingOk;
    PageFrame(s, n);
    var v := PageNumber(s, n);
    if n.root == s.making {
      assert Made(s', v) == Made(s, v);
    } else {
      var t :| 0 <= t < |s.tasks| && s.tasks[t].root == n.root;
      assert View(s', t, v) == View(s, t, v);
    }
  }

  lemma PageNumber(s: State, n: Node) returns (v: nat)
    requires StateOk(s) && n in s.tree && |n.path| == 4
    ensures v < VPNS && n == Leaf(n.root, v) && RootKnown(s.tasks, s.making, n.root)
  {
    hide FrameOf, NodeOk, SlotAgrees, OwnersOk, StraysOk, TaskOk;
    var p := n.path;
    SmallPath(s.ram, s.tree, n, p);
    v := ((p[0] * 512 + p[1]) * 512 + p[2]) * 512 + p[3];
    PathBack(p, v);
  }

  lemma PathBack(p: seq<nat>, v: nat)
    requires |p| == 4 && (forall k :: 0 <= k < 4 ==> p[k] < 512) && v == ((p[0] * 512 + p[1]) * 512 + p[2]) * 512 + p[3]
    ensures v < VPNS && PathOf(v) == p
  {
    var a, b := p[0] * 512 + p[1], (p[0] * 512 + p[1]) * 512 + p[2];
    assert v / 512 == b && v % 512 == p[3] && b / 512 == a && b % 512 == p[2] && a / 512 == p[0] && a % 512 == p[1];
  }

  lemma {:induction false} SmallPath(ram: seq<Page>, tree: Tree, n: Node, p: seq<nat>)
    requires TreeOk(ram, tree) && n in tree && n.path == p
    ensures forall k :: 0 <= k < |p| ==> p[k] < 512
    decreases |p|
  {
    hide FrameOf, NodeOk, SlotAgrees;
    if p != [] {
      var q := p[..|p| - 1];
      var m := Node(n.root, q);
      assert p == q + [p[|q|]];
      assert Child(m, p[|q|]) == n;
      SmallPath(ram, tree, m, q);
    }
  }

  /** The frame behind the script's first holds a table whose slot 0 is in use. */
  ghost predicate TableNext(tree: Tree, f: nat) {
    exists n :: n in tree && |n.path| < 4 && FrameOf(tree[n]) == f + 1 && Child(n, 0) in tree && InTree(n, 0)
  }

  /** The script ends in the very bytes that slot 0 of the next frame begins with,
      its terminator included, and within that slot. */
  predicate Spells(ram: seq<Page>, f: nat, code: seq<byte>) {
    && |code| < 4104 && f + 1 < |ram|
    && forall j :: 4096 <= j <= |code| ==> Text(code)[j] == ByteOf(ram[f + 1][0], j - 4096)
  }

  /** Then a script of a page or more does harm, unless by chance it spells out
      that entry; and a script of exactly one page always does, because its
      terminator clears the present bit. */
  lemma OverrunBreaks(s: State, s': State, f: nat, code: seq<byte>, e: nat)
    requires StateOk(s) && KernelShared(s.ram, s.tree, e) && ScriptFrame(s, f) && ScriptCopied(s, s', f, code)
    requires TableNext(s.tree, f) && 0 !in code && |code| >= 4096 && |s.ram| <= 0x1000_0000_0000
    ensures InOrder(s, s', e) <==> Spells(s.ram, f, code)
    ensures StateOk(s') ==> Spells(s.ram, f, code)
    ensures |code| == 4096 ==> !StateOk(s')
  {
    hide StateOk, KernelShared, ScriptFrame, ScriptCopied, InOrder, FrameOf, Spells, TableNext, Fits;
    CopyExact(s, s', f, code, e);
    if Spells(s.ram, f, code) {
      SpellsFits(s, f, code);
    }
    if StateOk(s') {
      StandsSpells(s, s', f, code);
    } else {
      assert !InOrder(s, s', e) by { StandsInOrder(s, s', e); }
    }
    if |code| == 4096 {
      OneTooMany(s, f, code);
    }
  }

  lemma StandsInOrder(s: State, s': State, e: nat)
    ensures InOrder(s, s', e) ==> StateOk(s')
  {
  }

  lemma SpellsFits(s: State, f: nat, code: seq<byte>)
    requires StateOk(s) && TableNext(s.tree, f) && |code| >= 4096 && Spells(s.ram, f, code)
    ensures Fits(s, f, Text(code))
  {
    hide StateOk, FrameOf, ByteOf, ScriptPage, Text, PathOf;
    TextSize(code);
    var t :| t in s.tree && |t.path| < 4 && FrameOf(s.tree[t]) == f + 1 && Child(t, 0) in s.tree && InTree(t, 0);
    forall n, off: nat | n in s.tree && Reached(s, f, Text(code), n, off)
      ensures Suits(s, n, off, Text(code)[Distance(s, f, n, off)])
    {
      if n != t { FramesDiffer(s, n, t); }
      assert off < 8;
    }
  }

  lemma TextSize(code: seq<byte>)
    requires |code| < 4104
    ensures |Text(code)| == |code| + 1
  {
  }

  lemma StandsSpells(s: State, s': State, f: nat, code: seq<byte>)
    requires StateOk(s) && StateOk(s') && ScriptCopied(s, s', f, code) && TableNext(s.tree, f)
    requires 0 !in code && |code| >= 4096 && |s.ram| <= 0x1000_0000_0000
    ensures Spells(s.ram, f, code)
  {
    hide StateOk, FrameOf, Copied, ByteOf, Text;
    var n :| n in s.tree && |n.path| < 4 && FrameOf(s.tree[n]) == f + 1 && Child(n, 0) in s.tree && InTree(n, 0);
    PageFrame(s, n);
    SlotIs(s, n);
    SlotIs(s', n);
    var w := s.ram[f + 1][0];
    forall k: nat | k < 8 && 4096 + k < |Text(code)| ensures Text(code)[4096 + k] == ByteOf(w, k) {
      CopiedAt(s.ram, f, Text(code), f + 1, k);
    }
    EntryBytes(s, Child(n, 0));
    if |code| >= 4104 {
      TextAt(code);
    }
    TextLong(code);
  }

  lemma TextLong(code: seq<byte>)
    ensures |Text(code)| > |code| || |Text(code)| > TEXT_MAX
  {
  }

  lemma TextAt(code: seq<byte>)
    requires |code| >= 4104 && 0 !in code
    ensures |Text(code)| > 4104 && Text(code)[4103] != 0
  {
    assert code[4103] in code;
  }

  lemma OneTooMany(s: State, f: nat, code: seq<byte>)
    requires StateOk(s) && TableNext(s.tree, f) && |code| == 4096
    ensures !Spells(s.ram, f, code)
  {
    hide StateOk, FrameOf, ByteOf;
    var n :| n in s.tree && |n.path| < 4 && FrameOf(s.tree[n]) == f + 1 && Child(n, 0) in s.tree && InTree(n, 0);
    PageFrame(s, n);
    SlotIs(s, n);
    EntryBytes(s, Child(n, 0));
    assert Text(code)[4096] == 0;
  }

  /** Where a top-level table lies behind the script's first frame, a script of
      exactly one page unmaps the kernel in that address space. */
  lemma KernelLost(s: State, s': State, f: nat, code: seq<byte>, e: nat)
    requires StateOk(s) && KernelShared(s.ram, s.tree, e) && ScriptFrame(s, f) && ScriptCopied(s, s', f, code)
    requires Root(f + 1) in s.tree && Present(e) && |code| == 4096
    ensures !KernelShared(s'.ram, s'.tree, e)
  {
    hide StateOk, FrameOf, ByteOf, Copied, ScriptFrame;
    RootAt(s, f + 1);
    CopiedAt(s.ram, f, Text(code), f + 1, 0);
    assert Text(code)[4096] == 0;
    Parity(e);
    Parity(s'.ram[f + 1][KERNEL]);
  }

  /** The low byte of an entry is odd, and its top byte is 0. */
  lemma EntryBytes(s: State, c: Node)
    requires StateOk(s) && c in s.tree && c.path != []
    ensures ByteOf(s.tree[c], 0) % 2 == 1
    ensures |s.ram| <= 0x1000_0000_0000 ==> ByteOf(s.tree[c], 7) == 0
  {
    hide RootsOk, OwnersOk, StraysOk, TaskOk, SlotAgrees, Taken, ByteOf;
    var e := s.tree[c];
    assert NodeOk(s.tree, c, |s.ram|);
    LowByte(e);
    if |s.ram| <= 0x1000_0000_0000 {
      assert e < 0x100_0000_0000_0000;
      TopByte(e);
    }
  }

  lemma LowByte(e: nat)
    requires ForTable(e) || ForPage(e)
    ensures ByteOf(e, 0) % 2 == 1
  {
    if ForTable(e) { TableEntry(e); } else { PageEntry(e); }
    hide ForTable, ForPage;
    var q, r := e / 256, e % 256;
    assert e == 2 * (128 * q) + r;
  }

  lemma TopByte(e: nat)
    requires e < 0x100_0000_0000_0000
    ensures ByteOf(e, 7) == 0
  {
    var e1 := e / 256;
    var e2 := e1 / 256;
    var e3 := e2 / 256;
    var e4 := e3 / 256;
    assert ByteOf(e, 7) == ByteOf(e1, 6) == ByteOf(e2, 5) == ByteOf(e3, 4) == ByteOf(e4, 3);
    var e5 := e4 / 256;
    var e6 := e5 / 256;
    assert ByteOf(e4, 3) == ByteOf(e5, 2) == ByteOf(e6, 1) == ByteOf(e6 / 256, 0);
  }

  lemma SlotIs(s: State, n: Node)
    requires StateOk(s) && n in s.tree && InTree(n, 0) && Child(n, 0) in s.tree && FrameOf(s.tree[n]) < |s.ram|
    ensures s.ram[FrameOf(s.tree[n])][0] == s.tree[Child(n, 0)]
  {
    hide FrameOf, NodeOk, RootsOk, OwnersOk, StraysOk, TaskOk;
    assert SlotAgrees(s.ram, s.tree, n, 0);
  }
}
