/** How large a transformer the budgets admit: its memory footprint, and the
    shrinking of a configuration until the footprint fits. */
module ModelSize {
  import opened Wrappers

  const HDR := 32
  const VOCAB := 256
  const CTX_MIN := 16
  const LAYERS_MIN := 1
  const D_MIN := 16

  datatype Config = Config(d: nat, heads: nat, layers: nat, ctx: nat, ff: nat)

  function Mul(a: nat, b: nat): nat { a * b }

  // ---- the weight blob ----

  function LayerSize(c: Config): nat { 4 * Mul(c.d, c.d) + 2 * Mul(c.d, c.ff) + 4 * c.d }

  /** The weights without the header. */
  function Weights(c: Config): nat { 2 * (VOCAB * c.d) + Mul(c.layers, LayerSize(c)) + 2 * c.d }

  function WeightBytes(c: Config): nat { HDR + Weights(c) }

  /** A tensor: where it starts in the blob and how long it is. */
  datatype Span = Span(at: nat, size: nat)

  function Layer(c: Config, l: nat): Span { Span(HDR + VOCAB * c.d + Mul(l, LayerSize(c)), LayerSize(c)) }

  /** The tensors of a layer, in the order of the source's offsets. */
  function LayerTensors(c: Config, l: nat): seq<Span> {
    LayerSpans(Layer(c, l).at, c.d, Mul(c.d, c.d), Mul(c.d, c.ff), Mul(c.ff, c.d))
  }

  function LayerSpans(o: nat, d: nat, dd: nat, df: nat, fd: nat): seq<Span> {
    [Span(o, dd), Span(o + dd, dd), Span(o + 2 * dd, dd), Span(o + 3 * dd, dd),
     Span(o + 4 * dd, d), Span(o + 4 * dd + d, d),
     Span(o + 4 * dd + 2 * d, df), Span(o + 4 * dd + 2 * d + df, fd),
     Span(o + 4 * dd + 2 * d + df + fd, d), Span(o + 4 * dd + 3 * d + df + fd, d)]
  }

  function Layers(c: Config, n: nat): seq<Span> {
    if n == 0 then [] else Layers(c, n - 1) + LayerTensors(c, n - 1)
  }

  /** Embedding, layers, final norm, head. */
  function Tensors(c: Config): seq<Span> {
    var fin := HDR + VOCAB * c.d + Mul(c.layers, LayerSize(c));
    [Span(HDR, VOCAB * c.d)] + Layers(c, c.layers) + [Span(fin, c.d), Span(fin + c.d, c.d),
      Span(fin + 2 * c.d, VOCAB * c.d)]
  }

  /** Each span starts where the one before ends, from `from` up to `to`. */
  predicate Tile(ss: seq<Span>, from: nat, to: nat)
    decreases |ss|
  {
    if ss == [] then from == to else ss[0].at == from && Tile(ss[1..], from + ss[0].size, to)
  }

  lemma {:induction false} TileAppend(a: seq<Span>, b: seq<Span>, from: nat, mid: nat, to: nat)
    requires Tile(a, from, mid) && Tile(b, mid, to)
    ensures Tile(a + b, from, to)
    decreases |a|
  {
    if a == [] {
      assert a + b == b;
    } else {
      assert (a + b)[1..] == a[1..] + b;
      TileAppend(a[1..], b, from + a[0].size, mid, to);
    }
  }

  lemma {:induction false} TileChain(ts: seq<Span>)
    requires ts != [] && forall k :: 0 < k < |ts| ==> ts[k].at == ts[k - 1].at + ts[k - 1].size
    ensures Tile(ts, ts[0].at, ts[|ts| - 1].at + ts[|ts| - 1].size)
    decreases |ts|
  {
    if |ts| > 1 {
      TileChain(ts[1..]);
    }
  }

  lemma SpansTile(o: nat, d: nat, dd: nat, df: nat, fd: nat)
    ensures Tile(LayerSpans(o, d, dd, df, fd), o, o + 4 * dd + df + fd + 4 * d)
  {
    hide Tile;
    TileChain(LayerSpans(o, d, dd, df, fd));
  }

  lemma LayerTiles(c: Config, l: nat)
    ensures Tile(LayerTensors(c, l), Layer(c, l).at, Layer(c, l + 1).at)
  {
    hide Tile, LayerSpans;
    Commute(c.ff, c.d);
    SpansTile(Layer(c, l).at, c.d, Mul(c.d, c.d), Mul(c.d, c.ff), Mul(c.ff, c.d));
    NextLayer(c, l);
  }

  lemma Commute(a: nat, b: nat)
    ensures Mul(a, b) == Mul(b, a)
  {
  }

  lemma NextLayer(c: Config, l: nat)
    ensures Layer(c, l + 1).at == Layer(c, l).at + LayerSize(c)
  {
    hide LayerSize;
  }

  lemma {:induction false} LayersTile(c: Config, n: nat)
    ensures Tile(Layers(c, n), HDR + VOCAB * c.d, Layer(c, n).at)
  {
    if n > 0 {
      LayersTile(c, n - 1);
      LayerTiles(c, n - 1);
      TileAppend(Layers(c, n - 1), LayerTensors(c, n - 1), HDR + VOCAB * c.d, Layer(c, n - 1).at, Layer(c, n).at);
    }
  }

  /** The tensors, laid out by the source's offsets, lie end to end and fill the
      blob exactly. */
  lemma TensorsTile(c: Config)
    ensures Tile(Tensors(c), HDR, WeightBytes(c))
  {
    var fin, emb := Layer(c, c.layers).at, HDR + VOCAB * c.d;
    var head, tail := [Span(HDR, VOCAB * c.d)], [Span(fin, c.d), Span(fin + c.d, c.d),
      Span(fin + 2 * c.d, VOCAB * c.d)];
    TileChain(head);
    TileChain(tail);
    LayersTile(c, c.layers);
    TileAppend(head, Layers(c, c.layers), HDR, emb, fin);
    TileAppend(head + Layers(c, c.layers), tail, HDR, fin, WeightBytes(c));
  }

  // ---- the footprint ----

  function LayerWords(c: Config): nat { 3 * Mul(c.ctx, c.d) + Mul(c.heads, Mul(c.ctx, c.ctx)) + Mul(c.ctx, c.d) }

  /** Bytes that `alloc_workspace` asks for. */
  function WorkspaceBytes(c: Config): nat {
    2 * (Mul(c.layers + 1, Mul(c.ctx, c.d)) + Mul(c.layers, LayerWords(c)) + c.ctx * VOCAB + Mul(c.ctx, c.d) + c.ff)
  }

  /** Bytes that `alloc_train` asks for, in its two requests. */
  function TrainBytes(c: Config): nat {
    2 * (Mul(c.layers, 2 * Mul(c.ctx, c.d)) + Mul(c.layers, Mul(c.ctx, c.ff)) + Mul(c.layers + 1, Mul(c.ctx, c.d))
      + Mul(c.layers, LayerWords(c))
         + Mul(c.layers + 1, Mul(c.ctx, c.d)) + c.ctx * VOCAB)
    + 8 * (Weights(c) + VOCAB * c.d + Mul(c.ctx, c.d))
  }

  /** `working_kb`, before its last conversion to 32 bits. */
  function WorkingBytes(c: Config): nat {
    var cd := Mul(c.ctx, c.d);
    var fwd := Mul(c.layers + 1, cd) + Mul(c.layers, LayerWords(c)) + c.ctx * VOCAB + cd + c.ff;
    var xtra := Mul(c.layers, 2 * cd) + Mul(c.layers, Mul(c.ctx, c.ff)) + Mul(c.layers + 1, cd);
    var bwd := Mul(c.layers, LayerWords(c)) + Mul(c.layers + 1, cd) + c.ctx * VOCAB;
    (fwd + xtra + bwd) * 2 + 8 * Weights(c) + 8 * (VOCAB * c.d) + 8 * cd + WeightBytes(c)
  }

  function WorkingKb(c: Config): nat { (WorkingBytes(c) + 1023) / 1024 % 0x1_0000_0000 }

  /** What is budgeted is exactly what is asked for. */
  lemma FootprintExact(c: Config)
    ensures WorkingBytes(c) == WorkspaceBytes(c) + TrainBytes(c) + WeightBytes(c)
  {
  }

  /** The sizes the source ever configures. */
  predicate InRange(c: Config) {
    c.d <= 1024 && c.heads <= 32 && c.layers <= 32 && c.ctx <= 8192 && c.ff <= 65535
  }

  lemma Times(a: nat, b: nat, x: nat, y: nat)
    requires a <= x && b <= y
    ensures Mul(a, b) <= Mul(x, y)
  {
    assert a * b <= x * b by { assert (x - a) * b >= 0; }
    assert x * b <= x * y by { assert x * (y - b) >= 0; }
  }

  /** In range, the conversion to 32 bits loses nothing. */
  lemma NoTruncation(c: Config)
    requires InRange(c)
    ensures WorkingKb(c) == (WorkingBytes(c) + 1023) / 1024
  {
    hide WeightBytes, LayerWords, Weights;
    Times(c.ctx, c.d, 8192, 1024);
    Times(c.ctx, c.ff, 8192, 65535);
    WordsBound(c);
    WeightsBound(c);
    Times(c.layers, LayerWords(c), 32, 2181038080);
    Times(c.layers + 1, Mul(c.ctx, c.d), 33, 8388608);
    Times(c.layers, Mul(c.ctx, c.ff), 32, 536862720);
    Times(c.layers, 2 * Mul(c.ctx, c.d), 32, 16777216);
  }

  lemma WordsBound(c: Config)
    requires InRange(c)
    ensures LayerWords(c) <= 2181038080
  {
    Times(c.ctx, c.d, 8192, 1024);
    Times(c.ctx, c.ctx, 8192, 8192);
    Times(c.heads, Mul(c.ctx, c.ctx), 32, 67108864);
  }

  lemma WeightsBound(c: Config)
    requires InRange(c)
    ensures WeightBytes(c) <= 4430000000 && Weights(c) <= 4430000000
  {
    Times(c.d, c.d, 1024, 1024);
    Times(c.d, c.ff, 1024, 65535);
    Times(c.layers, LayerSize(c), 32, 138414080);
  }

  // ---- shrinking ----

  predicate Fits(c: Config, capKb: nat, budgetKb: nat) {
    WorkingKb(c) <= capKb && WeightBytes(c) / 1024 <= budgetKb
  }

  /** The next smaller configuration: less context, then a narrower feed-forward,
      then fewer layers, then a narrower model. */
  function Smaller(c: Config): Option<Config> {
    if c.ctx > CTX_MIN then Some(c.(ctx := c.ctx / 2))
    else if c.ff > c.d then Some(c.(ff := c.ff / 2))
    else if c.layers > LAYERS_MIN then Some(c.(layers := c.layers / 2))
    else if c.d > D_MIN then
      var d := c.d / 2;
      Some(c.(d := d, ff := 4 * d, heads := AtMost8(d)))
    else None
  }

  function AtMost8(d: nat): nat { if d >= 8 then 8 else d }

  /** `n` times smaller; None if that is not possible. */
  function Shrunk(c: Config, n: nat): Option<Config>
    decreases n
  {
    if n == 0 then Some(c) else if Smaller(c).None? then None else Shrunk(Smaller(c).value, n - 1)
  }

  lemma {:induction false} ShrunkMore(c: Config, n: nat)
    ensures Shrunk(c, n + 1) == if Shrunk(c, n).None? then None else Smaller(Shrunk(c, n).value)
    decreases n
  {
    if n > 0 && Smaller(c).Some? {
      ShrunkMore(Smaller(c).value, n - 1);
    }
  }

  lemma RangeStays(c: Config)
    requires InRange(c) && Smaller(c).Some?
    ensures InRange(Smaller(c).value)
  {
  }

  /** `degrade`: the first configuration on the way down that fits, or none of
      them does. It ends because (width, layers, feed-forward, context) gets
      lexicographically smaller at every step. */
  method Degrade(c0: Config, capKb: nat, budgetKb: nat) returns (ok: bool, c: Config, ghost n: nat)
    requires InRange(c0)
    ensures Shrunk(c0, n) == Some(c) && (forall m ::
      0 <= m < n ==> Shrunk(c0, m).Some? && !Fits(Shrunk(c0, m).value, capKb, budgetKb))
    ensures ok ==> Fits(c, capKb, budgetKb) && WorkspaceBytes(c) + TrainBytes(c) + WeightBytes(c) <= capKb * 1024
    ensures !ok ==> !Fits(c, capKb, budgetKb) && Smaller(c).None?
  {
    c, n := c0, 0;
    while true
      invariant InRange(c) && Shrunk(c0, n) == Some(c)
      invariant forall m :: 0 <= m < n ==> Shrunk(c0, m).Some? && !Fits(Shrunk(c0, m).value, capKb, budgetKb)
      decreases c.d, c.layers, c.ff, c.ctx
    {
      if Fits(c, capKb, budgetKb) {
        NoTruncation(c);
        FootprintExact(c);
        return true, c, n;
      }
      if Smaller(c).None? {
        return false, c, n;
      }
      RangeStays(c);
      ShrunkMore(c0, n);
      c, n := Smaller(c).value, n + 1;
    }
  }
}
