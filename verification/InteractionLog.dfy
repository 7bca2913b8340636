/** The interaction log: newline-terminated records in a bounded buffer that
    drops whole oldest records, and its checkpoint in the file system. */
module InteractionLog {
  import opened Wrappers
  import opened Word
  import V = Volume
  import F = FileSystem

  const RING_SIZE := 65536
  const FILE_MAX := 4096
  const ESC_ROOM := 2 * 1024 + 64 - 2
  const NL: byte := 10

  // ---- records ----

  type Bytes = seq<byte>

  predicate Clean(r: Bytes) { NL !in r }

  predicate AllClean(rs: seq<Bytes>) { forall i :: 0 <= i < |rs| ==> Clean(rs[i]) }

  /** The records, each with its newline. */
  function Flat(rs: seq<Bytes>): Bytes {
    if rs == [] then [] else rs[0] + [NL] + Flat(rs[1..])
  }

  /** Oldest records dropped until the rest fits, with a byte to spare. */
  function Kept(rs: seq<Bytes>, size: nat := RING_SIZE): (r: seq<Bytes>)
    requires size > 0
    ensures |r| <= |rs| && r == rs[|rs| - |r|..] && |Flat(r)| < size
    decreases |rs|
  {
    if |Flat(rs)| < size then rs else Kept(rs[1..], size)
  }

  /** What a checkpoint holds: everything, or the newest records that fit. */
  function Checkpoint(rs: seq<Bytes>): seq<Bytes> {
    if |Flat(rs)| <= FILE_MAX then rs else Kept(rs, FILE_MAX)
  }

  lemma {:induction false} FlatAppend(a: seq<Bytes>, b: seq<Bytes>)
    ensures Flat(a + b) == Flat(a) + Flat(b)
  {
    if a == [] {
      assert a + b == b;
    } else {
      assert (a + b)[1..] == a[1..] + b;
      FlatAppend(a[1..], b);
    }
  }

  /** What is kept is the longest suffix of whole records that fits. */
  lemma {:induction false} KeptLongest(rs: seq<Bytes>, size: nat, k: nat)
    requires k <= |rs| && |Flat(rs[k..])| < size
    ensures |Kept(rs, size)| >= |rs| - k
    decreases |rs|
  {
    assert rs[0..] == rs;
    if |Flat(rs)| >= size {
      assert rs[1..][k - 1..] == rs[k..];
      KeptLongest(rs[1..], size, k - 1);
    }
  }

  /** Dropping as one goes keeps what dropping at the end would. */
  lemma {:induction false} KeptOnTheWay(rs: seq<Bytes>, r: Bytes)
    ensures Kept(Kept(rs) + [r]) == Kept(rs + [r])
    decreases |rs|
  {
    if |Flat(rs)| >= RING_SIZE {
      FlatAppend(rs, [r]);
      assert (rs + [r])[1..] == rs[1..] + [r];
      KeptOnTheWay(rs[1..], r);
    }
  }

  /** The log after appending all of `rs`, one by one, to what `kept` holds. */
  function AppendAll(kept: seq<Bytes>, rs: seq<Bytes>): seq<Bytes>
    decreases |rs|
  {
    if rs == [] then kept else AppendAll(Kept(kept + [rs[0]]), rs[1..])
  }

  /** After any sequence of appends the log holds the longest suffix of whole
      records of all that was ever appended. */
  lemma {:induction false} HoldsLongestSuffix(all: seq<Bytes>, rs: seq<Bytes>)
    ensures AppendAll(Kept(all), rs) == Kept(all + rs)
    decreases |rs|
  {
    hide Kept, Flat;
    if rs == [] {
      assert all + rs == all;
    } else {
      KeptOnTheWay(all, rs[0]);
      HoldsLongestSuffix(all + [rs[0]], rs[1..]);
      assert (all + [rs[0]]) + rs[1..] == all + rs;
    }
  }

  // ---- escaping ----

  const BACKSLASH: byte := 0x5C

  predicate Printable(c: byte) { 0x20 <= c < 0x7F }

  /** How a payload byte is written; control bytes without an escape vanish. */
  function Esc(c: byte): Bytes {
    if c == BACKSLASH then [BACKSLASH, BACKSLASH]
    else if c == NL then [BACKSLASH, 0x6E]
    else if c == 0x0D then [BACKSLASH, 0x72]
    else if c == 0x09 then [BACKSLASH, 0x74]
    else if Printable(c) then [c]
    else []
  }

  function Escaped(p: Bytes): Bytes {
    if p == [] then [] else Esc(p[0]) + Escaped(p[1..])
  }

  function Unesc(c: byte): byte {
    if c == 0x6E then NL else if c == 0x72 then 0x0D else if c == 0x74 then 0x09 else c
  }

  /** Reading escapes back. */
  function Unescaped(p: Bytes): Bytes {
    if p == [] then []
    else if p[0] == BACKSLASH && |p| > 1 then [Unesc(p[1])] + Unescaped(p[2..])
    else [p[0]] + Unescaped(p[1..])
  }

  /** The payload without the bytes that vanish. */
  function Shown(p: Bytes): Bytes {
    if p == [] then [] else (if Esc(p[0]) == [] then [] else [p[0]]) + Shown(p[1..])
  }

  /** Escaping loses nothing but those bytes, and leaves one record: no newline. */
  lemma {:induction false} EscapeRoundTrip(p: Bytes)
    ensures Unescaped(Escaped(p)) == Shown(p) && Clean(Escaped(p))
  {
    if p != [] {
      EscapeRoundTrip(p[1..]);
      var e, rest := Esc(p[0]), Escaped(p[1..]);
      if |e| == 2 {
        assert (e + rest)[2..] == rest;
      } else if |e| == 1 {
        assert (e + rest)[1..] == rest;
      } else {
        assert e + rest == rest;
      }
    }
  }

  lemma CleanBoth(a: Bytes, b: Bytes)
    requires Clean(a) && Clean(b)
    ensures Clean(a + b)
  {
  }

  lemma FrontIs(s: Bytes, n: nat)
    ensures |Front(s, n)| == (if |s| < n then |s| else n) && (Clean(s) ==> Clean(Front(s, n)))
  {
  }

  lemma EscapedNone(p: Bytes)
    ensures Escaped(p[..0]) == []
  {
  }

  lemma {:induction false} EscapedNext(p: Bytes, i: nat)
    requires i < |p|
    ensures |Esc(p[i])| <= 2 && Escaped(p[..i + 1]) == Escaped(p[..i]) + Esc(p[i])
  {
    if i == 0 {
      assert p[..1][1..] == [];
    } else {
      EscapedNext(p[1..], i - 1);
      assert p[..i + 1][1..] == p[1..][..i] && p[..i][1..] == p[1..][..i - 1];
    }
  }

  /** The log after one more record. */
  function Appended(rs: seq<Bytes>, s: Bytes): seq<Bytes> {
    if s == [] then rs else Kept(rs + [Fitting(s)])
  }

  function Front(s: Bytes, n: nat): Bytes { if |s| < n then s else s[..n] }

  /** As much of a record as the buffer could hold. */
  function Fitting(s: Bytes): Bytes { Front(s, RING_SIZE - 2) }

  // ---- the buffer ----

  class Log {
    const ring: array<byte>
    var len: nat
    var count: nat
    ghost var records: seq<Bytes>

    ghost predicate Valid()
      reads this, ring
    {
      && ring.Length == RING_SIZE && len < RING_SIZE && ring[..len] == Flat(records) && count == |records|
      && AllClean(records)
    }

    constructor ()
      ensures Valid() && records == [] && fresh(ring)
    {
      ring := new byte[RING_SIZE](_ => 0);
      len, count, records := 0, 0, [];
    }

    /** Shift out the oldest record. */
    method DropFirst()
      requires Valid() && len > 0
      modifies this, ring
      ensures Valid() && records == old(records)[1..] && len < old(len)
    {
      ghost var rs := records;
      var drop := 0;
      FirstNewline(rs);
      while drop < len && ring[drop] != NL
        invariant drop <= |rs[0]| < len
      {
        assert ring[..len][drop] == rs[0][drop];
        drop := drop + 1;
      }
      assert ring[..len][|rs[0]|] == NL;
      assert ring[..len][drop] == ring[drop];
      drop := drop + 1;
      MoveDown(drop);
      len := len - drop;
      records := rs[1..];
      count := count - 1;
    }

    /** `memmove` to the front of what lies from `drop` on. */
    method MoveDown(drop: nat)
      requires drop <= len <= ring.Length
      modifies ring
      ensures ring[..len - drop] == old(ring[..len])[drop..]
    {
      var i := 0;
      while i < len - drop
        invariant i <= len - drop && forall j ::
          0 <= j < len ==> ring[j] == if j < i then old(ring[j + drop]) else old(ring[j])
      {
        ring[i] := ring[i + drop];
        i := i + 1;
      }
    }

    /** `il_append` of a newline-free record; one that could never fit is cut,
        an empty one is not entered. */
    method Append(s: Bytes)
      requires Valid() && Clean(s)
      modifies this, ring
      ensures Valid() && records == Appended(old(records), s)
    {
      hide Flat, Kept, AllClean;
      if s == [] {
        return;
      }
      var r := Fitting(s);
      MakeRoom(r);
      Push(r);
    }

    /** `il_append_esc`: the tag and the escaped payload become one record. The
        first `k` bytes of the payload are in it: all, if the buffer holds
        them, else as many as it takes to fill the buffer. */
    method AppendEsc(tag: Bytes, payload: Bytes) returns (ghost k: nat)
      requires Valid() && Clean(tag)
      modifies this, ring
      ensures k <= |payload| && Valid()
      ensures records == Appended(old(records), Front(tag, ESC_ROOM) + Escaped(payload[..k]))
      ensures k < |payload| ==> |tag| + |Escaped(payload[..k])| >= ESC_ROOM
      ensures forall j :: 0 <= j < k ==> |tag| + |Escaped(payload[..j])| < ESC_ROOM
    {
      hide Escaped, Esc, Appended, Front, Clean, Kept, Flat, AllClean;
      var tmp := new byte[ESC_ROOM + 2];
      var t := Front(tag, ESC_ROOM);
      FrontIs(tag, ESC_ROOM);
      Put(tmp, 0, t);
      var n, i := |t|, 0;
      EscapedNone(payload);
      while i < |payload| && n < ESC_ROOM
        invariant 0 <= i <= |payload| && |t| <= n <= ESC_ROOM + 1 && tmp[..n] == t + Escaped(payload[..i])
        invariant forall j :: 0 <= j < i ==> |tag| + |Escaped(payload[..j])| < ESC_ROOM
        modifies tmp
      {
        EscapedNext(payload, i);
        Put(tmp, n, Esc(payload[i]));
        n := n + |Esc(payload[i])|;
        i := i + 1;
      }
      k := i;
      EscapeRoundTrip(payload[..k]);
      CleanBoth(t, Escaped(payload[..k]));
      Append(tmp[..n]);
    }

    /** Copy `s` behind the first `n` bytes. */
    static method Put(tmp: array<byte>, n: nat, s: Bytes)
      requires n + |s| <= tmp.Length
      modifies tmp
      ensures tmp[..n + |s|] == old(tmp[..n]) + s
    {
      var j := 0;
      while j < |s|
        invariant 0 <= j <= |s| && tmp[..n + j] == old(tmp[..n]) + s[..j]
      {
        tmp[n + j] := s[j];
        assert tmp[..n + j + 1] == tmp[..n + j] + [s[j]];
        j := j + 1;
      }
    }

    /** Add a record that fits. */
    method Push(s: Bytes)
      requires Valid() && Clean(s) && len + |s| + 1 < RING_SIZE
      modifies this, ring
      ensures Valid() && records == old(records) + [s] && records == Kept(records)
    {
      hide Flat, Kept, AllClean, Clean;
      FitsNow(records, s);
      CleanSnoc(records, s);
      Put(ring, len, s + [NL]);
      len := len + |s| + 1;
      records := records + [s];
      count := count + 1;
    }

    /** Drop oldest records until `s` fits. */
    method MakeRoom(s: Bytes)
      requires Valid() && |s| + 1 < RING_SIZE
      modifies this, ring
      ensures Valid() && len + |s| + 1 < RING_SIZE && Kept(records + [s]) == Kept(old(records) + [s])
    {
      hide Flat, Kept;
      ghost var rs := records;
      while len + |s| + 1 > RING_SIZE - 1
        invariant Valid() && Kept(records + [s]) == Kept(rs + [s])
        decreases len
      {
        KeptDrops(records, s);
        DropFirst();
      }
    }

    /** Where the checkpoint starts: all of a short log; of a long one what
        follows the first newline of its last 4096 bytes. */
    method Window() returns (off: nat)
      requires Valid()
      ensures off <= len && ring[off..len] == Flat(Checkpoint(records))
    {
      hide Kept;
      if len <= FILE_MAX {
        return 0;
      }
      var i := len - FILE_MAX;
      EndsInNewline(records);
      while i < len && ring[i] != NL
        invariant len - FILE_MAX <= i < len
        invariant forall j :: len - FILE_MAX <= j < i ==> ring[..len][j] != NL
      {
        assert ring[..len][len - 1] == NL && i != len - 1;
        i := i + 1;
      }
      assert ring[..len][i] == NL;
      AfterNewline(records, i);
      off := i + 1;
      assert ring[off..len] == ring[..len][off..];
    }

    /** `il_save`: whole newest records, at most 4096 bytes of them, go to the
        file; an existing file is replaced whenever there is something to save
        and the disk has eight free clusters. */
    method Save(fs: F.FileSystem, now: nat) returns (ok: bool)
      requires Valid() && fs.Valid()
      modifies fs, fs.disk
      ensures Valid() && records == old(records)
      ensures ok ==> fs.Valid() && SavedIn(fs, Checkpoint(records))
      ensures Checkpoint(records) == [] ==> !ok && fs.Valid() && fs.Now() == old(fs.Now())
      ensures old(Replaceable(fs)) ==> ok == (Checkpoint(records) != [])
    {
      hide F.FileSystem.Valid, Flat, V.File, AllClean, V.Entries, Checkpoint, F.FreeClusters;
      ok := false;
      var off := Window();
      CheckpointFits(records);
      if off == len {
        return;
      }
      var ino := fs.Lookup(FILE_NAME);
      if ino == 0 {
        ino := fs.Create(FILE_NAME, F.REG, now);
        if ino == 0 {
          return;
        }
        ino := fs.Lookup(FILE_NAME);
      }
      ok := fs.WriteFile(ino, ring[off..len], now, FILE_NAME);
    }

    /** `il_load`: the log becomes what the file holds, if there is one of
        proper size; otherwise it stays as it is. */
    method Load(fs: F.FileSystem, ghost rs: seq<Bytes>) returns (ok: bool)
      requires Valid() && fs.Valid() && AllClean(rs) && Stored(V.File(fs.Now(), FILE_NAME), rs)
      modifies this, ring
      ensures Valid() && records == if ok then rs else old(records)
      ensures ok == (old(V.File(fs.Now(), FILE_NAME)).Some? && 0 < |Flat(rs)| <= FILE_MAX)
    {
      hide F.FileSystem.Valid, Flat, AllClean, V.File, V.VolOk;
      var ino := fs.Lookup(FILE_NAME);
      if ino == 0 {
        return false;
      }
      var size := fs.Size(ino, FILE_NAME);
      if size == 0 || size > FILE_MAX {
        return false;
      }
      var data := fs.ReadNamed(ino, size, FILE_NAME);
      Refill(data, rs);
      ok := true;
    }

    method Refill(data: Bytes, ghost rs: seq<Bytes>)
      requires ring.Length == RING_SIZE && data == Flat(rs) && AllClean(rs) && |data| < RING_SIZE
      modifies this, ring
      ensures Valid() && records == rs
    {
      hide Flat, AllClean;
      len := 0;
      Put(ring, len, data);
      len := |data|;
      assert ring[..len] == data;
      count := CountNewlines();
      NewlinesFlat(rs);
      records := rs;
    }

    method CountNewlines() returns (n: nat)
      requires len <= ring.Length
      ensures n == Newlines(ring[..len])
    {
      n := 0;
      var i := 0;
      while i < len
        invariant i <= len && n == Newlines(ring[..i])
      {
        assert ring[..i + 1] == ring[..i] + [ring[i]];
        NewlinesSnoc(ring[..i], ring[i]);
        if ring[i] == NL {
          n := n + 1;
        }
        i := i + 1;
      }
    }
  }

  function Newlines(p: Bytes): nat {
    if p == [] then 0 else Newlines(p[..|p| - 1]) + (if p[|p| - 1] == NL then 1 else 0)
  }

  lemma NewlinesSnoc(p: Bytes, c: byte)
    ensures Newlines(p + [c]) == Newlines(p) + if c == NL then 1 else 0
  {
    assert (p + [c])[..|p|] == p;
  }

  lemma {:induction false} NewlinesAppend(a: Bytes, b: Bytes)
    ensures Newlines(a + b) == Newlines(a) + Newlines(b)
    decreases |b|
  {
    if b == [] {
      assert a + b == a;
    } else {
      var n := |b| - 1;
      assert a + b == (a + b[..n]) + [b[n]];
      NewlinesSnoc(a + b[..n], b[n]);
      NewlinesAppend(a, b[..n]);
    }
  }

  lemma {:induction false} NewlinesClean(r: Bytes)
    requires Clean(r)
    ensures Newlines(r) == 0
    decreases |r|
  {
    if r != [] {
      NewlinesClean(r[..|r| - 1]);
    }
  }

  /** One newline a record: the count is exact. */
  lemma {:induction false} NewlinesFlat(rs: seq<Bytes>)
    requires AllClean(rs)
    ensures Newlines(Flat(rs)) == |rs|
  {
    if rs != [] {
      assert Clean(rs[0]);
      NewlinesClean(rs[0]);
      NewlinesSnoc(rs[0], NL);
      NewlinesAppend(rs[0] + [NL], Flat(rs[1..]));
      NewlinesFlat(rs[1..]);
    }
  }

  /** Saving and loading restores the newest records, whole and in order. */
  method SaveAndLoad(log: Log, fs: F.FileSystem, fresh_: Log, now: nat) returns (ok: bool)
    requires log.Valid() && fs.Valid() && fresh_.Valid() && log != fresh_ && log.ring != fresh_.ring
    modifies fs, fs.disk, fresh_, fresh_.ring
    ensures ok ==> fresh_.Valid() && fresh_.records == Checkpoint(log.records) != []
    ensures old(Replaceable(fs)) && log.records != [] && |log.records[|log.records| - 1]| + 1 < FILE_MAX ==> ok
  {
    ok := log.Save(fs, now);
    CheckpointFits(log.records);
    if ok {
      ok := fresh_.Load(fs, Checkpoint(log.records));
    }
  }

  lemma CleanSuffix(rs: seq<Bytes>, k: nat)
    requires AllClean(rs) && k <= |rs|
    ensures AllClean(rs[k..])
  {
  }

  const FILE_NAME := "interact.log"

  /** The file, if there is one, holds these records. */
  predicate Stored(file: Option<Bytes>, rs: seq<Bytes>) { file.Some? ==> file.value == Flat(rs) }

  /** The file holds these records, and there are some. */
  ghost predicate SavedIn(fs: F.FileSystem, rs: seq<Bytes>)
    reads fs, fs.disk
    requires fs.Valid()
  {
    rs != [] && V.File(fs.Now(), FILE_NAME) == Some(Flat(rs))
  }

  /** The file is there, and as many clusters are free as it can take. */
  ghost predicate Replaceable(fs: F.FileSystem)
    reads fs, fs.disk
    requires fs.Valid()
  {
    V.File(fs.Now(), FILE_NAME).Some? && F.FreeClusters(fs.clusterBits) >= 8
  }

  /** Whole records, at most 4096 bytes of them; at least the newest record,
      if that fits. */
  lemma CheckpointFits(rs: seq<Bytes>)
    ensures |Flat(Checkpoint(rs))| <= FILE_MAX && (Checkpoint(rs) == [] <==> Flat(Checkpoint(rs)) == [])
    ensures AllClean(rs) ==> AllClean(Checkpoint(rs))
    ensures rs != [] && |rs[|rs| - 1]| + 1 < FILE_MAX ==> Checkpoint(rs) != []
  {
    NothingFlat(Checkpoint(rs));
    hide Flat, AllClean;
    if AllClean(rs) { CleanSuffix(rs, |rs| - |Checkpoint(rs)|); }
    if rs != [] && |rs[|rs| - 1]| + 1 < FILE_MAX { LastFits(rs); }
  }

  lemma LastFits(rs: seq<Bytes>)
    requires rs != [] && |rs[|rs| - 1]| + 1 < FILE_MAX
    ensures Kept(rs, FILE_MAX) != []
  {
    LastAlone(rs);
    hide Flat, Kept;
    KeptLongest(rs, FILE_MAX, |rs| - 1);
    assert |Kept(rs, FILE_MAX)| >= 1;
  }

  lemma LastAlone(rs: seq<Bytes>)
    requires rs != []
    ensures |Flat(rs[|rs| - 1..])| == |rs[|rs| - 1]| + 1
  {
    var last := rs[|rs| - 1..];
    assert last == [rs[|rs| - 1]] && last[1..] == [];
  }

  lemma {:induction false} EndsInNewline(rs: seq<Bytes>)
    ensures Flat(rs) != [] ==> Flat(rs)[|Flat(rs)| - 1] == NL
  {
    if rs != [] {
      EndsInNewline(rs[1..]);
    }
  }

  /** What follows the first newline of the last 4096 bytes are the newest
      records that fit. */
  lemma {:induction false} AfterNewline(rs: seq<Bytes>, i: nat)
    requires AllClean(rs) && FILE_MAX <= |Flat(rs)| <= FILE_MAX + i && i < |Flat(rs)| && Flat(rs)[i] == NL
    requires forall j :: |Flat(rs)| - FILE_MAX <= j < i ==> Flat(rs)[j] != NL
    ensures Flat(Kept(rs, FILE_MAX)) == Flat(rs)[i + 1..]
  {
    FirstNewline(rs);
    var n := |rs[0]| + 1;
    var f, g := Flat(rs), Flat(rs[1..]);
    assert Kept(rs, FILE_MAX) == Kept(rs[1..], FILE_MAX);
    assert AllClean(rs[1..]);
    hide Flat, Clean, AllClean, Kept;
    assert f[n..] == g && |f| == n + |g|;
    if |g| < FILE_MAX {
      assert i + 1 == n;
      KeptWhole(rs[1..]);
    } else {
      assert i >= n;
      assert forall j :: n <= j < |f| ==> f[j] == g[j - n];
      AfterNewline(rs[1..], i - n);
      assert f[i + 1..] == g[i - n + 1..];
    }
  }

  lemma KeptWhole(rs: seq<Bytes>)
    requires |Flat(rs)| < FILE_MAX
    ensures Kept(rs, FILE_MAX) == rs
  {
  }

  lemma CleanSnoc(rs: seq<Bytes>, s: Bytes)
    requires AllClean(rs) && Clean(s)
    ensures AllClean(rs + [s])
  {
  }

  lemma KeptDrops(rs: seq<Bytes>, s: Bytes)
    requires |Flat(rs)| + |s| + 1 >= RING_SIZE && |s| + 1 < RING_SIZE
    ensures rs != [] && Flat(rs) != [] && Kept(rs[1..] + [s]) == Kept(rs + [s])
  {
    FitsNow(rs, s);
    NothingFlat(rs);
    hide Flat;
    assert rs != [];
    assert (rs + [s])[1..] == rs[1..] + [s];
  }

  lemma NothingFlat(rs: seq<Bytes>)
    ensures Flat(rs) == [] <==> rs == []
  {
  }

  lemma FitsNow(rs: seq<Bytes>, s: Bytes)
    ensures Flat(rs + [s]) == Flat(rs) + (s + [NL])
    ensures |Flat(rs)| + |s| + 1 < RING_SIZE ==> Kept(rs + [s]) == rs + [s]
  {
    FlatAppend(rs, [s]);
    assert Flat([s]) == s + [NL] by { assert [s][1..] == []; }
  }

  lemma FirstNewline(rs: seq<Bytes>)
    requires Flat(rs) != [] && AllClean(rs)
    ensures rs != [] && |rs[0]| < |Flat(rs)| && Flat(rs)[|rs[0]|] == NL && Flat(rs)[|rs[0]| + 1..] == Flat(rs[1..])
    ensures forall j :: 0 <= j < |rs[0]| ==> Flat(rs)[j] == rs[0][j] && rs[0][j] != NL
  {
  }
}
