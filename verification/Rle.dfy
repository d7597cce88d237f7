/**
  The run-length format of HOCO text, its compressor and its decompressor.

  A control byte with the high bit set says that the next byte is repeated
  (low seven bits + 3) times; otherwise it says how many literal bytes follow.
 */
module Rle {
  import opened ByteOrder
  import opened Wrappers

  const THRESHOLD := 3
  const MAX_REPEATED_SIZE := 130
  const MAX_SINGLE_STORE_SIZE := 127
  const INT_MAX := 0x7fffffff

  // ---------------------------------------------------------------------
  // The format
  // ---------------------------------------------------------------------

  function Repeat(c: Byte, n: nat): (r: seq<Byte>)
    ensures |r| == n
  {
    seq(n, _ => c)
  }

  /** Bytes taken by the chunk that the control byte `c` starts. */
  function ChunkSize(c: Byte): nat {
    if c >= 128 then 2 else 1 + c
  }

  /** Bytes of text in the chunk that the control byte `c` starts. */
  function Count(c: Byte): nat {
    if c >= 128 then c - 128 + THRESHOLD else c
  }

  /** Whole chunks, no literal chunk empty. */
  predicate WellFormed(s: seq<Byte>) {
    s == [] || (s[0] != 0 && ChunkSize(s[0]) <= |s| && WellFormed(s[ChunkSize(s[0])..]))
  }

  /** The text of the first chunk. */
  function ChunkText(s: seq<Byte>): (r: seq<Byte>)
    requires s != [] && ChunkSize(s[0]) <= |s|
    ensures |r| == Count(s[0])
  {
    if s[0] >= 128 then Repeat(s[1], Count(s[0])) else s[1..1 + s[0]]
  }

  /** The text that a stream stands for. */
  function Decode(s: seq<Byte>): seq<Byte>
    requires WellFormed(s)
  {
    if s == [] then [] else ChunkText(s) + Decode(s[ChunkSize(s[0])..])
  }

  lemma DecodeEnd(s: seq<Byte>)
    requires s == []
    ensures WellFormed(s) && Decode(s) == []
  {
  }

  lemma DecodeNonEmpty(s: seq<Byte>)
    requires WellFormed(s) && s != []
    ensures Decode(s) != []
  {
    assert |ChunkText(s)| > 0;
  }

  lemma FirstChunk(a: seq<Byte>, b: seq<Byte>)
    requires a != [] && ChunkSize(a[0]) <= |a|
    ensures ChunkText(a + b) == ChunkText(a)
    ensures (a + b)[ChunkSize(a[0])..] == a[ChunkSize(a[0])..] + b
  {
  }

  lemma {:induction false} DecodeConcat(a: seq<Byte>, b: seq<Byte>)
    requires WellFormed(a) && WellFormed(b)
    ensures WellFormed(a + b) && Decode(a + b) == Decode(a) + Decode(b)
  {
    hide ChunkText;
    if a == [] {
      assert a + b == b;
    } else {
      DecodeConcat(a[ChunkSize(a[0])..], b);
      FirstChunk(a, b);
      assert (a + b)[0] == a[0];
    }
  }

  lemma LiteralChunk(b: seq<Byte>)
    requires 0 < |b| <= MAX_SINGLE_STORE_SIZE
    ensures WellFormed([|b|] + b) && Decode([|b|] + b) == b
  {
    var s := [|b|] + b;
    assert s[0] == |b| && ChunkSize(s[0]) == 1 + |b|;
    assert s[1 + |b|..] == [] && s[1..1 + |b|] == b;
    assert WellFormed([]) && Decode([]) == [];
  }

  lemma RunChunk(c: Byte, n: nat)
    requires THRESHOLD <= n <= MAX_REPEATED_SIZE
    ensures WellFormed([n - THRESHOLD + 128, c]) && Decode([n - THRESHOLD + 128, c]) == Repeat(c, n)
  {
    var s := [n - THRESHOLD + 128, c];
    assert s[2..] == [];
  }

  /** The text of the chunk whose control byte stands at `p`. */
  function TextAt(s: seq<Byte>, p: nat): (r: seq<Byte>)
    requires p < |s| && p + ChunkSize(s[p]) <= |s|
    ensures |r| == Count(s[p])
  {
    if s[p] >= 128 then Repeat(s[p + 1], Count(s[p])) else s[p + 1..p + 1 + s[p]]
  }

  /** Reading one chunk in the middle of a stream. */
  lemma ChunkAt(s: seq<Byte>, p: nat)
    requires p < |s| && WellFormed(s[p..])
    ensures s[p] != 0 && p + ChunkSize(s[p]) <= |s| && WellFormed(s[p + ChunkSize(s[p])..])
    ensures Decode(s[p..]) == TextAt(s, p) + Decode(s[p + ChunkSize(s[p])..])
  {
    hide ChunkText, TextAt;
    var rest := s[p..];
    var k := ChunkSize(rest[0]);
    assert rest[0] == s[p] && rest[k..] == s[p + k..];
    ChunkInPlace(s, p);
  }

  lemma ChunkInPlace(s: seq<Byte>, p: nat)
    requires p < |s| && p + ChunkSize(s[p]) <= |s|
    ensures s[p..][0] == s[p] && ChunkText(s[p..]) == TextAt(s, p)
  {
    var rest := s[p..];
    if s[p] >= 128 {
      assert rest[1] == s[p + 1];
    } else {
      assert rest[1..1 + s[p]] == s[p + 1..p + 1 + s[p]];
    }
  }

  // ---------------------------------------------------------------------
  // What a reader makes of any bytes
  // ---------------------------------------------------------------------

  /** The bytes up to `end`, with enough behind them for a chunk that runs over the end. */
  predicate Readable(mem: seq<Byte>, end: nat) {
    end + MAX_SINGLE_STORE_SIZE <= |mem|
  }

  /** The text of the chunks from `p` on; the last one may run over the end. */
  function TextFrom(mem: seq<Byte>, end: nat, p: nat): seq<Byte>
    requires Readable(mem, end)
    decreases end - p
  {
    if p >= end then [] else TextAt(mem, p) + TextFrom(mem, end, p + ChunkSize(mem[p]))
  }

  /** Where the last chunk ends. */
  function StopFrom(mem: seq<Byte>, end: nat, p: nat): nat
    requires Readable(mem, end)
    decreases end - p
  {
    if p >= end then p else StopFrom(mem, end, p + ChunkSize(mem[p]))
  }

  /** At every chunk there is still text to come: no empty chunks at the end. */
  predicate Busy(mem: seq<Byte>, end: nat, p: nat)
    requires Readable(mem, end)
    decreases end - p
  {
    p >= end || (TextFrom(mem, end, p) != [] && Busy(mem, end, p + ChunkSize(mem[p])))
  }

  /** What a reader that checks for completeness accepts: whole chunks that make up exactly
      `rawsize` bytes of text, none of them left over. */
  function Restored(mem: seq<Byte>, end: nat, rawsize: nat): Option<seq<Byte>>
    requires Readable(mem, end)
  {
    if StopFrom(mem, end, 0) == end && |TextFrom(mem, end, 0)| == rawsize && Busy(mem, end, 0)
    then Some(TextFrom(mem, end, 0)) else None
  }

  /** On a well-formed stream all of it is read, whatever stands behind it. */
  lemma {:induction false} WellFormedIsRead(s: seq<Byte>, behind: seq<Byte>, p: nat)
    requires p <= |s| && WellFormed(s[p..]) && |behind| >= MAX_SINGLE_STORE_SIZE
    ensures var mem := s + behind;
      TextFrom(mem, |s|, p) == Decode(s[p..]) && StopFrom(mem, |s|, p) == |s| && Busy(mem, |s|, p)
    decreases |s| - p
  {
    hide WellFormed, Decode, TextAt;
    if p < |s| {
      ChunkAt(s, p);
      SameChunk(s, behind, p);
      DecodeNonEmpty(s[p..]);
      WellFormedIsRead(s, behind, p + ChunkSize(s[p]));
    } else {
      DecodeEnd(s[p..]);
    }
  }

  lemma SameChunk(s: seq<Byte>, behind: seq<Byte>, p: nat)
    requires p < |s| && p + ChunkSize(s[p]) <= |s|
    ensures (s + behind)[p] == s[p] && TextAt(s + behind, p) == TextAt(s, p)
  {
    var mem := s + behind;
    if s[p] >= 128 {
      assert mem[p + 1] == s[p + 1];
    } else {
      assert mem[p + 1..p + 1 + s[p]] == s[p + 1..p + 1 + s[p]];
    }
  }

  // ---------------------------------------------------------------------
  // What the compressor writes
  // ---------------------------------------------------------------------

  /** Length of the longest stretch of equal bytes that starts at `i`. */
  function Run(s: seq<Byte>, i: nat): (n: nat)
    requires i < |s|
    ensures 1 <= n <= |s| - i
    ensures forall j :: i <= j < i + n ==> s[j] == s[i]
    decreases |s| - i
  {
    if i + 1 < |s| && s[i + 1] == s[i] then 1 + Run(s, i + 1) else 1
  }

  /** How much of a run of `n` bytes goes into run chunks: all but a rest below 3. */
  function Packed(n: nat): (m: nat)
    ensures m <= n && (n >= THRESHOLD ==> m >= THRESHOLD)
  {
    if n < THRESHOLD then 0
    else if n <= MAX_REPEATED_SIZE then n
    else MAX_REPEATED_SIZE + Packed(n - MAX_REPEATED_SIZE)
  }

  function RunChunks(c: Byte, n: nat): seq<Byte> {
    if n < THRESHOLD then []
    else if n <= MAX_REPEATED_SIZE then [n - THRESHOLD + 128, c]
    else [MAX_REPEATED_SIZE - THRESHOLD + 128, c] + RunChunks(c, n - MAX_REPEATED_SIZE)
  }

  /** `store_single_buf`: a full store keeps the first 127 bytes and resets the
      buffer, so any byte beyond them is gone. */
  function Flush(buf: seq<Byte>): seq<Byte> {
    if |buf| >= MAX_SINGLE_STORE_SIZE then [MAX_SINGLE_STORE_SIZE] + buf[..MAX_SINGLE_STORE_SIZE]
    else if buf != [] then [|buf|] + buf
    else []
  }

  /** The output for the rest of the source from `i` on, with `buf` not yet stored. */
  function EncodeFrom(s: seq<Byte>, i: nat, buf: seq<Byte>): seq<Byte>
    requires i <= |s| && |buf| < MAX_SINGLE_STORE_SIZE
    decreases |s| - i
  {
    if |s| - i < THRESHOLD then Flush(buf + s[i..])
    else if s[i] == s[i + 1] then
      if s[i + 1] == s[i + 2] then
        var n := Run(s, i);
        assert Run(s, i) == 1 + Run(s, i + 1) && Run(s, i + 1) == 1 + Run(s, i + 2);
        Flush(buf) + RunChunks(s[i], n) + EncodeFrom(s, i + Packed(n), [])
      else Literals(s, i, buf, 2)
    else Literals(s, i, buf, 1)
  }

  /** `k` bytes go to the buffer, which is stored when it is full. */
  function Literals(s: seq<Byte>, i: nat, buf: seq<Byte>, k: nat): seq<Byte>
    requires i + k <= |s| && |buf| < MAX_SINGLE_STORE_SIZE && 0 < k
    decreases |s| - i, 0
  {
    var b := buf + s[i..i + k];
    if |b| >= MAX_SINGLE_STORE_SIZE then Flush(b) + EncodeFrom(s, i + k, [])
    else EncodeFrom(s, i + k, b)
  }

  function Encode(s: seq<Byte>): seq<Byte> {
    EncodeFrom(s, 0, [])
  }

  // ---------------------------------------------------------------------
  // What is lost
  // ---------------------------------------------------------------------

  /** Bytes dropped from `i` on with `n` bytes in the buffer: one whenever a pair
      of equal bytes, or the last two bytes, meets a buffer of 126. */
  function LostFrom(s: seq<Byte>, i: nat, n: nat): nat
    requires i <= |s| && n < MAX_SINGLE_STORE_SIZE
    decreases |s| - i
  {
    if |s| - i < THRESHOLD then Over(n + |s| - i)
    else if s[i] == s[i + 1] then
      if s[i + 1] == s[i + 2] then
        assert Run(s, i) == 1 + Run(s, i + 1) && Run(s, i + 1) == 1 + Run(s, i + 2);
        LostFrom(s, i + Packed(Run(s, i)), 0)
      else Over(n + 2) + LostFrom(s, i + 2, Kept(n + 2))
    else LostFrom(s, i + 1, Kept(n + 1))
  }

  function Over(n: nat): nat {
    if n > MAX_SINGLE_STORE_SIZE then n - MAX_SINGLE_STORE_SIZE else 0
  }

  function Kept(n: nat): (k: nat)
    ensures k < MAX_SINGLE_STORE_SIZE
  {
    if n >= MAX_SINGLE_STORE_SIZE then 0 else n
  }

  function Lost(s: seq<Byte>): nat {
    LostFrom(s, 0, 0)
  }

  // ---------------------------------------------------------------------
  // Round trip
  // ---------------------------------------------------------------------

  lemma {:induction false} RunChunksDecode(c: Byte, n: nat)
    ensures WellFormed(RunChunks(c, n)) && Decode(RunChunks(c, n)) == Repeat(c, Packed(n))
  {
    if n < THRESHOLD {
    } else if n <= MAX_REPEATED_SIZE {
      RunChunk(c, n);
    } else {
      RunChunk(c, MAX_REPEATED_SIZE);
      RunChunksDecode(c, n - MAX_REPEATED_SIZE);
      DecodeConcat([MAX_REPEATED_SIZE - THRESHOLD + 128, c], RunChunks(c, n - MAX_REPEATED_SIZE));
      assert Repeat(c, Packed(n)) == Repeat(c, MAX_REPEATED_SIZE) + Repeat(c, Packed(n - MAX_REPEATED_SIZE));
    }
  }

  lemma FlushDecode(buf: seq<Byte>)
    ensures WellFormed(Flush(buf))
    ensures |buf| <= MAX_SINGLE_STORE_SIZE ==> Decode(Flush(buf)) == buf
    ensures |Decode(Flush(buf))| == |buf| - Over(|buf|)
  {
    if |buf| >= MAX_SINGLE_STORE_SIZE {
      LiteralChunk(buf[..MAX_SINGLE_STORE_SIZE]);
    } else if buf != [] {
      LiteralChunk(buf);
    }
  }

  /** `out` decodes to what is in the buffer and in the source from `i` on, up to
      `lost` bytes. */
  ghost predicate DecodesTo(out: seq<Byte>, text: seq<Byte>, lost: nat) {
    && WellFormed(out)
    && |Decode(out)| == |text| - lost
    && (lost == 0 ==> Decode(out) == text)
  }

  lemma DecodesConcat(a: seq<Byte>, s: seq<Byte>, l: nat, b: seq<Byte>, t: seq<Byte>, m: nat)
    requires DecodesTo(a, s, l) && DecodesTo(b, t, m)
    ensures DecodesTo(a + b, s + t, l + m)
  {
    hide WellFormed; hide Decode;
    DecodeConcat(a, b);
  }

  lemma FlushDecodes(buf: seq<Byte>)
    ensures DecodesTo(Flush(buf), buf, Over(|buf|))
  {
    hide WellFormed; hide Decode; hide Flush;
    FlushDecode(buf);
  }

  lemma RunStart(s: seq<Byte>, i: nat)
    requires i + THRESHOLD <= |s| && s[i] == s[i + 1] && s[i + 1] == s[i + 2]
    ensures Run(s, i) >= THRESHOLD && Packed(Run(s, i)) >= THRESHOLD && i + Packed(Run(s, i)) <= |s|
    ensures s[i..i + Packed(Run(s, i))] == Repeat(s[i], Packed(Run(s, i)))
  {
    assert Run(s, i) == 1 + Run(s, i + 1) && Run(s, i + 1) == 1 + Run(s, i + 2);
  }

  /** One step of the encoder and of the count of lost bytes. */
  lemma EncodeStep(s: seq<Byte>, i: nat, buf: seq<Byte>)
    requires i <= |s| && |buf| < MAX_SINGLE_STORE_SIZE
    ensures |s| - i < THRESHOLD ==>
      EncodeFrom(s, i, buf) == Flush(buf + s[i..]) && LostFrom(s, i, |buf|) == Over(|buf| + |s| - i)
    ensures |s| - i >= THRESHOLD && s[i] == s[i + 1] && s[i + 1] == s[i + 2] ==>
      && i + Packed(Run(s, i)) <= |s|
      && EncodeFrom(s, i, buf) == Flush(buf) + RunChunks(s[i], Run(s, i)) + EncodeFrom(s, i + Packed(Run(s, i)), [])
      && LostFrom(s, i, |buf|) == LostFrom(s, i + Packed(Run(s, i)), 0)
    ensures |s| - i >= THRESHOLD && !(s[i] == s[i + 1] && s[i + 1] == s[i + 2]) ==>
      var k := if s[i] == s[i + 1] then 2 else 1;
      && EncodeFrom(s, i, buf) == Literals(s, i, buf, k)
      && LostFrom(s, i, |buf|) == Over(|buf| + k) + LostFrom(s, i + k, Kept(|buf| + k))
  {
    hide Flush; hide RunChunks; hide Run; hide Packed; hide Literals;
    if |s| - i >= THRESHOLD && s[i] == s[i + 1] && s[i + 1] == s[i + 2] { RunStart(s, i); }
  }

  /** The buffer, the run at `i` and the encoded rest, one after the other. */
  lemma RunThenRest(s: seq<Byte>, i: nat, buf: seq<Byte>, rest: seq<Byte>, lost: nat)
    requires i + THRESHOLD <= |s| && s[i] == s[i + 1] && s[i + 1] == s[i + 2] && |buf| < MAX_SINGLE_STORE_SIZE
    requires i + Packed(Run(s, i)) <= |s| && DecodesTo(rest, s[i + Packed(Run(s, i))..], lost)
    ensures DecodesTo(Flush(buf) + RunChunks(s[i], Run(s, i)) + rest, buf + s[i..], lost)
  {
    hide DecodesTo; hide Flush; hide RunChunks; hide Run; hide Packed; hide Repeat;
    var n := Run(s, i);
    var m := Packed(n);
    RunStart(s, i);
    FlushDecodes(buf);
    RunDecodes(s[i], n);
    DecodesConcat(Flush(buf), buf, 0, RunChunks(s[i], n), Repeat(s[i], m), 0);
    DecodesConcat(Flush(buf) + RunChunks(s[i], n), buf + Repeat(s[i], m), 0, rest, s[i + m..], lost);
    assert s[i..] == s[i..i + m] + s[i + m..];
    assert buf + s[i..] == (buf + Repeat(s[i], m)) + s[i + m..];
  }

  lemma {:induction false} EncodeFromDecodes(s: seq<Byte>, i: nat, buf: seq<Byte>)
    requires i <= |s| && |buf| < MAX_SINGLE_STORE_SIZE
    ensures DecodesTo(EncodeFrom(s, i, buf), buf + s[i..], LostFrom(s, i, |buf|))
    decreases |s| - i
  {
    hide DecodesTo; hide Flush; hide RunChunks; hide Run; hide Packed; hide Repeat; hide EncodeFrom; hide LostFrom;
    hide Literals;
    EncodeStep(s, i, buf);
    if |s| - i < THRESHOLD {
      FlushDecodes(buf + s[i..]);
    } else if s[i] == s[i + 1] && s[i + 1] == s[i + 2] {
      RunStart(s, i);
      var m := Packed(Run(s, i));
      EncodeFromDecodes(s, i + m, []);
      assert [] + s[i + m..] == s[i + m..];
      RunThenRest(s, i, buf, EncodeFrom(s, i + m, []), LostFrom(s, i + m, 0));
    } else {
      var k := if s[i] == s[i + 1] then 2 else 1;
      LiteralsDecode(s, i, buf, k);
    }
  }

  lemma RunDecodes(c: Byte, n: nat)
    ensures DecodesTo(RunChunks(c, n), Repeat(c, Packed(n)), 0)
  {
    RunChunksDecode(c, n);
  }

  lemma {:induction false} LiteralsDecode(s: seq<Byte>, i: nat, buf: seq<Byte>, k: nat)
    requires i + k <= |s| && |buf| < MAX_SINGLE_STORE_SIZE && 0 < k
    ensures DecodesTo(Literals(s, i, buf, k), buf + s[i..], Over(|buf| + k) + LostFrom(s, i + k, Kept(|buf| + k)))
    decreases |s| - i, 0
  {
    hide DecodesTo; hide Flush; hide Run; hide EncodeFrom; hide LostFrom;
    var b := buf + s[i..i + k];
    assert buf + s[i..] == b + s[i + k..];
    if |b| >= MAX_SINGLE_STORE_SIZE {
      EncodeFromDecodes(s, i + k, []);
      FlushDecodes(b);
      DecodesConcat(Flush(b), b, Over(|b|), EncodeFrom(s, i + k, []), [] + s[i + k..], LostFrom(s, i + k, 0));
      assert [] + s[i + k..] == s[i + k..];
    } else {
      EncodeFromDecodes(s, i + k, b);
    }
  }

  lemma EncodeDecodes(s: seq<Byte>)
    ensures WellFormed(Encode(s))
    ensures |Decode(Encode(s))| == |s| - Lost(s)
    ensures Decode(Encode(s)) == s <==> Lost(s) == 0
  {
    EncodeFromDecodes(s, 0, []);
    assert s[0..] == s;
  }

  // ---------------------------------------------------------------------
  // When a byte is lost
  // ---------------------------------------------------------------------

  /** Where the loop is next, and how many bytes are then in the buffer. */
  function Step(s: seq<Byte>, i: nat, n: nat): (r: (nat, nat))
    requires i + THRESHOLD <= |s| && n < MAX_SINGLE_STORE_SIZE
    ensures i < r.0 <= |s| && r.1 < MAX_SINGLE_STORE_SIZE
  {
    if s[i] != s[i + 1] then (i + 1, Kept(n + 1))
    else if s[i + 1] != s[i + 2] then (i + 2, Kept(n + 2))
    else
      assert Run(s, i) == 1 + Run(s, i + 1) && Run(s, i + 1) == 1 + Run(s, i + 2);
      (i + Packed(Run(s, i)), 0)
  }

  /** From place `i` with `n` bytes in the buffer the loop comes to `j` with `m`. */
  ghost predicate Visits(s: seq<Byte>, i: nat, n: nat, j: nat, m: nat)
    requires i <= |s| && n < MAX_SINGLE_STORE_SIZE
    decreases |s| - i
  {
    (i == j && n == m) || (i + THRESHOLD <= |s| && Visits(s, Step(s, i, n).0, Step(s, i, n).1, j, m))
  }

  /** A buffer of 126 bytes meets a pair that is no run, or the last two bytes. */
  predicate Spills(s: seq<Byte>, j: nat, m: nat) {
    && m == MAX_SINGLE_STORE_SIZE - 1 && j <= |s|
    && (|s| - j == 2 || (|s| - j >= THRESHOLD && s[j] == s[j + 1] && s[j + 1] != s[j + 2]))
  }

  lemma LostStep(s: seq<Byte>, i: nat, n: nat)
    requires i <= |s| && n < MAX_SINGLE_STORE_SIZE
    ensures i + THRESHOLD > |s| ==> (LostFrom(s, i, n) > 0 <==> Spills(s, i, n))
    ensures i + THRESHOLD <= |s| ==>
      (LostFrom(s, i, n) > 0 <==> Spills(s, i, n) || LostFrom(s, Step(s, i, n).0, Step(s, i, n).1) > 0)
  {
    hide Run, Packed;
  }

  /** A byte that is lost is lost at a place where the buffer spills. */
  lemma {:induction false} LostSpills(s: seq<Byte>, i: nat, n: nat) returns (j: nat, m: nat)
    requires i <= |s| && n < MAX_SINGLE_STORE_SIZE && LostFrom(s, i, n) > 0
    ensures Visits(s, i, n, j, m) && Spills(s, j, m)
    decreases |s| - i
  {
    hide LostFrom, Spills, Step;
    LostStep(s, i, n);
    if Spills(s, i, n) {
      j, m := i, n;
    } else {
      j, m := LostSpills(s, Step(s, i, n).0, Step(s, i, n).1);
    }
  }

  lemma {:induction false} SpillLoses(s: seq<Byte>, i: nat, n: nat, j: nat, m: nat)
    requires i <= |s| && n < MAX_SINGLE_STORE_SIZE && Visits(s, i, n, j, m) && Spills(s, j, m)
    ensures LostFrom(s, i, n) > 0
    decreases |s| - i
  {
    hide LostFrom, Spills, Step;
    LostStep(s, i, n);
    if !(i == j && n == m) { SpillLoses(s, Step(s, i, n).0, Step(s, i, n).1, j, m); }
  }

  // ---------------------------------------------------------------------
  // The strategy
  // ---------------------------------------------------------------------

  datatype Strategy = Strategy(minInputSize: int, maxInputSize: int, minCompRate: int)

  const DEFAULT_STRATEGY := Strategy(32, INT_MAX, 25)

  /** The size from which on a result counts as a failure. */
  function ResultMax(slen: nat, minCompRate: int): int {
    var rate := if minCompRate < 0 then 0 else if minCompRate > 99 then 99 else minCompRate;
    if slen > INT_MAX / 100 then (slen / 100) * (100 - rate) else (slen * (100 - rate)) / 100
  }

  predicate Accepts(strategy: Strategy, slen: nat) {
    strategy.minInputSize <= slen <= strategy.maxInputSize
  }

  /** The encoded source, if it is small enough. */
  function Compressed(source: seq<Byte>, chosen: Option<Strategy>): Option<seq<Byte>> {
    var strategy := if chosen.None? then DEFAULT_STRATEGY else chosen.value;
    if Accepts(strategy, |source|) && |Encode(source)| < ResultMax(|source|, strategy.minCompRate)
    then Some(Encode(source)) else None
  }

  /** What `rle_compress` returns comes back from `rle_decompress` exactly when no byte was
      lost; otherwise it is rejected as incomplete. */
  lemma RoundTrip(s: seq<Byte>, chosen: Option<Strategy>, behind: seq<Byte>)
    requires Compressed(s, chosen).Some? && |behind| >= MAX_SINGLE_STORE_SIZE
    ensures var e := Compressed(s, chosen).value;
      Restored(e + behind, |e|, |s|) == if Lost(s) == 0 then Some(s) else None
    ensures Lost(s) == 0 <==> forall j: nat, m: nat :: Visits(s, 0, 0, j, m) ==> !Spills(s, j, m)
  {
    hide WellFormed, Decode, Encode, Lost, Visits, Spills;
    var e := Compressed(s, chosen).value;
    EncodeDecodes(s);
    assert e[0..] == e;
    WellFormedIsRead(e, behind, 0);
    LostMeans(s);
  }

  lemma LostMeans(s: seq<Byte>)
    ensures Lost(s) == 0 <==> forall j: nat, m: nat :: Visits(s, 0, 0, j, m) ==> !Spills(s, j, m)
  {
    hide LostFrom, Visits, Spills;
    if Lost(s) > 0 { var j, m := LostSpills(s, 0, 0); }
    forall j: nat, m: nat | Visits(s, 0, 0, j, m) && Spills(s, j, m) ensures Lost(s) > 0 { SpillLoses(s, 0, 0, j, m); }
  }

  // ---------------------------------------------------------------------
  // A source that is compressed and does not come back
  // ---------------------------------------------------------------------

  /** 126 bytes with no two neighbours equal, a pair, another byte and a long run. */
  function SpillingSource(): (s: seq<Byte>)
    ensures |s| == 529
    ensures forall i :: 0 <= i < 126 ==> s[i] == i % 2
    ensures s[126] == 2 && s[127] == 2 && s[128] == 3
    ensures forall i :: 129 <= i < 529 ==> s[i] == 4
  {
    seq(126, i => i % 2) + [2, 2, 3] + Repeat(4, 400)
  }

  lemma {:induction false} SpillVisits(i: nat)
    requires i <= 126
    ensures Visits(SpillingSource(), i, i, 126, 126)
    decreases 126 - i
  {
    hide SpillingSource;
    var s := SpillingSource();
    if i < 126 {
      assert s[i] != s[i + 1];
      SpillVisits(i + 1);
    }
  }

  lemma {:induction false} SpillLiterals(i: nat)
    requires i <= 126
    ensures var s := SpillingSource(); EncodeFrom(s, i, s[..i]) == EncodeFrom(s, 126, s[..126])
    decreases 126 - i
  {
    hide SpillingSource, EncodeFrom, Run, Packed, RunChunks, Flush, LostFrom;
    var s := SpillingSource();
    if i < 126 {
      assert s[i] != s[i + 1] && s[..i] + s[i..i + 1] == s[..i + 1];
      EncodeStep(s, i, s[..i]);
      assert Literals(s, i, s[..i], 1) == EncodeFrom(s, i + 1, s[..i + 1]);
      SpillLiterals(i + 1);
    }
  }

  lemma {:induction false} RunOf(s: seq<Byte>, i: nat)
    requires i < |s| && forall j :: i <= j < |s| ==> s[j] == s[i]
    ensures Run(s, i) == |s| - i
    decreases |s| - i
  {
    if i + 1 < |s| { RunOf(s, i + 1); }
  }

  /** The last run takes four chunks. */
  lemma SpillRun()
    ensures var s := SpillingSource(); EncodeFrom(s, 129, [3]) == [1, 3] + RunChunks(4, 400) && |RunChunks(4, 400)| == 8
  {
    hide SpillingSource;
    var s := SpillingSource();
    RunOf(s, 129);
    assert Packed(10) == 10 && Packed(140) == 140 && Packed(270) == 270 && Packed(400) == 400;
    assert |RunChunks(4, 10)| == 2 && |RunChunks(4, 140)| == 4 && |RunChunks(4, 270)| == 6 && |RunChunks(4, 400)| == 8;
    assert s[529..] == [] && EncodeFrom(s, 529, []) == [];
    assert Flush([3]) == [1, 3];
  }

  lemma SpillSize()
    ensures |Encode(SpillingSource())| == 138
  {
    hide SpillingSource, RunChunks, Run, Packed, EncodeFrom, LostFrom;
    var s := SpillingSource();
    SpillLiterals(0);
    EncodeStep(s, 126, s[..126]);
    EncodeStep(s, 128, []);
    assert s[..0] == [];
    SpillRun();
    assert s[128..129] == [3] && [] + s[128..129] == [3];
    assert EncodeFrom(s, 128, []) == Literals(s, 128, [], 1) == EncodeFrom(s, 129, [3]);
    assert EncodeFrom(s, 126, s[..126]) == Literals(s, 126, s[..126], 2);
  }

  lemma RoundTripFails(behind: seq<Byte>)
    requires |behind| >= MAX_SINGLE_STORE_SIZE
    ensures Compressed(SpillingSource(), None).Some?
    ensures var e := Compressed(SpillingSource(), None).value; Restored(e + behind, |e|, |SpillingSource()|) == None
  {
    hide SpillingSource, Encode, Lost, Restored;
    var s := SpillingSource();
    SpillSize();
    SpillVisits(0);
    assert Spills(s, 126, 126);
    RoundTrip(s, None, behind);
  }

  // ---------------------------------------------------------------------
  // rle_compress
  // ---------------------------------------------------------------------

  method Compress(source: seq<Byte>, chosen: Option<Strategy>) returns (r: Option<seq<Byte>>)
    ensures r == Compressed(source, chosen)
  {
    hide RunChunks; hide Flush; hide Packed; hide Run;
    var strategy := if chosen.None? then DEFAULT_STRATEGY else chosen.value;
    if |source| < strategy.minInputSize || |source| > strategy.maxInputSize {
      return None;
    }
    var resultMax := ResultMax(|source|, strategy.minCompRate);
    var dp := 0;
    var out: seq<Byte>, buf: seq<Byte> := [], [];
    while THRESHOLD <= |source| - dp
      invariant dp <= |source| && |buf| < MAX_SINGLE_STORE_SIZE
      invariant Encode(source) == out + EncodeFrom(source, dp, buf)
      decreases |source| - dp
    {
      if |out| >= resultMax {
        return None;
      }
      if source[dp] == source[dp + 1] && source[dp + 1] == source[dp + 2] {
        RunStart(source, dp);
        var n := RunAt(source, dp);
        var chunks, packed := StoreRun(source[dp], n);
        assert EncodeFrom(source, dp, buf)
            == Flush(buf) + RunChunks(source[dp], n) + EncodeFrom(source, dp + packed, []);
        var stored := StoreBuffer(buf);
        AppendAll(out, stored, chunks, EncodeFrom(source, dp + packed, []));
        out := out + stored + chunks;
        buf := [];
        dp := dp + packed;
      } else {
        var k := if source[dp] == source[dp + 1] then 2 else 1;
        assert EncodeFrom(source, dp, buf) == Literals(source, dp, buf, k);
        buf := buf + source[dp..dp + k];
        dp := dp + k;
        if |buf| >= MAX_SINGLE_STORE_SIZE {
          var stored := StoreBuffer(buf);
          AppendAll(out, stored, [], EncodeFrom(source, dp, []));
          out := out + stored;
          buf := [];
        }
      }
    }
    buf := buf + source[dp..];
    var stored := StoreBuffer(buf);
    out := out + stored;
    if |out| >= resultMax {
      return None;
    }
    return Some(out);
  }

  lemma AppendAll(a: seq<Byte>, b: seq<Byte>, c: seq<Byte>, d: seq<Byte>)
    ensures a + (b + c + d) == a + b + c + d
    ensures c == [] ==> a + (b + d) == a + b + d
  {
  }

  /** `store_single_buf` on the buffer, full or not. */
  method StoreBuffer(buf: seq<Byte>) returns (out: seq<Byte>)
    ensures out == Flush(buf)
  {
    if |buf| >= MAX_SINGLE_STORE_SIZE {
      out := [MAX_SINGLE_STORE_SIZE] + buf[..MAX_SINGLE_STORE_SIZE];
    } else if buf != [] {
      out := [|buf|] + buf;
    } else {
      out := [];
    }
  }

  /** Counts the run that starts at `dp`. */
  method RunAt(source: seq<Byte>, dp: nat) returns (n: nat)
    requires dp + THRESHOLD <= |source| && source[dp] == source[dp + 1] && source[dp + 1] == source[dp + 2]
    ensures n == Run(source, dp)
  {
    var index := 1;
    while dp + index + 2 < |source| && source[dp + index + 1] == source[dp + index + 2]
      invariant 1 <= index && dp + index + 1 < |source|
      invariant Run(source, dp) == index + 1 + Run(source, dp + index + 1)
    {
      index := index + 1;
    }
    n := index + 2;
  }

  /** Stores a run in chunks of at most 130 while at least 3 bytes of it are left. */
  method StoreRun(c: Byte, n: nat) returns (chunks: seq<Byte>, packed: nat)
    requires n >= THRESHOLD
    ensures chunks == RunChunks(c, n) && packed == Packed(n)
  {
    hide RunChunks;
    hide Packed;
    chunks, packed := [], 0;
    var index: int := n - 2;
    while index > 0
      invariant index >= -MAX_REPEATED_SIZE && packed + Left(index) <= n
      invariant RunChunks(c, n) == chunks + RunChunks(c, Left(index))
      invariant Packed(n) == packed + Packed(Left(index))
    {
      RunStep(c, index);
      if index + 2 > MAX_REPEATED_SIZE {
        chunks := chunks + [MAX_REPEATED_SIZE - THRESHOLD + 128, c];
        packed := packed + MAX_REPEATED_SIZE;
      } else {
        chunks := chunks + [index + 2 - THRESHOLD + 128, c];
        packed := packed + (index + 2);
      }
      index := index - MAX_REPEATED_SIZE;
    }
    RunEnd(c);
  }

  /** How much of a run is left when the loop's counter is `index`. */
  function Left(index: int): nat {
    if index > 0 then index + 2 else 0
  }

  lemma RunStep(c: Byte, index: int)
    requires index > 0
    ensures RunChunks(c, Left(index)) ==
      (if index + 2 > MAX_REPEATED_SIZE then [MAX_REPEATED_SIZE - THRESHOLD + 128, c]
       else [index + 2 - THRESHOLD + 128, c])
      + RunChunks(c, Left(index - MAX_REPEATED_SIZE))
    ensures Packed(Left(index)) ==
      (if index + 2 > MAX_REPEATED_SIZE then MAX_REPEATED_SIZE else index + 2) + Packed(Left(index - MAX_REPEATED_SIZE))
  {
  }

  lemma RunEnd(c: Byte)
    ensures RunChunks(c, 0) == [] && Packed(0) == 0
  {
  }

  // ---------------------------------------------------------------------
  // rle_decompress
  // ---------------------------------------------------------------------

  /** The reader stands at `sp` and has written `dest`. */
  ghost predicate ReadTo(mem: seq<Byte>, end: nat, rawsize: nat, sp: nat, dest: seq<Byte>)
    requires Readable(mem, end)
  {
    && TextFrom(mem, end, 0) == dest + TextFrom(mem, end, sp) && StopFrom(mem, end, sp) == StopFrom(mem, end, 0)
    && (Busy(mem, end, 0) ==> Busy(mem, end, sp))
    && (|TextFrom(mem, end, 0)| == rawsize && Busy(mem, end, sp) ==> Busy(mem, end, 0))
  }

  lemma ReadChunk(mem: seq<Byte>, end: nat, rawsize: nat, sp: nat, dest: seq<Byte>)
    requires Readable(mem, end) && ReadTo(mem, end, rawsize, sp, dest) && sp < end && |dest| < rawsize
    ensures ReadTo(mem, end, rawsize, sp + ChunkSize(mem[sp]), dest + TextAt(mem, sp))
  {
    hide TextAt;
    var next := sp + ChunkSize(mem[sp]);
    assert dest + TextFrom(mem, end, sp) == dest + TextAt(mem, sp) + TextFrom(mem, end, next);
  }

  lemma ReadAll(mem: seq<Byte>, end: nat, rawsize: nat, sp: nat, dest: seq<Byte>)
    requires Readable(mem, end) && ReadTo(mem, end, rawsize, sp, dest) && (sp >= end || |dest| >= rawsize)
    ensures Restored(mem, end, rawsize) == if |dest| == rawsize && sp == end then Some(dest) else None
    ensures var text := TextFrom(mem, end, 0);
      dest <= text && (rawsize <= |text| ==> |dest| >= rawsize) && (sp >= end ==> dest == text)
  {
    hide TextAt;
  }

  /** Any bytes may come in. A chunk that runs over the end of the source is filled from what
      stands `behind` it. With the check for completeness the result is good exactly for whole
      chunks of the right size; without it, chunks are read until there is text enough. */
  method Decompress(source: seq<Byte>, behind: seq<Byte>, rawsize: nat, checkComplete: bool)
    returns (r: Option<seq<Byte>>)
    requires |behind| >= MAX_SINGLE_STORE_SIZE
    ensures checkComplete ==> r == Restored(source + behind, |source|, rawsize)
    ensures !checkComplete ==>
      && r.Some?
      && var text := TextFrom(source + behind, |source|, 0);
      && r.value <= text && (rawsize <= |text| ==> |r.value| >= rawsize) && (rawsize > |text| ==> r.value == text)
  {
    hide Repeat, ReadTo, TextFrom, Restored;
    var mem, end := source + behind, |source|;
    var sp := 0;
    var dest: seq<Byte> := [];
    assert ReadTo(mem, end, rawsize, 0, []) by { ReadNothing(mem, end, rawsize); }
    while sp < end && |dest| < rawsize
      invariant ReadTo(mem, end, rawsize, sp, dest)
      decreases end - sp
    {
      ReadChunk(mem, end, rawsize, sp, dest);
      if mem[sp] >= 128 {
        var repeatCount := mem[sp] - 128 + THRESHOLD;
        dest := dest + Repeat(mem[sp + 1], repeatCount);
        sp := sp + 2;
      } else {
        var singleCount := mem[sp];
        dest := dest + mem[sp + 1..sp + 1 + singleCount];
        sp := sp + 1 + singleCount;
      }
    }
    ReadAll(mem, end, rawsize, sp, dest);
    if checkComplete && (|dest| != rawsize || sp != end) {
      return None;
    }
    return Some(dest);
  }

  lemma ReadNothing(mem: seq<Byte>, end: nat, rawsize: nat)
    requires Readable(mem, end)
    ensures ReadTo(mem, end, rawsize, 0, [])
  {
  }
}
