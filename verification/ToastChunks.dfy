/**
  amcheck's check of one toasted value: chunks come from an index scan, one by one, and
  are compared with what the toast pointer says.
 */
module ToastChunks {
  const MAX_CHUNK := 1996
  const WORD := 0x1_0000_0000

  datatype Content = NullData | BadHeader | Bytes(size: nat)

  datatype Chunk = NullSequence | Chunk(sequence: int, content: Content)

  /** The external size in a toast pointer, a 30-bit field. */
  type Size = n: nat | n < 0x4000_0000

  datatype Kind =
    | SequenceIsNull | WrongSequence | DataIsNull | InvalidHeader | AfterLast | WrongSize | NotFound | EndedEarly

  /** Number of the last chunk, in 32-bit unsigned arithmetic. */
  function Last(extsize: Size): nat {
    ((extsize - 1) % WORD) / MAX_CHUNK
  }

  function ExpectedSize(extsize: Size, i: int): int {
    if i < Last(extsize) then MAX_CHUNK else (extsize - Last(extsize) * MAX_CHUNK) % WORD
  }

  // ---------------------------------------------------------------------
  // What an intact value looks like
  // ---------------------------------------------------------------------

  ghost predicate GoodChunk(extsize: Size, chunk: Chunk, i: int) {
    chunk.Chunk? && chunk.sequence == i && i <= Last(extsize) && chunk.content == Bytes(ExpectedSize(extsize, i))
  }

  /** The chunks are numbered 0, 1, ... up to the last and have the sizes of an even cut. */
  ghost predicate Intact(extsize: Size, chunks: seq<Chunk>) {
    |chunks| == Last(extsize) + 1 && forall i :: 0 <= i < |chunks| ==> GoodChunk(extsize, chunks[i], i)
  }

  // ---------------------------------------------------------------------
  // The check
  // ---------------------------------------------------------------------

  /** `check_toast_tuple`: the reports for one chunk and the number expected next. */
  method CheckChunk(extsize: Size, chunk: Chunk, expected: int) returns (reports: seq<Kind>, next: int)
    ensures reports == [] <==> GoodChunk(extsize, chunk, expected)
    ensures next == if chunk.Chunk? then chunk.sequence + 1 else expected
  {
    reports, next := [], expected;
    if chunk.NullSequence? {
      reports := [SequenceIsNull];
      return;
    }
    if chunk.sequence != expected {
      reports := reports + [WrongSequence];
    }
    next := chunk.sequence + 1;
    if chunk.content.NullData? {
      reports := reports + [DataIsNull];
      return;
    }
    if chunk.content.BadHeader? {
      reports := reports + [InvalidHeader];
      return;
    }
    if chunk.sequence > Last(extsize) {
      reports := reports + [AfterLast];
      return;
    }
    if chunk.content.size != ExpectedSize(extsize, chunk.sequence) {
      reports := reports + [WrongSize];
    }
  }

  /** `check_toasted_attribute`: nothing is reported exactly for an intact value. */
  method CheckAttribute(extsize: Size, chunks: seq<Chunk>) returns (reports: seq<Kind>)
    ensures reports == [] <==> Intact(extsize, chunks)
  {
    hide ExpectedSize;
    reports := [];
    var expected, found := 0, false;
    var i := 0;
    while i < |chunks|
      invariant 0 <= i <= |chunks| && (found <==> i > 0)
      invariant reports == [] <==> forall j :: 0 <= j < i ==> GoodChunk(extsize, chunks[j], j)
      invariant reports == [] ==> expected == i
    {
      found := true;
      var more, next := CheckChunk(extsize, chunks[i], expected);
      reports, expected := reports + more, next;
      i := i + 1;
    }
    if !found {
      reports := reports + [NotFound];
    } else if expected <= Last(extsize) {
      reports := reports + [EndedEarly];
    }
    assert |chunks| > Last(extsize) + 1 && reports == [] ==> GoodChunk(extsize, chunks[|chunks| - 1], |chunks| - 1);
  }

  // ---------------------------------------------------------------------
  // Sizes
  // ---------------------------------------------------------------------

  ghost function Total(chunks: seq<Chunk>): int {
    if chunks == [] then 0
    else
      var last := chunks[|chunks| - 1];
      Total(chunks[..|chunks| - 1]) + if last.Chunk? && last.content.Bytes? then last.content.size else 0
  }

  lemma {:induction false} FullChunks(extsize: Size, chunks: seq<Chunk>, n: nat)
    requires n <= |chunks| && n <= Last(extsize)
    requires forall i :: 0 <= i < |chunks| ==> GoodChunk(extsize, chunks[i], i)
    ensures Total(chunks[..n]) == n * MAX_CHUNK
  {
    if n > 0 {
      FullChunks(extsize, chunks, n - 1);
      assert chunks[..n][..n - 1] == chunks[..n - 1];
      assert GoodChunk(extsize, chunks[n - 1], n - 1);
    }
  }

  /** The chunks of a value without reports add up to its size; size zero is taken for 2^32. */
  lemma IntactAddsUp(extsize: Size, chunks: seq<Chunk>)
    requires Intact(extsize, chunks)
    ensures Total(chunks) == if extsize >= 1 then extsize else WORD
  {
    var n := Last(extsize);
    FullChunks(extsize, chunks, n);
    assert GoodChunk(extsize, chunks[n], n);
    assert Total(chunks) == n * MAX_CHUNK + ExpectedSize(extsize, n);
    LastChunkSize(extsize);
  }

  /** The last chunk is never empty and never longer than the others. */
  lemma LastChunkSize(extsize: Size)
    ensures 1 <= ExpectedSize(extsize, Last(extsize)) <= MAX_CHUNK
    ensures Last(extsize) * MAX_CHUNK + ExpectedSize(extsize, Last(extsize)) == if extsize >= 1 then extsize else WORD
  {
  }

  /** For every size there is an intact value, so the check is not always negative. */
  lemma SomeValueIsIntact(extsize: Size)
    ensures exists chunks :: Intact(extsize, chunks)
  {
    LastChunkSize(extsize);
    var size := i => if i < Last(extsize) then MAX_CHUNK else ExpectedSize(extsize, Last(extsize));
    var chunks := seq(Last(extsize) + 1, i => Chunk(i, Bytes(size(i))));
    assert Intact(extsize, chunks);
  }
}
