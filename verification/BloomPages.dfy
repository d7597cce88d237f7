/**
  The page code of the bloom index that works in place: adding to a page, compacting it
  under vacuum, building the first pages, and reading them all.
 */
module BloomPages {
  import opened Wrappers
  import opened BloomSignature
  import opened BloomIndex

  /** How many tuples the page has room for. */
  function Slots(words: nat): nat {
    Quotient(BLOCK_SIZE - PAGE_HEADER - OPAQUE_SIZE, TupleSize(words))
  }

  function Quotient(room: nat, size: nat): nat
    requires size > 0
  {
    room / size
  }

  class PageBuffer {
    const words: nat
    /** The space between page header and special area. */
    const items: array<Tuple>
    var maxoff: nat
    var deleted: bool

    ghost predicate Valid()
      reads this, items
    {
      && 1 <= words <= 256
      && items.Length == Slots(words)
      && maxoff <= items.Length
    }

    ghost function Contents(): seq<Tuple>
      requires Valid()
      reads this, items
    {
      items[..maxoff]
    }

    /** `BloomInitPage`. */
    constructor (words: nat)
      requires 1 <= words <= 256
      ensures Valid() && fresh(items) && this.words == words && Contents() == [] && !deleted
    {
      this.words := words;
      items := new Tuple[Slots(words)](_ => Tuple(0, []));
      maxoff := 0;
      deleted := false;
    }

    method Reset()
      requires Valid()
      modifies this
      ensures Valid() && Contents() == [] && !deleted
    {
      maxoff := 0;
      deleted := false;
    }

    /** The tuple is written only if it fits, so never beyond the page. */
    method Add(t: Tuple) returns (added: bool)
      requires Valid()
      modifies this`maxoff, items
      ensures Valid()
      ensures added <==> AddItem(words, old(Contents()), t).Some?
      ensures added ==> AddItem(words, old(Contents()), t) == Some(Data(Contents()))
      ensures !added ==> Contents() == old(Contents())
    {
      hide FreeSpace;
      hide TupleSize;
      hide Slots;
      if FreeSpace(words, maxoff) < TupleSize(words) {
        return false;
      }
      RoomMeansSlot(words, maxoff);
      ghost var before := items[..maxoff];
      items[maxoff] := t;
      maxoff := maxoff + 1;
      assert items[..maxoff] == before + [t];
      return true;
    }

    /** The tuple loop of `blbulkdelete`: what is left moves to the front. */
    method Compact(dead: set<Tid>) returns (removed: nat)
      requires Valid() && !deleted
      modifies this, items
      ensures Valid() && Contents() == Keep(old(Contents()), dead)
      ensures removed == |Drop(old(Contents()), dead)| && removed + maxoff == old(maxoff)
      ensures deleted <==> removed > 0 && maxoff == 0
    {
      hide Slots;
      hide Keep;
      hide Drop;
      var end := maxoff;
      ghost var before := items[..end];
      var itup, itupPtr := 0, 0;
      removed := 0;
      assert before[..0] == [];
      KeepNone(dead);
      while itup < end
        invariant 0 <= itupPtr <= itup <= end <= items.Length && end == |before|
        invariant maxoff == end - removed && removed == itup - itupPtr && !deleted
        invariant items[..itupPtr] == Keep(before[..itup], dead)
        invariant removed == |Drop(before[..itup], dead)|
        invariant items[itup..end] == before[itup..]
      {
        assert items[itup] == items[itup..end][0] == before[itup];
        KeepNext(before, itup, dead);
        if items[itup].heapPtr in dead {
          maxoff := maxoff - 1;
          removed := removed + 1;
        } else {
          ghost var kept := items[..itupPtr];
          ghost var rest := items[itup + 1..end];
          assert rest == items[itup..end][1..];
          if itupPtr != itup {
            items[itupPtr] := items[itup];
          }
          assert items[..itupPtr + 1] == kept + [before[itup]];
          assert items[itup + 1..end] == rest;
          itupPtr := itupPtr + 1;
        }
        assert before[itup..][1..] == before[itup + 1..];
        itup := itup + 1;
      }
      assert before[..itup] == before;
      if itupPtr != itup {
        if maxoff == 0 {
          deleted := true;
        }
      }
    }
  }

  lemma RoomMeansSlot(words: nat, maxoff: nat)
    requires FreeSpace(words, maxoff) >= TupleSize(words)
    ensures maxoff < Slots(words)
  {
    QuotientAbove(BLOCK_SIZE - PAGE_HEADER - OPAQUE_SIZE, TupleSize(words), maxoff + 1);
  }

  lemma QuotientAbove(room: nat, size: nat, n: nat)
    requires size > 0 && n * size <= room
    ensures n <= Quotient(room, size)
  {
    var q := room / size;
    assert room < q * size + size;
    if n >= q + 1 { TimesMonotone(q + 1, n, size); }
  }

  lemma TimesMonotone(a: nat, b: nat, size: nat)
    requires a <= b
    ensures a * size <= b * size
  {
  }

  lemma KeepNone(dead: set<Tid>)
    ensures Keep([], dead) == [] && Drop([], dead) == []
  {
  }

  lemma KeepNext(tuples: seq<Tuple>, i: nat, dead: set<Tid>)
    requires i < |tuples|
    ensures Keep(tuples[..i + 1], dead) ==
      Keep(tuples[..i], dead) + if tuples[i].heapPtr in dead then [] else [tuples[i]]
    ensures Drop(tuples[..i + 1], dead) ==
      Drop(tuples[..i], dead) + if tuples[i].heapPtr in dead then [tuples[i]] else []
  {
    assert tuples[..i + 1][..i] == tuples[..i];
  }

  // ---------------------------------------------------------------------
  // blbuild
  // ---------------------------------------------------------------------

  /** All tuples, page after page. */
  ghost function Flatten(pages: seq<Page>): seq<Tuple> {
    if pages == [] then [] else Flatten(pages[..|pages| - 1]) + Items(pages[|pages| - 1])
  }

  ghost predicate Full(words: nat, page: Page) {
    page.Data? && FreeSpace(words, |page.tuples|) < TupleSize(words)
  }

  /** Pages flushed so far: all in order and all full. */
  ghost predicate Flushed(words: nat, pages: seq<Page>) {
    && |pages| >= 1 && pages[0] == Meta
    && forall i :: 1 <= i < |pages| ==> PageOk(words, pages[i]) && Full(words, pages[i])
  }

  lemma FlattenAppend(pages: seq<Page>, page: Page)
    ensures Flatten(pages + [page]) == Flatten(pages) + Items(page)
  {
    assert (pages + [page])[..|pages|] == pages;
  }

  lemma FlushedFull(words: nat, pages: seq<Page>, tuples: seq<Tuple>, t: Tuple)
    requires Flushed(words, pages) && PageOk(words, Data(tuples)) && AddItem(words, tuples, t).None?
    ensures Flushed(words, pages + [Data(tuples)])
  {
    hide PageOk;
    hide FreeSpace;
    hide TupleSize;
  }

  /** The cached page while building: in order, but empty at first. */
  ghost predicate CacheOk(words: nat, tuples: seq<Tuple>) {
    tuples == [] || PageOk(words, Data(tuples))
  }

  lemma CacheGrows(words: nat, tuples: seq<Tuple>, t: Tuple)
    requires CacheOk(words, tuples) && |t.sign| == words && AddItem(words, tuples, t).Some?
    ensures CacheOk(words, tuples + [t])
  {
    hide FreeSpace;
    hide TupleSize;
    AddedIsOk(words, if tuples == [] then New else Data(tuples), t);
  }

  /** Flushed pages and the cached page together hold the rows read so far. */
  ghost predicate Building(words: nat, pages: seq<Page>, cached: seq<Tuple>, rows: seq<Tuple>) {
    && Flushed(words, pages) && CacheOk(words, cached) && Flatten(pages) + cached == rows
    && (cached == [] ==> rows == [])
  }

  lemma BuildingFlush(words: nat, pages: seq<Page>, cached: seq<Tuple>, rows: seq<Tuple>, t: Tuple)
    requires Building(words, pages, cached, rows) && 1 <= words <= 256 && |t.sign| == words
    requires AddItem(words, cached, t).None?
    ensures Building(words, pages + [Data(cached)], [t], rows + [t])
  {
    hide PageOk;
    hide AddItem;
    hide Full;
    EmptyPageAccepts(words, t);
    FlushedFull(words, pages, cached, t);
    FlattenAppend(pages, Data(cached));
    CacheGrows(words, [], t);
    assert [] + [t] == [t];
  }

  lemma BuildingAdd(words: nat, pages: seq<Page>, cached: seq<Tuple>, rows: seq<Tuple>, t: Tuple)
    requires Building(words, pages, cached, rows) && |t.sign| == words && AddItem(words, cached, t).Some?
    ensures AddItem(words, cached, t) == Some(Data(cached + [t])) && Building(words, pages, cached + [t], rows + [t])
  {
    hide PageOk;
    hide FreeSpace;
    hide Full;
    CacheGrows(words, cached, t);
    assert Flatten(pages) + (cached + [t]) == (Flatten(pages) + cached) + [t];
  }

  /** `bloomBuildCallback`. */
  method BuildCallback(words: nat, pages: seq<Page>, cache: PageBuffer, t: Tuple, ghost rows: seq<Tuple>)
    returns (pages': seq<Page>)
    requires cache.Valid() && cache.words == words && |t.sign| == words
    requires Building(words, pages, cache.Contents(), rows)
    modifies cache, cache.items
    ensures cache.Valid() && Building(words, pages', cache.Contents(), rows + [t])
  {
    hide Building;
    hide AddItem;
    hide Slots;
    pages' := pages;
    ghost var cached := cache.Contents();
    var added := cache.Add(t);
    if added {
      BuildingAdd(words, pages, cached, rows, t);
    } else {
      BuildingFlush(words, pages, cached, rows, t);
      pages' := pages + [Data(cache.items[..cache.maxoff])];
      cache.Reset();
      EmptyPageAccepts(words, t);
      added := cache.Add(t);
      assert cache.Contents() == [t];
    }
  }

  lemma BuiltIsOk(words: nat, pages: seq<Page>, cached: seq<Tuple>, rows: seq<Tuple>)
    requires Building(words, pages, cached, rows) && 1 <= words <= 256
    ensures cached == [] ==> IndexOk(EmptyMeta(words, pages)) && Flatten(pages) == rows
    ensures cached != [] ==>
      IndexOk(EmptyMeta(words, pages + [Data(cached)])) && Flatten(pages + [Data(cached)]) == rows
    ensures Flushed(words, pages) && (rows == [] <==> cached == [])
  {
    hide PageOk;
    hide FreeSpace;
    FlattenAppend(pages, Data(cached));
  }

  /** No page is known to have free space. */
  function EmptyMeta(words: nat, pages: seq<Page>): Index {
    Index(words, pages, 0, 0, seq(META_BLOCKS, _ => 0), {})
  }

  /** The index is built page by page: all rows in order, every page but the last full. */
  method Build(words: nat, rows: seq<Tuple>) returns (idx: Index, indtuples: nat)
    requires 1 <= words <= 256 && forall i :: 0 <= i < |rows| ==> |rows[i].sign| == words
    ensures IndexOk(idx) && Flatten(idx.pages) == rows && indtuples == |rows|
    ensures idx == EmptyMeta(words, idx.pages)
    ensures Flushed(words, if rows == [] then idx.pages else idx.pages[..|idx.pages| - 1])
  {
    hide Building;
    hide IndexOk;
    hide Slots;
    hide Flushed;
    var pages := [Meta];
    var cache := new PageBuffer(words);
    indtuples := 0;
    NothingBuilt(words);
    while indtuples < |rows|
      invariant 0 <= indtuples <= |rows| && fresh(cache) && fresh(cache.items)
      invariant cache.Valid() && cache.words == words
      invariant Building(words, pages, cache.Contents(), rows[..indtuples])
    {
      var t := rows[indtuples];
      assert rows[..indtuples + 1] == rows[..indtuples] + [t];
      pages := BuildCallback(words, pages, cache, t, rows[..indtuples]);
      indtuples := indtuples + 1;
    }
    assert rows[..indtuples] == rows;
    BuiltIsOk(words, pages, cache.Contents(), rows);
    if cache.maxoff > 0 {
      var last := Data(cache.items[..cache.maxoff]);
      assert (pages + [last])[..|pages|] == pages;
      pages := pages + [last];
    }
    idx := EmptyMeta(words, pages);
  }

  lemma NothingBuilt(words: nat)
    ensures Building(words, [Meta], [], [])
  {
    FlattenAppend([], Meta);
    assert [] + [Meta] == [Meta];
  }

  // ---------------------------------------------------------------------
  // blgetbitmap
  // ---------------------------------------------------------------------

  /** What a scan that runs alone collects from the first `n` pages. */
  function Collect(idx: Index, sign: seq<Word>, n: nat): seq<Tid>
    requires IndexOk(idx) && 1 <= n <= |idx.pages| && |sign| == idx.words
  {
    if n == 1 then [] else Collect(idx, sign, n - 1) + Hits(Items(idx.pages[n - 1]), sign)
  }

  lemma HitsNext(tuples: seq<Tuple>, sign: seq<Word>, i: nat)
    requires i < |tuples| && forall t :: t in tuples ==> |t.sign| == |sign|
    ensures Hits(tuples[..i + 1], sign) ==
      Hits(tuples[..i], sign) + if Covers(tuples[i].sign, sign) then [tuples[i].heapPtr] else []
  {
    assert tuples[..i + 1][..i] == tuples[..i];
    CoversUpTo(tuples[i].sign, sign);
  }

  /** The tuple loop. */
  method ScanPage(tuples: seq<Tuple>, sign: seq<Word>) returns (tids: seq<Tid>)
    requires forall t :: t in tuples ==> |t.sign| == |sign|
    ensures tids == Hits(tuples, sign)
  {
    hide Covers;
    tids := [];
    var offset := 1;
    assert tuples[..0] == [];
    while offset <= |tuples|
      invariant 1 <= offset <= |tuples| + 1 && tids == Hits(tuples[..offset - 1], sign)
    {
      var t := tuples[offset - 1];
      HitsNext(tuples, sign, offset - 1);
      var res := Matches(t.sign, sign);
      if res {
        tids := tids + [t.heapPtr];
      }
      offset := offset + 1;
    }
    assert tuples[..offset - 1] == tuples;
  }

  /** A tuple on one of the first `n` pages has every bit sought. */
  ghost predicate Matched(idx: Index, sign: seq<Word>, n: nat, tid: Tid)
    requires n <= |idx.pages|
  {
    exists i: nat, t :: 1 <= i < n && t in Items(idx.pages[i]) && t.heapPtr == tid && Covers(t.sign, sign)
  }

  lemma HitsIff(idx: Index, sign: seq<Word>, i: nat, tid: Tid)
    requires IndexOk(idx) && 1 <= i < |idx.pages| && |sign| == idx.words
    ensures forall u :: u in Items(idx.pages[i]) ==> |u.sign| == |sign|
    ensures tid in Hits(Items(idx.pages[i]), sign) <==>
      exists t :: t in Items(idx.pages[i]) && t.heapPtr == tid && Covers(t.sign, sign)
  {
    hide Hits, IndexOk, WordsMatch, Covers;
    var tuples := Items(idx.pages[i]);
    ItemsSigned(idx, i);
    if tid in Hits(tuples, sign) {
      HitsAreReal(tuples, sign, tid);
      var t :| t in tuples && t.heapPtr == tid && WordsMatch(t.sign, sign);
      CoversUpTo(t.sign, sign);
    }
    if t :| t in tuples && t.heapPtr == tid && Covers(t.sign, sign) {
      CoversUpTo(t.sign, sign);
      HitsFinds(tuples, sign, t);
    }
  }

  /** A scan that runs alone collects exactly the tuples that have every bit sought. */
  lemma {:induction false} CollectIff(idx: Index, sign: seq<Word>, n: nat, tid: Tid)
    requires IndexOk(idx) && 1 <= n <= |idx.pages| && |sign| == idx.words
    ensures tid in Collect(idx, sign, n) <==> Matched(idx, sign, n, tid)
  {
    hide IndexOk, Hits, Covers;
    if n > 1 {
      CollectIff(idx, sign, n - 1, tid);
      HitsIff(idx, sign, n - 1, tid);
    }
  }

  method GetBitmap(idx: Index, sign: seq<Word>) returns (tbm: seq<Tid>, ntids: nat)
    requires IndexOk(idx) && |sign| == idx.words
    ensures forall tid :: tid in tbm <==> Matched(idx, sign, |idx.pages|, tid)
    ensures tbm == Collect(idx, sign, |idx.pages|) && ntids == |tbm|
  {
    hide Hits, Matched;
    tbm, ntids := [], 0;
    var blkno := 1;
    while blkno < |idx.pages|
      invariant 1 <= blkno <= |idx.pages| && tbm == Collect(idx, sign, blkno) && ntids == |tbm|
    {
      assert PageOk(idx.words, idx.pages[blkno]);
      var tids := ScanPage(Items(idx.pages[blkno]), sign);
      tbm, ntids := tbm + tids, ntids + |tids|;
      blkno := blkno + 1;
    }
    forall tid ensures tid in tbm <==> Matched(idx, sign, |idx.pages|, tid) {
      CollectIff(idx, sign, |idx.pages|, tid);
    }
  }
}
