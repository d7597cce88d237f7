/**
  The compressor's table is a finite map, the program's an array of slots that reads digrams
  through the stored symbols. Played on the array, the accesses of a run find what the map
  holds, and every probe ends as long as fewer symbols were stored than the shortest probe
  path has slots.
 */
module SequiturTable {
  import opened Grammar
  import opened SequiturHeap
  import opened SequiturLog
  import T = DigramTable

  /** The machine word of a key: an odd one for a character, an address for a rule. */
  type Code = Key -> bv64

  /** Different keys in the memory are different words: characters are odd, and live rules are
      at different, even addresses. */
  ghost predicate CodesApart(code: Code, h: Heap) {
    forall x, y :: x in h.key && y in h.key && code(h.key[x]) == code(h.key[y]) ==> h.key[x] == h.key[y]
  }

  ghost function Coded(code: Code, d: Digram): T.Digram {
    (code(d.0), code(d.1))
  }

  /** The digrams as they are read through the symbols. */
  ghost function Digs(h: Heap, code: Code): map<Ptr, T.Digram> {
    map x | x in h.key && HasDigram(h, x) :: Coded(code, DigramOf(h, x))
  }

  /** `contents` is the table, in machine words. */
  ghost predicate Mirrors(contents: map<T.Digram, Ptr>, table: map<Digram, Ptr>, code: Code) {
    && (forall d {:trigger Coded(code, d)} :: d in table ==>
          Coded(code, d) in contents && contents[Coded(code, d)] == table[d])
    && (forall e :: e in contents ==> exists d :: d in table && Coded(code, d) == e)
  }

  /** The slots hold the table of the heap. */
  ghost predicate Refines(slots: seq<T.Slot>, contents: map<T.Digram, Ptr>, h: Heap, code: Code) {
    T.Holds(slots, Digs(h, code), contents) && Mirrors(contents, h.table, code)
  }

  /** Relinking symbols leaves the slots right, as long as no entry is left behind. */
  lemma RelinkRefines(slots: seq<T.Slot>, contents: map<T.Digram, Ptr>, dig: map<Ptr, T.Digram>, h: Heap, code: Code)
    requires T.Holds(slots, dig, contents) && Mirrors(contents, h.table, code) && TableOk(h)
    ensures Refines(slots, contents, h, code)
  {
    hide T.Holds;
    forall e | e in contents ensures contents[e] in Digs(h, code) && Digs(h, code)[contents[e]] == e {
      var d :| d in h.table && Coded(code, d) == e;
      assert Entry(h, d, h.table[d]);
    }
    T.HoldsFrame(slots, dig, Digs(h, code), contents);
  }

  lemma SameDigram(code: Code, h: Heap, x: Ptr, y: Ptr)
    requires CodesApart(code, h) && HasDigram(h, x) && HasDigram(h, y)
    requires Coded(code, DigramOf(h, x)) == Coded(code, DigramOf(h, y))
    ensures DigramOf(h, x) == DigramOf(h, y)
  {
  }

  /** A digram of the table is told from any other. */
  lemma EntryDiffers(code: Code, h: Heap, x: Ptr, d: Digram)
    requires CodesApart(code, h) && HasDigram(h, x) && TableOk(h) && d in h.table
    requires Coded(code, d) == Coded(code, DigramOf(h, x))
    ensures d == DigramOf(h, x)
  {
    hide Coded, CodesApart;
    assert Entry(h, d, h.table[d]);
    SameDigram(code, h, x, h.table[d]);
  }

  /** A symbol stored under the word of its digram is one stored under its digram. */
  lemma StoreMirrors(contents: map<T.Digram, Ptr>, h: Heap, code: Code, x: Ptr)
    requires CodesApart(code, h) && TableOk(h) && Mirrors(contents, h.table, code) && HasDigram(h, x)
    ensures var d := DigramOf(h, x);
      Mirrors(contents[Coded(code, d) := x], h.table[d := x], code)
  {
    hide Coded, CodesApart, TableOk;
    var d := DigramOf(h, x);
    var table, contents' := h.table[d := x], contents[Coded(code, d) := x];
    forall d' | d' in table ensures Coded(code, d') in contents' && contents'[Coded(code, d')] == table[d'] {
      if d' != d && Coded(code, d') == Coded(code, d) { EntryDiffers(code, h, x, d'); }
    }
    forall e | e in contents' ensures exists d' :: d' in table && Coded(code, d') == e {
      if e == Coded(code, d) {
        assert d in table;
      } else {
        var d' :| d' in h.table && Coded(code, d') == e;
        assert d' in table;
      }
    }
  }

  /** An entry that is the symbol is there in both, or in neither. */
  lemma SameEntry(contents: map<T.Digram, Ptr>, h: Heap, code: Code, x: Ptr)
    requires CodesApart(code, h) && TableOk(h) && Mirrors(contents, h.table, code) && HasDigram(h, x)
    ensures var d := DigramOf(h, x);
      && (Coded(code, d) in contents <==> d in h.table)
      && (d in h.table ==> contents[Coded(code, d)] == h.table[d])
  {
    hide Coded, CodesApart, TableOk;
    var d := DigramOf(h, x);
    if Coded(code, d) in contents {
      var d' :| d' in h.table && Coded(code, d') == Coded(code, d);
      EntryDiffers(code, h, x, d');
    }
  }

  /** Removing it from one is removing it from the other. */
  lemma DropMirrors(contents: map<T.Digram, Ptr>, h: Heap, code: Code, x: Ptr)
    requires CodesApart(code, h) && TableOk(h) && Mirrors(contents, h.table, code) && HasDigram(h, x)
    requires DigramOf(h, x) in h.table
    ensures var d := DigramOf(h, x);
      Mirrors(contents - {Coded(code, d)}, h.table - {d}, code)
  {
    hide Coded, CodesApart, TableOk;
    var d := DigramOf(h, x);
    var table, contents' := h.table - {d}, contents - {Coded(code, d)};
    forall d' | d' in table ensures Coded(code, d') in contents' && contents'[Coded(code, d')] == table[d'] {
      if Coded(code, d') == Coded(code, d) { EntryDiffers(code, h, x, d'); }
    }
    forall e | e in contents' ensures exists d' :: d' in table && Coded(code, d') == e {
      var d' :| d' in h.table && Coded(code, d') == e;
      assert d' in table;
    }
  }

  // ---------------------------------------------------------------------
  // A run on the array
  // ---------------------------------------------------------------------

  /** The array, and the map it stands for. */
  datatype Snap = Snap(slots: seq<T.Slot>, contents: map<T.Digram, Ptr>)

  /** What an access to the digram `d` does to the slot that its probe returned. */
  ghost function Written(a: Access, d: T.Digram, from: Snap, i: int): Snap
    requires 0 <= i < |from.slots|
  {
    match a.kind
    case Look => from
    case Store => Snap(from.slots[i := T.Stored(a.x)], from.contents[d := a.x])
    case Drop =>
      if from.slots[i] == T.Stored(a.x) then Snap(from.slots[i := T.Tombstone], from.contents - {d}) else from
  }

  /** The probe for the digram at the symbol ends, at the slot that the access then writes. */
  ghost predicate Served(a: Access, code: Code, from: Snap, to: Snap) {
    && |from.slots| == T.PRIME && HasDigram(a.h, a.x)
    && var dig, d := Digs(a.h, code), Coded(code, DigramOf(a.h, a.x));
    exists k, i :: T.Returned(from.slots, dig, d, k, i) && 0 <= i < T.PRIME && to == Written(a, d, from, i)
  }

  /** The array holds the table of the compressor when it is accessed, and the access is served. */
  ghost predicate Plays(log: seq<Access>, code: Code, snaps: seq<Snap>, i: nat)
    requires i < |log| && |snaps| == |log| + 1
  {
    Refines(snaps[i].slots, snaps[i].contents, log[i].h, code) && Served(log[i], code, snaps[i], snaps[i + 1])
  }

  ghost function Blank(): Snap { Snap(seq(T.PRIME, _ => T.Empty), map[]) }

  ghost predicate Played(log: seq<Access>, code: Code, snaps: seq<Snap>) {
    && |snaps| == |log| + 1 && snaps[0] == Blank()
    && forall i :: 0 <= i < |log| ==> Plays(log, code, snaps, i)
  }

  ghost predicate AllApart(log: seq<Access>, code: Code) {
    forall i :: 0 <= i < |log| ==> CodesApart(code, log[i].h)
  }

  lemma BlankHolds(dig: map<Ptr, T.Digram>)
    ensures T.Holds(Blank().slots, dig, map[]) && |T.Taken(Blank().slots)| == 0
  {
    var slots := Blank().slots;
    forall i | 0 <= i < T.PRIME ensures T.StoredOk(slots, dig, map[], i) {}
    assert T.Taken(slots) == {};
  }

  /** One access: what the probe returns is what the map says, and the array goes on holding
      the table. */
  lemma AccessServes(a: Access, code: Code, from: Snap, k: nat, i: int) returns (to: Snap)
    requires HasDigram(a.h, a.x) && TableOk(a.h) && CodesApart(code, a.h)
    requires |from.slots| == T.PRIME && Refines(from.slots, from.contents, a.h, code)
    requires T.Returned(from.slots, Digs(a.h, code), Coded(code, DigramOf(a.h, a.x)), k, i)
    ensures 0 <= i < T.PRIME && to == Written(a, Coded(code, DigramOf(a.h, a.x)), from, i)
    ensures |to.slots| == T.PRIME && T.Holds(to.slots, Digs(a.h, code), to.contents)
    ensures Mirrors(to.contents, TableAfter(a), code)
    ensures |T.Taken(to.slots)| <= |T.Taken(from.slots)| + if a.kind == Store then 1 else 0
  {
    hide T.Holds, T.Found, T.Returned, T.Taken, Mirrors, Coded, CodesApart, TableOk;
    var dig, d := Digs(a.h, code), Coded(code, DigramOf(a.h, a.x));
    assert a.x in dig && dig[a.x] == d;
    hide Digs;
    var r := T.ReturnedIsFound(from.slots, dig, from.contents, d, k, i);
    to := Written(a, d, from, i);
    SameEntry(from.contents, a.h, code, a.x);
    match a.kind
    case Look =>
    case Store =>
      T.RecordHolds(from.slots, dig, from.contents, a.x, i, r);
      StoreMirrors(from.contents, a.h, code, a.x);
      T.TakenAfter(from.slots, i, T.Stored(a.x));
    case Drop =>
      FoundTells(from.slots, dig, from.contents, d, i, r);
      if from.slots[i] == T.Stored(a.x) {
        T.ForgetHolds(from.slots, dig, from.contents, d, i);
        DropMirrors(from.contents, a.h, code, a.x);
        T.TakenAfter(from.slots, i, T.Tombstone);
      }
  }

  lemma FoundTells(slots: seq<T.Slot>, dig: map<Ptr, T.Digram>, contents: map<T.Digram, Ptr>, d: T.Digram, i: int,
                   r: nat)
    requires |slots| == T.PRIME && 0 <= i < T.PRIME && T.Found(slots, dig, contents, d, i, r)
    ensures if d in contents then slots[i] == T.Stored(contents[d]) else !slots[i].Stored?
  {
  }

  /** A run that stores fewer symbols than the shortest probe path has slots can be played on
      the array from beginning to end: every probe ends, and finds what the map holds. */
  lemma {:induction false} RunIsPlayed(log: seq<Access>, table: map<Digram, Ptr>, code: Code) returns (snaps: seq<Snap>)
    requires History(log, table) && AllApart(log, code) && Stores(log) < T.COFACTOR
    ensures Played(log, code, snaps)
    ensures var last := snaps[|log|];
      && |last.slots| == T.PRIME && Mirrors(last.contents, table, code)
      && (exists dig :: T.Holds(last.slots, dig, last.contents))
      && |T.Taken(last.slots)| <= Stores(log)
  {
    hide T.Holds, T.Returned, T.Taken, T.Stops, Mirrors, Coded, CodesApart, TableOk, Refines, Served, Digs;
    if log == [] {
      snaps := [Blank()];
      BlankHolds(map[]);
      NothingMirrors(code);
    } else {
      var n := |log| - 1;
      var a, init := log[n], log[..n];
      assert AllApart(init, code);
      var before := RunIsPlayed(init, a.h.table, code);
      var from := before[n];
      var dig :| T.Holds(from.slots, dig, from.contents);
      RelinkRefines(from.slots, from.contents, dig, a.h, code);
      var to := LastServes(a, code, from);
      snaps := before + [to];
      forall i | 0 <= i < |log| ensures Plays(log, code, snaps, i) {
        if i < n { assert Plays(init, code, before, i); }
      }
    }
  }

  lemma NothingMirrors(code: Code)
    ensures Mirrors(map[], map[], code)
  {
  }

  /** While the array is sparse, an access to it is served. */
  lemma LastServes(a: Access, code: Code, from: Snap) returns (to: Snap)
    requires HasDigram(a.h, a.x) && TableOk(a.h) && CodesApart(code, a.h)
    requires |from.slots| == T.PRIME && Refines(from.slots, from.contents, a.h, code)
    requires |T.Taken(from.slots)| < T.COFACTOR
    ensures Served(a, code, from, to) && |to.slots| == T.PRIME
    ensures Mirrors(to.contents, TableAfter(a), code) && exists dig :: T.Holds(to.slots, dig, to.contents)
    ensures |T.Taken(to.slots)| <= |T.Taken(from.slots)| + if a.kind == Store then 1 else 0
  {
    hide T.Holds, T.Taken, T.Stops, T.LastTombstone, Mirrors, Coded, CodesApart, TableOk, Refines, Digs, Written;
    var dig, d := Digs(a.h, code), Coded(code, DigramOf(a.h, a.x));
    T.SparseEnds(from.slots, dig, d);
    var n :| T.Stops(from.slots, dig, d, n);
    var k := T.StopIsFirst(from.slots, dig, d, 0, n);
    var end, spare := T.Path(T.Home(d), T.Jump(d), k), T.LastTombstone(from.slots, d, k);
    var i := if from.slots[end].Stored? || spare == -1 then end else spare;
    assert T.Returned(from.slots, dig, d, k, i);
    to := AccessServes(a, code, from, k, i);
  }
}
