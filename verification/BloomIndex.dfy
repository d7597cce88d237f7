/**
  The bloom index as a set of pages shared by any number of inserters, vacuums, cleanups
  and scans. Each step is what one process does while it holds a page lock; the metapage
  lock is held over several steps.
 */
module BloomIndex {
  import opened Wrappers
  import opened BloomSignature

  type Tid = nat

  datatype Tuple = Tuple(heapPtr: Tid, sign: seq<Word>)

  const BLOCK_SIZE := 8192
  const PAGE_HEADER := 24
  const OPAQUE_SIZE := 8
  const TUPLE_HEADER := 6
  /** Block numbers that fit into the metapage. */
  const META_BLOCKS := 2004

  // ---------------------------------------------------------------------
  // Pages
  // ---------------------------------------------------------------------

  datatype Page = Meta | New | Deleted | Data(tuples: seq<Tuple>)

  function TupleSize(words: nat): nat { TUPLE_HEADER + 2 * words }

  function FreeSpace(words: nat, maxoff: nat): int {
    BLOCK_SIZE - PAGE_HEADER - maxoff * TupleSize(words) - OPAQUE_SIZE
  }

  /** `BloomPageAddItem` on an initialized page. */
  function AddItem(words: nat, tuples: seq<Tuple>, t: Tuple): Option<Page> {
    if FreeSpace(words, |tuples|) < TupleSize(words) then None else Some(Data(tuples + [t]))
  }

  predicate Reusable(page: Page) { page.New? || page.Deleted? }

  /** What an inserter finds: a new or deleted page is initialized first. */
  function Items(page: Page): seq<Tuple> {
    if page.Data? then page.tuples else []
  }

  function Keep(tuples: seq<Tuple>, dead: set<Tid>): (r: seq<Tuple>)
    ensures |r| <= |tuples|
  {
    if tuples == [] then []
    else Keep(tuples[..|tuples| - 1], dead)
         + if tuples[|tuples| - 1].heapPtr in dead then [] else [tuples[|tuples| - 1]]
  }

  function Drop(tuples: seq<Tuple>, dead: set<Tid>): (r: seq<Tuple>)
    ensures forall t :: t in r ==> t.heapPtr in dead
  {
    if tuples == [] then []
    else Drop(tuples[..|tuples| - 1], dead)
         + if tuples[|tuples| - 1].heapPtr in dead then [tuples[|tuples| - 1]] else []
  }

  function Hits(tuples: seq<Tuple>, sign: seq<Word>): seq<Tid>
    requires forall t :: t in tuples ==> |t.sign| == |sign|
  {
    if tuples == [] then []
    else
      var t := tuples[|tuples| - 1];
      Hits(tuples[..|tuples| - 1], sign) + if WordsMatch(t.sign, sign) then [t.heapPtr] else []
  }

  lemma {:induction false} HitsFinds(tuples: seq<Tuple>, sign: seq<Word>, t: Tuple)
    requires (forall u :: u in tuples ==> |u.sign| == |sign|) && t in tuples && WordsMatch(t.sign, sign)
    ensures t.heapPtr in Hits(tuples, sign)
  {
    var init, last := tuples[..|tuples| - 1], tuples[|tuples| - 1];
    assert tuples == init + [last];
    if t != last { HitsFinds(init, sign, t); }
  }

  lemma {:induction false} HitsAreReal(tuples: seq<Tuple>, sign: seq<Word>, tid: Tid)
    requires (forall u :: u in tuples ==> |u.sign| == |sign|) && tid in Hits(tuples, sign)
    ensures exists u :: u in tuples && u.heapPtr == tid && WordsMatch(u.sign, sign)
  {
    var init, last := tuples[..|tuples| - 1], tuples[|tuples| - 1];
    assert tuples == init + [last];
    if tid in Hits(init, sign) { HitsAreReal(init, sign, tid); }
  }

  // ---------------------------------------------------------------------
  // Index and processes
  // ---------------------------------------------------------------------

  datatype Index = Index(words: nat, pages: seq<Page>, nStart: nat, nEnd: nat, notFull: seq<nat>, fsm: set<nat>)

  datatype Proc =
    // blinsert
    | Begin(t: Tuple)
    | TryPage(t: Tuple, blk: nat)
    | WaitMeta(t: Tuple, tried: Option<nat>)
    | Retry(t: Tuple, at: nat)
    | Allocate(t: Tuple)
    | Recycle(t: Tuple, blk: nat)
    | Inserted(t: Tuple)
    // blbulkdelete
    | VacuumStart(dead: set<Tid>)
    | Vacuum(dead: set<Tid>, blk: nat, npages: nat, found: seq<nat>, removed: seq<Tuple>)
    | Vacuumed(dead: set<Tid>, removed: seq<Tuple>)
    // blvacuumcleanup
    | CleanupStart
    | Cleanup(blk: nat, npages: nat)
    | Cleaned
    // blgetbitmap
    | ScanStart(sign: seq<Word>)
    | Scan(sign: seq<Word>, blk: nat, npages: nat, hits: seq<Tid>)
    | Scanned(sign: seq<Word>, hits: seq<Tid>)
    // stopped by an error or a crash
    | Failed(removed: seq<Tuple>)

  datatype System = System(idx: Index, procs: seq<Proc>)

  /** What the environment decides: which free page the space map offers, whether that
      page is locked by someone, and when a process dies, perhaps after extending the file. */
  datatype Choice = Go | Offer(blk: nat) | Busy | Crash(extended: bool)

  /** Holds the metapage lock exclusively. */
  predicate Holding(proc: Proc) { proc.Retry? || proc.Allocate? || proc.Recycle? }

  /** Still has to insert its tuple. */
  predicate Pending(proc: Proc) { proc.Begin? || proc.TryPage? || proc.WaitMeta? || Holding(proc) }

  function RemovedBy(proc: Proc): seq<Tuple> {
    if proc.Vacuum? || proc.Vacuumed? || proc.Failed? then proc.removed else []
  }

  function InsertedBy(proc: Proc): seq<Tuple> {
    if proc.Inserted? then [proc.t] else []
  }

  predicate IsBlock(idx: Index, blk: nat) { 1 <= blk < |idx.pages| }

  // ---------------------------------------------------------------------
  // Steps
  // ---------------------------------------------------------------------

  /** Put the tuple on a page taken from the space map or on a page just added, and make
      that page the only one with known free space. */
  function Claim(idx: Index, blk: nat, t: Tuple): (Index, Proc)
    requires 1 <= blk <= |idx.pages| && |idx.notFull| == META_BLOCKS
  {
    match AddItem(idx.words, [], t)
    case Some(page) =>
      (idx.(pages := if blk == |idx.pages| then idx.pages + [page] else idx.pages[blk := page],
            nStart := 0, nEnd := 1, notFull := idx.notFull[0 := blk]), Inserted(t))
    case None => (idx, Failed([]))
  }

  function VacuumPage(idx: Index, dead: set<Tid>, blk: nat, npages: nat, found: seq<nat>, removed: seq<Tuple>)
    : (Index, Proc)
    requires IsBlock(idx, blk)
  {
    var page := idx.pages[blk];
    if !page.Data? then (idx, Vacuum(dead, blk + 1, npages, found, removed))
    else
      var kept := Keep(page.tuples, dead);
      var page' :=
        if |kept| == |page.tuples| then page else if kept == [] then Deleted else Data(kept);
      var found' :=
        if kept != [] && FreeSpace(idx.words, |kept|) >= TupleSize(idx.words) && |found| < META_BLOCKS
        then found + [blk] else found;
      (idx.(pages := idx.pages[blk := page']),
       Vacuum(dead, blk + 1, npages, found', removed + Drop(page.tuples, dead)))
  }

  function AdvanceInsert(idx: Index, free: bool, proc: Proc, c: Choice): (Index, Proc)
    requires IndexOk(idx) && ProcOk(idx, proc) && Pending(proc)
  {
    match proc
    case Begin(t) =>
      if !free then (idx, proc)
      else if idx.nStart < idx.nEnd then (idx, TryPage(t, idx.notFull[idx.nStart]))
      else (idx, WaitMeta(t, None))
    case TryPage(t, blk) =>
      (match AddItem(idx.words, Items(idx.pages[blk]), t)
       case Some(page) => (idx.(pages := idx.pages[blk := page]), Inserted(t))
       case None => (idx, WaitMeta(t, Some(blk))))
    case WaitMeta(t, tried) =>
      if !free then (idx, proc)
      else if idx.nStart < idx.nEnd && tried == Some(idx.notFull[idx.nStart]) then (idx, Retry(t, idx.nStart + 1))
      else (idx, Retry(t, idx.nStart))
    case Retry(t, at) =>
      if at >= idx.nEnd then (idx, Allocate(t))
      else
        (var blk := idx.notFull[at];
         match AddItem(idx.words, Items(idx.pages[blk]), t)
         case Some(page) => (idx.(pages := idx.pages[blk := page], nStart := at), Inserted(t))
         case None => (idx, Retry(t, at + 1)))
    case Allocate(t) =>
      if c.Offer? && c.blk in idx.fsm then (idx.(fsm := idx.fsm - {c.blk}), Recycle(t, c.blk))
      else Claim(idx, |idx.pages|, t)
    case Recycle(t, blk) =>
      if c.Busy? || !Reusable(idx.pages[blk]) then (idx, Allocate(t)) else Claim(idx, blk, t)
  }

  function AdvanceVacuum(idx: Index, free: bool, proc: Proc): (Index, Proc)
    requires IndexOk(idx) && ProcOk(idx, proc) && (proc.VacuumStart? || proc.Vacuum?)
  {
    match proc
    case VacuumStart(dead) => (idx, Vacuum(dead, 1, |idx.pages|, [], []))
    case Vacuum(dead, blk, npages, found, removed) =>
      if blk < npages then VacuumPage(idx, dead, blk, npages, found, removed)
      else if !free then (idx, proc)
      else (idx.(notFull := found + idx.notFull[|found|..], nStart := 0, nEnd := |found|), Vacuumed(dead, removed))
  }

  /** Cleanup and scan, which change no page. */
  function AdvanceReader(idx: Index, proc: Proc): (Index, Proc)
    requires IndexOk(idx) && ProcOk(idx, proc)
  {
    match proc
    case CleanupStart => (idx, Cleanup(1, |idx.pages|))
    case Cleanup(blk, npages) =>
      if blk >= npages then (idx, Cleaned)
      else (if Reusable(idx.pages[blk]) then idx.(fsm := idx.fsm + {blk}) else idx, Cleanup(blk + 1, npages))
    case ScanStart(sign) => (idx, Scan(sign, 1, |idx.pages|, []))
    case Scan(sign, blk, npages, hits) =>
      if blk >= npages then (idx, Scanned(sign, hits))
      else (idx, Scan(sign, blk + 1, npages, hits + Hits(Items(idx.pages[blk]), sign)))
    case _ => (idx, proc)
  }

  /** The process stops; it may just have added a page to the file. */
  function AdvanceCrash(idx: Index, proc: Proc, extended: bool): (Index, Proc) {
    if proc.Inserted? || proc.Vacuumed? || proc.Scanned? then (idx, proc)
    else (if extended && proc.Allocate? then idx.(pages := idx.pages + [New]) else idx, Failed(RemovedBy(proc)))
  }

  /** One step of a process. `free` says that no other process holds the metapage lock. */
  function Advance(idx: Index, free: bool, proc: Proc, c: Choice): (Index, Proc)
    requires IndexOk(idx) && ProcOk(idx, proc)
  {
    if c.Crash? then AdvanceCrash(idx, proc, c.extended)
    else if Pending(proc) then AdvanceInsert(idx, free, proc, c)
    else if proc.VacuumStart? || proc.Vacuum? then AdvanceVacuum(idx, free, proc)
    else AdvanceReader(idx, proc)
  }

  // ---------------------------------------------------------------------
  // What every reachable state satisfies
  // ---------------------------------------------------------------------

  /** A live page is not empty and its tuples fit. */
  predicate PageOk(words: nat, page: Page) {
    page.Data? ==>
      && page.tuples != [] && FreeSpace(words, |page.tuples|) >= 0
      && forall t :: t in page.tuples ==> |t.sign| == words
  }

  /** Block numbers in the metapage and the space map may be stale but always exist. */
  predicate IndexOk(idx: Index) {
    && 1 <= idx.words <= 256
    && |idx.pages| >= 1 && idx.pages[0].Meta?
    && (forall i :: 1 <= i < |idx.pages| ==> !idx.pages[i].Meta? && PageOk(idx.words, idx.pages[i]))
    && idx.nStart <= idx.nEnd <= META_BLOCKS == |idx.notFull|
    && (forall k :: idx.nStart <= k < idx.nEnd ==> IsBlock(idx, idx.notFull[k]))
    && (forall b :: b in idx.fsm ==> IsBlock(idx, b))
  }

  predicate ProcOk(idx: Index, proc: Proc) {
    && (Pending(proc) || proc.Inserted? ==> |proc.t.sign| == idx.words)
    && (proc.TryPage? || proc.Recycle? ==> IsBlock(idx, proc.blk))
    && (proc.Retry? ==> idx.nStart <= proc.at <= idx.nEnd)
    && (proc.Vacuum? || proc.Cleanup? || proc.Scan? ==> 1 <= proc.blk && proc.npages <= |idx.pages|)
    && (proc.Vacuum? ==> |proc.found| <= META_BLOCKS && forall b :: b in proc.found ==> IsBlock(idx, b))
    && (proc.Vacuum? || proc.Vacuumed? ==> forall t :: t in proc.removed ==> t.heapPtr in proc.dead)
    && (proc.ScanStart? || proc.Scan? || proc.Scanned? ==> |proc.sign| == idx.words)
  }

  // ---------------------------------------------------------------------
  // Steps keep the order
  // ---------------------------------------------------------------------

  lemma ItemsSigned(idx: Index, i: nat)
    requires IndexOk(idx) && 1 <= i < |idx.pages|
    ensures forall u :: u in Items(idx.pages[i]) ==> |u.sign| == idx.words
  {
    assert PageOk(idx.words, idx.pages[i]);
  }

  /** The insert and build code raise an error if this fails. */
  lemma EmptyPageAccepts(words: nat, t: Tuple)
    requires 1 <= words <= 256
    ensures AddItem(words, [], t) == Some(Data([t]))
  {
    assert [] + [t] == [t];
  }

  lemma FreeSpaceShrinks(words: nat, m: nat, n: nat)
    requires m <= n
    ensures FreeSpace(words, m) - FreeSpace(words, n) == (n - m) * TupleSize(words) >= 0
  {
  }

  lemma AddedIsOk(words: nat, page: Page, t: Tuple)
    requires PageOk(words, page) && |t.sign| == words && AddItem(words, Items(page), t).Some?
    ensures AddItem(words, Items(page), t) == Some(Data(Items(page) + [t])) && PageOk(words, Data(Items(page) + [t]))
  {
    hide FreeSpace;
    hide TupleSize;
    FreeSpaceShrinks(words, |Items(page)|, |Items(page)| + 1);
  }

  lemma {:induction false} KeepIsSubset(tuples: seq<Tuple>, dead: set<Tid>)
    ensures forall t :: t in Keep(tuples, dead) <==> t in tuples && t.heapPtr !in dead
  {
    if tuples != [] {
      KeepIsSubset(tuples[..|tuples| - 1], dead);
      assert tuples == tuples[..|tuples| - 1] + [tuples[|tuples| - 1]];
    }
  }

  lemma KeptIsOk(words: nat, tuples: seq<Tuple>, dead: set<Tid>)
    requires PageOk(words, Data(tuples)) && Keep(tuples, dead) != []
    ensures PageOk(words, Data(Keep(tuples, dead)))
  {
    hide FreeSpace;
    hide TupleSize;
    hide Keep;
    KeepIsSubset(tuples, dead);
    FreeSpaceShrinks(words, |Keep(tuples, dead)|, |tuples|);
  }

  /** One page may be replaced by another in order. */
  lemma PageReplaced(idx: Index, blk: nat, page: Page)
    requires IndexOk(idx) && IsBlock(idx, blk) && !page.Meta? && PageOk(idx.words, page)
    ensures IndexOk(idx.(pages := idx.pages[blk := page]))
  {
    hide PageOk;
  }

  lemma PageAppended(idx: Index, page: Page)
    requires IndexOk(idx) && !page.Meta? && PageOk(idx.words, page)
    ensures IndexOk(idx.(pages := idx.pages + [page]))
  {
    hide PageOk;
  }

  lemma ClaimOk(idx: Index, blk: nat, t: Tuple)
    requires IndexOk(idx) && 1 <= blk <= |idx.pages| && |t.sign| == idx.words
    ensures Claim(idx, blk, t).1 == Inserted(t) && IndexOk(Claim(idx, blk, t).0)
    ensures |Claim(idx, blk, t).0.pages| >= |idx.pages| && Claim(idx, blk, t).0.words == idx.words
    ensures var idx' := Claim(idx, blk, t).0;
      && blk < |idx'.pages| && Items(idx'.pages[blk]) == [t] && idx'.notFull[idx'.nStart..idx'.nEnd] == [blk]
      && forall i :: 0 <= i < |idx.pages| && i != blk ==> idx'.pages[i] == idx.pages[i]
  {
    hide PageOk;
    hide AddItem;
    EmptyPageAccepts(idx.words, t);
    PlainPagesOk(idx.words);
    AddedIsOk(idx.words, New, t);
    assert [] + [t] == [t];
    if blk == |idx.pages| { PageAppended(idx, Data([t])); } else { PageReplaced(idx, blk, Data([t])); }
  }

  lemma VacuumPageOk(idx: Index, dead: set<Tid>, blk: nat, npages: nat, found: seq<nat>, removed: seq<Tuple>)
    requires IndexOk(idx) && ProcOk(idx, Vacuum(dead, blk, npages, found, removed)) && IsBlock(idx, blk)
    ensures var (idx', proc') := VacuumPage(idx, dead, blk, npages, found, removed);
      IndexOk(idx') && ProcOk(idx', proc') && |idx'.pages| == |idx.pages| && idx'.words == idx.words
    ensures var (idx', proc') := VacuumPage(idx, dead, blk, npages, found, removed);
      forall b :: b in proc'.found && b !in found ==>
        b == blk && FreeSpace(idx.words, |Items(idx'.pages[b])|) >= TupleSize(idx.words)
  {
    hide PageOk;
    hide FreeSpace;
    hide TupleSize;
    var page := idx.pages[blk];
    if page.Data? {
      var kept := Keep(page.tuples, dead);
      PlainPagesOk(idx.words);
      if kept != [] { KeptIsOk(idx.words, page.tuples, dead); }
      PageReplaced(idx, blk, if |kept| == |page.tuples| then page else if kept == [] then Deleted else Data(kept));
    }
  }

  lemma PlainPagesOk(words: nat)
    ensures PageOk(words, Deleted) && PageOk(words, New)
  {
  }

  ghost predicate InOrder(idx: Index, idx': Index, proc': Proc) {
    IndexOk(idx') && ProcOk(idx', proc') && |idx'.pages| >= |idx.pages| && idx'.words == idx.words
  }

  lemma InsertOk(idx: Index, free: bool, proc: Proc, c: Choice)
    requires IndexOk(idx) && ProcOk(idx, proc) && Pending(proc)
    ensures InOrder(idx, AdvanceInsert(idx, free, proc, c).0, AdvanceInsert(idx, free, proc, c).1)
  {
    hide PageOk, FreeSpace, Claim, AddItem, Items;
    match proc
    case TryPage(t, blk) => AddOk(idx, blk, t);
    case Retry(t, at) => RetryOk(idx, free, t, at, c);
    case Allocate(t) => ClaimOk(idx, |idx.pages|, t);
    case Recycle(t, blk) => ClaimOk(idx, blk, t);
    case _ =>
  }

  lemma RetryOk(idx: Index, free: bool, t: Tuple, at: nat, c: Choice)
    requires IndexOk(idx) && ProcOk(idx, Retry(t, at))
    ensures var (idx', proc') := AdvanceInsert(idx, free, Retry(t, at), c); InOrder(idx, idx', proc')
  {
    hide PageOk;
    hide FreeSpace;
    hide AddItem;
    if at < idx.nEnd { AddOk(idx, idx.notFull[at], t); }
  }

  lemma AddOk(idx: Index, blk: nat, t: Tuple)
    requires IndexOk(idx) && IsBlock(idx, blk) && |t.sign| == idx.words
    ensures AddItem(idx.words, Items(idx.pages[blk]), t).Some? ==>
      IndexOk(idx.(pages := idx.pages[blk := AddItem(idx.words, Items(idx.pages[blk]), t).value]))
  {
    hide FreeSpace;
    hide PageOk;
    if AddItem(idx.words, Items(idx.pages[blk]), t).Some? {
      AddedIsOk(idx.words, idx.pages[blk], t);
      PageReplaced(idx, blk, Data(Items(idx.pages[blk]) + [t]));
    }
  }

  lemma VacuumOk(idx: Index, free: bool, proc: Proc)
    requires IndexOk(idx) && ProcOk(idx, proc) && (proc.VacuumStart? || proc.Vacuum?)
    ensures InOrder(idx, AdvanceVacuum(idx, free, proc).0, AdvanceVacuum(idx, free, proc).1)
  {
    hide PageOk;
    hide VacuumPage;
    if proc.Vacuum? && proc.blk < proc.npages {
      VacuumPageOk(idx, proc.dead, proc.blk, proc.npages, proc.found, proc.removed);
    } else if proc.Vacuum? {
      assert forall k :: 0 <= k < |proc.found| ==> proc.found[k] in proc.found;
    }
  }

  /** A step keeps the index and the process in order. */
  lemma AdvanceOk(idx: Index, free: bool, proc: Proc, c: Choice)
    requires IndexOk(idx) && ProcOk(idx, proc)
    ensures InOrder(idx, Advance(idx, free, proc, c).0, Advance(idx, free, proc, c).1)
  {
    hide PageOk;
    hide AdvanceInsert;
    hide AdvanceVacuum;
    hide Hits;
    if c.Crash? {
      PlainPagesOk(idx.words);
      PageAppended(idx, New);
    } else if Pending(proc) {
      InsertOk(idx, free, proc, c);
    } else if proc.VacuumStart? || proc.Vacuum? {
      VacuumOk(idx, free, proc);
    }
  }

  // ---------------------------------------------------------------------
  // Whole systems and their runs
  // ---------------------------------------------------------------------

  /** No process but `p` holds the metapage lock. */
  predicate MetaFree(procs: seq<Proc>, p: nat) {
    forall q :: 0 <= q < |procs| && q != p ==> !Holding(procs[q])
  }

  predicate AllOk(idx: Index, procs: seq<Proc>) {
    forall q :: 0 <= q < |procs| ==> ProcOk(idx, procs[q])
  }

  /** At most one process holds the metapage lock. */
  predicate Exclusive(procs: seq<Proc>) {
    forall p, q :: 0 <= p < q < |procs| ==> !(Holding(procs[p]) && Holding(procs[q]))
  }

  predicate Valid(s: System) {
    IndexOk(s.idx) && AllOk(s.idx, s.procs) && Exclusive(s.procs)
  }

  function Next(s: System, p: nat, c: Choice): System
    requires Valid(s)
  {
    if p >= |s.procs| then s
    else
      var (idx, proc) := Advance(s.idx, MetaFree(s.procs, p), s.procs[p], c);
      System(idx, s.procs[p := proc])
  }

  /** What a process that does not hold the metapage lock leaves alone. */
  lemma MetaUntouched(idx: Index, free: bool, proc: Proc, c: Choice)
    requires IndexOk(idx) && ProcOk(idx, proc) && !Holding(proc) && !free
    ensures var idx' := Advance(idx, free, proc, c).0;
      idx'.nStart == idx.nStart && idx'.nEnd == idx.nEnd && idx'.notFull == idx.notFull
  {
    hide PageOk;
    hide Keep;
    hide Drop;
    hide Hits;
  }

  lemma LockNeedsFree(idx: Index, free: bool, proc: Proc, c: Choice)
    requires IndexOk(idx) && ProcOk(idx, proc)
    ensures Holding(Advance(idx, free, proc, c).1) ==> Holding(proc) || free
  {
    hide PageOk;
    hide Keep;
    hide Drop;
    hide Hits;
  }

  lemma NextValid(s: System, p: nat, c: Choice)
    requires Valid(s)
    ensures Valid(Next(s, p, c)) && |Next(s, p, c).procs| == |s.procs|
  {
    hide IndexOk;
    hide Advance;
    if p < |s.procs| {
      var free := MetaFree(s.procs, p);
      var (idx, proc) := Advance(s.idx, free, s.procs[p], c);
      AdvanceOk(s.idx, free, s.procs[p], c);
      LockNeedsFree(s.idx, free, s.procs[p], c);
      forall q | 0 <= q < |s.procs| && q != p ensures ProcOk(idx, s.procs[q]) {
        if s.procs[q].Retry? { MetaUntouched(s.idx, free, s.procs[p], c); }
      }
    }
  }

  datatype Move = Move(p: nat, c: Choice)

  /** Let processes move in any order. */
  function Run(s: System, moves: seq<Move>): System
    requires Valid(s)
    decreases |moves|
  {
    if moves == [] then s
    else
      NextValid(s, moves[0].p, moves[0].c);
      Run(Next(s, moves[0].p, moves[0].c), moves[1..])
  }

  /** Every reachable state is in order: no page overflows, every block number that the
      metapage, the space map or a process remembers exists, and the lock is exclusive. */
  lemma {:induction false} RunValid(s: System, moves: seq<Move>)
    requires Valid(s)
    ensures Valid(Run(s, moves)) && |Run(s, moves).procs| == |s.procs|
    decreases |moves|
  {
    hide Valid;
    if moves != [] {
      NextValid(s, moves[0].p, moves[0].c);
      RunValid(Next(s, moves[0].p, moves[0].c), moves[1..]);
    }
  }
}
