/**
  What holds over every run of a bloom index: no tuple is lost or doubled, a vacuum
  leaves no dead tuple behind, and a scan finds every tuple that stays.
 */
module BloomRuns {
  import opened Wrappers
  import opened BloomSignature
  import opened BloomIndex

  // ---------------------------------------------------------------------
  // Counting a tuple
  // ---------------------------------------------------------------------

  ghost function Times(x: Tuple, list: seq<Tuple>): nat { multiset(list)[x] }

  ghost function Sum(x: Tuple, lists: seq<seq<Tuple>>): nat {
    if lists == [] then 0 else Sum(x, lists[..|lists| - 1]) + Times(x, lists[|lists| - 1])
  }

  lemma {:induction false} SumUpdate(x: Tuple, lists: seq<seq<Tuple>>, i: nat, list: seq<Tuple>)
    requires i < |lists|
    ensures Sum(x, lists[i := list]) + Times(x, lists[i]) == Sum(x, lists) + Times(x, list)
  {
    var last := |lists| - 1;
    if i == last {
      assert lists[i := list][..last] == lists[..last];
    } else {
      assert lists[i := list][..last] == lists[..last][i := list];
      SumUpdate(x, lists[..last], i, list);
    }
  }

  lemma SumAppend(x: Tuple, lists: seq<seq<Tuple>>, list: seq<Tuple>)
    ensures Sum(x, lists + [list]) == Sum(x, lists) + Times(x, list)
  {
    assert (lists + [list])[..|lists|] == lists;
  }

  ghost function PageItems(pages: seq<Page>): seq<seq<Tuple>> {
    seq(|pages|, i requires 0 <= i < |pages| => Items(pages[i]))
  }

  ghost function Insertions(procs: seq<Proc>): seq<seq<Tuple>> {
    seq(|procs|, i requires 0 <= i < |procs| => InsertedBy(procs[i]))
  }

  ghost function Removals(procs: seq<Proc>): seq<seq<Tuple>> {
    seq(|procs|, i requires 0 <= i < |procs| => RemovedBy(procs[i]))
  }

  /** How often the tuple is on live pages. */
  ghost function Stored(x: Tuple, pages: seq<Page>): nat { Sum(x, PageItems(pages)) }

  /** How many inserts of the tuple have finished. */
  ghost function Added(x: Tuple, procs: seq<Proc>): nat { Sum(x, Insertions(procs)) }

  /** How often vacuums have removed the tuple. */
  ghost function Gone(x: Tuple, procs: seq<Proc>): nat { Sum(x, Removals(procs)) }

  lemma StoredUpdate(x: Tuple, pages: seq<Page>, i: nat, page: Page)
    requires i < |pages|
    ensures Stored(x, pages[i := page]) + Times(x, Items(pages[i])) == Stored(x, pages) + Times(x, Items(page))
  {
    SumUpdate(x, PageItems(pages), i, Items(page));
    assert PageItems(pages[i := page]) == PageItems(pages)[i := Items(page)];
  }

  lemma StoredAppend(x: Tuple, pages: seq<Page>, page: Page)
    ensures Stored(x, pages + [page]) == Stored(x, pages) + Times(x, Items(page))
  {
    SumAppend(x, PageItems(pages), Items(page));
    assert PageItems(pages + [page]) == PageItems(pages) + [Items(page)];
  }

  lemma ProcsUpdate(x: Tuple, procs: seq<Proc>, p: nat, proc: Proc)
    requires p < |procs|
    ensures Added(x, procs[p := proc]) + Times(x, InsertedBy(procs[p])) == Added(x, procs) + Times(x, InsertedBy(proc))
    ensures Gone(x, procs[p := proc]) + Times(x, RemovedBy(procs[p])) == Gone(x, procs) + Times(x, RemovedBy(proc))
  {
    hide Sum;
    hide Times;
    SumUpdate(x, Insertions(procs), p, InsertedBy(proc));
    assert Insertions(procs[p := proc]) == Insertions(procs)[p := InsertedBy(proc)];
    SumUpdate(x, Removals(procs), p, RemovedBy(proc));
    assert Removals(procs[p := proc]) == Removals(procs)[p := RemovedBy(proc)];
  }

  // ---------------------------------------------------------------------
  // Conservation
  // ---------------------------------------------------------------------

  lemma KeepStep(tuples: seq<Tuple>, dead: set<Tid>)
    requires tuples != []
    ensures var init, last := tuples[..|tuples| - 1], tuples[|tuples| - 1];
      && Keep(tuples, dead) == Keep(init, dead) + (if last.heapPtr in dead then [] else [last])
      && Drop(tuples, dead) == Drop(init, dead) + (if last.heapPtr in dead then [last] else [])
  {
  }

  lemma {:induction false} KeepAndDrop(x: Tuple, tuples: seq<Tuple>, dead: set<Tid>)
    ensures Times(x, Keep(tuples, dead)) + Times(x, Drop(tuples, dead)) == Times(x, tuples)
  {
    hide Times, Keep, Drop;
    if tuples == [] {
      KeepNothing(x, dead);
    } else {
      var init, last := tuples[..|tuples| - 1], tuples[|tuples| - 1];
      var none: seq<Tuple> := [];
      var kept, dropped := if last.heapPtr in dead then none else [last], if last.heapPtr in dead then [last] else none;
      KeepAndDrop(x, init, dead);
      KeepStep(tuples, dead);
      TimesNone(x);
      TimesConcat(x, Keep(init, dead), kept);
      TimesConcat(x, Drop(init, dead), dropped);
      assert tuples == init + [last];
      TimesConcat(x, init, [last]);
    }
  }

  lemma KeepNothing(x: Tuple, dead: set<Tid>)
    ensures Times(x, Keep([], dead)) == 0 && Times(x, Drop([], dead)) == 0 && Times(x, []) == 0
  {
  }

  lemma {:induction false} NothingDropped(tuples: seq<Tuple>, dead: set<Tid>)
    requires |Keep(tuples, dead)| == |tuples|
    ensures Keep(tuples, dead) == tuples
  {
    if tuples != [] {
      NothingDropped(tuples[..|tuples| - 1], dead);
      assert tuples == tuples[..|tuples| - 1] + [tuples[|tuples| - 1]];
    }
  }

  /** What a step adds to the pages is what it reports as inserted, and what it takes
      away is what it reports as removed. */
  ghost predicate Balanced(x: Tuple, idx: Index, proc: Proc, idx': Index, proc': Proc) {
    Stored(x, idx'.pages) + Times(x, RemovedBy(proc')) + Times(x, InsertedBy(proc))
      == Stored(x, idx.pages) + Times(x, RemovedBy(proc)) + Times(x, InsertedBy(proc'))
  }

  lemma TimesConcat(x: Tuple, a: seq<Tuple>, b: seq<Tuple>)
    ensures Times(x, a + b) == Times(x, a) + Times(x, b)
  {
  }

  lemma TimesNone(x: Tuple)
    ensures Times(x, []) == 0
  {
  }

  lemma AddBalanced(x: Tuple, pages: seq<Page>, blk: nat, t: Tuple)
    requires blk < |pages|
    ensures Stored(x, pages[blk := Data(Items(pages[blk]) + [t])]) == Stored(x, pages) + Times(x, [t])
  {
    hide Stored;
    hide Times;
    StoredUpdate(x, pages, blk, Data(Items(pages[blk]) + [t]));
    TimesConcat(x, Items(pages[blk]), [t]);
  }

  lemma ClaimBalanced(x: Tuple, idx: Index, blk: nat, t: Tuple, proc: Proc)
    requires IndexOk(idx) && 1 <= blk <= |idx.pages|
    requires blk < |idx.pages| ==> Reusable(idx.pages[blk])
    requires RemovedBy(proc) == [] && InsertedBy(proc) == []
    ensures Balanced(x, idx, proc, Claim(idx, blk, t).0, Claim(idx, blk, t).1)
  {
    hide Stored;
    hide Times;
    hide PageOk;
    EmptyPageAccepts(idx.words, t);
    TimesNone(x);
    if blk == |idx.pages| {
      StoredAppend(x, idx.pages, Data([t]));
    } else {
      StoredUpdate(x, idx.pages, blk, Data([t]));
    }
  }

  lemma VacuumPageBalanced(x: Tuple, idx: Index, dead: set<Tid>, blk: nat, npages: nat, found: seq<nat>,
                           removed: seq<Tuple>)
    requires IsBlock(idx, blk)
    ensures Balanced(x, idx, Vacuum(dead, blk, npages, found, removed),
                     VacuumPage(idx, dead, blk, npages, found, removed).0,
                     VacuumPage(idx, dead, blk, npages, found, removed).1)
  {
    hide Stored;
    hide Times;
    hide Keep;
    hide Drop;
    var page := idx.pages[blk];
    if page.Data? {
      var kept := Keep(page.tuples, dead);
      KeepAndDrop(x, page.tuples, dead);
      if |kept| == |page.tuples| { NothingDropped(page.tuples, dead); }
      var page' := if |kept| == |page.tuples| then page else if kept == [] then Deleted else Data(kept);
      assert Items(page') == kept;
      StoredUpdate(x, idx.pages, blk, page');
      TimesConcat(x, removed, Drop(page.tuples, dead));
    }
  }

  lemma InsertBalanced(x: Tuple, idx: Index, free: bool, proc: Proc, c: Choice)
    requires IndexOk(idx) && ProcOk(idx, proc) && Pending(proc)
    ensures Balanced(x, idx, proc, AdvanceInsert(idx, free, proc, c).0, AdvanceInsert(idx, free, proc, c).1)
  {
    hide Stored;
    hide Times;
    hide PageOk;
    hide Claim;
    TimesNone(x);
    match proc
    case TryPage(t, blk) => AddBalanced(x, idx.pages, blk, t);
    case Retry(t, at) => if at < idx.nEnd { AddBalanced(x, idx.pages, idx.notFull[at], t); }
    case Allocate(t) => ClaimBalanced(x, idx, |idx.pages|, t, proc);
    case Recycle(t, blk) => if Reusable(idx.pages[blk]) { ClaimBalanced(x, idx, blk, t, proc); }
    case _ =>
  }

  lemma AdvanceBalanced(x: Tuple, idx: Index, free: bool, proc: Proc, c: Choice)
    requires IndexOk(idx) && ProcOk(idx, proc)
    ensures Balanced(x, idx, proc, Advance(idx, free, proc, c).0, Advance(idx, free, proc, c).1)
  {
    hide Stored;
    hide Times;
    hide PageOk;
    hide AdvanceInsert;
    hide VacuumPage;
    hide Hits;
    TimesNone(x);
    if c.Crash? {
      StoredAppend(x, idx.pages, New);
    } else if Pending(proc) {
      InsertBalanced(x, idx, free, proc, c);
    } else if proc.Vacuum? && proc.blk < proc.npages {
      VacuumPageBalanced(x, idx, proc.dead, proc.blk, proc.npages, proc.found, proc.removed);
    }
  }

  lemma NextConserves(x: Tuple, s: System, p: nat, c: Choice)
    requires Valid(s)
    ensures var s' := Next(s, p, c);
      Stored(x, s'.idx.pages) + Gone(x, s'.procs) + Added(x, s.procs)
        == Stored(x, s.idx.pages) + Gone(x, s.procs) + Added(x, s'.procs)
  {
    hide Stored;
    hide Gone;
    hide Added;
    hide Advance;
    hide IndexOk;
    if p < |s.procs| {
      var free := MetaFree(s.procs, p);
      AdvanceBalanced(x, s.idx, free, s.procs[p], c);
      ProcsUpdate(x, s.procs, p, Advance(s.idx, free, s.procs[p], c).1);
    }
  }

  /** Over any run of any processes, every tuple is on live pages as often as it was at
      first, plus the inserts of it that finished, minus the times a vacuum removed it. */
  lemma {:induction false} RunConserves(x: Tuple, s: System, moves: seq<Move>)
    requires Valid(s)
    ensures var s' := Run(s, moves);
      Stored(x, s'.idx.pages) + Gone(x, s'.procs) + Added(x, s.procs)
        == Stored(x, s.idx.pages) + Gone(x, s.procs) + Added(x, s'.procs)
    decreases |moves|
  {
    hide Stored;
    hide Gone;
    hide Added;
    hide Next;
    hide Valid;
    if moves != [] {
      NextValid(s, moves[0].p, moves[0].c);
      NextConserves(x, s, moves[0].p, moves[0].c);
      RunConserves(x, Next(s, moves[0].p, moves[0].c), moves[1..]);
    }
  }

  // ---------------------------------------------------------------------
  // How a page changes in one step
  // ---------------------------------------------------------------------

  ghost function At(idx: Index, i: nat): seq<Tuple> {
    if i < |idx.pages| then Items(idx.pages[i]) else []
  }

  /** A page only ever gains the tuple being inserted at its end, or loses exactly its
      dead tuples to the vacuum that is at that page. */
  ghost predicate Evolves(idx: Index, proc: Proc, idx': Index, i: nat) {
    || At(idx', i) == At(idx, i)
    || (Pending(proc) && At(idx', i) == At(idx, i) + [proc.t])
    || (proc.Vacuum? && i == proc.blk < proc.npages && At(idx', i) == Keep(At(idx, i), proc.dead))
  }

  lemma ClaimEvolves(idx: Index, blk: nat, t: Tuple, proc: Proc, i: nat)
    requires IndexOk(idx) && 1 <= blk <= |idx.pages| && Pending(proc) && proc.t == t
    requires blk < |idx.pages| ==> Reusable(idx.pages[blk])
    ensures Evolves(idx, proc, Claim(idx, blk, t).0, i)
  {
    hide PageOk;
    EmptyPageAccepts(idx.words, t);
    assert [] + [t] == [t];
  }

  lemma VacuumPageEvolves(idx: Index, proc: Proc, i: nat)
    requires proc.Vacuum? && IsBlock(idx, proc.blk) && proc.blk < proc.npages
    ensures Evolves(idx, proc, VacuumPage(idx, proc.dead, proc.blk, proc.npages, proc.found, proc.removed).0, i)
  {
    hide Keep;
    hide Drop;
    var page := idx.pages[proc.blk];
    if page.Data? && |Keep(page.tuples, proc.dead)| == |page.tuples| { NothingDropped(page.tuples, proc.dead); }
  }

  lemma AdvanceEvolves(idx: Index, free: bool, proc: Proc, c: Choice, i: nat)
    requires IndexOk(idx) && ProcOk(idx, proc)
    ensures Evolves(idx, proc, Advance(idx, free, proc, c).0, i)
  {
    hide PageOk;
    hide AdvanceInsert;
    hide VacuumPage;
    hide Hits;
    hide Keep;
    if Pending(proc) && !c.Crash? {
      InsertEvolves(idx, free, proc, c, i);
    } else if proc.Vacuum? && proc.blk < proc.npages {
      VacuumPageEvolves(idx, proc, i);
    }
  }

  lemma InsertEvolves(idx: Index, free: bool, proc: Proc, c: Choice, i: nat)
    requires IndexOk(idx) && ProcOk(idx, proc) && Pending(proc)
    ensures Evolves(idx, proc, AdvanceInsert(idx, free, proc, c).0, i)
  {
    hide PageOk;
    hide Claim;
    hide FreeSpace;
    match proc
    case Allocate(t) => ClaimEvolves(idx, |idx.pages|, t, proc, i);
    case Recycle(t, blk) => if Reusable(idx.pages[blk]) { ClaimEvolves(idx, blk, t, proc, i); }
    case _ =>
  }

  // ---------------------------------------------------------------------
  // A vacuum leaves no dead tuple behind
  // ---------------------------------------------------------------------

  ghost predicate Clean(tuples: seq<Tuple>, dead: set<Tid>) {
    forall t :: t in tuples ==> t.heapPtr !in dead
  }

  /** No insert under way is of a dead tuple: heap slots are not reused before the
      vacuum is over. */
  ghost predicate NoneDeadPending(procs: seq<Proc>, dead: set<Tid>) {
    forall p :: 0 <= p < |procs| && Pending(procs[p]) ==> procs[p].t.heapPtr !in dead
  }

  /** The pages behind the vacuum, and those added since it started, are clean. */
  ghost predicate Swept(idx: Index, proc: Proc, dead: set<Tid>) {
    match proc
    case VacuumStart(d) => d == dead
    case Vacuum(d, blk, npages, _, _) =>
      d == dead && forall i: nat :: i < blk || i >= npages ==> Clean(At(idx, i), dead)
    case Vacuumed(d, _) => d == dead && forall i: nat :: Clean(At(idx, i), dead)
    case _ => proc.Failed?
  }

  lemma CleanEvolves(idx: Index, proc: Proc, idx': Index, i: nat, dead: set<Tid>)
    requires Evolves(idx, proc, idx', i) && (Pending(proc) ==> proc.t.heapPtr !in dead)
    requires Clean(At(idx, i), dead)
    ensures Clean(At(idx', i), dead)
  {
    hide Keep;
    if proc.Vacuum? { KeepIsSubset(At(idx, i), proc.dead); }
  }

  /** The vacuum itself moves. */
  lemma SweepsOn(idx: Index, free: bool, proc: Proc, c: Choice, dead: set<Tid>)
    requires IndexOk(idx) && ProcOk(idx, proc) && Swept(idx, proc, dead)
    ensures Swept(Advance(idx, free, proc, c).0, Advance(idx, free, proc, c).1, dead)
  {
    hide PageOk;
    hide Keep;
    hide Drop;
    var (idx', proc') := Advance(idx, free, proc, c);
    if proc.Vacuum? && !c.Crash? && proc.blk < proc.npages {
      forall i: nat | i < proc.blk + 1 || i >= proc.npages ensures Clean(At(idx', i), dead) {
        VacuumPageEvolves(idx, proc, i);
        if i == proc.blk {
          KeepIsSubset(At(idx, i), dead);
          NothingKept(idx, proc);
        }
      }
    } else if proc.Vacuum? && !c.Crash? {
      forall i: nat ensures Clean(At(idx', i), dead) {
        assert Clean(At(idx, i), dead);
      }
    }
  }

  lemma NothingKept(idx: Index, proc: Proc)
    requires proc.Vacuum? && IsBlock(idx, proc.blk) && proc.blk < proc.npages
    ensures At(VacuumPage(idx, proc.dead, proc.blk, proc.npages, proc.found, proc.removed).0, proc.blk)
      == Keep(At(idx, proc.blk), proc.dead)
  {
    hide Drop;
    var page := idx.pages[proc.blk];
    if page.Data? && |Keep(page.tuples, proc.dead)| == |page.tuples| { NothingDropped(page.tuples, proc.dead); }
  }

  /** Another process moves. */
  lemma SweptStays(idx: Index, free: bool, proc: Proc, c: Choice, sweeper: Proc, dead: set<Tid>)
    requires IndexOk(idx) && ProcOk(idx, proc) && Swept(idx, sweeper, dead)
    requires Pending(proc) ==> proc.t.heapPtr !in dead
    ensures Swept(Advance(idx, free, proc, c).0, sweeper, dead)
  {
    hide IndexOk;
    hide Advance;
    var idx' := Advance(idx, free, proc, c).0;
    forall i: nat | Clean(At(idx, i), dead) ensures Clean(At(idx', i), dead) {
      AdvanceEvolves(idx, free, proc, c, i);
      CleanEvolves(idx, proc, idx', i, dead);
    }
  }

  /** A pending insert never changes its tuple. */
  lemma StillPending(idx: Index, free: bool, proc: Proc, c: Choice)
    requires IndexOk(idx) && ProcOk(idx, proc)
    ensures var proc' := Advance(idx, free, proc, c).1;
      Pending(proc') ==> Pending(proc) && proc'.t == proc.t
  {
    hide PageOk;
    hide Keep;
    hide Drop;
    hide Hits;
  }

  ghost predicate Sweeping(s: System, q: nat, dead: set<Tid>) {
    q < |s.procs| && Swept(s.idx, s.procs[q], dead) && NoneDeadPending(s.procs, dead)
  }

  lemma NextSweeps(s: System, p: nat, c: Choice, q: nat, dead: set<Tid>)
    requires Valid(s) && Sweeping(s, q, dead)
    ensures Sweeping(Next(s, p, c), q, dead)
  {
    hide IndexOk;
    hide Advance;
    hide Swept;
    if p < |s.procs| {
      var free := MetaFree(s.procs, p);
      StillPending(s.idx, free, s.procs[p], c);
      if p == q {
        SweepsOn(s.idx, free, s.procs[q], c, dead);
      } else {
        SweptStays(s.idx, free, s.procs[p], c, s.procs[q], dead);
      }
    }
  }

  lemma {:induction false} RunSweeps(s: System, moves: seq<Move>, q: nat, dead: set<Tid>)
    requires Valid(s) && Sweeping(s, q, dead)
    ensures Sweeping(Run(s, moves), q, dead)
    decreases |moves|
  {
    hide Next;
    hide Valid;
    hide Sweeping;
    if moves != [] {
      NextValid(s, moves[0].p, moves[0].c);
      NextSweeps(s, moves[0].p, moves[0].c, q, dead);
      RunSweeps(Next(s, moves[0].p, moves[0].c), moves[1..], q, dead);
    }
  }

  /** When a vacuum is done, no live page holds a tuple it was told to delete, whatever
      inserters and other vacuums did meanwhile. */
  lemma VacuumIsComplete(s: System, moves: seq<Move>, q: nat)
    requires Valid(s) && q < |s.procs| && s.procs[q].VacuumStart? && NoneDeadPending(s.procs, s.procs[q].dead)
    ensures var s' := Run(s, moves);
      && q < |s'.procs|
      && (s'.procs[q].Vacuumed? ==> forall t :: Stored(t, s'.idx.pages) > 0 ==> t.heapPtr !in s.procs[q].dead)
  {
    var dead := s.procs[q].dead;
    RunSweeps(s, moves, q, dead);
    var s' := Run(s, moves);
    if s'.procs[q].Vacuumed? {
      forall t | Stored(t, s'.idx.pages) > 0 ensures t.heapPtr !in dead {
        var i := StoredSomewhere(t, PageItems(s'.idx.pages));
        assert t in At(s'.idx, i);
      }
    }
  }

  lemma {:induction false} StoredSomewhere(x: Tuple, lists: seq<seq<Tuple>>) returns (i: nat)
    requires Sum(x, lists) > 0
    ensures i < |lists| && x in lists[i]
  {
    var last := |lists| - 1;
    if Times(x, lists[last]) > 0 {
      i := last;
    } else {
      i := StoredSomewhere(x, lists[..last]);
    }
  }

  // ---------------------------------------------------------------------
  // A scan finds every tuple that stays
  // ---------------------------------------------------------------------

  /** No vacuum under way will remove the tuple. */
  ghost predicate Spared(procs: seq<Proc>, tid: Tid) {
    forall p :: 0 <= p < |procs| && (procs[p].VacuumStart? || procs[p].Vacuum?) ==> tid !in procs[p].dead
  }

  /** The scan has met the tuple, or will meet it on page `i`. */
  ghost predicate Tracked(idx: Index, proc: Proc, sign: seq<Word>, i: nat, t: Tuple) {
    match proc
    case ScanStart(sg) => sg == sign && i < |idx.pages| && t in At(idx, i)
    case Scan(sg, blk, npages, hits) =>
      sg == sign && if i < blk then t.heapPtr in hits else i < npages && t in At(idx, i)
    case Scanned(sg, hits) => sg == sign && t.heapPtr in hits
    case _ => proc.Failed?
  }

  lemma TracksOn(idx: Index, free: bool, proc: Proc, c: Choice, sign: seq<Word>, i: nat, t: Tuple)
    requires IndexOk(idx) && ProcOk(idx, proc) && Tracked(idx, proc, sign, i, t) && i >= 1
    requires |t.sign| == |sign| && WordsMatch(t.sign, sign)
    ensures Tracked(Advance(idx, free, proc, c).0, Advance(idx, free, proc, c).1, sign, i, t)
  {
    hide PageOk;
    hide Hits;
    if proc.Scan? && proc.blk < proc.npages && !c.Crash? {
      ItemsSigned(idx, proc.blk);
      if i == proc.blk { HitsFinds(Items(idx.pages[i]), sign, t); }
    }
  }

  lemma TrackedStays(idx: Index, free: bool, proc: Proc, c: Choice, scanner: Proc, sign: seq<Word>, i: nat, t: Tuple)
    requires IndexOk(idx) && ProcOk(idx, proc) && Tracked(idx, scanner, sign, i, t)
    requires proc.VacuumStart? || proc.Vacuum? ==> t.heapPtr !in proc.dead
    ensures Tracked(Advance(idx, free, proc, c).0, scanner, sign, i, t)
  {
    hide Advance;
    hide IndexOk;
    hide Keep;
    AdvanceOk(idx, free, proc, c);
    AdvanceEvolves(idx, free, proc, c, i);
    if proc.Vacuum? { KeepIsSubset(At(idx, i), proc.dead); }
  }

  lemma StillSpared(idx: Index, free: bool, proc: Proc, c: Choice)
    requires IndexOk(idx) && ProcOk(idx, proc)
    ensures var proc' := Advance(idx, free, proc, c).1;
      proc'.VacuumStart? || proc'.Vacuum? ==> (proc.VacuumStart? || proc.Vacuum?) && proc'.dead == proc.dead
  {
    hide PageOk;
    hide Keep;
    hide Drop;
    hide Hits;
  }

  ghost predicate Tracking(s: System, q: nat, sign: seq<Word>, i: nat, t: Tuple) {
    q < |s.procs| && Tracked(s.idx, s.procs[q], sign, i, t) && Spared(s.procs, t.heapPtr)
  }

  lemma NextTracks(s: System, p: nat, c: Choice, q: nat, sign: seq<Word>, i: nat, t: Tuple)
    requires Valid(s) && Tracking(s, q, sign, i, t) && i >= 1 && |t.sign| == |sign| && WordsMatch(t.sign, sign)
    ensures Tracking(Next(s, p, c), q, sign, i, t)
  {
    hide IndexOk;
    hide Advance;
    hide Tracked;
    hide WordsMatch;
    if p < |s.procs| {
      var free := MetaFree(s.procs, p);
      StillSpared(s.idx, free, s.procs[p], c);
      if p == q {
        TracksOn(s.idx, free, s.procs[q], c, sign, i, t);
      } else {
        TrackedStays(s.idx, free, s.procs[p], c, s.procs[q], sign, i, t);
      }
    }
  }

  lemma {:induction false} RunTracks(s: System, moves: seq<Move>, q: nat, sign: seq<Word>, i: nat, t: Tuple)
    requires Valid(s) && Tracking(s, q, sign, i, t) && i >= 1 && |t.sign| == |sign| && WordsMatch(t.sign, sign)
    ensures Tracking(Run(s, moves), q, sign, i, t)
    decreases |moves|
  {
    hide Next;
    hide Valid;
    hide Tracking;
    hide WordsMatch;
    if moves != [] {
      NextValid(s, moves[0].p, moves[0].c);
      NextTracks(s, moves[0].p, moves[0].c, q, sign, i, t);
      RunTracks(Next(s, moves[0].p, moves[0].c), moves[1..], q, sign, i, t);
    }
  }

  /** A row that is indexed when a scan starts, has the values the scan looks for and is
      not being vacuumed is in the bitmap when the scan is done, whatever else happens. */
  lemma ScanIsComplete(s: System, moves: seq<Move>, q: nat, t: Tuple, opts: Options, cols: Row, keys: seq<ScanKey>)
    requires Valid(s) && q < |s.procs| && s.procs[q].ScanStart? && Stored(t, s.idx.pages) > 0
    requires Spared(s.procs, t.heapPtr)
    requires opts.Valid() && opts.words == s.idx.words && ValidKeys(keys) && Selected(cols, keys)
    requires SignsRow(opts, cols, |cols|, t.sign) && SignsScan(opts, keys, |keys|, s.procs[q].sign)
    ensures var s' := Run(s, moves);
      q < |s'.procs| && (s'.procs[q].Scanned? ==> t.heapPtr in s'.procs[q].hits)
  {
    var sign := s.procs[q].sign;
    NoFalseNegative(opts, cols, keys, t.sign, sign);
    CoversUpTo(t.sign, sign);
    var i := StoredSomewhere(t, PageItems(s.idx.pages));
    assert t in At(s.idx, i);
    RunTracks(s, moves, q, sign, i, t);
  }

  // ---------------------------------------------------------------------
  // A scan finds nothing else
  // ---------------------------------------------------------------------

  /** The tuple is on a page or about to be inserted. */
  ghost predicate Known(s: System, t: Tuple) {
    || (exists i: nat :: t in At(s.idx, i))
    || (exists p :: 0 <= p < |s.procs| && Pending(s.procs[p]) && s.procs[p].t == t)
  }

  lemma NothingNew(s: System, p: nat, c: Choice, t: Tuple)
    requires Valid(s) && Known(Next(s, p, c), t)
    ensures Known(s, t)
  {
    hide IndexOk;
    hide Advance;
    hide Keep;
    var s' := Next(s, p, c);
    if p < |s.procs| {
      var free := MetaFree(s.procs, p);
      StillPending(s.idx, free, s.procs[p], c);
      if i: nat :| t in At(s'.idx, i) {
        AdvanceEvolves(s.idx, free, s.procs[p], c, i);
        if s.procs[p].Vacuum? { KeepIsSubset(At(s.idx, i), s.procs[p].dead); }
      } else {
        var r :| 0 <= r < |s'.procs| && Pending(s'.procs[r]) && s'.procs[r].t == t;
        assert Pending(s.procs[r]) && s.procs[r].t == t;
      }
    }
  }

  ghost predicate Justified(s: System, tid: Tid, sign: seq<Word>) {
    exists t :: Known(s, t) && t.heapPtr == tid && |t.sign| == |sign| && WordsMatch(t.sign, sign)
  }

  function HitsOf(proc: Proc): seq<Tid> {
    if proc.Scan? || proc.Scanned? then proc.hits else []
  }

  predicate IsScan(proc: Proc, sign: seq<Word>) {
    (proc.ScanStart? || proc.Scan? || proc.Scanned?) && proc.sign == sign
  }

  /** One step of a scan adds only tuples of the page it reads. */
  lemma ScanReads(idx: Index, free: bool, proc: Proc, c: Choice, sign: seq<Word>, tid: Tid)
    requires IndexOk(idx) && ProcOk(idx, proc) && IsScan(proc, sign)
    requires tid in HitsOf(Advance(idx, free, proc, c).1) && tid !in HitsOf(proc)
    ensures exists t, i: nat :: t in At(idx, i) && t.heapPtr == tid && |t.sign| == |sign| && WordsMatch(t.sign, sign)
  {
    hide PageOk;
    hide Hits;
    hide WordsMatch;
    ItemsSigned(idx, proc.blk);
    HitsAreReal(Items(idx.pages[proc.blk]), sign, tid);
    var u :| u in Items(idx.pages[proc.blk]) && u.heapPtr == tid && WordsMatch(u.sign, sign);
    assert u in At(idx, proc.blk);
  }

  lemma ScanKeepsSign(idx: Index, free: bool, proc: Proc, c: Choice, sign: seq<Word>)
    requires IndexOk(idx) && ProcOk(idx, proc) && IsScan(proc, sign)
    ensures IsScan(Advance(idx, free, proc, c).1, sign) || Advance(idx, free, proc, c).1.Failed?
  {
    hide PageOk;
    hide Hits;
  }

  lemma FailedStays(idx: Index, free: bool, proc: Proc, c: Choice)
    requires IndexOk(idx) && ProcOk(idx, proc) && proc.Failed?
    ensures Advance(idx, free, proc, c).1.Failed?
  {
    hide PageOk;
  }

  /** Every block in the bitmap of a scan has a tuple with all the bits sought, which was
      on a page or on its way there when the scan started. */
  lemma {:induction false} ScanIsSound(s: System, moves: seq<Move>, q: nat, sign: seq<Word>, tid: Tid)
    requires Valid(s) && q < |s.procs| && (IsScan(s.procs[q], sign) || s.procs[q].Failed?)
    requires q < |Run(s, moves).procs| && tid in HitsOf(Run(s, moves).procs[q])
    ensures tid in HitsOf(s.procs[q]) || Justified(s, tid, sign)
    decreases |moves|
  {
    hide IndexOk;
    hide Advance;
    hide WordsMatch;
    hide Known;
    if moves != [] {
      var p, c := moves[0].p, moves[0].c;
      var s' := Next(s, p, c);
      NextValid(s, p, c);
      if p == q {
        if s.procs[q].Failed? {
          FailedStays(s.idx, MetaFree(s.procs, p), s.procs[p], c);
        } else {
          ScanKeepsSign(s.idx, MetaFree(s.procs, p), s.procs[p], c, sign);
        }
      }
      ScanIsSound(s', moves[1..], q, sign, tid);
      if tid in HitsOf(s'.procs[q]) {
        if tid !in HitsOf(s.procs[q]) {
          ScanReads(s.idx, MetaFree(s.procs, p), s.procs[p], c, sign, tid);
          var t, i: nat :| t in At(s.idx, i) && t.heapPtr == tid && |t.sign| == |sign| && WordsMatch(t.sign, sign);
          StoredIsKnown(s, t, i);
        }
      } else {
        var t :| Known(s', t) && t.heapPtr == tid && |t.sign| == |sign| && WordsMatch(t.sign, sign);
        NothingNew(s, p, c, t);
      }
    }
  }

  lemma StoredIsKnown(s: System, t: Tuple, i: nat)
    requires t in At(s.idx, i)
    ensures Known(s, t)
  {
  }

  // ---------------------------------------------------------------------
  // An insert always ends
  // ---------------------------------------------------------------------

  /** How many steps an insert still needs at most: each page that the space map offers may
      turn out to be taken. */
  ghost function StepsLeft(idx: Index, proc: Proc): nat
    requires ProcOk(idx, proc) && IndexOk(idx)
  {
    var offers := 2 * |idx.fsm|;
    match proc
    case Begin(_) => idx.nEnd - idx.nStart + 5 + offers
    case TryPage(_, _) => idx.nEnd - idx.nStart + 4 + offers
    case WaitMeta(_, _) => idx.nEnd - idx.nStart + 3 + offers
    case Retry(_, at) => idx.nEnd - at + 2 + offers
    case Recycle(_, _) => 2 + offers
    case Allocate(_) => 1 + offers
    case _ => 0
  }

  lemma InsertAdvances(idx: Index, proc: Proc, c: Choice)
    requires IndexOk(idx) && ProcOk(idx, proc) && Pending(proc) && !c.Crash?
    ensures var (idx', proc') := Advance(idx, true, proc, c);
      && InOrder(idx, idx', proc') && StepsLeft(idx', proc') < StepsLeft(idx, proc)
      && (proc' == Inserted(proc.t) || (Pending(proc') && proc'.t == proc.t))
  {
    hide PageOk;
    hide AddItem;
    hide Claim;
    AdvanceOk(idx, true, proc, c);
    match proc
    case Allocate(t) => ClaimOk(idx, |idx.pages|, t);
    case Recycle(t, blk) => ClaimOk(idx, blk, t);
    case _ =>
  }

  lemma InsertedStays(idx: Index, free: bool, proc: Proc, c: Choice)
    requires IndexOk(idx) && ProcOk(idx, proc) && proc.Inserted?
    ensures Advance(idx, free, proc, c).1 == proc
  {
    hide PageOk;
  }

  ghost function MovesOf(p: nat, cs: seq<Choice>): seq<Move> {
    seq(|cs|, i requires 0 <= i < |cs| => Move(p, cs[i]))
  }

  lemma {:induction false} InsertedRemains(s: System, p: nat, cs: seq<Choice>)
    requires Valid(s) && p < |s.procs| && s.procs[p].Inserted?
    ensures p < |Run(s, MovesOf(p, cs)).procs| && Run(s, MovesOf(p, cs)).procs[p] == s.procs[p]
    decreases |cs|
  {
    hide IndexOk;
    hide Advance;
    if cs != [] {
      InsertedStays(s.idx, MetaFree(s.procs, p), s.procs[p], cs[0]);
      NextValid(s, p, cs[0]);
      InsertedRemains(Next(s, p, cs[0]), p, cs[1..]);
      assert MovesOf(p, cs)[1..] == MovesOf(p, cs[1..]);
    }
  }

  /** Left alone, an insert finishes within a bounded number of its own steps, whatever pages the
      space map offers and whoever holds them. */
  lemma {:induction false} InsertFinishes(s: System, p: nat, cs: seq<Choice>)
    requires Valid(s) && p < |s.procs| && Pending(s.procs[p]) && MetaFree(s.procs, p)
    requires (forall c :: c in cs ==> !c.Crash?) && |cs| >= StepsLeft(s.idx, s.procs[p])
    ensures p < |Run(s, MovesOf(p, cs)).procs| && Run(s, MovesOf(p, cs)).procs[p] == Inserted(s.procs[p].t)
    decreases |cs|
  {
    hide IndexOk;
    hide Advance;
    hide StepsLeft;
    PendingNeedsSteps(s.idx, s.procs[p]);
    var c := cs[0];
    InsertAdvances(s.idx, s.procs[p], c);
    NextValid(s, p, c);
    var s' := Next(s, p, c);
    assert MovesOf(p, cs)[1..] == MovesOf(p, cs[1..]);
    if s'.procs[p].Inserted? {
      InsertedRemains(s', p, cs[1..]);
    } else {
      InsertFinishes(s', p, cs[1..]);
    }
  }

  lemma PendingNeedsSteps(idx: Index, proc: Proc)
    requires IndexOk(idx) && ProcOk(idx, proc) && Pending(proc)
    ensures StepsLeft(idx, proc) > 0
  {
  }
}
