/**
  The update-chain checks of amcheck on one heap page: three loops over the line
  pointers, against a statement of what a sound page looks like.
 */
module UpdateChains {
  type Xid = nat

  const INVALID_OFFSET: nat := 0
  const INVALID_XID: Xid := 0
  const BLOCK_SIZE := 8192
  const MIN_TUPLE := 24
  const ALIGNMENT := 8

  datatype Header = Header(xmin: Xid, xmax: Xid, ctidBlock: nat, ctidOffset: nat, hotUpdated: bool, heapOnly: bool)

  datatype Item = Unused | Dead | Redirect(target: nat) | Normal(off: nat, len: nat, tuple: Header)

  datatype Status = Committed | Current | InProgress | Aborted

  /** What checking the tuple itself found out about its xmin. */
  datatype Check = Unknown | Known(status: Status)

  /** Line pointers are numbered from 1. `running` holds the transactions that are still
      in progress when the commit status is looked at again. */
  datatype Page = Page(blkno: nat, items: seq<Item>, checks: seq<Check>, running: set<Xid>) {
    function Max(): nat { |items| }

    predicate Has(o: nat) { 1 <= o <= |items| }

    function At(o: nat): Item
      requires Has(o)
    {
      items[o - 1]
    }

    ghost predicate Valid() { |checks| == |items| }
  }

  datatype Kind =
    | RedirectBelow | RedirectBeyond | RedirectToUnused | RedirectToDead | RedirectToRedirect
    | Misaligned | TooShort | BeyondPage
    | RedirectToCold | RedirectShared | UpdateShared | ColdMadeHot | HotMadeCold
    | RunningThenCommitted | AbortedThenRunning | AbortedThenCommitted
    | HeapOnlyRoot

  datatype Report = Report(offset: nat, kind: Kind)

  // ---------------------------------------------------------------------
  // What the loops are to find
  // ---------------------------------------------------------------------

  /** What is wrong with a line pointer by itself, if anything. */
  ghost function LineFault(pg: Page, o: nat): seq<Kind>
    requires pg.Has(o)
  {
    match pg.At(o)
    case Redirect(t) =>
      if t < 1 then [RedirectBelow]
      else if t > pg.Max() then [RedirectBeyond]
      else if pg.At(t).Unused? then [RedirectToUnused]
      else if pg.At(t).Dead? then [RedirectToDead]
      else if pg.At(t).Redirect? then [RedirectToRedirect]
      else []
    case Normal(off, len, _) =>
      if off % ALIGNMENT != 0 then [Misaligned]
      else if len < MIN_TUPLE then [TooShort]
      else if off + len > BLOCK_SIZE then [BeyondPage]
      else []
    case _ => []
  }

  ghost predicate Sound(pg: Page, o: nat) {
    pg.Has(o) && (pg.At(o).Redirect? || pg.At(o).Normal?) && LineFault(pg, o) == []
  }

  /** Where a sound line pointer leads on this page. */
  ghost predicate LeadsTo(pg: Page, o: nat, n: nat) {
    && Sound(pg, o) && pg.Has(n)
    && match pg.At(o)
       case Redirect(t) => n == t
       case Normal(_, _, tuple) => tuple.ctidBlock == pg.blkno && tuple.ctidOffset == n && n != o
       case _ => false
  }

  /** Two line pointers that belong to one update chain: a redirect and its target, or a
      tuple and the tuple its update made. */
  ghost predicate Link(pg: Page, o: nat, n: nat) {
    && LeadsTo(pg, o, n) && Sound(pg, n)
    && (pg.At(o).Normal? ==>
          pg.At(n).Normal? && pg.At(o).tuple.xmax != INVALID_XID && pg.At(o).tuple.xmax == pg.At(n).tuple.xmin)
  }

  ghost predicate LinkedBefore(pg: Page, o: nat, n: nat) {
    exists p :: 1 <= p < o && Link(pg, p, n)
  }

  ghost function XminCheck(pg: Page, o: nat): Check
    requires pg.Valid() && pg.Has(o)
  {
    if Sound(pg, o) && pg.At(o).Normal? then pg.checks[o - 1] else Unknown
  }

  ghost predicate HasStatus(pg: Page, o: nat, s: Status)
    requires pg.Valid() && pg.Has(o)
  {
    XminCheck(pg, o) == Known(s)
  }

  /** The fault `kind` in the link from `o` to `n`. */
  ghost predicate LinkFault(pg: Page, o: nat, n: nat, kind: Kind)
    requires pg.Valid()
  {
    && Link(pg, o, n) && pg.At(n).Normal?
    && if !pg.At(o).Normal? then
         (kind.RedirectToCold? && !pg.At(n).tuple.heapOnly) || (kind.RedirectShared? && LinkedBefore(pg, o, n))
       else if LinkedBefore(pg, o, n) then kind.UpdateShared?
       else UpdateFault(pg, o, n, kind)
  }

  /** The fault `kind` between a tuple and the new version of it. */
  ghost predicate UpdateFault(pg: Page, o: nat, n: nat, kind: Kind)
    requires pg.Valid() && pg.Has(o) && pg.Has(n) && pg.At(o).Normal? && pg.At(n).Normal?
  {
    match kind
    case ColdMadeHot => !pg.At(o).tuple.hotUpdated && pg.At(n).tuple.heapOnly
    case HotMadeCold => pg.At(o).tuple.hotUpdated && !pg.At(n).tuple.heapOnly
    case RunningThenCommitted =>
      HasStatus(pg, o, InProgress) && HasStatus(pg, n, Committed) && pg.At(o).tuple.xmin in pg.running
    case AbortedThenRunning => HasStatus(pg, o, Aborted) && HasStatus(pg, n, InProgress)
    case AbortedThenCommitted => HasStatus(pg, o, Aborted) && HasStatus(pg, n, Committed)
    case _ => false
  }

  /** A tuple whose transaction did not fail starts a chain although it may not. */
  ghost predicate RootFault(pg: Page, o: nat)
    requires pg.Valid() && pg.Has(o)
  {
    && (HasStatus(pg, o, Committed) || HasStatus(pg, o, InProgress))
    && !LinkedBefore(pg, pg.Max() + 1, o) && pg.At(o).Normal? && pg.At(o).tuple.heapOnly
  }

  lemma LeadsToOne(pg: Page, o: nat, m: nat, n: nat)
    requires LeadsTo(pg, o, m) && LeadsTo(pg, o, n)
    ensures m == n
  {
  }

  // ---------------------------------------------------------------------
  // First loop: line pointers
  // ---------------------------------------------------------------------

  /** `reports` holds exactly the line pointer faults below offset `end`. */
  ghost predicate LineReports(pg: Page, end: nat, reports: seq<Report>) {
    && (forall r :: r in reports ==> pg.Has(r.offset) && r.offset < end && r.kind in LineFault(pg, r.offset))
    && (forall o, k :: 1 <= o < end && pg.Has(o) && k in LineFault(pg, o) ==> Report(o, k) in reports)
  }

  /** What the arrays say about the line pointers below `end`. */
  ghost predicate Recorded(pg: Page, end: nat, successor: seq<nat>, lpValid: seq<bool>, known: seq<Check>)
    requires pg.Valid()
  {
    && |successor| == |lpValid| == |known| == pg.Max() + 1
    && forall o :: 1 <= o < end && pg.Has(o) ==>
         && (lpValid[o] <==> Sound(pg, o))
         && known[o] == XminCheck(pg, o)
         && (successor[o] == INVALID_OFFSET ==> forall n :: !LeadsTo(pg, o, n))
         && (successor[o] != INVALID_OFFSET ==> LeadsTo(pg, o, successor[o]))
  }

  method CheckLine(pg: Page, o: nat) returns (fault: seq<Kind>, valid: bool, next: nat)
    requires pg.Valid() && pg.Has(o)
    ensures fault == LineFault(pg, o) && |fault| <= 1 && (valid <==> Sound(pg, o))
    ensures if next == INVALID_OFFSET then forall n :: !LeadsTo(pg, o, n) else LeadsTo(pg, o, next)
  {
    fault, valid, next := [], false, INVALID_OFFSET;
    match pg.At(o)
    case Unused => return;
    case Dead => return;
    case Redirect(target) =>
      if target < 1 { fault := [RedirectBelow]; return; }
      if target > pg.Max() { fault := [RedirectBeyond]; return; }
      var item := pg.At(target);
      if item.Unused? { fault := [RedirectToUnused]; return; }
      else if item.Dead? { fault := [RedirectToDead]; return; }
      else if item.Redirect? { fault := [RedirectToRedirect]; return; }
      valid, next := true, target;
    case Normal(off, len, tuple) =>
      if off % ALIGNMENT != 0 { fault := [Misaligned]; return; }
      if len < MIN_TUPLE { fault := [TooShort]; return; }
      if off + len > BLOCK_SIZE { fault := [BeyondPage]; return; }
      valid := true;
      if tuple.ctidBlock == pg.blkno && tuple.ctidOffset != o && 1 <= tuple.ctidOffset <= pg.Max() {
        next := tuple.ctidOffset;
      }
  }

  lemma NothingRecorded(pg: Page, successor: seq<nat>, lpValid: seq<bool>, known: seq<Check>)
    requires pg.Valid() && |successor| == |lpValid| == |known| == pg.Max() + 1
    ensures LineReports(pg, 1, []) && Recorded(pg, 1, successor, lpValid, known)
  {
  }

  lemma LineReportsStep(pg: Page, o: nat, reports: seq<Report>, fault: seq<Kind>)
    requires pg.Has(o) && LineReports(pg, o, reports) && fault == LineFault(pg, o) && |fault| <= 1
    ensures LineReports(pg, o + 1, if fault == [] then reports else reports + [Report(o, fault[0])])
  {
    hide LineFault;
  }

  lemma RecordedStep(pg: Page, o: nat, successor: seq<nat>, lpValid: seq<bool>, known: seq<Check>, next: nat,
                     valid: bool)
    requires pg.Valid() && pg.Has(o) && Recorded(pg, o, successor, lpValid, known)
    requires valid <==> Sound(pg, o)
    requires if next == INVALID_OFFSET then forall n :: !LeadsTo(pg, o, n) else LeadsTo(pg, o, next)
    ensures |successor| == |lpValid| == |known| == pg.Max() + 1
    ensures Recorded(pg, o + 1, successor[o := next], lpValid[o := valid],
                     known[o := if valid && pg.At(o).Normal? then pg.checks[o - 1] else Unknown])
  {
    hide LeadsTo;
    hide Sound;
  }

  method CheckLines(pg: Page)
    returns (successor: array<nat>, lpValid: array<bool>, known: array<Check>, reports: seq<Report>)
    requires pg.Valid()
    ensures fresh(successor) && fresh(lpValid) && fresh(known)
    ensures LineReports(pg, pg.Max() + 1, reports)
    ensures Recorded(pg, pg.Max() + 1, successor[..], lpValid[..], known[..])
  {
    hide LineFault;
    hide LineReports;
    hide Recorded;
    hide LeadsTo;
    hide Sound;
    successor := new nat[pg.Max() + 1](_ => INVALID_OFFSET);
    lpValid := new bool[pg.Max() + 1](_ => false);
    known := new Check[pg.Max() + 1](_ => Unknown);
    reports := [];
    var o := 1;
    NothingRecorded(pg, successor[..], lpValid[..], known[..]);
    while o <= pg.Max()
      invariant 1 <= o <= pg.Max() + 1 && LineReports(pg, o, reports)
      invariant Recorded(pg, o, successor[..], lpValid[..], known[..])
    {
      var fault, valid, next := CheckLine(pg, o);
      LineReportsStep(pg, o, reports, fault);
      RecordedStep(pg, o, successor[..], lpValid[..], known[..], next, valid);
      ghost var before := known[..];
      successor[o], lpValid[o] := next, valid;
      known[o] := Unknown;
      if valid && pg.At(o).Normal? {
        known[o] := pg.checks[o - 1];
      }
      assert known[..] == before[o := if valid && pg.At(o).Normal? then pg.checks[o - 1] else Unknown];
      if fault != [] {
        reports := reports + [Report(o, fault[0])];
      }
      o := o + 1;
    }
  }

  // ---------------------------------------------------------------------
  // Second loop: links
  // ---------------------------------------------------------------------

  /** `predecessor` holds, for every line pointer, the first one below `end` linked to it. */
  ghost predicate Predecessors(pg: Page, end: nat, predecessor: seq<nat>) {
    && |predecessor| == pg.Max() + 1
    && forall n: nat :: pg.Has(n) ==>
         if predecessor[n] == INVALID_OFFSET then !LinkedBefore(pg, end, n)
         else 1 <= predecessor[n] < end && Link(pg, predecessor[n], n)
  }

  ghost predicate FaultOf(pg: Page, o: nat, kind: Kind)
    requires pg.Valid()
  {
    exists n :: LinkFault(pg, o, n, kind)
  }

  ghost predicate LinkReports(pg: Page, end: nat, reports: seq<Report>)
    requires pg.Valid()
  {
    && (forall r :: r in reports ==> 1 <= r.offset < end && FaultOf(pg, r.offset, r.kind))
    && (forall o, k :: 1 <= o < end && FaultOf(pg, o, k) ==> Report(o, k) in reports)
  }

  /** No link starts at `o`. */
  lemma NoLink(pg: Page, o: nat, predecessor: seq<nat>)
    requires pg.Valid() && Predecessors(pg, o, predecessor) && forall n :: !Link(pg, o, n)
    ensures Predecessors(pg, o + 1, predecessor) && forall k :: !FaultOf(pg, o, k)
  {
  }

  /** The link from `o` goes to `n`, which was linked before. */
  lemma SharedLink(pg: Page, o: nat, n: nat, predecessor: seq<nat>)
    requires pg.Valid() && Predecessors(pg, o, predecessor) && Link(pg, o, n) && predecessor[n] != INVALID_OFFSET
    ensures Predecessors(pg, o + 1, predecessor) && LinkedBefore(pg, o, n)
  {
    forall m: nat | pg.Has(m) && predecessor[m] == INVALID_OFFSET ensures !LinkedBefore(pg, o + 1, m) {
      if Link(pg, o, m) { LeadsToOne(pg, o, m, n); }
    }
  }

  lemma NewLink(pg: Page, o: nat, n: nat, predecessor: seq<nat>)
    requires pg.Valid() && Predecessors(pg, o, predecessor) && Link(pg, o, n) && predecessor[n] == INVALID_OFFSET
    requires o >= 1
    ensures Predecessors(pg, o + 1, predecessor[n := o]) && !LinkedBefore(pg, o, n)
  {
    var pred' := predecessor[n := o];
    forall m: nat | pg.Has(m)
      ensures if pred'[m] == INVALID_OFFSET then !LinkedBefore(pg, o + 1, m)
              else 1 <= pred'[m] < o + 1 && Link(pg, pred'[m], m)
    {
      if Link(pg, o, m) { LeadsToOne(pg, o, m, n); }
    }
  }

  /** The faults at `o` are those of its one link. */
  lemma OneLink(pg: Page, o: nat, n: nat)
    requires pg.Valid() && Link(pg, o, n)
    ensures forall k :: FaultOf(pg, o, k) <==> LinkFault(pg, o, n, k)
  {
    forall k ensures FaultOf(pg, o, k) <==> LinkFault(pg, o, n, k) {
      if FaultOf(pg, o, k) {
        var m :| LinkFault(pg, o, m, k);
        LeadsToOne(pg, o, m, n);
      }
    }
  }

  /** The checks on a tuple and its new version. */
  method CheckUpdate(pg: Page, o: nat, n: nat, oCheck: Check, nCheck: Check) returns (faults: seq<Kind>)
    requires pg.Valid() && pg.Has(o) && pg.Has(n) && pg.At(o).Normal? && pg.At(n).Normal?
    requires oCheck == XminCheck(pg, o) && nCheck == XminCheck(pg, n)
    ensures forall k :: k in faults <==> UpdateFault(pg, o, n, k)
  {
    hide XminCheck;
    var current, next := pg.At(o).tuple, pg.At(n).tuple;
    faults := [];
    if !current.hotUpdated && next.heapOnly {
      faults := faults + [ColdMadeHot];
    }
    if current.hotUpdated && !next.heapOnly {
      faults := faults + [HotMadeCold];
    }
    if oCheck == Known(InProgress) && nCheck == Known(Committed) && current.xmin in pg.running {
      faults := faults + [RunningThenCommitted];
    }
    if oCheck == Known(Aborted) {
      if nCheck == Known(InProgress) {
        faults := faults + [AbortedThenRunning];
      } else if nCheck == Known(Committed) {
        faults := faults + [AbortedThenCommitted];
      }
    }
  }

  method CheckLink(pg: Page, o: nat, successor: array<nat>, lpValid: array<bool>, known: array<Check>,
                   predecessor: array<nat>)
    returns (faults: seq<Kind>)
    requires pg.Valid() && pg.Has(o) && Recorded(pg, pg.Max() + 1, successor[..], lpValid[..], known[..])
    requires Predecessors(pg, o, predecessor[..]) && predecessor != successor
    modifies predecessor
    ensures Predecessors(pg, o + 1, predecessor[..])
    ensures forall k :: k in faults <==> FaultOf(pg, o, k)
  {
    hide Predecessors;
    hide FaultOf;
    hide UpdateFault;
    hide LinkedBefore;
    hide LineFault;
    PredecessorsLength(pg, o, predecessor[..]);
    faults := [];
    var n := successor[o];
    SuccessorIs(pg, o, successor[..], lpValid[..], known[..]);
    if n == INVALID_OFFSET || !lpValid[n] {
      NoLink(pg, o, predecessor[..]);
      return;
    }
    if pg.At(o).Redirect? {
      OneLink(pg, o, n);
      if !pg.At(n).tuple.heapOnly {
        faults := faults + [RedirectToCold];
      }
      if predecessor[n] != INVALID_OFFSET {
        SharedLink(pg, o, n, predecessor[..]);
        faults := faults + [RedirectShared];
        return;
      }
      NewLink(pg, o, n, predecessor[..]);
      predecessor[n] := o;
      return;
    }
    if pg.At(n).Redirect? {
      NoLink(pg, o, predecessor[..]);
      return;
    }
    var xmax := pg.At(o).tuple.xmax;
    if xmax == INVALID_XID || xmax != pg.At(n).tuple.xmin {
      NoLink(pg, o, predecessor[..]);
      return;
    }
    OneLink(pg, o, n);
    if predecessor[n] != INVALID_OFFSET {
      SharedLink(pg, o, n, predecessor[..]);
      faults := faults + [UpdateShared];
      return;
    }
    NewLink(pg, o, n, predecessor[..]);
    predecessor[n] := o;
    faults := CheckUpdate(pg, o, n, known[o], known[n]);
  }

  lemma PredecessorsLength(pg: Page, end: nat, predecessor: seq<nat>)
    requires Predecessors(pg, end, predecessor)
    ensures |predecessor| == pg.Max() + 1
  {
  }

  /** What the arrays say about `o` and where it leads. */
  lemma SuccessorIs(pg: Page, o: nat, successor: seq<nat>, lpValid: seq<bool>, known: seq<Check>)
    requires pg.Valid() && pg.Has(o) && Recorded(pg, pg.Max() + 1, successor, lpValid, known)
    ensures var n := successor[o];
      if n == INVALID_OFFSET then forall m :: !Link(pg, o, m)
      else
        && pg.Has(n) && LeadsTo(pg, o, n) && (lpValid[n] <==> Sound(pg, n))
        && (pg.At(o).Redirect? || pg.At(o).Normal?) && (pg.At(o).Redirect? ==> pg.At(n).Normal?)
        && (Sound(pg, n) ==> pg.At(n).Redirect? || pg.At(n).Normal?)
        && forall m :: Link(pg, o, m) ==> m == n
  {
    var n := successor[o];
    if n != INVALID_OFFSET {
      forall m | Link(pg, o, m) ensures m == n { LeadsToOne(pg, o, m, n); }
    }
  }

  method CheckLinks(pg: Page, successor: array<nat>, lpValid: array<bool>, known: array<Check>)
    returns (predecessor: array<nat>, reports: seq<Report>)
    requires pg.Valid() && Recorded(pg, pg.Max() + 1, successor[..], lpValid[..], known[..])
    ensures fresh(predecessor) && Predecessors(pg, pg.Max() + 1, predecessor[..])
    ensures LinkReports(pg, pg.Max() + 1, reports)
  {
    hide FaultOf;
    hide Link;
    hide Recorded;
    predecessor := new nat[pg.Max() + 1](_ => INVALID_OFFSET);
    reports := [];
    var o := 1;
    while o <= pg.Max()
      invariant 1 <= o <= pg.Max() + 1 && fresh(predecessor)
      invariant Recorded(pg, pg.Max() + 1, successor[..], lpValid[..], known[..])
      invariant Predecessors(pg, o, predecessor[..]) && LinkReports(pg, o, reports)
    {
      var faults := CheckLink(pg, o, successor, lpValid, known, predecessor);
      LinkReportsGrow(pg, o, reports, faults);
      reports := reports + seq(|faults|, i requires 0 <= i < |faults| => Report(o, faults[i]));
      o := o + 1;
    }
  }

  lemma LinkReportsGrow(pg: Page, o: nat, reports: seq<Report>, faults: seq<Kind>)
    requires pg.Valid() && o >= 1 && LinkReports(pg, o, reports) && forall k :: k in faults <==> FaultOf(pg, o, k)
    ensures LinkReports(pg, o + 1, reports + seq(|faults|, i requires 0 <= i < |faults| => Report(o, faults[i])))
  {
    hide FaultOf;
    var added := seq(|faults|, i requires 0 <= i < |faults| => Report(o, faults[i]));
    forall k | FaultOf(pg, o, k) ensures Report(o, k) in added {
      var i :| 0 <= i < |faults| && faults[i] == k;
      assert added[i] == Report(o, k);
    }
  }

  // ---------------------------------------------------------------------
  // Third loop: roots
  // ---------------------------------------------------------------------

  ghost predicate RootReports(pg: Page, end: nat, reports: seq<Report>)
    requires pg.Valid()
  {
    && (forall r :: r in reports ==>
          1 <= r.offset < end && pg.Has(r.offset) && r.kind == HeapOnlyRoot && RootFault(pg, r.offset))
    && (forall o :: 1 <= o < end && pg.Has(o) && RootFault(pg, o) ==> Report(o, HeapOnlyRoot) in reports)
  }

  method CheckRoots(pg: Page, ghost successor: seq<nat>, ghost lpValid: seq<bool>, known: array<Check>,
                    predecessor: array<nat>)
    returns (reports: seq<Report>)
    requires pg.Valid() && Recorded(pg, pg.Max() + 1, successor, lpValid, known[..])
    requires Predecessors(pg, pg.Max() + 1, predecessor[..])
    ensures RootReports(pg, pg.Max() + 1, reports)
  {
    hide Link;
    reports := [];
    var o := 1;
    while o <= pg.Max()
      invariant 1 <= o <= pg.Max() + 1 && RootReports(pg, o, reports)
    {
      assert known[..][o] == XminCheck(pg, o);
      if (known[o] == Known(Committed) || known[o] == Known(InProgress)) && predecessor[o] == INVALID_OFFSET {
        assert !LinkedBefore(pg, pg.Max() + 1, o) by { assert predecessor[..][o] == INVALID_OFFSET; }
        if !pg.At(o).Redirect? {
          if pg.At(o).tuple.heapOnly {
            reports := reports + [Report(o, HeapOnlyRoot)];
          }
        }
      } else if predecessor[o] != INVALID_OFFSET {
        assert LinkedBefore(pg, pg.Max() + 1, o) by { assert Link(pg, predecessor[..][o], o); }
      }
      o := o + 1;
    }
  }

  // ---------------------------------------------------------------------
  // The whole page
  // ---------------------------------------------------------------------

  ghost predicate Faulty(pg: Page, o: nat, kind: Kind)
    requires pg.Valid()
  {
    pg.Has(o) && (kind in LineFault(pg, o) || FaultOf(pg, o, kind) || (kind == HeapOnlyRoot && RootFault(pg, o)))
  }

  /** The three loops together report every fault of the page, and nothing else. */
  method CheckPage(pg: Page) returns (reports: seq<Report>)
    requires pg.Valid()
    ensures forall o: nat, k :: Report(o, k) in reports <==> Faulty(pg, o, k)
    ensures reports == [] <==> SoundPage(pg)
  {
    hide LineFault;
    hide Recorded;
    hide Predecessors;
    hide SoundPage;
    hide RootFault;
    var successor, lpValid, known, lines := CheckLines(pg);
    var predecessor, links := CheckLinks(pg, successor, lpValid, known);
    var roots := CheckRoots(pg, successor[..], lpValid[..], known, predecessor);
    reports := lines + links + roots;
    Together(pg, lines, links, roots);
    SoundIffFaultless(pg);
    if reports != [] { assert Report(reports[0].offset, reports[0].kind) in reports; }
  }

  lemma Together(pg: Page, lines: seq<Report>, links: seq<Report>, roots: seq<Report>)
    requires pg.Valid()
    requires LineReports(pg, pg.Max() + 1, lines) && LinkReports(pg, pg.Max() + 1, links)
    requires RootReports(pg, pg.Max() + 1, roots)
    ensures forall o: nat, k :: Report(o, k) in lines + links + roots <==> Faulty(pg, o, k)
  {
    hide LineFault;
    hide FaultOf;
    hide RootFault;
    forall o: nat, k ensures Report(o, k) in lines + links + roots <==> Faulty(pg, o, k) {
      var r := Report(o, k);
      assert r in lines + links + roots <==> r in lines || r in links || r in roots;
    }
  }

  // ---------------------------------------------------------------------
  // What a page without reports is like
  // ---------------------------------------------------------------------

  /** A heap-only tuple that its transaction did not take back. */
  ghost predicate NeedsPredecessor(pg: Page, n: nat)
    requires pg.Valid()
  {
    && pg.Has(n) && pg.At(n).Normal? && pg.At(n).tuple.heapOnly
    && pg.checks[n - 1] in {Known(Committed), Known(InProgress)}
  }

  /** Stated without reference to the checks. */
  ghost predicate SoundPage(pg: Page)
    requires pg.Valid()
  {
    && (forall o :: pg.Has(o) && pg.At(o).Redirect? ==> pg.Has(pg.At(o).target) && pg.At(pg.At(o).target).Normal?)
    && (forall o :: pg.Has(o) && pg.At(o).Normal? ==>
          pg.At(o).off % ALIGNMENT == 0 && pg.At(o).len >= MIN_TUPLE && pg.At(o).off + pg.At(o).len <= BLOCK_SIZE)
    && (forall o, p, n :: Link(pg, o, n) && Link(pg, p, n) ==> o == p)
    && (forall o, n :: Link(pg, o, n) ==> SoundLink(pg, o, n))
    && (forall n :: NeedsPredecessor(pg, n) ==> exists o :: Link(pg, o, n))
  }

  /** HOT flags agree along the link, a redirect leads to a heap-only tuple, and a
      transaction that failed or still runs has no successor that got further. */
  ghost predicate SoundLink(pg: Page, o: nat, n: nat)
    requires pg.Valid() && Link(pg, o, n)
  {
    && (pg.At(o).Redirect? ==> pg.At(n).Normal? && pg.At(n).tuple.heapOnly)
    && (pg.At(o).Normal? ==>
          && (pg.At(o).tuple.hotUpdated <==> pg.At(n).tuple.heapOnly)
          && !(&& pg.checks[o - 1] == Known(InProgress) && pg.checks[n - 1] == Known(Committed)
               && pg.At(o).tuple.xmin in pg.running)
          && !(pg.checks[o - 1] == Known(Aborted) && pg.checks[n - 1] in {Known(InProgress), Known(Committed)}))
  }

  ghost predicate Faultless(pg: Page)
    requires pg.Valid()
  {
    forall o: nat, k :: !Faulty(pg, o, k)
  }

  lemma LineFaultIsFaulty(pg: Page, o: nat)
    requires pg.Valid() && pg.Has(o) && LineFault(pg, o) != []
    ensures Faulty(pg, o, LineFault(pg, o)[0])
  {
    hide LineFault;
  }

  lemma LinkFaultIsFaulty(pg: Page, o: nat, n: nat, k: Kind)
    requires pg.Valid() && LinkFault(pg, o, n, k)
    ensures Faulty(pg, o, k)
  {
  }

  /** Of two links to the same tuple the later one is at fault. */
  lemma SharedIsFaulty(pg: Page, o: nat, p: nat, n: nat) returns (k: Kind)
    requires pg.Valid() && Link(pg, o, n) && Link(pg, p, n) && p < o
    ensures Faulty(pg, o, k)
  {
    assert LinkedBefore(pg, o, n);
    k := if pg.At(o).Normal? then UpdateShared else RedirectShared;
    LinkFaultIsFaulty(pg, o, n, k);
  }

  lemma FaultlessLine(pg: Page, o: nat)
    requires pg.Valid() && Faultless(pg) && pg.Has(o)
    ensures LineFault(pg, o) == []
  {
    hide Faulty;
    hide LineFault;
    if LineFault(pg, o) != [] { LineFaultIsFaulty(pg, o); }
  }

  lemma FaultlessUnshared(pg: Page, o: nat, p: nat, n: nat)
    requires pg.Valid() && Faultless(pg) && Link(pg, o, n) && Link(pg, p, n)
    ensures o <= p
  {
    hide Faulty;
    hide Link;
    if p < o { var k := SharedIsFaulty(pg, o, p, n); }
  }

  lemma FaultlessLink(pg: Page, o: nat, n: nat)
    requires pg.Valid() && Faultless(pg) && Link(pg, o, n)
    ensures SoundLink(pg, o, n)
  {
    hide LineFault;
    hide RootFault;
    LinkKinds(pg, o, n);
    forall p | Link(pg, p, n) ensures o <= p {
      FaultlessUnshared(pg, o, p, n);
    }
    assert !LinkedBefore(pg, o, n);
    NoLinkFault(pg, o, n, RedirectToCold);
    NoLinkFault(pg, o, n, ColdMadeHot);
    NoLinkFault(pg, o, n, HotMadeCold);
    NoLinkFault(pg, o, n, RunningThenCommitted);
    NoLinkFault(pg, o, n, AbortedThenRunning);
    NoLinkFault(pg, o, n, AbortedThenCommitted);
  }

  lemma NoLinkFault(pg: Page, o: nat, n: nat, k: Kind)
    requires pg.Valid() && Faultless(pg)
    ensures !LinkFault(pg, o, n, k)
  {
    hide LinkFault;
    if LinkFault(pg, o, n, k) { LinkFaultIsFaulty(pg, o, n, k); }
  }

  lemma LinkKinds(pg: Page, o: nat, n: nat)
    requires Link(pg, o, n)
    ensures pg.Has(o) && pg.Has(n) && (pg.At(o).Redirect? || pg.At(o).Normal?) && pg.At(n).Normal? && Sound(pg, o)
    ensures Sound(pg, n)
  {
  }

  lemma FaultlessRoot(pg: Page, n: nat)
    requires pg.Valid() && Faultless(pg) && pg.Has(n) && pg.At(n).Normal? && pg.At(n).tuple.heapOnly
    requires pg.checks[n - 1] in {Known(Committed), Known(InProgress)}
    ensures exists o :: Link(pg, o, n)
  {
    FaultlessLine(pg, n);
    assert !Faulty(pg, n, HeapOnlyRoot);
    var o :| 1 <= o < pg.Max() + 1 && Link(pg, o, n);
  }

  lemma SoundFaultlessLine(pg: Page, o: nat)
    requires pg.Valid() && SoundPage(pg) && pg.Has(o)
    ensures LineFault(pg, o) == []
  {
  }

  lemma SoundFaultlessLink(pg: Page, o: nat, n: nat, k: Kind)
    requires pg.Valid() && SoundPage(pg) && Link(pg, o, n)
    ensures !LinkFault(pg, o, n, k)
  {
    hide LineFault;
    LinkKinds(pg, o, n);
    assert SoundLink(pg, o, n);
    assert !LinkedBefore(pg, o, n);
  }

  lemma SoundFaultlessRoot(pg: Page, o: nat)
    requires pg.Valid() && SoundPage(pg) && pg.Has(o)
    ensures !RootFault(pg, o)
  {
    hide LineFault;
    if RootFault(pg, o) {
      assert NeedsPredecessor(pg, o);
      var p :| Link(pg, p, o);
      LinkedSomewhere(pg, p, o);
    }
  }

  lemma LinkedSomewhere(pg: Page, p: nat, o: nat)
    requires Link(pg, p, o)
    ensures LinkedBefore(pg, pg.Max() + 1, o)
  {
    LinkKinds(pg, p, o);
  }

  lemma SoundIffFaultless(pg: Page)
    requires pg.Valid()
    ensures Faultless(pg) <==> SoundPage(pg)
  {
    hide LinkFault;
    hide RootFault;
    hide SoundLink;
    hide Link;
    if SoundPage(pg) {
      forall o: nat, k ensures !Faulty(pg, o, k) {
        if pg.Has(o) {
          SoundFaultlessLine(pg, o);
          SoundFaultlessRoot(pg, o);
          forall n ensures !LinkFault(pg, o, n, k) {
            if LinkFault(pg, o, n, k) {
              LinkFaultIsLink(pg, o, n, k);
              SoundFaultlessLink(pg, o, n, k);
            }
          }
        }
      }
    }
    if Faultless(pg) {
      forall o: nat | pg.Has(o) ensures LineFault(pg, o) == [] { FaultlessLine(pg, o); }
      forall o, p, n | Link(pg, o, n) && Link(pg, p, n) ensures o == p {
        FaultlessUnshared(pg, o, p, n);
        FaultlessUnshared(pg, p, o, n);
      }
      forall o, n | Link(pg, o, n) ensures SoundLink(pg, o, n) { FaultlessLink(pg, o, n); }
      forall n: nat | NeedsPredecessor(pg, n)
        ensures exists o :: Link(pg, o, n)
      {
        FaultlessRoot(pg, n);
      }
    }
  }

  lemma LinkFaultIsLink(pg: Page, o: nat, n: nat, k: Kind)
    requires pg.Valid() && LinkFault(pg, o, n, k)
    ensures Link(pg, o, n)
  {
  }

  // ---------------------------------------------------------------------
  // Chains
  // ---------------------------------------------------------------------

  /** Offsets linked one after the other. */
  ghost predicate Chain(pg: Page, path: seq<nat>) {
    path != [] && forall i :: 0 <= i < |path| - 1 ==> Link(pg, path[i], path[i + 1])
  }

  /** On a page without reports two chains that meet have run together all the way: the
      shorter one is the end of the longer one. */
  lemma {:induction false} ChainsDoNotMerge(pg: Page, a: seq<nat>, b: seq<nat>)
    requires pg.Valid() && SoundPage(pg) && Chain(pg, a) && Chain(pg, b)
    requires a[|a| - 1] == b[|b| - 1] && |a| <= |b|
    ensures a == b[|b| - |a|..]
  {
    var n, m := |a| - 1, |b| - 1;
    if n > 0 {
      assert Link(pg, a[n - 1], a[n]) && Link(pg, b[m - 1], b[m]);
      ChainsDoNotMerge(pg, a[..n], b[..m]);
      forall i | 0 <= i < |a| ensures a[i] == b[|b| - |a| + i] {
        assert i < n ==> a[i] == a[..n][i] == b[..m][m - n..][i];
      }
    } else {
      assert b[|b| - 1..] == [b[|b| - 1]];
    }
  }

  /** Inside a chain of updates, the tuples after the first are heap-only exactly where
      the tuple before was HOT-updated. */
  lemma ChainFlags(pg: Page, path: seq<nat>, i: nat)
    requires pg.Valid() && SoundPage(pg) && Chain(pg, path) && i + 1 < |path|
    ensures pg.Has(path[i]) && pg.Has(path[i + 1]) && pg.At(path[i + 1]).Normal?
    ensures pg.At(path[i + 1]).tuple.heapOnly <==>
      pg.At(path[i]).Redirect? || (pg.At(path[i]).Normal? && pg.At(path[i]).tuple.hotUpdated)
  {
    assert Link(pg, path[i], path[i + 1]);
    LinkKinds(pg, path[i], path[i + 1]);
    assert SoundLink(pg, path[i], path[i + 1]);
  }

  const LOOPING := Page(7,
    [Normal(4096, 32, Header(100, 101, 7, 2, true, true)), Normal(4128, 32, Header(101, 100, 7, 1, true, true))],
    [Known(Committed), Known(Committed)], {})

  /** The checks do not exclude a chain that runs in a circle. */
  lemma CircleIsNotReported()
    ensures LOOPING.Valid() && SoundPage(LOOPING) && Chain(LOOPING, [1, 2, 1])
  {
    var pg := LOOPING;
    assert forall o :: pg.Has(o) ==> o == 1 || o == 2;
    assert Link(pg, 1, 2) && Link(pg, 2, 1);
  }

  // ---------------------------------------------------------------------
  // When chains run in circles
  // ---------------------------------------------------------------------

  /** A line pointer that no link leads to. */
  ghost predicate Root(pg: Page, o: nat) {
    pg.Has(o) && forall p :: !Link(pg, p, o)
  }

  /** A chain from `o` to `n`. */
  ghost predicate ChainTo(pg: Page, path: seq<nat>, o: nat, n: nat) {
    Chain(pg, path) && path[0] == o && path[|path| - 1] == n
  }

  ghost predicate Rooted(pg: Page, n: nat) {
    exists o, path :: Root(pg, o) && ChainTo(pg, path, o, n)
  }

  ghost predicate Circular(pg: Page, n: nat) {
    exists path :: |path| >= 2 && ChainTo(pg, path, n, n)
  }

  /** A chain of `k` line pointers ends at `n`. */
  ghost predicate LongTail(pg: Page, n: nat, k: nat) {
    exists path :: |path| == k && Chain(pg, path) && path[k - 1] == n
  }

  lemma ChainPart(pg: Page, path: seq<nat>, i: nat, j: nat)
    requires Chain(pg, path) && i < j <= |path|
    ensures Chain(pg, path[i..j])
  {
    var part := path[i..j];
    forall k | 0 <= k < |part| - 1 ensures Link(pg, part[k], part[k + 1]) {
      assert Link(pg, path[i + k], path[i + k + 1]);
    }
  }

  lemma ChainJoin(pg: Page, a: seq<nat>, b: seq<nat>)
    requires Chain(pg, a) && Chain(pg, b) && a[|a| - 1] == b[0]
    ensures Chain(pg, a + b[1..])
  {
    var c := a + b[1..];
    forall k | 0 <= k < |c| - 1 ensures Link(pg, c[k], c[k + 1]) {
      if k < |a| - 1 { assert Link(pg, a[k], a[k + 1]); } else { assert Link(pg, b[k - |a| + 1], b[k - |a| + 2]); }
    }
  }

  /** A chain that comes back to a line pointer also leads to its own start. */
  lemma RepeatLeadsToStart(pg: Page, path: seq<nat>, i: nat, j: nat)
    requires pg.Valid() && SoundPage(pg) && Chain(pg, path) && i < j < |path| && path[i] == path[j]
    ensures Link(pg, path[j - i - 1], path[0])
  {
    hide SoundPage;
    var a, b := path[..i + 1], path[..j + 1];
    ChainPart(pg, path, 0, i + 1);
    ChainPart(pg, path, 0, j + 1);
    ChainsDoNotMerge(pg, a, b);
    assert path[0] == a[0] == b[j - i] == path[j - i];
  }

  /** A chain that starts at a root never comes back to a line pointer. */
  lemma RootedIsSimple(pg: Page, path: seq<nat>, i: nat, j: nat)
    requires pg.Valid() && SoundPage(pg) && Chain(pg, path) && Root(pg, path[0]) && i < j < |path|
    ensures path[i] != path[j]
  {
    hide SoundPage, Chain, Link;
    if path[i] == path[j] { RepeatLeadsToStart(pg, path, i, j); }
  }

  /** Distinct numbers from 1 to `max` are at most `max` in number. */
  lemma {:induction false} Pigeons(path: seq<nat>, max: nat)
    requires forall i :: 0 <= i < |path| ==> 1 <= path[i] <= max
    requires forall i, j :: 0 <= i < j < |path| ==> path[i] != path[j]
    ensures |path| <= max
    decreases max
  {
    if path != [] {
      assert 1 <= path[0] <= max;
      if max in path {
        var k :| 0 <= k < |path| && path[k] == max;
        var rest := path[..k] + path[k + 1..];
        forall i | 0 <= i < |rest| ensures 1 <= rest[i] <= max - 1 {
          assert rest[i] == if i < k then path[i] else path[i + 1];
        }
        forall i, j | 0 <= i < j < |rest| ensures rest[i] != rest[j] {
          assert rest[i] == if i < k then path[i] else path[i + 1];
          assert rest[j] == if j < k then path[j] else path[j + 1];
        }
        Pigeons(rest, max - 1);
      } else {
        forall i | 0 <= i < |path| ensures 1 <= path[i] <= max - 1 {
          assert path[i] in path;
        }
        Pigeons(path, max - 1);
      }
    }
  }

  lemma ChainOnPage(pg: Page, path: seq<nat>, i: nat)
    requires Chain(pg, path) && i < |path| && pg.Has(path[0])
    ensures pg.Has(path[i])
  {
    if i > 0 { assert Link(pg, path[i - 1], path[i]); }
  }

  /** So it has at most as many members as the page has line pointers. */
  lemma RootedIsBounded(pg: Page, path: seq<nat>)
    requires pg.Valid() && SoundPage(pg) && Chain(pg, path) && Root(pg, path[0])
    ensures |path| <= pg.Max()
    ensures forall i, j :: 0 <= i < j < |path| ==> path[i] != path[j]
  {
    hide SoundPage, Chain;
    forall i: nat, j: nat | i < j < |path| ensures path[i] != path[j] { RootedIsSimple(pg, path, i, j); }
    forall i: nat | i < |path| ensures 1 <= path[i] <= pg.Max() { ChainOnPage(pg, path, i); }
    Pigeons(path, pg.Max());
  }

  /** Going round once more. */
  lemma {:induction false} Wind(pg: Page, circle: seq<nat>, n: nat, k: nat) returns (path: seq<nat>)
    requires ChainTo(pg, circle, n, n) && |circle| >= 2
    ensures ChainTo(pg, path, n, n) && |path| > k
    decreases k
  {
    if k == 0 {
      path := circle;
    } else {
      var p := Wind(pg, circle, n, k - 1);
      ChainJoin(pg, p, circle);
      path := p + circle[1..];
    }
  }

  lemma CircularHasTail(pg: Page, n: nat, k: nat)
    requires Circular(pg, n) && k > 0
    ensures LongTail(pg, n, k)
  {
    var circle :| |circle| >= 2 && ChainTo(pg, circle, n, n);
    var path := Wind(pg, circle, n, k);
    ChainPart(pg, path, |path| - k, |path|);
    assert Chain(pg, path[|path| - k..|path|]);
  }

  /** Line pointers lead to one place, so what repeats once repeats all the way. */
  lemma {:induction false} RepeatsOn(pg: Page, path: seq<nat>, i: nat, j: nat, t: nat)
    requires Chain(pg, path) && i < j && j + t < |path| && path[i] == path[j]
    ensures path[i + t] == path[j + t]
    decreases t
  {
    if t > 0 {
      RepeatsOn(pg, path, i, j, t - 1);
      assert Link(pg, path[i + t - 1], path[i + t]) && Link(pg, path[j + t - 1], path[j + t]);
      LeadsToOne(pg, path[i + t - 1], path[i + t], path[j + t]);
    }
  }

  lemma TailIsCircular(pg: Page, n: nat)
    requires pg.Has(n) && LongTail(pg, n, pg.Max() + 1)
    ensures Circular(pg, n)
  {
    hide Link;
    var path :| |path| == pg.Max() + 1 && Chain(pg, path) && path[pg.Max()] == n;
    forall i: nat | i < |path| ensures 1 <= path[i] <= pg.Max() { TailOnPage(pg, path, n, i); }
    if forall i, j :: 0 <= i < j < |path| ==> path[i] != path[j] { Pigeons(path, pg.Max()); }
    var i, j :| 0 <= i < j < |path| && path[i] == path[j];
    var last := |path| - 1;
    RepeatsOn(pg, path, i, j, last - j);
    ChainPart(pg, path, last - (j - i), |path|);
    assert ChainTo(pg, path[last - (j - i)..|path|], n, n);
  }

  lemma TailOnPage(pg: Page, path: seq<nat>, n: nat, i: nat)
    requires Chain(pg, path) && i < |path| && path[|path| - 1] == n && pg.Has(n)
    ensures pg.Has(path[i])
  {
    if i < |path| - 1 { assert Link(pg, path[i], path[i + 1]); }
  }

  /** Where a longer chain ends, a chain does not start at a root. */
  lemma LongerHasNoRoot(pg: Page, o: nat, path: seq<nat>, n: nat)
    requires pg.Valid() && SoundPage(pg) && ChainTo(pg, path, o, n) && LongTail(pg, n, |path| + 1)
    ensures !Root(pg, o)
  {
    hide SoundPage, Link;
    var longer :| |longer| == |path| + 1 && Chain(pg, longer) && longer[|path|] == n;
    ChainsDoNotMerge(pg, path, longer);
    assert path[0] == longer[1];
    assert Link(pg, longer[0], longer[1]);
  }

  lemma CircularIsNotRooted(pg: Page, n: nat)
    requires pg.Valid() && SoundPage(pg) && Circular(pg, n)
    ensures !Rooted(pg, n)
  {
    hide SoundPage, Link, Circular, Root, LongTail;
    forall o, path | ChainTo(pg, path, o, n) ensures !Root(pg, o) {
      CircularHasTail(pg, n, |path| + 1);
      LongerHasNoRoot(pg, o, path, n);
    }
  }

  lemma {:induction false} UnrootedHasTail(pg: Page, n: nat, k: nat)
    requires pg.Has(n) && !Rooted(pg, n) && k > 0
    ensures LongTail(pg, n, k)
    decreases k
  {
    hide Link;
    if k == 1 {
      assert Chain(pg, [n]) && [n][0] == n;
    } else {
      UnrootedHasTail(pg, n, k - 1);
      var path :| |path| == k - 1 && Chain(pg, path) && path[k - 2] == n;
      TailOnPage(pg, path, n, 0);
      assert ChainTo(pg, path, path[0], n);
      var p :| Link(pg, p, path[0]);
      ChainJoin(pg, [p, path[0]], path);
      assert [p, path[0]] + path[1..] == [p] + path;
      assert ([p] + path)[k - 1] == n;
    }
  }

  /** On a page without reports a circle runs through a line pointer exactly when no chain from a
      root reaches it, and exactly when a chain longer than the page ends there. */
  lemma CircularIff(pg: Page, n: nat)
    requires pg.Valid() && SoundPage(pg) && pg.Has(n)
    ensures Circular(pg, n) <==> !Rooted(pg, n)
    ensures Circular(pg, n) <==> LongTail(pg, n, pg.Max() + 1)
  {
    hide Circular, Rooted, LongTail, SoundPage;
    if Circular(pg, n) {
      CircularIsNotRooted(pg, n);
      CircularHasTail(pg, n, pg.Max() + 1);
    }
    if !Rooted(pg, n) { UnrootedHasTail(pg, n, pg.Max() + 1); }
    if LongTail(pg, n, pg.Max() + 1) { TailIsCircular(pg, n); }
  }
}
