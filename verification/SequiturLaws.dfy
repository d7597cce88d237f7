/**
  The laws of Sequitur: no digram occurs twice and every rule is used twice. What holds
  between the steps of one append, read off the rings, the table and the grammar.
 */
module SequiturLaws {
  import opened Grammar
  import opened SequiturGrammar
  import opened SequiturRuns
  import opened SequiturHeap
  import opened SequiturExpand
  import opened SequiturState
  import opened SequiturDigrams
  import opened SequiturSteps

  // ---------------------------------------------------------------------
  // The grammar in the rings
  // ---------------------------------------------------------------------

  lemma ProdFine(st: State, s: RuleId)
    requires Inv(st, s)
    ensures Fine(Prod(st), st.text, s) && s in st.body && s in st.h.guard
  {
    hide Sound, Texted;
    GrammarIsProper(st, s);
    Domains(st, s);
    hide Proper, Means, NoneEmpty;
  }

  lemma ProdAppended(st: State, st': State, s: RuleId, y: Ptr, c: int)
    requires Inv(st, s) && Appended(st, st', s, y, c)
    ensures s in Prod(st) && Prod(st') == AppendG(Prod(st), s, c) && s in st.text && st'.text == AppendT(st.text, s, c)
  {
    hide Sound, Texted;
    Domains(st, s);
    forall q | q in st.body ensures KeysOf(st'.body[q], st'.h.key) == AppendG(Prod(st), s, c)[q] {
      AppendedElsewhere(st, st', s, y, c, q);
      if q == s { assert KeysOf(st'.body[s], st'.h.key) == KeysOf(st.body[s], st'.h.key) + [Terminal(c)]; }
    }
  }

  lemma ProdReplaced(st: State, st': State, s: RuleId, o: RuleId, i: nat, r: RuleId, z: Ptr)
    requires Inv(st, s) && Replaced(st, st', o, i, r, z) && o in st.h.guard
    ensures o in Prod(st) && i + 2 <= |Prod(st)[o]| && Prod(st') == ReplaceG(Prod(st), o, i, r)
  {
    hide Sound, Texted;
    Domains(st, s);
    forall q | q in st.body ensures KeysOf(st'.body[q], st'.h.key) == ReplaceG(Prod(st), o, i, r)[q] {
      if q == o { ReplacedHere(st, st', s, o, i, r, z); } else { ReplacedElsewhere(st, st', s, o, i, r, z, q); }
    }
  }

  lemma ProdPair(st: State, st': State, s: RuleId, r: RuleId, g: Ptr, f: Ptr, l: Ptr, k1: Key, k2: Key)
    requires Inv(st, s) && PairMade(st, st', r, g, f, l, k1, k2) && s in st.body && |st.body[s]| >= 2
    requires Tail(st, s) == [k1, k2]
    ensures s in Prod(st) && |Prod(st)[s]| >= 2
    ensures Prod(st') == PairG(Prod(st), s, r) && st'.text == PairT(Prod(st), st.text, s, r)
  {
    hide Sound, Texted;
    Domains(st, s);
    var n := |st.body[s]|;
    assert Prod(st)[s][n - 2] == Tail(st, s)[0] && Prod(st)[s][n - 1] == Tail(st, s)[1];
    assert KeysOf([f, l], st'.h.key) == [k1, k2];
    forall q | q in st.body ensures KeysOf(st'.body[q], st'.h.key) == Prod(st)[q] {
      PairElsewhere(st, st', s, r, g, f, l, k1, k2, q);
    }
  }

  lemma ProdSpliced(st: State, st': State, s: RuleId, r: RuleId, a: RuleId)
    requires Inv(st, s) && Spliced(st, st', r, a)
    ensures r in Prod(st) && a in Prod(st) && |Prod(st)[r]| >= 1
    ensures Prod(st') == SpliceG(Prod(st), r, a) && st'.text == st.text - {a}
  {
    hide Sound, Texted, Inlined;
    Domains(st, s);
    var g' := SpliceG(Prod(st), r, a);
    forall q | q in st.body && q != a ensures KeysOf(st'.body[q], st'.h.key) == g'[q] {
      if q == r { ProdSplicedHere(st, st', s, r, a); } else { SplicedElsewhere(st, st', s, r, a, q); }
    }
  }

  lemma ProdSplicedHere(st: State, st': State, s: RuleId, r: RuleId, a: RuleId)
    requires Sound(st.h, st.body, st.owner, s) && Spliced(st, st', r, a)
    ensures KeysOf(st'.body[r], st'.h.key) == KeysOf(st.body[a], st.h.key) + KeysOf(st.body[r], st.h.key)[1..]
  {
    hide Sound, Inlined;
    var xs, n := st'.body[r], |st.body[a]|;
    var ks := KeysOf(st.body[a], st.h.key) + KeysOf(st.body[r], st.h.key)[1..];
    forall j | 0 <= j < |xs| ensures KeysOf(xs, st'.h.key)[j] == ks[j] {
      if j < n { SplicedKey(st, st', s, r, a, a, j); } else { SplicedKey(st, st', s, r, a, r, j - n + 1); }
    }
  }

  // ---------------------------------------------------------------------
  // Digrams in the rings and digrams in the grammar
  // ---------------------------------------------------------------------

  /** A digram of the rings is one of the grammar. */
  lemma PosAt(st: State, s: RuleId, w: Ptr) returns (q: RuleId, j: nat)
    requires Inv(st, s) && Pos(st.h, w)
    ensures At(Prod(st), q, j) && q in st.body && st.body[q][j] == w && st.h.n[w] == st.body[q][j + 1]
    ensures DigramOf(st.h, w) == (Prod(st)[q][j], Prod(st)[q][j + 1])
  {
    hide Sound, Texted;
    q, j := DigramAt(st, s, w);
    SymbolInBody(st, s, q, j);
    SymbolInBody(st, s, q, j + 1);
  }

  lemma AtPos(st: State, s: RuleId, q: RuleId, j: nat)
    requires Inv(st, s) && At(Prod(st), q, j)
    ensures var w := st.body[q][j];
      && Pos(st.h, w) && st.h.n[w] == st.body[q][j + 1] && w != st.h.n[w]
      && DigramOf(st.h, w) == (Prod(st)[q][j], Prod(st)[q][j + 1])
  {
    hide Sound, Texted;
    Domains(st, s);
    var c := Circle(st.h, st.body, q);
    CircleStep(st, s, q, j + 1);
    SymbolInBody(st, s, q, j);
    SymbolInBody(st, s, q, j + 1);
    assert c[j + 1] == st.body[q][j] && c[j + 2] == st.body[q][j + 1];
    SoundRule(st, s, q);
  }

  /** The digram of the start rule that is being checked. */
  ghost function Exempt(st: State, s: RuleId, open: bool): set<Ptr> {
    if open && s in st.body && |st.body[s]| >= 2 then {st.body[s][|st.body[s]| - 2]} else {}
  }

  lemma UniqueApart(st: State, s: RuleId, open: bool, q: RuleId, j: nat, q': RuleId, j': nat)
    requires Inv(st, s) && Unique(st.h, Exempt(st, s, open))
    ensures Apart(Prod(st), s, open, q, j, q', j')
  {
    hide Sound, Texted;
    var g := Prod(st);
    if At(g, q, j) && At(g, q', j') && !Checked(g, s, open, q, j) && !Checked(g, s, open, q', j')
       && g[q][j] == g[q'][j'] && g[q][j + 1] == g[q'][j' + 1] {
      Domains(st, s);
      AtPos(st, s, q, j);
      AtPos(st, s, q', j');
      var w, v := st.body[q][j], st.body[q'][j'];
      if w in Exempt(st, s, open) { SamePlace(st, s, q, j, s, |st.body[s]| - 2); }
      if v in Exempt(st, s, open) { SamePlace(st, s, q', j', s, |st.body[s]| - 2); }
      assert UniqueAt(st.h, Exempt(st, s, open), w, v);
      if w == v {
        SamePlace(st, s, q, j, q', j');
      } else if st.h.n[w] == v {
        SamePlace(st, s, q, j + 1, q', j');
      } else {
        SamePlace(st, s, q', j' + 1, q, j);
      }
    }
  }

  lemma UniqueNoRepeats(st: State, s: RuleId, open: bool)
    requires Inv(st, s) && Neat(st.h, Exempt(st, s, open))
    ensures NoRepeats(Prod(st), s, open)
  {
    hide Inv, Apart, Unique, Filed;
    forall q, j: nat, q', j': nat ensures Apart(Prod(st), s, open, q, j, q', j') {
      UniqueApart(st, s, open, q, j, q', j');
    }
  }

  /** A digram of the grammar that occurs but once. */
  lemma OnlyAtPos(st: State, s: RuleId, d: Key, e: Key, x: RuleId, k: nat, w: Ptr)
    requires Inv(st, s) && OnlyAt(Prod(st), d, e, x, k) && Pos(st.h, w) && DigramOf(st.h, w) == (d, e)
    ensures x in st.body && k < |st.body[x]| && w == st.body[x][k]
  {
    hide Inv;
    var q, j := PosAt(st, s, w);
  }

  // ---------------------------------------------------------------------
  // What holds between the steps
  // ---------------------------------------------------------------------

  /** Every rule but the start rule and those in `debts` has two uses. */
  ghost predicate Reused(st: State, s: RuleId, debts: set<RuleId>) {
    forall r {:trigger Uses(st.h, r)} :: r in st.h.guard && r != s && r !in debts ==> |Uses(st.h, r)| >= 2
  }

  /** Digrams are unique and recorded, and will stay so. */
  ghost predicate Calm(st: State, s: RuleId, slack: nat) {
    && s in st.body && Neat(st.h, {}) && SeamsClear(Prod(st), st.text, s, false, slack)
    && RunsFirst(Prod(st), st.text, s, st.h.table, st.body[s], |st.body[s]|, slack)
  }

  /** The same, but for the digram at `x`, which is yet to be checked. */
  ghost predicate Waiting(st: State, s: RuleId, x: Ptr) {
    && s in st.body && Neat(st.h, {x}) && SeamsClear(Prod(st), st.text, s, true, 1)
    && RunsFirst(Prod(st), st.text, s, st.h.table, st.body[s], |st.body[s]| - 1, 1)
    && (AtEnd(st, s, x) || (|st.body[s]| <= 1 && !Pos(st.h, x)))
  }

  lemma LessCalm(st: State, s: RuleId)
    requires Calm(st, s, 1)
    ensures Calm(st, s, 0)
  {
    LessSlack(Prod(st), st.text, s, false);
    LessRuns(Prod(st), st.text, s, st.h.table, st.body[s], |st.body[s]|);
  }

  lemma ProdTable(st: State, st': State)
    requires st'.body == st.body && st'.h.key == st.h.key
    ensures Prod(st') == Prod(st)
  {
  }

  lemma EndPlace(st: State, s: RuleId, x: Ptr)
    requires Inv(st, s) && AtEnd(st, s, x)
    ensures s in Prod(st) && |Prod(st)[s]| == |st.body[s]|
    ensures At(Prod(st), s, |st.body[s]| - 2) && Pos(st.h, x) && Exempt(st, s, true) == {x}
    ensures DigramOf(st.h, x) == (Prod(st)[s][|st.body[s]| - 2], Prod(st)[s][|st.body[s]| - 1])
  {
    hide Inv;
    AtPos(st, s, s, |st.body[s]| - 2);
  }

  // ---------------------------------------------------------------------
  // The check that finds nothing
  // ---------------------------------------------------------------------

  lemma CloseEnds(st: State, s: RuleId, x: Ptr)
    requires Inv(st, s) && Waiting(st, s, x) && !Pos(st.h, x)
    ensures Calm(st, s, 1)
  {
    hide Inv, Pos, Neat, SeamsClear, Prod;
    ProdFine(st, s);
    if AtEnd(st, s, x) { EndPlace(st, s, x); }
    NoPosNeat(st.h, {x}, x);
    NeatMore(st.h, {x} - {x}, {});
    CloseClear(Prod(st), st.text, s);
  }

  lemma CloseNew(st: State, st': State, s: RuleId, x: Ptr)
    requires Inv(st, s) && Waiting(st, s, x) && AtEnd(st, s, x) && HasDigram(st.h, x)
    requires DigramOf(st.h, x) !in st.h.table
    requires st'.body == st.body && st'.text == st.text && st'.h == st.h.(table := st.h.table[DigramOf(st.h, x) := x])
    ensures Calm(st', s, 1)
  {
    hide Inv, Pos, Neat, SeamsClear, Prod, Fine, RunsFirst;
    ProdFine(st, s);
    EndPlace(st, s, x);
    RecordNeat(st.h, {x}, x);
    NeatMore(st'.h, {x} - {x}, {});
    ProdTable(st, st');
    CloseClear(Prod(st), st.text, s);
    if |st.body[s]| >= 3 { FiledBefore(st, s, x); }
    CloseNewRuns(Prod(st), st.text, s, st.h.table, st.body[s], x);
  }

  lemma FiledBefore(st: State, s: RuleId, x: Ptr)
    requires Inv(st, s) && AtEnd(st, s, x) && |st.body[s]| >= 3 && Neat(st.h, {x})
    ensures s in Prod(st) && (Prod(st)[s][|st.body[s]| - 3], Prod(st)[s][|st.body[s]| - 2]) in st.h.table
  {
    hide Inv;
    var n := |st.body[s]|;
    AtPos(st, s, s, n - 3);
    assert FiledAt(st.h, {x}, st.body[s][n - 3]);
  }

  /** Where the symbol before a symbol of a rule stands. */
  lemma Before(st: State, s: RuleId, w: Ptr, o: RuleId, i: nat)
    requires Inv(st, s) && Pos(st.h, w) && o in st.body && i < |st.body[o]| && st.h.n[w] == st.body[o][i]
    ensures i > 0 && w == st.body[o][i - 1]
  {
    hide Inv;
    var q, j := PosAt(st, s, w);
    InvSound(st, s);
    Domains(st, s);
    SamePlace(st, s, q, j + 1, o, i);
  }

  lemma InvSound(st: State, s: RuleId)
    requires Inv(st, s)
    ensures Sound(st.h, st.body, st.owner, s)
  {
  }

  /** The digram at `x` overlaps the recorded one, which starts at `m`. */
  ghost predicate Overlaps(st: State, x: Ptr, m: Ptr) {
    && HasDigram(st.h, x) && DigramOf(st.h, x) in st.h.table && st.h.table[DigramOf(st.h, x)] == m
    && Pos(st.h, m) && DigramOf(st.h, m) == DigramOf(st.h, x) && st.h.n[m] == x
  }

  lemma OverlapPlace(st: State, s: RuleId, x: Ptr, m: Ptr)
    requires Inv(st, s) && AtEnd(st, s, x) && Overlaps(st, x, m)
    ensures var n := |st.body[s]|;
      && n >= 3 && m == st.body[s][n - 3] && m != x && s in Prod(st) && |Prod(st)[s]| == n
      && Prod(st)[s][n - 1] == Prod(st)[s][n - 2] == Prod(st)[s][n - 3]
      && FirstAt(Prod(st), s, st.h.table, st.body[s], n - 3)
  {
    hide Inv;
    var n := |st.body[s]|;
    EndPlace(st, s, x);
    Before(st, s, m, s, n - 2);
    AtPos(st, s, s, n - 3);
  }

  lemma OverlapAlone(st: State, s: RuleId, x: Ptr, m: Ptr, w: Ptr)
    requires Inv(st, s) && Waiting(st, s, x) && AtEnd(st, s, x) && Overlaps(st, x, m)
    requires w in st.h.n && st.h.n[w] == m && Pos(st.h, w)
    ensures DigramOf(st.h, w) != DigramOf(st.h, x)
  {
    hide Inv, Neat, SeamsClear, RunsFirst, FirstAt, Fine, Prod;
    var n := |st.body[s]|;
    EndPlace(st, s, x);
    OverlapPlace(st, s, x, m);
    Before(st, s, w, s, n - 3);
    AtPos(st, s, s, n - 4);
    ProdFine(st, s);
    NoFourth(Prod(st), st.text, s, st.h.table, st.body[s]);
  }

  lemma CloseOverlap(st: State, s: RuleId, x: Ptr, m: Ptr)
    requires Inv(st, s) && Waiting(st, s, x) && AtEnd(st, s, x) && Overlaps(st, x, m)
    ensures Calm(st, s, 1)
  {
    hide Inv, Neat, SeamsClear, RunsFirst, FirstAt, Fine, Prod;
    ProdFine(st, s);
    EndPlace(st, s, x);
    OverlapPlace(st, s, x, m);
    CloseClear(Prod(st), st.text, s);
    CloseOverlapRuns(Prod(st), st.text, s, st.h.table, st.body[s]);
    forall w | w in st.h.n && st.h.n[w] == m && Pos(st.h, w) ensures DigramOf(st.h, w) != DigramOf(st.h, x) {
      OverlapAlone(st, s, x, m, w);
    }
    InvTable(st, s);
    OverlapNeat(st.h, {x}, x);
    NeatMore(st.h, {x} - {x}, {});
  }

  lemma InvTable(st: State, s: RuleId)
    requires Inv(st, s)
    ensures TableOk(st.h)
  {
  }

  // ---------------------------------------------------------------------
  // Appending
  // ---------------------------------------------------------------------

  lemma AppendWaits(st: State, mid: State, s: RuleId, a: Ptr, y: Ptr, c: int)
    requires Inv(st, s) && Inv(mid, s) && Appended(st, mid, s, y, c) && Calm(st, s, 0) && s in st.h.guard
    requires a == Circle(st.h, st.body, s)[|st.body[s]|] && Insertable(st.h, a, y, Terminal(c))
    requires mid.h == InsertHeap(st.h, a, y, Terminal(c))
    ensures Waiting(mid, s, a)
  {
    hide Sound, Texted, Neat, SeamsClear, Insertable, InsertHeap, Prod, Steady;
    CircleStep(st, s, s, |st.body[s]|);
    SoundRule(st, s, s);
    InsertedNeat(st, mid, s, s, |st.body[s]|, a, y, Terminal(c), {});
    LastIsNoPos(mid, s, s);
    NoPosNeat(mid.h, {} + {a, y}, y);
    NeatMore(mid.h, {} + {a, y} - {y}, {a});
    ProdFine(st, s);
    ProdFine(mid, s);
    ProdAppended(st, mid, s, y, c);
    ProdShape(st, s);
    AppendClear(Prod(st), st.text, s, c);
    AppendRuns(Prod(st), st.text, s, c, st.h.table, st.body[s], y);
    SteadyRuns(Prod(mid), mid.text, s, st.h.table, mid.h.table, mid.body[s], |st.body[s]|, 1);
    if st.body[s] == [] { assert Guards(mid.h, a); }
  }

  lemma ProdShape(st: State, s: RuleId)
    requires s in st.body
    ensures s in Prod(st) && |Prod(st)[s]| == |st.body[s]|
  {
  }

  /** The last symbol of a rule starts no digram. */
  lemma LastIsNoPos(st: State, s: RuleId, o: RuleId)
    requires Inv(st, s) && o in st.body && st.body[o] != []
    ensures !Pos(st.h, st.body[o][|st.body[o]| - 1])
  {
    hide Inv;
    if Pos(st.h, st.body[o][|st.body[o]| - 1]) {
      var q, j := PosAt(st, s, st.body[o][|st.body[o]| - 1]);
      InvSound(st, s);
      Domains(st, s);
      SamePlace(st, s, q, j, o, |st.body[o]| - 1);
    }
  }

  // ---------------------------------------------------------------------
  // Uses
  // ---------------------------------------------------------------------

  /** A use of a rule is a place in the grammar that refers to it. */
  lemma UsePlace(st: State, s: RuleId, x: RuleId, u: Ptr) returns (q: RuleId, j: nat)
    requires Inv(st, s) && u in Uses(st.h, x)
    ensures Refers(Prod(st), x, q, j) && q in st.body && st.body[q][j] == u
  {
    hide Sound, Texted;
    var k;
    q, k := Place(st, s, u);
    j := k - 1;
    assert st.body[q][j] == u;
  }

  lemma PlaceUse(st: State, s: RuleId, x: RuleId, q: RuleId, j: nat)
    requires Inv(st, s) && Refers(Prod(st), x, q, j)
    ensures q in st.body && q in st.h.guard && j < |st.body[q]| && st.body[q][j] in Uses(st.h, x)
  {
    hide Sound, Texted;
    Domains(st, s);
    SymbolInBody(st, s, q, j);
  }

  lemma TwoUses(st: State, s: RuleId, x: RuleId) returns (q: RuleId, j: nat, q': RuleId, j': nat)
    requires Inv(st, s) && |Uses(st.h, x)| >= 2
    ensures UsedTwice(Prod(st), x, q, j, q', j')
  {
    hide Inv, Uses, Prod;
    var u :| u in Uses(st.h, x);
    if Uses(st.h, x) <= {u} { SmallSet(Uses(st.h, x), {u}); }
    var u' :| u' in Uses(st.h, x) && u' != u;
    q, j := UsePlace(st, s, x, u);
    q', j' := UsePlace(st, s, x, u');
  }

  lemma {:induction false} SmallSet<T>(a: set<T>, b: set<T>)
    requires a <= b
    ensures |a| <= |b|
    decreases |a|
  {
    if a != {} {
      var x :| x in a;
      SmallSet(a - {x}, b - {x});
    }
  }

  lemma OnlyTwoUses(st: State, s: RuleId, x: RuleId, q: RuleId, j: nat, q': RuleId, j': nat)
    requires Inv(st, s) && q in st.body && j < |st.body[q]| && q' in st.body && j' < |st.body[q']|
    requires Uses(st.h, x) <= {st.body[q][j], st.body[q'][j']}
    ensures OnlyTwo(Prod(st), x, q, j, q', j')
  {
    hide Sound, Texted, Uses;
    Domains(st, s);
    forall u, k: nat | Refers(Prod(st), x, u, k) ensures (u == q && k == j) || (u == q' && k == j') {
      PlaceUse(st, s, x, u, k);
      if st.body[u][k] == st.body[q][j] { SamePlace(st, s, u, k, q, j); } else { SamePlace(st, s, u, k, q', j'); }
    }
  }

  // ---------------------------------------------------------------------
  // Rules that are a use short
  // ---------------------------------------------------------------------

  ghost function LastKey(st: State, s: RuleId): Key
    requires s in st.body && st.body[s] != []
  {
    KeysOf(st.body[s], st.h.key)[|st.body[s]| - 1]
  }

  ghost predicate DebtOk(st: State, s: RuleId, q: RuleId)
    requires s in st.body && st.body[s] != []
  {
    q in st.text && |st.text[q]| < Len(LastKey(st, s), st.text) && |Uses(st.h, q)| <= 1
  }

  /** The rules in `debts` have one use left and are shorter than the symbol at the end of the
      start rule; that one has two uses to spare. */
  ghost predicate Owing(st: State, s: RuleId, debts: set<RuleId>) {
    && s in st.body && st.body[s] != []
    && (forall q {:trigger DebtOk(st, s, q)} :: q in debts ==> DebtOk(st, s, q))
    && (LastKey(st, s).Rule? ==> |Uses(st.h, LastKey(st, s).r)| >= 3)
  }

  /** The rule of the last symbol but one of the start rule. */
  ghost function FirstRule(st: State, s: RuleId): set<RuleId>
    requires s in st.body && |st.body[s]| >= 2
  {
    if Tail(st, s)[0].Rule? then {Tail(st, s)[0].r} else {}
  }

  /** The end of the start rule is about to become a symbol for rule `r`, which has the same two symbols. */
  ghost predicate Reusing(st: State, s: RuleId, r: RuleId) {
    s in st.body && |st.body[s]| >= 2 && r in st.body && r != s && |st.body[r]| == 2
      && KeysOf(st.body[r], st.h.key) == Tail(st, s)
  }

  lemma ReusingEnds(st: State, s: RuleId, r: RuleId)
    requires Inv(st, s) && Reusing(st, s, r)
    ensures EndsIn(Prod(st), s, r) && Tail(st, s)[0] != Rule(r) && Tail(st, s)[1] != Rule(r)
    ensures r in st.text && Len(Tail(st, s)[0], st.text) < |st.text[r]| && Len(Tail(st, s)[1], st.text) < |st.text[r]|
    ensures LastKey(st, s) == Tail(st, s)[1]
  {
    hide Sound, Texted;
    ProdFine(st, s);
    hide Fine;
    assert Prod(st)[r][0] == Tail(st, s)[0] && Prod(st)[r][1] == Tail(st, s)[1];
    FineAt(Prod(st), st.text, s, r, 0);
    FineAt(Prod(st), st.text, s, r, 1);
  }

  lemma ReuseUses(st: State, mid: State, s: RuleId, r: RuleId, z: Ptr, q: RuleId)
    requires Inv(st, s) && Reusing(st, s, r) && Replaced(st, mid, s, |st.body[s]| - 2, r, z)
    ensures var n := |st.body[s]|;
      && (Tail(st, s)[0] != Rule(q) && Tail(st, s)[1] != Rule(q) && q != r ==> Uses(mid.h, q) == Uses(st.h, q))
      && (Tail(st, s)[0] != Rule(q) && q != r ==> Uses(mid.h, q) == Uses(st.h, q) - {st.body[s][n - 1]})
      && (q != r ==>
            && Uses(mid.h, q) <= Uses(st.h, q)
            && Uses(st.h, q) <= Uses(mid.h, q) + {st.body[s][n - 2], st.body[s][n - 1]})
      && Uses(mid.h, r) == Uses(st.h, r) + {z} && z !in Uses(st.h, r)
  {
    hide Sound, Texted;
    var n := |st.body[s]|;
    Domains(st, s);
    ReplacedUses(st, mid, s, s, n - 2, r, z, q);
    ReplacedUses(st, mid, s, s, n - 2, r, z, r);
    SymbolInBody(st, s, s, n - 2);
    SymbolInBody(st, s, s, n - 1);
    ReusingEnds(st, s, r);
    assert Tail(st, s)[0] == st.h.key[st.body[s][n - 2]] && Tail(st, s)[1] == st.h.key[st.body[s][n - 1]];
  }

  lemma ReuseReused(st: State, mid: State, s: RuleId, r: RuleId, z: Ptr, debts: set<RuleId>)
    requires Inv(st, s) && Reusing(st, s, r) && Replaced(st, mid, s, |st.body[s]| - 2, r, z)
    requires Reused(st, s, debts) && Owing(st, s, debts)
    ensures Reused(mid, s, debts + FirstRule(st, s)) && |Uses(st.h, r)| >= 2 && |Uses(mid.h, r)| >= 3
    ensures forall q {:trigger Uses(mid.h, q)} :: q in debts ==> |Uses(mid.h, q)| <= 1
  {
    hide Sound, Texted, Uses;
    var n := |st.body[s]|;
    Domains(st, s);
    ReusingEnds(st, s, r);
    var owed := DebtOk(st, s, r);
    ReuseUses(st, mid, s, r, z, r);
    forall q | q in st.h.guard && q != s && q !in debts + FirstRule(st, s) ensures |Uses(mid.h, q)| >= 2 {
      ReuseUses(st, mid, s, r, z, q);
    }
    forall q | q in debts ensures |Uses(mid.h, q)| <= 1 {
      assert DebtOk(st, s, q);
      ReuseUses(st, mid, s, r, z, q);
      SmallSet(Uses(mid.h, q), Uses(st.h, q));
    }
  }

  // ---------------------------------------------------------------------
  // Using a rule again
  // ---------------------------------------------------------------------

  /** The debts once the end of the start rule is a symbol for `r`. */
  ghost function NewDebts(mid: State, r: RuleId, debts: set<RuleId>): set<RuleId>
    requires r in mid.body && |mid.body[r]| == 2
  {
    var k := KeysOf(mid.body[r], mid.h.key)[0];
    if k.Rule? && |Uses(mid.h, k.r)| < 2 then debts + {k.r} else debts
  }

  /** Should the first symbol of `r` be the only use of its rule, inlining it there makes no digram occur twice. */
  ghost predicate SeamReady(st: State, s: RuleId, r: RuleId) {
    && r in st.body && |st.body[r]| == 2
    && var g, k := Prod(st), KeysOf(st.body[r], st.h.key)[0];
    k.Rule? && Uses(st.h, k.r) == {st.body[r][0]} ==>
      k.r in g && k.r != s && |g[k.r]| >= 2 && OnlyAt(g, Last(g, k.r), g[r][1], k.r, |g[k.r]| - 2)
  }

  /** How `st` turns into `mid` when its end becomes a symbol for `r`. */
  ghost predicate Reuses(st: State, mid: State, s: RuleId, r: RuleId, q: Ptr, z: Ptr) {
    && Inv(st, s) && Inv(mid, s) && Reusing(st, s, r) && s in st.h.guard
    && Replaced(st, mid, s, |st.body[s]| - 2, r, z)
    && q == Circle(st.h, st.body, s)[|st.body[s]| - 2]
    && Yielded(st, mid, s, |st.body[s]| - 2, q, z, {st.body[s][|st.body[s]| - 2]})
  }

  lemma ReuseShape(st: State, mid: State, s: RuleId, r: RuleId, z: Ptr)
    requires Reusing(st, s, r) && Replaced(st, mid, s, |st.body[s]| - 2, r, z)
    ensures s in mid.body && r in mid.body && mid.body[s] == st.body[s][..|st.body[s]| - 2] + [z]
    ensures mid.h.guard == st.h.guard && mid.text == st.text
    ensures LastKey(mid, s) == Rule(r) && mid.body[r] == st.body[r]
  {
    var xs := st.body[s];
    assert xs[..|xs| - 2] + [z] + xs[|xs| - 2 + 2..] == xs[..|xs| - 2] + [z];
  }

  lemma ReuseProd(st: State, mid: State, s: RuleId, r: RuleId, q: Ptr, z: Ptr)
    requires Reuses(st, mid, s, r, q, z)
    ensures EndsIn(Prod(st), s, r) && Prod(mid) == ReuseG(Prod(st), s, r)
    ensures Fine(Prod(st), st.text, s) && Fine(Prod(mid), st.text, s)
    ensures r in mid.body && KeysOf(mid.body[r], mid.h.key) == Tail(st, s)
  {
    hide Inv, Yielded, Fine, Tail, KeysOf, Prod, Replaced;
    ReuseShape(st, mid, s, r, z);
    ReusingEnds(st, s, r);
    ProdFine(st, s);
    ProdFine(mid, s);
    ProdReplaced(st, mid, s, s, |st.body[s]| - 2, r, z);
    TailPlaces(st, s);
    InvSound(st, s);
    ReplacedElsewhere(st, mid, s, s, |st.body[s]| - 2, r, z, r);
  }

  lemma TailStirs(st: State, s: RuleId)
    requires s in st.body && |st.body[s]| >= 2
    ensures ReplaceStirs(st, s, |st.body[s]| - 2) == {Tail(st, s)[0], Tail(st, s)[1]}
  {
    TailPlaces(st, s);
  }

  lemma ReuseNeat(st: State, mid: State, s: RuleId, r: RuleId, q: Ptr, z: Ptr)
    requires Reuses(st, mid, s, r, q, z)
    ensures Neat(mid.h, {q}) && Steady(st.h.table, mid.h.table, {Tail(st, s)[0], Tail(st, s)[1]})
    ensures AtEnd(mid, s, q) || (|mid.body[s]| <= 1 && !Pos(mid.h, q))
  {
    hide Inv, Neat, Steady, Rewired, Replaced, ReplaceStirs;
    var n := |st.body[s]|;
    var e := {st.body[s][n - 2]};
    TailStirs(st, s);
    ReuseShape(st, mid, s, r, z);
    LastIsNoPos(mid, s, s);
    NoPosNeat(mid.h, e - {st.body[s][n - 2], st.body[s][n - 1]} + {q, z}, z);
    NeatMore(mid.h, e - {st.body[s][n - 2], st.body[s][n - 1]} + {q, z} - {z}, {q});
    if n == 2 {
      InvSound(mid, s);
      SoundRule(mid, s, s);
    }
  }

  lemma ReuseSeams(st: State, mid: State, s: RuleId, r: RuleId, q: Ptr, z: Ptr)
    requires Reuses(st, mid, s, r, q, z) && SeamsClear(Prod(st), st.text, s, true, 1) && |Uses(st.h, r)| >= 2
    ensures SeamsClear(Prod(mid), mid.text, s, true, 1)
  {
    hide Inv, SeamsClear, Yielded, Fine, Prod, Replaced, Uses, UsedTwice, ReuseG;
    ReuseShape(st, mid, s, r, z);
    ReuseProd(st, mid, s, r, q, z);
    var u, k, u', k' := TwoUses(st, s, r);
    ReuseClear(Prod(st), st.text, s, r, u, k, u', k');
  }

  lemma ReuseKeepsRuns(st: State, mid: State, s: RuleId, r: RuleId, q: Ptr, z: Ptr)
    requires Reuses(st, mid, s, r, q, z)
    requires RunsFirst(Prod(st), st.text, s, st.h.table, st.body[s], |st.body[s]| - 1, 1)
    ensures s in mid.body && RunsFirst(Prod(mid), mid.text, s, mid.h.table, mid.body[s], |mid.body[s]| - 1, 1)
  {
    hide Inv, RunsFirst, Yielded, Fine, Prod, Replaced, ReuseG, Steady, Tail, Neat;
    ReuseShape(st, mid, s, r, z);
    ReuseProd(st, mid, s, r, q, z);
    ReuseNeat(st, mid, s, r, q, z);
    TailPlaces(st, s);
    ReuseRuns(Prod(st), st.text, s, r, st.h.table, mid.h.table, st.body[s], z);
  }

  lemma ReuseWaits(st: State, mid: State, s: RuleId, r: RuleId, q: Ptr, z: Ptr, debts: set<RuleId>)
    requires Reuses(st, mid, s, r, q, z) && Waiting(st, s, st.body[s][|st.body[s]| - 2])
    requires Reused(st, s, debts) && Owing(st, s, debts)
    ensures Waiting(mid, s, q)
  {
    hide Inv, Neat, SeamsClear, RunsFirst, Yielded, Prod, Replaced, Owing, Reused, Uses, Steady, Tail, Pos;
    ReuseNeat(st, mid, s, r, q, z);
    ReuseReused(st, mid, s, r, z, debts);
    ReuseSeams(st, mid, s, r, q, z);
    ReuseKeepsRuns(st, mid, s, r, q, z);
  }

  lemma TailPlaces(st: State, s: RuleId)
    requires s in st.body && |st.body[s]| >= 2
    ensures s in Prod(st) && |Prod(st)[s]| == |st.body[s]|
    ensures Prod(st)[s][|st.body[s]| - 2] == Tail(st, s)[0]
    ensures Prod(st)[s][|st.body[s]| - 1] == Tail(st, s)[1] == LastKey(st, s)
  {
  }

  lemma ReuseOwes(st: State, mid: State, s: RuleId, r: RuleId, q: Ptr, z: Ptr, debts: set<RuleId>)
    requires Reuses(st, mid, s, r, q, z) && Reused(st, s, debts) && Owing(st, s, debts)
    ensures r in mid.body && |mid.body[r]| == 2
    ensures var debts' := NewDebts(mid, r, debts); Reused(mid, s, debts') && Owing(mid, s, debts')
  {
    hide Inv, Yielded, Fine, Prod, Uses, Replaced;
    ReuseShape(st, mid, s, r, z);
    ReuseProd(st, mid, s, r, q, z);
    ReusingEnds(st, s, r);
    ReuseReused(st, mid, s, r, z, debts);
    var debts' := NewDebts(mid, r, debts);
    forall x | x in mid.h.guard && x != s && x !in debts' ensures |Uses(mid.h, x)| >= 2 {
      assert x in FirstRule(st, s) ==> Tail(st, s)[0] == Rule(x);
    }
    InvDomains(st, s);
    forall x | x in debts' ensures DebtOk(mid, s, x) {
      if x in debts { assert DebtOk(st, s, x); } else { TailLive(st, s); }
    }
  }

  lemma InvDomains(st: State, s: RuleId)
    requires Inv(st, s)
    ensures Prod(st).Keys == st.body.Keys == st.text.Keys == st.h.guard.Keys
  {
    hide Sound, Texted;
    Domains(st, s);
  }

  lemma TailLive(st: State, s: RuleId)
    requires Inv(st, s) && s in st.body && |st.body[s]| >= 2
    ensures Tail(st, s)[0].Rule? ==> Tail(st, s)[0].r in st.text && Tail(st, s)[0].r != s
    ensures Tail(st, s)[1].Rule? ==> Tail(st, s)[1].r in st.text && Tail(st, s)[1].r != s
  {
    hide Inv, Fine;
    ProdFine(st, s);
    TailPlaces(st, s);
    FineAt(Prod(st), st.text, s, s, |st.body[s]| - 2);
    FineAt(Prod(st), st.text, s, s, |st.body[s]| - 1);
  }

  /** The rule of the first symbol of `r`, if that is now its only use, was used at the end too, and nowhere else. */
  lemma ReuseOnly(st: State, mid: State, s: RuleId, r: RuleId, q: Ptr, z: Ptr, x: RuleId)
    requires Reuses(st, mid, s, r, q, z) && Tail(st, s)[0] == Rule(x)
    requires r in mid.body && |mid.body[r]| == 2 && Uses(mid.h, x) == {mid.body[r][0]}
    ensures OnlyTwo(Prod(st), x, s, |st.body[s]| - 2, r, 0)
  {
    hide Inv, Yielded, Fine, Uses, Replaced, OnlyTwo, Prod, ReuseG, Tail;
    ReuseShape(st, mid, s, r, z);
    ReuseSecond(st, mid, s, r, q, z, x);
    ReusingEnds(st, s, r);
    ReuseUses(st, mid, s, r, z, x);
    ReuseUsesNot(st, s, x);
    OnlyTwoUses(st, s, x, s, |st.body[s]| - 2, r, 0);
  }

  lemma ReuseSecond(st: State, mid: State, s: RuleId, r: RuleId, q: Ptr, z: Ptr, x: RuleId)
    requires Reuses(st, mid, s, r, q, z) && r in mid.body && |mid.body[r]| == 2 && Uses(mid.h, x) == {mid.body[r][0]}
    ensures Tail(st, s)[1] != Rule(x)
  {
    hide Inv, Yielded, Fine, Uses, Replaced, ReuseG;
    ReuseProd(st, mid, s, r, q, z);
    DistinctPair(mid, s, r);
    if Tail(st, s)[1] == Rule(x) {
      assert Refers(Prod(mid), x, r, 1);
      PlaceUse(mid, s, x, r, 1);
    }
  }

  lemma ReuseSeamReady(st: State, mid: State, s: RuleId, r: RuleId, q: Ptr, z: Ptr)
    requires Reuses(st, mid, s, r, q, z) && SeamsClear(Prod(st), st.text, s, true, 1)
    ensures SeamReady(mid, s, r)
  {
    hide Inv, Yielded, Fine, Uses, Replaced, SeamsClear, OnlyAt, OnlyTwo, ReuseG, Prod;
    ReuseShape(st, mid, s, r, z);
    ReuseProd(st, mid, s, r, q, z);
    ReusingEnds(st, s, r);
    TailPlaces(st, s);
    ReusingPlaces(st, s, r);
    var k := Tail(st, s)[0];
    if k.Rule? && Uses(mid.h, k.r) == {mid.body[r][0]} {
      ReuseOnly(st, mid, s, r, q, z, k.r);
      ReuseSeam(Prod(st), st.text, s, r, k.r);
      ReuseKeys(Prod(st), s, r, k.r);
    }
  }

  lemma ReusingPlaces(st: State, s: RuleId, r: RuleId)
    requires Reusing(st, s, r)
    ensures r in Prod(st) && |Prod(st)[r]| == 2 && Prod(st)[r][0] == Tail(st, s)[0] && Prod(st)[r][1] == Tail(st, s)[1]
  {
  }

  lemma ReuseKeys(g: Productions, s: RuleId, r: RuleId, x: RuleId)
    requires EndsIn(g, s, r) && x in g && x != s
    ensures x in ReuseG(g, s, r) && r in ReuseG(g, s, r) && ReuseG(g, s, r)[r] == g[r]
  {
  }

  lemma DistinctPair(st: State, s: RuleId, r: RuleId)
    requires Inv(st, s) && r in st.body && |st.body[r]| == 2
    ensures st.body[r][0] != st.body[r][1]
  {
    hide Sound, Texted;
    Domains(st, s);
    if st.body[r][0] == st.body[r][1] { SamePlace(st, s, r, 0, r, 1); }
  }

  lemma ReuseUsesNot(st: State, s: RuleId, x: RuleId)
    requires Inv(st, s) && s in st.body && |st.body[s]| >= 2 && Tail(st, s)[1] != Rule(x)
    ensures st.body[s][|st.body[s]| - 1] !in Uses(st.h, x)
  {
  }

  // ---------------------------------------------------------------------
  // After a match
  // ---------------------------------------------------------------------

  /** The start rule ends as before, or in a rule whose last symbol is no shorter than its end was. */
  ghost predicate Atop(st: State, st': State, s: RuleId)
    requires s in st.body && st.body[s] != []
  {
    && s in st'.body && st'.body[s] != []
    && var g, k := Prod(st'), LastKey(st', s);
    k == LastKey(st, s)
    || (k.Rule? && k.r in g && |g[k.r]| >= 2 && Len(Last(g, k.r), st'.text) >= Len(LastKey(st, s), st.text))
  }

  /** What a check that found its digram leaves. */
  ghost predicate Settled(st: State, st': State, s: RuleId, debts: set<RuleId>) {
    && s in st.body && st.body[s] != [] && Calm(st', s, 1) && Reused(st', s, debts)
    && ShortKept(Prod(st), Prod(st'), st'.text, s, Len(LastKey(st, s), st.text)) && Atop(st, st', s)
  }

  /** What the substitutions of a match leave; the rule of the first symbol of `r` may be a use short. */
  ghost predicate Matched(st: State, mid: State, s: RuleId, r: RuleId, debts: set<RuleId>) {
    && s in st.body && |st.body[s]| >= 2 && Calm(mid, s, 1) && Reused(mid, s, debts + FirstRule(st, s))
    && Topped(Prod(mid), mid.text, s, r) && SeamReady(mid, s, r)
    && ShortKept(Prod(st), Prod(mid), mid.text, s, Len(LastKey(st, s), st.text))
  }

  lemma ReuseShortKept(st: State, mid: State, s: RuleId, r: RuleId, q: Ptr, z: Ptr)
    requires Reuses(st, mid, s, r, q, z)
    ensures ShortKept(Prod(st), Prod(mid), mid.text, s, Len(LastKey(st, s), st.text))
  {
    hide Inv, Yielded, Fine, Prod, Replaced, ShortKept, ReuseG;
    ReuseShape(st, mid, s, r, z);
    ReuseProd(st, mid, s, r, q, z);
    ReusingEnds(st, s, r);
    ReuseKeepsShort(Prod(st), st.text, s, r, Len(LastKey(st, s), st.text));
  }

  lemma ReuseTopped(st: State, mid: State, s: RuleId, r: RuleId, q: Ptr, z: Ptr)
    requires Reuses(st, mid, s, r, q, z)
    ensures Topped(Prod(mid), mid.text, s, r)
  {
    hide Inv, Yielded, Fine, Replaced;
    ReuseShape(st, mid, s, r, z);
    ReuseProd(st, mid, s, r, q, z);
    ReusingEnds(st, s, r);
  }

  /** The new digram at the end was found nowhere else. */
  lemma ReuseQuiet(st: State, mid: State, st': State, s: RuleId, r: RuleId, q: Ptr, z: Ptr, debts: set<RuleId>)
    requires Reuses(st, mid, s, r, q, z) && Waiting(st, s, st.body[s][|st.body[s]| - 2])
    requires Reused(st, s, debts) && Owing(st, s, debts)
    requires st'.body == mid.body && st'.text == mid.text && TableAside(mid.h, st'.h) && Calm(st', s, 1)
    ensures Matched(st, st', s, r, debts)
  {
    hide Inv, Yielded, Fine, Prod, Replaced, ShortKept, SeamsClear, Neat, RunsFirst, Topped, Owing;
    ReuseReused(st, mid, s, r, z, debts);
    ReuseTopped(st, mid, s, r, q, z);
    ReuseShortKept(st, mid, s, r, q, z);
    ReuseSeamReady(st, mid, s, r, q, z);
    ProdTable(mid, st');
    AsideUses(mid.h, st'.h);
  }

  lemma AsideUses(h: Heap, h': Heap)
    requires TableAside(h, h')
    ensures forall r :: Uses(h', r) == Uses(h, r)
  {
  }

  /** Texts shorter than `b` are kept with their symbols. */
  lemma SurvivesKeys(st: State, st': State, s: RuleId, b: nat, x: RuleId)
    requires Inv(st, s) && Inv(st', s) && Survives(st, st', s, b) && x in st.text && x in st'.text
    ensures st'.text[x] == st.text[x]
    ensures x != s && |st.text[x]| < b ==>
      && x in Prod(st) && x in Prod(st') && Prod(st')[x] == Prod(st)[x]
      && x in st.body && x in st'.body && st'.body[x] == st.body[x]
  {
    hide Sound, Texted;
    Domains(st, s);
    Domains(st', s);
    assert SurvivesRule(st, st', s, b, x);
  }

  lemma SurvivesTexts(st: State, st': State, s: RuleId, b: nat)
    requires Inv(st, s) && Inv(st', s) && Survives(st, st', s, b)
    ensures SameTexts(st.text, st'.text)
  {
    hide Inv, Prod;
    forall q | q in st.text && q in st'.text ensures st.text[q] == st'.text[q] {
      SurvivesKeys(st, st', s, b, q);
    }
  }

  /** What the nested check did, seen from before the reuse. */
  ghost predicate ReuseAgain(mid: State, st': State, s: RuleId, r: RuleId, debts: set<RuleId>) {
    && Inv(mid, s) && Inv(st', s) && r in mid.body && r != s && |mid.body[r]| == 2 && r in mid.text && r in st'.text
    && Survives(mid, st', s, |mid.text[r]| + 1) && Settled(mid, st', s, NewDebts(mid, r, debts))
    && LastKey(mid, s) == Rule(r)
  }

  lemma AgainKeys(mid: State, st': State, s: RuleId, r: RuleId, debts: set<RuleId>)
    requires ReuseAgain(mid, st', s, r, debts)
    ensures r in Prod(mid) && r in Prod(st') && Prod(st')[r] == Prod(mid)[r] && r in st'.body
    ensures st'.body[r] == mid.body[r]
    ensures st'.text[r] == mid.text[r] && KeysOf(st'.body[r], st'.h.key) == KeysOf(mid.body[r], mid.h.key)
    ensures SameTexts(mid.text, st'.text)
  {
    hide Inv, Settled, Survives;
    SurvivesKeys(mid, st', s, |mid.text[r]| + 1, r);
    SurvivesTexts(mid, st', s, |mid.text[r]| + 1);
  }

  lemma AgainTopped(mid: State, st': State, s: RuleId, r: RuleId, debts: set<RuleId>)
    requires ReuseAgain(mid, st', s, r, debts)
    ensures Topped(Prod(st'), st'.text, s, r)
  {
    hide Inv, Calm, Reused, ShortKept, Survives;
    AgainKeys(mid, st', s, r, debts);
  }

  lemma AgainShort(st: State, mid: State, st': State, s: RuleId, r: RuleId, debts: set<RuleId>, b: nat)
    requires ReuseAgain(mid, st', s, r, debts) && ShortKept(Prod(st), Prod(mid), mid.text, s, b) && b <= |mid.text[r]|
    requires Inv(st, s) && st.h.guard == mid.h.guard
    ensures ShortKept(Prod(st), Prod(st'), st'.text, s, b)
  {
    hide Inv, Calm, Reused, Survives, ShortKept, Prod, Atop;
    AgainKeys(mid, st', s, r, debts);
    InvDomains(st, s);
    InvDomains(mid, s);
    ProdFine(mid, s);
    ShortKeptWeaker(Prod(mid), Prod(st'), st'.text, s, |mid.text[r]|, b);
    ShortKeptTrans(Prod(st), Prod(mid), Prod(st'), mid.text, st'.text, s, b);
  }

  /** The rule of the first symbol of `r`, if it has but this use, had no other before the nested check. */
  lemma AgainAlone(st: State, mid: State, st': State, s: RuleId, r: RuleId, z: Ptr, debts: set<RuleId>, x: RuleId)
    requires Reusing(st, s, r) && r in mid.body && |mid.body[r]| == 2
    requires Replaced(st, mid, s, |st.body[s]| - 2, r, z) && Tail(st, s)[0] == Rule(x)
    requires KeysOf(mid.body[r], mid.h.key) == Tail(st, s) && |Uses(st'.h, x)| == 1 && x in st'.h.guard && x != s
    requires Inv(st, s) && Owing(st, s, debts) && ReuseAgain(mid, st', s, r, debts)
    ensures Uses(mid.h, x) == {mid.body[r][0]}
  {
    hide Inv, Calm, ShortKept, Survives, Atop, Uses, Prod, KeysOf, Replaced;
    AgainKeys(mid, st', s, r, debts);
    ReuseShape(st, mid, s, r, z);
    FirstPlaces(st, s, r, x);
    if x in debts {
      assert DebtOk(st, s, x);
      SmallSet({st.body[s][|st.body[s]| - 2], st.body[r][0]}, Uses(st.h, x));
    }
    ReuseUses(st, mid, s, r, z, x);
    OneUse(Uses(mid.h, x), mid.body[r][0]);
  }

  lemma OneUse(u: set<Ptr>, x: Ptr)
    requires |u| < 2 && x in u
    ensures u == {x}
  {
    SingleUse(u, x);
  }

  lemma FirstPlaces(st: State, s: RuleId, r: RuleId, x: RuleId)
    requires Inv(st, s) && Reusing(st, s, r) && Tail(st, s)[0] == Rule(x)
    ensures st.body[s][|st.body[s]| - 2] in Uses(st.h, x) && st.body[r][0] in Uses(st.h, x)
    ensures st.body[s][|st.body[s]| - 2] != st.body[r][0] && x != r && st.body[s][|st.body[s]| - 1] != st.body[r][0]
  {
    hide Sound, Texted, Uses;
    Domains(st, s);
    ReusingEnds(st, s, r);
    TailPlaces(st, s);
    PlaceUse(st, s, x, s, |st.body[s]| - 2);
    PlaceUse(st, s, x, r, 0);
    if st.body[s][|st.body[s]| - 2] == st.body[r][0] { SamePlace(st, s, s, |st.body[s]| - 2, r, 0); }
    if st.body[s][|st.body[s]| - 1] == st.body[r][0] { SamePlace(st, s, s, |st.body[s]| - 1, r, 0); }
  }

  lemma LenSame(k: Key, t: Texts, t': Texts)
    requires SameTexts(t, t') && (k.Rule? ==> k.r in t && k.r in t')
    ensures Len(k, t) == Len(k, t')
  {
  }

  /** A symbol that stands at the same place before and after is as short as before. */
  lemma KeyShort(st: State, st': State, s: RuleId, q: RuleId, j: nat, b: nat)
    requires Inv(st, s) && Inv(st', s) && SameTexts(st.text, st'.text) && q in Prod(st) && q in Prod(st')
    requires Prod(st)[q] == Prod(st')[q]
    requires j < |Prod(st)[q]| && Len(Prod(st)[q][j], st.text) < b
    ensures Short(Prod(st)[q][j], st'.text, b)
  {
    hide Inv, Fine, Prod, SameTexts, Len;
    ProdFine(st, s);
    ProdFine(st', s);
    InvDomains(st, s);
    InvDomains(st', s);
    FineAt(Prod(st), st.text, s, q, j);
    FineAt(Prod(st'), st'.text, s, q, j);
    LenSame(Prod(st)[q][j], st.text, st'.text);
  }

  lemma AgainOnly(mid: State, st': State, s: RuleId, r: RuleId, debts: set<RuleId>, x: RuleId)
    requires ReuseAgain(mid, st', s, r, debts) && r in Prod(mid) && |Prod(mid)[r]| == 2 && Prod(mid)[r][0] == Rule(x)
    requires x in Prod(mid) && x != s && |Prod(mid)[x]| >= 2 && x in st'.text
    requires OnlyAt(Prod(mid), Last(Prod(mid), x), Prod(mid)[r][1], x, |Prod(mid)[x]| - 2)
    ensures r in Prod(st') && Prod(st')[r] == Prod(mid)[r] && x in Prod(st') && Prod(st')[x] == Prod(mid)[x]
    ensures OnlyAt(Prod(st'), Last(Prod(st'), x), Prod(st')[r][1], x, |Prod(st')[x]| - 2)
  {
    hide Inv, Calm, Reused, Survives, Atop, Prod, Fine, OnlyAt, KeysOf;
    var g, b := Prod(mid), |mid.text[r]|;
    AgainKeys(mid, st', s, r, debts);
    ProdFine(mid, s);
    InvDomains(mid, s);
    FineAt(g, mid.text, s, r, 0);
    FineAt(g, mid.text, s, r, 1);
    FineAt(g, mid.text, s, x, |g[x]| - 1);
    SurvivesKeys(mid, st', s, b + 1, x);
    KeyShort(mid, st', s, r, 0, b);
    KeyShort(mid, st', s, r, 1, b);
    KeyShort(mid, st', s, x, |g[x]| - 1, b);
    assert KeptAt(g, Prod(st'), st'.text, s, b, Last(g, x), g[r][1], x, |g[x]| - 2);
  }

  lemma ReadyFacts(st: State, s: RuleId, r: RuleId, x: RuleId)
    requires SeamReady(st, s, r) && r in st.body && KeysOf(st.body[r], st.h.key)[0] == Rule(x)
    requires Uses(st.h, x) == {st.body[r][0]}
    ensures var g := Prod(st);
      && x in g && x != s && |g[x]| >= 2 && r in g && |g[r]| == 2 && g[r][0] == Rule(x)
      && OnlyAt(g, Last(g, x), g[r][1], x, |g[x]| - 2)
  {
  }

  lemma AgainReady(st: State, mid: State, st': State, s: RuleId, r: RuleId, z: Ptr, debts: set<RuleId>)
    requires Reusing(st, s, r) && r in mid.body && |mid.body[r]| == 2
    requires Replaced(st, mid, s, |st.body[s]| - 2, r, z) && KeysOf(mid.body[r], mid.h.key) == Tail(st, s)
    requires Inv(st, s) && Owing(st, s, debts) && ReuseAgain(mid, st', s, r, debts) && SeamReady(mid, s, r)
    ensures SeamReady(st', s, r)
  {
    hide Inv, Settled, Survives, Replaced, Owing, OnlyAt, Uses, Prod;
    AgainKeys(mid, st', s, r, debts);
    var k := KeysOf(st'.body[r], st'.h.key)[0];
    if k.Rule? && Uses(st'.h, k.r) == {st'.body[r][0]} {
      FirstLives(st', s, r, k.r);
      AgainAlone(st, mid, st', s, r, z, debts, k.r);
      ReadyFacts(mid, s, r, k.r);
      AgainOnly(mid, st', s, r, debts, k.r);
    }
  }

  lemma FirstLives(st: State, s: RuleId, r: RuleId, x: RuleId)
    requires Inv(st, s) && r in st.body && |st.body[r]| >= 1 && KeysOf(st.body[r], st.h.key)[0] == Rule(x)
    ensures x in st.h.guard && x in st.text && x != s
  {
    hide Sound, Texted;
    Domains(st, s);
    SymbolInBody(st, s, r, 0);
  }

  /** The new digram at the end stood elsewhere, and was matched in turn. */
  lemma ReuseFound(st: State, mid: State, st': State, s: RuleId, r: RuleId, q: Ptr, z: Ptr, debts: set<RuleId>)
    requires Reuses(st, mid, s, r, q, z) && Waiting(st, s, st.body[s][|st.body[s]| - 2])
    requires Owing(st, s, debts) && ReuseAgain(mid, st', s, r, debts)
    ensures Matched(st, st', s, r, debts)
  {
    hide Inv, Yielded, Fine, Prod, Replaced, ShortKept, Calm, SeamsClear, Neat, RunsFirst, Topped, Owing, Uses;
    hide SeamReady, KeysOf, Tail, Survives;
    ReuseShape(st, mid, s, r, z);
    ReuseProd(st, mid, s, r, q, z);
    ReusingEnds(st, s, r);
    ReuseSeamReady(st, mid, s, r, q, z);
    AgainReady(st, mid, st', s, r, z, debts);
    AgainTopped(mid, st', s, r, debts);
    ReuseShortKept(st, mid, s, r, q, z);
    AgainShort(st, mid, st', s, r, debts, Len(LastKey(st, s), st.text));
    assert NewDebts(mid, r, debts) <= debts + FirstRule(st, s);
  }
}
