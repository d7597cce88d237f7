/**
  Factoring a repeated digram into a new rule, and inlining a rule that is a use short.
 */
module SequiturFactor {
  import opened Grammar
  import opened SequiturGrammar
  import opened SequiturRuns
  import opened SequiturHeap
  import opened SequiturExpand
  import opened SequiturState
  import opened SequiturDigrams
  import opened SequiturSteps
  import opened SequiturLaws

  // ---------------------------------------------------------------------
  // The grammar after each substitution
  // ---------------------------------------------------------------------

  /** The end of the start rule stands at symbol `i` of rule `o` as well. */
  ghost predicate Repeated(st: State, s: RuleId, o: RuleId, i: nat) {
    && s in st.body && |st.body[s]| >= 2 && o in st.body && i + 2 <= |st.body[o]|
    && KeysOf(st.body[o], st.h.key)[i..i + 2] == Tail(st, s) && (o == s ==> i + 4 <= |st.body[s]|)
  }

  lemma RepeatedProd(st: State, s: RuleId, o: RuleId, i: nat)
    requires Inv(st, s) && Repeated(st, s, o, i)
    ensures Repeats(Prod(st), s, o, i) && Fine(Prod(st), st.text, s) && o in st.h.guard && s in st.h.guard
  {
    hide Sound, Texted, Fine;
    ProdFine(st, s);
    Domains(st, s);
  }

  /** The new rule `r` with the symbols `f` and `l`. */
  ghost predicate Paired(st: State, made: State, s: RuleId, r: RuleId, g: Ptr, f: Ptr, l: Ptr) {
    && Inv(st, s) && Inv(made, s) && s in st.body && |st.body[s]| >= 2
    && PairMade(st, made, r, g, f, l, Tail(st, s)[0], Tail(st, s)[1])
  }

  ghost predicate Halved(st: State, made: State, half: State, s: RuleId, o: RuleId, i: nat, r: RuleId, g: Ptr,
                         f: Ptr, l: Ptr, z: Ptr) {
    Repeated(st, s, o, i) && Paired(st, made, s, r, g, f, l) && Inv(half, s) && Replaced(made, half, o, i, r, z)
  }

  lemma PairedProd(st: State, made: State, s: RuleId, r: RuleId, g: Ptr, f: Ptr, l: Ptr)
    requires Paired(st, made, s, r, g, f, l)
    ensures s in Prod(st) && |Prod(st)[s]| >= 2 && r !in Prod(st) && r != s
    ensures Prod(made) == PairG(Prod(st), s, r) && made.text == PairT(Prod(st), st.text, s, r)
    ensures Fine(Prod(made), made.text, s)
  {
    hide Sound, Texted, Fine;
    Domains(st, s);
    assert Tail(st, s) == [Tail(st, s)[0], Tail(st, s)[1]];
    ProdPair(st, made, s, r, g, f, l, Tail(st, s)[0], Tail(st, s)[1]);
    ProdFine(made, s);
  }

  lemma HalvedProd(st: State, made: State, half: State, s: RuleId, o: RuleId, i: nat, r: RuleId, g: Ptr, f: Ptr,
                   l: Ptr, z: Ptr)
    requires Halved(st, made, half, s, o, i, r, g, f, l, z)
    ensures Repeats(Prod(st), s, o, i) && r !in Prod(st) && Fine(Prod(st), st.text, s)
    ensures Prod(half) == HalfG(Prod(st), s, o, i, r) && half.text == PairT(Prod(st), st.text, s, r)
    ensures Fine(Prod(half), half.text, s)
  {
    hide Inv, Fine, Prod, PairT;
    RepeatedProd(st, s, o, i);
    PairedProd(st, made, s, r, g, f, l);
    ProdReplaced(made, half, s, o, i, r, z);
    ProdFine(half, s);
  }

  ghost predicate Factored(st: State, made: State, half: State, mid: State, s: RuleId, o: RuleId, i: nat, r: RuleId,
                           g: Ptr, f: Ptr, l: Ptr, z: Ptr, z': Ptr) {
    && Halved(st, made, half, s, o, i, r, g, f, l, z) && Inv(mid, s)
    && s in half.body && |half.body[s]| >= 2 && Replaced(half, mid, s, |half.body[s]| - 2, r, z')
  }

  lemma FactoredProd(st: State, made: State, half: State, mid: State, s: RuleId, o: RuleId, i: nat, r: RuleId,
                     g: Ptr, f: Ptr, l: Ptr, z: Ptr, z': Ptr)
    requires Factored(st, made, half, mid, s, o, i, r, g, f, l, z, z')
    ensures FactorFine(Prod(st), st.text, s, o, i, r)
    ensures Prod(mid) == FactorG(Prod(st), s, o, i, r) && mid.text == PairT(Prod(st), st.text, s, r)
  {
    hide Inv, Fine, Prod, PairT, PairG, HalfG, Halved;
    HalvedParts(st, made, half, s, o, i, r, g, f, l, z);
    PairedProd(st, made, s, r, g, f, l);
    HalvedProd(st, made, half, s, o, i, r, g, f, l, z);
    ProdFine(half, s);
    ProdShape(half, s);
    ProdReplaced(half, mid, s, s, |half.body[s]| - 2, r, z');
    ProdFine(mid, s);
  }

  lemma HalvedParts(st: State, made: State, half: State, s: RuleId, o: RuleId, i: nat, r: RuleId, g: Ptr, f: Ptr,
                    l: Ptr, z: Ptr)
    requires Halved(st, made, half, s, o, i, r, g, f, l, z)
    ensures Repeated(st, s, o, i) && Paired(st, made, s, r, g, f, l) && Inv(half, s) && Inv(st, s)
  {
  }

  // ---------------------------------------------------------------------
  // The rings after each substitution
  // ---------------------------------------------------------------------

  lemma HalvedBodies(st: State, made: State, half: State, s: RuleId, o: RuleId, i: nat, r: RuleId, g: Ptr, f: Ptr,
                     l: Ptr, z: Ptr)
    requires Halved(st, made, half, s, o, i, r, g, f, l, z)
    ensures r !in st.body && r != o && r != s && s in half.body && r in half.body && half.body[r] == [f, l]
    ensures half.body[s] == if o == s then st.body[s][..i] + [z] + st.body[s][i + 2..] else st.body[s]
    ensures o in half.body && made.body[o] == st.body[o]
  {
    hide Sound, Texted;
    Domains(st, s);
  }

  lemma FactoredBodies(st: State, made: State, half: State, mid: State, s: RuleId, o: RuleId, i: nat, r: RuleId,
                       g: Ptr, f: Ptr, l: Ptr, z: Ptr, z': Ptr)
    requires Factored(st, made, half, mid, s, o, i, r, g, f, l, z, z')
    ensures s in mid.body && |mid.body[s]| == (if o == s then |st.body[s]| - 2 else |st.body[s]| - 1)
    ensures r != o && r != s && r in mid.body && mid.body[r] == [f, l]
    ensures half.body[s][|half.body[s]| - 2] == st.body[s][|st.body[s]| - 2]
    ensures half.body[s][|half.body[s]| - 1] == st.body[s][|st.body[s]| - 1]
    ensures mid.body[s] == half.body[s][..|half.body[s]| - 2] + [z']
  {
    hide Inv, Halved, Replaced;
    HalvedBodies(st, made, half, s, o, i, r, g, f, l, z);
    HalvedParts(st, made, half, s, o, i, r, g, f, l, z);
    EndReplaced(half, mid, s, r, z', r);
  }

  lemma EndReplaced(st: State, st': State, s: RuleId, r: RuleId, z: Ptr, q: RuleId)
    requires s in st.body && |st.body[s]| >= 2 && Replaced(st, st', s, |st.body[s]| - 2, r, z)
    ensures s in st'.body && st'.body[s] == st.body[s][..|st.body[s]| - 2] + [z]
    ensures q in st.body && q != s ==> q in st'.body && st'.body[q] == st.body[q]
  {
    var xs := st.body[s];
    assert xs[..|xs| - 2] + [z] + xs[|xs| - 2 + 2..] == xs[..|xs| - 2] + [z];
  }

  lemma HalvedPlaces(st: State, made: State, half: State, s: RuleId, o: RuleId, i: nat, r: RuleId, g: Ptr, f: Ptr,
                     l: Ptr, z: Ptr, j: nat)
    requires Halved(st, made, half, s, o, i, r, g, f, l, z) && s in half.body && j < |half.body[s]|
    requires !(o == s && j == i)
    ensures s in st.body && Back(o, i, s, j) < |st.body[s]| && half.body[s][j] == st.body[s][Back(o, i, s, j)]
  {
    hide Inv, Halved;
    HalvedBodies(st, made, half, s, o, i, r, g, f, l, z);
    HalvedParts(st, made, half, s, o, i, r, g, f, l, z);
  }

  lemma FactoredPlaces(st: State, made: State, half: State, mid: State, s: RuleId, o: RuleId, i: nat, r: RuleId,
                       g: Ptr, f: Ptr, l: Ptr, z: Ptr, z': Ptr, j: nat)
    requires Factored(st, made, half, mid, s, o, i, r, g, f, l, z, z') && s in Prod(st) && s in mid.body
    requires j < |mid.body[s]|
    ensures !PutIn(Prod(st), s, o, i, s, j) ==>
      Back(o, i, s, j) < |st.body[s]| && mid.body[s][j] == st.body[s][Back(o, i, s, j)]
  {
    hide Inv, Halved, Replaced, Prod;
    FactoredBodies(st, made, half, mid, s, o, i, r, g, f, l, z, z');
    HalvedParts(st, made, half, s, o, i, r, g, f, l, z);
    ProdShape(st, s);
    if !PutIn(Prod(st), s, o, i, s, j) { HalvedPlaces(st, made, half, s, o, i, r, g, f, l, z, j); }
  }

  // ---------------------------------------------------------------------
  // The table after each substitution
  // ---------------------------------------------------------------------

  lemma MadeStirs(st: State, made: State, s: RuleId, o: RuleId, i: nat, r: RuleId, g: Ptr, f: Ptr, l: Ptr)
    requires Repeated(st, s, o, i) && Paired(st, made, s, r, g, f, l)
    ensures o in made.body && i + 2 <= |made.body[o]| && o in Prod(st) && i + 2 <= |Prod(st)[o]|
    ensures ReplaceStirs(made, o, i) == FactorStirs(Prod(st), o, i)
  {
    hide Sound, Texted;
    Domains(st, s);
    PairElsewhere(st, made, s, r, g, f, l, Tail(st, s)[0], Tail(st, s)[1], o);
  }

  lemma HalfStirs(st: State, made: State, half: State, s: RuleId, o: RuleId, i: nat, r: RuleId, g: Ptr, f: Ptr,
                  l: Ptr, z: Ptr)
    requires Halved(st, made, half, s, o, i, r, g, f, l, z)
    ensures s in half.body && |half.body[s]| >= 2 && o in Prod(st) && i + 2 <= |Prod(st)[o]|
    ensures ReplaceStirs(half, s, |half.body[s]| - 2) == {Prod(st)[o][i], Prod(st)[o][i + 1]}
  {
    hide Inv, Halved;
    HalvedParts(st, made, half, s, o, i, r, g, f, l, z);
    HalvedBodies(st, made, half, s, o, i, r, g, f, l, z);
    HalvedTail(st, made, half, s, o, i, r, g, f, l, z);
    TailStirs(half, s);
    RepeatedKeys(st, s, o, i);
  }

  lemma RepeatedKeys(st: State, s: RuleId, o: RuleId, i: nat)
    requires Repeated(st, s, o, i)
    ensures o in Prod(st) && i + 2 <= |Prod(st)[o]| && Prod(st)[o][i] == Tail(st, s)[0]
    ensures Prod(st)[o][i + 1] == Tail(st, s)[1]
  {
    var pair := KeysOf(st.body[o], st.h.key)[i..i + 2];
    assert pair[0] == Tail(st, s)[0] && pair[1] == Tail(st, s)[1];
  }

  lemma HalvedTail(st: State, made: State, half: State, s: RuleId, o: RuleId, i: nat, r: RuleId, g: Ptr, f: Ptr,
                   l: Ptr, z: Ptr)
    requires Halved(st, made, half, s, o, i, r, g, f, l, z)
    ensures s in half.body && |half.body[s]| >= 2 && s in st.body && |st.body[s]| >= 2 && Tail(half, s) == Tail(st, s)
  {
    hide Inv, Fine, PairT;
    HalvedProd(st, made, half, s, o, i, r, g, f, l, z);
    HalvedParts(st, made, half, s, o, i, r, g, f, l, z);
    HalvedBodies(st, made, half, s, o, i, r, g, f, l, z);
    HalfTail(Prod(st), s, o, i, r);
    TailPlaces(st, s);
    TailPlaces(half, s);
  }

  lemma HalfTail(g: Productions, s: RuleId, o: RuleId, i: nat, r: RuleId)
    requires Repeats(g, s, o, i) && r !in g
    ensures var h := HalfG(g, s, o, i, r);
      |h[s]| >= 2 && h[s][|h[s]| - 2] == g[s][|g[s]| - 2] && h[s][|h[s]| - 1] == g[s][|g[s]| - 1]
  {
  }

  // ---------------------------------------------------------------------
  // Each substitution may be made
  // ---------------------------------------------------------------------

  /** The symbol before place `i` of a rule, or its guard, is none of the symbols of other places. */
  lemma OtherPlace(st: State, s: RuleId, o: RuleId, i: nat, q: RuleId, j: nat)
    requires Inv(st, s) && o in st.h.guard && o in st.body && i <= |st.body[o]| && q in st.h.guard && q in st.body
    requires j < |st.body[q]|
    requires o == q ==> i != j + 1
    ensures Circle(st.h, st.body, o)[i] != st.body[q][j]
  {
    hide Sound, Texted;
    SymbolInBody(st, s, q, j);
    if i == 0 {
      SoundRule(st, s, o);
    } else if st.body[o][i - 1] == st.body[q][j] {
      SamePlace(st, s, o, i - 1, q, j);
    }
  }

  lemma MadePlaces(st: State, made: State, s: RuleId, r: RuleId, g: Ptr, f: Ptr, l: Ptr)
    requires Paired(st, made, s, r, g, f, l)
    ensures r !in st.body && r != s && r in made.body && made.body[r] == [f, l] && s in made.h.guard
    ensures r in made.h.guard
    ensures forall q :: q in st.body ==> q in made.body && q in made.h.guard && made.body[q] == st.body[q]
  {
    hide Sound, Texted;
    Domains(st, s);
    Domains(made, s);
  }

  lemma MadeYields(st: State, made: State, s: RuleId, o: RuleId, i: nat, r: RuleId, g: Ptr, f: Ptr, l: Ptr)
    requires Repeated(st, s, o, i) && Paired(st, made, s, r, g, f, l) && Neat(made.h, {st.body[s][|st.body[s]| - 2], f})
    ensures Yields(made, o, i, {st.body[s][|st.body[s]| - 2], f})
    ensures st.body[o][i] != st.body[s][|st.body[s]| - 2] && st.body[o][i] != f
  {
    hide Inv, Neat, PairMade, Unrecorded, Absent;
    MadePlaces(st, made, s, r, g, f, l);
    var n := |st.body[s]|;
    OtherPlace(made, s, o, i, s, n - 2);
    OtherPlace(made, s, o, i + 1, s, n - 2);
    OtherPlace(made, s, o, i + 2, s, n - 2);
    OtherPlace(made, s, o, i, r, 0);
    OtherPlace(made, s, o, i + 1, r, 0);
    OtherPlace(made, s, o, i + 2, r, 0);
    var c := Circle(made.h, made.body, o);
    assert c[i + 1] == st.body[o][i] && c[i + 2] == st.body[o][i + 1];
  }

  /** After the first substitution the digram is left at the end of the start rule and in the new rule only. */
  lemma HalfAbsent(st: State, made: State, half: State, s: RuleId, o: RuleId, i: nat, r: RuleId, g: Ptr, f: Ptr,
                   l: Ptr, z: Ptr, q: Ptr)
    requires Halved(st, made, half, s, o, i, r, g, f, l, z) && Neat(made.h, {st.body[s][|st.body[s]| - 2], f})
    requires o in made.h.guard && o in made.body && i <= |made.body[o]| && q == Circle(made.h, made.body, o)[i]
    requires Rewired(made.h, half.h, st.body[o][i], st.body[o][i + 1], q, z)
    requires q in half.h.n && half.h.n[q] == z && z in half.h.key && half.h.key[z] == Rule(r)
    ensures Absent(half.h, {st.body[s][|st.body[s]| - 2], f}, (Tail(st, s)[0], Tail(st, s)[1]))
  {
    hide Inv, PairMade, Filed, Replaced;
    var e, d := {st.body[s][|st.body[s]| - 2], f}, (Tail(st, s)[0], Tail(st, s)[1]);
    MadePlaces(st, made, s, r, g, f, l);
    MadeYields(st, made, s, o, i, r, g, f, l);
    MadeDigram(st, made, s, o, i, r, g, f, l);
    forall w | Pos(half.h, w) && w !in e ensures DigramOf(half.h, w) != d {
      if w != q && w != z && DigramOf(half.h, w) == d {
        assert UniqueAt(made.h, e, w, st.body[o][i]);
        if made.h.n[w] == st.body[o][i] { BeforeIs(made, s, w, o, i); }
      }
    }
  }

  lemma BeforeIs(st: State, s: RuleId, w: Ptr, o: RuleId, i: nat)
    requires Inv(st, s) && Pos(st.h, w) && o in st.body && i < |st.body[o]| && st.h.n[w] == st.body[o][i]
    requires o in st.h.guard
    ensures w == Circle(st.h, st.body, o)[i]
  {
    hide Inv;
    Before(st, s, w, o, i);
  }

  lemma MadeDigram(st: State, made: State, s: RuleId, o: RuleId, i: nat, r: RuleId, g: Ptr, f: Ptr, l: Ptr)
    requires Repeated(st, s, o, i) && Paired(st, made, s, r, g, f, l)
    ensures Pos(made.h, st.body[o][i]) && DigramOf(made.h, st.body[o][i]) == (Tail(st, s)[0], Tail(st, s)[1])
    ensures made.h.n[st.body[o][i]] == st.body[o][i + 1]
    ensures Tail(st, s)[0] != Rule(r) && Tail(st, s)[1] != Rule(r)
  {
    hide Inv, PairMade, Fine;
    MadePlaces(st, made, s, r, g, f, l);
    MadeKeys(st, made, s, o, r, g, f, l);
    RepeatedKeys(st, s, o, i);
    AtPos(made, s, o, i);
    RepeatedProd(st, s, o, i);
    FineAt(Prod(st), st.text, s, o, i);
    FineAt(Prod(st), st.text, s, o, i + 1);
  }

  lemma MadeKeys(st: State, made: State, s: RuleId, o: RuleId, r: RuleId, g: Ptr, f: Ptr, l: Ptr)
    requires Paired(st, made, s, r, g, f, l) && o in st.body
    ensures o in Prod(st) && o in Prod(made) && Prod(made)[o] == Prod(st)[o]
  {
    hide Sound, Texted;
    Domains(st, s);
    PairElsewhere(st, made, s, r, g, f, l, Tail(st, s)[0], Tail(st, s)[1], o);
  }

  /** The end of the start rule may go if its digram is left in rule `r` only. */
  lemma EndYields(st: State, s: RuleId, r: RuleId, x: Ptr, f: Ptr)
    requires Inv(st, s) && AtEnd(st, s, x) && r in st.body && r != s && st.body[r] != [] && st.body[r][0] == f
    requires Neat(st.h, {x, f}) && Absent(st.h, {x, f}, (Tail(st, s)[0], Tail(st, s)[1]))
    ensures Yields(st, s, |st.body[s]| - 2, {x, f})
  {
    hide Inv, Sound, Neat, Absent, Unrecorded, Prod, Exempt, KeysOf, Tail, Pos, LastKey;
    var n := |st.body[s]|;
    InGuard(st, s, s);
    InGuard(st, s, r);
    EndPlace(st, s, x);
    TailPlaces(st, s);
    OtherPlace(st, s, s, n - 2, s, n - 2);
    OtherPlace(st, s, s, n, s, n - 2);
    OtherPlace(st, s, s, n - 2, r, 0);
    OtherPlace(st, s, s, n, r, 0);
    assert Circle(st.h, st.body, s)[n] == st.body[s][n - 1];
  }

  lemma HalfYields(st: State, made: State, half: State, s: RuleId, o: RuleId, i: nat, r: RuleId, g: Ptr, f: Ptr,
                   l: Ptr, z: Ptr)
    requires Halved(st, made, half, s, o, i, r, g, f, l, z) && Neat(half.h, {st.body[s][|st.body[s]| - 2], f})
    requires Absent(half.h, {st.body[s][|st.body[s]| - 2], f}, (Tail(st, s)[0], Tail(st, s)[1]))
    ensures s in half.body && |half.body[s]| >= 2 && half.body[s][|half.body[s]| - 2] == st.body[s][|st.body[s]| - 2]
    ensures Yields(half, s, |half.body[s]| - 2, {st.body[s][|st.body[s]| - 2], f})
  {
    hide Inv, Neat, Halved, Absent, Yields, Tail;
    HalvedParts(st, made, half, s, o, i, r, g, f, l, z);
    HalvedBodies(st, made, half, s, o, i, r, g, f, l, z);
    HalvedTail(st, made, half, s, o, i, r, g, f, l, z);
    EndYields(half, s, r, st.body[s][|st.body[s]| - 2], f);
  }

  /** The digram that a symbol for `r` at the end of the start rule makes would occur there only. */
  ghost predicate NewAtEnd(st: State, s: RuleId, r: RuleId) {
    && s in st.body && |st.body[s]| >= 2
    && var g, n := Prod(st), |st.body[s]|;
    n >= 3 ==> OnlyAt(ReplaceG(g, s, n - 2, r), g[s][n - 3], Rule(r), s, n - 3)
  }

  lemma HalfNewAtEnd(st: State, made: State, half: State, s: RuleId, o: RuleId, i: nat, r: RuleId, g: Ptr, f: Ptr,
                     l: Ptr, z: Ptr)
    requires Halved(st, made, half, s, o, i, r, g, f, l, z) && Neat(st.h, {st.body[s][|st.body[s]| - 2]})
    ensures NewAtEnd(half, s, r)
  {
    hide Inv, Neat, Halved, OnlyAt, Fine, PairT, NoRepeats, HalfG, ReplaceG, Prod;
    HalvedParts(st, made, half, s, o, i, r, g, f, l, z);
    HalvedProd(st, made, half, s, o, i, r, g, f, l, z);
    HalvedTail(st, made, half, s, o, i, r, g, f, l, z);
    EndPlace(st, s, st.body[s][|st.body[s]| - 2]);
    UniqueNoRepeats(st, s, true);
    ProdShape(half, s);
    if |half.body[s]| >= 3 { HalfQuiet(Prod(st), st.text, s, o, i, r); }
  }

  lemma NewAtEndFresh(st: State, mid: State, s: RuleId, r: RuleId, q: Ptr, z: Ptr)
    requires Inv(st, s) && Inv(mid, s) && NewAtEnd(st, s, r) && s in st.h.guard
    requires Replaced(st, mid, s, |st.body[s]| - 2, r, z)
    requires s in mid.h.guard && s in mid.body && |mid.body[s]| == |st.body[s]| - 1
    requires Circle(mid.h, mid.body, s)[|st.body[s]| - 2] == q
    requires Unrecorded(mid.h, q) && HasDigram(mid.h, q)
    ensures Ends(mid.h, q) || DigramOf(mid.h, q) !in mid.h.table
  {
    hide Inv, Replaced, OnlyAt, Unrecorded;
    var n := |st.body[s]|;
    if n == 2 {
      InvSound(mid, s);
      SoundRule(mid, s, s);
    } else {
      ProdReplaced(st, mid, s, s, n - 2, r, z);
      OnlyHere(mid, s, n - 3, r);
    }
  }

  lemma OnlyHere(st: State, s: RuleId, i: nat, r: RuleId)
    requires Inv(st, s) && At(Prod(st), s, i) && Prod(st)[s][i + 1] == Rule(r)
    requires OnlyAt(Prod(st), Prod(st)[s][i], Rule(r), s, i)
    requires Unrecorded(st.h, st.body[s][i])
    ensures HasDigram(st.h, st.body[s][i]) && DigramOf(st.h, st.body[s][i]) !in st.h.table
  {
    hide Inv, OnlyAt;
    AtPos(st, s, s, i);
    var d := DigramOf(st.h, st.body[s][i]);
    if d in st.h.table {
      InvTable(st, s);
      assert Entry(st.h, d, st.h.table[d]);
      OnlyAtPos(st, s, d.0, d.1, s, i, st.h.table[d]);
    }
  }

  // ---------------------------------------------------------------------
  // Uses after the factoring
  // ---------------------------------------------------------------------

  lemma PairedUse(st: State, made: State, s: RuleId, r: RuleId, g: Ptr, f: Ptr, l: Ptr, q: RuleId, x: Ptr)
    requires Paired(st, made, s, r, g, f, l)
    ensures x in Uses(made.h, q) <==>
      q != r && (x in Uses(st.h, q) || (x == f && Tail(st, s)[0] == Rule(q)) || (x == l && Tail(st, s)[1] == Rule(q)))
    ensures f !in Uses(st.h, q) && l !in Uses(st.h, q) && f != l
  {
    hide Sound, Texted, Tail;
    PairedKeys(st, made, s, r, g, f, l);
    if x in st.h.key {
      NoRefs(st, s, r, x);
    }
  }

  ghost function PairUsers(st: State, s: RuleId, f: Ptr, l: Ptr, q: RuleId): set<Ptr>
    requires s in st.body && |st.body[s]| >= 2
  {
    (if Tail(st, s)[0] == Rule(q) then {f} else {}) + (if Tail(st, s)[1] == Rule(q) then {l} else {})
  }

  lemma PairedUses(st: State, made: State, s: RuleId, r: RuleId, g: Ptr, f: Ptr, l: Ptr, q: RuleId)
    requires Paired(st, made, s, r, g, f, l)
    ensures Uses(made.h, q) == if q == r then {} else Uses(st.h, q) + PairUsers(st, s, f, l, q)
    ensures f !in Uses(st.h, q) && l !in Uses(st.h, q) && f != l
  {
    hide Inv, PairMade, Uses, Tail;
    PairedUse(st, made, s, r, g, f, l, q, f);
    forall x ensures x in Uses(made.h, q) <==> x in if q == r then {} else Uses(st.h, q) + PairUsers(st, s, f, l, q) {
      PairedUse(st, made, s, r, g, f, l, q, x);
    }
  }

  lemma PairedKeys(st: State, made: State, s: RuleId, r: RuleId, g: Ptr, f: Ptr, l: Ptr)
    requires Paired(st, made, s, r, g, f, l)
    ensures Tail(st, s)[0] != Rule(r) && Tail(st, s)[1] != Rule(r) && r !in st.h.guard
    ensures r in made.h.guard && made.h.guard[r] == g && f in made.h.key && !Guards(made.h, f) && l in made.h.key
    ensures !Guards(made.h, l)
  {
    hide Sound, Texted;
    Domains(st, s);
    TailLive(st, s);
    MadePlaces(st, made, s, r, g, f, l);
    SymbolInBody(made, s, r, 0);
    SymbolInBody(made, s, r, 1);
  }

  lemma InGuard(st: State, s: RuleId, q: RuleId)
    requires Inv(st, s) && q in st.body
    ensures q in st.h.guard && Sound(st.h, st.body, st.owner, s)
  {
    hide Sound, Texted;
    Domains(st, s);
  }

  lemma HalvedUses(st: State, made: State, half: State, s: RuleId, o: RuleId, i: nat, r: RuleId, g: Ptr, f: Ptr,
                   l: Ptr, z: Ptr, q: RuleId)
    requires Halved(st, made, half, s, o, i, r, g, f, l, z)
    ensures Uses(half.h, q) ==
      if q == r then {z} else Uses(st.h, q) + PairUsers(st, s, f, l, q) - {st.body[o][i], st.body[o][i + 1]}
  {
    hide Inv, Sound, Uses, Tail, PairUsers, PairMade, Replaced;
    PairedUses(st, made, s, r, g, f, l, q);
    MadePlaces(st, made, s, r, g, f, l);
    InGuard(made, s, o);
    ReplacedUses(made, half, s, o, i, r, z, q);
  }

  lemma FactoredUses(st: State, made: State, half: State, mid: State, s: RuleId, o: RuleId, i: nat, r: RuleId,
                     g: Ptr, f: Ptr, l: Ptr, z: Ptr, z': Ptr, q: RuleId)
    requires Factored(st, made, half, mid, s, o, i, r, g, f, l, z, z')
    ensures var n := |st.body[s]|;
      Uses(mid.h, q) == Uses(half.h, q) - {st.body[s][n - 2], st.body[s][n - 1]} + if q == r then {z'} else {}
  {
    hide Inv, Sound, Uses, Tail, Halved, Replaced;
    HalvedParts(st, made, half, s, o, i, r, g, f, l, z);
    FactoredBodies(st, made, half, mid, s, o, i, r, g, f, l, z, z');
    InGuard(half, s, s);
    ReplacedUses(half, mid, s, s, |half.body[s]| - 2, r, z', q);
  }

  lemma FactoredUsesNew(st: State, made: State, half: State, mid: State, s: RuleId, o: RuleId, i: nat, r: RuleId,
                        g: Ptr, f: Ptr, l: Ptr, z: Ptr, z': Ptr)
    requires Factored(st, made, half, mid, s, o, i, r, g, f, l, z, z')
    ensures Uses(mid.h, r) == {z, z'} && z != z'
  {
    hide Inv, Uses, Halved;
    HalvedParts(st, made, half, s, o, i, r, g, f, l, z);
    HalvedTail(st, made, half, s, o, i, r, g, f, l, z);
    FactoredBodies(st, made, half, mid, s, o, i, r, g, f, l, z, z');
    HalvedUses(st, made, half, s, o, i, r, g, f, l, z, r);
    UseKey(half, z, r);
    HalfNotTail(half, s, r, z);
    MadeTail(st, made, s, o, i, r, g, f, l);
    FactoredUses(st, made, half, mid, s, o, i, r, g, f, l, z, z', r);
  }

  lemma UseKey(st: State, x: Ptr, r: RuleId)
    requires x in Uses(st.h, r)
    ensures x in st.h.key && st.h.key[x] == Rule(r)
  {
  }

  lemma MadeTail(st: State, made: State, s: RuleId, o: RuleId, i: nat, r: RuleId, g: Ptr, f: Ptr, l: Ptr)
    requires Paired(st, made, s, r, g, f, l)
    ensures Tail(st, s)[0] != Rule(r) && Tail(st, s)[1] != Rule(r)
  {
    PairedKeys(st, made, s, r, g, f, l);
  }

  /** The symbols at the end refer to other rules. */
  lemma HalfNotTail(half: State, s: RuleId, r: RuleId, z: Ptr)
    requires Inv(half, s) && s in half.body && |half.body[s]| >= 2 && z in half.h.key && half.h.key[z] == Rule(r)
    ensures Tail(half, s)[0] != Rule(r) ==> half.body[s][|half.body[s]| - 2] != z
    ensures Tail(half, s)[1] != Rule(r) ==> half.body[s][|half.body[s]| - 1] != z
  {
  }

  /** The keys of the four symbols that were replaced. */
  lemma RepeatedUses(st: State, s: RuleId, o: RuleId, i: nat, q: RuleId)
    requires Inv(st, s) && Repeated(st, s, o, i)
    ensures Tail(st, s)[0] != Rule(q) ==>
      st.body[o][i] !in Uses(st.h, q) && st.body[s][|st.body[s]| - 2] !in Uses(st.h, q)
    ensures Tail(st, s)[1] != Rule(q) ==>
      st.body[o][i + 1] !in Uses(st.h, q) && st.body[s][|st.body[s]| - 1] !in Uses(st.h, q)
  {
    hide Inv;
    RepeatedKeys(st, s, o, i);
    TailPlaces(st, s);
  }

  lemma NewSymbols(st: State, made: State, s: RuleId, o: RuleId, i: nat, r: RuleId, g: Ptr, f: Ptr, l: Ptr)
    requires Repeated(st, s, o, i) && Paired(st, made, s, r, g, f, l)
    ensures var four := {st.body[o][i], st.body[o][i + 1], st.body[s][|st.body[s]| - 2], st.body[s][|st.body[s]| - 1]};
      f !in four && l !in four && f != l
  {
    hide Sound, Texted;
    Domains(st, s);
    SymbolInBody(st, s, o, i);
    SymbolInBody(st, s, o, i + 1);
    SymbolInBody(st, s, s, |st.body[s]| - 2);
    SymbolInBody(st, s, s, |st.body[s]| - 1);
  }

  lemma FactoredKept(st: State, made: State, half: State, mid: State, s: RuleId, o: RuleId, i: nat, r: RuleId,
                     g: Ptr, f: Ptr, l: Ptr, z: Ptr, z': Ptr, q: RuleId)
    requires Factored(st, made, half, mid, s, o, i, r, g, f, l, z, z') && q != r && Tail(st, s)[0] != Rule(q)
    ensures Uses(st.h, q) - {st.body[o][i + 1]} - {st.body[s][|st.body[s]| - 1]} <= Uses(mid.h, q)
    ensures if Tail(st, s)[1] == Rule(q) then l in Uses(mid.h, q) && l !in Uses(st.h, q)
            else Uses(st.h, q) <= Uses(mid.h, q)
  {
    hide Inv, Uses, Halved, Replaced, Tail;
    HalvedParts(st, made, half, s, o, i, r, g, f, l, z);
    RepeatedUses(st, s, o, i, q);
    NewSymbols(st, made, s, o, i, r, g, f, l);
    HalvedUses(st, made, half, s, o, i, r, g, f, l, z, q);
    FactoredUses(st, made, half, mid, s, o, i, r, g, f, l, z, z', q);
    PairedUses(st, made, s, r, g, f, l, q);
  }

  lemma FactoredUsed(st: State, made: State, half: State, mid: State, s: RuleId, o: RuleId, i: nat, r: RuleId,
                     g: Ptr, f: Ptr, l: Ptr, z: Ptr, z': Ptr, q: RuleId)
    requires Factored(st, made, half, mid, s, o, i, r, g, f, l, z, z') && q != r && Tail(st, s)[0] != Rule(q)
    requires |Uses(st.h, q)| >= 2 && (Tail(st, s)[1] == Rule(q) ==> |Uses(st.h, q)| >= 3)
    ensures |Uses(mid.h, q)| >= 2
  {
    hide Inv, Uses, Replaced, Tail;
    FactoredKept(st, made, half, mid, s, o, i, r, g, f, l, z, z', q);
    if Tail(st, s)[1] == Rule(q) {
      TwoForOne(Uses(st.h, q), Uses(mid.h, q), st.body[o][i + 1], st.body[s][|st.body[s]| - 1], l);
    } else {
      SmallSet(Uses(st.h, q), Uses(mid.h, q));
    }
  }

  lemma TwoForOne(u: set<Ptr>, v: set<Ptr>, x: Ptr, x': Ptr, l: Ptr)
    requires |u| >= 3 && l !in u && l in v && u - {x} - {x'} <= v
    ensures |v| >= 2
  {
    SmallSet(u - {x} - {x'} + {l}, v);
  }

  lemma FactoredReused(st: State, made: State, half: State, mid: State, s: RuleId, o: RuleId, i: nat, r: RuleId,
                       g: Ptr, f: Ptr, l: Ptr, z: Ptr, z': Ptr, debts: set<RuleId>)
    requires Factored(st, made, half, mid, s, o, i, r, g, f, l, z, z') && Reused(st, s, debts) && Owing(st, s, debts)
    ensures Reused(mid, s, debts + FirstRule(st, s))
  {
    hide Inv, Uses, Halved, Tail;
    HalvedParts(st, made, half, s, o, i, r, g, f, l, z);
    FactoredUsesNew(st, made, half, mid, s, o, i, r, g, f, l, z, z');
    FactoredGuards(st, made, half, mid, s, o, i, r, g, f, l, z, z');
    TailPlaces(st, s);
    hide Replaced;
    forall q | q in mid.h.guard && q != s && q !in debts + FirstRule(st, s) ensures |Uses(mid.h, q)| >= 2 {
      if q != r {
        FactoredUsed(st, made, half, mid, s, o, i, r, g, f, l, z, z', q);
      }
    }
  }

  lemma FactoredGuards(st: State, made: State, half: State, mid: State, s: RuleId, o: RuleId, i: nat, r: RuleId,
                       g: Ptr, f: Ptr, l: Ptr, z: Ptr, z': Ptr)
    requires Factored(st, made, half, mid, s, o, i, r, g, f, l, z, z')
    ensures forall q :: q in mid.h.guard ==> q == r || q in st.h.guard
  {
  }

  /** The rule of the first symbol of `r`, if that is its only use, was used by the two digrams only. */
  lemma FactoredReady(st: State, made: State, half: State, mid: State, s: RuleId, o: RuleId, i: nat, r: RuleId,
                      g: Ptr, f: Ptr, l: Ptr, z: Ptr, z': Ptr)
    requires Factored(st, made, half, mid, s, o, i, r, g, f, l, z, z') && SeamsClear(Prod(st), st.text, s, true, 1)
    ensures SeamReady(mid, s, r)
  {
    hide Inv, Uses, Halved, Replaced, SeamsClear, OnlyAt, OnlyTwo, FactorG, Fine, PairT, PairG, HalfG;
    FactoredBodies(st, made, half, mid, s, o, i, r, g, f, l, z, z');
    FirstKey(mid, r);
    var k := Prod(mid)[r][0];
    if k.Rule? && Uses(mid.h, k.r) == {f} {
      FactoredSeam(st, made, half, mid, s, o, i, r, g, f, l, z, z', k.r);
    }
  }

  lemma FirstKey(st: State, r: RuleId)
    requires r in st.body && |st.body[r]| == 2
    ensures r in Prod(st) && |Prod(st)[r]| == 2 && KeysOf(st.body[r], st.h.key)[0] == Prod(st)[r][0]
  {
  }

  lemma FactoredSeam(st: State, made: State, half: State, mid: State, s: RuleId, o: RuleId, i: nat, r: RuleId,
                     g: Ptr, f: Ptr, l: Ptr, z: Ptr, z': Ptr, x: RuleId)
    requires Factored(st, made, half, mid, s, o, i, r, g, f, l, z, z') && SeamsClear(Prod(st), st.text, s, true, 1)
    requires r in Prod(mid) && |Prod(mid)[r]| == 2 && Prod(mid)[r][0] == Rule(x) && Uses(mid.h, x) == {f}
    ensures x in Prod(mid) && x != s && |Prod(mid)[x]| >= 2
    ensures OnlyAt(Prod(mid), Last(Prod(mid), x), Prod(mid)[r][1], x, |Prod(mid)[x]| - 2)
  {
    hide Inv, Uses, Halved, Replaced, SeamsClear, OnlyAt, OnlyTwo, FactorG, Fine, PairT, PairG, HalfG, Prod, Tail;
    HalvedParts(st, made, half, s, o, i, r, g, f, l, z);
    FactoredProd(st, made, half, mid, s, o, i, r, g, f, l, z, z');
    FactorPair(Prod(st), st.text, s, o, i, r);
    FactorShape(Prod(st), s, o, i, r);
    RepeatedKeys(st, s, o, i);
    ProdShape(st, s);
    FactoredOnly(st, made, half, mid, s, o, i, r, g, f, l, z, z', x);
    FactorSeam(Prod(st), st.text, s, o, i, r, x);
  }

  lemma FactoredOnly(st: State, made: State, half: State, mid: State, s: RuleId, o: RuleId, i: nat, r: RuleId,
                     g: Ptr, f: Ptr, l: Ptr, z: Ptr, z': Ptr, x: RuleId)
    requires Factored(st, made, half, mid, s, o, i, r, g, f, l, z, z') && Tail(st, s)[0] == Rule(x)
    requires Uses(mid.h, x) == {f}
    ensures OnlyTwo(Prod(st), x, s, |st.body[s]| - 2, o, i)
  {
    hide Inv, Uses, Halved, Replaced, Tail, OnlyTwo, Prod;
    HalvedParts(st, made, half, s, o, i, r, g, f, l, z);
    MadeTail(st, made, s, o, i, r, g, f, l);
    NewSymbols(st, made, s, o, i, r, g, f, l);
    HalvedUses(st, made, half, s, o, i, r, g, f, l, z, x);
    FactoredUses(st, made, half, mid, s, o, i, r, g, f, l, z, z', x);
    PairedUses(st, made, s, r, g, f, l, x);
    assert Tail(st, s)[1] == Rule(x) ==> l in Uses(mid.h, x);
    RepeatedUses(st, s, o, i, x);
    OnlyTwoUses(st, s, x, s, |st.body[s]| - 2, o, i);
  }

  // ---------------------------------------------------------------------
  // What the factoring leaves
  // ---------------------------------------------------------------------

  /** How the table followed the three steps. */
  ghost predicate TableFollows(st: State, made: State, half: State, mid: State, s: RuleId, o: RuleId, i: nat) {
    && o in made.body && i + 2 <= |made.body[o]| && s in half.body && |half.body[s]| >= 2
    && Steady(st.h.table, made.h.table, {}) && Steady(made.h.table, half.h.table, ReplaceStirs(made, o, i))
    && Steady(half.h.table, mid.h.table, ReplaceStirs(half, s, |half.body[s]| - 2))
  }

  /** The state once the digram of the new rule is recorded there. */
  ghost predicate FirstRecorded(mid: State, end: State, f: Ptr) {
    && end.body == mid.body && end.text == mid.text && HasDigram(mid.h, f)
    && end.h == mid.h.(table := mid.h.table[DigramOf(mid.h, f) := f])
  }

  lemma FactoredSteady(st: State, made: State, half: State, mid: State, end: State, s: RuleId, o: RuleId, i: nat,
                       r: RuleId,
                       g: Ptr, f: Ptr, l: Ptr, z: Ptr, z': Ptr)
    requires Factored(st, made, half, mid, s, o, i, r, g, f, l, z, z') && TableFollows(st, made, half, mid, s, o, i)
    requires FirstRecorded(mid, end, f) && o in Prod(st) && i + 2 <= |Prod(st)[o]|
    requires DigramOf(mid.h, f).0 == Prod(st)[o][i]
    ensures Steady(st.h.table, end.h.table, FactorStirs(Prod(st), o, i))
  {
    hide Inv, Halved, Replaced, Steady, ReplaceStirs, Prod;
    HalvedParts(st, made, half, s, o, i, r, g, f, l, z);
    MadeStirs(st, made, s, o, i, r, g, f, l);
    HalfStirs(st, made, half, s, o, i, r, g, f, l, z);
    var ks := FactorStirs(Prod(st), o, i);
    var d := DigramOf(mid.h, f);
    SteadyMore(st.h.table, made.h.table, {}, ks);
    SteadyMore(half.h.table, mid.h.table, ReplaceStirs(half, s, |half.body[s]| - 2), ks);
    RecordSteady(mid.h.table, d, f);
    SteadyMore(mid.h.table, end.h.table, {d.0}, ks);
    assert ks + ks == ks;
    SteadyTrans(st.h.table, made.h.table, half.h.table, ks, ks);
    SteadyTrans(st.h.table, half.h.table, mid.h.table, ks, ks);
    SteadyTrans(st.h.table, mid.h.table, end.h.table, ks, ks);
  }

  lemma FactoredFirst(st: State, made: State, half: State, mid: State, s: RuleId, o: RuleId, i: nat, r: RuleId,
                      g: Ptr, f: Ptr, l: Ptr, z: Ptr, z': Ptr)
    requires Factored(st, made, half, mid, s, o, i, r, g, f, l, z, z')
    ensures FactorFine(Prod(st), st.text, s, o, i, r) && Prod(mid) == FactorG(Prod(st), s, o, i, r)
    ensures r in Prod(mid) && |Prod(mid)[r]| == 2 && Prod(mid)[r][0] == Prod(st)[o][i] && Pos(mid.h, f)
    ensures DigramOf(mid.h, f) == (Prod(mid)[r][0], Prod(mid)[r][1]) && r in mid.body && mid.body[r] == [f, l]
  {
    hide Inv, Replaced, Halved, Fine, FactorG, PairT;
    FactoredProd(st, made, half, mid, s, o, i, r, g, f, l, z, z');
    FactoredBodies(st, made, half, mid, s, o, i, r, g, f, l, z, z');
    FactorPair(Prod(st), st.text, s, o, i, r);
    AtPos(mid, s, r, 0);
  }

  lemma FactoredNeat(st: State, made: State, half: State, mid: State, end: State, s: RuleId, o: RuleId, i: nat,
                     r: RuleId,
                     g: Ptr, f: Ptr, l: Ptr, z: Ptr, z': Ptr)
    requires Factored(st, made, half, mid, s, o, i, r, g, f, l, z, z') && Neat(mid.h, {f})
    requires NoRepeats(Prod(st), s, true)
    requires FirstRecorded(mid, end, f)
    ensures Neat(end.h, {})
  {
    hide Inv, Replaced, Halved, Fine, FactorG, PairT, NoRepeats, Neat, OnlyAt, Prod;
    FactoredFirst(st, made, half, mid, s, o, i, r, g, f, l, z, z');
    FactorAlone(Prod(st), st.text, s, o, i, r);
    var d := DigramOf(mid.h, f);
    forall w | Pos(mid.h, w) && w !in {f} ensures DigramOf(mid.h, w) != d {
      if DigramOf(mid.h, w) == d { OnlyAtPos(mid, s, d.0, d.1, r, 0, w); }
    }
    RecordAloneNeat(mid.h, {f}, f);
    NeatMore(end.h, {f} - {f}, {});
  }

  lemma FactoredRuns(st: State, made: State, half: State, mid: State, end: State, s: RuleId, o: RuleId, i: nat,
                     r: RuleId,
                     g: Ptr, f: Ptr, l: Ptr, z: Ptr, z': Ptr)
    requires Factored(st, made, half, mid, s, o, i, r, g, f, l, z, z') && TableFollows(st, made, half, mid, s, o, i)
    requires FirstRecorded(mid, end, f) && NoRepeats(Prod(st), s, true)
    requires RunsFirst(Prod(st), st.text, s, st.h.table, st.body[s], |st.body[s]| - 1, 1)
    ensures s in end.body && RunsFirst(Prod(mid), mid.text, s, end.h.table, end.body[s], |end.body[s]|, 1)
  {
    hide Inv, Replaced, Halved, Fine, FactorG, PairT, NoRepeats, RunsFirst, Steady, Prod, TableFollows, PairG, HalfG;
    HalvedParts(st, made, half, s, o, i, r, g, f, l, z);
    FactoredFirst(st, made, half, mid, s, o, i, r, g, f, l, z, z');
    FactoredProd(st, made, half, mid, s, o, i, r, g, f, l, z, z');
    FactoredBodies(st, made, half, mid, s, o, i, r, g, f, l, z, z');
    FactoredSteady(st, made, half, mid, end, s, o, i, r, g, f, l, z, z');
    ProdShape(st, s);
    ProdShape(mid, s);
    forall j: nat | j < |end.body[s]| && !PutIn(Prod(st), s, o, i, s, j) && Back(o, i, s, j) < |st.body[s]|
      ensures end.body[s][j] == st.body[s][Back(o, i, s, j)]
    {
      FactoredPlaces(st, made, half, mid, s, o, i, r, g, f, l, z, z', j);
    }
    FactorRuns(Prod(st), st.text, s, o, i, r, st.h.table, end.h.table, st.body[s], end.body[s]);
  }

  lemma FactoredCalm(st: State, made: State, half: State, mid: State, end: State, s: RuleId, o: RuleId, i: nat,
                     r: RuleId,
                     g: Ptr, f: Ptr, l: Ptr, z: Ptr, z': Ptr)
    requires Factored(st, made, half, mid, s, o, i, r, g, f, l, z, z') && TableFollows(st, made, half, mid, s, o, i)
    requires FirstRecorded(mid, end, f) && Neat(mid.h, {f}) && Waiting(st, s, st.body[s][|st.body[s]| - 2])
    ensures Calm(end, s, 1)
  {
    hide Inv, Replaced, Halved, FactorFine, FactorG, PairT, NoRepeats, RunsFirst, Neat, SeamsClear, Prod, TableFollows;
    HalvedParts(st, made, half, s, o, i, r, g, f, l, z);
    UniqueNoRepeats(st, s, true);
    FactoredProd(st, made, half, mid, s, o, i, r, g, f, l, z, z');
    FactoredNeat(st, made, half, mid, end, s, o, i, r, g, f, l, z, z');
    FactoredRuns(st, made, half, mid, end, s, o, i, r, g, f, l, z, z');
    FactoredClear(st, made, half, mid, s, o, i, r, g, f, l, z, z');
    ProdTable(mid, end);
  }

  lemma FactoredClear(st: State, made: State, half: State, mid: State, s: RuleId, o: RuleId, i: nat, r: RuleId,
                      g: Ptr, f: Ptr, l: Ptr, z: Ptr, z': Ptr)
    requires Factored(st, made, half, mid, s, o, i, r, g, f, l, z, z')
    requires NoRepeats(Prod(st), s, true) && SeamsClear(Prod(st), st.text, s, true, 1)
    ensures SeamsClear(Prod(mid), mid.text, s, false, 1)
  {
    hide Inv, Replaced, Halved, Fine, FactorG, PairT, NoRepeats, SeamsClear, Prod;
    FactoredProd(st, made, half, mid, s, o, i, r, g, f, l, z, z');
    FactorClear(Prod(st), st.text, s, o, i, r);
  }

  lemma FactoredTopped(st: State, made: State, half: State, mid: State, s: RuleId, o: RuleId, i: nat, r: RuleId,
                       g: Ptr, f: Ptr, l: Ptr, z: Ptr, z': Ptr)
    requires Factored(st, made, half, mid, s, o, i, r, g, f, l, z, z')
    ensures Topped(Prod(mid), mid.text, s, r)
    ensures s in st.body && st.body[s] != []
    ensures ShortKept(Prod(st), Prod(mid), mid.text, s, Len(LastKey(st, s), st.text))
  {
    hide Inv, Replaced, Halved, Fine, PairT, Prod, ShortKept, FactorG, PairG, HalfG;
    HalvedParts(st, made, half, s, o, i, r, g, f, l, z);
    FactoredProd(st, made, half, mid, s, o, i, r, g, f, l, z, z');
    TailPlaces(st, s);
    FactorKeepsShort(Prod(st), st.text, s, o, i, r, Len(LastKey(st, s), st.text));
    FactorTopped(Prod(st), st.text, s, o, i, r);
  }

  lemma FactorTopped(g: Productions, t: Texts, s: RuleId, o: RuleId, i: nat, r: RuleId)
    requires FactorFine(g, t, s, o, i, r)
    ensures Topped(FactorG(g, s, o, i, r), PairT(g, t, s, r), s, r)
  {
    hide Fine, FactorG;
    FactorShape(g, s, o, i, r);
    FactorPair(g, t, s, o, i, r);
    FactorWas(g, t, s, o, i, r, s, |FactorG(g, s, o, i, r)[s]| - 1);
  }

  lemma FactoredMatched(st: State, made: State, half: State, mid: State, end: State, s: RuleId, o: RuleId, i: nat,
                        r: RuleId,
                        g: Ptr, f: Ptr, l: Ptr, z: Ptr, z': Ptr, debts: set<RuleId>)
    requires Factored(st, made, half, mid, s, o, i, r, g, f, l, z, z') && TableFollows(st, made, half, mid, s, o, i)
    requires FirstRecorded(mid, end, f) && Neat(mid.h, {f}) && Waiting(st, s, st.body[s][|st.body[s]| - 2])
    requires Reused(st, s, debts) && Owing(st, s, debts)
    ensures Matched(st, end, s, r, debts)
  {
    hide Inv, Replaced, Halved, RunsFirst, Neat, SeamsClear, Prod, TableFollows, Topped, ShortKept, Owing, Calm;
    HalvedParts(st, made, half, s, o, i, r, g, f, l, z);
    FactoredCalm(st, made, half, mid, end, s, o, i, r, g, f, l, z, z');
    FactoredReused(st, made, half, mid, s, o, i, r, g, f, l, z, z', debts);
    FactoredReady(st, made, half, mid, s, o, i, r, g, f, l, z, z');
    FactoredTopped(st, made, half, mid, s, o, i, r, g, f, l, z, z');
    ProdTable(mid, end);
    AsideUses(mid.h, end.h);
  }

  // ---------------------------------------------------------------------
  // The end of a match
  // ---------------------------------------------------------------------

  /** The rule `r` at the end of a match holds the two symbols that were at the end of the start rule. */
  lemma MidPlaces(st: State, mid: State, s: RuleId, r: RuleId)
    requires Inv(st, s) && Inv(mid, s) && s in st.body && |st.body[s]| >= 2 && MidOk(st, mid, s, r)
    ensures r in Prod(mid) && |Prod(mid)[r]| == 2 && Prod(mid)[r] == Tail(st, s) && r in mid.body && r in mid.text
    ensures r != s
    ensures SameTexts(st.text, mid.text)
    ensures Len(Prod(mid)[r][1], mid.text) == Len(LastKey(st, s), st.text) < |mid.text[r]|
    ensures Prod(mid)[r][0].Rule? ==> mid.body[r][0] in Uses(mid.h, Prod(mid)[r][0].r)
  {
    hide Inv, Survives, Fine;
    SurvivesTexts(st, mid, s, TailLength(st, s));
    ProdFine(mid, s);
    FineAt(Prod(mid), mid.text, s, r, 1);
    InvDomains(mid, s);
    TailPlaces(st, s);
    TailLive(st, s);
    LenSame(Tail(st, s)[1], st.text, mid.text);
    if Prod(mid)[r][0].Rule? { PlaceUse(mid, s, Prod(mid)[r][0].r, r, 0); }
  }

  lemma MatchAtop(st: State, mid: State, s: RuleId, r: RuleId)
    requires Inv(st, s) && Inv(mid, s) && s in st.body && |st.body[s]| >= 2 && MidOk(st, mid, s, r)
    requires Topped(Prod(mid), mid.text, s, r)
    ensures Atop(st, mid, s)
  {
    hide Inv, MidOk, SameTexts, Tail;
    MidPlaces(st, mid, s, r);
    StartShape(mid, s);
  }

  lemma StartShape(st: State, s: RuleId)
    requires s in Prod(st)
    ensures s in st.body && |Prod(st)[s]| == |st.body[s]|
    ensures st.body[s] != [] ==> LastKey(st, s) == Prod(st)[s][|st.body[s]| - 1]
  {
  }

  /** No rule is left a use short. */
  lemma MatchKept(st: State, mid: State, s: RuleId, r: RuleId, debts: set<RuleId>)
    requires Inv(st, s) && Inv(mid, s) && s in st.body && |st.body[s]| >= 2 && MidOk(st, mid, s, r)
    requires Matched(st, mid, s, r, debts)
    requires r in mid.body && |mid.body[r]| == 2 && mid.body[r][0] in mid.h.key
    requires var k := mid.h.key[mid.body[r][0]]; k.Rule? ==> k.r in mid.h.count && mid.h.count[k.r] != 1
    ensures Settled(st, mid, s, debts)
  {
    hide Inv, MidOk, Calm, ShortKept, Topped, SeamReady, Uses;
    MidPlaces(st, mid, s, r);
    MatchAtop(st, mid, s, r);
    forall q | q in mid.h.guard && q != s && q !in debts ensures |Uses(mid.h, q)| >= 2 {
      if q in FirstRule(st, s) {
        InvSound(mid, s);
        CountIsUses(mid, s, q);
      }
    }
  }

  lemma SpliceSingle(mid: State, s: RuleId, r: RuleId, a: RuleId)
    requires Inv(mid, s) && Expandable(mid.h, mid.body, r, a) && |mid.body[r]| == 2 && r != s && a != s
    ensures Single(Prod(mid), s, r, a)
  {
    hide Sound, Texted, Uses;
    Domains(mid, s);
    var g := Prod(mid);
    forall u, k: nat | Refers(g, a, u, k) ensures u == r && k == 0 {
      PlaceUse(mid, s, a, u, k);
      SamePlace(mid, s, u, k, r, 0);
    }
  }

  /** Rule `a`, used only at the front of `r`, has been inlined there. */
  ghost predicate Inlining(mid: State, st': State, s: RuleId, r: RuleId, a: RuleId) {
    && Inv(mid, s) && Inv(st', s) && Spliced(mid, st', r, a) && r != s && a != s && |mid.body[r]| == 2
    && Followed(mid.h, SpotOf(mid.h, mid.body, r, a), st'.h.table)
    && RecordedAt(st'.h, mid.body[a][|mid.body[a]| - 1])
  }

  /** The digram across the seam occurs at most in rule `a`, just before the seam. */
  lemma InliningSeam(mid: State, st': State, s: RuleId, r: RuleId, a: RuleId)
    requires Inlining(mid, st', s, r, a) && SeamReady(mid, s, r)
    ensures SpotOk(mid.h, SpotOf(mid.h, mid.body, r, a)) && SeamFree(mid.h, SpotOf(mid.h, mid.body, r, a))
  {
    hide Sound, Texted, Inlined, Followed, RecordedAt, Uses, SpotOk, OnlyAt, Prod;
    var t := SpotOf(mid.h, mid.body, r, a);
    SpotHolds(mid.h, mid.body, mid.owner, s, r, a);
    SpotReach(mid.h, t);
    ReadyFacts(mid, s, r, a);
    InliningKeys(mid, s, r, a);
    forall w | Pos(mid.h, w) && DigramOf(mid.h, w) == (mid.h.key[t.e], mid.h.key[t.right])
      ensures t.e in mid.h.p && w == mid.h.p[t.e]
    {
      OnlyAtPos(mid, s, mid.h.key[t.e], mid.h.key[t.right], a, |mid.body[a]| - 2, w);
    }
  }

  lemma SpotReach(h: Heap, t: Spot)
    requires SpotOk(h, t)
    ensures t.Within(h)
  {
  }

  lemma InliningKeys(mid: State, s: RuleId, r: RuleId, a: RuleId)
    requires Inv(mid, s) && Expandable(mid.h, mid.body, r, a) && |mid.body[r]| == 2
    ensures var t, g := SpotOf(mid.h, mid.body, r, a), Prod(mid);
      && r in g && a in g && |g[r]| == 2 && |g[a]| == |mid.body[a]| && t.e in mid.h.key && t.right in mid.h.key
      && t.f in mid.h.key
      && mid.h.key[t.e] == Last(g, a) && mid.h.key[t.right] == g[r][1] && mid.h.key[t.f] == g[a][0]
      && t.e in mid.h.p && mid.h.p[t.e] == mid.body[a][|mid.body[a]| - 2]
  {
    hide Sound, Texted, Uses;
    Domains(mid, s);
    var n := |mid.body[a]|;
    SymbolInBody(mid, s, a, n - 1);
    SymbolInBody(mid, s, a, 0);
    SymbolInBody(mid, s, r, 1);
    CircleStep(mid, s, a, n - 1);
    assert Circle(mid.h, mid.body, a)[n - 1] == mid.body[a][n - 2];
    assert Circle(mid.h, mid.body, a)[n] == mid.body[a][n - 1];
  }

  lemma InliningNeat(mid: State, st': State, s: RuleId, r: RuleId, a: RuleId)
    requires Inlining(mid, st', s, r, a) && SeamReady(mid, s, r) && Neat(mid.h, {})
    ensures Neat(st'.h, {})
  {
    hide Inv, Inlined, Followed, RecordedAt, Uses, SpotOk, SeamFree, Neat, SeamReady;
    InliningSeam(mid, st', s, r, a);
    InlinedNeat(mid.h, SpotOf(mid.h, mid.body, r, a), st'.h);
  }

  lemma InliningLight(mid: State, st': State, s: RuleId, r: RuleId, a: RuleId)
    requires Inlining(mid, st', s, r, a)
    ensures r in mid.text && var t := SpotOf(mid.h, mid.body, r, a);
      && t.Within(mid.h) && Light(SpotStirs(mid.h, t), mid.text, |mid.text[r]|)
      && Steady(mid.h.table, st'.h.table, SpotStirs(mid.h, t))
  {
    hide Inv, Inlined, RecordedAt, Uses, Steady, Fine, Remembers;
    var g := Prod(mid);
    ProdFine(mid, s);
    InliningKeys(mid, s, r, a);
    SpliceSingle(mid, s, r, a);
    SpliceLens(g, mid.text, s, r, a);
    FineAt(g, mid.text, s, r, 0);
    FineAt(g, mid.text, s, a, 0);
    FineAt(g, mid.text, s, a, |g[a]| - 1);
    InvDomains(mid, s);
    assert |mid.text[r]| > 1;
  }

  lemma InliningCalm(mid: State, st': State, s: RuleId, r: RuleId, a: RuleId)
    requires Inlining(mid, st', s, r, a) && SeamReady(mid, s, r) && Calm(mid, s, 1) && Topped(Prod(mid), mid.text, s, r)
    ensures Calm(st', s, 1)
  {
    hide Inv, Inlined, Followed, RecordedAt, Neat, SeamsClear, RunsFirst, SeamReady, Topped, Fine, Single, Light;
    hide Steady, Uses, Prod, SpliceG;
    InliningNeat(mid, st', s, r, a);
    InliningShape(mid, st', s, r, a);
    SpliceClear(Prod(mid), mid.text, s, r, a);
    InliningLight(mid, st', s, r, a);
    SpliceRuns(Prod(mid), mid.text, s, r, a, mid.h.table, st'.h.table, mid.body[s],
               SpotStirs(mid.h, SpotOf(mid.h, mid.body, r, a)));
  }

  lemma InliningShape(mid: State, st': State, s: RuleId, r: RuleId, a: RuleId)
    requires Inlining(mid, st', s, r, a)
    ensures Single(Prod(mid), s, r, a) && Fine(Prod(mid), mid.text, s)
    ensures Prod(st') == SpliceG(Prod(mid), r, a) && st'.text == mid.text - {a} && s in mid.body && s in st'.body
    ensures st'.body[s] == mid.body[s]
    ensures s in Prod(mid) && |Prod(mid)[s]| == |mid.body[s]|
  {
    hide Inv, Inlined, Followed, RecordedAt, Fine, Single, Uses, SpliceG;
    ProdFine(mid, s);
    SpliceSingle(mid, s, r, a);
    ProdSpliced(mid, st', s, r, a);
  }

  lemma InliningReused(st: State, mid: State, st': State, s: RuleId, r: RuleId, a: RuleId, debts: set<RuleId>)
    requires Inlining(mid, st', s, r, a) && Reused(mid, s, debts + {a})
    ensures Reused(st', s, debts)
  {
    hide Sound, Texted, Followed, RecordedAt, Uses;
    var t := SpotOf(mid.h, mid.body, r, a);
    SpotKeysHold(mid.h, mid.body, mid.owner, s, r, a);
    forall q | q in st'.h.guard && q != s && q !in debts ensures |Uses(st'.h, q)| >= 2 {
      InlinedUses(mid.h, t, st'.h, q);
    }
  }

  lemma InliningAtop(st: State, mid: State, st': State, s: RuleId, r: RuleId, a: RuleId)
    requires Inlining(mid, st', s, r, a) && s in st.body && st.body[s] != [] && Topped(Prod(mid), mid.text, s, r)
    requires Len(Prod(mid)[r][1], mid.text) == Len(LastKey(st, s), st.text)
    ensures Atop(st, st', s)
  {
    hide Inv, Inlined, Followed, RecordedAt, Fine, Uses, Len;
    InliningShape(mid, st', s, r, a);
    SpliceLens(Prod(mid), mid.text, s, r, a);
    SpliceTopped(Prod(mid), mid.text, s, r, a);
    StartShape(st', s);
  }

  lemma SpliceTopped(g: Productions, t: Texts, s: RuleId, r: RuleId, a: RuleId)
    requires Fine(g, t, s) && Single(g, s, r, a) && Topped(g, t, s, r)
    ensures var g' := SpliceG(g, r, a);
      && s in g' && g'[s] == g[s] && g[s] != []
      && var k := g[s][|g[s]| - 1];
      && k.Rule? && k.r in g' && |g'[k.r]| >= 2 && Len(Last(g', k.r), t - {a}) >= Len(g[r][1], t)
  {
    hide Fine, Len;
    var z := g[s][|g[s]| - 1].r;
    SpliceLens(g, t, s, r, a);
    var again := Refers(g, a, s, |g[s]| - 1);
    assert z != a;
    SpliceWas(g, s, r, a, z, |SpliceG(g, r, a)[z]| - 1);
    SpliceLen(t, a, Last(SpliceG(g, r, a), z));
  }

  lemma MatchInlined(st: State, mid: State, st': State, s: RuleId, r: RuleId, a: RuleId, debts: set<RuleId>)
    requires Inv(st, s) && s in st.body && |st.body[s]| >= 2 && MidOk(st, mid, s, r) && Matched(st, mid, s, r, debts)
    requires Inlining(mid, st', s, r, a)
    ensures Settled(st, st', s, debts)
  {
    hide Inv, MidOk, Calm, ShortKept, Topped, SeamReady, Uses, Spliced, Followed, RecordedAt, SpliceG, Prod, Fine;
    MidPlaces(st, mid, s, r);
    InliningCalm(mid, st', s, r, a);
    InliningShape(mid, st', s, r, a);
    assert FirstRule(st, s) == {a};
    InliningReused(st, mid, st', s, r, a, debts);
    InliningAtop(st, mid, st', s, r, a);
    InliningShort(st, mid, st', s, r, a, Len(LastKey(st, s), st.text));
  }

  lemma InliningShort(st: State, mid: State, st': State, s: RuleId, r: RuleId, a: RuleId, b: nat)
    requires Inlining(mid, st', s, r, a) && ShortKept(Prod(st), Prod(mid), mid.text, s, b) && r in Prod(mid)
    requires |Prod(mid)[r]| == 2
    requires b == Len(Prod(mid)[r][1], mid.text)
    ensures ShortKept(Prod(st), Prod(st'), st'.text, s, b)
  {
    hide Inv, Spliced, Followed, RecordedAt, ShortKept, Prod, Fine, SpliceG, Len;
    InliningShape(mid, st', s, r, a);
    SpliceKeepsShort(Prod(mid), mid.text, s, r, a, b);
    InvDomains(mid, s);
    FineProper(Prod(mid), mid.text, s);
    SpliceKeys(Prod(mid), r, a);
    ShortKeptTrans(Prod(st), Prod(mid), Prod(st'), mid.text, st'.text, s, b);
  }

  lemma FineProper(g: Productions, t: Texts, s: RuleId)
    requires Fine(g, t, s)
    ensures Proper(g, s)
  {
  }

  lemma SpliceKeys(g: Productions, r: RuleId, a: RuleId)
    requires r in g && a in g && |g[r]| >= 1
    ensures SpliceG(g, r, a).Keys <= g.Keys
  {
  }

  // ---------------------------------------------------------------------
  // The steps of `substitute` and `check`
  // ---------------------------------------------------------------------

  /** Which use of the rule is put in: the first or the second of a new rule, or one more. */
  datatype Use = FirstUse | SecondUse | FurtherUse

  lemma SettledSame(st: State, s: RuleId, debts: set<RuleId>)
    requires Calm(st, s, 1) && Reused(st, s, debts) && s in st.body && st.body[s] != []
    ensures Settled(st, st, s, debts)
  {
    hide Calm, Reused, ShortKept;
    ShortKeptSame(Prod(st), st.text, s, Len(LastKey(st, s), st.text));
  }

  /** The check of a digram that is not in the table, or of none. */
  lemma CheckedNeat(h: Heap, h': Heap, x: Ptr, e: set<Ptr>)
    requires Neat(h, e) && HasDigram(h, x) && (Ends(h, x) || DigramOf(h, x) !in h.table)
    requires h' == h.(table := if Ends(h, x) then h.table else h.table[DigramOf(h, x) := x])
    ensures Neat(h', e - {x}) && Steady(h.table, h'.table, {})
  {
    hide Neat;
    if Ends(h, x) { NoPosNeat(h, e, x); } else { RecordNeat(h, e, x); }
  }

  /** Both new digrams are recorded, or are none. */
  lemma SubstitutedNeat(st: State, mid: State, next: State, end: State, o: RuleId, i: nat, q: Ptr, z: Ptr, e: set<Ptr>)
    requires o in st.body && i + 2 <= |st.body[o]| && Yielded(st, mid, o, i, q, z, e)
    requires Neat(next.h, e - {st.body[o][i], st.body[o][i + 1]} + {q, z} - {q})
    requires Steady(mid.h.table, next.h.table, {})
    requires Neat(end.h, e - {st.body[o][i], st.body[o][i + 1]} + {q, z} - {q} - {z})
    requires Steady(next.h.table, end.h.table, {})
    requires TableAside(mid.h, end.h)
    ensures Neat(end.h, e - {st.body[o][i], st.body[o][i + 1]})
    ensures Steady(st.h.table, end.h.table, ReplaceStirs(st, o, i))
    ensures Rewired(st.h, end.h, st.body[o][i], st.body[o][i + 1], q, z)
  {
    hide Neat, Steady, ReplaceStirs;
    var x, x' := st.body[o][i], st.body[o][i + 1];
    NeatMore(end.h, e - {x, x'} + {q, z} - {q} - {z}, e - {x, x'});
    var ks := ReplaceStirs(st, o, i);
    SteadyTrans(st.h.table, mid.h.table, next.h.table, ks, {});
    SteadyTrans(st.h.table, next.h.table, end.h.table, ks + {}, {});
    assert ks + {} + {} == ks;
    RewiredAside(st.h, mid.h, end.h, x, x', q, z);
  }

  lemma RewiredAside(h: Heap, m: Heap, h': Heap, x: Ptr, x': Ptr, q: Ptr, z: Ptr)
    requires Rewired(h, m, x, x', q, z) && TableAside(m, h')
    ensures Rewired(h, h', x, x', q, z)
  {
    forall w | Pos(h', w) && w != q && w != z
      ensures w != x && w != x' && Pos(h, w) && h.n[w] == h'.n[w] && DigramOf(h, w) == DigramOf(h', w)
    {
      assert Pos(m, w);
    }
  }

  lemma ReuseYields(st: State, s: RuleId, x: Ptr)
    requires Inv(st, s) && AtEnd(st, s, x) && Waiting(st, s, x) && Unrecorded(st.h, x)
    ensures Yields(st, s, |st.body[s]| - 2, {x})
  {
    hide Inv, Sound, Neat, SeamsClear, RunsFirst, Unrecorded, Prod;
    var n := |st.body[s]|;
    InGuard(st, s, s);
    OtherPlace(st, s, s, n - 2, s, n - 2);
    OtherPlace(st, s, s, n, s, n - 2);
    assert Circle(st.h, st.body, s)[n] == st.body[s][n - 1];
  }

  lemma FoundAgain(st: State, mid: State, st': State, s: RuleId, r: RuleId, q: Ptr, z: Ptr, debts: set<RuleId>)
    requires Reuses(st, mid, s, r, q, z) && Inv(st', s) && AtEnd(mid, s, q) && r in mid.body && |mid.body[r]| == 2
    requires Survives(mid, st', s, TailLength(mid, s)) && LastLives(mid, st', s)
    requires Settled(mid, st', s, NewDebts(mid, r, debts))
    ensures ReuseAgain(mid, st', s, r, debts)
  {
    hide Sound, Texted, Survives, Settled, Yielded, Replaced, Uses;
    ReuseShape(st, mid, s, r, z);
    TailPlaces(mid, s);
    Domains(mid, s);
    Domains(st', s);
    TailKeys(mid, s, q);
    TailFits(mid, s, q);
    SurvivesWeaker(mid, st', s, TailLength(mid, s), |mid.text[r]| + 1);
  }

  lemma AppendReused(st: State, mid: State, s: RuleId, y: Ptr, c: int)
    requires Inv(st, s) && Inv(mid, s) && Appended(st, mid, s, y, c) && Reused(st, s, {})
    ensures Reused(mid, s, {}) && Owing(mid, s, {})
  {
    hide Sound, Texted;
    forall r ensures Uses(mid.h, r) == Uses(st.h, r) {
      AppendUses(st, mid, s, y, c, r);
    }
  }

  lemma AppendUses(st: State, mid: State, s: RuleId, y: Ptr, c: int, r: RuleId)
    requires Appended(st, mid, s, y, c)
    ensures Uses(mid.h, r) == Uses(st.h, r)
  {
  }

  lemma ReusedAside(st: State, st': State, s: RuleId, debts: set<RuleId>)
    requires Reused(st, s, debts) && TableAside(st.h, st'.h)
    ensures Reused(st', s, debts)
  {
    AsideUses(st.h, st'.h);
  }

  lemma WaitingNeat(st: State, s: RuleId, x: Ptr)
    requires Waiting(st, s, x)
    ensures Neat(st.h, {x})
  {
  }

  /** What the substitution of a use of a new rule leaves. */
  ghost predicate Substituted(st: State, st': State, o: RuleId, i: nat, r: RuleId, q: Ptr, z: Ptr, e: set<Ptr>)
    requires o in st.body && i + 2 <= |st.body[o]|
  {
    && o in st.h.guard && q == Circle(st.h, st.body, o)[i]
    && Neat(st'.h, e - {st.body[o][i], st.body[o][i + 1]}) && Steady(st.h.table, st'.h.table, ReplaceStirs(st, o, i))
    && Rewired(st.h, st'.h, st.body[o][i], st.body[o][i + 1], q, z)
    && q in st'.h.n && st'.h.n[q] == z && z in st'.h.key && st'.h.key[z] == Rule(r)
  }

  lemma SecondReady(st: State, made: State, half: State, s: RuleId, o: RuleId, i: nat, r: RuleId, g: Ptr, f: Ptr,
                    l: Ptr, z: Ptr, q: Ptr)
    requires Halved(st, made, half, s, o, i, r, g, f, l, z) && o in made.body && i + 2 <= |made.body[o]|
    requires Neat(st.h, {st.body[s][|st.body[s]| - 2]}) && Neat(made.h, {st.body[s][|st.body[s]| - 2], f})
    requires Substituted(made, half, o, i, r, q, z, {st.body[s][|st.body[s]| - 2], f})
    ensures s in half.body && |half.body[s]| >= 2
    ensures Yields(half, s, |half.body[s]| - 2, {st.body[s][|st.body[s]| - 2], f})
    ensures NewAtEnd(half, s, r)
  {
    hide Inv, Neat, Steady, Rewired, Replaced, PairMade, Yields, NewAtEnd, ReplaceStirs, Absent;
    var e := {st.body[s][|st.body[s]| - 2], f};
    MadePlaces(st, made, s, r, g, f, l);
    NeatMore(half.h, e - {st.body[o][i], st.body[o][i + 1]}, e);
    HalfAbsent(st, made, half, s, o, i, r, g, f, l, z, q);
    HalfYields(st, made, half, s, o, i, r, g, f, l, z);
    HalfNewAtEnd(st, made, half, s, o, i, r, g, f, l, z);
  }

  /** A new rule has been made and put in for the first occurrence, with all that is known of the steps. */
  ghost predicate OneUseMade(st: State, made: State, half: State, s: RuleId, o: RuleId, i: nat, r: RuleId,
                             g: Ptr, f: Ptr, l: Ptr, q: Ptr, z: Ptr) {
    && Halved(st, made, half, s, o, i, r, g, f, l, z) && o in made.body && i + 2 <= |made.body[o]|
    && Steady(st.h.table, made.h.table, {}) && Substituted(made, half, o, i, r, q, z, {st.body[s][|st.body[s]| - 2], f})
    && Replaceable(made, s, o, i, r) && Survives(st, made, s, TailLength(st, s))
    && KeysOf(made.body[o], made.h.key)[i..i + 2] == Tail(st, s)
    && r in made.text && |made.text[r]| == TailLength(st, s) && half.text == made.text
  }

  /** The end of the start rule can now be replaced too. */
  ghost predicate SecondDue(st: State, half: State, s: RuleId, r: RuleId, f: Ptr) {
    && s in st.body && |st.body[s]| >= 2 && s in half.body && 2 <= |half.body[s]| <= |st.body[s]|
    && half.body[s][|half.body[s]| - 2] == st.body[s][|st.body[s]| - 2]
    && UsedBut(half, s, r) && Replaceable(half, s, s, |half.body[s]| - 2, r) && NewAtEnd(half, s, r)
    && Yields(half, s, |half.body[s]| - 2, {st.body[s][|st.body[s]| - 2], f})
  }

  lemma FirstDone(st: State, made: State, half: State, s: RuleId, o: RuleId, i: nat, r: RuleId, g: Ptr, f: Ptr,
                  l: Ptr, q: Ptr, z: Ptr)
    requires OneUseMade(st, made, half, s, o, i, r, g, f, l, q, z) && Used(half, s)
    requires Neat(st.h, {st.body[s][|st.body[s]| - 2]}) && Neat(made.h, {st.body[s][|st.body[s]| - 2], f})
    requires s in made.body && made.body[s] == st.body[s] && Tail(made, s) == Tail(st, s)
    ensures SecondDue(st, half, s, r, f)
  {
    hide Inv, Neat, Steady, Replaced, PairMade, Yields, NewAtEnd, Used, UsedBut, Survives, Substituted, Replaceable;
    hide TailLength;
    HalvedParts(st, made, half, s, o, i, r, g, f, l, z);
    FactorHalf(made, half, s, o, i, r, z);
    SecondReady(st, made, half, s, o, i, r, g, f, l, z, q);
  }

  /** The two substitutions of a new rule. */
  ghost predicate TwoUsesMade(st: State, made: State, half: State, mid: State, s: RuleId, o: RuleId, i: nat, r: RuleId,
                              g: Ptr, f: Ptr, l: Ptr, q: Ptr, z: Ptr, q': Ptr, z': Ptr) {
    && OneUseMade(st, made, half, s, o, i, r, g, f, l, q, z)
    && Inv(mid, s) && s in half.body && |half.body[s]| >= 2 && Replaced(half, mid, s, |half.body[s]| - 2, r, z')
    && Substituted(half, mid, s, |half.body[s]| - 2, r, q', z', {st.body[s][|st.body[s]| - 2], f})
  }

  lemma FactorLaws(st: State, made: State, half: State, mid: State, end: State, s: RuleId, o: RuleId, i: nat, r: RuleId,
                   g: Ptr, f: Ptr, l: Ptr, q: Ptr, z: Ptr, q': Ptr, z': Ptr, debts: set<RuleId>)
    requires TwoUsesMade(st, made, half, mid, s, o, i, r, g, f, l, q, z, q', z')
    requires r in mid.body && mid.body[r] != [] && FirstRecorded(mid, end, mid.body[r][0])
    requires Waiting(st, s, st.body[s][|st.body[s]| - 2]) && Reused(st, s, debts) && Owing(st, s, debts)
    ensures Matched(st, end, s, r, debts)
  {
    hide Inv, Neat, Steady, Rewired, Replaced, Halved, ReplaceStirs, Waiting, Reused, Owing, Matched;
    HalvedParts(st, made, half, s, o, i, r, g, f, l, z);
    FactoredBodies(st, made, half, mid, s, o, i, r, g, f, l, z, z');
    var n := |half.body[s]|;
    NeatMore(mid.h, {st.body[s][|st.body[s]| - 2], f} - {half.body[s][n - 2], half.body[s][n - 1]}, {f});
    FactoredMatched(st, made, half, mid, end, s, o, i, r, g, f, l, z, z', debts);
  }

  lemma FactorEnd(st: State, made: State, half: State, mid: State, s: RuleId, o: RuleId, i: nat, r: RuleId,
                  g: Ptr, f: Ptr, l: Ptr, q: Ptr, z: Ptr, q': Ptr, z': Ptr, debts: set<RuleId>)
    requires TwoUsesMade(st, made, half, mid, s, o, i, r, g, f, l, q, z, q', z') && Used(mid, s)
    requires r in mid.h.guard && r in half.text && Survives(half, mid, s, |half.text[r]| + 1)
    requires Waiting(st, s, st.body[s][|st.body[s]| - 2]) && Reused(st, s, debts) && Owing(st, s, debts)
    ensures mid.h.guard[r] in mid.h.n
    ensures var x := mid.h.n[mid.h.guard[r]];
      && HasDigram(mid.h, x) && !Guards(mid.h, x) && !Guards(mid.h, mid.h.n[x])
      && var end := mid.(h := mid.h.(table := mid.h.table[DigramOf(mid.h, x) := x]));
      Inv(end, s) && Used(end, s) && MidOk(st, end, s, r) && Matched(st, end, s, r, debts)
  {
    hide Inv, Neat, Steady, Rewired, Replaced, Halved, ReplaceStirs, Waiting, Reused, Owing, Matched, Substituted;
    hide Used, MidOk, Survives, TailLength, Replaceable;
    HalvedParts(st, made, half, s, o, i, r, g, f, l, z);
    TailLive(st, s);
    InvDomains(st, s);
    assert Tail(st, s) == [Tail(st, s)[0], Tail(st, s)[1]];
    HalvedSteps(st, made, half, s, o, i, r, g, f, l, z);
    FactorLengths(st, made, half, s, o, i, r, g, f, l, Tail(st, s)[0], Tail(st, s)[1], z);
    FactorDone(st, made, half, mid, s, o, i, r, z, TailLength(st, s));
    RecordFirst(st, mid, s, r);
    MidFacts(st, mid, s, r);
    var x := mid.body[r][0];
    var end := mid.(h := mid.h.(table := mid.h.table[DigramOf(mid.h, x) := x]));
    FactorLaws(st, made, half, mid, end, s, o, i, r, g, f, l, q, z, q', z', debts);
  }

  lemma HalvedSteps(st: State, made: State, half: State, s: RuleId, o: RuleId, i: nat, r: RuleId, g: Ptr, f: Ptr,
                    l: Ptr, z: Ptr)
    requires Halved(st, made, half, s, o, i, r, g, f, l, z)
    ensures Replaced(made, half, o, i, r, z) && PairMade(st, made, r, g, f, l, Tail(st, s)[0], Tail(st, s)[1])
  {
  }

  /** The relinking of `substitute` as seen by the laws. */
  ghost predicate Relinked(st: State, mid: State, s: RuleId, o: RuleId, i: nat, r: RuleId, q: Ptr, z: Ptr,
                           e: set<Ptr>) {
    && Inv(st, s) && Inv(mid, s) && s in st.body && s in mid.body && o in st.h.guard && o in st.body
    && i + 2 <= |st.body[o]|
    && Replaced(st, mid, o, i, r, z) && Yielded(st, mid, o, i, q, z, e) && Unrecorded(mid.h, q)
    && o in mid.h.guard && o in mid.body && i < |mid.body[o]| && Circle(mid.h, mid.body, o)[i] == q
    && HasDigram(mid.h, q)
  }

  lemma RelinkedFrom(st: State, mid: State, s: RuleId, o: RuleId, i: nat, r: RuleId, q: Ptr, z: Ptr, e: set<Ptr>)
    requires Relinked(st, mid, s, o, i, r, q, z, e)
    ensures q == Circle(st.h, st.body, o)[i] && mid.body[o][i] == z && mid.h.guard == st.h.guard
    ensures z in mid.h.key && mid.h.key[z] == Rule(r) && (o == s ==> |mid.body[s]| == |st.body[s]| - 1)
  {
    hide Inv, Yielded;
    var c, c' := Circle(st.h, st.body, o), Circle(mid.h, mid.body, o);
    assert mid.body[o] == st.body[o][..i] + [z] + st.body[o][i + 2..];
  }

  /** What the check of the first new digram may rely on. */
  lemma SubstituteOwes(st: State, mid: State, s: RuleId, o: RuleId, i: nat, r: RuleId, q: Ptr, z: Ptr, use: Use,
                       e: set<Ptr>,
                       debts: set<RuleId>) returns (owed: set<RuleId>)
    requires Relinked(st, mid, s, o, i, r, q, z, e)
    requires use == FirstUse ==> DigramOf(mid.h, q) !in mid.h.table
    requires use != FirstUse ==> o == s && i + 2 == |st.body[s]|
    requires use == SecondUse ==> NewAtEnd(st, s, r)
    requires use == FurtherUse ==>
      Reusing(st, s, r) && e == {st.body[s][|st.body[s]| - 2]} && Waiting(st, s, st.body[s][|st.body[s]| - 2])
    requires use == FurtherUse ==> Reused(st, s, debts) && Owing(st, s, debts)
    ensures use != FurtherUse ==> Ends(mid.h, q) || DigramOf(mid.h, q) !in mid.h.table
    ensures use == FurtherUse ==>
      && Reuses(st, mid, s, r, q, z) && r in mid.body && |mid.body[r]| == 2 && owed == NewDebts(mid, r, debts)
      && Waiting(mid, s, q) && Reused(mid, s, owed) && Owing(mid, s, owed)
  {
    hide Inv, Yielded, Replaced, Unrecorded, Waiting, Reused, Owing, NewAtEnd, Ends;
    owed := debts;
    RelinkedFrom(st, mid, s, o, i, r, q, z, e);
    if use == SecondUse {
      NewAtEndFresh(st, mid, s, r, q, z);
    } else if use == FurtherUse {
      ReuseWaits(st, mid, s, r, q, z, debts);
      ReuseOwes(st, mid, s, r, q, z, debts);
      owed := NewDebts(mid, r, debts);
    }
  }

  /** A check that found nothing. */
  ghost predicate Unfound(st: State, st': State, x: Ptr) {
    && HasDigram(st.h, x) && (Ends(st.h, x) || DigramOf(st.h, x) !in st.h.table)
    && st'.body == st.body && st'.owner == st.owner && st'.text == st.text
    && st'.h == st.h.(table := if Ends(st.h, x) then st.h.table else st.h.table[DigramOf(st.h, x) := x])
  }

  lemma UnfoundCalm(st: State, st': State, s: RuleId, x: Ptr)
    requires Inv(st, s) && Waiting(st, s, x) && Unfound(st, st', x)
    ensures Calm(st', s, 1)
  {
    hide Inv, Neat, SeamsClear, RunsFirst, Prod, Calm;
    if Ends(st.h, x) {
      assert st' == st;
      CloseEnds(st, s, x);
    } else {
      assert Pos(st.h, x);
      CloseNew(st, st', s, x);
    }
  }

  lemma UnfoundAside(st: State, mid: State, st': State, x: Ptr, y: Ptr)
    requires Unfound(st, mid, x) && Unfound(mid, st', y)
    ensures TableAside(st.h, st'.h) && st'.body == st.body && st'.text == st.text
  {
  }

  lemma SubstituteCalm(st: State, mid: State, next: State, end: State, s: RuleId, o: RuleId, i: nat, r: RuleId,
                       q: Ptr, z: Ptr, e: set<Ptr>)
    requires Relinked(st, mid, s, o, i, r, q, z, e) && q in mid.h.n && mid.h.n[q] == z
    requires Unfound(mid, next, q) && Unfound(next, end, z)
    ensures Substituted(st, end, o, i, r, q, z, e)
  {
    hide Inv, Neat, Steady, ReplaceStirs, Rewired, Unrecorded, Unfound, Replaced, Ends;
    RelinkedFrom(st, mid, s, o, i, r, q, z, e);
    UnfoundAside(mid, next, end, q, z);
    var x, x' := st.body[o][i], st.body[o][i + 1];
    UnfoundNeat(mid, next, q, e - {x, x'} + {q, z});
    UnfoundNeat(next, end, z, e - {x, x'} + {q, z} - {q});
    SubstitutedNeat(st, mid, next, end, o, i, q, z, e);
  }

  lemma UnfoundNeat(st: State, st': State, x: Ptr, e: set<Ptr>)
    requires Unfound(st, st', x) && Neat(st.h, e)
    ensures Neat(st'.h, e - {x}) && Steady(st.h.table, st'.h.table, {})
  {
    CheckedNeat(st.h, st'.h, x, e);
  }

  lemma SubstituteEnd(st: State, mid: State, next: State, end: State, s: RuleId, o: RuleId, i: nat, r: RuleId,
                      q: Ptr, z: Ptr,
                      use: Use, e: set<Ptr>, debts: set<RuleId>)
    requires Relinked(st, mid, s, o, i, r, q, z, e) && q in mid.h.n && mid.h.n[q] == z
    requires Unfound(mid, next, q) && Unfound(next, end, z)
    requires use == FurtherUse ==>
      && Reuses(st, mid, s, r, q, z) && Waiting(mid, s, q) && Ends(next.h, z)
      && Waiting(st, s, st.body[s][|st.body[s]| - 2])
      && Reused(st, s, debts) && Owing(st, s, debts)
    ensures use != FurtherUse ==> Substituted(st, end, o, i, r, q, z, e)
    ensures use == FurtherUse ==> Matched(st, end, s, r, debts)
  {
    hide Inv, Yielded, Replaced, Unrecorded, Waiting, Reused, Owing, Substituted, Matched, Calm;
    if use == FurtherUse {
      UnfoundAside(mid, next, end, q, z);
      UnfoundCalm(mid, next, s, q);
      assert end == next;
      ReuseQuiet(st, mid, end, s, r, q, z, debts);
    } else {
      SubstituteCalm(st, mid, next, end, s, o, i, r, q, z, e);
    }
  }

  // ---------------------------------------------------------------------
  // The laws
  // ---------------------------------------------------------------------

  lemma StartIsCalm(st: State)
    requires st.h == Heap(map[0 := 0], map[0 := 0], map[0 := Rule(0)], map[0 := 0], map[0 := 0], map[])
    requires st.body == map[0 := []] && st.owner == map[0 := 0] && st.text == map[0 := []]
    ensures Calm(st, 0, 0) && Reused(st, 0, {})
  {
    assert Neat(st.h, {}) by {
      forall w, v ensures UniqueAt(st.h, {}, w, v) && FiledAt(st.h, {}, w) { assert !Pos(st.h, w); }
    }
    var g := Prod(st);
    forall i: nat, x: RuleId, q: RuleId, j: nat ensures !Hot(g, st.text, 0, 0, i, x, q, j) {
    }
  }

  lemma AppendLawful(mid: State, st': State, s: RuleId, x: Ptr, found: bool)
    requires Inv(mid, s) && Waiting(mid, s, x) && Reused(mid, s, {})
    requires !found ==> Unfound(mid, st', x)
    requires found ==> Settled(mid, st', s, {})
    ensures Calm(st', s, 0) && Reused(st', s, {})
  {
    hide Inv, Waiting, Calm, Reused;
    if !found {
      UnfoundCalm(mid, st', s, x);
      ReusedAside(mid, st', s, {});
    }
    LessCalm(st', s);
  }

  /** Every rule but the start rule is referred to from two places. */
  ghost predicate RulesReused(g: Productions, s: RuleId) {
    forall r :: r in g && r != s ==> |Occurrences(g, r)| >= 2
  }

  /** Digram uniqueness and rule utility, of the grammar itself. */
  lemma LawfulGrammar(st: State, s: RuleId)
    requires Inv(st, s) && Calm(st, s, 0) && Reused(st, s, {})
    ensures DigramsUnique(Prod(st)) && RulesReused(Prod(st), s)
  {
    hide Sound, Texted, Neat, SeamsClear, RunsFirst, NoRepeats, DigramsUnique, Uses, Occurrences;
    UniqueNoRepeats(st, s, false);
    NoneRepeats(Prod(st), s);
    Domains(st, s);
    forall r | r in Prod(st) && r != s ensures |Occurrences(Prod(st), r)| >= 2 {
      CountIsUses(st, s, r);
      CountsOccurrences(st, s, r);
    }
  }

  lemma SameTextAfter(st: State, st': State, o: RuleId, i: nat, r: RuleId, z: Ptr)
    requires Replaced(st, st', o, i, r, z)
    ensures st'.text == st.text
  {
  }
}
