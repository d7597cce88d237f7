/**
  The steps of the compressor, one state after the other: what each does to the digrams
  and to the digram table.
 */
module SequiturSteps {
  import opened Grammar
  import opened SequiturHeap
  import opened SequiturExpand
  import opened SequiturState
  import opened SequiturDigrams

  // ---------------------------------------------------------------------
  // Replacing a digram
  // ---------------------------------------------------------------------

  /** A symbol that is not a guard goes. */
  lemma DeletedNeat(st: State, mid: State, s: RuleId, o: RuleId, i: nat, left: Ptr, e: set<Ptr>)
    requires Sound(st.h, st.body, st.owner, s) && o in st.h.guard && Deleted(st, mid, o, i) && Neat(st.h, e)
    requires Circle(st.h, st.body, o)[i] == left
    requires left in e ==> Unrecorded(st.h, left)
    requires var x := st.body[o][i];
      x in e && Pos(st.h, x) ==> Unrecorded(st.h, x) || Absent(st.h, e, DigramOf(st.h, x))
    ensures var x := st.body[o][i];
      && x in st.h.key && x in st.h.n && Neat(mid.h, e - {x} + {left}) && Unrecorded(mid.h, left)
      && Unlinked(st.h, mid.h, left, x, st.h.n[x]) && Steady(st.h.table, mid.h.table, {st.h.key[x]})
  {
    hide Sound, Neat, Unrecorded, Absent, Unlinked, Steady, Deletable, DeleteHeap;
    var x := st.body[o][i];
    SymbolInBody(st, s, o, i);
    CircleStep(st, s, o, i);
    DeleteAround(st.h, st.body, st.owner, s, x);
    AroundParts(st.h, left, x, st.h.n[x]);
    AroundNeat(st.h, left, x, st.h.n[x], e);
    SoundNoZero(st.h, st.body, st.owner, s);
    DeleteSteady(st.h, x);
  }

  lemma AroundParts(h: Heap, left: Ptr, x: Ptr, right: Ptr)
    requires Around(h, left, x, right)
    ensures Site(h, left, x, right) && Deletable(h, x) && Unlinked(h, DeleteHeap(h, x), left, x, right)
    ensures Unrecorded(DeleteHeap(h, x), left)
  {
  }

  /** The keys that a symbol inserted after place `i` may see recorded anew. */
  ghost function InsertStirs(st: State, o: RuleId, i: nat): set<Key>
    requires o in st.body && i <= |st.body[o]|
  {
    var ks := KeysOf(st.body[o], st.h.key);
    if 2 <= i < |ks| && ks[i - 2] == ks[i - 1] == ks[i] then {ks[i]} else {}
  }

  lemma InsertedNeat(st: State, st': State, s: RuleId, o: RuleId, i: nat, a: Ptr, y: Ptr, k: Key, e: set<Ptr>)
    requires Sound(st.h, st.body, st.owner, s) && o in st.h.guard && o in st.body && i <= |st.body[o]|
    requires a == Circle(st.h, st.body, o)[i] && y !in st.h.key && KeyFits(st.h, o, s, k)
    requires Insertable(st.h, a, y, k) && st'.h == InsertHeap(st.h, a, y, k)
    requires (Unrecorded(st.h, a) || Ends(st.h, a)) && Neat(st.h, e)
    ensures Neat(st'.h, e + {a, y}) && a in st.h.n && LinkedIn(st.h, st'.h, a, y, st.h.n[a], k)
    ensures Steady(st.h.table, st'.h.table, InsertStirs(st, o, i))
  {
    hide Neat, Steady, InsertHeap, Insertable, InsertStirs, Unrecorded, Ends;
    InsertAroundHolds(st.h, st.body, st.owner, s, o, i, y, k);
    InsertAroundParts(st.h, a, y, k);
    InsertNeat(st.h, a, y, k, e);
    InsertStirred(st, s, o, i, a, y, k);
  }

  lemma InsertAroundParts(h: Heap, a: Ptr, y: Ptr, k: Key)
    requires InsertAround(h, a, y, k)
    ensures Insertable(h, a, y, k) && a in h.n && LinkedIn(h, InsertHeap(h, a, y, k), a, y, h.n[a], k)
  {
  }

  lemma InsertStirred(st: State, s: RuleId, o: RuleId, i: nat, a: Ptr, y: Ptr, k: Key)
    requires Sound(st.h, st.body, st.owner, s) && o in st.h.guard && o in st.body && i <= |st.body[o]|
    requires a == Circle(st.h, st.body, o)[i] && y !in st.h.key && KeyFits(st.h, o, s, k)
    requires Insertable(st.h, a, y, k) && (Unrecorded(st.h, a) || Ends(st.h, a))
    ensures Steady(st.h.table, InsertHeap(st.h, a, y, k).table, InsertStirs(st, o, i))
  {
    hide Steady, InsertHeap, Insertable, InsertStirs, Unrecorded, Ends;
    assert PlacedRule(st.h, st.body, st.owner, o);
    OnCircle(st.h, st.body, st.owner, o, i);
    InsertGap(st.h, st.body, st.owner, s, a, k);
    LinkedIsClosed(st.h, st.body);
    UnlinkedFree(st.h, st.body, st.owner, s, y);
    SoundNoZero(st.h, st.body, st.owner, s);
    InsertSteady(st.h, a, st.h.n[a], y, k);
    TripleStirs(st, s, o, i, a);
    SteadyMore(st.h.table, InsertHeap(st.h, a, y, k).table,
               if st.h.n[a] != a && Triple(st.h, a) then {st.h.key[a]} else {},
               InsertStirs(st, o, i));
  }

  lemma TripleStirs(st: State, s: RuleId, o: RuleId, i: nat, a: Ptr)
    requires Sound(st.h, st.body, st.owner, s) && o in st.h.guard && o in st.body && i <= |st.body[o]|
    requires a == Circle(st.h, st.body, o)[i]
    ensures a in st.h.key && a in st.h.n
    ensures (st.h.n[a] != a && Triple(st.h, a) ==> InsertStirs(st, o, i) == {st.h.key[a]})
  {
    CircleStep(st, s, o, i);
    if st.h.n[a] != a && Triple(st.h, a) {
      NoGuardInTriple(st.h, st.body, st.owner, s, a);
      hide Sound;
      TripleAt(st, s, o, i, a);
    }
  }

  lemma TripleAt(st: State, s: RuleId, o: RuleId, i: nat, a: Ptr)
    requires Sound(st.h, st.body, st.owner, s) && o in st.h.guard && o in st.body && i <= |st.body[o]|
    requires a == Circle(st.h, st.body, o)[i] && a in st.h.key && Triple(st.h, a)
    requires !Guards(st.h, a) && !Guards(st.h, st.h.n[a]) && !Guards(st.h, st.h.p[a])
    ensures InsertStirs(st, o, i) == {st.h.key[a]}
  {
    hide Sound;
    var c, xs := Circle(st.h, st.body, o), st.body[o];
    SoundRule(st, s, o);
    CircleStep(st, s, o, i);
    assert i > 0;
    CircleStep(st, s, o, i - 1);
    assert i > 1 && i < |xs|;
    assert a == xs[i - 1] && st.h.n[a] == xs[i] && st.h.p[a] == xs[i - 2];
    SymbolInBody(st, s, o, i - 2);
    SymbolInBody(st, s, o, i - 1);
    SymbolInBody(st, s, o, i);
  }

  /** Apart from the digrams around the new symbol `z`, all were there before. */
  ghost predicate Rewired(h: Heap, h': Heap, x: Ptr, x': Ptr, q: Ptr, z: Ptr) {
    forall w {:trigger Pos(h', w)} :: Pos(h', w) && w != q && w != z ==>
      w != x && w != x' && Pos(h, w) && h.n[w] == h'.n[w] && DigramOf(h, w) == DigramOf(h', w)
  }

  lemma RewiredBy(h: Heap, m: Heap, g: Heap, h': Heap, x: Ptr, x': Ptr, right: Ptr, q: Ptr, z: Ptr, k: Key)
    requires Unlinked(h, m, q, x, x') && Unlinked(m, g, q, x', right) && LinkedIn(g, h', q, z, right, k)
    ensures Rewired(h, h', x, x', q, z)
  {
    hide Unlinked, LinkedIn;
    forall w | Pos(h', w) && w != q && w != z
      ensures w != x && w != x' && Pos(h, w) && h.n[w] == h'.n[w] && DigramOf(h, w) == DigramOf(h', w)
    {
      LinkedInPos(g, h', q, z, right, k, w);
      UnlinkedPos(m, g, q, x', right, w);
      UnlinkedPos(h, m, q, x, x', w);
    }
  }

  /** The keys whose runs may be recorded anew when the digram at `i` is replaced. */
  ghost function ReplaceStirs(st: State, o: RuleId, i: nat): set<Key>
    requires o in st.body && i + 2 <= |st.body[o]|
  {
    var ks := KeysOf(st.body[o], st.h.key);
    {ks[i], ks[i + 1]} + if i >= 2 && i + 2 < |ks| && ks[i - 2] == ks[i - 1] == ks[i + 2] then {ks[i + 2]} else {}
  }

  /** The digram at place `i` of rule `o` may go: what is exempt in `e` is not lost with it. */
  ghost predicate Yields(st: State, o: RuleId, i: nat, e: set<Ptr>) {
    && o in st.h.guard && o in st.body && i + 2 <= |st.body[o]| && Neat(st.h, e)
    && var q, x, x' := Circle(st.h, st.body, o)[i], st.body[o][i], st.body[o][i + 1];
    && (q in e ==> Unrecorded(st.h, q)) && (x' in e ==> !Pos(st.h, x'))
    && (x in e && Pos(st.h, x) ==> Unrecorded(st.h, x) || Absent(st.h, e, DigramOf(st.h, x)))
  }

  /** What the replacement leaves: two new digrams, at `q` and at `z`. */
  ghost predicate Yielded(st: State, st': State, o: RuleId, i: nat, q: Ptr, z: Ptr, e: set<Ptr>)
    requires o in st.body && i + 2 <= |st.body[o]|
  {
    var x, x' := st.body[o][i], st.body[o][i + 1];
    && Neat(st'.h, e - {x, x'} + {q, z}) && Steady(st.h.table, st'.h.table, ReplaceStirs(st, o, i))
    && Rewired(st.h, st'.h, x, x', q, z)
  }

  lemma YieldFirst(st: State, mid: State, s: RuleId, o: RuleId, i: nat, e: set<Ptr>)
    requires Sound(st.h, st.body, st.owner, s) && Sound(mid.h, mid.body, mid.owner, s)
    requires Yields(st, o, i, e) && Deleted(st, mid, o, i)
    ensures var q, x := Circle(st.h, st.body, o)[i], st.body[o][i];
      && Neat(mid.h, e - {x} + {q}) && Unrecorded(mid.h, q) && x in st.h.n && x in st.h.key
      && Unlinked(st.h, mid.h, q, x, st.h.n[x])
      && st.h.n[x] == st.body[o][i + 1] && Steady(st.h.table, mid.h.table, {st.h.key[x]})
      && (st.body[o][i + 1] in e ==> !Pos(mid.h, st.body[o][i + 1]))
  {
    hide Sound, Neat, Unrecorded, Absent, Steady, Deleted, Pos;
    var q, x, x' := Circle(st.h, st.body, o)[i], st.body[o][i], st.body[o][i + 1];
    DeletedNeat(st, mid, s, o, i, q, e);
    CircleStep(st, s, o, i + 1);
    if x' in e && Pos(mid.h, x') {
      SoundRule(st, s, o);
      UnlinkedPos(st.h, mid.h, q, x, st.h.n[x], x');
    }
  }

  lemma YieldAll(st: State, mid: State, gap: State, st': State, s: RuleId, o: RuleId, i: nat, r: RuleId, q: Ptr,
                 z: Ptr, e: set<Ptr>)
    requires Inv(st, s) && Replaceable(st, s, o, i, r) && Yields(st, o, i, e) && q == Circle(st.h, st.body, o)[i]
    requires Deleted(st, mid, o, i) && Sound(mid.h, mid.body, mid.owner, s) && mid.body[o][i] == st.body[o][i + 1]
    requires Deleted(mid, gap, o, i) && Sound(gap.h, gap.body, gap.owner, s)
    requires o in gap.h.guard && o in gap.body && i <= |gap.body[o]| && Circle(gap.h, gap.body, o)[i] == q
    requires KeyFits(gap.h, o, s, Rule(r)) && z !in gap.h.key
    requires Insertable(gap.h, q, z, Rule(r)) && st'.h == InsertHeap(gap.h, q, z, Rule(r))
    ensures Yielded(st, st', o, i, q, z, e)
  {
    hide Sound, Texted, Neat, Unrecorded, Absent, Steady, Insertable, InsertHeap, Unlinked, LinkedIn, Pos, Rewired;
    hide Replaceable;
    hide Deletable, DeleteHeap, KeyFits, ReplaceStirs, InsertStirs;
    var x, x' := st.body[o][i], st.body[o][i + 1];
    YieldFirst(st, mid, s, o, i, e);
    DeletedFields(st, mid, o, i);
    var e1 := e - {x} + {q};
    assert Circle(mid.h, mid.body, o)[i] == q;
    YieldSecond(st, s, o, i);
    DeletedNeat(mid, gap, s, o, i, q, e1);
    var e2 := e1 - {x'} + {q};
    InsertedNeat(gap, st', s, o, i, q, z, Rule(r), e2);
    assert e2 + {q, z} == e - {x, x'} + {q, z};
    RewiredHeaps(st.h, mid.h, gap.h, st'.h, x, x', q, z, Rule(r));
    StirsAdd(st, mid, gap, s, o, i);
    assert KeysOf(st.body[o], st.h.key)[i] == st.h.key[x] && KeysOf(st.body[o], st.h.key)[i + 1] == mid.h.key[x'];
    SteadyTrans(st.h.table, mid.h.table, gap.h.table, {st.h.key[x]}, {mid.h.key[x']});
    SteadyTrans(st.h.table, gap.h.table, st'.h.table, {st.h.key[x]} + {mid.h.key[x']}, InsertStirs(gap, o, i));
  }

  lemma RewiredHeaps(h: Heap, m: Heap, g: Heap, h': Heap, x: Ptr, x': Ptr, q: Ptr, z: Ptr, k: Key)
    requires x in h.n && h.n[x] == x' && Unlinked(h, m, q, x, x') && x' in m.n && Unlinked(m, g, q, x', m.n[x'])
    requires q in g.n && LinkedIn(g, h', q, z, g.n[q], k)
    ensures Rewired(h, h', x, x', q, z)
  {
    RewiredBy(h, m, g, h', x, x', g.n[q], q, z, k);
  }

  lemma YieldSecond(st: State, s: RuleId, o: RuleId, i: nat)
    requires Sound(st.h, st.body, st.owner, s) && o in st.h.guard && o in st.body && i + 2 <= |st.body[o]|
    ensures var q, x, x' := Circle(st.h, st.body, o)[i], st.body[o][i], st.body[o][i + 1]; x' != q && x' != x && x != q
  {
    hide Sound;
    SoundRule(st, s, o);
    var c := Circle(st.h, st.body, o);
    assert c[i + 1] == st.body[o][i] && c[i + 2] == st.body[o][i + 1];
  }

  lemma DeletedKeys(st: State, mid: State, s: RuleId, o: RuleId, i: nat)
    requires Sound(st.h, st.body, st.owner, s) && o in st.h.guard && Deleted(st, mid, o, i)
    ensures o in mid.body
    ensures var ks := KeysOf(st.body[o], st.h.key); KeysOf(mid.body[o], mid.h.key) == ks[..i] + ks[i + 1..]
  {
    hide Sound;
    DeletedFields(st, mid, o, i);
    hide Deleted;
    var xs, ks, ls := st.body[o], KeysOf(st.body[o], st.h.key), KeysOf(mid.body[o], mid.h.key);
    forall j | 0 <= j < |ls| ensures ls[j] == (ks[..i] + ks[i + 1..])[j] {
      var k := if j < i then j else j + 1;
      assert mid.body[o][j] == xs[k] && ls[j] == (if xs[k] in mid.h.key then mid.h.key[xs[k]] else Zero);
      if xs[k] == xs[i] { SamePlace(st, s, o, k, o, i); }
    }
  }

  lemma StirsAdd(st: State, mid: State, gap: State, s: RuleId, o: RuleId, i: nat)
    requires Sound(st.h, st.body, st.owner, s) && Sound(mid.h, mid.body, mid.owner, s) && o in st.h.guard
    requires o in mid.h.guard
    requires o in st.body && i + 2 <= |st.body[o]| && Deleted(st, mid, o, i) && Deleted(mid, gap, o, i)
    ensures var ks := KeysOf(st.body[o], st.h.key);
      {ks[i]} + {ks[i + 1]} + InsertStirs(gap, o, i) == ReplaceStirs(st, o, i)
  {
    hide Sound;
    DeletedKeys(st, mid, s, o, i);
    DeletedKeys(mid, gap, s, o, i);
    hide Deleted;
    var ks, ls := KeysOf(st.body[o], st.h.key), KeysOf(gap.body[o], gap.h.key);
    assert ls == ks[..i] + ks[i + 2..];
  }

  // ---------------------------------------------------------------------
  // A new rule
  // ---------------------------------------------------------------------

  lemma NeatMore(h: Heap, e: set<Ptr>, e': set<Ptr>)
    requires Neat(h, e) && e <= e'
    ensures Neat(h, e')
  {
    forall w, v ensures UniqueAt(h, e', w, v) { assert UniqueAt(h, e, w, v); }
    forall w ensures FiledAt(h, e', w) { assert FiledAt(h, e, w); }
  }

  /** The first symbol goes in after the guard... */
  lemma PairFirst(st: State, a: State, b: State, s: RuleId, r: RuleId, g: Ptr, f: Ptr, k1: Key, e: set<Ptr>)
    requires Sound(st.h, st.body, st.owner, s) && r !in st.h.guard && g !in st.h.key && Neat(st.h, e)
    requires a.h == NewRuleHeap(st.h, r, g) && a.body == st.body[r := []] && Sound(a.h, a.body, a.owner, s)
    requires Circle(a.h, a.body, r)[0] == g && f !in a.h.key && KeyFits(a.h, r, s, k1)
    requires Insertable(a.h, g, f, k1) && b.h == InsertHeap(a.h, g, f, k1) && Sound(b.h, b.body, b.owner, s)
    ensures Neat(b.h, e + {f}) && Steady(st.h.table, b.h.table, {})
  {
    hide Sound, Neat, Steady, Insertable, InsertHeap, KeyFits;
    NewRuleNeat(st.h, st.body, st.owner, s, r, g, e);
    InsertedNeat(a, b, s, r, 0, g, f, k1, e);
    SoundRule(a, s, r);
    InsertFields(a.h, g, f, k1);
    NoPosNeat(b.h, e + {g, f}, g);
    NeatMore(b.h, e + {g, f} - {g}, e + {f});
  }

  /** ...and the second after the first. */
  lemma PairSecond(b: State, c: State, s: RuleId, r: RuleId, f: Ptr, l: Ptr, k2: Key, e: set<Ptr>)
    requires Sound(b.h, b.body, b.owner, s) && r in b.h.guard && r in b.body && b.body[r] == [f] && Neat(b.h, e + {f})
    requires l !in b.h.key && KeyFits(b.h, r, s, k2)
    requires Insertable(b.h, f, l, k2) && c.h == InsertHeap(b.h, f, l, k2) && Sound(c.h, c.body, c.owner, s)
    requires r in c.h.guard && r in c.body && c.body[r] == [f, l]
    ensures Neat(c.h, e + {f}) && Steady(b.h.table, c.h.table, {})
  {
    hide Sound, Neat, Steady, Insertable, InsertHeap, KeyFits;
    CircleStep(b, s, r, 1);
    SoundRule(b, s, r);
    InsertedNeat(b, c, s, r, 1, f, l, k2, e + {f});
    CircleStep(c, s, r, 2);
    SoundRule(c, s, r);
    assert Circle(c.h, c.body, r)[2] == l;
    NoPosNeat(c.h, e + {f} + {f, l}, l);
    NeatMore(c.h, e + {f} + {f, l} - {l}, e + {f});
  }

  lemma PairNeat(st: State, a: State, b: State, c: State, s: RuleId, r: RuleId, g: Ptr, f: Ptr, l: Ptr, k1: Key,
                 k2: Key, e: set<Ptr>)
    requires Sound(st.h, st.body, st.owner, s) && r !in st.h.guard && g !in st.h.key && Neat(st.h, e)
    requires a.h == NewRuleHeap(st.h, r, g) && a.body == st.body[r := []] && Sound(a.h, a.body, a.owner, s)
    requires f !in a.h.key && KeyFits(a.h, r, s, k1)
    requires Insertable(a.h, g, f, k1) && b.h == InsertHeap(a.h, g, f, k1) && b.body == BodiesWith(a.body, r, 0, f)
    requires Sound(b.h, b.body, b.owner, s) && r in b.h.guard && l !in b.h.key && KeyFits(b.h, r, s, k2)
    requires var q := Circle(b.h, b.body, r)[1]; Insertable(b.h, q, l, k2) && c.h == InsertHeap(b.h, q, l, k2)
    requires c.body == BodiesWith(b.body, r, 1, l) && Sound(c.h, c.body, c.owner, s)
    ensures Neat(c.h, e + {f}) && Steady(st.h.table, c.h.table, {})
  {
    hide Sound, Neat, Steady, Insertable, InsertHeap, KeyFits;
    PairFirst(st, a, b, s, r, g, f, k1, e);
    assert b.body[r] == [f] && Circle(b.h, b.body, r)[1] == f;
    InsertFields(b.h, f, l, k2);
    assert c.body[r] == [f, l];
    PairSecond(b, c, s, r, f, l, k2, e);
    var none: set<Key> := {};
    assert none + none == none;
    SteadyTrans(st.h.table, b.h.table, c.h.table, none, none);
  }
}
