/**
  Creating a rule, and `expand`: inlining a rule at its only use. The links are
  broken in between, so the table is followed through every intermediate heap.
 */
module SequiturExpand {
  import opened Grammar
  import opened SequiturHeap

  // ---------------------------------------------------------------------
  // A new, empty rule
  // ---------------------------------------------------------------------

  ghost function NewRuleHeap(h: Heap, r: RuleId, g: Ptr): Heap {
    h.(n := h.n[g := g], p := h.p[g := g], key := h.key[g := Rule(r)],
       guard := h.guard[r := g], count := h.count[r := 0])
  }

  lemma NewRuleLinked(h: Heap, body: Bodies, owner: Owners, r: RuleId, g: Ptr)
    requires Linked(h, body) && Placed(h, body, owner) && r !in h.guard && g !in h.key
    ensures Linked(NewRuleHeap(h, r, g), body[r := []])
  {
    var k, body' := NewRuleHeap(h, r, g), body[r := []];
    forall q | q in k.guard ensures LinkedRule(k, body', q) {
      if q == r {
        assert Circle(k, body', r) == [g];
        assert LinkAt([g], 0, k.n, k.p);
      } else {
        assert LinkedRule(h, body, q) && PlacedRule(h, body, owner, q);
        OtherLinked(h, body, owner, q, k, body');
      }
    }
  }

  lemma NewRulePlaced(h: Heap, body: Bodies, owner: Owners, r: RuleId, g: Ptr)
    requires Placed(h, body, owner) && r !in h.guard && g !in h.key
    ensures Placed(NewRuleHeap(h, r, g), body[r := []], owner[g := r])
  {
    var k, body', owner' := NewRuleHeap(h, r, g), body[r := []], owner[g := r];
    forall q | q in k.guard ensures PlacedRule(k, body', owner', q) {
      if q != r {
        assert PlacedRule(h, body, owner, q);
        OtherPlaced(h, body, owner, q, k, body', owner');
      }
    }
    forall x | x in k.key ensures PlacedSymbol(k, body', owner', x) {
      if x != g {
        assert PlacedSymbol(h, body, owner, x);
        assert Circle(k, body', owner[x]) == Circle(h, body, owner[x]);
      }
    }
  }

  lemma NewRuleGuards(h: Heap, owner: Owners, s: RuleId, r: RuleId, g: Ptr, x: Ptr)
    requires Refs(h, owner, s) && r !in h.guard && g !in h.key && x in h.key
    ensures h.key[x] != Rule(r) && (Guards(NewRuleHeap(h, r, g), x) <==> Guards(h, x))
  {
    assert RefOk(h, owner, s, x);
  }

  lemma NewRuleRefs(h: Heap, owner: Owners, s: RuleId, r: RuleId, g: Ptr)
    requires Refs(h, owner, s) && r !in h.guard && g !in h.key
    ensures Refs(NewRuleHeap(h, r, g), owner[g := r], s)
  {
    var k := NewRuleHeap(h, r, g);
    forall x | x in k.key ensures RefOk(k, owner[g := r], s, x) {
      if x != g {
        assert RefOk(h, owner, s, x);
        NewRuleGuards(h, owner, s, r, g, x);
      }
    }
  }

  lemma NewRuleUses(h: Heap, owner: Owners, s: RuleId, r: RuleId, g: Ptr, q: RuleId)
    requires Refs(h, owner, s) && r !in h.guard && g !in h.key
    ensures Uses(NewRuleHeap(h, r, g), q) == if q == r then {} else Uses(h, q)
  {
    var k := NewRuleHeap(h, r, g);
    forall x | x in h.key ensures h.key[x] != Rule(r) && (Guards(k, x) <==> Guards(h, x)) {
      NewRuleGuards(h, owner, s, r, g, x);
    }
    assert forall x :: x in Uses(k, q) ==> x in h.key;
  }

  lemma NewRuleCounted(h: Heap, owner: Owners, s: RuleId, r: RuleId, g: Ptr)
    requires Refs(h, owner, s) && Counted(h) && r !in h.guard && g !in h.key
    ensures Counted(NewRuleHeap(h, r, g))
  {
    var k := NewRuleHeap(h, r, g);
    forall q | q in k.guard ensures k.count[q] == |Uses(k, q)| {
      NewRuleUses(h, owner, s, r, g, q);
    }
  }

  lemma NewRuleTable(h: Heap, owner: Owners, s: RuleId, r: RuleId, g: Ptr)
    requires Refs(h, owner, s) && TableOk(h) && r !in h.guard && g !in h.key
    ensures TableOk(NewRuleHeap(h, r, g))
  {
    var k := NewRuleHeap(h, r, g);
    forall d | d in k.table ensures Entry(k, d, k.table[d]) {
      assert Entry(h, d, h.table[d]);
      NewRuleGuards(h, owner, s, r, g, h.table[d]);
      NewRuleGuards(h, owner, s, r, g, h.n[h.table[d]]);
    }
  }

  lemma NewRuleSound(h: Heap, body: Bodies, owner: Owners, s: RuleId, r: RuleId, g: Ptr)
    requires Sound(h, body, owner, s) && r !in h.guard && g !in h.key
    ensures Sound(NewRuleHeap(h, r, g), body[r := []], owner[g := r], s)
  {
    NewRuleLinked(h, body, owner, r, g);
    NewRulePlaced(h, body, owner, r, g);
    NewRuleRefs(h, owner, s, r, g);
    NewRuleCounted(h, owner, s, r, g);
    NewRuleTable(h, owner, s, r, g);
  }

  // ---------------------------------------------------------------------
  // expand: the place
  // ---------------------------------------------------------------------

  /** Everything `expand` looks at: the symbol `x` is first in rule `r` and is the
      only use of rule `a`, whose symbols run from `f` to `e`. */
  datatype Spot = Spot(r: RuleId, a: RuleId, gr: Ptr, x: Ptr, right: Ptr, ga: Ptr, f: Ptr, e: Ptr) {
    ghost predicate Within(h: Heap) {
      gr in h.key && x in h.key && right in h.key && ga in h.key && f in h.key && e in h.key
    }

    ghost predicate Apart() {
      && gr != x && gr != right && gr != ga && gr != f && gr != e
      && x != right && x != ga && x != f && x != e
      && right != ga && right != f && right != e
      && ga != f && ga != e && f != e
    }
  }

  ghost predicate SpotLinks(h: Heap, t: Spot) {
    && t.Within(h) && t.Apart()
    && SameDomain(h.n, h.key) && SameDomain(h.p, h.key)
    && h.n[t.gr] == t.x && h.n[t.x] == t.right && h.p[t.x] == t.gr && h.p[t.right] == t.x
    && h.n[t.ga] == t.f && h.p[t.ga] == t.e && h.p[t.f] == t.ga && h.n[t.e] == t.ga
    && h.n[t.f] in h.key && h.n[t.f] != t.f && !Guards(h, h.n[t.f])
    && h.n[t.right] in h.key && h.n[t.right] != t.right
    && h.p[t.e] in h.key && h.n[h.p[t.e]] == t.e && h.p[t.e] != t.e && !Guards(h, h.p[t.e])
  }

  ghost predicate SpotKeys(h: Heap, t: Spot) {
    && t.r in h.guard && t.a in h.guard && t.r != t.a
    && h.guard[t.r] == t.gr && h.guard[t.a] == t.ga
    && t.Within(h)
    && h.key[t.gr] == Rule(t.r) && h.key[t.x] == Rule(t.a) && h.key[t.ga] == Rule(t.a)
    && h.key[t.right] != Rule(t.r)
    && !Guards(h, t.right) && !Guards(h, t.f) && !Guards(h, t.e)
    && (forall z {:trigger h.key[z]} :: z in h.key ==>
          && h.key[z] != Zero
          && (h.key[z].Rule? ==> h.key[z].r in h.guard)
          && (h.key[z] == Rule(t.a) ==> z == t.x || z == t.ga))
    && (forall q {:trigger h.guard[q]} :: q in h.guard ==> h.guard[q] in h.key && h.key[h.guard[q]] == Rule(q))
  }

  ghost predicate SpotOk(h: Heap, t: Spot) {
    && SpotLinks(h, t) && SpotKeys(h, t) && Closed(h) && TableOk(h)
    && (forall z {:trigger h.n[z]} :: z in h.key && h.n[z] == t.x ==> z == t.gr)
    && (forall z {:trigger h.n[z]} :: z in h.key && h.n[z] == t.ga ==> z == t.e)
  }

  // ---------------------------------------------------------------------
  // expand: the heaps in between
  // ---------------------------------------------------------------------

  /** `delete rule()`: the guard of `a` is unlinked... */
  lemma GuardUnlinked(h: Heap, t: Spot)
    requires SpotOk(h, t)
    ensures Joinable(h, t.e, t.f) && SafeJoin(h, t.e, t.f)
    ensures JoinHeap(h, t.e, t.f).table == h.table && TableOk(JoinHeap(h, t.e, t.f))
  {
    hide TableOk;
    hide Closed;
    hide Triple;
    GuardTest(h, t.e);
    GuardTest(h, t.ga);
    assert Guards(h, t.ga);
    NoTripleAtEnds(h, t);
    JoinKeepsTable(h, t.e, t.f);
  }

  lemma NoTripleAtEnds(h: Heap, t: Spot)
    requires SpotOk(h, t)
    ensures !Triple(h, t.e) && !Triple(h, t.f)
  {
    hide TableOk;
    hide Closed;
  }

  /** ...its `delete_digram` then forgets nothing, although `is_guard` no longer
      recognises it... */
  lemma GuardForgets(h: Heap, t: Spot)
    requires SpotOk(h, t) && Joinable(h, t.e, t.f)
    requires JoinHeap(h, t.e, t.f).table == h.table
    ensures var g := JoinHeap(h, t.e, t.f);
      && HasDigram(g, t.ga) && g.n[t.ga] == t.f && Readable(g, t.ga) && Readable(g, t.f)
      && !IsGuard(g, t.ga) && Forget(g, t.ga) == h.table
  {
    hide TableOk;
    hide JoinTable;
    hide Triple;
    hide Joinable;
    hide Closed;
    hide SpotKeys;
    hide Readable;
    hide IsGuard;
    GuardUnrecorded(h, t);
    GuardReadable(h, t, JoinHeap(h, t.e, t.f));
  }

  lemma GuardReadable(h: Heap, t: Spot, g: Heap)
    requires SpotOk(h, t) && g.n == h.n[t.e := t.f] && g.p == h.p[t.f := t.e] && g.key == h.key && g.guard == h.guard
    ensures Readable(g, t.ga) && Readable(g, t.f) && !IsGuard(g, t.ga)
  {
    hide TableOk;
    hide Guards;
    assert g.n[g.p[t.ga]] == t.f;
    if h.key[t.f].Rule? {
      var k := h.guard[h.key[t.f].r];
      assert k in h.p && h.p[k] in h.n;
      assert k in g.p && g.p[k] in g.n;
    }
  }

  lemma GuardUnrecorded(h: Heap, t: Spot)
    requires SpotOk(h, t)
    ensures Unrecorded(h, t.ga)
  {
    hide Closed;
    forall d | d in h.table ensures h.table[d] != t.ga {
      assert Entry(h, d, h.table[d]);
    }
  }

  /** Once the rule `a` is freed: what every later heap has in common. */
  ghost predicate Stage(h: Heap, t: Spot, g: Heap, hasX: bool) {
    && (forall q {:trigger q in g.guard} {:trigger g.guard[q]} ::
          q in g.guard <==> q in h.guard && q != t.a)
    && (forall q {:trigger g.guard[q]} :: q in g.guard ==> g.guard[q] == h.guard[q])
    && (forall z {:trigger z in g.key} :: z in g.key <==> z in h.key && z != t.ga && (z == t.x ==> hasX))
    && SameDomain(g.n, g.key) && SameDomain(g.p, g.key)
    && (hasX ==> t.x in g.key && g.key[t.x] == Zero)
    && (forall z {:trigger g.key[z]} :: z in g.key && z != t.x ==> g.key[z] == h.key[z])
    && (forall z {:trigger g.n[z]} :: z in g.key && z != t.gr && z != t.e ==> z in h.n && g.n[z] == h.n[z])
    && (forall z {:trigger g.p[z]} :: z in g.key && z != t.f && z != t.right ==> z in h.p && g.p[z] == h.p[z])
  }

  /** Guards of the surviving rules still close. */
  lemma StageClosed(h: Heap, t: Spot, g: Heap, hasX: bool)
    requires SpotOk(h, t) && Stage(h, t, g, hasX)
    ensures Closed(g)
  {
    forall q | q in g.guard
      ensures g.guard[q] in g.p && g.p[g.guard[q]] in g.n && g.n[g.p[g.guard[q]]] == g.guard[q]
    {
      var k := h.guard[q];
      assert h.n[h.p[k]] == k && Guards(h, k) && !Guards(h, t.x);
      assert k != t.f && k != t.right && k != t.x && k != t.ga;
      assert h.p[k] != t.gr && h.p[k] != t.e && h.p[k] != t.x && h.p[k] != t.ga;
      assert h.p[k] in h.key;
    }
  }

  lemma StageGuards(h: Heap, t: Spot, g: Heap, hasX: bool, z: Ptr)
    requires SpotKeys(h, t) && Stage(h, t, g, hasX) && z in g.key
    ensures z != t.x ==> (Guards(g, z) <==> Guards(h, z))
    ensures z == t.x ==> !Guards(g, z)
    ensures g.key[z].Rule? ==> g.key[z].r in g.guard
  {
    if z != t.x { assert g.key[z] == h.key[z]; }
  }

  lemma StageTest(h: Heap, t: Spot, g: Heap, hasX: bool, z: Ptr)
    requires SpotOk(h, t) && Stage(h, t, g, hasX) && z in g.key
    ensures Readable(g, z) && (IsGuard(g, z) <==> Guards(g, z))
  {
    StageClosed(h, t, g, hasX);
    StageGuards(h, t, g, hasX, z);
    GuardTest(g, z);
  }

  /** The entry for `x`, if there is one, is dropped before its key is zeroed. */
  ghost function DropEntry(h: Heap, x: Ptr): map<Digram, Ptr>
    requires HasDigram(h, x)
  {
    var d := DigramOf(h, x);
    if d in h.table && h.table[d] == x then h.table - {d} else h.table
  }

  lemma ZeroedTable(h: Heap, t: Spot, g: Heap)
    requires SpotOk(h, t) && Stage(h, t, g, true)
    requires g.n[t.e] == t.f && g.n[t.gr] == t.x && g.table == DropEntry(h, t.x)
    ensures TableOk(g) && Unrecorded(g, t.x)
  {
    hide Stage;
    hide Closed;
    hide Entry;
    hide SpotLinks;
    hide SpotKeys;
    forall d | d in g.table ensures Entry(g, d, g.table[d]) && g.table[d] != t.x {
      ZeroedEntry(h, t, g, d);
    }
  }

  lemma ZeroedEntry(h: Heap, t: Spot, g: Heap, d: Digram)
    requires SpotOk(h, t) && Stage(h, t, g, true) && d in g.table
    requires g.n[t.e] == t.f && g.n[t.gr] == t.x && g.table == DropEntry(h, t.x)
    ensures Entry(g, d, g.table[d]) && g.table[d] != t.x
  {
    hide Closed;
    hide SpotKeys;
    hide TableOk;
    hide DropEntry;
    DroppedEntry(h, t.x, d);
    var z := h.table[d];
    EntryAway(h, t, d);
    StageGuards(h, t, g, true, z);
    StageGuards(h, t, g, true, h.n[z]);
  }

  lemma DroppedEntry(h: Heap, x: Ptr, d: Digram)
    requires TableOk(h) && HasDigram(h, x) && d in DropEntry(h, x)
    ensures d in h.table && DropEntry(h, x)[d] == h.table[d] && h.table[d] != x
  {
    assert Entry(h, d, h.table[d]);
  }

  /** A recorded digram, unless it starts at `x`, lies outside what `expand` relinks. */
  lemma EntryAway(h: Heap, t: Spot, d: Digram)
    requires SpotOk(h, t) && d in h.table && h.table[d] != t.x
    ensures var z := h.table[d];
      && Entry(h, d, z) && z in h.key && z in h.n && h.n[z] in h.key
      && z != t.gr && z != t.e && z != t.ga && h.n[z] != t.x && h.n[z] != t.ga
    ensures t.x in h.key && t.x in h.n && h.n[t.x] in h.key
  {
    hide Closed;
    assert Entry(h, d, h.table[d]);
    assert Guards(h, t.gr) && Guards(h, t.ga);
  }

  /** `delete this`: the zeroed symbol is unlinked... */
  lemma ZeroedUnlinked(h: Heap, t: Spot, g: Heap)
    requires SpotOk(h, t) && Stage(h, t, g, true) && TableOk(g) && Unrecorded(g, t.x)
    requires g.n[t.gr] == t.x && g.p[t.right] == t.x
    ensures Joinable(g, t.gr, t.right) && SafeJoin(g, t.gr, t.right)
    ensures TableOk(JoinHeap(g, t.gr, t.right)) && Unrecorded(JoinHeap(g, t.gr, t.right), t.x)
  {
    StageTest(h, t, g, true, t.gr);
    StageTest(h, t, g, true, t.x);
    StageGuards(h, t, g, true, t.right);
    assert !Triple(g, t.gr);
    if Triple(g, t.right) {
      assert g.n[t.right] == h.n[t.right];
      assert h.n[t.right] != t.x;
      StageGuards(h, t, g, true, g.n[t.right]);
      assert g.key[t.right] == Terminal(0);
    }
    JoinKeepsTable(g, t.gr, t.right);
  }

  /** ...and its own `delete_digram` finds nothing. */
  lemma ZeroedForgets(h: Heap, t: Spot, g: Heap)
    requires SpotOk(h, t) && Stage(h, t, g, true) && TableOk(g) && Unrecorded(g, t.x)
    requires g.n[t.gr] == t.right && g.p[t.right] == t.gr
    ensures HasDigram(g, t.x) && g.n[t.x] == t.right && Readable(g, t.x) && Readable(g, t.right)
    ensures !IsGuard(g, t.x) && Forget(g, t.x) == g.table
  {
    hide TableOk;
    hide Closed;
    hide SpotKeys;
    StageTest(h, t, g, true, t.x);
    StageTest(h, t, g, true, t.right);
  }

  /** Freeing it leaves no dangling entry. */
  lemma ZeroedFreed(h: Heap, t: Spot, g: Heap, k: Heap)
    requires SpotOk(h, t) && Stage(h, t, g, true) && TableOk(g) && Unrecorded(g, t.x)
    requires g.n[t.gr] == t.right && g.n[t.e] == t.f
    requires k.guard == g.guard && k.key == g.key - {t.x} && k.n == g.n - {t.x} && k.table == g.table
    ensures TableOk(k)
  {
    FreeKeepsTable(g, t.x, k);
  }

  /** `join(left, f)`. */
  lemma FirstLinked(h: Heap, t: Spot, g: Heap)
    requires SpotOk(h, t) && Stage(h, t, g, false) && TableOk(g)
    requires g.n[t.gr] == t.right && g.p[t.right] == t.gr && g.p[t.f] == t.e
    ensures Joinable(g, t.gr, t.f) && SafeJoin(g, t.gr, t.f) && TableOk(JoinHeap(g, t.gr, t.f))
  {
    hide TableOk;
    hide Closed;
    hide JoinTable;
    StageTest(h, t, g, false, t.gr);
    StageTest(h, t, g, false, t.right);
    StageGuards(h, t, g, false, t.f);
    assert g.n[t.f] == h.n[t.f] && h.n[t.f] != t.ga && h.n[t.f] != t.x;
    StageGuards(h, t, g, false, g.n[t.f]);
    assert !Triple(g, t.gr);
    JoinKeepsTable(g, t.gr, t.f);
  }

  /** `join(l, right)`. */
  lemma LastLinked(h: Heap, t: Spot, g: Heap)
    requires SpotOk(h, t) && Stage(h, t, g, false) && TableOk(g)
    requires g.n[t.gr] == t.f && g.p[t.f] == t.gr && g.n[t.e] == t.f && g.p[t.right] == t.gr
    ensures Joinable(g, t.e, t.right) && SafeJoin(g, t.e, t.right) && TableOk(JoinHeap(g, t.e, t.right))
  {
    StageTest(h, t, g, false, t.e);
    StageTest(h, t, g, false, t.f);
    var b := h.p[t.e];
    assert b != t.gr && b != t.x && b != t.ga;
    assert g.p[t.e] == b && g.n[b] == t.e;
    StageGuards(h, t, g, false, b);
    assert !Triple(g, t.right);
    JoinKeepsTable(g, t.e, t.right);
  }

  /** The digram across the end of the inlined symbols is recorded last. */
  lemma SeamRecorded(h: Heap, t: Spot, g: Heap)
    requires SpotOk(h, t) && Stage(h, t, g, false) && TableOk(g) && g.n[t.e] == t.right
    ensures HasDigram(g, t.e) && TableOk(g.(table := g.table[DigramOf(g, t.e) := t.e]))
  {
    StageGuards(h, t, g, false, t.e);
    StageGuards(h, t, g, false, t.right);
    var k := g.(table := g.table[DigramOf(g, t.e) := t.e]);
    forall d | d in k.table ensures Entry(k, d, k.table[d]) {
      if k.table[d] != t.e { assert Entry(g, d, g.table[d]); }
      assert forall z :: Guards(k, z) <==> Guards(g, z);
    }
  }

  // ---------------------------------------------------------------------
  // expand: the shape before and after
  // ---------------------------------------------------------------------

  /** The symbol first in rule `r` is the only use of rule `a`. */
  ghost predicate Expandable(h: Heap, body: Bodies, r: RuleId, a: RuleId) {
    && r in h.guard && r in body && a in h.guard && a in body && r != a
    && |body[r]| >= 2 && |body[a]| >= 2
    && body[r][0] in h.key && h.key[body[r][0]] == Rule(a) && Uses(h, a) == {body[r][0]}
    && (forall i :: 0 <= i < |body[a]| ==> body[a][i] in h.key && h.key[body[a][i]] != Rule(r))
  }

  ghost function SpotOf(h: Heap, body: Bodies, r: RuleId, a: RuleId): Spot
    requires Expandable(h, body, r, a)
  {
    Spot(r, a, h.guard[r], body[r][0], body[r][1], h.guard[a], body[a][0], body[a][|body[a]| - 1])
  }

  lemma SpotLinksHold(h: Heap, body: Bodies, owner: Owners, s: RuleId, r: RuleId, a: RuleId)
    requires Sound(h, body, owner, s) && Expandable(h, body, r, a)
    ensures SpotLinks(h, SpotOf(h, body, r, a))
  {
    var t := SpotOf(h, body, r, a);
    assert PlacedRule(h, body, owner, r) && LinkedRule(h, body, r);
    assert PlacedRule(h, body, owner, a) && LinkedRule(h, body, a);
    var l, c := Circle(h, body, r), Circle(h, body, a);
    assert l[0] == t.gr && l[1] == t.x && l[2] == t.right;
    assert c[0] == t.ga && c[1] == t.f && c[|c| - 1] == t.e;
    assert LinkAt(l, 0, h.n, h.p) && LinkAt(l, 1, h.n, h.p) && LinkAt(l, 2, h.n, h.p);
    assert LinkAt(c, 0, h.n, h.p) && LinkAt(c, |c| - 1, h.n, h.p);
    assert LinkAt(c, 1, h.n, h.p) && LinkAt(c, |c| - 2, h.n, h.p);
    OnCircle(h, body, owner, a, 2);
    OnCircle(h, body, owner, a, |c| - 2);
    OnCircle(h, body, owner, r, Succ(2, |l|));
    GuardOwner(h, body, owner, s, c[2]);
    GuardOwner(h, body, owner, s, c[|c| - 2]);
  }

  lemma SpotKeysHold(h: Heap, body: Bodies, owner: Owners, s: RuleId, r: RuleId, a: RuleId)
    requires Sound(h, body, owner, s) && Expandable(h, body, r, a)
    ensures SpotKeys(h, SpotOf(h, body, r, a))
  {
    var t := SpotOf(h, body, r, a);
    assert PlacedRule(h, body, owner, r) && PlacedRule(h, body, owner, a);
    assert Circle(h, body, r)[2] == t.right && Circle(h, body, a)[1] == t.f && Circle(h, body, a)[|body[a]|] == t.e;
    OnCircle(h, body, owner, r, 2);
    OnCircle(h, body, owner, a, 1);
    OnCircle(h, body, owner, a, |body[a]|);
    GuardOwner(h, body, owner, s, t.right);
    GuardOwner(h, body, owner, s, t.f);
    GuardOwner(h, body, owner, s, t.e);
    forall z | z in h.key
      ensures h.key[z] != Zero && (h.key[z].Rule? ==> h.key[z].r in h.guard)
      ensures h.key[z] == Rule(a) ==> z == t.x || z == t.ga
    {
      assert RefOk(h, owner, s, z);
      if h.key[z] == Rule(a) && !Guards(h, z) { assert z in Uses(h, a); }
    }
  }

  lemma SpotHolds(h: Heap, body: Bodies, owner: Owners, s: RuleId, r: RuleId, a: RuleId)
    requires Sound(h, body, owner, s) && Expandable(h, body, r, a)
    ensures SpotOk(h, SpotOf(h, body, r, a))
  {
    SpotLinksHold(h, body, owner, s, r, a);
    SpotKeysHold(h, body, owner, s, r, a);
    LinkedIsClosed(h, body);
    var t := SpotOf(h, body, r, a);
    forall z | z in h.key && (h.n[z] == t.x || h.n[z] == t.ga) ensures z == h.p[h.n[z]] {
      Neighbours(h, body, owner, z);
    }
  }

  /** `g` is `h` with rule `a` inlined at the spot. */
  ghost predicate Inlined(h: Heap, t: Spot, g: Heap) {
    && t.Within(h)
    && Stage(h, t, g, false)
    && t.gr in g.n && g.n[t.gr] == t.f && t.f in g.p && g.p[t.f] == t.gr
    && t.e in g.n && g.n[t.e] == t.right && t.right in g.p && g.p[t.right] == t.e
    && CountKept(h.count, t.a, g.count)
  }

  ghost function BodiesInlined(body: Bodies, r: RuleId, a: RuleId): Bodies
    requires r in body && a in body && r != a && |body[r]| >= 1
  {
    (body - {a})[r := body[a] + body[r][1..]]
  }

  ghost function OwnersInlined(owner: Owners, t: Spot): Owners {
    map z | z in owner && z != t.x && z != t.ga :: if owner[z] == t.a then t.r else owner[z]
  }

  lemma InlinedLinks(h: Heap, t: Spot, g: Heap)
    requires Inlined(h, t, g) && SpotLinks(h, t)
    ensures forall z {:trigger g.n[z]} {:trigger z in g.n} ::
      z in h.n && z != t.gr && z != t.x && z != t.ga && z != t.e ==> z in g.n && g.n[z] == h.n[z]
    ensures forall z {:trigger g.p[z]} {:trigger z in g.p} ::
      z in h.p && z != t.x && z != t.ga && z != t.f && z != t.right ==> z in g.p && g.p[z] == h.p[z]
  {
  }

  lemma InlinedCircle(h: Heap, body: Bodies, owner: Owners, r: RuleId, a: RuleId, g: Heap)
    requires PlacedRule(h, body, owner, r) && LinkedRule(h, body, r)
    requires PlacedRule(h, body, owner, a) && LinkedRule(h, body, a)
    requires Expandable(h, body, r, a)
    requires SpotLinks(h, SpotOf(h, body, r, a)) && Inlined(h, SpotOf(h, body, r, a), g)
    requires r in g.guard && g.guard[r] == h.guard[r]
    ensures LinkedRule(g, BodiesInlined(body, r, a), r)
  {
    var t := SpotOf(h, body, r, a);
    var l, c := Circle(h, body, r), Circle(h, body, a);
    CirclesApart(h, body, owner, r, a);
    InlinedLinks(h, t, g);
    assert l[0] == t.gr && l[1] == t.x && l[2] == t.right && c[0] == t.ga && c[1] == t.f && c[|c| - 1] == t.e;
    RingSplice(l, c, h.n, h.p, g.n, g.p);
    assert Circle(g, BodiesInlined(body, r, a), r) == [l[0]] + c[1..] + l[2..];
  }

  lemma CirclesApart(h: Heap, body: Bodies, owner: Owners, r: RuleId, a: RuleId)
    requires PlacedRule(h, body, owner, r) && PlacedRule(h, body, owner, a) && r != a
    ensures forall x :: x in Circle(h, body, r) ==> x !in Circle(h, body, a) && x in owner && owner[x] == r
    ensures forall x :: x in Circle(h, body, a) ==> x in owner && owner[x] == a
  {
    forall x | x in Circle(h, body, r) ensures x in owner && owner[x] == r {
      var i :| 0 <= i < |Circle(h, body, r)| && Circle(h, body, r)[i] == x;
      OnCircle(h, body, owner, r, i);
    }
    forall x | x in Circle(h, body, a) ensures x in owner && owner[x] == a {
      var i :| 0 <= i < |Circle(h, body, a)| && Circle(h, body, a)[i] == x;
      OnCircle(h, body, owner, a, i);
    }
  }

  /** Who owned the symbols of the spot. */
  lemma SpotOwners(h: Heap, body: Bodies, owner: Owners, r: RuleId, a: RuleId)
    requires PlacedRule(h, body, owner, r) && PlacedRule(h, body, owner, a) && Expandable(h, body, r, a)
    ensures var t := SpotOf(h, body, r, a);
      && t.gr in owner && owner[t.gr] == r && t.x in owner && owner[t.x] == r && t.right in owner && owner[t.right] == r
      && t.ga in owner && owner[t.ga] == a && t.f in owner && owner[t.f] == a && t.e in owner && owner[t.e] == a
  {
  }

  lemma InlinedOther(h: Heap, body: Bodies, owner: Owners, r: RuleId, a: RuleId, g: Heap, q: RuleId)
    requires PlacedRule(h, body, owner, r) && PlacedRule(h, body, owner, a)
    requires PlacedRule(h, body, owner, q) && LinkedRule(h, body, q) && q != r && q != a
    requires Expandable(h, body, r, a)
    requires SpotLinks(h, SpotOf(h, body, r, a)) && Inlined(h, SpotOf(h, body, r, a), g)
    ensures LinkedRule(g, BodiesInlined(body, r, a), q)
    ensures PlacedRule(g, BodiesInlined(body, r, a), OwnersInlined(owner, SpotOf(h, body, r, a)), q)
  {
    var t := SpotOf(h, body, r, a);
    SpotOwners(h, body, owner, r, a);
    InlinedLinks(h, t, g);
    OtherLinked(h, body, owner, q, g, BodiesInlined(body, r, a));
    OtherPlaced(h, body, owner, q, g, BodiesInlined(body, r, a), OwnersInlined(owner, t));
  }

  lemma DistinctJoin(l: seq<Ptr>, c: seq<Ptr>)
    requires |l| >= 2 && |c| >= 1 && Distinct(l) && Distinct(c) && forall x :: x in l ==> x !in c
    ensures Distinct([l[0]] + c[1..] + l[2..])
  {
    var m := [l[0]] + c[1..] + l[2..];
    forall i, j | 0 <= i < j < |m| ensures m[i] != m[j] {
      assert i < |c| && j >= |c| ==> l[j - |c| + 2] in l && (i > 0 ==> c[i] in c);
      assert i == 0 && j < |c| ==> l[0] in l && c[j] in c;
      assert m[i] == if i == 0 then l[0] else if i < |c| then c[i] else l[i - |c| + 2];
      assert m[j] == if j < |c| then c[j] else l[j - |c| + 2];
    }
  }

  lemma InlinedPlacedHere(h: Heap, body: Bodies, owner: Owners, r: RuleId, a: RuleId, g: Heap)
    requires PlacedRule(h, body, owner, r) && PlacedRule(h, body, owner, a)
    requires Expandable(h, body, r, a) && r in g.guard && g.guard[r] == h.guard[r]
    ensures PlacedRule(g, BodiesInlined(body, r, a), OwnersInlined(owner, SpotOf(h, body, r, a)), r)
  {
    var t := SpotOf(h, body, r, a);
    var l, c := Circle(h, body, r), Circle(h, body, a);
    var body', owner' := BodiesInlined(body, r, a), OwnersInlined(owner, t);
    CirclesApart(h, body, owner, r, a);
    DistinctJoin(l, c);
    assert Circle(g, body', r) == [l[0]] + c[1..] + l[2..];
    SpotOwners(h, body, owner, r, a);
    forall i | 0 <= i < |body'[r]| ensures body'[r][i] in owner' && owner'[body'[r][i]] == r {
      if i < |body[a]| {
        assert body'[r][i] == body[a][i] && body[a][i] == c[i + 1];
        assert c[i + 1] != c[0];
      } else {
        var j := i - |body[a]| + 1;
        assert body'[r][i] == body[r][j] && body[r][j] == l[j + 1];
        assert l[j + 1] != l[1];
      }
    }
    assert l[0] != l[1];
  }

  lemma InlinedLinked(h: Heap, body: Bodies, owner: Owners, s: RuleId, r: RuleId, a: RuleId, g: Heap)
    requires Sound(h, body, owner, s) && Expandable(h, body, r, a) && Inlined(h, SpotOf(h, body, r, a), g)
    ensures Linked(g, BodiesInlined(body, r, a))
  {
    SpotLinksHold(h, body, owner, s, r, a);
    assert PlacedRule(h, body, owner, r) && LinkedRule(h, body, r);
    assert PlacedRule(h, body, owner, a) && LinkedRule(h, body, a);
    forall q | q in g.guard ensures LinkedRule(g, BodiesInlined(body, r, a), q) {
      if q == r {
        InlinedCircle(h, body, owner, r, a, g);
      } else {
        assert PlacedRule(h, body, owner, q) && LinkedRule(h, body, q);
        InlinedOther(h, body, owner, r, a, g, q);
      }
    }
  }

  lemma InlinedRules(h: Heap, body: Bodies, owner: Owners, s: RuleId, r: RuleId, a: RuleId, g: Heap, q: RuleId)
    requires Sound(h, body, owner, s) && Expandable(h, body, r, a) && Inlined(h, SpotOf(h, body, r, a), g)
    requires q in g.guard
    ensures PlacedRule(g, BodiesInlined(body, r, a), OwnersInlined(owner, SpotOf(h, body, r, a)), q)
  {
    SpotLinksHold(h, body, owner, s, r, a);
    assert PlacedRule(h, body, owner, r) && PlacedRule(h, body, owner, a);
    if q == r {
      InlinedPlacedHere(h, body, owner, r, a, g);
    } else {
      assert PlacedRule(h, body, owner, q) && LinkedRule(h, body, q);
      InlinedOther(h, body, owner, r, a, g, q);
    }
  }

  lemma InlinedSymbol(h: Heap, body: Bodies, owner: Owners, r: RuleId, a: RuleId, g: Heap, z: Ptr)
    requires PlacedRule(h, body, owner, r) && PlacedRule(h, body, owner, a) && Expandable(h, body, r, a)
    requires PlacedSymbol(h, body, owner, z) && z != body[r][0] && z != h.guard[a]
    requires r in g.guard && g.guard[r] == h.guard[r]
    requires owner[z] != a ==> owner[z] in g.guard && g.guard[owner[z]] == h.guard[owner[z]]
    ensures PlacedSymbol(g, BodiesInlined(body, r, a), OwnersInlined(owner, SpotOf(h, body, r, a)), z)
  {
    var body' := BodiesInlined(body, r, a);
    var l, c := Circle(h, body, r), Circle(h, body, a);
    assert Circle(g, body', r) == [l[0]] + c[1..] + l[2..];
    if owner[z] == r {
      var i :| 0 <= i < |l| && l[i] == z;
      assert Circle(g, body', r)[if i == 0 then 0 else |c| + i - 2] == z;
    } else if owner[z] == a {
      var i :| 0 <= i < |c| && c[i] == z;
      assert Circle(g, body', r)[i] == z;
    } else {
      assert Circle(g, body', owner[z]) == Circle(h, body, owner[z]);
    }
  }

  lemma PlacedOwner(h: Heap, body: Bodies, owner: Owners, z: Ptr)
    requires PlacedSymbol(h, body, owner, z)
    ensures z in owner && owner[z] in h.guard
  {
  }

  lemma InlinedPlaced(h: Heap, body: Bodies, owner: Owners, s: RuleId, r: RuleId, a: RuleId, g: Heap)
    requires Sound(h, body, owner, s) && Expandable(h, body, r, a) && Inlined(h, SpotOf(h, body, r, a), g)
    ensures Placed(g, BodiesInlined(body, r, a), OwnersInlined(owner, SpotOf(h, body, r, a)))
  {
    hide Linked; hide Refs; hide Counted; hide TableOk; hide CountKept; hide PlacedRule; hide PlacedSymbol;
    var t := SpotOf(h, body, r, a);
    var body', owner' := BodiesInlined(body, r, a), OwnersInlined(owner, t);
    forall q | q in g.guard ensures PlacedRule(g, body', owner', q) {
      InlinedRules(h, body, owner, s, r, a, g, q);
    }
    assert PlacedRule(h, body, owner, r) && PlacedRule(h, body, owner, a);
    forall z | z in g.key ensures PlacedSymbol(g, body', owner', z) {
      assert PlacedSymbol(h, body, owner, z);
      PlacedOwner(h, body, owner, z);
      InlinedSymbol(h, body, owner, r, a, g, z);
    }
  }

  lemma InlinedRef(h: Heap, body: Bodies, owner: Owners, s: RuleId, r: RuleId, a: RuleId, g: Heap, z: Ptr)
    requires Placed(h, body, owner) && Refs(h, owner, s) && Expandable(h, body, r, a)
    requires z in h.key && z in g.key && g.key[z] == h.key[z] && z != body[r][0] && z != h.guard[a]
    requires (Guards(g, z) <==> Guards(h, z)) && (g.key[z].Rule? ==> g.key[z].r in g.guard)
    ensures RefOk(g, OwnersInlined(owner, SpotOf(h, body, r, a)), s, z)
  {
    assert RefOk(h, owner, s, z);
    GuardOwner(h, body, owner, s, z);
    if owner[z] == a && !Guards(h, z) {
      assert PlacedSymbol(h, body, owner, z);
      assert z in body[a];
      var i :| 0 <= i < |body[a]| && body[a][i] == z;
    }
  }

  lemma InlinedRefs(h: Heap, body: Bodies, owner: Owners, s: RuleId, r: RuleId, a: RuleId, g: Heap)
    requires Placed(h, body, owner) && Refs(h, owner, s) && Expandable(h, body, r, a) && a != s
    requires SpotKeys(h, SpotOf(h, body, r, a)) && Stage(h, SpotOf(h, body, r, a), g, false)
    ensures Refs(g, OwnersInlined(owner, SpotOf(h, body, r, a)), s)
  {
    var t := SpotOf(h, body, r, a);
    forall z | z in g.key ensures RefOk(g, OwnersInlined(owner, t), s, z) {
      StageGuards(h, t, g, false, z);
      assert g.key[z] == h.key[z];
      InlinedRef(h, body, owner, s, r, a, g, z);
    }
    forall q | q in g.guard ensures g.guard[q] in g.key && g.key[g.guard[q]] == Rule(q) {
      assert Guards(h, h.guard[q]) && !Guards(h, t.x);
    }
  }

  lemma InlinedUses(h: Heap, t: Spot, g: Heap, q: RuleId)
    requires SpotKeys(h, t) && Stage(h, t, g, false) && q in g.guard
    ensures Uses(g, q) == Uses(h, q)
  {
    forall z ensures z in Uses(g, q) <==> z in Uses(h, q) {
      if z in g.key {
        StageGuards(h, t, g, false, z);
        assert g.key[z] == h.key[z];
      }
    }
  }

  lemma InlinedCounted(h: Heap, t: Spot, g: Heap)
    requires SpotKeys(h, t) && Inlined(h, t, g) && Counted(h)
    ensures Counted(g)
  {
    forall q | q in g.guard ensures g.count[q] == |Uses(g, q)| {
      InlinedUses(h, t, g, q);
    }
  }

  lemma InlinedSound(h: Heap, body: Bodies, owner: Owners, s: RuleId, r: RuleId, a: RuleId, g: Heap)
    requires Sound(h, body, owner, s) && Expandable(h, body, r, a) && a != s
    requires Inlined(h, SpotOf(h, body, r, a), g) && TableOk(g)
    ensures Sound(g, BodiesInlined(body, r, a), OwnersInlined(owner, SpotOf(h, body, r, a)), s)
  {
    InlinedLinked(h, body, owner, s, r, a, g);
    InlinedPlaced(h, body, owner, s, r, a, g);
    SpotKeysHold(h, body, owner, s, r, a);
    InlinedRefs(h, body, owner, s, r, a, g);
    InlinedCounted(h, SpotOf(h, body, r, a), g);
  }

  // ---------------------------------------------------------------------
  // expand: one heap after the other
  // ---------------------------------------------------------------------

  /** Links at the seams: `n` of the guard and of the last symbol of `a`, `p` of
      the first symbol of `a` and of the symbol to the right. */
  ghost predicate Seams(g: Heap, t: Spot, nGr: Ptr, nE: Ptr, pF: Ptr, pRight: Ptr) {
    && t.gr in g.n && g.n[t.gr] == nGr && t.e in g.n && g.n[t.e] == nE
    && t.f in g.p && g.p[t.f] == pF && t.right in g.p && g.p[t.right] == pRight
  }

  ghost predicate CountKept(count: map<RuleId, int>, a: RuleId, count': map<RuleId, int>) {
    && (forall q {:trigger q in count'} {:trigger count'[q]} :: q in count' <==> q in count && q != a)
    && (forall q {:trigger count'[q]} :: q in count' ==> count'[q] == count[q])
  }

  lemma FreeRule(h: Heap, t: Spot)
    requires SpotOk(h, t) && t.a in h.count
    ensures Deletable(h, t.ga) && SafeDelete(h, t.ga)
    ensures DeleteHeap(h, t.ga).table == h.table
    ensures DeleteHeap(h, t.ga).guard == h.guard
  {
    hide Closed; hide TableOk; hide Forget; hide JoinTable; hide Readable; hide IsGuard; hide Triple; hide SafeJoin;
    GuardUnlinked(h, t);
    GuardForgets(h, t);
  }

  /** The heap once rule `a` is freed. */
  ghost function FreedHeap(h: Heap, t: Spot): Heap
    requires Deletable(h, t.ga)
  {
    var g := DeleteHeap(h, t.ga);
    g.(guard := g.guard - {t.a}, count := g.count - {t.a})
  }

  /** No entry is at the guard that is gone or at the symbol before it. */
  lemma FreedTable(h: Heap, t: Spot)
    requires SpotOk(h, t) && Deletable(h, t.ga) && DeleteHeap(h, t.ga).table == h.table
    ensures TableOk(FreedHeap(h, t))
  {
    hide Closed, SpotKeys, Forget, JoinTable, Readable, IsGuard, Triple, Joinable;
    var g := FreedHeap(h, t);
    forall d | d in g.table ensures Entry(g, d, g.table[d]) {
      assert Entry(h, d, h.table[d]);
      EntryInside(h, t, d);
    }
  }

  lemma EntryInside(h: Heap, t: Spot, d: Digram)
    requires SpotOk(h, t) && d in h.table
    ensures var z := h.table[d];
      Entry(h, d, z) && z != t.e && z != t.ga && h.n[z] != t.ga && h.p[t.ga] == t.e && h.n[t.ga] == t.f
  {
    hide Closed;
    assert Entry(h, d, h.table[d]);
    assert Guards(h, t.ga);
  }

  /** The heap once rule `a` is freed, the entry of `x` dropped and its key zeroed. */
  ghost function ZeroedHeap(h: Heap, t: Spot): Heap
    requires Deletable(h, t.ga) && HasDigram(DeleteHeap(h, t.ga), t.x)
  {
    var g := DeleteHeap(h, t.ga);
    g.(guard := g.guard - {t.a}, count := g.count - {t.a},
       table := DropEntry(g, t.x), key := g.key[t.x := Zero])
  }

  lemma ZeroedStage(h: Heap, t: Spot)
    requires SpotLinks(h, t) && Deletable(h, t.ga)
    ensures HasDigram(DeleteHeap(h, t.ga), t.x)
    ensures Stage(h, t, ZeroedHeap(h, t), true) && Seams(ZeroedHeap(h, t), t, t.x, t.f, t.e, t.x)
  {
    hide Forget; hide JoinTable; hide Readable; hide IsGuard; hide Triple; hide Joinable; hide Guards;
  }

  lemma ZeroedCounts(h: Heap, t: Spot)
    requires SpotLinks(h, t) && Deletable(h, t.ga) && h.key[t.ga] == Rule(t.a)
    requires DeleteHeap(h, t.ga).table == h.table && HasDigram(DeleteHeap(h, t.ga), t.x)
    ensures CountKept(h.count, t.a, ZeroedHeap(h, t).count)
    ensures ZeroedHeap(h, t).table == DropEntry(h, t.x)
  {
    hide Forget; hide JoinTable; hide Readable; hide IsGuard; hide Triple; hide Joinable; hide Guards;
  }

  lemma UnlinkedStage(h: Heap, t: Spot, g: Heap)
    requires Stage(h, t, g, true) && Seams(g, t, t.x, t.f, t.e, t.x) && Joinable(g, t.gr, t.right)
    requires t.gr != t.e && t.f != t.right
    ensures Stage(h, t, JoinHeap(g, t.gr, t.right), true)
    ensures Seams(JoinHeap(g, t.gr, t.right), t, t.right, t.f, t.e, t.gr)
  {
    hide JoinTable; hide Joinable;
    StageRelink(h, t, g, JoinHeap(g, t.gr, t.right), true);
  }

  lemma ZeroedDeletable(h: Heap, t: Spot, g: Heap)
    requires SpotOk(h, t) && Stage(h, t, g, true) && Seams(g, t, t.x, t.f, t.e, t.x) && g.table == DropEntry(h, t.x)
    ensures Deletable(g, t.x) && SafeDelete(g, t.x) && TableOk(DeleteHeap(g, t.x))
  {
    hide Closed; hide TableOk; hide Forget; hide JoinTable; hide Triple; hide SpotKeys; hide DropEntry; hide SafeJoin;
    ZeroedTable(h, t, g);
    ZeroedUnlinked(h, t, g);
    var j := JoinHeap(g, t.gr, t.right);
    UnlinkedStage(h, t, g);
    ZeroedForgets(h, t, j);
    assert g.n[t.x] == h.n[t.x] && g.p[t.x] == h.p[t.x];
    ZeroedFreed(h, t, j, DeleteHeap(g, t.x));
  }

  lemma DeletedStage(h: Heap, t: Spot, g: Heap)
    requires SpotLinks(h, t) && Stage(h, t, g, true) && Seams(g, t, t.x, t.f, t.e, t.x) && Deletable(g, t.x)
    ensures Stage(h, t, DeleteHeap(g, t.x), false) && Seams(DeleteHeap(g, t.x), t, t.right, t.f, t.e, t.gr)
    ensures DeleteHeap(g, t.x).count == g.count
  {
    hide Forget; hide JoinTable; hide Readable; hide IsGuard; hide Triple; hide Joinable; hide Guards; hide Stage;
    StageAtX(h, t, g);
    UnlinkedStage(h, t, g);
    StageFree(h, t, JoinHeap(g, t.gr, t.right), DeleteHeap(g, t.x));
  }

  /** What the zeroed symbol still shows. */
  lemma StageAtX(h: Heap, t: Spot, g: Heap)
    requires SpotLinks(h, t) && Stage(h, t, g, true)
    ensures t.x in g.key && g.key[t.x] == Zero && t.x in g.n && t.x in g.p && g.n[t.x] == t.right && g.p[t.x] == t.gr
  {
  }

  lemma StageFree(h: Heap, t: Spot, g: Heap, k: Heap)
    requires Stage(h, t, g, true) && k.guard == g.guard
    requires k.key == g.key - {t.x} && k.n == g.n - {t.x} && k.p == g.p - {t.x}
    ensures Stage(h, t, k, false)
  {
    forall z | z in k.key && z != t.gr && z != t.e ensures z in h.n && k.n[z] == h.n[z] {
      assert g.n[z] == h.n[z];
    }
    forall z | z in k.key && z != t.f && z != t.right ensures z in h.p && k.p[z] == h.p[z] {
      assert g.p[z] == h.p[z];
    }
  }

  lemma JoinedStage(h: Heap, t: Spot, g: Heap, left: Ptr, right: Ptr, nGr: Ptr, nE: Ptr, pF: Ptr, pRight: Ptr)
    requires Stage(h, t, g, false) && Joinable(g, left, right) && t.Apart() && Seams(g, t, nGr, nE, pF, pRight)
    requires (left == t.gr && right == t.f) || (left == t.e && right == t.right)
    ensures Stage(h, t, JoinHeap(g, left, right), false)
    ensures left == t.gr ==> Seams(JoinHeap(g, left, right), t, t.f, nE, t.gr, pRight)
    ensures left == t.e ==> Seams(JoinHeap(g, left, right), t, nGr, t.right, pF, t.e)
    ensures JoinHeap(g, left, right).count == g.count
  {
    hide JoinTable; hide Joinable;
    StageRelink(h, t, g, JoinHeap(g, left, right), false);
  }

  /** Relinking only at the seams stays in the same stage. */
  lemma StageRelink(h: Heap, t: Spot, g: Heap, k: Heap, hasX: bool)
    requires Stage(h, t, g, hasX) && k.guard == g.guard && k.key == g.key
    requires forall z {:trigger z in k.n} :: z in k.n <==> z in g.n
    requires forall z {:trigger z in k.p} :: z in k.p <==> z in g.p
    requires forall z {:trigger k.n[z]} ::
      z in g.key && z != t.gr && z != t.e ==> z in k.n && z in g.n && k.n[z] == g.n[z]
    requires forall z {:trigger k.p[z]} ::
      z in g.key && z != t.f && z != t.right ==> z in k.p && z in g.p && k.p[z] == g.p[z]
    ensures Stage(h, t, k, hasX)
  {
    forall z | z in k.key && z != t.gr && z != t.e ensures z in h.n && k.n[z] == h.n[z] {
      assert k.n[z] == g.n[z];
    }
    forall z | z in k.key && z != t.f && z != t.right ensures z in h.p && k.p[z] == h.p[z] {
      assert k.p[z] == g.p[z];
    }
  }

  /** What `expand` reads at the start. */
  lemma ExpandReads(h: Heap, body: Bodies, owner: Owners, s: RuleId, r: RuleId, a: RuleId)
    requires Sound(h, body, owner, s) && Expandable(h, body, r, a)
    ensures SpotOk(h, SpotOf(h, body, r, a)) && a in h.count
    ensures SpotLinks(h, SpotOf(h, body, r, a)) && h.key[h.guard[a]] == Rule(a)
  {
    SpotHolds(h, body, owner, s, r, a);
  }

  lemma ZeroedSteps(h: Heap, t: Spot)
    requires SpotOk(h, t) && Deletable(h, t.ga) && DeleteHeap(h, t.ga).table == h.table
    ensures HasDigram(DeleteHeap(h, t.ga), t.x)
    ensures Stage(h, t, ZeroedHeap(h, t), true) && Seams(ZeroedHeap(h, t), t, t.x, t.f, t.e, t.x)
    ensures CountKept(h.count, t.a, ZeroedHeap(h, t).count) && ZeroedHeap(h, t).table == DropEntry(h, t.x)
  {
    hide Deletable; hide DeleteHeap; hide Stage; hide CountKept; hide Seams; hide ZeroedHeap;
    ZeroedStage(h, t);
    ZeroedCounts(h, t);
  }

  lemma SeamDone(h: Heap, t: Spot, g: Heap)
    requires SpotOk(h, t) && Stage(h, t, g, false) && TableOk(g) && CountKept(h.count, t.a, g.count)
    requires Seams(g, t, t.f, t.right, t.gr, t.e)
    ensures HasDigram(g, t.e)
    ensures var k := g.(table := g.table[DigramOf(g, t.e) := t.e]); TableOk(k) && Inlined(h, t, k)
  {
    hide SpotKeys; hide TableOk; hide Closed;
    SeamRecorded(h, t, g);
  }

  /** No guard at the seam. */
  lemma SeamIsPlain(h: Heap, t: Spot, g: Heap)
    requires SpotOk(h, t) && Stage(h, t, g, false) && Seams(g, t, t.f, t.right, t.gr, t.e)
    ensures HasDigram(g, t.e) && g.n[t.e] == t.right && !Guards(g, t.e) && !Guards(g, t.right)
  {
    StageGuards(h, t, g, false, t.e);
    StageGuards(h, t, g, false, t.right);
  }

  /** A free address is not linked. */
  lemma UnlinkedFree(h: Heap, body: Bodies, owner: Owners, s: RuleId, y: Ptr)
    requires Sound(h, body, owner, s) && y !in h.key
    ensures y !in h.n && y !in h.p
  {
  }
}
