/**
  The two constraints the Sequitur compressor maintains: no digram occurs twice, and
  every rule is used at least twice. First the digrams: how the relinking steps keep
  every digram unique and recorded.
 */
module SequiturDigrams {
  import opened Grammar
  import opened SequiturHeap
  import opened SequiturExpand
  import opened SequiturState

  // ---------------------------------------------------------------------
  // Digrams are unique and recorded
  // ---------------------------------------------------------------------

  /** `x` starts a digram. */
  ghost predicate Pos(h: Heap, x: Ptr) {
    HasDigram(h, x) && !Guards(h, x) && !Guards(h, h.n[x])
  }

  /** The same place, or places that overlap. */
  ghost predicate Near(h: Heap, x: Ptr, y: Ptr) {
    x == y || (x in h.n && h.n[x] == y) || (y in h.n && h.n[y] == x)
  }

  ghost predicate UniqueAt(h: Heap, e: set<Ptr>, x: Ptr, y: Ptr) {
    Pos(h, x) && Pos(h, y) && x !in e && y !in e && DigramOf(h, x) == DigramOf(h, y) ==> Near(h, x, y)
  }

  /** Apart from the places in `e`, equal digrams overlap. */
  ghost predicate Unique(h: Heap, e: set<Ptr>) {
    forall x, y {:trigger UniqueAt(h, e, x, y)} :: UniqueAt(h, e, x, y)
  }

  ghost predicate FiledAt(h: Heap, e: set<Ptr>, x: Ptr) {
    Pos(h, x) && x !in e ==> DigramOf(h, x) in h.table
  }

  /** Apart from the places in `e`, every digram is in the table. */
  ghost predicate Filed(h: Heap, e: set<Ptr>) {
    forall x {:trigger FiledAt(h, e, x)} :: FiledAt(h, e, x)
  }

  ghost predicate Neat(h: Heap, e: set<Ptr>) {
    Unique(h, e) && Filed(h, e)
  }

  /** No place outside `e` starts the digram. */
  ghost predicate Absent(h: Heap, e: set<Ptr>, d: Digram) {
    forall w {:trigger Pos(h, w)} :: Pos(h, w) && w !in e ==> DigramOf(h, w) != d
  }

  // ---------------------------------------------------------------------
  // Deleting a symbol
  // ---------------------------------------------------------------------

  /** `g` is `h` with `x`, between `left` and `right`, unlinked and freed. */
  ghost predicate Unlinked(h: Heap, g: Heap, left: Ptr, x: Ptr, right: Ptr) {
    && left in h.n && h.n[left] == x && x in h.n && h.n[x] == right && x in h.key && right in h.key && left != x
    && right != x
    && !Guards(h, x)
    && (forall z {:trigger h.n[z]} :: z in h.n && h.n[z] == x ==> z == left)
    && g.guard == h.guard && g.key == h.key - {x} && g.n == h.n[left := right] - {x}
  }

  lemma UnlinkedPos(h: Heap, g: Heap, left: Ptr, x: Ptr, right: Ptr, w: Ptr)
    requires Unlinked(h, g, left, x, right) && Pos(g, w) && w != left
    ensures Pos(h, w) && w != x && h.n[w] == g.n[w] && DigramOf(h, w) == DigramOf(g, w)
  {
  }

  lemma UnlinkedUnique(h: Heap, g: Heap, left: Ptr, x: Ptr, right: Ptr, e: set<Ptr>)
    requires Unlinked(h, g, left, x, right) && Unique(h, e)
    ensures Unique(g, e - {x} + {left})
  {
    hide Unlinked;
    var e' := e - {x} + {left};
    forall w, y ensures UniqueAt(g, e', w, y) {
      if Pos(g, w) && Pos(g, y) && w !in e' && y !in e' && DigramOf(g, w) == DigramOf(g, y) {
        UnlinkedPos(h, g, left, x, right, w);
        UnlinkedPos(h, g, left, x, right, y);
        assert UniqueAt(h, e, w, y);
      }
    }
  }

  /** What `join(left, right)` forgets is recorded again if it still occurs. */
  lemma JoinKeepsFiled(h: Heap, left: Ptr, x: Ptr, right: Ptr, e: set<Ptr>, w: Ptr)
    requires Site(h, left, x, right) && Joinable(h, left, right) && Neat(h, e)
    requires left in e ==> Unrecorded(h, left)
    requires Pos(h, w) && w !in e && w != left && w != x && (h.n[w] == left ==> left in h.p && h.p[left] == w)
    requires Readable(h, left) && (IsGuard(h, left) <==> Guards(h, left))
    ensures DigramOf(h, w) in JoinTable(h, left, right)
  {
    var d := DigramOf(h, w);
    assert FiledAt(h, e, w);
    if d !in Forget(h, left) {
      assert left !in e && Pos(h, left) && DigramOf(h, left) == d;
      assert UniqueAt(h, e, w, left);
      assert h.n[w] == left;
      assert Triple(h, left);
    }
  }

  /** Deleting `x` from a place outside `e` or from one whose digram is recorded nowhere
      else leaves every other digram recorded. */
  lemma DeleteFiledAt(h: Heap, left: Ptr, x: Ptr, right: Ptr, e: set<Ptr>, w: Ptr)
    requires Site(h, left, x, right) && Deletable(h, x) && Neat(h, e)
    requires left in e ==> Unrecorded(h, left)
    requires x in e && Pos(h, x) ==> Unrecorded(h, x) || Absent(h, e, DigramOf(h, x))
    requires Pos(h, w) && w !in e && w != left && w != x && (h.n[w] == left ==> left in h.p && h.p[left] == w)
    requires h.n[w] == x ==> w == left
    requires Readable(h, left) && (IsGuard(h, left) <==> Guards(h, left))
    requires Readable(JoinHeap(h, left, right), right)
    requires IsGuard(JoinHeap(h, left, right), right) <==> Guards(h, right)
    ensures DigramOf(h, w) in DeleteHeap(h, x).table
  {
    var d := DigramOf(h, w);
    JoinKeepsFiled(h, left, x, right, e, w);
    var g := JoinHeap(h, left, right);
    if d !in Forget(g, x) {
      assert g.table[d] == x && DigramOf(h, x) == d && Pos(h, x);
      assert h.table[d] == x;
      assert x !in e;
      assert UniqueAt(h, e, w, x);
      assert w == right;
      assert Triple(h, right);
    }
  }

  /** What is known around a symbol about to be deleted. */
  ghost predicate Around(h: Heap, left: Ptr, x: Ptr, right: Ptr) {
    && Site(h, left, x, right) && Deletable(h, x)
    && Unlinked(h, DeleteHeap(h, x), left, x, right)
    && Readable(h, left) && (IsGuard(h, left) <==> Guards(h, left))
    && Readable(JoinHeap(h, left, right), right) && (IsGuard(JoinHeap(h, left, right), right) <==> Guards(h, right))
    && Unrecorded(DeleteHeap(h, x), left)
    && (left in h.p && forall w {:trigger h.n[w]} :: w in h.n && h.n[w] == left ==> h.p[left] == w)
  }

  lemma DeleteAround(h: Heap, body: Bodies, owner: Owners, s: RuleId, x: Ptr)
    requires Sound(h, body, owner, s) && x in h.key && !Guards(h, x) && Deletable(h, x)
    ensures x in h.p && x in h.n && Around(h, h.p[x], x, h.n[x])
  {
    var left, right := h.p[x], h.n[x];
    DeleteSite(h, body, owner, s, x);
    LinkedIsClosed(h, body);
    GuardTest(h, left);
    DeleteJoin(h, left, x, right);
    Neighbours(h, body, owner, x);
    forall z | z in h.n ensures (h.n[z] == x ==> z == left) && (h.n[z] == left ==> h.p[left] == z) {
      Neighbours(h, body, owner, z);
    }
  }

  lemma AroundNeat(h: Heap, left: Ptr, x: Ptr, right: Ptr, e: set<Ptr>)
    requires Around(h, left, x, right) && Neat(h, e)
    requires left in e ==> Unrecorded(h, left)
    requires x in e && Pos(h, x) ==> Unrecorded(h, x) || Absent(h, e, DigramOf(h, x))
    ensures Neat(DeleteHeap(h, x), e - {x} + {left})
  {
    hide Site;
    hide Deletable;
    hide DeleteHeap;
    hide JoinHeap;
    hide Readable;
    hide IsGuard;
    hide Unrecorded;
    hide Absent;
    hide Neat;
    NeatParts(h, e);
    var g := DeleteHeap(h, x);
    var e' := e - {x} + {left};
    UnlinkedUnique(h, g, left, x, right, e);
    forall w ensures FiledAt(g, e', w) {
      if Pos(g, w) && w !in e' {
        UnlinkedPos(h, g, left, x, right, w);
        DeleteFiledAt(h, left, x, right, e, w);
      }
    }
    NeatWhole(g, e');
  }

  lemma NeatParts(h: Heap, e: set<Ptr>)
    requires Neat(h, e)
    ensures Unique(h, e) && Filed(h, e)
  {
  }

  lemma NeatWhole(h: Heap, e: set<Ptr>)
    requires Unique(h, e) && forall x {:trigger FiledAt(h, e, x)} :: FiledAt(h, e, x)
    ensures Neat(h, e)
  {
  }

  // ---------------------------------------------------------------------
  // Inserting a symbol
  // ---------------------------------------------------------------------

  /** `g` is `h` with `y` linked in between `a` and `right`. */
  ghost predicate LinkedIn(h: Heap, g: Heap, a: Ptr, y: Ptr, right: Ptr, k: Key) {
    && a in h.n && h.n[a] == right && y !in h.key && y !in h.n
    && (forall z {:trigger h.n[z]} :: z in h.n ==> h.n[z] in h.key)
    && g.guard == h.guard && g.key == h.key[y := k] && g.n == h.n[y := right][a := y]
    && (forall r {:trigger h.guard[r]} :: r in h.guard ==> h.guard[r] in h.key)
  }

  lemma LinkedInPos(h: Heap, g: Heap, a: Ptr, y: Ptr, right: Ptr, k: Key, w: Ptr)
    requires LinkedIn(h, g, a, y, right, k) && Pos(g, w) && w != a && w != y
    ensures Pos(h, w) && h.n[w] == g.n[w] && DigramOf(h, w) == DigramOf(g, w)
  {
  }

  lemma LinkedInUnique(h: Heap, g: Heap, a: Ptr, y: Ptr, right: Ptr, k: Key, e: set<Ptr>)
    requires LinkedIn(h, g, a, y, right, k) && Unique(h, e)
    ensures Unique(g, e + {a, y})
  {
    hide LinkedIn;
    var e' := e + {a, y};
    forall w, v ensures UniqueAt(g, e', w, v) {
      if Pos(g, w) && Pos(g, v) && w !in e' && v !in e' && DigramOf(g, w) == DigramOf(g, v) {
        LinkedInPos(h, g, a, y, right, k, w);
        LinkedInPos(h, g, a, y, right, k, v);
        assert UniqueAt(h, e, w, v);
      }
    }
  }

  /** The insertion neither forgets a digram nor dangles. */
  ghost predicate InsertAround(h: Heap, a: Ptr, y: Ptr, k: Key) {
    && Insertable(h, a, y, k) && LinkedIn(h, InsertHeap(h, a, y, k), a, y, h.n[a], k)
    && forall d {:trigger d in InsertHeap(h, a, y, k).table} :: d in h.table ==> d in InsertHeap(h, a, y, k).table
  }

  lemma InsertForgets(h: Heap, a: Ptr, right: Ptr, y: Ptr, k: Key)
    requires Gap(h, a, right, k) && Closed(h) && TableOk(h) && y !in h.key && y !in h.n && y !in h.p
    requires forall r :: r in h.guard ==> h.guard[r] in h.key
    requires Insertable(h, a, y, k) && (Unrecorded(h, a) || Ends(h, a))
    ensures forall d {:trigger d in InsertHeap(h, a, y, k).table} :: d in h.table ==> d in InsertHeap(h, a, y, k).table
  {
    NewTable(h, y, k, right);
    InsertKeepsTable(h, a, right, y, k);
  }

  /** The first half of `insert_after` and the `delete_digram` of the second change nothing. */
  lemma InsertKeepsTable(h: Heap, a: Ptr, right: Ptr, y: Ptr, k: Key)
    requires Gap(h, a, right, k) && Closed(h) && TableOk(h) && y !in h.key && y !in h.n && y !in h.p
    requires forall r :: r in h.guard ==> h.guard[r] in h.key
    requires Insertable(h, a, y, k) && (Unrecorded(h, a) || Ends(h, a))
    ensures var g := JoinHeap(NewHeap(h, y, k), y, right);
      && g.table == h.table && HasDigram(g, a) && Readable(g, a) && Readable(g, g.n[a]) && Forget(g, a) == h.table
  {
    NewTable(h, y, k, right);
    var g := JoinHeap(NewHeap(h, y, k), y, right);
    assert Closed(g) by {
      forall q | q in g.guard
        ensures g.guard[q] in g.p && g.p[g.guard[q]] in g.n && g.n[g.p[g.guard[q]]] == g.guard[q]
      {
        assert h.n[h.p[h.guard[q]]] == h.guard[q];
      }
    }
    GuardTest(g, a);
    GuardTest(g, right);
  }

  lemma InsertAroundHolds(h: Heap, body: Bodies, owner: Owners, s: RuleId, r: RuleId, i: nat, y: Ptr, k: Key)
    requires Sound(h, body, owner, s) && r in h.guard && r in body && i <= |body[r]| && y !in h.key
    requires KeyFits(h, r, s, k)
    requires var a := Circle(h, body, r)[i]; Unrecorded(h, a) || Ends(h, a)
    ensures InsertAround(h, Circle(h, body, r)[i], y, k)
  {
    var a := Circle(h, body, r)[i];
    assert PlacedRule(h, body, owner, r);
    OnCircle(h, body, owner, r, i);
    InsertTableSound(h, body, owner, s, a, y, k);
    InsertGap(h, body, owner, s, a, k);
    LinkedIsClosed(h, body);
    InsertForgets(h, a, h.n[a], y, k);
    forall z | z in h.n ensures h.n[z] in h.key { Neighbours(h, body, owner, z); }
  }

  lemma InsertNeat(h: Heap, a: Ptr, y: Ptr, k: Key, e: set<Ptr>)
    requires InsertAround(h, a, y, k) && Neat(h, e)
    ensures Neat(InsertHeap(h, a, y, k), e + {a, y})
  {
    hide Insertable;
    hide InsertHeap;
    hide Neat;
    NeatParts(h, e);
    var g, e' := InsertHeap(h, a, y, k), e + {a, y};
    LinkedInUnique(h, g, a, y, h.n[a], k, e);
    forall w ensures FiledAt(g, e', w) {
      if Pos(g, w) && w !in e' {
        LinkedInPos(h, g, a, y, h.n[a], k, w);
        assert FiledAt(h, e, w);
      }
    }
    NeatWhole(g, e');
  }

  // ---------------------------------------------------------------------
  // Recording a digram
  // ---------------------------------------------------------------------

  lemma RecordNeat(h: Heap, e: set<Ptr>, x: Ptr)
    requires Neat(h, e) && HasDigram(h, x) && (Pos(h, x) ==> DigramOf(h, x) !in h.table)
    ensures Neat(h.(table := h.table[DigramOf(h, x) := x]), e - {x})
  {
    var g, e' := h.(table := h.table[DigramOf(h, x) := x]), e - {x};
    forall w, v ensures UniqueAt(g, e', w, v) {
      assert UniqueAt(h, e, w, v) && FiledAt(h, e, w) && FiledAt(h, e, v);
    }
    forall w ensures FiledAt(g, e', w) {
      assert FiledAt(h, e, w);
    }
  }

  /** The same when the table may hold an older entry for a digram that is gone. */
  lemma RecordAloneNeat(h: Heap, e: set<Ptr>, x: Ptr)
    requires Neat(h, e) && HasDigram(h, x) && Absent(h, e, DigramOf(h, x))
    ensures Neat(h.(table := h.table[DigramOf(h, x) := x]), e - {x})
  {
    var g, e' := h.(table := h.table[DigramOf(h, x) := x]), e - {x};
    forall w, v ensures UniqueAt(g, e', w, v) {
      assert UniqueAt(h, e, w, v);
      assert Pos(g, w) ==> Pos(h, w);
      assert Pos(g, v) ==> Pos(h, v);
    }
    forall w ensures FiledAt(g, e', w) {
      assert FiledAt(h, e, w);
    }
  }

  /** A place that starts no digram needs no exception. */
  lemma NoPosNeat(h: Heap, e: set<Ptr>, x: Ptr)
    requires Neat(h, e) && !Pos(h, x)
    ensures Neat(h, e - {x})
  {
    forall w, v ensures UniqueAt(h, e - {x}, w, v) { assert UniqueAt(h, e, w, v); }
    forall w ensures FiledAt(h, e - {x}, w) { assert FiledAt(h, e, w); }
  }

  /** The digram at `x` overlaps the recorded one, and no third one overlaps that. */
  lemma OverlapNeat(h: Heap, e: set<Ptr>, x: Ptr)
    requires Neat(h, e) && TableOk(h) && Pos(h, x) && DigramOf(h, x) in h.table
    requires var m := h.table[DigramOf(h, x)];
      && h.n[m] == x && m !in e
      && (forall w {:trigger h.n[w]} :: w in h.n && h.n[w] == m ==> Pos(h, w) ==> DigramOf(h, w) != DigramOf(h, x))
    ensures Neat(h, e - {x})
  {
    var d := DigramOf(h, x);
    var m := h.table[d];
    assert Entry(h, d, m);
    forall w, v ensures UniqueAt(h, e - {x}, w, v) {
      assert UniqueAt(h, e, w, v) && UniqueAt(h, e, w, m) && UniqueAt(h, e, v, m);
    }
    forall w ensures FiledAt(h, e - {x}, w) { assert FiledAt(h, e, w); }
  }

  // ---------------------------------------------------------------------
  // Inlining a rule
  // ---------------------------------------------------------------------

  /** The digram across the seam occurs at most where it overlaps the seam. */
  ghost predicate SeamFree(h: Heap, t: Spot)
    requires t.Within(h)
  {
    forall w {:trigger Pos(h, w)} :: Pos(h, w) && DigramOf(h, w) == (h.key[t.e], h.key[t.right]) ==>
      w == t.right || (t.e in h.p && w == h.p[t.e])
  }

  lemma InlinedPos(h: Heap, t: Spot, g: Heap, w: Ptr)
    requires SpotOk(h, t) && Stage(h, t, g, false) && Seams(g, t, t.f, t.right, t.gr, t.e)
    requires Pos(g, w) && w != t.e
    ensures Pos(h, w) && w != t.x && h.n[w] == g.n[w] && DigramOf(h, w) == DigramOf(g, w) && h.key[w] != Rule(t.a)
  {
    hide Closed;
    hide TableOk;
    StageGuards(h, t, g, false, w);
    StageGuards(h, t, g, false, g.n[w]);
    StageGuards(h, t, g, false, t.gr);
    assert Guards(h, t.gr);
    assert w != t.gr;
  }

  lemma InlineUnique(h: Heap, t: Spot, g: Heap)
    requires SpotOk(h, t) && Stage(h, t, g, false) && Seams(g, t, t.f, t.right, t.gr, t.e)
    requires Unique(h, {}) && SeamFree(h, t) && g.p[t.e] == h.p[t.e] && g.n[h.p[t.e]] == t.e
    ensures Unique(g, {})
  {
    hide SpotOk;
    hide Stage;
    SpotFacts(h, t, g);
    forall w, v ensures UniqueAt(g, {}, w, v) {
      if Pos(g, w) && Pos(g, v) && DigramOf(g, w) == DigramOf(g, v) {
        if w != t.e { InlinedPos(h, t, g, w); }
        if v != t.e { InlinedPos(h, t, g, v); }
        assert UniqueAt(h, {}, w, v);
      }
    }
  }

  lemma SpotFacts(h: Heap, t: Spot, g: Heap)
    requires SpotOk(h, t) && Stage(h, t, g, false)
    ensures t.Within(h) && t.e in g.key && t.right in g.key && g.key[t.e] == h.key[t.e]
    ensures g.key[t.right] == h.key[t.right]
    ensures t.e in h.p && t.e in h.n && h.p[t.e] in h.n
  {
  }

  lemma InlineNeat(h: Heap, t: Spot, g: Heap)
    requires SpotOk(h, t) && Stage(h, t, g, false) && Seams(g, t, t.f, t.right, t.gr, t.e)
    requires Neat(h, {}) && SeamFree(h, t) && g.p[t.e] == h.p[t.e] && g.n[h.p[t.e]] == t.e
    requires forall d {:trigger d in g.table} :: d in h.table && d.0 != Rule(t.a) ==> d in g.table
    requires RecordedAt(g, t.e)
    ensures Neat(g, {})
  {
    hide SpotOk;
    hide Stage;
    hide Seams;
    hide Neat;
    hide SeamFree;
    NeatParts(h, {});
    InlineUnique(h, t, g);
    forall w ensures FiledAt(g, {}, w) {
      if Pos(g, w) && w != t.e {
        InlinedPos(h, t, g, w);
        assert FiledAt(h, {}, w);
      }
    }
    NeatWhole(g, {});
  }

  // ---------------------------------------------------------------------
  // What `expand` forgets
  // ---------------------------------------------------------------------

  /** Nothing is forgotten but digrams that start with the rule `a`. */
  ghost predicate Remembers(before: map<Digram, Ptr>, after: map<Digram, Ptr>, a: RuleId) {
    forall d {:trigger d in after} :: d in before && d.0 != Rule(a) ==> d in after
  }

  lemma LastUnrecorded(h: Heap, t: Spot)
    requires SpotOk(h, t)
    ensures Unrecorded(h, t.e)
  {
    hide Closed;
    forall d | d in h.table ensures h.table[d] != t.e {
      assert Entry(h, d, h.table[d]);
      assert Guards(h, t.ga);
    }
  }

  lemma DropRemembers(h: Heap, t: Spot)
    requires SpotOk(h, t) && Unrecorded(h, t.e)
    ensures HasDigram(h, t.x) && Remembers(h.table, DropEntry(h, t.x), t.a)
    ensures forall d :: d in DropEntry(h, t.x) ==> DropEntry(h, t.x)[d] != t.e
  {
    hide Closed;
    hide TableOk;
  }

  /** Freeing the zeroed symbol: at most the symbol to its right is recorded anew. */
  lemma ZeroedDeletes(h: Heap, t: Spot, g: Heap)
    requires SpotOk(h, t) && Stage(h, t, g, true) && Seams(g, t, t.x, t.f, t.e, t.x) && g.table == DropEntry(h, t.x)
    requires Deletable(g, t.x)
    ensures t.right in g.key && (Triple(g, t.right) ==> HasDigram(g, t.right))
    ensures DeleteHeap(g, t.x).table == if Triple(g, t.right) then g.table[DigramOf(g, t.right) := t.right] else g.table
  {
    hide Closed, TableOk, SpotKeys, DropEntry, Unrecorded;
    ZeroedTable(h, t, g);
    ZeroedUnlinked(h, t, g);
    ZeroedJoins(h, t, g);
    StageAtX(h, t, g);
    var k := JoinHeap(g, t.gr, t.right);
    UnlinkedStage(h, t, g);
    ZeroedForgets(h, t, k);
  }

  lemma ZeroedJoins(h: Heap, t: Spot, g: Heap)
    requires SpotOk(h, t) && Stage(h, t, g, true) && Seams(g, t, t.x, t.f, t.e, t.x) && Joinable(g, t.gr, t.right)
    ensures t.right in g.key && (Triple(g, t.right) ==> HasDigram(g, t.right))
    ensures JoinTable(g, t.gr, t.right) ==
      if Triple(g, t.right) then g.table[DigramOf(g, t.right) := t.right] else g.table
  {
    hide Closed, TableOk;
    StageTest(h, t, g, true, t.gr);
    StageGuards(h, t, g, true, t.gr);
    assert Guards(h, t.gr);
    assert !Triple(g, t.gr);
    assert Forget(g, t.gr) == g.table;
  }

  lemma ZeroedRemembers(h: Heap, t: Spot, g: Heap)
    requires SpotOk(h, t) && Stage(h, t, g, true) && Seams(g, t, t.x, t.f, t.e, t.x) && g.table == DropEntry(h, t.x)
    requires Deletable(g, t.x) && Unrecorded(g, t.e)
    ensures Remembers(g.table, DeleteHeap(g, t.x).table, t.a) && Unrecorded(DeleteHeap(g, t.x), t.e)
  {
    hide Closed, TableOk, SpotKeys, DropEntry, Stage, Seams, Deletable, DeleteHeap, Triple;
    ZeroedDeletes(h, t, g);
  }

  lemma FirstRemembers(h: Heap, t: Spot, g: Heap)
    requires SpotOk(h, t) && Stage(h, t, g, false) && Seams(g, t, t.right, t.f, t.e, t.gr)
    requires Joinable(g, t.gr, t.f) && Unrecorded(g, t.e)
    ensures Remembers(g.table, JoinHeap(g, t.gr, t.f).table, t.a) && Unrecorded(JoinHeap(g, t.gr, t.f), t.e)
  {
    hide Closed;
    hide TableOk;
    StageTest(h, t, g, false, t.gr);
    StageGuards(h, t, g, false, t.gr);
    assert Guards(h, t.gr);
    assert !Triple(g, t.gr);
    assert Forget(g, t.gr) == g.table;
  }

  lemma LastRemembers(t: Spot, g: Heap)
    requires Joinable(g, t.e, t.right) && Unrecorded(g, t.e)
    ensures Remembers(g.table, JoinHeap(g, t.e, t.right).table, t.a)
  {
  }

  lemma RemembersTrans(x: map<Digram, Ptr>, y: map<Digram, Ptr>, z: map<Digram, Ptr>, a: RuleId)
    requires Remembers(x, y, a) && Remembers(y, z, a)
    ensures Remembers(x, z, a)
  {
    forall d | d in x && d.0 != Rule(a) ensures d in z {
      assert d in y;
    }
  }

  // ---------------------------------------------------------------------
  // A new rule with two symbols
  // ---------------------------------------------------------------------

  lemma NewRuleNeat(h: Heap, body: Bodies, owner: Owners, s: RuleId, r: RuleId, g: Ptr, e: set<Ptr>)
    requires Sound(h, body, owner, s) && r !in h.guard && g !in h.key && Neat(h, e)
    ensures Neat(NewRuleHeap(h, r, g), e)
  {
    var k := NewRuleHeap(h, r, g);
    forall w ensures Pos(k, w) ==> Pos(h, w) && h.n[w] == k.n[w] && DigramOf(h, w) == DigramOf(k, w) {
      if Pos(k, w) {
        if w in h.key {
          Neighbours(h, body, owner, w);
          NewRuleGuards(h, owner, s, r, g, w);
          NewRuleGuards(h, owner, s, r, g, h.n[w]);
        }
      }
    }
    forall w, v ensures UniqueAt(k, e, w, v) { assert UniqueAt(h, e, w, v); }
    forall w ensures FiledAt(k, e, w) { assert FiledAt(h, e, w); }
  }

  // ---------------------------------------------------------------------
  // Entries for two equal keys
  // ---------------------------------------------------------------------

  /** The entry of every digram of two equal keys outside `ks` is left alone. */
  ghost predicate Steady(before: map<Digram, Ptr>, after: map<Digram, Ptr>, ks: set<Key>) {
    forall k {:trigger (k, k) in after} ::
      k !in ks && (k, k) in before ==> (k, k) in after && after[(k, k)] == before[(k, k)]
  }

  lemma SteadyTrans(x: map<Digram, Ptr>, y: map<Digram, Ptr>, z: map<Digram, Ptr>, ks: set<Key>, ls: set<Key>)
    requires Steady(x, y, ks) && Steady(y, z, ls)
    ensures Steady(x, z, ks + ls)
  {
    forall k | k !in ks + ls && (k, k) in x ensures (k, k) in z && z[(k, k)] == x[(k, k)] {
      assert (k, k) in y;
    }
  }

  lemma SteadyMore(x: map<Digram, Ptr>, y: map<Digram, Ptr>, ks: set<Key>, ls: set<Key>)
    requires Steady(x, y, ks) && ks <= ls
    ensures Steady(x, y, ls)
  {
  }

  lemma RecordSteady(h: map<Digram, Ptr>, d: Digram, x: Ptr)
    ensures d !in h ==> Steady(h, h[d := x], {})
    ensures Steady(h, h[d := x], {d.0}) && Steady(h, h[d := x], {d.1})
  {
  }

  ghost predicate NoZero(h: Heap) {
    forall x {:trigger h.key[x]} :: x in h.key ==> h.key[x] != Zero
  }

  lemma SoundNoZero(h: Heap, body: Bodies, owner: Owners, s: RuleId)
    requires Sound(h, body, owner, s)
    ensures NoZero(h)
  {
    forall x | x in h.key ensures h.key[x] != Zero { assert RefOk(h, owner, s, x); }
  }

  lemma DeleteSteady(h: Heap, x: Ptr)
    requires x in h.p && x in h.n && Site(h, h.p[x], x, h.n[x]) && Deletable(h, x) && NoZero(h)
    ensures Steady(h.table, DeleteHeap(h, x).table, {h.key[x]})
  {
    var left, right := h.p[x], h.n[x];
    var g := JoinHeap(h, left, right);
    assert Steady(h.table, Forget(h, left), {h.key[x]});
    assert Steady(h.table, g.table, {h.key[x]});
  }

  lemma InsertSteady(h: Heap, a: Ptr, right: Ptr, y: Ptr, k: Key)
    requires Gap(h, a, right, k) && Closed(h) && TableOk(h) && y !in h.key && y !in h.n && y !in h.p
    requires forall r :: r in h.guard ==> h.guard[r] in h.key
    requires Insertable(h, a, y, k) && (Unrecorded(h, a) || Ends(h, a)) && NoZero(h)
    ensures Steady(h.table, InsertHeap(h, a, y, k).table, if right != a && Triple(h, a) then {h.key[a]} else {})
  {
    NewTable(h, y, k, right);
    var g := JoinHeap(NewHeap(h, y, k), y, right);
    assert g.table == h.table;
    assert Forget(g, a) == h.table by {
      InsertKeepsTable(h, a, right, y, k);
    }
  }

  lemma DropSteady(h: Heap, t: Spot)
    requires SpotOk(h, t)
    ensures HasDigram(h, t.x) && Steady(h.table, DropEntry(h, t.x), {Rule(t.a)})
  {
    hide Closed, TableOk;
  }

  lemma ZeroedSteady(h: Heap, t: Spot, g: Heap)
    requires SpotOk(h, t) && Stage(h, t, g, true) && Seams(g, t, t.x, t.f, t.e, t.x) && g.table == DropEntry(h, t.x)
    requires Deletable(g, t.x)
    ensures Steady(g.table, DeleteHeap(g, t.x).table, {Terminal(0)})
  {
    hide Closed, TableOk, DropEntry, Deletable, DeleteHeap;
    ZeroedDeletes(h, t, g);
    StageAtX(h, t, g);
    assert h.key[t.right] != Zero && g.key[t.right] == h.key[t.right];
  }

  lemma FirstSteady(h: Heap, t: Spot, g: Heap)
    requires SpotOk(h, t) && Stage(h, t, g, false) && Seams(g, t, t.right, t.f, t.e, t.gr)
    requires Joinable(g, t.gr, t.f)
    ensures t.Within(h) && Steady(g.table, JoinHeap(g, t.gr, t.f).table, {h.key[t.f]})
  {
    hide Closed, TableOk;
    StageTest(h, t, g, false, t.gr);
    StageGuards(h, t, g, false, t.gr);
    assert Guards(h, t.gr);
    assert !Triple(g, t.gr);
    assert Forget(g, t.gr) == g.table;
    assert h.key[t.f] != Zero && h.key[h.n[t.f]] != Zero;
    assert g.n[t.f] == h.n[t.f];
  }

  lemma LastSteady(h: Heap, t: Spot, g: Heap)
    requires SpotOk(h, t) && Stage(h, t, g, false) && Seams(g, t, t.f, t.f, t.gr, t.gr)
    requires Joinable(g, t.e, t.right) && Unrecorded(g, t.e)
    ensures t.Within(h) && Steady(g.table, JoinHeap(g, t.e, t.right).table, {h.key[t.e], h.key[t.right]})
  {
    hide Closed, TableOk;
    assert g.p[t.e] == h.p[t.e];
    assert h.key[t.e] != Zero && h.key[h.p[t.e]] != Zero && h.key[t.right] != Zero && h.key[h.n[t.right]] != Zero;
    assert Forget(g, t.e) == g.table;
  }

  /** The keys whose runs `expand` may record anew. */
  ghost function SpotStirs(h: Heap, t: Spot): set<Key>
    requires t.Within(h)
  {
    {Rule(t.a), Terminal(0), h.key[t.f], h.key[t.e], h.key[t.right]}
  }

  /** What has become of the table so far. */
  ghost predicate Followed(h: Heap, t: Spot, table: map<Digram, Ptr>) {
    t.Within(h) && Remembers(h.table, table, t.a) && Steady(h.table, table, SpotStirs(h, t))
  }

  lemma FollowStep(h: Heap, t: Spot, before: map<Digram, Ptr>, after: map<Digram, Ptr>, ks: set<Key>)
    requires Followed(h, t, before) && Remembers(before, after, t.a) && Steady(before, after, ks)
    requires ks <= SpotStirs(h, t)
    ensures Followed(h, t, after)
  {
    hide Remembers, Steady;
    RemembersTrans(h.table, before, after, t.a);
    SteadyMore(before, after, ks, SpotStirs(h, t));
    SteadyTrans(h.table, before, after, SpotStirs(h, t), SpotStirs(h, t));
    assert SpotStirs(h, t) + SpotStirs(h, t) == SpotStirs(h, t);
  }

  lemma FollowDrop(h: Heap, t: Spot, g: Heap)
    requires SpotOk(h, t) && HasDigram(h, t.x) && g.table == DropEntry(h, t.x)
    ensures Followed(h, t, g.table) && Unrecorded(g, t.e)
  {
    hide SpotLinks, SpotKeys, Closed, TableOk, Remembers, Steady, DropEntry;
    LastUnrecorded(h, t);
    DropRemembers(h, t);
    DropSteady(h, t);
    FollowStart(h, t);
    FollowStep(h, t, h.table, g.table, {Rule(t.a)});
  }

  lemma FollowStart(h: Heap, t: Spot)
    requires SpotOk(h, t)
    ensures Followed(h, t, h.table)
  {
  }

  lemma FollowZeroed(h: Heap, t: Spot, g: Heap)
    requires SpotOk(h, t) && Stage(h, t, g, true) && Seams(g, t, t.x, t.f, t.e, t.x) && g.table == DropEntry(h, t.x)
    requires Deletable(g, t.x) && Unrecorded(g, t.e) && Followed(h, t, g.table)
    ensures Followed(h, t, DeleteHeap(g, t.x).table) && Unrecorded(DeleteHeap(g, t.x), t.e)
  {
    hide SpotOk, Stage, Seams, Remembers, Steady, Deletable, DeleteHeap;
    ZeroedRemembers(h, t, g);
    ZeroedSteady(h, t, g);
    FollowStep(h, t, g.table, DeleteHeap(g, t.x).table, {Terminal(0)});
  }

  lemma FollowFirst(h: Heap, t: Spot, g: Heap)
    requires SpotOk(h, t) && Stage(h, t, g, false) && Seams(g, t, t.right, t.f, t.e, t.gr)
    requires Joinable(g, t.gr, t.f) && Unrecorded(g, t.e) && Followed(h, t, g.table)
    ensures Followed(h, t, JoinHeap(g, t.gr, t.f).table) && Unrecorded(JoinHeap(g, t.gr, t.f), t.e)
  {
    hide SpotOk, Stage, Seams, Remembers, Steady, Joinable, JoinHeap;
    FirstRemembers(h, t, g);
    FirstSteady(h, t, g);
    FollowStep(h, t, g.table, JoinHeap(g, t.gr, t.f).table, {h.key[t.f]});
  }

  /** ...the last join and the new entry for the seam. */
  lemma FollowLast(h: Heap, t: Spot, g: Heap)
    requires SpotOk(h, t) && Stage(h, t, g, false) && Seams(g, t, t.f, t.f, t.gr, t.gr)
    requires Joinable(g, t.e, t.right) && Unrecorded(g, t.e) && Followed(h, t, g.table)
    ensures Followed(h, t, JoinHeap(g, t.e, t.right).table)
    ensures t.Within(h) && Followed(h, t, JoinHeap(g, t.e, t.right).table[(h.key[t.e], h.key[t.right]) := t.e])
  {
    hide SpotOk, Stage, Seams, Remembers, Steady, Joinable, JoinHeap;
    LastRemembers(t, g);
    LastSteady(h, t, g);
    var k := JoinHeap(g, t.e, t.right).table;
    FollowStep(h, t, g.table, k, {h.key[t.e], h.key[t.right]});
    var d := (h.key[t.e], h.key[t.right]);
    RecordSteady(k, d, t.e);
    RecordRemembers(k, d, t.e, t.a);
    FollowStep(h, t, k, k[d := t.e], {h.key[t.e]});
  }

  lemma RecordRemembers(table: map<Digram, Ptr>, d: Digram, x: Ptr, a: RuleId)
    ensures Remembers(table, table[d := x], a)
  {
  }

  /** The inlining keeps digrams unique and recorded if the seam makes no second one. */
  lemma InlinedNeat(h: Heap, t: Spot, g: Heap)
    requires SpotOk(h, t) && Inlined(h, t, g) && Followed(h, t, g.table) && RecordedAt(g, t.e)
    requires Neat(h, {}) && SeamFree(h, t)
    ensures Neat(g, {})
  {
    hide Closed, TableOk, Neat, SeamFree, RecordedAt, Steady;
    assert g.p[t.e] == h.p[t.e] && g.n[h.p[t.e]] == t.e;
    InlineNeat(h, t, g);
  }
}
