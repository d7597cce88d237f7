/**
  The memory of the Sequitur compressor: symbols linked into rings around
  guards, rules with use counts, and the digram table; and the lemmas about
  relinking that the methods of `Sequitur` rest on.
 */
module SequiturHeap {
  import opened Grammar

  type Ptr = nat
  type Digram = (Key, Key)

  /** `n`, `p` and `key` are the fields of every allocated symbol (a symbol
      missing from `n` or `p` holds a null link there), `guard` and `count`
      those of every allocated rule. `table` is the digram table seen as a
      finite map; the probing table that implements it is `DigramTable`. */
  datatype Heap = Heap(
    n: map<Ptr, Ptr>, p: map<Ptr, Ptr>, key: map<Ptr, Key>,
    guard: map<RuleId, Ptr>, count: map<RuleId, int>,
    table: map<Digram, Ptr>)

  // ---------------------------------------------------------------------
  // The source's own reads
  // ---------------------------------------------------------------------

  /** `value()` drops the low bit of the key, so the zeroed key of a symbol
      under deletion and the NUL character have the same value. */
  predicate SameValue(a: Key, b: Key) {
    a == b || (a == Zero && b == Terminal(0)) || (a == Terminal(0) && b == Zero)
  }

  /** What `is_guard` dereferences is there. */
  predicate Readable(h: Heap, x: Ptr) {
    && x in h.key
    && (h.key[x].Rule? ==>
          && h.key[x].r in h.guard
          && h.guard[h.key[x].r] in h.p
          && h.p[h.guard[h.key[x].r]] in h.n)
  }

  predicate IsGuard(h: Heap, x: Ptr)
    requires Readable(h, x)
  {
    h.key[x].Rule? && h.n[h.p[h.guard[h.key[x].r]]] == x
  }

  predicate HasDigram(h: Heap, x: Ptr) {
    x in h.key && x in h.n && h.n[x] in h.key
  }

  function DigramOf(h: Heap, x: Ptr): Digram
    requires HasDigram(h, x)
  {
    (h.key[x], h.key[h.n[x]])
  }

  /** The table after `x->delete_digram()`. */
  function Forget(h: Heap, x: Ptr): map<Digram, Ptr>
    requires HasDigram(h, x) && Readable(h, x) && Readable(h, h.n[x])
  {
    if IsGuard(h, x) || IsGuard(h, h.n[x]) then h.table
    else
      var d := DigramOf(h, x);
      if d in h.table && h.table[d] == x then h.table - {d} else h.table
  }

  /** `x` has both neighbours and all three have the same value. */
  predicate Triple(h: Heap, x: Ptr)
    requires x in h.key
  {
    && x in h.p && h.p[x] in h.key && x in h.n && h.n[x] in h.key
    && SameValue(h.key[x], h.key[h.p[x]])
    && SameValue(h.key[x], h.key[h.n[x]])
  }

  /** The table after the first half of `join(left, right)`. */
  function JoinTable(h: Heap, left: Ptr, right: Ptr): map<Digram, Ptr>
    requires left in h.key && right in h.key
    requires left in h.n ==> HasDigram(h, left) && Readable(h, left) && Readable(h, h.n[left])
    requires Triple(h, left) ==> HasDigram(h, h.p[left])
  {
    if left !in h.n then h.table
    else
      var t := Forget(h, left);
      var u := if Triple(h, right) then t[DigramOf(h, right) := right] else t;
      if Triple(h, left) then u[DigramOf(h, h.p[left]) := h.p[left]] else u
  }

  // ---------------------------------------------------------------------
  // Invariants
  // ---------------------------------------------------------------------

  /** `x` really is the guard of the rule its key points to. */
  ghost predicate Guards(h: Heap, x: Ptr) {
    x in h.key && h.key[x].Rule? && h.key[x].r in h.guard && h.guard[h.key[x].r] == x
  }

  /** A table entry points at a live symbol that still starts this digram. */
  ghost predicate Entry(h: Heap, d: Digram, z: Ptr) {
    HasDigram(h, z) && !Guards(h, z) && !Guards(h, h.n[z]) && DigramOf(h, z) == d
  }

  ghost predicate TableOk(h: Heap) {
    forall d :: d in h.table ==> Entry(h, d, h.table[d])
  }

  /** The digram that starts at `x` is recorded, and recorded there. */
  ghost predicate RecordedAt(h: Heap, x: Ptr) {
    HasDigram(h, x) && DigramOf(h, x) in h.table && h.table[DigramOf(h, x)] == x
  }

  ghost predicate Unrecorded(h: Heap, x: Ptr) {
    forall d :: d in h.table ==> h.table[d] != x
  }

  function Succ(i: nat, len: nat): nat requires i < len { if i + 1 == len then 0 else i + 1 }

  ghost predicate Distinct(l: seq<Ptr>) {
    forall i, j :: 0 <= i < j < |l| ==> l[i] != l[j]
  }

  /** Elements `i` and `i + 1` of the circle `l` point at each other. */
  ghost predicate LinkAt(l: seq<Ptr>, i: nat, n: map<Ptr, Ptr>, p: map<Ptr, Ptr>)
    requires i < |l|
  {
    var x, y := l[i], l[Succ(i, |l|)];
    x in n && n[x] == y && y in p && p[y] == x
  }

  /** `l` is linked in a circle both ways. */
  ghost predicate Ring(l: seq<Ptr>, n: map<Ptr, Ptr>, p: map<Ptr, Ptr>) {
    forall i :: 0 <= i < |l| ==> LinkAt(l, i, n, p)
  }

  ghost predicate SameDomain<U, V>(a: map<nat, U>, b: map<nat, V>) {
    forall x {:trigger x in a} :: x in a <==> x in b
  }

  type Bodies = map<RuleId, seq<Ptr>>
  type Owners = map<Ptr, RuleId>

  /** The guard of rule `r` followed by its symbols. */
  ghost function Circle(h: Heap, body: Bodies, r: RuleId): seq<Ptr>
    requires r in h.guard && r in body
  {
    [h.guard[r]] + body[r]
  }

  ghost predicate LinkedRule(h: Heap, body: Bodies, r: RuleId) {
    r in h.guard && r in body && Ring(Circle(h, body, r), h.n, h.p)
  }

  ghost predicate Linked(h: Heap, body: Bodies) {
    && SameDomain(h.n, h.key) && SameDomain(h.p, h.key)
    && (forall r {:trigger LinkedRule(h, body, r)} :: r in h.guard ==> LinkedRule(h, body, r))
  }

  ghost predicate PlacedRule(h: Heap, body: Bodies, owner: Owners, r: RuleId) {
    && r in h.guard && r in body
    && Distinct(Circle(h, body, r))
    && h.guard[r] in owner && owner[h.guard[r]] == r
    && (forall i :: 0 <= i < |body[r]| ==> body[r][i] in owner && owner[body[r][i]] == r)
  }

  ghost predicate PlacedSymbol(h: Heap, body: Bodies, owner: Owners, x: Ptr) {
    && x in owner && owner[x] in h.guard && owner[x] in body
    && x in Circle(h, body, owner[x])
  }

  /** Every allocated symbol lies in exactly one circle, once. */
  ghost predicate Placed(h: Heap, body: Bodies, owner: Owners) {
    && SameDomain(body, h.guard) && SameDomain(owner, h.key)
    && (forall r {:trigger PlacedRule(h, body, owner, r)} :: r in h.guard ==> PlacedRule(h, body, owner, r))
    && (forall x {:trigger PlacedSymbol(h, body, owner, x)} :: x in h.key ==> PlacedSymbol(h, body, owner, x))
  }

  /** Guards carry their rule, other symbols refer to live rules other than the
      start rule and other than the rule they stand in. */
  ghost predicate Refs(h: Heap, owner: Owners, s: RuleId) {
    && s in h.guard
    && (forall r {:trigger h.guard[r]} :: r in h.guard ==> h.guard[r] in h.key && h.key[h.guard[r]] == Rule(r))
    && (forall x {:trigger RefOk(h, owner, s, x)} :: x in h.key ==> RefOk(h, owner, s, x))
  }

  ghost predicate RefOk(h: Heap, owner: Owners, s: RuleId, x: Ptr)
    requires x in h.key
  {
    && x in owner
    && h.key[x] != Zero
    && (h.key[x].Rule? ==>
          && h.key[x].r in h.guard
          && (!Guards(h, x) ==> h.key[x].r != s && h.key[x].r != owner[x]))
  }

  ghost function Uses(h: Heap, r: RuleId): set<Ptr> {
    set x | x in h.key && h.key[x] == Rule(r) && !Guards(h, x)
  }

  /** `count` is the number of symbols, guards aside, that refer to the rule. */
  ghost predicate Counted(h: Heap) {
    && SameDomain(h.count, h.guard)
    && (forall r :: r in h.guard ==> h.count[r] == |Uses(h, r)|)
  }

  ghost predicate Sound(h: Heap, body: Bodies, owner: Owners, s: RuleId) {
    && Linked(h, body)
    && Placed(h, body, owner)
    && Refs(h, owner, s)
    && Counted(h)
    && TableOk(h)
  }

  // ---------------------------------------------------------------------
  // Rings
  // ---------------------------------------------------------------------

  ghost function Without(l: seq<Ptr>, i: nat): seq<Ptr>
    requires i < |l|
  {
    l[..i] + l[i + 1..]
  }

  lemma DistinctWithout(l: seq<Ptr>, i: nat)
    requires i < |l| && Distinct(l)
    ensures Distinct(Without(l, i)) && l[i] !in Without(l, i)
  {
  }

  lemma RingRemove(l: seq<Ptr>, i: nat, n: map<Ptr, Ptr>, p: map<Ptr, Ptr>)
    requires 0 < i < |l| && Distinct(l) && Ring(l, n, p)
    ensures l[i] in n && l[i] in p && n[l[i]] == l[Succ(i, |l|)] && p[l[i]] == l[i - 1]
    ensures Ring(Without(l, i), n[p[l[i]] := n[l[i]]], p[n[l[i]] := p[l[i]]])
  {
    var m := Without(l, i);
    assert LinkAt(l, i - 1, n, p) && LinkAt(l, i, n, p);
    var n', p' := n[l[i - 1] := n[l[i]]], p[n[l[i]] := l[i - 1]];
    forall j | 0 <= j < |m| ensures LinkAt(m, j, n', p') {
      assert LinkAt(l, if j < i then j else j + 1, n, p);
    }
  }

  ghost function With(l: seq<Ptr>, i: nat, y: Ptr): seq<Ptr>
    requires i < |l|
  {
    l[..i + 1] + [y] + l[i + 1..]
  }

  lemma DistinctWith(l: seq<Ptr>, i: nat, y: Ptr)
    requires i < |l| && Distinct(l) && y !in l
    ensures Distinct(With(l, i, y))
  {
    var m := With(l, i, y);
    forall j, k | 0 <= j < k < |m| ensures m[j] != m[k] {
      assert j != i + 1 ==> m[j] == l[if j <= i then j else j - 1];
      assert k != i + 1 ==> m[k] == l[if k <= i then k else k - 1];
    }
  }

  lemma RingInsert(l: seq<Ptr>, i: nat, y: Ptr, n: map<Ptr, Ptr>, p: map<Ptr, Ptr>)
    requires i < |l| && Distinct(l) && Ring(l, n, p) && y !in l
    ensures l[i] in n && n[l[i]] == l[Succ(i, |l|)]
    ensures Ring(With(l, i, y), n[y := n[l[i]]][l[i] := y], p[n[l[i]] := y][y := l[i]])
  {
    var m := With(l, i, y);
    assert LinkAt(l, i, n, p);
    var n', p' := n[y := n[l[i]]][l[i] := y], p[n[l[i]] := y][y := l[i]];
    forall j | 0 <= j < |m| ensures LinkAt(m, j, n', p') {
      assert LinkAt(l, if j <= i then j else j - 1, n, p);
    }
  }

  lemma RingFrame(l: seq<Ptr>, n: map<Ptr, Ptr>, p: map<Ptr, Ptr>, n': map<Ptr, Ptr>, p': map<Ptr, Ptr>)
    requires Ring(l, n, p)
    requires forall i :: 0 <= i < |l| ==> l[i] in n' && (l[i] in n ==> n'[l[i]] == n[l[i]])
    requires forall i :: 0 <= i < |l| ==> l[i] in p' && (l[i] in p ==> p'[l[i]] == p[l[i]])
    ensures Ring(l, n', p')
  {
    forall i | 0 <= i < |l| ensures LinkAt(l, i, n', p') {
      assert LinkAt(l, i, n, p);
    }
  }

  /** Splicing the symbols of circle `c` (guard first) over the second element of
      circle `l`, with the joins that `expand` makes. */
  lemma RingSplice(l: seq<Ptr>, c: seq<Ptr>, n: map<Ptr, Ptr>, p: map<Ptr, Ptr>, n': map<Ptr, Ptr>, p': map<Ptr, Ptr>)
    requires |l| >= 3 && |c| >= 2 && Ring(l, n, p) && Ring(c, n, p)
    requires Distinct(l) && Distinct(c) && forall x :: x in l ==> x !in c
    requires var f, e, right := c[1], c[|c| - 1], l[2];
      && l[0] in n' && n'[l[0]] == f && f in p' && p'[f] == l[0]
      && e in n' && n'[e] == right && right in p' && p'[right] == e
      && (forall z {:trigger n'[z]} {:trigger z in n'} ::
            z in n && z != l[0] && z != l[1] && z != c[0] && z != e ==> z in n' && n'[z] == n[z])
      && (forall z {:trigger p'[z]} {:trigger z in p'} ::
            z in p && z != l[1] && z != c[0] && z != f && z != right ==> z in p' && p'[z] == p[z])
    ensures Ring([l[0]] + c[1..] + l[2..], n', p')
  {
    var f, e, right := c[1], c[|c| - 1], l[2];
    var m := [l[0]] + c[1..] + l[2..];
    assert l[0] in l && l[1] in l && right in l && c[0] in c && f in c && e in c;
    forall j | 0 <= j < |m| ensures LinkAt(m, j, n', p') {
      if j == 0 {
        assert m[0] == l[0] && m[1] == f;
      } else if j < |c| - 1 {
        assert LinkAt(c, j, n, p);
        assert m[j] == c[j] && m[j + 1] == c[j + 1];
        assert c[j] in c && c[j + 1] in c && c[j] !in l && c[j + 1] !in l;
        assert n'[c[j]] == n[c[j]] && p'[c[j + 1]] == p[c[j + 1]];
      } else if j == |c| - 1 {
        assert m[j] == e && m[j + 1] == right;
      } else {
        var k := j - |c| + 2;
        assert LinkAt(l, k, n, p);
        var y := l[Succ(k, |l|)];
        assert m[j] == l[k] && m[Succ(j, |m|)] == y;
        assert l[k] in l && y in l && l[k] !in c && y !in c;
        assert n'[l[k]] == n[l[k]] && p'[y] == p[y];
      }
    }
  }

  // ---------------------------------------------------------------------
  // Reading a sound heap
  // ---------------------------------------------------------------------

  /** The links around every guard close, so `is_guard` tells the truth. */
  ghost predicate Closed(h: Heap) {
    forall r {:trigger h.guard[r]} :: r in h.guard ==>
      && h.guard[r] in h.p && h.p[h.guard[r]] in h.n
      && h.n[h.p[h.guard[r]]] == h.guard[r]
  }

  lemma LinkedIsClosed(h: Heap, body: Bodies)
    requires Linked(h, body)
    ensures Closed(h)
  {
    forall r | r in h.guard
      ensures h.guard[r] in h.p && h.p[h.guard[r]] in h.n && h.n[h.p[h.guard[r]]] == h.guard[r]
    {
      assert LinkedRule(h, body, r);
      var c := Circle(h, body, r);
      assert LinkAt(c, |c| - 1, h.n, h.p);
    }
  }

  lemma GuardTest(h: Heap, x: Ptr)
    requires Closed(h) && x in h.key && (h.key[x].Rule? ==> h.key[x].r in h.guard)
    ensures Readable(h, x) && (IsGuard(h, x) <==> Guards(h, x))
  {
  }

  /** Position of a symbol on its circle. */
  lemma Where(h: Heap, body: Bodies, owner: Owners, x: Ptr) returns (r: RuleId, k: nat)
    requires Placed(h, body, owner) && x in h.key
    ensures PlacedRule(h, body, owner, r) && owner[x] == r
    ensures var c := Circle(h, body, r); k < |c| && c[k] == x && (x == h.guard[r] <==> k == 0)
  {
    assert PlacedSymbol(h, body, owner, x);
    r := owner[x];
    assert PlacedRule(h, body, owner, r);
    var c := Circle(h, body, r);
    k :| 0 <= k < |c| && c[k] == x;
    assert c[0] == h.guard[r];
  }

  lemma OnCircle(h: Heap, body: Bodies, owner: Owners, r: RuleId, k: nat)
    requires PlacedRule(h, body, owner, r) && k < |Circle(h, body, r)|
    ensures var x := Circle(h, body, r)[k]; x in owner && owner[x] == r && (x == h.guard[r] <==> k == 0)
  {
    var c := Circle(h, body, r);
    if k > 0 {
      assert c[k] == body[r][k - 1];
      assert c[0] != c[k];
    }
  }

  lemma Neighbours(h: Heap, body: Bodies, owner: Owners, x: Ptr)
    requires Linked(h, body) && Placed(h, body, owner) && x in h.key
    ensures h.n[x] in h.key && owner[h.n[x]] == owner[x] && h.p[h.n[x]] == x
    ensures h.p[x] in h.key && owner[h.p[x]] == owner[x] && h.n[h.p[x]] == x
  {
    var r, k := Where(h, body, owner, x);
    assert LinkedRule(h, body, r);
    var c := Circle(h, body, r);
    var b := if k == 0 then |c| - 1 else k - 1;
    assert LinkAt(c, k, h.n, h.p) && LinkAt(c, b, h.n, h.p);
    OnCircle(h, body, owner, r, Succ(k, |c|));
    OnCircle(h, body, owner, r, b);
  }

  lemma GuardOwner(h: Heap, body: Bodies, owner: Owners, s: RuleId, x: Ptr)
    requires Placed(h, body, owner) && Refs(h, owner, s) && x in h.key
    ensures x in owner && owner[x] in h.guard
    ensures Guards(h, x) <==> x == h.guard[owner[x]]
    ensures Guards(h, x) ==> h.key[x] == Rule(owner[x])
    ensures !Guards(h, x) ==> h.key[x] != Rule(owner[x])
  {
    assert PlacedSymbol(h, body, owner, x) && RefOk(h, owner, s, x);
    if Guards(h, x) {
      assert PlacedRule(h, body, owner, h.key[x].r);
    }
  }

  /** Three equal values in a row never involve a guard. */
  lemma NoGuardInTriple(h: Heap, body: Bodies, owner: Owners, s: RuleId, x: Ptr)
    requires Linked(h, body) && Placed(h, body, owner) && Refs(h, owner, s)
    requires x in h.key && h.n[x] != x && Triple(h, x)
    ensures !Guards(h, x) && !Guards(h, h.n[x]) && !Guards(h, h.p[x])
  {
    Neighbours(h, body, owner, x);
    GuardOwner(h, body, owner, s, x);
    GuardOwner(h, body, owner, s, h.n[x]);
    GuardOwner(h, body, owner, s, h.p[x]);
    assert RefOk(h, owner, s, x) && RefOk(h, owner, s, h.n[x]) && RefOk(h, owner, s, h.p[x]);
  }

  // ---------------------------------------------------------------------
  // join
  // ---------------------------------------------------------------------

  ghost predicate Joinable(h: Heap, left: Ptr, right: Ptr) {
    && left in h.key && right in h.key
    && (left in h.n ==> HasDigram(h, left) && Readable(h, left) && Readable(h, h.n[left]))
    && (Triple(h, left) ==> HasDigram(h, h.p[left]))
  }

  ghost function JoinHeap(h: Heap, left: Ptr, right: Ptr): Heap
    requires Joinable(h, left, right)
  {
    h.(n := h.n[left := right], p := h.p[right := left], table := JoinTable(h, left, right))
  }

  /** Every entry that `join` adds, before it relinks, points at the digram it is for. */
  ghost predicate SafeJoin(h: Heap, left: Ptr, right: Ptr)
    requires left in h.key && right in h.key
  {
    && TableOk(h)
    && (left in h.n && Triple(h, right) ==> !Guards(h, right) && !Guards(h, h.n[right]))
    && (Triple(h, left) ==> !Guards(h, left) && !Guards(h, h.p[left]) && h.p[left] in h.n && h.n[h.p[left]] == left)
  }

  /** The entries that `join` drops and adds keep the table free of dangling
      entries after the relinking, and leave `left` unrecorded. */
  lemma JoinKeepsTable(h: Heap, left: Ptr, right: Ptr)
    requires Joinable(h, left, right) && TableOk(h)
    requires left in h.n ==> (IsGuard(h, left) <==> Guards(h, left))
    requires left in h.n ==> (IsGuard(h, h.n[left]) <==> Guards(h, h.n[left]))
    requires left !in h.n ==> Unrecorded(h, left)
    requires left in h.n && Triple(h, right) ==> right != left && !Guards(h, right) && !Guards(h, h.n[right])
    requires Triple(h, left) ==>
      !Guards(h, left) && !Guards(h, h.p[left]) && h.n[h.p[left]] == left && h.p[left] != left
    ensures SafeJoin(h, left, right)
    ensures TableOk(JoinHeap(h, left, right)) && Unrecorded(JoinHeap(h, left, right), left)
    ensures forall x :: Unrecorded(h, x) && !(Triple(h, right) && x == right) && !(Triple(h, left) && x == h.p[left])
              ==> Unrecorded(JoinHeap(h, left, right), x)
  {
    var g := JoinHeap(h, left, right);
    forall d | d in g.table
      ensures Entry(h, d, g.table[d]) && g.table[d] != left
    {
      if d in h.table && h.table[d] == g.table[d] {
        assert Entry(h, d, h.table[d]);
      }
    }
    forall d | d in g.table ensures Entry(g, d, g.table[d]) {
      assert Entry(h, d, g.table[d]);
    }
  }

  // ---------------------------------------------------------------------
  // Frames for rules that an operation does not touch
  // ---------------------------------------------------------------------

  lemma OtherLinked(h: Heap, body: Bodies, owner: Owners, q: RuleId, g: Heap, body': Bodies)
    requires PlacedRule(h, body, owner, q) && LinkedRule(h, body, q)
    requires q in g.guard && g.guard[q] == h.guard[q] && q in body' && body'[q] == body[q]
    requires forall x {:trigger x in g.n} {:trigger g.n[x]} ::
      x in owner && owner[x] == q && x in h.n ==> x in g.n && g.n[x] == h.n[x]
    requires forall x {:trigger x in g.p} {:trigger g.p[x]} ::
      x in owner && owner[x] == q && x in h.p ==> x in g.p && g.p[x] == h.p[x]
    ensures LinkedRule(g, body', q)
  {
    var c := Circle(h, body, q);
    forall i | 0 <= i < |c| ensures LinkAt(c, i, g.n, g.p) {
      assert LinkAt(c, i, h.n, h.p);
      OnCircle(h, body, owner, q, i);
      OnCircle(h, body, owner, q, Succ(i, |c|));
    }
    assert Circle(g, body', q) == c;
  }

  lemma OtherPlaced(h: Heap, body: Bodies, owner: Owners, q: RuleId, g: Heap, body': Bodies, owner': Owners)
    requires PlacedRule(h, body, owner, q)
    requires q in g.guard && g.guard[q] == h.guard[q] && q in body' && body'[q] == body[q]
    requires forall x {:trigger owner[x]} :: x in owner && owner[x] == q ==> x in owner' && owner'[x] == q
    ensures PlacedRule(g, body', owner', q)
  {
    assert Circle(g, body', q) == Circle(h, body, q);
    forall i | 0 <= i < |body'[q]| ensures body'[q][i] in owner' && owner'[body'[q][i]] == q {
      assert body[q][i] in owner;
    }
  }

  // ---------------------------------------------------------------------
  // Deleting a symbol
  // ---------------------------------------------------------------------

  ghost function Bump(count: map<RuleId, int>, k: Key, delta: int): map<RuleId, int> {
    if k.Rule? && k.r in count then count[k.r := count[k.r] + delta] else count
  }

  /** The surroundings of a symbol about to be unlinked. */
  ghost predicate Site(h: Heap, left: Ptr, x: Ptr, right: Ptr) {
    && left in h.key && x in h.key && right in h.key && left != x && right != x
    && left in h.n && h.n[left] == x && x in h.n && h.n[x] == right
    && x in h.p && h.p[x] == left && right in h.p && h.p[right] == x
    && !Guards(h, x)
    && (forall y {:trigger h.key[y]} :: y in {left, x, right} && h.key[y].Rule? ==> h.key[y].r in h.guard)
    && (Triple(h, right) ==> right != left && !Guards(h, right) && !Guards(h, h.n[right]))
    && (Triple(h, left) ==>
          !Guards(h, left) && !Guards(h, h.p[left]) && h.p[left] != left
          && h.p[left] in h.n && h.n[h.p[left]] == left)
  }

  lemma DeleteSite(h: Heap, body: Bodies, owner: Owners, s: RuleId, x: Ptr)
    requires Sound(h, body, owner, s) && x in h.key && !Guards(h, x)
    ensures Site(h, h.p[x], x, h.n[x])
  {
    var left, right := h.p[x], h.n[x];
    Neighbours(h, body, owner, x);
    GuardOwner(h, body, owner, s, x);
    var r, k := Where(h, body, owner, x);
    assert LinkedRule(h, body, r);
    var c := Circle(h, body, r);
    RingRemove(c, k, h.n, h.p);
    assert left != x && right != x;
    assert RefOk(h, owner, s, left) && RefOk(h, owner, s, x) && RefOk(h, owner, s, right);
    if Triple(h, right) {
      Neighbours(h, body, owner, right);
      NoGuardInTriple(h, body, owner, s, right);
      if left == right { TwoOnly(c, k, h.n, h.p); GuardOwner(h, body, owner, s, right); }
    }
    if Triple(h, left) {
      Neighbours(h, body, owner, left);
      NoGuardInTriple(h, body, owner, s, left);
    }
  }

  /** What the destructor's `join(p, n)` needs, and what it leaves. */
  lemma DeleteJoin(h: Heap, left: Ptr, x: Ptr, right: Ptr)
    requires Site(h, left, x, right) && Closed(h) && TableOk(h)
    requires forall r :: r in h.guard ==> h.guard[r] in h.key && h.key[h.guard[r]] == Rule(r)
    ensures Joinable(h, left, right) && SafeJoin(h, left, right)
    ensures var g := JoinHeap(h, left, right);
      && TableOk(g) && Unrecorded(g, left)
      && HasDigram(g, x) && Readable(g, x) && Readable(g, right) && g.n[x] == right
      && !IsGuard(g, x) && (IsGuard(g, right) <==> Guards(g, right))
  {
    GuardTest(h, left);
    GuardTest(h, x);
    JoinKeepsTable(h, left, right);
    var g := JoinHeap(h, left, right);
    CloseAfterJoin(h, left, right, x);
    GuardTest(g, x);
    GuardTest(g, right);
  }

  /** A symbol whose two neighbours are the same symbol is alone with the guard. */
  lemma TwoOnly(c: seq<Ptr>, k: nat, n: map<Ptr, Ptr>, p: map<Ptr, Ptr>)
    requires 0 < k < |c| && Distinct(c) && Ring(c, n, p)
    requires c[k] in n && c[k] in p && n[c[k]] == p[c[k]]
    ensures n[c[k]] == c[0]
  {
    assert LinkAt(c, k, n, p) && LinkAt(c, k - 1, n, p);
  }

  lemma CloseAfterJoin(h: Heap, left: Ptr, right: Ptr, x: Ptr)
    requires Joinable(h, left, right) && Closed(h)
    requires left in h.n && h.n[left] == x && x in h.n && h.n[x] == right && right in h.p && h.p[right] == x
    requires !Guards(h, x) && left != x && right != x
    requires forall r :: r in h.guard ==> h.guard[r] in h.key && h.key[h.guard[r]] == Rule(r)
    ensures Closed(JoinHeap(h, left, right))
  {
    var g := JoinHeap(h, left, right);
    forall r | r in g.guard
      ensures g.guard[r] in g.p && g.p[g.guard[r]] in g.n && g.n[g.p[g.guard[r]]] == g.guard[r]
    {
      assert h.n[h.p[h.guard[r]]] == h.guard[r];
      assert Guards(h, h.guard[r]);
    }
  }

  /** All that the destructor of a symbol dereferences is there. */
  ghost predicate Deletable(h: Heap, x: Ptr) {
    && x in h.p && x in h.n && x in h.key && Joinable(h, h.p[x], h.n[x])
    && (h.key[x].Rule? ==> h.key[x].r in h.count)
    && var g := JoinHeap(h, h.p[x], h.n[x]);
    && HasDigram(g, x) && Readable(g, x) && Readable(g, g.n[x]) && !IsGuard(g, x)
  }

  /** The table is right whenever the destructor looks at it. */
  ghost predicate SafeDelete(h: Heap, x: Ptr)
    requires Deletable(h, x)
  {
    SafeJoin(h, h.p[x], h.n[x]) && TableOk(JoinHeap(h, h.p[x], h.n[x]))
  }

  /** The heap after the destructor of the symbol `x` has run. */
  ghost function DeleteHeap(h: Heap, x: Ptr): Heap
    requires Deletable(h, x)
  {
    var g := JoinHeap(h, h.p[x], h.n[x]);
    g.(table := Forget(g, x), count := Bump(g.count, h.key[x], -1),
       n := g.n - {x}, p := g.p - {x}, key := g.key - {x})
  }

  lemma ForgetUnrecords(g: Heap, x: Ptr)
    requires TableOk(g) && HasDigram(g, x) && Readable(g, x) && Readable(g, g.n[x])
    requires !IsGuard(g, x) && (IsGuard(g, g.n[x]) <==> Guards(g, g.n[x]))
    ensures forall d :: d in Forget(g, x) ==> d in g.table && Forget(g, x)[d] == g.table[d] && g.table[d] != x
  {
    forall d | d in g.table && g.table[d] == x ensures d !in Forget(g, x) {
      assert Entry(g, d, x);
    }
  }

  /** Freeing a symbol that no entry and no link points to. */
  lemma FreeKeepsTable(g: Heap, x: Ptr, k: Heap)
    requires TableOk(g) && k.guard == g.guard && k.key == g.key - {x} && k.n == g.n - {x}
    requires forall d {:trigger d in k.table} ::
      d in k.table ==> d in g.table && k.table[d] == g.table[d] && g.table[d] != x
    requires forall z {:trigger g.n[z]} :: z in g.key && z in g.n && g.n[z] == x ==> z == x
    ensures TableOk(k)
  {
    forall d | d in k.table ensures Entry(k, d, k.table[d]) {
      assert Entry(g, d, g.table[d]);
    }
  }

  lemma DeleteTable(h: Heap, left: Ptr, x: Ptr, right: Ptr)
    requires Site(h, left, x, right) && Closed(h) && TableOk(h)
    requires forall r :: r in h.guard ==> h.guard[r] in h.key && h.key[h.guard[r]] == Rule(r)
    requires forall z {:trigger h.n[z]} :: z in h.key && z in h.n && h.n[z] == x ==> z == left
    requires h.key[x].Rule? ==> h.key[x].r in h.count
    ensures Deletable(h, x) && SafeDelete(h, x) && TableOk(DeleteHeap(h, x))
  {
    DeleteJoin(h, left, x, right);
    var g := JoinHeap(h, left, right);
    ForgetUnrecords(g, x);
    FreeKeepsTable(g, x, DeleteHeap(h, x));
  }

  ghost function BodiesWithout(body: Bodies, r: RuleId, i: nat): Bodies
    requires r in body && i < |body[r]|
  {
    body[r := Without(body[r], i)]
  }

  /** The circle of the rule that loses symbol `i` closes again... */
  lemma DeleteRing(h: Heap, body: Bodies, owner: Owners, r: RuleId, i: nat, g: Heap)
    requires PlacedRule(h, body, owner, r) && LinkedRule(h, body, r) && i < |body[r]|
    requires var x := body[r][i];
      && x in h.n && x in h.p && g.guard == h.guard
      && g.n == h.n[h.p[x] := h.n[x]] - {x} && g.p == h.p[h.n[x] := h.p[x]] - {x}
    ensures LinkedRule(g, BodiesWithout(body, r, i), r)
  {
    var x := body[r][i];
    var c := Circle(h, body, r);
    var c' := Without(c, i + 1);
    assert Circle(g, BodiesWithout(body, r, i), r) == c';
    assert c[i + 1] == x;
    DistinctWithout(c, i + 1);
    RingRemove(c, i + 1, h.n, h.p);
    RingFrame(c', h.n[h.p[x] := h.n[x]], h.p[h.n[x] := h.p[x]], g.n, g.p) by {
      forall j | 0 <= j < |c'| ensures c'[j] in h.n && c'[j] in h.p {
        var k := if j <= i then j else j + 1;
        assert LinkAt(c, k, h.n, h.p);
        assert LinkAt(c, if k == 0 then |c| - 1 else k - 1, h.n, h.p);
      }
    }
  }

  /** ...and holds the other symbols. */
  lemma DeleteCircle(h: Heap, body: Bodies, owner: Owners, r: RuleId, i: nat, g: Heap)
    requires PlacedRule(h, body, owner, r) && LinkedRule(h, body, r) && i < |body[r]|
    requires var x := body[r][i];
      && x in h.n && x in h.p && g.guard == h.guard
      && g.n == h.n[h.p[x] := h.n[x]] - {x} && g.p == h.p[h.n[x] := h.p[x]] - {x}
    ensures LinkedRule(g, BodiesWithout(body, r, i), r)
    ensures PlacedRule(g, BodiesWithout(body, r, i), owner - {body[r][i]}, r)
  {
    DeleteRing(h, body, owner, r, i, g);
    hide LinkedRule;
    var x := body[r][i];
    var body', owner' := BodiesWithout(body, r, i), owner - {x};
    var c := Circle(h, body, r);
    var c' := Without(c, i + 1);
    assert Circle(g, body', r) == c';
    assert c[i + 1] == x;
    DistinctWithout(c, i + 1);
    forall j | 0 <= j < |body'[r]| ensures body'[r][j] in owner' && owner'[body'[r][j]] == r {
      assert body'[r][j] == body[r][if j < i then j else j + 1];
      assert body'[r][j] == c'[j + 1];
    }
    assert c'[0] == h.guard[r];
  }

  lemma DeleteOther(h: Heap, body: Bodies, owner: Owners, r: RuleId, i: nat, g: Heap, q: RuleId)
    requires Linked(h, body) && Placed(h, body, owner)
    requires r in body && i < |body[r]| && q in h.guard && q != r
    requires var x := body[r][i];
      && x in h.n && x in h.p && g.guard == h.guard
      && g.n == h.n[h.p[x] := h.n[x]] - {x} && g.p == h.p[h.n[x] := h.p[x]] - {x}
    ensures LinkedRule(g, BodiesWithout(body, r, i), q)
    ensures PlacedRule(g, BodiesWithout(body, r, i), owner - {body[r][i]}, q)
  {
    var x := body[r][i];
    assert PlacedRule(h, body, owner, r);
    Neighbours(h, body, owner, x);
    assert PlacedRule(h, body, owner, q) && LinkedRule(h, body, q);
    OtherLinked(h, body, owner, q, g, BodiesWithout(body, r, i));
    OtherPlaced(h, body, owner, q, g, BodiesWithout(body, r, i), owner - {x});
  }

  lemma WithoutKeeps(c: seq<Ptr>, i: nat, y: Ptr)
    requires i < |c| && y in c && y != c[i]
    ensures y in Without(c, i)
  {
    var j :| 0 <= j < |c| && c[j] == y;
    assert Without(c, i)[if j < i then j else j - 1] == y;
  }

  lemma DeleteSymbols(h: Heap, body: Bodies, owner: Owners, r: RuleId, i: nat, g: Heap, y: Ptr)
    requires r in h.guard && r in body && i < |body[r]| && g.guard == h.guard
    requires PlacedSymbol(h, body, owner, y) && y != body[r][i]
    ensures PlacedSymbol(g, BodiesWithout(body, r, i), owner - {body[r][i]}, y)
  {
    var body' := BodiesWithout(body, r, i);
    if owner[y] == r {
      WithoutKeeps(Circle(h, body, r), i + 1, y);
      assert Circle(g, body', r) == Without(Circle(h, body, r), i + 1);
    } else {
      assert Circle(g, body', owner[y]) == Circle(h, body, owner[y]);
    }
  }

  /** `g` is `h` with symbol `i` of rule `r` unlinked and freed. */
  ghost predicate Removed(h: Heap, body: Bodies, r: RuleId, i: nat, g: Heap) {
    && r in h.guard && r in body && i < |body[r]|
    && var x := body[r][i];
    && x in h.n && x in h.p && h.n[x] in h.key && h.p[x] in h.key
    && g.guard == h.guard && g.key == h.key - {x}
    && g.n == h.n[h.p[x] := h.n[x]] - {x} && g.p == h.p[h.n[x] := h.p[x]] - {x}
  }

  lemma DeleteRule(h: Heap, body: Bodies, owner: Owners, r: RuleId, i: nat, g: Heap, q: RuleId)
    requires Linked(h, body) && Placed(h, body, owner) && Removed(h, body, r, i, g) && q in g.guard
    ensures LinkedRule(g, BodiesWithout(body, r, i), q)
    ensures PlacedRule(g, BodiesWithout(body, r, i), owner - {body[r][i]}, q)
  {
    if q == r {
      assert PlacedRule(h, body, owner, r) && LinkedRule(h, body, r);
      DeleteCircle(h, body, owner, r, i, g);
    } else {
      DeleteOther(h, body, owner, r, i, g, q);
    }
  }

  lemma DeleteLinked(h: Heap, body: Bodies, owner: Owners, r: RuleId, i: nat, g: Heap)
    requires Linked(h, body) && Placed(h, body, owner) && Removed(h, body, r, i, g)
    ensures Linked(g, BodiesWithout(body, r, i))
  {
    var x := body[r][i];
    forall q | q in g.guard ensures LinkedRule(g, BodiesWithout(body, r, i), q) {
      DeleteRule(h, body, owner, r, i, g, q);
    }
  }

  lemma DeletePlaced(h: Heap, body: Bodies, owner: Owners, r: RuleId, i: nat, g: Heap)
    requires Linked(h, body) && Placed(h, body, owner) && Removed(h, body, r, i, g)
    ensures Placed(g, BodiesWithout(body, r, i), owner - {body[r][i]})
  {
    var body', owner' := BodiesWithout(body, r, i), owner - {body[r][i]};
    forall q | q in g.guard ensures PlacedRule(g, body', owner', q) {
      DeleteRule(h, body, owner, r, i, g, q);
    }
    forall y | y in g.key ensures PlacedSymbol(g, body', owner', y) {
      assert PlacedSymbol(h, body, owner, y);
      DeleteSymbols(h, body, owner, r, i, g, y);
    }
  }

  lemma DeleteUses(h: Heap, x: Ptr, g: Heap, r: RuleId)
    requires x in h.key && !Guards(h, x) && g.guard == h.guard && g.key == h.key - {x}
    ensures Uses(g, r) == Uses(h, r) - {x}
    ensures |Uses(g, r)| == |Uses(h, r)| - (if h.key[x] == Rule(r) then 1 else 0)
  {
  }

  lemma DeleteRefs(h: Heap, owner: Owners, s: RuleId, x: Ptr, g: Heap)
    requires Refs(h, owner, s)
    requires x in h.key && !Guards(h, x)
    requires g.guard == h.guard && g.key == h.key - {x}
    ensures Refs(g, owner - {x}, s)
  {
    forall y | y in g.key ensures RefOk(g, owner - {x}, s, y) {
      assert RefOk(h, owner, s, y);
    }
    forall r | r in g.guard ensures g.guard[r] in g.key && g.key[g.guard[r]] == Rule(r) {
      assert Guards(h, h.guard[r]);
    }
  }

  lemma DeleteCounted(h: Heap, x: Ptr, g: Heap)
    requires Counted(h) && x in h.key && !Guards(h, x) && (h.key[x].Rule? ==> h.key[x].r in h.guard)
    requires g.guard == h.guard && g.key == h.key - {x} && g.count == Bump(h.count, h.key[x], -1)
    ensures Counted(g)
  {
    forall r | r in g.guard ensures g.count[r] == |Uses(g, r)| {
      DeleteUses(h, x, g, r);
    }
  }

  lemma DeleteSound(h: Heap, body: Bodies, owner: Owners, s: RuleId, r: RuleId, i: nat)
    requires Sound(h, body, owner, s)
    requires r in body && i < |body[r]|
    ensures var x := body[r][i];
      && Deletable(h, x) && SafeDelete(h, x)
      && Sound(DeleteHeap(h, x), BodiesWithout(body, r, i), owner - {x}, s)
  {
    var x := body[r][i];
    assert PlacedRule(h, body, owner, r);
    var c := Circle(h, body, r);
    assert c[0] != c[i + 1] && c[i + 1] == x;
    GuardOwner(h, body, owner, s, x);
    DeleteSite(h, body, owner, s, x);
    LinkedIsClosed(h, body);
    forall z | z in h.key && h.n[z] == x ensures z == h.p[x] {
      Neighbours(h, body, owner, z);
    }
    assert RefOk(h, owner, s, x);
    DeleteTable(h, h.p[x], x, h.n[x]);
    DeleteLinked(h, body, owner, r, i, DeleteHeap(h, x));
    DeletePlaced(h, body, owner, r, i, DeleteHeap(h, x));
    DeleteRefs(h, owner, s, x, DeleteHeap(h, x));
    DeleteCounted(h, x, DeleteHeap(h, x));
  }

  // ---------------------------------------------------------------------
  // Inserting a new symbol
  // ---------------------------------------------------------------------

  /** A new symbol `y` with key `k`, not linked yet. */
  ghost function NewHeap(h: Heap, y: Ptr, k: Key): Heap {
    h.(key := h.key[y := k], count := Bump(h.count, k, 1))
  }

  ghost predicate Insertable(h: Heap, a: Ptr, y: Ptr, k: Key) {
    && y !in h.key && a in h.n && h.n[a] in h.key
    && Joinable(NewHeap(h, y, k), y, h.n[a])
    && Joinable(JoinHeap(NewHeap(h, y, k), y, h.n[a]), a, y)
  }

  /** The table is right whenever `insert_after` looks at it, which is only at its second join. */
  ghost predicate SafeInsert(h: Heap, a: Ptr, y: Ptr, k: Key)
    requires Insertable(h, a, y, k)
  {
    y !in h.n && SafeJoin(JoinHeap(NewHeap(h, y, k), y, h.n[a]), a, y)
  }

  /** The heap after `a->insert_after(new symbols(k))`. */
  ghost function InsertHeap(h: Heap, a: Ptr, y: Ptr, k: Key): Heap
    requires Insertable(h, a, y, k)
  {
    JoinHeap(JoinHeap(NewHeap(h, y, k), y, h.n[a]), a, y)
  }

  ghost predicate KeyFits(h: Heap, r: RuleId, s: RuleId, k: Key) {
    k != Zero && (k.Rule? ==> k.r in h.guard && k.r != s && k.r != r)
  }

  lemma NewTable(h: Heap, y: Ptr, k: Key, right: Ptr)
    requires TableOk(h) && y !in h.key && y !in h.n && y !in h.p && right in h.key
    requires forall r :: r in h.guard ==> h.guard[r] in h.key
    ensures Joinable(NewHeap(h, y, k), y, right)
    ensures var g := JoinHeap(NewHeap(h, y, k), y, right);
      TableOk(g) && Unrecorded(g, y) && g.table == h.table && !Guards(g, y)
      && forall x {:trigger Guards(g, x)} :: x in h.key ==> (Guards(g, x) <==> Guards(h, x))
  {
    var m := NewHeap(h, y, k);
    forall d | d in m.table ensures Entry(m, d, m.table[d]) && m.table[d] != y {
      assert Entry(h, d, h.table[d]);
    }
    JoinKeepsTable(m, y, right);
  }

  /** The surroundings of the place where a symbol with key `k` goes in. */
  ghost predicate Gap(h: Heap, a: Ptr, right: Ptr, k: Key) {
    && a in h.key && right in h.key && a in h.n && h.n[a] == right && a in h.p && h.p[a] in h.key
    && (h.key[a].Rule? ==> h.key[a].r in h.guard)
    && (h.key[right].Rule? ==> h.key[right].r in h.guard)
    && (right == a ==> !SameValue(h.key[a], k))
    && (right != a && Triple(h, a) ==>
          !Guards(h, a) && !Guards(h, h.p[a]) && h.p[a] != a && h.p[a] in h.n && h.n[h.p[a]] == a)
  }

  lemma InsertGap(h: Heap, body: Bodies, owner: Owners, s: RuleId, a: Ptr, k: Key)
    requires Sound(h, body, owner, s) && a in h.key && KeyFits(h, owner[a], s, k)
    ensures Gap(h, a, h.n[a], k)
  {
    var right := h.n[a];
    Neighbours(h, body, owner, a);
    assert RefOk(h, owner, s, a) && RefOk(h, owner, s, right);
    if right == a {
      var r, j := Where(h, body, owner, a);
      assert LinkedRule(h, body, r);
      var c := Circle(h, body, r);
      assert LinkAt(c, j, h.n, h.p);
      GuardOwner(h, body, owner, s, a);
    } else if Triple(h, a) {
      NoGuardInTriple(h, body, owner, s, a);
    }
  }

  /** `join` around the new symbol: the second half of `insert_after`. */
  lemma InsertTable(h: Heap, a: Ptr, right: Ptr, y: Ptr, k: Key)
    requires Gap(h, a, right, k) && Closed(h) && TableOk(h) && y !in h.key && y !in h.n && y !in h.p
    requires forall r :: r in h.guard ==> h.guard[r] in h.key
    ensures Insertable(h, a, y, k) && SafeInsert(h, a, y, k) && TableOk(InsertHeap(h, a, y, k))
    ensures Unrecorded(InsertHeap(h, a, y, k), a) && Unrecorded(InsertHeap(h, a, y, k), y)
  {
    NewTable(h, y, k, right);
    var g := JoinHeap(NewHeap(h, y, k), y, right);
    assert Closed(g) by {
      forall q | q in g.guard
        ensures g.guard[q] in g.p && g.p[g.guard[q]] in g.n && g.n[g.p[g.guard[q]]] == g.guard[q]
      {
        assert h.n[h.p[h.guard[q]]] == h.guard[q];
      }
    }
    GuardTest(g, a);
    GuardTest(g, right);
    assert !Triple(g, y);
    assert Triple(g, a) ==> right != a && Triple(h, a);
    JoinKeepsTable(g, a, y);
  }

  ghost function BodiesWith(body: Bodies, r: RuleId, k: nat, y: Ptr): Bodies
    requires r in body && k <= |body[r]|
  {
    body[r := body[r][..k] + [y] + body[r][k..]]
  }

  lemma InsertCircle(h: Heap, body: Bodies, owner: Owners, r: RuleId, k: nat, y: Ptr, g: Heap)
    requires PlacedRule(h, body, owner, r) && LinkedRule(h, body, r) && k <= |body[r]| && y !in owner
    requires var a := Circle(h, body, r)[k];
      && a in h.n && g.guard == h.guard
      && g.n == h.n[y := h.n[a]][a := y] && g.p == h.p[h.n[a] := y][y := a]
    ensures LinkedRule(g, BodiesWith(body, r, k, y), r)
    ensures PlacedRule(g, BodiesWith(body, r, k, y), owner[y := r], r)
  {
    var c := Circle(h, body, r);
    var body', owner' := BodiesWith(body, r, k, y), owner[y := r];
    assert y !in c by {
      if y in c { var j :| 0 <= j < |c| && c[j] == y; OnCircle(h, body, owner, r, j); }
    }
    assert Circle(g, body', r) == With(c, k, y);
    DistinctWith(c, k, y);
    RingInsert(c, k, y, h.n, h.p);
    forall j | 0 <= j < |body'[r]| ensures body'[r][j] in owner' && owner'[body'[r][j]] == r {
      assert j < k ==> body'[r][j] == body[r][j];
      assert j > k ==> body'[r][j] == body[r][j - 1];
    }
  }

  lemma InsertOther(h: Heap, body: Bodies, owner: Owners, r: RuleId, k: nat, y: Ptr, g: Heap, q: RuleId)
    requires Linked(h, body) && Placed(h, body, owner) && r in body && k <= |body[r]| && y !in owner
    requires q in h.guard && q != r
    requires r in h.guard
    requires var a := Circle(h, body, r)[k];
      && a in h.n && g.guard == h.guard
      && g.n == h.n[y := h.n[a]][a := y] && g.p == h.p[h.n[a] := y][y := a]
    ensures LinkedRule(g, BodiesWith(body, r, k, y), q)
    ensures PlacedRule(g, BodiesWith(body, r, k, y), owner[y := r], q)
  {
    assert PlacedRule(h, body, owner, r);
    OnCircle(h, body, owner, r, k);
    Neighbours(h, body, owner, Circle(h, body, r)[k]);
    assert PlacedRule(h, body, owner, q) && LinkedRule(h, body, q);
    OtherLinked(h, body, owner, q, g, BodiesWith(body, r, k, y));
    OtherPlaced(h, body, owner, q, g, BodiesWith(body, r, k, y), owner[y := r]);
  }

  lemma InsertSymbols(h: Heap, body: Bodies, owner: Owners, r: RuleId, k: nat, y: Ptr, g: Heap, x: Ptr)
    requires r in h.guard && r in body && k <= |body[r]| && g.guard == h.guard
    requires x == y || PlacedSymbol(h, body, owner, x)
    ensures PlacedSymbol(g, BodiesWith(body, r, k, y), owner[y := r], x)
  {
    var body', owner' := BodiesWith(body, r, k, y), owner[y := r];
    assert Circle(g, body', r) == With(Circle(h, body, r), k, y);
    if x == y {
      assert Circle(g, body', r)[k + 1] == y;
    } else if owner[x] == r {
      InsertKeeps(Circle(h, body, r), k, y, x);
    } else {
      assert Circle(g, body', owner[x]) == Circle(h, body, owner[x]);
    }
  }

  /** `g` is `h` with `y` linked in after the symbol at place `k` of rule `r`. */
  ghost predicate Inserted(h: Heap, body: Bodies, r: RuleId, k: nat, y: Ptr, g: Heap) {
    && r in h.guard && r in body && k <= |body[r]|
    && var a := Circle(h, body, r)[k];
    && a in h.n && h.n[a] in h.key && g.guard == h.guard
    && (forall x {:trigger x in g.key} :: x in g.key <==> x in h.key || x == y)
    && g.n == h.n[y := h.n[a]][a := y] && g.p == h.p[h.n[a] := y][y := a]
  }

  lemma InsertRule(h: Heap, body: Bodies, owner: Owners, r: RuleId, k: nat, y: Ptr, g: Heap, q: RuleId)
    requires Linked(h, body) && Placed(h, body, owner) && y !in h.key && Inserted(h, body, r, k, y, g)
    requires q in g.guard
    ensures LinkedRule(g, BodiesWith(body, r, k, y), q) && PlacedRule(g, BodiesWith(body, r, k, y), owner[y := r], q)
  {
    if q == r {
      assert PlacedRule(h, body, owner, r) && LinkedRule(h, body, r);
      InsertCircle(h, body, owner, r, k, y, g);
    } else {
      InsertOther(h, body, owner, r, k, y, g, q);
    }
  }

  lemma InsertLinked(h: Heap, body: Bodies, owner: Owners, r: RuleId, k: nat, y: Ptr, g: Heap)
    requires Linked(h, body) && Placed(h, body, owner) && y !in h.key && Inserted(h, body, r, k, y, g)
    ensures Linked(g, BodiesWith(body, r, k, y))
  {
    var a := Circle(h, body, r)[k];
    forall q | q in g.guard ensures LinkedRule(g, BodiesWith(body, r, k, y), q) {
      InsertRule(h, body, owner, r, k, y, g, q);
    }
  }

  lemma InsertAllSymbols(h: Heap, body: Bodies, owner: Owners, r: RuleId, k: nat, y: Ptr, g: Heap)
    requires Placed(h, body, owner) && r in h.guard && r in body && k <= |body[r]|
    requires g.guard == h.guard && (forall x {:trigger x in g.key} :: x in g.key <==> x in h.key || x == y)
    ensures SameDomain(owner[y := r], g.key) && SameDomain(BodiesWith(body, r, k, y), g.guard)
    ensures forall x {:trigger PlacedSymbol(g, BodiesWith(body, r, k, y), owner[y := r], x)} ::
      x in g.key ==> PlacedSymbol(g, BodiesWith(body, r, k, y), owner[y := r], x)
  {
    forall x | x in g.key ensures PlacedSymbol(g, BodiesWith(body, r, k, y), owner[y := r], x) {
      if x != y { assert PlacedSymbol(h, body, owner, x); }
      InsertSymbols(h, body, owner, r, k, y, g, x);
    }
  }

  lemma InsertPlaced(h: Heap, body: Bodies, owner: Owners, r: RuleId, k: nat, y: Ptr, g: Heap)
    requires Linked(h, body) && Placed(h, body, owner) && y !in h.key && Inserted(h, body, r, k, y, g)
    ensures Placed(g, BodiesWith(body, r, k, y), owner[y := r])
  {
    var body', owner' := BodiesWith(body, r, k, y), owner[y := r];
    forall q | q in g.guard ensures PlacedRule(g, body', owner', q) {
      InsertRule(h, body, owner, r, k, y, g, q);
    }
    InsertAllSymbols(h, body, owner, r, k, y, g);
  }

  lemma InsertKeeps(c: seq<Ptr>, i: nat, y: Ptr, x: Ptr)
    requires i < |c| && x in c
    ensures x in With(c, i, y)
  {
    var j :| 0 <= j < |c| && c[j] == x;
    assert With(c, i, y)[if j <= i then j else j + 1] == x;
  }

  lemma InsertUses(h: Heap, y: Ptr, k: Key, g: Heap, r: RuleId)
    requires y !in h.key && g.guard == h.guard && g.key == h.key[y := k]
    requires forall q :: q in h.guard ==> h.guard[q] in h.key
    ensures Uses(g, r) == if k == Rule(r) then Uses(h, r) + {y} else Uses(h, r)
    ensures |Uses(g, r)| == |Uses(h, r)| + (if k == Rule(r) then 1 else 0)
  {
    assert !Guards(g, y);
    forall x | x in h.key ensures x in Uses(g, r) <==> x in Uses(h, r) {
      assert Guards(g, x) <==> Guards(h, x);
    }
    var after := if k == Rule(r) then Uses(h, r) + {y} else Uses(h, r);
    forall x ensures x in Uses(g, r) <==> x in after {
      if x in h.key { assert x in Uses(g, r) <==> x in Uses(h, r); }
    }
    assert Uses(g, r) == after;
  }

  lemma InsertCounted(h: Heap, y: Ptr, k: Key, g: Heap)
    requires Counted(h) && y !in h.key && (k.Rule? ==> k.r in h.guard)
    requires g.guard == h.guard && g.key == h.key[y := k] && g.count == Bump(h.count, k, 1)
    requires forall q :: q in h.guard ==> h.guard[q] in h.key
    ensures Counted(g)
  {
    hide Uses;
    forall r | r in g.guard ensures g.count[r] == |Uses(g, r)| {
      InsertUses(h, y, k, g, r);
    }
  }

  lemma InsertRefs(h: Heap, owner: Owners, s: RuleId, r: RuleId, y: Ptr, k: Key, g: Heap)
    requires Refs(h, owner, s) && y !in h.key && KeyFits(h, r, s, k)
    requires g.guard == h.guard && g.key == h.key[y := k]
    ensures Refs(g, owner[y := r], s)
  {
    forall x | x in g.key ensures RefOk(g, owner[y := r], s, x) {
      if x != y { assert RefOk(h, owner, s, x); }
    }
  }

  lemma InsertTableSound(h: Heap, body: Bodies, owner: Owners, s: RuleId, a: Ptr, y: Ptr, k: Key)
    requires Sound(h, body, owner, s) && a in h.key && KeyFits(h, owner[a], s, k) && y !in h.key
    ensures Insertable(h, a, y, k) && SafeInsert(h, a, y, k) && TableOk(InsertHeap(h, a, y, k))
    ensures Unrecorded(InsertHeap(h, a, y, k), a) && Unrecorded(InsertHeap(h, a, y, k), y)
  {
    InsertGap(h, body, owner, s, a, k);
    LinkedIsClosed(h, body);
    InsertTable(h, a, h.n[a], y, k);
  }

  lemma InsertSound(h: Heap, body: Bodies, owner: Owners, s: RuleId, r: RuleId, i: nat, y: Ptr, k: Key)
    requires Sound(h, body, owner, s)
    requires r in h.guard && r in body && i <= |body[r]| && y !in h.key && KeyFits(h, r, s, k)
    ensures var a := Circle(h, body, r)[i];
      && Insertable(h, a, y, k) && SafeInsert(h, a, y, k)
      && Sound(InsertHeap(h, a, y, k), BodiesWith(body, r, i, y), owner[y := r], s)
      && Unrecorded(InsertHeap(h, a, y, k), a) && Unrecorded(InsertHeap(h, a, y, k), y)
  {
    var a := Circle(h, body, r)[i];
    assert PlacedRule(h, body, owner, r);
    OnCircle(h, body, owner, r, i);
    InsertTableSound(h, body, owner, s, a, y, k);
    var g := InsertHeap(h, a, y, k);
    Neighbours(h, body, owner, a);
    InsertLinked(h, body, owner, r, i, y, g);
    InsertPlaced(h, body, owner, r, i, y, g);
    InsertRefs(h, owner, s, r, y, k, g);
    InsertCounted(h, y, k, g);
  }
}
