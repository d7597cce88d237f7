/**
  Variable-length keys of btree_gist for byte-ordered types whose node keys are
  truncated: bounds are cut to a common prefix plus a little, and search must still
  reach every matching value.
 */
module GistVarKey {
  import opened ByteOrder

  type Bytes = seq<Byte>

  /** `f_cmp` of a byte-ordered type. */
  function Cmp(a: Bytes, b: Bytes): int {
    Lex(a, b, false)
  }

  ghost predicate Leq(a: Bytes, b: Bytes) {
    Cmp(a, b) <= 0
  }

  function Take(a: Bytes, n: nat): (r: Bytes)
    ensures |r| <= n && r <= a
  {
    if |a| <= n then a else a[..n]
  }

  /** A leaf key holds one value, a node key a lower and an upper bound. */
  datatype Key = Leaf(value: Bytes) | Node(lo: Bytes, up: Bytes) {
    /** `gbt_var_key_readable`. */
    function Lower(): Bytes { if Leaf? then value else lo }
    function Upper(): Bytes { if Leaf? then value else up }
  }

  // ---------------------------------------------------------------------
  // Order facts
  // ---------------------------------------------------------------------

  lemma LeqReflexive(a: Bytes)
    ensures Leq(a, a)
  {
    LexEqual(a, a, false);
  }

  lemma LeqTransitive(a: Bytes, b: Bytes, c: Bytes)
    requires Leq(a, b) && Leq(b, c)
    ensures Leq(a, c)
  {
    LexTransitive(a, b, c, false);
  }

  lemma LeqTotal(a: Bytes, b: Bytes)
    ensures Leq(a, b) || Leq(b, a)
    ensures Leq(a, b) && Leq(b, a) ==> a == b
    ensures Cmp(b, a) == -Cmp(a, b)
  {
    LexAntisymmetric(a, b, false);
    LexEqual(a, b, false);
  }

  lemma {:induction false} PrefixBelow(p: Bytes, a: Bytes)
    requires p <= a
    ensures Leq(p, a)
  {
    if p != [] {
      assert p[0] == a[0] && p[1..] <= a[1..];
      PrefixBelow(p[1..], a[1..]);
    }
  }

  /** Cutting both sides keeps the order. */
  lemma {:induction false} TakeMonotone(a: Bytes, b: Bytes, n: nat)
    requires Leq(a, b)
    ensures Leq(Take(a, n), Take(b, n))
  {
    if a != [] && b != [] && n > 0 && a[0] == b[0] {
      TakeMonotone(a[1..], b[1..], n - 1);
      assert Take(a, n) == [a[0]] + Take(a[1..], n - 1);
      assert Take(b, n) == [b[0]] + Take(b[1..], n - 1);
    }
  }

  /** Whatever lies between a prefix of `v` and `v` starts with that prefix. */
  lemma {:induction false} BetweenPrefix(p: Bytes, x: Bytes, v: Bytes)
    requires p <= v && Leq(p, x) && Leq(x, v)
    ensures p <= x
  {
    if p != [] {
      assert p[0] == v[0] && p[1..] <= v[1..];
      BetweenPrefix(p[1..], x[1..], v[1..]);
    }
  }

  // ---------------------------------------------------------------------
  // gbt_var_node_cp_len
  // ---------------------------------------------------------------------

  function CommonPrefix(a: Bytes, b: Bytes): (n: nat)
    ensures n <= |a| && n <= |b| && a[..n] == b[..n]
  {
    if a == [] || b == [] || a[0] != b[0] then 0 else 1 + CommonPrefix(a[1..], b[1..])
  }

  /** The longest common prefix of two bounds is no longer than that of anything
      in between. */
  lemma {:induction false} CommonPrefixShrinks(lo: Bytes, a: Bytes, b: Bytes, up: Bytes)
    requires Leq(lo, a) && Leq(a, b) && Leq(b, up)
    ensures CommonPrefix(lo, up) <= CommonPrefix(a, b)
  {
    if lo != [] && up != [] && lo[0] == up[0] {
      LeqTransitive(lo, a, b);
      LeqTransitive(a, b, up);
      CommonPrefixShrinks(lo[1..], a[1..], b[1..], up[1..]);
    }
  }

  lemma {:induction false} CommonPrefixOfCuts(a: Bytes, b: Bytes, n: nat)
    requires CommonPrefix(a, b) <= n
    ensures CommonPrefix(Take(a, n + 1), Take(b, n + 1)) <= CommonPrefix(a, b)
  {
    if a != [] && b != [] && a[0] == b[0] {
      CommonPrefixOfCuts(a[1..], b[1..], n - 1);
      assert Take(a, n + 1)[1..] == Take(a[1..], n) && Take(b, n + 1)[1..] == Take(b[1..], n);
    }
  }

  method NodeCpLen(node: Key) returns (n: nat)
    ensures n == CommonPrefix(node.Lower(), node.Upper())
  {
    var lo, up := node.Lower(), node.Upper();
    var ml := if |lo| < |up| then |lo| else |up|;
    n := 0;
    assert lo[0..] == lo && up[0..] == up;
    while n < ml
      invariant n <= ml && CommonPrefix(lo, up) == n + CommonPrefix(lo[n..], up[n..])
    {
      if lo[n] != up[n] {
        return;
      }
      assert lo[n..][1..] == lo[n + 1..] && up[n..][1..] == up[n + 1..];
      n := n + 1;
    }
  }

  // ---------------------------------------------------------------------
  // Keys and what they admit
  // ---------------------------------------------------------------------

  /** The bounds are in order; unless nothing lies above the upper one, it is long enough to
      have been cut two bytes behind what it shares with the lower one. */
  ghost predicate Sane(k: Key, exact: bool) {
    k.Node? ==> Leq(k.lo, k.up) && (exact || CommonPrefix(k.lo, k.up) + 2 <= |k.up|)
  }

  /** What a key says of a value below it: it lies between the bounds or, unless the upper
      bound is `exact`, goes on where that was cut. */
  ghost predicate Admits(k: Key, exact: bool, v: Bytes) {
    if k.Leaf? then v == k.value else Leq(k.lo, v) && (Leq(v, k.up) || (!exact && k.up <= v))
  }

  // ---------------------------------------------------------------------
  // gbt_var_bin_union, gbt_var_node_truncate, gbt_var_union
  // ---------------------------------------------------------------------

  function Copy(k: Key): Key {
    Node(k.Lower(), k.Upper())
  }

  function BinUnion(u: Key, e: Key): Key {
    Node(if Cmp(u.Lower(), e.Lower()) > 0 then e.Lower() else u.Lower(),
         if Cmp(u.Upper(), e.Upper()) < 0 then e.Upper() else u.Upper())
  }

  /** The bounds of the first `n` keys. */
  function Bounds(ks: seq<Key>, n: nat): Key
    requires 0 < n <= |ks|
  {
    if n == 1 then Copy(ks[0]) else BinUnion(Bounds(ks, n - 1), ks[n - 1])
  }

  function Truncate(k: Key, cpf: nat): Key {
    Node(Take(k.Lower(), cpf + 1), Take(k.Upper(), cpf + 1))
  }

  function UnionKey(ks: seq<Key>): Key
    requires ks != []
  {
    var b := Bounds(ks, |ks|);
    Truncate(b, CommonPrefix(b.Lower(), b.Upper()) + 1)
  }

  method Union(ks: seq<Key>) returns (k: Key)
    requires ks != []
    ensures k == UnionKey(ks)
  {
    hide Cmp;
    hide CommonPrefix;
    hide Truncate;
    var out := Copy(ks[0]);
    var i := 1;
    while i < |ks|
      invariant 1 <= i <= |ks| && out == Bounds(ks, i)
    {
      var cur := ks[i];
      var lo, up := out.Lower(), out.Upper();
      if Cmp(out.Lower(), cur.Lower()) > 0 {
        lo := cur.Lower();
      }
      if Cmp(out.Upper(), cur.Upper()) < 0 {
        up := cur.Upper();
      }
      out := Node(lo, up);
      i := i + 1;
    }
    var plen := NodeCpLen(out);
    k := Truncate(out, plen + 1);
  }

  lemma LeafBounds(k: Key)
    requires k.Leaf? || Leq(k.lo, k.up)
    ensures Leq(k.Lower(), k.Upper())
  {
    if k.Leaf? { LeqReflexive(k.value); }
  }

  /** The bounds enclose every key. */
  lemma {:induction false} BoundsEnclose(ks: seq<Key>, n: nat, i: nat)
    requires i < n <= |ks| && forall j :: 0 <= j < |ks| ==> (ks[j].Leaf? || Leq(ks[j].lo, ks[j].up))
    ensures var b := Bounds(ks, n);
      && Leq(b.lo, ks[i].Lower()) && Leq(ks[i].Lower(), ks[i].Upper()) && Leq(ks[i].Upper(), b.up) && Leq(b.lo, b.up)
  {
    hide Lex;
    var b := Bounds(ks, n);
    LeafBounds(ks[i]);
    if n == 1 {
      LeqReflexive(b.lo);
      LeqReflexive(b.up);
    } else {
      var a, e := Bounds(ks, n - 1), ks[n - 1];
      LeqTotal(a.lo, e.Lower());
      LeqTotal(a.up, e.Upper());
      LeqReflexive(b.lo);
      LeqReflexive(b.up);
      LeafBounds(e);
      BoundsEnclose(ks, n - 1, if i < n - 1 then i else 0);
      BoundsGrow(a, e, b);
      if i < n - 1 {
        LeqTransitive(b.lo, a.lo, ks[i].Lower());
        LeqTransitive(ks[i].Upper(), a.up, b.up);
      }
    }
  }

  lemma BoundsGrow(a: Key, e: Key, b: Key)
    requires a.Node? && b == BinUnion(a, e) && Leq(a.lo, a.up) && Leq(e.Lower(), e.Upper())
    ensures Leq(b.lo, a.lo) && Leq(b.lo, e.Lower()) && Leq(a.up, b.up) && Leq(e.Upper(), b.up) && Leq(b.lo, b.up)
  {
    LeqTotal(a.lo, e.Lower());
    LeqTotal(a.up, e.Upper());
    LeqReflexive(b.lo);
    LeqReflexive(b.up);
    LeqTransitive(b.lo, a.lo, a.up);
    LeqTransitive(b.lo, a.up, b.up);
  }

  /** The bounds `b` cut to `cut` bytes, at least two more than they share. */
  ghost predicate Cuttable(b: Key, cut: nat) {
    b.Node? && Leq(b.lo, b.up) && CommonPrefix(b.lo, b.up) + 2 <= cut
  }

  ghost predicate Encloses(b: Key, k: Key) {
    b.Node? && Leq(b.lo, k.Lower()) && Leq(k.Upper(), b.up)
  }

  lemma CutShares(b: Key, cut: nat)
    requires Cuttable(b, cut)
    ensures var t := Truncate(b, cut - 1);
      && Leq(t.lo, t.up) && CommonPrefix(t.lo, t.up) <= CommonPrefix(b.lo, b.up)
      && (t.up == b.up || |t.up| == cut) && Leq(t.lo, b.lo)
  {
    TakeMonotone(b.lo, b.up, cut);
    CommonPrefixOfCuts(b.lo, b.up, cut - 1);
    PrefixBelow(Take(b.lo, cut), b.lo);
  }

  /** What lies below a bound lies below its cut, or goes on where that was cut. */
  lemma {:induction false} BelowCut(v: Bytes, u: Bytes, n: nat)
    requires Leq(v, u)
    ensures Leq(v, Take(u, n)) || Take(u, n) <= v
  {
    if n > 0 && v != [] && u != [] && v[0] == u[0] {
      BelowCut(v[1..], u[1..], n - 1);
      assert Take(u, n) == [u[0]] + Take(u[1..], n - 1);
    }
  }

  /** A value that goes on from a bound lies below any bound that does not. */
  lemma OffPrefix(p: Bytes, v: Bytes, u: Bytes)
    requires p <= v && Leq(p, u) && !(p <= u)
    ensures Leq(v, u)
  {
    LeqTotal(v, u);
    if Leq(u, v) { BetweenPrefix(p, u, v); }
  }

  ghost function Fill(n: nat): (r: Bytes)
    ensures |r| == n
  {
    seq(n, _ => 255)
  }

  /** The key above, with upper bound `up`, says no more of where values end than `k` does: it
      is not cut later, or nothing was cut, or the new bound is the largest there is. */
  ghost predicate Keeps(k: Key, exact: bool, up: Bytes) {
    k.Leaf? || exact || !(k.up < up) || up == k.up + Fill(|up| - |k.up|)
  }

  /** The upper bound of the key above is not cut, and no value of `k` goes on from it. */
  ghost predicate StaysExact(b: Key, cut: nat, k: Key, exact: bool)
    requires b.Node? && cut > 0
  {
    Take(b.up, cut) == b.up && (k.Leaf? || exact || !(k.up <= b.up))
  }

  /** A value that the new upper bound does not cut off. */
  lemma TruncatedReaches(b: Key, cut: nat, k: Key, exact: bool, v: Bytes)
    requires Cuttable(b, cut) && Encloses(b, k) && Sane(k, exact) && Admits(k, exact, v)
    requires Keeps(k, exact, Take(b.up, cut)) || Leq(v, k.Upper())
    ensures var up := Take(b.up, cut); Leq(v, up) || up <= v
    ensures StaysExact(b, cut, k, exact) ==> Leq(v, b.up)
  {
    var up := Take(b.up, cut);
    LeqReflexive(v);
    if Leq(v, k.Upper()) {
      LeqTransitive(v, k.Upper(), b.up);
      BelowCut(v, b.up, cut);
    } else if !(k.up <= b.up) {
      OffPrefix(k.up, v, b.up);
      BelowCut(v, b.up, cut);
    } else if |up| <= |k.up| {
      assert up <= k.up;
    } else {
      FillIsLargest(v, k.up, |up| - |k.up|);
      WithinTaken(v, up);
    }
  }

  lemma {:induction false} WithinTaken(v: Bytes, u: Bytes)
    requires Leq(Take(v, |u|), u)
    ensures Leq(v, u) || u <= v
  {
    if u != [] && v != [] && v[0] == u[0] {
      assert Take(v, |u|)[1..] == Take(v[1..], |u| - 1);
      WithinTaken(v[1..], u[1..]);
    }
  }

  lemma {:induction false} FillIsLargest(v: Bytes, u: Bytes, n: nat)
    requires u <= v
    ensures Leq(Take(v, |u| + n), u + Fill(n))
  {
    if u == [] {
      assert u + Fill(n) == Fill(n) && Take(v, |u| + n) == Take(v, n);
      BelowFill(Take(v, n), n);
    } else {
      assert (u + Fill(n))[1..] == u[1..] + Fill(n);
      assert Take(v, |u| + n)[1..] == Take(v[1..], |u| - 1 + n);
      FillIsLargest(v[1..], u[1..], n);
    }
  }

  lemma {:induction false} BelowFill(v: Bytes, n: nat)
    requires |v| <= n
    ensures Leq(v, Fill(n))
  {
    if v != [] {
      assert Fill(n)[0] == 255 && Fill(n)[1..] == Fill(n - 1);
      BelowFill(v[1..], n - 1);
    }
  }

  lemma LowerReaches(b: Key, cut: nat, k: Key, exact: bool, v: Bytes)
    requires Cuttable(b, cut) && Encloses(b, k) && Admits(k, exact, v)
    ensures Leq(Take(b.lo, cut), v)
  {
    LeqReflexive(v);
    PrefixBelow(Take(b.lo, cut), b.lo);
    LeqTransitive(Take(b.lo, cut), b.lo, k.Lower());
    LeqTransitive(Take(b.lo, cut), k.Lower(), v);
  }

  /** A value admitted by one key is admitted by the cut bounds around it, if these keep what
      the key says. */
  lemma TruncatedAdmits(b: Key, cut: nat, k: Key, exact: bool, v: Bytes, exact': bool)
    requires Cuttable(b, cut) && Encloses(b, k) && Sane(k, exact) && Admits(k, exact, v)
    requires Keeps(k, exact, Take(b.up, cut)) && (exact' ==> StaysExact(b, cut, k, exact))
    ensures Admits(Truncate(b, cut - 1), exact', v)
  {
    LowerReaches(b, cut, k, exact, v);
    TruncatedReaches(b, cut, k, exact, v);
  }

  // Parts of a page: keys together with whether their upper bounds are exact.

  ghost predicate AllSane(ks: seq<Key>, exacts: seq<bool>) {
    |exacts| == |ks| && forall j :: 0 <= j < |ks| ==> Sane(ks[j], exacts[j])
  }

  /** Whether the upper bound of the cut bounds of `ks` is exact. */
  ghost predicate BoundsExact(ks: seq<Key>, exacts: seq<bool>, cut: nat)
    requires ks != [] && |exacts| == |ks| && cut > 0
  {
    forall j :: 0 <= j < |ks| ==> StaysExact(Bounds(ks, |ks|), cut, ks[j], exacts[j])
  }

  lemma AllOrdered(ks: seq<Key>, exacts: seq<bool>)
    requires AllSane(ks, exacts)
    ensures forall j :: 0 <= j < |ks| ==> (ks[j].Leaf? || Leq(ks[j].lo, ks[j].up))
  {
    forall j | 0 <= j < |ks| ensures ks[j].Leaf? || Leq(ks[j].lo, ks[j].up) {
      assert Sane(ks[j], exacts[j]);
    }
  }

  lemma BoundsAreSane(ks: seq<Key>, exacts: seq<bool>, cut: nat)
    requires ks != [] && AllSane(ks, exacts)
    requires var b := Bounds(ks, |ks|); CommonPrefix(b.Lower(), b.Upper()) + 2 <= cut
    ensures Cuttable(Bounds(ks, |ks|), cut)
    ensures Sane(Truncate(Bounds(ks, |ks|), cut - 1), BoundsExact(ks, exacts, cut))
  {
    hide CommonPrefix;
    var b := Bounds(ks, |ks|);
    AllOrdered(ks, exacts);
    BoundsEnclose(ks, |ks|, 0);
    CutShares(b, cut);
    if Take(b.up, cut) == b.up && !BoundsExact(ks, exacts, cut) {
      var j :| 0 <= j < |ks| && !StaysExact(b, cut, ks[j], exacts[j]);
      BoundsEnclose(ks, |ks|, j);
      assert Sane(ks[j], exacts[j]);
      CommonPrefixShrinks(b.lo, ks[j].lo, ks[j].up, b.up);
    }
  }

  lemma BoundsAdmit(ks: seq<Key>, exacts: seq<bool>, cut: nat, i: nat, v: Bytes)
    requires i < |ks| && AllSane(ks, exacts) && Admits(ks[i], exacts[i], v)
    requires var b := Bounds(ks, |ks|);
      CommonPrefix(b.Lower(), b.Upper()) + 2 <= cut && Keeps(ks[i], exacts[i], Take(b.Upper(), cut))
    ensures Admits(Truncate(Bounds(ks, |ks|), cut - 1), BoundsExact(ks, exacts, cut), v)
  {
    hide CommonPrefix;
    AllOrdered(ks, exacts);
    BoundsEnclose(ks, |ks|, i);
    assert Sane(ks[i], exacts[i]);
    TruncatedAdmits(Bounds(ks, |ks|), cut, ks[i], exacts[i], v, BoundsExact(ks, exacts, cut));
  }

  ghost function UnionCut(ks: seq<Key>): nat
    requires ks != []
  {
    var b := Bounds(ks, |ks|);
    CommonPrefix(b.Lower(), b.Upper()) + 2
  }

  /** A union is never cut later than its parts were. */
  lemma UnionKeeps(ks: seq<Key>, exacts: seq<bool>, i: nat)
    requires i < |ks| && AllSane(ks, exacts)
    ensures Keeps(ks[i], exacts[i], UnionKey(ks).up)
  {
    AllOrdered(ks, exacts);
    BoundsEnclose(ks, |ks|, i);
    assert Sane(ks[i], exacts[i]);
    var b := Bounds(ks, |ks|);
    CommonPrefixShrinks(b.lo, ks[i].Lower(), ks[i].Upper(), b.up);
  }

  /** Going up through a union nothing is lost. */
  lemma UnionAdmits(ks: seq<Key>, exacts: seq<bool>, i: nat, v: Bytes)
    requires i < |ks| && AllSane(ks, exacts) && Admits(ks[i], exacts[i], v)
    ensures Admits(UnionKey(ks), BoundsExact(ks, exacts, UnionCut(ks)), v)
  {
    hide CommonPrefix;
    UnionKeeps(ks, exacts, i);
    BoundsAdmit(ks, exacts, UnionCut(ks), i, v);
  }

  lemma UnionIsSane(ks: seq<Key>, exacts: seq<bool>)
    requires ks != [] && AllSane(ks, exacts)
    ensures Sane(UnionKey(ks), BoundsExact(ks, exacts, UnionCut(ks)))
  {
    hide CommonPrefix;
    BoundsAreSane(ks, exacts, UnionCut(ks));
  }

  // ---------------------------------------------------------------------
  // gbt_var_consistent
  // ---------------------------------------------------------------------

  datatype Strategy = Less | LessEqual | Equal | GreaterEqual | Greater | NotEqual

  /** `gbt_bytea_pf_match`. */
  predicate PrefixMatch(pf: Bytes, query: Bytes) {
    |pf| <= |query| && query[..|pf|] == pf
  }

  predicate NodePrefixMatch(k: Key, query: Bytes) {
    PrefixMatch(k.Lower(), query) || PrefixMatch(k.Upper(), query)
  }

  predicate Consistent(k: Key, query: Bytes, strategy: Strategy, isLeaf: bool) {
    match strategy
    case LessEqual =>
      if isLeaf then Cmp(query, k.Lower()) >= 0 else Cmp(query, k.Lower()) >= 0 || NodePrefixMatch(k, query)
    case Less =>
      if isLeaf then Cmp(query, k.Lower()) > 0 else Cmp(query, k.Lower()) >= 0 || NodePrefixMatch(k, query)
    case Equal =>
      if isLeaf then Cmp(query, k.Lower()) == 0
      else (Cmp(k.Lower(), query) <= 0 && Cmp(query, k.Upper()) <= 0) || NodePrefixMatch(k, query)
    case Greater =>
      if isLeaf then Cmp(query, k.Upper()) < 0 else Cmp(query, k.Upper()) <= 0 || NodePrefixMatch(k, query)
    case GreaterEqual =>
      if isLeaf then Cmp(query, k.Upper()) <= 0 else Cmp(query, k.Upper()) <= 0 || NodePrefixMatch(k, query)
    case NotEqual =>
      !(Cmp(query, k.Lower()) == 0 && Cmp(query, k.Upper()) == 0)
  }

  /** What the strategy asks of a value. */
  ghost predicate Satisfies(v: Bytes, strategy: Strategy, query: Bytes) {
    match strategy
    case Less => Leq(v, query) && v != query
    case LessEqual => Leq(v, query)
    case Equal => v == query
    case GreaterEqual => Leq(query, v)
    case Greater => Leq(query, v) && v != query
    case NotEqual => v != query
  }

  /** On a leaf the test is exact. */
  lemma LeafIsExact(v: Bytes, query: Bytes, strategy: Strategy)
    ensures Consistent(Leaf(v), query, strategy, true) <==> Satisfies(v, strategy, query)
  {
    LeqTotal(v, query);
    LexEqual(query, v, false);
    LexAntisymmetric(query, v, false);
  }

  lemma {:induction false} SelfPrefix(a: Bytes)
    ensures CommonPrefix(a, a) == |a|
  {
    if a != [] { SelfPrefix(a[1..]); }
  }

  /** The value lies between the bounds or goes on from one of them; equal bounds stand for
      one value. */
  ghost predicate Reaches(k: Key, v: Bytes)
    requires k.Node?
  {
    Leq(k.lo, v) && (Leq(v, k.up) || k.up <= v || k.lo <= v) && (k.lo == k.up ==> v == k.lo)
  }

  lemma ReachedIsConsistent(k: Key, v: Bytes, query: Bytes, strategy: Strategy)
    requires k.Node? && Leq(k.lo, k.up) && Reaches(k, v) && Satisfies(v, strategy, query)
    ensures Consistent(k, query, strategy, false)
  {
    LeqTotal(k.lo, query);
    match strategy
    case Less => LeqTransitive(k.lo, v, query);
    case LessEqual => LeqTransitive(k.lo, v, query);
    case Equal =>
      LeqReflexive(v);
      NotAbove(k, v, query);
    case GreaterEqual => NotAbove(k, v, query);
    case Greater => NotAbove(k, v, query);
    case NotEqual =>
      LexEqual(query, k.lo, false);
      LexEqual(query, k.up, false);
  }

  /** A query not above the value is not above the upper bound, or matches a prefix. */
  lemma NotAbove(k: Key, v: Bytes, query: Bytes)
    requires k.Node? && Leq(k.lo, k.up) && Reaches(k, v) && Leq(query, v)
    ensures Cmp(query, k.up) <= 0 || NodePrefixMatch(k, query)
  {
    LeqTotal(query, k.up);
    if !Leq(query, k.up) {
      if Leq(v, k.up) { LeqTransitive(query, v, k.up); }
      LeqTransitive(k.lo, k.up, query);
      if k.up <= v { BetweenPrefix(k.up, query, v); } else { BetweenPrefix(k.lo, query, v); }
    }
  }

  /** A value that a node does not reach is pruned for some query. */
  lemma UnreachedIsPruned(k: Key, v: Bytes) returns (query: Bytes, strategy: Strategy)
    requires k.Node? && Leq(k.lo, k.up) && !Reaches(k, v)
    ensures Satisfies(v, strategy, query) && !Consistent(k, query, strategy, false)
  {
    LeqReflexive(v);
    LeqTotal(k.lo, v);
    LeqTotal(v, k.up);
    query := v;
    if !Leq(k.lo, v) {
      strategy := LessEqual;
      if k.lo <= v { PrefixBelow(k.lo, v); }
      if k.up <= v {
        PrefixBelow(k.up, v);
        LeqTransitive(k.lo, k.up, v);
      }
    } else if !(Leq(v, k.up) || k.up <= v || k.lo <= v) {
      strategy := GreaterEqual;
    } else {
      query, strategy := k.lo, NotEqual;
      LexEqual(k.lo, k.lo, false);
    }
  }

  /** A node is entered for every query that the value matches exactly when it reaches the value. */
  lemma ReachesIff(k: Key, v: Bytes)
    requires k.Node? && Leq(k.lo, k.up)
    ensures Reaches(k, v) <==>
      forall query, strategy :: Satisfies(v, strategy, query) ==> Consistent(k, query, strategy, false)
  {
    hide Consistent, Satisfies, Reaches;
    if Reaches(k, v) {
      forall query, strategy | Satisfies(v, strategy, query) ensures Consistent(k, query, strategy, false) {
        ReachedIsConsistent(k, v, query, strategy);
      }
    } else {
      var query, strategy := UnreachedIsPruned(k, v);
    }
  }

  lemma AdmittedIsReached(k: Key, exact: bool, v: Bytes)
    requires k.Node? && Sane(k, exact) && Admits(k, exact, v)
    ensures Leq(k.lo, k.up) && Reaches(k, v)
  {
    if k.lo == k.up {
      SelfPrefix(k.lo);
      LeqTotal(k.lo, v);
    }
  }

  /** Search never prunes a node that admits a matching value, for any strategy. */
  lemma NodeIsComplete(k: Key, exact: bool, v: Bytes, query: Bytes, strategy: Strategy)
    requires k.Node? && Sane(k, exact) && Admits(k, exact, v) && Satisfies(v, strategy, query)
    ensures Consistent(k, query, strategy, false)
  {
    hide Consistent, Satisfies;
    AdmittedIsReached(k, exact, v);
    ReachedIsConsistent(k, v, query, strategy);
  }

  // ---------------------------------------------------------------------
  // gbt_var_picksplit
  // ---------------------------------------------------------------------

  ghost predicate InRange(arr: seq<nat>, n: nat) {
    forall i :: 0 <= i < |arr| ==> arr[i] < n
  }

  /** The page entries at the places `arr`. */
  ghost function Pick(entries: seq<Key>, arr: seq<nat>): (r: seq<Key>)
    requires InRange(arr, |entries|)
    ensures |r| == |arr|
  {
    seq(|arr|, i requires 0 <= i < |arr| => entries[arr[i]])
  }

  function Max(a: nat, b: nat): nat { if a < b then b else a }

  function SplitCut(left: seq<Key>, right: seq<Key>): nat
    requires left != [] && right != []
  {
    var l, r := Bounds(left, |left|), Bounds(right, |right|);
    Max(CommonPrefix(l.Lower(), l.Upper()), CommonPrefix(r.Lower(), r.Upper())) + 2
  }

  function HalfKey(half: seq<Key>, cut: nat): Key
    requires half != [] && cut > 0
  {
    Truncate(Bounds(half, |half|), cut - 1)
  }

  /** `datum` holds the bounds of the entries at the places `xs`, if there are any. */
  ghost predicate Collected(entries: seq<Key>, xs: seq<nat>, datum: Key) {
    InRange(xs, |entries|) && (xs != [] ==> datum == Bounds(Pick(entries, xs), |xs|))
  }

  /** The sorted entries are halved; both keys are cut to the longer of the two
      common prefixes. `arr` is what the sort left: some order of the entries. */
  method PickSplit(entries: seq<Key>, arr: seq<nat>)
    returns (left: seq<nat>, right: seq<nat>, leftKey: Key, rightKey: Key)
    requires |entries| >= 2 && |arr| == |entries| && InRange(arr, |entries|)
    ensures left + right == arr && |left| == |arr| / 2 && left != [] && right != []
    ensures InRange(left, |entries|) && InRange(right, |entries|)
    ensures leftKey == HalfKey(Pick(entries, left), SplitCut(Pick(entries, left), Pick(entries, right)))
    ensures rightKey == HalfKey(Pick(entries, right), SplitCut(Pick(entries, left), Pick(entries, right)))
  {
    hide Bounds;
    hide CommonPrefix;
    hide Collected;
    hide Truncate;
    hide Pick;
    hide InRange;
    InRangeAt(arr, |entries|);
    left, right := [], [];
    var ldatum, rdatum := entries[arr[0]], entries[arr[0]];
    NothingCollected(entries, ldatum);
    var i := 0;
    while i < |arr|
      invariant 0 <= i <= |arr|
      invariant left == arr[..if i <= |arr| / 2 then i else |arr| / 2]
      invariant right == if i <= |arr| / 2 then [] else arr[|arr| / 2..i]
      invariant Collected(entries, left, ldatum)
      invariant Collected(entries, right, rdatum)
    {
      var e := entries[arr[i]];
      // The source counts entries from one.
      if i + 1 <= |arr| / 2 {
        CollectedExtend(entries, left, ldatum, arr[i]);
        ldatum := if left == [] then Copy(e) else BinUnion(ldatum, e);
        left := left + [arr[i]];
      } else {
        CollectedExtend(entries, right, rdatum, arr[i]);
        rdatum := if right == [] then Copy(e) else BinUnion(rdatum, e);
        right := right + [arr[i]];
      }
      i := i + 1;
    }
    assert left + right == arr;
    CollectedBounds(entries, left, ldatum);
    CollectedBounds(entries, right, rdatum);
    var ll := NodeCpLen(ldatum);
    var lr := NodeCpLen(rdatum);
    ll := Max(ll, lr);
    ll := ll + 1;
    leftKey, rightKey := Truncate(ldatum, ll), Truncate(rdatum, ll);
  }

  lemma InRangeAt(arr: seq<nat>, n: nat)
    requires InRange(arr, n)
    ensures forall i :: 0 <= i < |arr| ==> arr[i] < n
  {
  }

  lemma NothingCollected(entries: seq<Key>, datum: Key)
    ensures Collected(entries, [], datum)
  {
  }

  lemma CollectedBounds(entries: seq<Key>, xs: seq<nat>, datum: Key)
    requires Collected(entries, xs, datum) && xs != []
    ensures InRange(xs, |entries|) && datum == Bounds(Pick(entries, xs), |xs|)
  {
  }

  lemma {:induction false} BoundsPrefix(ks: seq<Key>, e: Key, n: nat)
    requires 0 < n <= |ks|
    ensures Bounds(ks + [e], n) == Bounds(ks, n)
  {
    if n > 1 { BoundsPrefix(ks, e, n - 1); }
  }

  lemma CollectedExtend(entries: seq<Key>, xs: seq<nat>, datum: Key, x: nat)
    requires Collected(entries, xs, datum) && x < |entries|
    ensures Collected(entries, xs + [x], if xs == [] then Copy(entries[x]) else BinUnion(datum, entries[x]))
  {
    var ks := Pick(entries, xs);
    assert Pick(entries, xs + [x]) == ks + [entries[x]];
    if xs != [] { BoundsPrefix(ks, entries[x], |xs|); }
  }

  // ---------------------------------------------------------------------
  // When a split hides nothing from a search
  // ---------------------------------------------------------------------

  /** A split may cut a key later than the entry below it was cut. That is harmless if the new
      key keeps what the entry says, or if its lower bound is a prefix of where the entry was cut. */
  ghost predicate Harmless(k: Key, exact: bool, split: Key)
    requires split.Node?
  {
    Keeps(k, exact, split.up) || split.lo <= k.up
  }

  lemma PointCut(b: Key, cut: nat)
    requires Cuttable(b, cut) && Take(b.lo, cut) == Take(b.up, cut)
    ensures b.lo == b.up
  {
    SelfPrefix(Take(b.lo, cut));
    CommonPrefixOfCuts(b.lo, b.up, cut - 1);
  }

  lemma PointEntry(b: Key, cut: nat, k: Key, exact: bool, v: Bytes)
    requires Cuttable(b, cut) && Encloses(b, k) && Sane(k, exact) && Admits(k, exact, v)
    requires Take(b.lo, cut) == Take(b.up, cut)
    ensures v == Take(b.lo, cut)
  {
    PointCut(b, cut);
    SelfPrefix(b.lo);
    LeafOrOrdered(k, exact);
    LeqTransitive(b.lo, k.Lower(), k.Upper());
    LeqTotal(b.lo, k.Lower());
    LeqTransitive(k.Lower(), k.Upper(), b.up);
    LeqTotal(b.lo, k.Upper());
    LeqTotal(k.Lower(), v);
  }

  lemma LeafOrOrdered(k: Key, exact: bool)
    requires Sane(k, exact)
    ensures Leq(k.Lower(), k.Upper())
  {
    LeafBounds(k);
  }

  lemma HarmlessReaches(b: Key, cut: nat, k: Key, exact: bool, v: Bytes)
    requires Cuttable(b, cut) && Encloses(b, k) && Sane(k, exact) && Admits(k, exact, v)
    requires Harmless(k, exact, Truncate(b, cut - 1))
    ensures Reaches(Truncate(b, cut - 1), v)
  {
    hide CommonPrefix;
    LowerReaches(b, cut, k, exact, v);
    LeqReflexive(v);
    if Keeps(k, exact, Take(b.up, cut)) || Leq(v, k.Upper()) { TruncatedReaches(b, cut, k, exact, v); }
    if Take(b.lo, cut) == Take(b.up, cut) { PointEntry(b, cut, k, exact, v); }
  }

  /** What starts a continuation of `u` but is not above it starts `u`. */
  lemma LowStart(lo: Bytes, low: Bytes, u: Bytes, v: Bytes)
    requires Leq(lo, low) && Leq(low, u) && u <= v && lo <= v
    ensures lo <= u
  {
    PrefixBelow(u, v);
    LeqTransitive(lo, low, u);
    BetweenPrefix(lo, u, v);
  }

  /** The largest value that goes on from the cut, as far as the new bounds show, lies above the
      upper one and goes on from neither. */
  lemma OutOfReach(lo: Bytes, up: Bytes, low: Bytes, u: Bytes)
    requires u < up && Leq(lo, low) && Leq(low, u) && !(lo <= u) && up != u + Fill(|up| - |u|)
    ensures var v := u + Fill(|up| - |u|);
      u <= v && Leq(low, v) && !Leq(v, up) && !(up <= v) && !(lo <= v)
  {
    hide Leq;
    var v := u + Fill(|up| - |u|);
    PrefixBelow(u, v);
    LeqTransitive(low, u, v);
    FillIsLargest(up, u, |up| - |u|);
    assert Take(up, |up|) == up;
    LeqTotal(v, up);
    if lo <= v { LowStart(lo, low, u, v); }
  }

  lemma HarmMeans(k: Key, exact: bool, split: Key)
    requires split.Node? && !Harmless(k, exact, split)
    ensures k.Node? && !exact && k.up < split.up && !(split.lo <= k.up)
    ensures split.up != k.up + Fill(|split.up| - |k.up|)
  {
    hide Fill;
  }

  lemma CutIsBelow(b: Key, cut: nat, k: Key)
    requires Cuttable(b, cut) && Encloses(b, k) && k.Node?
    ensures Leq(Truncate(b, cut - 1).lo, k.lo)
  {
    hide CommonPrefix, Leq, Take;
    CutShares(b, cut);
    LeqTransitive(Truncate(b, cut - 1).lo, b.lo, k.lo);
  }

  /** So the new key does not reach it. */
  lemma HarmedIsUnreached(b: Key, cut: nat, k: Key, exact: bool) returns (v: Bytes)
    requires Cuttable(b, cut) && Encloses(b, k) && Sane(k, exact) && !Harmless(k, exact, Truncate(b, cut - 1))
    ensures Admits(k, exact, v) && !Reaches(Truncate(b, cut - 1), v)
  {
    hide CommonPrefix, Leq, Fill, Truncate, Harmless, Encloses;
    var t := Truncate(b, cut - 1);
    TruncateIsNode(b, cut - 1);
    HarmMeans(k, exact, t);
    CutIsBelow(b, cut, k);
    OutOfReach(t.lo, t.up, k.lo, k.up);
    v := k.up + Fill(|t.up| - |k.up|);
  }

  lemma TruncateIsNode(k: Key, cpf: nat)
    ensures Truncate(k, cpf).Node?
  {
  }

  /** The exact condition under which no search misses a value below the entry `k` when the split
      gives the bounds `b` around it, cut to `cut` bytes, as the key above. */
  lemma SplitHarmlessIff(b: Key, cut: nat, k: Key, exact: bool)
    requires Cuttable(b, cut) && Encloses(b, k) && Sane(k, exact)
    ensures Harmless(k, exact, Truncate(b, cut - 1)) <==>
      forall v, query, strategy :: Admits(k, exact, v) && Satisfies(v, strategy, query) ==>
        Consistent(Truncate(b, cut - 1), query, strategy, false)
  {
    hide Consistent, Satisfies, Reaches, Harmless, Admits, CommonPrefix;
    var split := Truncate(b, cut - 1);
    CutShares(b, cut);
    if Harmless(k, exact, split) {
      forall v, query, strategy | Admits(k, exact, v) && Satisfies(v, strategy, query)
        ensures Consistent(split, query, strategy, false)
      {
        HarmlessReaches(b, cut, k, exact, v);
        ReachedIsConsistent(split, v, query, strategy);
      }
    } else {
      var v := HarmedIsUnreached(b, cut, k, exact);
      var query, strategy := UnreachedIsPruned(split, v);
    }
  }

  // ---------------------------------------------------------------------
  // Keys made in any way
  // ---------------------------------------------------------------------

  /** How a key came about: a value of a leaf page, the union of other keys, or one
      half of a page that was split. */
  datatype Origin =
    | Value(v: Bytes)
    | UnionOf(parts: seq<Origin>)
    | SplitOf(half: seq<Origin>, other: seq<Origin>)

  ghost predicate Possible(o: Origin) {
    match o
    case Value(_) => true
    case UnionOf(parts) => parts != [] && forall i :: 0 <= i < |parts| ==> Possible(parts[i])
    case SplitOf(half, other) =>
      && half != [] && (forall i :: 0 <= i < |half| ==> Possible(half[i]))
      && other != [] && (forall i :: 0 <= i < |other| ==> Possible(other[i]))
  }

  ghost function KeyOf(o: Origin): Key
    requires Possible(o)
  {
    match o
    case Value(v) => Leaf(v)
    case UnionOf(parts) => UnionKey(KeysOf(parts))
    case SplitOf(half, other) => HalfKey(KeysOf(half), SplitCut(KeysOf(half), KeysOf(other)))
  }

  ghost function KeysOf(parts: seq<Origin>): (ks: seq<Key>)
    requires forall i :: 0 <= i < |parts| ==> Possible(parts[i])
    ensures |ks| == |parts| && forall i :: 0 <= i < |parts| ==> ks[i] == KeyOf(parts[i])
  {
    seq(|parts|, i requires 0 <= i < |parts| => KeyOf(parts[i]))
  }

  /** The bytes that the key keeps of its bounds. */
  ghost function CutOf(o: Origin): (cut: nat)
    requires Possible(o) && !o.Value?
    ensures cut > 0
  {
    match o
    case UnionOf(parts) => UnionCut(KeysOf(parts))
    case SplitOf(half, other) => SplitCut(KeysOf(half), KeysOf(other))
  }

  /** The keys that the key was made of. */
  ghost function PartsOf(o: Origin): (parts: seq<Origin>)
    requires Possible(o) && !o.Value?
    ensures parts != [] && forall i :: 0 <= i < |parts| ==> Possible(parts[i])
  {
    match o
    case UnionOf(parts) => parts
    case SplitOf(half, other) => half
  }

  /** Whether no value below the key lies above its upper bound. */
  ghost predicate ExactOf(o: Origin)
    requires Possible(o)
  {
    match o
    case Value(_) => true
    case UnionOf(parts) => BoundsExact(KeysOf(parts), ExactsOf(parts), CutOf(o))
    case SplitOf(half, other) => BoundsExact(KeysOf(half), ExactsOf(half), CutOf(o))
  }

  ghost function ExactsOf(parts: seq<Origin>): (exacts: seq<bool>)
    requires forall i :: 0 <= i < |parts| ==> Possible(parts[i])
    ensures |exacts| == |parts| && forall i :: 0 <= i < |parts| ==> exacts[i] == ExactOf(parts[i])
  {
    seq(|parts|, i requires 0 <= i < |parts| => ExactOf(parts[i]))
  }

  /** Every split kept what its entries say. */
  ghost predicate Kept(o: Origin)
    requires Possible(o)
  {
    match o
    case Value(_) => true
    case UnionOf(parts) => forall i :: 0 <= i < |parts| ==> Kept(parts[i])
    case SplitOf(half, other) =>
      forall i :: 0 <= i < |half| ==> Kept(half[i]) && Keeps(KeyOf(half[i]), ExactOf(half[i]), KeyOf(o).up)
  }

  /** The parts were kept, and if the key comes from a split, that was harmless. */
  ghost predicate Fit(o: Origin)
    requires Possible(o)
  {
    match o
    case Value(_) => true
    case UnionOf(parts) => forall i :: 0 <= i < |parts| ==> Kept(parts[i])
    case SplitOf(half, other) =>
      forall i :: 0 <= i < |half| ==> Kept(half[i]) && Harmless(KeyOf(half[i]), ExactOf(half[i]), KeyOf(o))
  }

  lemma KeptIsFit(o: Origin)
    requires Possible(o) && Kept(o)
    ensures Fit(o)
  {
  }

  /** Splits of leaf pages are always kept. */
  lemma LeafSplitIsKept(half: seq<Origin>, other: seq<Origin>)
    requires Possible(SplitOf(half, other)) && forall i :: 0 <= i < |half| ==> half[i].Value?
    ensures Kept(SplitOf(half, other))
  {
  }

  /** Made by unions, and by splits of leaf pages. */
  ghost predicate LeafSplits(o: Origin) {
    match o
    case Value(_) => true
    case UnionOf(parts) => forall i :: 0 <= i < |parts| ==> LeafSplits(parts[i])
    case SplitOf(half, other) => forall i :: 0 <= i < |half| ==> half[i].Value?
  }

  /** A key that comes from splits of leaf pages only is always kept. */
  lemma {:induction false} LeafSplitsAreKept(o: Origin)
    requires Possible(o) && LeafSplits(o)
    ensures Kept(o) && Fit(o)
  {
    match o
    case Value(_) =>
    case UnionOf(parts) =>
      forall i | 0 <= i < |parts| ensures Kept(parts[i]) { LeafSplitsAreKept(parts[i]); }
    case SplitOf(half, other) =>
      LeafSplitIsKept(half, other);
      KeptIsFit(o);
  }

  /** A half with a single entry is kept, however long its key may be. */
  lemma SoleEntryIsKept(o: Origin, other: seq<Origin>)
    requires Possible(o) && Possible(SplitOf([o], other)) && Kept(o)
    ensures Kept(SplitOf([o], other))
  {
    hide CommonPrefix, ExactOf;
    var k, split := KeyOf(o), KeyOf(SplitOf([o], other));
    assert KeysOf([o]) == [k];
    assert !(k.Upper() < split.up);
  }

  /** The values below a key. */
  ghost predicate Below(o: Origin, v: Bytes) {
    match o
    case Value(w) => v == w
    case UnionOf(parts) => exists i :: 0 <= i < |parts| && Below(parts[i], v)
    case SplitOf(half, other) => exists i :: 0 <= i < |half| && Below(half[i], v)
  }

  /** A key is the bounds of its parts, cut two bytes behind what they share or later. */
  lemma KeyIsCut(o: Origin)
    requires Possible(o) && !o.Value?
    ensures var b := Bounds(KeysOf(PartsOf(o)), |PartsOf(o)|);
      KeyOf(o) == Truncate(b, CutOf(o) - 1) && CommonPrefix(b.Lower(), b.Upper()) + 2 <= CutOf(o)
    ensures ExactOf(o) == BoundsExact(KeysOf(PartsOf(o)), ExactsOf(PartsOf(o)), CutOf(o))
  {
    hide Bounds, CommonPrefix, Truncate, BoundsExact;
  }

  lemma {:induction false} OriginIsSane(o: Origin)
    requires Possible(o)
    ensures Sane(KeyOf(o), ExactOf(o))
    decreases o
  {
    hide Bounds, CommonPrefix, Truncate, BoundsExact, Sane, KeyOf, ExactOf;
    if o.Value? {
      ValueIsSane(o);
    } else {
      KeyIsCut(o);
      PartsAreSane(o);
      BoundsAreSane(KeysOf(PartsOf(o)), ExactsOf(PartsOf(o)), CutOf(o));
    }
  }

  lemma ValueIsSane(o: Origin)
    requires o.Value?
    ensures Sane(KeyOf(o), ExactOf(o))
  {
  }

  lemma {:induction false} PartsAreSane(o: Origin)
    requires Possible(o) && !o.Value?
    ensures AllSane(KeysOf(PartsOf(o)), ExactsOf(PartsOf(o)))
    decreases o, 0
  {
    hide Sane, KeyOf, ExactOf;
    var parts := PartsOf(o);
    forall i | 0 <= i < |parts| ensures Sane(KeysOf(parts)[i], ExactsOf(parts)[i]) {
      PartIsSmaller(o, i);
      OriginIsSane(parts[i]);
    }
  }

  lemma PartIsSmaller(o: Origin, i: nat)
    requires Possible(o) && !o.Value? && i < |PartsOf(o)|
    ensures PartsOf(o)[i] < o
  {
  }

  /** Where a value below a key comes from. */
  lemma BelowPart(o: Origin, v: Bytes) returns (i: nat)
    requires Possible(o) && !o.Value? && Below(o, v)
    ensures i < |PartsOf(o)| && Below(PartsOf(o)[i], v) && PartsOf(o)[i] < o
  {
    match o
    case UnionOf(parts) => i :| 0 <= i < |parts| && Below(parts[i], v);
    case SplitOf(half, other) => i :| 0 <= i < |half| && Below(half[i], v);
  }

  lemma KeptParts(o: Origin, i: nat)
    requires Possible(o) && !o.Value? && i < |PartsOf(o)| && Fit(o)
    ensures Kept(PartsOf(o)[i])
  {
  }

  lemma KeptKeeps(o: Origin, i: nat)
    requires Possible(o) && !o.Value? && i < |PartsOf(o)| && Kept(o)
    ensures Keeps(KeyOf(PartsOf(o)[i]), ExactOf(PartsOf(o)[i]), KeyOf(o).up)
  {
    if o.UnionOf? {
      PartsAreSane(o);
      UnionKeeps(KeysOf(o.parts), ExactsOf(o.parts), i);
    }
  }

  /** A key made by unions and kept splits admits every value below it. */
  lemma {:induction false} OriginAdmits(o: Origin, v: Bytes)
    requires Possible(o) && Kept(o) && Below(o, v)
    ensures Admits(KeyOf(o), ExactOf(o), v)
    decreases o
  {
    hide Bounds, CommonPrefix, Truncate, BoundsExact, Sane, AllSane, KeyOf, ExactOf, Kept, Keeps, Admits;
    if o.Value? {
      ValueAdmits(o, v);
    } else {
      var i := BelowPart(o, v);
      KeptIsFit(o);
      KeptParts(o, i);
      KeptKeeps(o, i);
      OriginAdmits(PartsOf(o)[i], v);
      KeyIsCut(o);
      PartsAreSane(o);
      CutUpper(o);
      BoundsAdmit(KeysOf(PartsOf(o)), ExactsOf(PartsOf(o)), CutOf(o), i, v);
    }
  }

  lemma ValueAdmits(o: Origin, v: Bytes)
    requires o.Value? && Below(o, v)
    ensures Admits(KeyOf(o), ExactOf(o), v)
  {
  }

  lemma CutUpper(o: Origin)
    requires Possible(o) && !o.Value?
    ensures KeyOf(o).Node? && KeyOf(o).up == Take(Bounds(KeysOf(PartsOf(o)), |PartsOf(o)|).Upper(), CutOf(o))
  {
    hide Bounds, CommonPrefix, KeyOf;
    KeyIsCut(o);
  }

  /** The key of any node reaches every value below it. */
  lemma OriginReaches(o: Origin, v: Bytes)
    requires Possible(o) && Fit(o) && !o.Value? && Below(o, v)
    ensures KeyOf(o).Node? && Leq(KeyOf(o).lo, KeyOf(o).up) && Reaches(KeyOf(o), v)
  {
    hide Bounds, CommonPrefix, Truncate, BoundsExact, Sane, AllSane, KeyOf, ExactOf, Kept, Keeps, Admits, Reaches, Fit;
    hide Harmless;
    CutUpper(o);
    if o.UnionOf? {
      FitUnion(o);
      OriginAdmits(o, v);
      OriginIsSane(o);
      AdmittedIsReached(KeyOf(o), ExactOf(o), v);
    } else {
      var i := BelowPart(o, v);
      KeptParts(o, i);
      FitHarmless(o, i);
      OriginAdmits(PartsOf(o)[i], v);
      KeyIsCut(o);
      PartsAreSane(o);
      HalfReaches(KeysOf(PartsOf(o)), ExactsOf(PartsOf(o)), CutOf(o), i, v);
    }
  }

  lemma FitUnion(o: Origin)
    requires Possible(o) && o.UnionOf? && Fit(o)
    ensures Kept(o)
  {
  }

  lemma FitHarmless(o: Origin, i: nat)
    requires Possible(o) && o.SplitOf? && i < |PartsOf(o)| && Fit(o)
    ensures KeyOf(o).Node? && Harmless(KeyOf(PartsOf(o)[i]), ExactOf(PartsOf(o)[i]), KeyOf(o))
  {
  }

  lemma HalfReaches(ks: seq<Key>, exacts: seq<bool>, cut: nat, i: nat, v: Bytes)
    requires i < |ks| && AllSane(ks, exacts) && Admits(ks[i], exacts[i], v)
    requires var b := Bounds(ks, |ks|); CommonPrefix(b.Lower(), b.Upper()) + 2 <= cut
    requires Harmless(ks[i], exacts[i], Truncate(Bounds(ks, |ks|), cut - 1))
    ensures var split := Truncate(Bounds(ks, |ks|), cut - 1); Leq(split.lo, split.up) && Reaches(split, v)
  {
    hide CommonPrefix, Harmless, Reaches;
    AllOrdered(ks, exacts);
    BoundsEnclose(ks, |ks|, i);
    assert Sane(ks[i], exacts[i]);
    CutShares(Bounds(ks, |ks|), cut);
    HarmlessReaches(Bounds(ks, |ks|), cut, ks[i], exacts[i], v);
  }

  /** No ancestor of a matching value is pruned, for all six strategies. */
  lemma NeverPruned(o: Origin, v: Bytes, query: Bytes, strategy: Strategy)
    requires Possible(o) && Fit(o) && !o.Value? && Below(o, v) && Satisfies(v, strategy, query)
    ensures Consistent(KeyOf(o), query, strategy, false)
  {
    hide Consistent, Satisfies, KeyOf, Fit, Reaches, Below;
    OriginReaches(o, v);
    ReachedIsConsistent(KeyOf(o), v, query, strategy);
  }

  // ---------------------------------------------------------------------
  // Search in a whole tree
  // ---------------------------------------------------------------------

  datatype Tree = Page(values: seq<Bytes>) | Inner(keys: seq<Key>, below: seq<Tree>)

  ghost function ValuesIn(t: Tree): seq<Bytes> {
    match t
    case Page(values) => values
    case Inner(_, below) => ValuesInAll(below)
  }

  ghost function ValuesInAll(ts: seq<Tree>): seq<Bytes>
    decreases ts
  {
    if ts == [] then [] else ValuesIn(ts[0]) + ValuesInAll(ts[1..])
  }

  /** Inner entries are node keys with their bounds in order. */
  ghost predicate Shaped(t: Tree) {
    match t
    case Page(_) => true
    case Inner(keys, below) => |keys| == |below| && ShapedAll(keys, below)
  }

  ghost predicate ShapedAll(keys: seq<Key>, ts: seq<Tree>)
    requires |keys| == |ts|
    decreases ts
  {
    ts == [] || (keys[0].Node? && Leq(keys[0].lo, keys[0].up) && Shaped(ts[0]) && ShapedAll(keys[1..], ts[1..]))
  }

  /** Every inner key reaches the values under it. */
  ghost predicate AllReached(t: Tree)
    requires Shaped(t)
  {
    match t
    case Page(_) => true
    case Inner(keys, below) => AllReachedIn(keys, below)
  }

  ghost predicate AllReachedIn(keys: seq<Key>, ts: seq<Tree>)
    requires |keys| == |ts| && ShapedAll(keys, ts)
    decreases ts
  {
    ts == [] ||
    (&& (forall v :: v in ValuesIn(ts[0]) ==> Reaches(keys[0], v))
     && AllReached(ts[0]) && AllReachedIn(keys[1..], ts[1..]))
  }

  ghost function Matching(vs: seq<Bytes>, query: Bytes, strategy: Strategy): seq<Bytes> {
    if vs == [] then []
    else (if Satisfies(vs[0], strategy, query) then [vs[0]] else []) + Matching(vs[1..], query, strategy)
  }

  /** The search: leaf entries are tested, inner entries followed if consistent. */
  ghost function Search(t: Tree, query: Bytes, strategy: Strategy): seq<Bytes>
    requires Shaped(t)
  {
    match t
    case Page(values) => Tested(values, query, strategy)
    case Inner(keys, below) => SearchAll(keys, below, query, strategy)
  }

  ghost function Tested(vs: seq<Bytes>, query: Bytes, strategy: Strategy): seq<Bytes> {
    if vs == [] then []
    else (if Consistent(Leaf(vs[0]), query, strategy, true) then [vs[0]] else []) + Tested(vs[1..], query, strategy)
  }

  ghost function SearchAll(keys: seq<Key>, ts: seq<Tree>, query: Bytes, strategy: Strategy): seq<Bytes>
    requires |keys| == |ts| && ShapedAll(keys, ts)
    decreases ts
  {
    if ts == [] then []
    else (if Consistent(keys[0], query, strategy, false) then Search(ts[0], query, strategy) else [])
         + SearchAll(keys[1..], ts[1..], query, strategy)
  }

  lemma {:induction false} MatchingConcat(a: seq<Bytes>, b: seq<Bytes>, query: Bytes, strategy: Strategy)
    ensures Matching(a + b, query, strategy) == Matching(a, query, strategy) + Matching(b, query, strategy)
  {
    if a == [] {
      assert a + b == b;
    } else {
      assert (a + b)[1..] == a[1..] + b;
      MatchingConcat(a[1..], b, query, strategy);
    }
  }

  lemma {:induction false} NothingMatches(vs: seq<Bytes>, query: Bytes, strategy: Strategy)
    requires forall v :: v in vs ==> !Satisfies(v, strategy, query)
    ensures Matching(vs, query, strategy) == []
  {
    if vs != [] {
      assert vs[0] in vs;
      NothingMatches(vs[1..], query, strategy);
    }
  }

  lemma {:induction false} SomethingMatches(vs: seq<Bytes>, v: Bytes, query: Bytes, strategy: Strategy)
    requires v in vs && Satisfies(v, strategy, query)
    ensures Matching(vs, query, strategy) != []
  {
    if vs[0] != v { SomethingMatches(vs[1..], v, query, strategy); }
  }

  lemma {:induction false} TestedIsMatching(vs: seq<Bytes>, query: Bytes, strategy: Strategy)
    ensures Tested(vs, query, strategy) == Matching(vs, query, strategy)
  {
    if vs != [] {
      LeafIsExact(vs[0], query, strategy);
      TestedIsMatching(vs[1..], query, strategy);
    }
  }

  /** If every key reaches the values under it, search returns exactly the matching values. */
  lemma {:induction false} ReachedIsFound(t: Tree, query: Bytes, strategy: Strategy)
    requires Shaped(t) && AllReached(t)
    ensures Search(t, query, strategy) == Matching(ValuesIn(t), query, strategy)
  {
    match t
    case Page(values) => TestedIsMatching(values, query, strategy);
    case Inner(keys, below) => ReachedAreFound(keys, below, query, strategy);
  }

  lemma {:induction false} ReachedAreFound(keys: seq<Key>, ts: seq<Tree>, query: Bytes, strategy: Strategy)
    requires |keys| == |ts| && ShapedAll(keys, ts) && AllReachedIn(keys, ts)
    ensures SearchAll(keys, ts, query, strategy) == Matching(ValuesInAll(ts), query, strategy)
    decreases ts
  {
    hide Consistent, Satisfies, Reaches;
    if ts != [] {
      ReachedIsFound(ts[0], query, strategy);
      ReachedAreFound(keys[1..], ts[1..], query, strategy);
      MatchingConcat(ValuesIn(ts[0]), ValuesInAll(ts[1..]), query, strategy);
      if !Consistent(keys[0], query, strategy, false) {
        forall v | v in ValuesIn(ts[0]) ensures !Satisfies(v, strategy, query) {
          if Satisfies(v, strategy, query) { ReachedIsConsistent(keys[0], v, query, strategy); }
        }
        NothingMatches(ValuesIn(ts[0]), query, strategy);
      }
    }
  }

  /** Search never returns more than matches. */
  lemma {:induction false} FoundIsNoMore(t: Tree, query: Bytes, strategy: Strategy)
    requires Shaped(t)
    ensures |Search(t, query, strategy)| <= |Matching(ValuesIn(t), query, strategy)|
  {
    match t
    case Page(values) => TestedIsMatching(values, query, strategy);
    case Inner(keys, below) => FoundAreNoMore(keys, below, query, strategy);
  }

  lemma {:induction false} FoundAreNoMore(keys: seq<Key>, ts: seq<Tree>, query: Bytes, strategy: Strategy)
    requires |keys| == |ts| && ShapedAll(keys, ts)
    ensures |SearchAll(keys, ts, query, strategy)| <= |Matching(ValuesInAll(ts), query, strategy)|
    decreases ts
  {
    hide Consistent, Satisfies;
    if ts != [] {
      FoundIsNoMore(ts[0], query, strategy);
      FoundAreNoMore(keys[1..], ts[1..], query, strategy);
      MatchingConcat(ValuesIn(ts[0]), ValuesInAll(ts[1..]), query, strategy);
    }
  }

  /** If some key does not reach a value under it, some search misses one. */
  lemma {:induction false} UnreachedIsMissed(t: Tree) returns (query: Bytes, strategy: Strategy)
    requires Shaped(t) && !AllReached(t)
    ensures |Search(t, query, strategy)| < |Matching(ValuesIn(t), query, strategy)|
  {
    query, strategy := UnreachedAreMissed(t.keys, t.below);
  }

  lemma {:induction false} UnreachedAreMissed(keys: seq<Key>, ts: seq<Tree>) returns (query: Bytes, strategy: Strategy)
    requires |keys| == |ts| && ShapedAll(keys, ts) && !AllReachedIn(keys, ts)
    ensures |SearchAll(keys, ts, query, strategy)| < |Matching(ValuesInAll(ts), query, strategy)|
    decreases ts
  {
    hide Consistent, Satisfies, Reaches;
    if v :| v in ValuesIn(ts[0]) && !Reaches(keys[0], v) {
      query, strategy := UnreachedIsPruned(keys[0], v);
      SomethingMatches(ValuesIn(ts[0]), v, query, strategy);
    } else if !AllReached(ts[0]) {
      query, strategy := UnreachedIsMissed(ts[0]);
    } else {
      query, strategy := UnreachedAreMissed(keys[1..], ts[1..]);
    }
    FoundIsNoMore(ts[0], query, strategy);
    FoundAreNoMore(keys[1..], ts[1..], query, strategy);
    MatchingConcat(ValuesIn(ts[0]), ValuesInAll(ts[1..]), query, strategy);
  }

  /** Every search returns exactly the matching values if and only if every key reaches the
      values under it. */
  lemma SearchIsExactIff(t: Tree)
    requires Shaped(t)
    ensures AllReached(t) <==>
      forall query, strategy :: Search(t, query, strategy) == Matching(ValuesIn(t), query, strategy)
  {
    hide Search, Matching, ValuesIn, AllReached;
    if AllReached(t) {
      forall query, strategy ensures Search(t, query, strategy) == Matching(ValuesIn(t), query, strategy) {
        ReachedIsFound(t, query, strategy);
      }
    } else {
      var query, strategy := UnreachedIsMissed(t);
    }
  }

  /** The key was made from keys of at least the values under it, by unions and fit splits. */
  ghost predicate Made(k: Key, o: Origin, vs: seq<Bytes>) {
    Possible(o) && Fit(o) && !o.Value? && k == KeyOf(o) && forall v :: v in vs ==> Below(o, v)
  }

  ghost predicate Built(t: Tree) {
    match t
    case Page(_) => true
    case Inner(keys, below) => |keys| == |below| && BuiltAll(keys, below)
  }

  ghost predicate BuiltAll(keys: seq<Key>, ts: seq<Tree>)
    requires |keys| == |ts|
    decreases ts
  {
    ts == [] || ((exists o :: Made(keys[0], o, ValuesIn(ts[0]))) && Built(ts[0]) && BuiltAll(keys[1..], ts[1..]))
  }

  lemma {:induction false} BuiltIsReached(t: Tree)
    requires Built(t)
    ensures Shaped(t) && AllReached(t)
  {
    match t
    case Page(_) =>
    case Inner(keys, below) => BuiltAreReached(keys, below);
  }

  lemma {:induction false} BuiltAreReached(keys: seq<Key>, ts: seq<Tree>)
    requires |keys| == |ts| && BuiltAll(keys, ts)
    ensures ShapedAll(keys, ts) && AllReachedIn(keys, ts)
    decreases ts
  {
    hide Reaches, KeyOf, Fit, Below;
    if ts != [] {
      var o :| Made(keys[0], o, ValuesIn(ts[0]));
      OriginIsOrdered(o);
      forall v | v in ValuesIn(ts[0]) ensures Reaches(keys[0], v) {
        OriginReaches(o, v);
      }
      BuiltIsReached(ts[0]);
      BuiltAreReached(keys[1..], ts[1..]);
    }
  }

  lemma OriginIsOrdered(o: Origin)
    requires Possible(o) && !o.Value?
    ensures KeyOf(o).Node? && Leq(KeyOf(o).lo, KeyOf(o).up)
  {
    hide KeyOf;
    CutUpper(o);
    OriginIsSane(o);
  }

  /** In a tree built by unions and fit splits search returns exactly the matching values. */
  lemma SearchIsExact(t: Tree, query: Bytes, strategy: Strategy)
    requires Built(t)
    ensures Shaped(t) && Search(t, query, strategy) == Matching(ValuesIn(t), query, strategy)
  {
    BuiltIsReached(t);
    ReachedIsFound(t, query, strategy);
  }

  /** The same of keys that come from unions and from splits of leaf pages. */
  ghost predicate LeafBuilt(t: Tree) {
    match t
    case Page(_) => true
    case Inner(keys, below) => |keys| == |below| && LeafBuiltAll(keys, below)
  }

  ghost predicate LeafMade(k: Key, o: Origin, vs: seq<Bytes>) {
    Possible(o) && LeafSplits(o) && !o.Value? && k == KeyOf(o) && forall v :: v in vs ==> Below(o, v)
  }

  ghost predicate LeafBuiltAll(keys: seq<Key>, ts: seq<Tree>)
    requires |keys| == |ts|
    decreases ts
  {
    ts == [] ||
    ((exists o :: LeafMade(keys[0], o, ValuesIn(ts[0]))) && LeafBuilt(ts[0]) && LeafBuiltAll(keys[1..], ts[1..]))
  }

  lemma {:induction false} LeafBuiltIsBuilt(t: Tree)
    requires LeafBuilt(t)
    ensures Built(t)
  {
    match t
    case Page(_) =>
    case Inner(keys, below) => LeafBuiltAreBuilt(keys, below);
  }

  lemma {:induction false} LeafBuiltAreBuilt(keys: seq<Key>, ts: seq<Tree>)
    requires |keys| == |ts| && LeafBuiltAll(keys, ts)
    ensures BuiltAll(keys, ts)
    decreases ts
  {
    hide KeyOf, Below, Fit, Kept;
    if ts != [] {
      var o :| LeafMade(keys[0], o, ValuesIn(ts[0]));
      LeafSplitsAreKept(o);
      assert Made(keys[0], o, ValuesIn(ts[0]));
      LeafBuiltIsBuilt(ts[0]);
      LeafBuiltAreBuilt(keys[1..], ts[1..]);
    }
  }

  /** In a tree in which only leaf pages were split, search is exact. */
  lemma LeafSearchIsExact(t: Tree, query: Bytes, strategy: Strategy)
    requires LeafBuilt(t)
    ensures Shaped(t) && Search(t, query, strategy) == Matching(ValuesIn(t), query, strategy)
  {
    LeafBuiltIsBuilt(t);
    SearchIsExact(t, query, strategy);
  }

  // ---------------------------------------------------------------------
  // A split of an inner page that loses a value
  // ---------------------------------------------------------------------

  const LOW: Bytes := [48, 97]
  const MIDDLE: Bytes := [97, 98, 99]
  const SOUGHT: Bytes := [97, 98, 122]
  const HIGH: Bytes := [98, 99, 100, 101, 102]
  const QUERY: Bytes := [97, 98, 120]

  /** Four entries of an inner page: the first two go left, the others right. */
  ghost function LosingSplit(): (o: Origin)
    ensures Possible(o)
  {
    SplitOf([UnionOf([Value(LOW), Value(SOUGHT)]), UnionOf([Value(MIDDLE)])],
            [UnionOf([Value(HIGH)]), UnionOf([Value(HIGH)])])
  }

  lemma FirstEntry()
    ensures UnionKey([Leaf(LOW), Leaf(SOUGHT)]) == Node([48, 97], [97, 98])
  {
    var ks := [Leaf(LOW), Leaf(SOUGHT)];
    assert Bounds(ks, 1) == Node(LOW, LOW);
    assert Cmp(LOW, SOUGHT) < 0;
    assert Bounds(ks, 2) == Node(LOW, SOUGHT);
  }

  /** A page with one value: the key keeps all of it. */
  lemma SingleEntry(v: Bytes)
    ensures UnionKey([Leaf(v)]) == Node(v, v)
  {
    SelfPrefix(v);
    assert Bounds([Leaf(v)], 1) == Node(v, v);
  }

  /** Equal keys have the bounds of one of them. */
  lemma TwinBounds(v: Bytes)
    ensures Bounds([Node(v, v), Node(v, v)], 2) == Node(v, v)
  {
    LexEqual(v, v, false);
    assert Bounds([Node(v, v), Node(v, v)], 1) == Node(v, v);
  }

  /** The key of the left half: its upper bound keeps three bytes, although the entry
      that stands for SOUGHT only shows two. */
  lemma LosingKey()
    ensures KeyOf(LosingSplit()) == Node([48, 97], [97, 98, 99])
  {
    FirstEntry();
    SingleEntry(MIDDLE);
    SingleEntry(HIGH);
    TwinBounds(HIGH);
    SelfPrefix(HIGH);
    var o := LosingSplit();
    assert KeysOf([Value(LOW), Value(SOUGHT)]) == [Leaf(LOW), Leaf(SOUGHT)];
    assert KeysOf([Value(MIDDLE)]) == [Leaf(MIDDLE)];
    assert KeysOf([Value(HIGH)]) == [Leaf(HIGH)];
    var l := KeysOf(o.half);
    assert l == [Node([48, 97], [97, 98]), Node(MIDDLE, MIDDLE)];
    assert KeysOf(o.other) == [Node(HIGH, HIGH), Node(HIGH, HIGH)];
    assert Bounds(l, 1) == Node([48, 97], [97, 98]);
    assert Lex([98], [98, 99], false) < 0;
    assert Cmp([97, 98], MIDDLE) < 0 && Cmp([48, 97], MIDDLE) < 0;
    assert Bounds(l, 2) == Node([48, 97], MIDDLE);
  }

  lemma QueryIsBetween()
    ensures Satisfies(SOUGHT, Greater, QUERY)
    ensures !Consistent(Node([48, 97], [97, 98, 99]), QUERY, Greater, false)
  {
    assert Cmp(QUERY[2..], SOUGHT[2..]) < 0;
    assert Cmp(QUERY[1..], SOUGHT[1..]) < 0;
    assert Cmp(QUERY[2..], MIDDLE[2..]) > 0;
    assert Cmp(QUERY[1..], MIDDLE[1..]) > 0;
  }

  /** Splitting an inner page can hide a matching value from a search. */
  lemma InnerSplitLosesValue()
    ensures Below(LosingSplit(), SOUGHT) && Satisfies(SOUGHT, Greater, QUERY)
    ensures !Consistent(KeyOf(LosingSplit()), QUERY, Greater, false)
    ensures !Fit(LosingSplit())
  {
    hide KeyOf;
    hide Fit;
    hide Consistent;
    hide Satisfies;
    LosingKey();
    QueryIsBetween();
    var o := LosingSplit();
    assert Below(o.half[0].parts[1], SOUGHT);
    assert Below(o.half[0], SOUGHT);
    if Fit(o) { NeverPruned(o, SOUGHT, QUERY, Greater); }
  }
}
