/**
  Cubes of mixed dimensions and their GiST support: bounding boxes, the tests that
  decide which subtrees a search enters, and the distances it orders them by.
  Coordinates are mathematical reals.
 */
module CubeBoxes {
  import opened Wrappers

  const MAX_DIM := 100

  function Min(a: real, b: real): real { if a < b then a else b }
  function Max(a: real, b: real): real { if a > b then a else b }
  function Abs(a: real): real { if a < 0.0 then -a else a }

  /** Lower left coordinates, then upper right ones unless the point flag is set. The
      two corners may come in either order. */
  datatype Cube = Cube(point: bool, dim: nat, x: seq<real>) {
    predicate Valid() { dim <= MAX_DIM && |x| == if point then dim else 2 * dim }

    function LL(i: nat): real
      requires Valid() && i < dim
    {
      x[i]
    }

    function UR(i: nat): real
      requires Valid() && i < dim
    {
      if point then x[i] else x[i + dim]
    }
  }

  type Box = c: Cube | c.Valid() witness Cube(true, 0, [])

  /** The interval a cube covers in a dimension; dimensions it lacks are zero. */
  function Lo(c: Box, i: nat): real {
    if i < c.dim then Min(c.LL(i), c.UR(i)) else 0.0
  }

  function Hi(c: Box, i: nat): real {
    if i < c.dim then Max(c.LL(i), c.UR(i)) else 0.0
  }

  lemma LoBelowHi(c: Box, i: nat)
    ensures Lo(c, i) <= Hi(c, i)
  {
  }

  // ---------------------------------------------------------------------
  // Meaning of the operations
  // ---------------------------------------------------------------------

  ghost predicate Within(a: Box, b: Box, i: nat) {
    Lo(b, i) <= Lo(a, i) && Hi(a, i) <= Hi(b, i)
  }

  /** `b` covers `a` in every dimension. */
  ghost predicate Covers(b: Box, a: Box) {
    forall i: nat :: Within(a, b, i)
  }

  ghost predicate MeetIn(a: Box, b: Box, i: nat) {
    Lo(a, i) <= Hi(b, i) && Lo(b, i) <= Hi(a, i)
  }

  /** The boxes have a point in common. */
  ghost predicate Meet(a: Box, b: Box) {
    forall i: nat :: MeetIn(a, b, i)
  }

  /** What `cube_contains` asks: dimensions that only the container has do not matter. */
  ghost predicate Holds(a: Box, b: Box) {
    forall i: nat :: i < b.dim ==> Within(b, a, i)
  }

  ghost predicate Same(a: Box, b: Box) {
    a.dim == b.dim && forall i: nat :: Lo(a, i) == Lo(b, i) && Hi(a, i) == Hi(b, i)
  }

  ghost predicate IsUnion(c: Box, a: Box, b: Box) {
    && c.dim == (if a.dim < b.dim then b.dim else a.dim)
    && forall i: nat :: Lo(c, i) == Min(Lo(a, i), Lo(b, i)) && Hi(c, i) == Max(Hi(a, i), Hi(b, i))
  }

  // ---------------------------------------------------------------------
  // cube_union_v0
  // ---------------------------------------------------------------------

  method IsPoint(dim: nat, x: array<real>) returns (r: bool)
    requires x.Length == 2 * dim
    ensures r <==> forall i :: 0 <= i < dim ==> x[i] == x[i + dim]
  {
    var i := 0;
    while i < dim
      invariant 0 <= i <= dim && forall j :: 0 <= j < i ==> x[j] == x[j + dim]
    {
      if x[i] != x[i + dim] {
        return false;
      }
      i := i + 1;
    }
    return true;
  }

  /** The box of least dimension that covers both, dimension by dimension. */
  method Union(a: Box, b: Box) returns (c: Box)
    ensures IsUnion(c, a, b)
  {
    hide Filled;
    hide IsUnion;
    hide Min;
    hide Max;
    var p, q := a, b;
    if a.dim < b.dim {
      p, q := b, a;
    }
    var dim := p.dim;
    var x := new real[2 * dim](_ => 0.0);
    var i := 0;
    NothingFilled(p, q, x[..]);
    while i < q.dim
      invariant 0 <= i <= q.dim && Filled(p, q, x[..], i)
    {
      FilledStep(p, q, x[..], i);
      x[i] := Min(Min(p.LL(i), p.UR(i)), Min(q.LL(i), q.UR(i)));
      x[i + dim] := Max(Max(p.LL(i), p.UR(i)), Max(q.LL(i), q.UR(i)));
      i := i + 1;
    }
    while i < dim
      invariant q.dim <= i <= dim && Filled(p, q, x[..], i)
    {
      FilledStep(p, q, x[..], i);
      Commutes(0.0, Min(p.LL(i), p.UR(i)));
      Commutes(0.0, Max(p.LL(i), p.UR(i)));
      x[i] := Min(0.0, Min(p.LL(i), p.UR(i)));
      x[i + dim] := Max(0.0, Max(p.LL(i), p.UR(i)));
      i := i + 1;
    }
    var point := IsPoint(dim, x);
    if point {
      c := Cube(true, dim, x[..dim]);
    } else {
      c := Cube(false, dim, x[..]);
    }
    FilledIsUnion(p, q, x[..], c);
    UnionCommutes(c, p, q);
  }

  lemma Commutes(a: real, b: real)
    ensures Min(a, b) == Min(b, a) && Max(a, b) == Max(b, a)
  {
  }

  lemma UnionCommutes(c: Box, a: Box, b: Box)
    requires IsUnion(c, a, b)
    ensures IsUnion(c, b, a)
  {
    forall i: nat ensures Lo(c, i) == Min(Lo(b, i), Lo(a, i)) && Hi(c, i) == Max(Hi(b, i), Hi(a, i)) {
      assert Lo(c, i) == Min(Lo(a, i), Lo(b, i));
    }
  }

  ghost predicate Filled(p: Box, q: Box, x: seq<real>, n: nat) {
    && |x| == 2 * p.dim && n <= p.dim && q.dim <= p.dim
    && forall i: nat :: i < n ==> x[i] == Min(Lo(p, i), Lo(q, i)) && x[i + p.dim] == Max(Hi(p, i), Hi(q, i))
  }

  lemma NothingFilled(p: Box, q: Box, x: seq<real>)
    requires |x| == 2 * p.dim && q.dim <= p.dim
    ensures Filled(p, q, x, 0)
  {
  }

  lemma FilledStep(p: Box, q: Box, x: seq<real>, n: nat)
    requires Filled(p, q, x, n) && n < p.dim
    ensures |x| == 2 * p.dim
    ensures Filled(p, q, x[n := Min(Lo(p, n), Lo(q, n))][n + p.dim := Max(Hi(p, n), Hi(q, n))], n + 1)
  {
    hide Min;
    hide Max;
  }

  lemma FilledIsUnion(p: Box, q: Box, x: seq<real>, c: Box)
    requires Filled(p, q, x, p.dim) && c.dim == p.dim
    requires if c.point then c.x == x[..p.dim] && forall i: nat :: i < p.dim ==> x[i] == x[i + p.dim] else c.x == x
    ensures IsUnion(c, p, q)
  {
    forall i: nat ensures Lo(c, i) == Min(Lo(p, i), Lo(q, i)) && Hi(c, i) == Max(Hi(p, i), Hi(q, i)) {
      LoBelowHi(p, i);
      LoBelowHi(q, i);
      if i < p.dim {
        assert c.LL(i) == x[i] && c.UR(i) == x[i + p.dim];
      }
    }
  }

  /** A union covers both parts and lies in everything else that does. */
  lemma UnionIsLeast(c: Box, a: Box, b: Box, d: Box)
    requires IsUnion(c, a, b)
    ensures Covers(c, a) && Covers(c, b)
    ensures Covers(d, a) && Covers(d, b) ==> Covers(d, c)
  {
    forall i: nat ensures Within(a, c, i) && Within(b, c, i) {
      assert Lo(c, i) == Min(Lo(a, i), Lo(b, i));
    }
    if Covers(d, a) && Covers(d, b) {
      forall i: nat ensures Within(c, d, i) {
        assert Within(a, d, i) && Within(b, d, i);
        assert Lo(c, i) == Min(Lo(a, i), Lo(b, i));
      }
    }
  }

  // ---------------------------------------------------------------------
  // cube_contains_v0, cube_overlap_v0, cube_cmp_v0
  // ---------------------------------------------------------------------

  method Contains(a: Box, b: Box) returns (r: bool)
    ensures r <==> Holds(a, b)
  {
    var i := a.dim;
    if a.dim < b.dim {
      while i < b.dim
        invariant a.dim <= i <= b.dim && forall j: nat :: a.dim <= j < i ==> Within(b, a, j)
      {
        if b.LL(i) != 0.0 {
          assert !Within(b, a, i);
          return false;
        }
        if b.UR(i) != 0.0 {
          assert !Within(b, a, i);
          return false;
        }
        i := i + 1;
      }
    }
    i := 0;
    while i < a.dim && i < b.dim
      invariant 0 <= i && i <= a.dim && i <= b.dim && forall j: nat :: j < i ==> Within(b, a, j)
    {
      if Min(a.LL(i), a.UR(i)) > Min(b.LL(i), b.UR(i)) {
        assert !Within(b, a, i);
        return false;
      }
      if Max(a.LL(i), a.UR(i)) < Max(b.LL(i), b.UR(i)) {
        assert !Within(b, a, i);
        return false;
      }
      i := i + 1;
    }
    return true;
  }

  method Overlap(a: Box, b: Box) returns (r: bool)
    ensures r <==> Meet(a, b)
  {
    var p, q := a, b;
    if a.dim < b.dim {
      p, q := b, a;
    }
    MeetSymmetric(p, q);
    var i := 0;
    while i < q.dim
      invariant 0 <= i <= q.dim && forall j: nat :: j < i ==> MeetIn(p, q, j)
    {
      if Min(p.LL(i), p.UR(i)) > Max(q.LL(i), q.UR(i)) {
        assert !MeetIn(p, q, i);
        return false;
      }
      if Max(p.LL(i), p.UR(i)) < Min(q.LL(i), q.UR(i)) {
        assert !MeetIn(p, q, i);
        return false;
      }
      i := i + 1;
    }
    i := q.dim;
    while i < p.dim
      invariant q.dim <= i <= p.dim && forall j: nat :: j < i ==> MeetIn(p, q, j)
    {
      if Min(p.LL(i), p.UR(i)) > 0.0 {
        assert !MeetIn(p, q, i);
        return false;
      }
      if Max(p.LL(i), p.UR(i)) < 0.0 {
        assert !MeetIn(p, q, i);
        return false;
      }
      i := i + 1;
    }
    return true;
  }

  lemma MeetSymmetric(a: Box, b: Box)
    ensures Meet(a, b) <==> Meet(b, a)
  {
    forall i: nat ensures MeetIn(a, b, i) <==> MeetIn(b, a, i) {
    }
  }

  /** The minima of the dimensions `i` to `j`, then their maxima. */
  ghost function Corners(c: Box, i: nat, j: nat): (r: seq<real>)
    requires i <= j
    ensures |r| == 2 * (j - i)
  {
    seq(j - i, k requires 0 <= k < j - i => Lo(c, i + k)) + seq(j - i, k requires 0 <= k < j - i => Hi(c, i + k))
  }

  ghost function Shared(a: Box, b: Box): nat { if a.dim < b.dim then a.dim else b.dim }

  /** The order of words. */
  ghost function Lex(s: seq<real>, t: seq<real>): (r: int)
    requires |s| == |t|
    ensures -1 <= r <= 1
  {
    if s == [] then 0
    else if s[0] > t[0] then 1
    else if s[0] < t[0] then -1
    else Lex(s[1..], t[1..])
  }

  ghost function Either(first: int, second: int): int { if first != 0 then first else second }

  /** The order of cubes: the corners over the dimensions both have decide, then the
      corners over the others, missing ones being zero, then the dimensions. */
  ghost function Order(a: Box, b: Box): int {
    var n, m := Shared(a, b), MaxDim(a, b);
    Either(Lex(Corners(a, 0, n), Corners(b, 0, n)),
           Either(Lex(Corners(a, n, m), Corners(b, n, m)),
                  if a.dim > b.dim then 1 else if a.dim < b.dim then -1 else 0))
  }

  /** The first place where two words differ decides. */
  lemma {:induction false} LexFirst(s: seq<real>, t: seq<real>, k: nat)
    requires k < |s| == |t| && s[..k] == t[..k] && s[k] != t[k]
    ensures Lex(s, t) == if s[k] > t[k] then 1 else -1
  {
    if k > 0 {
      assert s[0] == s[..k][0] == t[..k][0] == t[0];
      assert s[1..][..k - 1] == s[..k][1..] == t[..k][1..] == t[1..][..k - 1];
      LexFirst(s[1..], t[1..], k - 1);
    }
  }

  lemma {:induction false} LexZero(s: seq<real>, t: seq<real>)
    requires |s| == |t|
    ensures Lex(s, t) == 0 <==> s == t
  {
    if s != [] {
      LexZero(s[1..], t[1..]);
      assert s == [s[0]] + s[1..] && t == [t[0]] + t[1..];
    }
  }

  /** A maximum decides once the minima and the maxima before it agree. */
  lemma CornerDecides(a: Box, b: Box, i: nat, j: nat, k: nat, upper: bool)
    requires i <= k < j
    requires forall d: nat :: i <= d < (if upper then j else k) ==> Lo(a, d) == Lo(b, d)
    requires upper ==> forall d: nat :: i <= d < k ==> Hi(a, d) == Hi(b, d)
    requires if upper then Hi(a, k) != Hi(b, k) else Lo(a, k) != Lo(b, k)
    ensures Lex(Corners(a, i, j), Corners(b, i, j)) ==
      if (if upper then Hi(a, k) > Hi(b, k) else Lo(a, k) > Lo(b, k)) then 1 else -1
  {
    hide Lo, Hi, Lex;
    var s, t, at := Corners(a, i, j), Corners(b, i, j), if upper then j - i + k - i else k - i;
    assert s[at] == (if upper then Hi(a, k) else Lo(a, k)) && t[at] == (if upper then Hi(b, k) else Lo(b, k));
    assert s[..at] == t[..at];
    LexFirst(s, t, at);
  }

  lemma CornersAgree(a: Box, b: Box, i: nat, j: nat)
    requires i <= j
    ensures Lex(Corners(a, i, j), Corners(b, i, j)) == 0
       <==> forall d: nat :: i <= d < j ==> Lo(a, d) == Lo(b, d) && Hi(a, d) == Hi(b, d)
  {
    hide Lo, Hi, Lex;
    var s, t := Corners(a, i, j), Corners(b, i, j);
    LexZero(s, t);
    if s == t {
      forall d: nat | i <= d < j ensures Lo(a, d) == Lo(b, d) && Hi(a, d) == Hi(b, d) {
        assert s[d - i] == t[d - i] && s[j - i + d - i] == t[j - i + d - i];
      }
    }
  }

  /** Compares two cubes over a range of dimensions, all minima before all maxima. */
  method CompareCorners(a: Box, b: Box, start: nat, end: nat) returns (r: int)
    requires start <= end
    ensures r == Lex(Corners(a, start, end), Corners(b, start, end))
  {
    hide Lo, Hi, Lex;
    var i := start;
    while i < end
      invariant start <= i <= end && forall j: nat :: start <= j < i ==> Lo(a, j) == Lo(b, j)
    {
      if Lo(a, i) > Lo(b, i) {
        CornerDecides(a, b, start, end, i, false);
        return 1;
      }
      if Lo(a, i) < Lo(b, i) {
        CornerDecides(a, b, start, end, i, false);
        return -1;
      }
      i := i + 1;
    }
    i := start;
    while i < end
      invariant start <= i <= end && forall j: nat :: start <= j < i ==> Hi(a, j) == Hi(b, j)
    {
      if Hi(a, i) > Hi(b, i) {
        CornerDecides(a, b, start, end, i, true);
        return 1;
      }
      if Hi(a, i) < Hi(b, i) {
        CornerDecides(a, b, start, end, i, true);
        return -1;
      }
      i := i + 1;
    }
    CornersAgree(a, b, start, end);
    return 0;
  }

  /** `cube_cmp_v0`. A dimension that a cube lacks is zero, so that comparing extra
      dimensions to zero is comparing with the other cube. */
  method Compare(a: Box, b: Box) returns (r: int)
    ensures r == Order(a, b)
    ensures r == 0 <==> Same(a, b)
  {
    hide Lex, Corners;
    var dim := if a.dim < b.dim then a.dim else b.dim;
    OrderZero(a, b);
    r := CompareCorners(a, b, 0, dim);
    if r == 0 && a.dim > b.dim {
      r := CompareCorners(a, b, dim, a.dim);
      r := if r == 0 then 1 else r;
    } else if r == 0 && a.dim < b.dim {
      r := CompareCorners(a, b, dim, b.dim);
      r := if r == 0 then -1 else r;
    } else if r == 0 {
      CornersAgree(a, b, dim, dim);
    }
  }

  lemma OrderZero(a: Box, b: Box)
    ensures Order(a, b) == 0 <==> Same(a, b)
  {
    hide Lex, Corners;
    CornersAgree(a, b, 0, Shared(a, b));
    CornersAgree(a, b, Shared(a, b), MaxDim(a, b));
  }

  // ---------------------------------------------------------------------
  // Whether that is an order
  // ---------------------------------------------------------------------

  lemma {:induction false} LexOpposite(s: seq<real>, t: seq<real>)
    requires |s| == |t|
    ensures Lex(s, t) == -Lex(t, s)
  {
    if s != [] { LexOpposite(s[1..], t[1..]); }
  }

  /** Exchanging the arguments turns the result round. */
  lemma OrderOpposite(a: Box, b: Box)
    ensures Order(a, b) == -Order(b, a)
  {
    hide Lex, Corners;
    var n, m := Shared(a, b), MaxDim(a, b);
    LexOpposite(Corners(a, 0, n), Corners(b, 0, n));
    LexOpposite(Corners(a, n, m), Corners(b, n, m));
  }

  lemma {:induction false} LexTransitive(s: seq<real>, t: seq<real>, u: seq<real>)
    requires |s| == |t| == |u| && Lex(s, t) <= 0 && Lex(t, u) <= 0
    ensures Lex(s, u) <= 0
    ensures Lex(s, u) == 0 ==> Lex(s, t) == 0 && Lex(t, u) == 0
  {
    if s != [] && s[0] == t[0] == u[0] { LexTransitive(s[1..], t[1..], u[1..]); }
  }

  /** Cubes of dimension `n` and of dimension zero are ordered by their corners in `n`
      dimensions, and then by their dimensions. */
  lemma OrderInOne(a: Box, b: Box, n: nat)
    requires a.dim in {0, n} && b.dim in {0, n}
    ensures Order(a, b) == Either(Lex(Corners(a, 0, n), Corners(b, 0, n)),
                                  if a.dim > b.dim then 1 else if a.dim < b.dim then -1 else 0)
  {
    hide Lex, Corners;
    CornersAgree(a, b, 0, 0);
    CornersAgree(a, b, n, n);
    if a.dim == 0 && b.dim == 0 { CornersAgree(a, b, 0, n); }
  }

  /** Among such cubes the comparison is transitive. */
  lemma TransitiveInOne(a: Box, b: Box, c: Box, n: nat)
    requires a.dim in {0, n} && b.dim in {0, n} && c.dim in {0, n} && Order(a, b) <= 0 && Order(b, c) <= 0
    ensures Order(a, c) <= 0
  {
    hide Lex, Corners, Order;
    OrderInOne(a, b, n);
    OrderInOne(b, c, n);
    OrderInOne(a, c, n);
    LexTransitive(Corners(a, 0, n), Corners(b, 0, n), Corners(c, 0, n));
  }

  /** A cube of dimension `n` from the origin whose first side is `w` long, standing at
      height `h` in its last dimension. */
  function Slab(n: nat, w: real, h: real): (r: Box)
    requires 0 < n <= MAX_DIM
    ensures r.dim == n
  {
    Cube(false, n, seq(n, i => if 0 < i == n - 1 then h else 0.0)
                 + seq(n, i => if i == 0 then w else if i == n - 1 then h else 0.0))
  }

  lemma SlabSides(n: nat, w: real, h: real, i: nat)
    requires 0 < n <= MAX_DIM && w >= 0.0 && i < n
    ensures Lo(Slab(n, w, h), i) == if 0 < i == n - 1 then h else 0.0
    ensures Hi(Slab(n, w, h), i) == if i == 0 then w else if i == n - 1 then h else 0.0
  {
  }

  /** Three cubes, one of `m` and two of `n` dimensions, each before the next one. */
  lemma OrderIsCircular(m: nat, n: nat)
    requires 0 < m < n <= MAX_DIM
    ensures Order(Slab(m, 1.0, 0.0), Slab(n, 2.0, 0.0)) < 0
    ensures Order(Slab(n, 2.0, 0.0), Slab(n, 0.0, 5.0)) < 0
    ensures Order(Slab(n, 0.0, 5.0), Slab(m, 1.0, 0.0)) < 0
  {
    hide Slab, Lo, Hi, Lex, Corners;
    var a, b, c := Slab(m, 1.0, 0.0), Slab(n, 2.0, 0.0), Slab(n, 0.0, 5.0);
    forall i: nat | i < n ensures
      && Lo(b, i) == 0.0 && Lo(c, i) == (if i == n - 1 then 5.0 else 0.0) && (i < m ==> Lo(a, i) == 0.0)
    {
      SlabSides(n, 2.0, 0.0, i);
      SlabSides(n, 0.0, 5.0, i);
      if i < m { SlabSides(m, 1.0, 0.0, i); }
    }
    SlabSides(m, 1.0, 0.0, 0);
    SlabSides(n, 2.0, 0.0, 0);
    SlabSides(n, 0.0, 5.0, 0);
    CornerDecides(a, b, 0, m, 0, true);
    CornerDecides(b, c, 0, n, n - 1, false);
    CornerDecides(c, a, 0, m, 0, true);
  }

  ghost predicate Follows(a: Box, b: Box, c: Box) {
    Order(a, b) <= 0 && Order(b, c) <= 0 ==> Order(a, c) <= 0
  }

  ghost predicate Transitive(dims: set<nat>) {
    forall a: Box, b: Box, c: Box {:trigger Follows(a, b, c)} ::
      a.dim in dims && b.dim in dims && c.dim in dims ==> Follows(a, b, c)
  }

  /** The comparison is an order on the cubes of some dimensions if and only if at most
      one of these is not zero: an index may hold cubes of one dimension, and the empty
      cube. */
  lemma TransitiveIff(dims: set<nat>)
    requires forall d :: d in dims ==> d <= MAX_DIM
    ensures Transitive(dims) <==> forall m, n :: m in dims && n in dims && 0 < m && 0 < n ==> m == n
  {
    hide Order;
    if m, n :| m in dims && n in dims && 0 < m < n {
      OrderIsCircular(m, n);
      var a, b, c := Slab(m, 1.0, 0.0), Slab(n, 2.0, 0.0), Slab(n, 0.0, 5.0);
      OrderOpposite(c, a);
      assert !Follows(a, b, c);
    } else {
      forall a: Box, b: Box, c: Box | a.dim in dims && b.dim in dims && c.dim in dims ensures Follows(a, b, c) {
        if Order(a, b) <= 0 && Order(b, c) <= 0 {
          TransitiveInOne(a, b, c, if a.dim > 0 then a.dim else if b.dim > 0 then b.dim else c.dim);
        }
      }
    }
  }

  // ---------------------------------------------------------------------
  // Distances
  // ---------------------------------------------------------------------

  /** `distance_1D`. */
  function Distance1D(a1: real, a2: real, b1: real, b2: real): real {
    if a1 <= b1 && a2 <= b1 && a1 <= b2 && a2 <= b2 then Min(b1, b2) - Max(a1, a2)
    else if a1 > b1 && a2 > b1 && a1 > b2 && a2 > b2 then Min(a1, a2) - Max(b1, b2)
    else 0.0
  }

  /** How far apart two cubes are in a dimension. */
  ghost function Apart(a: Box, b: Box, i: nat): real {
    Max(0.0, Max(Lo(b, i) - Hi(a, i), Lo(a, i) - Hi(b, i)))
  }

  lemma Distance1DIsApart(a1: real, a2: real, b1: real, b2: real)
    ensures Distance1D(a1, a2, b1, b2) == Max(0.0, Max(Min(b1, b2) - Max(a1, a2), Min(a1, a2) - Max(b1, b2)))
  {
  }

  /** The Euclidean distance stays squared. */
  datatype Metric = Taxicab | Euclid | Chebyshev

  function Combine(m: Metric, total: real, d: real): real {
    match m
    case Taxicab => total + Abs(d)
    case Euclid => total + d * d
    case Chebyshev => if Abs(d) > total then Abs(d) else total
  }

  /** The distance over the first `n` dimensions. */
  ghost function Distance(m: Metric, a: Box, b: Box, n: nat): real {
    if n == 0 then 0.0 else Combine(m, Distance(m, a, b, n - 1), Apart(a, b, n - 1))
  }

  function MaxDim(a: Box, b: Box): nat { if a.dim < b.dim then b.dim else a.dim }

  ghost function FullDistance(m: Metric, a: Box, b: Box): real { Distance(m, a, b, MaxDim(a, b)) }

  lemma {:induction false} DistanceSymmetric(m: Metric, a: Box, b: Box, n: nat)
    ensures Distance(m, a, b, n) == Distance(m, b, a, n)
  {
    if n > 0 {
      DistanceSymmetric(m, a, b, n - 1);
      assert Apart(a, b, n - 1) == Apart(b, a, n - 1);
    }
  }

  lemma ApartOf(p: Box, q: Box, i: nat)
    requires i < p.dim
    ensures Apart(p, q, i) ==
      Distance1D(p.LL(i), p.UR(i), if i < q.dim then q.LL(i) else 0.0, if i < q.dim then q.UR(i) else 0.0)
  {
    Distance1DIsApart(p.LL(i), p.UR(i), if i < q.dim then q.LL(i) else 0.0, if i < q.dim then q.UR(i) else 0.0);
  }

  /** `distance_taxicab`, `cube_distance` before its square root, `distance_chebyshev`. */
  method ComputeDistance(m: Metric, a: Box, b: Box) returns (r: real)
    ensures r == FullDistance(m, a, b)
  {
    hide Apart;
    hide Distance1D;
    hide Combine;
    var p, q := a, b;
    if a.dim < b.dim {
      p, q := b, a;
    }
    r := 0.0;
    var i := 0;
    while i < q.dim
      invariant 0 <= i <= q.dim && r == Distance(m, p, q, i)
    {
      ApartOf(p, q, i);
      r := Combine(m, r, Distance1D(p.LL(i), p.UR(i), q.LL(i), q.UR(i)));
      i := i + 1;
    }
    i := q.dim;
    while i < p.dim
      invariant q.dim <= i <= p.dim && r == Distance(m, p, q, i)
    {
      ApartOf(p, q, i);
      r := Combine(m, r, Distance1D(p.LL(i), p.UR(i), 0.0, 0.0));
      i := i + 1;
    }
    DistanceSymmetric(m, p, q, p.dim);
  }

  /** Dimensions that neither cube has add nothing. */
  lemma {:induction false} DistanceExtends(m: Metric, a: Box, b: Box, n: nat)
    requires n >= MaxDim(a, b)
    ensures Distance(m, a, b, n) == FullDistance(m, a, b)
  {
    if n > MaxDim(a, b) {
      DistanceExtends(m, a, b, n - 1);
      DistanceNotNegative(m, a, b, n - 1);
    }
  }

  lemma {:induction false} DistanceNotNegative(m: Metric, a: Box, b: Box, n: nat)
    ensures Distance(m, a, b, n) >= 0.0
  {
    if n > 0 {
      DistanceNotNegative(m, a, b, n - 1);
      SquareNotNegative(Apart(a, b, n - 1));
    }
  }

  lemma SquareNotNegative(d: real)
    ensures d * d >= 0.0
  {
  }

  lemma ApartShrinks(b: Box, a: Box, q: Box, i: nat)
    requires Covers(b, a)
    ensures 0.0 <= Apart(b, q, i) <= Apart(a, q, i)
  {
    assert Within(a, b, i);
  }

  lemma SquareMonotone(d: real, e: real)
    requires 0.0 <= d <= e
    ensures d * d <= e * e
  {
    assert e * e - d * d == (e - d) * (e + d);
  }

  lemma {:induction false} DistanceShrinks(m: Metric, b: Box, a: Box, q: Box, n: nat)
    requires Covers(b, a)
    ensures Distance(m, b, q, n) <= Distance(m, a, q, n)
  {
    hide Apart;
    hide Combine;
    hide Covers;
    if n > 0 {
      DistanceShrinks(m, b, a, q, n - 1);
      ApartShrinks(b, a, q, n - 1);
      CombineMonotone(m, Distance(m, b, q, n - 1), Distance(m, a, q, n - 1), Apart(b, q, n - 1), Apart(a, q, n - 1));
    }
  }

  lemma CombineMonotone(m: Metric, s: real, t: real, d: real, e: real)
    requires s <= t && 0.0 <= d <= e
    ensures Combine(m, s, d) <= Combine(m, t, e)
  {
    SquareMonotone(d, e);
  }

  /** The distance to a covering box is a lower bound, in all three metrics and whatever
      the dimensions. */
  lemma DistanceIsLowerBound(m: Metric, b: Box, a: Box, q: Box)
    requires Covers(b, a)
    ensures FullDistance(m, b, q) <= FullDistance(m, a, q)
  {
    var n := MaxDim(a, b) + q.dim;
    DistanceShrinks(m, b, a, q, n);
    DistanceExtends(m, b, q, n);
    DistanceExtends(m, a, q, n);
  }

  /** So are the square roots, which the Euclidean distance is returned as. */
  lemma RootIsLowerBound(b: Box, a: Box, q: Box, near: real, far: real)
    requires Covers(b, a) && near >= 0.0 && far >= 0.0
    requires near * near == FullDistance(Euclid, b, q) && far * far == FullDistance(Euclid, a, q)
    ensures near <= far
  {
    hide FullDistance, Covers;
    DistanceIsLowerBound(Euclid, b, a, q);
    if near > far { SquareGrows(far, near); }
  }

  lemma ProductIsPositive(x: real, y: real)
    requires x > 0.0 && y > 0.0
    ensures x * y > 0.0
  {
  }

  lemma SquareGrows(x: real, y: real)
    requires 0.0 <= x < y
    ensures x * x < y * y
  {
    ProductIsPositive(y - x, y + x);
    assert (y - x) * (y + x) == y * y - x * x;
  }

  /** Ordering by a coordinate, counted from 1 and negative for descending order. */
  function CoordinateDistance(c: Box, coord: int, isLeaf: bool): real
    requires coord != 0
  {
    var inverse := coord < 0;
    var k := if inverse then -coord else coord;
    var v :=
      if k > 2 * c.dim then 0.0
      else
        var index, upper := (k - 1) / 2, (k - 1) % 2 == 1;
        if c.point then c.x[index]
        else if isLeaf then (if upper then Hi(c, index) else Lo(c, index))
        else if !inverse then Lo(c, index) else Hi(c, index);
    if inverse then -v else v
  }

  lemma CoordinateIsLowerBound(b: Box, a: Box, coord: int)
    requires Covers(b, a) && b.dim >= a.dim && coord != 0
    ensures CoordinateDistance(b, coord, false) <= CoordinateDistance(a, coord, true)
  {
    var k := if coord < 0 then -coord else coord;
    var index := (k - 1) / 2;
    assert Within(a, b, index);
    LoBelowHi(a, index);
  }

  // ---------------------------------------------------------------------
  // GiST: consistency
  // ---------------------------------------------------------------------

  datatype Strategy = OverlapsWith | SameAs | ContainsIt | ContainedBy | Unknown

  ghost predicate LeafMatches(key: Box, query: Box, strategy: Strategy) {
    match strategy
    case OverlapsWith => Meet(key, query)
    case SameAs => Same(key, query)
    case ContainsIt => Holds(key, query)
    case ContainedBy => Holds(query, key)
    case Unknown => false
  }

  ghost predicate MayMatch(key: Box, query: Box, strategy: Strategy) {
    match strategy
    case OverlapsWith => Meet(key, query)
    case SameAs => Holds(key, query)
    case ContainsIt => Holds(key, query)
    case ContainedBy => Meet(key, query)
    case Unknown => false
  }

  method Consistent(key: Box, query: Box, strategy: Strategy, isLeaf: bool) returns (r: bool)
    ensures r <==> if isLeaf then LeafMatches(key, query, strategy) else MayMatch(key, query, strategy)
  {
    if isLeaf {
      match strategy
      case OverlapsWith => r := Overlap(key, query);
      case SameAs => var c := Compare(key, query); r := c == 0;
      case ContainsIt => r := Contains(key, query);
      case ContainedBy => r := Contains(query, key);
      case Unknown => r := false;
    } else {
      match strategy
      case OverlapsWith => r := Overlap(key, query);
      case SameAs => r := Contains(key, query);
      case ContainsIt => r := Contains(key, query);
      case ContainedBy => r := Overlap(key, query);
      case Unknown => r := false;
    }
  }

  /** A box that covers a matching cube may match, for every strategy but contained-by. */
  lemma CoverMayMatch(b: Box, a: Box, query: Box, strategy: Strategy)
    requires Covers(b, a) && LeafMatches(a, query, strategy) && strategy != ContainedBy
    ensures MayMatch(b, query, strategy)
  {
    forall i: nat ensures MeetIn(a, query, i) ==> MeetIn(b, query, i) { assert Within(a, b, i); }
    forall i: nat ensures Within(query, a, i) ==> Within(query, b, i) { assert Within(a, b, i); }
    if strategy == SameAs {
      forall i: nat ensures Within(query, a, i) { assert Lo(a, i) == Lo(query, i); }
    }
  }

  /** The query reaches zero in every dimension the cube lacks. */
  ghost predicate ReachesZero(query: Box, a: Box) {
    forall i: nat :: i >= a.dim ==> Lo(query, i) <= 0.0 <= Hi(query, i)
  }

  /** Contained-by is never pruned above a cube exactly when the query reaches zero in
      every dimension the cube lacks. */
  lemma ContainedByIff(a: Box, query: Box)
    requires LeafMatches(a, query, ContainedBy)
    ensures (forall b: Box :: Covers(b, a) ==> MayMatch(b, query, ContainedBy)) <==> ReachesZero(query, a)
  {
    if ReachesZero(query, a) {
      forall b: Box | Covers(b, a) ensures Meet(b, query) {
        forall i: nat ensures MeetIn(b, query, i) {
          assert Within(a, b, i);
          LoBelowHi(a, i);
          if i < a.dim { assert Within(a, query, i); }
        }
      }
    } else {
      var i: nat :| i >= a.dim && !(Lo(query, i) <= 0.0 <= Hi(query, i));
      CoversSelf(a);
      assert !MeetIn(a, query, i);
      assert !MayMatch(a, query, ContainedBy);
    }
  }

  lemma CoversSelf(a: Box)
    ensures Covers(a, a)
  {
    forall i: nat ensures Within(a, a, i) {
    }
  }

  /** The point (1) is contained in the box (0,5),(2,6), but the search for it is pruned. */
  lemma ContainedByIsPruned()
    ensures var a: Box, query: Box := Cube(true, 1, [1.0]), Cube(false, 2, [0.0, 5.0, 2.0, 6.0]);
      LeafMatches(a, query, ContainedBy) && Covers(a, a) && !MayMatch(a, query, ContainedBy)
  {
    var a: Box, query: Box := Cube(true, 1, [1.0]), Cube(false, 2, [0.0, 5.0, 2.0, 6.0]);
    CoversSelf(a);
    assert Within(a, query, 0);
    assert !MeetIn(a, query, 1);
  }

  // ---------------------------------------------------------------------
  // GiST: union and trees
  // ---------------------------------------------------------------------

  ghost predicate Bounds(key: Box, a: Box) { Covers(key, a) && key.dim >= a.dim }

  lemma BoundsTransitive(c: Box, b: Box, a: Box)
    requires Bounds(c, b) && Bounds(b, a)
    ensures Bounds(c, a)
  {
    forall i: nat ensures Within(a, c, i) { assert Within(a, b, i) && Within(b, c, i); }
  }

  lemma UnionBounds(c: Box, a: Box, b: Box)
    requires IsUnion(c, a, b)
    ensures Bounds(c, a) && Bounds(c, b)
  {
    UnionIsLeast(c, a, b, c);
  }

  /** `g_cube_union`. With a single entry nothing is returned. */
  method UnionAll(entries: seq<Box>) returns (out: Option<Box>)
    requires entries != []
    ensures out.Some? <==> |entries| > 1
    ensures out.Some? ==> forall k :: 0 <= k < |entries| ==> Bounds(out.value, entries[k])
    ensures out.Some? ==>
      forall d: Box :: (forall k :: 0 <= k < |entries| ==> Covers(d, entries[k])) ==> Covers(d, out.value)
  {
    hide Covers;
    hide IsUnion;
    out := None;
    var tmp := entries[0];
    CoversSelf(tmp);
    var i := 1;
    while i < |entries|
      invariant 1 <= i <= |entries| && (out.Some? <==> i > 1) && (out.Some? ==> out.value == tmp)
      invariant forall k :: 0 <= k < i ==> Bounds(tmp, entries[k])
      invariant forall d: Box :: (forall k :: 0 <= k < |entries| ==> Covers(d, entries[k])) ==> Covers(d, tmp)
    {
      var u := Union(tmp, entries[i]);
      UnionBounds(u, tmp, entries[i]);
      forall k | 0 <= k < i ensures Bounds(u, entries[k]) { BoundsTransitive(u, tmp, entries[k]); }
      forall d: Box | forall k :: 0 <= k < |entries| ==> Covers(d, entries[k]) ensures Covers(d, u) {
        UnionIsLeast(u, tmp, entries[i], d);
      }
      tmp, out := u, Some(u);
      i := i + 1;
    }
  }

  datatype Tree = Leaf(c: Box) | Node(key: Box, below: seq<Tree>) {
    function Key(): Box { if Leaf? then c else key }
  }

  /** Every key bounds the keys under it, as union and split make them. */
  ghost predicate Built(t: Tree) {
    t.Node? ==> forall k :: 0 <= k < |t.below| ==> Bounds(t.key, t.below[k].Key()) && Built(t.below[k])
  }

  ghost predicate Below(t: Tree, a: Box) {
    match t
    case Leaf(c) => a == c
    case Node(_, below) => exists k :: 0 <= k < |below| && Below(below[k], a)
  }

  lemma {:induction false} KeyBoundsAll(t: Tree, a: Box)
    requires Built(t) && Below(t, a)
    ensures Bounds(t.Key(), a)
  {
    match t
    case Leaf(c) => CoversSelf(c);
    case Node(key, below) =>
      var k :| 0 <= k < |below| && Below(below[k], a);
      KeyBoundsAll(below[k], a);
      BoundsTransitive(key, below[k].Key(), a);
  }

  /** In any tree, no ancestor of a match is pruned, and every distance to a node is a
      lower bound of the distances below it. */
  lemma TreeIsSound(t: Tree, a: Box, query: Box, strategy: Strategy, m: Metric, coord: int)
    requires Built(t) && t.Node? && Below(t, a) && coord != 0
    ensures LeafMatches(a, query, strategy) && strategy != ContainedBy ==> MayMatch(t.key, query, strategy)
    ensures LeafMatches(a, query, ContainedBy) && ReachesZero(query, a) ==> MayMatch(t.key, query, ContainedBy)
    ensures FullDistance(m, t.key, query) <= FullDistance(m, a, query)
    ensures CoordinateDistance(t.key, coord, false) <= CoordinateDistance(a, coord, true)
  {
    hide Covers;
    hide LeafMatches;
    hide MayMatch;
    hide CoordinateDistance;
    KeyBoundsAll(t, a);
    if LeafMatches(a, query, strategy) && strategy != ContainedBy { CoverMayMatch(t.key, a, query, strategy); }
    if LeafMatches(a, query, ContainedBy) { ContainedByIff(a, query); }
    DistanceIsLowerBound(m, t.key, a, query);
    CoordinateIsLowerBound(t.key, a, coord);
  }

  // ---------------------------------------------------------------------
  // GiST: g_cube_picksplit
  // ---------------------------------------------------------------------

  /** The pair of entries with the greatest waste among all but the last entry; the first
      two entries if there is no pair to choose from. */
  method ChooseSeeds(entries: seq<Box>, waste: (Box, Box) -> real) returns (s1: nat, s2: nat)
    requires |entries| >= 2
    ensures s1 < s2 < |entries|
    ensures forall i, j ::
      0 <= i < j < |entries| - 1 ==> waste(entries[i], entries[j]) <= waste(entries[s1], entries[s2])
  {
    s1, s2 := 0, 1;
    var firsttime, best := true, 0.0;
    var i := 0;
    while i < |entries| - 2
      invariant 0 <= i <= |entries| - 2 && s1 < s2 < |entries|
      invariant firsttime <==> i == 0
      invariant !firsttime ==> best == waste(entries[s1], entries[s2])
      invariant forall a, b :: 0 <= a < i && a < b < |entries| - 1 ==> waste(entries[a], entries[b]) <= best
    {
      var j := i + 1;
      while j < |entries| - 1
        invariant i + 1 <= j <= |entries| - 1 && s1 < s2 < |entries|
        invariant firsttime <==> i == 0 && j == 1
        invariant !firsttime ==> best == waste(entries[s1], entries[s2])
        invariant forall a, b :: 0 <= a < i && a < b < |entries| - 1 ==> waste(entries[a], entries[b]) <= best
        invariant forall b :: i < b < j ==> waste(entries[i], entries[b]) <= best
      {
        var w := waste(entries[i], entries[j]);
        if w > best || firsttime {
          best, s1, s2, firsttime := w, i, j, false;
        }
        j := j + 1;
      }
      i := i + 1;
    }
  }

  ghost predicate BoundsAll(key: Box, entries: seq<Box>, at: seq<nat>) {
    forall k :: 0 <= k < |at| ==> at[k] < |entries| && Bounds(key, entries[at[k]])
  }

  ghost predicate Ascending(at: seq<nat>, end: nat) {
    (forall k :: 0 <= k < |at| ==> at[k] < end) && forall j, k :: 0 <= j < k < |at| ==> at[j] < at[k]
  }

  lemma BoundsAllGrows(key: Box, key': Box, entries: seq<Box>, at: seq<nat>, i: nat)
    requires BoundsAll(key, entries, at) && i < |entries| && IsUnion(key', key, entries[i])
    ensures BoundsAll(key', entries, at + [i]) && Bounds(key', key)
  {
    hide Covers;
    UnionBounds(key', key, entries[i]);
    forall k | 0 <= k < |at| ensures Bounds(key', entries[at[k]]) { BoundsTransitive(key', key, entries[at[k]]); }
  }

  /** Every entry goes to exactly one side, in order, both sides get one, and the box of
      each side bounds its entries, whatever measures of waste and size are used. */
  method PickSplit(entries: seq<Box>, waste: (Box, Box) -> real, size: Box -> real)
    returns (left: seq<nat>, right: seq<nat>, leftKey: Box, rightKey: Box)
    requires |entries| >= 2
    ensures left != [] && right != [] && Ascending(left, |entries|) && Ascending(right, |entries|)
    ensures forall i: nat :: i < |entries| ==> (i in left) != (i in right)
    ensures BoundsAll(leftKey, entries, left) && BoundsAll(rightKey, entries, right)
  {
    hide Bounds;
    hide BoundsAll;
    hide IsUnion;
    var seed1, seed2 := ChooseSeeds(entries, waste);
    left, right := [], [];
    leftKey, rightKey := entries[seed1], entries[seed2];
    var sizeLeft, sizeRight := size(leftKey), size(rightKey);
    SeedBounds(entries, leftKey);
    SeedBounds(entries, rightKey);
    SelfBounds(leftKey);
    SelfBounds(rightKey);
    var i := 0;
    while i < |entries|
      invariant 0 <= i <= |entries| && Ascending(left, i) && Ascending(right, i)
      invariant forall k: nat :: k < i ==> (k in left) != (k in right)
      invariant seed1 < i ==> seed1 in left
      invariant seed2 < i ==> seed2 in right
      invariant BoundsAll(leftKey, entries, left) && BoundsAll(rightKey, entries, right)
      invariant Bounds(leftKey, entries[seed1]) && Bounds(rightKey, entries[seed2])
    {
      if i == seed1 {
        BoundsAllSeed(leftKey, entries, left, i);
        left := left + [i];
      } else if i == seed2 {
        BoundsAllSeed(rightKey, entries, right, i);
        right := right + [i];
      } else {
        var unionLeft := Union(leftKey, entries[i]);
        var unionRight := Union(rightKey, entries[i]);
        var alpha, beta := size(unionLeft), size(unionRight);
        if alpha - sizeLeft < beta - sizeRight {
          BoundsAllGrows(leftKey, unionLeft, entries, left, i);
          BoundsTransitive(unionLeft, leftKey, entries[seed1]);
          leftKey, sizeLeft := unionLeft, alpha;
          left := left + [i];
        } else {
          BoundsAllGrows(rightKey, unionRight, entries, right, i);
          BoundsTransitive(unionRight, rightKey, entries[seed2]);
          rightKey, sizeRight := unionRight, beta;
          right := right + [i];
        }
      }
      i := i + 1;
    }
    assert seed1 in left && seed2 in right;
  }

  lemma SelfBounds(a: Box)
    ensures Bounds(a, a)
  {
    CoversSelf(a);
  }

  lemma SeedBounds(entries: seq<Box>, key: Box)
    ensures BoundsAll(key, entries, [])
  {
  }

  lemma BoundsAllSeed(key: Box, entries: seq<Box>, at: seq<nat>, i: nat)
    requires BoundsAll(key, entries, at) && i < |entries| && Bounds(key, entries[i])
    ensures BoundsAll(key, entries, at + [i])
  {
  }
}
