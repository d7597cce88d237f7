/**
  The open-addressing digram table with tombstones. It stores pointers to symbols;
  the digram of a stored symbol is read through the pointer, here through `dig`.
 */
module DigramTable {
  /** The table size: despite its name it is 17 * 133267. */
  const PRIME: int := 2265539
  const COFACTOR: int := 133267

  type Ptr = nat
  type Digram = (bv64, bv64)

  datatype Slot = Empty | Tombstone | Stored(p: Ptr)

  /** `HASH`: where the probe starts. */
  function Home(d: Digram): (i: int)
    ensures 0 <= i < PRIME
  {
    (((d.0 << 16) | d.1) as int) % PRIME
  }

  /** `HASH2`: how far it jumps. */
  function Jump(d: Digram): (j: int)
    ensures 1 <= j <= 17
  {
    17 - (d.0 as int) % 17
  }

  /** The slot looked at in round `k` of the probe. */
  function Path(home: int, jump: int, k: nat): (i: int)
    ensures 0 <= i < PRIME
  {
    (home + k * jump) % PRIME
  }

  lemma PathStart(home: int, jump: int)
    requires 0 <= home < PRIME
    ensures Path(home, jump, 0) == home
  {
  }

  lemma PathStep(home: int, jump: int, k: nat)
    ensures Path(home, jump, k + 1) == (Path(home, jump, k) + jump) % PRIME
  {
    var a := home + k * jump;
    var q := a / PRIME;
    assert home + (k + 1) * jump == a + jump;
    assert a == PRIME * q + a % PRIME;
    ModShift(a % PRIME + jump, q);
    assert a + jump == PRIME * q + (a % PRIME + jump);
  }

  lemma ModShift(a: int, q: int)
    ensures (PRIME * q + a) % PRIME == a % PRIME
  {
    var b := PRIME * q + a;
    var c, d := a / PRIME, b / PRIME;
    var x, y := a % PRIME, b % PRIME;
    assert a == PRIME * c + x && b == PRIME * d + y;
    assert PRIME * (d - q - c) == x - y;
  }

  // ---------------------------------------------------------------------
  // How much of the table a probe covers
  // ---------------------------------------------------------------------

  /** Inverses modulo the table size of the jumps that have one... */
  function Inverse(jump: int): int
    requires 1 <= jump <= 16
  {
    [1, 1132770, 755180, 566385, 453108, 377590, 647297, 1415962,
     1762086, 226554, 2059581, 188795, 697089, 1456418, 151036, 707981][jump - 1]
  }

  /** ...and the multiples of the table size by which the products miss 1. */
  function Excess(jump: int): int
    requires 1 <= jump <= 16
  {
    [0, 1, 1, 1, 1, 1, 2, 5, 7, 1, 10, 1, 4, 9, 1, 5][jump - 1]
  }

  lemma InverseWorks(jump: int)
    requires 1 <= jump <= 16
    ensures jump * Inverse(jump) == 1 + PRIME * Excess(jump)
  {
  }

  /** The number of different slots on a probe path. */
  function Reach(jump: int): int {
    if jump == 17 then COFACTOR else PRIME
  }

  /** The slots a probe can look at. */
  predicate OnPath(home: int, jump: int, slot: int) {
    0 <= slot < PRIME && (jump == 17 ==> slot % 17 == home % 17)
  }

  lemma Mod17(a: int, q: int)
    ensures (17 * q + a) % 17 == a % 17
  {
  }

  lemma PathIsOnPath(home: int, jump: int, k: nat)
    requires 1 <= jump <= 17
    ensures OnPath(home, jump, Path(home, jump, k))
  {
    if jump == 17 {
      var a := home + k * 17;
      var q := a / PRIME;
      assert a == PRIME * q + Path(home, jump, k);
      assert Path(home, jump, k) == 17 * (k - COFACTOR * q) + home;
      Mod17(home, k - COFACTOR * q);
    }
  }

  /** A jump below 17 reaches every slot, the jump 17 every slot of its residue class. */
  lemma PathCovers(home: int, jump: int, slot: int) returns (k: nat)
    requires 0 <= home < PRIME && 1 <= jump <= 17 && OnPath(home, jump, slot)
    ensures k < Reach(jump) && Path(home, jump, k) == slot
  {
    if jump == 17 {
      k := ClassCovered(home, slot);
    } else {
      k := AllCovered(home, jump, slot);
    }
  }

  lemma ClassCovered(home: int, slot: int) returns (k: nat)
    requires 0 <= home < PRIME && OnPath(home, 17, slot)
    ensures k < COFACTOR && Path(home, 17, k) == slot
  {
    var u := slot / 17 - home / 17;
    assert slot - home == 17 * u;
    k := u % COFACTOR;
    var c := u / COFACTOR;
    assert u == COFACTOR * c + k;
    assert home + k * 17 == PRIME * (-c) + slot;
    ModShift(slot, -c);
  }

  lemma AllCovered(home: int, jump: int, slot: int) returns (k: nat)
    requires 0 <= home < PRIME && 1 <= jump <= 16 && 0 <= slot < PRIME
    ensures k < PRIME && Path(home, jump, k) == slot
  {
    hide Inverse;
    hide Excess;
    var inv, e := Inverse(jump), Excess(jump);
    InverseWorks(jump);
    var w := (slot - home) * inv;
    k := w % PRIME;
    var c := w / PRIME;
    assert w == PRIME * c + k;
    Solve(home, jump, slot, k, inv, e, c);
    ModShift(slot, (slot - home) * e - c * jump);
  }

  lemma Solve(home: int, jump: int, slot: int, k: int, inv: int, e: int, c: int)
    requires jump * inv == 1 + PRIME * e && (slot - home) * inv == PRIME * c + k
    ensures home + k * jump == PRIME * ((slot - home) * e - c * jump) + slot
  {
    var d := slot - home;
    calc {
      home + k * jump;
      home + (d * inv - PRIME * c) * jump;
      home + d * inv * jump - PRIME * c * jump;
      { assert d * inv * jump == d * (jump * inv); }
      home + d * (1 + PRIME * e) - PRIME * c * jump;
      { assert d * (1 + PRIME * e) == d + PRIME * (d * e); }
      home + d + PRIME * (d * e) - PRIME * (c * jump);
      PRIME * (d * e - c * jump) + slot;
    }
  }

  /** Within one turn no slot is looked at twice, so a path has exactly `Reach` slots. */
  lemma PathIsInjective(home: int, jump: int, a: nat, b: nat)
    requires 1 <= jump <= 17 && a <= b < Reach(jump) && Path(home, jump, a) == Path(home, jump, b)
    ensures a == b
  {
    var x, y := home + a * jump, home + b * jump;
    var m := y / PRIME - x / PRIME;
    assert x == PRIME * (x / PRIME) + x % PRIME && y == PRIME * (y / PRIME) + y % PRIME;
    assert y - x == PRIME * m;
    assert y - x == (b - a) * jump by { assert b * jump - a * jump == (b - a) * jump; }
    if jump == 17 {
      assert (b - a) * 17 == 17 * (COFACTOR * m);
      Bounded(b - a, COFACTOR, m);
    } else {
      InverseWorks(jump);
      Cancel(b - a, jump, m, Inverse(jump), Excess(jump));
    }
  }

  lemma Cancel(d: int, jump: int, m: int, inv: int, e: int)
    requires 0 <= d < PRIME && d * jump == PRIME * m && jump * inv == 1 + PRIME * e
    ensures d == 0
  {
    calc {
      d;
      d * (jump * inv) - d * (PRIME * e);
      { assert d * (jump * inv) == (d * jump) * inv && d * (PRIME * e) == PRIME * (d * e); }
      (PRIME * m) * inv - PRIME * (d * e);
      { assert (PRIME * m) * inv == PRIME * (m * inv); }
      PRIME * (m * inv - d * e);
    }
    Bounded(d, PRIME, m * inv - d * e);
  }

  lemma Bounded(d: int, n: int, m: int)
    requires 0 <= d < n && d == n * m
    ensures d == 0
  {
    assert m >= 1 ==> n * m >= n;
    assert m <= -1 ==> n * m <= -n;
  }

  // ---------------------------------------------------------------------
  // The table
  // ---------------------------------------------------------------------

  /** Round `k` of the probe for `d` finds its end: an empty slot or the digram. */
  ghost predicate Stops(slots: seq<Slot>, dig: map<Ptr, Digram>, d: Digram, k: nat)
    requires |slots| == PRIME
  {
    var m := slots[Path(Home(d), Jump(d), k)];
    m.Empty? || (m.Stored? && m.p in dig && dig[m.p] == d)
  }

  ghost predicate Ends(slots: seq<Slot>, dig: map<Ptr, Digram>, d: Digram)
    requires |slots| == PRIME
  {
    exists k :: Stops(slots, dig, d, k)
  }

  /** A probe ends exactly when one of the slots it can reach is empty or holds the
      digram. */
  lemma EndsIff(slots: seq<Slot>, dig: map<Ptr, Digram>, d: Digram)
    requires |slots| == PRIME
    ensures Ends(slots, dig, d) <==>
      exists i :: OnPath(Home(d), Jump(d), i)
        && (slots[i].Empty? || (slots[i].Stored? && slots[i].p in dig && dig[slots[i].p] == d))
  {
    if Ends(slots, dig, d) {
      var k :| Stops(slots, dig, d, k);
      PathIsOnPath(Home(d), Jump(d), k);
    }
    if exists i :: OnPath(Home(d), Jump(d), i)
                   && (slots[i].Empty? || (slots[i].Stored? && slots[i].p in dig && dig[slots[i].p] == d))
    {
      var i :| OnPath(Home(d), Jump(d), i)
               && (slots[i].Empty? || (slots[i].Stored? && slots[i].p in dig && dig[slots[i].p] == d));
      var k := PathCovers(Home(d), Jump(d), i);
      assert Stops(slots, dig, d, k);
    }
  }

  // ---------------------------------------------------------------------
  // Probes end while the table is sparse
  // ---------------------------------------------------------------------

  /** The slots that are not empty. */
  ghost function Taken(slots: seq<Slot>): set<int> {
    set i | 0 <= i < |slots| && !slots[i].Empty?
  }

  /** The slots of the first `n` rounds. */
  ghost function Visited(home: int, jump: int, n: nat): set<int> {
    set k | 0 <= k < n :: Path(home, jump, k)
  }

  lemma {:induction false} VisitedSize(home: int, jump: int, n: nat)
    requires 1 <= jump <= 17 && n <= Reach(jump)
    ensures |Visited(home, jump, n)| == n
  {
    hide Path;
    if n == 0 {
      assert Visited(home, jump, 0) == {};
    } else {
      VisitedSize(home, jump, n - 1);
      var last := Path(home, jump, n - 1);
      forall k | 0 <= k < n - 1 ensures Path(home, jump, k) != last {
        if Path(home, jump, k) == last { PathIsInjective(home, jump, k, n - 1); }
      }
      assert Visited(home, jump, n) == Visited(home, jump, n - 1) + {last};
    }
  }

  lemma {:induction false} SubsetIsSmaller<T>(a: set<T>, b: set<T>)
    requires a <= b
    ensures |a| <= |b|
  {
    if a != {} {
      var x :| x in a;
      SubsetIsSmaller(a - {x}, b - {x});
    }
  }

  /** With fewer slots taken than a path has, the path has an empty one. */
  lemma SparseEnds(slots: seq<Slot>, dig: map<Ptr, Digram>, d: Digram)
    requires |slots| == PRIME && |Taken(slots)| < Reach(Jump(d))
    ensures Ends(slots, dig, d)
  {
    hide Path;
    var n := Reach(Jump(d));
    VisitedSize(Home(d), Jump(d), n);
    if Visited(Home(d), Jump(d), n) <= Taken(slots) {
      SubsetIsSmaller(Visited(Home(d), Jump(d), n), Taken(slots));
    }
    var i :| i in Visited(Home(d), Jump(d), n) && i !in Taken(slots);
    var k :| 0 <= k < n && Path(Home(d), Jump(d), k) == i;
    assert Stops(slots, dig, d, k);
  }

  /** A write takes at most one more slot, a tombstone over a symbol none. */
  lemma TakenAfter(slots: seq<Slot>, i: int, m: Slot)
    requires 0 <= i < |slots|
    ensures |Taken(slots[i := m])| <= |Taken(slots)| + 1
    ensures !slots[i].Empty? ==> |Taken(slots[i := m])| <= |Taken(slots)|
  {
    SubsetIsSmaller(Taken(slots[i := m]), Taken(slots) + {i});
    if !slots[i].Empty? { assert Taken(slots) + {i} == Taken(slots); }
  }

  // ---------------------------------------------------------------------
  // What a probe returns
  // ---------------------------------------------------------------------

  ghost predicate FirstStop(slots: seq<Slot>, dig: map<Ptr, Digram>, d: Digram, k: nat)
    requires |slots| == PRIME
  {
    Stops(slots, dig, d, k) && forall j :: 0 <= j < k ==> !Stops(slots, dig, d, j)
  }

  lemma {:induction false} StopIsFirst(slots: seq<Slot>, dig: map<Ptr, Digram>, d: Digram, k: nat, n: nat)
    returns (first: nat)
    requires |slots| == PRIME && k <= n && Stops(slots, dig, d, n)
    requires forall j :: 0 <= j < k ==> !Stops(slots, dig, d, j)
    ensures FirstStop(slots, dig, d, first)
    decreases n - k
  {
    hide Stops;
    if Stops(slots, dig, d, k) {
      first := k;
    } else {
      first := StopIsFirst(slots, dig, d, k + 1, n);
    }
  }

  /** The last tombstone met before round `k`, or -1. */
  ghost function LastTombstone(slots: seq<Slot>, d: Digram, k: nat): (i: int)
    requires |slots| == PRIME
    ensures -1 <= i < PRIME
  {
    if k == 0 then -1
    else if slots[Path(Home(d), Jump(d), k - 1)].Tombstone? then Path(Home(d), Jump(d), k - 1)
    else LastTombstone(slots, d, k - 1)
  }

  /** The slot of the digram, or else the last tombstone on the way to the first empty slot,
      or that slot itself. */
  ghost predicate Returned(slots: seq<Slot>, dig: map<Ptr, Digram>, d: Digram, k: nat, i: int)
    requires |slots| == PRIME
  {
    && FirstStop(slots, dig, d, k)
    && var end, spare := Path(Home(d), Jump(d), k), LastTombstone(slots, d, k);
    && i == if slots[end].Stored? || spare == -1 then end else spare
  }

  /** Slot `i` holds a symbol, and its probe meets no empty slot on the way there. */
  ghost predicate Reached(slots: seq<Slot>, dig: map<Ptr, Digram>, i: int, k: nat)
    requires |slots| == PRIME && 0 <= i < PRIME
  {
    && slots[i].Stored? && slots[i].p in dig
    && var d := dig[slots[i].p];
    && Path(Home(d), Jump(d), k) == i
    && forall j :: 0 <= j < k ==> !slots[Path(Home(d), Jump(d), j)].Empty?
  }

  ghost predicate StoredOk(slots: seq<Slot>, dig: map<Ptr, Digram>, contents: map<Digram, Ptr>, i: int)
    requires |slots| == PRIME && 0 <= i < PRIME
  {
    slots[i].Stored? ==>
      && slots[i].p in dig
      && dig[slots[i].p] in contents && contents[dig[slots[i].p]] == slots[i].p
      && exists k :: Reached(slots, dig, i, k)
  }

  ghost predicate HeldAt(slots: seq<Slot>, dig: map<Ptr, Digram>, contents: map<Digram, Ptr>, d: Digram, i: int)
    requires |slots| == PRIME && d in contents
  {
    0 <= i < PRIME && slots[i] == Stored(contents[d]) && contents[d] in dig && dig[contents[d]] == d
  }

  /** The slots hold exactly the finite map `contents`, every digram once. */
  ghost predicate Holds(slots: seq<Slot>, dig: map<Ptr, Digram>, contents: map<Digram, Ptr>) {
    && |slots| == PRIME
    && (forall i {:trigger StoredOk(slots, dig, contents, i)} :: 0 <= i < PRIME ==> StoredOk(slots, dig, contents, i))
    && (forall d :: d in contents ==> exists i :: HeldAt(slots, dig, contents, d, i))
    && (forall i, j :: 0 <= i < j < PRIME && slots[i].Stored? && slots[j].Stored? ==> slots[i] != slots[j])
  }

  /** What `find_digram` returns: the slot of the digram if it is stored, else a free
      slot that a later probe for it reaches before any empty one. */
  ghost predicate Found(slots: seq<Slot>, dig: map<Ptr, Digram>, contents: map<Digram, Ptr>, d: Digram, i: int, k: nat)
    requires |slots| == PRIME
  {
    && i == Path(Home(d), Jump(d), k)
    && (forall j :: 0 <= j < k ==> !slots[Path(Home(d), Jump(d), j)].Empty?)
    && (d in contents ==> slots[i] == Stored(contents[d]))
    && (d !in contents ==> !slots[i].Stored?)
  }

  /** An empty slot before the digram was met: it is not stored. */
  lemma NotStored(slots: seq<Slot>, dig: map<Ptr, Digram>, contents: map<Digram, Ptr>, d: Digram, k: nat)
    requires Holds(slots, dig, contents) && slots[Path(Home(d), Jump(d), k)].Empty?
    requires forall j :: 0 <= j < k ==> !Stops(slots, dig, d, j)
    ensures d !in contents
  {
    if d in contents {
      var i :| HeldAt(slots, dig, contents, d, i);
      assert StoredOk(slots, dig, contents, i);
      var r :| Reached(slots, dig, i, r);
      assert Stops(slots, dig, d, r);
      assert false;
    }
  }

  lemma StoredIsHeld(slots: seq<Slot>, dig: map<Ptr, Digram>, contents: map<Digram, Ptr>, i: int)
    requires Holds(slots, dig, contents) && 0 <= i < PRIME && slots[i].Stored?
    ensures slots[i].p in dig && dig[slots[i].p] in contents && contents[dig[slots[i].p]] == slots[i].p
  {
    assert StoredOk(slots, dig, contents, i);
  }

  lemma FoundAt(slots: seq<Slot>, dig: map<Ptr, Digram>, contents: map<Digram, Ptr>, d: Digram, r: nat, k: nat)
    requires |slots| == PRIME && r <= k && forall j :: 0 <= j < k ==> !Stops(slots, dig, d, j)
    requires var m := slots[Path(Home(d), Jump(d), r)]; if d in contents then m == Stored(contents[d]) else !m.Stored?
    ensures Found(slots, dig, contents, d, Path(Home(d), Jump(d), r), r)
  {
    forall j | 0 <= j < r ensures !slots[Path(Home(d), Jump(d), j)].Empty? {
      assert !Stops(slots, dig, d, j);
    }
  }

  lemma {:induction false} TombstoneRound(slots: seq<Slot>, d: Digram, k: nat) returns (r: nat)
    requires |slots| == PRIME && LastTombstone(slots, d, k) != -1
    ensures r < k && Path(Home(d), Jump(d), r) == LastTombstone(slots, d, k)
    ensures slots[Path(Home(d), Jump(d), r)].Tombstone?
  {
    hide Path;
    if slots[Path(Home(d), Jump(d), k - 1)].Tombstone? {
      r := k - 1;
    } else {
      r := TombstoneRound(slots, d, k - 1);
    }
  }

  /** A table that holds a map returns what the map says. */
  lemma ReturnedIsFound(slots: seq<Slot>, dig: map<Ptr, Digram>, contents: map<Digram, Ptr>, d: Digram, k: nat, i: int)
    returns (r: nat)
    requires |slots| == PRIME && Holds(slots, dig, contents) && Returned(slots, dig, d, k, i)
    ensures 0 <= i < PRIME && Found(slots, dig, contents, d, i, r)
  {
    hide Holds, Found, LastTombstone, Path;
    var end := Path(Home(d), Jump(d), k);
    if slots[end].Stored? {
      StoredIsHeld(slots, dig, contents, end);
      r := k;
    } else {
      NotStored(slots, dig, contents, d, k);
      r := k;
      if LastTombstone(slots, d, k) != -1 { r := TombstoneRound(slots, d, k); }
    }
    FoundAt(slots, dig, contents, d, r, k);
  }

  /** Slots that are not empty stay not empty, so every stored symbol stays in reach. */
  lemma StillReached(slots: seq<Slot>, slots': seq<Slot>, dig: map<Ptr, Digram>, i: int)
    requires |slots| == PRIME && |slots'| == PRIME && 0 <= i < PRIME && slots[i] == slots'[i]
    requires forall j :: 0 <= j < PRIME && !slots[j].Empty? ==> !slots'[j].Empty?
    requires exists k :: Reached(slots, dig, i, k)
    ensures exists k :: Reached(slots', dig, i, k)
  {
    var k :| Reached(slots, dig, i, k);
    assert Reached(slots', dig, i, k);
  }

  /** `*find_digram(x) = x`: a finite-map update. */
  lemma RecordHolds(slots: seq<Slot>, dig: map<Ptr, Digram>, contents: map<Digram, Ptr>, x: Ptr, i: int, k: nat)
    requires Holds(slots, dig, contents) && x in dig && 0 <= i < PRIME && Found(slots, dig, contents, dig[x], i, k)
    ensures Holds(slots[i := Stored(x)], dig, contents[dig[x] := x])
  {
    var d := dig[x];
    var slots', contents' := slots[i := Stored(x)], contents[d := x];
    forall j | 0 <= j < PRIME ensures StoredOk(slots', dig, contents', j) {
      if j == i {
        assert Reached(slots', dig, i, k);
      } else if slots[j].Stored? {
        assert StoredOk(slots, dig, contents, j);
        StillReached(slots, slots', dig, j);
      }
    }
    forall c | c in contents' ensures exists j :: HeldAt(slots', dig, contents', c, j) {
      if c == d {
        assert HeldAt(slots', dig, contents', d, i);
      } else {
        var j :| HeldAt(slots, dig, contents, c, j);
        assert HeldAt(slots', dig, contents', c, j);
      }
    }
    forall j | 0 <= j < PRIME && j != i && slots[j].Stored? ensures slots[j] != Stored(x) {
      StoredIsHeld(slots, dig, contents, j);
    }
  }

  /** A tombstone over the symbol of digram `d`: a finite-map deletion. */
  lemma ForgetHolds(slots: seq<Slot>, dig: map<Ptr, Digram>, contents: map<Digram, Ptr>, d: Digram, i: int)
    requires Holds(slots, dig, contents) && 0 <= i < PRIME && d in contents && slots[i] == Stored(contents[d])
    ensures Holds(slots[i := Tombstone], dig, contents - {d})
  {
    var slots', contents' := slots[i := Tombstone], contents - {d};
    StoredIsHeld(slots, dig, contents, i);
    var h :| HeldAt(slots, dig, contents, d, h);
    forall j | 0 <= j < PRIME ensures StoredOk(slots', dig, contents', j) {
      if j != i && slots[j].Stored? {
        assert StoredOk(slots, dig, contents, j);
        StillReached(slots, slots', dig, j);
      }
    }
    forall c | c in contents' ensures exists j :: HeldAt(slots', dig, contents', c, j) {
      var j :| HeldAt(slots, dig, contents, c, j);
      assert HeldAt(slots', dig, contents', c, j);
    }
  }

  /** Symbols that are not stored may change their digram freely. */
  lemma HoldsFrame(slots: seq<Slot>, dig: map<Ptr, Digram>, dig': map<Ptr, Digram>, contents: map<Digram, Ptr>)
    requires Holds(slots, dig, contents)
    requires forall d :: d in contents ==> contents[d] in dig' && dig'[contents[d]] == d
    ensures Holds(slots, dig', contents)
  {
    hide Path;
    forall i | 0 <= i < PRIME ensures StoredOk(slots, dig', contents, i) {
      assert StoredOk(slots, dig, contents, i);
      if slots[i].Stored? {
        var k :| Reached(slots, dig, i, k);
        assert Reached(slots, dig', i, k);
      }
    }
    forall d | d in contents ensures exists i :: HeldAt(slots, dig', contents, d, i) {
      var i :| HeldAt(slots, dig, contents, d, i);
      assert HeldAt(slots, dig', contents, d, i);
    }
  }

  class ProbeTable {
    var table: array<Slot>
    ghost var contents: map<Digram, Ptr>

    ghost predicate Valid(dig: map<Ptr, Digram>)
      reads this, table
    {
      table.Length == PRIME && Holds(table[..], dig, contents)
    }

    constructor ()
      ensures forall dig :: Valid(dig)
      ensures contents == map[] && fresh(table)
    {
      table := new Slot[PRIME](_ => Empty);
      contents := map[];
      new;
      forall dig ensures Holds(table[..], dig, contents) {
        forall i | 0 <= i < PRIME ensures StoredOk(table[..], dig, contents, i) {}
      }
    }

    /** `find_digram`. */
    method Find(d: Digram, dig: map<Ptr, Digram>) returns (slot: int, ghost round: nat)
      requires Valid(dig) && Ends(table[..], dig, d)
      ensures 0 <= slot < PRIME && Found(table[..], dig, contents, d, slot, round)
      ensures exists k :: Returned(table[..], dig, d, k, slot)
    {
      hide Holds; hide Found; hide Jump; hide Home; hide Path;
      PathStart(Home(d), Jump(d));
      var jump := Jump(d);
      var insert := -1;
      ghost var insertRound: nat := 0;
      var i := Home(d);
      ghost var k: nat := 0;
      ghost var last: nat :| Stops(table[..], dig, d, last);
      while true
        invariant 0 <= i < PRIME && i == Path(Home(d), jump, k) && k <= last
        invariant forall j :: 0 <= j < k ==> !Stops(table[..], dig, d, j)
        invariant insert == LastTombstone(table[..], d, k)
        invariant insert != -1 ==>
          && 0 <= insert < PRIME && insertRound < k
          && insert == Path(Home(d), jump, insertRound) && table[insert].Tombstone?
        decreases last - k
      {
        var m := table[i];
        if m.Empty? {
          NotStored(table[..], dig, contents, d, k);
          if insert == -1 {
            insert, insertRound := i, k;
          }
          assert Returned(table[..], dig, d, k, insert);
          FoundAt(table[..], dig, contents, d, insertRound, k);
          return insert, insertRound;
        }
        if m.Tombstone? {
          insert, insertRound := i, k;
        } else {
          StoredIsHeld(table[..], dig, contents, i);
          if dig[m.p] == d {
            assert Returned(table[..], dig, d, k, i);
            FoundAt(table[..], dig, contents, d, k, k);
            return i, k;
          }
        }
        PathStep(Home(d), jump, k);
        i := (i + jump) % PRIME;
        k := k + 1;
      }
    }

    /** `*find_digram(x) = x`. */
    method Record(x: Ptr, dig: map<Ptr, Digram>)
      requires x in dig && Valid(dig) && Ends(table[..], dig, dig[x])
      modifies this`contents, table
      ensures Valid(dig) && contents == old(contents)[dig[x] := x]
      ensures |Taken(table[..])| <= |Taken(old(table[..]))| + 1
    {
      hide Taken;
      var i, k := Find(dig[x], dig);
      TakenAfter(table[..], i, Stored(x));
      RecordHolds(table[..], dig, contents, x, i, k);
      ghost var slots := table[..];
      table[i] := Stored(x);
      contents := contents[dig[x] := x];
      assert table[..] == slots[i := Stored(x)];
    }

    /** The table part of `delete_digram`: the entry of the digram goes if it is `x`. */
    method Remove(x: Ptr, dig: map<Ptr, Digram>)
      requires x in dig && Valid(dig) && Ends(table[..], dig, dig[x])
      modifies this`contents, table
      ensures Valid(dig)
      ensures contents ==
        if dig[x] in old(contents) && old(contents)[dig[x]] == x then old(contents) - {dig[x]} else old(contents)
      ensures |Taken(table[..])| <= |Taken(old(table[..]))|
    {
      hide Taken;
      var i, k := Find(dig[x], dig);
      if table[i] == Stored(x) {
        TakenAfter(table[..], i, Tombstone);
        StoredIsHeld(table[..], dig, contents, i);
        ForgetHolds(table[..], dig, contents, dig[x], i);
        ghost var slots := table[..];
        table[i] := Tombstone;
        contents := contents - {dig[x]};
        assert table[..] == slots[i := Tombstone];
      }
    }
  }
}
