/**
  Flattening a grammar into numbered rules with offset tables, and restoring its text
  from them.
 */
module RuleStore {
  import opened Grammar

  datatype Unit = Unit(index: nat, offset: nat)

  datatype RuleData = RuleData(table: seq<Unit>, symbols: seq<int>)

  /** Stands in the symbol array where a rule is used. It may also occur as text. */
  const PLACEHOLDER: int := 36

  // ---------------------------------------------------------------------
  // What a flattened rule looks like
  // ---------------------------------------------------------------------

  /** `index` gives every rule used in the first `n` symbols a number. */
  ghost predicate Numbered(ks: seq<Key>, n: nat, index: map<RuleId, nat>) {
    n <= |ks| && forall i :: 0 <= i < n && ks[i].Rule? ==> ks[i].r in index
  }

  ghost function TableOf(ks: seq<Key>, n: nat, index: map<RuleId, nat>): seq<Unit>
    requires Numbered(ks, n, index)
  {
    if n == 0 then []
    else TableOf(ks, n - 1, index) + if ks[n - 1].Rule? then [Unit(index[ks[n - 1].r], n - 1)] else []
  }

  ghost function SymbolOf(k: Key): int {
    if k.Terminal? then k.c else PLACEHOLDER
  }

  ghost predicate SymbolsMatch(ks: seq<Key>, symbols: seq<int>) {
    |symbols| <= |ks| && forall i :: 0 <= i < |symbols| ==> symbols[i] == SymbolOf(ks[i])
  }

  lemma {:induction false} TableAgrees(ks: seq<Key>, n: nat, a: map<RuleId, nat>, b: map<RuleId, nat>)
    requires Numbered(ks, n, a) && Numbered(ks, n, b)
    requires forall i :: 0 <= i < n && ks[i].Rule? ==> a[ks[i].r] == b[ks[i].r]
    ensures TableOf(ks, n, a) == TableOf(ks, n, b)
  {
    if n > 0 { TableAgrees(ks, n - 1, a, b); }
  }

  lemma {:induction false} TablePrefix(ks: seq<Key>, m: nat, n: nat, index: map<RuleId, nat>)
    requires Numbered(ks, n, index) && m <= n
    ensures TableOf(ks, m, index) <= TableOf(ks, n, index)
  {
    if m < n { TablePrefix(ks, m, n - 1, index); }
  }

  /** The next table entry tells whether symbol `j` is a rule. */
  lemma TableDecides(ks: seq<Key>, j: nat, index: map<RuleId, nat>)
    requires Numbered(ks, |ks|, index) && j < |ks|
    ensures var table, k := TableOf(ks, |ks|, index), |TableOf(ks, j, index)|;
      && (ks[j].Rule? <==> k < |table| && table[k].offset == j)
      && (ks[j].Rule? ==> table[k].index == index[ks[j].r])
  {
    var table, k := TableOf(ks, |ks|, index), |TableOf(ks, j, index)|;
    TablePrefix(ks, j + 1, |ks|, index);
    if ks[j].Rule? {
      assert TableOf(ks, j + 1, index)[k] == table[k];
    } else if k < |table| {
      LaterOffsets(ks, j + 1, |ks|, index, k);
    }
  }

  lemma {:induction false} LaterOffsets(ks: seq<Key>, m: nat, n: nat, index: map<RuleId, nat>, k: nat)
    requires Numbered(ks, n, index) && m <= n && |TableOf(ks, m, index)| <= k < |TableOf(ks, n, index)|
    ensures TableOf(ks, n, index)[k].offset >= m
  {
    if m < n && k < |TableOf(ks, n - 1, index)| { LaterOffsets(ks, m, n - 1, index, k); }
  }

  // ---------------------------------------------------------------------
  // Reachable rules
  // ---------------------------------------------------------------------

  ghost predicate Reach(g: Productions, rank: map<RuleId, nat>, a: RuleId, b: RuleId)
    requires Ranked(g, rank) && a in g
    decreases rank[a]
  {
    a == b || exists i :: 0 <= i < |g[a]| && g[a][i].Rule? && Reach(g, rank, g[a][i].r, b)
  }

  /** A closed set of rules contains what its members reach. */
  lemma {:induction false} ClosedReaches(g: Productions, rank: map<RuleId, nat>, rs: seq<RuleId>, a: RuleId, b: RuleId)
    requires Ranked(g, rank) && a in g && a in rs && Reach(g, rank, a, b)
    requires forall q, i :: q in rs && q in g && 0 <= i < |g[q]| && g[q][i].Rule? ==> g[q][i].r in rs
    ensures b in rs
    decreases rank[a]
  {
    if a != b {
      var i :| 0 <= i < |g[a]| && g[a][i].Rule? && Reach(g, rank, g[a][i].r, b);
      ClosedReaches(g, rank, rs, g[a][i].r, b);
    }
  }

  // ---------------------------------------------------------------------
  // The store while rules are being discovered
  // ---------------------------------------------------------------------

  /** `index` is that field of every rule, zero until the rule is discovered; `found`
      lists the rules in the order of discovery; `data` is the rule array. */
  datatype Store = Store(index: map<RuleId, nat>, found: seq<RuleId>, data: map<nat, RuleData>)

  /** Discovered rules carry their place in `found`; all others carry zero. */
  ghost predicate Ok(g: Productions, st: Store) {
    && (forall i :: 0 <= i < |st.found| ==> st.found[i] in g && st.found[i] in st.index && st.index[st.found[i]] == i)
    && (forall q :: q in g ==> q in st.index && (q in st.found || st.index[q] == 0))
    && (forall k :: k in st.data ==> k < |st.found|)
  }

  ghost predicate RefsFound(ks: seq<Key>, n: nat, found: seq<RuleId>) {
    n <= |ks| && forall i :: 0 <= i < n && ks[i].Rule? ==> ks[i].r in found
  }

  ghost predicate Describes(ks: seq<Key>, index: map<RuleId, nat>, d: RuleData) {
    && Numbered(ks, |ks|, index) && d.table == TableOf(ks, |ks|, index)
    && |d.symbols| == |ks| && SymbolsMatch(ks, d.symbols)
  }

  /** The rule is written out, and so is or will be everything it uses. */
  ghost predicate Done(g: Productions, st: Store, q: RuleId) {
    && q in g && q in st.found && q in st.index && RefsFound(g[q], |g[q]|, st.found)
    && st.index[q] in st.data && Describes(g[q], st.index, st.data[st.index[q]])
  }

  ghost predicate Grows(st: Store, st': Store) {
    st.found <= st'.found && forall k :: k in st.data ==> k in st'.data && st'.data[k] == st.data[k]
  }

  /** Rules found from place `m` on are done and used, directly or not, by `r`. */
  ghost predicate NewDone(g: Productions, rank: map<RuleId, nat>, st: Store, r: RuleId, m: nat)
    requires Ranked(g, rank) && r in g
  {
    forall x :: m <= x < |st.found| ==> Done(g, st, st.found[x]) && Reach(g, rank, r, st.found[x])
  }

  lemma GrowsKeepsIndex(g: Productions, st: Store, st': Store, q: RuleId)
    requires Ok(g, st) && Ok(g, st') && Grows(st, st') && q in st.found
    ensures q in st'.found && q in st.index && q in st'.index && st'.index[q] == st.index[q]
  {
    var i :| 0 <= i < |st.found| && st.found[i] == q;
    assert st'.found[i] == q;
  }

  lemma TableStays(g: Productions, st: Store, st': Store, ks: seq<Key>, n: nat)
    requires Ok(g, st) && Ok(g, st') && Grows(st, st') && RefsFound(ks, n, st.found)
    ensures RefsFound(ks, n, st'.found) && Numbered(ks, n, st.index) && Numbered(ks, n, st'.index)
    ensures TableOf(ks, n, st.index) == TableOf(ks, n, st'.index)
  {
    forall i | 0 <= i < n && ks[i].Rule?
      ensures ks[i].r in st'.found && ks[i].r in st.index && ks[i].r in st'.index
      ensures st'.index[ks[i].r] == st.index[ks[i].r]
    {
      GrowsKeepsIndex(g, st, st', ks[i].r);
    }
    TableAgrees(ks, n, st.index, st'.index);
  }

  lemma DoneStays(g: Productions, st: Store, st': Store, q: RuleId)
    requires Ok(g, st) && Ok(g, st') && Grows(st, st') && Done(g, st, q)
    ensures Done(g, st', q)
  {
    GrowsKeepsIndex(g, st, st', q);
    TableStays(g, st, st', g[q], |g[q]|);
  }

  lemma NewDoneStays(g: Productions, rank: map<RuleId, nat>, st: Store, st': Store, r: RuleId, m: nat)
    requires Ranked(g, rank) && r in g && Ok(g, st) && Ok(g, st') && Grows(st, st')
    requires NewDone(g, rank, st, r, m) && NewDone(g, rank, st', r, |st.found|)
    ensures NewDone(g, rank, st', r, m)
  {
    hide Ok;
    hide Done;
    hide Reach;
    forall x | m <= x < |st'.found| ensures Done(g, st', st'.found[x]) && Reach(g, rank, r, st'.found[x]) {
      if x < |st.found| {
        assert st.found[x] == st'.found[x];
        DoneStays(g, st, st', st.found[x]);
      }
    }
  }

  /** What the loop of `discover` over the symbols of `r` keeps; `m` is the number of `r`. */
  ghost predicate Scanning(g: Productions, rank: map<RuleId, nat>, st0: Store, st: Store, r: RuleId, i: nat,
                           table: seq<Unit>, symbols: seq<int>)
    requires Ranked(g, rank) && r in g
  {
    && Ok(g, st) && Grows(st0, st) && st0.found + [r] <= st.found
    && NewDone(g, rank, st, r, |st0.found| + 1)
    && RefsFound(g[r], i, st.found) && Numbered(g[r], i, st.index) && table == TableOf(g[r], i, st.index)
    && |symbols| == i && SymbolsMatch(g[r], symbols)
    && (forall k :: k in st.data ==> k != |st0.found|)
  }

  lemma ScanStarts(g: Productions, rank: map<RuleId, nat>, st: Store, r: RuleId)
    requires Ranked(g, rank) && r in g && Ok(g, st) && r !in st.found
    ensures Scanning(g, rank, st, Store(st.index[r := |st.found|], st.found + [r], st.data), r, 0, [], [])
  {
  }

  lemma ScanTerminal(g: Productions, rank: map<RuleId, nat>, st0: Store, st: Store, r: RuleId, i: nat,
                     table: seq<Unit>, symbols: seq<int>)
    requires Ranked(g, rank) && r in g && Scanning(g, rank, st0, st, r, i, table, symbols)
    requires i < |g[r]| && g[r][i].Terminal?
    ensures Scanning(g, rank, st0, st, r, i + 1, table, symbols + [g[r][i].c])
  {
    hide Ok;
    hide NewDone;
  }

  lemma ScanRule(g: Productions, rank: map<RuleId, nat>, st0: Store, st: Store, r: RuleId, i: nat,
                 table: seq<Unit>, symbols: seq<int>)
    requires Ranked(g, rank) && r in g && Scanning(g, rank, st0, st, r, i, table, symbols)
    requires i < |g[r]| && g[r][i].Rule? && g[r][i].r in st.found
    ensures g[r][i].r in st.index
    ensures Scanning(g, rank, st0, st, r, i + 1, table + [Unit(st.index[g[r][i].r], i)], symbols + [PLACEHOLDER])
  {
    hide NewDone;
  }

  /** A rule with number zero has not been discovered: it cannot be the first rule,
      because the grammar has no cycle. */
  lemma ZeroIsNew(g: Productions, rank: map<RuleId, nat>, st0: Store, st: Store, r: RuleId, i: nat,
                  table: seq<Unit>, symbols: seq<int>)
    requires Ranked(g, rank) && r in g && Scanning(g, rank, st0, st, r, i, table, symbols)
    requires st0.found != [] ==> st0.found[0] in g && rank[st0.found[0]] > rank[r]
    requires i < |g[r]| && g[r][i].Rule?
    ensures st.found != [] && st.found[0] in g && g[r][i].r in st.index && rank[st.found[0]] > rank[g[r][i].r]
    ensures st.index[g[r][i].r] == 0 <==> g[r][i].r !in st.found
  {
    hide NewDone;
    assert (st0.found + [r])[0] == st.found[0];
  }

  lemma ScanCalled(g: Productions, rank: map<RuleId, nat>, st0: Store, st: Store, st': Store, r: RuleId, i: nat,
                   table: seq<Unit>, symbols: seq<int>)
    requires Ranked(g, rank) && r in g && Scanning(g, rank, st0, st, r, i, table, symbols)
    requires i < |g[r]| && g[r][i].Rule? && Ok(g, st') && Grows(st, st') && st.found + [g[r][i].r] <= st'.found
    requires NewDone(g, rank, st', g[r][i].r, |st.found|)
    requires forall k :: k in st'.data ==> k in st.data || k >= |st.found|
    ensures Scanning(g, rank, st0, st', r, i, table, symbols) && g[r][i].r in st'.found
  {
    hide Ok;
    hide Done;
    hide Describes;
    var q := g[r][i].r;
    assert NewDone(g, rank, st', r, |st.found|) by {
      forall x | |st.found| <= x < |st'.found| ensures Reach(g, rank, r, st'.found[x]) {
        assert Reach(g, rank, q, st'.found[x]);
      }
    }
    NewDoneStays(g, rank, st, st', r, |st0.found| + 1);
    TableStays(g, st, st', g[r], i);
    assert (st.found + [q])[|st.found|] == q;
    assert st.found <= st'.found;
  }

  lemma ScanEnds(g: Productions, rank: map<RuleId, nat>, st0: Store, st: Store, r: RuleId, table: seq<Unit>,
                 symbols: seq<int>)
    requires Ranked(g, rank) && r in g && Scanning(g, rank, st0, st, r, |g[r]|, table, symbols)
    ensures var st' := st.(data := st.data[|st0.found| := RuleData(table, symbols)]);
      && Ok(g, st') && Grows(st0, st') && st0.found + [r] <= st'.found && NewDone(g, rank, st', r, |st0.found|)
      && forall k :: k in st'.data ==> k in st.data || k == |st0.found|
  {
    hide Reach;
    hide TableOf;
    var st' := st.(data := st.data[|st0.found| := RuleData(table, symbols)]);
    assert (st0.found + [r])[|st0.found|] == r == st.found[|st0.found|];
    forall x | |st0.found| <= x < |st'.found| ensures Done(g, st', st'.found[x]) && Reach(g, rank, r, st'.found[x]) {
      if x == |st0.found| {
        ReachSelf(g, rank, r);
      } else {
        assert Done(g, st, st.found[x]);
        assert st.index[st.found[x]] == x;
      }
    }
  }

  lemma ReachSelf(g: Productions, rank: map<RuleId, nat>, r: RuleId)
    requires Ranked(g, rank) && r in g
    ensures Reach(g, rank, r, r)
  {
  }

  // ---------------------------------------------------------------------
  // discover
  // ---------------------------------------------------------------------

  class Flattener {
    const g: Productions
    ghost const rank: map<RuleId, nat>
    var st: Store

    constructor (g: Productions, ghost rank: map<RuleId, nat>)
      requires Ranked(g, rank)
      ensures this.g == g && this.rank == rank && Ok(g, st) && st.found == [] && st.data == map[]
    {
      this.g, this.rank := g, rank;
      st := Store(map q | q in g :: 0, [], map[]);
    }

    /** Number a rule and everything it uses, depth first, and write them out. */
    method Discover(r: RuleId)
      requires Ranked(g, rank) && r in g && Ok(g, st) && r !in st.found
      requires st.found != [] ==> st.found[0] in g && rank[st.found[0]] > rank[r]
      modifies this
      ensures Ok(g, st) && Grows(old(st), st) && old(st).found + [r] <= st.found
      ensures NewDone(g, rank, st, r, |old(st).found|)
      ensures forall k :: k in st.data ==> k in old(st).data || k >= |old(st).found|
      decreases rank[r]
    {
      hide Ok;
      hide NewDone;
      hide Scanning;
      hide Ranked;
      hide Grows;
      ghost var st0 := st;
      var me := |st.found|;
      ScanStarts(g, rank, st, r);
      st := Store(st.index[r := me], st.found + [r], st.data);
      var symbols: seq<int>, table: seq<Unit> := [], [];
      var i := 0;
      while i < |g[r]|
        invariant 0 <= i <= |g[r]| && Scanning(g, rank, st0, st, r, i, table, symbols)
        invariant forall k :: k in st.data ==> k in st0.data || k >= |st0.found|
        decreases |g[r]| - i
      {
        RankedAt(g, rank, r, i);
        if g[r][i].Rule? {
          var q := g[r][i].r;
          ZeroIsNew(g, rank, st0, st, r, i, table, symbols);
          if st.index[q] == 0 {
            ScanningParts(g, rank, st0, st, r, i, table, symbols);
            ghost var st1 := st;
            Discover(q);
            ScanCalled(g, rank, st0, st1, st, r, i, table, symbols);
          }
          ScanRule(g, rank, st0, st, r, i, table, symbols);
          symbols := symbols + [PLACEHOLDER];
          table := table + [Unit(st.index[q], i)];
        } else {
          ScanTerminal(g, rank, st0, st, r, i, table, symbols);
          symbols := symbols + [g[r][i].c];
        }
        i := i + 1;
      }
      ScanEnds(g, rank, st0, st, r, table, symbols);
      st := st.(data := st.data[me := RuleData(table, symbols)]);
    }
  }

  lemma RankedAt(g: Productions, rank: map<RuleId, nat>, r: RuleId, i: nat)
    requires Ranked(g, rank) && r in g && i < |g[r]|
    ensures !g[r][i].Zero? && r in rank
    ensures g[r][i].Rule? ==> g[r][i].r in g && g[r][i].r in rank && rank[g[r][i].r] < rank[r]
  {
  }

  lemma ScanningParts(g: Productions, rank: map<RuleId, nat>, st0: Store, st: Store, r: RuleId, i: nat,
                      table: seq<Unit>, symbols: seq<int>)
    requires Ranked(g, rank) && r in g && Scanning(g, rank, st0, st, r, i, table, symbols)
    ensures Ok(g, st) && |st.found| > |st0.found|
  {
  }

  /** The numbers 0, 1, ... are given to the rules the root uses, each to one rule, and
      exactly these rules are written out. */
  lemma NumberingIsExact(g: Productions, rank: map<RuleId, nat>, st: Store, root: RuleId)
    requires Ranked(g, rank) && root in g && Ok(g, st) && [root] <= st.found && NewDone(g, rank, st, root, 0)
    ensures forall q :: q in st.found <==> Reach(g, rank, root, q)
    ensures forall i, j :: 0 <= i < j < |st.found| ==> st.found[i] != st.found[j]
    ensures forall k :: k in st.data <==> 0 <= k < |st.found|
    ensures forall k ::
      0 <= k < |st.found| ==> st.found[k] in g && k in st.data && Describes(g[st.found[k]], st.index, st.data[k])
  {
    forall q ensures q in st.found <==> Reach(g, rank, root, q) {
      if Reach(g, rank, root, q) {
        assert forall p, i :: p in st.found && p in g && 0 <= i < |g[p]| && g[p][i].Rule? ==> g[p][i].r in st.found by {
          forall p, i | p in st.found && p in g && 0 <= i < |g[p]| && g[p][i].Rule? ensures g[p][i].r in st.found {
            var x :| 0 <= x < |st.found| && st.found[x] == p;
            assert Done(g, st, st.found[x]);
          }
        }
        assert st.found[0] == root;
        ClosedReaches(g, rank, st.found, root, q);
      }
    }
    forall k | 0 <= k < |st.found| ensures k in st.data && Describes(g[st.found[k]], st.index, st.data[k]) {
      assert Done(g, st, st.found[k]);
    }
  }

  // ---------------------------------------------------------------------
  // restore
  // ---------------------------------------------------------------------

  ghost predicate AllDone(g: Productions, st: Store) {
    Ok(g, st) && forall q :: q in st.found ==> Done(g, st, q)
  }

  /** What remains to be written when the loop of `restore` is at symbol `j`. */
  ghost predicate Remaining(g: Productions, rank: map<RuleId, nat>, r: RuleId, j: nat, written: seq<int>)
    requires Ranked(g, rank) && r in g
  {
    j <= |g[r]| && written + ExpandFrom(g, rank, r, j) == Expand(g, rank, r)
  }

  lemma RemainingRule(g: Productions, rank: map<RuleId, nat>, r: RuleId, j: nat, written: seq<int>)
    requires Ranked(g, rank) && r in g && Remaining(g, rank, r, j, written) && j < |g[r]| && g[r][j].Rule?
    ensures Remaining(g, rank, r, j + 1, written + Expand(g, rank, g[r][j].r))
    ensures |written| + |Expand(g, rank, g[r][j].r)| <= |Expand(g, rank, r)|
  {
    var part := Expand(g, rank, g[r][j].r);
    assert written + (part + ExpandFrom(g, rank, r, j + 1)) == (written + part) + ExpandFrom(g, rank, r, j + 1);
  }

  lemma RemainingTerminal(g: Productions, rank: map<RuleId, nat>, r: RuleId, j: nat, written: seq<int>)
    requires Ranked(g, rank) && r in g && Remaining(g, rank, r, j, written) && j < |g[r]| && g[r][j].Terminal?
    ensures Remaining(g, rank, r, j + 1, written + [g[r][j].c]) && |written| < |Expand(g, rank, r)|
  {
    var part := [g[r][j].c];
    assert written + (part + ExpandFrom(g, rank, r, j + 1)) == (written + part) + ExpandFrom(g, rank, r, j + 1);
  }

  /** What the table says at symbol `j` of a rule that is written out. */
  lemma DoneAt(g: Productions, rank: map<RuleId, nat>, st: Store, r: RuleId, j: nat)
    requires Ranked(g, rank) && AllDone(g, st) && r in st.found && r in g && j < |g[r]|
    ensures r in st.index && st.index[r] in st.data && Numbered(g[r], |g[r]|, st.index)
    ensures var d, k := st.data[st.index[r]], |TableOf(g[r], j, st.index)|;
      && |d.symbols| == |g[r]|
      && (g[r][j].Rule? <==> k < |d.table| && d.table[k].offset == j)
      && (if g[r][j].Rule? then
            var q := g[r][j].r;
            q in g && q in st.found && q in st.index && d.table[k].index == st.index[q] && st.index[q] in st.data
          else g[r][j].Terminal? && d.symbols[j] == g[r][j].c)
      && |TableOf(g[r], j + 1, st.index)| == k + if g[r][j].Rule? then 1 else 0
  {
    assert Done(g, st, r);
    TableDecides(g[r], j, st.index);
    if g[r][j].Rule? { assert Done(g, st, g[r][j].r); }
  }

  /** A buffer after `text` was written into it at `at`. */
  ghost function Overwrite(buffer: seq<int>, at: nat, text: seq<int>): seq<int>
    requires at + |text| <= |buffer|
  {
    buffer[..at] + text + buffer[at + |text|..]
  }

  lemma OverwriteMore(buffer: seq<int>, at: nat, a: seq<int>, b: seq<int>)
    requires at + |a| + |b| <= |buffer|
    ensures Overwrite(Overwrite(buffer, at, a), at + |a|, b) == Overwrite(buffer, at, a + b)
  {
  }

  /** Writes the text of rule `r` at `at`, nothing else, and returns its length, whatever
      characters the text contains. */
  method Restore(dest: array<int>, at: nat, d: RuleData, data: map<nat, RuleData>,
                 ghost g: Productions, ghost rank: map<RuleId, nat>, ghost st: Store, ghost r: RuleId)
    returns (n: nat)
    requires Ranked(g, rank) && AllDone(g, st) && data == st.data
    requires r in g && r in st.found && r in st.index && st.index[r] in data && d == data[st.index[r]]
    requires at + |Expand(g, rank, r)| <= dest.Length
    modifies dest
    ensures n == |Expand(g, rank, r)| && dest[..] == Overwrite(old(dest[..]), at, Expand(g, rank, r))
    decreases rank[r]
  {
    hide AllDone;
    hide Expand;
    hide TableOf;
    hide ExpandFrom;
    hide Ranked;
    hide Overwrite;
    ghost var before := dest[..];
    ghost var written: seq<int> := [];
    var wp := at;
    var j, k := 0, 0;
    RestoreStarts(g, rank, st, r);
    DoneHasAllSymbols(g, st, r);
    OverwriteNothing(before, at);
    while j < |d.symbols|
      invariant 0 <= j <= |g[r]| && Numbered(g[r], |g[r]|, st.index)
      invariant k == |TableOf(g[r], j, st.index)| && Remaining(g, rank, r, j, written)
      invariant wp == at + |written| <= dest.Length && dest[..] == Overwrite(before, at, written)
      decreases |g[r]| - j
    {
      DoneAt(g, rank, st, r, j);
      RankedAt(g, rank, r, j);
      if k < |d.table| && j == d.table[k].offset {
        var index := d.table[k].index;
        RemainingRule(g, rank, r, j, written);
        ghost var q := g[r][j].r;
        var m := Restore(dest, wp, data[index], data, g, rank, st, q);
        OverwriteMore(before, at, written, Expand(g, rank, q));
        written := written + Expand(g, rank, q);
        wp := wp + m;
        k := k + 1;
      } else {
        RemainingTerminal(g, rank, r, j, written);
        OverwriteMore(before, at, written, [g[r][j].c]);
        OverwriteOne(dest[..], wp, g[r][j].c);
        dest[wp] := d.symbols[j];
        written := written + [g[r][j].c];
        wp := wp + 1;
      }
      j := j + 1;
    }
    RestoreEnds(g, rank, r, written);
    return wp - at;
  }

  lemma OverwriteNothing(buffer: seq<int>, at: nat)
    requires at <= |buffer|
    ensures Overwrite(buffer, at, []) == buffer
  {
  }

  lemma OverwriteOne(buffer: seq<int>, at: nat, c: int)
    requires at < |buffer|
    ensures Overwrite(buffer, at, [c]) == buffer[at := c]
  {
  }

  lemma RestoreStarts(g: Productions, rank: map<RuleId, nat>, st: Store, r: RuleId)
    requires Ranked(g, rank) && AllDone(g, st) && r in st.found && r in g
    ensures Remaining(g, rank, r, 0, []) && Numbered(g[r], |g[r]|, st.index) && TableOf(g[r], 0, st.index) == []
  {
    assert Done(g, st, r);
    assert [] + Expand(g, rank, r) == Expand(g, rank, r);
  }

  lemma RestoreEnds(g: Productions, rank: map<RuleId, nat>, r: RuleId, written: seq<int>)
    requires Ranked(g, rank) && r in g && Remaining(g, rank, r, |g[r]|, written)
    ensures written == Expand(g, rank, r)
  {
  }

  lemma DoneHasAllSymbols(g: Productions, st: Store, q: RuleId)
    requires AllDone(g, st) && q in st.found
    ensures q in g && q in st.index && st.index[q] in st.data && |st.data[st.index[q]].symbols| == |g[q]|
  {
    assert Done(g, st, q);
  }

  /** Flattening a grammar from any root and restoring gives the root's expansion. */
  method FlattenAndRestore(g: Productions, ghost rank: map<RuleId, nat>, root: RuleId, dest: array<int>)
    returns (n: nat)
    requires Ranked(g, rank) && root in g && |Expand(g, rank, root)| <= dest.Length
    modifies dest
    ensures n == |Expand(g, rank, root)| && dest[..n] == Expand(g, rank, root)
  {
    var f := new Flattener(g, rank);
    f.Discover(root);
    ghost var st := f.st;
    assert st.found[0] == root;
    FlattenedIsDone(g, rank, st, root);
    n := Restore(dest, 0, f.st.data[0], f.st.data, g, rank, st, root);
  }

  lemma FlattenedIsDone(g: Productions, rank: map<RuleId, nat>, st: Store, root: RuleId)
    requires Ranked(g, rank) && root in g && Ok(g, st) && [root] <= st.found && NewDone(g, rank, st, root, 0)
    ensures AllDone(g, st) && root in st.index && st.index[root] == 0 && 0 in st.data
    ensures |st.data[0].symbols| == |g[root]|
  {
    assert st.found[0] == root;
    assert Done(g, st, st.found[0]);
    forall q | q in st.found ensures Done(g, st, q) {
      var x :| 0 <= x < |st.found| && st.found[x] == q;
      assert Done(g, st, st.found[x]);
    }
  }
}
