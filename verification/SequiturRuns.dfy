/**
  Three equal symbols in a row near the end of the start rule: the table points at the
  first of their two overlapping digrams, so that a fourth one is noticed.
 */
module SequiturRuns {
  import opened Grammar
  import opened SequiturGrammar
  import opened SequiturHeap
  import opened SequiturDigrams

  /** Three equal symbols with less text after them than `slack` more than theirs. */
  ghost predicate RunAt(g: Productions, t: Texts, s: RuleId, slack: nat, j: nat) {
    && s in g && j + 3 <= |g[s]| && g[s][j] == g[s][j + 1] == g[s][j + 2]
    && Rest(g, t, s, j + 3) < Len(g[s][j], t) + slack
  }

  /** Symbol `j` of the start rule, at address `xs[j]`, holds the entry of its digram with itself. */
  ghost predicate FirstAt(g: Productions, s: RuleId, table: map<Digram, Ptr>, xs: seq<Ptr>, j: nat) {
    && s in g && j < |g[s]| && j < |xs| && (g[s][j], g[s][j]) in table && table[(g[s][j], g[s][j])] == xs[j]
  }

  /** The runs among the first `n` symbols are recorded at their start. */
  ghost predicate RunsFirst(g: Productions, t: Texts, s: RuleId, table: map<Digram, Ptr>, xs: seq<Ptr>, n: int,
                            slack: nat) {
    && s in g && |xs| == |g[s]|
    && forall j: nat {:trigger RunAt(g, t, s, slack, j)} ::
         j + 3 <= n && RunAt(g, t, s, slack, j) ==> FirstAt(g, s, table, xs, j)
  }

  lemma LessRuns(g: Productions, t: Texts, s: RuleId, table: map<Digram, Ptr>, xs: seq<Ptr>, n: int)
    requires RunsFirst(g, t, s, table, xs, n, 1)
    ensures RunsFirst(g, t, s, table, xs, n, 0)
  {
    forall j: nat | j + 3 <= n && RunAt(g, t, s, 0, j) ensures FirstAt(g, s, table, xs, j) {
      assert RunAt(g, t, s, 1, j);
    }
  }

  lemma SteadyRuns(g: Productions, t: Texts, s: RuleId, table: map<Digram, Ptr>, table': map<Digram, Ptr>,
                   xs: seq<Ptr>, n: int, slack: nat)
    requires RunsFirst(g, t, s, table, xs, n, slack) && Steady(table, table', {})
    ensures RunsFirst(g, t, s, table', xs, n, slack)
  {
    forall j: nat | j + 3 <= n && RunAt(g, t, s, slack, j) ensures FirstAt(g, s, table', xs, j) {
      assert FirstAt(g, s, table, xs, j);
    }
  }

  lemma AppendRuns(g: Productions, t: Texts, s: RuleId, c: int, table: map<Digram, Ptr>, xs: seq<Ptr>, y: Ptr)
    requires Fine(g, t, s) && RunsFirst(g, t, s, table, xs, |g[s]|, 0)
    ensures RunsFirst(AppendG(g, s, c), AppendT(t, s, c), s, table, xs + [y], |g[s]|, 1)
  {
    hide Proper, Means, NoneEmpty, Flat, KeyText, Rest, Len;
    var g', t' := AppendG(g, s, c), AppendT(t, s, c);
    forall j: nat | j + 3 <= |g[s]| && RunAt(g', t', s, 1, j) ensures FirstAt(g', s, table, xs + [y], j) {
      AppendRest(g, t, s, c, j + 3);
      FineAt(g, t, s, s, j);
      AppendLen(t, s, c, g[s][j]);
      assert RunAt(g, t, s, 0, j);
    }
  }

  /** An entry that is left alone, for a symbol that has not moved. */
  lemma KeptFirst(g: Productions, g': Productions, s: RuleId, table: map<Digram, Ptr>, table': map<Digram, Ptr>,
                  xs: seq<Ptr>, xs': seq<Ptr>, j: nat, j': nat, ks: set<Key>)
    requires FirstAt(g, s, table, xs, j) && Steady(table, table', ks) && g[s][j] !in ks
    requires s in g' && j' < |g'[s]| && j' < |xs'| && g'[s][j'] == g[s][j] && xs'[j'] == xs[j]
    ensures FirstAt(g', s, table', xs', j')
  {
    assert (g[s][j], g[s][j]) in table';
  }

  /** The last digram is new. */
  lemma CloseNewRuns(g: Productions, t: Texts, s: RuleId, table: map<Digram, Ptr>, xs: seq<Ptr>, x: Ptr)
    requires s in g && |g[s]| >= 2 && RunsFirst(g, t, s, table, xs, |g[s]| - 1, 1)
    requires var d := (g[s][|g[s]| - 2], g[s][|g[s]| - 1]);
      d !in table && (|g[s]| >= 3 ==> (g[s][|g[s]| - 3], g[s][|g[s]| - 2]) in table)
    ensures RunsFirst(g, t, s, table[(g[s][|g[s]| - 2], g[s][|g[s]| - 1]) := x], xs, |g[s]|, 1)
  {
    hide Rest, Len;
    var table' := table[(g[s][|g[s]| - 2], g[s][|g[s]| - 1]) := x];
    forall j: nat | RunAt(g, t, s, 1, j) ensures FirstAt(g, s, table', xs, j) {
    }
  }

  /** The last digram overlaps the one before it, which is the recorded one. */
  lemma CloseOverlapRuns(g: Productions, t: Texts, s: RuleId, table: map<Digram, Ptr>, xs: seq<Ptr>)
    requires s in g && |g[s]| >= 3 && RunsFirst(g, t, s, table, xs, |g[s]| - 1, 1)
    requires FirstAt(g, s, table, xs, |g[s]| - 3)
    ensures RunsFirst(g, t, s, table, xs, |g[s]|, 1)
  {
    hide Rest, Len, FirstAt;
    forall j: nat | RunAt(g, t, s, 1, j) ensures FirstAt(g, s, table, xs, j) {
    }
  }

  /** There is no fourth equal symbol before the three at the end. */
  lemma NoFourth(g: Productions, t: Texts, s: RuleId, table: map<Digram, Ptr>, xs: seq<Ptr>)
    requires Fine(g, t, s) && |g[s]| >= 4 && RunsFirst(g, t, s, table, xs, |g[s]| - 1, 1)
    requires var n := |g[s]|;
      g[s][n - 1] == g[s][n - 2] == g[s][n - 3] && FirstAt(g, s, table, xs, n - 3) && xs[n - 4] != xs[n - 3]
    ensures g[s][|g[s]| - 4] != g[s][|g[s]| - 3]
  {
    hide Proper, Means, NoneEmpty, Flat, KeyText, Rest, Len;
    var n := |g[s]|;
    if g[s][n - 4] == g[s][n - 3] {
      RestLast(g, t, s);
      var run := RunAt(g, t, s, 1, n - 4);
    }
  }

  lemma ReuseRuns(g: Productions, t: Texts, s: RuleId, r: RuleId, table: map<Digram, Ptr>, table': map<Digram, Ptr>,
                  xs: seq<Ptr>, z: Ptr)
    requires Fine(g, t, s) && EndsIn(g, s, r) && Fine(ReuseG(g, s, r), t, s)
    requires RunsFirst(g, t, s, table, xs, |g[s]| - 1, 1)
    requires Steady(table, table', {g[s][|g[s]| - 2], g[s][|g[s]| - 1]})
    ensures RunsFirst(ReuseG(g, s, r), t, s, table', xs[..|g[s]| - 2] + [z], |g[s]| - 2, 1)
  {
    hide Proper, Means, NoneEmpty, Flat, KeyText, Rest, Len;
    var g', n := ReuseG(g, s, r), |g[s]|;
    var xs' := xs[..n - 2] + [z];
    forall j: nat | j + 3 <= n - 2 && RunAt(g', t, s, 1, j) ensures FirstAt(g', s, table', xs', j) {
      ReuseRest(g, t, s, r, j + 3);
      assert RunAt(g, t, s, 1, j);
      assert FirstAt(g, s, table, xs, j);
      RestHolds(g', t, s, j + 3, n - 2);
      ReuseLens(g, t, s, r);
      assert g'[s][j] == g[s][j] && Len(g[s][j], t) >= Len(Rule(r), t);
      KeptFirst(g, g', s, table, table', xs, xs', j, j, {g[s][n - 2], g[s][n - 1]});
    }
  }

  lemma ReuseLens(g: Productions, t: Texts, s: RuleId, r: RuleId)
    requires Fine(g, t, s) && EndsIn(g, s, r)
    ensures Len(g[s][|g[s]| - 2], t) < Len(Rule(r), t) && Len(g[s][|g[s]| - 1], t) < Len(Rule(r), t)
  {
    hide Proper, Means, NoneEmpty;
    assert g[r][0] == g[s][|g[s]| - 2] && g[r][1] == g[s][|g[s]| - 1];
    FineAt(g, t, s, r, 0);
    FineAt(g, t, s, r, 1);
  }

  /** Keys shorter than `bound` are the only ones stirred up. */
  ghost predicate Light(ks: set<Key>, t: Texts, bound: nat) {
    forall k :: k in ks ==> Len(k, t) < bound
  }

  lemma SpliceRuns(g: Productions, t: Texts, s: RuleId, r: RuleId, a: RuleId, table: map<Digram, Ptr>,
                   table': map<Digram, Ptr>,
                   xs: seq<Ptr>, ks: set<Key>)
    requires Fine(g, t, s) && Single(g, s, r, a) && Topped(g, t, s, r) && RunsFirst(g, t, s, table, xs, |g[s]|, 1)
    requires Steady(table, table', ks) && Light(ks, t, |t[r]|)
    ensures RunsFirst(SpliceG(g, r, a), t - {a}, s, table', xs, |g[s]|, 1)
  {
    hide Proper, Means, NoneEmpty, Flat, KeyText, Rest, Len, Topped;
    var g' := SpliceG(g, r, a);
    ToppedLong(g, t, s, r);
    SpliceRest(g, t, s, r, a, 0);
    forall j: nat | RunAt(g', t - {a}, s, 1, j) ensures FirstAt(g', s, table', xs, j) {
      SpliceRest(g, t, s, r, a, j + 3);
      SpliceWas(g, s, r, a, s, j);
      SpliceLen(t, a, g[s][j]);
      assert RunAt(g, t, s, 1, j);
      assert FirstAt(g, s, table, xs, j);
      if j + 3 < |g[s]| { RestHolds(g, t, s, j + 3, |g[s]| - 1); }
      assert Len(g[s][j], t) >= |t[r]|;
      KeptFirst(g, g', s, table, table', xs, xs, j, j, ks);
    }
  }

  // ---------------------------------------------------------------------
  // Factoring
  // ---------------------------------------------------------------------

  /** A run after the factoring was one before. */
  lemma FactorRun(g: Productions, t: Texts, s: RuleId, o: RuleId, i: nat, r: RuleId, j: nat)
    requires FactorFine(g, t, s, o, i, r) && RunAt(FactorG(g, s, o, i, r), PairT(g, t, s, r), s, 1, j)
    ensures var b := Back(o, i, s, j);
      && RunAt(g, t, s, 1, b) && b + 5 <= |g[s]| && g[s][b] == FactorG(g, s, o, i, r)[s][j]
      && !Gone(g, s, o, i, s, b) && !Gone(g, s, o, i, s, b + 1) && !Gone(g, s, o, i, s, b + 2)
      && Len(g[s][b], PairT(g, t, s, r)) >= Len(Rule(r), PairT(g, t, s, r))
  {
    hide Proper, Means, NoneEmpty, Flat, KeyText, Rest, Len, PairT, FactorG;
    var g', t' := FactorG(g, s, o, i, r), PairT(g, t, s, r);
    FactorShape(g, s, o, i, r);
    FactorWas(g, t, s, o, i, r, s, j);
    FactorWas(g, t, s, o, i, r, s, j + 1);
    FactorWas(g, t, s, o, i, r, s, j + 2);
    FactorWas(g, t, s, o, i, r, s, |g'[s]| - 1);
    assert j + 3 < |g'[s]|;
    FactorRest(g, t, s, o, i, r, j + 2);
    RestHolds(g', t', s, j + 3, |g'[s]| - 1);
    var b := Back(o, i, s, j);
    PairLen(g, t, s, r, g[s][b]);
  }

  /** The keys of the digram and of a run that the replacement at `o` would record anew. */
  ghost function FactorStirs(g: Productions, o: RuleId, i: nat): set<Key>
    requires o in g && i + 2 <= |g[o]|
  {
    {g[o][i], g[o][i + 1]}
    + if i >= 2 && i + 2 < |g[o]| && g[o][i - 2] == g[o][i - 1] == g[o][i + 2] then {g[o][i + 2]} else {}
  }

  /** No run that counts has such a key. */
  lemma FactorCalm(g: Productions, t: Texts, s: RuleId, o: RuleId, i: nat, r: RuleId, j: nat)
    requires FactorFine(g, t, s, o, i, r) && RunAt(FactorG(g, s, o, i, r), PairT(g, t, s, r), s, 1, j)
    requires NoRepeats(g, s, true)
    ensures FactorG(g, s, o, i, r)[s][j] !in FactorStirs(g, o, i)
  {
    hide Proper, Means, NoneEmpty, Flat, KeyText, Rest, Len, PairT, FactorG;
    var b := Back(o, i, s, j);
    FactorRun(g, t, s, o, i, r, j);
    FactorPairLens(g, t, s, o, i, r);
    if i >= 2 && i + 2 < |g[o]| && g[o][i - 2] == g[o][i - 1] == g[o][i + 2] == g[s][b] {
      assert Apart(g, s, true, o, i - 2, s, b);
      assert Apart(g, s, true, o, i - 2, s, b + 1);
      assert o == s && b + 3 == i;
      RestHolds(g, t, s, i, i + 2);
    }
  }

  lemma FactorPairLens(g: Productions, t: Texts, s: RuleId, o: RuleId, i: nat, r: RuleId)
    requires FactorFine(g, t, s, o, i, r)
    ensures var t' := PairT(g, t, s, r); Len(g[o][i], t') < Len(Rule(r), t') && Len(g[o][i + 1], t') < Len(Rule(r), t')
  {
    hide Proper, Means, NoneEmpty, Flat, PairT, FactorG;
    FactorLens(g, t, s, o, i, r);
    FactorShape(g, s, o, i, r);
    FineAt(FactorG(g, s, o, i, r), PairT(g, t, s, r), s, r, 0);
    FineAt(FactorG(g, s, o, i, r), PairT(g, t, s, r), s, r, 1);
  }

  lemma FactorRuns(g: Productions, t: Texts, s: RuleId, o: RuleId, i: nat, r: RuleId,
                   table: map<Digram, Ptr>, table': map<Digram, Ptr>, xs: seq<Ptr>, xs': seq<Ptr>)
    requires FactorFine(g, t, s, o, i, r) && NoRepeats(g, s, true) && RunsFirst(g, t, s, table, xs, |g[s]| - 1, 1)
    requires Steady(table, table', FactorStirs(g, o, i)) && |xs'| == |FactorG(g, s, o, i, r)[s]|
    requires forall j: nat ::
      j < |xs'| && !PutIn(g, s, o, i, s, j) && Back(o, i, s, j) < |xs| ==> xs'[j] == xs[Back(o, i, s, j)]
    ensures RunsFirst(FactorG(g, s, o, i, r), PairT(g, t, s, r), s, table', xs', |xs'|, 1)
  {
    hide Fine, Flat, KeyText, Rest, Len, PairT, FactorG, FactorStirs;
    var g', t' := FactorG(g, s, o, i, r), PairT(g, t, s, r);
    FactorShape(g, s, o, i, r);
    forall j: nat | RunAt(g', t', s, 1, j) ensures FirstAt(g', s, table', xs', j) {
      FactorRun(g, t, s, o, i, r, j);
      FactorCalm(g, t, s, o, i, r, j);
      assert FirstAt(g, s, table, xs, Back(o, i, s, j));
      FactorWas(g, t, s, o, i, r, s, j);
      KeptFirst(g, g', s, table, table', xs, xs', Back(o, i, s, j), j, FactorStirs(g, o, i));
    }
  }
}
