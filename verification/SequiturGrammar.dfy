/**
  What the history of a Sequitur grammar leaves true between the steps of one append:
  why inlining a rule that is used once makes no digram occur twice.
 */
module SequiturGrammar {
  import opened Grammar

  // ---------------------------------------------------------------------
  // Places and lengths
  // ---------------------------------------------------------------------

  ghost function Len(k: Key, t: Texts): nat { |KeyText(k, t)| }

  /** How much of the text of the start rule comes from its symbols from `i` on. */
  ghost function Rest(g: Productions, t: Texts, s: RuleId, i: nat): nat
    requires s in g && i <= |g[s]|
  {
    |Flat(g[s][i..], t)|
  }

  ghost predicate Fine(g: Productions, t: Texts, s: RuleId) {
    s in g && s in t && Proper(g, s) && Means(g, t) && NoneEmpty(g, t, s)
  }

  /** What one place of a fine grammar holds. */
  lemma FineAt(g: Productions, t: Texts, s: RuleId, q: RuleId, j: nat)
    requires Fine(g, t, s) && q in g && j < |g[q]|
    ensures Len(g[q][j], t) >= 1 && g[q][j] != Zero && g[q][j] != Rule(s) && g[q][j] != Rule(q)
    ensures g[q][j].Rule? ==> g[q][j].r in g && |g[g[q][j].r]| >= 2
    ensures q != s ==> q in t && Len(g[q][j], t) < |t[q]|
  {
    if q != s {
      var k := if j == 0 then 1 else 0;
      assert Len(g[q][k], t) >= 1;
      if j == 0 { FlatTwoParts(g[q], 0, 1, t); } else { FlatTwoParts(g[q], 0, j, t); }
    }
  }

  lemma RestSplit(g: Productions, t: Texts, s: RuleId, i: nat)
    requires Fine(g, t, s) && i < |g[s]|
    ensures Rest(g, t, s, i) == Len(g[s][i], t) + Rest(g, t, s, i + 1) && Len(g[s][i], t) >= 1
  {
    hide Proper, Means, NoneEmpty;
    FineAt(g, t, s, s, i);
    assert g[s][i..][1..] == g[s][i + 1..];
  }

  lemma RestLast(g: Productions, t: Texts, s: RuleId)
    requires Fine(g, t, s) && g[s] != []
    ensures Rest(g, t, s, |g[s]| - 1) == Len(g[s][|g[s]| - 1], t)
  {
    hide Proper, Means, NoneEmpty;
    RestSplit(g, t, s, |g[s]| - 1);
  }

  /** The rest contains each later symbol. */
  lemma {:induction false} RestHolds(g: Productions, t: Texts, s: RuleId, i: nat, j: nat)
    requires Fine(g, t, s) && i <= j < |g[s]|
    ensures Rest(g, t, s, i) >= (j - i) + Len(g[s][j], t)
    decreases j - i
  {
    hide Proper, Means, NoneEmpty, Flat, KeyText, Rest, Len;
    RestSplit(g, t, s, i);
    if i < j { RestHolds(g, t, s, i + 1, j); }
  }

  // ---------------------------------------------------------------------
  // What inlining will find
  // ---------------------------------------------------------------------

  /** A digram starts at symbol `j` of rule `q`. */
  ghost predicate At(g: Productions, q: RuleId, j: nat) { q in g && j + 1 < |g[q]| }

  ghost predicate Refers(g: Productions, x: RuleId, q: RuleId, j: nat) {
    q in g && j < |g[q]| && g[q][j] == Rule(x)
  }

  /** No symbols but these two refer to rule `x`. */
  ghost predicate OnlyTwo(g: Productions, x: RuleId, q: RuleId, j: nat, q': RuleId, j': nat) {
    forall u, k: nat {:trigger Refers(g, x, u, k)} :: Refers(g, x, u, k) ==> (u == q && k == j) || (u == q' && k == j')
  }

  ghost function Last(g: Productions, x: RuleId): Key
    requires x in g && |g[x]| >= 2
  {
    g[x][|g[x]| - 1]
  }

  /** Rule `x` is used twice: by symbol `i` of the start rule and by symbol `j` of rule `q`,
      where the symbol that follows may yet be what follows symbol `i` too. */
  ghost predicate Hot(g: Productions, t: Texts, s: RuleId, slack: nat, i: nat, x: RuleId, q: RuleId, j: nat) {
    && s in g && x in g && |g[x]| >= 2 && At(g, q, j)
    && Refers(g, x, s, i) && Refers(g, x, q, j) && (q == s ==> j != i) && OnlyTwo(g, x, s, i, q, j)
    && Rest(g, t, s, i + 1) < Len(g[q][j + 1], t) + slack
  }

  /** The last digram of the start rule, while it is being checked. */
  ghost predicate Checked(g: Productions, s: RuleId, open: bool, q: RuleId, j: nat) {
    open && q == s && s in g && j + 2 == |g[s]|
  }

  ghost predicate ClearAt(g: Productions, s: RuleId, open: bool, x: RuleId, q: RuleId, j: nat, w: RuleId, k: nat)
    requires x in g && |g[x]| >= 2 && At(g, q, j)
  {
    At(g, w, k) && !Checked(g, s, open, w, k) && g[w][k] == Last(g, x) && g[w][k + 1] == g[q][j + 1] ==>
      (w == q && k == j + 1) || (w == x && k + 2 == |g[x]|)
  }

  /** The digram that inlining `x` at symbol `j` of `q` would make occurs only where it
      would overlap that place. */
  ghost predicate Clear(g: Productions, s: RuleId, open: bool, x: RuleId, q: RuleId, j: nat)
    requires x in g && |g[x]| >= 2 && At(g, q, j)
  {
    forall w, k: nat {:trigger ClearAt(g, s, open, x, q, j, w, k)} :: ClearAt(g, s, open, x, q, j, w, k)
  }

  ghost predicate SeamsClear(g: Productions, t: Texts, s: RuleId, open: bool, slack: nat) {
    forall i: nat, x, q, j: nat {:trigger Hot(g, t, s, slack, i, x, q, j)} ::
      Hot(g, t, s, slack, i, x, q, j) ==> Clear(g, s, open, x, q, j)
  }

  lemma LessSlack(g: Productions, t: Texts, s: RuleId, open: bool)
    requires SeamsClear(g, t, s, open, 1)
    ensures SeamsClear(g, t, s, open, 0)
  {
    forall i: nat, x, q, j: nat | Hot(g, t, s, 0, i, x, q, j) ensures Clear(g, s, open, x, q, j) {
      assert Hot(g, t, s, 1, i, x, q, j);
    }
  }

  // ---------------------------------------------------------------------
  // Appending a character
  // ---------------------------------------------------------------------

  ghost function AppendG(g: Productions, s: RuleId, c: int): Productions
    requires s in g
  {
    g[s := g[s] + [Terminal(c)]]
  }

  ghost function AppendT(t: Texts, s: RuleId, c: int): Texts
    requires s in t
  {
    t[s := t[s] + [c]]
  }

  lemma AppendRest(g: Productions, t: Texts, s: RuleId, c: int, i: nat)
    requires Fine(g, t, s) && i <= |g[s]|
    ensures Rest(AppendG(g, s, c), AppendT(t, s, c), s, i) == Rest(g, t, s, i) + 1
  {
    hide Proper, Means, NoneEmpty, Flat;
    var g', t' := AppendG(g, s, c), AppendT(t, s, c);
    assert g'[s][i..] == g[s][i..] + [Terminal(c)];
    FlatConcat(g[s][i..], [Terminal(c)], t');
    FlatOne(Terminal(c), t');
    forall j | 0 <= j < |g[s][i..]| ensures KeyText(g[s][i..][j], t') == KeyText(g[s][i..][j], t) {
      FineAt(g, t, s, s, i + j);
    }
    FlatAgrees(g[s][i..], t', t);
  }

  lemma AppendLen(t: Texts, s: RuleId, c: int, k: Key)
    requires s in t && k != Rule(s)
    ensures Len(k, AppendT(t, s, c)) == Len(k, t)
  {
  }

  lemma AppendHot(g: Productions, t: Texts, s: RuleId, c: int, i: nat, x: RuleId, q: RuleId, j: nat)
    requires Fine(g, t, s) && Fine(AppendG(g, s, c), AppendT(t, s, c), s)
    requires Hot(AppendG(g, s, c), AppendT(t, s, c), s, 1, i, x, q, j)
    ensures Hot(g, t, s, 0, i, x, q, j) && AppendG(g, s, c)[q][j + 1] == g[q][j + 1]
  {
    hide Proper, Means, NoneEmpty, Flat, KeyText, Rest, Len;
    var g', t' := AppendG(g, s, c), AppendT(t, s, c);
    assert i < |g[s]|;
    AppendRest(g, t, s, c, i + 1);
    if q == s && j + 1 == |g[s]| {
      RestHolds(g', t', s, i + 1, j + 1);
      assert false;
    }
    assert g'[q][j + 1] == g[q][j + 1];
    FineAt(g, t, s, q, j + 1);
    FineAt(g, t, s, s, i);
    AppendLen(t, s, c, g[q][j + 1]);
    forall u, k: nat | Refers(g, x, u, k) ensures (u == s && k == i) || (u == q && k == j) {
      assert Refers(g', x, u, k);
    }
  }

  lemma AppendClear(g: Productions, t: Texts, s: RuleId, c: int)
    requires Fine(g, t, s) && Fine(AppendG(g, s, c), AppendT(t, s, c), s)
    requires SeamsClear(g, t, s, false, 0)
    ensures SeamsClear(AppendG(g, s, c), AppendT(t, s, c), s, true, 1)
  {
    hide Proper, Means, NoneEmpty, Flat, KeyText, Rest, Len;
    var g', t' := AppendG(g, s, c), AppendT(t, s, c);
    forall i: nat, x, q, j: nat | Hot(g', t', s, 1, i, x, q, j) ensures Clear(g', s, true, x, q, j) {
      AppendHot(g, t, s, c, i, x, q, j);
      FineAt(g, t, s, s, i);
      forall w, k: nat ensures ClearAt(g', s, true, x, q, j, w, k) {
        assert ClearAt(g, s, false, x, q, j, w, k);
      }
    }
  }

  // ---------------------------------------------------------------------
  // The checked digram turns out new, or overlaps its only other occurrence
  // ---------------------------------------------------------------------

  lemma CloseClear(g: Productions, t: Texts, s: RuleId)
    requires Fine(g, t, s) && SeamsClear(g, t, s, true, 1)
    ensures SeamsClear(g, t, s, false, 1)
  {
    hide Proper, Means, NoneEmpty, Flat, KeyText, Rest, Len;
    forall i: nat, x, q, j: nat | Hot(g, t, s, 1, i, x, q, j) ensures Clear(g, s, false, x, q, j) {
      forall w, k: nat ensures ClearAt(g, s, false, x, q, j, w, k) {
        assert ClearAt(g, s, true, x, q, j, w, k);
        if w == s && k + 2 == |g[s]| && g[s][k] == Last(g, x) && g[s][k + 1] == g[q][j + 1] {
          FineAt(g, t, s, x, |g[x]| - 1);
          assert i != k;
          if i < k {
            RestHolds(g, t, s, i + 1, k + 1);
            assert false;
          }
          var again := Refers(g, x, q, j + 1);
        }
      }
    }
  }

  // ---------------------------------------------------------------------
  // The end of the start rule becomes a symbol for a rule in use
  // ---------------------------------------------------------------------

  ghost function ReplaceG(g: Productions, o: RuleId, i: nat, r: RuleId): Productions
    requires o in g && i + 2 <= |g[o]|
  {
    g[o := g[o][..i] + [Rule(r)] + g[o][i + 2..]]
  }

  /** The start rule ends in the two symbols of rule `r`. */
  ghost predicate EndsIn(g: Productions, s: RuleId, r: RuleId) {
    s in g && |g[s]| >= 2 && r in g && r != s && g[r] == g[s][|g[s]| - 2..]
  }

  ghost function ReuseG(g: Productions, s: RuleId, r: RuleId): Productions
    requires EndsIn(g, s, r)
  {
    ReplaceG(g, s, |g[s]| - 2, r)
  }

  lemma ReplaceRest(g: Productions, t: Texts, s: RuleId, o: RuleId, i: nat, r: RuleId, cut: nat)
    requires Fine(g, t, s) && o in g && i + 2 <= |g[o]| && r in g && g[r] == g[o][i..i + 2]
    requires cut < |g[s]| && (o == s ==> cut != i + 1)
    ensures s in ReplaceG(g, o, i, r) && |ReplaceG(g, o, i, r)[s]| >= (if o == s && cut > i then cut - 1 else cut)
    ensures Rest(ReplaceG(g, o, i, r), t, s, if o == s && cut > i then cut - 1 else cut) == Rest(g, t, s, cut)
  {
    hide Proper, NoneEmpty, Flat;
    var g' := ReplaceG(g, o, i, r);
    if o == s {
      if cut > i {
        assert g'[s][cut - 1..] == g[s][cut..];
      } else {
        FlatOne(Rule(r), t);
        assert Flat(g[r], t) == t[r];
        FlatReplace(g[s][cut..i], g[r], [Rule(r)], g[s][i + 2..], t);
        assert g[s][cut..] == g[s][cut..i] + g[r] + g[s][i + 2..];
        assert g'[s][cut..] == g[s][cut..i] + [Rule(r)] + g[s][i + 2..];
      }
    }
  }

  lemma ReuseRest(g: Productions, t: Texts, s: RuleId, r: RuleId, i: nat)
    requires Fine(g, t, s) && EndsIn(g, s, r) && i <= |g[s]| - 2
    ensures Rest(ReuseG(g, s, r), t, s, i) == Rest(g, t, s, i)
  {
    hide Proper, Means, NoneEmpty, Flat, Rest;
    ReplaceRest(g, t, s, s, |g[s]| - 2, r, i);
  }

  /** Rule `r` has two uses. */
  ghost predicate UsedTwice(g: Productions, r: RuleId, u: RuleId, k: nat, u': RuleId, k': nat) {
    Refers(g, r, u, k) && Refers(g, r, u', k') && !(u == u' && k == k')
  }

  lemma ReuseNew(g: Productions, t: Texts, s: RuleId, r: RuleId, u: RuleId, k: nat)
    requires Fine(g, t, s) && EndsIn(g, s, r) && Refers(g, r, u, k)
    ensures Refers(ReuseG(g, s, r), r, u, k) && (u == s ==> k + 2 < |g[s]|)
  {
    hide Proper, Means, NoneEmpty;
    assert g[r][0] == g[s][|g[s]| - 2] && g[r][1] == g[s][|g[s]| - 1];
    FineAt(g, t, s, r, 0);
    FineAt(g, t, s, r, 1);
  }

  /** A rule that is about to run out of uses starts no symbol that was replaced. */
  lemma ReuseHot(g: Productions, t: Texts, s: RuleId, r: RuleId, u: RuleId, k: nat, u': RuleId, k': nat,
                 i: nat, x: RuleId, q: RuleId, j: nat)
    requires Fine(g, t, s) && EndsIn(g, s, r) && Fine(ReuseG(g, s, r), t, s) && UsedTwice(g, r, u, k, u', k')
    requires Hot(ReuseG(g, s, r), t, s, 1, i, x, q, j)
    ensures Hot(g, t, s, 1, i, x, q, j) && ReuseG(g, s, r)[q][j + 1] == g[q][j + 1] && x != s
  {
    hide Proper, Means, NoneEmpty, Flat, KeyText, Rest, Len;
    var g', n := ReuseG(g, s, r), |g[s]| - 2;
    assert Refers(g', r, s, n);
    ReuseNew(g, t, s, r, u, k);
    ReuseNew(g, t, s, r, u', k');
    assert x != r;
    assert i < n;
    FineAt(g', t, s, s, i);
    ReuseRest(g, t, s, r, i + 1);
    if q == s && j + 1 == n {
      RestHolds(g', t, s, i + 1, n);
      assert false;
    }
    RestHolds(g', t, s, i + 1, n);
    assert g[r][0] == g[s][n] && g[r][1] == g[s][n + 1];
    FineAt(g', t, s, r, 1);
    ReuseShort(g, t, s, r);
    assert !Refers(g', x, r, 0) && !Refers(g', x, r, 1);
    forall v, m: nat | Refers(g, x, v, m) ensures (v == s && m == i) || (v == q && m == j) {
      assert Refers(g', x, v, m);
    }
  }

  lemma ReuseShort(g: Productions, t: Texts, s: RuleId, r: RuleId)
    requires Fine(g, t, s) && EndsIn(g, s, r)
    ensures |g[r]| == 2 && Len(Rule(r), t) > Len(g[r][1], t)
  {
    hide Proper, Means, NoneEmpty;
    FineAt(g, t, s, r, 1);
  }

  lemma ReuseClear(g: Productions, t: Texts, s: RuleId, r: RuleId, u: RuleId, k: nat, u': RuleId, k': nat)
    requires Fine(g, t, s) && EndsIn(g, s, r) && Fine(ReuseG(g, s, r), t, s) && UsedTwice(g, r, u, k, u', k')
    requires SeamsClear(g, t, s, true, 1)
    ensures SeamsClear(ReuseG(g, s, r), t, s, true, 1)
  {
    hide Proper, Means, NoneEmpty, Flat, KeyText, Rest, Len, OnlyTwo;
    var g' := ReuseG(g, s, r);
    forall i: nat, x, q, j: nat | Hot(g', t, s, 1, i, x, q, j) ensures Clear(g', s, true, x, q, j) {
      ReuseHot(g, t, s, r, u, k, u', k', i, x, q, j);
      forall w, m: nat ensures ClearAt(g', s, true, x, q, j, w, m) {
        assert ClearAt(g, s, true, x, q, j, w, m);
      }
    }
  }

  // ---------------------------------------------------------------------
  // Both occurrences of a digram become symbols for a new rule
  // ---------------------------------------------------------------------

  /** The digram at the end of the start rule also stands at symbol `i` of rule `o`. */
  ghost predicate Repeats(g: Productions, s: RuleId, o: RuleId, i: nat) {
    && s in g && |g[s]| >= 2 && o in g && i + 2 <= |g[o]| && g[o][i..i + 2] == g[s][|g[s]| - 2..]
    && (o == s ==> i + 4 <= |g[s]|)
  }

  ghost function PairG(g: Productions, s: RuleId, r: RuleId): Productions
    requires s in g && |g[s]| >= 2
  {
    g[r := g[s][|g[s]| - 2..]]
  }

  ghost function HalfG(g: Productions, s: RuleId, o: RuleId, i: nat, r: RuleId): Productions
    requires Repeats(g, s, o, i) && r !in g
  {
    ReplaceG(PairG(g, s, r), o, i, r)
  }

  ghost function FactorG(g: Productions, s: RuleId, o: RuleId, i: nat, r: RuleId): Productions
    requires Repeats(g, s, o, i) && r !in g
  {
    var h := HalfG(g, s, o, i, r);
    ReplaceG(h, s, |h[s]| - 2, r)
  }

  /** The symbols for the new rule. */
  ghost predicate PutIn(g: Productions, s: RuleId, o: RuleId, i: nat, q: RuleId, j: nat)
    requires s in g
  {
    (q == o && j == i) || (q == s && j == (if o == s then |g[s]| - 3 else |g[s]| - 2))
  }

  /** Where a symbol that is not new was before. */
  ghost function Back(o: RuleId, i: nat, q: RuleId, j: nat): nat {
    if q == o && j > i then j + 1 else j
  }

  /** Where a symbol that was not replaced is now. */
  ghost function Forth(o: RuleId, i: nat, q: RuleId, j: nat): nat {
    if q == o && j > i + 1 then j - 1 else j
  }

  ghost predicate Gone(g: Productions, s: RuleId, o: RuleId, i: nat, q: RuleId, j: nat)
    requires s in g
  {
    (q == o && i <= j <= i + 1) || (q == s && j + 2 >= |g[s]|)
  }

  lemma FactorShape(g: Productions, s: RuleId, o: RuleId, i: nat, r: RuleId)
    requires Repeats(g, s, o, i) && r !in g
    ensures var g' := FactorG(g, s, o, i, r);
      && g'.Keys == g.Keys + {r} && g'[r] == g[o][i..i + 2] && |g'[s]| == (if o == s then |g[s]| - 2 else |g[s]| - 1)
      && (o != s ==> |g'[o]| == |g[o]| - 1)
      && forall q :: q in g && q != o && q != s ==> g'[q] == g[q]
  {
  }

  lemma FactorOld(g: Productions, s: RuleId, o: RuleId, i: nat, r: RuleId, q: RuleId, j: nat)
    requires Repeats(g, s, o, i) && r !in g && q in g && j < |FactorG(g, s, o, i, r)[q]|
    ensures PutIn(g, s, o, i, q, j) ==> FactorG(g, s, o, i, r)[q][j] == Rule(r)
    ensures var b := Back(o, i, q, j);
      !PutIn(g, s, o, i, q, j) ==> b < |g[q]| && FactorG(g, s, o, i, r)[q][j] == g[q][b] && !Gone(g, s, o, i, q, b)
  {
  }

  lemma FactorKept(g: Productions, s: RuleId, o: RuleId, i: nat, r: RuleId, q: RuleId, j: nat)
    requires Repeats(g, s, o, i) && r !in g && q in g && j < |g[q]|
    ensures Gone(g, s, o, i, q, j) ==> g[q][j] in FactorG(g, s, o, i, r)[r]
    ensures var f := Forth(o, i, q, j);
      !Gone(g, s, o, i, q, j) ==>
        f < |FactorG(g, s, o, i, r)[q]| && FactorG(g, s, o, i, r)[q][f] == g[q][j] && Back(o, i, q, f) == j
  {
    var g' := FactorG(g, s, o, i, r);
    assert g'[r] == g[o][i..i + 2] == g[s][|g[s]| - 2..];
    assert g'[r][0] == g[o][i] == g[s][|g[s]| - 2] && g'[r][1] == g[o][i + 1] == g[s][|g[s]| - 1];
  }

  ghost function PairT(g: Productions, t: Texts, s: RuleId, r: RuleId): Texts
    requires s in g && |g[s]| >= 2
  {
    t[r := KeyText(g[s][|g[s]| - 2], t) + KeyText(g[s][|g[s]| - 1], t)]
  }

  /** The grammar stays fine through the three steps. */
  ghost predicate FactorFine(g: Productions, t: Texts, s: RuleId, o: RuleId, i: nat, r: RuleId) {
    && Repeats(g, s, o, i) && r !in g
    && Fine(g, t, s) && Fine(PairG(g, s, r), PairT(g, t, s, r), s) && Fine(HalfG(g, s, o, i, r), PairT(g, t, s, r), s)
    && Fine(FactorG(g, s, o, i, r), PairT(g, t, s, r), s)
  }

  lemma PairRest(g: Productions, t: Texts, s: RuleId, r: RuleId, cut: nat)
    requires Fine(g, t, s) && |g[s]| >= 2 && r !in g && cut <= |g[s]|
    ensures Rest(PairG(g, s, r), PairT(g, t, s, r), s, cut) == Rest(g, t, s, cut)
  {
    hide Proper, Means, NoneEmpty, Flat;
    forall j | 0 <= j < |g[s][cut..]|
      ensures KeyText(g[s][cut..][j], PairT(g, t, s, r)) == KeyText(g[s][cut..][j], t)
    {
      FineAt(g, t, s, s, cut + j);
    }
    FlatAgrees(g[s][cut..], PairT(g, t, s, r), t);
  }

  lemma FactorRest(g: Productions, t: Texts, s: RuleId, o: RuleId, i: nat, r: RuleId, j: nat)
    requires FactorFine(g, t, s, o, i, r) && j + 1 < |FactorG(g, s, o, i, r)[s]| && !PutIn(g, s, o, i, s, j)
    ensures Back(o, i, s, j) + 1 < |g[s]|
    ensures Rest(FactorG(g, s, o, i, r), PairT(g, t, s, r), s, j + 1) == Rest(g, t, s, Back(o, i, s, j) + 1)
  {
    hide Proper, Means, NoneEmpty, Flat, Rest, PairT;
    var h, t' := HalfG(g, s, o, i, r), PairT(g, t, s, r);
    var cut := Back(o, i, s, j) + 1;
    assert EndsIn(h, s, r) by {
      assert h[s][|h[s]| - 2..] == g[s][|g[s]| - 2..];
    }
    ReuseRest(h, t', s, r, j + 1);
    ReplaceRest(PairG(g, s, r), t', s, o, i, r, cut);
    PairRest(g, t, s, r, cut);
  }

  /** Two digrams that are not being checked are different, the same or overlap. */
  ghost predicate Apart(g: Productions, s: RuleId, open: bool, q: RuleId, j: nat, q': RuleId, j': nat) {
    At(g, q, j) && At(g, q', j') && !Checked(g, s, open, q, j) && !Checked(g, s, open, q', j')
      && g[q][j] == g[q'][j'] && g[q][j + 1] == g[q'][j' + 1]
    ==> q == q' && j <= j' + 1 && j' <= j + 1
  }

  /** No digram occurs twice, except where it overlaps itself. */
  ghost predicate DigramsUnique(g: Productions) {
    forall q, j: nat, q', j': nat {:trigger At(g, q, j), At(g, q', j')} ::
      At(g, q, j) && At(g, q', j') && g[q][j] == g[q'][j'] && g[q][j + 1] == g[q'][j' + 1] ==>
        q == q' && j <= j' + 1 && j' <= j + 1
  }

  /** The same, while the last digram of the start rule may be about to be checked. */
  ghost predicate NoRepeats(g: Productions, s: RuleId, open: bool) {
    forall q, j: nat, q', j': nat {:trigger Apart(g, s, open, q, j, q', j')} :: Apart(g, s, open, q, j, q', j')
  }

  lemma NoneRepeats(g: Productions, s: RuleId)
    requires NoRepeats(g, s, false)
    ensures DigramsUnique(g)
  {
    forall q, j: nat, q', j': nat
      | At(g, q, j) && At(g, q', j') && g[q][j] == g[q'][j'] && g[q][j + 1] == g[q'][j' + 1]
      ensures q == q' && j <= j' + 1 && j' <= j + 1
    {
      assert Apart(g, s, false, q, j, q', j');
    }
  }

  lemma FactorLens(g: Productions, t: Texts, s: RuleId, o: RuleId, i: nat, r: RuleId)
    requires FactorFine(g, t, s, o, i, r)
    ensures var g', t' := FactorG(g, s, o, i, r), PairT(g, t, s, r);
      && s != r && |g'[r]| == 2 && g'[r][0] != Rule(r) && g'[r][1] != Rule(r)
      && g'[r][0] == g[o][i] == g[s][|g[s]| - 2] && g'[r][1] == g[o][i + 1] == g[s][|g[s]| - 1]
      && Len(g'[r][1], t') < Len(Rule(r), t')
  {
    hide Proper, Means, NoneEmpty, Flat;
    var g', t' := FactorG(g, s, o, i, r), PairT(g, t, s, r);
    FactorShape(g, s, o, i, r);
    assert g[o][i..i + 2][0] == g[s][|g[s]| - 2..][0] && g[o][i..i + 2][1] == g[s][|g[s]| - 2..][1];
    FineAt(g', t', s, r, 0);
    FineAt(g', t', s, r, 1);
  }

  /** A symbol is either new or the one that was there before. */
  lemma FactorWas(g: Productions, t: Texts, s: RuleId, o: RuleId, i: nat, r: RuleId, q: RuleId, j: nat)
    requires Repeats(g, s, o, i) && r !in g && Fine(g, t, s) && q in g && j < |FactorG(g, s, o, i, r)[q]|
    ensures FactorG(g, s, o, i, r)[q][j] == Rule(r) <==> PutIn(g, s, o, i, q, j)
    ensures var b := Back(o, i, q, j);
      !PutIn(g, s, o, i, q, j) ==> b < |g[q]| && FactorG(g, s, o, i, r)[q][j] == g[q][b] && !Gone(g, s, o, i, q, b)
  {
    hide Proper, Means, NoneEmpty, Flat, FactorG, PairT;
    FactorOld(g, s, o, i, r, q, j);
    if !PutIn(g, s, o, i, q, j) { FineAt(g, t, s, q, Back(o, i, q, j)); }
  }

  /** What follows the first symbol put in follows the end of the digram nowhere else. */
  lemma FactorFirstSeam(g: Productions, t: Texts, s: RuleId, o: RuleId, i: nat, r: RuleId, w: RuleId, m: nat)
    requires FactorFine(g, t, s, o, i, r) && NoRepeats(g, s, true)
    requires var g' := FactorG(g, s, o, i, r);
      && At(g', o, i) && At(g', w, m) && w != r && r in g' && |g'[r]| == 2
      && g'[w][m] == g'[r][1] && g'[w][m + 1] == g'[o][i + 1]
    ensures w == o && m == i + 1
  {
    hide Fine, PairT, FactorG;
    FactorShape(g, s, o, i, r);
    FactorPair(g, t, s, o, i, r);
    FactorWas(g, t, s, o, i, r, w, m);
    FactorWas(g, t, s, o, i, r, w, m + 1);
    FactorWas(g, t, s, o, i, r, o, i + 1);
    var near := Apart(g, s, true, o, i + 1, w, Back(o, i, w, m));
  }

  /** The new rule itself: its two uses are the two symbols that were put in. */
  lemma FactorClearNew(g: Productions, t: Texts, s: RuleId, o: RuleId, i: nat, r: RuleId, j: nat, q: RuleId, k: nat,
                       w: RuleId, m: nat)
    requires FactorFine(g, t, s, o, i, r) && NoRepeats(g, s, true)
    requires Hot(FactorG(g, s, o, i, r), PairT(g, t, s, r), s, 1, j, r, q, k)
    ensures ClearAt(FactorG(g, s, o, i, r), s, false, r, q, k, w, m)
  {
    hide Fine, Flat, KeyText, Rest, Len, PairT, FactorG, OnlyTwo, NoRepeats;
    var g' := FactorG(g, s, o, i, r);
    FactorShape(g, s, o, i, r);
    FactorPair(g, t, s, o, i, r);
    FactorWas(g, t, s, o, i, r, q, k);
    assert q == o && k == i;
    if At(g', w, m) && w != r && g'[w][m] == g'[r][1] && g'[w][m + 1] == g'[o][i + 1] {
      FactorFirstSeam(g, t, s, o, i, r, w, m);
    }
  }

  /** What follows an old rule that is running out of uses is longer than the new rule. */
  lemma FactorLong(g: Productions, t: Texts, s: RuleId, o: RuleId, i: nat, r: RuleId, j: nat, x: RuleId, q: RuleId,
                   k: nat)
    requires FactorFine(g, t, s, o, i, r) && x != r
    requires Hot(FactorG(g, s, o, i, r), PairT(g, t, s, r), s, 1, j, x, q, k)
    ensures var g', t' := FactorG(g, s, o, i, r), PairT(g, t, s, r);
      && j + 1 < |g'[s]| && !PutIn(g, s, o, i, s, j) && Len(g'[q][k + 1], t') >= Len(Rule(r), t')
      && (j + 2 < |g'[s]| ==> Len(g'[q][k + 1], t') > Len(Rule(r), t')) && q != r && !PutIn(g, s, o, i, q, k) && x != s
  {
    hide Proper, Means, NoneEmpty, Flat, KeyText, Rest, Len, PairT, FactorG, OnlyTwo;
    var g', t' := FactorG(g, s, o, i, r), PairT(g, t, s, r);
    FactorShape(g, s, o, i, r);
    FactorLens(g, t, s, o, i, r);
    FactorWas(g, t, s, o, i, r, s, j);
    FactorWas(g, t, s, o, i, r, s, |g'[s]| - 1);
    RestHolds(g', t', s, j + 1, |g'[s]| - 1);
    if q != r { FactorWas(g, t, s, o, i, r, q, k); }
    FineAt(g', t', s, s, j);
  }

  /** It is not the new rule that follows. */
  lemma FactorFollows(g: Productions, t: Texts, s: RuleId, o: RuleId, i: nat, r: RuleId, j: nat, x: RuleId,
                      q: RuleId, k: nat)
    requires FactorFine(g, t, s, o, i, r) && x != r && NoRepeats(g, s, true)
    requires Hot(FactorG(g, s, o, i, r), PairT(g, t, s, r), s, 1, j, x, q, k)
    ensures q in g && q != r && !PutIn(g, s, o, i, q, k + 1)
  {
    hide Proper, Means, NoneEmpty, Flat, KeyText, Rest, Len, PairT, FactorG, OnlyTwo;
    var g', t' := FactorG(g, s, o, i, r), PairT(g, t, s, r);
    FactorShape(g, s, o, i, r);
    FactorLens(g, t, s, o, i, r);
    FactorLong(g, t, s, o, i, r, j, x, q, k);
    FactorWas(g, t, s, o, i, r, q, k + 1);
    FactorWas(g, t, s, o, i, r, q, k);
    FactorWas(g, t, s, o, i, r, s, j);
    if PutIn(g, s, o, i, q, k + 1) {
      assert j + 2 == |g'[s]|;
      assert q == o && k + 1 == i;
      var near := Apart(g, s, true, o, i - 1, s, |g[s]| - 3);
    }
  }

  lemma FactorHot(g: Productions, t: Texts, s: RuleId, o: RuleId, i: nat, r: RuleId, j: nat, x: RuleId, q: RuleId,
                  k: nat)
    requires FactorFine(g, t, s, o, i, r) && x != r && NoRepeats(g, s, true)
    requires Hot(FactorG(g, s, o, i, r), PairT(g, t, s, r), s, 1, j, x, q, k)
    ensures q in g && Hot(g, t, s, 1, Back(o, i, s, j), x, q, Back(o, i, q, k))
    ensures g[q][Back(o, i, q, k) + 1] == FactorG(g, s, o, i, r)[q][k + 1]
  {
    hide Proper, Means, NoneEmpty, Flat, KeyText, Rest, Len, PairT, FactorG, OnlyTwo;
    var g', t' := FactorG(g, s, o, i, r), PairT(g, t, s, r);
    var b, c := Back(o, i, s, j), Back(o, i, q, k);
    FactorShape(g, s, o, i, r);
    FactorLens(g, t, s, o, i, r);
    FactorLong(g, t, s, o, i, r, j, x, q, k);
    FactorFollows(g, t, s, o, i, r, j, x, q, k);
    FactorWas(g, t, s, o, i, r, q, k + 1);
    FactorWas(g, t, s, o, i, r, q, k);
    FactorWas(g, t, s, o, i, r, s, j);
    FactorRest(g, t, s, o, i, r, j);
    FineAt(g, t, s, q, c + 1);
    PairLen(g, t, s, r, g[q][c + 1]);
    FineAt(g, t, s, s, b);
    FactorOnlyTwo(g, s, o, i, r, j, x, q, k);
  }

  lemma FactorOnlyTwo(g: Productions, s: RuleId, o: RuleId, i: nat, r: RuleId, j: nat, x: RuleId, q: RuleId, k: nat)
    requires Repeats(g, s, o, i) && r !in g && q != r && s != r && OnlyTwo(FactorG(g, s, o, i, r), x, s, j, q, k)
    ensures OnlyTwo(g, x, s, Back(o, i, s, j), q, Back(o, i, q, k))
  {
    hide FactorG;
    var g' := FactorG(g, s, o, i, r);
    FactorShape(g, s, o, i, r);
    forall u, m: nat | Refers(g, x, u, m)
      ensures (u == s && m == Back(o, i, s, j)) || (u == q && m == Back(o, i, q, k))
    {
      FactorKept(g, s, o, i, r, u, m);
      var again := Refers(g', x, r, 0) || Refers(g', x, r, 1) || Refers(g', x, u, Forth(o, i, u, m));
    }
  }

  lemma PairLen(g: Productions, t: Texts, s: RuleId, r: RuleId, k: Key)
    requires s in g && |g[s]| >= 2 && k != Rule(r)
    ensures Len(k, PairT(g, t, s, r)) == Len(k, t)
  {
  }

  /** A digram of old symbols was there before. */
  lemma FactorDigram(g: Productions, t: Texts, s: RuleId, o: RuleId, i: nat, r: RuleId, w: RuleId, m: nat)
    requires Repeats(g, s, o, i) && r !in g && Fine(g, t, s) && At(FactorG(g, s, o, i, r), w, m) && w != r
    requires FactorG(g, s, o, i, r)[w][m] != Rule(r) && FactorG(g, s, o, i, r)[w][m + 1] != Rule(r)
    ensures var b := Back(o, i, w, m);
      && At(g, w, b) && g[w][b] == FactorG(g, s, o, i, r)[w][m] && g[w][b + 1] == FactorG(g, s, o, i, r)[w][m + 1]
      && Back(o, i, w, m + 1) == b + 1 && !Gone(g, s, o, i, w, b)
  {
    hide Fine, FactorG;
    FactorShape(g, s, o, i, r);
    FactorWas(g, t, s, o, i, r, w, m);
    FactorWas(g, t, s, o, i, r, w, m + 1);
  }

  lemma FactorLast(g: Productions, t: Texts, s: RuleId, o: RuleId, i: nat, r: RuleId, x: RuleId, w: RuleId, m: nat)
    requires FactorFine(g, t, s, o, i, r) && x in g && x != s && |g[x]| >= 2 && |FactorG(g, s, o, i, r)[x]| >= 2
    requires At(FactorG(g, s, o, i, r), w, m) && FactorG(g, s, o, i, r)[w][m] == Last(FactorG(g, s, o, i, r), x)
    ensures FactorG(g, s, o, i, r)[w][m] != Rule(r) && Last(FactorG(g, s, o, i, r), x) == Last(g, x)
  {
    hide Fine, FactorG;
    var g' := FactorG(g, s, o, i, r);
    FactorShape(g, s, o, i, r);
    FactorLens(g, t, s, o, i, r);
    FactorWas(g, t, s, o, i, r, x, |g'[x]| - 1);
    if w != r { FactorWas(g, t, s, o, i, r, w, m); }
  }

  lemma FactorClearOld(g: Productions, t: Texts, s: RuleId, o: RuleId, i: nat, r: RuleId, j: nat, x: RuleId,
                       q: RuleId, k: nat,
                       w: RuleId, m: nat)
    requires FactorFine(g, t, s, o, i, r) && x != r && NoRepeats(g, s, true) && SeamsClear(g, t, s, true, 1)
    requires Hot(FactorG(g, s, o, i, r), PairT(g, t, s, r), s, 1, j, x, q, k)
    ensures ClearAt(FactorG(g, s, o, i, r), s, false, x, q, k, w, m)
  {
    hide Fine, Flat, KeyText, Rest, Len, PairT, FactorG, OnlyTwo, NoRepeats;
    var g', t' := FactorG(g, s, o, i, r), PairT(g, t, s, r);
    FactorShape(g, s, o, i, r);
    FactorLens(g, t, s, o, i, r);
    FactorLong(g, t, s, o, i, r, j, x, q, k);
    FactorFollows(g, t, s, o, i, r, j, x, q, k);
    FactorHot(g, t, s, o, i, r, j, x, q, k);
    FactorWas(g, t, s, o, i, r, q, k + 1);
    if At(g', w, m) && g'[w][m] == Last(g', x) && g'[w][m + 1] == g'[q][k + 1] {
      FactorLast(g, t, s, o, i, r, x, w, m);
      assert w != r;
      FactorDigram(g, t, s, o, i, r, w, m);
      assert ClearAt(g, s, true, x, q, Back(o, i, q, k), w, Back(o, i, w, m));
    }
  }

  lemma FactorClear(g: Productions, t: Texts, s: RuleId, o: RuleId, i: nat, r: RuleId)
    requires FactorFine(g, t, s, o, i, r) && NoRepeats(g, s, true) && SeamsClear(g, t, s, true, 1)
    ensures SeamsClear(FactorG(g, s, o, i, r), PairT(g, t, s, r), s, false, 1)
  {
    hide Fine, Flat, KeyText, Rest, Len, PairT, FactorG, OnlyTwo, NoRepeats, ClearAt;
    var g', t' := FactorG(g, s, o, i, r), PairT(g, t, s, r);
    forall j: nat, x, q, k: nat | Hot(g', t', s, 1, j, x, q, k) ensures Clear(g', s, false, x, q, k) {
      forall w, m: nat ensures ClearAt(g', s, false, x, q, k, w, m) {
        if x == r {
          FactorClearNew(g, t, s, o, i, r, j, q, k, w, m);
        } else {
          FactorClearOld(g, t, s, o, i, r, j, x, q, k, w, m);
        }
      }
    }
  }

  // ---------------------------------------------------------------------
  // Inlining a rule with one use
  // ---------------------------------------------------------------------

  /** Rule `a` is used only at the front of rule `r`, which has two symbols. */
  ghost predicate Single(g: Productions, s: RuleId, r: RuleId, a: RuleId) {
    && s in g && r in g && a in g && r != s && a != s && r != a && |g[r]| == 2 && |g[a]| >= 2 && g[r][0] == Rule(a)
    && forall u, k: nat {:trigger Refers(g, a, u, k)} :: Refers(g, a, u, k) ==> u == r && k == 0
  }

  ghost function SpliceG(g: Productions, r: RuleId, a: RuleId): Productions
    requires r in g && a in g && |g[r]| >= 1
  {
    (g - {a})[r := g[a] + g[r][1..]]
  }

  /** The rule a symbol stood in, and where, before the inlining. */
  ghost function Home(r: RuleId, a: RuleId, na: nat, q: RuleId, j: nat): RuleId {
    if q == r && j < na then a else q
  }

  ghost function HomeAt(r: RuleId, na: nat, q: RuleId, j: nat): nat {
    if q == r && j >= na then j - na + 1 else j
  }

  lemma SpliceWas(g: Productions, s: RuleId, r: RuleId, a: RuleId, q: RuleId, j: nat)
    requires Single(g, s, r, a) && q in SpliceG(g, r, a) && j < |SpliceG(g, r, a)[q]|
    ensures var q0, j0 := Home(r, a, |g[a]|, q, j), HomeAt(r, |g[a]|, q, j);
      && q0 in g && j0 < |g[q0]| && g[q0][j0] == SpliceG(g, r, a)[q][j] && !(q0 == r && j0 == 0)
      && g[q0][j0] != Rule(a)
  {
    var q0, j0 := Home(r, a, |g[a]|, q, j), HomeAt(r, |g[a]|, q, j);
    var again := Refers(g, a, q0, j0);
  }

  lemma SpliceKept(g: Productions, s: RuleId, r: RuleId, a: RuleId, u: RuleId, k: nat)
    requires Single(g, s, r, a) && u in g && k < |g[u]| && !(u == r && k == 0)
    ensures var q, j := if u == a then r else u, if u == r then |g[a]| else k;
      && q in SpliceG(g, r, a) && j < |SpliceG(g, r, a)[q]| && SpliceG(g, r, a)[q][j] == g[u][k]
      && Home(r, a, |g[a]|, q, j) == u && HomeAt(r, |g[a]|, q, j) == k
  {
  }

  lemma SpliceRest(g: Productions, t: Texts, s: RuleId, r: RuleId, a: RuleId, i: nat)
    requires Fine(g, t, s) && Single(g, s, r, a) && i <= |g[s]|
    ensures s in SpliceG(g, r, a) && SpliceG(g, r, a)[s] == g[s]
    ensures Rest(SpliceG(g, r, a), t - {a}, s, i) == Rest(g, t, s, i)
  {
    hide Proper, Means, NoneEmpty, Flat;
    forall j | 0 <= j < |g[s][i..]| ensures KeyText(g[s][i..][j], t - {a}) == KeyText(g[s][i..][j], t) {
      var again := Refers(g, a, s, i + j);
    }
    FlatAgrees(g[s][i..], t - {a}, t);
  }

  /** The start rule ends in rule `r`, or in a rule whose last symbol is no shorter. */
  ghost predicate Topped(g: Productions, t: Texts, s: RuleId, r: RuleId) {
    && s in g && g[s] != [] && r in t
    && var k := g[s][|g[s]| - 1];
    && k.Rule? && k.r in g && |g[k.r]| >= 2 && (k.r == r || Len(Last(g, k.r), t) >= |t[r]|)
  }

  lemma ToppedLong(g: Productions, t: Texts, s: RuleId, r: RuleId)
    requires Fine(g, t, s) && Topped(g, t, s, r) && r in g && r != s
    ensures g[s] != [] && r in t && Len(g[s][|g[s]| - 1], t) >= |t[r]|
  {
    hide Proper, Means, NoneEmpty, Flat;
    var z := g[s][|g[s]| - 1].r;
    FineAt(g, t, s, s, |g[s]| - 1);
    if z != r { FineAt(g, t, s, z, |g[z]| - 1); }
  }

  lemma SpliceLens(g: Productions, t: Texts, s: RuleId, r: RuleId, a: RuleId)
    requires Fine(g, t, s) && Single(g, s, r, a)
    ensures r in t && Len(g[r][1], t) < |t[r]| && Len(Last(g, a), t) < |t[r]| && Last(g, a) != Rule(a)
    ensures g[r][1] != Rule(a)
  {
    hide Proper, Means, NoneEmpty, Flat;
    FineAt(g, t, s, r, 0);
    FineAt(g, t, s, r, 1);
    FineAt(g, t, s, a, |g[a]| - 1);
    var again := Refers(g, a, r, 1);
  }

  /** A rule whose other use is followed by the last symbol of `r` would be the one on top. */
  lemma SpliceTop(g: Productions, t: Texts, s: RuleId, r: RuleId, i: nat, y: Key)
    requires Fine(g, t, s) && Topped(g, t, s, r) && r in g && r != s && i < |g[s]|
    requires Rest(g, t, s, i + 1) < Len(y, t) + 1 && Len(y, t) < |t[r]|
    ensures i + 1 == |g[s]|
  {
    hide Proper, Means, NoneEmpty, Flat, Rest, Len;
    ToppedLong(g, t, s, r);
    if i + 1 < |g[s]| { RestHolds(g, t, s, i + 1, |g[s]| - 1); }
  }

  lemma SpliceLen(t: Texts, a: RuleId, k: Key)
    requires k != Rule(a)
    ensures Len(k, t - {a}) == Len(k, t)
  {
  }

  lemma SpliceOnlyTwo(g: Productions, s: RuleId, r: RuleId, a: RuleId, i: nat, x: RuleId, q: RuleId, j: nat)
    requires Single(g, s, r, a) && x != a && OnlyTwo(SpliceG(g, r, a), x, s, i, q, j)
    ensures OnlyTwo(g, x, s, i, Home(r, a, |g[a]|, q, j), HomeAt(r, |g[a]|, q, j))
  {
    hide SpliceG;
    forall u, k: nat | Refers(g, x, u, k)
      ensures (u == s && k == i) || (u == Home(r, a, |g[a]|, q, j) && k == HomeAt(r, |g[a]|, q, j))
    {
      SpliceKept(g, s, r, a, u, k);
      var again := Refers(SpliceG(g, r, a), x, if u == a then r else u, if u == r then |g[a]| else k);
    }
  }

  /** Where a rule is running out of uses after the inlining, it was before. */
  lemma SpliceHot(g: Productions, t: Texts, s: RuleId, r: RuleId, a: RuleId, i: nat, x: RuleId, q: RuleId, j: nat)
    requires Fine(g, t, s) && Single(g, s, r, a) && Topped(g, t, s, r)
    requires Hot(SpliceG(g, r, a), t - {a}, s, 1, i, x, q, j)
    ensures !(q == r && j + 1 == |g[a]|) && x != a && i < |g[s]|
    ensures var q0 := Home(r, a, |g[a]|, q, j);
      && Hot(g, t, s, 1, i, x, q0, j) && g[q0][j + 1] == SpliceG(g, r, a)[q][j + 1] && g[q0][j + 1] != Rule(a)
  {
    hide Proper, Means, NoneEmpty, Flat, KeyText, Rest, Len, OnlyTwo;
    var g' := SpliceG(g, r, a);
    SpliceRest(g, t, s, r, a, i + 1);
    SpliceWas(g, s, r, a, q, j);
    SpliceWas(g, s, r, a, q, j + 1);
    SpliceLens(g, t, s, r, a);
    SpliceLen(t, a, g'[q][j + 1]);
    if q == r && j + 1 == |g[a]| {
      SpliceTop(g, t, s, r, i, g[r][1]);
      ToppedLong(g, t, s, r);
    }
    SpliceOnlyTwo(g, s, r, a, i, x, q, j);
    FineAt(g, t, s, s, i);
  }

  lemma SpliceClearAt(g: Productions, t: Texts, s: RuleId, r: RuleId, a: RuleId, i: nat, x: RuleId, q: RuleId, j: nat,
                      w: RuleId, m: nat)
    requires Fine(g, t, s) && Single(g, s, r, a) && Topped(g, t, s, r) && SeamsClear(g, t, s, false, 1)
    requires Hot(SpliceG(g, r, a), t - {a}, s, 1, i, x, q, j)
    ensures ClearAt(SpliceG(g, r, a), s, false, x, q, j, w, m)
  {
    hide Proper, Means, NoneEmpty, Flat, KeyText, Rest, Len, OnlyTwo;
    var g' := SpliceG(g, r, a);
    SpliceHot(g, t, s, r, a, i, x, q, j);
    SpliceLens(g, t, s, r, a);
    SpliceRest(g, t, s, r, a, i + 1);
    FineAt(g, t, s, s, i);
    if At(g', w, m) && g'[w][m] == Last(g', x) && g'[w][m + 1] == g'[q][j + 1] {
      SpliceWas(g, s, r, a, w, m);
      SpliceWas(g, s, r, a, w, m + 1);
      assert Last(g, x) == Last(g', x);
      if w == r && m + 1 == |g[a]| {
        SpliceTop(g, t, s, r, i, g[r][1]);
      } else {
        assert ClearAt(g, s, false, x, Home(r, a, |g[a]|, q, j), j, Home(r, a, |g[a]|, w, m), m);
      }
    }
  }

  lemma SpliceClear(g: Productions, t: Texts, s: RuleId, r: RuleId, a: RuleId)
    requires Fine(g, t, s) && Single(g, s, r, a) && Topped(g, t, s, r) && SeamsClear(g, t, s, false, 1)
    ensures SeamsClear(SpliceG(g, r, a), t - {a}, s, false, 1)
  {
    hide Fine, Flat, KeyText, Rest, Len, OnlyTwo, ClearAt, SpliceG, Topped;
    var g' := SpliceG(g, r, a);
    forall i: nat, x, q, j: nat | Hot(g', t - {a}, s, 1, i, x, q, j) ensures Clear(g', s, false, x, q, j) {
      forall w, m: nat ensures ClearAt(g', s, false, x, q, j, w, m) {
        SpliceClearAt(g, t, s, r, a, i, x, q, j, w, m);
      }
    }
  }

  // ---------------------------------------------------------------------
  // Digrams of short symbols
  // ---------------------------------------------------------------------

  /** The digram occurs nowhere but at symbol `k` of rule `x`. */
  ghost predicate OnlyAt(g: Productions, d: Key, e: Key, x: RuleId, k: nat) {
    forall w, m: nat {:trigger At(g, w, m)} :: At(g, w, m) && g[w][m] == d && g[w][m + 1] == e ==> w == x && m == k
  }

  ghost predicate Short(k: Key, t: Texts, bound: nat) {
    (k.Rule? ==> k.r in t) && Len(k, t) < bound
  }

  ghost predicate KeptAt(g: Productions, g': Productions, t': Texts, s: RuleId, bound: nat, d: Key, e: Key,
                         x: RuleId, k: nat) {
    x in g && x in g' && x != s && Short(Rule(x), t', bound) && Short(d, t', bound) && Short(e, t', bound)
      && OnlyAt(g, d, e, x, k)
    ==> OnlyAt(g', d, e, x, k)
  }

  /** No new place for a digram of symbols shorter than `bound` that has but one, in a short rule. */
  ghost predicate ShortKept(g: Productions, g': Productions, t': Texts, s: RuleId, bound: nat) {
    forall d, e, x, k: nat {:trigger KeptAt(g, g', t', s, bound, d, e, x, k)} :: KeptAt(g, g', t', s, bound, d, e, x, k)
  }

  lemma ShortKeptWeaker(g: Productions, g': Productions, t': Texts, s: RuleId, b: nat, c: nat)
    requires ShortKept(g, g', t', s, b) && c <= b
    ensures ShortKept(g, g', t', s, c)
  {
    forall d, e, x, k: nat ensures KeptAt(g, g', t', s, c, d, e, x, k) {
      assert KeptAt(g, g', t', s, b, d, e, x, k);
    }
  }

  ghost predicate SameTexts(t: Texts, t': Texts) {
    forall q {:trigger q in t} {:trigger q in t'} :: q in t && q in t' ==> t[q] == t'[q]
  }

  lemma ShortKeptTrans(g: Productions, g1: Productions, g2: Productions, t1: Texts, t2: Texts, s: RuleId, b: nat)
    requires ShortKept(g, g1, t1, s, b) && ShortKept(g1, g2, t2, s, b)
    requires Proper(g1, s) && t1.Keys == g1.Keys && SameTexts(t1, t2)
    requires g.Keys <= g1.Keys || g2.Keys <= g1.Keys
    ensures ShortKept(g, g2, t2, s, b)
  {
    forall d, e, x, k: nat ensures KeptAt(g, g2, t2, s, b, d, e, x, k) {
      assert KeptAt(g, g1, t1, s, b, d, e, x, k);
      assert KeptAt(g1, g2, t2, s, b, d, e, x, k);
    }
  }

  lemma ShortKeptSame(g: Productions, t: Texts, s: RuleId, b: nat)
    ensures ShortKept(g, g, t, s, b)
  {
    forall d, e, x, k: nat ensures KeptAt(g, g, t, s, b, d, e, x, k) {
    }
  }

  lemma ReuseKeepsShort(g: Productions, t: Texts, s: RuleId, r: RuleId, b: nat)
    requires Fine(g, t, s) && EndsIn(g, s, r) && Len(Rule(r), t) >= b
    ensures ShortKept(g, ReuseG(g, s, r), t, s, b)
  {
    hide Fine, Len;
    var g' := ReuseG(g, s, r);
    forall d, e, x, k: nat ensures KeptAt(g, g', t, s, b, d, e, x, k) {
      if d != Rule(r) && e != Rule(r) && OnlyAt(g, d, e, x, k) {
        forall w: RuleId, m: nat | At(g', w, m) && g'[w][m] == d && g'[w][m + 1] == e ensures w == x && m == k {
          assert At(g, w, m);
        }
      }
    }
  }

  lemma FactorNotShort(g: Productions, t: Texts, s: RuleId, o: RuleId, i: nat, r: RuleId)
    requires FactorFine(g, t, s, o, i, r)
    ensures o != s ==> Len(Rule(o), PairT(g, t, s, r)) > Len(g[s][|g[s]| - 1], t)
  {
    hide Proper, Means, NoneEmpty, Flat;
    FactorLens(g, t, s, o, i, r);
    FineAt(g, t, s, o, i + 1);
  }

  lemma FactorKeepsShort(g: Productions, t: Texts, s: RuleId, o: RuleId, i: nat, r: RuleId, b: nat)
    requires FactorFine(g, t, s, o, i, r) && b == Len(g[s][|g[s]| - 1], t)
    ensures ShortKept(g, FactorG(g, s, o, i, r), PairT(g, t, s, r), s, b)
  {
    hide Fine, Len, PairT, FactorG;
    var g', t' := FactorG(g, s, o, i, r), PairT(g, t, s, r);
    FactorShape(g, s, o, i, r);
    FactorLens(g, t, s, o, i, r);
    PairLen(g, t, s, r, g[s][|g[s]| - 1]);
    forall d, e, x, k: nat ensures KeptAt(g, g', t', s, b, d, e, x, k) {
      if x in g && x != s && Short(Rule(x), t', b) && Short(d, t', b) && Short(e, t', b) && OnlyAt(g, d, e, x, k) {
        if x == o { FactorNotShort(g, t, s, o, i, r); }
        forall w: RuleId, m: nat | At(g', w, m) && g'[w][m] == d && g'[w][m + 1] == e ensures w == x && m == k {
          FactorDigram(g, t, s, o, i, r, w, m);
        }
      }
    }
  }

  lemma SpliceKeepsShort(g: Productions, t: Texts, s: RuleId, r: RuleId, a: RuleId, b: nat)
    requires Fine(g, t, s) && Single(g, s, r, a) && b == Len(g[r][1], t)
    ensures ShortKept(g, SpliceG(g, r, a), t - {a}, s, b)
  {
    hide Fine, Len, SpliceG;
    var g' := SpliceG(g, r, a);
    SpliceLens(g, t, s, r, a);
    forall d, e, x, k: nat ensures KeptAt(g, g', t - {a}, s, b, d, e, x, k) {
      if x in g && x in g' && x != s && Short(Rule(x), t - {a}, b) && Short(d, t - {a}, b) && Short(e, t - {a}, b)
        && OnlyAt(g, d, e, x, k) {
        forall w: RuleId, m: nat | At(g', w, m) && g'[w][m] == d && g'[w][m + 1] == e ensures w == x && m == k {
          SpliceWas(g, s, r, a, w, m);
          SpliceWas(g, s, r, a, w, m + 1);
          SpliceLen(t, a, e);
          SpliceLen(t, a, Rule(x));
          assert At(g, Home(r, a, |g[a]|, w, m), HomeAt(r, |g[a]|, w, m));
        }
      }
    }
  }

  // ---------------------------------------------------------------------
  // The seam left when the digram at the end was the last but one use of a rule
  // ---------------------------------------------------------------------

  lemma ReuseSeam(g: Productions, t: Texts, s: RuleId, r: RuleId, x: RuleId)
    requires Fine(g, t, s) && EndsIn(g, s, r) && SeamsClear(g, t, s, true, 1)
    requires g[r][0] == Rule(x) && OnlyTwo(g, x, s, |g[s]| - 2, r, 0)
    ensures x in g && x != s && x != r && |g[x]| >= 2
    ensures ReuseG(g, s, r)[x] == g[x] && OnlyAt(ReuseG(g, s, r), Last(g, x), g[r][1], x, |g[x]| - 2)
  {
    hide Proper, Means, NoneEmpty, Flat, KeyText, Rest, Len, OnlyTwo;
    var g', n := ReuseG(g, s, r), |g[s]|;
    assert g[r][0] == g[s][n - 2] && g[r][1] == g[s][n - 1];
    FineAt(g, t, s, r, 0);
    FineAt(g, t, s, s, n - 2);
    FineAt(g, t, s, r, 1);
    FineAt(g, t, s, x, |g[x]| - 1);
    RestLast(g, t, s);
    assert Hot(g, t, s, 1, n - 2, x, r, 0);
    forall w: RuleId, m: nat | At(g', w, m) && g'[w][m] == Last(g, x) && g'[w][m + 1] == g[r][1]
      ensures w == x && m == |g[x]| - 2
    {
      assert ClearAt(g, s, true, x, r, 0, w, m);
    }
  }

  lemma FactorSeam(g: Productions, t: Texts, s: RuleId, o: RuleId, i: nat, r: RuleId, x: RuleId)
    requires FactorFine(g, t, s, o, i, r) && SeamsClear(g, t, s, true, 1)
    requires g[o][i] == Rule(x) && OnlyTwo(g, x, s, |g[s]| - 2, o, i)
    ensures x in g && x != s && x != r && |g[x]| >= 2
    ensures FactorG(g, s, o, i, r)[x] == g[x]
    ensures OnlyAt(FactorG(g, s, o, i, r), Last(g, x), FactorG(g, s, o, i, r)[r][1], x, |g[x]| - 2)
  {
    hide Proper, Means, NoneEmpty, Flat, KeyText, Rest, Len, OnlyTwo, PairT, FactorG;
    var g', n := FactorG(g, s, o, i, r), |g[s]|;
    FactorShape(g, s, o, i, r);
    FactorLens(g, t, s, o, i, r);
    FineAt(g, t, s, o, i);
    FineAt(g, t, s, s, n - 2);
    FineAt(g, t, s, x, |g[x]| - 1);
    RestLast(g, t, s);
    assert Hot(g, t, s, 1, n - 2, x, o, i);
    forall w: RuleId, m: nat | At(g', w, m) && g'[w][m] == Last(g, x) && g'[w][m + 1] == g'[r][1]
      ensures w == x && m == |g[x]| - 2
    {
      assert w != r;
      FactorDigram(g, t, s, o, i, r, w, m);
      assert ClearAt(g, s, true, x, o, i, w, Back(o, i, w, m));
    }
  }

  // ---------------------------------------------------------------------
  // Both substitutions of a new rule leave new digrams
  // ---------------------------------------------------------------------

  lemma FactorPair(g: Productions, t: Texts, s: RuleId, o: RuleId, i: nat, r: RuleId)
    requires Repeats(g, s, o, i) && r !in g && Fine(g, t, s)
    ensures var g' := FactorG(g, s, o, i, r);
      && r in g' && |g'[r]| == 2 && g'[r][0] == g[o][i] == g[s][|g[s]| - 2]
      && g'[r][1] == g[o][i + 1] == g[s][|g[s]| - 1]
      && g'[r][0] != Rule(r) && g'[r][1] != Rule(r)
  {
    hide Proper, Means, NoneEmpty, Flat;
    FactorShape(g, s, o, i, r);
    assert g[o][i..i + 2][0] == g[s][|g[s]| - 2..][0] && g[o][i..i + 2][1] == g[s][|g[s]| - 2..][1];
    FineAt(g, t, s, o, i);
    FineAt(g, t, s, o, i + 1);
  }

  /** The symbol put in at the end has a neighbour it has nowhere else. */
  lemma FactorQuiet(g: Productions, t: Texts, s: RuleId, o: RuleId, i: nat, r: RuleId)
    requires Repeats(g, s, o, i) && r !in g && Fine(g, t, s) && NoRepeats(g, s, true)
    requires s in FactorG(g, s, o, i, r) && |FactorG(g, s, o, i, r)[s]| >= 2
    ensures var g' := FactorG(g, s, o, i, r); OnlyAt(g', g'[s][|g'[s]| - 2], Rule(r), s, |g'[s]| - 2)
  {
    hide Fine, FactorG;
    var g' := FactorG(g, s, o, i, r);
    var n := |g'[s]|;
    FactorShape(g, s, o, i, r);
    FactorPair(g, t, s, o, i, r);
    FactorWas(g, t, s, o, i, r, s, n - 2);
    forall w: RuleId, m: nat | At(g', w, m) && g'[w][m] == g'[s][n - 2] && g'[w][m + 1] == Rule(r)
      ensures w == s && m == n - 2
    {
      FactorWas(g, t, s, o, i, r, w, m);
      FactorWas(g, t, s, o, i, r, w, m + 1);
      if w == o && m + 1 == i {
        var near := Apart(g, s, true, o, i - 1, s, |g[s]| - 3);
      }
    }
  }

  /** The same, said of the grammar before that symbol is put in. */
  lemma HalfQuiet(g: Productions, t: Texts, s: RuleId, o: RuleId, i: nat, r: RuleId)
    requires Repeats(g, s, o, i) && r !in g && Fine(g, t, s) && NoRepeats(g, s, true)
    requires s in HalfG(g, s, o, i, r) && |HalfG(g, s, o, i, r)[s]| >= 3
    ensures var h := HalfG(g, s, o, i, r); var n := |h[s]|;
      OnlyAt(ReplaceG(h, s, n - 2, r), h[s][n - 3], Rule(r), s, n - 3)
  {
    hide Fine, NoRepeats, OnlyAt, HalfG;
    FactorQuiet(g, t, s, o, i, r);
  }

  /** The digram itself is left in the new rule only. */
  lemma FactorAlone(g: Productions, t: Texts, s: RuleId, o: RuleId, i: nat, r: RuleId)
    requires Repeats(g, s, o, i) && r !in g && Fine(g, t, s) && NoRepeats(g, s, true)
    ensures var g' := FactorG(g, s, o, i, r); r in g' && |g'[r]| == 2 && OnlyAt(g', g'[r][0], g'[r][1], r, 0)
  {
    hide Fine, FactorG;
    var g' := FactorG(g, s, o, i, r);
    FactorPair(g, t, s, o, i, r);
    forall w: RuleId, m: nat | At(g', w, m) && g'[w][m] == g'[r][0] && g'[w][m + 1] == g'[r][1]
      ensures w == r && m == 0
    {
      if w != r {
        FactorDigram(g, t, s, o, i, r, w, m);
        FactorShape(g, s, o, i, r);
        FactorWas(g, t, s, o, i, r, w, m + 1);
        var near := Apart(g, s, true, o, i, w, Back(o, i, w, m));
      }
    }
  }
}
