/**
  Context-free grammars that derive exactly one text: what the Sequitur
  compressor builds, and what the rule store flattens and restores.
 */
module Grammar {
  type RuleId = nat

  /** The `key` of a symbol: a terminal, a pointer to a rule, or the zero that
      `expand` writes into a symbol it is about to delete. */
  datatype Key = Terminal(c: int) | Rule(r: RuleId) | Zero

  type Productions = map<RuleId, seq<Key>>
  type Texts = map<RuleId, seq<int>>

  // ---------------------------------------------------------------------
  // Meaning relative to a table of texts
  // ---------------------------------------------------------------------

  ghost function KeyText(k: Key, t: Texts): seq<int> {
    match k
    case Terminal(c) => [c]
    case Rule(r) => if r in t then t[r] else []
    case Zero => []
  }

  ghost function Flat(ks: seq<Key>, t: Texts): seq<int> {
    if ks == [] then [] else KeyText(ks[0], t) + Flat(ks[1..], t)
  }

  /** `t` assigns to every rule the concatenated texts of its symbols. */
  ghost predicate Means(g: Productions, t: Texts) {
    forall r :: r in g ==> r in t && t[r] == Flat(g[r], t)
  }

  lemma {:induction false} FlatConcat(a: seq<Key>, b: seq<Key>, t: Texts)
    ensures Flat(a + b, t) == Flat(a, t) + Flat(b, t)
  {
    if a == [] {
      assert a + b == b;
    } else {
      assert (a + b)[1..] == a[1..] + b;
      FlatConcat(a[1..], b, t);
    }
  }

  lemma FlatPair(x: Key, y: Key, t: Texts)
    ensures Flat([x, y], t) == KeyText(x, t) + KeyText(y, t)
  {
    assert [x, y][1..] == [y];
    FlatOne(y, t);
  }

  lemma FlatOne(x: Key, t: Texts)
    ensures Flat([x], t) == KeyText(x, t)
  {
    assert [x][1..] == [];
  }

  /** Texts of rules that are not mentioned do not matter. */
  lemma {:induction false} FlatAgrees(ks: seq<Key>, t: Texts, u: Texts)
    requires forall i :: 0 <= i < |ks| ==> KeyText(ks[i], t) == KeyText(ks[i], u)
    ensures Flat(ks, t) == Flat(ks, u)
  {
    if ks != [] {
      assert KeyText(ks[0], t) == KeyText(ks[0], u);
      forall i | 0 <= i < |ks[1..]| ensures KeyText(ks[1..][i], t) == KeyText(ks[1..][i], u) {
        assert ks[1..][i] == ks[i + 1];
      }
      FlatAgrees(ks[1..], t, u);
    }
  }

  /** Replacing a stretch of symbols by another of the same meaning keeps the meaning. */
  lemma FlatReplace(a: seq<Key>, x: seq<Key>, y: seq<Key>, b: seq<Key>, t: Texts)
    requires Flat(x, t) == Flat(y, t)
    ensures Flat(a + x + b, t) == Flat(a + y + b, t)
  {
    FlatConcat(a + x, b, t);
    FlatConcat(a, x, t);
    FlatConcat(a + y, b, t);
    FlatConcat(a, y, t);
  }

  /** The text of one symbol is no longer than the text of the whole. */
  lemma FlatPart(ks: seq<Key>, i: nat, t: Texts)
    requires i < |ks|
    ensures |KeyText(ks[i], t)| <= |Flat(ks, t)|
  {
    assert ks == ks[..i] + [ks[i]] + ks[i + 1..];
    FlatConcat(ks[..i] + [ks[i]], ks[i + 1..], t);
    FlatConcat(ks[..i], [ks[i]], t);
    FlatOne(ks[i], t);
  }

  // ---------------------------------------------------------------------
  // Full expansion of an acyclic grammar
  // ---------------------------------------------------------------------

  /** The reference graph is acyclic and closed, witnessed by `rank`. */
  ghost predicate Ranked(g: Productions, rank: map<RuleId, nat>) {
    && g.Keys <= rank.Keys
    && (forall r, i :: r in g && 0 <= i < |g[r]| ==>
          && g[r][i] != Zero
          && (g[r][i].Rule? ==> g[r][i].r in g && rank[g[r][i].r] < rank[r]))
  }

  /** Expand rule `r` down to terminals. */
  ghost function Expand(g: Productions, rank: map<RuleId, nat>, r: RuleId): seq<int>
    requires Ranked(g, rank) && r in g
    decreases rank[r], 1, 0
  {
    ExpandFrom(g, rank, r, 0)
  }

  ghost function ExpandFrom(g: Productions, rank: map<RuleId, nat>, r: RuleId, i: nat): seq<int>
    requires Ranked(g, rank) && r in g && i <= |g[r]|
    decreases rank[r], 0, |g[r]| - i
  {
    if i == |g[r]| then []
    else
      (match g[r][i]
       case Terminal(c) => [c]
       case Rule(q) => Expand(g, rank, q)
       case Zero => [])
      + ExpandFrom(g, rank, r, i + 1)
  }

  /** A table of texts that satisfies every production is the full expansion. */
  lemma {:induction false} TextIsExpansion(g: Productions, rank: map<RuleId, nat>, t: Texts, r: RuleId)
    requires Ranked(g, rank) && Means(g, t) && r in g
    ensures Expand(g, rank, r) == t[r]
    decreases rank[r], 1, 0
  {
    TextIsExpansionFrom(g, rank, t, r, 0);
    assert g[r][0..] == g[r];
  }

  lemma {:induction false} TextIsExpansionFrom(g: Productions, rank: map<RuleId, nat>, t: Texts, r: RuleId, i: nat)
    requires Ranked(g, rank) && Means(g, t) && r in g && i <= |g[r]|
    ensures ExpandFrom(g, rank, r, i) == Flat(g[r][i..], t)
    decreases rank[r], 0, |g[r]| - i
  {
    if i < |g[r]| {
      assert g[r][i..][0] == g[r][i] && g[r][i..][1..] == g[r][i + 1..];
      TextIsExpansionFrom(g, rank, t, r, i + 1);
      if g[r][i].Rule? {
        TextIsExpansion(g, rank, t, g[r][i].r);
      }
    }
  }

  // ---------------------------------------------------------------------
  // Acyclicity from lengths
  // ---------------------------------------------------------------------

  /** References are live, the start rule `s` is never referenced, and every
      other rule has at least two symbols. */
  ghost predicate Proper(g: Productions, s: RuleId) {
    && s in g
    && (forall r, i :: r in g && 0 <= i < |g[r]| ==>
          && g[r][i] != Zero
          && (g[r][i].Rule? ==> g[r][i].r in g && g[r][i].r != s))
    && (forall r :: r in g && r != s ==> |g[r]| >= 2)
  }

  ghost function LengthRank(g: Productions, t: Texts, s: RuleId): map<RuleId, nat>
    requires Means(g, t)
  {
    map r | r in g :: if r == s then |t[r]| + 1 else |t[r]|
  }

  /** Two different symbols of a body together are no longer than the body. */
  lemma FlatTwoParts(ks: seq<Key>, i: nat, j: nat, t: Texts)
    requires i < j < |ks|
    ensures |KeyText(ks[i], t)| + |KeyText(ks[j], t)| <= |Flat(ks, t)|
  {
    assert ks == ks[..j] + ks[j..];
    FlatConcat(ks[..j], ks[j..], t);
    FlatPart(ks[..j], i, t);
    FlatPart(ks[j..], 0, t);
  }

  ghost predicate NoneEmpty(g: Productions, t: Texts, s: RuleId) {
    forall r :: r in g && r != s ==> r in t && t[r] != []
  }

  /** A reference makes a strictly longer text: this is why no cycle can form. */
  lemma ReferenceIsShorter(g: Productions, t: Texts, s: RuleId, r: RuleId, i: nat)
    requires Proper(g, s) && Means(g, t) && NoneEmpty(g, t, s)
    requires r in g && r != s && i < |g[r]| && g[r][i].Rule?
    ensures |t[g[r][i].r]| < |t[r]|
  {
    var j := if i == 0 then 1 else 0;
    assert KeyText(g[r][j], t) != [];
    if i == 0 { FlatTwoParts(g[r], 0, 1, t); } else { FlatTwoParts(g[r], 0, i, t); }
  }

  lemma LengthsRank(g: Productions, t: Texts, s: RuleId)
    requires Proper(g, s) && Means(g, t) && NoneEmpty(g, t, s)
    ensures Ranked(g, LengthRank(g, t, s))
  {
    var rank := LengthRank(g, t, s);
    forall r, i | r in g && 0 <= i < |g[r]| && g[r][i].Rule?
      ensures rank[g[r][i].r] < rank[r]
    {
      if r == s {
        FlatPart(g[r], i, t);
      } else {
        ReferenceIsShorter(g, t, s, r, i);
      }
    }
  }
}
