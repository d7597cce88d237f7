/**
  The compressor's memory together with the text of every rule, and how the
  text table follows the three grammar steps.
 */
module SequiturState {
  import opened Grammar
  import opened SequiturHeap
  import opened SequiturExpand

  datatype State = State(h: Heap, body: Bodies, owner: Owners, text: Texts)

  ghost function KeysOf(xs: seq<Ptr>, key: map<Ptr, Key>): seq<Key> {
    seq(|xs|, i requires 0 <= i < |xs| => if xs[i] in key then key[xs[i]] else Zero)
  }

  lemma KeyAt(xs: seq<Ptr>, key: map<Ptr, Key>, i: nat)
    ensures |KeysOf(xs, key)| == |xs| && (i < |xs| && xs[i] in key ==> KeysOf(xs, key)[i] == key[xs[i]])
  {
  }

  /** The grammar held by the linked rings. */
  ghost function Prod(st: State): Productions {
    map r | r in st.body :: KeysOf(st.body[r], st.h.key)
  }

  ghost predicate TextedRule(st: State, s: RuleId, r: RuleId) {
    && r in st.text && r in st.body
    && st.text[r] == Flat(KeysOf(st.body[r], st.h.key), st.text)
    && (r != s ==> |st.body[r]| >= 2 && st.text[r] != [])
  }

  /** `text` is the meaning of the rules; all rules but the start rule have at
      least two symbols. */
  ghost predicate Texted(st: State, s: RuleId) {
    && SameDomain(st.text, st.h.guard)
    && (forall r {:trigger TextedRule(st, s, r)} :: r in st.h.guard ==> TextedRule(st, s, r))
  }

  ghost predicate Inv(st: State, s: RuleId) {
    Sound(st.h, st.body, st.owner, s) && Texted(st, s)
  }

  /** Every rule but the start rule is in use. */
  ghost predicate Used(st: State, s: RuleId) {
    forall r {:trigger Uses(st.h, r)} :: r in st.h.guard && r != s ==> Uses(st.h, r) != {}
  }

  ghost predicate UsedBut(st: State, s: RuleId, except: RuleId) {
    forall r {:trigger Uses(st.h, r)} :: r in st.h.guard && r != s && r != except ==> Uses(st.h, r) != {}
  }

  // ---------------------------------------------------------------------
  // From rings to grammar
  // ---------------------------------------------------------------------

  lemma SymbolInBody(st: State, s: RuleId, r: RuleId, i: nat)
    requires Sound(st.h, st.body, st.owner, s) && r in st.h.guard && r in st.body && i < |st.body[r]|
    ensures var x := st.body[r][i];
      && x in st.h.key && x in st.owner && st.owner[x] == r && !Guards(st.h, x)
      && st.h.key[x] != Zero && st.h.key[x] != Rule(s) && st.h.key[x] != Rule(r)
      && (st.h.key[x].Rule? ==> st.h.key[x].r in st.h.guard && x in Uses(st.h, st.h.key[x].r))
  {
    var x := st.body[r][i];
    assert PlacedRule(st.h, st.body, st.owner, r);
    OnCircle(st.h, st.body, st.owner, r, i + 1);
    assert Circle(st.h, st.body, r)[i + 1] == x;
    GuardOwner(st.h, st.body, st.owner, s, x);
    assert RefOk(st.h, st.owner, s, x);
  }

  lemma SoundRule(st: State, s: RuleId, r: RuleId)
    requires Sound(st.h, st.body, st.owner, s) && r in st.h.guard
    ensures PlacedRule(st.h, st.body, st.owner, r)
    ensures st.h.guard[r] in st.h.key && st.h.key[st.h.guard[r]] == Rule(r)
  {
  }

  lemma StartDomain(st: State, s: RuleId)
    requires Sound(st.h, st.body, st.owner, s)
    ensures s in st.h.guard && s in st.body
  {
  }

  lemma Domains(st: State, s: RuleId)
    requires Inv(st, s)
    ensures s in st.h.guard && SameDomain(st.body, st.h.guard) && SameDomain(st.text, st.h.guard)
    ensures SameDomain(st.h.count, st.h.guard) && SameDomain(st.text, st.body)
  {
  }

  lemma ProdRules(st: State, s: RuleId)
    requires Inv(st, s)
    ensures Prod(st).Keys == st.h.guard.Keys && s in st.h.guard && s in st.text
    ensures forall r :: r in Prod(st) ==> r in st.body && Prod(st)[r] == KeysOf(st.body[r], st.h.key)
  {
    hide Sound, Texted, KeysOf;
    Domains(st, s);
  }

  lemma GrammarMeans(st: State, s: RuleId)
    requires Texted(st, s) && SameDomain(st.body, st.h.guard)
    ensures Means(Prod(st), st.text)
  {
    forall r | r in Prod(st) ensures r in st.text && st.text[r] == Flat(Prod(st)[r], st.text) {
      assert TextedRule(st, s, r);
    }
  }

  /** The grammar is closed, has at least two symbols in every rule, and never
      refers to the start rule. */
  lemma GrammarIsProper(st: State, s: RuleId)
    requires Inv(st, s)
    ensures Proper(Prod(st), s) && Means(Prod(st), st.text) && NoneEmpty(Prod(st), st.text, s)
  {
    var g := Prod(st);
    GrammarMeans(st, s);
    forall r, i | r in g && 0 <= i < |g[r]|
      ensures g[r][i] != Zero && (g[r][i].Rule? ==> g[r][i].r in g && g[r][i].r != s)
    {
      SymbolInBody(st, s, r, i);
    }
    forall r | r in g && r != s ensures |g[r]| >= 2 && st.text[r] != [] {
      assert TextedRule(st, s, r);
    }
  }

  /** The reference graph is acyclic and the full expansion of every rule is its text. */
  lemma ExpandsToText(st: State, s: RuleId)
    requires Inv(st, s)
    ensures Means(Prod(st), st.text) && Ranked(Prod(st), LengthRank(Prod(st), st.text, s))
    ensures forall r :: r in Prod(st) ==>
      Expand(Prod(st), LengthRank(Prod(st), st.text, s), r) == st.text[r]
  {
    GrammarIsProper(st, s);
    LengthsRank(Prod(st), st.text, s);
    forall r | r in Prod(st) ensures Expand(Prod(st), LengthRank(Prod(st), st.text, s), r) == st.text[r] {
      TextIsExpansion(Prod(st), LengthRank(Prod(st), st.text, s), st.text, r);
    }
  }

  /** A symbol's rule is shorter than the rule the symbol stands in. */
  lemma UseIsShorter(st: State, s: RuleId, r: RuleId, i: nat)
    requires Inv(st, s) && r in st.body && r != s && i < |st.body[r]|
    requires st.body[r][i] in st.h.key && st.h.key[st.body[r][i]].Rule?
    ensures var q := st.h.key[st.body[r][i]].r; q in st.text && r in st.text && |st.text[q]| < |st.text[r]|
  {
    GrammarIsProper(st, s);
    ReferenceIsShorter(Prod(st), st.text, s, r, i);
  }

  /** Following the links along a circle. */
  lemma CircleStep(st: State, s: RuleId, r: RuleId, k: nat)
    requires Sound(st.h, st.body, st.owner, s) && r in st.h.guard && r in st.body
    requires k < |Circle(st.h, st.body, r)|
    ensures var c := Circle(st.h, st.body, r); var y := c[Succ(k, |c|)];
      && c[k] in st.h.key && y in st.h.key && c[k] in st.h.n && st.h.n[c[k]] == y && y in st.h.p && st.h.p[y] == c[k]
  {
    var c := Circle(st.h, st.body, r);
    assert LinkedRule(st.h, st.body, r) && PlacedRule(st.h, st.body, st.owner, r);
    assert LinkAt(c, k, st.h.n, st.h.p);
    OnCircle(st.h, st.body, st.owner, r, k);
    OnCircle(st.h, st.body, st.owner, r, Succ(k, |c|));
  }

  // ---------------------------------------------------------------------
  // What survives a step
  // ---------------------------------------------------------------------

  ghost predicate SurvivesRule(st: State, st': State, s: RuleId, bound: nat, q: RuleId) {
    q in st.text && q in st'.text && q in st.body && q in st'.body ==>
      && st'.text[q] == st.text[q]
      && (q != s && |st.text[q]| < bound ==>
            st'.body[q] == st.body[q] && KeysOf(st'.body[q], st'.h.key) == KeysOf(st.body[q], st.h.key))
  }

  /** Rules alive before and after keep their text; those with a text shorter than
      `bound` keep their very symbols. */
  ghost predicate Survives(st: State, st': State, s: RuleId, bound: nat) {
    forall q {:trigger SurvivesRule(st, st', s, bound, q)} :: SurvivesRule(st, st', s, bound, q)
  }

  lemma SurvivesWeaker(st: State, st': State, s: RuleId, b: nat, c: nat)
    requires Survives(st, st', s, b) && c <= b
    ensures Survives(st, st', s, c)
  {
    forall q ensures SurvivesRule(st, st', s, c, q) {
      assert SurvivesRule(st, st', s, b, q);
    }
  }

  /** Composition, provided no rule is freed before one is allocated. */
  lemma SurvivesTrans(st: State, mid: State, st': State, s: RuleId, b: nat)
    requires Survives(st, mid, s, b) && Survives(mid, st', s, b)
    requires SameDomain(mid.text, mid.body)
    requires (forall q {:trigger q in mid.text} :: q in st.text ==> q in mid.text)
          || (forall q {:trigger q in mid.text} :: q in st'.text ==> q in mid.text)
    ensures Survives(st, st', s, b)
  {
    forall q ensures SurvivesRule(st, st', s, b, q) {
      assert SurvivesRule(st, mid, s, b, q);
      assert SurvivesRule(mid, st', s, b, q);
      assert q in mid.text <==> q in mid.body;
    }
  }

  // ---------------------------------------------------------------------
  // Replacing a digram by a rule
  // ---------------------------------------------------------------------

  /** Symbols `i` and `i + 1` of rule `o` are the two symbols of rule `r`. */
  ghost predicate Replaceable(st: State, s: RuleId, o: RuleId, i: nat, r: RuleId) {
    && o in st.h.guard && o in st.body && r in st.h.guard && r in st.body && r != s && o != r
    && i + 2 <= |st.body[o]| && |st.body[r]| == 2
    && (o != s ==> |st.body[o]| >= 3)
    && KeysOf(st.body[r], st.h.key) == KeysOf(st.body[o], st.h.key)[i..i + 2]
  }

  /** The new symbol `z` may take the address of one of the two it replaces. */
  ghost predicate Replaced(st: State, st': State, o: RuleId, i: nat, r: RuleId, z: Ptr) {
    && o in st.body && i + 2 <= |st.body[o]|
    && z !in st.h.key - {st.body[o][i], st.body[o][i + 1]}
    && st'.body == st.body[o := st.body[o][..i] + [z] + st.body[o][i + 2..]]
    && st'.h.guard == st.h.guard && st'.text == st.text
    && st'.h.key == (st.h.key - {st.body[o][i], st.body[o][i + 1]})[z := Rule(r)]
  }

  lemma ReplacedElsewhere(st: State, st': State, s: RuleId, o: RuleId, i: nat, r: RuleId, z: Ptr, q: RuleId)
    requires Sound(st.h, st.body, st.owner, s) && Replaced(st, st', o, i, r, z)
    requires o in st.h.guard && q in st.h.guard && q != o
    ensures q in st.body && q in st'.body && st'.body[q] == st.body[q]
    ensures KeysOf(st'.body[q], st'.h.key) == KeysOf(st.body[q], st.h.key)
  {
    hide Sound;
    SoundRule(st, s, q);
    SymbolInBody(st, s, o, i);
    SymbolInBody(st, s, o, i + 1);
    forall j | 0 <= j < |st.body[q]|
      ensures st.body[q][j] in st.h.key && st.body[q][j] in st'.h.key
      ensures st'.h.key[st.body[q][j]] == st.h.key[st.body[q][j]]
    {
      SymbolInBody(st, s, q, j);
    }
  }

  lemma ReplacedHere(st: State, st': State, s: RuleId, o: RuleId, i: nat, r: RuleId, z: Ptr)
    requires Sound(st.h, st.body, st.owner, s) && Replaced(st, st', o, i, r, z)
    requires o in st.h.guard
    ensures var ks := KeysOf(st.body[o], st.h.key);
      KeysOf(st'.body[o], st'.h.key) == ks[..i] + [Rule(r)] + ks[i + 2..]
  {
    hide Sound;
    var xs, ys := st.body[o], st'.body[o];
    var ks := KeysOf(xs, st.h.key);
    SoundRule(st, s, o);
    var c := Circle(st.h, st.body, o);
    forall j | 0 <= j < |ys|
      ensures KeysOf(ys, st'.h.key)[j] == (ks[..i] + [Rule(r)] + ks[i + 2..])[j]
    {
      if j != i {
        var k := if j < i then j else j + 1;
        SymbolInBody(st, s, o, k);
        assert ys[j] == xs[k] && xs[k] == c[k + 1] && xs[i] == c[i + 1] && xs[i + 1] == c[i + 2];
      }
    }
  }

  lemma ReplacedTexted(st: State, st': State, s: RuleId, o: RuleId, i: nat, r: RuleId, z: Ptr)
    requires Inv(st, s) && Replaceable(st, s, o, i, r) && Replaced(st, st', o, i, r, z)
    ensures Texted(st', s)
  {
    hide Sound;
    hide Flat;
    forall q | q in st'.h.guard ensures TextedRule(st', s, q) {
      assert TextedRule(st, s, q);
      if q == o {
        ReplacedTextHere(st, st', s, o, i, r, z);
      } else {
        ReplacedElsewhere(st, st', s, o, i, r, z, q);
      }
    }
  }

  lemma ReplacedTextHere(st: State, st': State, s: RuleId, o: RuleId, i: nat, r: RuleId, z: Ptr)
    requires Inv(st, s) && Replaceable(st, s, o, i, r) && Replaced(st, st', o, i, r, z)
    ensures TextedRule(st', s, o)
  {
    hide Sound;
    hide Flat;
    ReplacedHere(st, st', s, o, i, r, z);
    var ks := KeysOf(st.body[o], st.h.key);
    assert TextedRule(st, s, o) && TextedRule(st, s, r);
    FlatOne(Rule(r), st.text);
    FlatReplace(ks[..i], ks[i..i + 2], [Rule(r)], ks[i + 2..], st.text);
    assert ks == ks[..i] + ks[i..i + 2] + ks[i + 2..];
  }

  lemma ReplacedUses(st: State, st': State, s: RuleId, o: RuleId, i: nat, r: RuleId, z: Ptr, q: RuleId)
    requires Sound(st.h, st.body, st.owner, s) && Replaced(st, st', o, i, r, z) && o in st.h.guard
    ensures Uses(st'.h, q) ==
      Uses(st.h, q) - {st.body[o][i], st.body[o][i + 1]} + (if q == r then {z} else {})
  {
    hide Sound;
    SymbolInBody(st, s, o, i);
    SymbolInBody(st, s, o, i + 1);
    if r in st.h.guard { SoundRule(st, s, r); }
    assert !Guards(st'.h, z);
  }

  lemma ReplacedUsed(st: State, st': State, s: RuleId, o: RuleId, i: nat, r: RuleId, z: Ptr)
    requires Inv(st, s) && Replaceable(st, s, o, i, r) && Replaced(st, st', o, i, r, z) && UsedBut(st, s, r)
    ensures Used(st', s)
  {
    hide Sound; hide Texted;
    var x, y := st.body[o][i], st.body[o][i + 1];
    forall q | q in st'.h.guard && q != s ensures Uses(st'.h, q) != {} {
      ReplacedUses(st, st', s, o, i, r, z, q);
      if q == r {
        assert z in Uses(st'.h, q);
      } else {
        var u :| u in Uses(st.h, q);
        SymbolInBody(st, s, o, i);
        SymbolInBody(st, s, o, i + 1);
        SymbolInBody(st, s, r, 0);
        SymbolInBody(st, s, r, 1);
        var ks, ls := KeysOf(st.body[o], st.h.key), KeysOf(st.body[r], st.h.key);
        assert ls[0] == ks[i] && ls[1] == ks[i + 1];
        var v := if u == x then st.body[r][0] else if u == y then st.body[r][1] else u;
        assert v in Uses(st'.h, q);
      }
    }
  }

  lemma ReplacedSurvives(st: State, st': State, s: RuleId, o: RuleId, i: nat, r: RuleId, z: Ptr, b: nat)
    requires Inv(st, s) && Replaced(st, st', o, i, r, z) && o in st.h.guard
    requires o != s ==> o in st.text && b <= |st.text[o]|
    ensures Survives(st, st', s, b)
  {
    hide Sound;
    forall q ensures SurvivesRule(st, st', s, b, q) {
      if q in st.text && q != o {
        ReplacedElsewhere(st, st', s, o, i, r, z, q);
      }
    }
  }

  // ---------------------------------------------------------------------
  // Making a rule with two symbols
  // ---------------------------------------------------------------------

  ghost predicate PairMade(st: State, st': State, r: RuleId, g: Ptr, f: Ptr, l: Ptr, k1: Key, k2: Key) {
    && r !in st.h.guard && g !in st.h.key && f !in st.h.key && l !in st.h.key && g != f && g != l && f != l
    && st'.h.guard == st.h.guard[r := g]
    && st'.h.key == st.h.key[g := Rule(r)][f := k1][l := k2]
    && st'.body == st.body[r := [f, l]]
    && st'.text == st.text[r := KeyText(k1, st.text) + KeyText(k2, st.text)]
  }

  /** Nothing refers to a rule that is not there. */
  lemma NoRefs(st: State, s: RuleId, r: RuleId, x: Ptr)
    requires Sound(st.h, st.body, st.owner, s) && r !in st.h.guard && x in st.h.key
    ensures st.h.key[x] != Rule(r)
  {
    assert RefOk(st.h, st.owner, s, x);
  }

  lemma PairElsewhere(st: State, st': State, s: RuleId, r: RuleId, g: Ptr, f: Ptr, l: Ptr, k1: Key, k2: Key, q: RuleId)
    requires Inv(st, s) && PairMade(st, st', r, g, f, l, k1, k2) && q in st.h.guard
    ensures q in st.body && q in st'.body && st'.body[q] == st.body[q]
    ensures KeysOf(st'.body[q], st'.h.key) == KeysOf(st.body[q], st.h.key)
    ensures Flat(KeysOf(st'.body[q], st'.h.key), st'.text) == Flat(KeysOf(st.body[q], st.h.key), st.text)
  {
    hide Sound;
    SoundRule(st, s, q);
    var ks := KeysOf(st.body[q], st.h.key);
    forall j | 0 <= j < |st.body[q]|
      ensures st.body[q][j] in st.h.key && KeyText(ks[j], st.text) == KeyText(ks[j], st'.text)
    {
      SymbolInBody(st, s, q, j);
      NoRefs(st, s, r, st.body[q][j]);
    }
    FlatAgrees(ks, st.text, st'.text);
  }

  lemma PairKeepsStart(st: State, st': State, s: RuleId, r: RuleId, g: Ptr, f: Ptr, l: Ptr, k1: Key, k2: Key)
    requires Inv(st, s) && PairMade(st, st', r, g, f, l, k1, k2)
    ensures s in st.body && s in st'.body && st'.body[s] == st.body[s]
  {
    hide Sound, Texted;
    Domains(st, s);
  }

  lemma SoundTable(st: State, s: RuleId)
    requires Inv(st, s)
    ensures TableOk(st.h)
  {
  }

  lemma PairTexted(st: State, st': State, s: RuleId, r: RuleId, g: Ptr, f: Ptr, l: Ptr, k1: Key, k2: Key)
    requires Inv(st, s) && PairMade(st, st', r, g, f, l, k1, k2) && k1 != Rule(r) && k2 != Rule(r)
    requires KeyText(k1, st.text) != []
    ensures Texted(st', s)
  {
    hide Sound;
    forall q | q in st'.h.guard ensures TextedRule(st', s, q) {
      if q == r {
        assert KeysOf([f, l], st'.h.key) == [k1, k2];
        FlatPair(k1, k2, st'.text);
      } else {
        assert TextedRule(st, s, q);
        PairElsewhere(st, st', s, r, g, f, l, k1, k2, q);
      }
    }
  }

  lemma PairUses(st: State, st': State, s: RuleId, r: RuleId, g: Ptr, f: Ptr, l: Ptr, k1: Key, k2: Key, q: RuleId)
    requires Inv(st, s) && PairMade(st, st', r, g, f, l, k1, k2) && k1 != Rule(r) && k2 != Rule(r)
    ensures q == r ==> Uses(st'.h, q) == {}
    ensures q in st.h.guard ==> Uses(st.h, q) <= Uses(st'.h, q)
  {
    hide Sound; hide Texted;
    if q == r {
      forall x | x in Uses(st'.h, r) ensures false {
        if x in st.h.key { NoRefs(st, s, r, x); }
      }
    } else if q in st.h.guard {
      SoundRule(st, s, q);
    }
  }

  lemma PairUsed(st: State, st': State, s: RuleId, r: RuleId, g: Ptr, f: Ptr, l: Ptr, k1: Key, k2: Key)
    requires Inv(st, s) && PairMade(st, st', r, g, f, l, k1, k2) && k1 != Rule(r) && k2 != Rule(r) && Used(st, s)
    ensures Uses(st'.h, r) == {} && UsedBut(st', s, r)
  {
    hide Sound; hide Texted;
    PairUses(st, st', s, r, g, f, l, k1, k2, r);
    forall q | q in st'.h.guard && q != s && q != r ensures Uses(st'.h, q) != {} {
      PairUses(st, st', s, r, g, f, l, k1, k2, q);
    }
  }

  lemma PairSurvives(st: State, st': State, s: RuleId, r: RuleId, g: Ptr, f: Ptr, l: Ptr, k1: Key, k2: Key, b: nat)
    requires Inv(st, s) && PairMade(st, st', r, g, f, l, k1, k2)
    ensures Survives(st, st', s, b)
  {
    hide Sound;
    forall q ensures SurvivesRule(st, st', s, b, q) {
      if q in st.text { PairElsewhere(st, st', s, r, g, f, l, k1, k2, q); }
    }
  }

  // ---------------------------------------------------------------------
  // Inlining
  // ---------------------------------------------------------------------

  ghost predicate Spliced(st: State, st': State, r: RuleId, a: RuleId) {
    && Expandable(st.h, st.body, r, a)
    && Inlined(st.h, SpotOf(st.h, st.body, r, a), st'.h)
    && st'.body == BodiesInlined(st.body, r, a)
    && st'.text == st.text - {a}
  }

  /** Symbols of the surviving rules keep their keys, and none refers to `a`. */
  lemma SplicedKey(st: State, st': State, s: RuleId, r: RuleId, a: RuleId, q: RuleId, j: nat)
    requires Sound(st.h, st.body, st.owner, s) && Spliced(st, st', r, a)
    requires q in st.h.guard && q in st.body && j < |st.body[q]| && !(q == r && j == 0)
    ensures var x := st.body[q][j];
      x in st.h.key && x in st'.h.key && st'.h.key[x] == st.h.key[x] && st.h.key[x] != Rule(a)
  {
    hide Sound; hide CountKept;
    var x := st.body[q][j];
    SymbolInBody(st, s, q, j);
    SymbolInBody(st, s, r, 0);
    SoundRule(st, s, q);
    SoundRule(st, s, a);
    if q == r {
      var c := Circle(st.h, st.body, q);
      assert c[j + 1] == x && c[1] == st.body[q][0];
    }
    assert x != st.body[r][0];
    assert x !in Uses(st.h, a);
  }

  lemma SplicedElsewhere(st: State, st': State, s: RuleId, r: RuleId, a: RuleId, q: RuleId)
    requires Sound(st.h, st.body, st.owner, s) && Spliced(st, st', r, a) && q in st.h.guard && q != r && q != a
    ensures q in st.body && q in st'.body && st'.body[q] == st.body[q]
    ensures KeysOf(st'.body[q], st'.h.key) == KeysOf(st.body[q], st.h.key)
    ensures Flat(KeysOf(st'.body[q], st'.h.key), st'.text) == Flat(KeysOf(st.body[q], st.h.key), st.text)
  {
    hide Sound; hide Inlined; hide Expandable;
    SoundRule(st, s, q);
    var ks := KeysOf(st.body[q], st.h.key);
    forall j | 0 <= j < |st.body[q]|
      ensures var x := st.body[q][j]; x in st.h.key && x in st'.h.key && st'.h.key[x] == st.h.key[x]
      ensures KeyText(ks[j], st.text) == KeyText(ks[j], st'.text)
    {
      SplicedKey(st, st', s, r, a, q, j);
    }
    FlatAgrees(ks, st.text, st'.text);
  }

  lemma SplicedHere(st: State, st': State, s: RuleId, r: RuleId, a: RuleId)
    requires Inv(st, s) && Spliced(st, st', r, a)
    ensures r in st.text && Flat(KeysOf(st'.body[r], st'.h.key), st'.text) == st.text[r]
  {
    hide Sound; hide Inlined;
    var xs, rs := st.body[a], st.body[r];
    var ka, kr, k' := KeysOf(xs, st.h.key), KeysOf(rs, st.h.key), KeysOf(st'.body[r], st'.h.key);
    assert TextedRule(st, s, a) && TextedRule(st, s, r);
    SymbolInBody(st, s, r, 0);
    forall j | 0 <= j < |k'|
      ensures k'[j] == (ka + kr[1..])[j] && KeyText(k'[j], st.text) == KeyText(k'[j], st'.text)
    {
      if j < |xs| {
        SplicedKey(st, st', s, r, a, a, j);
      } else {
        SplicedKey(st, st', s, r, a, r, j - |xs| + 1);
      }
    }
    assert k' == ka + kr[1..];
    FlatAgrees(k', st.text, st'.text);
    FlatConcat(ka, kr[1..], st.text);
    assert kr[0] == Rule(a);
  }

  lemma SplicedTexted(st: State, st': State, s: RuleId, r: RuleId, a: RuleId)
    requires Inv(st, s) && Spliced(st, st', r, a)
    ensures Texted(st', s)
  {
    hide Sound; hide CountKept; hide Uses;
    forall q | q in st'.h.guard ensures TextedRule(st', s, q) {
      assert TextedRule(st, s, q);
      if q == r {
        SplicedHere(st, st', s, r, a);
        assert TextedRule(st, s, a);
      } else {
        SplicedElsewhere(st, st', s, r, a, q);
      }
    }
  }

  lemma SplicedUsed(st: State, st': State, s: RuleId, r: RuleId, a: RuleId)
    requires Inv(st, s) && Spliced(st, st', r, a) && Used(st, s)
    ensures Used(st', s)
  {
    hide Texted;
    SpotKeysHold(st.h, st.body, st.owner, s, r, a);
    hide Sound; hide SpotKeys;
    forall q | q in st'.h.guard && q != s ensures Uses(st'.h, q) != {} {
      InlinedUses(st.h, SpotOf(st.h, st.body, r, a), st'.h, q);
    }
  }

  lemma SplicedSurvives(st: State, st': State, s: RuleId, r: RuleId, a: RuleId, b: nat)
    requires Inv(st, s) && Spliced(st, st', r, a) && r in st.text && b <= |st.text[r]|
    ensures Survives(st, st', s, b)
  {
    hide Sound; hide Inlined; hide Expandable;
    forall q ensures SurvivesRule(st, st', s, b, q) {
      if q in st.text && q != r && q != a { SplicedElsewhere(st, st', s, r, a, q); }
    }
  }

  // ---------------------------------------------------------------------
  // The three relinkings of a replacement
  // ---------------------------------------------------------------------

  ghost predicate Deleted(st: State, st': State, o: RuleId, i: nat) {
    && o in st.body && i < |st.body[o]|
    && Deletable(st.h, st.body[o][i]) && st'.h == DeleteHeap(st.h, st.body[o][i])
    && st'.body == BodiesWithout(st.body, o, i) && st'.text == st.text
  }

  lemma DeletedFields(st: State, st': State, o: RuleId, i: nat)
    requires Deleted(st, st', o, i)
    ensures st'.h.guard == st.h.guard && st'.h.key == st.h.key - {st.body[o][i]}
    ensures o in st'.body && st'.body[o] == st.body[o][..i] + st.body[o][i + 1..]
  {
  }

  lemma ReplaceStart(st: State, s: RuleId, o: RuleId, i: nat, r: RuleId)
    requires Inv(st, s) && Replaceable(st, s, o, i, r)
    ensures var c := Circle(st.h, st.body, o);
      && o in st.body && i + 1 < |st.body[o]| && st.body[o][i] in st.h.p && st.h.p[st.body[o][i]] == c[i]
      && c[i] in st.h.n && st.h.n[c[i]] == st.body[o][i]
  {
    hide Sound;
    CircleStep(st, s, o, i);
  }

  lemma ReplaceMiddle(st: State, mid: State, s: RuleId, o: RuleId, i: nat, r: RuleId)
    requires Inv(st, s) && Replaceable(st, s, o, i, r)
    requires Deleted(st, mid, o, i) && Sound(mid.h, mid.body, mid.owner, s)
    ensures o in mid.body && i < |mid.body[o]| && mid.body[o][i] == st.body[o][i + 1]
    ensures var q := Circle(st.h, st.body, o)[i]; q in mid.h.n && mid.h.n[q] == mid.body[o][i]
  {
    hide Sound;
    DeletedFields(st, mid, o, i);
    CircleStep(mid, s, o, i);
    assert Circle(mid.h, mid.body, o)[i] == Circle(st.h, st.body, o)[i];
  }

  lemma ReplaceGap(st: State, mid: State, gap: State, s: RuleId, o: RuleId, i: nat, r: RuleId)
    requires Inv(st, s) && Replaceable(st, s, o, i, r)
    requires Deleted(st, mid, o, i) && Deleted(mid, gap, o, i) && mid.body[o][i] == st.body[o][i + 1]
    ensures o in gap.h.guard && o in gap.body && i <= |gap.body[o]|
    ensures Circle(gap.h, gap.body, o)[i] == Circle(st.h, st.body, o)[i]
    ensures KeyFits(gap.h, o, s, Rule(r))
  {
    hide Sound;
    DeletedFields(st, mid, o, i);
    DeletedFields(mid, gap, o, i);
  }

  lemma ReplaceEnd(st: State, mid: State, gap: State, st': State, s: RuleId, o: RuleId, i: nat, r: RuleId, z: Ptr)
    requires Inv(st, s) && Replaceable(st, s, o, i, r)
    requires Deleted(st, mid, o, i) && Deleted(mid, gap, o, i) && mid.body[o][i] == st.body[o][i + 1]
    requires o in gap.h.guard && o in gap.body && i <= |gap.body[o]|
    requires var q := Circle(gap.h, gap.body, o)[i];
      Insertable(gap.h, q, z, Rule(r)) && st'.h == InsertHeap(gap.h, q, z, Rule(r))
    requires st'.body == BodiesWith(gap.body, o, i, z) && st'.text == st.text && z !in gap.h.key
    ensures Replaced(st, st', o, i, r, z)
    ensures o in st'.h.guard && o in st'.body && Circle(st'.h, st'.body, o)[i] == Circle(st.h, st.body, o)[i]
    ensures st'.body[o][i] == z
  {
    hide Sound; hide Insertable; hide Joinable; hide JoinTable;
    DeletedFields(st, mid, o, i);
    DeletedFields(mid, gap, o, i);
    assert st'.h.guard == st.h.guard;
    assert st'.h.key == gap.h.key[z := Rule(r)];
    assert gap.h.key == st.h.key - {st.body[o][i], st.body[o][i + 1]};
    assert gap.body[o] == st.body[o][..i] + st.body[o][i + 2..];
    assert st'.body[o] == st.body[o][..i] + [z] + st.body[o][i + 2..];
  }

  // ---------------------------------------------------------------------
  // Checking a digram
  // ---------------------------------------------------------------------

  /** `x` starts no digram: it or its successor is a guard. */
  ghost predicate Ends(h: Heap, x: Ptr) {
    Guards(h, x) || (x in h.n && Guards(h, h.n[x]))
  }

  lemma CheckReads(st: State, s: RuleId, x: Ptr)
    requires Sound(st.h, st.body, st.owner, s) && x in st.h.key
    ensures HasDigram(st.h, x) && Readable(st.h, x) && Readable(st.h, st.h.n[x])
    ensures IsGuard(st.h, x) || IsGuard(st.h, st.h.n[x]) <==> Ends(st.h, x)
    ensures st.h.n[x] in st.h.p && st.h.p[st.h.n[x]] == x
  {
    Neighbours(st.h, st.body, st.owner, x);
    LinkedIsClosed(st.h, st.body);
    assert RefOk(st.h, st.owner, s, x) && RefOk(st.h, st.owner, s, st.h.n[x]);
    GuardTest(st.h, x);
    GuardTest(st.h, st.h.n[x]);
  }

  /** Recording a digram at a symbol that starts it. */
  lemma Recorded(st: State, s: RuleId, x: Ptr)
    requires Inv(st, s) && HasDigram(st.h, x) && !Ends(st.h, x)
    ensures Inv(st.(h := st.h.(table := st.h.table[DigramOf(st.h, x) := x])), s)
  {
    var h' := st.h.(table := st.h.table[DigramOf(st.h, x) := x]);
    TableOnly(st, s, h'.table) by {
      forall d | d in h'.table ensures Entry(st.h, d, h'.table[d]) {
        if h'.table[d] != x { assert Entry(st.h, d, st.h.table[d]); }
      }
    }
  }

  /** The invariants other than those of the table do not read the table. */
  lemma TableOnly(st: State, s: RuleId, table: map<Digram, Ptr>)
    requires Inv(st, s)
    requires forall d {:trigger Entry(st.h, d, table[d])} :: d in table ==> Entry(st.h, d, table[d])
    ensures Inv(st.(h := st.h.(table := table)), s)
  {
    var h' := st.h.(table := table);
    assert h'.n == st.h.n && h'.p == st.h.p && h'.key == st.h.key && h'.guard == st.h.guard && h'.count == st.h.count;
    TableOnlyLinked(st.h, st.body, h');
    TableOnlyPlaced(st.h, st.body, st.owner, h');
    TableOnlyRefs(st.h, st.owner, s, h');
    TableOnlyCounted(st.h, h');
    TableOnlyTexted(st, s, table);
    forall d | d in table ensures Entry(h', d, table[d]) {
      assert Entry(st.h, d, table[d]);
    }
  }

  ghost predicate TableAside(h: Heap, h': Heap) {
    h'.n == h.n && h'.p == h.p && h'.key == h.key && h'.guard == h.guard && h'.count == h.count
  }

  lemma TableOnlyLinked(h: Heap, body: Bodies, h': Heap)
    requires Linked(h, body) && TableAside(h, h')
    ensures Linked(h', body)
  {
    forall r | r in h'.guard ensures LinkedRule(h', body, r) { assert LinkedRule(h, body, r); }
  }

  lemma TableOnlyPlaced(h: Heap, body: Bodies, owner: Owners, h': Heap)
    requires Placed(h, body, owner) && TableAside(h, h')
    ensures Placed(h', body, owner)
  {
    forall r | r in h'.guard ensures PlacedRule(h', body, owner, r) { assert PlacedRule(h, body, owner, r); }
    forall x | x in h'.key ensures PlacedSymbol(h', body, owner, x) { assert PlacedSymbol(h, body, owner, x); }
  }

  lemma TableOnlyRefs(h: Heap, owner: Owners, s: RuleId, h': Heap)
    requires Refs(h, owner, s) && TableAside(h, h')
    ensures Refs(h', owner, s)
  {
    forall x | x in h'.key ensures RefOk(h', owner, s, x) { assert RefOk(h, owner, s, x); }
  }

  lemma TableOnlyCounted(h: Heap, h': Heap)
    requires Counted(h) && TableAside(h, h')
    ensures Counted(h')
    ensures forall r :: Uses(h', r) == Uses(h, r)
  {
    forall r ensures Uses(h', r) == Uses(h, r) {}
  }

  lemma TableOnlyTexted(st: State, s: RuleId, table: map<Digram, Ptr>)
    requires Texted(st, s)
    ensures Texted(st.(h := st.h.(table := table)), s)
  {
    var st' := st.(h := st.h.(table := table));
    forall r | r in st'.h.guard ensures TextedRule(st', s, r) { assert TextedRule(st, s, r); }
  }

  lemma TableOnlyUsed(st: State, s: RuleId, table: map<Digram, Ptr>)
    requires Used(st, s)
    ensures Used(st.(h := st.h.(table := table)), s)
  {
    forall r | r in st.h.guard && r != s ensures Uses(st.h.(table := table), r) != {} {
      assert Uses(st.h.(table := table), r) == Uses(st.h, r);
    }
  }

  lemma EntriesAtUse(st: State, s: RuleId, r: RuleId, z: Ptr)
    requires Sound(st.h, st.body, st.owner, s) && z in st.h.p && Uses(st.h, r) == {z}
    ensures forall d :: d in st.h.table && d.0 == Rule(r) ==> st.h.table[d] == z
    ensures forall d :: d in st.h.table && d.1 == Rule(r) ==> st.h.table[d] == st.h.p[z]
  {
    forall d | d in st.h.table
      ensures d.0 == Rule(r) ==> st.h.table[d] == z
      ensures d.1 == Rule(r) ==> st.h.table[d] == st.h.p[z]
    {
      var w := st.h.table[d];
      assert Entry(st.h, d, w);
      CheckReads(st, s, w);
      assert d.0 == Rule(r) ==> w in Uses(st.h, r);
      assert d.1 == Rule(r) ==> st.h.n[w] in Uses(st.h, r);
    }
  }

  /** The two digrams around the only use of a rule are in the table only where
      they stand; so if they are not recorded there, they are nowhere. */
  lemma FreshDigrams(st: State, s: RuleId, r: RuleId, q: Ptr, z: Ptr)
    requires Sound(st.h, st.body, st.owner, s) && q in st.h.key && z in st.h.key
    requires st.h.n[q] == z && st.h.key[z] == Rule(r) && Uses(st.h, r) == {z}
    requires Unrecorded(st.h, q) && Unrecorded(st.h, z)
    ensures DigramOf(st.h, q) !in st.h.table
    ensures HasDigram(st.h, z) && DigramOf(st.h, z) !in st.h.table
    ensures !Guards(st.h, q) && q != z ==> DigramOf(st.h, q) != DigramOf(st.h, z)
  {
    CheckReads(st, s, q);
    CheckReads(st, s, z);
    EntriesAtUse(st, s, r, z);
    if !Guards(st.h, q) && q != z && st.h.key[q] == Rule(r) {
      assert q in Uses(st.h, r);
    }
  }

  // ---------------------------------------------------------------------
  // The end of the start rule
  // ---------------------------------------------------------------------

  /** The start rule ends in the digram that `x` starts. */
  ghost predicate AtEnd(st: State, s: RuleId, x: Ptr) {
    s in st.body && |st.body[s]| >= 2 && st.body[s][|st.body[s]| - 2] == x
  }

  ghost function Tail(st: State, s: RuleId): seq<Key>
    requires s in st.body && |st.body[s]| >= 2
  {
    KeysOf(st.body[s], st.h.key)[|st.body[s]| - 2..]
  }

  ghost function TailLength(st: State, s: RuleId): nat
    requires s in st.body && |st.body[s]| >= 2
  {
    |Flat(Tail(st, s), st.text)|
  }

  /** The rule that the last symbol of the start rule refers to is still there. */
  ghost predicate LastLives(st: State, st': State, s: RuleId)
    requires s in st.body && |st.body[s]| >= 2
  {
    Tail(st, s)[1].Rule? ==> Tail(st, s)[1].r in st'.h.guard
  }

  lemma Place(st: State, s: RuleId, x: Ptr) returns (r: RuleId, k: nat)
    requires Sound(st.h, st.body, st.owner, s) && x in st.h.key
    ensures r in st.h.guard && r in st.body && k < |Circle(st.h, st.body, r)| && Circle(st.h, st.body, r)[k] == x
    ensures Guards(st.h, x) <==> k == 0
  {
    r, k := Where(st.h, st.body, st.owner, x);
    GuardOwner(st.h, st.body, st.owner, s, x);
  }

  /** Where the digram that starts at `x` stands. */
  lemma DigramAt(st: State, s: RuleId, x: Ptr) returns (o: RuleId, i: nat)
    requires Sound(st.h, st.body, st.owner, s) && HasDigram(st.h, x) && !Ends(st.h, x)
    ensures o in st.h.guard && o in st.body && i + 2 <= |st.body[o]| && st.body[o][i] == x
    ensures st.h.n[x] == st.body[o][i + 1]
    ensures KeysOf(st.body[o], st.h.key)[i..i + 2] == [DigramOf(st.h, x).0, DigramOf(st.h, x).1]
  {
    hide Sound;
    var r, k := Place(st, s, x);
    var c := Circle(st.h, st.body, r);
    CircleStep(st, s, r, k);
    o, i := r, k - 1;
    assert st.body[o][i] == c[k];
    SoundRule(st, s, r);
    assert Guards(st.h, c[0]);
    assert k + 1 < |c|;
    assert st.body[o][i + 1] == c[k + 1];
  }

  // ---------------------------------------------------------------------
  // Steps of `match` and `substitute`
  // ---------------------------------------------------------------------

  lemma InsertFields(h: Heap, a: Ptr, y: Ptr, k: Key)
    requires Insertable(h, a, y, k)
    ensures InsertHeap(h, a, y, k).guard == h.guard && InsertHeap(h, a, y, k).key == h.key[y := k]
  {
    hide JoinTable; hide Joinable;
  }

  lemma MakeFirst(st: State, a: State, s: RuleId, r: RuleId, g: Ptr, k: Key)
    requires Sound(a.h, a.body, a.owner, s) && r !in st.h.guard && a.h == NewRuleHeap(st.h, r, g)
    requires a.body == st.body[r := []]
    requires s in st.h.guard && k != Zero && (k.Rule? ==> k.r in st.h.guard && k.r != s)
    ensures r in a.h.guard && r in a.body && a.h.guard[r] in a.h.p
    ensures a.h.p[a.h.guard[r]] == Circle(a.h, a.body, r)[0] && KeyFits(a.h, r, s, k)
  {
    hide Sound;
    CircleStep(a, s, r, 0);
  }

  lemma MakeSecond(st: State, a: State, b: State, s: RuleId, r: RuleId, g: Ptr, f: Ptr, k1: Key, k2: Key)
    requires Sound(b.h, b.body, b.owner, s) && r !in st.h.guard && a.h == NewRuleHeap(st.h, r, g)
    requires a.body == st.body[r := []]
    requires Insertable(a.h, g, f, k1) && b.h == InsertHeap(a.h, g, f, k1) && b.body == BodiesWith(a.body, r, 0, f)
    requires s in st.h.guard && k2 != Zero && (k2.Rule? ==> k2.r in st.h.guard && k2.r != s)
    ensures r in b.h.guard && r in b.body && |b.body[r]| == 1 && b.h.guard[r] in b.h.p
    ensures b.h.p[b.h.guard[r]] == Circle(b.h, b.body, r)[1] && KeyFits(b.h, r, s, k2)
  {
    hide Sound; hide Insertable; hide InsertHeap;
    InsertFields(a.h, g, f, k1);
    CircleStep(b, s, r, 1);
  }

  lemma MakeDone(st: State, a: State, b: State, c: State, s: RuleId, r: RuleId, g: Ptr, f: Ptr, l: Ptr, k1: Key,
                 k2: Key)
    requires r !in st.h.guard && g !in st.h.key && a.h == NewRuleHeap(st.h, r, g) && a.body == st.body[r := []]
    requires f !in a.h.key && Insertable(a.h, g, f, k1) && b.h == InsertHeap(a.h, g, f, k1)
    requires b.body == BodiesWith(a.body, r, 0, f)
    requires var q := Circle(b.h, b.body, r)[1];
      && l !in b.h.key && Insertable(b.h, q, l, k2) && c.h == InsertHeap(b.h, q, l, k2)
      && c.body == BodiesWith(b.body, r, 1, l)
    requires c.text == st.text[r := KeyText(k1, st.text) + KeyText(k2, st.text)]
    ensures PairMade(st, c, r, g, f, l, k1, k2)
  {
    hide Insertable; hide InsertHeap;
    InsertFields(a.h, g, f, k1);
    InsertFields(b.h, Circle(b.h, b.body, r)[1], l, k2);
    assert c.body[r] == [f, l];
  }

  lemma CheckEntry(st: State, s: RuleId, x: Ptr, d: Digram)
    requires Inv(st, s) && d in st.h.table && Unrecorded(st.h, x)
    ensures var m := st.h.table[d]; HasDigram(st.h, m) && !Ends(st.h, m) && DigramOf(st.h, m) == d && m != x
  {
    assert Entry(st.h, d, st.h.table[d]);
  }

  /** The end of the start rule as its last two keys. */
  lemma TailKeys(st: State, s: RuleId, x: Ptr)
    requires Sound(st.h, st.body, st.owner, s) && AtEnd(st, s, x)
    ensures HasDigram(st.h, x) && st.h.n[x] == st.body[s][|st.body[s]| - 1]
    ensures Tail(st, s) == [st.h.key[x], st.h.key[st.h.n[x]]]
    ensures !Ends(st.h, x)
  {
    hide Sound;
    StartDomain(st, s);
    var n := |st.body[s]|;
    CircleStep(st, s, s, n - 1);
    SymbolInBody(st, s, s, n - 2);
    SymbolInBody(st, s, s, n - 1);
    var c := Circle(st.h, st.body, s);
    assert c[n - 1] == x && c[n] == st.body[s][n - 1];
  }

  lemma MatchReady(st: State, s: RuleId, x: Ptr, m: Ptr, o: RuleId, i: nat)
    requires Inv(st, s) && AtEnd(st, s, x) && HasDigram(st.h, x) && HasDigram(st.h, m)
    requires DigramOf(st.h, m) == DigramOf(st.h, x) && m != x && st.h.n[m] != x
    requires o in st.body && i + 2 <= |st.body[o]| && st.body[o][i] == m && st.h.n[m] == st.body[o][i + 1]
    requires KeysOf(st.body[o], st.h.key)[i..i + 2] == [DigramOf(st.h, m).0, DigramOf(st.h, m).1]
    ensures KeysOf(st.body[o], st.h.key)[i..i + 2] == Tail(st, s)
    ensures o == s ==> i + 4 <= |st.body[s]|
  {
    hide Sound; hide Texted;
    TailKeys(st, s, x);
  }

  lemma SurvivesSame(st: State, s: RuleId, b: nat)
    ensures Survives(st, st, s, b)
  {
    forall q ensures SurvivesRule(st, st, s, b, q) {}
  }

  lemma LastLivesSame(st: State, s: RuleId)
    requires Sound(st.h, st.body, st.owner, s) && s in st.body && |st.body[s]| >= 2
    ensures LastLives(st, st, s)
  {
    hide Sound;
    StartDomain(st, s);
    SymbolInBody(st, s, s, |st.body[s]| - 1);
  }

  lemma NonEmptyKey(st: State, s: RuleId, r: RuleId, i: nat)
    requires Inv(st, s) && r in st.h.guard && r in st.body && i < |st.body[r]|
    ensures st.body[r][i] in st.h.key && KeyText(st.h.key[st.body[r][i]], st.text) != []
  {
    hide Sound;
    SymbolInBody(st, s, r, i);
    var k := st.h.key[st.body[r][i]];
    if k.Rule? { assert TextedRule(st, s, k.r); }
  }

  lemma MatchReads(st: State, s: RuleId, ss: Ptr, m: Ptr, o: RuleId, i: nat)
    requires Inv(st, s) && AtEnd(st, s, ss)
    requires o in st.body && i + 2 <= |st.body[o]| && st.body[o][i] == m
    ensures o in st.h.guard && s in st.h.guard
    ensures m in st.h.p && m in st.h.n && st.h.n[m] in st.h.n
    ensures Readable(st.h, st.h.p[m]) && Readable(st.h, st.h.n[st.h.n[m]])
    ensures IsGuard(st.h, st.h.p[m]) <==> i == 0
    ensures IsGuard(st.h, st.h.n[st.h.n[m]]) <==> i + 2 == |st.body[o]|
    ensures i == 0 ==> st.h.key[st.h.p[m]] == Rule(o)
    ensures HasDigram(st.h, ss) && Tail(st, s) == [st.h.key[ss], st.h.key[st.h.n[ss]]]
  {
    hide Sound; hide Texted;
    Domains(st, s);
    TailKeys(st, s, ss);
    var c := Circle(st.h, st.body, o);
    SoundRule(st, s, o);
    CircleStep(st, s, o, i);
    CircleStep(st, s, o, i + 1);
    CircleStep(st, s, o, i + 2);
    assert c[i + 1] == m;
    PlaceReads(st, s, o, i);
    PlaceReads(st, s, o, Succ(i + 2, |c|));
  }

  /** What `is_guard` says of the symbol at a place of a circle. */
  lemma PlaceReads(st: State, s: RuleId, o: RuleId, k: nat)
    requires Sound(st.h, st.body, st.owner, s) && o in st.h.guard && o in st.body && k < |Circle(st.h, st.body, o)|
    ensures var x := Circle(st.h, st.body, o)[k];
      x in st.h.key && Readable(st.h, x) && (IsGuard(st.h, x) <==> k == 0) && (k == 0 ==> st.h.key[x] == Rule(o))
  {
    var x := Circle(st.h, st.body, o)[k];
    LinkedIsClosed(st.h, st.body);
    assert PlacedRule(st.h, st.body, st.owner, o);
    OnCircle(st.h, st.body, st.owner, o, k);
    GuardOwner(st.h, st.body, st.owner, s, x);
    assert RefOk(st.h, st.owner, s, x);
    GuardTest(st.h, x);
  }

  /** The keys at the end fit a new rule. */
  lemma TailFits(st: State, s: RuleId, ss: Ptr)
    requires Inv(st, s) && AtEnd(st, s, ss) && HasDigram(st.h, ss)
    ensures var k1, k2 := st.h.key[ss], st.h.key[st.h.n[ss]];
      && KeyText(k1, st.text) != [] && KeyText(k2, st.text) != []
      && k1 != Zero && (k1.Rule? ==> k1.r in st.h.guard && k1.r != s)
      && k2 != Zero && (k2.Rule? ==> k2.r in st.h.guard && k2.r != s)
      && TailLength(st, s) == |KeyText(k1, st.text)| + |KeyText(k2, st.text)|
  {
    hide Sound; hide Texted;
    Domains(st, s);
    TailKeys(st, s, ss);
    var n := |st.body[s]|;
    SymbolInBody(st, s, s, n - 2);
    SymbolInBody(st, s, s, n - 1);
    NonEmptyKey(st, s, s, n - 2);
    NonEmptyKey(st, s, s, n - 1);
    FlatPair(st.h.key[ss], st.h.key[st.h.n[ss]], st.text);
  }

  /** After the end of the start rule was replaced by rule `r`. */
  ghost predicate MidOk(st: State, mid: State, s: RuleId, r: RuleId)
    requires s in st.body && |st.body[s]| >= 2
  {
    && Survives(st, mid, s, TailLength(st, s))
    && r != s && r in mid.h.guard && r in mid.body && r in mid.text
    && |mid.body[r]| == 2 && KeysOf(mid.body[r], mid.h.key) == Tail(st, s)
    && |mid.text[r]| == TailLength(st, s)
  }

  lemma ReuseReady(st: State, s: RuleId, o: RuleId, i: nat)
    requires Inv(st, s) && Used(st, s) && s in st.body && |st.body[s]| >= 2
    requires o in st.body && i == 0 && |st.body[o]| == 2 && (o == s ==> i + 4 <= |st.body[s]|)
    requires KeysOf(st.body[o], st.h.key)[i..i + 2] == Tail(st, s)
    ensures Replaceable(st, s, s, |st.body[s]| - 2, o) && UsedBut(st, s, o)
  {
    hide Texted;
    var n := |st.body[s]|;
    assert KeysOf(st.body[o], st.h.key)[0..2] == KeysOf(st.body[o], st.h.key);
    assert KeysOf(st.body[s], st.h.key)[n - 2..n] == Tail(st, s);
  }

  lemma ReuseDone(st: State, mid: State, s: RuleId, r: RuleId)
    requires Inv(st, s) && Inv(mid, s) && s in st.body && |st.body[s]| >= 2 && r in st.body && r != s
    requires |st.body[r]| == 2 && KeysOf(st.body[r], st.h.key)[0..2] == Tail(st, s)
    requires r in mid.h.guard && r in st.text && Survives(st, mid, s, |st.text[r]| + 1)
    ensures MidOk(st, mid, s, r)
  {
    hide Sound;
    Domains(st, s);
    Domains(mid, s);
    assert KeysOf(st.body[r], st.h.key)[0..2] == KeysOf(st.body[r], st.h.key);
    assert TextedRule(st, s, r) && TextedRule(mid, s, r);
    assert SurvivesRule(st, mid, s, |st.text[r]| + 1, r);
    SurvivesWeaker(st, mid, s, |st.text[r]| + 1, TailLength(st, s));
  }

  lemma RuleLength(st: State, s: RuleId, o: RuleId, i: nat)
    requires Inv(st, s) && o in st.body && o != s && i + 2 <= |st.body[o]|
    ensures o in st.text && |Flat(KeysOf(st.body[o], st.h.key)[i..i + 2], st.text)| <= |st.text[o]|
  {
    hide Sound;
    Domains(st, s);
    assert TextedRule(st, s, o);
    var ks := KeysOf(st.body[o], st.h.key);
    assert ks == ks[..i] + ks[i..i + 2] + ks[i + 2..];
    FlatConcat(ks[..i] + ks[i..i + 2], ks[i + 2..], st.text);
    FlatConcat(ks[..i], ks[i..i + 2], st.text);
  }

  lemma FactorReady(st: State, made: State, s: RuleId, o: RuleId, i: nat, r: RuleId, g: Ptr, f: Ptr, l: Ptr, k1: Key,
                    k2: Key)
    requires Inv(st, s) && Inv(made, s) && s in st.body && |st.body[s]| >= 2
    requires o in st.body && i + 2 <= |st.body[o]| && (o == s ==> i + 4 <= |st.body[s]|)
    requires !(i == 0 && i + 2 == |st.body[o]|)
    requires KeysOf(st.body[o], st.h.key)[i..i + 2] == Tail(st, s) && Tail(st, s) == [k1, k2]
    requires PairMade(st, made, r, g, f, l, k1, k2)
    ensures Replaceable(made, s, o, i, r) && made.body[o] == st.body[o]
    ensures s in made.body && made.body[s] == st.body[s] && r != s && Tail(made, s) == Tail(st, s)
    ensures KeysOf(made.body[o], made.h.key)[i..i + 2] == Tail(st, s)
    ensures r in made.text && |made.text[r]| == TailLength(st, s) && Survives(st, made, s, TailLength(st, s))
  {
    hide Sound; hide Texted;
    Domains(st, s);
    PairElsewhere(st, made, s, r, g, f, l, k1, k2, o);
    PairElsewhere(st, made, s, r, g, f, l, k1, k2, s);
    assert KeysOf([f, l], made.h.key) == [k1, k2];
    FlatPair(k1, k2, st.text);
    PairSurvives(st, made, s, r, g, f, l, k1, k2, TailLength(st, s));
  }

  /** The end of the start rule is untouched by the replacement of the earlier digram. */
  lemma FactorHalf(made: State, half: State, s: RuleId, o: RuleId, i: nat, r: RuleId, z: Ptr)
    requires Inv(made, s) && Inv(half, s) && Used(half, s) && Replaced(made, half, o, i, r, z)
    requires Replaceable(made, s, o, i, r) && s in made.body && |made.body[s]| >= 2
    requires o == s ==> i + 4 <= |made.body[s]|
    requires KeysOf(made.body[o], made.h.key)[i..i + 2] == Tail(made, s)
    ensures s in half.body && |half.body[s]| >= 2 && UsedBut(half, s, r)
    ensures half.body[s][|half.body[s]| - 2] == made.body[s][|made.body[s]| - 2]
    ensures Tail(half, s) == Tail(made, s) && Replaceable(half, s, s, |half.body[s]| - 2, r)
    ensures |half.body[s]| <= |made.body[s]|
  {
    hide Sound; hide Texted;
    Domains(made, s);
    ReplacedElsewhere(made, half, s, o, i, r, z, r);
    if o == s {
      ReplacedHere(made, half, s, o, i, r, z);
    } else {
      ReplacedElsewhere(made, half, s, o, i, r, z, s);
    }
    var n := |half.body[s]|;
    assert KeysOf(half.body[s], half.h.key)[n - 2..n] == Tail(half, s);
  }

  lemma FactorDone(st: State, made: State, half: State, mid: State, s: RuleId, o: RuleId, i: nat, r: RuleId, z: Ptr,
                   b: nat)
    requires Inv(made, s) && Inv(half, s) && Inv(mid, s) && s in st.body && |st.body[s]| >= 2 && b == TailLength(st, s)
    requires Survives(st, made, s, b) && (forall q {:trigger q in made.text} :: q in st.text ==> q in made.text)
    requires Replaceable(made, s, o, i, r) && Replaced(made, half, o, i, r, z)
    requires KeysOf(made.body[o], made.h.key)[i..i + 2] == Tail(st, s)
    requires r in made.text && |made.text[r]| == b
    requires r in mid.h.guard && r in half.text && Survives(half, mid, s, |half.text[r]| + 1)
    requires o != s ==> o in made.text && b <= |made.text[o]|
    ensures MidOk(st, mid, s, r)
  {
    hide Sound;
    Domains(made, s);
    Domains(half, s);
    Domains(mid, s);
    ReplacedSurvives(made, half, s, o, i, r, z, b);
    ReplacedElsewhere(made, half, s, o, i, r, z, r);
    assert TextedRule(mid, s, r);
    assert SurvivesRule(half, mid, s, b + 1, r);
    SurvivesWeaker(half, mid, s, b + 1, b);
    SurvivesTrans(st, made, half, s, b);
    SurvivesTrans(st, half, mid, s, b);
  }

  lemma RecordFirst(st: State, mid: State, s: RuleId, r: RuleId)
    requires Inv(mid, s) && Used(mid, s) && s in st.body && |st.body[s]| >= 2 && MidOk(st, mid, s, r)
    ensures mid.h.guard[r] in mid.h.n && mid.h.n[mid.h.guard[r]] == mid.body[r][0]
    ensures var x := mid.body[r][0];
      && HasDigram(mid.h, x) && !Guards(mid.h, x) && !Guards(mid.h, mid.h.n[x])
      && var mid' := mid.(h := mid.h.(table := mid.h.table[DigramOf(mid.h, x) := x]));
      Inv(mid', s) && Used(mid', s) && MidOk(st, mid', s, r)
  {
    hide Sound; hide Texted; hide Used; hide Survives;
    CircleStep(mid, s, r, 0);
    CircleStep(mid, s, r, 1);
    SymbolInBody(mid, s, r, 0);
    SymbolInBody(mid, s, r, 1);
    var x := mid.body[r][0];
    assert Circle(mid.h, mid.body, r)[1] == x && Circle(mid.h, mid.body, r)[2] == mid.body[r][1];
    var table := mid.h.table[DigramOf(mid.h, x) := x];
    Recorded(mid, s, x);
    TableOnlyUsed(mid, s, table);
    SurvivesTableAfter(st, mid, s, TailLength(st, s), table);
  }

  lemma SurvivesTableAfter(st: State, mid: State, s: RuleId, b: nat, table: map<Digram, Ptr>)
    requires Survives(st, mid, s, b)
    ensures Survives(st, mid.(h := mid.h.(table := table)), s, b)
  {
    var mid' := mid.(h := mid.h.(table := table));
    forall q ensures SurvivesRule(st, mid', s, b, q) { assert SurvivesRule(st, mid, s, b, q); }
  }

  /** What the test for an underused rule reads. */
  lemma FirstReads(st: State, mid: State, s: RuleId, r: RuleId)
    requires Inv(mid, s) && s in st.body && |st.body[s]| >= 2 && MidOk(st, mid, s, r)
    ensures mid.h.guard[r] in mid.h.n && mid.h.n[mid.h.guard[r]] == mid.body[r][0]
    ensures var x := mid.body[r][0]; x in mid.h.key && (mid.h.key[x].Rule? ==> mid.h.key[x].r in mid.h.count)
    ensures LastLives(st, mid, s)
  {
    hide Sound; hide Texted; hide Survives;
    Domains(mid, s);
    CircleStep(mid, s, r, 0);
    SymbolInBody(mid, s, r, 0);
    SymbolInBody(mid, s, r, 1);
    assert KeysOf(mid.body[r], mid.h.key)[1] == Tail(st, s)[1];
  }

  /** A rule used once, at the front of `r`, can be inlined there: nothing in it
      can refer to `r`, whose text is longer. */
  lemma UnderUsed(mid: State, s: RuleId, r: RuleId, a: RuleId)
    requires Inv(mid, s) && r in mid.body && r != s && |mid.body[r]| >= 2
    requires var x := mid.body[r][0];
      x in mid.h.key && mid.h.key[x] == Rule(a) && a in mid.h.count && mid.h.count[a] == 1
    ensures Expandable(mid.h, mid.body, r, a) && a != s
  {
    var x := mid.body[r][0];
    hide Sound;
    Domains(mid, s);
    CountIsUses(mid, s, a);
    assert TextedRule(mid, s, a);
    SymbolInBody(mid, s, r, 0);
    assert Uses(mid.h, a) == {x} by { SingleUse(Uses(mid.h, a), x); }
    UseIsShorter(mid, s, r, 0);
    forall i | 0 <= i < |mid.body[a]| ensures mid.body[a][i] in mid.h.key && mid.h.key[mid.body[a][i]] != Rule(r) {
      SymbolInBody(mid, s, a, i);
      if mid.h.key[mid.body[a][i]].Rule? { UseIsShorter(mid, s, a, i); }
    }
  }

  lemma CountIsUses(st: State, s: RuleId, a: RuleId)
    requires Sound(st.h, st.body, st.owner, s) && a in st.h.guard
    ensures a in st.h.count && st.h.count[a] == |Uses(st.h, a)|
  {
  }

  lemma SingleUse(u: set<Ptr>, x: Ptr)
    requires |u| == 1 && x in u
    ensures u == {x}
  {
    assert |u - {x}| == 0;
  }

  lemma UnderUsedDone(st: State, mid: State, st': State, s: RuleId, r: RuleId, a: RuleId)
    requires Inv(mid, s) && Used(mid, s) && s in st.body && |st.body[s]| >= 2 && MidOk(st, mid, s, r)
    requires Spliced(mid, st', r, a) && Sound(st'.h, st'.body, st'.owner, s) && a != s
    ensures Inv(st', s) && Used(st', s)
    ensures Survives(st, st', s, TailLength(st, s)) && LastLives(st, st', s)
    ensures s in mid.body && s in st'.body && st'.body[s] == mid.body[s]
  {
    hide Sound; hide Texted; hide Used; hide Survives; hide Inlined; hide Expandable;
    Domains(mid, s);
    SplicedTexted(mid, st', s, r, a);
    Domains(st', s);
    SplicedUsed(mid, st', s, r, a);
    var b := TailLength(st, s);
    SplicedSurvives(mid, st', s, r, a, b);
    SurvivesTrans(st, mid, st', s, b);
    SplicedElsewhere(mid, st', s, r, a, s);
    SplicedKey(mid, st', s, r, a, r, 1);
    assert KeysOf(mid.body[r], mid.h.key)[1] == Tail(st, s)[1];
    if Tail(st, s)[1].Rule? {
      LiveRef(st', s, mid.body[r][1]);
    }
  }

  lemma LiveRef(st: State, s: RuleId, x: Ptr)
    requires Sound(st.h, st.body, st.owner, s) && x in st.h.key && st.h.key[x].Rule?
    ensures st.h.key[x].r in st.h.guard
  {
    assert RefOk(st.h, st.owner, s, x);
  }

  // ---------------------------------------------------------------------

  lemma SubstituteReady(st: State, mid: State, s: RuleId, o: RuleId, i: nat, r: RuleId, q: Ptr, z: Ptr, isNew: bool)
    requires Inv(st, s) && Inv(mid, s) && Replaced(st, mid, o, i, r, z) && Replaceable(st, s, o, i, r)
    requires Unrecorded(mid.h, q) && Unrecorded(mid.h, z)
    requires o in mid.h.guard && Circle(mid.h, mid.body, o)[i] == q && mid.body[o][i] == z
    requires s in st.body && (isNew ==> Uses(st.h, r) == {}) && (!isNew ==> o == s && i + 2 == |st.body[s]|)
    ensures q in mid.h.key && z in mid.h.key && HasDigram(mid.h, q) && HasDigram(mid.h, z) && mid.h.n[q] == z && q != z
    ensures isNew ==> DigramOf(mid.h, q) !in mid.h.table && DigramOf(mid.h, z) !in mid.h.table
    ensures isNew && !Guards(mid.h, q) ==> DigramOf(mid.h, q) != DigramOf(mid.h, z)
    ensures s in mid.body
    ensures !isNew ==> (Ends(mid.h, q) || AtEnd(mid, s, q)) && Ends(mid.h, z)
    ensures |mid.body[s]| <= |st.body[s]| && (!isNew ==> |mid.body[s]| < |st.body[s]|)
  {
    hide Sound; hide Texted; hide Unrecorded;
    Domains(mid, s);
    var c := Circle(mid.h, mid.body, o);
    CircleStep(mid, s, o, i);
    CircleStep(mid, s, o, i + 1);
    assert c[i + 1] == z;
    SoundRule(mid, s, o);
    CheckReads(mid, s, q);
    CheckReads(mid, s, z);
    if isNew {
      ReplacedUses(st, mid, s, o, i, r, z, r);
      assert mid.h.key[z] == Rule(r);
      FreshDigrams(mid, s, r, q, z);
    } else {
      assert Guards(mid.h, c[0]);
      if i > 0 { assert c[i] == mid.body[s][i - 1]; }
    }
  }

  lemma SubstituteNext(mid: State, next: State, q: Ptr, z: Ptr, isNew: bool)
    requires HasDigram(mid.h, q) && HasDigram(mid.h, z) && mid.h.n[q] == z && q != z && Unrecorded(mid.h, z)
    requires isNew ==> DigramOf(mid.h, q) !in mid.h.table && DigramOf(mid.h, z) !in mid.h.table
    requires isNew && !Guards(mid.h, q) ==> DigramOf(mid.h, q) != DigramOf(mid.h, z)
    requires !isNew ==> Ends(mid.h, z)
    requires next.h == mid.h.(table := next.h.table)
    requires next.h.table == mid.h.table
          || (!Ends(mid.h, q) && next.h.table == mid.h.table[DigramOf(mid.h, q) := q])
    ensures next.h.n[q] == z && HasDigram(next.h, z) && Unrecorded(next.h, z)
    ensures isNew ==> DigramOf(next.h, z) !in next.h.table
    ensures !isNew ==> Ends(next.h, z)
  {
  }

  lemma SubstituteQuiet(st: State, mid: State, st': State, s: RuleId, o: RuleId, i: nat, r: RuleId, z: Ptr, isNew: bool)
    requires Inv(st, s) && Inv(st', s) && Replaced(st, mid, o, i, r, z) && Replaceable(st, s, o, i, r)
    requires !isNew ==> o == s
    requires st'.body == mid.body && st'.text == mid.text && TableAside(mid.h, st'.h)
    ensures Replaced(st, st', o, i, r, z)
    ensures !isNew ==> r in st'.h.guard && r in st.text && Survives(st, st', s, |st.text[r]| + 1)
  {
    hide Sound; hide Texted;
    Domains(st, s);
    assert Replaced(st, st', o, i, r, z);
    if !isNew { ReplacedSurvives(st, st', s, o, i, r, z, |st.text[r]| + 1); }
  }

  lemma SubstituteFound(st: State, mid: State, st': State, s: RuleId, i: nat, r: RuleId, q: Ptr, z: Ptr)
    requires Inv(st, s) && Inv(mid, s) && Inv(st', s) && Replaced(st, mid, s, i, r, z) && Replaceable(st, s, s, i, r)
    requires i + 2 == |st.body[s]| && AtEnd(mid, s, q) && mid.body[s][i] == z
    requires Survives(mid, st', s, TailLength(mid, s)) && LastLives(mid, st', s)
    ensures r in st'.h.guard && r in st.text && Survives(st, st', s, |st.text[r]| + 1)
  {
    hide Sound; hide Texted; hide Survives;
    Domains(st, s);
    Domains(mid, s);
    TailKeys(mid, s, q);
    TailFits(mid, s, q);
    assert mid.h.key[z] == Rule(r);
    var b := |st.text[r]| + 1;
    ReplacedSurvives(st, mid, s, s, i, r, z, b);
    SurvivesWeaker(mid, st', s, TailLength(mid, s), b);
    SurvivesTrans(st, mid, st', s, b);
  }

  lemma MidFacts(st: State, mid: State, s: RuleId, r: RuleId)
    requires s in st.body && |st.body[s]| >= 2 && MidOk(st, mid, s, r)
    ensures r != s && r in mid.h.guard && r in mid.body && |mid.body[r]| == 2
    ensures Survives(st, mid, s, TailLength(st, s))
  {
  }

  lemma FactorLengths(st: State, made: State, half: State, s: RuleId, o: RuleId, i: nat, r: RuleId,
                      g: Ptr, f: Ptr, l: Ptr, k1: Key, k2: Key, z: Ptr)
    requires Inv(made, s) && PairMade(st, made, r, g, f, l, k1, k2) && Replaced(made, half, o, i, r, z)
    requires s in st.body && |st.body[s]| >= 2 && Tail(st, s) == [k1, k2]
    requires o in made.body && i + 2 <= |made.body[o]|
    requires Replaceable(made, s, o, i, r) && KeysOf(made.body[o], made.h.key)[i..i + 2] == [k1, k2]
    requires (k1.Rule? ==> k1.r in st.h.guard) && (k2.Rule? ==> k2.r in st.h.guard)
    ensures forall q {:trigger q in made.text} :: q in st.text ==> q in made.text
    ensures half.text == made.text && r in made.text
    ensures o != s ==> o in made.text && TailLength(st, s) <= |made.text[o]|
  {
    hide Sound; hide Texted;
    Domains(made, s);
    if o != s { RuleLength(made, s, o, i); }
    FlatPair(k1, k2, made.text);
    FlatPair(k1, k2, st.text);
  }

  lemma ReplaceableFacts(st: State, s: RuleId, o: RuleId, i: nat, r: RuleId)
    requires Replaceable(st, s, o, i, r)
    ensures o in st.body && i + 2 <= |st.body[o]| && o in st.h.guard
  {
  }

  // ---------------------------------------------------------------------
  // Appending
  // ---------------------------------------------------------------------

  /** `st'` is `st` with the new symbol `y` for character `c` at the end of the start rule. */
  ghost predicate Appended(st: State, st': State, s: RuleId, y: Ptr, c: int) {
    && s in st.body && s in st.text && y !in st.h.key
    && st'.h.guard == st.h.guard && st'.h.key == st.h.key[y := Terminal(c)]
    && st'.body == st.body[s := st.body[s] + [y]]
    && st'.text == st.text[s := st.text[s] + [c]]
  }

  lemma AppendedElsewhere(st: State, st': State, s: RuleId, y: Ptr, c: int, q: RuleId)
    requires Inv(st, s) && Appended(st, st', s, y, c) && q in st.h.guard
    ensures q in st.body && q in st'.body
    ensures KeysOf(st.body[q], st'.h.key) == KeysOf(st.body[q], st.h.key)
    ensures Flat(KeysOf(st.body[q], st.h.key), st'.text) == Flat(KeysOf(st.body[q], st.h.key), st.text)
  {
    hide Sound; hide Texted;
    Domains(st, s);
    var ks := KeysOf(st.body[q], st.h.key);
    forall j | 0 <= j < |st.body[q]|
      ensures st.body[q][j] in st.h.key && KeyText(ks[j], st.text) == KeyText(ks[j], st'.text)
    {
      SymbolInBody(st, s, q, j);
    }
    FlatAgrees(ks, st.text, st'.text);
  }

  lemma AppendedTexted(st: State, st': State, s: RuleId, y: Ptr, c: int)
    requires Inv(st, s) && Appended(st, st', s, y, c)
    ensures Texted(st', s)
  {
    hide Sound;
    forall q | q in st'.h.guard ensures TextedRule(st', s, q) {
      assert TextedRule(st, s, q);
      AppendedElsewhere(st, st', s, y, c, q);
      if q == s {
        var ks := KeysOf(st.body[s], st.h.key);
        assert KeysOf(st'.body[s], st'.h.key) == ks + [Terminal(c)];
        FlatConcat(ks, [Terminal(c)], st'.text);
        FlatOne(Terminal(c), st'.text);
      }
    }
  }

  lemma AppendedUsed(st: State, st': State, s: RuleId, y: Ptr, c: int)
    requires Inv(st, s) && Appended(st, st', s, y, c) && Used(st, s)
    ensures Used(st', s)
  {
    hide Sound; hide Texted;
    forall q | q in st'.h.guard && q != s ensures Uses(st'.h, q) != {} {
      var u :| u in Uses(st.h, q);
      assert u in Uses(st'.h, q);
    }
  }

  /** What the append loop reads before and after the insertion. */
  lemma LastPlace(st: State, s: RuleId)
    requires Sound(st.h, st.body, st.owner, s)
    ensures s in st.h.guard && s in st.body && st.h.guard[s] in st.h.p
    ensures st.h.p[st.h.guard[s]] == Circle(st.h, st.body, s)[|st.body[s]|]
  {
    hide Sound;
    StartDomain(st, s);
    CircleStep(st, s, s, |st.body[s]|);
  }

  lemma AppendDone(st: State, st': State, s: RuleId, a: Ptr, y: Ptr, c: int)
    requires Inv(st, s) && Sound(st'.h, st'.body, st'.owner, s)
    requires s in st.body && s in st.h.guard && a == Circle(st.h, st.body, s)[|st.body[s]|]
    requires y !in st.h.key && Insertable(st.h, a, y, Terminal(c)) && st'.h == InsertHeap(st.h, a, y, Terminal(c))
    requires s in st.text && st'.body == BodiesWith(st.body, s, |st.body[s]|, y)
    requires st'.text == st.text[s := st.text[s] + [c]]
    ensures Appended(st, st', s, y, c) && s in st'.h.guard
    ensures st'.h.guard[s] in st'.h.p && st'.h.p[st'.h.guard[s]] == y && y in st'.h.p && st'.h.p[y] == a
    ensures HasDigram(st'.h, a) && (Ends(st'.h, a) || AtEnd(st', s, a))
  {
    hide Sound; hide Texted; hide Insertable; hide InsertHeap;
    InsertFields(st.h, a, y, Terminal(c));
    var n := |st.body[s]|;
    assert st'.body[s] == st.body[s] + [y];
    var k := Circle(st'.h, st'.body, s);
    CircleStep(st', s, s, n);
    CircleStep(st', s, s, n + 1);
    assert k[n] == a && k[n + 1] == y;
    CheckReads(st', s, a);
    SoundRule(st', s, s);
    if n == 0 { assert Guards(st'.h, a); } else { assert st'.body[s][n - 1] == a; }
  }

  lemma AppendKeeps(st: State, mid: State, st': State, s: RuleId, y: Ptr, c: int, found: bool)
    requires Inv(mid, s) && Inv(st', s) && Appended(st, mid, s, y, c)
    requires !found ==> st'.text == mid.text
    requires found ==> s in mid.body && |mid.body[s]| >= 2 && Survives(mid, st', s, TailLength(mid, s))
    ensures s in st'.text && st'.text[s] == st.text[s] + [c]
    ensures forall r :: r in st.text && r in st'.text && r != s ==> st'.text[r] == st.text[r]
  {
    hide Sound; hide Texted; hide TailLength;
    Domains(st', s);
    Domains(mid, s);
    if found {
      forall r | r in mid.text && r in st'.text ensures st'.text[r] == mid.text[r] {
        assert SurvivesRule(mid, st', s, TailLength(mid, s), r);
      }
    }
  }

  /** `g` is acyclic and its rule `s` expands to exactly `t`. */
  ghost predicate Derives(g: Productions, s: RuleId, t: seq<int>) {
    s in g && exists rank :: Ranked(g, rank) && Expand(g, rank, s) == t
  }

  lemma StartDerives(st: State, s: RuleId)
    requires Inv(st, s) && s in st.text
    ensures Derives(Prod(st), s, st.text[s])
  {
    hide Sound; hide Texted;
    Domains(st, s);
    ExpandsToText(st, s);
  }

  /** One rule, no symbols but its guard. */
  lemma StartIsValid(st: State)
    requires st.h == Heap(map[0 := 0], map[0 := 0], map[0 := Rule(0)], map[0 := 0], map[0 := 0], map[])
    requires st.body == map[0 := []] && st.owner == map[0 := 0] && st.text == map[0 := []]
    ensures Inv(st, 0) && Used(st, 0)
  {
    var h, body, owner := st.h, st.body, st.owner;
    assert LinkAt([0], 0, h.n, h.p);
    assert Circle(h, body, 0) == [0];
    assert LinkedRule(h, body, 0) && PlacedRule(h, body, owner, 0) && PlacedSymbol(h, body, owner, 0);
    assert RefOk(h, owner, 0, 0);
    assert Uses(h, 0) == {};
    assert KeysOf(body[0], h.key) == [];
    assert TextedRule(st, 0, 0);
  }

  // ---------------------------------------------------------------------
  // Use counts, read off the grammar
  // ---------------------------------------------------------------------

  /** The places in the grammar that refer to rule `r`. */
  ghost function Occurrences(g: Productions, r: RuleId): set<(RuleId, nat)> {
    set q, i | q in g && 0 <= i < |g[q]| && g[q][i] == Rule(r) :: (q, i)
  }

  ghost predicate Points(body: Bodies, places: set<(RuleId, nat)>) {
    forall a :: a in places ==> a.0 in body && a.1 < |body[a.0]|
  }

  ghost predicate Injective(body: Bodies, places: set<(RuleId, nat)>)
    requires Points(body, places)
  {
    forall a, b :: a in places && b in places && body[a.0][a.1] == body[b.0][b.1] ==> a == b
  }

  lemma {:induction false} ImageSize(body: Bodies, places: set<(RuleId, nat)>)
    requires Points(body, places) && Injective(body, places)
    ensures |set a | a in places :: body[a.0][a.1]| == |places|
    decreases |places|
  {
    var image := set a | a in places :: body[a.0][a.1];
    if places == {} {
      assert image == {};
    } else {
      var a :| a in places;
      var rest := places - {a};
      ImageSize(body, rest);
      assert image == (set b | b in rest :: body[b.0][b.1]) + {body[a.0][a.1]};
    }
  }

  lemma SamePlace(st: State, s: RuleId, q: RuleId, i: nat, q': RuleId, i': nat)
    requires Sound(st.h, st.body, st.owner, s)
    requires q in st.h.guard && q in st.body && i < |st.body[q]| && q' in st.h.guard && q' in st.body
    requires i' < |st.body[q']|
    requires st.body[q][i] == st.body[q'][i']
    ensures q == q' && i == i'
  {
    hide Sound;
    SymbolInBody(st, s, q, i);
    SymbolInBody(st, s, q', i');
    SoundRule(st, s, q);
    var c := Circle(st.h, st.body, q);
    assert c[i + 1] == st.body[q][i] && c[i' + 1] == st.body[q'][i'];
  }

  lemma OccurrencesApart(st: State, s: RuleId, r: RuleId)
    requires Inv(st, s)
    ensures Points(st.body, Occurrences(Prod(st), r)) && Injective(st.body, Occurrences(Prod(st), r))
  {
    hide Sound; hide Texted;
    Domains(st, s);
    var places := Occurrences(Prod(st), r);
    forall a, b | a in places && b in places && st.body[a.0][a.1] == st.body[b.0][b.1] ensures a == b {
      SamePlace(st, s, a.0, a.1, b.0, b.1);
    }
  }

  lemma OccurrencesAreUses(st: State, s: RuleId, r: RuleId)
    requires Inv(st, s) && Points(st.body, Occurrences(Prod(st), r))
    ensures (set a | a in Occurrences(Prod(st), r) :: st.body[a.0][a.1]) == Uses(st.h, r)
  {
    hide Sound; hide Texted;
    Domains(st, s);
    var places := Occurrences(Prod(st), r);
    forall x | x in Uses(st.h, r) ensures exists a :: a in places && st.body[a.0][a.1] == x {
      var q, k := Place(st, s, x);
      assert st.body[q][k - 1] == x && Prod(st)[q][k - 1] == Rule(r);
      assert (q, k - 1) in places;
    }
    forall a | a in places ensures st.body[a.0][a.1] in Uses(st.h, r) {
      SymbolInBody(st, s, a.0, a.1);
    }
  }

  /** `count` is the number of places in the grammar that refer to the rule. */
  lemma CountsOccurrences(st: State, s: RuleId, r: RuleId)
    requires Inv(st, s) && r in st.h.guard
    ensures r in st.h.count && st.h.count[r] == |Occurrences(Prod(st), r)|
  {
    hide Sound; hide Texted; hide Occurrences; hide Uses;
    CountIsUses(st, s, r);
    OccurrencesApart(st, s, r);
    OccurrencesAreUses(st, s, r);
    ImageSize(st.body, Occurrences(Prod(st), r));
  }

  // ---------------------------------------------------------------------
  // Walking round a rule
  // ---------------------------------------------------------------------

  /** The symbol reached after `k` symbols of the rule: the guard after the last one. */
  ghost function RingStop(st: State, r: RuleId, k: nat): Ptr
    requires r in st.h.guard && r in st.body && k <= |st.body[r]|
  {
    if k < |st.body[r]| then st.body[r][k] else st.h.guard[r]
  }

  /** The next symbol follows from the one before, and `is_guard` stops the walk at the end. */
  lemma RingWalk(st: State, s: RuleId, r: RuleId, k: nat)
    requires Sound(st.h, st.body, st.owner, s) && r in st.h.guard
    requires r in st.body ==> k <= |st.body[r]|
    ensures r in st.body
    ensures var x, from := RingStop(st, r, k), if k == 0 then st.h.guard[r] else st.body[r][k - 1];
      && from in st.h.n && st.h.n[from] == x && x in st.h.key
      && Readable(st.h, x) && (IsGuard(st.h, x) <==> k == |st.body[r]|)
  {
    hide Sound, Readable, IsGuard;
    RuleHasBody(st, s, r);
    var c := Circle(st.h, st.body, r);
    CircleStep(st, s, r, k);
    PlaceReads(st, s, r, Succ(k, |c|));
    assert c[Succ(k, |c|)] == RingStop(st, r, k);
  }

  lemma RuleHasBody(st: State, s: RuleId, r: RuleId)
    requires Sound(st.h, st.body, st.owner, s) && r in st.h.guard
    ensures r in st.body
  {
  }
}
