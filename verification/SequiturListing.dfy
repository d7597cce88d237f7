/**
  The listing of a grammar: rules numbered in the order in which they are first met,
  starting from the start rule, and printed one to a line.
 */
module SequiturListing {
  import opened Wrappers
  import opened Grammar
  import opened SequiturState
  import opened SequiturFactor

  datatype Item = Char(c: int) | Number(i: nat)

  // ---------------------------------------------------------------------
  // What a listing is
  // ---------------------------------------------------------------------

  ghost predicate ShowsKey(x: Item, k: Key, order: seq<RuleId>) {
    match k
    case Terminal(c) => x == Char(c)
    case Rule(r) => x.Number? && x.i < |order| && order[x.i] == r
    case Zero => false
  }

  /** The line shows the symbols, every rule by its number. */
  ghost predicate Shows(line: seq<Item>, ks: seq<Key>, order: seq<RuleId>) {
    |line| == |ks| && forall k {:trigger line[k]} :: 0 <= k < |ks| ==> ShowsKey(line[k], ks[k], order)
  }

  /** The number of rules met after a line that began with `n` of them. */
  ghost function Met(line: seq<Item>, n: nat): nat {
    if line == [] then n
    else
      var m, last := Met(line[..|line| - 1], n), line[|line| - 1];
      if last == Number(m) then m + 1 else m
  }

  /** Every number is one of a rule met before, or the next one. */
  ghost predicate Orderly(line: seq<Item>, n: nat) {
    forall k {:trigger line[..k]} :: 0 <= k < |line| && line[k].Number? ==> line[k].i <= Met(line[..k], n)
  }

  ghost function MetAll(lines: seq<seq<Item>>): nat {
    if lines == [] then 1 else Met(lines[|lines| - 1], MetAll(lines[..|lines| - 1]))
  }

  ghost predicate Lists(g: Productions, order: seq<RuleId>, lines: seq<seq<Item>>, i: nat)
    requires i < |order| && i < |lines|
  {
    order[i] in g && Shows(lines[i], g[order[i]], order) && Orderly(lines[i], MetAll(lines[..i]))
  }

  /** Every rule has one line, the start rule the first. */
  ghost predicate IsListing(g: Productions, s: RuleId, order: seq<RuleId>, lines: seq<seq<Item>>) {
    && |order| == |lines| > 0 && order[0] == s
    && (forall r :: r in g ==> r in order)
    && (forall i, j :: 0 <= i < j < |order| ==> order[i] != order[j])
    && (forall i :: 0 <= i < |lines| ==> Lists(g, order, lines, i))
  }

  // ---------------------------------------------------------------------
  // The numbers while the listing is made
  // ---------------------------------------------------------------------

  /** `found` are the rules met so far, in the slots of the array; every rule of the
      grammar has a number, which is its slot if it was met and zero otherwise. */
  ghost predicate Numbering(slots: seq<Option<RuleId>>, found: seq<RuleId>, number: map<RuleId, nat>,
                            all: set<RuleId>, s: RuleId)
  {
    && 1 <= |found| <= |slots| == |all| && found[0] == s
    && (forall i :: 0 <= i < |slots| ==> slots[i] == if i < |found| then Some(found[i]) else None)
    && (forall i :: 0 <= i < |found| ==> found[i] in all && found[i] in number && number[found[i]] == i)
    && (forall r :: r in all ==> r in number && (number[r] == 0 || (number[r] < |found| && found[number[r]] == r)))
  }

  lemma NumberingStarts(slots: seq<Option<RuleId>>, number: map<RuleId, nat>, all: set<RuleId>, s: RuleId)
    requires |slots| == |all| && s in all && forall r :: r in all ==> r in number && number[r] == 0
    requires forall i :: 0 <= i < |slots| ==> slots[i] == if i == 0 then Some(s) else None
    ensures Numbering(slots, [s], number, all, s)
  {
    assert all == {s} + (all - {s});
  }

  /** The slot of its number tells whether a rule was met. */
  lemma SlotTells(slots: seq<Option<RuleId>>, found: seq<RuleId>, number: map<RuleId, nat>,
                  all: set<RuleId>, s: RuleId, r: RuleId)
    requires Numbering(slots, found, number, all, s) && r in all
    ensures r in number && number[r] < |slots|
    ensures slots[number[r]] == Some(r) ==> number[r] < |found| && found[number[r]] == r
    ensures slots[number[r]] != Some(r) ==> r !in found && |found| < |slots|
  {
    if slots[number[r]] != Some(r) {
      forall i | 0 <= i < |found| ensures found[i] != r { assert number[found[i]] == i; }
      FoundIsSmall(found, number, all - {r});
    }
  }

  lemma {:induction false} FoundIsSmall(found: seq<RuleId>, number: map<RuleId, nat>, within: set<RuleId>)
    requires forall i :: 0 <= i < |found| ==> found[i] in within && found[i] in number && number[found[i]] == i
    ensures |found| <= |within|
  {
    if found != [] {
      var n := |found| - 1;
      FoundIsSmall(found[..n], number, within - {found[n]});
    }
  }

  lemma SlotHolds(slots: seq<Option<RuleId>>, found: seq<RuleId>, number: map<RuleId, nat>,
                  all: set<RuleId>, s: RuleId, i: nat)
    requires Numbering(slots, found, number, all, s) && i < |found|
    ensures i < |slots| == |all| && |found| <= |all| && slots[i] == Some(found[i]) && found[i] in all
  {
  }

  lemma NumberingGrows(slots: seq<Option<RuleId>>, found: seq<RuleId>, number: map<RuleId, nat>,
                       all: set<RuleId>, s: RuleId, r: RuleId)
    requires Numbering(slots, found, number, all, s) && r in all && r !in found && |found| < |slots|
    ensures Numbering(slots[|found| := Some(r)], found + [r], number[r := |found|], all, s)
  {
  }

  lemma PrintStarts(ks: seq<Key>, found: seq<RuleId>)
    ensures Shows([], ks[..0], found) && Orderly([], |found|) && Met([], |found|) == |found|
  {
  }

  lemma ShowsMore(line: seq<Item>, ks: seq<Key>, order: seq<RuleId>, more: seq<RuleId>)
    requires Shows(line, ks, order) && order <= more
    ensures Shows(line, ks, more)
  {
  }

  lemma ShowsNext(line: seq<Item>, ks: seq<Key>, order: seq<RuleId>, x: Item, k: nat)
    requires k < |ks| && Shows(line, ks[..k], order) && ShowsKey(x, ks[k], order)
    ensures Shows(line + [x], ks[..k + 1], order)
  {
  }

  lemma OrderlyNext(line: seq<Item>, n: nat, x: Item)
    requires Orderly(line, n) && (x.Number? ==> x.i <= Met(line, n))
    ensures Orderly(line + [x], n)
    ensures Met(line + [x], n) == if x == Number(Met(line, n)) then Met(line, n) + 1 else Met(line, n)
  {
    hide Met;
    var longer := line + [x];
    forall k | 0 <= k < |longer| && longer[k].Number? ensures longer[k].i <= Met(longer[..k], n) {
      assert longer[..k] == line[..k];
      assert k == |line| ==> longer[..k] == line;
    }
    MetNext(line, n, x);
  }

  lemma MetNext(line: seq<Item>, n: nat, x: Item)
    ensures Met(line + [x], n) == if x == Number(Met(line, n)) then Met(line, n) + 1 else Met(line, n)
  {
    assert (line + [x])[..|line|] == line;
  }

  // ---------------------------------------------------------------------
  // Every rule is met
  // ---------------------------------------------------------------------

  ghost predicate StaysIn(g: Productions, found: set<RuleId>) {
    forall q, i :: q in found && q in g && 0 <= i < |g[q]| && g[q][i].Rule? ==> g[q][i].r in found
  }

  /** A rule of highest rank. */
  lemma {:induction false} Highest(rest: set<RuleId>, rank: map<RuleId, nat>) returns (r: RuleId)
    requires rest != {} && rest <= rank.Keys
    ensures r in rest && forall q :: q in rest ==> rank[q] <= rank[r]
  {
    r :| r in rest;
    if rest != {r} {
      var q := Highest(rest - {r}, rank);
      if rank[q] > rank[r] { r := q; }
    }
  }

  lemma UsedFrom(g: Productions, rank: map<RuleId, nat>, s: RuleId, r: RuleId) returns (at: (RuleId, nat))
    requires Ranked(g, rank) && RulesReused(g, s) && r in g && r != s
    ensures at.0 in g && at.1 < |g[at.0]| && g[at.0][at.1] == Rule(r) && rank[r] < rank[at.0]
  {
    assert |Occurrences(g, r)| >= 2;
    at :| at in Occurrences(g, r);
  }

  /** What is used twice is used at all, from a rule of higher rank: nothing lies outside
      of what the start rule leads to. */
  lemma AllAreMet(g: Productions, rank: map<RuleId, nat>, s: RuleId, found: set<RuleId>)
    requires Ranked(g, rank) && RulesReused(g, s) && s in found && found <= g.Keys && StaysIn(g, found)
    ensures found == g.Keys
  {
    var rest := g.Keys - found;
    if rest != {} {
      var r := Highest(rest, rank);
      var at := UsedFrom(g, rank, s, r);
    }
    assert g.Keys == found + rest;
  }

  /** The lines printed so far, for the rules met so far. */
  ghost predicate SoFar(g: Productions, found: seq<RuleId>, lines: seq<seq<Item>>) {
    |lines| <= |found| && forall i :: 0 <= i < |lines| ==> Lists(g, found, lines, i)
  }

  lemma ListsNothing(g: Productions, found: seq<RuleId>)
    ensures SoFar(g, found, []) && MetAll([]) == 1
  {
  }

  lemma SoFarNext(g: Productions, found: seq<RuleId>, lines: seq<seq<Item>>, more: seq<RuleId>, line: seq<Item>)
    requires SoFar(g, found, lines) && |lines| < |found| && found <= more && found[|lines|] in g
    requires Shows(line, g[found[|lines|]], more) && Orderly(line, MetAll(lines))
    ensures SoFar(g, more, lines + [line]) && MetAll(lines + [line]) == Met(line, MetAll(lines))
  {
    hide Orderly, Shows, Met;
    var longer, n := lines + [line], |lines|;
    assert longer[..n] == lines;
    forall i | 0 <= i < |longer| ensures Lists(g, more, longer, i) {
      if i < n {
        assert Lists(g, found, lines, i) && longer[..i] == lines[..i];
        ShowsMore(lines[i], g[found[i]], found, more);
      }
    }
  }

  /** When every rule that was met has its line, every rule has. */
  lemma SoFarDone(g: Productions, s: RuleId, slots: seq<Option<RuleId>>, found: seq<RuleId>, number: map<RuleId, nat>,
                  lines: seq<seq<Item>>, text: seq<int>)
    requires Numbering(slots, found, number, g.Keys, s) && SoFar(g, found, lines) && |lines| == |found|
    requires Derives(g, s, text) && RulesReused(g, s)
    ensures IsListing(g, s, found, lines)
  {
    hide RulesReused, Shows, Orderly, Met, MetAll, Ranked, Expand;
    var rank :| Ranked(g, rank) && Expand(g, rank, s) == text;
    var rules := set r | r in found;
    assert found[0] in rules;
    forall q, k | q in rules && q in g && 0 <= k < |g[q]| && g[q][k].Rule? ensures g[q][k].r in rules {
      var i :| 0 <= i < |found| && found[i] == q;
      assert Lists(g, found, lines, i);
      ShowsAt(lines[i], g[q], found, k);
    }
    AllAreMet(g, rank, s, rules);
    assert forall i, j :: 0 <= i < j < |found| ==> number[found[i]] != number[found[j]];
    assert forall r :: r in g ==> r in rules;
  }

  // ---------------------------------------------------------------------
  // The listing read as a grammar
  // ---------------------------------------------------------------------

  ghost function KeyShown(x: Item): Key {
    match x
    case Char(c) => Terminal(c)
    case Number(i) => Rule(i)
  }

  ghost function Shown(line: seq<Item>): seq<Key> {
    seq(|line|, k requires 0 <= k < |line| => KeyShown(line[k]))
  }

  /** Rules by their numbers. */
  ghost function Listed(lines: seq<seq<Item>>): Productions {
    map i: nat | i < |lines| :: Shown(lines[i])
  }

  ghost predicate RanksAlike(g: Productions, order: seq<RuleId>, rank: map<RuleId, nat>, ranks: map<RuleId, nat>) {
    forall i: nat :: i < |order| ==> i in ranks && order[i] in g && order[i] in rank && ranks[i] == rank[order[i]]
  }

  lemma ListedIsRanked(g: Productions, s: RuleId, order: seq<RuleId>, lines: seq<seq<Item>>, rank: map<RuleId, nat>)
    returns (ranks: map<RuleId, nat>)
    requires IsListing(g, s, order, lines) && Ranked(g, rank)
    ensures Ranked(Listed(lines), ranks) && RanksAlike(g, order, rank, ranks)
  {
    hide IsListing, Shows;
    ListingSize(g, s, order, lines);
    forall i: nat | i < |order| ensures order[i] in g && order[i] in rank { ListsLine(g, s, order, lines, i); }
    ranks := map i: nat | i < |order| :: rank[order[i]];
    forall i: RuleId, k | i in Listed(lines) && 0 <= k < |Listed(lines)[i]|
      ensures Listed(lines)[i][k] != Zero
      ensures var x := Listed(lines)[i][k]; x.Rule? ==> x.r in Listed(lines) && ranks[x.r] < ranks[i]
    {
      ListsLine(g, s, order, lines, i);
      ShowsAt(lines[i], g[order[i]], order, k);
    }
  }

  lemma ShowsAt(line: seq<Item>, ks: seq<Key>, order: seq<RuleId>, k: nat)
    requires Shows(line, ks, order) && (k < |line| || k < |ks|)
    ensures |line| == |ks| && ShowsKey(line[k], ks[k], order)
  {
  }

  /** A line stands for the text of its rule. */
  lemma {:induction false} LineExpands(g: Productions, s: RuleId, order: seq<RuleId>, lines: seq<seq<Item>>,
                                       rank: map<RuleId, nat>, ranks: map<RuleId, nat>, i: nat, k: nat)
    requires IsListing(g, s, order, lines) && Ranked(g, rank) && Ranked(Listed(lines), ranks)
    requires RanksAlike(g, order, rank, ranks) && i < |lines| && k <= |lines[i]|
    ensures |lines[i]| == |g[order[i]]|
    ensures ExpandFrom(Listed(lines), ranks, i, k) == ExpandFrom(g, rank, order[i], k)
    decreases ranks[i], |lines[i]| - k
  {
    hide IsListing, Ranked;
    ListsLine(g, s, order, lines, i);
    if k < |lines[i]| {
      LineExpands(g, s, order, lines, rank, ranks, i, k + 1);
      ShowsAt(lines[i], g[order[i]], order, k);
      var x := lines[i][k];
      if x.Number? {
        LowerRank(Listed(lines), ranks, i, k);
        LineExpands(g, s, order, lines, rank, ranks, x.i, 0);
      }
    }
  }

  lemma ListingSize(g: Productions, s: RuleId, order: seq<RuleId>, lines: seq<seq<Item>>)
    requires IsListing(g, s, order, lines)
    ensures |order| == |lines| > 0 && order[0] == s
  {
  }

  lemma ListsLine(g: Productions, s: RuleId, order: seq<RuleId>, lines: seq<seq<Item>>, i: nat)
    requires IsListing(g, s, order, lines) && i < |lines|
    ensures |order| == |lines| && order[i] in g && Shows(lines[i], g[order[i]], order)
  {
    assert Lists(g, order, lines, i);
  }

  lemma LowerRank(g: Productions, rank: map<RuleId, nat>, r: RuleId, k: nat)
    requires Ranked(g, rank) && r in g && k < |g[r]| && g[r][k].Rule?
    ensures g[r][k].r in g && g[r][k].r in rank && r in rank && rank[g[r][k].r] < rank[r]
  {
  }

  /** Reading a listing as a grammar gives the text back. */
  lemma ListingDerives(g: Productions, s: RuleId, order: seq<RuleId>, lines: seq<seq<Item>>, text: seq<int>)
    requires IsListing(g, s, order, lines) && Derives(g, s, text)
    ensures Derives(Listed(lines), 0, text)
  {
    hide Ranked, Expand, ExpandFrom;
    var rank :| Ranked(g, rank) && Expand(g, rank, s) == text;
    var ranks := ListedIsRanked(g, s, order, lines, rank);
    LineExpands(g, s, order, lines, rank, ranks, 0, 0);
    ExpandIsFrom(g, rank, s);
    ExpandIsFrom(Listed(lines), ranks, 0);
  }

  lemma ExpandIsFrom(g: Productions, rank: map<RuleId, nat>, r: RuleId)
    requires Ranked(g, rank) && r in g
    ensures Expand(g, rank, r) == ExpandFrom(g, rank, r, 0)
  {
  }

  lemma {:induction false} SameExpansion(g: Productions, rank: map<RuleId, nat>, ranks: map<RuleId, nat>, r: RuleId,
                                         k: nat)
    requires Ranked(g, rank) && Ranked(g, ranks) && r in g && k <= |g[r]|
    ensures ExpandFrom(g, rank, r, k) == ExpandFrom(g, ranks, r, k)
    decreases rank[r], |g[r]| - k
  {
    if k < |g[r]| {
      SameExpansion(g, rank, ranks, r, k + 1);
      if g[r][k].Rule? { SameExpansion(g, rank, ranks, g[r][k].r, 0); }
    }
  }

  /** A grammar derives one text. */
  lemma DerivesOne(g: Productions, s: RuleId, t: seq<int>, u: seq<int>)
    requires Derives(g, s, t) && Derives(g, s, u)
    ensures t == u
  {
    hide Ranked, ExpandFrom;
    var rank :| Ranked(g, rank) && Expand(g, rank, s) == t;
    var ranks :| Ranked(g, ranks) && Expand(g, ranks, s) == u;
    SameExpansion(g, rank, ranks, s, 0);
  }

  // ---------------------------------------------------------------------
  // The printed form
  // ---------------------------------------------------------------------

  const SPACE := 32
  const NEWLINE := 10
  const TAB := 9
  const BACKSLASH := 92
  const UNDERSCORE := 95
  const ARROW := [32, 45, 62, 32]

  predicate IsDigit(c: int) { 48 <= c <= 57 }

  function Digits(n: nat): (r: seq<int>)
    ensures |r| > 0 && forall k :: 0 <= k < |r| ==> IsDigit(r[k])
  {
    if n < 10 then [48 + n] else Digits(n / 10) + [48 + n % 10]
  }

  /** How a symbol is printed: spaces and line ends are never printed as they are. */
  function Token(x: Item): seq<int> {
    match x
    case Number(i) => Digits(i)
    case Char(c) =>
      if c == SPACE then [UNDERSCORE]
      else if c == NEWLINE then [BACKSLASH, 110]
      else if c == TAB then [BACKSLASH, 116]
      else if c == BACKSLASH || c == 40 || c == 41 || c == UNDERSCORE || IsDigit(c) then [BACKSLASH, c]
      else [c]
  }

  function Tokens(line: seq<Item>): seq<int> {
    if line == [] then [] else Tokens(line[..|line| - 1]) + Token(line[|line| - 1]) + [SPACE]
  }

  function Line(i: nat, line: seq<Item>): seq<int> {
    Digits(i) + ARROW + Tokens(line) + [NEWLINE]
  }

  function Output(lines: seq<seq<Item>>): seq<int> {
    if lines == [] then [] else Output(lines[..|lines| - 1]) + Line(|lines| - 1, lines[|lines| - 1])
  }

  lemma PrintedNothing()
    ensures Tokens([]) == [] && Output([]) == []
  {
  }

  lemma TokensNext(line: seq<Item>, x: Item)
    ensures Tokens(line + [x]) == Tokens(line) + Token(x) + [SPACE]
  {
    assert (line + [x])[..|line|] == line;
  }

  lemma OutputNext(lines: seq<seq<Item>>, line: seq<Item>, text: seq<int>)
    requires text == Tokens(line) + [NEWLINE]
    ensures Output(lines + [line]) == Output(lines) + (Digits(|lines|) + ARROW + text)
  {
    hide Digits, Tokens;
    assert Line(|lines|, line) == Digits(|lines|) + ARROW + text;
    assert (lines + [line])[..|lines|] == lines;
  }

  // ---------------------------------------------------------------------
  // Nothing is printed in two ways
  // ---------------------------------------------------------------------

  /** The first separator ends the same piece on both sides. */
  lemma CutFirst(a: seq<int>, x: seq<int>, b: seq<int>, y: seq<int>, sep: int)
    requires sep !in a && sep !in b && a + [sep] + x == b + [sep] + y
    ensures a == b && x == y
  {
    var l, r := a + [sep] + x, b + [sep] + y;
    assert l[|a|] == sep && r[|b|] == sep;
    assert forall i :: 0 <= i < |a| ==> l[i] != sep;
    assert forall i :: 0 <= i < |b| ==> r[i] != sep;
    assert a == l[..|a|] && b == r[..|b|] && x == l[|a| + 1..] && y == r[|b| + 1..];
  }

  /** Nothing, or something that ends with a separator. */
  ghost predicate Ended(a: seq<int>, sep: int) { a == [] || a[|a| - 1] == sep }

  /** So does the last one. */
  lemma CutLast(a: seq<int>, x: seq<int>, b: seq<int>, y: seq<int>, sep: int)
    requires Ended(a, sep) && Ended(b, sep) && sep !in x && sep !in y && a + x + [sep] == b + y + [sep]
    ensures a == b && x == y
  {
    var l, r := a + x, b + y;
    assert l == (l + [sep])[..|l|] && r == (r + [sep])[..|r|];
    assert forall i :: |a| <= i < |l| ==> l[i] != sep;
    assert forall i :: |b| <= i < |r| ==> r[i] != sep;
    assert (a != [] ==> l[|a| - 1] == sep) && (b != [] ==> r[|b| - 1] == sep);
    assert a == l[..|a|] && b == r[..|b|] && x == l[|a|..] && y == r[|b|..];
  }

  lemma {:induction false} DigitsDiffer(n: nat, m: nat)
    requires Digits(n) == Digits(m)
    ensures n == m
  {
    var a, b := Digits(n), Digits(m);
    if n >= 10 && m >= 10 {
      assert a[..|a| - 1] == Digits(n / 10) && b[..|b| - 1] == Digits(m / 10);
      DigitsDiffer(n / 10, m / 10);
      assert a[|a| - 1] == 48 + n % 10 && b[|b| - 1] == 48 + m % 10;
    } else {
      assert n < 10 ==> |a| == 1 && a[0] == 48 + n;
      assert m < 10 ==> |b| == 1 && b[0] == 48 + m;
    }
  }

  lemma TokensDiffer(x: Item, y: Item)
    requires Token(x) == Token(y)
    ensures x == y
  {
    hide Digits;
    assert Token(x)[0] == Token(y)[0];
    if x.Number? && y.Number? {
      DigitsDiffer(x.i, y.i);
    } else if |Token(x)| == 2 {
      assert Token(x)[1] == Token(y)[1];
    }
  }

  lemma TokenIsPlain(x: Item)
    ensures |Token(x)| > 0 && SPACE !in Token(x) && NEWLINE !in Token(x)
  {
    hide Digits;
  }

  lemma {:induction false} TokensArePlain(line: seq<Item>)
    ensures NEWLINE !in Tokens(line) && Ended(Tokens(line), SPACE)
  {
    hide Token;
    if line != [] {
      TokensArePlain(line[..|line| - 1]);
      TokenIsPlain(line[|line| - 1]);
    }
  }

  lemma TokensSplit(line: seq<Item>)
    ensures line == [] ==> Tokens(line) == []
    ensures line != [] ==>
      Tokens(line) == Tokens(line[..|line| - 1]) + Token(line[|line| - 1]) + [SPACE]
  {
    hide Token;
  }

  lemma SameEnds<T>(a: seq<T>, b: seq<T>)
    requires a != [] && b != [] && a[..|a| - 1] == b[..|b| - 1] && a[|a| - 1] == b[|b| - 1]
    ensures a == b
  {
    assert a == a[..|a| - 1] + [a[|a| - 1]];
    assert b == b[..|b| - 1] + [b[|b| - 1]];
  }

  lemma {:induction false} LinesDiffer(a: seq<Item>, b: seq<Item>)
    requires Tokens(a) == Tokens(b)
    ensures a == b
  {
    hide Token, Tokens, Ended;
    TokensSplit(a);
    TokensSplit(b);
    if a != [] && b != [] {
      var i, j := |a| - 1, |b| - 1;
      TokensArePlain(a[..i]);
      TokensArePlain(b[..j]);
      TokenIsPlain(a[i]);
      TokenIsPlain(b[j]);
      CutLast(Tokens(a[..i]), Token(a[i]), Tokens(b[..j]), Token(b[j]), SPACE);
      LinesDiffer(a[..i], b[..j]);
      TokensDiffer(a[i], b[j]);
      SameEnds(a, b);
    }
  }

  /** A line without its end. */
  function LineStart(i: nat, line: seq<Item>): seq<int> { Digits(i) + ARROW + Tokens(line) }

  lemma LineIsPlain(i: nat, line: seq<Item>)
    ensures NEWLINE !in LineStart(i, line) && Line(i, line) == LineStart(i, line) + [NEWLINE]
  {
    hide Digits, Tokens;
    TokensArePlain(line);
  }

  lemma NumberedLinesDiffer(i: nat, a: seq<Item>, j: nat, b: seq<Item>)
    requires LineStart(i, a) == LineStart(j, b)
    ensures i == j && a == b
  {
    hide Digits, Tokens;
    var x, y := [45, 62, 32] + Tokens(a), [45, 62, 32] + Tokens(b);
    assert LineStart(i, a) == Digits(i) + [SPACE] + x && LineStart(j, b) == Digits(j) + [SPACE] + y;
    CutFirst(Digits(i), x, Digits(j), y, SPACE);
    DigitsDiffer(i, j);
    assert Tokens(a) == x[3..] && Tokens(b) == y[3..];
    LinesDiffer(a, b);
  }

  lemma OutputIsEnded(lines: seq<seq<Item>>)
    ensures Ended(Output(lines), NEWLINE)
  {
  }

  lemma OutputSplits(lines: seq<seq<Item>>)
    ensures lines == [] ==> Output(lines) == []
    ensures lines != [] ==>
      var i := |lines| - 1;
      Output(lines) == Output(lines[..i]) + LineStart(i, lines[i]) + [NEWLINE]
  {
    hide Line, LineStart;
    if lines != [] {
      LineIsPlain(|lines| - 1, lines[|lines| - 1]);
    }
  }

  /** What is printed tells the listing. */
  lemma {:induction false} OutputsDiffer(a: seq<seq<Item>>, b: seq<seq<Item>>)
    requires Output(a) == Output(b)
    ensures a == b
  {
    hide LineStart, Output, Line, Ended;
    OutputSplits(a);
    OutputSplits(b);
    if a != [] && b != [] {
      var i, j := |a| - 1, |b| - 1;
      OutputIsEnded(a[..i]);
      OutputIsEnded(b[..j]);
      LineIsPlain(i, a[i]);
      LineIsPlain(j, b[j]);
      CutLast(Output(a[..i]), LineStart(i, a[i]), Output(b[..j]), LineStart(j, b[j]), NEWLINE);
      OutputsDiffer(a[..i], b[..j]);
      NumberedLinesDiffer(i, a[i], j, b[j]);
      SameEnds(a, b);
    }
  }

  /** What is printed for a grammar. */
  ghost predicate IsPrinted(out: seq<int>, g: Productions, s: RuleId) {
    exists order, lines :: IsListing(g, s, order, lines) && out == Output(lines)
  }

  /** The print stands for a text: it lists a grammar over the numbers that derives it. */
  ghost predicate StandsFor(out: seq<int>, text: seq<int>) {
    exists lines :: out == Output(lines) && Derives(Listed(lines), 0, text)
  }

  lemma PrintedStandsFor(out: seq<int>, g: Productions, s: RuleId, text: seq<int>)
    requires IsPrinted(out, g, s) && Derives(g, s, text)
    ensures StandsFor(out, text)
  {
    hide IsListing, Derives, Output;
    var order, lines :| IsListing(g, s, order, lines) && out == Output(lines);
    ListingDerives(g, s, order, lines, text);
  }

  /** What is printed tells the text. */
  lemma PrintedAlike(out: seq<int>, t: seq<int>, u: seq<int>)
    requires StandsFor(out, t) && StandsFor(out, u)
    ensures t == u
  {
    hide Derives, Output;
    var a :| out == Output(a) && Derives(Listed(a), 0, t);
    var b :| out == Output(b) && Derives(Listed(b), 0, u);
    OutputsDiffer(a, b);
    DerivesOne(Listed(a), 0, t, u);
  }
}
