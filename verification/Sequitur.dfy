/**
  The Sequitur compressor: appending characters to the start rule while factoring
  repeated digrams into rules and inlining rules that are used once.
 */
module Sequitur {
  import opened Wrappers
  import opened Grammar
  import opened SequiturGrammar
  import opened SequiturHeap
  import opened SequiturExpand
  import opened SequiturState
  import opened SequiturDigrams
  import opened SequiturSteps
  import opened SequiturLaws
  import opened SequiturFactor
  import opened SequiturListing
  import opened SequiturLog

  /** What a match is allowed to store; it shortens the start rule in return. */
  const MATCH_STORES := 30

  class Compressor {
    var mem: Heap
    const s: RuleId
    ghost var body: Bodies
    ghost var owner: Owners
    ghost var text: Texts
    ghost var log: seq<Access>

    ghost predicate Linkage()
      reads this
    {
      Sound(mem, body, owner, s) && History(log, mem.table)
    }

    ghost function St(): State
      reads this
    {
      State(mem, body, owner, text)
    }

    ghost predicate Valid()
      reads this
    {
      Inv(St(), s) && History(log, mem.table)
    }

    /** The stores made so far, and those that shortening the start rule may yet take. */
    ghost function Spent(): nat
      reads this
    {
      Stores(log) + if s in body then MATCH_STORES * |body[s]| else 0
    }

    /** Digrams are unique and recorded, and every rule is used twice. */
    ghost predicate Lawful()
      reads this
    {
      Calm(St(), s, 0) && Reused(St(), s, {})
    }

    // -------------------------------------------------------------------
    // Relinking
    // -------------------------------------------------------------------

    method DeleteDigram(x: Ptr)
      requires HasDigram(mem, x) && Readable(mem, x) && Readable(mem, mem.n[x])
      requires TableOk(mem) && History(log, mem.table)
      modifies this`mem, this`log
      ensures mem == old(mem).(table := Forget(old(mem), x)) && TableOk(mem)
      ensures History(log, mem.table) && Stores(log) == Stores(old(log))
    {
      hide TableOk, History, Stores;
      if IsGuard(mem, x) || IsGuard(mem, mem.n[x]) {
        return;
      }
      var d := DigramOf(mem, x);
      HistoryGoesOn(log, Access(Drop, mem, x));
      DropKeepsTable(mem, Forget(mem, x));
      log := log + [Access(Drop, mem, x)];
      if d in mem.table && mem.table[d] == x {
        mem := mem.(table := mem.table - {d});
      }
    }

    /** `*find_digram(x) = x`. */
    method Store(x: Ptr)
      requires HasDigram(mem, x) && !Guards(mem, x) && !Guards(mem, mem.n[x])
      requires TableOk(mem) && History(log, mem.table)
      modifies this`mem, this`log
      ensures mem == old(mem).(table := old(mem).table[DigramOf(old(mem), x) := x]) && TableOk(mem)
      ensures History(log, mem.table) && Stores(log) == Stores(old(log)) + 1
    {
      hide TableOk, History, Stores;
      HistoryGoesOn(log, Access(SequiturLog.Store, mem, x));
      StoreKeepsTable(mem, x);
      log := log + [Access(SequiturLog.Store, mem, x)];
      mem := mem.(table := mem.table[DigramOf(mem, x) := x]);
    }

    method Join(left: Ptr, right: Ptr)
      requires Joinable(mem, left, right)
      requires (left in mem.n ==> SafeJoin(mem, left, right)) && History(log, mem.table)
      modifies this`mem, this`log
      ensures mem == JoinHeap(old(mem), left, right)
      ensures History(log, mem.table) && Stores(log) <= Stores(old(log)) + 2
      ensures left !in old(mem).n ==> log == old(log)
    {
      hide TableOk, History, Stores;
      if left in mem.n {
        DeleteDigram(left);
        if Triple(mem, right) {
          Store(right);
        }
        if Triple(mem, left) {
          Store(mem.p[left]);
        }
      }
      mem := mem.(n := mem.n[left := right], p := mem.p[right := left]);
    }

    /** The destructor of a symbol that is not a guard. */
    method Destroy(x: Ptr)
      requires Deletable(mem, x) && SafeDelete(mem, x) && History(log, mem.table)
      modifies this`mem, this`log
      ensures mem == DeleteHeap(old(mem), x)
      ensures History(log, mem.table) && Stores(log) <= Stores(old(log)) + 2
    {
      hide TableOk, History, Stores, SafeJoin;
      Join(mem.p[x], mem.n[x]);
      if !IsGuard(mem, x) {
        DeleteDigram(x);
        if mem.key[x].Rule? {
          mem := mem.(count := mem.count[mem.key[x].r := mem.count[mem.key[x].r] - 1]);
        }
      }
      mem := mem.(n := mem.n - {x}, p := mem.p - {x}, key := mem.key - {x});
    }

    method DeleteSymbol(x: Ptr, ghost r: RuleId, ghost i: nat)
      requires Linkage() && r in body && i < |body[r]| && body[r][i] == x
      modifies this`mem, this`body, this`owner, this`log
      ensures Linkage() && Stores(log) <= Stores(old(log)) + 2
      ensures Deletable(old(mem), x) && mem == DeleteHeap(old(mem), x)
      ensures body == BodiesWithout(old(body), r, i) && owner == old(owner) - {x}
    {
      hide Sound, DeleteHeap, Deletable, SafeDelete, History, Stores;
      DeleteSound(mem, body, owner, s, r, i);
      Destroy(x);
      body, owner := BodiesWithout(body, r, i), owner - {x};
    }

    /** `a->insert_after(new symbols(k))`, the new symbol at the free address `y`. */
    method Insert(a: Ptr, y: Ptr, k: Key)
      requires Insertable(mem, a, y, k) && SafeInsert(mem, a, y, k) && History(log, mem.table)
      modifies this`mem, this`log
      ensures mem == InsertHeap(old(mem), a, y, k)
      ensures History(log, mem.table) && Stores(log) <= Stores(old(log)) + 2
    {
      hide JoinHeap, Joinable, SafeJoin, History, Stores;
      mem := mem.(key := mem.key[y := k]);
      if k.Rule? && k.r in mem.count {
        mem := mem.(count := mem.count[k.r := mem.count[k.r] + 1]);
      }
      Join(y, mem.n[a]);
      Join(a, y);
    }

    method InsertAfter(a: Ptr, k: Key, ghost r: RuleId, ghost i: nat) returns (y: Ptr)
      requires Linkage() && r in mem.guard && r in body && i <= |body[r]| && a == Circle(mem, body, r)[i]
      requires KeyFits(mem, r, s, k)
      modifies this`mem, this`body, this`owner, this`log
      ensures Linkage() && Stores(log) <= Stores(old(log)) + 2
      ensures y !in old(mem).key && Insertable(old(mem), a, y, k) && mem == InsertHeap(old(mem), a, y, k)
      ensures body == BodiesWith(old(body), r, i, y) && owner == old(owner)[y := r]
      ensures Unrecorded(mem, a) && Unrecorded(mem, y)
    {
      hide Sound, InsertHeap, Insertable, SafeInsert, Unrecorded, History, Stores;
      y := Fresh(mem.key.Keys);
      InsertSound(mem, body, owner, s, r, i, y, k);
      Insert(a, y, k);
      body, owner := BodiesWith(body, r, i, y), owner[y := r];
    }

    /** `new rules`: the guard points to itself and the count is reset. */
    method NewRule() returns (r: RuleId, ghost g: Ptr)
      requires Linkage()
      modifies this`mem, this`body, this`owner, this`log
      ensures Linkage() && log == old(log)
      ensures r !in old(mem).guard && g !in old(mem).key && mem == NewRuleHeap(old(mem), r, g)
      ensures body == old(body)[r := []] && owner == old(owner)[g := r]
    {
      hide Sound, History;
      r := Fresh(mem.guard.Keys);
      var y := Fresh(mem.key.Keys);
      g := y;
      NewRuleSound(mem, body, owner, s, r, y);
      UnlinkedFree(mem, body, owner, s, y);
      mem := mem.(guard := mem.guard[r := y], key := mem.key[y := Rule(r)], count := mem.count[r := 1]);
      Join(y, y);
      mem := mem.(count := mem.count[r := 0]);
      assert mem == NewRuleHeap(old(mem), r, y);
      body, owner := body[r := []], owner[y := r];
    }

    /** The first half of `expand`: free the rule, drop the entry of `x` and zero its key. */
    method FreeRuleOf(x: Ptr, ghost t: Spot)
      requires SpotOk(mem, t) && t.x == x && t.a in mem.count && History(log, mem.table)
      modifies this`mem, this`log
      ensures History(log, mem.table) && Stores(log) <= Stores(old(log)) + 2
      ensures Stage(old(mem), t, mem, true) && Seams(mem, t, t.x, t.f, t.e, t.x)
      ensures CountKept(old(mem).count, t.a, mem.count) && mem.table == DropEntry(old(mem), x)
    {
      hide Stage; hide DeleteHeap; hide Deletable; hide CountKept; hide TableOk; hide Closed; hide Seams;
      hide SafeDelete, History, Stores;
      FreeRule(mem, t);
      FreedTable(mem, t);
      ZeroedSteps(mem, t);
      var a := mem.key[x].r;
      Destroy(mem.guard[a]);
      mem := mem.(guard := mem.guard - {a}, count := mem.count - {a});
      var d := DigramOf(mem, x);
      HistoryGoesOn(log, Access(Drop, mem, x));
      log := log + [Access(Drop, mem, x)];
      if d in mem.table && mem.table[d] == x {
        mem := mem.(table := mem.table - {d});
      }
      mem := mem.(key := mem.key[x := Zero]);
      assert mem == ZeroedHeap(old(mem), t);
    }

    /** `expand`: `x` is the last reference to its rule; the contents of the rule
        take its place. */
    method Expand(x: Ptr, ghost r: RuleId)
      requires Linkage() && x in mem.key && mem.key[x].Rule? && mem.key[x].r != s
      requires Expandable(mem, body, r, mem.key[x].r) && body[r][0] == x
      modifies this`mem, this`body, this`owner, this`log
      ensures Linkage() && Stores(log) <= Stores(old(log)) + 9
      ensures var a := old(mem).key[x].r;
        && Inlined(old(mem), SpotOf(old(mem), old(body), r, a), mem)
        && body == BodiesInlined(old(body), r, a)
        && owner == OwnersInlined(old(owner), SpotOf(old(mem), old(body), r, a))
        && RecordedAt(mem, old(body)[a][|old(body)[a]| - 1])
        && Followed(old(mem), SpotOf(old(mem), old(body), r, a), mem.table)
    {
      hide Sound; hide SpotOk; hide Stage; hide DeleteHeap; hide JoinHeap; hide Joinable; hide Deletable;
      hide CountKept; hide TableOk; hide Inlined; hide DropEntry; hide Followed; hide Unrecorded;
      hide SafeJoin, SafeDelete, History, Stores;
      ghost var h := mem;
      ghost var t := SpotOf(h, body, r, mem.key[x].r);
      ExpandReads(h, body, owner, s, r, t.a);
      var left, right := mem.p[x], mem.n[x];
      var f, l := mem.n[mem.guard[mem.key[x].r]], mem.p[mem.guard[mem.key[x].r]];
      FreeRuleOf(x, t);
      FollowDrop(h, t, mem);
      ZeroedDeletable(h, t, mem);
      FollowZeroed(h, t, mem);
      DeletedStage(h, t, mem);
      Destroy(x);
      FirstLinked(h, t, mem);
      FollowFirst(h, t, mem);
      JoinedStage(h, t, mem, left, f, t.right, t.f, t.e, t.gr);
      Join(left, f);
      LastLinked(h, t, mem);
      FollowLast(h, t, mem);
      JoinedStage(h, t, mem, l, right, t.f, t.f, t.gr, t.gr);
      Join(l, right);
      SeamDone(h, t, mem);
      SpotFacts(h, t, mem);
      SeamIsPlain(h, t, mem);
      Store(l);
      InlinedSound(h, body, owner, s, r, t.a, mem);
      body, owner := BodiesInlined(body, r, t.a), OwnersInlined(owner, t);
    }

    // -------------------------------------------------------------------
    // Grammar steps
    // -------------------------------------------------------------------

    /** The relinking part of `substitute`: the digram at `x` becomes one symbol. */
    method Replace(x: Ptr, r: RuleId, ghost o: RuleId, ghost i: nat, ghost e: set<Ptr>) returns (q: Ptr, z: Ptr)
      requires Valid() && Replaceable(St(), s, o, i, r) && body[o][i] == x && UsedBut(St(), s, r)
      requires Yields(St(), o, i, e)
      modifies this`mem, this`body, this`owner, this`log
      ensures Valid() && Used(St(), s) && Replaced(old(St()), St(), o, i, r, z)
      ensures Stores(log) <= Stores(old(log)) + 6
      ensures Unrecorded(mem, q) && Unrecorded(mem, z)
      ensures o in mem.guard && o in body && i < |body[o]| && Circle(mem, body, o)[i] == q && body[o][i] == z
      ensures o in old(body) && i + 2 <= |old(body)[o]| && Yielded(old(St()), St(), o, i, q, z, e)
    {
      hide Sound; hide Texted; hide Unrecorded; hide UsedBut; hide Used; hide Yields; hide Yielded;
      hide DeleteHeap; hide Deletable; hide InsertHeap; hide Insertable; hide Replaceable; hide Replaced;
      hide History, Stores;
      ghost var st := St();
      ReplaceStart(st, s, o, i, r);
      q := mem.p[x];
      DeleteSymbol(mem.n[q], o, i);
      ghost var mid := St();
      ReplaceMiddle(st, mid, s, o, i, r);
      DeleteSymbol(mem.n[q], o, i);
      ReplaceGap(st, mid, St(), s, o, i, r);
      ghost var gap := St();
      z := InsertAfter(q, Rule(r), o, i);
      ReplaceEnd(st, mid, gap, St(), s, o, i, r, z);
      YieldAll(st, mid, gap, St(), s, o, i, r, q, z, e);
      ReplacedTexted(st, St(), s, o, i, r, z);
      ReplacedUsed(st, St(), s, o, i, r, z);
    }

    /** Makes a rule with copies of two symbols: the start of `match`. */
    method MakePair(k1: Key, k2: Key, ghost e: set<Ptr>) returns (r: RuleId, ghost g: Ptr, ghost f: Ptr, ghost l: Ptr)
      requires Valid() && Used(St(), s) && KeyText(k1, text) != [] && Neat(mem, e)
      requires k1 != Zero && (k1.Rule? ==> k1.r in mem.guard && k1.r != s)
      requires k2 != Zero && (k2.Rule? ==> k2.r in mem.guard && k2.r != s)
      modifies this`mem, this`body, this`owner, this`text, this`log
      ensures s in old(body) && s in body && body[s] == old(body)[s] && Stores(log) <= Stores(old(log)) + 4
      ensures Valid() && PairMade(old(St()), St(), r, g, f, l, k1, k2)
      ensures UsedBut(St(), s, r) && Uses(mem, r) == {}
      ensures Neat(mem, e + {f}) && Steady(old(mem).table, mem.table, {})
    {
      hide Neat, Steady, KeyFits, Sound, Texted, Used, UsedBut, Uses, InsertHeap, Insertable, Unrecorded;
      hide PairMade, History, Stores;
      ghost var st := St();
      Domains(st, s);
      r, g := NewRule();
      ghost var a := St();
      MakeFirst(st, a, s, r, g, k1);
      f := InsertAfter(mem.p[mem.guard[r]], k1, r, 0);
      ghost var b := St();
      MakeSecond(st, a, b, s, r, g, f, k1, k2);
      l := InsertAfter(mem.p[mem.guard[r]], k2, r, 1);
      text := text[r := KeyText(k1, text) + KeyText(k2, text)];
      MakeDone(st, a, b, St(), s, r, g, f, l, k1, k2);
      PairNeat(st, a, b, St(), s, r, g, f, l, k1, k2, e);
      PairKeepsStart(st, St(), s, r, g, f, l, k1, k2);
      PairTexted(st, St(), s, r, g, f, l, k1, k2);
      PairUsed(st, St(), s, r, g, f, l, k1, k2);
    }

    /** `check`: 1 exactly when the digram was recorded elsewhere; then it is factored, or
        overlaps the recorded one. */
    method Check(x: Ptr, ghost isNew: bool, ghost debts: set<RuleId>) returns (found: bool)
      requires Valid() && Used(St(), s) && x in mem.key && Unrecorded(mem, x) && s in body
      requires HasDigram(mem, x)
      requires isNew ==> Ends(mem, x) || DigramOf(mem, x) !in mem.table
      requires !isNew ==> Ends(mem, x) || AtEnd(St(), s, x)
      requires !isNew && !Ends(mem, x) ==> Waiting(St(), s, x) && Reused(St(), s, debts) && Owing(St(), s, debts)
      modifies this`mem, this`body, this`owner, this`text, this`log
      ensures Valid() && Used(St(), s) && s in body && Spent() <= old(Spent()) + 1
      ensures found <==> !Ends(old(mem), x) && DigramOf(old(mem), x) in old(mem).table
      ensures !found ==>
        && body == old(body) && owner == old(owner) && text == old(text)
        && mem == old(mem).(table := mem.table)
        && mem.table == if Ends(old(mem), x) then old(mem).table else old(mem).table[DigramOf(old(mem), x) := x]
      ensures found ==>
        && AtEnd(old(St()), s, x)
        && Survives(old(St()), St(), s, TailLength(old(St()), s))
        && LastLives(old(St()), St(), s)
        && Settled(old(St()), St(), s, debts)
      ensures |body[s]| <= |old(body)[s]|
      decreases |body[s]|, if isNew then 0 else 3
    {
      hide Sound; hide Texted; hide Used; hide Survives; hide Waiting; hide Reused; hide Owing; hide Settled; hide Calm;
      hide TableOk, History, Stores;
      CheckReads(St(), s, x);
      if IsGuard(mem, x) || IsGuard(mem, mem.n[x]) {
        return false;
      }
      var d := DigramOf(mem, x);
      if d !in mem.table {
        Recorded(St(), s, x);
        TableOnlyUsed(St(), s, mem.table[d := x]);
        SoundTable(St(), s);
        Store(x);
        return false;
      }
      SoundTable(St(), s);
      HistoryGoesOn(log, Access(Look, mem, x));
      log := log + [Access(Look, mem, x)];
      var m := mem.table[d];
      CheckEntry(St(), s, x, d);
      if mem.n[m] != x {
        ghost var o, i := DigramAt(St(), s, m);
        MatchReady(St(), s, x, m, o, i);
        Match(x, m, o, i, debts);
      } else {
        SurvivesSame(St(), s, TailLength(St(), s));
        LastLivesSame(St(), s);
        CloseOverlap(St(), s, x, m);
        SettledSame(St(), s, debts);
      }
      return true;
    }

    /** `match`: the digram at `ss`, at the end of the start rule, also stands at `m`. */
    method Match(ss: Ptr, m: Ptr, ghost o: RuleId, ghost i: nat, ghost debts: set<RuleId>)
      requires Valid() && Used(St(), s) && AtEnd(St(), s, ss) && HasDigram(mem, ss) && Unrecorded(mem, ss)
      requires o in body && i + 2 <= |body[o]| && body[o][i] == m && (o == s ==> i + 4 <= |body[s]|)
      requires KeysOf(body[o], mem.key)[i..i + 2] == Tail(St(), s)
      requires Waiting(St(), s, ss) && Reused(St(), s, debts) && Owing(St(), s, debts)
      modifies this`mem, this`body, this`owner, this`text, this`log
      ensures Valid() && Used(St(), s) && s in body && Spent() <= old(Spent())
      ensures Survives(old(St()), St(), s, TailLength(old(St()), s)) && LastLives(old(St()), St(), s)
      ensures Settled(old(St()), St(), s, debts)
      ensures |body[s]| < |old(body)[s]|
      decreases |body[s]|, 2
    {
      hide Sound; hide Texted; hide Used; hide UsedBut; hide Survives; hide MidOk; hide TailLength; hide LastLives;
      hide Waiting, Reused, Owing, Settled, Matched, Unrecorded, Followed, RecordedAt, KeysOf, Tail, Inlined;
      hide History, Stores;
      ghost var st := St();
      MatchReads(st, s, ss, m, o, i);
      var r: RuleId;
      if IsGuard(mem, mem.p[m]) && IsGuard(mem, mem.n[mem.n[m]]) {
        r := mem.key[mem.p[m]].r;
        Reuse(ss, r, debts);
      } else {
        r := Factor(ss, m, o, i, debts);
      }
      ghost var mid := St();
      FirstReads(st, mid, s, r);
      MidFacts(st, mid, s, r);
      var first := mem.n[mem.guard[r]];
      if mem.key[first].Rule? && mem.count[mem.key[first].r] == 1 {
        ghost var a := mem.key[first].r;
        UnderUsed(mid, s, r, a);
        Expand(first, r);
        text := text - {a};
        UnderUsedDone(st, mid, St(), s, r, a);
        MatchInlined(st, mid, St(), s, r, a, debts);
      } else {
        MatchKept(st, mid, s, r, debts);
      }
    }

    /** The digram is the whole body of rule `r`, which is used again. */
    method Reuse(ss: Ptr, r: RuleId, ghost debts: set<RuleId>)
      requires Valid() && Used(St(), s) && AtEnd(St(), s, ss) && Unrecorded(mem, ss)
      requires r in body && r != s && |body[r]| == 2 && KeysOf(body[r], mem.key)[0..2] == Tail(St(), s)
      requires Waiting(St(), s, ss) && Reused(St(), s, debts) && Owing(St(), s, debts)
      modifies this`mem, this`body, this`owner, this`text, this`log
      ensures Valid() && Used(St(), s) && s in body && MidOk(old(St()), St(), s, r)
      ensures Matched(old(St()), St(), s, r, debts) && Spent() + 22 <= old(Spent())
      ensures |body[s]| < |old(body)[s]|
      decreases |body[s]|, 2, 0
    {
      hide Sound; hide Texted; hide Used; hide UsedBut; hide Survives; hide Replaceable; hide Replaced; hide MidOk;
      hide Waiting; hide Reused; hide Owing; hide Matched; hide Unrecorded; hide Yields; hide History; hide Stores;
      ghost var st := St();
      ReuseReady(st, s, r, 0);
      assert KeysOf(body[r], mem.key) == KeysOf(body[r], mem.key)[0..2];
      ReuseYields(st, s, ss);
      ghost var q, z := Substitute(ss, r, s, |body[s]| - 2, FurtherUse, {ss}, debts);
      ReuseDone(st, St(), s, r);
    }

    /** A new rule takes the place of both occurrences... */
    method Factor(ss: Ptr, m: Ptr, ghost o: RuleId, ghost i: nat, ghost debts: set<RuleId>) returns (r: RuleId)
      requires Valid() && Used(St(), s) && AtEnd(St(), s, ss) && HasDigram(mem, ss)
      requires o in body && i + 2 <= |body[o]| && body[o][i] == m && (o == s ==> i + 4 <= |body[s]|)
      requires KeysOf(body[o], mem.key)[i..i + 2] == Tail(St(), s) && Tail(St(), s) == [mem.key[ss], mem.key[mem.n[ss]]]
      requires !(i == 0 && i + 2 == |body[o]|)
      requires Waiting(St(), s, ss) && Reused(St(), s, debts) && Owing(St(), s, debts)
      modifies this`mem, this`body, this`owner, this`text, this`log
      ensures Valid() && Used(St(), s) && s in body && MidOk(old(St()), St(), s, r)
      ensures Matched(old(St()), St(), s, r, debts) && Spent() + 9 <= old(Spent())
      ensures |body[s]| < |old(body)[s]|
      decreases |body[s]|, 2, 1
    {
      hide Sound; hide Texted; hide Used; hide UsedBut; hide Survives; hide Replaceable; hide Replaced; hide MidOk;
      hide Waiting, Reused, Owing, Matched, Yields, NewAtEnd, OneUseMade, Substituted, Tail;
      hide History, Stores;
      ghost var st := St();
      ghost var made, g, f, l, q, z;
      r, made, g, f, l, q, z := FactorFirst(ss, m, o, i);
      ghost var half := St();
      ghost var q', z' := Substitute(ss, r, s, |body[s]| - 2, SecondUse, {ss, f}, debts);
      ghost var mid := St();
      FactorEnd(st, made, half, mid, s, o, i, r, g, f, l, q, z, q', z', debts);
      var first := mem.n[mem.guard[r]];
      SoundTable(mid, s);
      Store(first);
    }

    /** ...the one recorded in the table first. */
    method FactorFirst(ss: Ptr, m: Ptr, ghost o: RuleId, ghost i: nat)
      returns (r: RuleId, ghost made: State, ghost g: Ptr, ghost f: Ptr, ghost l: Ptr, ghost q: Ptr, ghost z: Ptr)
      requires Valid() && Used(St(), s) && AtEnd(St(), s, ss) && HasDigram(mem, ss)
      requires o in body && i + 2 <= |body[o]| && body[o][i] == m && (o == s ==> i + 4 <= |body[s]|)
      requires KeysOf(body[o], mem.key)[i..i + 2] == Tail(St(), s) && Tail(St(), s) == [mem.key[ss], mem.key[mem.n[ss]]]
      requires !(i == 0 && i + 2 == |body[o]|) && Waiting(St(), s, ss)
      modifies this`mem, this`body, this`owner, this`text, this`log
      ensures Valid() && Used(St(), s) && s in body && Spent() <= old(Spent()) + 12
      ensures OneUseMade(old(St()), made, St(), s, o, i, r, g, f, l, q, z) && SecondDue(old(St()), St(), s, r, f)
      decreases |body[s]|, 2, 0
    {
      hide Sound; hide Texted; hide Used; hide UsedBut; hide Survives; hide Replaceable; hide Replaced;
      hide PairMade, Uses, TailLength, Waiting, Yields, Neat, Steady, Substituted, SecondDue;
      hide History, Stores;
      ghost var st := St();
      var k1, k2 := mem.key[ss], mem.key[mem.n[ss]];
      TailFits(st, s, ss);
      WaitingNeat(st, s, ss);
      r, g, f, l := MakePair(k1, k2, {ss});
      made := St();
      assert {ss} + {f} == {ss, f};
      FactorReady(st, made, s, o, i, r, g, f, l, k1, k2);
      ReplaceableFacts(made, s, o, i, r);
      MadeYields(st, made, s, o, i, r, g, f, l);
      q, z := Substitute(m, r, o, i, FirstUse, {ss, f}, {});
      SameTextAfter(made, St(), o, i, r, z);
      FirstDone(st, made, St(), s, o, i, r, g, f, l, q, z);
    }

    /** `substitute`: the digram at `x` becomes a symbol for rule `r`, and the two
        new digrams are checked. Only those of a further use can be found again. */
    method Substitute(x: Ptr, r: RuleId, ghost o: RuleId, ghost i: nat, ghost use: Use, ghost e: set<Ptr>,
                      ghost debts: set<RuleId>)
      returns (ghost q: Ptr, ghost z: Ptr)
      requires Valid() && Replaceable(St(), s, o, i, r) && body[o][i] == x && UsedBut(St(), s, r)
      requires s in body && Yields(St(), o, i, e)
      requires use == FirstUse ==> Uses(mem, r) == {}
      requires use != FirstUse ==> o == s && i + 2 == |body[s]|
      requires use == SecondUse ==> NewAtEnd(St(), s, r)
      requires use == FurtherUse ==>
        Reusing(St(), s, r) && e == {x} && Waiting(St(), s, x) && Reused(St(), s, debts) && Owing(St(), s, debts)
      modifies this`mem, this`body, this`owner, this`text, this`log
      ensures Valid() && Used(St(), s) && s in body
      ensures Spent() + (if use == FirstUse then 0 else MATCH_STORES) <= old(Spent()) + 8
      ensures o in old(body) && i + 2 <= |old(body)[o]|
      ensures use != FurtherUse ==>
        Replaced(old(St()), St(), o, i, r, z) && Substituted(old(St()), St(), o, i, r, q, z, e)
      ensures use != FirstUse ==> r in mem.guard && r in old(text) && Survives(old(St()), St(), s, |old(text)[r]| + 1)
      ensures use == FurtherUse ==> Matched(old(St()), St(), s, r, debts)
      ensures |body[s]| <= |old(body)[s]| && (use != FirstUse ==> |body[s]| < |old(body)[s]|)
      decreases |body[s]|, 1
    {
      hide Sound; hide Texted; hide Used; hide UsedBut; hide Survives; hide Replaceable; hide Replaced; hide Unrecorded;
      hide Waiting, Reused, Owing, Matched, Settled, Yields, Yielded, NewAtEnd, Neat;
      hide Steady; hide Rewired; hide Substituted; hide History; hide Stores;
      ghost var st := St();
      var p, y := Replace(x, r, o, i, e);
      q, z := p, y;
      ghost var mid := St();
      ReplaceableFacts(st, s, o, i, r);
      SubstituteReady(st, mid, s, o, i, r, q, z, use == FirstUse);
      ghost var owed := SubstituteOwes(st, mid, s, o, i, r, q, z, use, e, debts);
      var found := Check(p, use != FurtherUse, owed);
      if !found {
        ghost var next := St();
        SubstituteNext(mid, next, q, z, use == FirstUse);
        found := Check(mem.n[p], use != FurtherUse, owed);
        SubstituteQuiet(st, mid, St(), s, o, i, r, z, use == FirstUse);
        SubstituteEnd(st, mid, next, St(), s, o, i, r, q, z, use, e, debts);
      } else {
        SubstituteFound(st, mid, St(), s, i, r, q, z);
        FoundAgain(st, mid, St(), s, r, q, z, debts);
        ReuseFound(st, mid, St(), s, r, q, z, debts);
      }
    }

    // -------------------------------------------------------------------
    // The compressor
    // -------------------------------------------------------------------

    /** The empty start rule. */
    constructor ()
      ensures Valid() && Used(St(), s) && s in text && text[s] == []
      ensures Lawful() && Spent() == 0
    {
      s := 0;
      mem := Heap(map[0 := 0], map[0 := 0], map[0 := Rule(0)], map[0 := 0], map[0 := 0], map[]);
      body, owner, text, log := map[0 := []], map[0 := 0], map[0 := []], [];
      new;
      StartIsValid(St());
      StartIsCalm(St());
    }

    /** One round of the append loop: the text of the start rule grows by the
        character, every rule that survives keeps its text, and the two laws are kept. */
    method Append(c: int)
      requires Valid() && Used(St(), s) && s in text && Lawful()
      modifies this
      ensures Valid() && Used(St(), s) && s in text && text[s] == old(text)[s] + [c]
      ensures forall r :: r in old(text) && r in text && r != s ==> text[r] == old(text)[r]
      ensures Lawful() && DigramsUnique(Prod(St())) && RulesReused(Prod(St()), s)
      ensures Spent() <= old(Spent()) + MATCH_STORES + 3
    {
      hide Sound, Texted, Used, Survives, Insertable, InsertHeap, TailLength, LastLives;
      hide Appended, Ends, Waiting, Calm, Reused, Owing, Settled, DigramsUnique, RulesReused;
      hide History, Stores;
      ghost var st := St();
      LastPlace(st, s);
      ghost var y := InsertAfter(mem.p[mem.guard[s]], Terminal(c), s, |body[s]|);
      text := text[s := text[s] + [c]];
      ghost var mid := St();
      AppendDone(st, mid, s, st.h.p[st.h.guard[s]], y, c);
      AppendedTexted(st, mid, s, y, c);
      AppendedUsed(st, mid, s, y, c);
      AppendWaits(st, mid, s, st.h.p[st.h.guard[s]], y, c);
      AppendReused(st, mid, s, y, c);
      var found := Check(mem.p[mem.p[mem.guard[s]]], false, {});
      AppendKeeps(st, mid, St(), s, y, c, found);
      AppendLawful(mid, St(), s, st.h.p[st.h.guard[s]], found);
      LawfulGrammar(St(), s);
    }

    /** Reads the file until its end or until a character that compares equal to
        EOF; at every moment the start rule expands to what was read. The grammar it
        leaves repeats no digram and has no rule with a single use. */
    method Compress(bytes: seq<int>)
      requires Valid() && Used(St(), s) && s in text && text[s] == [] && Lawful()
      modifies this
      ensures Valid() && Used(St(), s) && Lawful()
      ensures Derives(Prod(St()), s, CharsRead(bytes))
      ensures DigramsUnique(Prod(St())) && RulesReused(Prod(St()), s)
      ensures Stores(log) <= old(Spent()) + (MATCH_STORES + 3) * |CharsRead(bytes)|
    {
      hide History, Stores;
      hide Sound, Texted, Used, Derives, CharsRead, Calm, Reused, DigramsUnique, RulesReused;
      var i := 0;
      assert bytes[0..] == bytes;
      ReadNothing();
      while i < |bytes|
        invariant 0 <= i <= |bytes|
        invariant Valid() && Used(St(), s) && s in text && Lawful()
        invariant text[s] + CharsRead(bytes[i..]) == CharsRead(bytes)
        invariant Spent() <= old(Spent()) + (MATCH_STORES + 3) * |text[s]|
      {
        var ch := AsChar(bytes[i]);
        if ch == EOF {
          ReadEnd(bytes, i);
          break;
        }
        ReadNext(bytes, i);
        Append(ch);
        i := i + 1;
      }
      if i == |bytes| { assert bytes[i..] == []; }
      assert text[s] == text[s] + CharsRead(bytes[i..]);
      StartDerives(St(), s);
      LawfulGrammar(St(), s);
    }

    // -------------------------------------------------------------------
    // Reading the grammar
    // -------------------------------------------------------------------

    /** Follows the ring of a rule from its guard round to the guard. */
    method ReadRule(r: RuleId) returns (keys: seq<Key>)
      requires Valid() && r in mem.guard
      ensures r in body && keys == KeysOf(body[r], mem.key)
    {
      hide Sound;
      hide Texted;
      hide IsGuard;
      keys := [];
      RingWalk(St(), s, r, 0);
      var x := mem.n[mem.guard[r]];
      ghost var k := 0;
      while !IsGuard(mem, x)
        invariant r in body && k <= |body[r]| && x == RingStop(St(), r, k)
        invariant Readable(mem, x) && (IsGuard(mem, x) <==> k == |body[r]|)
        invariant keys == KeysOf(body[r], mem.key)[..k]
        decreases |body[r]| - k
      {
        RingWalk(St(), s, r, k + 1);
        keys := keys + [mem.key[x]];
        x := mem.n[x];
        k := k + 1;
      }
    }

    /** `p`: prints a rule, giving the next number to every rule that is met for the first
        time. A rule was met if the slot of its number holds it. */
    method PrintRule(r: RuleId, slots: array<Option<RuleId>>, numbers: map<RuleId, nat>, ghost found: seq<RuleId>,
                     start: nat)
      returns (out: seq<int>, number: map<RuleId, nat>, ri: nat, ghost line: seq<Item>, ghost met: seq<RuleId>)
      requires Valid() && r in mem.guard && start == |found|
      requires Numbering(slots[..], found, numbers, mem.guard.Keys, s)
      modifies slots
      ensures Numbering(slots[..], met, number, mem.guard.Keys, s) && found <= met && ri == |met| == Met(line, |found|)
      ensures r in body && Shows(line, KeysOf(body[r], mem.key), met) && Orderly(line, |found|)
      ensures out == Tokens(line) + [NEWLINE]
    {
      hide Sound, Texted, IsGuard, KeysOf, Numbering, Shows, Orderly, Met, Tokens, Token, Readable;
      out, number, ri, line, met := [], numbers, start, [], found;
      RingWalk(St(), s, r, 0);
      ghost var keys := KeysOf(body[r], mem.key);
      PrintStarts(keys, found);
      KeyAt(body[r], mem.key, 0);
      PrintedNothing();
      var x := mem.n[mem.guard[r]];
      ghost var k := 0;
      while !IsGuard(mem, x)
        invariant r in body && k <= |body[r]| == |keys| && x == RingStop(St(), r, k)
        invariant Readable(mem, x) && (IsGuard(mem, x) <==> k == |body[r]|)
        invariant Numbering(slots[..], met, number, mem.guard.Keys, s) && found <= met && ri == |met|
        invariant Shows(line, keys[..k], met) && Orderly(line, |found|) && |met| == Met(line, |found|)
        invariant out == Tokens(line)
        decreases |body[r]| - k
      {
        RingWalk(St(), s, r, k + 1);
        SymbolInBody(St(), s, r, k);
        KeyAt(body[r], mem.key, k);
        ghost var before := met;
        var item;
        if mem.key[x].Rule? {
          var q := mem.key[x].r;
          SlotTells(slots[..], met, number, mem.guard.Keys, s, q);
          if slots[number[q]] == Some(q) {
            item := Number(number[q]);
          } else {
            NumberingGrows(slots[..], met, number, mem.guard.Keys, s, q);
            item, number := Number(ri), number[q := ri];
            slots[ri] := Some(q);
            ri, met := ri + 1, met + [q];
          }
        } else {
          item := Char(mem.key[x].c);
        }
        ShowsMore(line, keys[..k], before, met);
        ShowsNext(line, keys, met, item, k);
        OrderlyNext(line, |found|, item);
        TokensNext(line, item);
        out, line := out + Token(item) + [SPACE], line + [item];
        x, k := mem.n[x], k + 1;
      }
      assert keys[..k] == keys;
      out := out + [NEWLINE];
    }

    /** `print`: the array has one slot for every rule there is, and that is enough. */
    method Print() returns (out: seq<int>)
      requires Valid() && RulesReused(Prod(St()), s)
      ensures IsPrinted(out, Prod(St()), s)
    {
      hide Inv, Prod, Numbering, SoFar, RulesReused, Output, MetAll, Shows, Orderly, Met, IsListing, Derives, KeysOf;
      hide Tokens, Digits, Lists;
      ProdRules(St(), s);
      ghost var g := Prod(St());
      var slots := new Option<RuleId>[|mem.guard|](_ => None);
      var number := map r | r in mem.guard :: 0;
      assert mem.guard.Keys == {s} + (mem.guard.Keys - {s});
      slots[0] := Some(s);
      NumberingStarts(slots[..], number, mem.guard.Keys, s);
      ListsNothing(g, [s]);
      PrintedNothing();
      var i, ri := 0, 1;
      out := [];
      ghost var order: seq<RuleId>, lines: seq<seq<Item>> := [s], [];
      while i < ri
        invariant i == |lines| <= ri == |order| == MetAll(lines) && out == Output(lines)
        invariant Numbering(slots[..], order, number, mem.guard.Keys, s) && SoFar(g, order, lines)
        invariant slots.Length == |mem.guard| && fresh(slots)
        decreases |mem.guard| - i
      {
        SlotHolds(slots[..], order, number, mem.guard.Keys, s, i);
        ghost var line, met;
        var text: seq<int>;
        text, number, ri, line, met := PrintRule(slots[i].value, slots, number, order, ri);
        SoFarNext(g, order, lines, met, line);
        OutputNext(lines, line, text);
        out, order, lines := out + (Digits(i) + ARROW + text), met, lines + [line];
        SlotHolds(slots[..], order, number, mem.guard.Keys, s, i);
        i := i + 1;
      }
      StartDerives(St(), s);
      SoFarDone(g, s, slots[..], order, number, lines, text[s]);
    }

    /** All rules at once. */
    method ReadGrammar() returns (g: Productions)
      requires Valid()
      ensures g == Prod(St())
    {
      hide Sound;
      hide Texted;
      Domains(St(), s);
      g := map[];
      var rest := mem.guard.Keys;
      while rest != {}
        invariant rest <= mem.guard.Keys
        invariant forall r :: r in g <==> r in mem.guard && r !in rest
        invariant forall r :: r in g ==> r in body && g[r] == KeysOf(body[r], mem.key)
      {
        var r :| r in rest;
        var keys := ReadRule(r);
        g := g[r := keys];
        rest := rest - {r};
      }
    }
  }

  const EOF := -1

  /** `fgetc` stored in a signed `char`. */
  function AsChar(b: int): int {
    if b % 256 < 128 then b % 256 else b % 256 - 256
  }

  /** The characters before the first one equal to EOF. */
  function CharsRead(bytes: seq<int>): seq<int> {
    if bytes == [] || AsChar(bytes[0]) == EOF then [] else [AsChar(bytes[0])] + CharsRead(bytes[1..])
  }

  lemma ReadNothing()
    ensures CharsRead([]) == []
  {
  }

  lemma ReadEnd(bytes: seq<int>, i: nat)
    requires i < |bytes| && AsChar(bytes[i]) == EOF
    ensures CharsRead(bytes[i..]) == []
  {
  }

  lemma ReadNext(bytes: seq<int>, i: nat)
    requires i < |bytes| && AsChar(bytes[i]) != EOF
    ensures CharsRead(bytes[i..]) == [AsChar(bytes[i])] + CharsRead(bytes[i + 1..])
  {
    assert bytes[i..][1..] == bytes[i + 1..];
  }

  /** Some address outside `used`. */
  method Fresh(used: set<nat>) returns (y: nat)
    ensures y !in used
  {
    y := 0;
    var rest := used;
    while rest != {}
      invariant rest <= used
      invariant forall x :: x in used && x !in rest ==> x < y
      decreases rest
    {
      var x :| x in rest;
      rest := rest - {x};
      if y <= x { y := x + 1; }
    }
  }
}
