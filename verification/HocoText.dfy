/**
  Comparison and substring on HOCO text without decompressing it first.
 */
module HocoText {
  import opened Wrappers
  import opened ByteOrder
  import opened Rle

  // ---------------------------------------------------------------------
  // One side of a comparison
  // ---------------------------------------------------------------------

  /** Room for the longest run and a NUL. */
  const BUFFER_SIZE := 131

  /** The text still to be compared: `count` buffered bytes from `at` on, then the
      chunks of the stream from `pos` on. */
  ghost function Pending(stream: seq<Byte>, pos: nat, buf: seq<Byte>, at: nat, count: nat): seq<Byte>
    requires pos <= |stream| && WellFormed(stream[pos..]) && at + count <= |buf|
  {
    buf[at..at + count] + Decode(stream[pos..])
  }

  /** Copies the next chunk into the buffer, with a NUL behind it. */
  method Load(stream: seq<Byte>, pos: nat, buf: array<Byte>) returns (next: nat, count: nat)
    requires pos < |stream| && WellFormed(stream[pos..]) && buf.Length == BUFFER_SIZE
    modifies buf
    ensures pos < next <= |stream| && WellFormed(stream[next..]) && 0 < count < BUFFER_SIZE
    ensures Decode(stream[pos..]) == Pending(stream, next, buf[..], 0, count)
  {
    hide WellFormed; hide Decode;
    ChunkAt(stream, pos);
    var c := stream[pos];
    count := if c >= 128 then c - 128 + THRESHOLD else c;
    if c >= 128 {
      var i := 0;
      while i < count
        invariant 0 <= i <= count && forall j :: 0 <= j < i ==> buf[j] == stream[pos + 1]
      {
        buf[i] := stream[pos + 1];
        i := i + 1;
      }
      next := pos + 2;
    } else {
      var i := 0;
      while i < count
        invariant 0 <= i <= count && forall j :: 0 <= j < i ==> buf[j] == stream[pos + 1 + j]
      {
        buf[i] := stream[pos + 1 + i];
        i := i + 1;
      }
      next := pos + 1 + count;
    }
    buf[count] := 0;
    assert buf[..][0..count] == TextAt(stream, pos);
  }

  /** Whatever follows, comparing `a` with `b` comes down to comparing what is left
      of both after `k` bytes, or is decided. */
  ghost predicate Settles(a: seq<Byte>, b: seq<Byte>, k: nat, verdict: int, signed: bool) {
    && k <= |a| && k <= |b| && a[..k] == b[..k]
    && (verdict == 0 ==> k == |a| || k == |b|)
    && (verdict != 0 ==>
          && k < |a| && k < |b| && a[k] != b[k]
          && verdict == if CharValue(a[k], signed) > CharValue(b[k], signed) then 1 else -1)
  }

  lemma SettlesLex(a: seq<Byte>, b: seq<Byte>, k: nat, verdict: int, signed: bool, x: seq<Byte>, y: seq<Byte>)
    requires Settles(a, b, k, verdict, signed)
    ensures Lex(a + x, b + y, signed) == Lex(a[k..] + x, b[k..] + y, signed)
    ensures verdict != 0 ==> Lex(a + x, b + y, signed) == verdict
  {
    assert a + x == a[..k] + (a[k..] + x) && b + y == b[..k] + (b[k..] + y);
    LexPrefix(a[..k], a[k..] + x, b[k..] + y, signed);
    if verdict != 0 { LexStep(a[k..] + x, b[k..] + y, signed); }
  }

  /** The inner loop: compares the two buffers until one is used up or they differ. */
  method CompareBuffers(lef: array<Byte>, la: nat, lc: nat, righ: array<Byte>, ra: nat, rc: nat, signed: bool)
    returns (verdict: int, k: nat)
    requires la + lc <= lef.Length && ra + rc <= righ.Length
    ensures Settles(lef[la..la + lc], righ[ra..ra + rc], k, verdict, signed)
  {
    verdict, k := 0, 0;
    while k < lc && k < rc
      invariant 0 <= k <= lc && k <= rc && verdict == 0
      invariant lef[la..la + k] == righ[ra..ra + k]
    {
      if lef[la + k] == righ[ra + k] {
        assert lef[la..la + k + 1] == lef[la..la + k] + [lef[la + k]];
        assert righ[ra..ra + k + 1] == righ[ra..ra + k] + [righ[ra + k]];
        k := k + 1;
      } else {
        verdict := if CharValue(lef[la + k], signed) > CharValue(righ[ra + k], signed) then 1 else -1;
        break;
      }
    }
    assert lef[la..la + lc][..k] == lef[la..la + k] && righ[ra..ra + rc][..k] == righ[ra..ra + k];
  }

  /** Moving `k` bytes on in a buffer. */
  lemma PendingMoves(stream: seq<Byte>, pos: nat, buf: seq<Byte>, at: nat, count: nat, k: nat)
    requires pos <= |stream| && WellFormed(stream[pos..]) && at + count <= |buf| && k <= count
    ensures Pending(stream, pos, buf, at + k, count - k) == buf[at..at + count][k..] + Decode(stream[pos..])
  {
    assert buf[at..at + count][k..] == buf[at + k..at + count];
  }

  lemma PendingStart(stream: seq<Byte>, buf: seq<Byte>)
    requires WellFormed(stream)
    ensures stream[0..] == stream && Pending(stream, 0, buf, 0, 0) == Decode(stream)
  {
    assert stream[0..] == stream;
  }

  /** Nothing buffered and the stream at its end: nothing is left. */
  lemma PendingEmpty(stream: seq<Byte>, pos: nat, buf: seq<Byte>, at: nat, count: nat)
    requires pos <= |stream| && WellFormed(stream[pos..]) && at + count <= |buf|
    ensures Pending(stream, pos, buf, at, count) == [] <==> pos == |stream| && count == 0
  {
    if pos < |stream| { DecodeNonEmpty(stream[pos..]); } else { DecodeEnd(stream[pos..]); }
  }

  /** One comparison step of two sides. */
  lemma SidesStep(left: seq<Byte>, lp: nat, lb: seq<Byte>, la: nat, lc: nat,
                  right: seq<Byte>, rp: nat, rb: seq<Byte>, ra: nat, rc: nat, k: nat, verdict: int, signed: bool)
    requires lp <= |left| && WellFormed(left[lp..]) && la + lc <= |lb|
    requires rp <= |right| && WellFormed(right[rp..]) && ra + rc <= |rb|
    requires Settles(lb[la..la + lc], rb[ra..ra + rc], k, verdict, signed)
    ensures k <= lc && k <= rc && (verdict == 0 ==> k == lc || k == rc)
    ensures Lex(Pending(left, lp, lb, la, lc), Pending(right, rp, rb, ra, rc), signed)
         == Lex(Pending(left, lp, lb, la + k, lc - k), Pending(right, rp, rb, ra + k, rc - k), signed)
    ensures verdict != 0 ==> Lex(Pending(left, lp, lb, la, lc), Pending(right, rp, rb, ra, rc), signed) == verdict
  {
    hide WellFormed; hide Decode; hide Lex;
    SettlesLex(lb[la..la + lc], rb[ra..ra + rc], k, verdict, signed, Decode(left[lp..]), Decode(right[rp..]));
    PendingMoves(left, lp, lb, la, lc, k);
    PendingMoves(right, rp, rb, ra, rc, k);
  }

  ghost predicate Side(stream: seq<Byte>, pos: nat, buf: seq<Byte>, at: nat, count: nat) {
    pos <= |stream| && WellFormed(stream[pos..]) && |buf| == BUFFER_SIZE && at + count < BUFFER_SIZE
  }

  /** `hocotext_hoco_cmp`: both texts compressed. */
  method HocoCmp(left: seq<Byte>, right: seq<Byte>, signed: bool) returns (r: int)
    requires WellFormed(left) && WellFormed(right)
    ensures r == Lex(Decode(left), Decode(right), signed)
  {
    hide WellFormed; hide Decode; hide Lex; hide Pending; hide Settles;
    var lef, righ := new Byte[BUFFER_SIZE](_ => 0), new Byte[BUFFER_SIZE](_ => 0);
    var lp, la, lc, rp, ra, rc := 0, 0, 0, 0, 0, 0;
    ghost var goal := Lex(Decode(left), Decode(right), signed);
    PendingStart(left, lef[..]);
    PendingStart(right, righ[..]);
    while lp < |left| && rp < |right|
      invariant Side(left, lp, lef[..], la, lc) && Side(right, rp, righ[..], ra, rc)
      invariant goal == Lex(Pending(left, lp, lef[..], la, lc), Pending(right, rp, righ[..], ra, rc), signed)
      invariant lc == 0 || rc == 0
      decreases |left| - lp + |right| - rp
    {
      if lc == 0 {
        LoadsPending(left, lp, lef[..], la);
        lp, lc := Load(left, lp, lef);
        la := 0;
      }
      if rc == 0 {
        LoadsPending(right, rp, righ[..], ra);
        rp, rc := Load(right, rp, righ);
        ra := 0;
      }
      var verdict, k := CompareBuffers(lef, la, lc, righ, ra, rc, signed);
      SlicesAgree(lef, righ, la, lc, ra, rc);
      SidesStep(left, lp, lef[..], la, lc, right, rp, righ[..], ra, rc, k, verdict, signed);
      if verdict != 0 {
        return verdict;
      }
      la, lc, ra, rc := la + k, lc - k, ra + k, rc - k;
    }
    while lp < |left| && rc > 0
      invariant Side(left, lp, lef[..], la, lc) && Side(right, rp, righ[..], ra, rc)
      invariant goal == Lex(Pending(left, lp, lef[..], la, lc), Pending(right, rp, righ[..], ra, rc), signed)
      invariant (lc == 0 || rc == 0) && (lp == |left| || rp == |right|)
      decreases |left| - lp
    {
      LoadsPending(left, lp, lef[..], la);
      lp, lc := Load(left, lp, lef);
      la := 0;
      var verdict, k := CompareBuffers(lef, la, lc, righ, ra, rc, signed);
      SlicesAgree(lef, righ, la, lc, ra, rc);
      SidesStep(left, lp, lef[..], la, lc, right, rp, righ[..], ra, rc, k, verdict, signed);
      if verdict != 0 {
        return verdict;
      }
      la, lc, ra, rc := la + k, lc - k, ra + k, rc - k;
    }
    while rp < |right| && lc > 0
      invariant Side(left, lp, lef[..], la, lc) && Side(right, rp, righ[..], ra, rc)
      invariant goal == Lex(Pending(left, lp, lef[..], la, lc), Pending(right, rp, righ[..], ra, rc), signed)
      invariant (lc == 0 || rc == 0) && (lp == |left| || rp == |right|) && (lp == |left| || rc == 0)
      decreases |right| - rp
    {
      LoadsPending(right, rp, righ[..], ra);
      rp, rc := Load(right, rp, righ);
      ra := 0;
      var verdict, k := CompareBuffers(lef, la, lc, righ, ra, rc, signed);
      SlicesAgree(lef, righ, la, lc, ra, rc);
      SidesStep(left, lp, lef[..], la, lc, right, rp, righ[..], ra, rc, k, verdict, signed);
      if verdict != 0 {
        return verdict;
      }
      la, lc, ra, rc := la + k, lc - k, ra + k, rc - k;
    }
    PendingEmpty(left, lp, lef[..], la, lc);
    PendingEmpty(right, rp, righ[..], ra, rc);
    LexEnds(Pending(left, lp, lef[..], la, lc), Pending(right, rp, righ[..], ra, rc), signed);
    if lp < |left| || lc > 0 {
      return 1;
    } else if rp < |right| || rc > 0 {
      return -1;
    } else {
      return 0;
    }
  }

  lemma LexEnds(a: seq<Byte>, b: seq<Byte>, signed: bool)
    ensures a == [] || b == [] ==> Lex(a, b, signed) == if a != [] then 1 else if b != [] then -1 else 0
  {
  }

  lemma LoadsPending(stream: seq<Byte>, pos: nat, buf: seq<Byte>, at: nat)
    requires pos <= |stream| && WellFormed(stream[pos..]) && at <= |buf|
    ensures Pending(stream, pos, buf, at, 0) == Decode(stream[pos..])
  {
  }

  lemma SlicesAgree(lef: array<Byte>, righ: array<Byte>, la: nat, lc: nat, ra: nat, rc: nat)
    requires la + lc <= lef.Length && ra + rc <= righ.Length
    ensures lef[la..la + lc] == lef[..][la..la + lc] && righ[ra..ra + rc] == righ[..][ra..ra + rc]
  {
  }

  /** The inner loop of a mixed comparison: buffer against plain text. */
  method CompareWithPlain(lef: array<Byte>, la: nat, lc: nat, plain: seq<Byte>, rp: nat, signed: bool)
    returns (verdict: int, k: nat)
    requires la + lc <= lef.Length && rp <= |plain|
    ensures Settles(lef[la..la + lc], plain[rp..], k, verdict, signed)
  {
    verdict, k := 0, 0;
    while k < lc && rp + k < |plain|
      invariant 0 <= k <= lc && rp + k <= |plain| && verdict == 0
      invariant lef[la..la + k] == plain[rp..rp + k]
    {
      if lef[la + k] == plain[rp + k] {
        assert lef[la..la + k + 1] == lef[la..la + k] + [lef[la + k]];
        assert plain[rp..rp + k + 1] == plain[rp..rp + k] + [plain[rp + k]];
        k := k + 1;
      } else {
        verdict := if CharValue(lef[la + k], signed) > CharValue(plain[rp + k], signed) then 1 else -1;
        break;
      }
    }
    assert lef[la..la + lc][..k] == lef[la..la + k] && plain[rp..][..k] == plain[rp..rp + k];
  }

  lemma MixedStep(left: seq<Byte>, lp: nat, lb: seq<Byte>, la: nat, lc: nat, plain: seq<Byte>, rp: nat,
                  k: nat, verdict: int, signed: bool)
    requires lp <= |left| && WellFormed(left[lp..]) && la + lc <= |lb| && rp <= |plain|
    requires Settles(lb[la..la + lc], plain[rp..], k, verdict, signed)
    ensures k <= lc && rp + k <= |plain| && (verdict == 0 ==> k == lc || rp + k == |plain|)
    ensures Lex(Pending(left, lp, lb, la, lc), plain[rp..], signed)
         == Lex(Pending(left, lp, lb, la + k, lc - k), plain[rp + k..], signed)
    ensures verdict != 0 ==> Lex(Pending(left, lp, lb, la, lc), plain[rp..], signed) == verdict
  {
    hide WellFormed; hide Decode; hide Lex;
    SettlesLex(lb[la..la + lc], plain[rp..], k, verdict, signed, Decode(left[lp..]), []);
    PendingMoves(left, lp, lb, la, lc, k);
    assert plain[rp..] + [] == plain[rp..];
    assert plain[rp..][k..] + [] == plain[rp + k..];
  }

  /** The loops of `hocotext_mixed_cmp`, compressed text first. */
  method CompressedVersusPlain(left: seq<Byte>, plain: seq<Byte>, signed: bool) returns (r: int)
    requires WellFormed(left)
    ensures r == Lex(Decode(left), plain, signed)
  {
    hide WellFormed; hide Decode; hide Lex; hide Pending; hide Settles;
    var lef := new Byte[BUFFER_SIZE](_ => 0);
    var lp: nat, la: nat, lc: nat, rp: nat := 0, 0, 0, 0;
    ghost var goal := Lex(Decode(left), plain, signed);
    PendingStart(left, lef[..]);
    assert plain[0..] == plain;
    while lp < |left| && rp < |plain|
      invariant Side(left, lp, lef[..], la, lc) && rp <= |plain|
      invariant goal == Lex(Pending(left, lp, lef[..], la, lc), plain[rp..], signed)
      invariant lc == 0 || rp == |plain|
      decreases |left| - lp
    {
      if lc == 0 {
        LoadsPending(left, lp, lef[..], la);
        lp, lc := Load(left, lp, lef);
        la := 0;
      }
      var verdict, k := CompareWithPlain(lef, la, lc, plain, rp, signed);
      SlicesAgree(lef, lef, la, lc, la, lc);
      MixedStep(left, lp, lef[..], la, lc, plain, rp, k, verdict, signed);
      if verdict != 0 {
        return verdict;
      }
      la, lc, rp := la + k, lc - k, rp + k;
    }
    while rp < |plain| && lc > 0
      invariant Side(left, lp, lef[..], la, lc) && rp <= |plain| && (lp == |left| || rp == |plain|)
      invariant goal == Lex(Pending(left, lp, lef[..], la, lc), plain[rp..], signed)
      decreases lc
    {
      var verdict, k := CompareWithPlain(lef, la, lc, plain, rp, signed);
      SlicesAgree(lef, lef, la, lc, la, lc);
      MixedStep(left, lp, lef[..], la, lc, plain, rp, k, verdict, signed);
      if verdict != 0 {
        return verdict;
      }
      la, lc, rp := la + k, lc - k, rp + k;
    }
    PendingEmpty(left, lp, lef[..], la, lc);
    LexEnds(Pending(left, lp, lef[..], la, lc), plain[rp..], signed);
    if lp < |left| || lc > 0 {
      return 1;
    } else if rp < |plain| {
      return -1;
    } else {
      return 0;
    }
  }

  /** `hocotext_common_cmp`: neither text compressed. */
  method CommonCmp(left: seq<Byte>, right: seq<Byte>, signed: bool) returns (r: int)
    ensures r == Lex(left, right, signed)
  {
    var p := 0;
    assert left[0..] == left && right[0..] == right;
    while p < |left| && p < |right|
      invariant p <= |left| && p <= |right|
      invariant Lex(left, right, signed) == Lex(left[p..], right[p..], signed)
    {
      LexStep(left[p..], right[p..], signed);
      assert left[p..][1..] == left[p + 1..] && right[p..][1..] == right[p + 1..];
      if left[p] == right[p] {
        p := p + 1;
        continue;
      }
      return if CharValue(left[p], signed) > CharValue(right[p], signed) then 1 else -1;
    }
    LexEnds(left[p..], right[p..], signed);
    if p < |left| {
      return 1;
    } else if p < |right| {
      return -1;
    } else {
      return 0;
    }
  }

  // ---------------------------------------------------------------------
  // The type's own comparison
  // ---------------------------------------------------------------------

  datatype Text = Compressed(stream: seq<Byte>) | Plain(bytes: seq<Byte>)

  ghost predicate Good(t: Text) {
    t.Compressed? ==> WellFormed(t.stream)
  }

  ghost function Value(t: Text): seq<Byte>
    requires Good(t)
  {
    match t
    case Compressed(s) => Decode(s)
    case Plain(b) => b
  }

  /** `hocotext_mixed_cmp`: the arguments are exchanged when the second one is the
      compressed one, and the verdict is turned round again. */
  method MixedCmp(left: Text, right: Text, signed: bool) returns (r: int)
    requires Good(left) && Good(right) && left.Compressed? != right.Compressed?
    ensures r == Lex(Value(left), Value(right), signed)
  {
    if left.Plain? {
      var v := CompressedVersusPlain(right.stream, left.bytes, signed);
      LexAntisymmetric(Decode(right.stream), left.bytes, signed);
      r := -v;
    } else {
      r := CompressedVersusPlain(left.stream, right.bytes, signed);
    }
  }

  /** `hocotext_cmp`: the same order whatever mix of forms is compared. */
  method Cmp(left: Text, right: Text, signed: bool) returns (r: int)
    requires Good(left) && Good(right)
    ensures r == Lex(Value(left), Value(right), signed)
  {
    if left.Compressed? && right.Compressed? {
      r := HocoCmp(left.stream, right.stream, signed);
    } else if left.Compressed? || right.Compressed? {
      r := MixedCmp(left, right, signed);
    } else {
      r := CommonCmp(left.bytes, right.bytes, signed);
    }
  }

  /** That order is total: reflexive exactly on equal texts, antisymmetric, transitive. */
  lemma CmpIsTotalOrder(a: Text, b: Text, c: Text, signed: bool)
    requires Good(a) && Good(b) && Good(c)
    ensures Lex(Value(a), Value(b), signed) == 0 <==> Value(a) == Value(b)
    ensures Lex(Value(a), Value(b), signed) == -Lex(Value(b), Value(a), signed)
    ensures Lex(Value(a), Value(b), signed) <= 0 && Lex(Value(b), Value(c), signed) <= 0
        ==> Lex(Value(a), Value(c), signed) <= 0
  {
    LexEqual(Value(a), Value(b), signed);
    LexAntisymmetric(Value(a), Value(b), signed);
    if Lex(Value(a), Value(b), signed) <= 0 && Lex(Value(b), Value(c), signed) <= 0 {
      LexTransitive(Value(a), Value(b), Value(c), signed);
    }
  }

  // ---------------------------------------------------------------------
  // Substrings
  // ---------------------------------------------------------------------

  /** `hocotext_common_extract`. */
  method CommonExtract(source: seq<Byte>, offset: nat, len: nat) returns (r: Option<seq<Byte>>)
    ensures r == if offset > |source| then None
                 else Some(source[offset..if offset + len <= |source| then offset + len else |source|])
  {
    if offset > |source| {
      return None;
    }
    var resultLen := if |source| - offset < len then |source| - offset else len;
    return Some(source[offset..offset + resultLen]);
  }

  /** Some bytes of a chunk, `sp` at the repeated byte or at the next literal. */
  function Piece(source: seq<Byte>, sp: nat, repeated: bool, count: nat): (r: seq<Byte>)
    requires sp + (if repeated then 1 else count) <= |source|
    ensures |r| == count
  {
    if repeated then Repeat(source[sp], count) else source[sp..sp + count]
  }

  /** The rest of a chunk of which `count` bytes are left, and the chunks behind it. */
  ghost predicate Within(source: seq<Byte>, sp: nat, repeated: bool, count: nat, text: seq<Byte>) {
    var next := if repeated then sp + 1 else sp + count;
    && next <= |source| && WellFormed(source[next..])
    && text == Piece(source, sp, repeated, count) + Decode(source[next..])
  }

  /** Entering a chunk at its control byte. */
  lemma EnterChunk(source: seq<Byte>, p: nat)
    requires p < |source| && WellFormed(source[p..])
    ensures source[p] != 0 && p + ChunkSize(source[p]) <= |source|
    ensures Within(source, p + 1, source[p] >= 128, Count(source[p]), Decode(source[p..]))
  {
    hide WellFormed; hide Decode; hide Repeat;
    ChunkAt(source, p);
  }

  /** Skipping `k` bytes inside a chunk. */
  lemma SkipWithin(source: seq<Byte>, sp: nat, repeated: bool, count: nat, text: seq<Byte>, k: nat)
    requires Within(source, sp, repeated, count, text) && k <= count
    ensures k <= |text|
    ensures Within(source, if repeated then sp else sp + k, repeated, count - k, text[k..])
  {
    hide WellFormed; hide Decode;
    if repeated {
      assert Repeat(source[sp], count)[k..] == Repeat(source[sp], count - k);
    } else {
      assert source[sp..sp + count][k..] == source[sp + k..sp + count];
    }
  }

  /** The first loop: find the chunk that holds position `offset`. Behind the end of the
      text it runs off the stream. */
  method Locate(source: seq<Byte>, offset: nat) returns (ok: bool, sp: nat, repeated: bool, count: nat)
    requires WellFormed(source)
    ensures ok <==> offset <= |Decode(source)|
    ensures ok && offset == 0 ==> sp == 0 && repeated && count == 0
    ensures ok && offset > 0 ==> Within(source, sp, repeated, count, Decode(source)[offset..])
  {
    hide WellFormed; hide Decode; hide Within;
    var cur := 0;
    sp, count, repeated := 0, 0, true;
    ghost var text := Decode(source);
    assert source[0..] == source && text[0..] == text;
    while cur < offset
      invariant cur <= offset && cur <= |text| && sp <= |source|
      invariant cur < offset || offset == 0 ==> WellFormed(source[sp..]) && text[cur..] == Decode(source[sp..])
      invariant 0 < cur == offset ==> Within(source, sp, repeated, count, text[offset..])
      invariant offset == 0 ==> sp == 0 && repeated && count == 0
      decreases |source| - sp, offset - cur
    {
      if sp == |source| {
        DecodeEnd(source[sp..]);
        return false, sp, repeated, count;
      }
      EnterChunk(source, sp);
      ChunkAt(source, sp);
      repeated := source[sp] >= 128;
      count := if repeated then source[sp] - 128 + THRESHOLD else source[sp];
      if offset - (count + cur) <= 0 {
        SkipWithin(source, sp + 1, repeated, count, text[cur..], offset - cur);
        assert text[cur..][offset - cur..] == text[offset..];
        sp := if repeated then sp + 1 else sp + (offset - cur + 1);
        count := count - (offset - cur);
        cur := offset;
        LocateBound(source, sp, repeated, count, text[offset..]);
      } else {
        assert text[cur..][count..] == text[cur + count..];
        sp := if repeated then sp + 2 else sp + count + 1;
        cur := cur + count;
      }
    }
    ok := true;
  }

  lemma LocateBound(source: seq<Byte>, sp: nat, repeated: bool, count: nat, text: seq<Byte>)
    requires Within(source, sp, repeated, count, text)
    ensures sp <= |source|
  {
  }

  /** What a substring comes to: bytes, nothing, or reading behind the stream. */
  datatype Slice = Bytes(bytes: seq<Byte>) | Nothing | RunsOff

  function Least(a: nat, b: nat): nat { if a < b then a else b }

  function Finish(got: seq<Byte>, len: nat, left: nat): Slice {
    if |got| != len || |got| == left then Nothing else Bytes(got)
  }

  /** The second loop: `count` bytes of the chunk at hand, then the chunks behind it,
      until there are `len` bytes, or the `left` bytes the text has from here on. */
  function Gather(source: seq<Byte>, sp: nat, repeated: bool, count: nat, got: seq<Byte>, len: nat, left: nat): Slice
    decreases |source| - sp
  {
    if |got| >= len || |got| >= left then Finish(got, len, left)
    else
      var take := Least(count, len - |got|);
      var next := sp + if repeated then 1 else take;
      if next > |source| then RunsOff
      else
        var more := got + Piece(source, sp, repeated, take);
        if |more| >= len || |more| >= left then Finish(more, len, left)
        else if next == |source| then RunsOff
        else Gather(source, next + 1, source[next] >= 128, Count(source[next]), more, len, left)
  }

  /** `hocotext_hoco_extract` on all offsets and lengths. The first round of the second
      loop tests for the start of the stream at the wrong address, so that with offset
      zero the first control byte is skipped as if it were the byte of a finished run. */
  function Extracted(source: seq<Byte>, offset: nat, len: nat): Slice
    requires WellFormed(source)
  {
    var text := Decode(source);
    if offset > |text| then RunsOff
    else if offset == 0 then Gather(source, 0, true, 0, [], len, |text|)
    else if offset + len < |text| then Bytes(text[offset..offset + len])
    else Nothing
  }

  /** The substring, or nothing when it reaches the end of the text. */
  method HocoExtract(source: seq<Byte>, offset: nat, len: nat) returns (r: Slice)
    requires WellFormed(source)
    ensures r == Extracted(source, offset, len)
  {
    hide WellFormed, Decode, Within, Repeat, Piece, Extracted, Gather, Finish;
    var rawsize: nat := |Decode(source)|;
    var ok, sp: nat, repeated: bool, count: nat := Locate(source, offset);
    if !ok {
      ExtractedBehind(source, offset, len);
      return RunsOff;
    }
    ExtractedStart(source, offset, len, sp, repeated, count);
    var cur: nat := offset;
    var dest: seq<Byte> := [];
    while cur - offset < len && cur < rawsize
      invariant cur == offset + |dest| && offset <= rawsize
      invariant Gather(source, sp, repeated, count, dest, len, rawsize - offset) == Extracted(source, offset, len)
      decreases |source| - sp
    {
      GatherStep(source, sp, repeated, count, dest, len, rawsize - offset);
      if count + cur - offset > len {
        count := len + offset - cur;
      }
      if sp + (if repeated then 1 else count) > |source| {
        return RunsOff;
      }
      dest := dest + Piece(source, sp, repeated, count);
      sp := if repeated then sp + 1 else sp + count;
      cur := offset + |dest|;
      if cur - offset < len && cur < rawsize {
        // The control byte is looked at ahead of the next round.
        if sp == |source| {
          return RunsOff;
        }
        repeated := source[sp] >= 128;
        count := if repeated then source[sp] - 128 + THRESHOLD else source[sp];
        sp := sp + 1;
      } else {
        GatherEnds(source, sp, repeated, count, dest, len, rawsize - offset);
      }
    }
    GatherEnds(source, sp, repeated, count, dest, len, rawsize - offset);
    if |dest| != len || cur == rawsize {
      return Nothing;
    }
    return Bytes(dest);
  }

  lemma GatherEnds(source: seq<Byte>, sp: nat, repeated: bool, count: nat, got: seq<Byte>, len: nat, left: nat)
    requires |got| >= len || |got| >= left
    ensures Gather(source, sp, repeated, count, got, len, left) == Finish(got, len, left)
    ensures Finish(got, len, left) == if |got| != len || |got| == left then Nothing else Bytes(got)
  {
  }

  /** One round. */
  lemma GatherStep(source: seq<Byte>, sp: nat, repeated: bool, count: nat, got: seq<Byte>, len: nat, left: nat)
    requires |got| < len && |got| < left
    ensures var take := Least(count, len - |got|);
      var next := sp + if repeated then 1 else take;
      if next > |source| then Gather(source, sp, repeated, count, got, len, left) == RunsOff
      else
        var more := got + Piece(source, sp, repeated, take);
        Gather(source, sp, repeated, count, got, len, left) ==
          if |more| >= len || |more| >= left then Finish(more, len, left)
          else if next == |source| then RunsOff
          else Gather(source, next + 1, source[next] >= 128, Count(source[next]), more, len, left)
  {
    hide Piece, Finish;
  }

  lemma ExtractedBehind(source: seq<Byte>, offset: nat, len: nat)
    requires WellFormed(source) && offset > |Decode(source)|
    ensures Extracted(source, offset, len) == RunsOff
  {
  }

  lemma ExtractedStart(source: seq<Byte>, offset: nat, len: nat, sp: nat, repeated: bool, count: nat)
    requires WellFormed(source) && offset <= |Decode(source)|
    requires if offset == 0 then sp == 0 && repeated && count == 0
             else Within(source, sp, repeated, count, Decode(source)[offset..])
    ensures Gather(source, sp, repeated, count, [], len, |Decode(source)| - offset) == Extracted(source, offset, len)
  {
    hide WellFormed, Decode, Within, Gather;
    if offset > 0 {
      var text := Decode(source);
      GatherMeans(source, sp, repeated, count, [], len, |text| - offset, text[offset..]);
      if offset + len < |text| { assert ([] + text[offset..])[..len] == text[offset..offset + len]; }
    }
  }

  /** Inside a chunk of a well-formed stream the loop gathers the text. */
  lemma {:induction false} GatherMeans(source: seq<Byte>, sp: nat, repeated: bool, count: nat, got: seq<Byte>,
                                       len: nat, left: nat, text: seq<Byte>)
    requires Within(source, sp, repeated, count, text) && |got| <= len && |got| + |text| == left
    ensures Gather(source, sp, repeated, count, got, len, left) ==
      if len < left then Bytes((got + text)[..len]) else Nothing
    decreases |source| - sp
  {
    hide WellFormed; hide Decode; hide Within; hide Repeat; hide Piece;
    if |got| == len || |got| == left {
      assert (got + text)[..|got|] == got;
    } else {
      var take := Least(count, len - |got|);
      WithinCopies(source, sp, repeated, count, text);
      TakeWithin(source, sp, repeated, count, text, take);
      var next, more := sp + if repeated then 1 else take, got + text[..take];
      assert got + text == more + text[take..];
      assert (got + text)[..|more|] == more;
      if |more| < len && |more| < left {
        if next == |source| { DecodeEnd(source[next..]); }
        EnterChunk(source, next);
        GatherMeans(source, next + 1, source[next] >= 128, Count(source[next]), more, len, left, text[take..]);
      }
    }
  }

  /** The bytes of a chunk as far as they are there. */
  function Shard(source: seq<Byte>, p: nat): seq<Byte>
    requires p < |source|
  {
    if source[p] < 128 then source[p + 1..Least(p + 1 + source[p], |source|)]
    else if p + 1 < |source| then Repeat(source[p + 1], Count(source[p]))
    else []
  }

  /** What a stream spells from a byte on that is taken for a control byte. */
  function Spell(source: seq<Byte>, p: nat): seq<Byte>
    decreases |source| - p
  {
    if p >= |source| then [] else Shard(source, p) + Spell(source, p + ChunkSize(source[p]))
  }

  lemma ShardIsText(source: seq<Byte>, p: nat)
    requires p < |source| && p + ChunkSize(source[p]) <= |source|
    ensures Shard(source, p) == TextAt(source, p)
  {
  }

  /** From a true control byte it is the text. */
  lemma {:induction false} SpellsText(source: seq<Byte>, p: nat)
    requires p <= |source| && WellFormed(source[p..])
    ensures Spell(source, p) == Decode(source[p..])
    decreases |source| - p
  {
    hide WellFormed, Decode, Shard, TextAt;
    if p == |source| {
      DecodeEnd(source[p..]);
    } else {
      ChunkAt(source, p);
      ShardIsText(source, p);
      SpellsText(source, p + ChunkSize(source[p]));
    }
  }

  /** A slice that ends before the text does is gathered from what is spelled. */
  lemma {:induction false} GatherSpells(source: seq<Byte>, p: nat, got: seq<Byte>, len: nat, left: nat)
    requires p < |source| && |got| < len < left
    ensures var all := got + Spell(source, p);
      Gather(source, p + 1, source[p] >= 128, Count(source[p]), got, len, left) ==
      if len <= |all| then Bytes(all[..len]) else RunsOff
    decreases |source| - p
  {
    hide Repeat; hide Piece; hide Spell; hide ChunkSize;
    var c := source[p];
    var take := Least(Count(c), len - |got|);
    var next := p + 1 + if c >= 128 then 1 else take;
    if next > |source| {
      SpellEnds(source, p, take);
    } else {
      SpellPiece(source, p, take);
      var piece := Piece(source, p + 1, c >= 128, take);
      var more := got + piece;
      if |more| == len {
        assert (got + Spell(source, p))[..len] == more;
      } else {
        var rest := Spell(source, next);
        assert got + (piece + rest) == more + rest;
        if next == |source| {
          SpellEmpty(source, next);
        } else {
          GatherSpells(source, next, more, len, left);
        }
      }
    }
  }

  lemma SpellEmpty(source: seq<Byte>, p: nat)
    requires p >= |source|
    ensures Spell(source, p) == []
  {
  }

  /** A chunk that breaks off is the last one. */
  lemma SpellEnds(source: seq<Byte>, p: nat, take: nat)
    requires p < |source| && take <= Count(source[p]) && p + 1 + (if source[p] >= 128 then 1 else take) > |source|
    requires take > 0
    ensures |Spell(source, p)| < take
  {
    SpellEmpty(source, p + ChunkSize(source[p]));
  }

  lemma ShardPiece(source: seq<Byte>, p: nat, take: nat)
    requires p < |source| && take <= Count(source[p]) && p + 1 + (if source[p] >= 128 then 1 else take) <= |source|
    ensures Piece(source, p + 1, source[p] >= 128, take) <= Shard(source, p)
    ensures take == Count(source[p]) ==> Piece(source, p + 1, source[p] >= 128, take) == Shard(source, p)
  {
    if source[p] < 128 {
      SliceTake(source, p + 1, |Shard(source, p)|, take);
    }
  }

  lemma SpellPiece(source: seq<Byte>, p: nat, take: nat)
    requires p < |source| && take <= Count(source[p]) && p + 1 + (if source[p] >= 128 then 1 else take) <= |source|
    ensures Piece(source, p + 1, source[p] >= 128, take) <= Spell(source, p)
    ensures take == Count(source[p]) ==>
      var next := p + 1 + if source[p] >= 128 then 1 else take;
      Spell(source, p) == Piece(source, p + 1, source[p] >= 128, take) + Spell(source, next)
  {
    hide Piece, Shard;
    ShardPiece(source, p, take);
  }

  /** At offset zero the slice is spelled from the second byte of the stream on. */
  lemma ZeroOffset(source: seq<Byte>, len: nat)
    requires WellFormed(source) && 0 < len < |Decode(source)|
    ensures |source| > 1
    ensures Extracted(source, 0, len) ==
      if len <= |Spell(source, 1)| then Bytes(Spell(source, 1)[..len]) else RunsOff
  {
    hide WellFormed, Decode, Repeat, Spell, Gather;
    assert source[0..] == source;
    if source == [] { DecodeEnd(source); }
    EnterChunk(source, 0);
    GatherSkips(source, len, |Decode(source)|);
    GatherSpells(source, 1, [], len, |Decode(source)|);
    assert [] + Spell(source, 1) == Spell(source, 1);
  }

  /** The first round at offset zero copies nothing. */
  lemma GatherSkips(source: seq<Byte>, len: nat, left: nat)
    requires |source| > 1 && 0 < len && 0 < left
    ensures Gather(source, 0, true, 0, [], len, left) ==
      Gather(source, 2, source[1] >= 128, Count(source[1]), [], len, left)
  {
    hide Count;
    assert [] + Piece(source, 0, true, 0) == [];
  }

  ghost predicate Right(source: seq<Byte>, len: nat)
    requires WellFormed(source) && len < |Decode(source)|
  {
    Extracted(source, 0, len) == Bytes(Decode(source)[..len])
  }

  /** The second byte `d` of the stream, which is the first byte of the text, is taken for
      a control byte. If `d` looks like a literal chunk, the bytes behind it have to be `d`
      again, as far as the first chunk of the text goes when that is a literal one; if it
      looks like a run, the text has to be `d` all along and so has the third byte of the
      stream. */
  ghost predicate Repeats(source: seq<Byte>, len: nat)
    requires WellFormed(source) && len < |Decode(source)| && |source| > 1
  {
    var d := source[1];
    if d >= 128 then |source| > 2 && source[2] == d && forall i :: 0 <= i < len ==> Decode(source)[i] == d
    else
      && 2 + len <= |source|
      && forall i :: 2 <= i < 2 + (if source[0] >= 128 then len else Least(len, source[0])) ==> source[i] == d
  }

  /** As far as the chunk goes that the second byte seems to start, the slice is read off
      the stream. */
  lemma ZeroOffsetPiece(source: seq<Byte>, len: nat)
    requires WellFormed(source) && 0 < len < |Decode(source)|
    ensures |source| > 1
    ensures len <= Count(source[1]) ==>
      var enough := 2 + (if source[1] >= 128 then 1 else len) <= |source|;
      Extracted(source, 0, len) == if enough then Bytes(Piece(source, 2, source[1] >= 128, len)) else RunsOff
  {
    hide WellFormed, Decode, Spell, Extracted, Piece;
    ZeroOffset(source, len);
    if len <= Count(source[1]) {
      if 2 + (if source[1] >= 128 then 1 else len) <= |source| {
        SpellPiece(source, 1, len);
      } else {
        SpellEnds(source, 1, len);
      }
    }
  }

  /** The first chunk of a stream is followed by the text of the others. */
  lemma TextStarts(source: seq<Byte>)
    requires WellFormed(source) && source != []
    ensures source[0] != 0 && ChunkSize(source[0]) <= |source| && |source| > 1
    ensures var n, text := Count(source[0]), Decode(source);
      && 0 < n <= |text|
      && forall i :: 0 <= i < n ==> text[i] == if source[0] >= 128 then source[1] else source[1 + i]
  {
    hide WellFormed, Decode;
    assert source[0..] == source;
    ChunkAt(source, 0);
  }

  /** Where the next control byte is a literal one, the text goes on with the bytes behind it. */
  lemma TextGoesOn(source: seq<Byte>, i: nat)
    requires WellFormed(source) && source != []
    requires var n, q := Count(source[0]), ChunkSize(source[0]);
      n <= i && q < |source| && source[q] < 128 && i - n < source[q]
    ensures var n, q := Count(source[0]), ChunkSize(source[0]);
      i < |Decode(source)| && q + 1 + i - n < |source| && Decode(source)[i] == source[q + 1 + i - n]
  {
    hide WellFormed, Decode, TextAt;
    var n, q := Count(source[0]), ChunkSize(source[0]);
    assert source[0..] == source;
    ChunkAt(source, 0);
    ChunkAt(source, q);
    LiteralAt(source, q, i - n);
  }

  lemma LiteralAt(source: seq<Byte>, q: nat, j: nat)
    requires q < |source| && q + ChunkSize(source[q]) <= |source| && j < source[q] < 128
    ensures TextAt(source, q)[j] == source[q + 1 + j]
  {
  }

  /** After a run, the byte repeated there stands behind every control byte again. */
  lemma {:induction false} RunRepeats(source: seq<Byte>, len: nat, i: nat)
    requires WellFormed(source) && 0 < len < |Decode(source)| && i < len && source[0] >= 128
    requires 2 + len <= |source| && len <= source[1] < 128
    requires source[2..2 + len] == Decode(source)[..len]
    ensures source[2 + i] == source[1]
    decreases i
  {
    hide WellFormed, Decode;
    TextStarts(source);
    assert source[2 + i] == source[2..2 + len][i] == Decode(source)[..len][i];
    if i >= Count(source[0]) {
      RunRepeats(source, len, 0);
      TextGoesOn(source, i);
      RunRepeats(source, len, i - Count(source[0]) + 1);
    }
  }

  lemma {:induction false} LiteralRepeats(source: seq<Byte>, len: nat, i: nat)
    requires WellFormed(source) && 0 < len < |Decode(source)| && i < len && i < source[0] < 128
    requires 2 + len <= |source| && source[2..2 + len] == Decode(source)[..len]
    ensures source[2 + i] == source[1]
    decreases i
  {
    hide WellFormed, Decode;
    TextStarts(source);
    assert source[2 + i] == source[2..2 + len][i] == Decode(source)[..len][i] == source[1 + i];
    if i > 0 { LiteralRepeats(source, len, i - 1); }
  }

  /** What has to repeat is enough. */
  lemma RepeatsAt(source: seq<Byte>, len: nat, i: nat)
    requires WellFormed(source) && 0 < len < |Decode(source)| && i < len && |source| > 1
    requires len <= source[1] < 128 && Repeats(source, len)
    ensures source[2 + i] == Decode(source)[i]
  {
    hide WellFormed, Decode;
    TextStarts(source);
    if i >= Count(source[0]) {
      TextGoesOn(source, i);
    }
  }

  /** The exact condition, for slices no longer than the chunk that the first byte of the
      text would start. */
  lemma ZeroOffsetIff(source: seq<Byte>, len: nat)
    requires WellFormed(source) && 0 < len < |Decode(source)|
    ensures |source| > 1 && source[1] == Decode(source)[0]
    ensures len <= Count(source[1]) ==> (Right(source, len) <==> Repeats(source, len))
  {
    hide WellFormed, Decode, Extracted, Repeat;
    if source == [] { DecodeEnd(source); }
    TextStarts(source);
    ZeroOffsetPiece(source, len);
    if len <= Count(source[1]) {
      if source[1] >= 128 {
        RunSlice(source, len);
      } else {
        LiteralSlice(source, len);
      }
    }
  }

  lemma RunSlice(source: seq<Byte>, len: nat)
    requires WellFormed(source) && 0 < len < |Decode(source)| && |source| > 1 && source[1] >= 128
    requires source[1] == Decode(source)[0]
    ensures Repeats(source, len) <==>
      |source| > 2 && Piece(source, 2, true, len) == Decode(source)[..len]
  {
    hide WellFormed, Decode;
    if |source| > 2 && Piece(source, 2, true, len) == Decode(source)[..len] {
      forall i | 0 <= i < len ensures Decode(source)[i] == source[2] {
        assert Decode(source)[i] == Decode(source)[..len][i] == Piece(source, 2, true, len)[i];
      }
    }
  }

  lemma LiteralSlice(source: seq<Byte>, len: nat)
    requires WellFormed(source) && 0 < len < |Decode(source)| && |source| > 1 && len <= source[1] < 128
    ensures Repeats(source, len) <==>
      2 + len <= |source| && Piece(source, 2, false, len) == Decode(source)[..len]
  {
    hide WellFormed, Decode;
    if Repeats(source, len) {
      forall i | 0 <= i < len ensures source[2 + i] == Decode(source)[i] { RepeatsAt(source, len, i); }
      assert source[2..2 + len] == Decode(source)[..len];
    }
    if 2 + len <= |source| && source[2..2 + len] == Decode(source)[..len] {
      TextStarts(source);
      forall i | 2 <= i < 2 + (if source[0] >= 128 then len else Least(len, source[0]))
        ensures source[i] == source[1]
      {
        if source[0] >= 128 { RunRepeats(source, len, i - 2); } else { LiteralRepeats(source, len, i - 2); }
      }
    }
  }

  /** For all slices the condition on a shorter one is needed; so the second and the third
      byte of the stream are equal, unless the text starts with a NUL. */
  lemma ZeroOffsetOnlyIf(source: seq<Byte>, len: nat)
    requires WellFormed(source) && 0 < len < |Decode(source)| && Right(source, len)
    ensures |source| > 1 && (source[1] != 0 ==> Repeats(source, Least(len, Count(source[1]))))
    ensures source[1] != 0 ==> |source| > 2 && source[2] == source[1]
  {
    hide WellFormed, Decode, Extracted, Spell, Repeats;
    ZeroOffset(source, len);
    if source[1] != 0 {
      var short := Least(len, Count(source[1]));
      ZeroOffset(source, short);
      var all := Spell(source, 1);
      assert all[..short] == all[..len][..short] == Decode(source)[..len][..short] == Decode(source)[..short];
      ZeroOffsetIff(source, short);
      RepeatsThird(source, short);
    }
  }

  lemma RepeatsThird(source: seq<Byte>, len: nat)
    requires WellFormed(source) && 0 < len < |Decode(source)| && |source| > 1 && Repeats(source, len)
    ensures |source| > 2 && source[2] == source[1]
  {
    hide WellFormed, Decode;
    TextStarts(source);
  }

  lemma OneChunk(source: seq<Byte>)
    requires |source| > 1 && source[0] < 128 && |source| == 1 + source[0]
    ensures WellFormed(source) && Decode(source) == source[1..]
  {
    var rest := source[ChunkSize(source[0])..];
    assert rest == [];
    DecodeEnd(rest);
    assert ChunkText(source) == source[1..];
  }

  /** Of "ab", kept as one literal chunk, the first byte is said to be "b". */
  lemma ZeroOffsetFails()
    ensures WellFormed([2, 97, 98]) && Decode([2, 97, 98]) == [97, 98]
    ensures Extracted([2, 97, 98], 0, 1) == Bytes([98])
  {
    hide WellFormed, Decode, Extracted;
    var source: seq<Byte> := [2, 97, 98];
    OneChunk(source);
    assert source[1..] == [97, 98];
    ZeroOffsetPiece(source, 1);
    assert Piece(source, 2, false, 1) == [98];
  }

  lemma WithinCopies(source: seq<Byte>, sp: nat, repeated: bool, count: nat, text: seq<Byte>)
    requires Within(source, sp, repeated, count, text)
    ensures sp + (if repeated then 1 else count) <= |source| && count <= |text|
    ensures Piece(source, sp, repeated, count) == text[..count]
    ensures var next := if repeated then sp + 1 else sp + count;
      next <= |source| && WellFormed(source[next..]) && text[count..] == Decode(source[next..])
  {
    hide WellFormed; hide Decode;
  }

  lemma TakeWithin(source: seq<Byte>, sp: nat, repeated: bool, count: nat, text: seq<Byte>, k: nat)
    requires Within(source, sp, repeated, count, text) && k <= count
    ensures sp + (if repeated then 1 else k) <= |source| && k <= |text|
    ensures Piece(source, sp, repeated, k) == text[..k]
  {
    hide WellFormed; hide Decode;
    WithinCopies(source, sp, repeated, count, text);
    assert text[..k] == text[..count][..k];
    if repeated {
      assert Repeat(source[sp], k) == Repeat(source[sp], count)[..k];
    } else {
      SliceTake(source, sp, count, k);
    }
  }

  lemma SliceTake(s: seq<Byte>, i: nat, n: nat, k: nat)
    requires i + n <= |s| && k <= n
    ensures s[i..i + n][..k] == s[i..i + k]
  {
  }
}
