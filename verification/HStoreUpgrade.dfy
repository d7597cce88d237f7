/**
  The in-place conversion of hstore values from the old entry layout to the new one, and
  the tests that tell the two apart. Words are laid out as on a little-endian machine.
 */
module HStoreUpgrade {
  type Word = n: nat | n < 0x1_0000_0000

  const NEW_VERSION: nat := 0x8000_0000
  const IS_FIRST: nat := 0x8000_0000
  const IS_NULL: nat := 0x4000_0000
  const POSITIONS: nat := 0x4000_0000
  const COUNTS: nat := 0x1000_0000
  const MAX_VARLENA: nat := 0x4000_0000
  const FAST_TRACK := 32768

  // ---------------------------------------------------------------------
  // Reading entries
  // ---------------------------------------------------------------------

  predicate IsFirst(w: Word) { w >= IS_FIRST }
  predicate IsNull(w: Word) { (w / IS_NULL) % 2 == 1 }
  function EndPos(w: Word): nat { w % POSITIONS }

  predicate Flagged(size: Word) { size >= NEW_VERSION }
  function Count(size: Word): nat { size % COUNTS }

  function DataSize(count: nat, lenstr: nat): nat { count * 8 + 8 + lenstr }

  /** Where a key or value begins, how long it is, and whether it is null. */
  datatype Pair = Pair(key: nat, keyLen: int, value: nat, valueLen: int, isNull: bool)

  function Off(words: seq<Word>, i: nat): nat
    requires i < |words| && (i == 0 ==> IsFirst(words[0]))
  {
    if IsFirst(words[i]) then 0 else EndPos(words[i - 1])
  }

  function Len(words: seq<Word>, i: nat): int
    requires i < |words| && (i == 0 ==> IsFirst(words[0]))
  {
    if IsFirst(words[i]) then EndPos(words[i]) else EndPos(words[i]) - EndPos(words[i - 1])
  }

  /** The i-th pair read through the macros of the new format. */
  function NewPair(words: seq<Word>, i: nat): Pair
    requires 2 * i + 1 < |words| && IsFirst(words[0])
  {
    Pair(Off(words, 2 * i), Len(words, 2 * i), Off(words, 2 * i + 1), Len(words, 2 * i + 1), IsNull(words[2 * i + 1]))
  }

  /** The fields of the i-th old entry: two 16-bit lengths, then one bit and a position. */
  function KeyLen(words: seq<Word>, i: nat): nat
    requires 2 * i + 1 < |words|
  {
    words[2 * i] % 0x10000
  }

  function ValLen(words: seq<Word>, i: nat): nat
    requires 2 * i + 1 < |words|
  {
    words[2 * i] / 0x10000
  }

  predicate ValIsNull(words: seq<Word>, i: nat)
    requires 2 * i + 1 < |words|
  {
    words[2 * i + 1] % 2 == 1
  }

  function Pos(words: seq<Word>, i: nat): nat
    requires 2 * i + 1 < |words|
  {
    words[2 * i + 1] / 2
  }

  /** Bytes that the value takes: a null takes none, whatever its length field says. */
  function ValBytes(words: seq<Word>, i: nat): nat
    requires 2 * i + 1 < |words|
  {
    if ValIsNull(words, i) then 0 else ValLen(words, i)
  }

  /** The i-th pair of an old-format value. */
  function OldPair(words: seq<Word>, i: nat): Pair
    requires 2 * i + 1 < |words|
  {
    Pair(Pos(words, i), KeyLen(words, i), Pos(words, i) + KeyLen(words, i), ValBytes(words, i), ValIsNull(words, i))
  }

  // ---------------------------------------------------------------------
  // What the two formats demand
  // ---------------------------------------------------------------------

  /** Where old entry `n` has to begin. */
  function OldEnd(words: seq<Word>, n: nat): nat
    requires 2 * n <= |words|
  {
    if n == 0 then 0 else OldEnd(words, n - 1) + KeyLen(words, n - 1) + ValBytes(words, n - 1)
  }

  ghost predicate OldKeyRisesAt(words: seq<Word>, i: nat)
    requires 1 <= i && 2 * i + 1 < |words|
  {
    KeyLen(words, i - 1) <= KeyLen(words, i)
  }

  /** The entry begins where the one before it ends. */
  ghost predicate InPlace(words: seq<Word>, i: nat)
    requires 2 * i + 1 < |words|
  {
    Pos(words, i) == OldEnd(words, i)
  }

  ghost predicate OldEntries(words: seq<Word>, n: nat)
    requires 2 * n <= |words|
  {
    && (forall i :: 1 <= i < n ==> OldKeyRisesAt(words, i))
    && (forall i :: 0 <= i < n ==> InPlace(words, i))
  }

  /** Contiguous entries with nondecreasing key lengths that fit into the value. */
  ghost predicate OldOk(size: Word, varsize: nat, words: seq<Word>)
    requires 2 * Count(size) <= |words|
  {
    && size < COUNTS
    && (size == 0 || (OldEntries(words, size) && DataSize(size, OldEnd(words, size)) <= varsize))
  }

  /** Only the first entry is marked first, and no entry ends before the one before it. */
  ghost predicate RisesAt(words: seq<Word>, i: nat)
    requires 1 <= i < |words|
  {
    !IsFirst(words[i]) && EndPos(words[i - 1]) <= EndPos(words[i])
  }

  /** Keys do not get shorter and are not null. */
  ghost predicate KeyRisesAt(words: seq<Word>, i: nat)
    requires 1 <= i && 2 * i < |words| && IsFirst(words[0])
  {
    Len(words, 2 * (i - 1)) <= Len(words, 2 * i) && !IsNull(words[2 * i])
  }

  ghost predicate NewEntries(words: seq<Word>, n: nat)
    requires 2 * n <= |words|
  {
    && (n > 0 ==> IsFirst(words[0]))
    && (forall i :: 1 <= i < 2 * n ==> RisesAt(words, i))
    && (forall i :: 1 <= i < n ==> KeyRisesAt(words, i))
  }

  function NewEnd(words: seq<Word>, n: nat): nat
    requires 2 * n <= |words|
  {
    if n == 0 then 0 else EndPos(words[2 * n - 1])
  }

  ghost predicate NewOk(size: Word, varsize: nat, words: seq<Word>)
    requires 2 * Count(size) <= |words|
  {
    Flagged(size) || (NewEntries(words, Count(size)) &&
      (Count(size) == 0 || DataSize(Count(size), NewEnd(words, Count(size))) <= varsize))
  }

  // ---------------------------------------------------------------------
  // The value and the tests
  // ---------------------------------------------------------------------

  datatype Outcome = Fine | Invalid

  class HStore {
    var size: Word
    var varsize: nat
    /** The entry array; the string data behind it is not touched. */
    const words: array<Word>

    /** The entry array is there and the value is a varlena. */
    ghost predicate Valid()
      reads this, words
    {
      2 * Count(size) <= words.Length && (size != 0 ==> words.Length > 0) && varsize < MAX_VARLENA
    }

    /** 0 if not valid, 1 if valid with a wrong length, 2 if exactly valid. */
    method ValidNewFormat() returns (r: int)
      requires Valid()
      ensures r in {0, 1, 2} && (r != 0 <==> NewOk(size, varsize, words[..]))
      ensures r == 1 ==> DataSize(Count(size), NewEnd(words[..], Count(size))) != varsize
      ensures r == 2 ==>
        Flagged(size) || Count(size) == 0 || DataSize(Count(size), NewEnd(words[..], Count(size))) == varsize
    {
      hide Len;
      hide IsNull;
      hide EndPos;
      hide Count;
      ghost var ws := words[..];
      var count := Count(size);
      var buflen := if count > 0 then EndPos(words[2 * count - 1]) else 0;
      var vsize := DataSize(count, buflen);
      if Flagged(size) {
        return 2;
      }
      if count == 0 {
        return 2;
      }
      if !IsFirst(words[0]) {
        return 0;
      }
      if vsize > varsize {
        return 0;
      }
      var i := 1;
      while i < 2 * count
        invariant 1 <= i <= 2 * count && words[..] == ws && forall j :: 1 <= j < i ==> RisesAt(ws, j)
      {
        if IsFirst(words[i]) || EndPos(words[i]) < EndPos(words[i - 1]) {
          assert !RisesAt(ws, i);
          return 0;
        }
        i := i + 1;
      }
      i := 1;
      while i < count
        invariant 1 <= i <= count && words[..] == ws && forall j :: 1 <= j < i ==> KeyRisesAt(ws, j)
      {
        if Len(words[..], 2 * i) < Len(words[..], 2 * (i - 1)) {
          assert !KeyRisesAt(ws, i);
          return 0;
        }
        if IsNull(words[2 * i]) {
          assert !KeyRisesAt(ws, i);
          return 0;
        }
        i := i + 1;
      }
      if vsize != varsize {
        return 1;
      }
      return 2;
    }

    method ValidOldFormat() returns (r: int)
      requires Valid()
      ensures r in {0, 1, 2} && (r != 0 <==> OldOk(size, varsize, words[..]))
      ensures r == 1 ==> DataSize(size, OldEnd(words[..], size)) != varsize
      ensures r == 2 ==> size == 0 || DataSize(size, OldEnd(words[..], size)) == varsize
    {
      hide KeyLen;
      hide ValBytes;
      hide Pos;
      var count := size;
      if Flagged(size) {
        return 0;
      }
      if count == 0 {
        return 2;
      }
      if count > 0xFFFFFFF {
        return 0;
      }
      ghost var ws := words[..];
      if DataSize(count, 0) > varsize {
        return 0;
      }
      if Pos(words[..], 0) != 0 {
        assert !InPlace(ws, 0);
        return 0;
      }
      var i := 1;
      while i < count
        invariant 1 <= i <= count && words[..] == ws
        invariant forall j :: 1 <= j < i ==> OldKeyRisesAt(ws, j)
      {
        if KeyLen(words[..], i) < KeyLen(words[..], i - 1) {
          assert !OldKeyRisesAt(ws, i);
          return 0;
        }
        i := i + 1;
      }
      var lastpos := 0;
      i := 0;
      while i < count
        invariant 0 <= i <= count && words[..] == ws && lastpos == OldEnd(ws, i)
        invariant forall j :: 0 <= j < i ==> InPlace(ws, j)
      {
        if Pos(words[..], i) != lastpos {
          assert !InPlace(ws, i);
          return 0;
        }
        lastpos := lastpos + KeyLen(words[..], i) + ValBytes(words[..], i);
        i := i + 1;
      }
      var vsize := DataSize(count, lastpos);
      if vsize > varsize {
        return 0;
      }
      if vsize != varsize {
        return 1;
      }
      return 2;
    }

    /** `HS_SETCOUNT` and `HS_FIXSIZE`. */
    method Seal(count: nat)
      requires count < COUNTS && 2 * count <= words.Length
      modifies this
      ensures size == count + NEW_VERSION && varsize == DataSize(count, NewEnd(words[..], count))
    {
      size := count + NEW_VERSION;
      var bl := if count > 0 then EndPos(words[2 * count - 1]) else 0;
      varsize := DataSize(count, bl);
    }

    /** Overwrites old entries by new ones. */
    method Convert(count: nat)
      requires count > 0 && 2 * count <= words.Length && OldEntries(words[..], count)
      requires OldEnd(words[..], count) < POSITIONS
      modifies words
      ensures Converted(old(words[..]), words[..], count)
    {
      hide OldEntries;
      hide OldEnd;
      hide KeyLen;
      hide ValLen;
      hide ValIsNull;
      hide Pos;
      hide ConvertedAt;
      ghost var ws := words[..];
      var i := 0;
      while i < count
        invariant 0 <= i <= count && (forall j :: 0 <= j < i ==> ConvertedAt(ws, words[..], j))
        invariant forall k :: 2 * i <= k < words.Length ==> words[k] == ws[k]
      {
        ghost var before := words[..];
        OldEntryFits(ws, count, i);
        SameEntry(ws, before, i);
        var pos, keylen := Pos(words[..], i), KeyLen(words[..], i);
        var vallen, isnull := ValLen(words[..], i), ValIsNull(words[..], i);
        if isnull {
          vallen := 0;
        }
        words[2 * i] := (pos + keylen) % POSITIONS;
        words[2 * i + 1] := (pos + keylen + vallen) % POSITIONS + if isnull then IS_NULL else 0;
        EntryConverted(ws, words[..], i);
        forall j | 0 <= j < i ensures ConvertedAt(ws, words[..], j) {
          ConvertedStays(ws, before, words[..], j);
        }
        i := i + 1;
      }
      ghost var middle := words[..];
      OldEntryFits(ws, count, 0);
      FirstFits(ws, middle);
      words[0] := words[0] + IS_FIRST;
      MarkedFirst(ws, middle, words[..], count);
    }

    /** `hstoreUpgrade`. */
    method Upgrade() returns (r: Outcome)
      requires Valid()
      modifies this, words
      ensures r == Result(old(size), old(varsize), old(words[..]))
      ensures var path, count := Path(old(size), old(varsize), old(words[..])), Count(old(size));
        match path
        case AsIs => size == old(size) && varsize == old(varsize) && words[..] == old(words[..])
        case Rejected => size == old(size) && varsize == old(varsize) && words[..] == old(words[..])
        case AsNew =>
          && size == count + NEW_VERSION && varsize == DataSize(count, NewEnd(words[..], count))
          && words[..] == old(words[..])
        case AsOld =>
          && size == count + NEW_VERSION && varsize == DataSize(count, OldEnd(old(words[..]), count)) <= old(varsize)
          && NewEntries(words[..], count) && words[2 * count..] == old(words[2 * count..])
          && forall i :: 0 <= i < count ==> NewPair(words[..], i) == OldPair(old(words[..]), i)
    {
      hide NewEntries;
      hide OldEntries;
      hide OldEnd;
      hide NewPair;
      hide OldPair;
      if Flagged(size) {
        return Fine;
      }
      if size == 0 || (varsize < FAST_TRACK && IsFirst(words[0])) {
        Seal(Count(size));
        return Fine;
      }
      var validNew := ValidNewFormat();
      var validOld := ValidOldFormat();
      if validOld == 0 || size == 0 {
        if validNew != 0 {
          Seal(Count(size));
          return Fine;
        }
        return Invalid;
      }
      var count := size;
      ghost var ws := words[..];
      Convert(count);
      ConvertedIsNew(ws, words[..], count);
      Seal(count);
      return Fine;
    }
  }

  // ---------------------------------------------------------------------
  // Which way a value goes
  // ---------------------------------------------------------------------

  datatype Way = AsIs | AsNew | AsOld | Rejected

  ghost predicate FastTracked(size: Word, varsize: nat, words: seq<Word>)
    requires size != 0 ==> |words| > 0
  {
    size == 0 || (varsize < FAST_TRACK && IsFirst(words[0]))
  }

  /** Old values win over new ones, except on the fast track. */
  ghost function Path(size: Word, varsize: nat, words: seq<Word>): Way
    requires 2 * Count(size) <= |words| && (size != 0 ==> |words| > 0)
  {
    if Flagged(size) then AsIs
    else if FastTracked(size, varsize, words) then AsNew
    else if OldOk(size, varsize, words) then AsOld
    else if NewOk(size, varsize, words) then AsNew
    else Rejected
  }

  ghost function Result(size: Word, varsize: nat, words: seq<Word>): Outcome
    requires 2 * Count(size) <= |words| && (size != 0 ==> |words| > 0)
  {
    if Path(size, varsize, words) == Rejected then Invalid else Fine
  }

  /** An old value is misread as new on the fast track exactly when it is short and its
      first value is null but still has a length of 32768 or more in its entry. */
  lemma FastTrackMisreads(size: Word, varsize: nat, words: seq<Word>)
    requires size > 0 && 2 * Count(size) <= |words| && |words| > 0 && OldOk(size, varsize, words)
    ensures Path(size, varsize, words) == AsNew <==>
      varsize < FAST_TRACK && ValIsNull(words, 0) && ValLen(words, 0) >= 0x8000
  {
    OldEndMonotone(words, 1, size);
    assert OldEnd(words, 1) == KeyLen(words, 0) + ValBytes(words, 0);
  }

  /** And then its first pair is read wrongly. */
  lemma MisreadIsWrong(size: Word, varsize: nat, words: seq<Word>)
    requires size > 0 && 2 * Count(size) <= |words| && |words| > 0 && OldOk(size, varsize, words)
    requires Path(size, varsize, words) == AsNew
    ensures |words| > 1 && IsFirst(words[0]) && NewPair(words, 0) != OldPair(words, 0)
  {
    FastTrackMisreads(size, varsize, words);
  }

  /** Such a value exists. */
  lemma FastTrackMisreadsOne()
    ensures var words: seq<Word> := [0x8000_0001, 1];
      OldOk(1, 17, words) && Path(1, 17, words) == AsNew && NewPair(words, 0) != OldPair(words, 0)
  {
    var words: seq<Word> := [0x8000_0001, 1];
    assert OldEnd(words, 0) == 0 && OldEnd(words, 1) == 1;
    FastTrackMisreads(1, 17, words);
  }

  // ---------------------------------------------------------------------
  // Conversion
  // ---------------------------------------------------------------------

  lemma {:induction false} OldEndMonotone(words: seq<Word>, m: nat, n: nat)
    requires m <= n && 2 * n <= |words|
    ensures OldEnd(words, m) <= OldEnd(words, n)
  {
    if m < n { OldEndMonotone(words, m, n - 1); }
  }

  lemma OldEntryFits(words: seq<Word>, count: nat, i: nat)
    requires i < count && 2 * count <= |words| && OldEntries(words, count) && OldEnd(words, count) < POSITIONS
    ensures Pos(words, i) == OldEnd(words, i)
    ensures Pos(words, i) + KeyLen(words, i) + ValBytes(words, i) == OldEnd(words, i + 1) < POSITIONS
  {
    assert InPlace(words, i);
    OldEndMonotone(words, i + 1, count);
  }

  /** Pair `i` of `new` ends where it did in `old`, leaving out the mark on the first entry. */
  ghost predicate ConvertedAt(before: seq<Word>, after: seq<Word>, i: nat)
    requires |before| == |after| && 2 * i + 1 < |before|
  {
    && after[2 * i] == Pos(before, i) + KeyLen(before, i)
    && after[2 * i + 1] ==
      Pos(before, i) + KeyLen(before, i) + ValBytes(before, i) + if ValIsNull(before, i) then IS_NULL else 0
  }

  lemma SameEntry(a: seq<Word>, b: seq<Word>, i: nat)
    requires |a| == |b| && 2 * i + 1 < |a| && a[2 * i] == b[2 * i] && a[2 * i + 1] == b[2 * i + 1]
    ensures Pos(a, i) == Pos(b, i) && KeyLen(a, i) == KeyLen(b, i) && ValLen(a, i) == ValLen(b, i)
    ensures ValIsNull(a, i) <==> ValIsNull(b, i)
  {
  }

  lemma EntryConverted(before: seq<Word>, after: seq<Word>, i: nat)
    requires |before| == |after| && 2 * i + 1 < |before|
    requires after[2 * i] == Pos(before, i) + KeyLen(before, i)
    requires after[2 * i + 1] ==
      Pos(before, i) + KeyLen(before, i) + ValBytes(before, i) + if ValIsNull(before, i) then IS_NULL else 0
    ensures ConvertedAt(before, after, i)
  {
  }

  lemma ConvertedStays(before: seq<Word>, a: seq<Word>, b: seq<Word>, i: nat)
    requires |before| == |a| == |b| && 2 * i + 1 < |a| && a[2 * i] == b[2 * i] && a[2 * i + 1] == b[2 * i + 1]
    requires ConvertedAt(before, a, i)
    ensures ConvertedAt(before, b, i)
  {
  }

  lemma FirstFits(before: seq<Word>, after: seq<Word>)
    requires |before| == |after| >= 2 && ConvertedAt(before, after, 0) && Pos(before, 0) + KeyLen(before, 0) < POSITIONS
    ensures after[0] < POSITIONS
  {
  }

  ghost predicate Converted(before: seq<Word>, after: seq<Word>, count: nat)
    requires count > 0 && 2 * count <= |before|
  {
    && |after| == |before| && after[0] >= IS_FIRST
    && (var unmarked := after[0 := after[0] - IS_FIRST];
        forall i :: 0 <= i < count ==> ConvertedAt(before, unmarked, i))
    && after[2 * count..] == before[2 * count..]
  }

  lemma MarkedFirst(before: seq<Word>, middle: seq<Word>, after: seq<Word>, count: nat)
    requires count > 0 && 2 * count <= |before| == |middle| && middle[0] + IS_FIRST < 0x1_0000_0000
    requires after == middle[0 := middle[0] + IS_FIRST]
    requires forall i :: 0 <= i < count ==> ConvertedAt(before, middle, i)
    requires forall k :: 2 * count <= k < |middle| ==> middle[k] == before[k]
    ensures Converted(before, after, count)
  {
    assert after[0 := after[0] - IS_FIRST] == middle;
  }

  /** What one converted pair reads as. */
  lemma ConvertedPair(before: seq<Word>, after: seq<Word>, count: nat, i: nat)
    requires 0 < count && 2 * count <= |before| && i < count && Converted(before, after, count)
    requires OldEntries(before, count) && OldEnd(before, count) < POSITIONS
    ensures EndPos(after[2 * i]) == Pos(before, i) + KeyLen(before, i)
    ensures EndPos(after[2 * i + 1]) == OldEnd(before, i + 1)
    ensures (IsFirst(after[2 * i]) <==> i == 0) && !IsFirst(after[2 * i + 1])
    ensures !IsNull(after[2 * i]) && (IsNull(after[2 * i + 1]) <==> ValIsNull(before, i))
  {
    OldEntryFits(before, count, i);
    assert ConvertedAt(before, after[0 := after[0] - IS_FIRST], i);
  }

  lemma ConvertedReads(before: seq<Word>, after: seq<Word>, count: nat, i: nat)
    requires 0 < count && 2 * count <= |before| && i < count && Converted(before, after, count)
    requires OldEntries(before, count) && OldEnd(before, count) < POSITIONS
    ensures IsFirst(after[0]) && NewPair(after, i) == OldPair(before, i)
  {
    hide EndPos;
    hide IsNull;
    hide Converted;
    ConvertedLength(before, after, count);
    ConvertedPair(before, after, count, 0);
    ConvertedPair(before, after, count, i);
    OldEntryFits(before, count, i);
    if i > 0 { ConvertedPair(before, after, count, i - 1); }
  }

  lemma ConvertedLength(before: seq<Word>, after: seq<Word>, count: nat)
    requires 0 < count && 2 * count <= |before| && Converted(before, after, count)
    ensures |after| == |before| && after[2 * count..] == before[2 * count..]
  {
  }

  lemma ConvertedRises(before: seq<Word>, after: seq<Word>, count: nat, k: nat)
    requires 0 < count && 2 * count <= |before| && 1 <= k < 2 * count && Converted(before, after, count)
    requires OldEntries(before, count) && OldEnd(before, count) < POSITIONS
    ensures RisesAt(after, k)
  {
    hide EndPos;
    hide Converted;
    ConvertedLength(before, after, count);
    var i := k / 2;
    ConvertedPair(before, after, count, i);
    OldEntryFits(before, count, i);
    if k == 2 * i { ConvertedPair(before, after, count, i - 1); }
  }

  /** The conversion gives a well-formed new value with the same pairs and the same end. */
  lemma ConvertedIsNew(before: seq<Word>, after: seq<Word>, count: nat)
    requires 0 < count && 2 * count <= |before| && Converted(before, after, count)
    requires OldEntries(before, count) && OldEnd(before, count) < POSITIONS
    ensures |after| == |before| && NewEntries(after, count) && after[2 * count..] == before[2 * count..]
    ensures forall i :: 0 <= i < count ==> NewPair(after, i) == OldPair(before, i)
    ensures NewEnd(after, count) == OldEnd(before, count)
  {
    hide EndPos;
    hide IsNull;
    hide Converted;
    hide OldEnd;
    ConvertedLength(before, after, count);
    ConvertedPair(before, after, count, 0);
    ConvertedPair(before, after, count, count - 1);
    forall i | 0 <= i < count ensures NewPair(after, i) == OldPair(before, i) {
      ConvertedReads(before, after, count, i);
    }
    forall k | 1 <= k < 2 * count ensures RisesAt(after, k) {
      ConvertedRises(before, after, count, k);
    }
    forall i | 1 <= i < count ensures KeyRisesAt(after, i) {
      ConvertedPair(before, after, count, i);
      assert NewPair(after, i) == OldPair(before, i) && NewPair(after, i - 1) == OldPair(before, i - 1);
      assert OldKeyRisesAt(before, i);
    }
  }
}
