/**
  Signatures of the bloom access method: the Park-Miller generator behind them, how
  values set bits, and how a scan compares words of bits.
 */
module BloomSignature {
  import opened Wrappers

  const MAX_KEYS := 32
  const WORD_BITS := 16
  const MODULUS := 0x7fffffff
  const MULTIPLIER := 16807

  // ---------------------------------------------------------------------
  // The generator
  // ---------------------------------------------------------------------

  /** Division and remainder of C, which round toward zero. */
  function CDiv(a: int, b: int): int
    requires b > 0
  {
    if a >= 0 then a / b else -(-a / b)
  }

  function CMod(a: int, b: int): int
    requires b > 0
  {
    a - b * CDiv(a, b)
  }

  predicate IsInt32(x: int) { -0x80000000 <= x <= 0x7fffffff }

  type UInt32 = n: nat | n < 0x1_0000_0000

  function ToInt32(u: UInt32): int {
    if u >= 0x80000000 then u - 0x1_0000_0000 else u
  }

  /** The new state before `myRand` makes it non-negative. */
  function Raw(s: int): int {
    MULTIPLIER * CMod(s, 127773) - 2836 * CDiv(s, 127773)
  }

  /** One step of `myRand` on the state. */
  function Draw(s: int): int {
    if Raw(s) < 0 then Raw(s) + MODULUS else Raw(s)
  }

  /** The state `mySrand` leaves. */
  function Seeded(seed: UInt32): int {
    CMod(ToInt32(seed), 0x7ffffffe) + 1
  }

  function Draws(s: int, k: nat): int {
    if k == 0 then s else Draw(Draws(s, k - 1))
  }

  function Power(b: int, k: nat): int {
    if k == 0 then 1 else b * Power(b, k - 1)
  }

  ghost predicate Congruent(a: int, b: int) {
    (a - b) % MODULUS == 0
  }

  /** A state from which the generator behaves. */
  predicate Usable(s: int) { s != 0 && -MODULUS < s < MODULUS }

  lemma RawIsProduct(s: int)
    requires Usable(s)
    ensures MULTIPLIER * s == MODULUS * CDiv(s, 127773) + Raw(s)
    ensures -MULTIPLIER <= CDiv(s, 127773) <= MULTIPLIER && -127773 < CMod(s, 127773) < 127773
  {
  }

  /** The multiplier and 2836 have no common factor. */
  lemma NoCommonFactor(lo: int, hi: int)
    requires 7 * 7 * 7 * 7 * 7 * lo == 2836 * hi
    ensures hi % MULTIPLIER == 0
  {
    var h1 := 7 * 7 * 7 * 7 * lo - 405 * hi;
    assert hi == 7 * h1;
    var h2 := 7 * 7 * 7 * lo - 405 * h1;
    assert h1 == 7 * h2;
    var h3 := 7 * 7 * lo - 405 * h2;
    assert h2 == 7 * h3;
    var h4 := 7 * lo - 405 * h3;
    assert h3 == 7 * h4;
    var h5 := lo - 405 * h4;
    assert h4 == 7 * h5;
    assert hi == MULTIPLIER * h5;
  }

  /** The modulus divides no usable state times the multiplier. */
  lemma RawIsNotZero(s: int)
    requires Usable(s)
    ensures Raw(s) != 0
  {
    RawIsProduct(s);
    var hi, lo := CDiv(s, 127773), CMod(s, 127773);
    if Raw(s) == 0 {
      NoCommonFactor(lo, hi);
    }
  }

  /** One draw multiplies by 7^5 modulo 2^31 - 1, never leaving 32 bits. */
  lemma DrawMultiplies(s: int)
    requires Usable(s)
    ensures 1 <= Draw(s) <= MODULUS - 1 && Congruent(Draw(s), MULTIPLIER * s)
    ensures IsInt32(MULTIPLIER * CMod(s, 127773)) && IsInt32(2836 * CDiv(s, 127773)) && IsInt32(Raw(s))
  {
    RawIsProduct(s);
    RawIsNotZero(s);
    var q := CDiv(s, 127773);
    assert Draw(s) - MULTIPLIER * s == MODULUS * -q || Draw(s) - MULTIPLIER * s == MODULUS * (1 - q);
  }

  lemma CongruentScales(a: int, b: int)
    requires Congruent(a, b)
    ensures Congruent(MULTIPLIER * a, MULTIPLIER * b)
  {
    var q := (a - b) / MODULUS;
    assert MULTIPLIER * a - MULTIPLIER * b == MODULUS * (MULTIPLIER * q);
  }

  lemma CongruentTransitive(a: int, b: int, c: int)
    requires Congruent(a, b) && Congruent(b, c)
    ensures Congruent(a, c)
  {
    assert a - c == MODULUS * ((a - b) / MODULUS + (b - c) / MODULUS);
  }

  lemma NextPower(k: nat, s: int)
    ensures MULTIPLIER * (Power(MULTIPLIER, k) * s) == Power(MULTIPLIER, k + 1) * s
  {
    var p := Power(MULTIPLIER, k);
    assert MULTIPLIER * (p * s) == (MULTIPLIER * p) * s;
  }

  /** Any number of draws from a usable state. */
  lemma {:induction false} DrawsMultiply(s: int, k: nat)
    requires Usable(s)
    ensures Usable(Draws(s, k)) && Congruent(Draws(s, k), Power(MULTIPLIER, k) * s)
    ensures k > 0 ==> 1 <= Draws(s, k) <= MODULUS - 1
  {
    hide Draw;
    hide Congruent;
    if k == 0 {
      CongruentReflexive(s);
    } else {
      var before, product := Draws(s, k - 1), Power(MULTIPLIER, k - 1) * s;
      DrawsMultiply(s, k - 1);
      DrawMultiplies(before);
      CongruentScales(before, product);
      CongruentTransitive(Draws(s, k), MULTIPLIER * before, MULTIPLIER * product);
      NextPower(k - 1, s);
    }
  }

  lemma CongruentReflexive(a: int)
    ensures Congruent(a, a)
  {
  }

  /** State zero is a trap. */
  lemma {:induction false} ZeroStaysZero(k: nat)
    ensures Draws(0, k) == 0
  {
    if k > 0 { ZeroStaysZero(k - 1); }
  }

  /** Seeding leaves a usable state except for two of the 2^32 seeds, because the
      remainder of a negative number is negative. */
  lemma SeededIsUsable(seed: UInt32)
    ensures IsInt32(Seeded(seed)) && -MODULUS < Seeded(seed) < MODULUS
    ensures Seeded(seed) == 0 <==> seed == 0xffff_ffff || seed == 0x8000_0001
  {
  }

  /** The static generator of blutils.c. */
  class Generator {
    var next: int

    constructor () { next := 0; }

    method Srand(seed: UInt32)
      modifies this
      ensures next == Seeded(seed)
    {
      next := ToInt32(seed);
      next := CMod(next, 0x7ffffffe) + 1;
    }

    method Rand() returns (r: int)
      modifies this
      ensures next == Draw(old(next)) && r == next - 1
    {
      var hi, lo := CDiv(next, 127773), CMod(next, 127773);
      var x := MULTIPLIER * lo - 2836 * hi;
      if x < 0 {
        x := x + 0x7fffffff;
      }
      next := x;
      return x - 1;
    }
  }

  // ---------------------------------------------------------------------
  // Which bits a value sets
  // ---------------------------------------------------------------------

  function Xor(a: nat, b: nat): nat {
    if a == 0 && b == 0 then 0 else 2 * Xor(a / 2, b / 2) + (if a % 2 != b % 2 then 1 else 0)
  }

  lemma {:induction false} XorFits(a: nat, b: nat, width: nat)
    requires a < Power(2, width) && b < Power(2, width)
    ensures Xor(a, b) < Power(2, width)
  {
    if width > 0 { XorFits(a / 2, b / 2, width - 1); }
  }

  lemma {:induction false} XorUndoes(a: nat, b: nat)
    ensures Xor(Xor(a, b), b) == a
  {
    if a != 0 || b != 0 {
      var high, low := Xor(a / 2, b / 2), if a % 2 != b % 2 then 1 else 0;
      var x := 2 * high + low;
      assert x / 2 == high && x % 2 == low;
      XorUndoes(a / 2, b / 2);
      assert Xor(x, b) == 2 * Xor(high, b / 2) + (if low != b % 2 then 1 else 0);
    }
  }

  /** What the column's number contributes to the seed. */
  function ColumnDraw(attno: nat): (r: UInt32)
    requires attno < MAX_KEYS
  {
    DrawMultiplies(Seeded(attno));
    Draw(Seeded(attno)) - 1
  }

  lemma WordSize()
    ensures Power(2, 32) == 0x1_0000_0000
  {
    assert Power(2, 8) == 256;
    assert Power(2, 12) == 4096;
    assert Power(2, 16) == 65536;
    assert Power(2, 20) == 1048576;
    assert Power(2, 24) == 16777216;
    assert Power(2, 28) == 268435456;
  }

  function ValueSeed(attno: nat, hash: UInt32): (seed: UInt32)
    requires attno < MAX_KEYS
  {
    WordSize();
    XorFits(hash, ColumnDraw(attno), 32);
    Xor(hash, ColumnDraw(attno))
  }

  /** The seed is not one of the two that stop the generator. */
  predicate Defined(attno: nat, hash: UInt32)
    requires attno < MAX_KEYS
  {
    ValueSeed(attno, hash) != 0xffff_ffff && ValueSeed(attno, hash) != 0x8000_0001
  }

  /** The j-th bit number drawn for a value, out of `n`. */
  function BitAt(attno: nat, hash: UInt32, j: nat, n: nat): int
    requires attno < MAX_KEYS && n > 0
  {
    CMod(Draws(Seeded(ValueSeed(attno, hash)), j + 1) - 1, n)
  }

  /** Every bit lies inside the signature exactly when the seed is usable. */
  lemma BitInSignature(attno: nat, hash: UInt32, j: nat, n: nat)
    requires attno < MAX_KEYS && n > 1
    ensures 0 <= BitAt(attno, hash, j, n) < n <==> Defined(attno, hash)
    ensures !Defined(attno, hash) ==> BitAt(attno, hash, j, n) == -1
  {
    hide Draws;
    hide Seeded;
    hide ValueSeed;
    hide CMod;
    hide Congruent;
    hide Power;
    var seed := ValueSeed(attno, hash);
    SeededIsUsable(seed);
    if Defined(attno, hash) {
      DrawsMultiply(Seeded(seed), j + 1);
      RemainderRange(Draws(Seeded(seed), j + 1) - 1, n);
    } else {
      ZeroStaysZero(j + 1);
      RemainderOfMinusOne(n);
    }
  }

  lemma RemainderRange(a: int, n: nat)
    requires a >= 0 && n > 0
    ensures 0 <= CMod(a, n) < n
  {
  }

  lemma RemainderOfMinusOne(n: nat)
    requires n > 1
    ensures CMod(-1, n) == -1
  {
    assert 1 / n == 0;
  }

  /** In every column some hash value hits the trap. */
  lemma SomeHashIsUndefined(attno: nat)
    requires attno < MAX_KEYS
    ensures exists hash: UInt32 :: !Defined(attno, hash)
  {
    var r := ColumnDraw(attno);
    WordSize();
    XorFits(0xffff_ffff, r, 32);
    XorUndoes(0xffff_ffff, r);
    var hash: UInt32 := Xor(0xffff_ffff, r);
    assert !Defined(attno, hash);
  }

  // ---------------------------------------------------------------------
  // Words
  // ---------------------------------------------------------------------

  type Word = bv16

  function Mask(k: nat): Word
    requires k < WORD_BITS
  {
    1 << k
  }

  ghost predicate HasBit(sign: seq<Word>, i: int) {
    0 <= i < WORD_BITS * |sign| && sign[i / WORD_BITS] & Mask(i % WORD_BITS) != 0
  }

  lemma SetBitInWord(w: Word, k: nat, j: nat)
    requires k < WORD_BITS && j < WORD_BITS
    ensures (w | Mask(k)) & Mask(j) != 0 <==> w & Mask(j) != 0 || j == k
  {
  }

  lemma Masks()
    ensures Mask(0) == 0x1 && Mask(1) == 0x2 && Mask(2) == 0x4 && Mask(3) == 0x8
    ensures Mask(4) == 0x10 && Mask(5) == 0x20 && Mask(6) == 0x40 && Mask(7) == 0x80
    ensures Mask(8) == 0x100 && Mask(9) == 0x200 && Mask(10) == 0x400 && Mask(11) == 0x800
    ensures Mask(12) == 0x1000 && Mask(13) == 0x2000 && Mask(14) == 0x4000 && Mask(15) == 0x8000
  {
  }

  ghost predicate BitCovered(a: Word, b: Word, k: nat)
    requires k < WORD_BITS
  {
    b & Mask(k) != 0 ==> a & Mask(k) != 0
  }

  lemma SubsetHasBit(a: Word, b: Word, k: nat)
    requires k < WORD_BITS && a & b == b
    ensures BitCovered(a, b, k)
  {
  }

  lemma CoveredIsSubset(a: Word, b: Word)
    requires forall k :: 0 <= k < WORD_BITS ==> BitCovered(a, b, k)
    ensures a & b == b
  {
    hide Mask;
    Masks();
    assert BitCovered(a, b, 0) && BitCovered(a, b, 1) && BitCovered(a, b, 2) && BitCovered(a, b, 3);
    assert BitCovered(a, b, 4) && BitCovered(a, b, 5) && BitCovered(a, b, 6) && BitCovered(a, b, 7);
    assert BitCovered(a, b, 8) && BitCovered(a, b, 9) && BitCovered(a, b, 10) && BitCovered(a, b, 11);
    assert BitCovered(a, b, 12) && BitCovered(a, b, 13) && BitCovered(a, b, 14) && BitCovered(a, b, 15);
    SixteenBits(a, b);
  }

  /** The scan's test on a word is inclusion of its bits. */
  lemma SubsetInWord(a: Word, b: Word)
    ensures a & b == b <==> forall k :: 0 <= k < WORD_BITS ==> BitCovered(a, b, k)
  {
    hide BitCovered;
    if a & b == b {
      forall k | 0 <= k < WORD_BITS ensures BitCovered(a, b, k) {
        SubsetHasBit(a, b, k);
      }
    }
    if forall k :: 0 <= k < WORD_BITS ==> BitCovered(a, b, k) {
      CoveredIsSubset(a, b);
    }
  }

  lemma SixteenBits(a: Word, b: Word)
    requires (b & 0x1 != 0 ==> a & 0x1 != 0) && (b & 0x2 != 0 ==> a & 0x2 != 0) && (b & 0x4 != 0 ==> a & 0x4 != 0)
    requires (b & 0x8 != 0 ==> a & 0x8 != 0)
    requires (b & 0x10 != 0 ==> a & 0x10 != 0) && (b & 0x20 != 0 ==> a & 0x20 != 0) && (b & 0x40 != 0 ==> a & 0x40 != 0)
    requires (b & 0x80 != 0 ==> a & 0x80 != 0)
    requires (b & 0x100 != 0 ==> a & 0x100 != 0) && (b & 0x200 != 0 ==> a & 0x200 != 0)
    requires (b & 0x400 != 0 ==> a & 0x400 != 0) && (b & 0x800 != 0 ==> a & 0x800 != 0)
    requires (b & 0x1000 != 0 ==> a & 0x1000 != 0) && (b & 0x2000 != 0 ==> a & 0x2000 != 0)
    requires (b & 0x4000 != 0 ==> a & 0x4000 != 0) && (b & 0x8000 != 0 ==> a & 0x8000 != 0)
    ensures a & b == b
  {
  }

  // ---------------------------------------------------------------------
  // Signatures of values, rows and scans
  // ---------------------------------------------------------------------

  /** Signature length in words and bits per column, frozen in the metapage. */
  datatype Options = Options(words: nat, bitSize: seq<nat>) {
    ghost predicate Valid() {
      1 <= words <= 256 && |bitSize| == MAX_KEYS && forall i :: 0 <= i < MAX_KEYS ==> 1 <= bitSize[i] < 256 * WORD_BITS
    }

    function Bits(): nat { WORD_BITS * words }
  }

  ghost predicate IsValueBit(opts: Options, attno: nat, hash: UInt32, count: nat, i: int)
    requires opts.Valid() && attno < MAX_KEYS
  {
    exists j :: 0 <= j < count && BitAt(attno, hash, j, opts.Bits()) == i
  }

  lemma SetBitInSignature(sign: seq<Word>, n: nat, i: int)
    requires n < WORD_BITS * |sign|
    ensures HasBit(sign[n / WORD_BITS := sign[n / WORD_BITS] | Mask(n % WORD_BITS)], i) <==> HasBit(sign, i) || i == n
  {
    if 0 <= i < WORD_BITS * |sign| && i / WORD_BITS == n / WORD_BITS {
      SetBitInWord(sign[n / WORD_BITS], n % WORD_BITS, i % WORD_BITS);
    }
  }

  ghost predicate SameBits(sign: seq<Word>, before: seq<Word>, opts: Options, attno: nat, hash: UInt32, count: nat)
    requires opts.Valid() && attno < MAX_KEYS
  {
    && |sign| == |before|
    && forall i {:trigger HasBit(sign, i)} ::
         HasBit(sign, i) <==> HasBit(before, i) || IsValueBit(opts, attno, hash, count, i)
  }

  lemma SameBitsStep(sign: seq<Word>, before: seq<Word>, opts: Options, attno: nat, hash: UInt32, count: nat, n: nat)
    requires opts.Valid() && attno < MAX_KEYS && SameBits(sign, before, opts, attno, hash, count)
    requires |sign| == opts.words && n == BitAt(attno, hash, count, opts.Bits()) && n < opts.Bits()
    ensures SameBits(sign[n / WORD_BITS := sign[n / WORD_BITS] | Mask(n % WORD_BITS)], before, opts, attno, hash,
                     count + 1)
  {
    var sign' := sign[n / WORD_BITS := sign[n / WORD_BITS] | Mask(n % WORD_BITS)];
    forall i ensures HasBit(sign', i) <==> HasBit(before, i) || IsValueBit(opts, attno, hash, count + 1, i) {
      SetBitInSignature(sign, n, i);
      assert HasBit(sign, i) <==> HasBit(before, i) || IsValueBit(opts, attno, hash, count, i);
      if i == n { assert IsValueBit(opts, attno, hash, count + 1, i); }
      if IsValueBit(opts, attno, hash, count, i) {
        var j :| 0 <= j < count && BitAt(attno, hash, j, opts.Bits()) == i;
        assert IsValueBit(opts, attno, hash, count + 1, i);
      }
    }
  }

  lemma NoBitsYet(sign: seq<Word>, opts: Options, attno: nat, hash: UInt32)
    requires opts.Valid() && attno < MAX_KEYS
    ensures SameBits(sign, sign, opts, attno, hash, 0)
  {
  }

  lemma DrawsNone(s: int)
    ensures Draws(s, 0) == s
  {
  }

  lemma DrawsNext(s: int, k: nat)
    ensures Draws(s, k + 1) == Draw(Draws(s, k))
  {
  }

  /** The seed of a value, step by step. */
  lemma SeedOf(attno: nat, hash: UInt32)
    requires attno < MAX_KEYS
    ensures 0 <= Draw(Seeded(attno)) - 1 < 0x1_0000_0000
    ensures ValueSeed(attno, hash) == Xor(hash, Draw(Seeded(attno)) - 1) < 0x1_0000_0000
  {
    hide Xor;
    assert ColumnDraw(attno) == Draw(Seeded(attno)) - 1;
  }

  /** Adds the bits of one value. `ok` says that every shift amount was in range. */
  method SignValue(gen: Generator, opts: Options, sign: array<Word>, attno: nat, hash: UInt32) returns (ok: bool)
    requires opts.Valid() && sign.Length == opts.words && attno < MAX_KEYS
    modifies gen, sign
    ensures ok <==> Defined(attno, hash)
    ensures ok ==> SameBits(sign[..], old(sign[..]), opts, attno, hash, opts.bitSize[attno])
  {
    hide Draw;
    hide Draws;
    hide Seeded;
    hide CMod;
    hide Xor;
    hide Power;
    hide ValueSeed;
    hide Defined;
    hide HasBit;
    SeedOf(attno, hash);
    gen.Srand(attno);
    var r := gen.Rand();
    gen.Srand(Xor(hash, r));
    ghost var seed := gen.next;
    var j := 0;
    NoBitsYet(sign[..], opts, attno, hash);
    DrawsNone(seed);
    while j < opts.bitSize[attno]
      invariant 0 <= j <= opts.bitSize[attno]
      invariant seed == Seeded(ValueSeed(attno, hash)) && gen.next == Draws(seed, j)
      invariant SameBits(sign[..], old(sign[..]), opts, attno, hash, j)
      invariant j > 0 ==> Defined(attno, hash)
    {
      DrawsNext(seed, j);
      var x := gen.Rand();
      var nBit := CMod(x, opts.Bits());
      BitInSignature(attno, hash, j, opts.Bits());
      if nBit < 0 {
        return false;
      }
      SameBitsStep(sign[..], old(sign[..]), opts, attno, hash, j, nBit);
      sign[nBit / WORD_BITS] := sign[nBit / WORD_BITS] | Mask(nBit % WORD_BITS);
      j := j + 1;
    }
    return true;
  }

  /** The hash of each column of a row, or none for a null. */
  type Row = cols: seq<Option<UInt32>> | |cols| <= MAX_KEYS

  datatype ScanKey = ScanKey(attno: nat, hash: Option<UInt32>)

  ghost predicate ValidKeys(keys: seq<ScanKey>) {
    forall k :: 0 <= k < |keys| ==> keys[k].attno < MAX_KEYS
  }

  ghost predicate AllDefined(cols: Row, n: nat)
    requires n <= |cols|
  {
    forall c :: 0 <= c < n && cols[c].Some? ==> Defined(c, cols[c].value)
  }

  ghost predicate IsColumnBit(opts: Options, cols: Row, c: nat, i: int)
    requires opts.Valid() && c < |cols|
  {
    cols[c].Some? && IsValueBit(opts, c, cols[c].value, opts.bitSize[c], i)
  }

  ghost predicate IsRowBit(opts: Options, cols: Row, n: nat, i: int)
    requires opts.Valid() && n <= |cols|
  {
    exists c :: 0 <= c < n && IsColumnBit(opts, cols, c, i)
  }

  /** The words hold exactly the bits of the first `n` columns. */
  ghost predicate SignsRow(opts: Options, cols: Row, n: nat, sign: seq<Word>)
    requires opts.Valid() && n <= |cols|
  {
    |sign| == opts.words && forall i :: HasBit(sign, i) <==> IsRowBit(opts, cols, n, i)
  }

  ghost predicate IsKeyBit(opts: Options, key: ScanKey, i: int)
    requires opts.Valid() && key.attno < MAX_KEYS
  {
    key.hash.Some? && IsValueBit(opts, key.attno, key.hash.value, opts.bitSize[key.attno], i)
  }

  ghost predicate IsScanBit(opts: Options, keys: seq<ScanKey>, n: nat, i: int)
    requires opts.Valid() && ValidKeys(keys) && n <= |keys|
  {
    exists k :: 0 <= k < n && IsKeyBit(opts, keys[k], i)
  }

  ghost predicate SignsScan(opts: Options, keys: seq<ScanKey>, n: nat, sign: seq<Word>)
    requires opts.Valid() && ValidKeys(keys) && n <= |keys|
  {
    |sign| == opts.words && forall i :: HasBit(sign, i) <==> IsScanBit(opts, keys, n, i)
  }

  lemma ZeroSignature(sign: seq<Word>)
    requires forall w :: w in sign ==> w == 0
    ensures forall i :: !HasBit(sign, i)
  {
    forall i | 0 <= i < WORD_BITS * |sign| ensures !HasBit(sign, i) {
      assert sign[i / WORD_BITS] in sign;
    }
  }

  lemma RowStep(opts: Options, cols: Row, n: nat, before: seq<Word>, sign: seq<Word>)
    requires opts.Valid() && n < |cols| && SignsRow(opts, cols, n, before)
    requires if cols[n].Some? then SameBits(sign, before, opts, n, cols[n].value, opts.bitSize[n]) else sign == before
    ensures SignsRow(opts, cols, n + 1, sign)
  {
    forall i ensures HasBit(sign, i) <==> IsRowBit(opts, cols, n + 1, i) {
      assert HasBit(before, i) <==> IsRowBit(opts, cols, n, i);
      if IsRowBit(opts, cols, n + 1, i) {
        var c :| 0 <= c < n + 1 && IsColumnBit(opts, cols, c, i);
        assert c < n ==> IsRowBit(opts, cols, n, i);
      }
      if IsRowBit(opts, cols, n, i) {
        var c :| 0 <= c < n && IsColumnBit(opts, cols, c, i);
        assert IsRowBit(opts, cols, n + 1, i);
      }
      if IsColumnBit(opts, cols, n, i) { assert IsRowBit(opts, cols, n + 1, i); }
    }
  }

  lemma ScanStep(opts: Options, keys: seq<ScanKey>, n: nat, before: seq<Word>, sign: seq<Word>)
    requires opts.Valid() && ValidKeys(keys) && n < |keys| && SignsScan(opts, keys, n, before)
    requires keys[n].hash.Some?
    requires SameBits(sign, before, opts, keys[n].attno, keys[n].hash.value, opts.bitSize[keys[n].attno])
    ensures SignsScan(opts, keys, n + 1, sign)
  {
    forall i ensures HasBit(sign, i) <==> IsScanBit(opts, keys, n + 1, i) {
      assert HasBit(before, i) <==> IsScanBit(opts, keys, n, i);
      if IsScanBit(opts, keys, n + 1, i) {
        var k :| 0 <= k < n + 1 && IsKeyBit(opts, keys[k], i);
        assert k < n ==> IsScanBit(opts, keys, n, i);
      }
      if IsScanBit(opts, keys, n, i) {
        var k :| 0 <= k < n && IsKeyBit(opts, keys[k], i);
        assert IsScanBit(opts, keys, n + 1, i);
      }
      if IsKeyBit(opts, keys[n], i) { assert IsScanBit(opts, keys, n + 1, i); }
    }
  }

  /** The signature of a row: null columns add nothing. */
  method FormTuple(gen: Generator, opts: Options, cols: Row) returns (ok: bool, sign: array<Word>)
    requires opts.Valid()
    modifies gen
    ensures fresh(sign)
    ensures ok <==> AllDefined(cols, |cols|)
    ensures ok ==> SignsRow(opts, cols, |cols|, sign[..])
  {
    sign := new Word[opts.words](_ => 0);
    ZeroSignature(sign[..]);
    var c := 0;
    while c < |cols|
      invariant 0 <= c <= |cols| && sign.Length == opts.words && fresh(sign)
      invariant AllDefined(cols, c) && SignsRow(opts, cols, c, sign[..])
    {
      ghost var before := sign[..];
      if cols[c].Some? {
        ok := SignValue(gen, opts, sign, c, cols[c].value);
        if !ok {
          return;
        }
      }
      RowStep(opts, cols, c, before, sign[..]);
      c := c + 1;
    }
    ok := true;
  }

  datatype Search = Nothing | Undefined | Look(sign: seq<Word>)

  /** The signature of a scan: a null key finds nothing at all. */
  method FormScan(gen: Generator, opts: Options, keys: seq<ScanKey>) returns (search: Search)
    requires opts.Valid() && ValidKeys(keys)
    modifies gen
    ensures search.Look? <==>
      forall k :: 0 <= k < |keys| ==> keys[k].hash.Some? && Defined(keys[k].attno, keys[k].hash.value)
    ensures search.Look? ==> SignsScan(opts, keys, |keys|, search.sign)
    ensures search.Nothing? ==> exists k :: 0 <= k < |keys| && keys[k].hash.None?
  {
    var sign := new Word[opts.words](_ => 0);
    ZeroSignature(sign[..]);
    var k := 0;
    while k < |keys|
      invariant 0 <= k <= |keys| && sign.Length == opts.words && fresh(sign)
      invariant forall j :: 0 <= j < k ==> keys[j].hash.Some? && Defined(keys[j].attno, keys[j].hash.value)
      invariant SignsScan(opts, keys, k, sign[..])
    {
      if keys[k].hash.None? {
        return Nothing;
      }
      ghost var before := sign[..];
      var ok := SignValue(gen, opts, sign, keys[k].attno, keys[k].hash.value);
      if !ok {
        return Undefined;
      }
      ScanStep(opts, keys, k, before, sign[..]);
      k := k + 1;
    }
    return Look(sign[..]);
  }

  // ---------------------------------------------------------------------
  // The scan's test
  // ---------------------------------------------------------------------

  /** Every bit of the scan is a bit of the tuple. */
  ghost predicate Covers(tuple: seq<Word>, scan: seq<Word>) {
    forall i :: HasBit(scan, i) ==> HasBit(tuple, i)
  }

  predicate WordsMatch(tuple: seq<Word>, scan: seq<Word>)
    requires |tuple| == |scan|
  {
    forall w :: 0 <= w < |scan| ==> tuple[w] & scan[w] == scan[w]
  }

  /** Bit `k` of word `w` as a bit of the whole. */
  lemma BitInWord(sign: seq<Word>, w: nat, k: nat)
    requires w < |sign| && k < WORD_BITS
    ensures HasBit(sign, WORD_BITS * w + k) <==> sign[w] & Mask(k) != 0
  {
    hide Mask;
    WordAndBit(w, k);
    BitOfWord(sign, WORD_BITS * w + k, w, k);
  }

  lemma WordAndBit(w: nat, k: nat)
    requires k < WORD_BITS
    ensures (WORD_BITS * w + k) / WORD_BITS == w && (WORD_BITS * w + k) % WORD_BITS == k
  {
  }

  lemma BitOfWord(sign: seq<Word>, i: nat, w: nat, k: nat)
    requires w < |sign| && k < WORD_BITS && i == WORD_BITS * w + k && i / WORD_BITS == w && i % WORD_BITS == k
    ensures HasBit(sign, i) <==> sign[w] & Mask(k) != 0
  {
    hide Mask;
  }

  lemma WordIsCovered(tuple: seq<Word>, scan: seq<Word>, w: nat)
    requires |tuple| == |scan| && Covers(tuple, scan) && w < |scan|
    ensures tuple[w] & scan[w] == scan[w]
  {
    hide Mask, HasBit;
    forall k | 0 <= k < WORD_BITS ensures BitCovered(tuple[w], scan[w], k) {
      BitInWord(tuple, w, k);
      BitInWord(scan, w, k);
      assert HasBit(scan, WORD_BITS * w + k) ==> HasBit(tuple, WORD_BITS * w + k);
    }
    SubsetInWord(tuple[w], scan[w]);
  }

  lemma BitIsCovered(tuple: seq<Word>, scan: seq<Word>, i: int)
    requires |tuple| == |scan| && WordsMatch(tuple, scan) && HasBit(scan, i)
    ensures HasBit(tuple, i)
  {
    hide Mask;
    var w := i / WORD_BITS;
    assert tuple[w] & scan[w] == scan[w];
    SubsetInWord(tuple[w], scan[w]);
    assert BitCovered(tuple[w], scan[w], i % WORD_BITS);
  }

  lemma CoversUpTo(tuple: seq<Word>, scan: seq<Word>)
    requires |tuple| == |scan|
    ensures Covers(tuple, scan) <==> WordsMatch(tuple, scan)
  {
    hide Mask, HasBit;
    if Covers(tuple, scan) {
      forall w | 0 <= w < |scan| ensures tuple[w] & scan[w] == scan[w] { WordIsCovered(tuple, scan, w); }
    }
    if WordsMatch(tuple, scan) {
      forall i | HasBit(scan, i) ensures HasBit(tuple, i) { BitIsCovered(tuple, scan, i); }
    }
  }

  /** The word loop of `blgetbitmap`. */
  method Matches(tuple: seq<Word>, scan: seq<Word>) returns (res: bool)
    requires |tuple| == |scan|
    ensures res <==> Covers(tuple, scan)
  {
    hide HasBit;
    CoversUpTo(tuple, scan);
    res := true;
    var i := 0;
    while i < |scan|
      invariant 0 <= i <= |scan| && forall w :: 0 <= w < i ==> tuple[w] & scan[w] == scan[w]
    {
      if tuple[i] & scan[i] != scan[i] {
        return false;
      }
      i := i + 1;
    }
  }

  /** The row has the value of every key. */
  ghost predicate Selected(cols: Row, keys: seq<ScanKey>) {
    forall k :: 0 <= k < |keys| ==> keys[k].attno < |cols| && keys[k].hash.Some? && cols[keys[k].attno] == keys[k].hash
  }

  /** A row with the values sought always passes the test. */
  lemma NoFalseNegative(opts: Options, cols: Row, keys: seq<ScanKey>, tuple: seq<Word>, scan: seq<Word>)
    requires opts.Valid() && Selected(cols, keys) && ValidKeys(keys)
    requires SignsRow(opts, cols, |cols|, tuple) && SignsScan(opts, keys, |keys|, scan)
    ensures Covers(tuple, scan)
  {
    forall i | HasBit(scan, i) ensures HasBit(tuple, i) {
      var k :| 0 <= k < |keys| && IsKeyBit(opts, keys[k], i);
      assert IsColumnBit(opts, cols, keys[k].attno, i);
      assert IsRowBit(opts, cols, |cols|, i);
    }
  }
}
