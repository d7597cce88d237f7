/**
  Byte strings and their lexicographic order.
 */
module ByteOrder {
  type Byte = b: int | 0 <= b < 256

  /** The value of a byte held in a plain `char`, signed or not. */
  function CharValue(b: Byte, signed: bool): int {
    if signed && b >= 128 then b - 256 else b
  }

  // ---------------------------------------------------------------------
  // The order
  // ---------------------------------------------------------------------

  /** Lexicographic comparison: -1, 0 or 1. */
  function Lex(a: seq<Byte>, b: seq<Byte>, signed: bool): (r: int)
    ensures -1 <= r <= 1
  {
    if a == [] then (if b == [] then 0 else -1)
    else if b == [] then 1
    else if a[0] == b[0] then Lex(a[1..], b[1..], signed)
    else if CharValue(a[0], signed) > CharValue(b[0], signed) then 1
    else -1
  }

  lemma {:induction false} LexEqual(a: seq<Byte>, b: seq<Byte>, signed: bool)
    ensures Lex(a, b, signed) == 0 <==> a == b
  {
    if a != [] && b != [] && a[0] == b[0] {
      LexEqual(a[1..], b[1..], signed);
      assert a == [a[0]] + a[1..] && b == [b[0]] + b[1..];
    }
  }

  lemma {:induction false} LexAntisymmetric(a: seq<Byte>, b: seq<Byte>, signed: bool)
    ensures Lex(b, a, signed) == -Lex(a, b, signed)
  {
    if a != [] && b != [] && a[0] == b[0] {
      LexAntisymmetric(a[1..], b[1..], signed);
    }
  }

  lemma {:induction false} LexTransitive(a: seq<Byte>, b: seq<Byte>, c: seq<Byte>, signed: bool)
    requires Lex(a, b, signed) <= 0 && Lex(b, c, signed) <= 0
    ensures Lex(a, c, signed) <= 0
  {
    if a != [] && b != [] && c != [] && a[0] == b[0] == c[0] {
      LexTransitive(a[1..], b[1..], c[1..], signed);
    }
  }

  /** A common prefix does not matter. */
  lemma {:induction false} LexPrefix(p: seq<Byte>, a: seq<Byte>, b: seq<Byte>, signed: bool)
    ensures Lex(p + a, p + b, signed) == Lex(a, b, signed)
  {
    if p == [] {
      assert p + a == a && p + b == b;
    } else {
      assert (p + a)[1..] == p[1..] + a && (p + b)[1..] == p[1..] + b;
      LexPrefix(p[1..], a, b, signed);
    }
  }

  lemma LexStep(a: seq<Byte>, b: seq<Byte>, signed: bool)
    requires a != [] && b != []
    ensures Lex(a, b, signed) ==
      if a[0] == b[0] then Lex(a[1..], b[1..], signed)
      else if CharValue(a[0], signed) > CharValue(b[0], signed) then 1 else -1
  {
  }
}
