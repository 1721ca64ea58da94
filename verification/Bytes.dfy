/** Bytes and machine words shared by the models. */
module Bytes {
  type Byte = x: nat | x < 256

  type Text = seq<Byte>

  datatype Option<+T> = None | Some(value: T)

  const SIZE_MAX: nat := 0xffff_ffff_ffff_ffff

  // ASCII codes.

  const BACKSPACE: Byte := 8
  const TAB: Byte := 9
  const NEWLINE: Byte := 10
  const FORM_FEED: Byte := 12
  const RETURN: Byte := 13
  const SPACE: Byte := 32
  const QUOTE: Byte := 34
  const ASTERISK: Byte := 42
  const PLUS: Byte := 43
  const COMMA: Byte := 44
  const MINUS: Byte := 45
  const DOT: Byte := 46
  const SLASH: Byte := 47
  const ZERO: Byte := 48
  const COLON: Byte := 58
  const OPEN_BRACKET: Byte := 91
  const BACKSLASH: Byte := 92
  const CLOSE_BRACKET: Byte := 93
  const OPEN_BRACE: Byte := 123
  const CLOSE_BRACE: Byte := 125

  /** The bytes of an ASCII text. */
  function Ascii(s: string): (t: Text)
    requires forall i :: 0 <= i < |s| ==> s[i] as int < 128
  {
    seq(|s|, i requires 0 <= i < |s| => s[i] as int)
  }

  predicate IsDigit(b: Byte) { 48 <= b <= 57 }

  /** The number that decimal digits stand for. */
  function Decimal(t: Text): nat
    requires forall i :: 0 <= i < |t| ==> IsDigit(t[i])
  {
    if t == [] then 0
    else
      assert IsDigit(t[|t| - 1]);
      10 * Decimal(t[..|t| - 1]) + (t[|t| - 1] - 48)
  }

  /** The decimal digits of a number, as %uD prints them. */
  function DecimalText(n: nat): (t: Text)
    ensures t != [] && (t[0] == ZERO ==> n == 0) && forall i :: 0 <= i < |t| ==> IsDigit(t[i])
  {
    if n < 10 then [48 + n] else DecimalText(n / 10) + [48 + n % 10]
  }

  lemma {:induction false} DecimalBack(n: nat)
    ensures Decimal(DecimalText(n)) == n
  {
    var t := DecimalText(n);
    if n < 10 {
      assert t[..0] == [];
    } else {
      DecimalBack(n / 10);
      assert t[..|t| - 1] == DecimalText(n / 10);
    }
  }

  /** A hexadecimal digit: from '0', from 'A', or in lower case from 'a'. */
  function HexByte(d: nat, lower: bool): Byte
    requires d < 16
  {
    if d < 10 then 48 + d else if lower then 97 + (d - 10) else 65 + (d - 10)
  }

  function Min(a: nat, b: nat): nat { if a < b then a else b }

  function Cons(b: Byte, r: Option<Text>): Option<Text> { if r.None? then None else Some([b] + r.value) }

  lemma Assoc(a: Text, b: Text, c: Text)
    ensures a + (b + c) == (a + b) + c
  {
  }

  /** w stands in the text at p. */
  ghost predicate At(text: Text, p: nat, w: Text) {
    p + |w| <= |text| && forall i :: 0 <= i < |w| ==> w[i] == text[p + i]
  }

  lemma AtSplit(text: Text, p: nat, a: Text, b: Text)
    requires At(text, p, a + b)
    ensures At(text, p, a) && At(text, p + |a|, b)
  {
    forall i | 0 <= i < |a| ensures a[i] == text[p + i] { assert (a + b)[i] == a[i]; }
    forall i | 0 <= i < |b| ensures b[i] == text[p + |a| + i] { assert (a + b)[|a| + i] == b[i]; }
  }

  lemma AtIndex(text: Text, p: nat, w: Text, i: nat)
    requires At(text, p, w) && i < |w|
    ensures text[p + i] == w[i]
  {
  }
}
