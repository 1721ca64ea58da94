/**
  How a string may be written: section 7 of RFC 8259, with the encoding of section 3 of RFC 3629.
  The decoder accepts exactly these spellings, and reads each as the bytes it stands for.
 */
module JsonSpelling {
  import opened Bytes
  import opened JsonString

  // UTF-8.

  /** 10xxxxxx */
  predicate IsTail(b: Byte) { 0x80 <= b < 0xc0 }

  function Bits(b: Byte): nat
    requires IsTail(b)
  {
    b - 0x80
  }

  /** The code point that up to three tails add to the bits of a leading byte. */
  function Point(lead: nat, tails: Text): nat
    requires forall i :: 0 <= i < |tails| ==> IsTail(tails[i])
    decreases |tails|
  {
    if tails == [] then lead
    else
      assert IsTail(tails[0]);
      Point(lead * 0x40 + Bits(tails[0]), tails[1..])
  }

  /** The bits of a leading byte 0xxxxxxx, 110xxxxx, 1110xxxx or 11110xxx, by the number of its tails. */
  function Lead(b: Byte, tails: nat): Option<nat> {
    if tails == 0 && b < 0x80 then Some(b)
    else if tails == 1 && 0xc0 <= b < 0xe0 then Some(b - 0xc0)
    else if tails == 2 && 0xe0 <= b < 0xf0 then Some(b - 0xe0)
    else if tails == 3 && 0xf0 <= b < 0xf8 then Some(b - 0xf0)
    else None
  }

  /** The smallest code point that needs so many tails. */
  function Least(tails: nat): nat {
    if tails == 0 then 0 else if tails == 1 then 0x80 else if tails == 2 then 0x800 else 0x1_0000
  }

  /** The code point of a sequence in its shortest form. */
  function Utf8Point(s: Text): Option<nat> {
    if s == [] || Lead(s[0], |s| - 1).None? || exists i :: 1 <= i < |s| && !IsTail(s[i]) then None
    else
      var u := Point(Lead(s[0], |s| - 1).value, s[1..]);
      if Least(|s| - 1) <= u < 0x11_0000 then Some(u) else None
  }

  lemma PointOfTwo(lead: nat, a: Byte)
    requires IsTail(a)
    ensures Point(lead, [a]) == lead * 0x40 + Bits(a)
  {
    assert [a][1..] == [];
  }

  lemma PointOfThree(lead: nat, a: Byte, b: Byte)
    requires IsTail(a) && IsTail(b)
    ensures Point(lead, [a, b]) == lead * 0x1000 + Bits(a) * 0x40 + Bits(b)
  {
    assert [a, b][1..] == [b];
    PointOfTwo(lead * 0x40 + Bits(a), b);
  }

  lemma PointOfFour(lead: nat, a: Byte, b: Byte, c: Byte)
    requires IsTail(a) && IsTail(b) && IsTail(c)
    ensures Point(lead, [a, b, c]) == lead * 0x4_0000 + Bits(a) * 0x1000 + Bits(b) * 0x40 + Bits(c)
  {
    assert [a, b, c][1..] == [b, c];
    PointOfThree(lead * 0x40 + Bits(a), b, c);
  }

  lemma TwoParts(u: nat)
    ensures u == u / 64 * 64 + u % 64
  {
  }

  lemma ThreeParts(u: nat)
    ensures u == u / 4096 * 4096 + u / 64 % 64 * 64 + u % 64
  {
    TwoParts(u);
    TwoParts(u / 64);
  }

  lemma FourParts(u: nat)
    ensures u == u / 262144 * 262144 + u / 4096 % 64 * 4096 + u / 64 % 64 * 64 + u % 64
  {
    ThreeParts(u);
    TwoParts(u / 4096);
  }

  /** Utf8Point() of up to four bytes, without the recursion of Point(). */
  lemma PointOf(s: Text, lead: nat, u: nat)
    requires 1 <= |s| <= 4 && Lead(s[0], |s| - 1) == Some(lead) && Least(|s| - 1) <= u < 0x11_0000
    requires forall i :: 1 <= i < |s| ==> IsTail(s[i])
    requires |s| == 1 ==> u == lead
    requires |s| == 2 ==> u == lead * 0x40 + Bits(s[1])
    requires |s| == 3 ==> u == lead * 0x1000 + Bits(s[1]) * 0x40 + Bits(s[2])
    requires |s| == 4 ==> u == lead * 0x4_0000 + Bits(s[1]) * 0x1000 + Bits(s[2]) * 0x40 + Bits(s[3])
    ensures Utf8Point(s) == Some(u)
  {
    hide Lead, Least;
    if |s| == 1 {
      assert s[1..] == [];
    } else if |s| == 2 {
      assert s[1..] == [s[1]];
      PointOfTwo(lead, s[1]);
    } else if |s| == 3 {
      assert s[1..] == [s[1], s[2]];
      PointOfThree(lead, s[1], s[2]);
    } else {
      assert s[1..] == [s[1], s[2], s[3]];
      PointOfFour(lead, s[1], s[2], s[3]);
    }
  }

  /** The encoder writes every code point so that the bit layout gives it back. */
  lemma Utf8Back(u: nat)
    requires u < 0x11_0000
    ensures Utf8Point(Utf8(u)) == Some(u)
  {
    hide Utf8Point;
    if u < 0x80 {
      PointOf(Utf8(u), u, u);
    } else if u < 0x800 {
      TwoParts(u);
      PointOf(Utf8(u), u / 64, u);
    } else if u < 0x1_0000 {
      ThreeParts(u);
      PointOf(Utf8(u), u / 4096, u);
    } else {
      FourParts(u);
      PointOf(Utf8(u), u / 262144, u);
    }
  }

  // Hexadecimal digits, in either case.

  datatype Cases = Cases(a: bool, b: bool, c: bool, d: bool)

  /** The four digits of u, the lower-case ones as chosen. */
  function HexText(u: nat, lower: Cases): (t: Text)
    requires u < 0x1_0000
    ensures |t| == 4
  {
    [HexByte(u / 0x1000, lower.a), HexByte(u / 0x100 % 0x10, lower.b), HexByte(u / 0x10 % 0x10, lower.c), HexByte(u % 0x10, lower.d)]
  }

  /** The digits, in the order of their values. */
  lemma HexCharacters(d: nat)
    requires d < 16
    ensures HexByte(d, false) == Ascii("0123456789ABCDEF")[d] && HexByte(d, true) == Ascii("0123456789abcdef")[d]
  {
  }

  lemma HexDigit(d: nat, lower: bool)
    requires d < 16
    ensures IsHex(HexByte(d, lower)) && HexValue(HexByte(d, lower)) == d
  {
  }

  /** A digit is one of the two ways to write its value. */
  lemma HexIsDigit(b: Byte)
    requires IsHex(b)
    ensures b == HexByte(HexValue(b), b >= 97)
  {
  }

  /** All sixteen ways to write four digits read as the same number. */
  lemma HexReads(text: Text, p: nat, u: nat, lower: Cases)
    requires u < 0x1_0000 && At(text, p, HexText(u, lower))
    ensures IsHex4(text, p) && Hex4(text, p) == u
  {
    hide HexByte, IsHex, HexValue;
    var t := HexText(u, lower);
    AtIndex(text, p, t, 0);
    AtIndex(text, p, t, 1);
    AtIndex(text, p, t, 2);
    AtIndex(text, p, t, 3);
    HexParts(u);
    HexDigit(u / 0x1000, lower.a);
    HexDigit(u / 0x100 % 0x10, lower.b);
    HexDigit(u / 0x10 % 0x10, lower.c);
    HexDigit(u % 0x10, lower.d);
  }

  lemma HexParts(u: nat)
    requires u < 0x1_0000
    ensures u == 16 * (16 * (16 * (u / 0x1000) + u / 0x100 % 0x10) + u / 0x10 % 0x10) + u % 0x10
    ensures u / 0x1000 < 0x10
  {
  }

  /** Four digits are one of the sixteen ways to write the number they read as. */
  lemma HexWasWritten(text: Text, p: nat) returns (lower: Cases)
    requires IsHex4(text, p)
    ensures At(text, p, HexText(Hex4(text, p), lower))
  {
    lower := Cases(text[p] >= 97, text[p + 1] >= 97, text[p + 2] >= 97, text[p + 3] >= 97);
    HexIsDigit(text[p]);
    HexIsDigit(text[p + 1]);
    HexIsDigit(text[p + 2]);
    HexIsDigit(text[p + 3]);
    var u, a, b, c, d := Hex4(text, p), HexValue(text[p]), HexValue(text[p + 1]), HexValue(text[p + 2]), HexValue(text[p + 3]);
    Digits(a, b, c, d);
  }

  lemma Digits(a: nat, b: nat, c: nat, d: nat)
    requires a < 16 && b < 16 && c < 16 && d < 16
    ensures var u := 16 * (16 * (16 * a + b) + c) + d;
            u / 0x1000 == a && u / 0x100 % 0x10 == b && u / 0x10 % 0x10 == c && u % 0x10 == d
  {
  }

  // Spellings.

  /** One character: itself, a letter after a backslash, \uXXXX, or two of these. */
  datatype Spelled = Raw(b: Byte) | Short(letter: Byte) | Unicode(u: nat, lower: Cases) | Pair(u: nat, high: Cases, low: Cases)

  /** The letters after a backslash, and what they stand for. */
  const SHORT: map<Byte, Byte> :=
    map[34 := 0x22, 92 := 0x5c, 47 := 0x2f, 98 := 0x08, 102 := 0x0c, 110 := 0x0a, 114 := 0x0d, 116 := 0x09]

  predicate Spells(c: Spelled) {
    match c
    case Raw(b) => b >= 0x20 && b != 0x22 && b != 0x5c
    case Short(letter) => letter in SHORT
    case Unicode(u, _) => u < 0xd800 || 0xe000 <= u < 0x1_0000
    case Pair(u, _, _) => 0x1_0000 <= u < 0x11_0000
  }

  function Escape(u: nat, lower: Cases): (t: Text)
    requires u < 0x1_0000
    ensures |t| == 6
  {
    [BACKSLASH, LETTER_U] + HexText(u, lower)
  }

  /** The surrogates of a code point. */
  function High(u: nat): nat
    requires 0x1_0000 <= u < 0x11_0000
  {
    0xd800 + (u - 0x1_0000) / 0x400
  }

  function Low(u: nat): nat
    requires 0x1_0000 <= u < 0x11_0000
  {
    0xdc00 + (u - 0x1_0000) % 0x400
  }

  function Spelling(c: Spelled): (t: Text)
    requires Spells(c)
    ensures t != [] && t[0] != QUOTE
  {
    match c
    case Raw(b) => [b]
    case Short(letter) => [BACKSLASH, letter]
    case Unicode(u, lower) => Escape(u, lower)
    case Pair(u, high, low) => Escape(High(u), high) + Escape(Low(u), low)
  }

  /** The bytes it stands for; of an escape, its code point in UTF-8. */
  function Meaning(c: Spelled): Text
    requires Spells(c)
  {
    match c
    case Raw(b) => [b]
    case Short(letter) => [SHORT[letter]]
    case Unicode(u, _) => Utf8(u)
    case Pair(u, _, _) => Utf8(u)
  }

  /** What the first pass sets aside for it. */
  function Room(c: Spelled): nat {
    match c case Raw(_) => 1 case Short(_) => 1 case Unicode(_, _) => 3 case Pair(_, _, _) => 6
  }

  lemma ShortIsEscaped(b: Byte)
    ensures Escaped(b) == if b in SHORT then Some(SHORT[b]) else None
  {
  }

  lemma EscapeReads(text: Text, p: nat, u: nat, lower: Cases)
    requires u < 0x1_0000 && At(text, p, Escape(u, lower))
    ensures IsUnicode(text, p) && Hex4(text, p + 2) == u
    ensures text[p] == BACKSLASH && p + 1 < |text| && Escaped(text[p + 1]) == None
  {
    AtSplit(text, p, [BACKSLASH, LETTER_U], HexText(u, lower));
    AtIndex(text, p, [BACKSLASH, LETTER_U], 0);
    AtIndex(text, p, [BACKSLASH, LETTER_U], 1);
    HexReads(text, p + 2, u, lower);
  }

  lemma PairIs(u: nat)
    requires 0x1_0000 <= u < 0x11_0000
    ensures 0xd800 <= High(u) <= 0xdbff && 0xdc00 <= Low(u) <= 0xdfff && PairValue(High(u), Low(u)) == u
  {
    var v := u - 0x1_0000;
    assert v == v / 0x400 * 0x400 + v % 0x400;
  }

  /** The surrogates that a value was computed from. */
  lemma PairWas(high: nat, low: nat)
    requires 0xd800 <= high <= 0xdbff && 0xdc00 <= low <= 0xdfff
    ensures High(PairValue(high, low)) == high && Low(PairValue(high, low)) == low
  {
    var v := (high - 0xd800) * 0x400 + (low - 0xdc00);
    assert v / 0x400 == high - 0xd800 && v % 0x400 == low - 0xdc00;
  }

  lemma PairReads(text: Text, p: nat, u: nat, high: Cases, low: Cases)
    requires 0x1_0000 <= u < 0x11_0000
    requires At(text, p, Spelling(Pair(u, high, low)))
    ensures text[p] != QUOTE && OneChar(text, p) == Some(Chars(Utf8(u), 6, p + 12))
  {
    PairIs(u);
    AtSplit(text, p, Escape(High(u), high), Escape(Low(u), low));
    EscapeReads(text, p, High(u), high);
    EscapeReads(text, p + 6, Low(u), low);
    assert IsSurrogate(Hex4(text, p + 2)) && IsPair(text, p);
  }

  /** Every spelling of a character is read as that character. */
  lemma CharReads(text: Text, p: nat, c: Spelled)
    requires Spells(c) && At(text, p, Spelling(c))
    ensures p < |text| && text[p] != QUOTE
    ensures OneChar(text, p) == Some(Chars(Meaning(c), Room(c), p + |Spelling(c)|))
  {
    var s := Spelling(c);
    AtIndex(text, p, s, 0);
    match c
    case Raw(b) =>
    case Short(letter) =>
      AtIndex(text, p, s, 1);
      ShortIsEscaped(letter);
    case Unicode(u, lower) => EscapeReads(text, p, u, lower);
    case Pair(u, high, low) => PairReads(text, p, u, high, low);
  }

  lemma EscapeWasWritten(text: Text, p: nat) returns (lower: Cases)
    requires IsUnicode(text, p)
    ensures At(text, p, Escape(Hex4(text, p + 2), lower))
  {
    hide HexText, Hex4;
    lower := HexWasWritten(text, p + 2);
    var u := Hex4(text, p + 2);
    forall i | 0 <= i < 6 ensures Escape(u, lower)[i] == text[p + i] {
      if i >= 2 { AtIndex(text, p + 2, HexText(u, lower), i - 2); }
    }
  }

  lemma AtJoin(text: Text, p: nat, a: Text, b: Text)
    requires At(text, p, a) && At(text, p + |a|, b)
    ensures At(text, p, a + b)
  {
    forall i | 0 <= i < |a + b| ensures (a + b)[i] == text[p + i] {
      if i >= |a| { AtIndex(text, p + |a|, b, i - |a|); }
    }
  }

  /** What is read as a character is one of its spellings. */
  lemma CharWasSpelled(text: Text, p: nat) returns (c: Spelled)
    requires p < |text| && text[p] != QUOTE && OneChar(text, p).Some?
    ensures Spells(c) && At(text, p, Spelling(c))
  {
    hide Hex4, Escape, IsHex4, Utf8;
    if text[p] != BACKSLASH {
      c := Raw(text[p]);
    } else if p + 1 < |text| && Escaped(text[p + 1]).Some? {
      ShortIsEscaped(text[p + 1]);
      c := Short(text[p + 1]);
    } else if IsUnicode(text, p) && !IsSurrogate(Hex4(text, p + 2)) {
      var lower := EscapeWasWritten(text, p);
      c := Unicode(Hex4(text, p + 2), lower);
    } else {
      var high := EscapeWasWritten(text, p);
      var low := EscapeWasWritten(text, p + 6);
      PairWas(Hex4(text, p + 2), Hex4(text, p + 8));
      c := Pair(PairValue(Hex4(text, p + 2), Hex4(text, p + 8)), high, low);
      AtJoin(text, p, Escape(High(c.u), high), Escape(Low(c.u), low));
    }
  }

  // Strings.

  ghost predicate AllSpell(cs: seq<Spelled>) { forall i :: 0 <= i < |cs| ==> Spells(cs[i]) }

  ghost function Spellings(cs: seq<Spelled>): Text
    requires AllSpell(cs)
  {
    if cs == [] then [] else Spelling(cs[0]) + Spellings(cs[1..])
  }

  ghost function Meanings(cs: seq<Spelled>): Text
    requires AllSpell(cs)
  {
    if cs == [] then [] else Meaning(cs[0]) + Meanings(cs[1..])
  }

  function Rooms(cs: seq<Spelled>): nat { if cs == [] then 0 else Room(cs[0]) + Rooms(cs[1..]) }

  lemma {:induction false} SpellingsRead(text: Text, p: nat, cs: seq<Spelled>)
    requires AllSpell(cs) && At(text, p, Spellings(cs) + [QUOTE])
    ensures Decode(text, p) == Some(Chars(Meanings(cs), Rooms(cs), p + |Spellings(cs)|))
    decreases |cs|
  {
    hide *;
    hide Spelling, OneChar, Meaning;
    if cs == [] {
      NoSpellings(text, p, cs);
    } else {
      FirstSpelling(text, p, cs);
      CharReads(text, p, cs[0]);
      SpellingsRead(text, p + |Spelling(cs[0])|, cs[1..]);
      DecodeMore(text, p);
      SpellingsMore(cs);
    }
  }

  lemma NoSpellings(text: Text, p: nat, cs: seq<Spelled>)
    requires AllSpell(cs) && cs == [] && At(text, p, Spellings(cs) + [QUOTE])
    ensures Decode(text, p) == Some(Chars(Meanings(cs), Rooms(cs), p + |Spellings(cs)|))
  {
    assert Spellings(cs) + [QUOTE] == [QUOTE];
    AtIndex(text, p, [QUOTE], 0);
  }

  lemma SpellingsMore(cs: seq<Spelled>)
    requires AllSpell(cs) && cs != []
    ensures Spells(cs[0]) && AllSpell(cs[1..])
    ensures Spellings(cs) == Spelling(cs[0]) + Spellings(cs[1..])
    ensures Meanings(cs) == Meaning(cs[0]) + Meanings(cs[1..])
    ensures Rooms(cs) == Room(cs[0]) + Rooms(cs[1..])
  {
  }

  lemma FirstSpelling(text: Text, p: nat, cs: seq<Spelled>)
    requires AllSpell(cs) && cs != [] && At(text, p, Spellings(cs) + [QUOTE])
    ensures Spells(cs[0]) && AllSpell(cs[1..]) && At(text, p, Spelling(cs[0]))
    ensures At(text, p + |Spelling(cs[0])|, Spellings(cs[1..]) + [QUOTE])
  {
    hide At, Spelling, Spells;
    Assoc(Spelling(cs[0]), Spellings(cs[1..]), [QUOTE]);
    AtSplit(text, p, Spelling(cs[0]), Spellings(cs[1..]) + [QUOTE]);
  }

  lemma DecodeMore(text: Text, p: nat)
    requires p < |text| && text[p] != QUOTE && OneChar(text, p).Some?
    ensures var c := OneChar(text, p).value; var d := Decode(text, c.next);
            Decode(text, p) == if d.None? then None else Some(Chars(c.bytes + d.value.bytes, c.room + d.value.room, d.value.next))
  {
  }

  /** Every way to write a string between its quotes is read as the bytes it stands for. */
  lemma StringReads(text: Text, p: nat, cs: seq<Spelled>)
    requires AllSpell(cs) && At(text, p, [QUOTE] + Spellings(cs) + [QUOTE])
    ensures StringAt(text, p) ==
            if Rooms(cs) <= MAX_STRING then Some(Str(Meanings(cs), p + |Spellings(cs)| + 2)) else None
  {
    hide Decode, Meanings, Rooms, Spellings, At;
    Assoc([QUOTE], Spellings(cs), [QUOTE]);
    AtSplit(text, p, [QUOTE], Spellings(cs) + [QUOTE]);
    SpellingsRead(text, p + 1, cs);
  }

  /** What decodes was spelled. */
  lemma {:induction false} DecodedWasSpelled(text: Text, p: nat) returns (cs: seq<Spelled>)
    requires Decode(text, p).Some?
    ensures AllSpell(cs) && At(text, p, Spellings(cs) + [QUOTE])
    decreases |text| - p
  {
    hide OneChar, Spelling, At;
    if text[p] == QUOTE {
      cs := [];
      QuoteAt(text, p);
    } else {
      var c := CharWasSpelled(text, p);
      CharReads(text, p, c);
      var rest := DecodedWasSpelled(text, p + |Spelling(c)|);
      cs := [c] + rest;
      assert cs[1..] == rest;
      AtJoin(text, p, Spelling(c), Spellings(rest) + [QUOTE]);
      Assoc(Spelling(c), Spellings(rest), [QUOTE]);
    }
  }

  lemma QuoteAt(text: Text, p: nat)
    requires p < |text| && text[p] == QUOTE
    ensures At(text, p, Spellings([]) + [QUOTE])
  {
    assert Spellings([]) + [QUOTE] == [QUOTE];
  }

  /** A string that is accepted is a spelling, within the limit, of the bytes that are returned. */
  lemma StringWasSpelled(text: Text, p: nat) returns (cs: seq<Spelled>)
    requires p < |text| && text[p] == QUOTE && StringAt(text, p).Some?
    ensures AllSpell(cs) && At(text, p, [QUOTE] + Spellings(cs) + [QUOTE]) && Rooms(cs) <= MAX_STRING
    ensures StringAt(text, p).value.text == Meanings(cs)
  {
    cs := DecodedWasSpelled(text, p + 1);
    SpellingsRead(text, p + 1, cs);
    AtJoin(text, p, [QUOTE], Spellings(cs) + [QUOTE]);
    Assoc([QUOTE], Spellings(cs), [QUOTE]);
  }

  // Code points.

  type CodePoint = u: nat | u < 0x11_0000

  ghost function Raws(s: Text): seq<Spelled> { if s == [] then [] else [Raw(s[0])] + Raws(s[1..]) }

  /** The ways to write a code point: an escape of one of the three kinds, or its own UTF-8 sequence. */
  ghost predicate Writes(u: CodePoint, cs: seq<Spelled>) {
    && !(0xd800 <= u < 0xe000)
    && (|| (|cs| == 1 && cs[0].Short? && cs[0].letter in SHORT && SHORT[cs[0].letter] == u)
        || (|cs| == 1 && cs[0].Unicode? && cs[0].u == u && u < 0x1_0000)
        || (|cs| == 1 && cs[0].Pair? && cs[0].u == u && u >= 0x1_0000)
        || (cs == Raws(Utf8(u)) && u >= 0x20 && u != 0x22 && u != 0x5c))
  }

  lemma {:induction false} RawsMean(s: Text)
    requires forall i :: 0 <= i < |s| ==> Spells(Raw(s[i]))
    ensures AllSpell(Raws(s)) && Meanings(Raws(s)) == s
  {
    if s != [] {
      RawsMean(s[1..]);
      assert Raws(s)[1..] == Raws(s[1..]);
      assert s == [s[0]] + s[1..];
    }
  }

  lemma WritesMeans(u: CodePoint, cs: seq<Spelled>)
    requires Writes(u, cs)
    ensures AllSpell(cs) && Meanings(cs) == Utf8(u)
  {
    if |cs| == 1 && !cs[0].Raw? {
      assert Spells(cs[0]) && cs[1..] == [];
    } else {
      RawsMean(Utf8(u));
    }
  }

  ghost function Flat(css: seq<seq<Spelled>>): seq<Spelled> { if css == [] then [] else css[0] + Flat(css[1..]) }

  function AllUtf8(us: seq<CodePoint>): Text { if us == [] then [] else Utf8(us[0]) + AllUtf8(us[1..]) }

  ghost predicate AllWrite(us: seq<CodePoint>, css: seq<seq<Spelled>>) {
    |us| == |css| && forall i :: 0 <= i < |us| ==> Writes(us[i], css[i])
  }

  lemma {:induction false} MeaningsJoin(a: seq<Spelled>, b: seq<Spelled>)
    requires AllSpell(a) && AllSpell(b)
    ensures AllSpell(a + b) && Meanings(a + b) == Meanings(a) + Meanings(b)
    decreases |a|
  {
    hide Meaning, Spells;
    if a == [] {
      assert a + b == b;
    } else {
      MeaningsJoin(a[1..], b);
      assert (a + b)[1..] == a[1..] + b;
      Assoc(Meaning(a[0]), Meanings(a[1..]), Meanings(b));
    }
  }

  lemma {:induction false} FlatMeans(us: seq<CodePoint>, css: seq<seq<Spelled>>)
    requires AllWrite(us, css)
    ensures AllSpell(Flat(css)) && Meanings(Flat(css)) == AllUtf8(us)
    decreases |us|
  {
    if us != [] {
      WritesMeans(us[0], css[0]);
      FlatMeans(us[1..], css[1..]);
      MeaningsJoin(css[0], Flat(css[1..]));
    }
  }

  /** However the code points of a string are written, it is read as their UTF-8. */
  lemma CodePointsRead(text: Text, p: nat, us: seq<CodePoint>, css: seq<seq<Spelled>>)
    requires AllWrite(us, css)
    requires AllSpell(Flat(css)) && At(text, p, [QUOTE] + Spellings(Flat(css)) + [QUOTE])
    ensures StringAt(text, p) ==
            if Rooms(Flat(css)) <= MAX_STRING then Some(Str(AllUtf8(us), p + |Spellings(Flat(css))| + 2)) else None
  {
    hide *;
    FlatMeans(us, css);
    StringReads(text, p, Flat(css));
  }
}
