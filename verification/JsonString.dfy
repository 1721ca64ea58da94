/**
  JSON strings: the reference decoder of section 7 of RFC 8259, and the two
  passes of nxt_conf_json_parse_string().
 */
module JsonString {
  import opened Bytes

  const MAX_STRING: nat := 0x7fff_ffff

  const LETTER_U: Byte := 117

  /** A decoded stretch: its bytes, the room the decoder sets aside for them, and the position after it. */
  datatype Chars = Chars(bytes: Text, room: nat, next: nat)

  predicate IsHex(b: Byte) { 48 <= b <= 57 || 65 <= b <= 70 || 97 <= b <= 102 }

  function HexValue(b: Byte): (v: nat)
    requires IsHex(b)
    ensures v < 16
  {
    if b <= 57 then b - 48 else if b <= 70 then b - 55 else b - 87
  }

  predicate IsHex4(text: Text, p: nat) {
    p + 4 <= |text| && IsHex(text[p]) && IsHex(text[p + 1]) && IsHex(text[p + 2]) && IsHex(text[p + 3])
  }

  function Hex4(text: Text, p: nat): (v: nat)
    requires IsHex4(text, p)
    ensures v < 0x1_0000
  {
    16 * (16 * (16 * HexValue(text[p]) + HexValue(text[p + 1])) + HexValue(text[p + 2])) + HexValue(text[p + 3])
  }

  /** nxt_utf8_encode() */
  function Utf8(u: nat): (r: Text)
    requires u < 0x11_0000
    ensures 1 <= |r| <= 4 && (|r| == 4 <==> u >= 0x1_0000)
    ensures u < 0x80 ==> r == [u]
    ensures u >= 0x80 ==> forall i :: 0 <= i < |r| ==> r[i] >= 0x80
  {
    if u < 0x80 then [u]
    else if u < 0x800 then [0xc0 + u / 64, 0x80 + u % 64]
    else if u < 0x1_0000 then [0xe0 + u / 4096, 0x80 + u / 64 % 64, 0x80 + u % 64]
    else [0xf0 + u / 262144, 0x80 + u / 4096 % 64, 0x80 + u / 64 % 64, 0x80 + u % 64]
  }

  /** The byte a two-character escape stands for. */
  function Escaped(b: Byte): Option<Byte> {
    if b == QUOTE || b == BACKSLASH || b == SLASH then Some(b)
    else if b == 110 then Some(NEWLINE)
    else if b == 114 then Some(RETURN)
    else if b == 116 then Some(TAB)
    else if b == 98 then Some(BACKSPACE)
    else if b == 102 then Some(FORM_FEED)
    else None
  }

  /** The source text has \\uXXXX at p. */
  predicate IsUnicode(text: Text, p: nat) {
    IsHex4(text, p + 2) && text[p] == BACKSLASH && text[p + 1] == LETTER_U
  }

  predicate IsSurrogate(u: nat) { 0xd800 <= u <= 0xdfff }

  predicate IsPair(text: Text, p: nat) {
    && IsUnicode(text, p) && IsUnicode(text, p + 6)
    && 0xd800 <= Hex4(text, p + 2) <= 0xdbff && 0xdc00 <= Hex4(text, p + 8) <= 0xdfff
  }

  /** The character of a surrogate pair. */
  function PairValue(high: nat, low: nat): (u: nat)
    requires 0xd800 <= high <= 0xdbff && 0xdc00 <= low <= 0xdfff
    ensures 0x1_0000 <= u < 0x11_0000
  {
    (high - 0xd800) * 0x400 + (low - 0xdc00) + 0x1_0000
  }

  /** One character of a string, text[p] not being the closing quote. */
  function OneChar(text: Text, p: nat): (r: Option<Chars>)
    requires p < |text| && text[p] != QUOTE
    ensures r.Some? ==> 1 <= |r.value.bytes| <= r.value.room && p + r.value.room <= r.value.next <= |text|
  {
    if text[p] < SPACE then None
    else if text[p] != BACKSLASH then Some(Chars([text[p]], 1, p + 1))
    else if p + 1 < |text| && Escaped(text[p + 1]).Some? then Some(Chars([Escaped(text[p + 1]).value], 1, p + 2))
    else if IsUnicode(text, p) && !IsSurrogate(Hex4(text, p + 2)) then Some(Chars(Utf8(Hex4(text, p + 2)), 3, p + 6))
    else if IsPair(text, p) then Some(Chars(Utf8(PairValue(Hex4(text, p + 2), Hex4(text, p + 8))), 6, p + 12))
    else None
  }

  /** The characters from p up to the closing quote, and the position of the quote. */
  function Decode(text: Text, p: nat): (r: Option<Chars>)
    ensures r.Some? ==> |r.value.bytes| <= r.value.room && p <= r.value.next < |text|
    decreases |text| - p
  {
    if p >= |text| then None
    else if text[p] == QUOTE then Some(Chars([], 0, p))
    else match OneChar(text, p)
      case None => None
      case Some(c) => match Decode(text, c.next)
        case None => None
        case Some(d) => Some(Chars(c.bytes + d.bytes, c.room + d.room, d.next))
  }

  datatype Str = Str(text: Text, end: nat)

  /** The string at the quote text[p]: its bytes, and the position after its closing quote. */
  function StringAt(text: Text, p: nat): (r: Option<Str>)
    ensures r.Some? ==> p + 1 < r.value.end <= |text|
  {
    match Decode(text, p + 1)
    case None => None
    case Some(c) => if c.room <= MAX_STRING then Some(Str(c.bytes, c.next + 1)) else None
  }

  // The first pass: it finds the closing quote and counts the bytes that decoding drops.

  /** The closing quote, and the room for what stands before it. */
  datatype Scanned = Scanned(last: nat, room: nat)

  function Plus(room: nat, r: Option<Scanned>): Option<Scanned> {
    if r.None? then None else Some(Scanned(r.value.last, room + r.value.room))
  }

  /** The first pass does not look at surrogates. */
  function Scan(text: Text, p: nat): (r: Option<Scanned>)
    ensures r.Some? ==> p + r.value.room <= r.value.last < |text|
    decreases |text| - p
  {
    if p >= |text| then None
    else if text[p] == QUOTE then Some(Scanned(p, 0))
    else if text[p] < SPACE then None
    else if text[p] != BACKSLASH then Plus(1, Scan(text, p + 1))
    else if p + 1 < |text| && Escaped(text[p + 1]).Some? then Plus(1, Scan(text, p + 2))
    else if IsUnicode(text, p) then Plus(3, Scan(text, p + 6))
    else None
  }

  lemma {:induction false} ScanStopsAtQuote(text: Text, p: nat)
    requires Scan(text, p).Some?
    ensures text[Scan(text, p).value.last] == QUOTE
    ensures Scan(text, p).value.last == p <==> text[p] == QUOTE
    decreases |text| - p
  {
    if text[p] != QUOTE {
      if text[p] != BACKSLASH { ScanStopsAtQuote(text, p + 1); }
      else if Escaped(text[p + 1]).Some? { ScanStopsAtQuote(text, p + 2); }
      else { ScanStopsAtQuote(text, p + 6); }
    }
  }

  /** Both passes walk over the same characters: the room they count is the same. */
  lemma ScanOneChar(text: Text, p: nat)
    requires p < |text| && text[p] != QUOTE && OneChar(text, p).Some?
    ensures Scan(text, p) == Plus(OneChar(text, p).value.room, Scan(text, OneChar(text, p).value.next))
  {
    if text[p] == BACKSLASH && Escaped(text[p + 1]).None? && IsPair(text, p) {
      assert Scan(text, p + 6) == Plus(3, Scan(text, p + 12));
    }
  }

  /** What decodes was scanned, up to the same closing quote. */
  lemma {:induction false} ScanDecode(text: Text, p: nat)
    requires Decode(text, p).Some?
    ensures Scan(text, p) == Some(Scanned(Decode(text, p).value.next, Decode(text, p).value.room))
    decreases |text| - p
  {
    if text[p] != QUOTE {
      ScanOneChar(text, p);
      ScanDecode(text, OneChar(text, p).value.next);
    }
  }

  /** Where the scan stands inside an escape. */
  datatype Place = Usual | Escape | Encoded(digits: nat)

  /** How many bytes of the escape it has read. */
  function Back(state: Place): nat {
    match state case Usual => 0 case Escape => 1 case Encoded(d) => 2 + d
  }

  ghost predicate AtPlace(text: Text, p: nat, state: Place) {
    && Back(state) <= p <= |text|
    && (state != Usual ==> text[p - Back(state)] == BACKSLASH)
    && (state.Encoded? ==>
          && state.digits < 4
          && text[p - Back(state) + 1] == LETTER_U
          && forall i :: p - state.digits <= i < p ==> IsHex(text[i]))
  }

  /** The scan from `start` has passed everything before q. */
  ghost predicate Walked(text: Text, start: nat, q: nat, room: nat) {
    Scan(text, start) == Plus(room, Scan(text, q))
  }

  lemma WalkStarts(text: Text, start: nat)
    ensures Walked(text, start, start, 0)
  {
  }

  lemma WalkEnds(text: Text, start: nat, p: nat, room: nat)
    requires p < |text| && text[p] == QUOTE && Walked(text, start, p, room)
    ensures Scan(text, start) == Some(Scanned(p, room))
  {
  }

  lemma WalkUsual(text: Text, start: nat, p: nat, room: nat)
    requires p < |text| && text[p] != QUOTE && text[p] != BACKSLASH && text[p] >= SPACE && Walked(text, start, p, room)
    ensures Walked(text, start, p + 1, room + 1)
  {
  }

  lemma WalkEscape(text: Text, start: nat, p: nat, room: nat)
    requires 0 < p < |text| && text[p - 1] == BACKSLASH && Escaped(text[p]).Some? && Walked(text, start, p - 1, room)
    ensures Walked(text, start, p + 1, room + 1)
  {
  }

  lemma WalkEncoded(text: Text, start: nat, p: nat, room: nat)
    requires AtPlace(text, p, Encoded(3)) && p < |text| && IsHex(text[p]) && Walked(text, start, p - 5, room)
    ensures Walked(text, start, p + 1, room + 3)
  {
    assert IsUnicode(text, p - 5);
  }

  lemma WalkFails(text: Text, start: nat, p: nat, state: Place, room: nat)
    requires AtPlace(text, p, state) && Walked(text, start, p - Back(state), room)
    requires p == |text|
          || (state == Usual && text[p] != QUOTE && text[p] < SPACE)
          || (state == Escape && Escaped(text[p]).None? && text[p] != LETTER_U)
          || (state.Encoded? && !IsHex(text[p]))
    ensures Scan(text, start) == None
  {
    match state
    case Encoded(d) => assert !IsUnicode(text, p - 2 - d);
    case _ =>
  }

  /** The closing quote and the surplus, if every character before it is well formed. */
  method FindEnd(text: Text, start: nat) returns (r: Option<(nat, nat)>)
    requires start <= |text|
    ensures r.Some? == Scan(text, start).Some?
    ensures r.Some? ==> r.value.0 == Scan(text, start).value.last
    ensures r.Some? ==> r.value.0 - start == r.value.1 + Scan(text, start).value.room
  {
    hide Scan;
    var state, surplus, p := Usual, 0, start;
    ghost var q, room := start, 0;
    WalkStarts(text, start);
    while p < |text|
      invariant AtPlace(text, p, state) && start <= q == p - Back(state)
      invariant surplus + room == q - start + if state.Encoded? then 3 else 0
      invariant Walked(text, start, q, room)
    {
      var ch := text[p];
      match state {
        case Usual =>
          if ch == QUOTE {
            WalkEnds(text, start, p, room);
            return Some((p, surplus));
          } else if ch == BACKSLASH {
            state, p := Escape, p + 1;
            continue;
          } else if ch < SPACE {
            WalkFails(text, start, p, state, room);
            return None;
          }
          WalkUsual(text, start, p, room);
          p, q, room := p + 1, q + 1, room + 1;
          continue;
        case Escape =>
          if ch == LETTER_U {
            surplus, state, p := surplus + 3, Encoded(0), p + 1;
            continue;
          } else if Escaped(ch).None? {
            WalkFails(text, start, p, state, room);
            return None;
          }
          WalkEscape(text, start, p, room);
          surplus, state, p, q, room := surplus + 1, Usual, p + 1, q + 2, room + 1;
          continue;
        case Encoded(d) =>
          if !IsHex(ch) {
            WalkFails(text, start, p, state, room);
            return None;
          } else if d < 3 {
            state, p := Encoded(d + 1), p + 1;
            continue;
          }
          WalkEncoded(text, start, p, room);
          state, p, q, room := Usual, p + 1, q + 6, room + 3;
          continue;
      }
    }
    WalkFails(text, start, p, state, room);
    r := None;
  }

  // The second pass.

  method ReadHex4(text: Text, p: nat) returns (utf: nat)
    requires IsHex4(text, p)
    ensures utf == Hex4(text, p)
  {
    utf := 0;
    for i := 0 to 4
      invariant i == 0 ==> utf == 0
      invariant i == 1 ==> utf == HexValue(text[p])
      invariant i == 2 ==> utf == 16 * HexValue(text[p]) + HexValue(text[p + 1])
      invariant i == 3 ==> utf == 16 * (16 * HexValue(text[p]) + HexValue(text[p + 1])) + HexValue(text[p + 2])
      invariant i == 4 ==> utf == Hex4(text, p)
    {
      utf := 16 * utf + HexValue(text[p + i]);
    }
  }

  /** The character at p, which the first pass has checked. */
  method ReadChar(text: Text, p: nat) returns (r: Option<(Text, nat)>)
    requires p < |text| && text[p] != QUOTE && Scan(text, p).Some?
    ensures r.Some? == OneChar(text, p).Some?
    ensures r.Some? ==> r.value == (OneChar(text, p).value.bytes, OneChar(text, p).value.next)
  {
    if text[p] != BACKSLASH { return Some(([text[p]], p + 1)); }
    var escaped := Escaped(text[p + 1]);
    if escaped.Some? { return Some(([escaped.value], p + 2)); }
    assert Scan(text, p + 6).Some?;
    var utf := ReadHex4(text, p + 2);
    if !IsSurrogate(utf) { return Some((Utf8(utf), p + 6)); }
    if utf > 0xdbff || text[p + 6] != BACKSLASH || text[p + 7] != LETTER_U { return None; }
    assert IsUnicode(text, p + 6);
    var low := ReadHex4(text, p + 8);
    if low < 0xdc00 || low > 0xdfff { return None; }
    r := Some((Utf8(PairValue(utf, low)), p + 12));
  }

  /** Bytes copied to a buffer from position s on; nothing before s changes. */
  method Copy(buffer: array<Byte>, s: nat, bytes: Text)
    requires s + |bytes| <= buffer.Length
    modifies buffer
    ensures buffer[..s + |bytes|] == old(buffer[..s]) + bytes
  {
    for k := 0 to |bytes|
      invariant buffer[..s + k] == old(buffer[..s]) + bytes[..k]
    {
      buffer[s + k] := bytes[k];
    }
    assert bytes[..|bytes|] == bytes;
  }

  /** The bytes before p decode to `before`. */
  ghost predicate Filled(text: Text, start: nat, p: nat, before: Text) {
    var whole, rest := Decode(text, start), Decode(text, p);
    if rest.None? then whole.None? else whole.Some? && whole.value.bytes == before + rest.value.bytes
  }

  lemma FilledStep(text: Text, start: nat, p: nat, before: Text)
    requires p < |text| && text[p] != QUOTE && Filled(text, start, p, before)
    ensures match OneChar(text, p)
            case Some(c) => Filled(text, start, c.next, before + c.bytes)
            case None => Decode(text, start).None?
  {
    if OneChar(text, p).Some? {
      var c := OneChar(text, p).value;
      var rest := Decode(text, c.next);
      if rest.Some? {
        assert before + (c.bytes + rest.value.bytes) == (before + c.bytes) + rest.value.bytes;
      }
    }
  }

  /** At p, `before` is decoded and what is left has room in a buffer of the given size. */
  ghost predicate Filling(text: Text, start: nat, last: nat, size: nat, p: nat, before: Text) {
    && Scan(text, p).Some? && Scan(text, p).value.last == last
    && |before| + Scan(text, p).value.room <= size
    && Filled(text, start, p, before)
  }

  lemma FillingStep(text: Text, start: nat, last: nat, size: nat, p: nat, before: Text)
    requires Filling(text, start, last, size, p, before) && p != last
    ensures p < |text| && text[p] != QUOTE
    ensures match OneChar(text, p)
            case Some(c) => c.next <= last && |before| + |c.bytes| <= size && Filling(text, start, last, size, c.next, before + c.bytes)
            case None => Decode(text, start).None?
  {
    ScanStopsAtQuote(text, p);
    FilledStep(text, start, p, before);
    if OneChar(text, p).Some? { ScanOneChar(text, p); }
  }

  lemma FillingEnd(text: Text, start: nat, last: nat, size: nat, before: Text)
    requires Filling(text, start, last, size, last, before)
    ensures Decode(text, start).Some? && Decode(text, start).value.bytes == before
  {
    ScanStopsAtQuote(text, last);
    assert before + [] == before;
  }

  lemma FillingStart(text: Text, start: nat, last: nat, size: nat)
    requires Scan(text, start) == Some(Scanned(last, size))
    ensures start <= last && Filling(text, start, last, size, start, [])
  {
    if Decode(text, start).Some? { assert [] + Decode(text, start).value.bytes == Decode(text, start).value.bytes; }
  }

  /** The second pass looks at what the first one has scanned. */
  lemma FillingScanned(text: Text, start: nat, last: nat, size: nat, p: nat, before: Text)
    requires Filling(text, start, last, size, p, before)
    ensures Scan(text, p).Some?
  {
  }

  /** Decoded bytes go to a buffer of exactly the room that the first pass counted. */
  method FillString(text: Text, start: nat, last: nat, buffer: array<Byte>) returns (r: Option<nat>)
    requires Scan(text, start) == Some(Scanned(last, buffer.Length))
    modifies buffer
    ensures r.Some? == Decode(text, start).Some?
    ensures r.Some? ==> r.value <= buffer.Length && buffer[..r.value] == Decode(text, start).value.bytes
  {
    hide Scan, Decode, OneChar;
    FillingStart(text, start, last, buffer.Length);
    var p: nat, s: nat := start, 0;
    assert buffer[..s] == [];
    while p != last
      invariant start <= p <= last && s <= buffer.Length
      invariant Filling(text, start, last, buffer.Length, p, buffer[..s])
      decreases last - p
    {
      FillingStep(text, start, last, buffer.Length, p, buffer[..s]);
      FillingScanned(text, start, last, buffer.Length, p, buffer[..s]);
      var read := ReadChar(text, p);
      if read == None { return None; }
      Copy(buffer, s, read.value.0);
      s, p := s + |read.value.0|, read.value.1;
    }
    FillingEnd(text, start, last, buffer.Length, buffer[..s]);
    r := Some(s);
  }

  method ParseString(text: Text, start: nat) returns (r: Option<Str>)
    requires start < |text|
    ensures r == StringAt(text, start)
  {
    hide Scan, Decode;
    var found := FindEnd(text, start + 1);
    if Decode(text, start + 1).Some? { ScanDecode(text, start + 1); }
    if found == None { return None; }
    var (last, surplus) := found.value;
    var size := last - (start + 1) - surplus;
    if size > MAX_STRING { return None; }
    if surplus == 0 {
      NothingEscaped(text, start + 1);
      return Some(Str(text[start + 1..last], last + 1));
    }
    var buffer := new Byte[size];
    var filled := FillString(text, start + 1, last, buffer);
    if filled == None { return None; }
    r := Some(Str(buffer[..filled.value], last + 1));
  }

  /** Without a surplus the bytes are copied as they are. */
  lemma {:induction false} NothingEscaped(text: Text, p: nat)
    requires Scan(text, p).Some? && Scan(text, p).value.room == Scan(text, p).value.last - p
    ensures var last := Scan(text, p).value.last; Decode(text, p) == Some(Chars(text[p..last], last - p, last))
    decreases |text| - p
  {
    hide IsUnicode, IsPair, Utf8, Escaped, IsSurrogate;
    if text[p] != QUOTE {
      NothingEscaped(text, p + 1);
      var last := Scan(text, p).value.last;
      assert text[p..last] == [text[p]] + text[p + 1..last];
    }
  }
}
