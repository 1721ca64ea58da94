/** The printers and the sizing passes: nxt_conf_json_print() and nxt_conf_json_length(). */
module JsonPrint {
  import opened Bytes
  import opened JsonValue
  import Str = JsonString

  // Strings.

  /** The letter of a two-character escape, for the control bytes that have one. */
  function ShortEscape(b: Byte): Option<Byte> {
    if b == NEWLINE then Some(110)
    else if b == RETURN then Some(114)
    else if b == TAB then Some(116)
    else if b == BACKSPACE then Some(98)
    else if b == FORM_FEED then Some(102)
    else None
  }

  function HexDigit(d: nat): (b: Byte)
    requires d < 16
    ensures Str.IsHex(b) && Str.HexValue(b) == d
  {
    if d < 10 then 48 + d else 55 + d
  }

  function EscapeByte(b: Byte): Text {
    if b >= SPACE then if b == BACKSLASH || b == QUOTE then [BACKSLASH, b] else [b]
    else match ShortEscape(b)
      case Some(letter) => [BACKSLASH, letter]
      case None => [BACKSLASH, Str.LETTER_U, ZERO, ZERO, HexDigit(b / 16), HexDigit(b % 16)]
  }

  function Escape(s: Text): Text { if s == [] then [] else EscapeByte(s[0]) + Escape(s[1..]) }

  function Quoted(s: Text): Text { [QUOTE] + Escape(s) + [QUOTE] }

  // Values.

  datatype Printed = Printed(text: Text, more: bool)

  function Newline(): Text { [RETURN, NEWLINE] }

  function Indent(level: nat): Text { seq(level, _ => TAB) }

  /** The compact printer does not count levels. */
  function Deeper(pretty: bool, level: nat): nat { if pretty then level + 1 else level }

  function Break(pretty: bool, level: nat): Text { if pretty then Newline() + Indent(level) else [] }

  /** `level` and `more` are the fields of nxt_conf_json_pretty_t; the compact printer leaves them alone. */
  function Print(v: Value, pretty: bool, level: nat, more: bool): Printed
    decreases v
  {
    match v
    case Null => Printed(NULL_TEXT, more)
    case Boolean(b) => Printed(if b then TRUE_TEXT else FALSE_TEXT, more)
    case Number(text, _) => Printed(text, more)
    case String(text) => Printed(Quoted(text), more)
    case Array(es) =>
      if es == [] then Printed([OPEN_BRACKET, CLOSE_BRACKET], more)
      else
        var first := Print(es[0], pretty, Deeper(pretty, level), more);
        var rest := PrintElements(es, 1, pretty, Deeper(pretty, level), first.more);
        Printed([OPEN_BRACKET] + Break(pretty, Deeper(pretty, level)) + first.text + rest.text + Break(pretty, level)
                  + [CLOSE_BRACKET],
                if pretty then true else rest.more)
    case Object(ms) =>
      if ms == [] then Printed([OPEN_BRACE, CLOSE_BRACE], more)
      else
        var all := PrintMembers(ms, 0, pretty, Deeper(pretty, level), more);
        Printed([OPEN_BRACE] + (if pretty then Newline() else []) + all.text + Break(pretty, level) + [CLOSE_BRACE],
                if pretty then true else all.more)
  }

  /** The elements from n on, each after a comma. */
  function PrintElements(es: seq<Value>, n: nat, pretty: bool, level: nat, more: bool): Printed
    requires n <= |es|
    decreases es, |es| - n
  {
    if n == |es| then Printed([], more)
    else
      var a := Print(es[n], pretty, level, if pretty then false else more);
      var rest := PrintElements(es, n + 1, pretty, level, a.more);
      Printed([COMMA] + Break(pretty, level) + a.text + rest.text, rest.more)
  }

  function MemberHead(name: Text, pretty: bool, level: nat): Text {
    (if pretty then Indent(level) else []) + Quoted(name) + [COLON] + (if pretty then [SPACE] else [])
  }

  /** What separates two members; an object or array that was not empty is followed by an empty line. */
  function MemberBreak(pretty: bool, more: bool): Text {
    [COMMA] + if pretty then if more then Newline() + Newline() else Newline() else []
  }

  /** The members from n on. */
  function PrintMembers(ms: seq<Member>, n: nat, pretty: bool, level: nat, more: bool): Printed
    requires n < |ms|
    decreases ms, |ms| - n
  {
    var head := MemberHead(ms[n].name, pretty, level);
    var a := Print(ms[n].value, pretty, level, more);
    if n + 1 == |ms| then Printed(head + a.text, a.more)
    else
      var rest := PrintMembers(ms, n + 1, pretty, level, if pretty then false else a.more);
      Printed(head + a.text + MemberBreak(pretty, a.more) + rest.text, rest.more)
  }

  // Sizes.

  function EscapeLength(s: Text): nat {
    if s == [] then 0 else |EscapeByte(s[0])| + EscapeLength(s[1..])
  }

  function QuotedLength(s: Text): nat { 2 + EscapeLength(s) }

  /** The room that is set aside, were the sums exact. */
  function Length(v: Value, pretty: bool, level: nat): nat
    decreases v
  {
    match v
    case Null => 4
    case Boolean(b) => if b then 4 else 5
    case Number(text, _) => |text|
    case String(text) => QuotedLength(text)
    case Array(es) =>
      2 + ElementsLength(es, 0, pretty, Deeper(pretty, level)) + (if pretty && es != [] then level + 2 else 0) + |es|
    case Object(ms) =>
      2 + MembersLength(ms, 0, pretty, Deeper(pretty, level)) + (if pretty then level + 2 else 0)
  }

  function ElementsLength(es: seq<Value>, n: nat, pretty: bool, level: nat): nat
    requires n <= |es|
    decreases es, |es| - n
  {
    if n == |es| then 0
    else Length(es[n], pretty, level) + (if pretty then level + 2 else 0) + ElementsLength(es, n + 1, pretty, level)
  }

  function MembersLength(ms: seq<Member>, n: nat, pretty: bool, level: nat): nat
    requires n <= |ms|
    decreases ms, |ms| - n
  {
    if n == |ms| then 0
    else QuotedLength(ms[n].name) + Length(ms[n].value, pretty, level) + 2 + (if pretty then level + 5 else 0)
         + MembersLength(ms, n + 1, pretty, level)
  }

  lemma {:induction false} EscapeFits(s: Text)
    ensures |Escape(s)| == EscapeLength(s)
  {
    if s != [] { EscapeFits(s[1..]); }
  }

  /** The printers write no more than the room set aside, in both modes and at any nesting. */
  lemma {:induction false} PrintFits(v: Value, pretty: bool, level: nat, more: bool)
    ensures |Print(v, pretty, level, more).text| <= Length(v, pretty, level)
    decreases v
  {
    match v
    case String(text) => EscapeFits(text);
    case Array(es) =>
      if es != [] {
        PrintFits(es[0], pretty, Deeper(pretty, level), more);
        ElementsFit(es, 1, pretty, Deeper(pretty, level), Print(es[0], pretty, Deeper(pretty, level), more).more);
      }
    case Object(ms) =>
      if ms != [] { MembersFit(ms, 0, pretty, Deeper(pretty, level), more); }
    case _ =>
  }

  lemma {:induction false} ElementsFit(es: seq<Value>, n: nat, pretty: bool, level: nat, more: bool)
    requires n <= |es|
    ensures |PrintElements(es, n, pretty, level, more).text| <= ElementsLength(es, n, pretty, level) + |es| - n
    decreases es, |es| - n
  {
    if n < |es| {
      var before := if pretty then false else more;
      PrintFits(es[n], pretty, level, before);
      ElementsFit(es, n + 1, pretty, level, Print(es[n], pretty, level, before).more);
    }
  }

  lemma {:induction false} MembersFit(ms: seq<Member>, n: nat, pretty: bool, level: nat, more: bool)
    requires n < |ms|
    ensures |PrintMembers(ms, n, pretty, level, more).text| + (if pretty then 5 else 1) <= MembersLength(ms, n, pretty, level)
    decreases ms, |ms| - n
  {
    EscapeFits(ms[n].name);
    PrintFits(ms[n].value, pretty, level, more);
    if n + 1 < |ms| {
      var a := Print(ms[n].value, pretty, level, more);
      MembersFit(ms, n + 1, pretty, level, if pretty then false else a.more);
    }
  }

  // The sizing pass.

  function Capped(n: nat): nat { if n > SIZE_MAX then SIZE_MAX else n }

  /** nxt_conf_json_length_add() */
  function LengthAdd(len: nat, n: nat): nat { if len + n > SIZE_MAX then SIZE_MAX else len + n }

  lemma AddCapped(a: nat, n: nat)
    ensures LengthAdd(Capped(a), n) == Capped(a + n) == LengthAdd(Capped(a), Capped(n))
  {
  }

  method SizeEscape(s: Text) returns (len: nat)
    requires |s| <= SIZE_MAX
    ensures len == Capped(EscapeLength(s))
  {
    len := |s|;
    ghost var exact: nat := |s|;
    assert s[0..] == s;
    for i := 0 to |s|
      invariant len == Capped(exact) && exact + EscapeLength(s[i..]) == EscapeLength(s) + |s| - i
    {
      assert s[i..][1..] == s[i + 1..];
      var ch := s[i];
      if ch == BACKSLASH || ch == QUOTE {
        len := LengthAdd(len, 1);
      } else if ch < SPACE {
        len := LengthAdd(len, if ShortEscape(ch).Some? then 1 else 5);
      }
      exact := exact + |EscapeByte(ch)| - 1;
    }
  }

  method SizeString(s: Text) returns (len: nat)
    requires |s| <= SIZE_MAX
    ensures len == Capped(QuotedLength(s))
  {
    var n := SizeEscape(s);
    len := LengthAdd(2, n);
  }

  lemma TwoIsCapped()
    ensures 2 == Capped(2)
  {
  }

  lemma ElementsLengthIs(es: seq<Value>, n: nat, pretty: bool, level: nat)
    requires n <= |es|
    ensures ElementsLength(es, n, pretty, level)
         == if n == |es| then 0
            else Length(es[n], pretty, level) + (if pretty then level + 2 else 0) + ElementsLength(es, n + 1, pretty, level)
  {
  }

  lemma MembersLengthIs(ms: seq<Member>, n: nat, pretty: bool, level: nat)
    requires n <= |ms|
    ensures MembersLength(ms, n, pretty, level)
         == if n == |ms| then 0
            else QuotedLength(ms[n].name) + Length(ms[n].value, pretty, level) + 2 + (if pretty then level + 5 else 0)
                 + MembersLength(ms, n + 1, pretty, level)
  {
  }

  /** Values fit in memory: no string is longer than a size_t can say. */
  ghost predicate InMemory(v: Value)
    decreases v
  {
    match v
    case Number(text, _) => |text| <= SIZE_MAX
    case String(text) => |text| <= SIZE_MAX
    case Array(es) => |es| <= SIZE_MAX && forall i :: 0 <= i < |es| ==> InMemory(es[i])
    case Object(ms) => forall i :: 0 <= i < |ms| ==> |ms[i].name| <= SIZE_MAX && InMemory(ms[i].value)
    case _ => true
  }

  // What is written, piece by piece.

  lemma EmptyArrayText(w: Text, pretty: bool, level: nat, more: bool)
    ensures Print(Array([]), pretty, level, more) == Printed([OPEN_BRACKET, CLOSE_BRACKET], more)
    ensures w + [OPEN_BRACKET, CLOSE_BRACKET] == w + [OPEN_BRACKET] + [CLOSE_BRACKET]
  {
  }

  lemma ArrayText(w: Text, es: seq<Value>, pretty: bool, level: nat, more: bool)
    requires es != []
    ensures var first := Print(es[0], pretty, Deeper(pretty, level), more);
            var rest := PrintElements(es, 1, pretty, Deeper(pretty, level), first.more);
            var all := Print(Array(es), pretty, level, more);
            && w + all.text == w + [OPEN_BRACKET] + Break(pretty, Deeper(pretty, level)) + first.text + rest.text
                                 + Break(pretty, level) + [CLOSE_BRACKET]
            && |all.text| == 2 + |Break(pretty, Deeper(pretty, level))| + |first.text| + |rest.text| + |Break(pretty, level)|
            && all.more == if pretty then true else rest.more
  {
    hide Break;
    var first := Print(es[0], pretty, Deeper(pretty, level), more);
    var rest := PrintElements(es, 1, pretty, Deeper(pretty, level), first.more);
    var t1 := [OPEN_BRACKET] + Break(pretty, Deeper(pretty, level));
    Assoc(w, [OPEN_BRACKET], Break(pretty, Deeper(pretty, level)));
    Assoc(w, t1, first.text);
    Assoc(w, t1 + first.text, rest.text);
    Assoc(w, t1 + first.text + rest.text, Break(pretty, level));
    Assoc(w, t1 + first.text + rest.text + Break(pretty, level), [CLOSE_BRACKET]);
  }

  lemma EmptyObjectText(w: Text, pretty: bool, level: nat, more: bool)
    ensures Print(Object([]), pretty, level, more) == Printed([OPEN_BRACE, CLOSE_BRACE], more)
    ensures w + [OPEN_BRACE, CLOSE_BRACE] == w + [OPEN_BRACE] + [CLOSE_BRACE]
  {
  }

  lemma ObjectText(w: Text, ms: seq<Member>, pretty: bool, level: nat, more: bool)
    requires ms != []
    ensures var members := PrintMembers(ms, 0, pretty, Deeper(pretty, level), more);
            var all := Print(Object(ms), pretty, level, more);
            && w + all.text == (if pretty then w + [OPEN_BRACE] + Newline() else w + [OPEN_BRACE])
                                 + members.text + Break(pretty, level) + [CLOSE_BRACE]
            && |all.text| == 2 + (if pretty then 2 else 0) + |members.text| + |Break(pretty, level)|
            && all.more == if pretty then true else members.more
  {
    hide Break;
    var members := PrintMembers(ms, 0, pretty, Deeper(pretty, level), more);
    var t1 := [OPEN_BRACE] + if pretty then Newline() else [];
    assert w + t1 == if pretty then w + [OPEN_BRACE] + Newline() else w + [OPEN_BRACE];
    Assoc(w, t1, members.text);
    Assoc(w, t1 + members.text, Break(pretty, level));
    Assoc(w, t1 + members.text + Break(pretty, level), [CLOSE_BRACE]);
  }

  /** nxt_conf_json_pretty_t and the output buffer. */
  class Printer {
    const pretty: bool
    const buffer: array<Byte>
    var level: nat
    var more: bool
    var pos: nat
    ghost var written: Text

    constructor (pretty: bool, buffer: array<Byte>)
      ensures this.pretty == pretty && this.buffer == buffer && level == 0 && !more && pos == 0 && Valid()
    {
      this.pretty, this.buffer, level, more, pos, written := pretty, buffer, 0, false, 0, [];
    }

    /** The exact size, or SIZE_MAX when it does not fit. */
    method Size(v: Value) returns (len: nat)
      requires InMemory(v)
      modifies this`level
      ensures len == Capped(Length(v, pretty, level)) && level == old(level)
      decreases v
    {
      match v
      case Null => len := 4;
      case Boolean(b) => len := if b then 4 else 5;
      case Number(text, _) => len := |text|;
      case String(text) => len := SizeString(text);
      case Array(es) => len := SizeArray(es);
      case Object(ms) => len := SizeObject(ms);
    }

    method SizeArray(es: seq<Value>) returns (len: nat)
      requires InMemory(Array(es))
      modifies this`level
      ensures len == Capped(Length(Array(es), pretty, level)) && level == old(level)
      decreases es
    {
      hide Capped, LengthAdd, ElementsLength;
      TwoIsCapped();
      len := 2;
      if pretty { level := level + 1; }
      ghost var exact: nat := 2;
      for n := 0 to |es|
        invariant level == Deeper(pretty, old(level)) && len == Capped(exact)
        invariant exact + ElementsLength(es, n, pretty, level) == 2 + ElementsLength(es, 0, pretty, level)
      {
        ElementsLengthIs(es, n, pretty, level);
        var size := Size(es[n]);
        AddCapped(exact, Length(es[n], pretty, level));
        len := LengthAdd(len, size);
        exact := exact + Length(es[n], pretty, level);
        if pretty {
          AddCapped(exact, level + 2);
          len := LengthAdd(len, level + 2);
          exact := exact + level + 2;
        }
      }
      ElementsLengthIs(es, |es|, pretty, level);
      if pretty {
        level := level - 1;
        if |es| != 0 {
          AddCapped(exact, level + 2);
          len := LengthAdd(len, level + 2);
          exact := exact + level + 2;
        }
      }
      AddCapped(exact, |es|);
      len := LengthAdd(len, |es|);
    }

    method SizeObject(ms: seq<Member>) returns (len: nat)
      requires InMemory(Object(ms))
      modifies this`level
      ensures len == Capped(Length(Object(ms), pretty, level)) && level == old(level)
      decreases ms
    {
      hide Capped, LengthAdd, MembersLength, QuotedLength;
      TwoIsCapped();
      len := 2;
      if pretty { level := level + 1; }
      ghost var exact: nat := 2;
      for n := 0 to |ms|
        invariant level == Deeper(pretty, old(level)) && len == Capped(exact)
        invariant exact + MembersLength(ms, n, pretty, level) == 2 + MembersLength(ms, 0, pretty, level)
      {
        MembersLengthIs(ms, n, pretty, level);
        var name := SizeString(ms[n].name);
        AddCapped(exact, QuotedLength(ms[n].name));
        len := LengthAdd(len, name);
        exact := exact + QuotedLength(ms[n].name);
        var size := Size(ms[n].value);
        AddCapped(exact, Length(ms[n].value, pretty, level));
        len := LengthAdd(len, size);
        exact := exact + Length(ms[n].value, pretty, level);
        AddCapped(exact, 2);
        len := LengthAdd(len, 2);
        exact := exact + 2;
        if pretty {
          AddCapped(exact, level + 1 + 2 + 2);
          len := LengthAdd(len, level + 1 + 2 + 2);
          exact := exact + level + 5;
        }
      }
      MembersLengthIs(ms, |ms|, pretty, level);
      if pretty {
        level := level - 1;
        AddCapped(exact, level + 2);
        len := LengthAdd(len, level + 2);
      }
    }

    // Writing: `written` is what the buffer holds up to the position.

    ghost predicate Valid()
      reads this, buffer
    {
      pos == |written| <= buffer.Length && buffer[..pos] == written
    }

    ghost predicate Room(text: Text)
      reads this
    {
      pos + |text| <= buffer.Length
    }

    method Put(bytes: Text)
      requires Valid() && Room(bytes)
      modifies this`pos, this`written, buffer
      ensures Valid() && written == old(written) + bytes
    {
      Str.Copy(buffer, pos, bytes);
      pos := pos + |bytes|;
      written := written + bytes;
    }

    method PutIndent()
      requires Valid() && Room(Indent(level))
      modifies this`pos, this`written, buffer
      ensures Valid() && written == old(written) + Indent(level)
    {
      for n := 0 to level
        invariant Valid() && written == old(written) + Indent(n)
      {
        Put([TAB]);
        assert Indent(n + 1) == Indent(n) + [TAB];
      }
    }

    /** nxt_conf_json_escape() */
    method PutEscaped(s: Text)
      requires Valid() && Room(Escape(s))
      modifies this`pos, this`written, buffer
      ensures Valid() && written == old(written) + Escape(s)
    {
      assert s[0..] == s;
      for i := 0 to |s|
        invariant Valid() && written + Escape(s[i..]) == old(written) + Escape(s)
      {
        assert s[i..][1..] == s[i + 1..];
        Assoc(written, EscapeByte(s[i]), Escape(s[i + 1..]));
        Put(EscapeByte(s[i]));
      }
      assert s[|s|..] == [] && written + [] == written;
    }

    method PutString(s: Text)
      requires Valid() && Room(Quoted(s))
      modifies this`pos, this`written, buffer
      ensures Valid() && written == old(written) + Quoted(s)
    {
      Assoc(written, [QUOTE], Escape(s));
      Assoc(written, [QUOTE] + Escape(s), [QUOTE]);
      Put([QUOTE]);
      PutEscaped(s);
      Put([QUOTE]);
    }

    /** A line break in pretty mode. */
    method PutBreak()
      requires Valid() && Room(Break(pretty, level))
      modifies this`pos, this`written, buffer
      ensures Valid() && written == old(written) + Break(pretty, level)
    {
      if pretty {
        Assoc(written, Newline(), Indent(level));
        Put(Newline());
        PutIndent();
      } else {
        assert written + [] == written;
      }
    }

    /** nxt_conf_json_print(): the level is restored. */
    method PutValue(v: Value)
      requires Valid() && Room(Print(v, pretty, level, more).text)
      modifies this, buffer
      ensures Valid() && level == old(level)
      ensures written == old(written) + old(Print(v, pretty, level, more).text)
      ensures more == old(Print(v, pretty, level, more).more)
      decreases v
    {
      match v
      case Null => Put(NULL_TEXT);
      case Boolean(b) => Put(if b then TRUE_TEXT else FALSE_TEXT);
      case Number(text, _) => Put(text);
      case String(text) => PutString(text);
      case Array(es) => PutArray(es);
      case Object(ms) => PutObject(ms);
    }

    method PutArray(es: seq<Value>)
      requires Valid() && Room(Print(Array(es), pretty, level, more).text)
      modifies this, buffer
      ensures Valid() && level == old(level)
      ensures written == old(written) + old(Print(Array(es), pretty, level, more).text)
      ensures more == old(Print(Array(es), pretty, level, more).more)
      decreases es, |es| + 2
    {
      hide Print, PrintElements, Break;
      if |es| == 0 {
        EmptyArrayText(written, pretty, level, more);
        Put([OPEN_BRACKET]);
        Put([CLOSE_BRACKET]);
        return;
      }
      ArrayText(written, es, pretty, level, more);
      Put([OPEN_BRACKET]);
      if pretty { level := level + 1; }
      PutAll(es);
      if pretty { level := level - 1; }
      PutBreak();
      if pretty { more := true; }
      Put([CLOSE_BRACKET]);
    }

    method PutAll(es: seq<Value>)
      requires Valid() && es != []
      requires var first := Print(es[0], pretty, level, more);
               pos + |Break(pretty, level)| + |first.text| + |PrintElements(es, 1, pretty, level, first.more).text| <= buffer.Length
      modifies this, buffer
      ensures Valid() && level == old(level)
      ensures var first := old(Print(es[0], pretty, level, more));
              var rest := old(PrintElements(es, 1, pretty, level, first.more));
              written == old(written) + Break(pretty, level) + first.text + rest.text && more == rest.more
      decreases es, |es| + 1
    {
      hide Print, PrintElements, Break;
      PutBreak();
      PutValue(es[0]);
      PutElements(es);
    }

    /** The loop of nxt_conf_json_print_array(). */
    method PutElements(es: seq<Value>)
      requires Valid() && 1 <= |es| && Room(PrintElements(es, 1, pretty, level, more).text)
      modifies this, buffer
      ensures Valid() && level == old(level)
      ensures written == old(written) + old(PrintElements(es, 1, pretty, level, more).text)
      ensures more == old(PrintElements(es, 1, pretty, level, more).more)
      decreases es, |es|
    {
      for n := 1 to |es|
        invariant Valid() && level == old(level)
        invariant written + PrintElements(es, n, pretty, level, more).text
               == old(written) + old(PrintElements(es, 1, pretty, level, more).text)
        invariant PrintElements(es, n, pretty, level, more).more == old(PrintElements(es, 1, pretty, level, more).more)
      {
        PutElement(es, n);
      }
      assert written + [] == written;
    }

    method PutElement(es: seq<Value>, n: nat)
      requires Valid() && n < |es| && Room(PrintElements(es, n, pretty, level, more).text)
      modifies this, buffer
      ensures Valid() && level == old(level)
      ensures written + PrintElements(es, n + 1, pretty, level, more).text
           == old(written) + old(PrintElements(es, n, pretty, level, more).text)
      ensures PrintElements(es, n + 1, pretty, level, more).more == old(PrintElements(es, n, pretty, level, more).more)
      decreases es, 0
    {
      ghost var w, a := written, Print(es[n], pretty, level, if pretty then false else more);
      ghost var rest := PrintElements(es, n + 1, pretty, level, a.more).text;
      Assoc(w, [COMMA], Break(pretty, level));
      Assoc(w, [COMMA] + Break(pretty, level), a.text);
      Assoc(w, [COMMA] + Break(pretty, level) + a.text, rest);
      Put([COMMA]);
      PutBreak();
      if pretty { more := false; }
      PutValue(es[n]);
    }

    method PutObject(ms: seq<Member>)
      requires Valid() && Room(Print(Object(ms), pretty, level, more).text)
      modifies this, buffer
      ensures Valid() && level == old(level)
      ensures written == old(written) + old(Print(Object(ms), pretty, level, more).text)
      ensures more == old(Print(Object(ms), pretty, level, more).more)
      decreases ms, |ms| + 2
    {
      hide Print, PrintMembers, Break;
      if |ms| == 0 {
        EmptyObjectText(written, pretty, level, more);
        Put([OPEN_BRACE]);
        Put([CLOSE_BRACE]);
        return;
      }
      ObjectText(written, ms, pretty, level, more);
      Put([OPEN_BRACE]);
      if pretty {
        Put(Newline());
        level := level + 1;
      }
      PutMembers(ms);
      if pretty { level := level - 1; }
      PutBreak();
      if pretty { more := true; }
      Put([CLOSE_BRACE]);
    }

    method PutHead(name: Text)
      requires Valid() && Room(MemberHead(name, pretty, level))
      modifies this`pos, this`written, buffer
      ensures Valid() && written == old(written) + MemberHead(name, pretty, level)
    {
      ghost var w, t := written, if pretty then Indent(level) else [];
      Assoc(w, t, Quoted(name));
      Assoc(w, t + Quoted(name), [COLON]);
      Assoc(w, t + Quoted(name) + [COLON], if pretty then [SPACE] else []);
      if pretty { PutIndent(); } else { assert written + [] == written; }
      PutString(name);
      Put([COLON]);
      if pretty { Put([SPACE]); } else { assert written + [] == written; }
    }

    method PutMemberBreak()
      requires Valid() && Room(MemberBreak(pretty, more))
      modifies this`pos, this`written, this`more, buffer
      ensures Valid() && written == old(written) + old(MemberBreak(pretty, more))
      ensures more == if pretty then false else old(more)
    {
      ghost var w := written;
      Assoc(w, [COMMA], if pretty then if more then Newline() + Newline() else Newline() else []);
      Put([COMMA]);
      if pretty {
        Assoc(written, Newline(), Newline());
        Put(Newline());
        if more {
          more := false;
          Put(Newline());
        }
      } else {
        assert written + [] == written;
      }
    }

    /** The loop of nxt_conf_json_print_object(). */
    method PutMembers(ms: seq<Member>)
      requires Valid() && ms != [] && Room(PrintMembers(ms, 0, pretty, level, more).text)
      modifies this, buffer
      ensures Valid() && level == old(level)
      ensures written == old(written) + old(PrintMembers(ms, 0, pretty, level, more).text)
      ensures more == old(PrintMembers(ms, 0, pretty, level, more).more)
      decreases ms, |ms| + 1
    {
      var n := 0;
      while true
        invariant 0 <= n < |ms| && Valid() && level == old(level)
        invariant written + PrintMembers(ms, n, pretty, level, more).text
               == old(written) + old(PrintMembers(ms, 0, pretty, level, more).text)
        invariant PrintMembers(ms, n, pretty, level, more).more == old(PrintMembers(ms, 0, pretty, level, more).more)
        decreases |ms| - n
      {
        PutMember(ms, n);
        n := n + 1;
        if n == |ms| { return; }
        Assoc(written, MemberBreak(pretty, more), PrintMembers(ms, n, pretty, level, if pretty then false else more).text);
        PutMemberBreak();
      }
    }

    method PutMember(ms: seq<Member>, n: nat)
      requires Valid() && n < |ms| && Room(PrintMembers(ms, n, pretty, level, more).text)
      modifies this, buffer
      ensures Valid() && level == old(level)
      ensures var all := old(PrintMembers(ms, n, pretty, level, more));
              if n + 1 == |ms| then written == old(written) + all.text && more == all.more
              else
                var rest := PrintMembers(ms, n + 1, pretty, level, if pretty then false else more);
                written + (MemberBreak(pretty, more) + rest.text) == old(written) + all.text && rest.more == all.more
      decreases ms, |ms|
    {
      ghost var w, head, a := written, MemberHead(ms[n].name, pretty, level), Print(ms[n].value, pretty, level, more);
      Assoc(w, head, a.text);
      if n + 1 < |ms| {
        ghost var gap := MemberBreak(pretty, a.more);
        ghost var rest := PrintMembers(ms, n + 1, pretty, level, if pretty then false else a.more).text;
        Assoc(w, head + a.text, gap + rest);
        Assoc(head + a.text, gap, rest);
      }
      PutHead(ms[n].name);
      PutValue(ms[n].value);
    }
  }

  /** As nxt_controller_conf_store() does it: size the text, refuse it when it is too large, write it. */
  method Serialize(v: Value, pretty: bool) returns (r: Option<Text>)
    requires InMemory(v)
    ensures r.None? <==> Length(v, pretty, 0) >= SIZE_MAX
    ensures r.Some? ==> r.value == Print(v, pretty, 0, false).text
  {
    hide Print, Length, InMemory;
    var nothing := new Byte[0];
    var sizer := new Printer(pretty, nothing);
    var size := sizer.Size(v);
    if size == SIZE_MAX { return None; }
    var buffer := new Byte[size];
    var printer := new Printer(pretty, buffer);
    PrintFits(v, pretty, 0, false);
    printer.PutValue(v);
    r := Some(buffer[..printer.pos]);
  }
}
