/** Printing and parsing are inverse: section 2 and section 7 of RFC 8259. */
module JsonRoundTrip {
  import opened Bytes
  import opened JsonValue
  import opened JsonParse
  import opened JsonPrint
  import Space = JsonSpace
  import Str = JsonString
  import Num = JsonNumber

  // Strings.

  /** The room the decoder wants for the printed form of s: a control byte without a short escape takes three. */
  function Reserve(s: Text): nat {
    if s == [] then 0 else (if s[0] < SPACE && ShortEscape(s[0]).None? then 3 else 1) + Reserve(s[1..])
  }

  lemma DecodeByte(text: Text, p: nat, b: Byte)
    requires At(text, p, EscapeByte(b))
    ensures text[p] != QUOTE
    ensures Str.OneChar(text, p) ==
              Some(Str.Chars([b], if b < SPACE && ShortEscape(b).None? then 3 else 1, p + |EscapeByte(b)|))
  {
    var w := EscapeByte(b);
    forall i | 0 <= i < |w| ensures text[p + i] == w[i] { AtIndex(text, p, w, i); }
    if b < SPACE && ShortEscape(b).None? {
      assert text[p] == w[0] && text[p + 1] == w[1] && text[p + 2] == w[2] && text[p + 3] == w[3]
          && text[p + 4] == w[4] && text[p + 5] == w[5];
      assert Str.Hex4(text, p + 2) == b;
    } else {
      assert text[p] == w[0];
      if |w| == 2 { assert text[p + 1] == w[1]; }
    }
  }

  lemma DecodeCons(text: Text, p: nat, c: Str.Chars, d: Str.Chars)
    requires p < |text| && text[p] != QUOTE && Str.OneChar(text, p) == Some(c) && Str.Decode(text, c.next) == Some(d)
    ensures Str.Decode(text, p) == Some(Str.Chars(c.bytes + d.bytes, c.room + d.room, d.next))
  {
  }

  lemma DecodeEnd(text: Text, p: nat)
    requires At(text, p, [QUOTE])
    ensures Str.Decode(text, p) == Some(Str.Chars([], 0, p))
  {
    AtIndex(text, p, [QUOTE], 0);
  }

  lemma EscapeSplit(s: Text)
    requires s != []
    ensures Escape(s) + [QUOTE] == EscapeByte(s[0]) + (Escape(s[1..]) + [QUOTE])
    ensures |Escape(s)| == |EscapeByte(s[0])| + |Escape(s[1..])| && [s[0]] + s[1..] == s
  {
    hide EscapeByte;
    Assoc(EscapeByte(s[0]), Escape(s[1..]), [QUOTE]);
  }

  lemma {:induction false} DecodeEscaped(text: Text, p: nat, s: Text)
    requires At(text, p, Escape(s) + [QUOTE])
    ensures Str.Decode(text, p) == Some(Str.Chars(s, Reserve(s), p + |Escape(s)|))
    decreases |s|
  {
    hide Str.Decode, Str.OneChar, EscapeByte, At;
    if s == [] {
      assert Escape(s) + [QUOTE] == [QUOTE];
      DecodeEnd(text, p);
    } else {
      var n := |EscapeByte(s[0])|;
      EscapeSplit(s);
      AtSplit(text, p, EscapeByte(s[0]), Escape(s[1..]) + [QUOTE]);
      DecodeByte(text, p, s[0]);
      DecodeEscaped(text, p + n, s[1..]);
      DecodeCons(text, p, Str.Chars([s[0]], if s[0] < SPACE && ShortEscape(s[0]).None? then 3 else 1, p + n),
                 Str.Chars(s[1..], Reserve(s[1..]), p + n + |Escape(s[1..])|));
    }
  }

  lemma QuotedSplit(s: Text)
    ensures Quoted(s) == [QUOTE] + (Escape(s) + [QUOTE])
  {
  }

  /** A printed string reads back as itself exactly when the reader's estimate of its size is within the limit. */
  lemma StringRound(text: Text, p: nat, s: Text)
    requires At(text, p, Quoted(s))
    ensures Str.StringAt(text, p) == if Reserve(s) <= Str.MAX_STRING then Some(Str.Str(s, p + |Quoted(s)|)) else None
  {
    hide Str.Decode;
    QuotedSplit(s);
    AtSplit(text, p, [QUOTE], Escape(s) + [QUOTE]);
    DecodeEscaped(text, p + 1, s);
  }

  // What the parser can hold.

  ghost predicate NumberFits(lib: Library, t: Text, integral: bool) {
    && |t| <= Num.MAX_NUMBER && Num.StartsNumber(t, 0) && Num.NumberEnd(t, 0) == Some(|t|)
    && lib.kind(t) != OutOfRange && integral == (lib.kind(t) == Integral)
  }

  /** The limits of the parser, for a value at the given depth. */
  ghost predicate Fits(lib: Library, v: Value, depth: nat)
    decreases v
  {
    match v
    case Null => true
    case Boolean(_) => true
    case Number(t, integral) => NumberFits(lib, t, integral)
    case String(t) => Reserve(t) <= Str.MAX_STRING
    case Array(es) =>
      && depth < MAX_DEPTH && |es| <= MAX_ELEMENTS
      && forall i :: 0 <= i < |es| ==> Fits(lib, es[i], depth + 1)
    case Object(ms) =>
      && depth < MAX_DEPTH && |ms| <= MAX_ELEMENTS && Unique(ms)
      && forall i :: 0 <= i < |ms| ==> Reserve(ms[i].name) <= Str.MAX_STRING && Fits(lib, ms[i].value, depth + 1)
  }

  /** The value with the members of each object in the order of the hash. */
  function Reorder(lib: Library, v: Value): Value
    decreases v
  {
    match v
    case Array(es) => Array(ReorderAll(lib, es))
    case Object(ms) => Object(lib.order(ReorderMembers(lib, ms)))
    case _ => v
  }

  function ReorderAll(lib: Library, es: seq<Value>): (r: seq<Value>)
    ensures |r| == |es|
    decreases es, |es|
  {
    seq(|es|, i requires 0 <= i < |es| => Reorder(lib, es[i]))
  }

  function ReorderMembers(lib: Library, ms: seq<Member>): (r: seq<Member>)
    ensures |r| == |ms|
    decreases ms, |ms|
  {
    seq(|ms|, i requires 0 <= i < |ms| => Member(ms[i].name, Reorder(lib, ms[i].value)))
  }

  // Values.

  /** What may stand after a value. */
  ghost predicate Follows(text: Text, p: nat) { p >= |text| || IsDelimiter(text[p]) }

  lemma NumberRound(lib: Library, text: Text, p: nat, t: Text, integral: bool)
    requires At(text, p, t) && NumberFits(lib, t, integral) && Follows(text, p + |t|)
    ensures p < |text| && (text[p] == MINUS || IsDigit(text[p]))
    ensures NumberAt(lib, text, p) == Some(Parsed(Number(t, integral), p + |t|))
  {
    hide Num.NumberEnd;
    NumberStands(text, p, t);
    Num.NumberMoves(t, 0, |t|, text, p);
  }

  lemma NumberStands(text: Text, p: nat, t: Text)
    requires At(text, p, t) && Follows(text, p + |t|) && Num.StartsNumber(t, 0)
    ensures Num.Moved(t, 0, |t|, text, p) && text[p] == t[0] && text[p..p + |t|] == t
  {
  }

  lemma LiteralRound(text: Text, p: nat, w: Text, v: Value)
    requires At(text, p, w)
    ensures LiteralAt(text, p, w, v) == Some(Parsed(v, p + |w|))
  {
    assert text[p..p + |w|] == w;
  }

  /** How the printed form of a value starts. */
  predicate IsStart(b: Byte) {
    || b == OPEN_BRACE || b == OPEN_BRACKET || b == QUOTE || b == MINUS || IsDigit(b)
    || b == NULL_TEXT[0] || b == TRUE_TEXT[0] || b == FALSE_TEXT[0]
  }

  lemma PrintStarts(lib: Library, v: Value, pretty: bool, level: nat, more: bool, depth: nat)
    requires Fits(lib, v, depth)
    ensures var w := Print(v, pretty, level, more).text; w != [] && IsStart(w[0])
  {
  }

  lemma ScalarRound(lib: Library, text: Text, p: nat, v: Value, depth: nat)
    requires !v.Array? && !v.Object? && Fits(lib, v, depth)
    requires At(text, p, Print(v, false, 0, false).text) && Follows(text, p + |Print(v, false, 0, false).text|)
    ensures p < |text|
    ensures ValueAt(lib, text, p, depth) == Some(Parsed(v, p + |Print(v, false, 0, false).text|))
  {
    hide Str.StringAt;
    var w := Print(v, false, 0, false).text;
    PrintStarts(lib, v, false, 0, false, depth);
    AtIndex(text, p, w, 0);
    match v
    case Null => LiteralRound(text, p, w, v);
    case Boolean(_) => LiteralRound(text, p, w, v);
    case Number(t, integral) => NumberRound(lib, text, p, t, integral);
    case String(t) => StringRound(text, p, t);
  }

  // Gaps between tokens.

  ghost predicate Blank(s: Text) { forall i :: 0 <= i < |s| ==> Space.IsSpace(s[i]) }

  lemma SkipTo(text: Text, q: nat, gap: Text, rest: Text)
    requires At(text, q, gap + rest) && Blank(gap) && rest != [] && !Space.IsSpace(rest[0]) && rest[0] != SLASH
    ensures q + |gap| < |text| && Space.Skip(text, q) == q + |gap| && text[q + |gap|] == rest[0]
    ensures At(text, q + |gap|, rest)
  {
    AtSplit(text, q, gap, rest);
    AtIndex(text, q + |gap|, rest, 0);
    forall i | q <= i < q + |gap| ensures Space.IsSpace(text[i]) { AtIndex(text, q, gap, i - q); }
    Space.SkipBlank(text, q, q + |gap|);
  }

  // Arrays.

  /** The parser after an element that ended at q. */
  ghost function AfterElement(lib: Library, text: Text, q: nat, depth: nat, done: seq<Value>): Option<Parsed>
    requires q <= |text|
  {
    var t := Space.Skip(text, q);
    if t == |text| then None
    else if text[t] == CLOSE_BRACKET then Some(Parsed(Array(done), t + 1))
    else if text[t] == COMMA then ArrayAt(lib, text, t, depth, done)
    else None
  }

  lemma ElementStep(lib: Library, text: Text, p: nat, depth: nat, done: seq<Value>, v: Parsed)
    requires p < |text| && Space.Skip(text, p + 1) < |text| && text[Space.Skip(text, p + 1)] != CLOSE_BRACKET
    requires |done| < MAX_ELEMENTS && ValueAt(lib, text, Space.Skip(text, p + 1), depth) == Some(v)
    ensures ArrayAt(lib, text, p, depth, done) == AfterElement(lib, text, v.end, depth, done + [v.value])
  {
  }

  ghost function ArrayEnd(pretty: bool, outer: nat): Text { Break(pretty, outer) + [CLOSE_BRACKET] }

  lemma Nest4(a: Text, b: Text, c: Text, d: Text)
    ensures a + b + c + d == a + (b + (c + d))
  {
  }

  lemma Nest6(a: Text, b: Text, c: Text, d: Text, e: Text, f: Text)
    ensures a + b + c + d + e + f == a + (b + (c + (d + (e + f))))
  {
    Nest4(a, b, c, d);
    Assoc(a + (b + (c + d)), e, f);
    Assoc(a, b + (c + d), e + f);
    Assoc(b, c + d, e + f);
    Assoc(c, d, e + f);
  }

  lemma ElementsSplit(es: seq<Value>, n: nat, pretty: bool, level: nat, more: bool, end: Text)
    requires n < |es|
    ensures var a := Print(es[n], pretty, level, if pretty then false else more);
            PrintElements(es, n, pretty, level, more).text + end
              == [COMMA] + (Break(pretty, level) + (a.text + (PrintElements(es, n + 1, pretty, level, a.more).text + end)))
  {
    var a := Print(es[n], pretty, level, if pretty then false else more);
    var rest := PrintElements(es, n + 1, pretty, level, a.more).text;
    Nest4([COMMA], Break(pretty, level), a.text, rest);
    Nest4([COMMA] + Break(pretty, level), a.text, rest, end);
    Assoc([COMMA], Break(pretty, level), a.text + (rest + end));
  }

  lemma ArraySplit(es: seq<Value>, pretty: bool, level: nat, more: bool)
    requires es != []
    ensures var l := Deeper(pretty, level);
            var a := Print(es[0], pretty, l, more);
            Print(Array(es), pretty, level, more).text
              == [OPEN_BRACKET] + (Break(pretty, l) + (a.text + (PrintElements(es, 1, pretty, l, a.more).text + ArrayEnd(pretty, level))))
  {
    var l := Deeper(pretty, level);
    var a := Print(es[0], pretty, l, more);
    Nest6([OPEN_BRACKET], Break(pretty, l), a.text, PrintElements(es, 1, pretty, l, a.more).text,
          Break(pretty, level), [CLOSE_BRACKET]);
  }

  lemma ArrayFits(lib: Library, es: seq<Value>, depth: nat)
    requires Fits(lib, Array(es), depth)
    ensures depth < MAX_DEPTH && |es| <= MAX_ELEMENTS && forall i :: 0 <= i < |es| ==> Fits(lib, es[i], depth + 1)
  {
  }

  lemma ArrayOpens(lib: Library, text: Text, p: nat, depth: nat)
    requires p < |text| && text[p] == OPEN_BRACKET && depth < MAX_DEPTH
    ensures ValueAt(lib, text, p, depth) == ArrayAt(lib, text, p, depth + 1, [])
  {
  }

  lemma EmptyArray(lib: Library, text: Text, p: nat, depth: nat)
    requires At(text, p, [OPEN_BRACKET, CLOSE_BRACKET])
    ensures p < |text| && text[p] == OPEN_BRACKET && ArrayAt(lib, text, p, depth, []) == Some(Parsed(Array([]), p + 2))
  {
    AtIndex(text, p, [OPEN_BRACKET, CLOSE_BRACKET], 0);
    AtIndex(text, p, [OPEN_BRACKET, CLOSE_BRACKET], 1);
    Space.SkipStops(text, p + 1);
  }

  lemma AfterComma(lib: Library, text: Text, q: nat, depth: nat, done: seq<Value>, rest: Text)
    requires At(text, q, [COMMA] + rest)
    ensures q < |text| && Follows(text, q) && At(text, q + 1, rest)
    ensures AfterElement(lib, text, q, depth, done) == ArrayAt(lib, text, q, depth, done)
  {
    AtIndex(text, q, [COMMA] + rest, 0);
    AtSplit(text, q, [COMMA], rest);
    Space.SkipStops(text, q);
  }

  lemma BreakIsBlank(pretty: bool, level: nat)
    ensures Blank(Break(pretty, level))
  {
  }

  lemma ReorderArray(lib: Library, es: seq<Value>)
    ensures Reorder(lib, Array(es)) == Array(ReorderAll(lib, es))
  {
  }

  lemma EmptyArrayPrints(pretty: bool, level: nat, more: bool)
    ensures Print(Array([]), pretty, level, more).text == [OPEN_BRACKET, CLOSE_BRACKET]
  {
  }

  lemma NoElements(es: seq<Value>, pretty: bool, level: nat, more: bool, end: Text)
    ensures PrintElements(es, |es|, pretty, level, more).text == [] && [] + end == end
  {
  }

  lemma ArrayEndRound(lib: Library, text: Text, q: nat, pretty: bool, outer: nat, depth: nat, done: seq<Value>)
    requires At(text, q, ArrayEnd(pretty, outer))
    ensures q <= |text| && Follows(text, q)
    ensures AfterElement(lib, text, q, depth, done) == Some(Parsed(Array(done), q + |ArrayEnd(pretty, outer)|))
  {
    SkipTo(text, q, Break(pretty, outer), [CLOSE_BRACKET]);
    AtIndex(text, q, ArrayEnd(pretty, outer), 0);
  }

  lemma ReorderMore(lib: Library, es: seq<Value>, n: nat)
    requires n < |es|
    ensures ReorderAll(lib, es[..n + 1]) == ReorderAll(lib, es[..n]) + [Reorder(lib, es[n])]
    ensures ReorderAll(lib, es[..|es|]) == ReorderAll(lib, es)
  {
    assert es[..|es|] == es;
  }

  lemma {:induction false} ValueRound(lib: Library, text: Text, p: nat, v: Value, pretty: bool, level: nat, more: bool, depth: nat)
    requires Fits(lib, v, depth)
    requires At(text, p, Print(v, pretty, level, more).text) && Follows(text, p + |Print(v, pretty, level, more).text|)
    ensures p < |text|
    ensures ValueAt(lib, text, p, depth) == Some(Parsed(Reorder(lib, v), p + |Print(v, pretty, level, more).text|))
    decreases v
  {
    hide *;
    match v
    case Array(es) => ArrayRound(lib, text, p, es, pretty, level, more, depth);
    case Object(ms) => ObjectRound(lib, text, p, ms, pretty, level, more, depth);
    case _ =>
      ScalarPrints(lib, v, pretty, level, more);
      ScalarRound(lib, text, p, v, depth);
  }

  lemma ScalarPrints(lib: Library, v: Value, pretty: bool, level: nat, more: bool)
    requires !v.Array? && !v.Object?
    ensures Print(v, pretty, level, more).text == Print(v, false, 0, false).text && Reorder(lib, v) == v
  {
  }

  lemma {:induction false} ArrayRound(lib: Library, text: Text, p: nat, es: seq<Value>, pretty: bool, level: nat, more: bool, depth: nat)
    requires Fits(lib, Array(es), depth) && At(text, p, Print(Array(es), pretty, level, more).text)
    ensures p < |text|
    ensures ValueAt(lib, text, p, depth)
         == Some(Parsed(Reorder(lib, Array(es)), p + |Print(Array(es), pretty, level, more).text|))
    decreases es, |es| + 1
  {
    hide *;
    ArrayFits(lib, es, depth);
    ReorderArray(lib, es);
    if es == [] {
      EmptyArrayPrints(pretty, level, more);
      EmptyArray(lib, text, p, depth + 1);
    } else {
      var l := Deeper(pretty, level);
      var a := Print(es[0], pretty, l, more);
      var gap, tail := Break(pretty, l), PrintElements(es, 1, pretty, l, a.more).text + ArrayEnd(pretty, level);
      var q := p + 1 + |gap|;
      ArraySplit(es, pretty, level, more);
      AtIndex(text, p, [OPEN_BRACKET] + (gap + (a.text + tail)), 0);
      AtSplit(text, p, [OPEN_BRACKET], gap + (a.text + tail));
      BreakIsBlank(pretty, l);
      FirstElement(lib, text, p, es[0], gap, a, tail, pretty, l, more, depth + 1);
      ElementsRound(lib, text, q + |a.text|, es, 1, pretty, l, a.more, level, depth + 1);
      ValueRound(lib, text, q, es[0], pretty, l, more, depth + 1);
      ElementStep(lib, text, p, depth + 1, [], Parsed(Reorder(lib, es[0]), q + |a.text|));
      ReorderMore(lib, es, 0);
    }
    ArrayOpens(lib, text, p, depth);
  }

  /** Where the element after the bracket or comma at p starts. */
  lemma FirstElement(lib: Library, text: Text, p: nat, v: Value, gap: Text, a: Printed, tail: Text,
                     pretty: bool, level: nat, more: bool, depth: nat)
    requires Fits(lib, v, depth) && a == Print(v, pretty, level, more)
    requires Blank(gap) && At(text, p + 1, gap + (a.text + tail))
    ensures var q := p + 1 + |gap|;
            && q < |text| && Space.Skip(text, p + 1) == q && text[q] != CLOSE_BRACKET
            && At(text, q, a.text) && At(text, q + |a.text|, tail)
  {
    hide Print, Fits, At, Space.Skip;
    PrintStarts(lib, v, pretty, level, more, depth);
    assert (a.text + tail)[0] == a.text[0];
    SkipTo(text, p + 1, gap, a.text + tail);
    AtSplit(text, p + 1 + |gap|, a.text, tail);
  }

  lemma {:induction false} ElementsRound(lib: Library, text: Text, q: nat, es: seq<Value>, n: nat,
                                         pretty: bool, level: nat, more: bool, outer: nat, depth: nat)
    requires n <= |es| <= MAX_ELEMENTS && forall i :: 0 <= i < |es| ==> Fits(lib, es[i], depth)
    requires At(text, q, PrintElements(es, n, pretty, level, more).text + ArrayEnd(pretty, outer))
    ensures q <= |text| && Follows(text, q)
    ensures AfterElement(lib, text, q, depth, ReorderAll(lib, es[..n]))
         == Some(Parsed(Array(ReorderAll(lib, es)),
                        q + |PrintElements(es, n, pretty, level, more).text| + |ArrayEnd(pretty, outer)|))
    decreases es, |es| - n
  {
    hide *;
    var end := ArrayEnd(pretty, outer);
    if n == |es| {
      NoElements(es, pretty, level, more, end);
      assert es[..n] == es;
      ArrayEndRound(lib, text, q, pretty, outer, depth, ReorderAll(lib, es));
    } else {
      var before := if pretty then false else more;
      var a := Print(es[n], pretty, level, before);
      var gap, tail := Break(pretty, level), PrintElements(es, n + 1, pretty, level, a.more).text + end;
      ElementsSplit(es, n, pretty, level, more, end);
      var done, p := ReorderAll(lib, es[..n]), q + 1 + |gap|;
      AfterComma(lib, text, q, depth, done, gap + (a.text + tail));
      BreakIsBlank(pretty, level);
      FirstElement(lib, text, q, es[n], gap, a, tail, pretty, level, before, depth);
      ElementsRound(lib, text, p + |a.text|, es, n + 1, pretty, level, a.more, outer, depth);
      ValueRound(lib, text, p, es[n], pretty, level, before, depth);
      ElementStep(lib, text, q, depth, done, Parsed(Reorder(lib, es[n]), p + |a.text|));
      ReorderMore(lib, es, n);
    }
  }

  // Objects.

  /** The parser after a member that ended at q. */
  ghost function AfterMember(lib: Library, text: Text, q: nat, depth: nat, done: seq<Member>): Option<Parsed>
    requires q <= |text|
  {
    var t := Space.Skip(text, q);
    if t == |text| then None
    else if text[t] == CLOSE_BRACE then Some(Parsed(Object(lib.order(done)), t + 1))
    else if text[t] == COMMA then ObjectAt(lib, text, t, depth, done)
    else None
  }

  lemma MemberStep(lib: Library, text: Text, p: nat, depth: nat, done: seq<Member>, name: Text, start: nat, v: Parsed)
    requires p < |text| && Space.Skip(text, p + 1) < |text| && text[Space.Skip(text, p + 1)] == QUOTE
    requires |done| < MAX_ELEMENTS && NameAt(text, Space.Skip(text, p + 1)) == Some((name, start))
    requires name !in Names(done) && start < |text| && ValueAt(lib, text, start, depth) == Some(v)
    ensures ObjectAt(lib, text, p, depth, done) == AfterMember(lib, text, v.end, depth, done + [Member(name, v.value)])
  {
    hide NameAt, ValueAt, Names, Space.Skip;
  }

  ghost function ObjectEnd(pretty: bool, outer: nat): Text { Break(pretty, outer) + [CLOSE_BRACE] }

  function Margin(pretty: bool, level: nat): Text { if pretty then Indent(level) else [] }

  function Pad(pretty: bool): Text { if pretty then [SPACE] else [] }

  /** What separates members, without the comma. */
  function Lines(pretty: bool, more: bool): Text {
    if pretty then if more then Newline() + Newline() else Newline() else []
  }

  lemma BlankGaps(pretty: bool, level: nat, more: bool)
    ensures Blank(Margin(pretty, level)) && Blank(Pad(pretty)) && Blank(Lines(pretty, more))
    ensures MemberBreak(pretty, more) == [COMMA] + Lines(pretty, more)
  {
  }

  lemma BlankSum(a: Text, b: Text)
    requires Blank(a) && Blank(b)
    ensures Blank(a + b)
  {
  }

  /** What stands after the value of member n. */
  ghost function MemberTail(ms: seq<Member>, n: nat, pretty: bool, level: nat, more: bool, end: Text): Text
    requires n < |ms|
  {
    if n + 1 == |ms| then end
    else [COMMA] + (Lines(pretty, more)
                      + (PrintMembers(ms, n + 1, pretty, level, if pretty then false else more).text + end))
  }

  lemma MembersSplit(ms: seq<Member>, n: nat, pretty: bool, level: nat, more: bool, end: Text)
    requires n < |ms|
    ensures var a := Print(ms[n].value, pretty, level, more);
            PrintMembers(ms, n, pretty, level, more).text + end
              == Margin(pretty, level) + (Quoted(ms[n].name) + ([COLON] + (Pad(pretty)
                   + (a.text + MemberTail(ms, n, pretty, level, a.more, end)))))
  {
    hide Print, PrintMembers, Quoted, MemberBreak, MemberTail;
    var a := Print(ms[n].value, pretty, level, more);
    var tail := MemberTail(ms, n, pretty, level, a.more, end);
    MembersText(ms, n, pretty, level, more, end);
    Nest4(Margin(pretty, level), Quoted(ms[n].name), [COLON], Pad(pretty));
    Nest6(Margin(pretty, level), Quoted(ms[n].name), [COLON], Pad(pretty), a.text, tail);
  }

  lemma MembersText(ms: seq<Member>, n: nat, pretty: bool, level: nat, more: bool, end: Text)
    requires n < |ms|
    ensures var a := Print(ms[n].value, pretty, level, more);
            PrintMembers(ms, n, pretty, level, more).text + end
              == Margin(pretty, level) + Quoted(ms[n].name) + [COLON] + Pad(pretty) + a.text
                   + MemberTail(ms, n, pretty, level, a.more, end)
  {
    hide Print, Quoted, Newline, Indent;
    var a := Print(ms[n].value, pretty, level, more);
    var head := MemberHead(ms[n].name, pretty, level);
    if n + 1 < |ms| {
      BlankGaps(pretty, level, a.more);
      var rest := PrintMembers(ms, n + 1, pretty, level, if pretty then false else a.more).text;
      Nest4(head + a.text, MemberBreak(pretty, a.more), rest, end);
      Assoc(head + a.text, MemberBreak(pretty, a.more) + rest, end);
      Nest4([COMMA], Lines(pretty, a.more), rest, end);
      Assoc(MemberBreak(pretty, a.more), rest, end);
    }
  }

  lemma ObjectSplit(ms: seq<Member>, pretty: bool, level: nat, more: bool)
    requires ms != []
    ensures Print(Object(ms), pretty, level, more).text
         == [OPEN_BRACE] + (Lines(pretty, false)
              + (PrintMembers(ms, 0, pretty, Deeper(pretty, level), more).text + ObjectEnd(pretty, level)))
  {
    var all := PrintMembers(ms, 0, pretty, Deeper(pretty, level), more).text;
    var end := Break(pretty, level);
    Nest4([OPEN_BRACE] + Lines(pretty, false), all, end, [CLOSE_BRACE]);
    Assoc([OPEN_BRACE], Lines(pretty, false), all + (end + [CLOSE_BRACE]));
  }

  lemma NameRound(text: Text, p: nat, name: Text, pad: Text, rest: Text)
    requires At(text, p, Quoted(name) + ([COLON] + (pad + rest))) && Reserve(name) <= Str.MAX_STRING
    requires Blank(pad) && rest != [] && !Space.IsSpace(rest[0]) && rest[0] != SLASH
    ensures var q := p + |Quoted(name)| + 1 + |pad|;
            p < |text| && NameAt(text, p) == Some((name, q)) && At(text, q, rest)
  {
    hide At, Quoted, Str.StringAt, Space.Skip, Blank;
    AtSplit(text, p, Quoted(name), [COLON] + (pad + rest));
    StringRound(text, p, name);
    var c := p + |Quoted(name)|;
    assert [] + ([COLON] + (pad + rest)) == [COLON] + (pad + rest);
    ColonRound(text, c, pad + rest);
    SkipTo(text, c + 1, pad, rest);
  }

  lemma ColonRound(text: Text, c: nat, rest: Text)
    requires At(text, c, [COLON] + rest)
    ensures c < |text| && text[c] == COLON && Space.Skip(text, c) == c && At(text, c + 1, rest)
  {
    AtIndex(text, c, [COLON] + rest, 0);
    AtSplit(text, c, [COLON], rest);
    Space.SkipStops(text, c);
  }

  lemma ObjectFits(lib: Library, ms: seq<Member>, depth: nat)
    requires Fits(lib, Object(ms), depth)
    ensures depth < MAX_DEPTH && MembersFitAt(lib, ms, depth + 1)
  {
  }

  ghost predicate MembersFitAt(lib: Library, ms: seq<Member>, depth: nat) {
    && |ms| <= MAX_ELEMENTS && Unique(ms)
    && forall i :: 0 <= i < |ms| ==> Reserve(ms[i].name) <= Str.MAX_STRING && Fits(lib, ms[i].value, depth)
  }

  lemma MemberFits(lib: Library, ms: seq<Member>, depth: nat, n: nat)
    requires MembersFitAt(lib, ms, depth) && n < |ms|
    ensures n < MAX_ELEMENTS && Reserve(ms[n].name) <= Str.MAX_STRING && Fits(lib, ms[n].value, depth)
    ensures ms[n].name !in Names(ReorderMembers(lib, ms[..n]))
    ensures ReorderMembers(lib, ms[..n + 1])
         == ReorderMembers(lib, ms[..n]) + [Member(ms[n].name, Reorder(lib, ms[n].value))]
  {
    hide Reserve, Fits, Reorder;
  }

  lemma ObjectOpens(lib: Library, text: Text, p: nat, depth: nat)
    requires p < |text| && text[p] == OPEN_BRACE && depth < MAX_DEPTH
    ensures ValueAt(lib, text, p, depth) == ObjectAt(lib, text, p, depth + 1, [])
  {
  }

  lemma ReorderObject(lib: Library, ms: seq<Member>)
    ensures Reorder(lib, Object(ms)) == Object(lib.order(ReorderMembers(lib, ms)))
    ensures ms[..0] == [] && ReorderMembers(lib, ms[..0]) == [] && ms[..|ms|] == ms
  {
  }

  lemma EmptyObject(lib: Library, text: Text, p: nat, depth: nat)
    requires At(text, p, [OPEN_BRACE, CLOSE_BRACE])
    ensures p < |text| && text[p] == OPEN_BRACE
    ensures ObjectAt(lib, text, p, depth, []) == Some(Parsed(Object(lib.order([])), p + 2))
  {
    AtIndex(text, p, [OPEN_BRACE, CLOSE_BRACE], 0);
    AtIndex(text, p, [OPEN_BRACE, CLOSE_BRACE], 1);
    Space.SkipStops(text, p + 1);
  }

  lemma EmptyObjectPrints(pretty: bool, level: nat, more: bool)
    ensures Print(Object([]), pretty, level, more).text == [OPEN_BRACE, CLOSE_BRACE]
  {
  }

  lemma ObjectEndRound(lib: Library, text: Text, q: nat, pretty: bool, outer: nat, depth: nat, done: seq<Member>)
    requires At(text, q, ObjectEnd(pretty, outer))
    ensures q <= |text| && Follows(text, q)
    ensures AfterMember(lib, text, q, depth, done) == Some(Parsed(Object(lib.order(done)), q + |ObjectEnd(pretty, outer)|))
  {
    SkipTo(text, q, Break(pretty, outer), [CLOSE_BRACE]);
    AtIndex(text, q, ObjectEnd(pretty, outer), 0);
  }

  lemma AfterMemberComma(lib: Library, text: Text, q: nat, depth: nat, done: seq<Member>, rest: Text)
    requires At(text, q, [COMMA] + rest)
    ensures q < |text| && Follows(text, q) && At(text, q + 1, rest)
    ensures AfterMember(lib, text, q, depth, done) == ObjectAt(lib, text, q, depth, done)
  {
    AtIndex(text, q, [COMMA] + rest, 0);
    AtSplit(text, q, [COMMA], rest);
    Space.SkipStops(text, q);
  }

  lemma {:induction false} ObjectRound(lib: Library, text: Text, p: nat, ms: seq<Member>, pretty: bool, level: nat, more: bool, depth: nat)
    requires Fits(lib, Object(ms), depth) && At(text, p, Print(Object(ms), pretty, level, more).text)
    ensures p < |text|
    ensures ValueAt(lib, text, p, depth)
         == Some(Parsed(Reorder(lib, Object(ms)), p + |Print(Object(ms), pretty, level, more).text|))
    decreases ms, |ms| + 2
  {
    hide *;
    ObjectFits(lib, ms, depth);
    ReorderObject(lib, ms);
    if ms == [] {
      EmptyObjectPrints(pretty, level, more);
      EmptyObject(lib, text, p, depth + 1);
    } else {
      var l := Deeper(pretty, level);
      var rest := Lines(pretty, false) + (PrintMembers(ms, 0, pretty, l, more).text + ObjectEnd(pretty, level));
      ObjectSplit(ms, pretty, level, more);
      AtIndex(text, p, [OPEN_BRACE] + rest, 0);
      AtSplit(text, p, [OPEN_BRACE], rest);
      BlankGaps(pretty, l, false);
      MembersRound(lib, text, p, ms, 0, Lines(pretty, false), pretty, l, more, level, depth + 1);
    }
    ObjectOpens(lib, text, p, depth);
  }

  /** How the member after the brace or comma at p reads, and where its value starts. */
  lemma OneMember(lib: Library, text: Text, p: nat, ms: seq<Member>, n: nat, gap: Text,
                  pretty: bool, level: nat, more: bool, end: Text, depth: nat) returns (start: nat)
    requires n < |ms| && MembersFitAt(lib, ms, depth) && Blank(gap)
    requires At(text, p + 1, gap + (PrintMembers(ms, n, pretty, level, more).text + end))
    ensures var q := Space.Skip(text, p + 1);
            q < |text| && text[q] == QUOTE && NameAt(text, q) == Some((ms[n].name, start))
    ensures var a := Print(ms[n].value, pretty, level, more);
            var tail := MemberTail(ms, n, pretty, level, a.more, end);
            && At(text, start, a.text) && At(text, start + |a.text|, tail)
            && start + |a.text| + |tail| == p + 1 + |gap| + |PrintMembers(ms, n, pretty, level, more).text| + |end|
  {
    hide *;
    var a := Print(ms[n].value, pretty, level, more);
    var margin, name, pad := Margin(pretty, level), Quoted(ms[n].name), Pad(pretty);
    var tail := MemberTail(ms, n, pretty, level, a.more, end);
    MembersSplit(ms, n, pretty, level, more, end);
    MemberFits(lib, ms, depth, n);
    BlankGaps(pretty, level, false);
    BlankSum(gap, margin);
    var rest := name + ([COLON] + (pad + (a.text + tail)));
    Assoc(gap, margin, rest);
    QuotedSplit(ms[n].name);
    NotBlankStart(QUOTE);
    assert rest[0] == QUOTE;
    SkipTo(text, p + 1, gap + margin, rest);
    PrintStarts(lib, ms[n].value, pretty, level, more, depth);
    NotBlankStart(a.text[0]);
    assert (a.text + tail)[0] == a.text[0];
    var q := p + 1 + |gap + margin|;
    start := q + |name| + 1 + |pad|;
    NameRound(text, q, ms[n].name, pad, a.text + tail);
    AtSplit(text, start, a.text, tail);
  }

  lemma NotBlankStart(b: Byte)
    requires IsStart(b)
    ensures !Space.IsSpace(b) && b != SLASH
  {
  }

  lemma {:induction false} MembersRound(lib: Library, text: Text, p: nat, ms: seq<Member>, n: nat, gap: Text,
                                        pretty: bool, level: nat, more: bool, outer: nat, depth: nat)
    requires n < |ms| && MembersFitAt(lib, ms, depth) && Blank(gap) && p < |text|
    requires At(text, p + 1, gap + (PrintMembers(ms, n, pretty, level, more).text + ObjectEnd(pretty, outer)))
    ensures ObjectAt(lib, text, p, depth, ReorderMembers(lib, ms[..n]))
         == Some(Parsed(Object(lib.order(ReorderMembers(lib, ms))),
                        p + 1 + |gap| + |PrintMembers(ms, n, pretty, level, more).text| + |ObjectEnd(pretty, outer)|))
    decreases ms, |ms| - n, 1
  {
    hide *;
    var end := ObjectEnd(pretty, outer);
    var a := Print(ms[n].value, pretty, level, more);
    var start := OneMember(lib, text, p, ms, n, gap, pretty, level, more, end, depth);
    MemberFits(lib, ms, depth, n);
    TailRound(lib, text, start + |a.text|, ms, n, pretty, level, a.more, outer, depth);
    ValueRound(lib, text, start, ms[n].value, pretty, level, more, depth);
    MemberStep(lib, text, p, depth, ReorderMembers(lib, ms[..n]), ms[n].name, start,
               Parsed(Reorder(lib, ms[n].value), start + |a.text|));
  }

  /** After the value of member n. */
  lemma {:induction false} TailRound(lib: Library, text: Text, q: nat, ms: seq<Member>, n: nat,
                                     pretty: bool, level: nat, more: bool, outer: nat, depth: nat)
    requires n < |ms| && MembersFitAt(lib, ms, depth)
    requires At(text, q, MemberTail(ms, n, pretty, level, more, ObjectEnd(pretty, outer)))
    ensures q <= |text| && Follows(text, q)
    ensures AfterMember(lib, text, q, depth, ReorderMembers(lib, ms[..n + 1]))
         == Some(Parsed(Object(lib.order(ReorderMembers(lib, ms))),
                        q + |MemberTail(ms, n, pretty, level, more, ObjectEnd(pretty, outer))|))
    decreases ms, |ms| - n, 0
  {
    hide *;
    var end, done := ObjectEnd(pretty, outer), ReorderMembers(lib, ms[..n + 1]);
    MemberTailIs(ms, n, pretty, level, more, end);
    if n + 1 == |ms| {
      ObjectEndRound(lib, text, q, pretty, outer, depth, done);
      ReorderObject(lib, ms);
    } else {
      var more' := if pretty then false else more;
      var lines := Lines(pretty, more);
      AfterMemberComma(lib, text, q, depth, done, lines + (PrintMembers(ms, n + 1, pretty, level, more').text + end));
      BlankGaps(pretty, level, more);
      MembersRound(lib, text, q, ms, n + 1, lines, pretty, level, more', outer, depth);
    }
  }

  lemma MemberTailIs(ms: seq<Member>, n: nat, pretty: bool, level: nat, more: bool, end: Text)
    requires n < |ms|
    ensures MemberTail(ms, n, pretty, level, more, end)
         == if n + 1 == |ms| then end
            else [COMMA] + (Lines(pretty, more)
                   + (PrintMembers(ms, n + 1, pretty, level, if pretty then false else more).text + end))
  {
  }
}
