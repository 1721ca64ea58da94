/**
  The texts of configurations: values as in RFC 8259, with comments between the tokens and a comma allowed after
  the last element or member. The parser accepts exactly these texts, within its limits, and reads each as
  the value it was written for.
 */
module JsonText {
  import opened Bytes
  import opened JsonValue
  import opened JsonParse
  import opened JsonLayout
  import opened JsonRoundTrip
  import opened Spelling = JsonSpelling
  import Space = JsonSpace
  import Str = JsonString
  import Num = JsonNumber

  // Documents.

  datatype Doc =
    | NullWord
    | TrueWord
    | FalseWord
    | Numeral(t: Text)
    | Quoted(cs: seq<Spelled>)
    | List(open: Gap, items: Items)
    | Record(open: Gap, fields: Fields)

  /** A comma may stand before nothing. */
  datatype Items = NoItems | LastItem(doc: Doc, after: Gap) | MoreItems(doc: Doc, after: Gap, comma: Gap, rest: Items)

  datatype Name = Name(cs: seq<Spelled>, colon: Gap, start: Gap)

  datatype Fields =
    | NoFields
    | LastField(name: Name, doc: Doc, after: Gap)
    | MoreFields(name: Name, doc: Doc, after: Gap, comma: Gap, rest: Fields)

  // Their texts.

  ghost function StringText(cs: seq<Spelled>): Text { if AllSpell(cs) then [QUOTE] + Spellings(cs) + [QUOTE] else [] }

  ghost function DocText(doc: Doc): Text {
    match doc
    case NullWord => NULL_TEXT
    case TrueWord => TRUE_TEXT
    case FalseWord => FALSE_TEXT
    case Numeral(t) => t
    case Quoted(cs) => StringText(cs)
    case List(open, items) => [OPEN_BRACKET] + (GapText(open) + (ItemsText(items) + [CLOSE_BRACKET]))
    case Record(open, fields) => [OPEN_BRACE] + (GapText(open) + (FieldsText(fields) + [CLOSE_BRACE]))
  }

  ghost function ItemsText(items: Items): Text {
    match items
    case NoItems => []
    case LastItem(doc, after) => DocText(doc) + GapText(after)
    case MoreItems(doc, after, comma, rest) => DocText(doc) + (GapText(after) + ([COMMA] + (GapText(comma) + ItemsText(rest))))
  }

  ghost function NameText(name: Name): Text {
    StringText(name.cs) + (GapText(name.colon) + ([COLON] + GapText(name.start)))
  }

  ghost function FieldsText(fields: Fields): Text {
    match fields
    case NoFields => []
    case LastField(name, doc, after) => NameText(name) + (DocText(doc) + GapText(after))
    case MoreFields(name, doc, after, comma, rest) =>
      NameText(name) + (DocText(doc) + (GapText(after) + ([COMMA] + (GapText(comma) + FieldsText(rest)))))
  }

  // Their values.

  ghost function StringValue(cs: seq<Spelled>): Text { if AllSpell(cs) then Spelling.Meanings(cs) else [] }

  ghost function DocValue(lib: Library, doc: Doc): Value {
    match doc
    case NullWord => Null
    case TrueWord => Boolean(true)
    case FalseWord => Boolean(false)
    case Numeral(t) => Number(t, lib.kind(t) == Integral)
    case Quoted(cs) => String(StringValue(cs))
    case List(_, items) => Array(Values(lib, items))
    case Record(_, fields) => Object(lib.order(Members(lib, fields)))
  }

  ghost function Values(lib: Library, items: Items): seq<Value> {
    match items
    case NoItems => []
    case LastItem(doc, _) => [DocValue(lib, doc)]
    case MoreItems(doc, _, _, rest) => [DocValue(lib, doc)] + Values(lib, rest)
  }

  ghost function Members(lib: Library, fields: Fields): seq<Member> {
    match fields
    case NoFields => []
    case LastField(name, doc, _) => [Member(StringValue(name.cs), DocValue(lib, doc))]
    case MoreFields(name, doc, _, _, rest) => [Member(StringValue(name.cs), DocValue(lib, doc))] + Members(lib, rest)
  }

  // The limits.

  ghost predicate StringOk(cs: seq<Spelled>) { AllSpell(cs) && Rooms(cs) <= Str.MAX_STRING }

  ghost predicate NameOk(name: Name) { StringOk(name.cs) && IsGap(name.colon) && IsGap(name.start) }

  ghost predicate Within(lib: Library, doc: Doc, depth: nat)
    decreases doc
  {
    match doc
    case Numeral(t) => NumberFits(lib, t, lib.kind(t) == Integral)
    case Quoted(cs) => StringOk(cs)
    case List(open, items) =>
      depth < MAX_DEPTH && IsGap(open) && ItemsWithin(lib, items, depth + 1) && |Values(lib, items)| <= MAX_ELEMENTS
    case Record(open, fields) =>
      && depth < MAX_DEPTH && IsGap(open) && FieldsWithin(lib, fields, depth + 1)
      && |Members(lib, fields)| <= MAX_ELEMENTS && Unique(Members(lib, fields))
    case _ => true
  }

  ghost predicate ItemsWithin(lib: Library, items: Items, depth: nat)
    decreases items
  {
    match items
    case NoItems => true
    case LastItem(doc, after) => Within(lib, doc, depth) && IsGap(after)
    case MoreItems(doc, after, comma, rest) => Within(lib, doc, depth) && IsGap(after) && IsGap(comma) && ItemsWithin(lib, rest, depth)
  }

  ghost predicate FieldsWithin(lib: Library, fields: Fields, depth: nat)
    decreases fields
  {
    match fields
    case NoFields => true
    case LastField(name, doc, after) => NameOk(name) && Within(lib, doc, depth) && IsGap(after)
    case MoreFields(name, doc, after, comma, rest) =>
      NameOk(name) && Within(lib, doc, depth) && IsGap(after) && IsGap(comma) && FieldsWithin(lib, rest, depth)
  }

  // Tokens.

  /** The words and the marks of section 2 of RFC 8259. */
  lemma WordsAndMarks()
    ensures NULL_TEXT == Ascii("null") && TRUE_TEXT == Ascii("true") && FALSE_TEXT == Ascii("false")
    ensures [OPEN_BRACKET, CLOSE_BRACKET, OPEN_BRACE, CLOSE_BRACE, COLON, COMMA, QUOTE] == Ascii("[]{}:,\"")
    ensures [SLASH, ASTERISK, BACKSLASH, Str.LETTER_U] == Ascii("/*\\u")
  {
  }

  /** A gap before a token is skipped. */
  lemma GapThen(text: Text, q: nat, gap: Gap, rest: Text)
    requires IsGap(gap) && At(text, q, GapText(gap) + rest) && rest != [] && !Space.IsSpace(rest[0]) && rest[0] != SLASH
    ensures var t := q + |GapText(gap)|;
            t < |text| && Space.Skip(text, q) == t && text[t] == rest[0] && At(text, t, rest)
  {
    hide Space.Skip, IsGap, GapText;
    AtSplit(text, q, GapText(gap), rest);
    GapSkips(text, q, gap);
    AtIndex(text, q + |GapText(gap)|, rest, 0);
    Space.SkipStops(text, q + |GapText(gap)|);
  }

  /** A gap starts with what may follow a number. */
  lemma GapFollows(text: Text, q: nat, gap: Gap, rest: Text)
    requires IsGap(gap) && At(text, q, GapText(gap) + rest) && (rest != [] ==> IsDelimiter(rest[0])) && (rest == [] ==> q + |GapText(gap)| == |text|)
    ensures Follows(text, q)
  {
    var w := GapText(gap) + rest;
    if w != [] {
      AtIndex(text, q, w, 0);
      if gap != [] { assert w[0] == PieceText(gap[0])[0]; } else { assert w == rest; }
    }
  }

  lemma DocStarts(lib: Library, doc: Doc, depth: nat)
    requires Within(lib, doc, depth)
    ensures DocText(doc) != [] && IsStart(DocText(doc)[0])
  {
  }

  lemma StringOf(text: Text, p: nat, cs: seq<Spelled>)
    requires StringOk(cs) && At(text, p, StringText(cs))
    ensures p < |text| && text[p] == QUOTE
    ensures Str.StringAt(text, p) == Some(Str.Str(StringValue(cs), p + |StringText(cs)|))
  {
    hide Spellings, Spelling.Meanings, Rooms, Str.StringAt, AllSpell, At;
    AtIndex(text, p, StringText(cs), 0);
    StringReads(text, p, cs);
  }

  // Every document within the limits is read.

  lemma ScalarReads(lib: Library, text: Text, p: nat, doc: Doc, depth: nat)
    requires !doc.List? && !doc.Record? && Within(lib, doc, depth)
    requires At(text, p, DocText(doc)) && Follows(text, p + |DocText(doc)|)
    ensures p < |text| && ValueAt(lib, text, p, depth) == Some(Parsed(DocValue(lib, doc), p + |DocText(doc)|))
  {
    hide Str.StringAt, NumberAt, StringText, StringValue, StringOk;
    var w := DocText(doc);
    match doc
    case Numeral(t) => NumberRound(lib, text, p, t, lib.kind(t) == Integral);
    case Quoted(cs) => StringOf(text, p, cs);
    case NullWord =>
      AtIndex(text, p, w, 0);
      LiteralRound(text, p, w, Null);
    case TrueWord =>
      AtIndex(text, p, w, 0);
      LiteralRound(text, p, w, Boolean(true));
    case FalseWord =>
      AtIndex(text, p, w, 0);
      LiteralRound(text, p, w, Boolean(false));
  }

  lemma {:induction false} DocReads(lib: Library, text: Text, p: nat, doc: Doc, depth: nat)
    requires Within(lib, doc, depth) && At(text, p, DocText(doc)) && Follows(text, p + |DocText(doc)|)
    ensures p < |text| && ValueAt(lib, text, p, depth) == Some(Parsed(DocValue(lib, doc), p + |DocText(doc)|))
    decreases doc, 0
  {
    hide ValueAt, At, DocText, DocValue, Within;
    match doc {
      case List(open, items) => ListReads(lib, text, p, open, items, depth);
      case Record(open, fields) => RecordReads(lib, text, p, open, fields, depth);
      case _ => ScalarReads(lib, text, p, doc, depth);
    }
  }

  lemma {:induction false} ListReads(lib: Library, text: Text, p: nat, open: Gap, items: Items, depth: nat)
    requires Within(lib, List(open, items), depth) && At(text, p, DocText(List(open, items)))
    ensures p < |text|
    ensures ValueAt(lib, text, p, depth) == Some(Parsed(DocValue(lib, List(open, items)), p + |DocText(List(open, items))|))
    decreases items, 1
  {
    hide ValueAt, ArrayAt, At, GapText, ItemsText, ItemsWithin, Values;
    var inside := GapText(open) + (ItemsText(items) + [CLOSE_BRACKET]);
    AtSplit(text, p, [OPEN_BRACKET], inside);
    AtIndex(text, p, [OPEN_BRACKET], 0);
    ArrayOpens(lib, text, p, depth);
    ItemsRead(lib, text, p, open, items, depth + 1, []);
    assert [] + Values(lib, items) == Values(lib, items);
  }

  /** The rest of an array after its bracket or a comma. */
  lemma {:induction false} ItemsRead(lib: Library, text: Text, p: nat, gap: Gap, items: Items, depth: nat, done: seq<Value>)
    requires p < |text| && IsGap(gap) && ItemsWithin(lib, items, depth) && |done| + |Values(lib, items)| <= MAX_ELEMENTS
    requires At(text, p + 1, GapText(gap) + (ItemsText(items) + [CLOSE_BRACKET]))
    ensures ArrayAt(lib, text, p, depth, done)
         == Some(Parsed(Array(done + Values(lib, items)), p + 2 + |GapText(gap)| + |ItemsText(items)|))
    decreases items, 0
  {
    hide ValueAt, ArrayAt, At, GapText, IsGap, DocText, DocValue, Within, Space.Skip;
    match items {
      case NoItems =>
        assert ItemsText(items) + [CLOSE_BRACKET] == [CLOSE_BRACKET];
        GapThen(text, p + 1, gap, [CLOSE_BRACKET]);
        ArrayCloses(lib, text, p, depth, done);
        assert done + [] == done;
      case LastItem(doc, after) =>
        Assoc(DocText(doc), GapText(after), [CLOSE_BRACKET]);
        ItemDone(lib, text, p, gap, doc, after, [CLOSE_BRACKET], depth, done);
      case MoreItems(doc, after, comma, rest) =>
        var inner := GapText(comma) + (ItemsText(rest) + [CLOSE_BRACKET]);
        MoreSplit(DocText(doc), GapText(after), GapText(comma), ItemsText(rest), [CLOSE_BRACKET]);
        ItemDone(lib, text, p, gap, doc, after, [COMMA] + inner, depth, done);
        var t := p + 1 + |GapText(gap)| + |DocText(doc)| + |GapText(after)|;
        AtSplit(text, t, [COMMA], inner);
        ItemsRead(lib, text, t, comma, rest, depth, done + [DocValue(lib, doc)]);
        assert (done + [DocValue(lib, doc)]) + Values(lib, rest) == done + ([DocValue(lib, doc)] + Values(lib, rest));
    }
  }

  /** One element, and the bracket or the comma after it. */
  lemma {:induction false} ItemDone(lib: Library, text: Text, p: nat, gap: Gap, doc: Doc, after: Gap, rest: Text, depth: nat, done: seq<Value>)
    requires p < |text| && IsGap(gap) && Within(lib, doc, depth) && IsGap(after) && |done| < MAX_ELEMENTS
    requires rest != [] && (rest[0] == COMMA || rest[0] == CLOSE_BRACKET)
    requires At(text, p + 1, GapText(gap) + (DocText(doc) + (GapText(after) + rest)))
    ensures var t := p + 1 + |GapText(gap)| + |DocText(doc)| + |GapText(after)|;
            var done' := done + [DocValue(lib, doc)];
            && t < |text| && At(text, t, rest)
            && ArrayAt(lib, text, p, depth, done) ==
                 if rest[0] == CLOSE_BRACKET then Some(Parsed(Array(done'), t + 1)) else ArrayAt(lib, text, t, depth, done')
    decreases doc, 2
  {
    hide ValueAt, ArrayAt, At, GapText, IsGap, DocText, DocValue, Within, Space.Skip, AfterElement;
    var q := p + 1 + |GapText(gap)|;
    var t := q + |DocText(doc)|;
    ItemReads(lib, text, p, gap, doc, GapText(after) + rest, depth, done);
    GapFollows(text, t, after, rest);
    DocReads(lib, text, q, doc, depth);
    ElementStep(lib, text, p, depth, done, Parsed(DocValue(lib, doc), t));
    GapThen(text, t, after, rest);
    ElementThen(lib, text, t, depth, done + [DocValue(lib, doc)]);
  }

  lemma MoreSplit(a: Text, b: Text, c: Text, d: Text, e: Text)
    ensures (a + (b + ([COMMA] + (c + d)))) + e == a + (b + ([COMMA] + (c + (d + e))))
  {
  }

  lemma ArrayCloses(lib: Library, text: Text, p: nat, depth: nat, done: seq<Value>)
    requires p < |text| && Space.Skip(text, p + 1) < |text| && text[Space.Skip(text, p + 1)] == CLOSE_BRACKET
    ensures ArrayAt(lib, text, p, depth, done) == Some(Parsed(Array(done), Space.Skip(text, p + 1) + 1))
  {
  }

  lemma ElementThen(lib: Library, text: Text, q: nat, depth: nat, done: seq<Value>)
    requires q <= |text| && Space.Skip(text, q) < |text|
    ensures var t := Space.Skip(text, q);
            AfterElement(lib, text, q, depth, done) ==
              if text[t] == CLOSE_BRACKET then Some(Parsed(Array(done), t + 1))
              else if text[t] == COMMA then ArrayAt(lib, text, t, depth, done) else None
  {
    hide ArrayAt;
  }

  /** Where the element after the bracket or comma at p starts. */
  lemma ItemReads(lib: Library, text: Text, p: nat, gap: Gap, doc: Doc, tail: Text, depth: nat, done: seq<Value>)
    requires p < |text| && IsGap(gap) && Within(lib, doc, depth)
    requires At(text, p + 1, GapText(gap) + (DocText(doc) + tail))
    ensures var q := p + 1 + |GapText(gap)|;
            && q < |text| && Space.Skip(text, p + 1) == q && text[q] != CLOSE_BRACKET
            && At(text, q, DocText(doc)) && At(text, q + |DocText(doc)|, tail)
  {
    hide Within, DocText, GapText, At, Space.Skip;
    DocStarts(lib, doc, depth);
    NotBlankStart(DocText(doc)[0]);
    GapThen(text, p + 1, gap, DocText(doc) + tail);
    AtSplit(text, p + 1 + |GapText(gap)|, DocText(doc), tail);
  }

  // Objects.

  lemma NameReads(text: Text, q: nat, name: Name, rest: Text)
    requires NameOk(name) && At(text, q, NameText(name) + rest) && rest != [] && IsStart(rest[0])
    ensures q < |text| && text[q] == QUOTE
    ensures NameAt(text, q) == Some((StringValue(name.cs), q + |NameText(name)|)) && At(text, q + |NameText(name)|, rest)
  {
    hide At, GapText, IsGap, StringText, StringOk, StringValue, Space.Skip, Str.StringAt;
    var s, g, h := StringText(name.cs), GapText(name.colon), GapText(name.start);
    NameSplit(s, g, h, rest);
    AtSplit(text, q, s, g + ([COLON] + (h + rest)));
    StringOf(text, q, name.cs);
    GapThen(text, q + |s|, name.colon, [COLON] + (h + rest));
    var c := q + |s| + |g|;
    AtSplit(text, c, [COLON], h + rest);
    NotBlankStart(rest[0]);
    GapThen(text, c + 1, name.start, rest);
  }

  lemma NameSplit(s: Text, g: Text, h: Text, rest: Text)
    ensures (s + (g + ([COLON] + h))) + rest == s + (g + ([COLON] + (h + rest)))
  {
  }

  lemma {:induction false} RecordReads(lib: Library, text: Text, p: nat, open: Gap, fields: Fields, depth: nat)
    requires Within(lib, Record(open, fields), depth) && At(text, p, DocText(Record(open, fields)))
    ensures p < |text|
    ensures ValueAt(lib, text, p, depth) == Some(Parsed(DocValue(lib, Record(open, fields)), p + |DocText(Record(open, fields))|))
    decreases fields, 1
  {
    hide ValueAt, ObjectAt, At, GapText, FieldsText, FieldsWithin, Members;
    var inside := GapText(open) + (FieldsText(fields) + [CLOSE_BRACE]);
    AtSplit(text, p, [OPEN_BRACE], inside);
    AtIndex(text, p, [OPEN_BRACE], 0);
    ObjectOpens(lib, text, p, depth);
    assert [] + Members(lib, fields) == Members(lib, fields);
    FieldsRead(lib, text, p, open, fields, depth + 1, []);
  }

  /** Where the member after the brace or comma at p starts, and its value. */
  lemma FieldReads(lib: Library, text: Text, p: nat, gap: Gap, name: Name, doc: Doc, tail: Text, depth: nat)
    requires p < |text| && IsGap(gap) && NameOk(name) && Within(lib, doc, depth)
    requires At(text, p + 1, GapText(gap) + (NameText(name) + (DocText(doc) + tail)))
    ensures var q, start := p + 1 + |GapText(gap)|, p + 1 + |GapText(gap)| + |NameText(name)|;
            && q < |text| && Space.Skip(text, p + 1) == q && text[q] == QUOTE && start < |text|
            && NameAt(text, q) == Some((StringValue(name.cs), start))
            && At(text, start, DocText(doc)) && At(text, start + |DocText(doc)|, tail)
  {
    hide Within, DocText, GapText, At, Space.Skip, NameOk, NameAt, StringValue;
    var q := p + 1 + |GapText(gap)|;
    DocStarts(lib, doc, depth);
    NameStarts(name);
    GapThen(text, p + 1, gap, NameText(name) + (DocText(doc) + tail));
    NameReads(text, q, name, DocText(doc) + tail);
    AtSplit(text, q + |NameText(name)|, DocText(doc), tail);
    AtIndex(text, q + |NameText(name)|, DocText(doc), 0);
  }

  lemma NameStarts(name: Name)
    requires NameOk(name)
    ensures NameText(name) != [] && NameText(name)[0] == QUOTE
  {
  }

  /** The rest of an object after its brace or a comma. */
  lemma {:induction false} FieldsRead(lib: Library, text: Text, p: nat, gap: Gap, fields: Fields, depth: nat, done: seq<Member>)
    requires p < |text| && IsGap(gap) && FieldsWithin(lib, fields, depth)
    requires |done| + |Members(lib, fields)| <= MAX_ELEMENTS && Unique(done + Members(lib, fields))
    requires At(text, p + 1, GapText(gap) + (FieldsText(fields) + [CLOSE_BRACE]))
    ensures ObjectAt(lib, text, p, depth, done)
         == Some(Parsed(Object(lib.order(done + Members(lib, fields))), p + 2 + |GapText(gap)| + |FieldsText(fields)|))
    decreases fields, 0
  {
    hide ValueAt, ObjectAt, At, GapText, IsGap, DocText, DocValue, Within, Space.Skip, NameText, NameOk, Unique, Names, StringValue;
    match fields {
      case NoFields =>
        assert FieldsText(fields) + [CLOSE_BRACE] == [CLOSE_BRACE];
        GapThen(text, p + 1, gap, [CLOSE_BRACE]);
        ObjectCloses(lib, text, p, depth, done);
        assert done + [] == done;
      case LastField(name, doc, after) =>
        var m := Member(StringValue(name.cs), DocValue(lib, doc));
        LastSplit(NameText(name), DocText(doc), GapText(after), [CLOSE_BRACE]);
        assert [m] + [] == [m];
        NewName(done, m, []);
        FieldDone(lib, text, p, gap, name, doc, after, [CLOSE_BRACE], depth, done);
      case MoreFields(name, doc, after, comma, rest) =>
        var m := Member(StringValue(name.cs), DocValue(lib, doc));
        var inner := GapText(comma) + (FieldsText(rest) + [CLOSE_BRACE]);
        MoreFieldsSplit(NameText(name), DocText(doc), GapText(after), GapText(comma), FieldsText(rest), [CLOSE_BRACE]);
        NewName(done, m, Members(lib, rest));
        FieldDone(lib, text, p, gap, name, doc, after, [COMMA] + inner, depth, done);
        var t := p + 1 + |GapText(gap)| + |NameText(name)| + |DocText(doc)| + |GapText(after)|;
        AtSplit(text, t, [COMMA], inner);
        FieldsRead(lib, text, t, comma, rest, depth, done + [m]);
    }
  }

  /** One member, and the brace or the comma after it. */
  lemma {:induction false} FieldDone(lib: Library, text: Text, p: nat, gap: Gap, name: Name, doc: Doc, after: Gap, rest: Text,
                                     depth: nat, done: seq<Member>)
    requires p < |text| && IsGap(gap) && NameOk(name) && Within(lib, doc, depth) && IsGap(after) && |done| < MAX_ELEMENTS
    requires rest != [] && (rest[0] == COMMA || rest[0] == CLOSE_BRACE) && StringValue(name.cs) !in Names(done)
    requires At(text, p + 1, GapText(gap) + (NameText(name) + (DocText(doc) + (GapText(after) + rest))))
    ensures var t := p + 1 + |GapText(gap)| + |NameText(name)| + |DocText(doc)| + |GapText(after)|;
            var done' := done + [Member(StringValue(name.cs), DocValue(lib, doc))];
            && t < |text| && At(text, t, rest)
            && ObjectAt(lib, text, p, depth, done) ==
                 if rest[0] == CLOSE_BRACE then Some(Parsed(Object(lib.order(done')), t + 1)) else ObjectAt(lib, text, t, depth, done')
    decreases doc, 2
  {
    hide ValueAt, ObjectAt, At, GapText, IsGap, DocText, DocValue, Within, Space.Skip, AfterMember, NameText, NameOk, NameAt, Names, StringValue;
    var start := p + 1 + |GapText(gap)| + |NameText(name)|;
    var t, m := start + |DocText(doc)|, Member(StringValue(name.cs), DocValue(lib, doc));
    FieldReads(lib, text, p, gap, name, doc, GapText(after) + rest, depth);
    GapFollows(text, t, after, rest);
    DocReads(lib, text, start, doc, depth);
    MemberStep(lib, text, p, depth, done, m.name, start, Parsed(m.value, t));
    GapThen(text, t, after, rest);
    MemberThen(lib, text, t, depth, done + [m]);
  }

  lemma LastSplit(n: Text, a: Text, b: Text, e: Text)
    ensures (n + (a + b)) + e == n + (a + (b + e))
  {
  }

  lemma MoreFieldsSplit(n: Text, a: Text, b: Text, c: Text, d: Text, e: Text)
    ensures (n + (a + (b + ([COMMA] + (c + d))))) + e == n + (a + (b + ([COMMA] + (c + (d + e)))))
  {
  }

  lemma NewName(done: seq<Member>, m: Member, rest: seq<Member>)
    requires Unique(done + ([m] + rest))
    ensures m.name !in Names(done) && Unique((done + [m]) + rest) && (done + [m]) + rest == done + ([m] + rest)
  {
    var all := done + ([m] + rest);
    assert (done + [m]) + rest == all && all[|done|] == m;
    forall x | x in done ensures x.name != m.name {
      var i :| 0 <= i < |done| && done[i] == x;
      assert all[i] == x;
    }
  }

  lemma ObjectCloses(lib: Library, text: Text, p: nat, depth: nat, done: seq<Member>)
    requires p < |text| && Space.Skip(text, p + 1) < |text| && text[Space.Skip(text, p + 1)] == CLOSE_BRACE
    ensures ObjectAt(lib, text, p, depth, done) == Some(Parsed(Object(lib.order(done)), Space.Skip(text, p + 1) + 1))
  {
  }

  lemma MemberThen(lib: Library, text: Text, q: nat, depth: nat, done: seq<Member>)
    requires q <= |text| && Space.Skip(text, q) < |text|
    ensures var t := Space.Skip(text, q);
            AfterMember(lib, text, q, depth, done) ==
              if text[t] == CLOSE_BRACE then Some(Parsed(Object(lib.order(done)), t + 1))
              else if text[t] == COMMA then ObjectAt(lib, text, t, depth, done) else None
  {
    hide ObjectAt;
  }

  /** Every text of a document within the limits, with gaps around it, is accepted and read as its value. */
  lemma TextReads(lib: Library, before: Gap, doc: Doc, after: Gap)
    requires IsGap(before) && Within(lib, doc, 0) && IsGap(after)
    ensures Parse(lib, GapText(before) + (DocText(doc) + GapText(after))) == Some(DocValue(lib, doc))
  {
    hide ValueAt, At, GapText, IsGap, DocText, DocValue, Within, Space.Skip;
    var text := GapText(before) + (DocText(doc) + GapText(after));
    var p := |GapText(before)|;
    var q := p + |DocText(doc)|;
    AtWhole(text);
    DocStarts(lib, doc, 0);
    NotBlankStart(DocText(doc)[0]);
    GapThen(text, 0, before, DocText(doc) + GapText(after));
    AtSplit(text, p, DocText(doc), GapText(after));
    assert GapText(after) + [] == GapText(after);
    GapFollows(text, q, after, []);
    DocReads(lib, text, p, doc, 0);
    GapSkips(text, q, after);
    SkipEnd(text);
  }

  lemma AtWhole(text: Text)
    ensures At(text, 0, text)
  {
  }

  lemma SkipEnd(text: Text)
    ensures Space.Skip(text, |text|) == |text|
  {
  }

  // What is accepted was written so.

  lemma WordAt(text: Text, p: nat, w: Text)
    requires HasWord(text, p, w)
    ensures At(text, p, w)
  {
    forall i | 0 <= i < |w| ensures w[i] == text[p + i] { assert text[p..p + |w|][i] == text[p + i]; }
  }

  lemma SliceAt(text: Text, p: nat, q: nat)
    requires p <= q <= |text|
    ensures At(text, p, text[p..q])
  {
  }

  lemma StringWas(text: Text, p: nat) returns (cs: seq<Spelled>)
    requires p < |text| && text[p] == QUOTE && Str.StringAt(text, p).Some?
    ensures StringOk(cs) && At(text, p, StringText(cs))
    ensures Str.StringAt(text, p) == Some(Str.Str(StringValue(cs), p + |StringText(cs)|))
  {
    hide Spellings, Spelling.Meanings, Rooms, Str.StringAt, AllSpell, At;
    cs := StringWasSpelled(text, p);
    StringOf(text, p, cs);
  }

  lemma NumeralWas(lib: Library, text: Text, p: nat) returns (t: Text)
    requires p < |text| && NumberAt(lib, text, p).Some?
    ensures NumberFits(lib, t, lib.kind(t) == Integral) && At(text, p, t)
    ensures NumberAt(lib, text, p).value == Parsed(Number(t, lib.kind(t) == Integral), p + |t|)
  {
    hide Num.NumberEnd;
    var q := Num.NumberEnd(text, p).value;
    t := text[p..q];
    Num.NumberMoves(text, p, q, t, 0);
  }

  lemma ScalarWas(lib: Library, text: Text, p: nat, depth: nat) returns (doc: Doc)
    requires p < |text| && ValueAt(lib, text, p, depth).Some? && text[p] != OPEN_BRACE && text[p] != OPEN_BRACKET
    ensures Within(lib, doc, depth) && At(text, p, DocText(doc))
    ensures ValueAt(lib, text, p, depth).value == Parsed(DocValue(lib, doc), p + |DocText(doc)|)
  {
    hide Str.StringAt, NumberAt, NumberFits, StringOk, StringText, StringValue, At;
    var ch := text[p];
    if ch == QUOTE {
      var cs := StringWas(text, p);
      doc := Quoted(cs);
    } else if ch == TRUE_TEXT[0] {
      doc := TrueWord;
      WordAt(text, p, TRUE_TEXT);
    } else if ch == FALSE_TEXT[0] {
      doc := FalseWord;
      WordAt(text, p, FALSE_TEXT);
    } else if ch == NULL_TEXT[0] {
      doc := NullWord;
      WordAt(text, p, NULL_TEXT);
    } else {
      var t := NumeralWas(lib, text, p);
      doc := Numeral(t);
    }
  }

  lemma {:induction false} DocWas(lib: Library, text: Text, p: nat, depth: nat) returns (doc: Doc)
    requires p < |text| && ValueAt(lib, text, p, depth).Some?
    ensures Within(lib, doc, depth) && At(text, p, DocText(doc))
    ensures ValueAt(lib, text, p, depth).value == Parsed(DocValue(lib, doc), p + |DocText(doc)|)
    decreases |text| - p, 1
  {
    hide At, GapText, IsGap, ArrayAt, ObjectAt, ItemsText, FieldsText, ItemsWithin, FieldsWithin, NumberAt, Unique, Str.StringAt;
    if text[p] == OPEN_BRACKET {
      var gap, items := ItemsWere(lib, text, p, depth + 1, []);
      doc := List(gap, items);
      assert [] + Values(lib, items) == Values(lib, items);
      OneAt(text, p);
      AtJoin(text, p, [OPEN_BRACKET], GapText(gap) + (ItemsText(items) + [CLOSE_BRACKET]));
    } else if text[p] == OPEN_BRACE {
      NoNames();
      var gap, fields := FieldsWere(lib, text, p, depth + 1, []);
      doc := Record(gap, fields);
      assert [] + Members(lib, fields) == Members(lib, fields);
      OneAt(text, p);
      AtJoin(text, p, [OPEN_BRACE], GapText(gap) + (FieldsText(fields) + [CLOSE_BRACE]));
    } else {
      doc := ScalarWas(lib, text, p, depth);
    }
  }

  lemma OneAt(text: Text, p: nat)
    requires p < |text|
    ensures At(text, p, [text[p]])
  {
  }

  lemma NoNames()
    ensures Unique([])
  {
  }

  /** The rest of an array after its bracket or a comma. */
  lemma {:induction false} ItemsWere(lib: Library, text: Text, p: nat, depth: nat, done: seq<Value>) returns (gap: Gap, items: Items)
    requires p < |text| && ArrayAt(lib, text, p, depth, done).Some? && |done| <= MAX_ELEMENTS
    ensures IsGap(gap) && ItemsWithin(lib, items, depth) && |done| + |Values(lib, items)| <= MAX_ELEMENTS
    ensures At(text, p + 1, GapText(gap) + (ItemsText(items) + [CLOSE_BRACKET]))
    ensures ArrayAt(lib, text, p, depth, done).value
         == Parsed(Array(done + Values(lib, items)), p + 2 + |GapText(gap)| + |ItemsText(items)|)
    decreases |text| - p, 0
  {
    hide At, GapText, IsGap, ValueAt, ArrayAt, DocText, DocValue, Within, Space.Skip;
    ArrayUnfolds(lib, text, p, depth, done);
    gap := SkippedWasGap(text, p + 1);
    var q := p + 1 + |GapText(gap)|;
    OneAt(text, q);
    if text[q] == CLOSE_BRACKET {
      items := NoItems;
      assert ItemsText(items) + [CLOSE_BRACKET] == [CLOSE_BRACKET] && done + Values(lib, items) == done;
      AtJoin(text, p + 1, GapText(gap), [CLOSE_BRACKET]);
    } else {
      var doc := DocWas(lib, text, q, depth);
      var end := q + |DocText(doc)|;
      var after := SkippedWasGap(text, end);
      var t := end + |GapText(after)|;
      var done' := done + [DocValue(lib, doc)];
      OneAt(text, t);
      if text[t] == CLOSE_BRACKET {
        items := LastItem(doc, after);
        ItemJoined(text, p, gap, doc, after, [CLOSE_BRACKET]);
        Assoc(DocText(doc), GapText(after), [CLOSE_BRACKET]);
      } else {
        var comma, rest := ItemsWere(lib, text, t, depth, done');
        items := MoreItems(doc, after, comma, rest);
        var inner := GapText(comma) + (ItemsText(rest) + [CLOSE_BRACKET]);
        AtJoin(text, t, [COMMA], inner);
        ItemJoined(text, p, gap, doc, after, [COMMA] + inner);
        MoreSplit(DocText(doc), GapText(after), GapText(comma), ItemsText(rest), [CLOSE_BRACKET]);
        assert done' + Values(lib, rest) == done + ([DocValue(lib, doc)] + Values(lib, rest));
      }
    }
  }

  lemma ArrayUnfolds(lib: Library, text: Text, p: nat, depth: nat, done: seq<Value>)
    requires p < |text| && ArrayAt(lib, text, p, depth, done).Some?
    ensures var r, q := ArrayAt(lib, text, p, depth, done), Space.Skip(text, p + 1);
            && q < |text|
            && (text[q] == CLOSE_BRACKET ==> r == Some(Parsed(Array(done), q + 1)))
            && (text[q] != CLOSE_BRACKET ==>
                  && |done| < MAX_ELEMENTS && ValueAt(lib, text, q, depth).Some?
                  && var v := ValueAt(lib, text, q, depth).value;
                     var t, done' := Space.Skip(text, v.end), done + [v.value];
                     && t < |text|
                     && (text[t] == CLOSE_BRACKET ==> r == Some(Parsed(Array(done'), t + 1)))
                     && (text[t] != CLOSE_BRACKET ==> text[t] == COMMA && r == ArrayAt(lib, text, t, depth, done')))
  {
    hide ValueAt, Space.Skip;
  }

  lemma ItemJoined(text: Text, p: nat, gap: Gap, doc: Doc, after: Gap, rest: Text)
    requires At(text, p + 1, GapText(gap)) && At(text, p + 1 + |GapText(gap)|, DocText(doc))
    requires At(text, p + 1 + |GapText(gap)| + |DocText(doc)|, GapText(after))
    requires At(text, p + 1 + |GapText(gap)| + |DocText(doc)| + |GapText(after)|, rest)
    ensures At(text, p + 1, GapText(gap) + (DocText(doc) + (GapText(after) + rest)))
  {
    hide At, GapText, DocText;
    var q := p + 1 + |GapText(gap)|;
    AtJoin(text, q + |DocText(doc)|, GapText(after), rest);
    AtJoin(text, q, DocText(doc), GapText(after) + rest);
    AtJoin(text, p + 1, GapText(gap), DocText(doc) + (GapText(after) + rest));
  }

  lemma NameWas(text: Text, q: nat) returns (name: Name)
    requires q < |text| && text[q] == QUOTE && NameAt(text, q).Some?
    ensures NameOk(name) && At(text, q, NameText(name)) && NameAt(text, q).value == (StringValue(name.cs), q + |NameText(name)|)
  {
    hide At, GapText, IsGap, StringText, StringOk, StringValue, Space.Skip, Str.StringAt;
    var cs := StringWas(text, q);
    var s := q + |StringText(cs)|;
    var colon := SkippedWasGap(text, s);
    var c := s + |GapText(colon)|;
    var start := SkippedWasGap(text, c + 1);
    name := Name(cs, colon, start);
    OneAt(text, c);
    AtJoin(text, c, [COLON], GapText(start));
    AtJoin(text, s, GapText(colon), [COLON] + GapText(start));
    AtJoin(text, q, StringText(cs), GapText(colon) + ([COLON] + GapText(start)));
  }

  lemma FieldJoined(text: Text, p: nat, gap: Gap, name: Name, doc: Doc, after: Gap, rest: Text)
    requires At(text, p + 1, GapText(gap)) && At(text, p + 1 + |GapText(gap)|, NameText(name))
    requires At(text, p + 1 + |GapText(gap)| + |NameText(name)|, DocText(doc))
    requires At(text, p + 1 + |GapText(gap)| + |NameText(name)| + |DocText(doc)|, GapText(after))
    requires At(text, p + 1 + |GapText(gap)| + |NameText(name)| + |DocText(doc)| + |GapText(after)|, rest)
    ensures At(text, p + 1, GapText(gap) + (NameText(name) + (DocText(doc) + (GapText(after) + rest))))
  {
    hide At, GapText, DocText, NameText;
    var q := p + 1 + |GapText(gap)|;
    var start := q + |NameText(name)|;
    AtJoin(text, start + |DocText(doc)|, GapText(after), rest);
    AtJoin(text, start, DocText(doc), GapText(after) + rest);
    AtJoin(text, q, NameText(name), DocText(doc) + (GapText(after) + rest));
    AtJoin(text, p + 1, GapText(gap), NameText(name) + (DocText(doc) + (GapText(after) + rest)));
  }

  lemma OneMoreUnique(done: seq<Member>, m: Member)
    requires Unique(done) && m.name !in Names(done)
    ensures Unique(done + [m])
  {
    forall i | 0 <= i < |done| ensures done[i].name != m.name { assert done[i] in done; }
  }

  /** The rest of an object after its brace or a comma. */
  lemma {:induction false} FieldsWere(lib: Library, text: Text, p: nat, depth: nat, done: seq<Member>) returns (gap: Gap, fields: Fields)
    requires p < |text| && ObjectAt(lib, text, p, depth, done).Some? && |done| <= MAX_ELEMENTS && Unique(done)
    ensures IsGap(gap) && FieldsWithin(lib, fields, depth)
    ensures |done| + |Members(lib, fields)| <= MAX_ELEMENTS && Unique(done + Members(lib, fields))
    ensures At(text, p + 1, GapText(gap) + (FieldsText(fields) + [CLOSE_BRACE]))
    ensures ObjectAt(lib, text, p, depth, done).value
         == Parsed(Object(lib.order(done + Members(lib, fields))), p + 2 + |GapText(gap)| + |FieldsText(fields)|)
    decreases |text| - p, 0
  {
    hide At, GapText, IsGap, ValueAt, DocText, DocValue, Within, Space.Skip, Unique, Names, NameAt, NameOk, NameText, StringValue;
    gap := SkippedWasGap(text, p + 1);
    var q := p + 1 + |GapText(gap)|;
    OneAt(text, q);
    if text[q] == CLOSE_BRACE {
      fields := NoFields;
      assert FieldsText(fields) + [CLOSE_BRACE] == [CLOSE_BRACE] && done + Members(lib, fields) == done;
      AtJoin(text, p + 1, GapText(gap), [CLOSE_BRACE]);
    } else {
      var name := NameWas(text, q);
      var start := q + |NameText(name)|;
      var doc := DocWas(lib, text, start, depth);
      var end := start + |DocText(doc)|;
      var after := SkippedWasGap(text, end);
      var t, m := end + |GapText(after)|, Member(StringValue(name.cs), DocValue(lib, doc));
      OneMoreUnique(done, m);
      OneAt(text, t);
      if text[t] == CLOSE_BRACE {
        fields := LastField(name, doc, after);
        FieldJoined(text, p, gap, name, doc, after, [CLOSE_BRACE]);
        LastSplit(NameText(name), DocText(doc), GapText(after), [CLOSE_BRACE]);
      } else {
        var comma, rest := FieldsWere(lib, text, t, depth, done + [m]);
        fields := MoreFields(name, doc, after, comma, rest);
        var inner := GapText(comma) + (FieldsText(rest) + [CLOSE_BRACE]);
        AtJoin(text, t, [COMMA], inner);
        FieldJoined(text, p, gap, name, doc, after, [COMMA] + inner);
        MoreFieldsSplit(NameText(name), DocText(doc), GapText(after), GapText(comma), FieldsText(rest), [CLOSE_BRACE]);
        assert (done + [m]) + Members(lib, rest) == done + ([m] + Members(lib, rest));
      }
    }
  }

  /** A text that is accepted is a document within the limits, with gaps around it, and was read as its value. */
  lemma TextWas(lib: Library, text: Text) returns (before: Gap, doc: Doc, after: Gap)
    requires Parse(lib, text).Some?
    ensures IsGap(before) && Within(lib, doc, 0) && IsGap(after)
    ensures text == GapText(before) + (DocText(doc) + GapText(after)) && Parse(lib, text) == Some(DocValue(lib, doc))
  {
    hide At, GapText, IsGap, ValueAt, DocText, DocValue, Within, Space.Skip;
    before := SkippedWasGap(text, 0);
    var p := |GapText(before)|;
    doc := DocWas(lib, text, p, 0);
    after := SkippedWasGap(text, p + |DocText(doc)|);
    AtJoin(text, p, DocText(doc), GapText(after));
    AtJoin(text, 0, GapText(before), DocText(doc) + GapText(after));
    WholeAt(text, GapText(before) + (DocText(doc) + GapText(after)));
  }

  lemma WholeAt(text: Text, w: Text)
    requires At(text, 0, w) && |w| == |text|
    ensures text == w
  {
    forall i | 0 <= i < |w| ensures text[i] == w[i] { AtIndex(text, 0, w, i); }
  }
}
