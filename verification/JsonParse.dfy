/** The parser of nxt_conf_json_parse(): what it accepts, and its recursive descent. */
module JsonParse {
  import opened Bytes
  import opened JsonValue
  import Space = JsonSpace
  import Str = JsonString
  import Num = JsonNumber

  const MAX_DEPTH: nat := 100
  const MAX_ELEMENTS: nat := 100000

  datatype Parsed = Parsed(value: Value, end: nat)

  /** What may follow a number. */
  predicate IsDelimiter(b: Byte) {
    || Space.IsSpace(b) || b == COMMA || b == CLOSE_BRACE || b == CLOSE_BRACKET
    || b == OPEN_BRACE || b == OPEN_BRACKET || b == QUOTE || b == SLASH
  }

  predicate HasWord(text: Text, p: nat, w: Text) { p + |w| <= |text| && text[p..p + |w|] == w }

  function LiteralAt(text: Text, p: nat, w: Text, v: Value): Option<Parsed> {
    if HasWord(text, p, w) then Some(Parsed(v, p + |w|)) else None
  }

  function NumberAt(lib: Library, text: Text, p: nat): (r: Option<Parsed>)
    requires p < |text|
    ensures r.Some? ==> p < r.value.end <= |text|
  {
    if !Num.StartsNumber(text, p) then None
    else match Num.NumberEnd(text, p)
      case None => None
      case Some(q) =>
        if q - p > Num.MAX_NUMBER || lib.kind(text[p..q]) == OutOfRange || (q < |text| && !IsDelimiter(text[q])) then None
        else Some(Parsed(Number(text[p..q], lib.kind(text[p..q]) == Integral), q))
  }

  function ValueAt(lib: Library, text: Text, p: nat, depth: nat): (r: Option<Parsed>)
    requires p < |text|
    ensures r.Some? ==> p < r.value.end <= |text|
    decreases |text| - p, 1
  {
    var ch := text[p];
    if ch == OPEN_BRACE then if depth >= MAX_DEPTH then None else ObjectAt(lib, text, p, depth + 1, [])
    else if ch == OPEN_BRACKET then if depth >= MAX_DEPTH then None else ArrayAt(lib, text, p, depth + 1, [])
    else if ch == QUOTE then
      match Str.StringAt(text, p)
      case None => None
      case Some(s) => Some(Parsed(String(s.text), s.end))
    else if ch == TRUE_TEXT[0] then LiteralAt(text, p, TRUE_TEXT, Boolean(true))
    else if ch == FALSE_TEXT[0] then LiteralAt(text, p, FALSE_TEXT, Boolean(false))
    else if ch == NULL_TEXT[0] then LiteralAt(text, p, NULL_TEXT, Null)
    else NumberAt(lib, text, p)
  }

  /** The rest of an array: text[p] is its bracket or a comma, `done` are the elements before. */
  function ArrayAt(lib: Library, text: Text, p: nat, depth: nat, done: seq<Value>): (r: Option<Parsed>)
    requires p < |text|
    ensures r.Some? ==> p < r.value.end <= |text|
    decreases |text| - p, 0
  {
    var q := Space.Skip(text, p + 1);
    if q == |text| then None
    else if text[q] == CLOSE_BRACKET then Some(Parsed(Array(done), q + 1))
    else if |done| >= MAX_ELEMENTS then None
    else match ValueAt(lib, text, q, depth)
      case None => None
      case Some(v) =>
        var done' := done + [v.value];
        var t := Space.Skip(text, v.end);
        if t == |text| then None
        else if text[t] == CLOSE_BRACKET then Some(Parsed(Array(done'), t + 1))
        else if text[t] == COMMA then ArrayAt(lib, text, t, depth, done')
        else None
  }

  /** The name at the quote text[p], its colon, and where its value starts. */
  function NameAt(text: Text, p: nat): (r: Option<(Text, nat)>)
    requires p < |text|
    ensures r.Some? ==> p < r.value.1 < |text|
  {
    match Str.StringAt(text, p)
    case None => None
    case Some(s) =>
      var c := Space.Skip(text, s.end);
      if c == |text| || text[c] != COLON then None
      else
        var v := Space.Skip(text, c + 1);
        if v == |text| then None else Some((s.text, v))
  }

  /** The rest of an object: text[p] is its brace or a comma, `done` are the members before. */
  function ObjectAt(lib: Library, text: Text, p: nat, depth: nat, done: seq<Member>): (r: Option<Parsed>)
    requires p < |text|
    ensures r.Some? ==> p < r.value.end <= |text|
    decreases |text| - p, 0
  {
    var q := Space.Skip(text, p + 1);
    if q == |text| then None
    else if text[q] == CLOSE_BRACE then Some(Parsed(Object(lib.order(done)), q + 1))
    else if text[q] != QUOTE || |done| >= MAX_ELEMENTS then None
    else match NameAt(text, q)
      case None => None
      case Some(n) =>
        if n.0 in Names(done) then None
        else match ValueAt(lib, text, n.1, depth)
          case None => None
          case Some(v) =>
            var done' := done + [Member(n.0, v.value)];
            var t := Space.Skip(text, v.end);
            if t == |text| then None
            else if text[t] == CLOSE_BRACE then Some(Parsed(Object(lib.order(done')), t + 1))
            else if text[t] == COMMA then ObjectAt(lib, text, t, depth, done')
            else None
  }

  lemma NotANumber(lib: Library, text: Text, p: nat)
    requires p < |text| && !Num.StartsNumber(text, p)
    ensures NumberAt(lib, text, p) == None
  {
  }

  /** The whole payload. */
  function Parse(lib: Library, text: Text): Option<Value> {
    var p := Space.Skip(text, 0);
    if p == |text| then None
    else match ValueAt(lib, text, p, 0)
      case None => None
      case Some(v) => if Space.Skip(text, v.end) == |text| then Some(v.value) else None
  }

  /** The recursive descent; `depth` is the file-static counter. */
  class Parser {
    const lib: Library
    const text: Text
    var depth: nat

    constructor (lib: Library, text: Text)
      ensures this.lib == lib && this.text == text
    {
      this.lib := lib;
      this.text := text;
      depth := 0;
    }

    method ParsePayload() returns (r: Option<Value>)
      modifies this
      ensures r == Parse(lib, text) && (Space.Skip(text, 0) < |text| ==> depth == 0)
    {
      var p := Space.SkipSpace(text, 0);
      if p == |text| { return None; }
      depth := 0;
      var v := ParseValue(p);
      if v == None { return None; }
      p := Space.SkipSpace(text, v.value.end);
      if p != |text| { return None; }
      r := Some(v.value.value);
    }

    /** The counter is back where it was on every path. */
    method ParseValue(p: nat) returns (r: Option<Parsed>)
      requires p < |text|
      modifies this
      ensures r == ValueAt(lib, text, p, old(depth)) && depth == old(depth)
      decreases |text| - p, 1
    {
      hide ObjectAt, ArrayAt, NumberAt, Str.StringAt;
      var ch := text[p];
      if ch == OPEN_BRACE {
        if depth >= MAX_DEPTH { return None; }
        depth := depth + 1;
        r := ParseObject(p);
        depth := depth - 1;
        return;
      } else if ch == OPEN_BRACKET {
        if depth >= MAX_DEPTH { return None; }
        depth := depth + 1;
        r := ParseArray(p);
        depth := depth - 1;
        return;
      } else if ch == QUOTE {
        var s := Str.ParseString(text, p);
        return if s == None then None else Some(Parsed(String(s.value.text), s.value.end));
      } else if ch == TRUE_TEXT[0] {
        return if HasWord(text, p, TRUE_TEXT) then Some(Parsed(Boolean(true), p + 4)) else None;
      } else if ch == FALSE_TEXT[0] {
        return if HasWord(text, p, FALSE_TEXT) then Some(Parsed(Boolean(false), p + 5)) else None;
      } else if ch == NULL_TEXT[0] {
        return if HasWord(text, p, NULL_TEXT) then Some(Parsed(Null, p + 4)) else None;
      } else if ch == MINUS {
        if p + 1 == |text| {
          NotANumber(lib, text, p);
          return None;
        }
        ch := text[p + 1];
      }
      if !IsDigit(ch) {
        NotANumber(lib, text, p);
        return None;
      }
      r := ParseNumber(p);
    }

    method ParseNumber(p: nat) returns (r: Option<Parsed>)
      requires Num.StartsNumber(text, p)
      ensures r == NumberAt(lib, text, p)
    {
      var end := Num.ParseNumber(text, p);
      if end == None || end.value - p > Num.MAX_NUMBER { return None; }
      var kind := lib.kind(text[p..end.value]);
      if kind == OutOfRange { return None; }
      if end.value < |text| && !IsDelimiter(text[end.value]) { return None; }
      r := Some(Parsed(Number(text[p..end.value], kind == Integral), end.value));
    }

    method ParseArray(start: nat) returns (r: Option<Parsed>)
      requires start < |text|
      modifies this
      ensures r == ArrayAt(lib, text, start, old(depth), []) && depth == old(depth)
      decreases |text| - start, 0
    {
      hide ValueAt, ObjectAt, Space.Skip;
      var p, list := start, [];
      while true
        invariant start <= p < |text| && depth == old(depth)
        invariant ArrayAt(lib, text, start, old(depth), []) == ArrayAt(lib, text, p, old(depth), list)
        decreases |text| - p
      {
        var q := Space.SkipSpace(text, p + 1);
        if q == |text| { return None; }
        if text[q] == CLOSE_BRACKET { return Some(Parsed(Array(list), q + 1)); }
        if |list| >= MAX_ELEMENTS { return None; }
        var v := ParseValue(q);
        if v == None { return None; }
        list := list + [v.value.value];
        var t := Space.SkipSpace(text, v.value.end);
        if t == |text| { return None; }
        if text[t] == CLOSE_BRACKET { return Some(Parsed(Array(list), t + 1)); }
        if text[t] != COMMA { return None; }
        p := t;
      }
    }

    method ParseObject(start: nat) returns (r: Option<Parsed>)
      requires start < |text|
      modifies this
      ensures r == ObjectAt(lib, text, start, old(depth), []) && depth == old(depth)
      decreases |text| - start, 0
    {
      hide ValueAt, ArrayAt, NameAt, Names, Space.Skip;
      var p, hash := start, [];
      while true
        invariant start <= p < |text| && depth == old(depth)
        invariant ObjectAt(lib, text, start, old(depth), []) == ObjectAt(lib, text, p, old(depth), hash)
        decreases |text| - p
      {
        var q := Space.SkipSpace(text, p + 1);
        if q == |text| { return None; }
        if text[q] == CLOSE_BRACE { return Some(Parsed(Object(lib.order(hash)), q + 1)); }
        if text[q] != QUOTE || |hash| >= MAX_ELEMENTS { return None; }
        var n := ParseName(q);
        if n == None || n.value.0 in Names(hash) { return None; }
        var v := ParseValue(n.value.1);
        if v == None { return None; }
        hash := hash + [Member(n.value.0, v.value.value)];
        var t := Space.SkipSpace(text, v.value.end);
        if t == |text| { return None; }
        if text[t] == CLOSE_BRACE { return Some(Parsed(Object(lib.order(hash)), t + 1)); }
        if text[t] != COMMA { return None; }
        p := t;
      }
    }

    method ParseName(p: nat) returns (r: Option<(Text, nat)>)
      requires p < |text|
      ensures r == NameAt(text, p)
    {
      hide Str.StringAt, Space.Skip;
      var s := Str.ParseString(text, p);
      if s == None { return None; }
      var c := Space.SkipSpace(text, s.value.end);
      if c == |text| || text[c] != COLON { return None; }
      var v := Space.SkipSpace(text, c + 1);
      if v == |text| { return None; }
      r := Some((s.value.text, v));
    }
  }
}
