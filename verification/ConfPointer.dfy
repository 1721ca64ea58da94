/**
  The encoding check of a configuration and the pointer in its error report:
  nxt_conf_validate_encoding() and nxt_conf_vldt_render_pointer().
 */
module ConfPointer {
  import opened Bytes
  import opened JsonValue
  import Edit = ConfEdit
  import Path = ConfPath
  import Space = JsonSpace
  import Parse = JsonParse
  import Round = JsonRoundTrip
  import Theorems = JsonTheorems

  const TILDE: Byte := 126
  const ONE: Byte := 49

  lemma Characters()
    ensures [TILDE, ZERO, ONE, SLASH] == Ascii("~01/")
  {
  }

  // Rendering: sections 3 and 4 of RFC 6901.

  function EscapeByte(b: Byte): Text {
    if b == TILDE then [TILDE, ZERO] else if b == SLASH then [TILDE, ONE] else [b]
  }

  function Escape(s: Text): Text { if s == [] then [] else EscapeByte(s[0]) + Escape(s[1..]) }

  function Render(path: seq<Text>): Text {
    if path == [] then [] else [SLASH] + Escape(path[0]) + Render(path[1..])
  }

  // Evaluation.

  predicate NoSlash(s: Text) { forall i :: 0 <= i < |s| ==> s[i] != SLASH }

  /** The text up to the next slash, or to the end. */
  function UpToSlash(s: Text): (r: nat)
    ensures r <= |s| && NoSlash(s[..r]) && (r < |s| ==> s[r] == SLASH)
  {
    if s == [] || s[0] == SLASH then 0 else 1 + UpToSlash(s[1..])
  }

  /** Section 4: first ~1 becomes a slash, then ~0 a tilde; a tilde before anything else is an error. */
  function Unescape(s: Text): Option<Text> {
    if s == [] then Some([])
    else if s[0] != TILDE then Cons(s[0], Unescape(s[1..]))
    else if |s| < 2 then None
    else if s[1] == ONE then Cons(SLASH, Unescape(s[2..]))
    else if s[1] == ZERO then Cons(TILDE, Unescape(s[2..]))
    else None
  }

  /** The reference tokens of a pointer. */
  function Tokens(pointer: Text): Option<seq<Text>>
    decreases |pointer|
  {
    if pointer == [] then Some([])
    else if pointer[0] != SLASH then None
    else
      var n := 1 + UpToSlash(pointer[1..]);
      match Unescape(pointer[1..n])
      case None => None
      case Some(t) =>
        match Tokens(pointer[n..])
        case None => None
        case Some(ts) => Some([t] + ts)
  }

  /** An array index has no leading zeros. */
  function ArrayIndex(t: Text): Option<nat> {
    if t != [] && (forall i :: 0 <= i < |t| ==> IsDigit(t[i])) && (t[0] != ZERO || |t| == 1) then Some(Decimal(t)) else None
  }

  /** The value that a list of reference tokens leads to. */
  function Evaluate(v: Value, tokens: seq<Text>): Option<Value>
    decreases |tokens|
  {
    if tokens == [] then Some(v)
    else match v
      case Array(es) =>
        var i := ArrayIndex(tokens[0]);
        if i.Some? && i.value < |es| then Evaluate(es[i.value], tokens[1..]) else None
      case Object(ms) =>
        var k := Path.Find(ms, tokens[0]);
        if k.Some? then Evaluate(ms[k.value].value, tokens[1..]) else None
      case _ => None
  }

  function EvaluatePointer(v: Value, pointer: Text): Option<Value> {
    var tokens := Tokens(pointer);
    if tokens.None? then None else Evaluate(v, tokens.value)
  }

  // A rendered pointer has the tokens it was made from.

  lemma {:induction false} EscapedHasNoSlash(s: Text)
    ensures NoSlash(Escape(s))
  {
    if s != [] { EscapedHasNoSlash(s[1..]); }
  }

  lemma {:induction false} UnescapeEscape(s: Text)
    ensures Unescape(Escape(s)) == Some(s)
  {
    if s != [] {
      UnescapeEscape(s[1..]);
      var w := EscapeByte(s[0]);
      assert (w + Escape(s[1..]))[|w|..] == Escape(s[1..]);
      assert [s[0]] + s[1..] == s;
    }
  }

  lemma {:induction false} UpToSlashOf(a: Text, b: Text)
    requires NoSlash(a) && (b == [] || b[0] == SLASH)
    ensures UpToSlash(a + b) == |a|
  {
    if a == [] {
      assert a + b == b;
    } else {
      assert (a + b)[1..] == a[1..] + b;
      UpToSlashOf(a[1..], b);
    }
  }

  lemma OneToken(seg: Text, rest: Text)
    requires rest == [] || rest[0] == SLASH
    ensures var pointer, n := [SLASH] + Escape(seg) + rest, 1 + |Escape(seg)|;
            UpToSlash(pointer[1..]) == n - 1 && Unescape(pointer[1..n]) == Some(seg) && pointer[n..] == rest
  {
    hide *;
    var t := Escape(seg);
    var pointer := [SLASH] + t + rest;
    EscapedHasNoSlash(seg);
    UpToSlashOf(t, rest);
    UnescapeEscape(seg);
    assert pointer[1..] == t + rest && pointer[1..1 + |t|] == t && pointer[1 + |t|..] == rest;
  }

  lemma {:induction false} TokensOfRendered(path: seq<Text>)
    ensures Tokens(Render(path)) == Some(path)
    ensures Render(path) == [] || Render(path)[0] == SLASH
    decreases |path|
  {
    hide Escape, Unescape, UpToSlash;
    if path != [] {
      TokensOfRendered(path[1..]);
      OneToken(path[0], Render(path[1..]));
      assert [path[0]] + path[1..] == path;
    }
  }

  // The code: a size pass, then the text is filled from its end.

  function EscapedSize(s: Text): nat { if s == [] then 0 else (if s[0] == TILDE || s[0] == SLASH then 2 else 1) + EscapedSize(s[1..]) }

  lemma {:induction false} EscapedSizeIs(s: Text)
    ensures EscapedSize(s) == |Escape(s)|
  {
    if s != [] { EscapedSizeIs(s[1..]); }
  }

  lemma {:induction false} EscapeSnoc(s: Text, b: Byte)
    ensures Escape(s + [b]) == Escape(s) + EscapeByte(b)
  {
    if s == [] {
      assert s + [b] == [b] && [b][1..] == [];
    } else {
      assert (s + [b])[1..] == s[1..] + [b];
      EscapeSnoc(s[1..], b);
      assert EscapeByte(s[0]) + (Escape(s[1..]) + EscapeByte(b)) == (EscapeByte(s[0]) + Escape(s[1..])) + EscapeByte(b);
    }
  }

  lemma {:induction false} RenderSnoc(path: seq<Text>, t: Text)
    ensures Render(path + [t]) == Render(path) + ([SLASH] + Escape(t))
  {
    if path == [] {
      assert path + [t] == [t] && [t][1..] == [];
      assert [SLASH] + Escape(t) + [] == [SLASH] + Escape(t);
    } else {
      assert (path + [t])[1..] == path[1..] + [t];
      RenderSnoc(path[1..], t);
      var head := [SLASH] + Escape(path[0]);
      assert head + (Render(path[1..]) + ([SLASH] + Escape(t))) == (head + Render(path[1..])) + ([SLASH] + Escape(t));
    }
  }

  lemma PathPrefixes(path: seq<Text>, k: nat)
    requires k < |path|
    ensures Render(path[..k + 1]) == Render(path[..k]) + ([SLASH] + Escape(path[k]))
  {
    assert path[..k + 1] == path[..k] + [path[k]];
    RenderSnoc(path[..k], path[k]);
  }

  lemma WholePath(path: seq<Text>)
    ensures Render(path[..|path|]) == Render(path) && Render(path[..0]) == []
  {
    assert path[..|path|] == path && path[..0] == [];
  }

  /** One segment of the size pass; nothing is returned when the sum could pass SIZE_MAX. */
  method SizeSegment(seg: Text, size: nat) returns (r: Option<nat>)
    requires size <= SIZE_MAX
    ensures r.Some? ==> r.value == size + |Escape(seg)| <= SIZE_MAX
    ensures r.None? ==> size + |Escape(seg)| >= SIZE_MAX
  {
    var sum := size;
    EscapedSizeIs(seg);
    assert seg[0..] == seg;
    for n := 0 to |seg|
      invariant sum <= SIZE_MAX && sum + EscapedSize(seg[n..]) == size + EscapedSize(seg)
    {
      assert seg[n..][1..] == seg[n + 1..];
      if sum >= SIZE_MAX - 1 { return None; }
      sum := sum + if seg[n] == TILDE || seg[n] == SLASH then 2 else 1;
    }
    return Some(sum);
  }

  method Size(path: seq<Text>) returns (r: Option<nat>)
    ensures r.Some? ==> r.value == |Render(path)| <= SIZE_MAX
    ensures r.None? ==> |Render(path)| >= SIZE_MAX
  {
    hide Render, Escape;
    var size: nat := 0;
    WholePath(path);
    for k := |path| downto 0
      invariant size <= SIZE_MAX && size + |Render(path[..k])| == |Render(path)|
    {
      PathPrefixes(path, k);
      if size == SIZE_MAX { return None; }
      var next := SizeSegment(path[k], size + 1);
      if next.None? { return None; }
      size := next.value;
    }
    return Some(size);
  }

  /** `*--p` for each byte, from the last: nothing from p on changes. */
  method Before(buffer: array<Byte>, p: nat, bytes: Text) returns (q: nat)
    requires |bytes| <= p <= buffer.Length && 1 <= |bytes| <= 2
    modifies buffer
    ensures q == p - |bytes| && buffer[q..] == bytes + old(buffer[p..])
  {
    q := p - 1;
    buffer[q] := bytes[|bytes| - 1];
    if |bytes| == 2 {
      q := q - 1;
      buffer[q] := bytes[0];
    }
  }

  lemma Prefixes(seg: Text, n: nat)
    requires n < |seg|
    ensures Escape(seg[..n + 1]) == Escape(seg[..n]) + EscapeByte(seg[n]) && 1 <= |EscapeByte(seg[n])| <= 2
  {
    assert seg[..n + 1] == seg[..n] + [seg[n]];
    EscapeSnoc(seg[..n], seg[n]);
  }

  lemma WholeSegment(seg: Text)
    ensures Escape(seg[..|seg|]) == Escape(seg) && Escape(seg[..0]) == []
  {
    assert seg[..|seg|] == seg && seg[..0] == [];
  }

  /** The segment is written so that it ends at p. */
  method FillSegment(buffer: array<Byte>, p: nat, seg: Text) returns (q: nat)
    requires |Escape(seg)| <= p <= buffer.Length
    modifies buffer
    ensures q == p - |Escape(seg)| && buffer[q..] == Escape(seg) + old(buffer[p..])
  {
    hide Escape;
    q := p;
    WholeSegment(seg);
    for n := |seg| downto 0
      invariant p - |Escape(seg)| + |Escape(seg[..n])| == q <= buffer.Length
      invariant Escape(seg[..n]) + buffer[q..] == Escape(seg) + old(buffer[p..])
    {
      Prefixes(seg, n);
      Assoc(Escape(seg[..n]), EscapeByte(seg[n]), buffer[q..]);
      q := Before(buffer, q, EscapeByte(seg[n]));
    }
    assert [] + buffer[q..] == buffer[q..];
  }

  /** The pointer to a path, unless its length cannot be counted. */
  ghost predicate PointsTo(pointer: Option<Text>, path: seq<Text>) {
    match pointer
    case Some(text) => text == Render(path)
    case None => |Render(path)| >= SIZE_MAX
  }

  /** The size pass and the backward fill agree exactly. */
  method RenderPointer(path: seq<Text>) returns (pointer: Option<Text>)
    ensures PointsTo(pointer, path)
  {
    hide Render, Escape;
    WholePath(path);
    var size := Size(path);
    if size.None? { return None; }
    var buffer := new Byte[size.value];
    var p := size.value;
    assert Render(path) + [] == Render(path);
    for k := |path| downto 0
      invariant p == |Render(path[..k])| <= buffer.Length && Render(path[..k]) + buffer[p..] == Render(path)
    {
      PathPrefixes(path, k);
      Assoc(Render(path[..k]), [SLASH] + Escape(path[k]), buffer[p..]);
      Assoc([SLASH], Escape(path[k]), buffer[p..]);
      p := FillSegment(buffer, p, path[k]);
      p := Before(buffer, p, [SLASH]);
    }
    assert buffer[0..] == buffer[..] && [] + buffer[..] == buffer[..];
    pointer := Some(buffer[..]);
  }

  // The walk.

  lemma {:induction false} DecimalOfText(n: nat)
    ensures ArrayIndex(DecimalText(n)) == Some(n)
  {
    var t := DecimalText(n);
    assert Decimal(t) == n by { DecimalBack(n); }
    if n == 0 { assert |t| == 1; }
  }

  /** All strings and member names pass. */
  ghost predicate AllValid(v: Value, utf8: Text -> bool)
    decreases v
  {
    match v
    case String(s) => utf8(s)
    case Array(es) => forall i :: 0 <= i < |es| ==> AllValid(es[i], utf8)
    case Object(ms) => forall i :: 0 <= i < |ms| ==> utf8(ms[i].name) && AllValid(ms[i].value, utf8)
    case _ => true
  }

  /** The path to the first offending string, or to the object that has the first offending name. */
  function FirstBad(v: Value, utf8: Text -> bool): Option<seq<Text>>
    decreases v
  {
    match v
    case String(s) => if utf8(s) then None else Some([])
    case Array(es) => FirstBadElement(es, utf8, 0)
    case Object(ms) => FirstBadMember(ms, utf8, 0)
    case _ => None
  }

  function Under(t: Text, r: Option<seq<Text>>): Option<seq<Text>> { if r.None? then None else Some([t] + r.value) }

  function FirstBadElement(es: seq<Value>, utf8: Text -> bool, i: nat): Option<seq<Text>>
    requires i <= |es|
    decreases es, |es| - i
  {
    if i == |es| then None
    else
      var r := Under(DecimalText(i), FirstBad(es[i], utf8));
      if r.Some? then r else FirstBadElement(es, utf8, i + 1)
  }

  function FirstBadMember(ms: seq<Member>, utf8: Text -> bool, i: nat): Option<seq<Text>>
    requires i <= |ms|
    decreases ms, |ms| - i
  {
    if i == |ms| then None
    else if !utf8(ms[i].name) then Some([])
    else
      var r := Under(ms[i].name, FirstBad(ms[i].value, utf8));
      if r.Some? then r else FirstBadMember(ms, utf8, i + 1)
  }

  /** What is wrong at the end of the path: a string, or a name in an object. */
  ghost predicate Offends(v: Value, utf8: Text -> bool) {
    (v.String? && !utf8(v.text)) || (v.Object? && exists i :: 0 <= i < |v.members| && !utf8(v.members[i].name))
  }

  lemma {:induction false} FittingIsUnique(lib: Library, v: Value, depth: nat)
    requires Round.Fits(lib, v, depth)
    ensures Edit.UniqueNames(v)
    decreases v
  {
    match v
    case Array(es) =>
      forall i | 0 <= i < |es| ensures Edit.UniqueNames(es[i]) { FittingIsUnique(lib, es[i], depth + 1); }
    case Object(ms) =>
      forall i | 0 <= i < |ms| ensures Edit.UniqueNames(ms[i].value) { FittingIsUnique(lib, ms[i].value, depth + 1); }
    case _ =>
  }

  /** The names of a parsed configuration are unique. */
  lemma ParsedIsUnique(lib: Library, text: Text)
    requires Good(lib) && Parse.Parse(lib, text).Some?
    ensures Edit.UniqueNames(Parse.Parse(lib, text).value)
  {
    hide Round.Fits, Edit.UniqueNames, Parse.ValueAt;
    Theorems.ValueAtFits(lib, text, Space.Skip(text, 0), 0);
    FittingIsUnique(lib, Parse.Parse(lib, text).value, 0);
  }

  /** The walk declines exactly when something is not valid, and its path leads to what is wrong. */
  lemma {:induction false} FirstBadIsBad(v: Value, utf8: Text -> bool)
    ensures FirstBad(v, utf8).None? <==> AllValid(v, utf8)
    ensures Edit.UniqueNames(v) && FirstBad(v, utf8).Some? ==>
              var r := Evaluate(v, FirstBad(v, utf8).value); r.Some? && Offends(r.value, utf8)
    decreases v
  {
    match v
    case Array(es) => BadElement(es, utf8, 0);
    case Object(ms) => BadMember(ms, utf8, 0);
    case _ =>
  }

  lemma {:induction false} BadElement(es: seq<Value>, utf8: Text -> bool, i: nat)
    requires i <= |es|
    ensures FirstBadElement(es, utf8, i).None? <==> forall k :: i <= k < |es| ==> AllValid(es[k], utf8)
    ensures Edit.UniqueNames(Array(es)) && FirstBadElement(es, utf8, i).Some? ==>
              var r := Evaluate(Array(es), FirstBadElement(es, utf8, i).value); r.Some? && Offends(r.value, utf8)
    decreases es, |es| - i
  {
    if i < |es| {
      FirstBadIsBad(es[i], utf8);
      var r := FirstBad(es[i], utf8);
      if r.Some? {
        DecimalOfText(i);
        assert ([DecimalText(i)] + r.value)[1..] == r.value;
      } else {
        BadElement(es, utf8, i + 1);
      }
    }
  }

  lemma {:induction false} BadMember(ms: seq<Member>, utf8: Text -> bool, i: nat)
    requires i <= |ms|
    ensures FirstBadMember(ms, utf8, i).None? <==> forall k :: i <= k < |ms| ==> utf8(ms[k].name) && AllValid(ms[k].value, utf8)
    ensures Edit.UniqueNames(Object(ms)) && FirstBadMember(ms, utf8, i).Some? ==>
              var r := Evaluate(Object(ms), FirstBadMember(ms, utf8, i).value); r.Some? && Offends(r.value, utf8)
    decreases ms, |ms| - i
  {
    if i < |ms| && utf8(ms[i].name) {
      FirstBadIsBad(ms[i].value, utf8);
      var r := FirstBad(ms[i].value, utf8);
      if r.Some? {
        if Unique(ms) { Edit.FindUnique(ms, ms[i].name, i); }
        assert ([ms[i].name] + r.value)[1..] == r.value;
      } else {
        BadMember(ms, utf8, i + 1);
      }
    }
  }

  // What the walk looks at, in document order: each text with the path an error in it is reported at.

  datatype Check = Check(path: seq<Text>, text: Text)

  function Checks(v: Value): seq<Check>
    decreases v
  {
    match v
    case String(s) => [Check([], s)]
    case Array(es) => ElementChecks(es, 0)
    case Object(ms) => MemberChecks(ms, 0)
    case _ => []
  }

  function Below(t: Text, cs: seq<Check>): seq<Check> {
    if cs == [] then [] else [Check([t] + cs[0].path, cs[0].text)] + Below(t, cs[1..])
  }

  function ElementChecks(es: seq<Value>, i: nat): seq<Check>
    requires i <= |es|
    decreases es, |es| - i
  {
    if i == |es| then [] else Below(DecimalText(i), Checks(es[i])) + ElementChecks(es, i + 1)
  }

  function MemberChecks(ms: seq<Member>, i: nat): seq<Check>
    requires i <= |ms|
    decreases ms, |ms| - i
  {
    if i == |ms| then []
    else [Check([], ms[i].name)] + Below(ms[i].name, Checks(ms[i].value)) + MemberChecks(ms, i + 1)
  }

  function FirstFailing(cs: seq<Check>, utf8: Text -> bool): Option<seq<Text>> {
    if cs == [] then None else if !utf8(cs[0].text) then Some(cs[0].path) else FirstFailing(cs[1..], utf8)
  }

  lemma {:induction false} FailingBelow(t: Text, cs: seq<Check>, utf8: Text -> bool)
    ensures FirstFailing(Below(t, cs), utf8) == Under(t, FirstFailing(cs, utf8))
  {
    if cs != [] {
      FailingBelow(t, cs[1..], utf8);
      assert Below(t, cs)[1..] == Below(t, cs[1..]);
    }
  }

  lemma {:induction false} FailingInEither(a: seq<Check>, b: seq<Check>, utf8: Text -> bool)
    ensures FirstFailing(a + b, utf8) == if FirstFailing(a, utf8).Some? then FirstFailing(a, utf8) else FirstFailing(b, utf8)
  {
    if a == [] {
      assert a + b == b;
    } else {
      assert (a + b)[1..] == a[1..] + b;
      FailingInEither(a[1..], b, utf8);
    }
  }

  /** The walk stops at the first text, in document order, that is not valid. */
  lemma {:induction false} FirstBadIsFirst(v: Value, utf8: Text -> bool)
    ensures FirstBad(v, utf8) == FirstFailing(Checks(v), utf8)
    decreases v
  {
    match v
    case Array(es) => FirstElement(es, utf8, 0);
    case Object(ms) => FirstMember(ms, utf8, 0);
    case _ =>
  }

  lemma {:induction false} FirstElement(es: seq<Value>, utf8: Text -> bool, i: nat)
    requires i <= |es|
    ensures FirstBadElement(es, utf8, i) == FirstFailing(ElementChecks(es, i), utf8)
    decreases es, |es| - i
  {
    if i < |es| {
      FirstBadIsFirst(es[i], utf8);
      FailingBelow(DecimalText(i), Checks(es[i]), utf8);
      FirstElement(es, utf8, i + 1);
      FailingInEither(Below(DecimalText(i), Checks(es[i])), ElementChecks(es, i + 1), utf8);
    }
  }

  lemma {:induction false} FirstMember(ms: seq<Member>, utf8: Text -> bool, i: nat)
    requires i <= |ms|
    ensures FirstBadMember(ms, utf8, i) == FirstFailing(MemberChecks(ms, i), utf8)
    decreases ms, |ms| - i
  {
    if i < |ms| {
      var own, below := [Check([], ms[i].name)], Below(ms[i].name, Checks(ms[i].value));
      FirstBadIsFirst(ms[i].value, utf8);
      FailingBelow(ms[i].name, Checks(ms[i].value), utf8);
      FirstMember(ms, utf8, i + 1);
      FailingInEither(own, below, utf8);
      FailingInEither(own + below, MemberChecks(ms, i + 1), utf8);
    }
  }

  // The code of the walk.

  /** nxt_conf_validation_t: the path of segments, and the pointer of an error. */
  class Validation {
    var path: seq<Text>
    var pointer: Option<Text>

    constructor ()
      ensures path == [] && pointer == None
    {
      path, pointer := [], None;
    }

    /** An error renders the current path; the path is left as it was found. */
    method CheckString(s: Text, utf8: Text -> bool) returns (ok: bool)
      modifies this`pointer
      ensures ok == utf8(s) && if ok then pointer == old(pointer) else PointsTo(pointer, path)
    {
      ok := utf8(s);
      if !ok { pointer := RenderPointer(path); }
    }

    method CheckValue(v: Value, utf8: Text -> bool) returns (ok: bool)
      modifies this
      ensures path == old(path) && ok == FirstBad(v, utf8).None?
      ensures if ok then pointer == old(pointer) else PointsTo(pointer, old(path) + FirstBad(v, utf8).value)
      decreases v, 1
    {
      match v
      case String(s) =>
        assert path + [] == path;
        ok := CheckString(s, utf8);
      case Array(es) => ok := CheckElements(es, utf8);
      case Object(ms) => ok := CheckMembers(ms, utf8);
      case _ => ok := true;
    }

    method CheckElements(es: seq<Value>, utf8: Text -> bool) returns (ok: bool)
      modifies this
      ensures path == old(path) && ok == FirstBadElement(es, utf8, 0).None?
      ensures if ok then pointer == old(pointer) else PointsTo(pointer, old(path) + FirstBadElement(es, utf8, 0).value)
      decreases es, 0
    {
      for i := 0 to |es|
        invariant path == old(path) && pointer == old(pointer)
        invariant FirstBadElement(es, utf8, 0) == FirstBadElement(es, utf8, i)
      {
        var prev := path;
        path := path + [DecimalText(i)];
        ok := CheckValue(es[i], utf8);
        path := prev;
        if !ok {
          var r := FirstBad(es[i], utf8).value;
          assert (prev + [DecimalText(i)]) + r == prev + ([DecimalText(i)] + r);
          return;
        }
      }
      ok := true;
    }

    method CheckMembers(ms: seq<Member>, utf8: Text -> bool) returns (ok: bool)
      modifies this
      ensures path == old(path) && ok == FirstBadMember(ms, utf8, 0).None?
      ensures if ok then pointer == old(pointer) else PointsTo(pointer, old(path) + FirstBadMember(ms, utf8, 0).value)
      decreases ms, 0
    {
      for i := 0 to |ms|
        invariant path == old(path) && pointer == old(pointer)
        invariant FirstBadMember(ms, utf8, 0) == FirstBadMember(ms, utf8, i)
      {
        assert path + [] == path;
        ok := CheckString(ms[i].name, utf8);
        if !ok { return; }
        var prev := path;
        path := path + [ms[i].name];
        ok := CheckValue(ms[i].value, utf8);
        path := prev;
        if !ok {
          var r := FirstBad(ms[i].value, utf8).value;
          assert (prev + [ms[i].name]) + r == prev + ([ms[i].name] + r);
          return;
        }
      }
      ok := true;
    }
  }

  /** The pointer in the error report leads to the first string that is not valid, or to the object with such a name. */
  method ValidateEncoding(conf: Value, utf8: Text -> bool) returns (ok: bool, pointer: Option<Text>)
    ensures ok <==> AllValid(conf, utf8)
    ensures ok <==> FirstFailing(Checks(conf), utf8).None?
    ensures !ok ==> PointsTo(pointer, FirstFailing(Checks(conf), utf8).value)
    ensures Edit.UniqueNames(conf) && !ok && pointer.Some? ==>
              var r := EvaluatePointer(conf, pointer.value); r.Some? && Offends(r.value, utf8)
  {
    hide Render, Tokens, Evaluate, Offends, AllValid, FirstBad, Edit.UniqueNames, FirstFailing, Checks;
    var vldt := new Validation();
    ok := vldt.CheckValue(conf, utf8);
    pointer := vldt.pointer;
    FirstBadIsBad(conf, utf8);
    FirstBadIsFirst(conf, utf8);
    if !ok {
      ghost var path := FirstBad(conf, utf8).value;
      assert [] + path == path;
      TokensOfRendered(path);
    }
  }
}
