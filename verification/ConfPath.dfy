/** Paths into a configuration: nxt_conf_path_next_token() and nxt_conf_get_path(). */
module ConfPath {
  import opened Bytes
  import opened JsonValue
  import Str = JsonString

  const MAX_TOKEN: nat := 256
  const INT32_MAX: nat := 0x7fff_ffff
  const INT64_MAX: nat := 0x7fff_ffff_ffff_ffff
  const PERCENT: Byte := 37

  // Tokens.

  /** nxt_int_parse() and the test against NXT_INT32_T_MAX: leading zeros are allowed. */
  function Index(t: Text): Option<nat> {
    if t != [] && (forall i :: 0 <= i < |t| ==> IsDigit(t[i])) && Decimal(t) <= INT32_MAX then Some(Decimal(t)) else None
  }

  /** nxt_decode_uri() */
  function DecodeUri(s: Text): Option<Text>
    decreases |s|
  {
    if s == [] then Some([])
    else if s[0] != PERCENT then Cons(s[0], DecodeUri(s[1..]))
    else if |s| >= 3 && Str.IsHex(s[1]) && Str.IsHex(s[2]) then
      Cons(16 * Str.HexValue(s[1]) + Str.HexValue(s[2]), DecodeUri(s[3..]))
    else None
  }

  /** The first slash from p on, or the end. */
  function SlashOrEnd(path: Text, p: nat): (r: nat)
    requires p <= |path|
    ensures p <= r <= |path|
    decreases |path| - p
  {
    if p < |path| && path[p] != SLASH then SlashOrEnd(path, p + 1) else p
  }

  datatype Cut = Cut(token: Text, next: nat)

  /** The token after the slash at p; it is the last one when it reaches the end of the path. */
  function NextToken(path: Text, p: nat): (r: Option<Cut>)
    requires p < |path|
    ensures r.Some? ==> p < r.value.next <= |path|
  {
    var e := SlashOrEnd(path, p + 1);
    if e - (p + 1) > MAX_TOKEN then None
    else match DecodeUri(path[p + 1..e])
      case None => None
      case Some(t) => Some(Cut(t, e))
  }

  /** All tokens from p on. */
  function Tokens(path: Text, p: nat): (r: Option<seq<Text>>)
    requires p < |path|
    ensures r.Some? ==> r.value != []
    decreases |path| - p
  {
    match NextToken(path, p)
    case None => None
    case Some(c) =>
      if c.next == |path| then Some([c.token])
      else match Tokens(path, c.next)
        case None => None
        case Some(ts) => Some([c.token] + ts)
  }

  // Children.

  function Find(ms: seq<Member>, name: Text): (r: Option<nat>)
    ensures r.Some? ==> r.value < |ms| && ms[r.value].name == name && forall i :: 0 <= i < r.value ==> ms[i].name != name
    ensures r.None? ==> forall i :: 0 <= i < |ms| ==> ms[i].name != name
  {
    if ms == [] then None
    else if ms[0].name == name then Some(0)
    else match Find(ms[1..], name)
      case None => None
      case Some(k) => Some(k + 1)
  }

  /** The index of the child that a token names. */
  function Slot(v: Value, t: Text): (r: Option<nat>)
    ensures r.Some? ==> (v.Array? && r.value < |v.elements|) || (v.Object? && r.value < |v.members|)
  {
    match v
    case Object(ms) => Find(ms, t)
    case Array(es) => if Index(t).Some? && Index(t).value < |es| then Index(t) else None
    case _ => None
  }

  function ChildAt(v: Value, k: nat): Value
    requires (v.Array? && k < |v.elements|) || (v.Object? && k < |v.members|)
  {
    if v.Array? then v.elements[k] else v.members[k].value
  }

  function Child(v: Value, t: Text): Option<Value> {
    if Slot(v, t).Some? then Some(ChildAt(v, Slot(v, t).value)) else None
  }

  /** The value at a path of tokens. */
  function Get(v: Value, ts: seq<Text>): Option<Value>
    decreases |ts|
  {
    if ts == [] then Some(v)
    else if Child(v, ts[0]).None? then None
    else Get(Child(v, ts[0]).value, ts[1..])
  }

  /** As the source has it: an empty token is allowed at the end only, and then ignored. */
  function Lookup(v: Value, ts: seq<Text>): Option<Value>
    requires ts != []
    decreases |ts|
  {
    if ts[0] == [] then if |ts| == 1 then Some(v) else None
    else if Child(v, ts[0]).None? then None
    else if |ts| == 1 then Child(v, ts[0])
    else Lookup(Child(v, ts[0]).value, ts[1..])
  }

  ghost predicate NoEmpty(ts: seq<Text>) { forall i :: 0 <= i < |ts| ==> ts[i] != [] }

  lemma {:induction false} LookupIsGet(v: Value, ts: seq<Text>)
    requires ts != [] && NoEmpty(ts)
    ensures Lookup(v, ts) == Get(v, ts) && Lookup(v, ts + [[]]) == Get(v, ts)
    decreases |ts|
  {
    assert ts[0] != [];
    var longer := ts + [[]];
    assert longer[0] == ts[0] && longer[1..] == ts[1..] + [[]];
    if Child(v, ts[0]).Some? {
      if |ts| == 1 {
        assert ts[1..] == [] && longer[1..] == [[]];
      } else {
        LookupIsGet(Child(v, ts[0]).value, ts[1..]);
      }
    }
  }

  predicate AllDigits(t: Text) { forall i :: 0 <= i < |t| ==> IsDigit(t[i]) }

  lemma {:induction false} DecimalGrows(t: Text, k: nat)
    requires k <= |t| && AllDigits(t)
    ensures Decimal(t[..k]) <= Decimal(t)
    decreases |t| - k
  {
    if k == |t| {
      assert t[..k] == t;
    } else {
      DecimalSnoc(t, k);
      DecimalGrows(t, k + 1);
    }
  }

  lemma DecimalSnoc(t: Text, k: nat)
    requires k < |t| && AllDigits(t[..k + 1])
    ensures IsDigit(t[k]) && Decimal(t[..k + 1]) == 10 * Decimal(t[..k]) + (t[k] - 48)
  {
    assert t[..k + 1][k] == t[k] && t[..k + 1][..k] == t[..k];
  }

  /** nxt_int_parse(): the value is kept within 64 bits; -1 is a syntax error and -2 an overflow. */
  method ParseInt(t: Text) returns (r: int)
    ensures r >= 0 <==> t != [] && AllDigits(t) && Decimal(t) <= INT64_MAX
    ensures r >= 0 ==> r == Decimal(t)
    ensures r == -2 || r == -1 || r >= 0
    ensures r == -2 ==> exists k :: 0 < k <= |t| && AllDigits(t[..k]) && Decimal(t[..k]) > INT64_MAX
  {
    if t == [] { return -1; }
    var cutoff, cutlim := INT64_MAX / 10, INT64_MAX % 10;
    var val: nat := 0;
    for i := 0 to |t|
      invariant AllDigits(t[..i]) && val == Decimal(t[..i]) <= INT64_MAX
    {
      if !IsDigit(t[i]) { return -1; }
      var c: nat := t[i] - 48;
      assert AllDigits(t[..i + 1]);
      DecimalSnoc(t, i);
      if val >= cutoff && (val > cutoff || c > cutlim) {
        if AllDigits(t) { DecimalGrows(t, i + 1); }
        return -2;
      }
      val := val * 10 + c;
    }
    assert t[..|t|] == t;
    r := val;
  }

  /** A token as an index: the parsed number, unless it is negative or above NXT_INT32_T_MAX. */
  method ParseIndex(t: Text) returns (r: Option<nat>)
    ensures r == Index(t)
  {
    var index := ParseInt(t);
    r := if index < 0 || index > INT32_MAX then None else Some(index);
  }

  /** The loop of nxt_decode_uri(). */
  method Unescape(src: Text) returns (r: Option<Text>)
    ensures r == DecodeUri(src)
  {
    var dst: Text, p := [], 0;
    assert src[0..] == src && (DecodeUri(src).Some? ==> dst + DecodeUri(src).value == DecodeUri(src).value);
    while p < |src|
      invariant p <= |src|
      invariant DecodeUri(src) == match DecodeUri(src[p..]) case None => None case Some(t) => Some(dst + t)
      decreases |src| - p
    {
      var ch: Byte, next: nat := src[p], p + 1;
      if ch == PERCENT {
        if |src| - next < 2 || !Str.IsHex(src[next]) || !Str.IsHex(src[next + 1]) {
          assert src[p..][0] == PERCENT;
          return None;
        }
        ch := 16 * Str.HexValue(src[next]) + Str.HexValue(src[next + 1]);
        next := next + 2;
      }
      UnescapeStep(src, p, ch, next, dst);
      dst, p := dst + [ch], next;
    }
    assert src[p..] == [] && dst + [] == dst;
    r := Some(dst);
  }

  lemma UnescapeStep(src: Text, p: nat, ch: Byte, next: nat, dst: Text)
    requires p < next <= |src|
    requires if src[p] != PERCENT then next == p + 1 && ch == src[p]
             else next == p + 3 && Str.IsHex(src[p + 1]) && Str.IsHex(src[p + 2])
                  && ch == 16 * Str.HexValue(src[p + 1]) + Str.HexValue(src[p + 2])
    ensures DecodeUri(src[p..]) == Cons(ch, DecodeUri(src[next..]))
    ensures DecodeUri(src[next..]).Some? ==>
              dst + ([ch] + DecodeUri(src[next..]).value) == (dst + [ch]) + DecodeUri(src[next..]).value
  {
    assert src[p..][next - p..] == src[next..];
  }

  method FindSlash(path: Text, start: nat) returns (p: nat)
    requires start <= |path|
    ensures p == SlashOrEnd(path, start)
  {
    p := start;
    while p < |path| && path[p] != SLASH
      invariant start <= p <= |path| && SlashOrEnd(path, start) == SlashOrEnd(path, p)
    {
      p := p + 1;
    }
  }

  method ReadToken(path: Text, p: nat) returns (r: Option<Cut>)
    requires p < |path|
    ensures r == NextToken(path, p)
  {
    var end := FindSlash(path, p + 1);
    if end - (p + 1) > MAX_TOKEN { return None; }
    var token := Unescape(path[p + 1..end]);
    if token == None { return None; }
    r := Some(Cut(token.value, end));
  }

  /** nxt_conf_get_object_member() */
  method FindMember(ms: seq<Member>, name: Text) returns (r: Option<nat>)
    ensures r == Find(ms, name)
  {
    for n := 0 to |ms|
      invariant forall i :: 0 <= i < n ==> ms[i].name != name
    {
      if ms[n].name == name { return Some(n); }
    }
    r := None;
  }

  method FindChild(v: Value, t: Text) returns (r: Option<nat>)
    ensures r == Slot(v, t)
  {
    match v
    case Object(ms) => r := FindMember(ms, t);
    case Array(es) =>
      r := ParseIndex(t);
      if r.Some? && r.value >= |es| { r := None; }
    case _ => r := None;
  }

  /** The lookup fails when a token is malformed, and else finds the value at the path. */
  method GetPath(root: Value, path: Text) returns (r: Option<Value>)
    requires path != []
    ensures r == match Tokens(path, 0) case None => None case Some(ts) => Lookup(root, ts)
  {
    hide NextToken, Slot;
    var value, p := root, 0;
    while true
      invariant 0 <= p < |path|
      invariant Tokens(path, 0).None? == Tokens(path, p).None?
      invariant Tokens(path, p).Some? ==> Lookup(root, Tokens(path, 0).value) == Lookup(value, Tokens(path, p).value)
      decreases |path| - p
    {
      var cut := ReadToken(path, p);
      if cut == None { return None; }
      var token, last := cut.value.token, cut.value.next == |path|;
      if Tokens(path, p).Some? && !last { TokensTail(path, p); }
      if token == [] { return if last then Some(value) else None; }
      var slot := FindChild(value, token);
      if slot == None { return None; }
      value := ChildAt(value, slot.value);
      if last { return Some(value); }
      p := cut.value.next;
    }
  }

  lemma TokensTail(path: Text, p: nat)
    requires p < |path| && Tokens(path, p).Some? && NextToken(path, p).value.next < |path|
    ensures var ts, rest := Tokens(path, p).value, Tokens(path, NextToken(path, p).value.next);
            rest.Some? && |ts| > 1 && ts[0] == NextToken(path, p).value.token && ts[1..] == rest.value
  {
  }
}
