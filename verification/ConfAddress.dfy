/**
  What a path says: percent-encoded tokens (section 2.1 of RFC 3986) between slashes, each the
  name of a member or the number of an element. The readers of ConfPath accept exactly these.
 */
module ConfAddress {
  import opened Bytes
  import opened JsonValue
  import opened ConfPath
  import Str = JsonString
  import Spelling = JsonSpelling

  lemma Characters(d: nat)
    requires d < 10
    ensures [PERCENT, SLASH, ZERO] == Ascii("%/0") && DecimalText(d) == [Ascii("0123456789")[d]]
  {
  }

  // Element numbers.

  function Zeros(n: nat): Text { seq(n, _ => ZERO) }

  lemma {:induction false} ZerosAreZero(n: nat)
    ensures AllDigits(Zeros(n)) && Decimal(Zeros(n)) == 0
  {
    if n > 0 {
      ZerosAreZero(n - 1);
      assert Zeros(n)[..n - 1] == Zeros(n - 1);
    }
  }

  lemma {:induction false} PaddedReads(n: nat, t: Text)
    requires AllDigits(t)
    ensures AllDigits(Zeros(n) + t) && Decimal(Zeros(n) + t) == Decimal(t)
    decreases |t|
  {
    if t == [] {
      ZerosAreZero(n);
      assert Zeros(n) + t == Zeros(n);
    } else {
      var m := |t| - 1;
      PaddedReads(n, t[..m]);
      assert (Zeros(n) + t)[..n + m] == Zeros(n) + t[..m];
    }
  }

  /** The decimal text of a number, with or without leading zeros, is an index up to 2^31 - 1. */
  lemma IndexOfNumber(k: nat, zeros: nat)
    ensures Index(Zeros(zeros) + DecimalText(k)) == if k <= INT32_MAX then Some(k) else None
  {
    DecimalBack(k);
    PaddedReads(zeros, DecimalText(k));
  }

  /** A token reads as an element number if and only if that number is one. */
  lemma ElementOfNumber(es: seq<Value>, k: nat, zeros: nat)
    ensures Child(Array(es), Zeros(zeros) + DecimalText(k)) == if k < |es| && k <= INT32_MAX then Some(es[k]) else None
  {
    IndexOfNumber(k, zeros);
  }

  /** How often the first digit is a zero that is not the last digit. */
  function LeadingZeros(t: Text): (n: nat)
    requires t != []
    ensures n < |t| && t[..n] == Zeros(n) && (n < |t| - 1 ==> t[n] != ZERO)
  {
    if |t| > 1 && t[0] == ZERO then
      var n := 1 + LeadingZeros(t[1..]);
      assert t[..n] == [ZERO] + t[1..][..n - 1];
      n
    else 0
  }

  /** Digits that do not start with a surplus zero are the decimal text of their value. */
  lemma {:induction false} TextOfDecimal(t: Text)
    requires t != [] && AllDigits(t) && (|t| > 1 ==> t[0] != ZERO)
    ensures DecimalText(Decimal(t)) == t && (|t| > 1 ==> Decimal(t) >= 10)
    decreases |t|
  {
    var m := |t| - 1;
    assert t == t[..m] + [t[m]];
    if m == 0 {
      assert t[..0] == [];
    } else {
      TextOfDecimal(t[..m]);
      if m == 1 { assert t[..1][..0] == [] && IsDigit(t[0]) && Decimal(t[..1]) == t[0] - 48; }
      assert Decimal(t) / 10 == Decimal(t[..m]) && Decimal(t) % 10 == t[m] - 48;
    }
  }

  /** Every index is the decimal text of its number after some zeros. */
  lemma IndexWasNumber(t: Text) returns (zeros: nat)
    requires Index(t).Some?
    ensures t == Zeros(zeros) + DecimalText(Index(t).value)
  {
    zeros := LeadingZeros(t);
    var rest := t[zeros..];
    assert t == Zeros(zeros) + rest;
    PaddedReads(zeros, rest);
    TextOfDecimal(rest);
  }

  // Percent-encoding.

  /** One byte of a token: itself, or a percent sign and two digits in either case. */
  datatype Encoded = Plain(b: Byte) | Percent(b: Byte, high: bool, low: bool)

  predicate Encodes(e: Encoded) { e.Plain? ==> e.b != PERCENT && e.b != SLASH }

  function Encoding(e: Encoded): (t: Text)
    ensures t != []
  {
    match e
    case Plain(b) => [b]
    case Percent(b, high, low) => [PERCENT, HexByte(b / 16, high), HexByte(b % 16, low)]
  }

  ghost predicate AllEncode(es: seq<Encoded>) { forall i :: 0 <= i < |es| ==> Encodes(es[i]) }

  function Encodings(es: seq<Encoded>): Text { if es == [] then [] else Encoding(es[0]) + Encodings(es[1..]) }

  function Said(es: seq<Encoded>): Text { if es == [] then [] else [es[0].b] + Said(es[1..]) }

  ghost predicate NoSlash(t: Text) { forall i :: 0 <= i < |t| ==> t[i] != SLASH }

  lemma OneByte(e: Encoded, rest: Text)
    requires Encodes(e)
    ensures DecodeUri(Encoding(e) + rest) == Cons(e.b, DecodeUri(rest)) && NoSlash(Encoding(e))
  {
    var s := Encoding(e) + rest;
    assert s[|Encoding(e)|..] == rest;
    if e.Percent? {
      Spelling.HexDigit(e.b / 16, e.high);
      Spelling.HexDigit(e.b % 16, e.low);
      assert s[0] == PERCENT && s[1] == HexByte(e.b / 16, e.high) && s[2] == HexByte(e.b % 16, e.low);
      assert e.b == 16 * (e.b / 16) + e.b % 16;
    }
  }

  lemma {:induction false} TokenReads(es: seq<Encoded>)
    requires AllEncode(es)
    ensures DecodeUri(Encodings(es)) == Some(Said(es)) && NoSlash(Encodings(es))
    decreases |es|
  {
    if es != [] {
      TokenReads(es[1..]);
      OneByte(es[0], Encodings(es[1..]));
    }
  }

  lemma {:induction false} TokenWasEncoded(s: Text) returns (es: seq<Encoded>)
    requires NoSlash(s) && DecodeUri(s).Some?
    ensures AllEncode(es) && Encodings(es) == s
    decreases |s|
  {
    if s == [] {
      es := [];
    } else if s[0] != PERCENT {
      var rest := TokenWasEncoded(s[1..]);
      es := [Plain(s[0])] + rest;
      assert es[1..] == rest && s == [s[0]] + s[1..];
    } else {
      var rest := TokenWasEncoded(s[3..]);
      var b := 16 * Str.HexValue(s[1]) + Str.HexValue(s[2]);
      Spelling.HexIsDigit(s[1]);
      Spelling.HexIsDigit(s[2]);
      assert b / 16 == Str.HexValue(s[1]) && b % 16 == Str.HexValue(s[2]);
      es := [Percent(b, s[1] >= 97, s[2] >= 97)] + rest;
      assert es[1..] == rest && s == [s[0], s[1], s[2]] + s[3..];
    }
  }

  // Paths.

  /** A path after its first slash. */
  function Joined(tokens: seq<seq<Encoded>>): Text
    requires tokens != []
  {
    if |tokens| == 1 then Encodings(tokens[0]) else Encodings(tokens[0]) + [SLASH] + Joined(tokens[1..])
  }

  function AllSaid(tokens: seq<seq<Encoded>>): seq<Text> {
    if tokens == [] then [] else [Said(tokens[0])] + AllSaid(tokens[1..])
  }

  ghost predicate Proper(tokens: seq<seq<Encoded>>) {
    tokens != [] && forall i :: 0 <= i < |tokens| ==> AllEncode(tokens[i])
  }

  /** The limit of a token is on its encoded text. */
  ghost predicate Short(tokens: seq<seq<Encoded>>) {
    forall i :: 0 <= i < |tokens| ==> |Encodings(tokens[i])| <= MAX_TOKEN
  }

  lemma {:induction false} SlashAfter(path: Text, p: nat, n: nat)
    requires p + n <= |path| && NoSlash(path[p..p + n]) && (p + n < |path| ==> path[p + n] == SLASH)
    ensures SlashOrEnd(path, p) == p + n
    decreases n
  {
    if n > 0 {
      assert path[p..p + n][0] == path[p] && path[p + 1..p + n] == path[p..p + n][1..];
      SlashAfter(path, p + 1, n - 1);
    }
  }

  lemma {:induction false} BeforeSlash(path: Text, p: nat)
    requires p <= |path|
    ensures NoSlash(path[p..SlashOrEnd(path, p)])
    ensures SlashOrEnd(path, p) < |path| ==> path[SlashOrEnd(path, p)] == SLASH
    decreases |path| - p
  {
    if p < |path| && path[p] != SLASH {
      BeforeSlash(path, p + 1);
      assert path[p..SlashOrEnd(path, p)] == [path[p]] + path[p + 1..SlashOrEnd(path, p)];
    }
  }

  lemma FirstToken(path: Text, p: nat, tokens: seq<seq<Encoded>>)
    requires Proper(tokens) && p < |path| && path[p + 1..] == Joined(tokens)
    ensures var e := p + 1 + |Encodings(tokens[0])|;
            && e <= |path| && (e == |path| <==> |tokens| == 1)
            && NextToken(path, p) == (if |Encodings(tokens[0])| <= MAX_TOKEN then Some(Cut(Said(tokens[0]), e)) else None)
            && (|tokens| > 1 ==> path[e + 1..] == Joined(tokens[1..]))
  {
    hide Encodings, Said, DecodeUri, SlashOrEnd;
    var t := Encodings(tokens[0]);
    var e := p + 1 + |t|;
    TokenReads(tokens[0]);
    assert path[p + 1..][..|t|] == t && path[p + 1..e] == t;
    if |tokens| > 1 {
      assert path[p + 1..][|t|] == SLASH;
      assert path[p + 1..][|t| + 1..] == Joined(tokens[1..]) && path[p + 1..][|t| + 1..] == path[e + 1..];
    }
    SlashAfter(path, p + 1, |t|);
  }

  /** A path of encoded tokens is cut into what they say, unless one of them is too long. */
  lemma {:induction false} TokensRead(path: Text, p: nat, tokens: seq<seq<Encoded>>)
    requires Proper(tokens) && p < |path| && path[p + 1..] == Joined(tokens)
    ensures Tokens(path, p) == if Short(tokens) then Some(AllSaid(tokens)) else None
    decreases |tokens|
  {
    hide NextToken, Said, Encodings, Joined;
    FirstToken(path, p, tokens);
    var e := p + 1 + |Encodings(tokens[0])|;
    assert tokens == [tokens[0]] + tokens[1..];
    ShortMore(tokens);
    if |tokens| == 1 {
      assert tokens[1..] == [] && AllSaid(tokens) == [Said(tokens[0])];
    } else {
      TokensRead(path, e, tokens[1..]);
    }
  }

  lemma ShortMore(tokens: seq<seq<Encoded>>)
    requires tokens != []
    ensures Short(tokens) <==> |Encodings(tokens[0])| <= MAX_TOKEN && Short(tokens[1..])
  {
    hide Encodings;
    assert Short(tokens) ==> Short(tokens[1..]);
    if |Encodings(tokens[0])| <= MAX_TOKEN && Short(tokens[1..]) {
      forall i | 0 <= i < |tokens| ensures |Encodings(tokens[i])| <= MAX_TOKEN {
        if i > 0 { assert tokens[i] == tokens[1..][i - 1]; }
      }
    }
  }

  /** What is cut into tokens was such a path. */
  lemma {:induction false} TokensWereEncoded(path: Text, p: nat) returns (tokens: seq<seq<Encoded>>)
    requires p < |path| && Tokens(path, p).Some?
    ensures Proper(tokens) && Short(tokens) && path[p + 1..] == Joined(tokens)
    decreases |path| - p
  {
    hide Encodings, DecodeUri, SlashOrEnd;
    var e := SlashOrEnd(path, p + 1);
    BeforeSlash(path, p + 1);
    var first := TokenWasEncoded(path[p + 1..e]);
    if e == |path| {
      tokens := [first];
      assert path[p + 1..e] == path[p + 1..];
    } else {
      var rest := TokensWereEncoded(path, e);
      tokens := [first] + rest;
      assert tokens[1..] == rest;
      ShortMore(tokens);
      assert path[p + 1..] == path[p + 1..e] + [SLASH] + path[e + 1..];
    }
  }

  // Descent.

  datatype Step = Name(name: Text) | Nth(k: nat)

  /** The token says the name, or the number after some zeros. */
  ghost predicate Says(t: Text, step: Step) {
    match step
    case Name(name) => t == name && t != []
    case Nth(k) => exists zeros: nat :: t == Zeros(zeros) + DecimalText(k)
  }

  /** The steps name members of objects and count elements of arrays, as far as they lead. */
  ghost predicate Fits(v: Value, steps: seq<Step>)
    decreases |steps|
  {
    steps != [] ==>
      && (v.Object? ==> steps[0].Name?) && (v.Array? ==> steps[0].Nth?)
      && (Below(v, steps[0]).Some? ==> Fits(Below(v, steps[0]).value, steps[1..]))
  }

  /** The first member of that name, or the element of that number. */
  function Below(v: Value, step: Step): Option<Value> {
    match v
    case Object(ms) =>
      if step.Name? && Find(ms, step.name).Some? then Some(ms[Find(ms, step.name).value].value) else None
    case Array(es) => if step.Nth? && step.k < |es| && step.k <= INT32_MAX then Some(es[step.k]) else None
    case _ => None
  }

  function Descend(v: Value, steps: seq<Step>): Option<Value>
    decreases |steps|
  {
    if steps == [] then Some(v)
    else if Below(v, steps[0]).None? then None
    else Descend(Below(v, steps[0]).value, steps[1..])
  }

  lemma StepReads(v: Value, t: Text, step: Step)
    requires Says(t, step) && (v.Object? ==> step.Name?) && (v.Array? ==> step.Nth?)
    ensures Child(v, t) == Below(v, step) && t != []
  {
    if step.Nth? {
      var zeros: nat :| t == Zeros(zeros) + DecimalText(step.k);
      IndexOfNumber(step.k, zeros);
    }
  }

  ghost predicate AllSay(ts: seq<Text>, steps: seq<Step>) {
    |ts| == |steps| && forall i :: 0 <= i < |ts| ==> Says(ts[i], steps[i])
  }

  lemma {:induction false} DescentReads(v: Value, ts: seq<Text>, steps: seq<Step>)
    requires AllSay(ts, steps) && Fits(v, steps)
    ensures Get(v, ts) == Descend(v, steps) && NoEmpty(ts)
    decreases |ts|
  {
    hide Child, Below, Says;
    if ts != [] {
      StepReads(v, ts[0], steps[0]);
      forall i | 0 <= i < |ts| ensures ts[i] != [] { assert Says(ts[i], steps[i]); Nonempty(ts[i], steps[i]); }
      if Child(v, ts[0]).Some? {
        assert AllSay(ts[1..], steps[1..]);
        DescentReads(Child(v, ts[0]).value, ts[1..], steps[1..]);
      }
    }
  }

  lemma Nonempty(t: Text, step: Step)
    requires Says(t, step)
    ensures t != []
  {
  }

  /** A path whose tokens say the steps finds what the steps lead to, with or without a slash at its end. */
  lemma PathDescends(root: Value, path: Text, tokens: seq<seq<Encoded>>, steps: seq<Step>)
    requires path != [] && Proper(tokens) && Short(tokens)
    requires path[1..] == Joined(tokens) || path[1..] == Joined(tokens + [[]])
    requires AllSay(AllSaid(tokens), steps) && Fits(root, steps)
    ensures Tokens(path, 0).Some? && Lookup(root, Tokens(path, 0).value) == Descend(root, steps)
  {
    hide Lookup, Fits, Says, AllSaid, AllSay, Get, Descend, Tokens, Joined;
    DescentReads(root, AllSaid(tokens), steps);
    SomethingSaid(tokens);
    LookupIsGet(root, AllSaid(tokens));
    if path[1..] == Joined(tokens) {
      TokensRead(path, 0, tokens);
    } else {
      EmptyAtEnd(tokens);
      TokensRead(path, 0, tokens + [[]]);
    }
  }

  lemma SomethingSaid(tokens: seq<seq<Encoded>>)
    requires Proper(tokens)
    ensures AllSaid(tokens) != []
  {
  }

  lemma EmptyAtEnd(tokens: seq<seq<Encoded>>)
    requires Proper(tokens) && Short(tokens)
    ensures Proper(tokens + [[]]) && Short(tokens + [[]]) && AllSaid(tokens + [[]]) == AllSaid(tokens) + [[]]
  {
    SaidSnoc(tokens);
  }

  lemma {:induction false} SaidSnoc(tokens: seq<seq<Encoded>>)
    ensures AllSaid(tokens + [[]]) == AllSaid(tokens) + [[]]
  {
    if tokens == [] {
      assert tokens + [[]] == [[]] && AllSaid([[]]) == [Said([])] + AllSaid([[]][1..]);
    } else {
      SaidSnoc(tokens[1..]);
      assert (tokens + [[]])[1..] == tokens[1..] + [[]];
      assert [Said(tokens[0])] + (AllSaid(tokens[1..]) + [[]]) == ([Said(tokens[0])] + AllSaid(tokens[1..])) + [[]];
    }
  }

  /** What a lookup finds, steps lead to. */
  lemma {:induction false} FoundWasDescent(v: Value, ts: seq<Text>) returns (steps: seq<Step>)
    requires NoEmpty(ts) && Get(v, ts).Some?
    ensures AllSay(ts, steps) && Fits(v, steps) && Descend(v, steps) == Get(v, ts)
    decreases |ts|
  {
    if ts == [] {
      steps := [];
    } else {
      var first := StepOf(v, ts[0]);
      StepReads(v, ts[0], first);
      var rest := FoundWasDescent(Child(v, ts[0]).value, ts[1..]);
      steps := [first] + rest;
      assert steps[1..] == rest;
      forall i | 0 <= i < |ts| ensures Says(ts[i], steps[i]) {
        if i > 0 { assert ts[i] == ts[1..][i - 1] && steps[i] == rest[i - 1]; }
      }
    }
  }

  lemma StepOf(v: Value, t: Text) returns (step: Step)
    requires Child(v, t).Some? && t != []
    ensures Says(t, step) && (v.Object? ==> step.Name?) && (v.Array? ==> step.Nth?)
  {
    if v.Object? {
      step := Name(t);
    } else {
      var zeros := IndexWasNumber(t);
      step := Nth(Index(t).value);
    }
  }
}
