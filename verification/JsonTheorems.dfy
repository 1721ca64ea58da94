/** What the parser accepts, it can print and read back with the same meaning. */
module JsonTheorems {
  import opened Bytes
  import opened JsonValue
  import opened JsonParse
  import opened JsonPrint
  import opened JsonRoundTrip
  import Space = JsonSpace
  import Str = JsonString
  import Num = JsonNumber

  /** The printed form of a value within the limits reads back as that value, with the members in hash order. */
  lemma RoundTrip(lib: Library, v: Value, pretty: bool, level: nat, more: bool)
    requires Fits(lib, v, 0)
    ensures Parse(lib, Print(v, pretty, level, more).text) == Some(Reorder(lib, v))
  {
    hide Fits, Print, Reorder, ValueAt;
    var text := Print(v, pretty, level, more).text;
    PrintStarts(lib, v, pretty, level, more, 0);
    NotBlankStart(text[0]);
    Space.SkipStops(text, 0);
    assert At(text, 0, text);
    ValueRound(lib, text, 0, v, pretty, level, more, 0);
  }

  // The order of members does not change what an object means.

  lemma CountOfUnique(ms: seq<Member>, m: Member)
    requires Unique(ms)
    ensures multiset(ms)[m] <= 1
  {
    if m in ms {
      var k :| 0 <= k < |ms| && ms[k] == m;
      assert ms == ms[..k] + [m] + ms[k + 1..];
      assert m !in ms[..k] && m !in ms[k + 1..];
    }
  }

  lemma UniqueInAnyOrder(a: seq<Member>, b: seq<Member>)
    requires multiset(a) == multiset(b) && Unique(a)
    ensures Unique(b) && |a| == |b| && (forall m :: m in a <==> m in b)
  {
    assert |multiset(a)| == |a| && |multiset(b)| == |b|;
    forall m ensures m in a <==> m in b { assert m in a <==> m in multiset(a); }
    forall i, j | 0 <= i < j < |b| ensures b[i].name != b[j].name {
      if b[i] == b[j] {
        assert b == b[..j] + b[j..];
        assert b[i] in b[..j] && b[j] in b[j..];
        CountOfUnique(a, b[i]);
      } else {
        assert b[i] in a && b[j] in a;
      }
    }
  }

  lemma SameMap(a: seq<Member>, b: seq<Member>)
    requires multiset(a) == multiset(b) && Unique(a)
    ensures MemberMap(a) == MemberMap(b)
  {
    UniqueInAnyOrder(a, b);
    MemberMapIs(a);
    MemberMapIs(b);
    assert Names(a) == Names(b);
    forall n | n in MemberMap(a) ensures MemberMap(a)[n] == MemberMap(b)[n] {
      var m :| m in a && m.name == n;
      assert m in b;
    }
  }

  lemma {:induction false} SameMeanings(lib: Library, es: seq<Value>, depth: nat)
    requires Good(lib) && forall i :: 0 <= i < |es| ==> Fits(lib, es[i], depth)
    ensures Meanings(ReorderAll(lib, es)) == Meanings(es)
    decreases es, |es|
  {
    hide Fits, Meaning, Reorder;
    if es != [] {
      SameMeaning(lib, es[0], depth);
      SameMeanings(lib, es[1..], depth);
      assert ReorderAll(lib, es)[1..] == ReorderAll(lib, es[1..]);
    }
  }

  lemma {:induction false} SameMembers(lib: Library, ms: seq<Member>, depth: nat)
    requires Good(lib) && forall i :: 0 <= i < |ms| ==> Fits(lib, ms[i].value, depth)
    ensures MemberMap(ReorderMembers(lib, ms)) == MemberMap(ms)
    decreases ms, |ms|
  {
    hide Fits, Meaning, Reorder;
    if ms != [] {
      SameMeaning(lib, ms[0].value, depth);
      SameMembers(lib, ms[1..], depth);
      assert ReorderMembers(lib, ms)[1..] == ReorderMembers(lib, ms[1..]);
    }
  }

  lemma {:induction false} SameMeaning(lib: Library, v: Value, depth: nat)
    requires Good(lib) && Fits(lib, v, depth)
    ensures Meaning(Reorder(lib, v)) == Meaning(v)
    decreases v
  {
    match v
    case Array(es) => SameMeanings(lib, es, depth + 1);
    case Object(ms) =>
      SameMembers(lib, ms, depth + 1);
      assert Unique(ReorderMembers(lib, ms));
      SameMap(ReorderMembers(lib, ms), lib.order(ReorderMembers(lib, ms)));
    case _ =>
  }

  // Everything the parser accepts is within the limits.

  lemma {:induction false} ReserveSum(a: Text, b: Text)
    ensures Reserve(a + b) == Reserve(a) + Reserve(b)
  {
    if a == [] {
      assert a + b == b;
    } else {
      assert (a + b)[1..] == a[1..] + b;
      ReserveSum(a[1..], b);
    }
  }

  lemma {:induction false} ReserveOfHigh(s: Text)
    requires forall i :: 0 <= i < |s| ==> s[i] >= SPACE
    ensures Reserve(s) == |s|
  {
    if s != [] { ReserveOfHigh(s[1..]); }
  }

  lemma ReserveOfChar(text: Text, p: nat)
    requires p < |text| && text[p] != QUOTE && Str.OneChar(text, p).Some?
    ensures Reserve(Str.OneChar(text, p).value.bytes) <= Str.OneChar(text, p).value.room
  {
    var c := Str.OneChar(text, p).value;
    if |c.bytes| == 1 {
      assert c.bytes[1..] == [];
    } else {
      ReserveOfHigh(c.bytes);
    }
  }

  /** Printing a decoded string and decoding it again asks for no more room than the first time. */
  lemma {:induction false} ReserveOfDecoded(text: Text, p: nat)
    requires Str.Decode(text, p).Some?
    ensures Reserve(Str.Decode(text, p).value.bytes) <= Str.Decode(text, p).value.room
    decreases |text| - p
  {
    hide Str.OneChar;
    if text[p] != QUOTE {
      var c := Str.OneChar(text, p).value;
      ReserveOfChar(text, p);
      ReserveOfDecoded(text, c.next);
      ReserveSum(c.bytes, Str.Decode(text, c.next).value.bytes);
    }
  }

  lemma StringAtFits(text: Text, p: nat)
    requires Str.StringAt(text, p).Some?
    ensures Reserve(Str.StringAt(text, p).value.text) <= Str.MAX_STRING
  {
    hide Str.Decode, Reserve;
    ReserveOfDecoded(text, p + 1);
  }

  lemma NumberAtFits(lib: Library, text: Text, p: nat)
    requires p < |text| && NumberAt(lib, text, p).Some?
    ensures var v := NumberAt(lib, text, p).value.value; v.Number? && NumberFits(lib, v.text, v.integral)
  {
    hide Num.NumberEnd;
    var q := Num.NumberEnd(text, p).value;
    var t := text[p..q];
    Num.NumberMoves(text, p, q, t, 0);
  }

  lemma {:induction false} ValueAtFits(lib: Library, text: Text, p: nat, depth: nat)
    requires Good(lib) && p < |text| && ValueAt(lib, text, p, depth).Some?
    ensures Fits(lib, ValueAt(lib, text, p, depth).value.value, depth)
    decreases |text| - p, 1
  {
    hide ArrayAt, ObjectAt, NumberAt, Str.StringAt, Reserve, NumberFits;
    var ch := text[p];
    if ch == OPEN_BRACE {
      ObjectAtFits(lib, text, p, depth + 1, []);
    } else if ch == OPEN_BRACKET {
      ArrayAtFits(lib, text, p, depth + 1, []);
    } else if ch == QUOTE {
      StringAtFits(text, p);
    } else if ch != TRUE_TEXT[0] && ch != FALSE_TEXT[0] && ch != NULL_TEXT[0] {
      NumberAtFits(lib, text, p);
    }
  }

  ghost predicate ElementsFitAt(lib: Library, es: seq<Value>, depth: nat) {
    |es| <= MAX_ELEMENTS && forall i :: 0 <= i < |es| ==> Fits(lib, es[i], depth)
  }

  lemma {:induction false} ArrayAtFits(lib: Library, text: Text, p: nat, depth: nat, done: seq<Value>)
    requires Good(lib) && p < |text| && ElementsFitAt(lib, done, depth) && ArrayAt(lib, text, p, depth, done).Some?
    ensures var v := ArrayAt(lib, text, p, depth, done).value.value; v.Array? && ElementsFitAt(lib, v.elements, depth)
    decreases |text| - p, 0
  {
    hide ValueAt, Fits, Space.Skip;
    var q := Space.Skip(text, p + 1);
    if text[q] != CLOSE_BRACKET {
      ValueAtFits(lib, text, q, depth);
      var v := ValueAt(lib, text, q, depth).value;
      var t := Space.Skip(text, v.end);
      assert ElementsFitAt(lib, done + [v.value], depth);
      if text[t] == COMMA { ArrayAtFits(lib, text, t, depth, done + [v.value]); }
    }
  }

  lemma OrderFits(lib: Library, ms: seq<Member>, depth: nat)
    requires Good(lib) && MembersFitAt(lib, ms, depth)
    ensures MembersFitAt(lib, lib.order(ms), depth)
  {
    hide Fits, Reserve;
    var b := lib.order(ms);
    UniqueInAnyOrder(ms, b);
    forall i | 0 <= i < |b| ensures Reserve(b[i].name) <= Str.MAX_STRING && Fits(lib, b[i].value, depth) {
      assert b[i] in ms;
    }
  }

  lemma OneMoreFits(lib: Library, ms: seq<Member>, m: Member, depth: nat)
    requires MembersFitAt(lib, ms, depth) && |ms| < MAX_ELEMENTS && m.name !in Names(ms)
    requires Reserve(m.name) <= Str.MAX_STRING && Fits(lib, m.value, depth)
    ensures MembersFitAt(lib, ms + [m], depth)
  {
    hide Fits, Reserve;
    forall i | 0 <= i < |ms| ensures ms[i].name != m.name { assert ms[i] in ms; }
  }

  lemma {:induction false} ObjectAtFits(lib: Library, text: Text, p: nat, depth: nat, done: seq<Member>)
    requires Good(lib) && p < |text| && MembersFitAt(lib, done, depth) && ObjectAt(lib, text, p, depth, done).Some?
    ensures var v := ObjectAt(lib, text, p, depth, done).value.value; v.Object? && MembersFitAt(lib, v.members, depth)
    decreases |text| - p, 0
  {
    hide ValueAt, MembersFitAt, Space.Skip, NameAt, Names;
    var q := Space.Skip(text, p + 1);
    if text[q] == CLOSE_BRACE {
      OrderFits(lib, done, depth);
    } else {
      var n := NameAt(text, q).value;
      NameAtFits(text, q);
      ValueAtFits(lib, text, n.1, depth);
      var v := ValueAt(lib, text, n.1, depth).value;
      var done' := done + [Member(n.0, v.value)];
      OneMoreFits(lib, done, Member(n.0, v.value), depth);
      var t := Space.Skip(text, v.end);
      if text[t] == COMMA {
        ObjectAtFits(lib, text, t, depth, done');
      } else {
        OrderFits(lib, done', depth);
      }
    }
  }

  lemma NameAtFits(text: Text, p: nat)
    requires p < |text| && NameAt(text, p).Some?
    ensures Reserve(NameAt(text, p).value.0) <= Str.MAX_STRING
  {
    StringAtFits(text, p);
  }

  /**
    Any text the parser accepts gives a value that both printers write in a form the parser accepts,
    and that means the same.
   */
  lemma ParsePrintParse(lib: Library, text: Text, pretty: bool)
    requires Good(lib) && Parse(lib, text).Some?
    ensures var v := Parse(lib, text).value;
            var again := Parse(lib, Print(v, pretty, 0, false).text);
            again.Some? && Meaning(again.value) == Meaning(v)
  {
    hide ValueAt, Fits, Print;
    var v := Parse(lib, text).value;
    ValueAtFits(lib, text, Space.Skip(text, 0), 0);
    RoundTrip(lib, v, pretty, 0, false);
    SameMeaning(lib, v, 0);
  }
}
