/** Configuration values: nxt_conf_value_t. */
module JsonValue {
  import opened Bytes

  // The literals null, true and false.

  const NULL_TEXT: Text := [110, 117, 108, 108]
  const TRUE_TEXT: Text := [116, 114, 117, 101]
  const FALSE_TEXT: Text := [102, 97, 108, 115, 101]

  /** A number keeps the text it was written with. */
  datatype Value =
    | Null
    | Boolean(b: bool)
    | Number(text: Text, integral: bool)
    | String(text: Text)
    | Array(elements: seq<Value>)
    | Object(members: seq<Member>)

  datatype Member = Member(name: Text, value: Value)

  /** What strtod() makes of a number. */
  datatype NumberKind = OutOfRange | Integral | Fraction

  /** What the parser takes from outside: strtod(), and the order in which a hash lists its members. */
  datatype Library = Library(kind: Text -> NumberKind, order: seq<Member> -> seq<Member>)

  /** A hash lists exactly its members. */
  ghost predicate Good(lib: Library) {
    forall ms: seq<Member> :: multiset(lib.order(ms)) == multiset(ms)
  }

  function Names(ms: seq<Member>): set<Text> { set m | m in ms :: m.name }

  ghost predicate Unique(ms: seq<Member>) {
    forall i, j :: 0 <= i < j < |ms| ==> ms[i].name != ms[j].name
  }

  // What a value means: an object is a map.

  datatype Tree =
    | NullTree
    | BooleanTree(b: bool)
    | NumberTree(text: Text)
    | StringTree(text: Text)
    | ArrayTree(elements: seq<Tree>)
    | ObjectTree(members: map<Text, Tree>)

  function Meaning(v: Value): Tree
    decreases v
  {
    match v
    case Null => NullTree
    case Boolean(b) => BooleanTree(b)
    case Number(text, _) => NumberTree(text)
    case String(text) => StringTree(text)
    case Array(elements) => ArrayTree(Meanings(elements))
    case Object(members) => ObjectTree(MemberMap(members))
  }

  function Meanings(vs: seq<Value>): seq<Tree>
    decreases vs
  {
    if vs == [] then [] else [Meaning(vs[0])] + Meanings(vs[1..])
  }

  /** The first member of a name counts, as in nxt_conf_get_object_member(). */
  function MemberMap(ms: seq<Member>): map<Text, Tree>
    decreases ms
  {
    if ms == [] then map[]
    else MemberMap(ms[1..])[ms[0].name := Meaning(ms[0].value)]
  }

  lemma {:induction false} MemberMapIs(ms: seq<Member>)
    requires Unique(ms)
    ensures MemberMap(ms).Keys == Names(ms)
    ensures forall m :: m in ms ==> m.name in MemberMap(ms) && MemberMap(ms)[m.name] == Meaning(m.value)
  {
    if ms != [] {
      var rest := ms[1..];
      assert Unique(rest);
      MemberMapIs(rest);
      assert forall m :: m in rest ==> m.name != ms[0].name;
      assert Names(ms) == Names(rest) + {ms[0].name};
      forall m | m in ms ensures m.name in MemberMap(ms) && MemberMap(ms)[m.name] == Meaning(m.value) {
        if m != ms[0] { assert m in rest; }
      }
    }
  }
}
