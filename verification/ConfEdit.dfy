/** Edits: nxt_conf_op_compile() turns one into a chain of operations, nxt_conf_clone() carries it out. */
module ConfEdit {
  import opened Bytes
  import opened JsonValue
  import opened ConfPath

  datatype Edit = Put(value: Value) | Post(value: Value) | Delete

  datatype Action = Pass | Create(value: Value) | CreateMember(member: Member) | Replace(value: Value) | Remove

  /** The ctx of a Pass is the rest of the chain. */
  datatype Op = Op(index: nat, action: Action)

  datatype Compiled = Ops(ops: seq<Op>) | NotFound | NotAllowed | BadPath

  // The compiler.

  function Last(v: Value, t: Text, edit: Edit): Compiled
    requires edit.Put? ==> v.Array? || v.Object?
  {
    if v.Array? && Index(t).None? then NotFound
    else match edit
      case Delete => if Slot(v, t).None? then NotFound else Ops([Op(Slot(v, t).value, Remove)])
      case Post(x) =>
        if Slot(v, t).None? then NotFound
        else
          var node := ChildAt(v, Slot(v, t).value);
          if !node.Array? then NotAllowed
          else Ops([Op(Slot(v, t).value, Pass), Op(|node.elements|, Create(x))])
      case Put(x) =>
        if Slot(v, t).Some? then Ops([Op(Slot(v, t).value, Replace(x))])
        else if v.Array? then if Index(t).value > |v.elements| then NotFound else Ops([Op(Index(t).value, Create(x))])
        else Ops([Op(|v.members|, CreateMember(Member(t, x)))])
  }

  function Prepend(ops: seq<Op>, r: Compiled): Compiled { if r.Ops? then Ops(ops + r.ops) else r }

  /** The parent of the last token, if there is one, is a collection. */
  ghost predicate ParentIsCollection(v: Value, ts: seq<Text>)
    requires ts != []
  {
    var parent := Get(v, ts[..|ts| - 1]);
    parent.Some? ==> parent.value.Array? || parent.value.Object?
  }

  ghost predicate Allowed(v: Value, ts: seq<Text>, edit: Edit)
    requires ts != []
  {
    edit.Put? ==> ParentIsCollection(v, ts)
  }

  lemma AllowedBelow(v: Value, ts: seq<Text>, edit: Edit)
    requires ts != [] && Allowed(v, ts, edit)
    ensures |ts| == 1 && edit.Put? ==> v.Array? || v.Object?
    ensures |ts| > 1 && Slot(v, ts[0]).Some? ==> Allowed(ChildAt(v, Slot(v, ts[0]).value), ts[1..], edit)
  {
    if |ts| == 1 {
      assert ts[..0] == [];
    } else if Slot(v, ts[0]).Some? {
      assert ts[..|ts| - 1][0] == ts[0] && ts[..|ts| - 1][1..] == ts[1..][..|ts| - 2];
    }
  }

  ghost function Compile(v: Value, ts: seq<Text>, edit: Edit): Compiled
    requires ts != [] && Allowed(v, ts, edit)
    decreases |ts|
  {
    AllowedBelow(v, ts, edit);
    if |ts| == 1 then Last(v, ts[0], edit)
    else if Slot(v, ts[0]).None? then NotFound
    else
      var k := Slot(v, ts[0]).value;
      Prepend([Op(k, Pass)], Compile(ChildAt(v, k), ts[1..], edit))
  }

  // What an edit means.

  function WithChild(v: Value, k: nat, y: Value): Value
    requires (v.Array? && k < |v.elements|) || (v.Object? && k < |v.members|)
  {
    if v.Array? then Array(v.elements[k := y]) else Object(v.members[k := Member(v.members[k].name, y)])
  }

  /** PUT: the named child becomes x; a new one is added at the end. */
  function PutChild(v: Value, t: Text, x: Value): Value
    requires v.Array? || v.Object?
  {
    if Slot(v, t).Some? then WithChild(v, Slot(v, t).value, x)
    else if v.Array? then Array(v.elements + [x])
    else Object(v.members + [Member(t, x)])
  }

  function Without<T>(s: seq<T>, k: nat): seq<T>
    requires k < |s|
  {
    s[..k] + s[k + 1..]
  }

  function RemoveChild(v: Value, k: nat): Value
    requires (v.Array? && k < |v.elements|) || (v.Object? && k < |v.members|)
  {
    if v.Array? then Array(Without(v.elements, k)) else Object(Without(v.members, k))
  }

  /** When an edit can be carried out. */
  ghost predicate CanEdit(v: Value, ts: seq<Text>, edit: Edit)
    requires ts != []
  {
    match edit
    case Delete => Get(v, ts).Some?
    case Post(_) => Get(v, ts).Some? && Get(v, ts).value.Array?
    case Put(_) =>
      var parent, t := Get(v, ts[..|ts| - 1]), ts[|ts| - 1];
      && parent.Some?
      && (parent.value.Object? || (parent.value.Array? && Index(t).Some? && Index(t).value <= |parent.value.elements|))
  }

  lemma CanEditBelow(v: Value, ts: seq<Text>, edit: Edit)
    requires |ts| > 1
    ensures CanEdit(v, ts, edit) <==> Slot(v, ts[0]).Some? && CanEdit(ChildAt(v, Slot(v, ts[0]).value), ts[1..], edit)
  {
    assert ts[..|ts| - 1][0] == ts[0] && ts[..|ts| - 1][1..] == ts[1..][..|ts| - 2];
  }

  lemma CanEditHere(v: Value, t: Text, edit: Edit)
    ensures CanEdit(v, [t], edit) <==>
      match edit
      case Delete => Slot(v, t).Some?
      case Post(_) => Slot(v, t).Some? && ChildAt(v, Slot(v, t).value).Array?
      case Put(_) => v.Object? || (v.Array? && Index(t).Some? && Index(t).value <= |v.elements|)
  {
    var ts := [t];
    assert ts[..|ts| - 1] == [] && ts[1..] == [];
    assert Get(v, ts) == Child(v, t);
  }

  ghost function EditChild(v: Value, t: Text, edit: Edit): Value
    requires CanEdit(v, [t], edit)
  {
    CanEditHere(v, t, edit);
    match edit
    case Delete => RemoveChild(v, Slot(v, t).value)
    case Post(x) => WithChild(v, Slot(v, t).value, Array(ChildAt(v, Slot(v, t).value).elements + [x]))
    case Put(x) => PutChild(v, t, x)
  }

  /** The functional update at a path. */
  ghost function Edited(v: Value, ts: seq<Text>, edit: Edit): Value
    requires ts != [] && CanEdit(v, ts, edit)
    decreases |ts|
  {
    if |ts| == 1 then
      assert ts == [ts[0]];
      EditChild(v, ts[0], edit)
    else
      CanEditBelow(v, ts, edit);
      var k := Slot(v, ts[0]).value;
      WithChild(v, k, Edited(ChildAt(v, k), ts[1..], edit))
  }

  // Carrying out a chain.

  ghost predicate Fitting(v: Value, ops: seq<Op>)
    decreases |ops|
  {
    ops == [] ||
      var n := if v.Array? then |v.elements| else if v.Object? then |v.members| else 0;
      var op := ops[0];
      && (v.Array? || v.Object?)
      && match op.action
         case Pass => op.index < n && |ops| > 1 && Fitting(ChildAt(v, op.index), ops[1..])
         case Create(_) => v.Array? && op.index == n
         case CreateMember(_) => v.Object? && op.index == n
         case Replace(_) => op.index < n
         case Remove => op.index < n
  }

  ghost function Apply(v: Value, ops: seq<Op>): Value
    requires Fitting(v, ops)
    decreases |ops|
  {
    if ops == [] then v
    else
      var op := ops[0];
      match op.action
      case Pass => WithChild(v, op.index, Apply(ChildAt(v, op.index), ops[1..]))
      case Create(x) => Array(v.elements + [x])
      case CreateMember(m) => Object(v.members + [m])
      case Replace(x) => WithChild(v, op.index, x)
      case Remove => RemoveChild(v, op.index)
  }

  /** The compiler's answer, and what its chain does. */
  lemma {:induction false} CompileIsEdit(v: Value, ts: seq<Text>, edit: Edit)
    requires ts != [] && Allowed(v, ts, edit)
    ensures Compile(v, ts, edit).Ops? <==> CanEdit(v, ts, edit)
    ensures Compile(v, ts, edit).NotAllowed? <==> edit.Post? && Get(v, ts).Some? && !Get(v, ts).value.Array?
    ensures CanEdit(v, ts, edit) ==>
              var ops := Compile(v, ts, edit).ops;
              ops != [] && Fitting(v, ops) && Apply(v, ops) == Edited(v, ts, edit)
    decreases |ts|
  {
    AllowedBelow(v, ts, edit);
    if |ts| == 1 {
      assert ts == [ts[0]] && ts[1..] == [];
      CanEditHere(v, ts[0], edit);
      LastIsEdit(v, ts[0], edit);
    } else {
      CanEditBelow(v, ts, edit);
      if Slot(v, ts[0]).Some? {
        var k := Slot(v, ts[0]).value;
        CompileIsEdit(ChildAt(v, k), ts[1..], edit);
        if CanEdit(v, ts, edit) {
          var rest := Compile(ChildAt(v, k), ts[1..], edit).ops;
          PassFits(v, k, rest);
        }
      }
    }
  }

  lemma PassFits(v: Value, k: nat, rest: seq<Op>)
    requires ((v.Array? && k < |v.elements|) || (v.Object? && k < |v.members|)) && rest != [] && Fitting(ChildAt(v, k), rest)
    ensures Fitting(v, [Op(k, Pass)] + rest)
    ensures Apply(v, [Op(k, Pass)] + rest) == WithChild(v, k, Apply(ChildAt(v, k), rest))
  {
    assert ([Op(k, Pass)] + rest)[1..] == rest;
  }

  lemma LastIsEdit(v: Value, t: Text, edit: Edit)
    requires edit.Put? ==> v.Array? || v.Object?
    ensures Last(v, t, edit).Ops? <==> CanEdit(v, [t], edit)
    ensures Last(v, t, edit).NotAllowed? <==> edit.Post? && Slot(v, t).Some? && !ChildAt(v, Slot(v, t).value).Array?
    ensures CanEdit(v, [t], edit) ==>
              var ops := Last(v, t, edit).ops;
              ops != [] && Fitting(v, ops) && Apply(v, ops) == EditChild(v, t, edit)
  {
    CanEditHere(v, t, edit);
    if edit.Post? && CanEdit(v, [t], edit) {
      var k := Slot(v, t).value;
      var node := ChildAt(v, k);
      var rest := [Op(|node.elements|, Create(edit.value))];
      PassFits(v, k, rest);
      assert Last(v, t, edit).ops == [Op(k, Pass)] + rest;
    }
  }

  // Laws of the update.

  lemma SameChild(v: Value, k: nat, y: Value, t: Text)
    requires (v.Array? && k < |v.elements|) || (v.Object? && k < |v.members|)
    ensures Slot(WithChild(v, k, y), t) == Slot(v, t)
    ensures Slot(v, t).Some? ==>
              Child(WithChild(v, k, y), t) == if Slot(v, t).value == k then Some(y) else Child(v, t)
  {
    if v.Object? { FindSame(v.members, k, y, t); }
  }

  lemma {:induction false} FindSame(ms: seq<Member>, k: nat, y: Value, t: Text)
    requires k < |ms|
    ensures Find(ms[k := Member(ms[k].name, y)], t) == Find(ms, t)
  {
    var ms' := ms[k := Member(ms[k].name, y)];
    if k > 0 {
      FindSame(ms[1..], k - 1, y, t);
      assert ms'[1..] == ms[1..][k - 1 := Member(ms[1..][k - 1].name, y)];
    } else {
      assert ms'[1..] == ms[1..];
    }
  }

  /** After a PUT the path has the new value. */
  lemma {:induction false} PutThenGet(v: Value, ts: seq<Text>, x: Value)
    requires ts != [] && CanEdit(v, ts, Put(x))
    ensures Get(Edited(v, ts, Put(x)), ts) == Some(x)
    decreases |ts|
  {
    if |ts| == 1 {
      assert ts == [ts[0]] && ts[1..] == [];
      CanEditHere(v, ts[0], Put(x));
      PutChildGet(v, ts[0], x);
    } else {
      CanEditBelow(v, ts, Put(x));
      var k := Slot(v, ts[0]).value;
      PutThenGet(ChildAt(v, k), ts[1..], x);
      SameChild(v, k, Edited(ChildAt(v, k), ts[1..], Put(x)), ts[0]);
    }
  }

  lemma PutChildGet(v: Value, t: Text, x: Value)
    requires v.Object? || (v.Array? && Index(t).Some? && Index(t).value <= |v.elements|)
    ensures Child(PutChild(v, t, x), t) == Some(x)
  {
    if Slot(v, t).Some? {
      SameChild(v, Slot(v, t).value, x, t);
    } else if v.Object? {
      FindAppended(v.members, Member(t, x), t);
    }
  }

  /** After a POST the array at the path has one more element at its end. */
  lemma {:induction false} PostThenGet(v: Value, ts: seq<Text>, x: Value)
    requires ts != [] && CanEdit(v, ts, Post(x))
    ensures Get(Edited(v, ts, Post(x)), ts) == Some(Array(Get(v, ts).value.elements + [x]))
    decreases |ts|
  {
    if |ts| == 1 {
      assert ts == [ts[0]] && ts[1..] == [];
      CanEditHere(v, ts[0], Post(x));
      var k := Slot(v, ts[0]).value;
      SameChild(v, k, Array(ChildAt(v, k).elements + [x]), ts[0]);
    } else {
      CanEditBelow(v, ts, Post(x));
      var k := Slot(v, ts[0]).value;
      PostThenGet(ChildAt(v, k), ts[1..], x);
      SameChild(v, k, Edited(ChildAt(v, k), ts[1..], Post(x)), ts[0]);
    }
  }

  /** Every edit changes its parent as EditChild says, and DELETE removes exactly one child of it. */
  lemma {:induction false} ParentAfterEdit(v: Value, ts: seq<Text>, edit: Edit)
    requires ts != [] && CanEdit(v, ts, edit)
    ensures var parent, t := Get(v, ts[..|ts| - 1]), ts[|ts| - 1];
            parent.Some? && CanEdit(parent.value, [t], edit)
            && Get(Edited(v, ts, edit), ts[..|ts| - 1]) == Some(EditChild(parent.value, t, edit))
    decreases |ts|
  {
    if |ts| == 1 {
      assert ts == [ts[0]] && ts[..|ts| - 1] == [];
    } else {
      CanEditBelow(v, ts, edit);
      var k := Slot(v, ts[0]).value;
      ParentAfterEdit(ChildAt(v, k), ts[1..], edit);
      SameChild(v, k, Edited(ChildAt(v, k), ts[1..], edit), ts[0]);
      var up := ts[..|ts| - 1];
      assert up[0] == ts[0] && up[1..] == ts[1..][..|ts[1..]| - 1];
    }
  }

  /** Two paths that part ways below v: at some node they name different children. */
  ghost predicate Apart(v: Value, ts: seq<Text>, us: seq<Text>)
    decreases |ts|
  {
    && ts != [] && us != [] && (v.Array? || v.Object?)
    && if (v.Array? && Index(ts[0]) != Index(us[0])) || (v.Object? && ts[0] != us[0]) then true
       else Slot(v, ts[0]).Some? && Apart(ChildAt(v, Slot(v, ts[0]).value), ts[1..], us[1..])
  }

  /** PUT and POST leave everything off the path as it was; DELETE does so off the path to the parent. */
  lemma {:induction false} EditFrame(v: Value, ts: seq<Text>, us: seq<Text>, edit: Edit)
    requires ts != [] && CanEdit(v, ts, edit) && Apart(v, if edit.Delete? then ts[..|ts| - 1] else ts, us)
    ensures Get(Edited(v, ts, edit), us) == Get(v, us)
    decreases |ts|
  {
    if |ts| == 1 {
      assert ts == [ts[0]];
      CanEditHere(v, ts[0], edit);
      ChildFrame(v, ts[0], us, edit);
    } else {
      CanEditBelow(v, ts, edit);
      var k := Slot(v, ts[0]).value;
      var child := ChildAt(v, k);
      SameChild(v, k, Edited(child, ts[1..], edit), us[0]);
      if Slot(v, us[0]) == Some(k) {
        SameSlotSameToken(v, ts[0], us[0]);
        assert ts[..|ts| - 1][1..] == ts[1..][..|ts[1..]| - 1];
        EditFrame(child, ts[1..], us[1..], edit);
      }
    }
  }

  lemma SameSlotSameToken(v: Value, t: Text, u: Text)
    requires Slot(v, t).Some? && Slot(v, t) == Slot(v, u)
    ensures v.Object? ==> t == u
    ensures v.Array? ==> Index(t) == Index(u)
  {
  }

  lemma ChildFrame(v: Value, t: Text, us: seq<Text>, edit: Edit)
    requires CanEdit(v, [t], edit) && !edit.Delete? && Apart(v, [t], us)
    ensures Get(EditChild(v, t, edit), us) == Get(v, us)
  {
    CanEditHere(v, t, edit);
    assert [t][1..] == [];
    if Slot(v, t).Some? {
      SameChild(v, Slot(v, t).value, ChildAt(EditChild(v, t, edit), Slot(v, t).value), us[0]);
    } else if v.Object? {
      FindAppended(v.members, Member(t, edit.value), us[0]);
    }
  }

  lemma {:induction false} FindAppended(ms: seq<Member>, m: Member, t: Text)
    ensures Find(ms + [m], t) == if Find(ms, t).Some? then Find(ms, t) else if m.name == t then Some(|ms|) else None
  {
    if ms != [] {
      assert (ms + [m])[1..] == ms[1..] + [m];
      FindAppended(ms[1..], m, t);
    }
  }

  lemma WithoutAt(ms: seq<Member>, k: nat, i: nat)
    requires k < |ms| && i + 1 < |ms|
    ensures Without(ms, k)[i] == ms[if i < k then i else i + 1]
  {
  }

  lemma FindUnique(ms: seq<Member>, t: Text, j: nat)
    requires Unique(ms) && j < |ms| && ms[j].name == t
    ensures Find(ms, t) == Some(j)
  {
    hide Find;
    assert Find(ms, t).Some?;
  }

  lemma FindNothing(ms: seq<Member>, t: Text)
    requires forall i :: 0 <= i < |ms| ==> ms[i].name != t
    ensures Find(ms, t) == None
  {
  }

  lemma WithoutUnique(ms: seq<Member>, k: nat)
    requires Unique(ms) && k < |ms|
    ensures Unique(Without(ms, k))
  {
    hide Without;
    var rest := Without(ms, k);
    assert |rest| == |ms| - 1 by { WithoutLength(ms, k); }
    forall i, j | 0 <= i < j < |rest| ensures rest[i].name != rest[j].name {
      WithoutAt(ms, k, i);
      WithoutAt(ms, k, j);
    }
  }

  lemma WithoutLength(ms: seq<Member>, k: nat)
    requires k < |ms|
    ensures |Without(ms, k)| == |ms| - 1
  {
  }

  /** DELETE of a member: the name is gone, every other name keeps its value. */
  lemma MemberRemoved(ms: seq<Member>, k: nat, t: Text)
    requires Unique(ms) && k < |ms|
    ensures Find(Without(ms, k), t)
         == if t == ms[k].name || Find(ms, t).None? then None
            else if Find(ms, t).value < k then Find(ms, t) else Some(Find(ms, t).value - 1)
  {
    hide Find, Without;
    var rest := Without(ms, k);
    WithoutLength(ms, k);
    if t == ms[k].name || Find(ms, t).None? {
      forall i | 0 <= i < |rest| ensures rest[i].name != t { WithoutAt(ms, k, i); }
      FindNothing(rest, t);
    } else {
      var j := Find(ms, t).value;
      var i := if j < k then j else j - 1;
      WithoutAt(ms, k, i);
      WithoutUnique(ms, k);
      FindUnique(rest, t, i);
    }
  }

  // Member names stay unique.

  ghost predicate UniqueNames(v: Value)
    decreases v
  {
    match v
    case Array(es) => forall i :: 0 <= i < |es| ==> UniqueNames(es[i])
    case Object(ms) => Unique(ms) && forall i :: 0 <= i < |ms| ==> UniqueNames(ms[i].value)
    case _ => true
  }

  lemma UniqueWithChild(v: Value, k: nat, y: Value)
    requires UniqueNames(v) && UniqueNames(y) && ((v.Array? && k < |v.elements|) || (v.Object? && k < |v.members|))
    ensures UniqueNames(WithChild(v, k, y)) && UniqueNames(ChildAt(v, k))
  {
  }

  lemma UniqueEditChild(v: Value, t: Text, edit: Edit)
    requires CanEdit(v, [t], edit) && UniqueNames(v) && (!edit.Delete? ==> UniqueNames(edit.value))
    ensures UniqueNames(EditChild(v, t, edit))
  {
    CanEditHere(v, t, edit);
    match edit
    case Delete =>
    case Post(x) =>
      var k := Slot(v, t).value;
      UniqueWithChild(v, k, v);
      UniqueWithChild(v, k, Array(ChildAt(v, k).elements + [x]));
    case Put(x) =>
      if Slot(v, t).Some? { UniqueWithChild(v, Slot(v, t).value, x); }
  }

  lemma {:induction false} EditKeepsUnique(v: Value, ts: seq<Text>, edit: Edit)
    requires ts != [] && CanEdit(v, ts, edit) && UniqueNames(v) && (!edit.Delete? ==> UniqueNames(edit.value))
    ensures UniqueNames(Edited(v, ts, edit))
    decreases |ts|
  {
    if |ts| == 1 {
      assert ts == [ts[0]];
      UniqueEditChild(v, ts[0], edit);
    } else {
      CanEditBelow(v, ts, edit);
      var k := Slot(v, ts[0]).value;
      UniqueWithChild(v, k, v);
      EditKeepsUnique(ChildAt(v, k), ts[1..], edit);
      UniqueWithChild(v, k, Edited(ChildAt(v, k), ts[1..], edit));
    }
  }

  // What a path leads to after a DELETE.

  /** The child of v that the token names once child k is gone: later elements of an array move down. */
  function SlotAfter(v: Value, k: nat, t: Text): (r: Option<nat>)
    requires (v.Array? && k < |v.elements|) || (v.Object? && k < |v.members|)
    ensures r.Some? ==> (v.Array? && r.value < |v.elements|) || (v.Object? && r.value < |v.members|)
  {
    if v.Object? then if Slot(v, t) == Some(k) then None else Slot(v, t)
    else if Index(t).None? then None
    else if Index(t).value < k then Index(t)
    else if Index(t).value + 1 < |v.elements| then Some(Index(t).value + 1)
    else None
  }

  lemma RemovedChild(v: Value, k: nat, t: Text)
    requires (v.Array? && k < |v.elements|) || (v.Object? && k < |v.members| && Unique(v.members))
    ensures Child(RemoveChild(v, k), t)
         == if SlotAfter(v, k, t).None? then None else Some(ChildAt(v, SlotAfter(v, k, t).value))
  {
    hide Find;
    if v.Object? {
      MemberRemoved(v.members, k, t);
      if Slot(v, t).Some? && Slot(v, t) != Some(k) {
        var j := Slot(v, t).value;
        WithoutLength(v.members, k);
        WithoutAt(v.members, k, if j < k then j else j - 1);
      } else if Slot(v, t).None? {
        assert t != v.members[k].name;
      }
    }
  }

  /** The value at us after a DELETE at ts, in terms of the tree before it. */
  ghost function GetAfterDelete(v: Value, ts: seq<Text>, us: seq<Text>): Option<Value>
    requires ts != [] && us != [] && CanEdit(v, ts, Delete)
    decreases |ts|
  {
    var k := Slot(v, ts[0]).value;
    if |ts| == 1 then
      if SlotAfter(v, k, us[0]).None? then None else Get(ChildAt(v, SlotAfter(v, k, us[0]).value), us[1..])
    else if Slot(v, us[0]) != Some(k) then Get(v, us)
    else
      CanEditBelow(v, ts, Delete);
      if |us| == 1 then Some(Edited(ChildAt(v, k), ts[1..], Delete)) else GetAfterDelete(ChildAt(v, k), ts[1..], us[1..])
  }

  /** A DELETE removes exactly the node at its path, for every path that is asked for afterwards. */
  lemma {:induction false} DeleteIs(v: Value, ts: seq<Text>, us: seq<Text>)
    requires ts != [] && us != [] && CanEdit(v, ts, Delete) && UniqueNames(v)
    ensures Get(Edited(v, ts, Delete), us) == GetAfterDelete(v, ts, us)
    decreases |ts|
  {
    var k := Slot(v, ts[0]).value;
    if |ts| == 1 {
      assert ts == [ts[0]];
      RemovedChild(v, k, us[0]);
    } else {
      CanEditBelow(v, ts, Delete);
      UniqueWithChild(v, k, v);
      SameChild(v, k, Edited(ChildAt(v, k), ts[1..], Delete), us[0]);
      if Slot(v, us[0]) == Some(k) && |us| > 1 { DeleteIs(ChildAt(v, k), ts[1..], us[1..]); }
    }
  }

  ghost predicate ParentIsObject(v: Value, ts: seq<Text>)
    requires ts != []
  {
    var parent := Get(v, ts[..|ts| - 1]); parent.Some? && parent.value.Object?
  }

  lemma ParentBelow(v: Value, ts: seq<Text>)
    requires ts != [] && ParentIsObject(v, ts)
    ensures |ts| == 1 ==> v.Object?
    ensures |ts| > 1 ==> Slot(v, ts[0]).Some? && ParentIsObject(ChildAt(v, Slot(v, ts[0]).value), ts[1..])
  {
    if |ts| == 1 {
      assert ts[..0] == [];
    } else {
      assert ts[..|ts| - 1][0] == ts[0] && ts[..|ts| - 1][1..] == ts[1..][..|ts| - 2];
    }
  }

  lemma {:induction false} DeletedIsGone(v: Value, ts: seq<Text>)
    requires ts != [] && CanEdit(v, ts, Delete) && ParentIsObject(v, ts)
    ensures GetAfterDelete(v, ts, ts) == None
    decreases |ts|
  {
    ParentBelow(v, ts);
    if |ts| > 1 {
      CanEditBelow(v, ts, Delete);
      DeletedIsGone(ChildAt(v, Slot(v, ts[0]).value), ts[1..]);
    }
  }

  /** After a DELETE of a member nothing is at its path. */
  lemma DeleteThenGet(v: Value, ts: seq<Text>)
    requires ts != [] && CanEdit(v, ts, Delete) && UniqueNames(v) && ParentIsObject(v, ts)
    ensures Get(Edited(v, ts, Delete), ts) == None
  {
    hide *;
    DeleteIs(v, ts, ts);
    DeletedIsGone(v, ts);
  }

  lemma {:induction false} ApartIsKept(v: Value, ts: seq<Text>, us: seq<Text>)
    requires ts != [] && us != [] && CanEdit(v, ts, Delete) && ParentIsObject(v, ts) && Apart(v, ts, us)
    ensures GetAfterDelete(v, ts, us) == Get(v, us)
    decreases |ts|
  {
    ParentBelow(v, ts);
    var k := Slot(v, ts[0]).value;
    if |ts| == 1 {
      assert ts[1..] == [];
      assert ts[0] != us[0];
    } else if Slot(v, us[0]) == Some(k) {
      CanEditBelow(v, ts, Delete);
      SameSlotSameToken(v, ts[0], us[0]);
      ApartIsKept(ChildAt(v, k), ts[1..], us[1..]);
    }
  }

  /** A DELETE of a member leaves everything off its path as it was, the other members of its object included. */
  lemma DeleteFrame(v: Value, ts: seq<Text>, us: seq<Text>)
    requires ts != [] && us != [] && CanEdit(v, ts, Delete) && UniqueNames(v) && ParentIsObject(v, ts) && Apart(v, ts, us)
    ensures Get(Edited(v, ts, Delete), us) == Get(v, us)
  {
    hide *;
    DeleteIs(v, ts, us);
    ApartIsKept(v, ts, us);
  }

  lemma {:induction false} GetThrough(v: Value, up: seq<Text>, us: seq<Text>)
    ensures Get(v, up + us) == if Get(v, up).None? then None else Get(Get(v, up).value, us)
    decreases |up|
  {
    if up == [] {
      assert up + us == us;
    } else {
      assert (up + us)[0] == up[0] && (up + us)[1..] == up[1..] + us;
      if Child(v, up[0]).Some? { GetThrough(Child(v, up[0]).value, up[1..], us); }
    }
  }

  /** A DELETE of an element: those before it stay, those after it move down by one. */
  lemma DeleteShifts(v: Value, up: seq<Text>, t: Text, u: Text, rest: seq<Text>)
    requires Get(v, up).Some? && Get(v, up).value.Array? && CanEdit(v, up + [t], Delete)
    ensures var es, k, i := Get(v, up).value.elements, Index(t), Index(u);
            Get(Edited(v, up + [t], Delete), up + ([u] + rest))
            == if i.None? || k.None? then None
               else if i.value < k.value && i.value < |es| then Get(es[i.value], rest)
               else if k.value <= i.value && i.value + 1 < |es| then Get(es[i.value + 1], rest)
               else None
  {
    hide Edited, Find;
    var parent := Get(v, up).value;
    var ts := up + [t];
    assert ts[..|ts| - 1] == up && ts[|ts| - 1] == t;
    ParentAfterEdit(v, ts, Delete);
    CanEditHere(parent, t, Delete);
    GetThrough(Edited(v, ts, Delete), up, [u] + rest);
    RemovedChild(parent, Slot(parent, t).value, u);
    assert ([u] + rest)[1..] == rest;
  }
}
