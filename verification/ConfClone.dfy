/** The loops of nxt_conf_op_compile(), nxt_conf_copy_array() and nxt_conf_copy_object(). */
module ConfClone {
  import opened Bytes
  import opened JsonValue
  import opened ConfPath
  import opened ConfEdit

  // Compiling along a path.

  /** What is left to compile at p, after the given operations. */
  ghost predicate Compiling(root: Value, path: Text, edit: Edit, value: Value, p: nat, ops: seq<Op>)
    requires path != []
  {
    && p < |path|
    && Tokens(path, 0).Some? == Tokens(path, p).Some?
    && (Tokens(path, p).Some? ==>
          && Allowed(root, Tokens(path, 0).value, edit)
          && Allowed(value, Tokens(path, p).value, edit)
          && Compile(root, Tokens(path, 0).value, edit) == Prepend(ops, Compile(value, Tokens(path, p).value, edit)))
  }

  lemma PrependTwice(a: seq<Op>, b: seq<Op>, r: Compiled)
    ensures Prepend(a, Prepend(b, r)) == Prepend(a + b, r)
  {
    if r.Ops? { assert a + (b + r.ops) == (a + b) + r.ops; }
  }

  lemma CompilingStep(root: Value, path: Text, edit: Edit, value: Value, p: nat, ops: seq<Op>)
    requires path != [] && Compiling(root, path, edit, value, p, ops)
    requires NextToken(path, p).Some? && NextToken(path, p).value.next < |path|
    ensures var cut := NextToken(path, p).value;
            match Slot(value, cut.token)
            case Some(k) => Compiling(root, path, edit, ChildAt(value, k), cut.next, ops + [Op(k, Pass)])
            case None => Tokens(path, 0).Some? ==> Compile(root, Tokens(path, 0).value, edit) == NotFound
  {
    hide Slot, NextToken, Last, Allowed;
    var cut := NextToken(path, p).value;
    if Tokens(path, p).Some? {
      TokensTail(path, p);
      var ts := Tokens(path, p).value;
      AllowedBelow(value, ts, edit);
      if Slot(value, cut.token).Some? {
        var k := Slot(value, cut.token).value;
        PrependTwice(ops, [Op(k, Pass)], Compile(ChildAt(value, k), ts[1..], edit));
      }
    }
  }

  lemma CompilingLast(root: Value, path: Text, edit: Edit, value: Value, p: nat, ops: seq<Op>)
    requires path != [] && Compiling(root, path, edit, value, p, ops)
    requires NextToken(path, p).Some? && NextToken(path, p).value.next == |path|
    ensures edit.Put? ==> value.Array? || value.Object?
    ensures Tokens(path, 0).Some?
    ensures Allowed(root, Tokens(path, 0).value, edit)
    ensures Compile(root, Tokens(path, 0).value, edit) == Prepend(ops, Last(value, NextToken(path, p).value.token, edit))
  {
    hide Slot, NextToken, Last;
    AllowedBelow(value, Tokens(path, p).value, edit);
  }

  /** Compiles for every path; a malformed token is reported unless an earlier one is not found. */
  method CompileOps(root: Value, path: Text, edit: Edit) returns (r: Compiled)
    requires path != [] && (Tokens(path, 0).Some? ==> Allowed(root, Tokens(path, 0).value, edit))
    ensures Tokens(path, 0).Some? ==> r == Compile(root, Tokens(path, 0).value, edit)
    ensures Tokens(path, 0).None? ==> r == NotFound || r == BadPath
  {
    hide Compile, Tokens, Slot, NextToken, Allowed;
    var value, p, ops := root, 0, [];
    CompilingStart(root, path, edit);
    while true
      invariant 0 <= p < |path| && Compiling(root, path, edit, value, p, ops)
      decreases |path| - p
    {
      var cut := ReadToken(path, p);
      if cut == None {
        NoTokens(path, p);
        return BadPath;
      }
      var slot := FindChild(value, cut.value.token);
      if cut.value.next == |path| {
        CompilingLast(root, path, edit, value, p, ops);
        r := CompileLast(value, cut.value.token, slot, edit);
        return Prepend(ops, r);
      }
      CompilingStep(root, path, edit, value, p, ops);
      if slot == None { return NotFound; }
      ops := ops + [Op(slot.value, Pass)];
      value := ChildAt(value, slot.value);
      p := cut.value.next;
    }
  }

  lemma CompilingStart(root: Value, path: Text, edit: Edit)
    requires path != [] && (Tokens(path, 0).Some? ==> Allowed(root, Tokens(path, 0).value, edit))
    ensures Compiling(root, path, edit, root, 0, [])
  {
    if Tokens(path, 0).Some? && Compile(root, Tokens(path, 0).value, edit).Ops? {
      assert [] + Compile(root, Tokens(path, 0).value, edit).ops == Compile(root, Tokens(path, 0).value, edit).ops;
    }
  }

  lemma NoTokens(path: Text, p: nat)
    requires p < |path| && NextToken(path, p).None?
    ensures Tokens(path, p).None?
  {
  }

  /** The part after the loop. */
  method CompileLast(value: Value, token: Text, slot: Option<nat>, edit: Edit) returns (r: Compiled)
    requires slot == Slot(value, token) && (edit.Put? ==> value.Array? || value.Object?)
    ensures r == Last(value, token, edit)
  {
    var index := ParseIndex(token);
    if value.Array? && index == None { return NotFound; }
    match edit
    case Delete =>
      r := if slot == None then NotFound else Ops([Op(slot.value, Remove)]);
    case Post(x) =>
      if slot == None { return NotFound; }
      var node := ChildAt(value, slot.value);
      r := if !node.Array? then NotAllowed else Ops([Op(slot.value, Pass), Op(|node.elements|, Create(x))]);
    case Put(x) =>
      if slot.Some? { return Ops([Op(slot.value, Replace(x))]); }
      if value.Array? {
        return if index.value > |value.elements| then NotFound else Ops([Op(index.value, Create(x))]);
      }
      r := Ops([Op(|value.members|, CreateMember(Member(token, x)))]);
  }

  // Cloning.

  ghost function Count(v: Value): nat {
    if v.Array? then |v.elements| else if v.Object? then |v.members| else 0
  }

  ghost predicate OpInRange(v: Value, op: Op) {
    match op.action
    case Create(_) => v.Array? && op.index == Count(v)
    case CreateMember(_) => v.Object? && op.index == Count(v)
    case _ => op.index < Count(v)
  }

  /** The indexes of a chain are within the collections it goes through. */
  ghost predicate InRange(v: Value, ops: seq<Op>)
    decreases |ops|
  {
    ops == [] || (!v.Array? && !v.Object?)
    || (&& OpInRange(v, ops[0])
        && (ops[0].action.Pass? ==> |ops| > 1 && InRange(ChildAt(v, ops[0].index), ops[1..])))
  }

  /** What cloning gives; a chain cannot go into a scalar. */
  ghost function Cloned(v: Value, ops: seq<Op>): Option<Value>
    requires InRange(v, ops)
    decreases |ops|
  {
    if ops == [] then Some(v)
    else if !v.Array? && !v.Object? then None
    else
      var op := ops[0];
      match op.action
      case Pass =>
        var inner := Cloned(ChildAt(v, op.index), ops[1..]);
        if inner.None? then None else Some(WithChild(v, op.index, inner.value))
      case Create(x) => Some(Array(v.elements + [x]))
      case CreateMember(m) => Some(Object(v.members + [m]))
      case Replace(x) => Some(WithChild(v, op.index, x))
      case Remove => Some(RemoveChild(v, op.index))
  }

  lemma {:induction false} FittingClones(v: Value, ops: seq<Op>)
    requires Fitting(v, ops)
    ensures InRange(v, ops) && Cloned(v, ops) == Some(Apply(v, ops))
    decreases |ops|
  {
    if ops != [] && ops[0].action.Pass? { FittingClones(ChildAt(v, ops[0].index), ops[1..]); }
  }

  // The children of an array and of an object, in one form: the two copying loops of the source are the same.

  function Items(v: Value): (r: seq<Member>)
    ensures |r| == if v.Array? then |v.elements| else if v.Object? then |v.members| else 0
  {
    if v.Array? then seq(|v.elements|, i requires 0 <= i < |v.elements| => Member([], v.elements[i]))
    else if v.Object? then v.members
    else []
  }

  function Rebuild(v: Value, items: seq<Member>): Value {
    if v.Array? then Array(seq(|items|, i requires 0 <= i < |items| => items[i].value)) else Object(items)
  }

  lemma RebuildSame(v: Value)
    requires v.Array? || v.Object?
    ensures Rebuild(v, Items(v)) == v
  {
    if v.Array? { assert Rebuild(v, Items(v)).elements == v.elements; }
  }

  /** The items of the clone. */
  ghost function ClonedItems(v: Value, ops: seq<Op>): Option<seq<Member>>
    requires (v.Array? || v.Object?) && InRange(v, ops)
  {
    var items := Items(v);
    if ops == [] then Some(items)
    else
      var k := ops[0].index;
      match ops[0].action
      case Pass =>
        var inner := Cloned(ChildAt(v, k), ops[1..]);
        if inner.None? then None else Some(items[..k] + [Member(items[k].name, inner.value)] + items[k + 1..])
      case Create(x) => Some(items[..k] + [Member([], x)] + items[k..])
      case CreateMember(m) => Some(items[..k] + [m] + items[k..])
      case Replace(x) => Some(items[..k] + [Member(items[k].name, x)] + items[k + 1..])
      case Remove => Some(items[..k] + items[k + 1..])
  }

  lemma RebuildWith(v: Value, k: nat, y: Value)
    requires (v.Array? || v.Object?) && k < |Items(v)|
    ensures Rebuild(v, Items(v)[..k] + [Member(Items(v)[k].name, y)] + Items(v)[k + 1..]) == WithChild(v, k, y)
  {
    var items := Items(v)[..k] + [Member(Items(v)[k].name, y)] + Items(v)[k + 1..];
    if v.Array? {
      assert Rebuild(v, items).elements == v.elements[k := y];
    } else {
      assert items == v.members[k := Member(v.members[k].name, y)];
    }
  }

  lemma RebuildWithout(v: Value, k: nat)
    requires (v.Array? || v.Object?) && k < |Items(v)|
    ensures Rebuild(v, Items(v)[..k] + Items(v)[k + 1..]) == RemoveChild(v, k)
  {
    if v.Array? { assert Rebuild(v, Items(v)[..k] + Items(v)[k + 1..]).elements == Without(v.elements, k); }
  }

  lemma RebuildMore(v: Value, m: Member)
    requires v.Array? || v.Object?
    ensures var k := |Items(v)|;
            Rebuild(v, Items(v)[..k] + [m] + Items(v)[k..])
              == if v.Array? then Array(v.elements + [m.value]) else Object(v.members + [m])
  {
    var k := |Items(v)|;
    assert Items(v)[..k] + [m] + Items(v)[k..] == Items(v) + [m];
    if v.Array? { assert Rebuild(v, Items(v) + [m]).elements == v.elements + [m.value]; }
  }

  lemma ClonedIsItems(v: Value, ops: seq<Op>)
    requires (v.Array? || v.Object?) && InRange(v, ops)
    ensures Cloned(v, ops).Some? == ClonedItems(v, ops).Some?
    ensures Cloned(v, ops).Some? ==> Cloned(v, ops).value == Rebuild(v, ClonedItems(v, ops).value)
  {
    hide Items, Rebuild, WithChild, RemoveChild;
    RebuildSame(v);
    if ops != [] && Cloned(v, ops).Some? {
      var k := ops[0].index;
      match ops[0].action
      case Pass => RebuildWith(v, k, Cloned(ChildAt(v, k), ops[1..]).value);
      case Create(x) => RebuildMore(v, Member([], x));
      case CreateMember(m) => RebuildMore(v, m);
      case Replace(x) => RebuildWith(v, k, x);
      case Remove => RebuildWithout(v, k);
    }
  }

  method CopyValue(v: Value, ops: seq<Op>) returns (r: Option<Value>)
    requires InRange(v, ops)
    ensures r == Cloned(v, ops)
    decreases v, 2
  {
    if !v.Array? && !v.Object? { return if ops != [] then None else Some(v); }
    r := CopyChildren(v, ops);
  }

  ghost function Copied(v: Value, pass: seq<Op>, s: nat, index: nat): seq<Member>
    requires s <= index <= |Items(v)|
    requires pass != [] ==> s < index && InRange(ChildAt(v, s), pass) && Cloned(ChildAt(v, s), pass).Some?
  {
    if pass == [] then Items(v)[s..index]
    else [Member(Items(v)[s].name, Cloned(ChildAt(v, s), pass).value)]
  }

  lemma CopiedNext(v: Value, pass: seq<Op>, s: nat, n: nat)
    requires s <= n < |Items(v)| && InRange(ChildAt(v, n), pass) && Cloned(ChildAt(v, n), pass).Some?
    requires pass != [] ==> n == s
    ensures Copied(v, pass, s, n + 1)
         == (if n == s then [] else Copied(v, pass, s, n)) + [Member(Items(v)[n].name, Cloned(ChildAt(v, n), pass).value)]
  {
    hide Cloned, InRange;
    if pass == [] {
      ChildIsItem(v, n);
      assert Items(v)[s..n + 1] == Items(v)[s..n] + [Items(v)[n]];
    }
  }

  lemma CopiedNone(v: Value, s: nat)
    requires s <= |Items(v)|
    ensures Copied(v, [], s, s) == []
  {
  }

  /** The inner loop: children s up to index go to dst from d on, the one that is passed to with its chain. */
  method CopyUpTo(v: Value, pass: seq<Op>, s: nat, index: nat, dst: array<Member>, d: nat) returns (ok: bool)
    requires s <= index <= |Items(v)| && d + (index - s) <= dst.Length
    requires pass != [] ==> index == s + 1 && InRange(ChildAt(v, s), pass)
    modifies dst
    ensures ok <==> pass == [] || Cloned(ChildAt(v, s), pass).Some?
    ensures ok ==> dst[..d + (index - s)] == old(dst[..d]) + Copied(v, pass, s, index)
    decreases v, 0
  {
    hide Cloned, InRange, Items, Copied;
    var items := Items(v);
    CopiedNone(v, s);
    for n := s to index
      invariant n > s && pass != [] ==> Cloned(ChildAt(v, s), pass).Some?
      invariant dst[..d + (n - s)] == old(dst[..d]) + if n == s then [] else Copied(v, pass, s, n)
    {
      ChildIsItem(v, n);
      var copy := CopyValue(ChildAt(v, n), pass);
      if copy == None { return false; }
      CopiedNext(v, pass, s, n);
      var k := d + (n - s);
      dst[k] := Member(items[n].name, copy.value);
      assert dst[..k + 1] == dst[..k] + [dst[k]];
    }
    ok := true;
  }

  lemma ChildIsItem(v: Value, n: nat)
    requires n < |Items(v)|
    ensures Items(v)[n].value == ChildAt(v, n) && InRange(ChildAt(v, n), []) && Cloned(ChildAt(v, n), []) == Some(ChildAt(v, n))
  {
  }

  /** How far the copy is: before the operation, about to enter the child it passes to, or after it. */
  datatype Phase = Before | Inside | After

  ghost predicate Copying(v: Value, ops: seq<Op>, phase: Phase, s: nat, d: nat, done: seq<Member>)
    requires (v.Array? || v.Object?) && InRange(v, ops)
  {
    var items := Items(v);
    && s <= |items| && d == |done|
    && match phase
       case Before => ops != [] && s <= ops[0].index && done == items[..s]
       case Inside => ops != [] && ops[0].action.Pass? && s == ops[0].index && done == items[..s]
       case After => ClonedItems(v, ops) == Some(done + items[s..])
  }

  function CountAfter(n: nat, ops: seq<Op>): int {
    if ops == [] then n
    else match ops[0].action
      case Create(_) => n + 1
      case CreateMember(_) => n + 1
      case Remove => n - 1
      case _ => n
  }

  lemma CopyStarts(v: Value, ops: seq<Op>)
    requires (v.Array? || v.Object?) && InRange(v, ops)
    ensures Copying(v, ops, if ops == [] then After else Before, 0, 0, [])
  {
    assert [] + Items(v)[0..] == Items(v);
  }

  /** Plain children were copied up to the operation, or up to the end. */
  lemma CopyPlain(v: Value, ops: seq<Op>, phase: Phase, s: nat, d: nat, done: seq<Member>, index: nat)
    requires (v.Array? || v.Object?) && InRange(v, ops) && Copying(v, ops, phase, s, d, done) && phase != Inside
    requires index == if phase == Before then ops[0].index else |Items(v)|
    ensures s <= index <= |Items(v)|
    ensures Copying(v, ops, phase, index, d + (index - s), done + Items(v)[s..index])
  {
    var items := Items(v);
    assert phase == Before ==> index <= |items|;
    if phase == Before {
      assert items[..s] + items[s..index] == items[..index];
    } else {
      assert (done + items[s..index]) + items[index..] == done + items[s..];
    }
  }

  /** The child that is passed to was copied with the rest of the chain. */
  lemma CopyInside(v: Value, ops: seq<Op>, s: nat, d: nat, done: seq<Member>)
    requires (v.Array? || v.Object?) && InRange(v, ops) && Copying(v, ops, Inside, s, d, done)
    ensures |ops| > 1 && s < |Items(v)| && InRange(ChildAt(v, s), ops[1..])
    ensures Cloned(ChildAt(v, s), ops[1..]).None? ==> ClonedItems(v, ops).None?
    ensures Cloned(ChildAt(v, s), ops[1..]).Some? ==>
              Copying(v, ops, After, s + 1, d + 1, done + [Member(Items(v)[s].name, Cloned(ChildAt(v, s), ops[1..]).value)])
  {
  }

  /** The items the operation itself puts down, and how many children it skips. */
  function Placed(v: Value, op: Op): (seq<Member>, nat)
    requires op.index <= |Items(v)| && (op.action.Replace? ==> op.index < |Items(v)|)
  {
    match op.action
    case Pass => ([], 0)
    case Create(x) => ([Member([], x)], 0)
    case CreateMember(m) => ([m], 0)
    case Replace(x) => ([Member(Items(v)[op.index].name, x)], 1)
    case Remove => ([], 1)
  }

  lemma CopyOp(v: Value, ops: seq<Op>, s: nat, d: nat, done: seq<Member>)
    requires (v.Array? || v.Object?) && InRange(v, ops) && Copying(v, ops, Before, s, d, done) && s == ops[0].index
    ensures s <= |Items(v)| && (ops[0].action.Replace? ==> s < |Items(v)|)
    ensures var (put, skip) := Placed(v, ops[0]);
            Copying(v, ops, if ops[0].action.Pass? then Inside else After, s + skip, d + |put|, done + put)
  {
    assert done + [] == done;
  }

  /** How much of the destination is left. */
  lemma CopyRoom(v: Value, ops: seq<Op>, phase: Phase, s: nat, d: nat, done: seq<Member>)
    requires (v.Array? || v.Object?) && InRange(v, ops) && Copying(v, ops, phase, s, d, done)
    ensures phase == After ==> d + |Items(v)| - s == CountAfter(|Items(v)|, ops)
    ensures phase == After && s == |Items(v)| ==> ClonedItems(v, ops) == Some(done)
    ensures phase == Before ==> d == s <= ops[0].index && ops[0].index + |Placed(v, ops[0]).0| <= CountAfter(|Items(v)|, ops)
    ensures phase == Inside ==> d == s < CountAfter(|Items(v)|, ops) == |Items(v)|
    ensures phase == Before && ops[0].action.Pass? ==> ops[0].index < CountAfter(|Items(v)|, ops)
  {
    CountIsRight(v, ops);
    if phase == After && s == |Items(v)| { assert done + [] == done; }
  }

  /** The switch of the copying loop: the operation puts down its own item, or skips a child. */
  method PutOp(v: Value, ops: seq<Op>, s: nat, d: nat, dst: array<Member>) returns (s': nat, d': nat)
    requires (v.Array? || v.Object?) && InRange(v, ops) && dst.Length == CountAfter(|Items(v)|, ops) && d <= dst.Length
    requires ops != [] && Copying(v, ops, Before, s, d, dst[..d]) && s == ops[0].index
    modifies dst
    ensures d' <= dst.Length
    ensures Copying(v, ops, if ops[0].action.Pass? then Inside else After, s', d', dst[..d'])
    ensures ops[0].action.Pass? ==> s' == s
  {
    hide ClonedItems, InRange, Items, CountAfter, Copying;
    CopyRoom(v, ops, Before, s, d, dst[..d]);
    CopyOp(v, ops, s, d, dst[..d]);
    s', d' := s, d;
    match ops[0].action {
      case Pass =>
        assert dst[..d] + [] == dst[..d];
      case Create(x) =>
        dst[d] := Member([], x);
        d' := d + 1;
      case CreateMember(m) =>
        dst[d] := m;
        d' := d + 1;
      case Replace(x) =>
        dst[d] := Member(Items(v)[s].name, x);
        s', d' := s + 1, d + 1;
      case Remove =>
        assert dst[..d] + [] == dst[..d];
        s' := s + 1;
    }
    assert dst[..d'] == old(dst[..d]) + Placed(v, ops[0]).0;
  }

  /** The index up to which the inner loop copies. */
  ghost function Goal(v: Value, ops: seq<Op>, phase: Phase, s: nat): nat
    requires phase == Before ==> ops != []
  {
    match phase case Before => ops[0].index case Inside => s + 1 case After => |Items(v)|
  }

  ghost function Chain(ops: seq<Op>, phase: Phase): seq<Op>
    requires phase == Inside ==> ops != []
  {
    if phase == Inside then ops[1..] else []
  }

  /** One run of the inner loop. */
  lemma CopyRun(v: Value, ops: seq<Op>, phase: Phase, s: nat, d: nat, done: seq<Member>)
    requires (v.Array? || v.Object?) && InRange(v, ops) && Copying(v, ops, phase, s, d, done)
    requires ops != [] || phase == After
    ensures var index, pass := Goal(v, ops, phase, s), Chain(ops, phase);
            && s <= index <= |Items(v)| && d + (index - s) <= CountAfter(|Items(v)|, ops)
            && (phase == Inside <==> pass != [])
            && (pass != [] ==> index == s + 1 && InRange(ChildAt(v, s), pass))
            && if pass != [] && Cloned(ChildAt(v, s), pass).None? then ClonedItems(v, ops).None?
               else Copying(v, ops, if phase == Inside then After else phase, index, d + (index - s),
                            done + Copied(v, pass, s, index))
  {
    hide Cloned, ClonedItems, InRange, Items, Copying, CountAfter, Placed;
    CopyRoom(v, ops, phase, s, d, done);
    if phase == Inside {
      CopyInside(v, ops, s, d, done);
    } else {
      CopyPlain(v, ops, phase, s, d, done, Goal(v, ops, phase, s));
    }
  }

  /** The copying loop of arrays and objects. */
  method CopyChildren(v: Value, ops: seq<Op>) returns (r: Option<Value>)
    requires (v.Array? || v.Object?) && InRange(v, ops)
    ensures r == Cloned(v, ops)
    decreases v, 1
  {
    hide Cloned, ClonedItems, InRange, Items, Rebuild, Copying, CountAfter, Copied;
    ClonedIsItems(v, ops);
    CountIsRight(v, ops);
    var n, count := |Items(v)|, CountAfter(|Items(v)|, ops);
    var dst := new Member[count];
    var s: nat, d: nat, index: nat := 0, 0, 0;
    var op: Option<Op> := if ops == [] then None else Some(ops[0]);
    var pass: seq<Op> := [];
    ghost var phase := if ops == [] then After else Before;
    CopyStarts(v, ops);
    while true
      invariant ops != [] || phase == After
      invariant op == if phase == Before then Some(ops[0]) else None
      invariant pass == Chain(ops, phase) && (phase == Inside ==> index == s + 1)
      invariant d <= count && Copying(v, ops, phase, s, d, dst[..d])
      decreases match phase case Before => 2 case Inside => 1 case After => 0, count - d
    {
      CopyRun(v, ops, phase, s, d, dst[..d]);
      if pass == [] { index := if op == None then n else op.value.index; }
      var ok := CopyUpTo(v, pass, s, index, dst, d);
      if !ok { return None; }
      s, d := index, d + (index - s);
      if pass != [] {
        pass := [];
        phase := After;
      } else if op != None {
        s, d := PutOp(v, ops, s, d, dst);
        if op.value.action.Pass? {
          pass, index := ops[1..], index + 1;
          phase := Inside;
        } else {
          phase := After;
        }
        op := None;
      }
      CopyRoom(v, ops, phase, s, d, dst[..d]);
      if d == count { break; }
    }
    assert dst[..d] == dst[..];
    r := Some(Rebuild(v, dst[..]));
  }

  lemma CountIsRight(v: Value, ops: seq<Op>)
    requires (v.Array? || v.Object?) && InRange(v, ops)
    ensures CountAfter(|Items(v)|, ops) >= 0
    ensures ClonedItems(v, ops).Some? ==> |ClonedItems(v, ops).value| == CountAfter(|Items(v)|, ops)
  {
  }

  /** Compiling an edit and cloning with it is the functional update at the path. */
  method EditConf(root: Value, path: Text, edit: Edit) returns (value: Option<Value>)
    requires path != [] && (Tokens(path, 0).Some? ==> Allowed(root, Tokens(path, 0).value, edit))
    ensures value == if Tokens(path, 0).Some? && CanEdit(root, Tokens(path, 0).value, edit)
                     then Some(Edited(root, Tokens(path, 0).value, edit)) else None
  {
    hide Tokens, Compile, CanEdit, Edited, Fitting, Apply, Cloned, InRange;
    var r := CompileOps(root, path, edit);
    if Tokens(path, 0).Some? { CompileIsEdit(root, Tokens(path, 0).value, edit); }
    if !r.Ops? { return None; }
    FittingClones(root, r.ops);
    value := CopyValue(root, r.ops);
  }
}
