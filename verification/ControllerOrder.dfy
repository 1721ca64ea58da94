/** The order of requests: changes are carried out one at a time, in the order of their arrival. */
module ControllerOrder {
  import opened Bytes
  import opened Controller
  import opened ControllerRuns
  import opened Links
  import Answers = ControllerAnswers

  /** The requests of a run, in the order of their arrival. */
  function Arrivals(steps: seq<(World, Event)>): seq<nat>
    decreases |steps|
  {
    if steps == [] then []
    else
      var before, e := Arrivals(steps[..|steps| - 1]), steps[|steps| - 1].1;
      if e.Request? && e.r !in before then before + [e.r] else before
  }

  ghost predicate Earlier(order: seq<nat>, a: nat, b: nat) {
    exists i, j :: 0 <= i < j < |order| && order[i] == a && order[j] == b
  }

  ghost predicate Ordered(line: seq<nat>, order: seq<nat>) {
    forall i, j :: 0 <= i < j < |line| ==> Earlier(order, line[i], line[j])
  }

  /** The request at main, or the one whose bundle is stored and waits for the router. */
  function Front(s: Controller): seq<nat> {
    if s.out.stores != [] then [s.out.stores[0].req] else if s.certStored.Some? then [s.certStored.value] else []
  }

  /** Everybody who has no answer yet. */
  function Line(s: Controller): seq<nat> { Front(s) + s.waiting }

  /** The request at the router is the first that waits. */
  ghost predicate AtHead(s: Controller) {
    s.out.rpcs != [] && s.out.rpcs[0].RequestRpc? ==> s.waiting != [] && s.waiting[0] == s.out.rpcs[0].req
  }

  ghost predicate InOrder(s: Controller, order: seq<nat>) {
    NoDup(order) && (forall r :: r in order <==> r in s.h.arrived) && Ordered(Line(s), order) && AtHead(s)
  }

  // Lines.

  lemma OrderedDrop(a: seq<nat>, r: nat, b: seq<nat>, order: seq<nat>)
    requires Ordered(a + ([r] + b), order)
    ensures Ordered(a + b, order)
  {
    var whole, rest := a + ([r] + b), a + b;
    forall i, j | 0 <= i < j < |rest| ensures Earlier(order, rest[i], rest[j]) {
      var x, y := if i < |a| then i else i + 1, if j < |a| then j else j + 1;
      assert whole[x] == rest[i] && whole[y] == rest[j];
    }
  }

  lemma {:induction false} UnlinkSplit(q: seq<nat>, r: nat) returns (a: seq<nat>, b: seq<nat>)
    requires r in q
    ensures q == a + ([r] + b) && Unlink(q, r) == a + b
  {
    if q[0] == r {
      a, b := [], q[1..];
    } else {
      a, b := UnlinkSplit(q[1..], r);
      assert q == [q[0]] + q[1..];
      a := [q[0]] + a;
    }
  }

  lemma OrderedUnlink(q: seq<nat>, r: nat, order: seq<nat>)
    requires Ordered(q, order)
    ensures Ordered(Unlink(q, r), order)
  {
    if r in q {
      var a, b := UnlinkSplit(q, r);
      OrderedDrop(a, r, b, order);
    } else {
      UnlinkAbsent(q, r);
    }
  }

  lemma {:induction false} UnlinkAbsent(q: seq<nat>, r: nat)
    requires r !in q
    ensures Unlink(q, r) == q
  {
    if q != [] {
      UnlinkAbsent(q[1..], r);
      assert q == [q[0]] + q[1..];
    }
  }

  lemma UnlinkHead(q: seq<nat>, r: nat)
    requires q != [] && q[0] == r
    ensures [r] + Unlink(q, r) == q
  {
  }

  lemma OrderedMore(line: seq<nat>, order: seq<nat>, r: nat)
    requires Ordered(line, order) && (forall x :: x in line ==> x in order)
    ensures Ordered(line, order + [r]) && Ordered(line + [r], order + [r])
  {
    var more := order + [r];
    forall a, b | Earlier(order, a, b) ensures Earlier(more, a, b) {
      var i, j :| 0 <= i < j < |order| && order[i] == a && order[j] == b;
      assert more[i] == a && more[j] == b;
    }
    forall x | x in line ensures Earlier(more, x, r) {
      var i :| 0 <= i < |order| && order[i] == x;
      assert more[i] == x && more[|order|] == r;
    }
    forall i, j | 0 <= i < j < |line| ensures Earlier(more, line[i], line[j]) { assert Earlier(order, line[i], line[j]); }
    forall i, j | 0 <= i < j < |line + [r]| ensures Earlier(more, (line + [r])[i], (line + [r])[j]) {
      if j < |line| { assert Earlier(more, line[i], line[j]); } else { assert line[i] in line; }
    }
  }

  // Running requests.

  lemma QuietLine(s: Controller)
    requires Inv(s) && !Postpones(s)
    ensures Line(s) == [] && s.out.rpcs == [] && s.waiting == []
  {
    AllQuiet(s);
  }

  lemma RunInOrder(s: Controller, k: Kind, r: nat, choice: Choice, rest: seq<nat>, order: seq<nat>)
    requires Inv(s) && !Postpones(s) && Ordered(Line(s) + ([r] + rest), order)
    ensures var s' := Run(s, k, r, choice); Ordered(Line(s') + rest, order) && AtHead(s')
  {
    hide Inv, Postpones, Ordered;
    AllQuiet(s);
    var s' := Run(s, k, r, choice);
    assert Line(s) + ([r] + rest) == [r] + rest && Line(s) + rest == rest;
    OrderedDrop(Line(s), r, rest, order);
    assert Line(s') == [r] || Line(s') == Line(s);
  }

  lemma ProcessInOrder(s: Controller, w: World, r: nat, status: bool, rest: seq<nat>, order: seq<nat>)
    requires Inv(s) && Ordered(Line(s) + ([r] + rest), order) && AtHead(s)
    ensures var s' := Process(s, w, r, status); Ordered(Line(s') + rest, order) && AtHead(s')
  {
    hide Inv, Postpones, Ordered, Run, KindOf, Involved, StoreInFlight;
    var s1 := s.(h := s.h.(replayed := s.h.replayed || Involved(s.out, r)));
    var s' := Process(s, w, r, status);
    SamePlace(s, s1);
    OrderedDrop(Line(s), r, rest, order);
    if s' == Wait(s1, r) {
      WaitInOrder(s1, r);
      assert (Line(s) + [r]) + rest == Line(s) + ([r] + rest);
    } else if !Postpones(s) && s' == Run(s1, KindOf(w, r), r, w.choose(r)) {
      RunReplayed(s, s1, KindOf(w, r), r, w.choose(r));
      RunInOrder(s, KindOf(w, r), r, w.choose(r), rest, order);
    } else {
      assert s' == Answer(s1, r, w.choose(r) != Refused);
      SamePlace(s, s');
    }
  }

  lemma SamePlace(s: Controller, s': Controller)
    requires s'.waiting == s.waiting && s'.out == s.out && s'.certStored == s.certStored && s'.flags == s.flags
    ensures Line(s') == Line(s) && AtHead(s') == AtHead(s) && Postpones(s') == Postpones(s)
  {
  }

  lemma WaitInOrder(s: Controller, r: nat)
    requires AtHead(s)
    ensures Line(Wait(s, r)) == Line(s) + [r] && AtHead(Wait(s, r))
  {
  }

  lemma RunReplayed(s: Controller, s1: Controller, k: Kind, r: nat, choice: Choice)
    requires s1 == s.(h := s1.h)
    ensures Line(Run(s1, k, r, choice)) == Line(Run(s, k, r, choice)) && AtHead(Run(s1, k, r, choice)) == AtHead(Run(s, k, r, choice))
  {
  }

  lemma {:induction false} ProcessAllInOrder(s: Controller, w: World, queue: seq<nat>, status: bool, order: seq<nat>)
    requires Inv(s) && AllLoose(s, queue) && Ordered(Line(s) + queue, order) && AtHead(s)
    ensures var s' := ProcessAll(s, w, queue, status); Ordered(Line(s'), order) && AtHead(s')
    decreases |queue|
  {
    hide Inv, Process, Loose, Ordered, Line, AtHead;
    if queue == [] {
      assert Line(s) + queue == Line(s);
    } else {
      var r, rest := queue[0], queue[1..];
      var s' := Process(s, w, r, status);
      assert queue == [r] + rest && r in queue;
      ProcessKeeps(s, w, r, status);
      ProcessInOrder(s, w, r, status, rest, order);
      forall x | x in rest ensures Loose(s', x) {
        assert x in queue;
        ProcessLeaves(s, w, r, status, x);
      }
      ProcessAllInOrder(s', w, rest, status, order);
    }
  }

  /** A flush keeps the order, although every request of it may queue again. */
  lemma FlushInOrder(s: Controller, w: World, status: bool, order: seq<nat>)
    requires CanFlush(s) && Ordered(Line(s), order)
    ensures var s' := Flush(s, w, status); Ordered(Line(s'), order) && AtHead(s')
  {
    var s0 := s.(waiting := []);
    forall r | r in s.waiting ensures Loose(s0, r) { }
    assert Inv(s0) && AtHead(s0);
    assert Line(s0) + s.waiting == Line(s);
    hide Inv, CanFlush, Ordered, Line, AtHead, ProcessAll;
    ProcessAllInOrder(s0, w, s.waiting, status, order);
  }

  lemma AnswerInOrder(s: Controller, w: World, r: nat, ok: bool, order: seq<nat>)
    requires CanFlush(s) && Loose(s, r) && Ordered(Line(s), order)
    ensures var s' := Flush(Answer(s, r, ok), w, false); Ordered(Line(s'), order) && AtHead(s')
  {
    hide CanFlush, Loose, Flush, Ordered;
    AnswerKept(s, r, ok);
    FlushInOrder(Answer(s, r, ok), w, false, order);
  }

  lemma CertApplyInOrder(s: Controller, w: World, r: nat, used: bool, order: seq<nat>)
    requires CanFlush(s) && Loose(s, r) && s.out.rpcs == [] && s.out.stores == [] && s.certStored == None
    requires Ordered([r] + s.waiting, order)
    ensures var s' := CertApply(s, w, r, used); Ordered(Line(s'), order) && AtHead(s')
  {
    hide CanFlush, Loose, Flush, Ordered;
    var apply := used && s.flags.ready && s.flags.port;
    if apply && w.sends {
      assert Line(Send(s, CertApplyRpc, r)) == [] + ([r] + s.waiting) == [r] + s.waiting;
    } else {
      assert [r] + s.waiting == [] + ([r] + s.waiting) && Line(s) == [] + s.waiting;
      OrderedDrop([], r, s.waiting, order);
      LogIsSilent(s, ApplyEnded(r), r);
      AnswerInOrder(Log(s, ApplyEnded(r)), w, r, !apply, order);
    }
  }

  lemma RequestReplyInOrder(s: Controller, w: World, kind: RpcKind, r: nat, ok: bool, next: bool, order: seq<nat>)
    requires s.out.rpcs == [RequestRpc(kind, r)] && s.out.stores == [] && s.certStored == None
    requires s.waiting != [] && s.waiting[0] == r && Ordered(s.waiting, order)
    requires var s' := WithoutRpc(s, 0).(waiting := Unlink(s.waiting, r)); CanFlush(s') && Loose(s', r)
    requires ok ==> CanFlush(WithoutRpc(s, 0))
    ensures var s' := RpcReply(s, w, 0, ok, next); Ordered(Line(s'), order) && AtHead(s')
  {
    hide CanFlush, Loose, Flush, Ordered, Unlink;
    var s1 := WithoutRpc(s, 0);
    assert s1.out.rpcs == [] && Line(s1) == s.waiting;
    var s2 := s1.(waiting := Unlink(s.waiting, r));
    assert Line(s2) == s2.waiting;
    OrderedUnlink(s.waiting, r, order);
    UnlinkHead(s.waiting, r);
    if kind == StatusRpc && ok {
      FlushInOrder(s1, w, true, order);
    } else if kind == ConfRpc && ok && next {
      assert Line(StartStore(s2, ConfFile, r)) == [r] + Unlink(s.waiting, r);
    } else {
      AnswerInOrder(s2, w, r, ok && kind == RestartRpc, order);
      LogIsSilent(s2, ApplyEnded(r), r);
      AnswerInOrder(Log(s2, ApplyEnded(r)), w, r, ok, order);
    }
  }

  lemma InitReplyInOrder(s: Controller, w: World, ok: bool, next: bool, order: seq<nat>)
    requires s.out.rpcs == [InitConf] && (s.certStored.Some? ==> s.out.stores == []) && Ordered(Line(s), order)
    requires var s2 := s.(flags := s.flags.(initConf := false), out := s.out.(rpcs := []));
             var s3 := s2.(certStored := None);
             && (s2.certStored.Some? ==> CanFlush(s3) && Loose(s3, s2.certStored.value))
             && (s2.certStored == None ==> CanFlush(s2))
    ensures var s' := RpcReply(s, w, 0, ok, next); Ordered(Line(s'), order) && AtHead(s')
  {
    hide CanFlush, Loose, Flush, Ordered, CertApply;
    assert WithoutRpc(s, 0).out.rpcs == [];
    var s2 := s.(flags := s.flags.(initConf := false), out := s.out.(rpcs := []));
    if s2.certStored.Some? {
      CertApplyInOrder(s2.(certStored := None), w, s2.certStored.value, next, order);
    } else {
      assert Line(s2) == Line(s);
      FlushInOrder(s2, w, false, order);
    }
  }

  lemma AtRouterAlone(s: Controller)
    requires Inv(s) && s.out.rpcs != []
    ensures s.out.rpcs[0].RequestRpc? ==>
              s.out.rpcs == [RequestRpc(s.out.rpcs[0].kind, s.out.rpcs[0].req)] && s.out.stores == [] && s.certStored == None
    ensures s.out.rpcs[0].InitConf? ==> s.out.rpcs == [InitConf] && (s.certStored.Some? ==> s.out.stores == [])
  {
  }

  lemma RpcReplyInOrder(s: Controller, w: World, i: nat, ok: bool, next: bool, order: seq<nat>)
    requires Inv(s) && i < |s.out.rpcs| && Ordered(Line(s), order) && AtHead(s)
    ensures var s' := RpcReply(s, w, i, ok, next); Ordered(Line(s'), order) && AtHead(s')
  {
    AtRouterAlone(s);
    hide Inv, CanFlush, Loose, RpcReply, WithoutRpc, Ordered;
    if s.out.rpcs[0].InitConf? {
      InitCleared(s, s.(flags := s.flags.(initConf := false), out := s.out.(rpcs := [])));
      InitReplyInOrder(s, w, ok, next, order);
    } else {
      var kind, r := s.out.rpcs[0].kind, s.out.rpcs[0].req;
      assert Line(s) == s.waiting;
      RequestReturns(s, r, kind);
      RequestReplyInOrder(s, w, kind, r, ok, next, order);
    }
  }

  lemma FailedReplyInOrder(s: Controller, w: World, gone: Controller, order: seq<nat>)
    requires Inv(s) && s.out.rpcs != [] && Ordered(Line(s), order) && AtHead(s)
    requires gone == s.(flags := s.flags.(ready := false, port := false))
    ensures var s' := RpcReply(gone, w, 0, false, false); Ordered(Line(s'), order) && AtHead(s')
  {
    hide Inv, Ordered, RpcReply, CanFlush, Loose, Unlink;
    AtRouterAlone(s);
    assert Line(gone) == Line(s);
    if s.out.rpcs[0].InitConf? {
      GoneInit(s, gone, gone.(flags := gone.flags.(initConf := false), out := gone.out.(rpcs := [])));
      InitReplyInOrder(gone, w, false, false, order);
    } else {
      var kind, r := s.out.rpcs[0].kind, s.out.rpcs[0].req;
      assert Line(s) == s.waiting;
      RequestReturns(s, r, kind);
      GoneRequest(WithoutRpc(s, 0).(waiting := Unlink(s.waiting, r)), WithoutRpc(gone, 0).(waiting := Unlink(gone.waiting, r)), r);
      RequestReplyInOrder(gone, w, kind, r, false, false, order);
    }
  }

  lemma DeathInOrder(s: Controller, w: World, order: seq<nat>)
    requires Inv(s) && Ordered(Line(s), order) && AtHead(s)
    ensures var s' := Next(s, w, RouterDeath); Ordered(Line(s'), order) && AtHead(s')
  {
    var gone := s.(flags := s.flags.(ready := false, port := false));
    assert |s.out.rpcs| <= 1;
    hide Inv, Ordered, RpcReply, Line;
    SameLine(s, gone);
    if s.out.rpcs == [] {
      assert FailAll(gone, w, 0) == gone;
    } else {
      var s' := RpcReply(gone, w, 0, false, false);
      assert FailAll(gone, w, 1) == FailAll(s', w, 0) == s';
      FailedReplyInOrder(s, w, gone, order);
    }
  }

  lemma SameLine(s: Controller, s': Controller)
    requires s'.waiting == s.waiting && s'.out == s.out && s'.certStored == s.certStored
    ensures Line(s') == Line(s) && AtHead(s') == AtHead(s)
  {
  }

  lemma AtMainAlone(s: Controller)
    requires Inv(s) && s.out.stores != []
    ensures s.out.stores == [s.out.stores[0]] && s.certStored == None && (s.out.rpcs == [] || s.out.rpcs == [InitConf])
  {
  }

  lemma StoreReplyInOrder(s: Controller, w: World, i: nat, ok: bool, used: bool, order: seq<nat>)
    requires Inv(s) && i < |s.out.stores| && Ordered(Line(s), order)
    ensures var s' := StoreReply(s, w, i, ok, used); Ordered(Line(s'), order) && AtHead(s')
  {
    AtMainAlone(s);
    hide Inv, CanFlush, Loose, Flush, CertApply, Ordered;
    StoreReturns(s, i);
    var kind, r := s.out.stores[0].kind, s.out.stores[0].req;
    LogEndedIsSilent(WithoutStore(s, i), kind, ok, r);
    var s' := LogEnded(WithoutStore(s, i), kind, r, ok);
    assert Line(s) == [] + ([r] + s.waiting) && Line(s') == [] + s.waiting;
    OrderedDrop([], r, s.waiting, order);
    if kind == CertFile && ok {
      if s'.flags.initConf {
        assert Line(s'.(certStored := Some(r))) == Line(s);
      } else {
        assert [r] + s'.waiting == Line(s);
        CertApplyInOrder(s', w, r, used, order);
      }
    } else {
      AnswerInOrder(s', w, r, ok, order);
    }
  }

  lemma AnnounceInOrder(s: Controller, w: World, f: Flags, sent: bool, order: seq<nat>)
    requires Inv(s) && Quiet(s, sent) && Ordered(Line(s), order) && AtHead(s)
    requires f == s.flags.(ready := true) || f == s.flags.(port := true)
    ensures var s' := Announced(s, w, f, sent); Ordered(Line(s'), order) && AtHead(s')
  {
    hide CanFlush, Ordered, Inv, Flush;
    var s1 := s.(flags := f);
    assert Line(s1) == Line(s);
    if f.ready && f.port && !sent {
      AnnounceFlushes(s, s1);
      FlushInOrder(s1, w, false, order);
    } else if f.ready && f.port {
      assert Line(SendCurrentConf(s1, w, sent)) == Line(s);
    }
  }

  lemma AnnounceFlushes(s: Controller, s1: Controller)
    requires Inv(s) && Quiet(s, false) && s1 == s.(flags := s1.flags)
    requires s1.flags == s.flags.(ready := true) || s1.flags == s.flags.(port := true)
    ensures CanFlush(s1)
  {
    forall k ensures Storing(s1.flags, k) <==> Storing(s.flags, k) { }
  }

  lemma RequestInOrder(s: Controller, w: World, r: nat, order: seq<nat>)
    requires Inv(s) && InOrder(s, order) && r !in s.h.arrived
    ensures var s' := Next(s, w, Request(r)); Ordered(Line(s'), order + [r]) && AtHead(s')
  {
    LineArrived(s);
    hide Inv, Ordered, Line, Process, Loose;
    ArriveKeeps(s, r);
    var s1 := s.(h := s.h.(arrived := s.h.arrived + {r}));
    SamePlace(s, s1);
    OrderedMore(Line(s), order, r);
    assert Line(s1) + ([r] + []) == Line(s) + [r];
    ProcessInOrder(s1, w, r, false, [], order + [r]);
    assert Line(Process(s1, w, r, false)) + [] == Line(Process(s1, w, r, false));
  }

  lemma LineArrived(s: Controller)
    requires Inv(s)
    ensures forall x :: x in Line(s) ==> x in s.h.arrived && x !in s.h.answered
  {
  }

  // Which requests have arrived.

  lemma ProcessArrived(s: Controller, w: World, r: nat, status: bool)
    ensures Process(s, w, r, status).h.arrived == s.h.arrived
  {
    hide Postpones, StoreInFlight, KindOf, Involved;
  }

  lemma {:induction false} ProcessAllArrived(s: Controller, w: World, queue: seq<nat>, status: bool)
    ensures ProcessAll(s, w, queue, status).h.arrived == s.h.arrived
    decreases |queue|
  {
    hide Process;
    if queue != [] {
      ProcessArrived(s, w, queue[0], status);
      ProcessAllArrived(Process(s, w, queue[0], status), w, queue[1..], status);
    }
  }

  lemma FlushArrived(s: Controller, w: World, status: bool)
    ensures Flush(s, w, status).h.arrived == s.h.arrived
  {
    hide ProcessAll;
    ProcessAllArrived(s.(waiting := []), w, s.waiting, status);
  }

  lemma RpcReplyArrived(s: Controller, w: World, i: nat, ok: bool, next: bool)
    requires i < |s.out.rpcs|
    ensures RpcReply(s, w, i, ok, next).h.arrived == s.h.arrived
  {
    hide Flush, Unlink;
    forall s1, status ensures Flush(s1, w, status).h.arrived == s1.h.arrived { FlushArrived(s1, w, status); }
  }

  lemma StoreReplyArrived(s: Controller, w: World, i: nat, ok: bool, used: bool)
    requires i < |s.out.stores|
    ensures StoreReply(s, w, i, ok, used).h.arrived == s.h.arrived
  {
    hide Flush;
    forall s1, status ensures Flush(s1, w, status).h.arrived == s1.h.arrived { FlushArrived(s1, w, status); }
  }

  lemma {:induction false} FailAllArrived(s: Controller, w: World, n: nat)
    ensures FailAll(s, w, n).h.arrived == s.h.arrived
    decreases n
  {
    hide RpcReply;
    if n > 0 && s.out.rpcs != [] {
      RpcReplyArrived(s, w, 0, false, false);
      FailAllArrived(RpcReply(s, w, 0, false, false), w, n - 1);
    }
  }

  lemma ArrivedAfter(s: Controller, w: World, e: Event)
    ensures Next(s, w, e).h.arrived == if e.Request? then s.h.arrived + {e.r} else s.h.arrived
  {
    hide Process, FailAll, RpcReply, StoreReply, Flush;
    match e
    case Request(r) => ProcessArrived(s.(h := s.h.(arrived := s.h.arrived + {r})), w, r, false);
    case NewPort(sent) => FlushArrived(s.(flags := s.flags.(port := true)), w, false);
    case RouterReady(sent) => FlushArrived(s.(flags := s.flags.(ready := true)), w, false);
    case RouterDeath => FailAllArrived(s.(flags := s.flags.(ready := false, port := false)), w, |s.out.rpcs|);
    case RouterAnswers(i, ok, next) => if i < |s.out.rpcs| { RpcReplyArrived(s, w, i, ok, next); }
    case MainAnswers(i, ok, used) => if i < |s.out.stores| { StoreReplyArrived(s, w, i, ok, used); }
  }

  /** One event, on the order of arrivals after it. */
  lemma NextInOrder(s: Controller, w: World, e: Event, order: seq<nat>)
    requires Inv(s) && Proper(s, e) && InOrder(s, order)
    ensures InOrder(Next(s, w, e), if e.Request? && e.r !in order then order + [e.r] else order)
  {
    ArrivedAfter(s, w, e);
    hide Inv, Ordered, Line, Process, Announced, FailAll, RpcReply, StoreReply, Quiet, AtHead;
    match e
    case Request(r) => if r !in s.h.arrived { RequestInOrder(s, w, r, order); }
    case NewPort(sent) => AnnounceInOrder(s, w, s.flags.(port := true), sent, order);
    case RouterReady(sent) => AnnounceInOrder(s, w, s.flags.(ready := true), sent, order);
    case RouterDeath => DeathInOrder(s, w, order);
    case RouterAnswers(i, ok, next) => if i < |s.out.rpcs| { RpcReplyInOrder(s, w, i, ok, next, order); }
    case MainAnswers(i, ok, used) => if i < |s.out.stores| { StoreReplyInOrder(s, w, i, ok, used, order); }
  }

  lemma {:induction false} RunInArrivalOrder(steps: seq<(World, Event)>)
    requires ProperRun(Start(), steps)
    ensures Inv(RunOf(Start(), steps)) && InOrder(RunOf(Start(), steps), Arrivals(steps))
    decreases |steps|
  {
    hide Inv, Next, Proper, ProperRun, RunOf, InOrder;
    if steps == [] {
      NothingYet(steps);
    } else {
      var before, last := steps[..|steps| - 1], steps[|steps| - 1];
      assert before + [last] == steps;
      Answers.RunEnds(Start(), before, last);
      RunInArrivalOrder(before);
      NextKeeps(RunOf(Start(), before), last.0, last.1);
      NextInOrder(RunOf(Start(), before), last.0, last.1, Arrivals(before));
    }
  }

  lemma NothingYet(steps: seq<(World, Event)>)
    requires steps == []
    ensures Inv(RunOf(Start(), steps)) && InOrder(RunOf(Start(), steps), Arrivals(steps))
  {
    Answers.StartInv();
  }

  /** The request is at the router, at main, or waits there with its bundle stored. */
  ghost predicate Outstanding(s: Controller, r: nat) {
    (s.out.rpcs != [] && s.out.rpcs[0].RequestRpc? && s.out.rpcs[0].req == r) || Front(s) == [r]
  }

  lemma FirstInLine(s: Controller, r: nat)
    requires Inv(s) && AtHead(s) && Outstanding(s, r)
    ensures Line(s) != [] && Line(s)[0] == r
  {
  }

  lemma InLine(s: Controller, x: nat)
    requires Inv(s) && Placed(s, x) && x in s.h.arrived
    ensures x in Line(s) || x in s.h.answered
  {
  }

  lemma NotBoth(order: seq<nat>, a: nat, b: nat)
    requires NoDup(order) && Earlier(order, a, b)
    ensures a != b && !Earlier(order, b, a)
  {
  }

  /**
    In every run, those who wait do so in the order of their arrival; and while something is asked of the router or of
    main for a request, every request that arrived before it has been answered.
   */
  lemma NoOvertaking(steps: seq<(World, Event)>, r: nat, x: nat)
    requires ProperRun(Start(), steps)
    ensures var s, order := RunOf(Start(), steps), Arrivals(steps);
            && Ordered(s.waiting, order)
            && (Outstanding(s, r) && Earlier(order, x, r) ==> x in s.h.answered)
  {
    var s, order := RunOf(Start(), steps), Arrivals(steps);
    RunInArrivalOrder(steps);
    WaitingOrdered(s, order);
    if Outstanding(s, r) && Earlier(order, x, r) {
      Answers.StartInv();
      assert Placed(Start(), x);
      hide Inv, RunOf, ProperRun, Placed;
      RunPlacesAll(Start(), steps, x);
      FirstInLine(s, r);
      NotBoth(order, x, r);
      if x in Line(s) { LaterInLine(s, order, r, x); }
      InLine(s, x);
    }
  }

  lemma LaterInLine(s: Controller, order: seq<nat>, r: nat, x: nat)
    requires Ordered(Line(s), order) && Line(s) != [] && Line(s)[0] == r && x in Line(s)
    ensures x == r || Earlier(order, r, x)
  {
    var j :| 0 <= j < |Line(s)| && Line(s)[j] == x;
    if j > 0 { assert Earlier(order, Line(s)[0], Line(s)[j]); }
  }

  lemma WaitingOrdered(s: Controller, order: seq<nat>)
    requires Ordered(Line(s), order)
    ensures Ordered(s.waiting, order)
  {
    var n := |Front(s)|;
    forall i, j | 0 <= i < j < |s.waiting| ensures Earlier(order, s.waiting[i], s.waiting[j]) {
      assert Line(s)[n + i] == s.waiting[i] && Line(s)[n + j] == s.waiting[j];
    }
  }
}
