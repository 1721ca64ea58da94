/** What every run of the controller keeps. */
module ControllerRuns {
  import opened Bytes
  import opened Controller
  import opened Links

  ghost predicate Storing(f: Flags, kind: StoreKind) {
    match kind
    case ConfFile => f.confStoring
    case CertFile => f.certStoring
    case CertGone => f.certDeleting
    case ScriptFile => f.scriptStoring
    case ScriptGone => f.scriptDeleting
  }

  /** At most one message to the router and one to main are outstanding, and the flags say which. */
  ghost predicate OneEach(s: Controller) {
    && |s.out.rpcs| <= 1 && |s.out.stores| <= 1
    && (forall kind :: Storing(s.flags, kind) <==> s.out.stores != [] && s.out.stores[0].kind == kind)
    && (s.flags.initConf <==> s.out.rpcs == [InitConf])
    && (s.out.rpcs != [] ==> s.flags.ready && s.flags.port)
    && (s.certStored.Some? ==> s.flags.initConf && s.out.stores == [])
  }

  /** A request at the router is in the waiting queue, and then nothing is at main. */
  ghost predicate AtRouter(s: Controller) {
    s.out.rpcs != [] && s.out.rpcs[0].RequestRpc? ==>
      s.out.rpcs[0].req in s.waiting && s.out.stores == [] && s.certStored == None
  }

  /** Request r waits nowhere and has no answer yet. */
  ghost predicate Loose(s: Controller, r: nat) {
    && r in s.h.arrived && r !in s.waiting && r !in s.h.answered
    && (s.out.stores != [] ==> s.out.stores[0].req != r)
    && s.certStored != Some(r)
  }

  /** Every request is in one place: waiting, at main, stored and waiting for the router, or answered. */
  ghost predicate OnePlace(s: Controller) {
    && NoDup(s.waiting) && NoDup(s.h.answered)
    && (forall r :: r in s.waiting ==> r in s.h.arrived && r !in s.h.answered)
    && (forall r :: r in s.h.answered ==> r in s.h.arrived)
    && (s.out.stores != [] ==>
          var r := s.out.stores[0].req; r in s.h.arrived && r !in s.waiting && r !in s.h.answered)
    && (s.certStored.Some? ==>
          var r := s.certStored.value; r in s.h.arrived && r !in s.waiting && r !in s.h.answered)
  }

  /** Something that will flush the waiting queue is on its way. */
  ghost predicate WillFlush(s: Controller) {
    s.out.rpcs != [] || s.out.stores != [] || s.flags.initConf || !s.flags.ready || !s.flags.port
  }

  ghost predicate Inv(s: Controller) {
    && OneEach(s) && AtRouter(s) && OnePlace(s)
    && (s.waiting != [] ==> WillFlush(s))
    && !s.h.replayed
  }

  // One request.

  lemma NothingStored(s: Controller)
    requires OneEach(s) && !StoreInFlight(s.flags)
    ensures s.out.stores == []
  {
    assert s.out.stores != [] ==> Storing(s.flags, s.out.stores[0].kind);
  }

  lemma StoreIsThere(s: Controller, kind: StoreKind)
    requires OneEach(s) && Storing(s.flags, kind)
    ensures s.out.stores != []
  {
  }

  lemma InFlightMeansStore(s: Controller)
    requires OneEach(s) && StoreInFlight(s.flags)
    ensures s.out.stores != []
  {
    if s.flags.confStoring { StoreIsThere(s, ConfFile); }
    else if s.flags.certStoring { StoreIsThere(s, CertFile); }
    else if s.flags.certDeleting { StoreIsThere(s, CertGone); }
    else if s.flags.scriptStoring { StoreIsThere(s, ScriptFile); }
    else { StoreIsThere(s, ScriptGone); }
  }

  lemma NoDupMore(q: seq<nat>, r: nat)
    requires NoDup(q) && r !in q
    ensures NoDup(q + [r]) && NoDup([r] + q)
  {
  }

  lemma AnswerKeeps(s: Controller, r: nat, ok: bool)
    requires Inv(s) && Loose(s, r)
    ensures Inv(Answer(s, r, ok))
  {
    NoDupMore(s.h.answered, r);
  }

  lemma WaitKeeps(s: Controller, r: nat)
    requires Inv(s) && Loose(s, r) && (WillFlush(s) || s.waiting != [])
    ensures Inv(Wait(s, r))
  {
    NoDupMore(s.waiting, r);
  }

  /** When nothing postpones, neither the router nor main has anything. */
  lemma AllQuiet(s: Controller)
    requires Inv(s) && !Postpones(s)
    ensures s.waiting == [] && s.out.rpcs == [] && s.out.stores == [] && s.certStored == None && s.flags.ready && s.flags.port
  {
    NothingStored(s);
  }

  lemma PostponesMeansFlush(s: Controller)
    requires Inv(s) && Postpones(s)
    ensures WillFlush(s) || s.waiting != []
  {
    if StoreInFlight(s.flags) { InFlightMeansStore(s); }
  }

  lemma SendKeeps(s: Controller, kind: RpcKind, r: nat)
    requires Inv(s) && Loose(s, r) && s.out.rpcs == [] && s.out.stores == [] && s.certStored == None
    requires s.flags.ready && s.flags.port && !s.flags.initConf
    ensures Inv(Send(s, kind, r))
  {
    NoDupMore(s.waiting, r);
  }

  lemma StartStoreKeeps(s: Controller, kind: StoreKind, r: nat)
    requires Inv(s) && Loose(s, r) && s.out.rpcs == [] && s.out.stores == [] && s.certStored == None
    ensures Inv(StartStore(s, kind, r))
  {
    var s' := StartStore(s, kind, r);
    forall k ensures Storing(s'.flags, k) <==> s'.out.stores != [] && s'.out.stores[0].kind == k {
      assert !Storing(s.flags, k);
    }
  }

  lemma RunKeeps(s: Controller, k: Kind, r: nat, choice: Choice)
    requires Inv(s) && Loose(s, r) && !Postpones(s)
    ensures Inv(Run(s, k, r, choice))
  {
    hide Inv, Loose, Send, StartStore, Answer;
    AllQuiet(s);
    AnswerKeeps(s, r, false);
    AnswerKeeps(s, r, true);
    NotInit(s);
    SendKeeps(s, ConfRpc, r);
    SendKeeps(s, StatusRpc, r);
    SendKeeps(s, RestartRpc, r);
    StartStoreKeeps(s, CertFile, r);
    StartStoreKeeps(s, CertGone, r);
    StartStoreKeeps(s, ScriptFile, r);
    StartStoreKeeps(s, ScriptGone, r);
  }

  lemma NotInit(s: Controller)
    requires Inv(s) && s.out.rpcs == []
    ensures !s.flags.initConf
  {
  }

  /** A loose request has no message outstanding, so running it is not a replay. */
  lemma LooseIsFree(s: Controller, r: nat)
    requires Inv(s) && Loose(s, r)
    ensures !Involved(s.out, r)
  {
  }

  lemma ProcessKeeps(s: Controller, w: World, r: nat, status: bool)
    requires Inv(s) && Loose(s, r)
    ensures Inv(Process(s, w, r, status))
  {
    hide Inv, Loose, Run, Answer, Wait, Postpones, StoreInFlight, Involved;
    LooseIsFree(s, r);
    SameHistory(s);
    AnswerKeeps(s, r, w.choose(r) != Refused);
    if Postpones(s) {
      PostponesMeansFlush(s);
      WaitKeeps(s, r);
    } else {
      RunKeeps(s, KindOf(w, r), r, w.choose(r));
    }
    BusyWaits(s, r);
  }

  lemma SameHistory(s: Controller)
    requires Inv(s)
    ensures !s.h.replayed && s.(h := s.h.(replayed := false)) == s
  {
  }

  lemma BusyWaits(s: Controller, r: nat)
    requires Inv(s) && Loose(s, r)
    ensures StoreInFlight(s.flags) || s.flags.certStoring || s.flags.certDeleting || s.flags.scriptStoring || s.flags.scriptDeleting ==>
              Inv(Wait(s, r))
  {
    if StoreInFlight(s.flags) {
      InFlightMeansStore(s);
      WaitKeeps(s, r);
    }
  }

  // A flush.

  /** The requests of a queue are loose, each once. */
  ghost predicate AllLoose(s: Controller, queue: seq<nat>) {
    NoDup(queue) && forall r :: r in queue ==> Loose(s, r)
  }

  lemma RunLeaves(s: Controller, k: Kind, r: nat, choice: Choice, x: nat)
    requires Loose(s, x) && x != r
    ensures Loose(Run(s, k, r, choice), x)
  {
  }

  /** Running one request leaves every other loose request loose. */
  lemma ProcessLeaves(s: Controller, w: World, r: nat, status: bool, x: nat)
    requires Loose(s, r) && Loose(s, x) && x != r
    ensures Loose(Process(s, w, r, status), x)
  {
    hide Postpones, StoreInFlight, Involved, KindOf, Run, Answer, Wait, Loose;
    var s1 := s.(h := s.h.(replayed := s.h.replayed || Involved(s.out, r)));
    StaysLoose(s, s1, r, w.choose(r) != Refused, x);
    RunLeaves(s1, KindOf(w, r), r, w.choose(r), x);
  }

  lemma StaysLoose(s: Controller, s1: Controller, r: nat, ok: bool, x: nat)
    requires Loose(s, x) && x != r && s1 == s.(h := s.h.(replayed := s1.h.replayed))
    ensures Loose(s1, x) && Loose(Wait(s1, r), x) && Loose(Answer(s1, r, ok), x)
  {
  }

  lemma {:induction false} ProcessAllKeeps(s: Controller, w: World, queue: seq<nat>, status: bool)
    requires Inv(s) && AllLoose(s, queue)
    ensures Inv(ProcessAll(s, w, queue, status))
    decreases |queue|
  {
    hide Inv, Process, Loose;
    if queue != [] {
      var s' := Process(s, w, queue[0], status);
      ProcessKeeps(s, w, queue[0], status);
      assert queue[0] in queue;
      forall x | x in queue[1..] ensures Loose(s', x) {
        assert x in queue;
        ProcessLeaves(s, w, queue[0], status, x);
      }
      ProcessAllKeeps(s', w, queue[1..], status);
    }
  }

  /** A flush may start when no request is at the router. */
  ghost predicate CanFlush(s: Controller) {
    && OneEach(s) && OnePlace(s) && !s.h.replayed
    && (s.out.rpcs == [] || s.out.rpcs == [InitConf])
  }

  lemma FlushKeeps(s: Controller, w: World, status: bool)
    requires CanFlush(s)
    ensures Inv(Flush(s, w, status))
  {
    var s0 := s.(waiting := []);
    forall r | r in s.waiting ensures Loose(s0, r) { }
    assert Inv(s0);
    hide Inv, OneEach, OnePlace, CanFlush;
    ProcessAllKeeps(s0, w, s.waiting, status);
  }

  // Handlers.

  /** The router answered a request: it is loose, and nothing is outstanding. */
  lemma RequestReturns(s: Controller, r: nat, kind: RpcKind)
    requires Inv(s) && s.out.rpcs == [RequestRpc(kind, r)]
    ensures var s' := WithoutRpc(s, 0).(waiting := Unlink(s.waiting, r));
            && CanFlush(s') && Loose(s', r) && s'.out.rpcs == [] && s'.out.stores == [] && s'.certStored == None
            && !s'.flags.initConf && CanFlush(WithoutRpc(s, 0))
  {
    var s' := WithoutRpc(s, 0).(waiting := Unlink(s.waiting, r));
    assert s'.out.rpcs == [];
    forall x ensures x in s'.waiting <==> x in s.waiting && x != r { UnlinkIs(s.waiting, r, x); }
    UnlinkNoDup(s.waiting, r);
  }

  /** The log is only looked at afterwards. */
  lemma LogIsSilent(s: Controller, e: CertEntry, r: nat)
    ensures CanFlush(Log(s, e)) == CanFlush(s) && Loose(Log(s, e), r) == Loose(s, r)
    ensures Log(s, e) == s.(h := Log(s, e).h)
  {
    assert WillFlush(Log(s, e)) == WillFlush(s);
  }

  lemma LogEndedIsSilent(s: Controller, kind: StoreKind, ok: bool, r: nat)
    ensures CanFlush(LogEnded(s, kind, r, ok)) == CanFlush(s) && Loose(LogEnded(s, kind, r, ok), r) == Loose(s, r)
    ensures LogEnded(s, kind, r, ok) == s.(h := LogEnded(s, kind, r, ok).h)
  {
    hide CanFlush, Loose;
    LogIsSilent(s, StoreEnded(r, ok), r);
    LogIsSilent(s, DeleteEnded(r, ok), r);
  }

  lemma AnswerThenFlush(s: Controller, w: World, r: nat, ok: bool)
    requires CanFlush(s) && Loose(s, r)
    ensures Inv(Flush(Answer(s, r, ok), w, false))
  {
    NoDupMore(s.h.answered, r);
    FlushKeeps(Answer(s, r, ok), w, false);
  }

  lemma ConfStoreKeeps(s: Controller, r: nat)
    requires CanFlush(s) && Loose(s, r) && s.out.rpcs == [] && s.out.stores == [] && s.certStored == None
    ensures Inv(StartStore(s, ConfFile, r))
  {
    var s' := StartStore(s, ConfFile, r);
    forall k ensures Storing(s'.flags, k) <==> s'.out.stores != [] && s'.out.stores[0].kind == k {
      assert !Storing(s.flags, k);
    }
  }

  lemma RequestReplyKeeps(s: Controller, w: World, ok: bool, next: bool)
    requires Inv(s) && |s.out.rpcs| == 1 && s.out.rpcs[0].RequestRpc?
    ensures Inv(RpcReply(s, w, 0, ok, next))
  {
    hide Inv, CanFlush, Loose, Flush, StartStore, Unlink, Answer;
    var kind, r := s.out.rpcs[0].kind, s.out.rpcs[0].req;
    assert s.out.rpcs == [RequestRpc(kind, r)];
    RequestReturns(s, r, kind);
    var s' := WithoutRpc(s, 0).(waiting := Unlink(s.waiting, r));
    AnswerThenFlush(s', w, r, false);
    AnswerThenFlush(s', w, r, ok);
    LogIsSilent(s', ApplyEnded(r), r);
    AnswerThenFlush(Log(s', ApplyEnded(r)), w, r, ok);
    ConfStoreKeeps(s', r);
    if kind == StatusRpc {
      FlushKeeps(WithoutRpc(s, 0), w, true);
      AnswerKept(s', r, false);
      FlushKeeps(Answer(s', r, false), w, false);
    }
  }

  lemma AnswerKept(s: Controller, r: nat, ok: bool)
    requires CanFlush(s) && Loose(s, r)
    ensures CanFlush(Answer(s, r, ok))
  {
    NoDupMore(s.h.answered, r);
  }

  /** The bundle is stored: its request is loose until it is answered or sent to the router. */
  lemma CertApplyKeeps(s: Controller, w: World, r: nat, used: bool)
    requires CanFlush(s) && Loose(s, r) && s.out.rpcs == [] && s.out.stores == [] && s.certStored == None && !s.flags.initConf
    ensures Inv(CertApply(s, w, r, used))
  {
    var apply := used && s.flags.ready && s.flags.port;
    if apply && w.sends {
      NoDupMore(s.waiting, r);
    } else {
      LogIsSilent(s, ApplyEnded(r), r);
      AnswerThenFlush(Log(s, ApplyEnded(r)), w, r, !apply);
    }
  }

  lemma InitReplyKeeps(s: Controller, w: World, ok: bool, next: bool)
    requires Inv(s) && s.out.rpcs == [InitConf]
    ensures Inv(RpcReply(s, w, 0, ok, next))
  {
    var s1 := WithoutRpc(s, 0);
    var s2 := s1.(flags := s1.flags.(initConf := false));
    assert s1.out.rpcs == [];
    var s3 := s2.(certStored := None);
    InitCleared(s, s2);
    hide Inv, CanFlush, Loose, Flush, CertApply, WithoutRpc;
    if s2.certStored.Some? {
      CertApplyKeeps(s3, w, s2.certStored.value, next);
    } else {
      FlushKeeps(s2, w, false);
    }
  }

  lemma InitCleared(s: Controller, s2: Controller)
    requires Inv(s) && s.out.rpcs == [InitConf]
    requires s2 == s.(flags := s.flags.(initConf := false), out := s.out.(rpcs := []))
    ensures var s3 := s2.(certStored := None);
            && CanFlush(s3) && s3.out.rpcs == [] && !s3.flags.initConf
            && (s2.certStored.Some? ==> Loose(s3, s2.certStored.value) && s3.out.stores == [])
            && (s2.certStored == None ==> CanFlush(s2))
  {
    forall k ensures Storing(s2.flags, k) <==> Storing(s.flags, k) { }
  }

  predicate SameInit(s: Controller, s': Controller) { s'.certStored == s.certStored && s'.flags.initConf == s.flags.initConf }

  lemma RunLeavesInit(s: Controller, k: Kind, r: nat, choice: Choice)
    ensures SameInit(s, Run(s, k, r, choice))
  {
  }

  lemma ProcessLeavesInit(s: Controller, w: World, r: nat, status: bool)
    ensures SameInit(s, Process(s, w, r, status))
  {
    hide Postpones, StoreInFlight, KindOf, Involved, Run;
    var s1 := s.(h := s.h.(replayed := s.h.replayed || Involved(s.out, r)));
    RunLeavesInit(s1, KindOf(w, r), r, w.choose(r));
  }

  lemma {:induction false} ProcessAllLeavesInit(s: Controller, w: World, queue: seq<nat>, status: bool)
    ensures SameInit(s, ProcessAll(s, w, queue, status))
    decreases |queue|
  {
    hide Process;
    if queue != [] {
      ProcessLeavesInit(s, w, queue[0], status);
      ProcessAllLeavesInit(Process(s, w, queue[0], status), w, queue[1..], status);
    }
  }

  /** After the answer to the first configuration nothing waits for it any more. */
  lemma InitReplySettles(s: Controller, w: World, i: nat, ok: bool, next: bool)
    requires i < |s.out.rpcs| && s.out.rpcs[i] == InitConf
    ensures var s' := RpcReply(s, w, i, ok, next); s'.certStored == None && !s'.flags.initConf
  {
    hide ProcessAll;
    var s1 := WithoutRpc(s, i);
    var s2 := s1.(flags := s1.flags.(initConf := false), waiting := []);
    ProcessAllLeavesInit(s2, w, s.waiting, false);
    if s.certStored.Some? {
      var r := s.certStored.value;
      var apply := next && s2.flags.ready && s2.flags.port;
      ProcessAllLeavesInit(Answer(Log(s2.(certStored := None), ApplyEnded(r)), r, !apply), w, s.waiting, false);
    }
  }

  lemma RpcReplyKeeps(s: Controller, w: World, i: nat, ok: bool, next: bool)
    requires Inv(s) && i < |s.out.rpcs|
    ensures Inv(RpcReply(s, w, i, ok, next))
  {
    hide RpcReply;
    if s.out.rpcs[0].InitConf? {
      assert s.out.rpcs == [InitConf];
      InitReplyKeeps(s, w, ok, next);
    } else {
      RequestReplyKeeps(s, w, ok, next);
    }
  }

  /** Main answered: the request of the store is loose. */
  lemma StoreReturns(s: Controller, i: nat)
    requires Inv(s) && i < |s.out.stores|
    ensures var s' := WithoutStore(s, i);
            && CanFlush(s') && Loose(s', s.out.stores[i].req) && s'.out.stores == [] && s'.certStored == None
            && s'.flags.initConf == s.flags.initConf && s'.out.rpcs == s.out.rpcs
            && (!s'.flags.initConf ==> s'.out.rpcs == [])
  {
    hide WillFlush;
    var s' := WithoutStore(s, i);
    assert s'.out.stores == [];
    forall k ensures !Storing(s'.flags, k) {
      assert Storing(s.flags, k) <==> s.out.stores[0].kind == k;
    }
  }

  lemma StoreReplyKeeps(s: Controller, w: World, i: nat, ok: bool, apply: bool)
    requires Inv(s) && i < |s.out.stores|
    ensures Inv(StoreReply(s, w, i, ok, apply))
  {
    hide Inv, CanFlush, Loose, Flush, CertApply, WithoutStore, LogEnded;
    StoreReturns(s, i);
    var store := s.out.stores[i];
    var r := store.req;
    LogEndedIsSilent(WithoutStore(s, i), store.kind, ok, r);
    var s' := LogEnded(WithoutStore(s, i), store.kind, r, ok);
    AnswerThenFlush(s', w, r, ok);
    if s'.flags.initConf {
      CertWaits(s', r);
    } else {
      CertApplyKeeps(s', w, r, apply);
    }
  }

  lemma CertWaits(s: Controller, r: nat)
    requires CanFlush(s) && Loose(s, r) && s.out.stores == [] && s.certStored == None && s.flags.initConf
    ensures Inv(s.(certStored := Some(r)))
  {
  }

  lemma SendConfKeeps(s: Controller, w: World, sent: bool)
    requires CanFlush(s) && s.out.rpcs == [] && !s.flags.initConf && s.certStored == None && s.flags.ready && s.flags.port
    ensures Inv(SendCurrentConf(s, w, sent))
  {
    var s' := SendCurrentConf(s, w, sent);
    if sent {
      forall k ensures Storing(s'.flags, k) <==> Storing(s.flags, k) { }
    } else {
      FlushKeeps(s, w, false);
    }
  }

  /** Messages to a router that is gone fail, and nothing new is sent to it. */
  lemma DeathKeeps(s: Controller, w: World)
    requires Inv(s)
    ensures Inv(Next(s, w, RouterDeath))
  {
    var s1 := s.(flags := s.flags.(ready := false, port := false));
    if s.out.rpcs == [] {
      forall k ensures Storing(s1.flags, k) <==> Storing(s.flags, k) { }
      assert Inv(s1);
    } else {
      FailedReplyKeeps(s, w);
      assert s1.out.rpcs == s.out.rpcs;
      assert FailAll(s1, w, 1) == FailAll(RpcReply(s1, w, 0, false, false), w, 0);
    }
  }

  lemma FailedReplyKeeps(s: Controller, w: World)
    requires Inv(s) && s.out.rpcs != []
    ensures Inv(RpcReply(s.(flags := s.flags.(ready := false, port := false)), w, 0, false, false))
  {
    var gone := s.(flags := s.flags.(ready := false, port := false));
    if s.out.rpcs[0].InitConf? {
      assert s.out.rpcs == [InitConf];
      var s2 := gone.(flags := gone.flags.(initConf := false), out := gone.out.(rpcs := []));
      assert WithoutRpc(gone, 0).out.rpcs == [];
      GoneInit(s, gone, s2);
      hide Inv, CanFlush, Loose, Flush, CertApply;
      if s2.certStored.Some? {
        CertApplyKeeps(s2.(certStored := None), w, s2.certStored.value, false);
      } else {
        FlushKeeps(s2, w, false);
      }
    } else {
      var kind, r := s.out.rpcs[0].kind, s.out.rpcs[0].req;
      assert s.out.rpcs == [RequestRpc(kind, r)];
      RequestReturns(s, r, kind);
      var s' := WithoutRpc(gone, 0).(waiting := Unlink(gone.waiting, r));
      GoneRequest(WithoutRpc(s, 0).(waiting := Unlink(s.waiting, r)), s', r);
      LogIsSilent(s', ApplyEnded(r), r);
      AnswerThenFlush(Log(s', ApplyEnded(r)), w, r, false);
      AnswerThenFlush(s', w, r, false);
    }
  }

  lemma GoneInit(s: Controller, gone: Controller, s2: Controller)
    requires Inv(s) && s.out.rpcs == [InitConf] && gone == s.(flags := s.flags.(ready := false, port := false))
    requires s2 == gone.(flags := gone.flags.(initConf := false), out := gone.out.(rpcs := []))
    ensures var s3 := s2.(certStored := None);
            && CanFlush(s3) && s3.out.rpcs == [] && !s3.flags.initConf
            && (s2.certStored.Some? ==> Loose(s3, s2.certStored.value) && s3.out.stores == [])
            && (s2.certStored == None ==> CanFlush(s2))
  {
    forall k ensures Storing(s2.flags, k) <==> Storing(s.flags, k) { }
  }

  lemma GoneRequest(s: Controller, s': Controller, r: nat)
    requires CanFlush(s) && Loose(s, r) && s.out.rpcs == [] && s' == s.(flags := s.flags.(ready := false, port := false))
    ensures CanFlush(s') && Loose(s', r)
  {
    forall k ensures Storing(s'.flags, k) <==> Storing(s.flags, k) { }
  }

  // Runs.

  lemma ArriveKeeps(s: Controller, r: nat)
    requires Inv(s) && r !in s.h.arrived
    ensures var s' := s.(h := s.h.(arrived := s.h.arrived + {r})); Inv(s') && Loose(s', r)
  {
  }

  /** No request is at the router; the first configuration is, at most, and then no other is sent. */
  ghost predicate Quiet(s: Controller, sent: bool) { s.out.rpcs == [] || (!sent && s.out.rpcs == [InitConf]) }

  lemma AnnounceKeeps(s: Controller, w: World, f: Flags, sent: bool)
    requires Inv(s) && Quiet(s, sent)
    requires f == s.flags.(ready := true) || f == s.flags.(port := true)
    ensures Inv(Announced(s, w, f, sent))
  {
    var s' := s.(flags := f);
    forall k ensures Storing(f, k) <==> Storing(s.flags, k) { }
    if f.ready && f.port {
      assert CanFlush(s');
      if sent { SendConfKeeps(s', w, sent); } else { FlushKeeps(s', w, false); }
    }
  }

  /** A router is announced only when the messages to the one before it have been answered or have failed. */
  ghost predicate Proper(s: Controller, e: Event) {
    match e
    case NewPort(sent) => Quiet(s, sent)
    case RouterReady(sent) => Quiet(s, sent)
    case _ => true
  }

  lemma NextKeeps(s: Controller, w: World, e: Event)
    requires Inv(s) && Proper(s, e)
    ensures Inv(Next(s, w, e))
  {
    hide Inv, Loose, Process, Announced, FailAll, RpcReply, StoreReply, Quiet;
    match e
    case Request(r) =>
      if r !in s.h.arrived {
        ArriveKeeps(s, r);
        ProcessKeeps(s.(h := s.h.(arrived := s.h.arrived + {r})), w, r, false);
      }
    case NewPort(sent) => AnnounceKeeps(s, w, s.flags.(port := true), sent);
    case RouterReady(sent) => AnnounceKeeps(s, w, s.flags.(ready := true), sent);
    case RouterDeath => DeathKeeps(s, w);
    case RouterAnswers(i, ok, next) => if i < |s.out.rpcs| { RpcReplyKeeps(s, w, i, ok, next); }
    case MainAnswers(i, ok, apply) => if i < |s.out.stores| { StoreReplyKeeps(s, w, i, ok, apply); }
  }

  // The condition on announcements is exact.

  lemma ProcessStaysInvolved(s: Controller, w: World, q: nat, status: bool, r: nat)
    requires Involved(s.out, r)
    ensures Involved(Process(s, w, q, status).out, r) && (s.h.replayed || q == r ==> Process(s, w, q, status).h.replayed)
  {
    hide Postpones, StoreInFlight, KindOf;
    var s' := Process(s, w, q, status);
    assert s.out.rpcs <= s'.out.rpcs && s.out.stores <= s'.out.stores;
    if i :| 0 <= i < |s.out.rpcs| && s.out.rpcs[i].RequestRpc? && s.out.rpcs[i].req == r {
      assert s'.out.rpcs[i] == s.out.rpcs[i];
    } else {
      var i :| 0 <= i < |s.out.stores| && s.out.stores[i].req == r;
      assert s'.out.stores[i] == s.out.stores[i];
    }
  }

  lemma {:induction false} FlushReplays(s: Controller, w: World, queue: seq<nat>, status: bool, r: nat)
    requires Involved(s.out, r) && (s.h.replayed || r in queue)
    ensures ProcessAll(s, w, queue, status).h.replayed
    decreases |queue|
  {
    hide Process, Involved;
    if queue != [] {
      ProcessStaysInvolved(s, w, queue[0], status, r);
      FlushReplays(Process(s, w, queue[0], status), w, queue[1..], status, r);
    }
  }

  /** An announcement while something is at the router breaks the order: two messages, or a request run again. */
  lemma AnnounceIffQuiet(s: Controller, w: World, e: Event)
    requires Inv(s)
    ensures Inv(Next(s, w, e)) <==> Proper(s, e)
  {
    hide Flush, Process;
    if Proper(s, e) {
      NextKeeps(s, w, e);
    } else {
      var sent := e.sent;
      var f := if e.NewPort? then s.flags.(port := true) else s.flags.(ready := true);
      assert f == s.flags;
      if !sent {
        var r := s.out.rpcs[0].req;
        assert Involved(s.out, r);
        FlushIsAll(s, w);
        FlushReplays(s.(waiting := []), w, s.waiting, false, r);
      }
    }
  }

  lemma FlushIsAll(s: Controller, w: World)
    ensures Flush(s, w, false) == ProcessAll(s.(waiting := []), w, s.waiting, false)
  {
  }

  function Start(): Controller {
    Controller([], Flags(false, false, false, false, false, false, false, false), None, Outside([], []), History({}, [], {}, false, []))
  }

  /** A run: at every step a request may turn out differently. */
  function RunOf(s: Controller, steps: seq<(World, Event)>): Controller
    decreases |steps|
  {
    if steps == [] then s else RunOf(Next(s, steps[0].0, steps[0].1), steps[1..])
  }

  ghost predicate ProperRun(s: Controller, steps: seq<(World, Event)>)
    decreases |steps|
  {
    steps == [] || (Proper(s, steps[0].1) && ProperRun(Next(s, steps[0].0, steps[0].1), steps[1..]))
  }

  lemma {:induction false} RunKeepsInv(s: Controller, steps: seq<(World, Event)>)
    requires Inv(s) && ProperRun(s, steps)
    ensures Inv(RunOf(s, steps))
    decreases |steps|
  {
    hide Inv, Next, Proper;
    if steps != [] {
      NextKeeps(s, steps[0].0, steps[0].1);
      RunKeepsInv(Next(s, steps[0].0, steps[0].1), steps[1..]);
    }
  }

  // No request is lost.

  ghost predicate AtMain(stores: seq<Store>, r: nat) { exists i :: 0 <= i < |stores| && stores[i].req == r }

  /** Once it has arrived, a request waits, is at main, is stored and waits for the router, or is answered. */
  ghost predicate Placed(s: Controller, r: nat) {
    r in s.h.arrived ==>
      r in s.waiting || r in s.h.answered || AtMain(s.out.stores, r) || s.certStored == Some(r)
  }

  lemma AtMainMore(stores: seq<Store>, kind: StoreKind, q: nat, r: nat)
    requires AtMain(stores, r) || q == r
    ensures AtMain(stores + [Store(kind, q)], r)
  {
    var more := stores + [Store(kind, q)];
    if q == r {
      assert more[|stores|].req == r;
    } else {
      var i :| 0 <= i < |stores| && stores[i].req == r;
      assert more[i].req == r;
    }
  }

  lemma RunPlaces(s: Controller, k: Kind, q: nat, choice: Choice, r: nat)
    requires Placed(s, r) || q == r
    ensures Placed(Run(s, k, q, choice), r)
  {
    hide AtMain;
    if AtMain(s.out.stores, r) || q == r {
      forall kind ensures AtMain(s.out.stores + [Store(kind, q)], r) { AtMainMore(s.out.stores, kind, q, r); }
    }
  }

  lemma ProcessPlaces(s: Controller, w: World, q: nat, status: bool, r: nat)
    requires Placed(s, r) || q == r
    ensures Placed(Process(s, w, q, status), r)
  {
    hide AtMain, Run, Involved;
    var s1 := s.(h := s.h.(replayed := s.h.replayed || Involved(s.out, q)));
    RunPlaces(s1, KindOf(w, q), q, w.choose(q), r);
  }

  lemma {:induction false} ProcessAllPlaces(s: Controller, w: World, queue: seq<nat>, status: bool, r: nat)
    requires Placed(s, r) || r in queue
    ensures Placed(ProcessAll(s, w, queue, status), r)
    decreases |queue|
  {
    hide Placed, Process;
    if queue != [] {
      if Placed(s, r) || queue[0] == r { ProcessPlaces(s, w, queue[0], status, r); }
      ProcessAllPlaces(Process(s, w, queue[0], status), w, queue[1..], status, r);
    }
  }

  lemma FlushPlaces(s: Controller, w: World, status: bool, r: nat)
    requires Placed(s, r)
    ensures Placed(Flush(s, w, status), r)
  {
    hide ProcessAll;
    ProcessAllPlaces(s.(waiting := []), w, s.waiting, status, r);
  }

  lemma CertApplyPlaces(s: Controller, w: World, q: nat, used: bool, r: nat)
    requires Placed(s, r) || q == r
    ensures Placed(CertApply(s, w, q, used), r)
  {
    hide Flush;
    FlushPlaces(Answer(Log(s, ApplyEnded(q)), q, !(used && s.flags.ready && s.flags.port)), w, false, r);
  }

  lemma {:induction false} UnlinkPlaces(q: seq<nat>, gone: nat, r: nat)
    requires r in q && r != gone
    ensures r in Unlink(q, gone)
  {
    if q[0] != gone && q[0] != r { UnlinkPlaces(q[1..], gone, r); }
  }

  lemma AnsweredPlaces(s: Controller, q: nat, ok: bool, r: nat)
    requires Placed(s, r)
    ensures Placed(Answer(s.(waiting := Unlink(s.waiting, q)), q, ok), r)
    ensures Placed(StartStore(s.(waiting := Unlink(s.waiting, q)), ConfFile, q), r)
  {
    hide AtMain, Unlink;
    if r in s.waiting && r != q { UnlinkPlaces(s.waiting, q, r); }
    if AtMain(s.out.stores, r) || q == r { AtMainMore(s.out.stores, ConfFile, q, r); }
  }

  lemma RpcReplyPlaces(s: Controller, w: World, i: nat, ok: bool, next: bool, r: nat)
    requires i < |s.out.rpcs| && Placed(s, r)
    ensures Placed(RpcReply(s, w, i, ok, next), r)
  {
    hide AtMain, Flush, Unlink, CertApply, StartStore;
    var s1 := WithoutRpc(s, i);
    match s.out.rpcs[i]
    case InitConf =>
      var s2 := s1.(flags := s1.flags.(initConf := false));
      if s2.certStored.Some? {
        CertApplyPlaces(s2.(certStored := None), w, s2.certStored.value, next, r);
      } else {
        FlushPlaces(s2, w, false, r);
      }
    case RequestRpc(kind, q) =>
      AnsweredPlaces(s1, q, ok, r);
      AnsweredPlaces(s1, q, false, r);
      var s2 := s1.(waiting := Unlink(s1.waiting, q));
      assert Placed(Answer(Log(s2, ApplyEnded(q)), q, ok), r) by { assert Placed(Answer(s2, q, ok), r); }
      FlushPlaces(Answer(Log(s2, ApplyEnded(q)), q, ok), w, false, r);
      FlushPlaces(Answer(s2, q, ok), w, false, r);
      FlushPlaces(Answer(s2, q, false), w, false, r);
      FlushPlaces(s1, w, ok, r);
  }

  lemma StoreReplyPlaces(s: Controller, w: World, i: nat, ok: bool, apply: bool, r: nat)
    requires i < |s.out.stores| && s.certStored == None && Placed(s, r)
    ensures Placed(StoreReply(s, w, i, ok, apply), r)
  {
    hide Flush, CertApply, CanFlush, Loose;
    var store := s.out.stores[i];
    var q := store.req;
    LogEndedIsSilent(WithoutStore(s, i), store.kind, ok, q);
    var s1 := LogEnded(WithoutStore(s, i), store.kind, q, ok);
    if r != q {
      if AtMain(s.out.stores, r) {
        var j :| 0 <= j < |s.out.stores| && s.out.stores[j].req == r;
        assert s1.out.stores[if j < i then j else j - 1].req == r;
      }
      assert Placed(s1, r);
    }
    CertApplyPlaces(s1, w, q, apply, r);
    FlushPlaces(Answer(s1, q, ok), w, false, r);
  }

  lemma {:induction false} FailAllPlaces(s: Controller, w: World, n: nat, r: nat)
    requires Placed(s, r)
    ensures Placed(FailAll(s, w, n), r)
    decreases n
  {
    hide Placed, RpcReply;
    if n > 0 && s.out.rpcs != [] {
      RpcReplyPlaces(s, w, 0, false, false, r);
      FailAllPlaces(RpcReply(s, w, 0, false, false), w, n - 1, r);
    }
  }

  lemma AnnouncePlaces(s: Controller, w: World, f: Flags, sent: bool, r: nat)
    requires Placed(s, r)
    ensures Placed(Announced(s, w, f, sent), r)
  {
    hide Flush;
    FlushPlaces(s.(flags := f), w, false, r);
  }

  lemma AtMainMeansNoneStored(s: Controller)
    requires Inv(s) && s.out.stores != []
    ensures s.certStored == None
  {
  }

  lemma NextPlaces(s: Controller, w: World, e: Event, r: nat)
    requires Inv(s) && Placed(s, r)
    ensures Placed(Next(s, w, e), r)
  {
    hide Inv, AtMain, Process, Announced, FailAll, RpcReply, StoreReply;
    match e
    case Request(q) =>
      if q !in s.h.arrived { ProcessPlaces(s.(h := s.h.(arrived := s.h.arrived + {q})), w, q, false, r); }
    case NewPort(sent) => AnnouncePlaces(s, w, s.flags.(port := true), sent, r);
    case RouterReady(sent) => AnnouncePlaces(s, w, s.flags.(ready := true), sent, r);
    case RouterDeath => FailAllPlaces(s.(flags := s.flags.(ready := false, port := false)), w, |s.out.rpcs|, r);
    case RouterAnswers(i, ok, next) => if i < |s.out.rpcs| { RpcReplyPlaces(s, w, i, ok, next, r); }
    case MainAnswers(i, ok, apply) =>
      if i < |s.out.stores| {
        AtMainMeansNoneStored(s);
        StoreReplyPlaces(s, w, i, ok, apply, r);
      }
  }

  lemma {:induction false} RunPlacesAll(s: Controller, steps: seq<(World, Event)>, r: nat)
    requires Inv(s) && ProperRun(s, steps) && Placed(s, r)
    ensures Placed(RunOf(s, steps), r)
    decreases |steps|
  {
    hide Inv, Next, Placed, Proper;
    if steps != [] {
      NextKeeps(s, steps[0].0, steps[0].1);
      NextPlaces(s, steps[0].0, steps[0].1, r);
      RunPlacesAll(Next(s, steps[0].0, steps[0].1), steps[1..], r);
    }
  }

  /**
    In every run: at most one operation is outstanding at the router and one at main; no request ran
    while its message was outstanding; each request is answered at most once, and not while it waits
    or is at main; no request is lost; and a waiting queue that is not empty has something that will
    flush it.
   */
  lemma ControllerIsOrderly(steps: seq<(World, Event)>)
    requires ProperRun(Start(), steps)
    ensures var s := RunOf(Start(), steps);
            && |s.out.rpcs| <= 1 && |s.out.stores| <= 1
            && !s.h.replayed
            && NoDup(s.h.answered) && NoDup(s.waiting) && (forall r :: r in s.waiting ==> r !in s.h.answered)
            && (s.waiting != [] ==> s.out.rpcs != [] || s.out.stores != [] || s.flags.initConf || !s.flags.ready || !s.flags.port)
            && (s.flags.initConf ==> s.out.rpcs == [InitConf])
            && (s.out.stores != [] ==> s.out.stores[0].req !in s.waiting && s.out.stores[0].req !in s.h.answered)
            && forall r :: r in s.h.arrived ==> Placed(s, r)
  {
    assert Inv(Start()) by {
      forall k ensures !Storing(Start().flags, k) { }
    }
    RunKeepsInv(Start(), steps);
    forall r ensures Placed(RunOf(Start(), steps), r) { RunPlacesAll(Start(), steps, r); }
  }
}
