/**
  Why a request is answered: along every run of the controller, what was asked of the router and of main, what
  they said, and the answer come in the order that the kind of the request demands.
 */
module ControllerAnswers {
  import opened Bytes
  import opened Controller
  import opened ControllerRuns
  import opened Links

  // What the outside says in an event.

  /** The router's answer to a message about r, or the failure of that message when the router dies. */
  ghost predicate RouterSays(s: Controller, e: Event, kind: RpcKind, r: nat, ok: bool, next: bool) {
    || (e.RouterAnswers? && e.i < |s.out.rpcs| && s.out.rpcs[e.i] == RequestRpc(kind, r) && ok == e.ok && next == e.next)
    || (e.RouterDeath? && RequestRpc(kind, r) in s.out.rpcs && !ok && !next)
  }

  /** The router's answer to its first configuration, or the failure of that. */
  ghost predicate InitSays(s: Controller, e: Event, used: bool) {
    || (e.RouterAnswers? && e.i < |s.out.rpcs| && s.out.rpcs[e.i] == InitConf && used == e.next)
    || (e.RouterDeath? && InitConf in s.out.rpcs && !used)
  }

  ghost predicate MainSays(s: Controller, e: Event, kind: StoreKind, r: nat, ok: bool, used: bool) {
    e.MainAnswers? && e.i < |s.out.stores| && s.out.stores[e.i] == Store(kind, r) && ok == e.ok && used == e.used
  }

  /** A status report is at hand. */
  ghost predicate Reports(s: Controller, e: Event) {
    e.RouterAnswers? && e.i < |s.out.rpcs| && s.out.rpcs[e.i].RequestRpc? && s.out.rpcs[e.i].kind == StatusRpc && e.ok
  }

  // What is asked for a request.

  predicate Asks(k: Kind, kind: RpcKind) {
    match kind
    case ConfRpc => k == Config
    case StatusRpc => k == Status || k == Root
    case RestartRpc => k == Restart
    case CertApplyRpc => k == CertPut
  }

  predicate Keeps(k: Kind, kind: StoreKind) {
    match kind
    case ConfFile => k == Config
    case CertFile => k == CertPut
    case CertGone => k == CertDelete
    case ScriptFile => k == ScriptPut
    case ScriptGone => k == ScriptDelete
  }

  // Running requests.

  /** What a run of x can answer: a request that needs nothing, a refused one, one that a report is for. */
  ghost predicate Free(w: World, f: Flags, x: nat, status: bool) {
    match KindOf(w, x)
    case Plain => true
    case CertGet => !f.certStoring && !f.certDeleting
    case ScriptGet => !f.scriptStoring && !f.scriptDeleting
    case Status => status || w.choose(x) == Refused
    case Root => (status && !StoreInFlight(f)) || w.choose(x) == Refused
    case CertPut => w.choose(x) != UnderWay
    case _ => w.choose(x) == Refused
  }

  ghost predicate Answers(w: World, status: bool, s: Controller, s': Controller) {
    && (forall x :: x in s.h.answered ==> x in s'.h.answered)
    && (forall x :: x in s'.h.answered ==> x in s.h.answered || Free(w, s.flags, x, status))
    && s.h.done <= s'.h.done
    && (forall x :: x in s'.h.done ==> x in s.h.done || (Free(w, s.flags, x, status) && w.choose(x) != Refused))
    && (forall kind :: Storing(s.flags, kind) ==> Storing(s'.flags, kind))
  }

  ghost predicate Messages(w: World, s: Controller, s': Controller) {
    && (forall p :: p in s'.out.rpcs ==>
          p in s.out.rpcs || (p.RequestRpc? && w.choose(p.req) != Refused && p.kind != CertApplyRpc && Asks(KindOf(w, p.req), p.kind)))
    && (forall p :: p in s'.out.stores ==>
          p in s.out.stores || (w.choose(p.req) != Refused && p.kind != ConfFile && Keeps(KindOf(w, p.req), p.kind)))
    && s'.certStored == s.certStored
  }

  ghost predicate Does(w: World, status: bool, s: Controller, s': Controller) { Answers(w, status, s, s') && Messages(w, s, s') }

  lemma FreeEarlier(w: World, f: Flags, f': Flags, x: nat, status: bool)
    requires Free(w, f', x, status) && forall kind :: Storing(f, kind) ==> Storing(f', kind)
    ensures Free(w, f, x, status)
  {
    assert Storing(f, ConfFile) ==> Storing(f', ConfFile);
    assert Storing(f, CertFile) ==> Storing(f', CertFile);
    assert Storing(f, CertGone) ==> Storing(f', CertGone);
    assert Storing(f, ScriptFile) ==> Storing(f', ScriptFile);
    assert Storing(f, ScriptGone) ==> Storing(f', ScriptGone);
  }

  lemma DoesThenDoes(w: World, status: bool, a: Controller, b: Controller, c: Controller)
    requires Does(w, status, a, b) && Does(w, status, b, c)
    ensures Does(w, status, a, c)
  {
    hide Free, Storing, Asks, Keeps;
    forall x | Free(w, b.flags, x, status) ensures Free(w, a.flags, x, status) { FreeEarlier(w, a.flags, b.flags, x, status); }
  }

  lemma DoesNothing(w: World, status: bool, s: Controller, s': Controller)
    requires s'.h.answered == s.h.answered && s'.h.done == s.h.done && s'.flags == s.flags && s'.out == s.out
    requires s'.certStored == s.certStored
    ensures Does(w, status, s, s')
  {
  }

  lemma AnswerDoes(w: World, status: bool, s: Controller, r: nat, ok: bool)
    requires Free(w, s.flags, r, status) && (ok ==> w.choose(r) != Refused)
    ensures Does(w, status, s, Answer(s, r, ok))
  {
    hide Free, Storing;
  }

  lemma SendDoes(w: World, status: bool, s: Controller, kind: RpcKind, r: nat)
    requires w.choose(r) != Refused && kind != CertApplyRpc && Asks(KindOf(w, r), kind)
    ensures Does(w, status, s, Send(s, kind, r))
  {
    hide Free, Storing, Asks, Keeps, KindOf;
  }

  lemma StoreDoes(w: World, status: bool, s: Controller, kind: StoreKind, r: nat)
    requires w.choose(r) != Refused && kind != ConfFile && Keeps(KindOf(w, r), kind)
    ensures Does(w, status, s, StartStore(s, kind, r))
  {
    hide Free, Asks, Keeps, KindOf;
  }

  lemma RunDoes(s: Controller, w: World, r: nat, status: bool)
    requires !StoreInFlight(s.flags)
    ensures Does(w, status, s, Run(s, KindOf(w, r), r, w.choose(r)))
  {
    hide Does, Answer, Send, StartStore, KindOf;
    var k, choice := KindOf(w, r), w.choose(r);
    if choice == Refused {
      AnswerDoes(w, status, s, r, false);
    } else if choice == Unchanged && k == CertPut {
      AnswerDoes(w, status, s, r, true);
    } else {
      match k
      case Config => SendDoes(w, status, s, ConfRpc, r);
      case Status => SendDoes(w, status, s, StatusRpc, r);
      case Root => SendDoes(w, status, s, StatusRpc, r);
      case Restart => SendDoes(w, status, s, RestartRpc, r);
      case CertPut => StoreDoes(w, status, s, CertFile, r);
      case CertDelete => StoreDoes(w, status, s, CertGone, r);
      case ScriptPut => StoreDoes(w, status, s, ScriptFile, r);
      case ScriptDelete => StoreDoes(w, status, s, ScriptGone, r);
      case _ => AnswerDoes(w, status, s, r, true);
    }
  }

  lemma ProcessDoes(s: Controller, w: World, r: nat, status: bool)
    ensures Does(w, status, s, Process(s, w, r, status))
  {
    hide Does, Answer, Wait, Run, KindOf, Involved;
    var s1 := s.(h := s.h.(replayed := s.h.replayed || Involved(s.out, r)));
    DoesNothing(w, status, s, s1);
    WaitDoes(w, status, s1, r);
    var s' := Process(s, w, r, status);
    if !StoreInFlight(s1.flags) { RunDoes(s1, w, r, status); }
    if Free(w, s1.flags, r, status) { AnswerDoes(w, status, s1, r, w.choose(r) != Refused); }
    DoesThenDoes(w, status, s, s1, s');
  }

  lemma WaitDoes(w: World, status: bool, s: Controller, r: nat)
    ensures Does(w, status, s, Wait(s, r))
  {
    DoesNothing(w, status, s, Wait(s, r));
  }

  lemma {:induction false} ProcessAllDoes(s: Controller, w: World, queue: seq<nat>, status: bool)
    ensures Does(w, status, s, ProcessAll(s, w, queue, status))
    decreases |queue|
  {
    hide Does, Process;
    if queue == [] {
      DoesNothing(w, status, s, s);
    } else {
      var s1 := Process(s, w, queue[0], status);
      ProcessDoes(s, w, queue[0], status);
      ProcessAllDoes(s1, w, queue[1..], status);
      DoesThenDoes(w, status, s, s1, ProcessAll(s1, w, queue[1..], status));
    }
  }

  /** A flush answers only what may be answered without the outside, and asks only for requests that are under way. */
  lemma FlushDoes(s: Controller, w: World, status: bool)
    ensures Does(w, status, s, Flush(s, w, status))
  {
    hide Does, ProcessAll;
    var s1 := s.(waiting := []);
    DoesNothing(w, status, s, s1);
    ProcessAllDoes(s1, w, s.waiting, status);
    DoesThenDoes(w, status, s, s1, ProcessAll(s1, w, s.waiting, status));
  }

  // One event.

  /** The stores that are still under way when the waiting requests run. */
  function FlagsAfter(s: Controller, e: Event): Flags {
    if e.MainAnswers? && e.i < |s.out.stores| then SetStoring(s.flags, s.out.stores[e.i].kind, false) else s.flags
  }

  predicate RouterThere(s: Controller, e: Event) { s.flags.ready && s.flags.port && !e.RouterDeath? }

  ghost predicate MayAnswer(s: Controller, w: World, e: Event, x: nat) {
    || Free(w, FlagsAfter(s, e), x, Reports(s, e))
    || (exists kind, ok, next :: RouterSays(s, e, kind, x, ok, next) && !(kind == StatusRpc && ok) && !(kind == ConfRpc && ok && next))
    || (exists used :: InitSays(s, e, used) && s.certStored == Some(x) && !(used && RouterThere(s, e) && w.sends))
    || (exists kind, ok, used :: MainSays(s, e, kind, x, ok, used)
          && (kind == CertFile && ok ==> !s.flags.initConf && !(used && RouterThere(s, e) && w.sends)))
  }

  ghost predicate MayPlease(s: Controller, w: World, e: Event, x: nat) {
    || (Free(w, FlagsAfter(s, e), x, Reports(s, e)) && w.choose(x) != Refused)
    || (exists kind, next :: RouterSays(s, e, kind, x, true, next) && (kind == CertApplyRpc || kind == RestartRpc))
    || (exists used :: InitSays(s, e, used) && s.certStored == Some(x) && !(used && RouterThere(s, e)))
    || (exists kind, used :: MainSays(s, e, kind, x, true, used)
          && (kind == CertFile ==> !s.flags.initConf && !(used && RouterThere(s, e))))
  }

  ghost predicate MayAsk(s: Controller, w: World, e: Event, p: Rpc) {
    p.RequestRpc? ==>
      || (w.choose(p.req) != Refused && p.kind != CertApplyRpc && Asks(KindOf(w, p.req), p.kind))
      || (p.kind == CertApplyRpc && RouterThere(s, e)
          && ((MainSays(s, e, CertFile, p.req, true, true) && !s.flags.initConf) || (InitSays(s, e, true) && s.certStored == Some(p.req))))
  }

  ghost predicate MayStore(s: Controller, w: World, e: Event, p: Store) {
    || (w.choose(p.req) != Refused && p.kind != ConfFile && Keeps(KindOf(w, p.req), p.kind))
    || (p.kind == ConfFile && RouterSays(s, e, ConfRpc, p.req, true, true))
  }

  ghost predicate Follows(s: Controller, w: World, e: Event, s': Controller) {
    && (forall x :: x in s.h.answered ==> x in s'.h.answered)
    && (forall x :: x in s'.h.answered ==> x in s.h.answered || MayAnswer(s, w, e, x))
    && s.h.done <= s'.h.done
    && (forall x :: x in s'.h.done ==> x in s.h.done || MayPlease(s, w, e, x))
    && (forall p :: p in s'.out.rpcs ==> p in s.out.rpcs || MayAsk(s, w, e, p))
    && (forall p :: p in s'.out.stores ==> p in s.out.stores || MayStore(s, w, e, p))
    && (s'.certStored.Some? ==> s'.certStored == s.certStored || (exists used :: MainSays(s, e, CertFile, s'.certStored.value, true, used)))
  }

  ghost predicate StoresStay(f: Flags, f': Flags) { forall kind :: Storing(f, kind) ==> Storing(f', kind) }

  /** What runs after the input itself follows from it too. */
  lemma DoesFollow(s: Controller, w: World, e: Event, s1: Controller, s2: Controller, status: bool)
    requires Follows(s, w, e, s1) && StoresStay(FlagsAfter(s, e), s1.flags) && (status ==> Reports(s, e))
    requires Does(w, status, s1, s2)
    ensures Follows(s, w, e, s2)
  {
    hide Free, Storing, Asks, Keeps, RouterSays, InitSays, MainSays, Reports, FlagsAfter, RouterThere;
    forall x | Free(w, s1.flags, x, status) ensures Free(w, FlagsAfter(s, e), x, Reports(s, e)) {
      FreeEarlier(w, FlagsAfter(s, e), s1.flags, x, status);
      FreeReported(w, FlagsAfter(s, e), x, status, Reports(s, e));
    }
  }

  lemma FreeReported(w: World, f: Flags, x: nat, status: bool, reports: bool)
    requires Free(w, f, x, status) && (status ==> reports)
    ensures Free(w, f, x, reports)
  {
  }

  lemma FlushFollows(s: Controller, w: World, e: Event, s1: Controller, status: bool)
    requires Follows(s, w, e, s1) && StoresStay(FlagsAfter(s, e), s1.flags) && (status ==> Reports(s, e))
    ensures Follows(s, w, e, Flush(s1, w, status))
  {
    hide Follows, Flush, StoresStay, FlagsAfter, Reports, Does;
    FlushDoes(s1, w, status);
    DoesFollow(s, w, e, s1, Flush(s1, w, status), status);
  }

  /** An input that takes messages away and answers nothing. */
  lemma TakenFollows(s: Controller, w: World, e: Event, s1: Controller)
    requires s1.h.answered == s.h.answered && s1.h.done == s.h.done
    requires (forall p :: p in s1.out.rpcs ==> p in s.out.rpcs || p == InitConf) && (forall p :: p in s1.out.stores ==> p in s.out.stores)
    requires s1.certStored == s.certStored || s1.certStored == None
    ensures Follows(s, w, e, s1)
  {
  }

  lemma AnswerFollows(s: Controller, w: World, e: Event, s1: Controller, r: nat, ok: bool)
    requires Follows(s, w, e, s1) && MayAnswer(s, w, e, r) && (ok ==> MayPlease(s, w, e, r))
    ensures Follows(s, w, e, Answer(s1, r, ok))
  {
    hide MayAnswer, MayPlease, MayAsk, MayStore, MainSays;
  }

  lemma SendFollows(s: Controller, w: World, e: Event, s1: Controller, kind: RpcKind, r: nat)
    requires Follows(s, w, e, s1) && MayAsk(s, w, e, RequestRpc(kind, r))
    ensures Follows(s, w, e, Send(s1, kind, r))
  {
    hide MayAnswer, MayPlease, MayAsk, MayStore, MainSays;
  }

  lemma StoreFollows(s: Controller, w: World, e: Event, s1: Controller, kind: StoreKind, r: nat)
    requires Follows(s, w, e, s1) && MayStore(s, w, e, Store(kind, r))
    ensures Follows(s, w, e, StartStore(s1, kind, r))
  {
    hide MayAnswer, MayPlease, MayAsk, MayStore, MainSays;
  }

  lemma LogFollows(s: Controller, w: World, e: Event, s1: Controller, c: CertEntry)
    requires Follows(s, w, e, s1)
    ensures Follows(s, w, e, Log(s1, c))
  {
    hide MayAnswer, MayPlease, MayAsk, MayStore, MainSays;
  }

  /** The bundle of r is stored: it is applied, or its request is answered. */
  lemma CertApplyFollows(s: Controller, w: World, e: Event, s1: Controller, r: nat, used: bool)
    requires Follows(s, w, e, s1) && StoresStay(FlagsAfter(s, e), s1.flags)
    requires var apply := used && s1.flags.ready && s1.flags.port;
             if apply && w.sends then MayAsk(s, w, e, RequestRpc(CertApplyRpc, r))
             else MayAnswer(s, w, e, r) && (!apply ==> MayPlease(s, w, e, r))
    ensures Follows(s, w, e, CertApply(s1, w, r, used))
  {
    hide Follows, Flush, StoresStay, FlagsAfter, Reports, MayAnswer, MayPlease, MayAsk;
    var apply := used && s1.flags.ready && s1.flags.port;
    if apply && w.sends {
      SendFollows(s, w, e, s1, CertApplyRpc, r);
    } else {
      LogFollows(s, w, e, s1, ApplyEnded(r));
      AnswerFollows(s, w, e, Log(s1, ApplyEnded(r)), r, !apply);
      FlushFollows(s, w, e, Answer(Log(s1, ApplyEnded(r)), r, !apply), false);
    }
  }

  lemma InSlice<T>(a: seq<T>, i: nat)
    requires i < |a|
    ensures forall x :: x in a[..i] + a[i + 1..] ==> x in a
  {
  }

  /** The router's answer to a request, on the state in which it is handled. */
  lemma RequestReplyFollows(s: Controller, w: World, i: nat, ok: bool, next: bool)
    requires i < |s.out.rpcs| && s.out.rpcs[i].RequestRpc?
    ensures Follows(s, w, RouterAnswers(i, ok, next), RpcReply(s, w, i, ok, next))
  {
    hide Follows, Flush, StoresStay, Unlink, MayAnswer, MayPlease, MayAsk, MayStore, Answer, Log, StartStore, Storing;
    var e := RouterAnswers(i, ok, next);
    var kind, r := s.out.rpcs[i].kind, s.out.rpcs[i].req;
    var s1 := WithoutRpc(s, i);
    InSlice(s.out.rpcs, i);
    TakenFollows(s, w, e, s1);
    var s2 := s1.(waiting := Unlink(s1.waiting, r));
    TakenFollows(s, w, e, s2);
    assert RouterSays(s, e, kind, r, ok, next);
    SameFlags(s.flags);
    if kind == StatusRpc && ok {
      FlushFollows(s, w, e, s1, true);
    } else if kind == ConfRpc && ok && next {
      assert MayStore(s, w, e, Store(ConfFile, r)) by { StoreAfterConf(s, w, e, r); }
      StoreFollows(s, w, e, s2, ConfFile, r);
    } else {
      RouterMayAnswer(s, w, e, kind, r, ok, next);
      var good := ok && (kind == CertApplyRpc || kind == RestartRpc);
      var s3 := if kind == CertApplyRpc then Log(s2, ApplyEnded(r)) else s2;
      LogFollows(s, w, e, s2, ApplyEnded(r));
      AnswerFollows(s, w, e, s3, r, good);
      AnswerFlags(s3, r, good);
      LogFlags(s2, r);
      FlushFollows(s, w, e, Answer(s3, r, good), false);
    }
  }

  lemma SameFlags(f: Flags)
    ensures StoresStay(f, f)
  {
  }

  lemma AnswerFlags(s: Controller, r: nat, ok: bool)
    ensures Answer(s, r, ok).flags == s.flags
  {
  }

  lemma LogFlags(s: Controller, r: nat)
    ensures Log(s, ApplyEnded(r)).flags == s.flags
  {
  }

  lemma StoreAfterConf(s: Controller, w: World, e: Event, r: nat)
    requires RouterSays(s, e, ConfRpc, r, true, true)
    ensures MayStore(s, w, e, Store(ConfFile, r))
  {
  }

  lemma RouterMayAnswer(s: Controller, w: World, e: Event, kind: RpcKind, r: nat, ok: bool, next: bool)
    requires RouterSays(s, e, kind, r, ok, next) && !(kind == StatusRpc && ok) && !(kind == ConfRpc && ok && next)
    ensures MayAnswer(s, w, e, r)
    ensures ok && (kind == CertApplyRpc || kind == RestartRpc) ==> MayPlease(s, w, e, r)
  {
    hide RouterSays;
    if ok && (kind == CertApplyRpc || kind == RestartRpc) { assert RouterSays(s, e, kind, r, true, next); }
  }

  lemma InitReplyFollows(s: Controller, w: World, i: nat, ok: bool, next: bool)
    requires i < |s.out.rpcs| && s.out.rpcs[i] == InitConf
    ensures Follows(s, w, RouterAnswers(i, ok, next), RpcReply(s, w, i, ok, next))
  {
    hide Follows, Flush, MayAnswer, MayPlease, MayAsk, CertApply;
    var e := RouterAnswers(i, ok, next);
    var s1 := WithoutRpc(s, i);
    InSlice(s.out.rpcs, i);
    var s2 := s1.(flags := s1.flags.(initConf := false));
    forall kind ensures Storing(s.flags, kind) ==> Storing(s2.flags, kind) { }
    assert InitSays(s, e, next);
    if s.certStored.Some? {
      var s3 := s2.(certStored := None);
      TakenFollows(s, w, e, s3);
      InitMay(s, w, e, next, s.certStored.value);
      CertApplyFollows(s, w, e, s3, s.certStored.value, next);
    } else {
      TakenFollows(s, w, e, s2);
      FlushFollows(s, w, e, s2, false);
    }
  }

  lemma InitMay(s: Controller, w: World, e: Event, used: bool, r: nat)
    requires InitSays(s, e, used) && s.certStored == Some(r)
    ensures var apply := used && RouterThere(s, e);
            if apply && w.sends then MayAsk(s, w, e, RequestRpc(CertApplyRpc, r))
            else MayAnswer(s, w, e, r) && (!apply ==> MayPlease(s, w, e, r))
  {
    hide InitSays, Free, RouterSays, MainSays;
  }

  lemma RpcReplyFollows(s: Controller, w: World, i: nat, ok: bool, next: bool)
    requires i < |s.out.rpcs|
    ensures Follows(s, w, RouterAnswers(i, ok, next), RpcReply(s, w, i, ok, next))
  {
    hide Follows, RpcReply;
    if s.out.rpcs[i].InitConf? { InitReplyFollows(s, w, i, ok, next); } else { RequestReplyFollows(s, w, i, ok, next); }
  }

  lemma MainMay(s: Controller, w: World, e: Event, kind: StoreKind, r: nat, ok: bool, used: bool)
    requires MainSays(s, e, kind, r, ok, used)
    ensures kind != CertFile || !ok ==> MayAnswer(s, w, e, r) && (ok ==> MayPlease(s, w, e, r))
    ensures kind == CertFile && ok && !s.flags.initConf ==>
              var apply := used && RouterThere(s, e);
              if apply && w.sends then MayAsk(s, w, e, RequestRpc(CertApplyRpc, r))
              else MayAnswer(s, w, e, r) && (!apply ==> MayPlease(s, w, e, r))
  {
    hide MainSays, Free, RouterSays, InitSays;
    if ok { assert MainSays(s, e, kind, r, true, used); }
    if used { assert MainSays(s, e, kind, r, ok, true); }
  }

  lemma StoreReplyFollows(s: Controller, w: World, i: nat, ok: bool, used: bool)
    requires i < |s.out.stores|
    ensures Follows(s, w, MainAnswers(i, ok, used), StoreReply(s, w, i, ok, used))
  {
    hide Follows, Flush, MayAnswer, MayPlease, MayAsk, CertApply, Answer, StoresStay;
    var e, kind, r := MainAnswers(i, ok, used), s.out.stores[i].kind, s.out.stores[i].req;
    InSlice(s.out.stores, i);
    var s1 := LogEnded(WithoutStore(s, i), kind, r, ok);
    TakenFollows(s, w, e, s1);
    assert MainSays(s, e, kind, r, ok, used);
    MainMay(s, w, e, kind, r, ok, used);
    SameFlags(s1.flags);
    MainFlags(s, i, kind, r, ok);
    if kind == CertFile && ok {
      if s1.flags.initConf {
        HoldFollows(s, w, e, s1, r, used);
      } else {
        CertApplyFollows(s, w, e, s1, r, used);
      }
    } else {
      AnswerFollows(s, w, e, s1, r, ok);
      AnswerFlags(s1, r, ok);
      FlushFollows(s, w, e, Answer(s1, r, ok), false);
    }
  }

  lemma MainFlags(s: Controller, i: nat, kind: StoreKind, r: nat, ok: bool)
    requires i < |s.out.stores| && s.out.stores[i] == Store(kind, r)
    ensures var f := LogEnded(WithoutStore(s, i), kind, r, ok).flags;
            f == SetStoring(s.flags, kind, false) && f.initConf == s.flags.initConf && f.ready == s.flags.ready && f.port == s.flags.port
  {
  }

  lemma HoldFollows(s: Controller, w: World, e: Event, s1: Controller, r: nat, used: bool)
    requires Follows(s, w, e, s1) && MainSays(s, e, CertFile, r, true, used)
    ensures Follows(s, w, e, s1.(certStored := Some(r)))
  {
    hide MayAnswer, MayPlease, MayAsk, MayStore;
  }

  /** The failure of a message is the router's answer on a state without a router. */
  lemma DeathIsAnswer(s: Controller, w: World, s': Controller)
    requires s.out.rpcs != []
    requires Follows(s.(flags := s.flags.(ready := false, port := false)), w, RouterAnswers(0, false, false), s')
    ensures Follows(s, w, RouterDeath, s')
  {
    var gone, a, e := s.(flags := s.flags.(ready := false, port := false)), RouterAnswers(0, false, false), RouterDeath;
    assert s.out.rpcs[0] in s.out.rpcs;
    forall x | MayAnswer(gone, w, a, x) ensures MayAnswer(s, w, e, x) { GoneMayAnswer(s, w, x); }
    forall x | MayPlease(gone, w, a, x) ensures MayPlease(s, w, e, x) { GoneMayPlease(s, w, x); }
    forall p | MayAsk(gone, w, a, p) ensures MayAsk(s, w, e, p) { }
    forall p | MayStore(gone, w, a, p) ensures MayStore(s, w, e, p) { }
  }

  lemma GoneFree(s: Controller, w: World, x: nat)
    requires Free(w, s.flags.(ready := false, port := false), x, false)
    ensures Free(w, s.flags, x, false)
  {
  }

  lemma GoneMayAnswer(s: Controller, w: World, x: nat)
    requires s.out.rpcs != [] && MayAnswer(s.(flags := s.flags.(ready := false, port := false)), w, RouterAnswers(0, false, false), x)
    ensures MayAnswer(s, w, RouterDeath, x)
  {
    hide Free;
    var gone, a, e := s.(flags := s.flags.(ready := false, port := false)), RouterAnswers(0, false, false), RouterDeath;
    if Free(w, gone.flags, x, false) {
      GoneFree(s, w, x);
    } else if kind, ok, next :| RouterSays(gone, a, kind, x, ok, next) {
      assert RouterSays(s, e, kind, x, false, false);
    } else {
      assert InitSays(gone, a, false);
      assert InitSays(s, e, false);
    }
  }

  lemma GoneMayPlease(s: Controller, w: World, x: nat)
    requires s.out.rpcs != [] && MayPlease(s.(flags := s.flags.(ready := false, port := false)), w, RouterAnswers(0, false, false), x)
    ensures MayPlease(s, w, RouterDeath, x)
  {
    hide Free;
    var gone, a, e := s.(flags := s.flags.(ready := false, port := false)), RouterAnswers(0, false, false), RouterDeath;
    if Free(w, gone.flags, x, false) && w.choose(x) != Refused {
      GoneFree(s, w, x);
    } else {
      assert InitSays(gone, a, false);
      assert InitSays(s, e, false);
    }
  }

  lemma DeathFollows(s: Controller, w: World)
    requires Inv(s)
    ensures Follows(s, w, RouterDeath, Next(s, w, RouterDeath))
  {
    var gone := s.(flags := s.flags.(ready := false, port := false));
    var n := |s.out.rpcs|;
    assert n <= 1;
    hide Inv, Follows, RpcReply;
    if n == 0 {
      assert FailAll(gone, w, 0) == gone;
      TakenFollows(s, w, RouterDeath, gone);
    } else {
      var s' := RpcReply(gone, w, 0, false, false);
      assert FailAll(gone, w, 1) == FailAll(s', w, 0) == s';
      RpcReplyFollows(gone, w, 0, false, false);
      DeathIsAnswer(s, w, s');
    }
  }

  lemma AnnounceFollows(s: Controller, w: World, e: Event, f: Flags, sent: bool)
    requires (f == s.flags.(ready := true) || f == s.flags.(port := true)) && !e.MainAnswers?
    ensures Follows(s, w, e, Announced(s, w, f, sent))
  {
    hide Follows, Flush;
    var s1 := s.(flags := f);
    TakenFollows(s, w, e, s1);
    forall kind ensures Storing(s.flags, kind) ==> Storing(f, kind) { }
    if f.ready && f.port {
      if sent { TakenFollows(s, w, e, SendCurrentConf(s1, w, sent)); } else { FlushFollows(s, w, e, s1, false); }
    }
  }

  lemma RequestFollows(s: Controller, w: World, r: nat)
    ensures Follows(s, w, Request(r), Next(s, w, Request(r)))
  {
    hide Follows, Process, Does;
    if r in s.h.arrived {
      TakenFollows(s, w, Request(r), s);
    } else {
      var s1 := s.(h := s.h.(arrived := s.h.arrived + {r}));
      TakenFollows(s, w, Request(r), s1);
      ProcessDoes(s1, w, r, false);
      DoesFollow(s, w, Request(r), s1, Process(s1, w, r, false), false);
    }
  }

  /** Every answer, every message and every stored bundle of an event follows from what the event says. */
  lemma NextFollows(s: Controller, w: World, e: Event)
    requires Inv(s)
    ensures Follows(s, w, e, Next(s, w, e))
  {
    hide Inv, Follows, Announced, FailAll, RpcReply, StoreReply, Process;
    match e
    case Request(r) => RequestFollows(s, w, r);
    case NewPort(sent) => AnnounceFollows(s, w, e, s.flags.(port := true), sent);
    case RouterReady(sent) => AnnounceFollows(s, w, e, s.flags.(ready := true), sent);
    case RouterDeath => DeathFollows(s, w);
    case RouterAnswers(i, ok, next) => if i < |s.out.rpcs| { RpcReplyFollows(s, w, i, ok, next); } else { TakenFollows(s, w, e, s); }
    case MainAnswers(i, ok, used) => if i < |s.out.stores| { StoreReplyFollows(s, w, i, ok, used); } else { TakenFollows(s, w, e, s); }
  }

  // Runs.

  /** A request is of the same kind whenever it runs. */
  ghost predicate Steady(steps: seq<(World, Event)>, kinds: map<nat, Kind>) {
    forall i :: 0 <= i < |steps| ==> steps[i].0.kinds == kinds
  }

  function StateAt(steps: seq<(World, Event)>, k: nat): Controller
    requires k <= |steps|
  {
    RunOf(Start(), steps[..k])
  }

  lemma {:induction false} RunEnds(s: Controller, steps: seq<(World, Event)>, last: (World, Event))
    ensures RunOf(s, steps + [last]) == Next(RunOf(s, steps), last.0, last.1)
    ensures ProperRun(s, steps + [last]) <==> ProperRun(s, steps) && Proper(RunOf(s, steps), last.1)
    decreases |steps|
  {
    hide Next, Proper;
    if steps == [] {
      assert steps + [last] == [last] && [last][1..] == [];
    } else {
      assert (steps + [last])[1..] == steps[1..] + [last];
      RunEnds(Next(s, steps[0].0, steps[0].1), steps[1..], last);
    }
  }

  lemma {:induction false} ProperPrefix(steps: seq<(World, Event)>, k: nat)
    requires k <= |steps| && ProperRun(Start(), steps)
    ensures ProperRun(Start(), steps[..k])
    decreases |steps| - k
  {
    hide ProperRun, RunOf, Proper;
    if k == |steps| {
      assert steps[..k] == steps;
    } else {
      ProperPrefix(steps, k + 1);
      assert steps[..k + 1] == steps[..k] + [steps[k]];
      RunEnds(Start(), steps[..k], steps[k]);
    }
  }

  lemma StateNext(steps: seq<(World, Event)>, k: nat)
    requires k < |steps| && ProperRun(Start(), steps)
    ensures Inv(StateAt(steps, k)) && StateAt(steps, k + 1) == Next(StateAt(steps, k), steps[k].0, steps[k].1)
  {
    StartInv();
    hide Inv, ProperRun, RunOf, Next;
    ProperPrefix(steps, k);
    RunKeepsInv(Start(), steps[..k]);
    assert steps[..k + 1] == steps[..k] + [steps[k]];
    RunEnds(Start(), steps[..k], steps[k]);
  }

  lemma StartInv()
    ensures Inv(Start())
  {
    forall k ensures !Storing(Start().flags, k) { }
  }

  lemma StateFollows(steps: seq<(World, Event)>, k: nat)
    requires k < |steps| && ProperRun(Start(), steps)
    ensures Inv(StateAt(steps, k)) && Follows(StateAt(steps, k), steps[k].0, steps[k].1, StateAt(steps, k + 1))
  {
    hide Inv, ProperRun, StateAt, Next, Follows;
    StateNext(steps, k);
    NextFollows(StateAt(steps, k), steps[k].0, steps[k].1);
  }

  lemma StateZero(steps: seq<(World, Event)>)
    ensures StateAt(steps, 0) == Start()
  {
    assert steps[..0] == [];
  }

  /** The messages fit the requests. */
  ghost predicate Fits(s: Controller, w: World) {
    && (forall p :: p in s.out.rpcs && p.RequestRpc? ==> Asks(KindOf(w, p.req), p.kind))
    && (forall p :: p in s.out.stores ==> Keeps(KindOf(w, p.req), p.kind))
    && (s.certStored.Some? ==> KindOf(w, s.certStored.value) == CertPut)
  }

  lemma FitsNext(s: Controller, w: World, e: Event, s': Controller)
    requires Fits(s, w) && Follows(s, w, e, s')
    ensures Fits(s', w)
  {
    hide MayAnswer, MayPlease;
  }

  lemma {:induction false} StateFits(steps: seq<(World, Event)>, k: nat, w: World)
    requires k <= |steps| && ProperRun(Start(), steps) && Steady(steps, w.kinds)
    ensures Fits(StateAt(steps, k), w)
    decreases k
  {
    hide ProperRun, StateAt, Follows, Fits;
    if k == 0 {
      StateZero(steps);
      StartFits(w);
    } else {
      StateFits(steps, k - 1, w);
      StateFollows(steps, k - 1);
      SameKinds(StateAt(steps, k - 1), w, steps[k - 1].0);
      FitsNext(StateAt(steps, k - 1), steps[k - 1].0, steps[k - 1].1, StateAt(steps, k));
      SameKinds(StateAt(steps, k), steps[k - 1].0, w);
    }
  }

  lemma StartFits(w: World)
    ensures Fits(Start(), w)
  {
  }

  lemma SameKinds(s: Controller, w: World, w': World)
    requires Fits(s, w) && w'.kinds == w.kinds
    ensures Fits(s, w')
  {
    forall r ensures KindOf(w', r) == KindOf(w, r) { }
  }

  // Looking back from a state.

  /** The step that answers r. */
  ghost predicate AnsweredIn(steps: seq<(World, Event)>, k: nat, r: nat) {
    k < |steps| && r !in StateAt(steps, k).h.answered && r in StateAt(steps, k + 1).h.answered
  }

  lemma {:induction false} WhyAnswered(steps: seq<(World, Event)>, n: nat, r: nat) returns (k: nat)
    requires n <= |steps| && ProperRun(Start(), steps) && r in StateAt(steps, n).h.answered
    ensures k < n && AnsweredIn(steps, k, r) && MayAnswer(StateAt(steps, k), steps[k].0, steps[k].1, r)
    decreases n
  {
    hide ProperRun, StateAt, MayAnswer;
    if n == 0 {
      StateZero(steps);
    } else {
      StateFollows(steps, n - 1);
      if r in StateAt(steps, n - 1).h.answered { k := WhyAnswered(steps, n - 1, r); } else { k := n - 1; }
    }
  }

  lemma {:induction false} WhyDone(steps: seq<(World, Event)>, n: nat, r: nat) returns (k: nat)
    requires n <= |steps| && ProperRun(Start(), steps) && r in StateAt(steps, n).h.done
    ensures k < n && r !in StateAt(steps, k).h.done && r in StateAt(steps, k + 1).h.done
    ensures MayPlease(StateAt(steps, k), steps[k].0, steps[k].1, r)
    decreases n
  {
    hide ProperRun, StateAt, MayPlease;
    if n == 0 {
      StateZero(steps);
    } else {
      StateFollows(steps, n - 1);
      if r in StateAt(steps, n - 1).h.done { k := WhyDone(steps, n - 1, r); } else { k := n - 1; }
    }
  }

  lemma {:induction false} WhyAsked(steps: seq<(World, Event)>, n: nat, p: Rpc) returns (k: nat)
    requires n <= |steps| && ProperRun(Start(), steps) && p in StateAt(steps, n).out.rpcs
    ensures k < n && MayAsk(StateAt(steps, k), steps[k].0, steps[k].1, p)
    decreases n
  {
    hide ProperRun, StateAt, MayAsk;
    if n == 0 {
      StateZero(steps);
    } else {
      StateFollows(steps, n - 1);
      if p in StateAt(steps, n - 1).out.rpcs { k := WhyAsked(steps, n - 1, p); } else { k := n - 1; }
    }
  }

  lemma {:induction false} WhyStored(steps: seq<(World, Event)>, n: nat, p: Store) returns (k: nat)
    requires n <= |steps| && ProperRun(Start(), steps) && p in StateAt(steps, n).out.stores
    ensures k < n && MayStore(StateAt(steps, k), steps[k].0, steps[k].1, p)
    decreases n
  {
    hide ProperRun, StateAt, MayStore;
    if n == 0 {
      StateZero(steps);
    } else {
      StateFollows(steps, n - 1);
      if p in StateAt(steps, n - 1).out.stores { k := WhyStored(steps, n - 1, p); } else { k := n - 1; }
    }
  }

  lemma {:induction false} WhyHeld(steps: seq<(World, Event)>, n: nat, r: nat) returns (k: nat)
    requires n <= |steps| && ProperRun(Start(), steps) && StateAt(steps, n).certStored == Some(r)
    ensures k < n && exists used :: MainSays(StateAt(steps, k), steps[k].1, CertFile, r, true, used)
    decreases n
  {
    hide ProperRun, StateAt, MainSays;
    if n == 0 {
      StateZero(steps);
    } else {
      StateFollows(steps, n - 1);
      if StateAt(steps, n - 1).certStored == Some(r) { k := WhyHeld(steps, n - 1, r); } else { k := n - 1; }
    }
  }

  // What the outside said in a step.

  ghost predicate RouterSaid(steps: seq<(World, Event)>, k: nat, kind: RpcKind, r: nat, ok: bool, next: bool) {
    k < |steps| && RouterSays(StateAt(steps, k), steps[k].1, kind, r, ok, next)
  }

  ghost predicate MainSaid(steps: seq<(World, Event)>, k: nat, kind: StoreKind, r: nat, ok: bool) {
    k < |steps| && exists used :: MainSays(StateAt(steps, k), steps[k].1, kind, r, ok, used)
  }

  ghost predicate InitSaid(steps: seq<(World, Event)>, k: nat, used: bool) {
    k < |steps| && InitSays(StateAt(steps, k), steps[k].1, used)
  }

  ghost predicate Refusal(steps: seq<(World, Event)>, k: nat, r: nat) { k < |steps| && steps[k].0.choose(r) == Refused }

  ghost predicate Reported(steps: seq<(World, Event)>, k: nat) { k < |steps| && Reports(StateAt(steps, k), steps[k].1) }

  /** Main has nothing of that kind, or answers it in this step. */
  ghost predicate NoneAtMain(steps: seq<(World, Event)>, k: nat, kind: StoreKind) {
    k < |steps| && forall r :: Store(kind, r) in StateAt(steps, k).out.stores ==> exists ok :: MainSaid(steps, k, kind, r, ok)
  }

  ghost predicate Idle(steps: seq<(World, Event)>, k: nat) {
    && NoneAtMain(steps, k, ConfFile) && NoneAtMain(steps, k, CertFile) && NoneAtMain(steps, k, CertGone)
    && NoneAtMain(steps, k, ScriptFile) && NoneAtMain(steps, k, ScriptGone)
  }

  /** The router took the configuration in an earlier step. */
  ghost predicate Taken(steps: seq<(World, Event)>, k: nat, r: nat) { exists j: nat :: j < k && RouterSaid(steps, j, ConfRpc, r, true, true) }

  /** Main had stored the bundle in an earlier step. */
  ghost predicate BundleStored(steps: seq<(World, Event)>, k: nat, r: nat) { exists j: nat :: j < k && MainSaid(steps, j, CertFile, r, true) }

  /** Nothing has to be sent to the router for the bundle that is stored, or it cannot be sent. */
  ghost predicate NotSent(steps: seq<(World, Event)>, k: nat, used: bool) {
    k < |steps| && !(used && RouterThere(StateAt(steps, k), steps[k].1) && steps[k].0.sends)
  }

  /** What has come about when a request of each kind is answered in step k. */
  ghost predicate Due(steps: seq<(World, Event)>, k: nat, kind: Kind, r: nat) {
    k < |steps| &&
    match kind
    case Plain => true
    case CertGet => NoneAtMain(steps, k, CertFile) && NoneAtMain(steps, k, CertGone)
    case ScriptGet => NoneAtMain(steps, k, ScriptFile) && NoneAtMain(steps, k, ScriptGone)
    case Config =>
      || Refusal(steps, k, r)
      || (exists ok, next :: RouterSaid(steps, k, ConfRpc, r, ok, next) && !(ok && next))
      || ((exists ok :: MainSaid(steps, k, ConfFile, r, ok)) && Taken(steps, k, r))
    case Status =>
      Refusal(steps, k, r) || Reported(steps, k) || (exists next :: RouterSaid(steps, k, StatusRpc, r, false, next))
    case Root =>
      || Refusal(steps, k, r) || (Reported(steps, k) && Idle(steps, k))
      || (exists next :: RouterSaid(steps, k, StatusRpc, r, false, next))
    case Restart => Refusal(steps, k, r) || (exists ok, next :: RouterSaid(steps, k, RestartRpc, r, ok, next))
    case CertPut =>
      || steps[k].0.choose(r) != UnderWay
      || MainSaid(steps, k, CertFile, r, false)
      || (exists used :: MainSays(StateAt(steps, k), steps[k].1, CertFile, r, true, used) && NotSent(steps, k, used))
      || (exists used :: InitSaid(steps, k, used) && NotSent(steps, k, used) && BundleStored(steps, k, r))
      || (exists ok, next :: RouterSaid(steps, k, CertApplyRpc, r, ok, next) && BundleStored(steps, k, r))
    case CertDelete => Refusal(steps, k, r) || (exists ok :: MainSaid(steps, k, CertGone, r, ok))
    case ScriptPut => Refusal(steps, k, r) || (exists ok :: MainSaid(steps, k, ScriptFile, r, ok))
    case ScriptDelete => Refusal(steps, k, r) || (exists ok :: MainSaid(steps, k, ScriptGone, r, ok))
  }

  /** What has come about when a change is answered with success. */
  ghost predicate Earned(steps: seq<(World, Event)>, k: nat, kind: Kind, r: nat) {
    k < |steps| &&
    match kind
    case Config => MainSaid(steps, k, ConfFile, r, true) && Taken(steps, k, r)
    case Restart => exists next :: RouterSaid(steps, k, RestartRpc, r, true, next)
    case CertPut =>
      || steps[k].0.choose(r) == Unchanged
      || (exists used :: MainSays(StateAt(steps, k), steps[k].1, CertFile, r, true, used)
            && !(used && RouterThere(StateAt(steps, k), steps[k].1)))
      || (exists used :: InitSaid(steps, k, used) && !(used && RouterThere(StateAt(steps, k), steps[k].1)) && BundleStored(steps, k, r))
      || (exists next :: RouterSaid(steps, k, CertApplyRpc, r, true, next) && BundleStored(steps, k, r))
    case CertDelete => MainSaid(steps, k, CertGone, r, true)
    case ScriptPut => MainSaid(steps, k, ScriptFile, r, true)
    case ScriptDelete => MainSaid(steps, k, ScriptGone, r, true)
    case Status => Reported(steps, k)
    case Root => Reported(steps, k) && Idle(steps, k)
    case _ => true
  }

  /** Main's answer to a configuration comes after the router's. */
  lemma ConfBefore(steps: seq<(World, Event)>, k: nat, r: nat, ok: bool)
    requires ProperRun(Start(), steps) && MainSaid(steps, k, ConfFile, r, ok)
    ensures Taken(steps, k, r)
  {
    hide ProperRun, StateAt, RouterSays;
    var j := WhyStored(steps, k, Store(ConfFile, r));
    assert RouterSaid(steps, j, ConfRpc, r, true, true);
  }

  /** A bundle waits for the first configuration, or is with the router, after main stored it. */
  lemma HeldBefore(steps: seq<(World, Event)>, k: nat, r: nat)
    requires k <= |steps| && ProperRun(Start(), steps) && StateAt(steps, k).certStored == Some(r)
    ensures BundleStored(steps, k, r)
  {
    hide ProperRun, StateAt, MainSays;
    var j := WhyHeld(steps, k, r);
    assert MainSaid(steps, j, CertFile, r, true);
  }

  lemma AppliedBefore(steps: seq<(World, Event)>, k: nat, r: nat)
    requires k <= |steps| && ProperRun(Start(), steps) && RequestRpc(CertApplyRpc, r) in StateAt(steps, k).out.rpcs
    ensures BundleStored(steps, k, r)
  {
    hide ProperRun, StateAt, MainSays, InitSays;
    var i := WhyAsked(steps, k, RequestRpc(CertApplyRpc, r));
    if MainSays(StateAt(steps, i), steps[i].1, CertFile, r, true, true) {
      assert MainSaid(steps, i, CertFile, r, true);
    } else {
      HeldBefore(steps, i, r);
      var j: nat :| j < i && MainSaid(steps, j, CertFile, r, true);
      assert j < k;
    }
  }

  lemma FlagsSay(s: Controller, e: Event, kind: StoreKind, r: nat)
    requires Inv(s) && Store(kind, r) in s.out.stores && !Storing(FlagsAfter(s, e), kind)
    ensures exists ok, used :: MainSays(s, e, kind, r, ok, used)
  {
    assert Storing(s.flags, kind);
    assert MainSays(s, e, kind, r, e.ok, e.used);
  }

  lemma NoneLeft(steps: seq<(World, Event)>, k: nat, kind: StoreKind)
    requires k < |steps| && ProperRun(Start(), steps) && !Storing(FlagsAfter(StateAt(steps, k), steps[k].1), kind)
    ensures NoneAtMain(steps, k, kind)
  {
    hide ProperRun, StateAt, Inv, Storing, FlagsAfter, MainSays;
    StateNext(steps, k);
    forall r | Store(kind, r) in StateAt(steps, k).out.stores ensures exists ok :: MainSaid(steps, k, kind, r, ok) {
      FlagsSay(StateAt(steps, k), steps[k].1, kind, r);
      var ok, used :| MainSays(StateAt(steps, k), steps[k].1, kind, r, ok, used);
      assert MainSaid(steps, k, kind, r, ok);
    }
  }

  lemma AllLeft(steps: seq<(World, Event)>, k: nat)
    requires k < |steps| && ProperRun(Start(), steps) && !StoreInFlight(FlagsAfter(StateAt(steps, k), steps[k].1))
    ensures Idle(steps, k)
  {
    hide ProperRun, StateAt, FlagsAfter, NoneAtMain;
    NoneLeft(steps, k, ConfFile);
    NoneLeft(steps, k, CertFile);
    NoneLeft(steps, k, CertGone);
    NoneLeft(steps, k, ScriptFile);
    NoneLeft(steps, k, ScriptGone);
  }

  lemma FreeIsDue(steps: seq<(World, Event)>, k: nat, r: nat)
    requires k < |steps| && ProperRun(Start(), steps)
    requires Free(steps[k].0, FlagsAfter(StateAt(steps, k), steps[k].1), r, Reports(StateAt(steps, k), steps[k].1))
    ensures Due(steps, k, KindOf(steps[k].0, r), r)
    ensures steps[k].0.choose(r) != Refused ==> Earned(steps, k, KindOf(steps[k].0, r), r)
  {
    hide ProperRun, StateAt, FlagsAfter, NoneAtMain, Reports, StoreInFlight, RouterSays, MainSays, InitSays, Idle;
    var f := FlagsAfter(StateAt(steps, k), steps[k].1);
    if !StoreInFlight(f) { AllLeft(steps, k); }
    if !Storing(f, CertFile) { NoneLeft(steps, k, CertFile); }
    if !Storing(f, CertGone) { NoneLeft(steps, k, CertGone); }
    if !Storing(f, ScriptFile) { NoneLeft(steps, k, ScriptFile); }
    if !Storing(f, ScriptGone) { NoneLeft(steps, k, ScriptGone); }
  }

  lemma RouterIsDue(steps: seq<(World, Event)>, k: nat, kind: RpcKind, r: nat, ok: bool, next: bool)
    requires ProperRun(Start(), steps) && RouterSaid(steps, k, kind, r, ok, next) && Fits(StateAt(steps, k), steps[k].0)
    ensures !(kind == StatusRpc && ok) && !(kind == ConfRpc && ok && next) ==> Due(steps, k, KindOf(steps[k].0, r), r)
    ensures ok && (kind == CertApplyRpc || kind == RestartRpc) ==> Earned(steps, k, KindOf(steps[k].0, r), r)
  {
    var s := StateAt(steps, k);
    assert RequestRpc(kind, r) in s.out.rpcs;
    hide ProperRun, StateAt, RouterSays, MainSays, InitSays;
    if kind == CertApplyRpc { AppliedBefore(steps, k, r); }
    if ok { assert RouterSaid(steps, k, kind, r, true, next); } else { assert RouterSaid(steps, k, kind, r, false, next); }
  }

  lemma InitIsDue(steps: seq<(World, Event)>, k: nat, r: nat, used: bool)
    requires ProperRun(Start(), steps) && InitSaid(steps, k, used) && Fits(StateAt(steps, k), steps[k].0)
    requires StateAt(steps, k).certStored == Some(r)
    ensures NotSent(steps, k, used) ==> Due(steps, k, KindOf(steps[k].0, r), r)
    ensures !(used && RouterThere(StateAt(steps, k), steps[k].1)) ==> Earned(steps, k, KindOf(steps[k].0, r), r)
  {
    hide ProperRun, StateAt, RouterSays, MainSays, InitSays, RouterThere;
    HeldBefore(steps, k, r);
  }

  lemma MainIsDue(steps: seq<(World, Event)>, k: nat, kind: StoreKind, r: nat, ok: bool, used: bool)
    requires k < |steps| && ProperRun(Start(), steps) && Fits(StateAt(steps, k), steps[k].0)
    requires MainSays(StateAt(steps, k), steps[k].1, kind, r, ok, used)
    ensures (kind == CertFile && ok ==> NotSent(steps, k, used)) ==> Due(steps, k, KindOf(steps[k].0, r), r)
    ensures ok && (kind == CertFile ==> !(used && RouterThere(StateAt(steps, k), steps[k].1))) ==> Earned(steps, k, KindOf(steps[k].0, r), r)
  {
    assert Store(kind, r) in StateAt(steps, k).out.stores;
    hide ProperRun, StateAt, RouterSays, MainSays, InitSays, RouterThere;
    if ok { assert MainSaid(steps, k, kind, r, true); } else { assert MainSaid(steps, k, kind, r, false); }
    if kind == ConfFile { ConfBefore(steps, k, r, ok); }
  }

  lemma MayIsDue(steps: seq<(World, Event)>, k: nat, r: nat)
    requires k < |steps| && ProperRun(Start(), steps) && Fits(StateAt(steps, k), steps[k].0)
    requires MayAnswer(StateAt(steps, k), steps[k].0, steps[k].1, r)
    ensures Due(steps, k, KindOf(steps[k].0, r), r)
  {
    hide ProperRun, StateAt, RouterSays, MainSays, InitSays, Free, Fits, Due, FlagsAfter, Reports, RouterThere, KindOf;
    var s, w, e := StateAt(steps, k), steps[k].0, steps[k].1;
    if Free(w, FlagsAfter(s, e), r, Reports(s, e)) {
      FreeIsDue(steps, k, r);
    } else if kind, ok, next :| RouterSays(s, e, kind, r, ok, next) && !(kind == StatusRpc && ok) && !(kind == ConfRpc && ok && next) {
      RouterIsDue(steps, k, kind, r, ok, next);
    } else if used :| InitSays(s, e, used) && s.certStored == Some(r) && !(used && RouterThere(s, e) && w.sends) {
      InitIsDue(steps, k, r, used);
    } else {
      var kind, ok, used :| MainSays(s, e, kind, r, ok, used)
          && (kind == CertFile && ok ==> !s.flags.initConf && !(used && RouterThere(s, e) && w.sends));
      MainIsDue(steps, k, kind, r, ok, used);
    }
  }

  lemma MayIsEarned(steps: seq<(World, Event)>, k: nat, r: nat)
    requires k < |steps| && ProperRun(Start(), steps) && Fits(StateAt(steps, k), steps[k].0)
    requires MayPlease(StateAt(steps, k), steps[k].0, steps[k].1, r)
    ensures Earned(steps, k, KindOf(steps[k].0, r), r)
  {
    hide ProperRun, StateAt, RouterSays, MainSays, InitSays, Free, Fits, Earned, FlagsAfter, Reports, RouterThere, KindOf;
    var s, w, e := StateAt(steps, k), steps[k].0, steps[k].1;
    if Free(w, FlagsAfter(s, e), r, Reports(s, e)) && w.choose(r) != Refused {
      FreeIsDue(steps, k, r);
    } else if kind, next :| RouterSays(s, e, kind, r, true, next) && (kind == CertApplyRpc || kind == RestartRpc) {
      RouterIsDue(steps, k, kind, r, true, next);
    } else if used :| InitSays(s, e, used) && s.certStored == Some(r) && !(used && RouterThere(s, e)) {
      InitIsDue(steps, k, r, used);
    } else {
      var kind, used :| MainSays(s, e, kind, r, true, used)
          && (kind == CertFile ==> !s.flags.initConf && !(used && RouterThere(s, e)));
      MainIsDue(steps, k, kind, r, true, used);
    }
  }

  lemma KindStays(w: World, w': World, r: nat)
    requires w'.kinds == w.kinds
    ensures KindOf(w', r) == KindOf(w, r)
  {
  }

  /** In every run, every answered request was answered in a step in which that was due. */
  lemma AnsweredWhenDue(steps: seq<(World, Event)>, w: World, r: nat) returns (k: nat)
    requires ProperRun(Start(), steps) && Steady(steps, w.kinds) && r in RunOf(Start(), steps).h.answered
    ensures AnsweredIn(steps, k, r) && Due(steps, k, KindOf(w, r), r)
  {
    assert steps[..|steps|] == steps;
    k := WhyAnswered(steps, |steps|, r);
    hide ProperRun, StateAt, MayAnswer, Fits, RunOf, Due;
    StateFits(steps, k, w);
    SameKinds(StateAt(steps, k), w, steps[k].0);
    KindStays(w, steps[k].0, r);
    MayIsDue(steps, k, r);
  }

  /** In every run, a request was answered with success only in a step in which that was earned. */
  lemma DoneWhenEarned(steps: seq<(World, Event)>, w: World, r: nat) returns (k: nat)
    requires ProperRun(Start(), steps) && Steady(steps, w.kinds) && r in RunOf(Start(), steps).h.done
    ensures k < |steps| && r !in StateAt(steps, k).h.done && r in StateAt(steps, k + 1).h.done && Earned(steps, k, KindOf(w, r), r)
  {
    assert steps[..|steps|] == steps;
    k := WhyDone(steps, |steps|, r);
    hide ProperRun, StateAt, MayPlease, Fits, RunOf, Earned;
    StateFits(steps, k, w);
    SameKinds(StateAt(steps, k), w, steps[k].0);
    KindStays(w, steps[k].0, r);
    MayIsEarned(steps, k, r);
  }

  // What the outside says is passed on at once.

  lemma FlushKeepsAnswers(s: Controller, w: World, status: bool, r: nat)
    requires r in s.h.answered
    ensures r in Flush(s, w, status).h.answered && (r in s.h.done ==> r in Flush(s, w, status).h.done)
  {
    hide Flush, Free, Storing, Messages;
    FlushDoes(s, w, status);
  }

  /** Main's answer to a store ends the request, with success if the store succeeded; a stored bundle goes on. */
  lemma MainIsPassedOn(s: Controller, w: World, i: nat, ok: bool, used: bool)
    requires i < |s.out.stores| && !(s.out.stores[i].kind == CertFile && ok)
    ensures var s', r := StoreReply(s, w, i, ok, used), s.out.stores[i].req;
            r in s'.h.answered && (ok ==> r in s'.h.done)
  {
    hide Flush;
    var store := s.out.stores[i];
    FlushKeepsAnswers(Answer(LogEnded(WithoutStore(s, i), store.kind, store.req, ok), store.req, ok), w, false, store.req);
  }

  /** The router's answer ends a restart, a failed status request and a configuration that is not stored; the other is stored. */
  lemma RouterIsPassedOn(s: Controller, w: World, i: nat, ok: bool, next: bool)
    requires i < |s.out.rpcs| && s.out.rpcs[i].RequestRpc?
    ensures var s', kind, r := RpcReply(s, w, i, ok, next), s.out.rpcs[i].kind, s.out.rpcs[i].req;
            && (kind == RestartRpc || kind == CertApplyRpc ==> r in s'.h.answered && (ok ==> r in s'.h.done))
            && (kind == StatusRpc && !ok ==> r in s'.h.answered)
            && (kind == ConfRpc && !(ok && next) ==> r in s'.h.answered)
            && (kind == ConfRpc && ok && next ==> Store(ConfFile, r) in s'.out.stores && s'.flags.confStoring)
  {
    hide Flush, Unlink;
    var kind, r := s.out.rpcs[i].kind, s.out.rpcs[i].req;
    var s1 := WithoutRpc(s, i);
    var s2 := s1.(waiting := Unlink(s1.waiting, r));
    FlushKeepsAnswers(Answer(s2, r, false), w, false, r);
    FlushKeepsAnswers(Answer(s2, r, ok), w, false, r);
    FlushKeepsAnswers(Answer(Log(s2, ApplyEnded(r)), r, ok), w, false, r);
  }
}
