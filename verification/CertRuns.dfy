/**
  Certificate bundles along a run of the controller: the postponement of requests keeps one bundle in flight
  at a time, so the metadata can be trusted whenever a request need not wait.
 */
module CertRuns {
  import opened Bytes
  import opened Controller
  import opened ControllerRuns
  import opened Links
  import Certs = CertStore

  /** The request whose bundle is in flight. */
  datatype Flight = Nothing | Storing(r: nat) | Applying(r: nat) | Deleting(r: nat)

  /** One entry of the log; None when it does not fit what is in flight. */
  function After(f: Flight, e: CertEntry): Option<Flight> {
    match e
    case StoreBegan(r) => if f == Nothing then Some(Storing(r)) else None
    case StoreEnded(r, ok) => if f == Storing(r) then Some(if ok then Applying(r) else Nothing) else None
    case ApplyEnded(r) => if f == Applying(r) then Some(Nothing) else None
    case DeleteBegan(r) => if f == Nothing then Some(Deleting(r)) else None
    case DeleteEnded(r, _) => if f == Deleting(r) then Some(Nothing) else None
  }

  function FlightOf(log: seq<CertEntry>): Option<Flight> {
    if log == [] then Some(Nothing)
    else
      var f := FlightOf(log[..|log| - 1]);
      if f.None? then None else After(f.value, log[|log| - 1])
  }

  /** What is outstanding for a bundle: at main, stored and waiting for the router, or at the router. */
  function Outstanding(s: Controller): Flight {
    if s.out.stores != [] && s.out.stores[0].kind == CertFile then Storing(s.out.stores[0].req)
    else if s.out.stores != [] && s.out.stores[0].kind == CertGone then Deleting(s.out.stores[0].req)
    else if s.certStored.Some? then Applying(s.certStored.value)
    else if s.out.rpcs != [] && s.out.rpcs[0].RequestRpc? && s.out.rpcs[0].kind == CertApplyRpc then Applying(s.out.rpcs[0].req)
    else Nothing
  }

  ghost predicate Logged(s: Controller) { FlightOf(s.h.certs) == Some(Outstanding(s)) }

  lemma OneMore(log: seq<CertEntry>, e: CertEntry)
    ensures FlightOf(log + [e]) == if FlightOf(log).None? then None else After(FlightOf(log).value, e)
  {
    assert (log + [e])[..|log|] == log;
  }

  /** Neither the log nor what is outstanding for a bundle is different. */
  predicate SameFlight(s: Controller, s': Controller) { s'.h.certs == s.h.certs && Outstanding(s') == Outstanding(s) }

  // The steps.

  ghost predicate Idle(s: Controller) { s.out.rpcs == [] && s.out.stores == [] && s.certStored == None }

  lemma SendLogged(s: Controller, kind: RpcKind, r: nat)
    requires Idle(s) && Logged(s) && kind != CertApplyRpc
    ensures Logged(Send(s, kind, r)) && forall ok :: Logged(Answer(s, r, ok))
  {
    hide FlightOf;
  }

  lemma StartStoreLogged(s: Controller, kind: StoreKind, r: nat)
    requires Idle(s) && Logged(s)
    ensures Logged(StartStore(s, kind, r))
  {
    hide FlightOf;
    OneMore(s.h.certs, StoreBegan(r));
    OneMore(s.h.certs, DeleteBegan(r));
  }

  lemma RunLogged(s: Controller, k: Kind, r: nat, choice: Choice)
    requires Idle(s) && Logged(s)
    ensures Logged(Run(s, k, r, choice))
  {
    hide Idle, Logged, Send, StartStore, Answer;
    SendLogged(s, ConfRpc, r);
    SendLogged(s, StatusRpc, r);
    SendLogged(s, RestartRpc, r);
    StartStoreLogged(s, CertFile, r);
    StartStoreLogged(s, CertGone, r);
    StartStoreLogged(s, ScriptFile, r);
    StartStoreLogged(s, ScriptGone, r);
  }

  lemma ProcessLogged(s: Controller, w: World, r: nat, status: bool)
    requires Inv(s) && Loose(s, r) && Logged(s)
    ensures Logged(Process(s, w, r, status))
  {
    hide Inv, Loose, Run, Postpones, StoreInFlight, KindOf, Involved, FlightOf;
    LooseIsFree(s, r);
    SameHistory(s);
    if !Postpones(s) {
      AllQuiet(s);
      RunLogged(s, KindOf(w, r), r, w.choose(r));
    }
  }

  lemma {:induction false} ProcessAllLogged(s: Controller, w: World, queue: seq<nat>, status: bool)
    requires Inv(s) && AllLoose(s, queue) && Logged(s)
    ensures Logged(ProcessAll(s, w, queue, status))
    decreases |queue|
  {
    hide Inv, Process, Loose, Logged;
    if queue != [] {
      var s' := Process(s, w, queue[0], status);
      assert queue[0] in queue;
      ProcessKeeps(s, w, queue[0], status);
      ProcessLogged(s, w, queue[0], status);
      forall x | x in queue[1..] ensures Loose(s', x) {
        assert x in queue;
        ProcessLeaves(s, w, queue[0], status, x);
      }
      ProcessAllLogged(s', w, queue[1..], status);
    }
  }

  lemma FlushLogged(s: Controller, w: World, status: bool)
    requires CanFlush(s) && Logged(s)
    ensures Logged(Flush(s, w, status))
  {
    var s0 := s.(waiting := []);
    forall r | r in s.waiting ensures Loose(s0, r) { }
    assert Inv(s0);
    hide Inv, OneEach, OnePlace, CanFlush, FlightOf, ProcessAll;
    ProcessAllLogged(s0, w, s.waiting, status);
  }

  lemma AnswerLogged(s: Controller, w: World, r: nat, ok: bool)
    requires CanFlush(s) && Loose(s, r) && Logged(s)
    ensures Logged(Flush(Answer(s, r, ok), w, false))
  {
    hide CanFlush, Loose, Flush, FlightOf;
    AnswerKept(s, r, ok);
    FlushLogged(Answer(s, r, ok), w, false);
  }

  /** The request is done with its bundle. */
  lemma ApplyEnds(s: Controller, w: World, r: nat, ok: bool)
    requires CanFlush(s) && Loose(s, r) && s.out.rpcs == [] && s.out.stores == [] && s.certStored == None
    requires FlightOf(s.h.certs) == Some(Applying(r))
    ensures Logged(Flush(Answer(Log(s, ApplyEnded(r)), r, ok), w, false))
  {
    hide CanFlush, Loose, Flush, FlightOf;
    LogIsSilent(s, ApplyEnded(r), r);
    OneMore(s.h.certs, ApplyEnded(r));
    AnswerLogged(Log(s, ApplyEnded(r)), w, r, ok);
  }

  lemma CertApplyLogged(s: Controller, w: World, r: nat, used: bool)
    requires CanFlush(s) && Loose(s, r) && s.out.rpcs == [] && s.out.stores == [] && s.certStored == None
    requires FlightOf(s.h.certs) == Some(Applying(r))
    ensures Logged(CertApply(s, w, r, used))
  {
    hide CanFlush, Loose, Flush, FlightOf;
    ApplyEnds(s, w, r, !(used && s.flags.ready && s.flags.port));
  }

  /** A request at the router has its answer, or its error. */
  lemma RequestReplyLogged(s: Controller, w: World, kind: RpcKind, r: nat, ok: bool, next: bool)
    requires s.out.rpcs == [RequestRpc(kind, r)] && s.out.stores == [] && s.certStored == None && Logged(s)
    requires var s' := WithoutRpc(s, 0).(waiting := Unlink(s.waiting, r)); CanFlush(s') && Loose(s', r)
    requires ok ==> CanFlush(WithoutRpc(s, 0))
    ensures Logged(RpcReply(s, w, 0, ok, next))
  {
    hide CanFlush, Loose, Flush, FlightOf, Unlink;
    var s1 := WithoutRpc(s, 0);
    assert s1.out.rpcs == [];
    var s' := s1.(waiting := Unlink(s.waiting, r));
    if kind == CertApplyRpc {
      ApplyEnds(s', w, r, ok);
    } else {
      assert Logged(s1) && Logged(s');
      AnswerLogged(s', w, r, ok);
      AnswerLogged(s', w, r, false);
      if ok { FlushLogged(s1, w, true); }
    }
  }

  lemma InitReplyLogged(s: Controller, w: World, ok: bool, next: bool)
    requires s.out.rpcs == [InitConf] && Logged(s) && (s.certStored.Some? ==> s.out.stores == [])
    requires var s2 := s.(flags := s.flags.(initConf := false), out := s.out.(rpcs := []));
             var s3 := s2.(certStored := None);
             && (s2.certStored.Some? ==> CanFlush(s3) && Loose(s3, s2.certStored.value))
             && (s2.certStored == None ==> CanFlush(s2))
    ensures Logged(RpcReply(s, w, 0, ok, next))
  {
    hide CanFlush, Loose, Flush, FlightOf, CertApply;
    assert WithoutRpc(s, 0).out.rpcs == [];
    var s2 := s.(flags := s.flags.(initConf := false), out := s.out.(rpcs := []));
    if s2.certStored.Some? {
      CertApplyLogged(s2.(certStored := None), w, s2.certStored.value, next);
    } else {
      FlushLogged(s2, w, false);
    }
  }

  lemma AtRouterAlone(s: Controller)
    requires Inv(s) && s.out.rpcs != []
    ensures s.out.rpcs[0].RequestRpc? ==>
              s.out.rpcs == [RequestRpc(s.out.rpcs[0].kind, s.out.rpcs[0].req)] && s.out.stores == [] && s.certStored == None
    ensures s.out.rpcs[0].InitConf? ==> s.out.rpcs == [InitConf] && (s.certStored.Some? ==> s.out.stores == [])
  {
  }

  lemma RpcReplyLogged(s: Controller, w: World, i: nat, ok: bool, next: bool)
    requires Inv(s) && Logged(s) && i < |s.out.rpcs|
    ensures Logged(RpcReply(s, w, i, ok, next))
  {
    AtRouterAlone(s);
    hide Inv, Logged, CanFlush, Loose, RpcReply, WithoutRpc;
    if s.out.rpcs[0].InitConf? {
      InitCleared(s, s.(flags := s.flags.(initConf := false), out := s.out.(rpcs := [])));
      InitReplyLogged(s, w, ok, next);
    } else {
      var kind, r := s.out.rpcs[0].kind, s.out.rpcs[0].req;
      RequestReturns(s, r, kind);
      RequestReplyLogged(s, w, kind, r, ok, next);
    }
  }

  lemma DeathLogged(s: Controller, w: World)
    requires Inv(s) && Logged(s)
    ensures Logged(Next(s, w, RouterDeath))
  {
    var gone := s.(flags := s.flags.(ready := false, port := false));
    if s.out.rpcs == [] {
      assert Next(s, w, RouterDeath) == gone;
    } else {
      AtRouterAlone(s);
      assert SameFlight(s, gone);
      assert FailAll(gone, w, 1) == FailAll(RpcReply(gone, w, 0, false, false), w, 0) == RpcReply(gone, w, 0, false, false);
      if s.out.rpcs[0].InitConf? {
        GoneInit(s, gone, gone.(flags := gone.flags.(initConf := false), out := gone.out.(rpcs := [])));
        InitReplyLogged(gone, w, false, false);
      } else {
        var kind, r := s.out.rpcs[0].kind, s.out.rpcs[0].req;
        RequestReturns(s, r, kind);
        GoneRequest(WithoutRpc(s, 0).(waiting := Unlink(s.waiting, r)), WithoutRpc(gone, 0).(waiting := Unlink(gone.waiting, r)), r);
        RequestReplyLogged(gone, w, kind, r, false, false);
      }
    }
  }

  lemma AtMainAlone(s: Controller)
    requires Inv(s) && s.out.stores != []
    ensures s.out.stores == [s.out.stores[0]] && s.certStored == None && (s.out.rpcs == [] || s.out.rpcs == [InitConf])
  {
  }

  lemma StoreReplyLogged(s: Controller, w: World, i: nat, ok: bool, apply: bool)
    requires Inv(s) && Logged(s) && i < |s.out.stores|
    ensures Logged(StoreReply(s, w, i, ok, apply))
  {
    AtMainAlone(s);
    hide Inv, CanFlush, Loose, Flush, CertApply, FlightOf;
    StoreReturns(s, i);
    var kind, r := s.out.stores[0].kind, s.out.stores[0].req;
    LogEndedIsSilent(WithoutStore(s, i), kind, ok, r);
    var s' := LogEnded(WithoutStore(s, i), kind, r, ok);
    OneMore(s.h.certs, StoreEnded(r, ok));
    OneMore(s.h.certs, DeleteEnded(r, ok));
    if kind == CertFile && ok {
      if !s'.flags.initConf { CertApplyLogged(s', w, r, apply); }
    } else {
      AnswerLogged(s', w, r, ok);
    }
  }

  lemma AnnounceLogged(s: Controller, w: World, f: Flags, sent: bool)
    requires Inv(s) && Logged(s) && Quiet(s, sent)
    requires f == s.flags.(ready := true) || f == s.flags.(port := true)
    ensures Logged(Announced(s, w, f, sent))
  {
    var s' := s.(flags := f);
    forall k ensures ControllerRuns.Storing(f, k) <==> ControllerRuns.Storing(s.flags, k) { }
    if f.ready && f.port && !sent {
      assert CanFlush(s');
      FlushLogged(s', w, false);
    }
  }

  lemma NextLogged(s: Controller, w: World, e: Event)
    requires Inv(s) && Proper(s, e) && Logged(s)
    ensures Logged(Next(s, w, e))
  {
    hide Inv, Loose, Process, Announced, FailAll, RpcReply, StoreReply, Quiet, FlightOf;
    match e
    case Request(r) =>
      if r !in s.h.arrived {
        ArriveKeeps(s, r);
        ProcessLogged(s.(h := s.h.(arrived := s.h.arrived + {r})), w, r, false);
      }
    case NewPort(sent) => AnnounceLogged(s, w, s.flags.(port := true), sent);
    case RouterReady(sent) => AnnounceLogged(s, w, s.flags.(ready := true), sent);
    case RouterDeath => DeathLogged(s, w);
    case RouterAnswers(i, ok, next) => if i < |s.out.rpcs| { RpcReplyLogged(s, w, i, ok, next); }
    case MainAnswers(i, ok, apply) => if i < |s.out.stores| { StoreReplyLogged(s, w, i, ok, apply); }
  }

  lemma {:induction false} RunIsLogged(s: Controller, steps: seq<(World, Event)>)
    requires Inv(s) && ProperRun(s, steps) && Logged(s)
    ensures Logged(RunOf(s, steps)) && Inv(RunOf(s, steps))
    decreases |steps|
  {
    hide Inv, Next, Logged, Proper;
    if steps != [] {
      NextKeeps(s, steps[0].0, steps[0].1);
      NextLogged(s, steps[0].0, steps[0].1);
      RunIsLogged(Next(s, steps[0].0, steps[0].1), steps[1..]);
    }
  }

  // The bundles.

  /** What the log says happened; `bundle` has the name and the digest of each request. */
  predicate Matches(e: Certs.Event, c: CertEntry, bundle: nat -> (nat, nat)) {
    match c
    case StoreBegan(r) => e == Certs.Upload(bundle(r).0, bundle(r).1)
    case StoreEnded(_, ok) => if ok then e == Certs.Stored else e.StoreFailed?
    case ApplyEnded(_) => e.Applied? || e == Certs.Settled
    case DeleteBegan(r) => e == Certs.Remove(bundle(r).0)
    case DeleteEnded(_, ok) => e == if ok then Certs.Removed else Certs.RemoveFailed
  }

  ghost predicate AllMatch(events: seq<Certs.Event>, log: seq<CertEntry>, bundle: nat -> (nat, nat)) {
    |events| == |log| && forall i :: 0 <= i < |log| ==> Matches(events[i], log[i], bundle)
  }

  predicate SameKind(f: Flight, g: Certs.Flight) {
    match f
    case Nothing => g == Certs.Nothing
    case Storing(_) => g.Storing?
    case Applying(_) => g.Applying?
    case Deleting(_) => g.Deleting?
  }

  lemma {:induction false} LogFits(s0: Certs.Certs, events: seq<Certs.Event>, log: seq<CertEntry>, bundle: nat -> (nat, nat))
    requires s0.flight == Certs.Nothing && AllMatch(events, log, bundle) && FlightOf(log).Some?
    ensures Certs.FitsRun(s0, events) && SameKind(FlightOf(log).value, Certs.Run(s0, events).flight)
    decreases |log|
  {
    if log != [] {
      var n := |log| - 1;
      LogFits(s0, events[..n], log[..n], bundle);
      assert Matches(events[n], log[n], bundle);
    }
  }

  lemma StartLogged()
    ensures Inv(Start()) && Logged(Start())
  {
    forall k ensures !ControllerRuns.Storing(Start().flags, k) { }
  }

  /**
    Along every run of the controller one bundle is in flight at a time; whatever becomes of each, the metadata
    describes the files, and when a request need not wait, an upload that is equal to the metadata of its
    name is equal to the file of that name.
   */
  lemma CertsAlongController(steps: seq<(World, Event)>, s0: Certs.Certs, events: seq<Certs.Event>, bundle: nat -> (nat, nat),
                             name: nat, digest: nat)
    requires ProperRun(Start(), steps) && Certs.Loaded(s0) && AllMatch(events, RunOf(Start(), steps).h.certs, bundle)
    ensures var c, s := RunOf(Start(), steps), Certs.Run(s0, events);
            && Certs.FitsRun(s0, events) && Certs.Inv(s)
            && SameKind(Outstanding(c), s.flight)
            && (!Postpones(c) ==> s.flight == Certs.Nothing)
            && (!Postpones(c) && Certs.Equal(s, name, digest) ==> name in s.disk && s.disk[name] == digest)
  {
    var c := RunOf(Start(), steps);
    StartLogged();
    hide Inv, RunOf, ProperRun, Certs.Run, Certs.FitsRun, FlightOf, Certs.Inv, Postpones;
    RunIsLogged(Start(), steps);
    LogFits(s0, events, c.h.certs, bundle);
    LoadedInv(s0);
    Certs.RunKeeps(s0, events);
    Certs.EqualUploadIsSafe(s0, events, name, digest);
    if !Postpones(c) { AllQuiet(c); }
  }

  lemma LoadedInv(s0: Certs.Certs)
    requires Certs.Loaded(s0)
    ensures Certs.Inv(s0)
  {
  }
}
