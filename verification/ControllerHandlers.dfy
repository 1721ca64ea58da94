/** The handlers of src/nxt_controller.c on its static variables; each is a step of the machine in Controller. */
module ControllerHandlers {
  import opened Bytes
  import opened Controller
  import opened Links
  import Runs = ControllerRuns

  class Handlers {
    var waiting: seq<nat>
    var confStoring: bool
    var certStoring: bool
    var certDeleting: bool
    var scriptStoring: bool
    var scriptDeleting: bool
    var waitingInitConf: bool
    var routerReady: bool
    var routerPort: bool
    var certStored: Option<nat>
    var out: Outside
    var history: History

    constructor ()
      ensures Value() == Runs.Start()
    {
      waiting, certStored := [], None;
      confStoring, certStoring, certDeleting, scriptStoring, scriptDeleting := false, false, false, false, false;
      waitingInitConf, routerReady, routerPort := false, false, false;
      out, history := Outside([], []), History({}, [], {}, false, []);
    }

    function FlagsNow(): Flags
      reads this
    {
      Flags(confStoring, certStoring, certDeleting, scriptStoring, scriptDeleting, waitingInitConf, routerReady, routerPort)
    }

    function Value(): Controller
      reads this
    {
      Controller(waiting, FlagsNow(), certStored, out, history)
    }

    method CheckPostpone() returns (postpone: bool)
      ensures postpone == Postpones(Value())
    {
      if waiting != [] || StoreInFlight(FlagsNow()) || waitingInitConf || !routerReady { return true; }
      return !routerPort;
    }

    method Respond(r: nat, ok: bool)
      modifies this`history
      ensures Value() == Answer(old(Value()), r, ok)
    {
      history := history.(answered := history.answered + [r]);
      if ok { history := history.(done := history.done + {r}); }
    }

    method InsertTail(r: nat)
      modifies this`waiting
      ensures Value() == Wait(old(Value()), r)
    {
      waiting := waiting + [r];
    }

    /** The message goes first; the request is put at the head of the queue when it was sent. */
    method WriteToRouter(kind: RpcKind, r: nat)
      modifies this`waiting, this`out
      ensures Value() == Send(old(Value()), kind, r)
    {
      out := out.(rpcs := out.rpcs + [RequestRpc(kind, r)]);
      waiting := [r] + waiting;
    }

    method SetFlag(kind: StoreKind, on: bool)
      modifies this`confStoring, this`certStoring, this`certDeleting, this`scriptStoring, this`scriptDeleting
      ensures FlagsNow() == SetStoring(old(FlagsNow()), kind, on)
    {
      match kind
      case ConfFile => confStoring := on;
      case CertFile => certStoring := on;
      case CertGone => certDeleting := on;
      case ScriptFile => scriptStoring := on;
      case ScriptGone => scriptDeleting := on;
    }

    method Note(e: CertEntry)
      modifies this`history
      ensures Value() == Log(old(Value()), e)
    {
      history := history.(certs := history.certs + [e]);
    }

    method WriteToMain(kind: StoreKind, r: nat)
      modifies this
      ensures Value() == StartStore(old(Value()), kind, r)
    {
      SetFlag(kind, true);
      out := out.(stores := out.stores + [Store(kind, r)]);
      if kind == CertFile {
        Note(StoreBegan(r));
      } else if kind == CertGone {
        Note(DeleteBegan(r));
      }
    }

    method Start(k: Kind, r: nat, choice: Choice)
      modifies this
      ensures Value() == Run(old(Value()), k, r, choice)
    {
      if choice == Refused {
        Respond(r, false);
        return;
      }
      if choice == Unchanged && k == CertPut {
        Respond(r, true);
        return;
      }
      match k
      case Config => WriteToRouter(ConfRpc, r);
      case Status => WriteToRouter(StatusRpc, r);
      case Root => WriteToRouter(StatusRpc, r);
      case Restart => WriteToRouter(RestartRpc, r);
      case CertPut => WriteToMain(CertFile, r);
      case CertDelete => WriteToMain(CertGone, r);
      case ScriptPut => WriteToMain(ScriptFile, r);
      case ScriptDelete => WriteToMain(ScriptGone, r);
      case Plain => Respond(r, true);
      case CertGet => Respond(r, true);
      case ScriptGet => Respond(r, true);
    }

    method PostponeOrStart(w: World, k: Kind, r: nat)
      modifies this
      ensures Value() == if Postpones(old(Value())) then Wait(old(Value()), r) else Run(old(Value()), k, r, w.choose(r))
    {
      var postpone := CheckPostpone();
      if postpone { InsertTail(r); } else { Start(k, r, w.choose(r)); }
    }

    method ProcessRequest(w: World, r: nat, status: bool)
      modifies this
      ensures Value() == Process(old(Value()), w, r, status)
    {
      hide Run, Postpones, Answer, Wait, Involved, KindOf;
      history := history.(replayed := history.replayed || Involved(out, r));
      var k, found := KindOf(w, r), w.choose(r) != Refused;
      match k {
        case Plain => Respond(r, found);
        case CertGet => if certStoring || certDeleting { InsertTail(r); } else { Respond(r, found); }
        case ScriptGet => if scriptStoring || scriptDeleting { InsertTail(r); } else { Respond(r, found); }
        case Root =>
          if StoreInFlight(FlagsNow()) { InsertTail(r); }
          else if status { Respond(r, found); }
          else { PostponeOrStart(w, k, r); }
        case Status => if status { Respond(r, found); } else { PostponeOrStart(w, k, r); }
        case _ => PostponeOrStart(w, k, r);
      }
    }

    method FlushRequests(w: World, status: bool)
      modifies this
      ensures Value() == Flush(old(Value()), w, status)
    {
      hide Process;
      var queue := waiting;
      waiting := [];
      assert queue[0..] == queue;
      for i := 0 to |queue|
        invariant ProcessAll(Value(), w, queue[i..], status) == Flush(old(Value()), w, status)
      {
        assert queue[i..][1..] == queue[i + 1..];
        ProcessRequest(w, queue[i], status);
      }
    }

    method RemoveFromQueue(r: nat)
      modifies this`waiting
      ensures Value() == old(Value()).(waiting := Unlink(old(waiting), r))
    {
      hide Unlink;
      var queue := waiting;
      assert queue[..0] + queue[0..] == queue;
      assert queue[..0] + Unlink(queue[0..], r) == Unlink(queue, r) by { assert queue[0..] == queue; }
      for i := 0 to |queue|
        invariant waiting == queue && queue[..i] + Unlink(queue[i..], r) == Unlink(queue, r)
      {
        UnlinkStep(queue, i, r);
        if queue[i] == r {
          waiting := queue[..i] + queue[i + 1..];
          return;
        }
      }
      UnlinkEnd(queue, r);
    }

    method SendConf(w: World, sent: bool)
      modifies this
      ensures Value() == SendCurrentConf(old(Value()), w, sent)
    {
      hide Flush;
      if sent {
        out := out.(rpcs := out.rpcs + [InitConf]);
        waitingInitConf := true;
        return;
      }
      FlushRequests(w, false);
    }

    method ApplyCert(w: World, r: nat, used: bool)
      modifies this
      ensures Value() == CertApply(old(Value()), w, r, used)
    {
      hide Flush;
      var ok := true;
      if used && routerReady && routerPort {
        if w.sends {
          WriteToRouter(CertApplyRpc, r);
          return;
        }
        ok := false;
      }
      Note(ApplyEnded(r));
      Respond(r, ok);
      FlushRequests(w, false);
    }

    /** The step of the machine for the answer to the first configuration; nothing waits for it afterwards. */
    method OnInitConf(w: World, i: nat, ok: bool, apply: bool)
      requires i < |out.rpcs| && out.rpcs[i] == InitConf
      modifies this
      ensures Value() == RpcReply(old(Value()), w, i, ok, apply)
      ensures certStored == None && !waitingInitConf
      ensures Runs.Inv(old(Value())) ==> Runs.Inv(Value())
    {
      hide Flush, CertApply, Runs.Inv;
      Runs.InitReplySettles(Value(), w, i, ok, apply);
      if Runs.Inv(Value()) { Runs.RpcReplyKeeps(Value(), w, i, ok, apply); }
      out := out.(rpcs := out.rpcs[..i] + out.rpcs[i + 1..]);
      waitingInitConf := false;
      var store := certStored;
      if store.Some? {
        certStored := None;
        ApplyCert(w, store.value, apply);
        return;
      }
      FlushRequests(w, false);
    }

    /** The handlers of the router's answers. */
    method OnRouter(w: World, i: nat, ok: bool, next: bool)
      requires i < |out.rpcs|
      modifies this
      ensures Value() == RpcReply(old(Value()), w, i, ok, next)
    {
      hide Flush, CertApply, Unlink;
      var rpc := out.rpcs[i];
      match rpc
      case InitConf => OnInitConf(w, i, ok, next);
      case RequestRpc(kind, r) =>
        out := out.(rpcs := out.rpcs[..i] + out.rpcs[i + 1..]);
        if kind == StatusRpc {
          if !ok {
            RemoveFromQueue(r);
            Respond(r, false);
          }
          FlushRequests(w, ok);
          return;
        }
        RemoveFromQueue(r);
        if kind == ConfRpc && ok && next {
          WriteToMain(ConfFile, r);
          return;
        }
        if kind == CertApplyRpc { Note(ApplyEnded(r)); }
        Respond(r, ok && kind != ConfRpc);
        FlushRequests(w, false);
    }

    /** The handlers of main's answers. */
    method OnMain(w: World, i: nat, ok: bool, apply: bool)
      requires i < |out.stores|
      modifies this
      ensures Value() == StoreReply(old(Value()), w, i, ok, apply)
    {
      hide Flush, CertApply;
      var store := out.stores[i];
      out := out.(stores := out.stores[..i] + out.stores[i + 1..]);
      SetFlag(store.kind, false);
      if store.kind == CertFile {
        Note(StoreEnded(store.req, ok));
      } else if store.kind == CertGone {
        Note(DeleteEnded(store.req, ok));
      }
      if store.kind == CertFile && ok {
        if waitingInitConf {
          certStored := Some(store.req);
          return;
        }
        ApplyCert(w, store.req, apply);
        return;
      }
      Respond(store.req, ok);
      FlushRequests(w, false);
    }

    method OnRouterDeath(w: World)
      modifies this
      ensures Value() == Next(old(Value()), w, RouterDeath)
    {
      hide RpcReply;
      routerReady, routerPort := false, false;
      var n: nat := |out.rpcs|;
      ghost var all := FailAll(Value(), w, n);
      while n > 0 && out.rpcs != []
        invariant FailAll(Value(), w, n) == all
        decreases n
      {
        OnRouter(w, 0, false, false);
        n := n - 1;
      }
    }

    /** Every handler is a step of the machine, and keeps what every run of it keeps. */
    method Handle(w: World, e: Event)
      modifies this
      ensures Value() == Next(old(Value()), w, e)
      ensures Runs.Inv(old(Value())) && Runs.Proper(old(Value()), e) ==> Runs.Inv(Value())
    {
      hide Runs.Inv, Runs.Proper, Process, SendCurrentConf, FailAll, RpcReply, StoreReply;
      if Runs.Inv(Value()) && Runs.Proper(Value(), e) { Runs.NextKeeps(Value(), w, e); }
      match e
      case Request(r) =>
        if r !in history.arrived {
          history := history.(arrived := history.arrived + {r});
          ProcessRequest(w, r, false);
        }
      case NewPort(sent) =>
        routerPort := true;
        if routerReady { SendConf(w, sent); }
      case RouterReady(sent) =>
        routerReady := true;
        if routerPort { SendConf(w, sent); }
      case RouterDeath => OnRouterDeath(w);
      case RouterAnswers(i, ok, next) => if i < |out.rpcs| { OnRouter(w, i, ok, next); }
      case MainAnswers(i, ok, apply) => if i < |out.stores| { OnMain(w, i, ok, apply); }
    }
  }

  lemma UnlinkStep(queue: seq<nat>, i: nat, r: nat)
    requires i < |queue|
    ensures queue[..i] + Unlink(queue[i..], r)
         == if queue[i] == r then queue[..i] + queue[i + 1..] else queue[..i + 1] + Unlink(queue[i + 1..], r)
  {
    assert queue[i..][1..] == queue[i + 1..];
    if queue[i] != r { assert queue[..i] + ([queue[i]] + Unlink(queue[i + 1..], r)) == queue[..i + 1] + Unlink(queue[i + 1..], r); }
  }

  lemma UnlinkEnd(queue: seq<nat>, r: nat)
    ensures queue[..|queue|] + Unlink(queue[|queue|..], r) == queue
  {
  }
}
