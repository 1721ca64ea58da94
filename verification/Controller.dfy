/**
  The controller of src/nxt_controller.c: requests are answered at once, sent to
  the router, handed to a store child of main, or postponed until a flush runs
  them again.  Handlers run one at a time.

  `rpcs` and `stores` are what the router and main have not answered yet,
  `arrived` are the requests so far, `answered` lists them in the order of their
  answers, `done` are those that were answered with success, `replayed` says whether a request ever ran while its RPC or its store was outstanding, and
  `certs` logs what became of certificate bundles.
 */
module Controller {
  import opened Bytes
  import opened Links

  datatype Kind = Plain | Config | Status | Root | Restart | CertGet | ScriptGet | CertPut | CertDelete | ScriptPut | ScriptDelete

  /** What comes of a request that need not wait: refused or failed, an upload of the bundle that is there, or under way. */
  datatype Choice = Refused | Unchanged | UnderWay

  datatype RpcKind = ConfRpc | StatusRpc | RestartRpc | CertApplyRpc

  datatype Rpc = InitConf | RequestRpc(kind: RpcKind, req: nat)

  datatype StoreKind = ConfFile | CertFile | CertGone | ScriptFile | ScriptGone

  datatype Store = Store(kind: StoreKind, req: nat)

  datatype Flags = Flags(confStoring: bool, certStoring: bool, certDeleting: bool, scriptStoring: bool, scriptDeleting: bool,
                         initConf: bool, ready: bool, port: bool)

  datatype Outside = Outside(rpcs: seq<Rpc>, stores: seq<Store>)

  /** A bundle is handed to main, main answers, the request is done with it; a bundle is removed, main answers. */
  datatype CertEntry = StoreBegan(r: nat) | StoreEnded(r: nat, ok: bool) | ApplyEnded(r: nat) | DeleteBegan(r: nat) | DeleteEnded(r: nat, ok: bool)

  datatype History = History(arrived: set<nat>, answered: seq<nat>, done: set<nat>, replayed: bool, certs: seq<CertEntry>)

  datatype Controller = Controller(waiting: seq<nat>, flags: Flags, certStored: Option<nat>, out: Outside, h: History)

  /** What the requests are, what comes of each when it runs, and whether the configuration can be sent again. */
  datatype World = World(kinds: map<nat, Kind>, choose: nat -> Choice, sends: bool)

  function KindOf(w: World, r: nat): Kind { if r in w.kinds then w.kinds[r] else Plain }

  /** nxt_controller_store_in_flight() */
  predicate StoreInFlight(f: Flags) {
    f.confStoring || f.certStoring || f.certDeleting || f.scriptStoring || f.scriptDeleting
  }

  /** nxt_controller_check_postpone_request() */
  predicate Postpones(s: Controller) {
    s.waiting != [] || StoreInFlight(s.flags) || s.flags.initConf || !s.flags.ready || !s.flags.port
  }

  /** nxt_controller_response(), with success or with an error. */
  function Answer(s: Controller, r: nat, ok: bool): Controller {
    s.(h := s.h.(answered := s.h.answered + [r], done := if ok then s.h.done + {r} else s.h.done))
  }

  function Wait(s: Controller, r: nat): Controller { s.(waiting := s.waiting + [r]) }

  /** A message to the router; its request goes to the head of the queue. */
  function Send(s: Controller, kind: RpcKind, r: nat): Controller {
    s.(waiting := [r] + s.waiting, out := s.out.(rpcs := s.out.rpcs + [RequestRpc(kind, r)]))
  }

  function SetStoring(f: Flags, kind: StoreKind, on: bool): Flags {
    match kind
    case ConfFile => f.(confStoring := on)
    case CertFile => f.(certStoring := on)
    case CertGone => f.(certDeleting := on)
    case ScriptFile => f.(scriptStoring := on)
    case ScriptGone => f.(scriptDeleting := on)
  }

  function Log(s: Controller, e: CertEntry): Controller { s.(h := s.h.(certs := s.h.certs + [e])) }

  function LogBegan(s: Controller, kind: StoreKind, r: nat): Controller {
    match kind
    case CertFile => Log(s, StoreBegan(r))
    case CertGone => Log(s, DeleteBegan(r))
    case _ => s
  }

  function LogEnded(s: Controller, kind: StoreKind, r: nat, ok: bool): Controller {
    match kind
    case CertFile => Log(s, StoreEnded(r, ok))
    case CertGone => Log(s, DeleteEnded(r, ok))
    case _ => s
  }

  /** A message to main; its request is in no queue. */
  function StartStore(s: Controller, kind: StoreKind, r: nat): Controller {
    LogBegan(s.(flags := SetStoring(s.flags, kind, true), out := s.out.(stores := s.out.stores + [Store(kind, r)])), kind, r)
  }

  /** A request that changes something or asks the router, once it need not wait. */
  function Run(s: Controller, k: Kind, r: nat, choice: Choice): Controller {
    if choice == Refused then Answer(s, r, false)
    else if choice == Unchanged && k == CertPut then Answer(s, r, true)
    else match k
      case Config => Send(s, ConfRpc, r)
      case Status => Send(s, StatusRpc, r)
      case Root => Send(s, StatusRpc, r)
      case Restart => Send(s, RestartRpc, r)
      case CertPut => StartStore(s, CertFile, r)
      case CertDelete => StartStore(s, CertGone, r)
      case ScriptPut => StartStore(s, ScriptFile, r)
      case ScriptDelete => StartStore(s, ScriptGone, r)
      case _ => Answer(s, r, true)
  }

  predicate Involved(out: Outside, r: nat) {
    || (exists i :: 0 <= i < |out.rpcs| && out.rpcs[i].RequestRpc? && out.rpcs[i].req == r)
    || (exists i :: 0 <= i < |out.stores| && out.stores[i].req == r)
  }

  /** nxt_controller_process_request(); `status` says that a status report is at hand. */
  function Process(s: Controller, w: World, r: nat, status: bool): Controller {
    var k := KindOf(w, r);
    var s, found := s.(h := s.h.(replayed := s.h.replayed || Involved(s.out, r))), w.choose(r) != Refused;
    match k
    case Plain => Answer(s, r, found)
    case CertGet => if s.flags.certStoring || s.flags.certDeleting then Wait(s, r) else Answer(s, r, found)
    case ScriptGet => if s.flags.scriptStoring || s.flags.scriptDeleting then Wait(s, r) else Answer(s, r, found)
    case Root =>
      if StoreInFlight(s.flags) then Wait(s, r)
      else if status then Answer(s, r, found)
      else if Postpones(s) then Wait(s, r) else Run(s, k, r, w.choose(r))
    case Status =>
      if status then Answer(s, r, found)
      else if Postpones(s) then Wait(s, r) else Run(s, k, r, w.choose(r))
    case _ => if Postpones(s) then Wait(s, r) else Run(s, k, r, w.choose(r))
  }

  /** The loop of nxt_controller_flush_requests(). */
  function ProcessAll(s: Controller, w: World, queue: seq<nat>, status: bool): Controller
    decreases |queue|
  {
    if queue == [] then s else ProcessAll(Process(s, w, queue[0], status), w, queue[1..], status)
  }

  function Flush(s: Controller, w: World, status: bool): Controller {
    ProcessAll(s.(waiting := []), w, s.waiting, status)
  }

  /** nxt_controller_send_current_conf(): when the message cannot be sent, the default configuration is used. */
  function SendCurrentConf(s: Controller, w: World, sent: bool): Controller {
    if sent then s.(flags := s.flags.(initConf := true), out := s.out.(rpcs := s.out.rpcs + [InitConf]))
    else Flush(s, w, false)
  }

  /** nxt_controller_cert_apply(): `used` says that the bundle is in use. */
  function CertApply(s: Controller, w: World, r: nat, used: bool): Controller {
    var apply := used && s.flags.ready && s.flags.port;
    if apply && w.sends then Send(s, CertApplyRpc, r)
    else Flush(Answer(Log(s, ApplyEnded(r)), r, !apply), w, false)
  }

  function WithoutRpc(s: Controller, i: nat): Controller
    requires i < |s.out.rpcs|
  {
    s.(out := s.out.(rpcs := s.out.rpcs[..i] + s.out.rpcs[i + 1..]))
  }

  /**
    The handlers of the router's answers; ok is false also when the router died.  `next` says what comes next: that the
    store of the configuration was sent, or that the bundle which waited for the first configuration is in use.
   */
  function RpcReply(s: Controller, w: World, i: nat, ok: bool, next: bool): Controller
    requires i < |s.out.rpcs|
  {
    var rpc := s.out.rpcs[i];
    var s := WithoutRpc(s, i);
    match rpc
    case InitConf =>
      var s := s.(flags := s.flags.(initConf := false));
      if s.certStored.Some? then CertApply(s.(certStored := None), w, s.certStored.value, next) else Flush(s, w, false)
    case RequestRpc(kind, r) =>
      match kind
      case StatusRpc => Flush(if ok then s else Answer(s.(waiting := Unlink(s.waiting, r)), r, false), w, ok)
      case ConfRpc =>
        var s := s.(waiting := Unlink(s.waiting, r));
        if ok && next then StartStore(s, ConfFile, r) else Flush(Answer(s, r, false), w, false)
      case CertApplyRpc => Flush(Answer(Log(s.(waiting := Unlink(s.waiting, r)), ApplyEnded(r)), r, ok), w, false)
      case RestartRpc => Flush(Answer(s.(waiting := Unlink(s.waiting, r)), r, ok), w, false)
  }

  function WithoutStore(s: Controller, i: nat): Controller
    requires i < |s.out.stores|
  {
    s.(flags := SetStoring(s.flags, s.out.stores[i].kind, false), out := s.out.(stores := s.out.stores[..i] + s.out.stores[i + 1..]))
  }

  /** The handlers of main's answers. */
  function StoreReply(s: Controller, w: World, i: nat, ok: bool, used: bool): Controller
    requires i < |s.out.stores|
  {
    var store := s.out.stores[i];
    var s := LogEnded(WithoutStore(s, i), store.kind, store.req, ok);
    if store.kind == CertFile && ok then
      if s.flags.initConf then s.(certStored := Some(store.req)) else CertApply(s, w, store.req, used)
    else Flush(Answer(s, store.req, ok), w, false)
  }

  /** The error handlers of n outstanding messages. */
  function FailAll(s: Controller, w: World, n: nat): Controller
    decreases n
  {
    if n == 0 || s.out.rpcs == [] then s else FailAll(RpcReply(s, w, 0, false, false), w, n - 1)
  }

  datatype Event =
    | Request(r: nat)
    | NewPort(sent: bool)
    | RouterReady(sent: bool)
    | RouterDeath
    | RouterAnswers(i: nat, ok: bool, next: bool)
    | MainAnswers(i: nat, ok: bool, used: bool)

  /** A router is announced by its port and by its readiness; when both are there it gets the configuration. */
  function Announced(s: Controller, w: World, f: Flags, sent: bool): Controller {
    var s := s.(flags := f);
    if f.ready && f.port then SendCurrentConf(s, w, sent) else s
  }

  function Next(s: Controller, w: World, e: Event): Controller {
    match e
    case Request(r) =>
      if r in s.h.arrived then s else Process(s.(h := s.h.(arrived := s.h.arrived + {r})), w, r, false)
    case NewPort(sent) => Announced(s, w, s.flags.(port := true), sent)
    case RouterReady(sent) => Announced(s, w, s.flags.(ready := true), sent)
    case RouterDeath => FailAll(s.(flags := s.flags.(ready := false, port := false)), w, |s.out.rpcs|)
    case RouterAnswers(i, ok, next) => if i < |s.out.rpcs| then RpcReply(s, w, i, ok, next) else s
    case MainAnswers(i, ok, used) => if i < |s.out.stores| then StoreReply(s, w, i, ok, used) else s
  }
}
