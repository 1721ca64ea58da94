/**
  Connection structs on an event engine: live, parked, free, and live again as
  another connection, while queued work items may still name them.

  `incs` counts how often a struct was handed out, and `popped` logs what each
  work item saw when it was taken from its queue; no step reads them.
 */
module ConnEngine {
  import opened Bytes
  import opened WorkQueues
  import opened Timers
  import opened ConnLists
  import opened Links

  /** A work item for a connection, or for the expiry of its read or write timer. */
  datatype Work = Work(conn: nat, inc: nat, timer: Option<bool>)

  datatype Place = Live | Parked | Idle

  /** Handlers run in Drain; Poll is from nxt_timer_find() to nxt_timer_expire(). */
  datatype Phase = Drain | Poll

  datatype Structs = Structs(incs: map<nat, nat>, places: map<nat, Place>, pending: seq<nat>, free: seq<nat>)

  /** `fires` says that the handler of a timer was called. */
  datatype Popped = Popped(work: Work, inc: nat, place: Place, fires: bool)

  datatype Engine = Engine(queues: seq<seq<Work>>, current: nat, conns: Structs, timers: Timers, phase: Phase, popped: seq<Popped>)

  datatype Action =
    | Create(spare: nat)
    | FreeConn(c: nat)
    | Post(q: nat, c: nat)
    | AddTimer(c: nat, write: bool, near: bool)
    | DeleteTimer(c: nat, write: bool)
    | DisableTimer(c: nat, write: bool)
    | Turn
    | Expire(c: nat, write: bool, q: nat)
    | PollDone

  function TimerId(c: nat, write: bool): nat { if write then 2 * c + 1 else 2 * c }

  function PlaceOf(s: Structs, c: nat): Option<Place> { if c in s.places then Some(s.places[c]) else None }

  predicate TimerQuiet(ts: Timers, id: nat) {
    id in ts.table && !ts.table[id].inTree && !ts.table[id].queued && ts.table[id].change == 0
  }

  /** nxt_conn_timer_quiescent() of both timers */
  predicate Quiet(ts: Timers, c: nat) { TimerQuiet(ts, TimerId(c, false)) && TimerQuiet(ts, TimerId(c, true)) }

  function QuietIn(ts: Timers): nat -> bool { (c: nat) => Quiet(ts, c) }

  function Zeroed(ts: Timers, c: nat): Timers {
    ts.(table := ts.table[TimerId(c, false) := RESET][TimerId(c, true) := RESET])
  }

  function Push(queues: seq<seq<Work>>, q: nat, w: Work): seq<seq<Work>>
    requires q < |queues|
  {
    queues[q := queues[q] + [w]]
  }

  ghost predicate InQueues(queues: seq<seq<Work>>, w: Work) {
    exists q :: 0 <= q < |queues| && w in queues[q]
  }

  // What always holds.

  ghost predicate PlacesGood(s: Structs) {
    && s.incs.Keys == s.places.Keys
    && (forall c :: c in s.pending <==> PlaceOf(s, c) == Some(Parked))
    && (forall c :: c in s.free <==> PlaceOf(s, c) == Some(Idle))
    && NoDup(s.pending) && NoDup(s.free)
  }

  ghost predicate WorkGood(s: Structs, w: Work) {
    w.conn in s.incs && w.inc == s.incs[w.conn] && PlaceOf(s, w.conn) != Some(Idle) && PlaceOf(s, w.conn) != None
  }

  ghost predicate QueuesGood(e: Engine) {
    && |e.queues| == QUEUES && e.current < QUEUES
    && forall w :: InQueues(e.queues, w) ==> WorkGood(e.conns, w)
  }

  ghost predicate TimersGood(e: Engine) {
    && Valid(e.timers)
    && (forall c, write :: c in e.conns.places <==> TimerId(c, write) in e.timers.table)
    && (e.phase == Poll ==> e.timers.changes == [])
  }

  /** A timer that says it is queued has its work item in a queue. */
  ghost predicate QueuedGood(e: Engine) {
    forall c, write :: c in e.conns.incs && TimerId(c, write) in e.timers.table && e.timers.table[TimerId(c, write)].queued ==>
      InQueues(e.queues, Work(c, e.conns.incs[c], Some(write)))
  }

  ghost predicate IdleGood(e: Engine) {
    forall c :: PlaceOf(e.conns, c) == Some(Idle) ==> Quiet(e.timers, c)
  }

  /** Every work item that was taken saw the struct as it was when the item was queued. */
  ghost predicate PoppedGood(popped: seq<Popped>) {
    forall i :: 0 <= i < |popped| ==> popped[i].inc == popped[i].work.inc && popped[i].place != Idle
  }

  ghost predicate Inv(e: Engine) {
    PlacesGood(e.conns) && QueuesGood(e) && TimersGood(e) && QueuedGood(e) && IdleGood(e) && PoppedGood(e.popped)
  }

  // Steps.

  /** nxt_conn_create() */
  function Created(s: Structs, spare: nat): (Structs, nat) {
    var c := if s.free != [] then s.free[0] else spare;
    (Structs(s.incs[c := (if c in s.incs then s.incs[c] else 0) + 1], s.places[c := Live], s.pending,
             if s.free != [] then s.free[1..] else s.free), c)
  }

  function CreateStep(e: Engine, spare: nat): Engine {
    if e.phase == Drain && (e.conns.free != [] || spare !in e.conns.places) then
      var (conns, c) := Created(e.conns, spare);
      e.(conns := conns, timers := Zeroed(e.timers, c))
    else e
  }

  /** nxt_conn_free(): the timers are deleted, the struct is parked. */
  ghost function FreeStep(e: Engine, c: nat): Engine
    requires Inv(e)
  {
    if e.phase == Drain && PlaceOf(e.conns, c) == Some(Live) then
      assert TimerId(c, false) in e.timers.table && TimerId(c, true) in e.timers.table;
      DeleteKeeps(e.timers, TimerId(c, false));
      var ts := Deleted(Deleted(e.timers, TimerId(c, false)), TimerId(c, true));
      e.(conns := e.conns.(places := e.conns.places[c := Parked], pending := [c] + e.conns.pending), timers := ts)
    else e
  }

  /** Work is queued by handlers, for live structs and for parked ones, and by the poll for live ones. */
  function PostStep(e: Engine, q: nat, c: nat): Engine {
    var place := PlaceOf(e.conns, c);
    if q < |e.queues| && c in e.conns.incs && (place == Some(Live) || (place == Some(Parked) && e.phase == Drain)) then
      e.(queues := Push(e.queues, q, Work(c, e.conns.incs[c], None)))
    else e
  }

  ghost function TimerStep(e: Engine, a: Action): Engine
    requires Inv(e)
  {
    match a
    case AddTimer(c, write, near) =>
      if e.phase == Drain && PlaceOf(e.conns, c) == Some(Live) then e.(timers := Added(e.timers, TimerId(c, write), near)) else e
    case DeleteTimer(c, write) =>
      if e.phase == Drain && PlaceOf(e.conns, c) == Some(Live) then e.(timers := Deleted(e.timers, TimerId(c, write))) else e
    case DisableTimer(c, write) =>
      if e.phase == Drain && PlaceOf(e.conns, c) == Some(Live) then e.(timers := Enable(e.timers, TimerId(c, write), false)) else e
    case _ => e
  }

  /** nxt_timer_handler(): a timer that fires is not enabled any more; a disabled one, or one that was changed since, does nothing. */
  function Handled(ts: Timers, id: nat): Timers {
    if id in ts.table then
      var t := ts.table[id];
      ts.(table := ts.table[id := t.(queued := false, enabled := t.enabled && t.change != 0)])
    else ts
  }

  predicate Fires(ts: Timers, id: nat) { id in ts.table && ts.table[id].enabled && ts.table[id].change == 0 }

  /** A work item is taken and starts to run. */
  function PopStep(e: Engine, k: nat): Engine
    requires |e.queues| == QUEUES && e.current < QUEUES && k < QUEUES && e.queues[k] != []
  {
    var w := e.queues[k][0];
    var fires := w.timer.Some? && Fires(e.timers, TimerId(w.conn, w.timer.value));
    var seen := if w.conn in e.conns.incs && w.conn in e.conns.places
                then [Popped(w, e.conns.incs[w.conn], e.conns.places[w.conn], fires)] else [Popped(w, w.inc + 1, Idle, fires)];
    e.(queues := e.queues[k := e.queues[k][1..]],
       current := CurrentAfter(e.queues, e.current),
       timers := if w.timer.Some? then Handled(e.timers, TimerId(w.conn, w.timer.value)) else e.timers,
       popped := e.popped + seen)
  }

  /** Every queue is empty: settled structs become free, timer changes are carried out. */
  ghost function RecycleStep(e: Engine): Engine
    requires Inv(e)
  {
    var quiet := QuietIn(e.timers);
    var promoted := set c | c in e.conns.pending && quiet(c);
    Engine(e.queues, 0,
           Structs(e.conns.incs, map c | c in e.conns.places :: if c in promoted then Idle else e.conns.places[c],
                   Unsettled(e.conns.pending, quiet), Freed(e.conns.pending, quiet, e.conns.free)),
           Committed(e.timers), Poll, e.popped)
  }

  /** One turn of the inner loop of nxt_event_engine_start(). */
  ghost function TurnStep(e: Engine): Engine
    requires Inv(e)
  {
    if e.phase != Drain then e
    else match Choose(e.queues, e.current)
      case Some(k) => PopStep(e, k)
      case None => RecycleStep(e)
  }

  /** nxt_timer_expire(), for one timer. */
  function ExpireStep(e: Engine, c: nat, write: bool, q: nat): Engine {
    var id := TimerId(c, write);
    if e.phase == Poll && q < |e.queues| && c in e.conns.incs && id in e.timers.table && e.timers.table[id].inTree then
      var t := e.timers.table[id];
      e.(timers := e.timers.(table := e.timers.table[id := t.(inTree := false, queued := t.queued || t.enabled)]),
         queues := if t.enabled then Push(e.queues, q, Work(c, e.conns.incs[c], Some(write))) else e.queues)
    else e
  }

  ghost function Next(e: Engine, a: Action): Engine
    requires Inv(e)
  {
    match a
    case Create(spare) => CreateStep(e, spare)
    case FreeConn(c) => FreeStep(e, c)
    case Post(q, c) => PostStep(e, q, c)
    case Turn => TurnStep(e)
    case Expire(c, write, q) => ExpireStep(e, c, write, q)
    case PollDone => if e.phase == Poll then e.(phase := Drain) else e
    case _ => TimerStep(e, a)
  }
}
