/**
  Every interleaving of any number of threads over one queue.  The history
  records the calls and the effects in the order they happen; each effect is a
  step of its own operation, so replaying the history is a linearization.
 */
module NncqRuns {
  import opened Nncq

  datatype OperationAt<P, E> =
    | Idle
    | Enqueuing(value: nat, epc: EnqueueAt<P, E>)
    | Dequeuing(dpc: DequeueAt<P, E>)

  type Operation = OperationAt<nat, Entry>

  datatype Event =
    | Called(tid: nat)
    | DidEnqueue(tid: nat, value: nat, position: nat)
    | DidDequeue(tid: nat, value: nat)
    | SawEmpty(tid: nat)

  datatype State = State(q: Queue, ops: map<nat, Operation>, history: seq<Event>)

  datatype Action =
    | CallEnqueue(tid: nat, value: nat)
    | CallDequeue(tid: nat)
    | Advance(tid: nat)

  function Start(): State { State(Init(), map[], []) }

  /** A thread calls when its previous call has returned. */
  predicate Returned<P, E>(op: OperationAt<P, E>) {
    match op
    case Idle => true
    case Enqueuing(_, pc) => pc.Stored? || pc.EnqueueFailed?
    case Dequeuing(pc) => pc.Taken? || pc.FoundEmpty? || pc.GaveUp?
  }

  function OpOf(s: State, tid: nat): Operation {
    if tid in s.ops then s.ops[tid] else Idle
  }

  function Next(s: State, a: Action): State
    requires |s.q.entries| == SIZE
  {
    match a
    case CallEnqueue(tid, value) =>
      if Returned(OpOf(s, tid)) then
        s.(ops := s.ops[tid := Enqueuing(value, LoadTail(0))], history := s.history + [Called(tid)])
      else s
    case CallDequeue(tid) =>
      if Returned(OpOf(s, tid)) then
        s.(ops := s.ops[tid := Dequeuing(LoadHead(0))], history := s.history + [Called(tid)])
      else s
    case Advance(tid) =>
      match OpOf(s, tid)
      case Idle => s
      case Enqueuing(value, pc) =>
        var (q', pc') := EnqueueStep(s.q, value, pc);
        State(q', s.ops[tid := Enqueuing(value, pc')],
              s.history + if Stores(pc, pc') then [DidEnqueue(tid, value, pc'.t)] else [])
      case Dequeuing(pc) =>
        var (q', pc') := DequeueStep(s.q, pc);
        State(q', s.ops[tid := Dequeuing(pc')], s.history + DequeueEvents(tid, pc, pc'))
  }

  function DequeueEvents<P, E>(tid: nat, pc: DequeueAt<P, E>, pc': DequeueAt<P, E>): seq<Event> {
    if pc.SwapHead? && pc'.Taken? then [DidDequeue(tid, pc'.value)]
    else if pc.LoadHeadEntry? && pc'.FoundEmpty? then [SawEmpty(tid)]
    else []
  }

  // The sequential queue a history has to agree with.

  datatype Replayed = Queued(values: seq<nat>) | Illegal

  function Replay(history: seq<Event>): Replayed {
    if history == [] then Queued([])
    else
      var before := Replay(history[..|history| - 1]);
      if before.Illegal? then Illegal
      else
        match history[|history| - 1]
        case Called(_) => before
        case DidEnqueue(_, value, _) => Queued(before.values + [value])
        case DidDequeue(_, value) =>
          if before.values != [] && before.values[0] == value then Queued(before.values[1..])
          else Illegal
        case SawEmpty(_) => if before.values == [] then before else Illegal
  }

  /** The effects of a thread since its last call. */
  function Effects(history: seq<Event>, tid: nat): seq<Event> {
    if history == [] then []
    else
      var last := history[|history| - 1];
      if last == Called(tid) then []
      else if last.tid == tid then Effects(history[..|history| - 1], tid) + [last]
      else Effects(history[..|history| - 1], tid)
  }

  /** What a call has done so far: nothing, or exactly the effect it returns. */
  ghost predicate EffectsMatch(op: Operation, effects: seq<Event>, tid: nat) {
    match op
    case Idle => effects == []
    case Enqueuing(value, pc) =>
      if pc.AdvanceTail? || pc.Stored? then effects == [DidEnqueue(tid, value, pc.t)] else effects == []
    case Dequeuing(pc) =>
      if pc.Taken? then effects == [DidDequeue(tid, pc.value)]
      else if pc.FoundEmpty? then effects == [SawEmpty(tid)]
      else effects == []
  }

  ghost predicate OperationValid(q: Queue, op: Operation) {
    match op
    case Idle => true
    case Enqueuing(value, pc) => EnqueueValid(q, value, pc)
    case Dequeuing(pc) => DequeueValid(q, pc)
  }

  ghost predicate Inv(s: State) {
    && Valid(s.q)
    && (forall tid :: OperationValid(s.q, OpOf(s, tid)))
    && (forall tid :: EffectsMatch(OpOf(s, tid), Effects(s.history, tid), tid))
    && Replay(s.history) == Queued(Contents(s.q))
  }

  lemma AppendEvent(history: seq<Event>, e: Event)
    ensures (history + [e])[..|history|] == history && (history + [e])[|history|] == e
    ensures forall tid :: tid != e.tid ==> Effects(history + [e], tid) == Effects(history, tid)
    ensures Effects(history + [e], e.tid) == if e.Called? then [] else Effects(history, e.tid) + [e]
  {
    assert (history + [e])[..|history|] == history;
  }

  lemma OtherOpsKeep(s: State, s': State, me: nat)
    requires Inv(s) && Evolves(s.q, s'.q)
    requires forall tid :: tid != me ==> OpOf(s', tid) == OpOf(s, tid)
    ensures forall tid :: tid != me ==> OperationValid(s'.q, OpOf(s', tid))
  {
    forall tid | tid != me ensures OperationValid(s'.q, OpOf(s', tid)) {
      match OpOf(s, tid)
      case Idle =>
      case Enqueuing(value, pc) => EvolvesKeeps(s.q, s'.q, value, pc, LoadHead(0));
      case Dequeuing(pc) => EvolvesKeeps(s.q, s'.q, 0, LoadTail(0), pc);
    }
  }

  /** What one queue after an event is, given the queue before it. */
  predicate Follows(before: seq<nat>, events: seq<Event>, after: seq<nat>) {
    |events| <= 1 &&
    (events == [] ==> after == before) &&
    (events != [] ==>
       match events[0]
       case Called(_) => after == before
       case DidEnqueue(_, value, _) => after == before + [value]
       case DidDequeue(_, value) => before == [value] + after
       case SawEmpty(_) => before == after == [])
  }

  lemma ReplayFollows(history: seq<Event>, events: seq<Event>, before: seq<nat>, after: seq<nat>)
    requires Replay(history) == Queued(before) && Follows(before, events, after)
    ensures Replay(history + events) == Queued(after)
  {
    if events == [] {
      assert history + events == history;
    } else {
      assert events == [events[0]];
      AppendEvent(history, events[0]);
    }
  }

  /** Thread `me` moves from one operation state to another with the given effects. */
  lemma AssembleInv(s: State, q': Queue, me: nat, op': Operation, events: seq<Event>)
    requires Inv(s) && Valid(q') && Evolves(s.q, q') && OperationValid(q', op')
    requires Follows(Contents(s.q), events, Contents(q'))
    requires events != [] ==> events[0].tid == me
    requires EffectsMatch(op', if events == [Called(me)] then [] else Effects(s.history, me) + events, me)
    ensures Inv(State(q', s.ops[me := op'], s.history + events))
  {
    hide Valid, Evolves, OperationValid, Contents, Follows, Replay, Effects;
    var s' := State(q', s.ops[me := op'], s.history + events);
    ReplayFollows(s.history, events, Contents(s.q), Contents(q'));
    OtherOpsKeep(s, s', me);
    if events == [] {
      assert s.history + events == s.history;
      assert Effects(s.history, me) + events == Effects(s.history, me);
    } else {
      assert events == [events[0]];
      AppendEvent(s.history, events[0]);
    }
  }

  lemma CallKeepsInv(s: State, a: Action)
    requires Inv(s) && !a.Advance?
    ensures Inv(Next(s, a))
  {
    if Returned(OpOf(s, a.tid)) {
      var op := if a.CallEnqueue? then Enqueuing(a.value, LoadTail(0)) else Dequeuing(LoadHead(0));
      AssembleInv(s, s.q, a.tid, op, [Called(a.tid)]);
    }
  }

  lemma EnqueueKeepsInv(s: State, me: nat, value: nat, pc: EnqueuePc)
    requires Inv(s) && OpOf(s, me) == Enqueuing(value, pc)
    ensures Inv(Next(s, Advance(me)))
  {
    assert OperationValid(s.q, OpOf(s, me));
    EnqueueStepKeeps(s.q, value, pc);
    EnqueueStepEffect(s.q, value, pc);
    var (q', pc') := EnqueueStep(s.q, value, pc);
    var events := if Stores(pc, pc') then [DidEnqueue(me, value, pc'.t)] else [];
    assert EffectsMatch(OpOf(s, me), Effects(s.history, me), me);
    assert EffectsMatch(Enqueuing(value, pc'), Effects(s.history, me) + events, me);
    AssembleInv(s, q', me, Enqueuing(value, pc'), events);
  }

  lemma DequeueKeepsInv(s: State, me: nat, pc: DequeuePc)
    requires Inv(s) && OpOf(s, me) == Dequeuing(pc)
    ensures Inv(Next(s, Advance(me)))
  {
    assert OperationValid(s.q, OpOf(s, me));
    DequeueStepKeeps(s.q, pc);
    DequeueStepEffect(s.q, pc);
    var (q', pc') := DequeueStep(s.q, pc);
    var events := DequeueEvents(me, pc, pc');
    assert EffectsMatch(OpOf(s, me), Effects(s.history, me), me);
    assert EffectsMatch(Dequeuing(pc'), Effects(s.history, me) + events, me);
    AssembleInv(s, q', me, Dequeuing(pc'), events);
  }

  lemma NextKeepsInv(s: State, a: Action)
    requires Inv(s)
    ensures Inv(Next(s, a))
  {
    if !a.Advance? {
      CallKeepsInv(s, a);
    } else {
      match OpOf(s, a.tid)
      case Idle =>
      case Enqueuing(value, pc) => EnqueueKeepsInv(s, a.tid, value, pc);
      case Dequeuing(pc) => DequeueKeepsInv(s, a.tid, pc);
    }
  }

  // Whole runs.

  function Run(s: State, actions: seq<Action>): (r: State)
    requires Inv(s)
    ensures Inv(r)
    decreases |actions|
  {
    if actions == [] then s
    else
      NextKeepsInv(s, actions[0]);
      Run(Next(s, actions[0]), actions[1..])
  }

  lemma StartInv()
    ensures Inv(Start())
  {
    hide Valid, Within, Contents, Init;
    InitValid();
  }

  /**
    The queue is a linearizable first-in first-out queue: for every interleaving
    the effects, in the order they happened, are a run of the sequential queue
    that ends in the current contents, and what a call returns is its one effect.
    A call that runs out of retries has no effect.
   */
  lemma Linearizable(actions: seq<Action>, tid: nat)
    ensures Inv(Start())
    ensures var s := Run(Start(), actions);
            && Replay(s.history) == Queued(Contents(s.q))
            && EffectsMatch(OpOf(s, tid), Effects(s.history, tid), tid)
            && s.q.head <= s.q.tail + 1
            && (s.q.head == s.q.tail + 1 ==> s.q.entries[Slot(s.q.tail)].cycle == Cycle(s.q.tail))
  {
    StartInv();
    HeadBound(Run(Start(), actions).q);
  }
}
