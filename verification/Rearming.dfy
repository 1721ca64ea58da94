/**
  Re-arming the one-wake flag: a receive that drains the queue clears the flag, whether or not the
  READ_QUEUE message that set it was read, and the next send rings.
 */
module Rearming {
  import opened Bytes
  import opened Nncq
  import opened AppQueue
  import opened AppQueueSlots
  import opened AppQueueItems
  import opened AppQueueRuns
  import opened AppQueueAlone
  import Bell = Doorbell

  // Calls that run alone.

  /** Whether a store is between its item and the tail. */
  predicate Lagging(q: Queue) { q.tail != Bound(q) }

  lemma OneWaiting(s: State)
    requires Items(s) && |Contents(s.mem.work)| == 1
    ensures Bound(s.mem.work) == s.mem.work.head + 1
  {
    hide Items;
    QueuesGood(s);
  }

  /** The last item: the flag is clear after the receive if and only if it was, or no store lags behind. */
  lemma LastItemClears(s: State, w: nat) returns (n: nat)
    requires Items(s) && JobOf(s, w) == TakeWork(LoadHead(0)) && |Contents(s.mem.work)| == 1
    ensures var s' := Alone(s, w, n);
            && JobOf(s', w) == Awake && Contents(s'.mem.work) == []
            && (!s'.mem.notified <==> !s.mem.notified || !Lagging(s.mem.work))
            && s'.mem.doorbells == s.mem.doorbells
  {
    hide Items, Contents, Sent;
    OneWaiting(s);
    n := ReceiveAlone(s, w);
    assert Contents(s.mem.work)[1..] == [];
  }

  /** With one reader: after a receive that drains the queue, the next send rings. */
  lemma DrainedThenSent(s: State, w: nat, tid: nat, m: Message) returns (a: nat, b: nat)
    requires Items(s) && s.bound == 1
    requires JobOf(s, w) == TakeWork(LoadHead(0)) && |Contents(s.mem.work)| == 1 && !Lagging(s.mem.work)
    requires tid != w && JobOf(s, tid) == Idle && Proper(m) && Unused(s, m.tracking)
    ensures var s1 := Alone(s, w, a);
            var s2 := Alone(Then(s1, CallSend(tid, m)), tid, b);
            && JobOf(s2, w) == Awake && JobOf(s2, tid) == Idle
            && s2.mem.notified && s2.mem.doorbells == s.mem.doorbells + 1
            && |Contents(s2.mem.work)| == 1
  {
    hide Items, Contents, Sent, Unused, Alone;
    OneWaiting(s);
    a := ReceiveAlone(s, w);
    var s1 := Alone(s, w, a);
    assert Contents(s.mem.work)[1..] == [];
    StillUnused(s, w, s1, m);
    CallIs(s1, tid, m);
    var s2 := Then(s1, CallSend(tid, m));
    b := SendAlone(s2, tid, m);
  }

  lemma CallIs(s: State, tid: nat, m: Message)
    requires Items(s) && JobOf(s, tid) == Idle && Proper(m) && Unused(s, m.tracking)
    ensures Then(s, CallSend(tid, m)) == Where(s, tid, TakeFree(m, LoadHead(0)))
  {
    hide Items;
    Parts(s);
    SlotsShape(s);
  }

  /** A receive sends nothing and makes no ticket. */
  lemma StillUnused(s: State, w: nat, s': State, m: Message)
    requires Unused(s, m.tracking) && s'.jobs == s.jobs[w := Awake] && s'.h.sent == s.h.sent && s'.h.tickets == s.h.tickets
    ensures Unused(s', m.tracking)
  {
    forall t ensures Sending(JobOf(s', t)) == None || JobOf(s', t) == JobOf(s, t) {
      if t == w { assert JobOf(s', t) == Awake; }
    }
    Unchanged(s, s', m);
  }

  // Whole runs.

  /** The action is one of the thread's own. */
  predicate Names(a: Action, tid: nat) {
    (a.CallSend? || a.StartWorker? || a.Advance? || a.End?) && a.tid == tid
  }

  ghost predicate NobodyNames(actions: seq<Action>, tid: nat) {
    forall i :: 0 <= i < |actions| ==> !Names(actions[i], tid)
  }

  lemma OthersKeepJob(s: State, a: Action, tid: nat)
    requires Items(s) && !Names(a, tid)
    ensures JobOf(Then(s, a), tid) == JobOf(s, tid)
  {
    hide Items;
    Parts(s);
    SlotsShape(s);
    if a.Advance? { StepMovesOne(s, a.tid, tid); }
  }

  lemma StepMovesOne(s: State, mover: nat, tid: nat)
    requires Shape(s) && mover != tid
    ensures JobOf(Step(s, mover), tid) == JobOf(s, tid)
  {
    hide Shape, JobShape, DequeueStep, EnqueueStep;
  }

  lemma {:induction false} RunKeepsJob(s: State, actions: seq<Action>, tid: nat)
    requires Items(s) && NobodyNames(actions, tid)
    ensures JobOf(Run(s, actions), tid) == JobOf(s, tid)
    decreases |actions|
  {
    hide Items, Next;
    if actions != [] {
      var n := |actions| - 1;
      RunKeepsJob(s, actions[..n], tid);
      OthersKeepJob(Run(s, actions[..n]), actions[n], tid);
    }
  }

  /** A producer's decision about the bell. */
  ghost predicate Decides(s: State, a: Action) { a.Advance? && JobOf(s, a.tid).Doorbell? }

  ghost predicate NobodyDecides(s: State, actions: seq<Action>)
    requires Items(s)
    decreases |actions|
  {
    actions == []
    || (NobodyDecides(s, actions[..|actions| - 1]) && !Decides(Run(s, actions[..|actions| - 1]), actions[|actions| - 1]))
  }

  lemma OnlyDecisionsSet(s: State, a: Action)
    requires Items(s) && !Decides(s, a) && !s.mem.notified
    ensures !Then(s, a).mem.notified
  {
    hide Items;
    Parts(s);
    SlotsShape(s);
    if a.Advance? { StepSets(s, a.tid); }
  }

  lemma StepSets(s: State, tid: nat)
    requires Shape(s) && !JobOf(s, tid).Doorbell?
    ensures Step(s, tid).mem.notified ==> s.mem.notified
  {
    hide Shape, JobShape, DequeueStep, EnqueueStep;
  }

  lemma {:induction false} FlagStaysClear(s: State, actions: seq<Action>)
    requires Items(s) && NobodyDecides(s, actions) && !s.mem.notified
    ensures !Run(s, actions).mem.notified
    decreases |actions|
  {
    hide Items, Next, Decides;
    if actions != [] {
      var n := |actions| - 1;
      FlagStaysClear(s, actions[..n]);
      OnlyDecisionsSet(Run(s, actions[..n]), actions[n]);
    }
  }

  /** The loads of a receive agree that the queue is drained; whatever the others do then, its next access clears the flag. */
  lemma DrainedReceiveClears(s: State, w: nat, between: seq<Action>)
    requires Items(s) && JobOf(s, w) == LoadDepthHead(s.mem.work.head) && NobodyNames(between, w)
    ensures var s' := Then(Run(Then(s, Advance(w)), between), Advance(w));
            !s'.mem.notified && !s'.h.stale && JobOf(s', w) == Awake
  {
    hide Items, Run;
    AccessIs(s, w, LoadDepthHead(s.mem.work.head));
    var s1 := Then(s, Advance(w));
    assert JobOf(s1, w) == Rearm;
    RunKeepsJob(s1, between, w);
    AccessIs(Run(s1, between), w, Rearm);
  }

  /** With one reader and a clear flag, the next producer to decide rings. */
  lemma ClearFlagRings(s: State, tid: nat)
    requires Items(s) && s.bound == 1 && !s.mem.notified && JobOf(s, tid).Doorbell?
    ensures var s1 := Then(s, Advance(tid));
            var s2 := Then(s1, Advance(tid));
            s1.mem.notified && JobOf(s1, tid) == Ring && s2.mem.doorbells == s.mem.doorbells + 1
  {
    hide Items;
    AccessIs(s, tid, JobOf(s, tid));
    var s1 := Then(s, Advance(tid));
    AccessIs(s1, tid, Ring);
  }

  lemma {:induction false} BoundStays(s: State, actions: seq<Action>)
    requires Items(s)
    ensures Run(s, actions).bound == s.bound
    decreases |actions|
  {
    hide Items, Step;
    if actions != [] {
      var n := |actions| - 1;
      BoundStays(s, actions[..n]);
      var s1 := Run(s, actions[..n]);
      Parts(s1);
      SlotsShape(s1);
      StepKeepsBound(s1, if actions[n].Advance? then actions[n].tid else 0);
    }
  }

  lemma StepKeepsBound(s: State, tid: nat)
    requires Shape(s)
    ensures Step(s, tid).bound == s.bound
  {
    hide Shape, JobShape, DequeueStep, EnqueueStep;
  }

  /**
    In every run with one reader, whatever workers have ended with whatever doorbells unread: once a
    receive has found the queue drained, the next producer that decides rings.
   */
  lemma DrainedRunRings(s0: State, before: seq<Action>, w: nat, between: seq<Action>, later: seq<Action>, tid: nat)
    requires Starts(s0) && s0.bound == 1
    requires Items(s0) && JobOf(Run(s0, before), w) == LoadDepthHead(Run(s0, before).mem.work.head)
    requires NobodyNames(between, w)
    requires NobodyDecides(Then(Run(Then(Run(s0, before), Advance(w)), between), Advance(w)), later)
    requires JobOf(Run(Then(Run(Then(Run(s0, before), Advance(w)), between), Advance(w)), later), tid).Doorbell?
    ensures var s := Run(Then(Run(Then(Run(s0, before), Advance(w)), between), Advance(w)), later);
            var s1 := Then(s, Advance(tid));
            !s.mem.notified && JobOf(s1, tid) == Ring && Then(s1, Advance(tid)).mem.doorbells == s.mem.doorbells + 1
  {
    hide Items, Run, NobodyDecides, NobodyNames, Starts;
    var s1 := Run(s0, before);
    DrainedReceiveClears(s1, w, between);
    var s2 := Then(Run(Then(s1, Advance(w)), between), Advance(w));
    FlagStaysClear(s2, later);
    BoundStays(s0, before);
    BoundThen(s1, Advance(w));
    BoundStays(Then(s1, Advance(w)), between);
    BoundThen(Run(Then(s1, Advance(w)), between), Advance(w));
    BoundStays(s2, later);
    ClearFlagRings(Run(s2, later), tid);
  }

  lemma BoundThen(s: State, a: Action)
    requires Items(s)
    ensures Then(s, a).bound == s.bound
  {
    hide Items, Step;
    Parts(s);
    SlotsShape(s);
    if a.Advance? { StepKeepsBound(s, a.tid); }
  }

  // What the flag alone does not see.

  /**
    A receive that finds nothing does not clear the flag.  So with one reader, when the doorbell of the flag
    ends unread while the queue is empty, the next item waits without anybody coming for it.
   */
  lemma UnreadDoorbellStalls(s: State, w: nat, v: nat, tid: nat, m: Message) returns (n: nat)
    requires Items(s) && s.bound == 1 && s.mem.notified && s.mem.doorbells == 1
    requires Contents(s.mem.work) == [] && Contents(s.mem.free) != []
    requires JobOf(s, w) == Asleep && JobOf(s, v) == TakeWork(LoadHead(0)) && JobOf(s, tid) == Idle
    requires Proper(m) && Unused(s, m.tracking)
    requires forall t :: t != v ==> JobOf(s, t) == Idle || JobOf(s, t) == Asleep
    ensures var s1 := Then(s, End(w, true));
            var s2 := Then(Alone(s1, v, 3), CallSend(tid, m));
            var s3 := Alone(s2, tid, n);
            |Contents(s3.mem.work)| == 1 && s3.mem.doorbells == 0 && Bell.Helpers(s3) == {}
  {
    hide Items, Contents, Alone, Unused, Next;
    EndIs(s, w);
    var s1 := Then(s, End(w, true));
    assert s1.jobs == s.jobs[w := Idle] && JobOf(s1, v) == JobOf(s, v);
    ReceiveNothing(s1, v);
    var s2 := Alone(s1, v, 3);
    assert s2.jobs == s.jobs[w := Idle][v := Asleep];
    Unchanged(s, s2, m);
    CallIs(s2, tid, m);
    n := SendAlone(Then(s2, CallSend(tid, m)), tid, m);
    NoHelpers(s, w, v, tid, Alone(Then(s2, CallSend(tid, m)), tid, n), m);
  }

  lemma EndIs(s: State, w: nat)
    requires Items(s) && JobOf(s, w) == Asleep && s.mem.doorbells == 1
    ensures Then(s, End(w, true)) == State(s.mem.(doorbells := 0), s.jobs[w := Idle], s.h.(missed := s.h.missed + 1, stale := true), s.bound)
  {
    hide Items, Step;
    Parts(s);
    SlotsShape(s);
  }

  lemma Unchanged(s: State, s': State, m: Message)
    requires Unused(s, m.tracking) && s'.h.sent == s.h.sent && s'.h.tickets == s.h.tickets
    requires forall t :: Sending(JobOf(s', t)) == None || JobOf(s', t) == JobOf(s, t)
    ensures Unused(s', m.tracking)
  {
  }

  lemma NoHelpers(s: State, w: nat, v: nat, tid: nat, s': State, m: Message)
    requires forall t :: t != v ==> JobOf(s, t) == Idle || JobOf(s, t) == Asleep
    requires s'.jobs == s.jobs[w := Idle][v := Asleep][tid := TakeFree(m, LoadHead(0))][tid := Idle]
    ensures Bell.Helpers(s') == {}
  {
    forall t | t in s'.jobs ensures s'.jobs[t] == Idle || s'.jobs[t] == Asleep {
      if t != v && t != w && t != tid { assert s'.jobs[t] == s.jobs[t] == JobOf(s, t); }
    }
  }

  // A lagging tail is reached in a run.

  ghost predicate Reached(s0: State, s: State)
    requires Items(s0)
  {
    exists actions :: Run(s0, actions) == s
  }

  lemma ReachStart(s0: State)
    requires Items(s0)
    ensures Reached(s0, s0)
  {
    hide Items;
    assert Run(s0, []) == s0;
  }

  lemma ReachThen(s0: State, s: State, a: Action)
    requires Items(s0) && Items(s) && Reached(s0, s)
    ensures Reached(s0, Then(s, a))
  {
    hide Items, Next;
    var actions :| Run(s0, actions) == s;
    var more := actions + [a];
    assert more[..|more| - 1] == actions;
    assert Run(s0, more) == Then(s, a);
  }

  lemma {:induction false} ReachAlone(s0: State, s: State, tid: nat, n: nat)
    requires Items(s0) && Items(s) && Reached(s0, s)
    ensures Reached(s0, Alone(s, tid, n))
    decreases n
  {
    hide Items, Next, Reached, Run;
    if n > 0 {
      ReachThen(s0, s, Advance(tid));
      ReachAlone(s0, Then(s, Advance(tid)), tid, n - 1);
    }
  }

  /** The accesses of an enqueue up to its store, when the tail does not lag. */
  lemma StoreSteps(q: Queue, i: nat) returns (e: Entry)
    requires QueueGood(q) && !Lagging(q)
    ensures EnqueueStep(q, i, LoadTail(0)) == (q, LoadTailEntry(0, q.tail))
    ensures EnqueueStep(q, i, LoadTailEntry(0, q.tail)) == (q, SwapEntry(0, q.tail, e))
    ensures var r := EnqueueStep(q, i, SwapEntry(0, q.tail, e));
            r.1 == AdvanceTail(q.tail) && r.0.tail == q.tail && r.0.log == q.log + [i] && r.0.head == q.head
  {
    e := q.entries[Slot(q.tail)];
    assert SlotValid(q, Slot(q.tail));
  }

  /** A send that stops between its item and the tail. */
  lemma StopBeforeTail(s: State, tid: nat, m: Message) returns (n: nat)
    requires Items(s) && JobOf(s, tid) == TakeFree(m, LoadHead(0)) && Contents(s.mem.free) != []
    requires !Lagging(s.mem.work) && Contents(s.mem.work) == []
    ensures var s' := Alone(s, tid, n);
            && Lagging(s'.mem.work) && |Contents(s'.mem.work)| == 1 && s'.bound == s.bound
            && s'.mem.notified == s.mem.notified && s'.mem.doorbells == s.mem.doorbells
            && forall t :: t != tid ==> JobOf(s', t) == JobOf(s, t)
  {
    hide *;
    var a := FillAlone(s, tid, m);
    var i, s1 := Contents(s.mem.free)[0], Alone(s, tid, a);
    FilledIs(s, tid, m);
    QueuesGood(s1);
    var q := s1.mem.work;
    var e := StoreSteps(q, i);
    PutsWork(s1, tid, m, i, LoadTail(0));
    PutStays(s1, tid, m, i, LoadTail(0), LoadTailEntry(0, q.tail));
    var s2 := Then(s1, Advance(tid));
    PutsWork(s2, tid, m, i, LoadTailEntry(0, q.tail));
    PutStays(s2, tid, m, i, LoadTailEntry(0, q.tail), SwapEntry(0, q.tail, e));
    var s3 := Then(s2, Advance(tid));
    PutsWork(s3, tid, m, i, SwapEntry(0, q.tail, e));
    PutStores(s3, tid, m, i, e);
    var s4 := Then(s3, Advance(tid));
    ThreeAlone(s1, tid, s2, s3);
    n := a + 3;
    AloneMore(s, tid, a, 3);
    StoppedIs(q, s4.mem.work, i);
    forall t | t != tid ensures JobOf(s4, t) == JobOf(s, t) {
      SameJob(s1, s2, tid, t);
      SameJob(s2, s3, tid, t);
      SameJob(s3, s4, tid, t);
    }
  }

  lemma ThreeAlone(s: State, tid: nat, s1: State, s2: State)
    requires Items(s) && s1 == Then(s, Advance(tid)) && s2 == Then(s1, Advance(tid))
    ensures Alone(s, tid, 3) == Then(s2, Advance(tid))
  {
    hide Items, Next;
    var s3 := Then(s2, Advance(tid));
    assert Alone(s, tid, 3) == Alone(s1, tid, 2) == Alone(s2, tid, 1) == Alone(s3, tid, 0);
  }

  lemma FilledIs(s: State, tid: nat, m: Message)
    requires Contents(s.mem.free) != [] && Contents(s.mem.free)[0] < |s.h.owner| == |s.mem.items|
    requires |m.body| <= |s.mem.items[Contents(s.mem.free)[0]].data|
    ensures var i := Contents(s.mem.free)[0];
            var s' := Filled(TookSlot(s, tid, m), tid, i, Written(s.mem.items[i], m), PutWork(m, i, LoadTail(0)));
            && JobOf(s', tid) == PutWork(m, i, LoadTail(0)) && s'.mem.work == s.mem.work && s'.bound == s.bound
            && s'.mem.notified == s.mem.notified && s'.mem.doorbells == s.mem.doorbells
            && forall t :: t != tid ==> JobOf(s', t) == JobOf(s, t)
  {
    hide Contents;
  }

  ghost predicate OneMoved(s: State, s': State, tid: nat) {
    && s'.bound == s.bound && s'.mem.notified == s.mem.notified && s'.mem.doorbells == s.mem.doorbells
    && s'.jobs == s.jobs[tid := JobOf(s', tid)]
  }

  lemma SameJob(s: State, s': State, tid: nat, t: nat)
    requires OneMoved(s, s', tid) && t != tid
    ensures JobOf(s', t) == JobOf(s, t)
  {
  }

  lemma PutStays(s: State, tid: nat, m: Message, i: nat, put: EnqueuePc, put': EnqueuePc)
    requires |s.mem.work.entries| == SIZE && i < |s.h.owner| && EnqueueStep(s.mem.work, i, put) == (s.mem.work, put')
    requires !put'.Stored? && !put'.EnqueueFailed? && !put'.AdvanceTail?
    ensures var s' := PutWorkStep(s, tid, m, i, put);
            s'.mem.work == s.mem.work && JobOf(s', tid) == PutWork(m, i, put') && OneMoved(s, s', tid) && |s'.h.owner| == |s.h.owner|
            && s'.bound == s.bound && s'.mem.notified == s.mem.notified && s'.mem.doorbells == s.mem.doorbells
  {
    hide EnqueueStep;
  }

  lemma PutStores(s: State, tid: nat, m: Message, i: nat, e: Entry)
    requires |s.mem.work.entries| == SIZE && i < |s.h.owner| && EnqueueStep(s.mem.work, i, SwapEntry(0, s.mem.work.tail, e)).1.AdvanceTail?
    ensures var s' := PutWorkStep(s, tid, m, i, SwapEntry(0, s.mem.work.tail, e));
            && s'.mem.work == EnqueueStep(s.mem.work, i, SwapEntry(0, s.mem.work.tail, e)).0 && OneMoved(s, s', tid)
            && s'.bound == s.bound && s'.mem.notified == s.mem.notified && s'.mem.doorbells == s.mem.doorbells
  {
    hide EnqueueStep;
  }

  lemma StoppedIs(q: Queue, q': Queue, i: nat)
    requires QueueGood(q) && !Lagging(q) && Contents(q) == []
    requires q'.tail == q.tail && q'.log == q.log + [i] && q'.head == q.head
    ensures Lagging(q') && |Contents(q')| == 1
  {
  }

  lemma FirstSend(s: State, m: Message)
    requires Starts(s) && Items(s) && Proper(m)
    ensures Then(s, CallSend(1, m)) == Where(s, 1, TakeFree(m, LoadHead(0)))
    ensures |Contents(s.mem.free)| == SIZE && Contents(s.mem.work) == [] && !Lagging(s.mem.work)
    ensures s.jobs == map[] && s.h.sent == [] && s.h.tickets == map[] && !s.mem.notified
  {
    hide Items, QueueGood, Contents, Init, ItemsShape;
    InitGood();
    InitSettled();
    CallIs(s, 1, m);
  }

  lemma InitSettled()
    ensures !Lagging(Init())
  {
  }

  /** A send up to its decision about the bell. */
  lemma UpToDecision(s: State, tid: nat, m: Message) returns (n: nat)
    requires Items(s) && JobOf(s, tid) == TakeFree(m, LoadHead(0)) && Contents(s.mem.free) != []
    ensures var s' := Alone(s, tid, n);
            && JobOf(s', tid).Doorbell? && s'.jobs == s.jobs[tid := JobOf(s', tid)] && s'.bound == s.bound
            && s'.mem.notified == s.mem.notified && s'.h.sent == s.h.sent + [m]
            && !Lagging(s'.mem.work) && |Contents(s'.mem.work)| == |Contents(s.mem.work)| + 1
  {
    hide *;
    var a := FillAlone(s, tid, m);
    var i, s1 := Contents(s.mem.free)[0], Alone(s, tid, a);
    TookSlotIs(s, tid, m);
    FilledAs(TookSlot(s, tid, m), tid, i, Written(s.mem.items[i], m), PutWork(m, i, LoadTail(0)));
    WorkGrows(s1, i);
    var b := StoreAlone(s1, tid, m, i, LoadTail(0), 7);
    var r := EnqueueAlone(s1.mem.work, i, LoadTail(0), 7);
    QueuedIs(s1, tid, m, i, r.0, r.1.t);
    n := a + b;
    AloneMore(s, tid, a, b);
    DecisionIs(s, tid, m, r.0, r.1.t);
  }

  lemma DecisionIs(s: State, tid: nat, m: Message, work: Queue, t: nat)
    requires Contents(s.mem.free) != [] && Contents(s.mem.free)[0] < |s.h.owner| == |s.mem.items|
    requires |m.body| <= |s.mem.items[Contents(s.mem.free)[0]].data| && work.tail == Bound(work)
    ensures var i := Contents(s.mem.free)[0];
            var s1 := Filled(TookSlot(s, tid, m), tid, i, Written(s.mem.items[i], m), PutWork(m, i, LoadTail(0)));
            var s' := Queued(s1, tid, m, i, work, t);
            && JobOf(s', tid).Doorbell? && s'.jobs == s.jobs[tid := JobOf(s', tid)] && s'.bound == s.bound
            && s'.mem.notified == s.mem.notified && s'.h.sent == s.h.sent + [m] && !Lagging(s'.mem.work)
            && s'.mem.work == work
  {
    hide Contents;
    var i := Contents(s.mem.free)[0];
    assert s.jobs[tid := WriteSize(m, i)][tid := PutWork(m, i, LoadTail(0))][tid := Job.Doorbell(t)] == s.jobs[tid := Job.Doorbell(t)];
  }

  lemma WorkerLooks(s: State, w: nat)
    requires Items(s) && JobOf(s, w) == Awake
    ensures Then(s, Advance(w)) == Where(s, w, TakeWork(LoadHead(0)))
  {
    hide Items;
    AccessIs(s, w, Awake);
  }

  lemma WorkerStarts(s: State, w: nat)
    requires Items(s) && JobOf(s, w) == Idle
    ensures Then(s, StartWorker(w)) == Where(s, w, Awake)
  {
    hide Items;
    Parts(s);
    SlotsShape(s);
  }

  lemma SecondSend(s: State, m1: Message, m2: Message)
    requires Items(s) && s.h.sent == [m1] && Proper(m2) && m1.tracking != m2.tracking
    requires forall t :: Sending(JobOf(s, t)) == None
    requires JobOf(s, 2) == Idle
    ensures Then(s, CallSend(2, m2)) == Where(s, 2, TakeFree(m2, LoadHead(0)))
  {
    hide Items;
    CallIs(s, 2, m2);
  }

  /** A decision with a clear flag sets it, and changes nothing else but the thread. */
  lemma DecisionSets(s: State, tid: nat)
    requires Items(s) && s.bound == 1 && !s.mem.notified && JobOf(s, tid).Doorbell?
    ensures Then(s, Advance(tid)) == State(s.mem.(notified := true), s.jobs[tid := Ring], s.h, s.bound)
  {
    hide Items;
    AccessIs(s, tid, JobOf(s, tid));
  }

  /** One producer has stored its item and does not decide yet. */
  lemma OneStores(s0: State, m: Message) returns (s: State)
    requires Starts(s0) && Items(s0) && s0.bound == 1 && Proper(m)
    ensures Items(s) && Reached(s0, s) && s.bound == 1 && !s.mem.notified && s.h.sent == [m]
    ensures JobOf(s, 1).Doorbell? && s.jobs == map[1 := JobOf(s, 1)]
    ensures |Contents(s.mem.work)| == 1 && !Lagging(s.mem.work)
  {
    hide Items, Contents, Reached, Alone, Starts, Next;
    ReachStart(s0);
    FirstSend(s0, m);
    var s1 := Then(s0, CallSend(1, m));
    ReachThen(s0, s0, CallSend(1, m));
    var a := UpToDecision(s1, 1, m);
    s := Alone(s1, 1, a);
    ReachAlone(s0, s1, 1, a);
    assert s0.jobs[1 := TakeFree(m, LoadHead(0))][1 := JobOf(s, 1)] == map[1 := JobOf(s, 1)];
  }

  /** A worker takes the only item. */
  lemma OneTakes(s0: State, s: State) returns (s': State)
    requires Items(s0) && Items(s) && Reached(s0, s) && s.bound == 1 && !s.mem.notified
    requires JobOf(s, 1).Doorbell? && s.jobs == map[1 := JobOf(s, 1)] && |Contents(s.mem.work)| == 1 && !Lagging(s.mem.work)
    ensures Items(s') && Reached(s0, s') && s'.bound == 1 && !s'.mem.notified && s'.h.sent == s.h.sent
    ensures s'.jobs == map[1 := JobOf(s, 1), 3 := Awake]
    ensures Contents(s'.mem.work) == [] && !Lagging(s'.mem.work) && Contents(s'.mem.free) != []
  {
    hide Items, Contents, Reached, Alone, Next, Sent;
    WorkerStarts(s, 3);
    ReachThen(s0, s, StartWorker(3));
    var s1 := Then(s, StartWorker(3));
    WorkerLooks(s1, 3);
    ReachThen(s0, s1, Advance(3));
    var s2 := Then(s1, Advance(3));
    var n := ReceiveAlone(s2, 3);
    s' := Alone(s2, 3, n);
    ReachAlone(s0, s2, 3, n);
    assert Contents(s2.mem.work)[1..] == [];
    assert s.jobs[3 := Awake][3 := TakeWork(LoadHead(0))][3 := Awake] == map[1 := JobOf(s, 1), 3 := Awake];
  }

  /** Another producer stops before the tail, and the first one sets the flag. */
  lemma OneStops(s0: State, s: State, m1: Message, m2: Message, t: nat) returns (s': State)
    requires Items(s0) && Items(s) && Reached(s0, s) && s.bound == 1 && !s.mem.notified && s.h.sent == [m1]
    requires s.jobs == map[1 := Job.Doorbell(t), 3 := Awake] && Proper(m2) && m1.tracking != m2.tracking
    requires Contents(s.mem.work) == [] && !Lagging(s.mem.work) && Contents(s.mem.free) != []
    ensures Items(s') && Reached(s0, s') && s'.mem.notified && JobOf(s', 3) == Awake
    ensures |Contents(s'.mem.work)| == 1 && Lagging(s'.mem.work)
  {
    hide Items, Contents, Reached, Alone, Next, Lagging;
    forall x ensures Sending(JobOf(s, x)) == None { assert JobOf(s, x) in {Idle, Job.Doorbell(t), Awake}; }
    SecondSend(s, m1, m2);
    ReachThen(s0, s, CallSend(2, m2));
    var s1 := Then(s, CallSend(2, m2));
    var n := StopBeforeTail(s1, 2, m2);
    var s2 := Alone(s1, 2, n);
    ReachAlone(s0, s1, 2, n);
    assert JobOf(s1, 1) == Job.Doorbell(t) && JobOf(s1, 3) == Awake;
    DecisionSets(s2, 1);
    s' := Then(s2, Advance(1));
    ReachThen(s0, s2, Advance(1));
  }

  /**
    The condition on the tail is needed: a run in which a producer stops between its item and the tail while
    another sets the flag, so that the flag outlives the receive of the last item.
   */
  lemma LaggingTailKeepsFlag(s0: State, m1: Message, m2: Message) returns (s: State, n: nat)
    requires Starts(s0) && s0.bound == 1 && Proper(m1) && Proper(m2) && m1.tracking != m2.tracking
    ensures Items(s0) && Items(s) && Reached(s0, s)
    ensures s.mem.notified && |Contents(s.mem.work)| == 1 && JobOf(s, 3) == TakeWork(LoadHead(0))
    ensures Contents(Alone(s, 3, n).mem.work) == [] && Alone(s, 3, n).mem.notified
  {
    StartItems(s0);
    hide Items, Contents, Reached, Alone, Starts, Next, Lagging;
    var s1 := OneStores(s0, m1);
    var s2 := OneTakes(s0, s1);
    var s3 := OneStops(s0, s2, m1, m2, JobOf(s1, 1).t);
    WorkerLooks(s3, 3);
    s := Then(s3, Advance(3));
    ReachThen(s0, s3, Advance(3));
    n := LastItemClears(s, 3);
  }
}
