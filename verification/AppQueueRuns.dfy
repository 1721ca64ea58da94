/**
  Runs of the application queue from nxt_app_queue_init(): any number of router
  threads and workers, in any interleaving.
 */
module AppQueueRuns {
  import opened Bytes
  import opened Nncq
  import opened AppQueue
  import opened AppQueueSlots
  import opened Links
  import opened AppQueueItems

  // nxt_app_queue_init()

  lemma {:induction false} EnqueueAloneGood(q: Queue, i: nat, put: EnqueuePc, steps: nat)
    requires QueueGood(q) && EnqueueValid(q, i, put) && i < SIZE
    ensures var r := EnqueueAlone(q, i, put, steps); QueueGood(r.0) && r.0.head == q.head && EnqueueValid(r.0, i, r.1)
    decreases steps
  {
    if steps > 0 {
      var (q', put') := EnqueueStep(q, i, put);
      if put.Stored? || put.EnqueueFailed? {
        EnqueueAloneGood(q, i, put, steps - 1);
      } else {
        EnqueueGood(q, i, put);
        EnqueueAloneGood(q', i, put', steps - 1);
      }
    }
  }

  /** The slot indexes below n, in order. */
  function Upto(n: nat): seq<nat> { seq(n, i => i) }

  lemma OneMoreStored(q: Queue, i: nat)
    requires QueueGood(q) && i < SIZE
    ensures |q.entries| == SIZE
    ensures var q' := EnqueueAlone(q, i, LoadTail(0), 7).0; QueueGood(q') && Contents(q') == Contents(q) + [i]
  {
    hide EnqueueAlone, Contents;
    EnqueueAloneFinishes(q, i, 0);
    EnqueueAloneGood(q, i, LoadTail(0), 7);
  }

  /** The free list gets every slot, the work queue none. */
  method InitQueues() returns (free: Queue, work: Queue)
    ensures QueueGood(free) && Contents(free) == Upto(SIZE)
    ensures QueueGood(work) && Contents(work) == []
  {
    hide EnqueueAlone, Contents, QueueGood, Init;
    InitGood();
    free, work := Init(), Init();
    for i := 0 to SIZE
      invariant QueueGood(free) && Contents(free) == Upto(i)
    {
      OneMoreStored(free, i);
      free := EnqueueAlone(free, i, LoadTail(0), 7).0;
      assert Upto(i + 1) == Upto(i) + [i];
    }
  }

  /** A new segment: what the items hold before the first send does not matter. */
  ghost predicate Starts(s: State) {
    && QueueGood(s.mem.free) && Contents(s.mem.free) == Upto(SIZE)
    && s.mem.work == Init() && ItemsShape(s.mem.items) && !s.mem.notified && s.mem.doorbells == 0
    && s.jobs == map[] && s.bound >= 1
    && s.h == History(seq(SIZE, _ => InFree), [], map[], {}, map[], 0, false)
  }

  /** nxt_app_queue_init() of a segment: the items may hold anything. */
  method Initialize(items: seq<Item>, bound: nat) returns (s: State)
    requires ItemsShape(items) && bound >= 1
    ensures Starts(s) && s.mem.items == items && s.bound == bound
  {
    hide QueueGood;
    var free, _ := InitQueues();
    s := State(Memory(free, Init(), items, false, 0), map[],
               History(seq(SIZE, _ => InFree), [], map[], {}, map[], 0, false), bound);
  }

  lemma StartPlaces(s: State)
    requires Starts(s)
    ensures Side(s.h.owner, Contents(s.mem.free), InFree) && Side(s.h.owner, [], InWork)
  {
    hide QueueGood;
    forall x | 0 <= x < SIZE ensures x in Contents(s.mem.free) { assert Contents(s.mem.free)[x] == x; }
  }

  lemma InitGood()
    ensures QueueGood(Init()) && Contents(Init()) == []
  {
    hide Valid, SlotValid, Within, Contents;
    InitValid();
  }

  lemma StartShape(s: State)
    requires Starts(s)
    ensures Shape(s) && HeldBy(s) && (forall tid :: JobQueue(s, JobOf(s, tid)))
    ensures QueueGood(s.mem.free) && QueueGood(s.mem.work)
  {
    hide Init, Valid, Contents, SmallLog, QueueShape;
    InitGood();
    forall t ensures JobOf(s, t) == Idle { }
    QueueGoodParts(s.mem.free);
    QueueGoodParts(s.mem.work);
  }

  lemma QueueGoodParts(q: Queue)
    requires QueueGood(q)
    ensures QueueShape(q) && Valid(q) && SmallLog(q)
  {
  }

  lemma StartSlots(s: State)
    requires Starts(s)
    ensures Slots(s)
  {
    hide Init, Valid, Contents, SmallLog, QueueShape, Shape, HeldBy, Side, JobQueue, QueueGood;
    InitGood();
    StartShape(s);
    StartPlaces(s);
    QueueGoodParts(s.mem.free);
    QueueGoodParts(s.mem.work);
  }

  lemma StartItems(s: State)
    requires Starts(s)
    ensures Items(s)
  {
    hide Slots;
    StartSlots(s);
    forall t ensures JobOf(s, t) == Idle { }
  }

  ghost function Run(s: State, actions: seq<Action>): (r: State)
    requires Items(s)
    ensures Items(r)
    decreases |actions|
  {
    if actions == [] then s
    else
      var s' := Run(s, actions[..|actions| - 1]);
      NextKeepsItems(s', actions[|actions| - 1]);
      Next(s', actions[|actions| - 1])
  }

  // What holds in every state of every run.

  ghost predicate SomeoneHolds(s: State, i: nat) { exists tid :: HeldSlot(JobOf(s, tid)) == Some(i) }

  function One(b: bool): nat { if b then 1 else 0 }

  /** The index is on the free list, in the work queue, in a thread's hands or lost: in exactly one of them. */
  ghost predicate OnePlace(s: State, i: nat)
    requires i < |s.h.owner|
  {
    One(i in Contents(s.mem.free)) + One(i in Contents(s.mem.work))
      + One(SomeoneHolds(s, i)) + One(s.h.owner[i] == Lost) == 1
  }

  /** A slot index is in exactly one place, once; no two threads have it in hand. */
  lemma EachSlotInOnePlace(s: State, i: nat)
    requires Slots(s) && i < SIZE
    ensures OnePlace(s, i)
    ensures forall t, u :: HeldSlot(JobOf(s, t)) == Some(i) == HeldSlot(JobOf(s, u)) ==> t == u
    ensures NoDup(Contents(s.mem.free)) && NoDup(Contents(s.mem.work))
  {
    hide Slots, Contents, HeldSlot, JobOf, Bound;
    SlotsSides(s);
    match s.h.owner[i]
    case Held(tid) => assert HeldSlot(JobOf(s, tid)) == Some(i);
    case _ =>
  }

  predicate LostAt(h: History, i: nat) { i < |h.owner| && h.owner[i] == Lost }

  predicate OutOfRetries(job: Job, i: nat) {
    (job.PutFree? || job.ReturnSlot?) && job.i == i && job.put.LoadTail? && job.put.r >= RETRIES
  }

  lemma GiveBackLoses(s: State, tid: nat, i: nat, put: EnqueuePc, worker: bool, x: nat)
    requires Shape(s) && i < SIZE && !LostAt(s.h, x) && LostAt(GiveBackStep(s, tid, i, put, worker).h, x)
    requires !put.Stored? && !put.EnqueueFailed?
    ensures OutOfRetries(if worker then PutFree(i, put) else ReturnSlot(i, put), x)
  {
  }

  lemma TakeLosesNothing(s: State, tid: nat, m: Message, take: DequeuePc, x: nat)
    requires Shape(s) && TakeShape(take)
    ensures LostAt(TakeFreeStep(s, tid, m, take).h, x) ==> LostAt(s.h, x)
    ensures LostAt(TakeWorkStep(s, tid, take).h, x) ==> LostAt(s.h, x)
  {
  }

  lemma PutLosesNothing(s: State, tid: nat, m: Message, i: nat, put: EnqueuePc, x: nat)
    requires Shape(s) && i < SIZE
    ensures LostAt(PutWorkStep(s, tid, m, i, put).h, x) ==> LostAt(s.h, x)
  {
  }

  lemma QuietLosesNothing(s: State, tid: nat, job: Job, x: nat)
    requires Shape(s) && JobShape(job)
    ensures LostAt(QuietStep(s, tid, job).h, x) ==> LostAt(s.h, x)
  {
  }

  lemma OthersLoseNothing(s: State, a: Action, x: nat)
    requires Shape(s) && !a.Advance?
    ensures LostAt(Next(s, a).h, x) ==> LostAt(s.h, x)
  {
  }

  lemma NextIsStep(s: State, tid: nat)
    requires Shape(s)
    ensures Next(s, Advance(tid)) == Step(s, tid) && JobShape(JobOf(s, tid))
  {
  }

  lemma NotFinished(job: Job)
    requires JobShape(job) && (job.PutFree? || job.ReturnSlot?)
    ensures !job.put.Stored? && !job.put.EnqueueFailed?
  {
  }

  /** A slot is lost only when giving it back runs out of retries. */
  lemma LostOnlyWhenExhausted(s: State, a: Action, i: nat)
    requires Slots(s) && !LostAt(s.h, i) && LostAt(Next(s, a).h, i)
    ensures a.Advance? && OutOfRetries(JobOf(s, a.tid), i)
  {
    hide *;
    SlotsShape(s);
    if !a.Advance? {
      OthersLoseNothing(s, a, i);
    } else {
      var tid, job := a.tid, JobOf(s, a.tid);
      NextIsStep(s, tid);
      match job
      case TakeFree(m, take) =>
        StepTakesFree(s, tid, m, take);
        TakeLosesNothing(s, tid, m, take, i);
      case TakeWork(take) =>
        StepTakesWork(s, tid, take);
        TakeLosesNothing(s, tid, Message([], 0), take, i);
      case PutWork(m, j, put) =>
        StepPutsWork(s, tid, m, j, put);
        PutLosesNothing(s, tid, m, j, put, i);
      case ReturnSlot(j, put) =>
        NotFinished(job);
        StepGivesBack(s, tid, j, put, false);
        GiveBackLoses(s, tid, j, put, false, i);
      case PutFree(j, put) =>
        NotFinished(job);
        StepGivesBack(s, tid, j, put, true);
        GiveBackLoses(s, tid, j, put, true, i);
      case _ =>
        NotQueue(job);
        StepIsQuiet(s, tid, job);
        QuietLosesNothing(s, tid, job, i);
    }
  }

  /** Neither inner queue ever holds more than it has room for. */
  lemma WithinCapacity(s: State)
    requires Slots(s)
    ensures Within(s.mem.free) && Within(s.mem.work)
  {
    SideWithin(s.h.owner, Contents(s.mem.free), InFree);
    SideWithin(s.h.owner, Contents(s.mem.work), InWork);
  }

  /** A thread writes only the slot it has in hand. */
  lemma WritesOnlyHeldSlot(s: State, tid: nat, i: nat)
    requires Slots(s) && i < SIZE && HeldSlot(JobOf(s, tid)) != Some(i)
    ensures Step(s, tid).mem.items[i] == s.mem.items[i]
  {
    assert JobShape(JobOf(s, tid));
  }

  /**
    nxt_app_queue_queued() tells the truth, and nxt_app_queue_cancel() succeeds, exactly when the
    item waits and was not cancelled: whatever was sent in the slot since, no other request is hit.
   */
  lemma QueuedIffWaiting(s: State, p: nat)
    requires Items(s) && p in s.h.tickets && p < Bound(s.mem.work)
    ensures SIZE <= p && s.h.tickets[p] < SIZE
    ensures s.mem.items[s.h.tickets[p]].tracking == Sent(s, p).tracking <==> Waiting(s, p) && p !in s.h.cancelled
    ensures p in CancelStep(s, p).h.cancelled <==> Waiting(s, p) || p in s.h.cancelled
  {
    assert TicketGood(s, p) && Proper(Sent(s, p));
    if Waiting(s, p) {
      if p < s.mem.work.head {
        var t :| Receiving(JobOf(s, t)) == Some(p);
        assert JobItem(s, JobOf(s, t));
      }
      assert Carries(s, p);
    }
  }

  /** What a worker received is what was sent at that position; it claimed the item unless the router cancelled it. */
  ghost predicate Delivered(s: State, p: nat)
    requires p in s.h.received
  {
    && SIZE <= p < SIZE + |s.h.sent|
    && s.h.received[p].body == Sent(s, p).body
    && (s.h.received[p].claimed <==> p !in s.h.cancelled)
  }

  ghost predicate Safe(s: State)
    requires |s.h.owner| == SIZE
  {
    && Within(s.mem.free) && Within(s.mem.work)
    && (forall i :: 0 <= i < SIZE ==> OnePlace(s, i))
    && (forall p :: p in s.h.received ==> Delivered(s, p))
    && (forall i, t, u :: HeldSlot(JobOf(s, t)) == Some(i) == HeldSlot(JobOf(s, u)) ==> t == u)
  }

  lemma SafeState(s: State)
    requires Items(s)
    ensures Safe(s)
  {
    WithinCapacity(s);
    forall p | p in s.h.received ensures Delivered(s, p) { assert ReceivedGood(s, p); }
    forall i | 0 <= i < SIZE ensures OnePlace(s, i) { EachSlotInOnePlace(s, i); }
    forall i, t, u | HeldSlot(JobOf(s, t)) == Some(i) == HeldSlot(JobOf(s, u)) ensures t == u {
      assert JobShape(JobOf(s, t));
      EachSlotInOnePlace(s, i);
    }
  }

  /**
    In every run: both queues are within their capacity, each slot index is in exactly one place and in
    the hands of at most one thread, and every message that was received is the one that was sent,
    claimed by the worker unless the router cancelled it.
   */
  lemma {:induction false} SafeRuns(s0: State, actions: seq<Action>)
    requires Starts(s0)
    ensures Items(s0) && |Run(s0, actions).h.owner| == SIZE && Safe(Run(s0, actions))
  {
    StartItems(s0);
    hide Safe, Run, Starts;
    SafeState(Run(s0, actions));
  }
}
