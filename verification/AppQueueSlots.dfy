/**
  Where the slots are: in every run each slot index is in exactly one place, so
  neither inner queue overflows and no two threads touch the same item.
 */
module AppQueueSlots {
  import opened Bytes
  import opened Nncq
  import opened AppQueue
  import opened Links

  /** A queue holds exactly the slots that are at its place, each once. */
  ghost predicate Side(owner: seq<Place>, contents: seq<nat>, place: Place) {
    && NoDup(contents)
    && (forall k :: 0 <= k < |contents| ==> contents[k] < |owner| && owner[contents[k]] == place)
    && (forall x :: 0 <= x < |owner| && owner[x] == place ==> x in contents)
  }

  ghost predicate HeldBy(s: State) {
    forall tid, x :: 0 <= x < |s.h.owner| ==>
      (HeldSlot(JobOf(s, tid)) == Some(x) <==> s.h.owner[x] == Held(tid))
  }

  ghost predicate JobQueue(s: State, job: Job) {
    match job
    case TakeFree(_, take) => DequeueValid(s.mem.free, take)
    case TakeWork(take) => DequeueValid(s.mem.work, take)
    case PutWork(_, i, put) => EnqueueValid(s.mem.work, i, put)
    case ReturnSlot(i, put) => EnqueueValid(s.mem.free, i, put)
    case PutFree(i, put) => EnqueueValid(s.mem.free, i, put)
    case Doorbell(t) => SIZE <= t < Bound(s.mem.work)
    case _ => true
  }

  ghost predicate SmallLog(q: Queue) { forall k :: 0 <= k < |q.log| ==> q.log[k] < SIZE }

  ghost predicate Slots(s: State) {
    && Shape(s)
    && Valid(s.mem.free) && Valid(s.mem.work) && SmallLog(s.mem.free) && SmallLog(s.mem.work)
    && (forall tid :: JobQueue(s, JobOf(s, tid)))
    && Side(s.h.owner, Contents(s.mem.free), InFree)
    && Side(s.h.owner, Contents(s.mem.work), InWork)
    && HeldBy(s)
  }

  lemma SlotsSides(s: State)
    requires Slots(s)
    ensures |s.h.owner| == SIZE && HeldBy(s)
    ensures Side(s.h.owner, Contents(s.mem.free), InFree) && Side(s.h.owner, Contents(s.mem.work), InWork)
  {
    hide Side, HeldBy, Valid, JobQueue, JobShape, QueueShape, SmallLog, ItemsShape;
  }

  // One queue and the owners.

  lemma SideAdd(owner: seq<Place>, contents: seq<nat>, place: Place, i: nat)
    requires Side(owner, contents, place) && i < |owner| && owner[i] != place
    ensures Side(owner[i := place], contents + [i], place)
  {
    assert i !in contents;
    var owner', contents' := owner[i := place], contents + [i];
    forall x | 0 <= x < |owner'| && owner'[x] == place ensures x in contents' {
      if x == i { assert contents'[|contents|] == i; } else {
        var k :| 0 <= k < |contents| && contents[k] == x;
        assert contents'[k] == x;
      }
    }
  }

  lemma SideRemove(owner: seq<Place>, contents: seq<nat>, place: Place, i: nat, to: Place)
    requires Side(owner, [i] + contents, place) && to != place
    ensures i < |owner| && owner[i] == place
    ensures Side(owner[i := to], contents, place)
  {
    var before := [i] + contents;
    assert before[0] == i;
    assert before[1..] == contents;
    assert NoDup(contents);
    forall k | 0 <= k < |contents| ensures contents[k] < |owner| && contents[k] != i && owner[contents[k]] == place {
      assert before[k + 1] == contents[k];
    }
    forall x | 0 <= x < |owner| && x != i && owner[x] == place ensures x in contents {
      assert x in before;
    }
  }

  lemma SideOther(owner: seq<Place>, contents: seq<nat>, place: Place, i: nat, to: Place)
    requires Side(owner, contents, place) && i < |owner| && owner[i] != place && to != place
    ensures Side(owner[i := to], contents, place)
  {
  }

  /** A queue of distinct slots is never over its capacity. */
  lemma SideWithin(owner: seq<Place>, contents: seq<nat>, place: Place)
    requires Side(owner, contents, place)
    ensures |contents| <= |owner|
  {
    DistinctBounded(contents, |owner|);
  }

  lemma {:induction false} DistinctBounded(s: seq<nat>, n: nat)
    requires NoDup(s) && forall k :: 0 <= k < |s| ==> s[k] < n
    ensures |s| <= n
    decreases n
  {
    if s != [] {
      assert s[0] < n;
      if n - 1 in s {
        var k :| 0 <= k < |s| && s[k] == n - 1;
        var rest := s[..k] + s[k + 1..];
        forall a, b | 0 <= a < b < |rest| ensures rest[a] != rest[b] {
          assert rest[a] == s[if a < k then a else a + 1];
          assert rest[b] == s[if b < k then b else b + 1];
        }
        forall a | 0 <= a < |rest| ensures rest[a] < n - 1 {
          assert rest[a] == s[if a < k then a else a + 1];
        }
        DistinctBounded(rest, n - 1);
      } else {
        forall k | 0 <= k < |s| ensures s[k] < n - 1 { assert s[k] in s; }
        DistinctBounded(s, n - 1);
      }
    }
  }

  // Threads other than the one that moves.

  /** s' is s after thread tid became job'; both queues only evolved. */
  ghost predicate Moved(s: State, s': State, tid: nat, job': Job) {
    && s'.jobs == s.jobs[tid := job']
    && Evolves(s.mem.free, s'.mem.free) && Evolves(s.mem.work, s'.mem.work)
    && s'.bound == s.bound
  }

  lemma OthersKeepQueues(s: State, s': State, tid: nat, job': Job)
    requires Slots(s) && Moved(s, s', tid, job')
    requires Valid(s'.mem.free) && Valid(s'.mem.work) && JobQueue(s', job') && JobShape(job')
    ensures forall t :: JobQueue(s', JobOf(s', t))
    ensures forall t :: JobShape(JobOf(s', t))
  {
    forall t ensures JobQueue(s', JobOf(s', t)) && JobShape(JobOf(s', t)) {
      if t != tid {
        var job := JobOf(s, t);
        assert JobOf(s', t) == job && JobQueue(s, job) && JobShape(job);
        match job
        case TakeFree(_, take) => EvolvesKeeps(s.mem.free, s'.mem.free, 0, LoadTail(0), take);
        case TakeWork(take) => EvolvesKeeps(s.mem.work, s'.mem.work, 0, LoadTail(0), take);
        case PutWork(_, i, put) => EvolvesKeeps(s.mem.work, s'.mem.work, i, put, LoadHead(0));
        case ReturnSlot(i, put) => EvolvesKeeps(s.mem.free, s'.mem.free, i, put, LoadHead(0));
        case PutFree(i, put) => EvolvesKeeps(s.mem.free, s'.mem.free, i, put, LoadHead(0));
        case _ =>
      } else {
        assert JobOf(s', t) == job';
      }
    }
  }

  lemma HeldSame(s: State, s': State, tid: nat, job': Job)
    requires HeldBy(s) && s'.jobs == s.jobs[tid := job'] && s'.h.owner == s.h.owner
    requires HeldSlot(job') == HeldSlot(JobOf(s, tid))
    ensures HeldBy(s')
  {
  }

  lemma HeldTaken(s: State, s': State, tid: nat, job': Job, i: nat)
    requires HeldBy(s) && i < |s.h.owner| && !s.h.owner[i].Held?
    requires s'.jobs == s.jobs[tid := job'] && s'.h.owner == s.h.owner[i := Held(tid)]
    requires HeldSlot(JobOf(s, tid)) == None && HeldSlot(job') == Some(i)
    ensures HeldBy(s')
  {
  }

  lemma HeldDropped(s: State, s': State, tid: nat, job': Job, i: nat, to: Place)
    requires HeldBy(s) && i < |s.h.owner| && !to.Held?
    requires s'.jobs == s.jobs[tid := job'] && s'.h.owner == s.h.owner[i := to]
    requires HeldSlot(JobOf(s, tid)) == Some(i) && HeldSlot(job') == None
    ensures HeldBy(s') && s.h.owner[i] == Held(tid)
  {
  }

  ghost predicate QueueGood(q: Queue) { QueueShape(q) && Valid(q) && SmallLog(q) }

  /** The ways a step can touch the slots: slot i leaves the front of a queue, or joins its end. */
  datatype Change = NoMove | Take(i: nat, free: bool) | Put(i: nat, to: Place)

  ghost predicate Changed(s: State, s': State, tid: nat, job': Job, c: Change) {
    match c
    case NoMove =>
      && Contents(s'.mem.free) == Contents(s.mem.free) && Contents(s'.mem.work) == Contents(s.mem.work)
      && s'.h.owner == s.h.owner && HeldSlot(job') == HeldSlot(JobOf(s, tid))
    case Take(i, free) =>
      && i < |s.h.owner| && s'.h.owner == s.h.owner[i := Held(tid)]
      && HeldSlot(JobOf(s, tid)) == None && HeldSlot(job') == Some(i)
      && Contents(s.mem.free) == (if free then [i] + Contents(s'.mem.free) else Contents(s'.mem.free))
      && Contents(s.mem.work) == (if free then Contents(s'.mem.work) else [i] + Contents(s'.mem.work))
    case Put(i, to) =>
      && i < |s.h.owner| && !to.Held? && s'.h.owner == s.h.owner[i := to]
      && HeldSlot(JobOf(s, tid)) == Some(i) && HeldSlot(job') == None
      && Contents(s'.mem.free) == (if to.InFree? then Contents(s.mem.free) + [i] else Contents(s.mem.free))
      && Contents(s'.mem.work) == (if to.InWork? then Contents(s.mem.work) + [i] else Contents(s.mem.work))
  }

  lemma ChangeKeepsPlaces(s: State, s': State, tid: nat, job': Job, c: Change)
    requires Side(s.h.owner, Contents(s.mem.free), InFree) && Side(s.h.owner, Contents(s.mem.work), InWork)
    requires HeldBy(s) && s'.jobs == s.jobs[tid := job'] && Changed(s, s', tid, job', c)
    ensures Side(s'.h.owner, Contents(s'.mem.free), InFree) && Side(s'.h.owner, Contents(s'.mem.work), InWork)
    ensures HeldBy(s')
  {
    match c
    case NoMove => HeldSame(s, s', tid, job');
    case Take(i, free) =>
      if free {
        SideRemove(s.h.owner, Contents(s'.mem.free), InFree, i, Held(tid));
        SideOther(s.h.owner, Contents(s'.mem.work), InWork, i, Held(tid));
      } else {
        SideRemove(s.h.owner, Contents(s'.mem.work), InWork, i, Held(tid));
        SideOther(s.h.owner, Contents(s'.mem.free), InFree, i, Held(tid));
      }
      HeldTaken(s, s', tid, job', i);
    case Put(i, to) =>
      HeldDropped(s, s', tid, job', i, to);
      if to.InFree? {
        SideAdd(s.h.owner, Contents(s.mem.free), InFree, i);
      } else {
        SideOther(s.h.owner, Contents(s.mem.free), InFree, i, to);
      }
      if to.InWork? {
        SideAdd(s.h.owner, Contents(s.mem.work), InWork, i);
      } else {
        SideOther(s.h.owner, Contents(s.mem.work), InWork, i, to);
      }
  }

  lemma ChangeKeeps(s: State, s': State, tid: nat, job': Job, c: Change)
    requires Slots(s) && Moved(s, s', tid, job') && QueueGood(s'.mem.free) && QueueGood(s'.mem.work)
    requires ItemsShape(s'.mem.items) && JobShape(job') && JobQueue(s', job')
    requires Changed(s, s', tid, job', c)
    ensures Slots(s')
  {
    OthersKeepQueues(s, s', tid, job');
    ChangeKeepsPlaces(s, s', tid, job', c);
  }

  // The steps.

  lemma DequeueGood(q: Queue, take: DequeuePc)
    requires QueueGood(q) && DequeueValid(q, take) && TakeShape(take)
    ensures var (q', take') := DequeueStep(q, take);
            && QueueGood(q') && DequeueValid(q', take') && Evolves(q, q') && q'.log == q.log
            && (take'.Taken? ==> take'.value < SIZE && Contents(q) == [take'.value] + Contents(q'))
            && (!take'.Taken? ==> Contents(q') == Contents(q))
            && (take'.FoundEmpty? ==> Contents(q) == [])
            && (!take'.Taken? && !take'.FoundEmpty? && !take'.GaveUp? ==> TakeShape(take'))
  {
    DequeueStepKeeps(q, take);
    DequeueStepEffect(q, take);
  }

  lemma EnqueueGood(q: Queue, i: nat, put: EnqueuePc)
    requires QueueGood(q) && EnqueueValid(q, i, put) && i < SIZE && !put.Stored? && !put.EnqueueFailed?
    ensures var (q', put') := EnqueueStep(q, i, put);
            && QueueGood(q') && EnqueueValid(q', i, put') && Evolves(q, q') && q'.head == q.head
            && (Stores(put, put') ==>
                  Contents(q') == Contents(q) + [i] && put'.t == Bound(q) && q'.log == q.log + [i])
            && (!Stores(put, put') ==> Contents(q') == Contents(q) && q'.log == q.log)
            && (!Stores(put, put') && !put'.Stored? ==> Published(put') == Published(put))
            && (put'.Stored? ==> Published(put))
            && (put'.EnqueueFailed? || Stores(put, put') ==> !Published(put))
  {
    EnqueueStepKeeps(q, i, put);
    EnqueueStepEffect(q, i, put);
  }

  lemma TakeFreeKeeps(s: State, tid: nat, m: Message, take: DequeuePc)
    requires Slots(s) && JobOf(s, tid) == TakeFree(m, take)
    ensures Slots(TakeFreeStep(s, tid, m, take))
  {
    assert JobQueue(s, JobOf(s, tid)) && JobShape(JobOf(s, tid));
    DequeueGood(s.mem.free, take);
    var take' := DequeueStep(s.mem.free, take).1;
    ChangeKeeps(s, TakeFreeStep(s, tid, m, take), tid, AfterTakeFree(m, take'),
                if take'.Taken? then Take(take'.value, true) else NoMove);
  }

  lemma TakeWorkKeeps(s: State, tid: nat, take: DequeuePc)
    requires Slots(s) && JobOf(s, tid) == TakeWork(take)
    ensures Slots(TakeWorkStep(s, tid, take))
  {
    assert JobQueue(s, JobOf(s, tid)) && JobShape(JobOf(s, tid));
    DequeueGood(s.mem.work, take);
    var take' := DequeueStep(s.mem.work, take).1;
    ChangeKeeps(s, TakeWorkStep(s, tid, take), tid, AfterTakeWork(take', s.mem.work.head),
                if take'.Taken? then Take(take'.value, false) else NoMove);
  }

  lemma PutWorkKeeps(s: State, tid: nat, m: Message, i: nat, put: EnqueuePc)
    requires Slots(s) && JobOf(s, tid) == PutWork(m, i, put)
    ensures Slots(PutWorkStep(s, tid, m, i, put))
  {
    assert JobQueue(s, JobOf(s, tid)) && JobShape(JobOf(s, tid));
    EnqueueGood(s.mem.work, i, put);
    var put' := EnqueueStep(s.mem.work, i, put).1;
    ChangeKeeps(s, PutWorkStep(s, tid, m, i, put), tid, AfterPutWork(m, i, put'),
                if Stores(put, put') then Put(i, InWork) else NoMove);
  }

  lemma AfterGiveBackGood(s: State, i: nat, put: EnqueuePc, put': EnqueuePc, worker: bool)
    requires i < SIZE && EnqueueValid(s.mem.free, i, put')
    requires put'.EnqueueFailed? || Stores(put, put') ==> !Published(put)
    requires !Stores(put, put') && !put'.Stored? ==> Published(put') == Published(put)
    requires put'.Stored? ==> Published(put)
    ensures var job := if worker then PutFree(i, put) else ReturnSlot(i, put);
            var job' := AfterGiveBack(i, put', worker);
            && JobShape(job') && JobQueue(s, job')
            && HeldSlot(job) == (if Published(put) then None else Some(i))
            && HeldSlot(job') == (if Stores(put, put') || put'.EnqueueFailed? || Published(put) then None else Some(i))
  {
  }

  lemma GiveBackKeeps(s: State, tid: nat, i: nat, put: EnqueuePc, worker: bool)
    requires Slots(s) && JobOf(s, tid) == if worker then PutFree(i, put) else ReturnSlot(i, put)
    ensures Slots(GiveBackStep(s, tid, i, put, worker))
  {
    assert JobQueue(s, JobOf(s, tid)) && JobShape(JobOf(s, tid));
    EnqueueGood(s.mem.free, i, put);
    var (q, put') := EnqueueStep(s.mem.free, i, put);
    AfterGiveBackGood(s.(mem := s.mem.(free := q)), i, put, put', worker);
    ChangeKeeps(s, GiveBackStep(s, tid, i, put, worker), tid, AfterGiveBack(i, put', worker),
                if Stores(put, put') then Put(i, InFree) else if put'.EnqueueFailed? then Put(i, Lost) else NoMove);
  }

  /** A step of a thread that touches neither queue. */
  lemma QuietKeeps(s: State, s': State, tid: nat, job': Job)
    requires Slots(s) && s'.jobs == s.jobs[tid := job'] && s'.bound == s.bound && ItemsShape(s'.mem.items)
    requires s'.mem.free == s.mem.free && s'.mem.work == s.mem.work && s'.h.owner == s.h.owner
    requires HeldSlot(job') == HeldSlot(JobOf(s, tid)) && JobShape(job') && JobQueue(s, job')
    ensures Slots(s')
  {
    ChangeKeeps(s, s', tid, job', NoMove);
  }

  predicate TouchesQueue(job: Job) {
    job.TakeFree? || job.PutWork? || job.ReturnSlot? || job.TakeWork? || job.PutFree?
  }

  lemma AfterKeeps(mem: Memory, s: State, job: Job)
    requires ItemsShape(mem.items) && JobShape(job) && JobQueue(s, job) && !TouchesQueue(job)
    ensures var job' := After(mem, s.bound, job);
            HeldSlot(job') == HeldSlot(job) && JobShape(job') && JobQueue(s, job')
    ensures ItemsShape(WriteItems(mem.items, job))
  {
  }

  lemma QuietStepKeeps(s: State, tid: nat, job: Job)
    requires Slots(s) && JobOf(s, tid) == job && !TouchesQueue(job)
    ensures Slots(QuietStep(s, tid, job))
  {
    assert JobQueue(s, job) && JobShape(job);
    AfterKeeps(s.mem, s, job);
    QuietKeeps(s, QuietStep(s, tid, job), tid, After(s.mem, s.bound, job));
  }

  // Which step a thread makes.

  lemma StepTakesFree(s: State, tid: nat, m: Message, take: DequeuePc)
    requires Shape(s) && JobOf(s, tid) == TakeFree(m, take)
    ensures TakeShape(take) && Step(s, tid) == TakeFreeStep(s, tid, m, take)
  {
    assert JobShape(JobOf(s, tid));
  }

  lemma StepPutsWork(s: State, tid: nat, m: Message, i: nat, put: EnqueuePc)
    requires Shape(s) && JobOf(s, tid) == PutWork(m, i, put)
    ensures i < SIZE && Step(s, tid) == PutWorkStep(s, tid, m, i, put)
  {
    assert JobShape(JobOf(s, tid));
  }

  lemma StepTakesWork(s: State, tid: nat, take: DequeuePc)
    requires Shape(s) && JobOf(s, tid) == TakeWork(take)
    ensures TakeShape(take) && Step(s, tid) == TakeWorkStep(s, tid, take)
  {
    assert JobShape(JobOf(s, tid));
  }

  lemma StepGivesBack(s: State, tid: nat, i: nat, put: EnqueuePc, worker: bool)
    requires Shape(s) && JobOf(s, tid) == if worker then PutFree(i, put) else ReturnSlot(i, put)
    ensures i < SIZE && Step(s, tid) == GiveBackStep(s, tid, i, put, worker)
  {
    assert JobShape(JobOf(s, tid));
  }

  lemma StepIsQuiet(s: State, tid: nat, job: Job)
    requires Shape(s) && JobOf(s, tid) == job && !TouchesQueue(job)
    ensures JobShape(job) && Step(s, tid) == QuietStep(s, tid, job)
  {
    assert JobShape(JobOf(s, tid));
  }

  lemma SlotsShape(s: State)
    requires Slots(s)
    ensures Shape(s)
  {
  }

  lemma NotQueue(job: Job)
    requires !job.TakeFree? && !job.PutWork? && !job.ReturnSlot? && !job.TakeWork? && !job.PutFree?
    ensures !TouchesQueue(job)
  {
  }

  lemma StepKeepsSlots(s: State, tid: nat)
    requires Slots(s)
    ensures Slots(Step(s, tid))
  {
    hide *;
    SlotsShape(s);
    match JobOf(s, tid)
    case TakeFree(m, take) =>
      StepTakesFree(s, tid, m, take);
      TakeFreeKeeps(s, tid, m, take);
    case PutWork(m, i, put) =>
      StepPutsWork(s, tid, m, i, put);
      PutWorkKeeps(s, tid, m, i, put);
    case ReturnSlot(i, put) =>
      StepGivesBack(s, tid, i, put, false);
      GiveBackKeeps(s, tid, i, put, false);
    case TakeWork(take) =>
      StepTakesWork(s, tid, take);
      TakeWorkKeeps(s, tid, take);
    case PutFree(i, put) =>
      StepGivesBack(s, tid, i, put, true);
      GiveBackKeeps(s, tid, i, put, true);
    case _ =>
      NotQueue(JobOf(s, tid));
      StepIsQuiet(s, tid, JobOf(s, tid));
      QuietStepKeeps(s, tid, JobOf(s, tid));
  }

  lemma NextKeepsSlots(s: State, a: Action)
    requires Slots(s)
    ensures Slots(Next(s, a))
  {
    var s' := Next(s, a);
    match a
    case Advance(tid) => StepKeepsSlots(s, tid);
    case Cancel(_) => SameJobsKeep(s, s');
    case Forget(_) => SameJobsKeep(s, s');
    case CallSend(tid, m) =>
      if s' != s { QuietKeeps(s, s', tid, TakeFree(m, LoadHead(0))); }
    case StartWorker(tid) =>
      if s' != s { QuietKeeps(s, s', tid, Awake); }
    case End(tid, _) =>
      if MayEnd(JobOf(s, tid)) { QuietKeeps(s, s', tid, Idle); }
  }

  lemma SameJobsKeep(s: State, s': State)
    requires Slots(s) && ItemsShape(s'.mem.items) && s'.jobs == s.jobs && s'.bound == s.bound
    requires s'.mem.free == s.mem.free && s'.mem.work == s.mem.work && s'.h.owner == s.h.owner
    ensures Slots(s')
  {
    forall tid ensures JobOf(s', tid) == JobOf(s, tid) { }
  }
}
