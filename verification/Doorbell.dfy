/**
  No lost wake-up: in both doorbell modes the doorbells in the socket, the
  threads on their way to the queue and the producers on their way to the bell
  are enough for the items that wait.
 */
module Doorbell {
  import opened Bytes
  import opened Nncq
  import opened AppQueue
  import opened AppQueueSlots
  import opened AppQueueItems
  import opened AppQueueRuns

  /** A worker that will look at the work queue again before it sleeps. */
  predicate WillLook(job: Job) {
    || job.Awake? || job.TakeWork? || job.ClearFlag?
    || job.ReadSize? || job.ReadData? || job.Claim? || job.PutFree?
    || job.LoadDepthTail? || job.LoadDepthHead? || job.Rearm?
  }

  /** The position of an item whose producer has not decided about the bell yet. */
  function Undecided(job: Job): Option<nat> {
    match job
    case PutWork(_, _, put) => if put.AdvanceTail? then Some(put.t) else None
    case Doorbell(t) => Some(t)
    case _ => None
  }

  /** An item whose producer would ring if it looked now, and hence if it looks later. */
  predicate InWindow(head: nat, bound: nat, t: nat) { bound == 1 || t < head + bound }

  predicate Helps(head: nat, bound: nat, job: Job) {
    || WillLook(job)
    || job.Ring?
    || (Undecided(job).Some? && InWindow(head, bound, Undecided(job).value))
  }

  function Helpers(s: State): set<nat> {
    set tid | tid in s.jobs && Helps(s.mem.work.head, s.bound, s.jobs[tid])
  }

  /** In the one-wake mode, the doorbell that the flag stands for may have ended unread. */
  predicate Stale(s: State) { s.bound == 1 && s.h.stale }

  /** Up to `bound` waiting items have somebody coming for them, but for one for each look that was lost. */
  ghost predicate Covered(s: State) {
    Stale(s) || s.mem.doorbells + |Helpers(s)| + s.h.missed >= Min(|Contents(s.mem.work)|, s.bound)
  }

  /** The one-wake flag is set only while its doorbell is on the way, or after that may have ended unread. */
  ghost predicate Flagged(s: State) {
    s.bound == 1 && s.mem.notified ==>
      s.mem.doorbells > 0 || Stale(s) || exists tid :: JobOf(s, tid).Ring? || JobOf(s, tid).ClearFlag?
  }

  ghost predicate Awaited(s: State) { Covered(s) && Flagged(s) }

  // Counting the helpers.

  lemma {:induction false} SubsetSize(a: set<nat>, b: set<nat>)
    requires a <= b
    ensures |a| <= |b|
  {
    if a != {} {
      var x :| x in a;
      SubsetSize(a - {x}, b - {x});
    }
  }

  function Helping(s: State, tid: nat): nat { One(Helps(s.mem.work.head, s.bound, JobOf(s, tid))) }

  lemma HelpersAre(s: State, tid: nat)
    ensures Helpers(s) == (Helpers(s) - {tid}) + (if Helping(s, tid) == 1 then {tid} else {})
  {
    assert tid in Helpers(s) <==> Helping(s, tid) == 1;
  }

  /** Whatever one thread does, the others go on helping: the window only moves forward. */
  lemma OthersHelp(s: State, s': State, tid: nat, job': Job)
    requires s'.jobs == s.jobs[tid := job'] && s'.bound == s.bound && s.mem.work.head <= s'.mem.work.head
    ensures |Helpers(s')| + Helping(s, tid) >= |Helpers(s)| + Helping(s', tid)
  {
    var a, b := Helpers(s) - {tid}, Helpers(s') - {tid};
    assert a <= b by {
      forall t | t in a ensures t in b { assert s'.jobs[t] == s.jobs[t]; }
    }
    SubsetSize(a, b);
    HelpersAre(s, tid);
    HelpersAre(s', tid);
    assert |Helpers(s)| == |a| + Helping(s, tid);
    assert |Helpers(s')| == |b| + Helping(s', tid);
  }

  lemma Present(s: State, tid: nat)
    requires Helping(s, tid) == 1
    ensures |Helpers(s)| >= 1
  {
    SubsetSize({tid}, Helpers(s));
  }

  // The steps.

  /** What a step may cost: it gives back to doorbells and helpers whatever it takes from the coverage. */
  lemma CoveredStep(s: State, s': State, tid: nat, job': Job)
    requires Covered(s)
    requires s'.jobs == s.jobs[tid := job'] && s'.bound == s.bound && s.mem.work.head <= s'.mem.work.head
    requires Stale(s) ==> Stale(s') || Helping(s', tid) == 1
    requires Contents(s'.mem.work) == []
          || s'.mem.doorbells + Helping(s', tid) + s'.h.missed + Min(|Contents(s.mem.work)|, s.bound)
          >= s.mem.doorbells + Helping(s, tid) + s.h.missed + Min(|Contents(s'.mem.work)|, s.bound)
    ensures Covered(s')
  {
    OthersHelp(s, s', tid, job');
    if Helping(s', tid) == 1 { Present(s', tid); }
  }

  lemma FlaggedStep(s: State, s': State, tid: nat, job': Job)
    requires Flagged(s) && s'.jobs == s.jobs[tid := job'] && s'.bound == s.bound
    requires s'.mem.notified ==> s.mem.notified || job'.Ring?
    requires s'.mem.doorbells >= s.mem.doorbells || job'.ClearFlag? || Stale(s')
    requires JobOf(s, tid).Ring? ==> s'.mem.doorbells > 0
    requires JobOf(s, tid).ClearFlag? ==> !s'.mem.notified || Stale(s')
    requires Stale(s) ==> Stale(s') || !s'.mem.notified
    ensures Flagged(s')
  {
    assert JobOf(s', tid) == job';
    forall t | t != tid ensures JobOf(s', t) == JobOf(s, t) { }
  }

  lemma PutWorkAwaited(s: State, tid: nat, m: Message, i: nat, put: EnqueuePc)
    requires Slots(s) && Awaited(s) && JobOf(s, tid) == PutWork(m, i, put)
    ensures Awaited(PutWorkStep(s, tid, m, i, put))
  {
    hide Slots, EnqueueStep, QueueGood, Valid, Contents, Covered, Flagged, Helpers, Evolves, EnqueueValid;
    SlotsJob(s, tid);
    StoringJob(s, m, i, put);
    StoringQueue(s.mem.work, i, put);
    EnqueueGood(s.mem.work, i, put);
    var s' := PutWorkStep(s, tid, m, i, put);
    var job' := AfterPutWork(m, i, EnqueueStep(s.mem.work, i, put).1);
    CoveredStep(s, s', tid, job');
    FlaggedStep(s, s', tid, job');
  }

  lemma StoringJob(s: State, m: Message, i: nat, put: EnqueuePc)
    requires JobShape(PutWork(m, i, put)) && JobQueue(s, PutWork(m, i, put))
    ensures i < SIZE && EnqueueValid(s.mem.work, i, put) && !put.Stored? && !put.EnqueueFailed?
  {
  }

  lemma StoringQueue(q: Queue, i: nat, put: EnqueuePc)
    requires QueueGood(q)
    ensures |Contents(q)| == Bound(q) - q.head
    ensures var put' := EnqueueStep(q, i, put).1;
            put'.Stored? && put.AdvanceTail? ==> put'.t == put.t
    ensures var put' := EnqueueStep(q, i, put).1;
            put.AdvanceTail? ==> put'.Stored?
  {
  }

  lemma TakeWorkAwaited(s: State, tid: nat, take: DequeuePc)
    requires Slots(s) && Awaited(s) && JobOf(s, tid) == TakeWork(take)
    ensures Awaited(TakeWorkStep(s, tid, take))
  {
    assert JobShape(JobOf(s, tid)) && JobQueue(s, JobOf(s, tid));
    DequeueGood(s.mem.work, take);
    var s' := TakeWorkStep(s, tid, take);
    var job' := AfterTakeWork(DequeueStep(s.mem.work, take).1, s.mem.work.head);
    CoveredStep(s, s', tid, job');
    FlaggedStep(s, s', tid, job');
  }

  lemma TakeFreeAwaited(s: State, tid: nat, m: Message, take: DequeuePc)
    requires Slots(s) && Awaited(s) && JobOf(s, tid) == TakeFree(m, take)
    ensures Awaited(TakeFreeStep(s, tid, m, take))
  {
    assert JobShape(JobOf(s, tid));
    var s' := TakeFreeStep(s, tid, m, take);
    var job' := AfterTakeFree(m, DequeueStep(s.mem.free, take).1);
    CoveredStep(s, s', tid, job');
    FlaggedStep(s, s', tid, job');
  }

  lemma GiveBackAwaited(s: State, tid: nat, i: nat, put: EnqueuePc, worker: bool)
    requires Slots(s) && Awaited(s) && i < SIZE
    requires JobOf(s, tid) == if worker then PutFree(i, put) else ReturnSlot(i, put)
    ensures Awaited(GiveBackStep(s, tid, i, put, worker))
  {
    var s' := GiveBackStep(s, tid, i, put, worker);
    var job' := AfterGiveBack(i, EnqueueStep(s.mem.free, i, put).1, worker);
    CoveredStep(s, s', tid, job');
    FlaggedStep(s, s', tid, job');
  }

  /** A producer that finds the flag set does not ring: somebody else's doorbell is on the way. */
  lemma FlagCovers(s: State, s': State, tid: nat)
    requires Flagged(s) && s.bound == 1 && s.mem.notified && JobOf(s, tid).Doorbell?
    requires s'.jobs == s.jobs[tid := Idle] && s'.bound == 1 && s'.mem.doorbells == s.mem.doorbells && s'.h == s.h
    ensures Covered(s')
  {
    if s.mem.doorbells == 0 && !Stale(s) {
      var t :| JobOf(s, t).Ring? || JobOf(s, t).ClearFlag?;
      assert JobOf(s', t) == JobOf(s, t);
      Present(s', t);
    }
  }

  lemma DoorbellAwaited(s: State, tid: nat, t: nat)
    requires Slots(s) && Awaited(s) && JobOf(s, tid) == Job.Doorbell(t)
    ensures Awaited(QuietStep(s, tid, Job.Doorbell(t)))
  {
    var s' := QuietStep(s, tid, Job.Doorbell(t));
    var job' := After(s.mem, s.bound, Job.Doorbell(t));
    if s.bound == 1 && s.mem.notified {
      FlagCovers(s, s', tid);
    } else {
      CoveredStep(s, s', tid, job');
    }
    FlaggedStep(s, s', tid, job');
  }

  lemma QuietAwaited(s: State, tid: nat, job: Job)
    requires Slots(s) && Awaited(s) && JobOf(s, tid) == job && !TouchesQueue(job) && !job.Doorbell?
    requires JobShape(job)
    ensures Awaited(QuietStep(s, tid, job))
  {
    var s' := QuietStep(s, tid, job);
    var job' := After(s.mem, s.bound, job);
    CoveredStep(s, s', tid, job');
    FlaggedStep(s, s', tid, job');
  }

  lemma StepAwaited(s: State, tid: nat)
    requires Slots(s) && Awaited(s)
    ensures Awaited(Step(s, tid))
  {
    hide *;
    SlotsShape(s);
    match JobOf(s, tid)
    case TakeFree(m, take) =>
      StepTakesFree(s, tid, m, take);
      TakeFreeAwaited(s, tid, m, take);
    case PutWork(m, i, put) =>
      StepPutsWork(s, tid, m, i, put);
      PutWorkAwaited(s, tid, m, i, put);
    case ReturnSlot(i, put) =>
      StepGivesBack(s, tid, i, put, false);
      GiveBackAwaited(s, tid, i, put, false);
    case TakeWork(take) =>
      StepTakesWork(s, tid, take);
      TakeWorkAwaited(s, tid, take);
    case PutFree(i, put) =>
      StepGivesBack(s, tid, i, put, true);
      GiveBackAwaited(s, tid, i, put, true);
    case Doorbell(t) =>
      NotQueue(JobOf(s, tid));
      StepIsQuiet(s, tid, JobOf(s, tid));
      DoorbellAwaited(s, tid, t);
    case _ =>
      NotQueue(JobOf(s, tid));
      StepIsQuiet(s, tid, JobOf(s, tid));
      QuietAwaited(s, tid, JobOf(s, tid));
  }

  lemma EndAwaited(s: State, tid: nat, unread: bool)
    requires Slots(s) && Awaited(s) && MayEnd(JobOf(s, tid))
    ensures Awaited(EndStep(s, tid, unread))
  {
    var s' := EndStep(s, tid, unread);
    CoveredStep(s, s', tid, Idle);
    if s.bound == 1 { FlaggedStep(s, s', tid, Idle); }
  }

  lemma NextAwaited(s: State, a: Action)
    requires Slots(s) && Awaited(s)
    ensures Awaited(Next(s, a))
  {
    hide Step, Slots, Covered, Flagged;
    SlotsShape(s);
    var s' := Next(s, a);
    match a
    case Advance(tid) => StepAwaited(s, tid);
    case CallSend(tid, m) =>
      if s' != s {
        CoveredStep(s, s', tid, TakeFree(m, LoadHead(0)));
        FlaggedStep(s, s', tid, TakeFree(m, LoadHead(0)));
      }
    case StartWorker(tid) =>
      if s' != s {
        CoveredStep(s, s', tid, Awake);
        FlaggedStep(s, s', tid, Awake);
      }
    case End(tid, unread) => if MayEnd(JobOf(s, tid)) { EndAwaited(s, tid, unread); }
    case Cancel(p) => SameAwaited(s, CancelStep(s, p));
    case Forget(p) => SameAwaited(s, s');
  }

  lemma SameAwaited(s: State, s': State)
    requires Awaited(s) && s'.jobs == s.jobs && s'.bound == s.bound && s'.mem.work == s.mem.work
    requires s'.mem.notified == s.mem.notified && s'.mem.doorbells == s.mem.doorbells
    requires s'.h.missed == s.h.missed && s'.h.stale == s.h.stale
    ensures Awaited(s')
  {
    assert Helpers(s') == Helpers(s);
    forall t ensures JobOf(s', t) == JobOf(s, t) { }
  }

  /**
    In every run, when no producer is between its store and its ring: the doorbells in the socket and the
    workers that will look at the queue are enough for the items that wait, up to `bound` items, but for
    one for each look at the queue that was lost since a receive last found it empty.  With one reader
    this holds unless the doorbell of the flag may have ended unread since the flag was last cleared.
   */
  lemma {:induction false} NoLostWakeUp(s0: State, actions: seq<Action>)
    requires Starts(s0)
    ensures Items(s0)
    ensures var s := Run(s0, actions);
            && Awaited(s)
            && ((forall tid :: !JobOf(s, tid).Ring? && Undecided(JobOf(s, tid)) == None) && !Stale(s) ==>
                  s.mem.doorbells + |set tid | tid in s.jobs && WillLook(s.jobs[tid])| + s.h.missed
                  >= Min(|Contents(s.mem.work)|, s.bound))
  {
    StartItems(s0);
    hide Items, Awaited, Next, Starts;
    StartAwaited(s0);
    AwaitedRun(s0, actions);
    OnlyWorkers(Run(s0, actions));
  }

  lemma OnlyWorkers(s: State)
    requires Awaited(s)
    ensures (forall tid :: !JobOf(s, tid).Ring? && Undecided(JobOf(s, tid)) == None) && !Stale(s) ==>
              s.mem.doorbells + |set tid | tid in s.jobs && WillLook(s.jobs[tid])| + s.h.missed
              >= Min(|Contents(s.mem.work)|, s.bound)
  {
    if forall tid :: !JobOf(s, tid).Ring? && Undecided(JobOf(s, tid)) == None {
      forall tid | tid in s.jobs ensures Helps(s.mem.work.head, s.bound, s.jobs[tid]) == WillLook(s.jobs[tid]) {
        assert JobOf(s, tid) == s.jobs[tid];
      }
      assert Helpers(s) == set tid | tid in s.jobs && WillLook(s.jobs[tid]);
    }
  }

  lemma StartAwaited(s: State)
    requires Starts(s)
    ensures Awaited(s)
  {
  }

  lemma {:induction false} AwaitedRun(s0: State, actions: seq<Action>)
    requires Items(s0) && Awaited(s0)
    ensures Awaited(Run(s0, actions))
    decreases |actions|
  {
    hide Items, Awaited, Next, Slots;
    if actions != [] {
      var before, last := actions[..|actions| - 1], actions[|actions| - 1];
      AwaitedRun(s0, before);
      var s1 := Run(s0, before);
      Parts(s1);
      NextAwaited(s1, last);
    }
  }

  // The decision on 32-bit counters.

  const WORDS: nat := 0x1_0000_0000

  /** (int32_t) of a 32-bit word. */
  function Signed(w: int): int { if w < 0x8000_0000 then w else w - WORDS }

  /** pos < 0 || (uint32_t) pos < depth_bound, on the wrapped counters. */
  lemma DecisionOnWrappedCounters(t: nat, head: nat, bound: nat)
    requires -0x8000_0000 <= t - head < 0x8000_0000
    ensures Signed((t % WORDS - head % WORDS) % WORDS) == t - head
    ensures NotifyDecision(Signed((t % WORDS - head % WORDS) % WORDS), bound) <==> t < head + bound
    ensures (t % WORDS - head % WORDS) % WORDS == 0 <==> t == head
  {
    var d := (t % WORDS - head % WORDS) - (t - head);
    assert d == WORDS * (head / WORDS - t / WORDS);
    var k := head / WORDS - t / WORDS;
    if t >= head {
      assert t % WORDS - head % WORDS == (t - head) + WORDS * k;
    } else {
      assert t % WORDS - head % WORDS == (t - head + WORDS) + WORDS * (k - 1);
    }
  }
}
