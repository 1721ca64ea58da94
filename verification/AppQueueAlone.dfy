/**
  Calls of the application queue that run alone: one send and one receive from their first access to
  their last, on the memory before and after the call.
 */
module AppQueueAlone {
  import opened Bytes
  import opened Nncq
  import opened AppQueue
  import opened AppQueueSlots
  import opened AppQueueItems
  import opened AppQueueRuns

  /** One action, after which the items are still good. */
  ghost function Then(s: State, a: Action): (r: State)
    requires Items(s)
    ensures Items(r)
  {
    NextKeepsItems(s, a);
    Next(s, a)
  }

  /** So many accesses of one thread while the others stand still. */
  ghost function Alone(s: State, tid: nat, n: nat): (r: State)
    requires Items(s)
    ensures Items(r)
    decreases n
  {
    if n == 0 then s else Alone(Then(s, Advance(tid)), tid, n - 1)
  }

  lemma {:induction false} AloneMore(s: State, tid: nat, a: nat, b: nat)
    requires Items(s)
    ensures Alone(s, tid, a + b) == Alone(Alone(s, tid, a), tid, b)
    decreases a
  {
    hide Items, Next;
    if a > 0 { AloneMore(Then(s, Advance(tid)), tid, a - 1, b); }
  }

  lemma AloneOne(s: State, tid: nat)
    requires Items(s)
    ensures Alone(s, tid, 1) == Then(s, Advance(tid))
  {
    hide Items, Next;
    assert Alone(s, tid, 1) == Alone(Then(s, Advance(tid)), tid, 0);
  }

  /** A state in which only the thread has moved. */
  ghost function Where(s: State, tid: nat, job: Job): State { s.(jobs := s.jobs[tid := job]) }

  lemma WhereAgain(s: State, tid: nat, a: Job, b: Job)
    ensures Where(Where(s, tid, a), tid, b) == Where(s, tid, b) && JobOf(Where(s, tid, a), tid) == a
    ensures forall t :: t != tid ==> JobOf(Where(s, tid, a), t) == JobOf(s, t)
  {
    assert s.jobs[tid := a][tid := b] == s.jobs[tid := b];
  }

  lemma AccessIs(s: State, tid: nat, job: Job)
    requires Items(s) && JobOf(s, tid) == job && !TouchesQueue(job)
    ensures ItemsShape(s.mem.items) && JobShape(job) && Then(s, Advance(tid)) == QuietStep(s, tid, job)
  {
    hide Items, Slots, QuietStep;
    Parts(s);
    SlotsShape(s);
    StepIsQuiet(s, tid, job);
  }

  // A receive.

  lemma QueuesGood(s: State)
    requires Items(s)
    ensures QueueGood(s.mem.free) && QueueGood(s.mem.work) && Within(s.mem.free) && Within(s.mem.work)
    ensures |s.h.owner| == SIZE == |s.mem.items| && ItemsShape(s.mem.items) && |s.h.sent| == |s.mem.work.log|
  {
    hide Bodies, Fates, Distinct, Within, QueueGood;
    Parts(s);
    SlotsJob(s, 0);
    WithinCapacity(s);
  }

  lemma FrontOf(q: Queue)
    requires QueueGood(q) && Within(q) && Contents(q) != []
    ensures SIZE <= q.head < Bound(q) && q.log[q.head - SIZE] == Contents(q)[0] < SIZE
    ensures q.entries[Slot(q.head)] == Entry(Cycle(q.head), Contents(q)[0])
    ensures Contents(q.(head := q.head + 1)) == Contents(q)[1..]
  {
    QueuedInPlace(q, q.head);
  }

  /** A dequeue that runs alone takes the front in three accesses. */
  lemma DequeueSteps(q: Queue)
    requires QueueGood(q) && Within(q) && Contents(q) != []
    ensures DequeueStep(q, LoadHead(0)) == (q, LoadHeadEntry(0, q.head))
    ensures var e := Entry(Cycle(q.head), Contents(q)[0]);
            && DequeueStep(q, LoadHeadEntry(0, q.head)) == (q, SwapHead(0, q.head, e))
            && DequeueStep(q, SwapHead(0, q.head, e)) == (q.(head := q.head + 1), Taken(Contents(q)[0]))
  {
    hide Valid, SlotValid, SmallLog, Contents;
    FrontOf(q);
  }

  lemma TakesWork(s: State, tid: nat, take: DequeuePc)
    requires Items(s) && JobOf(s, tid) == TakeWork(take)
    ensures |s.mem.work.entries| == SIZE == |s.h.owner| && TakeShape(take)
    ensures Then(s, Advance(tid)) == TakeWorkStep(s, tid, take)
  {
    hide Items, Slots, TakeWorkStep;
    Parts(s);
    SlotsShape(s);
    SlotsJob(s, tid);
    StepTakesWork(s, tid, take);
  }

  ghost function Took(s: State, tid: nat): State
    requires Contents(s.mem.work) != [] && Contents(s.mem.work)[0] < |s.h.owner|
  {
    var q, i := s.mem.work, Contents(s.mem.work)[0];
    State(s.mem.(work := q.(head := q.head + 1)), s.jobs[tid := ReadSize(i, q.head)], Move(s.h, i, Held(tid)), s.bound)
  }

  lemma TakeAlone(s: State, tid: nat)
    requires Items(s) && JobOf(s, tid) == TakeWork(LoadHead(0)) && Contents(s.mem.work) != []
    ensures |s.h.owner| == SIZE && Contents(s.mem.work)[0] < SIZE && Alone(s, tid, 3) == Took(s, tid)
  {
    hide Items, DequeueStep, Contents, QueueGood, Within;
    var q := s.mem.work;
    QueuesGood(s);
    FrontOf(q);
    DequeueSteps(q);
    var e := Entry(Cycle(q.head), Contents(q)[0]);
    var a, b := TakeWork(LoadHeadEntry(0, q.head)), TakeWork(SwapHead(0, q.head, e));
    TakesWork(s, tid, LoadHead(0));
    var s1 := Then(s, Advance(tid));
    assert s1 == Where(s, tid, a);
    WhereAgain(s, tid, a, b);
    TakesWork(s1, tid, LoadHeadEntry(0, q.head));
    var s2 := Then(s1, Advance(tid));
    assert s2 == Where(s, tid, b);
    WhereAgain(s, tid, b, b);
    TakesWork(s2, tid, SwapHead(0, q.head, e));
    var s3 := Then(s2, Advance(tid));
    assert s.jobs[tid := b][tid := ReadSize(Contents(q)[0], q.head)] == s.jobs[tid := ReadSize(Contents(q)[0], q.head)];
    assert Alone(s, tid, 3) == Alone(s1, tid, 2) == Alone(s2, tid, 1) == Alone(s3, tid, 0);
  }

  /** The copy loop: the rest of the body, then the claim. */
  lemma {:induction false} CopyAlone(s: State, tid: nat, i: nat, p: nat, size: nat, body: Text)
    requires Items(s) && JobOf(s, tid) == ReadData(i, p, size, body)
    ensures i < |s.mem.items| && |body| <= size <= |s.mem.items[i].data|
    ensures body == s.mem.items[i].data[..|body|] ==>
              Alone(s, tid, size - |body| + 1) == Where(s, tid, Claim(i, p, s.mem.items[i].data[..size]))
    decreases |body| <= size, size - |body|
  {
    hide Items;
    var job := ReadData(i, p, size, body);
    AccessIs(s, tid, job);
    var data := s.mem.items[i].data;
    var s1 := Then(s, Advance(tid));
    if body == data[..|body|] {
      if |body| < size {
        var more := body + [data[|body|]];
        assert more == data[..|more|];
        assert s1 == Where(s, tid, ReadData(i, p, size, more));
        WhereAgain(s, tid, ReadData(i, p, size, more), Claim(i, p, data[..size]));
        CopyAlone(s1, tid, i, p, size, more);
      } else {
        assert s1 == Where(s, tid, Claim(i, p, data[..size]));
        AloneOne(s, tid);
      }
    }
  }

  lemma Reads(s: State, tid: nat, i: nat, p: nat)
    requires Items(s) && JobOf(s, tid) == ReadSize(i, p)
    ensures i < |s.mem.items| && SIZE <= p < SIZE + |s.h.sent|
    ensures s.mem.items[i].size == |Sent(s, p).body| <= MSG_SIZE
    ensures |s.mem.items[i].data| == MSG_SIZE && s.mem.items[i].data[..|Sent(s, p).body|] == Sent(s, p).body
  {
    hide Slots, Fates, Distinct;
    JobParts(s, tid);
    assert Proper(Sent(s, p));
  }

  /** The item is read whole: the claim is made with the message that was sent. */
  lemma ReadAlone(s: State, tid: nat, i: nat, p: nat)
    requires Items(s) && JobOf(s, tid) == ReadSize(i, p)
    ensures SIZE <= p < SIZE + |s.h.sent|
    ensures Alone(s, tid, |Sent(s, p).body| + 2) == Where(s, tid, Claim(i, p, Sent(s, p).body))
  {
    hide Items;
    Reads(s, tid, i, p);
    AccessIs(s, tid, ReadSize(i, p));
    var body := Sent(s, p).body;
    var s1 := Then(s, Advance(tid));
    assert s1 == Where(s, tid, ReadData(i, p, |body|, []));
    WhereAgain(s, tid, ReadData(i, p, |body|, []), Claim(i, p, body));
    CopyAlone(s1, tid, i, p, |body|, []);
  }

  ghost function Claimed(s: State, tid: nat, i: nat, p: nat, body: Text): State
    requires i < |s.mem.items|
  {
    var claims := Claims(s.mem.items, i, body);
    State(s.mem.(items := if claims then s.mem.items[i := s.mem.items[i].(tracking := 0)] else s.mem.items),
          s.jobs[tid := PutFree(i, LoadTail(0))],
          s.h.(received := s.h.received[p := Received(body, claims)]), s.bound)
  }

  lemma ClaimAlone(s: State, tid: nat, i: nat, p: nat, body: Text)
    requires Items(s) && JobOf(s, tid) == Claim(i, p, body)
    ensures i < |s.mem.items| && (Claims(s.mem.items, i, body) <==> p !in s.h.cancelled)
    ensures Then(s, Advance(tid)) == Claimed(s, tid, i, p, body)
  {
    hide Items;
    ClaimFacts(s, tid, i, p, body);
    AccessIs(s, tid, Claim(i, p, body));
  }

  lemma GivesBack(s: State, tid: nat, i: nat, put: EnqueuePc)
    requires Items(s) && JobOf(s, tid) == PutFree(i, put)
    ensures |s.mem.free.entries| == SIZE == |s.h.owner| && i < SIZE && !put.Stored? && !put.EnqueueFailed?
    ensures Then(s, Advance(tid)) == GiveBackStep(s, tid, i, put, true)
  {
    hide Items, Slots, GiveBackStep;
    Parts(s);
    SlotsShape(s);
    SlotsJob(s, tid);
    NotFinished(PutFree(i, put));
    StepGivesBack(s, tid, i, put, true);
  }

  /** The slot is on the free list. */
  ghost function GaveBack(s: State, tid: nat, i: nat, free: Queue): State
    requires i < |s.h.owner|
  {
    State(s.mem.(free := free), s.jobs[tid := LoadDepthTail], Move(s.h, i, InFree), s.bound)
  }

  lemma {:induction false} StoredStays(q: Queue, i: nat, put: EnqueuePc, steps: nat)
    requires |q.entries| == SIZE && (put.Stored? || put.EnqueueFailed?)
    ensures EnqueueAlone(q, i, put, steps) == (q, put)
    decreases steps
  {
    if steps > 0 { StoredStays(q, i, put, steps - 1); }
  }

  /** When an enqueue that runs alone stores within so many accesses, the worker gives back the slot within as many. */
  lemma {:induction false} GiveBackAlone(s: State, tid: nat, i: nat, put: EnqueuePc, steps: nat) returns (n: nat)
    requires Items(s) && JobOf(s, tid) == PutFree(i, put)
    requires |s.mem.free.entries| == SIZE && EnqueueAlone(s.mem.free, i, put, steps).1.Stored?
    requires i < |s.h.owner| && (Published(put) ==> s.h.owner[i] == InFree)
    ensures Alone(s, tid, n) == GaveBack(s, tid, i, EnqueueAlone(s.mem.free, i, put, steps).0)
    decreases steps
  {
    hide Items;
    GivesBack(s, tid, i, put);
    var (q, put') := EnqueueStep(s.mem.free, i, put);
    var s1 := Then(s, Advance(tid));
    assert EnqueueAlone(s.mem.free, i, put, steps) == EnqueueAlone(q, i, put', steps - 1);
    assert |q.entries| == SIZE;
    if put'.Stored? || put'.EnqueueFailed? {
      StoredStays(q, i, put', steps - 1);
      n := 1;
      AloneOne(s, tid);
      assert s.h.owner[i := InFree] == s.h.owner;
    } else {
      assert JobOf(s1, tid) == PutFree(i, put');
      var m := GiveBackAlone(s1, tid, i, put', steps - 1);
      n := m + 1;
      assert s.jobs[tid := PutFree(i, put')][tid := LoadDepthTail] == s.jobs[tid := LoadDepthTail];
      assert s.h.owner[i := InFree][i := InFree] == s.h.owner[i := InFree];
    }
  }

  /** The depth check: the flag is cleared if and only if the two loads agree. */
  lemma DepthAlone(s: State, tid: nat) returns (n: nat)
    requires Items(s) && JobOf(s, tid) == LoadDepthTail
    ensures var drained := s.mem.work.tail == s.mem.work.head;
            Alone(s, tid, n) == State(s.mem.(notified := s.mem.notified && !drained), s.jobs[tid := Awake],
                                      s.h.(stale := s.h.stale && !drained), s.bound)
  {
    hide Items;
    var a := LoadDepthHead(s.mem.work.tail);
    AccessIs(s, tid, LoadDepthTail);
    var s1 := Then(s, Advance(tid));
    assert s1 == Where(s, tid, a);
    WhereAgain(s, tid, a, Awake);
    WhereAgain(s, tid, a, Rearm);
    AccessIs(s1, tid, a);
    var s2 := Then(s1, Advance(tid));
    assert Alone(s, tid, 2) == Alone(s1, tid, 1) == Alone(s2, tid, 0);
    if s.mem.work.tail != s.mem.work.head {
      n := 2;
    } else {
      n := 3;
      assert s2 == Where(s, tid, Rearm);
      WhereAgain(s, tid, Rearm, Awake);
      AccessIs(s2, tid, Rearm);
      var s3 := Then(s2, Advance(tid));
      assert Alone(s, tid, 3) == Alone(s1, tid, 2) == Alone(s2, tid, 1) == Alone(s3, tid, 0);
    }
  }

  lemma FreeGrows(s: State, i: nat)
    requires Items(s)
    ensures |s.mem.free.entries| == SIZE
    ensures var r := EnqueueAlone(s.mem.free, i, LoadTail(0), 7);
            r.1.Stored? && Contents(r.0) == Contents(s.mem.free) + [i]
  {
    hide Items, EnqueueAlone, Contents;
    QueuesGood(s);
    QueueGoodParts(s.mem.free);
    EnqueueAloneFinishes(s.mem.free, i, 0);
  }

  /** What the rest of the call, from the claim on, leaves of the state. */
  ghost predicate Finishes(s: State, tid: nat, i: nat, p: nat, body: Text, s': State) {
    var claims, drained := p !in s.h.cancelled, s.mem.work.tail == s.mem.work.head;
    && i < |s.mem.items| == |s.h.owner|
    && s' == State(
         Memory(s'.mem.free, s.mem.work,
                if claims then s.mem.items[i := s.mem.items[i].(tracking := 0)] else s.mem.items,
                s.mem.notified && !drained, s.mem.doorbells),
         s.jobs[tid := Awake],
         s.h.(owner := s.h.owner[i := InFree], received := s.h.received[p := Received(body, claims)],
              stale := s.h.stale && !drained),
         s.bound)
    && Contents(s'.mem.free) == Contents(s.mem.free) + [i]
  }

  lemma FinishIs(s: State, tid: nat, i: nat, p: nat, body: Text, free: Queue, s2: State, s': State)
    requires i < |s.mem.items| == |s.h.owner| && (Claims(s.mem.items, i, body) <==> p !in s.h.cancelled)
    requires s2 == GaveBack(Claimed(s, tid, i, p, body), tid, i, free) && Contents(free) == Contents(s.mem.free) + [i]
    requires var drained := s2.mem.work.tail == s2.mem.work.head;
             s' == State(s2.mem.(notified := s2.mem.notified && !drained), s2.jobs[tid := Awake],
                         s2.h.(stale := s2.h.stale && !drained), s2.bound)
    ensures Finishes(s, tid, i, p, body, s')
  {
    hide Contents, Claims;
    assert s.jobs[tid := PutFree(i, LoadTail(0))][tid := LoadDepthTail][tid := Awake] == s.jobs[tid := Awake];
  }

  /** From the claim to the end of the call. */
  lemma FinishAlone(s: State, tid: nat, i: nat, p: nat, body: Text) returns (n: nat)
    requires Items(s) && JobOf(s, tid) == Claim(i, p, body)
    ensures Finishes(s, tid, i, p, body, Alone(s, tid, n))
  {
    hide *;
    QueuesGood(s);
    ClaimAlone(s, tid, i, p, body);
    var s1 := Then(s, Advance(tid));
    AloneOne(s, tid);
    ClaimedIs(s, tid, i, p, body);
    QueuesGood(s1);
    FreeGrows(s1, i);
    var a := GiveBackAlone(s1, tid, i, LoadTail(0), 7);
    var s2 := Alone(s1, tid, a);
    GaveBackIs(s1, tid, i, EnqueueAlone(s1.mem.free, i, LoadTail(0), 7).0);
    var b := DepthAlone(s2, tid);
    n := 1 + (a + b);
    AloneMore(s, tid, 1, a + b);
    AloneMore(s1, tid, a, b);
    FinishIs(s, tid, i, p, body, EnqueueAlone(s1.mem.free, i, LoadTail(0), 7).0, s2, Alone(s2, tid, b));
  }

  lemma ClaimedIs(s: State, tid: nat, i: nat, p: nat, body: Text)
    requires i < |s.mem.items|
    ensures var s' := Claimed(s, tid, i, p, body);
            && JobOf(s', tid) == PutFree(i, LoadTail(0)) && s'.mem.free == s.mem.free && s'.h.owner == s.h.owner
            && !Published(LoadTail(0))
  {
  }

  lemma GaveBackIs(s: State, tid: nat, i: nat, free: Queue)
    requires i < |s.h.owner|
    ensures JobOf(GaveBack(s, tid, i, free), tid) == LoadDepthTail
  {
  }

  /** What a receive that runs alone leaves of the state, `n` accesses later. */
  ghost predicate Receives(s: State, tid: nat, s': State)
    requires Contents(s.mem.work) != [] && SIZE <= s.mem.work.head < SIZE + |s.h.sent|
  {
    var q, i, p := s.mem.work, Contents(s.mem.work)[0], s.mem.work.head;
    var claims, drained := p !in s.h.cancelled, s.mem.work.tail == s.mem.work.head + 1;
    && i < |s.mem.items| == |s.h.owner|
    && s' == State(
         Memory(s'.mem.free, q.(head := q.head + 1),
                if claims then s.mem.items[i := s.mem.items[i].(tracking := 0)] else s.mem.items,
                s.mem.notified && !drained, s.mem.doorbells),
         s.jobs[tid := Awake],
         s.h.(owner := s.h.owner[i := InFree], received := s.h.received[p := Received(Sent(s, p).body, claims)],
              stale := s.h.stale && !drained),
         s.bound)
    && Contents(s'.mem.work) == Contents(q)[1..]
    && Contents(s'.mem.free) == Contents(s.mem.free) + [i]
  }

  /**
    A receive that runs alone takes the oldest item, hands out the message that was sent with it, claims it
    unless it was cancelled, gives back its slot, and clears the flag if and only if the queue's counters
    are equal after the take.
   */
  lemma ReceiveAlone(s: State, tid: nat) returns (n: nat)
    requires Items(s) && JobOf(s, tid) == TakeWork(LoadHead(0)) && Contents(s.mem.work) != []
    ensures SIZE <= s.mem.work.head < SIZE + |s.h.sent| && Receives(s, tid, Alone(s, tid, n))
  {
    hide *;
    var q, i, p := s.mem.work, Contents(s.mem.work)[0], s.mem.work.head;
    QueuesGood(s);
    FrontOf(q);
    TakeAlone(s, tid);
    TookIs(s, tid);
    var s1 := Alone(s, tid, 3);
    ReadAlone(s1, tid, i, p);
    var body := Sent(s1, p).body;
    var s2 := Alone(s1, tid, |body| + 2);
    WhereAgain(s1, tid, Claim(i, p, body), Awake);
    var m := FinishAlone(s2, tid, i, p, body);
    n := 3 + (|body| + 2 + m);
    AloneMore(s, tid, 3, |body| + 2 + m);
    AloneMore(s1, tid, |body| + 2, m);
    ReceiveIs(s, tid, Alone(s2, tid, m));
  }

  lemma TookIs(s: State, tid: nat)
    requires Contents(s.mem.work) != [] && Contents(s.mem.work)[0] < |s.h.owner|
    ensures JobOf(Took(s, tid), tid) == ReadSize(Contents(s.mem.work)[0], s.mem.work.head)
    ensures Took(s, tid).h.sent == s.h.sent
  {
  }

  lemma ReceiveIs(s: State, tid: nat, s': State)
    requires Contents(s.mem.work) != [] && SIZE <= s.mem.work.head < SIZE + |s.h.sent|
    requires Contents(s.mem.work)[0] < |s.h.owner| && Took(s, tid).h.sent == s.h.sent
    requires Contents(s.mem.work.(head := s.mem.work.head + 1)) == Contents(s.mem.work)[1..]
    requires var i, p, s1 := Contents(s.mem.work)[0], s.mem.work.head, Took(s, tid);
             Finishes(Where(s1, tid, Claim(i, p, Sent(s1, p).body)), tid, i, p, Sent(s1, p).body, s')
    ensures Receives(s, tid, s')
  {
    hide Contents;
    var i, p, s1 := Contents(s.mem.work)[0], s.mem.work.head, Took(s, tid);
    var body := Sent(s1, p).body;
    assert s.jobs[tid := ReadSize(i, p)][tid := Claim(i, p, body)][tid := Awake] == s.jobs[tid := Awake];
    assert s.h.owner[i := Held(tid)][i := InFree] == s.h.owner[i := InFree];
  }

  // A send.

  lemma TakesFree(s: State, tid: nat, m: Message, take: DequeuePc)
    requires Items(s) && JobOf(s, tid) == TakeFree(m, take)
    ensures |s.mem.free.entries| == SIZE == |s.h.owner| && TakeShape(take)
    ensures Then(s, Advance(tid)) == TakeFreeStep(s, tid, m, take)
  {
    hide Items, Slots, TakeFreeStep;
    Parts(s);
    SlotsShape(s);
    SlotsJob(s, tid);
    StepTakesFree(s, tid, m, take);
  }

  ghost function TookSlot(s: State, tid: nat, m: Message): State
    requires Contents(s.mem.free) != [] && Contents(s.mem.free)[0] < |s.h.owner|
  {
    var q, i := s.mem.free, Contents(s.mem.free)[0];
    State(s.mem.(free := q.(head := q.head + 1)), s.jobs[tid := WriteSize(m, i)], Move(s.h, i, Held(tid)), s.bound)
  }

  lemma TakeSlotAlone(s: State, tid: nat, m: Message)
    requires Items(s) && JobOf(s, tid) == TakeFree(m, LoadHead(0)) && Contents(s.mem.free) != []
    ensures |s.h.owner| == SIZE && Contents(s.mem.free)[0] < SIZE && Alone(s, tid, 3) == TookSlot(s, tid, m)
  {
    hide Items, DequeueStep, Contents, QueueGood, Within;
    var q := s.mem.free;
    QueuesGood(s);
    FrontOf(q);
    DequeueSteps(q);
    var e := Entry(Cycle(q.head), Contents(q)[0]);
    var a, b := TakeFree(m, LoadHeadEntry(0, q.head)), TakeFree(m, SwapHead(0, q.head, e));
    TakesFree(s, tid, m, LoadHead(0));
    var s1 := Then(s, Advance(tid));
    assert s1 == Where(s, tid, a);
    WhereAgain(s, tid, a, b);
    TakesFree(s1, tid, m, LoadHeadEntry(0, q.head));
    var s2 := Then(s1, Advance(tid));
    assert s2 == Where(s, tid, b);
    WhereAgain(s, tid, b, b);
    TakesFree(s2, tid, m, SwapHead(0, q.head, e));
    var s3 := Then(s2, Advance(tid));
    assert s.jobs[tid := b][tid := WriteSize(m, Contents(q)[0])] == s.jobs[tid := WriteSize(m, Contents(q)[0])];
    assert Alone(s, tid, 3) == Alone(s1, tid, 2) == Alone(s2, tid, 1) == Alone(s3, tid, 0);
  }

  /** The item as it is written: the body over the old bytes, the size and the tracking value. */
  function Written(item: Item, m: Message): Item
    requires |m.body| <= |item.data|
  {
    Item(|m.body|, m.body + item.data[|m.body|..], m.tracking)
  }

  ghost function Filled(s: State, tid: nat, i: nat, item: Item, job: Job): State
    requires i < |s.mem.items|
  {
    State(s.mem.(items := s.mem.items[i := item]), s.jobs[tid := job], s.h, s.bound)
  }

  lemma FilledAgain(s: State, tid: nat, i: nat, a: Item, job: Job, b: Item, job': Job)
    requires i < |s.mem.items|
    ensures Filled(Filled(s, tid, i, a, job), tid, i, b, job') == Filled(s, tid, i, b, job')
    ensures JobOf(Filled(s, tid, i, a, job), tid) == job && Filled(s, tid, i, a, job).mem.items[i] == a
  {
    assert s.jobs[tid := job][tid := job'] == s.jobs[tid := job'];
    assert s.mem.items[i := a][i := b] == s.mem.items[i := b];
  }

  lemma {:induction false} CopyInAlone(s: State, tid: nat, m: Message, i: nat, k: nat)
    requires Items(s) && JobOf(s, tid) == WriteData(m, i, k)
    ensures i < |s.mem.items| && k <= |m.body| <= |s.mem.items[i].data|
    ensures var data := s.mem.items[i].data;
            data[..k] == m.body[..k] ==>
              Alone(s, tid, |m.body| - k + 1)
              == Filled(s, tid, i, s.mem.items[i].(data := m.body + data[|m.body|..]), WriteTracking(m, i))
    decreases k <= |m.body|, |m.body| - k
  {
    hide Items;
    AccessIs(s, tid, WriteData(m, i, k));
    var item := s.mem.items[i];
    var data := item.data;
    var s1 := Then(s, Advance(tid));
    if data[..k] == m.body[..k] {
      if k < |m.body| {
        var more := data[k := m.body[k]];
        assert more[..k + 1] == m.body[..k + 1];
        assert m.body + more[|m.body|..] == m.body + data[|m.body|..];
        assert s1 == Filled(s, tid, i, item.(data := more), WriteData(m, i, k + 1));
        FilledAgain(s, tid, i, item.(data := more), WriteData(m, i, k + 1),
                   item.(data := m.body + data[|m.body|..]), WriteTracking(m, i));
        CopyInAlone(s1, tid, m, i, k + 1);
      } else {
        assert m.body[..k] == m.body && m.body + data[|m.body|..] == data;
        assert s.mem.items[i := item] == s.mem.items;
        AloneOne(s, tid);
      }
    }
  }

  lemma WriteAlone(s: State, tid: nat, m: Message, i: nat)
    requires Items(s) && JobOf(s, tid) == WriteSize(m, i)
    ensures i < |s.mem.items| && |m.body| <= |s.mem.items[i].data|
    ensures Alone(s, tid, |m.body| + 3) == Filled(s, tid, i, Written(s.mem.items[i], m), PutWork(m, i, LoadTail(0)))
  {
    hide Items;
    AccessIs(s, tid, WriteSize(m, i));
    var item := s.mem.items[i];
    var a := item.(size := |m.body|);
    var s1 := Then(s, Advance(tid));
    assert s1 == Filled(s, tid, i, a, WriteData(m, i, 0));
    CopyInAlone(s1, tid, m, i, 0);
    var b := a.(data := m.body + item.data[|m.body|..]);
    FilledAgain(s, tid, i, a, WriteData(m, i, 0), b, WriteTracking(m, i));
    var s2 := Alone(s1, tid, |m.body| + 1);
    assert s2 == Filled(s, tid, i, b, WriteTracking(m, i));
    AccessIs(s2, tid, WriteTracking(m, i));
    FilledAgain(s, tid, i, b, WriteTracking(m, i), Written(item, m), PutWork(m, i, LoadTail(0)));
    AloneOne(s2, tid);
    AloneMore(s1, tid, |m.body| + 1, 1);
    assert Alone(s, tid, |m.body| + 3) == Alone(s1, tid, |m.body| + 2);
  }

  lemma PutsWork(s: State, tid: nat, m: Message, i: nat, put: EnqueuePc)
    requires Items(s) && JobOf(s, tid) == PutWork(m, i, put)
    ensures |s.mem.work.entries| == SIZE == |s.h.owner| && i < SIZE && !put.Stored? && !put.EnqueueFailed?
    ensures Then(s, Advance(tid)) == PutWorkStep(s, tid, m, i, put)
  {
    hide Items, Slots, PutWorkStep;
    Parts(s);
    SlotsShape(s);
    SlotsJob(s, tid);
    StepPutsWork(s, tid, m, i, put);
  }

  /** The slot is in the work queue, at position t. */
  ghost function Queued(s: State, tid: nat, m: Message, i: nat, work: Queue, t: nat): State
    requires i < |s.h.owner|
  {
    State(s.mem.(work := work), s.jobs[tid := Job.Doorbell(t)],
          Move(s.h, i, InWork).(sent := s.h.sent + [m], tickets := s.h.tickets[t := i]), s.bound)
  }

  lemma {:induction false} PublishAlone(s: State, tid: nat, m: Message, i: nat, put: EnqueuePc)
    requires Items(s) && JobOf(s, tid) == PutWork(m, i, put) && put.AdvanceTail?
    ensures |s.mem.work.entries| == SIZE
    ensures Then(s, Advance(tid)) == State(s.mem.(work := EnqueueStep(s.mem.work, i, put).0), s.jobs[tid := Job.Doorbell(put.t)], s.h, s.bound)
  {
    hide Items;
    PutsWork(s, tid, m, i, put);
  }

  lemma {:induction false} StoreAlone(s: State, tid: nat, m: Message, i: nat, put: EnqueuePc, steps: nat) returns (n: nat)
    requires Items(s) && JobOf(s, tid) == PutWork(m, i, put) && !Published(put)
    requires |s.mem.work.entries| == SIZE && EnqueueAlone(s.mem.work, i, put, steps).1.Stored? && i < |s.h.owner|
    ensures var r := EnqueueAlone(s.mem.work, i, put, steps);
            Alone(s, tid, n) == Queued(s, tid, m, i, r.0, r.1.t)
    decreases steps
  {
    hide Items;
    PutsWork(s, tid, m, i, put);
    var (q, put') := EnqueueStep(s.mem.work, i, put);
    var s1 := Then(s, Advance(tid));
    assert EnqueueAlone(s.mem.work, i, put, steps) == EnqueueAlone(q, i, put', steps - 1);
    assert |q.entries| == SIZE;
    if put'.EnqueueFailed? {
      StoredStays(q, i, put', steps - 1);
    } else if put'.AdvanceTail? {
      n := 2;
      PublishAlone(s1, tid, m, i, put');
      var (q2, put2) := EnqueueStep(q, i, put');
      assert EnqueueAlone(q, i, put', steps - 1) == EnqueueAlone(q2, i, put2, steps - 2);
      StoredStays(q2, i, put2, steps - 2);
      var s2 := Then(s1, Advance(tid));
      assert Alone(s, tid, 2) == Alone(s1, tid, 1) == Alone(s2, tid, 0);
      assert s.jobs[tid := PutWork(m, i, put')][tid := Job.Doorbell(put'.t)] == s.jobs[tid := Job.Doorbell(put'.t)];
    } else {
      assert JobOf(s1, tid) == PutWork(m, i, put');
      var k := StoreAlone(s1, tid, m, i, put', steps - 1);
      n := k + 1;
      var t := EnqueueAlone(q, i, put', steps - 1).1.t;
      assert s.jobs[tid := PutWork(m, i, put')][tid := Job.Doorbell(t)] == s.jobs[tid := Job.Doorbell(t)];
    }
  }

  /** The decision, and the READ_QUEUE message if it is to ring. */
  lemma BellAlone(s: State, tid: nat, t: nat) returns (n: nat)
    requires Items(s) && JobOf(s, tid) == Job.Doorbell(t)
    ensures var rings := if s.bound == 1 then !s.mem.notified else t < s.mem.work.head + s.bound;
            Alone(s, tid, n) == State(s.mem.(notified := s.mem.notified || (s.bound == 1 && rings),
                                             doorbells := s.mem.doorbells + if rings then 1 else 0),
                                      s.jobs[tid := Idle], s.h, s.bound)
  {
    hide Items;
    AccessIs(s, tid, Job.Doorbell(t));
    var s1 := Then(s, Advance(tid));
    if Rings(s.mem, s.bound, t) {
      n := 2;
      AccessIs(s1, tid, Ring);
      var s2 := Then(s1, Advance(tid));
      assert Alone(s, tid, 2) == Alone(s1, tid, 1) == Alone(s2, tid, 0);
      assert s.jobs[tid := Ring][tid := Idle] == s.jobs[tid := Idle];
    } else {
      n := 1;
      AloneOne(s, tid);
    }
  }

  lemma WorkGrows(s: State, i: nat)
    requires Items(s) && i < SIZE
    ensures |s.mem.work.entries| == SIZE
    ensures var r := EnqueueAlone(s.mem.work, i, LoadTail(0), 7);
            && r.1 == Stored(Bound(s.mem.work)) && Contents(r.0) == Contents(s.mem.work) + [i]
            && r.0.head == s.mem.work.head && r.0.tail == Bound(r.0)
    ensures Bound(s.mem.work) == s.mem.work.head + |Contents(s.mem.work)|
  {
    hide Items, EnqueueAlone;
    QueuesGood(s);
    var q := s.mem.work;
    EnqueueAloneFinishes(q, i, 0);
    EnqueueAloneGood(q, i, LoadTail(0), 7);
    var q' := EnqueueAlone(q, i, LoadTail(0), 7).0;
    assert |Contents(q')| == Bound(q') - q'.head;
  }

  /** What a send that runs alone leaves of the state. */
  ghost predicate Sends(s: State, tid: nat, m: Message, s': State)
    requires Contents(s.mem.free) != []
  {
    var q, i, t := s.mem.free, Contents(s.mem.free)[0], Bound(s.mem.work);
    var rings := if s.bound == 1 then !s.mem.notified else |Contents(s.mem.work)| < s.bound;
    && i < |s.mem.items| == |s.h.owner| && |m.body| <= |s.mem.items[i].data|
    && s' == State(
         Memory(q.(head := q.head + 1), s'.mem.work, s.mem.items[i := Written(s.mem.items[i], m)],
                s.mem.notified || (s.bound == 1 && rings), s.mem.doorbells + if rings then 1 else 0),
         s.jobs[tid := Idle],
         s.h.(owner := s.h.owner[i := InWork], sent := s.h.sent + [m], tickets := s.h.tickets[t := i]),
         s.bound)
    && Contents(s'.mem.free) == Contents(q)[1..]
    && Contents(s'.mem.work) == Contents(s.mem.work) + [i]
    && s'.mem.work.head == s.mem.work.head && s'.mem.work.tail == Bound(s'.mem.work)
  }

  /** Up to the end of the copy: the slot in hand holds the message. */
  lemma FillAlone(s: State, tid: nat, m: Message) returns (n: nat)
    requires Items(s) && JobOf(s, tid) == TakeFree(m, LoadHead(0)) && Contents(s.mem.free) != []
    ensures |s.h.owner| == SIZE == |s.mem.items| && Contents(s.mem.free)[0] < SIZE
    ensures |m.body| <= |s.mem.items[Contents(s.mem.free)[0]].data|
    ensures Contents(s.mem.free.(head := s.mem.free.head + 1)) == Contents(s.mem.free)[1..]
    ensures var i := Contents(s.mem.free)[0];
            Alone(s, tid, n) == Filled(TookSlot(s, tid, m), tid, i, Written(s.mem.items[i], m), PutWork(m, i, LoadTail(0)))
  {
    hide *;
    QueuesGood(s);
    FrontOf(s.mem.free);
    TakeSlotAlone(s, tid, m);
    TookSlotIs(s, tid, m);
    var i, s1 := Contents(s.mem.free)[0], Alone(s, tid, 3);
    WriteAlone(s1, tid, m, i);
    n := 3 + (|m.body| + 3);
    AloneMore(s, tid, 3, |m.body| + 3);
  }

  lemma TookSlotIs(s: State, tid: nat, m: Message)
    requires Contents(s.mem.free) != [] && Contents(s.mem.free)[0] < |s.h.owner|
    ensures var s' := TookSlot(s, tid, m);
            && JobOf(s', tid) == WriteSize(m, Contents(s.mem.free)[0]) && s'.mem.items == s.mem.items
            && s'.mem.work == s.mem.work && |s'.h.owner| == |s.h.owner|
  {
  }

  lemma FilledAs(s: State, tid: nat, i: nat, item: Item, job: Job)
    requires i < |s.mem.items|
    ensures var s' := Filled(s, tid, i, item, job);
            JobOf(s', tid) == job && s'.mem.work == s.mem.work && s'.h == s.h && !Published(LoadTail(0))
  {
  }

  lemma QueuedIs(s: State, tid: nat, m: Message, i: nat, work: Queue, t: nat)
    requires i < |s.h.owner|
    ensures JobOf(Queued(s, tid, m, i, work, t), tid) == Job.Doorbell(t)
  {
  }

  lemma SendIs(s: State, tid: nat, m: Message, work: Queue, s': State)
    requires Contents(s.mem.free) != [] && Contents(s.mem.free)[0] < |s.mem.items| == |s.h.owner|
    requires |m.body| <= |s.mem.items[Contents(s.mem.free)[0]].data|
    requires Contents(s.mem.free.(head := s.mem.free.head + 1)) == Contents(s.mem.free)[1..]
    requires Contents(work) == Contents(s.mem.work) + [Contents(s.mem.free)[0]]
    requires work.head == s.mem.work.head && work.tail == Bound(work)
    requires Bound(s.mem.work) == s.mem.work.head + |Contents(s.mem.work)|
    requires var i, t := Contents(s.mem.free)[0], Bound(s.mem.work);
             var s1 := Filled(TookSlot(s, tid, m), tid, i, Written(s.mem.items[i], m), PutWork(m, i, LoadTail(0)));
             var s2 := Queued(s1, tid, m, i, work, t);
             var rings := if s2.bound == 1 then !s2.mem.notified else t < s2.mem.work.head + s2.bound;
             s' == State(s2.mem.(notified := s2.mem.notified || (s2.bound == 1 && rings),
                                 doorbells := s2.mem.doorbells + if rings then 1 else 0),
                         s2.jobs[tid := Idle], s2.h, s2.bound)
    ensures Sends(s, tid, m, s')
  {
    hide Contents;
    var i, t := Contents(s.mem.free)[0], Bound(s.mem.work);
    assert s.jobs[tid := WriteSize(m, i)][tid := PutWork(m, i, LoadTail(0))][tid := Job.Doorbell(t)][tid := Idle] == s.jobs[tid := Idle];
    assert s.h.owner[i := Held(tid)][i := InWork] == s.h.owner[i := InWork];
  }

  /**
    A send that runs alone, with a slot on the free list: the message is appended, and the doorbell
    rings if and only if the flag was clear, or fewer than `bound` items were waiting.
   */
  lemma SendAlone(s: State, tid: nat, m: Message) returns (n: nat)
    requires Items(s) && JobOf(s, tid) == TakeFree(m, LoadHead(0)) && Contents(s.mem.free) != []
    ensures Sends(s, tid, m, Alone(s, tid, n))
  {
    hide *;
    var a := FillAlone(s, tid, m);
    var i, s1 := Contents(s.mem.free)[0], Alone(s, tid, a);
    TookSlotIs(s, tid, m);
    FilledAs(TookSlot(s, tid, m), tid, i, Written(s.mem.items[i], m), PutWork(m, i, LoadTail(0)));
    WorkGrows(s1, i);
    var b := StoreAlone(s1, tid, m, i, LoadTail(0), 7);
    var s2, r := Alone(s1, tid, b), EnqueueAlone(s1.mem.work, i, LoadTail(0), 7);
    QueuedIs(s1, tid, m, i, r.0, r.1.t);
    var c := BellAlone(s2, tid, r.1.t);
    n := a + (b + c);
    AloneMore(s, tid, a, b + c);
    AloneMore(s1, tid, b, c);
    SendIs(s, tid, m, r.0, Alone(s2, tid, c));
  }

  // Nothing to take.

  lemma EmptySteps(q: Queue)
    requires QueueGood(q) && Contents(q) == []
    ensures DequeueStep(q, LoadHead(0)) == (q, LoadHeadEntry(0, q.head))
    ensures DequeueStep(q, LoadHeadEntry(0, q.head)) == (q, FoundEmpty)
  {
    assert SlotValid(q, Slot(q.head));
  }

  /** A receive that finds the queue empty leaves the memory as it is; the worker sleeps. */
  lemma ReceiveNothing(s: State, tid: nat)
    requires Items(s) && JobOf(s, tid) == TakeWork(LoadHead(0)) && Contents(s.mem.work) == []
    ensures Alone(s, tid, 3) == State(s.mem, s.jobs[tid := Asleep], s.h.(missed := 0), s.bound)
  {
    hide Items, DequeueStep, Contents, QueueGood;
    var q := s.mem.work;
    QueuesGood(s);
    EmptySteps(q);
    var a := TakeWork(LoadHeadEntry(0, q.head));
    TakesWork(s, tid, LoadHead(0));
    var s1 := Then(s, Advance(tid));
    assert s1 == Where(s, tid, a);
    WhereAgain(s, tid, a, NoItem);
    TakesWork(s1, tid, LoadHeadEntry(0, q.head));
    var s2 := Then(s1, Advance(tid));
    assert s2 == State(s.mem, s.jobs[tid := NoItem], s.h.(missed := 0), s.bound);
    AccessIs(s2, tid, NoItem);
    var s3 := Then(s2, Advance(tid));
    assert s.jobs[tid := NoItem][tid := Asleep] == s.jobs[tid := Asleep];
    assert Alone(s, tid, 3) == Alone(s1, tid, 2) == Alone(s2, tid, 1) == Alone(s3, tid, 0);
  }

  /** A send that finds no free slot changes nothing. */
  lemma SendNothing(s: State, tid: nat, m: Message)
    requires Items(s) && JobOf(s, tid) == TakeFree(m, LoadHead(0)) && Contents(s.mem.free) == []
    ensures Alone(s, tid, 2) == Where(s, tid, Idle)
  {
    hide Items, DequeueStep, Contents, QueueGood;
    var q := s.mem.free;
    QueuesGood(s);
    EmptySteps(q);
    var a := TakeFree(m, LoadHeadEntry(0, q.head));
    TakesFree(s, tid, m, LoadHead(0));
    var s1 := Then(s, Advance(tid));
    assert s1 == Where(s, tid, a);
    WhereAgain(s, tid, a, Idle);
    TakesFree(s1, tid, m, LoadHeadEntry(0, q.head));
    var s2 := Then(s1, Advance(tid));
    assert Alone(s, tid, 2) == Alone(s1, tid, 1) == Alone(s2, tid, 0);
  }
}
