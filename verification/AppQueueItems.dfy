/**
  What the slots hold: the body a worker reads is the body that was sent, and a
  request is either claimed by the worker or cancelled by the router, never both.
 */
module AppQueueItems {
  import opened Bytes
  import opened Nncq
  import opened AppQueue
  import opened AppQueueSlots
  import opened Links

  ghost predicate Holds(item: Item, m: Message) {
    && item.size == |m.body| <= |item.data|
    && item.data[..|m.body|] == m.body
  }

  /** The message stored at position p. */
  function Sent(s: State, p: nat): Message
    requires SIZE <= p < SIZE + |s.h.sent|
  {
    s.h.sent[p - SIZE]
  }

  /** The slot the item at position p was sent in. */
  function SlotAt(s: State, p: nat): nat
    requires SIZE <= p < Bound(s.mem.work)
  {
    s.mem.work.log[p - SIZE]
  }

  /** The slot still carries the message of position p, and its word says whether it was cancelled. */
  ghost predicate Carries(s: State, p: nat)
    requires |s.mem.items| == SIZE && |s.h.sent| == |s.mem.work.log| && SIZE <= p < Bound(s.mem.work)
  {
    var i := SlotAt(s, p);
    && i < SIZE
    && Holds(s.mem.items[i], Sent(s, p))
    && s.mem.items[i].tracking == (if p in s.h.cancelled then 0 else Sent(s, p).tracking)
  }

  ghost predicate Pending(s: State, i: nat, p: nat)
    requires |s.mem.items| == SIZE && |s.h.sent| == |s.mem.work.log|
  {
    && SIZE <= p < s.mem.work.head <= Bound(s.mem.work)
    && SlotAt(s, p) == i
    && p !in s.h.received
    && Carries(s, p)
  }

  ghost predicate JobItem(s: State, job: Job)
    requires ItemsShape(s.mem.items) && |s.h.sent| == |s.mem.work.log| && JobShape(job)
  {
    match job
    case WriteData(m, i, n) =>
      s.mem.items[i].size == |m.body| && s.mem.items[i].data[..n] == m.body[..n]
    case WriteTracking(m, i) => Holds(s.mem.items[i], m)
    case PutWork(m, i, put) =>
      Published(put) || (Holds(s.mem.items[i], m) && s.mem.items[i].tracking == m.tracking)
    case ReadSize(i, p) => Pending(s, i, p)
    case ReadData(i, p, size, body) =>
      Pending(s, i, p) && size == |Sent(s, p).body| && body == Sent(s, p).body[..|body|]
    case Claim(i, p, body) => Pending(s, i, p) && body == Sent(s, p).body
    case _ => true
  }

  /** The item of position p waits in the queue, or in the hands of a worker that has not claimed it. */
  ghost predicate Waiting(s: State, p: nat) {
    s.mem.work.head <= p || exists tid :: Receiving(JobOf(s, tid)) == Some(p)
  }

  ghost predicate TicketGood(s: State, p: nat)
    requires |s.mem.items| == SIZE && |s.h.sent| == |s.mem.work.log| && p in s.h.tickets
  {
    && SIZE <= p < Bound(s.mem.work)
    && s.h.tickets[p] == SlotAt(s, p) < SIZE
    && (Waiting(s, p) || s.mem.items[SlotAt(s, p)].tracking != Sent(s, p).tracking)
  }

  ghost predicate ReceivedGood(s: State, p: nat)
    requires |s.h.sent| == |s.mem.work.log| && p in s.h.received
  {
    && SIZE <= p < s.mem.work.head <= Bound(s.mem.work)
    && s.h.received[p].body == Sent(s, p).body
    && (s.h.received[p].claimed <==> p !in s.h.cancelled)
  }

  /** The sends in progress use tracking values of their own. */
  ghost predicate Distinct(s: State) {
    && (forall t, u :: t != u && Sending(JobOf(s, t)).Some? && Sending(JobOf(s, u)).Some? ==>
          Sending(JobOf(s, t)).value.tracking != Sending(JobOf(s, u)).value.tracking)
    && (forall t, p :: Sending(JobOf(s, t)).Some? && p in s.h.tickets && SIZE <= p < SIZE + |s.h.sent| ==>
          Sending(JobOf(s, t)).value.tracking != Sent(s, p).tracking)
  }

  ghost predicate Base(s: State) {
    && ItemsShape(s.mem.items)
    && |s.h.sent| == |s.mem.work.log|
    && SIZE <= s.mem.work.head <= Bound(s.mem.work)
    && (forall tid :: JobShape(JobOf(s, tid)))
  }

  ghost predicate Bodies(s: State)
    requires Base(s)
  {
    && (forall p :: s.mem.work.head <= p < Bound(s.mem.work) ==> Carries(s, p))
    && (forall tid :: JobItem(s, JobOf(s, tid)))
  }

  ghost predicate Fates(s: State)
    requires Base(s)
  {
    && (forall p :: p in s.h.received ==> ReceivedGood(s, p))
    && (forall p :: p in s.h.tickets ==> TicketGood(s, p))
    && (forall p :: p in s.h.cancelled ==> SIZE <= p < Bound(s.mem.work))
  }

  ghost predicate ProperSent(sent: seq<Message>) {
    forall k :: 0 <= k < |sent| ==> Proper(sent[k])
  }

  ghost predicate Items(s: State) {
    Slots(s) && Base(s) && ProperSent(s.h.sent) && Bodies(s) && Fates(s) && Distinct(s)
  }

  lemma QueuedSlot(s: State, p: nat)
    requires Slots(s) && s.mem.work.head <= p < Bound(s.mem.work)
    ensures SlotAt(s, p) < SIZE && s.h.owner[SlotAt(s, p)] == InWork
  {
    hide Slots, HeldBy, NoDup;
    SlotsSides(s);
    SlotsJob(s, 0);
    assert Contents(s.mem.work)[p - s.mem.work.head] == SlotAt(s, p);
  }

  // Steps that write no item and move no item between the queue and a worker.

  ghost predicate SameItems(s: State, s': State) {
    && s'.mem.items == s.mem.items
    && s'.mem.work.log == s.mem.work.log && s'.mem.work.head == s.mem.work.head
    && s'.h.sent == s.h.sent && s'.h.tickets == s.h.tickets
    && s'.h.cancelled == s.h.cancelled && s'.h.received == s.h.received
  }

  lemma JobItemSame(s: State, s': State, job: Job)
    requires Base(s) && Base(s') && SameItems(s, s') && JobShape(job) && JobItem(s, job)
    ensures JobItem(s', job)
  {
  }

  lemma BodiesSame(s: State, s': State, tid: nat, job': Job)
    requires Base(s) && Base(s') && Bodies(s) && SameItems(s, s') && s'.jobs == s.jobs[tid := job']
    requires JobShape(job') && JobItem(s, job')
    ensures Bodies(s')
  {
    hide JobItem;
    forall t ensures JobItem(s', JobOf(s', t)) {
      var job := if t == tid then job' else JobOf(s, t);
      assert JobShape(JobOf(s, t)) && JobItem(s, JobOf(s, t));
      JobItemSame(s, s', job);
    }
    forall p | s'.mem.work.head <= p < Bound(s'.mem.work) ensures Carries(s', p) {
      assert Carries(s, p);
    }
  }

  lemma FatesSame(s: State, s': State, tid: nat, job': Job)
    requires Base(s) && Base(s') && Fates(s) && SameItems(s, s') && s'.jobs == s.jobs[tid := job']
    requires Receiving(job') == Receiving(JobOf(s, tid))
    ensures Fates(s')
  {
    forall t ensures Receiving(JobOf(s', t)) == Receiving(JobOf(s, t)) { }
    forall p | p in s'.h.tickets ensures TicketGood(s', p) {
      assert TicketGood(s, p);
    }
    forall p | p in s'.h.received ensures ReceivedGood(s', p) {
      assert ReceivedGood(s, p);
    }
  }

  lemma DistinctSame(s: State, s': State, tid: nat, job': Job)
    requires Distinct(s) && s'.jobs == s.jobs[tid := job']
    requires s'.h.sent == s.h.sent && s'.h.tickets == s.h.tickets
    requires Sending(job') == None || Sending(job') == Sending(JobOf(s, tid))
    ensures Distinct(s')
  {
    forall t ensures Sending(JobOf(s', t)) == None || Sending(JobOf(s', t)) == Sending(JobOf(s, t)) { }
  }

  lemma UntouchedKeeps(s: State, s': State, tid: nat, job': Job)
    requires Items(s) && Slots(s') && s'.jobs == s.jobs[tid := job'] && SameItems(s, s')
    requires JobShape(job') && JobItem(s, job') && Receiving(job') == Receiving(JobOf(s, tid))
    requires Sending(job') == None || Sending(job') == Sending(JobOf(s, tid))
    ensures Items(s')
  {
    BodiesSame(s, s', tid, job');
    FatesSame(s, s', tid, job');
    DistinctSame(s, s', tid, job');
  }

  lemma Parts(s: State)
    requires Items(s)
    ensures Slots(s) && Base(s) && ProperSent(s.h.sent) && Bodies(s) && Fates(s) && Distinct(s)
  {
  }

  lemma JobParts(s: State, tid: nat)
    requires Items(s)
    ensures JobShape(JobOf(s, tid)) && JobItem(s, JobOf(s, tid)) && JobQueue(s, JobOf(s, tid))
  {
  }

  /** What the steps of a thread ask for. */
  lemma Ready(s: State, tid: nat)
    requires Slots(s)
    ensures |s.mem.free.entries| == SIZE && |s.mem.work.entries| == SIZE && |s.h.owner| == SIZE
    ensures match JobOf(s, tid)
            case TakeFree(_, take) => TakeShape(take)
            case TakeWork(take) => TakeShape(take)
            case PutWork(_, i, _) => i < SIZE
            case PutFree(i, _) => i < SIZE
            case ReturnSlot(i, _) => i < SIZE
            case _ => true
  {
    assert JobShape(JobOf(s, tid));
  }

  lemma Whole(s: State)
    requires Slots(s) && Base(s) && ProperSent(s.h.sent) && Bodies(s) && Fates(s) && Distinct(s)
    ensures Items(s)
  {
  }

  lemma SlotsGiveBase(s: State)
    requires Slots(s) && |s.h.sent| == |s.mem.work.log|
    ensures Base(s)
  {
  }

  // A thread writes in the slot it holds.

  /** Only slot i was written, and only the fate of items sent in that slot was decided. */
  ghost predicate Wrote(s: State, s': State, i: nat) {
    && |s.mem.items| == |s'.mem.items|
    && (forall j :: 0 <= j < |s.mem.items| && j != i ==> s'.mem.items[j] == s.mem.items[j])
    && s'.mem.work.log == s.mem.work.log && s'.mem.work.head == s.mem.work.head
    && s'.h.sent == s.h.sent && s'.h.tickets == s.h.tickets
    && (forall p :: SIZE <= p < Bound(s.mem.work) && SlotAt(s, p) != i ==>
          (p in s'.h.received <==> p in s.h.received) && (p in s'.h.cancelled <==> p in s.h.cancelled))
  }

  lemma JobItemFrame(s: State, s': State, i: nat, job: Job)
    requires Base(s) && Base(s') && Wrote(s, s', i) && JobShape(job) && HeldSlot(job) != Some(i)
    requires JobItem(s, job)
    ensures JobItem(s', job)
  {
  }

  lemma BodiesWrote(s: State, s': State, i: nat)
    requires Base(s) && Base(s') && Bodies(s) && Wrote(s, s', i)
    requires forall t :: (JobOf(s', t) == JobOf(s, t) && HeldSlot(JobOf(s, t)) != Some(i)) || JobItem(s', JobOf(s', t))
    requires forall p :: s.mem.work.head <= p < Bound(s.mem.work) && SlotAt(s, p) == i ==> Carries(s', p)
    ensures Bodies(s')
  {
    forall t ensures JobItem(s', JobOf(s', t)) {
      if JobOf(s', t) == JobOf(s, t) && HeldSlot(JobOf(s, t)) != Some(i) {
        assert JobItem(s, JobOf(s, t)) && JobShape(JobOf(s, t));
        JobItemFrame(s, s', i, JobOf(s, t));
      }
    }
    forall p | s'.mem.work.head <= p < Bound(s'.mem.work) ensures Carries(s', p) {
      assert Carries(s, p);
    }
  }

  /** The writer holds the slot, so nobody else relies on it. */
  lemma HolderWrote(s: State, s': State, tid: nat, job': Job, i: nat)
    requires Slots(s) && Base(s) && Base(s') && Bodies(s) && Wrote(s, s', i) && s'.jobs == s.jobs[tid := job']
    requires HeldSlot(JobOf(s, tid)) == Some(i) && i < SIZE && JobShape(job') && JobItem(s', job')
    ensures Bodies(s')
  {
    assert s.h.owner[i] == Held(tid);
    forall p | s.mem.work.head <= p < Bound(s.mem.work) ensures SlotAt(s, p) != i { QueuedSlot(s, p); }
    forall t ensures (JobOf(s', t) == JobOf(s, t) && HeldSlot(JobOf(s, t)) != Some(i)) || JobItem(s', JobOf(s', t)) { }
    BodiesWrote(s, s', i);
  }

  /** No ticket that is not waiting finds its tracking value in the slot. */
  lemma TicketsWrote(s: State, s': State, tid: nat, job': Job, i: nat)
    requires Items(s) && Base(s') && Wrote(s, s', i) && s'.jobs == s.jobs[tid := job'] && i < SIZE
    requires forall p :: p in s.h.tickets && SlotAt(s, p) == i && !Waiting(s', p) ==>
               s'.mem.items[i].tracking != Sent(s, p).tracking
    requires forall p :: SIZE <= p < Bound(s.mem.work) && SlotAt(s, p) != i && Waiting(s, p) ==> Waiting(s', p)
    ensures forall p :: p in s'.h.tickets ==> TicketGood(s', p)
  {
    forall p | p in s'.h.tickets ensures TicketGood(s', p) {
      assert TicketGood(s, p);
    }
  }

  lemma MessageWritten(s: State, tid: nat, job: Job)
    requires Base(s) && JobOf(s, tid) == job && (job.WriteSize? || job.WriteData? || job.WriteTracking?) && JobItem(s, job) && JobShape(job)
    requires Base(QuietStep(s, tid, job))
    ensures var s', job' := QuietStep(s, tid, job), After(s.mem, s.bound, job);
            && job.i < SIZE && HeldSlot(job) == Some(job.i) && Sending(job) == Some(job.m) && Wrote(s, s', job.i)
            && s'.h == s.h && s'.jobs == s.jobs[tid := job'] && JobShape(job') && JobItem(s', job')
            && Receiving(job) == Receiving(job') == None && Sending(job') == Sending(job)
            && (s'.mem.items[job.i].tracking == s.mem.items[job.i].tracking || s'.mem.items[job.i].tracking == job.m.tracking)
  {
    if job.WriteData? && job.n < |job.m.body| {
      var s' := QuietStep(s, tid, job);
      assert s'.mem.items[job.i].data[..job.n + 1] == s.mem.items[job.i].data[..job.n] + [job.m.body[job.n]];
      assert job.m.body[..job.n + 1] == job.m.body[..job.n] + [job.m.body[job.n]];
    }
  }

  lemma MessageTickets(s: State, s': State, tid: nat, m: Message, job': Job, i: nat)
    requires Items(s) && Base(s') && Wrote(s, s', i) && s'.jobs == s.jobs[tid := job'] && i < SIZE && s'.h == s.h
    requires Sending(JobOf(s, tid)) == Some(m) && Receiving(job') == Receiving(JobOf(s, tid))
    requires s'.mem.items[i].tracking == s.mem.items[i].tracking || s'.mem.items[i].tracking == m.tracking
    ensures Fates(s')
  {
    forall t ensures Receiving(JobOf(s', t)) == Receiving(JobOf(s, t)) { }
    forall p | p in s.h.tickets && SlotAt(s, p) == i && !Waiting(s', p)
      ensures s'.mem.items[i].tracking != Sent(s, p).tracking
    {
      assert TicketGood(s, p);
      assert Sending(JobOf(s, tid)) == Some(m);
    }
    TicketsWrote(s, s', tid, job', i);
    forall p | p in s'.h.received ensures ReceivedGood(s', p) { assert ReceivedGood(s, p); }
  }

  lemma SendingWriteKeeps(s: State, tid: nat, job: Job)
    requires Items(s) && JobOf(s, tid) == job && (job.WriteSize? || job.WriteData? || job.WriteTracking?)
    ensures Items(QuietStep(s, tid, job))
  {
    hide *;
    Parts(s);
    JobParts(s, tid);
    MessageSteps(s, tid, job);
    var s', job' := QuietStep(s, tid, job), After(s.mem, s.bound, job);
    MessageWritten(s, tid, job);
    HolderWrote(s, s', tid, job', job.i);
    MessageTickets(s, s', tid, job.m, job', job.i);
    DistinctSame(s, s', tid, job');
    Whole(s');
  }

  lemma MessageSteps(s: State, tid: nat, job: Job)
    requires Slots(s) && Base(s) && JobOf(s, tid) == job && (job.WriteSize? || job.WriteData? || job.WriteTracking? || job.Claim?)
    ensures Slots(QuietStep(s, tid, job)) && Base(QuietStep(s, tid, job))
  {
    QuietStepKeeps(s, tid, job);
  }

  lemma ClaimFacts(s: State, tid: nat, i: nat, p: nat, body: Text)
    requires Items(s) && JobOf(s, tid) == Claim(i, p, body)
    ensures i < SIZE && SIZE <= p < s.mem.work.head && SlotAt(s, p) == i && p !in s.h.received
    ensures body == Sent(s, p).body && Proper(Sent(s, p))
    ensures Claims(s.mem.items, i, body) <==> p !in s.h.cancelled
    ensures var items' := WriteItems(s.mem.items, Claim(i, p, body));
            items'[i].tracking == 0 || !Claims(items', i, body)
  {
    assert JobShape(JobOf(s, tid)) && JobItem(s, JobOf(s, tid));
  }

  lemma ClaimTickets(s: State, tid: nat, i: nat, p: nat, body: Text)
    requires Items(s) && JobOf(s, tid) == Claim(i, p, body)
    requires Base(QuietStep(s, tid, Claim(i, p, body)))
    ensures var s' := QuietStep(s, tid, Claim(i, p, body));
            forall q :: q in s'.h.tickets ==> TicketGood(s', q)
  {
    var job := Claim(i, p, body);
    var s' := QuietStep(s, tid, job);
    ClaimFacts(s, tid, i, p, body);
    forall q | SIZE <= q < Bound(s.mem.work) && SlotAt(s, q) != i && Waiting(s, q) ensures Waiting(s', q) {
      if q < s.mem.work.head {
        var t :| Receiving(JobOf(s, t)) == Some(q);
        assert JobOf(s', t) == JobOf(s, t);
      }
    }
    forall q | q in s.h.tickets && SlotAt(s, q) == i && !Waiting(s', q)
      ensures s'.mem.items[i].tracking != Sent(s, q).tracking
    {
      assert TicketGood(s, q);
      assert Proper(Sent(s, q));
      if q != p && Waiting(s, q) {
        assert q < s.mem.work.head;
        var t :| Receiving(JobOf(s, t)) == Some(q);
        assert JobOf(s', t) == JobOf(s, t);
      }
    }
    TicketsWrote(s, s', tid, After(s.mem, s.bound, job), i);
  }

  lemma ClaimFates(s: State, tid: nat, i: nat, p: nat, body: Text)
    requires Items(s) && JobOf(s, tid) == Claim(i, p, body)
    requires Base(QuietStep(s, tid, Claim(i, p, body)))
    ensures Fates(QuietStep(s, tid, Claim(i, p, body)))
  {
    var s' := QuietStep(s, tid, Claim(i, p, body));
    ClaimFacts(s, tid, i, p, body);
    ClaimTickets(s, tid, i, p, body);
    forall q | q in s'.h.received ensures ReceivedGood(s', q) {
      if q != p { assert ReceivedGood(s, q); }
    }
  }

  lemma ClaimWritten(s: State, tid: nat, i: nat, p: nat, body: Text)
    requires Base(s) && i < SIZE && SIZE <= p < Bound(s.mem.work) && SlotAt(s, p) == i && JobOf(s, tid) == Claim(i, p, body)
    requires Base(QuietStep(s, tid, Claim(i, p, body)))
    ensures var s', job' := QuietStep(s, tid, Claim(i, p, body)), PutFree(i, LoadTail(0));
            && Wrote(s, s', i) && s'.jobs == s.jobs[tid := job'] && JobShape(job') && JobItem(s', job')
            && Sending(job') == None && s'.h.sent == s.h.sent && s'.h.tickets == s.h.tickets
            && HeldSlot(JobOf(s, tid)) == Some(i)
  {
  }

  lemma ClaimKeeps(s: State, tid: nat, i: nat, p: nat, body: Text)
    requires Items(s) && JobOf(s, tid) == Claim(i, p, body)
    ensures Items(QuietStep(s, tid, Claim(i, p, body)))
  {
    hide *;
    Parts(s);
    JobParts(s, tid);
    ClaimFacts(s, tid, i, p, body);
    MessageSteps(s, tid, Claim(i, p, body));
    ClaimPosition(s, p);
    ClaimWritten(s, tid, i, p, body);
    var s' := QuietStep(s, tid, Claim(i, p, body));
    HolderWrote(s, s', tid, PutFree(i, LoadTail(0)), i);
    ClaimFates(s, tid, i, p, body);
    DistinctSame(s, s', tid, PutFree(i, LoadTail(0)));
    Whole(s');
  }

  lemma ClaimPosition(s: State, p: nat)
    requires Base(s) && p < s.mem.work.head
    ensures p < Bound(s.mem.work)
  {
  }

  // A sender stores its slot in the work queue.

  lemma StoreBodies(s: State, s': State, tid: nat, m: Message, i: nat, job': Job)
    requires Slots(s) && Base(s) && Base(s') && Bodies(s) && s'.jobs == s.jobs[tid := job']
    requires s'.mem.items == s.mem.items && s'.mem.work.head == s.mem.work.head
    requires s'.mem.work.log == s.mem.work.log + [i] && s'.h.sent == s.h.sent + [m]
    requires s'.h.cancelled == s.h.cancelled && s'.h.received == s.h.received
    requires Bound(s.mem.work) !in s.h.cancelled
    requires i < SIZE && Holds(s.mem.items[i], m) && s.mem.items[i].tracking == m.tracking
    requires JobShape(job') && JobItem(s', job')
    ensures Bodies(s')
  {
    forall p | s'.mem.work.head <= p < Bound(s'.mem.work) ensures Carries(s', p) {
      if p < Bound(s.mem.work) { assert Carries(s, p); }
    }
    forall t ensures JobItem(s', JobOf(s', t)) {
      if t != tid { assert JobItem(s, JobOf(s, t)) && JobShape(JobOf(s, t)); }
    }
  }

  lemma StoreFates(s: State, s': State, tid: nat, m: Message, i: nat, job': Job)
    requires Base(s) && Base(s') && Fates(s) && s'.jobs == s.jobs[tid := job']
    requires s'.mem.items == s.mem.items && s'.mem.work.head == s.mem.work.head
    requires s'.mem.work.log == s.mem.work.log + [i] && s'.h.sent == s.h.sent + [m]
    requires s'.h.cancelled == s.h.cancelled && s'.h.received == s.h.received
    requires s'.h.tickets == s.h.tickets[Bound(s.mem.work) := i] && i < SIZE
    requires Receiving(job') == None == Receiving(JobOf(s, tid))
    ensures Fates(s')
  {
    forall t ensures Receiving(JobOf(s', t)) == Receiving(JobOf(s, t)) { }
    forall p | p in s'.h.received ensures ReceivedGood(s', p) { assert ReceivedGood(s, p); }
    forall p | p in s'.h.tickets ensures TicketGood(s', p) {
      if p != Bound(s.mem.work) { assert TicketGood(s, p); }
    }
  }

  lemma StoreDistinct(s: State, s': State, tid: nat, m: Message, p0: nat, i: nat, job': Job)
    requires Distinct(s) && s'.jobs == s.jobs[tid := job'] && s'.h.sent == s.h.sent + [m]
    requires p0 == SIZE + |s.h.sent| && s'.h.tickets == s.h.tickets[p0 := i]
    requires Sending(JobOf(s, tid)) == Some(m) && Sending(job') == None
    ensures Distinct(s')
  {
    forall t ensures Sending(JobOf(s', t)) == if t == tid then None else Sending(JobOf(s, t)) { }
  }

  lemma PutWorkStores(s: State, tid: nat, m: Message, i: nat, put: EnqueuePc)
    requires Slots(s) && Base(s) && JobOf(s, tid) == PutWork(m, i, put) && JobItem(s, PutWork(m, i, put))
    requires i < SIZE && Stores(put, EnqueueStep(s.mem.work, i, put).1)
    ensures var put' := EnqueueStep(s.mem.work, i, put).1;
            var s' := PutWorkStep(s, tid, m, i, put);
            && AfterPutWork(m, i, put') == PutWork(m, i, put') && Published(put') && JobShape(PutWork(m, i, put'))
            && s'.jobs == s.jobs[tid := PutWork(m, i, put')] && s'.mem.items == s.mem.items
            && s'.mem.work.head == s.mem.work.head
            && s'.h.cancelled == s.h.cancelled && s'.h.received == s.h.received
            && s'.mem.work.log == s.mem.work.log + [i] && s'.h.sent == s.h.sent + [m]
            && s'.h.tickets == s.h.tickets[Bound(s.mem.work) := i]
            && Receiving(PutWork(m, i, put')) == None == Receiving(PutWork(m, i, put))
            && Sending(PutWork(m, i, put)) == Some(m) && Sending(PutWork(m, i, put')) == None
            && Holds(s.mem.items[i], m) && s.mem.items[i].tracking == m.tracking && Proper(m)
  {
    assert JobShape(PutWork(m, i, put)) && JobQueue(s, PutWork(m, i, put));
    EnqueueGood(s.mem.work, i, put);
  }

  lemma PutWorkMoves(s: State, tid: nat, m: Message, i: nat, put: EnqueuePc)
    requires Slots(s) && Base(s) && JobOf(s, tid) == PutWork(m, i, put) && JobItem(s, PutWork(m, i, put))
    requires i < SIZE && !Stores(put, EnqueueStep(s.mem.work, i, put).1)
    ensures var s', job' := PutWorkStep(s, tid, m, i, put), AfterPutWork(m, i, EnqueueStep(s.mem.work, i, put).1);
            && s'.jobs == s.jobs[tid := job'] && JobShape(job') && SameItems(s, s') && JobItem(s, job')
            && Receiving(job') == None == Receiving(PutWork(m, i, put))
            && (Sending(job') == None || Sending(job') == Sending(PutWork(m, i, put)))
  {
    assert JobShape(PutWork(m, i, put)) && JobQueue(s, PutWork(m, i, put));
    EnqueueGood(s.mem.work, i, put);
  }

  lemma PublishedItem(s: State, m: Message, i: nat, put: EnqueuePc)
    requires Base(s) && JobShape(PutWork(m, i, put)) && Published(put)
    ensures JobItem(s, PutWork(m, i, put))
  {
  }

  lemma NotCancelledYet(s: State)
    requires Base(s) && Fates(s)
    ensures Bound(s.mem.work) !in s.h.cancelled && SIZE + |s.h.sent| == Bound(s.mem.work)
  {
  }

  lemma ProperMore(sent: seq<Message>, m: Message)
    requires ProperSent(sent) && Proper(m)
    ensures ProperSent(sent + [m])
  {
  }

  lemma PutWorkItems(s: State, tid: nat, m: Message, i: nat, put: EnqueuePc)
    requires Items(s) && JobOf(s, tid) == PutWork(m, i, put)
    ensures Items(PutWorkStep(s, tid, m, i, put))
  {
    hide *;
    Parts(s);
    JobParts(s, tid);
    Ready(s, tid);
    PutWorkKeeps(s, tid, m, i, put);
    var put' := EnqueueStep(s.mem.work, i, put).1;
    var s' := PutWorkStep(s, tid, m, i, put);
    if Stores(put, put') {
      PutWorkStores(s, tid, m, i, put);
      SlotsGiveBase(s');
      var job' := PutWork(m, i, put');
      PublishedItem(s', m, i, put');
      NotCancelledYet(s);
      ProperMore(s.h.sent, m);
      StoreBodies(s, s', tid, m, i, job');
      StoreFates(s, s', tid, m, i, job');
      StoreDistinct(s, s', tid, m, Bound(s.mem.work), i, job');
      Whole(s');
    } else {
      PutWorkMoves(s, tid, m, i, put);
      UntouchedKeeps(s, s', tid, AfterPutWork(m, i, put'));
    }
  }

  // A worker takes the item at the head.

  lemma TakenBodies(s: State, s': State, tid: nat, i: nat, job': Job)
    requires Slots(s) && Base(s) && Base(s') && Bodies(s) && s'.jobs == s.jobs[tid := job']
    requires s'.mem.items == s.mem.items && s'.mem.work.log == s.mem.work.log
    requires s'.mem.work.head == s.mem.work.head + 1
    requires s'.h.sent == s.h.sent && s'.h.cancelled == s.h.cancelled && s'.h.received == s.h.received
    requires s.mem.work.head < Bound(s.mem.work) && SlotAt(s, s.mem.work.head) == i
    requires s.mem.work.head !in s.h.received && job' == ReadSize(i, s.mem.work.head)
    ensures Bodies(s')
  {
    hide Slots, JobShape;
    assert Carries(s, s.mem.work.head);
    forall p | s'.mem.work.head <= p < Bound(s'.mem.work) ensures Carries(s', p) { assert Carries(s, p); }
    forall t ensures JobItem(s', JobOf(s', t)) {
      if t != tid { assert JobItem(s, JobOf(s, t)) && JobShape(JobOf(s, t)); }
    }
  }

  lemma TakenFates(s: State, s': State, tid: nat, i: nat, job': Job)
    requires Base(s) && Base(s') && Fates(s) && s'.jobs == s.jobs[tid := job']
    requires s'.mem.items == s.mem.items && s'.mem.work.log == s.mem.work.log
    requires s'.mem.work.head == s.mem.work.head + 1
    requires s'.h.sent == s.h.sent && s'.h.tickets == s.h.tickets
    requires s'.h.cancelled == s.h.cancelled && s'.h.received == s.h.received
    requires job' == ReadSize(i, s.mem.work.head) && Receiving(JobOf(s, tid)) == None
    ensures Fates(s')
  {
    forall p | p in s'.h.received ensures ReceivedGood(s', p) { assert ReceivedGood(s, p); }
    forall p | p in s'.h.tickets ensures TicketGood(s', p) {
      assert TicketGood(s, p);
      if p == s.mem.work.head {
        assert Receiving(JobOf(s', tid)) == Some(p);
      } else if p < s.mem.work.head && Waiting(s, p) {
        var t :| Receiving(JobOf(s, t)) == Some(p);
        assert JobOf(s', t) == JobOf(s, t);
      }
    }
  }

  lemma WaitingNotReceived(s: State, p: nat)
    requires Items(s) && Waiting(s, p)
    ensures p !in s.h.received
  {
    if p < s.mem.work.head {
      var t :| Receiving(JobOf(s, t)) == Some(p);
      assert JobItem(s, JobOf(s, t));
    }
  }

  lemma SlotsJob(s: State, tid: nat)
    requires Slots(s)
    ensures QueueGood(s.mem.free) && QueueGood(s.mem.work) && JobShape(JobOf(s, tid)) && JobQueue(s, JobOf(s, tid))
    ensures |s.mem.free.entries| == SIZE == |s.mem.work.entries| && |s.h.owner| == SIZE
  {
  }

  lemma HeadMoves(q: Queue, take: DequeuePc)
    requires |q.entries| == SIZE && TakeShape(take)
    ensures var (q', take') := DequeueStep(q, take); q'.head == if take'.Taken? then q.head + 1 else q.head
  {
  }

  lemma TakeWorkEffect(s: State, tid: nat, take: DequeuePc)
    requires Slots(s) && Base(s) && JobOf(s, tid) == TakeWork(take)
    ensures var take' := DequeueStep(s.mem.work, take).1;
            var s', job' := TakeWorkStep(s, tid, take), AfterTakeWork(take', s.mem.work.head);
            && s'.jobs == s.jobs[tid := job'] && JobShape(job') && s'.mem.items == s.mem.items
            && s'.mem.work.log == s.mem.work.log && s'.h.sent == s.h.sent && s'.h.tickets == s.h.tickets
            && s'.h.cancelled == s.h.cancelled && s'.h.received == s.h.received
            && Receiving(TakeWork(take)) == None && Sending(job') == None
            && if take'.Taken? then
                 && SIZE <= s.mem.work.head < Bound(s.mem.work) && s'.mem.work.head == s.mem.work.head + 1
                 && SlotAt(s, s.mem.work.head) == take'.value && job' == ReadSize(take'.value, s.mem.work.head)
               else
                 SameItems(s, s') && JobItem(s, job') && Receiving(job') == None
  {
    hide Slots, QueueGood, DequeueStep;
    SlotsJob(s, tid);
    HeadMoves(s.mem.work, take);
    DequeueGood(s.mem.work, take);
    if DequeueStep(s.mem.work, take).1.Taken? {
      assert Contents(s.mem.work)[0] == SlotAt(s, s.mem.work.head);
    }
  }

  lemma QueuedWaits(s: State)
    ensures Waiting(s, s.mem.work.head)
  {
  }

  lemma TakeWorkItems(s: State, tid: nat, take: DequeuePc)
    requires Items(s) && JobOf(s, tid) == TakeWork(take)
    ensures Items(TakeWorkStep(s, tid, take))
  {
    hide *;
    Parts(s);
    Ready(s, tid);
    var take' := DequeueStep(s.mem.work, take).1;
    TakeWorkEffect(s, tid, take);
    TakeWorkKeeps(s, tid, take);
    var s', job' := TakeWorkStep(s, tid, take), AfterTakeWork(take', s.mem.work.head);
    BaseLog(s, s');
    if take'.Taken? {
      QueuedWaits(s);
      WaitingNotReceived(s, s.mem.work.head);
      TakenBodies(s, s', tid, take'.value, job');
      TakenFates(s, s', tid, take'.value, job');
      DistinctSame(s, s', tid, job');
      Whole(s');
    } else {
      UntouchedKeeps(s, s', tid, job');
    }
  }

  lemma BaseLog(s: State, s': State)
    requires Base(s) && Slots(s') && s'.h.sent == s.h.sent && s'.mem.work.log == s.mem.work.log
    ensures Base(s')
  {
  }

  // The other steps of a thread.

  lemma TakeFreeEffect(s: State, tid: nat, m: Message, take: DequeuePc)
    requires Slots(s) && Base(s) && JobOf(s, tid) == TakeFree(m, take)
    ensures var s', job' := TakeFreeStep(s, tid, m, take), AfterTakeFree(m, DequeueStep(s.mem.free, take).1);
            && s'.jobs == s.jobs[tid := job'] && SameItems(s, s') && JobShape(job') && JobItem(s, job')
            && Receiving(job') == None == Receiving(TakeFree(m, take))
            && (Sending(job') == None || Sending(job') == Sending(TakeFree(m, take)))
  {
    hide Slots, QueueGood, DequeueStep;
    SlotsJob(s, tid);
    DequeueGood(s.mem.free, take);
  }

  lemma TakeFreeItems(s: State, tid: nat, m: Message, take: DequeuePc)
    requires Items(s) && JobOf(s, tid) == TakeFree(m, take)
    ensures Items(TakeFreeStep(s, tid, m, take))
  {
    hide *;
    Parts(s);
    Ready(s, tid);
    TakeFreeEffect(s, tid, m, take);
    TakeFreeKeeps(s, tid, m, take);
    UntouchedKeeps(s, TakeFreeStep(s, tid, m, take), tid, AfterTakeFree(m, DequeueStep(s.mem.free, take).1));
  }

  lemma GiveBackEffect(s: State, tid: nat, i: nat, put: EnqueuePc, worker: bool)
    requires Slots(s) && Base(s) && JobOf(s, tid) == if worker then PutFree(i, put) else ReturnSlot(i, put)
    ensures var s', job' := GiveBackStep(s, tid, i, put, worker), AfterGiveBack(i, EnqueueStep(s.mem.free, i, put).1, worker);
            && s'.jobs == s.jobs[tid := job'] && SameItems(s, s') && JobShape(job') && JobItem(s, job')
            && Receiving(job') == None == Receiving(JobOf(s, tid)) && Sending(job') == None
  {
    assert JobShape(JobOf(s, tid));
  }

  lemma GiveBackItems(s: State, tid: nat, i: nat, put: EnqueuePc, worker: bool)
    requires Items(s) && JobOf(s, tid) == if worker then PutFree(i, put) else ReturnSlot(i, put)
    ensures Items(GiveBackStep(s, tid, i, put, worker))
  {
    hide *;
    Parts(s);
    Ready(s, tid);
    GiveBackEffect(s, tid, i, put, worker);
    GiveBackKeeps(s, tid, i, put, worker);
    UntouchedKeeps(s, GiveBackStep(s, tid, i, put, worker), tid, AfterGiveBack(i, EnqueueStep(s.mem.free, i, put).1, worker));
  }

  predicate WritesItem(job: Job) { job.WriteSize? || job.WriteData? || job.WriteTracking? || job.Claim? }

  lemma AfterItem(s: State, job: Job)
    requires Base(s) && JobShape(job) && JobItem(s, job) && !TouchesQueue(job) && !WritesItem(job)
    ensures var job' := After(s.mem, s.bound, job);
            && JobShape(job') && JobItem(s, job') && Receiving(job') == Receiving(job) && Sending(job') == None
  {
    if job.ReadData? && |job.body| < job.size {
      var body := Sent(s, job.p).body;
      assert s.mem.items[job.i].data[..|body|][|job.body|] == s.mem.items[job.i].data[|job.body|];
      assert body[..|job.body| + 1] == body[..|job.body|] + [body[|job.body|]];
    }
  }

  lemma QuietItems(s: State, tid: nat, job: Job)
    requires Items(s) && JobOf(s, tid) == job && !TouchesQueue(job) && !WritesItem(job)
    ensures Items(QuietStep(s, tid, job))
  {
    assert JobShape(job) && JobItem(s, job);
    AfterItem(s, job);
    QuietStepKeeps(s, tid, job);
    UntouchedKeeps(s, QuietStep(s, tid, job), tid, After(s.mem, s.bound, job));
  }

  lemma AccessItems(s: State, tid: nat, job: Job)
    requires Items(s) && JobOf(s, tid) == job && !TouchesQueue(job)
    ensures Items(QuietStep(s, tid, job))
  {
    if job.Claim? {
      ClaimKeeps(s, tid, job.i, job.p, job.body);
    } else if WritesItem(job) {
      SendingWriteKeeps(s, tid, job);
    } else {
      QuietItems(s, tid, job);
    }
  }

  lemma StepKeepsItems(s: State, tid: nat)
    requires Items(s)
    ensures Items(Step(s, tid))
  {
    hide *;
    Parts(s);
    SlotsShape(s);
    match JobOf(s, tid)
    case TakeFree(m, take) =>
      StepTakesFree(s, tid, m, take);
      TakeFreeItems(s, tid, m, take);
    case PutWork(m, i, put) =>
      StepPutsWork(s, tid, m, i, put);
      PutWorkItems(s, tid, m, i, put);
    case ReturnSlot(i, put) =>
      StepGivesBack(s, tid, i, put, false);
      GiveBackItems(s, tid, i, put, false);
    case TakeWork(take) =>
      StepTakesWork(s, tid, take);
      TakeWorkItems(s, tid, take);
    case PutFree(i, put) =>
      StepGivesBack(s, tid, i, put, true);
      GiveBackItems(s, tid, i, put, true);
    case _ =>
      NotQueue(JobOf(s, tid));
      StepIsQuiet(s, tid, JobOf(s, tid));
      AccessItems(s, tid, JobOf(s, tid));
  }

  // The router cancels an item, or drops its cookie.

  lemma OneOccupant(s: State, p: nat, q: nat)
    requires Items(s) && s.mem.work.head <= q < Bound(s.mem.work) && SIZE <= p < Bound(s.mem.work)
    requires Waiting(s, p) && p != q
    ensures SlotAt(s, p) != SlotAt(s, q)
  {
    QueuedSlot(s, q);
    if s.mem.work.head <= p {
      var c := Contents(s.mem.work);
      assert c[p - s.mem.work.head] == SlotAt(s, p) && c[q - s.mem.work.head] == SlotAt(s, q);
      assert NoDup(c);
    } else {
      var t :| Receiving(JobOf(s, t)) == Some(p);
      assert JobItem(s, JobOf(s, t)) && JobShape(JobOf(s, t));
      assert HeldSlot(JobOf(s, t)) == Some(SlotAt(s, p));
      assert s.h.owner[SlotAt(s, p)] == Held(t);
    }
  }

  /** Whoever holds the slot of a waiting item is the worker that took the item. */
  lemma HolderReceives(s: State, p: nat, tid: nat)
    requires Items(s) && SIZE <= p < Bound(s.mem.work) && Waiting(s, p)
    requires HeldSlot(JobOf(s, tid)) == Some(SlotAt(s, p)) && SlotAt(s, p) < SIZE
    ensures Receiving(JobOf(s, tid)) == Some(p)
  {
    assert s.h.owner[SlotAt(s, p)] == Held(tid);
    if s.mem.work.head <= p {
      QueuedSlot(s, p);
    } else {
      var t :| Receiving(JobOf(s, t)) == Some(p);
      assert JobItem(s, JobOf(s, t)) && JobShape(JobOf(s, t));
      assert HeldSlot(JobOf(s, t)) == Some(SlotAt(s, p));
    }
  }

  ghost predicate Cancels(s: State, p: nat) {
    && Items(s) && p in s.h.tickets && TicketGood(s, p)
    && s.mem.items[s.h.tickets[p]].tracking == Sent(s, p).tracking
  }

  lemma CancelledJob(s: State, p: nat, tid: nat)
    requires Cancels(s, p) && Base(CancelStep(s, p)) && HeldSlot(JobOf(s, tid)) == Some(SlotAt(s, p))
    ensures JobItem(CancelStep(s, p), JobOf(CancelStep(s, p), tid))
  {
    hide Slots, Fates, Distinct, HeldSlot;
    HolderReceives(s, p, tid);
    JobParts(s, tid);
  }

  lemma CancelBodies(s: State, p: nat)
    requires Cancels(s, p) && Base(CancelStep(s, p))
    ensures Bodies(CancelStep(s, p))
  {
    var s', i := CancelStep(s, p), SlotAt(s, p);
    forall t ensures (JobOf(s', t) == JobOf(s, t) && HeldSlot(JobOf(s, t)) != Some(i)) || JobItem(s', JobOf(s', t)) {
      if HeldSlot(JobOf(s, t)) == Some(i) { CancelledJob(s, p, t); }
    }
    forall q | s.mem.work.head <= q < Bound(s.mem.work) && SlotAt(s, q) == i ensures Carries(s', q) {
      if q != p { OneOccupant(s, p, q); }
      assert Carries(s, q);
    }
    BodiesWrote(s, s', i);
  }

  lemma CancelFates(s: State, p: nat)
    requires Cancels(s, p) && Base(CancelStep(s, p))
    ensures Fates(CancelStep(s, p))
  {
    var s' := CancelStep(s, p);
    forall t ensures JobOf(s', t) == JobOf(s, t) { }
    forall q | q in s'.h.tickets ensures TicketGood(s', q) {
      assert TicketGood(s, q) && Proper(Sent(s, q));
    }
    WaitingNotReceived(s, p);
    forall q | q in s'.h.received ensures ReceivedGood(s', q) { assert ReceivedGood(s, q); }
  }

  lemma CancelKeeps(s: State, p: nat)
    requires Items(s)
    ensures Items(CancelStep(s, p))
  {
    var s' := CancelStep(s, p);
    SameJobsKeep(s, s');
    if s' != s {
      assert TicketGood(s, p);
      CancelBodies(s, p);
      CancelFates(s, p);
      SameDistinct(s, s');
    }
  }

  lemma SameDistinct(s: State, s': State)
    requires Distinct(s) && s'.jobs == s.jobs && s'.h.sent == s.h.sent
    requires forall p :: p in s'.h.tickets ==> p in s.h.tickets
    ensures Distinct(s')
  {
    forall t ensures JobOf(s', t) == JobOf(s, t) { }
  }

  lemma ForgetInside(s: State, s': State, p: nat)
    requires Base(s) && Bodies(s) && Fates(s) && s' == s.(h := s.h.(tickets := s.h.tickets - {p})) && Base(s')
    ensures Bodies(s') && Fates(s')
  {
    forall t ensures JobOf(s', t) == JobOf(s, t) { }
    forall t ensures JobItem(s', JobOf(s', t)) { assert JobItem(s, JobOf(s, t)); }
    forall q | s.mem.work.head <= q < Bound(s.mem.work) ensures Carries(s', q) { assert Carries(s, q); }
    forall q | q in s'.h.tickets ensures TicketGood(s', q) { assert TicketGood(s, q); }
    forall q | q in s'.h.received ensures ReceivedGood(s', q) { assert ReceivedGood(s, q); }
  }

  lemma ForgetKeeps(s: State, p: nat)
    requires Items(s)
    ensures Items(s.(h := s.h.(tickets := s.h.tickets - {p})))
  {
    var s' := s.(h := s.h.(tickets := s.h.tickets - {p}));
    SameJobsKeep(s, s');
    ForgetInside(s, s', p);
    SameDistinct(s, s');
  }

  lemma CallDistinct(s: State, s': State, tid: nat, m: Message)
    requires Distinct(s) && Unused(s, m.tracking) && s'.jobs == s.jobs[tid := TakeFree(m, LoadHead(0))] && s'.h == s.h
    ensures Distinct(s')
  {
    forall t ensures Sending(JobOf(s', t)) == if t == tid then Some(m) else Sending(JobOf(s, t)) { }
  }

  lemma CallKeeps(s: State, tid: nat, m: Message)
    requires Items(s) && JobOf(s, tid) == Idle && Proper(m) && Unused(s, m.tracking)
    ensures Items(s.(jobs := s.jobs[tid := TakeFree(m, LoadHead(0))]))
  {
    var job' := TakeFree(m, LoadHead(0));
    var s' := s.(jobs := s.jobs[tid := job']);
    QuietKeeps(s, s', tid, job');
    BodiesSame(s, s', tid, job');
    FatesSame(s, s', tid, job');
    CallDistinct(s, s', tid, m);
  }

  lemma AwakeKeeps(s: State, tid: nat)
    requires Items(s) && JobOf(s, tid) == Idle
    ensures Items(Next(s, StartWorker(tid)))
  {
    hide Slots, Base, Bodies, Fates, Distinct;
    SlotsShape(s);
    NextKeepsSlots(s, StartWorker(tid));
    UntouchedKeeps(s, Next(s, StartWorker(tid)), tid, Awake);
  }

  lemma EndKeeps(s: State, tid: nat, unread: bool)
    requires Items(s) && MayEnd(JobOf(s, tid))
    ensures Items(EndStep(s, tid, unread))
  {
    hide Slots, Bodies, Fates, Distinct;
    NextKeepsSlots(s, End(tid, unread));
    UntouchedKeeps(s, EndStep(s, tid, unread), tid, Idle);
  }

  lemma NextKeepsItems(s: State, a: Action)
    requires Items(s)
    ensures Items(Next(s, a))
  {
    hide Items, Step, CancelStep, Slots, Base, Bodies, Fates, Distinct;
    Parts(s);
    SlotsShape(s);
    match a
    case Advance(tid) => StepKeepsItems(s, tid);
    case Cancel(p) => CancelKeeps(s, p);
    case Forget(p) => ForgetKeeps(s, p);
    case CallSend(tid, m) => if Next(s, a) != s { CallKeeps(s, tid, m); }
    case StartWorker(tid) => if JobOf(s, tid) == Idle { AwakeKeeps(s, tid); }
    case End(tid, unread) => if MayEnd(JobOf(s, tid)) { EndKeeps(s, tid, unread); }
  }
}
