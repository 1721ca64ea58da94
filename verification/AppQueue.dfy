/**
  The application queue of src/nxt_app_queue.h: router threads send requests,
  workers receive them, and the router may cancel one that waits.  Two Nncq
  queues pass slot indexes to each other.  Every atomic access, and every byte
  of the unsynchronised copies, is one step; steps of different threads
  interleave freely.

  `owner`, `sent`, `tickets`, `cancelled`, `received`, `missed` and `stale` are
  history variables: no step reads them to decide what to do.
 */
module AppQueue {
  import opened Bytes
  import opened Nncq

  const MSG_SIZE: nat := 31

  /** A request as the router sends it: the tracking value is its first word. */
  datatype Message = Message(body: Text, tracking: nat)

  datatype Item = Item(size: nat, data: Text, tracking: nat)

  /** Where a slot index is. */
  datatype Place = InFree | InWork | Held(tid: nat) | Lost

  datatype Received = Received(body: Text, claimed: bool)

  datatype Job =
    | Idle
    // nxt_app_queue_send_bound()
    | TakeFree(m: Message, take: DequeuePc)
    | WriteSize(m: Message, i: nat)
    | WriteData(m: Message, i: nat, n: nat)
    | WriteTracking(m: Message, i: nat)
    | PutWork(m: Message, i: nat, put: EnqueuePc)
    | ReturnSlot(i: nat, put: EnqueuePc)
    | Doorbell(t: nat)
    | Ring
    // the receive loop of a worker around nxt_app_queue_recv_claim()
    | Awake
    | TakeWork(take: DequeuePc)
    | NoItem
    | Asleep
    | ClearFlag
    | ReadSize(i: nat, p: nat)
    | ReadData(i: nat, p: nat, size: nat, body: Text)
    | Claim(i: nat, p: nat, body: Text)
    | PutFree(i: nat, put: EnqueuePc)
    | LoadDepthTail
    | LoadDepthHead(tail: nat)
    | Rearm

  /** The shared memory segment, and the READ_QUEUE messages sent and not read. */
  datatype Memory = Memory(free: Queue, work: Queue, items: seq<Item>, notified: bool, doorbells: nat)

  /**
    What happened so far; no step reads it.  `missed` counts the looks at the queue that were lost since it
    was last found empty: receives that ran out of retries, workers that ended, doorbells that ended unread.
    `stale` says that the doorbell of the one-wake flag may have ended unread since the flag was last cleared.
   */
  datatype History = History(
    owner: seq<Place>,
    sent: seq<Message>,
    tickets: map<nat, nat>,
    cancelled: set<nat>,
    received: map<nat, Received>,
    missed: nat,
    stale: bool)

  datatype State = State(mem: Memory, jobs: map<nat, Job>, h: History, bound: nat)

  datatype Action =
    | CallSend(tid: nat, m: Message)
    | StartWorker(tid: nat)
    | Advance(tid: nat)
    | End(tid: nat, unread: bool)
    | Cancel(p: nat)
    | Forget(p: nat)

  function JobOf(s: State, tid: nat): Job {
    if tid in s.jobs then s.jobs[tid] else Idle
  }

  function FirstWord(body: Text): nat
    requires |body| >= 4
  {
    (body[0] as int) + 0x100 * (body[1] as int) + 0x1_0000 * (body[2] as int) + 0x100_0000 * (body[3] as int)
  }

  /** What the router sends: the stream number is nonzero and leads the message. */
  predicate Proper(m: Message) {
    4 <= |m.body| <= MSG_SIZE && m.tracking != 0 && m.tracking == FirstWord(m.body)
  }

  /** nxt_app_queue_notify_decision() */
  predicate NotifyDecision(pos: int, bound: nat) {
    pos < 0 || pos < bound
  }

  predicate Published(put: EnqueuePc) { put.AdvanceTail? || put.Stored? }

  /** The slot a thread alone may touch. */
  function HeldSlot(job: Job): Option<nat> {
    match job
    case WriteSize(_, i) => Some(i)
    case WriteData(_, i, _) => Some(i)
    case WriteTracking(_, i) => Some(i)
    case PutWork(_, i, put) => if Published(put) then None else Some(i)
    case ReturnSlot(i, put) => if Published(put) then None else Some(i)
    case ReadSize(i, _) => Some(i)
    case ReadData(i, _, _, _) => Some(i)
    case Claim(i, _, _) => Some(i)
    case PutFree(i, put) => if Published(put) then None else Some(i)
    case _ => None
  }

  /** The message of a send that has not stored its slot in the work queue yet. */
  function Sending(job: Job): Option<Message> {
    match job
    case TakeFree(m, _) => Some(m)
    case WriteSize(m, _) => Some(m)
    case WriteData(m, _, _) => Some(m)
    case WriteTracking(m, _) => Some(m)
    case PutWork(m, _, put) => if Published(put) then None else Some(m)
    case _ => None
  }

  /** The position whose item a worker has taken and not claimed yet. */
  function Receiving(job: Job): Option<nat> {
    match job
    case ReadSize(_, p) => Some(p)
    case ReadData(_, p, _, _) => Some(p)
    case Claim(_, p, _) => Some(p)
    case _ => None
  }

  // Types of the C structs that the steps rely on.

  predicate QueueShape(q: Queue) {
    |q.entries| == SIZE && forall j :: 0 <= j < SIZE ==> q.entries[j].value < SIZE
  }

  predicate TakeShape(take: DequeuePc) {
    && !take.Taken? && !take.FoundEmpty? && !take.GaveUp?
    && (take.SwapHead? ==> take.e.value < SIZE)
  }

  predicate JobShape(job: Job) {
    && (HeldSlot(job).Some? ==> HeldSlot(job).value < SIZE)
    && (Sending(job).Some? ==> Proper(Sending(job).value))
    && match job
       case TakeFree(_, take) => TakeShape(take)
       case TakeWork(take) => TakeShape(take)
       case WriteData(m, _, n) => n <= |m.body|
       case ReadData(_, _, size, body) => |body| <= size <= MSG_SIZE
       case PutWork(_, i, put) => i < SIZE && !put.Stored? && !put.EnqueueFailed?
       case ReturnSlot(i, put) => i < SIZE && !put.Stored? && !put.EnqueueFailed?
       case PutFree(i, put) => i < SIZE && !put.Stored? && !put.EnqueueFailed?
       case _ => true
  }

  predicate ItemsShape(items: seq<Item>) {
    |items| == SIZE && forall i :: 0 <= i < SIZE ==> |items[i].data| == MSG_SIZE
  }

  ghost predicate Shape(s: State) {
    && QueueShape(s.mem.free)
    && QueueShape(s.mem.work)
    && ItemsShape(s.mem.items)
    && |s.h.owner| == SIZE
    && s.bound >= 1
    && (forall tid :: JobShape(JobOf(s, tid)))
  }

  function Move(h: History, i: nat, place: Place): History
    requires i < |h.owner|
  {
    h.(owner := h.owner[i := place])
  }

  /** i = nxt_app_nncq_dequeue(&q->free_items) */
  function TakeFreeStep(s: State, tid: nat, m: Message, take: DequeuePc): State
    requires |s.mem.free.entries| == SIZE == |s.h.owner| && TakeShape(take)
  {
    var (q, take') := DequeueStep(s.mem.free, take);
    State(s.mem.(free := q),
          s.jobs[tid := AfterTakeFree(m, take')],
          if take'.Taken? then Move(s.h, take'.value, Held(tid)) else s.h,
          s.bound)
  }

  function AfterTakeFree(m: Message, take: DequeuePc): Job {
    match take
    case Taken(i) => WriteSize(m, i)
    case FoundEmpty => Idle
    case GaveUp => Idle
    case _ => TakeFree(m, take)
  }

  /** nxt_app_nncq_enqueue_pos(&q->queue, i, &t) */
  function PutWorkStep(s: State, tid: nat, m: Message, i: nat, put: EnqueuePc): State
    requires |s.mem.work.entries| == SIZE && i < |s.h.owner|
  {
    var (q, put') := EnqueueStep(s.mem.work, i, put);
    State(s.mem.(work := q),
          s.jobs[tid := AfterPutWork(m, i, put')],
          if Stores(put, put') then
            Move(s.h, i, InWork).(sent := s.h.sent + [m], tickets := s.h.tickets[put'.t := i])
          else s.h,
          s.bound)
  }

  function AfterPutWork(m: Message, i: nat, put: EnqueuePc): Job {
    match put
    case Stored(t) => Doorbell(t)
    case EnqueueFailed => ReturnSlot(i, LoadTail(0))
    case _ => PutWork(m, i, put)
  }

  /** i = nxt_app_nncq_dequeue(&q->queue) */
  function TakeWorkStep(s: State, tid: nat, take: DequeuePc): State
    requires |s.mem.work.entries| == SIZE == |s.h.owner| && TakeShape(take)
  {
    var (q, take') := DequeueStep(s.mem.work, take);
    State(s.mem.(work := q),
          s.jobs[tid := AfterTakeWork(take', s.mem.work.head)],
          if take'.Taken? then Move(s.h, take'.value, Held(tid))
          else if take'.GaveUp? then s.h.(missed := s.h.missed + 1)
          else if take'.FoundEmpty? then s.h.(missed := 0)
          else s.h,
          s.bound)
  }

  function AfterTakeWork(take: DequeuePc, head: nat): Job {
    match take
    case Taken(i) => ReadSize(i, head)
    case FoundEmpty => NoItem
    case GaveUp => NoItem
    case _ => TakeWork(take)
  }

  /** nxt_app_nncq_enqueue(&q->free_items, i), by a worker or by a send that failed. */
  function GiveBackStep(s: State, tid: nat, i: nat, put: EnqueuePc, worker: bool): State
    requires |s.mem.free.entries| == SIZE && i < |s.h.owner|
  {
    var (q, put') := EnqueueStep(s.mem.free, i, put);
    State(s.mem.(free := q),
          s.jobs[tid := AfterGiveBack(i, put', worker)],
          if Stores(put, put') then Move(s.h, i, InFree)
          else if put'.EnqueueFailed? then Move(s.h, i, Lost)
          else s.h,
          s.bound)
  }

  function AfterGiveBack(i: nat, put: EnqueuePc, worker: bool): Job {
    if put.Stored? || put.EnqueueFailed? then if worker then LoadDepthTail else Idle
    else if worker then PutFree(i, put) else ReturnSlot(i, put)
  }

  predicate Rings(mem: Memory, bound: nat, t: nat) {
    if bound == 1 then !mem.notified else NotifyDecision(t - mem.work.head, bound)
  }

  predicate Claims(items: seq<Item>, i: nat, body: Text)
    requires i < |items|
  {
    |body| >= 4 && items[i].tracking == FirstWord(body)
  }

  /** What an access outside the two queues writes to the items. */
  function WriteItems(items: seq<Item>, job: Job): seq<Item>
    requires ItemsShape(items) && JobShape(job)
  {
    match job
    case WriteSize(m, i) => items[i := items[i].(size := |m.body|)]
    case WriteData(m, i, n) =>
      if n < |m.body| then items[i := items[i].(data := items[i].data[n := m.body[n]])] else items
    case WriteTracking(m, i) => items[i := items[i].(tracking := m.tracking)]
    case Claim(i, p, body) => if Claims(items, i, body) then items[i := items[i].(tracking := 0)] else items
    case _ => items
  }

  /** What it writes to the flag and to the socket. */
  function Signal(mem: Memory, bound: nat, job: Job): Memory {
    match job
    case Doorbell(t) => mem.(notified := mem.notified || (bound == 1 && Rings(mem, bound, t)))
    case Ring => mem.(doorbells := mem.doorbells + 1)
    case Asleep => if mem.doorbells > 0 then mem.(doorbells := mem.doorbells - 1) else mem
    case ClearFlag => mem.(notified := false)
    case Rearm => mem.(notified := false)
    case _ => mem
  }

  /** Where the thread goes after that access. */
  function After(mem: Memory, bound: nat, job: Job): Job
    requires ItemsShape(mem.items) && JobShape(job)
  {
    match job
    case WriteSize(m, i) => WriteData(m, i, 0)
    case WriteData(m, i, n) => if n < |m.body| then WriteData(m, i, n + 1) else WriteTracking(m, i)
    case WriteTracking(m, i) => PutWork(m, i, LoadTail(0))
    case Doorbell(t) => if Rings(mem, bound, t) then Ring else Idle
    case Ring => Idle
    case Awake => TakeWork(LoadHead(0))
    case NoItem => Asleep
    case Asleep => if mem.doorbells > 0 then ClearFlag else Asleep
    case ClearFlag => Awake
    case ReadSize(i, p) => ReadData(i, p, if mem.items[i].size > MSG_SIZE then MSG_SIZE else mem.items[i].size, [])
    case ReadData(i, p, size, body) =>
      if |body| < size then ReadData(i, p, size, body + [mem.items[i].data[|body|]]) else Claim(i, p, body)
    case Claim(i, p, body) => PutFree(i, LoadTail(0))
    case LoadDepthTail => LoadDepthHead(mem.work.tail)
    case LoadDepthHead(tail) => if tail == mem.work.head then Rearm else Awake
    case Rearm => Awake
    case _ => job
  }

  function Record(h: History, items: seq<Item>, job: Job): History
    requires ItemsShape(items) && JobShape(job)
  {
    match job
    case Claim(i, p, body) => h.(received := h.received[p := Received(body, Claims(items, i, body))])
    case ClearFlag => h.(stale := false)
    case Rearm => h.(stale := false)
    case _ => h
  }

  function QuietStep(s: State, tid: nat, job: Job): State
    requires ItemsShape(s.mem.items) && JobShape(job)
  {
    State(Signal(s.mem, s.bound, job).(items := WriteItems(s.mem.items, job)),
          s.jobs[tid := After(s.mem, s.bound, job)],
          Record(s.h, s.mem.items, job),
          s.bound)
  }

  /** One access of thread tid. */
  function Step(s: State, tid: nat): State
    requires Shape(s)
  {
    var job := JobOf(s, tid);
    assert JobShape(job);
    match job
    case TakeFree(m, take) => TakeFreeStep(s, tid, m, take)
    case PutWork(m, i, put) => PutWorkStep(s, tid, m, i, put)
    case ReturnSlot(i, put) => GiveBackStep(s, tid, i, put, false)
    case TakeWork(take) => TakeWorkStep(s, tid, take)
    case PutFree(i, put) => GiveBackStep(s, tid, i, put, true)
    case _ => QuietStep(s, tid, job)
  }

  /** No send in progress and no ticket uses the tracking value: the router's streams are unique. */
  ghost predicate Unused(s: State, tracking: nat) {
    && (forall tid :: Sending(JobOf(s, tid)).Some? ==> Sending(JobOf(s, tid)).value.tracking != tracking)
    && (forall p :: p in s.h.tickets && SIZE <= p < SIZE + |s.h.sent| ==> s.h.sent[p - SIZE].tracking != tracking)
  }

  /** nxt_app_queue_cancel() with the cookie and the tracking value of the item at position p. */
  function CancelStep(s: State, p: nat): State
    requires |s.mem.items| == SIZE
  {
    if p in s.h.tickets && s.h.tickets[p] < SIZE && SIZE <= p < SIZE + |s.h.sent| then
      var i, m := s.h.tickets[p], s.h.sent[p - SIZE];
      var items := s.mem.items;
      if items[i].tracking == m.tracking then
        s.(mem := s.mem.(items := items[i := items[i].(tracking := 0)]),
           h := s.h.(cancelled := s.h.cancelled + {p}))
      else s
    else s
  }

  /** A worker that has no item in hand. */
  predicate MayEnd(job: Job) {
    || job.Awake? || job.TakeWork? || job.NoItem? || job.Asleep? || job.ClearFlag?
    || job.LoadDepthTail? || job.LoadDepthHead? || job.Rearm?
  }

  /** The worker's process ends, maybe with a READ_QUEUE message that it has not read. */
  function EndStep(s: State, tid: nat, unread: bool): State {
    var job, lost := JobOf(s, tid), unread && s.mem.doorbells > 0;
    if !MayEnd(job) then s
    else
      State(if lost then s.mem.(doorbells := s.mem.doorbells - 1) else s.mem,
            s.jobs[tid := Idle],
            s.h.(missed := s.h.missed + (if job.Asleep? || job.NoItem? then 0 else 1) + (if lost then 1 else 0),
                 stale := s.h.stale || lost || job.ClearFlag?),
            s.bound)
  }

  ghost function Next(s: State, a: Action): State
    requires Shape(s)
  {
    match a
    case CallSend(tid, m) =>
      if JobOf(s, tid) == Idle && Proper(m) && Unused(s, m.tracking) then
        s.(jobs := s.jobs[tid := TakeFree(m, LoadHead(0))])
      else s
    case StartWorker(tid) =>
      if JobOf(s, tid) == Idle then s.(jobs := s.jobs[tid := Awake]) else s
    case Advance(tid) => Step(s, tid)
    case End(tid, unread) => EndStep(s, tid, unread)
    case Cancel(p) => CancelStep(s, p)
    case Forget(p) => s.(h := s.h.(tickets := s.h.tickets - {p}))
  }
}
