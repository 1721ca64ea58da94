/**
  The numeric naive circular queue of src/nxt_app_nncq.h, one atomic access per
  step, with positions that never wrap.  NncqWrap connects it to the 32-bit
  counters of the source.

  `log` is a history variable: every value ever stored, in the order of its
  position.  The first position is SIZE, as nxt_app_nncq_init() sets it.
 */
module Nncq {

  const SIZE: nat := 131072
  const RETRIES: nat := SIZE

  /** A slot of the ring: the cycle it was last written in, and the value. */
  datatype Entry = Entry(cycle: nat, value: nat)

  datatype Queue = Queue(head: nat, tail: nat, entries: seq<Entry>, log: seq<nat>)

  /** Where an enqueue stands, for counters P and entries E; `r` counts the retries spent. */
  datatype EnqueueAt<P, E> =
    | LoadTail(r: nat)
    | LoadTailEntry(r: nat, t: P)
    | HelpTail(r: nat, t: P)
    | SwapEntry(r: nat, t: P, e: E)
    | AdvanceTail(t: P)
    | Stored(t: P)
    | EnqueueFailed

  /** Where a dequeue stands.  The source returns the same "empty" for the last two. */
  datatype DequeueAt<P, E> =
    | LoadHead(r: nat)
    | LoadHeadEntry(r: nat, h: P)
    | SwapHead(r: nat, h: P, e: E)
    | Taken(value: nat)
    | FoundEmpty
    | GaveUp

  type EnqueuePc = EnqueueAt<nat, Entry>
  type DequeuePc = DequeueAt<nat, Entry>

  function Slot(p: nat): nat { p % 131072 }

  function Cycle(p: nat): nat { p / 131072 }

  function Init(): Queue {
    Queue(SIZE, SIZE, seq(SIZE, _ => Entry(0, 0)), [])
  }

  /** The first position nothing was stored at yet. */
  function Bound(q: Queue): nat { SIZE + |q.log| }

  /** The values stored and not taken, oldest first. */
  function Contents(q: Queue): seq<nat> {
    if SIZE <= q.head <= Bound(q) then q.log[q.head - SIZE..] else []
  }

  /** One atomic access of nxt_app_nncq_enqueue_pos(). */
  function EnqueueStep(q: Queue, value: nat, pc: EnqueuePc): (Queue, EnqueuePc)
    requires |q.entries| == SIZE
  {
    match pc
    case LoadTail(r) =>
      if r < RETRIES then (q, LoadTailEntry(r, q.tail)) else (q, EnqueueFailed)
    case LoadTailEntry(r, t) =>
      var e := q.entries[Slot(t)];
      if e.cycle == Cycle(t) then (q, HelpTail(r, t))
      else if e.cycle + 1 != Cycle(t) then (q, LoadTail(r + 1))
      else (q, SwapEntry(r, t, e))
    case HelpTail(r, t) =>
      (BumpTail(q, t), LoadTail(r + 1))
    case SwapEntry(r, t, e) =>
      if q.entries[Slot(t)] == e then
        (q.(entries := q.entries[Slot(t) := Entry(Cycle(t), value)], log := q.log + [value]),
         AdvanceTail(t))
      else
        (q, LoadTail(r + 1))
    case AdvanceTail(t) =>
      (BumpTail(q, t), Stored(t))
    case Stored(_) => (q, pc)
    case EnqueueFailed => (q, pc)
  }

  function BumpTail(q: Queue, t: nat): Queue {
    if q.tail == t then q.(tail := t + 1) else q
  }

  /** The step that puts the value in the queue. */
  predicate Stores<P, E>(pc: EnqueueAt<P, E>, pc': EnqueueAt<P, E>) {
    pc.SwapEntry? && pc'.AdvanceTail?
  }

  /** One atomic access of nxt_app_nncq_dequeue(). */
  function DequeueStep(q: Queue, pc: DequeuePc): (Queue, DequeuePc)
    requires |q.entries| == SIZE
  {
    match pc
    case LoadHead(r) =>
      if r < RETRIES then (q, LoadHeadEntry(r, q.head)) else (q, GaveUp)
    case LoadHeadEntry(r, h) =>
      var e := q.entries[Slot(h)];
      if e.cycle != Cycle(h) then
        if e.cycle + 1 == Cycle(h) then (q, FoundEmpty) else (q, LoadHead(r + 1))
      else
        (q, SwapHead(r, h, e))
    case SwapHead(r, h, e) =>
      if q.head == h then (q.(head := h + 1), Taken(e.value)) else (q, LoadHead(r + 1))
    case Taken(_) => (q, pc)
    case FoundEmpty => (q, pc)
    case GaveUp => (q, pc)
  }

  // What every step keeps.

  /** The position slot j was last written at. */
  function Position(q: Queue, j: nat): nat
    requires j < |q.entries|
  {
    q.entries[j].cycle * 131072 + j
  }

  /** Slot j holds the newest position of its residue below the bound, with the logged value. */
  ghost predicate SlotValid(q: Queue, j: nat)
    requires |q.entries| == SIZE && j < SIZE
  {
    var p := Position(q, j);
    && p < Bound(q) <= p + SIZE
    && (SIZE <= p ==> q.entries[j].value == q.log[p - SIZE])
  }

  ghost predicate Valid(q: Queue) {
    && |q.entries| == SIZE
    && SIZE <= q.head <= Bound(q)
    && SIZE <= q.tail <= Bound(q) <= q.tail + 1
    && (forall j :: 0 <= j < SIZE ==> SlotValid(q, j))
  }

  /** No more than SIZE values are queued. */
  ghost predicate Within(q: Queue) { |Contents(q)| <= SIZE }

  /** What an enqueue knows between its steps, whatever the others do. */
  ghost predicate EnqueueValid(q: Queue, value: nat, pc: EnqueuePc) {
    match pc
    case LoadTail(_) => true
    case LoadTailEntry(_, t) => SIZE <= t <= q.tail
    case HelpTail(_, t) => SIZE <= t <= q.tail && t < Bound(q)
    case SwapEntry(_, t, e) => SIZE <= t <= q.tail && e.cycle + 1 == Cycle(t)
    case AdvanceTail(t) => SIZE <= t <= q.tail && t < Bound(q) && q.log[t - SIZE] == value
    case Stored(t) => SIZE <= t < Bound(q) && t < q.tail && q.log[t - SIZE] == value
    case EnqueueFailed => true
  }

  ghost predicate DequeueValid(q: Queue, pc: DequeuePc) {
    match pc
    case LoadHead(_) => true
    case LoadHeadEntry(_, h) => SIZE <= h <= q.head
    case SwapHead(_, h, e) => SIZE <= h <= q.head && h < Bound(q) && e.value == q.log[h - SIZE]
    case Taken(_) => true
    case FoundEmpty => true
    case GaveUp => true
  }

  /** What any step of any thread may do to the shared words. */
  ghost predicate Evolves(q: Queue, q': Queue) {
    && q.head <= q'.head
    && q.tail <= q'.tail
    && |q.log| <= |q'.log|
    && q'.log[..|q.log|] == q.log
  }

  lemma EvolvesKeeps(q: Queue, q': Queue, value: nat, epc: EnqueuePc, dpc: DequeuePc)
    requires Evolves(q, q')
    ensures EnqueueValid(q, value, epc) ==> EnqueueValid(q', value, epc)
    ensures DequeueValid(q, dpc) ==> DequeueValid(q', dpc)
  {
    forall i | 0 <= i < |q.log| ensures q.log[i] == q'.log[i] {
      assert q'.log[..|q.log|][i] == q'.log[i];
    }
  }

  lemma InitValid()
    ensures Valid(Init()) && Within(Init()) && Contents(Init()) == []
  {
  }

  /** A published value stays in its slot until it is taken. */
  lemma QueuedInPlace(q: Queue, p: nat)
    requires Valid(q) && Within(q) && q.head <= p < Bound(q)
    ensures q.entries[Slot(p)] == Entry(Cycle(p), q.log[p - SIZE])
  {
    var j := Slot(p);
    assert SlotValid(q, j);
  }

  /** When the test of a SwapEntry passes, t is the very next position: nobody is overtaken. */
  lemma SwapAtBound(q: Queue, t: nat, e: Entry)
    requires Valid(q) && SIZE <= t <= q.tail && e.cycle + 1 == Cycle(t)
    requires q.entries[Slot(t)] == e
    ensures t == q.tail == Bound(q)
  {
    assert SlotValid(q, Slot(t));
  }

  lemma SwapKeepsValid(q: Queue, t: nat, e: Entry, value: nat)
    requires Valid(q) && SIZE <= t <= q.tail && e.cycle + 1 == Cycle(t)
    requires q.entries[Slot(t)] == e
    ensures Valid(EnqueueStep(q, value, SwapEntry(0, t, e)).0)
  {
    var q' := EnqueueStep(q, value, SwapEntry(0, t, e)).0;
    SwapAtBound(q, t, e);
    forall j | 0 <= j < SIZE ensures SlotValid(q', j) {
      assert SlotValid(q, j);
    }
  }

  lemma EnqueueStepKeeps(q: Queue, value: nat, pc: EnqueuePc)
    requires Valid(q) && EnqueueValid(q, value, pc)
    ensures var (q', pc') := EnqueueStep(q, value, pc);
            && Valid(q') && EnqueueValid(q', value, pc') && Evolves(q, q') && q'.head == q.head
  {
    match pc
    case SwapEntry(r, t, e) =>
      if q.entries[Slot(t)] == e {
        SwapAtBound(q, t, e);
        SwapKeepsValid(q, t, e, value);
      }
    case LoadTailEntry(r, t) =>
      assert SlotValid(q, Slot(t));
    case HelpTail(r, t) =>
      SlotsOnlyLog(q, BumpTail(q, t));
    case AdvanceTail(t) =>
      SlotsOnlyLog(q, BumpTail(q, t));
    case _ =>
  }

  lemma SlotsOnlyLog(q: Queue, q': Queue)
    requires |q.entries| == SIZE && q'.entries == q.entries && q'.log == q.log
    requires forall j :: 0 <= j < SIZE ==> SlotValid(q, j)
    ensures forall j :: 0 <= j < SIZE ==> SlotValid(q', j)
  {
    forall j | 0 <= j < SIZE ensures SlotValid(q', j) {
      assert SlotValid(q, j);
    }
  }

  lemma DequeueStepKeeps(q: Queue, pc: DequeuePc)
    requires Valid(q) && DequeueValid(q, pc)
    ensures var (q', pc') := DequeueStep(q, pc);
            && Valid(q') && DequeueValid(q', pc') && Evolves(q, q') && q'.log == q.log
  {
    match pc
    case LoadHeadEntry(r, h) =>
      assert SlotValid(q, Slot(h));
    case SwapHead(r, h, e) =>
      SlotsOnlyLog(q, DequeueStep(q, pc).0);
    case _ =>
  }

  // What the steps mean for a first-in first-out queue.

  /** The store is the only step of an enqueue that changes the contents: it appends its value. */
  lemma EnqueueStepEffect(q: Queue, value: nat, pc: EnqueuePc)
    requires Valid(q) && EnqueueValid(q, value, pc)
    ensures var (q', pc') := EnqueueStep(q, value, pc);
            if Stores(pc, pc') then
              Contents(q') == Contents(q) + [value] && pc'.t == Bound(q)
            else
              Contents(q') == Contents(q)
  {
    EnqueueStepKeeps(q, value, pc);
    if pc.SwapEntry? && q.entries[Slot(pc.t)] == pc.e {
      SwapAtBound(q, pc.t, pc.e);
    }
  }

  /**
    The head swap is the only step of a dequeue that changes the contents: it
    removes the oldest value and returns that value.  A FoundEmpty is decided at
    a moment when the queue holds nothing.
   */
  lemma DequeueStepEffect(q: Queue, pc: DequeuePc)
    requires Valid(q) && DequeueValid(q, pc)
    ensures var (q', pc') := DequeueStep(q, pc);
            if pc.SwapHead? && pc'.Taken? then
              Contents(q) == [pc'.value] + Contents(q')
            else
              && Contents(q') == Contents(q)
              && (pc.LoadHeadEntry? && pc'.FoundEmpty? ==> Contents(q) == [])
  {
    if pc.LoadHeadEntry? {
      assert SlotValid(q, Slot(pc.h));
    }
  }

  /** The head is never past the tail by more than one, and then the entry at the tail is stored. */
  lemma HeadBound(q: Queue)
    requires Valid(q)
    ensures q.head <= q.tail + 1
    ensures q.head == q.tail + 1 ==> q.entries[Slot(q.tail)].cycle == Cycle(q.tail)
  {
    if q.head == q.tail + 1 {
      assert SlotValid(q, Slot(q.tail));
    }
  }

  /**
    The capacity is the exact condition for not losing a value: every queued value
    is still in its slot if and only if at most SIZE values are queued.  The source
    does not test for a full ring, so its user has to keep this.
   */
  lemma InPlaceIffWithin(q: Queue)
    requires Valid(q)
    ensures (forall p :: q.head <= p < Bound(q) ==>
               q.entries[Slot(p)] == Entry(Cycle(p), q.log[p - SIZE])) <==> Within(q)
  {
    if Within(q) {
      forall p | q.head <= p < Bound(q)
        ensures q.entries[Slot(p)] == Entry(Cycle(p), q.log[p - SIZE])
      {
        QueuedInPlace(q, p);
      }
    } else {
      assert SlotValid(q, Slot(q.head));
      assert q.entries[Slot(q.head)].cycle != Cycle(q.head);
    }
  }

  // An operation that runs alone finishes: the retries are only for contention.

  function EnqueueAlone(q: Queue, value: nat, pc: EnqueuePc, steps: nat): (Queue, EnqueuePc)
    requires |q.entries| == SIZE
    decreases steps
  {
    if steps == 0 then (q, pc)
    else
      var (q', pc') := EnqueueStep(q, value, pc);
      EnqueueAlone(q', value, pc', steps - 1)
  }

  function DequeueAlone(q: Queue, pc: DequeuePc, steps: nat): (Queue, DequeuePc)
    requires |q.entries| == SIZE
    decreases steps
  {
    if steps == 0 then (q, pc)
    else
      var (q', pc') := DequeueStep(q, pc);
      DequeueAlone(q', pc', steps - 1)
  }

  lemma DequeueAloneFinishes(q: Queue, r: nat)
    requires Valid(q) && Within(q) && r < RETRIES
    ensures var (q', pc') := DequeueAlone(q, LoadHead(r), 3);
            if Contents(q) == [] then
              q' == q && pc' == FoundEmpty
            else
              pc' == Taken(Contents(q)[0]) && Contents(q') == Contents(q)[1..]
  {
    var (q1, pc1) := DequeueStep(q, LoadHead(r));
    var (q2, pc2) := DequeueStep(q1, pc1);
    var (q3, pc3) := DequeueStep(q2, pc2);
    assert DequeueAlone(q, LoadHead(r), 3) == DequeueAlone(q1, pc1, 2) == DequeueAlone(q2, pc2, 1)
        == DequeueAlone(q3, pc3, 0) == (q3, pc3);
    assert SlotValid(q, Slot(q.head));
    if Contents(q) != [] {
      QueuedInPlace(q, q.head);
    }
  }

  /** A tail left behind by a stopped enqueue is helped forward first. */
  lemma EnqueueAloneFinishes(q: Queue, value: nat, r: nat)
    requires Valid(q) && r + 1 < RETRIES
    ensures var (q', pc') := EnqueueAlone(q, value, LoadTail(r), 7);
            pc' == Stored(Bound(q)) && Contents(q') == Contents(q) + [value]
  {
    assert SlotValid(q, Slot(q.tail));
    var (q1, pc1) := EnqueueStep(q, value, LoadTail(r));
    var (q2, pc2) := EnqueueStep(q1, value, pc1);
    var (q3, pc3) := EnqueueStep(q2, value, pc2);
    var (q4, pc4) := EnqueueStep(q3, value, pc3);
    assert EnqueueAlone(q, value, LoadTail(r), 7) == EnqueueAlone(q1, value, pc1, 6)
        == EnqueueAlone(q2, value, pc2, 5) == EnqueueAlone(q3, value, pc3, 4)
        == EnqueueAlone(q4, value, pc4, 3);
    if q.tail == Bound(q) {
      assert (q4, pc4) == (q4, Stored(q.tail));
    } else {
      SlotsOnlyLog(q, q3);
      assert SlotValid(q3, Slot(q3.tail));
      assert pc3 == LoadTail(r + 1) && pc4 == LoadTailEntry(r + 1, q3.tail);
    }
    var (q5, pc5) := EnqueueStep(q4, value, pc4);
    var (q6, pc6) := EnqueueStep(q5, value, pc5);
    var (q7, pc7) := EnqueueStep(q6, value, pc6);
    assert EnqueueAlone(q4, value, pc4, 3) == EnqueueAlone(q5, value, pc5, 2)
        == EnqueueAlone(q6, value, pc6, 1) == EnqueueAlone(q7, value, pc7, 0);
  }
}
