/**
  The queue of src/nxt_app_nncq.h on its own 32-bit words, and the proof that
  it takes the same branches as the unbounded queue of Nncq as long as no
  thread sleeps through NXT_APP_NNCQ_CYCLES - 1 cycles inside one operation.
 */
module NncqWrap {
  import opened Nncq
  import opened NncqRuns

  const WORD: nat := 0x1_0000_0000
  const CYCLES: nat := 32768

  type Word = x: nat | x < 0x1_0000_0000
  type Cycle16 = x: nat | x < 0x1_0000

  // The arithmetic of the header.

  function Index32(i: Word): Word { i % 131072 }

  function Cycle32(i: Word): Cycle16 { i / 131072 }

  function NextCycle(c: Cycle16): Cycle16 { (c + 1) % 32768 }

  function NewEntry(cycle: Cycle16, i: Word): Word {
    (cycle * 131072 + i % 131072) % 0x1_0000_0000
  }

  function Add1(i: Word): Word { (i + 1) % 0x1_0000_0000 }

  /** new_entry() packs what cycle() and index() unpack, and the other way round. */
  lemma EntryPacking(cycle: Cycle16, i: Word, entry: Word)
    requires cycle < CYCLES
    ensures Cycle32(NewEntry(cycle, i)) == cycle
    ensures Index32(NewEntry(cycle, i)) == i % SIZE
    ensures NewEntry(Cycle32(entry), Index32(entry)) == entry
  {
  }

  /** The wrap of a position wraps its cycle and leaves its slot alone. */
  lemma WrapPosition(p: nat)
    ensures Cycle32(p % WORD) == Cycle(p) % CYCLES
    ensures Index32(p % WORD) == Slot(p)
    ensures Add1(p % WORD) == (p + 1) % WORD
  {
    var k := p / WORD;
    var w := p % WORD;
    assert p == k * 0x1_0000_0000 + w;
    assert Cycle(p) == k * 32768 + w / 131072;
  }

  /** Both cycle tests of the loops are exact for an entry less than CYCLES - 1 cycles ahead. */
  lemma CycleTestsAgree(e: nat, c: nat)
    requires c <= e + 1 < c + CYCLES
    ensures e % CYCLES == c % CYCLES <==> e == c
    ensures NextCycle(e % CYCLES) == c % CYCLES <==> e + 1 == c
  {
    assert (e % CYCLES + 1) % CYCLES == (e + 1) % CYCLES by { ModStep(e); }
    ModAgrees(e + 1, c);
    if c <= e { ModAgrees(e, c); } else { ModAgrees(c, e); }
  }

  lemma ModStep(e: nat)
    ensures (e % 32768 + 1) % 32768 == (e + 1) % 32768
  {
  }

  lemma ModAgrees(a: nat, b: nat)
    requires b <= a < b + CYCLES
    ensures a % CYCLES == b % CYCLES <==> a == b
  {
    if a % 32768 == b % 32768 {
      assert a - b == (a / 32768 - b / 32768) * 32768;
    }
  }

  /** The bound is tight: one cycle more, and a stale dequeue takes a stored entry for "empty". */
  lemma StalledThreadIsMisled(c: nat)
    ensures var e := c + CYCLES - 1;
            NextCycle(e % CYCLES) == c % CYCLES && e + 1 != c
  {
    var e := c + CYCLES - 1;
    ModStep(e);
    assert e + 1 == c + 32768;
  }

  // The two loops on 32-bit words.

  datatype Queue32 = Queue32(head: Word, tail: Word, entries: seq<Word>)

  type EnqueuePc32 = EnqueueAt<Word, Word>
  type DequeuePc32 = DequeueAt<Word, Word>

  function BumpTail32(q: Queue32, t: Word): Queue32 {
    if q.tail == t then q.(tail := Add1(t)) else q
  }

  function EnqueueStep32(q: Queue32, value: Word, pc: EnqueuePc32): (Queue32, EnqueuePc32)
    requires |q.entries| == SIZE
  {
    match pc
    case LoadTail(r) =>
      if r < RETRIES then (q, LoadTailEntry(r, q.tail)) else (q, EnqueueFailed)
    case LoadTailEntry(r, t) =>
      var e := q.entries[Index32(t)];
      if Cycle32(e) == Cycle32(t) then (q, HelpTail(r, t))
      else if NextCycle(Cycle32(e)) != Cycle32(t) then (q, LoadTail(r + 1))
      else (q, SwapEntry(r, t, e))
    case HelpTail(r, t) =>
      (BumpTail32(q, t), LoadTail(r + 1))
    case SwapEntry(r, t, e) =>
      if q.entries[Index32(t)] == e then
        (q.(entries := q.entries[Index32(t) := NewEntry(Cycle32(t), value)]), AdvanceTail(t))
      else
        (q, LoadTail(r + 1))
    case AdvanceTail(t) =>
      (BumpTail32(q, t), Stored(t))
    case Stored(_) => (q, pc)
    case EnqueueFailed => (q, pc)
  }

  function DequeueStep32(q: Queue32, pc: DequeuePc32): (Queue32, DequeuePc32)
    requires |q.entries| == SIZE
  {
    match pc
    case LoadHead(r) =>
      if r < RETRIES then (q, LoadHeadEntry(r, q.head)) else (q, GaveUp)
    case LoadHeadEntry(r, h) =>
      var e := q.entries[Index32(h)];
      if Cycle32(e) != Cycle32(h) then
        if NextCycle(Cycle32(e)) == Cycle32(h) then (q, FoundEmpty) else (q, LoadHead(r + 1))
      else
        (q, SwapHead(r, h, e))
    case SwapHead(r, h, e) =>
      if q.head == h then (q.(head := Add1(h)), Taken(Index32(e))) else (q, LoadHead(r + 1))
    case Taken(_) => (q, pc)
    case FoundEmpty => (q, pc)
    case GaveUp => (q, pc)
  }

  // The words an unbounded state stands for.

  function WrapEntry(e: Entry): Word {
    (e.cycle % 32768) * 131072 + e.value % 131072
  }

  function Wrap(q: Queue): Queue32 {
    Queue32(q.head % WORD, q.tail % WORD, seq(|q.entries|, j requires 0 <= j < |q.entries| => WrapEntry(q.entries[j])))
  }

  function WrapEnqueue(pc: EnqueuePc): EnqueuePc32 {
    match pc
    case LoadTail(r) => LoadTail(r)
    case LoadTailEntry(r, t) => LoadTailEntry(r, t % WORD)
    case HelpTail(r, t) => HelpTail(r, t % WORD)
    case SwapEntry(r, t, e) => SwapEntry(r, t % WORD, WrapEntry(e))
    case AdvanceTail(t) => AdvanceTail(t % WORD)
    case Stored(t) => Stored(t % WORD)
    case EnqueueFailed => EnqueueFailed
  }

  function WrapDequeue(pc: DequeuePc): DequeuePc32 {
    match pc
    case LoadHead(r) => LoadHead(r)
    case LoadHeadEntry(r, h) => LoadHeadEntry(r, h % WORD)
    case SwapHead(r, h, e) => SwapHead(r, h % WORD, WrapEntry(e))
    case Taken(value) => Taken(value % 131072)
    case FoundEmpty => FoundEmpty
    case GaveUp => GaveUp
  }

  /** The thread has not slept through CYCLES - 1 cycles since it loaded the counter. */
  ghost predicate EnqueueFresh(q: Queue, pc: EnqueuePc) {
    match pc
    case LoadTailEntry(_, t) => q.tail - t < (CYCLES - 1) * SIZE
    case HelpTail(_, t) => q.tail - t < (CYCLES - 1) * SIZE
    case SwapEntry(_, t, _) => q.tail - t < (CYCLES - 1) * SIZE
    case AdvanceTail(t) => q.tail - t < (CYCLES - 1) * SIZE
    case _ => true
  }

  ghost predicate DequeueFresh(q: Queue, pc: DequeuePc) {
    match pc
    case LoadHeadEntry(_, h) => Bound(q) - h <= (CYCLES - 1) * SIZE
    case SwapHead(_, h, _) => Bound(q) - h <= (CYCLES - 1) * SIZE
    case _ => true
  }

  /** The values are slot indexes, which the source packs next to the cycle. */
  ghost predicate SmallValues(q: Queue) {
    forall j :: 0 <= j < |q.entries| ==> q.entries[j].value < SIZE
  }

  lemma WrapEntryParts(e: Entry)
    ensures Cycle32(WrapEntry(e)) == e.cycle % CYCLES
    ensures Index32(WrapEntry(e)) == e.value % SIZE
  {
  }

  lemma WordsDiffer(a: nat, b: nat)
    requires b <= a < b + WORD
    ensures a % WORD == b % WORD <==> a == b
  {
    if a % WORD == b % WORD {
      assert a - b == (a / 0x1_0000_0000 - b / 0x1_0000_0000) * 0x1_0000_0000;
    }
  }

  lemma SlotCycle(q: Queue, p: nat)
    requires Valid(q) && p >= SIZE && p <= Bound(q)
    ensures Cycle(p) <= q.entries[Slot(p)].cycle + 1
    ensures q.entries[Slot(p)].cycle * SIZE + Slot(p) < Bound(q)
  {
    assert SlotValid(q, Slot(p));
  }

  lemma WrapEntryInjective(a: Entry, b: Entry)
    requires a.value < SIZE && b.value < SIZE && b.cycle <= a.cycle < b.cycle + CYCLES
    ensures WrapEntry(a) == WrapEntry(b) <==> a == b
  {
    WrapEntryParts(a);
    WrapEntryParts(b);
    ModAgrees(a.cycle, b.cycle);
  }

  /** The slot of t is between the cycle before t and CYCLES - 1 cycles ahead of t. */
  lemma SlotCycleRange(q: Queue, t: nat)
    requires Valid(q) && SIZE <= t <= q.tail && q.tail - t < (CYCLES - 1) * SIZE
    ensures Cycle(t) <= q.entries[Slot(t)].cycle + 1 < Cycle(t) + CYCLES
  {
    SlotCycle(q, t);
  }

  lemma SwapEntryAgrees(q: Queue, value: nat, t: nat, e: Entry)
    requires Valid(q) && SIZE <= t <= q.tail && e.cycle + 1 == Cycle(t) && SmallValues(q)
    requires value < SIZE && e.value < SIZE && q.tail - t < (CYCLES - 1) * SIZE
    ensures Wrap(q).entries[Slot(t)] == WrapEntry(e) <==> q.entries[Slot(t)] == e
  {
    SlotCycleRange(q, t);
    WrapEntryInjective(q.entries[Slot(t)], e);
  }

  lemma NewEntryWraps(c: nat, value: nat)
    requires value < SIZE
    ensures WrapEntry(Entry(c, value)) == NewEntry(c % CYCLES, value)
  {
  }

  lemma EnqueueStepAgrees(q: Queue, value: nat, pc: EnqueuePc)
    requires Valid(q) && EnqueueValid(q, value, pc) && SmallValues(q) && value < SIZE
    requires EnqueueFresh(q, pc)
    requires pc.SwapEntry? ==> pc.e.value < SIZE
    ensures var (q', pc') := EnqueueStep(q, value, pc);
            EnqueueStep32(Wrap(q), value, WrapEnqueue(pc)) == (Wrap(q'), WrapEnqueue(pc'))
  {
    match pc
    case LoadTailEntry(r, t) =>
      WrapPosition(t);
      SlotCycleRange(q, t);
      WrapEntryParts(q.entries[Slot(t)]);
      CycleTestsAgree(q.entries[Slot(t)].cycle, Cycle(t));
    case HelpTail(r, t) =>
      WordsDiffer(q.tail, t);
      WrapPosition(t);
    case AdvanceTail(t) =>
      WordsDiffer(q.tail, t);
      WrapPosition(t);
    case SwapEntry(r, t, e) =>
      SwapEntryAgrees(q, value, t, e);
      NewEntryWraps(Cycle(t), value);
      WrapPosition(t);
      var q' := EnqueueStep(q, value, pc).0;
      if q.entries[Slot(t)] == e {
        assert Wrap(q').entries == Wrap(q).entries[Slot(t) := WrapEntry(Entry(Cycle(t), value))];
      }
    case _ =>
  }

  lemma DequeueStepAgrees(q: Queue, pc: DequeuePc)
    requires Valid(q) && DequeueValid(q, pc) && SmallValues(q)
    requires DequeueFresh(q, pc)
    ensures var (q', pc') := DequeueStep(q, pc);
            DequeueStep32(Wrap(q), WrapDequeue(pc)) == (Wrap(q'), WrapDequeue(pc'))
  {
    match pc
    case LoadHeadEntry(r, h) =>
      WrapPosition(h);
      SlotCycle(q, h);
      WrapEntryParts(q.entries[Slot(h)]);
      CycleTestsAgree(q.entries[Slot(h)].cycle, Cycle(h));
    case SwapHead(r, h, e) =>
      WordsDiffer(q.head, h);
      WrapPosition(h);
      WrapEntryParts(e);
    case _ =>
  }

  // Whole runs.

  type Operation32 = OperationAt<Word, Word>

  datatype State32 = State32(q: Queue32, ops: map<nat, Operation32>, history: seq<Event>)

  function Start32(): State32 {
    State32(Queue32(SIZE, SIZE, seq(SIZE, _ => 0)), map[], [])
  }

  function OpOf32(s: State32, tid: nat): Operation32 {
    if tid in s.ops then s.ops[tid] else Idle
  }

  function Next32(s: State32, a: Action): State32
    requires |s.q.entries| == SIZE
  {
    match a
    case CallEnqueue(tid, value) =>
      if Returned(OpOf32(s, tid)) then
        s.(ops := s.ops[tid := Enqueuing(value, LoadTail(0))], history := s.history + [Called(tid)])
      else s
    case CallDequeue(tid) =>
      if Returned(OpOf32(s, tid)) then
        s.(ops := s.ops[tid := Dequeuing(LoadHead(0))], history := s.history + [Called(tid)])
      else s
    case Advance(tid) =>
      match OpOf32(s, tid)
      case Idle => s
      case Enqueuing(value, pc) =>
        var (q', pc') := EnqueueStep32(s.q, value % WORD, pc);
        State32(q', s.ops[tid := Enqueuing(value, pc')],
                s.history + if Stores(pc, pc') then [DidEnqueue(tid, value, pc'.t)] else [])
      case Dequeuing(pc) =>
        var (q', pc') := DequeueStep32(s.q, pc);
        State32(q', s.ops[tid := Dequeuing(pc')], s.history + DequeueEvents(tid, pc, pc'))
  }

  function Run32(s: State32, actions: seq<Action>): State32
    requires |s.q.entries| == SIZE
    decreases |actions|
  {
    if actions == [] then s else Run32(Next32(s, actions[0]), actions[1..])
  }

  function WrapOp(op: Operation): Operation32 {
    match op
    case Idle => Idle
    case Enqueuing(value, pc) => Enqueuing(value, WrapEnqueue(pc))
    case Dequeuing(pc) => Dequeuing(WrapDequeue(pc))
  }

  function WrapEvent(e: Event): Event {
    if e.DidEnqueue? then e.(position := e.position % WORD) else e
  }

  function WrapState(s: State): State32 {
    State32(Wrap(s.q),
            map tid | tid in s.ops :: WrapOp(s.ops[tid]),
            seq(|s.history|, i requires 0 <= i < |s.history| => WrapEvent(s.history[i])))
  }

  /** Only slot indexes are stored. */
  ghost predicate SmallOp(op: Operation) {
    match op
    case Idle => true
    case Enqueuing(value, pc) => value < SIZE && (pc.SwapEntry? ==> pc.e.value < SIZE)
    case Dequeuing(pc) =>
      && (pc.SwapHead? ==> pc.e.value < SIZE)
      && (pc.Taken? ==> pc.value < SIZE)
  }

  ghost predicate Small(s: State) {
    SmallValues(s.q) && forall tid :: SmallOp(OpOf(s, tid))
  }

  /** The thread that moves next has not slept through CYCLES - 1 cycles. */
  ghost predicate Fresh(s: State, a: Action) {
    match a
    case CallEnqueue(_, value) => value < SIZE
    case CallDequeue(_) => true
    case Advance(tid) =>
      match OpOf(s, tid)
      case Idle => true
      case Enqueuing(_, pc) => EnqueueFresh(s.q, pc)
      case Dequeuing(pc) => DequeueFresh(s.q, pc)
  }

  ghost predicate FreshRun(s: State, actions: seq<Action>)
    requires Inv(s)
    decreases |actions|
  {
    actions == [] ||
    (&& Fresh(s, actions[0])
     && (NextKeepsInv(s, actions[0]); FreshRun(Next(s, actions[0]), actions[1..])))
  }

  lemma NextKeepsSmall(s: State, a: Action)
    requires Inv(s) && Small(s) && Fresh(s, a)
    ensures Small(Next(s, a))
  {
    assert SmallOp(OpOf(s, a.tid));
    var s' := Next(s, a);
    forall tid ensures SmallOp(OpOf(s', tid)) {
      assert SmallOp(OpOf(s, tid));
    }
  }

  lemma WrapUpdates(s: State, q': Queue, tid: nat, op: Operation, events: seq<Event>, wrapped: seq<Event>)
    requires |wrapped| == |events| <= 1 && (events != [] ==> wrapped[0] == WrapEvent(events[0]))
    ensures WrapState(State(q', s.ops[tid := op], s.history + events))
         == State32(Wrap(q'), WrapState(s).ops[tid := WrapOp(op)], WrapState(s).history + wrapped)
  {
    var s' := State(q', s.ops[tid := op], s.history + events);
    assert WrapState(s').ops == WrapState(s).ops[tid := WrapOp(op)];
    assert WrapState(s').history == WrapState(s).history + wrapped;
  }

  lemma CallAgrees(s: State, a: Action)
    requires Inv(s) && Fresh(s, a) && !a.Advance?
    ensures Next32(WrapState(s), a) == WrapState(Next(s, a))
  {
    var op := if a.CallEnqueue? then Enqueuing(a.value, LoadTail(0)) else Dequeuing(LoadHead(0));
    assert OpOf32(WrapState(s), a.tid) == WrapOp(OpOf(s, a.tid));
    WrapUpdates(s, s.q, a.tid, op, [Called(a.tid)], [Called(a.tid)]);
  }

  lemma StoresWraps(tid: nat, value: nat, pc: EnqueuePc, pc': EnqueuePc)
    ensures Stores(WrapEnqueue(pc), WrapEnqueue(pc')) == Stores(pc, pc')
    ensures Stores(pc, pc') ==>
              DidEnqueue(tid, value, WrapEnqueue(pc').t) == WrapEvent(DidEnqueue(tid, value, pc'.t))
  {
  }

  lemma DequeueEventsWrap(tid: nat, pc: DequeuePc, pc': DequeuePc)
    requires pc'.Taken? ==> pc'.value < SIZE
    ensures DequeueEvents(tid, WrapDequeue(pc), WrapDequeue(pc')) == DequeueEvents(tid, pc, pc')
    ensures |DequeueEvents(tid, pc, pc')| <= 1
    ensures forall e <- DequeueEvents(tid, pc, pc') :: WrapEvent(e) == e
  {
  }

  lemma AdvanceEnqueueAgrees(s: State, me: nat, value: nat, pc: EnqueuePc)
    requires Inv(s) && Small(s) && Fresh(s, Advance(me)) && OpOf(s, me) == Enqueuing(value, pc)
    ensures Next32(WrapState(s), Advance(me)) == WrapState(Next(s, Advance(me)))
  {
    assert SmallOp(OpOf(s, me)) && OperationValid(s.q, OpOf(s, me));
    assert value % WORD == value;
    EnqueueStepAgrees(s.q, value, pc);
    var (q', pc') := EnqueueStep(s.q, value, pc);
    StoresWraps(me, value, pc, pc');
    var events := if Stores(pc, pc') then [DidEnqueue(me, value, pc'.t)] else [];
    var wrapped := if Stores(pc, pc') then [DidEnqueue(me, value, WrapEnqueue(pc').t)] else [];
    WrapUpdates(s, q', me, Enqueuing(value, pc'), events, wrapped);
    assert OpOf32(WrapState(s), me) == Enqueuing(value, WrapEnqueue(pc));
  }

  lemma AdvanceDequeueAgrees(s: State, me: nat, pc: DequeuePc)
    requires Inv(s) && Small(s) && Fresh(s, Advance(me)) && OpOf(s, me) == Dequeuing(pc)
    ensures Next32(WrapState(s), Advance(me)) == WrapState(Next(s, Advance(me)))
  {
    assert SmallOp(OpOf(s, me)) && OperationValid(s.q, OpOf(s, me));
    DequeueStepAgrees(s.q, pc);
    var (q', pc') := DequeueStep(s.q, pc);
    DequeueEventsWrap(me, pc, pc');
    var events := DequeueEvents(me, pc, pc');
    WrapUpdates(s, q', me, Dequeuing(pc'), events, events);
    assert OpOf32(WrapState(s), me) == Dequeuing(WrapDequeue(pc));
  }

  lemma NextAgrees(s: State, a: Action)
    requires Inv(s) && Small(s) && Fresh(s, a)
    ensures Next32(WrapState(s), a) == WrapState(Next(s, a))
  {
    if !a.Advance? {
      CallAgrees(s, a);
    } else {
      assert OpOf32(WrapState(s), a.tid) == WrapOp(OpOf(s, a.tid));
      match OpOf(s, a.tid)
      case Idle =>
      case Enqueuing(value, pc) => AdvanceEnqueueAgrees(s, a.tid, value, pc);
      case Dequeuing(pc) => AdvanceDequeueAgrees(s, a.tid, pc);
    }
  }

  /** The 32-bit queue does what the unbounded one does, in every interleaving without a stall. */
  lemma {:induction false} WrappedRunAgrees(s: State, actions: seq<Action>)
    requires Inv(s) && Small(s) && FreshRun(s, actions)
    ensures Run32(WrapState(s), actions) == WrapState(Run(s, actions)) && Small(Run(s, actions))
    decreases |actions|
  {
    if actions != [] {
      NextKeepsInv(s, actions[0]);
      NextKeepsSmall(s, actions[0]);
      NextAgrees(s, actions[0]);
      WrappedRunAgrees(Next(s, actions[0]), actions[1..]);
    }
  }

  lemma ReplayIgnoresWrap(history: seq<Event>, wrapped: seq<Event>)
    requires |wrapped| == |history|
    requires forall i :: 0 <= i < |history| ==> wrapped[i] == WrapEvent(history[i])
    ensures Replay(wrapped) == Replay(history)
  {
    if history != [] {
      var n := |history| - 1;
      ReplayIgnoresWrap(history[..n], wrapped[..n]);
    }
  }

  function WrapEvents(events: seq<Event>): seq<Event> {
    seq(|events|, i requires 0 <= i < |events| => WrapEvent(events[i]))
  }

  lemma {:induction false} EffectsWrap(history: seq<Event>, tid: nat)
    ensures Effects(WrapEvents(history), tid) == WrapEvents(Effects(history, tid))
    decreases |history|
  {
    if history != [] {
      var n := |history| - 1;
      EffectsWrap(history[..n], tid);
      assert WrapEvents(history)[..n] == WrapEvents(history[..n]);
    }
  }

  /** What a 32-bit call has done so far: nothing, or exactly the effect it returns. */
  ghost predicate EffectsMatch32(op: Operation32, effects: seq<Event>, tid: nat) {
    match op
    case Idle => effects == []
    case Enqueuing(value, pc) =>
      if pc.AdvanceTail? || pc.Stored? then effects == [DidEnqueue(tid, value, pc.t)] else effects == []
    case Dequeuing(pc) =>
      if pc.Taken? then effects == [DidDequeue(tid, pc.value)]
      else if pc.FoundEmpty? then effects == [SawEmpty(tid)]
      else effects == []
  }

  lemma EffectsMatchWraps(op: Operation, effects: seq<Event>, tid: nat)
    requires EffectsMatch(op, effects, tid) && SmallOp(op)
    ensures EffectsMatch32(WrapOp(op), WrapEvents(effects), tid)
  {
    assert effects != [] ==> effects == [effects[0]] && WrapEvents(effects) == [WrapEvent(effects[0])];
  }

  /** No thread of the run is stopped for CYCLES - 1 cycles. */
  ghost predicate NoStall(actions: seq<Action>) {
    StartInv();
    FreshRun(Start(), actions)
  }

  /**
    So the queue of the source, with its wrapping counters, is linearizable too: the effects are a run of the
    sequential queue, what a call returns is its one effect, and the contents are those of the unbounded queue.
   */
  lemma WrappedLinearizable(actions: seq<Action>, tid: nat)
    requires NoStall(actions)
    ensures var s := Run32(Start32(), actions);
            && Replay(s.history).Queued?
            && EffectsMatch32(OpOf32(s, tid), Effects(s.history, tid), tid)
    ensures Inv(Start()) && Replay(Run32(Start32(), actions).history) == Queued(Contents(Run(Start(), actions).q))
  {
    StartInv();
    assert WrapState(Start()) == Start32() by {
      assert Wrap(Init()).entries == Start32().q.entries;
    }
    WrappedRunAgrees(Start(), actions);
    var s := Run(Start(), actions);
    hide Inv, Run, Run32, Replay, Effects, EffectsMatch, EffectsMatch32, Contents;
    ReplayIgnoresWrap(s.history, Run32(Start32(), actions).history);
    Linearizable(actions, tid);
    assert SmallOp(OpOf(s, tid));
    EffectsWrap(s.history, tid);
    EffectsMatchWraps(OpOf(s, tid), Effects(s.history, tid), tid);
    assert WrapState(s).history == WrapEvents(s.history);
  }
}
