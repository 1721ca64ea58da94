/**
  The change batcher of src/nxt_devpoll_engine.c: interest calls record changes,
  a commit writes them to the kernel's set and to the descriptor hash.  Every
  event has a descriptor of its own, so both are named by the same number.
 */
module Devpoll {
  import opened Bytes

  datatype Side = Inactive | Blocked | Oneshot | Active

  datatype Bits = Bits(pollIn: bool, pollOut: bool)

  datatype Op = Add | Update | Change | Delete

  datatype Pending = Pending(op: Op, bits: Bits, ev: nat)

  datatype Event = Event(read: Side, write: Side, changing: bool)

  /** `errors` counts the calls of nxt_devpoll_change_error(). */
  datatype Engine = Engine(evs: map<nat, Event>, changes: seq<Pending>, kernel: map<nat, Bits>, hash: set<nat>, limit: nat, errors: nat)

  const NO_BITS := Bits(false, false)

  predicate IsActive(s: Side) { s == Oneshot || s == Active }

  function Interest(e: Event): Bits { Bits(e.read != Inactive, e.write != Inactive) }

  function EventOf(s: Engine, ev: nat): Event { if ev in s.evs then s.evs[ev] else Event(Inactive, Inactive, false) }

  function KernelOf(kernel: map<nat, Bits>, ev: nat): Bits { if ev in kernel then kernel[ev] else NO_BITS }

  // Committing.

  function Or(a: Bits, b: Bits): Bits { Bits(a.pollIn || b.pollIn, a.pollOut || b.pollOut) }

  /** An entry of the buffer that is written to /dev/poll; None is POLLREMOVE. */
  datatype Pollfd = Pollfd(fd: nat, bits: Option<Bits>)

  /** What the kernel makes of one entry. */
  function KernelEntry(kernel: map<nat, Bits>, p: Pollfd): map<nat, Bits> {
    kernel[p.fd := if p.bits.None? then NO_BITS else Or(KernelOf(kernel, p.fd), p.bits.value)]
  }

  function KernelWrite(kernel: map<nat, Bits>, buffer: seq<Pollfd>): map<nat, Bits> {
    if buffer == [] then kernel
    else KernelEntry(KernelWrite(kernel, buffer[..|buffer| - 1]), buffer[|buffer| - 1])
  }

  /** The entries of one change: a Change removes the descriptor first. */
  function Entries(c: Pending): seq<Pollfd> {
    match c.op
    case Change => [Pollfd(c.ev, None), Pollfd(c.ev, Some(c.bits))]
    case Delete => [Pollfd(c.ev, None)]
    case _ => [Pollfd(c.ev, Some(c.bits))]
  }

  function Buffer(changes: seq<Pending>): (r: seq<Pollfd>)
    ensures |r| <= 2 * |changes|
  {
    if changes == [] then [] else Buffer(changes[..|changes| - 1]) + Entries(changes[|changes| - 1])
  }

  /** The hash, the events that failed, and how often. */
  datatype Hashed = Hashed(hash: set<nat>, bad: set<nat>, errors: nat)

  function HashOne(h: Hashed, c: Pending): Hashed {
    match c.op
    case Add =>
      if c.ev in h.hash then Hashed(h.hash - {c.ev}, h.bad + {c.ev}, h.errors + 1)
      else Hashed(h.hash + {c.ev}, h.bad, h.errors)
    case Delete => h.(hash := h.hash - {c.ev})
    case _ => h
  }

  /** The hash loop: adding a descriptor that is there already fails. */
  function HashAll(hash: set<nat>, changes: seq<Pending>): Hashed {
    if changes == [] then Hashed(hash, {}, 0)
    else HashOne(HashAll(hash, changes[..|changes| - 1]), changes[|changes| - 1])
  }

  predicate InBatch(changes: seq<Pending>, ev: nat) { exists i :: 0 <= i < |changes| && changes[i].ev == ev }

  /** The events in the batch are no longer changing. */
  function Cleared(evs: map<nat, Event>, changes: seq<Pending>): map<nat, Event> {
    map ev | ev in evs :: if InBatch(changes, ev) then evs[ev].(changing := false) else evs[ev]
  }

  /** nxt_devpoll_change_error() of each event that failed. */
  function Failed(evs: map<nat, Event>, bad: set<nat>): map<nat, Event> {
    map ev | ev in evs :: if ev in bad then evs[ev].(read := Inactive, write := Inactive) else evs[ev]
  }

  function Dropped(kernel: map<nat, Bits>, bad: set<nat>): map<nat, Bits> {
    map ev | ev in kernel.Keys + bad :: if ev in bad then NO_BITS else kernel[ev]
  }

  /** nxt_devpoll_commit_changes(), when the write to the kernel succeeds. */
  function Commit(s: Engine): Engine {
    var h := HashAll(s.hash, s.changes);
    Engine(Failed(Cleared(s.evs, s.changes), h.bad), [], Dropped(KernelWrite(s.kernel, Buffer(s.changes)), h.bad),
           h.hash, s.limit, s.errors + h.errors)
  }

  // Interest calls.

  /** nxt_devpoll_change(), for an event that has become e. */
  function Record(s: Engine, ev: nat, e: Event, op: Op, bits: Bits): Engine {
    var s' := if |s.changes| >= s.limit then Commit(s) else s;
    s'.(evs := s'.evs[ev := e.(changing := true)], changes := s'.changes + [Pending(op, bits, ev)])
  }

  function Set(s: Engine, ev: nat, e: Event): Engine { s.(evs := s.evs[ev := e]) }

  function Enable(s: Engine, ev: nat): Engine {
    Record(s, ev, EventOf(s, ev).(read := Active, write := Active), Add, Bits(true, true))
  }

  function Disable(s: Engine, ev: nat): Engine {
    var e := EventOf(s, ev);
    if e.read == Inactive && e.write == Inactive then s
    else Record(s, ev, e.(read := Inactive, write := Inactive), Delete, NO_BITS)
  }

  function EnableRead(s: Engine, ev: nat, to: Side): Engine {
    var e := EventOf(s, ev);
    if e.read == Inactive then
      match e.write
      case Inactive => Record(s, ev, e.(read := to), Add, Bits(true, false))
      case Blocked => Record(s, ev, e.(read := to, write := Inactive), Change, Bits(true, false))
      case _ => Record(s, ev, e.(read := to), Update, Bits(true, true))
    else Set(s, ev, e.(read := to))
  }

  function EnableWrite(s: Engine, ev: nat, to: Side): Engine {
    var e := EventOf(s, ev);
    if e.write == Inactive then
      match e.read
      case Inactive => Record(s, ev, e.(write := to), Add, Bits(false, true))
      case Blocked => Record(s, ev, e.(write := to, read := Inactive), Change, Bits(false, true))
      case _ => Record(s, ev, e.(write := to), Update, Bits(true, true))
    else Set(s, ev, e.(write := to))
  }

  function DisableRead(s: Engine, ev: nat): Engine {
    var e := EventOf(s, ev);
    if !IsActive(e.write) then Record(s, ev, e.(read := Inactive, write := Inactive), Delete, NO_BITS)
    else Record(s, ev, e.(read := Inactive), Change, Bits(false, true))
  }

  function DisableWrite(s: Engine, ev: nat): Engine {
    var e := EventOf(s, ev);
    if !IsActive(e.read) then Record(s, ev, e.(read := Inactive, write := Inactive), Delete, NO_BITS)
    else Record(s, ev, e.(write := Inactive), Change, Bits(true, false))
  }

  function Block(s: Engine, ev: nat, read: bool): Engine {
    var e := EventOf(s, ev);
    if read then if e.read != Inactive then Set(s, ev, e.(read := Blocked)) else s
    else if e.write != Inactive then Set(s, ev, e.(write := Blocked)) else s
  }

  datatype Call =
    | CallEnable(ev: nat)
    | CallDisable(ev: nat)
    | CallEnableRead(ev: nat)
    | CallEnableWrite(ev: nat)
    | CallOneshotRead(ev: nat)
    | CallOneshotWrite(ev: nat)
    | CallDisableRead(ev: nat)
    | CallDisableWrite(ev: nat)
    | CallBlockRead(ev: nat)
    | CallBlockWrite(ev: nat)
    | Flush

  function Next(s: Engine, c: Call): Engine {
    match c
    case CallEnable(ev) => Enable(s, ev)
    case CallDisable(ev) => Disable(s, ev)
    case CallEnableRead(ev) => EnableRead(s, ev, Active)
    case CallEnableWrite(ev) => EnableWrite(s, ev, Active)
    case CallOneshotRead(ev) => EnableRead(s, ev, Oneshot)
    case CallOneshotWrite(ev) => EnableWrite(s, ev, Oneshot)
    case CallDisableRead(ev) => DisableRead(s, ev)
    case CallDisableWrite(ev) => DisableWrite(s, ev)
    case CallBlockRead(ev) => Block(s, ev, true)
    case CallBlockWrite(ev) => Block(s, ev, false)
    case Flush => if s.changes == [] then s else Commit(s)
  }

  /** enable() adds a descriptor unconditionally, so its event must be inactive on both sides. */
  predicate Proper(s: Engine, c: Call) {
    c.CallEnable? ==> EventOf(s, c.ev).read == Inactive && EventOf(s, c.ev).write == Inactive
  }

  // What the pending changes come to.

  /** The kernel's set for the event once the pending changes are written. */
  function KernelAfter(s: Engine, ev: nat): Bits { KernelOf(KernelWrite(s.kernel, Buffer(s.changes)), ev) }

  ghost predicate InSync(s: Engine, ev: nat) {
    && KernelAfter(s, ev) == Interest(EventOf(s, ev))
    && (ev in HashAll(s.hash, s.changes).hash <==> Interest(EventOf(s, ev)) != NO_BITS)
    && (EventOf(s, ev).changing <==> InBatch(s.changes, ev))
  }

  ghost predicate Inv(s: Engine) {
    && 1 <= s.limit && |s.changes| <= s.limit
    && HashAll(s.hash, s.changes).bad == {} && HashAll(s.hash, s.changes).errors == 0
    && forall ev :: InSync(s, ev)
  }

  lemma {:induction false} WriteMore(kernel: map<nat, Bits>, a: seq<Pollfd>, b: seq<Pollfd>)
    ensures KernelWrite(kernel, a + b) == KernelWrite(KernelWrite(kernel, a), b)
    decreases |b|
  {
    if b == [] {
      assert a + b == a;
    } else {
      assert (a + b)[..|a + b| - 1] == a + b[..|b| - 1];
      WriteMore(kernel, a, b[..|b| - 1]);
    }
  }

  /** What one change does to the kernel's set of its event. */
  function ChangeBits(b: Bits, c: Pending): Bits {
    match c.op
    case Change => c.bits
    case Delete => NO_BITS
    case _ => Or(b, c.bits)
  }

  lemma OneMore(kernel: map<nat, Bits>, changes: seq<Pending>, c: Pending, ev: nat)
    ensures var before, after := KernelWrite(kernel, Buffer(changes)), KernelWrite(kernel, Buffer(changes + [c]));
            KernelOf(after, ev) == if ev == c.ev then ChangeBits(KernelOf(before, ev), c) else KernelOf(before, ev)
  {
    assert (changes + [c])[..|changes|] == changes;
    assert Buffer(changes + [c]) == Buffer(changes) + Entries(c);
    WriteMore(kernel, Buffer(changes), Entries(c));
    EntriesEffect(KernelWrite(kernel, Buffer(changes)), c, ev);
  }

  lemma EntriesEffect(kernel: map<nat, Bits>, c: Pending, ev: nat)
    ensures KernelOf(KernelWrite(kernel, Entries(c)), ev)
         == if ev == c.ev then ChangeBits(KernelOf(kernel, ev), c) else KernelOf(kernel, ev)
  {
    var buffer := Entries(c);
    if c.op == Change {
      assert buffer[..1] == [Pollfd(c.ev, None)] && buffer[..1][..0] == [];
      assert KernelWrite(kernel, buffer[..1]) == KernelEntry(kernel, Pollfd(c.ev, None));
    } else {
      assert buffer[..0] == [];
    }
  }

  lemma HashMore(hash: set<nat>, changes: seq<Pending>, c: Pending)
    ensures var h, h' := HashAll(hash, changes), HashAll(hash, changes + [c]);
            h' == HashOne(h, c)
  {
    assert (changes + [c])[..|changes|] == changes;
  }

  lemma InBatchMore(changes: seq<Pending>, c: Pending, ev: nat)
    ensures InBatch(changes + [c], ev) <==> InBatch(changes, ev) || ev == c.ev
  {
    var more := changes + [c];
    assert more[|changes|] == c;
    forall i | 0 <= i < |changes| ensures more[i] == changes[i] { }
  }

  /** A commit carries out exactly what was pending. */
  lemma CommitKeeps(s: Engine)
    requires Inv(s)
    ensures Inv(Commit(s)) && Commit(s).changes == [] && Commit(s).errors == s.errors
    ensures forall ev :: Commit(s).evs.Keys == s.evs.Keys && EventOf(Commit(s), ev) == EventOf(s, ev).(changing := false)
    ensures forall ev :: KernelOf(Commit(s).kernel, ev) == Interest(EventOf(s, ev))
    ensures forall ev :: ev in Commit(s).hash <==> Interest(EventOf(s, ev)) != NO_BITS
  {
    var s' := Commit(s);
    var kernel := KernelWrite(s.kernel, Buffer(s.changes));
    assert s'.kernel == kernel;
    forall ev ensures KernelOf(s'.kernel, ev) == Interest(EventOf(s, ev)) && (ev in s'.hash <==> Interest(EventOf(s, ev)) != NO_BITS) {
      assert InSync(s, ev);
    }
    forall ev ensures EventOf(s', ev) == EventOf(s, ev).(changing := false) { assert InSync(s, ev); }
    forall ev ensures InSync(s', ev) { assert Buffer(s'.changes) == []; }
  }

  /** A change that leaves the event's set as its new interest says, and adds only what is not there. */
  lemma RecordKeeps(s: Engine, ev: nat, e: Event, op: Op, bits: Bits)
    requires Inv(s) && ChangeBits(Interest(EventOf(s, ev)), Pending(op, bits, ev)) == Interest(e)
    requires op == Add ==> Interest(EventOf(s, ev)) == NO_BITS
    requires op == Add ==> Interest(e) != NO_BITS
    requires op == Delete <==> Interest(e) == NO_BITS
    requires op == Update || op == Change ==> Interest(EventOf(s, ev)) != NO_BITS
    ensures Inv(Record(s, ev, e, op, bits)) && Record(s, ev, e, op, bits).errors == s.errors
  {
    hide KernelWrite, Buffer, HashAll, Commit;
    var s1 := if |s.changes| >= s.limit then Commit(s) else s;
    if |s.changes| >= s.limit {
      CommitKeeps(s);
      assert EventOf(s1, ev) == EventOf(s, ev).(changing := false);
    }
    CommitLimit(s);
    var s', c := Record(s, ev, e, op, bits), Pending(op, bits, ev);
    HashMore(s1.hash, s1.changes, c);
    assert InSync(s1, ev);
    forall x ensures InSync(s', x) {
      assert InSync(s1, x);
      OneMore(s1.kernel, s1.changes, c, x);
      InBatchMore(s1.changes, c, x);
    }
  }

  lemma CommitLimit(s: Engine)
    ensures Commit(s).limit == s.limit
  {
  }

  lemma SetKeeps(s: Engine, ev: nat, e: Event)
    requires Inv(s) && Interest(e) == Interest(EventOf(s, ev)) && e.changing == EventOf(s, ev).changing
    ensures Inv(Set(s, ev, e)) && Set(s, ev, e).errors == s.errors
  {
    var s' := Set(s, ev, e);
    forall x ensures InSync(s', x) { assert InSync(s, x); }
  }

  lemma NextKeeps(s: Engine, c: Call)
    requires Inv(s) && Proper(s, c)
    ensures Inv(Next(s, c)) && Next(s, c).errors == s.errors
  {
    hide Inv, Record, Set, Commit;
    if c.Flush? {
      CommitKeeps(s);
    } else {
      var e := EventOf(s, c.ev);
      match c
      case CallEnable(ev) => RecordKeeps(s, ev, e.(read := Active, write := Active), Add, Bits(true, true));
      case CallDisable(ev) =>
        if e.read != Inactive || e.write != Inactive { RecordKeeps(s, ev, e.(read := Inactive, write := Inactive), Delete, NO_BITS); }
      case CallEnableRead(ev) => EnableReadKeeps(s, ev, Active);
      case CallOneshotRead(ev) => EnableReadKeeps(s, ev, Oneshot);
      case CallEnableWrite(ev) => EnableWriteKeeps(s, ev, Active);
      case CallOneshotWrite(ev) => EnableWriteKeeps(s, ev, Oneshot);
      case CallDisableRead(ev) =>
        if !IsActive(e.write) { RecordKeeps(s, ev, e.(read := Inactive, write := Inactive), Delete, NO_BITS); }
        else { RecordKeeps(s, ev, e.(read := Inactive), Change, Bits(false, true)); }
      case CallDisableWrite(ev) =>
        if !IsActive(e.read) { RecordKeeps(s, ev, e.(read := Inactive, write := Inactive), Delete, NO_BITS); }
        else { RecordKeeps(s, ev, e.(write := Inactive), Change, Bits(true, false)); }
      case CallBlockRead(ev) => if e.read != Inactive { SetKeeps(s, ev, e.(read := Blocked)); }
      case CallBlockWrite(ev) => if e.write != Inactive { SetKeeps(s, ev, e.(write := Blocked)); }
    }
  }

  lemma EnableReadKeeps(s: Engine, ev: nat, to: Side)
    requires Inv(s) && to != Inactive
    ensures Inv(EnableRead(s, ev, to)) && EnableRead(s, ev, to).errors == s.errors
  {
    hide Inv, Record, Set;
    var e := EventOf(s, ev);
    if e.read != Inactive { SetKeeps(s, ev, e.(read := to)); }
    else if e.write == Inactive { RecordKeeps(s, ev, e.(read := to), Add, Bits(true, false)); }
    else if e.write == Blocked { RecordKeeps(s, ev, e.(read := to, write := Inactive), Change, Bits(true, false)); }
    else { RecordKeeps(s, ev, e.(read := to), Update, Bits(true, true)); }
  }

  lemma EnableWriteKeeps(s: Engine, ev: nat, to: Side)
    requires Inv(s) && to != Inactive
    ensures Inv(EnableWrite(s, ev, to)) && EnableWrite(s, ev, to).errors == s.errors
  {
    hide Inv, Record, Set;
    var e := EventOf(s, ev);
    if e.write != Inactive { SetKeeps(s, ev, e.(write := to)); }
    else if e.read == Inactive { RecordKeeps(s, ev, e.(write := to), Add, Bits(false, true)); }
    else if e.read == Blocked { RecordKeeps(s, ev, e.(write := to, read := Inactive), Change, Bits(false, true)); }
    else { RecordKeeps(s, ev, e.(write := to), Update, Bits(true, true)); }
  }

  // Runs.

  function Start(limit: nat): Engine { Engine(map[], [], map[], {}, limit, 0) }

  ghost predicate ProperRun(s: Engine, calls: seq<Call>)
    decreases |calls|
  {
    calls == [] || (Proper(s, calls[0]) && ProperRun(Next(s, calls[0]), calls[1..]))
  }

  function RunOf(s: Engine, calls: seq<Call>): Engine
    decreases |calls|
  {
    if calls == [] then s else RunOf(Next(s, calls[0]), calls[1..])
  }

  lemma {:induction false} RunKeeps(s: Engine, calls: seq<Call>)
    requires Inv(s) && ProperRun(s, calls)
    ensures Inv(RunOf(s, calls)) && RunOf(s, calls).errors == s.errors
    decreases |calls|
  {
    hide Inv, Next, Proper;
    if calls != [] {
      NextKeeps(s, calls[0]);
      RunKeeps(Next(s, calls[0]), calls[1..]);
    }
  }

  /**
    After every sequence of calls, with commits at any point, writing the pending changes to the kernel gives
    exactly the interest of every event, the hash then has exactly the events with an interest, and
    nothing fails.
   */
  lemma BatchIsInterest(limit: nat, calls: seq<Call>, ev: nat)
    requires 1 <= limit && ProperRun(Start(limit), calls)
    ensures var s := RunOf(Start(limit), calls);
            && KernelAfter(s, ev) == Interest(EventOf(s, ev))
            && (ev in HashAll(s.hash, s.changes).hash <==> Interest(EventOf(s, ev)) != NO_BITS)
            && s.errors == 0
            && (s.changes == [] ==> KernelOf(s.kernel, ev) == Interest(EventOf(s, ev)))
  {
    var s0 := Start(limit);
    forall x ensures InSync(s0, x) { }
    RunKeeps(s0, calls);
    var s := RunOf(s0, calls);
    assert InSync(s, ev);
    if s.changes == [] { assert Buffer(s.changes) == []; }
  }

  /** The condition on enable() is exact: on an event that is registered already it makes the next commit fail. */
  lemma EnableFailsIffRegistered(s: Engine, ev: nat)
    requires Inv(s)
    ensures Next(Next(s, CallEnable(ev)), Flush).errors == s.errors <==> Proper(s, CallEnable(ev))
  {
    var c := CallEnable(ev);
    if Proper(s, c) {
      NextKeeps(s, c);
      NextKeeps(Next(s, c), Flush);
    } else {
      var s1 := if |s.changes| >= s.limit then Commit(s) else s;
      if |s.changes| >= s.limit {
        CommitKeeps(s);
        assert EventOf(s1, ev) == EventOf(s, ev).(changing := false);
      }
      assert InSync(s1, ev);
      HashMore(s1.hash, s1.changes, Pending(Add, Bits(true, true), ev));
      assert HashAll(s1.hash, s1.changes + [Pending(Add, Bits(true, true), ev)]).bad == {ev};
    }
  }

  /** The calls of nxt_devpoll_change_error() so far, and those of the pending changes. */
  function Faults(s: Engine): nat { s.errors + HashAll(s.hash, s.changes).errors }

  lemma RecordFaults(s: Engine, ev: nat, e: Event, op: Op, bits: Bits)
    ensures Faults(Record(s, ev, e, op, bits)) >= Faults(s)
  {
    hide KernelWrite, Buffer, Cleared, Failed, Dropped;
    var s' := if |s.changes| >= s.limit then Commit(s) else s;
    HashMore(s'.hash, s'.changes, Pending(op, bits, ev));
  }

  /** No call takes a fault back. */
  lemma NextFaults(s: Engine, c: Call)
    ensures Faults(Next(s, c)) >= Faults(s)
  {
    hide Record, Faults;
    FaultsOf(s, c);
    if !c.Flush? {
      forall e, op, bits ensures Faults(Record(s, c.ev, e, op, bits)) >= Faults(s) { RecordFaults(s, c.ev, e, op, bits); }
    }
  }

  lemma FaultsOf(s: Engine, c: Call)
    ensures c.Flush? ==> Faults(Next(s, c)) == Next(s, c).errors == Faults(s)
    ensures !c.Flush? ==> forall e :: Faults(Set(s, c.ev, e)) == Faults(s)
  {
    hide KernelWrite, Buffer, Cleared, Failed, Dropped;
  }

  lemma {:induction false} RunFaults(s: Engine, calls: seq<Call>)
    ensures Faults(RunOf(s, calls)) >= Faults(s)
    decreases |calls|
  {
    hide Next, Faults;
    if calls != [] {
      NextFaults(s, calls[0]);
      RunFaults(Next(s, calls[0]), calls[1..]);
    }
  }

  lemma {:induction false} RunEnds(s: Engine, calls: seq<Call>, c: Call)
    ensures RunOf(s, calls + [c]) == Next(RunOf(s, calls), c)
    decreases |calls|
  {
    hide Next;
    if calls == [] {
      assert calls + [c] == [c] && [c][1..] == [];
    } else {
      assert (calls + [c])[1..] == calls[1..] + [c];
      RunEnds(Next(s, calls[0]), calls[1..], c);
    }
  }

  lemma {:induction false} FaultsIffImproper(s: Engine, calls: seq<Call>)
    requires Inv(s) && s.errors == 0
    ensures Faults(RunOf(s, calls)) == 0 <==> ProperRun(s, calls)
    decreases |calls|
  {
    hide Inv, Next, Proper, Faults;
    NoFaults(s);
    if calls != [] {
      var s' := Next(s, calls[0]);
      if Proper(s, calls[0]) {
        NextKeeps(s, calls[0]);
        FaultsIffImproper(s', calls[1..]);
      } else {
        ImproperFaults(s, calls[0]);
        RunFaults(s', calls[1..]);
      }
    }
  }

  lemma NoFaults(s: Engine)
    requires Inv(s)
    ensures Faults(s) == s.errors
  {
  }

  lemma ImproperFaults(s: Engine, c: Call)
    requires Inv(s) && !Proper(s, c) && s.errors == 0
    ensures Faults(Next(s, c)) > 0
  {
    hide Inv, Next, Faults;
    ImproperIsEnable(s, c);
    EnableFailsIffRegistered(s, c.ev);
    FaultsOf(Next(s, c), Flush);
  }

  lemma ImproperIsEnable(s: Engine, c: Call)
    requires !Proper(s, c)
    ensures c.CallEnable? && c == CallEnable(c.ev)
  {
  }

  /** Over whole runs: once everything is committed, nothing has failed if and only if no enable() met an interest. */
  lemma RunFailsIffImproper(limit: nat, calls: seq<Call>)
    requires 1 <= limit
    ensures RunOf(Start(limit), calls + [Flush]).errors == 0 <==> ProperRun(Start(limit), calls)
  {
    hide Next, RunOf, ProperRun;
    StartInSync(limit);
    RunEnds(Start(limit), calls, Flush);
    FaultsOf(RunOf(Start(limit), calls), Flush);
    FaultsIffImproper(Start(limit), calls);
  }

  lemma StartInSync(limit: nat)
    requires 1 <= limit
    ensures Inv(Start(limit)) && Start(limit).errors == 0
  {
    forall x ensures InSync(Start(limit), x) { }
  }

  /** Enabling the same event twice is such a run. */
  lemma EnabledTwiceFails(limit: nat, ev: nat)
    requires 1 <= limit
    ensures RunOf(Start(limit), [CallEnable(ev), CallEnable(ev)] + [Flush]).errors > 0
  {
    var calls := [CallEnable(ev), CallEnable(ev)];
    var s := Start(limit);
    RunFailsIffImproper(limit, calls);
    var s1 := Next(s, calls[0]);
    assert calls[1..][0] == CallEnable(ev);
    assert EventOf(s1, ev).read == Active;
    assert !Proper(s1, calls[1..][0]);
    assert !ProperRun(s1, calls[1..]);
  }

  // Cancelling the changes of an event that goes away.

  function Others(changes: seq<Pending>, ev: nat): (r: seq<Pending>)
    ensures |r| <= |changes| && forall i :: 0 <= i < |r| ==> r[i].ev != ev
  {
    if changes == [] then []
    else
      var c := changes[|changes| - 1];
      Others(changes[..|changes| - 1], ev) + if c.ev == ev then [] else [c]
  }

  /** The other events' changes come to what they came to before. */
  lemma {:induction false} CancelLeavesOthers(kernel: map<nat, Bits>, hash: set<nat>, changes: seq<Pending>, ev: nat, x: nat)
    requires x != ev
    ensures KernelOf(KernelWrite(kernel, Buffer(Others(changes, ev))), x) == KernelOf(KernelWrite(kernel, Buffer(changes)), x)
    ensures x in HashAll(hash, Others(changes, ev)).hash <==> x in HashAll(hash, changes).hash
    decreases |changes|
  {
    hide KernelWrite, Buffer, HashAll, KernelOf;
    if changes != [] {
      var rest, c := changes[..|changes| - 1], changes[|changes| - 1];
      CancelLeavesOthers(kernel, hash, rest, ev, x);
      assert rest + [c] == changes;
      OneMore(kernel, rest, c, x);
      HashMore(hash, rest, c);
      if c.ev == ev {
        assert Others(changes, ev) == Others(rest, ev) + [] == Others(rest, ev);
      } else {
        assert Others(changes, ev) == Others(rest, ev) + [c];
        OneMore(kernel, Others(rest, ev), c, x);
        HashMore(hash, Others(rest, ev), c);
      }
    }
  }

  class Batch {
    const changes: array<Pending>
    const writes: array<Pollfd>
    var n: nat

    ghost predicate Valid()
      reads this
    {
      n <= changes.Length && writes.Length == 2 * changes.Length
    }

    constructor (limit: nat)
      ensures Valid() && fresh(changes) && fresh(writes) && changes.Length == limit && n == 0
    {
      changes := new Pending[limit];
      writes := new Pollfd[2 * limit];
      n := 0;
    }

    /** nxt_devpoll_cancel_changes(): compaction in place, the other events' changes keep their order. */
    method CancelChanges(ev: nat)
      requires Valid()
      modifies this, changes
      ensures Valid() && changes[..n] == Others(old(changes[..n]), ev)
    {
      ghost var before := changes[..n];
      var dst, end := 0, n;
      for k := 0 to end
        invariant 0 <= dst <= k && changes[..dst] == Others(before[..k], ev)
        invariant forall i :: k <= i < end ==> changes[i] == before[i]
      {
        assert before[..k + 1][..k] == before[..k];
        if changes[k].ev != ev {
          if dst != k { changes[dst] := changes[k]; }
          dst := dst + 1;
        }
      }
      assert before[..|before|] == before;
      n := dst;
    }

    /** The first loop of nxt_devpoll_commit_changes(): the buffer has room for two entries a change. */
    method FillBuffer() returns (count: nat)
      requires Valid()
      modifies writes
      ensures count <= writes.Length && writes[..count] == Buffer(changes[..n]) && changes[..] == old(changes[..])
    {
      hide Buffer;
      count := 0;
      ghost var all := changes[..n];
      assert all[..0] == [];
      BufferMore(all, 0);
      for k := 0 to n
        invariant count == |Buffer(all[..k])| && writes[..count] == Buffer(all[..k])
        invariant changes[..n] == all
      {
        var c := changes[k];
        BufferMore(all, k);
        if c.op == Change {
          writes[count] := Pollfd(c.ev, None);
          count := count + 1;
        }
        writes[count] := Pollfd(c.ev, if c.op == Delete then None else Some(c.bits));
        count := count + 1;
        assert writes[..count] == Buffer(all[..k]) + Entries(c);
      }
      assert all[..n] == all;
    }
  }

  lemma BufferMore(changes: seq<Pending>, k: nat)
    requires k <= |changes|
    ensures k == 0 ==> Buffer(changes[..k]) == []
    ensures k < |changes| ==> Buffer(changes[..k + 1]) == Buffer(changes[..k]) + Entries(changes[k])
    ensures |Buffer(changes[..k])| <= 2 * k
  {
    if k < |changes| {
      assert changes[..k + 1][..k] == changes[..k] && changes[..k + 1][k] == changes[k];
    }
  }
}
