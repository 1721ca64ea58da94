/**
  What the interest calls of src/nxt_devpoll_engine.c ask for, one side of one event at a time and
  without the batch: the sides of an event, and the kernel's set after a commit, follow from the calls.
 */
module DevpollInterest {
  import opened Bytes
  import opened Devpoll

  /** What a call does to one side of its event. */
  datatype Wish = On(to: Side) | Off | Pause | OtherOn | OtherOff | Nothing

  function WishOf(c: Call, ev: nat, read: bool): Wish {
    if c.Flush? || c.ev != ev then Nothing
    else match c
      case CallEnable(_) => On(Active)
      case CallDisable(_) => Off
      case CallEnableRead(_) => if read then On(Active) else OtherOn
      case CallEnableWrite(_) => if read then OtherOn else On(Active)
      case CallOneshotRead(_) => if read then On(Oneshot) else OtherOn
      case CallOneshotWrite(_) => if read then OtherOn else On(Oneshot)
      case CallDisableRead(_) => if read then Off else OtherOff
      case CallDisableWrite(_) => if read then OtherOff else Off
      case CallBlockRead(_) => if read then Pause else Nothing
      case CallBlockWrite(_) => if read then Nothing else Pause
  }

  /** A blocked side keeps its place in the kernel's set until the set is written anew for the other side. */
  function SideAfter(calls: seq<Call>, ev: nat, read: bool): Side
    decreases |calls|
  {
    if calls == [] then Inactive
    else
      var before, c := calls[..|calls| - 1], calls[|calls| - 1];
      var own := SideAfter(before, ev, read);
      match WishOf(c, ev, read)
      case On(to) => to
      case Off => Inactive
      case Pause => if own == Inactive then Inactive else Blocked
      case OtherOn => if own == Blocked && SideAfter(before, ev, !read) == Inactive then Inactive else own
      case OtherOff => if own == Blocked then Inactive else own
      case Nothing => own
  }

  /** The side that the last call for it asked for. */
  function Asked(calls: seq<Call>, ev: nat, read: bool): Side
    decreases |calls|
  {
    if calls == [] then Inactive
    else match WishOf(calls[|calls| - 1], ev, read)
      case On(to) => to
      case Off => Inactive
      case Pause => Inactive
      case _ => Asked(calls[..|calls| - 1], ev, read)
  }

  lemma RecordSides(s: Engine, ev: nat, e: Event, op: Op, bits: Bits, x: nat)
    requires Inv(s)
    ensures var e', before := EventOf(Record(s, ev, e, op, bits), x), if x == ev then e else EventOf(s, x);
            e'.read == before.read && e'.write == before.write
  {
    hide Commit, Inv, InSync;
    CommitKeeps(s);
    if |s.changes| >= s.limit { assert EventOf(Commit(s), x) == EventOf(s, x).(changing := false); }
  }

  lemma SetSides(s: Engine, ev: nat, e: Event, x: nat)
    ensures EventOf(Set(s, ev, e), x) == if x == ev then e else EventOf(s, x)
  {
  }

  /** One call: each side goes where the rule for sides says, whatever is pending. */
  lemma NextSide(s: Engine, c: Call, ev: nat, read: bool)
    requires Inv(s)
    ensures var e, e' := EventOf(s, ev), EventOf(Next(s, c), ev);
            var own, other := if read then e.read else e.write, if read then e.write else e.read;
            (if read then e'.read else e'.write) ==
              match WishOf(c, ev, read)
              case On(to) => to
              case Off => Inactive
              case Pause => if own == Inactive then Inactive else Blocked
              case OtherOn => if own == Blocked && other == Inactive then Inactive else own
              case OtherOff => if own == Blocked then Inactive else own
              case Nothing => own
  {
    hide Inv, Record, Set, Commit;
    if c.Flush? {
      CommitKeeps(s);
      assert EventOf(Commit(s), ev) == EventOf(s, ev).(changing := false);
    } else {
      forall e, op, bits
        ensures EventOf(Record(s, c.ev, e, op, bits), ev).read == if ev == c.ev then e.read else EventOf(s, ev).read
        ensures EventOf(Record(s, c.ev, e, op, bits), ev).write == if ev == c.ev then e.write else EventOf(s, ev).write
      {
        RecordSides(s, c.ev, e, op, bits, ev);
      }
      forall e ensures EventOf(Set(s, c.ev, e), ev) == if ev == c.ev then e else EventOf(s, ev) { SetSides(s, c.ev, e, ev); }
    }
  }

  lemma {:induction false} ProperEnds(s: Engine, calls: seq<Call>, c: Call)
    ensures ProperRun(s, calls + [c]) <==> ProperRun(s, calls) && Proper(RunOf(s, calls), c)
    decreases |calls|
  {
    hide Next, Proper;
    if calls == [] {
      assert calls + [c] == [c] && [c][1..] == [];
    } else {
      assert (calls + [c])[1..] == calls[1..] + [c];
      ProperEnds(Next(s, calls[0]), calls[1..], c);
    }
  }

  lemma {:induction false} SidesFollow(limit: nat, calls: seq<Call>, ev: nat)
    requires 1 <= limit && ProperRun(Start(limit), calls)
    ensures Inv(RunOf(Start(limit), calls))
    ensures var e := EventOf(RunOf(Start(limit), calls), ev);
            e.read == SideAfter(calls, ev, true) && e.write == SideAfter(calls, ev, false)
    decreases |calls|
  {
    hide Inv, Next, Proper, ProperRun, RunOf;
    if calls == [] {
      StartInSync(limit);
      RunOfNone(limit, calls, ev);
    } else {
      var before, c := calls[..|calls| - 1], calls[|calls| - 1];
      assert before + [c] == calls;
      ProperEnds(Start(limit), before, c);
      RunEnds(Start(limit), before, c);
      SidesFollow(limit, before, ev);
      var s := RunOf(Start(limit), before);
      NextKeeps(s, c);
      NextSide(s, c, ev, true);
      NextSide(s, c, ev, false);
    }
  }

  lemma RunOfNone(limit: nat, calls: seq<Call>, ev: nat)
    requires calls == []
    ensures RunOf(Start(limit), calls) == Start(limit) && EventOf(Start(limit), ev) == Event(Inactive, Inactive, false)
  {
  }

  /** A side is active exactly if the last call for it asked for that, and then as it asked. */
  lemma {:induction false} ActiveIsAsked(calls: seq<Call>, ev: nat, read: bool)
    ensures Asked(calls, ev, read) == if IsActive(SideAfter(calls, ev, read)) then SideAfter(calls, ev, read) else Inactive
    decreases |calls|
  {
    if calls != [] { ActiveIsAsked(calls[..|calls| - 1], ev, read); }
  }

  /**
    After every run of calls that ends with a commit, the kernel polls a descriptor for exactly the sides
    that the calls left in its set, and so at least for those that were asked for last.
   */
  lemma KernelIsAsked(limit: nat, calls: seq<Call>, ev: nat)
    requires 1 <= limit && ProperRun(Start(limit), calls)
    ensures var s := RunOf(Start(limit), calls + [Flush]);
            && s.changes == []
            && KernelOf(s.kernel, ev) == Bits(SideAfter(calls, ev, true) != Inactive, SideAfter(calls, ev, false) != Inactive)
            && (Asked(calls, ev, true) != Inactive ==> KernelOf(s.kernel, ev).pollIn)
            && (Asked(calls, ev, false) != Inactive ==> KernelOf(s.kernel, ev).pollOut)
            && (ev in s.hash <==> SideAfter(calls, ev, true) != Inactive || SideAfter(calls, ev, false) != Inactive)
  {
    hide RunOf, ProperRun, SideAfter, Asked, Inv, InSync, Commit;
    SidesFollow(limit, calls, ev);
    RunEnds(Start(limit), calls, Flush);
    var s := RunOf(Start(limit), calls);
    ActiveIsAsked(calls, ev, true);
    ActiveIsAsked(calls, ev, false);
    CommitKeeps(s);
    assert KernelOf(Commit(s).kernel, ev) == Interest(EventOf(s, ev));
    NothingPending(s, ev);
  }

  lemma NothingPending(s: Engine, ev: nat)
    requires Inv(s)
    ensures s.changes == [] ==> KernelOf(s.kernel, ev) == Interest(EventOf(s, ev)) && (ev in s.hash <==> Interest(EventOf(s, ev)) != NO_BITS)
  {
    assert InSync(s, ev);
    if s.changes == [] { assert Buffer(s.changes) == []; }
  }
}
