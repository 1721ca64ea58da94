/** Safety of connection structs over every run of the engine. */
module ConnRuns {
  import opened Bytes
  import opened WorkQueues
  import opened Timers
  import opened ConnLists
  import opened Links
  import opened ConnEngine

  lemma Parts(e: Engine)
    requires Inv(e)
    ensures PlacesGood(e.conns) && QueuesGood(e) && TimersGood(e) && QueuedGood(e) && IdleGood(e) && PoppedGood(e.popped)
  {
  }

  lemma Whole(e: Engine)
    requires PlacesGood(e.conns) && QueuesGood(e) && TimersGood(e) && QueuedGood(e) && IdleGood(e) && PoppedGood(e.popped)
    ensures Inv(e)
  {
  }

  lemma Ids(c: nat, w: bool, c': nat, w': bool)
    ensures TimerId(c, w) == TimerId(c', w') <==> c == c' && w == w'
  {
  }

  // Queues.

  lemma PushIn(queues: seq<seq<Work>>, q: nat, w: Work, x: Work)
    requires q < |queues|
    ensures InQueues(Push(queues, q, w), x) <==> InQueues(queues, x) || x == w
  {
    var queues' := Push(queues, q, w);
    assert w in queues'[q] by { assert queues'[q][|queues[q]|] == w; }
    if InQueues(queues, x) {
      var k :| 0 <= k < |queues| && x in queues[k];
      assert x in queues'[k];
    }
  }

  lemma PopIn(queues: seq<seq<Work>>, k: nat, x: Work)
    requires k < |queues| && queues[k] != []
    ensures InQueues(queues, queues[k][0])
    ensures InQueues(queues[k := queues[k][1..]], x) ==> InQueues(queues, x)
    ensures InQueues(queues, x) && x != queues[k][0] ==> InQueues(queues[k := queues[k][1..]], x)
  {
    var queues' := queues[k := queues[k][1..]];
    assert queues[k][0] in queues[k];
    if InQueues(queues, x) && x != queues[k][0] {
      var q :| 0 <= q < |queues| && x in queues[q];
      assert x in queues'[q];
    }
    if InQueues(queues', x) {
      var q :| 0 <= q < |queues'| && x in queues'[q];
      assert x in queues[q];
    }
  }

  // Timers.

  /** An operation on a timer of a live struct. */
  lemma TimerOpKeeps(e: Engine, ts: Timers, c: nat, write: bool)
    requires Inv(e) && PlaceOf(e.conns, c) == Some(Live) && e.phase == Drain
    requires Valid(ts) && Leaves(e.timers, ts, TimerId(c, write))
    ensures Inv(e.(timers := ts))
  {
    hide Valid;
    var e' := e.(timers := ts);
    forall x | PlaceOf(e'.conns, x) == Some(Idle) ensures Quiet(e'.timers, x) {
      assert Quiet(e.timers, x);
      Ids(x, false, c, write);
      Ids(x, true, c, write);
    }
  }

  lemma EnableLeaves(ts: Timers, id: nat, on: bool)
    requires Valid(ts) && id in ts.table
    ensures Valid(Enable(ts, id, on)) && Leaves(ts, Enable(ts, id, on), id)
  {
    EnableKeeps(ts, id, on);
  }

  lemma TimerStepKeeps(e: Engine, a: Action)
    requires Inv(e)
    ensures Inv(TimerStep(e, a))
  {
    hide Valid, Leaves, Added, Deleted, Enable;
    match a
    case AddTimer(c, write, near) =>
      if TimerStep(e, a) != e {
        AddLeaves(e.timers, TimerId(c, write), near);
        TimerOpKeeps(e, Added(e.timers, TimerId(c, write), near), c, write);
      }
    case DeleteTimer(c, write) =>
      if TimerStep(e, a) != e {
        DeleteLeaves(e.timers, TimerId(c, write));
        TimerOpKeeps(e, Deleted(e.timers, TimerId(c, write)), c, write);
      }
    case DisableTimer(c, write) =>
      if TimerStep(e, a) != e {
        EnableLeaves(e.timers, TimerId(c, write), false);
        TimerOpKeeps(e, Enable(e.timers, TimerId(c, write), false), c, write);
      }
    case _ =>
  }

  // Structs.

  lemma ParkKeeps(e: Engine, c: nat)
    requires Inv(e) && PlaceOf(e.conns, c) == Some(Live)
    ensures Inv(e.(conns := e.conns.(places := e.conns.places[c := Parked], pending := [c] + e.conns.pending)))
  {
    hide Valid;
    var s' := e.conns.(places := e.conns.places[c := Parked], pending := [c] + e.conns.pending);
    NoDupCons(c, e.conns.pending);
    forall x ensures x in s'.pending <==> PlaceOf(s', x) == Some(Parked) { }
    forall w | InQueues(e.queues, w) ensures WorkGood(s', w) { assert WorkGood(e.conns, w); }
  }

  lemma FreeKeeps(e: Engine, c: nat)
    requires Inv(e)
    ensures Inv(FreeStep(e, c))
  {
    hide Valid, Leaves, Deleted;
    if FreeStep(e, c) != e {
      var r, w := TimerId(c, false), TimerId(c, true);
      assert r in e.timers.table && w in e.timers.table;
      DeleteLeaves(e.timers, r);
      var e1 := e.(timers := Deleted(e.timers, r));
      TimerOpKeeps(e, e1.timers, c, false);
      assert w in e1.timers.table;
      DeleteLeaves(e1.timers, w);
      var e2 := e1.(timers := Deleted(e1.timers, w));
      TimerOpKeeps(e1, e2.timers, c, true);
      ParkKeeps(e2, c);
    }
  }

  lemma CreatedPlaces(s: Structs, spare: nat)
    requires PlacesGood(s) && (s.free != [] || spare !in s.places)
    ensures PlacesGood(Created(s, spare).0)
    ensures var (s', c) := Created(s, spare);
            && (PlaceOf(s, c) == None || PlaceOf(s, c) == Some(Idle)) && PlaceOf(s', c) == Some(Live)
            && (forall x :: x != c ==> PlaceOf(s', x) == PlaceOf(s, x))
            && (forall x :: x != c && x in s.incs ==> x in s'.incs && s'.incs[x] == s.incs[x])
  {
    var (s', c) := Created(s, spare);
    if s.free != [] {
      assert s.free[0] in s.free;
      NoDupTail(s.free);
    }
    forall x ensures x in s'.free <==> PlaceOf(s', x) == Some(Idle) {
      assert x in s.free <==> PlaceOf(s, x) == Some(Idle);
      if s.free != [] { assert x in s.free <==> x == s.free[0] || x in s.free[1..]; }
    }
    forall x ensures x in s'.pending <==> PlaceOf(s', x) == Some(Parked) {
      assert x in s.pending <==> PlaceOf(s, x) == Some(Parked);
    }
  }

  /** Clearing a struct that nothing refers to changes no pending change and no tree. */
  lemma ZeroedValid(ts: Timers, c: nat)
    requires Valid(ts)
    requires forall write :: TimerId(c, write) in ts.table ==> ts.table[TimerId(c, write)].change == 0
    ensures Valid(Zeroed(ts, c))
  {
    var ts' := Zeroed(ts, c);
    forall k | 0 <= k < |ts.changes| ensures ts'.table[ts.changes[k].timer] == ts.table[ts.changes[k].timer] {
      assert ts.table[ts.changes[k].timer].change == k + 1;
    }
  }

  lemma ZeroedTimers(e: Engine, c: nat, write: bool, x: nat)
    ensures var ts := Zeroed(e.timers, c);
            && TimerId(c, write) in ts.table && ts.table[TimerId(c, write)] == RESET
            && (x != c ==> (TimerId(x, write) in ts.table <==> TimerId(x, write) in e.timers.table))
            && (x != c && TimerId(x, write) in e.timers.table ==> ts.table[TimerId(x, write)] == e.timers.table[TimerId(x, write)])
  {
    Ids(x, write, c, false);
    Ids(x, write, c, true);
    Ids(c, write, c, !write);
  }

  lemma CreateTimers(e: Engine, s': Structs, c: nat)
    requires TimersGood(e) && IdleGood(e) && (PlaceOf(e.conns, c) == None || PlaceOf(e.conns, c) == Some(Idle))
    requires PlaceOf(s', c) == Some(Live) && forall x :: x != c ==> PlaceOf(s', x) == PlaceOf(e.conns, x)
    ensures var e' := e.(conns := s', timers := Zeroed(e.timers, c)); TimersGood(e') && IdleGood(e')
  {
    hide Valid, Zeroed;
    var e' := e.(conns := s', timers := Zeroed(e.timers, c));
    forall write | TimerId(c, write) in e.timers.table ensures e.timers.table[TimerId(c, write)].change == 0 {
      assert c in e.conns.places && Quiet(e.timers, c);
    }
    ZeroedValid(e.timers, c);
    ZeroedRest(e.timers, c);
    forall x, write ensures x in s'.places <==> TimerId(x, write) in e'.timers.table {
      ZeroedTimers(e, c, write, x);
      assert PlaceOf(s', x) == None <==> x !in s'.places;
      assert PlaceOf(e.conns, x) == None <==> x !in e.conns.places;
    }
    forall x | PlaceOf(s', x) == Some(Idle) ensures Quiet(e'.timers, x) {
      ZeroedTimers(e, c, false, x);
      ZeroedTimers(e, c, true, x);
      assert Quiet(e.timers, x);
    }
  }

  lemma ZeroedRest(ts: Timers, c: nat)
    ensures Zeroed(ts, c).changes == ts.changes && Zeroed(ts, c).limit == ts.limit
  {
  }

  /** A struct is handed out only when no work item and no timer refers to it. */
  lemma CreateKeeps(e: Engine, spare: nat)
    requires Inv(e)
    ensures Inv(CreateStep(e, spare))
  {
    hide Valid, Zeroed, PlacesGood, TimersGood, IdleGood, PoppedGood, Created;
    var e' := CreateStep(e, spare);
    if e' != e {
      CreatedPlaces(e.conns, spare);
      var (s', c) := Created(e.conns, spare);
      CreateTimers(e, s', c);
      forall w | InQueues(e.queues, w) ensures WorkGood(s', w) {
        assert WorkGood(e.conns, w);
        assert PlaceOf(s', w.conn) == PlaceOf(e.conns, w.conn);
      }
      forall x, write | x in s'.incs && TimerId(x, write) in e'.timers.table && e'.timers.table[TimerId(x, write)].queued
        ensures InQueues(e.queues, Work(x, s'.incs[x], Some(write)))
      {
        ZeroedTimers(e, c, write, x);
        TimerKnown(e, x, write);
      }
    }
  }

  lemma TimerKnown(e: Engine, x: nat, write: bool)
    requires PlacesGood(e.conns) && TimersGood(e)
    ensures TimerId(x, write) in e.timers.table <==> x in e.conns.incs
  {
  }

  lemma PostKeeps(e: Engine, q: nat, c: nat)
    requires Inv(e)
    ensures Inv(PostStep(e, q, c))
  {
    hide Valid, Push, InQueues;
    var e' := PostStep(e, q, c);
    if e' != e {
      PushKeeps(e, q, Work(c, e.conns.incs[c], None));
    }
  }

  lemma PushKeeps(e: Engine, q: nat, w: Work)
    requires Inv(e) && q < |e.queues| && WorkGood(e.conns, w)
    ensures Inv(e.(queues := Push(e.queues, q, w)))
  {
    hide Valid, Push, InQueues, PlacesGood, TimersGood, IdleGood, PoppedGood;
    PushLength(e.queues, q, w);
    QueuesDoNotMatter(e, e.(queues := Push(e.queues, q, w)));
    forall x ensures InQueues(Push(e.queues, q, w), x) <==> InQueues(e.queues, x) || x == w { PushIn(e.queues, q, w, x); }
  }

  lemma PushLength(queues: seq<seq<Work>>, q: nat, w: Work)
    requires q < |queues|
    ensures |Push(queues, q, w)| == |queues|
  {
  }

  // Taking work.

  lemma HandledValid(ts: Timers, id: nat)
    requires Valid(ts)
    ensures Valid(Handled(ts, id)) && Handled(ts, id).table.Keys == ts.table.Keys && Handled(ts, id).changes == ts.changes
    ensures forall x :: x in ts.table ==>
              && Handled(ts, id).table[x].inTree == ts.table[x].inTree && Handled(ts, id).table[x].change == ts.table[x].change
              && Handled(ts, id).table[x].queued == (ts.table[x].queued && x != id)
  {
    hide Valid;
    if id in ts.table { FlagsKeepValid(ts, id, false, ts.table[id].enabled && ts.table[id].change != 0); }
  }

  lemma FlagsKeepValid(ts: Timers, id: nat, queued: bool, enabled: bool)
    requires Valid(ts) && id in ts.table
    ensures Valid(ts.(table := ts.table[id := ts.table[id].(queued := queued, enabled := enabled)]))
  {
  }

  lemma PopKeeps(e: Engine, k: nat)
    requires Inv(e) && e.phase == Drain && k < |e.queues| && e.queues[k] != []
    ensures Inv(PopStep(e, k))
  {
    hide Valid, InQueues, PlacesGood, Handled;
    var e', w := PopStep(e, k), e.queues[k][0];
    PopIn(e.queues, k, w);
    assert WorkGood(e.conns, w);
    forall x ensures InQueues(e'.queues, x) ==> InQueues(e.queues, x) { PopIn(e.queues, k, x); }
    var id := TimerId(w.conn, if w.timer.Some? then w.timer.value else false);
    HandledValid(e.timers, id);
    if w.timer.None? {
      PopPlain(e, k);
    } else {
      PopTimer(e, k);
    }
  }

  lemma PopPlain(e: Engine, k: nat)
    requires Inv(e) && k < |e.queues| && e.queues[k] != [] && e.queues[k][0].timer.None?
    ensures QueuedGood(PopStep(e, k)) && TimersGood(PopStep(e, k)) && IdleGood(PopStep(e, k))
  {
    hide Valid, InQueues, PlacesGood;
    var e', w := PopStep(e, k), e.queues[k][0];
    forall c, write | c in e'.conns.incs && TimerId(c, write) in e'.timers.table && e'.timers.table[TimerId(c, write)].queued
      ensures InQueues(e'.queues, Work(c, e'.conns.incs[c], Some(write)))
    {
      PopIn(e.queues, k, Work(c, e.conns.incs[c], Some(write)));
    }
  }

  lemma PopTimer(e: Engine, k: nat)
    requires Inv(e) && k < |e.queues| && e.queues[k] != [] && e.queues[k][0].timer.Some?
    ensures QueuedGood(PopStep(e, k)) && TimersGood(PopStep(e, k)) && IdleGood(PopStep(e, k))
  {
    hide Valid, InQueues, PlacesGood, Handled;
    var e', w := PopStep(e, k), e.queues[k][0];
    var id := TimerId(w.conn, w.timer.value);
    HandledValid(e.timers, id);
    forall c, write | c in e'.conns.incs && TimerId(c, write) in e'.timers.table && e'.timers.table[TimerId(c, write)].queued
      ensures InQueues(e'.queues, Work(c, e'.conns.incs[c], Some(write)))
    {
      PopIn(e.queues, k, Work(c, e.conns.incs[c], Some(write)));
    }
    forall x | PlaceOf(e'.conns, x) == Some(Idle) ensures Quiet(e'.timers, x) { assert Quiet(e.timers, x); }
  }

  // Recycling.

  lemma NothingQueued(e: Engine, c: nat, write: bool)
    requires Inv(e) && AllEmpty(e.queues) && c in e.conns.places
    ensures TimerId(c, write) in e.timers.table && !e.timers.table[TimerId(c, write)].queued
  {
    hide Valid;
  }

  lemma RecycledPlaces(e: Engine)
    requires Inv(e)
    ensures PlacesGood(RecycleStep(e).conns)
    ensures forall c :: PlaceOf(RecycleStep(e).conns, c) ==
              if PlaceOf(e.conns, c) == Some(Parked) && Quiet(e.timers, c) then Some(Idle) else PlaceOf(e.conns, c)
  {
    hide Valid, QueuesGood, TimersGood, QueuedGood, IdleGood, PoppedGood, Quiet;
    var s, s', quiet := e.conns, RecycleStep(e).conns, QuietIn(e.timers);
    forall c ensures quiet(c) == Quiet(e.timers, c) { }
    forall c ensures PlaceOf(s', c) == if PlaceOf(s, c) == Some(Parked) && Quiet(e.timers, c) then Some(Idle) else PlaceOf(s, c) {
      assert c in s.pending <==> PlaceOf(s, c) == Some(Parked);
    }
    forall x | x in s.pending ensures x !in s.free { assert PlaceOf(s, x) == Some(Parked); }
    RecycledOnce(s.pending, quiet, s.free);
    forall c ensures c in s'.pending <==> PlaceOf(s', c) == Some(Parked) { RecycledWhere(s.pending, quiet, s.free, c); }
    forall c ensures c in s'.free <==> PlaceOf(s', c) == Some(Idle) {
      RecycledWhere(s.pending, quiet, s.free, c);
      assert c in s.free <==> PlaceOf(s, c) == Some(Idle);
    }
  }

  lemma CommittedQuiet(ts: Timers, id: nat)
    requires Valid(ts) && TimerQuiet(ts, id)
    ensures Valid(Committed(ts)) && TimerQuiet(Committed(ts), id)
  {
    CommitKeeps(ts);
  }

  lemma CommittedKeys(ts: Timers)
    requires Valid(ts)
    ensures Valid(Committed(ts)) && Committed(ts).table.Keys == ts.table.Keys && Committed(ts).changes == []
    ensures forall id :: id in ts.table ==> Committed(ts).table[id].queued == ts.table[id].queued
  {
    CommitKeeps(ts);
    forall id | id in ts.table ensures Committed(ts).table[id].queued == ts.table[id].queued { ValidTimer(ts, id); }
  }

  /** The barrier: with every queue empty, no work item and no timer refers to a struct that becomes free. */
  lemma RecycleKeeps(e: Engine)
    requires Inv(e) && AllEmpty(e.queues)
    ensures Inv(RecycleStep(e))
  {
    hide Valid, PlacesGood, Committed, Unsettled, Freed;
    var e' := RecycleStep(e);
    RecycledPlaces(e);
    CommittedKeys(e.timers);
    forall w ensures !InQueues(e.queues, w) { }
    forall c, write | c in e'.conns.incs && TimerId(c, write) in e'.timers.table ensures !e'.timers.table[TimerId(c, write)].queued {
      TimerKnown(e, c, write);
      assert c in e.conns.places;
      NothingQueued(e, c, write);
    }
    forall c, write ensures c in e'.conns.places <==> TimerId(c, write) in e'.timers.table {
      assert PlaceOf(e'.conns, c) == None <==> c !in e'.conns.places;
      assert PlaceOf(e.conns, c) == None <==> c !in e.conns.places;
      assert c in e.conns.places <==> TimerId(c, write) in e.timers.table;
    }
    forall c | PlaceOf(e'.conns, c) == Some(Idle) ensures Quiet(e'.timers, c) {
      assert Quiet(e.timers, c);
      CommittedQuiet(e.timers, TimerId(c, false));
      CommittedQuiet(e.timers, TimerId(c, true));
    }
  }

  lemma TurnKeeps(e: Engine)
    requires Inv(e)
    ensures Inv(TurnStep(e))
  {
    hide PlacesGood, TimersGood, IdleGood, PoppedGood, QueuedGood, PopStep, RecycleStep, InQueues;
    if e.phase == Drain {
      ChooseNoneIffEmpty(e.queues, e.current);
      match Choose(e.queues, e.current)
      case Some(k) => PopKeeps(e, k);
      case None => RecycleKeeps(e);
    }
  }

  // Expiry.

  lemma ExpireTimer(e: Engine, c: nat, write: bool)
    requires Inv(e) && e.phase == Poll && c in e.conns.incs && TimerId(c, write) in e.timers.table
    requires e.timers.table[TimerId(c, write)].inTree
    ensures var id := TimerId(c, write);
            var t := e.timers.table[id];
            var e' := e.(timers := e.timers.(table := e.timers.table[id := t.(inTree := false, queued := t.queued || t.enabled)]));
            && TimersGood(e') && IdleGood(e') && WorkGood(e.conns, Work(c, e.conns.incs[c], Some(write)))
            && (!t.enabled ==> QueuedGood(e'))
  {
    var id := TimerId(c, write);
    var t := e.timers.table[id];
    var e' := e.(timers := e.timers.(table := e.timers.table[id := t.(inTree := false, queued := t.queued || t.enabled)]));
    assert PlaceOf(e.conns, c) == Some(Idle) ==> Quiet(e.timers, c);
    forall x | PlaceOf(e'.conns, x) == Some(Idle) ensures Quiet(e'.timers, x) {
      assert Quiet(e.timers, x);
      Ids(x, false, c, write);
      Ids(x, true, c, write);
    }
  }

  lemma ExpireKeeps(e: Engine, c: nat, write: bool, q: nat)
    requires Inv(e)
    ensures Inv(ExpireStep(e, c, write, q))
  {
    hide Valid, InQueues, Push, PlacesGood, TimersGood, IdleGood, PoppedGood;
    var e' := ExpireStep(e, c, write, q);
    if e' != e {
      ExpireTimer(e, c, write);
      var w := Work(c, e.conns.incs[c], Some(write));
      if e.timers.table[TimerId(c, write)].enabled {
        PushKeeps(e, q, w);
        PushIn(e.queues, q, w, w);
        forall x, b | x in e'.conns.incs && TimerId(x, b) in e'.timers.table && e'.timers.table[TimerId(x, b)].queued
          ensures InQueues(e'.queues, Work(x, e'.conns.incs[x], Some(b)))
        {
          Ids(x, b, c, write);
          PushIn(e.queues, q, w, Work(x, e.conns.incs[x], Some(b)));
        }
        assert TimersGood(e') by { QueuesDoNotMatter(e, e'); }
        assert IdleGood(e') by { QueuesDoNotMatter(e, e'); }
      }
    }
  }

  lemma QueuesDoNotMatter(e: Engine, e': Engine)
    ensures TimersGood(e.(timers := e'.timers)) && e'.conns == e.conns && e'.phase == e.phase ==> TimersGood(e')
    ensures IdleGood(e.(timers := e'.timers)) && e'.conns == e.conns ==> IdleGood(e')
  {
  }

  // Runs.

  lemma NextKeeps(e: Engine, a: Action)
    requires Inv(e)
    ensures Inv(Next(e, a))
  {
    hide Inv, CreateStep, FreeStep, PostStep, TurnStep, ExpireStep, TimerStep;
    match a
    case Create(spare) => CreateKeeps(e, spare);
    case FreeConn(c) => FreeKeeps(e, c);
    case Post(q, c) => PostKeeps(e, q, c);
    case Turn => TurnKeeps(e);
    case Expire(c, write, q) => ExpireKeeps(e, c, write, q);
    case PollDone => PollDoneKeeps(e);
    case _ => TimerStepKeeps(e, a);
  }

  lemma PollDoneKeeps(e: Engine)
    requires Inv(e)
    ensures Inv(e.(phase := Drain))
  {
  }

  function Start(limit: nat): Engine {
    Engine(seq(QUEUES, _ => []), 0, Structs(map[], map[], [], []), Timers(map[], [], limit), Drain, [])
  }

  lemma StartInv(limit: nat)
    requires 1 <= limit
    ensures Inv(Start(limit))
  {
  }

  ghost function Run(e: Engine, actions: seq<Action>): (r: Engine)
    requires Inv(e)
    ensures Inv(r)
    decreases |actions|
  {
    if actions == [] then e
    else
      var e' := Run(e, actions[..|actions| - 1]);
      NextKeeps(e', actions[|actions| - 1]);
      Next(e', actions[|actions| - 1])
  }

  /**
    In every run each work item that was taken saw the same incarnation of its connection struct that
    it was queued for, no struct on the free list has a queued item or an unsettled timer, the free and
    the parked list share no struct and hold each struct once, and the live structs are those on neither.
   */
  lemma NoUseAfterRecycle(limit: nat, actions: seq<Action>)
    requires 1 <= limit
    ensures Inv(Start(limit))
    ensures var e := Run(Start(limit), actions);
            && PoppedGood(e.popped)
            && (forall w :: InQueues(e.queues, w) ==> w.conn !in e.conns.free)
            && (forall c :: c in e.conns.free ==> Quiet(e.timers, c))
            && NoDup(e.conns.free) && NoDup(e.conns.pending) && Disjoint(e.conns.free, e.conns.pending)
            && (forall c :: c in e.conns.places ==>
                  (e.conns.places[c] == Live <==> c !in e.conns.free && c !in e.conns.pending))
            && (forall c :: c in e.conns.free || c in e.conns.pending ==> c in e.conns.places)
  {
    StartInv(limit);
    hide Start;
    var e := Run(Start(limit), actions);
    forall w | InQueues(e.queues, w) ensures w.conn !in e.conns.free { assert WorkGood(e.conns, w); }
    forall c | c in e.conns.free ensures Quiet(e.timers, c) && c !in e.conns.pending { assert PlaceOf(e.conns, c) == Some(Idle); }
    forall c | c in e.conns.places ensures e.conns.places[c] == Live <==> c !in e.conns.free && c !in e.conns.pending {
      assert PlaceOf(e.conns, c) == Some(e.conns.places[c]);
    }
  }
}
