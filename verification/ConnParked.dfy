/** What becomes of a connection struct once it is freed: its timers never fire, and it is soon handed out again. */
module ConnParked {
  import opened Bytes
  import opened WorkQueues
  import opened Timers
  import opened ConnLists
  import opened Links
  import opened ConnEngine
  import opened ConnRuns

  /** The timer is in the tree, or will be when the batch is carried out. */
  ghost predicate Armed(ts: Timers, id: nat) { Valid(ts) && id in ts.table && Effective(ts, id) }

  /** No timer of a struct that is not live is armed. */
  ghost predicate Disarmed(e: Engine) {
    forall c, write :: PlaceOf(e.conns, c) != Some(Live) ==> !Armed(e.timers, TimerId(c, write))
  }

  lemma TimersValid(e: Engine, c: nat, write: bool)
    requires Inv(e)
    ensures Valid(e.timers) && (PlaceOf(e.conns, c) != None <==> TimerId(c, write) in e.timers.table)
    ensures (PlaceOf(e.conns, c) != None <==> c in e.conns.places) && (e.phase == Poll ==> e.timers.changes == [])
  {
    hide Valid;
  }

  // The steps.

  lemma FreeDisarms(e: Engine, c: nat)
    requires Inv(e) && Disarmed(e)
    ensures Disarmed(FreeStep(e, c))
  {
    hide Inv, Valid, Effective, Deleted;
    var e' := FreeStep(e, c);
    if e' != e {
      var r, w := TimerId(c, false), TimerId(c, true);
      TimersValid(e, c, false);
      TimersValid(e, c, true);
      Ids(c, false, c, true);
      var ts := Deleted(e.timers, r);
      BatchIsImmediate(e.timers, r, false, w);
      forall x, write | PlaceOf(e'.conns, x) != Some(Live) ensures !Armed(e'.timers, TimerId(x, write)) {
        var id := TimerId(x, write);
        Ids(x, write, c, false);
        Ids(x, write, c, true);
        TimersValid(e, x, write);
        DeleteKeeps(e.timers, r);
        DeleteKeeps(ts, w);
        if id in e.timers.table {
          BatchIsImmediate(e.timers, r, false, id);
          BatchIsImmediate(ts, w, false, id);
        }
      }
    }
  }

  lemma OtherArmed(ts: Timers, ts': Timers, id: nat)
    requires Valid(ts) && Valid(ts') && ts'.changes == ts.changes
    requires id in ts.table <==> id in ts'.table
    requires id in ts.table ==> ts'.table[id].inTree == ts.table[id].inTree && ts'.table[id].change == ts.table[id].change
    ensures Armed(ts', id) == Armed(ts, id)
  {
  }

  lemma CreateDisarmed(e: Engine, spare: nat)
    requires Inv(e) && Disarmed(e)
    ensures Disarmed(CreateStep(e, spare))
  {
    hide Valid, Zeroed, Created, Armed;
    var e' := CreateStep(e, spare);
    if e' != e {
      CreateKeeps(e, spare);
      CreatedPlaces(e.conns, spare);
      var (s', c) := Created(e.conns, spare);
      ZeroedRest(e.timers, c);
      forall x, write | PlaceOf(e'.conns, x) != Some(Live) ensures !Armed(e'.timers, TimerId(x, write)) {
        assert x != c;
        ZeroedTimers(e, c, write, x);
        OtherArmed(e.timers, e'.timers, TimerId(x, write));
      }
    }
  }

  lemma TimerStepDisarmed(e: Engine, a: Action)
    requires Inv(e) && Disarmed(e)
    ensures Disarmed(TimerStep(e, a))
  {
    hide Inv, Valid, Effective, Added, Deleted, Enable;
    var e' := TimerStep(e, a);
    if e' != e {
      var c, id := a.c, TimerId(a.c, a.write);
      TimersValid(e, c, a.write);
      forall x, write | PlaceOf(e'.conns, x) != Some(Live) ensures !Armed(e'.timers, TimerId(x, write)) {
        Ids(x, write, c, a.write);
        TimersValid(e, x, write);
        AddKeeps(e.timers, id, a.AddTimer? && a.near);
        DeleteKeeps(e.timers, id);
        EnableKeys(e.timers, id, false);
        if TimerId(x, write) in e.timers.table {
          BatchIsImmediate(e.timers, id, a.AddTimer? && a.near, TimerId(x, write));
          EnableIsSilent(e.timers, id, false, TimerId(x, write));
        }
      }
    }
  }

  lemma EnableKeys(ts: Timers, id: nat, on: bool)
    requires id in ts.table
    ensures Enable(ts, id, on).table.Keys == ts.table.Keys
  {
  }

  lemma PopDisarmed(e: Engine, k: nat)
    requires Inv(e) && Disarmed(e) && k < |e.queues| && e.queues[k] != []
    ensures Disarmed(PopStep(e, k))
  {
    hide Valid, Handled, Armed;
    var e', w := PopStep(e, k), e.queues[k][0];
    if w.timer.Some? {
      HandledValid(e.timers, TimerId(w.conn, w.timer.value));
      forall x, write | PlaceOf(e'.conns, x) != Some(Live) ensures !Armed(e'.timers, TimerId(x, write)) {
        OtherArmed(e.timers, e'.timers, TimerId(x, write));
      }
    }
  }

  lemma CommittedArmed(ts: Timers, id: nat)
    requires Valid(ts)
    ensures Armed(Committed(ts), id) == Armed(ts, id)
  {
    hide Valid, Effective;
    CommittedKeys(ts);
    if id in ts.table { CommitIsSilent(ts, id); }
  }

  lemma RecycleDisarmed(e: Engine)
    requires Inv(e) && Disarmed(e) && AllEmpty(e.queues)
    ensures Disarmed(RecycleStep(e))
  {
    hide Valid, Committed, Unsettled, Freed, Armed, PlacesGood;
    var e' := RecycleStep(e);
    RecycledPlaces(e);
    forall x, write | PlaceOf(e'.conns, x) != Some(Live) ensures !Armed(e'.timers, TimerId(x, write)) {
      CommittedArmed(e.timers, TimerId(x, write));
    }
  }

  /** With nothing pending, what is armed is in the tree. */
  lemma PollArmed(ts: Timers, id: nat)
    requires Valid(ts) && ts.changes == []
    ensures Armed(ts, id) <==> id in ts.table && ts.table[id].inTree
    ensures id in ts.table ==> ts.table[id].change == 0
  {
  }

  lemma ExpireDisarmed(e: Engine, c: nat, write: bool, q: nat)
    requires Inv(e) && Disarmed(e)
    ensures Disarmed(ExpireStep(e, c, write, q))
  {
    hide Valid, Armed, Push;
    var e' := ExpireStep(e, c, write, q);
    if e' != e {
      ExpireKeeps(e, c, write, q);
      forall x, b | PlaceOf(e'.conns, x) != Some(Live) ensures !Armed(e'.timers, TimerId(x, b)) {
        PollArmed(e.timers, TimerId(x, b));
        PollArmed(e'.timers, TimerId(x, b));
        Ids(x, b, c, write);
      }
    }
  }

  lemma TurnDisarmed(e: Engine)
    requires Inv(e) && Disarmed(e)
    ensures Disarmed(TurnStep(e))
  {
    hide PlacesGood, TimersGood, IdleGood, PoppedGood, QueuedGood, PopStep, RecycleStep, InQueues, Disarmed;
    if e.phase == Drain {
      ChooseNoneIffEmpty(e.queues, e.current);
      match Choose(e.queues, e.current)
      case Some(k) => PopDisarmed(e, k);
      case None => RecycleDisarmed(e);
    }
  }

  lemma NextDisarmed(e: Engine, a: Action)
    requires Inv(e) && Disarmed(e)
    ensures Disarmed(Next(e, a))
  {
    hide Inv, CreateStep, FreeStep, TurnStep, ExpireStep, TimerStep, Armed;
    match a
    case Create(spare) => CreateDisarmed(e, spare);
    case FreeConn(c) => FreeDisarms(e, c);
    case Post(q, c) =>
    case Turn => TurnDisarmed(e);
    case Expire(c, write, q) => ExpireDisarmed(e, c, write, q);
    case PollDone =>
    case _ => TimerStepDisarmed(e, a);
  }

  lemma {:induction false} RunDisarmed(e: Engine, actions: seq<Action>)
    requires Inv(e) && Disarmed(e)
    ensures Disarmed(Run(e, actions))
    decreases |actions|
  {
    hide Inv, Disarmed, Next;
    if actions != [] {
      RunDisarmed(e, actions[..|actions| - 1]);
      NextDisarmed(Run(e, actions[..|actions| - 1]), actions[|actions| - 1]);
    }
  }

  lemma ExpiryOfLive(e: Engine, c: nat, write: bool, q: nat)
    requires Inv(e) && Disarmed(e) && PlaceOf(e.conns, c) != Some(Live)
    ensures ExpireStep(e, c, write, q) == e
  {
    hide Valid, Armed;
    TimersValid(e, c, write);
    if e.phase == Poll {
      PollArmed(e.timers, TimerId(c, write));
      assert !Armed(e.timers, TimerId(c, write));
    }
  }

  /** In every run no timer of a freed struct is armed, so none of them expires and no handler of a freed connection is queued for it. */
  lemma FreedTimersNeverFire(limit: nat, actions: seq<Action>, c: nat, write: bool, q: nat)
    requires 1 <= limit
    ensures Inv(Start(limit))
    ensures var e := Run(Start(limit), actions);
            PlaceOf(e.conns, c) != Some(Live) ==> !Armed(e.timers, TimerId(c, write)) && Next(e, Expire(c, write, q)) == e
  {
    hide Inv, Start, Run, Armed, ExpireStep, Disarmed;
    StartInv(limit);
    StartDisarmed(limit);
    RunDisarmed(Start(limit), actions);
    var e := Run(Start(limit), actions);
    if PlaceOf(e.conns, c) != Some(Live) {
      ExpiryOfLive(e, c, write, q);
      DisarmedTimer(e, c, write);
    }
  }

  lemma DisarmedTimer(e: Engine, c: nat, write: bool)
    requires Disarmed(e) && PlaceOf(e.conns, c) != Some(Live)
    ensures !Armed(e.timers, TimerId(c, write))
  {
  }

  lemma StartDisarmed(limit: nat)
    ensures Disarmed(Start(limit))
  {
  }

  // A freed struct is free for a new connection after the second drain at the latest.

  ghost predicate TimerStill(ts: Timers, id: nat) { id in ts.table && !ts.table[id].inTree && ts.table[id].change == 0 }

  /** Parked, and only a queued work item could still refer to its timers. */
  ghost predicate Stilled(e: Engine, c: nat) {
    && PlaceOf(e.conns, c) == Some(Parked)
    && TimerStill(e.timers, TimerId(c, false)) && TimerStill(e.timers, TimerId(c, true))
  }

  lemma CommitStills(ts: Timers, id: nat)
    requires Valid(ts) && id in ts.table && !Armed(ts, id)
    ensures TimerStill(Committed(ts), id)
  {
    CommitKeeps(ts);
    ValidTimer(ts, id);
  }

  /** The first drain carries out the deletion of the timers. */
  lemma FirstDrain(e: Engine, c: nat)
    requires Inv(e) && Disarmed(e) && AllEmpty(e.queues) && PlaceOf(e.conns, c) == Some(Parked)
    ensures PlaceOf(RecycleStep(e).conns, c) == Some(Idle) || Stilled(RecycleStep(e), c)
  {
    RecycledPlaces(e);
    hide Inv, Valid, Committed, Unsettled, Freed, Armed;
    TimersValid(e, c, false);
    TimersValid(e, c, true);
    CommitStills(e.timers, TimerId(c, false));
    CommitStills(e.timers, TimerId(c, true));
  }

  /** The second finds nothing that refers to it. */
  lemma SecondDrain(e: Engine, c: nat)
    requires Inv(e) && AllEmpty(e.queues) && Stilled(e, c)
    ensures PlaceOf(RecycleStep(e).conns, c) == Some(Idle)
  {
    RecycledPlaces(e);
    TimersValid(e, c, false);
    NothingQueued(e, c, false);
    NothingQueued(e, c, true);
  }

  lemma StillLeft(ts: Timers, ts': Timers, id: nat, other: nat)
    requires Leaves(ts, ts', id) && other != id && TimerStill(ts, other)
    ensures TimerStill(ts', other)
  {
  }

  ghost predicate Drains(e: Engine, a: Action) {
    a == Turn && e.phase == Drain && AllEmpty(e.queues)
  }

  lemma TimerStepStill(e: Engine, a: Action, c: nat)
    requires Inv(e) && Stilled(e, c)
    ensures Stilled(TimerStep(e, a), c)
  {
    hide Inv, Valid, Leaves, Added, Deleted, Enable, TimerStill;
    if TimerStep(e, a) != e {
      var id := TimerId(a.c, a.write);
      TimersValid(e, a.c, a.write);
      Ids(c, false, a.c, a.write);
      Ids(c, true, a.c, a.write);
      AddLeaves(e.timers, id, a.AddTimer? && a.near);
      DeleteLeaves(e.timers, id);
      EnableLeaves(e.timers, id, false);
      var ts := TimerStep(e, a).timers;
      StillLeft(e.timers, ts, id, TimerId(c, false));
      StillLeft(e.timers, ts, id, TimerId(c, true));
    }
  }

  lemma FreeStill(e: Engine, x: nat, c: nat)
    requires Inv(e) && Stilled(e, c)
    ensures Stilled(FreeStep(e, x), c)
  {
    hide Inv, Valid, Leaves, Deleted, TimerStill;
    if FreeStep(e, x) != e {
      var r, w := TimerId(x, false), TimerId(x, true);
      TimersValid(e, x, false);
      TimersValid(e, x, true);
      Ids(c, false, x, false);
      Ids(c, false, x, true);
      Ids(c, true, x, false);
      Ids(c, true, x, true);
      DeleteLeaves(e.timers, r);
      var ts := Deleted(e.timers, r);
      DeleteKeeps(e.timers, r);
      DeleteLeaves(ts, w);
      StillLeft(e.timers, ts, r, TimerId(c, false));
      StillLeft(e.timers, ts, r, TimerId(c, true));
      StillLeft(ts, Deleted(ts, w), w, TimerId(c, false));
      StillLeft(ts, Deleted(ts, w), w, TimerId(c, true));
    }
  }

  lemma CreateStill(e: Engine, spare: nat, c: nat)
    requires Inv(e) && Stilled(e, c)
    ensures Stilled(CreateStep(e, spare), c)
  {
    hide Valid, Zeroed, Created;
    if CreateStep(e, spare) != e {
      CreatedPlaces(e.conns, spare);
      var (s', x) := Created(e.conns, spare);
      ZeroedTimers(e, x, false, c);
      ZeroedTimers(e, x, true, c);
    }
  }

  lemma PopStill(e: Engine, k: nat, c: nat)
    requires Inv(e) && Stilled(e, c) && k < |e.queues| && e.queues[k] != []
    ensures Stilled(PopStep(e, k), c)
  {
    hide Valid, Handled;
    var w := e.queues[k][0];
    if w.timer.Some? { HandledValid(e.timers, TimerId(w.conn, w.timer.value)); }
  }

  lemma NextStill(e: Engine, a: Action, c: nat)
    requires Inv(e) && Disarmed(e) && Stilled(e, c)
    ensures if Drains(e, a) then PlaceOf(Next(e, a).conns, c) == Some(Idle) else Stilled(Next(e, a), c)
  {
    hide Inv, CreateStep, FreeStep, ExpireStep, TimerStep, PopStep, RecycleStep, Disarmed, Stilled, AllEmpty;
    match a
    case Create(spare) => CreateStill(e, spare, c);
    case FreeConn(x) => FreeStill(e, x, c);
    case Post(q, x) => PostStill(e, q, x, c);
    case Turn =>
      if e.phase == Drain {
        QueuesShape(e);
        ChooseNoneIffEmpty(e.queues, e.current);
        match Choose(e.queues, e.current) {
          case Some(k) => PopStill(e, k, c);
          case None => SecondDrain(e, c);
        }
      }
    case Expire(x, write, q) => ExpireStill(e, x, write, q, c);
    case PollDone => PhaseStill(e, c);
    case _ => TimerStepStill(e, a, c);
  }

  lemma QueuesShape(e: Engine)
    requires Inv(e)
    ensures |e.queues| == QUEUES && e.current < QUEUES
  {
  }

  lemma PostStill(e: Engine, q: nat, x: nat, c: nat)
    requires Stilled(e, c)
    ensures Stilled(PostStep(e, q, x), c)
  {
  }

  lemma PhaseStill(e: Engine, c: nat)
    requires Stilled(e, c)
    ensures Stilled(e.(phase := Drain), c)
  {
  }

  lemma ExpireStill(e: Engine, x: nat, write: bool, q: nat, c: nat)
    requires Stilled(e, c)
    ensures Stilled(ExpireStep(e, x, write, q), c)
  {
    Ids(c, false, x, write);
    Ids(c, true, x, write);
  }

  /** Until the next drain a parked struct stays parked. */
  lemma NextParked(e: Engine, a: Action, c: nat)
    requires Inv(e) && Disarmed(e) && PlaceOf(e.conns, c) == Some(Parked)
    ensures if Drains(e, a) then PlaceOf(Next(e, a).conns, c) == Some(Idle) || Stilled(Next(e, a), c)
            else PlaceOf(Next(e, a).conns, c) == Some(Parked)
  {
    hide Valid, TimersGood, QueuedGood, IdleGood, PoppedGood, Disarmed, Stilled, RecycleStep, Zeroed, Created, AllEmpty, PlacesGood;
    match a
    case Create(spare) => if CreateStep(e, spare) != e { CreatedPlaces(e.conns, spare); }
    case Turn =>
      if e.phase == Drain {
        ChooseNoneIffEmpty(e.queues, e.current);
        if AllEmpty(e.queues) { FirstDrain(e, c); }
      }
    case _ =>
  }

  ghost function DrainsIn(e: Engine, actions: seq<Action>): nat
    requires Inv(e)
    decreases |actions|
  {
    if actions == [] then 0
    else
      var before := actions[..|actions| - 1];
      DrainsIn(e, before) + if Drains(Run(e, before), actions[|actions| - 1]) then 1 else 0
  }

  ghost predicate WasFree(e: Engine, actions: seq<Action>, c: nat)
    requires Inv(e)
  {
    exists n :: 0 <= n <= |actions| && PlaceOf(Run(e, actions[..n]).conns, c) == Some(Idle)
  }

  lemma WasFreeLonger(e: Engine, actions: seq<Action>, c: nat)
    requires Inv(e) && actions != [] && WasFree(e, actions[..|actions| - 1], c)
    ensures WasFree(e, actions, c)
  {
    hide Inv, Run;
    var before := actions[..|actions| - 1];
    var n :| 0 <= n <= |before| && PlaceOf(Run(e, before[..n]).conns, c) == Some(Idle);
    assert before[..n] == actions[..n];
  }

  lemma WasFreeNow(e: Engine, actions: seq<Action>, c: nat)
    requires Inv(e) && PlaceOf(Run(e, actions).conns, c) == Some(Idle)
    ensures WasFree(e, actions, c)
  {
    hide Inv, Run;
    assert actions[..|actions|] == actions;
  }

  lemma {:induction false} ParkedRun(e: Engine, actions: seq<Action>, c: nat)
    requires Inv(e) && Disarmed(e) && PlaceOf(e.conns, c) == Some(Parked)
    ensures WasFree(e, actions, c)
         || (DrainsIn(e, actions) == 0 && PlaceOf(Run(e, actions).conns, c) == Some(Parked))
         || (DrainsIn(e, actions) == 1 && Stilled(Run(e, actions), c))
    decreases |actions|
  {
    hide Inv, Disarmed, Next, Drains, WasFree, Stilled;
    if actions != [] {
      var before, a := actions[..|actions| - 1], actions[|actions| - 1];
      ParkedRun(e, before, c);
      var e1 := Run(e, before);
      RunDisarmed(e, before);
      if WasFree(e, before, c) {
        WasFreeLonger(e, actions, c);
      } else {
        if DrainsIn(e, before) == 0 { NextParked(e1, a, c); } else { NextStill(e1, a, c); }
        if PlaceOf(Run(e, actions).conns, c) == Some(Idle) { WasFreeNow(e, actions, c); }
      }
    }
  }

  /** From any state of a run: once the queues have been drained twice, a struct that was parked has been free for a new connection. */
  lemma FreeBySecondDrain(limit: nat, before: seq<Action>, actions: seq<Action>, c: nat)
    requires 1 <= limit
    ensures Inv(Start(limit))
    ensures var e := Run(Start(limit), before);
            PlaceOf(e.conns, c) == Some(Parked) && DrainsIn(e, actions) >= 2 ==> WasFree(e, actions, c)
  {
    hide Inv, Start, Run, Disarmed, WasFree;
    StartInv(limit);
    StartDisarmed(limit);
    RunDisarmed(Start(limit), before);
    var e := Run(Start(limit), before);
    if PlaceOf(e.conns, c) == Some(Parked) { ParkedRun(e, actions, c); }
  }

  // Structs are used again.

  /** The structs that are live or parked. */
  function Busy(s: Structs): set<nat> { set c | c in s.places && s.places[c] != Idle }

  /** A struct is made only when no other is free. */
  lemma CreateReuses(e: Engine, spare: nat)
    requires Inv(e)
    ensures var s, s' := e.conns, CreateStep(e, spare).conns;
            s'.places.Keys == s.places.Keys || s'.places.Keys == Busy(s')
  {
    hide QueuesGood, TimersGood, QueuedGood, IdleGood, PoppedGood;
    var s, s' := e.conns, CreateStep(e, spare).conns;
    if s.free != [] {
      assert s.free[0] in s.free;
      assert s'.places.Keys == s.places.Keys;
    } else if s' != s {
      forall c | c in s.places ensures s.places[c] != Idle { assert c !in s.free && PlaceOf(s, c) == Some(s.places[c]); }
      assert s'.places.Keys == Busy(s');
    }
  }

  lemma OthersMakeNone(e: Engine, a: Action)
    requires Inv(e) && !a.Create?
    ensures Next(e, a).conns.places.Keys == e.conns.places.Keys
  {
    hide Inv, Deleted, Added, Enable, Committed, QuietIn, Handled, Unsettled, Freed, Choose, CurrentAfter;
    QueuesShape(e);
    if a.FreeConn? { TimersValid(e, a.c, false); }
  }

  lemma {:induction false} StructsRun(e: Engine, actions: seq<Action>) returns (k: nat)
    requires Inv(e) && e.conns.places == map[]
    ensures k <= |actions| && Run(e, actions).conns.places.Keys == Busy(Run(e, actions[..k]).conns)
    decreases |actions|
  {
    hide Inv, Next, Busy;
    if actions == [] {
      k := 0;
      NoneBusy(e.conns);
    } else {
      var n := |actions| - 1;
      var before, a := actions[..n], actions[n];
      var e1 := Run(e, before);
      k := StructsRun(e, before);
      assert before[..k] == actions[..k];
      if a.Create? {
        CreateReuses(e1, a.spare);
        CreateIsNext(e1, a.spare);
        if Run(e, actions).conns.places.Keys != e1.conns.places.Keys {
          k := |actions|;
          assert actions[..k] == actions;
        }
      } else {
        OthersMakeNone(e1, a);
      }
    }
  }

  lemma NoneBusy(s: Structs)
    requires s.places == map[]
    ensures Busy(s) == {} == s.places.Keys
  {
  }

  lemma CreateIsNext(e: Engine, spare: nat)
    requires Inv(e)
    ensures Next(e, Create(spare)) == CreateStep(e, spare)
  {
  }

  /** In every run, at some moment all the structs that were ever made were in use at once: none is made while one is free. */
  lemma StructsAreReused(limit: nat, actions: seq<Action>) returns (k: nat)
    requires 1 <= limit
    ensures Inv(Start(limit)) && k <= |actions|
    ensures Run(Start(limit), actions).conns.places.Keys == Busy(Run(Start(limit), actions[..k]).conns)
  {
    assert Start(limit).conns.places == map[];
    hide Inv, Start, Run, Busy;
    StartInv(limit);
    k := StructsRun(Start(limit), actions);
  }
}
