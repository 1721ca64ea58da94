/** When the handler of a timer is called: once for each time it was added, and not after it was deleted or disabled. */
module TimerFires {
  import opened Bytes
  import opened WorkQueues
  import opened Timers
  import opened ConnLists
  import opened Links
  import opened ConnEngine
  import opened ConnRuns

  predicate Enabled(e: Engine, c: nat, write: bool) { var id := TimerId(c, write); id in e.timers.table && e.timers.table[id].enabled }

  predicate MayUse(e: Engine, c: nat) { e.phase == Drain && PlaceOf(e.conns, c) == Some(Live) }

  /** The step is an addition of the timer. */
  ghost predicate Adds(e: Engine, a: Action, c: nat, write: bool) { a.AddTimer? && a.c == c && a.write == write && MayUse(e, c) }

  /** The step deletes or disables the timer, or its connection ends, or its struct becomes another connection. */
  ghost predicate Cancels(e: Engine, a: Action, c: nat, write: bool) {
    || ((a.DeleteTimer? || a.DisableTimer?) && a.c == c && a.write == write && MayUse(e, c))
    || (a == FreeConn(c) && MayUse(e, c))
    || (a.Create? && CreateStep(e, a.spare) != e && Created(e.conns, a.spare).1 == c)
  }

  /** The step calls the handler of the timer. */
  ghost predicate FiresIn(e: Engine, a: Action, c: nat, write: bool)
    requires Inv(e)
  {
    var before, after := e.popped, Next(e, a).popped;
    |after| == |before| + 1 && var p := after[|before|]; p.fires && p.work.conn == c && p.work.timer == Some(write)
  }

  // The steps.

  lemma RecordEnabled(ts: Timers, id: nat, op: TimerOp, x: nat)
    requires Valid(ts) && id in ts.table && x in ts.table && (op == Remove ==> ts.table[id].inTree)
    ensures x in Recorded(ts, id, op).table && Recorded(ts, id, op).table[x].enabled == ts.table[x].enabled
  {
  }

  lemma ChangedEnabled(ts: Timers, id: nat, near: bool, x: nat)
    requires Valid(ts) && id in ts.table && x in ts.table
    ensures x in Added(ts, id, near).table && Added(ts, id, near).table[x].enabled == (x == id || ts.table[x].enabled)
    ensures x in Deleted(ts, id).table && Deleted(ts, id).table[x].enabled == (x != id && ts.table[x].enabled)
  {
    hide Valid, Recorded;
    EnableKeeps(ts, id, true);
    EnableKeeps(ts, id, false);
    RecordEnabled(Enable(ts, id, true), id, if ts.table[id].inTree && near then Nope else Add, x);
    RecordEnabled(Enable(ts, id, false), id, if ts.table[id].inTree then Remove else Nope, x);
  }

  lemma TimerPresent(e: Engine, c: nat, write: bool)
    requires Inv(e)
    ensures Valid(e.timers) && (c in e.conns.places <==> TimerId(c, write) in e.timers.table)
    ensures |e.queues| == QUEUES && e.current < QUEUES
  {
    hide Valid;
  }

  lemma TimerStepEnabled(e: Engine, a: Action, c: nat, write: bool)
    requires Inv(e) && (a.AddTimer? || a.DeleteTimer? || a.DisableTimer?)
    ensures Enabled(TimerStep(e, a), c, write) ==> Adds(e, a, c, write) || (Enabled(e, c, write) && !Cancels(e, a, c, write))
    ensures TimerStep(e, a).popped == e.popped
  {
    hide Inv, Valid, Added, Deleted;
    TimerPresent(e, a.c, a.write);
    TimerPresent(e, c, write);
    Ids(c, write, a.c, a.write);
    if MayUse(e, a.c) && TimerId(c, write) in e.timers.table {
      ChangedEnabled(e.timers, TimerId(a.c, a.write), a.AddTimer? && a.near, TimerId(c, write));
    }
    if MayUse(e, a.c) { SameKeys(e, TimerId(a.c, a.write), a.AddTimer? && a.near); }
  }

  lemma SameKeys(e: Engine, id: nat, near: bool)
    requires Valid(e.timers) && id in e.timers.table
    ensures Added(e.timers, id, near).table.Keys == e.timers.table.Keys && Deleted(e.timers, id).table.Keys == e.timers.table.Keys
  {
    hide Valid;
    AddLeaves(e.timers, id, near);
    DeleteLeaves(e.timers, id);
  }

  lemma FreeEnabled(e: Engine, x: nat, c: nat, write: bool)
    requires Inv(e)
    ensures Enabled(FreeStep(e, x), c, write) ==> Enabled(e, c, write) && !(x == c && MayUse(e, c))
    ensures FreeStep(e, x).popped == e.popped
  {
    hide Inv, Valid, Deleted;
    TimerPresent(e, x, false);
    TimerPresent(e, x, true);
    TimerPresent(e, c, write);
    if MayUse(e, x) {
      var id, r, w := TimerId(c, write), TimerId(x, false), TimerId(x, true);
      Ids(c, write, x, false);
      Ids(c, write, x, true);
      DeleteKeeps(e.timers, r);
      SameKeys(e, r, false);
      var ts := Deleted(e.timers, r);
      SameKeys(e.(timers := ts), w, false);
      if id in e.timers.table {
        ChangedEnabled(e.timers, r, false, id);
        ChangedEnabled(ts, w, false, id);
      }
    }
  }

  lemma CreateEnabled(e: Engine, spare: nat, c: nat, write: bool)
    requires Inv(e)
    ensures Enabled(CreateStep(e, spare), c, write) ==> Enabled(e, c, write) && !Cancels(e, Create(spare), c, write)
    ensures CreateStep(e, spare).popped == e.popped
  {
    hide Inv, Zeroed;
    var x := Created(e.conns, spare).1;
    ZeroedTimers(e, x, write, c);
    ResetOff();
  }

  lemma ResetOff()
    ensures !RESET.enabled
  {
  }

  lemma PopEnabled(e: Engine, k: nat, c: nat, write: bool)
    requires Inv(e) && k < |e.queues| == QUEUES && e.queues[k] != [] && e.current < QUEUES
    ensures var e', p := PopStep(e, k), PopStep(e, k).popped;
            && |p| == |e.popped| + 1 && p[|e.popped|].work == e.queues[k][0]
            && var fires := p[|e.popped|].fires && e.queues[k][0].conn == c && e.queues[k][0].timer == Some(write);
               (Enabled(e', c, write) ==> Enabled(e, c, write) && !fires) && (fires ==> Enabled(e, c, write))
  {
    hide Inv;
    var w := e.queues[k][0];
    if w.timer.Some? { Ids(c, write, w.conn, w.timer.value); }
  }

  lemma RecycleEnabled(e: Engine, c: nat, write: bool)
    requires Inv(e)
    ensures Enabled(RecycleStep(e), c, write) == Enabled(e, c, write) && RecycleStep(e).popped == e.popped
  {
    TimerPresent(e, c, write);
    hide Inv, Freed, Unsettled;
  }

  lemma ExpireEnabled(e: Engine, x: nat, w: bool, q: nat, c: nat, write: bool)
    ensures Enabled(ExpireStep(e, x, w, q), c, write) == Enabled(e, c, write) && ExpireStep(e, x, w, q).popped == e.popped
  {
  }

  /** One step: a timer is enabled after it only if it is added, or was enabled and is neither cancelled nor called. */
  lemma NextEnabled(e: Engine, a: Action, c: nat, write: bool)
    requires Inv(e)
    ensures Enabled(Next(e, a), c, write) ==>
              Adds(e, a, c, write) || (Enabled(e, c, write) && !Cancels(e, a, c, write) && !FiresIn(e, a, c, write))
    ensures FiresIn(e, a, c, write) ==> Enabled(e, c, write)
  {
    hide Inv, Enabled, FreeStep, CreateStep, PopStep, RecycleStep, ExpireStep, TimerStep, Choose;
    match a
    case Create(spare) => CreateEnabled(e, spare, c, write);
    case FreeConn(x) => FreeEnabled(e, x, c, write);
    case Post(q, x) => PostEnabled(e, q, x, c, write);
    case Turn =>
      TimerPresent(e, c, write);
      if e.phase == Drain {
        if Choose(e.queues, e.current).Some? { PopEnabled(e, Choose(e.queues, e.current).value, c, write); } else { RecycleEnabled(e, c, write); }
      }
    case Expire(x, w, q) => ExpireEnabled(e, x, w, q, c, write);
    case PollDone => PhaseEnabled(e, c, write);
    case _ => TimerStepEnabled(e, a, c, write);
  }

  lemma PostEnabled(e: Engine, q: nat, x: nat, c: nat, write: bool)
    ensures Enabled(PostStep(e, q, x), c, write) == Enabled(e, c, write) && PostStep(e, q, x).popped == e.popped
  {
  }

  lemma PhaseEnabled(e: Engine, c: nat, write: bool)
    ensures Enabled(e.(phase := Drain), c, write) == Enabled(e, c, write)
  {
  }

  // Runs.

  /** The timer was added in step k, and since then it was neither cancelled nor has its handler been called. */
  ghost predicate AddedSince(e: Engine, actions: seq<Action>, k: nat, c: nat, write: bool)
    requires Inv(e)
  {
    && k < |actions| && Adds(Run(e, actions[..k]), actions[k], c, write)
    && forall j :: k < j < |actions| ==>
         !Cancels(Run(e, actions[..j]), actions[j], c, write) && !FiresIn(Run(e, actions[..j]), actions[j], c, write)
  }

  lemma SinceLonger(e: Engine, actions: seq<Action>, k: nat, c: nat, write: bool)
    requires Inv(e) && actions != [] && AddedSince(e, actions[..|actions| - 1], k, c, write)
    requires var n := |actions| - 1;
             !Cancels(Run(e, actions[..n]), actions[n], c, write) && !FiresIn(Run(e, actions[..n]), actions[n], c, write)
    ensures AddedSince(e, actions, k, c, write)
  {
    hide Inv, Adds, Cancels, FiresIn, Run;
    var n := |actions| - 1;
    var before := actions[..n];
    assert before[..k] == actions[..k] && before[k] == actions[k];
    forall j | k < j < |actions|
      ensures !Cancels(Run(e, actions[..j]), actions[j], c, write) && !FiresIn(Run(e, actions[..j]), actions[j], c, write)
    {
      if j < n { assert before[..j] == actions[..j] && before[j] == actions[j]; }
    }
  }

  lemma {:induction false} EnabledWasAdded(e: Engine, actions: seq<Action>, c: nat, write: bool) returns (k: nat)
    requires Inv(e) && !Enabled(e, c, write)
    ensures Enabled(Run(e, actions), c, write) ==> AddedSince(e, actions, k, c, write)
    decreases |actions|
  {
    hide Inv, Next, Enabled, Cancels, FiresIn, Adds;
    k := 0;
    if actions != [] {
      var n := |actions| - 1;
      var e1 := Run(e, actions[..n]);
      NextEnabled(e1, actions[n], c, write);
      if Enabled(Run(e, actions), c, write) {
        if Adds(e1, actions[n], c, write) {
          k := n;
        } else {
          k := EnabledWasAdded(e, actions[..n], c, write);
          SinceLonger(e, actions, k, c, write);
        }
      }
    }
  }

  /**
    In every run: when the handler of a timer is called, the timer was added in some step, and since then it was not
    deleted, disabled or ended with its connection, and its handler was not called. So it is called at most once
    for each addition, and never after a deletion.
   */
  lemma CalledOncePerAdd(limit: nat, actions: seq<Action>, a: Action, c: nat, write: bool) returns (k: nat)
    requires 1 <= limit
    ensures Inv(Start(limit))
    ensures FiresIn(Run(Start(limit), actions), a, c, write) ==> AddedSince(Start(limit), actions, k, c, write)
  {
    NotYet(limit, c, write);
    StartInv(limit);
    hide Inv, Start, Run, FiresIn, AddedSince, Next, Enabled;
    k := EnabledWasAdded(Start(limit), actions, c, write);
    NextEnabled(Run(Start(limit), actions), a, c, write);
  }

  lemma NotYet(limit: nat, c: nat, write: bool)
    ensures !Enabled(Start(limit), c, write)
  {
  }
}
