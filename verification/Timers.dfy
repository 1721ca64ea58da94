/** Timers with batched changes: src/nxt_timer.c. */
module Timers {
  import opened Bytes

  /** `change` is the position of the pending change plus one; zero is NXT_TIMER_NO_CHANGE. */
  datatype Timer = Timer(inTree: bool, queued: bool, enabled: bool, change: nat)

  datatype TimerOp = Nope | Add | Remove

  datatype Change = Change(op: TimerOp, timer: nat)

  /** nxt_timers_t, without the times. */
  datatype Timers = Timers(table: map<nat, Timer>, changes: seq<Change>, limit: nat)

  const RESET := Timer(false, false, false, 0)

  /** Each pending change belongs to one timer, and only timers in the tree wait to be removed from it. */
  ghost predicate Valid(ts: Timers) {
    && 1 <= ts.limit && |ts.changes| <= ts.limit
    && (forall k :: 0 <= k < |ts.changes| ==>
          var id := ts.changes[k].timer;
          && id in ts.table && ts.table[id].change == k + 1
          && (ts.changes[k].op == Remove ==> ts.table[id].inTree))
    && (forall id :: id in ts.table && ts.table[id].change > 0 ==>
          ts.table[id].change <= |ts.changes| && ts.changes[ts.table[id].change - 1].timer == id)
  }

  function Settled(t: Timer, op: TimerOp): Timer {
    t.(inTree := match op case Nope => t.inTree case Add => true case Remove => false, change := 0)
  }

  function CommitTimer(ts: Timers, id: nat): Timer
    requires id in ts.table && ts.table[id].change <= |ts.changes|
  {
    var t := ts.table[id];
    if t.change == 0 then t else Settled(t, ts.changes[t.change - 1].op)
  }

  /** nxt_timer_changes_commit() */
  ghost function Committed(ts: Timers): Timers
    requires Valid(ts)
  {
    Timers(map id | id in ts.table :: CommitTimer(ts, id), [], ts.limit)
  }

  ghost function Rewritten(ts: Timers, id: nat, op: TimerOp): Timers
    requires Valid(ts) && id in ts.table && ts.table[id].change > 0
  {
    ts.(changes := ts.changes[ts.table[id].change - 1 := Change(op, id)])
  }

  function Appended(ts: Timers, id: nat, op: TimerOp): Timers
    requires id in ts.table
  {
    ts.(table := ts.table[id := ts.table[id].(change := |ts.changes| + 1)], changes := ts.changes + [Change(op, id)])
  }

  /** The batch is carried out when it is full. */
  ghost function WithRoom(ts: Timers): Timers
    requires Valid(ts)
  {
    if |ts.changes| >= ts.limit then Committed(ts) else ts
  }

  /** nxt_timer_change() */
  ghost function Recorded(ts: Timers, id: nat, op: TimerOp): Timers
    requires Valid(ts) && id in ts.table
  {
    if ts.table[id].change > 0 then Rewritten(ts, id, op)
    else if op == Nope then ts
    else Appended(WithRoom(ts), id, op)
  }

  function Enable(ts: Timers, id: nat, on: bool): Timers
    requires id in ts.table
  {
    ts.(table := ts.table[id := ts.table[id].(enabled := on)])
  }

  /** nxt_timer_add(); `near` says that the timer's time is within the bias. */
  ghost function Added(ts: Timers, id: nat, near: bool): Timers
    requires Valid(ts) && id in ts.table
  {
    EnableKeeps(ts, id, true);
    var ts' := Enable(ts, id, true);
    Recorded(ts', id, if ts.table[id].inTree && near then Nope else Add)
  }

  /** nxt_timer_delete() */
  ghost function Deleted(ts: Timers, id: nat): Timers
    requires Valid(ts) && id in ts.table
  {
    EnableKeeps(ts, id, false);
    var ts' := Enable(ts, id, false);
    Recorded(ts', id, if ts.table[id].inTree then Remove else Nope)
  }

  // What the operations keep.

  lemma ValidTimer(ts: Timers, id: nat)
    requires Valid(ts) && id in ts.table
    ensures ts.table[id].change <= |ts.changes|
  {
  }

  lemma EnableKeeps(ts: Timers, id: nat, on: bool)
    requires Valid(ts) && id in ts.table
    ensures Valid(Enable(ts, id, on))
  {
  }

  lemma CommitKeeps(ts: Timers)
    requires Valid(ts)
    ensures Valid(Committed(ts)) && forall id :: id in ts.table ==> Committed(ts).table[id].change == 0
  {
  }

  lemma RewriteKeeps(ts: Timers, id: nat, op: TimerOp)
    requires Valid(ts) && id in ts.table && ts.table[id].change > 0 && (op == Remove ==> ts.table[id].inTree)
    ensures Valid(Rewritten(ts, id, op))
  {
  }

  lemma AppendKeeps(ts: Timers, id: nat, op: TimerOp)
    requires Valid(ts) && id in ts.table && ts.table[id].change == 0 && |ts.changes| < ts.limit
    requires op == Remove ==> ts.table[id].inTree
    ensures Valid(Appended(ts, id, op))
  {
    var ts' := Appended(ts, id, op);
    forall k | 0 <= k < |ts'.changes| ensures ts'.changes[k].timer in ts'.table && ts'.table[ts'.changes[k].timer].change == k + 1
      && (ts'.changes[k].op == Remove ==> ts'.table[ts'.changes[k].timer].inTree)
    {
      if k < |ts.changes| { assert ts.changes[k].timer != id; }
    }
  }

  lemma RoomKeeps(ts: Timers, id: nat)
    requires Valid(ts) && id in ts.table && ts.table[id].change == 0
    ensures Valid(WithRoom(ts)) && |WithRoom(ts).changes| < WithRoom(ts).limit && WithRoom(ts).table.Keys == ts.table.Keys
    ensures id in WithRoom(ts).table && WithRoom(ts).table[id] == ts.table[id]
  {
    CommitKeeps(ts);
  }

  lemma RecordKeeps(ts: Timers, id: nat, op: TimerOp)
    requires Valid(ts) && id in ts.table && (op == Remove ==> ts.table[id].inTree)
    ensures Valid(Recorded(ts, id, op)) && Recorded(ts, id, op).table.Keys == ts.table.Keys
  {
    hide Valid, WithRoom, Committed;
    if ts.table[id].change > 0 {
      RewriteKeeps(ts, id, op);
    } else if op != Nope {
      RoomKeeps(ts, id);
      AppendKeeps(WithRoom(ts), id, op);
    }
  }

  /** What an operation on one timer leaves alone: the queued flags, and every timer without a pending change. */
  ghost predicate Leaves(ts: Timers, ts': Timers, id: nat) {
    && ts'.table.Keys == ts.table.Keys
    && (forall x :: x in ts.table ==> ts'.table[x].queued == ts.table[x].queued)
    && (forall x :: x in ts.table && x != id && ts.table[x].change == 0 ==> ts'.table[x] == ts.table[x])
  }

  lemma RoomLeaves(ts: Timers, id: nat)
    requires Valid(ts)
    ensures Leaves(ts, WithRoom(ts), id)
  {
    forall x | x in ts.table ensures WithRoom(ts).table[x].queued == ts.table[x].queued { ValidTimer(ts, x); }
  }

  lemma RecordLeaves(ts: Timers, id: nat, op: TimerOp)
    requires Valid(ts) && id in ts.table
    ensures Leaves(ts, Recorded(ts, id, op), id)
  {
    hide Valid, WithRoom;
    RoomLeaves(ts, id);
  }

  lemma AddLeaves(ts: Timers, id: nat, near: bool)
    requires Valid(ts) && id in ts.table
    ensures Valid(Added(ts, id, near)) && Leaves(ts, Added(ts, id, near), id)
  {
    hide Valid, Recorded;
    AddKeeps(ts, id, near);
    EnableKeeps(ts, id, true);
    RecordLeaves(Enable(ts, id, true), id, if ts.table[id].inTree && near then Nope else Add);
  }

  lemma DeleteLeaves(ts: Timers, id: nat)
    requires Valid(ts) && id in ts.table
    ensures Valid(Deleted(ts, id)) && Leaves(ts, Deleted(ts, id), id)
  {
    hide Valid, Recorded;
    DeleteKeeps(ts, id);
    EnableKeeps(ts, id, false);
    RecordLeaves(Enable(ts, id, false), id, if ts.table[id].inTree then Remove else Nope);
  }

  lemma AddKeeps(ts: Timers, id: nat, near: bool)
    requires Valid(ts) && id in ts.table
    ensures Valid(Added(ts, id, near)) && Added(ts, id, near).table.Keys == ts.table.Keys
  {
    EnableKeeps(ts, id, true);
    RecordKeeps(Enable(ts, id, true), id, if ts.table[id].inTree && near then Nope else Add);
  }

  lemma DeleteKeeps(ts: Timers, id: nat)
    requires Valid(ts) && id in ts.table
    ensures Valid(Deleted(ts, id)) && Deleted(ts, id).table.Keys == ts.table.Keys
  {
    EnableKeeps(ts, id, false);
    RecordKeeps(Enable(ts, id, false), id, if ts.table[id].inTree then Remove else Nope);
  }

  // The batch behaves as if every operation changed the tree at once.

  /** Whether the timer is in the tree once the batch is carried out. */
  ghost predicate Effective(ts: Timers, id: nat)
    requires Valid(ts) && id in ts.table
  {
    CommitTimer(ts, id).inTree
  }

  lemma CommitIsSilent(ts: Timers, id: nat)
    requires Valid(ts) && id in ts.table
    ensures Valid(Committed(ts)) && Effective(Committed(ts), id) == Effective(ts, id)
    ensures Committed(ts).table[id].queued == ts.table[id].queued && Committed(ts).table[id].enabled == ts.table[id].enabled
  {
    CommitKeeps(ts);
  }

  lemma RewriteEffect(ts: Timers, id: nat, op: TimerOp, other: nat)
    requires Valid(ts) && id in ts.table && other in ts.table && ts.table[id].change > 0
    requires Valid(Rewritten(ts, id, op))
    ensures Effective(Rewritten(ts, id, op), other) == if other != id then Effective(ts, other) else Settled(ts.table[id], op).inTree
  {
  }

  lemma AppendEffect(ts: Timers, id: nat, op: TimerOp, other: nat)
    requires Valid(ts) && id in ts.table && other in ts.table && ts.table[id].change == 0
    requires Valid(Appended(ts, id, op))
    ensures Effective(Appended(ts, id, op), other) == if other != id then Effective(ts, other) else Settled(ts.table[id], op).inTree
  {
  }

  lemma RoomIsSilent(ts: Timers, id: nat, other: nat)
    requires Valid(ts) && other in ts.table && id in ts.table && ts.table[id].change == 0
    ensures Valid(WithRoom(ts)) && other in WithRoom(ts).table && Effective(WithRoom(ts), other) == Effective(ts, other)
  {
    CommitIsSilent(ts, other);
  }

  lemma NoChangeEffect(ts: Timers, id: nat)
    requires Valid(ts) && id in ts.table && ts.table[id].change == 0
    ensures Effective(ts, id) == Settled(ts.table[id], Nope).inTree
  {
  }

  /** A recorded operation settles its timer as it says, and no other. */
  lemma RecordTakesEffect(ts: Timers, id: nat, op: TimerOp, other: nat)
    requires Valid(ts) && id in ts.table && other in ts.table && (op == Remove ==> ts.table[id].inTree)
    ensures Valid(Recorded(ts, id, op)) && other in Recorded(ts, id, op).table
    ensures Effective(Recorded(ts, id, op), other) == if other != id then Effective(ts, other) else Settled(ts.table[id], op).inTree
  {
    hide Valid, WithRoom, Committed, Effective;
    if ts.table[id].change > 0 {
      RewriteKeeps(ts, id, op);
      RewriteEffect(ts, id, op, other);
    } else if op == Nope {
      NoChangeEffect(ts, id);
    } else {
      RoomKeeps(ts, id);
      AppendKeeps(WithRoom(ts), id, op);
      RoomIsSilent(ts, id, other);
      AppendEffect(WithRoom(ts), id, op, other);
    }
  }

  lemma EnableIsSilent(ts: Timers, id: nat, on: bool, other: nat)
    requires Valid(ts) && id in ts.table && other in ts.table
    ensures Valid(Enable(ts, id, on)) && Effective(Enable(ts, id, on), other) == Effective(ts, other)
  {
    hide Valid;
    EnableKeeps(ts, id, on);
    ValidTimer(ts, other);
  }

  /** An added timer will be in the tree, a deleted one will not, and no other timer is affected. */
  lemma BatchIsImmediate(ts: Timers, id: nat, near: bool, other: nat)
    requires Valid(ts) && id in ts.table && other in ts.table
    ensures Valid(Added(ts, id, near)) && other in Added(ts, id, near).table
    ensures Valid(Deleted(ts, id)) && other in Deleted(ts, id).table
    ensures Effective(Added(ts, id, near), other) == (other == id || Effective(ts, other))
    ensures Effective(Deleted(ts, id), other) == (other != id && Effective(ts, other))
  {
    hide Valid, Recorded, Effective;
    EnableIsSilent(ts, id, true, other);
    EnableIsSilent(ts, id, false, other);
    RecordTakesEffect(Enable(ts, id, true), id, if ts.table[id].inTree && near then Nope else Add, other);
    RecordTakesEffect(Enable(ts, id, false), id, if ts.table[id].inTree then Remove else Nope, other);
  }

  /** The result of nxt_timer_delete(): zero means that nothing refers to the timer any more. */
  lemma DeleteSaysQuiescent(ts: Timers, id: nat)
    requires Valid(ts) && id in ts.table
    ensures var t, t' := ts.table[id], Deleted(ts, id).table[id];
            && (t.inTree || t'.queued || t'.change != 0) == (t'.inTree || t'.queued || t'.change != 0)
            && !t'.enabled
  {
    DeleteKeeps(ts, id);
  }

  // The code: changes are committed in place, the timers to add are collected at the front of the same array.

  class TimerEngine {
    const changes: array<Change>
    var n: nat
    var table: map<nat, Timer>

    ghost function State(): Timers
      requires n <= changes.Length
      reads this, changes
    {
      Timers(table, changes[..n], changes.Length)
    }

    ghost predicate Good()
      reads this, changes
    {
      n <= changes.Length && Valid(State())
    }

    constructor (limit: nat)
      requires 1 <= limit
      ensures Good() && fresh(changes) && State() == Timers(map[], [], limit)
    {
      changes := new Change[limit];
      n := 0;
      table := map[];
    }

    /** First loop: removals are done, the timers to add are collected. */
    method TakeOut() returns (added: nat, ghost ids: seq<nat>)
      requires Good()
      modifies this`table, changes
      ensures added == |ids| <= n && Passed(old(State()), table, n) && Collected(old(State()), ids, n)
      ensures forall i :: 0 <= i < added ==> changes[i].timer == ids[i]
    {
      hide Valid, Passed, Collected, FirstPass, AddedBy;
      ghost var ts := State();
      var ch := 0;
      added, ids := 0, [];
      PassStarts(ts);
      while ch < n
        invariant added == |ids| <= ch <= n && ch <= |ts.changes| == n
        invariant forall k :: ch <= k < n ==> changes[k] == ts.changes[k]
        invariant forall i :: 0 <= i < added ==> changes[i].timer == ids[i]
        invariant Passed(ts, table, ch) && Collected(ts, ids, ch)
      {
        var change := changes[ch];
        var id := change.timer;
        PassStep(ts, table, ids, ch);
        var timer := table[id];
        match change.op {
          case Nope =>
          case Add =>
            changes[added] := changes[added].(timer := id);
            added, ids := added + 1, ids + [id];
            if timer.inTree { timer := timer.(inTree := false); }
          case Remove =>
            assert timer.inTree;
            timer := timer.(inTree := false);
        }
        table := table[id := timer.(change := 0)];
        ch := ch + 1;
      }
    }

    method Commit()
      requires Good()
      modifies this, changes
      ensures Good() && State() == Committed(old(State()))
    {
      hide Valid, Passed, Collected, Committed, Inserted, Settled;
      ghost var ts := State();
      var added, ids := TakeOut();
      InsertStarts(ts, table, ids);
      for add := 0 to added
        invariant Inserted(ts, table, ids, add)
        invariant forall i :: 0 <= i < added ==> changes[i].timer == ids[i]
      {
        var id := changes[add].timer;
        InsertStep(ts, table, ids, add);
        table := table[id := table[id].(inTree := true)];
      }
      n := 0;
      InsertEnds(ts, table, ids);
      CommitKeeps(ts);
    }

    method MakeRoom()
      requires Good()
      modifies this, changes
      ensures Good() && State() == WithRoom(old(State()))
    {
      hide Valid, Committed;
      if n >= changes.Length { Commit(); }
    }

    /** nxt_timer_change() */
    method Record(id: nat, op: TimerOp)
      requires Good() && id in table && (op == Remove ==> table[id].inTree)
      modifies this, changes
      ensures Good() && State() == Recorded(old(State()), id, op)
    {
      hide Valid, Committed, WithRoom;
      RecordKeeps(State(), id, op);
      if table[id].change == 0 {
        if op == Nope { return; }
        RoomKeeps(State(), id);
        MakeRoom();
        n := n + 1;
        table := table[id := table[id].(change := n)];
      } else {
        ValidTimer(State(), id);
      }
      changes[table[id].change - 1] := Change(op, id);
      assert State().changes == Recorded(old(State()), id, op).changes;
    }
  }

  ghost predicate AddedBy(ts: Timers, id: nat, ch: nat)
    requires Valid(ts) && ch <= |ts.changes|
  {
    id in ts.table && 0 < ts.table[id].change <= ch && ts.changes[ts.table[id].change - 1].op == Add
  }

  ghost predicate Collected(ts: Timers, ids: seq<nat>, ch: nat)
    requires Valid(ts) && ch <= |ts.changes|
  {
    forall id :: id in ids <==> AddedBy(ts, id, ch)
  }

  /** A timer after the first loop has gone over ch changes: those to add are out of the tree. */
  ghost function FirstPass(ts: Timers, id: nat, ch: nat): Timer
    requires Valid(ts) && id in ts.table && ch <= |ts.changes|
  {
    var t := ts.table[id];
    if t.change == 0 || t.change > ch then t
    else t.(inTree := t.inTree && ts.changes[t.change - 1].op == Nope, change := 0)
  }

  ghost predicate Passed(ts: Timers, table: map<nat, Timer>, ch: nat)
    requires Valid(ts) && ch <= |ts.changes|
  {
    table.Keys == ts.table.Keys && forall id :: id in ts.table ==> table[id] == FirstPass(ts, id, ch)
  }

  lemma PassStarts(ts: Timers)
    requires Valid(ts)
    ensures Passed(ts, ts.table, 0) && Collected(ts, [], 0)
  {
  }

  lemma PassStep(ts: Timers, table: map<nat, Timer>, ids: seq<nat>, ch: nat)
    requires Valid(ts) && ch < |ts.changes| && Passed(ts, table, ch) && Collected(ts, ids, ch)
    ensures var id, op := ts.changes[ch].timer, ts.changes[ch].op;
            && id in table && (op == Remove ==> table[id].inTree)
            && Passed(ts, table[id := table[id].(inTree := table[id].inTree && op == Nope, change := 0)], ch + 1)
            && Collected(ts, if op == Add then ids + [id] else ids, ch + 1)
  {
    hide Valid, Passed, Collected;
    ChangeOf(ts, ch);
    TablePass(ts, table, ch);
    IdsPass(ts, ids, ch);
  }

  lemma ChangeOf(ts: Timers, ch: nat)
    requires Valid(ts) && ch < |ts.changes|
    ensures var id := ts.changes[ch].timer;
            id in ts.table && ts.table[id].change == ch + 1 && (ts.changes[ch].op == Remove ==> ts.table[id].inTree)
  {
  }

  /** Only the timer of a change is at its place of the batch. */
  lemma OtherChange(ts: Timers, ch: nat, x: nat)
    requires Valid(ts) && ch < |ts.changes| && x in ts.table && x != ts.changes[ch].timer
    ensures ts.table[x].change != ch + 1
  {
  }

  lemma TablePass(ts: Timers, table: map<nat, Timer>, ch: nat)
    requires Valid(ts) && ch < |ts.changes| && Passed(ts, table, ch)
    ensures var id, op := ts.changes[ch].timer, ts.changes[ch].op;
            && id in table && (op == Remove ==> table[id].inTree)
            && Passed(ts, table[id := table[id].(inTree := table[id].inTree && op == Nope, change := 0)], ch + 1)
  {
    hide Valid;
    var id, op := ts.changes[ch].timer, ts.changes[ch].op;
    ChangeOf(ts, ch);
    var table' := table[id := table[id].(inTree := table[id].inTree && op == Nope, change := 0)];
    forall x | x in ts.table ensures table'[x] == FirstPass(ts, x, ch + 1) {
      if x != id { OtherChange(ts, ch, x); }
    }
  }

  lemma IdsPass(ts: Timers, ids: seq<nat>, ch: nat)
    requires Valid(ts) && ch < |ts.changes| && Collected(ts, ids, ch)
    ensures var id, op := ts.changes[ch].timer, ts.changes[ch].op; Collected(ts, if op == Add then ids + [id] else ids, ch + 1)
  {
    hide Valid;
    var id, op := ts.changes[ch].timer, ts.changes[ch].op;
    ChangeOf(ts, ch);
    var ids' := if op == Add then ids + [id] else ids;
    forall x ensures x in ids' <==> AddedBy(ts, x, ch + 1) {
      assert x in ids <==> AddedBy(ts, x, ch);
      if x in ts.table && x != id { OtherChange(ts, ch, x); }
    }
  }

  ghost predicate Inserted(ts: Timers, table: map<nat, Timer>, ids: seq<nat>, add: nat)
    requires Valid(ts)
  {
    && add <= |ids| && table.Keys == ts.table.Keys && Collected(ts, ids, |ts.changes|)
    && forall id :: id in ts.table ==>
         table[id] == if id in ids[..add] then CommitTimer(ts, id) else FirstPass(ts, id, |ts.changes|)
  }

  lemma InsertStarts(ts: Timers, table: map<nat, Timer>, ids: seq<nat>)
    requires Valid(ts) && Passed(ts, table, |ts.changes|) && Collected(ts, ids, |ts.changes|)
    ensures Inserted(ts, table, ids, 0)
  {
  }

  lemma InsertStep(ts: Timers, table: map<nat, Timer>, ids: seq<nat>, add: nat)
    requires Valid(ts) && Inserted(ts, table, ids, add) && add < |ids|
    ensures ids[add] in table && Inserted(ts, table[ids[add] := table[ids[add]].(inTree := true)], ids, add + 1)
  {
    var id := ids[add];
    assert id in ids && AddedBy(ts, id, |ts.changes|);
    assert ids[..add + 1] == ids[..add] + [id];
  }

  lemma InsertEnds(ts: Timers, table: map<nat, Timer>, ids: seq<nat>)
    requires Valid(ts) && Inserted(ts, table, ids, |ids|)
    ensures Timers(table, [], ts.limit) == Committed(ts)
  {
    assert ids[..|ids|] == ids;
    forall id | id in ts.table ensures table[id] == CommitTimer(ts, id) {
      assert id in ids <==> AddedBy(ts, id, |ts.changes|);
    }
    assert table == Committed(ts).table;
  }
}
