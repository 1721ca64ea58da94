/** The interest calls and the commit of src/nxt_devpoll_engine.c, on the fields they update. */
module DevpollCalls {
  import opened Bytes
  import opened Devpoll

  /** nxt_devpoll_change() on an event as it is. */
  ghost function Changed(s: Engine, ev: nat, op: Op, bits: Bits): Engine
    requires ev in s.evs
  {
    var s' := if |s.changes| >= s.limit then Commit(s) else s;
    s'.(evs := s'.evs[ev := s'.evs[ev].(changing := true)], changes := s'.changes + [Pending(op, bits, ev)])
  }

  lemma ClearedMore(evs: map<nat, Event>, changes: seq<Pending>, c: Pending)
    requires c.ev in evs
    ensures Cleared(evs, changes + [c]) == Cleared(evs, changes)[c.ev := Cleared(evs, changes)[c.ev].(changing := false)]
  {
    forall ev ensures InBatch(changes + [c], ev) <==> InBatch(changes, ev) || ev == c.ev { InBatchMore(changes, c, ev); }
  }

  lemma ClearedNone(evs: map<nat, Event>)
    ensures Cleared(evs, []) == evs
  {
  }

  lemma FailedNone(evs: map<nat, Event>, kernel: map<nat, Bits>)
    ensures Failed(evs, {}) == evs && Dropped(kernel, {}) == kernel
  {
  }

  lemma FailedMore(evs: map<nat, Event>, kernel: map<nat, Bits>, bad: set<nat>, ev: nat)
    requires ev in evs
    ensures Failed(evs, bad + {ev}) == Failed(evs, bad)[ev := Failed(evs, bad)[ev].(read := Inactive, write := Inactive)]
    ensures Dropped(kernel, bad + {ev}) == Dropped(kernel, bad)[ev := NO_BITS]
  {
  }

  /** A commit in which nothing fails does not look at what an event is interested in. */
  lemma CommitSet(s: Engine, ev: nat, e: Event, e': Event)
    requires Inv(s)
    ensures Set(Commit(Set(s, ev, e)), ev, e') == Set(Commit(s), ev, e')
  {
    hide HashAll, KernelWrite, Buffer, Cleared, Failed, InSync;
    FailedNone(Cleared(s.evs, s.changes), map[]);
    FailedNone(Cleared(Set(s, ev, e).evs, s.changes), map[]);
    ClearedSet(s.evs, s.changes, ev, e, e');
  }

  lemma ClearedSet(evs: map<nat, Event>, changes: seq<Pending>, ev: nat, e: Event, e': Event)
    ensures Cleared(evs[ev := e], changes)[ev := e'] == Cleared(evs, changes)[ev := e']
  {
    hide InBatch;
  }

  /** The event is written before and after the batch may be committed; it ends as if it were written once. */
  lemma ChangedIsRecord(s: Engine, ev: nat, e: Event, e': Event, op: Op, bits: Bits)
    requires Inv(s)
    ensures var s' := Changed(Set(s, ev, e), ev, op, bits);
            Set(s', ev, e'.(changing := true)) == Record(s, ev, e', op, bits)
  {
    hide Commit, Inv;
    if |s.changes| >= s.limit {
      CommitSet(s, ev, e, e'.(changing := true));
      CommitKeys(Set(s, ev, e));
    }
  }

  lemma RecordOver(s: Engine, ev: nat, e: Event, e': Event, op: Op, bits: Bits)
    ensures var s' := Record(s, ev, e, op, bits);
            EventOf(s', ev) == e.(changing := true) && Set(s', ev, e'.(changing := true)) == Record(s, ev, e', op, bits)
  {
    hide Commit;
  }

  class Poller {
    const batch: Batch
    var evs: map<nat, Event>
    var kernel: map<nat, Bits>
    var hash: set<nat>
    var errors: nat

    ghost predicate Valid()
      reads this, batch, batch.changes
    {
      batch.Valid() && forall i :: 0 <= i < batch.n ==> batch.changes[i].ev in evs
    }

    ghost function Value(): Engine
      requires Valid()
      reads this, batch, batch.changes
    {
      Engine(evs, batch.changes[..batch.n], kernel, hash, batch.changes.Length, errors)
    }

    constructor (limit: nat)
      ensures Valid() && Value() == Start(limit) && fresh(batch) && fresh(batch.changes) && fresh(batch.writes)
    {
      batch := new Batch(limit);
      evs, kernel, hash, errors := map[], map[], {}, 0;
    }

    method Mark(ev: nat, e: Event)
      requires Valid()
      modifies this`evs
      ensures Valid() && Value() == Set(old(Value()), ev, e)
    {
      evs := evs[ev := e];
    }

    method ClearChanging()
      requires Valid()
      modifies this`evs
      ensures evs == Cleared(old(evs), batch.changes[..batch.n])
    {
      hide Cleared, InBatch;
      ghost var changes := batch.changes[..batch.n];
      ClearedNone(evs);
      assert changes[..0] == [];
      for k := 0 to batch.n
        invariant evs == Cleared(old(evs), changes[..k]) && evs.Keys == old(evs).Keys
      {
        var ev := batch.changes[k].ev;
        assert changes[..k + 1] == changes[..k] + [changes[k]];
        ClearedMore(old(evs), changes[..k], changes[k]);
        evs := evs[ev := evs[ev].(changing := false)];
      }
      assert changes[..batch.n] == changes;
    }

    /** nxt_devpoll_change_error() */
    method ChangeError(ev: nat)
      requires ev in evs
      modifies this
      ensures evs == old(evs)[ev := old(evs)[ev].(read := Inactive, write := Inactive)]
      ensures kernel == old(kernel)[ev := NO_BITS] && hash == old(hash) - {ev} && errors == old(errors) + 1
    {
      evs := evs[ev := evs[ev].(read := Inactive, write := Inactive)];
      errors := errors + 1;
      hash := hash - {ev};
      kernel := kernel[ev := NO_BITS];
    }

    /** The last loop of nxt_devpoll_commit_changes(). */
    method HashChanges()
      requires Valid()
      modifies this
      ensures var h := HashAll(old(hash), batch.changes[..batch.n]);
              && evs == Failed(old(evs), h.bad) && kernel == Dropped(old(kernel), h.bad)
              && hash == h.hash && errors == old(errors) + h.errors
    {
      hide Failed, Dropped, HashAll;
      ghost var changes := batch.changes[..batch.n];
      FailedNone(evs, kernel);
      HashNone(hash);
      assert changes[..0] == [];
      for k := 0 to batch.n
        invariant var h := HashAll(old(hash), changes[..k]);
                  && evs == Failed(old(evs), h.bad) && kernel == Dropped(old(kernel), h.bad)
                  && hash == h.hash && errors == old(errors) + h.errors
        invariant evs.Keys == old(evs).Keys
      {
        var c := batch.changes[k];
        assert changes[..k + 1] == changes[..k] + [c];
        HashMore(old(hash), changes[..k], c);
        if c.op == Add {
          if c.ev in hash {
            FailedMore(old(evs), old(kernel), HashAll(old(hash), changes[..k]).bad, c.ev);
            ChangeError(c.ev);
          } else {
            hash := hash + {c.ev};
          }
        } else if c.op == Delete {
          hash := hash - {c.ev};
        }
      }
      assert changes[..batch.n] == changes;
    }

    method CommitChanges()
      requires Valid()
      modifies this, batch, batch.writes
      ensures Valid() && Value() == Commit(old(Value()))
    {
      hide Failed, Dropped, HashAll, Cleared, KernelWrite, Buffer;
      ghost var s := Value();
      var count := batch.FillBuffer();
      ClearChanging();
      kernel := KernelWrite(kernel, batch.writes[..count]);
      ClearedKeys(s.evs, s.changes);
      HashChanges();
      batch.n := 0;
    }

    method Change(ev: nat, op: Op, bits: Bits)
      requires Valid() && ev in evs && batch.changes.Length >= 1
      modifies this, batch, batch.changes, batch.writes
      ensures Valid() && ev in evs && Value() == Changed(old(Value()), ev, op, bits)
    {
      hide Commit, EventOf;
      ghost var s := Value();
      if batch.n >= batch.changes.Length { CommitChanges(); }
      ghost var s' := Value();
      CommitKeys(s);
      evs := evs[ev := evs[ev].(changing := true)];
      batch.changes[batch.n] := Pending(op, bits, ev);
      batch.n := batch.n + 1;
      assert batch.changes[..batch.n] == s'.changes + [Pending(op, bits, ev)];
    }

    function Now(ev: nat): Event
      reads this
    {
      if ev in evs then evs[ev] else Event(Inactive, Inactive, false)
    }

    /** A call that writes the event, records a change, which may commit the batch, and writes the event again. */
    method Rewrite(ev: nat, before: Event, op: Op, bits: Bits, after: Event)
      requires Valid() && Inv(Value())
      modifies this, batch, batch.changes, batch.writes
      ensures Valid() && Value() == Record(old(Value()), ev, after, op, bits)
    {
      hide Inv, Record, Changed;
      HasRoom(Value());
      ChangedIsRecord(Value(), ev, before, after, op, bits);
      Mark(ev, before);
      Change(ev, op, bits);
      Mark(ev, after.(changing := true));
    }

    method Enable(ev: nat)
      requires Valid() && Inv(Value())
      modifies this, batch, batch.changes, batch.writes
      ensures Valid() && Value() == Next(old(Value()), CallEnable(ev))
    {
      hide Inv, Record;
      var e := Now(ev).(read := Active, write := Active);
      Rewrite(ev, e, Add, Bits(true, true), e);
    }

    method Disable(ev: nat)
      requires Valid() && Inv(Value())
      modifies this, batch, batch.changes, batch.writes
      ensures Valid() && Value() == Next(old(Value()), CallDisable(ev))
    {
      hide Inv, Record;
      if Now(ev).read != Inactive || Now(ev).write != Inactive {
        var e := Now(ev).(read := Inactive, write := Inactive);
        Rewrite(ev, e, Delete, NO_BITS, e);
      }
    }

    method EnableRead(ev: nat)
      requires Valid() && Inv(Value())
      modifies this, batch, batch.changes, batch.writes
      ensures Valid() && Value() == Next(old(Value()), CallEnableRead(ev))
    {
      hide Inv, Record;
      var e := Now(ev);
      if e.read == Blocked || IsActive(e.read) {
        Mark(ev, e.(read := Active));
      } else if e.write == Inactive {
        Rewrite(ev, e, Add, Bits(true, false), e.(read := Active));
      } else if e.write == Blocked {
        e := e.(write := Inactive);
        Rewrite(ev, e, Devpoll.Change, Bits(true, false), e.(read := Active));
      } else {
        Rewrite(ev, e, Update, Bits(true, true), e.(read := Active));
      }
    }

    method EnableWrite(ev: nat)
      requires Valid() && Inv(Value())
      modifies this, batch, batch.changes, batch.writes
      ensures Valid() && Value() == Next(old(Value()), CallEnableWrite(ev))
    {
      hide Inv, Record;
      var e := Now(ev);
      if e.write == Blocked || IsActive(e.write) {
        Mark(ev, e.(write := Active));
      } else if e.read == Inactive {
        Rewrite(ev, e, Add, Bits(false, true), e.(write := Active));
      } else if e.read == Blocked {
        e := e.(read := Inactive);
        Rewrite(ev, e, Devpoll.Change, Bits(false, true), e.(write := Active));
      } else {
        Rewrite(ev, e, Update, Bits(true, true), e.(write := Active));
      }
    }

    method OneshotRead(ev: nat)
      requires Valid() && Inv(Value())
      modifies this, batch, batch.changes, batch.writes
      ensures Valid() && Value() == Next(old(Value()), CallOneshotRead(ev))
    {
      hide Inv, Record;
      OneshotReadOver(Value(), ev);
      EnableRead(ev);
      Mark(ev, Now(ev).(read := Oneshot));
    }

    method OneshotWrite(ev: nat)
      requires Valid() && Inv(Value())
      modifies this, batch, batch.changes, batch.writes
      ensures Valid() && Value() == Next(old(Value()), CallOneshotWrite(ev))
    {
      hide Inv, Record;
      OneshotWriteOver(Value(), ev);
      EnableWrite(ev);
      Mark(ev, Now(ev).(write := Oneshot));
    }

    method DisableRead(ev: nat)
      requires Valid() && Inv(Value())
      modifies this, batch, batch.changes, batch.writes
      ensures Valid() && Value() == Next(old(Value()), CallDisableRead(ev))
    {
      hide Inv, Record;
      var e := Now(ev).(read := Inactive);
      if !IsActive(e.write) {
        e := e.(write := Inactive);
        Rewrite(ev, e, Delete, NO_BITS, e);
      } else {
        Rewrite(ev, e, Devpoll.Change, Bits(false, true), e);
      }
    }

    method DisableWrite(ev: nat)
      requires Valid() && Inv(Value())
      modifies this, batch, batch.changes, batch.writes
      ensures Valid() && Value() == Next(old(Value()), CallDisableWrite(ev))
    {
      hide Inv, Record;
      var e := Now(ev).(write := Inactive);
      if !IsActive(e.read) {
        e := e.(read := Inactive);
        Rewrite(ev, e, Delete, NO_BITS, e);
      } else {
        Rewrite(ev, e, Devpoll.Change, Bits(true, false), e);
      }
    }

    method BlockRead(ev: nat)
      requires Valid()
      modifies this`evs
      ensures Valid() && Value() == Next(old(Value()), CallBlockRead(ev))
    {
      if Now(ev).read != Inactive { Mark(ev, Now(ev).(read := Blocked)); }
    }

    method BlockWrite(ev: nat)
      requires Valid()
      modifies this`evs
      ensures Valid() && Value() == Next(old(Value()), CallBlockWrite(ev))
    {
      if Now(ev).write != Inactive { Mark(ev, Now(ev).(write := Blocked)); }
    }

    /** An event that is not changing has nothing in the batch, so there is nothing to take out. */
    method Cancel(ev: nat)
      requires Valid() && Inv(Value())
      modifies this`evs, batch, batch.changes
      ensures Valid() && Value() == Cancelled(old(Value()), ev)
    {
      hide Inv;
      CancelIs(Value(), ev);
      if !Now(ev).changing { return; }
      OthersWithin(batch.changes[..batch.n], ev);
      ghost var taken := Others(batch.changes[..batch.n], ev);
      batch.CancelChanges(ev);
      assert forall i :: 0 <= i < batch.n ==> taken[i] in taken && batch.changes[i] == taken[i];
      evs := evs[ev := evs[ev].(changing := false)];
    }
  }

  /** Without the changes of one event. */
  ghost function Cancelled(s: Engine, ev: nat): Engine {
    s.(changes := Others(s.changes, ev), evs := if ev in s.evs then s.evs[ev := s.evs[ev].(changing := false)] else s.evs)
  }

  lemma CancelIs(s: Engine, ev: nat)
    requires Inv(s)
    ensures !EventOf(s, ev).changing ==> Cancelled(s, ev) == s
  {
    assert InSync(s, ev);
    if !EventOf(s, ev).changing { NotInBatch(s.changes, ev); }
  }

  lemma {:induction false} OthersInBatch(changes: seq<Pending>, ev: nat, x: nat)
    requires x != ev
    ensures InBatch(Others(changes, ev), x) <==> InBatch(changes, x)
  {
    hide InBatch;
    if changes != [] {
      var rest, c := changes[..|changes| - 1], changes[|changes| - 1];
      OthersInBatch(rest, ev, x);
      assert rest + [c] == changes;
      InBatchMore(rest, c, x);
      if c.ev == ev {
        assert Others(rest, ev) + [] == Others(rest, ev);
      } else {
        InBatchMore(Others(rest, ev), c, x);
      }
    }
  }

  /** The other events stay in step with the kernel, and none of the changes left is the event's. */
  lemma CancelKeepsOthers(s: Engine, ev: nat, x: nat)
    requires Inv(s) && x != ev
    ensures InSync(Cancelled(s, ev), x) && !InBatch(Cancelled(s, ev).changes, ev)
  {
    assert InSync(s, x);
    hide KernelWrite, HashAll, Buffer;
    CancelLeavesOthers(s.kernel, s.hash, s.changes, ev, x);
    OthersInBatch(s.changes, ev, x);
  }

  lemma HasRoom(s: Engine)
    requires Inv(s)
    ensures s.limit >= 1
  {
  }

  lemma OneshotReadOver(s: Engine, ev: nat)
    ensures var s' := EnableRead(s, ev, Active); Set(s', ev, EventOf(s', ev).(read := Oneshot)) == EnableRead(s, ev, Oneshot)
  {
    hide Record;
    var e := EventOf(s, ev);
    RecordOver(s, ev, e.(read := Active), e.(read := Oneshot), Add, Bits(true, false));
    RecordOver(s, ev, e.(read := Active), e.(read := Oneshot), Update, Bits(true, true));
    e := e.(write := Inactive);
    RecordOver(s, ev, e.(read := Active), e.(read := Oneshot), Change, Bits(true, false));
  }

  lemma OneshotWriteOver(s: Engine, ev: nat)
    ensures var s' := EnableWrite(s, ev, Active); Set(s', ev, EventOf(s', ev).(write := Oneshot)) == EnableWrite(s, ev, Oneshot)
  {
    hide Record;
    var e := EventOf(s, ev);
    RecordOver(s, ev, e.(write := Active), e.(write := Oneshot), Add, Bits(false, true));
    RecordOver(s, ev, e.(write := Active), e.(write := Oneshot), Update, Bits(true, true));
    e := e.(read := Inactive);
    RecordOver(s, ev, e.(write := Active), e.(write := Oneshot), Change, Bits(false, true));
  }

  lemma {:induction false} NotInBatch(changes: seq<Pending>, ev: nat)
    requires !InBatch(changes, ev)
    ensures Others(changes, ev) == changes
  {
    if changes != [] {
      var rest := changes[..|changes| - 1];
      forall i | 0 <= i < |rest| ensures rest[i].ev != ev { assert rest[i] == changes[i]; }
      NotInBatch(rest, ev);
      assert rest + [changes[|changes| - 1]] == changes;
    }
  }

  lemma {:induction false} OthersWithin(changes: seq<Pending>, ev: nat)
    ensures forall c :: c in Others(changes, ev) ==> c in changes
  {
    if changes != [] { OthersWithin(changes[..|changes| - 1], ev); }
  }

  lemma HashNone(hash: set<nat>)
    ensures HashAll(hash, []) == Hashed(hash, {}, 0)
  {
  }

  lemma ClearedKeys(evs: map<nat, Event>, changes: seq<Pending>)
    ensures Cleared(evs, changes).Keys == evs.Keys
  {
  }

  lemma CommitKeys(s: Engine)
    ensures Commit(s).evs.Keys == s.evs.Keys && Commit(s).changes == [] && Commit(s).limit == s.limit
  {
  }
}
