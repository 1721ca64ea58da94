/** Idle and active connections of an engine, and their counters: the macros of src/nxt_conn.h. */
module ConnTrack {
  import opened Links

  datatype Track = NoTrack | IdleTrack | ActiveTrack

  datatype Action = AcceptConn(c: nat) | Activate(c: nat) | BackToIdle(c: nat) | Detach(c: nat)

  class Tracker {
    var idle: seq<nat>
    var active: seq<nat>
    var track: map<nat, Track>
    var accepted: nat
    var closed: nat
    var idleCount: nat

    function Of(c: nat): Track
      reads this
    {
      if c in track then track[c] else NoTrack
    }

    /** The tri-state field of every connection says which queue it is on, once. */
    ghost predicate Linked()
      reads this
    {
      && NoDup(idle) && NoDup(active)
      && (forall c :: c in idle <==> Of(c) == IdleTrack)
      && (forall c :: c in active <==> Of(c) == ActiveTrack)
      && idleCount == |idle|
    }

    ghost predicate Balanced()
      reads this
    {
      accepted == closed + |idle| + |active|
    }

    constructor ()
      ensures Linked() && Balanced() && idle == [] && active == []
    {
      idle, active, track, accepted, closed, idleCount := [], [], map[], 0, 0, 0;
    }

    /** nxt_conn_idle(): the counters stay balanced exactly when the connection was tracked. */
    method MakeIdle(c: nat)
      requires Linked()
      modifies this
      ensures Linked() && Of(c) == IdleTrack && accepted == old(accepted) && closed == old(closed)
      ensures forall x :: x != c ==> Of(x) == old(Of(x))
      ensures |idle| + |active| == old(|idle| + |active|) + if old(Of(c)) == NoTrack then 1 else 0
      ensures old(Balanced()) ==> (Balanced() <==> old(Of(c)) != NoTrack)
    {
      if Of(c) != IdleTrack {
        forall x ensures x in Unlink(active, c) <==> x in active && x != c { UnlinkIs(active, c, x); }
        UnlinkNoDup(active, c);
        UnlinkIs(active, c, c);
        if Of(c) == ActiveTrack { active := Unlink(active, c); }
        idle := [c] + idle;
        track := track[c := IdleTrack];
        idleCount := idleCount + 1;
      }
    }

    /** The counting part of nxt_conn_accept(). */
    method Accept(c: nat)
      requires Linked() && Of(c) == NoTrack
      modifies this
      ensures Linked() && Of(c) == IdleTrack && accepted == old(accepted) + 1 && closed == old(closed)
      ensures forall x :: x != c ==> Of(x) == old(Of(x))
      ensures Balanced() <==> old(Balanced())
    {
      accepted := accepted + 1;
      MakeIdle(c);
    }

    /** nxt_conn_active(): only an idle connection moves. */
    method MakeActive(c: nat)
      requires Linked()
      modifies this
      ensures Linked() && accepted == old(accepted) && closed == old(closed)
      ensures forall x :: Of(x) == if x == c && old(Of(c)) == IdleTrack then ActiveTrack else old(Of(x))
      ensures Balanced() <==> old(Balanced())
    {
      if Of(c) == IdleTrack {
        forall x ensures x in Unlink(idle, c) <==> x in idle && x != c { UnlinkIs(idle, c, x); }
        UnlinkNoDup(idle, c);
        UnlinkIs(idle, c, c);
        idle := Unlink(idle, c);
        idleCount := idleCount - 1;
        active := [c] + active;
        track := track[c := ActiveTrack];
      }
    }

    /** nxt_conn_untrack(): a connection is counted as closed once, however often this is called. */
    method Untrack(c: nat)
      requires Linked()
      modifies this
      ensures Linked() && Of(c) == NoTrack && accepted == old(accepted)
      ensures closed == old(closed) + if old(Of(c)) == NoTrack then 0 else 1
      ensures forall x :: x != c ==> Of(x) == old(Of(x))
      ensures Balanced() <==> old(Balanced())
    {
      if Of(c) != NoTrack {
        forall x ensures x in Unlink(idle, c) <==> x in idle && x != c { UnlinkIs(idle, c, x); }
        forall x ensures x in Unlink(active, c) <==> x in active && x != c { UnlinkIs(active, c, x); }
        UnlinkNoDup(idle, c);
        UnlinkNoDup(active, c);
        UnlinkIs(idle, c, c);
        UnlinkIs(active, c, c);
        if Of(c) == IdleTrack {
          idle := Unlink(idle, c);
          idleCount := idleCount - 1;
        } else {
          active := Unlink(active, c);
        }
        track := track[c := NoTrack];
        closed := closed + 1;
      }
    }

    /**
      Any sequence of accepts, activations, returns to idle and closes: a struct is accepted while it is not
      tracked, and only a tracked connection goes back to idle.
     */
    method Replay(actions: seq<Action>)
      requires Linked() && Balanced()
      modifies this
      ensures Linked() && Balanced()
    {
      for i := 0 to |actions|
        invariant Linked() && Balanced()
      {
        match actions[i] {
          case AcceptConn(c) => if Of(c) == NoTrack { Accept(c); }
          case Activate(c) => MakeActive(c);
          case BackToIdle(c) => if Of(c) != NoTrack { MakeIdle(c); }
          case Detach(c) => Untrack(c);
        }
      }
    }
  }
}
