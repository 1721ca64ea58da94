/** Closing a connection: src/nxt_conn_close.c. */
module ConnClose {
  import opened Bytes

  /** The fields that closing looks at or sets; the open descriptor is one that the kernel knows. */
  datatype Fields = Fields(open: bool, closing: bool, blockRead: bool, shutdown: bool, error: bool, peerClosed: bool)

  /** Work items and the zero timer that are on their way, and what was done so far. */
  datatype Pending = Pending(shutdowns: nat, closes: nat, timers: nat)
  datatype Done = Done(fdCloses: nat, untracks: nat, releases: nat)

  datatype Conn = Conn(f: Fields, p: Pending, done: Done)

  datatype Action =
    | Close
    | PeerEvent(error: bool, peerClosed: bool)
    | RunShutdown
    | RunClose(eventsPending: bool, timersPending: bool)
    | RunTimer

  /** nxt_conn_close() */
  function CloseStep(c: Conn): Conn {
    if c.f.closing then c
    else
      var f := c.f.(closing := true, blockRead := true);
      if !f.error && !f.peerClosed && !f.shutdown then Conn(f, c.p.(shutdowns := c.p.shutdowns + 1), c.done)
      else Conn(f, c.p.(closes := c.p.closes + 1), c.done)
  }

  /** nxt_conn_shutdown_handler() */
  function ShutdownStep(c: Conn): Conn {
    if c.p.shutdowns == 0 then c
    else Conn(c.f.(shutdown := true), c.p.(shutdowns := c.p.shutdowns - 1, closes := c.p.closes + 1), c.done)
  }

  function FdClosed(c: Conn): Conn {
    c.(f := c.f.(open := false), done := c.done.(fdCloses := c.done.fdCloses + 1, untracks := c.done.untracks + 1))
  }

  /** nxt_conn_close_handler() */
  function CloseHandlerStep(c: Conn, eventsPending: bool, timersPending: bool): Conn {
    if c.p.closes == 0 then c
    else
      var c1 := c.(p := c.p.(closes := c.p.closes - 1));
      var c2 := if eventsPending then c1 else FdClosed(c1);
      if !eventsPending && !timersPending then c2.(done := c2.done.(releases := c2.done.releases + 1))
      else c2.(p := c2.p.(timers := c2.p.timers + 1))
  }

  /** nxt_conn_close_timer_handler() */
  function TimerHandlerStep(c: Conn): Conn {
    if c.p.timers == 0 then c
    else
      var c1 := c.(p := c.p.(timers := c.p.timers - 1));
      var c2 := if c1.f.open then FdClosed(c1) else c1;
      c2.(done := c2.done.(releases := c2.done.releases + 1))
  }

  function Next(c: Conn, a: Action): Conn {
    match a
    case Close => CloseStep(c)
    case PeerEvent(error, peerClosed) => c.(f := c.f.(error := c.f.error || error, peerClosed := c.f.peerClosed || peerClosed))
    case RunShutdown => ShutdownStep(c)
    case RunClose(eventsPending, timersPending) => CloseHandlerStep(c, eventsPending, timersPending)
    case RunTimer => TimerHandlerStep(c)
  }

  function One(b: bool): nat { if b then 1 else 0 }

  /** Exactly one token stands for a requested close: a work item, the timer, or the queued release. */
  ghost predicate Inv(c: Conn) {
    && c.p.shutdowns + c.p.closes + c.p.timers + c.done.releases == One(c.f.closing)
    && c.done.fdCloses == c.done.untracks == One(!c.f.open)
    && (c.p.shutdowns + c.p.closes > 0 ==> c.f.open)
    && (c.done.releases > 0 ==> !c.f.open)
    && (c.f.closing ==> c.f.blockRead)
    && (!c.f.open ==> c.f.closing)
  }

  lemma NextKeeps(c: Conn, a: Action)
    requires Inv(c)
    ensures Inv(Next(c, a))
  {
  }

  function Run(c: Conn, actions: seq<Action>): Conn
    decreases |actions|
  {
    if actions == [] then c else Run(Next(c, actions[0]), actions[1..])
  }

  lemma {:induction false} RunKeeps(c: Conn, actions: seq<Action>)
    requires Inv(c)
    ensures Inv(Run(c, actions)) && (c.f.closing ==> Run(c, actions).f.closing)
    decreases |actions|
  {
    if actions != [] {
      NextKeeps(c, actions[0]);
      RunKeeps(Next(c, actions[0]), actions[1..]);
    }
  }

  function Opened(): Conn {
    Conn(Fields(true, false, false, false, false, false), Pending(0, 0, 0), Done(0, 0, 0))
  }

  /**
    However often and whenever close is requested, the descriptor is closed at most once, the connection is
    untracked exactly then, and the release handler is queued at most once, after the descriptor was
    closed; and once close was requested, something is on its way until the release is queued.
   */
  lemma ClosedOnce(actions: seq<Action>)
    ensures var c := Run(Opened(), actions);
            && c.done.fdCloses <= 1 && c.done.releases <= 1 && c.done.untracks == c.done.fdCloses
            && (c.done.releases == 1 ==> c.done.fdCloses == 1 && !c.f.open)
            && (c.f.closing && c.done.releases == 0 ==> c.p.shutdowns + c.p.closes + c.p.timers == 1)
            && (c.done.fdCloses == 1 ==> c.f.closing)
  {
    RunKeeps(Opened(), actions);
  }

  /** A close request is never lost: if what is on its way runs, the release is queued in at most three turns. */
  lemma CloseCompletes(c: Conn, eventsPending: bool, timersPending: bool)
    requires Inv(c)
    ensures Run(c, [Close, RunShutdown, RunClose(eventsPending, timersPending), RunTimer]).done.releases == 1
  {
    var c0, c1 := c, CloseStep(c);
    var c2 := ShutdownStep(c1);
    var c3 := CloseHandlerStep(c2, eventsPending, timersPending);
    var c4 := TimerHandlerStep(c3);
    NextKeeps(c, Close);
    NextKeeps(c1, RunShutdown);
    NextKeeps(c2, RunClose(eventsPending, timersPending));
    assert c2.p.shutdowns == 0 && c3.p.closes == 0;
    var s := [Close, RunShutdown, RunClose(eventsPending, timersPending), RunTimer];
    assert s[1..] == [RunShutdown, RunClose(eventsPending, timersPending), RunTimer];
    assert s[1..][1..] == [RunClose(eventsPending, timersPending), RunTimer];
    assert s[1..][1..][1..] == [RunTimer];
    assert s[1..][1..][1..][1..] == [];
    assert Run(c, s) == Run(c1, s[1..]) == Run(c2, s[1..][1..]) == Run(c3, s[1..][1..][1..]) == Run(c4, []);
  }

  /** The handlers as the source has them, on the fields of a connection. */
  class Connection {
    var open: bool
    var closing: bool
    var blockRead: bool
    var shutdown: bool
    var error: bool
    var peerClosed: bool
    var queued: Pending
    ghost var done: Done

    ghost function State(): Conn
      reads this
    {
      Conn(Fields(open, closing, blockRead, shutdown, error, peerClosed), queued, done)
    }

    constructor ()
      ensures State() == Opened()
    {
      open, closing, blockRead, shutdown, error, peerClosed := true, false, false, false, false, false;
      queued, done := Pending(0, 0, 0), Done(0, 0, 0);
    }

    method Close()
      modifies this
      ensures State() == Next(old(State()), Action.Close)
      ensures Inv(old(State())) ==> Inv(State())
    {
      if closing { return; }
      closing := true;
      blockRead := true;
      if !error && !peerClosed && !shutdown {
        queued := queued.(shutdowns := queued.shutdowns + 1);
      } else {
        queued := queued.(closes := queued.closes + 1);
      }
    }

    method OnShutdown()
      requires queued.shutdowns > 0
      modifies this
      ensures State() == Next(old(State()), RunShutdown)
      ensures Inv(old(State())) ==> Inv(State())
    {
      queued := queued.(shutdowns := queued.shutdowns - 1);
      shutdown := true;
      queued := queued.(closes := queued.closes + 1);
    }

    method CloseSocket()
      modifies this`open, this`done
      ensures State() == FdClosed(old(State()))
    {
      open := false;
      done := done.(fdCloses := done.fdCloses + 1, untracks := done.untracks + 1);
    }

    method OnClose(eventsPending: bool, timersPending: bool)
      requires queued.closes > 0
      modifies this
      ensures State() == Next(old(State()), RunClose(eventsPending, timersPending))
      ensures Inv(old(State())) ==> Inv(State())
    {
      queued := queued.(closes := queued.closes - 1);
      if !eventsPending {
        CloseSocket();
        if !timersPending {
          done := done.(releases := done.releases + 1);
          return;
        }
      }
      queued := queued.(timers := queued.timers + 1);
    }

    method OnTimer()
      requires queued.timers > 0
      modifies this
      ensures State() == Next(old(State()), RunTimer)
      ensures Inv(old(State())) ==> Inv(State())
    {
      queued := queued.(timers := queued.timers - 1);
      if open { CloseSocket(); }
      done := done.(releases := done.releases + 1);
    }
  }
}
