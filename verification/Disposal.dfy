/**
 Disposing a client. Dispose clears the client's subscriptions, and so does the hub's listener for
 the disconnection that Dispose itself causes; but the channel for clears holds one, and the loop
 that empties it has been told to end. Does the removal from the hub ever happen?
 */
module Disposal {

  /** The client's publish/subscribe loop: waiting in its select, inside one of its cases, or gone. */
  datatype Loop = Parked | Busy | Exited

  /** The connection: open, being closed by its own goroutine, whose disconnect listener has yet to
      clear, or closed. Close holds the connection's lock until its listener has returned. */
  datatype Conn = Open | Notifying | Closed

  /** What Dispose finds: the loop, whether a clear is waiting in the channel, the connection, and
      whether a disconnection is listened to, which the UDP hub does not do. */
  datatype Situation = Situation(loop: Loop, pending: bool, conn: Conn, listens: bool)

  /** Where Dispose is: before the cancellation, the clear, the close; in the disconnect listener,
      before its clear; before OnDispose; past it. */
  datatype Phase = Begun | Cancelled | Cleared | Informing | Ready | Raised

  datatype State = State(loop: Loop, pending: bool, conn: Conn, listens: bool, done: bool, phase: Phase)

  datatype Event =
    | Cancel | Clear | CloseConn | Inform | Raise   // Dispose
    | ReaderCloses | ReaderClears                   // the connection's own goroutine
    | LoopWakes | LoopTakes | LoopExits | LoopParks // the loop

  /** A context that is not done keeps the loop alive, a parked loop has nothing to take, and only a
      listener delays a close. */
  predicate Possible(sit: Situation) {
    !sit.loop.Exited? && (sit.loop.Parked? ==> !sit.pending) && (sit.conn.Notifying? ==> sit.listens)
  }

  function Start(sit: Situation): State {
    State(sit.loop, sit.pending, sit.conn, sit.listens, false, Begun)
  }

  // ---- one step ----

  /** ClearAllSubTopics blocks while a clear is waiting. */
  function Send(s: State): State
    requires !s.pending
  {
    if s.loop.Parked? then s.(loop := Busy) else s.(pending := true)
  }

  predicate Can(s: State, ev: Event) {
    match ev
    case Cancel => s.phase.Begun?
    case Clear => s.phase.Cancelled? && !s.pending
    case CloseConn => s.phase.Cleared? && !s.conn.Notifying?
    case Inform => s.phase.Informing? && !s.pending
    case Raise => s.phase.Ready?
    case ReaderCloses => s.conn.Open?
    case ReaderClears => s.conn.Notifying? && !s.pending
    case LoopWakes => s.loop.Parked?
    case LoopTakes => s.loop.Busy? && s.pending
    case LoopExits => s.loop.Busy? && s.done
    case LoopParks => s.loop.Busy? && !s.done && !s.pending
  }

  function Do(s: State, ev: Event): State
    requires Can(s, ev)
  {
    match ev
    case Cancel => s.(done := true, loop := if s.loop.Parked? then Exited else s.loop, phase := Cancelled)
    case Clear => Send(s).(phase := Cleared)
    case CloseConn =>
      if s.conn.Open? && s.listens then s.(conn := Closed, phase := Informing) else s.(conn := Closed, phase := Ready)
    case Inform => Send(s).(phase := Ready)
    case Raise => s.(phase := Raised)
    case ReaderCloses => s.(conn := if s.listens then Notifying else Closed)
    case ReaderClears => Send(s).(conn := Closed)
    case LoopWakes => s.(loop := Busy)
    case LoopTakes => s.(pending := false)
    case LoopExits => s.(loop := Exited)
    case LoopParks => s.(loop := Parked)
  }

  ghost predicate Reaches(s: State, evs: seq<Event>, s1: State)
    decreases |evs|
  {
    if evs == [] then s == s1 else Can(s, evs[0]) && Reaches(Do(s, evs[0]), evs[1..], s1)
  }

  /** Every step of the schedule can be taken. */
  ghost predicate Feasible(s: State, evs: seq<Event>)
    decreases |evs|
  {
    evs == [] || (Can(s, evs[0]) && Feasible(Do(s, evs[0]), evs[1..]))
  }

  /** A schedule that goes on until OnDispose is raised or never will be. */
  ghost predicate Complete(s: State, evs: seq<Event>) {
    Feasible(s, evs) && exists s1 :: Reaches(s, evs, s1) && (s1.phase.Raised? || !MayRaise(s1))
  }

  method Play(s: State, evs: seq<Event>) returns (s1: State)
    requires Feasible(s, evs)
    ensures Reaches(s, evs, s1)
  {
    s1 := s;
    var i := 0;
    while i < |evs|
      invariant 0 <= i <= |evs| && Feasible(s1, evs[i..])
      invariant forall t :: Reaches(s1, evs[i..], t) ==> Reaches(s, evs, t)
    {
      assert evs[i..][0] == evs[i] && evs[i..][1..] == evs[i + 1..];
      s1 := Do(s1, evs[i]);
      i := i + 1;
    }
    assert Reaches(s1, evs[i..], s1);
  }

  lemma {:induction false} OneEnd(s: State, evs: seq<Event>, s1: State, s2: State)
    requires Reaches(s, evs, s1) && Reaches(s, evs, s2)
    ensures s1 == s2
    decreases |evs|
  {
    if evs != [] { OneEnd(Do(s, evs[0]), evs[1..], s1, s2); }
  }

  /** Some schedule from here gets Dispose to raise OnDispose. */
  ghost predicate MayRaise(s: State) {
    exists evs, s1 :: Reaches(s, evs, s1) && s1.phase.Raised?
  }

  /** Some schedule leads to where none does any more. */
  ghost predicate MayHang(s: State) {
    exists evs, s1 :: Reaches(s, evs, s1) && !MayRaise(s1)
  }

  // ---- counting clears ----

  /** The clears that are still to be sent before OnDispose is raised. */
  function Outstanding(s: State): nat {
    (if s.phase.Begun? || s.phase.Cancelled? || s.phase.Informing? then 1 else 0)
    + (if s.listens && !s.conn.Closed? then 1 else 0)
  }

  function Debt(s: State): nat {
    Outstanding(s) + (if s.pending then 1 else 0)
  }

  ghost predicate Inv(s: State) {
    && (s.loop.Parked? ==> !s.pending && !s.done)
    && (s.loop.Exited? ==> s.done)
    && (s.phase.Begun? <==> !s.done)
    && (s.phase.Informing? || s.phase.Ready? || s.phase.Raised? ==> s.conn.Closed?)
    && (s.conn.Notifying? ==> s.listens)
  }

  /** Only the loop pays clears off; once it is gone the debt stands. */
  lemma DebtStep(s: State, ev: Event)
    requires Inv(s) && Can(s, ev)
    ensures Inv(Do(s, ev)) && Debt(Do(s, ev)) <= Debt(s)
    ensures s.loop.Exited? ==> Do(s, ev).loop.Exited? && Debt(Do(s, ev)) == Debt(s)
  {
  }

  lemma {:induction false} DebtRun(s: State, evs: seq<Event>, s1: State)
    requires Inv(s) && Reaches(s, evs, s1)
    ensures Inv(s1) && Debt(s1) <= Debt(s)
    ensures s.loop.Exited? ==> s1.loop.Exited? && Debt(s1) == Debt(s)
    decreases |evs|
  {
    if evs != [] {
      DebtStep(s, evs[0]);
      DebtRun(Do(s, evs[0]), evs[1..], s1);
    }
  }

  lemma Next(s: State, ev: Event)
    requires Can(s, ev) && MayRaise(Do(s, ev))
    ensures MayRaise(s)
  {
    var evs, s1 :| Reaches(Do(s, ev), evs, s1) && s1.phase.Raised?;
    var all := [ev] + evs;
    assert all[0] == ev && all[1..] == evs;
    assert Reaches(s, all, s1);
  }

  /** How far Dispose still is from its end. */
  function Distance(s: State): nat {
    (match s.phase
     case Begun => 10 case Cancelled => 8 case Cleared => 6 case Informing => 4 case Ready => 2 case Raised => 0)
    + (if s.pending then 1 else 0) + (if s.conn.Notifying? then 2 else 0)
  }

  /** While the loop lives, or when at most one clear is to be stored, Dispose gets to its end. */
  lemma {:induction false} Finishes(s: State)
    requires Inv(s) && (s.loop.Exited? ==> Debt(s) <= 1)
    ensures MayRaise(s)
    decreases Distance(s), if s.loop.Parked? then 1 else 0
  {
    if s.phase.Raised? {
      assert Reaches(s, [], s);
      return;
    }
    var ev :=
      if s.loop.Parked? then LoopWakes
      else if s.pending && s.loop.Busy? then LoopTakes
      else if s.conn.Notifying? then ReaderClears
      else match s.phase
        case Begun => Cancel
        case Cancelled => Clear
        case Cleared => CloseConn
        case Informing => Inform
        case _ => Raise;
    assert Can(s, ev);
    DebtStep(s, ev);
    Finishes(Do(s, ev));
    Next(s, ev);
  }

  /** With the loop gone and two clears to store, nobody will ever raise OnDispose. */
  lemma Stuck(s: State)
    requires Inv(s) && s.loop.Exited? && Debt(s) > 1
    ensures !MayRaise(s)
  {
    forall evs, s1 | Reaches(s, evs, s1) ensures !s1.phase.Raised? {
      DebtRun(s, evs, s1);
    }
  }

  /** From any moment of a disposal: OnDispose can still be raised exactly while the loop lives or
      at most one clear remains to be stored. */
  lemma RaiseExactly(s: State)
    requires Inv(s)
    ensures MayRaise(s) <==> !s.loop.Exited? || Debt(s) <= 1
  {
    if s.loop.Exited? && Debt(s) > 1 { Stuck(s); } else { Finishes(s); }
  }

  /** Nothing has been sent yet, and no disconnection will make the listener send. */
  predicate Safe(sit: Situation) {
    !sit.pending && (sit.conn.Closed? || !sit.listens)
  }

  /** Dispose reaches OnDispose whatever the schedule exactly when no clear is waiting and the
      connection is closed already, or nobody listens to its closing. */
  lemma HangExactly(sit: Situation)
    requires Possible(sit)
    ensures MayHang(Start(sit)) <==> !Safe(sit)
    ensures MayRaise(Start(sit))
  {
    var s := Start(sit);
    Finishes(s);
    if Safe(sit) {
      forall evs, s1 | Reaches(s, evs, s1) ensures MayRaise(s1) {
        DebtRun(s, evs, s1);
        RaiseExactly(s1);
      }
    } else {
      var evs := if sit.loop.Parked? then [Cancel] else [Cancel, LoopExits];
      var s1 := Do(s, Cancel);
      var s2 := if sit.loop.Parked? then s1 else Do(s1, LoopExits);
      assert Reaches(s1, evs[1..], s2) by {
        if !sit.loop.Parked? { assert evs[1..][0] == LoopExits && evs[1..][1..] == []; }
      }
      assert Reaches(s, evs, s2);
      DebtRun(s, evs, s2);
      Stuck(s2);
    }
  }

  /** As long as nobody disposes of the client, its loop can take what is waiting and go back to its
      select, whatever has become of the connection. */
  lemma LoopReturns(s: State) returns (evs: seq<Event>, s1: State)
    requires Inv(s) && !s.done
    ensures Reaches(s, evs, s1) && s1 == s.(loop := Parked, pending := false)
  {
    var taken := if s.pending then [LoopTakes] else [];
    evs := taken + (if s.loop.Parked? then [] else [LoopParks]);
    if s.loop.Parked? {
      s1 := s;
    } else {
      var s2 := if s.pending then Do(s, LoopTakes) else s;
      s1 := Do(s2, LoopParks);
      assert [LoopParks][1..] == [] && Reaches(s2, [LoopParks], s1);
      if s.pending { assert evs[0] == LoopTakes && evs[1..] == [LoopParks]; } else { assert evs == [LoopParks]; }
    }
  }

  /** If the connection closes of itself before anybody disposes of the client, the loop takes the
      listener's clear and the disposal will return. */
  lemma ClosesInTime(sit: Situation) returns (evs: seq<Event>, s1: State)
    requires Possible(sit) && sit.conn.Open? && !sit.pending
    ensures Reaches(Start(sit), evs, s1) && s1.phase.Begun? && s1.conn.Closed? && !MayHang(s1)
  {
    var s := Start(sit);
    evs := if !sit.listens then [ReaderCloses]
           else if sit.loop.Parked? then [ReaderCloses, ReaderClears]
           else [ReaderCloses, ReaderClears, LoopTakes];
    s1 := Do(s, ReaderCloses);
    if sit.listens {
      var s2 := Do(s1, ReaderClears);
      var s3 := if sit.loop.Parked? then s2 else Do(s2, LoopTakes);
      assert Reaches(s2, evs[2..], s3) by {
        if !sit.loop.Parked? { assert evs[2..][0] == LoopTakes && evs[2..][1..] == []; }
      }
      assert evs[1..][0] == ReaderClears && evs[1..][1..] == evs[2..];
      assert Reaches(s1, evs[1..], s3);
      s1 := s3;
    } else {
      assert evs[1..] == [];
    }
    HangExactly(Situation(s1.loop, false, Closed, sit.listens));
  }

  /** In the usual case, an idle loop and an open connection of a TCP or WebSocket hub, every
      schedule that begins with the cancellation hangs. */
  lemma IdleAlwaysHangs(sit: Situation, evs: seq<Event>, s1: State)
    requires Possible(sit) && sit.loop.Parked? && !sit.conn.Closed? && sit.listens
    requires evs != [] && evs[0] == Cancel && Reaches(Start(sit), evs, s1)
    ensures !MayRaise(s1)
  {
    var s := Do(Start(sit), Cancel);
    DebtRun(s, evs[1..], s1);
    Stuck(s1);
  }
}
