/**
 The way in: what receiveMessage lets through, that what it lets through is dispatched in order and
 exactly once, that no dispatched request is ignored, and what can always get through.
 */
module Admission {
  import opened Basics
  import opened Endpoint
  import opened Connection
  import Workers

  // ---- the gate ----

  /** In LOGINED and DISCONNECT everything passes; before the secret is in force only the exchange,
      before the login only exchange and login, with the acknowledgements and responses of both. */
  predicate LetIn(state: ConnState, pkt: Packet) {
    match pkt
    case Request(_, ExchangeSecret, _) => true
    case Request(_, Login, _) => state != Connected
    case Request(_, OtherMethod(_), _) => state == Logined || state == Disconnected
    case Notice(_, _) => state == Logined || state == Disconnected
    case Ack(_) => true
    case Response(_, _, _) => true
  }

  /** A received packet is kept exactly if it may pass, and leaves no trace otherwise. */
  lemma ReceivedExactly(e: Endpoint, pkt: Packet)
    requires CanNet(e, Receive(pkt))
    ensures e.reading == None
    ensures NetStep(e, Receive(pkt)) == if LetIn(e.state, pkt) then e.(reading := Some(pkt)) else e
  {
  }

  // ---- first in, first out ----

  ghost function DispatchedIn(log: seq<Mark>): seq<Packet> {
    if |log| == 0 then []
    else
      var m := log[|log| - 1];
      DispatchedIn(log[..|log| - 1]) + (if m.Dispatched? then [m.pkt] else [])
  }

  /** What has been let in so far: dispatched, queued, or on its way into the queue. */
  ghost function Flow(e: Endpoint): seq<Packet> {
    DispatchedIn(e.log) + e.rxQueue + (if e.reading.Some? then [e.reading.value] else [])
  }

  ghost function PassingNow(e: Endpoint, ev: Event): seq<Packet> {
    if ev.Net? && ev.n.Receive? && LetIn(e.state, ev.n.pkt) then [ev.n.pkt] else []
  }

  /** What one side lets in during a run, in the order of arrival. */
  ghost function Passing(s: System, acts: seq<Action>, side: Side): seq<Packet>
    decreases |acts|
  {
    if acts == [] || !Can(s, acts[0]) then []
    else
      (if acts[0].side == side then PassingNow(At(s, side), acts[0].ev) else [])
      + Passing(Do(s, acts[0]), acts[1..], side)
  }

  lemma DispatchedSnoc(log: seq<Mark>, m: Mark)
    ensures DispatchedIn(log + [m]) == DispatchedIn(log) + (if m.Dispatched? then [m.pkt] else [])
  {
    assert (log + [m])[..|log|] == log;
  }

  /** Only the dispatcher makes marks of dispatched packets and of started workers. */
  ghost predicate Quiet(log: seq<Mark>, log1: seq<Mark>) {
    log <= log1 && forall i :: |log| <= i < |log1| ==> !log1[i].Dispatched? && !log1[i].Started?
  }

  lemma QuietChange(e: Endpoint, to: ConnState, cause: Cause)
    ensures Quiet(e.log, ChangeState(e, to, cause).log)
  {
  }

  lemma QuietStep(e: Endpoint, ev: Event)
    requires Enabled(e, ev) && ev != Net(Deliver)
    ensures Quiet(e.log, Step(e, ev).log)
  {
    match ev
    case Net(n) => NetFrame(e, n);
    case Calling(_, _) =>
    case Working(k, w) => QuietWork(e, k, w);
    case Control(t) => QuietControl(e, t);
  }

  lemma QuietWork(e: Endpoint, k: nat, w: WorkEvent)
    requires CanWork(e, k, w)
    ensures Quiet(e.log, WorkStep(e, k, w).log)
  {
    if w.Settle? {
      var e1 := e.(threads := e.threads[k := Worker(e.threads[k].req, Leaving)]);
      QuietChange(e1, ExchangedSecret, ByWorker(e.threads[k].req, e.disposed));
      QuietChange(e1, Logined, ByWorker(e.threads[k].req, e.disposed));
    }
  }

  lemma QuietControl(e: Endpoint, t: ControlEvent)
    requires CanControl(e, t)
    ensures Quiet(e.log, ControlStep(e, t).log)
  {
    QuietChange(e, Connected, ByUser);
    QuietChange(e, Disconnected, ByUser);
    QuietChange(e, Logined, ByUser);
    QuietChange(e, ExchangedSecret, ByUser);
  }

  lemma {:induction false} QuietDispatched(log: seq<Mark>, log1: seq<Mark>)
    requires Quiet(log, log1)
    ensures DispatchedIn(log1) == DispatchedIn(log)
    decreases |log1|
  {
    if |log1| == |log| {
      assert log1 == log;
    } else {
      var before := log1[..|log1| - 1];
      assert Quiet(log, before) && log1 == before + [log1[|log1| - 1]];
      QuietDispatched(log, before);
    }
  }

  lemma DeliverLog(e: Endpoint)
    requires CanNet(e, Deliver)
    ensures DispatchedIn(Dispatch(e).log) == DispatchedIn(e.log) + [e.rxQueue[0]]
  {
    var pkt := e.rxQueue[0];
    DispatchedSnoc(e.log, Dispatched(pkt));
    DispatchedSnoc(e.log + [Dispatched(pkt)], Started(pkt.id));
  }

  lemma Shift<T>(a: seq<T>, b: seq<T>, c: seq<T>)
    requires b != []
    ensures a + [b[0]] + b[1..] + c == a + b + c
  {
  }

  lemma FlowDeliver(e: Endpoint)
    requires CanNet(e, Deliver)
    ensures Flow(Dispatch(e)) == Flow(e)
  {
    DeliverLog(e);
    Shift(DispatchedIn(e.log), e.rxQueue, if e.reading.Some? then [e.reading.value] else []);
  }

  lemma FlowStep(e: Endpoint, ev: Event)
    requires Enabled(e, ev)
    ensures Flow(Step(e, ev)) == Flow(e) + PassingNow(e, ev)
  {
    if ev == Net(Deliver) {
      FlowDeliver(e);
    } else {
      QuietStep(e, ev);
      QuietDispatched(e.log, Step(e, ev).log);
      FlowRest(e, ev);
    }
  }

  lemma FlowRest(e: Endpoint, ev: Event)
    requires Enabled(e, ev) && ev != Net(Deliver) && DispatchedIn(Step(e, ev).log) == DispatchedIn(e.log)
    ensures Flow(Step(e, ev)) == Flow(e) + PassingNow(e, ev)
  {
    match ev
    case Net(Receive(pkt)) => ReceivedExactly(e, pkt);
    case Net(Enqueue) =>
    case Net(n) => NetFrame(e, n);
    case Calling(_, _) =>
    case Working(k, w) => WorkFrame(e, k, w);
    case Control(t) => ControlFrame(e, t);
  }

  lemma {:induction false} FlowRun(s: System, acts: seq<Action>, s1: System, side: Side)
    requires Reaches(s, acts, s1)
    ensures Flow(At(s1, side)) == Flow(At(s, side)) + Passing(s, acts, side)
    decreases |acts|
  {
    if acts != [] {
      if acts[0].side == side { FlowStep(At(s, side), acts[0].ev); }
      FlowRun(Do(s, acts[0]), acts[1..], s1, side);
    }
  }

  /** In every run, what has been dispatched, then what is queued, then what waits for room in the
      queue, is exactly what was let in, in the order of arrival. */
  lemma InOrder(s: System, acts: seq<Action>, s1: System, side: Side)
    requires Initial(s) && Reaches(s, acts, s1)
    ensures Flow(At(s1, side)) == Passing(s, acts, side)
  {
    FlowRun(s, acts, s1, side);
  }

  lemma {:induction false} QueueRun(s: System, acts: seq<Action>, s1: System, side: Side)
    requires Reaches(s, acts, s1) && |At(s, side).rxQueue| <= 100
    ensures |At(s1, side).rxQueue| <= 100
    decreases |acts|
  {
    if acts != [] {
      if acts[0].side == side { QueueStep(At(s, side), acts[0].ev); }
      QueueRun(Do(s, acts[0]), acts[1..], s1, side);
    }
  }

  lemma QueueStep(e: Endpoint, ev: Event)
    requires Enabled(e, ev) && |e.rxQueue| <= 100
    ensures |Step(e, ev).rxQueue| <= 100
  {
    match ev
    case Net(Deliver) =>
    case Net(Enqueue) =>
    case Net(n) => NetFrame(e, n);
    case Calling(_, _) =>
    case Working(k, w) => WorkFrame(e, k, w);
    case Control(t) => ControlFrame(e, t);
  }

  /** The queue holds at most 100 packets, and the reader is held up exactly while it holds them. */
  lemma QueueBound(s: System, acts: seq<Action>, s1: System, side: Side)
    requires Initial(s) && Reaches(s, acts, s1)
    ensures var e := At(s1, side);
            |e.rxQueue| <= 100 && (e.reading.Some? ==> (CanNet(e, Enqueue) <==> |e.rxQueue| != 100))
  {
    QueueRun(s, acts, s1, side);
  }

  // ---- no request is ignored ----

  /** The packet dispatched at `k` has started a worker. */
  ghost predicate Starts(log: seq<Mark>, k: nat)
    requires k < |log| && log[k].Dispatched?
  {
    k + 1 < |log| && log[k + 1] == Started(log[k].pkt.id)
  }

  /** Exactly the requests with an id for which no worker is going start one. */
  ghost predicate StartedOk(log: seq<Mark>) {
    forall k :: 0 <= k < |log| && log[k].Dispatched? ==>
      (Starts(log, k) <==>
         log[k].pkt.Request? && log[k].pkt.id != NoId && !Workers.Active(log[..k], log[k].pkt.id))
  }

  lemma StartedQuiet(log: seq<Mark>, log1: seq<Mark>)
    requires StartedOk(log) && Quiet(log, log1)
    ensures StartedOk(log1)
  {
    forall k | 0 <= k < |log1| && log1[k].Dispatched?
      ensures Starts(log1, k) <==>
                log1[k].pkt.Request? && log1[k].pkt.id != NoId && !Workers.Active(log1[..k], log1[k].pkt.id)
    {
      assert log1[k] == log[k] && log1[..k] == log[..k];
    }
  }

  lemma StartedDeliver(e: Endpoint)
    requires Workers.Inv(e) && CanNet(e, Deliver) && StartedOk(e.log)
    ensures StartedOk(Dispatch(e).log)
  {
    var log1, n := Dispatch(e).log, |e.log|;
    forall k | 0 <= k < |log1| && log1[k].Dispatched?
      ensures Starts(log1, k) <==>
                log1[k].pkt.Request? && log1[k].pkt.id != NoId && !Workers.Active(log1[..k], log1[k].pkt.id)
    {
      if k < n { assert log1[k] == e.log[k] && log1[..k] == e.log[..k]; } else { assert log1[..n] == e.log; }
    }
  }

  lemma {:induction false} StartedRun(s: System, acts: seq<Action>, s1: System, side: Side)
    requires Inv(s) && Reaches(s, acts, s1) && StartedOk(At(s, side).log)
    ensures StartedOk(At(s1, side).log)
    decreases |acts|
  {
    if acts != [] {
      if acts[0].side == side { StartedStep(At(s, side), acts[0].ev); }
      StepInv(s, acts[0]);
      StartedRun(Do(s, acts[0]), acts[1..], s1, side);
    }
  }

  lemma StartedStep(e: Endpoint, ev: Event)
    requires Workers.Inv(e) && Enabled(e, ev) && StartedOk(e.log)
    ensures StartedOk(Step(e, ev).log)
  {
    if ev == Net(Deliver) {
      StartedDeliver(e);
    } else {
      QuietStep(e, ev);
      StartedQuiet(e.log, Step(e, ev).log);
    }
  }

  /** In every run, a dispatched packet starts a worker at once exactly if it is a request with an id
      for which no worker is still going. */
  lemma NoneIgnored(s: System, acts: seq<Action>, s1: System, side: Side, k: nat)
    requires Initial(s) && Reaches(s, acts, s1) && k < |At(s1, side).log| && At(s1, side).log[k].Dispatched?
    ensures var log := At(s1, side).log;
            (k + 1 < |log| && log[k + 1] == Started(log[k].pkt.id)) <==>
              log[k].pkt.Request? && log[k].pkt.id != NoId && !Workers.Active(log[..k], log[k].pkt.id)
  {
    InitialInv(s);
    StartedRun(s, acts, s1, side);
    assert Starts(At(s1, side).log, k) || !Starts(At(s1, side).log, k);
  }

  // ---- what can always get through ----

  /** A run in which one side only receives, queues, dispatches and closes, and the other does nothing. */
  ghost predicate NetRun(s: System, acts: seq<Action>, s1: System, side: Side)
    decreases |acts|
  {
    if acts == [] then s == s1
    else acts[0].side == side && acts[0].ev.Net? && Can(s, acts[0]) && NetRun(Do(s, acts[0]), acts[1..], s1, side)
  }

  lemma NetNext(s: System, a: Action, acts: seq<Action>, s1: System) returns (all: seq<Action>)
    requires a.ev.Net? && Can(s, a) && NetRun(Do(s, a), acts, s1, a.side)
    ensures NetRun(s, all, s1, a.side)
  {
    all := [a] + acts;
    assert all[0] == a && all[1..] == acts;
  }

  function Backlog(e: Endpoint): nat {
    3 * |e.rxQueue| + (if e.reading.Some? then 4 else 0) + (if e.tabs.closing.Some? then 1 else 0)
  }

  /** The packet is next to be dispatched. */
  lemma Dispatches(s: System, side: Side, pkt: Packet) returns (acts: seq<Action>, s1: System)
    requires At(s, side).rxQueue == [pkt] && CanNet(At(s, side), Deliver)
    ensures NetRun(s, acts, s1, side) && Brings(At(s, side).log, At(s1, side).log, pkt)
  {
    var a := Action(side, Net(Deliver));
    s1 := Do(s, a);
    assert At(s1, side).log[|At(s, side).log|] == Dispatched(pkt);
    assert NetRun(s1, [], s1, side);
    acts := NetNext(s, a, [], s1);
  }

  lemma Queues(s: System, side: Side, pkt: Packet) returns (acts: seq<Action>, s1: System)
    requires At(s, side).rxQueue == [] && At(s, side).reading == Some(pkt)
    requires At(s, side).tabs.closing == None && InRange(At(s, side).tabs)
    ensures NetRun(s, acts, s1, side) && Brings(At(s, side).log, At(s1, side).log, pkt)
  {
    var a := Action(side, Net(Enqueue));
    acts, s1 := Dispatches(Do(s, a), side, pkt);
    acts := NetNext(s, a, acts, s1);
  }

  ghost predicate Brings(log: seq<Mark>, log1: seq<Mark>, pkt: Packet) {
    log <= log1 && exists i :: |log| <= i < |log1| && log1[i] == Dispatched(pkt)
  }

  lemma BringsOn(log: seq<Mark>, log1: seq<Mark>, log2: seq<Mark>, pkt: Packet)
    requires log <= log1 && Brings(log1, log2, pkt)
    ensures Brings(log, log2, pkt)
  {
  }

  ghost predicate MayEnter(s: System, side: Side, pkt: Packet) {
    Inv(s) && pkt in At(s, Other(side)).sent && LetIn(At(s, side).state, pkt)
    && (side == Dialer || At(s, side).link != Fresh)
  }

  /** Working off the backlog changes nothing about who may enter. */
  lemma OneOff(s: System, side: Side, n: NetEvent, pkt: Packet)
    requires MayEnter(s, side, pkt) && CanNet(At(s, side), n) && !n.Receive?
    ensures MayEnter(Do(s, Action(side, Net(n))), side, pkt)
    ensures var e1 := NetStep(At(s, side), n);
            At(Do(s, Action(side, Net(n))), side) == e1 && Backlog(e1) < Backlog(At(s, side))
            && At(s, side).log <= e1.log
  {
    StepInv(s, Action(side, Net(n)));
  }

  /** An idle side receives what the peer has sent; another works off its backlog first. */
  lemma {:induction false} Enters(s: System, side: Side, pkt: Packet) returns (acts: seq<Action>, s1: System)
    requires MayEnter(s, side, pkt)
    ensures NetRun(s, acts, s1, side) && Brings(At(s, side).log, At(s1, side).log, pkt)
    decreases Backlog(At(s, side))
  {
    var e := At(s, side);
    var n := Next(e, pkt);
    var a := Action(side, Net(n));
    assert Can(s, a);
    var s2 := Do(s, a);
    if n.Receive? {
      ReceivedExactly(e, pkt);
      acts, s1 := Queues(s2, side, pkt);
    } else {
      OneOff(s, side, n, pkt);
      acts, s1 := Enters(s2, side, pkt);
      BringsOn(e.log, At(s2, side).log, At(s1, side).log, pkt);
    }
    acts := NetNext(s, a, acts, s1);
  }

  function Next(e: Endpoint, pkt: Packet): NetEvent {
    if e.tabs.closing.Some? then CloseEntry else if e.rxQueue != [] then Deliver
    else if e.reading.Some? then Enqueue else Receive(pkt)
  }

  /** From every reachable state, whatever the peer has sent and may pass can be dispatched, by the
      receiving side's transport and dispatcher alone. Once a client is LOGINED that is everything. */
  lemma GetsThrough(s: System, side: Side, pkt: Packet) returns (acts: seq<Action>, s1: System)
    requires Inv(s) && pkt in At(s, Other(side)).sent && (side == Dialer || At(s, side).link != Fresh)
    requires
      || At(s, side).state == Logined || At(s, side).state == Disconnected || pkt.Ack? || pkt.Response?
      || (pkt.Request? && (pkt.meth == ExchangeSecret || (pkt.meth == Login && At(s, side).state == ExchangedSecret)))
    ensures NetRun(s, acts, s1, side)
    ensures var log, log1 := At(s, side).log, At(s1, side).log;
            log <= log1 && exists i :: |log| <= i < |log1| && log1[i] == Dispatched(pkt)
  {
    acts, s1 := Enters(s, side, pkt);
  }
}
