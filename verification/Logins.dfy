/**
 The login gate on the hub's side of a connection: what may be queued, dispatched and executed
 before the exchange and the login have succeeded, and when OnLogin is raised.
 */
module Logins {
  import opened Endpoint
  import Workers

  // ---- the log, before and after ----

  ghost predicate EnteredIn(log: seq<Mark>, to: ConnState) {
    exists m :: m in log && m.Entered? && m.to == to
  }

  /** A handler for `meth` has run here without error. */
  ghost predicate RanOk(log: seq<Mark>, meth: Method) {
    exists m :: m in log && m.Ran? && m.req.Request? && m.req.meth == meth && m.resp.Response? && m.resp.error == ""
  }

  ghost predicate Secured(log: seq<Mark>) {
    EnteredIn(log, ExchangedSecret) || EnteredIn(log, Logined)
  }

  /** A hub-side configuration, and the packets that its transport may still hand over after it
      has reported the disconnection. */
  datatype Policy = Policy(crypto: bool, needLogin: bool, late: iset<Packet>)

  ghost function Of(e: Endpoint, late: iset<Packet>): Policy {
    Policy(e.crypto, e.needLogin, late)
  }

  predicate LoginRequest(pkt: Packet) {
    pkt.Request? && pkt.meth == Login && pkt.id != NoId
  }

  /** In DISCONNECT everything is let through. */
  ghost predicate Exempt(pol: Policy, log: seq<Mark>, pkt: Packet) {
    pkt in pol.late && EnteredIn(log, Disconnected)
  }

  /** What must have happened before a packet may be queued. */
  ghost predicate Admissible(pol: Policy, log: seq<Mark>, pkt: Packet) {
    Exempt(pol, log, pkt) ||
    (&& (pol.crypto ==> ExchangePacket(pkt) || Secured(log))
     && (pol.needLogin ==> HandshakePacket(pkt) || EnteredIn(log, Logined))
     && (pol.needLogin && pkt.Request? && pkt.meth == Login ==> EnteredIn(log, ExchangedSecret)))
  }

  /** A login may have been let through in DISCONNECT. */
  ghost predicate LoginExempt(pol: Policy, log: seq<Mark>) {
    EnteredIn(log, Disconnected) && exists p :: p in pol.late && LoginRequest(p)
  }

  /** What must precede each mark in the log of a hub-side endpoint. */
  ghost predicate GateMark(pol: Policy, prefix: seq<Mark>, mark: Mark) {
    match mark
    case Dispatched(pkt) => Admissible(pol, prefix, pkt)
    case Ran(req, _) =>
      pol.needLogin && LoginRequest(req) ==> EnteredIn(prefix, ExchangedSecret) || Exempt(pol, prefix, req)
    case Entered(to, _) =>
      LoginExempt(pol, prefix) ||
      (&& (pol.crypto && (to == ExchangedSecret || to == Logined) ==> RanOk(prefix, ExchangeSecret))
       && (pol.needLogin && to == Logined ==> RanOk(prefix, Login) && EnteredIn(prefix, ExchangedSecret)))
    case _ => true
  }

  ghost predicate GateLog(pol: Policy, log: seq<Mark>) {
    |log| == 0 ||
    (GateLog(pol, log[..|log| - 1]) && GateMark(pol, log[..|log| - 1], log[|log| - 1]))
  }

  lemma Snoc(pol: Policy, log: seq<Mark>, m: Mark)
    ensures GateLog(pol, log + [m]) <==> GateLog(pol, log) && GateMark(pol, log, m)
    ensures forall to :: EnteredIn(log + [m], to) <==> EnteredIn(log, to) || (m.Entered? && m.to == to)
    ensures forall meth :: RanOk(log, meth) ==> RanOk(log + [m], meth)
  {
    assert (log + [m])[..|log|] == log;
    forall to ensures EnteredIn(log + [m], to) <==> EnteredIn(log, to) || (m.Entered? && m.to == to) {
      assert forall x :: x in log + [m] <==> x in log || x == m;
    }
    forall meth | RanOk(log, meth) ensures RanOk(log + [m], meth) {
      var x :| x in log && x.Ran? && x.req.Request? && x.req.meth == meth && x.resp.Response? && x.resp.error == "";
      assert x in log + [m];
    }
  }

  /** A prefix's facts are facts of the whole. */
  lemma Grows(log: seq<Mark>, k: nat)
    requires k <= |log|
    ensures forall to :: EnteredIn(log[..k], to) ==> EnteredIn(log, to)
    ensures forall meth :: RanOk(log[..k], meth) ==> RanOk(log, meth)
  {
    forall m | m in log[..k] ensures m in log {}
  }

  lemma {:induction false} MarkAt(pol: Policy, log: seq<Mark>, k: nat)
    requires GateLog(pol, log) && k < |log|
    ensures GateMark(pol, log[..k], log[k])
  {
    if k < |log| - 1 {
      MarkAt(pol, log[..|log| - 1], k);
      assert log[..|log| - 1][..k] == log[..k];
    }
  }

  // ---- the invariant ----

  ghost predicate StateOk(e: Endpoint, late: iset<Packet>) {
    && (e.link == Fresh ==>
          && e.reading.None? && e.rxQueue == [] && e.log == []
          && forall k :: 0 <= k < |e.threads| ==> e.threads[k].User?)
    && (EnteredIn(e.log, Disconnected) <==> e.link == Down)
    && (e.link == Up ==>
          && e.state != Disconnected
          && (e.state == Connected ==> e.crypto && !Secured(e.log))
          && (e.state == ExchangedSecret ==> EnteredIn(e.log, ExchangedSecret))
          && (e.state == Logined ==> EnteredIn(e.log, Logined)))
    && (e.needLogin && EnteredIn(e.log, Logined) ==>
          EnteredIn(e.log, ExchangedSecret) || LoginExempt(Of(e, late), e.log))
  }

  ghost predicate Inv(e: Endpoint, late: iset<Packet>) {
    e.side == Hub ==>
      && GateLog(Of(e, late), e.log)
      && StateOk(e, late)
      && (e.reading.Some? ==> Admissible(Of(e, late), e.log, e.reading.value))
      && (forall p :: p in e.rxQueue ==> Admissible(Of(e, late), e.log, p))
  }

  /** Every dispatched request was admissible when it was dispatched, hence still is. */
  lemma DispatchedAdmissible(e: Endpoint, late: iset<Packet>, pkt: Packet)
    requires Inv(e, late) && e.side == Hub && Dispatched(pkt) in e.log
    ensures Admissible(Of(e, late), e.log, pkt)
  {
    var k :| 0 <= k < |e.log| && e.log[k] == Dispatched(pkt);
    MarkAt(Of(e, late), e.log, k);
    Grows(e.log, k);
  }

  lemma EnteredJustified(e: Endpoint, late: iset<Packet>, to: ConnState)
    requires Inv(e, late) && e.side == Hub && EnteredIn(e.log, to)
      && e.crypto && (to == ExchangedSecret || to == Logined)
    ensures RanOk(e.log, ExchangeSecret) || LoginExempt(Of(e, late), e.log)
  {
    var m :| m in e.log && m.Entered? && m.to == to;
    var k :| 0 <= k < |e.log| && e.log[k] == m;
    MarkAt(Of(e, late), e.log, k);
    Grows(e.log, k);
  }

  // ---- preservation ----

  /** Appending a justified mark keeps the log lawful and what was admitted admissible. */
  lemma Log(e: Endpoint, late: iset<Packet>, m: Mark)
    requires Inv(e, late) && e.side == Hub && GateMark(Of(e, late), e.log, m)
    ensures GateLog(Of(e, late), e.log + [m])
    ensures forall p :: Admissible(Of(e, late), e.log, p) ==> Admissible(Of(e, late), e.log + [m], p)
    ensures e.needLogin && EnteredIn(e.log + [m], Logined) ==>
              EnteredIn(e.log + [m], ExchangedSecret) || LoginExempt(Of(e, late), e.log + [m])
    ensures forall to :: EnteredIn(e.log + [m], to) <==> EnteredIn(e.log, to) || (m.Entered? && m.to == to)
  {
    Snoc(Of(e, late), e.log, m);
  }

  lemma ChangesLog(e: Endpoint, late: iset<Packet>, to: ConnState, cause: Cause)
    requires Inv(e, late) && e.side == Hub && GateMark(Of(e, late), e.log, Entered(Resolve(e, to), cause))
    ensures var log1 := ChangeState(e, to, cause).log;
            && GateLog(Of(e, late), log1) && |log1| > 0
            && (forall p :: Admissible(Of(e, late), e.log, p) ==> Admissible(Of(e, late), log1, p))
            && (forall s :: EnteredIn(log1, s) <==> EnteredIn(e.log, s) || s == Resolve(e, to))
            && (e.needLogin && EnteredIn(log1, Logined) ==>
                  EnteredIn(log1, ExchangedSecret) || LoginExempt(Of(e, late), log1))
  {
    var m := Entered(Resolve(e, to), cause);
    Log(e, late, m);
    var log1 := e.log + [m];
    Snoc(Of(e, late), log1, LoginFired);
    assert log1 + [] == log1;
  }

  lemma Changes(e: Endpoint, late: iset<Packet>, to: ConnState, cause: Cause, link: Link)
    requires Inv(e, late) && link != Fresh
    requires e.side == Hub ==> GateMark(Of(e, late), e.log, Entered(Resolve(e, to), cause))
    requires e.side == Hub ==>
               if link == Up then e.link != Down && to != Disconnected && (to == Connected ==> e.link == Fresh)
               else to == Disconnected || e.link == Down
    ensures Inv(ChangeState(e, to, cause).(link := link), late)
  {
    if e.side == Hub {
      ChangesLog(e, late, to, cause);
    }
  }

  /** The gate does its work while the link is up; in DISCONNECT it lets everything through. */
  lemma Receives(e: Endpoint, late: iset<Packet>, pkt: Packet)
    requires Inv(e, late) && CanNet(e, Receive(pkt)) && (e.side == Hub && e.link == Down ==> pkt in late)
    ensures Inv(NetStep(e, Receive(pkt)), late)
  {
  }

  lemma StartsLog(pol: Policy, log: seq<Mark>, id: Id)
    requires GateLog(pol, log)
    ensures GateLog(pol, log + [Started(id)])
    ensures forall to :: EnteredIn(log + [Started(id)], to) <==> EnteredIn(log, to)
    ensures forall p :: Admissible(pol, log, p) ==> Admissible(pol, log + [Started(id)], p)
  {
    Snoc(pol, log, Started(id));
  }

  lemma DeliversLog(e: Endpoint, late: iset<Packet>)
    requires Inv(e, late) && CanNet(e, Deliver) && e.side == Hub
    ensures var log1 := Dispatch(e).log;
            && GateLog(Of(e, late), log1) && |log1| > 0
            && (forall p :: Admissible(Of(e, late), e.log, p) ==> Admissible(Of(e, late), log1, p))
            && (forall to :: EnteredIn(log1, to) <==> EnteredIn(e.log, to))
  {
    var pkt := e.rxQueue[0];
    assert pkt in e.rxQueue;
    Log(e, late, Dispatched(pkt));
    StartsLog(Of(e, late), e.log + [Dispatched(pkt)], pkt.id);
  }

  lemma Delivers(e: Endpoint, late: iset<Packet>)
    requires Inv(e, late) && CanNet(e, Deliver)
    ensures Inv(Dispatch(e), late)
  {
    if e.side == Hub {
      DeliversLog(e, late);
      assert e.link != Fresh;
      assert forall p :: p in Dispatch(e).rxQueue ==> p in e.rxQueue;
    }
  }

  lemma Runs(e: Endpoint, late: iset<Packet>, k: nat, result: string, error: string)
    requires Inv(e, late) && Workers.Inv(e) && CanWork(e, k, Run(result, error))
    ensures Inv(Execute(e, k, result, error), late)
  {
    var e1 := Execute(e, k, result, error);
    if e.side == Hub {
      assert Workers.WorkerOk(e.threads[k], e.handlingReq, e.log);
      DispatchedAdmissible(e, late, e.threads[k].req);
      Log(e, late, e1.log[|e.log|]);
    }
  }

  lemma Justified(e: Endpoint, late: iset<Packet>, req: Packet, resp: Packet, cancelled: bool)
    requires Inv(e, late) && e.side == Hub && Dispatched(req) in e.log && Ran(req, resp) in e.log
    requires req.Request? && req.id != NoId && resp.Response? && resp.error == ""
    requires req.meth == ExchangeSecret || req.meth == Login
    ensures var to := if req.meth == Login then Logined else ExchangedSecret;
            GateMark(Of(e, late), e.log, Entered(Resolve(e, to), ByWorker(req, cancelled)))
  {
    DispatchedAdmissible(e, late, req);
    assert RanOk(e.log, req.meth);
    if e.crypto && req.meth == Login && !Exempt(Of(e, late), e.log, req) {
      if EnteredIn(e.log, ExchangedSecret) {
        EnteredJustified(e, late, ExchangedSecret);
      } else {
        EnteredJustified(e, late, Logined);
      }
    }
  }

  lemma Settles(e: Endpoint, late: iset<Packet>, k: nat)
    requires Inv(e, late) && Workers.Inv(e) && CanWork(e, k, Settle)
    ensures Inv(Decide(e, k), late)
  {
    var Worker(req, Deciding(resp, err)) := e.threads[k];
    var e1 := e.(threads := e.threads[k := Worker(req, Leaving)]);
    assert Workers.WorkerOk(e.threads[k], e.handlingReq, e.log);
    if e.side == Hub {
      assert e.link != Fresh by { assert e.threads[k].Worker?; }
      assert Inv(e1, late);
      if resp.error == "" && err == "" && (req.meth == ExchangeSecret || req.meth == Login) {
        Justified(e1, late, req, resp, e.disposed);
        Changes(e1, late, if req.meth == Login then Logined else ExchangedSecret, ByWorker(req, e.disposed), e.link);
      }
    }
  }

  lemma Works(e: Endpoint, late: iset<Packet>, k: nat, w: WorkEvent)
    requires Inv(e, late) && Workers.Inv(e) && CanWork(e, k, w)
    ensures Inv(WorkStep(e, k, w), late)
  {
    match w
    case Run(result, error) => Runs(e, late, k, result, error);
    case Settle => Settles(e, late, k);
    case Conclude =>
    case Finish => if e.side == Hub { Log(e, late, Ending(e.threads[k].req.id)); }
  }

  lemma Controls(e: Endpoint, late: iset<Packet>, t: ControlEvent)
    requires Inv(e, late) && CanControl(e, t)
    ensures Inv(ControlStep(e, t), late)
  {
    match t
    case Connect => Changes(e, late, Connected, ByUser, Up);
    case Disconnect => Changes(e, late, Disconnected, ByUser, Down);
    case Begin(op, pkt) =>
    case Promote(_) =>
    case Dispose =>
  }

  lemma Nets(e: Endpoint, late: iset<Packet>, n: NetEvent)
    requires Inv(e, late) && CanNet(e, n) && !n.Receive? && n != Deliver
    ensures Inv(NetStep(e, n), late)
  {
    NetFrame(e, n);
  }

  lemma Waits(e: Endpoint, late: iset<Packet>, k: nat, c: CallEvent)
    requires Inv(e, late) && CanCall(e, k, c)
    ensures Inv(CallStep(e, k, c), late)
  {
    var e1 := CallStep(e, k, c);
    assert forall j :: 0 <= j < |e.threads| ==> (e1.threads[j].User? <==> e.threads[j].User?);
  }

  /** What the transport hands to the hub after it has reported the disconnection lies in `late`. */
  ghost predicate Punctual(e: Endpoint, late: iset<Packet>, ev: Event) {
    ev.Net? && ev.n.Receive? && e.side == Hub && e.link == Down ==> ev.n.pkt in late
  }

  /** Every step of one endpoint keeps the gate invariant, whatever arrives. */
  lemma Preserved(e: Endpoint, late: iset<Packet>, ev: Event)
    requires Inv(e, late) && Workers.Inv(e) && Enabled(e, ev) && Punctual(e, late, ev)
    ensures Inv(Step(e, ev), late)
  {
    match ev
    case Net(Receive(pkt)) => Receives(e, late, pkt);
    case Net(Deliver) => Delivers(e, late);
    case Net(n) => Nets(e, late, n);
    case Calling(k, c) => Waits(e, late, k, c);
    case Working(k, w) => Works(e, late, k, w);
    case Control(t) => Controls(e, late, t);
  }
}
