/** Why each packet an endpoint ever sent was sent, whatever it received. */
module Traffic {
  import opened Endpoint
  import Workers

  /** Ids a local call may carry. */
  predicate OwnPacket(side: Side, op: Op, pkt: Packet) {
    if op == SendWithRetry then pkt.Notice? && (pkt.id == NoId || pkt.id.NoticeId?)
    else pkt.Request? && (pkt.id == NoId || (pkt.id.ReqId? && pkt.id.minter == side))
  }

  ghost predicate Received(log: seq<Mark>, id: Id) {
    exists p :: Dispatched(p) in log && p.id == id && !p.Ack?
  }

  ghost predicate Produced(log: seq<Mark>, resp: Packet) {
    exists req :: Ran(req, resp) in log
  }

  ghost predicate Asked(threads: seq<Thread>, pkt: Packet) {
    exists k :: 0 <= k < |threads| && threads[k].User?
      && threads[k].call.pkt == pkt && threads[k].call.op != SendWithRetry
  }

  ghost predicate SentOk(side: Side, threads: seq<Thread>, log: seq<Mark>, pkt: Packet) {
    match pkt
    case Ack(id) => id != NoId && Received(log, id)
    case Response(_, _, _) => Produced(log, pkt)
    case Request(_, _, _) => OwnPacket(side, RequestWithRetry, pkt) && Asked(threads, pkt)
    case Notice(_, _) => OwnPacket(side, SendWithRetry, pkt)
  }

  ghost predicate SameRequest(threads: seq<Thread>) {
    forall j, k :: 0 <= j < k < |threads| && threads[j].User? && threads[k].User?
      && threads[j].call.op != SendWithRetry && threads[k].call.op != SendWithRetry
      && threads[j].call.pkt.id == threads[k].call.pkt.id && threads[j].call.pkt.id != NoId
      ==> threads[j].call.pkt == threads[k].call.pkt
  }

  ghost predicate UserOk(side: Side, thread: Thread) {
    thread.User? ==> OwnPacket(side, thread.call.op, thread.call.pkt)
  }

  ghost predicate TInv(side: Side, threads: seq<Thread>, log: seq<Mark>, sent: set<Packet>) {
    && (forall p :: p in sent ==> SentOk(side, threads, log, p))
    && (forall k :: 0 <= k < |threads| ==> UserOk(side, threads[k]))
    && SameRequest(threads)
  }

  /** Whatever was dispatched and carries an id has been acknowledged. */
  ghost predicate Acked(log: seq<Mark>, sent: set<Packet>) {
    forall p :: Dispatched(p) in log && Acknowledged(p) ==> Ack(p.id) in sent
  }

  ghost predicate Inv(e: Endpoint) {
    TInv(e.side, e.threads, e.log, e.sent) && Acked(e.log, e.sent)
  }

  /** User calls never change their packet. */
  ghost predicate SameUsers(threads: seq<Thread>, after: seq<Thread>) {
    && |threads| <= |after|
    && (forall k :: 0 <= k < |threads| ==>
          (threads[k].User? <==> after[k].User?)
          && (threads[k].User? ==> after[k].call.pkt == threads[k].call.pkt && after[k].call.op == threads[k].call.op))
  }

  lemma Keeps(side: Side, threads: seq<Thread>, log: seq<Mark>, pkt: Packet, after: seq<Thread>, log1: seq<Mark>)
    requires SentOk(side, threads, log, pkt) && SameUsers(threads, after) && log <= log1
    ensures SentOk(side, after, log1, pkt)
  {
    forall m | m in log ensures m in log1 {}
    if pkt.Ack? {
      var p :| Dispatched(p) in log && p.id == pkt.id && !p.Ack?;
      assert Dispatched(p) in log1;
    } else if pkt.Request? {
      var k :| 0 <= k < |threads| && threads[k].User? && threads[k].call.pkt == pkt
        && threads[k].call.op != SendWithRetry;
      assert after[k].User? && after[k].call.pkt == pkt && after[k].call.op != SendWithRetry;
    } else if pkt.Response? {
      var req :| Ran(req, pkt) in log;
      assert Ran(req, pkt) in log1;
    }
  }

  lemma Extend(side: Side, threads: seq<Thread>, log: seq<Mark>, sent: set<Packet>,
               after: seq<Thread>, log1: seq<Mark>, extra: set<Packet>)
    requires TInv(side, threads, log, sent) && SameUsers(threads, after) && log <= log1
    requires forall k :: |threads| <= k < |after| ==> after[k].Worker?
    requires forall p :: p in extra ==> SentOk(side, after, log1, p)
    ensures TInv(side, after, log1, sent + extra)
  {
    forall p | p in sent + extra ensures SentOk(side, after, log1, p) {
      if p in sent { Keeps(side, threads, log, p, after, log1); }
    }
    forall k | 0 <= k < |after| ensures UserOk(side, after[k]) {
      if k < |threads| { assert UserOk(side, threads[k]); }
    }
  }

  lemma Delivers(e: Endpoint)
    requires TInv(e.side, e.threads, e.log, e.sent) && CanNet(e, Deliver)
    ensures var e1 := Dispatch(e); TInv(e1.side, e1.threads, e1.log, e1.sent)
  {
    var pkt := e.rxQueue[0];
    var e1 := Dispatch(e);
    var extra := if Acknowledged(pkt) then {Ack(pkt.id)} else {};
    assert Dispatched(pkt) in e1.log;
    if Acknowledged(pkt) { assert Received(e1.log, pkt.id); }
    Extend(e.side, e.threads, e.log, e.sent, e1.threads, e1.log, extra);
    assert e1.sent == e.sent + extra;
  }

  lemma Calls(e: Endpoint, k: nat, c: CallEvent)
    requires TInv(e.side, e.threads, e.log, e.sent) && Workers.Inv(e) && CanCall(e, k, c)
    ensures var e1 := CallStep(e, k, c); TInv(e1.side, e1.threads, e1.log, e1.sent)
  {
    var e1 := CallStep(e, k, c);
    var pkt := CallAt(e, k).pkt;
    assert UserOk(e.side, e.threads[k]) && Workers.WorkerOk(e.threads[k], e.handlingReq, e.log);
    assert SentOk(e.side, e1.threads, e1.log, pkt) by {
      if e.threads[k].User? {
        assert e1.threads[k].User? && e1.threads[k].call.pkt == pkt;
      } else {
        assert Ran(e.threads[k].req, pkt) in e1.log;
      }
    }
    Extend(e.side, e.threads, e.log, e.sent, e1.threads, e1.log, {pkt});
    Extend(e.side, e.threads, e.log, e.sent, e1.threads, e1.log, {});
    assert e.sent + {} == e.sent;
  }

  lemma Begins(e: Endpoint, op: Op, pkt: Packet)
    requires TInv(e.side, e.threads, e.log, e.sent) && FreshCall(e, op, pkt)
    ensures var e1 := ControlStep(e, Begin(op, pkt)); TInv(e1.side, e1.threads, e1.log, e1.sent)
  {
    var e1 := ControlStep(e, Begin(op, pkt));
    forall p | p in e.sent ensures SentOk(e.side, e1.threads, e1.log, p) {
      Keeps(e.side, e.threads, e.log, p, e1.threads, e1.log);
    }
    forall k | 0 <= k < |e1.threads| ensures UserOk(e.side, e1.threads[k]) {
      if k < |e.threads| { assert UserOk(e.side, e.threads[k]); }
    }
  }

  lemma AckedStep(e: Endpoint, ev: Event)
    requires Acked(e.log, e.sent) && Enabled(e, ev)
    ensures Acked(Step(e, ev).log, Step(e, ev).sent)
  {
    match ev
    case Net(n) => if n != Deliver { NetFrame(e, n); }
    case Calling(k, c) =>
    case Working(k, w) => WorkFrame(e, k, w);
    case Control(t) => ControlFrame(e, t);
  }

  lemma Preserved(e: Endpoint, ev: Event)
    requires Inv(e) && Workers.Inv(e) && Enabled(e, ev)
    ensures Inv(Step(e, ev))
  {
    AckedStep(e, ev);
    assert e.sent + {} == e.sent;
    match ev
    case Net(n) => if n == Deliver { Delivers(e); } else { NetFrame(e, n); }
    case Calling(k, c) => Calls(e, k, c);
    case Working(k, w) =>
      WorkFrame(e, k, w);
      Extend(e.side, e.threads, e.log, e.sent, WorkStep(e, k, w).threads, WorkStep(e, k, w).log, {});
    case Control(t) =>
      ControlFrame(e, t);
      if t.Begin? { Begins(e, t.op, t.pkt); }
      else { Extend(e.side, e.threads, e.log, e.sent, e.threads, ControlStep(e, t).log, {}); }
  }
}
