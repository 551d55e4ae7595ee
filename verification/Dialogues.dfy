/**
 Building whole conversations: a request sent, run, answered and acknowledged, between two sides on
 which nothing else is on its way.
 */
module Dialogues {
  import opened Basics
  import opened Endpoint
  import opened Connection
  import opened Runs

  /** Nothing is on its way through either side. */
  ghost predicate Quiet(g: Setting, s: System) {
    && Reachable(g, s) && s.dialer.side == Dialer && s.hub.side == Hub && s.hub.link == Up && !s.hub.disposed
    && s.dialer.reading == None && s.dialer.rxQueue == [] && s.dialer.tabs.closing == None
    && s.hub.reading == None && s.hub.rxQueue == [] && s.hub.tabs.closing == None
    && s.hub.handlingReq == {} && s.hub.tabs.ack == map[]
    && s.hub.crypto == g.crypto && s.hub.needLogin == g.needLogin
    && s.dialer.crypto == g.crypto && s.dialer.needLogin == g.needLogin
  }

  ghost predicate Inside(s: System) {
    InRange(s.dialer.tabs) && InRange(s.hub.tabs)
  }

  lemma ReachableInside(g: Setting, s: System)
    requires Reachable(g, s)
    ensures Inside(s)
  {
    var acts :| Reaches(Start(g), acts, s) && PunctualRun(Start(g), acts, g.late);
    InitialInv(Start(g));
    RunInv(Start(g), acts, s);
  }

  // ---- the dialer asks ----

  /** The dialer has used no request id from `n` on. */
  ghost predicate Unused(e: Endpoint, n: nat) {
    && e.side == Dialer
    && (forall k :: 0 <= k < |e.threads| && e.threads[k].User? && e.threads[k].call.pkt.id.ReqId? ==>
          e.threads[k].call.pkt.id.n < n)
    && (forall id :: id in e.tabs.resp && id.ReqId? ==> id.n < n)
  }

  /** A call of the dialer is waiting for the answer to its request, which it has sent. */
  ghost predicate Asking(e: Endpoint, op: Op, req: Packet, k: nat, f: nat) {
    && k < |e.threads| && e.threads[k] == User(Call(op, req, Owning(f, false))) && req in e.sent
    && req.id in e.tabs.resp && e.tabs.resp[req.id] == f
    && f < |e.tabs.flies| && e.tabs.flies[f] == Fly(k, op, req.id, 0, 0, "", "")
  }

  lemma Sends(g: Setting, s: System, n: nat, op: Op, req: Packet) returns (s1: System)
    requires Reachable(g, s) && Unused(s.dialer, n) && req.Request? && req.id == ReqId(Dialer, n)
    requires op != SendWithRetry
    ensures Reachable(g, s1) && Unused(s1.dialer, n + 1)
    ensures s1 == s.(dialer := s.dialer.(tabs := s1.dialer.tabs, threads := s1.dialer.threads, sent := s1.dialer.sent))
    ensures s1.dialer.sent == s.dialer.sent + {req}
    ensures s1.dialer.tabs.closing == s.dialer.tabs.closing && s1.dialer.tabs.ack == s.dialer.tabs.ack
    ensures Asking(s1.dialer, op, req, |s.dialer.threads|, |s.dialer.tabs.flies|)
  {
    s1 := Go(g, s, Action(Dialer, Control(Begin(op, req))));
    s1 := Stores(g, s1, Dialer, |s.dialer.threads|);
  }

  // ---- the hub answers ----

  /** The response that a handler's outcome becomes. */
  function Reply(req: Packet, result: string, error: string): Packet {
    Response(req.id, if error == "" then result else "", error)
  }

  function Filled(t: Tables, resp: Packet): Tables
    requires resp.Response? && InRange(t)
  {
    var u := TakeResponse(t, resp);
    if u.closing.Some? && u.closing.value.entry < |u.flies| then Close(u, u.closing.value).(closing := None) else u
  }

  /** The dialer is told and acknowledges. */
  lemma Hears(g: Setting, s: System, resp: Packet) returns (s1: System)
    requires Reachable(g, s) && resp.Response? && resp.id != NoId && resp in s.hub.sent && s.dialer.side == Dialer
    requires s.dialer.reading == None && s.dialer.rxQueue == [] && s.dialer.tabs.closing == None
    requires InRange(s.dialer.tabs)
    ensures Reachable(g, s1)
    ensures s1 == s.(dialer := s.dialer.(
              tabs := Filled(s.dialer.tabs, resp), sent := s.dialer.sent + {Ack(resp.id)},
              log := s.dialer.log + [Dispatched(resp)]))
    ensures s1.dialer.tabs.closing == None
  {
    s1 := Arrives(g, s, Dialer, resp);
    if s1.dialer.tabs.closing.Some? { s1 := Go(g, s1, Action(Dialer, Net(CloseEntry))); }
  }

  /** What the hub's log gains when a request is served and its answer acknowledged. */
  ghost function Marks(req: Packet, resp: Packet): seq<Mark> {
    [Dispatched(req)] + [Started(req.id)] + [Ran(req, resp)] + [Dispatched(Ack(req.id))]
  }

  ghost predicate Servable(g: Setting, s: System, req: Packet) {
    Quiet(g, s) && req in s.dialer.sent && req.Request? && req.id.ReqId? && Gate(s.hub.state, req) && Inside(s)
  }

  ghost function Waiter(req: Packet, resp: Packet, w: Wait): Thread {
    Worker(req, Replying(Call(SendWithRetry, resp, w)))
  }

  /** The request has been run, and the response is waiting for its acknowledgement. */
  lemma Replied(g: Setting, s: System, req: Packet, result: string, error: string)
    returns (s1: System, k: nat, f: nat)
    requires Servable(g, s, req)
    ensures Reachable(g, s1) && s1.dialer == s.dialer && k == |s.hub.threads| && f == |s.hub.tabs.flies|
    ensures var resp := Reply(req, result, error);
            && s1.hub == s.hub.(
                 tabs := s1.hub.tabs, sent := s1.hub.sent, handlingReq := {req.id},
                 threads := s.hub.threads + [Waiter(req, resp, Owning(f, false))],
                 log := s.hub.log + [Dispatched(req)] + [Started(req.id)] + [Ran(req, resp)])
            && resp in s1.hub.sent
            && s1.hub.tabs == s.hub.tabs.(
                 ack := map[req.id := f], flies := s.hub.tabs.flies + [Fly(k, SendWithRetry, req.id, 0, 0, "", "")])
  {
    k, f := |s.hub.threads|, |s.hub.tabs.flies|;
    s1 := RequestArrives(g, s, req);
    s1 := Replies(g, s1, Hub, k, result, error);
  }

  /** The dialer has dispatched the response and acknowledged it. */
  ghost predicate Told(e: Endpoint, e1: Endpoint, resp: Packet) {
    && resp.Response? && InRange(e.tabs)
    && e1 == e.(tabs := Filled(e.tabs, resp), sent := e.sent + {Ack(resp.id)}, log := e.log + [Dispatched(resp)])
    && e1.tabs.closing == None
  }

  /** The request is served up to the acknowledgement of its response. */
  lemma Answered(g: Setting, s: System, req: Packet, result: string, error: string)
    returns (s1: System, k: nat, f: nat)
    requires Servable(g, s, req)
    ensures Reachable(g, s1) && Told(s.dialer, s1.dialer, Reply(req, result, error))
    ensures k == |s.hub.threads| && f == |s.hub.tabs.flies|
    ensures var resp := Reply(req, result, error);
            && s1.hub == s.hub.(
                 tabs := s1.hub.tabs, sent := s1.hub.sent, handlingReq := {req.id},
                 threads := s.hub.threads + [Waiter(req, resp, Owning(f, false))],
                 log := s.hub.log + Marks(req, resp))
            && s1.hub.tabs.ack == map[] && s1.hub.tabs.closing == Some(AckBack(f))
            && s1.hub.tabs.flies == s.hub.tabs.flies + [Fly(k, SendWithRetry, req.id, 0, 0, "", "")]
  {
    s1, k, f := Replied(g, s, req, result, error);
    s1 := Hears(g, s1, Reply(req, result, error));
    ReachableInside(g, s1);
    s1 := AckArrives(g, s1, req.id);
    assert s1.hub.tabs.ack == map[];
    assert s1.hub.log == s.hub.log + Marks(req, Reply(req, result, error));
  }

  /** A success of the exchange or of the login changes the hub's state. */
  predicate Advances(req: Packet, error: string)
    requires req.Request?
  {
    error == "" && (req.meth == ExchangeSecret || req.meth == Login)
  }

  function StateAfter(e: Endpoint, req: Packet, error: string): ConnState
    requires req.Request?
  {
    if Advances(req, error) then Resolve(e, Target(req)) else e.state
  }

  /** The marks of a state change, if there is one, and of the worker's end. */
  ghost function Parting(e: Endpoint, req: Packet, error: string): seq<Mark>
    requires req.Request?
  {
    var to := Resolve(e, Target(req));
    (if Advances(req, error) then [Entered(to, ByWorker(req, false))] else [])
    + (if Advances(req, error) && e.state != to && to == Logined then [LoginFired] else [])
    + [Ending(req.id)]
  }

  /** Worker `k` is waiting for the acknowledgement that the dispatcher has just taken. */
  ghost predicate Acked(e: Endpoint, req: Packet, resp: Packet, k: nat, f: nat) {
    && k < |e.threads| && f < |e.tabs.flies| && e.threads[k] == Waiter(req, resp, Owning(f, false))
    && e.tabs.closing == Some(AckBack(f)) && e.tabs.flies[f] == Fly(k, SendWithRetry, req.id, 0, 0, "", "")
  }

  lemma Wakes(g: Setting, s: System, req: Packet, resp: Packet, k: nat, f: nat) returns (s1: System)
    requires Reachable(g, s) && Acked(s.hub, req, resp, k, f)
    ensures Reachable(g, s1) && s1.dialer == s.dialer
    ensures s1.hub == s.hub.(tabs := s1.hub.tabs, threads := s1.hub.threads) && |s1.hub.threads| == |s.hub.threads|
    ensures s1.hub.threads[k] == Waiter(req, resp, Returned(f, "", ""))
    ensures s1.hub.tabs.ack == s.hub.tabs.ack && s1.hub.tabs.closing == None
  {
    s1 := Go(g, s, Action(Hub, Net(CloseEntry)));
    s1 := Go(g, s1, Action(Hub, Calling(k, Wake)));
  }

  lemma Decides(g: Setting, s: System, req: Packet, resp: Packet, k: nat, f: nat) returns (s1: System)
    requires Reachable(g, s) && k < |s.hub.threads| && !s.hub.disposed && req.Request? && resp.Response?
    requires s.hub.threads[k] == Waiter(req, resp, Returned(f, "", ""))
    ensures Reachable(g, s1) && s1.dialer == s.dialer
    ensures s1.hub == s.hub.(
              state := StateAfter(s.hub, req, resp.error), threads := s.hub.threads[k := Worker(req, Leaving)],
              log := s1.hub.log)
    ensures s1.hub.log + [Ending(req.id)] == s.hub.log + Parting(s.hub, req, resp.error)
  {
    s1 := Go(g, s, Action(Hub, Working(k, Conclude)));
    s1 := Go(g, s1, Action(Hub, Working(k, Settle)));
  }

  lemma Leaves(g: Setting, s: System, req: Packet, resp: Packet, k: nat, f: nat) returns (s1: System)
    requires Reachable(g, s) && k < |s.hub.threads| && !s.hub.disposed && s.hub.handlingReq == {req.id}
    requires req.Request? && resp.Response? && s.hub.threads[k] == Waiter(req, resp, Returned(f, "", ""))
    ensures Reachable(g, s1) && s1.dialer == s.dialer
    ensures s1.hub == s.hub.(
              state := StateAfter(s.hub, req, resp.error), handlingReq := {},
              threads := s1.hub.threads, log := s.hub.log + Parting(s.hub, req, resp.error))
  {
    s1 := Decides(g, s, req, resp, k, f);
    s1 := Go(g, s1, Action(Hub, Working(k, Finish)));
  }

  /** A request is served from beginning to end. */
  lemma Served(g: Setting, s: System, req: Packet, result: string, error: string) returns (s1: System)
    requires Quiet(g, s) && req in s.dialer.sent && req.Request? && req.id.ReqId? && Gate(s.hub.state, req)
    ensures Quiet(g, s1) && Told(s.dialer, s1.dialer, Reply(req, result, error))
    ensures s1.hub.state == StateAfter(s.hub, req, error)
    ensures s1.hub.log == s.hub.log + Marks(req, Reply(req, result, error)) + Parting(s.hub, req, error)
  {
    ReachableInside(g, s);
    var k, f;
    s1, k, f := Answered(g, s, req, result, error);
    s1 := Wakes(g, s1, req, Reply(req, result, error), k, f);
    s1 := Leaves(g, s1, req, Reply(req, result, error), k, f);
  }
}
