/**
 Runs on which the source does not do what its names and comments suggest, each for a whole
 family of configurations, packets and handler outcomes.
 */
module Counterexamples {
  import opened Basics
  import opened Endpoint
  import opened Connection
  import opened Runs
  import Entries
  import Logins
  import Guarantees

  // ---- a request reaches the hub ----

  /** The hub's state after the connection, or after its loss when the gate is to be out of the way. */
  function StateAt(g: Setting, down: bool): ConnState {
    if down then Disconnected else Resolve(Init(Hub, g.crypto, g.needLogin), Connected)
  }

  /** The hub at that time: it has received nothing. */
  ghost predicate Ready(g: Setting, down: bool, h: Endpoint) {
    && h.side == Hub && h.crypto == g.crypto && h.needLogin == g.needLogin && !h.disposed
    && h.link == (if down then Down else Up) && h.state == StateAt(g, down)
    && h.reading == None && h.rxQueue == [] && h.handlingReq == {} && h.threads == [] && h.sent == {}
    && h.tabs == Tables(map[], map[], [], None)
    && (forall m :: m in h.log ==> (m.Entered? && m.cause.ByUser?) || m.LoginFired?)
    && (g.needLogin ==> !Logins.EnteredIn(h.log, Logined))
  }

  lemma HubReady(g: Setting, s: System, down: bool) returns (s1: System)
    requires Reachable(g, s) && s.hub == Init(Hub, g.crypto, g.needLogin)
    ensures Reachable(g, s1) && s1.dialer == s.dialer && Ready(g, down, s1.hub)
  {
    s1 := Go(g, s, Action(Hub, Control(Connect)));
    if down { s1 := Go(g, s1, Action(Hub, Control(Disconnect))); }
  }

  /** The dialer once it has sent its first packet. */
  function DialerAt(g: Setting, op: Op, pkt: Packet): Endpoint {
    Init(Dialer, g.crypto, g.needLogin).(
      tabs := MoveStore(Tables(map[], map[], [], None), 0, Call(op, pkt, Storing)).tabs,
      threads := [User(Call(op, pkt, Owning(0, false)))],
      sent := {pkt})
  }

  lemma Asks(g: Setting, op: Op, pkt: Packet) returns (s: System)
    requires FreshCall(Init(Dialer, g.crypto, g.needLogin), op, pkt)
    ensures Reachable(g, s) && s == Start(g).(dialer := DialerAt(g, op, pkt))
  {
    s := Begins(g);
    s := Go(g, s, Action(Dialer, Control(Begin(op, pkt))));
    s := Stores(g, s, Dialer, 0);
  }

  /** A handshake request that the dialer may make and the hub lets through in this state. */
  ghost predicate Admits(g: Setting, down: bool, req: Packet) {
    && req.Request? && (req.meth == ExchangeSecret || req.meth == Login) && req.id.ReqId? && req.id.minter == Dialer
    && Gate(StateAt(g, down), req) && (down ==> req in g.late)
  }

  /** The hub's worker is about to run the handler for the dialer's request. */
  lemma WorkerStarts(g: Setting, down: bool, req: Packet) returns (s: System, h: Endpoint)
    requires Admits(g, down, req)
    ensures Reachable(g, s) && s.dialer == DialerAt(g, RequestOnce, req) && Ready(g, down, h)
    ensures s.hub == h.(
              handlingReq := {req.id},
              threads := [Worker(req, Executing)],
              sent := {Ack(req.id)},
              log := h.log + [Dispatched(req)] + [Started(req.id)])
  {
    s := Asks(g, RequestOnce, req);
    s := HubReady(g, s, down);
    h := s.hub;
    s := RequestArrives(g, s, req);
  }

  // ---- what the logs of these runs show ----

  /** Only `req` has run here, and failed, if it failed, with `error`. */
  ghost predicate OnlyRan(log: seq<Mark>, req: Packet, error: string) {
    forall m :: m in log && m.Ran? ==> m.req == req && m.resp.Response? && (m.resp.error == "" || m.resp.error == error)
  }

  /** A success that has been concluded: the state change is the last thing in the log. */
  lemma Concluded(g: Setting, s: System, k: nat, error: string) returns (s1: System)
    requires Reachable(g, s) && Succeeding(s.hub, k) && OnlyRan(s.hub.log, s.hub.threads[k].req, error)
    ensures Reachable(g, s1) && s1.dialer == s.dialer && s1.hub.disposed == s.hub.disposed
    ensures var req := s.hub.threads[k].req;
            && s1.hub.state == Resolve(s.hub, Target(req))
            && Entered(s1.hub.state, ByWorker(req, s.hub.disposed)) in s1.hub.log
            && OnlyRan(s1.hub.log, req, error)
            && (forall m :: m in s.hub.log ==> m in s1.hub.log)
  {
    s1 := Concludes(g, s, k);
  }

  // ---- a disposed client's handshake completes unacknowledged ----

  /** SendPacketWithRetry reports no error when its context is done, so disposing a client whose
      handshake reply is pending changes its state although its peer has received nothing. */
  lemma DisposedHandshake(g: Setting, down: bool, req: Packet, value: string) returns (s: System)
    requires Admits(g, down, req)
    ensures Reachable(g, s) && s.dialer.log == [] && s.hub.disposed
    ensures s.hub.state == Resolve(Init(Hub, g.crypto, g.needLogin), Target(req))
    ensures Entered(s.hub.state, ByWorker(req, true)) in s.hub.log && OnlyRan(s.hub.log, req, "")
  {
    s := ReplyCutOff(g, down, req, value);
    s := Concluded(g, s, 0, "");
  }

  lemma ReplyCutOff(g: Setting, down: bool, req: Packet, value: string) returns (s: System)
    requires Admits(g, down, req)
    ensures Reachable(g, s) && s.dialer.log == [] && s.hub.disposed
    ensures s.hub.crypto == g.crypto && s.hub.needLogin == g.needLogin
    ensures Succeeding(s.hub, 0) && s.hub.threads[0].req == req && OnlyRan(s.hub.log, req, "")
  {
    var h: Endpoint;
    s, h := WorkerStarts(g, down, req);
    s := Replies(g, s, Hub, 0, value, "");
    s := Released(g, s, 0, 0);
  }

  /** The client is disposed, which ends the reply that goroutine `k` is waiting for. */
  lemma Released(g: Setting, s: System, k: nat, f: nat) returns (s1: System)
    requires WaitsAt(g, s, Hub, k, Owning(f, false))
    ensures Reachable(g, s1)
    ensures s1 == s.(hub := Moving(s.hub, k, s.hub.tabs, Cancelled).(disposed := true))
  {
    s1 := Go(g, s, Action(Hub, Control(Dispose)));
    s1 := Go(g, s1, Action(Hub, Calling(k, Cancel)));
  }

  // ---- a handshake is completed by the acknowledgement of an earlier failure ----

  /** The handler failed once, the dialer acknowledged that failure, and the hub's first worker
      timed out before the acknowledgement arrived. */
  lemma FailureAcknowledgedLate(g: Setting, down: bool, req: Packet, error: string) returns (s: System, h: Endpoint)
    requires Admits(g, down, req) && error != ""
    ensures Reachable(g, s) && Ready(g, down, h)
    ensures s.dialer.log == [Dispatched(Response(req.id, "", error))]
    ensures Ack(req.id) in s.dialer.sent && req in s.dialer.sent
    ensures s.hub == h.(
              tabs := Tables(map[], map[], [Fly(0, SendWithRetry, req.id, 0, 1, "", TIMEOUT)], None),
              threads := [Worker(req, Ended)],
              sent := {Ack(req.id), Response(req.id, "", error)},
              log := h.log + [Dispatched(req)] + [Started(req.id)]
                       + [Ran(req, Response(req.id, "", error))] + [Ending(req.id)])
  {
    s, h := WorkerStarts(g, down, req);
    s := Replies(g, s, Hub, 0, "", error);
    s := DialerLearns(g, s, req, error);
    s := GivesUp(g, s, Hub, 0, 0);
  }

  lemma DialerLearns(g: Setting, s: System, req: Packet, error: string) returns (s1: System)
    requires Reachable(g, s) && s.dialer == DialerAt(g, RequestOnce, req)
      && req.Request? && req.id != NoId && error != ""
    requires Response(req.id, "", error) in s.hub.sent
    ensures Reachable(g, s1) && s1.hub == s.hub
    ensures s1.dialer.log == [Dispatched(Response(req.id, "", error))]
    ensures s1.dialer.sent == {req, Ack(req.id)}
  {
    s1 := Arrives(g, s, Dialer, Response(req.id, "", error));
  }

  lemma FailedOnce(before: seq<Mark>, req: Packet, resp: Packet)
    requires resp.Response? && forall m :: m in before ==> !m.Ran?
    ensures var log := before + [Dispatched(req)] + [Started(req.id)] + [Ran(req, resp)] + [Ending(req.id)]
                         + [Dispatched(req)] + [Started(req.id)];
            Ran(req, resp) in log && OnlyRan(log, req, resp.error)
  {
  }

  /** The hub once the second copy of the request has been dispatched. */
  lemma SecondCopyStarts(g: Setting, down: bool, req: Packet, error: string) returns (s: System, h: Endpoint)
    requires Admits(g, down, req) && error != ""
    ensures Reachable(g, s) && Ready(g, down, h)
    ensures s.dialer.log == [Dispatched(Response(req.id, "", error))] && Ack(req.id) in s.dialer.sent
    ensures s.hub == h.(
              tabs := Tables(map[], map[], [Fly(0, SendWithRetry, req.id, 0, 1, "", TIMEOUT)], None),
              handlingReq := {req.id}, sent := s.hub.sent, log := s.hub.log,
              threads := [Worker(req, Ended)] + [Worker(req, Executing)])
    ensures Ran(req, Response(req.id, "", error)) in s.hub.log && OnlyRan(s.hub.log, req, error)
  {
    s, h := FailureAcknowledgedLate(g, down, req, error);
    s := RequestArrives(g, s, req);
    FailedOnce(h.log, req, Response(req.id, "", error));
  }

  /** It is run and succeeds. */
  lemma SecondCopyRuns(g: Setting, down: bool, req: Packet, error: string, value: string)
    returns (s: System, h: Endpoint)
    requires Admits(g, down, req) && error != ""
    ensures Reachable(g, s) && Ready(g, down, h)
    ensures s.dialer.log == [Dispatched(Response(req.id, "", error))] && Ack(req.id) in s.dialer.sent
    ensures s.hub == h.(
              tabs := s.hub.tabs, handlingReq := {req.id}, sent := s.hub.sent,
              log := s.hub.log, threads := s.hub.threads)
    ensures s.hub.tabs == Tables(map[], map[req.id := 1],
              [Fly(0, SendWithRetry, req.id, 0, 1, "", TIMEOUT), Fly(1, SendWithRetry, req.id, 0, 0, "", "")], None)
    ensures |s.hub.threads| == 2
    ensures s.hub.threads[1] ==
              Worker(req, Replying(Call(SendWithRetry, Response(req.id, value, ""), Owning(1, false))))
    ensures Ran(req, Response(req.id, "", error)) in s.hub.log && OnlyRan(s.hub.log, req, error)
  {
    s, h := SecondCopyStarts(g, down, req, error);
    s := Replies(g, s, Hub, 1, value, "");
  }

  /** The late acknowledgement of the failure then completes it: the undisposed hub has changed its
      state, and the dialer has received nothing but the error. */
  lemma StaleAckHandshake(g: Setting, down: bool, req: Packet, error: string, value: string) returns (s: System)
    requires Admits(g, down, req) && error != "" && (down ==> Ack(req.id) in g.late)
    ensures Reachable(g, s) && !s.hub.disposed
    ensures s.hub.state == Resolve(Init(Hub, g.crypto, g.needLogin), Target(req))
    ensures Entered(s.hub.state, ByWorker(req, false)) in s.hub.log
    ensures Ran(req, Response(req.id, "", error)) in s.hub.log && OnlyRan(s.hub.log, req, error)
    ensures forall resp :: Guarantees.PeerHasResponse(s, Hub, req, resp) ==> resp.error != ""
  {
    s := StaleAckArrives(g, down, req, error, value);
    s := Concluded(g, s, 1, error);
  }

  lemma StaleAckArrives(g: Setting, down: bool, req: Packet, error: string, value: string) returns (s: System)
    requires Admits(g, down, req) && error != "" && (down ==> Ack(req.id) in g.late)
    ensures Reachable(g, s) && s.dialer.log == [Dispatched(Response(req.id, "", error))]
    ensures s.hub.crypto == g.crypto && s.hub.needLogin == g.needLogin && !s.hub.disposed
    ensures Succeeding(s.hub, 1) && s.hub.threads[1].req == req
    ensures Ran(req, Response(req.id, "", error)) in s.hub.log && OnlyRan(s.hub.log, req, error)
  {
    var h: Endpoint;
    s, h := SecondCopyRuns(g, down, req, error, value);
    s := AckArrives(g, s, req.id);
    s := Wakes(g, s);
  }

  lemma Wakes(g: Setting, s: System) returns (s1: System)
    requires WaitsAt(g, s, Hub, 1, Owning(1, false)) && CallAt(s.hub, 1).op == SendWithRetry
    requires s.hub.tabs.closing == Some(AckBack(1)) && s.hub.tabs.flies[1].err == ""
    ensures Reachable(g, s1) && s1.dialer == s.dialer
    ensures s1.hub == s.hub.(tabs := s1.hub.tabs, threads := s1.hub.threads) && |s1.hub.threads| == |s.hub.threads|
    ensures s1.hub.threads[1] == WithWait(s.hub.threads[1], Returned(1, s.hub.tabs.flies[1].result, ""))
  {
    s1 := Go(g, s, Action(Hub, Net(CloseEntry)));
    s1 := Go(g, s1, Action(Hub, Calling(1, Wake)));
  }

  // ---- the two sides do not switch to the cipher together ----

  /** The dialer has its secret while the acknowledgement of the response is still on its way. */
  lemma DialerFirst(g: Setting, req: Packet, value: string) returns (s: System)
    requires g.crypto && g.needLogin && Admits(g, false, req) && req.meth == ExchangeSecret
    ensures Reachable(g, s) && s.hub.state == Connected && s.hub.link == Up
    ensures s.dialer.side == Dialer && s.dialer.state == ExchangedSecret && s.dialer.tabs.resp == map[]
    ensures |s.dialer.threads| == 1 && s.dialer.threads[0].User? && s.dialer.threads[0].call.pkt == req
  {
    var h: Endpoint;
    s, h := WorkerStarts(g, false, req);
    s := Replies(g, s, Hub, 0, value, "");
    s := Arrives(g, s, Dialer, Response(req.id, value, ""));
    s := Go(g, s, Action(Dialer, Net(CloseEntry)));
    s := Go(g, s, Action(Dialer, Calling(0, Wake)));
    s := Go(g, s, Action(Dialer, Control(Promote(0))));
  }

  /** It enciphers and sends its login, which the hub, if it reads it now, neither deciphers nor lets
      through. */
  lemma LoginTooEarly(g: Setting, req: Packet, value: string, login: Packet) returns (s: System)
    requires g.crypto && g.needLogin && Admits(g, false, req) && req.meth == ExchangeSecret
    requires login.Request? && login.meth == Login && login.id.ReqId? && login.id.minter == Dialer && login.id != req.id
    ensures Reachable(g, s) && s.dialer.state == ExchangedSecret && login in s.dialer.sent
    ensures s.hub.state == Connected && s.hub.link == Up && !Gate(s.hub.state, login)
  {
    s := DialerFirst(g, req, value);
    s := Go(g, s, Action(Dialer, Control(Begin(RequestOnce, login))));
    s := Stores(g, s, Dialer, 1);
  }

  // ---- after a disconnection the gate is open ----

  /** Whatever the dialer may send is dispatched by a hub whose transport hands it over after it has
      reported the disconnection; no LOGINED precedes it if a login is required. */
  lemma LateDispatch(g: Setting, op: Op, pkt: Packet) returns (s: System)
    requires FreshCall(Init(Dialer, g.crypto, g.needLogin), op, pkt) && pkt in g.late
    ensures Reachable(g, s) && Dispatched(pkt) in s.hub.log
    ensures g.needLogin ==> !Logins.EnteredIn(s.hub.log, Logined)
  {
    s := Asks(g, op, pkt);
    s := HubReady(g, s, true);
    s := Arrives(g, s, Hub, pkt);
  }

  /** A login handed over then makes a disposed hub LOGINED although no exchange has been run. */
  lemma LateLogin(g: Setting, req: Packet, value: string) returns (s: System)
    requires Admits(g, true, req) && req.meth == Login
    ensures Reachable(g, s) && s.hub.state == Logined && Logins.EnteredIn(s.hub.log, Logined)
    ensures forall m :: m in s.hub.log && m.Ran? && m.req.Request? ==> m.req.meth == Login
  {
    s := DisposedHandshake(g, true, req, value);
  }

  // ---- channels closed twice ----

  const NOTICE := Notice(NoticeId(0), "")

  const PLAIN := Setting(false, false, iset{})

  lemma TwoCalls() returns (s: System)
    ensures Reachable(PLAIN, s)
    ensures s.dialer == Init(Dialer, false, false)
    ensures s.hub == Init(Hub, false, false).(
              link := Up, state := Logined,
              tabs := Tables(map[], map[NOTICE.id := 0], [Fly(0, SendWithRetry, NOTICE.id, 0, 0, "", "")], None),
              threads := [User(Call(SendWithRetry, NOTICE, Owning(0, false))),
                          User(Call(SendWithRetry, NOTICE, Looking))],
              sent := {NOTICE},
              log := [Entered(Logined, ByUser), LoginFired])
  {
    s := Begins(PLAIN);
    s := Go(PLAIN, s, Action(Hub, Control(Connect)));
    s := Go(PLAIN, s, Action(Hub, Control(Begin(SendWithRetry, NOTICE))));
    s := Go(PLAIN, s, Action(Hub, Control(Begin(SendWithRetry, NOTICE))));
    assert s.hub.threads == [User(Call(SendWithRetry, NOTICE, Looking)), User(Call(SendWithRetry, NOTICE, Looking))];
    s := Stores(PLAIN, s, Hub, 0);
  }

  /** One publish forwarded by two overlapping subscriptions: both calls carry its id. The first
      is acknowledged, and the second has stored its own entry when the first's timer is chosen. */
  lemma OverlappingSends() returns (s: System)
    ensures Reachable(PLAIN, s)
    ensures s.hub.tabs == Tables(map[], map[NOTICE.id := 1],
              [Fly(0, SendWithRetry, NOTICE.id, 0, 1, "", ""), Fly(1, SendWithRetry, NOTICE.id, 0, 0, "", "")], None)
    ensures s.hub.threads ==
              [User(Call(SendWithRetry, NOTICE, Owning(0, false))), User(Call(SendWithRetry, NOTICE, Owning(1, false)))]
  {
    s := TwoCalls();
    s := Arrives(PLAIN, s, Dialer, NOTICE);
    s := AckArrives(PLAIN, s, NOTICE.id);
    s := Go(PLAIN, s, Action(Hub, Net(CloseEntry)));
    s := Stores(PLAIN, s, Hub, 1);
  }

  /** Deleting by id then removes the second call's entry and closes the first call's channel
      again; nobody is left who could close the second. */
  lemma RetryClosesTwice() returns (s: System)
    ensures Reachable(PLAIN, s)
    ensures |s.hub.tabs.flies| == 2 && s.hub.tabs.flies[0].ackBack == 2
    ensures Entries.Tokens(s.hub.tabs, s.hub.threads, 1) == 0
  {
    s := OverlappingSends();
    s := TimesOut(PLAIN, s, Hub, 0, 0);
  }

  /** An unretried request that timed out stays in its table, so its late response closes the
      closed channel. */
  lemma RequestClosesTwice(g: Setting, req: Packet, value: string) returns (s: System)
    requires Admits(g, false, req)
    ensures Reachable(g, s)
    ensures |s.dialer.tabs.flies| == 1 && s.dialer.tabs.flies[0].resultBack == 2
  {
    var h: Endpoint;
    s, h := WorkerStarts(g, false, req);
    s := Replies(g, s, Hub, 0, value, "");
    s := Go(g, s, Action(Dialer, Calling(0, Expire)));
    s := Arrives(g, s, Dialer, Response(req.id, value, ""));
    s := Go(g, s, Action(Dialer, Net(CloseEntry)));
  }
}
