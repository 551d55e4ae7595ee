/**
 What can always be brought about: for every configuration both sides can log in, after which every
 request can be answered and every notice delivered; and no waiting call is ever stuck.
 */
module Progress {
  import opened Basics
  import opened Endpoint
  import opened Connection
  import opened Runs
  import opened Dialogues
  import Entries

  // ---- a request and its answer ----

  /** Call `k` of the dialer has returned this. */
  ghost predicate Got(e: Endpoint, op: Op, req: Packet, k: nat, value: string, err: string) {
    && k < |e.threads| && e.threads[k].User? && e.threads[k].call.op == op && e.threads[k].call.pkt == req
    && e.threads[k].call.wait.Returned?
    && e.threads[k].call.wait.value == value && e.threads[k].call.wait.err == err
  }

  lemma Fills(t: Tables, resp: Packet, f: nat, fly: Fly)
    requires InRange(t) && resp.Response? && resp.id in t.resp && t.resp[resp.id] == f && f < |t.flies|
    requires t.flies[f] == fly && fly.resultBack == 0 && fly.result == "" && fly.err == ""
    requires resp.error != "" ==> resp.result == ""
    ensures var u := Filled(t, resp);
            && |u.flies| == |t.flies| && u.ack == t.ack && u.resp == Remove(t.resp, resp.id)
            && u.flies[f] == fly.(resultBack := 1, result := resp.result, err := resp.error)
  {
  }

  /** The dialer's waiting call is woken. */
  lemma Returns(g: Setting, s: System, op: Op, req: Packet, k: nat, f: nat) returns (s1: System)
    requires Reachable(g, s) && k < |s.dialer.threads| && f < |s.dialer.tabs.flies| && op != SendWithRetry
    requires s.dialer.threads[k] == User(Call(op, req, Owning(f, false))) && s.dialer.tabs.flies[f].resultBack == 1
    ensures Reachable(g, s1) && k < |s1.dialer.threads|
    ensures s1 == s.(dialer := s.dialer.(threads := s.dialer.threads[k := s1.dialer.threads[k]]))
    ensures Got(s1.dialer, op, req, k, s.dialer.tabs.flies[f].result, s.dialer.tabs.flies[f].err)
  {
    s1 := Go(g, s, Action(Dialer, Calling(k, Wake)));
  }

  lemma UnusedOn(e: Endpoint, e1: Endpoint, n: nat, k: nat)
    requires Unused(e, n) && e1.side == e.side && k < |e.threads| == |e1.threads|
    requires e1.threads == e.threads[k := e1.threads[k]] && e.threads[k].User? && e1.threads[k].User?
    requires e1.threads[k].call.pkt == e.threads[k].call.pkt
    requires forall id :: id in e1.tabs.resp ==> id in e.tabs.resp
    ensures Unused(e1, n)
  {
  }

  /** The dialer has been told the answer to a call that waits for it. */
  lemma Collects(g: Setting, e: Endpoint, s: System, n: nat, op: Op, req: Packet, resp: Packet, k: nat, f: nat)
    returns (s1: System)
    requires Quiet(g, s) && Told(e, s.dialer, resp) && Asking(e, op, req, k, f) && Unused(e, n)
    requires op != SendWithRetry && req.Request? && resp.Response? && resp.id == req.id
    requires resp.error != "" ==> resp.result == ""
    ensures Quiet(g, s1) && Unused(s1.dialer, n) && s1.dialer.tabs.ack == e.tabs.ack
    ensures s1.dialer.state == e.state && s1.hub == s.hub && Got(s1.dialer, op, req, k, resp.result, resp.error)
  {
    Fills(e.tabs, resp, f, Fly(k, op, req.id, 0, 0, "", ""));
    s1 := Returns(g, s, op, req, k, f);
    UnusedOn(e, s1.dialer, n, k);
  }

  /** Between quiet sides, a request that may enter is run and its outcome returned, whichever of the
      two request functions made it and whatever the handler made of it. */
  lemma Answers(g: Setting, s: System, n: nat, op: Op, req: Packet, result: string, error: string)
    returns (s1: System, k: nat)
    requires Quiet(g, s) && Unused(s.dialer, n) && op != SendWithRetry
    requires req.Request? && req.id == ReqId(Dialer, n) && Gate(s.hub.state, req)
    ensures Quiet(g, s1) && Unused(s1.dialer, n + 1) && s1.dialer.tabs.ack == s.dialer.tabs.ack
    ensures s1.dialer.state == s.dialer.state && s1.hub.state == StateAfter(s.hub, req, error)
    ensures Got(s1.dialer, op, req, k, if error == "" then result else "", error)
    ensures Ran(req, Response(req.id, if error == "" then result else "", error)) in s1.hub.log
  {
    k := |s.dialer.threads|;
    var f := |s.dialer.tabs.flies|;
    var s2 := Sends(g, s, n, op, req);
    var s3 := Served(g, s2, req, result, error);
    s1 := Collects(g, s2.dialer, s3, n + 1, op, req, Reply(req, result, error), k, f);
    assert s1.hub.log[|s2.hub.log| + 2] == Ran(req, Reply(req, result, error));
  }

  // ---- logging in ----

  /** Login() changes the dialer's state. */
  lemma Promotes(g: Setting, s: System, req: Packet, k: nat, value: string) returns (s1: System)
    requires Quiet(g, s) && Got(s.dialer, RequestOnce, req, k, value, "") && req.Request?
    requires req.meth == ExchangeSecret || req.meth == Login
    ensures Quiet(g, s1) && s1.hub == s.hub && s1.dialer.state == Resolve(s.dialer, Target(req))
    ensures s1.dialer.threads == s.dialer.threads && s1.dialer.tabs == s.dialer.tabs
  {
    s1 := Go(g, s, Action(Dialer, Control(Promote(k))));
  }

  /** A handshake request succeeds, and both sides change their state. */
  lemma Handshakes(g: Setting, s: System, n: nat, req: Packet, value: string) returns (s1: System)
    requires Quiet(g, s) && Unused(s.dialer, n) && req.Request? && req.id == ReqId(Dialer, n)
    requires (req.meth == ExchangeSecret || req.meth == Login) && Gate(s.hub.state, req)
    ensures Quiet(g, s1) && Unused(s1.dialer, n + 1) && s1.dialer.tabs.ack == s.dialer.tabs.ack
    ensures s1.hub.state == Resolve(s.hub, Target(req)) && s1.dialer.state == Resolve(s.dialer, Target(req))
  {
    var k;
    s1, k := Answers(g, s, n, RequestOnce, req, value, "");
    s1 := Promotes(g, s1, req, k, value);
  }

  /** Both sides are connected and have exchanged nothing. */
  lemma Connects(g: Setting) returns (s: System)
    ensures Quiet(g, s) && Unused(s.dialer, 0) && s.dialer.tabs.ack == map[]
    ensures s.hub.state == s.dialer.state ==
              if g.crypto then Connected else if g.needLogin then ExchangedSecret else Logined
  {
    s := Begins(g);
    s := Go(g, s, Action(Dialer, Control(Connect)));
    s := Go(g, s, Action(Hub, Control(Connect)));
  }

  /** Whatever the configuration, the exchange, if there is one, and the login can succeed. */
  lemma LogsIn(g: Setting, key: string, secret: string, params: string, greeting: string) returns (s: System)
    ensures Quiet(g, s) && Unused(s.dialer, 2) && s.dialer.tabs.ack == map[]
    ensures s.hub.state == Logined && s.dialer.state == Logined
  {
    s := Connects(g);
    if g.crypto { s := Handshakes(g, s, 0, Request(ReqId(Dialer, 0), ExchangeSecret, key), secret); }
    assert Unused(s.dialer, 1);
    s := Handshakes(g, s, 1, Request(ReqId(Dialer, 1), Login, params), greeting);
  }

  /** After which a request with any method, made by either function, gets back exactly what its
      handler returned: the result if there was no error, otherwise the error. */
  lemma EveryRequest(g: Setting, op: Op, meth: Method, params: string, result: string, error: string)
    returns (s: System, k: nat)
    requires op != SendWithRetry
    ensures Reachable(g, s) && k < |s.dialer.threads| && s.dialer.threads[k].User?
    ensures var call := s.dialer.threads[k].call;
            && call.op == op && call.pkt == Request(ReqId(Dialer, 2), meth, params) && call.wait.Returned?
            && call.wait.value == (if error == "" then result else "") && call.wait.err == error
  {
    s := LogsIn(g, "", "", "", "");
    s, k := Answers(g, s, 2, op, Request(ReqId(Dialer, 2), meth, params), result, error);
  }

  // ---- a notice and its acknowledgement ----

  ghost predicate Free(e: Endpoint, side: Side) {
    && e.side == side && e.reading == None && e.rxQueue == [] && e.tabs.closing == None && e.tabs.ack == map[]
    && InRange(e.tabs) && e.state == Logined && (side == Hub ==> e.link == Up)
  }

  ghost predicate AllFree(g: Setting, s: System) {
    Reachable(g, s) && Free(s.dialer, Dialer) && Free(s.hub, Hub)
  }

  /** One side has sent a notice and waits for its acknowledgement. */
  lemma Posts(g: Setting, s: System, side: Side, pkt: Packet) returns (s1: System)
    requires AllFree(g, s) && pkt.Notice? && pkt.id.NoticeId?
    ensures Reachable(g, s1) && At(s1, Other(side)) == At(s, Other(side))
    ensures var e, k, f := At(s, side), |At(s, side).threads|, |At(s, side).tabs.flies|;
            At(s1, side) == e.(
              tabs := e.tabs.(
                ack := map[pkt.id := f], flies := e.tabs.flies + [Fly(k, SendWithRetry, pkt.id, 0, 0, "", "")]),
              threads := e.threads + [User(Call(SendWithRetry, pkt, Owning(f, false)))],
              sent := e.sent + {pkt})
  {
    s1 := Go(g, s, Action(side, Control(Begin(SendWithRetry, pkt))));
    s1 := Stores(g, s1, side, |At(s, side).threads|);
  }

  /** The other side dispatches it and acknowledges. */
  lemma Takes(g: Setting, s: System, side: Side, pkt: Packet) returns (s1: System)
    requires Reachable(g, s) && Free(At(s, side), side) && pkt.Notice? && pkt.id != NoId
    requires pkt in At(s, Other(side)).sent
    ensures Reachable(g, s1) && At(s1, Other(side)) == At(s, Other(side))
    ensures At(s1, side) == At(s, side).(
              sent := At(s, side).sent + {Ack(pkt.id)}, log := At(s, side).log + [Dispatched(pkt)])
  {
    s1 := Arrives(g, s, side, pkt);
  }

  /** The acknowledgement wakes the call that waits for it. */
  lemma Confirms(g: Setting, s: System, side: Side, pkt: Packet, k: nat, f: nat) returns (s1: System)
    requires Reachable(g, s) && Ack(pkt.id) in At(s, Other(side)).sent
    requires var e := At(s, side);
             && e.side == side && e.reading == None && e.rxQueue == [] && e.tabs.closing == None && e.state == Logined
             && InRange(e.tabs) && (side == Hub ==> e.link == Up) && e.tabs.ack == map[pkt.id := f]
             && f < |e.tabs.flies| && e.tabs.flies[f] == Fly(k, SendWithRetry, pkt.id, 0, 0, "", "")
             && k < |e.threads| && e.threads[k] == User(Call(SendWithRetry, pkt, Owning(f, false)))
    ensures Reachable(g, s1) && At(s1, Other(side)) == At(s, Other(side))
    ensures k < |At(s1, side).threads|
         && At(s1, side).threads[k] == User(Call(SendWithRetry, pkt, Returned(f, "", "")))
  {
    s1 := Arrives(g, s, side, Ack(pkt.id));
    s1 := Go(g, s1, Action(side, Net(CloseEntry)));
    s1 := Go(g, s1, Action(side, Calling(k, Wake)));
  }

  /** Once both are logged in, either side can deliver any notice, a publish say, and its call then
      returns no error. */
  lemma EveryNotice(g: Setting, side: Side, n: nat, body: string) returns (s: System, k: nat)
    ensures Reachable(g, s) && Dispatched(Notice(NoticeId(n), body)) in At(s, Other(side)).log
    ensures k < |At(s, side).threads| && At(s, side).threads[k].User?
    ensures var call := At(s, side).threads[k].call;
            && call.op == SendWithRetry && call.pkt == Notice(NoticeId(n), body)
            && call.wait.Returned? && call.wait.err == ""
  {
    var pkt := Notice(NoticeId(n), body);
    s := LogsIn(g, "", "", "", "");
    ReachableInside(g, s);
    var f;
    k, f := |At(s, side).threads|, |At(s, side).tabs.flies|;
    s := Posts(g, s, side, pkt);
    s := Takes(g, s, Other(side), pkt);
    s := Confirms(g, s, side, pkt, k, f);
  }

  // ---- no call is stuck ----

  /** What a call in its loop can do next: it may always time out, it is woken exactly once its channel
      is closed, cancelled exactly on a disposed client, and resends unless it is a plain Request. */
  lemma InLoop(s: System, side: Side, k: nat)
    requires Inv(s) && InCall(At(s, side), k) && CallAt(At(s, side), k).wait.Owning?
    ensures var e, call := At(s, side), CallAt(At(s, side), k);
            && call.wait.entry < |e.tabs.flies|
            && CanCall(e, k, Expire)
            && (CanCall(e, k, Cancel) <==> e.disposed)
            && (CanCall(e, k, Resend) <==> call.op != RequestOnce)
            && (CanCall(e, k, Wake) <==>
                  (if call.op == SendWithRetry then e.tabs.flies[call.wait.entry].ackBack
                   else e.tabs.flies[call.wait.entry].resultBack) > 0)
  {
    assert Entries.CallOk(At(s, side).tabs, k, At(s, side).threads[k]);
  }

  /** If the entry's `ackBack` were closed, the loop would stop resending, but not stop waiting. */
  lemma NotedMeansQuiet(e: Endpoint, k: nat)
    requires CanCall(e, k, NoteAck)
    ensures var e1 := CallStep(e, k, NoteAck);
            !CanCall(e1, k, Resend) && CanCall(e1, k, Expire) && e1.tabs == e.tabs && e1.sent == e.sent
  {
  }

  /** A dialing client may connect again whatever has happened to its connection. */
  lemma Reconnects(e: Endpoint)
    requires e.side == Dialer
    ensures CanControl(e, Connect)
    ensures ControlStep(e, Connect).link == Up
    ensures ControlStep(e, Connect).state ==
              if e.crypto then Connected else if e.needLogin then ExchangedSecret else Logined
  {
  }

  /** Only this call moves. */
  ghost predicate Alone(s: System, acts: seq<Action>, s1: System, side: Side, k: nat)
    decreases |acts|
  {
    if acts == [] then s == s1
    else
      && acts[0].side == side && acts[0].ev.Calling? && acts[0].ev.k == k && Can(s, acts[0])
      && Alone(Do(s, acts[0]), acts[1..], s1, side, k)
  }

  lemma AloneNext(s: System, a: Action, acts: seq<Action>, s1: System) returns (all: seq<Action>)
    requires a.ev.Calling? && Can(s, a) && Alone(Do(s, a), acts, s1, a.side, a.ev.k)
    ensures Alone(s, all, s1, a.side, a.ev.k)
  {
    all := [a] + acts;
    assert all[0] == a && all[1..] == acts;
  }

  function StepsLeft(w: Wait): nat {
    match w
    case Looking => 5 case Storing => 4 case Owning(_, _) => 3 case TimingOut(_) => 2 case Closing(_) => 1 case _ => 0
  }

  /** Next on the way out without anybody's help. */
  function WayOut(w: Wait): CallEvent {
    match w
    case Looking => LookUp case Storing => LoadOrStore case Owning(_, _) => Expire
    case TimingOut(_) => LoadAndDelete case _ => CloseChannel
  }

  lemma OneMove(t: Tables, k: nat, call: Call, disposed: bool)
    requires EntryInRange(t, call.wait) && StepsLeft(call.wait) > 0
    ensures CanMove(t, call, disposed, WayOut(call.wait))
    ensures var w := Move(t, k, call, disposed, WayOut(call.wait)).wait;
            !w.Cancelled? && StepsLeft(w) < StepsLeft(call.wait)
  {
  }

  lemma OneStep(e: Endpoint, k: nat)
    requires Entries.Shape(e.tabs, e.threads) && InCall(e, k) && StepsLeft(CallAt(e, k).wait) > 0
    ensures CanCall(e, k, WayOut(CallAt(e, k).wait))
    ensures var e1 := CallStep(e, k, WayOut(CallAt(e, k).wait));
            && InCall(e1, k)
            && var w := CallAt(e1, k).wait;
               !w.Cancelled? && StepsLeft(w) < StepsLeft(CallAt(e, k).wait)
  {
    assert Entries.CallOk(e.tabs, k, e.threads[k]);
    OneMove(e.tabs, k, CallAt(e, k), e.disposed);
  }

  /** How far call `k` is from its end. */
  ghost function Remaining(s: System, side: Side, k: nat): nat
    requires InCall(At(s, side), k)
  {
    StepsLeft(CallAt(At(s, side), k).wait)
  }

  ghost predicate Waits(s: System, side: Side, k: nat) {
    Inv(s) && InCall(At(s, side), k) && !CallAt(At(s, side), k).wait.Cancelled?
  }

  lemma OneMore(s: System, side: Side, k: nat) returns (a: Action, s1: System)
    requires Waits(s, side, k) && Remaining(s, side, k) > 0
    ensures a.side == side && a.ev.Calling? && a.ev.k == k && Can(s, a) && s1 == Do(s, a)
    ensures Waits(s1, side, k) && Remaining(s1, side, k) < Remaining(s, side, k)
  {
    OneStep(At(s, side), k);
    a := Action(side, Calling(k, WayOut(CallAt(At(s, side), k).wait)));
    StepInv(s, a);
    s1 := Do(s, a);
  }

  /** From every reachable state, every call that is not cancelled comes by its own steps alone to its
      end, or to waiting on the entry of another call that carries its id. */
  lemma {:induction false} Ends(s: System, side: Side, k: nat) returns (acts: seq<Action>, s1: System)
    requires Waits(s, side, k)
    ensures Alone(s, acts, s1, side, k)
    ensures InCall(At(s1, side), k)
         && (CallAt(At(s1, side), k).wait.Returned? || CallAt(At(s1, side), k).wait.Watching?)
    decreases Remaining(s, side, k)
  {
    if Remaining(s, side, k) == 0 {
      acts, s1 := [], s;
    } else {
      var a, s2 := OneMore(s, side, k);
      acts, s1 := Ends(s2, side, k);
      acts := AloneNext(s, a, acts, s1);
    }
  }

  /** The entry that is pending under the id of call `k`. */
  function Pending(e: Endpoint, k: nat): Option<nat>
    requires InCall(e, k)
  {
    var call := CallAt(e, k);
    var table := if call.op == SendWithRetry then e.tabs.ack else e.tabs.resp;
    if call.pkt.id in table then Some(table[call.pkt.id]) else None
  }

  /** Call `k` waits on entry `f`, which another call stored: it is woken exactly when the entry's channel
      is closed, and a disposal releases it only if `released`. */
  ghost predicate Joined(e: Endpoint, k: nat, f: nat, released: bool) {
    && InCall(e, k) && f < |e.tabs.flies|
    && CallAt(e, k).wait.Watching? && CallAt(e, k).wait.entry == f
    && (CanCall(e, k, Cancel) <==> e.disposed && released)
    && (CanCall(e, k, Wake) <==>
          (if CallAt(e, k).op == SendWithRetry then e.tabs.flies[f].ackBack else e.tabs.flies[f].resultBack) > 0)
  }

  /** A call under an id that is pending joins the pending entry at its first step and sends nothing; a
      disposal does not release a SendPacketWithRetry that has joined here. */
  lemma Joins(e: Endpoint, k: nat)
    requires Entries.Shape(e.tabs, e.threads) && InCall(e, k) && CallAt(e, k).wait == Looking
    requires Pending(e, k).Some?
    ensures CanCall(e, k, LookUp)
    ensures var e1 := CallStep(e, k, LookUp);
            e1.sent == e.sent && e1.tabs == e.tabs
            && Joined(e1, k, Pending(e, k).value, CallAt(e, k).op != SendWithRetry)
  {
  }

  /** One that has found nothing at first, but whose id has become pending before it stores, joins as
      well and sends nothing, and every disposal releases it. */
  lemma JoinsLate(e: Endpoint, k: nat)
    requires Entries.Shape(e.tabs, e.threads) && InCall(e, k) && CallAt(e, k).wait == Storing
    requires Pending(e, k).Some?
    ensures CanCall(e, k, LoadOrStore)
    ensures var e1 := CallStep(e, k, LoadOrStore);
            e1.sent == e.sent && e1.tabs == e.tabs && Joined(e1, k, Pending(e, k).value, true)
  {
  }

  /** And if nothing is pending under its id, it becomes the owner of a new entry and sends its packet. */
  lemma Owns(e: Endpoint, k: nat)
    requires Entries.Shape(e.tabs, e.threads) && InCall(e, k) && Pending(e, k).None?
    requires CallAt(e, k).wait == Looking || CallAt(e, k).wait == Storing
    ensures CallAt(e, k).wait == Looking ==>
              CanCall(e, k, LookUp) && InCall(CallStep(e, k, LookUp), k)
              && CallAt(CallStep(e, k, LookUp), k).wait == Storing && CallStep(e, k, LookUp).sent == e.sent
    ensures CallAt(e, k).wait == Storing ==>
              && CanCall(e, k, LoadOrStore)
              && var e1 := CallStep(e, k, LoadOrStore);
                 InCall(e1, k) && CallAt(e1, k).wait == Owning(|e.tabs.flies|, false)
                 && e1.sent == e.sent + {CallAt(e, k).pkt} && Pending(e1, k) == Some(|e.tabs.flies|)
  {
  }
}
