/** What callers and operators of a connection can rely on, over every run. */
module Guarantees {
  import opened Endpoint
  import opened Connection
  import Workers
  import Entries
  import Answers
  import Traffic
  import Causes

  // ---- the model's own guards ----

  /** What the steps of a goroutine presuppose of the entry, the request or the response it holds. */
  ghost predicate WellFormed(e: Endpoint, t: Thread) {
    && (CallOf(t).Some? ==> EntryInRange(e.tabs, CallOf(t).value.wait))
    && (t.Worker? ==> t.req.Request? && (t.stage.Deciding? ==> t.stage.resp.Response?))
  }

  /** The guards that make the transition function total on its tables and goroutines hold in every
      reachable state, so they exclude no run. */
  lemma GuardsHold(s: System, acts: seq<Action>, s1: System, side: Side)
    requires Initial(s) && Reaches(s, acts, s1)
    ensures var e := At(s1, side);
            && InRange(e.tabs) && (e.tabs.closing.Some? ==> e.tabs.closing.value.entry < |e.tabs.flies|)
            && forall k :: 0 <= k < |e.threads| ==> WellFormed(e, e.threads[k])
  {
    InitialInv(s);
    RunInv(s, acts, s1);
    var e := At(s1, side);
    forall k | 0 <= k < |e.threads| ensures WellFormed(e, e.threads[k]) {
      assert Entries.CallOk(e.tabs, k, e.threads[k]) && Workers.WorkerOk(e.threads[k], e.handlingReq, e.log);
    }
  }

  // ---- request execution ----

  /** An id is being handled exactly while one worker for it lives. */
  lemma OneWorkerPerId(s: System, acts: seq<Action>, s1: System, side: Side, id: Id)
    requires Initial(s) && Reaches(s, acts, s1)
    ensures var e := At(s1, side);
            id in e.handlingReq <==> exists k :: Workers.SoleWorker(e.threads, id, k)
  {
    InitialInv(s);
    RunInv(s, acts, s1);
    Workers.Handled(At(s1, side), id);
  }

  /** Executions of one id never overlap: between two of them the earlier worker ended and
      afterwards another copy of the request was dispatched. */
  lemma ExecutionsSeparated(s: System, acts: seq<Action>, s1: System, side: Side, i: nat, j: nat)
    requires Initial(s) && Reaches(s, acts, s1)
    requires i < j < |At(s1, side).log|
    requires At(s1, side).log[i].Ran? && At(s1, side).log[j].Ran?
    requires At(s1, side).log[i].req.id == At(s1, side).log[j].req.id
    ensures var log := At(s1, side).log;
            var id := log[i].req.id;
            exists b, c :: i < b < c && c + 1 < j && log[b] == Ending(id)
              && log[c].Dispatched? && log[c].pkt.Request? && log[c].pkt.id == id && log[c + 1] == Started(id)
  {
    InitialInv(s);
    RunInv(s, acts, s1);
    var log := At(s1, side).log;
    var b, c := Workers.Separated(log, i, j, log[i].req.id);
  }

  // ---- returned values ----

  /** The requests `e` made under one id are one request. */
  lemma OneRequest(e: Endpoint, p: Packet, q: Packet)
    requires Traffic.Inv(e) && p in e.sent && q in e.sent && p.Request? && q.Request?
    requires p.id == q.id && p.id != NoId
    ensures p == q
  {
    assert Traffic.SentOk(e.side, e.threads, e.log, p) && Traffic.SentOk(e.side, e.threads, e.log, q);
    var j :| 0 <= j < |e.threads| && e.threads[j].User? && e.threads[j].call.pkt == p
              && e.threads[j].call.op != SendWithRetry;
    var k :| 0 <= k < |e.threads| && e.threads[k].User? && e.threads[k].call.pkt == q
              && e.threads[k].call.op != SendWithRetry;
    if j < k {} else if k < j {}
  }

  /** A dispatched response was produced by running the request of that id on the other side. */
  lemma ResponseProduced(s: System, side: Side, resp: Packet) returns (req: Packet)
    requires Inv(s) && resp.Response? && Dispatched(resp) in At(s, side).log
    ensures Ran(req, resp) in At(s, Other(side)).log
    ensures req.Request? && req.id == resp.id && req.id != NoId && req in At(s, side).sent
  {
    var e, p := At(s, side), At(s, Other(side));
    assert Traffic.SentOk(p.side, p.threads, p.log, resp);
    req :| Ran(req, resp) in p.log;
    Workers.RanMeans(p.log, req, resp);
  }

  ghost predicate ReturnedOk(e: Endpoint, k: nat) {
    && InCall(e, k) && CallAt(e, k).op != SendWithRetry
    && CallAt(e, k).wait.Returned? && CallAt(e, k).wait.err == ""
  }

  lemma ReturnedAnswer(s: System, side: Side, k: nat)
    requires Inv(s) && ReturnedOk(At(s, side), k)
    ensures var call := CallAt(At(s, side), k);
            Dispatched(Response(call.pkt.id, call.wait.value, "")) in At(s, side).log
  {
    var e := At(s, side);
    assert Answers.ThreadOk(e.tabs, e.log, e.disposed, e.threads[k]);
    assert Entries.CallOk(e.tabs, k, e.threads[k]);
  }

  /** A value returned without error was produced by running this very request on the other side. */
  lemma ReturnedValueProduced(s: System, acts: seq<Action>, s1: System, side: Side, k: nat)
    requires Initial(s) && Reaches(s, acts, s1) && ReturnedOk(At(s1, side), k)
    ensures var call := CallAt(At(s1, side), k);
            Ran(call.pkt, Response(call.pkt.id, call.wait.value, "")) in At(s1, Other(side)).log
  {
    InitialInv(s);
    RunInv(s, acts, s1);
    ReturnedProduced(s1, side, k);
  }

  lemma ReturnedProduced(s: System, side: Side, k: nat)
    requires Inv(s) && ReturnedOk(At(s, side), k)
    ensures var call := CallAt(At(s, side), k);
            Ran(call.pkt, Response(call.pkt.id, call.wait.value, "")) in At(s, Other(side)).log
  {
    ReturnedAnswer(s, side, k);
    var e := At(s, side);
    var call := CallAt(e, k);
    var req := ResponseProduced(s, side, Response(call.pkt.id, call.wait.value, ""));
    assert e.threads[k].User? by { assert Workers.WorkerOk(e.threads[k], e.handlingReq, e.log); }
    CallersRequest(e, k, req);
  }

  /** A request sent under the id of a user's call is that call's request. */
  lemma CallersRequest(e: Endpoint, k: nat, req: Packet)
    requires Traffic.Inv(e) && k < |e.threads| && e.threads[k].User? && e.threads[k].call.op != SendWithRetry
    requires req in e.sent && req.Request? && req.id == e.threads[k].call.pkt.id && req.id != NoId
    ensures req == e.threads[k].call.pkt
  {
    assert Traffic.SentOk(e.side, e.threads, e.log, req);
    var j :| 0 <= j < |e.threads| && e.threads[j].User? && e.threads[j].call.pkt == req
              && e.threads[j].call.op != SendWithRetry;
    if j < k {} else if k < j {}
  }

  /** Calls that shared one entry and returned without error returned the same value. */
  lemma SharersAgree(s: System, acts: seq<Action>, s1: System, side: Side, j: nat, k: nat)
    requires Initial(s) && Reaches(s, acts, s1)
    requires ReturnedOk(At(s1, side), j) && ReturnedOk(At(s1, side), k)
    requires CallAt(At(s1, side), j).wait.entry == CallAt(At(s1, side), k).wait.entry
    ensures CallAt(At(s1, side), j).wait.value == CallAt(At(s1, side), k).wait.value
  {
    InitialInv(s);
    RunInv(s, acts, s1);
    var e := At(s1, side);
    assert Answers.ThreadOk(e.tabs, e.log, e.disposed, e.threads[j]);
    assert Answers.ThreadOk(e.tabs, e.log, e.disposed, e.threads[k]);
  }

  /** Acknowledgements are sent for exactly what was received: one for an id goes out if and only
      if some other packet with that id was dispatched here. */
  lemma AcksWhatItReceives(s: System, acts: seq<Action>, s1: System, side: Side, id: Id)
    requires Initial(s) && Reaches(s, acts, s1)
    ensures Ack(id) in At(s1, side).sent <==>
              id != NoId && exists p: Packet :: Dispatched(p) in At(s1, side).log && p.id == id && !p.Ack?
  {
    InitialInv(s);
    RunInv(s, acts, s1);
    var e := At(s1, side);
    if Ack(id) in e.sent { assert Traffic.SentOk(e.side, e.threads, e.log, Ack(id)); }
  }

  /** Acknowledgements never stop the retransmission of a request, whatever the comment above
      RequestWithRetryByPacket says. Its loop watches the entry's `ackBack`, but onReceiveAck looks
      in `pendingAck` only: in no run is the `ackBack` of a request's entry ever closed ... */
  lemma RequestsNeverAcked(s: System, acts: seq<Action>, s1: System, side: Side, f: nat)
    requires Initial(s) && Reaches(s, acts, s1)
    requires f < |At(s1, side).tabs.flies| && At(s1, side).tabs.flies[f].op != SendWithRetry
    ensures At(s1, side).tabs.flies[f].ackBack == 0
  {
    InitialInv(s);
    RunInv(s, acts, s1);
    assert Entries.FlyOk(At(s1, side).tabs.flies[f]);
  }

  /** ... so a call in its loop never sets `beAcked`, and may send its request again. */
  lemma RequestsKeepResending(s: System, acts: seq<Action>, s1: System, side: Side, k: nat)
    requires Initial(s) && Reaches(s, acts, s1)
    requires InCall(At(s1, side), k) && CallAt(At(s1, side), k).wait.Owning?
    requires CallAt(At(s1, side), k).op == RequestWithRetry
    ensures !CallAt(At(s1, side), k).wait.beAcked
    ensures !CanCall(At(s1, side), k, NoteAck) && CanCall(At(s1, side), k, Resend)
  {
    InitialInv(s);
    RunInv(s, acts, s1);
    NeverAcked(At(s1, side).tabs, At(s1, side).threads, k, At(s1, side).disposed);
  }

  lemma NeverAcked(t: Tables, threads: seq<Thread>, k: nat, disposed: bool)
    requires Entries.Shape(t, threads) && k < |threads| && CallOf(threads[k]).Some?
    requires CallOf(threads[k]).value.wait.Owning? && CallOf(threads[k]).value.op == RequestWithRetry
    ensures var call := CallOf(threads[k]).value;
            !call.wait.beAcked && !CanMove(t, call, disposed, NoteAck) && CanMove(t, call, disposed, Resend)
  {
    assert Entries.CallOk(t, k, threads[k]);
    Entries.NotNoted(t, threads, k, disposed);
  }

  /** Responses carry request ids. */
  lemma ResponseId(s: System, side: Side, resp: Packet)
    requires Inv(s) && resp.Response? && resp in At(s, side).sent
    ensures resp.id.ReqId?
  {
    var e, p := At(s, side), At(s, Other(side));
    assert Traffic.SentOk(e.side, e.threads, e.log, resp);
    var req :| Ran(req, resp) in e.log;
    Workers.RanMeans(e.log, req, resp);
    assert Traffic.SentOk(p.side, p.threads, p.log, req);
  }

  /** When SendPacketWithRetry returns no error to a caller whose client is not disposed, the peer
      has received the caller's packet, or another one that this side sent under the same id. */
  lemma SentMeansReceived(s: System, acts: seq<Action>, s1: System, side: Side, k: nat) returns (p: Packet)
    requires Initial(s) && Reaches(s, acts, s1)
    requires InCall(At(s1, side), k) && At(s1, side).threads[k].User? && CallAt(At(s1, side), k).op == SendWithRetry
    requires var w := CallAt(At(s1, side), k).wait; w.Cancelled? || (w.Returned? && w.err == "")
    requires !At(s1, side).disposed
    ensures p.Notice? && p.id == CallAt(At(s1, side), k).pkt.id && p.id != NoId
    ensures p in At(s1, side).sent && Dispatched(p) in At(s1, Other(side)).log
  {
    InitialInv(s);
    RunInv(s, acts, s1);
    var e, q := At(s1, side), At(s1, Other(side));
    var id := CallAt(e, k).pkt.id;
    assert Answers.ThreadOk(e.tabs, e.log, e.disposed, e.threads[k]) && Entries.CallOk(e.tabs, k, e.threads[k]);
    assert Dispatched(Ack(id)) in e.log;
    assert Traffic.SentOk(q.side, q.threads, q.log, Ack(id));
    p :| Dispatched(p) in q.log && p.id == id && !p.Ack?;
    assert Traffic.UserOk(e.side, e.threads[k]) && Traffic.SentOk(e.side, e.threads, e.log, p);
    if p.Response? { ResponseId(s1, side, p); }
  }

  // ---- two-phase login ----

  /** The dialer has received a response that running `req` produced. */
  ghost predicate PeerHasResponse(s: System, side: Side, req: Packet, resp: Packet) {
    resp.Response? && resp.id == req.id && Dispatched(resp) in At(s, Other(side)).log
    && Ran(req, resp) in At(s, side).log
  }

  lemma ResponseOf(e: Endpoint, req: Packet, resp: Packet)
    requires Workers.Inv(e) && Ran(req, resp) in e.log
    ensures resp.Response?
  {
    Workers.RanMeans(e.log, req, resp);
  }

  /** An acknowledgement of a request's id proves that the requester received its response. */
  lemma AckProvesResponse(s: System, side: Side, req: Packet) returns (resp: Packet)
    requires Inv(s) && req.Request? && Dispatched(req) in At(s, side).log && req.id != NoId
    requires Dispatched(Ack(req.id)) in At(s, side).log
    ensures PeerHasResponse(s, side, req, resp)
  {
    var e, p := At(s, side), At(s, Other(side));
    assert Traffic.SentOk(p.side, p.threads, p.log, req);
    assert Traffic.SentOk(p.side, p.threads, p.log, Ack(req.id));
    resp :| Dispatched(resp) in p.log && resp.id == req.id && !resp.Ack?;
    assert Traffic.SentOk(e.side, e.threads, e.log, resp);
    var ran := ResponseProduced(s, Other(side), resp);
    OneRequest(p, ran, req);
  }

  /** When a worker changes the state of a client that is not disposed, its peer has received a
      response to that very request; it is a success if no execution of the request failed. Taken
      for the run that ends with the change, this says that the peer had it before. */
  lemma TwoPhase(s: System, acts: seq<Action>, s1: System, side: Side, k: nat)
    requires Initial(s) && Reaches(s, acts, s1) && k < |At(s1, side).log|
    requires At(s1, side).log[k].Entered? && At(s1, side).log[k].cause.ByWorker?
    requires !At(s1, side).log[k].cause.cancelled
    ensures var log := At(s1, side).log;
            var req := log[k].cause.req;
            exists resp :: PeerHasResponse(s1, side, req, resp)
              && ((forall r :: Ran(req, r) in log ==> r.Response? && r.error == "") ==> resp.error == "")
  {
    InitialInv(s);
    RunInv(s, acts, s1);
    var log := At(s1, side).log;
    var req := log[k].cause.req;
    Causes.Evidence(log, k);
    var ok :| Ran(req, ok) in log[..k] && ok.Response? && ok.error == "";
    Workers.RanMeans(log, req, ok);
    var resp := AckProvesResponse(s1, side, req);
  }

  // ---- logins ----

  /** OnLogin is raised once for every change into LOGINED, on either side. */
  lemma LoginRaisedOncePerEntry(s: System, acts: seq<Action>, s1: System, side: Side)
    requires Initial(s) && Reaches(s, acts, s1)
    ensures Causes.Fired(At(s1, side).log) == Causes.Entries(At(s1, side).log)
  {
    InitialInv(s);
    RunInv(s, acts, s1);
  }
}
