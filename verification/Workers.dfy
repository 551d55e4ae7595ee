/**
 `handlingReq` and the request workers of one endpoint: an id is in the set exactly while
 one worker for it lives, and the endpoint's log shows non-overlapping executions.
 Nothing here assumes anything about the network or the peer.
 */
module Workers {
  import opened Endpoint

  predicate Live(t: Thread) {
    t.Worker? && t.stage != Ended
  }

  // ---- reading the log ----

  /** After `log`, a worker for `id` has started and not ended. */
  ghost predicate Active(log: seq<Mark>, id: Id) {
    |log| > 0 &&
    var n := |log| - 1;
    match log[n]
    case Started(i) => i == id || Active(log[..n], id)
    case Ending(i) => i != id && Active(log[..n], id)
    case _ => Active(log[..n], id)
  }

  /** After `log`, a worker for `id` has started and has not run its handler. */
  ghost predicate Unrun(log: seq<Mark>, id: Id) {
    |log| > 0 &&
    var n := |log| - 1;
    match log[n]
    case Started(i) => i == id || Unrun(log[..n], id)
    case Ending(i) => i != id && Unrun(log[..n], id)
    case Ran(req, _) => !(req.id == id) && Unrun(log[..n], id)
    case _ => Unrun(log[..n], id)
  }

  /** What must hold before `mark` may follow `prefix`. */
  ghost predicate WorkerMark(prefix: seq<Mark>, mark: Mark) {
    match mark
    case Started(id) =>
      && id != NoId && !Active(prefix, id)
      && |prefix| > 0 && prefix[|prefix| - 1].Dispatched?
      && prefix[|prefix| - 1].pkt.Request? && prefix[|prefix| - 1].pkt.id == id
    case Ran(req, resp) =>
      && req.Request? && resp.Response? && resp.id == req.id && Unrun(prefix, req.id)
      && Dispatched(req) in prefix
    case Ending(id) => Active(prefix, id) && !Unrun(prefix, id)
    case _ => true
  }

  ghost predicate WorkerLog(log: seq<Mark>) {
    |log| == 0 || (WorkerLog(log[..|log| - 1]) && WorkerMark(log[..|log| - 1], log[|log| - 1]))
  }

  lemma Snoc(log: seq<Mark>, m: Mark)
    ensures (log + [m])[..|log|] == log
    ensures WorkerLog(log + [m]) <==> WorkerLog(log) && WorkerMark(log, m)
    ensures forall id :: Active(log + [m], id) <==>
              m == Started(id) || (m != Ending(id) && Active(log, id))
    ensures forall id :: Unrun(log + [m], id) <==>
              m == Started(id) || (m != Ending(id) && !(m.Ran? && m.req.id == id) && Unrun(log, id))
  {
    assert (log + [m])[..|log|] == log;
  }

  // ---- the invariant ----

  ghost predicate Answered(req: Packet, resp: Packet, log: seq<Mark>) {
    resp.Response? && resp.id == req.id && Ran(req, resp) in log
  }

  ghost predicate WorkerOk(t: Thread, handling: set<Id>, log: seq<Mark>) {
    t.Worker? ==>
      && t.req.Request? && t.req.id != NoId && Dispatched(t.req) in log
      && (t.stage != Ended ==> t.req.id in handling && (Unrun(log, t.req.id) <==> t.stage.Executing?))
      && (t.stage.Replying? ==> t.stage.call.op == SendWithRetry && Answered(t.req, t.stage.call.pkt, log))
      && (t.stage.Deciding? ==> Answered(t.req, t.stage.resp, log))
  }

  ghost predicate Exclusive(threads: seq<Thread>) {
    forall j, k :: 0 <= j < k < |threads| && Live(threads[j]) && Live(threads[k]) ==>
      threads[j].req.id != threads[k].req.id
  }

  ghost predicate HasWorker(threads: seq<Thread>, id: Id) {
    exists k :: 0 <= k < |threads| && Live(threads[k]) && threads[k].req.id == id
  }

  ghost predicate WInv(threads: seq<Thread>, handling: set<Id>, log: seq<Mark>) {
    && (forall k :: 0 <= k < |threads| ==> WorkerOk(threads[k], handling, log))
    && Exclusive(threads)
    && (forall id :: id in handling ==> HasWorker(threads, id))
    && (forall id :: id in handling <==> Active(log, id))
    && WorkerLog(log)
  }

  ghost predicate Inv(e: Endpoint) {
    WInv(e.threads, e.handlingReq, e.log)
  }

  /** Thread `k` is the one live worker for `id`. */
  ghost predicate SoleWorker(threads: seq<Thread>, id: Id, k: nat) {
    && k < |threads| && Live(threads[k]) && threads[k].req.id == id
    && forall j :: 0 <= j < |threads| && Live(threads[j]) && threads[j].req.id == id ==> j == k
  }

  lemma Handled(e: Endpoint, id: Id)
    requires Inv(e)
    ensures id in e.handlingReq <==> exists k :: SoleWorker(e.threads, id, k)
  {
    if id in e.handlingReq {
      var k :| 0 <= k < |e.threads| && Live(e.threads[k]) && e.threads[k].req.id == id;
      assert SoleWorker(e.threads, id, k);
    }
    if k: nat :| SoleWorker(e.threads, id, k) { assert WorkerOk(e.threads[k], e.handlingReq, e.log); }
  }

  // ---- preservation ----

  /** Marks that say nothing about workers change nothing. */
  lemma Neutral(threads: seq<Thread>, handling: set<Id>, log: seq<Mark>, m: Mark)
    requires WInv(threads, handling, log) && (m.Dispatched? || m.Entered? || m.LoginFired?)
    ensures WInv(threads, handling, log + [m])
  {
    Snoc(log, m);
    forall k | 0 <= k < |threads| ensures WorkerOk(threads[k], handling, log + [m]) {
      assert WorkerOk(threads[k], handling, log);
    }
  }

  /** A thread may advance without touching its worker's obligations. */
  lemma Advance(threads: seq<Thread>, handling: set<Id>, log: seq<Mark>, k: nat, t: Thread)
    requires WInv(threads, handling, log) && k < |threads|
    requires WorkerOk(t, handling, log)
    requires t.Worker? <==> threads[k].Worker?
    requires t.Worker? ==> t.req == threads[k].req && (t.stage.Ended? <==> threads[k].stage.Ended?)
    ensures WInv(threads[k := t], handling, log)
  {
    var after := threads[k := t];
    forall j | 0 <= j < |after| ensures WorkerOk(after[j], handling, log) {
      assert WorkerOk(threads[j], handling, log);
    }
    forall id | id in handling ensures HasWorker(after, id) {
      var j :| 0 <= j < |threads| && Live(threads[j]) && threads[j].req.id == id;
      assert Live(after[j]) && after[j].req.id == id;
    }
  }

  lemma Appends(threads: seq<Thread>, handling: set<Id>, log: seq<Mark>, t: Thread)
    requires WInv(threads, handling, log) && t.User?
    ensures WInv(threads + [t], handling, log)
  {
    var after := threads + [t];
    forall j | 0 <= j < |after| ensures WorkerOk(after[j], handling, log) {
      if j < |threads| { assert WorkerOk(threads[j], handling, log); }
    }
    forall id | id in handling ensures HasWorker(after, id) {
      var j :| 0 <= j < |threads| && Live(threads[j]) && threads[j].req.id == id;
      assert Live(after[j]) && after[j].req.id == id;
    }
  }

  lemma Spawns(threads: seq<Thread>, handling: set<Id>, log: seq<Mark>, req: Packet)
    requires WInv(threads, handling, log) && req.Request? && req.id != NoId && req.id !in handling
    requires |log| > 0 && log[|log| - 1] == Dispatched(req)
    ensures WInv(threads + [Worker(req, Executing)], handling + {req.id}, log + [Started(req.id)])
  {
    var after, h, l := threads + [Worker(req, Executing)], handling + {req.id}, log + [Started(req.id)];
    Snoc(log, Started(req.id));
    forall j | 0 <= j < |after| ensures WorkerOk(after[j], h, l) {
      if j < |threads| { assert WorkerOk(threads[j], handling, log); }
    }
    assert Exclusive(after) by {
      forall j | 0 <= j < |threads| && Live(threads[j]) ensures threads[j].req.id != req.id {
        assert WorkerOk(threads[j], handling, log);
      }
    }
    forall id | id in h ensures HasWorker(after, id) {
      if id == req.id { assert Live(after[|threads|]); } else {
        var j :| 0 <= j < |threads| && Live(threads[j]) && threads[j].req.id == id;
        assert Live(after[j]) && after[j].req.id == id;
      }
    }
  }

  /** Marks about a worker say nothing about the threads of other ids. */
  lemma OtherId(t: Thread, handling: set<Id>, log: seq<Mark>, m: Mark, id: Id)
    requires WorkerOk(t, handling, log) && (Live(t) ==> t.req.id != id)
    requires (m.Ran? && m.req.id == id) || m == Ending(id)
    ensures WorkerOk(t, if m.Ran? then handling else handling - {id}, log + [m])
  {
    Snoc(log, m);
  }

  lemma SameWorkers(threads: seq<Thread>, handling: set<Id>, k: nat, t: Thread, handling1: set<Id>)
    requires k < |threads| && forall id :: id in handling ==> HasWorker(threads, id)
    requires handling1 <= handling && t.Worker? && threads[k].Worker? && t.req == threads[k].req
    requires t.stage.Ended? ==> threads[k].req.id !in handling1
    ensures forall id :: id in handling1 ==> HasWorker(threads[k := t], id)
  {
    forall id | id in handling1 ensures HasWorker(threads[k := t], id) {
      var j :| 0 <= j < |threads| && Live(threads[j]) && threads[j].req.id == id;
      assert Live(threads[k := t][j]) && threads[k := t][j].req.id == id;
    }
  }

  lemma Executes(e: Endpoint, k: nat, result: string, error: string)
    requires Inv(e) && Enabled(e, Working(k, Run(result, error)))
    ensures Inv(Execute(e, k, result, error))
  {
    var req := e.threads[k].req;
    var e1 := Execute(e, k, result, error);
    var m := e1.log[|e.log|];
    assert WorkerOk(e.threads[k], e.handlingReq, e.log);
    Snoc(e.log, m);
    forall j | 0 <= j < |e1.threads| ensures WorkerOk(e1.threads[j], e.handlingReq, e1.log) {
      if j != k {
        if Live(e.threads[j]) { assert e.threads[j].req.id != req.id; }
        OtherId(e.threads[j], e.handlingReq, e.log, m, req.id);
      }
    }
    SameWorkers(e.threads, e.handlingReq, k, e1.threads[k], e.handlingReq);
  }

  lemma Leaves(e: Endpoint, k: nat)
    requires Inv(e) && Enabled(e, Working(k, Finish))
    ensures Inv(Leave(e, k))
  {
    var req := e.threads[k].req;
    var e1 := Leave(e, k);
    assert WorkerOk(e.threads[k], e.handlingReq, e.log);
    Snoc(e.log, Ending(req.id));
    forall j | 0 <= j < |e1.threads| ensures WorkerOk(e1.threads[j], e1.handlingReq, e1.log) {
      if j != k {
        if Live(e.threads[j]) { assert e.threads[j].req.id != req.id; }
        OtherId(e.threads[j], e.handlingReq, e.log, Ending(req.id), req.id);
      }
    }
    SameWorkers(e.threads, e.handlingReq, k, e1.threads[k], e1.handlingReq);
  }

  lemma Changes(e: Endpoint, to: ConnState, cause: Cause)
    requires Inv(e)
    ensures Inv(ChangeState(e, to, cause))
  {
    var new_ := Resolve(e, to);
    Neutral(e.threads, e.handlingReq, e.log, Entered(new_, cause));
    var log1 := e.log + [Entered(new_, cause)];
    if e.state != new_ && new_ == Logined {
      Neutral(e.threads, e.handlingReq, log1, LoginFired);
    } else {
      assert log1 + [] == log1;
    }
  }

  lemma Dispatches(e: Endpoint)
    requires Inv(e) && Enabled(e, Net(Deliver))
    ensures Inv(Dispatch(e))
  {
    var pkt := e.rxQueue[0];
    var log1 := e.log + [Dispatched(pkt)];
    Neutral(e.threads, e.handlingReq, e.log, Dispatched(pkt));
    if StartsWorker(e.handlingReq, pkt) {
      Spawns(e.threads, e.handlingReq, log1, pkt);
    }
  }

  lemma Decides(e: Endpoint, k: nat)
    requires Inv(e) && Enabled(e, Working(k, Settle))
    ensures Inv(Decide(e, k))
  {
    var Worker(req, Deciding(resp, err)) := e.threads[k];
    assert WorkerOk(e.threads[k], e.handlingReq, e.log);
    Advance(e.threads, e.handlingReq, e.log, k, Worker(req, Leaving));
    var e1 := e.(threads := e.threads[k := Worker(req, Leaving)]);
    Changes(e1, ExchangedSecret, ByWorker(req, e.disposed));
    Changes(e1, Logined, ByWorker(req, e.disposed));
  }

  /** A step inside a waiting call moves at most its own wait. */
  lemma Calls(e: Endpoint, k: nat, c: CallEvent)
    requires Inv(e) && CanCall(e, k, c)
    ensures Inv(CallStep(e, k, c))
  {
    assert WorkerOk(e.threads[k], e.handlingReq, e.log);
    Advance(e.threads, e.handlingReq, e.log, k, CallStep(e, k, c).threads[k]);
  }

  lemma Controls(e: Endpoint, t: ControlEvent)
    requires Inv(e) && CanControl(e, t)
    ensures Inv(ControlStep(e, t))
  {
    match t
    case Begin(op, pkt) => Appends(e.threads, e.handlingReq, e.log, User(Call(op, pkt, Looking)));
    case Promote(k) => Changes(e, if CallAt(e, k).pkt.meth == Login then Logined else ExchangedSecret, ByUser);
    case Connect => Changes(e, Connected, ByUser);
    case Disconnect => Changes(e, Disconnected, ByUser);
    case Dispose =>
  }

  lemma Works(e: Endpoint, k: nat, w: WorkEvent)
    requires Inv(e) && CanWork(e, k, w)
    ensures Inv(WorkStep(e, k, w))
  {
    match w
    case Run(result, error) => Executes(e, k, result, error);
    case Conclude =>
      assert WorkerOk(e.threads[k], e.handlingReq, e.log);
      Advance(e.threads, e.handlingReq, e.log, k, Collect(e, k).threads[k]);
    case Settle => Decides(e, k);
    case Finish => Leaves(e, k);
  }

  /** Every step of one endpoint, whatever it receives, keeps the worker invariant. */
  lemma Preserved(e: Endpoint, ev: Event)
    requires Inv(e) && Enabled(e, ev)
    ensures Inv(Step(e, ev))
  {
    match ev
    case Net(n) => if n == Deliver { Dispatches(e); }
    case Calling(k, c) => Calls(e, k, c);
    case Working(k, w) => Works(e, k, w);
    case Control(t) => Controls(e, t);
  }

  // ---- executions do not overlap ----

  lemma {:induction false} MarkAt(log: seq<Mark>, k: nat)
    requires WorkerLog(log) && k < |log|
    ensures WorkerMark(log[..k], log[k])
  {
    if k < |log| - 1 {
      MarkAt(log[..|log| - 1], k);
      assert log[..|log| - 1][..k] == log[..k];
    }
  }

  lemma Unfold(log: seq<Mark>, k: nat)
    requires k < |log|
    ensures forall id :: Active(log[..k + 1], id) <==>
              log[k] == Started(id) || (log[k] != Ending(id) && Active(log[..k], id))
    ensures forall id :: Unrun(log[..k + 1], id) <==>
              log[k] == Started(id)
              || (log[k] != Ending(id) && !(log[k].Ran? && log[k].req.id == id) && Unrun(log[..k], id))
  {
    Snoc(log[..k], log[k]);
    assert log[..k] + [log[k]] == log[..k + 1];
  }

  lemma {:induction false} UnrunActive(log: seq<Mark>, k: nat, id: Id)
    requires k <= |log| && Unrun(log[..k], id)
    ensures Active(log[..k], id)
  {
    Unfold(log, k - 1);
    if log[k - 1] != Started(id) { UnrunActive(log, k - 1, id); }
  }

  lemma {:induction false} ActiveId(log: seq<Mark>, k: nat, id: Id)
    requires WorkerLog(log) && k <= |log| && Active(log[..k], id)
    ensures id != NoId
  {
    Unfold(log, k - 1);
    MarkAt(log, k - 1);
    if log[k - 1] != Started(id) { ActiveId(log, k - 1, id); }
  }

  /** A handler ran only for a dispatched request with an id. */
  lemma RanMeans(log: seq<Mark>, req: Packet, resp: Packet)
    requires WorkerLog(log) && Ran(req, resp) in log
    ensures req.Request? && resp.Response? && resp.id == req.id && req.id != NoId && Dispatched(req) in log
  {
    var k :| 0 <= k < |log| && log[k] == Ran(req, resp);
    MarkAt(log, k);
    UnrunActive(log, k, req.id);
    ActiveId(log, k, req.id);
  }

  lemma {:induction false} EndBetween(log: seq<Mark>, i: nat, j: nat, id: Id) returns (b: nat)
    requires i <= j <= |log| && Active(log[..i], id) && !Active(log[..j], id)
    ensures i <= b < j && log[b] == Ending(id)
    decreases j
  {
    Unfold(log, j - 1);
    if Active(log[..j - 1], id) { b := j - 1; } else { b := EndBetween(log, i, j - 1, id); }
  }

  lemma {:induction false} StartBetween(log: seq<Mark>, i: nat, j: nat, id: Id) returns (c: nat)
    requires i <= j <= |log| && !Unrun(log[..i], id) && Unrun(log[..j], id)
    ensures i <= c < j && log[c] == Started(id)
    decreases j
  {
    Unfold(log, j - 1);
    if Unrun(log[..j - 1], id) { c := StartBetween(log, i, j - 1, id); } else { c := j - 1; }
  }

  /** Between two executions of one id the first worker ended, and only then was a further
      copy of the request dispatched. */
  lemma Separated(log: seq<Mark>, i: nat, j: nat, id: Id) returns (b: nat, c: nat)
    requires WorkerLog(log) && i < j < |log|
    requires log[i].Ran? && log[i].req.id == id && log[j].Ran? && log[j].req.id == id
    ensures i < b < c && c + 1 < j && log[b] == Ending(id)
    ensures log[c].Dispatched? && log[c].pkt.Request? && log[c].pkt.id == id && log[c + 1] == Started(id)
  {
    MarkAt(log, i);
    MarkAt(log, j);
    Unfold(log, i);
    UnrunActive(log, i, id);
    var d := StartBetween(log, i + 1, j, id);
    MarkAt(log, d);
    b := EndBetween(log, i + 1, d, id);
    c := d - 1;
    assert log[..d][d - 1] == log[c];
  }
}
