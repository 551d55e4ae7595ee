/**
 Why a worker changed the connection state, and that OnLogin is raised exactly once for every
 entry into the logged-in state. Holds on both sides, whatever is received.
 */
module Causes {
  import opened Endpoint
  import Workers
  import Answers

  /** The handler ran without error, and the peer acknowledged the id unless the context was done. */
  ghost predicate Earned(prefix: seq<Mark>, req: Packet, cancelled: bool) {
    && req.Request? && (req.meth == ExchangeSecret || req.meth == Login)
    && (exists resp :: Ran(req, resp) in prefix && resp.Response? && resp.error == "")
    && (cancelled || Dispatched(Ack(req.id)) in prefix)
  }

  ghost predicate CauseLog(log: seq<Mark>) {
    |log| == 0 ||
    var n := |log| - 1;
    && CauseLog(log[..n])
    && (log[n].Entered? && log[n].cause.ByWorker? ==>
          Earned(log[..n], log[n].cause.req, log[n].cause.cancelled))
  }

  ghost function LastState(log: seq<Mark>): ConnState {
    if |log| == 0 then Disconnected
    else if log[|log| - 1].Entered? then log[|log| - 1].to
    else LastState(log[..|log| - 1])
  }

  /** How often the log shows OnLogin raised. */
  ghost function Fired(log: seq<Mark>): nat {
    if |log| == 0 then 0 else Fired(log[..|log| - 1]) + (if log[|log| - 1].LoginFired? then 1 else 0)
  }

  /** How often the state became LOGINED from another state. */
  ghost function Entries(log: seq<Mark>): nat {
    if |log| == 0 then 0
    else
      var before := log[..|log| - 1];
      var m := log[|log| - 1];
      Entries(before) + (if m.Entered? && m.to == Logined && LastState(before) != Logined then 1 else 0)
  }

  /** Only a disposed client's worker can be released without an acknowledgement. */
  ghost predicate CancelOk(log: seq<Mark>, disposed: bool) {
    forall m :: m in log && m.Entered? && m.cause.ByWorker? && m.cause.cancelled ==> disposed
  }

  ghost predicate LInv(e: Endpoint) {
    CauseLog(e.log) && e.state == LastState(e.log) && Fired(e.log) == Entries(e.log)
  }

  ghost predicate Inv(e: Endpoint) {
    LInv(e) && CancelOk(e.log, e.disposed)
  }

  lemma Snoc(log: seq<Mark>, m: Mark)
    ensures CauseLog(log + [m]) <==>
              CauseLog(log) && (m.Entered? && m.cause.ByWorker? ==> Earned(log, m.cause.req, m.cause.cancelled))
    ensures LastState(log + [m]) == if m.Entered? then m.to else LastState(log)
    ensures Fired(log + [m]) == Fired(log) + (if m.LoginFired? then 1 else 0)
    ensures Entries(log + [m]) == Entries(log) +
              (if m.Entered? && m.to == Logined && LastState(log) != Logined then 1 else 0)
  {
    assert (log + [m])[..|log|] == log;
  }

  lemma Changes(e: Endpoint, to: ConnState, cause: Cause)
    requires LInv(e) && (cause.ByWorker? ==> Earned(e.log, cause.req, cause.cancelled))
    ensures LInv(ChangeState(e, to, cause))
  {
    var m := Entered(Resolve(e, to), cause);
    Snoc(e.log, m);
    Snoc(e.log + [m], LoginFired);
    assert e.log + [m] + [] == e.log + [m];
  }

  lemma Settles(e: Endpoint, k: nat)
    requires LInv(e) && Workers.Inv(e) && Answers.Inv(e) && CanWork(e, k, Settle)
    ensures LInv(Decide(e, k))
  {
    var Worker(req, Deciding(resp, err)) := e.threads[k];
    var e1 := e.(threads := e.threads[k := Worker(req, Leaving)]);
    assert Workers.WorkerOk(e.threads[k], e.handlingReq, e.log);
    assert Answers.ThreadOk(e.tabs, e.log, e.disposed, e.threads[k]);
    if resp.error == "" && err == "" && (req.meth == ExchangeSecret || req.meth == Login) {
      assert Ran(req, resp) in e.log;
      Changes(e1, ExchangedSecret, ByWorker(req, e.disposed));
      Changes(e1, Logined, ByWorker(req, e.disposed));
    }
  }

  lemma Works(e: Endpoint, k: nat, w: WorkEvent)
    requires LInv(e) && Workers.Inv(e) && Answers.Inv(e) && CanWork(e, k, w)
    ensures LInv(WorkStep(e, k, w))
  {
    match w
    case Run(result, error) => Snoc(e.log, Execute(e, k, result, error).log[|e.log|]);
    case Conclude =>
    case Settle => Settles(e, k);
    case Finish => Snoc(e.log, Ending(e.threads[k].req.id));
  }

  lemma Delivers(e: Endpoint)
    requires LInv(e) && CanNet(e, Deliver)
    ensures LInv(Dispatch(e))
  {
    var pkt := e.rxQueue[0];
    Snoc(e.log, Dispatched(pkt));
    Snoc(e.log + [Dispatched(pkt)], Started(pkt.id));
  }

  lemma Controls(e: Endpoint, t: ControlEvent)
    requires LInv(e) && CanControl(e, t)
    ensures LInv(ControlStep(e, t))
  {
    match t
    case Promote(k) => Changes(e, if CallAt(e, k).pkt.meth == Login then Logined else ExchangedSecret, ByUser);
    case Connect => Changes(e, Connected, ByUser);
    case Disconnect => Changes(e, Disconnected, ByUser);
    case _ =>
  }

  lemma CancelChange(e: Endpoint, to: ConnState, cause: Cause)
    requires CancelOk(e.log, e.disposed) && (cause.ByWorker? && cause.cancelled ==> e.disposed)
    ensures CancelOk(ChangeState(e, to, cause).log, e.disposed)
  {
  }

  lemma CancelWork(e: Endpoint, k: nat, w: WorkEvent)
    requires CancelOk(e.log, e.disposed) && CanWork(e, k, w)
    ensures CancelOk(WorkStep(e, k, w).log, WorkStep(e, k, w).disposed)
  {
    WorkFrame(e, k, w);
    if w.Settle? {
      var e1 := e.(threads := e.threads[k := Worker(e.threads[k].req, Leaving)]);
      CancelChange(e1, ExchangedSecret, ByWorker(e.threads[k].req, e.disposed));
      CancelChange(e1, Logined, ByWorker(e.threads[k].req, e.disposed));
    }
  }

  lemma CancelControl(e: Endpoint, t: ControlEvent)
    requires CancelOk(e.log, e.disposed) && CanControl(e, t)
    ensures CancelOk(ControlStep(e, t).log, ControlStep(e, t).disposed)
  {
    CancelChange(e, Connected, ByUser);
    CancelChange(e, Disconnected, ByUser);
    CancelChange(e, Logined, ByUser);
    CancelChange(e, ExchangedSecret, ByUser);
  }

  lemma CancelStep(e: Endpoint, ev: Event)
    requires CancelOk(e.log, e.disposed) && Enabled(e, ev)
    ensures CancelOk(Step(e, ev).log, Step(e, ev).disposed)
  {
    match ev
    case Net(n) => if n != Deliver { NetFrame(e, n); }
    case Calling(_, _) =>
    case Working(k, w) => CancelWork(e, k, w);
    case Control(t) => CancelControl(e, t);
  }

  lemma Preserved(e: Endpoint, ev: Event)
    requires Inv(e) && Workers.Inv(e) && Answers.Inv(e) && Enabled(e, ev)
    ensures Inv(Step(e, ev))
  {
    CancelStep(e, ev);
    match ev
    case Net(n) => if n == Deliver { Delivers(e); } else { NetFrame(e, n); }
    case Calling(_, _) =>
    case Working(k, w) => Works(e, k, w);
    case Control(t) => Controls(e, t);
  }

  /** The evidence behind a worker's state change is in the log. */
  lemma {:induction false} Evidence(log: seq<Mark>, k: nat)
    requires CauseLog(log) && k < |log| && log[k].Entered? && log[k].cause.ByWorker?
    ensures Earned(log[..k], log[k].cause.req, log[k].cause.cancelled)
  {
    if k < |log| - 1 {
      Evidence(log[..|log| - 1], k);
      assert log[..|log| - 1][..k] == log[..k];
    }
  }
}
