/** Building runs: which systems are reachable from a start, and steps taken several at a time. */
module Runs {
  import opened Basics
  import opened Endpoint
  import opened Connection
  import Logins

  /** How both sides are configured, and what the hub's transport may hand over after it has
      reported the disconnection. */
  datatype Setting = Setting(crypto: bool, needLogin: bool, late: iset<Packet>)

  function Start(g: Setting): System {
    System(Init(Dialer, g.crypto, g.needLogin), Init(Hub, g.crypto, g.needLogin))
  }

  ghost predicate PunctualRun(s: System, acts: seq<Action>, late: iset<Packet>)
    decreases |acts|
  {
    acts == [] ||
    (&& Can(s, acts[0]) && Logins.Punctual(At(s, acts[0].side), late, acts[0].ev)
     && PunctualRun(Do(s, acts[0]), acts[1..], late))
  }

  ghost predicate Reachable(g: Setting, s: System) {
    exists acts :: Reaches(Start(g), acts, s) && PunctualRun(Start(g), acts, g.late)
  }

  lemma {:induction false} Extend(s: System, acts: seq<Action>, s1: System, a: Action, late: iset<Packet>)
    requires Reaches(s, acts, s1) && PunctualRun(s, acts, late)
    requires Can(s1, a) && Logins.Punctual(At(s1, a.side), late, a.ev)
    ensures Reaches(s, acts + [a], Do(s1, a)) && PunctualRun(s, acts + [a], late)
    decreases |acts|
  {
    var all := acts + [a];
    if acts == [] {
      assert all[1..] == [];
    } else {
      Extend(Do(s, acts[0]), acts[1..], s1, a, late);
      assert all[0] == acts[0] && all[1..] == acts[1..] + [a];
    }
  }

  lemma Begins(g: Setting) returns (s: System)
    ensures Reachable(g, s) && s == Start(g)
  {
    s := Start(g);
    assert Reaches(s, [], s) && PunctualRun(s, [], g.late);
  }

  lemma Go(g: Setting, s: System, a: Action) returns (s1: System)
    requires Reachable(g, s) && Can(s, a) && Logins.Punctual(At(s, a.side), g.late, a.ev)
    ensures Reachable(g, s1) && s1 == Do(s, a)
  {
    var acts :| Reaches(Start(g), acts, s) && PunctualRun(Start(g), acts, g.late);
    Extend(Start(g), acts, s, a, g.late);
    s1 := Do(s, a);
  }

  function With(s: System, side: Side, e: Endpoint): System {
    if side == Hub then s.(hub := e) else s.(dialer := e)
  }

  /** The tables and the wait of goroutine `k` replaced. */
  function Moving(e: Endpoint, k: nat, t: Tables, w: Wait): Endpoint
    requires InCall(e, k)
  {
    e.(tabs := t, threads := e.threads[k := WithWait(e.threads[k], w)])
  }

  // ---- receiving ----

  /** A system in which a packet sent by the peer can go straight through an idle endpoint. */
  ghost predicate CanArrive(g: Setting, s: System, side: Side, pkt: Packet) {
    var e := At(s, side);
    && Reachable(g, s) && pkt in At(s, Other(side)).sent && e.side == side
    && e.reading == None && e.rxQueue == [] && e.tabs.closing == None && InRange(e.tabs)
    && (side == Hub ==> e.link != Fresh && (e.link == Down ==> pkt in g.late)) && Gate(e.state, pkt)
  }

  lemma Queues(g: Setting, s: System, side: Side, pkt: Packet) returns (s1: System)
    requires CanArrive(g, s, side, pkt)
    ensures Reachable(g, s1) && s1 == With(s, side, At(s, side).(rxQueue := [pkt]))
  {
    s1 := Go(g, s, Action(side, Net(Receive(pkt))));
    s1 := Go(g, s1, Action(side, Net(Enqueue)));
  }

  /** The packet is received, queued and dispatched. */
  lemma Arrives(g: Setting, s: System, side: Side, pkt: Packet) returns (s1: System)
    requires CanArrive(g, s, side, pkt)
    ensures Reachable(g, s1)
    ensures s1 == With(s, side, Dispatch(At(s, side).(rxQueue := [pkt])))
  {
    s1 := Queues(g, s, side, pkt);
    s1 := Go(g, s1, Action(side, Net(Deliver)));
  }

  /** A request for which no worker is live. */
  lemma RequestArrives(g: Setting, s: System, req: Packet) returns (s1: System)
    requires CanArrive(g, s, Hub, req) && StartsWorker(s.hub.handlingReq, req)
    ensures Reachable(g, s1)
    ensures s1 == s.(hub := s.hub.(
              handlingReq := s.hub.handlingReq + {req.id},
              threads := s.hub.threads + [Worker(req, Executing)],
              sent := s.hub.sent + {Ack(req.id)},
              log := s.hub.log + [Dispatched(req)] + [Started(req.id)]))
  {
    s1 := Arrives(g, s, Hub, req);
  }

  lemma AckArrives(g: Setting, s: System, id: Id) returns (s1: System)
    requires CanArrive(g, s, Hub, Ack(id))
    ensures Reachable(g, s1)
    ensures s1 == s.(hub := s.hub.(tabs := TakeAck(s.hub.tabs, id), log := s.hub.log + [Dispatched(Ack(id))]))
  {
    s1 := Arrives(g, s, Hub, Ack(id));
  }

  // ---- waiting calls ----

  ghost predicate WaitsAt(g: Setting, s: System, side: Side, k: nat, w: Wait) {
    && Reachable(g, s) && InCall(At(s, side), k) && CallAt(At(s, side), k).wait == w
    && EntryInRange(At(s, side).tabs, w)
  }

  lemma LooksUp(g: Setting, s: System, side: Side, k: nat) returns (s1: System)
    requires WaitsAt(g, s, side, k, Looking)
    requires var e := At(s, side); CallAt(e, k).pkt.id !in Table(e.tabs, CallAt(e, k).op)
    ensures Reachable(g, s1) && s1 == With(s, side, Moving(At(s, side), k, At(s, side).tabs, Storing))
  {
    s1 := Go(g, s, Action(side, Calling(k, LookUp)));
  }

  /** A call that finds no entry stores one and sends its packet. */
  lemma Stores(g: Setting, s: System, side: Side, k: nat) returns (s1: System)
    requires WaitsAt(g, s, side, k, Looking)
    requires var e := At(s, side); CallAt(e, k).pkt.id !in Table(e.tabs, CallAt(e, k).op)
    ensures Reachable(g, s1)
    ensures var e := At(s, side);
            var m := MoveStore(e.tabs, k, CallAt(e, k));
            s1 == With(s, side, Moving(e, k, m.tabs, m.wait).(sent := e.sent + {CallAt(e, k).pkt}))
  {
    s1 := LooksUp(g, s, side, k);
    s1 := Go(g, s1, Action(side, Calling(k, LoadOrStore)));
    assert At(s1, side).threads == At(s, side).threads[k := At(s1, side).threads[k]];
  }

  lemma Fails(g: Setting, s: System, side: Side, k: nat, f: nat) returns (s1: System)
    requires WaitsAt(g, s, side, k, Owning(f, false)) && CallAt(At(s, side), k).op == SendWithRetry
    ensures Reachable(g, s1)
    ensures var e := At(s, side);
            s1 == With(s, side,
              Moving(e, k, e.tabs.(flies := e.tabs.flies[f := e.tabs.flies[f].(err := TIMEOUT)]), TimingOut(f)))
  {
    s1 := Go(g, s, Action(side, Calling(k, Expire)));
  }

  lemma TakesOut(g: Setting, s: System, side: Side, k: nat, f: nat) returns (s1: System)
    requires WaitsAt(g, s, side, k, TimingOut(f)) && CallAt(At(s, side), k).op == SendWithRetry
    requires CallAt(At(s, side), k).pkt.id in At(s, side).tabs.ack
    ensures Reachable(g, s1)
    ensures var e := At(s, side);
            s1 == With(s, side,
              Moving(e, k, e.tabs.(ack := Remove(e.tabs.ack, CallAt(e, k).pkt.id)), Wait.Closing(f)))
  {
    s1 := Go(g, s, Action(side, Calling(k, LoadAndDelete)));
  }

  lemma Closes(g: Setting, s: System, side: Side, k: nat, f: nat) returns (s1: System)
    requires WaitsAt(g, s, side, k, Wait.Closing(f)) && CallAt(At(s, side), k).op == SendWithRetry
    ensures Reachable(g, s1)
    ensures var e := At(s, side);
            s1 == With(s, side, Moving(e, k, Close(e.tabs, AckBack(f)), Returned(f, "", e.tabs.flies[f].err)))
  {
    s1 := Go(g, s, Action(side, Calling(k, CloseChannel)));
  }

  /** A timed-out call deletes whatever its id finds and closes its own channel. */
  lemma Deletes(g: Setting, s: System, side: Side, k: nat, f: nat) returns (s1: System)
    requires WaitsAt(g, s, side, k, TimingOut(f)) && CallAt(At(s, side), k).op == SendWithRetry
    requires CallAt(At(s, side), k).pkt.id in At(s, side).tabs.ack
    ensures Reachable(g, s1)
    ensures var e := At(s, side);
            var t := e.tabs.(ack := Remove(e.tabs.ack, CallAt(e, k).pkt.id));
            s1 == With(s, side, Moving(e, k, Close(t, AckBack(f)), Returned(f, "", e.tabs.flies[f].err)))
  {
    s1 := TakesOut(g, s, side, k, f);
    s1 := Closes(g, s1, side, k, f);
    assert At(s1, side).threads == At(s, side).threads[k := At(s1, side).threads[k]];
  }

  /** The tables after a SendPacketWithRetry under `id` has timed out. */
  function TimedOut(t: Tables, f: nat, id: Id): Tables
    requires f < |t.flies|
  {
    var fly := t.flies[f];
    t.(ack := Remove(t.ack, id), flies := t.flies[f := fly.(err := TIMEOUT, ackBack := fly.ackBack + 1)])
  }

  lemma TimesOut(g: Setting, s: System, side: Side, k: nat, f: nat) returns (s1: System)
    requires WaitsAt(g, s, side, k, Owning(f, false)) && CallAt(At(s, side), k).op == SendWithRetry
    requires CallAt(At(s, side), k).pkt.id in At(s, side).tabs.ack
    ensures Reachable(g, s1)
    ensures var e := At(s, side);
            s1 == With(s, side, Moving(e, k, TimedOut(e.tabs, f, CallAt(e, k).pkt.id), Returned(f, "", TIMEOUT)))
  {
    s1 := Fails(g, s, side, k, f);
    s1 := Deletes(g, s1, side, k, f);
    TimedOutForm(At(s, side).tabs, f, CallAt(At(s, side), k).pkt.id);
    assert At(s1, side).threads == At(s, side).threads[k := At(s1, side).threads[k]];
  }

  lemma TimedOutForm(t: Tables, f: nat, id: Id)
    requires f < |t.flies|
    ensures var failed := t.(flies := t.flies[f := t.flies[f].(err := TIMEOUT)]);
            TimedOut(t, f, id) == Close(failed.(ack := Remove(failed.ack, id)), AckBack(f))
  {
  }

  // ---- request workers ----

  lemma Executes(g: Setting, s: System, side: Side, k: nat, result: string, error: string) returns (s1: System)
    requires Reachable(g, s) && CanWork(At(s, side), k, Run(result, error))
    ensures Reachable(g, s1) && s1 == With(s, side, Execute(At(s, side), k, result, error))
  {
    s1 := Go(g, s, Action(side, Working(k, Run(result, error))));
  }

  /** A worker runs its handler and sends the response. */
  lemma Replies(g: Setting, s: System, side: Side, k: nat, result: string, error: string) returns (s1: System)
    requires Reachable(g, s) && CanWork(At(s, side), k, Run(result, error))
    requires At(s, side).threads[k].req.id !in At(s, side).tabs.ack
    ensures Reachable(g, s1)
    ensures var e := At(s, side);
            var req := e.threads[k].req;
            var resp := Response(req.id, if error == "" then result else "", error);
            var f := |e.tabs.flies|;
            s1 == With(s, side, e.(
              tabs := e.tabs.(flies := e.tabs.flies + [Fly(k, SendWithRetry, req.id, 0, 0, "", "")],
                              ack := e.tabs.ack[req.id := f]),
              threads := e.threads[k := Worker(req, Replying(Call(SendWithRetry, resp, Owning(f, false))))],
              sent := e.sent + {resp}, log := e.log + [Ran(req, resp)]))
  {
    var e := At(s, side);
    s1 := Executes(g, s, side, k, result, error);
    s1 := Stores(g, s1, side, k);
    assert At(s1, side).threads == e.threads[k := At(s1, side).threads[k]];
  }

  /** A worker whose reply has returned `err`, about to conclude. */
  ghost predicate Concluding(g: Setting, s: System, side: Side, k: nat, f: nat, err: string) {
    var e := At(s, side);
    && Reachable(g, s) && k < |e.threads| && e.threads[k].Worker? && e.threads[k].req.Request?
    && e.threads[k].stage.Replying? && e.threads[k].stage.call.pkt.Response?
    && e.threads[k].stage.call.wait == Returned(f, "", err)
  }

  /** After an error it ends without changing state. */
  lemma EndsInVain(g: Setting, s: System, side: Side, k: nat, f: nat, err: string) returns (s1: System)
    requires Concluding(g, s, side, k, f, err) && err != ""
    ensures Reachable(g, s1)
    ensures var e := At(s, side);
            s1 == With(s, side, e.(
              threads := e.threads[k := Worker(e.threads[k].req, Ended)],
              handlingReq := e.handlingReq - {e.threads[k].req.id}, log := e.log + [Ending(e.threads[k].req.id)]))
  {
    s1 := Go(g, s, Action(side, Working(k, Conclude)));
    s1 := Go(g, s1, Action(side, Working(k, Settle)));
    s1 := Go(g, s1, Action(side, Working(k, Finish)));
    assert At(s1, side).threads == At(s, side).threads[k := At(s1, side).threads[k]];
  }

  /** A waiting worker times out, deletes its entry and ends. */
  lemma GivesUp(g: Setting, s: System, side: Side, k: nat, f: nat) returns (s1: System)
    requires WaitsAt(g, s, side, k, Owning(f, false)) && CallAt(At(s, side), k).op == SendWithRetry
    requires At(s, side).threads[k].Worker? && At(s, side).threads[k].req.Request?
    requires CallAt(At(s, side), k).pkt.Response? && CallAt(At(s, side), k).pkt.id in At(s, side).tabs.ack
    ensures Reachable(g, s1)
    ensures var e := At(s, side);
            var id := e.threads[k].req.id;
            s1 == With(s, side, e.(
              tabs := TimedOut(e.tabs, f, CallAt(e, k).pkt.id),
              threads := e.threads[k := Worker(e.threads[k].req, Ended)],
              handlingReq := e.handlingReq - {id}, log := e.log + [Ending(id)]))
  {
    assert TIMEOUT[0] == 't';
    s1 := TimesOut(g, s, side, k, f);
    s1 := EndsInVain(g, s1, side, k, f, TIMEOUT);
    assert At(s1, side).threads == At(s, side).threads[k := At(s1, side).threads[k]];
  }

  function Target(req: Packet): ConnState
    requires req.Request?
  {
    if req.meth == Login then Logined else ExchangedSecret
  }

  /** A worker with a success to conclude, whose reply has been acknowledged or cancelled. */
  ghost predicate Succeeding(e: Endpoint, k: nat) {
    && k < |e.threads| && e.threads[k].Worker? && e.threads[k].req.Request? && e.threads[k].stage.Replying?
    && (e.threads[k].req.meth == ExchangeSecret || e.threads[k].req.meth == Login)
    && e.threads[k].stage.call.pkt.Response? && e.threads[k].stage.call.pkt.error == ""
    && (e.threads[k].stage.call.wait.Cancelled?
        || (e.threads[k].stage.call.wait.Returned? && e.threads[k].stage.call.wait.err == ""))
  }

  /** It changes the state as its method says. */
  lemma Concludes(g: Setting, s: System, k: nat) returns (s1: System)
    requires Reachable(g, s) && Succeeding(s.hub, k)
    ensures Reachable(g, s1) && s1.dialer == s.dialer
    ensures var req, e1 := s.hub.threads[k].req, s1.hub;
            var to := ChangeState(s.hub, Target(req), ByWorker(req, s.hub.disposed));
            && e1.state == to.state && e1.log == to.log && e1.disposed == s.hub.disposed
            && e1.crypto == s.hub.crypto && e1.needLogin == s.hub.needLogin
  {
    s1 := Go(g, s, Action(Hub, Working(k, Conclude)));
    s1 := Go(g, s1, Action(Hub, Working(k, Settle)));
  }
}
