/**
 What the waiting calls return, errors included: without a timeout of its entry, a request returns
 what the dispatched response says and a send returns no error; with one, it may return the timeout.
 */
module Outcomes {
  import opened Endpoint
  import opened Connection
  import Entries

  /** A response with this error has been dispatched, and without error it carried the value. */
  ghost predicate Genuine(log: seq<Mark>, id: Id, value: string, err: string) {
    exists r :: Dispatched(Response(id, r, err)) in log && (err == "" ==> r == value)
  }

  /** `late` holds the entries whose owner's timeout has come. */
  ghost predicate FlyOk(t: Tables, log: seq<Mark>, late: set<nat>, f: nat)
    requires f < |t.flies|
  {
    var fly := t.flies[f];
    if f in late then
      fly.err == TIMEOUT || (fly.op != SendWithRetry && fly.err != "" && Genuine(log, fly.id, "", fly.err))
    else
      && (fly.op == SendWithRetry || Entries.InTable(t, f) ==> fly.err == "")
      && (fly.err != "" || Entries.InTable(t, f) ==> fly.result == "")
      && (Entries.Closed(t, f) > 0 || Entries.Taken(t, f) ==>
            !Entries.InTable(t, f) && (fly.op == SendWithRetry || Genuine(log, fly.id, fly.result, fly.err)))
  }

  /** What a call has returned is the outcome of its request, or the timeout. */
  ghost predicate ReturnOk(log: seq<Mark>, late: set<nat>, call: Call)
    requires call.wait.Returned?
  {
    || (call.wait.err == TIMEOUT && call.wait.entry in late)
    || (if call.op == SendWithRetry then call.wait.err == ""
        else Genuine(log, call.pkt.id, call.wait.value, call.wait.err))
  }

  /** An error comes without a value, unless a timeout got in between. */
  ghost predicate NoValue(late: set<nat>, call: Call)
    requires call.wait.Returned?
  {
    call.wait.err != "" && call.wait.entry !in late ==> call.wait.value == ""
  }

  ghost predicate ThreadOk(log: seq<Mark>, late: set<nat>, thread: Thread) {
    CallOf(thread).Some? ==>
      var call := CallOf(thread).value;
      && (call.wait.TimingOut? || call.wait.Closing? ==> call.wait.entry in late)
      && (call.wait.Returned? ==> ReturnOk(log, late, call) && NoValue(late, call))
  }

  ghost predicate Inv(e: Endpoint, late: set<nat>) {
    && (forall f :: f in late ==> f < |e.tabs.flies|)
    && (forall f :: 0 <= f < |e.tabs.flies| ==> FlyOk(e.tabs, e.log, late, f))
    && (forall k :: 0 <= k < |e.threads| ==> ThreadOk(e.log, late, e.threads[k]))
  }

  /** The entry that times out in this step. */
  ghost function Expiring(e: Endpoint, ev: Event): set<nat>
    requires Enabled(e, ev)
  {
    if ev.Calling? && ev.c == Expire then {CallAt(e, ev.k).wait.entry} else {}
  }

  // ---- every step keeps it ----

  lemma GenuineGrows(log: seq<Mark>, log1: seq<Mark>, id: Id, value: string, err: string)
    requires Genuine(log, id, value, err) && forall m :: m in log ==> m in log1
    ensures Genuine(log1, id, value, err)
  {
    var r :| Dispatched(Response(id, r, err)) in log && (err == "" ==> r == value);
    assert Dispatched(Response(id, r, err)) in log1;
  }

  lemma ThreadGrows(log: seq<Mark>, log1: seq<Mark>, late: set<nat>, late1: set<nat>, thread: Thread)
    requires ThreadOk(log, late, thread) && late <= late1 && forall m :: m in log ==> m in log1
    ensures ThreadOk(log1, late1, thread)
  {
    if CallOf(thread).Some? && CallOf(thread).value.wait.Returned? {
      var call := CallOf(thread).value;
      if Genuine(log, call.pkt.id, call.wait.value, call.wait.err) {
        GenuineGrows(log, log1, call.pkt.id, call.wait.value, call.wait.err);
      }
    }
  }

  /** An entry that the step neither fills, closes nor puts into a table. */
  lemma FlySame(t: Tables, u: Tables, log: seq<Mark>, log1: seq<Mark>, late: set<nat>, late1: set<nat>, f: nat)
    requires f < |t.flies| <= |u.flies| && FlyOk(t, log, late, f) && (f in late <==> f in late1)
    requires u.flies[f] == t.flies[f] && (Entries.Taken(u, f) ==> Entries.Taken(t, f))
    requires (Entries.InTable(u, f) ==> Entries.InTable(t, f)) && forall m :: m in log ==> m in log1
    ensures FlyOk(u, log1, late1, f)
  {
    var fly := t.flies[f];
    if Genuine(log, fly.id, "", fly.err) { GenuineGrows(log, log1, fly.id, "", fly.err); }
    if Genuine(log, fly.id, fly.result, fly.err) { GenuineGrows(log, log1, fly.id, fly.result, fly.err); }
  }

  lemma FlyStore(e: Endpoint, late: set<nat>, k: nat, f: nat)
    requires Entries.Shape(e.tabs, e.threads) && Inv(e, late) && CanCall(e, k, LoadOrStore)
    requires f < |CallStep(e, k, LoadOrStore).tabs.flies|
    ensures FlyOk(CallStep(e, k, LoadOrStore).tabs, e.log, late, f)
  {
    if f < |e.tabs.flies| {
      assert FlyOk(e.tabs, e.log, late, f);
      FlySame(e.tabs, CallStep(e, k, LoadOrStore).tabs, e.log, e.log, late, late, f);
    }
  }

  lemma FlyExpire(e: Endpoint, late: set<nat>, k: nat, f: nat)
    requires Entries.Shape(e.tabs, e.threads) && Inv(e, late) && CanCall(e, k, Expire) && f < |e.tabs.flies|
    ensures FlyOk(CallStep(e, k, Expire).tabs, e.log, late + {CallAt(e, k).wait.entry}, f)
  {
    var entry, u := CallAt(e, k).wait.entry, CallStep(e, k, Expire).tabs;
    if f == entry {
      assert u.flies[f].err == TIMEOUT;
    } else {
      assert FlyOk(e.tabs, e.log, late, f) && u.flies[f] == e.tabs.flies[f];
      FlySame(e.tabs, u, e.log, e.log, late, late + {entry}, f);
    }
  }

  lemma FlyCloses(e: Endpoint, late: set<nat>, k: nat, f: nat)
    requires Entries.Shape(e.tabs, e.threads) && Inv(e, late) && CanCall(e, k, CloseChannel) && f < |e.tabs.flies|
    ensures FlyOk(CallStep(e, k, CloseChannel).tabs, e.log, late, f)
  {
    var entry := CallAt(e, k).wait.entry;
    assert FlyOk(e.tabs, e.log, late, f) && ThreadOk(e.log, late, e.threads[k]);
    if f != entry { FlySame(e.tabs, CallStep(e, k, CloseChannel).tabs, e.log, e.log, late, late, f); }
  }

  lemma FlyCall(e: Endpoint, late: set<nat>, k: nat, c: CallEvent, f: nat)
    requires Entries.Shape(e.tabs, e.threads) && Inv(e, late) && CanCall(e, k, c)
    requires f < |CallStep(e, k, c).tabs.flies|
    ensures FlyOk(CallStep(e, k, c).tabs, e.log, late + Expiring(e, Calling(k, c)), f)
  {
    assert late + {} == late;
    if f < |e.tabs.flies| { assert FlyOk(e.tabs, e.log, late, f); }
    match c
    case LoadOrStore => FlyStore(e, late, k, f);
    case Expire => FlyExpire(e, late, k, f);
    case CloseChannel => FlyCloses(e, late, k, f);
    case LoadAndDelete => FlySame(e.tabs, CallStep(e, k, c).tabs, e.log, e.log, late, late, f);
    case _ =>
  }

  lemma OwnCall(e: Endpoint, late: set<nat>, k: nat, c: CallEvent)
    requires Entries.Shape(e.tabs, e.threads) && Inv(e, late) && CanCall(e, k, c)
    ensures ThreadOk(e.log, late + Expiring(e, Calling(k, c)), CallStep(e, k, c).threads[k])
  {
    var call := CallAt(e, k);
    assert Entries.CallOk(e.tabs, k, e.threads[k]) && ThreadOk(e.log, late, e.threads[k]);
    match c
    case Wake => assert FlyOk(e.tabs, e.log, late, call.wait.entry);
    case LoadAndDelete => assert FlyOk(e.tabs, e.log, late, call.wait.entry);
    case CloseChannel => assert FlyOk(e.tabs, e.log, late, call.wait.entry);
    case _ =>
  }

  lemma Calls(e: Endpoint, late: set<nat>, k: nat, c: CallEvent)
    requires Entries.Shape(e.tabs, e.threads) && Inv(e, late) && CanCall(e, k, c)
    ensures Inv(CallStep(e, k, c), late + Expiring(e, Calling(k, c)))
  {
    var e1, late1 := CallStep(e, k, c), late + Expiring(e, Calling(k, c));
    Entries.ShapeCall(e, k, c);
    forall f | 0 <= f < |e1.tabs.flies| ensures FlyOk(e1.tabs, e1.log, late1, f) { FlyCall(e, late, k, c, f); }
    OwnCall(e, late, k, c);
    forall j | 0 <= j < |e1.threads| ensures ThreadOk(e1.log, late1, e1.threads[j]) {
      if j != k { ThreadGrows(e.log, e1.log, late, late1, e.threads[j]); }
    }
  }

  lemma FlyResponse(e: Endpoint, late: set<nat>, f: nat)
    requires Entries.Shape(e.tabs, e.threads) && Inv(e, late) && CanNet(e, Deliver) && f < |e.tabs.flies|
    requires e.rxQueue[0].Response?
    ensures FlyOk(Dispatch(e).tabs, Dispatch(e).log, late, f)
  {
    var pkt, e1 := e.rxQueue[0], Dispatch(e);
    assert FlyOk(e.tabs, e.log, late, f);
    if pkt.id in e.tabs.resp && e.tabs.resp[pkt.id] == f {
      assert Dispatched(Response(pkt.id, pkt.result, pkt.error)) in e1.log;
      if f in late && pkt.error == "" && Genuine(e.log, pkt.id, "", e.tabs.flies[f].err) {
        GenuineGrows(e.log, e1.log, pkt.id, "", e.tabs.flies[f].err);
      }
    } else {
      FlySame(e.tabs, e1.tabs, e.log, e1.log, late, late, f);
    }
  }

  lemma FlyElse(e: Endpoint, late: set<nat>, f: nat)
    requires Entries.Shape(e.tabs, e.threads) && Inv(e, late) && CanNet(e, Deliver) && f < |e.tabs.flies|
    requires !e.rxQueue[0].Response?
    ensures FlyOk(Dispatch(e).tabs, Dispatch(e).log, late, f)
  {
    var pkt, e1 := e.rxQueue[0], Dispatch(e);
    assert FlyOk(e.tabs, e.log, late, f);
    if !(pkt.Ack? && pkt.id in e.tabs.ack && e.tabs.ack[pkt.id] == f) {
      FlySame(e.tabs, e1.tabs, e.log, e1.log, late, late, f);
    }
  }

  lemma Delivers(e: Endpoint, late: set<nat>)
    requires Entries.Shape(e.tabs, e.threads) && Inv(e, late) && CanNet(e, Deliver)
    ensures Inv(Dispatch(e), late)
  {
    var e1 := Dispatch(e);
    Entries.ShapeDeliver(e);
    forall f | 0 <= f < |e1.tabs.flies| ensures FlyOk(e1.tabs, e1.log, late, f) {
      if e.rxQueue[0].Response? { FlyResponse(e, late, f); } else { FlyElse(e, late, f); }
    }
    forall j | 0 <= j < |e1.threads| ensures ThreadOk(e1.log, late, e1.threads[j]) {
      if j < |e.threads| { ThreadGrows(e.log, e1.log, late, late, e.threads[j]); }
    }
  }

  lemma Closes(e: Endpoint, late: set<nat>)
    requires Entries.Shape(e.tabs, e.threads) && Inv(e, late) && CanNet(e, CloseEntry)
    ensures Inv(NetStep(e, CloseEntry), late)
  {
    var e1 := NetStep(e, CloseEntry);
    forall f | 0 <= f < |e1.tabs.flies| ensures FlyOk(e1.tabs, e1.log, late, f) {
      assert FlyOk(e.tabs, e.log, late, f);
    }
    forall j | 0 <= j < |e1.threads| ensures ThreadOk(e1.log, late, e1.threads[j]) {
      ThreadGrows(e.log, e1.log, late, late, e.threads[j]);
    }
  }

  /** A step that leaves the tables alone, extends the log, and replaces or adds one goroutine. */
  lemma Rest(e: Endpoint, e1: Endpoint, late: set<nat>, k: nat)
    requires Inv(e, late) && e1.tabs == e.tabs && e.log <= e1.log && k <= |e.threads| <= |e1.threads|
    requires forall j :: 0 <= j < |e1.threads| && j != k ==> j < |e.threads| && e1.threads[j] == e.threads[j]
    requires k < |e1.threads| ==> ThreadOk(e1.log, late, e1.threads[k])
    ensures Inv(e1, late)
  {
    forall m | m in e.log ensures m in e1.log {}
    forall f | 0 <= f < |e1.tabs.flies| ensures FlyOk(e1.tabs, e1.log, late, f) {
      FlySame(e.tabs, e1.tabs, e.log, e1.log, late, late, f);
    }
    forall j | 0 <= j < |e1.threads| ensures ThreadOk(e1.log, late, e1.threads[j]) {
      if j < |e.threads| && j != k { ThreadGrows(e.log, e1.log, late, late, e.threads[j]); }
    }
  }

  lemma Preserved(e: Endpoint, late: set<nat>, ev: Event)
    requires Entries.Shape(e.tabs, e.threads) && Inv(e, late) && Enabled(e, ev)
    ensures Inv(Step(e, ev), late + Expiring(e, ev))
  {
    assert late + {} == late;
    match ev
    case Net(n) =>
      if n == Deliver { Delivers(e, late); } else if n == CloseEntry { Closes(e, late); }
      else { NetFrame(e, n); Rest(e, NetStep(e, n), late, |e.threads|); }
    case Calling(k, c) => Calls(e, late, k, c);
    case Working(k, w) =>
      WorkFrame(e, k, w);
      Rest(e, WorkStep(e, k, w), late, k);
    case Control(t) =>
      ControlFrame(e, t);
      Rest(e, ControlStep(e, t), late, |e.threads|);
  }

  // ---- over whole runs ----

  ghost function Now(s: System, a: Action, side: Side): set<nat>
    requires Can(s, a)
  {
    if a.side == side then Expiring(At(s, side), a.ev) else {}
  }

  /** The entries that time out on one side during a run. */
  ghost function Late(s: System, acts: seq<Action>, side: Side): set<nat>
    decreases |acts|
  {
    if acts == [] || !Can(s, acts[0]) then {}
    else Now(s, acts[0], side) + Late(Do(s, acts[0]), acts[1..], side)
  }

  lemma StepKeeps(s: System, a: Action, side: Side, late: set<nat>)
    requires Connection.Inv(s) && Inv(At(s, side), late) && Can(s, a)
    ensures Inv(At(Do(s, a), side), late + Now(s, a, side))
  {
    if a.side == side { Preserved(At(s, side), late, a.ev); } else { assert late + {} == late; }
  }

  lemma {:induction false} RunKeeps(s: System, acts: seq<Action>, s1: System, side: Side, late: set<nat>)
    requires Connection.Inv(s) && Inv(At(s, side), late) && Reaches(s, acts, s1)
    ensures Inv(At(s1, side), late + Late(s, acts, side))
    decreases |acts|
  {
    if acts == [] {
      assert late + {} == late;
    } else {
      var now, rest := Now(s, acts[0], side), Late(Do(s, acts[0]), acts[1..], side);
      StepInv(s, acts[0]);
      StepKeeps(s, acts[0], side, late);
      RunKeeps(Do(s, acts[0]), acts[1..], s1, side, late + now);
      assert late + now + rest == late + (now + rest);
    }
  }

  /** In every run, a request returns exactly the error, or without one the value, of a response to it
      that has been dispatched, and a send returns no error; unless the owner of its entry has timed
      out, when it may return the timeout instead. Without such a timeout no value comes with an error. */
  lemma ReturnsExactly(s: System, acts: seq<Action>, s1: System, side: Side, k: nat)
    requires Initial(s) && Reaches(s, acts, s1)
    requires InCall(At(s1, side), k) && CallAt(At(s1, side), k).wait.Returned?
    ensures var e, call := At(s1, side), CallAt(At(s1, side), k);
            || (call.wait.err == TIMEOUT && call.wait.entry in Late(s, acts, side))
            || (if call.op == SendWithRetry then call.wait.err == ""
                else exists r :: Dispatched(Response(call.pkt.id, r, call.wait.err)) in e.log
                                 && (call.wait.err == "" ==> r == call.wait.value))
    ensures var wait := CallAt(At(s1, side), k).wait;
            wait.err != "" && wait.entry !in Late(s, acts, side) ==> wait.value == ""
  {
    InitialInv(s);
    RunKeeps(s, acts, s1, side, {});
    assert {} + Late(s, acts, side) == Late(s, acts, side);
    assert ThreadOk(At(s1, side).log, Late(s, acts, side), At(s1, side).threads[k]);
  }

  /** A call returns the error that its entry holds at that moment, and the value only if it is woken. */
  lemma ReturnsEntry(e: Endpoint, k: nat, c: CallEvent)
    requires CanCall(e, k, c) && !CallAt(e, k).wait.Returned?
    ensures InCall(CallStep(e, k, c), k)
    ensures var e1 := CallStep(e, k, c);
            var w := CallAt(e1, k).wait;
            w.Returned? ==>
              && w.entry == CallAt(e, k).wait.entry < |e1.tabs.flies|
              && w.err == e1.tabs.flies[w.entry].err
              && w.value == if c == Wake then e1.tabs.flies[w.entry].result else ""
  {
  }

  lemma {:induction false} NoneLate(s: System, acts: seq<Action>, side: Side)
    requires forall i :: 0 <= i < |acts| && acts[i].side == side && acts[i].ev.Calling? ==> acts[i].ev.c != Expire
    ensures Late(s, acts, side) == {}
    decreases |acts|
  {
    if acts != [] && Can(s, acts[0]) { NoneLate(Do(s, acts[0]), acts[1..], side); }
  }

  /** In a run in which no timeout comes on one side, its requests return what was answered and its
      sends report no error. */
  lemma ReturnsInTime(s: System, acts: seq<Action>, s1: System, side: Side, k: nat)
    requires Initial(s) && Reaches(s, acts, s1)
    requires forall i :: 0 <= i < |acts| && acts[i].side == side && acts[i].ev.Calling? ==> acts[i].ev.c != Expire
    requires InCall(At(s1, side), k) && CallAt(At(s1, side), k).wait.Returned?
    ensures var e, call := At(s1, side), CallAt(At(s1, side), k);
            if call.op == SendWithRetry then call.wait.err == ""
            else exists r :: Dispatched(Response(call.pkt.id, r, call.wait.err)) in e.log
                             && (call.wait.err == "" ==> r == call.wait.value)
  {
    NoneLate(s, acts, side);
    ReturnsExactly(s, acts, s1, side, k);
  }
}
