/**
 What a returned call means: without error, a response or an acknowledgement for its own id
 was dispatched here, and every call that shared the entry got the value that response carried.
 */
module Answers {
  import opened Endpoint
  import Entries
  import Workers

  /** The packet that answers an entry has been dispatched. */
  ghost predicate Answered(fly: Fly, log: seq<Mark>) {
    if fly.op == SendWithRetry then Dispatched(Ack(fly.id)) in log
    else Dispatched(Response(fly.id, fly.result, "")) in log
  }

  ghost predicate FlyOk(t: Tables, log: seq<Mark>, f: nat)
    requires f < |t.flies|
  {
    t.flies[f].err == "" && (Entries.Closed(t, f) > 0 || Entries.Taken(t, f)) ==>
      !Entries.InTable(t, f) && Answered(t.flies[f], log)
  }

  ghost predicate ReturnOk(t: Tables, log: seq<Mark>, call: Call)
    requires call.wait.Returned? && call.wait.entry < |t.flies|
  {
    call.wait.err == "" ==>
      && !Entries.InTable(t, call.wait.entry) && Answered(t.flies[call.wait.entry], log)
      && call.wait.value == t.flies[call.wait.entry].result
  }

  ghost predicate CallOk(t: Tables, log: seq<Mark>, disposed: bool, call: Call) {
    && EntryInRange(t, call.wait)
    && ((call.wait.TimingOut? || call.wait.Closing?) ==> t.flies[call.wait.entry].err != "")
    && (call.wait.Returned? ==> ReturnOk(t, log, call))
    && (call.wait.Cancelled? ==> disposed)
  }

  ghost predicate ThreadOk(t: Tables, log: seq<Mark>, disposed: bool, thread: Thread) {
    && (CallOf(thread).Some? ==> CallOk(t, log, disposed, CallOf(thread).value))
    && (thread.Worker? && thread.stage.Deciding? && thread.stage.err == "" ==>
          disposed || Dispatched(Ack(thread.stage.resp.id)) in log)
  }

  ghost predicate AInv(t: Tables, threads: seq<Thread>, log: seq<Mark>, disposed: bool) {
    && (forall f :: 0 <= f < |t.flies| ==> FlyOk(t, log, f))
    && (forall k :: 0 <= k < |threads| ==> ThreadOk(t, log, disposed, threads[k]))
  }

  ghost predicate Inv(e: Endpoint) {
    AInv(e.tabs, e.threads, e.log, e.disposed)
  }

  /** An entry already out of its table keeps its result, and an error stays an error. */
  ghost predicate SettledAt(t: Tables, u: Tables, f: nat)
    requires f < |t.flies| <= |u.flies|
  {
    && (!Entries.InTable(t, f) ==> !Entries.InTable(u, f) && u.flies[f].result == t.flies[f].result)
    && (t.flies[f].err != "" ==> u.flies[f].err != "")
  }

  ghost predicate Settled(t: Tables, u: Tables) {
    && Entries.Extends(t, u)
    && (forall f :: 0 <= f < |t.flies| ==> SettledAt(t, u, f))
  }

  lemma Others(t: Tables, threads: seq<Thread>, log: seq<Mark>, disposed: bool, u: Tables, log1: seq<Mark>, j: nat)
    requires AInv(t, threads, log, disposed) && Settled(t, u) && log <= log1 && j < |threads|
    ensures ThreadOk(u, log1, disposed, threads[j])
  {
    assert ThreadOk(t, log, disposed, threads[j]);
    forall m | m in log ensures m in log1 {}
    if CallOf(threads[j]).Some? {
      var w := CallOf(threads[j]).value.wait;
      if w.TimingOut? || w.Closing? || w.Returned? { assert SettledAt(t, u, w.entry); }
    }
  }

  /** An entry that is neither finished by this step nor put back into a table. */
  lemma FlySame(t: Tables, u: Tables, log: seq<Mark>, f: nat)
    requires f < |t.flies| <= |u.flies| && FlyOk(t, log, f)
    requires u.flies[f] == t.flies[f] && u.closing == t.closing && (Entries.InTable(u, f) ==> Entries.InTable(t, f))
    ensures FlyOk(u, log, f) && SettledAt(t, u, f)
  {
  }

  lemma FlyStore(t: Tables, threads: seq<Thread>, log: seq<Mark>, d: bool, k: nat, f: nat)
    requires Entries.Shape(t, threads) && AInv(t, threads, log, d)
    requires k < |threads| && CallOf(threads[k]).Some?
    requires var u := MoveStore(t, k, CallOf(threads[k]).value).tabs; f < |u.flies|
    ensures var u := MoveStore(t, k, CallOf(threads[k]).value).tabs;
            FlyOk(u, log, f) && (f < |t.flies| ==> SettledAt(t, u, f))
  {
    var u := MoveStore(t, k, CallOf(threads[k]).value).tabs;
    if f < |t.flies| { assert FlyOk(t, log, f); FlySame(t, u, log, f); }
  }

  lemma FlyDelete(t: Tables, threads: seq<Thread>, log: seq<Mark>, d: bool, call: Call, f: nat)
    requires Entries.Shape(t, threads) && AInv(t, threads, log, d)
    requires call.wait.TimingOut? && call.wait.entry < |t.flies| && f < |t.flies|
    ensures var u := MoveDelete(t, call).tabs; FlyOk(u, log, f) && SettledAt(t, u, f)
  {
    assert FlyOk(t, log, f);
    FlySame(t, MoveDelete(t, call).tabs, log, f);
  }

  lemma FlyExpire(t: Tables, log: seq<Mark>, call: Call, f: nat)
    requires call.wait.Owning? && call.wait.entry < |t.flies| && f < |t.flies| && FlyOk(t, log, f)
    ensures var u := MoveExpire(t, call).tabs; f < |u.flies| && FlyOk(u, log, f) && SettledAt(t, u, f)
  {
    assert TIMEOUT[0] == 't';
    var u := MoveExpire(t, call).tabs;
    if f != call.wait.entry { FlySame(t, u, log, f); } else { assert u.flies[f].err == TIMEOUT; }
  }

  lemma FlyClose(t: Tables, log: seq<Mark>, op: Op, entry: nat, f: nat)
    requires entry < |t.flies| && t.flies[entry].err != "" && f < |t.flies| && FlyOk(t, log, f)
    ensures var u := Close(t, Awaited(op, entry)); FlyOk(u, log, f) && SettledAt(t, u, f)
  {
    if f != entry { FlySame(t, Close(t, Awaited(op, entry)), log, f); }
  }

  lemma FlyCall(t: Tables, threads: seq<Thread>, log: seq<Mark>, d: bool, k: nat, c: CallEvent, f: nat)
    requires Entries.Shape(t, threads) && AInv(t, threads, log, d)
    requires k < |threads| && CallOf(threads[k]).Some? && CanMove(t, CallOf(threads[k]).value, d, c)
    requires f < |Move(t, k, CallOf(threads[k]).value, d, c).tabs.flies|
    ensures var u := Move(t, k, CallOf(threads[k]).value, d, c).tabs;
            FlyOk(u, log, f) && (f < |t.flies| ==> SettledAt(t, u, f))
  {
    var call := CallOf(threads[k]).value;
    assert ThreadOk(t, log, d, threads[k]);
    if f < |t.flies| { assert FlyOk(t, log, f); }
    match c
    case LoadOrStore => FlyStore(t, threads, log, d, k, f);
    case Expire => FlyExpire(t, log, call, f);
    case LoadAndDelete => FlyDelete(t, threads, log, d, call, f);
    case CloseChannel => FlyClose(t, log, call.op, call.wait.entry, f);
    case _ =>
  }

  lemma OwnCall(t: Tables, threads: seq<Thread>, log: seq<Mark>, d: bool, k: nat, c: CallEvent)
    requires Entries.Shape(t, threads) && AInv(t, threads, log, d)
    requires k < |threads| && CallOf(threads[k]).Some? && CanMove(t, CallOf(threads[k]).value, d, c)
    ensures var m := Move(t, k, CallOf(threads[k]).value, d, c);
            ThreadOk(m.tabs, log, d, WithWait(threads[k], m.wait))
  {
    assert TIMEOUT[0] == 't';
    var call := CallOf(threads[k]).value;
    assert Entries.CallOk(t, k, threads[k]) && ThreadOk(t, log, d, threads[k]);
    match c
    case Wake => assert FlyOk(t, log, call.wait.entry);
    case LoadOrStore =>
    case Expire =>
    case LoadAndDelete =>
    case CloseChannel =>
    case _ =>
  }

  lemma Calls(e: Endpoint, k: nat, c: CallEvent)
    requires Entries.Shape(e.tabs, e.threads) && Inv(e) && CanCall(e, k, c)
    ensures Inv(CallStep(e, k, c))
  {
    var e1 := CallStep(e, k, c);
    forall f | 0 <= f < |e1.tabs.flies| ensures FlyOk(e1.tabs, e1.log, f) {
      FlyCall(e.tabs, e.threads, e.log, e.disposed, k, c, f);
    }
    Entries.ShapeTables(e.tabs, e.threads, k, e.disposed, c);
    forall f | 0 <= f < |e.tabs.flies| ensures SettledAt(e.tabs, e1.tabs, f) {
      FlyCall(e.tabs, e.threads, e.log, e.disposed, k, c, f);
    }
    OwnCall(e.tabs, e.threads, e.log, e.disposed, k, c);
    forall j | 0 <= j < |e1.threads| ensures ThreadOk(e1.tabs, e1.log, e1.disposed, e1.threads[j]) {
      if j != k { Others(e.tabs, e.threads, e.log, e.disposed, e1.tabs, e1.log, j); }
    }
  }

  lemma FlyResponse(t: Tables, log: seq<Mark>, pkt: Packet, log1: seq<Mark>, f: nat)
    requires InRange(t) && Entries.TableOk(t, t.resp, false) && t.closing.None? && pkt.Response?
    requires f < |t.flies| && FlyOk(t, log, f) && Dispatched(pkt) in log1 && forall m :: m in log ==> m in log1
    ensures FlyOk(TakeResponse(t, pkt), log1, f)
  {
    if pkt.error == "" { assert pkt == Response(pkt.id, pkt.result, ""); }
  }

  lemma FlyAck(t: Tables, log: seq<Mark>, id: Id, log1: seq<Mark>, f: nat)
    requires InRange(t) && Entries.TableOk(t, t.ack, true) && t.closing.None?
    requires f < |t.flies| && FlyOk(t, log, f) && Dispatched(Ack(id)) in log1 && forall m :: m in log ==> m in log1
    ensures FlyOk(TakeAck(t, id), log1, f)
  {
  }

  lemma FlyDeliver(e: Endpoint, f: nat)
    requires Entries.Shape(e.tabs, e.threads) && Inv(e) && CanNet(e, Deliver) && f < |e.tabs.flies|
    ensures FlyOk(Dispatch(e).tabs, Dispatch(e).log, f)
  {
    var pkt := e.rxQueue[0];
    var log1 := Dispatch(e).log;
    assert FlyOk(e.tabs, e.log, f);
    assert Dispatched(pkt) in log1 && forall m :: m in e.log ==> m in log1;
    if pkt.Response? {
      FlyResponse(e.tabs, e.log, pkt, log1, f);
    } else if pkt.Ack? {
      assert pkt == Ack(pkt.id);
      FlyAck(e.tabs, e.log, pkt.id, log1, f);
    }
  }

  lemma SettledDeliver(e: Endpoint, f: nat)
    requires Entries.Shape(e.tabs, e.threads) && CanNet(e, Deliver)
    requires f < |e.tabs.flies| <= |Dispatch(e).tabs.flies|
    ensures SettledAt(e.tabs, Dispatch(e).tabs, f)
  {
  }

  lemma Delivers(e: Endpoint)
    requires Entries.Shape(e.tabs, e.threads) && Inv(e) && CanNet(e, Deliver)
    ensures Inv(Dispatch(e))
  {
    var e1 := Dispatch(e);
    forall f | 0 <= f < |e1.tabs.flies| ensures FlyOk(e1.tabs, e1.log, f) { FlyDeliver(e, f); }
    assert Entries.Extends(e.tabs, e1.tabs) by { Entries.ShapeDeliver(e); }
    forall f | 0 <= f < |e.tabs.flies| ensures SettledAt(e.tabs, e1.tabs, f) { SettledDeliver(e, f); }
    forall j | 0 <= j < |e1.threads| ensures ThreadOk(e1.tabs, e1.log, e1.disposed, e1.threads[j]) {
      if j < |e.threads| { Others(e.tabs, e.threads, e.log, e.disposed, e1.tabs, e1.log, j); }
    }
  }

  /** Steps that touch no table, extend the log and replace or add one thread. */
  lemma Rest(e: Endpoint, e1: Endpoint, k: nat)
    requires Inv(e) && e1.tabs == e.tabs && e.log <= e1.log && (e.disposed ==> e1.disposed)
    requires |e.threads| <= |e1.threads| && k <= |e.threads|
    requires forall j :: 0 <= j < |e1.threads| && j != k ==> j < |e.threads| && e1.threads[j] == e.threads[j]
    requires k < |e1.threads| ==> ThreadOk(e1.tabs, e1.log, e1.disposed, e1.threads[k])
    ensures Inv(e1)
  {
    forall m | m in e.log ensures m in e1.log {}
    forall f | 0 <= f < |e1.tabs.flies| ensures FlyOk(e1.tabs, e1.log, f) { assert FlyOk(e.tabs, e.log, f); }
    forall j | 0 <= j < |e1.threads| ensures ThreadOk(e1.tabs, e1.log, e1.disposed, e1.threads[j]) {
      if j != k && j < |e.threads| { assert ThreadOk(e.tabs, e.log, e.disposed, e.threads[j]); }
    }
  }

  lemma Works(e: Endpoint, k: nat, w: WorkEvent)
    requires Entries.Shape(e.tabs, e.threads) && Workers.Inv(e) && Inv(e) && CanWork(e, k, w)
    ensures Inv(WorkStep(e, k, w))
  {
    WorkFrame(e, k, w);
    var e1 := WorkStep(e, k, w);
    assert ThreadOk(e.tabs, e.log, e.disposed, e.threads[k]);
    assert Entries.CallOk(e.tabs, k, e.threads[k]);
    assert Workers.WorkerOk(e.threads[k], e.handlingReq, e.log);
    Rest(e, e1, k);
  }

  lemma Preserved(e: Endpoint, ev: Event)
    requires Entries.Shape(e.tabs, e.threads) && Workers.Inv(e) && Inv(e) && Enabled(e, ev)
    ensures Inv(Step(e, ev))
  {
    match ev
    case Net(n) =>
      if n == Deliver { Delivers(e); }
      else if n == CloseEntry { Closes(e); }
      else { NetFrame(e, n); Rest(e, NetStep(e, n), |e.threads|); }
    case Calling(k, c) => Calls(e, k, c);
    case Working(k, w) => Works(e, k, w);
    case Control(t) => ControlFrame(e, t); Rest(e, ControlStep(e, t), |e.threads|);
  }

  lemma Closes(e: Endpoint)
    requires Entries.Shape(e.tabs, e.threads) && Inv(e) && CanNet(e, CloseEntry)
    ensures Inv(NetStep(e, CloseEntry))
  {
    var e1 := NetStep(e, CloseEntry);
    forall f | 0 <= f < |e1.tabs.flies| ensures FlyOk(e1.tabs, e1.log, f) { assert FlyOk(e.tabs, e.log, f); }
    assert Settled(e.tabs, e1.tabs);
    forall j | 0 <= j < |e1.threads| ensures ThreadOk(e1.tabs, e1.log, e1.disposed, e1.threads[j]) {
      Others(e.tabs, e.threads, e.log, e.disposed, e1.tabs, e1.log, j);
    }
  }
}
