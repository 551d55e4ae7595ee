/**
 In-flight entries and the channels waiters block on. Every entry owns one close token:
 it lies in the table that stores the entry, with the one goroutine that deleted it and is
 about to close it, or in the closed channel. A channel closed twice would be a panic, so the
 question is exactly which steps keep every token unique.
 */
module Entries {
  import opened Endpoint

  ghost predicate InTable(t: Tables, f: nat)
    requires f < |t.flies|
  {
    var fly := t.flies[f];
    fly.id in Table(t, fly.op) && Table(t, fly.op)[fly.id] == f
  }

  /** The goroutine that stored `f` has won its LoadAndDelete and has not closed yet. */
  ghost predicate OwnerClosing(t: Tables, threads: seq<Thread>, f: nat)
    requires f < |t.flies|
  {
    var k := t.flies[f].owner;
    k < |threads| && CallOf(threads[k]).Some? && CallOf(threads[k]).value.wait == Closing(f)
  }

  /** The dispatcher has taken `f` out of its table and has not closed it yet. */
  ghost predicate Taken(t: Tables, f: nat) {
    t.closing.Some? && t.closing.value.entry == f
  }

  /** How often the channel that `f` is awaited on has been closed. */
  function Closed(t: Tables, f: nat): nat
    requires f < |t.flies|
  {
    Closes(t.flies[f], t.flies[f].op)
  }

  function One(b: bool): nat { if b then 1 else 0 }

  ghost function Tokens(t: Tables, threads: seq<Thread>, f: nat): nat
    requires f < |t.flies|
  {
    Closed(t, f) + One(Taken(t, f)) + One(OwnerClosing(t, threads, f)) + One(InTable(t, f))
  }

  /** An id, and in which of the two tables it is looked up. */
  datatype Key = Key(id: Id, acks: bool)

  function CallKey(c: Call): Key {
    Key(c.pkt.id, c.op == SendWithRetry)
  }

  function EntryKey(t: Tables, f: nat): Key
    requires f < |t.flies|
  {
    Key(t.flies[f].id, t.flies[f].op == SendWithRetry)
  }

  predicate Under(thread: Thread, key: Key) {
    CallOf(thread).Some? && CallKey(CallOf(thread).value) == key
  }

  /** Each entry of the key has exactly one token. */
  ghost predicate Balanced(t: Tables, threads: seq<Thread>, key: Key) {
    forall f :: 0 <= f < |t.flies| && EntryKey(t, f) == key ==> Tokens(t, threads, f) == 1
  }

  // ---- shape of tables and calls, kept by every step ----

  ghost predicate TableOk(t: Tables, table: map<Id, nat>, acks: bool) {
    forall id :: id in table ==>
      table[id] < |t.flies| && t.flies[table[id]].id == id && (t.flies[table[id]].op == SendWithRetry <==> acks)
  }

  ghost predicate OwnersOk(t: Tables, threads: seq<Thread>) {
    forall f :: 0 <= f < |t.flies| ==> t.flies[f].owner < |threads|
  }

  /** An entry is only ever closed on the channel it is awaited on: a request's `ackBack` and a
      notification's absent `resultBack` never are. */
  ghost predicate FlyOk(fly: Fly) {
    if fly.op == SendWithRetry then fly.resultBack == 0 else fly.ackBack == 0
  }

  ghost predicate FliesOk(t: Tables) {
    && (forall f :: 0 <= f < |t.flies| ==> FlyOk(t.flies[f]))
    && (t.closing.Some? ==>
          var f := t.closing.value.entry;
          f < |t.flies| && t.closing.value == Awaited(t.flies[f].op, f))
  }

  ghost predicate CallOk(t: Tables, k: nat, thread: Thread) {
    CallOf(thread).Some? ==>
      var c := CallOf(thread).value;
      && EntryInRange(t, c.wait)
      && ((c.wait.Owning? || c.wait.TimingOut? || c.wait.Closing?) ==>
            t.flies[c.wait.entry].owner == k && t.flies[c.wait.entry].id == c.pkt.id
            && t.flies[c.wait.entry].op == c.op)
      && ((c.wait.TimingOut? || c.wait.Closing?) ==> c.op != RequestOnce)
      && (c.wait.Owning? ==> !c.wait.beAcked)
      && ((c.wait.Watching? || c.wait.Returned?) ==>
            && t.flies[c.wait.entry].id == c.pkt.id
            && (t.flies[c.wait.entry].op == SendWithRetry <==> c.op == SendWithRetry))
  }

  ghost predicate Shape(t: Tables, threads: seq<Thread>) {
    && TableOk(t, t.resp, false)
    && TableOk(t, t.ack, true)
    && OwnersOk(t, threads)
    && FliesOk(t)
    && (forall k :: 0 <= k < |threads| ==> CallOk(t, k, threads[k]))
  }

  /** The entries of `u` are those of `t`, perhaps with other outcomes, and perhaps more. */
  ghost predicate Extends(t: Tables, u: Tables) {
    && |t.flies| <= |u.flies|
    && (forall f :: 0 <= f < |t.flies| ==>
          u.flies[f].owner == t.flies[f].owner && u.flies[f].id == t.flies[f].id && u.flies[f].op == t.flies[f].op)
  }

  lemma ShapeMove(t: Tables, threads: seq<Thread>, u: Tables, k: nat, thread: Thread)
    requires Shape(t, threads) && k < |threads| && Extends(t, u) && OwnersOk(u, threads)
    requires TableOk(u, u.resp, false) && TableOk(u, u.ack, true)
    requires FliesOk(u)
    requires CallOk(u, k, thread)
    ensures Shape(u, threads[k := thread])
  {
    forall j | 0 <= j < |threads| && j != k ensures CallOk(u, j, threads[j]) {
      assert CallOk(t, j, threads[j]);
    }
  }

  lemma ShapeNet(t: Tables, threads: seq<Thread>, u: Tables)
    requires Shape(t, threads) && Extends(t, u) && OwnersOk(u, threads)
    requires TableOk(u, u.resp, false) && TableOk(u, u.ack, true)
    requires FliesOk(u)
    ensures Shape(u, threads)
  {
    forall j | 0 <= j < |threads| ensures CallOk(u, j, threads[j]) {
      assert CallOk(t, j, threads[j]);
    }
  }

  /** The tables a step of a waiting call may leave behind. */
  ghost predicate Kept(t: Tables, threads: seq<Thread>, u: Tables) {
    && Extends(t, u) && OwnersOk(u, threads) && u.closing == t.closing && FliesOk(u)
    && TableOk(u, u.resp, false) && TableOk(u, u.ack, true)
  }

  lemma KeptAdd(t: Tables, threads: seq<Thread>, fly: Fly)
    requires Shape(t, threads) && fly.owner < |threads| && FlyOk(fly)
    ensures Kept(t, threads, t.(flies := t.flies + [fly]))
  {
    var u := t.(flies := t.flies + [fly]);
    assert forall f :: 0 <= f < |t.flies| ==> u.flies[f] == t.flies[f];
  }

  lemma TableAdd(t: Tables, table: map<Id, nat>, acks: bool, f: nat)
    requires TableOk(t, table, acks) && f < |t.flies| && (t.flies[f].op == SendWithRetry <==> acks)
    ensures TableOk(t, table[t.flies[f].id := f], acks)
  {
  }

  lemma KeptStore(t: Tables, threads: seq<Thread>, k: nat, call: Call)
    requires Shape(t, threads) && k < |threads|
    ensures Kept(t, threads, MoveStore(t, k, call).tabs)
  {
    var fly := Fly(k, call.op, call.pkt.id, 0, 0, "", "");
    var u := t.(flies := t.flies + [fly]);
    KeptAdd(t, threads, fly);
    TableAdd(u, Table(u, call.op), call.op == SendWithRetry, |t.flies|);
  }

  /** The `ackBack` that a request loop watches is never closed. */
  lemma NotNoted(t: Tables, threads: seq<Thread>, k: nat, disposed: bool)
    requires Shape(t, threads) && k < |threads| && CallOf(threads[k]).Some?
    ensures !CanMove(t, CallOf(threads[k]).value, disposed, NoteAck)
  {
    var call := CallOf(threads[k]).value;
    assert CallOk(t, k, threads[k]);
    if call.wait.Owning? { assert FlyOk(t.flies[call.wait.entry]); }
  }

  lemma KeptDelete(t: Tables, threads: seq<Thread>, call: Call)
    requires Shape(t, threads) && call.wait.TimingOut? && call.wait.entry < |t.flies|
    ensures Kept(t, threads, MoveDelete(t, call).tabs)
  {
  }

  /** Changing the outcome of one entry. */
  lemma KeptUpdate(t: Tables, threads: seq<Thread>, f: nat, fly: Fly)
    requires Shape(t, threads) && f < |t.flies|
    requires fly.owner == t.flies[f].owner && fly.op == t.flies[f].op && fly.id == t.flies[f].id && FlyOk(fly)
    ensures Kept(t, threads, t.(flies := t.flies[f := fly]))
  {
  }

  lemma KeptClose(t: Tables, threads: seq<Thread>, f: nat)
    requires Shape(t, threads) && f < |t.flies|
    ensures Kept(t, threads, Close(t, Awaited(t.flies[f].op, f)))
  {
    KeptUpdate(t, threads, f, Close(t, Awaited(t.flies[f].op, f)).flies[f]);
  }

  lemma ShapeTables(t: Tables, threads: seq<Thread>, k: nat, disposed: bool, c: CallEvent)
    requires Shape(t, threads) && k < |threads| && CallOf(threads[k]).Some?
    requires CanMove(t, CallOf(threads[k]).value, disposed, c)
    ensures Kept(t, threads, Move(t, k, CallOf(threads[k]).value, disposed, c).tabs)
  {
    var call := CallOf(threads[k]).value;
    match c
    case LoadOrStore => KeptStore(t, threads, k, call);
    case LoadAndDelete => KeptDelete(t, threads, call);
    case Expire =>
      var fly := t.flies[call.wait.entry].(err := TIMEOUT);
      KeptUpdate(t, threads, call.wait.entry, fly);
      if call.op == RequestOnce {
        var t1 := t.(flies := t.flies[call.wait.entry := fly]);
        ShapeNet(t, threads, t1);
        KeptClose(t1, threads, call.wait.entry);
      }
    case CloseChannel => KeptClose(t, threads, call.wait.entry);
    case _ =>
  }

  lemma ShapeOwnTable(t: Tables, threads: seq<Thread>, k: nat, call: Call)
    requires Shape(t, threads) && k < |threads| && CallOf(threads[k]).Some? && CallOf(threads[k]).value == call
    ensures var m := MoveLookUp(t, call); CallOk(m.tabs, k, WithWait(threads[k], m.wait))
    ensures var m := MoveStore(t, k, call); CallOk(m.tabs, k, WithWait(threads[k], m.wait))
  {
  }

  lemma ShapeOwn(t: Tables, threads: seq<Thread>, k: nat, disposed: bool, c: CallEvent)
    requires Shape(t, threads) && k < |threads| && CallOf(threads[k]).Some?
    requires CanMove(t, CallOf(threads[k]).value, disposed, c)
    ensures var m := Move(t, k, CallOf(threads[k]).value, disposed, c);
            CallOk(m.tabs, k, WithWait(threads[k], m.wait))
  {
    NotNoted(t, threads, k, disposed);
    assert CallOk(t, k, threads[k]);
    match c
    case LookUp => ShapeOwnTable(t, threads, k, CallOf(threads[k]).value);
    case LoadOrStore => ShapeOwnTable(t, threads, k, CallOf(threads[k]).value);
    case NoteAck => assert false;
    case _ =>
  }

  lemma ShapeCall(e: Endpoint, k: nat, c: CallEvent)
    requires Shape(e.tabs, e.threads) && CanCall(e, k, c)
    ensures Shape(CallStep(e, k, c).tabs, CallStep(e, k, c).threads)
    ensures Extends(e.tabs, CallStep(e, k, c).tabs)
  {
    var m := Move(e.tabs, k, CallAt(e, k), e.disposed, c);
    ShapeTables(e.tabs, e.threads, k, e.disposed, c);
    ShapeOwn(e.tabs, e.threads, k, e.disposed, c);
    ShapeMove(e.tabs, e.threads, m.tabs, k, WithWait(e.threads[k], m.wait));
  }

  lemma ShapeAdd(t: Tables, threads: seq<Thread>, thread: Thread)
    requires Shape(t, threads) && CallOk(t, |threads|, thread)
    ensures Shape(t, threads + [thread])
  {
    var after := threads + [thread];
    forall k | 0 <= k < |after| ensures CallOk(t, k, after[k]) {
      if k < |threads| { assert CallOk(t, k, threads[k]); }
    }
  }

  lemma TakenShape(t: Tables, threads: seq<Thread>, pkt: Packet)
    requires Shape(t, threads) && InRange(t)
    ensures Shape(TakeAnswer(t, pkt), threads) && Extends(t, TakeAnswer(t, pkt))
  {
    ShapeNet(t, threads, TakeAnswer(t, pkt));
  }

  lemma ShapeDeliver(e: Endpoint)
    requires Shape(e.tabs, e.threads) && CanNet(e, Deliver)
    ensures Shape(Dispatch(e).tabs, Dispatch(e).threads)
    ensures Extends(e.tabs, Dispatch(e).tabs)
  {
    var pkt := e.rxQueue[0];
    var u := TakeAnswer(e.tabs, pkt);
    TakenShape(e.tabs, e.threads, pkt);
    if StartsWorker(e.handlingReq, pkt) { ShapeAdd(u, e.threads, Worker(pkt, Executing)); }
  }

  lemma ShapeStep(e: Endpoint, ev: Event)
    requires Shape(e.tabs, e.threads) && Enabled(e, ev)
    ensures Shape(Step(e, ev).tabs, Step(e, ev).threads)
    ensures Extends(e.tabs, Step(e, ev).tabs)
  {
    match ev
    case Net(n) =>
      if n == Deliver { ShapeDeliver(e); } else {
        NetFrame(e, n);
        ShapeNet(e.tabs, e.threads, NetStep(e, n).tabs);
      }
    case Calling(k, c) => ShapeCall(e, k, c);
    case Working(k, w) =>
      WorkFrame(e, k, w);
      assert CallOk(e.tabs, k, e.threads[k]);
      ShapeMove(e.tabs, e.threads, e.tabs, k, WorkStep(e, k, w).threads[k]);
    case Control(t) =>
      ControlFrame(e, t);
      if t.Begin? { ShapeAdd(e.tabs, e.threads, User(Call(t.op, t.pkt, Looking))); }
  }

  // ---- conservation of close tokens ----

  /** The two ways the source breaks the rule: `Request` closes its channel on timeout without
      deleting its entry, and the retrying calls delete by id, which may hit a later entry. */
  ghost predicate Breaks(e: Endpoint, ev: Event, key: Key)
    requires Enabled(e, ev)
  {
    ev.Calling? && Under(e.threads[ev.k], key) &&
    var call := CallAt(e, ev.k);
    || (ev.c == Expire && call.op == RequestOnce)
    || (ev.c == LoadAndDelete && call.pkt.id in Table(e.tabs, call.op)
        && Table(e.tabs, call.op)[call.pkt.id] != call.wait.entry)
  }

  lemma Untouched(t: Tables, threads: seq<Thread>, u: Tables, k: nat, w: Wait, f: nat)
    requires k < |threads| && CallOf(threads[k]).Some? && f < |t.flies| && Extends(t, u)
    requires u.flies[f].resultBack == t.flies[f].resultBack && u.flies[f].ackBack == t.flies[f].ackBack
    requires u.closing == t.closing && (InTable(u, f) <==> InTable(t, f))
    requires CallOf(threads[k]).value.wait != Closing(f) && w != Closing(f)
    ensures Tokens(u, threads[k := WithWait(threads[k], w)], f) == Tokens(t, threads, f)
  {
  }

  lemma TokensStore(t: Tables, threads: seq<Thread>, k: nat, f: nat)
    requires Shape(t, threads) && k < |threads| && CallOf(threads[k]).Some?
    requires f < |t.flies| ==> Tokens(t, threads, f) == 1
    requires CallOf(threads[k]).value.wait.Storing?
    requires f < |MoveStore(t, k, CallOf(threads[k]).value).tabs.flies|
    ensures var m := MoveStore(t, k, CallOf(threads[k]).value);
            Tokens(m.tabs, threads[k := WithWait(threads[k], m.wait)], f) == 1
  {
    var m := MoveStore(t, k, CallOf(threads[k]).value);
    if f < |t.flies| { Untouched(t, threads, m.tabs, k, m.wait, f); }
  }

  lemma TokensDelete(t: Tables, threads: seq<Thread>, k: nat, f: nat)
    requires Shape(t, threads) && k < |threads| && CallOf(threads[k]).Some?
    requires CallOf(threads[k]).value.wait.TimingOut? && CallOf(threads[k]).value.wait.entry < |t.flies|
    requires f < |t.flies| && Tokens(t, threads, f) == 1
    requires var call := CallOf(threads[k]).value;
             CallKey(call) == EntryKey(t, f) && call.pkt.id in Table(t, call.op) ==>
               Table(t, call.op)[call.pkt.id] == call.wait.entry
    ensures var m := MoveDelete(t, CallOf(threads[k]).value);
            Tokens(m.tabs, threads[k := WithWait(threads[k], m.wait)], f) == 1
  {
    var call := CallOf(threads[k]).value;
    var m := MoveDelete(t, call);
    assert CallOk(t, k, threads[k]);
    if f != call.wait.entry { Untouched(t, threads, m.tabs, k, m.wait, f); }
  }

  lemma TokensClose(t: Tables, threads: seq<Thread>, k: nat, f: nat, w: Wait)
    requires Shape(t, threads) && k < |threads| && CallOf(threads[k]).Some?
    requires CallOf(threads[k]).value.wait.Closing? && CallOf(threads[k]).value.wait.entry < |t.flies|
    requires f < |t.flies| && Tokens(t, threads, f) == 1 && w.Returned?
    ensures var c := CallOf(threads[k]).value;
            Tokens(Close(t, Awaited(c.op, c.wait.entry)), threads[k := WithWait(threads[k], w)], f) == 1
  {
    var u := Close(t, Awaited(CallOf(threads[k]).value.op, CallOf(threads[k]).value.wait.entry));
    assert CallOk(t, k, threads[k]);
    if f != CallOf(threads[k]).value.wait.entry { Untouched(t, threads, u, k, w, f); }
  }

  lemma TokensExpire(t: Tables, threads: seq<Thread>, k: nat, f: nat)
    requires Shape(t, threads) && k < |threads| && CallOf(threads[k]).Some?
    requires CallOf(threads[k]).value.wait.Owning? && CallOf(threads[k]).value.wait.entry < |t.flies|
    requires f < |t.flies| && Tokens(t, threads, f) == 1
    requires CallKey(CallOf(threads[k]).value) == EntryKey(t, f) ==> CallOf(threads[k]).value.op != RequestOnce
    ensures var m := MoveExpire(t, CallOf(threads[k]).value);
            Tokens(m.tabs, threads[k := WithWait(threads[k], m.wait)], f) == 1
  {
    var m := MoveExpire(t, CallOf(threads[k]).value);
    assert CallOk(t, k, threads[k]);
    Untouched(t, threads, m.tabs, k, m.wait, f);
  }

  lemma TokensCall(e: Endpoint, k: nat, c: CallEvent, f: nat)
    requires Shape(e.tabs, e.threads) && CanCall(e, k, c) && f < |CallStep(e, k, c).tabs.flies|
    requires f < |e.tabs.flies| ==> Tokens(e.tabs, e.threads, f) == 1 && !Breaks(e, Calling(k, c), EntryKey(e.tabs, f))
    ensures Tokens(CallStep(e, k, c).tabs, CallStep(e, k, c).threads, f) == 1
  {
    var m := Move(e.tabs, k, CallAt(e, k), e.disposed, c);
    NotNoted(e.tabs, e.threads, k, e.disposed);
    match c
    case LoadOrStore => TokensStore(e.tabs, e.threads, k, f);
    case LoadAndDelete => TokensDelete(e.tabs, e.threads, k, f);
    case CloseChannel => TokensClose(e.tabs, e.threads, k, f, m.wait);
    case Expire => TokensExpire(e.tabs, e.threads, k, f);
    case NoteAck => assert false;
    case _ => Untouched(e.tabs, e.threads, m.tabs, k, m.wait, f);
  }

  lemma TokensDeliver(e: Endpoint, f: nat)
    requires Shape(e.tabs, e.threads) && CanNet(e, Deliver)
    requires f < |e.tabs.flies| && Tokens(e.tabs, e.threads, f) == 1
    ensures Tokens(Dispatch(e).tabs, Dispatch(e).threads, f) == 1
  {
  }

  lemma TokensCloseEntry(e: Endpoint, f: nat)
    requires Shape(e.tabs, e.threads) && CanNet(e, CloseEntry)
    requires f < |e.tabs.flies| && Tokens(e.tabs, e.threads, f) == 1
    ensures Tokens(NetStep(e, CloseEntry).tabs, e.threads, f) == 1
  {
  }

  lemma TokensWork(e: Endpoint, k: nat, w: WorkEvent, f: nat)
    requires Shape(e.tabs, e.threads) && CanWork(e, k, w)
    requires f < |e.tabs.flies| && Tokens(e.tabs, e.threads, f) == 1
    ensures Tokens(e.tabs, WorkStep(e, k, w).threads, f) == 1
  {
    WorkFrame(e, k, w);
  }

  lemma Broken(e: Endpoint, k: nat, c: CallEvent, key: Key)
    requires Shape(e.tabs, e.threads) && Balanced(e.tabs, e.threads, key) && CanCall(e, k, c)
    requires Breaks(e, Calling(k, c), key)
    ensures !Balanced(CallStep(e, k, c).tabs, CallStep(e, k, c).threads, key)
  {
    var f, e1 := CallAt(e, k).wait.entry, CallStep(e, k, c);
    ShapeCall(e, k, c);
    assert CallOk(e.tabs, k, e.threads[k]);
    assert EntryKey(e.tabs, f) == key == EntryKey(e1.tabs, f);
    assert Tokens(e.tabs, e.threads, f) == 1;
    assert Tokens(e1.tabs, e1.threads, f) == 2;
  }

  lemma TokensNet(e: Endpoint, n: NetEvent, f: nat)
    requires Shape(e.tabs, e.threads) && CanNet(e, n)
    requires f < |e.tabs.flies| && Tokens(e.tabs, e.threads, f) == 1
    ensures Tokens(NetStep(e, n).tabs, NetStep(e, n).threads, f) == 1
  {
    match n
    case Deliver => TokensDeliver(e, f);
    case CloseEntry => NetFrame(e, CloseEntry); TokensCloseEntry(e, f);
    case _ =>
  }

  lemma TokensControl(e: Endpoint, t: ControlEvent, f: nat)
    requires Shape(e.tabs, e.threads) && CanControl(e, t)
    requires f < |e.tabs.flies| && Tokens(e.tabs, e.threads, f) == 1
    ensures Tokens(e.tabs, ControlStep(e, t).threads, f) == 1
  {
    ControlFrame(e, t);
  }

  lemma TokensElse(e: Endpoint, ev: Event, f: nat)
    requires Shape(e.tabs, e.threads) && Enabled(e, ev) && !ev.Calling?
    requires f < |e.tabs.flies| && Tokens(e.tabs, e.threads, f) == 1
    requires f < |Step(e, ev).tabs.flies|
    ensures Tokens(Step(e, ev).tabs, Step(e, ev).threads, f) == 1
  {
    match ev
    case Net(n) => TokensNet(e, n, f);
    case Working(k, w) => WorkFrame(e, k, w); TokensWork(e, k, w, f);
    case Control(t) => ControlFrame(e, t); TokensControl(e, t, f);
  }

  lemma NothingStored(e: Endpoint, ev: Event)
    requires Enabled(e, ev) && !ev.Calling?
    ensures |Step(e, ev).tabs.flies| == |e.tabs.flies|
  {
    match ev
    case Net(n) => if n != Deliver { NetFrame(e, n); }
    case Working(k, w) => WorkFrame(e, k, w);
    case Control(t) => ControlFrame(e, t);
  }

  /** Under each key, close tokens are conserved by exactly the steps that do not break ownership
      under that key. */
  lemma Conserved(e: Endpoint, ev: Event, key: Key)
    requires Shape(e.tabs, e.threads) && Balanced(e.tabs, e.threads, key) && Enabled(e, ev)
    ensures Balanced(Step(e, ev).tabs, Step(e, ev).threads, key) <==> !Breaks(e, ev, key)
  {
    var e1 := Step(e, ev);
    if Breaks(e, ev, key) {
      Broken(e, ev.k, ev.c, key);
    } else {
      ShapeStep(e, ev);
      forall f | 0 <= f < |e1.tabs.flies| && EntryKey(e1.tabs, f) == key ensures Tokens(e1.tabs, e1.threads, f) == 1 {
        if f < |e.tabs.flies| { assert EntryKey(e.tabs, f) == key; }
        if ev.Calling? { TokensCall(e, ev.k, ev.c, f); } else { NothingStored(e, ev); TokensElse(e, ev, f); }
      }
    }
  }

  /** With unique tokens no channel closes twice, and it is open exactly while its entry is
      in its table or the one goroutine that deleted it is about to close it. */
  lemma ClosedOnce(t: Tables, threads: seq<Thread>, f: nat)
    requires f < |t.flies| && Balanced(t, threads, EntryKey(t, f))
    ensures Closed(t, f) <= 1
    ensures Closed(t, f) == 0 <==> InTable(t, f) || Taken(t, f) || OwnerClosing(t, threads, f)
  {
    assert Tokens(t, threads, f) == 1;
  }

  // ---- when deleting by id is safe ----

  /** A retrying call still in its loop: its timeout may yet delete by id. */
  predicate Looping(thread: Thread) {
    && CallOf(thread).Some? && CallOf(thread).value.op != RequestOnce
    && (CallOf(thread).value.wait.Owning? || CallOf(thread).value.wait.TimingOut?)
  }

  ghost predicate AgreesAt(t: Tables, thread: Thread) {
    Looping(thread) ==>
      var c := CallOf(thread).value;
      c.pkt.id in Table(t, c.op) ==> Table(t, c.op)[c.pkt.id] == c.wait.entry
  }

  /** Whatever a looping call under the key would delete is its own entry. */
  ghost predicate Agree(t: Tables, threads: seq<Thread>, key: Key) {
    forall k :: 0 <= k < |threads| && Under(threads[k], key) ==> AgreesAt(t, threads[k])
  }

  /** A new entry is stored only when no earlier call under the same key is still looping. */
  ghost predicate OrderlyStore(e: Endpoint, k: nat)
    requires InCall(e, k)
  {
    var c := CallAt(e, k);
    c.pkt.id in Table(e.tabs, c.op) ||
    forall j :: 0 <= j < |e.threads| && Looping(e.threads[j]) ==> !Under(e.threads[j], CallKey(c))
  }

  ghost predicate Orderly(e: Endpoint, ev: Event, key: Key)
    requires Enabled(e, ev)
  {
    (ev.Calling? && ev.c == LoadOrStore && Under(e.threads[ev.k], key)) ==> OrderlyStore(e, ev.k)
  }

  lemma AgreeTables(t: Tables, threads: seq<Thread>, k: nat, disposed: bool, c: CallEvent, j: nat)
    requires Shape(t, threads) && k < |threads| && CallOf(threads[k]).Some?
    requires CanMove(t, CallOf(threads[k]).value, disposed, c)
    requires j < |threads| && j != k && AgreesAt(t, threads[j])
    requires var own := CallOf(threads[k]).value;
             (c == LoadOrStore && Looping(threads[j]) && own.pkt.id !in Table(t, own.op)) ==>
               !Under(threads[j], CallKey(own))
    ensures AgreesAt(Move(t, k, CallOf(threads[k]).value, disposed, c).tabs, threads[j])
  {
    assert CallOk(t, j, threads[j]);
    match c
    case LoadOrStore =>
    case LoadAndDelete =>
    case _ =>
  }

  lemma AgreeOwn(t: Tables, threads: seq<Thread>, k: nat, disposed: bool, c: CallEvent)
    requires Shape(t, threads) && k < |threads| && CallOf(threads[k]).Some? && AgreesAt(t, threads[k])
    requires CanMove(t, CallOf(threads[k]).value, disposed, c)
    ensures var m := Move(t, k, CallOf(threads[k]).value, disposed, c);
            AgreesAt(m.tabs, WithWait(threads[k], m.wait))
  {
    assert CallOk(t, k, threads[k]);
    match c
    case LoadOrStore =>
    case Expire =>
    case _ =>
  }

  lemma AgreeCall(e: Endpoint, k: nat, c: CallEvent, key: Key)
    requires Shape(e.tabs, e.threads) && Agree(e.tabs, e.threads, key) && CanCall(e, k, c)
    requires Orderly(e, Calling(k, c), key)
    ensures Agree(CallStep(e, k, c).tabs, CallStep(e, k, c).threads, key)
  {
    var e1 := CallStep(e, k, c);
    forall j | 0 <= j < |e1.threads| && Under(e1.threads[j], key) ensures AgreesAt(e1.tabs, e1.threads[j]) {
      assert Under(e.threads[j], key);
      if j == k {
        AgreeOwn(e.tabs, e.threads, k, e.disposed, c);
      } else {
        AgreeTables(e.tabs, e.threads, k, e.disposed, c, j);
      }
    }
  }

  lemma Disagree(e: Endpoint, k: nat)
    requires Shape(e.tabs, e.threads) && CanCall(e, k, LoadOrStore) && !OrderlyStore(e, k)
    ensures !Agree(CallStep(e, k, LoadOrStore).tabs, CallStep(e, k, LoadOrStore).threads, CallKey(CallAt(e, k)))
  {
    var key := CallKey(CallAt(e, k));
    var j :| 0 <= j < |e.threads| && Looping(e.threads[j]) && Under(e.threads[j], key);
    assert CallOk(e.tabs, j, e.threads[j]);
    var e1 := CallStep(e, k, LoadOrStore);
    assert e1.threads[j] == e.threads[j];
    assert !AgreesAt(e1.tabs, e1.threads[j]);
  }

  lemma AgreeDeliver(e: Endpoint, key: Key)
    requires Shape(e.tabs, e.threads) && Agree(e.tabs, e.threads, key) && CanNet(e, Deliver)
    ensures Agree(Dispatch(e).tabs, Dispatch(e).threads, key)
  {
    var e1 := Dispatch(e);
    forall j | 0 <= j < |e1.threads| && Under(e1.threads[j], key) ensures AgreesAt(e1.tabs, e1.threads[j]) {
      if j < |e.threads| { assert AgreesAt(e.tabs, e.threads[j]) && CallOk(e.tabs, j, e.threads[j]); }
    }
  }

  lemma AgreeSame(t: Tables, threads: seq<Thread>, u: Tables, after: seq<Thread>, key: Key)
    requires Agree(t, threads, key) && u.resp == t.resp && u.ack == t.ack && |threads| <= |after|
    requires forall j :: 0 <= j < |after| ==> (j < |threads| && after[j] == threads[j]) || !Looping(after[j])
    ensures Agree(u, after, key)
  {
    forall j | 0 <= j < |after| && Under(after[j], key) ensures AgreesAt(u, after[j]) {
      if Looping(after[j]) { assert AgreesAt(t, threads[j]); }
    }
  }

  /** Under each key, looping calls keep agreeing with the tables exactly when every store under it
      is orderly. */
  lemma AgreeStep(e: Endpoint, ev: Event, key: Key)
    requires Shape(e.tabs, e.threads) && Agree(e.tabs, e.threads, key) && Enabled(e, ev)
    ensures Agree(Step(e, ev).tabs, Step(e, ev).threads, key) <==> Orderly(e, ev, key)
  {
    match ev
    case Net(n) =>
      if n == Deliver { AgreeDeliver(e, key); } else {
        NetFrame(e, n);
        AgreeSame(e.tabs, e.threads, NetStep(e, n).tabs, e.threads, key);
      }
    case Calling(k, c) =>
      if Orderly(e, ev, key) { AgreeCall(e, k, c, key); } else { Disagree(e, k); }
    case Working(k, w) => AgreeWork(e, k, w, key);
    case Control(t) =>
      ControlFrame(e, t);
      AgreeSame(e.tabs, e.threads, e.tabs, ControlStep(e, t).threads, key);
  }

  lemma AgreeWork(e: Endpoint, k: nat, w: WorkEvent, key: Key)
    requires Agree(e.tabs, e.threads, key) && CanWork(e, k, w)
    ensures Agree(WorkStep(e, k, w).tabs, WorkStep(e, k, w).threads, key)
  {
    WorkFrame(e, k, w);
    AgreeSame(e.tabs, e.threads, e.tabs, WorkStep(e, k, w).threads, key);
  }

  /** While looping calls agree with the tables, only a timed-out `Request` breaks a token. */
  lemma AgreeBreaks(e: Endpoint, ev: Event, key: Key)
    requires Shape(e.tabs, e.threads) && Agree(e.tabs, e.threads, key) && Enabled(e, ev)
    ensures Breaks(e, ev, key) <==>
              ev.Calling? && Under(e.threads[ev.k], key) && ev.c == Expire && CallAt(e, ev.k).op == RequestOnce
  {
    if ev.Calling? && Under(e.threads[ev.k], key) {
      assert AgreesAt(e.tabs, e.threads[ev.k]) && CallOk(e.tabs, ev.k, e.threads[ev.k]);
    }
  }
}
