/**
 The client object of client.go, its in-flight entries and its goroutines, updated in place.
 Each method is one stretch of source that no other goroutine can interleave with, and does
 to the object exactly what the transition function of Endpoint does to its value.
 */
module Client {
  import opened Basics
  import opened E = Endpoint

  /** An in-flight entry. Tables, goroutines and the dispatcher share the object. */
  class FlyPacket {
    const index: nat   // how many entries were made before it
    const owner: nat
    const op: Op
    const id: Id
    var resultBack: nat   // how often each of its channels has been closed
    var ackBack: nat
    var result: string
    var err: string

    constructor (index: nat, owner: nat, op: Op, id: Id)
      ensures this.index == index && Value() == Fly(owner, op, id, 0, 0, "", "")
    {
      this.index, this.owner, this.op, this.id := index, owner, op, id;
      resultBack, ackBack, result, err := 0, 0, "", "";
    }

    function Value(): Fly
      reads this
    {
      Fly(owner, op, id, resultBack, ackBack, result, err)
    }

    method CloseResult()
      modifies this`resultBack
      ensures resultBack == old(resultBack) + 1
    {
      resultBack := resultBack + 1;
    }

    method CloseAck()
      modifies this`ackBack
      ensures ackBack == old(ackBack) + 1
    {
      ackBack := ackBack + 1;
    }
  }

  /** A channel of an entry. */
  datatype FlyChannel = ResultOf(fly: FlyPacket) | AckOf(fly: FlyPacket)

  ghost function ChannelOf(h: FlyChannel): Channel {
    if h.ResultOf? then ResultBack(h.fly.index) else AckBack(h.fly.index)
  }

  ghost function Values(flies: seq<FlyPacket>): (fs: seq<Fly>)
    reads flies
    ensures |fs| == |flies| && forall i :: 0 <= i < |flies| ==> fs[i] == flies[i].Value()
  {
    seq(|flies|, i requires 0 <= i < |flies| reads flies => flies[i].Value())
  }

  ghost function Indices(table: map<Id, FlyPacket>): map<Id, nat> {
    map id | id in table :: table[id].index
  }

  lemma IndicesRemove(table: map<Id, FlyPacket>, id: Id)
    ensures Indices(Remove(table, id)) == Remove(Indices(table), id)
  {
  }

  lemma IndicesAdd(table: map<Id, FlyPacket>, id: Id, f: FlyPacket)
    ensures Indices(table[id := f]) == Indices(table)[id := f.index]
  {
  }

  /** Dispatching in two steps: the packet leaves the queue, and its handler runs. */
  ghost function Popped(e: Endpoint): Endpoint
    requires e.rxQueue != []
  {
    e.(rxQueue := e.rxQueue[1..], log := e.log + [Dispatched(e.rxQueue[0])])
  }

  ghost function Handled(e: Endpoint, pkt: Packet): Endpoint
    requires InRange(e.tabs)
  {
    var starts := StartsWorker(e.handlingReq, pkt);
    e.(sent := e.sent + (if Acknowledged(pkt) then {Packet.Ack(pkt.id)} else {}),
       tabs := TakeAnswer(e.tabs, pkt),
       handlingReq := e.handlingReq + (if starts then {pkt.id} else {}),
       threads := e.threads + (if starts then [Worker(pkt, Executing)] else []),
       log := e.log + (if starts then [Started(pkt.id)] else []))
  }

  lemma DispatchForm(e: Endpoint)
    requires CanNet(e, Deliver)
    ensures NetStep(e, Deliver) == Handled(Popped(e), e.rxQueue[0])
  {
    var log := Popped(e).log;
    assert log + [] == log && e.sent + {} == e.sent && e.handlingReq + {} == e.handlingReq;
    assert e.threads + [] == e.threads;
  }

  class Client {
    const side: Side
    const crypto: bool
    const needLogin: bool
    var link: Link
    var state: ConnState
    var disposed: bool
    var reading: Option<Packet>
    var rxQueue: seq<Packet>
    var handlingReq: set<Id>
    var pendingResp: map<Id, FlyPacket>
    var pendingAck: map<Id, FlyPacket>
    var flies: seq<FlyPacket>
    var closing: Option<FlyChannel>    // of an entry taken out of its table by the dispatcher
    var threads: seq<Thread>
    ghost var sent: set<Packet>
    ghost var log: seq<Mark>

    /** Entries are numbered in order, and whatever refers to one refers to a numbered one. */
    ghost predicate Valid()
      reads this`flies, this`pendingResp, this`pendingAck, this`closing
    {
      && (forall i :: 0 <= i < |flies| ==> flies[i].index == i)
      && (forall id :: id in pendingResp ==> Known(pendingResp[id]))
      && (forall id :: id in pendingAck ==> Known(pendingAck[id]))
      && (closing.Some? ==> Known(closing.value.fly))
    }

    ghost predicate Known(f: FlyPacket)
      reads this`flies
    {
      f.index < |flies| && flies[f.index] == f
    }

    ghost function Tabs(): Tables
      reads this`pendingResp, this`pendingAck, this`flies, this`closing, flies
    {
      Tables(Indices(pendingResp), Indices(pendingAck), Values(flies),
             if closing.None? then None else Some(ChannelOf(closing.value)))
    }

    ghost function State(): Endpoint
      reads this, flies
    {
      Endpoint(side, crypto, needLogin, link, state, disposed, reading, rxQueue, handlingReq,
               Tabs(), threads, sent, log)
    }

    constructor (side: Side, crypto: bool, needLogin: bool)
      ensures Valid() && State() == Init(side, crypto, needLogin)
    {
      this.side, this.crypto, this.needLogin := side, crypto, needLogin;
      link, state, disposed, reading, rxQueue, handlingReq := Fresh, Disconnected, false, None, [], {};
      pendingResp, pendingAck, flies, closing, threads := map[], map[], [], None, [];
      sent, log := {}, [];
      new;
      assert Tabs() == Tables(map[], map[], [], None);
    }

    // ---- sending and changing state ----

    method SendPacket(pkt: Packet)
      modifies this`sent
      ensures sent == old(sent) + {pkt}
    {
      sent := sent + {pkt};
    }

    method ChangeState(to: ConnState, ghost cause: Cause)
      modifies this`state, this`log
      ensures var e1 := E.ChangeState(old(State()), to, cause); state == e1.state && log == e1.log
    {
      var target := to;
      match to {
        case Connected =>
          if !crypto {
            target := ExchangedSecret;
            if !needLogin { target := Logined; }
          }
        case ExchangedSecret =>
          if !needLogin { target := Logined; }
        case _ =>
      }
      var before := state;
      state := target;
      log := log + [Entered(target, cause)];
      if before != target && target == Logined { log := log + [LoginFired]; }
    }

    // ---- receiving ----

    method ReceiveMessage(pkt: Packet)
      requires CanNet(State(), Receive(pkt))
      modifies this`reading
      ensures State() == NetStep(old(State()), Receive(pkt))
      ensures reading == Some(pkt) <==>
                || state == Logined || state == Disconnected || pkt.Ack? || pkt.Response?
                || (pkt.Request? && (pkt.meth == ExchangeSecret || (pkt.meth == Login && state == ExchangedSecret)))
    {
      match state {
        case Connected =>
          match pkt {
            case Request(_, meth, _) => if meth != ExchangeSecret { return; }
            case Ack(_) =>
            case Response(_, _, _) =>
            case Notice(_, _) => return;
          }
        case ExchangedSecret =>
          match pkt {
            case Request(_, meth, _) => if meth != ExchangeSecret && meth != Login { return; }
            case Ack(_) =>
            case Response(_, _, _) =>
            case Notice(_, _) => return;
          }
        case _ =>
      }
      reading := Some(pkt);
    }

    method Enqueue()
      requires CanNet(State(), NetEvent.Enqueue)
      modifies this`reading, this`rxQueue
      ensures State() == NetStep(old(State()), NetEvent.Enqueue)
    {
      rxQueue := rxQueue + [reading.value];
      reading := None;
    }

    // ---- dispatching ----

    method OnReceiveRequest(pkt: Packet)
      requires pkt.Request?
      modifies this`sent, this`handlingReq, this`threads, this`log
      ensures sent == old(sent) + (if Acknowledged(pkt) then {Packet.Ack(pkt.id)} else {})
      ensures var starts := StartsWorker(old(handlingReq), pkt);
              && handlingReq == old(handlingReq) + (if starts then {pkt.id} else {})
              && threads == old(threads) + (if starts then [Worker(pkt, Executing)] else [])
              && log == old(log) + (if starts then [Started(pkt.id)] else [])
    {
      if pkt.id != NoId {
        SendPacket(Packet.Ack(pkt.id));
        if pkt.id !in handlingReq {
          handlingReq := handlingReq + {pkt.id};
          threads := threads + [Worker(pkt, Executing)];
          log := log + [Started(pkt.id)];
        }
      }
    }

    /** The response's error or result becomes the entry's. */
    method Fill(f: FlyPacket, pkt: Packet)
      requires Valid() && Known(f) && pkt.Response?
      modifies f`err, f`result
      ensures Values(flies) == old(Values(flies))[f.index :=
                if pkt.error != "" then old(f.Value()).(err := pkt.error) else old(f.Value()).(result := pkt.result)]
    {
      ghost var before := Values(flies);
      if pkt.error != "" { f.err := pkt.error; } else { f.result := pkt.result; }
      Updated(before, f.index);
    }

    method TakeEntry(pkt: Packet)
      requires Valid() && pkt.Response? && pkt.id in pendingResp
      modifies this`pendingResp, this`closing, flies
      ensures Valid() && closing == Some(ResultOf(old(pendingResp)[pkt.id]))
          && pendingResp == Remove(old(pendingResp), pkt.id)
      ensures var before := old(Values(flies));
              var fly := before[closing.value.fly.index];
              Values(flies) == before[closing.value.fly.index :=
                  if pkt.error != "" then fly.(err := pkt.error) else fly.(result := pkt.result)]
    {
      var f := pendingResp[pkt.id];
      Fill(f, pkt);
      pendingResp := Remove(pendingResp, pkt.id);
      closing := Some(ResultOf(f));
    }

    method OnReceiveResponse(pkt: Packet)
      requires Valid() && pkt.Response? && closing == None
      modifies this`sent, this`pendingResp, this`closing, flies
      ensures Valid() && sent == old(sent) + (if Acknowledged(pkt) then {Packet.Ack(pkt.id)} else {})
      ensures if pkt.id in old(pendingResp)
              then && pendingResp == Remove(old(pendingResp), pkt.id)
                   && closing == Some(ResultOf(old(pendingResp)[pkt.id]))
                   && Values(flies) == old(Values(flies))[closing.value.fly.index :=
                        if pkt.error != "" then old(Values(flies))[closing.value.fly.index].(err := pkt.error)
                        else old(Values(flies))[closing.value.fly.index].(result := pkt.result)]
              else pendingResp == old(pendingResp) && closing == None && Values(flies) == old(Values(flies))
    {
      if pkt.id != NoId { SendPacket(Packet.Ack(pkt.id)); }
      if pkt.id in pendingResp {
        TakeEntry(pkt);
      }
    }

    method OnReceiveAck(id: Id)
      requires Valid() && closing == None
      modifies this`pendingAck, this`closing
      ensures Valid()
      ensures if id in old(pendingAck)
              then pendingAck == Remove(old(pendingAck), id) && closing == Some(AckOf(old(pendingAck)[id]))
              else pendingAck == old(pendingAck) && closing == None
    {
      if id in pendingAck {
        closing := Some(AckOf(pendingAck[id]));
        pendingAck := Remove(pendingAck, id);
      }
    }

    /** Only the entry at `f` may have changed. */
    lemma Updated(before: seq<Fly>, f: nat)
      requires Valid() && |before| == |flies| && f < |flies|
      requires forall i :: 0 <= i < |flies| && i != f ==> flies[i].Value() == before[i]
      ensures Values(flies) == before[f := flies[f].Value()]
    {
    }

    /** The tables after one packet has been handled. */
    method Answer(pkt: Packet)
      requires Valid() && (pkt.Response? || pkt.Ack?) && closing == None && InRange(Tabs())
      modifies this`sent, this`pendingResp, this`pendingAck, this`closing, flies
      ensures Valid() && Tabs() == TakeAnswer(old(Tabs()), pkt)
      ensures sent == old(sent) + (if Acknowledged(pkt) then {Packet.Ack(pkt.id)} else {})
    {
      IndicesRemove(pendingResp, pkt.id);
      IndicesRemove(pendingAck, pkt.id);
      if pkt.Response? {
        OnReceiveResponse(pkt);
      } else {
        OnReceiveAck(pkt.id);
      }
    }

    method Pop() returns (pkt: Packet)
      requires rxQueue != []
      modifies this`rxQueue, this`log
      ensures pkt == old(rxQueue)[0] && State() == Popped(old(State()))
    {
      pkt := rxQueue[0];
      rxQueue := rxQueue[1..];
      log := log + [Dispatched(pkt)];
    }

    method HandleRequest(pkt: Packet)
      requires Valid() && pkt.Request? && InRange(Tabs())
      modifies this`sent, this`handlingReq, this`threads, this`log
      ensures State() == Handled(old(State()), pkt)
    {
      OnReceiveRequest(pkt);
    }

    method HandleAnswer(pkt: Packet)
      requires Valid() && (pkt.Response? || pkt.Ack?) && closing == None && InRange(Tabs())
      modifies this`sent, this`pendingResp, this`pendingAck, this`closing, flies
      ensures Valid() && State() == Handled(old(State()), pkt)
    {
      Answer(pkt);
    }

    method HandleNotice(pkt: Packet)
      requires Valid() && pkt.Notice? && InRange(Tabs())
      modifies this`sent
      ensures State() == Handled(old(State()), pkt)
    {
      if pkt.id != NoId { SendPacket(Packet.Ack(pkt.id)); }
    }

    method Handle(pkt: Packet)
      requires Valid() && closing == None && InRange(Tabs())
      modifies this`sent, this`pendingResp, this`pendingAck, this`closing
      modifies this`handlingReq, this`threads, this`log, flies
      ensures Valid() && State() == Handled(old(State()), pkt)
    {
      match pkt
      case Request(_, _, _) => HandleRequest(pkt);
      case Response(_, _, _) => HandleAnswer(pkt);
      case Ack(_) => HandleAnswer(pkt);
      case Notice(_, _) => HandleNotice(pkt);
    }

    /** The oldest queued packet goes to its handler. */
    method Dispatch()
      requires Valid() && CanNet(State(), Deliver)
      modifies this`rxQueue, this`sent, this`pendingResp, this`pendingAck, this`closing
      modifies this`handlingReq, this`threads, this`log, flies
      ensures Valid() && State() == NetStep(old(State()), Deliver)
    {
      DispatchForm(State());
      var pkt := Pop();
      Handle(pkt);
    }

    method CloseOf(h: FlyChannel)
      requires Valid() && Known(h.fly)
      modifies h.fly`resultBack, h.fly`ackBack
      ensures Valid() && Tabs() == E.Close(old(Tabs()), ChannelOf(h))
    {
      ghost var before := Values(flies);
      match h
      case ResultOf(f) =>
        f.CloseResult();
        Updated(before, f.index);
      case AckOf(f) =>
        f.CloseAck();
        Updated(before, f.index);
    }

    /** The dispatcher closes the channel of the entry it took. */
    method CloseEntry()
      requires Valid() && CanNet(State(), NetEvent.CloseEntry)
      modifies this`closing, flies
      ensures Valid() && State() == NetStep(old(State()), NetEvent.CloseEntry)
    {
      ghost var e1 := NetStep(State(), NetEvent.CloseEntry);
      CloseOf(closing.value);
      closing := None;
      assert Tabs() == e1.tabs;
    }

    // ---- inside the three waiting functions ----

    ghost predicate Waiting(k: nat, call: Call)
      reads this`threads
    {
      k < |threads| && CallOf(threads[k]) == Some(call)
    }

    /** Of what calls work on, only the tables and the wait of call `k` have changed since. */
    ghost predicate Moves(before: seq<Thread>, k: nat, m: Moved)
      requires k < |before| && CallOf(before[k]).Some?
      reads this`threads, this`pendingResp, this`pendingAck, this`flies, this`closing, flies
    {
      Valid() && Tabs() == m.tabs && threads == before[k := WithWait(before[k], m.wait)]
    }

    method SetWait(k: nat, w: Wait)
      requires k < |threads| && CallOf(threads[k]).Some?
      modifies this`threads
      ensures threads == old(threads)[k := WithWait(old(threads)[k], w)]
    {
      threads := threads[k := WithWait(threads[k], w)];
    }

    method LookUp(k: nat, call: Call)
      requires Valid() && Waiting(k, call)
      modifies this`threads
      ensures Moves(old(threads), k, MoveLookUp(old(Tabs()), call))
    {
      var table := if call.op == SendWithRetry then pendingAck else pendingResp;
      if call.pkt.id in table {
        SetWait(k, Watching(table[call.pkt.id].index, call.op != SendWithRetry));
      } else {
        SetWait(k, Storing);
      }
    }

    method NewEntry(k: nat, call: Call) returns (f: FlyPacket)
      requires Valid()
      modifies this`flies
      ensures Valid() && Known(f) && f.index == |old(flies)|
      ensures fresh(f) && flies == old(flies) + [f]
      ensures Values(flies) == old(Values(flies)) + [Fly(k, call.op, call.pkt.id, 0, 0, "", "")]
    {
      f := new FlyPacket(|flies|, k, call.op, call.pkt.id);
      flies := flies + [f];
    }

    method Store(k: nat, call: Call)
      requires Valid() && call.pkt.id !in (if call.op == SendWithRetry then pendingAck else pendingResp)
      modifies this`flies, this`pendingResp, this`pendingAck
      ensures Valid() && |flies| == |old(flies)| + 1 && Tabs() == MoveStore(old(Tabs()), k, call).tabs
      ensures forall f :: f in flies ==> f in old(flies) || fresh(f)
    {
      var f := NewEntry(k, call);
      Enter(call.op, call.pkt.id, f);
    }

    method Enter(op: Op, id: Id, f: FlyPacket)
      requires Valid() && Known(f)
      modifies this`pendingResp, this`pendingAck
      ensures Valid() && Tabs() == SetTable(old(Tabs()), op, Table(old(Tabs()), op)[id := f.index])
    {
      if op == SendWithRetry {
        IndicesAdd(pendingAck, id, f);
        pendingAck := pendingAck[id := f];
      } else {
        IndicesAdd(pendingResp, id, f);
        pendingResp := pendingResp[id := f];
      }
    }

    method StoreNew(k: nat, call: Call)
      requires Valid() && Waiting(k, call)
      requires call.pkt.id !in (if call.op == SendWithRetry then pendingAck else pendingResp)
      modifies this`threads, this`flies, this`pendingResp, this`pendingAck
      ensures Moves(old(threads), k, MoveStore(old(Tabs()), k, call))
      ensures forall f :: f in flies ==> f in old(flies) || fresh(f)
    {
      Store(k, call);
      SetWait(k, Owning(|flies| - 1, false));
    }

    /** LoadOrStore, and the first transmission by the call that stored. */
    method LoadOrStore(k: nat, call: Call)
      requires Valid() && Waiting(k, call)
      modifies this`threads, this`flies, this`pendingResp, this`pendingAck, this`sent
      ensures Moves(old(threads), k, MoveStore(old(Tabs()), k, call))
      ensures sent == old(sent) + (if MoveStore(old(Tabs()), k, call).wait.Owning? then {call.pkt} else {})
      ensures forall f :: f in flies ==> f in old(flies) || fresh(f)
    {
      var table := if call.op == SendWithRetry then pendingAck else pendingResp;
      if call.pkt.id in table {
        SetWait(k, Watching(table[call.pkt.id].index, true));
      } else {
        StoreNew(k, call);
        SendPacket(call.pkt);
      }
    }

    /** The channel was closed: the call returns what the entry holds. */
    method Wake(k: nat, f: FlyPacket)
      requires Valid() && Known(f) && k < |threads| && CallOf(threads[k]).Some?
      modifies this`threads
      ensures Moves(old(threads), k, Moved(old(Tabs()), Returned(f.index, f.result, f.err)))
    {
      SetWait(k, Returned(f.index, f.result, f.err));
    }

    method Fail(f: FlyPacket)
      requires Valid() && Known(f)
      modifies f`err
      ensures Tabs() == old(Tabs()).(flies := old(Tabs()).flies[f.index := old(f.Value()).(err := TIMEOUT)])
    {
      ghost var before := Values(flies);
      f.err := TIMEOUT;
      Updated(before, f.index);
    }

    method FailAndClose(f: FlyPacket)
      requires Valid() && Known(f)
      modifies f`err, f`resultBack, f`ackBack
      ensures Valid()
      ensures var t := old(Tabs()).(flies := old(Tabs()).flies[f.index := old(f.Value()).(err := TIMEOUT)]);
              Tabs() == E.Close(t, ResultBack(f.index))
    {
      Fail(f);
      CloseOf(ResultOf(f));
    }

    /** The timeout branch: `Request` closes the channel of its entry and leaves the table as it is,
        the retrying calls go on to their LoadAndDelete. */
    method Expire(k: nat, call: Call, f: FlyPacket)
      requires Valid() && Known(f) && Waiting(k, call) && call.wait.Owning? && call.wait.entry == f.index
      modifies this`threads, flies
      ensures Moves(old(threads), k, MoveExpire(old(Tabs()), call))
    {
      if call.op == RequestOnce {
        FailAndClose(f);
        SetWait(k, Returned(f.index, "", TIMEOUT));
      } else {
        Fail(f);
        SetWait(k, TimingOut(f.index));
      }
    }

    method Delete(op: Op, id: Id)
      requires Valid()
      modifies this`pendingResp, this`pendingAck
      ensures Valid() && Tabs() == SetTable(old(Tabs()), op, Remove(Table(old(Tabs()), op), id))
    {
      if op == SendWithRetry {
        IndicesRemove(pendingAck, id);
        pendingAck := Remove(pendingAck, id);
      } else {
        IndicesRemove(pendingResp, id);
        pendingResp := Remove(pendingResp, id);
      }
    }

    method LoadAndDelete(k: nat, call: Call, f: FlyPacket)
      requires Valid() && Known(f) && Waiting(k, call) && call.wait == TimingOut(f.index)
      modifies this`threads, this`pendingResp, this`pendingAck
      ensures Moves(old(threads), k, MoveDelete(old(Tabs()), call))
    {
      if call.pkt.id in (if call.op == SendWithRetry then pendingAck else pendingResp) {
        Delete(call.op, call.pkt.id);
        SetWait(k, Wait.Closing(f.index));
      } else {
        SetWait(k, Returned(f.index, "", f.err));
      }
    }

    /** The call closes the channel that it and those who share its entry wait on. */
    method CloseChannel(k: nat, call: Call, f: FlyPacket)
      requires Valid() && Known(f) && Waiting(k, call)
      modifies this`threads, f`resultBack, f`ackBack
      ensures Moves(old(threads), k,
              Moved(E.Close(old(Tabs()), Awaited(call.op, f.index)), Returned(f.index, "", f.err)))
    {
      CloseOf(if call.op == SendWithRetry then AckOf(f) else ResultOf(f));
      SetWait(k, Returned(f.index, "", f.err));
    }

    /** The entry's `ackBack` is closed: the request loop stops resending. */
    method NoteAck(k: nat, call: Call)
      requires Valid() && Waiting(k, call) && call.wait.Owning?
      modifies this`threads
      ensures Moves(old(threads), k, Moved(old(Tabs()), Owning(call.wait.entry, true)))
    {
      SetWait(k, Owning(call.wait.entry, true));
    }

    /** One step of a waiting call. */
    method Act(k: nat, call: Call, c: CallEvent)
      requires Valid() && Waiting(k, call) && CanMove(Tabs(), call, disposed, c)
      modifies this`threads, this`flies, this`pendingResp, this`pendingAck, this`sent, flies
      ensures Moves(old(threads), k, Move(old(Tabs()), k, call, disposed, c))
      ensures sent == old(sent) +
                (if c == CallEvent.Resend
                    || (c == CallEvent.LoadOrStore && Move(old(Tabs()), k, call, disposed, c).wait.Owning?)
                 then {call.pkt} else {})
      ensures forall f :: f in flies ==> f in old(flies) || fresh(f)
    {
      match c
      case LookUp => LookUp(k, call);
      case LoadOrStore => LoadOrStore(k, call);
      case NoteAck => NoteAck(k, call);
      case Resend => SendPacket(call.pkt); SetWait(k, call.wait);
      case Wake => Wake(k, flies[call.wait.entry]);
      case Cancel => SetWait(k, Cancelled);
      case Expire => Expire(k, call, flies[call.wait.entry]);
      case LoadAndDelete => LoadAndDelete(k, call, flies[call.wait.entry]);
      case CloseChannel => CloseChannel(k, call, flies[call.wait.entry]);
    }

    method Advance(k: nat, c: CallEvent)
      requires Valid() && CanCall(State(), k, c)
      modifies this`threads, this`flies, this`pendingResp, this`pendingAck, this`sent, flies
      ensures Valid() && State() == CallStep(old(State()), k, c)
      ensures forall f :: f in flies ==> f in old(flies) || fresh(f)
      ensures c == CallEvent.Wake ==>
                var f := old(flies)[old(CallOf(threads[k])).value.wait.entry];
                CallOf(threads[k]).value.wait == Returned(f.index, old(f.result), old(f.err))
    {
      ghost var e1 := CallStep(State(), k, c);
      Act(k, CallOf(threads[k]).value, c);
      assert Tabs() == e1.tabs && threads == e1.threads;
      assert sent == e1.sent;
    }

    // ---- request workers ----

    /** The handler has returned `result` and `error`; its response is to be sent. */
    method Execute(k: nat, result: string, error: string)
      requires CanWork(State(), k, Run(result, error))
      modifies this`threads, this`log
      ensures State() == WorkStep(old(State()), k, Run(result, error))
    {
      var req := threads[k].req;
      var resp := Response(req.id, "", "");
      if error != "" { resp := resp.(error := error); } else { resp := resp.(result := result); }
      threads := threads[k := Worker(req, Replying(Call(SendWithRetry, resp, Looking)))];
      log := log + [Ran(req, resp)];
    }

    /** SendPacketWithRetry has returned; cancelled, it reports no error. */
    method Conclude(k: nat)
      requires CanWork(State(), k, WorkEvent.Conclude)
      modifies this`threads
      ensures State() == WorkStep(old(State()), k, WorkEvent.Conclude)
    {
      var call := threads[k].stage.call;
      var err := "";
      if call.wait.Returned? { err := call.wait.err; }
      threads := threads[k := Worker(threads[k].req, Deciding(call.pkt, err))];
    }

    method Settle(k: nat)
      requires CanWork(State(), k, WorkEvent.Settle)
      modifies this`threads, this`state, this`log
      ensures State() == WorkStep(old(State()), k, WorkEvent.Settle)
    {
      var req, stage := threads[k].req, threads[k].stage;
      threads := threads[k := Worker(req, Leaving)];
      if stage.resp.error == "" && stage.err == "" {
        match req.meth
        case ExchangeSecret => ChangeState(ExchangedSecret, ByWorker(req, disposed));
        case Login => ChangeState(Logined, ByWorker(req, disposed));
        case OtherMethod(_) =>
      }
    }

    /** The deferred deletion. */
    method Finish(k: nat)
      requires CanWork(State(), k, WorkEvent.Finish)
      modifies this`threads, this`handlingReq, this`log
      ensures State() == WorkStep(old(State()), k, WorkEvent.Finish)
    {
      var req := threads[k].req;
      handlingReq := handlingReq - {req.id};
      threads := threads[k := Worker(req, Ended)];
      log := log + [Ending(req.id)];
    }

    // ---- calls from outside ----

    method Begin(op: Op, pkt: Packet)
      requires CanControl(State(), ControlEvent.Begin(op, pkt))
      modifies this`threads
      ensures State() == ControlStep(old(State()), ControlEvent.Begin(op, pkt))
    {
      threads := threads + [User(Call(op, pkt, Looking))];
    }

    /** Login() after its exchange or login request has returned without error. */
    method Promote(k: nat)
      requires CanControl(State(), ControlEvent.Promote(k))
      modifies this`state, this`log
      ensures State() == ControlStep(old(State()), ControlEvent.Promote(k))
    {
      ChangeState(if threads[k].call.pkt.meth == Login then Logined else ExchangedSecret, ByUser);
    }

    method Connect()
      requires CanControl(State(), ControlEvent.Connect)
      modifies this`state, this`link, this`log
      ensures State() == ControlStep(old(State()), ControlEvent.Connect)
    {
      ChangeState(Connected, ByUser);
      link := Up;
    }

    method Disconnect()
      requires CanControl(State(), ControlEvent.Disconnect)
      modifies this`state, this`link, this`log
      ensures State() == ControlStep(old(State()), ControlEvent.Disconnect)
    {
      ChangeState(Disconnected, ByUser);
      link := Down;
    }

    /** The context is cancelled at the first call. */
    method Dispose()
      modifies this`disposed
      ensures State() == ControlStep(old(State()), ControlEvent.Dispose)
    {
      if disposed { return; }
      disposed := true;
    }

    // ---- everything together ----

    method Net(n: NetEvent)
      requires Valid() && CanNet(State(), n)
      modifies this, flies
      ensures Valid() && State() == NetStep(old(State()), n) && flies == old(flies)
    {
      match n
      case Receive(pkt) => ReceiveMessage(pkt);
      case Enqueue => Enqueue();
      case Deliver => Dispatch();
      case CloseEntry => CloseEntry();
    }

    method Work(k: nat, w: WorkEvent)
      requires Valid() && CanWork(State(), k, w)
      modifies this`threads, this`state, this`handlingReq, this`log
      ensures Valid() && State() == WorkStep(old(State()), k, w)
    {
      match w
      case Run(result, error) => Execute(k, result, error);
      case Conclude => Conclude(k);
      case Settle => Settle(k);
      case Finish => Finish(k);
    }

    method Control(t: ControlEvent)
      requires Valid() && CanControl(State(), t)
      modifies this`threads, this`state, this`link, this`disposed, this`log
      ensures Valid() && State() == ControlStep(old(State()), t)
    {
      match t
      case Begin(op, pkt) => Begin(op, pkt);
      case Promote(k) => Promote(k);
      case Connect => Connect();
      case Disconnect => Disconnect();
      case Dispose => Dispose();
    }

    /** Whatever happens next, the object does what the transition function says. */
    method Perform(ev: Event)
      requires Valid() && Enabled(State(), ev)
      modifies this, flies
      ensures Valid() && State() == Step(old(State()), ev)
      ensures forall f :: f in flies ==> f in old(flies) || fresh(f)
    {
      match ev
      case Net(n) => Net(n);
      case Calling(k, c) => Advance(k, c);
      case Working(k, w) => Work(k, w);
      case Control(t) => Control(t);
    }
  }
}
