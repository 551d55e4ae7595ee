/**
 One side of a connection: the request, response and acknowledgement protocol of client.go
 together with its login state machine, as a deterministic transition function.

 Every `sync.Map` call, every channel close, every send and every state swap is one atomic
 step, so goroutines may interleave between any two of them. Goroutines and in-flight
 entries are numbered by creation; they are never forgotten.
 */
module Endpoint {
  import opened Basics

  datatype Side = Dialer | Hub

  /** Identifiers are minted fresh: a request id names the side that made it, and no
      other packet carries it except the acknowledgements and responses it causes. */
  datatype Id = NoId | ReqId(minter: Side, n: nat) | NoticeId(n: nat)

  datatype Method = ExchangeSecret | Login | OtherMethod(name: string)

  /** `Notice` stands for every other packet kind that may carry an id: publish,
      subscribe, broadcast and the stream packets. */
  datatype Packet =
    | Request(id: Id, meth: Method, params: string)
    | Ack(id: Id)
    | Response(id: Id, result: string, error: string)
    | Notice(id: Id, body: string)

  datatype ConnState = Disconnected | Connected | ExchangedSecret | Logined

  /** Whether the transport is attached yet, attached, or gone. */
  datatype Link = Fresh | Up | Down

  /** The three functions that wait on an in-flight entry. */
  datatype Op = SendWithRetry | RequestWithRetry | RequestOnce

  /** Where a goroutine is inside one of the three waiting functions. */
  datatype Wait =
    | Looking                                  // before the first Load
    | Storing                                  // before LoadOrStore
    | Watching(entry: nat, cancellable: bool)  // waits on an entry stored by another call
    | Owning(entry: nat, beAcked: bool)        // in the select loop of the call that stored it
    | TimingOut(entry: nat)                    // has written the timeout error, not yet deleted
    | Closing(entry: nat)                      // its LoadAndDelete found an entry, not yet closed
    | Returned(entry: nat, value: string, err: string)
    | Cancelled                                // returned because the context is done

  datatype Call = Call(op: Op, pkt: Packet, wait: Wait)

  /** A request worker: executing the handler, sending the response, changing state, leaving. */
  datatype Stage =
    | Executing
    | Replying(call: Call)
    | Deciding(resp: Packet, err: string)
    | Leaving
    | Ended

  datatype Thread =
    | Worker(req: Packet, stage: Stage)
    | User(call: Call)

  /** A flyPacket. `resultBack` and `ackBack` count the close calls on its two channels: a second
      close of one channel is a run-time panic. */
  datatype Fly = Fly(owner: nat, op: Op, id: Id, resultBack: nat, ackBack: nat, result: string, err: string)

  /** One channel of an entry. */
  datatype Channel = ResultBack(entry: nat) | AckBack(entry: nat)

  datatype Cause = ByWorker(req: Packet, cancelled: bool) | ByUser

  /** What an endpoint did, in order. */
  datatype Mark =
    | Dispatched(pkt: Packet)
    | Started(id: Id)
    | Ran(req: Packet, resp: Packet)
    | Ending(id: Id)
    | Entered(to: ConnState, cause: Cause)
    | LoginFired

  /** `pendingResp`, `pendingAck`, every entry ever stored in them, and the channel of a deleted
      entry that the dispatching goroutine will close next. */
  datatype Tables = Tables(resp: map<Id, nat>, ack: map<Id, nat>, flies: seq<Fly>, closing: Option<Channel>)

  datatype Endpoint = Endpoint(
    side: Side,
    crypto: bool,
    needLogin: bool,
    link: Link,
    state: ConnState,
    disposed: bool,
    reading: Option<Packet>,    // admitted by receiveMessage, not yet in rxQueue
    rxQueue: seq<Packet>,
    handlingReq: set<Id>,
    tabs: Tables,
    threads: seq<Thread>,
    sent: set<Packet>,
    log: seq<Mark>)

  const RX_QUEUE_LEN := 100
  const TIMEOUT := "timeout"

  function Init(side: Side, crypto: bool, needLogin: bool): Endpoint {
    Endpoint(side, crypto, needLogin, Fresh, Disconnected, false, None, [], {},
             Tables(map[], map[], [], None), [], {}, [])
  }

  // ---- login state machine ----

  /** The state `changeState(to)` really stores. */
  function Resolve(e: Endpoint, to: ConnState): ConnState {
    match to
    case Connected =>
      if e.crypto then Connected else if e.needLogin then ExchangedSecret else Logined
    case ExchangedSecret => if e.needLogin then ExchangedSecret else Logined
    case _ => to
  }

  function ChangeState(e: Endpoint, to: ConnState, cause: Cause): Endpoint {
    var new_ := Resolve(e, to);
    e.(state := new_,
       log := e.log + [Entered(new_, cause)] + (if e.state != new_ && new_ == Logined then [LoginFired] else []))
  }

  /** What receiveMessage lets through in each state. */
  predicate Gate(state: ConnState, pkt: Packet) {
    match state
    case Connected => ExchangePacket(pkt)
    case ExchangedSecret => HandshakePacket(pkt)
    case _ => true
  }

  predicate ExchangePacket(pkt: Packet) {
    pkt.Ack? || pkt.Response? || (pkt.Request? && pkt.meth == ExchangeSecret)
  }

  predicate HandshakePacket(pkt: Packet) {
    ExchangePacket(pkt) || (pkt.Request? && pkt.meth == Login)
  }

  // ---- dispatching received packets ----

  /** LoadAndDelete of the answered entry, which then takes the result or the error. */
  function TakeResponse(t: Tables, pkt: Packet): Tables
    requires pkt.Response? && InRange(t)
  {
    if pkt.id !in t.resp then t
    else
      var f := t.resp[pkt.id];
      var fly := if pkt.error != "" then t.flies[f].(err := pkt.error) else t.flies[f].(result := pkt.result);
      t.(resp := Remove(t.resp, pkt.id), flies := t.flies[f := fly], closing := Some(ResultBack(f)))
  }

  function TakeAck(t: Tables, id: Id): Tables {
    if id !in t.ack then t else t.(ack := Remove(t.ack, id), closing := Some(AckBack(t.ack[id])))
  }

  /** Every packet with an id, except an acknowledgement, is acknowledged. */
  predicate Acknowledged(pkt: Packet) {
    pkt.id != NoId && !pkt.Ack?
  }

  predicate StartsWorker(handlingReq: set<Id>, pkt: Packet) {
    pkt.Request? && pkt.id != NoId && pkt.id !in handlingReq
  }

  function TakeAnswer(t: Tables, pkt: Packet): Tables
    requires InRange(t)
  {
    if pkt.Response? then TakeResponse(t, pkt) else if pkt.Ack? then TakeAck(t, pkt.id) else t
  }

  /** The dispatching goroutine hands the oldest queued packet to its handler. */
  function Dispatch(e: Endpoint): Endpoint
    requires |e.rxQueue| > 0 && InRange(e.tabs)
  {
    var pkt := e.rxQueue[0];
    var starts := StartsWorker(e.handlingReq, pkt);
    e.(rxQueue := e.rxQueue[1..],
       sent := if Acknowledged(pkt) then e.sent + {Ack(pkt.id)} else e.sent,
       tabs := TakeAnswer(e.tabs, pkt),
       handlingReq := if starts then e.handlingReq + {pkt.id} else e.handlingReq,
       threads := if starts then e.threads + [Worker(pkt, Executing)] else e.threads,
       log := if starts then e.log + [Dispatched(pkt)] + [Started(pkt.id)] else e.log + [Dispatched(pkt)])
  }

  // ---- waiting calls ----

  function CallOf(t: Thread): Option<Call> {
    match t
    case Worker(_, Replying(call)) => Some(call)
    case Worker(_, _) => None
    case User(call) => Some(call)
  }

  predicate InCall(e: Endpoint, k: nat) {
    k < |e.threads| && CallOf(e.threads[k]).Some?
  }

  function CallAt(e: Endpoint, k: nat): Call
    requires InCall(e, k)
  {
    CallOf(e.threads[k]).value
  }

  function WithWait(t: Thread, wait: Wait): Thread
    requires CallOf(t).Some?
  {
    match t
    case Worker(req, Replying(call)) => Worker(req, Replying(call.(wait := wait)))
    case User(call) => User(call.(wait := wait))
  }

  function Table(t: Tables, op: Op): map<Id, nat> {
    if op == SendWithRetry then t.ack else t.resp
  }

  function SetTable(t: Tables, op: Op, table: map<Id, nat>): Tables {
    if op == SendWithRetry then t.(ack := table) else t.(resp := table)
  }

  /** Table references name existing entries. */
  predicate InRange(t: Tables) {
    && (forall id :: id in t.resp ==> t.resp[id] < |t.flies|)
    && (forall id :: id in t.ack ==> t.ack[id] < |t.flies|)
  }

  predicate EntryInRange(t: Tables, w: Wait) {
    (w.Watching? || w.Owning? || w.TimingOut? || w.Closing? || w.Returned?) ==> w.entry < |t.flies|
  }

  function Close(t: Tables, ch: Channel): Tables
    requires ch.entry < |t.flies|
  {
    var fly := t.flies[ch.entry];
    t.(flies := t.flies[ch.entry :=
         if ch.ResultBack? then fly.(resultBack := fly.resultBack + 1) else fly.(ackBack := fly.ackBack + 1)])
  }

  /** The channel that a call waits on for its answer, and closes itself on a timeout. */
  function Awaited(op: Op, f: nat): Channel {
    if op == SendWithRetry then AckBack(f) else ResultBack(f)
  }

  /** How often that channel has been closed. */
  function Closes(fly: Fly, op: Op): nat {
    if op == SendWithRetry then fly.ackBack else fly.resultBack
  }

  /** The shared tables after a step of a waiting call, and where that call is then. */
  datatype Moved = Moved(tabs: Tables, wait: Wait)

  /** The first Load: an SendPacketWithRetry that finds an entry waits without its context. */
  function MoveLookUp(t: Tables, call: Call): Moved {
    var table := Table(t, call.op);
    Moved(t, if call.pkt.id in table then Watching(table[call.pkt.id], call.op != SendWithRetry) else Storing)
  }

  function MoveStore(t: Tables, k: nat, call: Call): Moved {
    var table := Table(t, call.op);
    if call.pkt.id in table then Moved(t, Watching(table[call.pkt.id], true))
    else
      var stored := t.(flies := t.flies + [Fly(k, call.op, call.pkt.id, 0, 0, "", "")]);
      Moved(SetTable(stored, call.op, table[call.pkt.id := |t.flies|]), Owning(|t.flies|, false))
  }

  /** The timeout branch up to, for the retrying calls, its LoadAndDelete. */
  function MoveExpire(t: Tables, call: Call): Moved
    requires call.wait.Owning? && call.wait.entry < |t.flies|
  {
    var f := call.wait.entry;
    var failed := t.(flies := t.flies[f := t.flies[f].(err := TIMEOUT)]);
    if call.op == RequestOnce then Moved(Close(failed, ResultBack(f)), Returned(f, "", TIMEOUT))
    else Moved(failed, TimingOut(f))
  }

  /** LoadAndDelete in the timeout branch: it deletes by id, whatever entry that finds. */
  function MoveDelete(t: Tables, call: Call): Moved
    requires call.wait.TimingOut? && call.wait.entry < |t.flies|
  {
    var f := call.wait.entry;
    var table := Table(t, call.op);
    if call.pkt.id in table
    then Moved(SetTable(t, call.op, Remove(table, call.pkt.id)), Closing(f))
    else Moved(t, Returned(f, "", t.flies[f].err))
  }

  // ---- request workers ----

  function Execute(e: Endpoint, k: nat, result: string, error: string): Endpoint
    requires k < |e.threads| && e.threads[k].Worker? && e.threads[k].req.Request?
  {
    var req := e.threads[k].req;
    var resp := Response(req.id, if error == "" then result else "", error);
    e.(threads := e.threads[k := Worker(req, Replying(Call(SendWithRetry, resp, Looking)))],
       log := e.log + [Ran(req, resp)])
  }

  /** SendPacketWithRetry has returned: a cancelled one reports no error. */
  function Collect(e: Endpoint, k: nat): Endpoint
    requires k < |e.threads| && e.threads[k].Worker? && e.threads[k].stage.Replying?
    requires e.threads[k].stage.call.wait.Returned? || e.threads[k].stage.call.wait.Cancelled?
  {
    var Worker(req, Replying(call)) := e.threads[k];
    var err := if call.wait.Returned? then call.wait.err else "";
    e.(threads := e.threads[k := Worker(req, Deciding(call.pkt, err))])
  }

  function Decide(e: Endpoint, k: nat): Endpoint
    requires k < |e.threads| && e.threads[k].Worker? && e.threads[k].stage.Deciding?
    requires e.threads[k].req.Request? && e.threads[k].stage.resp.Response?
  {
    var Worker(req, Deciding(resp, err)) := e.threads[k];
    var e1 := e.(threads := e.threads[k := Worker(req, Leaving)]);
    if resp.error != "" || err != "" then e1
    else match req.meth
      case ExchangeSecret => ChangeState(e1, ExchangedSecret, ByWorker(req, e.disposed))
      case Login => ChangeState(e1, Logined, ByWorker(req, e.disposed))
      case OtherMethod(_) => e1
  }

  function Leave(e: Endpoint, k: nat): Endpoint
    requires k < |e.threads| && e.threads[k].Worker?
  {
    var req := e.threads[k].req;
    e.(threads := e.threads[k := Worker(req, Ended)],
       handlingReq := e.handlingReq - {req.id},
       log := e.log + [Ending(req.id)])
  }

  // ---- one step ----

  /** The transport reader and the dispatching goroutine. */
  datatype NetEvent = Receive(pkt: Packet) | Enqueue | Deliver | CloseEntry

  /** A goroutine inside one of the three waiting functions. */
  datatype CallEvent =
    | LookUp | LoadOrStore
    | NoteAck   // its entry's ackBack is closed: beAcked becomes true
    | Resend | Wake | Cancel | Expire | LoadAndDelete | CloseChannel

  /** A request worker outside SendPacketWithRetry. */
  datatype WorkEvent = Run(result: string, error: string) | Conclude | Settle | Finish

  datatype ControlEvent =
    | Begin(op: Op, pkt: Packet)   // some goroutine enters one of the waiting functions
    | Promote(k: nat)              // Login() on the dialing side changes state
    | Connect
    | Disconnect
    | Dispose

  datatype Event = Net(n: NetEvent) | Calling(k: nat, c: CallEvent)
      | Working(k: nat, w: WorkEvent) | Control(t: ControlEvent)

  /** Calls carry fresh ids: a request id is this side's own and always names the same request. */
  predicate FreshCall(e: Endpoint, op: Op, pkt: Packet) {
    if op == SendWithRetry then pkt.Notice? && (pkt.id == NoId || pkt.id.NoticeId?)
    else
      && pkt.Request?
      && (pkt.id == NoId || (pkt.id.ReqId? && pkt.id.minter == e.side))
      && (forall k :: 0 <= k < |e.threads| && e.threads[k].User? && e.threads[k].call.pkt.id == pkt.id && pkt.id != NoId
            ==> e.threads[k].call.pkt == pkt)
  }

  /** Login() on the dialing side, after its exchange or login request returned without error. */
  predicate CanPromote(e: Endpoint, k: nat) {
    && e.side == Dialer && InCall(e, k) && e.threads[k].User?
    && var c := CallAt(e, k);
       && c.op == RequestOnce && c.pkt.Request? && (c.pkt.meth == ExchangeSecret || c.pkt.meth == Login)
       && c.wait.Returned? && c.wait.err == ""
  }

  predicate CanNet(e: Endpoint, n: NetEvent) {
    match n
    case Receive(_) => e.reading.None? && (e.side == Dialer || e.link != Fresh)
    case Enqueue => e.reading.Some? && |e.rxQueue| < RX_QUEUE_LEN
    case Deliver => e.tabs.closing.None? && |e.rxQueue| > 0 && InRange(e.tabs)
    case CloseEntry => e.tabs.closing.Some? && e.tabs.closing.value.entry < |e.tabs.flies|
  }

  /** When a call in this state, under a context that is done or not, may take step `c`. */
  predicate CanMove(t: Tables, call: Call, disposed: bool, c: CallEvent) {
    EntryInRange(t, call.wait) &&
    match c
    case LookUp => call.wait.Looking?
    case LoadOrStore => call.wait.Storing?
    case NoteAck => call.op == RequestWithRetry && call.wait.Owning? && t.flies[call.wait.entry].ackBack > 0
    case Resend => call.wait.Owning? && call.op != RequestOnce && !call.wait.beAcked
    case Wake => (call.wait.Owning? || call.wait.Watching?) && Closes(t.flies[call.wait.entry], call.op) > 0
    case Cancel => disposed && (call.wait.Owning? || (call.wait.Watching? && call.wait.cancellable))
    case Expire => call.wait.Owning?
    case LoadAndDelete => call.wait.TimingOut?
    case CloseChannel => call.wait.Closing?
  }

  predicate CanCall(e: Endpoint, k: nat, c: CallEvent) {
    InCall(e, k) && CanMove(e.tabs, CallAt(e, k), e.disposed, c)
  }

  predicate CanWork(e: Endpoint, k: nat, w: WorkEvent) {
    k < |e.threads| && e.threads[k].Worker? && e.threads[k].req.Request? &&
    var stage := e.threads[k].stage;
    match w
    case Run(_, _) => stage.Executing?
    case Conclude => stage.Replying? && (stage.call.wait.Returned? || stage.call.wait.Cancelled?)
    case Settle => stage.Deciding? && stage.resp.Response?
    case Finish => stage.Leaving?
  }

  predicate CanControl(e: Endpoint, t: ControlEvent) {
    match t
    case Begin(op, pkt) => FreshCall(e, op, pkt)
    case Promote(k) => CanPromote(e, k)
    case Connect => e.side == Dialer || e.link == Fresh
    case Disconnect => e.link == Up
    case Dispose => true
  }

  function NetStep(e: Endpoint, n: NetEvent): Endpoint
    requires CanNet(e, n)
  {
    match n
    case Receive(pkt) => if Gate(e.state, pkt) then e.(reading := Some(pkt)) else e
    case Enqueue => e.(reading := None, rxQueue := e.rxQueue + [e.reading.value])
    case Deliver => Dispatch(e)
    case CloseEntry => e.(tabs := Close(e.tabs, e.tabs.closing.value).(closing := None))
  }

  function Move(t: Tables, k: nat, call: Call, disposed: bool, c: CallEvent): Moved
    requires CanMove(t, call, disposed, c)
  {
    match c
    case LookUp => MoveLookUp(t, call)
    case LoadOrStore => MoveStore(t, k, call)
    case NoteAck => Moved(t, Owning(call.wait.entry, true))
    case Resend => Moved(t, call.wait)
    case Wake => Moved(t, Returned(call.wait.entry, t.flies[call.wait.entry].result, t.flies[call.wait.entry].err))
    case Cancel => Moved(t, Cancelled)
    case Expire => MoveExpire(t, call)
    case LoadAndDelete => MoveDelete(t, call)
    case CloseChannel =>
      Moved(Close(t, Awaited(call.op, call.wait.entry)), Returned(call.wait.entry, "", t.flies[call.wait.entry].err))
  }

  /** The packet goes out when its entry is stored, and again at every retry interval. */
  function CallStep(e: Endpoint, k: nat, c: CallEvent): Endpoint
    requires CanCall(e, k, c)
  {
    var call := CallAt(e, k);
    var m := Move(e.tabs, k, call, e.disposed, c);
    var sends := c == Resend || (c == LoadOrStore && m.wait.Owning?);
    e.(tabs := m.tabs,
       threads := e.threads[k := WithWait(e.threads[k], m.wait)],
       sent := if sends then e.sent + {call.pkt} else e.sent)
  }

  function WorkStep(e: Endpoint, k: nat, w: WorkEvent): Endpoint
    requires CanWork(e, k, w)
  {
    match w
    case Run(result, error) => Execute(e, k, result, error)
    case Conclude => Collect(e, k)
    case Settle => Decide(e, k)
    case Finish => Leave(e, k)
  }

  function ControlStep(e: Endpoint, t: ControlEvent): Endpoint
    requires CanControl(e, t)
  {
    match t
    case Begin(op, pkt) => e.(threads := e.threads + [User(Call(op, pkt, Looking))])
    case Promote(k) =>
      ChangeState(e, if CallAt(e, k).pkt.meth == Login then Logined else ExchangedSecret, ByUser)
    case Connect => ChangeState(e, Connected, ByUser).(link := Up)
    case Disconnect => ChangeState(e, Disconnected, ByUser).(link := Down)
    case Dispose => e.(disposed := true)
  }

  predicate Enabled(e: Endpoint, ev: Event) {
    match ev
    case Net(n) => CanNet(e, n)
    case Calling(k, c) => CanCall(e, k, c)
    case Working(k, w) => CanWork(e, k, w)
    case Control(t) => CanControl(e, t)
  }

  function Step(e: Endpoint, ev: Event): Endpoint
    requires Enabled(e, ev)
  {
    match ev
    case Net(n) => NetStep(e, n)
    case Calling(k, c) => CallStep(e, k, c)
    case Working(k, w) => WorkStep(e, k, w)
    case Control(t) => ControlStep(e, t)
  }

  // ---- what each kind of step leaves alone ----

  lemma NetFrame(e: Endpoint, n: NetEvent)
    requires CanNet(e, n) && n != Deliver
    ensures NetStep(e, n).threads == e.threads && NetStep(e, n).handlingReq == e.handlingReq
    ensures NetStep(e, n).log == e.log && NetStep(e, n).sent == e.sent && NetStep(e, n).disposed == e.disposed
    ensures NetStep(e, n).tabs ==
              if n == CloseEntry then Close(e.tabs, e.tabs.closing.value).(closing := None) else e.tabs
  {
  }

  lemma ChangeFrame(e: Endpoint, to: ConnState, cause: Cause)
    ensures var e1 := ChangeState(e, to, cause);
            e1 == e.(state := e1.state, log := e1.log) && e.log <= e1.log
            && (forall q :: Dispatched(q) in e1.log ==> Dispatched(q) in e.log)
  {
  }

  lemma WorkFrame(e: Endpoint, k: nat, w: WorkEvent)
    requires CanWork(e, k, w)
    ensures var e1 := WorkStep(e, k, w);
            && e1.tabs == e.tabs && e1.sent == e.sent && e1.disposed == e.disposed
            && e1.reading == e.reading && e1.rxQueue == e.rxQueue
            && k < |e1.threads| && e1.threads[k].Worker? && e1.threads[k].req == e.threads[k].req
            && e1.threads == e.threads[k := e1.threads[k]]
            && e1.side == e.side && e.log <= e1.log
            && (forall q :: Dispatched(q) in e1.log ==> Dispatched(q) in e.log)
  {
    if w.Settle? {
      var e1 := e.(threads := e.threads[k := Worker(e.threads[k].req, Leaving)]);
      ChangeFrame(e1, ExchangedSecret, ByWorker(e.threads[k].req, e.disposed));
      ChangeFrame(e1, Logined, ByWorker(e.threads[k].req, e.disposed));
    }
  }

  lemma ControlFrame(e: Endpoint, t: ControlEvent)
    requires CanControl(e, t)
    ensures var e1 := ControlStep(e, t);
            && e1.tabs == e.tabs && e1.sent == e.sent && e1.handlingReq == e.handlingReq
            && e1.reading == e.reading && e1.rxQueue == e.rxQueue
            && e1.threads == (if t.Begin? then e.threads + [User(Call(t.op, t.pkt, Looking))] else e.threads)
            && e1.side == e.side && e.log <= e1.log
            && (forall q :: Dispatched(q) in e1.log ==> Dispatched(q) in e.log)
  {
  }
}
