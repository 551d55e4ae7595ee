/**
 When a channel is closed at most once: the exact discipline for the calls under one id, step by
 step, and one that a caller can keep. Calls under one id never disturb the entries of another.
 */
module Closing {
  import opened Basics
  import opened Endpoint
  import opened Connection
  import Workers
  import Entries
  import Traffic

  /** A careful step, as far as `key` goes: a call under it stores an entry only when no earlier
      retrying call under it is still in its loop, and no unretried request under it times out.
      Calls under other keys and workers are free to do as they please. */
  ghost predicate Careful(e: Endpoint, ev: Event, key: Entries.Key)
    requires Enabled(e, ev)
  {
    ev.Calling? && e.threads[ev.k].User? && Entries.Under(e.threads[ev.k], key) ==>
      && (ev.c == LoadOrStore ==> Entries.OrderlyStore(e, ev.k))
      && !(ev.c == Expire && CallAt(e, ev.k).op == RequestOnce)
  }

  /** One side is careful with one key. */
  ghost predicate CarefulRun(s: System, acts: seq<Action>, side: Side, key: Entries.Key)
    decreases |acts|
  {
    acts == [] ||
    (&& Can(s, acts[0]) && (acts[0].side == side ==> Careful(At(s, side), acts[0].ev, key))
     && CarefulRun(Do(s, acts[0]), acts[1..], side, key))
  }

  /** A worker's reply is acknowledged under a request id, a caller's notice never is. */
  lemma ReplyId(s: System, side: Side, j: nat)
    requires Inv(s) && InCall(At(s, side), j) && At(s, side).threads[j].Worker?
    ensures CallAt(At(s, side), j).op == SendWithRetry && CallAt(At(s, side), j).pkt.id.ReqId?
  {
    var e, p := At(s, side), At(s, Other(side));
    assert Workers.WorkerOk(e.threads[j], e.handlingReq, e.log);
    assert Traffic.SentOk(p.side, p.threads, p.log, e.threads[j].req);
  }

  lemma NoticeId(s: System, side: Side, j: nat)
    requires Inv(s) && InCall(At(s, side), j) && At(s, side).threads[j].User?
    ensures CallAt(At(s, side), j).op == SendWithRetry ==> !CallAt(At(s, side), j).pkt.id.ReqId?
  {
    assert Traffic.UserOk(At(s, side).side, At(s, side).threads[j]);
  }

  /** A worker's reply never stores beside an earlier loop under its id: only one worker
      for the id lives, and no other kind of call uses a request id for acknowledgements. */
  lemma WorkerStoresOrderly(s: System, side: Side, k: nat)
    requires Inv(s) && CanCall(At(s, side), k, LoadOrStore) && At(s, side).threads[k].Worker?
    ensures Entries.OrderlyStore(At(s, side), k)
  {
    var e := At(s, side);
    ReplyId(s, side, k);
    assert Workers.WorkerOk(e.threads[k], e.handlingReq, e.log);
    forall j | 0 <= j < |e.threads| && Entries.Looping(e.threads[j])
      ensures !Entries.Under(e.threads[j], Entries.CallKey(CallAt(e, k)))
    {
      if e.threads[j].Worker? {
        assert Workers.WorkerOk(e.threads[j], e.handlingReq, e.log);
        if j < k {} else if k < j {}
      } else {
        NoticeId(s, side, j);
      }
    }
  }

  ghost predicate Sound(e: Endpoint, key: Entries.Key) {
    Entries.Balanced(e.tabs, e.threads, key) && Entries.Agree(e.tabs, e.threads, key)
  }

  /** From a state sound under a key, the next step leaves it sound exactly when it is careful. */
  lemma SoundStep(s: System, a: Action, key: Entries.Key)
    requires Inv(s) && Can(s, a) && Sound(At(s, a.side), key)
    ensures Sound(Step(At(s, a.side), a.ev), key) <==> Careful(At(s, a.side), a.ev, key)
  {
    var e := At(s, a.side);
    Entries.Conserved(e, a.ev, key);
    Entries.AgreeStep(e, a.ev, key);
    Entries.AgreeBreaks(e, a.ev, key);
    if a.ev.Calling? && e.threads[a.ev.k].Worker? {
      ReplyId(s, a.side, a.ev.k);
      if a.ev.c == LoadOrStore { WorkerStoresOrderly(s, a.side, a.ev.k); }
    }
  }

  lemma {:induction false} CarefulSound(s: System, acts: seq<Action>, s1: System, side: Side, key: Entries.Key)
    requires Inv(s) && Sound(At(s, side), key) && Reaches(s, acts, s1) && CarefulRun(s, acts, side, key)
    ensures Sound(At(s1, side), key)
    decreases |acts|
  {
    if acts != [] {
      StepInv(s, acts[0]);
      if acts[0].side == side { SoundStep(s, acts[0], key); }
      CarefulSound(Do(s, acts[0]), acts[1..], s1, side, key);
    }
  }

  /** One close at most, whichever of timeout, response or acknowledgement comes first, and none
      exactly while the entry is pending. */
  ghost predicate ClosesOnce(e: Endpoint, f: nat)
    requires f < |e.tabs.flies|
  {
    && Entries.Closed(e.tabs, f) <= 1
    && (Entries.Closed(e.tabs, f) == 0 <==>
          || Entries.InTable(e.tabs, f) || Entries.Taken(e.tabs, f)
          || Entries.OwnerClosing(e.tabs, e.threads, f))
  }

  /** When the calls under an entry's key have been careful, its channel is closed at most once and
      is open exactly while it is pending, whatever went on under other keys and on the other side. */
  lemma ClosedAtMostOnce(s: System, acts: seq<Action>, s1: System, side: Side, f: nat)
    requires Initial(s) && Reaches(s, acts, s1) && f < |At(s1, side).tabs.flies|
    requires CarefulRun(s, acts, side, Entries.EntryKey(At(s1, side).tabs, f))
    ensures ClosesOnce(At(s1, side), f)
  {
    InitialInv(s);
    CarefulSound(s, acts, s1, side, Entries.EntryKey(At(s1, side).tabs, f));
    Entries.ClosedOnce(At(s1, side).tabs, At(s1, side).threads, f);
  }

  // ---- the workers' own replies need no care ----

  lemma {:induction false} RepliesCareful(s: System, acts: seq<Action>, s1: System, side: Side, key: Entries.Key)
    requires Inv(s) && Reaches(s, acts, s1) && key.acks && key.id.ReqId?
    ensures CarefulRun(s, acts, side, key)
    decreases |acts|
  {
    if acts != [] {
      var ev := acts[0].ev;
      if acts[0].side == side && ev.Calling? && At(s, side).threads[ev.k].User? { NoticeId(s, side, ev.k); }
      StepInv(s, acts[0]);
      RepliesCareful(Do(s, acts[0]), acts[1..], s1, side, key);
    }
  }

  /** In every run whatsoever the channel of a worker's reply is closed at most once and is open
      exactly while the reply is pending. */
  lemma RepliesClosedOnce(s: System, acts: seq<Action>, s1: System, side: Side, f: nat)
    requires Initial(s) && Reaches(s, acts, s1) && f < |At(s1, side).tabs.flies|
    requires At(s1, side).tabs.flies[f].op == SendWithRetry && At(s1, side).tabs.flies[f].id.ReqId?
    ensures ClosesOnce(At(s1, side), f)
  {
    InitialInv(s);
    RepliesCareful(s, acts, s1, side, Entries.EntryKey(At(s1, side).tabs, f));
    ClosedAtMostOnce(s, acts, s1, side, f);
  }

  // ---- careless steps end in a second close ----

  /** Some channel under the key has been closed twice. */
  ghost predicate ClosedTwice(e: Endpoint, key: Entries.Key) {
    exists f :: 0 <= f < |e.tabs.flies| && Entries.EntryKey(e.tabs, f) == key && Entries.Closed(e.tabs, f) >= 2
  }

  /** A step that adds nothing to a carelessness: under the key it stores no entry and times out no
      `Request`. */
  ghost predicate Calm(e: Endpoint, ev: Event, key: Entries.Key)
    requires Enabled(e, ev)
  {
    ev.Calling? && Entries.Under(e.threads[ev.k], key) ==>
      ev.c != LoadOrStore && !(ev.c == Expire && CallAt(e, ev.k).op == RequestOnce)
  }

  /** `evs` is a run of one endpoint by such steps, over a network that may hand over `net`. */
  ghost predicate CalmRun(e: Endpoint, evs: seq<Event>, e1: Endpoint, key: Entries.Key, net: iset<Packet>)
    decreases |evs|
  {
    if evs == [] then e == e1
    else
      && Enabled(e, evs[0]) && Calm(e, evs[0], key) && (evs[0].Net? && evs[0].n.Receive? ==> evs[0].n.pkt in net)
      && CalmRun(Step(e, evs[0]), evs[1..], e1, key, net)
  }

  /** From `e`, over such a network, a channel under the key comes to be closed twice although nothing
      more goes wrong under it. */
  ghost predicate Doomed(e: Endpoint, key: Entries.Key, net: iset<Packet>) {
    exists evs, e1 :: CalmRun(e, evs, e1, key, net) && ClosedTwice(e1, key)
  }

  lemma {:induction false} CalmSound(e: Endpoint, evs: seq<Event>, e1: Endpoint, key: Entries.Key, net: iset<Packet>)
    requires Entries.Shape(e.tabs, e.threads) && Sound(e, key) && CalmRun(e, evs, e1, key, net)
    ensures !ClosedTwice(e1, key)
    decreases |evs|
  {
    if evs == [] {
      forall f | 0 <= f < |e.tabs.flies| && Entries.EntryKey(e.tabs, f) == key ensures Entries.Closed(e.tabs, f) <= 1 {
        Entries.ClosedOnce(e.tabs, e.threads, f);
      }
    } else {
      Entries.Conserved(e, evs[0], key);
      Entries.AgreeStep(e, evs[0], key);
      Entries.AgreeBreaks(e, evs[0], key);
      Entries.ShapeStep(e, evs[0]);
      CalmSound(Step(e, evs[0]), evs[1..], e1, key, net);
    }
  }

  lemma After(e: Endpoint, ev: Event, key: Entries.Key, net: iset<Packet>)
    requires Enabled(e, ev) && Calm(e, ev, key) && Doomed(Step(e, ev), key, net)
    requires ev.Net? && ev.n.Receive? ==> ev.n.pkt in net
    ensures Doomed(e, key, net)
  {
    var evs, e1 :| CalmRun(Step(e, ev), evs, e1, key, net) && ClosedTwice(e1, key);
    var all := [ev] + evs;
    assert all[0] == ev && all[1..] == evs;
    assert CalmRun(e, all, e1, key, net);
  }

  lemma Already(e: Endpoint, f: nat, net: iset<Packet>)
    requires f < |e.tabs.flies| && Entries.Closed(e.tabs, f) >= 2
    ensures Doomed(e, Entries.EntryKey(e.tabs, f), net)
  {
    assert CalmRun(e, [], e, Entries.EntryKey(e.tabs, f), net);
  }

  /** An entry that is closed, or will be, and that the dispatcher is about to close. */
  lemma TakenTwice(e: Endpoint, f: nat, net: iset<Packet>)
    requires Entries.Shape(e.tabs, e.threads) && f < |e.tabs.flies|
    requires Entries.Taken(e.tabs, f) && Entries.Closed(e.tabs, f) >= 1
    ensures Doomed(e, Entries.EntryKey(e.tabs, f), net)
  {
    Already(NetStep(e, CloseEntry), f, net);
    After(e, Net(CloseEntry), Entries.EntryKey(e.tabs, f), net);
  }

  /** How much an endpoint still has to receive and dispatch. */
  function Backlog(e: Endpoint): nat {
    3 * |e.rxQueue| + (if e.reading.Some? then 4 else 0) + (if e.tabs.closing.Some? then 1 else 0)
      + (if e.link == Fresh then 1 else 0)
  }

  /** A request's entry that is closed, and pending or about to be closed by the dispatcher. */
  ghost predicate Lingers(e: Endpoint, f: nat) {
    && Entries.Shape(e.tabs, e.threads) && f < |e.tabs.flies|
    && e.tabs.flies[f].op != SendWithRetry && Entries.Closed(e.tabs, f) >= 1
    && (Entries.InTable(e.tabs, f) || Entries.Taken(e.tabs, f))
  }

  lemma LingersOn(e: Endpoint, f: nat)
    requires Lingers(e, f) && Entries.InTable(e.tabs, f) && CanNet(e, Deliver)
    ensures Lingers(Dispatch(e), f) && Backlog(Dispatch(e)) < Backlog(e)
  {
    Entries.ShapeDeliver(e);
  }

  lemma LingersAfterClose(e: Endpoint, f: nat)
    requires Lingers(e, f) && Entries.InTable(e.tabs, f) && CanNet(e, CloseEntry)
    ensures Lingers(NetStep(e, CloseEntry), f) && Backlog(NetStep(e, CloseEntry)) < Backlog(e)
  {
    Entries.ShapeStep(e, Net(CloseEntry));
  }

  predicate Busy(e: Endpoint) {
    e.tabs.closing.Some? || e.rxQueue != [] || e.reading.Some? || (e.side == Hub && e.link == Fresh)
  }

  /** The next step of working off the backlog. */
  function WorkOff(e: Endpoint): Event {
    if e.tabs.closing.Some? then Net(CloseEntry) else if e.rxQueue != [] then Net(Deliver)
    else if e.reading.Some? then Net(Enqueue) else Control(Connect)
  }

  /** Meanwhile the entry lingers. */
  lemma Persists(e: Endpoint, f: nat)
    requires Lingers(e, f) && Entries.InTable(e.tabs, f) && Busy(e)
    ensures Enabled(e, WorkOff(e)) && Lingers(Step(e, WorkOff(e)), f) && Backlog(Step(e, WorkOff(e))) < Backlog(e)
    ensures Entries.EntryKey(Step(e, WorkOff(e)).tabs, f) == Entries.EntryKey(e.tabs, f)
  {
    Entries.ShapeStep(e, WorkOff(e));
    match WorkOff(e)
    case Net(Deliver) => LingersOn(e, f);
    case Net(CloseEntry) => LingersAfterClose(e, f);
    case Net(n) => NetFrame(e, n);
    case Control(t) => ControlFrame(e, t);
  }

  /** The dispatched response to a lingering entry is the second close. */
  lemma AnsweredNow(e: Endpoint, f: nat, net: iset<Packet>)
    requires Lingers(e, f) && Entries.InTable(e.tabs, f) && e.tabs.closing.None?
    requires |e.rxQueue| == 1 && e.rxQueue[0].Response? && e.rxQueue[0].id == e.tabs.flies[f].id
    ensures Doomed(e, Entries.EntryKey(e.tabs, f), net)
  {
    Entries.ShapeDeliver(e);
    TakenTwice(Dispatch(e), f, net);
    After(e, Net(Deliver), Entries.EntryKey(e.tabs, f), net);
  }

  /** With no backlog left, a response to a pending request is received and dispatched. */
  lemma Answered(e: Endpoint, f: nat, resp: Packet, net: iset<Packet>)
    requires Lingers(e, f) && Entries.InTable(e.tabs, f)
    requires e.reading.None? && e.rxQueue == [] && e.tabs.closing.None? && (e.side == Dialer || e.link != Fresh)
    requires resp in net && resp.Response? && resp.id == e.tabs.flies[f].id
    ensures Doomed(e, Entries.EntryKey(e.tabs, f), net)
  {
    var e1 := NetStep(e, Receive(resp));
    assert e1 == e.(reading := Some(resp));
    var e2 := NetStep(e1, Enqueue);
    assert e2 == e.(rxQueue := [resp]);
    AnsweredNow(e2, f, net);
    After(e1, Net(Enqueue), Entries.EntryKey(e.tabs, f), net);
    After(e, Net(Receive(resp)), Entries.EntryKey(e.tabs, f), net);
  }

  /** A request's closed entry that is still in its table: the next response closes it again. */
  lemma {:induction false} StaysPending(e: Endpoint, f: nat, resp: Packet, net: iset<Packet>)
    requires Lingers(e, f) && Entries.InTable(e.tabs, f)
    requires resp in net && resp.Response? && resp.id == e.tabs.flies[f].id
    ensures Doomed(e, Entries.EntryKey(e.tabs, f), net)
    decreases Backlog(e)
  {
    if Busy(e) {
      Persists(e, f);
      var e1 := Step(e, WorkOff(e));
      if Entries.Taken(e1.tabs, f) { TakenTwice(e1, f, net); } else { StaysPending(e1, f, resp, net); }
      After(e, WorkOff(e), Entries.EntryKey(e.tabs, f), net);
    } else {
      Answered(e, f, resp, net);
    }
  }

  /** `Request` that times out closes its channel and leaves its entry pending, or closed already. */
  lemma ExpiredOnce(e: Endpoint, k: nat, resp: Packet, net: iset<Packet>)
    requires Entries.Shape(e.tabs, e.threads) && CanCall(e, k, Expire) && CallAt(e, k).op == RequestOnce
    requires Sound(e, Entries.CallKey(CallAt(e, k))) && resp in net && resp.Response? && resp.id == CallAt(e, k).pkt.id
    ensures Doomed(CallStep(e, k, Expire), Entries.CallKey(CallAt(e, k)), net)
  {
    var f, e1 := CallAt(e, k).wait.entry, CallStep(e, k, Expire);
    assert Entries.CallOk(e.tabs, k, e.threads[k]);
    assert Entries.EntryKey(e.tabs, f) == Entries.CallKey(CallAt(e, k));
    assert Entries.Tokens(e.tabs, e.threads, f) == 1;
    Entries.ShapeCall(e, k, Expire);
    assert Entries.Closed(e1.tabs, f) == Entries.Closed(e.tabs, f) + 1;
    if Entries.Closed(e.tabs, f) == 1 {
      Already(e1, f, net);
    } else if Entries.Taken(e.tabs, f) {
      TakenTwice(e1, f, net);
    } else {
      StaysPending(e1, f, resp, net);
    }
  }

  /** A loop `j` whose entry is closed or about to be, while another entry lies under its id. */
  ghost predicate Superseded(e: Endpoint, j: nat, f: nat) {
    && Entries.Shape(e.tabs, e.threads) && InCall(e, j) && CallAt(e, j).op != RequestOnce && f < |e.tabs.flies|
    && (Entries.Closed(e.tabs, f) >= 1 || Entries.Taken(e.tabs, f))
    && Entries.CallOk(e.tabs, j, e.threads[j]) && e.tabs.flies[f].op == CallAt(e, j).op
  }

  lemma ClosesOwn(e: Endpoint, j: nat, f: nat, net: iset<Packet>)
    requires Superseded(e, j, f) && CallAt(e, j).wait == Wait.Closing(f)
    ensures Doomed(e, Entries.EntryKey(e.tabs, f), net)
  {
    var e1 := CallStep(e, j, CloseChannel);
    Entries.ShapeCall(e, j, CloseChannel);
    assert Entries.Closed(e1.tabs, f) == Entries.Closed(e.tabs, f) + 1;
    if Entries.Taken(e.tabs, f) { TakenTwice(e1, f, net); } else { Already(e1, f, net); }
    After(e, Calling(j, CloseChannel), Entries.EntryKey(e.tabs, f), net);
  }

  lemma DeletesOther(e: Endpoint, j: nat, f: nat, net: iset<Packet>)
    requires Superseded(e, j, f) && CallAt(e, j).wait == TimingOut(f)
    requires CallAt(e, j).pkt.id in Table(e.tabs, CallAt(e, j).op)
    ensures Doomed(e, Entries.EntryKey(e.tabs, f), net)
  {
    var e1 := CallStep(e, j, LoadAndDelete);
    Entries.ShapeCall(e, j, LoadAndDelete);
    assert Entries.CallOk(e1.tabs, j, e1.threads[j]);
    ClosesOwn(e1, j, f, net);
    After(e, Calling(j, LoadAndDelete), Entries.EntryKey(e.tabs, f), net);
  }

  lemma TimesOut(e: Endpoint, j: nat, f: nat, net: iset<Packet>)
    requires Superseded(e, j, f) && CallAt(e, j).wait == Owning(f, false)
    requires CallAt(e, j).pkt.id in Table(e.tabs, CallAt(e, j).op)
    ensures Doomed(e, Entries.EntryKey(e.tabs, f), net)
  {
    var e1 := CallStep(e, j, Expire);
    Entries.ShapeCall(e, j, Expire);
    assert Entries.CallOk(e1.tabs, j, e1.threads[j]);
    DeletesOther(e1, j, f, net);
    After(e, Calling(j, Expire), Entries.EntryKey(e.tabs, f), net);
  }

  /** An entry stored beside a retrying loop: the loop's own timeout deletes the new entry and
      closes its own channel, which is closed or about to be. */
  lemma StoredBeside(e: Endpoint, k: nat, net: iset<Packet>)
    requires Entries.Shape(e.tabs, e.threads) && CanCall(e, k, LoadOrStore) && !Entries.OrderlyStore(e, k)
    requires Sound(e, Entries.CallKey(CallAt(e, k)))
    ensures Doomed(CallStep(e, k, LoadOrStore), Entries.CallKey(CallAt(e, k)), net)
  {
    var key, e1 := Entries.CallKey(CallAt(e, k)), CallStep(e, k, LoadOrStore);
    var j :| 0 <= j < |e.threads| && Entries.Looping(e.threads[j]) && Entries.Under(e.threads[j], key);
    var f := CallAt(e, j).wait.entry;
    assert Entries.CallOk(e.tabs, j, e.threads[j]);
    assert Entries.EntryKey(e.tabs, f) == key;
    assert Entries.Tokens(e.tabs, e.threads, f) == 1;
    assert !Entries.InTable(e.tabs, f) && !Entries.OwnerClosing(e.tabs, e.threads, f);
    Entries.ShapeCall(e, k, LoadOrStore);
    assert e1.threads[j] == e.threads[j] && e1.tabs.flies[f] == e.tabs.flies[f];
    assert Entries.CallOk(e1.tabs, j, e1.threads[j]);
    if CallAt(e, j).wait.Owning? { TimesOut(e1, j, f, net); } else { DeletesOther(e1, j, f, net); }
  }

  /** Exactly the careful steps: from a state sound under a key, a step is careless if and only if
      afterwards, over some network, a channel under the key comes to be closed twice without
      anything more going wrong. */
  lemma CarefulExactly(s: System, a: Action, key: Entries.Key)
    requires Inv(s) && Can(s, a) && Sound(At(s, a.side), key)
    ensures Careful(At(s, a.side), a.ev, key) <==> !Doomed(Step(At(s, a.side), a.ev), key, ANYTHING)
  {
    var e, ev := At(s, a.side), a.ev;
    var e1 := Step(e, ev);
    if Careful(e, ev, key) {
      SoundStep(s, a, key);
      Entries.ShapeStep(e, ev);
      forall evs, e2 | CalmRun(e1, evs, e2, key, ANYTHING) ensures !ClosedTwice(e2, key) {
        CalmSound(e1, evs, e2, key, ANYTHING);
      }
    } else if ev.c == Expire {
      ExpiredOnce(e, ev.k, Response(key.id, "", ""), ANYTHING);
    } else {
      StoredBeside(e, ev.k, ANYTHING);
    }
  }

  // ---- and with the peer there is ----

  /** A run of both sides in which one of them takes only calm steps. */
  ghost predicate CalmTogether(s: System, acts: seq<Action>, s1: System, side: Side, key: Entries.Key)
    decreases |acts|
  {
    if acts == [] then s == s1
    else
      && Can(s, acts[0]) && (acts[0].side == side ==> Calm(At(s, side), acts[0].ev, key))
      && CalmTogether(Do(s, acts[0]), acts[1..], s1, side, key)
  }

  ghost predicate DoomedTogether(s: System, side: Side, key: Entries.Key) {
    exists acts, s1 :: CalmTogether(s, acts, s1, side, key) && ClosedTwice(At(s1, side), key)
  }

  lemma CalmCareful(e: Endpoint, ev: Event, key: Entries.Key)
    requires Enabled(e, ev) && Calm(e, ev, key)
    ensures Careful(e, ev, key)
  {
  }

  lemma {:induction false} TogetherSound(s: System, acts: seq<Action>, s1: System, side: Side, key: Entries.Key)
    requires Inv(s) && Sound(At(s, side), key) && CalmTogether(s, acts, s1, side, key)
    ensures !ClosedTwice(At(s1, side), key)
    decreases |acts|
  {
    if acts == [] {
      CalmSound(At(s, side), [], At(s, side), key, ANYTHING);
    } else {
      if acts[0].side == side {
        CalmCareful(At(s, side), acts[0].ev, key);
        SoundStep(s, acts[0], key);
      }
      StepInv(s, acts[0]);
      TogetherSound(Do(s, acts[0]), acts[1..], s1, side, key);
    }
  }

  ghost function SentBy(e: Endpoint): iset<Packet> {
    iset p | p in e.sent
  }

  /** A run of one side over what the peer has sent is a run of both. */
  lemma {:induction false} Together(s: System, evs: seq<Event>, e1: Endpoint, side: Side, key: Entries.Key)
    returns (acts: seq<Action>, s1: System)
    requires CalmRun(At(s, side), evs, e1, key, SentBy(At(s, Other(side))))
    ensures CalmTogether(s, acts, s1, side, key) && At(s1, side) == e1
    decreases |evs|
  {
    if evs == [] {
      acts, s1 := [], s;
    } else {
      var a := Action(side, evs[0]);
      acts, s1 := Together(Do(s, a), evs[1..], e1, side, key);
      var all := [a] + acts;
      assert all[0] == a && all[1..] == acts;
      acts := all;
    }
  }

  lemma DoomTogether(s: System, side: Side, key: Entries.Key)
    requires Doomed(At(s, side), key, SentBy(At(s, Other(side))))
    ensures DoomedTogether(s, side, key)
  {
    var evs, e1 :| CalmRun(At(s, side), evs, e1, key, SentBy(At(s, Other(side)))) && ClosedTwice(e1, key);
    var acts, s1 := Together(s, evs, e1, side, key);
  }

  /** The peer has answered a request under this id. */
  ghost predicate HasAnswered(e: Endpoint, id: Id) {
    exists resp :: resp in e.sent && resp.Response? && resp.id == id
  }

  /** The same for the two sides of a connection, as far as the peer has sent the response that is
      the second close of an unretried request; the other second closes need no packet at all. */
  lemma TogetherExactly(s: System, a: Action, key: Entries.Key)
    requires Inv(s) && Can(s, a) && Sound(At(s, a.side), key)
    requires a.ev.Calling? && a.ev.c == Expire && CallAt(At(s, a.side), a.ev.k).op == RequestOnce ==>
               HasAnswered(At(s, Other(a.side)), key.id)
    ensures Careful(At(s, a.side), a.ev, key) <==> !DoomedTogether(Do(s, a), a.side, key)
  {
    var e, ev, s1 := At(s, a.side), a.ev, Do(s, a);
    if Careful(e, ev, key) {
      SoundStep(s, a, key);
      StepInv(s, a);
      forall acts, s2 | CalmTogether(s1, acts, s2, a.side, key) ensures !ClosedTwice(At(s2, a.side), key) {
        TogetherSound(s1, acts, s2, a.side, key);
      }
    } else {
      var net := SentBy(At(s, Other(a.side)));
      assert At(s1, Other(a.side)) == At(s, Other(a.side));
      if ev.c == Expire {
        var resp :| resp in At(s, Other(a.side)).sent && resp.Response? && resp.id == key.id;
        ExpiredOnce(e, ev.k, resp, net);
      } else {
        StoredBeside(e, ev.k, net);
      }
      DoomTogether(s1, a.side, key);
    }
  }

  // ---- a discipline for callers ----

  predicate Done(c: Call) {
    c.wait.Returned? || c.wait.Cancelled?
  }

  /** No call begins under the key while an earlier one has not returned, and no unretried `Request`
      under it times out. */
  ghost predicate Disciplined(e: Endpoint, ev: Event, key: Entries.Key)
    requires Enabled(e, ev)
  {
    && (ev.Control? && ev.t.Begin? && Entries.CallKey(Call(ev.t.op, ev.t.pkt, Looking)) == key ==>
          forall j :: 0 <= j < |e.threads| && e.threads[j].User? && Entries.Under(e.threads[j], key) ==>
            Done(e.threads[j].call))
    && (ev.Calling? && ev.c == Expire && Entries.Under(e.threads[ev.k], key) ==> CallAt(e, ev.k).op != RequestOnce)
  }

  ghost predicate DisciplinedRun(s: System, acts: seq<Action>, side: Side, key: Entries.Key)
    decreases |acts|
  {
    acts == [] ||
    (&& Can(s, acts[0]) && (acts[0].side == side ==> Disciplined(At(s, side), acts[0].ev, key))
     && DisciplinedRun(Do(s, acts[0]), acts[1..], side, key))
  }

  /** Of two calls under the key one at least has returned. */
  ghost predicate Apart(threads: seq<Thread>, key: Entries.Key) {
    forall j, k :: 0 <= j < k < |threads| && threads[j].User? && threads[k].User?
      && Entries.Under(threads[j], key) && Entries.Under(threads[k], key)
      ==> Done(threads[j].call) || Done(threads[k].call)
  }

  lemma ApartCall(e: Endpoint, k: nat, c: CallEvent, key: Entries.Key)
    requires Apart(e.threads, key) && CanCall(e, k, c)
    ensures Apart(CallStep(e, k, c).threads, key)
  {
    var after := CallStep(e, k, c).threads;
    forall j | 0 <= j < |after| && after[j].User?
      ensures e.threads[j].User? && (Entries.Under(after[j], key) <==> Entries.Under(e.threads[j], key))
      ensures Done(e.threads[j].call) ==> Done(after[j].call)
    {
    }
  }

  lemma ApartStep(e: Endpoint, ev: Event, key: Entries.Key)
    requires Apart(e.threads, key) && Enabled(e, ev) && Disciplined(e, ev, key)
    ensures Apart(Step(e, ev).threads, key)
  {
    match ev
    case Net(n) => if n != Deliver { NetFrame(e, n); }
    case Calling(k, c) => ApartCall(e, k, c, key);
    case Working(k, w) => WorkFrame(e, k, w);
    case Control(t) => ControlFrame(e, t);
  }

  lemma ApartCareful(s: System, a: Action, key: Entries.Key)
    requires Inv(s) && Can(s, a) && Apart(At(s, a.side).threads, key) && Disciplined(At(s, a.side), a.ev, key)
    ensures Careful(At(s, a.side), a.ev, key)
  {
    var e, ev := At(s, a.side), a.ev;
    if ev.Calling? && e.threads[ev.k].User? && ev.c == LoadOrStore && Entries.Under(e.threads[ev.k], key) {
      NoticeId(s, a.side, ev.k);
      forall j | 0 <= j < |e.threads| && Entries.Looping(e.threads[j]) ensures !Entries.Under(e.threads[j], key) {
        if e.threads[j].Worker? { ReplyId(s, a.side, j); } else if j < ev.k {} else if ev.k < j {}
      }
    }
  }

  lemma {:induction false} DisciplinedCareful(s: System, acts: seq<Action>, side: Side, key: Entries.Key)
    requires Inv(s) && Apart(At(s, side).threads, key) && DisciplinedRun(s, acts, side, key)
    ensures CarefulRun(s, acts, side, key)
    decreases |acts|
  {
    if acts != [] {
      if acts[0].side == side {
        ApartCareful(s, acts[0], key);
        ApartStep(At(s, side), acts[0].ev, key);
      }
      StepInv(s, acts[0]);
      DisciplinedCareful(Do(s, acts[0]), acts[1..], side, key);
    }
  }

  /** Callers that wait for a call to return before they use its id again, and whose unretried
      requests under that id are answered in time, never see a channel under it closed twice,
      whatever happens to requests under other ids. */
  lemma DisciplineSuffices(s: System, acts: seq<Action>, s1: System, side: Side, f: nat)
    requires Initial(s) && Reaches(s, acts, s1) && f < |At(s1, side).tabs.flies|
    requires DisciplinedRun(s, acts, side, Entries.EntryKey(At(s1, side).tabs, f))
    ensures ClosesOnce(At(s1, side), f)
  {
    InitialInv(s);
    DisciplinedCareful(s, acts, side, Entries.EntryKey(At(s1, side).tabs, f));
    ClosedAtMostOnce(s, acts, s1, side, f);
  }
}
