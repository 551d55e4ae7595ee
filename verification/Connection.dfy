/**
 Both sides of a connection and the network between them. Everything ever sent may be
 delivered at any time, any number of times, in any order, or never.
 */
module Connection {
  import opened Endpoint
  import Workers
  import Entries
  import Answers
  import Traffic
  import Logins
  import Causes

  datatype System = System(dialer: Endpoint, hub: Endpoint)

  datatype Action = Action(side: Side, ev: Event)

  function At(s: System, side: Side): Endpoint {
    if side == Hub then s.hub else s.dialer
  }

  function Other(side: Side): Side {
    if side == Hub then Dialer else Hub
  }

  predicate Can(s: System, a: Action) {
    && Enabled(At(s, a.side), a.ev)
    && (a.ev.Net? && a.ev.n.Receive? ==> a.ev.n.pkt in At(s, Other(a.side)).sent)
  }

  function Do(s: System, a: Action): System
    requires Can(s, a)
  {
    var e1 := Step(At(s, a.side), a.ev);
    if a.side == Hub then s.(hub := e1) else s.(dialer := e1)
  }

  /** `acts` is a run from `s` to `s1`. */
  ghost predicate Reaches(s: System, acts: seq<Action>, s1: System)
    decreases |acts|
  {
    if acts == [] then s == s1 else Can(s, acts[0]) && Reaches(Do(s, acts[0]), acts[1..], s1)
  }

  /** A connection before anything has happened; the two sides may be configured differently. */
  ghost predicate Initial(s: System) {
    && s.dialer == Init(Dialer, s.dialer.crypto, s.dialer.needLogin)
    && s.hub == Init(Hub, s.hub.crypto, s.hub.needLogin)
  }

  // ---- the invariant of every run ----

  /** The transport of a connection may hand over whatever it still holds after a disconnection. */
  ghost const ANYTHING := iset p: Packet | true

  ghost predicate Local(e: Endpoint) {
    && Workers.Inv(e) && Entries.Shape(e.tabs, e.threads) && Answers.Inv(e)
    && Traffic.Inv(e) && Logins.Inv(e, ANYTHING) && Causes.Inv(e)
  }

  /** What has arrived at `e` was sent by `p`. */
  ghost predicate FromPeer(e: Endpoint, p: Endpoint) {
    && (e.reading.Some? ==> e.reading.value in p.sent)
    && (forall q :: q in e.rxQueue ==> q in p.sent)
    && (forall q :: Dispatched(q) in e.log ==> q in p.sent)
  }

  ghost predicate Inv(s: System) {
    && s.dialer.side == Dialer && s.hub.side == Hub
    && Local(s.dialer) && Local(s.hub)
    && FromPeer(s.dialer, s.hub) && FromPeer(s.hub, s.dialer)
  }

  lemma LocalStep(e: Endpoint, ev: Event)
    requires Local(e) && Enabled(e, ev)
    ensures Local(Step(e, ev))
  {
    Workers.Preserved(e, ev);
    Entries.ShapeStep(e, ev);
    Answers.Preserved(e, ev);
    Traffic.Preserved(e, ev);
    Logins.Preserved(e, ANYTHING, ev);
    Causes.Preserved(e, ev);
  }

  /** Only Receive takes packets in; nothing is ever unsent or undone in the log. */
  lemma Arrivals(e: Endpoint, ev: Event, p: Endpoint)
    requires Enabled(e, ev) && FromPeer(e, p)
    requires ev.Net? && ev.n.Receive? ==> ev.n.pkt in p.sent
    ensures FromPeer(Step(e, ev), p)
    ensures Step(e, ev).side == e.side && e.sent <= Step(e, ev).sent
  {
    match ev
    case Net(n) =>
      if n == Deliver {
        assert e.rxQueue[0] in e.rxQueue;
        assert forall q :: q in e.rxQueue[1..] ==> q in e.rxQueue;
      } else { NetFrame(e, n); }
    case Calling(k, c) =>
    case Working(k, w) => WorkFrame(e, k, w);
    case Control(t) => ControlFrame(e, t);
  }

  lemma StepInv(s: System, a: Action)
    requires Inv(s) && Can(s, a)
    ensures Inv(Do(s, a))
  {
    LocalStep(At(s, a.side), a.ev);
    Arrivals(At(s, a.side), a.ev, At(s, Other(a.side)));
  }

  lemma InitialInv(s: System)
    requires Initial(s)
    ensures Inv(s)
  {
  }

  lemma {:induction false} RunInv(s: System, acts: seq<Action>, s1: System)
    requires Inv(s) && Reaches(s, acts, s1)
    ensures Inv(s1)
    decreases |acts|
  {
    if acts != [] {
      StepInv(s, acts[0]);
      RunInv(Do(s, acts[0]), acts[1..], s1);
    }
  }
}
