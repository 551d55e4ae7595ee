/**
 Two logged-in peers that exchange heartbeats over a connection that loses nothing, in
 milliseconds: when can either take the other for dead?
 */
module Heartbeat {

  const TICK := 1000

  /** `limit` is the heartbeat timeout, `delay` the longest a packet takes. */
  datatype Config = Config(limit: nat, delay: nat)

  /** Without other traffic for this long, a tick sends a heartbeat. */
  function Quiet(c: Config): nat { c.limit * 3 / 10 }

  /** `incoming` holds the sending times of the packets on their way to this peer. */
  datatype Peer = Peer(lastTx: nat, lastRx: nat, lastTick: nat, incoming: seq<nat>, timedOut: bool)

  datatype State = State(now: nat, a: Peer, b: Peer)

  datatype Side = A | B

  datatype Event = Tick(s: Side) | Send(s: Side) | Receive(s: Side, k: nat) | Pass(millis: nat)

  function Me(st: State, s: Side): Peer { if s == A then st.a else st.b }

  function Put(st: State, s: Side, me: Peer, other: Peer): State {
    if s == A then st.(a := me, b := other) else st.(a := other, b := me)
  }

  function Other(s: Side): Side { if s == A then B else A }

  /** A packet of any kind leaves `s`. */
  function Sent(st: State, s: Side): State {
    var other := Me(st, Other(s));
    Put(st, s, Me(st, s).(lastTx := st.now), other.(incoming := other.incoming + [st.now]))
  }

  /** The ticker case of the client's loop: first the heartbeat, then the check. */
  function Ticked(c: Config, st: State, s: Side): State
    requires Me(st, s).lastTx <= st.now && Me(st, s).lastRx <= st.now
  {
    var st1 := if st.now - Me(st, s).lastTx > Quiet(c) then Sent(st, s) else st;
    var me := Me(st1, s);
    Put(st1, s, me.(lastTick := st.now, timedOut := me.timedOut || st.now - me.lastRx > c.limit), Me(st1, Other(s)))
  }

  /** Time may not pass a peer's next tick or a packet's latest arrival. */
  predicate MayPass(c: Config, p: Peer, now: nat) {
    now <= p.lastTick + TICK && forall k :: 0 <= k < |p.incoming| ==> now <= p.incoming[k] + c.delay
  }

  predicate Can(c: Config, st: State, ev: Event) {
    match ev
    case Tick(s) => Me(st, s).lastTx <= st.now && Me(st, s).lastRx <= st.now
    case Send(s) => true
    case Receive(s, k) => k < |Me(st, s).incoming|
    case Pass(d) => MayPass(c, st.a, st.now + d) && MayPass(c, st.b, st.now + d)
  }

  function Do(c: Config, st: State, ev: Event): State
    requires Can(c, st, ev)
  {
    match ev
    case Tick(s) => Ticked(c, st, s)
    case Send(s) => Sent(st, s)
    case Receive(s, k) =>
      var me := Me(st, s);
      Put(st, s, me.(lastRx := st.now, incoming := me.incoming[..k] + me.incoming[k + 1..]), Me(st, Other(s)))
    case Pass(d) => st.(now := st.now + d)
  }

  ghost predicate Reaches(c: Config, st: State, evs: seq<Event>, st1: State)
    decreases |evs|
  {
    if evs == [] then st == st1 else Can(c, st, evs[0]) && Reaches(c, Do(c, st, evs[0]), evs[1..], st1)
  }

  /** Both peers have just exchanged packets and ticked. */
  function Start(now: nat): State {
    State(now, Peer(now, now, now, [], false), Peer(now, now, now, [], false))
  }

  // ---- safety ----

  /** The longest silence of a ticking peer. */
  function Gap(c: Config): nat { Quiet(c) + TICK }

  ghost predicate Heard(c: Config, me: Peer, other: Peer) {
    if me.incoming == [] then me.lastRx >= other.lastTx
    else exists k :: 0 <= k < |me.incoming| && me.lastRx + Gap(c) >= me.incoming[k]
  }

  /** One peer's side of the invariant: it has ticked lately, has sent lately, has heard of the
      other lately enough, and no packet to it is overdue. */
  ghost predicate PeerOk(c: Config, now: nat, me: Peer, other: Peer) {
    && me.lastTx <= now && me.lastRx <= now && me.lastTick <= now
    && now <= me.lastTick + TICK
    && me.lastTick <= me.lastTx + Quiet(c)
    && (forall k :: 0 <= k < |me.incoming| ==> me.incoming[k] <= now <= me.incoming[k] + c.delay)
    && Heard(c, me, other)
    && !me.timedOut
  }

  ghost predicate Inv(c: Config, st: State) {
    PeerOk(c, st.now, st.a, st.b) && PeerOk(c, st.now, st.b, st.a)
  }

  lemma NotLate(c: Config, now: nat, me: Peer, other: Peer)
    requires PeerOk(c, now, me, other) && PeerOk(c, now, other, me) && Gap(c) + c.delay <= c.limit
    ensures now - me.lastRx <= c.limit
  {
  }

  lemma SentKeeps(c: Config, st: State, s: Side)
    requires Inv(c, st)
    ensures Inv(c, Sent(st, s))
  {
    var me, other := Me(st, s), Me(st, Other(s));
    var to := Me(Sent(st, s), Other(s));
    assert Heard(c, to, Me(Sent(st, s), s)) by {
      if other.incoming == [] {
        assert to.incoming[0] == st.now;
      } else {
        var k :| 0 <= k < |other.incoming| && other.lastRx + Gap(c) >= other.incoming[k];
        assert to.incoming[k] == other.incoming[k];
      }
    }
  }

  /** A tick that has nothing more to send and finds its peer recent only moves its own clock. */
  lemma ClockKeeps(c: Config, st: State, s: Side)
    requires Inv(c, st) && st.now <= Me(st, s).lastTx + Quiet(c)
    ensures Inv(c, Put(st, s, Me(st, s).(lastTick := st.now), Me(st, Other(s))))
  {
  }

  lemma TickKeeps(c: Config, st: State, s: Side)
    requires Inv(c, st) && Can(c, st, Tick(s)) && Gap(c) + c.delay <= c.limit
    ensures Inv(c, Ticked(c, st, s))
  {
    NotLate(c, st.now, Me(st, s), Me(st, Other(s)));
    var st1 := if st.now - Me(st, s).lastTx > Quiet(c) then Sent(st, s) else st;
    if st.now - Me(st, s).lastTx > Quiet(c) { SentKeeps(c, st, s); }
    ClockKeeps(c, st1, s);
    var me := Me(st1, s);
    assert me.lastRx == Me(st, s).lastRx && !me.timedOut;
    assert me.(lastTick := st.now, timedOut := false) == me.(lastTick := st.now);
  }

  lemma ReceiveKeeps(c: Config, st: State, s: Side, k: nat)
    requires Inv(c, st) && Can(c, st, Receive(s, k))
    ensures Inv(c, Do(c, st, Receive(s, k)))
  {
    var before, after := Me(st, s), Me(Do(c, st, Receive(s, k)), s);
    forall i | 0 <= i < |after.incoming|
      ensures after.incoming[i] <= st.now <= after.incoming[i] + c.delay
    {
      assert after.incoming[i] == before.incoming[if i < k then i else i + 1];
    }
    if after.incoming != [] {
      assert after.lastRx + Gap(c) >= after.incoming[0];
    }
  }

  lemma StepKeeps(c: Config, st: State, ev: Event)
    requires Inv(c, st) && Can(c, st, ev) && Gap(c) + c.delay <= c.limit
    ensures Inv(c, Do(c, st, ev))
  {
    match ev
    case Tick(s) => TickKeeps(c, st, s);
    case Send(s) => SentKeeps(c, st, s);
    case Receive(s, k) => ReceiveKeeps(c, st, s, k);
    case Pass(_) =>
  }

  lemma {:induction false} RunKeeps(c: Config, st: State, evs: seq<Event>, st1: State)
    requires Inv(c, st) && Reaches(c, st, evs, st1) && Gap(c) + c.delay <= c.limit
    ensures Inv(c, st1)
    decreases |evs|
  {
    if evs != [] {
      StepKeeps(c, st, evs[0]);
      RunKeeps(c, Do(c, st, evs[0]), evs[1..], st1);
    }
  }

  /** Traffic stands in for heartbeats: what leaves on a send is one packet, and a tick adds one only
      when nothing has left for longer than three tenths of the timeout. */
  lemma OneEach(c: Config, st: State, s: Side)
    ensures var st1 := Do(c, st, Send(s));
            && Me(st1, Other(s)).incoming == Me(st, Other(s)).incoming + [st.now]
            && (Can(c, st1, Tick(s)) ==> Me(Do(c, st1, Tick(s)), Other(s)).incoming == Me(st1, Other(s)).incoming)
    ensures Can(c, st, Tick(s)) ==>
              Me(Do(c, st, Tick(s)), Other(s)).incoming ==
                Me(st, Other(s)).incoming + (if st.now - Me(st, s).lastTx > c.limit * 3 / 10 then [st.now] else [])
  {
  }

  // ---- the bound is exact ----

  ghost predicate Reachable(c: Config, st: State, st1: State) {
    exists evs :: Reaches(c, st, evs, st1)
  }

  lemma {:induction false} Extend(c: Config, st: State, evs: seq<Event>, st1: State, ev: Event)
    requires Reaches(c, st, evs, st1) && Can(c, st1, ev)
    ensures Reaches(c, st, evs + [ev], Do(c, st1, ev))
    decreases |evs|
  {
    var all := evs + [ev];
    if evs == [] {
      assert all[1..] == [];
    } else {
      Extend(c, Do(c, st, evs[0]), evs[1..], st1, ev);
      assert all[0] == evs[0] && all[1..] == evs[1..] + [ev];
    }
  }

  lemma Go(c: Config, st: State, st1: State, ev: Event) returns (st2: State)
    requires Reachable(c, st, st1) && Can(c, st1, ev)
    ensures Reachable(c, st, st2) && st2 == Do(c, st1, ev)
  {
    var evs :| Reaches(c, st, evs, st1);
    Extend(c, st, evs, st1, ev);
    st2 := Do(c, st1, ev);
  }

  /** Up to the quiet time, ticking peers send nothing. */
  lemma {:induction false} StaySilent(c: Config, start: nat, quiet: nat) returns (st: State)
    requires quiet <= Quiet(c)
    ensures Reachable(c, Start(start), st)
    ensures st == State(start + quiet, Peer(start, start, start + quiet, [], false),
                        Peer(start, start, start + quiet, [], false))
  {
    if quiet == 0 {
      st := Start(start);
      assert Reaches(c, Start(start), [], st);
    } else {
      st := StaySilent(c, start, quiet - 1);
      st := Go(c, Start(start), st, Pass(1));
      st := Go(c, Start(start), st, Tick(A));
      st := Go(c, Start(start), st, Tick(B));
    }
  }

  /** A has heard nothing since `heard`, whatever is on its way to it was sent at `sent` or later,
      and B is kept informed. */
  ghost predicate Deaf(st: State, heard: nat, sent: nat) {
    && st.a.lastRx == heard && st.a.lastTx <= st.now && heard <= st.now
    && st.b.lastTx <= st.now && st.b.lastRx <= st.now
    && st.a.lastTick == st.now && st.b.lastTick == st.now
    && (forall k :: 0 <= k < |st.a.incoming| ==> st.a.incoming[k] >= sent)
    && st.b.incoming == []
  }

  lemma Informs(c: Config, st: State, st1: State, heard: nat, sent: nat) returns (st2: State)
    requires Reachable(c, st, st1) && st1.a.lastRx == heard && st1.b.incoming == [] && sent <= st1.now
    requires st1.a.lastTx <= st1.now && heard <= st1.now && st1.b.lastTx <= st1.now && st1.b.lastRx <= st1.now
    requires forall k :: 0 <= k < |st1.a.incoming| ==> st1.a.incoming[k] >= sent
    ensures Reachable(c, st, st2) && Deaf(st2, heard, sent) && st2.now == st1.now
    ensures st1.now - heard > c.limit ==> st2.a.timedOut
  {
    st2 := Go(c, st, st1, Tick(A));
    if st2.b.incoming != [] {
      st2 := Go(c, st, st2, Receive(B, 0));
      assert st2.b.incoming == [];
    }
    var mid := st2;
    st2 := Go(c, st, mid, Tick(B));
    forall k | 0 <= k < |st2.a.incoming| ensures st2.a.incoming[k] >= sent {
      if k < |mid.a.incoming| { assert st2.a.incoming[k] == mid.a.incoming[k]; }
    }
  }

  /** As long as no packet to A is overdue, A can stay deaf. */
  lemma {:induction false} StayDeaf(c: Config, st: State, st1: State, heard: nat, sent: nat, millis: nat)
    returns (st2: State)
    requires Reachable(c, st, st1) && Deaf(st1, heard, sent) && sent <= st1.now
    requires st1.now + millis <= sent + c.delay
    ensures Reachable(c, st, st2) && Deaf(st2, heard, sent) && st2.now == st1.now + millis
    decreases millis
  {
    if millis == 0 { st2 := st1; } else {
      st2 := Go(c, st, st1, Pass(1));
      st2 := Informs(c, st, st2, heard, sent);
      st2 := StayDeaf(c, st, st2, heard, sent, millis - 1);
    }
  }

  /** The worst run: B ticks just too early to send, a second later sends its heartbeat, and the
      heartbeat takes as long as a packet may. */
  lemma WorstCase(c: Config, start: nat) returns (st: State)
    requires Gap(c) + c.delay > c.limit
    ensures Reachable(c, Start(start), st) && st.a.timedOut
  {
    st := StaySilent(c, start, Quiet(c));
    st := Go(c, Start(start), st, Pass(TICK));
    st := Informs(c, Start(start), st, start, start + Gap(c));
    st := StayDeaf(c, Start(start), st, start, start + Gap(c), c.delay);
    st := Informs(c, Start(start), st, start, start + Gap(c));
  }

  /** In a loss-free run from a recent exchange neither peer ever takes the other for dead exactly
      when the quiet time, one tick and the longest delay fit into the timeout. */
  lemma HeartbeatBound(c: Config, start: nat)
    ensures (forall st :: Reachable(c, Start(start), st) ==> !st.a.timedOut && !st.b.timedOut) <==>
              c.limit * 3 / 10 + 1000 + c.delay <= c.limit
  {
    if Gap(c) + c.delay <= c.limit {
      forall st | Reachable(c, Start(start), st) ensures !st.a.timedOut && !st.b.timedOut {
        var evs :| Reaches(c, Start(start), evs, st);
        RunKeeps(c, Start(start), evs, st);
      }
    } else {
      var st := WorstCase(c, start);
    }
  }
}
