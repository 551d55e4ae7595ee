/**
 The login gate: what a hub-side client has been through before it is LOGINED and before it
 dispatches anything but handshake packets, and exactly which late packets break this.
 */
module LoginGate {
  import opened Basics
  import opened Endpoint
  import opened Connection
  import opened Runs
  import Logins
  import Traffic
  import Workers
  import Counterexamples

  /** Between connect and disconnect, a hub that is still CONNECTED holds nothing but
      acknowledgements, responses and exchange requests, queued or being worked on. */
  lemma ConnectedHoldsExchangeOnly(s: System, acts: seq<Action>, s1: System, pkt: Packet)
    requires Initial(s) && Reaches(s, acts, s1)
    requires s1.hub.link == Up && s1.hub.state == Connected
    requires
      || s1.hub.reading == Some(pkt) || pkt in s1.hub.rxQueue || Dispatched(pkt) in s1.hub.log
      || exists k :: 0 <= k < |s1.hub.threads| && s1.hub.threads[k].Worker? && s1.hub.threads[k].req == pkt
    ensures ExchangePacket(pkt)
  {
    InitialInv(s);
    RunInv(s, acts, s1);
    if k :| 0 <= k < |s1.hub.threads| && s1.hub.threads[k].Worker? && s1.hub.threads[k].req == pkt {
      assert Workers.WorkerOk(s1.hub.threads[k], s1.hub.handlingReq, s1.hub.log);
    }
    if Dispatched(pkt) in s1.hub.log { Logins.DispatchedAdmissible(s1.hub, ANYTHING, pkt); }
  }

  // ---- what a log shows ----

  ghost predicate Handles(m: Mark, meth: Method) {
    m.Ran? && m.req.Request? && m.req.meth == meth && m.resp.Response? && m.resp.error == ""
  }

  ghost predicate Enters(m: Mark, to: ConnState) {
    m.Entered? && m.to == to
  }

  /** Before mark `k` an exchange ran without error, then the secret was in force, then a login ran
      without error. */
  ghost predicate ChainBefore(log: seq<Mark>, k: nat)
    requires k <= |log|
  {
    exists a, b, c :: 0 <= a < b < c < k
      && Handles(log[a], ExchangeSecret) && Enters(log[b], ExchangedSecret) && Handles(log[c], Login)
  }

  ghost predicate EnteredBefore(log: seq<Mark>, k: nat, to: ConnState)
    requires k <= |log|
  {
    exists i :: 0 <= i < k && Enters(log[i], to)
  }

  lemma Before(log: seq<Mark>, k: nat, to: ConnState)
    requires k <= |log|
    ensures EnteredBefore(log, k, to) <==> Logins.EnteredIn(log[..k], to)
  {
    if i :| 0 <= i < k && Enters(log[i], to) { assert log[i] in log[..k]; }
    if m :| m in log[..k] && m.Entered? && m.to == to {
      var i := Witness(log, k, m);
      assert Enters(log[i], to);
    }
  }

  lemma Witness(log: seq<Mark>, k: nat, m: Mark) returns (i: nat)
    requires k <= |log| && m in log[..k]
    ensures i < k && log[i] == m
  {
    i :| 0 <= i < k && log[..k][i] == m;
  }

  lemma RanBefore(log: seq<Mark>, k: nat, meth: Method) returns (i: nat)
    requires k <= |log| && Logins.RanOk(log[..k], meth)
    ensures i < k && Handles(log[i], meth)
  {
    var m :| m in log[..k] && Handles(m, meth);
    i := Witness(log, k, m);
  }

  /** A lawful log has the chain before every LOGINED that no late login excuses. */
  lemma Chain(pol: Logins.Policy, log: seq<Mark>, k: nat)
    requires pol.crypto && pol.needLogin && Logins.GateLog(pol, log) && k < |log| && Enters(log[k], Logined)
    requires Workers.WorkerLog(log) && !Logins.LoginExempt(pol, log[..k])
    ensures ChainBefore(log, k)
  {
    Logins.MarkAt(pol, log, k);
    var c := RanBefore(log, k, Login);
    Workers.RanMeans(log, log[c].req, log[c].resp);
    var b := SecretBefore(pol, log, k, c);
    var a := ExchangeBefore(pol, log, k, b);
  }

  lemma NotExempt(pol: Logins.Policy, log: seq<Mark>, i: nat, k: nat)
    requires i <= k <= |log| && !Logins.LoginExempt(pol, log[..k])
    ensures !Logins.LoginExempt(pol, log[..i])
    ensures forall req :: Logins.LoginRequest(req) ==> !Logins.Exempt(pol, log[..i], req)
  {
    assert log[..k][..i] == log[..i];
    Logins.Grows(log[..k], i);
  }

  lemma SecretBefore(pol: Logins.Policy, log: seq<Mark>, k: nat, c: nat) returns (b: nat)
    requires pol.needLogin && Logins.GateLog(pol, log) && c < k <= |log| && !Logins.LoginExempt(pol, log[..k])
    requires Handles(log[c], Login) && log[c].req.id != NoId
    ensures b < c && Enters(log[b], ExchangedSecret)
  {
    Logins.MarkAt(pol, log, c);
    NotExempt(pol, log, c, k);
    var m :| m in log[..c] && Enters(m, ExchangedSecret);
    b := Witness(log, c, m);
  }

  lemma ExchangeBefore(pol: Logins.Policy, log: seq<Mark>, k: nat, b: nat) returns (a: nat)
    requires pol.crypto && Logins.GateLog(pol, log) && b < k <= |log| && !Logins.LoginExempt(pol, log[..k])
    requires Enters(log[b], ExchangedSecret)
    ensures a < b && Handles(log[a], ExchangeSecret)
  {
    Logins.MarkAt(pol, log, b);
    NotExempt(pol, log, b, k);
    a := RanBefore(log, b, ExchangeSecret);
  }

  // ---- up to the disconnection, in every run ----

  /** A hub with encryption and login enabled becomes LOGINED only after an exchange ran without
      error, then the secret was in force, then a login ran without error. */
  lemma LoginChain(s: System, acts: seq<Action>, s1: System, k: nat)
    requires Initial(s) && Reaches(s, acts, s1) && s1.hub.crypto && s1.hub.needLogin
    requires k < |s1.hub.log| && Enters(s1.hub.log[k], Logined) && !EnteredBefore(s1.hub.log, k, Disconnected)
    ensures ChainBefore(s1.hub.log, k)
  {
    InitialInv(s);
    RunInv(s, acts, s1);
    Before(s1.hub.log, k, Disconnected);
    Chain(Logins.Of(s1.hub, ANYTHING), s1.hub.log, k);
  }

  /** With login required, nothing but handshake packets is dispatched before the first LOGINED. */
  lemma HandshakeBeforeLogin(s: System, acts: seq<Action>, s1: System, k: nat)
    requires Initial(s) && Reaches(s, acts, s1) && s1.hub.needLogin
    requires k < |s1.hub.log| && s1.hub.log[k].Dispatched? && !HandshakePacket(s1.hub.log[k].pkt)
    requires !EnteredBefore(s1.hub.log, k, Disconnected)
    ensures EnteredBefore(s1.hub.log, k, Logined)
  {
    InitialInv(s);
    RunInv(s, acts, s1);
    Before(s1.hub.log, k, Disconnected);
    Logins.MarkAt(Logins.Of(s1.hub, ANYTHING), s1.hub.log, k);
    Before(s1.hub.log, k, Logined);
  }

  // ---- and beyond it, exactly ----

  ghost predicate ChainSound(g: Setting, log: seq<Mark>) {
    g.crypto && g.needLogin ==> forall k :: 0 <= k < |log| && Enters(log[k], Logined) ==> ChainBefore(log, k)
  }

  ghost predicate HandshakeFirst(g: Setting, log: seq<Mark>) {
    g.needLogin ==>
      forall k :: 0 <= k < |log| && log[k].Dispatched? && !HandshakePacket(log[k].pkt) ==>
        EnteredBefore(log, k, Logined)
  }

  /** What a dialing client can send at all. */
  predicate FromDialer(pkt: Packet) {
    pkt.Ack? || pkt.Response?
    || Traffic.OwnPacket(Dialer, if pkt.Request? then RequestWithRetry else SendWithRetry, pkt)
  }

  ghost function Arriving(late: iset<Packet>): iset<Packet> {
    iset p | p in late && FromDialer(p)
  }

  /** Of the late packets only those that the dialer can send matter. */
  lemma {:induction false} Lawful(s: System, acts: seq<Action>, s1: System, late: iset<Packet>)
    requires Inv(s) && Reaches(s, acts, s1) && PunctualRun(s, acts, late) && Logins.Inv(s.hub, Arriving(late))
    ensures Inv(s1) && Logins.Inv(s1.hub, Arriving(late))
    decreases |acts|
  {
    if acts != [] {
      var a := acts[0];
      if a.side == Hub {
        if a.ev.Net? && a.ev.n.Receive? {
          assert Traffic.SentOk(s.dialer.side, s.dialer.threads, s.dialer.log, a.ev.n.pkt);
        }
        Logins.Preserved(s.hub, Arriving(late), a.ev);
      }
      StepInv(s, a);
      Lawful(Do(s, a), acts[1..], s1, late);
    }
  }

  lemma ReachableLawful(g: Setting, s: System)
    requires Reachable(g, s)
    ensures Inv(s) && Logins.GateLog(Logins.Policy(g.crypto, g.needLogin, Arriving(g.late)), s.hub.log)
  {
    var acts :| Reaches(Start(g), acts, s) && PunctualRun(Start(g), acts, g.late);
    InitialInv(Start(g));
    Lawful(Start(g), acts, s, g.late);
    SameOptions(Start(g), acts, s);
  }

  lemma {:induction false} SameOptions(s: System, acts: seq<Action>, s1: System)
    requires Reaches(s, acts, s1)
    ensures s1.hub.crypto == s.hub.crypto && s1.hub.needLogin == s.hub.needLogin
    decreases |acts|
  {
    if acts != [] { SameOptions(Do(s, acts[0]), acts[1..], s1); }
  }

  lemma ChainWithout(g: Setting, s: System)
    requires Reachable(g, s) && forall p :: p in Arriving(g.late) ==> !Logins.LoginRequest(p)
    ensures ChainSound(g, s.hub.log)
  {
    ReachableLawful(g, s);
    var pol, log := Logins.Policy(g.crypto, g.needLogin, Arriving(g.late)), s.hub.log;
    if g.crypto && g.needLogin {
      forall k | 0 <= k < |log| && Enters(log[k], Logined) ensures ChainBefore(log, k) { Chain(pol, log, k); }
    }
  }

  /** A late login request breaks the chain: the hub becomes LOGINED without an exchange. */
  lemma ChainBroken(g: Setting, p: Packet) returns (s: System)
    requires g.crypto && g.needLogin && p in Arriving(g.late) && Logins.LoginRequest(p)
    ensures Reachable(g, s) && !ChainSound(g, s.hub.log)
  {
    s := Counterexamples.LateLogin(g, p, "");
    var log := s.hub.log;
    var m :| m in log && Enters(m, Logined);
    var k :| 0 <= k < |log| && log[k] == m;
    forall i | 0 <= i < k ensures !Handles(log[i], ExchangeSecret) { assert log[i] in log; }
    assert !ChainBefore(log, k);
  }

  /** The chain precedes every LOGINED of every run exactly when no login request can arrive after
      the disconnection, where the gate is open. */
  lemma ChainExactly(g: Setting)
    ensures (forall s :: Reachable(g, s) ==> ChainSound(g, s.hub.log)) <==>
              !(g.crypto && g.needLogin) || forall p :: p in Arriving(g.late) ==> !Logins.LoginRequest(p)
  {
    if !(g.crypto && g.needLogin) {
    } else if p :| p in Arriving(g.late) && Logins.LoginRequest(p) {
      var s := ChainBroken(g, p);
    } else {
      forall s | Reachable(g, s) ensures ChainSound(g, s.hub.log) { ChainWithout(g, s); }
    }
  }

  lemma HandshakeWithout(g: Setting, s: System)
    requires Reachable(g, s) && forall p :: p in Arriving(g.late) ==> HandshakePacket(p)
    ensures HandshakeFirst(g, s.hub.log)
  {
    ReachableLawful(g, s);
    var pol, log := Logins.Policy(g.crypto, g.needLogin, Arriving(g.late)), s.hub.log;
    if g.needLogin {
      forall k | 0 <= k < |log| && log[k].Dispatched? && !HandshakePacket(log[k].pkt)
        ensures EnteredBefore(log, k, Logined)
      {
        Logins.MarkAt(pol, log, k);
        Before(log, k, Logined);
      }
    }
  }

  /** Any other late packet breaks the order: it is dispatched although nobody has logged in. */
  lemma HandshakeBroken(g: Setting, p: Packet) returns (s: System)
    requires g.needLogin && p in Arriving(g.late) && !HandshakePacket(p)
    ensures Reachable(g, s) && !HandshakeFirst(g, s.hub.log)
  {
    s := Counterexamples.LateDispatch(g, if p.Request? then RequestWithRetry else SendWithRetry, p);
    var log := s.hub.log;
    var k :| 0 <= k < |log| && log[k] == Dispatched(p);
    Before(log, k, Logined);
    Logins.Grows(log, k);
  }

  /** Nothing but handshake packets is dispatched before the first LOGINED of any run exactly when
      nothing else can arrive after the disconnection. */
  lemma HandshakeExactly(g: Setting)
    ensures (forall s :: Reachable(g, s) ==> HandshakeFirst(g, s.hub.log)) <==>
              !g.needLogin || forall p :: p in Arriving(g.late) ==> HandshakePacket(p)
  {
    if !g.needLogin {
    } else if p :| p in Arriving(g.late) && !HandshakePacket(p) {
      var s := HandshakeBroken(g, p);
    } else {
      forall s | Reachable(g, s) ensures HandshakeFirst(g, s.hub.log) { HandshakeWithout(g, s); }
    }
  }
}
