/**
 Two-phase login, exactly: which outcomes of handlers, and whether disposal, may occur for every
 worker's state change to be preceded by the peer's receipt of a successful response.
 */
module TwoPhase {
  import opened Endpoint
  import opened Connection
  import opened Runs
  import Causes
  import Traffic
  import Workers
  import Counterexamples
  import Guarantees

  /** What handlers may do: fail a request with an error, or succeed, which is the error "". */
  type Outcomes = iset<(Packet, string)>

  /** Handlers on the hub have only done what `outcomes` permits, and it is disposed only if it may be. */
  ghost predicate Allowed(s: System, outcomes: Outcomes, disposal: bool) {
    && (forall m :: m in s.hub.log && m.Ran? && m.resp.Response? ==> (m.req, m.resp.error) in outcomes)
    && (s.hub.disposed ==> disposal)
  }

  ghost predicate Confirmed(s: System, req: Packet) {
    exists resp :: Guarantees.PeerHasResponse(s, Hub, req, resp) && resp.error == ""
  }

  /** Whatever request a worker changed the hub's state for, the dialer has its success. */
  ghost predicate Sound(s: System) {
    forall m :: m in s.hub.log && m.Entered? && m.cause.ByWorker? ==> Confirmed(s, m.cause.req)
  }

  /** A request of the dialer that can change the hub's state. */
  predicate Handshake(req: Packet) {
    && req.Request? && (req.meth == ExchangeSecret || req.meth == Login)
    && req.id.ReqId? && req.id.minter == Dialer
  }

  /** The request may succeed, and also fail or be cut off by a disposal. */
  ghost predicate Risky(req: Packet, outcomes: Outcomes, disposal: bool) {
    Handshake(req) && (req, "") in outcomes && (disposal || exists e :: e != "" && (req, e) in outcomes)
  }

  /** The request behind a worker's change came from the dialer and has succeeded here. */
  lemma Origin(s: System, k: nat)
    requires Inv(s) && k < |s.hub.log| && s.hub.log[k].Entered? && s.hub.log[k].cause.ByWorker?
    ensures var req := s.hub.log[k].cause.req;
            Handshake(req) && exists ok :: Ran(req, ok) in s.hub.log && ok.Response? && ok.error == ""
  {
    var log := s.hub.log;
    var req := log[k].cause.req;
    Causes.Evidence(log, k);
    var ok :| Ran(req, ok) in log[..k] && ok.Response? && ok.error == "";
    assert Ran(req, ok) in log;
    Workers.RanMeans(log, req, ok);
    assert Traffic.SentOk(s.dialer.side, s.dialer.threads, s.dialer.log, req);
  }

  lemma SoundAt(s: System, acts: seq<Action>, s1: System, outcomes: Outcomes, k: nat)
    requires Initial(s) && Reaches(s, acts, s1) && Allowed(s1, outcomes, false)
    requires forall req :: !Risky(req, outcomes, false)
    requires k < |s1.hub.log| && s1.hub.log[k].Entered? && s1.hub.log[k].cause.ByWorker?
    ensures Confirmed(s1, s1.hub.log[k].cause.req)
  {
    InitialInv(s);
    RunInv(s, acts, s1);
    var log := s1.hub.log;
    var req := log[k].cause.req;
    Origin(s1, k);
    assert log[k] in log;
    var ok :| Ran(req, ok) in log && ok.Response? && ok.error == "";
    assert Ran(req, ok).req == req && (req, "") in outcomes;
    forall r | Ran(req, r) in log ensures r.Response? && r.error == "" {
      Guarantees.ResponseOf(s1.hub, req, r);
      assert (Ran(req, r).req, Ran(req, r).resp.error) in outcomes;
      assert !Risky(req, outcomes, false);
    }
    Guarantees.TwoPhase(s, acts, s1, Hub, k);
  }

  /** Whatever the configuration: without disposal, and if no handshake request both succeeds and
      fails, every worker's change is confirmed. */
  lemma SoundWithout(s: System, acts: seq<Action>, s1: System, outcomes: Outcomes)
    requires Initial(s) && Reaches(s, acts, s1) && Allowed(s1, outcomes, false)
    requires forall req :: !Risky(req, outcomes, false)
    ensures Sound(s1)
  {
    var log := s1.hub.log;
    forall m | m in log && m.Entered? && m.cause.ByWorker? ensures Confirmed(s1, m.cause.req) {
      var k :| 0 <= k < |log| && log[k] == m;
      SoundAt(s, acts, s1, outcomes, k);
    }
  }

  /** In particular when the request decides its outcome, as it does in the hub's own handlers. */
  lemma SoundWhenDecided(s: System, acts: seq<Action>, s1: System, error: Packet -> string)
    requires Initial(s) && Reaches(s, acts, s1) && !s1.hub.disposed
    requires forall m :: m in s1.hub.log && m.Ran? && m.resp.Response? ==> m.resp.error == error(m.req)
    ensures Sound(s1)
  {
    var outcomes := iset req: Packet :: (req, error(req));
    SoundWithout(s, acts, s1, outcomes);
  }

  /** A worker's change always comes from a request that may succeed. */
  lemma MaySucceed(s: System, outcomes: Outcomes, k: nat)
    requires Inv(s) && Allowed(s, outcomes, true)
    requires k < |s.hub.log| && s.hub.log[k].Entered? && s.hub.log[k].cause.ByWorker?
    ensures Risky(s.hub.log[k].cause.req, outcomes, true)
  {
    var log := s.hub.log;
    var req := log[k].cause.req;
    Origin(s, k);
    var ok :| Ran(req, ok) in log && ok.Response? && ok.error == "";
    assert Ran(req, ok).req == req && (req, ok.error) in outcomes;
  }

  lemma SoundOrRisky(s: System, acts: seq<Action>, s1: System, outcomes: Outcomes, disposal: bool)
    requires Initial(s) && Reaches(s, acts, s1) && Allowed(s1, outcomes, disposal)
    ensures Sound(s1) || exists req :: Risky(req, outcomes, disposal)
  {
    if !disposal {
      if forall req :: !Risky(req, outcomes, false) { SoundWithout(s, acts, s1, outcomes); }
    } else {
      InitialInv(s);
      RunInv(s, acts, s1);
      QuietOrRisky(s1, outcomes);
    }
  }

  lemma QuietOrRisky(s: System, outcomes: Outcomes)
    requires Inv(s) && Allowed(s, outcomes, true)
    ensures Sound(s) || exists req :: Risky(req, outcomes, true)
  {
    if m :| m in s.hub.log && m.Entered? && m.cause.ByWorker? {
      var k :| 0 <= k < |s.hub.log| && s.hub.log[k] == m;
      MaySucceed(s, outcomes, k);
    }
  }

  /** Any risky request breaks it: received while the gate lets it through, or else after a
      disconnection. */
  lemma Unsound(g: Setting, req: Packet, outcomes: Outcomes, disposal: bool) returns (s: System)
    requires g.late == ANYTHING && Risky(req, outcomes, disposal)
    ensures Reachable(g, s) && Allowed(s, outcomes, disposal) && !Sound(s)
  {
    var down := !Gate(Counterexamples.StateAt(g, false), req);
    if disposal {
      s := Counterexamples.DisposedHandshake(g, down, req, "");
    } else {
      var error :| error != "" && (req, error) in outcomes;
      s := Counterexamples.StaleAckHandshake(g, down, req, error, "");
    }
    assert !Confirmed(s, req);
  }

  /** For every configuration, all runs are sound exactly when no handshake request that may succeed
      may also fail, or be answered by a client that may be disposed. */
  lemma Exactly(crypto: bool, needLogin: bool, outcomes: Outcomes, disposal: bool)
    ensures var g := Setting(crypto, needLogin, ANYTHING);
            (forall s :: Reachable(g, s) && Allowed(s, outcomes, disposal) ==> Sound(s))
            <==> forall req :: !Risky(req, outcomes, disposal)
  {
    var g := Setting(crypto, needLogin, ANYTHING);
    if req :| Risky(req, outcomes, disposal) {
      var s := Unsound(g, req, outcomes, disposal);
    } else {
      forall s | Reachable(g, s) && Allowed(s, outcomes, disposal) ensures Sound(s) {
        var acts :| Reaches(Start(g), acts, s);
        SoundOrRisky(Start(g), acts, s, outcomes, disposal);
      }
    }
  }
}
