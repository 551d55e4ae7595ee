/**
 A hub-side client's connection and its place in the registry together: for which configurations
 do the logins of a connection make a lawful history of the registry?
 */
module Sessions {
  import opened Basics
  import opened Endpoint
  import opened Connection
  import opened Runs
  import opened Dialogues
  import R = Registry
  import Disposal
  import Workers
  import Logins
  import LoginGate

  /** What the parameters of a login ask to be known as. */
  datatype Identity = Identity(id: string, home: R.Space)

  /** The hub's login handler has run without error. */
  ghost predicate Names(m: Mark) {
    LoginGate.Handles(m, Login)
  }

  // ---- the registry along a log ----

  /** What a mark does to the registry: the login handler sets the identity, OnLogin runs
      onClientLogin. */
  ghost function OpOf<H>(h: H, who: string -> Identity, m: Mark): Option<R.Op<H>> {
    if m.LoginFired? then Some(R.OpLogin(h, true))
    else if Names(m) then Some(R.OpIdentify(h, who(m.req.params).id, who(m.req.params).home))
    else None
  }

  /** The registry after the events of the log, if each was to be expected. */
  ghost function Outcome<H>(r: R.Registry<H>, h: H, who: string -> Identity, log: seq<Mark>): Option<R.Registry<H>> {
    if |log| == 0 then Some(r)
    else
      match Outcome(r, h, who, log[..|log| - 1])
      case None => None
      case Some(r1) =>
        match OpOf(h, who, log[|log| - 1])
        case None => Some(r1)
        case Some(op) => if R.Expected(r1, op) then Some(R.Apply(r1, op)) else None
  }

  /** Such an outcome is that of an expected run of the registry. */
  lemma {:induction false} OutcomeRun<H>(r: R.Registry<H>, h: H, who: string -> Identity, log: seq<Mark>)
    returns (ops: seq<R.Op<H>>)
    requires Outcome(r, h, who, log).Some?
    ensures R.Reaches(r, ops, Outcome(r, h, who, log).value) && R.Returns(ops)
  {
    if |log| == 0 {
      ops := [];
    } else {
      ops := OutcomeRun(r, h, who, log[..|log| - 1]);
      var op := OpOf(h, who, log[|log| - 1]);
      if op.Some? {
        R.Append(r, ops, Outcome(r, h, who, log[..|log| - 1]).value, op.value);
        ops := ops + [op.value];
      }
    }
  }

  // ---- the same, in terms of the log alone ----

  /** What the client is known as after the log. */
  ghost function Known(who: string -> Identity, first: Identity, log: seq<Mark>): Identity {
    if |log| == 0 then first
    else if Names(log[|log| - 1]) then who(log[|log| - 1].req.params)
    else Known(who, first, log[..|log| - 1])
  }

  /** After OnLogin it is not raised again, and no login asks for another identity. */
  ghost predicate Tidy(who: string -> Identity, first: Identity, log: seq<Mark>) {
    |log| == 0 ||
    var before, m := log[..|log| - 1], log[|log| - 1];
    && Tidy(who, first, before)
    && (LoginFired in before ==>
          m != LoginFired && (Names(m) ==> who(m.req.params) == Known(who, first, before)))
  }

  lemma Snoc(who: string -> Identity, first: Identity, log: seq<Mark>, m: Mark)
    ensures Known(who, first, log + [m]) == if Names(m) then who(m.req.params) else Known(who, first, log)
    ensures Tidy(who, first, log + [m]) <==>
              && Tidy(who, first, log)
              && (LoginFired in log ==>
                    m != LoginFired && (Names(m) ==> who(m.req.params) == Known(who, first, log)))
    ensures LoginFired in log + [m] <==> LoginFired in log || m == LoginFired
  {
    assert (log + [m])[..|log|] == log;
  }

  /** The client has connected and nothing else; every disposal in the hub starts from a situation
      that can arise. */
  ghost predicate Arrived<H>(r: R.Registry<H>, h: H) {
    && R.Inv(r) && h in r.members && !r.members[h].disposed && !R.Registered(r, h)
    && forall g :: g in r.members ==> Disposal.Possible(r.members[g].sit)
  }

  /** How the registry stands for the client after a log. */
  ghost predicate Stands<H>(r: R.Registry<H>, h: H, known: Identity, fired: bool) {
    && R.Inv(r) && h in r.members && !r.members[h].disposed && (R.Registered(r, h) <==> fired)
    && Identity(r.members[h].id, r.members[h].home) == known
    && forall g :: g in r.members ==> Disposal.Possible(r.members[g].sit)
  }

  lemma LoginExpected<H>(r: R.Registry<H>, h: H, known: Identity)
    requires Stands(r, h, known, false)
    ensures R.Expected(r, R.OpLogin(h, true)) && Stands(R.Login(r, h, true), h, known, true)
  {
    var id := r.members[h].id;
    if id in r.clients {
      assert R.EntryOk(r, id);
      Disposal.HangExactly(r.members[r.clients[id]].sit);
    }
    R.LoginKeeps(r, h, true);
    R.LoginReplaces(r, h, true);
    R.EvictEffect(r, id);
    R.EnterEffect(R.Evict(r, id, true), h);
  }

  lemma IdentifyExpected<H>(r: R.Registry<H>, h: H, known: Identity, fired: bool, new_: Identity)
    requires Stands(r, h, known, fired) && (fired ==> new_ == known)
    ensures R.Expected(r, R.OpIdentify(h, new_.id, new_.home))
    ensures Stands(R.SetIdentity(r, h, new_.id, new_.home), h, new_, fired)
  {
    R.SetIdentityKeeps(r, h, new_.id, new_.home);
    if new_.id in r.clients { assert R.EntryOk(r, new_.id); }
  }

  lemma MarkExpected<H>(r: R.Registry<H>, h: H, who: string -> Identity, known: Identity, fired: bool, m: Mark)
    requires Stands(r, h, known, fired)
    ensures var op := OpOf(h, who, m);
            op.Some? ==>
              && (R.Expected(r, op.value) <==>
                    !fired || (m != LoginFired && (Names(m) ==> who(m.req.params) == known)))
              && (R.Expected(r, op.value) ==>
                    Stands(R.Apply(r, op.value), h, if Names(m) then who(m.req.params) else known,
                           fired || m == LoginFired))
  {
    if m.LoginFired? {
      if !fired { LoginExpected(r, h, known); }
    } else if Names(m) && (!fired || who(m.req.params) == known) {
      IdentifyExpected(r, h, known, fired, who(m.req.params));
    }
  }

  /** The events of a log are to be expected exactly when it is tidy. */
  lemma {:induction false} TidyExactly<H>(r: R.Registry<H>, h: H, who: string -> Identity, log: seq<Mark>)
    requires Arrived(r, h)
    ensures var first := Identity(r.members[h].id, r.members[h].home);
            && (Outcome(r, h, who, log).Some? <==> Tidy(who, first, log))
            && (Tidy(who, first, log) ==>
                  Stands(Outcome(r, h, who, log).value, h, Known(who, first, log), LoginFired in log))
  {
    if |log| > 0 {
      var first := Identity(r.members[h].id, r.members[h].home);
      var before, m := log[..|log| - 1], log[|log| - 1];
      TidyExactly(r, h, who, before);
      assert log == before + [m];
      Snoc(who, first, before, m);
      if Tidy(who, first, before) {
        MarkExpected(Outcome(r, h, who, before).value, h, who, Known(who, first, before), LoginFired in before, m);
      }
    }
  }

  // ---- login required ----

  /** How the handlers answered: every login that succeeds is the same client's, and an exchange
      without encryption fails. */
  ghost predicate OneIdentity(crypto: bool, who: string -> Identity, known: Identity, log: seq<Mark>) {
    forall m :: m in log && m.Ran? ==>
      && (Names(m) ==> who(m.req.params) == known)
      && (LoginGate.Handles(m, ExchangeSecret) ==> crypto)
  }

  /** After OnLogin an exchange has put the client back into EXCHANGED_SECRET. */
  ghost predicate Restarts(log: seq<Mark>) {
    |log| > 0 &&
    var before, m := log[..|log| - 1], log[|log| - 1];
    Restarts(before) || (LoginFired in before && LoginGate.Enters(m, ExchangedSecret))
  }

  lemma RestartsSnoc(log: seq<Mark>, m: Mark)
    ensures Restarts(log + [m]) <==> Restarts(log) || (LoginFired in log && LoginGate.Enters(m, ExchangedSecret))
  {
    assert (log + [m])[..|log|] == log;
  }

  lemma {:induction false} RestartsOn(log: seq<Mark>, more: seq<Mark>)
    requires Restarts(log)
    ensures Restarts(log + more)
    decreases |more|
  {
    if more == [] {
      assert log + more == log;
    } else {
      var init, last := more[..|more| - 1], more[|more| - 1];
      assert log + more == log + init + [last];
      RestartsSnoc(log + init, last);
      RestartsOn(log, init);
    }
  }

  lemma {:induction false} NeverExchanged(log: seq<Mark>)
    requires forall m :: m in log ==> !LoginGate.Enters(m, ExchangedSecret)
    ensures !Restarts(log)
  {
    if |log| > 0 {
      assert log[|log| - 1] in log;
      NeverExchanged(log[..|log| - 1]);
    }
  }

  /** OnLogin has been raised, once, for the state the client is in; or not at all. */
  ghost predicate OneLogin(e: Endpoint, who: string -> Identity, first: Identity, known: Identity) {
    e.link == Up ==>
      && Tidy(who, first, e.log)
      && (if LoginFired in e.log then e.state == Logined && Known(who, first, e.log) == known
          else e.state == Connected || e.state == ExchangedSecret)
  }

  ghost predicate Orderly(e: Endpoint, who: string -> Identity, known: Identity) {
    OneIdentity(e.crypto, who, known, e.log) && (e.crypto ==> !Restarts(e.log))
  }

  /** A hub that requires a login, before the end of its connection. */
  ghost predicate Plain(e: Endpoint, who: string -> Identity, first: Identity, known: Identity) {
    && e.side == Hub && e.needLogin && e.link != Down && Orderly(e, who, known)
    && Workers.Inv(e) && Logins.Inv(e, ANYTHING) && OneLogin(e, who, first, known)
  }

  /** Once a login has succeeded, its identity is the one known. */
  lemma {:induction false} KnownIs(crypto: bool, who: string -> Identity, first: Identity, known: Identity,
                                  log: seq<Mark>, m: Mark)
    requires OneIdentity(crypto, who, known, log) && m in log && Names(m)
    ensures Known(who, first, log) == known
  {
    var before, last := log[..|log| - 1], log[|log| - 1];
    assert last in log && log == before + [last];
    if !Names(last) {
      assert m in before;
      KnownIs(crypto, who, first, known, before, m);
    }
  }

  lemma RunOnce(e: Endpoint, who: string -> Identity, first: Identity, known: Identity, k: nat, w: WorkEvent)
    requires Plain(e, who, first, known) && CanWork(e, k, w) && w.Run? && e.link == Up
    requires Orderly(WorkStep(e, k, w), who, known)
    ensures OneLogin(WorkStep(e, k, w), who, first, known)
  {
    var e1 := WorkStep(e, k, w);
    var m := e1.log[|e.log|];
    assert e1.log == e.log + [m] && m in e1.log;
    Snoc(who, first, e.log, m);
  }

  lemma ExchangesOnce(e: Endpoint, who: string -> Identity, first: Identity, known: Identity, req: Packet)
    requires e.needLogin && e.link == Up && OneLogin(e, who, first, known)
    requires e.crypto && Orderly(ChangeState(e, ExchangedSecret, ByWorker(req, e.disposed)), who, known)
    ensures OneLogin(ChangeState(e, ExchangedSecret, ByWorker(req, e.disposed)), who, first, known)
  {
    var m := Entered(ExchangedSecret, ByWorker(req, e.disposed));
    assert e.log + [m] + [] == e.log + [m];
    Snoc(who, first, e.log, m);
    RestartsSnoc(e.log, m);
  }

  lemma LogsInOnce(e: Endpoint, who: string -> Identity, first: Identity, known: Identity, cause: Cause)
    requires e.link == Up && OneLogin(e, who, first, known) && Known(who, first, e.log) == known
    ensures OneLogin(ChangeState(e, Logined, cause), who, first, known)
  {
    var m := Entered(Logined, cause);
    Snoc(who, first, e.log, m);
    Snoc(who, first, e.log + [m], LoginFired);
    assert e.log + [m] + [] == e.log + [m];
  }

  lemma SettleOnce(e: Endpoint, who: string -> Identity, first: Identity, known: Identity, k: nat)
    requires Plain(e, who, first, known) && CanWork(e, k, Settle) && e.link == Up && Orderly(Decide(e, k), who, known)
    ensures OneLogin(Decide(e, k), who, first, known)
  {
    var Worker(req, Deciding(resp, err)) := e.threads[k];
    var e1 := e.(threads := e.threads[k := Worker(req, Leaving)]);
    assert Workers.WorkerOk(e.threads[k], e.handlingReq, e.log);
    if resp.error == "" && err == "" {
      assert LoginGate.Handles(Ran(req, resp), req.meth);
      match req.meth
      case Login =>
        KnownIs(e.crypto, who, first, known, e.log, Ran(req, resp));
        LogsInOnce(e1, who, first, known, ByWorker(req, e.disposed));
      case ExchangeSecret => ExchangesOnce(e1, who, first, known, req);
      case OtherMethod(_) =>
    }
  }

  lemma DeliverOnce(e: Endpoint, who: string -> Identity, first: Identity, known: Identity)
    requires Plain(e, who, first, known) && CanNet(e, Deliver) && e.link == Up
    ensures OneLogin(Dispatch(e), who, first, known)
  {
    var pkt := e.rxQueue[0];
    Snoc(who, first, e.log, Dispatched(pkt));
    Snoc(who, first, e.log + [Dispatched(pkt)], Started(pkt.id));
  }

  lemma ConnectOnce(e: Endpoint, who: string -> Identity, first: Identity, known: Identity)
    requires Plain(e, who, first, known) && CanControl(e, Connect)
    ensures OneLogin(ControlStep(e, Connect), who, first, known)
  {
    Snoc(who, first, [], Entered(Resolve(e, Connected), ByUser));
    assert ControlStep(e, Connect).log == [] + [Entered(Resolve(e, Connected), ByUser)];
  }

  lemma StaysPlain(e: Endpoint, who: string -> Identity, first: Identity, known: Identity, ev: Event)
    requires Plain(e, who, first, known) && Enabled(e, ev) && Step(e, ev).link != Down
    requires Orderly(Step(e, ev), who, known)
    ensures OneLogin(Step(e, ev), who, first, known)
  {
    match ev
    case Net(n) => if n == Deliver { if e.link == Up { DeliverOnce(e, who, first, known); } } else { NetFrame(e, n); }
    case Calling(k, c) =>
    case Working(k, w) => if e.link == Up { WorksOnce(e, who, first, known, k, w); }
    case Control(t) => ControlsOnce(e, who, first, known, t);
  }

  lemma WorksOnce(e: Endpoint, who: string -> Identity, first: Identity, known: Identity, k: nat, w: WorkEvent)
    requires Plain(e, who, first, known) && CanWork(e, k, w) && e.link == Up
    requires Orderly(WorkStep(e, k, w), who, known)
    ensures OneLogin(WorkStep(e, k, w), who, first, known)
  {
    match w
    case Run(_, _) => RunOnce(e, who, first, known, k, w);
    case Conclude =>
    case Settle => SettleOnce(e, who, first, known, k);
    case Finish => Snoc(who, first, e.log, Ending(e.threads[k].req.id));
  }

  lemma ControlsOnce(e: Endpoint, who: string -> Identity, first: Identity, known: Identity, t: ControlEvent)
    requires Plain(e, who, first, known) && CanControl(e, t) && ControlStep(e, t).link != Down
    ensures OneLogin(ControlStep(e, t), who, first, known)
  {
    match t
    case Connect => ConnectOnce(e, who, first, known);
    case Begin(_, _) =>
    case Promote(_) =>
    case Disconnect =>
    case Dispose =>
  }

  lemma {:induction false} Past(s: System, acts: seq<Action>, s1: System)
    requires Inv(s) && Reaches(s, acts, s1)
    ensures s.hub.log <= s1.hub.log && (s.hub.link == Down ==> s1.hub.link == Down)
    ensures s1.hub.crypto == s.hub.crypto && s1.hub.needLogin == s.hub.needLogin
    decreases |acts|
  {
    if acts != [] {
      if acts[0].side == Hub { OnePast(s.hub, acts[0].ev); }
      StepInv(s, acts[0]);
      Past(Do(s, acts[0]), acts[1..], s1);
    }
  }

  lemma OnePast(e: Endpoint, ev: Event)
    requires Enabled(e, ev) && e.side == Hub
    ensures var e1 := Step(e, ev);
            && e.log <= e1.log && (e.link == Down ==> e1.link == Down)
            && e1.crypto == e.crypto && e1.needLogin == e.needLogin
  {
    match ev
    case Net(n) => if n != Deliver { NetFrame(e, n); }
    case Calling(k, c) =>
    case Working(k, w) => WorkFrame(e, k, w);
    case Control(t) => ControlFrame(e, t);
  }

  lemma Earlier(e: Endpoint, e1: Endpoint, who: string -> Identity, known: Identity)
    requires Orderly(e1, who, known) && e.log <= e1.log && e.crypto == e1.crypto
    ensures Orderly(e, who, known)
  {
    forall m | m in e.log ensures m in e1.log {}
    if Restarts(e.log) {
      RestartsOn(e.log, e1.log[|e.log|..]);
      assert e1.log == e.log + e1.log[|e.log|..];
    }
  }

  lemma {:induction false} PlainRun(s: System, acts: seq<Action>, s1: System, who: string -> Identity,
                                   first: Identity, known: Identity)
    requires Inv(s) && Plain(s.hub, who, first, known) && Reaches(s, acts, s1)
    requires s1.hub.link != Down && Orderly(s1.hub, who, known)
    ensures Plain(s1.hub, who, first, known)
    decreases |acts|
  {
    if acts != [] {
      var s2 := Do(s, acts[0]);
      StepInv(s, acts[0]);
      Past(s2, acts[1..], s1);
      Earlier(s2.hub, s1.hub, who, known);
      if acts[0].side == Hub {
        OnePast(s.hub, acts[0].ev);
        StaysPlain(s.hub, who, first, known, acts[0].ev);
      }
      PlainRun(s2, acts[1..], s1, who, first, known);
    }
  }

  // ---- every other configuration ----

  /** The client is neither disposed nor disconnected. */
  ghost predicate Undisturbed(g: Setting, s: System, who: string -> Identity, known: Identity) {
    !s.hub.disposed && s.hub.link != Down && OneIdentity(g.crypto, who, known, s.hub.log)
  }

  lemma Required(g: Setting, s: System, who: string -> Identity, first: Identity, known: Identity)
    requires Reachable(g, s) && Undisturbed(g, s, who, known) && g.needLogin && (g.crypto ==> !Restarts(s.hub.log))
    ensures Tidy(who, first, s.hub.log)
  {
    var acts :| Reaches(Start(g), acts, s) && PunctualRun(Start(g), acts, g.late);
    InitialInv(Start(g));
    Past(Start(g), acts, s);
    PlainRun(Start(g), acts, s, who, first, known);
    if s.hub.link == Fresh { assert s.hub.log == []; }
  }

  function ExchangeAs(n: nat): Packet {
    Request(ReqId(Dialer, n), ExchangeSecret, "")
  }

  function LoginAs(n: nat, params: string): Packet {
    Request(ReqId(Dialer, n), Login, params)
  }

  lemma Calls(g: Setting, s: System, n: nat, req: Packet) returns (s1: System)
    requires Reachable(g, s) && Unused(s.dialer, n) && req.Request? && req.id == ReqId(Dialer, n)
    ensures Reachable(g, s1) && Unused(s1.dialer, n + 1)
    ensures s1 == s.(dialer := s.dialer.(tabs := s1.dialer.tabs, threads := s1.dialer.threads, sent := s1.dialer.sent))
    ensures s1.dialer.sent == s.dialer.sent + {req} && s1.dialer.tabs.closing == s.dialer.tabs.closing
  {
    s1 := Sends(g, s, n, RequestOnce, req);
  }

  /** A handshake request is served, successfully. */
  lemma Serves(g: Setting, s: System, req: Packet) returns (s1: System)
    requires Quiet(g, s) && req in s.dialer.sent && req.Request? && req.id.ReqId? && Gate(s.hub.state, req)
    requires req.meth == ExchangeSecret || req.meth == Login
    ensures Quiet(g, s1) && s.dialer.sent <= s1.dialer.sent && s1.hub.state == Resolve(s.hub, Target(req))
    ensures s1.hub.log == s.hub.log + Marks(req, Response(req.id, "", "")) + Parting(s.hub, req, "")
  {
    s1 := Served(g, s, req, "", "");
  }

  /** The dialer has called Login twice, and the hub is connected. */
  lemma AllSent(g: Setting, params: string) returns (s: System)
    ensures Quiet(g, s) && ExchangeAs(0) in s.dialer.sent && LoginAs(1, params) in s.dialer.sent
    ensures ExchangeAs(2) in s.dialer.sent && LoginAs(3, params) in s.dialer.sent
    ensures s.hub == ControlStep(Init(Hub, g.crypto, g.needLogin), Connect)
  {
    s := Begins(g);
    s := Calls(g, s, 0, ExchangeAs(0));
    s := Calls(g, s, 1, LoginAs(1, params));
    s := Calls(g, s, 2, ExchangeAs(2));
    s := Calls(g, s, 3, LoginAs(3, params));
    s := Go(g, s, Action(Hub, Control(Connect)));
  }

  // ---- what their logs show ----

  lemma {:induction false} TidyBefore(who: string -> Identity, first: Identity, log: seq<Mark>, more: seq<Mark>)
    requires Tidy(who, first, log + more)
    ensures Tidy(who, first, log)
    decreases |more|
  {
    if more == [] {
      assert log + more == log;
    } else {
      var init, last := more[..|more| - 1], more[|more| - 1];
      assert log + more == log + init + [last];
      Snoc(who, first, log + init, last);
      TidyBefore(who, first, log, init);
    }
  }

  /** A second OnLogin, or a change of identity after the first, is untidy. */
  lemma Untidy(who: string -> Identity, first: Identity, log: seq<Mark>, m: Mark, more: seq<Mark>)
    requires LoginFired in log && (m == LoginFired || (Names(m) && who(m.req.params) != Known(who, first, log)))
    ensures !Tidy(who, first, log + [m] + more)
  {
    Snoc(who, first, log, m);
    if Tidy(who, first, log + [m] + more) { TidyBefore(who, first, log + [m], more); }
  }

  lemma {:induction false} KnownStays(who: string -> Identity, first: Identity, log: seq<Mark>)
    requires forall m :: m in log ==> !Names(m)
    ensures Known(who, first, log) == first
  {
    if |log| > 0 {
      assert log[|log| - 1] in log;
      KnownStays(who, first, log[..|log| - 1]);
    }
  }

  lemma ServedIdentity(crypto: bool, who: string -> Identity, known: Identity, e: Endpoint, req: Packet)
    requires OneIdentity(crypto, who, known, e.log) && req.Request?
    requires (req.meth == Login ==> who(req.params) == known) && (req.meth == ExchangeSecret ==> crypto)
    ensures OneIdentity(crypto, who, known, e.log + Marks(req, Response(req.id, "", "")) + Parting(e, req, ""))
  {
  }

  lemma RanWithin(log: seq<Mark>, req: Packet, resp: Packet, parting: seq<Mark>)
    ensures log + Marks(req, resp) + parting ==
              log + [Dispatched(req)] + [Started(req.id)] + [Ran(req, resp)] + ([Dispatched(Ack(req.id))] + parting)
  {
  }

  lemma LoginParts(e: Endpoint, req: Packet)
    requires req.Request? && req.meth == Login
    ensures forall m :: m in Parting(e, req, "") ==> !LoginGate.Enters(m, ExchangedSecret)
  {
  }

  /** A client for which OnLogin has been raised is renamed. */
  lemma Renames(g: Setting, s: System, who: string -> Identity, first: Identity, params: string) returns (s1: System)
    requires Quiet(g, s) && LoginAs(1, params) in s.dialer.sent && s.hub.state != Connected
    requires LoginFired in s.hub.log && who(params) != first
    requires forall m :: m in s.hub.log ==> !Names(m) && !LoginGate.Enters(m, ExchangedSecret)
    requires OneIdentity(g.crypto, who, who(params), s.hub.log)
    ensures Reachable(g, s1) && Undisturbed(g, s1, who, who(params)) && !Tidy(who, first, s1.hub.log)
    ensures !Restarts(s1.hub.log)
  {
    var req := LoginAs(1, params);
    var resp := Response(req.id, "", "");
    s1 := Serves(g, s, req);
    ServedIdentity(g.crypto, who, who(params), s.hub, req);
    var before := s.hub.log + [Dispatched(req)] + [Started(req.id)];
    KnownStays(who, first, before);
    var more := [Dispatched(Ack(req.id))] + Parting(s.hub, req, "");
    RanWithin(s.hub.log, req, resp, Parting(s.hub, req, ""));
    Untidy(who, first, before, Ran(req, resp), more);
    LoginParts(s.hub, req);
    NeverExchanged(s1.hub.log);
  }

  /** No login required: OnLogin comes before the login. */
  lemma NotRequired(g: Setting, who: string -> Identity, first: Identity, params: string) returns (s: System)
    requires !g.needLogin && who(params) != first
    ensures Reachable(g, s) && Undisturbed(g, s, who, who(params)) && !Tidy(who, first, s.hub.log)
    ensures !Restarts(s.hub.log)
  {
    s := AllSent(g, params);
    if g.crypto { s := Serves(g, s, ExchangeAs(0)); }
    s := Renames(g, s, who, first, params);
  }

  lemma LoggedIn(g: Setting, who: string -> Identity, params: string) returns (s: System)
    requires g.needLogin && g.crypto
    ensures Quiet(g, s) && LoginFired in s.hub.log && s.hub.state == Logined
    ensures ExchangeAs(2) in s.dialer.sent && LoginAs(3, params) in s.dialer.sent
    ensures OneIdentity(true, who, who(params), s.hub.log)
  {
    s := AllSent(g, params);
    var e := s.hub;
    s := Serves(g, s, ExchangeAs(0));
    ServedIdentity(true, who, who(params), e, ExchangeAs(0));
    e := s.hub;
    s := Serves(g, s, LoginAs(1, params));
    ServedIdentity(true, who, who(params), e, LoginAs(1, params));
  }

  /** A login that ends the exchanged state raises OnLogin, for the second time. */
  lemma SecondLogin(g: Setting, s: System, who: string -> Identity, first: Identity, req: Packet) returns (s1: System)
    requires Quiet(g, s) && req in s.dialer.sent && req.Request? && req.id.ReqId? && req.meth == Login
    requires LoginFired in s.hub.log && s.hub.state == ExchangedSecret
    ensures Quiet(g, s1) && !Tidy(who, first, s1.hub.log)
    ensures s1.hub.log == s.hub.log + Marks(req, Response(req.id, "", "")) + Parting(s.hub, req, "")
  {
    s1 := Serves(g, s, req);
    var before := s.hub.log + Marks(req, Response(req.id, "", "")) + [Entered(Logined, ByWorker(req, false))];
    assert s1.hub.log == before + [LoginFired] + [Ending(req.id)];
    Untidy(who, first, before, LoginFired, [Ending(req.id)]);
  }

  /** Login and encryption: as far as the protocol goes, the dialer may log in again, exchange
      included, and OnLogin is raised for a client that is registered. */
  lemma LoginAgain(g: Setting, who: string -> Identity, first: Identity, params: string) returns (s: System)
    requires g.needLogin && g.crypto
    ensures Reachable(g, s) && Undisturbed(g, s, who, who(params)) && !Tidy(who, first, s.hub.log)
  {
    s := LoggedIn(g, who, params);
    var e := s.hub;
    s := Serves(g, s, ExchangeAs(2));
    ServedIdentity(true, who, who(params), e, ExchangeAs(2));
    e := s.hub;
    s := SecondLogin(g, s, who, first, LoginAs(3, params));
    ServedIdentity(true, who, who(params), e, LoginAs(3, params));
  }

  /** The logins of the connection make an expected history of the registry. */
  ghost predicate Expected<H>(g: Setting, r: R.Registry<H>, h: H, who: string -> Identity, known: Identity, s: System) {
    Reachable(g, s) && Undisturbed(g, s, who, known) ==> Outcome(r, h, who, s.hub.log).Some?
  }

  /** Over all runs of a connection up to its end they do exactly when the hub requires a login, as
      long as no exchange succeeds after OnLogin; and without that proviso exactly when it moreover
      does not encrypt. */
  lemma ExpectedExactly<H>(g: Setting, r: R.Registry<H>, h: H, who: string -> Identity, params: string)
    requires Arrived(r, h) && who(params) != Identity(r.members[h].id, r.members[h].home)
    ensures (forall s: System :: Restarts(s.hub.log) || Expected(g, r, h, who, who(params), s)) <==> g.needLogin
    ensures (forall s :: Expected(g, r, h, who, who(params), s)) <==> g.needLogin && !g.crypto
  {
    var first := Identity(r.members[h].id, r.members[h].home);
    if g.needLogin {
      forall s: System | !g.crypto || !Restarts(s.hub.log) ensures Expected(g, r, h, who, who(params), s) {
        if Reachable(g, s) && Undisturbed(g, s, who, who(params)) {
          Required(g, s, who, first, who(params));
          TidyExactly(r, h, who, s.hub.log);
        }
      }
    }
    if !g.needLogin || g.crypto { var s := Unexpected(g, r, h, who, params); }
  }

  lemma Unexpected<H>(g: Setting, r: R.Registry<H>, h: H, who: string -> Identity, params: string) returns (s: System)
    requires Arrived(r, h) && who(params) != Identity(r.members[h].id, r.members[h].home)
    requires !g.needLogin || g.crypto
    ensures !Expected(g, r, h, who, who(params), s) && (!g.needLogin ==> !Restarts(s.hub.log))
  {
    var first := Identity(r.members[h].id, r.members[h].home);
    if g.needLogin { s := LoginAgain(g, who, first, params); } else { s := NotRequired(g, who, first, params); }
    TidyExactly(r, h, who, s.hub.log);
  }
}
