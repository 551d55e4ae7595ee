/**
 Who is logged in and where. The hub's client map, the world space and the rooms, as changed by
 the login handler, by onClientLogin and by disposal, each taken as one atomic step that either
 returns or hangs where the source's does; and which clients a publish reaches.
 */
module Registry {
  import opened Basics
  import opened PubSub
  import Disposal
  import Text

  datatype Space = World | Room(id: int)

  /** A hub-side client: its id and home space as last set by the login handler, the space it
      was added to, whether it is disposed, whether the hub listens for its disposal, and what its
      disposal would find. */
  datatype Member = Member(
    id: string, home: Space, joined: Option<Space>, disposed: bool, watched: bool, sit: Disposal.Situation)

  datatype Registry<H(==)> = Registry(
    members: map<H, Member>,
    clients: map<string, H>,
    world: map<string, H>,
    rooms: map<int, map<string, H>>)

  function ClientsOf<H>(r: Registry<H>, space: Space): map<string, H> {
    match space
    case World => r.world
    case Room(id) => if id in r.rooms then r.rooms[id] else map[]
  }

  /** Updates the map of one space; a room that does not exist yet is created. */
  function SetClientsOf<H>(r: Registry<H>, space: Space, m: map<string, H>): Registry<H> {
    match space
    case World => r.(world := m)
    case Room(id) => r.(rooms := r.rooms[id := m])
  }

  predicate Registered<H(==)>(r: Registry<H>, h: H) {
    h in r.members && r.members[h].id in r.clients && r.clients[r.members[h].id] == h
  }

  // ---- steps ----

  function Connect<H>(r: Registry<H>, h: H, id: string, sit: Disposal.Situation): Registry<H> {
    r.(members := r.members[h := Member(id, World, None, false, false, sit)])
  }

  /** The client's loop and connection go on. */
  function Turn<H>(r: Registry<H>, h: H, sit: Disposal.Situation): Registry<H>
    requires h in r.members
  {
    r.(members := r.members[h := r.members[h].(sit := sit)])
  }

  /** The hub's login handler. */
  function SetIdentity<H>(r: Registry<H>, h: H, id: string, home: Space): Registry<H>
    requires h in r.members
  {
    r.(members := r.members[h := r.members[h].(id := id, home := home)])
  }

  /** What the hub's disposal listener removes. */
  function Leave<H>(r: Registry<H>, m: Member): Registry<H> {
    var r1 := r.(clients := Remove(r.clients, m.id));
    SetClientsOf(r1, m.home, Remove(ClientsOf(r1, m.home), m.id))
  }

  /** A disposal that raises OnDispose, or hangs before it. */
  function Dispose<H>(r: Registry<H>, h: H, raised: bool): Registry<H>
    requires h in r.members
  {
    var m := r.members[h];
    if m.disposed then r
    else
      var r1 := r.(members := r.members[h := m.(disposed := true)]);
      if raised && m.watched then Leave(r1, m) else r1
  }

  /** LoadAndDelete of a client with the same id, and its disposal. */
  function Evict<H>(r: Registry<H>, id: string, raised: bool): Registry<H>
    requires id in r.clients ==> r.clients[id] in r.members
  {
    if id in r.clients then Dispose(r.(clients := Remove(r.clients, id)), r.clients[id], raised) else r
  }

  /** The client registered under `id` would have to be disposed first. */
  predicate Occupied<H>(r: Registry<H>, id: string)
    requires id in r.clients ==> r.clients[id] in r.members
  {
    id in r.clients && !r.members[r.clients[id]].disposed
  }

  function Enter<H>(r: Registry<H>, h: H): Registry<H>
    requires h in r.members
  {
    var m := r.members[h];
    var r1 := SetClientsOf(r.(clients := r.clients[m.id := h]), m.home, ClientsOf(r, m.home)[m.id := h]);
    r1.(members := r.members[h := m.(joined := Some(m.home), watched := true)])
  }

  /** onClientLogin, which gets no further than a disposal that hangs. */
  function Login<H>(r: Registry<H>, h: H, raised: bool): Registry<H>
    requires h in r.members
    requires r.members[h].id in r.clients ==> r.clients[r.members[h].id] in r.members
  {
    var id := r.members[h].id;
    var r1 := Evict(r, id, raised);
    if Occupied(r, id) && !raised then r1 else Enter(r1, h)
  }

  // ---- the registry invariant ----

  ghost predicate EntryOk<H>(r: Registry<H>, id: string)
    requires id in r.clients
  {
    var h := r.clients[id];
    && h in r.members
    && var m := r.members[h];
       && m.id == id && !m.disposed && m.watched && m.joined == Some(m.home)
       && id in ClientsOf(r, m.home) && ClientsOf(r, m.home)[id] == h
  }

  ghost predicate SpaceOk<H>(r: Registry<H>, space: Space) {
    forall id :: id in ClientsOf(r, space) ==>
      && id in r.clients && r.clients[id] == ClientsOf(r, space)[id]
      && r.clients[id] in r.members && r.members[r.clients[id]].home == space
  }

  ghost predicate MemberOk<H>(r: Registry<H>, h: H)
    requires h in r.members
  {
    r.members[h].watched && !r.members[h].disposed ==> Registered(r, h)
  }

  /** The client map is the disjoint union of the spaces' maps; every entry is an undisposed
      client under its own id; and every undisposed client that logged in has its entry. */
  ghost predicate Inv<H>(r: Registry<H>) {
    && (forall id :: id in r.clients ==> EntryOk(r, id))
    && (forall space :: SpaceOk(r, space))
    && (forall h :: h in r.members ==> MemberOk(r, h))
  }

  lemma SpaceSet<H>(r: Registry<H>, space: Space, m: map<string, H>)
    ensures forall s :: ClientsOf(SetClientsOf(r, space, m), s) == if s == space then m else ClientsOf(r, s)
    ensures SetClientsOf(r, space, m).clients == r.clients && SetClientsOf(r, space, m).members == r.members
  {
  }

  lemma TurnKeeps<H>(r: Registry<H>, h: H, sit: Disposal.Situation)
    requires Inv(r) && h in r.members
    ensures Inv(Turn(r, h, sit))
  {
    var r1 := Turn(r, h, sit);
    forall i | i in r1.clients ensures EntryOk(r1, i) { assert EntryOk(r, i); }
    forall space ensures SpaceOk(r1, space) { assert SpaceOk(r, space); }
    forall g | g in r1.members ensures MemberOk(r1, g) { assert MemberOk(r, g); }
  }

  lemma ConnectKeeps<H>(r: Registry<H>, h: H, id: string, sit: Disposal.Situation)
    requires Inv(r) && h !in r.members
    ensures Inv(Connect(r, h, id, sit))
  {
    var r1 := Connect(r, h, id, sit);
    forall i | i in r1.clients ensures EntryOk(r1, i) { assert EntryOk(r, i); }
    forall space ensures SpaceOk(r1, space) { assert SpaceOk(r, space); }
    forall g | g in r1.members ensures MemberOk(r1, g) { if g != h { assert MemberOk(r, g); } }
  }

  /** The login handler keeps the registry lawful exactly when it does not rename or move a
      client that is registered. */
  lemma SetIdentityKeeps<H>(r: Registry<H>, h: H, id: string, home: Space)
    requires Inv(r) && h in r.members
    ensures Inv(SetIdentity(r, h, id, home)) <==>
              !Registered(r, h) || (id == r.members[h].id && home == r.members[h].home)
  {
    var r1 := SetIdentity(r, h, id, home);
    var m := r.members[h];
    if !Registered(r, h) || (id == m.id && home == m.home) {
      forall i | i in r1.clients ensures EntryOk(r1, i) { assert EntryOk(r, i); }
      forall space ensures SpaceOk(r1, space) { assert SpaceOk(r, space); }
      forall g | g in r1.members ensures MemberOk(r1, g) { assert MemberOk(r, g); }
    } else {
      assert EntryOk(r, m.id);
      assert !EntryOk(r1, m.id);
    }
  }

  /** A completed disposal of a registered client removes its two entries and nothing else. */
  lemma DisposeEffect<H>(r: Registry<H>, h: H)
    requires h in r.members && Registered(r, h) && !r.members[h].disposed && r.members[h].watched
    ensures var r1 := Dispose(r, h, true);
            var m := r.members[h];
            && r1.clients == Remove(r.clients, m.id)
            && r1.members == r.members[h := m.(disposed := true)]
            && (forall s :: ClientsOf(r1, s) == if s == m.home then Remove(ClientsOf(r, s), m.id) else ClientsOf(r, s))
  {
    var m := r.members[h];
    var r1 := r.(members := r.members[h := m.(disposed := true)], clients := Remove(r.clients, m.id));
    SpaceSet(r1, m.home, Remove(ClientsOf(r1, m.home), m.id));
    assert forall s :: ClientsOf(r1, s) == ClientsOf(r, s);
  }

  lemma DisposeRegistered<H>(r: Registry<H>, h: H)
    requires Inv(r) && h in r.members && Registered(r, h)
    ensures Inv(Dispose(r, h, true)) && !Registered(Dispose(r, h, true), h)
  {
    var r1 := Dispose(r, h, true);
    assert EntryOk(r, r.members[h].id);
    DisposeEffect(r, h);
    forall i | i in r1.clients ensures EntryOk(r1, i) { assert EntryOk(r, i); }
    forall space ensures SpaceOk(r1, space) { assert SpaceOk(r, space); }
    forall g | g in r1.members ensures MemberOk(r1, g) { assert MemberOk(r, g); }
  }

  lemma DisposeOther<H>(r: Registry<H>, h: H, raised: bool)
    requires Inv(r) && h in r.members && !Registered(r, h)
    ensures Inv(Dispose(r, h, raised)) && !Registered(Dispose(r, h, raised), h)
  {
    assert MemberOk(r, h);
    var r1 := Dispose(r, h, raised);
    forall i | i in r1.clients ensures EntryOk(r1, i) { assert EntryOk(r, i); }
    forall space ensures SpaceOk(r1, space) { assert SpaceOk(r, space); }
    forall g | g in r1.members ensures MemberOk(r1, g) { assert MemberOk(r, g); }
  }

  /** Disposal keeps the registry lawful, with the client out of it, exactly when it gets as far as
      OnDispose or the client is not registered. */
  lemma DisposeKeeps<H>(r: Registry<H>, h: H, raised: bool)
    requires Inv(r) && h in r.members
    ensures Inv(Dispose(r, h, raised)) <==> raised || !Registered(r, h)
    ensures Registered(Dispose(r, h, raised), h) <==> !raised && Registered(r, h)
  {
    if !Registered(r, h) {
      DisposeOther(r, h, raised);
    } else {
      assert EntryOk(r, r.members[h].id);
      if raised { DisposeRegistered(r, h); } else { assert !EntryOk(Dispose(r, h, false), r.members[h].id); }
    }
  }

  /** Taking the old client out of the map first changes nothing: its own disposal would. */
  lemma EvictIsDispose<H>(r: Registry<H>, id: string)
    requires Inv(r)
    ensures id in r.clients ==> r.clients[id] in r.members && Evict(r, id, true) == Dispose(r, r.clients[id], true)
    ensures Inv(Evict(r, id, true)) && id !in Evict(r, id, true).clients
  {
    if id in r.clients {
      assert EntryOk(r, id);
      var h := r.clients[id];
      DisposeKeeps(r, h, true);
      assert Remove(Remove(r.clients, id), id) == Remove(r.clients, id);
      assert Evict(r, id, true) == Dispose(r, h, true);
    }
  }

  lemma EnterEffect<H>(r: Registry<H>, h: H)
    requires h in r.members
    ensures var r1 := Enter(r, h);
            var m := r.members[h];
            && r1.clients == r.clients[m.id := h]
            && r1.members == r.members[h := m.(joined := Some(m.home), watched := true)]
            && (forall s :: ClientsOf(r1, s) == if s == m.home then ClientsOf(r, s)[m.id := h] else ClientsOf(r, s))
  {
    var m := r.members[h];
    var r1 := r.(clients := r.clients[m.id := h]);
    SpaceSet(r1, m.home, ClientsOf(r, m.home)[m.id := h]);
    assert forall s :: ClientsOf(r1, s) == ClientsOf(r, s);
    var r2 := SetClientsOf(r1, m.home, ClientsOf(r, m.home)[m.id := h]);
    assert forall s :: ClientsOf(Enter(r, h), s) == ClientsOf(r2, s);
  }

  lemma EnterEntry<H>(r: Registry<H>, h: H, i: string)
    requires Inv(r) && h in r.members && r.members[h].id !in r.clients && !r.members[h].disposed
    requires i in Enter(r, h).clients
    ensures EntryOk(Enter(r, h), i)
  {
    EnterEffect(r, h);
    if i != r.members[h].id { assert EntryOk(r, i); }
  }

  lemma EnterSpace<H>(r: Registry<H>, h: H, space: Space)
    requires Inv(r) && h in r.members && r.members[h].id !in r.clients
    ensures SpaceOk(Enter(r, h), space)
  {
    EnterEffect(r, h);
    assert SpaceOk(r, space);
  }

  lemma EnterLawful<H>(r: Registry<H>, h: H)
    requires Inv(r) && h in r.members && r.members[h].id !in r.clients && !r.members[h].disposed
    ensures Inv(Enter(r, h))
  {
    var r1 := Enter(r, h);
    forall i | i in r1.clients ensures EntryOk(r1, i) { EnterEntry(r, h, i); }
    forall space ensures SpaceOk(r1, space) { EnterSpace(r, h, space); }
    EnterEffect(r, h);
    forall g | g in r1.members ensures MemberOk(r1, g) { assert MemberOk(r, h) && MemberOk(r, g); }
  }

  lemma EnterKeeps<H>(r: Registry<H>, h: H)
    requires Inv(r) && h in r.members && r.members[h].id !in r.clients
    ensures Inv(Enter(r, h)) <==> !r.members[h].disposed
    ensures Registered(Enter(r, h), h)
  {
    EnterEffect(r, h);
    if r.members[h].disposed { assert !EntryOk(Enter(r, h), r.members[h].id); } else { EnterLawful(r, h); }
  }

  lemma EvictEffect<H>(r: Registry<H>, id: string)
    requires Inv(r)
    ensures Evict(r, id, true).clients == Remove(r.clients, id)
    ensures Evict(r, id, true).members ==
              if id in r.clients then r.members[r.clients[id] := r.members[r.clients[id]].(disposed := true)]
              else r.members
  {
    if id in r.clients {
      assert EntryOk(r, id);
      EvictIsDispose(r, id);
      DisposeEffect(r, r.clients[id]);
    } else {
      assert Remove(r.clients, id) == r.clients;
    }
  }

  /** An eviction that hangs: the old client is out of the client map but still in its space's, and
      the new one is nowhere. */
  lemma LoginHangs<H>(r: Registry<H>, h: H)
    requires Inv(r) && h in r.members && r.members[h].id in r.clients
    ensures var id := r.members[h].id;
            var r1, other := Login(r, h, false), r.clients[id];
            && r1.clients == Remove(r.clients, id) && other in r.members && r1.members[other].disposed
            && id in ClientsOf(r1, r.members[other].home) && ClientsOf(r1, r.members[other].home)[id] == other
            && !Inv(r1)
  {
    var id := r.members[h].id;
    assert EntryOk(r, id);
    assert !SpaceOk(Login(r, h, false), r.members[r.clients[id]].home);
  }

  /** A login keeps the registry lawful exactly when the client is neither disposed nor already
      registered, and no eviction hangs. */
  lemma LoginKeeps<H>(r: Registry<H>, h: H, raised: bool)
    requires Inv(r) && h in r.members
    ensures r.members[h].id in r.clients ==> r.clients[r.members[h].id] in r.members
    ensures Inv(Login(r, h, raised)) <==>
              !r.members[h].disposed && !Registered(r, h) && (raised || r.members[h].id !in r.clients)
  {
    var id := r.members[h].id;
    if id in r.clients { assert EntryOk(r, id); }
    if id in r.clients && !raised {
      LoginHangs(r, h);
    } else {
      EvictIsDispose(r, id);
      EvictEffect(r, id);
      EnterKeeps(Evict(r, id, true), h);
    }
  }

  /** Whatever was registered under the client's id, a login that returns has disposed it and leaves
      only the client; all other ids keep theirs. */
  lemma LoginReplaces<H>(r: Registry<H>, h: H, raised: bool)
    requires Inv(r) && h in r.members && (raised || r.members[h].id !in r.clients)
    ensures var id := r.members[h].id;
            && (id in r.clients ==> r.clients[id] in r.members)
            && Registered(Login(r, h, raised), h) && Login(r, h, raised).clients == r.clients[id := h]
            && (id in r.clients ==> Login(r, h, raised).members[r.clients[id]].disposed)
  {
    var id := r.members[h].id;
    EvictEffect(r, id);
    if id in r.clients { assert EntryOk(r, id); }
    EnterEffect(Evict(r, id, true), h);
  }

  // ---- which disposals return ----

  /** How the disposal of a client may end, by the schedules of Disposal. */
  ghost predicate MayEnd(m: Member, raised: bool) {
    m.disposed || (if raised then Disposal.MayRaise(Disposal.Start(m.sit)) else Disposal.MayHang(Disposal.Start(m.sit)))
  }

  /** A registered client's disposal keeps the registry lawful in every schedule exactly when its
      connection is closed already, or not listened to, and no clear is waiting. */
  lemma DisposeExactly<H>(r: Registry<H>, h: H)
    requires Inv(r) && h in r.members && Registered(r, h) && Disposal.Possible(r.members[h].sit)
    ensures (forall raised :: MayEnd(r.members[h], raised) ==> Inv(Dispose(r, h, raised))) <==>
              Disposal.Safe(r.members[h].sit)
  {
    assert EntryOk(r, r.members[h].id);
    Disposal.HangExactly(r.members[h].sit);
    DisposeKeeps(r, h, true);
    DisposeKeeps(r, h, false);
  }

  /** A login by a new client with a used id replaces the old one in every schedule exactly when the
      old one's disposal is safe. */
  lemma LoginExactly<H>(r: Registry<H>, h: H)
    requires Inv(r) && h in r.members && !r.members[h].disposed && !Registered(r, h)
    requires Occupied(r, r.members[h].id) && Disposal.Possible(r.members[r.clients[r.members[h].id]].sit)
    ensures var other := r.members[r.clients[r.members[h].id]];
            (forall raised :: MayEnd(other, raised) ==> Inv(Login(r, h, raised)) && Registered(Login(r, h, raised), h))
            <==> Disposal.Safe(other.sit)
  {
    Disposal.HangExactly(r.members[r.clients[r.members[h].id]].sit);
    LoginKeeps(r, h, true);
    LoginReplaces(r, h, true);
    LoginKeeps(r, h, false);
  }

  // ---- runs ----

  datatype Op<H> =
    | OpConnect(h: H, id: string, sit: Disposal.Situation)
    | OpTurn(h: H, sit: Disposal.Situation)
    | OpIdentify(h: H, id: string, home: Space)
    | OpLogin(h: H, raised: bool)
    | OpDispose(h: H, raised: bool)

  /** A step that the rest of the system is expected to take: each client is renamed or moved only
      while unregistered, and enters once, undisposed. A disposal may hang only where it can. */
  ghost predicate Expected<H>(r: Registry<H>, op: Op<H>) {
    match op
    case OpConnect(h, _, sit) => h !in r.members && Disposal.Possible(sit)
    case OpTurn(h, sit) => h in r.members && Disposal.Possible(sit)
    case OpIdentify(h, id, home) =>
      h in r.members && (Registered(r, h) ==> id == r.members[h].id && home == r.members[h].home)
    case OpLogin(h, raised) =>
      && h in r.members && !r.members[h].disposed && !Registered(r, h)
      && (r.members[h].id in r.clients ==>
            r.clients[r.members[h].id] in r.members && MayEnd(r.members[r.clients[r.members[h].id]], raised))
    case OpDispose(h, raised) => h in r.members && MayEnd(r.members[h], raised)
  }

  ghost function Apply<H>(r: Registry<H>, op: Op<H>): Registry<H>
    requires Expected(r, op)
  {
    match op
    case OpConnect(h, id, sit) => Connect(r, h, id, sit)
    case OpTurn(h, sit) => Turn(r, h, sit)
    case OpIdentify(h, id, home) => SetIdentity(r, h, id, home)
    case OpLogin(h, raised) => Login(r, h, raised)
    case OpDispose(h, raised) => Dispose(r, h, raised)
  }

  ghost predicate Reaches<H>(r: Registry<H>, ops: seq<Op<H>>, r1: Registry<H>)
    decreases |ops|
  {
    if ops == [] then r == r1 else Expected(r, ops[0]) && Reaches(Apply(r, ops[0]), ops[1..], r1)
  }

  function Empty<H(==)>(): Registry<H> { Registry(map[], map[], map[], map[]) }

  /** Every disposal of the run, on its own or within a login, returns. */
  predicate Returns<H>(ops: seq<Op<H>>) {
    forall i :: 0 <= i < |ops| && (ops[i].OpLogin? || ops[i].OpDispose?) ==> ops[i].raised
  }

  lemma {:induction false} RunKeeps<H>(r: Registry<H>, ops: seq<Op<H>>, r1: Registry<H>)
    requires Inv(r) && Reaches(r, ops, r1) && Returns(ops)
    ensures Inv(r1)
    decreases |ops|
  {
    if ops == [] { return; }
    match ops[0] {
      case OpConnect(h, id, sit) => ConnectKeeps(r, h, id, sit);
      case OpTurn(h, sit) => TurnKeeps(r, h, sit);
      case OpIdentify(h, id, home) => SetIdentityKeeps(r, h, id, home);
      case OpLogin(h, raised) => LoginKeeps(r, h, raised);
      case OpDispose(h, raised) => DisposeKeeps(r, h, raised);
    }
    RunKeeps(Apply(r, ops[0]), ops[1..], r1);
  }

  /** After any expected run from the empty hub in which disposals return, a client is in the client
      map exactly when it is in the map of exactly one space, under its own id, and not disposed. */
  lemma Conservation<H>(ops: seq<Op<H>>, r: Registry<H>, id: string, h: H)
    requires Reaches(Empty(), ops, r) && Returns(ops)
    ensures (id in r.clients && r.clients[id] == h) <==>
              exists space :: id in ClientsOf(r, space) && ClientsOf(r, space)[id] == h
    ensures forall s, t :: id in ClientsOf(r, s) && id in ClientsOf(r, t) ==> s == t
    ensures id in r.clients ==>
              r.clients[id] in r.members && r.members[r.clients[id]].id == id && !r.members[r.clients[id]].disposed
  {
    RunKeeps(Empty(), ops, r);
    if id in r.clients { assert EntryOk(r, id); }
    if space :| id in ClientsOf(r, space) && ClientsOf(r, space)[id] == h { assert SpaceOk(r, space); }
    forall s, t | id in ClientsOf(r, s) && id in ClientsOf(r, t) ensures s == t {
      assert SpaceOk(r, s) && SpaceOk(r, t);
    }
  }

  // ---- runs in which a disposal hangs ----

  /** A client of the world space has logged in over a TCP or WebSocket connection and is idle. */
  const IDLE := Disposal.Situation(Disposal.Parked, false, Disposal.Open, true)

  function Alone<H(==)>(h: H, id: string): Registry<H> {
    Registry(map[h := Member(id, World, Some(World), false, true, IDLE)], map[id := h], map[id := h], map[])
  }

  lemma LogsIn<H>(h: H, id: string) returns (ops: seq<Op<H>>)
    ensures Reaches(Empty(), ops, Alone(h, id)) && |ops| == 2
  {
    var r1 := Connect(Empty(), h, id, IDLE);
    ops := [OpConnect(h, id, IDLE), OpLogin(h, true)];
    assert ops[1..] == [OpLogin(h, true)] && ops[1..][1..] == [];
    assert Login(r1, h, true).world == map[id := h] && Login(r1, h, true).clients == map[id := h];
    assert Reaches(r1, ops[1..], Alone(h, id));
  }

  lemma {:induction false} Append<H>(r: Registry<H>, ops: seq<Op<H>>, r1: Registry<H>, op: Op<H>)
    requires Reaches(r, ops, r1) && Expected(r1, op)
    ensures Reaches(r, ops + [op], Apply(r1, op))
    decreases |ops|
  {
    var all := ops + [op];
    if ops == [] {
      assert all[1..] == [];
    } else {
      Append(Apply(r, ops[0]), ops[1..], r1, op);
      assert all[0] == ops[0] && all[1..] == ops[1..] + [op];
    }
  }

  /** The heartbeat of an idle client fails while its connection is open: its disposal hangs and
      leaves a disposed client registered. */
  lemma HungDisposal<H>(h: H, id: string) returns (ops: seq<Op<H>>, r: Registry<H>)
    ensures Reaches(Empty(), ops, r)
    ensures h in r.members && Registered(r, h) && r.members[h].disposed && r.world == map[id := h]
  {
    ops := LogsIn(h, id);
    Disposal.HangExactly(IDLE);
    Append(Empty(), ops, Alone(h, id), OpDispose(h, false));
    r := Dispose(Alone(h, id), h, false);
    ops := ops + [OpDispose(h, false)];
  }

  /** A second client logs in under the id of the first, whose connection is still open: it is never
      added, and the first is out of the client map but still in its space. */
  lemma HungLogin<H>(h: H, g: H, id: string) returns (ops: seq<Op<H>>, r: Registry<H>)
    requires g != h
    ensures Reaches(Empty(), ops, r)
    ensures r.clients == map[] && r.world == map[id := h] && h in r.members && r.members[h].disposed
    ensures g in r.members && !r.members[g].disposed && !Registered(r, g)
  {
    ops := LogsIn(h, id);
    Disposal.HangExactly(IDLE);
    var r1 := Connect(Alone(h, id), g, id, IDLE);
    Append(Empty(), ops, Alone(h, id), OpConnect(g, id, IDLE));
    ops := ops + [OpConnect(g, id, IDLE)];
    Append(Empty(), ops, r1, OpLogin(g, false));
    ops := ops + [OpLogin(g, false)];
    r := Login(r1, g, false);
    assert r.clients == map[];
  }

  // ---- whom a publish reaches ----

  /** One group on the way from the publisher's group to the root. */
  datatype Level<H(==)> = Level(id: int, clients: map<string, H>)

  const ROOT_ID := -1

  function Chain<H>(r: Registry<H>, space: Space): seq<Level<H>> {
    match space
    case World => [Level(ROOT_ID, r.world)]
    case Room(id) => [Level(id, ClientsOf(r, space)), Level(ROOT_ID, r.world)]
  }

  ghost function Holders<H>(clients: map<string, H>, h: H): set<string> {
    set id | id in clients && clients[id] == h
  }

  ghost function Copies<H>(clients: map<string, H>, h: H): nat {
    |Holders(clients, h)|
  }

  /** A group's copy for its parent: only the topic differs. */
  function Raised(pkt: Publication, group: int): Publication {
    pkt.(topic := Text.Print(group) + "/" + pkt.topic)
  }

  ghost function Repeat(pkt: Publication, n: nat): seq<Publication> {
    seq(n, _ => pkt)
  }

  /** What client `h` is handed because of one publish: the parent's copy first. */
  ghost function Delivered<H>(levels: seq<Level<H>>, pkt: Publication, h: H): seq<Publication> {
    if levels == [] then []
    else Delivered(levels[1..], Raised(pkt, levels[0].id), h) + Repeat(pkt, Copies(levels[0].clients, h))
  }

  lemma CopiesInSpace<H>(r: Registry<H>, space: Space, h: H)
    requires Inv(r) && h in r.members
    ensures Copies(ClientsOf(r, space), h) == if Registered(r, h) && r.members[h].home == space then 1 else 0
  {
    var m := ClientsOf(r, space);
    var ids := Holders(m, h);
    assert SpaceOk(r, space);
    forall id | id in ids ensures id == r.members[h].id && Registered(r, h) && r.members[h].home == space {
      assert EntryOk(r, id);
    }
    if Registered(r, h) && r.members[h].home == space {
      assert EntryOk(r, r.members[h].id);
      assert ids == {r.members[h].id};
    } else {
      assert ids == {};
    }
  }

  lemma DeliveredLast<H>(level: Level<H>, pkt: Publication, h: H)
    ensures Delivered([level], pkt, h) == Repeat(pkt, Copies(level.clients, h))
    ensures Copies(level.clients, h) == 0 ==> Delivered([level], pkt, h) == []
    ensures Copies(level.clients, h) == 1 ==> Delivered([level], pkt, h) == [pkt]
  {
    assert [level][1..] == [];
  }

  ghost function Levels<H>(levels: seq<Level<H>>): seq<string> {
    if levels == [] then [] else Levels(levels[1..]) + [Text.Print(levels[0].id)]
  }

  /** Whatever is handed out on the way up is the publish itself, below the ids of the groups passed. */
  lemma {:induction false} DeliveredCarries<H>(levels: seq<Level<H>>, pkt: Publication, h: H, k: nat) returns (n: nat)
    requires k < |Delivered(levels, pkt, h)|
    ensures n < |levels| && Carries(Delivered(levels, pkt, h)[k], pkt, Levels(levels[..n]))
  {
    var up := Raised(pkt, levels[0].id);
    RaisedCarries(pkt, levels[0].id);
    if k < |Delivered(levels[1..], up, h)| {
      var m := DeliveredCarries(levels[1..], up, h, k);
      n := m + 1;
      CarriesOn(Delivered(levels, pkt, h)[k], up, pkt, Levels(levels[1..][..m]), Text.Print(levels[0].id));
      assert levels[..n][0] == levels[0] && levels[..n][1..] == levels[1..][..m];
    } else {
      n := 0;
    }
  }

  /** What a client should be handed of a publish by a client of `home`. */
  function Share<H>(r: Registry<H>, home: Space, pkt: Publication, h: H): seq<Publication> {
    if !Registered(r, h) then []
    else if r.members[h].home == home then [pkt]
    else if r.members[h].home == World && home.Room? then [pkt.(topic := Text.Print(home.id) + "/" + pkt.topic)]
    else []
  }

  /** `copy` is `pkt` under further levels: the id, the payload and the publisher are the same. */
  ghost predicate Carries(copy: Publication, pkt: Publication, levels: seq<string>) {
    && copy.id == pkt.id && copy.params == pkt.params && copy.clientId == pkt.clientId && copy.from == pkt.from
    && Text.Split(copy.topic, '/') == levels + Text.Split(pkt.topic, '/')
  }

  lemma RaisedCarries(pkt: Publication, id: int)
    ensures Carries(Raised(pkt, id), pkt, [Text.Print(id)]) && Carries(pkt, pkt, [])
  {
    Text.PrintChars(id);
    Text.SplitPlain(Text.Print(id), '/');
    Text.SplitConcat(Text.Print(id), pkt.topic, '/');
  }

  lemma CarriesOn(copy: Publication, up: Publication, pkt: Publication, levels: seq<string>, level: string)
    requires Carries(copy, up, levels) && Carries(up, pkt, [level])
    ensures Carries(copy, pkt, levels + [level])
  {
    assert levels + ([level] + Text.Split(pkt.topic, '/')) == levels + [level] + Text.Split(pkt.topic, '/');
  }

  /** What client `h` has got of a publish from `home`: one copy at home, one below the room's id in
      the world space, otherwise none. */
  ghost predicate Gets<H>(r: Registry<H>, home: Space, pkt: Publication, h: H, got: seq<Publication>) {
    if Registered(r, h) && r.members[h].home == home then |got| == 1 && Carries(got[0], pkt, [])
    else if Registered(r, h) && r.members[h].home == World && home.Room?
    then |got| == 1 && Carries(got[0], pkt, [Text.Print(home.id)])
    else got == []
  }

  lemma ShareGets<H>(r: Registry<H>, home: Space, pkt: Publication, h: H)
    ensures Gets(r, home, pkt, h, Share(r, home, pkt, h))
  {
    RaisedCarries(pkt, if home.Room? then home.id else ROOT_ID);
  }

  /** Exactly-once fan-out with room isolation. A publish by a client of a room reaches
      every client of that room once, every world-space client once with the room's prefix, and
      nobody in any other room; one from the world space reaches the world space only. */
  lemma FanOut<H>(r: Registry<H>, home: Space, pkt: Publication, h: H)
    requires Inv(r) && h in r.members
    ensures Delivered(Chain(r, home), pkt, h) == Share(r, home, pkt, h)
    ensures Gets(r, home, pkt, h, Delivered(Chain(r, home), pkt, h))
  {
    RaisedCarries(pkt, if home.Room? then home.id else ROOT_ID);
    CopiesInSpace(r, home, h);
    CopiesInSpace(r, World, h);
    DeliveredLast(Level(ROOT_ID, r.world), pkt, h);
    if home.Room? {
      var up := Raised(pkt, home.id);
      DeliveredLast(Level(ROOT_ID, r.world), up, h);
      assert Chain(r, home)[1..] == [Level(ROOT_ID, r.world)];
      assert Repeat(pkt, 0) == [] && Repeat(pkt, 1) == [pkt] && Repeat(up, 0) == [] && Repeat(up, 1) == [up];
      assert [up] + [] == [up];
    }
  }
}
