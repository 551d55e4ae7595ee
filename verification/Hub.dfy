/** The hub, its groups and its clients as objects, updated in place as group.go and hub.go do. */
module Hub {
  import opened Basics
  import opened R = Registry
  import opened PubSub
  import Disposal
  import Text

  /** The entries visited so far that hold `c`. */
  ghost function Seen(all: map<string, Client>, rest: set<string>, c: Client): set<string> {
    set k | k in all && k !in rest && all[k] == c
  }

  ghost function Visited(all: map<string, Client>, rest: set<string>, c: Client): nat {
    |Seen(all, rest, c)|
  }

  lemma NoneVisited(all: map<string, Client>)
    ensures forall c :: c in all.Values ==> Visited(all, all.Keys, c) == 0
  {
    forall c | c in all.Values ensures Visited(all, all.Keys, c) == 0 {
      assert Seen(all, all.Keys, c) == {};
    }
  }

  lemma AllVisited(all: map<string, Client>)
    ensures forall c :: c in all.Values ==> Visited(all, {}, c) == Copies(all, c)
  {
    forall c | c in all.Values ensures Visited(all, {}, c) == Copies(all, c) {
      assert Seen(all, {}, c) == Holders(all, c);
    }
  }

  lemma Visit(all: map<string, Client>, rest: set<string>, k: string, c: Client)
    requires k in rest && k in all
    ensures Visited(all, rest - {k}, c) == Visited(all, rest, c) + (if all[k] == c then 1 else 0)
  {
    var before := Seen(all, rest, c);
    var after := Seen(all, rest - {k}, c);
    if all[k] == c { assert after == before + {k}; } else { assert after == before; }
  }

  class Client {
    const name: nat          // what callbacks know it by
    var clientId: string
    var home: Space          // GroupId; nil is the world space
    var group: Group?
    var disposed: bool
    var watched: bool        // the hub's disposal listener has been added
    var sit: Disposal.Situation   // its loop and its connection, as a disposal would find them
    var inbox: seq<Publication>   // queued at the client's own publish/subscribe centre

    constructor (name: nat, id: string, sit: Disposal.Situation)
      ensures this.name == name && clientId == id && home == World && group == null
          && !disposed && !watched && this.sit == sit && inbox == []
    {
      this.name, this.sit := name, sit;
      clientId, home, group, disposed, watched, inbox := id, World, null, false, false, [];
    }
  }

  class Group {
    const id: int
    const parent: Group?
    ghost const depth: nat
    var clients: map<string, Client>
    var queue: seq<Publication>

    constructor (id: int, parent: Group?)
      ensures this.id == id && this.parent == parent && clients == map[] && queue == []
      ensures parent != null ==> parent.depth < depth
    {
      this.id, this.parent, this.clients, this.queue := id, parent, map[], [];
      this.depth := if parent == null then 0 else parent.depth + 1;
    }

    /** Parents are older than their children, so the chain ends. */
    ghost predicate Chained()
      decreases depth
    {
      parent != null ==> parent.depth < depth && parent.Chained()
    }

    /** This group and the groups above it. */
    ghost function Above(): set<Group>
      requires Chained()
      decreases depth
    {
      {this} + if parent == null then {} else parent.Above()
    }

    /** The levels that the groups below `g` put before a topic, the outermost first. */
    ghost function Path(g: Group): seq<string>
      requires Chained() && g in Above()
      decreases depth
    {
      if g == this then [] else parent.Path(g) + [Text.Print(id)]
    }

    /** The copy of `pkt` that group `g` gets. */
    ghost function CopyAt(g: Group, pkt: Publication): (copy: Publication)
      requires Chained() && g in Above()
      ensures Carries(copy, pkt, Path(g))
      decreases depth
    {
      RaisedCarries(pkt, id);
      if g == this then pkt
      else
        var copy := parent.CopyAt(g, Raised(pkt, id));
        CarriesOn(copy, Raised(pkt, id), pkt, parent.Path(g), Text.Print(id));
        copy
    }

    ghost function Levels(): (levels: seq<Level<Client>>)
      requires Chained()
      reads Above()
      ensures |levels| > 0
      decreases depth
    {
      [Level(id, clients)] + if parent == null then [] else parent.Levels()
    }

    ghost function Reached(): set<Client>
      requires Chained()
      reads Above()
      decreases depth
    {
      clients.Values + if parent == null then {} else parent.Reached()
    }

    lemma AboveIsOlder()
      requires Chained()
      ensures forall g :: g in Above() ==> g.depth <= depth
      decreases depth
    {
      if parent != null { parent.AboveIsOlder(); }
    }

    method AddClient(client: Client)
      modifies this`clients, client`group
      ensures clients == old(clients)[client.clientId := client] && client.group == this
    {
      clients := clients[client.clientId := client];
      client.group := this;
    }

    method RemoveClient(clientId: string)
      modifies this`clients
      ensures clients == Remove(old(clients), clientId)
    {
      clients := Remove(clients, clientId);
    }

    /** Range over the clients: each entry gets the packet, in an order Go leaves open. */
    method Hand(pkt: Publication)
      modifies clients.Values`inbox
      ensures forall c :: c in clients.Values ==> c.inbox == old(c.inbox) + Repeat(pkt, Copies(clients, c))
    {
      var rest := clients.Keys;
      NoneVisited(clients);
      while rest != {}
        invariant rest <= clients.Keys
        invariant forall c :: c in clients.Values ==> c.inbox == old(c.inbox) + Repeat(pkt, Visited(clients, rest, c))
      {
        var k :| k in rest;
        clients[k].inbox := clients[k].inbox + [pkt];
        forall c | c in clients.Values
          ensures c.inbox == old(c.inbox) + Repeat(pkt, Visited(clients, rest - {k}, c))
        {
          Visit(clients, rest, k, c);
        }
        rest := rest - {k};
      }
      AllVisited(clients);
    }

    lemma Absent(pkt: Publication, c: Client)
      requires c !in clients.Values
      ensures Repeat(pkt, Copies(clients, c)) == []
    {
      assert Holders(clients, c) == {};
    }

    lemma Unreached(pkt: Publication, c: Client)
      requires Chained() && c !in Reached()
      ensures Delivered(Levels(), pkt, c) == []
      decreases depth
    {
      Absent(pkt, c);
      var up := Raised(pkt, id);
      if parent == null { assert Levels()[1..] == []; } else {
        parent.Unreached(up, c);
        assert Levels()[1..] == parent.Levels();
      }
    }

    /** A publish: to the parent under this group's prefix, to its own centre, to its clients. */
    method PubTopic(pkt: Publication)
      requires Chained()
      modifies Above()`queue, Reached()`inbox
      ensures forall c: Client :: old(allocated(c)) && c in old(Reached()) ==>
                c.inbox == old(c.inbox) + Delivered(old(Levels()), pkt, c)
      ensures forall g: Group :: old(allocated(g)) && g in Above() ==>
                g.queue == old(g.queue) + [CopyAt(g, pkt)] && Carries(CopyAt(g, pkt), pkt, Path(g))
      decreases depth, 1
    {
      ghost var levels := Levels();
      Forward(pkt);
      queue := queue + [pkt];
      Hand(pkt);
      forall c: Client | old(allocated(c)) && c in old(Reached())
        ensures c.inbox == old(c.inbox) + Delivered(levels, pkt, c)
      {
        if c !in clients.Values { Absent(pkt, c); }
      }
    }

    /** The call on the parent, if there is one. */
    method Forward(pkt: Publication)
      requires Chained()
      modifies (Above() - {this})`queue, Reached()`inbox
      ensures forall c: Client :: old(allocated(c)) && c in old(Reached()) ==>
                c.inbox == old(c.inbox) + Delivered(old(Levels())[1..], Raised(pkt, id), c)
      ensures forall g: Group :: old(allocated(g)) && g in Above() && g != this ==>
                g.queue == old(g.queue) + [CopyAt(g, pkt)]
      decreases depth, 0
    {
      ghost var levels, up := Levels(), Raised(pkt, id);
      if parent != null {
        parent.AboveIsOlder();
        forall c: Client | c !in parent.Reached() ensures Delivered(parent.Levels(), up, c) == [] {
          parent.Unreached(up, c);
        }
        parent.PubTopic(Raised(pkt, id));
        assert levels[1..] == old(parent.Levels());
      } else {
        assert levels[1..] == [];
      }
    }
  }

  ghost function SpaceOf(g: Group): Space {
    if g.parent == null then World else Room(g.id)
  }

  class Hub {
    const root: Group
    var clients: map<string, Client>
    var buckets: map<int, Group>

    constructor ()
      ensures Valid() && State({}) == R.Empty() && root.id == -1
      ensures fresh(root)
    {
      root := new Group(ROOT_ID, null);
      clients, buckets := map[], map[];
      new;
      assert State({}).rooms == map[];
    }

    ghost predicate Valid()
      reads this
    {
      && root.id == ROOT_ID && root.parent == null
      && forall id :: id in buckets ==>
           buckets[id].id == id && buckets[id].parent == root && root.depth < buckets[id].depth
    }

    /** The registry these objects represent, as far as the clients in `known` go. */
    ghost function State(known: set<Client>): Registry<Client>
      reads this, known, root, buckets.Values
    {
      Registry(
        map c | c in known :: MemberOf(c),
        clients,
        root.clients,
        map id | id in buckets :: buckets[id].clients)
    }

    static ghost function MemberOf(c: Client): Member
      reads c
    {
      Member(c.clientId, c.home, if c.group == null then None else Some(SpaceOf(c.group)), c.disposed, c.watched, c.sit)
    }

    /** Finding a group changes nothing that a lookup of its clients can see. */
    method FindOrCreateGroup(id: int) returns (g: Group)
      requires Valid()
      modifies this`buckets
      ensures Valid() && id in buckets && g == buckets[id]
      ensures id in old(buckets) ==> buckets == old(buckets)
      ensures id !in old(buckets) ==> fresh(g) && g.clients == map[] && buckets == old(buckets)[id := g]
    {
      if id !in buckets {
        g := new Group(id, root);
        buckets := buckets[id := g];
      } else {
        g := buckets[id];
      }
    }

    /** The registry after a lookup: perhaps one more, empty, room. */
    static ghost function Found(r: Registry<Client>, home: Space): Registry<Client> {
      if home.Room? && home.id !in r.rooms then r.(rooms := r.rooms[home.id := map[]]) else r
    }

    method GroupOf(home: Space, ghost known: set<Client>) returns (g: Group)
      requires Valid()
      modifies this`buckets
      ensures fresh(buckets.Values - old(buckets.Values))
      ensures Valid() && SpaceOf(g) == home
      ensures g == root || (home.Room? && home.id in buckets && buckets[home.id] == g)
      ensures g == root || fresh(g) || g in old(buckets.Values)
      ensures State(known) == Found(old(State(known)), home)
      ensures g.clients == ClientsOf(State(known), home)
    {
      match home
      case World =>
        g := root;
        assert State(known).rooms == old(State(known)).rooms;
      case Room(id) =>
        g := FindOrCreateGroup(id);
        assert State(known).rooms == Found(old(State(known)), home).rooms;
    }

    /** Rooms are distinct objects, and none is the root. */
    lemma RoomsApart(g: Group, home: Space, id: int)
      requires Valid() && SpaceOf(g) == home && id in buckets && buckets[id] == g
      ensures g != root && home == Room(id)
    {
    }

    /** A rooms map in which only `g`'s entry may differ. */
    lemma SameRooms(before: map<int, map<string, Client>>, after: map<int, map<string, Client>>, g: Group, home: Space)
      requires Valid() && SpaceOf(g) == home
      requires g == root || (home.Room? && home.id in buckets && buckets[home.id] == g)
      requires before.Keys == after.Keys == buckets.Keys
      requires forall id :: id in buckets ==> after[id] == if buckets[id] == g then g.clients else before[id]
      ensures after == if home.Room? then before[home.id := g.clients] else before
    {
      var expected := if home.Room? then before[home.id := g.clients] else before;
      assert expected.Keys == after.Keys;
      forall id | id in after ensures after[id] == expected[id] {
        assert id in buckets;
        if buckets[id] == g { RoomsApart(g, home, id); }
      }
    }

    method RemoveFrom(g: Group, home: Space, clientId: string, ghost known: set<Client>)
      requires Valid() && SpaceOf(g) == home
      requires g == root || (home.Room? && home.id in buckets && buckets[home.id] == g)
      modifies g`clients
      ensures State(known) == SetClientsOf(old(State(known)), home, Remove(old(g.clients), clientId))
    {
      ghost var before := State(known);
      forall id | id in buckets && buckets[id] == g ensures g != root && home == Room(id) { RoomsApart(g, home, id); }
      g.RemoveClient(clientId);
      SameRooms(before.rooms, State(known).rooms, g, home);
      assert State(known).members == before.members;
    }

    method AddTo(g: Group, home: Space, client: Client, ghost known: set<Client>)
      requires Valid() && SpaceOf(g) == home && client in known
      requires g == root || (home.Room? && home.id in buckets && buckets[home.id] == g)
      modifies g`clients, client`group
      ensures State(known) ==
                SetClientsOf(old(State(known)), home, old(g.clients)[client.clientId := client])
                .(members := old(State(known)).members[client := old(MemberOf(client)).(joined := Some(home))])
      ensures MemberOf(client) == old(MemberOf(client)).(joined := Some(home))
    {
      ghost var before := State(known);
      forall id | id in buckets && buckets[id] == g ensures g != root && home == Room(id) { RoomsApart(g, home, id); }
      g.AddClient(client);
      SameRooms(before.rooms, State(known).rooms, g, home);
      assert State(known).members == before.members[client := MemberOf(client)];
    }

    /** The listener that onClientLogin adds. */
    method OnDisposed(c: Client, ghost known: set<Client>)
      requires Valid()
      modifies this`clients, this`buckets, root`clients, buckets.Values`clients
      ensures fresh(buckets.Values - old(buckets.Values))
      ensures Valid() && State(known) == Leave(old(State(known)), old(MemberOf(c)))
    {
      ghost var before, m := State(known), MemberOf(c);
      clients := Remove(clients, c.clientId);
      assert State(known).rooms == before.rooms;
      ghost var r1 := before.(clients := Remove(before.clients, m.id));
      assert State(known) == r1;
      var g := GroupOf(c.home, known);
      Overwrites(r1, m.home, Remove(g.clients, c.clientId));
      RemoveFrom(g, c.home, c.clientId, known);
    }

    static lemma Overwrites(r: Registry<Client>, home: Space, m: map<string, Client>)
      ensures SetClientsOf(Found(r, home), home, m) == SetClientsOf(r, home, m)
      ensures ClientsOf(Found(r, home), home) == ClientsOf(r, home)
    {
      if home.Room? {
        assert Found(r, home).rooms[home.id := m] == r.rooms[home.id := m];
      }
    }

    /** Dispose, with what the goroutines beside it do, up to where it raises OnDispose or hangs. */
    method Dispose(c: Client, schedule: seq<Disposal.Event>, ghost known: set<Client>) returns (raised: bool)
      requires Valid() && c in known
      requires c.disposed || Disposal.Complete(Disposal.Start(c.sit), schedule)
      modifies c`disposed, this`clients, this`buckets, root`clients, buckets.Values`clients
      ensures fresh(buckets.Values - old(buckets.Values))
      ensures Valid() && State(known) == R.Dispose(old(State(known)), c, raised)
      ensures R.MayEnd(old(MemberOf(c)), raised)
      ensures !raised ==> !old(c.disposed)
    {
      if c.disposed { return true; }
      Retire(c, known);
      raised := Proceed(c.sit, schedule);
      if raised && c.watched { OnDisposed(c, known); }
    }

    /** The swap of the flag. */
    method Retire(c: Client, ghost known: set<Client>)
      requires Valid() && c in known
      modifies c`disposed
      ensures MemberOf(c) == old(MemberOf(c)).(disposed := true)
      ensures State(known) ==
                old(State(known)).(members := old(State(known)).members[c := old(MemberOf(c)).(disposed := true)])
    {
      ghost var before := State(known);
      c.disposed := true;
      assert State(known).rooms == before.rooms;
      assert State(known).members == before.members[c := MemberOf(c)];
    }

    /** Whether it gets as far as OnDispose. */
    method Proceed(sit: Disposal.Situation, schedule: seq<Disposal.Event>) returns (raised: bool)
      requires Disposal.Complete(Disposal.Start(sit), schedule)
      ensures if raised then Disposal.MayRaise(Disposal.Start(sit)) else Disposal.MayHang(Disposal.Start(sit))
      ensures forall s1 :: Disposal.Reaches(Disposal.Start(sit), schedule, s1) ==> (raised <==> s1.phase.Raised?)
    {
      var s := Disposal.Play(Disposal.Start(sit), schedule);
      forall s1 | Disposal.Reaches(Disposal.Start(sit), schedule, s1) ensures s1 == s {
        Disposal.OneEnd(Disposal.Start(sit), schedule, s, s1);
      }
      return s.phase.Raised?;
    }

    /** Its loop and its connection go on. */
    method Turn(c: Client, sit: Disposal.Situation, ghost known: set<Client>)
      requires Valid() && c in known
      modifies c`sit
      ensures Valid() && State(known) == R.Turn(old(State(known)), c, sit)
    {
      ghost var before := State(known);
      c.sit := sit;
      assert State(known).rooms == before.rooms;
      assert State(known).members == before.members[c := MemberOf(c)];
    }

    /** The login handler. */
    method Identify(c: Client, id: string, home: Space, ghost known: set<Client>)
      requires Valid() && c in known
      modifies c`clientId, c`home
      ensures Valid() && State(known) == R.SetIdentity(old(State(known)), c, id, home)
    {
      ghost var before := State(known);
      c.clientId := id;
      c.home := home;
      assert State(known).rooms == before.rooms;
      assert State(known).members == before.members[c := MemberOf(c)];
    }

    /** LoadAndDelete and the disposal of what it found; whether that returned. */
    method EvictOld(id: string, schedule: seq<Disposal.Event>, ghost known: set<Client>) returns (raised: bool)
      requires Valid() && (id in clients ==> CanEvict(clients[id], schedule, known))
      modifies clients.Values`disposed, this`clients, this`buckets, root`clients, buckets.Values`clients
      ensures fresh(buckets.Values - old(buckets.Values))
      ensures Valid() && State(known) == R.Evict(old(State(known)), id, raised)
      ensures id in old(clients) ==> R.MayEnd(old(MemberOf(clients[id])), raised)
      ensures !raised ==> id in old(clients) && !old(clients[id].disposed)
    {
      if id !in clients { return true; }
      ghost var before := State(known);
      var old_ := clients[id];
      clients := Remove(clients, id);
      assert State(known) == before.(clients := Remove(before.clients, id)) by {
        assert State(known).rooms == before.rooms;
      }
      raised := Dispose(old_, schedule, known);
    }

    ghost predicate CanEvict(c: Client, schedule: seq<Disposal.Event>, known: set<Client>)
      reads c
    {
      c in known && (c.disposed || Disposal.Complete(Disposal.Start(c.sit), schedule))
    }

    /** The way is free for `c`, or it never will be. */
    method MakeRoom(c: Client, schedule: seq<Disposal.Event>, ghost known: set<Client>) returns (raised: bool)
      requires Valid() && c in known
      requires c.clientId in clients ==> CanEvict(clients[c.clientId], schedule, known)
      modifies clients.Values`disposed, this`clients, this`buckets, root`clients, buckets.Values`clients
      ensures Valid() && fresh(buckets.Values - old(buckets.Values))
      ensures c.clientId in old(clients) ==> R.MayEnd(old(MemberOf(clients[c.clientId])), raised)
      ensures c in State(known).members
      ensures raised ==> R.Login(old(State(known)), c, raised) == R.Enter(State(known), c)
      ensures !raised ==> R.Login(old(State(known)), c, raised) == State(known)
    {
      ghost var before := State(known);
      raised := EvictOld(c.clientId, schedule, known);
      LoginInSteps(before, c, raised);
    }

    /** A client has logged in: it replaces any client of the same id and enters its space, unless
        the disposal of the other hangs. */
    method OnClientLogin(c: Client, schedule: seq<Disposal.Event>, ghost known: set<Client>) returns (raised: bool)
      requires Valid() && c in known
      requires c.clientId in clients ==> CanEvict(clients[c.clientId], schedule, known)
      modifies c`group, c`watched, clients.Values`disposed
      modifies this`clients, this`buckets, root`clients, buckets.Values`clients
      ensures fresh(buckets.Values - old(buckets.Values))
      ensures Valid() && State(known) == R.Login(old(State(known)), c, raised)
      ensures c.clientId in old(clients) ==> R.MayEnd(old(MemberOf(clients[c.clientId])), raised)
    {
      raised := MakeRoom(c, schedule, known);
      if raised { EnterNew(c, known); }
    }

    static lemma LoginInSteps(r: Registry<Client>, c: Client, raised: bool)
      requires c in r.members && (r.members[c].id in r.clients ==> r.clients[r.members[c].id] in r.members)
      requires raised || R.Occupied(r, r.members[c].id)
      ensures var r1 := R.Evict(r, r.members[c].id, raised);
              c in r1.members && R.Login(r, c, raised) == if raised then R.Enter(r1, c) else r1
    {
    }

    method EnterNew(c: Client, ghost known: set<Client>)
      requires Valid() && c in known
      modifies c`group, c`watched, this`clients, this`buckets, root`clients, buckets.Values`clients
      ensures fresh(buckets.Values - old(buckets.Values))
      ensures Valid() && State(known) == R.Enter(old(State(known)), c)
    {
      ghost var before := State(known);
      EnterMaps(c, known);
      ghost var r2 := State(known);
      Watch(c, known);
      EnterInSteps(before, c, r2, State(known));
    }

    method EnterMaps(c: Client, ghost known: set<Client>)
      requires Valid() && c in known
      modifies c`group, this`clients, this`buckets, root`clients, buckets.Values`clients
      ensures Valid() && fresh(buckets.Values - old(buckets.Values))
      ensures State(known) == Placed(old(State(known)), c, old(MemberOf(c)))
      ensures MemberOf(c) == old(MemberOf(c)).(joined := Some(c.home))
    {
      AddClient(c, known);
      EnterHome(c, known);
    }

    static ghost function Placed(r: Registry<Client>, c: Client, m: Member): Registry<Client> {
      SetClientsOf(r.(clients := r.clients[m.id := c]), m.home,
                   ClientsOf(r.(clients := r.clients[m.id := c]), m.home)[m.id := c])
        .(members := r.members[c := m.(joined := Some(m.home))])
    }

    method EnterHome(c: Client, ghost known: set<Client>)
      requires Valid() && c in known
      modifies c`group, this`buckets, root`clients, buckets.Values`clients
      ensures Valid() && fresh(buckets.Values - old(buckets.Values))
      ensures var r, m := old(State(known)), old(MemberOf(c));
              State(known) == SetClientsOf(r, m.home, ClientsOf(r, m.home)[m.id := c])
                                .(members := r.members[c := m.(joined := Some(m.home))])
      ensures MemberOf(c) == old(MemberOf(c)).(joined := Some(c.home))
    {
      ghost var r, m := State(known), MemberOf(c);
      var g := GroupOf(c.home, known);
      Overwrites(r, m.home, g.clients[m.id := c]);
      AddTo(g, c.home, c, known);
    }

    static lemma EnterInSteps(r: Registry<Client>, c: Client, r2: Registry<Client>, r3: Registry<Client>)
      requires c in r.members
      requires var m := r.members[c];
               && r2 == Placed(r, c, m)
               && r3 == r2.(members := r2.members[c := m.(joined := Some(m.home), watched := true)])
      ensures r3 == R.Enter(r, c)
    {
      var m := r.members[c];
      assert ClientsOf(r.(clients := r.clients[m.id := c]), m.home) == ClientsOf(r, m.home);
      assert r3.members == R.Enter(r, c).members;
    }

    method AddClient(c: Client, ghost known: set<Client>)
      requires Valid()
      modifies this`clients
      ensures Valid() && buckets == old(buckets)
      ensures State(known) == old(State(known)).(clients := old(clients)[c.clientId := c])
    {
      ghost var before := State(known);
      clients := clients[c.clientId := c];
      assert State(known).rooms == before.rooms;
    }

    /** Adds the disposal listener. */
    method Watch(c: Client, ghost known: set<Client>)
      requires Valid() && c in known
      modifies c`watched
      ensures State(known) ==
                      old(State(known)).(members := old(State(known)).members[c := old(MemberOf(c)).(watched := true)])
    {
      ghost var before := State(known);
      c.watched := true;
      assert State(known).rooms == before.rooms;
      assert State(known).members == before.members[c := MemberOf(c)];
    }

    /** What the hub makes of a grouped client's publish packet. */
    static function Stamped(request: Publication, clientId: string, name: nat): Publication {
      request.(topic := clientId + "/" + request.topic, clientId := clientId, from := name)
    }

    /** `copy` is the request as published by that client, below further levels: its topic is under
        the client's id, its payload and its id are the request's. */
    static ghost predicate IsCopy(copy: Publication, request: Publication, clientId: string, name: nat,
                                  levels: seq<string>) {
      && copy.id == request.id && copy.params == request.params && copy.clientId == clientId && copy.from == name
      && Text.Split(copy.topic, '/') == levels + Text.Split(clientId, '/') + Text.Split(request.topic, '/')
    }

    static lemma StampedIs(request: Publication, clientId: string, name: nat, copy: Publication, levels: seq<string>)
      requires Carries(copy, Stamped(request, clientId, name), levels)
      ensures IsCopy(copy, request, clientId, name, levels)
    {
      Text.SplitConcat(clientId, request.topic, '/');
    }

    static lemma StampedCopies(request: Publication, clientId: string, name: nat, room: int)
      ensures var pkt := Stamped(request, clientId, name);
              && IsCopy(pkt, request, clientId, name, [])
              && IsCopy(pkt.(topic := Text.Print(room) + "/" + pkt.topic), request, clientId, name, [Text.Print(room)])
    {
      var pkt := Stamped(request, clientId, name);
      RaisedCarries(pkt, room);
      StampedIs(request, clientId, name, pkt, []);
      StampedIs(request, clientId, name, Raised(pkt, room), [Text.Print(room)]);
    }

    /** What `x` has got of a request that a client of `home` published. */
    static ghost predicate Hears(r: Registry<Client>, home: Space, request: Publication, clientId: string, name: nat,
                                 x: Client, got: seq<Publication>) {
      if Registered(r, x) && r.members[x].home == home then |got| == 1 && IsCopy(got[0], request, clientId, name, [])
      else if Registered(r, x) && r.members[x].home == World && home.Room?
      then |got| == 1 && IsCopy(got[0], request, clientId, name, [Text.Print(home.id)])
      else got == []
    }

    static lemma ShareHears(r: Registry<Client>, home: Space, request: Publication, clientId: string, name: nat,
                            x: Client)
      ensures Hears(r, home, request, clientId, name, x, R.Share(r, home, Stamped(request, clientId, name), x))
    {
      var pkt := Stamped(request, clientId, name);
      ShareGets(r, home, pkt, x);
      if R.Share(r, home, pkt, x) != [] {
        StampedIs(request, clientId, name, R.Share(r, home, pkt, x)[0],
                  if r.members[x].home == home then [] else [Text.Print(home.id)]);
      }
    }

    lemma LevelsAreChain(g: Group)
      requires Valid() && (g == root || (g.id in buckets && buckets[g.id] == g))
      ensures g.Chained() && g.Levels() == Chain(State({}), SpaceOf(g))
      ensures g.Above() <= {root} + buckets.Values
    {
      if g != root { assert g.Levels() == [Level(g.id, g.clients)] + root.Levels(); }
    }

    ghost predicate Ours(g: Group)
      reads this
    {
      g == root || (g.id in buckets && buckets[g.id] == g)
    }

    lemma CopyAtRoot(g: Group, pkt: Publication)
      requires Valid() && Ours(g)
      ensures g.Chained() && root in g.Above() && g.CopyAt(g, pkt) == pkt
      ensures g.CopyAt(root, pkt) == if g == root then pkt else Raised(pkt, g.id)
    {
      if g != root { assert g.parent == root; }
    }

    /** What `x` is to get of a publish in group `g`. */
    ghost function Share(g: Group, known: set<Client>, pkt: Publication, x: Client): seq<Publication>
      reads this, known, root, buckets.Values
    {
      R.Share(State(known), SpaceOf(g), pkt, x)
    }

    lemma FanOutOf(g: Group, known: set<Client>, pkt: Publication, x: Client)
      requires Valid() && R.Inv(State(known)) && Ours(g) && x in known && g.Chained()
      ensures Delivered(g.Levels(), pkt, x) == Share(g, known, pkt, x)
      ensures x !in g.Reached() ==> Share(g, known, pkt, x) == []
    {
      LevelsAreChain(g);
      assert Chain(State({}), SpaceOf(g)) == Chain(State(known), SpaceOf(g));
      FanOut(State(known), SpaceOf(g), pkt, x);
      if x !in g.Reached() { g.Unreached(pkt, x); }
    }

    lemma Footprint(g: Group, known: set<Client>)
      requires Valid() && R.Inv(State(known)) && Ours(g)
      ensures g.Chained() && g.Above() <= {root} + buckets.Values && g.Reached() <= clients.Values
    {
      LevelsAreChain(g);
      ReachedAreClients(g, known);
    }

    lemma Ready(g: Group, known: set<Client>, pkt: Publication)
      requires Valid() && R.Inv(State(known)) && Ours(g)
      ensures g.Chained() && g.Above() <= {root} + buckets.Values && g.Reached() <= clients.Values
      ensures forall x :: x in known ==> Delivered(g.Levels(), pkt, x) == Share(g, known, pkt, x)
      ensures forall x :: x in known && x !in g.Reached() ==> Share(g, known, pkt, x) == []
    {
      Footprint(g, known);
      forall x | x in known
        ensures Delivered(g.Levels(), pkt, x) == Share(g, known, pkt, x)
        ensures x !in g.Reached() ==> Share(g, known, pkt, x) == []
      {
        FanOutOf(g, known, pkt, x);
      }
    }

    /** The group's PubTopic, when it is known to hand out exactly the shares. */
    method HandOut(g: Group, pkt: Publication, ghost known: set<Client>)
      requires g.Chained() && g.Above() <= {root} + buckets.Values && g.Reached() <= clients.Values && root in g.Above()
      requires forall x :: x in known ==> Delivered(g.Levels(), pkt, x) == Share(g, known, pkt, x)
      requires forall x :: x in known && x !in g.Reached() ==> Share(g, known, pkt, x) == []
      modifies root`queue, buckets.Values`queue, known`inbox, clients.Values`inbox
      ensures forall x :: x in known ==> x.inbox == old(x.inbox) + old(Share(g, known, pkt, x))
      ensures g.queue == old(g.queue) + [g.CopyAt(g, pkt)] && root.queue == old(root.queue) + [g.CopyAt(root, pkt)]
    {
      g.PubTopic(pkt);
    }

    /** A publish in a group of a lawful hub: the packet is queued once at every registered client
        of that space, once under the room's prefix at every world-space client, and at no other
        client; and at the centres of the group and of the root. */
    method Publish(g: Group, pkt: Publication, ghost known: set<Client>)
      requires Valid() && R.Inv(State(known)) && Ours(g)
      modifies root`queue, buckets.Values`queue, known`inbox, clients.Values`inbox
      ensures forall x :: x in known ==> x.inbox == old(x.inbox) + old(Share(g, known, pkt, x))
      ensures g.queue == old(g.queue) + [pkt]
      ensures g != root ==> root.queue == old(root.queue) + [pkt.(topic := Text.Print(g.id) + "/" + pkt.topic)]
    {
      CopyAtRoot(g, pkt);
      Ready(g, known, pkt);
      HandOut(g, pkt, known);
    }

    /** A grouped client publishes in its group under its own prefix, any other to its own centre only. */
    method Relay(c: Client, request: Publication, ghost known: set<Client>)
      requires Valid() && R.Inv(State(known)) && c in known && (c.group != null ==> Ours(c.group))
      modifies root`queue, buckets.Values`queue, known`inbox, clients.Values`inbox
      ensures var pkt := Stamped(request, c.clientId, c.name);
              c.group != null ==>
                && (forall x :: x in known ==> x.inbox == old(x.inbox) + old(Share(c.group, known, pkt, x)))
                && c.group.queue == old(c.group.queue) + [pkt]
                && (c.group != root ==>
                      root.queue == old(root.queue) + [pkt.(topic := Text.Print(c.group.id) + "/" + pkt.topic)])
      ensures c.group == null ==>
                && c.inbox == old(c.inbox) + [request.(from := c.name)]
                && (forall x :: x in known && x != c ==> x.inbox == old(x.inbox))
                && root.queue == old(root.queue) && forall g :: g in buckets.Values ==> g.queue == old(g.queue)
    {
      if c.group != null {
        Publish(c.group, Stamped(request, c.clientId, c.name), known);
      } else {
        c.inbox := c.inbox + [request.(from := c.name)];
      }
    }

    /** onReceivePublish. When a registered client publishes, every client of its home hears it once,
        and from a room every world-space client once; each copy carries the request's id and payload,
        names the publisher, and has its topic below the publisher's id, in the world space below the
        room's. */
    method OnReceivePublish(c: Client, request: Publication, ghost known: set<Client>)
      requires Valid() && R.Inv(State(known)) && c in known && (c.group != null ==> Ours(c.group))
      modifies root`queue, buckets.Values`queue, known`inbox, clients.Values`inbox
      ensures var pkt := Stamped(request, c.clientId, c.name);
              c.group != null ==>
                && (forall x :: x in known ==> x.inbox == old(x.inbox) + old(Share(c.group, known, pkt, x)))
                && |c.group.queue| == |old(c.group.queue)| + 1 && old(c.group.queue) <= c.group.queue
                && IsCopy(c.group.queue[|old(c.group.queue)|], request, c.clientId, c.name, [])
      ensures old(Registered(State(known), c)) ==>
                forall x :: x in known ==>
                  old(x.inbox) <= x.inbox
                  && Hears(old(State(known)), c.home, request, c.clientId, c.name, x, x.inbox[|old(x.inbox)|..])
      ensures old(Registered(State(known), c)) ==>
                && |root.queue| == |old(root.queue)| + 1 && old(root.queue) <= root.queue
                && IsCopy(root.queue[|old(root.queue)|], request, c.clientId, c.name,
                          if c.home == World then [] else [Text.Print(c.home.id)])
      ensures c.group == null ==>
                && c.inbox == old(c.inbox) + [request.(from := c.name)]
                && (forall x :: x in known && x != c ==> x.inbox == old(x.inbox))
                && root.queue == old(root.queue) && forall g :: g in buckets.Values ==> g.queue == old(g.queue)
    {
      ghost var r, pkt := State(known), Stamped(request, c.clientId, c.name);
      if Registered(r, c) { GroupIsHome(c, known); }
      Relay(c, request, known);
      StampedCopies(request, c.clientId, c.name, if c.group == null then ROOT_ID else c.group.id);
      if Registered(r, c) {
        forall x | x in known
          ensures x.inbox == old(x.inbox) + R.Share(r, c.home, pkt, x)
          ensures Hears(r, c.home, request, c.clientId, c.name, x, R.Share(r, c.home, pkt, x))
        {
          ShareHears(r, c.home, request, c.clientId, c.name, x);
        }
      }
    }

    /** A registered client's group is its home. */
    lemma GroupIsHome(c: Client, known: set<Client>)
      requires Valid() && R.Inv(State(known)) && c in known && Registered(State(known), c)
      ensures c.group != null && SpaceOf(c.group) == c.home
    {
      assert EntryOk(State(known), c.clientId);
    }

    lemma ReachedAreClients(g: Group, known: set<Client>)
      requires Valid() && R.Inv(State(known)) && (g == root || (g.id in buckets && buckets[g.id] == g))
      requires g.Chained()
      ensures g.Reached() <= clients.Values
    {
      var r := State(known);
      assert R.SpaceOk(r, World) && R.SpaceOk(r, SpaceOf(g));
      assert root.Reached() == root.clients.Values;
      assert g.Reached() == g.clients.Values + root.clients.Values;
      forall x | x in g.Reached() ensures x in clients.Values {
        if id :| id in g.clients && g.clients[id] == x {
          assert g.clients == ClientsOf(r, SpaceOf(g));
          assert clients[id] == x;
        } else {
          var id :| id in root.clients && root.clients[id] == x;
          assert clients[id] == x;
        }
      }
    }
  }
}
