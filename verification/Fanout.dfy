/**
 One publish from end to end: the hub's registry decides whose centres it is queued at and under
 which topic, and each centre's history of subscriptions decides which callbacks it runs.
 */
module Fanout {
  import R = Registry
  import PubSub
  import Text
  import Topics

  /** How often `callback` runs for `filter` when a centre processes publishes of `pkts`. */
  ghost function Runs(ls: seq<PubSub.Listener>, pkts: seq<PubSub.Publication>, filter: string, callback: nat): nat {
    if pkts == [] then 0
    else
      multiset(PubSub.Called(ls, pkts[0]))[PubSub.Delivery(filter, callback, pkts[0])]
      + Runs(ls, pkts[1..], filter, callback)
  }

  /** How often it runs at client `h` because of the publish `pkt` from `home`. */
  ghost function RunsAt<H>(r: R.Registry<H>, home: R.Space, pkt: PubSub.Publication, h: H,
                           history: seq<PubSub.Event>, filter: string, callback: nat): nat {
    Runs(PubSub.Replay(history), R.Delivered(R.Chain(r, home), pkt, h), filter, callback)
  }

  lemma RunsOne(history: seq<PubSub.Event>, pkt: PubSub.Publication, filter: string, callback: nat)
    ensures Runs(PubSub.Replay(history), [pkt], filter, callback) ==
              if PubSub.InForce(history, filter, callback) && Topics.Accepts(filter, pkt.topic) then 1 else 0
  {
    PubSub.PublishRunsMatching(history, pkt, filter, callback);
    assert [pkt][1..] == [];
  }

  /** A callback runs once if it is in force and its filter accepts the topic as its client's space
      sees it, and not at all otherwise; in other rooms it never runs. */
  lemma RunsExactly<H>(r: R.Registry<H>, home: R.Space, pkt: PubSub.Publication, h: H,
                       history: seq<PubSub.Event>, filter: string, callback: nat)
    requires R.Inv(r) && h in r.members
    ensures RunsAt(r, home, pkt, h, history, filter, callback) ==
              if !R.Registered(r, h) || !PubSub.InForce(history, filter, callback) then 0
              else if r.members[h].home == home then (if Topics.Accepts(filter, pkt.topic) then 1 else 0)
              else if r.members[h].home == R.World && home.Room?
                then (if Topics.Accepts(filter, R.Raised(pkt, home.id).topic) then 1 else 0)
              else 0
  {
    R.FanOut(r, home, pkt, h);
    RunsOne(history, pkt, filter, callback);
    if home.Room? { RunsOne(history, R.Raised(pkt, home.id), filter, callback); }
  }

  /** A client that subscribes "<id>/F" is called for what the client of that id publishes in its space
      exactly when F accepts the topic that was asked for; an id with a level "#" accepts by length. */
  lemma HearsOne<H>(r: R.Registry<H>, home: R.Space, request: PubSub.Publication, clientId: string, name: nat,
                    h: H, history: seq<PubSub.Event>, filter: string, callback: nat)
    requires R.Inv(r) && h in r.members && R.Registered(r, h) && r.members[h].home == home
    requires PubSub.InForce(history, clientId + "/" + filter, callback)
    ensures var pkt := PubSub.Publication(request.id, clientId + "/" + request.topic, request.params, clientId, name);
            RunsAt(r, home, pkt, h, history, clientId + "/" + filter, callback) ==
              if (if "#" !in Text.Split(clientId, '/') then Topics.Accepts(filter, request.topic)
                  else |Text.Split(filter, '/')| <= |Text.Split(request.topic, '/')|)
              then 1 else 0
  {
    var pkt := PubSub.Publication(request.id, clientId + "/" + request.topic, request.params, clientId, name);
    RunsExactly(r, home, pkt, h, history, clientId + "/" + filter, callback);
    Topics.OwnPrefix(clientId, filter, request.topic);
  }

  /** A world-space client that subscribes "+/F" is called exactly when a client of the publisher's
      room that subscribes F is. */
  lemma WorldSeesEveryRoom<H>(r: R.Registry<H>, room: int, pkt: PubSub.Publication, filter: string,
                              local: H, localHistory: seq<PubSub.Event>, localCallback: nat,
                              world: H, worldHistory: seq<PubSub.Event>, worldCallback: nat)
    requires R.Inv(r) && local in r.members && world in r.members
    requires R.Registered(r, local) && r.members[local].home == R.Room(room)
    requires R.Registered(r, world) && r.members[world].home == R.World
    requires PubSub.InForce(localHistory, filter, localCallback)
    requires PubSub.InForce(worldHistory, "+" + "/" + filter, worldCallback)
    ensures RunsAt(r, R.Room(room), pkt, world, worldHistory, "+" + "/" + filter, worldCallback)
         == RunsAt(r, R.Room(room), pkt, local, localHistory, filter, localCallback)
  {
    RunsExactly(r, R.Room(room), pkt, local, localHistory, filter, localCallback);
    RunsExactly(r, R.Room(room), pkt, world, worldHistory, "+" + "/" + filter, worldCallback);
    Topics.AnyRoom(room, filter, pkt.topic);
  }

  /** One that subscribes "<room>/F" is called for that room's publishes that F accepts and for no
      other room's. */
  lemma WorldSeesOneRoom<H>(r: R.Registry<H>, wanted: int, room: int, pkt: PubSub.Publication, filter: string,
                            world: H, history: seq<PubSub.Event>, callback: nat)
    requires R.Inv(r) && world in r.members && R.Registered(r, world) && r.members[world].home == R.World
    requires PubSub.InForce(history, Text.Print(wanted) + "/" + filter, callback)
    ensures RunsAt(r, R.Room(room), pkt, world, history, Text.Print(wanted) + "/" + filter, callback) ==
              if wanted == room && Topics.Accepts(filter, pkt.topic) then 1 else 0
  {
    RunsExactly(r, R.Room(room), pkt, world, history, Text.Print(wanted) + "/" + filter, callback);
    Topics.OneRoom(wanted, room, filter, pkt.topic);
  }
}
