/**
 One publish/subscribe centre: the listener list its event loop keeps, what the list means in
 terms of the events processed so far, and which callbacks each publish runs.
 */
module PubSub {
  import Text
  import Topics

  /** Callbacks are named by number. */
  datatype Listener = Listener(topic: string, callback: nat, splits: seq<string>)

  /** A publish on its way: the packet, and the client it is from, named by number as well. */
  datatype Publication = Publication(id: string, topic: string, params: string, clientId: string, from: nat)

  datatype Event =
    | Subscribe(topic: string, callback: nat)
    | Unsubscribe(topic: string)
    | Publish(pkt: Publication)
    | ClearAll

  /** The callback of the listener for `filter`, run for one publish. */
  datatype Delivery = Delivery(filter: string, callback: nat, pkt: Publication)

  function NewListener(topic: string, callback: nat): Listener {
    Listener(topic, callback, Text.Split(topic, '/'))
  }

  // ---- what each event does to the list ----

  predicate Listed(ls: seq<Listener>, topic: string) {
    exists i :: 0 <= i < |ls| && ls[i].topic == topic
  }

  /** The list without its first listener for `topic`. */
  function Drop(ls: seq<Listener>, topic: string): (r: seq<Listener>)
    ensures |r| <= |ls|
  {
    if ls == [] then [] else if ls[0].topic == topic then ls[1..] else [ls[0]] + Drop(ls[1..], topic)
  }

  function After(ls: seq<Listener>, ev: Event): seq<Listener> {
    match ev
    case Subscribe(topic, callback) => if Listed(ls, topic) then ls else ls + [NewListener(topic, callback)]
    case Unsubscribe(topic) => Drop(ls, topic)
    case Publish(_) => ls
    case ClearAll => []
  }

  function Replay(history: seq<Event>): seq<Listener> {
    if history == [] then [] else After(Replay(history[..|history| - 1]), history[|history| - 1])
  }

  /** The callbacks a publish runs: the matching listeners, once each, in list order. */
  ghost function Called(ls: seq<Listener>, pkt: Publication): seq<Delivery> {
    if ls == [] then []
    else
      var rest := Called(ls[..|ls| - 1], pkt);
      var l := ls[|ls| - 1];
      if Topics.Matches(l.splits, Text.Split(pkt.topic, '/')) then rest + [Delivery(l.topic, l.callback, pkt)] else rest
  }

  // ---- the event loop ----

  class Center {
    var listeners: seq<Listener>
    var delivered: seq<Delivery>

    constructor ()
      ensures listeners == [] && delivered == []
    {
      listeners := [];
      delivered := [];
    }

    method OnSubscribe(topic: string, callback: nat)
      modifies this
      ensures listeners == After(old(listeners), Subscribe(topic, callback))
      ensures listeners == if Listed(old(listeners), topic) then old(listeners)
                           else old(listeners) + [Listener(topic, callback, Text.Split(topic, '/'))]
      ensures delivered == old(delivered)
    {
      var contained := false;
      var i := 0;
      while i < |listeners|
        invariant 0 <= i <= |listeners| && listeners == old(listeners) && delivered == old(delivered)
        invariant contained ==> Listed(listeners, topic)
        invariant !contained ==> forall j :: 0 <= j < i ==> listeners[j].topic != topic
      {
        if listeners[i].topic == topic {
          contained := true;
          break;
        }
        i := i + 1;
      }
      if !contained {
        listeners := listeners + [NewListener(topic, callback)];
      }
    }

    method OnUnsubscribe(topic: string)
      modifies this
      ensures listeners == After(old(listeners), Unsubscribe(topic))
      ensures delivered == old(delivered)
    {
      var i := 0;
      while i < |listeners|
        invariant 0 <= i <= |listeners| && listeners == old(listeners) && delivered == old(delivered)
        invariant Drop(listeners, topic) == listeners[..i] + Drop(listeners[i..], topic)
      {
        if listeners[i].topic == topic {
          assert listeners[i..][1..] == listeners[i + 1..];
          listeners := listeners[..i] + listeners[i + 1..];
          return;
        }
        assert listeners[i..][1..] == listeners[i + 1..];
        assert listeners[..i] + ([listeners[i]] + Drop(listeners[i + 1..], topic))
            == listeners[..i + 1] + Drop(listeners[i + 1..], topic);
        i := i + 1;
      }
    }

    method OnPublish(pkt: Publication)
      modifies this
      ensures listeners == After(old(listeners), Publish(pkt))
      ensures delivered == old(delivered) + Called(old(listeners), pkt)
    {
      var splitTopics := Text.Split(pkt.topic, '/');
      var i := 0;
      while i < |listeners|
        invariant 0 <= i <= |listeners| && listeners == old(listeners)
        invariant delivered == old(delivered) + Called(listeners[..i], pkt)
      {
        var listener := listeners[i];
        var valid := Topics.Validate(listener.splits, splitTopics);
        assert listeners[..i + 1][..i] == listeners[..i];
        if valid {
          delivered := delivered + [Delivery(listener.topic, listener.callback, pkt)];
        }
        i := i + 1;
      }
      assert listeners[..i] == listeners;
    }

    method OnClear()
      modifies this
      ensures listeners == After(old(listeners), ClearAll) && delivered == old(delivered)
    {
      listeners := [];
    }

    /** One round of the select loop. */
    method Process(ev: Event)
      modifies this
      ensures listeners == After(old(listeners), ev)
      ensures delivered == old(delivered) + (if ev.Publish? then Called(old(listeners), ev.pkt) else [])
    {
      match ev
      case Subscribe(topic, callback) => OnSubscribe(topic, callback);
      case Unsubscribe(topic) => OnUnsubscribe(topic);
      case Publish(pkt) => OnPublish(pkt);
      case ClearAll => OnClear();
    }
  }

  // ---- what the list means ----

  /** Topics are pairwise distinct and every listener carries its own split topic. */
  ghost predicate Distinct(ls: seq<Listener>) {
    && (forall i, j :: 0 <= i < j < |ls| ==> ls[i].topic != ls[j].topic)
    && (forall i :: 0 <= i < |ls| ==> ls[i].splits == Text.Split(ls[i].topic, '/'))
  }

  /** Event `i` subscribes `topic` and nothing later removes it. */
  ghost predicate Lasting(history: seq<Event>, topic: string, i: nat) {
    && i < |history| && history[i].Subscribe? && history[i].topic == topic
    && forall j :: i < j < |history| ==> history[j] != Unsubscribe(topic) && history[j] != ClearAll
  }

  /** The callback in force for `topic`: that of the earliest lasting subscription. */
  ghost predicate InForce(history: seq<Event>, topic: string, callback: nat) {
    exists i: nat :: Lasting(history, topic, i) && history[i].callback == callback
      && forall j: nat :: j < i ==> !Lasting(history, topic, j)
  }

  ghost predicate Holds(ls: seq<Listener>, topic: string, callback: nat) {
    exists i :: 0 <= i < |ls| && ls[i].topic == topic && ls[i].callback == callback
  }

  lemma CutTail(ls: seq<Listener>, k: nat)
    requires k < |ls| - 1
    ensures [ls[0]] + (ls[1..][..k] + ls[1..][k + 1..]) == ls[..k + 1] + ls[k + 2..]
  {
  }

  lemma {:induction false} DropFirst(ls: seq<Listener>, topic: string) returns (i: nat)
    ensures i <= |ls| && forall j :: 0 <= j < i ==> ls[j].topic != topic
    ensures i == |ls| ==> Drop(ls, topic) == ls
    ensures i < |ls| ==> ls[i].topic == topic && Drop(ls, topic) == ls[..i] + ls[i + 1..]
  {
    if ls == [] || ls[0].topic == topic {
      i := 0;
    } else {
      var k := DropFirst(ls[1..], topic);
      if k < |ls| - 1 { CutTail(ls, k); }
      i := k + 1;
    }
  }

  /** What unsubscribing does to a list of distinct topics. */
  lemma DropHolds(ls: seq<Listener>, topic: string)
    requires Distinct(ls)
    ensures Distinct(Drop(ls, topic))
    ensures forall t, c :: Holds(Drop(ls, topic), t, c) <==> Holds(ls, t, c) && t != topic
  {
    var i := DropFirst(ls, topic);
    if i < |ls| {
      var r := Drop(ls, topic);
      assert forall j :: 0 <= j < |r| ==> r[j] == ls[if j < i then j else j + 1];
      forall t, c ensures Holds(r, t, c) <==> Holds(ls, t, c) && t != topic { WithoutHolds(ls, i, t, c); }
    } else {
      forall t, c ensures Holds(ls, t, c) ==> t != topic {}
    }
  }

  lemma WithoutHolds(ls: seq<Listener>, i: nat, t: string, c: nat)
    requires i < |ls| && forall j :: 0 <= j < |ls| && j != i ==> ls[j].topic != ls[i].topic
    ensures Holds(ls[..i] + ls[i + 1..], t, c) <==> Holds(ls, t, c) && t != ls[i].topic
  {
    var r := ls[..i] + ls[i + 1..];
    if Holds(r, t, c) {
      var j :| 0 <= j < |r| && r[j].topic == t && r[j].callback == c;
      assert r[j] == ls[if j < i then j else j + 1];
    }
    if Holds(ls, t, c) && t != ls[i].topic {
      var j :| 0 <= j < |ls| && ls[j].topic == t && ls[j].callback == c;
      assert r[if j < i then j else j - 1] == ls[j];
    }
  }

  lemma LastingSnoc(h: seq<Event>, ev: Event, topic: string, i: nat)
    ensures Lasting(h + [ev], topic, i) <==>
              if i == |h| then ev.Subscribe? && ev.topic == topic
              else Lasting(h, topic, i) && ev != Unsubscribe(topic) && ev != ClearAll
  {
    if i < |h| {
      assert (h + [ev])[|h|] == ev;
      if Lasting(h + [ev], topic, i) {
        forall j | i < j < |h| ensures h[j] != Unsubscribe(topic) && h[j] != ClearAll {
          assert (h + [ev])[j] == h[j];
        }
      }
    }
  }

  lemma {:induction false} Earliest(h: seq<Event>, topic: string, i: nat)
    requires Lasting(h, topic, i)
    ensures InForce(h, topic, h[i].callback)
              || exists j: nat :: j < i && Lasting(h, topic, j) && InForce(h, topic, h[j].callback)
  {
    if j: nat :| j < i && Lasting(h, topic, j) { Earliest(h, topic, j); }
  }

  /** How one more event changes what is in force. */
  lemma InForceSnoc(h: seq<Event>, ev: Event, topic: string, callback: nat)
    ensures InForce(h + [ev], topic, callback) <==>
              match ev
              case Subscribe(t, c) =>
                InForce(h, topic, callback) || (t == topic && c == callback && forall i: nat :: !Lasting(h, topic, i))
              case Unsubscribe(t) => t != topic && InForce(h, topic, callback)
              case Publish(_) => InForce(h, topic, callback)
              case ClearAll => false
  {
    var h1 := h + [ev];
    forall i: nat ensures Lasting(h1, topic, i) <==>
              if i == |h| then ev.Subscribe? && ev.topic == topic
              else Lasting(h, topic, i) && ev != Unsubscribe(topic) && ev != ClearAll
    {
      LastingSnoc(h, ev, topic, i);
    }
    if InForce(h, topic, callback) && ev != Unsubscribe(topic) && ev != ClearAll {
      var i: nat :| Lasting(h, topic, i) && h[i].callback == callback
        && forall j: nat :: j < i ==> !Lasting(h, topic, j);
      assert Lasting(h1, topic, i) && h1[i].callback == callback;
    }
    if ev == Subscribe(topic, callback) && forall i: nat :: !Lasting(h, topic, i) {
      assert Lasting(h1, topic, |h|) && h1[|h|].callback == callback;
    }
    if InForce(h1, topic, callback) {
      var i: nat :| Lasting(h1, topic, i) && h1[i].callback == callback
        && forall j: nat :: j < i ==> !Lasting(h1, topic, j);
      if i < |h| {
        assert Lasting(h, topic, i) && h[i].callback == callback;
      }
    }
  }

  /** The list refines the history: topics are distinct, and a callback is listed for a topic
      exactly when it is the earliest subscription since the topic was last removed. */
  lemma {:induction false} ListMeansHistory(h: seq<Event>)
    ensures Distinct(Replay(h))
    ensures forall topic, callback :: Holds(Replay(h), topic, callback) <==> InForce(h, topic, callback)
  {
    if h == [] { return; }
    var before, ev := h[..|h| - 1], h[|h| - 1];
    assert before + [ev] == h;
    ListMeansHistory(before);
    var ls := Replay(before);
    forall topic, callback ensures Holds(Replay(h), topic, callback) <==> InForce(h, topic, callback) {
      InForceSnoc(before, ev, topic, callback);
      ListedMeansLasting(before, topic);
      if ev.Unsubscribe? { DropHolds(ls, ev.topic); }
      if ev.Subscribe? { Appended(ls, ev.topic, ev.callback, topic, callback); }
    }
    if ev.Unsubscribe? { DropHolds(ls, ev.topic); }
  }

  lemma Appended(ls: seq<Listener>, t: string, c: nat, topic: string, callback: nat)
    ensures Holds(ls + [NewListener(t, c)], topic, callback) <==>
              Holds(ls, topic, callback) || (t == topic && c == callback)
  {
    var r := ls + [NewListener(t, c)];
    assert r[|ls|] == NewListener(t, c);
    if Holds(ls, topic, callback) {
      var i :| 0 <= i < |ls| && ls[i].topic == topic && ls[i].callback == callback;
      assert r[i] == ls[i];
    }
  }

  lemma ListedMeansLasting(h: seq<Event>, topic: string)
    requires forall callback :: Holds(Replay(h), topic, callback) <==> InForce(h, topic, callback)
    ensures Listed(Replay(h), topic) <==> exists i: nat :: Lasting(h, topic, i)
  {
    var ls := Replay(h);
    if Listed(ls, topic) {
      var i :| 0 <= i < |ls| && ls[i].topic == topic;
      assert Holds(ls, topic, ls[i].callback);
    }
    if i: nat :| Lasting(h, topic, i) {
      Earliest(h, topic, i);
      var c :| InForce(h, topic, c);
      assert Holds(ls, topic, c);
    }
  }

  // ---- in which order ----

  /** The earliest lasting subscription of a topic. */
  ghost predicate Since(h: seq<Event>, topic: string, i: nat) {
    Lasting(h, topic, i) && forall j: nat :: j < i ==> !Lasting(h, topic, j)
  }

  /** Topic `s` has been subscribed for longer than topic `t`. */
  ghost predicate Precedes(h: seq<Event>, s: string, t: string) {
    exists a: nat, b: nat :: Since(h, s, a) && Since(h, t, b) && a < b
  }

  lemma {:induction false} SinceExists(h: seq<Event>, topic: string, i: nat) returns (a: nat)
    requires Lasting(h, topic, i)
    ensures Since(h, topic, a) && a <= i
  {
    if j: nat :| j < i && Lasting(h, topic, j) { a := SinceExists(h, topic, j); } else { a := i; }
  }

  lemma ListedSince(h: seq<Event>, k: nat) returns (a: nat)
    requires k < |Replay(h)|
    ensures Since(h, Replay(h)[k].topic, a) && a < |h|
  {
    ListMeansHistory(h);
    ListedMeansLasting(h, Replay(h)[k].topic);
    var i: nat :| Lasting(h, Replay(h)[k].topic, i);
    a := SinceExists(h, Replay(h)[k].topic, i);
  }

  /** Another event moves no subscription that outlasts it. */
  lemma SinceSnoc(h: seq<Event>, ev: Event, topic: string, a: nat)
    requires Since(h, topic, a) && ev != Unsubscribe(topic) && ev != ClearAll
    ensures Since(h + [ev], topic, a)
  {
    forall j: nat | j <= a ensures Lasting(h + [ev], topic, j) <==> Lasting(h, topic, j) {
      LastingSnoc(h, ev, topic, j);
    }
  }

  lemma PrecedesSnoc(h: seq<Event>, ev: Event, s: string, t: string)
    requires Precedes(h, s, t) && ev != Unsubscribe(s) && ev != Unsubscribe(t) && ev != ClearAll
    ensures Precedes(h + [ev], s, t)
  {
    var a: nat, b: nat :| Since(h, s, a) && Since(h, t, b) && a < b;
    SinceSnoc(h, ev, s, a);
    SinceSnoc(h, ev, t, b);
  }

  /** A subscription of an unlisted topic is the youngest. */
  lemma NewestLast(h: seq<Event>, t: string, c: nat, k: nat)
    requires k < |Replay(h)| && !Listed(Replay(h), t)
    ensures Precedes(h + [Subscribe(t, c)], Replay(h)[k].topic, t)
  {
    var ev, s := Subscribe(t, c), Replay(h)[k].topic;
    var a := ListedSince(h, k);
    SinceSnoc(h, ev, s, a);
    ListMeansHistory(h);
    ListedMeansLasting(h, t);
    forall j: nat ensures Lasting(h + [ev], t, j) <==> j == |h| { LastingSnoc(h, ev, t, j); }
    assert Since(h + [ev], t, |h|);
  }

  /** Where two listeners that an unsubscription leaves came from. */
  lemma DropIndices(ls: seq<Listener>, topic: string, i: nat, j: nat) returns (i1: nat, j1: nat)
    requires Distinct(ls) && i < j < |Drop(ls, topic)|
    ensures i1 < j1 < |ls| && Drop(ls, topic)[i] == ls[i1] && Drop(ls, topic)[j] == ls[j1]
    ensures ls[i1].topic != topic && ls[j1].topic != topic
  {
    var k := DropFirst(ls, topic);
    if k == |ls| { i1, j1 := i, j; } else { i1, j1 := if i < k then i else i + 1, if j < k then j else j + 1; }
  }

  /** The list is in the order of the earliest lasting subscriptions. */
  lemma {:induction false} ListInOrder(h: seq<Event>, i: nat, j: nat)
    requires i < j < |Replay(h)|
    ensures Precedes(h, Replay(h)[i].topic, Replay(h)[j].topic)
  {
    var before, ev := h[..|h| - 1], h[|h| - 1];
    assert before + [ev] == h;
    var ls := Replay(before);
    match ev
    case Subscribe(t, c) =>
      if j < |ls| {
        ListInOrder(before, i, j);
        PrecedesSnoc(before, ev, ls[i].topic, ls[j].topic);
      } else {
        NewestLast(before, t, c, i);
      }
    case Unsubscribe(t) =>
      ListMeansHistory(before);
      var i1, j1 := DropIndices(ls, t, i, j);
      ListInOrder(before, i1, j1);
      PrecedesSnoc(before, ev, ls[i1].topic, ls[j1].topic);
    case Publish(_) =>
      ListInOrder(before, i, j);
      PrecedesSnoc(before, ev, ls[i].topic, ls[j].topic);
    case ClearAll =>
  }

  // ---- what a publish runs ----

  /** Callbacks run in list order. */
  lemma {:induction false} CalledInOrder(ls: seq<Listener>, ms: seq<Listener>, pkt: Publication)
    ensures Called(ls + ms, pkt) == Called(ls, pkt) + Called(ms, pkt)
  {
    var all := ls + ms;
    if ms == [] {
      assert all == ls;
    } else {
      var n := |ms| - 1;
      CalledInOrder(ls, ms[..n], pkt);
      assert all[..|all| - 1] == ls + ms[..n];
    }
  }

  /** Each call is for a listed filter, and of the packet as it was published. */
  lemma {:induction false} CalledFrom(ls: seq<Listener>, pkt: Publication, p: nat) returns (i: nat)
    requires p < |Called(ls, pkt)|
    ensures i < |ls| && Called(ls, pkt)[p] == Delivery(ls[i].topic, ls[i].callback, pkt)
  {
    var before := ls[..|ls| - 1];
    if p < |Called(before, pkt)| { i := CalledFrom(before, pkt, p); } else { i := |ls| - 1; }
  }

  /** Two calls come in the order of their listeners. */
  lemma {:induction false} CalledSorted(ls: seq<Listener>, pkt: Publication, p: nat, q: nat) returns (i: nat, j: nat)
    requires p < q < |Called(ls, pkt)|
    ensures i < j < |ls|
    ensures Called(ls, pkt)[p].filter == ls[i].topic && Called(ls, pkt)[q].filter == ls[j].topic
  {
    var before := ls[..|ls| - 1];
    if q < |Called(before, pkt)| {
      i, j := CalledSorted(before, pkt, p, q);
    } else {
      i := CalledFrom(before, pkt, p);
      j := |ls| - 1;
    }
  }

  /** After any history, the callbacks that a publish runs come in the order in which their topics'
      lasting subscriptions began, and all get the packet as it was published. */
  lemma CalledInSubscriptionOrder(h: seq<Event>, pkt: Publication, p: nat, q: nat)
    requires p < q < |Called(Replay(h), pkt)|
    ensures var called := Called(Replay(h), pkt);
            Precedes(h, called[p].filter, called[q].filter) && called[p].pkt == called[q].pkt == pkt
  {
    var i, j := CalledSorted(Replay(h), pkt, p, q);
    ListInOrder(h, i, j);
    var k := CalledFrom(Replay(h), pkt, p);
    k := CalledFrom(Replay(h), pkt, q);
  }

  /** Every listener that matches is called once, and no other. */
  lemma {:induction false} CalledCount(ls: seq<Listener>, pkt: Publication, filter: string, callback: nat)
    requires Distinct(ls)
    ensures multiset(Called(ls, pkt))[Delivery(filter, callback, pkt)] ==
              if Holds(ls, filter, callback) && Topics.Accepts(filter, pkt.topic) then 1 else 0
  {
    if ls == [] { return; }
    var before, l := ls[..|ls| - 1], ls[|ls| - 1];
    assert ls == before + [l] && l == NewListener(l.topic, l.callback);
    CalledCount(before, pkt, filter, callback);
    Appended(before, l.topic, l.callback, filter, callback);
    if l.topic == filter { assert !Holds(before, filter, callback); }
  }

  /** After any history, a publish runs exactly the callbacks in force whose filter accepts its
      topic, each once. */
  lemma PublishRunsMatching(h: seq<Event>, pkt: Publication, filter: string, callback: nat)
    ensures multiset(Called(Replay(h), pkt))[Delivery(filter, callback, pkt)] ==
              if InForce(h, filter, callback) && Topics.Accepts(filter, pkt.topic) then 1 else 0
  {
    ListMeansHistory(h);
    CalledCount(Replay(h), pkt, filter, callback);
  }
}
