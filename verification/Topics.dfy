/** Topic filters: TopicListener.Validate, its relation to MQTT, and the topic prefixes that
    groups add when they forward a publish to their parent. */
module Topics {
  import Text

  // ---- Validate ----

  /** What Validate decides, level by level. */
  ghost predicate Matches(filter: seq<string>, topic: seq<string>) {
    |filter| <= |topic| && MatchesUpToHash(filter, topic)
  }

  ghost predicate MatchesUpToHash(filter: seq<string>, topic: seq<string>)
    requires |filter| <= |topic|
  {
    if filter == [] || filter[0] == "#" then true
    else (filter[0] == "+" || filter[0] == topic[0]) && MatchesUpToHash(filter[1..], topic[1..])
  }

  method Validate(topicSplits: seq<string>, pubTopic: seq<string>) returns (valid: bool)
    ensures valid <==> Matches(topicSplits, pubTopic)
  {
    if |topicSplits| > |pubTopic| { return false; }
    var i := 0;
    while i < |topicSplits|
      invariant 0 <= i <= |topicSplits|
      invariant MatchesUpToHash(topicSplits, pubTopic) <==> MatchesUpToHash(topicSplits[i..], pubTopic[i..])
    {
      var split := topicSplits[i];
      assert topicSplits[i..][1..] == topicSplits[i + 1..] && pubTopic[i..][1..] == pubTopic[i + 1..];
      if split == "#" { return true; }
      if split != "+" && split != pubTopic[i] { return false; }
      i := i + 1;
    }
    return true;
  }

  // ---- MQTT ----

  /** Filter matching of MQTT 3.1.1, sections 4.7.1.2 and 4.7.1.3, for filters in which "#" is
      last: "+" is exactly one level, "#" is the parent level and any number below it. */
  ghost predicate Mqtt(filter: seq<string>, topic: seq<string>) {
    if filter == [] then topic == []
    else if filter[0] == "#" then true
    else topic != [] && (filter[0] == "+" || filter[0] == topic[0]) && Mqtt(filter[1..], topic[1..])
  }

  /** A filter without "#" also matches every topic below the ones MQTT would match. */
  lemma {:induction false} PlainFilter(filter: seq<string>, topic: seq<string>)
    requires "#" !in filter
    ensures Matches(filter, topic) <==> Mqtt(filter + ["#"], topic)
  {
    if filter != [] && topic != [] {
      PlainFilter(filter[1..], topic[1..]);
      assert (filter + ["#"])[1..] == filter[1..] + ["#"];
    }
  }

  /** "#" demands at least one level, and levels after it only demand their number. */
  lemma {:induction false} HashFilter(before: seq<string>, after: seq<string>, topic: seq<string>)
    requires "#" !in before
    ensures Matches(before + ["#"] + after, topic) <==>
              |before| + 1 + |after| <= |topic| && Mqtt(before + ["+", "#"], topic)
  {
    var filter := before + ["#"] + after;
    if before == [] {
      assert filter[0] == "#";
      assert (before + ["+", "#"])[1..] == ["#"];
    } else if topic != [] {
      HashFilter(before[1..], after, topic[1..]);
      assert filter[1..] == before[1..] + ["#"] + after;
      assert (before + ["+", "#"])[1..] == before[1..] + ["+", "#"];
    }
  }

  lemma {:induction false} MqttLength(filter: seq<string>, topic: seq<string>)
    requires "#" !in filter && Mqtt(filter, topic)
    ensures |filter| == |topic|
  {
    if filter != [] { MqttLength(filter[1..], topic[1..]); }
  }

  lemma {:induction false} PrefixMatch(filter: seq<string>, topic: seq<string>)
    requires "#" !in filter
    ensures Matches(filter, topic) <==> |filter| <= |topic| && Mqtt(filter, topic[..|filter|])
  {
    if filter != [] && topic != [] && |filter| <= |topic| {
      PrefixMatch(filter[1..], topic[1..]);
      assert topic[..|filter|][1..] == topic[1..][..|filter| - 1];
    }
  }

  /** Exactly when a "#"-free filter is decided as MQTT decides it: the topic must not lie
      strictly below one that the filter matches. */
  lemma PlainAgreesWithMqtt(filter: seq<string>, topic: seq<string>)
    requires "#" !in filter
    ensures (Matches(filter, topic) <==> Mqtt(filter, topic)) <==>
              !(|topic| > |filter| && Mqtt(filter, topic[..|filter|]))
  {
    PrefixMatch(filter, topic);
    if Mqtt(filter, topic) { MqttLength(filter, topic); }
    if |filter| == |topic| { assert topic[..|filter|] == topic; }
  }

  lemma {:induction false} MqttHash(before: seq<string>, topic: seq<string>)
    requires "#" !in before
    ensures Mqtt(before + ["#"], topic) <==> |before| <= |topic| && Mqtt(before, topic[..|before|])
  {
    PlainFilter(before, topic);
    PrefixMatch(before, topic);
  }

  lemma {:induction false} MqttPlusHash(before: seq<string>, topic: seq<string>)
    requires "#" !in before
    ensures Mqtt(before + ["+", "#"], topic) <==> |before| < |topic| && Mqtt(before + ["#"], topic)
  {
    if before == [] {
      assert (before + ["+", "#"])[1..] == ["#"];
    } else if topic != [] {
      MqttPlusHash(before[1..], topic[1..]);
      assert (before + ["+", "#"])[1..] == before[1..] + ["+", "#"];
      assert (before + ["#"])[1..] == before[1..] + ["#"];
    }
  }

  /** Exactly when a filter ending in "#" is decided as MQTT decides it: the topic must not be
      the parent level itself. */
  lemma HashAgreesWithMqtt(before: seq<string>, topic: seq<string>)
    requires "#" !in before
    ensures (Matches(before + ["#"], topic) <==> Mqtt(before + ["#"], topic)) <==> !Mqtt(before, topic)
  {
    HashFilter(before, [], topic);
    assert before + ["#"] + [] == before + ["#"];
    MqttPlusHash(before, topic);
    MqttHash(before, topic);
    if Mqtt(before, topic) { MqttLength(before, topic); }
    if |before| == |topic| { assert topic[..|before|] == topic; }
  }

  /** Extending the published topic never loses a match. */
  lemma {:induction false} Monotone(filter: seq<string>, topic: seq<string>, more: seq<string>)
    requires Matches(filter, topic)
    ensures Matches(filter, topic + more)
  {
    if filter != [] && filter[0] != "#" {
      Monotone(filter[1..], topic[1..], more);
      assert (topic + more)[1..] == topic[1..] + more;
    }
  }

  // ---- forwarding prefixes ----

  ghost predicate Accepts(filter: string, topic: string) {
    Matches(Text.Split(filter, '/'), Text.Split(topic, '/'))
  }

  /** A level prepended on both sides: matched if it is "+" or equal, and not "#". */
  lemma Prefixed(level: string, filter: string, name: string, topic: string)
    requires '/' !in level && '/' !in name && level != "#"
    ensures Accepts(level + "/" + filter, name + "/" + topic) <==>
              (level == "+" || level == name) && Accepts(filter, topic)
  {
    Text.SplitConcat(level, filter, '/');
    Text.SplitConcat(name, topic, '/');
    Text.SplitPlain(level, '/');
    Text.SplitPlain(name, '/');
    var f, t := Text.Split(filter, '/'), Text.Split(topic, '/');
    assert ([level] + f)[1..] == f && ([name] + t)[1..] == t;
  }

  /** Levels prepended on both sides cancel, unless one of them is "#". */
  lemma {:induction false} SameLevels(levels: seq<string>, filter: seq<string>, topic: seq<string>)
    ensures "#" !in levels ==> (Matches(levels + filter, levels + topic) <==> Matches(filter, topic))
    ensures "#" in levels ==> (Matches(levels + filter, levels + topic) <==> |filter| <= |topic|)
  {
    if levels == [] {
      assert levels + filter == filter && levels + topic == topic;
    } else {
      SameLevels(levels[1..], filter, topic);
      assert (levels + filter)[1..] == levels[1..] + filter && (levels + topic)[1..] == levels[1..] + topic;
    }
  }

  /** A filter under a client's own id accepts what that client publishes exactly when the rest of
      the filter accepts the topic it asked for; an id with a level "#" makes it accept by length. */
  lemma OwnPrefix(clientId: string, filter: string, topic: string)
    ensures Accepts(clientId + "/" + filter, clientId + "/" + topic) <==>
              if "#" !in Text.Split(clientId, '/') then Accepts(filter, topic)
              else |Text.Split(filter, '/')| <= |Text.Split(topic, '/')|
  {
    Text.SplitConcat(clientId, filter, '/');
    Text.SplitConcat(clientId, topic, '/');
    SameLevels(Text.Split(clientId, '/'), Text.Split(filter, '/'), Text.Split(topic, '/'));
  }

  /** In the world space, "+/F" sees exactly what F sees in the rooms. */
  lemma AnyRoom(room: int, filter: string, topic: string)
    ensures Accepts("+" + "/" + filter, Text.Print(room) + "/" + topic) <==> Accepts(filter, topic)
  {
    Text.PrintChars(room);
    Prefixed("+", filter, Text.Print(room), topic);
  }

  /** In the world space, "<room>/F" sees exactly what F sees in that one room. */
  lemma OneRoom(wanted: int, room: int, filter: string, topic: string)
    ensures Accepts(Text.Print(wanted) + "/" + filter, Text.Print(room) + "/" + topic) <==>
              wanted == room && Accepts(filter, topic)
  {
    Text.PrintChars(wanted);
    Text.PrintChars(room);
    Prefixed(Text.Print(wanted), filter, Text.Print(room), topic);
    if Text.Print(wanted) == Text.Print(room) { Text.PrintInjective(wanted, room); }
  }
}
