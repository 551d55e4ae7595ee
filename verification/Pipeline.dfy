/** The whole way of a packet over one TCP connection: marshal, encipher, frame, and back. */
module Pipeline {
  import opened Basics
  import opened Text
  import opened Framing
  import opened Cipher
  import opened Codec

  // ---- ciphering a sequence of messages ----

  /** The messages as sent when the encoder stands at `pos`. */
  function Enciphered(ks: Keystream, pos: nat, msgs: seq<Bytes>): (r: seq<Bytes>)
    ensures |r| == |msgs|
    decreases |msgs|
  {
    if msgs == [] then []
    else [Crypt(ks, pos, msgs[0])] + Enciphered(ks, pos + |msgs[0]|, msgs[1..])
  }

  /** The encoder's position after them. */
  function EndOf(pos: nat, msgs: seq<Bytes>): nat
    decreases |msgs|
  {
    if msgs == [] then pos else EndOf(pos + |msgs[0]|, msgs[1..])
  }

  /** What a receiver makes of messages when its decoder stands at `pos`. */
  function Received<R>(parse: Bytes -> R, ks: Keystream, pos: nat, msgs: seq<Bytes>): (r: seq<R>)
    ensures |r| == |msgs|
    decreases |msgs|
  {
    if msgs == [] then []
    else [parse(Crypt(ks, pos, msgs[0]))] + Received(parse, ks, pos + |msgs[0]|, msgs[1..])
  }

  /** Both positions advance alike, so each message is deciphered where it was enciphered. */
  lemma {:induction false} Deciphered<R>(parse: Bytes -> R, ks: Keystream, pos: nat, msgs: seq<Bytes>, k: nat, i: nat)
    requires i < k <= |msgs|
    ensures Received(parse, ks, pos, Enciphered(ks, pos, msgs)[..k])[i] == parse(msgs[i])
    decreases k
  {
    var next := pos + |msgs[0]|;
    var sent := Enciphered(ks, pos, msgs)[..k];
    CryptTwice(ks, pos, msgs[0]);
    assert sent[1..] == Enciphered(ks, next, msgs[1..])[..k - 1];
    if i > 0 { Deciphered(parse, ks, next, msgs[1..], k - 1, i - 1); }
  }

  lemma {:induction false} ReceivedSnoc<R>(parse: Bytes -> R, ks: Keystream, pos: nat, msgs: seq<Bytes>, m: Bytes)
    ensures Received(parse, ks, pos, msgs + [m]) ==
              Received(parse, ks, pos, msgs) + [parse(Crypt(ks, EndOf(pos, msgs), m))]
    ensures EndOf(pos, msgs + [m]) == EndOf(pos, msgs) + |m|
    decreases |msgs|
  {
    var all := msgs + [m];
    if msgs == [] { assert all[1..] == []; } else {
      assert all[1..] == msgs[1..] + [m];
      ReceivedSnoc(parse, ks, pos + |msgs[0]|, msgs[1..], m);
    }
  }

  lemma {:induction false} EncipheredShort(ks: Keystream, pos: nat, msgs: seq<Bytes>)
    requires Short(msgs)
    ensures Short(Enciphered(ks, pos, msgs))
    decreases |msgs|
  {
    if msgs != [] { EncipheredShort(ks, pos + |msgs[0]|, msgs[1..]); }
  }

  lemma {:induction false} EncipheredSnoc(ks: Keystream, pos: nat, msgs: seq<Bytes>, m: Bytes)
    ensures Enciphered(ks, pos, msgs + [m]) == Enciphered(ks, pos, msgs) + [Crypt(ks, EndOf(pos, msgs), m)]
    ensures EndOf(pos, msgs + [m]) == EndOf(pos, msgs) + |m|
    decreases |msgs|
  {
    var all := msgs + [m];
    if msgs == [] { assert all[1..] == []; } else {
      assert all[1..] == msgs[1..] + [m];
      EncipheredSnoc(ks, pos + |msgs[0]|, msgs[1..], m);
    }
  }

  lemma {:induction false} FramesSnoc(msgs: seq<Bytes>, m: Bytes)
    ensures Frames(msgs + [m]) == Frames(msgs) + Frame(m)
  {
    var all := msgs + [m];
    if msgs == [] {
      assert all[1..] == [] && Frame(m) + [] == Frame(m);
    } else {
      FramesSnoc(msgs[1..], m);
      assert all[1..] == msgs[1..] + [m];
    }
  }

  // ---- a dropped message ----

  function Length(msgs: seq<Bytes>): nat {
    if msgs == [] then 0 else |msgs[0]| + Length(msgs[1..])
  }

  function Identity(m: Bytes): Bytes { m }

  /** Messages deciphered with another keystream or from another position come out right, all of
      them, exactly when the two are the same over their whole length. */
  lemma {:induction false} Elsewhere(ks: Keystream, p: nat, other: Keystream, q: nat, msgs: seq<Bytes>)
    ensures Received(Identity, ks, p, Enciphered(other, q, msgs)) == msgs <==> Same(ks, p, other, q, Length(msgs))
    decreases |msgs|
  {
    if msgs != [] {
      CryptOther(ks, p, other, q, msgs[0]);
      Elsewhere(ks, p + |msgs[0]|, other, q + |msgs[0]|, msgs[1..]);
      ReceivedHead(ks, p, other, q, msgs);
      SameSplit(ks, p, other, q, |msgs[0]|, Length(msgs[1..]));
    }
  }

  /** In particular when they are deciphered `shift` too early. */
  lemma Shifted(ks: Keystream, pos: nat, shift: nat, msgs: seq<Bytes>)
    ensures Received(Identity, ks, pos, Enciphered(ks, shift + pos, msgs)) == msgs
            <==> Repeats(ks, pos, shift, Length(msgs))
  {
    Elsewhere(ks, pos, ks, shift + pos, msgs);
  }

  lemma ReceivedHead(ks: Keystream, p: nat, other: Keystream, q: nat, msgs: seq<Bytes>)
    requires msgs != []
    ensures var got := Received(Identity, ks, p, Enciphered(other, q, msgs));
            && got[0] == Crypt(ks, p, Crypt(other, q, msgs[0]))
            && got[1..] == Received(Identity, ks, p + |msgs[0]|, Enciphered(other, q + |msgs[0]|, msgs[1..]))
            && (got == msgs <==> got[0] == msgs[0] && got[1..] == msgs[1..])
  {
    var sent := Enciphered(other, q, msgs);
    assert sent[1..] == Enciphered(other, q + |msgs[0]|, msgs[1..]);
    var got := Received(Identity, ks, p, sent);
    assert got == [got[0]] + got[1..] && msgs == [msgs[0]] + msgs[1..];
  }

  lemma {:induction false} ReceivedConcat(ks: Keystream, pos: nat, a: seq<Bytes>, b: seq<Bytes>)
    ensures Received(Identity, ks, pos, a + b) ==
              Received(Identity, ks, pos, a) + Received(Identity, ks, EndOf(pos, a), b)
    decreases |a|
  {
    if a == [] {
      assert a + b == b;
    } else {
      assert (a + b)[1..] == a[1..] + b;
      ReceivedConcat(ks, pos + |a[0]|, a[1..], b);
    }
  }

  lemma {:induction false} EncipheredEnd(ks: Keystream, pos: nat, msgs: seq<Bytes>)
    ensures EndOf(pos, Enciphered(ks, pos, msgs)) == EndOf(pos, msgs)
    decreases |msgs|
  {
    if msgs != [] { EncipheredEnd(ks, pos + |msgs[0]|, msgs[1..]); }
  }

  lemma ReceivedBack(ks: Keystream, pos: nat, msgs: seq<Bytes>)
    ensures Received(Identity, ks, pos, Enciphered(ks, pos, msgs)) == msgs
  {
    Shifted(ks, pos, 0, msgs);
  }

  /** A message dropped after it was enciphered, between any others: what was sent before it is
      received, and what is sent after it is received, however long, exactly when the keystream
      repeats over all of it at the distance of the dropped message's length. */
  lemma DropDesynchronizes(ks: Keystream, pos: nat, before: seq<Bytes>, dropped: Bytes, after: seq<Bytes>)
    ensures var p := EndOf(pos, before);
            var wire := Enciphered(ks, pos, before) + Enciphered(ks, p + |dropped|, after);
            Received(Identity, ks, pos, wire) == before + after <==> Repeats(ks, p, |dropped|, Length(after))
  {
    var p := EndOf(pos, before);
    var first, last := Enciphered(ks, pos, before), Enciphered(ks, |dropped| + p, after);
    ReceivedConcat(ks, pos, first, last);
    EncipheredEnd(ks, pos, before);
    ReceivedBack(ks, pos, before);
    Shifted(ks, p, |dropped|, after);
    var got := Received(Identity, ks, p, last);
    assert |got| == |after|;
    assert before + got == before + after <==> got == after by {
      if before + got == before + after { assert (before + got)[|before|..] == (before + after)[|before|..]; }
    }
  }

  /** The messages a sender enciphers are these: the dropped one between the others. */
  lemma {:induction false} DroppedBetween(ks: Keystream, pos: nat, before: seq<Bytes>,
                                         dropped: Bytes, after: seq<Bytes>)
    ensures var p := EndOf(pos, before);
            Enciphered(ks, pos, before + [dropped] + after) ==
              Enciphered(ks, pos, before) + [Crypt(ks, p, dropped)] + Enciphered(ks, p + |dropped|, after)
    decreases |before|
  {
    var all := before + [dropped] + after;
    if before == [] {
      assert all[0] == dropped && all[1..] == after;
    } else {
      assert all[0] == before[0] && all[1..] == before[1..] + [dropped] + after;
      DroppedBetween(ks, pos + |before[0]|, before[1..], dropped, after);
    }
  }

  // ---- messages in another order ----

  /** What is on the wire when message `k` was enciphered at `at[k]`: senders encipher and enqueue in
      two steps that others may come between. */
  function EncipheredAt(ks: Keystream, at: seq<nat>, msgs: seq<Bytes>): (r: seq<Bytes>)
    requires |at| == |msgs|
    ensures |r| == |msgs|
    decreases |msgs|
  {
    if msgs == [] then [] else [Crypt(ks, at[0], msgs[0])] + EncipheredAt(ks, at[1..], msgs[1..])
  }

  /** The keystream is the same where each message was enciphered and where it is deciphered. */
  ghost predicate AllAlike(ks: Keystream, pos: nat, at: seq<nat>, msgs: seq<Bytes>)
    requires |at| == |msgs|
    decreases |msgs|
  {
    msgs == [] || (Alike(ks, pos, at[0], |msgs[0]|) && AllAlike(ks, pos + |msgs[0]|, at[1..], msgs[1..]))
  }

  /** In whatever order concurrent senders get to enqueue, the messages are received exactly when the
      keystream is the same at each pair of positions. */
  lemma {:induction false} AnyOrder(ks: Keystream, pos: nat, at: seq<nat>, msgs: seq<Bytes>)
    requires |at| == |msgs|
    ensures Received(Identity, ks, pos, EncipheredAt(ks, at, msgs)) == msgs <==> AllAlike(ks, pos, at, msgs)
    decreases |msgs|
  {
    if msgs != [] {
      CryptApart(ks, pos, at[0], msgs[0]);
      AnyOrder(ks, pos + |msgs[0]|, at[1..], msgs[1..]);
      var first, rest := Crypt(ks, at[0], msgs[0]), EncipheredAt(ks, at[1..], msgs[1..]);
      ReceivedFirst(ks, pos, first, rest);
      Headed(Crypt(ks, pos, first), Received(Identity, ks, pos + |msgs[0]|, rest), msgs);
    }
  }

  lemma ReceivedFirst(ks: Keystream, pos: nat, first: Bytes, rest: seq<Bytes>)
    ensures Received(Identity, ks, pos, [first] + rest) ==
              [Crypt(ks, pos, first)] + Received(Identity, ks, pos + |first|, rest)
  {
    assert ([first] + rest)[1..] == rest;
  }

  lemma Headed<T>(x: T, xs: seq<T>, all: seq<T>)
    requires all != []
    ensures [x] + xs == all <==> x == all[0] && xs == all[1..]
  {
    if [x] + xs == all { assert xs == ([x] + xs)[1..]; }
  }

  lemma PairAlike(ks: Keystream, p: nat, m1: Bytes, m2: Bytes)
    ensures Received(Identity, ks, p, [Crypt(ks, p + |m1|, m2), Crypt(ks, p, m1)]) == [m2, m1]
            <==> Repeats(ks, p, |m1|, |m2|) && Repeats(ks, p, |m2|, |m1|)
  {
    var at, msgs := [p + |m1|, p], [m2, m1];
    AnyOrder(ks, p, at, msgs);
    assert at[1..] == [p] && msgs[1..] == [m1];
    assert EncipheredAt(ks, [p], [m1]) == [Crypt(ks, p, m1)];
    AlikeAhead(ks, p, |m1|, |m2|);
    AlikeAhead(ks, p, |m2|, |m1|);
    assert AllAlike(ks, p + |m2|, [p], [m1]) <==> Alike(ks, p + |m2|, p, |m1|);
    assert EncipheredAt(ks, at, msgs) == [Crypt(ks, p + |m1|, m2), Crypt(ks, p, m1)];
  }

  lemma Replaced<T>(a: seq<T>, b: seq<T>, c: seq<T>, d: seq<T>)
    requires |b| == |c|
    ensures a + b + d == a + c + d <==> b == c
  {
    if a + b + d == a + c + d {
      assert b == (a + b + d)[|a|..|a| + |b|] && c == (a + c + d)[|a|..|a| + |c|];
    }
  }

  /** Two messages enqueued the other way round than they were enciphered, between any others: all is
      received exactly when the keystream repeats at the distance of each over the length of the
      other. The messages after them always are. */
  lemma SwappedPair(ks: Keystream, pos: nat, before: seq<Bytes>, m1: Bytes, m2: Bytes, after: seq<Bytes>)
    ensures var p := EndOf(pos, before);
            var wire := Enciphered(ks, pos, before) + [Crypt(ks, p + |m1|, m2), Crypt(ks, p, m1)]
                        + Enciphered(ks, p + |m1| + |m2|, after);
            && (Received(Identity, ks, pos, wire) == before + [m2, m1] + after <==>
                  Repeats(ks, p, |m1|, |m2|) && Repeats(ks, p, |m2|, |m1|))
            && Received(Identity, ks, pos, wire)[|before| + 2..] == after
  {
    var p := EndOf(pos, before);
    var pair := [Crypt(ks, p + |m1|, m2), Crypt(ks, p, m1)];
    EndConcat(p, [pair[0]], [pair[1]]);
    Around(ks, pos, before, pair, after);
    PairAlike(ks, p, m1, m2);
    Replaced(before, Received(Identity, ks, p, pair), [m2, m1], after);
  }

  /** Whatever is on the wire in between, what comes before it and after it is received, if both
      positions are the same again. */
  lemma Around(ks: Keystream, pos: nat, before: seq<Bytes>, mid: seq<Bytes>, after: seq<Bytes>)
    ensures var p := EndOf(pos, before);
            Received(Identity, ks, pos, Enciphered(ks, pos, before) + mid + Enciphered(ks, EndOf(p, mid), after)) ==
              before + Received(Identity, ks, p, mid) + after
  {
    var first := Enciphered(ks, pos, before);
    ReceivedConcat(ks, pos, first + mid, Enciphered(ks, EndOf(EndOf(pos, before), mid), after));
    ReceivedConcat(ks, pos, first, mid);
    EndConcat(pos, first, mid);
    EncipheredEnd(ks, pos, before);
    ReceivedBack(ks, pos, before);
    ReceivedBack(ks, EndOf(EndOf(pos, before), mid), after);
  }

  lemma {:induction false} EndConcat(pos: nat, a: seq<Bytes>, b: seq<Bytes>)
    ensures EndOf(pos, a + b) == EndOf(EndOf(pos, a), b)
    decreases |a|
  {
    if a == [] {
      assert a + b == b;
    } else {
      assert (a + b)[1..] == a[1..] + b;
      EndConcat(pos + |a[0]|, a[1..], b);
    }
  }

  // ---- the switch to the cipher ----

  /** What one side sends when it enciphers from message `i` on, with a new encoder. */
  function SentFrom(ks: Keystream, i: nat, msgs: seq<Bytes>): seq<Bytes>
    requires i <= |msgs|
  {
    msgs[..i] + Enciphered(ks, 0, msgs[i..])
  }

  /** What the other makes of it when it deciphers from message `j` on, with a new decoder. */
  function ReceivedFrom(ks: Keystream, j: nat, wire: seq<Bytes>): (r: seq<Bytes>)
    requires j <= |wire|
    ensures |r| == |wire|
  {
    wire[..j] + Received(Identity, ks, 0, wire[j..])
  }

  lemma {:induction false} EndLength(pos: nat, msgs: seq<Bytes>)
    ensures EndOf(pos, msgs) == pos + Length(msgs)
    decreases |msgs|
  {
    if msgs != [] { EndLength(pos + |msgs[0]|, msgs[1..]); }
  }

  lemma {:induction false} EncipheredConcat(ks: Keystream, pos: nat, a: seq<Bytes>, b: seq<Bytes>)
    ensures Enciphered(ks, pos, a + b) == Enciphered(ks, pos, a) + Enciphered(ks, EndOf(pos, a), b)
    decreases |a|
  {
    if a == [] {
      assert a + b == b;
    } else {
      assert (a + b)[1..] == a[1..] + b;
      EncipheredConcat(ks, pos + |a[0]|, a[1..], b);
    }
  }

  lemma RepeatsBack(ks: Keystream, d: nat, n: nat)
    ensures Same(ks, d, ks, 0, n) <==> Repeats(ks, 0, d, n)
  {
  }

  /** The receiver switches late: the messages before its switch went past its decoder. */
  lemma SwitchedLate(ks: Keystream, i: nat, j: nat, msgs: seq<Bytes>)
    requires i <= j <= |msgs|
    ensures ReceivedFrom(ks, j, SentFrom(ks, i, msgs))[j..] == msgs[j..]
            <==> Repeats(ks, 0, Length(msgs[i..j]), Length(msgs[j..]))
  {
    var d, wire := Length(msgs[i..j]), SentFrom(ks, i, msgs);
    assert msgs[i..] == msgs[i..j] + msgs[j..];
    EncipheredConcat(ks, 0, msgs[i..j], msgs[j..]);
    EndLength(0, msgs[i..j]);
    assert wire[j..] == Enciphered(ks, d, msgs[j..]);
    Shifted(ks, 0, d, msgs[j..]);
  }

  /** The receiver switches early: it has deciphered messages that were not enciphered. */
  lemma SwitchedEarly(ks: Keystream, i: nat, j: nat, msgs: seq<Bytes>)
    requires j <= i <= |msgs|
    ensures ReceivedFrom(ks, j, SentFrom(ks, i, msgs))[i..] == msgs[i..]
            <==> Repeats(ks, 0, Length(msgs[j..i]), Length(msgs[i..]))
  {
    var d, wire := Length(msgs[j..i]), SentFrom(ks, i, msgs);
    assert wire[j..] == msgs[j..i] + Enciphered(ks, 0, msgs[i..]);
    ReceivedConcat(ks, 0, msgs[j..i], Enciphered(ks, 0, msgs[i..]));
    EndLength(0, msgs[j..i]);
    Elsewhere(ks, d, ks, 0, msgs[i..]);
    RepeatsBack(ks, d, Length(msgs[i..]));
  }

  /** The two sides do not switch at the same message: with the login enciphered before the other side
      deciphers, or a response resent in the clear to one that deciphers already. From the later
      switch on everything is received exactly when the keystream repeats at the length of what was
      sent in between; the two positions agree exactly when that length is zero. */
  lemma SwitchExactly(ks: Keystream, i: nat, j: nat, msgs: seq<Bytes>)
    requires i <= |msgs| && j <= |msgs|
    ensures var k, d := if i < j then j else i, Length(if i < j then msgs[i..j] else msgs[j..i]);
            && (ReceivedFrom(ks, j, SentFrom(ks, i, msgs))[k..] == msgs[k..] <==>
                  Repeats(ks, 0, d, Length(msgs[k..])))
            && (EndOf(0, msgs[i..k]) == EndOf(0, msgs[j..k]) <==> d == 0)
  {
    var k := if i < j then j else i;
    EndLength(0, msgs[i..k]);
    EndLength(0, msgs[j..k]);
    if i < j { SwitchedLate(ks, i, j, msgs); } else { SwitchedEarly(ks, i, j, msgs); }
  }

  /** One side has computed a secret anew, which gives it new ciphers at position zero: because the
      other exchanged again, or because another connection of the hub, which shares its ciphers, did.
      What it sends then is received exactly when the other's keystream goes on as the new one begins. */
  lemma NewSecret(ks: Keystream, other: Keystream, before: seq<Bytes>, after: seq<Bytes>)
    ensures Received(Identity, ks, 0, Enciphered(ks, 0, before) + Enciphered(other, 0, after)) == before + after
            <==> Same(ks, Length(before), other, 0, Length(after))
  {
    var first, last := Enciphered(ks, 0, before), Enciphered(other, 0, after);
    ReceivedConcat(ks, 0, first, last);
    EncipheredEnd(ks, 0, before);
    EndLength(0, before);
    ReceivedBack(ks, 0, before);
    Elsewhere(ks, Length(before), other, 0, after);
    Replaced(before, Received(Identity, ks, Length(before), last), after, []);
    assert before + after + [] == before + after;
  }

  // ---- packets ----

  /** Go's conversion between strings and byte slices; characters model bytes. */
  ghost predicate IsBytes(s: string) {
    forall i :: 0 <= i < |s| ==> s[i] as int < 256
  }

  function ToBytes(s: string): (b: Bytes)
    requires IsBytes(s)
    ensures b == s
  {
    seq(|s|, i requires 0 <= i < |s| && s[i] as int < 256 => s[i])
  }

  /** The bytes of a packet. */
  function Plaintext<P>(j: Json<P>, p: Packet<P>): Bytes {
    MarshalBytes(j, p);
    ToBytes(Marshal(j, p))
  }

  function Plain<P>(j: Json<P>, ps: seq<Packet<P>>): (r: seq<Bytes>)
    ensures |r| == |ps|
  {
    seq(|ps|, i requires 0 <= i < |ps| => Plaintext(j, ps[i]))
  }

  /** Packets that arrive: known codes, "@"-free JSON, shorter than 2^32 bytes in all. */
  ghost predicate Carried<P(!new)>(j: Json<P>, p: Packet<P>) {
    p.code in CODES && '@' !in j.encode(p) && |Marshal(j, p)| < TWO32
  }

  ghost predicate AllCarried<P(!new)>(j: Json<P>, ps: seq<Packet<P>>) {
    forall i :: 0 <= i < |ps| ==> Carried(j, ps[i])
  }

  /** receiveMessage's parser for a deciphered buffer. */
  function Parser<P>(j: Json<P>): Bytes -> Result<Packet<P>> {
    (m: Bytes) => Unmarshal(j, m)
  }

  function Wire<P>(j: Json<P>, ks: Keystream, pos: nat, ps: seq<Packet<P>>): Bytes {
    Frames(Enciphered(ks, pos, Plain(j, ps)))
  }

  /** However the byte stream is cut, exactly the packets whose frames are complete are received,
      unchanged and in order; cut nowhere, that is every packet sent. */
  lemma PipelineRoundTrip<P(!new)>(j: Json<P>, ks: Keystream, pos: nat, ps: seq<Packet<P>>, n: nat)
    requires Faithful(j) && AllCarried(j, ps) && n <= |Wire(j, ks, pos, ps)|
    ensures var results := Received(Parser(j), ks, pos, ReadAll(Wire(j, ks, pos, ps)[..n]));
            && |results| == Whole(Enciphered(ks, pos, Plain(j, ps)), n) <= |ps|
            && (forall i :: 0 <= i < |results| ==> results[i] == Ok(ps[i]))
            && (n == |Wire(j, ks, pos, ps)| ==> |results| == |ps|)
  {
    var msgs := Plain(j, ps);
    var sent := Enciphered(ks, pos, msgs);
    EncipheredShort(ks, pos, msgs);
    CutStream(sent, n);
    var k := Whole(sent, n);
    forall i | 0 <= i < k ensures Received(Parser(j), ks, pos, sent[..k])[i] == Ok(ps[i]) {
      Deciphered(Parser(j), ks, pos, msgs, k, i);
      assert Carried(j, ps[i]);
      RoundTrip(j, ps[i]);
    }
    WholeBounds(sent, n);
    if k < |sent| { FramesMonotone(sent, k + 1); }
  }

  lemma {:induction false} FramesMonotone(msgs: seq<Bytes>, k: nat)
    requires k <= |msgs|
    ensures |Frames(msgs[..k])| <= |Frames(msgs)|
  {
    if k > 0 {
      FramesMonotone(msgs[1..], k - 1);
      assert msgs[..k][1..] == msgs[1..][..k - 1];
    }
  }

  // ---- the two ends as objects ----

  class Sender<P(!new)> {
    const json: Json<P>
    const crypto: Crypto
    const conn: Writer
    ghost const start: nat
    ghost var packets: seq<Packet<P>>

    constructor (json: Json<P>, crypto: Crypto)
      ensures this.json == json && this.crypto == crypto && fresh(conn)
      ensures Valid() && packets == [] && start == crypto.encoder.pos
    {
      this.json, this.crypto := json, crypto;
      conn := new Writer();
      start, packets := crypto.encoder.pos, [];
    }

    /** The socket has been given exactly the stream of the packets sent so far. */
    ghost predicate Valid()
      reads this, crypto, crypto.encoder, conn
    {
      && conn.written == Wire(json, crypto.encoder.keystream, start, packets)
      && crypto.encoder.pos == EndOf(start, Plain(json, packets))
    }

    /** SendPacket, with a queue that takes the message and a socket that takes the frame. */
    method SendPacket(p: Packet<P>)
      requires Valid()
      modifies this, crypto.encoder, conn
      ensures Valid() && packets == old(packets) + [p]
      ensures crypto.encoder == old(crypto.encoder)
    {
      var bytes := Plaintext(json, p);
      SendMessage(bytes);
      ghost var before := Plain(json, packets);
      EncipheredSnoc(crypto.encoder.keystream, start, before, bytes);
      FramesSnoc(Enciphered(crypto.encoder.keystream, start, before),
                 Crypt(crypto.encoder.keystream, EndOf(start, before), bytes));
      packets := packets + [p];
      assert Plain(json, packets) == before + [bytes];
    }

    method SendMessage(bytes: Bytes)
      modifies crypto.encoder, conn
      ensures crypto.encoder == old(crypto.encoder) && crypto.encoder.pos == old(crypto.encoder.pos) + |bytes|
      ensures conn.written == old(conn.written) + Frame(Crypt(crypto.encoder.keystream, old(crypto.encoder.pos), bytes))
    {
      var message := new Byte[|bytes|](i requires 0 <= i < |bytes| => bytes[i]);
      assert message[..] == bytes;
      crypto.EncodeInPlace(message);
      var frame := Frame(message[..]);
      var ok := conn.PacketWrite(message[..], |frame|);
      assert frame[..|frame|] == frame;
    }
  }

  /** The receiving end, with the Unmarshal of whatever codec it was configured with. */
  class Receiver<R> {
    const parse: Bytes -> R
    const crypto: Crypto
    const conn: Reader

    constructor (parse: Bytes -> R, crypto: Crypto, stream: Bytes)
      ensures this.parse == parse && this.crypto == crypto && fresh(conn) && conn.stream == stream
    {
      this.parse, this.crypto := parse, crypto;
      conn := new Reader(stream);
    }

    /** receiveMessage on an encrypted connection: decipher the buffer in place, then parse it. */
    method Receive(m: Bytes) returns (result: R)
      modifies crypto.decoder
      ensures crypto.decoder == old(crypto.decoder) && crypto.decoder.pos == old(crypto.decoder.pos) + |m|
      ensures result == parse(Crypt(crypto.decoder.keystream, old(crypto.decoder.pos), m))
    {
      var message := new Byte[|m|](k requires 0 <= k < |m| => m[k]);
      assert message[..] == m;
      crypto.DecodeInPlace(message);
      result := parse(message[..]);
    }

    /** Every message that arrives before the stream ends, in order. */
    method ReceiveAll() returns (results: seq<R>)
      modifies crypto.decoder, conn
      ensures results == Received(parse, old(crypto.decoder.keystream),
                                  old(crypto.decoder.pos), ReadAll(old(conn.stream)))
    {
      var msgs := conn.ReadLoop();
      results := ReceiveEach(msgs);
    }

    method ReceiveEach(msgs: seq<Bytes>) returns (results: seq<R>)
      modifies crypto.decoder
      ensures results == Received(parse, old(crypto.decoder.keystream), old(crypto.decoder.pos), msgs)
    {
      results := [];
      var i := 0;
      ghost var ks, start := crypto.decoder.keystream, crypto.decoder.pos;
      while i < |msgs|
        invariant 0 <= i <= |msgs| && crypto.decoder == old(crypto.decoder)
        invariant crypto.decoder.pos == EndOf(start, msgs[..i])
        invariant results == Received(parse, ks, start, msgs[..i])
      {
        ReceivedSnoc(parse, ks, start, msgs[..i], msgs[i]);
        assert msgs[..i + 1] == msgs[..i] + [msgs[i]];
        var result := Receive(msgs[i]);
        results := results + [result];
        i := i + 1;
      }
      assert msgs[..i] == msgs;
    }
  }
}
