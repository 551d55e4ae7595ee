/** Length-prefixed messages on a byte stream: packetRead and packetWrite of tcp_conn.go. */
module Framing {
  import opened Text

  type Bytes = seq<Byte>

  const TWO32: nat := 0x1_0000_0000
  const TWO64: nat := 0x1_0000_0000_0000_0000

  // ---- 32-bit big-endian lengths ----

  function PutUint32(n: nat): (b: Bytes)
    requires n < TWO32
    ensures |b| == 4
  {
    [(n / 0x100_0000) as char, (n / 0x1_0000 % 0x100) as char, (n / 0x100 % 0x100) as char, (n % 0x100) as char]
  }

  function Uint32(b: Bytes): (n: nat)
    requires |b| == 4
    ensures n < TWO32
  {
    b[0] as int * 0x100_0000 + b[1] as int * 0x1_0000 + b[2] as int * 0x100 + b[3] as int
  }

  lemma UintPut(n: nat)
    requires n < TWO32
    ensures Uint32(PutUint32(n)) == n
  {
    assert n == n / 0x100 * 0x100 + n % 0x100;
    assert n / 0x100 == n / 0x1_0000 * 0x100 + n / 0x100 % 0x100;
    assert n / 0x1_0000 == n / 0x100_0000 * 0x100 + n / 0x1_0000 % 0x100;
  }

  // ---- frames ----

  /** packetWrite converts the length to 32 bits, which truncates it. */
  function Frame(msg: Bytes): Bytes {
    PutUint32(|msg| % TWO32) + msg
  }

  /** Four bytes of length, the most significant first, and then the message. */
  lemma FrameLayout(msg: Bytes)
    requires |msg| < 0x1_0000_0000
    ensures var f := Frame(msg);
            && |f| == 4 + |msg| && f[4..] == msg
            && |msg| == f[0] as int * 16777216 + f[1] as int * 65536 + f[2] as int * 256 + f[3] as int
  {
    BigEndian(|msg|);
    assert Frame(msg) == PutUint32(|msg|) + msg;
  }

  lemma BigEndian(n: nat)
    requires n < 0x1_0000_0000
    ensures var b := PutUint32(n);
            n == b[0] as int * 16777216 + b[1] as int * 65536 + b[2] as int * 256 + b[3] as int
  {
    UintPut(n);
  }

  /** `Closed` is io.EOF, which ReadFull also reports when a body is missing entirely. */
  datatype ReadResult = Msg(data: Bytes, rest: Bytes) | Closed | Truncated

  function ReadFrame(stream: Bytes): ReadResult {
    if |stream| == 0 then Closed
    else if |stream| < 4 then Truncated
    else
      var n := Uint32(stream[..4]);
      if |stream| >= 4 + n then Msg(stream[4..4 + n], stream[4 + n..])
      else if |stream| == 4 then Closed
      else Truncated
  }

  /** One frame is read back exactly when its message is shorter than 2^32 bytes. */
  lemma FrameRoundTrip(msg: Bytes, rest: Bytes)
    ensures ReadFrame(Frame(msg) + rest) == Msg(msg, rest) <==> |msg| < TWO32
  {
    var s := Frame(msg) + rest;
    var n := |msg| % TWO32;
    UintPut(n);
    assert s[..4] == PutUint32(n);
    assert s[4..] == msg + rest;
    assert s[4..4 + n] == s[4..][..n] && s[4 + n..] == s[4..][n..];
    if |msg| < TWO32 {
      assert s[4..][..n] == msg && s[4..][n..] == rest;
    } else {
      assert |s[4..4 + n]| == n < |msg|;
    }
  }

  // ---- streams ----

  function Frames(msgs: seq<Bytes>): Bytes {
    if msgs == [] then [] else Frame(msgs[0]) + Frames(msgs[1..])
  }

  /** What the reading loop delivers before the stream ends. */
  function ReadAll(stream: Bytes): seq<Bytes>
    decreases |stream|
  {
    match ReadFrame(stream)
    case Msg(data, rest) => [data] + ReadAll(rest)
    case Closed => []
    case Truncated => []
  }

  ghost predicate Short(msgs: seq<Bytes>) {
    forall i :: 0 <= i < |msgs| ==> |msgs[i]| < TWO32
  }

  lemma {:induction false} StreamRoundTrip(msgs: seq<Bytes>)
    requires Short(msgs)
    ensures ReadAll(Frames(msgs)) == msgs
  {
    if msgs != [] {
      FrameRoundTrip(msgs[0], Frames(msgs[1..]));
      StreamRoundTrip(msgs[1..]);
    }
  }

  /** The longest prefix of `msgs` whose frames fit into the first `n` bytes. */
  ghost function Whole(msgs: seq<Bytes>, n: nat): nat {
    if msgs == [] || n < |Frame(msgs[0])| then 0 else 1 + Whole(msgs[1..], n - |Frame(msgs[0])|)
  }

  lemma FramesTake(msgs: seq<Bytes>, k: nat)
    requires k < |msgs|
    ensures Frames(msgs[..k + 1]) == Frame(msgs[0]) + Frames(msgs[1..][..k])
  {
    assert msgs[..k + 1][1..] == msgs[1..][..k];
  }

  lemma {:induction false} WholeBounds(msgs: seq<Bytes>, n: nat)
    ensures Whole(msgs, n) <= |msgs|
    ensures |Frames(msgs[..Whole(msgs, n)])| <= n
    ensures Whole(msgs, n) < |msgs| ==> n < |Frames(msgs[..Whole(msgs, n) + 1])|
  {
    if msgs != [] && n >= |Frame(msgs[0])| {
      var k := Whole(msgs[1..], n - |Frame(msgs[0])|);
      WholeBounds(msgs[1..], n - |Frame(msgs[0])|);
      FramesTake(msgs, k);
      if k + 1 < |msgs| { FramesTake(msgs, k + 1); }
    } else if msgs != [] {
      FramesTake(msgs, 0);
    }
  }

  /** However the stream is cut, the reader delivers exactly the messages whose frames are complete. */
  lemma {:induction false} CutStream(msgs: seq<Bytes>, n: nat)
    requires Short(msgs) && n <= |Frames(msgs)|
    ensures Whole(msgs, n) <= |msgs|
    ensures ReadAll(Frames(msgs)[..n]) == msgs[..Whole(msgs, n)]
  {
    if msgs == [] { return; }
    var first, rest := Frame(msgs[0]), Frames(msgs[1..]);
    if n < |first| {
      CutFrame(msgs[0], n);
      assert (first + rest)[..n] == first[..n];
    } else {
      var m := n - |first|;
      CutStream(msgs[1..], m);
      FrameRoundTrip(msgs[0], rest[..m]);
      CutAfter(first, rest, m);
      TakeFirst(msgs, Whole(msgs[1..], m));
    }
  }

  lemma CutAfter(first: Bytes, rest: Bytes, m: nat)
    requires m <= |rest|
    ensures (first + rest)[..|first| + m] == first + rest[..m]
  {
  }

  lemma TakeFirst(msgs: seq<Bytes>, k: nat)
    requires k < |msgs|
    ensures msgs[..k + 1] == [msgs[0]] + msgs[1..][..k]
  {
  }

  /** A stream that ends within a frame ends cleanly only before it or right after its length. */
  lemma CutFrameExactly(msg: Bytes, n: nat)
    requires |msg| < TWO32 && n < |Frame(msg)|
    ensures ReadFrame(Frame(msg)[..n]) == if n == 0 || n == 4 then Closed else Truncated
  {
    CutFrame(msg, n);
  }

  lemma CutFrame(msg: Bytes, n: nat)
    requires |msg| < TWO32 && n < |Frame(msg)|
    ensures !ReadFrame(Frame(msg)[..n]).Msg?
  {
    var f := Frame(msg);
    UintPut(|msg|);
    assert f[..4] == PutUint32(|msg|);
    if n >= 4 { assert f[..n][..4] == f[..4]; }
  }

  /** Different sequences of messages give different streams. */
  lemma FramesInjective(a: seq<Bytes>, b: seq<Bytes>)
    requires Short(a) && Short(b) && Frames(a) == Frames(b)
    ensures a == b
  {
    StreamRoundTrip(a);
    StreamRoundTrip(b);
  }

  // ---- counters ----

  /** What TcpReadByte grows by: the sum is taken in 32 bits before it is widened. */
  function ReadCount(n: nat): nat { (n + 4) % TWO32 }

  /** The counters of both ends agree on a message exactly when it is at most 2^32 - 5 bytes. */
  lemma CountersAgree(msg: Bytes)
    ensures ReadCount(|msg| % TWO32) == |Frame(msg)| <==> |msg| <= TWO32 - 5
  {
  }

  // ---- a connection's two ends ----

  /** The writing half: the bytes handed to the socket and the global counters. */
  class Writer {
    var written: Bytes
    var writeBytes: nat
    var writePkts: nat

    constructor ()
      ensures written == [] && writeBytes == 0 && writePkts == 0
    {
      written, writeBytes, writePkts := [], 0, 0;
    }

    /** packetWrite to a socket that accepts `accepted` of the frame's bytes. */
    method PacketWrite(msg: Bytes, accepted: nat) returns (ok: bool)
      requires accepted <= |Frame(msg)|
      modifies this
      ensures written == old(written) + Frame(msg)[..accepted]
      ensures writeBytes == (old(writeBytes) + accepted) % TWO64
      ensures writePkts == (old(writePkts) + 1) % TWO64
      ensures ok <==> accepted == |Frame(msg)|
    {
      var packet := PutUint32(|msg| % TWO32) + msg;
      written := written + packet[..accepted];
      writeBytes := (writeBytes + accepted) % TWO64;
      writePkts := (writePkts + 1) % TWO64;
      ok := accepted == |packet|;
    }
  }

  /** The reading half: the bytes still to arrive before the peer closes, and the counters. */
  class Reader {
    var stream: Bytes
    var readBytes: nat
    var readPkts: nat

    constructor (stream: Bytes)
      ensures this.stream == stream && readBytes == 0 && readPkts == 0
    {
      this.stream, readBytes, readPkts := stream, 0, 0;
    }

    /** io.ReadFull: all `n` bytes, or whether none or only some arrived. */
    method ReadFull(n: nat) returns (data: Bytes, full: bool, some: bool)
      modifies this`stream
      ensures full <==> n <= |old(stream)|
      ensures full ==> data == old(stream)[..n] && stream == old(stream)[n..]
      ensures !full ==> stream == [] && (some <==> old(stream) != [])
    {
      full := n <= |stream|;
      some := stream != [];
      if full { data, stream := stream[..n], stream[n..]; } else { data, stream := [], []; }
    }

    method PacketRead() returns (r: ReadResult)
      modifies this
      ensures r == ReadFrame(old(stream))
      ensures stream == if r.Msg? then r.rest else []
      ensures readBytes == if r.Msg? then (old(readBytes) + ReadCount(|r.data|)) % TWO64 else old(readBytes)
      ensures readPkts == if r.Msg? then (old(readPkts) + 1) % TWO64 else old(readPkts)
    {
      ghost var s := stream;
      var header, full, some := ReadFull(4);
      if !full { return if some then Truncated else Closed; }
      var n := Uint32(header);
      var data;
      data, full, some := ReadFull(n);
      if !full { return if some then Truncated else Closed; }
      assert s[4..][..n] == s[4..4 + n] && s[4..][n..] == s[4 + n..];
      readBytes := (readBytes + ReadCount(n)) % TWO64;
      readPkts := (readPkts + 1) % TWO64;
      return Msg(data, stream);
    }

    /** The reading loop delivers what ReadAll says and leaves nothing. */
    method ReadLoop() returns (msgs: seq<Bytes>)
      modifies this
      ensures msgs == ReadAll(old(stream)) && stream == []
    {
      msgs := [];
      while true
        invariant ReadAll(old(stream)) == msgs + ReadAll(stream)
        decreases |stream|
      {
        var r := PacketRead();
        if !r.Msg? { return; }
        Snoc(msgs, r.data, ReadAll(r.rest));
        msgs := msgs + [r.data];
      }
    }
  }

  lemma Snoc(msgs: seq<Bytes>, data: Bytes, rest: seq<Bytes>)
    ensures msgs + ([data] + rest) == (msgs + [data]) + rest
  {
  }
}
