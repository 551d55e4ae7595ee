/**
 The receive buffer of the UDP server and client: one large array at a time, of which every
 datagram takes the next piece. The pieces are handed out as slices that share the array.
 */
module Arena {
  import opened Text
  import opened Framing

  const UDP_PACKET_SIZE := 4096
  const PACKET_BUF_SIZE := 1048576

  /** A Go slice: a window on a shared array. */
  datatype Slice = Slice(arr: array<Byte>, off: nat, len: nat)

  ghost predicate Disjoint(a: Slice, b: Slice) {
    a.arr != b.arr || a.off + a.len <= b.off || b.off + b.len <= a.off
  }

  class Receiver {
    var buf: array<Byte>                 // the current buffer is buf[off..]
    var off: nat
    ghost var delivered: seq<Slice>
    ghost var contents: seq<Bytes>       // what each delivered slice must hold
    ghost var buffers: seq<array<Byte>>  // every buffer ever allocated
    ghost var bytes: nat                 // delivered in all

    ghost predicate SliceOk(i: nat)
      requires i < |delivered| == |contents|
      reads this, delivered[i].arr
    {
      var s := delivered[i];
      && s.arr in buffers
      && s.off + s.len <= s.arr.Length
      && (s.arr == buf ==> s.off + s.len <= off)
      && s.arr[s.off..s.off + s.len] == contents[i]
    }

    /** Delivered slices hold what they were delivered with, never overlap, and leave the rest
        of the current buffer free; and buffers are only as many as the delivered bytes explain. */
    ghost predicate Valid()
      reads this, buffers
    {
      && |buffers| > 0 && buffers[|buffers| - 1] == buf
      && (forall b :: b in buffers ==> b.Length == PACKET_BUF_SIZE)
      && off <= PACKET_BUF_SIZE
      && |delivered| == |contents|
      && (forall i :: 0 <= i < |delivered| ==> delivered[i].arr in buffers && SliceOk(i))
      && (forall i, j :: 0 <= i < j < |delivered| ==> Disjoint(delivered[i], delivered[j]))
      && bytes >= (|buffers| - 1) * (PACKET_BUF_SIZE - (UDP_PACKET_SIZE - 1)) + off
    }

    constructor ()
      ensures Valid() && fresh(buf) && buffers == [buf] && delivered == [] && bytes == 0
    {
      buf := new Byte[PACKET_BUF_SIZE](_ => 'a');
      off := 0;
      delivered, contents, bytes := [], [], 0;
      new;
      buffers := [buf];
    }

    /** Allocates a buffer when less than one packet is free. */
    method Refill()
      requires Valid()
      modifies this`buf, this`off, this`buffers
      ensures Valid() && buf.Length == 1048576 && buf.Length - off >= 4096
      ensures old(buf.Length - off) >= 4096 ==> buf == old(buf) && off == old(off) && buffers == old(buffers)
      ensures old(buf.Length - off) < 4096 ==> fresh(buf) && buffers == old(buffers) + [buf] && off == 0
    {
      if buf.Length - off < UDP_PACKET_SIZE {
        var next := new Byte[PACKET_BUF_SIZE](_ => 'a');
        forall i | 0 <= i < |delivered| ensures delivered[i].arr != next { assert SliceOk(i); }
        buf, off := next, 0;
        buffers := buffers + [next];
        forall i | 0 <= i < |delivered| ensures SliceOk(i) { assert old(SliceOk(i)); }
      }
    }

    /** One read: the socket fills the free part, and what it filled becomes a message. A datagram
        larger than the free part is cut, which cannot happen to one of at most 4096 bytes. */
    method ReadMessage(datagram: Bytes) returns (msg: Slice)
      requires Valid()
      modifies this, buffers
      ensures Valid()
      ensures delivered == old(delivered) + [msg]
      ensures |contents| == |old(contents)| + 1 && contents[..|old(contents)|] == old(contents)
      ensures contents[|old(contents)|] <= datagram
      ensures |datagram| <= 4096 ==> contents[|old(contents)|] == datagram
      ensures old(buffers) <= buffers && |buffers| <= |old(buffers)| + 1
      ensures forall b :: b in buffers && b !in old(buffers) ==> fresh(b)
      ensures bytes == old(bytes) + msg.len && bytes >= (|buffers| - 1) * (1048576 - 4095)
    {
      Refill();
      var free := buf.Length - off;
      var n := if |datagram| < free then |datagram| else free;
      Fill(datagram[..n]);
      msg := Carve(n, datagram[..n]);
    }

    /** Hands out the first `n` free bytes. */
    method Carve(n: nat, ghost data: Bytes) returns (msg: Slice)
      requires Valid() && off + n <= buf.Length && buf[off..off + n] == data
      modifies this`off, this`delivered, this`contents, this`bytes
      ensures Valid() && msg == Slice(buf, old(off), n)
      ensures delivered == old(delivered) + [msg] && contents == old(contents) + [data] && bytes == old(bytes) + n
    {
      msg := Slice(buf, off, n);
      forall i | 0 <= i < |delivered| ensures Disjoint(delivered[i], msg) { assert SliceOk(i); }
      ghost var before := delivered;
      off := off + n;
      delivered, contents, bytes := delivered + [msg], contents + [data], bytes + n;
      forall i | 0 <= i < |delivered| ensures delivered[i].arr in buffers && SliceOk(i) {
        if i < |before| { assert delivered[i] == before[i] && old(SliceOk(i)); }
      }
    }

    /** The socket writes into the free part only. */
    method Fill(data: Bytes)
      requires Valid() && off + |data| <= buf.Length
      modifies buf
      ensures Valid() && buf[off..off + |data|] == data
    {
      forall i | 0 <= i < |data| {
        buf[off + i] := data[i];
      }
      forall i | 0 <= i < |delivered| ensures SliceOk(i) {
        assert old(SliceOk(i));
        var s := delivered[i];
        assert s.arr[s.off..s.off + s.len] == old(s.arr[s.off..s.off + s.len]);
      }
    }

    /** A consumer deciphers its own slice in place: no other message changes. */
    method Overwrite(slice: Slice, data: Bytes, ghost k: nat)
      requires Valid() && k < |delivered| && delivered[k] == slice && |data| == slice.len
      modifies this`contents, slice.arr
      ensures Valid() && contents == old(contents)[k := data]
    {
      assert SliceOk(k);
      OverwriteSlice(slice, data);
      contents := contents[k := data];
      forall i | 0 <= i < |delivered| ensures SliceOk(i) {
        assert old(SliceOk(i));
        var s := delivered[i];
        if i != k {
          assert Disjoint(s, slice) by {
            if i < k {
              assert Disjoint(delivered[i], delivered[k]);
            } else {
              assert Disjoint(delivered[k], delivered[i]);
            }
          }
          assert s.arr[s.off..s.off + s.len] == old(s.arr[s.off..s.off + s.len]);
        }
      }
    }
  }

  method OverwriteSlice(s: Slice, data: Bytes)
    requires s.off + s.len <= s.arr.Length && |data| == s.len
    modifies s.arr
    ensures s.arr[s.off..s.off + s.len] == data
    ensures forall i :: 0 <= i < s.arr.Length && !(s.off <= i < s.off + s.len) ==> s.arr[i] == old(s.arr[i])
  {
    forall i | 0 <= i < s.len {
      s.arr[s.off + i] := data[i];
    }
  }
}
