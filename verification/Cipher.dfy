/**
 The stream cipher of crypto.go. RC4 itself is a parameter: a keystream, shared by both ends.
 What is modelled is the position in it, the exclusive or, and the buffers written in place.
 */
module Cipher {
  import opened Text
  import opened Framing

  type Keystream = nat -> Byte

  // ---- exclusive or ----

  function XorBits(a: nat, b: nat, bits: nat): (r: nat) {
    if bits == 0 then 0
    else (if a % 2 != b % 2 then 1 else 0) + 2 * XorBits(a / 2, b / 2, bits - 1)
  }

  function Pow2(bits: nat): (r: nat)
    ensures r > 0
  {
    if bits == 0 then 1 else 2 * Pow2(bits - 1)
  }

  lemma {:induction false} XorBound(a: nat, b: nat, bits: nat)
    ensures XorBits(a, b, bits) < Pow2(bits)
  {
    if bits > 0 { XorBound(a / 2, b / 2, bits - 1); }
  }

  lemma {:induction false} XorCancels(a: nat, k: nat, bits: nat)
    requires a < Pow2(bits)
    ensures XorBits(XorBits(a, k, bits), k, bits) == a
  {
    if bits > 0 { XorCancels(a / 2, k / 2, bits - 1); }
  }

  /** One operand and the result determine the other operand. */
  lemma {:induction false} XorInjective(a: nat, k: nat, l: nat, bits: nat)
    requires k < Pow2(bits) && l < Pow2(bits) && XorBits(a, k, bits) == XorBits(a, l, bits)
    ensures k == l
  {
    if bits > 0 { XorInjective(a / 2, k / 2, l / 2, bits - 1); }
  }

  lemma Pow8()
    ensures Pow2(8) == 256
  {
    assert Pow2(4) == 16;
  }

  function Xor(a: Byte, k: Byte): Byte {
    XorBound(a as int, k as int, 8);
    Pow8();
    XorBits(a as int, k as int, 8) as char
  }

  lemma XorTwice(a: Byte, k: Byte)
    ensures Xor(Xor(a, k), k) == a
  {
    Pow8();
    XorBound(a as int, k as int, 8);
    var b := Xor(a, k);
    assert b as int == XorBits(a as int, k as int, 8);
    XorCancels(a as int, k as int, 8);
    assert Xor(b, k) as int == XorBits(b as int, k as int, 8);
  }

  lemma XorKeys(a: Byte, k: Byte, l: Byte)
    requires Xor(a, k) == Xor(a, l)
    ensures k == l
  {
    Pow8();
    XorBound(a as int, k as int, 8);
    XorBound(a as int, l as int, 8);
    assert Xor(a, k) as int == XorBits(a as int, k as int, 8) && Xor(a, l) as int == XorBits(a as int, l as int, 8);
    XorInjective(a as int, k as int, l as int, 8);
  }

  /** The binary digit of `n` at place `i`. */
  function BitAt(n: nat, i: nat): (b: nat)
    ensures b < 2
  {
    if i == 0 then n % 2 else BitAt(n / 2, i - 1)
  }

  function Bit(c: Byte, i: nat): nat { BitAt(c as int, i) }

  /** In each binary digit, `c` is 1 exactly where `a` and `k` differ. */
  ghost predicate Exclusive(c: Byte, a: Byte, k: Byte) {
    forall i: nat :: i < 8 ==> (Bit(c, i) == 1 <==> Bit(a, i) != Bit(k, i))
  }

  lemma {:induction false} BitOfXor(a: nat, k: nat, bits: nat, i: nat)
    requires i < bits
    ensures BitAt(XorBits(a, k, bits), i) == 1 <==> BitAt(a, i) != BitAt(k, i)
  {
    if i > 0 { BitOfXor(a / 2, k / 2, bits - 1, i - 1); }
  }

  lemma {:induction false} XorZeros(a: nat, bits: nat)
    requires a < Pow2(bits)
    ensures XorBits(a, 0, bits) == a && XorBits(0, a, bits) == a && XorBits(a, a, bits) == 0
  {
    if bits > 0 { XorZeros(a / 2, bits - 1); }
  }

  /** The operation on bytes is the exclusive or. */
  lemma XorExclusive(a: Byte, k: Byte)
    ensures Exclusive(Xor(a, k), a, k)
    ensures Xor(a, 0 as char) == a && Xor(0 as char, a) == a && Xor(a, a) == 0 as char
  {
    Pow8();
    XorBound(a as int, k as int, 8);
    assert Xor(a, k) as int == XorBits(a as int, k as int, 8);
    forall i: nat | i < 8 ensures Bit(Xor(a, k), i) == 1 <==> Bit(a, i) != Bit(k, i) {
      BitOfXor(a as int, k as int, 8, i);
    }
    XorZeros(a as int, 8);
  }

  // ---- a message at a position ----

  /** `m` enciphered from keystream position `pos`. */
  function Crypt(ks: Keystream, pos: nat, m: Bytes): (c: Bytes)
    ensures |c| == |m|
  {
    seq(|m|, i requires 0 <= i < |m| => Xor(m[i], ks(pos + i)))
  }

  lemma CryptTwice(ks: Keystream, pos: nat, m: Bytes)
    ensures Crypt(ks, pos, Crypt(ks, pos, m)) == m
  {
    forall i | 0 <= i < |m| ensures Crypt(ks, pos, Crypt(ks, pos, m))[i] == m[i] {
      XorTwice(m[i], ks(pos + i));
    }
  }

  function KeyAt(ks: Keystream, p: nat, i: nat): Byte { ks(p + i) }

  /** `ks` from `p` is what `other` is from `q`, for `n` bytes. */
  ghost predicate Same(ks: Keystream, p: nat, other: Keystream, q: nat, n: nat) {
    forall i: nat :: i < n ==> KeyAt(ks, p, i) == KeyAt(other, q, i)
  }

  lemma KeyOn(ks: Keystream, p: nat, m: nat, i: nat)
    ensures KeyAt(ks, p, m + i) == KeyAt(ks, p + m, i)
  {
    assert p + (m + i) == p + m + i;
  }

  lemma SameSplit(ks: Keystream, p: nat, other: Keystream, q: nat, m: nat, n: nat)
    ensures Same(ks, p, other, q, m + n) <==> Same(ks, p, other, q, m) && Same(ks, p + m, other, q + m, n)
  {
    var p1, q1 := p + m, q + m;
    if Same(ks, p, other, q, m + n) {
      forall i: nat | i < n ensures KeyAt(ks, p1, i) == KeyAt(other, q1, i) {
        KeyOn(ks, p, m, i);
        KeyOn(other, q, m, i);
      }
    }
    if Same(ks, p, other, q, m) && Same(ks, p + m, other, q + m, n) {
      forall i: nat | m <= i < m + n ensures KeyAt(ks, p, i) == KeyAt(other, q, i) {
        KeyOn(ks, p, m, i - m);
        KeyOn(other, q, m, i - m);
      }
    }
  }

  /** The keystream from `pos` repeats itself `shift` later, for `n` bytes. */
  ghost predicate Repeats(ks: Keystream, pos: nat, shift: nat, n: nat) {
    Same(ks, pos, ks, shift + pos, n)
  }

  /** Deciphering with another keystream, or from another position, gives the message back exactly
      when the two are the same there. */
  lemma CryptOther(ks: Keystream, p: nat, other: Keystream, q: nat, m: Bytes)
    ensures Crypt(ks, p, Crypt(other, q, m)) == m <==> Same(ks, p, other, q, |m|)
  {
    var c := Crypt(other, q, m);
    forall i | 0 <= i < |m| ensures Crypt(ks, p, c)[i] == m[i] <==> ks(p + i) == other(q + i) {
      XorTwice(m[i], other(q + i));
      if Xor(c[i], ks(p + i)) == m[i] { XorKeys(c[i], ks(p + i), other(q + i)); }
    }
    forall i | 0 <= i < |m| ensures Crypt(ks, p, c)[i] == m[i] <==> KeyAt(ks, p, i) == KeyAt(other, q, i) {}
    if Crypt(ks, p, c) == m {
      forall i: nat | i < |m| ensures KeyAt(ks, p, i) == KeyAt(other, q, i) { assert Crypt(ks, p, c)[i] == m[i]; }
    }
  }

  /** In particular from another position of the same keystream. */
  lemma CryptShifted(ks: Keystream, pos: nat, shift: nat, m: Bytes)
    ensures Crypt(ks, pos, Crypt(ks, shift + pos, m)) == m <==> Repeats(ks, pos, shift, |m|)
  {
    CryptOther(ks, pos, ks, shift + pos, m);
  }

  /** The keystream is the same from both positions, for `n` bytes. */
  ghost predicate Alike(ks: Keystream, p: nat, q: nat, n: nat) {
    if p <= q then Repeats(ks, p, q - p, n) else Repeats(ks, q, p - q, n)
  }

  lemma AlikeAhead(ks: Keystream, p: nat, d: nat, n: nat)
    ensures Alike(ks, p, p + d, n) <==> Repeats(ks, p, d, n)
    ensures Alike(ks, p + d, p, n) <==> Repeats(ks, p, d, n)
  {
    assert p + d - p == d;
  }

  /** It does not matter which of two positions enciphers and which deciphers. */
  lemma CryptEither(ks: Keystream, p: nat, q: nat, m: Bytes)
    ensures Crypt(ks, p, Crypt(ks, q, m)) == m <==> Crypt(ks, q, Crypt(ks, p, m)) == m
  {
    CryptTwice(ks, p, m);
    CryptTwice(ks, q, m);
    CryptTwice(ks, p, Crypt(ks, q, m));
    CryptTwice(ks, q, Crypt(ks, p, m));
  }

  /** Wherever a message was enciphered and is deciphered, it comes back exactly when the keystream
      is the same from both positions. */
  lemma CryptApart(ks: Keystream, p: nat, q: nat, m: Bytes)
    ensures Crypt(ks, p, Crypt(ks, q, m)) == m <==> Alike(ks, p, q, |m|)
  {
    CryptEither(ks, p, q, m);
    if p <= q { CryptShifted(ks, p, q - p, m); } else { CryptShifted(ks, q, p - q, m); }
  }

  // ---- the cipher objects ----

  class Stream {
    const keystream: Keystream
    var pos: nat

    constructor (ks: Keystream)
      ensures keystream == ks && pos == 0
    {
      keystream, pos := ks, 0;
    }

    /** dst may be src itself; otherwise it only has to be as long. */
    method XorKeyStream(dst: array<Byte>, src: array<Byte>)
      requires dst.Length >= src.Length
      modifies this, dst
      ensures pos == old(pos) + src.Length
      ensures dst[..src.Length] == Crypt(keystream, old(pos), old(src[..]))
      ensures dst[src.Length..] == old(dst[src.Length..])
      ensures forall j :: 0 <= j < src.Length ==> Exclusive(dst[j], old(src[j]), keystream(old(pos) + j))
      ensures forall j :: 0 <= j < src.Length && old(src[j]) == 0 as char ==> dst[j] == keystream(old(pos) + j)
    {
      var i := 0;
      while i < src.Length
        invariant 0 <= i <= src.Length && pos == old(pos) + i
        invariant forall j :: i <= j < src.Length ==> src[j] == old(src[j])
        invariant forall j :: 0 <= j < i ==> dst[j] == Xor(old(src[j]), keystream(old(pos) + j))
        invariant forall j :: i <= j < dst.Length ==> dst[j] == old(dst[j])
        invariant forall j :: 0 <= j < i ==> Exclusive(dst[j], old(src[j]), keystream(old(pos) + j))
        invariant forall j :: 0 <= j < i && old(src[j]) == 0 as char ==> dst[j] == keystream(old(pos) + j)
      {
        XorExclusive(src[i], keystream(pos));
        XorExclusive(keystream(pos), keystream(pos));
        dst[i] := Xor(src[i], keystream(pos));
        pos := pos + 1;
        i := i + 1;
      }
    }
  }

  class Crypto {
    var encoder: Stream
    var decoder: Stream

    /** ComputeSecret: two ciphers at position zero of the agreed keystream. */
    constructor (ks: Keystream)
      ensures encoder.keystream == ks && decoder.keystream == ks && encoder.pos == 0 && decoder.pos == 0
      ensures fresh(encoder) && fresh(decoder) && encoder != decoder
    {
      encoder := new Stream(ks);
      decoder := new Stream(ks);
    }

    /** Encode hands its arguments to the cipher in the opposite order: it enciphers `dst` into `src`. */
    method Encode(src: array<Byte>, dst: array<Byte>)
      requires src.Length >= dst.Length
      modifies encoder, src
      ensures encoder.pos == old(encoder.pos) + dst.Length
      ensures src[..dst.Length] == Crypt(encoder.keystream, old(encoder.pos), old(dst[..]))
      ensures src[dst.Length..] == old(src[dst.Length..])
      ensures forall j :: 0 <= j < dst.Length ==>
                Exclusive(src[j], old(dst[j]), encoder.keystream(old(encoder.pos) + j))
    {
      encoder.XorKeyStream(src, dst);
    }

    method Decode(src: array<Byte>, dst: array<Byte>)
      requires dst.Length >= src.Length
      modifies decoder, dst
      ensures decoder.pos == old(decoder.pos) + src.Length
      ensures dst[..src.Length] == Crypt(decoder.keystream, old(decoder.pos), old(src[..]))
      ensures dst[src.Length..] == old(dst[src.Length..])
      ensures forall j :: 0 <= j < src.Length ==>
                Exclusive(dst[j], old(src[j]), decoder.keystream(old(decoder.pos) + j))
    {
      decoder.XorKeyStream(dst, src);
    }

    /** What SendMessage does: encipher the caller's own buffer. */
    method EncodeInPlace(message: array<Byte>)
      modifies encoder, message
      ensures encoder.pos == old(encoder.pos) + message.Length
      ensures message[..] == Crypt(encoder.keystream, old(encoder.pos), old(message[..]))
    {
      Encode(message, message);
      assert message[..message.Length] == message[..];
    }

    method DecodeInPlace(message: array<Byte>)
      modifies decoder, message
      ensures decoder.pos == old(decoder.pos) + message.Length
      ensures message[..] == Crypt(decoder.keystream, old(decoder.pos), old(message[..]))
    {
      Decode(message, message);
      assert message[..message.Length] == message[..];
    }
  }
}
