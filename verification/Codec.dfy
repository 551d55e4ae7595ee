/**
 SimpleCodec: a packet is its decimal type code, "@" and its JSON body. JSON itself is a
 parameter; what the codec needs of it is stated by `Faithful`.
 */
module Codec {
  import opened Basics
  import Text

  /** A packet: its type code and its content, which the codec leaves to JSON. */
  datatype Packet<P> = Packet(code: int, content: P)

  /** json.Marshal, and json.Unmarshal into the packet type of a code. */
  datatype Json<!P> = Json(encode: Packet<P> -> seq<Text.Byte>, decode: (int, string) -> Option<P>)

  /** The keys of the decoder table. */
  const CODES := {1, 2, 3, 4, 5, 6, 7, 10, 11, 12, 20, 21, 22}

  predicate Prefix(a: string, b: string) {
    |a| <= |b| && b[..|a|] == a
  }

  /** JSON reads back what it wrote, and no proper prefix of a JSON object or string is valid. */
  ghost predicate Faithful<P(!new)>(j: Json<P>) {
    && (forall p: Packet<P> :: j.decode(p.code, j.encode(p)) == Some(p.content))
    && (forall p: Packet<P>, s: string :: Prefix(s, j.encode(p)) && s != j.encode(p) ==> j.decode(p.code, s) == None)
  }

  function Marshal<P>(j: Json<P>, p: Packet<P>): string {
    Text.Print(p.code) + "@" + j.encode(p)
  }

  /** What Marshal writes is a byte string. */
  lemma MarshalBytes<P>(j: Json<P>, p: Packet<P>)
    ensures forall i :: 0 <= i < |Marshal(j, p)| ==> Marshal(j, p)[i] as int < 256
  {
    Text.PrintChars(p.code);
    var head := Text.Print(p.code);
    forall i | 0 <= i < |head| ensures head[i] as int < 256 { assert head[i] in head; }
  }

  function Unmarshal<P>(j: Json<P>, raw: string): Result<Packet<P>> {
    var parts := Text.Split(raw, '@');
    match Text.Atoi(parts[0])
    case None => Err("header")
    case Some(code) =>
      if code !in CODES then Err("header")
      else if |parts| < 2 then Err("structure")
      else
        match j.decode(code, parts[1])
        case None => Err("body")
        case Some(content) => Ok(Packet(code, content))
  }

  /** What the codec makes of a header, "@" and the rest. */
  lemma UnmarshalParts<P>(j: Json<P>, code: int, rest: string)
    requires code in CODES
    ensures Unmarshal(j, Text.Print(code) + "@" + rest) ==
              match j.decode(code, Text.Split(rest, '@')[0])
              case None => Err("body")
              case Some(content) => Ok(Packet(code, content))
  {
    Text.ParsePrint(code);
    Text.PrintChars(code);
    Text.SplitConcat(Text.Print(code), rest, '@');
    Text.SplitPlain(Text.Print(code), '@');
  }

  lemma {:induction false} FirstPart(s: string, sep: char)
    ensures Prefix(Text.Split(s, sep)[0], s)
    ensures Text.Split(s, sep)[0] == s <==> sep !in s
  {
    if s != "" && s[0] != sep {
      FirstPart(s[1..], sep);
      assert s == [s[0]] + s[1..];
    }
  }

  /** Unmarshal undoes Marshal exactly for the packets whose JSON contains no "@". */
  lemma RoundTrip<P(!new)>(j: Json<P>, p: Packet<P>)
    requires Faithful(j) && p.code in CODES
    ensures Unmarshal(j, Marshal(j, p)) == Ok(p) <==> '@' !in j.encode(p)
    ensures '@' in j.encode(p) ==> Unmarshal(j, Marshal(j, p)) == Err("body")
  {
    UnmarshalParts(j, p.code, j.encode(p));
    FirstPart(j.encode(p), '@');
  }

  /** A trailing "@" and any suffix, which the UDP client appends, is never seen. */
  lemma SuffixIgnored<P(!new)>(j: Json<P>, p: Packet<P>, suffix: string)
    requires Faithful(j) && p.code in CODES
    ensures Unmarshal(j, Marshal(j, p) + "@" + suffix) == Unmarshal(j, Marshal(j, p))
  {
    var body := j.encode(p);
    UnmarshalParts(j, p.code, body);
    UnmarshalParts(j, p.code, body + "@" + suffix);
    Text.SplitConcat(body, suffix, '@');
    assert Marshal(j, p) + "@" + suffix == Text.Print(p.code) + "@" + (body + "@" + suffix);
  }

  /** The packet kinds there are: requests to broadcasts, pings to heartbeats, and the streams. */
  predicate Known(code: int) {
    1 <= code <= 7 || 10 <= code <= 12 || 20 <= code <= 22
  }

  /** Exactly the packets of these kinds whose JSON has no "@" come through. */
  lemma KnownCodes<P(!new)>(j: Json<P>, p: Packet<P>)
    requires Faithful(j)
    ensures Unmarshal(j, Marshal(j, p)) == Ok(p) <==> Known(p.code) && '@' !in j.encode(p)
  {
    if p.code in CODES { RoundTrip(j, p); } else { UnknownCode(j, p.code, j.encode(p)); }
  }

  /** Why anything else is rejected: what precedes the first "@" is no known code, there is no "@", or
      what lies between it and the next is no such content. */
  lemma RejectsExactly<P>(j: Json<P>, head: string, body: string, more: string)
    requires '@' !in head && '@' !in body && (more == "" || more[0] == '@')
    ensures var known := Text.Atoi(head).Some? && Known(Text.Atoi(head).value);
            && Unmarshal(j, head) == Err(if known then "structure" else "header")
            && Unmarshal(j, head + "@" + body + more) ==
                 if !known then Err("header")
                 else if j.decode(Text.Atoi(head).value, body).None? then Err("body")
                 else Ok(Packet(Text.Atoi(head).value, j.decode(Text.Atoi(head).value, body).value))
  {
    Text.SplitPlain(head, '@');
    Text.SplitPlain(body, '@');
    assert head + "@" + body + more == head + ['@'] + (body + more);
    Text.SplitConcat(head, body + more, '@');
    if more == "" {
      assert body + more == body;
    } else {
      assert body + more == body + ['@'] + more[1..];
      Text.SplitConcat(body, more[1..], '@');
    }
  }

  /** Nothing with an unknown type code, however framed, is accepted. */
  lemma UnknownCode<P>(j: Json<P>, code: int, rest: string)
    requires code !in CODES
    ensures Unmarshal(j, Text.Print(code) + "@" + rest) == Err("header")
  {
    Text.PrintChars(code);
    Text.SplitConcat(Text.Print(code), rest, '@');
    Text.SplitPlain(Text.Print(code), '@');
    if Text.MIN_INT <= code <= Text.MAX_INT { Text.ParsePrint(code); } else { Text.OutOfRange(code); }
  }
}
