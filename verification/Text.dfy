/** The string operations the source relies on: strings.Split, decimal printing and strconv.Atoi.
    A Go string is a sequence of bytes, modelled as characters below 256. */
module Text {
  import opened Basics

  type Byte = c: char | c as int < 256 witness 'a'

  // ---- strings.Split with a one-byte separator ----

  function Split(s: string, sep: char): (parts: seq<string>)
    ensures |parts| >= 1
  {
    if s == "" then [""]
    else if s[0] == sep then [""] + Split(s[1..], sep)
    else
      var rest := Split(s[1..], sep);
      [[s[0]] + rest[0]] + rest[1..]
  }

  function Join(parts: seq<string>, sep: char): string
    requires |parts| >= 1
  {
    if |parts| == 1 then parts[0] else parts[0] + [sep] + Join(parts[1..], sep)
  }

  lemma {:induction false} SplitPlain(s: string, sep: char)
    requires sep !in s
    ensures Split(s, sep) == [s]
  {
    if s != "" {
      SplitPlain(s[1..], sep);
      assert [s[0]] + s[1..] == s;
    }
  }

  lemma SplitStep(c: char, s: string, sep: char)
    ensures Split([c] + s, sep) ==
              if c == sep then [""] + Split(s, sep)
              else [[c] + Split(s, sep)[0]] + Split(s, sep)[1..]
  {
    assert ([c] + s)[1..] == s;
  }

  lemma SplitFirst(c: char, left: seq<string>, right: seq<string>)
    requires |left| > 0
    ensures [""] + (left + right) == [""] + left + right
    ensures [[c] + (left + right)[0]] + (left + right)[1..] == [[c] + left[0]] + left[1..] + right
  {
    assert (left + right)[0] == left[0];
    assert (left + right)[1..] == left[1..] + right;
  }

  lemma SplitGrow(c: char, tail: string, b: string, sep: char)
    requires Split(tail + [sep] + b, sep) == Split(tail, sep) + Split(b, sep)
    ensures Split([c] + (tail + [sep] + b), sep) == Split([c] + tail, sep) + Split(b, sep)
  {
    SplitStep(c, tail + [sep] + b, sep);
    SplitStep(c, tail, sep);
    SplitFirst(c, Split(tail, sep), Split(b, sep));
  }

  /** Splitting distributes over the separator. */
  lemma {:induction false} SplitConcat(a: string, b: string, sep: char)
    ensures Split(a + [sep] + b, sep) == Split(a, sep) + Split(b, sep)
  {
    if a == "" {
      SplitStep(sep, b, sep);
      assert a + [sep] + b == [sep] + b;
    } else {
      SplitConcat(a[1..], b, sep);
      SplitGrow(a[0], a[1..], b, sep);
      assert [a[0]] + a[1..] == a;
      assert [a[0]] + (a[1..] + [sep] + b) == a + [sep] + b;
    }
  }

  /** The parts determine the string. */
  lemma {:induction false} JoinSplit(s: string, sep: char)
    ensures Join(Split(s, sep), sep) == s
  {
    if s != "" {
      JoinSplit(s[1..], sep);
      var rest := Split(s[1..], sep);
      if s[0] == sep {
        assert ([""] + rest)[1..] == rest;
      } else {
        var parts := [[s[0]] + rest[0]] + rest[1..];
        assert parts[1..] == rest[1..];
      }
    }
  }

  // ---- decimal numbers ----

  function Digit(d: nat): char
    requires d < 10
  {
    ('0' as int + d) as char
  }

  predicate IsDigit(c: char) { '0' <= c <= '9' }

  function PrintNat(n: nat): string {
    if n < 10 then [Digit(n)] else PrintNat(n / 10) + [Digit(n % 10)]
  }

  /** `%v` of an integer. */
  function Print(n: int): string {
    if n < 0 then "-" + PrintNat(-n) else PrintNat(n)
  }

  function ParseNat(s: string): Option<int> {
    if s == "" then Some(0)
    else
      var c := s[|s| - 1];
      match ParseNat(s[..|s| - 1])
      case None => None
      case Some(n) => if IsDigit(c) then Some(n * 10 + (c as int - '0' as int)) else None
  }

  const MIN_INT := -0x8000_0000_0000_0000
  const MAX_INT := 0x7FFF_FFFF_FFFF_FFFF

  /** strconv.Atoi on a 64-bit platform: an optional sign, at least one digit, and in range. */
  function Atoi(s: string): Option<int> {
    var signed := s != "" && (s[0] == '-' || s[0] == '+');
    var digits := if signed then s[1..] else s;
    if digits == "" then None
    else
      match ParseNat(digits)
      case None => None
      case Some(n) =>
        var v := if signed && s[0] == '-' then -n else n;
        if MIN_INT <= v <= MAX_INT then Some(v) else None
  }

  lemma {:induction false} ParsePrintNat(n: nat)
    ensures PrintNat(n) != "" && ParseNat(PrintNat(n)) == Some(n)
    ensures forall c :: c in PrintNat(n) ==> IsDigit(c)
  {
    if n < 10 {
      assert PrintNat(n)[..0] == "";
    } else {
      ParsePrintNat(n / 10);
      var s := PrintNat(n);
      assert s[..|s| - 1] == PrintNat(n / 10) && s[|s| - 1] == Digit(n % 10);
    }
  }

  function Power10(k: nat): nat {
    if k == 0 then 1 else 10 * Power10(k - 1)
  }

  /** No shorter numeral would do, and there is no leading zero. */
  lemma {:induction false} PrintShort(n: nat)
    ensures |PrintNat(n)| >= 1 && n < Power10(|PrintNat(n)|)
    ensures n >= 10 <==> |PrintNat(n)| > 1
    ensures |PrintNat(n)| > 1 ==> Power10(|PrintNat(n)| - 1) <= n && PrintNat(n)[0] != '0'
  {
    if n >= 10 {
      PrintShort(n / 10);
      assert PrintNat(n)[0] == PrintNat(n / 10)[0];
      if n < 100 { assert PrintNat(n / 10) == [Digit(n / 10)]; }
    }
  }

  /** What a string of digits stands for, from its first digit on. */
  function Positional(s: string): int {
    if s == "" then 0 else (s[0] as int - '0' as int) * Power10(|s| - 1) + Positional(s[1..])
  }

  lemma {:induction false} PositionalSnoc(s: string, c: char)
    ensures Positional(s + [c]) == 10 * Positional(s) + (c as int - '0' as int)
  {
    var all := s + [c];
    if s == "" {
      assert all[1..] == "";
    } else {
      PositionalSnoc(s[1..], c);
      assert all[1..] == s[1..] + [c];
      PowerStep(s[0] as int - '0' as int, |s|);
    }
  }

  lemma PowerStep(d: int, n: nat)
    requires n > 0
    ensures d * Power10(n) == 10 * (d * Power10(n - 1))
  {
  }

  /** Exactly the digit strings are numerals, with their positional value. */
  lemma {:induction false} ParseExactly(s: string)
    ensures ParseNat(s).Some? <==> forall i :: 0 <= i < |s| ==> '0' <= s[i] <= '9'
    ensures ParseNat(s).Some? ==> ParseNat(s).value == Positional(s)
  {
    if s != "" {
      var before, c := s[..|s| - 1], s[|s| - 1];
      assert s == before + [c];
      ParseExactly(before);
      PositionalSnoc(before, c);
    }
  }

  /** Atoi accepts exactly an optional sign and at least one digit, within 64 bits. */
  lemma AtoiExactly(s: string)
    ensures var body := if s != "" && (s[0] == '-' || s[0] == '+') then s[1..] else s;
            var v := if s != "" && s[0] == '-' then -Positional(body) else Positional(body);
            Atoi(s) == if body != "" && (forall i :: 0 <= i < |body| ==> '0' <= body[i] <= '9')
                          && -0x8000_0000_0000_0000 <= v <= 0x7FFF_FFFF_FFFF_FFFF then Some(v) else None
  {
    ParseExactly(if s != "" && (s[0] == '-' || s[0] == '+') then s[1..] else s);
  }

  lemma AtoiDigits(s: string, n: int)
    requires n >= 0 && s != "" && IsDigit(s[0]) && ParseNat(s) == Some(n)
    ensures Atoi(s) == if n <= MAX_INT then Some(n) else None
    ensures Atoi("-" + s) == if MIN_INT <= -n then Some(-n) else None
  {
    assert ("-" + s)[0] == '-' && ("-" + s)[1..] == s;
  }

  lemma AtoiPrint(n: int)
    ensures Atoi(Print(n)) == if MIN_INT <= n <= MAX_INT then Some(n) else None
  {
    var m := if n < 0 then -n else n;
    ParsePrintNat(m);
    assert PrintNat(m)[0] in PrintNat(m);
    AtoiDigits(PrintNat(m), m);
  }

  /** Printing and parsing undo each other on the whole range of int64. */
  lemma ParsePrint(n: int)
    requires MIN_INT <= n <= MAX_INT
    ensures Atoi(Print(n)) == Some(n)
  {
    AtoiPrint(n);
  }

  lemma OutOfRange(n: int)
    requires !(MIN_INT <= n <= MAX_INT)
    ensures Atoi(Print(n)) == None
  {
    AtoiPrint(n);
  }

  lemma PrintChars(n: int)
    ensures Print(n) != "" && forall c :: c in Print(n) ==> IsDigit(c) || c == '-'
    ensures Print(n)[0] == '-' <==> n < 0
    ensures '/' !in Print(n) && '@' !in Print(n) && Print(n) != "+" && Print(n) != "#"
  {
    ParsePrintNat(if n < 0 then -n else n);
    assert Print(n)[0] in Print(n);
    if n >= 0 { assert IsDigit(PrintNat(n)[0]); }
  }

  /** Different integers print differently. */
  lemma PrintInjective(m: int, n: int)
    requires Print(m) == Print(n)
    ensures m == n
  {
    PrintChars(m);
    PrintChars(n);
    ParsePrintNat(if m < 0 then -m else m);
    ParsePrintNat(if n < 0 then -n else n);
    if m < 0 {
      assert Print(m)[1..] == PrintNat(-m) && Print(n)[1..] == PrintNat(-n);
    }
  }
}
