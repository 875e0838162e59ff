/**
 * IPv4 addresses in dotted-decimal text: the `Display` and `FromStr`
 * implementations of the standard library's `Ipv4Addr`, on which the
 * `OptionalIpv4Addr` codec relies.
 *
 * Formatting writes the four octets in decimal without leading zeros,
 * separated by '.'. Parsing accepts exactly four '.'-separated parts, each of
 * one to three ASCII digits, with no leading zero on a multi-digit part and a
 * value below 256; nothing else may surround or separate them.
 */
module Ipv4 {
  import opened Wrappers
  import opened Text

  type Octet = x: int | 0 <= x < 256

  /** An IPv4 address, most significant octet first. */
  datatype Addr = Addr(a: Octet, b: Octet, c: Octet, d: Octet)

  function DigitValue(ch: char): (v: nat)
    requires IsDigit(ch)
    ensures v < 10
  {
    ch as int - '0' as int
  }

  function DigitChar(v: nat): (ch: char)
    requires v < 10
    ensures IsDigit(ch) && DigitValue(ch) == v
  {
    ('0' as int + v) as char
  }

  /** The value of a string of decimal digits, most significant first. */
  function DigitsValue(s: string): nat
    requires AllDigits(s)
  {
    if s == [] then 0 else DigitsValue(s[..|s| - 1]) * 10 + DigitValue(s[|s| - 1])
  }

  /** Decimal text of an octet, with no leading zero. */
  function OctetText(n: Octet): (t: string)
    ensures 1 <= |t| <= 3 && AllDigits(t) && '.' !in t
  {
    if n < 10 then [DigitChar(n)]
    else if n < 100 then [DigitChar(n / 10), DigitChar(n % 10)]
    else [DigitChar(n / 100), DigitChar(n / 10 % 10), DigitChar(n % 10)]
  }

  /** One part of a dotted address, as the standard parser reads it. */
  function ParseOctet(p: string): (r: Option<Octet>)
    ensures r.Some? ==> 1 <= |p| <= 3 && AllDigits(p) && (|p| > 1 ==> p[0] != '0')
  {
    if 1 <= |p| <= 3 && AllDigits(p) && (|p| > 1 ==> p[0] != '0') && DigitsValue(p) < 256
    then Some(DigitsValue(p))
    else None
  }

  /** `s` cut at every occurrence of `sep`; there is always at least one part. */
  function Split(s: string, sep: char): (parts: seq<string>)
    ensures |parts| >= 1
  {
    if s == [] then [""]
    else
      var rest := Split(s[1..], sep);
      if s[0] == sep then [""] + rest else [[s[0]] + rest[0]] + rest[1..]
  }

  /** The parts joined back with `sep` between neighbours. */
  function Join(parts: seq<string>, sep: char): string
    requires |parts| >= 1
  {
    if |parts| == 1 then parts[0] else parts[0] + [sep] + Join(parts[1..], sep)
  }

  /** The dotted-decimal text of an address (`Display`). */
  function Format(x: Addr): (t: string)
  {
    Join(Octets(x), '.')
  }

  /** The decimal texts of the four octets, in order. */
  function Octets(x: Addr): (ts: seq<string>)
    ensures |ts| == 4 && forall i :: 0 <= i < 4 ==> 1 <= |ts[i]| <= 3 && '.' !in ts[i]
  {
    [OctetText(x.a), OctetText(x.b), OctetText(x.c), OctetText(x.d)]
  }

  /** `Ipv4Addr::from_str`: `None` when the text is not a dotted-decimal address. */
  function Parse(s: string): (r: Option<Addr>)
    ensures r.Some? ==> s != []
  {
    var parts := Split(s, '.');
    if |parts| != 4 then None
    else match (ParseOctet(parts[0]), ParseOctet(parts[1]), ParseOctet(parts[2]), ParseOctet(parts[3]))
      case (Some(a), Some(b), Some(c), Some(d)) => Some(Addr(a, b, c, d))
      case _ => None
  }

  lemma {:induction false} SplitNoSep(s: string, sep: char)
    requires sep !in s
    ensures Split(s, sep) == [s]
  {
    if s != [] {
      SplitNoSep(s[1..], sep);
      assert [s[0]] + s[1..] == s;
    }
  }

  lemma {:induction false} SplitAtFirst(x: string, sep: char, y: string)
    requires sep !in x
    ensures Split(x + [sep] + y, sep) == [x] + Split(y, sep)
  {
    if x == [] {
      assert x + [sep] + y == [sep] + y;
      assert ([sep] + y)[1..] == y;
    } else {
      assert (x + [sep] + y)[1..] == x[1..] + [sep] + y;
      SplitAtFirst(x[1..], sep, y);
      assert [x[0]] + x[1..] == x;
    }
  }

  lemma {:induction false} JoinSplit(s: string, sep: char)
    ensures Join(Split(s, sep), sep) == s
  {
    if s != [] {
      JoinSplit(s[1..], sep);
      var rest := Split(s[1..], sep);
      if s[0] != sep && |rest| > 1 {
        var parts := Split(s, sep);
        assert parts[1..] == rest[1..];
        assert Join(rest, sep) == rest[0] + [sep] + Join(rest[1..], sep);
      }
    }
  }

  lemma DigitCharOfValue(ch: char)
    requires IsDigit(ch)
    ensures DigitChar(DigitValue(ch)) == ch
  {
  }

  lemma DigitsValue1(t: string)
    requires |t| == 1 && AllDigits(t)
    ensures DigitsValue(t) == DigitValue(t[0])
  {
    assert DigitsValue(t) == DigitsValue(t[..0]) * 10 + DigitValue(t[0]);
  }

  lemma DigitsValue2(t: string)
    requires |t| == 2 && AllDigits(t)
    ensures DigitsValue(t) == DigitValue(t[0]) * 10 + DigitValue(t[1])
  {
    DigitsValue1(t[..1]);
  }

  lemma DigitsValue3(t: string)
    requires |t| == 3 && AllDigits(t)
    ensures DigitsValue(t) == DigitValue(t[0]) * 100 + DigitValue(t[1]) * 10 + DigitValue(t[2])
  {
    DigitsValue2(t[..2]);
  }

  lemma OctetRoundTrip(n: Octet)
    ensures ParseOctet(OctetText(n)) == Some(n)
  {
    var t := OctetText(n);
    if n < 10 {
      DigitsValue1(t);
    } else if n < 100 {
      DigitsValue2(t);
    } else {
      DigitsValue3(t);
    }
  }

  lemma OctetCanonical2(p: string)
    requires |p| == 2 && AllDigits(p) && p[0] != '0'
    ensures DigitsValue(p) < 100 && OctetText(DigitsValue(p)) == p
  {
    DigitsValue2(p);
    DigitCharOfValue(p[0]);
    DigitCharOfValue(p[1]);
    var x, y := DigitValue(p[0]), DigitValue(p[1]);
    var n := DigitsValue(p);
    assert n / 10 == x && n % 10 == y;
    assert OctetText(n) == [DigitChar(x), DigitChar(y)];
  }

  lemma OctetCanonical3(p: string)
    requires |p| == 3 && AllDigits(p) && p[0] != '0' && DigitsValue(p) < 256
    ensures OctetText(DigitsValue(p)) == p
  {
    DigitsValue3(p);
    DigitCharOfValue(p[0]);
    DigitCharOfValue(p[1]);
    DigitCharOfValue(p[2]);
    var x, y, z := DigitValue(p[0]), DigitValue(p[1]), DigitValue(p[2]);
    var n := DigitsValue(p);
    ThreeDigits(x, y, z);
    assert OctetText(n) == [DigitChar(x), DigitChar(y), DigitChar(z)];
  }

  lemma ThreeDigits(x: nat, y: nat, z: nat)
    requires x < 10 && y < 10 && z < 10
    ensures var n := x * 100 + y * 10 + z;
            n / 100 == x && n / 10 % 10 == y && n % 10 == z
  {
    var n := x * 100 + y * 10 + z;
    assert n / 10 == x * 10 + y;
  }

  lemma OctetCanonical(p: string)
    requires ParseOctet(p).Some?
    ensures OctetText(ParseOctet(p).value) == p
  {
    if |p| == 1 {
      DigitsValue1(p);
      DigitCharOfValue(p[0]);
    } else if |p| == 2 {
      OctetCanonical2(p);
    } else {
      OctetCanonical3(p);
    }
  }

  lemma {:induction false} SplitJoin(parts: seq<string>, sep: char)
    requires |parts| >= 1
    requires forall i :: 0 <= i < |parts| ==> sep !in parts[i]
    ensures Split(Join(parts, sep), sep) == parts
  {
    if |parts| == 1 {
      SplitNoSep(parts[0], sep);
    } else {
      SplitJoin(parts[1..], sep);
      SplitAtFirst(parts[0], sep, Join(parts[1..], sep));
    }
  }

  /** Parsing the text of an address gives the address back. */
  lemma ParseFormat(x: Addr)
    ensures Parse(Format(x)) == Some(x)
  {
    SplitJoin(Octets(x), '.');
    OctetRoundTrip(x.a);
    OctetRoundTrip(x.b);
    OctetRoundTrip(x.c);
    OctetRoundTrip(x.d);
  }

  /** Only the canonical text of an address parses: formatting what was parsed gives the text back. */
  lemma FormatParse(s: string)
    requires Parse(s).Some?
    ensures Format(Parse(s).value) == s
  {
    var parts := Split(s, '.');
    JoinSplit(s, '.');
    OctetCanonical(parts[0]);
    OctetCanonical(parts[1]);
    OctetCanonical(parts[2]);
    OctetCanonical(parts[3]);
    assert Octets(Parse(s).value) == parts;
  }
}
