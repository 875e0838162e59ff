/**
 * The C++-to-Rust field translator (scripts/translate.py): it rewrites the
 * `Json...(type, name, ...)` field declarations of a C++ header into Rust
 * struct fields, turning the C++ type into a Rust type and the camelCase
 * field name into snake_case.
 *
 * Strings follow Python's semantics where the script relies on them: slices
 * with negative bounds that clamp instead of failing, `str.strip()` with
 * Python's whitespace set, and the `IndexError`/`ValueError` exceptions the
 * script can raise, which become error values here.
 */
module Translate {
  import opened Wrappers
  import opened Text

  /** Why `translate_c_type` raised. */
  datatype TranslateError =
    | InvalidType(name: string)   // `Exception("invalid type " + name)`
    | IndexError                  // indexing the first character of an empty string

  /** Why the rewrite of one line raised. */
  datatype LineError =
    | MissingParenthesis            // `index("(")` or `rindex(")")`: substring not found
    | TooFewArguments               // fewer than two ", "-separated arguments to unpack
    | Untranslatable(error: TranslateError)

  predicate IsUpper(c: char) {
    'A' <= c <= 'Z'
  }

  predicate IsLower(c: char) {
    'a' <= c <= 'z'
  }

  predicate NoUpper(s: string) {
    forall i :: 0 <= i < |s| ==> !IsUpper(s[i])
  }

  function ToLower(c: char): (l: char)
    requires IsUpper(c)
    ensures IsLower(l)
  {
    (c as int + 32) as char
  }

  function ToUpper(c: char): (u: char)
    requires IsLower(c)
    ensures IsUpper(u)
  {
    (c as int - 32) as char
  }

  predicate StartsWith(s: string, prefix: string) {
    |prefix| <= |s| && s[..|prefix|] == prefix
  }

  predicate EndsWith(s: string, suffix: string) {
    |suffix| <= |s| && s[|s| - |suffix|..] == suffix
  }

  /** `s.find(c)`: the first index of `c`, or -1. */
  function Find(s: string, c: char): (k: int)
    ensures k == -1 <==> c !in s
    ensures k != -1 ==> 0 <= k < |s| && s[k] == c && c !in s[..k]
  {
    if s == [] then -1
    else if s[0] == c then 0
    else
      var k := Find(s[1..], c);
      if k == -1 then -1
      else
        assert s[..k + 1] == [s[0]] + s[1..][..k];
        k + 1
  }

  /** `s.rindex(c)` when it does not raise: the last index of `c`, or -1. */
  function FindLast(s: string, c: char): (k: int)
    ensures k == -1 <==> c !in s
    ensures k != -1 ==> 0 <= k < |s| && s[k] == c && c !in s[k + 1..]
  {
    if s == [] then -1
    else if s[|s| - 1] == c then |s| - 1
    else
      var k := FindLast(s[..|s| - 1], c);
      assert k != -1 ==> s[k + 1..] == s[..|s| - 1][k + 1..] + [s[|s| - 1]];
      assert s == s[..|s| - 1] + [s[|s| - 1]];
      k
  }

  /** A ", " starts at index `k` of `s`. */
  predicate CommaAt(s: string, k: int) {
    0 <= k && k + 1 < |s| && s[k] == ',' && s[k + 1] == ' '
  }

  /** `s` holds no ", ", so `split(", ")` leaves it whole. */
  predicate NoCommaSpace(s: string) {
    forall j :: 0 <= j < |s| ==> !CommaAt(s, j)
  }

  /** `s.find(", ")`: where the first ", " starts, or -1. */
  function FindComma(s: string): (k: int)
    ensures k == -1 <==> forall j :: 0 <= j < |s| ==> !CommaAt(s, j)
    ensures k != -1 ==> CommaAt(s, k) && forall j :: 0 <= j < k ==> !CommaAt(s, j)
  {
    if |s| < 2 then -1
    else if s[0] == ',' && s[1] == ' ' then assert CommaAt(s, 0); 0
    else
      var k := FindComma(s[1..]);
      assert !CommaAt(s, 0);
      assert forall j :: 1 <= j < |s| ==> (CommaAt(s, j) <==> CommaAt(s[1..], j - 1));
      if k == -1 then
        assert forall j :: 0 <= j < |s| ==> !CommaAt(s, j) by {
          forall j | 0 <= j < |s|
            ensures !CommaAt(s, j)
          {
            if j >= 1 {
              assert !CommaAt(s[1..], j - 1);
            }
          }
        }
        -1
      else
        assert CommaAt(s[1..], k) && CommaAt(s, k + 1);
        k + 1
  }

  /** A "::" starts at index `k` of `s`. */
  predicate ColonsAt(s: string, k: int) {
    0 <= k && k + 1 < |s| && s[k] == ':' && s[k + 1] == ':'
  }

  /** `s.rindex("::")` when "::" occurs in `s`: where the last "::" starts. */
  function LastColons(s: string): (k: Option<nat>)
    ensures k.None? <==> forall j :: 0 <= j < |s| ==> !ColonsAt(s, j)
    ensures k.Some? ==> ColonsAt(s, k.value) && forall j :: k.value < j < |s| ==> !ColonsAt(s, j)
  {
    if |s| < 2 then None
    else if s[|s| - 2] == ':' && s[|s| - 1] == ':' then assert ColonsAt(s, |s| - 2); Some(|s| - 2)
    else
      var init := s[..|s| - 1];
      var k := LastColons(init);
      assert !ColonsAt(s, |s| - 2) && !ColonsAt(s, |s| - 1);
      assert forall j :: 0 <= j < |s| - 2 ==> (ColonsAt(s, j) <==> ColonsAt(init, j)) by {
        forall j | 0 <= j < |s| - 2
          ensures ColonsAt(s, j) <==> ColonsAt(init, j)
        {
          assert init[j] == s[j] && init[j + 1] == s[j + 1];
        }
      }
      match k
      case None =>
        assert forall j :: 0 <= j < |s| ==> !ColonsAt(s, j) by {
          forall j | 0 <= j < |s|
            ensures !ColonsAt(s, j)
          {
            if j < |s| - 2 {
              assert !ColonsAt(init, j);
            }
          }
        }
        None
      case Some(i) =>
        assert ColonsAt(s, i);
        k
  }

  /** What follows the last "::" of a qualified name, or the whole name when it has none. */
  function LastSegment(s: string): (seg: string)
    ensures EndsWith(s, seg)
    ensures ':' !in s ==> seg == s
  {
    match LastColons(s)
    case Some(k) => s[k + 2..]
    case None => s
  }

  /**
   * Python's `s[start:-fromEnd]` for `fromEnd >= 1`: the characters from
   * `start` up to, not including, the `fromEnd`-th last; empty when these
   * bounds cross.
   */
  function SliceBeforeEnd(s: string, start: nat, fromEnd: nat): (r: string)
    requires fromEnd >= 1
    ensures |r| == if start + fromEnd < |s| then |s| - fromEnd - start else 0
    ensures forall m :: 0 <= m < |r| ==> r[m] == s[start + m]
  {
    if start + fromEnd < |s| then s[start..|s| - fromEnd] else []
  }

  /** Python's `s[start:]`: empty when `start` is past the end. */
  function SliceFrom(s: string, start: nat): (r: string)
    ensures |r| == if start < |s| then |s| - start else 0
    ensures forall m :: 0 <= m < |r| ==> r[m] == s[start + m]
  {
    if start < |s| then s[start..] else []
  }

  /** `"int" in s[:4]`: "int" starts at index 0 or 1 of the string. */
  predicate IntInFirstFour(s: string) {
    StartsWith(s, "int") || (|s| >= 4 && s[1..4] == "int")
  }

  /** The names that the translator maps to a fixed Rust type. */
  const TypeTable: map<string, string> :=
    map["vector" := "Vec", "deque" := "Vec", "Optional" := "Option", "QString" := "String",
        "bool" := "bool", "int" := "i32", "unsigned" := "u32"]

  /** A name made of letters, digits and '_' only, as C++ identifiers are. */
  predicate IsIdentifier(s: string) {
    forall i :: 0 <= i < |s| ==> IsUpper(s[i]) || IsLower(s[i]) || '0' <= s[i] <= '9' || s[i] == '_'
  }

  /**
   * The `match` of `translate_c_type`, applied to the last segment of a
   * non-generic name: the fixed table first, then the width names
   * `[u]int<w>_t` and `q[u]int<w>`, then names starting with an uppercase
   * letter, which pass through; anything else is an invalid type.
   */
  function TranslateSegment(other: string): (r: Result<string, TranslateError>)
    ensures r == Err(IndexError) <==> other == "" || other == "q"
    ensures r.Err? && r.error != IndexError ==> r.error == InvalidType(other)
    ensures r.Ok? ==> |r.value| > 0
    ensures other in TypeTable ==> r == Ok(TypeTable[other])
  {
    if other in TypeTable then Ok(TypeTable[other])
    else if EndsWith(other, "_t") && IntInFirstFour(other) then
      var unsigned := other[0] == 'u';
      var rest := if unsigned then other[1..] else other;
      Ok([if unsigned then 'u' else 'i'] + SliceBeforeEnd(rest, 3, 2))
    else if StartsWith(other, "q") then
      var rest := other[1..];
      if rest == [] then Err(IndexError)
      else
        var unsigned := rest[0] == 'u';
        var width := if unsigned then rest[1..] else rest;
        Ok([if unsigned then 'u' else 'i'] + SliceFrom(width, 3))
    else if other == [] then Err(IndexError)
    else if IsUpper(other[0]) then Ok(other)
    else Err(InvalidType(other))
  }

  /** A non-generic C++ type: drop one leading "const ", then any namespace prefix. */
  function TranslateName(t: string): (r: Result<string, TranslateError>)
    ensures r.Ok? ==> |r.value| > 0
  {
    var unqualified := if StartsWith(t, "const ") then t[6..] else t;
    TranslateSegment(LastSegment(unqualified))
  }

  /**
   * `translate_c_type`: at the first '<', the text from after it up to the
   * last character (not included) is translated first, as a type of its own;
   * then the name before the '<', and the two are put together as a Rust
   * generic.
   */
  function TranslateCType(t: string): (r: Result<string, TranslateError>)
    ensures r.Ok? ==> |r.value| > 0
    decreases |t|
  {
    var g := Find(t, '<');
    if g == -1 then TranslateName(t)
    else
      match TranslateCType(SliceBeforeEnd(t, g + 1, 1))
      case Err(e) => Err(e)
      case Ok(inner) =>
        (match TranslateName(t[..g])
         case Err(e) => Err(e)
         case Ok(outer) => Ok(if inner != [] then outer + "<" + inner + ">" else outer))
  }

  /** The snake_case spelling of one character. */
  function SnakeChar(c: char): string {
    if IsUpper(c) then ['_', ToLower(c)] else [c]
  }

  function CountUpper(s: string): nat {
    if s == [] then 0 else (if IsUpper(s[0]) then 1 else 0) + CountUpper(s[1..])
  }

  /** `to_snake_case`: every ASCII uppercase letter becomes '_' and its lowercase. */
  function ToSnakeCase(s: string): (r: string)
    ensures NoUpper(r)
    ensures |r| == |s| + CountUpper(s)
  {
    if s == [] then [] else SnakeChar(s[0]) + ToSnakeCase(s[1..])
  }

  /** The inverse direction: '_' followed by a lowercase letter becomes that letter in uppercase. */
  function FromSnakeCase(s: string): string {
    if s == [] then []
    else if |s| >= 2 && s[0] == '_' && IsLower(s[1]) then [ToUpper(s[1])] + FromSnakeCase(s[2..])
    else [s[0]] + FromSnakeCase(s[1..])
  }

  /** The ranges of code points for which Python's `str.isspace()` holds, lowest first. */
  const SpaceRanges: seq<(int, int)> :=
    [(0x09, 0x0D), (0x1C, 0x20), (0x85, 0x85), (0xA0, 0xA0), (0x1680, 0x1680), (0x2000, 0x200A),
     (0x2028, 0x2029), (0x202F, 0x202F), (0x205F, 0x205F), (0x3000, 0x3000)]

  predicate InRanges(n: int, ranges: seq<(int, int)>) {
    ranges != [] && ((ranges[0].0 <= n <= ranges[0].1) || InRanges(n, ranges[1..]))
  }

  /** Characters for which Python's `str.isspace()` holds. */
  predicate IsSpace(c: char) {
    InRanges(c as int, SpaceRanges)
  }

  lemma {:induction false} BelowRanges(n: int, ranges: seq<(int, int)>)
    requires forall i :: 0 <= i < |ranges| ==> n < ranges[i].0
    ensures !InRanges(n, ranges)
  {
    if ranges != [] {
      BelowRanges(n, ranges[1..]);
    }
  }

  /** Letters, digits and the ASCII punctuation after the space are not whitespace. */
  lemma PrintableNotSpace(c: char)
    requires '!' <= c <= '~'
    ensures !IsSpace(c)
  {
    var n := c as int;
    var r := SpaceRanges[2..];
    assert forall i :: 0 <= i < |r| ==> n < r[i].0;
    BelowRanges(n, r);
    assert SpaceRanges[1..][1..] == r;
    assert !InRanges(n, SpaceRanges[1..]);
  }

  predicate AllSpace(s: string) {
    forall i :: 0 <= i < |s| ==> IsSpace(s[i])
  }

  function TrimStart(s: string): (r: string)
    ensures |r| <= |s| && r == s[|s| - |r|..]
    ensures r == [] || !IsSpace(r[0])
  {
    if s != [] && IsSpace(s[0]) then
      var r := TrimStart(s[1..]);
      assert s[1..][|s| - 1 - |r|..] == s[|s| - |r|..];
      r
    else s
  }

  function TrimEnd(s: string): (r: string)
    ensures |r| <= |s| && r == s[..|r|]
    ensures r == [] || !IsSpace(r[|r| - 1])
  {
    if s != [] && IsSpace(s[|s| - 1]) then
      var r := TrimEnd(s[..|s| - 1]);
      assert s[..|s| - 1][..|r|] == s[..|r|];
      r
    else s
  }

  /** `str.strip()`: whitespace removed from both ends. */
  function Strip(s: string): (r: string)
    ensures r == [] || (!IsSpace(r[0]) && !IsSpace(r[|r| - 1]))
    ensures |r| <= |s|
  {
    TrimEnd(TrimStart(s))
  }

  /** The second of the ", "-separated parts of `args` (that is, the first part of `rest`). */
  function FirstPart(rest: string): (part: string)
    ensures StartsWith(rest, part)
    ensures forall j :: 0 <= j < |part| ==> !CommaAt(part, j)
  {
    var k := FindComma(rest);
    if k == -1 then rest
    else
      assert forall j :: 0 <= j < k ==> (CommaAt(rest[..k], j) ==> CommaAt(rest, j));
      rest[..k]
  }

  /**
   * A `Json...` line: the text between the first '(' and the last ')' holds
   * the arguments of the declaration.
   */
  function FieldLine(l: string): (r: Result<Option<string>, LineError>)
    ensures r.Ok? ==> r.value.Some? && EndsWith(r.value.value, ",")
  {
    var open := Find(l, '(');
    var close := FindLast(l, ')');
    if open == -1 || close == -1 then Err(MissingParenthesis)
    else FieldArguments(if open + 1 <= close then l[open + 1..close] else [])
  }

  /**
   * The arguments split at ", ": the first part is the C++ type, the second
   * the field name, and the rest is ignored.
   */
  function FieldArguments(args: string): (r: Result<Option<string>, LineError>)
    ensures r.Ok? ==> r.value.Some? && EndsWith(r.value.value, ",")
  {
    var k := FindComma(args);
    if k == -1 then Err(TooFewArguments)
    else
      var name := FirstPart(args[k + 2..]);
      match TranslateCType(args[..k])
      case Err(e) => Err(Untranslatable(e))
      case Ok(rust) => Ok(Some(ToSnakeCase(name) + ": " + rust + ","))
  }

  /**
   * The rewrite of one input line, after stripping it: a comment gains a
   * '/', an empty line stays empty, a `Json...` declaration becomes a Rust
   * field; `Ok(None)` is a line that produces no output.
   */
  function TransformLine(line: string): (r: Result<Option<string>, LineError>)
    ensures r == Ok(None) <==>
              var l := Strip(line);
              l != [] && !StartsWith(l, "//") && !StartsWith(l, "Json")
  {
    var l := Strip(line);
    if StartsWith(l, "//") then Ok(Some("/" + l))
    else if l == [] then Ok(Some(""))
    else if StartsWith(l, "Json") then FieldLine(l)
    else Ok(None)
  }

  /** A comment line is kept, stripped, as a Rust doc comment: one more '/' in front. */
  lemma CommentLine(line: string)
    requires StartsWith(Strip(line), "//")
    ensures TransformLine(line) == Ok(Some("/" + Strip(line)))
    ensures StartsWith("/" + Strip(line), "///")
  {
    SlashPrefix(Strip(line));
  }

  lemma SlashPrefix(l: string)
    requires StartsWith(l, "//")
    ensures StartsWith("/" + l, "///")
  {
    assert ("/" + l)[..3] == "/" + l[..2];
  }

  // ---------------------------------------------------------------------------
  // to_snake_case

  /** A string with no uppercase letter is already in snake_case. */
  lemma {:induction false} ToSnakeCaseIdentity(s: string)
    requires NoUpper(s)
    ensures ToSnakeCase(s) == s
  {
    if s != [] {
      ToSnakeCaseIdentity(s[1..]);
      assert [s[0]] + s[1..] == s;
    }
  }

  /** Converting twice is converting once. */
  lemma ToSnakeCaseIdempotent(s: string)
    ensures ToSnakeCase(ToSnakeCase(s)) == ToSnakeCase(s)
  {
    ToSnakeCaseIdentity(ToSnakeCase(s));
  }

  /** A camelCase name without '_' is recovered from its snake_case spelling. */
  lemma {:induction false} FromSnakeCaseToSnakeCase(s: string)
    requires '_' !in s
    ensures FromSnakeCase(ToSnakeCase(s)) == s
  {
    if s != [] {
      var rest := ToSnakeCase(s[1..]);
      FromSnakeCaseToSnakeCase(s[1..]);
      var t := SnakeChar(s[0]) + rest;
      if IsUpper(s[0]) {
        assert t[2..] == rest;
      } else {
        assert t[1..] == rest;
      }
      assert [s[0]] + s[1..] == s;
    }
  }

  // ---------------------------------------------------------------------------
  // translate_c_type

  /** The last "::" of `<prefix>::<name>` is the one before `name` when `name` has no ':'. */
  lemma LastSegmentOfQualified(prefix: string, name: string)
    requires ':' !in name
    ensures LastSegment(prefix + "::" + name) == name
  {
    var s := prefix + "::" + name;
    var p := |prefix|;
    assert ColonsAt(s, p);
    forall j | p < j < |s|
      ensures !ColonsAt(s, j)
    {
      if j + 1 < |s| {
        assert s[j + 1] == name[j + 1 - p - 2];
      }
    }
    assert s[p + 2..] == name;
  }

  /**
   * A leading "const " and any namespace prefix make no difference to the
   * translation of a plain name: what counts is the last segment.
   */
  lemma QualifiersIgnored(namespace: string, name: string)
    requires '<' !in namespace && ' ' !in namespace && IsIdentifier(name)
    ensures TranslateCType(name) == TranslateSegment(name)
    ensures TranslateCType("const " + name) == TranslateSegment(name)
    ensures TranslateCType(namespace + "::" + name) == TranslateSegment(name)
    ensures TranslateCType("const " + (namespace + "::" + name)) == TranslateSegment(name)
  {
    IdentifierHasNoPunctuation(name);
    Unqualified(name);
    NotConstPrefixed(name);
    ConstIgnored(name);
    Qualified(namespace, name);
    ConstQualified(namespace, name);
  }

  /** A name with no '<', ':' or ' ' is translated by its last segment, which is itself. */
  lemma Unqualified(t: string)
    requires '<' !in t && ':' !in t && ' ' !in t
    ensures TranslateCType(t) == TranslateSegment(t)
  {
    PlainName(t);
    NotConstPrefixed(t);
  }

  lemma Qualified(namespace: string, name: string)
    requires '<' !in namespace && ' ' !in namespace && IsIdentifier(name)
    ensures TranslateCType(namespace + "::" + name) == TranslateSegment(name)
  {
    IdentifierHasNoPunctuation(name);
    var q := namespace + "::" + name;
    LastSegmentOfQualified(namespace, name);
    NotConstPrefixed(q);
    PlainName(q);
  }

  lemma ConstQualified(namespace: string, name: string)
    requires '<' !in namespace && ' ' !in namespace && IsIdentifier(name)
    ensures TranslateCType("const " + (namespace + "::" + name)) == TranslateSegment(name)
  {
    IdentifierHasNoPunctuation(name);
    var q := namespace + "::" + name;
    LastSegmentOfQualified(namespace, name);
    NotConstPrefixed(q);
    ConstIgnored(q);
  }

  /** A leading "const " is dropped once, before anything else is looked at. */
  lemma ConstIgnored(t: string)
    requires '<' !in t && !StartsWith(t, "const ")
    ensures TranslateCType("const " + t) == TranslateName(t)
  {
    var c := "const " + t;
    assert c[..6] == "const " && c[6..] == t;
    PlainName(c);
  }

  lemma NotConstPrefixed(s: string)
    requires ' ' !in s
    ensures !StartsWith(s, "const ")
  {
    if |s| >= 6 {
      assert s[5] in s;
      assert s[..6][5] == s[5];
    }
  }

  lemma IdentifierHasNoPunctuation(name: string)
    requires IsIdentifier(name)
    ensures ':' !in name && '<' !in name && ' ' !in name
  {
  }

  /** A type with no '<' is translated by its name alone. */
  lemma PlainName(t: string)
    requires '<' !in t
    ensures TranslateCType(t) == TranslateName(t)
  {
  }

  /** The fixed table, looked up by the last segment of a plain, qualified or const name. */
  lemma FixedTypes(namespace: string, name: string)
    requires '<' !in namespace && ' ' !in namespace && name in TypeTable
    ensures TranslateCType(name) == Ok(TypeTable[name])
    ensures TranslateCType(namespace + "::" + name) == Ok(TypeTable[name])
    ensures TranslateCType("const " + name) == Ok(TypeTable[name])
  {
    assert IsIdentifier(name) by {
      assert TypeTable.Keys == {"vector", "deque", "Optional", "QString", "bool", "int", "unsigned"};
    }
    Qualified(namespace, name);
    IdentifierHasNoPunctuation(name);
    Unqualified(name);
    NotConstPrefixed(name);
    ConstIgnored(name);
  }

  lemma NotInTableByEnding(s: string)
    requires EndsWith(s, "_t")
    ensures s !in TypeTable
  {
    assert s[|s| - 2] == '_';
    assert TypeTable.Keys == {"vector", "deque", "Optional", "QString", "bool", "int", "unsigned"};
  }

  lemma NotInTableByQ(s: string)
    requires StartsWith(s, "q")
    ensures s !in TypeTable
  {
    assert s[0] == 'q';
    assert TypeTable.Keys == {"vector", "deque", "Optional", "QString", "bool", "int", "unsigned"};
  }

  lemma SignedWidth(w: string)
    requires AllDigits(w)
    ensures TranslateSegment("int" + w + "_t") == Ok("i" + w)
  {
    var s := "int" + w + "_t";
    assert EndsWith(s, "_t") && s[..3] == "int";
    NotInTableByEnding(s);
    var r := SliceBeforeEnd(s, 3, 2);
    assert |r| == |w|;
    assert forall m :: 0 <= m < |w| ==> r[m] == w[m];
    assert r == w;
  }

  lemma UnsignedWidth(w: string)
    requires AllDigits(w)
    ensures TranslateSegment("uint" + w + "_t") == Ok("u" + w)
  {
    var u := "uint" + w + "_t";
    var s := u[1..];
    assert s == "int" + w + "_t";
    assert EndsWith(u, "_t") && u[1..4] == "int";
    NotInTableByEnding(u);
    var r := SliceBeforeEnd(s, 3, 2);
    assert |r| == |w|;
    assert forall m :: 0 <= m < |w| ==> r[m] == w[m];
    assert r == w;
  }

  lemma NoWidthSuffix(s: string, w: string)
    requires |s| >= 2 && s[|s| - 2] != '_' && AllDigits(w)
    ensures !EndsWith(s + w, "_t")
  {
    var t := s + w;
    if |w| >= 1 {
      assert t[|t| - 1] == w[|w| - 1];
    } else {
      assert t == s;
    }
  }

  lemma QtSignedWidth(w: string)
    requires AllDigits(w)
    ensures TranslateSegment("qint" + w) == Ok("i" + w)
  {
    var q := "qint" + w;
    assert q[..1] == "q";
    NotInTableByQ(q);
    NoWidthSuffix("qint", w);
    var rest := q[1..];
    assert rest == "int" + w;
    var r := SliceFrom(rest, 3);
    assert |r| == |w|;
    assert forall m :: 0 <= m < |w| ==> r[m] == w[m];
    assert r == w;
  }

  lemma QtUnsignedWidth(w: string)
    requires AllDigits(w)
    ensures TranslateSegment("quint" + w) == Ok("u" + w)
  {
    var q := "quint" + w;
    assert q[..1] == "q";
    NotInTableByQ(q);
    NoWidthSuffix("quint", w);
    var rest := q[1..];
    assert rest == "uint" + w;
    var width := rest[1..];
    assert width == "int" + w;
    var r := SliceFrom(width, 3);
    assert |r| == |w|;
    assert forall m :: 0 <= m < |w| ==> r[m] == w[m];
    assert r == w;
  }

  /**
   * The fixed-width integer names: `int<w>_t` and `qint<w>` become `i<w>`,
   * `uint<w>_t` and `quint<w>` become `u<w>`.
   */
  lemma WidthNames(w: string)
    requires AllDigits(w)
    ensures TranslateCType("int" + w + "_t") == Ok("i" + w)
    ensures TranslateCType("uint" + w + "_t") == Ok("u" + w)
    ensures TranslateCType("qint" + w) == Ok("i" + w)
    ensures TranslateCType("quint" + w) == Ok("u" + w)
  {
    assert ':' !in w && '<' !in w && ' ' !in w;
    Unqualified("int" + w + "_t");
    SignedWidth(w);
    Unqualified("uint" + w + "_t");
    UnsignedWidth(w);
    Unqualified("qint" + w);
    QtSignedWidth(w);
    Unqualified("quint" + w);
    QtUnsignedWidth(w);
  }

  /**
   * Any other name starting with an uppercase letter passes through
   * unchanged, unless it also looks like a width name (ends in "_t" with
   * "int" among its first four characters).
   */
  lemma UppercasePassesThrough(namespace: string, name: string)
    requires '<' !in namespace && ' ' !in namespace && IsIdentifier(name)
    requires name != [] && IsUpper(name[0]) && name !in TypeTable
    requires !(EndsWith(name, "_t") && IntInFirstFour(name))
    ensures TranslateCType(name) == Ok(name)
    ensures TranslateCType(namespace + "::" + name) == Ok(name)
  {
    UpperSegment(name);
    IdentifierHasNoPunctuation(name);
    Unqualified(name);
    Qualified(namespace, name);
  }

  lemma UpperSegment(name: string)
    requires name != [] && IsUpper(name[0]) && name !in TypeTable
    requires !(EndsWith(name, "_t") && IntInFirstFour(name))
    ensures TranslateSegment(name) == Ok(name)
  {
    assert name[..1] == [name[0]] && name[0] != 'q';
  }

  /**
   * A lowercase name outside the table that is neither a width name nor
   * starts with 'q' is an invalid type; the error names the last segment.
   */
  lemma InvalidTypeRaised(namespace: string, name: string)
    requires '<' !in namespace && ' ' !in namespace && IsIdentifier(name)
    requires name != [] && !IsUpper(name[0]) && name[0] != 'q' && name !in TypeTable
    requires !(EndsWith(name, "_t") && IntInFirstFour(name))
    ensures TranslateCType(name) == Err(InvalidType(name))
    ensures TranslateCType(namespace + "::" + name) == Err(InvalidType(name))
  {
    LowerSegment(name);
    IdentifierHasNoPunctuation(name);
    Unqualified(name);
    Qualified(namespace, name);
  }

  lemma LowerSegment(name: string)
    requires name != [] && !IsUpper(name[0]) && name[0] != 'q' && name !in TypeTable
    requires !(EndsWith(name, "_t") && IntInFirstFour(name))
    ensures TranslateSegment(name) == Err(InvalidType(name))
  {
    assert name[..1] == [name[0]];
  }

  /**
   * A generic `T<U>` is the translation of `T` applied to the translation of
   * `U`; when either raises, `U`'s error comes first.
   */
  lemma Generic(outer: string, inner: string)
    requires '<' !in outer
    ensures TranslateCType(outer + "<" + inner + ">") ==
              match TranslateCType(inner)
              case Err(e) => Err(e)
              case Ok(u) =>
                (match TranslateCType(outer)
                 case Err(e) => Err(e)
                 case Ok(t) => Ok(t + "<" + u + ">"))
  {
    var s := outer + "<" + inner + ">";
    assert s[|outer|] == '<' && s[..|outer|] == outer;
    assert Find(s, '<') == |outer| by {
      assert s[..|outer|] == outer;
    }
    assert SliceBeforeEnd(s, |outer| + 1, 1) == inner;
  }

  // ---------------------------------------------------------------------------
  // The per-line rewrite

  lemma {:induction false} TrimStartPadded(w: string, s: string)
    requires AllSpace(w)
    ensures TrimStart(w + s) == TrimStart(s)
  {
    if w != [] {
      assert (w + s)[1..] == w[1..] + s;
      TrimStartPadded(w[1..], s);
    } else {
      assert w + s == s;
    }
  }

  lemma {:induction false} TrimEndPadded(s: string, w: string)
    requires AllSpace(w)
    ensures TrimEnd(s + w) == TrimEnd(s)
  {
    if w != [] {
      var last := w[..|w| - 1];
      assert (s + w)[..|s + w| - 1] == s + last;
      TrimEndPadded(s, last);
    } else {
      assert s + w == s;
    }
  }

  /** Trailing whitespace survives `TrimStart` unless everything is whitespace. */
  lemma {:induction false} TrimStartKeepsTail(s: string, w: string)
    requires TrimStart(s) != []
    ensures TrimStart(s + w) == TrimStart(s) + w
  {
    var sw := s + w;
    assert sw[0] == s[0];
    TrimStartStep(s);
    TrimStartStep(sw);
    if IsSpace(s[0]) {
      assert sw[1..] == s[1..] + w;
      TrimStartKeepsTail(s[1..], w);
    }
  }

  /** One step of the leading-whitespace trim. */
  lemma TrimStartStep(s: string)
    requires s != []
    ensures TrimStart(s) == if IsSpace(s[0]) then TrimStart(s[1..]) else s
  {
  }

  lemma {:induction false} TrimStartAllSpace(w: string)
    requires AllSpace(w)
    ensures TrimStart(w) == []
  {
    if w != [] {
      TrimStartAllSpace(w[1..]);
    }
  }

  /** Only whitespace trims away to nothing. */
  lemma {:induction false} TrimStartEmpty(s: string)
    requires TrimStart(s) == []
    ensures AllSpace(s)
  {
    if s != [] {
      TrimStartEmpty(s[1..]);
      forall i | 1 <= i < |s|
        ensures IsSpace(s[i])
      {
        assert s[i] == s[1..][i - 1];
      }
    }
  }

  /** Surrounding whitespace does not change the stripped line. */
  lemma StripPadded(w1: string, s: string, w2: string)
    requires AllSpace(w1) && AllSpace(w2)
    ensures Strip(w1 + s + w2) == Strip(s)
  {
    assert w1 + s + w2 == w1 + (s + w2);
    TrimStartPadded(w1, s + w2);
    if TrimStart(s) == [] {
      TrimStartEmpty(s);
      TrimStartPadded(s, w2);
      TrimStartAllSpace(w2);
    } else {
      TrimStartKeepsTail(s, w2);
      TrimEndPadded(TrimStart(s), w2);
    }
  }

  /** Whitespace around a line makes no difference to its rewrite. */
  lemma TransformIgnoresSurroundingSpace(w1: string, line: string, w2: string)
    requires AllSpace(w1) && AllSpace(w2)
    ensures TransformLine(w1 + line + w2) == TransformLine(line)
  {
    StripPadded(w1, line, w2);
  }

  /** A line of nothing but whitespace comes out as an empty line. */
  lemma BlankLine(line: string)
    requires AllSpace(line)
    ensures TransformLine(line) == Ok(Some(""))
  {
    StripPadded(line, "", "");
    assert line + "" + "" == line;
  }

  /** A string with no whitespace at either end is its own stripped form. */
  lemma StripClean(s: string)
    requires s == [] || (!IsSpace(s[0]) && !IsSpace(s[|s| - 1]))
    ensures Strip(s) == s
  {
  }

  /**
   * In `Json<kind>(<args>)`, the arguments are what lies between the first
   * '(' and the last ')'; they may hold parentheses of their own.
   */
  lemma DeclarationArguments(kind: string, args: string)
    requires '(' !in kind
    ensures TransformLine("Json" + kind + "(" + args + ")") == FieldArguments(args)
  {
    var l := "Json" + kind + "(" + args + ")";
    DeclarationShape(kind, args);
    PrintableNotSpace(l[0]);
    PrintableNotSpace(l[|l| - 1]);
    StripClean(l);
  }

  lemma DeclarationShape(kind: string, args: string)
    requires '(' !in kind
    ensures var l := "Json" + kind + "(" + args + ")";
            l[0] == 'J' && l[|l| - 1] == ')' && StartsWith(l, "Json") && !StartsWith(l, "//") &&
            FieldLine(l) == FieldArguments(args)
  {
    var head := "Json" + kind;
    var l := head + "(" + args + ")";
    assert l[..4] == "Json";
    assert l[..2][1] == 's' && "//"[1] == '/';
    ParenthesisedArguments(head, args);
  }

  /** The arguments run from the first '(' to the last ')'. */
  lemma ParenthesisedArguments(head: string, args: string)
    requires '(' !in head
    ensures FieldLine(head + "(" + args + ")") == FieldArguments(args)
  {
    var l := head + "(" + args + ")";
    FindAt(head, '(', args + ")");
    assert l == head + ['('] + (args + ")");
    FindLastAt(l[..|l| - 1], ')');
    assert l == l[..|l| - 1] + [')'];
    assert l[|head| + 1..|l| - 1] == args;
  }

  /** `find` stops at the first occurrence. */
  lemma FindAt(pre: string, c: char, post: string)
    requires c !in pre
    ensures Find(pre + [c] + post, c) == |pre|
  {
    var s := pre + [c] + post;
    assert s[|pre|] == c;
  }

  /** `rindex` stops at the last occurrence. */
  lemma FindLastAt(pre: string, c: char)
    ensures FindLast(pre + [c], c) == |pre|
  {
  }

  /** The first ", " in `<ty>, <name><more>` is the one after the type. */
  lemma ArgumentsSplit(ty: string, name: string, more: string)
    requires NoCommaSpace(ty) && NoCommaSpace(name)
    requires more == [] || StartsWith(more, ", ")
    ensures FieldArguments(ty + ", " + name + more) ==
              match TranslateCType(ty)
              case Err(e) => Err(Untranslatable(e))
              case Ok(rust) => Ok(Some(ToSnakeCase(name) + ": " + rust + ","))
  {
    var rest := name + more;
    var args := ty + ", " + rest;
    assert args == ty + ", " + name + more;
    FindCommaAt(ty, rest);
    assert args[..|ty|] == ty;
    assert args[|ty| + 2..] == rest;
    FirstPartOf(name, more);
  }

  lemma FindCommaAt(pre: string, post: string)
    requires NoCommaSpace(pre)
    ensures FindComma(pre + ", " + post) == |pre|
  {
    var args := pre + ", " + post;
    assert CommaAt(args, |pre|);
    forall j | 0 <= j < |pre|
      ensures !CommaAt(args, j)
    {
      assert args[j] == pre[j];
      if j + 1 < |pre| {
        assert !CommaAt(pre, j) && args[j + 1] == pre[j + 1];
      } else {
        assert args[j + 1] == ',';
      }
    }
  }

  lemma FirstPartOf(name: string, more: string)
    requires NoCommaSpace(name)
    requires more == [] || StartsWith(more, ", ")
    ensures FirstPart(name + more) == name
  {
    var rest := name + more;
    if more == [] {
      assert rest == name;
    } else {
      assert rest[|name|] == more[0] && rest[|name| + 1] == more[1];
      assert CommaAt(rest, |name|);
      forall j | 0 <= j < |name|
        ensures !CommaAt(rest, j)
      {
        assert rest[j] == name[j];
        if j + 1 < |name| {
          assert !CommaAt(name, j) && rest[j + 1] == name[j + 1];
        }
      }
      assert rest[..|name|] == name;
    }
  }

  /**
   * A declaration `Json<kind>(<type>, <name><more>)` becomes
   * `<snake_case name>: <Rust type>,`, where the extra arguments `<more>`,
   * if any, are ignored.
   */
  lemma FieldDeclaration(kind: string, ty: string, name: string, more: string)
    requires '(' !in kind && NoCommaSpace(ty) && NoCommaSpace(name)
    requires more == [] || StartsWith(more, ", ")
    ensures TransformLine("Json" + kind + "(" + (ty + ", " + name + more) + ")") ==
              match TranslateCType(ty)
              case Err(e) => Err(Untranslatable(e))
              case Ok(rust) => Ok(Some(ToSnakeCase(name) + ": " + rust + ","))
  {
    DeclarationArguments(kind, ty + ", " + name + more);
    ArgumentsSplit(ty, name, more);
  }

  /**
   * A `QString` field declared with a default value, which may itself hold
   * parentheses (`QStringLiteral("...")`): the default is ignored.
   */
  lemma FieldWithDefault(kind: string, name: string, default: string)
    requires '(' !in kind && NoCommaSpace(name)
    ensures TransformLine("Json" + kind + "(" + ("QString" + ", " + name + (", " + default)) + ")")
         == Ok(Some(ToSnakeCase(name) + ": " + "String" + ","))
  {
    var ty, more := "QString", ", " + default;
    assert NoCommaSpace(ty) by {
      assert ',' !in ty;
    }
    assert more[..2] == ", ";
    FixedTypes("std", ty);
    var rust := TranslateCType(ty);
    assert rust == Ok("String");
    FieldDeclaration(kind, ty, name, more);
  }

  /** A `Json` line without a '(' or without a ')' raises before anything is split. */
  lemma ParenthesisMissing(line: string)
    requires StartsWith(Strip(line), "Json")
    requires '(' !in Strip(line) || ')' !in Strip(line)
    ensures TransformLine(line) == Err(MissingParenthesis)
  {
    JsonLineIsField(line);
  }

  /** A line that starts with `Json` once stripped is read as a field declaration. */
  lemma JsonLineIsField(line: string)
    requires StartsWith(Strip(line), "Json")
    ensures TransformLine(line) == FieldLine(Strip(line))
  {
    NotComment(Strip(line));
  }

  /** A `Json` line is neither empty nor a comment. */
  lemma NotComment(l: string)
    requires StartsWith(l, "Json")
    ensures !StartsWith(l, "//") && l != []
  {
    assert l[..4] == "Json";
    assert l[..2][1] == 's' && "//"[1] == '/';
  }

  /** A declaration whose arguments hold no ", " has no name to unpack. */
  lemma ArgumentsMissing(kind: string, args: string)
    requires '(' !in kind && NoCommaSpace(args)
    ensures TransformLine("Json" + kind + "(" + args + ")") == Err(TooFewArguments)
  {
    DeclarationArguments(kind, args);
  }
}
