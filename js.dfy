/** The small part of the JavaScript runtime that the application's logic relies on:
    truthiness, `String(v)`, `parseInt` and `parseFloat` without a radix,
    `trim`, ASCII case mapping, `split(" ")`, `join`, `includes`, and
    `Number#toString` on integers. A string is a sequence of Dafny `char`s, that is of
    Unicode scalar values; JavaScript counts and indexes UTF-16 code units instead, and
    the two agree on text inside the Basic Multilingual Plane. */
module Js {
  import opened Wrappers

  /** A JavaScript value as an `any`-typed parameter receives it. Numbers that reach
      the modelled code are integers (results of `parseInt`, literals) or NaN;
      `Obj` stands for a plain object, whose string form is "[object Object]". */
  datatype JsValue = Undefined | Null | Bool(b: bool) | Num(n: int) | NaN | Str(s: string) | Obj

  /** ToBoolean: the values an `if` or `&&` treats as true. */
  predicate Truthy(v: JsValue) {
    match v
    case Undefined => false
    case Null => false
    case NaN => false
    case Bool(b) => b
    case Num(n) => n != 0
    case Str(s) => s != ""
    case Obj => true
  }

  /** The result of `parseInt` as a number value: the integer, or NaN. */
  function FromParsed(p: Option<int>): (v: JsValue)
    ensures v.Num? || v.NaN?
    ensures v.NaN? <==> p.None?
  {
    match p
    case Some(n) => Num(n)
    case None => NaN
  }

  // ---------------------------------------------------------------------------
  // Characters

  /** WhiteSpace and LineTerminator characters (what `trim` and `parseInt` skip). */
  predicate IsWhiteSpace(c: char) {
    c == '\t' || c == '\n' || c == '\U{B}' || c == '\U{C}' || c == '\r' || c == ' '
    || c == '\U{A0}' || c == '\U{1680}' || ('\U{2000}' <= c <= '\U{200A}')
    || c == '\U{2028}' || c == '\U{2029}' || c == '\U{202F}' || c == '\U{205F}'
    || c == '\U{3000}' || c == '\U{FEFF}'
  }

  predicate IsDigit(c: char) {
    '0' <= c <= '9'
  }

  /** The value of `c` as a digit of radix up to 36; 36 when `c` is no digit at all. */
  function DigitValue(c: char): (d: nat)
    ensures d <= 36
    ensures d < 10 <==> IsDigit(c)
  {
    if '0' <= c <= '9' then c as int - '0' as int
    else if 'a' <= c <= 'z' then c as int - 'a' as int + 10
    else if 'A' <= c <= 'Z' then c as int - 'A' as int + 10
    else 36
  }

  function DigitChar(d: nat): (c: char)
    requires d < 10
    ensures IsDigit(c) && DigitValue(c) == d
  {
    ('0' as int + d) as char
  }

  function LowerChar(c: char): (r: char)
    ensures 'A' <= c <= 'Z' ==> 'a' <= r <= 'z'
    ensures !('A' <= c <= 'Z') ==> r == c
  {
    if 'A' <= c <= 'Z' then (c as int + 32) as char else c
  }

  function UpperChar(c: char): (r: char)
    ensures 'a' <= c <= 'z' ==> 'A' <= r <= 'Z'
    ensures !('a' <= c <= 'z') ==> r == c
  {
    if 'a' <= c <= 'z' then (c as int - 32) as char else c
  }

  /** `toLowerCase` restricted to the ASCII letters (SQLite's `LOWER` does exactly this). */
  function ToLower(s: string): (r: string)
    ensures |r| == |s|
    ensures forall i :: 0 <= i < |s| ==> r[i] == LowerChar(s[i])
  {
    if s == [] then [] else [LowerChar(s[0])] + ToLower(s[1..])
  }

  /** `toUpperCase` restricted to the ASCII letters. */
  function ToUpper(s: string): (r: string)
    ensures |r| == |s|
    ensures forall i :: 0 <= i < |s| ==> r[i] == UpperChar(s[i])
  {
    if s == [] then [] else [UpperChar(s[0])] + ToUpper(s[1..])
  }

  // ---------------------------------------------------------------------------
  // trim

  /** The number of white-space characters at the start of `s`. */
  function LeadingSpaces(s: string): (k: nat)
    ensures k <= |s|
    ensures forall i :: 0 <= i < k ==> IsWhiteSpace(s[i])
    ensures k < |s| ==> !IsWhiteSpace(s[k])
  {
    if s == [] || !IsWhiteSpace(s[0]) then 0 else 1 + LeadingSpaces(s[1..])
  }

  /** The number of white-space characters at the end of `s`. */
  function TrailingSpaces(s: string): (k: nat)
    ensures k <= |s|
    ensures forall i :: |s| - k <= i < |s| ==> IsWhiteSpace(s[i])
    ensures k < |s| ==> !IsWhiteSpace(s[|s| - k - 1])
  {
    if s == [] || !IsWhiteSpace(s[|s| - 1]) then 0 else 1 + TrailingSpaces(s[..|s| - 1])
  }

  function TrimStart(s: string): (r: string)
    ensures |r| <= |s|
  {
    s[LeadingSpaces(s)..]
  }

  /** Text that does not start with white space is left as it is by `TrimStart`. */
  lemma TrimStartKeeps(s: string)
    requires s == [] || !IsWhiteSpace(s[0])
    ensures TrimStart(s) == s
  {
    assert LeadingSpaces(s) == 0;
  }

  function TrimEnd(s: string): (r: string)
    ensures |r| <= |s|
  {
    s[..|s| - TrailingSpaces(s)]
  }

  /** `String.prototype.trim`: the slice of `s` left after dropping white space at both ends. */
  function Trim(s: string): (r: string)
    ensures |r| <= |s|
  {
    TrimEnd(TrimStart(s))
  }

  /** What `trim` keeps is the slice of `s` after its leading white space. */
  lemma TrimIsSlice(s: string)
    ensures var k := LeadingSpaces(s);
            k + |Trim(s)| <= |s| && Trim(s) == s[k..k + |Trim(s)|]
  {
    var k := LeadingSpaces(s);
    var t := s[k..];
    var r := Trim(s);
    assert r == t[..|r|];
    forall i | 0 <= i < |r|
      ensures r[i] == s[k + i]
    {
      assert r[i] == t[i];
    }
  }

  /** What `trim` keeps neither starts nor ends with white space. */
  lemma TrimEnds(s: string)
    ensures Trim(s) == [] || (!IsWhiteSpace(Trim(s)[0]) && !IsWhiteSpace(Trim(s)[|Trim(s)| - 1]))
  {
    var t := TrimStart(s);
    var m := |t| - TrailingSpaces(t);
    if m > 0 {
      assert Trim(s)[0] == t[0];
      assert Trim(s)[m - 1] == t[m - 1];
    }
  }

  /** `trim` drops exactly the white-space padding around a text that neither starts nor
      ends with white space. */
  lemma TrimOfPadded(pad: string, body: string, tail: string)
    requires forall i :: 0 <= i < |pad| ==> IsWhiteSpace(pad[i])
    requires forall i :: 0 <= i < |tail| ==> IsWhiteSpace(tail[i])
    requires body != [] && !IsWhiteSpace(body[0]) && !IsWhiteSpace(body[|body| - 1])
    ensures Trim(pad + body + tail) == body
  {
    var s := pad + body + tail;
    var k := LeadingSpaces(s);
    assert forall i :: 0 <= i < |pad| ==> s[i] == pad[i];
    assert s[|pad|] == body[0];
    assert k == |pad|;
    var t := s[k..];
    assert t == body + tail;
    var m := TrailingSpaces(t);
    assert forall i :: 0 <= i < |tail| ==> t[|body| + i] == tail[i];
    assert t[|body| - 1] == body[|body| - 1];
    assert m == |tail|;
    assert t[..|t| - m] == body;
  }

  /** `trim` leaves nothing exactly when `s` is nothing but white space. */
  lemma TrimBlank(s: string)
    ensures Trim(s) == [] <==> forall i :: 0 <= i < |s| ==> IsWhiteSpace(s[i])
  {
    var k := LeadingSpaces(s);
    var t := s[k..];
    if Trim(s) == [] && t != [] {
      assert false;
    }
    if Trim(s) != [] {
      assert !IsWhiteSpace(s[k]);
    }
  }

  // ---------------------------------------------------------------------------
  // Searching, splitting, joining

  /** `needle` occurs in `hay` starting at position `i`. */
  predicate OccursAt(hay: string, needle: string, i: int) {
    0 <= i <= |hay| - |needle| && hay[i..i + |needle|] == needle
  }

  /** `hay.includes(needle)`. */
  predicate Includes(hay: string, needle: string) {
    exists i | 0 <= i <= |hay| - |needle| :: OccursAt(hay, needle, i)
  }

  /** `Array.prototype.filter`. */
  function Filter<T(!new)>(s: seq<T>, keep: T -> bool): (r: seq<T>)
    ensures |r| <= |s|
    ensures forall x :: x in r <==> x in s && keep(x)
  {
    if s == [] then [] else (if keep(s[0]) then [s[0]] else []) + Filter(s[1..], keep)
  }

  /** `parts.join(sep)`. */
  function Join(parts: seq<string>, sep: string): (r: string)
    ensures parts == [] ==> r == []
  {
    if parts == [] then []
    else if |parts| == 1 then parts[0]
    else parts[0] + sep + Join(parts[1..], sep)
  }

  /** `s.split(" ")`: the maximal space-free segments, empty ones included. */
  function Split(s: string): (r: seq<string>)
    ensures |r| >= 1
  {
    if s == [] then [""]
    else if s[0] == ' ' then [""] + Split(s[1..])
    else
      var rest := Split(s[1..]);
      [[s[0]] + rest[0]] + rest[1..]
  }

  /** `split(" ")` loses nothing: joining its segments with " " gives the text back. */
  lemma {:induction false} SplitJoin(s: string)
    ensures Join(Split(s), " ") == s
  {
    if s != [] {
      var rest := Split(s[1..]);
      SplitJoin(s[1..]);
      if s[0] == ' ' {
        SplitJoinSpace(s, rest);
      } else {
        SplitJoinWord(s, rest);
      }
    }
  }

  /** `parts` with a first part in front, joined. */
  lemma JoinCons(a: string, parts: seq<string>, sep: string)
    requires parts != []
    ensures Join([a] + parts, sep) == a + sep + Join(parts, sep)
  {
    assert ([a] + parts)[1..] == parts;
  }

  /** The step of `SplitJoin` for a text that starts with a space. */
  lemma SplitJoinSpace(s: string, rest: seq<string>)
    requires s != [] && s[0] == ' ' && rest == Split(s[1..])
    requires Join(rest, " ") == s[1..]
    ensures Join(Split(s), " ") == s
  {
    calc {
      Join(Split(s), " ");
      { assert Split(s) == [""] + rest; }
      Join([""] + rest, " ");
      { JoinCons("", rest, " "); }
      " " + Join(rest, " ");
      [s[0]] + s[1..];
      s;
    }
  }

  /** The step of `SplitJoin` for a text that starts inside a word. */
  lemma SplitJoinWord(s: string, rest: seq<string>)
    requires s != [] && s[0] != ' ' && rest == Split(s[1..])
    requires Join(rest, " ") == s[1..]
    ensures Join(Split(s), " ") == s
  {
    var w := [s[0]] + rest[0];
    assert Split(s) == [w] + rest[1..];
    if |rest| == 1 {
      calc {
        Join(Split(s), " ");
        w;
        { assert Join(rest, " ") == rest[0]; }
        [s[0]] + s[1..];
        s;
      }
    } else {
      calc {
        Join(Split(s), " ");
        { JoinCons(w, rest[1..], " "); }
        w + " " + Join(rest[1..], " ");
        { assert w + " " + Join(rest[1..], " ") == [s[0]] + (rest[0] + " " + Join(rest[1..], " ")); }
        [s[0]] + (rest[0] + " " + Join(rest[1..], " "));
        { assert rest == [rest[0]] + rest[1..]; JoinCons(rest[0], rest[1..], " "); }
        [s[0]] + Join(rest, " ");
        [s[0]] + s[1..];
        s;
      }
    }
  }

  // ---------------------------------------------------------------------------
  // Integers to text

  /** The decimal digits of `n`, with no leading zero. */
  function NatToDecimal(n: nat): (s: string)
    ensures |s| >= 1 && forall i :: 0 <= i < |s| ==> IsDigit(s[i])
    ensures s[0] == '0' ==> n == 0
    decreases n
  {
    if n < 10 then [DigitChar(n)] else NatToDecimal(n / 10) + [DigitChar(n % 10)]
  }

  /** `String(n)` for an integer below 10^21 in magnitude. */
  function IntToDecimal(n: int): (s: string)
    ensures |s| >= 1 && (IsDigit(s[0]) || s[0] == '-')
  {
    if n < 0 then "-" + NatToDecimal(-n) else NatToDecimal(n)
  }

  /** 10^21: from here on `Number#toString` switches to exponent notation. */
  const ExponentThreshold: int := 1_000_000_000_000_000_000_000

  /** `digits` with its trailing '0's removed. */
  function DropTrailingZeros(digits: string): (r: string)
    ensures r <= digits
    ensures r == [] || r[|r| - 1] != '0'
  {
    if digits != [] && digits[|digits| - 1] == '0' then DropTrailingZeros(digits[..|digits| - 1]) else digits
  }

  /** The exponent form "d.ddde+k" of a magnitude of at least 10^21. Its significant
      digits are those of the exact integer, which is what the shortest round-trip form
      shows for every integer that a decimal text of at most 17 significant digits
      parses to. */
  function ExponentForm(m: nat): (s: string)
    ensures |s| >= 2 && s[0] == NatToDecimal(m)[0] && (s[1] == '.' || s[1] == 'e')
    ensures DigitValue(s[0]) == LeadingDigit(m)
  {
    var digits := NatToDecimal(m);
    var tail := DropTrailingZeros(digits[1..]);
    [digits[0]] + (if tail == [] then "" else "." + tail) + "e+" + NatToDecimal(|digits| - 1)
  }

  /** The text before the digits of a number: "-" for a negative one. */
  function SignText(negative: bool): string {
    if negative then "-" else ""
  }

  /** A magnitude with its sign applied. */
  function Signed(negative: bool, d: nat): int {
    if negative then -(d as int) else d
  }

  /** The value of the first decimal digit of `m`. */
  function LeadingDigit(m: nat): (d: nat)
    ensures d < 10
  {
    DigitValue(NatToDecimal(m)[0])
  }

  /** `Number#toString` for an integer-valued number: plain decimal below 10^21, the
      exponent form from there on. */
  function NumberToString(n: int): (s: string)
    ensures |s| >= 1
  {
    var m := if n < 0 then -n else n;
    if m < ExponentThreshold then IntToDecimal(n)
    else SignText(n < 0) + ExponentForm(m)
  }

  /** `String(v)`. */
  function ToString(v: JsValue): string {
    match v
    case Undefined => "undefined"
    case Null => "null"
    case Bool(b) => if b then "true" else "false"
    case Num(n) => NumberToString(n)
    case NaN => "NaN"
    case Str(s) => s
    case Obj => "[object Object]"
  }

  // ---------------------------------------------------------------------------
  // parseInt (section 18.2.5 of ECMA-262, radix undefined)

  /** The longest prefix of `s` made of digits of the given radix. */
  function RadixPrefix(s: string, radix: nat): (d: string)
    ensures d <= s
    ensures forall i :: 0 <= i < |d| ==> DigitValue(d[i]) < radix
    ensures |d| == |s| || DigitValue(s[|d|]) >= radix
  {
    if s != [] && DigitValue(s[0]) < radix then [s[0]] + RadixPrefix(s[1..], radix) else []
  }

  /** The number that the digit string `d` denotes in the given radix. */
  function RadixValue(d: string, radix: nat): nat {
    if d == [] then 0 else RadixValue(d[..|d| - 1], radix) * radix + DigitValue(d[|d| - 1])
  }

  /** What `parseInt` reads digits from: `s` with white space skipped, and the sign split
      off (true for '-'). */
  function SignAndBody(s: string): (r: (bool, string))
    ensures |r.1| <= |s|
  {
    var t := TrimStart(s);
    if t != [] && (t[0] == '+' || t[0] == '-') then (t[0] == '-', t[1..]) else (false, t)
  }

  predicate IsHexPrefixed(u: string) {
    |u| >= 2 && u[0] == '0' && (u[1] == 'x' || u[1] == 'X')
  }

  /** The magnitude `parseInt` reads from `u`: hexadecimal after "0x"/"0X", decimal
      otherwise; None (NaN) when no digit follows. */
  function ParseMagnitude(u: string): (r: Option<nat>)
    ensures r.None? <==> if IsHexPrefixed(u) then |u| == 2 || DigitValue(u[2]) >= 16
                         else u == [] || !IsDigit(u[0])
  {
    var hex := IsHexPrefixed(u);
    var radix := if hex then 16 else 10;
    var z := RadixPrefix(if hex then u[2..] else u, radix);
    if z == [] then None else Some(RadixValue(z, radix))
  }

  /** `parseInt(s)` on a string (section 18.2.5 of ECMA-262 with the radix left out). */
  function ParseInt(s: string): (r: Option<int>)
    ensures r.None? <==> ParseMagnitude(SignAndBody(s).1).None?
  {
    var (negative, u) := SignAndBody(s);
    match ParseMagnitude(u)
    case None => None
    case Some(m) => Some(if negative then -(m as int) else m)
  }

  /** `parseInt(v)` on any value. Only the text of a number or of a string can hold a
      digit: the texts of the other values are words, which `ParseIntValueReadsText`
      shows to read as NaN. */
  function ParseIntValue(v: JsValue): Option<int> {
    match v
    case Num(n) => ParseInt(NumberToString(n))
    case Str(s) => ParseInt(s)
    case _ => None
  }

  /** A text that starts with a letter or a bracket holds no number. */
  lemma ParseIntOfWord(t: string)
    requires t != [] && ('a' <= t[0] <= 'z' || 'A' <= t[0] <= 'Z' || t[0] == '[')
    ensures ParseInt(t) == None
  {
    assert !IsWhiteSpace(t[0]);
    TrimStartKeeps(t);
    assert SignAndBody(t) == (false, t);
    assert !IsHexPrefixed(t) && !IsDigit(t[0]);
  }

  /** `parseInt(v)` reads `String(v)` (section 18.2.5 of ECMA-262). */
  lemma ParseIntValueReadsText(v: JsValue)
    ensures ParseIntValue(v) == ParseInt(ToString(v))
  {
    match v
    case Undefined => ParseIntOfWord("undefined");
    case Null => ParseIntOfWord("null");
    case Bool(b) => ParseIntOfWord(if b then "true" else "false");
    case Num(n) =>
    case NaN => ParseIntOfWord("NaN");
    case Str(s) =>
    case Obj => ParseIntOfWord("[object Object]");
  }

  lemma {:induction false} RadixValueOfDecimal(n: nat)
    ensures RadixValue(NatToDecimal(n), 10) == n
    decreases n
  {
    if n >= 10 {
      var s := NatToDecimal(n / 10);
      var t := s + [DigitChar(n % 10)];
      assert t[..|t| - 1] == s;
      RadixValueOfDecimal(n / 10);
    }
  }

  lemma {:induction false} RadixPrefixOfDigits(s: string)
    requires forall i :: 0 <= i < |s| ==> IsDigit(s[i])
    ensures RadixPrefix(s, 10) == s
  {
    if s != [] {
      RadixPrefixOfDigits(s[1..]);
    }
  }

  lemma ParseMagnitudeOfDecimal(m: nat)
    ensures ParseMagnitude(NatToDecimal(m)) == Some(m)
  {
    var d := NatToDecimal(m);
    assert !IsHexPrefixed(d);
    RadixPrefixOfDigits(d);
    RadixValueOfDecimal(m);
  }

  lemma SignAndBodyOfSigned(negative: bool, body: string)
    requires body != [] && IsDigit(body[0])
    ensures SignAndBody(SignText(negative) + body) == (negative, body)
  {
    var s := SignText(negative) + body;
    assert !IsWhiteSpace(s[0]);
    TrimStartKeeps(s);
    if negative {
      assert s[1..] == body;
    } else {
      assert s[0] != '+' && s[0] != '-';
    }
  }

  /** Reading back the decimal text of an integer gives that integer. */
  lemma ParseIntOfDecimal(n: int)
    ensures ParseInt(IntToDecimal(n)) == Some(n)
  {
    SignAndBodyOfSigned(n < 0, NatToDecimal(if n < 0 then -n else n));
    ParseMagnitudeOfDecimal(if n < 0 then -n else n);
  }

  /** `parseInt(String(n))`: the integer itself below 10^21, and from there on only the
      leading digit, because the exponent form stops the digit scan after one digit. */
  lemma {:induction false} ParseIntOfNumber(n: int)
    ensures var m := if n < 0 then -n else n;
            ParseIntValue(Num(n)) == Some(if m < ExponentThreshold then n else Signed(n < 0, LeadingDigit(m)))
  {
    var m := if n < 0 then -n else n;
    assert ParseIntValue(Num(n)) == ParseInt(NumberToString(n));
    if m < ExponentThreshold {
      assert NumberToString(n) == IntToDecimal(n);
      ParseIntOfDecimal(n);
    } else {
      assert NumberToString(n) == SignText(n < 0) + ExponentForm(m);
      ParseIntOfLargeNumber(n < 0, m);
    }
  }

  /** The exponent form of a large magnitude, with or without a sign, reads as its
      leading digit. */
  lemma ParseIntOfLargeNumber(negative: bool, m: nat)
    ensures ParseInt(SignText(negative) + ExponentForm(m)) == Some(Signed(negative, LeadingDigit(m)))
  {
    ParseIntOfLeadingDigit(negative, ExponentForm(m));
  }

  /** A signed text whose body is a digit followed by '.' or 'e' reads as that digit. */
  lemma ParseIntOfLeadingDigit(negative: bool, body: string)
    requires |body| >= 2 && IsDigit(body[0]) && (body[1] == '.' || body[1] == 'e')
    ensures ParseInt(SignText(negative) + body) == Some(Signed(negative, DigitValue(body[0])))
  {
    SignAndBodyOfSigned(negative, body);
    LeadingDigitOnly(body);
  }

  /** A digit followed by '.' or 'e' reads as that one digit. */
  lemma LeadingDigitOnly(body: string)
    requires |body| >= 2 && IsDigit(body[0]) && (body[1] == '.' || body[1] == 'e')
    ensures ParseMagnitude(body) == Some(DigitValue(body[0]))
  {
    assert !IsHexPrefixed(body);
    assert RadixPrefix(body[1..], 10) == [];
    assert RadixPrefix(body, 10) == [body[0]];
    assert [body[0]][..0] == [];
    assert RadixValue([body[0]], 10) == DigitValue(body[0]);
  }

  // ---------------------------------------------------------------------------
  // parseFloat (section 18.2.4 of ECMA-262)

  /** A number value as `parseFloat` yields it: finite, or one of the two infinities. */
  datatype JsNumber = Finite(r: real) | PosInfinity | NegInfinity

  function RealPow10(k: int): (p: real)
    ensures p > 0.0
    decreases if k < 0 then -k else k
  {
    if k == 0 then 1.0 else if k > 0 then 10.0 * RealPow10(k - 1) else RealPow10(k + 1) / 10.0
  }

  predicate StartsWith(s: string, prefix: string) {
    prefix <= s
  }

  /** The exponent part "e[+-]digits" at the start of `s`, if there is one. */
  function ExponentPart(s: string): (e: Option<int>) {
    if s != [] && (s[0] == 'e' || s[0] == 'E') then
      var negative := |s| >= 2 && s[1] == '-';
      var u := if |s| >= 2 && (s[1] == '+' || s[1] == '-') then s[2..] else s[1..];
      var d := RadixPrefix(u, 10);
      if d == [] then None
      else Some(if negative then -(RadixValue(d, 10) as int) else RadixValue(d, 10))
    else None
  }

  /** The value of the longest unsigned decimal literal (digits, an optional fraction,
      an optional exponent) at the start of `u`; None when `u` starts with none. */
  function DecimalLiteralValue(u: string): (r: Option<real>)
    ensures r.Some? ==> u != [] && (IsDigit(u[0]) || (|u| >= 2 && u[0] == '.' && IsDigit(u[1])))
  {
    var whole := RadixPrefix(u, 10);
    var afterWhole := u[|whole|..];
    var hasPoint := afterWhole != [] && afterWhole[0] == '.';
    var fraction := if hasPoint then RadixPrefix(afterWhole[1..], 10) else [];
    if whole == [] && fraction == [] then None
    else
      var mantissa := RadixValue(whole, 10) as real
                      + RadixValue(fraction, 10) as real / RealPow10(|fraction|);
      var afterMantissa := if hasPoint then afterWhole[1 + |fraction|..] else afterWhole;
      match ExponentPart(afterMantissa)
      case Some(e) => Some(mantissa * RealPow10(e))
      case None => Some(mantissa)
  }

  /** `parseFloat(s)` (section 18.2.4 of ECMA-262): after white space and a sign, either
      "Infinity" or the longest decimal literal; NaN (None) when there is neither. Values
      are exact reals: binary rounding, overflow to Infinity and underflow to 0 are not
      modelled. */
  function ParseFloat(s: string): (r: Option<JsNumber>)
    ensures r.Some? && r.value.Finite? ==> DecimalLiteralValue(SignAndBody(s).1).Some?
  {
    var (negative, u) := SignAndBody(s);
    if StartsWith(u, "Infinity") then Some(if negative then NegInfinity else PosInfinity)
    else
      match DecimalLiteralValue(u)
      case None => None
      case Some(x) => Some(Finite(if negative then -x else x))
  }

  lemma DecimalLiteralOfDigits(n: nat)
    ensures DecimalLiteralValue(NatToDecimal(n)) == Some(n as real)
  {
    var d := NatToDecimal(n);
    RadixPrefixOfDigits(d);
    RadixValueOfDecimal(n);
    assert d[|d|..] == [];
  }

  /** `parseFloat` reads the decimal text of a natural number back as that number. */
  lemma ParseFloatOfDecimal(n: nat)
    ensures ParseFloat(NatToDecimal(n)) == Some(Finite(n as real))
  {
    SignAndBodyOfSigned(false, NatToDecimal(n));
    DecimalLiteralOfDigits(n);
    var d := NatToDecimal(n);
    assert !StartsWith(d, "Infinity") by {
      assert IsDigit(d[0]);
    }
  }
}
