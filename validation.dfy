/** Input validation of the matches API (backend/src/utils/validation.ts): each validator
    collects error messages by appending to a list, and the input is valid exactly when
    that list stays empty. */
module Validation {
  import opened Wrappers
  import opened Js

  datatype ValidationResult = ValidationResult(isValid: bool, errors: seq<string>)

  const SportTypeMessage := "Sport filter must be a string"
  const StatusMessage := "Status must be one of: " + "scheduled, in_progress, completed"
  const LimitMessage := "Limit must be a number between 1 and 100"
  const OffsetMessage := "Offset must be a non-negative number"
  const IdMessage := "ID must be a positive integer"
  const SportNameEmptyMessage := "Sport name must be a non-empty string"
  const SportNameLengthMessage := "Sport name must be 50 characters or less"

  /** The filter rules in the order `validateMatchFilters` checks them. */
  const FilterMessages: seq<string> := [SportTypeMessage, StatusMessage, LimitMessage, OffsetMessage]

  const Statuses: seq<string> := ["scheduled", "in_progress", "completed"]

  /** The filter object as `validateMatchFilters` reads it; `team` and `date` are never inspected. */
  datatype FilterInput = FilterInput(sport: JsValue, status: JsValue, limit: JsValue, offset: JsValue)

  /** `Array.prototype.includes` compares with SameValueZero, so only an equal string matches. */
  predicate IsStatus(v: JsValue) {
    v.Str? && v.s in Statuses
  }

  predicate SportRuleBroken(f: FilterInput) {
    Truthy(f.sport) && !f.sport.Str?
  }

  predicate StatusRuleBroken(f: FilterInput) {
    Truthy(f.status) && !IsStatus(f.status)
  }

  /** A defined limit must parse to an integer in 1..100. */
  predicate LimitRuleBroken(f: FilterInput) {
    f.limit != Undefined &&
    match ParseIntValue(f.limit)
    case None => true
    case Some(n) => n < 1 || n > 100
  }

  /** A defined offset must parse to a non-negative integer. */
  predicate OffsetRuleBroken(f: FilterInput) {
    f.offset != Undefined &&
    match ParseIntValue(f.offset)
    case None => true
    case Some(n) => n < 0
  }

  /** Position of a filter message in the fixed rule order. */
  function Rank(message: string): nat {
    if message == SportTypeMessage then 0
    else if message == StatusMessage then 1
    else if message == LimitMessage then 2
    else 3
  }

  /** The four filter messages are distinct (literals are split below 50 characters so
      that the verifier sees their characters). */
  lemma FilterMessagesDistinct()
    ensures Rank(SportTypeMessage) == 0 && Rank(StatusMessage) == 1
    ensures Rank(LimitMessage) == 2 && Rank(OffsetMessage) == 3
    ensures SportTypeMessage != StatusMessage && SportTypeMessage != LimitMessage
    ensures SportTypeMessage != OffsetMessage && StatusMessage != LimitMessage
    ensures StatusMessage != OffsetMessage && LimitMessage != OffsetMessage
  {
    assert SportTypeMessage[1] != StatusMessage[1];
    assert LimitMessage[0] != SportTypeMessage[0] && LimitMessage[0] != StatusMessage[0];
    assert OffsetMessage[0] != SportTypeMessage[0] && OffsetMessage[0] != StatusMessage[0];
    assert OffsetMessage[0] != LimitMessage[0];
  }

  /** The messages of a list of rules in rule order ranks strictly increase. */
  predicate RankOrdered(errors: seq<string>) {
    forall i, j :: 0 <= i < j < |errors| ==> Rank(errors[i]) < Rank(errors[j])
  }

  /** `[m]` when the rule is broken, nothing otherwise. */
  function Pick(broken: bool, m: string): seq<string> {
    if broken then [m] else []
  }

  lemma RankOrderedAppend(errors: seq<string>, m: string)
    requires RankOrdered(errors) && forall x :: x in errors ==> Rank(x) < Rank(m)
    ensures RankOrdered(errors + [m])
  {
  }

  /** The messages the four appends of `validateMatchFilters` add up to. */
  function Picked(a: bool, b: bool, c: bool, d: bool): seq<string> {
    Pick(a, SportTypeMessage) + Pick(b, StatusMessage) + Pick(c, LimitMessage) + Pick(d, OffsetMessage)
  }

  /** Each message is present exactly when its rule is broken, and nothing else is. */
  lemma PickedMembership(a: bool, b: bool, c: bool, d: bool)
    ensures SportTypeMessage in Picked(a, b, c, d) <==> a
    ensures StatusMessage in Picked(a, b, c, d) <==> b
    ensures LimitMessage in Picked(a, b, c, d) <==> c
    ensures OffsetMessage in Picked(a, b, c, d) <==> d
    ensures forall m :: m in Picked(a, b, c, d) ==> m in FilterMessages
  {
    FilterMessagesDistinct();
  }

  /** The messages come in rule order, at most one per rule. */
  lemma PickedOrder(a: bool, b: bool, c: bool, d: bool)
    ensures RankOrdered(Picked(a, b, c, d)) && |Picked(a, b, c, d)| <= |FilterMessages|
  {
    FilterMessagesDistinct();
    var r3 := Pick(a, SportTypeMessage) + Pick(b, StatusMessage) + Pick(c, LimitMessage);
    FirstThreeOrdered(a, b, c);
    if d { RankOrderedAppend(r3, OffsetMessage); }
  }

  lemma FirstThreeOrdered(a: bool, b: bool, c: bool)
    ensures var r := Pick(a, SportTypeMessage) + Pick(b, StatusMessage) + Pick(c, LimitMessage);
            RankOrdered(r) && |r| <= 3 && forall x :: x in r ==> Rank(x) < 3
  {
    FilterMessagesDistinct();
    var r2 := Pick(a, SportTypeMessage) + Pick(b, StatusMessage);
    FirstTwoOrdered(a, b);
    if c { RankOrderedAppend(r2, LimitMessage); }
  }

  lemma FirstTwoOrdered(a: bool, b: bool)
    ensures var r := Pick(a, SportTypeMessage) + Pick(b, StatusMessage);
            RankOrdered(r) && |r| <= 2 && forall x :: x in r ==> Rank(x) < 2
  {
    FilterMessagesDistinct();
    var r1 := Pick(a, SportTypeMessage);
    if b { RankOrderedAppend(r1, StatusMessage); }
  }

  /** The messages `validateMatchFilters` reports for `f`. */
  function FilterErrors(f: FilterInput): seq<string> {
    Picked(SportRuleBroken(f), StatusRuleBroken(f), LimitRuleBroken(f), OffsetRuleBroken(f))
  }

  /** `validateMatchFilters`: one message per broken rule, in rule order. */
  method ValidateMatchFilters(f: FilterInput) returns (r: ValidationResult)
    ensures r.errors == FilterErrors(f)
    ensures r.isValid <==> r.errors == []
    ensures r.isValid <==> FiltersValid(f)
  {
    var errors: seq<string> := [];
    if Truthy(f.sport) && !f.sport.Str? {
      errors := errors + [SportTypeMessage];
    }
    ghost var e1 := errors;
    assert e1 == Pick(SportRuleBroken(f), SportTypeMessage);
    if Truthy(f.status) && !IsStatus(f.status) {
      errors := errors + [StatusMessage];
    }
    ghost var e2 := errors;
    assert e2 == e1 + Pick(StatusRuleBroken(f), StatusMessage);
    if f.limit != Undefined {
      var limit := ParseIntValue(f.limit);
      if limit.None? || limit.value < 1 || limit.value > 100 {
        errors := errors + [LimitMessage];
      }
    }
    ghost var e3 := errors;
    assert e3 == e2 + Pick(LimitRuleBroken(f), LimitMessage);
    if f.offset != Undefined {
      var offset := ParseIntValue(f.offset);
      if offset.None? || offset.value < 0 {
        errors := errors + [OffsetMessage];
      }
    }
    assert errors == e3 + Pick(OffsetRuleBroken(f), OffsetMessage);
    assert errors == FilterErrors(f);
    FilterErrorsEmpty(f);
    r := ValidationResult(|errors| == 0, errors);
  }

  /** Each filter message is reported exactly when its rule is broken; nothing else is
      reported; the messages come in rule order, at most one per rule. */
  lemma FilterErrorsMeaning(f: FilterInput)
    ensures SportTypeMessage in FilterErrors(f) <==> SportRuleBroken(f)
    ensures StatusMessage in FilterErrors(f) <==> StatusRuleBroken(f)
    ensures LimitMessage in FilterErrors(f) <==> LimitRuleBroken(f)
    ensures OffsetMessage in FilterErrors(f) <==> OffsetRuleBroken(f)
    ensures forall m :: m in FilterErrors(f) ==> m in FilterMessages
    ensures RankOrdered(FilterErrors(f)) && |FilterErrors(f)| <= |FilterMessages|
  {
    PickedMembership(SportRuleBroken(f), StatusRuleBroken(f), LimitRuleBroken(f), OffsetRuleBroken(f));
    PickedOrder(SportRuleBroken(f), StatusRuleBroken(f), LimitRuleBroken(f), OffsetRuleBroken(f));
  }

  /** No message is reported exactly when every rule holds. */
  lemma FilterErrorsEmpty(f: FilterInput)
    ensures FilterErrors(f) == [] <==> FiltersValid(f)
  {
    PickedMembership(SportRuleBroken(f), StatusRuleBroken(f), LimitRuleBroken(f), OffsetRuleBroken(f));
  }

  /** A limit that passes validation is positive, whatever its size. */
  lemma ValidLimitPositive(f: FilterInput, n: int)
    requires FiltersValid(f) && f.limit == Num(n)
    ensures n >= 1
  {
    if n <= -ExponentThreshold {
      HugeNegativeLimitRefused(f, n);
    } else if n < ExponentThreshold {
      LimitRuleOnIntegers(f, n);
    }
  }

  lemma HugeNegativeLimitRefused(f: FilterInput, n: int)
    requires f.limit == Num(n) && n <= -ExponentThreshold
    ensures LimitRuleBroken(f)
  {
    ParseIntOfNumber(n);
  }

  /** An offset that passes validation is not negative, whatever its size. */
  lemma ValidOffsetNonNegative(f: FilterInput, n: int)
    requires FiltersValid(f) && f.offset == Num(n)
    ensures n >= 0
  {
    if n <= -ExponentThreshold {
      HugeNegativeOffsetRefused(f, n);
    } else if n < ExponentThreshold {
      OffsetRuleOnIntegers(f, n);
    }
  }

  lemma HugeNegativeOffsetRefused(f: FilterInput, n: int)
    requires f.offset == Num(n) && n <= -ExponentThreshold
    ensures OffsetRuleBroken(f)
  {
    ParseIntOfNumber(n);
    var lead := NatToDecimal(-n)[0];
    assert IsDigit(lead) && lead != '0';
    NonZeroDigit(lead);
  }

  /** The filters `validateMatchFilters` accepts. */
  predicate FiltersValid(f: FilterInput) {
    !SportRuleBroken(f) && !StatusRuleBroken(f) && !LimitRuleBroken(f) && !OffsetRuleBroken(f)
  }

  /** `validateId` accepts exactly the values that `parseInt` reads as a positive integer. */
  predicate IdAccepted(id: JsValue) {
    match ParseIntValue(id)
    case None => false
    case Some(n) => n >= 1
  }

  /** `validateId`. */
  method ValidateId(id: JsValue) returns (r: ValidationResult)
    ensures r.isValid <==> r.errors == []
    ensures r.isValid <==> IdAccepted(id)
    ensures !r.isValid ==> r.errors == [IdMessage]
  {
    var errors: seq<string> := [];
    var numId := ParseIntValue(id);
    if numId.None? || numId.value < 1 {
      errors := errors + [IdMessage];
    }
    r := ValidationResult(|errors| == 0, errors);
  }

  /** Missing, not a string, or nothing but white space. */
  predicate SportNameMissing(name: JsValue) {
    !Truthy(name) || !name.Str? || |Trim(name.s)| == 0
  }

  /** `name.length > 50`; values other than strings have no length here. */
  predicate SportNameTooLong(name: JsValue) {
    Truthy(name) && name.Str? && |name.s| > 50
  }

  lemma SportNameMessagesDistinct()
    ensures SportNameEmptyMessage != SportNameLengthMessage
  {
    assert SportNameEmptyMessage[19] != SportNameLengthMessage[19];
  }

  /** The messages the two appends of `validateSportName` add up to. */
  function SportNameErrors(name: JsValue): seq<string> {
    Pick(SportNameMissing(name), SportNameEmptyMessage) + Pick(SportNameTooLong(name), SportNameLengthMessage)
  }

  /** Each message is present exactly when its rule is broken; both come in rule order. */
  lemma SportNameErrorsMeaning(name: JsValue)
    ensures SportNameEmptyMessage in SportNameErrors(name) <==> SportNameMissing(name)
    ensures SportNameLengthMessage in SportNameErrors(name) <==> SportNameTooLong(name)
    ensures |SportNameErrors(name)| == 2 ==> SportNameErrors(name) == [SportNameEmptyMessage, SportNameLengthMessage]
    ensures forall m :: m in SportNameErrors(name) ==> m == SportNameEmptyMessage || m == SportNameLengthMessage
    ensures |SportNameErrors(name)| <= 2
  {
    SportNameMessagesDistinct();
  }

  /** `validateSportName`: the two rules are checked independently, emptiness first. */
  method ValidateSportName(name: JsValue) returns (r: ValidationResult)
    ensures r.errors == SportNameErrors(name)
    ensures r.isValid <==> r.errors == []
    ensures r.isValid <==> !SportNameMissing(name) && !SportNameTooLong(name)
  {
    var errors: seq<string> := [];
    if !Truthy(name) || !name.Str? || |Trim(name.s)| == 0 {
      errors := errors + [SportNameEmptyMessage];
    }
    if Truthy(name) && name.Str? && |name.s| > 50 {
      errors := errors + [SportNameLengthMessage];
    }
    assert errors == SportNameErrors(name);
    r := ValidationResult(|errors| == 0, errors);
  }

  /** `s.replace(/[<>]/g, '')`. */
  function RemoveAngleBrackets(s: string): (r: string)
    ensures |r| <= |s|
    ensures '<' !in r && '>' !in r
    ensures forall c :: c in r ==> c in s
    ensures forall c :: c != '<' && c != '>' ==> multiset(r)[c] == multiset(s)[c]
  {
    if s == [] then []
    else
      assert s == [s[0]] + s[1..];
      (if s[0] == '<' || s[0] == '>' then [] else [s[0]]) + RemoveAngleBrackets(s[1..])
  }

  /** `sanitizeString`: trim, then drop every angle bracket. */
  function SanitizeString(input: string): (r: string)
    ensures '<' !in r && '>' !in r
    ensures |r| <= |input|
    ensures forall c :: c in r ==> c in input
    ensures forall c :: c != '<' && c != '>' ==> multiset(r)[c] == multiset(Trim(input))[c]
  {
    RemoveAngleBrackets(Trim(input))
  }

  lemma {:induction false} RemoveAngleBracketsKeeps(s: string)
    requires '<' !in s && '>' !in s
    ensures RemoveAngleBrackets(s) == s
  {
    if s != [] {
      RemoveAngleBracketsKeeps(s[1..]);
      assert s == [s[0]] + s[1..];
    }
  }

  /** Removing brackets works character by character: the text of `a + b` loses its
      brackets as `a` and `b` do, so every other character is kept in its place. */
  lemma {:induction false} RemoveAngleBracketsAppend(a: string, b: string)
    ensures RemoveAngleBrackets(a + b) == RemoveAngleBrackets(a) + RemoveAngleBrackets(b)
  {
    if a != [] {
      assert (a + b)[0] == a[0];
      assert (a + b)[1..] == a[1..] + b;
      RemoveAngleBracketsAppend(a[1..], b);
      var head := if a[0] == '<' || a[0] == '>' then [] else [a[0]];
      assert RemoveAngleBrackets(a + b) == head + (RemoveAngleBrackets(a[1..]) + RemoveAngleBrackets(b));
      assert RemoveAngleBrackets(a) == head + RemoveAngleBrackets(a[1..]);
    } else {
      assert a + b == b;
    }
  }

  /** A single character is dropped exactly when it is an angle bracket. */
  lemma RemoveAngleBracketsOfChar(c: char)
    ensures RemoveAngleBrackets([c]) == if c == '<' || c == '>' then [] else [c]
  {
    assert [c][1..] == [];
  }

  /** `sanitizeString` keeps the text between the white-space padding with its brackets
      removed; with `RemoveAngleBracketsAppend` every other character stays in order. */
  lemma SanitizeOfPadded(pad: string, body: string, tail: string)
    requires forall i :: 0 <= i < |pad| ==> IsWhiteSpace(pad[i])
    requires forall i :: 0 <= i < |tail| ==> IsWhiteSpace(tail[i])
    requires body != [] && !IsWhiteSpace(body[0]) && !IsWhiteSpace(body[|body| - 1])
    ensures SanitizeString(pad + body + tail) == RemoveAngleBrackets(body)
  {
    TrimOfPadded(pad, body, tail);
  }

  /** Text that is already trimmed and free of angle brackets passes through unchanged. */
  lemma SanitizeKeepsCleanText(input: string)
    requires '<' !in input && '>' !in input
    requires input == [] || (!IsWhiteSpace(input[0]) && !IsWhiteSpace(input[|input| - 1]))
    ensures SanitizeString(input) == input
  {
    TrimStartKeeps(input);
    assert TrailingSpaces(input) == 0;
    assert TrimEnd(input) == input;
    RemoveAngleBracketsKeeps(input);
  }

  /** `parseIntSafely(value, defaultValue = 0)`. */
  function ParseIntSafely(value: JsValue, defaultValue: int := 0): (r: int)
    ensures ParseIntValue(value).None? ==> r == defaultValue
    ensures ParseIntValue(value).Some? ==> r == ParseIntValue(value).value
  {
    match ParseIntValue(value)
    case None => defaultValue
    case Some(n) => n
  }

  // ---------------------------------------------------------------------------
  // What the rules mean for integers and their decimal text

  /** An integer below 10^21 in magnitude passes the limit rule exactly when it is in 1..100. */
  lemma LimitRuleOnIntegers(f: FilterInput, n: int)
    requires f.limit == Num(n) && -ExponentThreshold < n < ExponentThreshold
    ensures LimitRuleBroken(f) <==> n < 1 || n > 100
  {
    ParseIntOfNumber(n);
  }

  /** An integer below 10^21 in magnitude passes the offset rule exactly when it is not negative. */
  lemma OffsetRuleOnIntegers(f: FilterInput, n: int)
    requires f.offset == Num(n) && -ExponentThreshold < n < ExponentThreshold
    ensures OffsetRuleBroken(f) <==> n < 0
  {
    ParseIntOfNumber(n);
  }

  /** `validateId` on the decimal text of an integer: accepted exactly when it is positive,
      so "0" and "-1" are refused. */
  lemma IdAcceptedOnDecimalText(n: int)
    ensures IdAccepted(Str(IntToDecimal(n))) <==> n >= 1
  {
    ParseIntOfDecimal(n);
  }

  /** `validateId` on an integer below 10^21: accepted exactly when it is positive. */
  lemma IdAcceptedOnIntegers(n: int)
    requires -ExponentThreshold < n < ExponentThreshold
    ensures IdAccepted(Num(n)) <==> n >= 1
  {
    ParseIntOfNumber(n);
  }

  /** Text that starts with a letter, like "invalid" or "ABC", is refused. */
  lemma IdRefusesNonNumericText(s: string)
    requires s != [] && ('a' <= s[0] <= 'z' || 'A' <= s[0] <= 'Z')
    ensures !IdAccepted(Str(s))
  {
    ParseIntOfWord(s);
  }

  /** `parseIntSafely` returns the integer a decimal text spells, whatever the default. */
  lemma ParseIntSafelyOfDecimal(n: int, defaultValue: int)
    ensures ParseIntSafely(Str(IntToDecimal(n)), defaultValue) == n
  {
    ParseIntOfDecimal(n);
  }

  /** The two sport-name errors can occur together: 51 spaces are blank and too long. */
  lemma SportNameErrorsTogether(s: string)
    requires |s| == 51 && forall i :: 0 <= i < |s| ==> s[i] == ' '
    ensures SportNameMissing(Str(s)) && SportNameTooLong(Str(s))
  {
  }
  // ---------------------------------------------------------------------------
  // The limit rule reads the limit through `parseInt` a second time

  /** From 10^21 on, a limit passes the rule as written: `String(n)` is in exponent form,
      so `parseInt` reads back only its leading digit, which is in 1..9. */
  lemma {:induction false} HugeLimitPasses(f: FilterInput, n: int)
    requires f.limit == Num(n) && n >= ExponentThreshold
    ensures !LimitRuleBroken(f)
  {
    ParseIntOfNumber(n);
    var lead := NatToDecimal(n)[0];
    assert IsDigit(lead) && lead != '0';
    NonZeroDigit(lead);
  }

  lemma NonZeroDigit(c: char)
    requires IsDigit(c) && c != '0'
    ensures 1 <= DigitValue(c) <= 9
  {
  }

  /** The limit rule as intended: a number is checked as it is, anything else through
      `parseInt`. */
  predicate LimitRuleBrokenIntended(f: FilterInput) {
    match f.limit
    case Undefined => false
    case Num(n) => n < 1 || n > 100
    case _ => LimitRuleBroken(f)
  }

  /** With the intended rule, an accepted numeric limit lies in 1..100. */
  lemma IntendedLimitBounded(f: FilterInput, n: int)
    requires f.limit == Num(n)
    ensures !LimitRuleBrokenIntended(f) <==> 1 <= n <= 100
  {
  }

  /** The two rules agree on every limit below 10^21 in magnitude, and on every value
      that is not a number. */
  lemma IntendedLimitAgrees(f: FilterInput)
    requires !f.limit.Num? || -ExponentThreshold < f.limit.n < ExponentThreshold
    ensures LimitRuleBrokenIntended(f) <==> LimitRuleBroken(f)
  {
    if f.limit.Num? {
      LimitRuleOnIntegers(f, f.limit.n);
    }
  }
}
