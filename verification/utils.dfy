/**
  Command validation helpers of utils.py: angle range validation, the
  `SET_ANGLE` grammar, command normalisation, the character-set check of
  `is_valid_command`, and the filter-and-sort step of `list_flight_files`.
 */
module Utils {
  import opened Common
  import opened Numbers
  import opened Text
  import Sorting

  const RangeMessage: string := "\U{C2}ngulo deve estar entre 0 e 180 graus"
  const NotNumberMessage: string := "\U{C2}ngulo inv\U{E1}lido: deve ser um n\U{FA}mero"
  const FormatMessage: string := "Formato inv\U{E1}lido. Use: SET_ANGLE:NN (ex: SET_ANGLE:90)"

  /**
    The `(valid, angle, message)` triple the validators return: an accepted
    angle comes with the message `""`, a rejection with angle `None`.
   */
  datatype AngleCheck = Accepted(angle: real) | Rejected(message: string) {
    function Valid(): bool { Accepted? }
    function Angle(): Option<real> { if Accepted? then Some(angle) else None }
    function Message(): string { if Accepted? then "" else message }
  }

  /**
    `validate_angle` (lines 23-32), given what `float(angle_str)` produced
    (`None` when it raised `ValueError`). Both bounds are inclusive.
   */
  function ValidateAngle(value: Option<real>): (c: AngleCheck)
    ensures c.Valid() <==> value.Some? && 0.0 <= value.value <= 180.0
    ensures c.Valid() ==> c.Angle() == value && c.Message() == ""
    ensures !c.Valid() ==> c.Angle() == None && c.Message() != ""
    ensures value.None? ==> c == Rejected(NotNumberMessage)
    ensures value.Some? && !c.Valid() ==> c == Rejected(RangeMessage)
  {
    match value
    case None => Rejected(NotNumberMessage)
    case Some(v) => if v < 0.0 || v > 180.0 then Rejected(RangeMessage) else Accepted(v)
  }

  /** A decimal numeral `[0-9]+\.?[0-9]*`: whole digits, an optional point, fraction digits. */
  datatype Numeral = Numeral(whole: string, point: bool, fraction: string)

  predicate WellFormed(n: Numeral) {
    && |n.whole| >= 1 && AllDigits(n.whole) && AllDigits(n.fraction)
    && (!n.point ==> n.fraction == "")
  }

  function NumeralText(n: Numeral): string {
    n.whole + (if n.point then "." else "") + n.fraction
  }

  /** What `float()` reads from a numeral (exactly; see the README on rounding). */
  function NumeralValue(n: Numeral): real
    requires WellFormed(n)
  {
    DigitsValue(n.whole) as real + DigitsValue(n.fraction) as real / Pow10(|n.fraction|) as real
  }

  lemma NumeralValueNonNegative(n: Numeral)
    requires WellFormed(n)
    ensures NumeralValue(n) >= 0.0
  {
    var p := Pow10(|n.fraction|) as real;
    assert p > 0.0;
    assert DigitsValue(n.fraction) as real / p >= 0.0;
  }

  /** Length of the run of digits that starts `s`. */
  function LeadingDigits(s: string): (k: nat)
    ensures k <= |s| && AllDigits(s[..k])
    ensures k < |s| ==> !IsDigit(s[k])
  {
    if s != [] && IsDigit(s[0]) then
      var k := 1 + LeadingDigits(s[1..]);
      assert s[..k] == [s[0]] + s[1..][..k - 1];
      k
    else 0
  }

  /** Length of the run of whitespace that starts `s`. */
  function LeadingSpaces(s: string): (k: nat)
    ensures k <= |s| && AllSpace(s[..k])
    ensures k < |s| ==> !IsSpace(s[k])
  {
    if s != [] && IsSpace(s[0]) then
      var k := 1 + LeadingSpaces(s[1..]);
      assert s[..k] == [s[0]] + s[1..][..k - 1];
      k
    else 0
  }

  lemma {:induction false} LeadingDigitsOf(a: string, b: string)
    requires AllDigits(a) && (b == [] || !IsDigit(b[0]))
    ensures LeadingDigits(a + b) == |a|
  {
    if a != [] {
      assert (a + b)[1..] == a[1..] + b;
      LeadingDigitsOf(a[1..], b);
    } else {
      assert a + b == b;
    }
  }

  lemma {:induction false} LeadingSpacesOf(a: string, b: string)
    requires AllSpace(a) && (b == [] || !IsSpace(b[0]))
    ensures LeadingSpaces(a + b) == |a|
  {
    if a != [] {
      assert (a + b)[1..] == a[1..] + b;
      LeadingSpacesOf(a[1..], b);
    } else {
      assert a + b == b;
    }
  }

  /** Reads text that is exactly one numeral. */
  function ReadNumeral(t: string): (r: Option<Numeral>)
    ensures r.Some? ==> WellFormed(r.value) && NumeralText(r.value) == t
  {
    var k := LeadingDigits(t);
    if k == 0 then None
    else if k == |t| then
      assert t[..k] == t;
      Some(Numeral(t, false, ""))
    else if t[k] == '.' && AllDigits(t[k + 1..]) then
      assert t == t[..k] + "." + t[k + 1..];
      Some(Numeral(t[..k], true, t[k + 1..]))
    else None
  }

  lemma ReadNumeralComplete(n: Numeral)
    requires WellFormed(n)
    ensures ReadNumeral(NumeralText(n)) == Some(n)
  {
    var t := NumeralText(n);
    var rest := (if n.point then "." else "") + n.fraction;
    assert t == n.whole + rest;
    LeadingDigitsOf(n.whole, rest);
    if n.point {
      assert t[|n.whole| + 1..] == n.fraction;
      assert t[..|n.whole|] == n.whole;
    }
  }

  /** A numeral's text holds only digits and points; in particular no newline. */
  lemma NumeralTextNoNewline(n: Numeral)
    requires WellFormed(n)
    ensures '\n' !in NumeralText(n)
  {
    var t := NumeralText(n);
    forall i | 0 <= i < |t|
      ensures t[i] != '\n'
    {
      if i < |n.whole| {
        assert t[i] == n.whole[i];
      }
    }
  }

  /** Only newline-free text reads as a numeral. */
  lemma ReadNumeralNoNewline(t: string)
    ensures ReadNumeral(t).Some? ==> '\n' !in t
  {
    if ReadNumeral(t).Some? {
      NumeralTextNoNewline(ReadNumeral(t).value);
    }
  }

  /** `SET_ANGLE` in any ASCII letter case. */
  predicate IsKeyword(k: string) {
    |k| == 9 && forall i :: 0 <= i < 9 ==> UpperChar(k[i]) == "SET_ANGLE"[i]
  }

  /**
    The parts of a command the pattern `^SET_ANGLE\s*:\s*([0-9]+\.?[0-9]*)$`
    matches, case-insensitively: `$` also matches just before a final newline.
   */
  datatype SetAngleMatch = SetAngleMatch(keyword: string, before: string, after: string, numeral: Numeral, newline: bool)

  predicate MatchWellFormed(m: SetAngleMatch) {
    IsKeyword(m.keyword) && AllSpace(m.before) && AllSpace(m.after) && WellFormed(m.numeral)
  }

  /** The text after the keyword: gap, colon, gap, numeral, optional newline. */
  function ArgumentText(before: string, after: string, n: Numeral, newline: bool): string {
    before + (":" + (after + (NumeralText(n) + NewlineText(newline))))
  }

  function NewlineText(newline: bool): string {
    if newline then "\n" else ""
  }

  function MatchText(m: SetAngleMatch): string {
    m.keyword + ArgumentText(m.before, m.after, m.numeral, m.newline)
  }

  /** The end of the pattern: a numeral, then the end of the text or a final newline. */
  function MatchNumeralEnd(tail: string): (r: Option<(Numeral, bool)>)
    ensures r.Some? ==> WellFormed(r.value.0)
    ensures r.Some? ==> tail == NumeralText(r.value.0) + NewlineText(r.value.1)
  {
    match ReadNumeral(tail)
    case Some(n) => Some((n, false))
    case None =>
      if tail != [] && tail[|tail| - 1] == '\n' then
        match ReadNumeral(tail[..|tail| - 1])
        case Some(n) =>
          assert tail == tail[..|tail| - 1] + "\n";
          Some((n, true))
        case None => None
      else None
  }

  /** The pattern after the keyword: `\s*:\s*` and the numeral end. */
  function MatchArgument(rest: string): (r: Option<(string, string, Numeral, bool)>)
    ensures r.Some? ==> AllSpace(r.value.0) && AllSpace(r.value.1) && WellFormed(r.value.2)
    ensures r.Some? ==> rest == ArgumentText(r.value.0, r.value.1, r.value.2, r.value.3)
  {
    var i := LeadingSpaces(rest);
    if i == |rest| || rest[i] != ':' then None
    else
      var before := rest[..i];
      var rest2 := rest[i + 1..];
      var j := LeadingSpaces(rest2);
      var after := rest2[..j];
      var tail := rest2[j..];
      assert rest2 == after + tail;
      var m := MatchNumeralEnd(tail);
      if m.None? then None
      else
        var n := m.value.0;
        var nl := m.value.1;
        assert tail == NumeralText(n) + NewlineText(nl);
        Reassemble(rest, i, j);
        Some((before, after, n, nl))
  }

  /** The text around the colon falls apart into the gap, the colon, the second gap and the rest. */
  lemma Reassemble(rest: string, i: nat, j: nat)
    requires i < |rest| && rest[i] == ':' && j <= |rest| - i - 1
    ensures rest == rest[..i] + (":" + (rest[i + 1..][..j] + rest[i + 1..][j..]))
  {
    var rest2 := rest[i + 1..];
    assert rest2[..j] + rest2[j..] == rest2;
    assert rest[i..] == ":" + rest2;
    assert rest == rest[..i] + rest[i..];
  }

  /** The regular-expression match of `parse_set_angle_command` (lines 45-50). */
  function MatchSetAngle(cmd: string): (r: Option<SetAngleMatch>)
    ensures r.Some? ==> MatchWellFormed(r.value) && MatchText(r.value) == cmd
  {
    if |cmd| < 9 || !IsKeyword(cmd[..9]) then None
    else
      match MatchArgument(cmd[9..])
      case Some((before, after, n, nl)) =>
        assert cmd == cmd[..9] + cmd[9..];
        Some(SetAngleMatch(cmd[..9], before, after, n, nl))
      case None => None
  }

  lemma MatchNumeralEndComplete(n: Numeral, newline: bool)
    requires WellFormed(n)
    ensures MatchNumeralEnd(NumeralText(n) + NewlineText(newline)) == Some((n, newline))
  {
    var num := NumeralText(n);
    var tail := num + NewlineText(newline);
    ReadNumeralComplete(n);
    if newline {
      ReadNumeralNoNewline(tail);
      assert tail[|tail| - 1] == '\n';
      assert tail[..|tail| - 1] == num;
    } else {
      assert tail == num;
    }
  }

  lemma MatchArgumentComplete(before: string, after: string, n: Numeral, newline: bool)
    requires AllSpace(before) && AllSpace(after) && WellFormed(n)
    ensures MatchArgument(ArgumentText(before, after, n, newline)) == Some((before, after, n, newline))
  {
    var tail := NumeralText(n) + NewlineText(newline);
    var rest2 := after + tail;
    var rest := before + (":" + rest2);
    assert ArgumentText(before, after, n, newline) == rest;
    LeadingSpacesOf(before, ":" + rest2);
    assert rest[|before|] == ':';
    assert rest[|before| + 1..] == rest2;
    assert rest[..|before|] == before;
    assert tail[0] == n.whole[0];
    LeadingSpacesOf(after, tail);
    assert rest2[..|after|] == after;
    assert rest2[|after|..] == tail;
    MatchNumeralEndComplete(n, newline);
  }

  /** Every command the pattern describes is matched, with the same parts. */
  lemma MatchSetAngleComplete(m: SetAngleMatch)
    requires MatchWellFormed(m)
    ensures MatchSetAngle(MatchText(m)) == Some(m)
  {
    var cmd := MatchText(m);
    assert cmd[..9] == m.keyword;
    assert cmd[9..] == ArgumentText(m.before, m.after, m.numeral, m.newline);
    MatchArgumentComplete(m.before, m.after, m.numeral, m.newline);
  }

  /**
    `parse_set_angle_command`: a command outside the grammar gets the format
    message; a matched numeral then goes through `validate_angle`.
   */
  function ParseSetAngle(cmd: string): (c: AngleCheck)
    ensures c.Valid() ==> 0.0 <= c.angle <= 180.0 && c.Message() == ""
    ensures !c.Valid() ==> c.Angle() == None && c.Message() in {FormatMessage, RangeMessage}
    ensures MatchSetAngle(cmd).None? <==> c == Rejected(FormatMessage)
  {
    match MatchSetAngle(cmd)
    case None => Rejected(FormatMessage)
    case Some(m) => ValidateAngle(Some(NumeralValue(m.numeral)))
  }

  /**
    Every accepted numeral is non-negative, so a command in the grammar is
    accepted exactly when its value is at most 180, and then carries that
    value.
   */
  lemma ParseAcceptsUpTo180(m: SetAngleMatch)
    requires MatchWellFormed(m)
    ensures ParseSetAngle(MatchText(m)).Valid() <==> NumeralValue(m.numeral) <= 180.0
    ensures ParseSetAngle(MatchText(m)).Valid() ==> ParseSetAngle(MatchText(m)).angle == NumeralValue(m.numeral)
    ensures !ParseSetAngle(MatchText(m)).Valid() ==> ParseSetAngle(MatchText(m)) == Rejected(RangeMessage)
  {
    MatchSetAngleComplete(m);
    NumeralValueNonNegative(m.numeral);
    var c := ParseSetAngle(MatchText(m));
    assert c == ValidateAngle(Some(NumeralValue(m.numeral)));
  }

  /** A numeral cannot start with anything but a digit. */
  lemma ReadNumeralNeedsDigit(t: string)
    requires t != [] && !IsDigit(t[0])
    ensures ReadNumeral(t) == None
  {
    assert LeadingDigits(t) == 0;
  }

  /**
    After the colon and any whitespace the pattern needs a digit: a command
    whose argument starts with anything else is rejected as malformed.
   */
  lemma ArgumentNeedsDigit(g: string)
    requires g != [] && !IsDigit(g[0]) && !IsSpace(g[0])
    ensures MatchArgument(":" + g) == None
  {
    var rest := ":" + g;
    assert LeadingSpaces(rest) == 0;
    assert rest[1..] == g;
    assert LeadingSpaces(g) == 0;
    assert g[0..] == g;
    ReadNumeralNeedsDigit(g);
    if |g| > 1 {
      ReadNumeralNeedsDigit(g[..|g| - 1]);
    }
  }

  /** Commands outside the grammar: a word, a sign, a missing whole part. */
  lemma ParseRejectsMalformed()
    ensures ParseSetAngle("SET_ANGLE:abc") == Rejected(FormatMessage)
    ensures ParseSetAngle("SET_ANGLE:-5") == Rejected(FormatMessage)
    ensures ParseSetAngle("SET_ANGLE:.5") == Rejected(FormatMessage)
  {
    assert "SET_ANGLE:abc"[9..] == ":" + "abc";
    ArgumentNeedsDigit("abc");
    assert "SET_ANGLE:-5"[9..] == ":" + "-5";
    ArgumentNeedsDigit("-5");
    assert "SET_ANGLE:.5"[9..] == ":" + ".5";
    ArgumentNeedsDigit(".5");
  }

  lemma DigitsValueExamples()
    ensures DigitsValue("0") == 0 && DigitsValue("5") == 5 && DigitsValue("180") == 180
  {
    assert "0"[..0] == "" && "5"[..0] == "";
    assert "180"[..2] == "18" && "18"[..1] == "1" && "1"[..0] == "";
  }

  lemma KeywordExamples()
    ensures IsKeyword("SET_ANGLE") && IsKeyword("set_angle")
  {
    var upper, lower := "SET_ANGLE", "set_angle";
    forall i | 0 <= i < 9
      ensures UpperChar(upper[i]) == "SET_ANGLE"[i] && UpperChar(lower[i]) == "SET_ANGLE"[i]
    {
    }
  }

  /** The lower bound is inclusive. */
  lemma ParseAcceptsZero()
    ensures ParseSetAngle("SET_ANGLE:0") == Accepted(0.0)
  {
    DigitsValueExamples();
    KeywordExamples();
    var n := Numeral("0", false, "");
    var m := SetAngleMatch("SET_ANGLE", "", "", n, false);
    assert NumeralText(n) == "0";
    assert NumeralValue(n) == 0.0;
    assert ArgumentText("", "", n, false) == ":0";
    assert MatchText(m) == "SET_ANGLE:0";
    ParseAcceptsUpTo180(m);
  }

  /** The upper bound is inclusive, and the keyword's case and the gaps around the colon do not matter. */
  lemma ParseAcceptsTop()
    ensures ParseSetAngle("set_angle : 180") == Accepted(180.0)
  {
    DigitsValueExamples();
    KeywordExamples();
    var n := Numeral("180", false, "");
    var m := SetAngleMatch("set_angle", " ", " ", n, false);
    assert NumeralText(n) == "180";
    assert NumeralValue(n) == 180.0;
    assert AllSpace(" ");
    assert ArgumentText(" ", " ", n, false) == " : 180";
    assert MatchText(m) == "set_angle : 180";
    ParseAcceptsUpTo180(m);
  }

  /** Just past the top is out of range, not malformed. */
  lemma ParseRejectsPastTop()
    ensures ParseSetAngle("SET_ANGLE:180.5") == Rejected(RangeMessage)
  {
    DigitsValueExamples();
    KeywordExamples();
    var n := Numeral("180", true, "5");
    var m := SetAngleMatch("SET_ANGLE", "", "", n, false);
    assert NumeralText(n) == "180.5";
    assert NumeralValue(n) == 180.5;
    assert ArgumentText("", "", n, false) == ":180.5";
    assert MatchText(m) == "SET_ANGLE:180.5";
    ParseAcceptsUpTo180(m);
  }

  /** `normalize_command` (lines 141-151): strip, then upper-case. */
  function Normalize(cmd: string): string {
    Upper(Strip(cmd))
  }

  /** Normalising twice is normalising once. */
  lemma NormalizeIdempotent(cmd: string)
    ensures Normalize(Normalize(cmd)) == Normalize(cmd)
  {
    var s := Strip(cmd);
    var u := Upper(s);
    StripEnds(cmd);
    if s != [] {
      UpperKeepsSpace(s[0]);
      UpperKeepsSpace(s[|s| - 1]);
    }
    StripOfTrimmed(u);
    UpperIdempotent(s);
  }

  /** The characters the pattern `^[A-Z0-9_:\.]+$` admits. */
  predicate CommandChar(c: char) {
    'A' <= c <= 'Z' || IsDigit(c) || c == '_' || c == ':' || c == '.'
  }

  /**
    `is_valid_command` (lines 154-169): a command is valid exactly when its
    normalised form is non-empty and uses only `A-Z 0-9 _ : .`.
   */
  function IsValidCommand(cmd: string): (ok: bool)
    ensures ok ==> Normalize(cmd) != []
    ensures AllSpace(cmd) ==> !ok
    ensures ok <==> Normalize(cmd) != [] && forall i :: 0 <= i < |Normalize(cmd)| ==> CommandChar(Normalize(cmd)[i])
  {
    StripEmpty(cmd);
    if Strip(cmd) == [] then false
    else
      var n := Normalize(cmd);
      forall i :: 0 <= i < |n| ==> CommandChar(n[i])
  }

  /**
    Validity does not depend on case or surrounding whitespace: a command is
    valid exactly when its normalised form is. The second clause repeats the
    characterisation `IsValidCommand` itself ensures.
   */
  lemma IsValidCommandNormalized(cmd: string)
    ensures IsValidCommand(cmd) <==> IsValidCommand(Normalize(cmd))
    ensures IsValidCommand(cmd) <==>
      Normalize(cmd) != [] && forall i :: 0 <= i < |Normalize(cmd)| ==> CommandChar(Normalize(cmd)[i])
  {
    NormalizeIdempotent(cmd);
    var n := Normalize(cmd);
    var s := Strip(cmd);
    assert |n| == |s|;
    var s2 := Strip(n);
    assert Upper(s2) == n;
    assert |s2| == |n|;
  }

  predicate IsFlightFile(name: string) {
    EndsWith(name, ".json") || EndsWith(name, ".txt")
  }

  function FilterFlightFiles(names: seq<string>): (r: seq<string>)
    ensures forall x :: x in r <==> x in names && IsFlightFile(x)
    ensures forall k :: 0 <= k < |r| ==> IsFlightFile(r[k])
  {
    if names == [] then []
    else (if IsFlightFile(names[0]) then [names[0]] else []) + FilterFlightFiles(names[1..])
  }

  /**
    `list_flight_files` after the directory has been read (lines 183-190):
    `None` stands for a missing directory or a listing that raised. The
    result is exactly the `.json` and `.txt` names, each as often as listed,
    in Python's string order.
   */
  function ListFlightFiles(listing: Option<seq<string>>): (r: seq<string>)
    ensures listing.None? ==> r == []
    ensures listing.Some? ==> multiset(r) == multiset(FilterFlightFiles(listing.value))
    ensures forall x :: x in r <==> listing.Some? && x in listing.value && IsFlightFile(x)
    ensures Sorting.Sorted(r)
  {
    match listing
    case None => []
    case Some(names) =>
      var fs := FilterFlightFiles(names);
      var r := Sorting.Sort(fs);
      assert forall x :: x in r <==> x in multiset(r);
      assert forall x :: x in fs <==> x in multiset(fs);
      r
  }
}
