/** The password-strength rule of the account page.

    The password control carries the pattern
      `^(?=.*[0-9])(?=.*[a-z])(?=.*[A-Z])(?=.*[\W_])(?!.* ).{8,}$`
    (no flags), and five live indicators re-test the password on every change.
    A JavaScript string is a sequence of UTF-16 code units, and a regular
    expression without the `u` flag matches code unit by code unit: a
    character outside the Basic Multilingual Plane counts as two, a surrogate
    pair.  The expressions are modelled by their ECMAScript meaning on code
    units: `.` matches any unit except a line terminator, `^` and `$` anchor at
    the ends of the whole string, and `\W` is any unit outside `[A-Za-z0-9_]`. */
module PasswordRules {

  /** One UTF-16 code unit. */
  newtype CodeUnit = x: int | 0 <= x < 0x1_0000

  /** A JavaScript string value. */
  type JsString = seq<CodeUnit>

  /** The code units of one character: itself inside the Basic Multilingual
      Plane, otherwise a high surrogate followed by a low surrogate. */
  function EncodeChar(c: char): (u: JsString)
    ensures 1 <= |u| <= 2
    ensures |u| == 1 <==> (c as int) < 0x1_0000
    ensures |u| == 1 ==> u[0] as int == c as int
    ensures |u| == 2 ==> 0xD800 <= u[0] as int < 0xDC00 && 0xDC00 <= u[1] as int < 0xE000
    ensures |u| == 2 ==> 0x1_0000 + (u[0] as int - 0xD800) * 0x400 + (u[1] as int - 0xDC00) == c as int
  {
    var cp := c as int;
    if cp < 0x1_0000 then [cp as CodeUnit]
    else [(0xD800 + (cp - 0x1_0000) / 0x400) as CodeUnit, (0xDC00 + (cp - 0x1_0000) % 0x400) as CodeUnit]
  }

  /** The JavaScript string holding the characters of `s`. */
  function Utf16(s: string): (u: JsString)
    ensures |u| >= |s|
    decreases |s|
  {
    if |s| == 0 then [] else EncodeChar(s[0]) + Utf16(s[1..])
  }

  /** The code unit of an ASCII character. */
  function Ascii(c: char): CodeUnit
    requires (c as int) < 0x80
  {
    c as int as CodeUnit
  }

  /** The units `.` does not match. */
  predicate IsLineTerminator(u: CodeUnit) {
    u == Ascii('\n') || u == Ascii('\r') || u == 0x2028 || u == 0x2029
  }

  /** The bracket classes used by the pattern and the indicators. */
  datatype CharClass = Digit | Lower | Upper | Special | Space

  predicate InClass(u: CodeUnit, k: CharClass) {
    match k
    case Digit => Ascii('0') <= u <= Ascii('9')
    case Lower => Ascii('a') <= u <= Ascii('z')
    case Upper => Ascii('A') <= u <= Ascii('Z')
    // `[\W_]`: a non-word unit or the underscore, i.e. anything but an ASCII letter or digit
    case Special => !(Ascii('0') <= u <= Ascii('9') || Ascii('a') <= u <= Ascii('z') || Ascii('A') <= u <= Ascii('Z'))
    case Space => u == Ascii(' ')
  }

  /** `.*` matches the whole of `s`. */
  predicate AllDots(s: JsString) {
    forall i :: 0 <= i < |s| ==> !IsLineTerminator(s[i])
  }

  /** `(?=.*[k])` at the start of the input: a run of `.` reaches a unit of class `k`. */
  predicate LookaheadFinds(s: JsString, k: CharClass) {
    exists i :: 0 <= i < |s| && InClass(s[i], k) && AllDots(s[..i])
  }

  /** `^.{n,}$`: the whole input is at least `n` units that `.` matches. */
  predicate DotsToEnd(s: JsString, n: nat) {
    |s| >= n && AllDots(s)
  }

  /** The password pattern, lookahead by lookahead. */
  predicate MatchesPattern(s: JsString) {
    && LookaheadFinds(s, Digit)
    && LookaheadFinds(s, Lower)
    && LookaheadFinds(s, Upper)
    && LookaheadFinds(s, Special)
    && !LookaheadFinds(s, Space)
    && DotsToEnd(s, 8)
  }

  /** An unanchored single-class test such as `/[a-z]/.test(s)`. */
  predicate Contains(s: JsString, k: CharClass) {
    exists i :: 0 <= i < |s| && InClass(s[i], k)
  }

  /** The five live indicator flags. */
  datatype Indicators = Indicators(
    hasLowerCase: bool,
    hasUpperCase: bool,
    hasOneNumber: bool,
    hasOneSpecial: bool,
    hasMinCharacteres: bool)

  /** The flags the value-change handler sets for password `p`: one test per
      class, and `^.{8,}$` for the length. */
  function IndicatorsOf(p: JsString): (ind: Indicators)
    ensures ind.hasLowerCase <==> exists i :: 0 <= i < |p| && Ascii('a') <= p[i] <= Ascii('z')
    ensures ind.hasUpperCase <==> exists i :: 0 <= i < |p| && Ascii('A') <= p[i] <= Ascii('Z')
    ensures ind.hasOneNumber <==> exists i :: 0 <= i < |p| && Ascii('0') <= p[i] <= Ascii('9')
    ensures ind.hasMinCharacteres <==> |p| >= 8 && forall i :: 0 <= i < |p| ==> !IsLineTerminator(p[i])
    ensures ind.hasOneSpecial <==> exists i :: 0 <= i < |p| && !(Ascii('0') <= p[i] <= Ascii('9') || Ascii('a') <= p[i] <= Ascii('z') || Ascii('A') <= p[i] <= Ascii('Z'))
  {
    Indicators(Contains(p, Lower), Contains(p, Upper), Contains(p, Digit), Contains(p, Special), DotsToEnd(p, 8))
  }

  predicate AllIndicatorsOn(ind: Indicators) {
    ind.hasLowerCase && ind.hasUpperCase && ind.hasOneNumber && ind.hasOneSpecial && ind.hasMinCharacteres
  }

  /** On an input that `.` matches throughout, each lookahead is a plain containment test. */
  lemma LookaheadIsContainment(s: JsString, k: CharClass)
    requires AllDots(s)
    ensures LookaheadFinds(s, k) <==> Contains(s, k)
  {
    if Contains(s, k) {
      var i :| 0 <= i < |s| && InClass(s[i], k);
      assert AllDots(s[..i]);
    }
  }

  /** The pattern accepts exactly the passwords of at least eight code units,
      free of line terminators, with a digit, a lower-case letter, an upper-case
      letter and a unit that is not an ASCII letter or digit, and no space. */
  lemma PatternCharacterisation(s: JsString)
    ensures MatchesPattern(s) <==>
      && |s| >= 8
      && AllDots(s)
      && Contains(s, Digit)
      && Contains(s, Lower)
      && Contains(s, Upper)
      && Contains(s, Special)
      && !Contains(s, Space)
  {
    if AllDots(s) {
      LookaheadIsContainment(s, Digit);
      LookaheadIsContainment(s, Lower);
      LookaheadIsContainment(s, Upper);
      LookaheadIsContainment(s, Special);
      LookaheadIsContainment(s, Space);
    }
  }

  /** The pattern holds exactly when all five indicators are on and the
      password has no space; `hasMinCharacteres` already rules out line
      terminators, so this holds for every input. */
  lemma PatternIffIndicators(p: JsString)
    ensures MatchesPattern(p) <==> AllIndicatorsOn(IndicatorsOf(p)) && !Contains(p, Space)
  {
    PatternCharacterisation(p);
  }

  /** `Validators.pattern` leaves an empty value to `Validators.required` and
      otherwise reports a "pattern" error when the expression does not match. */
  predicate PatternValidatorAccepts(p: JsString) {
    p == [] || MatchesPattern(p)
  }

  /** A password made of ASCII characters is as many code units long as it is characters. */
  lemma {:induction false} AsciiLength(s: string)
    requires forall i :: 0 <= i < |s| ==> (s[i] as int) < 0x80
    ensures |Utf16(s)| == |s|
    ensures forall i :: 0 <= i < |s| ==> Utf16(s)[i] == Ascii(s[i])
    decreases |s|
  {
    if |s| > 0 {
      var rest := s[1..];
      assert forall i :: 0 <= i < |rest| ==> rest[i] == s[i + 1];
      AsciiLength(rest);
    }
  }

  /** A sample password with every required kind of character is accepted. */
  lemma StrongPasswordExample()
    ensures MatchesPattern(Utf16("Passw0rd!"))
  {
    var strong := Utf16("Passw0rd!");
    AsciiLength("Passw0rd!");
    assert AllDots(strong) by {
      forall i | 0 <= i < |strong| ensures !IsLineTerminator(strong[i]) {}
    }
    assert !Contains(strong, Space) by {
      forall i | 0 <= i < |strong| ensures !InClass(strong[i], Space) {}
    }
    assert InClass(strong[5], Digit);
    assert InClass(strong[1], Lower);
    assert InClass(strong[0], Upper);
    assert InClass(strong[8], Special);
    PatternCharacterisation(strong);
  }

  /** Six characters, two of them outside the Basic Multilingual Plane, make
      eight code units and pass the length requirement. */
  lemma AstralPasswordExample()
    ensures |Utf16("Ab1!\U{1F600}\U{1F600}")| == 8
    ensures MatchesPattern(Utf16("Ab1!\U{1F600}\U{1F600}"))
  {
    var s := "Ab1!\U{1F600}\U{1F600}";
    var emoji := EncodeChar('\U{1F600}');
    assert emoji == [0xD83D, 0xDE00];
    assert Utf16(s[5..]) == emoji;
    assert Utf16(s[4..]) == emoji + emoji;
    AsciiLength(s[..4]);
    assert Utf16(s) == [Ascii('A'), Ascii('b'), Ascii('1'), Ascii('!')] + Utf16(s[4..]) by {
      assert s[1..][1..][1..][1..] == s[4..];
    }
    var u := Utf16(s);
    assert u == [Ascii('A'), Ascii('b'), Ascii('1'), Ascii('!'), 0xD83D, 0xDE00, 0xD83D, 0xDE00];
    assert AllDots(u) by {
      forall i | 0 <= i < |u| ensures !IsLineTerminator(u[i]) {}
    }
    assert !Contains(u, Space) by {
      forall i | 0 <= i < |u| ensures !InClass(u[i], Space) {}
    }
    assert InClass(u[2], Digit);
    assert InClass(u[1], Lower);
    assert InClass(u[0], Upper);
    assert InClass(u[3], Special);
    PatternCharacterisation(u);
  }
}
