/** The account field validators and the input sanitizer (apps/api/src/utils/ValidationUtils.ts).
    Every validator answers a verdict: valid with an empty message, or invalid with the first
    rule the input breaks. */
module ValidationUtils {
  import JsValues

  datatype Verdict = Verdict(isValid: bool, message: string)

  const Accepted := Verdict(true, "")

  function Invalid(message: string): Verdict {
    Verdict(false, message)
  }

  predicate AsciiLetter(c: char) {
    ('a' <= c <= 'z') || ('A' <= c <= 'Z')
  }

  predicate AsciiDigit(c: char) {
    '0' <= c <= '9'
  }

  /** The `i` flag of a regular expression: letters compare without case. Only ASCII letters
      fold here, which is exact for the passwords these patterns are applied to (they are
      ASCII by then) and for the ASCII words of the sanitizer. */
  function LowerChar(c: char): char {
    if 'A' <= c <= 'Z' then (c as int + 32) as char else c
  }

  function Lower(s: string): (r: string)
    ensures |r| == |s|
    ensures forall i :: 0 <= i < |s| ==> r[i] == LowerChar(s[i])
  {
    seq(|s|, i requires 0 <= i < |s| => LowerChar(s[i]))
  }

  /** `t` occurs in `s` at `i`, ignoring case (`t` is written in lower case). */
  predicate MatchAtCI(s: string, t: string, i: int) {
    0 <= i && i + |t| <= |s| && Lower(s[i..i + |t|]) == t
  }

  predicate ContainsCI(s: string, t: string) {
    exists i :: 0 <= i <= |s| - |t| && MatchAtCI(s, t, i)
  }

  // ---------------------------------------------------------------- usernames

  const UsernameMinLength := 3
  const UsernameMaxLength := 30

  const UsernameRequired := "Username is required"
  const UsernameLength := "Username must be between 3 and 30 characters"
  const UsernameCharacters :=
    "Username must start with a letter and can only contain letters, numbers, underscores, and hyphens"

  predicate UsernameChar(c: char) {
    AsciiLetter(c) || AsciiDigit(c) || c == '_' || c == '-'
  }

  /** `/^[a-zA-Z][a-zA-Z0-9_-]{2,29}$/`. */
  predicate UsernamePattern(u: string) {
    && 3 <= |u| <= 30
    && AsciiLetter(u[0])
    && forall i :: 1 <= i < |u| ==> UsernameChar(u[i])
  }

  /** `validateUsername`: required, then the length bounds, then the pattern. A username is
      accepted exactly when the pattern matches; the length check only chooses the message. */
  function ValidateUsername(u: string): (r: Verdict)
    ensures r.isValid <==> UsernamePattern(u)
    ensures r.isValid ==> r.message == ""
    ensures u == "" ==> r.message == UsernameRequired
    ensures u != "" && (|u| < UsernameMinLength || |u| > UsernameMaxLength) ==> r.message == UsernameLength
    ensures UsernameMinLength <= |u| <= UsernameMaxLength && !UsernamePattern(u) ==>
      r.message == UsernameCharacters
  {
    if u == "" then Invalid(UsernameRequired)
    else if |u| < UsernameMinLength || |u| > UsernameMaxLength then Invalid(UsernameLength)
    else if !UsernamePattern(u) then Invalid(UsernameCharacters)
    else Accepted
  }

  // ---------------------------------------------------------------- passwords

  const PasswordMinLength := 12

  const PasswordRequired := "Password is required"
  const PasswordLength := "Password must be at least 12 characters long"
  const PasswordClasses :=
    "Password must contain at least one uppercase letter, one lowercase letter, one number, and one special character"
  const PasswordCommon := "Password contains common patterns that are not allowed"

  predicate PasswordSpecial(c: char) {
    c == '@' || c == '$' || c == '!' || c == '%' || c == '*' || c == '?' || c == '&'
  }

  predicate PasswordChar(c: char) {
    AsciiLetter(c) || AsciiDigit(c) || PasswordSpecial(c)
  }

  /** `PASSWORD_PATTERN`: a lower-case letter, an upper-case letter, a digit and a special
      character somewhere, nothing outside those classes, and at least 12 characters. */
  predicate PasswordPattern(pw: string) {
    && |pw| >= PasswordMinLength
    && (exists i :: 0 <= i < |pw| && 'a' <= pw[i] <= 'z')
    && (exists i :: 0 <= i < |pw| && 'A' <= pw[i] <= 'Z')
    && (exists i :: 0 <= i < |pw| && AsciiDigit(pw[i]))
    && (exists i :: 0 <= i < |pw| && PasswordSpecial(pw[i]))
    && forall i :: 0 <= i < |pw| ==> PasswordChar(pw[i])
  }

  /** One entry of `COMMON_PATTERNS`, as the regular expression engine reads it. Most entries
      are plain text. `/1qaz$rfv/i` and `/1qaz^yhn/i` put an end- or start-of-input anchor
      between two pieces of text, so nothing matches them; `/1qaz*ik/i` repeats the `z`, so it
      stands for "1qa", any number of "z", then "ik". */
  datatype CommonPattern =
    | Text(text: string)
    | Unmatchable(text: string)
    | Repeat(prefix: string, repeated: char, suffix: string)

  /** `prefix`, `n` copies of `c`, then `suffix`, at `i` of `s`, ignoring case. */
  predicate RepeatAt(s: string, prefix: string, c: char, suffix: string, i: int, n: nat) {
    && MatchAtCI(s, prefix, i)
    && i + |prefix| + n + |suffix| <= |s|
    && (forall m :: i + |prefix| <= m < i + |prefix| + n ==> LowerChar(s[m]) == c)
    && MatchAtCI(s, suffix, i + |prefix| + n)
  }

  /** `pattern.test(s)`. */
  predicate Matches(p: CommonPattern, s: string) {
    match p
    case Text(t) => ContainsCI(s, t)
    case Unmatchable(_) => false
    case Repeat(prefix, c, suffix) =>
      exists i, n: nat :: 0 <= i <= |s| && n <= |s| && RepeatAt(s, prefix, c, suffix, i, n)
  }

  /** The text an entry was evidently meant to forbid: the characters as written. */
  function PatternText(p: CommonPattern): (t: string)
    ensures p.Text? || p.Unmatchable? ==> t == p.text
    ensures p.Repeat? ==> t == p.prefix + [p.repeated, '*'] + p.suffix
  {
    match p
    case Text(t) => t
    case Unmatchable(t) => t
    case Repeat(prefix, c, suffix) => prefix + [c, '*'] + suffix
  }

  /** No entry of `ps` matches `s`. */
  predicate NoEntryMatches(ps: seq<CommonPattern>, s: string) {
    forall k :: 0 <= k < |ps| ==> !Matches(ps[k], s)
  }

  lemma NoEntryMatchesAppend(a: seq<CommonPattern>, b: seq<CommonPattern>, s: string)
    requires NoEntryMatches(a, s) && NoEntryMatches(b, s)
    ensures NoEntryMatches(a + b, s)
  {
  }

  /** Some entry of `COMMON_PATTERNS` matches, as written. */
  predicate AnyCommonAsWritten(pw: string) {
    exists k :: 0 <= k < |CommonPatterns()| && Matches(CommonPatterns()[k], pw)
  }

  /** Some entry's text occurs in the password, ignoring case. */
  predicate AnyCommonText(pw: string) {
    exists k :: 0 <= k < |CommonPatterns()| && ContainsCI(pw, PatternText(CommonPatterns()[k]))
  }

  /** The rules of `validatePassword` in order, given whether a common pattern was found. */
  function PasswordRules(pw: string, common: bool): (r: Verdict)
    ensures r.isValid <==> PasswordPattern(pw) && !common
    ensures r.isValid ==> r.message == ""
    ensures pw == "" ==> r.message == PasswordRequired
    ensures pw != "" && |pw| < PasswordMinLength ==> r.message == PasswordLength
    ensures |pw| >= PasswordMinLength && !PasswordPattern(pw) ==> r.message == PasswordClasses
    ensures PasswordPattern(pw) && common ==> r.message == PasswordCommon
  {
    if pw == "" then Invalid(PasswordRequired)
    else if |pw| < PasswordMinLength then Invalid(PasswordLength)
    else if !PasswordPattern(pw) then Invalid(PasswordClasses)
    else if common then Invalid(PasswordCommon)
    else Accepted
  }

  /** `validatePassword`, with the pattern list as the regular expression engine reads it. */
  function ValidatePassword(pw: string): (r: Verdict)
    ensures r.isValid <==> PasswordPattern(pw) && !AnyCommonAsWritten(pw)
    ensures PasswordPattern(pw) && AnyCommonAsWritten(pw) ==> r.message == PasswordCommon
  {
    PasswordRules(pw, AnyCommonAsWritten(pw))
  }

  /** `validatePassword` with every entry forbidding its own text. */
  function ValidatePasswordIntended(pw: string): (r: Verdict)
    ensures r.isValid <==> PasswordPattern(pw) && !AnyCommonText(pw)
    ensures PasswordPattern(pw) && AnyCommonText(pw) ==> r.message == PasswordCommon
  {
    PasswordRules(pw, AnyCommonText(pw))
  }

  /** A password that contains any listed text, in any case, is refused by the corrected
      check. */
  lemma IntendedRefusesEveryListedText(pw: string, k: int)
    requires 0 <= k < |CommonPatterns()|
    requires ContainsCI(pw, PatternText(CommonPatterns()[k]))
    ensures !ValidatePasswordIntended(pw).isValid
    ensures PasswordPattern(pw) ==> ValidatePasswordIntended(pw).message == PasswordCommon
  {
  }

  /** On the plain-text entries the two readings agree. */
  lemma PlainEntriesAgree(p: CommonPattern, s: string)
    requires p.Text?
    ensures Matches(p, s) <==> ContainsCI(s, PatternText(p))
  {
  }

  /** The two entries with an anchor after text (lines 85 and 87) refuse nothing, whatever the
      password. */
  lemma AnchoredEntryNeverMatches(s: string)
    ensures CommonPatterns()[70] == Unmatchable("1qaz$rfv")
    ensures CommonPatterns()[72] == Unmatchable("1qaz^yhn")
    ensures !Matches(CommonPatterns()[70], s) && !Matches(CommonPatterns()[72], s)
  {
  }

  /** A password is never refused for being common unless it is long enough and of the right
      character classes first. */
  lemma CommonNeedsPattern(pw: string)
    requires ValidatePassword(pw).message == PasswordCommon
    ensures PasswordPattern(pw) && AnyCommonAsWritten(pw) && |pw| >= PasswordMinLength
  {
  }

  /** A match of `t` needs every character of `t` in the lowered password. */
  lemma AbsentByChar(s: string, t: string, c: char)
    requires c in t && c !in Lower(s)
    ensures !ContainsCI(s, t)
  {
    if i :| 0 <= i <= |s| - |t| && MatchAtCI(s, t, i) {
      var j :| 0 <= j < |t| && t[j] == c;
      assert Lower(s[i..i + |t|])[j] == LowerChar(s[i + j]) == Lower(s)[i + j];
    }
  }

  /** A match of `t` needs every pair of neighbours of `t` as neighbours in the lowered
      password. */
  lemma AbsentByPair(s: string, t: string, j: int)
    requires 0 <= j < |t| - 1
    requires forall m :: 0 <= m < |Lower(s)| - 1 ==> Lower(s)[m] != t[j] || Lower(s)[m + 1] != t[j + 1]
    ensures !ContainsCI(s, t)
  {
    if i :| 0 <= i <= |s| - |t| && MatchAtCI(s, t, i) {
      PairInLower(s, t, i, j);
    }
  }

  /** A match puts each pair of neighbours of `t` into the lowered password. */
  lemma PairInLower(s: string, t: string, i: int, j: int)
    requires MatchAtCI(s, t, i) && 0 <= j < |t| - 1
    ensures Lower(s)[i + j] == t[j] && Lower(s)[i + j + 1] == t[j + 1]
  {
    assert Lower(s[i..i + |t|])[j] == LowerChar(s[i + j]);
    assert Lower(s[i..i + |t|])[j + 1] == LowerChar(s[i + j + 1]);
  }

  /** `COMMON_PATTERNS`, in source order (lines 15-107, one entry per line), written in rows
      of ten. */
  function CommonPatterns(): (ps: seq<CommonPattern>)
    ensures |ps| == 93
  {
    CommonPatternsRow0() + CommonPatternsRow1() + CommonPatternsRow2() + CommonPatternsRow3() + CommonPatternsRow4() + CommonPatternsRow5() + CommonPatternsRow6() + CommonPatternsRow7() + CommonPatternsRow8() + CommonPatternsRow9()
  }


  /** Lines 15-24. */
  function CommonPatternsRow0(): (ps: seq<CommonPattern>)
    ensures |ps| == 10
  {
    [
      Text("password"),
      Text("123456"),
      Text("qwerty"),
      Text("admin"),
      Text("welcome"),
      Text("letmein"),
      Text("monkey"),
      Text("dragon"),
      Text("baseball"),
      Text("football")
    ]
  }

  /** Lines 25-34. */
  function CommonPatternsRow1(): (ps: seq<CommonPattern>)
    ensures |ps| == 10
  {
    [
      Text("shadow"),
      Text("master"),
      Text("hello"),
      Text("freedom"),
      Text("whatever"),
      Text("qazwsx"),
      Text("trustno1"),
      Text("654321"),
      Text("jordan23"),
      Text("harley")
    ]
  }

  /** Lines 35-44. */
  function CommonPatternsRow2(): (ps: seq<CommonPattern>)
    ensures |ps| == 10
  {
    [
      Text("hunter"),
      Text("ranger"),
      Text("buster"),
      Text("thomas"),
      Text("tigger"),
      Text("robert"),
      Text("soccer"),
      Text("batman"),
      Text("test123"),
      Text("passw0rd")
    ]
  }

  /** Lines 45-54. */
  function CommonPatternsRow3(): (ps: seq<CommonPattern>)
    ensures |ps| == 10
  {
    [
      Text("iloveyou"),
      Text("2000"),
      Text("1234"),
      Text("abc123"),
      Text("111111"),
      Text("123123"),
      Text("welcome1"),
      Text("login"),
      Text("admin123"),
      Text("qwerty123")
    ]
  }

  /** Lines 55-64. */
  function CommonPatternsRow4(): (ps: seq<CommonPattern>)
    ensures |ps| == 10
  {
    [
      Text("1q2w3e4r"),
      Text("555555"),
      Text("lovely"),
      Text("7777777"),
      Text("888888"),
      Text("princess"),
      Text("dragon"),
      Text("password1"),
      Text("solo"),
      Text("master")
    ]
  }

  /** Lines 65-74. */
  function CommonPatternsRow5(): (ps: seq<CommonPattern>)
    ensures |ps| == 10
  {
    [
      Text("666666"),
      Text("ashley"),
      Text("michael"),
      Text("qwertyuiop"),
      Text("123321"),
      Text("mustang"),
      Text("123456789"),
      Text("mynoob"),
      Text("123qwe"),
      Text("18atcskd2w")
    ]
  }

  /** Lines 75-84. */
  function CommonPatternsRow6(): (ps: seq<CommonPattern>)
    ensures |ps| == 10
  {
    [
      Text("3rjs1la7qe"),
      Text("1q2w3e4r5t"),
      Text("1qaz2wsx"),
      Text("1qaz2wsx3edc"),
      Text("zaq1zaq1"),
      Text("zaq1xsw2"),
      Text("xsw2zaq1"),
      Text("!qaz2wsx"),
      Text("1qaz@wsx"),
      Text("1qaz#edc")
    ]
  }

  /** Lines 85-94. */
  function CommonPatternsRow7(): (ps: seq<CommonPattern>)
    ensures |ps| == 10
  {
    [
      Unmatchable("1qaz$rfv"),
      Text("1qaz%tgb"),
      Unmatchable("1qaz^yhn"),
      Text("1qaz&ujm"),
      Repeat("1qa", 'z', "ik"),
      Text("1qaz(olp"),
      Text("1qaz)ikm"),
      Text("1qaz_olp"),
      Text("1qaz+ikm"),
      Text("1qaz-ikm")
    ]
  }

  /** Lines 95-104. */
  function CommonPatternsRow8(): (ps: seq<CommonPattern>)
    ensures |ps| == 10
  {
    [
      Text("1qaz=ikm"),
      Text("1qaz{olp"),
      Text("1qaz}ikm"),
      Text("1qaz|olp"),
      Text("1qaz\\ikm"),
      Text("1qaz:olp"),
      Text("1qaz\"ikm"),
      Text("1qaz<olp"),
      Text("1qaz>ikm"),
      Text("1qaz?olp")
    ]
  }

  /** Lines 105-107. */
  function CommonPatternsRow9(): (ps: seq<CommonPattern>)
    ensures |ps| == 3
  {
    [
      Text("1qaz/ikm"),
      Text("1qaz`olp"),
      Text("1qaz~ikm")
    ]
  }
  /** A `Repeat` entry whose suffix needs a character the lowered password lacks does not
      match. */
  lemma RepeatAbsent(s: string, prefix: string, c: char, suffix: string, d: char)
    requires d in suffix && d !in Lower(s)
    ensures !Matches(Repeat(prefix, c, suffix), s)
  {
    AbsentByChar(s, suffix, d);
  }

  /** Accepted as written, refused as intended: the anchored entry (line 85). */
  const AnchorWitness := "Zz1qaz$rfvZz"

  lemma LowerAnchorWitness()
    ensures Lower(AnchorWitness) == "zz1qaz$rfvzz"
  {
  }

  lemma AnchorWitnessPattern()
    ensures PasswordPattern(AnchorWitness)
  {
    assert 'a' <= AnchorWitness[1] <= 'z' && 'A' <= AnchorWitness[0] <= 'Z';
    assert AsciiDigit(AnchorWitness[2]) && PasswordSpecial(AnchorWitness[6]);
  }

  /** No entry matches the witness. The proof goes entry by entry, in one small lemma per entry
      grouped by rows of ten, because each entry needs its own absent character or pair and a
      single lemma over all 93 indices would unfold every entry's literal in one costly proof
      obligation. */
  lemma AnchorWitnessNoEntryMatches()
    ensures !AnyCommonAsWritten(AnchorWitness)
  {
    LowerAnchorWitness();
    AnchorWitnessMissesRow0();
    AnchorWitnessMissesRow1();
    AnchorWitnessMissesRow2();
    AnchorWitnessMissesRow3();
    AnchorWitnessMissesRow4();
    AnchorWitnessMissesRow5();
    AnchorWitnessMissesRow6();
    AnchorWitnessMissesRow7();
    AnchorWitnessMissesRow8();
    AnchorWitnessMissesRow9();
    NoEntryMatchesAppend(CommonPatternsRow0(), CommonPatternsRow1(), AnchorWitness);
    NoEntryMatchesAppend(CommonPatternsRow0() + CommonPatternsRow1(), CommonPatternsRow2(), AnchorWitness);
    NoEntryMatchesAppend(CommonPatternsRow0() + CommonPatternsRow1() + CommonPatternsRow2(), CommonPatternsRow3(), AnchorWitness);
    NoEntryMatchesAppend(CommonPatternsRow0() + CommonPatternsRow1() + CommonPatternsRow2() + CommonPatternsRow3(), CommonPatternsRow4(), AnchorWitness);
    NoEntryMatchesAppend(CommonPatternsRow0() + CommonPatternsRow1() + CommonPatternsRow2() + CommonPatternsRow3() + CommonPatternsRow4(), CommonPatternsRow5(), AnchorWitness);
    NoEntryMatchesAppend(CommonPatternsRow0() + CommonPatternsRow1() + CommonPatternsRow2() + CommonPatternsRow3() + CommonPatternsRow4() + CommonPatternsRow5(), CommonPatternsRow6(), AnchorWitness);
    NoEntryMatchesAppend(CommonPatternsRow0() + CommonPatternsRow1() + CommonPatternsRow2() + CommonPatternsRow3() + CommonPatternsRow4() + CommonPatternsRow5() + CommonPatternsRow6(), CommonPatternsRow7(), AnchorWitness);
    NoEntryMatchesAppend(CommonPatternsRow0() + CommonPatternsRow1() + CommonPatternsRow2() + CommonPatternsRow3() + CommonPatternsRow4() + CommonPatternsRow5() + CommonPatternsRow6() + CommonPatternsRow7(), CommonPatternsRow8(), AnchorWitness);
    NoEntryMatchesAppend(CommonPatternsRow0() + CommonPatternsRow1() + CommonPatternsRow2() + CommonPatternsRow3() + CommonPatternsRow4() + CommonPatternsRow5() + CommonPatternsRow6() + CommonPatternsRow7() + CommonPatternsRow8(), CommonPatternsRow9(), AnchorWitness);
  }

  lemma AnchorWitnessMissesRow0()
    ensures NoEntryMatches(CommonPatternsRow0(), AnchorWitness)
  {
    forall k | 0 <= k < 10
      ensures !Matches(CommonPatternsRow0()[k], AnchorWitness)
    {
      if k == 0 {
        AnchorWitnessMisses0();
      } else if k == 1 {
        AnchorWitnessMisses1();
      } else if k == 2 {
        AnchorWitnessMisses2();
      } else if k == 3 {
        AnchorWitnessMisses3();
      } else if k == 4 {
        AnchorWitnessMisses4();
      } else if k == 5 {
        AnchorWitnessMisses5();
      } else if k == 6 {
        AnchorWitnessMisses6();
      } else if k == 7 {
        AnchorWitnessMisses7();
      } else if k == 8 {
        AnchorWitnessMisses8();
      } else if k == 9 {
        AnchorWitnessMisses9();
      }
    }
  }

  lemma AnchorWitnessMisses0()
    ensures !Matches(CommonPatternsRow0()[0], AnchorWitness)
  {
    LowerAnchorWitness();
    AbsentByChar(AnchorWitness, "password", 'p');
  }

  lemma AnchorWitnessMisses1()
    ensures !Matches(CommonPatternsRow0()[1], AnchorWitness)
  {
    LowerAnchorWitness();
    AbsentByChar(AnchorWitness, "123456", '2');
  }

  lemma AnchorWitnessMisses2()
    ensures !Matches(CommonPatternsRow0()[2], AnchorWitness)
  {
    LowerAnchorWitness();
    AbsentByChar(AnchorWitness, "qwerty", 'w');
  }

  lemma AnchorWitnessMisses3()
    ensures !Matches(CommonPatternsRow0()[3], AnchorWitness)
  {
    LowerAnchorWitness();
    AbsentByChar(AnchorWitness, "admin", 'd');
  }

  lemma AnchorWitnessMisses4()
    ensures !Matches(CommonPatternsRow0()[4], AnchorWitness)
  {
    LowerAnchorWitness();
    AbsentByChar(AnchorWitness, "welcome", 'w');
  }

  lemma AnchorWitnessMisses5()
    ensures !Matches(CommonPatternsRow0()[5], AnchorWitness)
  {
    LowerAnchorWitness();
    AbsentByChar(AnchorWitness, "letmein", 'l');
  }

  lemma AnchorWitnessMisses6()
    ensures !Matches(CommonPatternsRow0()[6], AnchorWitness)
  {
    LowerAnchorWitness();
    AbsentByChar(AnchorWitness, "monkey", 'm');
  }

  lemma AnchorWitnessMisses7()
    ensures !Matches(CommonPatternsRow0()[7], AnchorWitness)
  {
    LowerAnchorWitness();
    AbsentByChar(AnchorWitness, "dragon", 'd');
  }

  lemma AnchorWitnessMisses8()
    ensures !Matches(CommonPatternsRow0()[8], AnchorWitness)
  {
    LowerAnchorWitness();
    AbsentByChar(AnchorWitness, "baseball", 'b');
  }

  lemma AnchorWitnessMisses9()
    ensures !Matches(CommonPatternsRow0()[9], AnchorWitness)
  {
    LowerAnchorWitness();
    AbsentByChar(AnchorWitness, "football", 'o');
  }

  lemma AnchorWitnessMissesRow1()
    ensures NoEntryMatches(CommonPatternsRow1(), AnchorWitness)
  {
    forall k | 0 <= k < 10
      ensures !Matches(CommonPatternsRow1()[k], AnchorWitness)
    {
      if k == 0 {
        AnchorWitnessMisses10();
      } else if k == 1 {
        AnchorWitnessMisses11();
      } else if k == 2 {
        AnchorWitnessMisses12();
      } else if k == 3 {
        AnchorWitnessMisses13();
      } else if k == 4 {
        AnchorWitnessMisses14();
      } else if k == 5 {
        AnchorWitnessMisses15();
      } else if k == 6 {
        AnchorWitnessMisses16();
      } else if k == 7 {
        AnchorWitnessMisses17();
      } else if k == 8 {
        AnchorWitnessMisses18();
      } else if k == 9 {
        AnchorWitnessMisses19();
      }
    }
  }

  lemma AnchorWitnessMisses10()
    ensures !Matches(CommonPatternsRow1()[0], AnchorWitness)
  {
    LowerAnchorWitness();
    AbsentByChar(AnchorWitness, "shadow", 's');
  }

  lemma AnchorWitnessMisses11()
    ensures !Matches(CommonPatternsRow1()[1], AnchorWitness)
  {
    LowerAnchorWitness();
    AbsentByChar(AnchorWitness, "master", 'm');
  }

  lemma AnchorWitnessMisses12()
    ensures !Matches(CommonPatternsRow1()[2], AnchorWitness)
  {
    LowerAnchorWitness();
    AbsentByChar(AnchorWitness, "hello", 'h');
  }

  lemma AnchorWitnessMisses13()
    ensures !Matches(CommonPatternsRow1()[3], AnchorWitness)
  {
    LowerAnchorWitness();
    AbsentByChar(AnchorWitness, "freedom", 'e');
  }

  lemma AnchorWitnessMisses14()
    ensures !Matches(CommonPatternsRow1()[4], AnchorWitness)
  {
    LowerAnchorWitness();
    AbsentByChar(AnchorWitness, "whatever", 'w');
  }

  lemma AnchorWitnessMisses15()
    ensures !Matches(CommonPatternsRow1()[5], AnchorWitness)
  {
    LowerAnchorWitness();
    AbsentByChar(AnchorWitness, "qazwsx", 'w');
  }

  lemma AnchorWitnessMisses16()
    ensures !Matches(CommonPatternsRow1()[6], AnchorWitness)
  {
    LowerAnchorWitness();
    AbsentByChar(AnchorWitness, "trustno1", 't');
  }

  lemma AnchorWitnessMisses17()
    ensures !Matches(CommonPatternsRow1()[7], AnchorWitness)
  {
    LowerAnchorWitness();
    AbsentByChar(AnchorWitness, "654321", '6');
  }

  lemma AnchorWitnessMisses18()
    ensures !Matches(CommonPatternsRow1()[8], AnchorWitness)
  {
    LowerAnchorWitness();
    AbsentByChar(AnchorWitness, "jordan23", 'j');
  }

  lemma AnchorWitnessMisses19()
    ensures !Matches(CommonPatternsRow1()[9], AnchorWitness)
  {
    LowerAnchorWitness();
    AbsentByChar(AnchorWitness, "harley", 'h');
  }

  lemma AnchorWitnessMissesRow2()
    ensures NoEntryMatches(CommonPatternsRow2(), AnchorWitness)
  {
    forall k | 0 <= k < 10
      ensures !Matches(CommonPatternsRow2()[k], AnchorWitness)
    {
      if k == 0 {
        AnchorWitnessMisses20();
      } else if k == 1 {
        AnchorWitnessMisses21();
      } else if k == 2 {
        AnchorWitnessMisses22();
      } else if k == 3 {
        AnchorWitnessMisses23();
      } else if k == 4 {
        AnchorWitnessMisses24();
      } else if k == 5 {
        AnchorWitnessMisses25();
      } else if k == 6 {
        AnchorWitnessMisses26();
      } else if k == 7 {
        AnchorWitnessMisses27();
      } else if k == 8 {
        AnchorWitnessMisses28();
      } else if k == 9 {
        AnchorWitnessMisses29();
      }
    }
  }

  lemma AnchorWitnessMisses20()
    ensures !Matches(CommonPatternsRow2()[0], AnchorWitness)
  {
    LowerAnchorWitness();
    AbsentByChar(AnchorWitness, "hunter", 'h');
  }

  lemma AnchorWitnessMisses21()
    ensures !Matches(CommonPatternsRow2()[1], AnchorWitness)
  {
    LowerAnchorWitness();
    AbsentByChar(AnchorWitness, "ranger", 'n');
  }

  lemma AnchorWitnessMisses22()
    ensures !Matches(CommonPatternsRow2()[2], AnchorWitness)
  {
    LowerAnchorWitness();
    AbsentByChar(AnchorWitness, "buster", 'b');
  }

  lemma AnchorWitnessMisses23()
    ensures !Matches(CommonPatternsRow2()[3], AnchorWitness)
  {
    LowerAnchorWitness();
    AbsentByChar(AnchorWitness, "thomas", 't');
  }

  lemma AnchorWitnessMisses24()
    ensures !Matches(CommonPatternsRow2()[4], AnchorWitness)
  {
    LowerAnchorWitness();
    AbsentByChar(AnchorWitness, "tigger", 't');
  }

  lemma AnchorWitnessMisses25()
    ensures !Matches(CommonPatternsRow2()[5], AnchorWitness)
  {
    LowerAnchorWitness();
    AbsentByChar(AnchorWitness, "robert", 'o');
  }

  lemma AnchorWitnessMisses26()
    ensures !Matches(CommonPatternsRow2()[6], AnchorWitness)
  {
    LowerAnchorWitness();
    AbsentByChar(AnchorWitness, "soccer", 's');
  }

  lemma AnchorWitnessMisses27()
    ensures !Matches(CommonPatternsRow2()[7], AnchorWitness)
  {
    LowerAnchorWitness();
    AbsentByChar(AnchorWitness, "batman", 'b');
  }

  lemma AnchorWitnessMisses28()
    ensures !Matches(CommonPatternsRow2()[8], AnchorWitness)
  {
    LowerAnchorWitness();
    AbsentByChar(AnchorWitness, "test123", 't');
  }

  lemma AnchorWitnessMisses29()
    ensures !Matches(CommonPatternsRow2()[9], AnchorWitness)
  {
    LowerAnchorWitness();
    AbsentByChar(AnchorWitness, "passw0rd", 'p');
  }

  lemma AnchorWitnessMissesRow3()
    ensures NoEntryMatches(CommonPatternsRow3(), AnchorWitness)
  {
    forall k | 0 <= k < 10
      ensures !Matches(CommonPatternsRow3()[k], AnchorWitness)
    {
      if k == 0 {
        AnchorWitnessMisses30();
      } else if k == 1 {
        AnchorWitnessMisses31();
      } else if k == 2 {
        AnchorWitnessMisses32();
      } else if k == 3 {
        AnchorWitnessMisses33();
      } else if k == 4 {
        AnchorWitnessMisses34();
      } else if k == 5 {
        AnchorWitnessMisses35();
      } else if k == 6 {
        AnchorWitnessMisses36();
      } else if k == 7 {
        AnchorWitnessMisses37();
      } else if k == 8 {
        AnchorWitnessMisses38();
      } else if k == 9 {
        AnchorWitnessMisses39();
      }
    }
  }

  lemma AnchorWitnessMisses30()
    ensures !Matches(CommonPatternsRow3()[0], AnchorWitness)
  {
    LowerAnchorWitness();
    AbsentByChar(AnchorWitness, "iloveyou", 'i');
  }

  lemma AnchorWitnessMisses31()
    ensures !Matches(CommonPatternsRow3()[1], AnchorWitness)
  {
    LowerAnchorWitness();
    AbsentByChar(AnchorWitness, "2000", '2');
  }

  lemma AnchorWitnessMisses32()
    ensures !Matches(CommonPatternsRow3()[2], AnchorWitness)
  {
    LowerAnchorWitness();
    AbsentByChar(AnchorWitness, "1234", '2');
  }

  lemma AnchorWitnessMisses33()
    ensures !Matches(CommonPatternsRow3()[3], AnchorWitness)
  {
    LowerAnchorWitness();
    AbsentByChar(AnchorWitness, "abc123", 'b');
  }

  lemma AnchorWitnessMisses34()
    ensures !Matches(CommonPatternsRow3()[4], AnchorWitness)
  {
    LowerAnchorWitness();
    AbsentByPair(AnchorWitness, "111111", 0);
  }

  lemma AnchorWitnessMisses35()
    ensures !Matches(CommonPatternsRow3()[5], AnchorWitness)
  {
    LowerAnchorWitness();
    AbsentByChar(AnchorWitness, "123123", '2');
  }

  lemma AnchorWitnessMisses36()
    ensures !Matches(CommonPatternsRow3()[6], AnchorWitness)
  {
    LowerAnchorWitness();
    AbsentByChar(AnchorWitness, "welcome1", 'w');
  }

  lemma AnchorWitnessMisses37()
    ensures !Matches(CommonPatternsRow3()[7], AnchorWitness)
  {
    LowerAnchorWitness();
    AbsentByChar(AnchorWitness, "login", 'l');
  }

  lemma AnchorWitnessMisses38()
    ensures !Matches(CommonPatternsRow3()[8], AnchorWitness)
  {
    LowerAnchorWitness();
    AbsentByChar(AnchorWitness, "admin123", 'd');
  }

  lemma AnchorWitnessMisses39()
    ensures !Matches(CommonPatternsRow3()[9], AnchorWitness)
  {
    LowerAnchorWitness();
    AbsentByChar(AnchorWitness, "qwerty123", 'w');
  }

  lemma AnchorWitnessMissesRow4()
    ensures NoEntryMatches(CommonPatternsRow4(), AnchorWitness)
  {
    forall k | 0 <= k < 10
      ensures !Matches(CommonPatternsRow4()[k], AnchorWitness)
    {
      if k == 0 {
        AnchorWitnessMisses40();
      } else if k == 1 {
        AnchorWitnessMisses41();
      } else if k == 2 {
        AnchorWitnessMisses42();
      } else if k == 3 {
        AnchorWitnessMisses43();
      } else if k == 4 {
        AnchorWitnessMisses44();
      } else if k == 5 {
        AnchorWitnessMisses45();
      } else if k == 6 {
        AnchorWitnessMisses46();
      } else if k == 7 {
        AnchorWitnessMisses47();
      } else if k == 8 {
        AnchorWitnessMisses48();
      } else if k == 9 {
        AnchorWitnessMisses49();
      }
    }
  }

  lemma AnchorWitnessMisses40()
    ensures !Matches(CommonPatternsRow4()[0], AnchorWitness)
  {
    LowerAnchorWitness();
    AbsentByChar(AnchorWitness, "1q2w3e4r", '2');
  }

  lemma AnchorWitnessMisses41()
    ensures !Matches(CommonPatternsRow4()[1], AnchorWitness)
  {
    LowerAnchorWitness();
    AbsentByChar(AnchorWitness, "555555", '5');
  }

  lemma AnchorWitnessMisses42()
    ensures !Matches(CommonPatternsRow4()[2], AnchorWitness)
  {
    LowerAnchorWitness();
    AbsentByChar(AnchorWitness, "lovely", 'l');
  }

  lemma AnchorWitnessMisses43()
    ensures !Matches(CommonPatternsRow4()[3], AnchorWitness)
  {
    LowerAnchorWitness();
    AbsentByChar(AnchorWitness, "7777777", '7');
  }

  lemma AnchorWitnessMisses44()
    ensures !Matches(CommonPatternsRow4()[4], AnchorWitness)
  {
    LowerAnchorWitness();
    AbsentByChar(AnchorWitness, "888888", '8');
  }

  lemma AnchorWitnessMisses45()
    ensures !Matches(CommonPatternsRow4()[5], AnchorWitness)
  {
    LowerAnchorWitness();
    AbsentByChar(AnchorWitness, "princess", 'p');
  }

  lemma AnchorWitnessMisses46()
    ensures !Matches(CommonPatternsRow4()[6], AnchorWitness)
  {
    LowerAnchorWitness();
    AbsentByChar(AnchorWitness, "dragon", 'd');
  }

  lemma AnchorWitnessMisses47()
    ensures !Matches(CommonPatternsRow4()[7], AnchorWitness)
  {
    LowerAnchorWitness();
    AbsentByChar(AnchorWitness, "password1", 'p');
  }

  lemma AnchorWitnessMisses48()
    ensures !Matches(CommonPatternsRow4()[8], AnchorWitness)
  {
    LowerAnchorWitness();
    AbsentByChar(AnchorWitness, "solo", 's');
  }

  lemma AnchorWitnessMisses49()
    ensures !Matches(CommonPatternsRow4()[9], AnchorWitness)
  {
    LowerAnchorWitness();
    AbsentByChar(AnchorWitness, "master", 'm');
  }

  lemma AnchorWitnessMissesRow5()
    ensures NoEntryMatches(CommonPatternsRow5(), AnchorWitness)
  {
    forall k | 0 <= k < 10
      ensures !Matches(CommonPatternsRow5()[k], AnchorWitness)
    {
      if k == 0 {
        AnchorWitnessMisses50();
      } else if k == 1 {
        AnchorWitnessMisses51();
      } else if k == 2 {
        AnchorWitnessMisses52();
      } else if k == 3 {
        AnchorWitnessMisses53();
      } else if k == 4 {
        AnchorWitnessMisses54();
      } else if k == 5 {
        AnchorWitnessMisses55();
      } else if k == 6 {
        AnchorWitnessMisses56();
      } else if k == 7 {
        AnchorWitnessMisses57();
      } else if k == 8 {
        AnchorWitnessMisses58();
      } else if k == 9 {
        AnchorWitnessMisses59();
      }
    }
  }

  lemma AnchorWitnessMisses50()
    ensures !Matches(CommonPatternsRow5()[0], AnchorWitness)
  {
    LowerAnchorWitness();
    AbsentByChar(AnchorWitness, "666666", '6');
  }

  lemma AnchorWitnessMisses51()
    ensures !Matches(CommonPatternsRow5()[1], AnchorWitness)
  {
    LowerAnchorWitness();
    AbsentByChar(AnchorWitness, "ashley", 's');
  }

  lemma AnchorWitnessMisses52()
    ensures !Matches(CommonPatternsRow5()[2], AnchorWitness)
  {
    LowerAnchorWitness();
    AbsentByChar(AnchorWitness, "michael", 'm');
  }

  lemma AnchorWitnessMisses53()
    ensures !Matches(CommonPatternsRow5()[3], AnchorWitness)
  {
    LowerAnchorWitness();
    AbsentByChar(AnchorWitness, "qwertyuiop", 'w');
  }

  lemma AnchorWitnessMisses54()
    ensures !Matches(CommonPatternsRow5()[4], AnchorWitness)
  {
    LowerAnchorWitness();
    AbsentByChar(AnchorWitness, "123321", '2');
  }

  lemma AnchorWitnessMisses55()
    ensures !Matches(CommonPatternsRow5()[5], AnchorWitness)
  {
    LowerAnchorWitness();
    AbsentByChar(AnchorWitness, "mustang", 'm');
  }

  lemma AnchorWitnessMisses56()
    ensures !Matches(CommonPatternsRow5()[6], AnchorWitness)
  {
    LowerAnchorWitness();
    AbsentByChar(AnchorWitness, "123456789", '2');
  }

  lemma AnchorWitnessMisses57()
    ensures !Matches(CommonPatternsRow5()[7], AnchorWitness)
  {
    LowerAnchorWitness();
    AbsentByChar(AnchorWitness, "mynoob", 'm');
  }

  lemma AnchorWitnessMisses58()
    ensures !Matches(CommonPatternsRow5()[8], AnchorWitness)
  {
    LowerAnchorWitness();
    AbsentByChar(AnchorWitness, "123qwe", '2');
  }

  lemma AnchorWitnessMisses59()
    ensures !Matches(CommonPatternsRow5()[9], AnchorWitness)
  {
    LowerAnchorWitness();
    AbsentByChar(AnchorWitness, "18atcskd2w", '8');
  }

  lemma AnchorWitnessMissesRow6()
    ensures NoEntryMatches(CommonPatternsRow6(), AnchorWitness)
  {
    forall k | 0 <= k < 10
      ensures !Matches(CommonPatternsRow6()[k], AnchorWitness)
    {
      if k == 0 {
        AnchorWitnessMisses60();
      } else if k == 1 {
        AnchorWitnessMisses61();
      } else if k == 2 {
        AnchorWitnessMisses62();
      } else if k == 3 {
        AnchorWitnessMisses63();
      } else if k == 4 {
        AnchorWitnessMisses64();
      } else if k == 5 {
        AnchorWitnessMisses65();
      } else if k == 6 {
        AnchorWitnessMisses66();
      } else if k == 7 {
        AnchorWitnessMisses67();
      } else if k == 8 {
        AnchorWitnessMisses68();
      } else if k == 9 {
        AnchorWitnessMisses69();
      }
    }
  }

  lemma AnchorWitnessMisses60()
    ensures !Matches(CommonPatternsRow6()[0], AnchorWitness)
  {
    LowerAnchorWitness();
    AbsentByChar(AnchorWitness, "3rjs1la7qe", '3');
  }

  lemma AnchorWitnessMisses61()
    ensures !Matches(CommonPatternsRow6()[1], AnchorWitness)
  {
    LowerAnchorWitness();
    AbsentByChar(AnchorWitness, "1q2w3e4r5t", '2');
  }

  lemma AnchorWitnessMisses62()
    ensures !Matches(CommonPatternsRow6()[2], AnchorWitness)
  {
    LowerAnchorWitness();
    AbsentByChar(AnchorWitness, "1qaz2wsx", '2');
  }

  lemma AnchorWitnessMisses63()
    ensures !Matches(CommonPatternsRow6()[3], AnchorWitness)
  {
    LowerAnchorWitness();
    AbsentByChar(AnchorWitness, "1qaz2wsx3edc", '2');
  }

  lemma AnchorWitnessMisses64()
    ensures !Matches(CommonPatternsRow6()[4], AnchorWitness)
  {
    LowerAnchorWitness();
    AbsentByPair(AnchorWitness, "zaq1zaq1", 0);
  }

  lemma AnchorWitnessMisses65()
    ensures !Matches(CommonPatternsRow6()[5], AnchorWitness)
  {
    LowerAnchorWitness();
    AbsentByChar(AnchorWitness, "zaq1xsw2", 'x');
  }

  lemma AnchorWitnessMisses66()
    ensures !Matches(CommonPatternsRow6()[6], AnchorWitness)
  {
    LowerAnchorWitness();
    AbsentByChar(AnchorWitness, "xsw2zaq1", 'x');
  }

  lemma AnchorWitnessMisses67()
    ensures !Matches(CommonPatternsRow6()[7], AnchorWitness)
  {
    LowerAnchorWitness();
    AbsentByChar(AnchorWitness, "!qaz2wsx", '!');
  }

  lemma AnchorWitnessMisses68()
    ensures !Matches(CommonPatternsRow6()[8], AnchorWitness)
  {
    LowerAnchorWitness();
    AbsentByChar(AnchorWitness, "1qaz@wsx", '@');
  }

  lemma AnchorWitnessMisses69()
    ensures !Matches(CommonPatternsRow6()[9], AnchorWitness)
  {
    LowerAnchorWitness();
    AbsentByChar(AnchorWitness, "1qaz#edc", '#');
  }

  lemma AnchorWitnessMissesRow7()
    ensures NoEntryMatches(CommonPatternsRow7(), AnchorWitness)
  {
    forall k | 0 <= k < 10
      ensures !Matches(CommonPatternsRow7()[k], AnchorWitness)
    {
      if k == 0 {
        AnchorWitnessMisses70();
      } else if k == 1 {
        AnchorWitnessMisses71();
      } else if k == 2 {
        AnchorWitnessMisses72();
      } else if k == 3 {
        AnchorWitnessMisses73();
      } else if k == 4 {
        AnchorWitnessMisses74();
      } else if k == 5 {
        AnchorWitnessMisses75();
      } else if k == 6 {
        AnchorWitnessMisses76();
      } else if k == 7 {
        AnchorWitnessMisses77();
      } else if k == 8 {
        AnchorWitnessMisses78();
      } else if k == 9 {
        AnchorWitnessMisses79();
      }
    }
  }

  lemma AnchorWitnessMisses70()
    ensures !Matches(CommonPatternsRow7()[0], AnchorWitness)
  {
  }

  lemma AnchorWitnessMisses71()
    ensures !Matches(CommonPatternsRow7()[1], AnchorWitness)
  {
    LowerAnchorWitness();
    AbsentByChar(AnchorWitness, "1qaz%tgb", '%');
  }

  lemma AnchorWitnessMisses72()
    ensures !Matches(CommonPatternsRow7()[2], AnchorWitness)
  {
  }

  lemma AnchorWitnessMisses73()
    ensures !Matches(CommonPatternsRow7()[3], AnchorWitness)
  {
    LowerAnchorWitness();
    AbsentByChar(AnchorWitness, "1qaz&ujm", '&');
  }

  lemma AnchorWitnessMisses74()
    ensures !Matches(CommonPatternsRow7()[4], AnchorWitness)
  {
    LowerAnchorWitness();
    RepeatAbsent(AnchorWitness, "1qa", 'z', "ik", 'i');
  }

  lemma AnchorWitnessMisses75()
    ensures !Matches(CommonPatternsRow7()[5], AnchorWitness)
  {
    LowerAnchorWitness();
    AbsentByChar(AnchorWitness, "1qaz(olp", '(');
  }

  lemma AnchorWitnessMisses76()
    ensures !Matches(CommonPatternsRow7()[6], AnchorWitness)
  {
    LowerAnchorWitness();
    AbsentByChar(AnchorWitness, "1qaz)ikm", ')');
  }

  lemma AnchorWitnessMisses77()
    ensures !Matches(CommonPatternsRow7()[7], AnchorWitness)
  {
    LowerAnchorWitness();
    AbsentByChar(AnchorWitness, "1qaz_olp", '_');
  }

  lemma AnchorWitnessMisses78()
    ensures !Matches(CommonPatternsRow7()[8], AnchorWitness)
  {
    LowerAnchorWitness();
    AbsentByChar(AnchorWitness, "1qaz+ikm", '+');
  }

  lemma AnchorWitnessMisses79()
    ensures !Matches(CommonPatternsRow7()[9], AnchorWitness)
  {
    LowerAnchorWitness();
    AbsentByChar(AnchorWitness, "1qaz-ikm", '-');
  }

  lemma AnchorWitnessMissesRow8()
    ensures NoEntryMatches(CommonPatternsRow8(), AnchorWitness)
  {
    forall k | 0 <= k < 10
      ensures !Matches(CommonPatternsRow8()[k], AnchorWitness)
    {
      if k == 0 {
        AnchorWitnessMisses80();
      } else if k == 1 {
        AnchorWitnessMisses81();
      } else if k == 2 {
        AnchorWitnessMisses82();
      } else if k == 3 {
        AnchorWitnessMisses83();
      } else if k == 4 {
        AnchorWitnessMisses84();
      } else if k == 5 {
        AnchorWitnessMisses85();
      } else if k == 6 {
        AnchorWitnessMisses86();
      } else if k == 7 {
        AnchorWitnessMisses87();
      } else if k == 8 {
        AnchorWitnessMisses88();
      } else if k == 9 {
        AnchorWitnessMisses89();
      }
    }
  }

  lemma AnchorWitnessMisses80()
    ensures !Matches(CommonPatternsRow8()[0], AnchorWitness)
  {
    LowerAnchorWitness();
    AbsentByChar(AnchorWitness, "1qaz=ikm", '=');
  }

  lemma AnchorWitnessMisses81()
    ensures !Matches(CommonPatternsRow8()[1], AnchorWitness)
  {
    LowerAnchorWitness();
    AbsentByChar(AnchorWitness, "1qaz{olp", '{');
  }

  lemma AnchorWitnessMisses82()
    ensures !Matches(CommonPatternsRow8()[2], AnchorWitness)
  {
    LowerAnchorWitness();
    AbsentByChar(AnchorWitness, "1qaz}ikm", '}');
  }

  lemma AnchorWitnessMisses83()
    ensures !Matches(CommonPatternsRow8()[3], AnchorWitness)
  {
    LowerAnchorWitness();
    AbsentByChar(AnchorWitness, "1qaz|olp", '|');
  }

  lemma AnchorWitnessMisses84()
    ensures !Matches(CommonPatternsRow8()[4], AnchorWitness)
  {
    LowerAnchorWitness();
    AbsentByChar(AnchorWitness, "1qaz\\ikm", '\\');
  }

  lemma AnchorWitnessMisses85()
    ensures !Matches(CommonPatternsRow8()[5], AnchorWitness)
  {
    LowerAnchorWitness();
    AbsentByChar(AnchorWitness, "1qaz:olp", ':');
  }

  lemma AnchorWitnessMisses86()
    ensures !Matches(CommonPatternsRow8()[6], AnchorWitness)
  {
    LowerAnchorWitness();
    AbsentByChar(AnchorWitness, "1qaz\"ikm", '"');
  }

  lemma AnchorWitnessMisses87()
    ensures !Matches(CommonPatternsRow8()[7], AnchorWitness)
  {
    LowerAnchorWitness();
    AbsentByChar(AnchorWitness, "1qaz<olp", '<');
  }

  lemma AnchorWitnessMisses88()
    ensures !Matches(CommonPatternsRow8()[8], AnchorWitness)
  {
    LowerAnchorWitness();
    AbsentByChar(AnchorWitness, "1qaz>ikm", '>');
  }

  lemma AnchorWitnessMisses89()
    ensures !Matches(CommonPatternsRow8()[9], AnchorWitness)
  {
    LowerAnchorWitness();
    AbsentByChar(AnchorWitness, "1qaz?olp", '?');
  }

  lemma AnchorWitnessMissesRow9()
    ensures NoEntryMatches(CommonPatternsRow9(), AnchorWitness)
  {
    forall k | 0 <= k < 3
      ensures !Matches(CommonPatternsRow9()[k], AnchorWitness)
    {
      if k == 0 {
        AnchorWitnessMisses90();
      } else if k == 1 {
        AnchorWitnessMisses91();
      } else if k == 2 {
        AnchorWitnessMisses92();
      }
    }
  }

  lemma AnchorWitnessMisses90()
    ensures !Matches(CommonPatternsRow9()[0], AnchorWitness)
  {
    LowerAnchorWitness();
    AbsentByChar(AnchorWitness, "1qaz/ikm", '/');
  }

  lemma AnchorWitnessMisses91()
    ensures !Matches(CommonPatternsRow9()[1], AnchorWitness)
  {
    LowerAnchorWitness();
    AbsentByChar(AnchorWitness, "1qaz`olp", '`');
  }

  lemma AnchorWitnessMisses92()
    ensures !Matches(CommonPatternsRow9()[2], AnchorWitness)
  {
    LowerAnchorWitness();
    AbsentByChar(AnchorWitness, "1qaz~ikm", '~');
  }

  lemma AnchorWitnessHasText()
    ensures ContainsCI(AnchorWitness, PatternText(CommonPatterns()[70]))
  {
    LowerAnchorWitness();
    assert Lower(AnchorWitness[2..10]) == Lower(AnchorWitness)[2..10];
    assert MatchAtCI(AnchorWitness, "1qaz$rfv", 2);
  }

  /** "Zz1qaz$rfvZz" passes `validatePassword` although it contains the listed "1qaz$rfv". */
  lemma AnchoredEntryAdmitsItsText()
    ensures ValidatePassword(AnchorWitness).isValid
    ensures !ValidatePasswordIntended(AnchorWitness).isValid
  {
    AnchorWitnessPattern();
    AnchorWitnessNoEntryMatches();
    AnchorWitnessHasText();
  }

  /** Accepted as written, refused as intended: the entry whose `*` repeats (line 89). */
  const StarWitness := "Zz1qaz*ikZzz"

  lemma LowerStarWitness()
    ensures Lower(StarWitness) == "zz1qaz*ikzzz"
  {
  }

  lemma StarWitnessPattern()
    ensures PasswordPattern(StarWitness)
  {
    assert 'a' <= StarWitness[1] <= 'z' && 'A' <= StarWitness[0] <= 'Z';
    assert AsciiDigit(StarWitness[2]) && PasswordSpecial(StarWitness[6]);
  }

  /** "1qa" occurs only at 2, and what follows it, "z*ik", is not some z's and then "ik". */
  lemma StarWitnessMissesRepeat()
    ensures !Matches(Repeat("1qa", 'z', "ik"), StarWitness)
  {
    var l := Lower(StarWitness);
    LowerStarWitness();
    assert LowerChar(StarWitness[6]) == '*';
    if i: int, n: nat :| 0 <= i <= |StarWitness| && n <= |StarWitness| && RepeatAt(StarWitness, "1qa", 'z', "ik", i, n) {
      assert Lower(StarWitness[i..i + 3])[0] == l[i] == '1';
      assert i == 2;
    }
  }

  /** No entry matches the witness, entry by entry as for `AnchorWitness`. */
  lemma StarWitnessNoEntryMatches()
    ensures !AnyCommonAsWritten(StarWitness)
  {
    LowerStarWitness();
    StarWitnessMissesRow0();
    StarWitnessMissesRow1();
    StarWitnessMissesRow2();
    StarWitnessMissesRow3();
    StarWitnessMissesRow4();
    StarWitnessMissesRow5();
    StarWitnessMissesRow6();
    StarWitnessMissesRow7();
    StarWitnessMissesRow8();
    StarWitnessMissesRow9();
    NoEntryMatchesAppend(CommonPatternsRow0(), CommonPatternsRow1(), StarWitness);
    NoEntryMatchesAppend(CommonPatternsRow0() + CommonPatternsRow1(), CommonPatternsRow2(), StarWitness);
    NoEntryMatchesAppend(CommonPatternsRow0() + CommonPatternsRow1() + CommonPatternsRow2(), CommonPatternsRow3(), StarWitness);
    NoEntryMatchesAppend(CommonPatternsRow0() + CommonPatternsRow1() + CommonPatternsRow2() + CommonPatternsRow3(), CommonPatternsRow4(), StarWitness);
    NoEntryMatchesAppend(CommonPatternsRow0() + CommonPatternsRow1() + CommonPatternsRow2() + CommonPatternsRow3() + CommonPatternsRow4(), CommonPatternsRow5(), StarWitness);
    NoEntryMatchesAppend(CommonPatternsRow0() + CommonPatternsRow1() + CommonPatternsRow2() + CommonPatternsRow3() + CommonPatternsRow4() + CommonPatternsRow5(), CommonPatternsRow6(), StarWitness);
    NoEntryMatchesAppend(CommonPatternsRow0() + CommonPatternsRow1() + CommonPatternsRow2() + CommonPatternsRow3() + CommonPatternsRow4() + CommonPatternsRow5() + CommonPatternsRow6(), CommonPatternsRow7(), StarWitness);
    NoEntryMatchesAppend(CommonPatternsRow0() + CommonPatternsRow1() + CommonPatternsRow2() + CommonPatternsRow3() + CommonPatternsRow4() + CommonPatternsRow5() + CommonPatternsRow6() + CommonPatternsRow7(), CommonPatternsRow8(), StarWitness);
    NoEntryMatchesAppend(CommonPatternsRow0() + CommonPatternsRow1() + CommonPatternsRow2() + CommonPatternsRow3() + CommonPatternsRow4() + CommonPatternsRow5() + CommonPatternsRow6() + CommonPatternsRow7() + CommonPatternsRow8(), CommonPatternsRow9(), StarWitness);
  }

  lemma StarWitnessMissesRow0()
    ensures NoEntryMatches(CommonPatternsRow0(), StarWitness)
  {
    forall k | 0 <= k < 10
      ensures !Matches(CommonPatternsRow0()[k], StarWitness)
    {
      if k == 0 {
        StarWitnessMisses0();
      } else if k == 1 {
        StarWitnessMisses1();
      } else if k == 2 {
        StarWitnessMisses2();
      } else if k == 3 {
        StarWitnessMisses3();
      } else if k == 4 {
        StarWitnessMisses4();
      } else if k == 5 {
        StarWitnessMisses5();
      } else if k == 6 {
        StarWitnessMisses6();
      } else if k == 7 {
        StarWitnessMisses7();
      } else if k == 8 {
        StarWitnessMisses8();
      } else if k == 9 {
        StarWitnessMisses9();
      }
    }
  }

  lemma StarWitnessMisses0()
    ensures !Matches(CommonPatternsRow0()[0], StarWitness)
  {
    LowerStarWitness();
    AbsentByChar(StarWitness, "password", 'p');
  }

  lemma StarWitnessMisses1()
    ensures !Matches(CommonPatternsRow0()[1], StarWitness)
  {
    LowerStarWitness();
    AbsentByChar(StarWitness, "123456", '2');
  }

  lemma StarWitnessMisses2()
    ensures !Matches(CommonPatternsRow0()[2], StarWitness)
  {
    LowerStarWitness();
    AbsentByChar(StarWitness, "qwerty", 'w');
  }

  lemma StarWitnessMisses3()
    ensures !Matches(CommonPatternsRow0()[3], StarWitness)
  {
    LowerStarWitness();
    AbsentByChar(StarWitness, "admin", 'd');
  }

  lemma StarWitnessMisses4()
    ensures !Matches(CommonPatternsRow0()[4], StarWitness)
  {
    LowerStarWitness();
    AbsentByChar(StarWitness, "welcome", 'w');
  }

  lemma StarWitnessMisses5()
    ensures !Matches(CommonPatternsRow0()[5], StarWitness)
  {
    LowerStarWitness();
    AbsentByChar(StarWitness, "letmein", 'l');
  }

  lemma StarWitnessMisses6()
    ensures !Matches(CommonPatternsRow0()[6], StarWitness)
  {
    LowerStarWitness();
    AbsentByChar(StarWitness, "monkey", 'm');
  }

  lemma StarWitnessMisses7()
    ensures !Matches(CommonPatternsRow0()[7], StarWitness)
  {
    LowerStarWitness();
    AbsentByChar(StarWitness, "dragon", 'd');
  }

  lemma StarWitnessMisses8()
    ensures !Matches(CommonPatternsRow0()[8], StarWitness)
  {
    LowerStarWitness();
    AbsentByChar(StarWitness, "baseball", 'b');
  }

  lemma StarWitnessMisses9()
    ensures !Matches(CommonPatternsRow0()[9], StarWitness)
  {
    LowerStarWitness();
    AbsentByChar(StarWitness, "football", 'f');
  }

  lemma StarWitnessMissesRow1()
    ensures NoEntryMatches(CommonPatternsRow1(), StarWitness)
  {
    forall k | 0 <= k < 10
      ensures !Matches(CommonPatternsRow1()[k], StarWitness)
    {
      if k == 0 {
        StarWitnessMisses10();
      } else if k == 1 {
        StarWitnessMisses11();
      } else if k == 2 {
        StarWitnessMisses12();
      } else if k == 3 {
        StarWitnessMisses13();
      } else if k == 4 {
        StarWitnessMisses14();
      } else if k == 5 {
        StarWitnessMisses15();
      } else if k == 6 {
        StarWitnessMisses16();
      } else if k == 7 {
        StarWitnessMisses17();
      } else if k == 8 {
        StarWitnessMisses18();
      } else if k == 9 {
        StarWitnessMisses19();
      }
    }
  }

  lemma StarWitnessMisses10()
    ensures !Matches(CommonPatternsRow1()[0], StarWitness)
  {
    LowerStarWitness();
    AbsentByChar(StarWitness, "shadow", 's');
  }

  lemma StarWitnessMisses11()
    ensures !Matches(CommonPatternsRow1()[1], StarWitness)
  {
    LowerStarWitness();
    AbsentByChar(StarWitness, "master", 'm');
  }

  lemma StarWitnessMisses12()
    ensures !Matches(CommonPatternsRow1()[2], StarWitness)
  {
    LowerStarWitness();
    AbsentByChar(StarWitness, "hello", 'h');
  }

  lemma StarWitnessMisses13()
    ensures !Matches(CommonPatternsRow1()[3], StarWitness)
  {
    LowerStarWitness();
    AbsentByChar(StarWitness, "freedom", 'f');
  }

  lemma StarWitnessMisses14()
    ensures !Matches(CommonPatternsRow1()[4], StarWitness)
  {
    LowerStarWitness();
    AbsentByChar(StarWitness, "whatever", 'w');
  }

  lemma StarWitnessMisses15()
    ensures !Matches(CommonPatternsRow1()[5], StarWitness)
  {
    LowerStarWitness();
    AbsentByChar(StarWitness, "qazwsx", 'w');
  }

  lemma StarWitnessMisses16()
    ensures !Matches(CommonPatternsRow1()[6], StarWitness)
  {
    LowerStarWitness();
    AbsentByChar(StarWitness, "trustno1", 't');
  }

  lemma StarWitnessMisses17()
    ensures !Matches(CommonPatternsRow1()[7], StarWitness)
  {
    LowerStarWitness();
    AbsentByChar(StarWitness, "654321", '6');
  }

  lemma StarWitnessMisses18()
    ensures !Matches(CommonPatternsRow1()[8], StarWitness)
  {
    LowerStarWitness();
    AbsentByChar(StarWitness, "jordan23", 'j');
  }

  lemma StarWitnessMisses19()
    ensures !Matches(CommonPatternsRow1()[9], StarWitness)
  {
    LowerStarWitness();
    AbsentByChar(StarWitness, "harley", 'h');
  }

  lemma StarWitnessMissesRow2()
    ensures NoEntryMatches(CommonPatternsRow2(), StarWitness)
  {
    forall k | 0 <= k < 10
      ensures !Matches(CommonPatternsRow2()[k], StarWitness)
    {
      if k == 0 {
        StarWitnessMisses20();
      } else if k == 1 {
        StarWitnessMisses21();
      } else if k == 2 {
        StarWitnessMisses22();
      } else if k == 3 {
        StarWitnessMisses23();
      } else if k == 4 {
        StarWitnessMisses24();
      } else if k == 5 {
        StarWitnessMisses25();
      } else if k == 6 {
        StarWitnessMisses26();
      } else if k == 7 {
        StarWitnessMisses27();
      } else if k == 8 {
        StarWitnessMisses28();
      } else if k == 9 {
        StarWitnessMisses29();
      }
    }
  }

  lemma StarWitnessMisses20()
    ensures !Matches(CommonPatternsRow2()[0], StarWitness)
  {
    LowerStarWitness();
    AbsentByChar(StarWitness, "hunter", 'h');
  }

  lemma StarWitnessMisses21()
    ensures !Matches(CommonPatternsRow2()[1], StarWitness)
  {
    LowerStarWitness();
    AbsentByChar(StarWitness, "ranger", 'r');
  }

  lemma StarWitnessMisses22()
    ensures !Matches(CommonPatternsRow2()[2], StarWitness)
  {
    LowerStarWitness();
    AbsentByChar(StarWitness, "buster", 'b');
  }

  lemma StarWitnessMisses23()
    ensures !Matches(CommonPatternsRow2()[3], StarWitness)
  {
    LowerStarWitness();
    AbsentByChar(StarWitness, "thomas", 't');
  }

  lemma StarWitnessMisses24()
    ensures !Matches(CommonPatternsRow2()[4], StarWitness)
  {
    LowerStarWitness();
    AbsentByChar(StarWitness, "tigger", 't');
  }

  lemma StarWitnessMisses25()
    ensures !Matches(CommonPatternsRow2()[5], StarWitness)
  {
    LowerStarWitness();
    AbsentByChar(StarWitness, "robert", 'r');
  }

  lemma StarWitnessMisses26()
    ensures !Matches(CommonPatternsRow2()[6], StarWitness)
  {
    LowerStarWitness();
    AbsentByChar(StarWitness, "soccer", 's');
  }

  lemma StarWitnessMisses27()
    ensures !Matches(CommonPatternsRow2()[7], StarWitness)
  {
    LowerStarWitness();
    AbsentByChar(StarWitness, "batman", 'b');
  }

  lemma StarWitnessMisses28()
    ensures !Matches(CommonPatternsRow2()[8], StarWitness)
  {
    LowerStarWitness();
    AbsentByChar(StarWitness, "test123", 't');
  }

  lemma StarWitnessMisses29()
    ensures !Matches(CommonPatternsRow2()[9], StarWitness)
  {
    LowerStarWitness();
    AbsentByChar(StarWitness, "passw0rd", 'p');
  }

  lemma StarWitnessMissesRow3()
    ensures NoEntryMatches(CommonPatternsRow3(), StarWitness)
  {
    forall k | 0 <= k < 10
      ensures !Matches(CommonPatternsRow3()[k], StarWitness)
    {
      if k == 0 {
        StarWitnessMisses30();
      } else if k == 1 {
        StarWitnessMisses31();
      } else if k == 2 {
        StarWitnessMisses32();
      } else if k == 3 {
        StarWitnessMisses33();
      } else if k == 4 {
        StarWitnessMisses34();
      } else if k == 5 {
        StarWitnessMisses35();
      } else if k == 6 {
        StarWitnessMisses36();
      } else if k == 7 {
        StarWitnessMisses37();
      } else if k == 8 {
        StarWitnessMisses38();
      } else if k == 9 {
        StarWitnessMisses39();
      }
    }
  }

  lemma StarWitnessMisses30()
    ensures !Matches(CommonPatternsRow3()[0], StarWitness)
  {
    LowerStarWitness();
    AbsentByChar(StarWitness, "iloveyou", 'l');
  }

  lemma StarWitnessMisses31()
    ensures !Matches(CommonPatternsRow3()[1], StarWitness)
  {
    LowerStarWitness();
    AbsentByChar(StarWitness, "2000", '2');
  }

  lemma StarWitnessMisses32()
    ensures !Matches(CommonPatternsRow3()[2], StarWitness)
  {
    LowerStarWitness();
    AbsentByChar(StarWitness, "1234", '2');
  }

  lemma StarWitnessMisses33()
    ensures !Matches(CommonPatternsRow3()[3], StarWitness)
  {
    LowerStarWitness();
    AbsentByChar(StarWitness, "abc123", 'b');
  }

  lemma StarWitnessMisses34()
    ensures !Matches(CommonPatternsRow3()[4], StarWitness)
  {
    LowerStarWitness();
    AbsentByPair(StarWitness, "111111", 0);
  }

  lemma StarWitnessMisses35()
    ensures !Matches(CommonPatternsRow3()[5], StarWitness)
  {
    LowerStarWitness();
    AbsentByChar(StarWitness, "123123", '2');
  }

  lemma StarWitnessMisses36()
    ensures !Matches(CommonPatternsRow3()[6], StarWitness)
  {
    LowerStarWitness();
    AbsentByChar(StarWitness, "welcome1", 'w');
  }

  lemma StarWitnessMisses37()
    ensures !Matches(CommonPatternsRow3()[7], StarWitness)
  {
    LowerStarWitness();
    AbsentByChar(StarWitness, "login", 'l');
  }

  lemma StarWitnessMisses38()
    ensures !Matches(CommonPatternsRow3()[8], StarWitness)
  {
    LowerStarWitness();
    AbsentByChar(StarWitness, "admin123", 'd');
  }

  lemma StarWitnessMisses39()
    ensures !Matches(CommonPatternsRow3()[9], StarWitness)
  {
    LowerStarWitness();
    AbsentByChar(StarWitness, "qwerty123", 'w');
  }

  lemma StarWitnessMissesRow4()
    ensures NoEntryMatches(CommonPatternsRow4(), StarWitness)
  {
    forall k | 0 <= k < 10
      ensures !Matches(CommonPatternsRow4()[k], StarWitness)
    {
      if k == 0 {
        StarWitnessMisses40();
      } else if k == 1 {
        StarWitnessMisses41();
      } else if k == 2 {
        StarWitnessMisses42();
      } else if k == 3 {
        StarWitnessMisses43();
      } else if k == 4 {
        StarWitnessMisses44();
      } else if k == 5 {
        StarWitnessMisses45();
      } else if k == 6 {
        StarWitnessMisses46();
      } else if k == 7 {
        StarWitnessMisses47();
      } else if k == 8 {
        StarWitnessMisses48();
      } else if k == 9 {
        StarWitnessMisses49();
      }
    }
  }

  lemma StarWitnessMisses40()
    ensures !Matches(CommonPatternsRow4()[0], StarWitness)
  {
    LowerStarWitness();
    AbsentByChar(StarWitness, "1q2w3e4r", '2');
  }

  lemma StarWitnessMisses41()
    ensures !Matches(CommonPatternsRow4()[1], StarWitness)
  {
    LowerStarWitness();
    AbsentByChar(StarWitness, "555555", '5');
  }

  lemma StarWitnessMisses42()
    ensures !Matches(CommonPatternsRow4()[2], StarWitness)
  {
    LowerStarWitness();
    AbsentByChar(StarWitness, "lovely", 'l');
  }

  lemma StarWitnessMisses43()
    ensures !Matches(CommonPatternsRow4()[3], StarWitness)
  {
    LowerStarWitness();
    AbsentByChar(StarWitness, "7777777", '7');
  }

  lemma StarWitnessMisses44()
    ensures !Matches(CommonPatternsRow4()[4], StarWitness)
  {
    LowerStarWitness();
    AbsentByChar(StarWitness, "888888", '8');
  }

  lemma StarWitnessMisses45()
    ensures !Matches(CommonPatternsRow4()[5], StarWitness)
  {
    LowerStarWitness();
    AbsentByChar(StarWitness, "princess", 'p');
  }

  lemma StarWitnessMisses46()
    ensures !Matches(CommonPatternsRow4()[6], StarWitness)
  {
    LowerStarWitness();
    AbsentByChar(StarWitness, "dragon", 'd');
  }

  lemma StarWitnessMisses47()
    ensures !Matches(CommonPatternsRow4()[7], StarWitness)
  {
    LowerStarWitness();
    AbsentByChar(StarWitness, "password1", 'p');
  }

  lemma StarWitnessMisses48()
    ensures !Matches(CommonPatternsRow4()[8], StarWitness)
  {
    LowerStarWitness();
    AbsentByChar(StarWitness, "solo", 's');
  }

  lemma StarWitnessMisses49()
    ensures !Matches(CommonPatternsRow4()[9], StarWitness)
  {
    LowerStarWitness();
    AbsentByChar(StarWitness, "master", 'm');
  }

  lemma StarWitnessMissesRow5()
    ensures NoEntryMatches(CommonPatternsRow5(), StarWitness)
  {
    forall k | 0 <= k < 10
      ensures !Matches(CommonPatternsRow5()[k], StarWitness)
    {
      if k == 0 {
        StarWitnessMisses50();
      } else if k == 1 {
        StarWitnessMisses51();
      } else if k == 2 {
        StarWitnessMisses52();
      } else if k == 3 {
        StarWitnessMisses53();
      } else if k == 4 {
        StarWitnessMisses54();
      } else if k == 5 {
        StarWitnessMisses55();
      } else if k == 6 {
        StarWitnessMisses56();
      } else if k == 7 {
        StarWitnessMisses57();
      } else if k == 8 {
        StarWitnessMisses58();
      } else if k == 9 {
        StarWitnessMisses59();
      }
    }
  }

  lemma StarWitnessMisses50()
    ensures !Matches(CommonPatternsRow5()[0], StarWitness)
  {
    LowerStarWitness();
    AbsentByChar(StarWitness, "666666", '6');
  }

  lemma StarWitnessMisses51()
    ensures !Matches(CommonPatternsRow5()[1], StarWitness)
  {
    LowerStarWitness();
    AbsentByChar(StarWitness, "ashley", 's');
  }

  lemma StarWitnessMisses52()
    ensures !Matches(CommonPatternsRow5()[2], StarWitness)
  {
    LowerStarWitness();
    AbsentByChar(StarWitness, "michael", 'm');
  }

  lemma StarWitnessMisses53()
    ensures !Matches(CommonPatternsRow5()[3], StarWitness)
  {
    LowerStarWitness();
    AbsentByChar(StarWitness, "qwertyuiop", 'w');
  }

  lemma StarWitnessMisses54()
    ensures !Matches(CommonPatternsRow5()[4], StarWitness)
  {
    LowerStarWitness();
    AbsentByChar(StarWitness, "123321", '2');
  }

  lemma StarWitnessMisses55()
    ensures !Matches(CommonPatternsRow5()[5], StarWitness)
  {
    LowerStarWitness();
    AbsentByChar(StarWitness, "mustang", 'm');
  }

  lemma StarWitnessMisses56()
    ensures !Matches(CommonPatternsRow5()[6], StarWitness)
  {
    LowerStarWitness();
    AbsentByChar(StarWitness, "123456789", '2');
  }

  lemma StarWitnessMisses57()
    ensures !Matches(CommonPatternsRow5()[7], StarWitness)
  {
    LowerStarWitness();
    AbsentByChar(StarWitness, "mynoob", 'm');
  }

  lemma StarWitnessMisses58()
    ensures !Matches(CommonPatternsRow5()[8], StarWitness)
  {
    LowerStarWitness();
    AbsentByChar(StarWitness, "123qwe", '2');
  }

  lemma StarWitnessMisses59()
    ensures !Matches(CommonPatternsRow5()[9], StarWitness)
  {
    LowerStarWitness();
    AbsentByChar(StarWitness, "18atcskd2w", '8');
  }

  lemma StarWitnessMissesRow6()
    ensures NoEntryMatches(CommonPatternsRow6(), StarWitness)
  {
    forall k | 0 <= k < 10
      ensures !Matches(CommonPatternsRow6()[k], StarWitness)
    {
      if k == 0 {
        StarWitnessMisses60();
      } else if k == 1 {
        StarWitnessMisses61();
      } else if k == 2 {
        StarWitnessMisses62();
      } else if k == 3 {
        StarWitnessMisses63();
      } else if k == 4 {
        StarWitnessMisses64();
      } else if k == 5 {
        StarWitnessMisses65();
      } else if k == 6 {
        StarWitnessMisses66();
      } else if k == 7 {
        StarWitnessMisses67();
      } else if k == 8 {
        StarWitnessMisses68();
      } else if k == 9 {
        StarWitnessMisses69();
      }
    }
  }

  lemma StarWitnessMisses60()
    ensures !Matches(CommonPatternsRow6()[0], StarWitness)
  {
    LowerStarWitness();
    AbsentByChar(StarWitness, "3rjs1la7qe", '3');
  }

  lemma StarWitnessMisses61()
    ensures !Matches(CommonPatternsRow6()[1], StarWitness)
  {
    LowerStarWitness();
    AbsentByChar(StarWitness, "1q2w3e4r5t", '2');
  }

  lemma StarWitnessMisses62()
    ensures !Matches(CommonPatternsRow6()[2], StarWitness)
  {
    LowerStarWitness();
    AbsentByChar(StarWitness, "1qaz2wsx", '2');
  }

  lemma StarWitnessMisses63()
    ensures !Matches(CommonPatternsRow6()[3], StarWitness)
  {
    LowerStarWitness();
    AbsentByChar(StarWitness, "1qaz2wsx3edc", '2');
  }

  lemma StarWitnessMisses64()
    ensures !Matches(CommonPatternsRow6()[4], StarWitness)
  {
    LowerStarWitness();
    AbsentByPair(StarWitness, "zaq1zaq1", 0);
  }

  lemma StarWitnessMisses65()
    ensures !Matches(CommonPatternsRow6()[5], StarWitness)
  {
    LowerStarWitness();
    AbsentByChar(StarWitness, "zaq1xsw2", 'x');
  }

  lemma StarWitnessMisses66()
    ensures !Matches(CommonPatternsRow6()[6], StarWitness)
  {
    LowerStarWitness();
    AbsentByChar(StarWitness, "xsw2zaq1", 'x');
  }

  lemma StarWitnessMisses67()
    ensures !Matches(CommonPatternsRow6()[7], StarWitness)
  {
    LowerStarWitness();
    AbsentByChar(StarWitness, "!qaz2wsx", '!');
  }

  lemma StarWitnessMisses68()
    ensures !Matches(CommonPatternsRow6()[8], StarWitness)
  {
    LowerStarWitness();
    AbsentByChar(StarWitness, "1qaz@wsx", '@');
  }

  lemma StarWitnessMisses69()
    ensures !Matches(CommonPatternsRow6()[9], StarWitness)
  {
    LowerStarWitness();
    AbsentByChar(StarWitness, "1qaz#edc", '#');
  }

  lemma StarWitnessMissesRow7()
    ensures NoEntryMatches(CommonPatternsRow7(), StarWitness)
  {
    forall k | 0 <= k < 10
      ensures !Matches(CommonPatternsRow7()[k], StarWitness)
    {
      if k == 0 {
        StarWitnessMisses70();
      } else if k == 1 {
        StarWitnessMisses71();
      } else if k == 2 {
        StarWitnessMisses72();
      } else if k == 3 {
        StarWitnessMisses73();
      } else if k == 4 {
        StarWitnessMisses74();
      } else if k == 5 {
        StarWitnessMisses75();
      } else if k == 6 {
        StarWitnessMisses76();
      } else if k == 7 {
        StarWitnessMisses77();
      } else if k == 8 {
        StarWitnessMisses78();
      } else if k == 9 {
        StarWitnessMisses79();
      }
    }
  }

  lemma StarWitnessMisses70()
    ensures !Matches(CommonPatternsRow7()[0], StarWitness)
  {
  }

  lemma StarWitnessMisses71()
    ensures !Matches(CommonPatternsRow7()[1], StarWitness)
  {
    LowerStarWitness();
    AbsentByChar(StarWitness, "1qaz%tgb", '%');
  }

  lemma StarWitnessMisses72()
    ensures !Matches(CommonPatternsRow7()[2], StarWitness)
  {
  }

  lemma StarWitnessMisses73()
    ensures !Matches(CommonPatternsRow7()[3], StarWitness)
  {
    LowerStarWitness();
    AbsentByChar(StarWitness, "1qaz&ujm", '&');
  }

  lemma StarWitnessMisses74()
    ensures !Matches(CommonPatternsRow7()[4], StarWitness)
  {
    LowerStarWitness();
    StarWitnessMissesRepeat();
  }

  lemma StarWitnessMisses75()
    ensures !Matches(CommonPatternsRow7()[5], StarWitness)
  {
    LowerStarWitness();
    AbsentByChar(StarWitness, "1qaz(olp", '(');
  }

  lemma StarWitnessMisses76()
    ensures !Matches(CommonPatternsRow7()[6], StarWitness)
  {
    LowerStarWitness();
    AbsentByChar(StarWitness, "1qaz)ikm", ')');
  }

  lemma StarWitnessMisses77()
    ensures !Matches(CommonPatternsRow7()[7], StarWitness)
  {
    LowerStarWitness();
    AbsentByChar(StarWitness, "1qaz_olp", '_');
  }

  lemma StarWitnessMisses78()
    ensures !Matches(CommonPatternsRow7()[8], StarWitness)
  {
    LowerStarWitness();
    AbsentByChar(StarWitness, "1qaz+ikm", '+');
  }

  lemma StarWitnessMisses79()
    ensures !Matches(CommonPatternsRow7()[9], StarWitness)
  {
    LowerStarWitness();
    AbsentByChar(StarWitness, "1qaz-ikm", '-');
  }

  lemma StarWitnessMissesRow8()
    ensures NoEntryMatches(CommonPatternsRow8(), StarWitness)
  {
    forall k | 0 <= k < 10
      ensures !Matches(CommonPatternsRow8()[k], StarWitness)
    {
      if k == 0 {
        StarWitnessMisses80();
      } else if k == 1 {
        StarWitnessMisses81();
      } else if k == 2 {
        StarWitnessMisses82();
      } else if k == 3 {
        StarWitnessMisses83();
      } else if k == 4 {
        StarWitnessMisses84();
      } else if k == 5 {
        StarWitnessMisses85();
      } else if k == 6 {
        StarWitnessMisses86();
      } else if k == 7 {
        StarWitnessMisses87();
      } else if k == 8 {
        StarWitnessMisses88();
      } else if k == 9 {
        StarWitnessMisses89();
      }
    }
  }

  lemma StarWitnessMisses80()
    ensures !Matches(CommonPatternsRow8()[0], StarWitness)
  {
    LowerStarWitness();
    AbsentByChar(StarWitness, "1qaz=ikm", '=');
  }

  lemma StarWitnessMisses81()
    ensures !Matches(CommonPatternsRow8()[1], StarWitness)
  {
    LowerStarWitness();
    AbsentByChar(StarWitness, "1qaz{olp", '{');
  }

  lemma StarWitnessMisses82()
    ensures !Matches(CommonPatternsRow8()[2], StarWitness)
  {
    LowerStarWitness();
    AbsentByChar(StarWitness, "1qaz}ikm", '}');
  }

  lemma StarWitnessMisses83()
    ensures !Matches(CommonPatternsRow8()[3], StarWitness)
  {
    LowerStarWitness();
    AbsentByChar(StarWitness, "1qaz|olp", '|');
  }

  lemma StarWitnessMisses84()
    ensures !Matches(CommonPatternsRow8()[4], StarWitness)
  {
    LowerStarWitness();
    AbsentByChar(StarWitness, "1qaz\\ikm", '\\');
  }

  lemma StarWitnessMisses85()
    ensures !Matches(CommonPatternsRow8()[5], StarWitness)
  {
    LowerStarWitness();
    AbsentByChar(StarWitness, "1qaz:olp", ':');
  }

  lemma StarWitnessMisses86()
    ensures !Matches(CommonPatternsRow8()[6], StarWitness)
  {
    LowerStarWitness();
    AbsentByChar(StarWitness, "1qaz\"ikm", '"');
  }

  lemma StarWitnessMisses87()
    ensures !Matches(CommonPatternsRow8()[7], StarWitness)
  {
    LowerStarWitness();
    AbsentByChar(StarWitness, "1qaz<olp", '<');
  }

  lemma StarWitnessMisses88()
    ensures !Matches(CommonPatternsRow8()[8], StarWitness)
  {
    LowerStarWitness();
    AbsentByChar(StarWitness, "1qaz>ikm", '>');
  }

  lemma StarWitnessMisses89()
    ensures !Matches(CommonPatternsRow8()[9], StarWitness)
  {
    LowerStarWitness();
    AbsentByChar(StarWitness, "1qaz?olp", '?');
  }

  lemma StarWitnessMissesRow9()
    ensures NoEntryMatches(CommonPatternsRow9(), StarWitness)
  {
    forall k | 0 <= k < 3
      ensures !Matches(CommonPatternsRow9()[k], StarWitness)
    {
      if k == 0 {
        StarWitnessMisses90();
      } else if k == 1 {
        StarWitnessMisses91();
      } else if k == 2 {
        StarWitnessMisses92();
      }
    }
  }

  lemma StarWitnessMisses90()
    ensures !Matches(CommonPatternsRow9()[0], StarWitness)
  {
    LowerStarWitness();
    AbsentByChar(StarWitness, "1qaz/ikm", '/');
  }

  lemma StarWitnessMisses91()
    ensures !Matches(CommonPatternsRow9()[1], StarWitness)
  {
    LowerStarWitness();
    AbsentByChar(StarWitness, "1qaz`olp", '`');
  }

  lemma StarWitnessMisses92()
    ensures !Matches(CommonPatternsRow9()[2], StarWitness)
  {
    LowerStarWitness();
    AbsentByChar(StarWitness, "1qaz~ikm", '~');
  }

  lemma StarWitnessHasText()
    ensures ContainsCI(StarWitness, PatternText(CommonPatterns()[74]))
  {
    LowerStarWitness();
    assert PatternText(CommonPatterns()[74]) == "1qaz*ik";
    assert Lower(StarWitness[2..9]) == Lower(StarWitness)[2..9];
    assert MatchAtCI(StarWitness, "1qaz*ik", 2);
  }

  /** "Zz1qaz*ikZzz" passes `validatePassword` although it contains the listed "1qaz*ik". */
  lemma RepeatedEntryAdmitsItsText()
    ensures ValidatePassword(StarWitness).isValid
    ensures !ValidatePasswordIntended(StarWitness).isValid
  {
    StarWitnessPattern();
    StarWitnessNoEntryMatches();
    StarWitnessHasText();
  }

  // ---------------------------------------------------------------- email addresses

  const EmailRequired := "Email is required"
  const EmailInvalid := "Invalid email format"

  predicate LocalChar(c: char) {
    AsciiLetter(c) || AsciiDigit(c) || c == '.' || c == '_' || c == '%' || c == '+' || c == '-'
  }

  predicate DomainChar(c: char) {
    AsciiLetter(c) || AsciiDigit(c) || c == '.' || c == '-'
  }

  /** `EMAIL_PATTERN` matches with its `@` at `at` and the dot before the top-level domain at
      `dot`: a non-empty local part, a non-empty domain, and at least two letters after the
      dot. */
  predicate EmailSplit(e: string, at: int, dot: int) {
    && 0 < at < dot - 1 && dot + 3 <= |e|
    && e[at] == '@' && e[dot] == '.'
    && (forall i :: 0 <= i < at ==> LocalChar(e[i]))
    && (forall i :: at < i < dot ==> DomainChar(e[i]))
    && (forall i :: dot < i < |e| ==> AsciiLetter(e[i]))
  }

  /** `EMAIL_PATTERN.test(e)`: some way of placing the `@` and the last dot fits. */
  predicate EmailPattern(e: string) {
    exists at, dot :: 0 <= at < |e| && 0 <= dot < |e| && EmailSplit(e, at, dot)
  }

  /** The first `c` in `s`, or `|s|`. */
  function FirstIndex(s: string, c: char): (k: nat)
    ensures k <= |s| && (k < |s| ==> s[k] == c)
    ensures forall i :: 0 <= i < k ==> s[i] != c
  {
    if s == [] then 0 else if s[0] == c then 0 else 1 + FirstIndex(s[1..], c)
  }

  /** The last `c` in `s`, or -1. */
  function LastIndex(s: string, c: char): (k: int)
    ensures -1 <= k < |s| && (k >= 0 ==> s[k] == c)
    ensures forall i :: k < i < |s| ==> s[i] != c
  {
    if s == [] then -1 else if s[|s| - 1] == c then |s| - 1 else LastIndex(s[..|s| - 1], c)
  }

  /** The pattern can only split at the first `@` (the local part has none) and at the last
      dot (the top-level domain has none), so checking that one split decides it. */
  function EmailMatches(e: string): (b: bool)
    ensures b <==> EmailPattern(e)
  {
    var at := FirstIndex(e, '@');
    var dot := LastIndex(e, '.');
    if at < |e| && 0 <= dot && EmailSplit(e, at, dot) then true
    else
      false
  }

  /** `validateEmail`: required, then the pattern. */
  function ValidateEmail(e: string): (r: Verdict)
    ensures r.isValid <==> EmailPattern(e)
    ensures r.isValid ==> r.message == ""
    ensures e == "" ==> r.message == EmailRequired
    ensures e != "" && !EmailPattern(e) ==> r.message == EmailInvalid
  {
    if e == "" then Invalid(EmailRequired)
    else if !EmailMatches(e) then Invalid(EmailInvalid)
    else Accepted
  }

  // ---------------------------------------------------------------- sanitizing

  /** Every character of `r` is a character of `s`. */
  predicate CharsFrom(r: string, s: string) {
    forall c :: c in r ==> c in s
  }

  lemma CharsFromTrans(a: string, b: string, c: string)
    requires CharsFrom(a, b) && CharsFrom(b, c)
    ensures CharsFrom(a, c)
  {
  }

  /** `.replace(/[<>]/g, "")`. */
  function StripAngles(s: string): (r: string)
    ensures forall c :: c in r <==> c in s && c != '<' && c != '>'
    ensures |r| <= |s|
    ensures '<' !in s && '>' !in s ==> r == s
  {
    if s == [] then []
    else if s[0] == '<' || s[0] == '>' then StripAngles(s[1..])
    else [s[0]] + StripAngles(s[1..])
  }

  const Scheme := "javascript:"

  /** `javascript:`, in any case, at `i` of `s`. */
  predicate SchemeAt(s: string, i: int) {
    MatchAtCI(s, Scheme, i)
  }

  lemma SchemeShift(s: string, i: int)
    requires |s| > 0 && i >= 0
    ensures SchemeAt(s[1..], i) <==> SchemeAt(s, i + 1)
  {
    if i + 11 <= |s| - 1 {
      assert s[1..][i..i + 11] == s[i + 1..i + 12];
    }
  }

  /** Nowhere in `s` does `javascript:` start. */
  predicate NoScheme(s: string) {
    forall i :: 0 <= i < |s| ==> !SchemeAt(s, i)
  }

  /** `s` holds no scheme exactly when its head starts none and its tail holds none. */
  lemma NoSchemeCons(s: string)
    requires |s| > 0
    ensures NoScheme(s) <==> !SchemeAt(s, 0) && NoScheme(s[1..])
  {
    if NoScheme(s) {
      forall i | 0 <= i < |s| - 1
        ensures !SchemeAt(s[1..], i)
      {
        SchemeShift(s, i);
      }
    }
    if !SchemeAt(s, 0) && NoScheme(s[1..]) {
      forall i | 1 <= i < |s|
        ensures !SchemeAt(s, i)
      {
        SchemeShift(s, i - 1);
      }
    }
  }

  /** `.replace(/javascript:/gi, "")`: the occurrences are found left to right, each search
      going on after the previous removal, in the original text. */
  function StripScheme(s: string): (r: string)
    ensures |r| <= |s|
    decreases |s|
  {
    if |s| < |Scheme| then s
    else if SchemeAt(s, 0) then StripScheme(s[11..])
    else [s[0]] + StripScheme(s[1..])
  }

  /** Removing only ever drops characters. */
  lemma {:induction false} StripSchemeChars(s: string)
    ensures CharsFrom(StripScheme(s), s)
    decreases |s|
  {
    if |s| < |Scheme| {
    } else if SchemeAt(s, 0) {
      StripSchemeChars(s[11..]);
      CharsFromSuffix(s, 11);
    } else {
      StripSchemeChars(s[1..]);
    }
  }

  lemma CharsFromSuffix(s: string, k: nat)
    requires k <= |s|
    ensures CharsFrom(s[k..], s)
  {
    forall c | c in s[k..]
      ensures c in s
    {
      var j :| 0 <= j < |s[k..]| && s[k..][j] == c;
      assert s[k + j] == c;
    }
  }

  /** `StripScheme` leaves `s` alone exactly when there is nothing to remove, and otherwise
      shortens it. */
  lemma {:induction false} StripSchemeFixes(s: string)
    ensures StripScheme(s) == s <==> NoScheme(s)
    ensures StripScheme(s) == s || |StripScheme(s)| < |s|
    decreases |s|
  {
    if |s| < |Scheme| {
    } else if SchemeAt(s, 0) {
    } else {
      StripSchemeFixes(s[1..]);
      NoSchemeCons(s);
    }
  }

  predicate WordChar(c: char) {
    AsciiLetter(c) || AsciiDigit(c) || c == '_'
  }

  /** `on`, `n` word characters and `=`, at `i` of `s`, ignoring case: a match of
      `/on\w+=/i`. */
  predicate HandlerSpan(s: string, i: int, n: int) {
    && 0 <= i && 1 <= n && i + 2 + n < |s|
    && MatchAtCI(s, "on", i)
    && (forall m :: i + 2 <= m < i + 2 + n ==> WordChar(s[m]))
    && s[i + 2 + n] == '='
  }

  predicate HandlerAt(s: string, i: int) {
    exists n :: 1 <= n < |s| && HandlerSpan(s, i, n)
  }

  lemma HandlerShift(s: string, i: int)
    requires |s| > 0 && i >= 0
    ensures HandlerAt(s[1..], i) <==> HandlerAt(s, i + 1)
  {
    var j := i + 1;
    if n :| 1 <= n < |s| - 1 && HandlerSpan(s[1..], i, n) {
      assert s[1..][i..i + 2] == s[j..j + 2];
      assert HandlerSpan(s, j, n);
    }
    if n :| 1 <= n < |s| && HandlerSpan(s, j, n) {
      assert s[1..][i..i + 2] == s[j..j + 2];
      assert HandlerSpan(s[1..], i, n);
    }
  }

  /** Nowhere in `s` does an `on...=` handler start. */
  predicate NoHandler(s: string) {
    forall i :: 0 <= i < |s| ==> !HandlerAt(s, i)
  }

  /** `s` holds no handler exactly when its head starts none and its tail holds none. */
  lemma NoHandlerCons(s: string)
    requires |s| > 0
    ensures NoHandler(s) <==> !HandlerAt(s, 0) && NoHandler(s[1..])
  {
    if NoHandler(s) {
      forall i | 0 <= i < |s| - 1
        ensures !HandlerAt(s[1..], i)
      {
        HandlerShift(s, i);
      }
    }
    if !HandlerAt(s, 0) && NoHandler(s[1..]) {
      forall i | 1 <= i < |s|
        ensures !HandlerAt(s, i)
      {
        HandlerShift(s, i - 1);
      }
    }
  }

  /** The number of word characters `s` starts with. */
  function WordRun(s: string): (n: nat)
    ensures n <= |s| && (n < |s| ==> !WordChar(s[n]))
    ensures forall m :: 0 <= m < n ==> WordChar(s[m])
  {
    if s != [] && WordChar(s[0]) then 1 + WordRun(s[1..]) else 0
  }

  /** The length of the match of `/on\w+=/i` at the start of `s`, or 0: `\w+` takes every
      word character there is, and `=` is not one, so only that run can be followed by `=`. */
  function HandlerLength(s: string): (h: nat)
    ensures h > 0 ==> h >= 4 && HandlerSpan(s, 0, h - 3)
    ensures h == 0 ==> !HandlerAt(s, 0)
  {
    if |s| >= 2 && MatchAtCI(s, "on", 0) then
      var n := WordRun(s[2..]);
      if n >= 1 && 2 + n < |s| && s[2 + n] == '=' then 3 + n
      else
        assert !HandlerAt(s, 0) by {
          if k :| 1 <= k < |s| && HandlerSpan(s, 0, k) {
            if k < n {
              assert WordChar(s[2..][k]);
            }
          }
        }
        0
    else 0
  }

  /** `.replace(/on\w+=/gi, "")`, left to right like `StripScheme`. */
  function StripHandlers(s: string): (r: string)
    ensures |r| <= |s|
    decreases |s|
  {
    if s == [] then s
    else
      var h := HandlerLength(s);
      if h > 0 then StripHandlers(s[h..])
      else [s[0]] + StripHandlers(s[1..])
  }

  lemma {:induction false} StripHandlersChars(s: string)
    ensures CharsFrom(StripHandlers(s), s)
    decreases |s|
  {
    if s != [] {
      var h := HandlerLength(s);
      if h > 0 {
        StripHandlersChars(s[h..]);
        CharsFromSuffix(s, h);
      } else {
        StripHandlersChars(s[1..]);
      }
    }
  }

  /** `StripHandlers` leaves `s` alone exactly when there is nothing to remove, and
      otherwise shortens it. */
  lemma {:induction false} StripHandlersFixes(s: string)
    ensures StripHandlers(s) == s <==> NoHandler(s)
    ensures StripHandlers(s) == s || |StripHandlers(s)| < |s|
    decreases |s|
  {
    if s != [] {
      var h := HandlerLength(s);
      if h > 0 {
        assert HandlerSpan(s, 0, h - 3);
        assert HandlerAt(s, 0);
        assert |StripHandlers(s)| <= |s| - h;
      } else {
        StripHandlersFixes(s[1..]);
        NoHandlerCons(s);
        assert s == [s[0]] + s[1..];
      }
    }
  }

  /** The whitespace `trim()` removes at the front. */
  function TrimStart(s: string): (r: string)
    ensures |r| <= |s| && r == s[|s| - |r|..]
    ensures r == [] || !JsValues.WhiteSpace(r[0])
  {
    if s != [] && JsValues.WhiteSpace(s[0]) then TrimStart(s[1..]) else s
  }

  /** The whitespace `trim()` removes at the back. */
  function TrimEnd(s: string): (r: string)
    ensures |r| <= |s| && r == s[..|r|]
    ensures r == [] || !JsValues.WhiteSpace(r[|r| - 1])
  {
    if s != [] && JsValues.WhiteSpace(s[|s| - 1]) then TrimEnd(s[..|s| - 1]) else s
  }

  /** `r` is the slice of `s` that starts at `a`. */
  predicate SliceAt(r: string, s: string, a: int) {
    0 <= a <= |s| - |r| && r == s[a..a + |r|]
  }

  /** `trim()`: a middle slice of `s` that neither starts nor ends with whitespace. */
  /** Neither end of `r` is white space. */
  predicate Trimmed(r: string) {
    r == [] || (!JsValues.WhiteSpace(r[0]) && !JsValues.WhiteSpace(r[|r| - 1]))
  }

  function Trim(s: string): (r: string)
    ensures Trimmed(r)
    ensures CharsFrom(r, s) && |r| <= |s|
    ensures exists a :: SliceAt(r, s, a)
  {
    var front := TrimStart(s);
    var r := TrimEnd(front);
    assert SliceAt(r, s, |s| - |front|);
    r
  }

  /** `sanitizeInput`: the three removals in order, then `trim()`. */
  function SanitizeInput(s: string): (r: string)
    ensures '<' !in r && '>' !in r
    ensures CharsFrom(r, s) && |r| <= |s|
    ensures Trimmed(r)
  {
    var angled := StripAngles(s);
    StripSchemeChars(angled);
    StripHandlersChars(StripScheme(angled));
    Trim(StripHandlers(StripScheme(angled)))
  }

  /** Neither removal finds anything left in `s`. */
  predicate Clean(s: string) {
    NoScheme(s) && NoHandler(s)
  }

  /** A slice of a clean text is clean: a match in the slice is a match in the whole. */
  lemma CleanSlice(s: string, r: string, a: int)
    requires Clean(s) && SliceAt(r, s, a)
    ensures Clean(r)
  {
    forall i | 0 <= i < |r|
      ensures !SchemeAt(r, i) && !HandlerAt(r, i)
    {
      SchemeFromSlice(s, r, a, i);
      HandlerFromSlice(s, r, a, i);
    }
  }

  lemma SchemeFromSlice(s: string, r: string, a: int, i: int)
    requires SliceAt(r, s, a) && 0 <= i < |r|
    ensures SchemeAt(r, i) ==> SchemeAt(s, a + i)
  {
    if SchemeAt(r, i) {
      MatchInSlice(s, r, a, Scheme, i);
    }
  }

  lemma HandlerFromSlice(s: string, r: string, a: int, i: int)
    requires SliceAt(r, s, a) && 0 <= i < |r|
    ensures HandlerAt(r, i) ==> HandlerAt(s, a + i)
  {
    if n :| 1 <= n < |r| && HandlerSpan(r, i, n) {
      var j := a + i;
      MatchInSlice(s, r, a, "on", i);
      forall m | j + 2 <= m < j + 2 + n
        ensures WordChar(s[m])
      {
        assert s[m] == r[m - a];
      }
      assert s[j + 2 + n] == r[i + 2 + n];
      assert HandlerSpan(s, j, n);
    }
  }

  lemma MatchInSlice(s: string, r: string, a: int, t: string, i: int)
    requires SliceAt(r, s, a) && MatchAtCI(r, t, i)
    ensures MatchAtCI(s, t, a + i)
  {
    var u, v := r[i..i + |t|], s[a + i..a + i + |t|];
    forall k | 0 <= k < |t|
      ensures u[k] == v[k]
    {
      assert u[k] == r[i + k] == s[a..a + |r|][i + k];
    }
    assert u == v;
  }

  lemma TrimKeepsClean(x: string)
    requires Clean(x)
    ensures Clean(Trim(x))
  {
    var a :| SliceAt(Trim(x), x, a);
    CleanSlice(x, Trim(x), a);
  }

  /** The two word removals of `sanitizeInput`, once. */
  function Scrub(s: string): (r: string)
    ensures CharsFrom(r, s) && |r| <= |s|
  {
    StripSchemeChars(s);
    StripHandlersChars(StripScheme(s));
    StripHandlers(StripScheme(s))
  }

  /** A scrub changes nothing exactly on clean text, and otherwise shortens it. */
  lemma ScrubFixes(s: string)
    ensures Scrub(s) == s <==> Clean(s)
    ensures Scrub(s) == s || |Scrub(s)| < |s|
  {
    StripSchemeFixes(s);
    StripHandlersFixes(StripScheme(s));
    if Clean(s) {
      assert StripScheme(s) == s;
    }
  }

  /** The corrected removals: scrub again until nothing is found. */
  function ScrubUntilClean(s: string): (r: string)
    ensures CharsFrom(r, s) && |r| <= |s|
    ensures Clean(r)
    decreases |s|
  {
    var p := Scrub(s);
    ScrubFixes(s);
    if p == s then s else ScrubUntilClean(p)
  }

  /** `sanitizeInput` as evidently intended: what comes out holds no `<`, `>`,
      `javascript:` or `on...=`, in any case, and is trimmed. */
  function SanitizeInputCorrected(s: string): (r: string)
    ensures '<' !in r && '>' !in r
    ensures Clean(r)
    ensures CharsFrom(r, s) && |r| <= |s|
    ensures Trimmed(r)
  {
    var a := StripAngles(s);
    var x := ScrubUntilClean(a);
    var r := Trim(x);
    TrimKeepsClean(x);
    assert CharsFrom(a, s);
    CharsFromTrans(r, x, a);
    CharsFromTrans(r, a, s);
    r
  }

  /** Whenever one scrub already leaves nothing to remove, the corrected sanitizer answers
      what `sanitizeInput` answers. */
  lemma CorrectedAgrees(s: string)
    requires Clean(Scrub(StripAngles(s)))
    ensures SanitizeInputCorrected(s) == SanitizeInput(s)
  {
    var x := StripAngles(s);
    var p := Scrub(x);
    ScrubFixes(x);
    ScrubFixes(p);
    assert ScrubUntilClean(x) == p;
  }

  /** Removing "javascript:" from the middle of "javajavascript:script:" joins a new one. */
  const SchemeWitness := "java" + Scheme + "script:"

  lemma StripSchemeKeeps(s: string)
    requires |s| >= |Scheme| && Lower(s[..|Scheme|]) != Scheme
    ensures StripScheme(s) == [s[0]] + StripScheme(s[1..])
  {
    assert s[0..11] == s[..11];
  }

  lemma StripSchemeDrops(s: string)
    requires |s| >= |Scheme| && Lower(s[..|Scheme|]) == Scheme
    ensures StripScheme(s) == StripScheme(s[|Scheme|..])
  {
    assert s[0..11] == s[..11];
  }

  /** A head that cannot start the scheme (its `k`-th character is off) is kept. */
  lemma StripSchemeKeepsHead(c: char, rest: string, k: nat)
    requires k < |Scheme| && |rest| >= |Scheme| - 1
    requires LowerChar(([c] + rest)[k]) != Scheme[k]
    ensures StripScheme([c] + rest) == [c] + StripScheme(rest)
  {
    var s := [c] + rest;
    assert s[0] == c && s[1..] == rest;
    NoSchemeAtHead(s, k);
    StripSchemeKeeps(s);
  }

  lemma NoSchemeAtHead(s: string, k: nat)
    requires k < |Scheme| <= |s| && LowerChar(s[k]) != Scheme[k]
    ensures Lower(s[..|Scheme|]) != Scheme
  {
    assert Lower(s[..11])[k] == LowerChar(s[k]);
  }

  /** A whole scheme hidden after "java" goes, and what is left around it closes up. */
  lemma HiddenScheme(tail: string)
    requires |tail| < |Scheme|
    ensures StripScheme("java" + Scheme + tail) == "java" + tail
  {
    HiddenSchemeSteps(tail);
    ConsFour('j', 'a', 'v', 'a', Scheme + tail);
    ConsFour('j', 'a', 'v', 'a', tail);
    ConcatAssoc("java", Scheme, tail);
  }

  lemma ConcatAssoc(a: string, b: string, c: string)
    ensures a + b + c == a + (b + c)
  {
  }

  /** The steps of `HiddenScheme`, one character at a time. */
  lemma {:induction false} HiddenSchemeSteps(tail: string)
    requires |tail| < |Scheme|
    ensures StripScheme(['j'] + (['a'] + (['v'] + (['a'] + (Scheme + tail)))))
         == ['j'] + (['a'] + (['v'] + (['a'] + tail)))
  {
    var r0 := Scheme + tail;
    assert r0[..11] == Scheme && r0[11..] == tail;
    StripSchemeDrops(r0);
    var r1 := ['a'] + r0;
    StripSchemeKeepsHead('a', r0, 0);
    var r2 := ['v'] + r1;
    StripSchemeKeepsHead('v', r1, 0);
    var r3 := ['a'] + r2;
    StripSchemeKeepsHead('a', r2, 0);
    assert r3[3] == r0[0] == Scheme[0] == 'j';
    KeepsJ(r3);
  }

  /** The final "j" of the steps: at index 4 it meets the 'j' that starts the hidden scheme,
      where the scheme has 's'. */
  lemma KeepsJ(r3: string)
    requires |r3| >= |Scheme| && r3[3] == 'j'
    ensures StripScheme(['j'] + r3) == ['j'] + StripScheme(r3)
  {
    var s := ['j'] + r3;
    assert s[4] == r3[3];
    assert LowerChar('j') == 'j' && Scheme[4] == 's';
    StripSchemeKeepsHead('j', r3, 4);
  }

  lemma ConsFour(a: char, b: char, c: char, d: char, t: string)
    ensures [a] + ([b] + ([c] + ([d] + t))) == [a, b, c, d] + t
  {
  }

  lemma SchemeWitnessScheme()
    ensures StripScheme(SchemeWitness) == Scheme
  {
    HiddenScheme("script:");
  }

  lemma WordsWithoutOStay(x: string)
    requires 'o' !in x && 'O' !in x
    ensures StripHandlers(x) == x
  {
    forall i | 0 <= i < |x|
      ensures !HandlerAt(x, i)
    {
      if HandlerAt(x, i) {
        MatchedHead(x, "on", i);
      }
    }
    StripHandlersFixes(x);
  }

  /** A match starts with its first character, up to case. */
  lemma MatchedHead(s: string, t: string, i: int)
    requires MatchAtCI(s, t, i) && |t| > 0
    ensures LowerChar(s[i]) == t[0]
  {
    assert Lower(s[i..i + |t|])[0] == LowerChar(s[i]);
  }

  lemma SchemeIsTrimmed()
    ensures Trim(Scheme) == Scheme
  {
    assert !JsValues.WhiteSpace(Scheme[0]);
    assert TrimStart(Scheme) == Scheme;
    assert !JsValues.WhiteSpace(Scheme[10]);
  }

  lemma AnglesKept(s: string)
    requires '<' !in s && '>' !in s
    ensures StripAngles(s) == s
  {
  }

  /** `sanitizeInput("javajavascript:script:")` is "javascript:". */
  lemma SchemeSurvivesSanitizing()
    ensures SanitizeInput(SchemeWitness) == Scheme
    ensures SchemeAt(SanitizeInput(SchemeWitness), 0)
    ensures !Clean(SanitizeInput(SchemeWitness))
  {
    SchemeWitnessSanitized();
    SchemeAtStart();
  }

  lemma SchemeWitnessSanitized()
    ensures SanitizeInput(SchemeWitness) == Scheme
  {
    AnglesKept(SchemeWitness);
    SchemeWitnessScheme();
    SanitizedToScheme(SchemeWitness);
  }

  /** Once the angles and the scheme pass leave "javascript:", so does the rest. */
  lemma SanitizedToScheme(s: string)
    requires StripAngles(s) == s && StripScheme(s) == Scheme
    ensures SanitizeInput(s) == Scheme
  {
    SchemeHasNoO();
    WordsWithoutOStay(Scheme);
    SchemeIsTrimmed();
    SanitizedToFixedPoint(s, Scheme);
  }

  /** When the scheme pass yields `x` and the last two steps leave `x` alone, `x` comes out. */
  lemma SanitizedToFixedPoint(s: string, x: string)
    requires StripAngles(s) == s && StripScheme(s) == x
    requires StripHandlers(x) == x && Trim(x) == x
    ensures SanitizeInput(s) == x
  {
  }

  lemma SchemeHasNoO()
    ensures 'o' !in Scheme && 'O' !in Scheme
  {
    forall k | 0 <= k < |Scheme|
      ensures Scheme[k] != 'o' && Scheme[k] != 'O'
    {
    }
  }

  lemma SchemeAtStart()
    ensures SchemeAt(Scheme, 0) && !Clean(Scheme)
  {
    var s := Scheme;
    assert s[0..11] == s;
    forall k | 0 <= k < 11
      ensures Lower(s)[k] == s[k]
    {
      if k == 0 {} else if k == 1 {} else if k == 2 {} else if k == 3 {} else if k == 4 {}
      else if k == 5 {} else if k == 6 {} else if k == 7 {} else if k == 8 {} else if k == 9 {}
      else {}
    }
    assert Lower(s) == s;
    assert SchemeAt(s, 0);
  }
}
