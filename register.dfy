/**
 * Student self-registration: the country dial-code field and its picker,
 * the password-strength meter, and the validation run before an account is
 * created.  Character classes are those of ASCII.
 */
module Register {
  import opened Strings
  import opened Lists
  import opened Countries

  // ---------------------------------------------------------------------------
  // Dial codes

  predicate PlusOrDigit(c: char) { c == '+' || IsDigit(c) }

  predicate HasDigit(s: string) { exists i :: 0 <= i < |s| && IsDigit(s[i]) }

  lemma DigitsEmpty(s: string)
    ensures Digits(s) == [] <==> !HasDigit(s)
  {
    FilterEmpty(s, IsDigit);
  }

  lemma DigitsAfterPlusFilter(s: string)
    ensures Digits(Filter(s, PlusOrDigit)) == Digits(s)
  {
    FilterNarrow(s, PlusOrDigit, IsDigit);
  }

  /** The digits of "+" followed by digits are those digits. */
  lemma DigitsOfPlusDigits(d: string)
    requires AllDigits(d)
    ensures Digits("+" + d) == d
  {
    FilterAppend("+", d, IsDigit);
    DigitsOfDigits(d);
  }

  lemma DigitsNotBlank(s: string)
    ensures Digits(s) != [] ==> !IsBlank(Digits(s))
  {
    if Digits(s) != [] {
      assert IsDigit(Digits(s)[0]);
    }
  }

  /** `normalizeCountryCode`: "" when the input has no digit, otherwise "+"
      followed by every digit of the input, in order. */
  function NormalizeCountryCode(input: string): (r: string)
    ensures r == [] <==> !HasDigit(input)
    ensures r != [] ==> r == "+" + Digits(input)
  {
    var v := Filter(input, PlusOrDigit);
    BlankIffTrimEmpty(v);
    if IsBlank(v) then
      FilterEmpty(input, PlusOrDigit);
      DigitsEmpty(input);
      ""
    else
      var digits := Filter(v, IsDigit);
      DigitsAfterPlusFilter(input);
      DigitsEmpty(input);
      DigitsNotBlank(input);
      if IsBlank(digits) then ""
      else
        "+" + digits
  }

  lemma NormalizeIdempotent(input: string)
    ensures NormalizeCountryCode(NormalizeCountryCode(input)) == NormalizeCountryCode(input)
  {
    var r := NormalizeCountryCode(input);
    if r != [] {
      var d := Digits(input);
      DigitsOfPlusDigits(d);
      DigitsEmpty(r);
      assert IsDigit(r[1]);
    }
  }

  /** `sanitize` in the code field: "" only when the input has neither '+'
      nor a digit, otherwise "+" followed by only the input's digits. */
  function Sanitize(input: string): (r: string)
    ensures r == [] <==> forall i :: 0 <= i < |input| ==> !PlusOrDigit(input[i])
    ensures r != [] ==> r == "+" + Digits(input)
  {
    var filtered := Filter(input, PlusOrDigit);
    FilterEmpty(input, PlusOrDigit);
    DigitsAfterPlusFilter(input);
    if filtered == [] then ""
    else if StartsWith(filtered, "+") then
      assert filtered == [filtered[0]] + filtered[1..];
      FilterAppend([filtered[0]], filtered[1..], IsDigit);
      assert Filter([filtered[0]], IsDigit) == [];
      "+" + Filter(filtered[1..], IsDigit)
    else "+" + Filter(filtered, IsDigit)
  }

  lemma SanitizeIdempotent(input: string)
    ensures Sanitize(Sanitize(input)) == Sanitize(input)
  {
    var r := Sanitize(input);
    if r != [] {
      DigitsOfPlusDigits(Digits(input));
      assert PlusOrDigit(r[0]);
    }
  }

  predicate NotSpace(c: char) { c != ' ' }

  /** A code with no space and no whitespace at either end. */
  predicate AlreadyClean(code: string)
  {
    && (forall i :: 0 <= i < |code| ==> code[i] != ' ')
    && (code == [] || (!IsWhitespace(code[0]) && !IsWhitespace(code[|code| - 1])))
  }

  /** `cleaned`: spaces removed, then trimmed.  What is left holds no space
      and no whitespace at either end, keeps every visible character of the
      code in order, and is the code itself when the code was clean already. */
  function Cleaned(code: string): (r: string)
    ensures AlreadyClean(r)
    ensures Filter(r, Visible) == Filter(code, Visible)
    ensures AlreadyClean(code) ==> r == code
  {
    CleanedFacts(code);
    Trim(Filter(code, NotSpace))
  }

  /** What `cleaned` leaves is clean and keeps the visible characters; a
      clean code is left as it is. */
  lemma CleanedFacts(code: string)
    ensures AlreadyClean(Trim(Filter(code, NotSpace)))
    ensures Filter(Trim(Filter(code, NotSpace)), Visible) == Filter(code, Visible)
    ensures AlreadyClean(code) ==> Trim(Filter(code, NotSpace)) == code
  {
    var noSpaces := Filter(code, NotSpace);
    TrimNoSpaces(noSpaces);
    TrimKeepsVisible(noSpaces);
    FilterNarrow(code, NotSpace, Visible);
    if AlreadyClean(code) {
      CleanCodeKept(code);
    }
  }

  /** Trimming a text without spaces leaves a clean one. */
  lemma TrimNoSpaces(s: string)
    requires forall i :: 0 <= i < |s| ==> NotSpace(s[i])
    ensures AlreadyClean(Trim(s))
  {
    TrimSlice(s);
    var r := Trim(s);
    var k := LeadingWhitespace(s);
    forall i | 0 <= i < |r| ensures r[i] != ' ' {
      assert r[i] == s[k + i];
    }
  }

  /** A clean code survives `cleaned` unchanged. */
  lemma CleanCodeKept(code: string)
    requires AlreadyClean(code)
    ensures Trim(Filter(code, NotSpace)) == code
  {
    FilterKeepsAll(code, NotSpace);
    TrimOfNonWhitespaceEnds(code);
  }

  /** Cleaning a cleaned code changes nothing. */
  lemma CleanedIdempotent(code: string)
    ensures Cleaned(Cleaned(code)) == Cleaned(code)
  {
  }

  predicate CodeIs(c: PhoneCountry, q: string) { Cleaned(c.phoneCode) == q }

  /** `findMatch`: nothing for a blank query, otherwise the first country whose
      cleaned dial code equals the cleaned query (see `FindMatchIsFirst`). */
  function FindMatch(countries: seq<PhoneCountry>, code: string): (r: Option<PhoneCountry>)
    ensures IsBlank(Cleaned(code)) ==> r.None?
    ensures r.Some? ==> r.value in countries && CodeIs(r.value, Cleaned(code))
  {
    var q := Cleaned(code);
    if IsBlank(q) then None
    else
      var k := FirstWhere(countries, c => CodeIs(c, q));
      if k < |countries| then Some(countries[k]) else None
  }

  /** The match found is the first country with the code, and no match means
      no country has it. */
  lemma FindMatchIsFirst(countries: seq<PhoneCountry>, code: string)
    requires !IsBlank(Cleaned(code))
    ensures FindMatch(countries, code).Some? ==>
      exists i :: (0 <= i < |countries| && countries[i] == FindMatch(countries, code).value &&
        forall j :: 0 <= j < i ==> !CodeIs(countries[j], Cleaned(code)))
    ensures FindMatch(countries, code).None? ==>
      forall j :: 0 <= j < |countries| ==> !CodeIs(countries[j], Cleaned(code))
  {
    var q := Cleaned(code);
    var k := FirstWhere(countries, c => CodeIs(c, q));
    assert forall j :: 0 <= j < k ==> !CodeIs(countries[j], q);
  }

  predicate Suggested(c: PhoneCountry, q: string)
  {
    StartsWith(Cleaned(c.phoneCode), q) || ContainsIgnoreCase(c.name, q)
  }

  const MaxSuggestions: nat := 12

  /** The picker's suggestions: none for a cleaned query shorter than two
      characters, otherwise the first twelve countries, in list order, whose
      dial code starts with the query or whose name contains it: a prefix of
      the matching countries, twelve long or all of them (see
      `SuggestionsMatch` and `SuggestionsKeepEarlier`). */
  function Suggestions(countries: seq<PhoneCountry>, codeText: string): (r: seq<PhoneCountry>)
    ensures |Cleaned(codeText)| < 2 ==> r == []
    ensures |r| <= MaxSuggestions
    ensures |Cleaned(codeText)| >= 2 ==>
      var m := Matching(countries, Cleaned(codeText));
      && r <= m
      && |r| == (if |m| < MaxSuggestions then |m| else MaxSuggestions)
  {
    var q := Cleaned(codeText);
    if |q| < 2 then [] else Take(Matching(countries, q), MaxSuggestions)
  }

  /** Every suggestion is a country the query suggests, and when fewer than
      twelve are shown, every country the query suggests is shown. */
  lemma SuggestionsMatch(countries: seq<PhoneCountry>, codeText: string)
    ensures forall i :: 0 <= i < |Suggestions(countries, codeText)| ==>
      Suggestions(countries, codeText)[i] in countries && Suggested(Suggestions(countries, codeText)[i], Cleaned(codeText))
    ensures |Cleaned(codeText)| >= 2 && |Suggestions(countries, codeText)| < MaxSuggestions ==>
      forall c :: c in countries && Suggested(c, Cleaned(codeText)) ==> c in Suggestions(countries, codeText)
  {
    var q := Cleaned(codeText);
    var r := Suggestions(countries, codeText);
    if |q| >= 2 {
      var m := Matching(countries, q);
      assert r == m[..|r|];
      forall i | 0 <= i < |r| ensures r[i] in countries && Suggested(r[i], q) {
        assert r[i] == m[i];
        assert m[i] in m;
      }
      if |r| < MaxSuggestions {
        assert r == m;
      }
    }
  }

  /** The countries, in list order, that the query `q` suggests: each such
      country and no other, the whole list when every country matches, and
      the matches of a longer list are those of its parts in turn (see
      `MatchingAppend`). */
  function Matching(countries: seq<PhoneCountry>, q: string): (r: seq<PhoneCountry>)
    ensures forall c :: c in r <==> c in countries && Suggested(c, q)
    ensures (forall i :: 0 <= i < |countries| ==> Suggested(countries[i], q)) ==> r == countries
  {
    if forall i :: 0 <= i < |countries| ==> Suggested(countries[i], q) then
      SelectKeepsAll(countries, c => Suggested(c, q));
      Select(countries, c => Suggested(c, q))
    else
      Select(countries, c => Suggested(c, q))
  }

  /** The matches of two lists one after the other are the matches of the
      first followed by those of the second: matching keeps list order. */
  lemma MatchingAppend(a: seq<PhoneCountry>, b: seq<PhoneCountry>, q: string)
    ensures Matching(a + b, q) == Matching(a, q) + Matching(b, q)
  {
    SelectAppend(a, b, c => Suggested(c, q));
  }

  /** A matching country earlier in the list is never dropped for a later
      one: when the front `a` of the list has at most twelve matches they are
      all shown, first; when it has twelve or more, what follows it changes
      nothing. */
  lemma SuggestionsKeepEarlier(a: seq<PhoneCountry>, b: seq<PhoneCountry>, codeText: string)
    requires |Cleaned(codeText)| >= 2
    ensures |Matching(a, Cleaned(codeText))| <= MaxSuggestions ==>
      Matching(a, Cleaned(codeText)) <= Suggestions(a + b, codeText)
    ensures |Matching(a, Cleaned(codeText))| >= MaxSuggestions ==>
      Suggestions(a + b, codeText) == Suggestions(a, codeText)
  {
    var q := Cleaned(codeText);
    MatchingAppend(a, b, q);
    PrefixTake(Matching(a, q), Matching(b, q), MaxSuggestions);
  }

  /** The first `n` elements of `x + y` begin with `x` when `x` has at most
      `n` elements, and are the first `n` of `x` when it has `n` or more. */
  lemma PrefixTake<T>(x: seq<T>, y: seq<T>, n: nat)
    ensures |x| <= n ==> x <= Take(x + y, n)
    ensures |x| >= n ==> Take(x + y, n) == Take(x, n)
  {
    if |x| <= n {
      assert Take(x + y, n)[..|x|] == (x + y)[..|x|] == x;
    } else {
      assert (x + y)[..n] == x[..n];
    }
  }

  // ---------------------------------------------------------------------------
  // Password strength

  datatype PasswordStrength = EMPTY | WEAK | MEDIUM | STRONG

  predicate IsSymbol(c: char) { c in "!@#$%^&*+=" }

  predicate HasUpper(p: string) { exists i :: 0 <= i < |p| && IsUpper(p[i]) }
  predicate HasLower(p: string) { exists i :: 0 <= i < |p| && IsLower(p[i]) }
  predicate HasSymbol(p: string) { exists i :: 0 <= i < |p| && IsSymbol(p[i]) }

  function Count(b: bool): nat { if b then 1 else 0 }

  /** How many of the five criteria the password meets. */
  function StrengthScore(p: string): (n: nat)
    ensures n <= 5
    ensures n == 5 <==> |p| >= 8 && HasUpper(p) && HasLower(p) && HasDigit(p) && HasSymbol(p)
  {
    Count(|p| >= 8) + Count(HasUpper(p)) + Count(HasLower(p)) + Count(HasDigit(p)) + Count(HasSymbol(p))
  }

  /** `getPasswordStrength`: at most two criteria is WEAK, three or four is
      MEDIUM, all five is STRONG; EMPTY is never returned. */
  function GetPasswordStrength(p: string): (r: PasswordStrength)
    ensures r != EMPTY
    ensures r == WEAK <==> StrengthScore(p) <= 2
    ensures r == MEDIUM <==> 3 <= StrengthScore(p) <= 4
    ensures r == STRONG <==> |p| >= 8 && HasUpper(p) && HasLower(p) && HasDigit(p) && HasSymbol(p)
  {
    var score := StrengthScore(p);
    if score <= 2 then WEAK
    else if score <= 4 then MEDIUM
    else STRONG
  }

  lemma EmptyPasswordIsWeak()
    ensures GetPasswordStrength("") == WEAK
  {
  }

  // ---------------------------------------------------------------------------
  // Email and phone patterns

  predicate LocalChar(c: char) { IsLetter(c) || IsDigit(c) || c in "+_.-" }
  predicate DomainChar(c: char) { IsLetter(c) || IsDigit(c) || c == '.' || c == '-' }

  predicate AllOf(s: string, p: char -> bool) { forall i :: 0 <= i < |s| ==> p(s[i]) }

  /** `s` splits as local part, '@' at `at`, domain, '.' at `dot`, and a
      top-level domain of two or more letters: the shape the pattern
      `^[A-Za-z0-9+_.-]+@[A-Za-z0-9.-]+\.[A-Za-z]{2,}$` describes. */
  predicate EmailShape(s: string, at: int, dot: int)
  {
    && 1 <= at && at + 1 < dot && dot + 3 <= |s|
    && s[at] == '@' && s[dot] == '.'
    && AllOf(s[..at], LocalChar)
    && AllOf(s[at + 1..dot], DomainChar)
    && AllOf(s[dot + 1..], IsLetter)
  }

  ghost predicate MatchesEmailPattern(s: string)
  {
    exists at, dot :: EmailShape(s, at, dot)
  }

  /** Position of the first `c` in `s`, or `|s|`. */
  function IndexOf(s: string, c: char): (k: nat)
    ensures k <= |s| && (k < |s| ==> s[k] == c)
    ensures forall j :: 0 <= j < k ==> s[j] != c
  {
    if s == [] then 0 else if s[0] == c then 0 else 1 + IndexOf(s[1..], c)
  }

  /** Position of the last `c` in `s`, or -1. */
  function LastIndexOf(s: string, c: char): (k: int)
    ensures -1 <= k < |s| && (k >= 0 ==> s[k] == c)
    ensures forall j :: k < j < |s| ==> s[j] != c
  {
    if s == [] then -1
    else if s[|s| - 1] == c then |s| - 1
    else LastIndexOf(s[..|s| - 1], c)
  }

  /** The pattern check as the matcher decides it: the local part runs to the
      first '@'; the rest holds only domain characters and its last '.' is
      preceded by at least one of them and followed by two or more letters. */
  predicate IsEmailFormat(s: string): (b: bool)
    ensures b ==> 6 <= |s| && '@' in s
  {
    var at := IndexOf(s, '@');
    && 1 <= at < |s|
    && AllOf(s[..at], LocalChar)
    && var rest := s[at + 1..];
    && AllOf(rest, DomainChar)
    && var dot := LastIndexOf(rest, '.');
    && 1 <= dot && dot + 3 <= |rest|
    && AllOf(rest[dot + 1..], IsLetter)
  }

  /** A character that `s` does not hold before `k`, but holds at `k`, is
      first found at `k`. */
  lemma IndexOfAt(s: string, c: char, k: nat)
    requires k < |s| && s[k] == c
    requires forall j :: 0 <= j < k ==> s[j] != c
    ensures IndexOf(s, c) == k
  {
  }

  lemma LastIndexOfAt(s: string, c: char, k: nat)
    requires k < |s| && s[k] == c
    requires forall j :: k < j < |s| ==> s[j] != c
    ensures LastIndexOf(s, c) == k
  {
  }

  lemma EmailFormatSound(s: string)
    requires IsEmailFormat(s)
    ensures MatchesEmailPattern(s)
  {
    var at := IndexOf(s, '@');
    var rest := s[at + 1..];
    var dot := LastIndexOf(rest, '.');
    assert s[at + 1..at + 1 + dot] == rest[..dot];
    assert s[at + 1 + dot + 1..] == rest[dot + 1..];
    assert EmailShape(s, at, at + 1 + dot);
  }

  /** In an address of the pattern's shape, the '@' at `at` is the first. */
  lemma ShapeFirstAt(s: string, at: int, dot: int)
    requires EmailShape(s, at, dot)
    ensures IndexOf(s, '@') == at
  {
    forall j | 0 <= j < at ensures s[j] != '@' {
      assert LocalChar(s[..at][j]);
    }
    IndexOfAt(s, '@', at);
  }

  /** In an address of the pattern's shape, everything after the '@' is a
      domain character and the '.' at `dot` is the last one. */
  lemma ShapeLastDot(s: string, at: int, dot: int)
    requires EmailShape(s, at, dot)
    ensures AllOf(s[at + 1..], DomainChar)
    ensures LastIndexOf(s[at + 1..], '.') == dot - at - 1
  {
    var rest := s[at + 1..];
    var d := dot - at - 1;
    forall j | 0 <= j < |rest| ensures DomainChar(rest[j]) {
      if j < d {
        assert rest[j] == s[at + 1..dot][j];
      } else if j > d {
        assert rest[j] == s[dot + 1..][j - d - 1];
      }
    }
    forall j | d < j < |rest| ensures rest[j] != '.' {
      assert rest[j] == s[dot + 1..][j - d - 1];
    }
    LastIndexOfAt(rest, '.', d);
  }

  lemma EmailFormatComplete(s: string, at: int, dot: int)
    requires EmailShape(s, at, dot)
    ensures IsEmailFormat(s)
  {
    ShapeFirstAt(s, at, dot);
    ShapeLastDot(s, at, dot);
    var rest := s[at + 1..];
    var d := dot - at - 1;
    assert rest[d + 1..] == s[dot + 1..];
  }

  /** The computed check accepts exactly the strings the pattern describes. */
  lemma EmailFormatMatchesPattern(s: string)
    ensures IsEmailFormat(s) <==> MatchesEmailPattern(s)
  {
    if IsEmailFormat(s) {
      EmailFormatSound(s);
    }
    if MatchesEmailPattern(s) {
      var at, dot :| EmailShape(s, at, dot);
      EmailFormatComplete(s, at, dot);
    }
  }

  /** `^\+\d+$`: a '+' and one or more digits.  Such a number is left as it
      is by the code field's sanitiser and by the dial-code normaliser. */
  predicate IsPhone(p: string): (b: bool)
    ensures b ==> Sanitize(p) == p && NormalizeCountryCode(p) == p
  {
    if |p| >= 2 && p[0] == '+' && AllDigits(p[1..]) then
      PhoneKeptByCodeField(p);
      true
    else false
  }

  lemma PhoneKeptByCodeField(p: string)
    requires |p| >= 2 && p[0] == '+' && AllDigits(p[1..])
    ensures Sanitize(p) == p && NormalizeCountryCode(p) == p
  {
    assert p == "+" + p[1..];
    DigitsOfPlusDigits(p[1..]);
    assert PlusOrDigit(p[0]);
    assert IsDigit(p[1]);
  }

  /** The number sent to validation: the normalised dial code followed by the
      trimmed national number. */
  function FullPhone(codeText: string, phoneNumber: string): (r: string)
    ensures HasDigit(codeText) ==> r == "+" + Digits(codeText) + Trim(phoneNumber)
    ensures !HasDigit(codeText) ==> r == Trim(phoneNumber)
  {
    var code := NormalizeCountryCode(codeText);
    assert HasDigit(codeText) ==> code == "+" + Digits(codeText);
    assert !HasDigit(codeText) ==> code == [];
    code + Trim(phoneNumber)
  }

  lemma AllDigitsAppend(a: string, b: string)
    requires AllDigits(a)
    ensures AllDigits(a + b) <==> AllDigits(b)
  {
    if AllDigits(a + b) {
      forall i | 0 <= i < |b| ensures IsDigit(b[i]) {
        assert b[i] == (a + b)[|a| + i];
      }
    }
  }

  lemma PhoneAfterCode(codeText: string, n: string)
    ensures IsPhone(NormalizeCountryCode(codeText) + n) <==>
      if HasDigit(codeText) then AllDigits(n) else IsPhone(n)
  {
    var code := NormalizeCountryCode(codeText);
    if HasDigit(codeText) {
      var d := Digits(codeText);
      assert code == "+" + d;
      assert |d| >= 1 by { DigitsEmpty(codeText); }
      assert (code + n)[0] == '+';
      assert (code + n)[1..] == d + n;
      AllDigitsAppend(d, n);
    } else {
      assert code + n == n;
    }
  }

  /** The assembled number passes the phone check exactly when the dial code
      has a digit and the trimmed national number is all digits, or, with no
      digit in the dial code, when the trimmed national number is itself a
      '+' followed by digits. */
  lemma FullPhoneValid(codeText: string, phoneNumber: string)
    ensures IsPhone(FullPhone(codeText, phoneNumber)) <==>
      if HasDigit(codeText) then AllDigits(Trim(phoneNumber)) else IsPhone(Trim(phoneNumber))
  {
    PhoneAfterCode(codeText, Trim(phoneNumber));
  }

  // ---------------------------------------------------------------------------
  // validateAllInputs

  const AdminDomain := "@ad.edu.lb"
  const TeacherDomain := "@tc.edu.lb"

  /** What the validation returns and what it reports to its callback. */
  datatype Outcome = Outcome(ok: bool, reported: string)

  const NamesRequired := "First and last name are required"
  const EmailRequired := "Email is required"
  const InvalidEmail := "Invalid email format"
  const AdminReserved := "This email domain is reserved for admin accounts"
  const TeacherReserved := "This email domain is reserved for teacher accounts"
  const InvalidPhone := "Invalid phone number"
  const PasswordNotStrong := "Password must be strong"
  const PasswordsDiffer := "Passwords do not match"

  function NormalizeEmail(email: string): string
  {
    Lower(Trim(email))
  }

  /** `validateAllInputs`: every check passes and "" is reported, or the first
      failing check's message is reported, in the order names, email present,
      email format, admin domain, teacher domain, phone, strength, match. */
  function ValidateAllInputs(
    firstName: string, lastName: string, email: string, phone: string,
    password: string, confirmPassword: string, strength: PasswordStrength): (r: Outcome)
    ensures r.ok <==>
      && !IsBlank(firstName) && !IsBlank(lastName)
      && MatchesEmailPattern(NormalizeEmail(email))
      && !EndsWith(NormalizeEmail(email), AdminDomain)
      && !EndsWith(NormalizeEmail(email), TeacherDomain)
      && IsPhone(phone)
      && strength == STRONG
      && password == confirmPassword
    ensures r.ok <==> r.reported == ""
    ensures r.reported == NamesRequired <==> IsBlank(firstName) || IsBlank(lastName)
    ensures r.reported == EmailRequired <==>
      !IsBlank(firstName) && !IsBlank(lastName) && IsBlank(NormalizeEmail(email))
    ensures r.reported == InvalidEmail <==>
      !IsBlank(firstName) && !IsBlank(lastName) && !IsBlank(NormalizeEmail(email))
      && !MatchesEmailPattern(NormalizeEmail(email))
    ensures r.reported == AdminReserved <==>
      !IsBlank(firstName) && !IsBlank(lastName) && MatchesEmailPattern(NormalizeEmail(email))
      && EndsWith(NormalizeEmail(email), AdminDomain)
    ensures r.reported == TeacherReserved <==>
      !IsBlank(firstName) && !IsBlank(lastName) && MatchesEmailPattern(NormalizeEmail(email))
      && !EndsWith(NormalizeEmail(email), AdminDomain) && EndsWith(NormalizeEmail(email), TeacherDomain)
    ensures r.reported == InvalidPhone <==>
      !IsBlank(firstName) && !IsBlank(lastName) && MatchesEmailPattern(NormalizeEmail(email))
      && !EndsWith(NormalizeEmail(email), AdminDomain) && !EndsWith(NormalizeEmail(email), TeacherDomain)
      && !IsPhone(phone)
    ensures r.reported == PasswordNotStrong <==>
      !IsBlank(firstName) && !IsBlank(lastName) && MatchesEmailPattern(NormalizeEmail(email))
      && !EndsWith(NormalizeEmail(email), AdminDomain) && !EndsWith(NormalizeEmail(email), TeacherDomain)
      && IsPhone(phone) && strength != STRONG
    ensures r.reported == PasswordsDiffer <==>
      !IsBlank(firstName) && !IsBlank(lastName) && MatchesEmailPattern(NormalizeEmail(email))
      && !EndsWith(NormalizeEmail(email), AdminDomain) && !EndsWith(NormalizeEmail(email), TeacherDomain)
      && IsPhone(phone) && strength == STRONG && password != confirmPassword
  {
    var e := NormalizeEmail(email);
    EmailFormatMatchesPattern(e);
    assert IsEmailFormat(e) ==> !IsBlank(e) by {
      if IsEmailFormat(e) { assert !IsWhitespace(e[0]); }
    }
    if IsBlank(firstName) || IsBlank(lastName) then Outcome(false, NamesRequired)
    else if IsBlank(e) then Outcome(false, EmailRequired)
    else if !IsEmailFormat(e) then Outcome(false, InvalidEmail)
    else if EndsWith(e, AdminDomain) then Outcome(false, AdminReserved)
    else if EndsWith(e, TeacherDomain) then Outcome(false, TeacherReserved)
    else if !IsPhone(phone) then Outcome(false, InvalidPhone)
    else if strength != STRONG then Outcome(false, PasswordNotStrong)
    else if password != confirmPassword then Outcome(false, PasswordsDiffer)
    else Outcome(true, "")
  }
}
