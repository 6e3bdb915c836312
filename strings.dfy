/**
 * The Kotlin standard-library string operations the app relies on
 * (`isDigit`, `lowercase`, `trim`, `isBlank`, `split`, `joinToString`,
 * `toIntOrNull`, `Int.toString`, `Long.toInt`).  Character classes are
 * restricted to ASCII: Kotlin's Unicode-wide classification is not modelled.
 */
module Strings {

  datatype Option<T> = None | Some(value: T)

  /** `o ?: fallback`. */
  function OrElse<T>(o: Option<T>, fallback: T): T
  {
    if o.Some? then o.value else fallback
  }

  /** The range of Kotlin's 32-bit `Int`. */
  const IntMin: int := -0x8000_0000
  const IntMax: int := 0x7FFF_FFFF

  predicate IsDigit(c: char) { '0' <= c <= '9' }
  predicate IsUpper(c: char) { 'A' <= c <= 'Z' }
  predicate IsLower(c: char) { 'a' <= c <= 'z' }
  predicate IsLetter(c: char) { IsUpper(c) || IsLower(c) }

  /** `Char.isWhitespace` on ASCII: space, TAB..CR and the four separators FS..US. */
  predicate IsWhitespace(c: char) { c == ' ' || 9 <= c as int <= 13 || 28 <= c as int <= 31 }

  predicate AllDigits(s: string) { forall i :: 0 <= i < |s| ==> IsDigit(s[i]) }

  predicate IsBlank(s: string) { forall i :: 0 <= i < |s| ==> IsWhitespace(s[i]) }

  function LowerChar(c: char): (r: char)
    ensures IsUpper(c) ==> IsLower(r) && r as int == c as int + 32
    ensures !IsUpper(c) ==> r == c
  {
    if IsUpper(c) then (c as int + 32) as char else c
  }

  function UpperChar(c: char): (r: char)
    ensures IsLower(c) ==> IsUpper(r) && r as int == c as int - 32
    ensures !IsLower(c) ==> r == c
  {
    if IsLower(c) then (c as int - 32) as char else c
  }

  /** `String.lowercase()`. */
  function Lower(s: string): (r: string)
    ensures |r| == |s|
    ensures forall i :: 0 <= i < |s| ==> r[i] == LowerChar(s[i])
  {
    if s == [] then [] else [LowerChar(s[0])] + Lower(s[1..])
  }

  /** `String.uppercase()`. */
  function Upper(s: string): (r: string)
    ensures |r| == |s|
    ensures forall i :: 0 <= i < |s| ==> r[i] == UpperChar(s[i])
  {
    if s == [] then [] else [UpperChar(s[0])] + Upper(s[1..])
  }

  lemma LowerIdempotent(s: string)
    ensures Lower(Lower(s)) == Lower(s)
    ensures forall i :: 0 <= i < |s| ==> !IsUpper(Lower(s)[i])
  {
  }

  lemma LowerAppend(a: string, b: string)
    ensures Lower(a + b) == Lower(a) + Lower(b)
  {
  }

  /** `filter { keep(it) }` on a string. */
  function Filter(s: string, keep: char -> bool): (r: string)
    ensures |r| <= |s|
    ensures forall i :: 0 <= i < |r| ==> keep(r[i])
    ensures forall c :: c in r ==> c in s
  {
    if s == [] then []
    else (if keep(s[0]) then [s[0]] else []) + Filter(s[1..], keep)
  }

  /** `filter(Char::isDigit)`. */
  function Digits(s: string): (r: string)
  {
    Filter(s, IsDigit)
  }

  lemma {:induction false} FilterAppend(a: string, b: string, keep: char -> bool)
    ensures Filter(a + b, keep) == Filter(a, keep) + Filter(b, keep)
  {
    if a != [] {
      assert (a + b)[1..] == a[1..] + b;
      FilterAppend(a[1..], b, keep);
    } else {
      assert a + b == b;
    }
  }

  /** Filtering keeps a string whose every character passes. */
  lemma {:induction false} FilterKeepsAll(s: string, keep: char -> bool)
    requires forall i :: 0 <= i < |s| ==> keep(s[i])
    ensures Filter(s, keep) == s
  {
    if s != [] {
      FilterKeepsAll(s[1..], keep);
    }
  }

  lemma FilterIdempotent(s: string, keep: char -> bool)
    ensures Filter(Filter(s, keep), keep) == Filter(s, keep)
  {
    FilterKeepsAll(Filter(s, keep), keep);
  }

  /** Every character that passes the test is kept, in order: the filter of a
      passing character followed by the rest is that character first. */
  lemma {:induction false} FilterCount(s: string, keep: char -> bool)
    ensures |Filter(s, keep)| == |s| <==> forall i :: 0 <= i < |s| ==> keep(s[i])
  {
    if s != [] {
      FilterCount(s[1..], keep);
      if !keep(s[0]) {
        assert |Filter(s, keep)| == |Filter(s[1..], keep)| <= |s[1..]|;
      } else {
        assert |Filter(s, keep)| == 1 + |Filter(s[1..], keep)|;
        if forall i :: 0 <= i < |s[1..]| ==> keep(s[1..][i]) {
          forall i | 0 <= i < |s| ensures keep(s[i]) {
            if i > 0 { assert s[i] == s[1..][i - 1]; }
          }
        }
      }
    }
  }

  /** Filtering first by a weaker test changes nothing. */
  lemma {:induction false} FilterNarrow(s: string, wide: char -> bool, narrow: char -> bool)
    requires forall c :: narrow(c) ==> wide(c)
    ensures Filter(Filter(s, wide), narrow) == Filter(s, narrow)
  {
    if s != [] {
      FilterNarrow(s[1..], wide, narrow);
      if wide(s[0]) {
        assert Filter(s, wide) == [s[0]] + Filter(s[1..], wide);
        FilterAppend([s[0]], Filter(s[1..], wide), narrow);
        assert [s[0]][1..] == [];
      } else {
        assert Filter(s, wide) == [] + Filter(s[1..], wide) == Filter(s[1..], wide);
        assert Filter(s, narrow) == [] + Filter(s[1..], narrow) == Filter(s[1..], narrow);
      }
    }
  }

  /** Nothing survives the filter exactly when no character passes. */
  lemma {:induction false} FilterEmpty(s: string, keep: char -> bool)
    ensures Filter(s, keep) == [] <==> forall i :: 0 <= i < |s| ==> !keep(s[i])
  {
    if s != [] {
      FilterEmpty(s[1..], keep);
      assert forall i :: 1 <= i < |s| ==> s[i] == s[1..][i - 1];
    }
  }

  lemma DigitsOfDigits(s: string)
    requires AllDigits(s)
    ensures Digits(s) == s
  {
    FilterKeepsAll(s, IsDigit);
  }

  /** The number of leading whitespace characters. */
  function LeadingWhitespace(s: string): (k: nat)
    ensures k <= |s|
  {
    if s != [] && IsWhitespace(s[0]) then 1 + LeadingWhitespace(s[1..]) else 0
  }

  /** Removes leading whitespace. */
  function TrimStart(s: string): string
  {
    if s != [] && IsWhitespace(s[0]) then TrimStart(s[1..]) else s
  }

  /** Removes trailing whitespace. */
  function TrimEnd(s: string): string
  {
    if s != [] && IsWhitespace(s[|s| - 1]) then TrimEnd(s[..|s| - 1]) else s
  }

  /** What `TrimStart` cuts is the leading whitespace, and what it keeps does
      not start with whitespace. */
  lemma {:induction false} TrimStartFacts(s: string)
    ensures TrimStart(s) == s[LeadingWhitespace(s)..]
    ensures TrimStart(s) == [] || !IsWhitespace(TrimStart(s)[0])
    ensures forall i :: 0 <= i < LeadingWhitespace(s) ==> IsWhitespace(s[i])
  {
    if s != [] && IsWhitespace(s[0]) {
      TrimStartFacts(s[1..]);
      forall i | 1 <= i < LeadingWhitespace(s) ensures IsWhitespace(s[i]) {
        assert s[i] == s[1..][i - 1];
      }
    }
  }

  /** What `TrimEnd` keeps is a prefix that does not end with whitespace, and
      what it cuts is whitespace. */
  lemma {:induction false} TrimEndFacts(s: string)
    ensures |TrimEnd(s)| <= |s| && TrimEnd(s) == s[..|TrimEnd(s)|]
    ensures TrimEnd(s) == [] || !IsWhitespace(TrimEnd(s)[|TrimEnd(s)| - 1])
    ensures forall i :: |TrimEnd(s)| <= i < |s| ==> IsWhitespace(s[i])
  {
    if s != [] && IsWhitespace(s[|s| - 1]) {
      var init := s[..|s| - 1];
      TrimEndFacts(init);
      forall i | |TrimEnd(s)| <= i < |s| ensures IsWhitespace(s[i]) {
        if i < |s| - 1 { assert s[i] == init[i]; }
      }
    }
  }

  /** `String.trim()`: leading and trailing whitespace removed; the result
      neither starts nor ends with whitespace (see `TrimSlice` for where it
      sits in the input). */
  function Trim(s: string): (r: string)
    ensures |r| <= |s|
    ensures r == [] || (!IsWhitespace(r[0]) && !IsWhitespace(r[|r| - 1]))
  {
    TrimStartFacts(s);
    TrimEndFacts(TrimStart(s));
    var r := TrimEnd(TrimStart(s));
    assert r != [] ==> r[0] == TrimStart(s)[0];
    r
  }

  /** The trimmed string is the slice of the input after its leading
      whitespace, and everything cut away on either side is whitespace. */
  lemma TrimSlice(s: string)
    ensures LeadingWhitespace(s) + |Trim(s)| <= |s|
    ensures Trim(s) == s[LeadingWhitespace(s)..LeadingWhitespace(s) + |Trim(s)|]
    ensures forall i :: 0 <= i < LeadingWhitespace(s) ==> IsWhitespace(s[i])
    ensures forall i :: LeadingWhitespace(s) + |Trim(s)| <= i < |s| ==> IsWhitespace(s[i])
  {
    var a := TrimStart(s);
    var k := LeadingWhitespace(s);
    TrimStartFacts(s);
    TrimEndFacts(a);
    var r := Trim(s);
    assert r == TrimEnd(a);
    assert r == s[k..k + |r|];
    forall i | k + |r| <= i < |s| ensures IsWhitespace(s[i]) {
      assert s[i] == a[i - k];
    }
  }

  lemma BlankIffTrimEmpty(s: string)
    ensures IsBlank(s) <==> Trim(s) == []
  {
    TrimSlice(s);
    if Trim(s) != [] {
      assert s[LeadingWhitespace(s)] == Trim(s)[0];
    }
  }

  lemma TrimOfNonWhitespaceEnds(s: string)
    requires s == [] || (!IsWhitespace(s[0]) && !IsWhitespace(s[|s| - 1]))
    ensures Trim(s) == s
  {
    assert TrimStart(s) == s;
  }

  predicate Visible(c: char) { !IsWhitespace(c) }

  /** Trimming removes whitespace only: the visible characters are kept, in
      order. */
  lemma TrimKeepsVisible(s: string)
    ensures Filter(Trim(s), Visible) == Filter(s, Visible)
  {
    TrimSlice(s);
    var k := LeadingWhitespace(s);
    var e := k + |Trim(s)|;
    assert s == s[..k] + Trim(s) + s[e..];
    FilterAppend(s[..k] + Trim(s), s[e..], Visible);
    FilterAppend(s[..k], Trim(s), Visible);
    FilterEmpty(s[..k], Visible);
    FilterEmpty(s[e..], Visible);
  }

  lemma TrimIdempotent(s: string)
    ensures Trim(Trim(s)) == Trim(s)
  {
    TrimOfNonWhitespaceEnds(Trim(s));
  }

  lemma BlankTrimmed(s: string)
    ensures IsBlank(Trim(s)) <==> IsBlank(s)
  {
    BlankIffTrimEmpty(s);
    BlankIffTrimEmpty(Trim(s));
    TrimIdempotent(s);
  }

  predicate StartsWith(s: string, p: string) { |p| <= |s| && s[..|p|] == p }

  predicate EndsWith(s: string, p: string) { |p| <= |s| && s[|s| - |p|..] == p }

  predicate OccursAt(s: string, q: string, k: int)
  {
    0 <= k <= |s| - |q| && s[k..k + |q|] == q
  }

  /** `s.contains(q)`: `q` occurs as a contiguous slice of `s`. */
  predicate Contains(s: string, q: string)
  {
    exists k :: 0 <= k <= |s| - |q| && OccursAt(s, q, k)
  }

  /** `s.contains(q, ignoreCase = true)` for ASCII letters. */
  predicate ContainsIgnoreCase(s: string, q: string)
  {
    Contains(Lower(s), Lower(q))
  }

  /** `joinToString(sep)`. */
  function Join(parts: seq<string>, sep: string): (r: string)
    ensures parts == [] ==> r == []
    ensures |parts| == 1 ==> r == parts[0]
  {
    if parts == [] then []
    else if |parts| == 1 then parts[0]
    else parts[0] + sep + Join(parts[1..], sep)
  }

  predicate Excludes(piece: string, c: char) { forall j :: 0 <= j < |piece| ==> piece[j] != c }

  /** `split(sep)` with a one-character separator: never empty; no piece
      holds the separator. */
  function Split(s: string, sep: char): (r: seq<string>)
    ensures |r| >= 1
    ensures forall i :: 0 <= i < |r| ==> Excludes(r[i], sep)
  {
    if s == [] then [[]]
    else
      var rest := Split(s[1..], sep);
      if s[0] == sep then [[]] + rest
      else [[s[0]] + rest[0]] + rest[1..]
  }

  /** Splitting and re-joining with the separator gives back the input. */
  lemma {:induction false} SplitJoin(s: string, sep: char)
    ensures Join(Split(s, sep), [sep]) == s
  {
    if s != [] {
      var rest := Split(s[1..], sep);
      SplitJoin(s[1..], sep);
      if s[0] == sep {
        assert Split(s, sep) == [[]] + rest;
        assert Join([[]] + rest, [sep]) == [] + [sep] + Join(rest, [sep]);
      } else {
        var r := Split(s, sep);
        assert r == [[s[0]] + rest[0]] + rest[1..];
        if |rest| == 1 {
          assert Join(r, [sep]) == [s[0]] + rest[0];
        } else {
          assert Join(rest, [sep]) == rest[0] + [sep] + Join(rest[1..], [sep]);
          assert r[1..] == rest[1..];
          assert Join(r, [sep]) == [s[0]] + rest[0] + [sep] + Join(rest[1..], [sep]);
        }
      }
    }
  }

  // ---------------------------------------------------------------------------
  // Numbers: `toIntOrNull`, `Int.toString`, `Long.toInt`

  function DigitValue(c: char): (d: nat)
    requires IsDigit(c)
    ensures d < 10
  {
    c as int - '0' as int
  }

  function DigitChar(d: nat): (c: char)
    requires d < 10
    ensures IsDigit(c) && DigitValue(c) == d
  {
    ('0' as int + d) as char
  }

  /** The value of a string of decimal digits. */
  function DecValue(s: string): nat
    requires AllDigits(s)
  {
    if s == [] then 0 else 10 * DecValue(s[..|s| - 1]) + DigitValue(s[|s| - 1])
  }

  /** `String.toIntOrNull()`: an optional sign, then one or more digits, and a
      value inside the 32-bit range; anything else is null. */
  function ParseInt(s: string): (r: Option<int>)
    ensures r.Some? ==> IntMin <= r.value <= IntMax
    ensures AllDigits(s) && s != [] ==> (r.Some? <==> DecValue(s) <= IntMax)
    ensures r.Some? && AllDigits(s) ==> r.value == DecValue(s)
    ensures IsBlank(s) ==> r == None
  {
    if s == [] then None
    else if s[0] == '-' || s[0] == '+' then
      if |s| == 1 || !AllDigits(s[1..]) then None
      else
        var d: int := DecValue(s[1..]);
        var v := if s[0] == '-' then -d else d;
        if IntMin <= v <= IntMax then Some(v) else None
    else if AllDigits(s) && DecValue(s) <= IntMax then Some(DecValue(s))
    else None
  }

  /** Decimal text of a natural number, without leading zeros. */
  function NatText(n: nat): (r: string)
    ensures AllDigits(r) && |r| >= 1
  {
    if n < 10 then [DigitChar(n)] else NatText(n / 10) + [DigitChar(n % 10)]
  }

  /** `Int.toString()` / `Long.toString()`. */
  function IntText(n: int): (r: string)
  {
    if n < 0 then "-" + NatText(-n) else NatText(n)
  }

  lemma {:induction false} NatTextValue(n: nat)
    ensures DecValue(NatText(n)) == n
  {
    if n >= 10 {
      NatTextValue(n / 10);
      var t := NatText(n);
      assert t[..|t| - 1] == NatText(n / 10);
    }
  }

  /** `toString` then `toIntOrNull` gives back every 32-bit value. */
  lemma IntTextRoundTrip(n: int)
    requires IntMin <= n <= IntMax
    ensures ParseInt(IntText(n)) == Some(n)
  {
    if n < 0 {
      var m: nat := -n;
      var u := NatText(m);
      NatTextValue(m);
      var t := IntText(n);
      assert t == "-" + u;
      assert t[1..] == u;
    } else {
      NatTextValue(n);
    }
  }

  /** `Long.toInt()`: keeps the low 32 bits, as a two's-complement value. */
  function ToInt32(n: int): (r: int)
    ensures IntMin <= r <= IntMax
    ensures (r - n) % 0x1_0000_0000 == 0
    ensures IntMin <= n <= IntMax ==> r == n
  {
    (n - IntMin) % 0x1_0000_0000 + IntMin
  }
}
