/**
 * The phone-confirmation screen: the number shown with all but its last
 * three digits masked, the one-time-code field that accepts up to six
 * digits, and the check of the entered code against the fixed development
 * code.
 */
module VerifyPhone {
  import opened Strings
  import opened Lists

  const DevOtp := "123456"
  const OtpLength: nat := 6

  function Repeat(c: char, n: nat): (r: string)
    ensures |r| == n && forall i :: 0 <= i < n ==> r[i] == c
  {
    if n == 0 then [] else [c] + Repeat(c, n - 1)
  }

  /** Whitespace around a string adds no digits. */
  lemma DigitsOfPadded(pre: string, t: string, post: string)
    requires forall i :: 0 <= i < |pre| ==> IsWhitespace(pre[i])
    requires forall i :: 0 <= i < |post| ==> IsWhitespace(post[i])
    ensures Digits(pre + t + post) == Digits(t)
  {
    FilterEmpty(pre, IsDigit);
    FilterEmpty(post, IsDigit);
    FilterAppend(pre + t, post, IsDigit);
    FilterAppend(pre, t, IsDigit);
  }

  /** The digits of a string lying between whitespace are all its digits. */
  lemma DigitsOfInner(s: string, lo: nat, hi: nat)
    requires lo <= hi <= |s|
    requires forall i :: 0 <= i < lo ==> IsWhitespace(s[i])
    requires forall i :: hi <= i < |s| ==> IsWhitespace(s[i])
    ensures Digits(s[lo..hi]) == Digits(s)
  {
    var pre, t, post := s[..lo], s[lo..hi], s[hi..];
    assert s == pre + t + post;
    forall i | 0 <= i < |pre| ensures IsWhitespace(pre[i]) {
      assert pre[i] == s[i];
    }
    forall i | 0 <= i < |post| ensures IsWhitespace(post[i]) {
      assert post[i] == s[hi + i];
    }
    DigitsOfPadded(pre, t, post);
  }

  /** Trimming removes only whitespace, so it keeps every digit. */
  lemma DigitsOfTrim(s: string)
    ensures Digits(Trim(s)) == Digits(s)
  {
    TrimSlice(s);
    DigitsOfInner(s, LeadingWhitespace(s), LeadingWhitespace(s) + |Trim(s)|);
  }

  /** `maskPhoneKeepLast3`: "***" for a number with at most three digits;
      otherwise a '+' when the trimmed number starts with one, a '*' for every
      digit but the last three, and those three digits.  Spaces, dashes and
      other characters never reach the result. */
  function MaskPhoneKeepLast3(phone: string): (r: string)
    ensures |Digits(phone)| <= 3 ==> r == "***"
    ensures |Digits(phone)| > 3 ==>
      var n := |Digits(phone)|;
      var plus := StartsWith(Trim(phone), "+");
      && |r| == (if plus then 1 else 0) + n
      && (r[0] == '+' <==> plus)
      && r[|r| - 3..] == Digits(phone)[n - 3..]
      && forall i :: (if plus then 1 else 0) <= i < |r| - 3 ==> r[i] == '*'
    ensures forall i :: 0 <= i < |r| ==> r[i] == '*' || IsDigit(r[i]) || (i == 0 && r[i] == '+')
  {
    var trimmed := Trim(phone);
    var digits := Digits(trimmed);
    DigitsOfTrim(phone);
    if |digits| <= 3 then "***"
    else
      var last3 := digits[|digits| - 3..];
      var masked := Repeat('*', |digits| - 3) + last3;
      var hasPlus := StartsWith(trimmed, "+");
      var r := (if hasPlus then "+" else "") + masked;
      assert r[|r| - 3..] == last3;
      r
  }

  /** The last three characters of a masked number are the number's last
      three digits. */
  lemma MaskKeepsLastThree(phone: string)
    requires |Digits(phone)| > 3
    ensures EndsWith(MaskPhoneKeepLast3(phone), Digits(phone)[|Digits(phone)| - 3..])
  {
  }

  /** What the code field keeps of what was typed: its digits, at most six,
      in order. */
  function OtpFilter(typed: string): (r: string)
    ensures AllDigits(r)
    ensures |r| == if |Digits(typed)| < OtpLength then |Digits(typed)| else OtpLength
    ensures StartsWith(Digits(typed), r)
  {
    Take(Digits(typed), OtpLength)
  }

  lemma OtpFilterIdempotent(typed: string)
    ensures OtpFilter(OtpFilter(typed)) == OtpFilter(typed)
  {
    DigitsOfDigits(OtpFilter(typed));
  }

  /** Only a field holding exactly the development code verifies: whatever
      was typed, it verifies exactly when its first six digits are that code. */
  lemma OtpVerifiesIff(typed: string)
    ensures OtpFilter(typed) == DevOtp <==> |Digits(typed)| >= OtpLength && Digits(typed)[..OtpLength] == DevOtp
  {
  }

  /** The screen's state. */
  class VerifyPhoneScreen {
    var otpInput: string
    var infoMessage: string
    var errorMessage: string

    constructor ()
      ensures otpInput == [] && infoMessage == [] && errorMessage == []
    {
      otpInput, infoMessage, errorMessage := [], [], [];
    }

    /** Typing in the code field. */
    method OnOtpChange(typed: string)
      modifies this
      ensures otpInput == OtpFilter(typed)
      ensures infoMessage == old(infoMessage) && errorMessage == old(errorMessage)
    {
      otpInput := OtpFilter(typed);
    }

    /** "Send Code": the code is ready, and any error is cleared. */
    method SendCode()
      modifies this
      ensures infoMessage == "Code ready" && errorMessage == []
      ensures otpInput == old(otpInput)
    {
      infoMessage := "Code ready";
      errorMessage := [];
    }

    /** "Verify": proceeds to the dashboard exactly when the field holds the
        development code; otherwise shows the error and clears the info line. */
    method Verify() returns (proceed: bool)
      modifies this
      ensures proceed <==> otpInput == DevOtp
      ensures otpInput == old(otpInput)
      ensures proceed ==> infoMessage == old(infoMessage) && errorMessage == old(errorMessage)
      ensures !proceed ==> errorMessage == "Invalid code. Use " + DevOtp && infoMessage == []
    {
      if otpInput == DevOtp {
        proceed := true;
      } else {
        errorMessage := "Invalid code. Use " + DevOtp;
        infoMessage := [];
        proceed := false;
      }
    }
  }
}
