/** The code step of the password reset (components/VerifyCodeForm.tsx). */
module VerifyCode {
  import opened JsText
  import opened Forms

  predicate IsDigit(c: char) {
    '0' <= c <= '9'
  }

  predicate AllDigits(s: string) {
    forall i :: 0 <= i < |s| ==> IsDigit(s[i])
  }

  /** The input filter `value.replace(/\D/g, "")`: keep the ASCII digits, in order. */
  function DigitsOnly(s: string): (r: string)
    ensures |r| <= |s|
    ensures AllDigits(r)
  {
    if s == [] then [] else (if IsDigit(s[0]) then [s[0]] else []) + DigitsOnly(s[1..])
  }

  /** No digit is lost or duplicated: each digit occurs as often as in the input. */
  lemma {:induction false} DigitsOnlyKeepsDigits(s: string, c: char)
    requires IsDigit(c)
    ensures multiset(DigitsOnly(s))[c] == multiset(s)[c]
    decreases |s|
  {
    if s != [] {
      assert s == [s[0]] + s[1..];
      DigitsOnlyKeepsDigits(s[1..], c);
    }
  }

  /** The filter works piecewise, so it keeps the order of the digits it keeps. */
  lemma {:induction false} DigitsOnlyConcat(a: string, b: string)
    ensures DigitsOnly(a + b) == DigitsOnly(a) + DigitsOnly(b)
    decreases |a|
  {
    if a != [] {
      assert (a + b)[1..] == a[1..] + b;
      DigitsOnlyConcat(a[1..], b);
    } else {
      assert a + b == b;
    }
  }

  /** A string passes the filter unchanged exactly when it is all digits. */
  lemma {:induction false} DigitsOnlyFixedPoints(s: string)
    ensures DigitsOnly(s) == s <==> AllDigits(s)
    decreases |s|
  {
    if s != [] && AllDigits(s) {
      DigitsOnlyFixedPoints(s[1..]);
    }
  }

  /** Filtering twice is filtering once. */
  lemma DigitsOnlyIdempotent(s: string)
    ensures DigitsOnly(DigitsOnly(s)) == DigitsOnly(s)
  {
    DigitsOnlyFixedPoints(DigitsOnly(s));
  }

  /** A filtered code is blank only when it is empty, so the guard's `trim` can only see empty codes. */
  lemma FilteredBlankIsEmpty(s: string)
    ensures IsBlank(DigitsOnly(s)) <==> DigitsOnly(s) == ""
  {
    var r := DigitsOnly(s);
    if r != "" {
      assert IsDigit(r[0]) && !IsWhitespace(r[0]);
    }
  }

  const EmptyCodeError: string := "Please enter the code."

  /** The body of `POST /api/auth/verify-code`. */
  datatype VerifyRequest = VerifyRequest(email: string, code: string)

  /** `handleVerify`'s guard: a blank code shows the error and sends nothing. */
  function SubmitCode(email: string, code: string): (r: Submission<VerifyRequest>)
    ensures r.Rejected? <==> IsBlank(code)
    ensures r.Rejected? ==> r.error == EmptyCodeError
    ensures r.Submitted? ==> r.request == VerifyRequest(email, code)
  {
    TrimEmptyIffBlank(code);
    if Trim(code) == "" then Rejected(EmptyCodeError) else Submitted(VerifyRequest(email, code))
  }
}
