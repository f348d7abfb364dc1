/** `formatPhoneNumber` of the auth routes: Algerian phone numbers rewritten
    to the international `+213` form. */
module Auth {
  import opened Text

  /** The characters of the class `[\s\-\(\)]`. */
  predicate IsPhoneSeparator(c: char) {
    IsJsWhitespace(c) || c == '-' || c == '(' || c == ')'
  }

  predicate NoSeparators(s: string) {
    forall i :: 0 <= i < |s| ==> !IsPhoneSeparator(s[i])
  }

  /** `phone.replace(/[\s\-\(\)]/g, '')`, the cleaning both the auth routes and
      the phone validator apply. */
  function CleanPhone(phone: string): (r: string)
    ensures |r| <= |phone|
    ensures NoSeparators(r)
    ensures NoSeparators(phone) ==> r == phone
    ensures |phone| == 1 ==> r == (if IsPhoneSeparator(phone[0]) then [] else phone)
  {
    if phone == [] then []
    else
      assert NoSeparators(phone) ==> NoSeparators(phone[1..]) && phone == [phone[0]] + phone[1..];
      (if IsPhoneSeparator(phone[0]) then [] else [phone[0]]) + CleanPhone(phone[1..])
  }

  /** Cleaning works character by character: it removes each separator and
      keeps every other character, in order. */
  lemma {:induction false} CleanPhoneConcat(a: string, b: string)
    ensures CleanPhone(a + b) == CleanPhone(a) + CleanPhone(b)
  {
    if a != [] {
      CleanPhoneConcat(a[1..], b);
      assert (a + b)[1..] == a[1..] + b;
    } else {
      assert a + b == b;
    }
  }

  const CountryCode: string := "+213"

  predicate IsSubscriberLead(c: char) {
    c == '5' || c == '6' || c == '7'
  }

  /** `formatPhoneNumber`. */
  function FormatPhoneNumber(phone: string): (r: string)
    ensures StartsWith(r, CountryCode)
    ensures NoSeparators(r)
    ensures var c := CleanPhone(phone);
      && (StartsWith(c, "+213") ==> r == c)
      && (!StartsWith(c, "+213") && StartsWith(c, "213") ==> r == "+" + c)
      && (!StartsWith(c, "+213") && !StartsWith(c, "213") && StartsWith(c, "0") ==> r == CountryCode + c[1..])
  {
    var c := CleanPhone(phone);
    if StartsWith(c, "+213") then c
    else if StartsWith(c, "213") then "+" + c
    else if StartsWith(c, "0") then "+213" + c[1..]
    else if |c| == 9 && IsSubscriberLead(c[0]) then "+213" + c
    else "+213" + c
  }

  /** Any other cleaned input gets `+213` in front; the branch for nine
      digits starting with 5, 6 or 7 gives the same text as the last one. */
  lemma FormatPhoneOtherwise(phone: string)
    requires var c := CleanPhone(phone); !StartsWith(c, "+213") && !StartsWith(c, "213") && !StartsWith(c, "0")
    ensures FormatPhoneNumber(phone) == CountryCode + CleanPhone(phone)
  {
  }

  /** Formatting an already formatted number changes nothing. */
  lemma FormatPhoneIdempotent(phone: string)
    ensures FormatPhoneNumber(FormatPhoneNumber(phone)) == FormatPhoneNumber(phone)
  {
    var r := FormatPhoneNumber(phone);
    assert CleanPhone(r) == r;
  }
}
