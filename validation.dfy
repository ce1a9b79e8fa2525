// The validation rules shared by the forms: react-hook-form's `required`,
// `minLength` and `min`, and the two patterns, the ISBN pattern of
// src/components/admin/BookForm.tsx and the e-mail pattern of
// src/components/auth/RegisterForm.tsx and src/components/admin/UserForm.tsx.
//
// Each pattern is written twice: once as the regular expression reads, and once
// as a plain description of the strings it accepts; lemmas prove the two agree.

module Validation {
  import opened Types
  import opened Text

  /** `required`: the empty string is missing. */
  predicate Present(v: string) {
    v != ""
  }

  /** `minLength: 8` on a password. */
  const MinPasswordLength := 8

  predicate LongEnough(v: string) {
    |v| >= MinPasswordLength
  }

  // ----------------------------------------------------- /^(?:\d[\ |-]?){10,13}$/

  /** The class `[\ |-]`: a space, a bar or a hyphen. */
  predicate IsSeparator(c: char) {
    c == ' ' || c == '|' || c == '-'
  }

  /** s is exactly k repetitions of the group `\d[\ |-]?`. */
  predicate Groups(s: string, k: nat)
    decreases k
  {
    if k == 0 then s == []
    else
      && |s| >= 1 && IsDigit(s[0])
      && (Groups(s[1..], k - 1) || (|s| >= 2 && IsSeparator(s[1]) && Groups(s[2..], k - 1)))
  }

  /** The pattern as the regular expression reads: 10 to 13 groups, anchored at
      both ends. */
  predicate IsbnPattern(s: string) {
    exists k: nat :: 10 <= k <= 13 && Groups(s, k)
  }

  function DigitCount(s: string): (n: nat)
    ensures n <= |s|
  {
    if s == [] then 0 else (if IsDigit(s[0]) then 1 else 0) + DigitCount(s[1..])
  }

  /** Digits and separators only, starting with a digit, never two separators in a row. */
  predicate IsbnShape(s: string) {
    && (|s| > 0 ==> IsDigit(s[0]))
    && (forall i :: 0 <= i < |s| ==> IsDigit(s[i]) || IsSeparator(s[i]))
    && (forall i :: 0 <= i < |s| - 1 ==> IsSeparator(s[i]) ==> IsDigit(s[i + 1]))
  }

  lemma ShapeOfTail(s: string)
    requires IsbnShape(s) && |s| >= 1
    ensures |s| >= 2 && IsSeparator(s[1]) ==> IsbnShape(s[2..])
    ensures |s| == 1 || IsDigit(s[1]) ==> IsbnShape(s[1..])
  {
  }

  /** k groups are exactly the well-shaped strings with k digits. */
  lemma {:induction false} GroupsCharacterised(s: string, k: nat)
    ensures Groups(s, k) <==> IsbnShape(s) && DigitCount(s) == k
    decreases k
  {
    if k == 0 {
      if s != [] && IsbnShape(s) {
        assert IsDigit(s[0]);
        assert DigitCount(s) >= 1;
      }
    } else if |s| == 0 {
    } else if !IsDigit(s[0]) {
    } else if |s| >= 2 && IsSeparator(s[1]) {
      GroupsCharacterised(s[1..], k - 1);
      GroupsCharacterised(s[2..], k - 1);
      assert s[1..][1..] == s[2..];
      assert DigitCount(s) == 1 + DigitCount(s[2..]) by {
        assert DigitCount(s[1..]) == DigitCount(s[2..]);
      }
      if IsbnShape(s) {
        ShapeOfTail(s);
      }
      if Groups(s, k) {
        // Only the separator branch can hold: s[1..] starts with a separator.
        assert !Groups(s[1..], k - 1);
        assert IsbnShape(s[2..]);
        assert |s| >= 3 ==> IsDigit(s[2]);
      }
    } else {
      GroupsCharacterised(s[1..], k - 1);
      if IsbnShape(s) {
        ShapeOfTail(s);
      }
    }
  }

  /** The ISBN pattern accepts exactly the well-shaped strings with 10 to 13
      digits: a separator may end the string, and the check digit is not checked. */
  lemma IsbnPatternCharacterised(s: string)
    ensures IsbnPattern(s) <==> IsbnShape(s) && 10 <= DigitCount(s) <= 13
  {
    if IsbnPattern(s) {
      var k: nat :| 10 <= k <= 13 && Groups(s, k);
      GroupsCharacterised(s, k);
    }
    if IsbnShape(s) && 10 <= DigitCount(s) <= 13 {
      GroupsCharacterised(s, DigitCount(s));
    }
  }

  // ------------------------------- /^[A-Z0-9._%+-]+@[A-Z0-9.-]+\.[A-Z]{2,}$/i

  /** `[A-Z0-9._%+-]` under the `i` flag. */
  predicate IsLocalChar(c: char) {
    IsLetter(c) || IsDigit(c) || c == '.' || c == '_' || c == '%' || c == '+' || c == '-'
  }

  /** `[A-Z0-9.-]` under the `i` flag. */
  predicate IsDomainChar(c: char) {
    IsLetter(c) || IsDigit(c) || c == '.' || c == '-'
  }

  /** The match with '@' at index at and the literal `\.` at index dot. */
  predicate EmailSplit(s: string, at: int, dot: int) {
    && 0 < at && at + 1 < dot && dot + 2 < |s|
    && s[at] == '@' && s[dot] == '.'
    && (forall i :: 0 <= i < at ==> IsLocalChar(s[i]))
    && (forall i :: at < i < dot ==> IsDomainChar(s[i]))
    && (forall i :: dot < i < |s| ==> IsLetter(s[i]))
  }

  /** The pattern as the regular expression reads: some split of the string
      matches it. */
  predicate EmailPattern(s: string) {
    exists at, dot | 0 <= at < |s| && 0 <= dot < |s| :: EmailSplit(s, at, dot)
  }

  /** The first index of c in s. */
  function IndexOf(s: string, c: char): (r: Option<nat>)
    ensures r.None? <==> c !in s
    ensures r.Some? ==> r.value < |s| && s[r.value] == c && forall j :: 0 <= j < r.value ==> s[j] != c
  {
    if s == [] then None
    else if s[0] == c then Some(0)
    else match IndexOf(s[1..], c)
      case None => None
      case Some(i) => Some(i + 1)
  }

  /** The last index of c in s. */
  function LastIndexOf(s: string, c: char): (r: Option<nat>)
    ensures r.None? <==> c !in s
    ensures r.Some? ==> r.value < |s| && s[r.value] == c && forall j :: r.value < j < |s| ==> s[j] != c
  {
    if s == [] then None
    else if s[|s| - 1] == c then Some(|s| - 1)
    else
      var r := LastIndexOf(s[..|s| - 1], c);
      assert forall j :: 0 <= j < |s| - 1 ==> s[..|s| - 1][j] == s[j];
      r
  }

  /** The accepted addresses described directly: one '@'; a non-empty local part
      of letters, digits and `._%+-`; a domain of letters, digits, '.' and '-'
      whose last '.' has something before it and at least two letters, and only
      letters, after it. */
  predicate EmailShape(s: string) {
    match IndexOf(s, '@')
    case None => false
    case Some(at) =>
      var local, domain := s[..at], s[at + 1..];
      && '@' !in domain
      && |local| > 0
      && (forall i :: 0 <= i < |local| ==> IsLocalChar(local[i]))
      && (forall i :: 0 <= i < |domain| ==> IsDomainChar(domain[i]))
      && match LastIndexOf(domain, '.')
         case None => false
         case Some(dot) =>
           dot >= 1 && |domain| - (dot + 1) >= 2 && forall i :: dot < i < |domain| ==> IsLetter(domain[i])
  }

  lemma PatternGivesShape(s: string, at: int, dot: int)
    requires EmailSplit(s, at, dot)
    ensures EmailShape(s)
  {
    assert s[at] == '@';
    var first := IndexOf(s, '@');
    assert first == Some(at as nat) by {
      assert '@' in s;
      assert forall j :: 0 <= j < at ==> s[j] != '@' by {
        forall j | 0 <= j < at ensures s[j] != '@' { assert IsLocalChar(s[j]); }
      }
    }
    var domain := s[at + 1..];
    var d := dot - at - 1;
    assert domain[d] == '.';
    forall j | d < j < |domain|
      ensures domain[j] != '.' && IsLetter(domain[j])
    {
      assert domain[j] == s[at + 1 + j];
    }
    assert LastIndexOf(domain, '.') == Some(d as nat);
    forall i | 0 <= i < |domain|
      ensures IsDomainChar(domain[i])
    {
      assert domain[i] == s[at + 1 + i];
      if at + 1 + i > dot {
        assert IsLetter(s[at + 1 + i]);
      }
    }
  }

  lemma ShapeGivesPattern(s: string)
    requires EmailShape(s)
    ensures EmailPattern(s)
  {
    var at := IndexOf(s, '@').value;
    var domain := s[at + 1..];
    var d := LastIndexOf(domain, '.').value;
    SplitOfParts(s, at, s[..at], domain, d);
  }

  /** The conditions of the plain description, at a given '@' and last '.',
      give the split the regular expression needs. */
  lemma SplitOfParts(s: string, at: nat, local: string, domain: string, d: nat)
    requires at < |s| && s[at] == '@' && local == s[..at] && domain == s[at + 1..]
    requires |local| > 0 && forall i :: 0 <= i < |local| ==> IsLocalChar(local[i])
    requires forall i :: 0 <= i < |domain| ==> IsDomainChar(domain[i])
    requires d < |domain| && domain[d] == '.' && d >= 1 && |domain| - (d + 1) >= 2
    requires forall i :: d < i < |domain| ==> IsLetter(domain[i])
    ensures EmailPattern(s)
  {
    var dot := at + 1 + d;
    forall i | at < i < |s|
      ensures s[i] == domain[i - at - 1]
    {
    }
    forall i | 0 <= i < at
      ensures s[i] == local[i]
    {
    }
    assert EmailSplit(s, at, dot);
  }

  /** The e-mail pattern accepts exactly the addresses of the plain description. */
  lemma EmailPatternCharacterised(s: string)
    ensures EmailPattern(s) <==> EmailShape(s)
  {
    if EmailPattern(s) {
      var at, dot :| EmailSplit(s, at, dot);
      PatternGivesShape(s, at, dot);
    }
    if EmailShape(s) {
      ShapeGivesPattern(s);
    }
  }

  // ------------------------------------------------------------- field rules

  /** A `required` rule alone: its message when the value is empty. */
  function RequiredError(v: string, message: string): (r: Option<string>)
    ensures r.None? <==> Present(v)
    ensures r.Some? ==> r.value == message
  {
    if Present(v) then None else Some(message)
  }

  /** The e-mail field of both user forms: `required`, then the pattern. */
  function EmailError(v: string): (r: Option<string>)
    ensures r.None? <==> EmailShape(v)
    ensures r == Some("Email is required") <==> !Present(v)
    ensures r == Some("Invalid email address") <==> Present(v) && !EmailShape(v)
  {
    EmailPatternCharacterised(v);
    if !Present(v) then Some("Email is required")
    else if !EmailPattern(v) then Some("Invalid email address")
    else None
  }

  /** The password field: `required`, then `minLength: 8`. */
  function PasswordError(v: string): (r: Option<string>)
    ensures r.None? <==> LongEnough(v)
    ensures r == Some("Password is required") <==> !Present(v)
  {
    if !Present(v) then Some("Password is required")
    else if !LongEnough(v) then Some("Password must be at least 8 characters")
    else None
  }

  /** The ISBN field: `required`, then the pattern. */
  function IsbnError(v: string): (r: Option<string>)
    ensures r.None? <==> IsbnShape(v) && 10 <= DigitCount(v) <= 13
    ensures r == Some("ISBN is required") <==> !Present(v)
  {
    IsbnPatternCharacterised(v);
    if !Present(v) then Some("ISBN is required")
    else if !IsbnPattern(v) then Some("Please enter a valid ISBN")
    else None
  }

  /** A number field: `required` (always met by a number), then `min: 1`. */
  function AtLeastOneError(v: int, message: string): (r: Option<string>)
    ensures r.None? <==> v >= 1
    ensures r.Some? ==> r.value == message
  {
    if v < 1 then Some(message) else None
  }

  /** The `errors` of a submit: the failing fields, in the order they are
      registered, each with its message. `handleSubmit` calls the form's
      `onSubmit` only when this is empty. */
  function Collect<F>(checks: seq<(F, Option<string>)>): (r: seq<(F, string)>)
    ensures r == [] <==> forall i :: 0 <= i < |checks| ==> checks[i].1.None?
    ensures |r| <= |checks|
  {
    if checks == [] then []
    else
      var rest := Collect(checks[1..]);
      assert forall c :: c in checks[1..] ==> c in checks;
      if checks[0].1.Some? then [(checks[0].0, checks[0].1.value)] + rest else rest
  }
}
