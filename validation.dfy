/**
 * The form validators of the app (`validation` in src/utils/validation.ts):
 * each is a predicate on the text the user typed.
 */
module Validation {
  import opened Wrappers
  import opened JsText

  /** A member of `[^\s@]`. */
  predicate IsEmailChar(c: char) { !IsSpace(c) && c != '@' }

  /** Matches `[^\s@]*`. */
  predicate EmailChars(s: string) {
    forall i :: 0 <= i < |s| ==> IsEmailChar(s[i])
  }

  predicate IsAt(c: char) { c == '@' }

  /** The number of `@` characters in `s`. */
  function AtCount(s: string): nat {
    |Filter(s, IsAt)|
  }

  /** The first position of `c` in `s`. */
  function IndexOf(s: string, c: char): (r: Option<nat>)
    ensures r.Some? ==> r.value < |s| && s[r.value] == c
    ensures r.Some? ==> forall j :: 0 <= j < r.value ==> s[j] != c
    ensures r.None? ==> forall j :: 0 <= j < |s| ==> s[j] != c
  {
    if s == [] then None
    else if s[0] == c then Some(0)
    else match IndexOf(s[1..], c)
      case None => None
      case Some(k) => Some(k + 1)
  }

  /** The part after `@`: matches `[^\s@]+\.[^\s@]+`. */
  predicate EmailDomain(d: string) {
    EmailChars(d) && exists i :: 0 < i < |d| - 1 && d[i] == '.'
  }

  /** `validation.email`: split at the first `@` and check both sides. */
  function Email(email: string): bool {
    match IndexOf(email, '@')
    case None => false
    case Some(k) => k > 0 && EmailChars(email[..k]) && EmailDomain(email[k + 1..])
  }

  /**
   * The language of `/^[^\s@]+@[^\s@]+\.[^\s@]+$/`: an `@` at `a` and a `.`
   * at `b` cut `s` into three non-empty runs of `[^\s@]`.
   */
  ghost predicate MatchesEmailRegex(s: string) {
    exists a, b :: 0 < a && a + 1 < b && b + 1 < |s| && s[a] == '@' && s[b] == '.'
      && EmailChars(s[..a]) && EmailChars(s[a + 1..b]) && EmailChars(s[b + 1..])
  }

  lemma EmailCharsSlice(x: string, i: int, j: int)
    requires EmailChars(x) && 0 <= i <= j <= |x|
    ensures EmailChars(x[i..j])
  {
    forall k | 0 <= k < j - i ensures IsEmailChar(x[i..j][k]) {
      assert x[i..j][k] == x[i + k];
    }
  }

  lemma EmailToRegex(s: string)
    requires Email(s)
    ensures MatchesEmailRegex(s)
  {
    var k := IndexOf(s, '@').value;
    var d := s[k + 1..];
    var i :| 0 < i < |d| - 1 && d[i] == '.';
    var b := k + 1 + i;
    EmailCharsSlice(d, 0, i);
    EmailCharsSlice(d, i + 1, |d|);
    assert s[k + 1..b] == d[0..i];
    assert s[b + 1..] == d[i + 1..|d|];
    assert s[b] == d[i];
  }

  lemma RegexToEmail(s: string, a: int, b: int)
    requires 0 < a && a + 1 < b && b + 1 < |s| && s[a] == '@' && s[b] == '.'
    requires EmailChars(s[..a]) && EmailChars(s[a + 1..b]) && EmailChars(s[b + 1..])
    ensures Email(s)
  {
    forall j | 0 <= j < a ensures s[j] != '@' {
      assert s[..a][j] == s[j];
    }
    assert IndexOf(s, '@') == Some(a);
    var d := s[a + 1..];
    var m := b - a - 1;
    forall j | 0 <= j < |d| ensures IsEmailChar(d[j]) {
      if j < m {
        assert d[j] == s[a + 1..b][j];
      } else if j > m {
        assert d[j] == s[b + 1..][j - m - 1];
      }
    }
    assert d[m] == '.';
  }

  /** `Email` accepts exactly the language of its regular expression. */
  lemma EmailMatchesRegex(s: string)
    ensures Email(s) <==> MatchesEmailRegex(s)
  {
    if Email(s) {
      EmailToRegex(s);
    }
    if MatchesEmailRegex(s) {
      var a, b :| 0 < a && a + 1 < b && b + 1 < |s| && s[a] == '@' && s[b] == '.'
        && EmailChars(s[..a]) && EmailChars(s[a + 1..b]) && EmailChars(s[b + 1..]);
      RegexToEmail(s, a, b);
    }
  }

  /**
   * An accepted address has no whitespace and exactly one `@`; so text with
   * whitespace, with no `@` or with two or more is rejected.
   */
  lemma EmailHasOneAtAndNoSpace(s: string)
    requires Email(s)
    ensures NoSpace(s) && AtCount(s) == 1
  {
    var k := IndexOf(s, '@').value;
    var d := s[k + 1..];
    assert s == s[..k] + [s[k]] + d;
    FilterAppend(s[..k] + [s[k]], d, IsAt);
    FilterAppend(s[..k], [s[k]], IsAt);
    FilterDropsAll(s[..k], IsAt);
    FilterDropsAll(d, IsAt);
    assert Filter([s[k]], IsAt) == [s[k]];
    forall j | 0 <= j < |s| ensures !IsSpace(s[j]) {
      if j < k {
        assert s[j] == s[..k][j];
      } else if j > k {
        assert s[j] == d[j - k - 1];
      }
    }
  }

  /** `/^[0-9]{10}$/` */
  predicate TenDigits(t: string) {
    |t| == 10 && AllDigits(t)
  }

  /** `/^(\+90|0)?[0-9]{10}$/` on text without whitespace, tried in the regex's order. */
  predicate TurkishPhonePattern(t: string) {
    || (|t| >= 3 && t[..3] == "+90" && TenDigits(t[3..]))
    || (|t| >= 1 && t[0] == '0' && TenDigits(t[1..]))
    || TenDigits(t)
  }

  /** `validation.phone`: whitespace is removed before the pattern is matched. */
  function Phone(phone: string): bool {
    TurkishPhonePattern(StripSpaces(phone))
  }

  /** The optional prefixes of a Turkish phone number. */
  const PhonePrefixes: seq<string> := ["", "0", "+90"]

  /** `t` is `prefix` followed by exactly ten ASCII digits. */
  predicate PrefixedTenDigits(t: string, prefix: string) {
    |t| == |prefix| + 10 && t[..|prefix|] == prefix && AllDigits(t[|prefix|..])
  }

  /** A phone number is valid exactly when, without whitespace, it is one of the three shapes. */
  lemma PhoneShapes(s: string)
    ensures Phone(s) <==> exists i :: 0 <= i < |PhonePrefixes| && PrefixedTenDigits(StripSpaces(s), PhonePrefixes[i])
  {
    var t := StripSpaces(s);
    if TenDigits(t) {
      assert PrefixedTenDigits(t, PhonePrefixes[0]);
    } else if |t| >= 1 && t[0] == '0' && TenDigits(t[1..]) {
      assert PrefixedTenDigits(t, PhonePrefixes[1]);
    } else if |t| >= 3 && t[..3] == "+90" && TenDigits(t[3..]) {
      assert PrefixedTenDigits(t, PhonePrefixes[2]);
    }
    if PrefixedTenDigits(t, PhonePrefixes[1]) {
      assert t[..1] == [t[0]];
    }
  }

  /** Inserting or removing whitespace anywhere does not change whether a phone number is valid. */
  lemma PhoneIgnoresWhitespace(a: string, w: string, b: string)
    requires AllSpace(w)
    ensures Phone(a + w + b) == Phone(a + b)
  {
    StripSpacesSplice(a, w, b);
  }

  /** `validation.password`: at least 8 UTF-16 code units. */
  function Password(password: string): bool {
    Utf16Length(password) >= 8
  }

  /** Extending a valid password keeps it valid. */
  lemma PasswordMonotone(p: string, q: string)
    requires Password(p)
    ensures Password(p + q)
  {
    Utf16LengthAppend(p, q);
  }

  /** Eight characters always suffice, and fewer than four never do. */
  lemma PasswordLengthBounds(p: string)
    ensures |p| >= 8 ==> Password(p)
    ensures Password(p) ==> |p| >= 4
  {
  }

  /** `validation.passwordMatch` */
  function PasswordMatch(password: string, confirmation: string): bool {
    password == confirmation
  }

  /** Password confirmation is an equivalence: reflexive, symmetric and transitive. */
  lemma PasswordMatchIsEquivalence(p: string, q: string, r: string)
    ensures PasswordMatch(p, p)
    ensures PasswordMatch(p, q) == PasswordMatch(q, p)
    ensures PasswordMatch(p, q) && PasswordMatch(q, r) ==> PasswordMatch(p, r)
  {
  }

  /** `validation.required`: something is left after trimming. */
  function Required(value: string): bool {
    |Trim(value)| > 0
  }

  /** A required field is filled exactly when it holds a non-whitespace character. */
  lemma RequiredIffNonSpace(value: string)
    ensures Required(value) <==> exists i :: 0 <= i < |value| && !IsSpace(value[i])
  {
    TrimEmptyIffAllSpace(value);
  }
}
