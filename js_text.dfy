/**
 * The parts of JavaScript's string semantics that the validators, the phone
 * formatter and the review form rely on: the `\s` character class (which is
 * also the set `String.prototype.trim` removes), global `replace` of one
 * character class, `trim`, `includes`, and `length` counted in UTF-16 code
 * units. Strings are sequences of Unicode scalar values.
 */
module JsText {

  /** A member of `\s`: the WhiteSpace and LineTerminator code points of ECMAScript. */
  predicate IsSpace(c: char) {
    var n := c as int;
    || (0x09 <= n <= 0x0D)
    || n == 0x20 || n == 0xA0 || n == 0x1680
    || (0x2000 <= n <= 0x200A)
    || n == 0x2028 || n == 0x2029 || n == 0x202F || n == 0x205F
    || n == 0x3000 || n == 0xFEFF
  }

  predicate IsNotSpace(c: char) { !IsSpace(c) }

  /** A member of `\d` (and of `[0-9]`): ASCII digits only. */
  predicate IsAsciiDigit(c: char) { '0' <= c <= '9' }

  predicate AllSpace(s: string) {
    forall i :: 0 <= i < |s| ==> IsSpace(s[i])
  }

  predicate NoSpace(s: string) {
    forall i :: 0 <= i < |s| ==> !IsSpace(s[i])
  }

  predicate AllDigits(s: string) {
    forall i :: 0 <= i < |s| ==> IsAsciiDigit(s[i])
  }

  /** The characters of `s` that satisfy `keep`, in order: `s.replace(/[^keep]/g, '')`. */
  function Filter(s: string, keep: char -> bool): (r: string)
    ensures |r| <= |s|
    ensures forall i :: 0 <= i < |r| ==> keep(r[i])
  {
    if s == [] then []
    else (if keep(s[0]) then [s[0]] else []) + Filter(s[1..], keep)
  }

  lemma {:induction false} FilterAppend(a: string, b: string, keep: char -> bool)
    ensures Filter(a + b, keep) == Filter(a, keep) + Filter(b, keep)
  {
    if a == [] {
      assert a + b == b;
    } else {
      assert (a + b)[1..] == a[1..] + b;
      FilterAppend(a[1..], b, keep);
    }
  }

  /** Filtering keeps every character of a string whose characters all pass. */
  lemma {:induction false} FilterKeepsAll(s: string, keep: char -> bool)
    requires forall i :: 0 <= i < |s| ==> keep(s[i])
    ensures Filter(s, keep) == s
  {
    if s != [] {
      FilterKeepsAll(s[1..], keep);
    }
  }

  /** Filtering drops a string none of whose characters pass. */
  lemma {:induction false} FilterDropsAll(s: string, keep: char -> bool)
    requires forall i :: 0 <= i < |s| ==> !keep(s[i])
    ensures Filter(s, keep) == []
  {
    if s != [] {
      FilterDropsAll(s[1..], keep);
    }
  }

  /** `s.replace(/\s/g, '')` */
  function StripSpaces(s: string): (r: string)
    ensures NoSpace(r)
  {
    Filter(s, IsNotSpace)
  }

  /** `s.replace(/\D/g, '')` */
  function DigitsOf(s: string): (r: string)
    ensures AllDigits(r)
  {
    Filter(s, IsAsciiDigit)
  }

  /** Removing whitespace distributes over concatenation and ignores whitespace runs. */
  lemma StripSpacesSplice(a: string, w: string, b: string)
    requires AllSpace(w)
    ensures StripSpaces(a + w + b) == StripSpaces(a + b)
  {
    FilterAppend(a + w, b, IsNotSpace);
    FilterAppend(a, w, IsNotSpace);
    FilterAppend(a, b, IsNotSpace);
    FilterDropsAll(w, IsNotSpace);
  }

  /** The leading whitespace of `s` removed: `s.trimStart()`. */
  function TrimStart(s: string): (r: string)
    ensures |r| <= |s| && r == s[|s| - |r|..]
    ensures AllSpace(s[..|s| - |r|])
    ensures r == [] || !IsSpace(r[0])
  {
    if s != [] && IsSpace(s[0]) then
      var r := TrimStart(s[1..]);
      assert s[..|s| - |r|] == [s[0]] + s[1..][..|s| - 1 - |r|];
      r
    else s
  }

  /** The trailing whitespace of `s` removed: `s.trimEnd()`. */
  function TrimEnd(s: string): (r: string)
    ensures |r| <= |s| && r == s[..|r|]
    ensures AllSpace(s[|r|..])
    ensures r == [] || !IsSpace(r[|r| - 1])
  {
    if s != [] && IsSpace(s[|s| - 1]) then
      var r := TrimEnd(s[..|s| - 1]);
      assert s[|r|..] == s[..|s| - 1][|r|..] + [s[|s| - 1]];
      r
    else s
  }

  /** `s.trim()` */
  function Trim(s: string): string {
    TrimEnd(TrimStart(s))
  }

  /** The number of leading whitespace characters `trim` removes. */
  function LeadingSpaces(s: string): nat {
    |s| - |TrimStart(s)|
  }

  /** A suffix of `s`, cut down to a prefix of itself, is a slice of `s`. */
  lemma SliceOfSlice(s: string, t: string, e: string)
    requires |t| <= |s| && t == s[|s| - |t|..]
    requires |e| <= |t| && e == t[..|e|]
    requires AllSpace(t[|e|..])
    ensures e == s[|s| - |t|..|s| - |t| + |e|]
    ensures AllSpace(s[|s| - |t| + |e|..])
  {
    assert t[|e|..] == s[|s| - |t| + |e|..];
  }

  /** `Trim(s)` is the part of `s` between a whitespace-only prefix and a whitespace-only suffix. */
  lemma TrimIsCore(s: string)
    ensures LeadingSpaces(s) + |Trim(s)| <= |s|
    ensures Trim(s) == s[LeadingSpaces(s)..LeadingSpaces(s) + |Trim(s)|]
    ensures AllSpace(s[..LeadingSpaces(s)]) && AllSpace(s[LeadingSpaces(s) + |Trim(s)|..])
  {
    var t, e := TrimStart(s), Trim(s);
    var i := LeadingSpaces(s);
    assert i == |s| - |t|;
    SliceOfSlice(s, t, e);
    assert AllSpace(s[..i]);
  }

  /** `Trim(s)` neither starts nor ends with whitespace. */
  lemma TrimEndsNonSpace(s: string)
    ensures Trim(s) == [] || (!IsSpace(Trim(s)[0]) && !IsSpace(Trim(s)[|Trim(s)| - 1]))
  {
    var t := TrimStart(s);
    var e := TrimEnd(t);
    if e != [] {
      assert e[0] == t[0];
    }
  }

  lemma {:induction false} TrimStartOfAllSpace(s: string)
    requires AllSpace(s)
    ensures TrimStart(s) == []
  {
    if s != [] {
      TrimStartOfAllSpace(s[1..]);
    }
  }

  /** `s.trim()` is empty exactly when `s` is whitespace only. */
  lemma TrimEmptyIffAllSpace(s: string)
    ensures Trim(s) == [] <==> AllSpace(s)
  {
    if AllSpace(s) {
      TrimStartOfAllSpace(s);
    }
    if Trim(s) == [] {
      var t := TrimStart(s);
      assert AllSpace(t[|TrimEnd(t)|..]);
      assert t == [];
      assert s[..|s| - |t|] == s;
    }
  }

  /** `needle` occurs in `haystack` starting at index `i`. */
  predicate OccursAt(haystack: string, needle: string, i: int) {
    0 <= i <= |haystack| - |needle| && haystack[i..i + |needle|] == needle
  }

  /** `haystack.includes(needle)`, searched from the left. */
  function Contains(haystack: string, needle: string): bool
    decreases |haystack|
  {
    if |haystack| < |needle| then false
    else haystack[..|needle|] == needle || Contains(haystack[1..], needle)
  }

  /** `includes` holds exactly when the needle occurs at some position. */
  lemma {:induction false} ContainsIffOccurs(haystack: string, needle: string)
    ensures Contains(haystack, needle) <==> exists i :: OccursAt(haystack, needle, i)
    decreases |haystack|
  {
    if |haystack| >= |needle| {
      if haystack[..|needle|] == needle {
        assert OccursAt(haystack, needle, 0);
      } else if haystack != [] {
        ContainsIffOccurs(haystack[1..], needle);
        if Contains(haystack[1..], needle) {
          var i :| OccursAt(haystack[1..], needle, i);
          assert OccursAt(haystack, needle, i + 1);
        }
        if i :| OccursAt(haystack, needle, i) {
          assert i != 0;
          assert OccursAt(haystack[1..], needle, i - 1);
        }
      }
    }
  }

  /** A string that contains `prefix + needle` contains `needle`. */
  lemma ContainsLongerNeedle(haystack: string, prefix: string, needle: string)
    requires Contains(haystack, prefix + needle)
    ensures Contains(haystack, needle)
  {
    ContainsIffOccurs(haystack, prefix + needle);
    var i :| OccursAt(haystack, prefix + needle, i);
    var j := i + |prefix|;
    assert haystack[j..j + |needle|] == (prefix + needle)[|prefix|..];
    assert OccursAt(haystack, needle, j);
    ContainsIffOccurs(haystack, needle);
  }

  /** The number of UTF-16 code units that encode `c`. */
  function Utf16Units(c: char): nat {
    if c as int >= 0x10000 then 2 else 1
  }

  /** `s.length`: the length of `s` in UTF-16 code units. */
  function Utf16Length(s: string): (n: nat)
    ensures |s| <= n <= 2 * |s|
  {
    if s == [] then 0 else Utf16Units(s[0]) + Utf16Length(s[1..])
  }

  lemma {:induction false} Utf16LengthAppend(a: string, b: string)
    ensures Utf16Length(a + b) == Utf16Length(a) + Utf16Length(b)
  {
    if a == [] {
      assert a + b == b;
    } else {
      assert (a + b)[1..] == a[1..] + b;
      Utf16LengthAppend(a[1..], b);
    }
  }

  /** `toUpperCase` on one character, for the ASCII letters. */
  function AsciiUpper(c: char): (r: char)
    ensures 'a' <= c <= 'z' ==> 'A' <= r <= 'Z' && r as int == c as int - 32
    ensures !('a' <= c <= 'z') ==> r == c
  {
    if 'a' <= c <= 'z' then (c as int - 32) as char else c
  }
}
