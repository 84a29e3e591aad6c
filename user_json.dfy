/**
 * The user record (src/types/user.ts) and its JSON text, as
 * `JSON.stringify` writes it into storage and `JSON.parse` reads it back.
 */
module UserJson {
  import opened Wrappers
  import opened JsText
  import opened Decimal

  datatype Role = Client | Chef | Applicant | Admin

  datatype User = User(
    id: nat,
    name: string,
    email: string,
    phone: string,
    role: Role,
    emailVerifiedAt: Option<string>,
    createdAt: string,
    updatedAt: string)

  /** The server's token and user, the body of a successful login or registration. */
  datatype AuthTokens = AuthTokens(token: string, user: User)

  function RoleName(r: Role): string {
    match r
    case Client => "client"
    case Chef => "chef"
    case Applicant => "applicant"
    case Admin => "admin"
  }

  function ParseRole(s: string): (r: Option<Role>)
    ensures r.Some? ==> RoleName(r.value) == s
  {
    if s == "client" then Some(Client)
    else if s == "chef" then Some(Chef)
    else if s == "applicant" then Some(Applicant)
    else if s == "admin" then Some(Admin)
    else None
  }

  lemma ParseRoleName(r: Role)
    ensures ParseRole(RoleName(r)) == Some(r)
  {
  }

  // ---------------------------------------------------------------- strings

  function HexDigit(d: nat): char
    requires d < 16
  {
    if d < 10 then DigitChar(d) else ('a' as int + d - 10) as char
  }

  predicate IsLowerHex(c: char) {
    IsAsciiDigit(c) || 'a' <= c <= 'f'
  }

  function HexValue(c: char): (d: nat)
    requires IsLowerHex(c)
    ensures d < 16 && HexDigit(d) == c
  {
    if IsAsciiDigit(c) then DigitValue(c) else c as int - 'a' as int + 10
  }

  /** The character a two-character escape `\e` stands for. */
  function ShortEscape(e: char): Option<char> {
    if e == '"' then Some('"')
    else if e == '\\' then Some('\\')
    else if e == 'b' then Some('\U{0008}')
    else if e == 'f' then Some('\U{000C}')
    else if e == 'n' then Some('\n')
    else if e == 'r' then Some('\r')
    else if e == 't' then Some('\t')
    else None
  }

  /** Control characters that have a two-character escape. */
  predicate HasShortEscape(code: int) {
    code == 0x08 || code == 0x09 || code == 0x0A || code == 0x0C || code == 0x0D
  }

  /** How `JSON.stringify` writes one character inside a string literal. */
  function EscapeChar(c: char): string {
    if c == '"' then "\\\""
    else if c == '\\' then "\\\\"
    else if c == '\U{0008}' then "\\b"
    else if c == '\U{000C}' then "\\f"
    else if c == '\n' then "\\n"
    else if c == '\r' then "\\r"
    else if c == '\t' then "\\t"
    else if c as int < 0x20 then "\\u00" + [HexDigit(c as int / 16), HexDigit(c as int % 16)]
    else [c]
  }

  function Escape(s: string): string {
    if s == [] then [] else EscapeChar(s[0]) + Escape(s[1..])
  }

  /** A JSON string literal. */
  function Quote(s: string): string {
    "\"" + Escape(s) + "\""
  }

  function Cons(c: char, parsed: Option<(string, string)>): Option<(string, string)> {
    match parsed
    case None => None
    case Some(p) => Some(([c] + p.0, p.1))
  }

  /**
   * Reads the body of a string literal up to and including its closing
   * quote; yields the decoded text and what follows the quote.
   */
  function ParseChars(s: string): Option<(string, string)>
    decreases |s|
  {
    if s == [] then None
    else if s[0] == '"' then Some(([], s[1..]))
    else if s[0] == '\\' then
      if |s| >= 2 && ShortEscape(s[1]).Some? then
        Cons(ShortEscape(s[1]).value, ParseChars(s[2..]))
      else if |s| >= 6 && s[1] == 'u' && s[2] == '0' && s[3] == '0'
        && IsLowerHex(s[4]) && IsLowerHex(s[5])
        && HexValue(s[4]) * 16 + HexValue(s[5]) < 0x20
        && !HasShortEscape(HexValue(s[4]) * 16 + HexValue(s[5]))
      then
        Cons((HexValue(s[4]) * 16 + HexValue(s[5])) as char, ParseChars(s[6..]))
      else None
    else if s[0] as int < 0x20 then None
    else Cons(s[0], ParseChars(s[1..]))
  }

  function ParseString(s: string): Option<(string, string)> {
    if s != [] && s[0] == '"' then ParseChars(s[1..]) else None
  }

  /** A two-character escape `\e` decodes to the character it stands for. */
  lemma ParseShortEscape(e: char, c: char, t: string)
    requires ShortEscape(e) == Some(c)
    ensures ParseChars(['\\', e] + t) == Cons(c, ParseChars(t))
  {
    var s := ['\\', e] + t;
    assert s[0] == '\\' && s[1] == e && s[2..] == t;
  }

  /** A control character without a short escape goes through `\u00hh` and back. */
  lemma ParseUnicodeEscape(c: char, t: string)
    requires c as int < 0x20 && !HasShortEscape(c as int)
    ensures ParseChars(EscapeChar(c) + t) == Cons(c, ParseChars(t))
  {
    var n := c as int;
    var hi, lo := HexDigit(n / 16), HexDigit(n % 16);
    assert EscapeChar(c) == "\\u00" + [hi, lo];
    var s := EscapeChar(c) + t;
    assert s[..6] == "\\u00" + [hi, lo] && s[6..] == t;
    assert HexValue(hi) == n / 16 && HexValue(lo) == n % 16;
    assert HexValue(s[4]) * 16 + HexValue(s[5]) == n;
  }

  /** A printable character other than a quote or a backslash is written as itself. */
  lemma ParseLiteral(c: char, t: string)
    requires c as int >= 0x20 && c != '"' && c != '\\'
    ensures ParseChars(EscapeChar(c) + t) == Cons(c, ParseChars(t))
  {
    assert EscapeChar(c) == [c];
    assert ([c] + t)[1..] == t;
  }

  lemma ParseEscapedChar(c: char, t: string)
    ensures ParseChars(EscapeChar(c) + t) == Cons(c, ParseChars(t))
  {
    if c == '"' {
      ParseShortEscape('"', c, t);
    } else if c == '\\' {
      ParseShortEscape('\\', c, t);
    } else if c == '\U{0008}' {
      ParseShortEscape('b', c, t);
    } else if c == '\U{000C}' {
      ParseShortEscape('f', c, t);
    } else if c == '\n' {
      ParseShortEscape('n', c, t);
    } else if c == '\r' {
      ParseShortEscape('r', c, t);
    } else if c == '\t' {
      ParseShortEscape('t', c, t);
    } else if c as int < 0x20 {
      ParseUnicodeEscape(c, t);
    } else {
      ParseLiteral(c, t);
    }
  }

  lemma {:induction false} ParseCharsRoundTrip(x: string, rest: string)
    ensures ParseChars(Escape(x) + "\"" + rest) == Some((x, rest))
  {
    if x == [] {
      assert Escape(x) + "\"" + rest == "\"" + rest;
    } else {
      var t := Escape(x[1..]) + "\"" + rest;
      assert Escape(x) + "\"" + rest == EscapeChar(x[0]) + t;
      ParseEscapedChar(x[0], t);
      ParseCharsRoundTrip(x[1..], rest);
      assert [x[0]] + x[1..] == x;
    }
  }

  /** How many characters of `s` the first decoded character takes up. */
  function HeadLength(s: string): nat
    requires s != []
  {
    if s[0] != '\\' then 1 else if |s| >= 2 && ShortEscape(s[1]).Some? then 2 else 6
  }

  lemma ShortEscapeInverse(e: char)
    requires ShortEscape(e).Some?
    ensures EscapeChar(ShortEscape(e).value) == ['\\', e]
  {
  }

  lemma UnicodeEscapeInverse(s: string)
    requires |s| >= 6 && s[0] == '\\' && s[1] == 'u' && s[2] == '0' && s[3] == '0'
    requires IsLowerHex(s[4]) && IsLowerHex(s[5])
    requires HexValue(s[4]) * 16 + HexValue(s[5]) < 0x20
    requires !HasShortEscape(HexValue(s[4]) * 16 + HexValue(s[5]))
    ensures EscapeChar((HexValue(s[4]) * 16 + HexValue(s[5])) as char) == s[..6]
  {
    var hi, lo := HexValue(s[4]), HexValue(s[5]);
    var n := hi * 16 + lo;
    assert n / 16 == hi && n % 16 == lo;
  }

  /** The character `ParseChars` decodes first, and how it is spelled. */
  lemma ParseCharsHead(s: string) returns (c: char)
    requires s != [] && s[0] != '"' && ParseChars(s).Some?
    ensures HeadLength(s) <= |s|
    ensures ParseChars(s) == Cons(c, ParseChars(s[HeadLength(s)..]))
    ensures s[..HeadLength(s)] == EscapeChar(c)
  {
    if s[0] != '\\' {
      c := s[0];
      assert EscapeChar(c) == [c];
    } else if |s| >= 2 && ShortEscape(s[1]).Some? {
      c := ShortEscape(s[1]).value;
      ShortEscapeInverse(s[1]);
    } else {
      UnicodeEscapeInverse(s);
      c := (HexValue(s[4]) * 16 + HexValue(s[5])) as char;
    }
  }

  /** One step of `ParseChars`: the first decoded character is spelled by the first `HeadLength` characters. */
  lemma ParseCharsStep(s: string)
    requires s != [] && s[0] != '"' && ParseChars(s).Some?
    ensures HeadLength(s) <= |s|
    ensures ParseChars(s[HeadLength(s)..]).Some?
    ensures ParseChars(s).value.0 != []
    ensures ParseChars(s).value.0[1..] == ParseChars(s[HeadLength(s)..]).value.0
    ensures ParseChars(s).value.1 == ParseChars(s[HeadLength(s)..]).value.1
    ensures s[..HeadLength(s)] == EscapeChar(ParseChars(s).value.0[0])
  {
    var c := ParseCharsHead(s);
    var tail := ParseChars(s[HeadLength(s)..]);
    assert tail.Some?;
    assert ParseChars(s).value.0 == [c] + tail.value.0;
  }

  lemma Reassemble(s: string, k: nat, head: string, tail: string, rest: string)
    requires k <= |s| && s[..k] == head && s[k..] == tail + "\"" + rest
    ensures s == (head + tail) + "\"" + rest
  {
    assert s == s[..k] + s[k..];
  }

  /** Whatever `ParseChars` accepts is the escaped text of what it decodes. */
  lemma {:induction false} ParseCharsCanonical(s: string)
    requires ParseChars(s).Some?
    ensures s == Escape(ParseChars(s).value.0) + "\"" + ParseChars(s).value.1
    decreases |s|
  {
    var x, rest := ParseChars(s).value.0, ParseChars(s).value.1;
    if s[0] == '"' {
      assert x == [];
    } else {
      ParseCharsStep(s);
      var k := HeadLength(s);
      ParseCharsCanonical(s[k..]);
      assert Escape(x) == EscapeChar(x[0]) + Escape(x[1..]);
      Reassemble(s, k, EscapeChar(x[0]), Escape(x[1..]), rest);
    }
  }

  lemma ParseStringRoundTrip(x: string, rest: string)
    ensures ParseString(Quote(x) + rest) == Some((x, rest))
  {
    assert (Quote(x) + rest)[1..] == Escape(x) + "\"" + rest;
    ParseCharsRoundTrip(x, rest);
  }

  lemma ParseStringCanonical(s: string)
    requires ParseString(s).Some?
    ensures s == Quote(ParseString(s).value.0) + ParseString(s).value.1
  {
    ParseCharsCanonical(s[1..]);
    assert s == [s[0]] + s[1..];
  }

  // ------------------------------------------------------------- the record

  /** The text after `lit`, when `s` starts with `lit`. */
  function Expect(s: string, lit: string): (r: Option<string>)
    ensures r.Some? ==> s == lit + r.value
  {
    if |lit| <= |s| && s[..|lit|] == lit then
      assert s == s[..|lit|] + s[|lit|..];
      Some(s[|lit|..])
    else None
  }

  lemma ExpectPrefix(lit: string, rest: string)
    ensures Expect(lit + rest, lit) == Some(rest)
  {
    assert (lit + rest)[..|lit|] == lit;
  }

  function EncodeNullable(s: Option<string>): string {
    match s
    case None => "null"
    case Some(v) => Quote(v)
  }

  function ParseNullable(s: string): Option<(Option<string>, string)> {
    match Expect(s, "null")
    case Some(rest) => Some((None, rest))
    case None =>
      match ParseString(s)
      case None => None
      case Some(p) => Some((Some(p.0), p.1))
  }

  lemma ParseNullableRoundTrip(v: Option<string>, rest: string)
    ensures ParseNullable(EncodeNullable(v) + rest) == Some((v, rest))
  {
    if v.None? {
      ExpectPrefix("null", rest);
    } else {
      ParseStringRoundTrip(v.value, rest);
      assert (EncodeNullable(v) + rest)[0] == '"';
    }
  }

  lemma ParseNullableCanonical(s: string)
    requires ParseNullable(s).Some?
    ensures s == EncodeNullable(ParseNullable(s).value.0) + ParseNullable(s).value.1
  {
    if Expect(s, "null").None? {
      ParseStringCanonical(s);
    }
  }

  /** The members after `phone`, which the encoder writes as one run of text. */
  datatype UserTail = UserTail(role: Role, emailVerifiedAt: Option<string>, createdAt: string, updatedAt: string)

  function TailOf(u: User): UserTail {
    UserTail(u.role, u.emailVerifiedAt, u.createdAt, u.updatedAt)
  }

  /** The text from `,"role":` up to and including the closing brace. */
  function EncodeTail(t: UserTail): string {
    ",\"role\":" + (Quote(RoleName(t.role)) +
    (",\"email_verified_at\":" + (EncodeNullable(t.emailVerifiedAt) +
    (",\"created_at\":" + (Quote(t.createdAt) +
    (",\"updated_at\":" + (Quote(t.updatedAt) + "}")))))))
  }

  /** `JSON.stringify(user)`, with the members in the order of the `User` interface. */
  function EncodeUser(u: User): string {
    "{\"id\":" + (NatToString(u.id) +
    (",\"name\":" + (Quote(u.name) +
    (",\"email\":" + (Quote(u.email) +
    (",\"phone\":" + (Quote(u.phone) + EncodeTail(TailOf(u)))))))))
  }

  /** Reads the members after `phone`, the closing brace, and nothing more. */
  function DecodeTail(s: string): Option<UserTail> {
    var r4 :- Expect(s, ",\"role\":");
    var roleName :- ParseString(r4);
    var role :- ParseRole(roleName.0);
    var r5 :- Expect(roleName.1, ",\"email_verified_at\":");
    var verified :- ParseNullable(r5);
    var r6 :- Expect(verified.1, ",\"created_at\":");
    var created :- ParseString(r6);
    var r7 :- Expect(created.1, ",\"updated_at\":");
    var updated :- ParseString(r7);
    var r8 :- Expect(updated.1, "}");
    if r8 == [] then Some(UserTail(role, verified.0, created.0, updated.0)) else None
  }

  /** `JSON.parse` of a stored user record; `None` where parsing throws. */
  function DecodeUser(s: string): Option<User> {
    var r0 :- Expect(s, "{\"id\":");
    var id :- ParseNat(r0);
    var r1 :- Expect(id.1, ",\"name\":");
    var name :- ParseString(r1);
    var r2 :- Expect(name.1, ",\"email\":");
    var email :- ParseString(r2);
    var r3 :- Expect(email.1, ",\"phone\":");
    var phone :- ParseString(r3);
    var tail :- DecodeTail(phone.1);
    Some(User(id.0, name.0, email.0, phone.0, tail.role, tail.emailVerifiedAt, tail.createdAt, tail.updatedAt))
  }

  lemma AppendAssoc(a: string, b: string, c: string)
    ensures (a + b) + c == a + (b + c)
  {
  }

  /** Text written after the tail's encoding stays after its closing brace. */
  lemma EncodeTailThen(t: UserTail, rest: string)
    ensures EncodeTail(t) + rest ==
      ",\"role\":" + (Quote(RoleName(t.role)) +
      (",\"email_verified_at\":" + (EncodeNullable(t.emailVerifiedAt) +
      (",\"created_at\":" + (Quote(t.createdAt) +
      (",\"updated_at\":" + (Quote(t.updatedAt) + ("}" + rest))))))))
  {
    var q1, q2, q3, q4 := Quote(RoleName(t.role)), EncodeNullable(t.emailVerifiedAt), Quote(t.createdAt), Quote(t.updatedAt);
    var x8 := q4 + "}";
    var x7 := ",\"updated_at\":" + x8;
    var x6 := q3 + x7;
    var x5 := ",\"created_at\":" + x6;
    var x4 := q2 + x5;
    var x3 := ",\"email_verified_at\":" + x4;
    var x2 := q1 + x3;
    assert EncodeTail(t) == ",\"role\":" + x2;
    AppendAssoc(q4, "}", rest);
    AppendAssoc(",\"updated_at\":", x8, rest);
    AppendAssoc(q3, x7, rest);
    AppendAssoc(",\"created_at\":", x6, rest);
    AppendAssoc(q2, x5, rest);
    AppendAssoc(",\"email_verified_at\":", x4, rest);
    AppendAssoc(q1, x3, rest);
    AppendAssoc(",\"role\":", x2, rest);
  }

  /** Text written after a record stays after its closing brace. */
  lemma EncodeUserThen(u: User, rest: string)
    ensures EncodeUser(u) + rest ==
      "{\"id\":" + (NatToString(u.id) +
      (",\"name\":" + (Quote(u.name) +
      (",\"email\":" + (Quote(u.email) +
      (",\"phone\":" + (Quote(u.phone) + (EncodeTail(TailOf(u)) + rest))))))))
  {
    var q0, q1, q2, q3 := NatToString(u.id), Quote(u.name), Quote(u.email), Quote(u.phone);
    var tail := EncodeTail(TailOf(u));
    var x8 := q3 + tail;
    var x7 := ",\"phone\":" + x8;
    var x6 := q2 + x7;
    var x5 := ",\"email\":" + x6;
    var x4 := q1 + x5;
    var x3 := ",\"name\":" + x4;
    var x2 := q0 + x3;
    assert EncodeUser(u) == "{\"id\":" + x2;
    AppendAssoc(q3, tail, rest);
    AppendAssoc(",\"phone\":", x8, rest);
    AppendAssoc(q2, x7, rest);
    AppendAssoc(",\"email\":", x6, rest);
    AppendAssoc(q1, x5, rest);
    AppendAssoc(",\"name\":", x4, rest);
    AppendAssoc(q0, x3, rest);
    AppendAssoc("{\"id\":", x2, rest);
  }

  /** The tail's encoding is read back up to its closing brace; any text after that is rejected. */
  lemma DecodeEncodeTail(t: UserTail, rest: string)
    ensures DecodeTail(EncodeTail(t) + rest) == if rest == [] then Some(t) else None
  {
    var t8 := Quote(t.updatedAt) + ("}" + rest);
    var t7 := ",\"updated_at\":" + t8;
    var t6 := Quote(t.createdAt) + t7;
    var t5 := ",\"created_at\":" + t6;
    var t4 := EncodeNullable(t.emailVerifiedAt) + t5;
    var s4 := ",\"email_verified_at\":" + t4;
    var s3 := Quote(RoleName(t.role)) + s4;
    EncodeTailThen(t, rest);
    ExpectPrefix(",\"role\":", s3);
    ParseStringRoundTrip(RoleName(t.role), s4);
    ParseRoleName(t.role);
    ExpectPrefix(",\"email_verified_at\":", t4);
    ParseNullableRoundTrip(t.emailVerifiedAt, t5);
    ExpectPrefix(",\"created_at\":", t6);
    ParseStringRoundTrip(t.createdAt, t7);
    ExpectPrefix(",\"updated_at\":", t8);
    ParseStringRoundTrip(t.updatedAt, "}" + rest);
    ExpectPrefix("}", rest);
  }

  /** A record followed by more text is rejected; on its own it reads back as the user that was written. */
  lemma DecodeEncodeUserThen(u: User, rest: string)
    ensures DecodeUser(EncodeUser(u) + rest) == if rest == [] then Some(u) else None
  {
    var tail := EncodeTail(TailOf(u)) + rest;
    var p3 := Quote(u.phone) + tail;
    var t2 := ",\"phone\":" + p3;
    var e2 := Quote(u.email) + t2;
    var t1 := ",\"email\":" + e2;
    var n1 := Quote(u.name) + t1;
    var t0 := ",\"name\":" + n1;
    var i0 := NatToString(u.id) + t0;
    EncodeUserThen(u, rest);
    ExpectPrefix("{\"id\":", i0);
    ParseNatRoundTrip(u.id, t0);
    ExpectPrefix(",\"name\":", n1);
    ParseStringRoundTrip(u.name, t1);
    ExpectPrefix(",\"email\":", e2);
    ParseStringRoundTrip(u.email, t2);
    ExpectPrefix(",\"phone\":", p3);
    ParseStringRoundTrip(u.phone, tail);
    DecodeEncodeTail(TailOf(u), rest);
  }

  /** A stored record reads back as the user that was written. */
  lemma DecodeEncodeUser(u: User)
    ensures DecodeUser(EncodeUser(u)) == Some(u)
  {
    DecodeEncodeUserThen(u, []);
    assert EncodeUser(u) + [] == EncodeUser(u);
  }

  lemma EncodeDecodeTail(s: string)
    requires DecodeTail(s).Some?
    ensures EncodeTail(DecodeTail(s).value) == s
  {
    var r4 := Expect(s, ",\"role\":").value;
    var roleName := ParseString(r4).value;
    ParseStringCanonical(r4);
    var r5 := Expect(roleName.1, ",\"email_verified_at\":").value;
    var verified := ParseNullable(r5).value;
    ParseNullableCanonical(r5);
    var r6 := Expect(verified.1, ",\"created_at\":").value;
    var created := ParseString(r6).value;
    ParseStringCanonical(r6);
    var r7 := Expect(created.1, ",\"updated_at\":").value;
    var updated := ParseString(r7).value;
    ParseStringCanonical(r7);
    var r8 := Expect(updated.1, "}").value;
    assert r8 == [];
    assert updated.1 == "}";
  }

  /** The only text that reads back as a user is that user's own encoding. */
  lemma EncodeDecodeUser(s: string)
    requires DecodeUser(s).Some?
    ensures EncodeUser(DecodeUser(s).value) == s
  {
    var r0 := Expect(s, "{\"id\":").value;
    var id := ParseNat(r0).value;
    ParseNatCanonical(r0);
    var r1 := Expect(id.1, ",\"name\":").value;
    var name := ParseString(r1).value;
    ParseStringCanonical(r1);
    var r2 := Expect(name.1, ",\"email\":").value;
    var email := ParseString(r2).value;
    ParseStringCanonical(r2);
    var r3 := Expect(email.1, ",\"phone\":").value;
    var phone := ParseString(r3).value;
    ParseStringCanonical(r3);
    EncodeDecodeTail(phone.1);
    assert TailOf(DecodeUser(s).value) == DecodeTail(phone.1).value;
  }

  /** The record text is never empty, so a stored record always passes the `userData &&` test. */
  lemma EncodeUserNonEmpty(u: User)
    ensures EncodeUser(u) != [] && EncodeUser(u)[0] == '{'
  {
  }

  /** Every text that reads back as a user ends with the closing brace. */
  lemma DecodedEndsWithBrace(s: string)
    ensures DecodeUser(s).Some? ==> s != [] && s[|s| - 1] == '}'
  {
    if DecodeUser(s).Some? {
      EncodeDecodeUser(s);
    }
  }

  /** Parsing fails on the empty text and on every proper prefix of a record, such as a truncated write. */
  lemma DecodeRejectsMalformed(u: User, k: nat)
    requires k < |EncodeUser(u)|
    ensures DecodeUser("") == None
    ensures DecodeUser(EncodeUser(u)[..k]) == None
  {
    DecodedEndsWithBrace("");
    var s := EncodeUser(u);
    var t := s[..k];
    if DecodeUser(t).Some? {
      var v := DecodeUser(t).value;
      EncodeDecodeUser(t);
      var rest := s[k..];
      assert s == EncodeUser(v) + rest;
      DecodeEncodeUserThen(v, rest);
      DecodeEncodeUser(u);
      assert false;
    }
  }
}
