/** `format.phone` from src/utils/format.ts: regrouping a ten-digit phone number. */
module Format {
  import opened JsText

  /**
   * Keeps the ASCII digits of `phone`; if there are exactly ten, lays them
   * out as `(ddd) ddd-dddd`, otherwise returns the input as it was.
   */
  function Phone(phone: string): string {
    var cleaned := DigitsOf(phone);
    if |cleaned| == 10 then
      "(" + cleaned[..3] + ") " + cleaned[3..6] + "-" + cleaned[6..]
    else phone
  }

  /** Ten digits are laid out in three groups behind fixed separators, 14 characters in all. */
  lemma PhoneLayout(phone: string)
    requires |DigitsOf(phone)| == 10
    ensures var r, d := Phone(phone), DigitsOf(phone);
      && |r| == 14
      && r[0] == '(' && r[4] == ')' && r[5] == ' ' && r[9] == '-'
      && r[1..4] == d[..3] && r[6..9] == d[3..6] && r[10..] == d[6..]
  {
  }

  /** Any other digit count leaves the text untouched. */
  lemma PhoneUnchanged(phone: string)
    requires |DigitsOf(phone)| != 10
    ensures Phone(phone) == phone
  {
  }

  /** Formatting neither adds, drops nor reorders digits. */
  lemma PhoneKeepsDigits(phone: string)
    ensures DigitsOf(Phone(phone)) == DigitsOf(phone)
  {
    var d := DigitsOf(phone);
    if |d| == 10 {
      var a, b, c := d[..3], d[3..6], d[6..];
      FilterAppend("(" + a + ") " + b + "-", c, IsAsciiDigit);
      FilterAppend("(" + a + ") " + b, "-", IsAsciiDigit);
      FilterAppend("(" + a + ") ", b, IsAsciiDigit);
      FilterAppend("(" + a, ") ", IsAsciiDigit);
      FilterAppend("(", a, IsAsciiDigit);
      FilterDropsAll("(", IsAsciiDigit);
      FilterDropsAll(") ", IsAsciiDigit);
      FilterDropsAll("-", IsAsciiDigit);
      FilterKeepsAll(a, IsAsciiDigit);
      FilterKeepsAll(b, IsAsciiDigit);
      FilterKeepsAll(c, IsAsciiDigit);
      assert a + b + c == d;
    }
  }

  /** Formatting a formatted number changes nothing. */
  lemma PhoneIdempotent(phone: string)
    ensures Phone(Phone(phone)) == Phone(phone)
  {
    PhoneKeepsDigits(phone);
  }
}
