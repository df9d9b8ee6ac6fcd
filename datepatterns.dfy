/** The two date shapes the timeline code tests with regular expressions. */
module DatePatterns {
  import opened JsString

  /** `/^\d{4}-\d{2}-\d{2}$/`: exactly four digits, `-`, two digits, `-`, two digits
      (the timeline form's date pattern; month and day ranges are not checked). */
  predicate IsIsoDate(s: string) {
    |s| == 10 &&
    IsDigit(s[0]) && IsDigit(s[1]) && IsDigit(s[2]) && IsDigit(s[3]) && s[4] == '-' &&
    IsDigit(s[5]) && IsDigit(s[6]) && s[7] == '-' && IsDigit(s[8]) && IsDigit(s[9])
  }

  /** `/^(\d{4}):(\d{2}):(\d{2})/`: the string STARTS with `DDDD:DD:DD`; anything may follow. */
  predicate HasExifDatePrefix(s: string) {
    |s| >= 10 &&
    IsDigit(s[0]) && IsDigit(s[1]) && IsDigit(s[2]) && IsDigit(s[3]) && s[4] == ':' &&
    IsDigit(s[5]) && IsDigit(s[6]) && s[7] == ':' && IsDigit(s[8]) && IsDigit(s[9])
  }

  /** `${match[1]}-${match[2]}-${match[3]}`: the three captured groups joined with `-`. */
  function ExifToIsoDate(s: string): (r: string)
    requires HasExifDatePrefix(s)
    ensures IsIsoDate(r)
  {
    s[..4] + "-" + s[5..7] + "-" + s[8..10]
  }

  /** The normalised date keeps the year, month and day digits in place and replaces only the
      two colons. */
  lemma ExifToIsoDateDigits(s: string)
    requires HasExifDatePrefix(s)
    ensures var r := ExifToIsoDate(s);
      forall i :: 0 <= i < 10 && i != 4 && i != 7 ==> r[i] == s[i]
    ensures ExifToIsoDate(s)[4] == '-' && ExifToIsoDate(s)[7] == '-'
  {
  }
}
