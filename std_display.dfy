/** What this model assumes of Rust's standard library: the decimal `Display` of unsigned
    integers, and `std::panic::Location`, a (file, line, column) triple whose `Display` is
    "{file}:{line}:{col}". Also a scraper that reads the location back from the end of a
    rendered line, the way log-processing tooling consumes that format. */
module StdDisplay {

  datatype Option<T> = None | Some(value: T)

  /** Rust's `u32`, the type of `Location::line()` and `Location::column()`. */
  type u32 = x: nat | x < 0x1_0000_0000

  /** `std::panic::Location`: the file, line and column of a call site. */
  datatype Location = Location(file: string, line: u32, column: u32)

  predicate IsDigit(c: char) {
    '0' <= c <= '9'
  }

  /** A non-empty run of decimal digits. */
  predicate IsDecimal(s: string) {
    |s| > 0 && forall i :: 0 <= i < |s| ==> IsDigit(s[i])
  }

  /** A decimal without leading zeros, the only form `Display` produces for integers. */
  predicate IsCanonicalDecimal(s: string) {
    IsDecimal(s) && (s[0] == '0' ==> |s| == 1)
  }

  function DigitChar(d: nat): (c: char)
    requires d < 10
    ensures IsDigit(c) && c as int - '0' as int == d
  {
    ('0' as int + d) as char
  }

  /** The decimal text of `n`, as `{}` prints an unsigned integer. */
  function NatToString(n: nat): (s: string)
    ensures IsCanonicalDecimal(s)
    ensures n < 10 <==> |s| == 1
  {
    if n < 10 then [DigitChar(n)] else NatToString(n / 10) + [DigitChar(n % 10)]
  }

  function DigitValue(c: char): (d: nat)
    requires IsDigit(c)
    ensures d < 10 && DigitChar(d) == c
  {
    c as int - '0' as int
  }

  /** The number a run of digits denotes; the reading side of `NatToString`. */
  function DigitsValue(s: string): (v: nat)
    requires forall i :: 0 <= i < |s| ==> IsDigit(s[i])
  {
    if s == [] then 0
    else DigitsValue(s[..|s| - 1]) * 10 + DigitValue(s[|s| - 1])
  }

  /** Reading back the decimal text gives the number that was printed. */
  lemma {:induction false} NatToStringRoundTrip(n: nat)
    ensures DigitsValue(NatToString(n)) == n
  {
    var s := NatToString(n);
    if n >= 10 {
      NatToStringRoundTrip(n / 10);
      assert s[..|s| - 1] == NatToString(n / 10);
    }
  }

  /** Distinct numbers print as distinct text. */
  lemma NatToStringInjective(m: nat, n: nat)
    requires NatToString(m) == NatToString(n)
    ensures m == n
  {
    NatToStringRoundTrip(m);
    NatToStringRoundTrip(n);
  }

  /** A decimal whose leading digit is not zero denotes a positive number. */
  lemma {:induction false} LeadingNonZeroPositive(s: string)
    requires IsDecimal(s) && s[0] != '0'
    ensures DigitsValue(s) >= 1
  {
    if |s| > 1 {
      var t := s[..|s| - 1];
      assert t[0] == s[0];
      LeadingNonZeroPositive(t);
    }
  }

  /** Every canonical decimal is the printed form of the number it denotes: with
      `NatToStringRoundTrip`, `NatToString` is a bijection onto canonical decimals. */
  lemma {:induction false} CanonicalDecimalRoundTrip(s: string)
    requires IsCanonicalDecimal(s)
    ensures NatToString(DigitsValue(s)) == s
  {
    if |s| > 1 {
      var t := s[..|s| - 1];
      assert t[0] == s[0];
      LeadingNonZeroPositive(t);
      CanonicalDecimalRoundTrip(t);
      assert s == t + [s[|s| - 1]];
    }
  }

  /** `impl Display for Location`: "{file}:{line}:{col}". */
  function LocationText(loc: Location): (r: string)
    ensures |r| > |loc.file| + 3
    ensures r[..|loc.file|] == loc.file && r[|loc.file|] == ':'
  {
    loc.file + ":" + NatToString(loc.line) + ":" + NatToString(loc.column)
  }

  /** The last position at which `c` occurs in `s`, if any. */
  function LastIndexOf(s: string, c: char): (r: Option<nat>)
    ensures r.Some? ==> r.value < |s| && s[r.value] == c && c !in s[r.value + 1..]
    ensures r.None? <==> c !in s
  {
    if s == [] then None
    else if s[|s| - 1] == c then Some(|s| - 1)
    else LastIndexOf(s[..|s| - 1], c)
  }

  lemma {:induction false} LastIndexOfSplit(p: string, c: char, q: string)
    requires c !in q
    ensures LastIndexOf(p + [c] + q, c) == Some(|p|)
  {
    var s := p + [c] + q;
    if q != [] {
      var q' := q[..|q| - 1];
      assert s[|s| - 1] == q[|q| - 1];
      assert s[..|s| - 1] == p + [c] + q';
      LastIndexOfSplit(p, c, q');
    }
  }

  /** What a log scraper recovers from a line ending in "…:{line}:{col}". */
  datatype Scraped = Scraped(head: string, line: nat, column: nat)

  /** Splits `s` at its last two colons and reads the two decimal fields after them;
      `None` when the line does not end that way. */
  function ScrapeLocation(s: string): (r: Option<Scraped>)
    ensures r.Some? ==> |r.value.head| + 4 <= |s| && s[..|r.value.head|] == r.value.head
    ensures r.Some? ==> s[|r.value.head|] == ':'
  {
    match LastIndexOf(s, ':')
    case None => None
    case Some(j) =>
      var before := s[..j];
      var columnText := s[j + 1..];
      match LastIndexOf(before, ':')
      case None => None
      case Some(i) =>
        var lineText := before[i + 1..];
        if IsDecimal(lineText) && IsDecimal(columnText) then
          Some(Scraped(before[..i], DigitsValue(lineText), DigitsValue(columnText)))
        else None
  }

  lemma DecimalHasNoColon(s: string)
    requires IsDecimal(s)
    ensures ':' !in s
  {
  }

  /** A line "{head}:{line}:{column}" with decimal line and column scrapes back into its parts. */
  lemma ScrapeSplit(head: string, lineText: string, columnText: string)
    requires IsDecimal(lineText) && IsDecimal(columnText)
    ensures ScrapeLocation(head + ":" + lineText + ":" + columnText)
         == Some(Scraped(head, DigitsValue(lineText), DigitsValue(columnText)))
  {
    var before := head + ":" + lineText;
    var s := before + ":" + columnText;
    DecimalHasNoColon(columnText);
    LastIndexOfSplit(before, ':', columnText);
    assert s[..|before|] == before;
    assert s[|before| + 1..] == columnText;
    DecimalHasNoColon(lineText);
    LastIndexOfSplit(head, ':', lineText);
    assert before[|head| + 1..] == lineText;
    assert before[..|head|] == head;
  }

  /** Whatever text precedes it, a `Location`'s display is recovered by the scraper:
      line and column read back exactly, and everything before the line's colon is the head. */
  lemma ScrapeAfterLocation(prefix: string, loc: Location)
    ensures ScrapeLocation(prefix + LocationText(loc))
         == Some(Scraped(prefix + loc.file, loc.line, loc.column))
  {
    var lineText, columnText := NatToString(loc.line), NatToString(loc.column);
    assert prefix + LocationText(loc) == (prefix + loc.file) + ":" + lineText + ":" + columnText;
    ScrapeSplit(prefix + loc.file, lineText, columnText);
    NatToStringRoundTrip(loc.line);
    NatToStringRoundTrip(loc.column);
  }
}
