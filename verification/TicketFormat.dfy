/** The printed ticket code: an optional prefix and the ticket number padded to three digits. */
module TicketFormat {

  const NUMBER_DISPLAY_DIGITS := 3

  function Digit(d: nat): char
    requires d < 10
  {
    '0' + d as char
  }

  /** The decimal digits of `n`, without leading zeros. */
  function Decimal(n: nat): (s: string)
    ensures |s| > 0
  {
    if n < 10 then [Digit(n)] else Decimal(n / 10) + [Digit(n % 10)]
  }

  function PadStart(s: string, width: nat, fill: char): string
    decreases width - |s|
  {
    if |s| >= width then s else PadStart([fill] + s, width, fill)
  }

  function FormatTicketNumber(n: nat): string {
    PadStart(Decimal(n), NUMBER_DISPLAY_DIGITS, '0')
  }

  function FormatTicketCode(prefix: string, n: nat): string {
    prefix + FormatTicketNumber(n)
  }

  predicate IsNumeral(s: string) {
    forall i :: 0 <= i < |s| ==> '0' <= s[i] <= '9'
  }

  /** The number a string of digits denotes. */
  function Parse(s: string): nat
    requires IsNumeral(s)
  {
    if s == "" then 0 else 10 * Parse(s[..|s| - 1]) + (s[|s| - 1] - '0') as nat
  }

  lemma {:induction false} ParseOfDecimal(n: nat)
    ensures IsNumeral(Decimal(n)) && Parse(Decimal(n)) == n
  {
    if n < 10 {
      assert Decimal(n)[..0] == "";
    } else {
      ParseOfDecimal(n / 10);
      assert Decimal(n)[..|Decimal(n)| - 1] == Decimal(n / 10);
    }
  }

  lemma {:induction false} ParseIgnoresLeadingZero(s: string)
    requires IsNumeral(s)
    ensures IsNumeral("0" + s) && Parse("0" + s) == Parse(s)
  {
    var z := "0" + s;
    if s == "" {
      assert z[..0] == "";
    } else {
      ParseIgnoresLeadingZero(s[..|s| - 1]);
      assert z[..|z| - 1] == "0" + s[..|s| - 1];
    }
  }

  lemma {:induction false} ParseOfPadded(s: string, width: nat)
    requires IsNumeral(s)
    ensures IsNumeral(PadStart(s, width, '0')) && Parse(PadStart(s, width, '0')) == Parse(s)
    ensures |PadStart(s, width, '0')| >= width
    decreases width - |s|
  {
    if |s| < width {
      ParseIgnoresLeadingZero(s);
      ParseOfPadded(['0'] + s, width);
    }
  }

  /** A printed number reads back as itself at every magnitude, and is never shorter than three digits. */
  lemma FormattedNumberReadsBack(n: nat)
    ensures IsNumeral(FormatTicketNumber(n)) && Parse(FormatTicketNumber(n)) == n
    ensures |FormatTicketNumber(n)| >= NUMBER_DISPLAY_DIGITS
  {
    ParseOfDecimal(n);
    ParseOfPadded(Decimal(n), NUMBER_DISPLAY_DIGITS);
  }

  lemma {:induction false} PaddedLength(s: string, width: nat)
    ensures |PadStart(s, width, '0')| == if |s| >= width then |s| else width
    ensures |s| >= width ==> PadStart(s, width, '0') == s
    decreases width - |s|
  {
    if |s| < width { PaddedLength(['0'] + s, width); }
  }

  /** Numbers are padded to three digits and, from 100 on, not at all; the prefix comes first. */
  lemma PaddedToThree(prefix: string, n: nat)
    ensures n < 1000 ==> |FormatTicketNumber(n)| == 3
    ensures n >= 100 ==> FormatTicketNumber(n) == Decimal(n)
    ensures FormatTicketCode(prefix, n)[..|prefix|] == prefix && FormatTicketCode(prefix, n)[|prefix|..] == FormatTicketNumber(n)
  {
    PaddedLength(Decimal(n), 3);
    if n >= 10 {
      assert |Decimal(n / 10)| >= 1;
      assert n >= 100 ==> |Decimal(n / 10)| >= 2;
      assert n < 1000 ==> |Decimal(n / 10)| <= 2;
    }
  }

  /** Under one prefix, different tickets have different codes. */
  lemma CodesAreInjective(prefix: string, m: nat, n: nat)
    requires FormatTicketCode(prefix, m) == FormatTicketCode(prefix, n)
    ensures m == n
  {
    var a, b := FormatTicketCode(prefix, m), FormatTicketCode(prefix, n);
    assert a[|prefix|..] == FormatTicketNumber(m) && b[|prefix|..] == FormatTicketNumber(n);
    FormattedNumberReadsBack(m);
    FormattedNumberReadsBack(n);
  }

  /** Under different prefixes two tickets can share a code, because numbers outgrow the padding. */
  lemma PrefixesCanCollide()
    ensures FormatTicketCode("A", 1005) == FormatTicketCode("A1", 5)
  {
    assert Decimal(5) == "5" && ['0'] + "5" == "05" && ['0'] + "05" == "005";
    assert PadStart("005", 3, '0') == "005" && PadStart("05", 3, '0') == "005";
    assert FormatTicketNumber(5) == "005";
    assert Decimal(1) == "1" && Decimal(10) == "10" && Decimal(100) == "100" && Decimal(1005) == "1005";
    assert "A" + "1005" == "A1" + "005";
  }
}
