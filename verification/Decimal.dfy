/** Zero-padded record numbers: printing `r-%04d` and reading the number back
    (app/simulators/payments.py, app/simulators/data.py). */
module Decimal {
  import opened Values

  const DIGITS := "0123456789"

  predicate IsDigit(c: char) {
    '0' <= c <= '9'
  }

  function DigitValue(c: char): nat
    requires IsDigit(c)
  {
    c as int - '0' as int
  }

  /** `str.isdigit`, on ASCII. */
  predicate AllDigits(s: string) {
    s != "" && forall i | 0 <= i < |s| :: IsDigit(s[i])
  }

  function Print(n: nat): (s: string)
    ensures AllDigits(s)
  {
    if n < 10 then [DIGITS[n]] else Print(n / 10) + [DIGITS[n % 10]]
  }

  /** `int(s)` on a string of digits. */
  function Parse(s: string): nat
    requires forall i | 0 <= i < |s| :: IsDigit(s[i])
  {
    if s == "" then 0 else 10 * Parse(s[..|s| - 1]) + DigitValue(s[|s| - 1])
  }

  lemma {:induction false} ParsePrint(n: nat)
    ensures Parse(Print(n)) == n
  {
    if n < 10 {
      assert Print(n)[..0] == "";
    } else {
      ParsePrint(n / 10);
      assert Print(n)[..|Print(n)| - 1] == Print(n / 10);
    }
  }

  function Pad(s: string, width: nat): string
    decreases width - |s|
  {
    if |s| >= width then s else Pad("0" + s, width)
  }

  lemma {:induction false} LeadingZero(s: string)
    requires AllDigits(s)
    ensures Parse("0" + s) == Parse(s)
  {
    var t := "0" + s;
    assert t[..|t| - 1] == "0" + s[..|s| - 1];
    if |s| == 1 {
      assert s[..0] == "" && t[..1] == "0" && "0"[..0] == "";
    } else {
      LeadingZero(s[..|s| - 1]);
    }
  }

  lemma {:induction false} PaddingIsTransparent(s: string, width: nat)
    requires AllDigits(s)
    ensures AllDigits(Pad(s, width))
    ensures Parse(Pad(s, width)) == Parse(s)
    decreases width - |s|
  {
    if |s| < width {
      LeadingZero(s);
      PaddingIsTransparent("0" + s, width);
    }
  }

  /** `f"r-{n:04d}"`. */
  function RefundId(n: nat): string {
    "r-" + Pad(Print(n), 4)
  }

  lemma {:induction false} PadIsShort(s: string, width: nat)
    ensures |Pad(s, width)| == if |s| < width then width else |s|
    decreases width - |s|
  {
    if |s| < width {
      PadIsShort("0" + s, width);
    }
  }

  lemma PrintOneMore(n: nat)
    ensures |Print(n)| == if n < 10 then 1 else |Print(n / 10)| + 1
  {
  }

  lemma PrintSize(n: nat)
    ensures |Print(n)| <= 4 <==> n < 10000
  {
    PrintOneMore(n);
    PrintOneMore(n / 10);
    PrintOneMore(n / 10 / 10);
    PrintOneMore(n / 10 / 10 / 10);
    if n >= 10000 {
      assert n / 10 / 10 / 10 >= 10;
      assert |Print(n / 10 / 10 / 10 / 10)| >= 1;
    }
  }

  /** A refund id is `r-` and at least four digits; more only when the number needs them. */
  lemma RefundIdShape(n: nat)
    ensures RefundId(n)[..2] == "r-" && AllDigits(RefundId(n)[2..])
    ensures |RefundId(n)| >= 6 && (|RefundId(n)| == 6 <==> n < 10000)
  {
    PadIsShort(Print(n), 4);
    PaddingIsTransparent(Print(n), 4);
    PrintSize(n);
    assert RefundId(n)[2..] == Pad(Print(n), 4);
  }

  /** `s.rsplit("-", 1)[-1]`: what follows the last dash. */
  function Suffix(s: string): string {
    if s == "" || s[|s| - 1] == '-' then "" else Suffix(s[..|s| - 1]) + [s[|s| - 1]]
  }

  lemma {:induction false} SuffixAfterDash(before: string, s: string)
    requires forall i | 0 <= i < |s| :: s[i] != '-'
    ensures Suffix(before + "-" + s) == s
  {
    var t := before + "-" + s;
    if s == "" {
      assert t[|t| - 1] == '-';
    } else {
      assert t[..|t| - 1] == before + "-" + s[..|s| - 1];
      SuffixAfterDash(before, s[..|s| - 1]);
    }
  }

  /** The number an id counts as, when its suffix is numeric. */
  function NumberOf(id: string): Option<nat> {
    if AllDigits(Suffix(id)) then Some(Parse(Suffix(id))) else None
  }

  /** Parse-after-print for record ids of any size, past the four padded digits too. */
  lemma NumberOfRefundId(n: nat)
    ensures NumberOf(RefundId(n)) == Some(n)
  {
    var s := Pad(Print(n), 4);
    PaddingIsTransparent(Print(n), 4);
    assert RefundId(n) == "r" + "-" + s;
    SuffixAfterDash("r", s);
    ParsePrint(n);
  }
}
