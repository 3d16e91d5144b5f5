/** The records the dashboard endpoint sends to the admin front end, and the
    calendar month with its "yyyy-MM" wire format, shared by the service that
    builds the series and the page that labels them. */
module DashboardDto {
  import Text

  datatype MonthlyData = MonthlyData(month: string, count: int)

  datatype SkillCount = SkillCount(skillName: string, count: int)

  datatype CompanyJobCount = CompanyJobCount(companyId: int, companyName: string, jobCount: int)

  datatype CompanyResumeCount = CompanyResumeCount(companyId: int, companyName: string, resumeCount: int)

  datatype JobResumeCount = JobResumeCount(jobId: int, jobName: string, companyName: string, resumeCount: int)

  // ---------------------------------------------------------------- months

  /** A month of the proleptic calendar (`java.time.YearMonth`). */
  datatype YearMonth = YearMonth(year: int, month: int)

  predicate ValidMonth(ym: YearMonth) {
    1 <= ym.month <= 12
  }

  /** The number of months since January of year 0. */
  function MonthIndex(ym: YearMonth): int {
    ym.year * 12 + (ym.month - 1)
  }

  /** The month with a given index. */
  function FromIndex(i: int): (ym: YearMonth)
    ensures ValidMonth(ym) && MonthIndex(ym) == i
  {
    YearMonth(i / 12, i % 12 + 1)
  }

  /** Distinct valid months have distinct indexes. */
  lemma MonthIndexInjective(a: YearMonth, b: YearMonth)
    requires ValidMonth(a) && ValidMonth(b) && MonthIndex(a) == MonthIndex(b)
    ensures a == b
  {
    var d := a.year - b.year;
    assert d * 12 == b.month - a.month;
    assert -1 < d < 1;
  }

  /** `YearMonth.minusMonths(k)`: k months earlier, across year boundaries. */
  function MinusMonths(ym: YearMonth, k: nat): (r: YearMonth)
    requires ValidMonth(ym)
    ensures ValidMonth(r) && MonthIndex(r) == MonthIndex(ym) - k
  {
    FromIndex(MonthIndex(ym) - k)
  }

  /** Going back no months stays on the month. */
  lemma MinusNoMonths(ym: YearMonth)
    requires ValidMonth(ym)
    ensures MinusMonths(ym, 0) == ym
  {
    MonthIndexInjective(MinusMonths(ym, 0), ym);
  }

  /** The "yyyy" field of a date pattern: the year of era, zero-padded to four
      digits, with a leading '+' once it needs more than four. */
  function YearText(year: int): string
  {
    var era: nat := if year >= 1 then year else 1 - year;
    if era > 9999 then "+" + Text.NatToString(era) else Text.PadStart(Text.NatToString(era), 4, '0')
  }

  /** A month formatted with the pattern "yyyy-MM". */
  function MonthText(ym: YearMonth): string
    requires ValidMonth(ym)
  {
    YearText(ym.year) + "-" + Text.Pad2(ym.month)
  }

  /** A month of the years 1 to 9999 formats as four digits, a dash and two
      digits, which read back as its year and its month. */
  lemma MonthTextShape(ym: YearMonth)
    requires ValidMonth(ym) && 1 <= ym.year <= 9999
    ensures var t := MonthText(ym);
      |t| == 7 && t[4] == '-' && Text.AllDigits(t[..4]) && Text.AllDigits(t[5..])
      && Text.ParseDigits(t[..4]) == ym.year && Text.ParseDigits(t[5..]) == ym.month
  {
    var y, m := YearText(ym.year), Text.Pad2(ym.month);
    YearDigits(ym.year);
    Text.Pad2Digits(ym.month);
    MonthTextParts(ym);
    Text.DigitsAround(y, '-', m, MonthText(ym));
  }

  /** A month's text is its year field and its two-digit month around a dash. */
  lemma MonthTextParts(ym: YearMonth)
    requires ValidMonth(ym)
    ensures MonthText(ym) == YearText(ym.year) + ['-'] + Text.Pad2(ym.month)
  {
  }

  /** The year field of years 1 to 9999: four digits reading back as the year. */
  lemma YearDigits(year: int)
    requires 1 <= year <= 9999
    ensures |YearText(year)| == 4 && Text.AllDigits(YearText(year))
    ensures Text.ParseDigits(YearText(year)) == year
  {
    Text.NatToStringWidth(year, 4);
    Text.ParseNatToString(year);
    Text.ParseZeroPadded(Text.NatToString(year), 4);
  }
}
