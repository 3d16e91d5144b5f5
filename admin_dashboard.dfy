/** The arithmetic of the admin dashboard service: month-over-month growth, the
    resume approval rate, the six-month series built by a counting-down loop, and
    the top-N lists cut from the repositories' ranked rows. The repositories are
    parameters: counts per month and rows in the order their queries return them. */
module AdminDashboard {
  import Text
  import opened Remote
  import opened DashboardDto

  // ---------------------------------------------------------------- rates

  /** `calculateGrowthRate(current, previous)`: percentage change from last
      month, with 100 or 0 when there was nothing last month. */
  function GrowthRate(current: int, previous: int): (rate: real)
    ensures previous == 0 ==> rate == (if current > 0 then 100.0 else 0.0)
    ensures previous != 0 ==> rate * (previous as real) == ((current - previous) as real) * 100.0
  {
    if previous == 0 then (if current > 0 then 100.0 else 0.0)
    else ((current - previous) as real / previous as real) * 100.0
  }

  /** Against a positive previous count the rate is zero exactly when nothing
      changed, and has the sign of the change otherwise. */
  lemma GrowthRateSign(current: int, previous: int)
    requires previous > 0
    ensures GrowthRate(current, previous) == 0.0 <==> current == previous
    ensures GrowthRate(current, previous) > 0.0 <==> current > previous
    ensures GrowthRate(current, previous) < 0.0 <==> current < previous
  {
    var rate, p := GrowthRate(current, previous), previous as real;
    assert rate * p == ((current - previous) as real) * 100.0;
    if rate > 0.0 {
      assert rate * p > 0.0;
    } else if rate < 0.0 {
      assert rate * p < 0.0;
    }
  }

  /** Applying the rate to last month's count gives this month's count back. */
  lemma GrowthRateRestoresCurrent(current: int, previous: int)
    requires previous != 0
    ensures (previous as real) * (1.0 + GrowthRate(current, previous) / 100.0) == current as real
  {
    var rate, p := GrowthRate(current, previous), previous as real;
    assert rate * p == ((current - previous) as real) * 100.0;
    calc {
      p * (1.0 + rate / 100.0);
      p + (rate * p) / 100.0;
      p + (current - previous) as real;
    }
  }

  /** The share of approved resumes among all resumes, as a percentage; 0 when
      there are none. */
  function ApprovalRate(approved: int, total: int): (rate: real)
    ensures total <= 0 ==> rate == 0.0
    ensures total > 0 ==> rate * (total as real) == (approved as real) * 100.0
  {
    if total > 0 then (approved as real / total as real) * 100.0 else 0.0
  }

  /** With no more approved resumes than resumes the rate is a percentage. */
  lemma ApprovalRateBounds(approved: int, total: int)
    requires 0 <= approved <= total
    ensures 0.0 <= ApprovalRate(approved, total) <= 100.0
  {
    if total > 0 {
      var rate, t := ApprovalRate(approved, total), total as real;
      assert rate * t == (approved as real) * 100.0;
      assert rate * t <= 100.0 * t;
    }
  }

  // ---------------------------------------------------------------- six months

  /** The per-month counts the three repositories answer for a month. */
  datatype MonthlyCounts = MonthlyCounts(users: YearMonth -> int, jobs: YearMonth -> int, resumes: YearMonth -> int)

  /** The series a type name selects; an unknown name counts 0. */
  function SeriesCount(kind: string, counts: MonthlyCounts, ym: YearMonth): (count: int)
    ensures kind != "users" && kind != "jobs" && kind != "resumes" ==> count == 0
  {
    match kind
    case "users" => counts.users(ym)
    case "jobs" => counts.jobs(ym)
    case "resumes" => counts.resumes(ym)
    case _ => 0
  }

  /** The six months ending with `now`, oldest first. */
  function Last6Months(now: YearMonth): (months: seq<YearMonth>)
    requires ValidMonth(now)
    ensures |months| == 6
  {
    [MinusMonths(now, 5), MinusMonths(now, 4), MinusMonths(now, 3),
     MinusMonths(now, 2), MinusMonths(now, 1), MinusMonths(now, 0)]
  }

  /** The window is six consecutive months, strictly ascending, ending with the
      current month. */
  lemma Last6MonthsWindow(now: YearMonth)
    requires ValidMonth(now)
    ensures var months := Last6Months(now);
      (forall k :: 0 <= k < 6 ==> ValidMonth(months[k]) && MonthIndex(months[k]) == MonthIndex(now) - 5 + k)
      && (forall j, k :: 0 <= j < k < 6 ==> MonthIndex(months[j]) < MonthIndex(months[k]))
      && months[5] == now
  {
    MinusNoMonths(now);
  }

  /** The entry of one month: its "yyyy-MM" label and the selected count. */
  function MonthEntry(kind: string, counts: MonthlyCounts, ym: YearMonth): MonthlyData
    requires ValidMonth(ym)
  {
    MonthlyData(MonthText(ym), SeriesCount(kind, counts, ym))
  }

  /** `getLast6MonthsData(type)`: one entry per month of the window, oldest
      first, each labelled "yyyy-MM" and counted by the selected repository. */
  method Last6MonthsData(kind: string, now: YearMonth, counts: MonthlyCounts) returns (result: seq<MonthlyData>)
    requires ValidMonth(now)
    ensures |result| == 6
    ensures forall k :: 0 <= k < 6 ==>
      result[k] == MonthlyData(MonthText(Last6Months(now)[k]), SeriesCount(kind, counts, Last6Months(now)[k]))
    ensures kind != "users" && kind != "jobs" && kind != "resumes" ==> forall k :: 0 <= k < 6 ==> result[k].count == 0
  {
    ghost var months := Last6Months(now);
    result := [];
    var i := 5;
    while i >= 0
      invariant -1 <= i <= 5
      invariant |result| == 5 - i
      invariant forall k :: 0 <= k < |result| ==> result[k] == MonthEntry(kind, counts, months[k])
    {
      var ym := MinusMonths(now, i);
      assert ym == months[5 - i];
      var count := SeriesCount(kind, counts, ym);
      result := result + [MonthlyData(MonthText(ym), count)];
      i := i - 1;
    }
  }

  // ---------------------------------------------------------------- top lists

  /** `stream().limit(n).map(f)`: the first n rows, each mapped, in order. */
  function LimitMap<A, B>(rows: seq<A>, n: nat, f: A -> B): (r: seq<B>)
    ensures |r| == if |rows| < n then |rows| else n
    ensures forall i :: 0 <= i < |r| ==> r[i] == f(rows[i])
  {
    if n == 0 || rows == [] then [] else [f(rows[0])] + LimitMap(rows[1..], n - 1, f)
  }

  const TopLimit := 10

  /** A ranked skill row: the skill's name and its number of jobs. */
  datatype SkillRow = SkillRow(name: string, jobCount: int)

  /** A ranked company row: the company's id, name and count. */
  datatype CompanyRow = CompanyRow(id: int, name: string, count: int)

  /** A ranked job row; the company's name may be null. */
  datatype JobRow = JobRow(id: int, name: string, companyName: Option<string>, resumeCount: int)

  function TopSkills(rows: seq<SkillRow>): seq<SkillCount> {
    LimitMap(rows, TopLimit, (row: SkillRow) => SkillCount(row.name, row.jobCount))
  }

  function TopCompaniesByJobs(rows: seq<CompanyRow>): seq<CompanyJobCount> {
    LimitMap(rows, TopLimit, (row: CompanyRow) => CompanyJobCount(row.id, row.name, row.count))
  }

  function TopCompaniesByResumes(rows: seq<CompanyRow>): seq<CompanyResumeCount> {
    LimitMap(rows, TopLimit, (row: CompanyRow) => CompanyResumeCount(row.id, row.name, row.count))
  }

  function TopJobsByResumes(rows: seq<JobRow>): seq<JobResumeCount> {
    LimitMap(rows, TopLimit, (row: JobRow) =>
      JobResumeCount(row.id, row.name, if row.companyName.Some? then row.companyName.value else "N/A", row.resumeCount))
  }

  /** The top skills are the first ten ranked rows (all of them when fewer), in
      the repository's order. */
  lemma TopSkillsOrder(rows: seq<SkillRow>)
    ensures var top := TopSkills(rows);
      |top| == (if |rows| < TopLimit then |rows| else TopLimit)
      && forall i :: 0 <= i < |top| ==> top[i] == SkillCount(rows[i].name, rows[i].jobCount)
  {
  }

  /** The top companies (by jobs and by resumes) keep the first ten rows in order. */
  lemma TopCompaniesOrder(rows: seq<CompanyRow>)
    ensures var byJobs, byResumes := TopCompaniesByJobs(rows), TopCompaniesByResumes(rows);
      |byJobs| == |byResumes| == (if |rows| < TopLimit then |rows| else TopLimit)
      && (forall i :: 0 <= i < |byJobs| ==> byJobs[i] == CompanyJobCount(rows[i].id, rows[i].name, rows[i].count))
      && (forall i :: 0 <= i < |byResumes| ==> byResumes[i] == CompanyResumeCount(rows[i].id, rows[i].name, rows[i].count))
  {
  }

  /** The top jobs keep the first ten rows in order; a job whose company name
      is null is listed under "N/A". */
  lemma TopJobsCompanyName(rows: seq<JobRow>)
    ensures var top := TopJobsByResumes(rows);
      |top| == (if |rows| < TopLimit then |rows| else TopLimit)
      && forall i :: 0 <= i < |top| ==>
        top[i].jobId == rows[i].id && top[i].jobName == rows[i].name && top[i].resumeCount == rows[i].resumeCount
        && (rows[i].companyName == None ==> top[i].companyName == "N/A")
        && (rows[i].companyName.Some? ==> top[i].companyName == rows[i].companyName.value)
  {
  }
}
