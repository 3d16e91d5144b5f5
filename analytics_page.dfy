/** The admin analytics page: it loads the dashboard statistics once, and turns
    them into labels, a line chart, monthly bar charts, two pie charts and three
    top-ten bar charts. The floating-point renderings (`toFixed`, the Vietnamese
    number format) stay symbolic; everything else is computed. */
module AnalyticsPage {
  import opened Remote
  import Text
  import opened DashboardDto

  /** A JSON number that may be `null` or absent from the response. */
  datatype JsNumber = Undefined | Null | Num(value: real)

  /** What a label shows: a literal text, a number in the locale's grouping, or
      `sign + value.toFixed(1) + "%"`. */
  datatype Shown = Literal(text: string) | Grouped(value: real) | Percent(sign: string, value: real)

  // ---------------------------------------------------------------- statistics

  datatype OverviewStats = OverviewStats(
    totalUsers: JsNumber, totalJobs: JsNumber, totalResumes: JsNumber,
    totalCompanies: JsNumber, totalSubscribers: JsNumber,
    userGrowthRate: JsNumber, jobGrowthRate: JsNumber, resumeGrowthRate: JsNumber,
    companyGrowthRate: JsNumber, subscriberGrowthRate: JsNumber)

  datatype UserStats = UserStats(adminCount: int, recruiterCount: int, userCount: int)

  datatype JobStats = JobStats(
    internJobs: int, fresherJobs: int, middleJobs: int, seniorJobs: int, leaderJobs: int,
    topSkills: seq<SkillCount>)

  datatype ResumeStats = ResumeStats(approvalRate: JsNumber)

  datatype ChartData = ChartData(usersByMonth: seq<MonthlyData>, jobsByMonth: seq<MonthlyData>, resumesByMonth: seq<MonthlyData>)

  datatype TopPerformers = TopPerformers(topCompaniesByResumes: seq<CompanyResumeCount>, topJobsByResumes: seq<JobResumeCount>)

  datatype DashboardStats = DashboardStats(
    overviewStats: OverviewStats, userStats: UserStats, jobStats: JobStats,
    resumeStats: ResumeStats, chartData: ChartData, topPerformers: TopPerformers)

  const StatsFallback := "Không thể tải thống kê"

  // ---------------------------------------------------------------- labels

  /** `formatNumber`: "0" for a null or missing number. */
  function FormatNumber(n: JsNumber): (shown: Shown)
    ensures n == Null || n == Undefined ==> shown == Literal("0")
    ensures n.Num? ==> shown == Grouped(n.value)
  {
    match n
    case Num(v) => Grouped(v)
    case _ => Literal("0")
  }

  /** `formatPercentage`: "0%" for a null or missing number; otherwise one
      decimal with an explicit "+" on non-negative values. */
  function FormatPercentage(n: JsNumber): (shown: Shown)
    ensures n == Null || n == Undefined ==> shown == Literal("0%")
    ensures n.Num? ==> shown.Percent? && shown.value == n.value && (shown.sign == "+" <==> n.value >= 0.0)
    ensures n.Num? && n.value < 0.0 ==> shown.sign == ""
  {
    match n
    case Num(v) => Percent(if v >= 0.0 then "+" else "", v)
    case _ => Literal("0%")
  }

  /** Whether a growth line is rendered (`rate !== null`): a missing rate is
      rendered too, as "0%". */
  predicate GrowthShown(rate: JsNumber) {
    rate != Null
  }

  /** A growth rate absent from the response still shows a "0%" line, while an
      explicit null hides it. */
  lemma MissingGrowthShowsZero()
    ensures GrowthShown(Undefined) && FormatPercentage(Undefined) == Literal("0%")
    ensures !GrowthShown(Null)
  {
  }

  /** The approval rate label: "N/A" for every falsy value, including 0. */
  function ApprovalRateText(rate: JsNumber): (shown: Shown)
    ensures shown == Literal("N/A") <==> rate == Undefined || rate == Null || rate == Num(0.0)
    ensures shown != Literal("N/A") ==> shown == Percent("", rate.value)
  {
    if rate == Undefined || rate == Null || rate == Num(0.0) then Literal("N/A")
    else Percent("", rate.value)
  }

  /** `formatMonth`: "" for an empty string; otherwise the pieces around the
      first two dashes read as year and month, rendered "T<month>/<year>". */
  function FormatMonth(monthStr: string): (shown: string)
    ensures monthStr == "" <==> shown == ""
    ensures shown != "" ==> shown[0] == 'T'
  {
    if monthStr == "" then ""
    else
      var parts := Text.Split(monthStr, '-');
      var month := if |parts| > 1 then Text.ParseInt(parts[1]) else Text.NaN;
      "T" + Text.JsIntText(month) + "/" + parts[0]
  }

  /** The server's "yyyy-MM" labels come out as "T<month>/<yyyy>": the month
      loses its leading zero and the year keeps its four digits. */
  lemma FormatMonthOfMonthText(ym: YearMonth)
    requires ValidMonth(ym) && 1 <= ym.year <= 9999
    ensures FormatMonth(MonthText(ym)) == "T" + Text.NatToString(ym.month) + "/" + YearText(ym.year)
  {
    MonthTextPieces(ym);
    FormatMonthOfPieces(MonthText(ym), YearText(ym.year), Text.Pad2(ym.month), ym.month);
  }

  /** The server's label splits at its dash into the year and the padded month. */
  lemma MonthTextPieces(ym: YearMonth)
    requires ValidMonth(ym) && 1 <= ym.year <= 9999
    ensures Text.Split(MonthText(ym), '-') == [YearText(ym.year), Text.Pad2(ym.month)]
    ensures Text.ParseInt(Text.Pad2(ym.month)) == Text.Int(ym.month)
  {
    var y, m := YearText(ym.year), Text.Pad2(ym.month);
    YearDigits(ym.year);
    Text.Pad2Digits(ym.month);
    assert MonthText(ym) == y + ['-'] + m;
    DashedDigits(y, m);
  }

  /** Two digit strings joined by a dash split back into the two. */
  lemma DashedDigits(y: string, m: string)
    requires Text.AllDigits(y) && Text.AllDigits(m) && m != []
    ensures Text.Split(y + ['-'] + m, '-') == [y, m]
    ensures Text.ParseInt(m) == Text.Int(Text.ParseDigits(m))
  {
    NoDashInDigits(y);
    NoDashInDigits(m);
    Text.SplitAtFirst(y, '-', m);
    Text.SplitNoSeparator(m, '-');
    Text.ParseIntOfDigits(m);
  }

  lemma NoDashInDigits(s: string)
    requires Text.AllDigits(s)
    ensures '-' !in s
  {
    forall i | 0 <= i < |s| ensures s[i] != '-' {
      assert Text.IsDigit(s[i]);
    }
  }

  lemma FormatMonthOfPieces(monthStr: string, year: string, month: string, value: nat)
    requires monthStr != "" && Text.Split(monthStr, '-') == [year, month]
    requires Text.ParseInt(month) == Text.Int(value)
    ensures FormatMonth(monthStr) == "T" + Text.NatToString(value) + "/" + year
  {
  }

  // ---------------------------------------------------------------- line chart

  datatype LinePoint = LinePoint(month: string, users: int, jobs: int, resumes: int)

  /** `series[index]?.count || 0`: a missing entry counts 0. */
  function CountAt(series: seq<MonthlyData>, index: nat): (count: int)
    ensures index >= |series| ==> count == 0
  {
    if index < |series| then series[index].count else 0
  }

  /** The point at position `index` of the user series. */
  function PointAt(users: seq<MonthlyData>, jobs: seq<MonthlyData>, resumes: seq<MonthlyData>, index: nat): LinePoint
    requires index < |users|
  {
    LinePoint(FormatMonth(users[index].month), users[index].count, CountAt(jobs, index), CountAt(resumes, index))
  }

  /** The line chart: one point per month of the user series, carrying the
      jobs and resumes of the same position, 0 where those series are shorter. */
  function LineChart(chart: ChartData): (points: seq<LinePoint>)
    ensures |points| == |chart.usersByMonth|
    ensures forall i :: 0 <= i < |points| ==>
      points[i].month == FormatMonth(chart.usersByMonth[i].month)
      && points[i].users == chart.usersByMonth[i].count
      && points[i].jobs == (if i < |chart.jobsByMonth| then chart.jobsByMonth[i].count else 0)
      && points[i].resumes == (if i < |chart.resumesByMonth| then chart.resumesByMonth[i].count else 0)
  {
    var users := chart.usersByMonth;
    seq(|users|, i requires 0 <= i < |users| => PointAt(users, chart.jobsByMonth, chart.resumesByMonth, i))
  }

  // ---------------------------------------------------------------- bar charts

  datatype Bar = Bar(name: string, value: int)

  /** A monthly bar chart: one bar per entry, labelled by `formatMonth`. */
  function MonthBars(series: seq<MonthlyData>): (bars: seq<Bar>)
    ensures |bars| == |series|
    ensures forall i :: 0 <= i < |bars| ==> bars[i] == Bar(FormatMonth(series[i].month), series[i].count)
  {
    if series == [] then [] else [Bar(FormatMonth(series[0].month), series[0].count)] + MonthBars(series[1..])
  }

  const TopShown := 10

  /** `slice(0, 10).map(...)` with names cut to `width` characters plus "...". */
  function TopBars<T>(items: seq<T>, name: T -> string, value: T -> int, width: nat): (bars: seq<Bar>)
    ensures |bars| == if |items| < TopShown then |items| else TopShown
    ensures forall i :: 0 <= i < |bars| ==> bars[i] == Bar(Text.Truncate(name(items[i]), width), value(items[i]))
  {
    if items == [] then []
    else
      var rest := Text.Take(items[1..], TopShown - 1);
      [Bar(Text.Truncate(name(items[0]), width), value(items[0]))] + TopBars(rest, name, value, width)
  }

  /** Companies by resumes: the first ten (all when fewer), names cut after 15 characters. */
  function CompanyBars(items: seq<CompanyResumeCount>): (bars: seq<Bar>)
    ensures |bars| == if |items| < TopShown then |items| else TopShown
    ensures forall i :: 0 <= i < |bars| ==>
      bars[i] == Bar(Text.Truncate(items[i].companyName, 15), items[i].resumeCount)
  {
    TopBars(items, (c: CompanyResumeCount) => c.companyName, (c: CompanyResumeCount) => c.resumeCount, 15)
  }

  /** Jobs by resumes: the first ten (all when fewer), names cut after 20 characters. */
  function JobBars(items: seq<JobResumeCount>): (bars: seq<Bar>)
    ensures |bars| == if |items| < TopShown then |items| else TopShown
    ensures forall i :: 0 <= i < |bars| ==>
      bars[i] == Bar(Text.Truncate(items[i].jobName, 20), items[i].resumeCount)
  {
    TopBars(items, (j: JobResumeCount) => j.jobName, (j: JobResumeCount) => j.resumeCount, 20)
  }

  /** Skills: the first ten (all when fewer), names cut after 15 characters. */
  function SkillBars(items: seq<SkillCount>): (bars: seq<Bar>)
    ensures |bars| == if |items| < TopShown then |items| else TopShown
    ensures forall i :: 0 <= i < |bars| ==>
      bars[i] == Bar(Text.Truncate(items[i].skillName, 15), items[i].count)
  {
    TopBars(items, (s: SkillCount) => s.skillName, (s: SkillCount) => s.count, 15)
  }

  // ---------------------------------------------------------------- pie charts

  datatype Slice = Slice(name: string, value: int)

  /** `filter((item) => item.value > 0)`. */
  function PositiveSlices(candidates: seq<Slice>): (slices: seq<Slice>)
    ensures |slices| <= |candidates|
    ensures forall s :: s in slices <==> s in candidates && s.value > 0
  {
    if candidates == [] then []
    else if candidates[0].value > 0 then [candidates[0]] + PositiveSlices(candidates[1..])
    else PositiveSlices(candidates[1..])
  }

  /** The filter keeps the candidates' order: filtering a concatenation is
      concatenating the filtered parts. */
  lemma {:induction false} PositiveSlicesConcat(a: seq<Slice>, b: seq<Slice>)
    ensures PositiveSlices(a + b) == PositiveSlices(a) + PositiveSlices(b)
  {
    if a != [] {
      assert (a + b)[0] == a[0];
      assert (a + b)[1..] == a[1..] + b;
      PositiveSlicesConcat(a[1..], b);
    } else {
      assert a + b == b;
    }
  }

  /** The role pie: Admin, Recruiter, User, in that order, without empty roles. */
  function RoleSlices(users: UserStats): seq<Slice>
  {
    PositiveSlices([Slice("Admin", users.adminCount), Slice("Recruiter", users.recruiterCount), Slice("User", users.userCount)])
  }

  /** The level pie: Intern, Fresher, Middle, Senior, Leader, in that order,
      without empty levels. */
  function LevelSlices(jobs: JobStats): seq<Slice>
  {
    PositiveSlices([Slice("Intern", jobs.internJobs), Slice("Fresher", jobs.fresherJobs),
      Slice("Middle", jobs.middleJobs), Slice("Senior", jobs.seniorJobs), Slice("Leader", jobs.leaderJobs)])
  }

  /** The slice of a single candidate: itself when positive, nothing otherwise. */
  function Kept(s: Slice): seq<Slice> {
    if s.value > 0 then [s] else []
  }

  lemma PositiveSlicesCons(candidates: seq<Slice>)
    requires candidates != []
    ensures PositiveSlices(candidates) == Kept(candidates[0]) + PositiveSlices(candidates[1..])
  {
  }

  /** The role pie lists each role with a positive count, in the fixed order. */
  lemma RoleSlicesOrder(users: UserStats)
    ensures RoleSlices(users) ==
      Kept(Slice("Admin", users.adminCount)) + Kept(Slice("Recruiter", users.recruiterCount)) + Kept(Slice("User", users.userCount))
  {
    var a, r, u := Slice("Admin", users.adminCount), Slice("Recruiter", users.recruiterCount), Slice("User", users.userCount);
    var all := [a, r, u];
    PositiveSlicesCons(all);
    assert all[1..] == [r, u];
    PositiveSlicesCons([r, u]);
    assert [r, u][1..] == [u];
    PositiveSlicesCons([u]);
  }

  /** The level pie lists each level with a positive count, in the fixed order. */
  lemma LevelSlicesOrder(jobs: JobStats)
    ensures LevelSlices(jobs) ==
      Kept(Slice("Intern", jobs.internJobs)) + Kept(Slice("Fresher", jobs.fresherJobs))
      + Kept(Slice("Middle", jobs.middleJobs)) + Kept(Slice("Senior", jobs.seniorJobs))
      + Kept(Slice("Leader", jobs.leaderJobs))
  {
    var i, f, m := Slice("Intern", jobs.internJobs), Slice("Fresher", jobs.fresherJobs), Slice("Middle", jobs.middleJobs);
    var s, l := Slice("Senior", jobs.seniorJobs), Slice("Leader", jobs.leaderJobs);
    var ki, kf, km, ks, kl := Kept(i), Kept(f), Kept(m), Kept(s), Kept(l);
    PositiveSlicesCons([l]);
    assert [l][1..] == [];
    assert PositiveSlices([l]) == kl;
    PositiveSlicesCons([s, l]);
    assert [s, l][1..] == [l];
    assert PositiveSlices([s, l]) == ks + kl;
    PositiveSlicesCons([m, s, l]);
    assert [m, s, l][1..] == [s, l];
    assert PositiveSlices([m, s, l]) == km + (ks + kl);
    PositiveSlicesCons([f, m, s, l]);
    assert [f, m, s, l][1..] == [m, s, l];
    assert PositiveSlices([f, m, s, l]) == kf + (km + (ks + kl));
    PositiveSlicesCons([i, f, m, s, l]);
    assert [i, f, m, s, l][1..] == [f, m, s, l];
    assert LevelSlices(jobs) == ki + (kf + (km + (ks + kl)));
    Associative(km, ks, kl);
    Associative(kf, km + ks, kl);
    Associative(ki, kf + (km + ks), kl);
    Associative(kf, km, ks);
    Associative(ki, kf + km, ks);
    Associative(ki, kf, km);
  }

  /** Regrouping a concatenation, kept apart so that the order proofs above
      stay within the solver's budget. */
  lemma Associative(a: seq<Slice>, b: seq<Slice>, c: seq<Slice>)
    ensures a + (b + c) == a + b + c
  {
  }

  const RolePalette: seq<string> := ["#3b82f6", "#10b981", "#f59e0b"]
  const LevelPalette: seq<string> := ["#3b82f6", "#10b981", "#f59e0b", "#8b5cf6", "#ec4899"]

  /** The cell colours: the i-th slice takes `palette[i % |palette|]`, so every
      colour is one of the palette's. */
  function CellColours(slices: seq<Slice>, palette: seq<string>): (colours: seq<string>)
    requires |palette| > 0
    ensures |colours| == |slices|
    ensures forall i :: 0 <= i < |colours| ==> colours[i] == palette[i % |palette|] && colours[i] in palette
  {
    seq(|slices|, i requires 0 <= i < |slices| => palette[i % |palette|])
  }

  /** No two slices of either pie share a colour: each pie has at most as many
      slices as its palette has distinct colours. */
  lemma PieColoursDistinct(users: UserStats, jobs: JobStats)
    ensures var c := CellColours(RoleSlices(users), RolePalette);
      forall i, j :: 0 <= i < j < |c| ==> c[i] != c[j]
    ensures var c := CellColours(LevelSlices(jobs), LevelPalette);
      forall i, j :: 0 <= i < j < |c| ==> c[i] != c[j]
  {
    RolePaletteDistinct();
    PaletteColoursDistinct(RoleSlices(users), RolePalette);
    LevelPaletteDistinct();
    PaletteColoursDistinct(LevelSlices(jobs), LevelPalette);
  }

  /** The colours of a palette differ in their first hex digit. */
  predicate DistinctLeads(palette: seq<string>) {
    (forall k :: 0 <= k < |palette| ==> |palette[k]| > 1)
    && forall j, k :: 0 <= j < k < |palette| ==> palette[j][1] != palette[k][1]
  }

  lemma RolePaletteDistinct()
    ensures DistinctLeads(RolePalette)
  {
    var leads := [RolePalette[0][1], RolePalette[1][1], RolePalette[2][1]];
    assert leads == ['3', '1', 'f'];
  }

  lemma LevelPaletteDistinct()
    ensures DistinctLeads(LevelPalette)
  {
    var leads := [LevelPalette[0][1], LevelPalette[1][1], LevelPalette[2][1], LevelPalette[3][1], LevelPalette[4][1]];
    assert leads == ['3', '1', 'f', '8', 'e'];
  }

  /** An index below the modulus is its own remainder, kept apart so that the
      colour proof below stays within the solver's budget. */
  lemma ModBelow(i: nat, n: nat)
    requires i < n
    ensures i % n == i
  {
  }

  /** Colours are distinct when the slices fit in a palette whose colours differ
      in their first hex digit. */
  lemma PaletteColoursDistinct(slices: seq<Slice>, palette: seq<string>)
    requires |palette| > 0 && |slices| <= |palette| && DistinctLeads(palette)
    ensures var c := CellColours(slices, palette);
      forall i, j :: 0 <= i < j < |c| ==> c[i] != c[j]
  {
    var c := CellColours(slices, palette);
    forall i, j | 0 <= i < j < |c| ensures c[i] != c[j] {
      ModBelow(i, |palette|);
      ModBelow(j, |palette|);
      assert c[i] == palette[i] && c[j] == palette[j];
      assert c[i][1] != c[j][1];
    }
  }

  // ---------------------------------------------------------------- loading

  class Page {
    var stats: Option<DashboardStats>
    var isLoading: bool
    var toasts: seq<Toast>

    /** The page mounts with no statistics and the spinner on. */
    constructor ()
      ensures stats == None && isLoading && toasts == []
    {
      stats := None;
      isLoading := true;
      toasts := [];
    }

    /** `loadDashboardStats`: success replaces the statistics, failure keeps the
        previous ones and raises a toast; the spinner is off afterwards either way. */
    method LoadDashboardStats(r: Remote<DashboardStats>)
      modifies this`stats, this`isLoading, this`toasts
      ensures !isLoading
      ensures r.Success? ==> stats == Some(r.payload) && toasts == old(toasts)
      ensures r.Failure? ==> stats == old(stats) && toasts == old(toasts) + [FailureToast(r, StatsFallback)]
    {
      isLoading := true;
      match r {
        case Success(data) =>
          stats := Some(data);
        case Failure(_) =>
          toasts := toasts + [FailureToast(r, StatsFallback)];
      }
      isLoading := false;
    }
  }
}
