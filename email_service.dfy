/** The pure parts of the mail service: the table that turns a resume status into
    the text, colour, icon and message of the notification, the mapping of a job
    onto the record the job-alert template renders, the filling of the two
    placeholders of the password-reset mail, and the lookup of the subscriber a
    manual job alert is for. Sending mail, rendering templates and the
    repositories stay outside: the repositories are parameters. */
module EmailService {
  import Text
  import opened Remote

  // ---------------------------------------------------------------- resume status

  /** What the resume-status mail shows for a status. */
  datatype StatusInfo = StatusInfo(text: string, color: string, icon: string, message: string)

  const DefaultColor := "#666666"

  /** The statuses the table knows, in upper case. */
  predicate KnownStatus(key: string) {
    key == "PENDING" || key == "REVIEWING" || key == "APPROVED" || key == "REJECTED"
  }

  /** `mapStatusToInfo(status)`: the row selected by the upper-cased status; any
      other status is shown as it was given, in grey, with a generic message. */
  function MapStatusToInfo(status: string): (info: StatusInfo)
    ensures KnownStatus(Text.ToUpper(status)) <==> info.color != DefaultColor
    ensures !KnownStatus(Text.ToUpper(status)) ==>
      info == StatusInfo(status, DefaultColor, "📌", "Trạng thái hồ sơ của bạn đã được cập nhật.")
  {
    var key := Text.ToUpper(status);
    if KnownStatus(key) then StatusInfo(KnownText(key), KnownColour(key), KnownIcon(key), KnownMessage(key))
    else StatusInfo(status, DefaultColor, "📌", "Trạng thái hồ sơ của bạn đã được cập nhật.")
  }

  /** The text column of the table's four rows. */
  function KnownText(key: string): string
    requires KnownStatus(key)
  {
    if key == "PENDING" then "Đang xem xét"
    else if key == "REVIEWING" then "Đang đánh giá"
    else if key == "APPROVED" then "Được chấp nhận"
    else "Không phù hợp"
  }

  /** The icon column of the table's four rows. */
  function KnownIcon(key: string): string
    requires KnownStatus(key)
  {
    if key == "PENDING" then "⏳"
    else if key == "REVIEWING" then "👀"
    else if key == "APPROVED" then "✅"
    else "❌"
  }

  /** The message column of the table's four rows. */
  function KnownMessage(key: string): string
    requires KnownStatus(key)
  {
    if key == "PENDING" then "Hồ sơ của bạn đang được xem xét bởi nhà tuyển dụng."
    else if key == "REVIEWING" then "Nhà tuyển dụng đang đánh giá chi tiết hồ sơ của bạn."
    else if key == "APPROVED" then "Chúc mừng! Hồ sơ của bạn đã được chấp nhận. Nhà tuyển dụng sẽ liên hệ với bạn sớm."
    else "Rất tiếc, lần này hồ sơ của bạn chưa phù hợp với vị trí này. Đừng nản chí, hãy tiếp tục tìm kiếm cơ hội khác!"
  }

  /** Any casing of a known status is shown exactly as its upper-case form. */
  lemma MapStatusCaseInsensitive(status: string)
    requires KnownStatus(Text.ToUpper(status))
    ensures MapStatusToInfo(status) == MapStatusToInfo(Text.ToUpper(status))
  {
    Text.ToUpperIdempotent(status);
  }

  /** Two spellings of one status that differ only in case are shown alike when
      the status is known; an unknown status keeps its own spelling. */
  lemma MapStatusSameKey(a: string, b: string)
    requires Text.ToUpper(a) == Text.ToUpper(b)
    ensures KnownStatus(Text.ToUpper(a)) ==> MapStatusToInfo(a) == MapStatusToInfo(b)
    ensures !KnownStatus(Text.ToUpper(a)) ==> MapStatusToInfo(a).text == a && MapStatusToInfo(b).text == b
  {
    if KnownStatus(Text.ToUpper(a)) {
      MapStatusCaseInsensitive(a);
      MapStatusCaseInsensitive(b);
    }
  }

  /** The four known statuses have their four fixed colours. */
  lemma StatusColours()
    ensures MapStatusToInfo("PENDING").color == "#FFA500"
    ensures MapStatusToInfo("REVIEWING").color == "#2196F3"
    ensures MapStatusToInfo("APPROVED").color == "#4CAF50"
    ensures MapStatusToInfo("REJECTED").color == "#F44336"
  {
    KnownStatusColour("PENDING");
    KnownStatusColour("REVIEWING");
    KnownStatusColour("APPROVED");
    KnownStatusColour("REJECTED");
  }

  /** Distinct known statuses are shown in distinct colours, none of them the
      grey of an unknown status. */
  lemma StatusColoursDistinct(a: string, b: string)
    requires KnownStatus(a) && KnownStatus(b) && a != b
    ensures MapStatusToInfo(a).color != MapStatusToInfo(b).color
    ensures MapStatusToInfo(a).color != DefaultColor
  {
    KnownStatusColour(a);
    KnownStatusColour(b);
  }

  /** The colour column of the table's four rows. */
  function KnownColour(key: string): string
    requires KnownStatus(key)
  {
    if key == "PENDING" then "#FFA500"
    else if key == "REVIEWING" then "#2196F3"
    else if key == "APPROVED" then "#4CAF50"
    else "#F44336"
  }

  /** A known status gets its own colour. */
  lemma KnownStatusColour(key: string)
    requires KnownStatus(key)
    ensures MapStatusToInfo(key).color == KnownColour(key)
  {
    KnownStatusUpper(key);
  }

  /** The known statuses are their own upper case. */
  lemma KnownStatusUpper(key: string)
    requires KnownStatus(key)
    ensures Text.ToUpper(key) == key
  {
    Text.ToUpperOfUpper(key);
  }

  // ---------------------------------------------------------------- job alert records

  datatype Company = Company(id: int, name: string, address: string)

  datatype Skill = Skill(id: int, name: string)

  /** A job as the repository loads it; its company and its skill list may be null. */
  datatype Job = Job(id: int, name: string, salary: real, company: Option<Company>, skills: Option<seq<Skill>>)

  datatype CompanyDto = CompanyDto(id: int, name: string, address: string)

  datatype SkillDto = SkillDto(id: int, name: string)

  /** One job of the job-alert mail. */
  datatype JobMailDto = JobMailDto(
    id: int, name: string, salary: real, applyUrl: string,
    company: Option<CompanyDto>, skills: Option<seq<SkillDto>>)

  const JobsUrl := "http://localhost:3000/jobs/"

  /** The link to a job's page on the front end. */
  function ApplyUrl(id: int): (url: string)
    ensures |url| > |JobsUrl| && url[..|JobsUrl|] == JobsUrl
  {
    JobsUrl + Text.IntToString(id)
  }

  /** The link ends with the job's id in decimal: its digits read back as the id,
      after a minus sign when the id is negative. */
  lemma ApplyUrlReadsBack(id: int)
    ensures var tail := ApplyUrl(id)[|JobsUrl|..];
      (id >= 0 ==> Text.AllDigits(tail) && Text.ParseDigits(tail) == id)
      && (id < 0 ==> tail[0] == '-' && Text.AllDigits(tail[1..]) && Text.ParseDigits(tail[1..]) == -id)
  {
    var prefix, digits := JobsUrl, Text.IntToString(id);
    assert ApplyUrl(id) == prefix + digits;
    assert (prefix + digits)[|prefix|..] == digits;
    Text.IntToStringReadsBack(id);
  }

  /** The skills of a job, one record per skill, in order. */
  function SkillDtos(skills: seq<Skill>): (dtos: seq<SkillDto>)
    ensures |dtos| == |skills|
    ensures forall i :: 0 <= i < |skills| ==> dtos[i] == SkillDto(skills[i].id, skills[i].name)
  {
    if skills == [] then [] else [SkillDto(skills[0].id, skills[0].name)] + SkillDtos(skills[1..])
  }

  /** `mapToEmailJobInform(job)`. */
  function MapToEmailJobInform(job: Job): (dto: JobMailDto)
  {
    JobMailDto(
      job.id, job.name, job.salary, ApplyUrl(job.id),
      if job.company.Some? then Some(CompanyDto(job.company.value.id, job.company.value.name, job.company.value.address)) else None,
      if job.skills.Some? then Some(SkillDtos(job.skills.value)) else None)
  }

  /** The record keeps the job's id, name and salary and links to the job; it has
      a company exactly when the job has one, with the same id, name and address,
      and a skill list exactly when the job has one, with one entry per skill in
      the same order. */
  lemma JobMailDtoFaithful(job: Job)
    ensures var dto := MapToEmailJobInform(job);
      dto.id == job.id && dto.name == job.name && dto.salary == job.salary
      && dto.applyUrl == JobsUrl + Text.IntToString(job.id)
      && (dto.company.Some? <==> job.company.Some?)
      && (job.company.Some? ==> var c := job.company.value;
            dto.company.value == CompanyDto(c.id, c.name, c.address))
      && (dto.skills.Some? <==> job.skills.Some?)
      && (job.skills.Some? ==>
            (|dto.skills.value| == |job.skills.value|
             && forall i :: 0 <= i < |job.skills.value| ==>
                  dto.skills.value[i].id == job.skills.value[i].id && dto.skills.value[i].name == job.skills.value[i].name))
  {
  }

  // ---------------------------------------------------------------- String.formatted

  /** `String.formatted(args)` on templates whose only conversions are `%s` (the
      next argument, as is) and `%%` (a percent sign). Any other conversion, a
      lone '%' at the end, or a `%s` with no argument left fails (`None`);
      arguments left over are ignored. */
  function Format(template: string, args: seq<string>): (r: Option<string>)
    decreases |template|
  {
    if template == [] then Some("")
    else if template[0] != '%' then Prepend([template[0]], Format(template[1..], args))
    else if |template| == 1 then None
    else if template[1] == '%' then Prepend("%", Format(template[2..], args))
    else if template[1] == 's' then
      (if args == [] then None else Prepend(args[0], Format(template[2..], args[1..])))
    else None
  }

  /** A failure, or some text in front of a result. */
  function Prepend(s: string, r: Option<string>): (p: Option<string>)
    ensures p.Some? <==> r.Some?
    ensures r.Some? ==> p.value == s + r.value
  {
    if r.Some? then Some(s + r.value) else None
  }

  /** How literal text is written in a format string: every '%' doubled. */
  function Escape(s: string): (e: string)
    ensures |e| >= |s|
  {
    if s == [] then "" else EscapeChar(s[0]) + Escape(s[1..])
  }

  /** One literal character as a format string writes it. */
  function EscapeChar(c: char): string {
    if c == '%' then "%%" else [c]
  }

  /** Escaped text formats back to itself, whatever follows it and whatever the
      arguments are. */
  lemma {:induction false} FormatEscaped(s: string, rest: string, args: seq<string>)
    ensures Format(Escape(s) + rest, args) == Prepend(s, Format(rest, args))
  {
    if s == [] {
      assert Escape(s) + rest == rest;
      PrependNothing(Format(rest, args));
    } else {
      var t := Escape(s[1..]) + rest;
      assert Escape(s) + rest == EscapeChar(s[0]) + t;
      FormatEscapedChar(s[0], t, args);
      FormatEscaped(s[1..], rest, args);
      PrependTwice([s[0]], s[1..], Format(rest, args));
      assert [s[0]] + s[1..] == s;
    }
  }

  /** One escaped character formats back to itself. */
  lemma FormatEscapedChar(c: char, t: string, args: seq<string>)
    ensures Format(EscapeChar(c) + t, args) == Prepend([c], Format(t, args))
  {
    var u := EscapeChar(c) + t;
    assert u[|EscapeChar(c)|..] == t;
  }

  lemma PrependNothing(r: Option<string>)
    ensures Prepend("", r) == r
  {
    if r.Some? {
      assert "" + r.value == r.value;
    }
  }

  lemma PrependTwice(a: string, b: string, r: Option<string>)
    ensures Prepend(a, Prepend(b, r)) == Prepend(a + b, r)
  {
    if r.Some? {
      assert a + (b + r.value) == (a + b) + r.value;
    }
  }

  /** A `%s` takes the next argument verbatim: a '%' inside the argument is not
      read as a conversion. */
  lemma FormatPlaceholder(arg: string, rest: string, args: seq<string>)
    ensures Format("%s" + rest, [arg] + args) == Prepend(arg, Format(rest, args))
  {
    assert ("%s" + rest)[2..] == rest;
    assert ([arg] + args)[1..] == args;
  }

  /** A `%s` with no argument left is an error, whatever escaped text precedes it. */
  lemma FormatMissingArgument(head: string, rest: string)
    ensures Format(Escape(head) + ("%s" + rest), []) == None
  {
    FormatEscaped(head, "%s" + rest, []);
    assert ("%s" + rest)[0] == '%' && ("%s" + rest)[1] == 's';
  }

  // ---------------------------------------------------------------- the OTP mail

  /** The page of the password-reset mail around its two placeholders, as it is
      rendered: before the user's name, between the name and the code, and after
      the code. The styling is abbreviated to one rule with percentages. */
  const OtpHead := "<html><body><div style=\"width: 100%\"><p>Xin chào <strong>"
  const OtpMiddle := "</strong>,</p><div class=\"otp-code\">"
  const OtpTail := "</div></div></body></html>"

  /** The format string the mail is built from, with its percent signs doubled. */
  const OtpTemplate := Escape(OtpHead) + ("%s" + (Escape(OtpMiddle) + ("%s" + Escape(OtpTail))))

  /** `buildOtpEmailTemplate(otp, userName)`: the template formatted with the
      user's name first and the code second. */
  function BuildOtpEmailTemplate(otp: string, userName: string): Option<string>
  {
    Format(OtpTemplate, [userName, otp])
  }

  /** Escaped text, one `%s` and more escaped text fill in the one argument. */
  lemma FormatOnePlaceholder(middle: string, tail: string, arg: string)
    ensures Format(Escape(middle) + ("%s" + Escape(tail)), [arg]) == Some(middle + (arg + tail))
  {
    var t := Escape(tail);
    assert t + "" == t;
    FormatEscaped(tail, "", []);
    assert Format("", []) == Some("");
    assert tail + "" == tail;
    FormatPlaceholder(arg, t, []);
    assert [arg] + [] == [arg];
    FormatEscaped(middle, "%s" + t, [arg]);
  }

  /** A format string made of escaped text around two `%s` fills in its two
      arguments, in order, verbatim. */
  lemma FormatTwoPlaceholders(head: string, middle: string, tail: string, first: string, second: string)
    ensures Format(Escape(head) + ("%s" + (Escape(middle) + ("%s" + Escape(tail)))), [first, second])
      == Some(head + (first + (middle + (second + tail))))
  {
    var afterFirst := Escape(middle) + ("%s" + Escape(tail));
    FormatOnePlaceholder(middle, tail, second);
    FormatEscapedThenPlaceholder(head, first, afterFirst, [second]);
    assert [first] + [second] == [first, second];
  }

  /** Escaped text followed by a `%s`: the text, then the next argument. */
  lemma FormatEscapedThenPlaceholder(head: string, arg: string, rest: string, args: seq<string>)
    ensures Format(Escape(head) + ("%s" + rest), [arg] + args) == Prepend(head, Prepend(arg, Format(rest, args)))
  {
    FormatEscaped(head, "%s" + rest, [arg] + args);
    FormatPlaceholder(arg, rest, args);
  }

  /** The mail always builds: the greeting carries the user's name and the code
      box carries the code, whatever characters they hold, and the rest is the
      page's own text with its percent signs single again. */
  lemma OtpMailPlaceholders(otp: string, userName: string)
    ensures BuildOtpEmailTemplate(otp, userName) == Some(OtpHead + (userName + (OtpMiddle + (otp + OtpTail))))
  {
    FormatTwoPlaceholders(OtpHead, OtpMiddle, OtpTail, userName, otp);
  }

  // ---------------------------------------------------------------- job alerts

  /** A subscriber to job alerts and the skills they follow. */
  datatype Subscriber = Subscriber(email: string, skills: seq<Skill>)

  const AlertSubject := "🔥 Cơ hội việc làm mới dành cho bạn!"
  const SubscriberNotFound := "Không tìm thấy người dùng"

  /** The job-alert mail before rendering: recipient, subject and the jobs the
      template lists. */
  datatype JobAlert = JobAlert(to: string, subject: string, jobs: seq<JobMailDto>)

  /** The outcome of a manual alert: the mail that goes out, or the lookup failure. */
  datatype AlertOutcome = Sent(mail: JobAlert) | NotFound(message: string)

  /** The names of the skills a subscriber follows, in order. */
  function SkillNames(skills: seq<Skill>): (names: seq<string>)
    ensures |names| == |skills|
    ensures forall i :: 0 <= i < |skills| ==> names[i] == skills[i].name
  {
    if skills == [] then [] else [skills[0].name] + SkillNames(skills[1..])
  }

  /** Every job, mapped to its mail record, in order. */
  function JobMailDtos(jobs: seq<Job>): (dtos: seq<JobMailDto>)
    ensures |dtos| == |jobs|
    ensures forall i :: 0 <= i < |jobs| ==> dtos[i] == MapToEmailJobInform(jobs[i])
  {
    if jobs == [] then [] else [MapToEmailJobInform(jobs[0])] + JobMailDtos(jobs[1..])
  }

  /** `sendJobNotificationForSubscriber(subscriber)` up to the mail server: the
      newest jobs asking for the subscriber's skills (`latestJobs` is the
      repository's query), mapped for the template and addressed to the
      subscriber. */
  function JobAlertFor(subscriber: Subscriber, latestJobs: seq<string> -> seq<Job>): JobAlert
  {
    JobAlert(subscriber.email, AlertSubject, JobMailDtos(latestJobs(SkillNames(subscriber.skills))))
  }

  /** `sendJobNotificationManually(email)`: the alert for the subscriber with that
      email (`findByEmail` is the repository lookup), or the not-found error. */
  function SendJobNotificationManually(
    email: string, findByEmail: string -> Option<Subscriber>, latestJobs: seq<string> -> seq<Job>): (outcome: AlertOutcome)
    ensures outcome.NotFound? <==> findByEmail(email).None?
  {
    match findByEmail(email)
    case None => NotFound(SubscriberNotFound)
    case Some(subscriber) => Sent(JobAlertFor(subscriber, latestJobs))
  }

  /** An unknown email sends nothing and reports the subscriber missing; a known
      one sends one mail to the subscriber's address listing, in order, the jobs
      the repository returns for the subscriber's skill names. */
  lemma ManualAlertOutcome(email: string, findByEmail: string -> Option<Subscriber>, latestJobs: seq<string> -> seq<Job>)
    ensures var outcome := SendJobNotificationManually(email, findByEmail, latestJobs);
      (findByEmail(email).None? ==> outcome == NotFound(SubscriberNotFound))
      && (findByEmail(email).Some? ==>
            var subscriber := findByEmail(email).value;
            var found := latestJobs(SkillNames(subscriber.skills));
            outcome.Sent? && outcome.mail.to == subscriber.email && outcome.mail.subject == AlertSubject
            && |outcome.mail.jobs| == |found|
            && forall i :: 0 <= i < |found| ==> outcome.mail.jobs[i] == MapToEmailJobInform(found[i]))
  {
  }
}
