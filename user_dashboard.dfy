/** The signed-in user's list of applications: status cards, the status and
  * date filters, the empty states and the three most recent updates. */
module UserDashboard {
  import opened Basics
  import opened Strings

  datatype ApplicationStatus = Draft | UnderReview | Approved | Rejected

  /** The status as stored on an application and offered by the status filter. */
  function StatusCode(st: ApplicationStatus): string {
    match st
    case Draft => "черновик"
    case UnderReview => "на_проверке"
    case Approved => "одобрена"
    case Rejected => "отклонена"
  }

  /** The status as shown on a badge. */
  function StatusText(st: ApplicationStatus): string {
    match st
    case Draft => "Черновик"
    case UnderReview => "На проверке"
    case Approved => "Одобрена"
    case Rejected => "Отклонена"
  }

  /** Distinct statuses have distinct codes and badges, and no code is the
    * filter's "all" value. */
  lemma StatusNamesDistinct(a: ApplicationStatus, b: ApplicationStatus)
    ensures StatusCode(a) == StatusCode(b) <==> a == b
    ensures StatusText(a) == StatusText(b) <==> a == b
    ensures StatusCode(a) != "all"
  {
  }

  datatype Application = Application(
    id: string,
    projectTitle: string,
    grantTitle: string,
    submissionDate: string,
    status: ApplicationStatus,
    requestedAmount: string,
    feedback: Option<string>)

  /** The two filter controls; a status filter of "all" and an empty date
    * filter let everything through. */
  datatype Filters = Filters(statusFilter: string, dateFilter: string)

  /** What the "reset filters" button sets, which is also the initial state. */
  function ResetFilters(): (f: Filters)
    ensures f.statusFilter == "all" && f.dateFilter == ""
  {
    Filters("all", "")
  }

  // ------------------------------------------------------- the month filter

  /** The month's name in the genitive, as submission dates spell them ("15 января 2025"). */
  function MonthName(month: nat): string
    requires 1 <= month <= 12
  {
    match month
    case 1 => "января"
    case 2 => "февраля"
    case 3 => "марта"
    case 4 => "апреля"
    case 5 => "мая"
    case 6 => "июня"
    case 7 => "июля"
    case 8 => "августа"
    case 9 => "сентября"
    case 10 => "октября"
    case 11 => "ноября"
    case _ => "декабря"
  }

  /** How a submission date is written: day, month name, year. */
  function DisplayDate(day: nat, month: nat, year: nat): string
    requires 1 <= month <= 12
  {
    NatToString(day) + " " + MonthName(month) + " " + NatToString(year)
  }

  function TwoDigits(n: nat): (s: string)
    requires n < 100
    ensures |s| == 2
  {
    [Digit(n / 10), Digit(n % 10)]
  }

  /** The value of the month input (`type="month"`): "YYYY-MM". */
  function MonthValue(year: nat, month: nat): string
    requires 1000 <= year <= 9999 && 1 <= month <= 12
  {
    NatToString(year) + "-" + TwoDigits(month)
  }

  /** The month a two-digit code "01".."12" denotes. */
  function MonthOfCode(code: string): (m: Option<nat>)
    ensures m.Some? ==> 1 <= m.value <= 12
  {
    if |code| == 2 && '0' <= code[0] <= '9' && '0' <= code[1] <= '9' then
      var m := 10 * DigitValue(code[0]) + DigitValue(code[1]);
      if 1 <= m <= 12 then Some(m) else None
    else None
  }

  predicate EndsWith(s: string, suffix: string) {
    |suffix| <= |s| && s[|s| - |suffix|..] == suffix
  }

  /** Whether a submission date falls in the month a month-input value names:
    * the date ends with that month's name and the year. */
  predicate DateInMonth(date: string, monthValue: string) {
    && |monthValue| == 7 && monthValue[4] == '-'
    && MonthOfCode(monthValue[5..]).Some?
    && EndsWith(date, " " + MonthName(MonthOfCode(monthValue[5..]).value) + " " + monthValue[..4])
  }

  lemma YearHasFourDigits(year: nat)
    requires 1000 <= year <= 9999
    ensures |NatToString(year)| == 4
  {
    assert |NatToString(year / 1000)| == 1;
    assert |NatToString(year / 100)| == 2;
    assert |NatToString(year / 10)| == 3;
  }

  lemma MonthOfCodeTwoDigits(month: nat)
    requires 1 <= month <= 12
    ensures MonthOfCode(TwoDigits(month)) == Some(month)
  {
  }

  lemma MonthNamesDistinct(i: nat, j: nat)
    requires 1 <= i <= 12 && 1 <= j <= 12 && MonthName(i) == MonthName(j)
    ensures i == j
  {
  }

  lemma MonthNameHasNoSpace(i: nat)
    requires 1 <= i <= 12
    ensures ' ' !in MonthName(i)
  {
  }

  lemma EndsWithAt(s: string, suffix: string, k: int)
    requires EndsWith(s, suffix) && 0 <= k < |suffix|
    ensures s[|s| - |suffix| + k] == suffix[k]
  {
  }

  /** If `s` ends both with " " + a and with " " + b, and neither name holds a
    * space, the two names are the same: the space before the shorter name
    * would otherwise fall inside the longer one. */
  lemma SpaceFreeSuffix(s: string, a: string, b: string)
    requires ' ' !in a && ' ' !in b
    requires EndsWith(s, " " + a) && EndsWith(s, " " + b)
    ensures a == b
  {
    if |a| < |b| {
      EndsWithAt(s, " " + a, 0);
      EndsWithAt(s, " " + b, |b| - |a|);
      assert false;
    } else if |b| < |a| {
      EndsWithAt(s, " " + b, 0);
      EndsWithAt(s, " " + a, |a| - |b|);
      assert false;
    } else {
      assert (" " + a)[1..] == a && (" " + b)[1..] == b;
    }
  }

  /** The corrected test on a month-input value is a suffix test on the date. */
  lemma DateInMonthAsSuffix(date: string, year: nat, month: nat)
    requires 1000 <= year <= 9999 && 1 <= month <= 12
    ensures DateInMonth(date, MonthValue(year, month))
            <==> EndsWith(date, " " + MonthName(month) + " " + NatToString(year))
  {
    var value := MonthValue(year, month);
    YearHasFourDigits(year);
    MonthOfCodeTwoDigits(month);
    assert value[..4] == NatToString(year);
    assert value[5..] == TwoDigits(month);
  }

  /** When `front + " " + y` ends with `" " + name + " " + y2` and both years
    * are four characters, the years agree and `front` ends with the name. */
  lemma SplitYearSuffix(front: string, y: string, name: string, y2: string)
    requires |y| == 4 && |y2| == 4
    requires EndsWith(front + " " + y, " " + name + " " + y2)
    ensures y == y2 && EndsWith(front, " " + name)
  {
    var date := front + " " + y;
    var suffix := " " + name + " " + y2;
    assert y == date[|date| - 4..] && y2 == suffix[|suffix| - 4..];
    assert date[|date| - |suffix|..|date| - 5] == suffix[..|suffix| - 5];
    assert front == date[..|date| - 5];
    assert suffix[..|suffix| - 5] == " " + name;
  }

  /** A date `front + " " + y` whose front ends with a month name ends with
    * `" " + chosenName + " " + chosenYear` exactly when both agree. */
  lemma SuffixIffSameMonthYear(front: string, name: string, y: string, chosenName: string, chosenYear: string)
    requires |y| == 4 && |chosenYear| == 4
    requires ' ' !in name && ' ' !in chosenName
    requires EndsWith(front, " " + name)
    ensures EndsWith(front + " " + y, " " + chosenName + " " + chosenYear)
            <==> name == chosenName && y == chosenYear
  {
    if EndsWith(front + " " + y, " " + chosenName + " " + chosenYear) {
      SplitYearSuffix(front, y, chosenName, chosenYear);
      SpaceFreeSuffix(front, name, chosenName);
    }
    if name == chosenName && y == chosenYear {
      var date := front + " " + y;
      var suffix := " " + name + " " + y;
      assert front[|front| - |name| - 1..] == " " + name;
      assert date[|date| - |suffix|..] == suffix;
    }
  }

  lemma YearTextInjective(year: nat, otherYear: nat)
    requires NatToString(year) == NatToString(otherYear)
    ensures year == otherYear
  {
    NatToStringRoundTrip(year);
    NatToStringRoundTrip(otherYear);
  }

  /** A written date is its front part (day and month name), a space and the year. */
  lemma DisplayDateShape(day: nat, month: nat, year: nat)
    requires 1 <= month <= 12
    ensures var front := NatToString(day) + " " + MonthName(month);
      && DisplayDate(day, month, year) == front + " " + NatToString(year)
      && EndsWith(front, " " + MonthName(month))
  {
    var name := MonthName(month);
    var front := NatToString(day) + " " + name;
    assert front[|front| - |name| - 1..] == " " + name;
  }

  /** With the corrected test, a date written as day, month name and year
    * passes the month filter exactly when it is in the chosen month of the
    * chosen year. */
  lemma MonthFilterSelectsMonth(day: nat, month: nat, year: nat, chosenMonth: nat, chosenYear: nat)
    requires 1 <= month <= 12 && 1000 <= year <= 9999
    requires 1 <= chosenMonth <= 12 && 1000 <= chosenYear <= 9999
    ensures DateInMonth(DisplayDate(day, month, year), MonthValue(chosenYear, chosenMonth))
            <==> month == chosenMonth && year == chosenYear
  {
    var name := MonthName(month);
    var chosenName := MonthName(chosenMonth);
    var front := NatToString(day) + " " + name;
    DisplayDateShape(day, month, year);
    DateInMonthAsSuffix(DisplayDate(day, month, year), chosenYear, chosenMonth);
    YearHasFourDigits(year);
    YearHasFourDigits(chosenYear);
    MonthNameHasNoSpace(month);
    MonthNameHasNoSpace(chosenMonth);
    SuffixIffSameMonthYear(front, name, NatToString(year), chosenName, NatToString(chosenYear));
    if name == chosenName {
      MonthNamesDistinct(month, chosenMonth);
    }
    if NatToString(year) == NatToString(chosenYear) {
      YearTextInjective(year, chosenYear);
    }
  }

  lemma DisplayDateHasNoHyphen(day: nat, month: nat, year: nat)
    requires 1 <= month <= 12
    ensures '-' !in DisplayDate(day, month, year)
  {
    NatToStringDigits(day);
    NatToStringDigits(year);
    assert '-' !in MonthName(month);
  }

  lemma MonthValueHasHyphen(year: nat, month: nat)
    requires 1000 <= year <= 9999 && 1 <= month <= 12
    ensures '-' in MonthValue(year, month)
  {
    assert MonthValue(year, month)[|NatToString(year)|] == '-';
  }

  /** As written, a date filter holding a '-' (as every "YYYY-MM" value of
    * the month input does) hides every application whose date has none:
    * the list is empty and, when there are applications, the dashboard
    * shows "nothing matches", whatever the status filter. */
  lemma MonthFilterHidesEverything(apps: seq<Application>, f: Filters)
    requires '-' in f.dateFilter
    requires forall i :: 0 <= i < |apps| ==> '-' !in apps[i].submissionDate
    ensures FilteredApplications(apps, f) == []
    ensures apps != [] ==> ViewList(apps, f) == NothingMatches
  {
    forall i | 0 <= i < |apps|
      ensures !Matches(f, apps[i])
    {
      IncludesIffContains(apps[i].submissionDate, f.dateFilter);
      if Contains(apps[i].submissionDate, f.dateFilter) {
        ContainsKeepsChar(apps[i].submissionDate, f.dateFilter, '-');
      }
    }
    FilterDropsAll(apps, app => Matches(f, app));
  }

  /** The test the list applies to each application: the status is the
    * chosen one (or "all"), and the date filter is empty or occurs inside
    * the submission date. */
  predicate Matches(f: Filters, app: Application) {
    && (f.statusFilter == "all" || StatusCode(app.status) == f.statusFilter)
    && (f.dateFilter == "" || Includes(app.submissionDate, f.dateFilter))
  }

  function FilteredApplications(apps: seq<Application>, f: Filters): seq<Application> {
    Filter(apps, app => Matches(f, app))
  }

  /** The list shows, in their original order, exactly the applications
    * whose status is the chosen one (or any) and whose submission date
    * contains the date filter as a substring (or the filter is empty). */
  lemma FilteredApplicationsSpec(apps: seq<Application>, f: Filters)
    ensures IsSubsequence(FilteredApplications(apps, f), apps)
    ensures forall x :: x in FilteredApplications(apps, f) <==>
      && x in apps
      && (f.statusFilter == "all" || StatusCode(x.status) == f.statusFilter)
      && (f.dateFilter == "" || Contains(x.submissionDate, f.dateFilter))
  {
    var keep := app => Matches(f, app);
    FilterIsSubsequence(apps, keep);
    FilterMembership(apps, keep);
    forall x: Application
      ensures Includes(x.submissionDate, f.dateFilter) <==> Contains(x.submissionDate, f.dateFilter)
    {
      IncludesIffContains(x.submissionDate, f.dateFilter);
    }
  }

  /** The corrected test: the date falls in the month the month input names. */
  predicate MatchesCorrected(f: Filters, app: Application) {
    && (f.statusFilter == "all" || StatusCode(app.status) == f.statusFilter)
    && (f.dateFilter == "" || DateInMonth(app.submissionDate, f.dateFilter))
  }

  function FilteredApplicationsCorrected(apps: seq<Application>, f: Filters): seq<Application> {
    Filter(apps, app => MatchesCorrected(f, app))
  }

  /** With the corrected test and a chosen month, the list keeps, in order,
    * exactly the applications with the chosen status (or any) whose written
    * date lies in that month of that year. */
  lemma FilteredApplicationsCorrectedSpec(apps: seq<Application>, status: string, year: nat, month: nat)
    requires 1000 <= year <= 9999 && 1 <= month <= 12
    ensures var f := Filters(status, MonthValue(year, month));
      && IsSubsequence(FilteredApplicationsCorrected(apps, f), apps)
      && forall x: Application, day: nat, m: nat, y: nat ::
           1 <= m <= 12 && 1000 <= y <= 9999 && x.submissionDate == DisplayDate(day, m, y) ==>
           (x in FilteredApplicationsCorrected(apps, f) <==>
              x in apps && (status == "all" || StatusCode(x.status) == status) && m == month && y == year)
  {
    var f := Filters(status, MonthValue(year, month));
    var keep := app => MatchesCorrected(f, app);
    FilterIsSubsequence(apps, keep);
    FilterMembership(apps, keep);
    MonthValueHasHyphen(year, month);
    forall x: Application, day: nat, m: nat, y: nat |
      1 <= m <= 12 && 1000 <= y <= 9999 && x.submissionDate == DisplayDate(day, m, y)
      ensures DateInMonth(x.submissionDate, f.dateFilter) <==> m == month && y == year
    {
      MonthFilterSelectsMonth(day, m, y, month, year);
    }
  }

  /** Choosing a status in the filter (and no date) lists exactly the
    * applications with that status. */
  lemma StatusFilterSelectsStatus(apps: seq<Application>, st: ApplicationStatus)
    ensures FilteredApplications(apps, Filters(StatusCode(st), "")) == Filter(apps, (app: Application) => app.status == st)
  {
    forall i | 0 <= i < |apps|
      ensures Matches(Filters(StatusCode(st), ""), apps[i]) == (apps[i].status == st)
    {
      StatusNamesDistinct(apps[i].status, st);
    }
    FilterAgree(apps, app => Matches(Filters(StatusCode(st), ""), app), (app: Application) => app.status == st);
  }

  datatype Stats = Stats(total: nat, draft: nat, pending: nat, approved: nat, rejected: nat)

  function CountWithStatus(apps: seq<Application>, st: ApplicationStatus): nat {
    |Filter(apps, (app: Application) => app.status == st)|
  }

  /** The five figures on the status cards. */
  function ComputeStats(apps: seq<Application>): (s: Stats)
    ensures s.total == |apps|
  {
    Stats(|apps|,
      CountWithStatus(apps, Draft),
      CountWithStatus(apps, UnderReview),
      CountWithStatus(apps, Approved),
      CountWithStatus(apps, Rejected))
  }

  /** Every application is counted on exactly one status card. */
  lemma {:induction false} StatsPartition(apps: seq<Application>)
    ensures var s := ComputeStats(apps);
      s.draft + s.pending + s.approved + s.rejected == s.total
  {
    if apps != [] {
      StatsPartition(apps[1..]);
    }
  }

  /** A status card shows as many applications as the list shows when that
    * status is chosen in the filter. */
  lemma StatsAgreeWithFilter(apps: seq<Application>, st: ApplicationStatus)
    ensures CountWithStatus(apps, st) == |FilteredApplications(apps, Filters(StatusCode(st), ""))|
  {
    StatusFilterSelectsStatus(apps, st);
  }

  /** What the application list shows. */
  datatype ListView =
    | NoApplications             // "no applications yet", with a hint to create one
    | NothingMatches             // "nothing matches", with a reset button
    | Rows(rows: seq<Application>)

  function ViewList(apps: seq<Application>, f: Filters): (v: ListView)
    ensures v.NoApplications? <==> apps == []
    ensures v.NothingMatches? <==> apps != [] && FilteredApplications(apps, f) == []
    ensures v.Rows? ==> v.rows == FilteredApplications(apps, f) && v.rows != []
  {
    var filtered := FilteredApplications(apps, f);
    if filtered == [] then
      if apps == [] then NoApplications else NothingMatches
    else
      Rows(filtered)
  }

  /** With the status filter on "all" and no date, the list is every
    * application, in order; when there are any, they are shown as rows. */
  lemma ResetListsEverything(apps: seq<Application>)
    ensures FilteredApplications(apps, ResetFilters()) == apps
    ensures apps != [] ==> ViewList(apps, ResetFilters()) == Rows(apps)
  {
    FilterKeepsAll(apps, app => Matches(ResetFilters(), app));
  }

  /** After a reset every application is listed again, so the reset button
    * never leaves the user facing an empty list. */
  lemma ResetShowsEverything(apps: seq<Application>, f: Filters)
    requires ViewList(apps, f).NothingMatches?
    ensures ViewList(apps, ResetFilters()) == Rows(apps)
  {
    ResetListsEverything(apps);
  }

  /** The "recent updates" panel: the first three applications, and the
    * panel is absent when there are none. */
  function RecentApplications(apps: seq<Application>): (r: seq<Application>)
    ensures |r| == if |apps| < 3 then |apps| else 3
    ensures forall i :: 0 <= i < |r| ==> r[i] == apps[i]
    ensures r == [] <==> apps == []
  {
    apps[..if |apps| < 3 then |apps| else 3]
  }
}
