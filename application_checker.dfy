/**
 * The results panel of the readiness checker: per-status counts, the status
 * labels, the count badges and the "ready" / "needs rework" banners.
 */
module ApplicationChecker {
  import opened Basics

  datatype Status = Passed | Failed | Warning

  /** The five criteria of the readiness check, a closed set. The labels are
    * written by the form that runs the check; they are declared here, beside
    * `CheckResult` (application-checker.tsx:5-9), because the form imports
    * this module and not the other way round. */
  datatype Criterion = Length | Project | Budget | Timeline | Social

  /** The label each criterion is shown under. */
  function CriterionName(c: Criterion): string {
    match c
    case Length => "Объем заявки"
    case Project => "Описание проекта"
    case Budget => "Бюджетное обоснование"
    case Timeline => "Сроки реализации"
    case Social => "Социальная значимость"
  }

  datatype CheckResult = CheckResult(criterion: Criterion, status: Status, message: string)

  /** The number of results with status `st`. */
  function CountStatus(rs: seq<CheckResult>, st: Status): (n: nat)
    ensures n <= |rs|
  {
    if rs == [] then 0 else (if rs[0].status == st then 1 else 0) + CountStatus(rs[1..], st)
  }

  /** The three counts partition the results, since a status is one of exactly three values. */
  lemma {:induction false} CountsPartition(rs: seq<CheckResult>)
    ensures CountStatus(rs, Passed) + CountStatus(rs, Failed) + CountStatus(rs, Warning) == |rs|
  {
    if rs != [] {
      CountsPartition(rs[1..]);
    }
  }

  /** A count is zero exactly when no result has that status. */
  lemma {:induction false} CountZeroIffAbsent(rs: seq<CheckResult>, st: Status)
    ensures CountStatus(rs, st) == 0 <==> forall i :: 0 <= i < |rs| ==> rs[i].status != st
  {
    if rs != [] {
      CountZeroIffAbsent(rs[1..], st);
      assert forall i :: 1 <= i < |rs| ==> rs[i] == rs[1..][i - 1];
    }
  }

  /** Counting distributes over concatenation. */
  lemma {:induction false} CountAppend(a: seq<CheckResult>, b: seq<CheckResult>, st: Status)
    ensures CountStatus(a + b, st) == CountStatus(a, st) + CountStatus(b, st)
  {
    if a != [] {
      assert (a + b)[0] == a[0] && (a + b)[1..] == a[1..] + b;
      CountAppend(a[1..], b, st);
    } else {
      assert a + b == b;
    }
  }

  /** The badge text for a status. */
  function StatusText(st: Status): string {
    match st
    case Passed => "Соответствует"
    case Failed => "Не соответствует"
    case Warning => "Требует внимания"
  }

  /** Distinct statuses get distinct labels. */
  lemma StatusTextInjective(a: Status, b: Status)
    ensures StatusText(a) == StatusText(b) <==> a == b
  {
  }

  /** One line of the panel: criterion, status label, message. */
  datatype Row = Row(criterion: string, statusText: string, message: string)

  /**
   * What the panel shows: the count badges (present only for a positive count),
   * one row per result in order, and the two banners.
   */
  datatype Panel = Panel(
    passedBadge: Option<nat>,
    warningBadge: Option<nat>,
    failedBadge: Option<nat>,
    rows: seq<Row>,
    readyBanner: bool,
    reworkBanner: bool)

  function Badge(n: nat): Option<nat> {
    if n > 0 then Some(n) else None
  }

  /** The panel for a list of results; an empty list renders nothing. */
  function Render(rs: seq<CheckResult>): (v: Option<Panel>)
    ensures v.None? <==> rs == []
    ensures v.Some? ==> |v.value.rows| == |rs|
    ensures v.Some? ==> forall i :: 0 <= i < |rs| ==>
      v.value.rows[i] == Row(CriterionName(rs[i].criterion), StatusText(rs[i].status), rs[i].message)
    ensures v.Some? ==> (v.value.readyBanner <==> forall i :: 0 <= i < |rs| ==> rs[i].status == Passed)
    ensures v.Some? ==> (v.value.reworkBanner <==> exists i :: 0 <= i < |rs| && rs[i].status == Failed)
    ensures v.Some? ==> !(v.value.readyBanner && v.value.reworkBanner)
    ensures v.Some? ==> (v.value.passedBadge.Some? <==> exists i :: 0 <= i < |rs| && rs[i].status == Passed)
    ensures v.Some? ==> (v.value.warningBadge.Some? <==> exists i :: 0 <= i < |rs| && rs[i].status == Warning)
    ensures v.Some? ==> (v.value.failedBadge.Some? <==> exists i :: 0 <= i < |rs| && rs[i].status == Failed)
    ensures v.Some? && v.value.passedBadge.Some? ==> v.value.passedBadge.value == CountStatus(rs, Passed)
    ensures v.Some? && v.value.warningBadge.Some? ==> v.value.warningBadge.value == CountStatus(rs, Warning)
    ensures v.Some? && v.value.failedBadge.Some? ==> v.value.failedBadge.value == CountStatus(rs, Failed)
  {
    if |rs| == 0 then None
    else
      var passedCount := CountStatus(rs, Passed);
      var failedCount := CountStatus(rs, Failed);
      var warningCount := CountStatus(rs, Warning);
      CountZeroIffAbsent(rs, Passed);
      CountZeroIffAbsent(rs, Failed);
      CountZeroIffAbsent(rs, Warning);
      assert (forall i :: 0 <= i < |rs| ==> rs[i].status == Passed)
        <==> (forall i :: 0 <= i < |rs| ==> rs[i].status != Failed && rs[i].status != Warning);
      Some(Panel(
        Badge(passedCount),
        Badge(warningCount),
        Badge(failedCount),
        seq(|rs|, i requires 0 <= i < |rs| => Row(CriterionName(rs[i].criterion), StatusText(rs[i].status), rs[i].message)),
        failedCount == 0 && warningCount == 0,
        failedCount > 0))
  }
}
