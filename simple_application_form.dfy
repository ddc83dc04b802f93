/**
 * The free-text application form and its readiness checker: the five criteria
 * evaluated on the applicant's text, the submit gate and the word-count display.
 */
module SimpleApplicationForm {
  import opened Basics
  import opened Strings
  import opened ApplicationChecker

  const MinWords: nat := 100

  const ProjectKeywords: seq<string> := ["проект", "цель", "задача", "результат", "мероприятие"]
  const BudgetKeywords: seq<string> := ["бюджет", "сумма", "рубл", "затрат", "расход", "финансиров"]
  const TimelineKeywords: seq<string> := ["срок", "месяц", "год", "этап", "период", "время"]
  const SocialKeywords: seq<string> := ["общество", "социальн", "польза", "благотворительн", "помощь"]

  const ProjectPassed := "Заявка содержит описание проекта с целями и задачами"
  const ProjectFailed := "Добавьте описание проекта с указанием целей и задач"
  const BudgetPassed := "Заявка содержит информацию о бюджете"
  const BudgetWarning := "Рекомендуется указать планируемые расходы"
  const TimelinePassed := "Заявка содержит информацию о сроках"
  const TimelineWarning := "Рекомендуется указать сроки реализации проекта"
  const SocialPassed := "Заявка демонстрирует социальную значимость проекта"
  const SocialWarning := "Укажите социальную значимость и пользу проекта"

  /** The length criterion's message, which restates the measured word count. */
  function LengthMessage(wordCount: nat): string {
    "Заявка содержит " + NatToString(wordCount) + " слов (требуется минимум 100)"
  }

  /** Whether some keyword of the list occurs in the text, tried in list order. */
  function SomeIncluded(text: string, keywords: seq<string>): bool {
    if keywords == [] then false
    else Includes(text, keywords[0]) || SomeIncluded(text, keywords[1..])
  }

  /** `some` over `includes` holds exactly when one of the keywords occurs in the text. */
  lemma {:induction false} SomeIncludedIffContains(text: string, keywords: seq<string>)
    ensures SomeIncluded(text, keywords) <==> exists j :: 0 <= j < |keywords| && Contains(text, keywords[j])
  {
    if keywords != [] {
      IncludesIffContains(text, keywords[0]);
      SomeIncludedIffContains(text, keywords[1..]);
      assert forall j :: 1 <= j < |keywords| ==> keywords[j] == keywords[1..][j - 1];
    }
  }

  /** The keyword stems a criterion looks for; the length criterion has none. */
  function CriterionKeywords(c: Criterion): seq<string> {
    match c
    case Length => []
    case Project => ProjectKeywords
    case Budget => BudgetKeywords
    case Timeline => TimelineKeywords
    case Social => SocialKeywords
  }

  /** The message a keyword criterion shows when it passes. */
  function PassMessage(c: Criterion): string
    requires c != Length
  {
    match c
    case Project => ProjectPassed
    case Budget => BudgetPassed
    case Timeline => TimelinePassed
    case Social => SocialPassed
  }

  /** The hint a keyword criterion shows when it does not pass. */
  function HintMessage(c: Criterion): string
    requires c != Length
  {
    match c
    case Project => ProjectFailed
    case Budget => BudgetWarning
    case Timeline => TimelineWarning
    case Social => SocialWarning
  }

  /** The lower-cased text contains one of the keyword stems as a substring. */
  ghost predicate Mentions(applicationText: string, keywords: seq<string>) {
    exists j :: 0 <= j < |keywords| && Contains(ToLower(applicationText), keywords[j])
  }

  /** The entry pushed for a criterion: the passing one, or the `fallback` status with its hint. */
  function Outcome(criterion: Criterion, passed: bool, fallback: Status, passMessage: string, fallbackMessage: string): CheckResult {
    if passed then CheckResult(criterion, Passed, passMessage) else CheckResult(criterion, fallback, fallbackMessage)
  }

  /**
   * The results of one evaluation, in the order they are pushed: one per criterion.
   * Only the first two criteria can fail; the other three fall back to a warning.
   */
  function Evaluate(applicationText: string): (rs: seq<CheckResult>)
    requires !IsBlank(applicationText)
    ensures |rs| == 5
    ensures rs[0].criterion == Length && rs[1].criterion == Project
    ensures rs[2].criterion == Budget && rs[3].criterion == Timeline
    ensures rs[4].criterion == Social
    ensures rs[0].status != Warning && rs[1].status != Warning
    ensures rs[2].status != Failed && rs[3].status != Failed && rs[4].status != Failed
  {
    var text := ToLower(applicationText);
    var wordCount := SplitLength(Trim(applicationText));
    [ Outcome(Length, wordCount >= MinWords, Failed, LengthMessage(wordCount), LengthMessage(wordCount)),
      Outcome(Project, SomeIncluded(text, ProjectKeywords), Failed, ProjectPassed, ProjectFailed),
      Outcome(Budget, SomeIncluded(text, BudgetKeywords), Warning, BudgetPassed, BudgetWarning),
      Outcome(Timeline, SomeIncluded(text, TimelineKeywords), Warning, TimelinePassed, TimelineWarning),
      Outcome(Social, SomeIncluded(text, SocialKeywords), Warning, SocialPassed, SocialWarning) ]
  }

  /** The length criterion passes exactly when the text has at least 100 words, and reports that count. */
  lemma LengthCriterionMeaning(applicationText: string)
    requires !IsBlank(applicationText)
    ensures Evaluate(applicationText)[0].status == Passed <==> WordCount(applicationText) >= MinWords
    ensures Evaluate(applicationText)[0].message == LengthMessage(WordCount(applicationText))
  {
    SplitLengthCountsWords(applicationText);
  }

  /** A keyword criterion passes exactly when the lower-cased text contains one of its stems. */
  lemma KeywordCriterionMeaning(applicationText: string, i: int)
    requires !IsBlank(applicationText) && 1 <= i < 5
    ensures Evaluate(applicationText)[i].status == Passed
            <==> Mentions(applicationText, CriterionKeywords(Evaluate(applicationText)[i].criterion))
  {
    var rs := Evaluate(applicationText);
    SomeIncludedIffContains(ToLower(applicationText), CriterionKeywords(rs[i].criterion));
  }

  /** A keyword criterion shows its success text when it passes and its hint
    * otherwise; a hint goes with a failure for the project criterion and with
    * a warning for the other three. */
  lemma KeywordCriterionMessage(applicationText: string, i: int)
    requires !IsBlank(applicationText) && 1 <= i < 5
    ensures var r := Evaluate(applicationText)[i];
      && r.message == (if r.status == Passed then PassMessage(r.criterion) else HintMessage(r.criterion))
      && (r.status != Passed ==> r.status == (if i == 1 then Failed else Warning))
  {
  }

  /** The submit gate: there is at least one result and none of them failed. */
  function CanSubmit(checkResults: seq<CheckResult>): (r: bool)
    ensures r <==> checkResults != [] && forall i :: 0 <= i < |checkResults| ==> checkResults[i].status != Failed
  {
    CountZeroIffAbsent(checkResults, Failed);
    |checkResults| > 0 && CountStatus(checkResults, Failed) == 0
  }

  /** The word count shown under the text area: 0 for a blank text. */
  function DisplayedWordCount(applicationText: string): (n: nat)
    ensures n == WordCount(applicationText)
  {
    if IsBlank(applicationText) then
      BlankIffNoWords(applicationText);
      0
    else
      SplitLengthCountsWords(applicationText);
      SplitLength(Trim(applicationText))
  }

  /** Whether the "(минимум 100 слов)" hint follows the count; it measures the trimmed text without a blank guard. */
  function ShowsMinimumHint(applicationText: string): (r: bool)
    ensures r <==> WordCount(applicationText) < MinWords
  {
    if IsBlank(applicationText) then
      BlankIffNoWords(applicationText);
      SplitLength(Trim(applicationText)) < MinWords
    else
      SplitLengthCountsWords(applicationText);
      SplitLength(Trim(applicationText)) < MinWords
  }

  /** The keyword stems are lower case, so they are matched case-insensitively. */
  lemma KeywordsAreLowerCase()
    ensures forall j :: 0 <= j < |ProjectKeywords| ==> ToLower(ProjectKeywords[j]) == ProjectKeywords[j]
    ensures forall j :: 0 <= j < |BudgetKeywords| ==> ToLower(BudgetKeywords[j]) == BudgetKeywords[j]
    ensures forall j :: 0 <= j < |TimelineKeywords| ==> ToLower(TimelineKeywords[j]) == TimelineKeywords[j]
    ensures forall j :: 0 <= j < |SocialKeywords| ==> ToLower(SocialKeywords[j]) == SocialKeywords[j]
  {
    forall j | 0 <= j < |ProjectKeywords| ensures ToLower(ProjectKeywords[j]) == ProjectKeywords[j] {
      LowerCyrillicFixed(ProjectKeywords[j]);
    }
    forall j | 0 <= j < |BudgetKeywords| ensures ToLower(BudgetKeywords[j]) == BudgetKeywords[j] {
      LowerCyrillicFixed(BudgetKeywords[j]);
    }
    forall j | 0 <= j < |TimelineKeywords| ensures ToLower(TimelineKeywords[j]) == TimelineKeywords[j] {
      LowerCyrillicFixed(TimelineKeywords[j]);
    }
    forall j | 0 <= j < |SocialKeywords| ensures ToLower(SocialKeywords[j]) == SocialKeywords[j] {
      LowerCyrillicFixed(SocialKeywords[j]);
    }
  }

  /**
   * Any spelling of a stem, in any case, satisfies the criterion: e.g. "СОЦИАЛЬНЫЙ"
   * or "социальный" satisfy the social-impact criterion through the stem "социальн".
   */
  lemma CaseInsensitiveMatch(applicationText: string, spelling: string, keywords: seq<string>, j: nat)
    requires j < |keywords| && ToLower(spelling) == keywords[j]
    requires Contains(applicationText, spelling)
    ensures Mentions(applicationText, keywords)
  {
    LowerKeepsContains(applicationText, spelling);
  }

  /** Submission is possible after a check exactly when the text is long enough and describes the project; warnings never block it. */
  lemma CheckedGate(applicationText: string)
    requires !IsBlank(applicationText)
    ensures CanSubmit(Evaluate(applicationText))
            <==> WordCount(applicationText) >= MinWords && Mentions(applicationText, ProjectKeywords)
  {
    LengthCriterionMeaning(applicationText);
    KeywordCriterionMeaning(applicationText, 1);
  }

  /**
   * A short text that mentions no stem fails the first two criteria and draws a warning
   * on the other three, and cannot be submitted.
   */
  lemma ShortTextWithoutKeywords(applicationText: string)
    requires !IsBlank(applicationText) && WordCount(applicationText) < MinWords
    requires !Mentions(applicationText, ProjectKeywords) && !Mentions(applicationText, BudgetKeywords)
    requires !Mentions(applicationText, TimelineKeywords) && !Mentions(applicationText, SocialKeywords)
    ensures var rs := Evaluate(applicationText);
      && rs[0].status == Failed && rs[1].status == Failed
      && rs[2].status == Warning && rs[3].status == Warning && rs[4].status == Warning
      && !CanSubmit(rs)
  {
    LengthCriterionMeaning(applicationText);
    KeywordCriterionMeaning(applicationText, 1);
    KeywordCriterionMeaning(applicationText, 2);
    KeywordCriterionMeaning(applicationText, 3);
    KeywordCriterionMeaning(applicationText, 4);
  }

  /** At most two results fail: only the length and project criteria can. */
  lemma AtMostTwoFailed(applicationText: string)
    requires !IsBlank(applicationText)
    ensures CountStatus(Evaluate(applicationText), Failed) <= 2
  {
    var rs := Evaluate(applicationText);
    assert rs == rs[..2] + rs[2..];
    CountZeroIffAbsent(rs[2..], Failed);
    CountAppend(rs[..2], rs[2..], Failed);
  }

  /** A stem mentioned in a text is still mentioned after more text is appended. */
  lemma MentionsAppend(applicationText: string, more: string, keywords: seq<string>)
    requires Mentions(applicationText, keywords)
    ensures Mentions(applicationText + more, keywords)
  {
    var j :| 0 <= j < |keywords| && Contains(ToLower(applicationText), keywords[j]);
    LowerAppend(applicationText, more);
    ContainsAppend(ToLower(applicationText), ToLower(more), keywords[j]);
  }

  /** Appending more text never turns a passed criterion into a failed or warned one. */
  lemma AppendKeepsPassed(applicationText: string, more: string, i: int)
    requires !IsBlank(applicationText) && 0 <= i < 5
    requires Evaluate(applicationText)[i].status == Passed
    ensures !IsBlank(applicationText + more)
    ensures Evaluate(applicationText + more)[i].status == Passed
  {
    BlankIffNoWords(applicationText);
    AppendKeepsWords(applicationText, more, false);
    BlankIffNoWords(applicationText + more);
    if i == 0 {
      LengthCriterionMeaning(applicationText);
      LengthCriterionMeaning(applicationText + more);
    } else {
      KeywordCriterionMeaning(applicationText, i);
      KeywordCriterionMeaning(applicationText + more, i);
      MentionsAppend(applicationText, more, CriterionKeywords(Evaluate(applicationText)[i].criterion));
    }
  }

  /**
   * The delayed part of a check: the result list built criterion by criterion, pushing
   * the passing entry or the fallback one for each.
   */
  method BuildCheckResults(applicationText: string) returns (results: seq<CheckResult>)
    requires !IsBlank(applicationText)
    ensures results == Evaluate(applicationText)
  {
    results := [];
    var text := ToLower(applicationText);
    var wordCount := SplitLength(Trim(applicationText));
    ghost var expected := Evaluate(applicationText);

    if wordCount >= MinWords {
      results := results + [CheckResult(Length, Passed, LengthMessage(wordCount))];
    } else {
      results := results + [CheckResult(Length, Failed, LengthMessage(wordCount))];
    }
    assert results == expected[..1];

    var hasProjectKeywords := SomeIncluded(text, ProjectKeywords);
    if hasProjectKeywords {
      results := results + [CheckResult(Project, Passed, ProjectPassed)];
    } else {
      results := results + [CheckResult(Project, Failed, ProjectFailed)];
    }
    assert results == expected[..2];

    var hasBudget := SomeIncluded(text, BudgetKeywords);
    if hasBudget {
      results := results + [CheckResult(Budget, Passed, BudgetPassed)];
    } else {
      results := results + [CheckResult(Budget, Warning, BudgetWarning)];
    }
    assert results == expected[..3];

    var hasTimeline := SomeIncluded(text, TimelineKeywords);
    if hasTimeline {
      results := results + [CheckResult(Timeline, Passed, TimelinePassed)];
    } else {
      results := results + [CheckResult(Timeline, Warning, TimelineWarning)];
    }
    assert results == expected[..4];

    var hasSocialImpact := SomeIncluded(text, SocialKeywords);
    if hasSocialImpact {
      results := results + [CheckResult(Social, Passed, SocialPassed)];
    } else {
      results := results + [CheckResult(Social, Warning, SocialWarning)];
    }
    assert results == expected[..5];
  }

  /** The form's own state: the text being edited and the results of the last check. */
  class Form {
    var applicationText: string
    var checkResults: seq<CheckResult>

    constructor ()
      ensures applicationText == "" && checkResults == []
    {
      applicationText := "";
      checkResults := [];
    }

    /** Editing the text does not discard the results of an earlier check. */
    method SetApplicationText(text: string)
      modifies this
      ensures applicationText == text && checkResults == old(checkResults)
    {
      applicationText := text;
    }

    /**
     * Runs the check. A blank text is refused with a notice and leaves the results
     * as they were; otherwise the results are built criterion by criterion.
     */
    method CheckApplication() returns (checked: bool)
      modifies this
      ensures applicationText == old(applicationText)
      ensures checked <==> !IsBlank(applicationText)
      ensures checked ==> checkResults == Evaluate(applicationText)
      ensures !checked ==> checkResults == old(checkResults)
    {
      if IsBlank(applicationText) {
        return false;
      }
      var results := BuildCheckResults(applicationText);
      checkResults := results;
      checked := true;
    }

    /**
     * The submit handler: refuses a blank text and any failed result, otherwise hands
     * the text, untouched, to the caller. It does not itself require a check to have
     * run; only the disabled button (`CanSubmit`) does.
     */
    method HandleSubmit() returns (submitted: Option<string>)
      ensures submitted.Some? <==>
        !IsBlank(applicationText) && forall i :: 0 <= i < |checkResults| ==> checkResults[i].status != Failed
      ensures submitted.Some? ==> submitted.value == applicationText
    {
      if IsBlank(applicationText) {
        return None;
      }
      var failedChecks := CountStatus(checkResults, Failed);
      CountZeroIffAbsent(checkResults, Failed);
      if failedChecks > 0 {
        return None;
      }
      submitted := Some(applicationText);
    }
  }
}
