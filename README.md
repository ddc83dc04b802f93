# Grant cabinet: a verified model of the front end

The grant cabinet is a single-page web application in Russian. Applicants use it to browse a
catalog of grants, sign in or register, draft an application and run an automatic pre-check on
it, and follow their applications on a dashboard. This project models the application's logic in
Dafny and proves what that logic guarantees. The logic lives in seven React components. JSX
layout, styling and icons are left out.

- **Automatic check** (`SimpleApplicationForm`, `ApplicationChecker`): five fixed criteria in a
  fixed order: length, project description, budget, timeline and social impact.
  - The length criterion needs at least 100 words. The word count is JavaScript's
    `trim().split(/\s+/).length`.
  - The other four look for lower-case keyword stems in the lower-cased text.
  - Length and project are hard failures. The other three only fall back to warnings.
  - The results panel shows count badges, one row per criterion, and a "ready" or a
    "needs rework" banner.
  - Submitting is allowed once a check has run and nothing failed. Warnings never block it.
- **JavaScript built-ins the check relies on** (`Strings`): ECMAScript white space for `trim`
  and `\s`, `toLowerCase`, `includes`, `length` in UTF-16 code units, and the decimal rendering
  of a number. Three executable definitions are proved equal to an independent meaning: `trim`
  to a framed slice (`Strings.TrimSpec`), the length of `split(/\s+/)` to the number of word runs
  (`Strings.SplitLengthCountsWords`), and `includes` to substring occurrence
  (`Strings.IncludesIffContains`). The decimal rendering has a round trip
  (`Strings.NatToStringRoundTrip`). `toLowerCase` and `length` are given by their definitions,
  with lemmas on their properties only; `toLowerCase` covers part of Unicode (see
  `Strings.ToLower` under "## Left out").
- **Page switcher** (`App`): a class whose fields are the React state of `App.tsx`. It has one
  method per event handler. Its invariant is that pages needing a user (dashboard, application
  form) are only shown to a signed-in user, and signed-out users have no name.
- **Dashboard** (`UserDashboard`):
  - status and month filters, with the list they select (a month-input value "YYYY-MM" matches
    no date written like the mock data; see Findings);
  - status cards whose figures partition the total;
  - the two empty states, with the reset that recovers the full list;
  - the three most recent applications.
- **Catalog** (`GrantCatalog`):
  - categories de-duplicated in first-occurrence order;
  - case-insensitive search over title and description, combined with a category filter;
  - the count badge and each card's apply button.
- **Registration form** (`RegisterForm`): password checks with the mismatch reported first, and
  a one-second simulated request modelled as a pending registration plus a `TimerFires` event.
- **Detailed application form** (`ApplicationForm`): ten fields, per-field edits, and a submit
  that requires four of them.

Everything is in plain modules, one per component: `basics.dfy`, `strings.dfy`,
`application_checker.dfy`, `simple_application_form.dfy`, `app.dfy`, `user_dashboard.dfy`,
`grant_catalog.dfy`, `register_form.dfy` and `application_form.dfy`.

Where the code and the intended design disagree, the model follows the code:

- Editing the text does not discard the results of an earlier check. The intended
  Drafting/Checked/Submitted workflow would discard them. `Form.SetApplicationText` keeps
  `checkResults`, so an edited text can be submitted on the strength of a check of an earlier
  text, provided the new text is not blank.
- `canSubmit` also demands that a check has produced results. Having no failed result is not
  enough on its own.
- The check is never run on a blank text. The caller refuses it first, so `Evaluate` requires a
  non-blank text. The displayed word count is 0 for a blank text. The "(минимум 100 слов)" hint
  is computed without that guard and measures one word there, which is still below 100.

## Model

| member | source | states |
|---|---|---|
| Strings.Trim | frontend/src/components/simple-application-form.tsx:29 | JavaScript's `trim`; its meaning is stated by `Strings.TrimSpec`, `Strings.TrimStartSpec` and `Strings.TrimEndSpec` |
| Strings.IsBlank | frontend/src/components/simple-application-form.tsx:29 | `!text.trim()`; stated by `Strings.TrimSpec` (blank exactly when all white space) and `Strings.BlankIffNoWords` |
| Strings.WordCount | frontend/src/components/simple-application-form.tsx:206 | the number of maximal runs of non-space characters; tied to `trim().split(/\s+/).length` by `Strings.SplitLengthCountsWords` |
| Strings.ToLower | frontend/src/components/simple-application-form.tsx:39 | `toLowerCase`; stated by `Strings.LowerIdempotent`, `Strings.LowerAppend`, `Strings.LowerCyrillicFixed` and `Strings.LowerKeepsContains` |
| Strings.Includes | frontend/src/components/simple-application-form.tsx:59 | `includes`; stated by `Strings.IncludesIffContains` |
| Strings.TrimSpec | frontend/src/components/simple-application-form.tsx:29 | `trim` returns a contiguous slice of the text that neither starts nor ends with white space (or is empty), and the text trims to "" exactly when it is all white space |
| Strings.TrimStartSpec | frontend/src/components/simple-application-form.tsx:40 | leading white space is exactly what the start-trim removes, and the rest starts with a non-space |
| Strings.TrimEndSpec | frontend/src/components/simple-application-form.tsx:40 | trailing white space is exactly what the end-trim removes, and the rest ends with a non-space |
| Strings.SplitLength | frontend/src/components/simple-application-form.tsx:40 | `split(/\s+/).length` is at least 1, even for "" |
| Strings.SplitLengthCountsWords | frontend/src/components/simple-application-form.tsx:40 | for a non-blank text, `trim().split(/\s+/).length` equals the number of maximal runs of non-space characters (words) |
| Strings.BlankIffNoWords | frontend/src/components/simple-application-form.tsx:206 | a text trims to "" exactly when it has no words |
| Strings.NoRunsIffAllOther | frontend/src/components/simple-application-form.tsx:40 | a text has no runs of one kind exactly when every character is of the other kind |
| Strings.RunsAlternate | frontend/src/components/simple-application-form.tsx:40 | word runs and space runs alternate, so in a text ending in a word their counts differ by the leading run |
| Strings.TrimStartKeepsWords | frontend/src/components/simple-application-form.tsx:40 | removing leading white space keeps the word count |
| Strings.TrailingSpaceKeepsWords | frontend/src/components/simple-application-form.tsx:40 | one trailing white-space character does not change the word count |
| Strings.TrimEndKeepsWords | frontend/src/components/simple-application-form.tsx:40 | removing trailing white space keeps the word count |
| Strings.TrimKeepsWords | frontend/src/components/simple-application-form.tsx:40 | trimming keeps the word count |
| Strings.AppendKeepsWords | frontend/src/components/simple-application-form.tsx:40 | appending text never lowers the word count |
| Strings.LowerIdempotent | frontend/src/components/grant-catalog.tsx:64 | lower-casing twice is lower-casing once |
| Strings.LowerAppend | frontend/src/components/simple-application-form.tsx:39 | lower-casing distributes over concatenation |
| Strings.LowerCyrillicFixed | frontend/src/components/simple-application-form.tsx:58 | a string of lower-case Cyrillic letters is unchanged by `toLowerCase` |
| Strings.IncludesIffContains | frontend/src/components/simple-application-form.tsx:59 | `includes` is true exactly when the word occurs as a contiguous substring |
| Strings.OccursAtShift | frontend/src/components/simple-application-form.tsx:59 | an occurrence past the first position is an occurrence in the tail, one position earlier |
| Strings.ContainsEmpty | frontend/src/components/grant-catalog.tsx:64 | every string contains "" |
| Strings.ContainsAppend | frontend/src/components/simple-application-form.tsx:59 | an occurrence survives appending text |
| Strings.ContainsKeepsChar | frontend/src/components/user-dashboard.tsx:63 | every character of an occurring word is a character of the text |
| Strings.LowerKeepsContains | frontend/src/components/grant-catalog.tsx:64 | an occurrence of `w` in `s` gives an occurrence of lower-cased `w` in lower-cased `s` |
| Strings.Utf16Length | frontend/src/components/register-form.tsx:29 | `length` counts one or two UTF-16 units per character, and equals the character count exactly when no character is above U+FFFF |
| Strings.NatToStringDigits | frontend/src/components/simple-application-form.tsx:47 | a rendered number is a non-empty string of decimal digits with no leading zero |
| Strings.NatToStringRoundTrip | frontend/src/components/simple-application-form.tsx:47 | reading the rendered digits back gives the number |
| ApplicationChecker.CountStatus | frontend/src/components/application-checker.tsx:53-55 | a status count never exceeds the number of results |
| ApplicationChecker.CountsPartition | frontend/src/components/application-checker.tsx:53-55 | passed + failed + warning counts equal the number of results |
| ApplicationChecker.CountZeroIffAbsent | frontend/src/components/application-checker.tsx:100 | a status count is 0 exactly when no result has that status |
| ApplicationChecker.CountAppend | frontend/src/components/application-checker.tsx:53-55 | counts add up over concatenated result lists |
| ApplicationChecker.StatusText | frontend/src/components/application-checker.tsx:42-51 | the label of each status; stated by `ApplicationChecker.StatusTextInjective` and used by `ApplicationChecker.Render` |
| ApplicationChecker.StatusTextInjective | frontend/src/components/application-checker.tsx:42-51 | the three status labels are distinct, so a label identifies its status |
| ApplicationChecker.Render | frontend/src/components/application-checker.tsx:15-127 | no panel for no results. Otherwise: one row per result, in order, with its label and message; each badge shown exactly when its count is positive and showing that count; "ready" exactly when every result passed; "needs rework" exactly when one failed; never both |
| SimpleApplicationForm.SomeIncluded | frontend/src/components/simple-application-form.tsx:59 | `keywords.some(k => text.includes(k))`; stated by `SimpleApplicationForm.SomeIncludedIffContains` |
| SimpleApplicationForm.LengthMessage | frontend/src/components/simple-application-form.tsx:47 | the length criterion's message with the word count; stated by `SimpleApplicationForm.LengthCriterionMeaning`, with the number's digits by `Strings.NatToStringRoundTrip` |
| SimpleApplicationForm.PassMessage | frontend/src/components/simple-application-form.tsx:65-119 | the success text of each keyword criterion; stated by `SimpleApplicationForm.KeywordCriterionMessage` |
| SimpleApplicationForm.HintMessage | frontend/src/components/simple-application-form.tsx:71-125 | the hint of each keyword criterion; stated by `SimpleApplicationForm.KeywordCriterionMessage` |
| SimpleApplicationForm.SomeIncludedIffContains | frontend/src/components/simple-application-form.tsx:59 | `keywords.some(k => text.includes(k))` holds exactly when some keyword occurs in the text |
| SimpleApplicationForm.Evaluate | frontend/src/components/simple-application-form.tsx:38-127 | exactly five results, in criterion order; length and project are never warnings; budget, timeline and social are never failures |
| SimpleApplicationForm.LengthCriterionMeaning | frontend/src/components/simple-application-form.tsx:40-55 | the length criterion passes exactly when the text has at least 100 words, and its message reports that word count |
| SimpleApplicationForm.KeywordCriterionMeaning | frontend/src/components/simple-application-form.tsx:57-127 | each keyword criterion passes exactly when the lower-cased text contains one of its stems |
| SimpleApplicationForm.KeywordCriterionMessage | frontend/src/components/simple-application-form.tsx:57-127 | each keyword criterion shows its success text when it passes and its hint otherwise; the hint comes with a failure for the project criterion and a warning for the other three |
| SimpleApplicationForm.ShortTextWithoutKeywords | frontend/src/components/simple-application-form.tsx:38-127 | a text under 100 words that mentions no stem gets failed, failed, warning, warning, warning and cannot be submitted |
| SimpleApplicationForm.AtMostTwoFailed | frontend/src/components/simple-application-form.tsx:76-127 | an evaluation has at most two failed results |
| SimpleApplicationForm.CheckedGate | frontend/src/components/simple-application-form.tsx:152 | after a check, submission is allowed exactly when the text has at least 100 words and describes the project; warnings never block it |
| SimpleApplicationForm.KeywordsAreLowerCase | frontend/src/components/simple-application-form.tsx:58-112 | every keyword stem is unchanged by lower-casing |
| SimpleApplicationForm.CaseInsensitiveMatch | frontend/src/components/simple-application-form.tsx:112-113 | any spelling of a stem, in any case, anywhere in the text satisfies its criterion |
| SimpleApplicationForm.MentionsAppend | frontend/src/components/simple-application-form.tsx:59 | a mentioned stem stays mentioned when text is appended |
| SimpleApplicationForm.AppendKeepsPassed | frontend/src/components/simple-application-form.tsx:38-127 | appending text never turns a passed criterion into a failure or a warning |
| SimpleApplicationForm.CanSubmit | frontend/src/components/simple-application-form.tsx:152 | true exactly when there are results and none failed |
| SimpleApplicationForm.DisplayedWordCount | frontend/src/components/simple-application-form.tsx:206 | the displayed count is the number of words, 0 for a blank text |
| SimpleApplicationForm.ShowsMinimumHint | frontend/src/components/simple-application-form.tsx:207 | the minimum hint shows exactly when the text has fewer than 100 words |
| SimpleApplicationForm.BuildCheckResults | frontend/src/components/simple-application-form.tsx:37-130 | the push-by-push construction of the results yields `Evaluate` of the text |
| SimpleApplicationForm.Form.constructor | frontend/src/components/simple-application-form.tsx:23-24 | the form starts with an empty text and no results |
| SimpleApplicationForm.Form.SetApplicationText | frontend/src/components/simple-application-form.tsx:190 | editing replaces the text and keeps the previous results |
| SimpleApplicationForm.Form.CheckApplication | frontend/src/components/simple-application-form.tsx:28-134 | a blank text is refused and the results stay as they were; otherwise the results become `Evaluate` of the text |
| SimpleApplicationForm.Form.HandleSubmit | frontend/src/components/simple-application-form.tsx:136-150 | the text is handed over, unchanged, exactly when it is not blank and no result failed. An empty result list does not stop it |
| App.App.constructor | frontend/src/App.tsx:122-130 | catalog page, signed out, no name, nothing selected, empty search, category "all" |
| App.App.HandleLogin | frontend/src/App.tsx:132-142 | with both credentials non-empty: signed in as the stub user on the catalog. Otherwise only the page changes, to sign-in. Nothing else changes, and the invariant holds |
| App.App.HandleRegister | frontend/src/App.tsx:144-149 | signed in under the given full name, on the catalog |
| App.App.HandleLogout | frontend/src/App.tsx:151-155 | signed out, name cleared, on the catalog; the selected grant is kept |
| App.App.HandleSwitchToLogin | frontend/src/App.tsx:157-159 | only the page changes, to sign-in |
| App.App.HandleSwitchToRegister | frontend/src/App.tsx:161-163 | only the page changes, to registration |
| App.App.HandleNavigateHome | frontend/src/App.tsx:165-167 | only the page changes, to the catalog |
| App.App.HandleNavigateToProfile | frontend/src/App.tsx:169-175 | dashboard when signed in, sign-in page otherwise; nothing else changes |
| App.App.HandleApplyToGrant | frontend/src/App.tsx:177-185 | signed in: the grant is selected and the application page opens. Signed out: the sign-in page opens and the selection is untouched |
| App.App.HandleBackFromApplication | frontend/src/App.tsx:187-191 | back on the catalog with the selection cleared |
| App.App.HandleSubmitApplication | frontend/src/App.tsx:193-201 | reports the text with the selected grant (always present) and opens the dashboard; sign-in state and selection unchanged |
| App.App.HandleCreateNewApplication | frontend/src/App.tsx:208-210 | only the page changes, to the catalog |
| App.App.SetSearchQuery | frontend/src/App.tsx:219-222 | only the search query changes |
| App.App.SetSelectedCategory | frontend/src/App.tsx:219-222 | only the selected category changes |
| App.App.ShowHeaderAndFooter | frontend/src/App.tsx:266 | the frame is shown exactly on the catalog, application and dashboard pages |
| UserDashboard.StatusNamesDistinct | frontend/src/components/user-dashboard.tsx:16 | status codes and badge texts each identify the status, and no code is "all" |
| UserDashboard.ResetFilters | frontend/src/components/user-dashboard.tsx:208-211 | the reset sets the status filter to "all" and the date filter to "" |
| UserDashboard.FilteredApplicationsSpec | frontend/src/components/user-dashboard.tsx:61-65 | the list is an order-preserving subsequence holding exactly the applications whose status is the chosen one (or the filter is "all") and whose submission date contains the date filter as a substring (or the filter is empty) |
| UserDashboard.Matches | frontend/src/components/user-dashboard.tsx:62-64 | the per-application test of the list; its meaning is stated by `UserDashboard.FilteredApplicationsSpec` |
| UserDashboard.FilteredApplications | frontend/src/components/user-dashboard.tsx:61-65 | the filtered list; specified by `UserDashboard.FilteredApplicationsSpec` |
| UserDashboard.MatchesCorrected | frontend/src/components/user-dashboard.tsx:62-64 | the corrected per-application test (status as in the code, date in the chosen month); its meaning is stated by `UserDashboard.FilteredApplicationsCorrectedSpec` |
| UserDashboard.FilteredApplicationsCorrected | frontend/src/components/user-dashboard.tsx:61-65 | the list the corrected test would show; specified by `UserDashboard.FilteredApplicationsCorrectedSpec` |
| UserDashboard.FilteredApplicationsCorrectedSpec | frontend/src/components/user-dashboard.tsx:61-65 | with the corrected test and a chosen month, the list is an order-preserving subsequence keeping exactly the applications with the chosen status (or any) whose written date lies in that month of that year |
| UserDashboard.MonthValueHasHyphen | frontend/src/components/user-dashboard.tsx:180-186 | every "YYYY-MM" value of the month input contains '-' |
| UserDashboard.CountWithStatus | frontend/src/components/user-dashboard.tsx:67-73 | the figure on one status card; its meaning is stated by `UserDashboard.StatsPartition` and `UserDashboard.StatsAgreeWithFilter` |
| UserDashboard.MonthFilterHidesEverything | frontend/src/components/user-dashboard.tsx:63 | as written, a date filter containing '-' (as every "YYYY-MM" month-input value does) keeps no application whose date has no '-', whatever the status filter: the list is empty and, when there are applications, the dashboard shows "nothing matches" |
| UserDashboard.DisplayDateHasNoHyphen | frontend/src/App.tsx:86-112 | a date written as day, genitive month name and year never contains '-' |
| UserDashboard.MonthFilterSelectsMonth | frontend/src/components/user-dashboard.tsx:180-186 | with the corrected test, a date written as day, month name and year passes the chosen month exactly when its month and year are the chosen ones |
| UserDashboard.DateInMonthAsSuffix | frontend/src/components/user-dashboard.tsx:180-186 | a "YYYY-MM" value selects exactly the dates ending in " <month name> YYYY" |
| UserDashboard.MonthOfCode | frontend/src/components/user-dashboard.tsx:180-186 | a month code that is accepted denotes a month from 1 to 12 |
| UserDashboard.MonthOfCodeTwoDigits | frontend/src/components/user-dashboard.tsx:180-186 | reading back a month's two-digit code gives the month |
| UserDashboard.YearHasFourDigits | frontend/src/components/user-dashboard.tsx:180-186 | a year from 1000 to 9999 is written with four digits |
| UserDashboard.YearTextInjective | frontend/src/App.tsx:86-112 | two years written alike are the same year |
| UserDashboard.MonthNamesDistinct | frontend/src/App.tsx:86-112 | the twelve month names are distinct |
| UserDashboard.MonthNameHasNoSpace | frontend/src/App.tsx:86-112 | no month name contains a space |
| UserDashboard.DisplayDateShape | frontend/src/App.tsx:86-112 | a written date is its day and month name, a space, and its year |
| UserDashboard.SpaceFreeSuffix | frontend/src/App.tsx:86-112 | a date can end in " " + name for at most one space-free name |
| UserDashboard.SplitYearSuffix | frontend/src/App.tsx:86-112 | a date ending in " name yyyy" has that four-character year and, before it, ends in " name" |
| UserDashboard.SuffixIffSameMonthYear | frontend/src/App.tsx:86-112 | a date ends in " name year" exactly when its own month name and year are those |
| UserDashboard.EndsWithAt | frontend/src/components/user-dashboard.tsx:63 | each character of a suffix sits at the matching position from the end |
| UserDashboard.StatusFilterSelectsStatus | frontend/src/components/user-dashboard.tsx:62 | choosing a status lists exactly the applications with that status |
| UserDashboard.StatsPartition | frontend/src/components/user-dashboard.tsx:67-73 | draft + pending + approved + rejected = total |
| UserDashboard.StatsAgreeWithFilter | frontend/src/components/user-dashboard.tsx:67-73 | each status card shows as many applications as the list shows for that status |
| UserDashboard.ComputeStats | frontend/src/components/user-dashboard.tsx:67-73 | the total is the number of applications |
| UserDashboard.ViewList | frontend/src/components/user-dashboard.tsx:192-216 | "no applications yet" exactly when there are none; "nothing matches" exactly when there are some but the filters select none; otherwise the non-empty filtered rows |
| UserDashboard.ResetListsEverything | frontend/src/components/user-dashboard.tsx:61-65 | with the status filter on "all" and an empty date filter the list is every application, in order, and a non-empty list is shown as those rows |
| UserDashboard.ResetShowsEverything | frontend/src/components/user-dashboard.tsx:206-214 | from the "nothing matches" state, the reset lists every application |
| UserDashboard.RecentApplications | frontend/src/components/user-dashboard.tsx:271-279 | the first min(3, n) applications, in order; the panel is empty exactly when there are no applications |
| GrantCatalog.StatusText | frontend/src/components/grant-catalog.tsx:50-59 | the badge text of each grant status; stated by `GrantCatalog.StatusNamesDistinct` |
| GrantCatalog.StatusCode | frontend/src/components/grant-catalog.tsx:16 | the stored status values; stated by `GrantCatalog.StatusNamesDistinct` |
| GrantCatalog.StatusNamesDistinct | frontend/src/components/grant-catalog.tsx:50-59 | the three stored status codes and the three badge texts each identify the status |
| GrantCatalog.CategoryList | frontend/src/components/grant-catalog.tsx:61 | one category per grant, in grant order |
| GrantCatalog.DistinctMembers | frontend/src/components/grant-catalog.tsx:61 | de-duplication keeps exactly the values not already seen |
| GrantCatalog.DistinctNoRepeats | frontend/src/components/grant-catalog.tsx:61 | de-duplication keeps each value once |
| GrantCatalog.DistinctSnoc | frontend/src/components/grant-catalog.tsx:61 | one more value at the end is appended exactly when it is new |
| GrantCatalog.DistinctIsFirstOccurrences | frontend/src/components/grant-catalog.tsx:61 | de-duplication equals the reference "keep a value unless it occurred earlier" definition |
| GrantCatalog.Categories | frontend/src/components/grant-catalog.tsx:61 | `[...new Set(grants.map(g => g.category))]`; stated by `GrantCatalog.CategoriesSpec` |
| GrantCatalog.CategoriesSpec | frontend/src/components/grant-catalog.tsx:61 | the selector offers every grant's category, each once, in first-occurrence order |
| GrantCatalog.MatchesSearch | frontend/src/components/grant-catalog.tsx:64-65 | the search test; stated by `GrantCatalog.FilterGrantsSpec`, `GrantCatalog.LiteralMatchIsFound` and `GrantCatalog.SearchIgnoresQueryCase` |
| GrantCatalog.FilterGrants | frontend/src/components/grant-catalog.tsx:63-68 | the grid's list; stated by `GrantCatalog.FilterGrantsSpec` |
| GrantCatalog.FilterGrantsSpec | frontend/src/components/grant-catalog.tsx:63-68 | the grid is an order-preserving subsequence holding exactly the grants whose lower-cased title or description contains the lower-cased query and whose category is the chosen one (or any) |
| GrantCatalog.LiteralMatchIsFound | frontend/src/components/grant-catalog.tsx:64-65 | a grant whose title or description contains the query as typed is found |
| GrantCatalog.SearchIgnoresQueryCase | frontend/src/components/grant-catalog.tsx:64-65 | lower-casing the query does not change the result |
| GrantCatalog.ResetShowsEverything | frontend/src/components/grant-catalog.tsx:157-163 | an empty query with category "all" shows every grant |
| GrantCatalog.OfferedCategoryIsNonEmpty | frontend/src/components/grant-catalog.tsx:89-93 | every category offered by the selector shows at least one grant when the search box is empty |
| GrantCatalog.CountLabel | frontend/src/components/grant-catalog.tsx:102 | "грант" exactly for one grant, "грантов" otherwise |
| GrantCatalog.ApplyButtonFor | frontend/src/components/grant-catalog.tsx:140-146 | the button is disabled exactly for a closed grant, and then says applications are closed; otherwise it invites an application |
| RegisterForm.ValidationError | frontend/src/components/register-form.tsx:24-32 | no error exactly when the passwords match and have at least 6 UTF-16 units; a mismatch is reported first, and the length error otherwise |
| RegisterForm.PasswordLengthBoundary | frontend/src/components/register-form.tsx:29 | a password of six or more characters always passes the length check; one under 6 UTF-16 units, or under three characters, always fails it |
| RegisterForm.Form.constructor | frontend/src/components/register-form.tsx:13-18 | empty fields, not loading, no error, no timer |
| RegisterForm.Form.HandleInput | frontend/src/components/register-form.tsx:80-122 | only the edited input changes |
| RegisterForm.Form.HandleSubmit | frontend/src/components/register-form.tsx:20-41 | on a failed check: that error, not loading, nothing scheduled. Otherwise: error cleared, loading, and the registration of the current values scheduled |
| RegisterForm.Form.TimerFires | frontend/src/components/register-form.tsx:37-40 | delivers the scheduled registration and stops loading |
| ApplicationForm.With | frontend/src/components/application-form.tsx:57-59 | the edited field gets the new value and every other field keeps its value |
| ApplicationForm.FieldsDetermineForm | frontend/src/components/application-form.tsx:16-27 | two forms with the same ten field values are equal |
| ApplicationForm.WithLaws | frontend/src/components/application-form.tsx:57-59 | writing back a field's own value changes nothing; a second write to a field overrides the first |
| ApplicationForm.MissingRequired | frontend/src/components/application-form.tsx:47 | the validation test; stated by `ApplicationForm.MissingRequiredIff` and `ApplicationForm.OptionalFieldsDoNotMatter` |
| ApplicationForm.MissingRequiredIff | frontend/src/components/application-form.tsx:47 | the form is rejected exactly when one of the four required fields is "" (a blank but non-empty field counts as filled) |
| ApplicationForm.OptionalFieldsDoNotMatter | frontend/src/components/application-form.tsx:47 | editing an optional field never changes whether the form is rejected |
| ApplicationForm.Form.constructor | frontend/src/components/application-form.tsx:30-41 | every field starts as "" |
| ApplicationForm.Form.HandleChange | frontend/src/components/application-form.tsx:57-59 | the form becomes the old form with that one field replaced |
| ApplicationForm.Form.HandleSubmit | frontend/src/components/application-form.tsx:43-55 | an incomplete form only shows the error notice. A complete one is handed over as it stands, then the success notice, then the form closes. Submitted data always has its required fields filled |
| Basics.Filter | frontend/src/components/user-dashboard.tsx:61 | filtering never lengthens a list |
| Basics.FilterIsSubsequence | frontend/src/components/grant-catalog.tsx:63 | filtering keeps the order of what it keeps |
| Basics.FilterMembership | frontend/src/components/grant-catalog.tsx:63 | a value survives filtering exactly when it occurs and passes the test |
| Basics.FilterKeepsAll | frontend/src/components/user-dashboard.tsx:61 | a test everything passes changes nothing |
| Basics.FilterDropsAll | frontend/src/components/user-dashboard.tsx:61 | a test nothing passes leaves an empty list |
| Basics.FilterAgree | frontend/src/components/user-dashboard.tsx:61 | tests that agree on every element filter alike |

## Findings

| source | as written | input that shows it | evidently intended | confidence | as-written member | corrected member |
|---|---|---|---|---|---|---|
| frontend/src/components/user-dashboard.tsx:63 | an application passes the date filter when its submission date contains the month input's value as a substring | choose January 2025 in a browser that implements `type="month"`: the value is "2025-01", no date written like "15 января 2025" (App.tsx:86) contains it, so the list shows "nothing matches" | an application passes when its date falls in the chosen month of the chosen year | high; not executed | UserDashboard.MonthFilterHidesEverything | UserDashboard.FilteredApplicationsCorrectedSpec |

The dashboard list in this model is the code's own: `UserDashboard.Matches`, `UserDashboard.FilteredApplications` and `UserDashboard.ViewList` use the substring test. The corrected test is `UserDashboard.MatchesCorrected`, with `UserDashboard.FilteredApplicationsCorrected`. `UserDashboard.MonthFilterSelectsMonth` proves its per-date meaning. The discrepancy needs a browser that implements the month input. A browser that falls back to a text box passes typed text through unchanged, and such text (for example "января") can match.

## Left out

- JSX layout, CSS classes, icons and the `ui/*` components, including the footer, the grant
  card, the dashboard statistics card, the status card and the header. They are presentation only.
- Timers and loading flags. The 2-second check delay and the `isChecking` flag are collapsed
  into one atomic `CheckApplication`. The registration delay is kept as an explicit pending
  registration delivered by `TimerFires`. Interleavings of several timers are not modelled;
  the buttons that would start them are disabled while one runs.
- Toast notices and `console.log`. `ApplicationForm.Form.HandleSubmit` returns its notices as
  effects. `App.App.HandleSubmitApplication` returns the logged record. The other forms' notices
  are not modelled.
- Strings.ToLower: covers ASCII and the basic Cyrillic block (U+0400–U+042F), not the full
  Unicode case mapping of `toLowerCase`. All keyword stems and the data are in that range.
- The login form, which only forwards e-mail and password after a delay. The header's initials
  need Unicode upper-casing and JavaScript's `undefined` indexing.
- `handleViewApplication` in `App.tsx` only logs. The dashboard's show/hide-filters toggle and
  the status colours are presentation.
- The browser's own `required` validation on the registration inputs is not modelled.
  `RegisterForm.Form.HandleSubmit` accepts empty names and e-mails, as the handler itself does.
- The backend (FastAPI routes, SQLAlchemy models, Pydantic schemas) is not part of this model.
  The front end never calls it; all grants and applications are in-memory mock data, which the
  model takes as parameters.
- UserDashboard.DateInMonth: reads only month-input values with a four-digit year, and only
  dates that end in a genitive month name and a year. The month input can produce years beyond
  9999, and the data could hold other date spellings; neither is modelled.
