/** The grant catalog: the category list offered by the selector, search
  * and category filtering, the result count and each card's apply button. */
module GrantCatalog {
  import opened Basics
  import opened Strings

  datatype GrantStatus = Open | ClosingSoon | Closed

  /** The status as stored on a grant. */
  function StatusCode(st: GrantStatus): string {
    match st
    case Open => "открыт"
    case ClosingSoon => "скоро_закрывается"
    case Closed => "закрыт"
  }

  /** The status badge text. */
  function StatusText(st: GrantStatus): string {
    match st
    case Open => "Открыт"
    case ClosingSoon => "Скоро закрывается"
    case Closed => "Закрыт"
  }

  /** Distinct statuses have distinct stored codes and distinct badges, so a
    * badge tells the applicant which status the grant has. */
  lemma StatusNamesDistinct(a: GrantStatus, b: GrantStatus)
    ensures StatusCode(a) == StatusCode(b) <==> a == b
    ensures StatusText(a) == StatusText(b) <==> a == b
  {
  }

  datatype Grant = Grant(
    id: string,
    title: string,
    organization: string,
    description: string,
    amount: string,
    deadline: string,
    category: string,
    status: GrantStatus,
    applicants: int)

  // ------------------------------------------------------------ categories

  function CategoryList(grants: seq<Grant>): (cs: seq<string>)
    ensures |cs| == |grants|
    ensures forall i :: 0 <= i < |grants| ==> cs[i] == grants[i].category
  {
    seq(|grants|, i requires 0 <= i < |grants| => grants[i].category)
  }

  /** Drops every element already in `seen` or seen earlier in `s`, as
    * spreading a `Set` built from `s` does. */
  function DistinctInOrder(s: seq<string>, seen: set<string>): seq<string> {
    if s == [] then []
    else if s[0] in seen then DistinctInOrder(s[1..], seen)
    else [s[0]] + DistinctInOrder(s[1..], seen + {s[0]})
  }

  /** The categories the selector offers after "all". */
  function Categories(grants: seq<Grant>): seq<string> {
    DistinctInOrder(CategoryList(grants), {})
  }

  predicate NoRepeats(r: seq<string>) {
    forall i, j :: 0 <= i < j < |r| ==> r[i] != r[j]
  }

  /** Reference definition, read from the end: the last value is listed
    * unless it was seen or already occurs before it. */
  ghost function FirstOccurrences(s: seq<string>, seen: set<string>): seq<string> {
    if s == [] then []
    else
      var init, last := s[..|s| - 1], s[|s| - 1];
      FirstOccurrences(init, seen) + (if last in seen || last in init then [] else [last])
  }

  /** Deduplication keeps exactly the values of `s` not already seen. */
  lemma {:induction false} DistinctMembers(s: seq<string>, seen: set<string>)
    ensures forall x :: x in DistinctInOrder(s, seen) <==> x in s && x !in seen
  {
    if s != [] {
      if s[0] in seen {
        DistinctMembers(s[1..], seen);
      } else {
        DistinctMembers(s[1..], seen + {s[0]});
      }
      assert forall x :: x in s <==> x == s[0] || x in s[1..];
    }
  }

  /** Deduplication keeps each value once. */
  lemma {:induction false} DistinctNoRepeats(s: seq<string>, seen: set<string>)
    ensures NoRepeats(DistinctInOrder(s, seen))
  {
    if s != [] && s[0] in seen {
      DistinctNoRepeats(s[1..], seen);
    } else if s != [] {
      var r' := DistinctInOrder(s[1..], seen + {s[0]});
      var r := [s[0]] + r';
      DistinctNoRepeats(s[1..], seen + {s[0]});
      DistinctMembers(s[1..], seen + {s[0]});
      forall i, j | 0 <= i < j < |r| ensures r[i] != r[j] {
        assert r[j] == r'[j - 1] && r[j] in r';
        if i > 0 {
          assert r[i] == r'[i - 1];
        }
      }
    }
  }

  /** Deduplicating one more value at the end appends it exactly when it is new. */
  lemma {:induction false} DistinctSnoc(s: seq<string>, seen: set<string>, c: string)
    ensures DistinctInOrder(s + [c], seen)
      == DistinctInOrder(s, seen) + (if c in seen || c in s then [] else [c])
  {
    if s == [] {
      assert [] + [c] == [c];
    } else {
      assert (s + [c])[1..] == s[1..] + [c];
      assert c in s <==> c == s[0] || c in s[1..];
      if s[0] in seen {
        DistinctSnoc(s[1..], seen, c);
      } else {
        DistinctSnoc(s[1..], seen + {s[0]}, c);
      }
    }
  }

  /** Deduplication keeps each value at its first occurrence, in order. */
  lemma {:induction false} DistinctIsFirstOccurrences(s: seq<string>, seen: set<string>)
    ensures DistinctInOrder(s, seen) == FirstOccurrences(s, seen)
    decreases |s|
  {
    if s != [] {
      var init := s[..|s| - 1];
      DistinctIsFirstOccurrences(init, seen);
      DistinctSnoc(init, seen, s[|s| - 1]);
      assert init + [s[|s| - 1]] == s;
    }
  }

  /** The selector lists every category that some grant has, each once,
    * in the order the categories first appear among the grants. */
  lemma CategoriesSpec(grants: seq<Grant>)
    ensures var cs := Categories(grants);
      && (forall c :: c in cs <==> exists i :: 0 <= i < |grants| && grants[i].category == c)
      && NoRepeats(cs)
      && cs == FirstOccurrences(CategoryList(grants), {})
  {
    var list := CategoryList(grants);
    DistinctMembers(list, {});
    DistinctNoRepeats(list, {});
    DistinctIsFirstOccurrences(list, {});
    forall c ensures c in list <==> exists i :: 0 <= i < |grants| && grants[i].category == c {
      if c in list {
        var i :| 0 <= i < |list| && list[i] == c;
        assert grants[i].category == c;
      }
    }
  }

  // ------------------------------------------------------------- filtering

  predicate MatchesSearch(g: Grant, query: string) {
    || Includes(ToLower(g.title), ToLower(query))
    || Includes(ToLower(g.description), ToLower(query))
  }

  predicate MatchesCategory(g: Grant, category: string) {
    category == "all" || g.category == category
  }

  function FilterGrants(grants: seq<Grant>, query: string, category: string): seq<Grant> {
    Filter(grants, (g: Grant) => MatchesSearch(g, query) && MatchesCategory(g, category))
  }

  /** The intended meaning of the search: the query, ignoring case, occurs
    * in the title or the description, and the category is the chosen one. */
  ghost predicate Found(g: Grant, query: string, category: string) {
    && (Contains(ToLower(g.title), ToLower(query)) || Contains(ToLower(g.description), ToLower(query)))
    && (category == "all" || g.category == category)
  }

  /** The catalog shows, in their original order, exactly the grants the
    * search and the category select. */
  lemma FilterGrantsSpec(grants: seq<Grant>, query: string, category: string)
    ensures IsSubsequence(FilterGrants(grants, query, category), grants)
    ensures forall g :: g in FilterGrants(grants, query, category) <==> g in grants && Found(g, query, category)
  {
    var keep := (g: Grant) => MatchesSearch(g, query) && MatchesCategory(g, category);
    FilterIsSubsequence(grants, keep);
    FilterMembership(grants, keep);
    forall g: Grant ensures keep(g) <==> Found(g, query, category) {
      IncludesIffContains(ToLower(g.title), ToLower(query));
      IncludesIffContains(ToLower(g.description), ToLower(query));
    }
  }

  /** A grant whose title or description contains the query as typed is
    * always found, whatever the case of either. */
  lemma LiteralMatchIsFound(g: Grant, query: string)
    requires Contains(g.title, query) || Contains(g.description, query)
    ensures MatchesSearch(g, query)
  {
    IncludesIffContains(ToLower(g.title), ToLower(query));
    IncludesIffContains(ToLower(g.description), ToLower(query));
    if Contains(g.title, query) {
      LowerKeepsContains(g.title, query);
    } else {
      LowerKeepsContains(g.description, query);
    }
  }

  /** The query's case does not matter: lower-casing it first finds the same grants. */
  lemma SearchIgnoresQueryCase(grants: seq<Grant>, query: string, category: string)
    ensures FilterGrants(grants, ToLower(query), category) == FilterGrants(grants, query, category)
  {
    LowerIdempotent(query);
    FilterAgree(grants,
      (g: Grant) => MatchesSearch(g, ToLower(query)) && MatchesCategory(g, category),
      (g: Grant) => MatchesSearch(g, query) && MatchesCategory(g, category));
  }

  /** The "reset filters" button (empty query, category "all") brings back every grant. */
  lemma ResetShowsEverything(grants: seq<Grant>)
    ensures FilterGrants(grants, "", "all") == grants
  {
    var keep := (g: Grant) => MatchesSearch(g, "") && MatchesCategory(g, "all");
    forall i | 0 <= i < |grants| ensures keep(grants[i]) {
      ContainsEmpty(ToLower(grants[i].title));
      IncludesIffContains(ToLower(grants[i].title), "");
    }
    FilterKeepsAll(grants, keep);
  }

  /** Every category the selector offers shows at least one grant when the
    * search box is empty. */
  lemma OfferedCategoryIsNonEmpty(grants: seq<Grant>, c: string)
    requires c in Categories(grants)
    ensures FilterGrants(grants, "", c) != []
  {
    CategoriesSpec(grants);
    var i :| 0 <= i < |grants| && grants[i].category == c;
    FilterGrantsSpec(grants, "", c);
    ContainsEmpty(ToLower(grants[i].title));
    assert Found(grants[i], "", c);
    assert grants[i] in FilterGrants(grants, "", c);
  }

  // ------------------------------------------------------------ rendering

  /** The result badge: the number of grants shown and the noun after it. */
  function CountLabel(n: nat): (noun: string)
    ensures noun == "грант" <==> n == 1
    ensures noun != "грант" ==> noun == "грантов"
  {
    if n == 1 then "грант" else "грантов"
  }

  datatype ApplyButton = ApplyButton(disabled: bool, caption: string)

  /** A closed grant's button is disabled and says applications are closed;
    * every other grant's button invites an application. */
  function ApplyButtonFor(g: Grant): (b: ApplyButton)
    ensures b.disabled <==> g.status == Closed
    ensures b.caption == (if b.disabled then "Прием заявок закрыт" else "Подать заявку")
  {
    if g.status == Closed then ApplyButton(true, "Прием заявок закрыт")
    else ApplyButton(false, "Подать заявку")
  }
}
