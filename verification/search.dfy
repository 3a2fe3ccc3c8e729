/** The restaurant search of client/src/components/SearchPage.tsx: the
    filtering done inside its effect, and removal of an applied cuisine. */
module Search {
  import opened Seqs
  import opened Text

  datatype Restaurant = Restaurant(
    id: string, restaurantName: string, city: string, country: string,
    cuisines: seq<string>, imageUrl: string)

  /** `r.cuisines.some((cuisine) => appliedFilter.includes(cuisine))`: an
      exact, case-sensitive match. */
  predicate HasAppliedCuisine(r: Restaurant, applied: seq<string>) {
    exists c :: c in r.cuisines && c in applied
  }

  /** The name or some cuisine, lower-cased, includes `lowerQuery`. */
  predicate MatchesQuery(r: Restaurant, lowerQuery: string) {
    Contains(ToLower(r.restaurantName), lowerQuery)
    || exists c :: c in r.cuisines && Contains(ToLower(c), lowerQuery)
  }

  /** A query is used only when it is not blank; the untrimmed, lower-cased
      text is what is searched for. */
  predicate QueryActive(query: string) {
    Trim(query) != ""
  }

  /** A restaurant passes both the cuisine filter and the query. */
  predicate Shown(r: Restaurant, query: string, applied: seq<string>) {
    (|applied| == 0 || HasAppliedCuisine(r, applied))
    && (!QueryActive(query) || MatchesQuery(r, ToLower(query)))
  }

  /** The search result for `query` and `applied` over the list `all`. */
  function Search(all: seq<Restaurant>, query: string, applied: seq<string>): (result: seq<Restaurant>)
    ensures IsSubsequence(result, all)
    ensures |applied| > 0 ==> forall i :: 0 <= i < |result| ==> HasAppliedCuisine(result[i], applied)
    ensures QueryActive(query) ==> forall i :: 0 <= i < |result| ==> MatchesQuery(result[i], ToLower(query))
    ensures forall i :: 0 <= i < |all| ==>
      ((|applied| == 0 || HasAppliedCuisine(all[i], applied))
       && (!QueryActive(query) || MatchesQuery(all[i], ToLower(query))))
      ==> all[i] in result
  {
    var byCuisine := if |applied| > 0 then Filter(all, (r: Restaurant) => HasAppliedCuisine(r, applied)) else all;
    SubsequenceReflexive(all);
    if QueryActive(query) then
      var lower := ToLower(query);
      var byQuery := Filter(byCuisine, (r: Restaurant) => MatchesQuery(r, lower));
      SubsequenceTransitive(byQuery, byCuisine, all);
      byQuery
    else byCuisine
  }

  /** Every shown restaurant stays in the result as often as it is listed,
      and no other does. */
  lemma SearchCounts(all: seq<Restaurant>, query: string, applied: seq<string>)
    ensures forall x :: multiset(Search(all, query, applied))[x] ==
                       (if Shown(x, query, applied) then multiset(all)[x] else 0)
  {
    var cuisine := (r: Restaurant) => HasAppliedCuisine(r, applied);
    var byCuisine := if |applied| > 0 then Filter(all, cuisine) else all;
    if |applied| > 0 {
      FilterCounts(all, cuisine);
    }
    if QueryActive(query) {
      var lower := ToLower(query);
      FilterCounts(byCuisine, (r: Restaurant) => MatchesQuery(r, lower));
    }
  }

  /** With no filter and a blank query the whole list is shown, in order. */
  lemma NoCriteriaShowsAll(all: seq<Restaurant>, query: string)
    requires forall i :: 0 <= i < |query| ==> IsSpace(query[i])
    ensures Search(all, query, []) == all
  {
    TrimEmptyIffBlank(query);
  }

  /** `removeFilter(value)`: every copy of the value goes, the other filters
      keep their order. */
  function RemoveFilter(applied: seq<string>, value: string): (r: seq<string>)
    ensures value !in r
    ensures forall x :: multiset(r)[x] == if x != value then multiset(applied)[x] else 0
    ensures forall i :: 0 <= i < |applied| && applied[i] != value ==> applied[i] in r
    ensures forall i :: 0 <= i < |r| ==> r[i] in applied
    ensures IsSubsequence(r, applied)
  {
    FilterCounts(applied, (f: string) => f != value);
    Filter(applied, (f: string) => f != value)
  }
}
