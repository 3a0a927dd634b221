/** The site search: a case-insensitive title filter over four fixed entries,
    run only for queries longer than two characters. */
module Search {
  import opened Strings

  datatype SearchEntry = SearchEntry(title: string, url: string)

  /** The fixed entries `performSearch` filters. */
  const MockResults := [
    SearchEntry("Prior Authorization Process", "#platform"),
    SearchEntry("Clinical Evidence", "#evidence"),
    SearchEntry("ROI Calculator", "#impact"),
    SearchEntry("FHIR Integration", "#platform")]

  /** `item.title.toLowerCase().includes(query.toLowerCase())`. */
  predicate Matches(e: SearchEntry, query: string) {
    Contains(ToLower(e.title), ToLower(query))
  }

  /** `entries.filter(...)`: exactly the matching entries. */
  function Filter(entries: seq<SearchEntry>, query: string): (r: seq<SearchEntry>)
    ensures forall e :: e in r <==> e in entries && Matches(e, query)
    ensures |r| <= |entries|
  {
    if |entries| == 0 then []
    else (if Matches(entries[0], query) then [entries[0]] else []) + Filter(entries[1..], query)
  }

  /** `a` is `b` with some elements left out. */
  predicate IsSubsequence<T(==)>(a: seq<T>, b: seq<T>) {
    if |a| == 0 then true
    else if |b| == 0 then false
    else if a[0] == b[0] then IsSubsequence(a[1..], b[1..])
    else IsSubsequence(a, b[1..])
  }

  /** The filter keeps the entries in their original order. */
  lemma {:induction false} FilterSubsequence(entries: seq<SearchEntry>, query: string)
    ensures IsSubsequence(Filter(entries, query), entries)
  {
    if |entries| > 0 {
      FilterSubsequence(entries[1..], query);
      var rest := Filter(entries[1..], query);
      if Matches(entries[0], query) {
        assert Filter(entries, query) == [entries[0]] + rest;
        assert ([entries[0]] + rest)[1..] == rest;
      } else {
        assert Filter(entries, query) == rest;
        SubsequenceSkip(rest, entries);
      }
    }
  }

  /** Dropping the head of `b` keeps a subsequence of its tail one of `b`. */
  lemma {:induction false} SubsequenceSkip<T>(a: seq<T>, b: seq<T>)
    requires |b| > 0 && IsSubsequence(a, b[1..])
    ensures IsSubsequence(a, b)
    decreases |b|, |a|
  {
    if |a| > 0 && a[0] == b[0] {
      SubsequenceTail(a, b[1..]);
    }
  }

  /** A subsequence stays one when its head is dropped. */
  lemma {:induction false} SubsequenceTail<T>(a: seq<T>, b: seq<T>)
    requires |a| > 0 && IsSubsequence(a, b)
    ensures IsSubsequence(a[1..], b)
    decreases |b|, |a|
  {
    if a[0] == b[0] {
      if |a[1..]| > 0 {
        SubsequenceSkip(a[1..], b);
      }
    } else {
      SubsequenceTail(a, b[1..]);
      if |a[1..]| > 0 {
        SubsequenceSkip(a[1..], b);
      }
    }
  }

  /** `performSearch(query)`, without the rendering: the fixed entries whose
      lower-cased title contains the lower-cased query. */
  function PerformSearch(query: string): (r: seq<SearchEntry>)
    ensures forall e :: e in r <==> e in MockResults && Contains(ToLower(e.title), ToLower(query))
    ensures |r| <= |MockResults|
  {
    Filter(MockResults, query)
  }

  /** The filter does not see the query's case. */
  lemma SearchIgnoresCase(query: string)
    ensures PerformSearch(ToLower(query)) == PerformSearch(query)
  {
    ToLowerIdempotent(query);
    FilterSameMatches(MockResults, ToLower(query), query);
  }

  lemma {:induction false} FilterSameMatches(entries: seq<SearchEntry>, q1: string, q2: string)
    requires ToLower(q1) == ToLower(q2)
    ensures Filter(entries, q1) == Filter(entries, q2)
  {
    if |entries| > 0 {
      FilterSameMatches(entries[1..], q1, q2);
    }
  }

  /** What the results box shows after an input event. */
  datatype SearchView = Hidden | NoResults | Listed(results: seq<SearchEntry>)

  /** The input handler: the trimmed query is searched only when it has more
      than two characters; an empty result shows "No results found". */
  function OnSearchInput(value: string): (v: SearchView)
    ensures v == Hidden <==> |Trim(value)| <= 2
    ensures v == NoResults <==> |Trim(value)| > 2 && PerformSearch(Trim(value)) == []
    ensures v.Listed? ==> v.results == PerformSearch(Trim(value)) && |v.results| > 0
  {
    var query := Trim(value);
    if |query| > 2 then
      var results := PerformSearch(query);
      if |results| == 0 then NoResults else Listed(results)
    else Hidden
  }
}
