/** The company list (Sidebar.jsx): a case-insensitive substring filter over the company names. */
module Sidebar {
  import Seqs
  import Text

  /** The filter's test for one company name. */
  predicate NameMatches(company: string, search: string) {
    Text.Contains(Text.Lower(company), Text.Lower(search))
  }

  function MatchFn(search: string): string -> bool {
    c => NameMatches(c, search)
  }

  /** `filteredCompanies`. */
  function FilteredCompanies(companies: seq<string>, search: string): (listed: seq<string>)
    ensures forall c :: c in listed <==> c in companies && NameMatches(c, search)
    ensures |listed| <= |companies|
  {
    Seqs.Filter(companies, MatchFn(search))
  }

  /** The listed companies keep their order in the full list, and each appears as often as there. */
  lemma FilteredKeepsOrder(companies: seq<string>, search: string)
    ensures Seqs.Subsequence(FilteredCompanies(companies, search), companies)
    ensures forall c :: c in FilteredCompanies(companies, search) ==>
      multiset(FilteredCompanies(companies, search))[c] == multiset(companies)[c]
  {
    Seqs.FilterSubsequence(companies, MatchFn(search));
    forall c | c in FilteredCompanies(companies, search)
      ensures multiset(FilteredCompanies(companies, search))[c] == multiset(companies)[c]
    {
      Seqs.FilterCount(companies, MatchFn(search), c);
    }
  }

  /** An empty search lists every company. */
  lemma EmptySearchListsAll(companies: seq<string>)
    ensures FilteredCompanies(companies, "") == companies
  {
    assert Text.Lower("") == "";
    forall c | c in companies ensures MatchFn("")(c) {
      Text.ContainsEmpty(Text.Lower(c));
    }
    Seqs.FilterKeepsAll(companies, MatchFn(""));
  }

  /** The case of the search does not matter. */
  lemma SearchCaseIgnored(companies: seq<string>, search: string)
    ensures FilteredCompanies(companies, Text.Lower(search)) == FilteredCompanies(companies, search)
  {
    Text.LowerIdempotent(search);
    Seqs.FilterCongruent(companies, MatchFn(Text.Lower(search)), MatchFn(search));
  }

  /** Filtering the filtered list again with the same search changes nothing. */
  lemma FilterTwice(companies: seq<string>, search: string)
    ensures FilteredCompanies(FilteredCompanies(companies, search), search) == FilteredCompanies(companies, search)
  {
    Seqs.FilterIdempotent(companies, MatchFn(search));
  }

  /** Whether "No companies found" is shown: the filtered list is empty. */
  predicate ShowsNoCompanies(companies: seq<string>, search: string) {
    |FilteredCompanies(companies, search)| == 0
  }

  /** The message shows exactly when no company name matches the search. */
  lemma NoCompaniesIff(companies: seq<string>, search: string)
    ensures ShowsNoCompanies(companies, search) <==> forall c :: c in companies ==> !NameMatches(c, search)
  {
    Seqs.FilterEmptyIff(companies, MatchFn(search));
  }
}
