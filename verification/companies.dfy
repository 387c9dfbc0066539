/** The company directory page: its search over name, industry and island. */
module Companies {
  import opened Wrappers
  import Seqs
  import Search

  /** A company row as the page reads it, with the joined industry's name. */
  datatype Company = Company(
    id: string,
    name: string,
    website: Option<string>,
    island: Option<string>,
    location: Option<string>,
    industryId: Option<string>,
    memberCount: int,
    engagementLevel: string,
    companySize: Option<string>,
    industryName: Option<string>)

  /** The search box: company name, industry name or island. */
  predicate MatchesSearch(c: Company, term: string) {
    || Search.TextMatches(c.name, term)
    || Search.OptionalMatches(c.industryName, term)
    || Search.OptionalMatches(c.island, term)
  }

  /** `filteredCompanies`: the companies the search matches, in order; an
      empty search keeps them all. */
  function FilteredCompanies(companies: seq<Company>, term: string): (r: seq<Company>)
    ensures Seqs.IsSubsequence(r, companies)
    ensures forall i :: 0 <= i < |companies| ==> (companies[i] in r <==> MatchesSearch(companies[i], term))
    ensures term == "" ==> r == companies
  {
    EmptySearchMatchesAll(companies);
    Seqs.Filter(companies, c => MatchesSearch(c, term))
  }

  lemma EmptySearchMatchesAll(companies: seq<Company>)
    ensures forall i :: 0 <= i < |companies| ==> MatchesSearch(companies[i], "")
  {
    forall i | 0 <= i < |companies| ensures MatchesSearch(companies[i], "") {
      Search.EmptyTermMatches(companies[i].name);
    }
  }

  /** The search is a case-insensitive substring test on each field. */
  lemma SearchIsSubstring(c: Company, term: string)
    ensures MatchesSearch(c, term) <==>
      || Search.OccursIgnoringCase(c.name, term)
      || (c.industryName.Some? && Search.OccursIgnoringCase(c.industryName.value, term))
      || (c.island.Some? && Search.OccursIgnoringCase(c.island.value, term))
  {
  }

  /** A longer search term keeps no company a shorter term it extends
      dropped: narrowing the search only narrows the list. */
  lemma {:induction false} NarrowingSearch(companies: seq<Company>, term: string, more: string)
    ensures forall i :: 0 <= i < |companies| && companies[i] in FilteredCompanies(companies, term + more)
              ==> companies[i] in FilteredCompanies(companies, term)
  {
    forall i | 0 <= i < |companies| && MatchesSearch(companies[i], term + more)
      ensures MatchesSearch(companies[i], term)
    {
      var c := companies[i];
      Search.NarrowerTerm(c.name, term, more);
      if c.industryName.Some? {
        Search.NarrowerTerm(c.industryName.value, term, more);
      }
      if c.island.Some? {
        Search.NarrowerTerm(c.island.value, term, more);
      }
    }
  }
}
