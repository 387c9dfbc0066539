/** The member directory page: the search and the industry/company
    filters, the company filter's reset when the industry changes, the
    avatar initials and the activity badge. */
module Members {
  import opened Wrappers
  import Text
  import Seqs
  import Search
  import Levels

  /** A member row as the page reads it, with the joined company's name. */
  datatype Member = Member(
    id: string,
    name: string,
    email: Option<string>,
    jobTitle: Option<string>,
    island: Option<string>,
    skills: Option<seq<string>>,
    linkedinUrl: Option<string>,
    githubUrl: Option<string>,
    bio: Option<string>,
    eventsAttended: int,
    activityLevel: string,
    companyId: Option<string>,
    industryId: Option<string>,
    companyName: Option<string>)

  /** `skills?.some(skill => ...includes(term))`. */
  predicate SkillMatches(skills: Option<seq<string>>, term: string) {
    skills.Some? && exists i :: 0 <= i < |skills.value| && Search.TextMatches(skills.value[i], term)
  }

  /** The search box: name, job title, any skill, company name or e-mail. */
  predicate MatchesSearch(m: Member, term: string) {
    || Search.TextMatches(m.name, term)
    || Search.OptionalMatches(m.jobTitle, term)
    || SkillMatches(m.skills, term)
    || Search.OptionalMatches(m.companyName, term)
    || Search.OptionalMatches(m.email, term)
  }

  /** A select filter: `'all'`, or strict equality with the row's id (an
      absent id never equals a selected one). */
  predicate MatchesSelect(selected: string, value: Option<string>) {
    selected == "all" || value == Some(selected)
  }

  predicate Keep(m: Member, term: string, industry: string, company: string) {
    MatchesSearch(m, term) && MatchesSelect(industry, m.industryId) && MatchesSelect(company, m.companyId)
  }

  /** An empty search matches every member, through the name. */
  lemma EmptySearchMatchesAll(members: seq<Member>)
    ensures forall i :: 0 <= i < |members| ==> MatchesSearch(members[i], "")
  {
    forall i | 0 <= i < |members| ensures MatchesSearch(members[i], "") {
      Search.EmptyTermMatches(members[i].name);
    }
  }

  /** `filteredMembers`: the members passing all three tests, in order. */
  function FilteredMembers(members: seq<Member>, term: string, industry: string, company: string): (r: seq<Member>)
    ensures Seqs.IsSubsequence(r, members)
    ensures forall i :: 0 <= i < |members| ==> (members[i] in r <==> Keep(members[i], term, industry, company))
    ensures industry != "all" ==> forall i :: 0 <= i < |r| ==> r[i].industryId == Some(industry)
    ensures company != "all" ==> forall i :: 0 <= i < |r| ==> r[i].companyId == Some(company)
    ensures term == "" && industry == "all" && company == "all" ==> r == members
  {
    EmptySearchMatchesAll(members);
    Seqs.Filter(members, m => Keep(m, term, industry, company))
  }

  /** The search is a case-insensitive substring test on each field. */
  lemma SearchIsSubstring(m: Member, term: string)
    ensures MatchesSearch(m, term) <==>
      || Search.OccursIgnoringCase(m.name, term)
      || (m.jobTitle.Some? && Search.OccursIgnoringCase(m.jobTitle.value, term))
      || (m.skills.Some? && exists i :: 0 <= i < |m.skills.value| && Search.OccursIgnoringCase(m.skills.value[i], term))
      || (m.companyName.Some? && Search.OccursIgnoringCase(m.companyName.value, term))
      || (m.email.Some? && Search.OccursIgnoringCase(m.email.value, term))
  {
    if m.skills.Some? {
      forall i | 0 <= i < |m.skills.value|
        ensures Search.TextMatches(m.skills.value[i], term) <==> Search.OccursIgnoringCase(m.skills.value[i], term)
      {
        Search.TextMatchesSpec(m.skills.value[i], term);
      }
    }
  }

  // ---------------------------------------------------------------------
  // Filter state
  // ---------------------------------------------------------------------

  /** A company offered by the company select. */
  datatype CompanyChoice = CompanyChoice(id: string, name: string, island: Option<string>)

  /** The filter controls: search text, selected industry and company, and
      the companies the company select offers. */
  datatype Filters = Filters(searchTerm: string, industry: string, company: string, companies: seq<CompanyChoice>)

  const InitialFilters := Filters("", "all", "all", [])

  /** Choosing an industry, with the effect that runs on the change: back to
      `'all'` clears the company list and the company filter; any other
      industry starts a fetch of its companies and changes nothing else. */
  function SelectIndustry(f: Filters, industry: string): (r: Filters)
    ensures r.industry == industry && r.searchTerm == f.searchTerm
    ensures industry == "all" ==> r.companies == [] && r.company == "all"
    ensures industry != "all" ==> r.companies == f.companies && r.company == f.company
  {
    if industry != "all" then f.(industry := industry)
    else f.(industry := industry, companies := [], company := "all")
  }

  /** The per-industry company fetch completing: on success the list is
      replaced and the company filter reset; a failure is only logged. */
  function CompaniesFetched(f: Filters, result: Result<seq<CompanyChoice>>): (r: Filters)
    ensures result.Success? ==> r.companies == result.value && r.company == "all"
    ensures result.Success? ==> r.industry == f.industry && r.searchTerm == f.searchTerm
    ensures result.Failure? ==> r == f
  {
    match result
    case Success(companies) => f.(companies := companies, company := "all")
    case Failure(_) => f
  }

  /** However the company filter was set, changing the industry leaves it at
      `'all'` once the change has taken effect, so the member list is then
      filtered by industry and search alone. */
  lemma IndustryChangeResetsCompany(f: Filters, industry: string, fetched: seq<CompanyChoice>, members: seq<Member>)
    ensures var g := if industry == "all" then SelectIndustry(f, industry)
                     else CompaniesFetched(SelectIndustry(f, industry), Success(fetched));
            && g.company == "all"
            && g.industry == industry
            && FilteredMembers(members, g.searchTerm, g.industry, g.company)
               == Seqs.Filter(members, m => MatchesSearch(m, f.searchTerm) && MatchesSelect(industry, m.industryId))
  {
    var g := if industry == "all" then SelectIndustry(f, industry)
             else CompaniesFetched(SelectIndustry(f, industry), Success(fetched));
    Seqs.FilterSameTest(members, m => Keep(m, g.searchTerm, g.industry, g.company),
                   m => MatchesSearch(m, f.searchTerm) && MatchesSelect(industry, m.industryId));
  }

  // ---------------------------------------------------------------------
  // Initials and activity
  // ---------------------------------------------------------------------

  predicate NonEmpty(w: string) {
    |w| > 0
  }

  /** `words.map(n => n[0]).join('')`: an empty word's `n[0]` is
      `undefined`, which `join` writes as nothing. */
  function FirstChars(words: seq<string>): (r: string)
    ensures |r| == |Seqs.Filter(words, NonEmpty)|
    ensures forall i :: 0 <= i < |r| ==> r[i] == Seqs.Filter(words, NonEmpty)[i][0]
  {
    if |words| == 0 then ""
    else if |words[0]| > 0 then [words[0][0]] + FirstChars(words[1..])
    else FirstChars(words[1..])
  }

  /** `getInitials(name)`: the first character of every space-separated word,
      upper-cased (ASCII letters only). */
  function Initials(name: string): (r: string)
    ensures var words := Seqs.Filter(Text.Split(name, ' '), NonEmpty);
            && |r| == |words|
            && forall i :: 0 <= i < |r| ==> r[i] == Text.UpperChar(words[i][0])
  {
    Text.Upper(FirstChars(Text.Split(name, ' ')))
  }

  /** No initial is a space, and there are at most one more initials than
      spaces in the name. */
  lemma InitialsShape(name: string)
    ensures ' ' !in Initials(name)
    ensures |Initials(name)| <= Text.Count(name, ' ') + 1
  {
    var words := Seqs.Filter(Text.Split(name, ' '), NonEmpty);
    var r := Initials(name);
    forall i | 0 <= i < |r| ensures r[i] != ' ' {
      assert words[i] in Text.Split(name, ' ');
      assert ' ' !in words[i];
    }
  }
}
