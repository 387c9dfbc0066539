/** The text coercions the edit dialogs apply when loading a record into a
    form and when saving the form back. */
module FormFields {
  import opened Wrappers

  /** `x || ''` for an optional text field. */
  function OrEmpty(v: Option<string>): (r: string)
    ensures v.Some? ==> r == v.value
    ensures v.None? ==> r == ""
  {
    v.GetOr("")
  }

  /** `x || null`: the empty string is stored as null. */
  function NullIfEmpty(s: string): (r: Option<string>)
    ensures r.None? <==> s == ""
    ensures r.Some? ==> r.value == s
  {
    if s == "" then None else Some(s)
  }

  /** A stored text as a save without edits writes it back: empty becomes
      null, anything else is kept. */
  function Normalized(v: Option<string>): (r: Option<string>)
    ensures r.Some? ==> r.value != ""
    ensures v.Some? && v.value != "" ==> r == v
  {
    if v == Some("") then None else v
  }

  /** Loading a field into the form and saving it back normalises it, and
      doing so twice changes nothing more. */
  lemma LoadSaveNormalizes(v: Option<string>)
    ensures NullIfEmpty(OrEmpty(v)) == Normalized(v)
    ensures NullIfEmpty(OrEmpty(NullIfEmpty(OrEmpty(v)))) == NullIfEmpty(OrEmpty(v))
  {
  }

  /** A form text saved and loaded again is unchanged. */
  lemma SaveLoadKeeps(s: string)
    ensures OrEmpty(NullIfEmpty(s)) == s
  {
  }
}

/** The member edit dialog: the form loaded from a member and the update
    sent on save. */
module EditMember {
  import opened Wrappers
  import opened FormFields
  import Text
  import Seqs
  import Members

  /** The form's fields; the skills are one comma-separated text. */
  datatype Form = Form(
    name: string,
    email: string,
    jobTitle: string,
    island: string,
    linkedinUrl: string,
    githubUrl: string,
    bio: string,
    activityLevel: string,
    skills: string)

  /** `skills?.join(', ') || ''`. */
  function SkillsText(skills: Option<seq<string>>): string {
    if skills.Some? then Text.Join(skills.value, ", ") else ""
  }

  /** The form's `defaultValues`, from the member the dialog is created with. */
  function DefaultValues(member: Option<Members.Member>): Form {
    match member
    case None => Form("", "", "", "", "", "", "", "Medium", "")
    case Some(m) =>
      Form(m.name, OrEmpty(m.email), OrEmpty(m.jobTitle), OrEmpty(m.island), OrEmpty(m.linkedinUrl),
           OrEmpty(m.githubUrl), OrEmpty(m.bio), if m.activityLevel == "" then "Medium" else m.activityLevel,
           SkillsText(m.skills))
  }

  /** The `reset` run whenever the member changes: like the defaults, except
      that the activity level is taken as it is. */
  function ResetValues(m: Members.Member): (r: Form)
    ensures m.activityLevel != "" ==> r == DefaultValues(Some(m))
    ensures r.activityLevel == m.activityLevel
  {
    Form(m.name, OrEmpty(m.email), OrEmpty(m.jobTitle), OrEmpty(m.island), OrEmpty(m.linkedinUrl),
         OrEmpty(m.githubUrl), OrEmpty(m.bio), m.activityLevel, SkillsText(m.skills))
  }

  predicate NonEmpty(s: string) {
    |s| > 0
  }

  /** `skills.split(',').map(s => s.trim()).filter(s => s.length > 0)`. */
  function ParseSkills(text: string): (r: seq<string>)
    ensures |r| <= Text.Count(text, ',') + 1
    ensures forall i :: 0 <= i < |r| ==> |r[i]| > 0 && Text.IsTrimmed(r[i]) && ',' !in r[i]
    ensures var trimmed := Text.TrimAll(Text.Split(text, ','));
            && Seqs.IsSubsequence(r, trimmed)
            && (forall i :: 0 <= i < |trimmed| ==> (trimmed[i] in r <==> trimmed[i] != ""))
            && forall i :: 0 <= i < |trimmed| ==>
                 multiset(r)[trimmed[i]] == if trimmed[i] != "" then multiset(trimmed)[trimmed[i]] else 0
  {
    var pieces := Text.Split(text, ',');
    var trimmed := Text.TrimAll(pieces);
    forall i | 0 <= i < |trimmed| ensures ',' !in trimmed[i] {
      Text.TrimKeepsChars(pieces[i]);
    }
    DropEmpty(trimmed)
  }

  /** `filter(s => s.length > 0)`: the non-empty entries, in order, each as
      often as it occurs. */
  function DropEmpty(pieces: seq<string>): (r: seq<string>)
    ensures Seqs.IsSubsequence(r, pieces)
    ensures forall i :: 0 <= i < |pieces| ==> (pieces[i] in r <==> pieces[i] != "")
    ensures forall i :: 0 <= i < |pieces| ==>
              multiset(r)[pieces[i]] == if pieces[i] != "" then multiset(pieces)[pieces[i]] else 0
  {
    Seqs.FilterMultiplicity(pieces, NonEmpty);
    Seqs.Filter(pieces, NonEmpty)
  }

  /** The fields an update writes. */
  datatype Update = Update(
    name: string,
    email: Option<string>,
    jobTitle: Option<string>,
    island: Option<string>,
    linkedinUrl: Option<string>,
    githubUrl: Option<string>,
    bio: Option<string>,
    activityLevel: string,
    skills: seq<string>)

  /** `onSubmit`: nothing without a member; otherwise the update for the
      member's id, with empty optional texts stored as null and the skills
      parsed from the text. */
  function Submit(member: Option<Members.Member>, data: Form): (r: Option<(string, Update)>)
    ensures member.None? <==> r.None?
    ensures r.Some? ==> r.value.0 == member.value.id
    ensures r.Some? ==> r.value.1.name == data.name && r.value.1.activityLevel == data.activityLevel
    ensures r.Some? ==> r.value.1.email == NullIfEmpty(data.email) && r.value.1.bio == NullIfEmpty(data.bio)
    ensures r.Some? ==> r.value.1.jobTitle == NullIfEmpty(data.jobTitle) && r.value.1.island == NullIfEmpty(data.island)
    ensures r.Some? ==> r.value.1.linkedinUrl == NullIfEmpty(data.linkedinUrl) && r.value.1.githubUrl == NullIfEmpty(data.githubUrl)
    ensures r.Some? ==> r.value.1.skills == ParseSkills(data.skills)
  {
    match member
    case None => None
    case Some(m) =>
      Some((m.id, Update(data.name, NullIfEmpty(data.email), NullIfEmpty(data.jobTitle), NullIfEmpty(data.island),
                         NullIfEmpty(data.linkedinUrl), NullIfEmpty(data.githubUrl), NullIfEmpty(data.bio),
                         data.activityLevel, ParseSkills(data.skills))))
  }

  /** Skills the form can represent: non-empty, trimmed, comma-free. */
  predicate WellFormedSkills(skills: Option<seq<string>>) {
    skills.Some? ==>
      forall i :: 0 <= i < |skills.value| ==>
        |skills.value[i]| > 0 && Text.IsTrimmed(skills.value[i]) && ',' !in skills.value[i]
  }

  /** The skills text loaded into the form reads back as the skills, a
      missing list as no skills. */
  lemma SkillsRoundTrip(skills: Option<seq<string>>)
    requires WellFormedSkills(skills)
    ensures ParseSkills(SkillsText(skills)) == skills.GetOr([])
  {
    if skills.Some? && |skills.value| > 0 {
      var s := skills.value;
      Text.SplitCommaSpaceJoin(s);
      Text.TrimPieces(s);
    } else {
      Text.SplitNoSeparator("", ',');
      Text.TrimTrimmed("");
      assert Text.TrimAll([""]) == [""];
      assert Seqs.Filter([""], NonEmpty) == [];
      assert skills.Some? ==> Text.Join(skills.value, ", ") == "";
    }
  }

  /** Opening the dialog on a member and saving without edits writes back
      every field as it was, except that empty texts become null. */
  lemma SaveUnchanged(m: Members.Member)
    requires WellFormedSkills(m.skills)
    ensures Submit(Some(m), ResetValues(m)) ==
      Some((m.id, Update(m.name, Normalized(m.email), Normalized(m.jobTitle), Normalized(m.island),
                         Normalized(m.linkedinUrl), Normalized(m.githubUrl), Normalized(m.bio),
                         m.activityLevel, m.skills.GetOr([]))))
  {
    SkillsRoundTrip(m.skills);
  }
}

/** The company edit dialog: the form loaded from a company and the update
    sent on save. */
module EditCompany {
  import opened Wrappers
  import opened FormFields

  /** A company as the dialog receives it. */
  datatype Company = Company(
    id: string,
    name: string,
    website: Option<string>,
    island: Option<string>,
    location: Option<string>,
    industryId: Option<string>,
    memberCount: int,
    engagementLevel: string,
    companySize: Option<string>,
    employeeCount: Option<int>)

  datatype Form = Form(
    name: string,
    website: string,
    island: string,
    location: string,
    engagementLevel: string,
    companySize: string,
    employeeCount: int)

  /** `employee_count || 0`. */
  function CountOrZero(v: Option<int>): (r: int)
    ensures v.Some? ==> r == v.value
    ensures v.None? ==> r == 0
  {
    v.GetOr(0)
  }

  /** The form's `defaultValues`. */
  function DefaultValues(company: Option<Company>): Form {
    match company
    case None => Form("", "", "", "", "Medium", "", 0)
    case Some(c) =>
      Form(c.name, OrEmpty(c.website), OrEmpty(c.island), OrEmpty(c.location),
           if c.engagementLevel == "" then "Medium" else c.engagementLevel,
           OrEmpty(c.companySize), CountOrZero(c.employeeCount))
  }

  /** The `reset` run whenever the company changes: like the defaults, except
      that the engagement level is taken as it is. */
  function ResetValues(c: Company): (r: Form)
    ensures c.engagementLevel != "" ==> r == DefaultValues(Some(c))
    ensures r.engagementLevel == c.engagementLevel
  {
    Form(c.name, OrEmpty(c.website), OrEmpty(c.island), OrEmpty(c.location), c.engagementLevel,
         OrEmpty(c.companySize), CountOrZero(c.employeeCount))
  }

  datatype Update = Update(
    name: string,
    website: Option<string>,
    island: Option<string>,
    location: Option<string>,
    engagementLevel: string,
    companySize: Option<string>,
    employeeCount: int)

  /** `onSubmit`: nothing without a company; otherwise the update for its id. */
  function Submit(company: Option<Company>, data: Form): (r: Option<(string, Update)>)
    ensures company.None? <==> r.None?
    ensures r.Some? ==> r.value.0 == company.value.id
    ensures r.Some? ==> r.value.1.name == data.name && r.value.1.engagementLevel == data.engagementLevel
    ensures r.Some? ==> r.value.1.employeeCount == data.employeeCount
    ensures r.Some? ==> r.value.1.website == NullIfEmpty(data.website) && r.value.1.island == NullIfEmpty(data.island)
    ensures r.Some? ==> r.value.1.location == NullIfEmpty(data.location) && r.value.1.companySize == NullIfEmpty(data.companySize)
  {
    match company
    case None => None
    case Some(c) =>
      Some((c.id, Update(data.name, NullIfEmpty(data.website), NullIfEmpty(data.island),
                         NullIfEmpty(data.location), data.engagementLevel,
                         NullIfEmpty(data.companySize), data.employeeCount)))
  }

  /** Saving without edits writes back every field as it was, empty texts as
      null and a missing employee count as 0. */
  lemma SaveUnchanged(c: Company)
    ensures Submit(Some(c), ResetValues(c)) ==
      Some((c.id, Update(c.name, Normalized(c.website), Normalized(c.island), Normalized(c.location),
                         c.engagementLevel, Normalized(c.companySize), c.employeeCount.GetOr(0))))
  {
  }
}
