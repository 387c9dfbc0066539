/** The bulk upload dialog: editable lists of company and member rows, the
    comma-separated skills input, and the submission that keeps the rows
    with a name and an industry. */
module BulkUpload {
  import opened Wrappers
  import Text
  import Seqs
  import Numbers

  /** A company row of the form; every field is text. */
  datatype CompanyRow = CompanyRow(
    name: string,
    website: string,
    location: string,
    island: string,
    companySize: string,
    engagementLevel: string,
    industryId: string)

  /** A member row of the form; the skills are a list. */
  datatype MemberRow = MemberRow(
    name: string,
    email: string,
    jobTitle: string,
    island: string,
    bio: string,
    linkedinUrl: string,
    githubUrl: string,
    skills: seq<string>,
    activityLevel: string,
    companyId: string,
    industryId: string)

  const BlankCompany := CompanyRow("", "", "", "", "Small (1-50)", "Medium", "")
  const BlankMember := MemberRow("", "", "", "", "", "", "", [], "Medium", "", "")

  // ---------------------------------------------------------------------
  // Row lists
  // ---------------------------------------------------------------------

  /** `addCompanyRow` / `addMemberRow`: a blank row at the end. */
  function AddRow<T>(rows: seq<T>, blank: T): (r: seq<T>)
    ensures |r| == |rows| + 1 && r[..|rows|] == rows && r[|rows|] == blank
  {
    rows + [blank]
  }

  /** `removeCompanyRow` / `removeMemberRow`: drop the row at `index`,
      unless it is the only row. */
  function RemoveRow<T>(rows: seq<T>, index: int): (r: seq<T>)
    ensures |rows| > 1 && 0 <= index < |rows| ==> r == rows[..index] + rows[index + 1..]
    ensures |rows| <= 1 || !(0 <= index < |rows|) ==> r == rows
    ensures |rows| >= 1 ==> |r| >= 1
  {
    if |rows| > 1 then Seqs.WithoutIndex(rows, index) else rows
  }

  /** `updated[index] = row` on a copy. */
  function ReplaceRow<T>(rows: seq<T>, index: int, row: T): (r: seq<T>)
    requires 0 <= index < |rows|
    ensures |r| == |rows| && r[index] == row
    ensures forall j :: 0 <= j < |rows| && j != index ==> r[j] == rows[j]
  {
    rows[index := row]
  }

  /** An edit of the row list. */
  datatype RowOp = Add | Remove(index: int)

  function ApplyOps<T>(rows: seq<T>, ops: seq<RowOp>, blank: T): seq<T>
    decreases |ops|
  {
    if |ops| == 0 then rows
    else
      var next := match ops[0]
        case Add => AddRow(rows, blank)
        case Remove(i) => RemoveRow(rows, i);
      ApplyOps(next, ops[1..], blank)
  }

  /** Starting from the dialog's one blank row, no sequence of additions and
      removals empties the list. */
  lemma {:induction false} RowsNeverEmpty<T>(rows: seq<T>, ops: seq<RowOp>, blank: T)
    requires |rows| >= 1
    ensures |ApplyOps(rows, ops, blank)| >= 1
    decreases |ops|
  {
    if |ops| > 0 {
      var next := match ops[0]
        case Add => AddRow(rows, blank)
        case Remove(i) => RemoveRow(rows, i);
      RowsNeverEmpty(next, ops[1..], blank);
    }
  }

  // ---------------------------------------------------------------------
  // Field updates
  // ---------------------------------------------------------------------

  datatype CompanyField = Name | Website | Location | Island | CompanySize | EngagementLevel | IndustryId

  function GetCompanyField(row: CompanyRow, f: CompanyField): string {
    match f
    case Name => row.name
    case Website => row.website
    case Location => row.location
    case Island => row.island
    case CompanySize => row.companySize
    case EngagementLevel => row.engagementLevel
    case IndustryId => row.industryId
  }

  /** `{ ...row, [field]: value }`. */
  function SetCompanyField(row: CompanyRow, f: CompanyField, v: string): (r: CompanyRow)
    ensures GetCompanyField(r, f) == v
    ensures forall g :: g != f ==> GetCompanyField(r, g) == GetCompanyField(row, g)
  {
    match f
    case Name => row.(name := v)
    case Website => row.(website := v)
    case Location => row.(location := v)
    case Island => row.(island := v)
    case CompanySize => row.(companySize := v)
    case EngagementLevel => row.(engagementLevel := v)
    case IndustryId => row.(industryId := v)
  }

  /** `updateCompanyData(index, field, value)`. */
  function UpdateCompanyData(rows: seq<CompanyRow>, index: int, f: CompanyField, v: string): (r: seq<CompanyRow>)
    requires 0 <= index < |rows|
    ensures |r| == |rows|
    ensures forall j :: 0 <= j < |rows| && j != index ==> r[j] == rows[j]
    ensures GetCompanyField(r[index], f) == v
    ensures forall g :: g != f ==> GetCompanyField(r[index], g) == GetCompanyField(rows[index], g)
  {
    ReplaceRow(rows, index, SetCompanyField(rows[index], f, v))
  }

  /** The text fields of a member row. */
  datatype MemberField =
    | MName | MEmail | MJobTitle | MIsland | MBio | MLinkedinUrl | MGithubUrl
    | MActivityLevel | MCompanyId | MIndustryId

  function GetMemberField(row: MemberRow, f: MemberField): string {
    match f
    case MName => row.name
    case MEmail => row.email
    case MJobTitle => row.jobTitle
    case MIsland => row.island
    case MBio => row.bio
    case MLinkedinUrl => row.linkedinUrl
    case MGithubUrl => row.githubUrl
    case MActivityLevel => row.activityLevel
    case MCompanyId => row.companyId
    case MIndustryId => row.industryId
  }

  function SetMemberField(row: MemberRow, f: MemberField, v: string): (r: MemberRow)
    ensures GetMemberField(r, f) == v
    ensures forall g :: g != f ==> GetMemberField(r, g) == GetMemberField(row, g)
    ensures r.skills == row.skills
  {
    match f
    case MName => row.(name := v)
    case MEmail => row.(email := v)
    case MJobTitle => row.(jobTitle := v)
    case MIsland => row.(island := v)
    case MBio => row.(bio := v)
    case MLinkedinUrl => row.(linkedinUrl := v)
    case MGithubUrl => row.(githubUrl := v)
    case MActivityLevel => row.(activityLevel := v)
    case MCompanyId => row.(companyId := v)
    case MIndustryId => row.(industryId := v)
  }

  /** `updateMemberData(index, field, value)` for a text field. */
  function UpdateMemberData(rows: seq<MemberRow>, index: int, f: MemberField, v: string): (r: seq<MemberRow>)
    requires 0 <= index < |rows|
    ensures |r| == |rows|
    ensures forall j :: 0 <= j < |rows| && j != index ==> r[j] == rows[j]
    ensures GetMemberField(r[index], f) == v && r[index].skills == rows[index].skills
    ensures forall g :: g != f ==> GetMemberField(r[index], g) == GetMemberField(rows[index], g)
  {
    ReplaceRow(rows, index, SetMemberField(rows[index], f, v))
  }

  /** `updateMemberData(index, 'skills', list)`. */
  function UpdateMemberSkills(rows: seq<MemberRow>, index: int, skills: seq<string>): (r: seq<MemberRow>)
    requires 0 <= index < |rows|
    ensures |r| == |rows|
    ensures forall j :: 0 <= j < |rows| && j != index ==> r[j] == rows[j]
    ensures r[index] == rows[index].(skills := skills)
  {
    ReplaceRow(rows, index, rows[index].(skills := skills))
  }

  // ---------------------------------------------------------------------
  // Skills input
  // ---------------------------------------------------------------------

  /** The skills input shows the list joined with `", "`. */
  function SkillsText(skills: seq<string>): string {
    Text.Join(skills, ", ")
  }

  /** Typing into the skills input: split at every comma, trim each piece.
      Empty pieces are kept. */
  function ParseSkillsInput(text: string): (r: seq<string>)
    ensures |r| == Text.Count(text, ',') + 1
    ensures forall i :: 0 <= i < |r| ==> Text.IsTrimmed(r[i]) && ',' !in r[i]
    ensures var pieces := Text.Split(text, ',');
            |r| == |pieces| && forall i :: 0 <= i < |r| ==> r[i] == Text.Trim(pieces[i])
  {
    var pieces := Text.Split(text, ',');
    var r := Text.TrimAll(pieces);
    TrimmedPiecesHaveNoComma(pieces, r);
    r
  }

  lemma TrimmedPiecesHaveNoComma(pieces: seq<string>, r: seq<string>)
    requires forall i :: 0 <= i < |pieces| ==> ',' !in pieces[i]
    requires |r| == |pieces| && forall i :: 0 <= i < |r| ==> r[i] == Text.Trim(pieces[i])
    ensures forall i :: 0 <= i < |r| ==> ',' !in r[i]
  {
    forall i | 0 <= i < |r| ensures ',' !in r[i] {
      Text.TrimKeepsChars(pieces[i]);
    }
  }

  /** A non-empty list of trimmed, comma-free skills survives being shown in
      the input and read back. Other typed text is normalised on the next
      render: "React " shows as "React" and "a,  b" as "a, b". */
  lemma SkillsRoundTrip(skills: seq<string>)
    requires |skills| > 0
    requires forall i :: 0 <= i < |skills| ==> Text.IsTrimmed(skills[i]) && ',' !in skills[i]
    ensures ParseSkillsInput(SkillsText(skills)) == skills
  {
    Text.SplitCommaSpaceJoin(skills);
    Text.TrimPieces(skills);
  }

  /** An empty skills list is shown as an empty input, which reads back as
      one empty skill. */
  lemma EmptySkillsReadBack()
    ensures ParseSkillsInput(SkillsText([])) == [""]
  {
    Text.SplitNoSeparator("", ',');
    Text.TrimTrimmed("");
  }

  // ---------------------------------------------------------------------
  // Submission
  // ---------------------------------------------------------------------

  predicate ValidCompany(r: CompanyRow) {
    Text.Trim(r.name) != "" && r.industryId != ""
  }

  predicate ValidMember(r: MemberRow) {
    Text.Trim(r.name) != "" && r.industryId != ""
  }

  /** The rows inserted for one submission. */
  datatype Upload = CompanyUpload(companies: seq<CompanyRow>) | MemberUpload(members: seq<MemberRow>)

  const NoCompanyError := "Please fill in at least one company with name and industry"
  const NoMemberError := "Please fill in at least one member with name and industry"

  /** The validation half of `handleSubmit`: on the companies tab the company
      rows with a non-blank name and an industry, on any other tab the member
      rows likewise, unchanged, in order and each as often as it was entered;
      an error when there are none. */
  function PrepareUpload(tab: string, companies: seq<CompanyRow>, members: seq<MemberRow>): (r: Result<Upload>)
    ensures tab == "companies" && r.Success? ==>
              r.value.CompanyUpload? && Seqs.IsSubsequence(r.value.companies, companies)
              && (forall i :: 0 <= i < |companies| ==> (companies[i] in r.value.companies <==> ValidCompany(companies[i])))
              && forall i :: 0 <= i < |companies| ==>
                   multiset(r.value.companies)[companies[i]] == if ValidCompany(companies[i]) then multiset(companies)[companies[i]] else 0
    ensures tab != "companies" && r.Success? ==>
              r.value.MemberUpload? && Seqs.IsSubsequence(r.value.members, members)
              && (forall i :: 0 <= i < |members| ==> (members[i] in r.value.members <==> ValidMember(members[i])))
              && forall i :: 0 <= i < |members| ==>
                   multiset(r.value.members)[members[i]] == if ValidMember(members[i]) then multiset(members)[members[i]] else 0
    ensures tab == "companies" ==>
              (r.Failure? <==> forall i :: 0 <= i < |companies| ==> !ValidCompany(companies[i]))
    ensures tab != "companies" ==>
              (r.Failure? <==> forall i :: 0 <= i < |members| ==> !ValidMember(members[i]))
    ensures r.Failure? ==> r.error == (if tab == "companies" then NoCompanyError else NoMemberError)
  {
    Seqs.FilterMultiplicity(companies, ValidCompany);
    Seqs.FilterMultiplicity(members, ValidMember);
    if tab == "companies" then
      var valid := Seqs.Filter(companies, ValidCompany);
      if |valid| == 0 then Failure(NoCompanyError) else Success(CompanyUpload(valid))
    else
      var valid := Seqs.Filter(members, ValidMember);
      if |valid| == 0 then Failure(NoMemberError) else Success(MemberUpload(valid))
  }

  /** A toast notification. */
  datatype Toast = Toast(title: string, description: string, destructive: bool)

  /** What a submission ends in: the rows sent, the toast, and whether the
      dialog closed (telling the page to refetch). */
  datatype Outcome = Outcome(sent: Option<Upload>, toast: Toast, closed: bool)

  const FallbackError := "Failed to upload data. Please try again."

  /** `handleSubmit`, with `backendError` the insert's error message, if it
      fails. */
  function Submit(tab: string, companies: seq<CompanyRow>, members: seq<MemberRow>, backendError: Option<string>): (r: Outcome)
    ensures r.closed <==> PrepareUpload(tab, companies, members).Success? && backendError.None?
    ensures r.toast.destructive <==> !r.closed
    ensures r.sent.Some? <==> PrepareUpload(tab, companies, members).Success?
    ensures PrepareUpload(tab, companies, members).Failure? ==>
              r.toast.description == PrepareUpload(tab, companies, members).error
  {
    match PrepareUpload(tab, companies, members)
    case Failure(msg) => Outcome(None, Toast("Error", msg, true), false)
    case Success(upload) =>
      match backendError
      case Some(msg) => Outcome(Some(upload), Toast("Error", if msg == "" then FallbackError else msg, true), false)
      case None =>
        var description := match upload
          case CompanyUpload(rows) => Numbers.IntToString(|rows|) + " companies uploaded successfully."
          case MemberUpload(rows) => Numbers.IntToString(|rows|) + " members uploaded successfully.";
        Outcome(Some(upload), Toast("Success!", description, false), true)
  }

  /** The blank first row alone is never uploaded: it has no name. */
  lemma BlankFormRejected(tab: string)
    ensures PrepareUpload(tab, [BlankCompany], [BlankMember]).Failure?
  {
    Text.TrimTrimmed("");
  }
}
