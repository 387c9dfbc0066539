/** The industries page: search, totals, the member-share bar, the
    add/edit dialog selection and the delete confirmation. */
module Industries {
  import opened Wrappers
  import Seqs
  import Search
  import Stats

  /** An industry row. */
  datatype Industry = Industry(
    id: string,
    name: string,
    description: string,
    memberCount: int,
    companyCount: int,
    growthRate: real,
    color: string,
    icon: string)

  /** The search box: industry name or description. */
  predicate MatchesSearch(i: Industry, term: string) {
    Search.TextMatches(i.name, term) || Search.TextMatches(i.description, term)
  }

  /** `filteredIndustries`. */
  function FilteredIndustries(industries: seq<Industry>, term: string): (r: seq<Industry>)
    ensures Seqs.IsSubsequence(r, industries)
    ensures forall i :: 0 <= i < |industries| ==> (industries[i] in r <==> MatchesSearch(industries[i], term))
    ensures term == "" ==> r == industries
  {
    EmptySearchMatchesAll(industries);
    Seqs.Filter(industries, x => MatchesSearch(x, term))
  }

  lemma EmptySearchMatchesAll(industries: seq<Industry>)
    ensures forall i :: 0 <= i < |industries| ==> MatchesSearch(industries[i], "")
  {
    forall i | 0 <= i < |industries| ensures MatchesSearch(industries[i], "") {
      Search.EmptyTermMatches(industries[i].name);
    }
  }

  function MemberCount(i: Industry): int {
    i.memberCount
  }

  function CompanyCount(i: Industry): int {
    i.companyCount
  }

  /** `totalMembers` and `totalCompanies`: the sums of the member and
      company counts. */
  function Totals(industries: seq<Industry>): (r: (int, int))
  {
    (Seqs.Sum(industries, MemberCount), Seqs.Sum(industries, CompanyCount))
  }

  /** With no negative counts, no industry holds more than the total, and
      the total is the industry's count plus everyone else's. */
  lemma TotalsBoundEach(industries: seq<Industry>, i: int)
    requires forall j :: 0 <= j < |industries| ==> industries[j].memberCount >= 0
    requires 0 <= i < |industries|
    ensures 0 <= industries[i].memberCount <= Totals(industries).0
    ensures Totals(industries).0
            == industries[i].memberCount + Totals(industries[..i] + industries[i + 1..]).0
  {
    Seqs.SumBoundsTerm(industries, MemberCount, i);
    Seqs.SumAppend(industries[..i], industries[i..], MemberCount);
    Seqs.SumFront(industries[i..], MemberCount);
    assert industries[..i] + industries[i..] == industries;
    assert industries[i..][1..] == industries[i + 1..];
    Seqs.SumAppend(industries[..i], industries[i + 1..], MemberCount);
  }

  /** The width, in percent, of an industry's member bar:
      `Math.min((count / total) * 100 * 5, 100)`. */
  function BarWidth(count: int, total: int): (r: Stats.Num)
  {
    Stats.Min(Stats.Scale(Stats.Percentage(count, total), 5.0), 100.0)
  }

  /** With members on the page, every bar has a width between 0 and 100,
      and it is full exactly when the industry holds at least a fifth of all
      members; otherwise it is five times the industry's share. */
  lemma BarWidthSpec(count: int, total: int)
    requires 0 <= count && 0 < total
    ensures BarWidth(count, total).Finite?
    ensures 0.0 <= BarWidth(count, total).value <= 100.0
    ensures BarWidth(count, total).value == 100.0 <==> count * 5 >= total
    ensures count * 5 < total ==>
              BarWidth(count, total).value * total as real == count as real * 500.0
  {
    var c, t := count as real, total as real;
    var v := Stats.Percentage(count, total).value;
    var w := v * 5.0;
    FiveTimes(v, t, c);
    BarRange(w, t, c);
  }

  /** Five times a share of 100. */
  lemma FiveTimes(v: real, t: real, c: real)
    requires v * t == c * 100.0
    ensures (v * 5.0) * t == c * 500.0
  {
  }

  /** A width with `w * t == c * 500` is non-negative, and at least 100
      exactly when `5 * c >= t`. */
  lemma BarRange(w: real, t: real, c: real)
    requires t > 0.0 && c >= 0.0 && w * t == c * 500.0
    ensures w >= 0.0
    ensures w >= 100.0 <==> c * 5.0 >= t
  {
    if w >= 100.0 {
      assert w * t >= 100.0 * t;
    } else {
      assert w * t < 100.0 * t;
    }
  }

  /** With no members at all the bar's width is NaN (`0 / 0`). */
  lemma BarWidthNoMembers()
    ensures BarWidth(0, 0) == Stats.NaN
  {
  }

  // ---------------------------------------------------------------------
  // Dialog selection
  // ---------------------------------------------------------------------

  datatype Mode = Add | Edit

  /** What the page passes to the add/edit dialog. */
  datatype DialogProps = DialogProps(open: bool, industry: Option<Industry>, mode: Mode)

  const InitialDialogProps := DialogProps(false, None, Add)

  /** `handleAddIndustry`. */
  function AddIndustry(p: DialogProps): (r: DialogProps)
    ensures r.open && r.industry.None? && r.mode == Add
  {
    DialogProps(true, None, Add)
  }

  /** `handleEditIndustry`. */
  function EditIndustry(p: DialogProps, industry: Industry): (r: DialogProps)
    ensures r.open && r.industry == Some(industry) && r.mode == Edit
  {
    DialogProps(true, Some(industry), Edit)
  }

  // ---------------------------------------------------------------------
  // Deleting
  // ---------------------------------------------------------------------

  /** A toast notification. */
  datatype Toast = Toast(title: string, description: string, destructive: bool)

  /** The confirmation dialog and the industry it is about. */
  datatype DeleteState = DeleteState(open: bool, target: Option<Industry>)

  /** What confirming does besides changing the state: the id sent to the
      backend for deletion, the toast shown, and whether the list is
      fetched again. */
  datatype DeleteEffect = DeleteEffect(deleted: Option<string>, toast: Option<Toast>, refetch: bool)

  const DeletedToast := Toast("Success!", "Industry deleted successfully.", false)
  const DeleteFailedToast := Toast("Error", "Failed to delete industry. Please try again.", true)

  /** `handleDeleteIndustry`: remember the industry and ask. */
  function RequestDelete(s: DeleteState, industry: Industry): (r: DeleteState)
    ensures r.open && r.target == Some(industry)
  {
    DeleteState(true, Some(industry))
  }

  /** `confirmDelete`, with `backendFails` the backend's answer. Without a
      target nothing happens; otherwise the target's id is sent, the toast
      reports the outcome, the list is refetched only on success, and in
      either case the dialog closes and forgets its target. */
  function ConfirmDelete(s: DeleteState, backendFails: bool): (r: (DeleteState, DeleteEffect))
    ensures s.target.None? ==> r == (s, DeleteEffect(None, None, false))
    ensures s.target.Some? ==> r.0 == DeleteState(false, None)
    ensures s.target.Some? ==> r.1.deleted == Some(s.target.value.id)
    ensures s.target.Some? ==> (r.1.refetch <==> !backendFails)
    ensures s.target.Some? ==> r.1.toast == Some(if backendFails then DeleteFailedToast else DeletedToast)
  {
    match s.target
    case None => (s, DeleteEffect(None, None, false))
    case Some(industry) =>
      var toast := if backendFails then DeleteFailedToast else DeletedToast;
      (DeleteState(false, None), DeleteEffect(Some(industry.id), Some(toast), !backendFails))
  }

  /** Asking and confirming deletes exactly the industry asked about, and a
      second confirmation deletes nothing more. */
  lemma DeleteOnce(s: DeleteState, industry: Industry, fails1: bool, fails2: bool)
    ensures var (s1, e1) := ConfirmDelete(RequestDelete(s, industry), fails1);
            && e1.deleted == Some(industry.id)
            && !s1.open
            && ConfirmDelete(s1, fails2).1.deleted.None?
            && ConfirmDelete(s1, fails2).0 == s1
  {
  }
}
