/** The add/edit industry dialog: the form and its initial values, the
    numeric inputs, the save request and what a save leaves behind, and how
    the form is (and should be) seeded when the dialog is opened. */
module IndustryDialog {
  import opened Wrappers
  import Text
  import Numbers
  import Industries

  /** The colour choices; the first is the default. */
  const IndustryColors: seq<string> := [
    "#FF8A65", "#4CAF50", "#1E88E5", "#9C27B0", "#FF9800",
    "#795548", "#607D8B", "#E91E63", "#8BC34A", "#03A9F4",
    "#FFC107", "#673AB7", "#F44336", "#FF5722", "#2196F3"]

  /** The icon choices; the last ("Other") is the default. */
  const IndustryIcons: seq<string> := [
    "\U{1F3E8}", "\U{1F3E5}", "\U{1F4BB}", "\U{1F4B0}", "\U{1F393}", "\U{1F3DB}\U{FE0F}",
    "\U{1F3E0}", "\U{1F6CD}\U{FE0F}", "\U{1F33E}", "\U{1F69B}", "\U{26A1}", "\U{1F3ED}",
    "\U{1F3AC}", "\U{1F528}", "\U{2764}\U{FE0F}", "\U{1F3E2}"]

  const DefaultColor := IndustryColors[0]
  const DefaultIcon := IndustryIcons[15]

  /** The form: every industry field but the id. */
  datatype Form = Form(
    name: string,
    description: string,
    memberCount: int,
    companyCount: int,
    growthRate: real,
    color: string,
    icon: string)

  /** The empty form the dialog starts from and resets to. */
  const BlankForm := Form("", "", 0, 0, 0.0, DefaultColor, DefaultIcon)

  /** The fields of an industry as a form. */
  function FormOf(i: Industries.Industry): Form {
    Form(i.name, i.description, i.memberCount, i.companyCount, i.growthRate, i.color, i.icon)
  }

  /** `useState({ name: industry?.name || '', ..., color: industry?.color ||
      industryColors[0], icon: industry?.icon || '🏢' })`: zero and the empty
      string fall back to the same zero and empty string, except that an
      empty colour or icon falls back to the default one. */
  function InitialForm(industry: Option<Industries.Industry>): (r: Form)
    ensures industry.None? ==> r == BlankForm
    ensures industry.Some? ==>
              r == FormOf(industry.value).(
                color := if industry.value.color == "" then DefaultColor else industry.value.color,
                icon := if industry.value.icon == "" then DefaultIcon else industry.value.icon)
  {
    match industry
    case None => BlankForm
    case Some(i) =>
      Form(i.name, i.description, i.memberCount, i.companyCount, i.growthRate,
           if i.color == "" then DefaultColor else i.color,
           if i.icon == "" then DefaultIcon else i.icon)
  }

  /** An industry with a colour and an icon is shown as it is stored. */
  lemma InitialFormShowsIndustry(i: Industries.Industry)
    requires i.color != "" && i.icon != ""
    ensures InitialForm(Some(i)) == FormOf(i)
  {
  }

  // ---------------------------------------------------------------------
  // Inputs
  // ---------------------------------------------------------------------

  /** The member and company count inputs: `parseInt(text) || 0`. */
  function CountInput(text: string): int {
    Numbers.ParseInt(text).GetOr(0)
  }

  /** The growth input: `parseFloat(text) || 0`. */
  function GrowthInput(text: string): real {
    Numbers.ParseFloat(text).GetOr(0.0)
  }

  /** A count typed as its decimal string is read as that count. */
  lemma CountInputSpec(n: int)
    ensures CountInput(Numbers.IntToString(n)) == n
  {
    Numbers.ParseIntRoundTrip(n);
  }

  /** An input holding no decimal digit at all (a cleared input, a lone
      sign, letters) is read as 0. */
  lemma CountInputNoDigits(text: string)
    requires forall i :: 0 <= i < |text| ==> !('0' <= text[i] <= '9')
    ensures CountInput(text) == 0
  {
    var t := Text.TrimStart(text);
    var u := if |t| > 0 && (t[0] == '-' || t[0] == '+') then t[1..] else t;
    if |u| > 0 {
      assert u[0] == text[|text| - |u|];
      assert Numbers.DigitValue(u[0], 10).None?;
    }
    Numbers.ParseIntNoDigits(text);
  }

  /** A whole growth rate typed as its decimal string is read as itself. */
  lemma GrowthInputSpec(n: int)
    ensures GrowthInput(Numbers.IntToString(n)) == n as real
  {
    Numbers.ParseFloatRoundTrip(n);
  }

  /** The save button is disabled while saving and while the name is blank. */
  function SubmitDisabled(loading: bool, form: Form): (r: bool)
    ensures !loading ==> (r <==> Text.AllWhite(form.name))
  {
    loading || Text.Trim(form.name) == ""
  }

  // ---------------------------------------------------------------------
  // Saving
  // ---------------------------------------------------------------------

  /** What a save sends: a one-row insert in add mode, an update of the
      given id in edit mode. */
  datatype Request = Insert(rows: seq<Form>) | Update(form: Form, id: Option<string>)

  /** The request half of `handleSubmit`. */
  function SaveRequest(mode: Industries.Mode, form: Form, industry: Option<Industries.Industry>): (r: Request)
    ensures mode == Industries.Add ==> r == Insert([form])
    ensures mode == Industries.Edit ==> r.Update? && r.form == form
    ensures mode == Industries.Edit ==> (r.id.Some? <==> industry.Some?)
    ensures mode == Industries.Edit && industry.Some? ==> r.id == Some(industry.value.id)
  {
    match mode
    case Add => Insert([form])
    case Edit => Update(form, if industry.Some? then Some(industry.value.id) else None)
  }

  /** What a save leaves: the form, whether the dialog closed (and the page
      refetched), and the toast. */
  datatype SaveOutcome = SaveOutcome(request: Request, form: Form, closed: bool, toast: Industries.Toast)

  const SaveFailedToast := Industries.Toast("Error", "Failed to save industry. Please try again.", true)

  /** `handleSubmit`, with `backendFails` the backend's answer: on success
      the dialog closes and the form is reset to the blank form; on failure
      the form is kept for another try. */
  function Save(mode: Industries.Mode, form: Form, industry: Option<Industries.Industry>, backendFails: bool): (r: SaveOutcome)
    ensures r.request == SaveRequest(mode, form, industry)
    ensures r.closed <==> !backendFails
    ensures !backendFails ==> r.form == BlankForm && !r.toast.destructive
    ensures backendFails ==> r.form == form && r.toast == SaveFailedToast
  {
    var request := SaveRequest(mode, form, industry);
    if backendFails then
      SaveOutcome(request, form, false, SaveFailedToast)
    else
      var description := if mode == Industries.Add then "Industry added successfully." else "Industry updated successfully.";
      SaveOutcome(request, BlankForm, true, Industries.Toast("Success!", description, false))
  }

  // ---------------------------------------------------------------------
  // Seeding the form when the dialog opens
  // ---------------------------------------------------------------------

  /** As written: the industries page keeps the dialog mounted and only
      changes its props, and the form state is seeded from the props only
      when it mounts; opening the dialog keeps whatever form it holds. */
  function OpenAsWritten(form: Form, props: Industries.DialogProps): (r: Form)
    ensures r == form
  {
    form
  }

  /** The form of a dialog that was mounted with the page's initial props. */
  function MountedForm(): (r: Form)
    ensures r == BlankForm
  {
    InitialForm(Industries.InitialDialogProps.industry)
  }

  /** A stored industry with its own colour and icon. */
  const Technology := Industries.Industry("technology", "Technology", "Software and IT", 398, 52, 15.8, "#1E88E5", "\U{1F4BB}")

  /** Editing an industry right after the page loads shows the blank form
      rather than the industry: the save button is disabled, and once a
      name is typed, saving overwrites the industry's counts, growth, colour
      and icon with the blank form's values. */
  lemma EditShowsStaleForm()
    ensures var props := Industries.EditIndustry(Industries.InitialDialogProps, Technology);
            var form := OpenAsWritten(MountedForm(), props);
            && form != FormOf(Technology)
            && SubmitDisabled(false, form)
            && SaveRequest(props.mode, form.(name := Technology.name), props.industry)
               == Update(BlankForm.(name := "Technology"), Some("technology"))
            && BlankForm.memberCount != Technology.memberCount
  {
    assert Text.Trim("") == "";
  }

  /** Corrected: the form is seeded from the props each time the dialog
      opens, as a dialog keyed by the industry or synced by an effect would
      be. */
  function OpenSynced(form: Form, props: Industries.DialogProps): (r: Form)
    ensures props.industry.None? ==> r == BlankForm
  {
    InitialForm(props.industry)
  }

  /** With the corrected seeding, whatever the dialog held before, editing an
      industry shows it as stored and saving it unchanged writes back
      exactly its stored fields; adding starts from the blank form. */
  lemma SyncedEditShowsIndustry(before: Form, p: Industries.DialogProps, i: Industries.Industry)
    requires i.color != "" && i.icon != ""
    ensures var props := Industries.EditIndustry(p, i);
            && OpenSynced(before, props) == FormOf(i)
            && SaveRequest(props.mode, OpenSynced(before, props), props.industry) == Update(FormOf(i), Some(i.id))
            && (!SubmitDisabled(false, OpenSynced(before, props)) <==> !Text.AllWhite(i.name))
    ensures OpenSynced(before, Industries.AddIndustry(p)) == BlankForm
  {
    InitialFormShowsIndustry(i);
  }
}
