/** The map's navigation panel: the JSON coordinates read from a company
    row, the company list filtered by the selected industry and the search,
    the industry list, and the industry selection toggle. */
module MapControl {
  import opened Wrappers
  import Seqs
  import Search
  import Numbers
  import Stats

  // ---------------------------------------------------------------------
  // Coordinates
  // ---------------------------------------------------------------------

  /** A JSON value as a JSON column holds it. */
  datatype Json =
    | JNull
    | JBool(b: bool)
    | JNum(x: real)
    | JStr(s: string)
    | JArray(items: seq<Json>)
    | JObject(fields: seq<(string, Json)>)

  /** `key in object`. */
  predicate HasKey(fields: seq<(string, Json)>, key: string) {
    exists i :: 0 <= i < |fields| && fields[i].0 == key
  }

  /** The value of a key; a repeated key keeps its last value, as
      `JSON.parse` does. */
  function Get(fields: seq<(string, Json)>, key: string): (r: Json)
    requires HasKey(fields, key)
    ensures exists i :: 0 <= i < |fields| && fields[i] == (key, r) &&
                        forall j :: i < j < |fields| ==> fields[j].0 != key
  {
    var last := fields[|fields| - 1];
    if last.0 == key then last.1
    else
      assert HasKey(fields[..|fields| - 1], key) by {
        var i :| 0 <= i < |fields| && fields[i].0 == key;
        assert fields[..|fields| - 1][i].0 == key;
      }
      var r := Get(fields[..|fields| - 1], key);
      assert forall i :: 0 <= i < |fields| - 1 ==> fields[..|fields| - 1][i] == fields[i];
      r
  }

  /** `Number(value)`: null is 0, booleans are 1 and 0, a string is read as
      a numeric literal, an object is NaN, and an array is read through its
      string form: empty is 0, one element is that element's string read
      as a number (a boolean's "true"/"false" being NaN), more than one
      contains a comma and is NaN. */
  function ToNumber(j: Json): (r: Stats.Num)
    ensures j.JNum? ==> r == Stats.Finite(j.x)
    ensures j.JObject? ==> r == Stats.NaN
    ensures r == Stats.NaN || r.Finite?
    decreases j
  {
    match j
    case JNull => Stats.Finite(0.0)
    case JBool(b) => Stats.Finite(if b then 1.0 else 0.0)
    case JNum(x) => Stats.Finite(x)
    case JStr(s) => FromNumber(Numbers.StringToNumber(s))
    case JArray(items) =>
      if |items| == 0 then Stats.Finite(0.0)
      else if |items| > 1 || items[0].JBool? then Stats.NaN
      else ToNumber(items[0])
    case JObject(_) => Stats.NaN
  }

  /** A parsed number, NaN when the text is not one. */
  function FromNumber(n: Option<real>): (r: Stats.Num)
    ensures r.Finite? <==> n.Some?
    ensures n.Some? ==> r == Stats.Finite(n.value)
  {
    match n
    case Some(x) => Stats.Finite(x)
    case None => Stats.NaN
  }

  /** Some concrete conversions, the last two NaN. */
  lemma ToNumberExamples()
    ensures ToNumber(JNull) == Stats.Finite(0.0)
    ensures ToNumber(JBool(true)) == Stats.Finite(1.0)
    ensures ToNumber(JStr("")) == Stats.Finite(0.0)
    ensures ToNumber(JArray([])) == Stats.Finite(0.0)
    ensures ToNumber(JArray([JNum(21.3)])) == Stats.Finite(21.3)
    ensures ToNumber(JArray([JBool(true)])) == Stats.NaN
    ensures ToNumber(JArray([JNum(1.0), JNum(2.0)])) == Stats.NaN
  {
  }

  /** Numbers written as decimal strings are read back. */
  lemma ToNumberOfDecimalString(n: int)
    ensures ToNumber(JStr(Numbers.IntToString(n))) == Stats.Finite(n as real)
    ensures ToNumber(JArray([JStr(Numbers.IntToString(n))])) == Stats.Finite(n as real)
  {
    Numbers.StringToNumberRoundTrip(n);
    ToNumberOfNumericString(Numbers.IntToString(n), n as real);
  }

  /** A string that reads as a number converts to it, alone or as the one
      element of an array. */
  lemma ToNumberOfNumericString(s: string, v: real)
    requires Numbers.StringToNumber(s) == Some(v)
    ensures ToNumber(JStr(s)) == Stats.Finite(v)
    ensures ToNumber(JArray([JStr(s)])) == Stats.Finite(v)
  {
    var x := Numbers.StringToNumber(s);
    assert ToNumber(JStr(s)) == FromNumber(x);
    var a := JArray([JStr(s)]);
    assert a.items[0] == JStr(s) && |a.items| == 1;
    assert ToNumber(a) == ToNumber(JStr(s));
  }

  /** A latitude/longitude pair. */
  datatype Coordinates = Coordinates(lat: Stats.Num, lng: Stats.Num)

  /** The coordinate normalisation of the company fetch: an object with both
      a `lat` and a `lng` key becomes the pair of their numbers, anything
      else (null, a scalar, an array, an object missing a key) becomes
      null. */
  function Normalize(raw: Json): (r: Option<Coordinates>)
    ensures r.Some? <==> raw.JObject? && HasKey(raw.fields, "lat") && HasKey(raw.fields, "lng")
    ensures r.Some? ==> r.value == Coordinates(ToNumber(Get(raw.fields, "lat")), ToNumber(Get(raw.fields, "lng")))
  {
    if raw.JObject? && HasKey(raw.fields, "lat") && HasKey(raw.fields, "lng") then
      Some(Coordinates(ToNumber(Get(raw.fields, "lat")), ToNumber(Get(raw.fields, "lng"))))
    else
      None
  }

  /** A stored `{lat, lng}` object is read back as its two numbers, whatever
      other keys it has and in whichever order. */
  lemma NormalizeReadsBack(lat: real, lng: real, extra: seq<(string, Json)>)
    requires forall i :: 0 <= i < |extra| ==> extra[i].0 != "lat" && extra[i].0 != "lng"
    ensures Normalize(JObject([("lat", JNum(lat)), ("lng", JNum(lng))] + extra)) ==
            Some(Coordinates(Stats.Finite(lat), Stats.Finite(lng)))
    ensures Normalize(JObject(extra + [("lng", JNum(lng)), ("lat", JNum(lat))])) ==
            Some(Coordinates(Stats.Finite(lat), Stats.Finite(lng)))
  {
    var a := [("lat", JNum(lat)), ("lng", JNum(lng))] + extra;
    assert a[0].0 == "lat" && a[1].0 == "lng";
    var b := extra + [("lng", JNum(lng)), ("lat", JNum(lat))];
    assert b[|extra|].0 == "lng" && b[|extra| + 1].0 == "lat";
  }

  /** Without both keys there are no coordinates, while an object that has
      both keys gets coordinates even when their values are not numbers. */
  lemma NormalizeEdgeCases()
    ensures Normalize(JNull) == None
    ensures Normalize(JArray([JNum(21.3), JNum(-157.8)])) == None
    ensures Normalize(JObject([("lat", JNum(21.3))])) == None
    ensures Normalize(JObject([("lat", JObject([])), ("lng", JNull)])) ==
            Some(Coordinates(Stats.NaN, Stats.Finite(0.0)))
  {
    var o := [("lat", JNum(21.3))];
    assert !HasKey(o, "lng");
    var p := [("lat", JObject([])), ("lng", JNull)];
    assert p[0].0 == "lat" && p[1].0 == "lng";
  }

  // ---------------------------------------------------------------------
  // Companies and industries
  // ---------------------------------------------------------------------

  /** A company entry of the panel, with its normalised coordinates and its
      industry's icon. */
  datatype Company = Company(
    id: string,
    name: string,
    location: string,
    island: string,
    memberCount: int,
    industryId: Option<string>,
    coordinates: Option<Coordinates>,
    industryIcon: Option<string>)

  /** `if (selectedIndustry)`: a selection filters only when it is a
      non-empty id. */
  predicate IndustryFilterOn(selected: Option<string>) {
    selected.Some? && selected.value != ""
  }

  predicate MatchesSearch(c: Company, term: string) {
    || Search.TextMatches(c.name, term)
    || Search.TextMatches(c.location, term)
    || Search.TextMatches(c.island, term)
  }

  /** Both tests of `filterCompanies`: the industry when one is selected,
      the search when the term is not empty. */
  predicate Keep(c: Company, selected: Option<string>, term: string) {
    && (IndustryFilterOn(selected) ==> c.industryId == selected)
    && (term != "" ==> MatchesSearch(c, term))
  }

  /** The combined test as a function value. */
  function KeepTest(selected: Option<string>, term: string): Company -> bool {
    (c: Company) => Keep(c, selected, term)
  }

  /** The industry test as a function value. */
  function InIndustry(id: string): Company -> bool {
    (c: Company) => c.industryId == Some(id)
  }

  /** `filterCompanies`: first by industry, then by search; the same as one
      pass with both tests. */
  function FilterCompanies(companies: seq<Company>, selected: Option<string>, term: string): (r: seq<Company>)
    ensures r == Seqs.Filter(companies, KeepTest(selected, term))
    ensures Seqs.IsSubsequence(r, companies)
    ensures forall i :: 0 <= i < |companies| ==> (companies[i] in r <==> Keep(companies[i], selected, term))
    ensures IndustryFilterOn(selected) ==> forall i :: 0 <= i < |r| ==> r[i].industryId == selected
    ensures term != "" ==> forall i :: 0 <= i < |r| ==> MatchesSearch(r[i], term)
    ensures !IndustryFilterOn(selected) && term == "" ==> r == companies
  {
    var byIndustry := (c: Company) => c.industryId == selected;
    var bySearch := (c: Company) => MatchesSearch(c, term);
    var both := KeepTest(selected, term);
    if IndustryFilterOn(selected) && term != "" then
      Seqs.FilterFilter(companies, byIndustry, bySearch, both);
      Seqs.Filter(Seqs.Filter(companies, byIndustry), bySearch)
    else if IndustryFilterOn(selected) then
      Seqs.FilterSameTest(companies, byIndustry, both);
      Seqs.Filter(companies, byIndustry)
    else if term != "" then
      Seqs.FilterSameTest(companies, bySearch, both);
      Seqs.Filter(companies, bySearch)
    else
      companies
  }

  /** Selecting an industry narrows the searched list to that industry's
      companies, in the same order. */
  lemma SelectingNarrows(companies: seq<Company>, id: string, term: string)
    requires id != ""
    ensures FilterCompanies(companies, Some(id), term)
            == Seqs.Filter(FilterCompanies(companies, None, term), InIndustry(id))
  {
    Seqs.FilterFilter(companies, KeepTest(None, term), InIndustry(id), KeepTest(Some(id), term));
  }

  /** An industry button of the panel. */
  datatype Industry = Industry(id: string, name: string, color: string, icon: string, memberCount: int, companyCount: int)

  /** The industries tab: those whose name contains the search term. */
  function VisibleIndustries(industries: seq<Industry>, term: string): (r: seq<Industry>)
    ensures Seqs.IsSubsequence(r, industries)
    ensures forall i :: 0 <= i < |industries| ==> (industries[i] in r <==> Search.TextMatches(industries[i].name, term))
    ensures term == "" ==> r == industries
  {
    forall i | 0 <= i < |industries| ensures Search.TextMatches(industries[i].name, "") {
      Search.EmptyTermMatches(industries[i].name);
    }
    Seqs.Filter(industries, (i: Industry) => Search.TextMatches(i.name, term))
  }

  // ---------------------------------------------------------------------
  // Selection
  // ---------------------------------------------------------------------

  /** The new selection and the value passed to the parent's callback. */
  datatype Selection = Selection(selected: Option<string>, notified: Option<string>)

  /** `handleIndustryClick`: the selected industry is deselected, any other
      is selected, and the parent is told the new selection. */
  function Click(selected: Option<string>, id: string): (r: Selection)
    ensures r.notified == r.selected
    ensures r.selected.None? <==> selected == Some(id)
    ensures r.selected.Some? ==> r.selected == Some(id)
  {
    var next := if selected == Some(id) then None else Some(id);
    Selection(next, next)
  }

  /** Clicking one industry twice restores the selection exactly when
      nothing or that industry was selected; from another industry it
      ends with nothing selected. */
  lemma ClickTwice(selected: Option<string>, id: string)
    ensures Click(Click(selected, id).selected, id).selected == selected <==> selected == None || selected == Some(id)
    ensures selected != None && selected != Some(id) ==> Click(Click(selected, id).selected, id).selected == None
  {
  }

  /** "Clear Industry Filter": nothing selected, and the parent told so. */
  function Clear(): (r: Selection)
    ensures r.selected == None && r.notified == None
  {
    Selection(None, None)
  }

  /** The clear button is shown while an industry filter applies. */
  predicate ShowsClear(selected: Option<string>) {
    IndustryFilterOn(selected)
  }

  /** After clearing, the list is filtered by the search alone, and the
      clear button disappears. */
  lemma ClearDropsIndustryFilter(companies: seq<Company>, term: string)
    ensures !ShowsClear(Clear().selected)
    ensures forall i :: 0 <= i < |companies| ==>
              (companies[i] in FilterCompanies(companies, Clear().selected, term) <==> term == "" || MatchesSearch(companies[i], term))
  {
  }

  // ---------------------------------------------------------------------
  // Company entries
  // ---------------------------------------------------------------------

  /** A company entry can be clicked only when it has coordinates. */
  predicate Disabled(c: Company) {
    c.coordinates.None?
  }

  /** `company.industries?.icon || '🏢'`. */
  function CompanyIcon(c: Company): (r: string)
    ensures c.industryIcon.Some? && c.industryIcon.value != "" ==> r == c.industryIcon.value
    ensures c.industryIcon.None? || c.industryIcon.value == "" ==> r == "\U{1F3E2}"
  {
    if c.industryIcon.Some? && c.industryIcon.value != "" then c.industryIcon.value else "\U{1F3E2}"
  }

  /** An entry is disabled exactly when its stored coordinates are not an
      object with both a `lat` and a `lng` key. */
  lemma DisabledIffNoLocation(c: Company, raw: Json)
    requires c.coordinates == Normalize(raw)
    ensures Disabled(c) <==> !(raw.JObject? && HasKey(raw.fields, "lat") && HasKey(raw.fields, "lng"))
  {
  }
}
