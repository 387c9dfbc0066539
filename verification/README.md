# Honolulu Insight dashboard: a Dafny model of its page logic

Honolulu Insight is a React dashboard over a hosted database for the Hawaii
tech community: members, companies, industries, islands and events. Almost all
of it is UI and database calls. What this project models is the pure logic
inside the pages and dialogs. Each piece is a function over immutable records
and sequences, and it is proved against a partner: an inverse, a reference
definition, or an invariant.

- **List filters.** The member, company, event, industry and map-panel filters
  are modelled. Each combines a case-insensitive substring search with
  `'all'`-or-equal select filters. Every filter is proved to return a
  subsequence of its input and to keep exactly the rows that pass its tests.
  An empty query is proved to keep everything.
- **Aggregates.** The model covers totals, the unguarded mean and the island
  percentages, which are proved to add up to 100. It also covers the top-five
  ranking (a stable sort followed by a prefix), the bar widths and the
  threshold colour bands.
- **Form state.**
  - The bulk-upload row list: add and remove rows, update one cell, and keep
    only the valid rows on submit.
  - The skills text box and its split/trim/join round trip.
  - The edit dialogs' defaults, and the coercion of empty fields to null.
  - The industry dialog's form, save request and reset.
- **Small state machines.** The map panel's industry toggle, the member
  page's company-filter reset and the sidebar's active-link test.
- **The shipped demonstration tables** and the dashboard figures computed from
  them.

JavaScript semantics are written out where they matter:
- Case mapping (`toLowerCase`/`toUpperCase`) is modelled for ASCII letters
  only; see Left out.
- `trim` uses the ECMAScript white-space set.
- `split` and `join` follow JavaScript.
- `parseInt`, `parseFloat` and `Number(string)` are modelled as decimal
  readers.
- Numbers are exact reals, with `Infinity` and `NaN` as separate values
  (`Stats.Num`), so an unguarded division is visible in the model.
- `x || d` fallbacks are written as explicit tests.
- `Array.prototype.sort` is a stable descending insertion sort.

Modules:
- Shared: `Wrappers` (Option, Result), `Text`, `Seqs`, `Numbers`, `Stats`,
  `Search`, `Levels`, and `FormFields`, which holds the two edit dialogs'
  common field handling.
- One per source file: `Members`, `Companies`, `BulkUpload`, `Analytics`,
  `Industries`, `Events`, `Geographic`, `MapControl`, `IndustryDialog`,
  `EditMember`, `EditCompany`, `MockData` and `Sidebar`.

Two behaviours of the code are worth naming:
- `src/pages/Analytics.tsx:66` divides the growth sum by `industries.length`,
  so an empty industry table gives NaN (`Analytics.NoIndustries`).
- The bulk-upload dialog builds its rows in a form and parses no CSV, so the
  model works on rows. The only text it parses is the skills box
  (`src/components/BulkUploadDialog.tsx:448`).

## Model

| member | source | states |
|---|---|---|
| Search.TextMatchesSpec | src/pages/Members.tsx:194-199 | The search test holds exactly when the lower-cased term occurs at some position of the lower-cased text. |
| Search.NarrowerTerm | src/pages/Companies.tsx:157-159 | A text that matches a longer term also matches every prefix of that term. |
| Members.FilteredMembers | src/pages/Members.tsx:193-205 | The result is a subsequence of the members. A member is kept iff it passes the search, industry and company tests. A selected industry or company holds for every kept row. An empty search with both selects at 'all' keeps every member. |
| Members.SearchIsSubstring | src/pages/Members.tsx:194-199 | A member matches iff the lower-cased term occurs in the lower-cased name, job title, some skill, company name or e-mail. An absent field never matches. |
| Members.SelectIndustry | src/pages/Members.tsx:92-99 | Choosing 'all' empties the company list and resets the company filter to 'all'. Choosing another industry leaves both alone until its fetch completes. |
| Members.CompaniesFetched | src/pages/Members.tsx:149-163 | A successful fetch replaces the company list and resets the company filter. A failed fetch changes nothing. |
| Members.IndustryChangeResetsCompany | src/pages/Members.tsx:92-99 | Once an industry change has taken effect, the company filter is 'all'. The member list is then the one filtered by search and industry alone. |
| Members.FirstChars | src/pages/Members.tsx:207-209 | There is one character per non-empty word: that word's first character. An empty word contributes nothing. |
| Members.Initials | src/pages/Members.tsx:207-209 | The initials are the upper-cased first characters of the non-empty space-separated words, in order. |
| Members.InitialsShape | src/pages/Members.tsx:207-209 | The initials contain no space. There are at most one more initials than spaces in the name. |
| Levels.ActivityColor | src/pages/Members.tsx:211-218 | The badge is green, yellow, red or gray exactly when the level reads high, medium, low or anything else, ignoring case. |
| Levels.ClassifyIgnoresCase | src/pages/Members.tsx:212 | Two spellings that lower-case alike get the same level. |
| Levels.ClassifySpellingsHigh | src/pages/Members.tsx:211-218 | "High", "HIGH" and "high" are all recognised as high. |
| Levels.ClassifySpellingsMediumLow | src/pages/Members.tsx:211-218 | "Medium" and "mEdIuM" are recognised as medium, "Low" and "LOW" as low. |
| Levels.ClassifySpellingsOther | src/pages/Members.tsx:211-218 | The empty string, "Hi" and "very high" are not recognised as any level. |
| Levels.EngagementColor | src/pages/Companies.tsx:162-169 | The engagement badge has the same four bands as the activity badge, with the companies page's class strings. |
| Levels.ColorsIgnoreCase | src/pages/Companies.tsx:162-169 | A level and its lower-cased form get the same activity and engagement colours. |
| Levels.TierColorsDistinct | src/pages/Analytics.tsx:97-102 | The four threshold bands have four different colour classes. |
| Levels.TierMonotone | src/pages/Analytics.tsx:97-102 | With descending thresholds, a larger number never lands in a lower band. |
| Levels.TierRedIff | src/pages/Geographic.tsx:57-62 | The band is red exactly when the number is not above the lowest threshold. NaN counts as not above. |
| Companies.FilteredCompanies | src/pages/Companies.tsx:156-160 | The result is a subsequence. A company is kept iff the search matches its name, industry name or island. An empty term keeps every company. |
| Companies.SearchIsSubstring | src/pages/Companies.tsx:157-159 | A company matches iff the lower-cased term occurs in one of its three lower-cased fields. An absent field never matches. |
| Companies.NarrowingSearch | src/pages/Companies.tsx:156-160 | Typing more never brings back a company that the shorter term dropped. |
| BulkUpload.AddRow | src/components/BulkUploadDialog.tsx:107-117 | Adding a row appends exactly the blank row and leaves the existing rows unchanged. |
| BulkUpload.RemoveRow | src/components/BulkUploadDialog.tsx:119-123 | With more than one row, removing one deletes exactly the row at that index and keeps the others in order. With one row, or an index out of range, nothing changes. A non-empty list stays non-empty. |
| BulkUpload.RowsNeverEmpty | src/components/BulkUploadDialog.tsx:107-151 | No sequence of adds and removes empties a list that starts with a row. |
| BulkUpload.ReplaceRow | src/components/BulkUploadDialog.tsx:125-129 | The indexed row is replaced and every other row is unchanged. |
| BulkUpload.SetCompanyField | src/components/BulkUploadDialog.tsx:125-129 | The chosen field takes the new value. Every other field keeps its value. |
| BulkUpload.UpdateCompanyData | src/components/BulkUploadDialog.tsx:125-129 | Only the chosen field of the chosen row changes. Every other row and field is unchanged. |
| BulkUpload.SetMemberField | src/components/BulkUploadDialog.tsx:153-157 | The chosen text field takes the new value. Every other field, and the skills, keep their values. |
| BulkUpload.UpdateMemberData | src/components/BulkUploadDialog.tsx:153-157 | Only the chosen field of the chosen row changes. |
| BulkUpload.UpdateMemberSkills | src/components/BulkUploadDialog.tsx:153-157 | Only the skills of the chosen row change. |
| BulkUpload.ParseSkillsInput | src/components/BulkUploadDialog.tsx:448 | The skills box yields one entry per comma plus one: entry i is the i-th comma-separated piece of the text, trimmed. Each entry is comma-free. Empty entries are kept. |
| BulkUpload.SkillsRoundTrip | src/components/BulkUploadDialog.tsx:447-448 | Showing a non-empty list of trimmed, comma-free skills and reading the box back gives the same list. This covers well-formed lists only: the box is controlled, so other typed text is normalised on the next render ("React " shows as "React", "a,  b" as "a, b"). |
| BulkUpload.EmptySkillsReadBack | src/components/BulkUploadDialog.tsx:447-448 | An empty skills list reads back as one empty skill. |
| BulkUpload.PrepareUpload | src/components/BulkUploadDialog.tsx:159-192 | The rows sent are the rows of the active tab that have a non-blank trimmed name and an industry, in order, each as many times as it was entered. When there are none, the result is the tab's error and nothing is sent. |
| Seqs.FilterMultiplicity | src/components/BulkUploadDialog.tsx:163-165 | filter keeps every copy of an element it keeps and none of one it drops, so repeated rows are all sent. |
| BulkUpload.Submit | src/components/BulkUploadDialog.tsx:159-212 | The dialog closes iff valid rows exist and the insert succeeds. The toast is destructive iff the dialog stays open. A rejected form sends nothing, and its toast shows the form's error. |
| BulkUpload.BlankFormRejected | src/components/BulkUploadDialog.tsx:159-188 | A form holding only a freshly added blank row is rejected on either tab. |
| BulkUpload.ValidCompany | src/components/BulkUploadDialog.tsx:163-165 | The company row test. `BulkUpload.PrepareUpload` states that exactly the rows passing it are sent. |
| BulkUpload.ValidMember | src/components/BulkUploadDialog.tsx:182-184 | The member row test. `BulkUpload.PrepareUpload` states that exactly the rows passing it are sent. |
| Analytics.Shares | src/pages/Analytics.tsx:67-72 | There is one entry per island, with its name, its count and its percentage of the island total. |
| Analytics.TopIndustries | src/pages/Analytics.tsx:80-82 | The top list has min(5, n) industries, all drawn from the input. Among industries with the same member count, those shown are the first ones of the input, in input order, as the stable sort gives at the cut. |
| Seqs.WithKeyPrefix | src/pages/Analytics.tsx:80-82 | Cutting a list after n elements keeps, for each key, a prefix of the elements with that key. |
| Analytics.TopIndustriesRanked | src/pages/Analytics.tsx:80-82 | The top list is non-increasing by member count. |
| Analytics.TopIndustriesAreLargest | src/pages/Analytics.tsx:80-82 | No industry left out of the top list has more members than any industry shown. |
| Seqs.TakeDominates | src/pages/Analytics.tsx:80-82 | In a non-increasing list, nothing dropped by taking the first n outranks anything kept. |
| Analytics.Distribution | src/pages/Analytics.tsx:69-83 | The distribution has every island exactly once, as a permutation of the share list. |
| Analytics.Compute | src/pages/Analytics.tsx:63-84 | The totals are sums over the industries and the industry count is the list length. Member growth is the mean growth rate and company growth is 0.8 times it. The top list and the distribution are as above. |
| Analytics.GrowthFigures | src/pages/Analytics.tsx:66-79 | Member growth is a number iff there are industries. Company growth is a number iff member growth is, and then equals 0.8 times it. |
| Analytics.DistributionOrdered | src/pages/Analytics.tsx:83 | The distribution is non-increasing by member count. |
| Analytics.NoIndustries | src/pages/Analytics.tsx:66 | With no industries both growth figures are NaN, shown red with a falling arrow. |
| Analytics.DistributionAddsUp | src/pages/Analytics.tsx:67-72 | When some island has members, the percentages of the distribution add up to exactly 100. |
| Analytics.SharesArePercentages | src/pages/Analytics.tsx:69-72 | Against a non-zero total, each share is its count times 100 over the total. |
| Analytics.Load | src/pages/Analytics.tsx:48-90 | When both fetches succeed, the figures become those computed from the fetched rows. When either fails, the earlier figures remain. |
| Analytics.LoadKeepsLastSuccess | src/pages/Analytics.tsx:48-90 | After a successful load, any run of failed loads keeps showing that load's figures, whatever was shown before it. |
| Analytics.GrowthColor | src/pages/Analytics.tsx:97-102 | Computes the growth colour. `Analytics.GrowthBands` states its four bands. |
| Analytics.GrowthBands | src/pages/Analytics.tsx:97-102 | The colour is green above 10, yellow above 5 up to 10, orange above 0 up to 5, and red otherwise, NaN included, as four exact bands. |
| Analytics.GrowthIcon | src/pages/Analytics.tsx:104-106 | Computes the arrow. `Analytics.IconAgreesWithColor` shows it rises exactly when growth is above 0, the non-red bands. |
| Analytics.IconAgreesWithColor | src/pages/Analytics.tsx:97-106 | The arrow points up exactly when the growth colour is not red, that is, when growth is above 0. |
| Analytics.GrowthColorMonotone | src/pages/Analytics.tsx:97-102 | Higher growth never gets a lower colour band. |
| Analytics.FormatNumber | src/pages/Analytics.tsx:92-95 | From 1000 up, the text is digits, a point, one digit and "k". The page defines formatNumber but never calls it, so these rows describe an unused helper. |
| Analytics.FormatNumberSmall | src/pages/Analytics.tsx:94 | Below 1000 the text is the plain decimal string, which parseInt reads back as the number. |
| Analytics.FormatNumberThousands | src/pages/Analytics.tsx:93 | From 1000 up, the shown thousands times 1000 are within 50 of the number. |
| Analytics.ParseOneDecimal | src/pages/Analytics.tsx:93 | The digits of q, a point and the digit d read back through parseFloat as q + d/10. |
| Analytics.ScanOneDecimal | src/pages/Analytics.tsx:93 | The literal q.d spans the whole text and denotes q + d/10. |
| Analytics.RenderInPlace | src/pages/Analytics.tsx:306-308 | As written, a render sorts the stored top list by growth, and the stored figures keep that order afterwards. |
| Analytics.RenderInPlaceReorders | src/pages/Analytics.tsx:259-307 | For two concrete industries, the next render's member-share card is no longer ordered by member count. |
| Analytics.Render | src/pages/Analytics.tsx:306-308 | Sorting a copy shows the growth ranking as a permutation of the top list and leaves the stored order alone. |
| Analytics.RenderKeepsRankings | src/pages/Analytics.tsx:259-308 | Every render of computed figures shows the member card by members and the growth card by growth, over the same industries. |
| Industries.FilteredIndustries | src/pages/Industries.tsx:131-134 | The result is a subsequence. An industry is kept iff the term matches its name or description. An empty term keeps all. |
| Industries.EmptySearchMatchesAll | src/pages/Industries.tsx:131-134 | The empty term matches every industry. |
| Industries.TotalsBoundEach | src/pages/Industries.tsx:136-137 | With non-negative counts, each industry's members are at most the member total. |
| Industries.Totals | src/pages/Industries.tsx:136-137 | Computes the member and company sums. `Industries.TotalsBoundEach` states that each count is at most the member total and that the total splits into one industry plus the rest. |
| Industries.BarWidthSpec | src/pages/Industries.tsx:311 | For a positive total, the bar width is a number between 0 and 100. It is 100 exactly when five times the count reaches the total. Otherwise it is count × 500 / total. |
| Industries.BarWidth | src/pages/Industries.tsx:311 | Computes the capped bar width. `Industries.BarWidthSpec` and `Industries.BarWidthNoMembers` state its value for a positive and a zero total. |
| Industries.BarWidthNoMembers | src/pages/Industries.tsx:311 | With no members at all the width is NaN. |
| Industries.AddIndustry | src/pages/Industries.tsx:84-88 | Add opens the dialog in add mode with no industry. |
| Industries.EditIndustry | src/pages/Industries.tsx:90-94 | Edit opens the dialog in edit mode with that industry. |
| Industries.RequestDelete | src/pages/Industries.tsx:96-99 | Asking to delete opens the confirmation with that industry as the target. |
| Industries.ConfirmDelete | src/pages/Industries.tsx:101-129 | With no target nothing happens. Otherwise the target's id is deleted, and the dialog closes and the target clears whether the delete succeeds or fails. The page refetches only on success. The toast matches the outcome. |
| Industries.DeleteOnce | src/pages/Industries.tsx:96-129 | A second confirmation after a completed delete does nothing. |
| Events.FilteredEvents | src/pages/Events.tsx:68-77 | The result is a subsequence. An event is kept iff it matches the search (name, organizer or company) and the type filter. A selected type holds for every kept event. |
| Events.EmptySearchMatchesAll | src/pages/Events.tsx:69-72 | The empty term matches every event. |
| Events.TypeColor | src/pages/Events.tsx:79-81 | The primary style is used iff the type is 'htw'. Otherwise the secondary style is used. |
| Events.OrganizerLabel | src/pages/Events.tsx:310 | The label is 'HTW Organized' for htw events. Otherwise it is the company name when present and non-empty, else 'External Company'. |
| Events.ComputeCounts | src/pages/Events.tsx:91-94 | htw plus company events are at most the total. The attendee total sums the counts, with a missing count treated as 0. |
| Events.AttendeesBound | src/pages/Events.tsx:94 | With non-negative counts, no event has more attendees than the total. An event without a count adds nothing. |
| Geographic.Icon | src/pages/Geographic.tsx:46-55 | Oahu, Maui, Big Island and Kauai each get their own icon. Every other name gets the island icon. |
| Geographic.IconExamples | src/pages/Geographic.tsx:46-55 | Molokai and unknown names get the island icon. The match is case-sensitive. |
| Geographic.MarketShareBands | src/pages/Geographic.tsx:57-62 | The colour is green above 60, yellow above 30, orange above 15 and red otherwise, as four exact bands. |
| Geographic.MarketShareColor | src/pages/Geographic.tsx:57-62 | Computes the market-share colour. `Geographic.MarketShareBands` states its four bands. |
| Geographic.Totals | src/pages/Geographic.tsx:43-44 | Computes the member and company sums. `Geographic.ShareBarIsShare` and `Geographic.SharesAddUp` state what the member total guarantees about the shares. |
| Geographic.ShareBarIsShare | src/pages/Geographic.tsx:232 | When the total is a sum of non-negative counts, each island's share lies between 0 and 100, so the 100 cap never applies. |
| Geographic.SharesAddUp | src/pages/Geographic.tsx:232 | The island shares add up to 100. |
| Geographic.MembersPerCompany | src/pages/Geographic.tsx:242 | The figure is members over companies. With no companies it is Infinity, or NaN when there are no members either. |
| MapControl.Get | src/components/MapControl.tsx:97-98 | A key's value is its last binding in the object. |
| MapControl.ToNumber | src/components/MapControl.tsx:97-98 | `Number(v)` is the number itself for numbers and NaN for objects, and always either a finite number or NaN. |
| MapControl.ToNumberExamples | src/components/MapControl.tsx:97-98 | null, true, "", [] and a one-number array convert as in JavaScript. A boolean in an array and an array of two numbers are NaN. |
| MapControl.ToNumberOfDecimalString | src/components/MapControl.tsx:97-98 | An integer stored as its decimal string, alone or in a one-element array, is read back as that integer. |
| MapControl.ToNumberOfNumericString | src/components/MapControl.tsx:97-98 | Any string `Number` reads as a value converts to that value, alone or as the single element of an array. |
| MapControl.Normalize | src/components/MapControl.tsx:94-101 | The result has coordinates iff the raw value is an object with both a lat and a lng key. They are then the numbers of those keys' values. |
| MapControl.NormalizeReadsBack | src/components/MapControl.tsx:94-101 | A stored {lat, lng} object is read back as its two numbers, whatever other keys it has and in whichever order. |
| MapControl.NormalizeEdgeCases | src/components/MapControl.tsx:94-101 | null, a [lat, lng] array and an object missing lng give no coordinates. An object with both keys gets coordinates even when a value is not a number. |
| MapControl.FilterCompanies | src/components/MapControl.tsx:109-125 | The two filters in a row equal one pass with both tests. With an industry selected, every kept company has it. A non-empty term must match name, location or island. Without either filter, every company is kept. |
| MapControl.SelectingNarrows | src/components/MapControl.tsx:112-122 | Selecting an industry gives the searched list restricted to that industry's companies, in the same order. |
| MapControl.VisibleIndustries | src/components/MapControl.tsx:203-206 | The industries tab shows, in order, exactly the industries whose name matches the term, and all of them for an empty term. |
| MapControl.Click | src/components/MapControl.tsx:127-131 | Clicking the selected industry deselects it. Clicking any other industry selects it. The parent is told exactly the new selection. |
| MapControl.ClickTwice | src/components/MapControl.tsx:127-129 | Two clicks on one industry restore the selection exactly when nothing or that industry was selected. From another industry, they leave nothing selected. |
| MapControl.Clear | src/components/MapControl.tsx:292-295 | Clearing selects nothing and tells the parent null. |
| MapControl.ClearDropsIndustryFilter | src/components/MapControl.tsx:288-296 | After clearing, the clear button is hidden and the list is filtered by the search alone. |
| MapControl.CompanyIcon | src/components/MapControl.tsx:260 | A company shows its industry's icon when that icon is present and non-empty. Otherwise it shows the office icon. |
| MapControl.DisabledIffNoLocation | src/components/MapControl.tsx:255 | An entry is disabled exactly when its stored coordinates are not an object with both keys. |
| IndustryDialog.InitialForm | src/components/IndustryDialog.tsx:78-86 | Without an industry the form is blank, with default colour '#FF8A65' and icon '🏢'. With one, each field is taken as stored, and an empty colour or icon falls back to the default. |
| IndustryDialog.InitialFormShowsIndustry | src/components/IndustryDialog.tsx:78-86 | An industry with a colour and an icon is shown exactly as stored. |
| IndustryDialog.CountInputSpec | src/components/IndustryDialog.tsx:210 | A typed integer is read as itself. |
| IndustryDialog.CountInput | src/components/IndustryDialog.tsx:210-222 | Reads the member and company count inputs. `IndustryDialog.CountInputSpec` and `IndustryDialog.CountInputNoDigits` state its value for integers and for digit-free text. |
| IndustryDialog.CountInputNoDigits | src/components/IndustryDialog.tsx:210 | An input with no decimal digit at all (cleared, a lone sign, letters) becomes 0. |
| IndustryDialog.GrowthInputSpec | src/components/IndustryDialog.tsx:235 | A typed whole growth rate is read as itself. |
| IndustryDialog.GrowthInput | src/components/IndustryDialog.tsx:235 | Reads the growth input. `IndustryDialog.GrowthInputSpec` states that a whole number is read as itself. |
| IndustryDialog.SubmitDisabled | src/components/IndustryDialog.tsx:271 | When not saving, the button is disabled exactly when the name is all white space. |
| IndustryDialog.SaveRequest | src/components/IndustryDialog.tsx:93-116 | Add mode inserts the one form row. Edit mode updates with the form, keyed by the industry's id when there is an industry. |
| IndustryDialog.Save | src/components/IndustryDialog.tsx:88-141 | The dialog closes iff the save succeeds. Success resets the form to blank. Failure keeps the form and shows the error toast. |
| IndustryDialog.OpenAsWritten | src/components/IndustryDialog.tsx:78-86 | As written, opening the dialog keeps whatever form it already holds. |
| IndustryDialog.MountedForm | src/components/IndustryDialog.tsx:78-86 | The page mounts the dialog with no industry, so the form starts blank. |
| IndustryDialog.EditShowsStaleForm | src/components/IndustryDialog.tsx:78-86 | Editing an industry after the page loads shows the blank form. Save is disabled, and once a name is typed the update overwrites the stored counts with 0. |
| IndustryDialog.OpenSynced | src/components/IndustryDialog.tsx:78-86 | Corrected: opening seeds the form from the dialog's industry, and adding starts blank. |
| IndustryDialog.SyncedEditShowsIndustry | src/components/IndustryDialog.tsx:78-116 | With corrected seeding, edit shows the industry as stored. Saving it unchanged writes back exactly its fields under its id. Save is enabled iff the name is not blank. |
| FormFields.OrEmpty | src/components/EditMemberDialog.tsx:57-63 | An absent text becomes "". A present one is kept. |
| FormFields.NullIfEmpty | src/components/EditMemberDialog.tsx:99-104 | "" becomes null. Any other text is kept. |
| FormFields.Normalized | src/components/EditMemberDialog.tsx:99-104 | A normalised field is never the empty string. Non-empty values are kept. |
| FormFields.LoadSaveNormalizes | src/components/EditMemberDialog.tsx:57-104 | Loading a field into the form and saving it gives its normal form. Doing it again changes nothing. |
| FormFields.SaveLoadKeeps | src/components/EditMemberDialog.tsx:57-104 | Saving a form text and loading it again gives the same text. |
| EditMember.ResetValues | src/components/EditMemberDialog.tsx:69-83 | The reset equals the defaults for a member with an activity level, and keeps the level as it is. |
| EditMember.DefaultValues | src/components/EditMemberDialog.tsx:55-67 | The form's initial values. `EditMember.ResetValues` states that the reset equals them, and `EditMember.SaveUnchanged` that saving them writes the member back. |
| EditMember.ParseSkills | src/components/EditMemberDialog.tsx:90-93 | The parsed skills are the non-empty trimmed comma-separated pieces, in order, each as often as it occurs. There are at most one more of them than commas. |
| EditMember.DropEmpty | src/components/EditMemberDialog.tsx:93 | The kept entries are the non-empty ones, in order, each with its multiplicity, and no empty one. |
| EditMember.Submit | src/components/EditMemberDialog.tsx:85-108 | Nothing is sent without a member. Otherwise the update for its id keeps the name and level, turns empty optional texts into null and parses the skills. |
| EditMember.SkillsRoundTrip | src/components/EditMemberDialog.tsx:65-93 | Joining well-formed skills with ", " and parsing them back gives the same list. |
| EditMember.SaveUnchanged | src/components/EditMemberDialog.tsx:69-108 | Saving a member without edits writes back every field, with empty texts as null. |
| EditCompany.CountOrZero | src/components/EditCompanyDialog.tsx:60 | A missing employee count becomes 0. A present one is kept. |
| EditCompany.ResetValues | src/components/EditCompanyDialog.tsx:64-76 | The reset equals the defaults for a company with an engagement level, and keeps the level as it is. |
| EditCompany.DefaultValues | src/components/EditCompanyDialog.tsx:52-62 | The form's initial values. `EditCompany.ResetValues` states that the reset equals them, and `EditCompany.SaveUnchanged` that saving them writes the company back. |
| EditCompany.Submit | src/components/EditCompanyDialog.tsx:78-95 | Nothing is sent without a company. Otherwise the update for its id keeps the name, level and count, and turns empty texts into null. |
| EditCompany.SaveUnchanged | src/components/EditCompanyDialog.tsx:64-95 | Saving a company without edits writes back every field. Empty texts become null and a missing count becomes 0. |
| MockData.ReduceFrom | src/data/mockData.ts:322-324 | The reduction ends on the last industry with the largest growth rate. |
| MockData.TopGrowth | src/data/mockData.ts:322-324 | An empty table has no answer. Otherwise the answer is the last industry with the largest growth rate. |
| MockData.TiesGoToLater | src/data/mockData.ts:322-324 | Of two industries with equal growth, the later one wins. |
| MockData.Compute | src/data/mockData.ts:317-325 | The totals are sums and the island count is the table length. The average is the unguarded mean. The top industry is as above. |
| MockData.ShippedMembers | src/data/mockData.ts:318 | The shipped member total is 2662. |
| MockData.ShippedCompanies | src/data/mockData.ts:319 | The shipped company total is 458. |
| MockData.ShippedGrowth | src/data/mockData.ts:321 | The shipped growth rates add up to 84.4. |
| MockData.ShippedAverage | src/data/mockData.ts:321 | The shipped average growth is 8.44 in exact arithmetic. |
| MockData.ShippedTopGrowth | src/data/mockData.ts:322-324 | The fastest-growing shipped industry is Technology. |
| MockData.ShippedStats | src/data/mockData.ts:317-324 | The shipped figures are 2662 members, 458 companies, 5 islands, an average of 8.44 in exact arithmetic, and Technology at 15.8. |
| Sidebar.NavClasses | src/components/HTWSidebar.tsx:91-96 | The active classes are used iff the link is active. Otherwise the inactive classes are used. |
| Sidebar.NavClassesIgnoreColor | src/components/HTWSidebar.tsx:91-96 | The classes do not depend on the colour argument. |
| Sidebar.ActiveOnOwnPage | src/components/HTWSidebar.tsx:86-89 | Each of the seven links is active on its own url. |
| Sidebar.OnlyDashboardAtRoot | src/components/HTWSidebar.tsx:86-89 | On '/', the dashboard is the only active link. |
| Sidebar.PrefixNotSegmentAware | src/components/HTWSidebar.tsx:88 | The prefix test is on characters: '/members/42' and '/membership' both activate Members. |
| Sidebar.AtMostOneActive | src/components/HTWSidebar.tsx:86-89 | On any path, at most one of the seven links is active. |
| Sidebar.IsActive | src/components/HTWSidebar.tsx:86-89 | The active test. `Sidebar.ActiveOnOwnPage`, `Sidebar.OnlyDashboardAtRoot`, `Sidebar.PrefixNotSegmentAware` and `Sidebar.AtMostOneActive` state its behaviour. |
| Text.SplitJoin | src/components/BulkUploadDialog.tsx:447-448 | Splitting the join of non-empty-list, separator-free pieces gives back the pieces. |
| Numbers.ParseIntRoundTrip | src/components/IndustryDialog.tsx:210 | parseInt reads back the decimal string of any integer. |
| Numbers.ParseInt | src/components/IndustryDialog.tsx:210 | The `parseInt` reader. `Numbers.ParseIntRoundTrip` and `Numbers.ParseIntNoDigits` state that it reads back integers and gives NaN without a leading digit. |
| Numbers.ParseIntNoDigits | src/components/IndustryDialog.tsx:210 | Without a digit where the digits must start, parseInt gives NaN. |
| Numbers.ParseFloat | src/components/IndustryDialog.tsx:235 | The `parseFloat` reader. `Numbers.ParseFloatRoundTrip` and `Numbers.ParseFloatUnsigned` state what it reads. |
| Numbers.ParseFloatRoundTrip | src/components/IndustryDialog.tsx:235 | parseFloat reads back the decimal string of any integer exactly. |
| Numbers.StringToNumber | src/components/MapControl.tsx:98-99 | The `Number(string)` reader. `Numbers.StringToNumberRoundTrip` states that it reads back integers. |
| Numbers.StringToNumberRoundTrip | src/components/MapControl.tsx:98-99 | Number reads back the decimal string of any integer exactly. |
| Numbers.ScaleByPow10Spec | src/pages/Analytics.tsx:93 | Scaling a literal's value by its exponent is multiplication by 10^e, or division by 10^-e when e is negative. |
| Numbers.ScanPointNumber | src/pages/Analytics.tsx:93 | A text of digits, a point and more digits is read in full as the whole part plus the fraction over 10 to the number of fraction digits. |
| Numbers.ParseFloatUnsigned | src/pages/Analytics.tsx:93 | parseFloat of a text starting with a digit is the value of the unsigned decimal literal at its front. |
| Seqs.SortDescSpec | src/pages/Analytics.tsx:81 | The descending sort is a non-increasing permutation, and it is stable: items with equal keys keep their order. |

## Left out

- Backend calls and their plumbing are parameters of the model, not
  behaviour in it: fetches, inserts, updates, deletes and sign-in. A fetch is
  an input `Result`, and a save's outcome is a boolean or an error text. Toast
  timing, loading flags and `console.error` are not modelled.
- Rendering (JSX, icons, CSS beyond the pure class-choosing functions) and
  `window.open` are not modelled. So is the order in which overlapping async
  fetches complete.
- A null in a text column the component reads as a string makes JavaScript
  throw a TypeError, for example a company row without a name in the map
  panel's `toLowerCase` call. The records give such fields a non-optional
  type, so this throw is not modelled.
- The nullable numeric columns (industry `member_count`, `company_count` and
  `growth_rate`, island `member_count`) are plain numbers in the model. A
  model value stands for the number JavaScript coerces the column to, with
  null read as 0. That is exact for `+`, `-`, `*`, `/` and comparisons, which
  are all the components apply to them.
- Numbers are exact reals, not IEEE doubles. Rounding error in sums and
  percentages is not modelled.
- MockData.ShippedAverage: states 8.44 in exact arithmetic. The double fold
  of the growth rates gives 84.4, and 84.4 / 10 in doubles is
  8.440000000000001.
- `toLocaleString` and `toFixed` are not modelled where they only format for
  display. Dates are not modelled.
- Analytics.FormatNumber: rounds an exact tie up on integers. `toFixed`
  rounds the nearest double, so a few ties differ: 1150 shows "1.1k" in the
  browser and "1.2k" in the model.
- Numbers.StringToNumber: reads decimal literals only. `Infinity`, hex,
  binary and octal literals, which `Number` accepts, are read as NaN.
- Numbers.ParseFloat: does not recognise an `Infinity` prefix.
- Members.Initials: upper-cases ASCII letters only. `toUpperCase` maps every
  Unicode letter, so "Ālika Kealoha" shows "ĀK" in the browser and "āK" in
  the model. A leading "ß" becomes "SS", so the browser can show more
  initials than words. `n[0]` is a UTF-16 code unit, so a name starting with
  an astral character gives a lone surrogate in the browser; the model takes
  whole characters.
- Search.TextMatches: case mapping is ASCII-only. Full Unicode case folding
  is not modelled.
- BulkUpload.ReplaceRow: requires an index in range. The dialog only calls it
  for rendered rows. An out-of-range index in JavaScript would create a
  sparse entry, which is not modelled.
- BulkUpload.UpdateCompanyData: requires an index in range, for the same
  reason.
- BulkUpload.UpdateMemberData: requires an index in range, for the same
  reason.
- EditCompany.Submit: treats the employee count as a number. The form
  library's `min: 0` validation, which blocks a negative count before submit,
  is not modelled.
- The `topIndustries` per-island lists, coordinates and `monthlyGrowth` of
  the mock data, and its company and member tables, take part in no computed
  figure and are not modelled.
- The map itself (`src/components/Map.tsx`) is not part of this model: it is
  a Mapbox map with markers, DOM listeners and HTTP geocoding.
- The admin tools, search, dashboard, login, app shell, layout and stats-card
  files are not part of this model: they hold no logic beyond fixed content
  and library calls.

## Findings

| source | as written | input that shows it | evidently intended | confidence | as-written member | corrected member |
|---|---|---|---|---|---|---|
| src/components/IndustryDialog.tsx:78-86 | The form state is seeded from `industry` only when the dialog mounts. The industries page mounts it once with no industry (src/pages/Industries.tsx:331-337), and nothing re-seeds the form when Edit later passes an industry. | Load the page, then choose Edit on Technology (398 members). The form shows an empty name, so Save is disabled. After typing "Technology" and saving, the update writes 0 members, 0 companies, growth 0 and the default colour and icon. | Opening the dialog shows the chosen industry, as the member and company edit dialogs do with their reset effect (src/components/EditMemberDialog.tsx:69-83). Saving unchanged then writes back what is stored. | not executed | IndustryDialog.EditShowsStaleForm | IndustryDialog.SyncedEditShowsIndustry |
| src/pages/Analytics.tsx:306-307 | The growth card calls `sort` on the stored `topIndustries` array, which sorts it in place. The member-share card (line 259) reads the same array. | Take A with 100 members and growth 1.0, and B with 50 members and growth 9.0. The first render lists A, B by members. Any later render of the same figures (for example after choosing another timeframe, before the refetch completes) lists B, A under "by members". | The growth ranking sorts a copy, and the member-share card stays ordered by member count. | not executed | Analytics.RenderInPlaceReorders | Analytics.RenderKeepsRankings |
