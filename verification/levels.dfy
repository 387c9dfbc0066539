/** The search-box test the list pages share, and the three-valued
    activity/engagement level with its badge colours. */
module Search {
  import opened Wrappers
  import Text

  /** `text.toLowerCase().includes(term.toLowerCase())`. */
  predicate TextMatches(text: string, term: string) {
    Text.IncludesIgnoreCase(text, term)
  }

  /** `text?.toLowerCase().includes(term.toLowerCase())`: an absent field
      yields `undefined`, which the filter treats as false. */
  predicate OptionalMatches(text: Option<string>, term: string) {
    text.Some? && TextMatches(text.value, term)
  }

  /** The lower-cased term occurs in the lower-cased text. */
  ghost predicate OccursIgnoringCase(text: string, term: string) {
    exists i :: Text.OccursAt(Text.Lower(text), Text.Lower(term), i)
  }

  /** The search test is substring search on lower-cased text. */
  lemma TextMatchesSpec(text: string, term: string)
    ensures TextMatches(text, term) <==> OccursIgnoringCase(text, term)
  {
  }

  /** An empty term matches every present text. */
  lemma EmptyTermMatches(text: string)
    ensures TextMatches(text, "")
  {
    Text.IncludesIgnoreCaseEmpty(text);
  }

  /** Wherever a term followed by more text occurs, the term occurs. */
  lemma NarrowerTerm(text: string, term: string, more: string)
    ensures TextMatches(text, term + more) ==> TextMatches(text, term)
  {
    if TextMatches(text, term + more) {
      TextMatchesSpec(text, term + more);
      TextMatchesSpec(text, term);
      var low := Text.Lower(text);
      var i :| Text.OccursAt(low, Text.Lower(term + more), i);
      assert Text.Lower(term + more)[..|term|] == Text.Lower(term);
      assert Text.OccursAt(low, Text.Lower(term), i);
    }
  }
}


module Levels {
  import Text
  import Stats

  /** The activity or engagement level read case-insensitively. */
  datatype Level = High | Medium | Low | Other

  /** `switch (level.toLowerCase())` with cases 'high', 'medium', 'low'. */
  function Classify(level: string): Level {
    var l := Text.Lower(level);
    if l == "high" then High
    else if l == "medium" then Medium
    else if l == "low" then Low
    else Other
  }

  /** Two spellings that lower-case alike are classified alike. */
  lemma ClassifyIgnoresCase(a: string, b: string)
    requires Text.Lower(a) == Text.Lower(b)
    ensures Classify(a) == Classify(b)
  {
  }

  /** Classification sees only the lower-cased text. */
  lemma ClassifyOfLower(level: string)
    ensures Classify(Text.Lower(level)) == Classify(level)
  {
    Text.LowerIdempotent(level);
  }

  /** Any capitalisation of "high" is recognised. */
  lemma ClassifySpellingsHigh()
    ensures Classify("High") == High && Classify("HIGH") == High && Classify("high") == High
  {
    assert Text.Lower("High") == "high";
    assert Text.Lower("HIGH") == "high";
    assert Text.Lower("high") == "high";
  }

  /** Any capitalisation of "medium" and "low" is recognised. */
  lemma ClassifySpellingsMediumLow()
    ensures Classify("Medium") == Medium && Classify("mEdIuM") == Medium
    ensures Classify("Low") == Low && Classify("LOW") == Low
  {
    assert Text.Lower("Medium") == "medium";
    assert Text.Lower("mEdIuM") == "medium";
    assert Text.Lower("Low") == "low";
    assert Text.Lower("LOW") == "low";
  }

  /** Nothing but those three words is recognised. */
  lemma ClassifySpellingsOther()
    ensures Classify("") == Other && Classify("Hi") == Other && Classify("very high") == Other
  {
    assert Text.Lower("Hi") == "hi";
    assert |Text.Lower("very high")| == 9;
  }

  /** `getActivityColor` of the members and companies pages. */
  function ActivityColor(level: string): (r: string)
    ensures r == "text-green-400" <==> Classify(level) == High
    ensures r == "text-yellow-400" <==> Classify(level) == Medium
    ensures r == "text-red-400" <==> Classify(level) == Low
    ensures r == "text-gray-400" <==> Classify(level) == Other
  {
    match Classify(level)
    case High => "text-green-400"
    case Medium => "text-yellow-400"
    case Low => "text-red-400"
    case Other => "text-gray-400"
  }

  /** `getEngagementColor` of the companies page. */
  function EngagementColor(level: string): (r: string)
    ensures r == "bg-green-500/20 text-green-400 border-green-500/30" <==> Classify(level) == High
    ensures r == "bg-yellow-500/20 text-yellow-400 border-yellow-500/30" <==> Classify(level) == Medium
    ensures r == "bg-red-500/20 text-red-400 border-red-500/30" <==> Classify(level) == Low
    ensures r == "bg-gray-500/20 text-gray-400 border-gray-500/30" <==> Classify(level) == Other
  {
    match Classify(level)
    case High => "bg-green-500/20 text-green-400 border-green-500/30"
    case Medium => "bg-yellow-500/20 text-yellow-400 border-yellow-500/30"
    case Low => "bg-red-500/20 text-red-400 border-red-500/30"
    case Other => "bg-gray-500/20 text-gray-400 border-gray-500/30"
  }

  /** Both badge colours ignore case: a level and its lower-cased form get
      the same colour. */
  lemma ColorsIgnoreCase(level: string)
    ensures ActivityColor(Text.Lower(level)) == ActivityColor(level)
    ensures EngagementColor(Text.Lower(level)) == EngagementColor(level)
  {
    ClassifyOfLower(level);
  }

  // ---------------------------------------------------------------------
  // Threshold colours
  // ---------------------------------------------------------------------

  /** The four colour bands of a number judged against three descending
      thresholds. */
  datatype Tier = Green | Yellow | Orange | Red

  /** `if (x > high) green; if (x > mid) yellow; if (x > low) orange; red`.
      NaN fails every comparison and lands in the red band. */
  function TierOf(x: Stats.Num, high: real, mid: real, low: real): Tier {
    if x.Above(high) then Green
    else if x.Above(mid) then Yellow
    else if x.Above(low) then Orange
    else Red
  }

  function TierRank(t: Tier): nat {
    match t
    case Red => 0
    case Orange => 1
    case Yellow => 2
    case Green => 3
  }

  /** The `text-<colour>-500` class of a band. */
  function TierTextColor(t: Tier): string {
    match t
    case Green => "text-green-500"
    case Yellow => "text-yellow-500"
    case Orange => "text-orange-500"
    case Red => "text-red-500"
  }

  /** Different bands have different colours. */
  lemma TierColorsDistinct(a: Tier, b: Tier)
    ensures TierTextColor(a) == TierTextColor(b) <==> a == b
  {
  }

  /** A larger number never gets a lower band. */
  lemma TierMonotone(x: real, y: real, high: real, mid: real, low: real)
    requires high >= mid >= low && x <= y
    ensures TierRank(TierOf(Stats.Finite(x), high, mid, low)) <= TierRank(TierOf(Stats.Finite(y), high, mid, low))
  {
  }

  /** The band is red exactly when the number is not above the lowest
      threshold (NaN included). */
  lemma TierRedIff(x: Stats.Num, high: real, mid: real, low: real)
    requires high >= mid >= low
    ensures TierOf(x, high, mid, low) == Red <==> !x.Above(low)
  {
  }
}
