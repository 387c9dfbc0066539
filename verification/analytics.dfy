/** The analytics page: the figures computed from the industry and island
    rows, the growth colour and arrow, and the compact number format. */
module Analytics {
  import opened Wrappers
  import Seqs
  import Stats
  import Levels
  import Numbers

  /** An industry row as the page selects it. */
  datatype IndustryRow = IndustryRow(name: string, memberCount: int, companyCount: int, growthRate: real, color: string)

  /** An island row as the page selects it. */
  datatype IslandRow = IslandRow(name: string, memberCount: int)

  /** An island with its share of all island members, in percent. */
  datatype IslandShare = IslandShare(name: string, memberCount: int, percentage: Stats.Num)

  /** The figures the page shows. */
  datatype Data = Data(
    totalMembers: int,
    totalCompanies: int,
    totalIndustries: nat,
    memberGrowth: Stats.Num,
    companyGrowth: Stats.Num,
    topIndustries: seq<IndustryRow>,
    islandDistribution: seq<IslandShare>)

  function IndustryMembers(r: IndustryRow): int {
    r.memberCount
  }

  function IndustryCompanies(r: IndustryRow): int {
    r.companyCount
  }

  function Growth(r: IndustryRow): real {
    r.growthRate
  }

  /** The sort key of the member ranking (`b.member_count - a.member_count`). */
  function MemberKey(r: IndustryRow): real {
    r.memberCount as real
  }

  /** The sort key of the growth ranking (`b.growth_rate - a.growth_rate`). */
  function GrowthKey(r: IndustryRow): real {
    r.growthRate
  }

  function IslandMembers(r: IslandRow): int {
    r.memberCount
  }

  function ShareMembers(s: IslandShare): int {
    s.memberCount
  }

  function ShareKey(s: IslandShare): real {
    s.memberCount as real
  }

  /** A share's percentage as a real for summing; a non-finite percentage
      (a zero island total) contributes 0. */
  function ShareValue(s: IslandShare): real {
    if s.percentage.Finite? then s.percentage.value else 0.0
  }

  /** `islands.map(island => ({...island, percentage: (count / total) * 100}))`. */
  function Shares(islands: seq<IslandRow>, total: int): (r: seq<IslandShare>)
    ensures |r| == |islands|
    ensures forall i :: 0 <= i < |r| ==>
              r[i] == IslandShare(islands[i].name, islands[i].memberCount, Stats.Percentage(islands[i].memberCount, total))
  {
    seq(|islands|, i requires 0 <= i < |islands| =>
      IslandShare(islands[i].name, islands[i].memberCount, Stats.Percentage(islands[i].memberCount, total)))
  }

  /** `industries.sort(by member count, descending).slice(0, 5)`. Since the
      sort is stable, of the industries sharing one member count those shown
      are the first ones of the input, in input order. */
  function TopIndustries(industries: seq<IndustryRow>): (r: seq<IndustryRow>)
    ensures |r| == if |industries| < 5 then |industries| else 5
    ensures multiset(r) <= multiset(industries)
    ensures forall k :: Seqs.WithKey(r, MemberKey, k) <= Seqs.WithKey(industries, MemberKey, k)
  {
    var sorted := Seqs.SortDesc(industries, MemberKey);
    var r := Seqs.Take(sorted, 5);
    assert sorted == r + sorted[|r|..];
    Seqs.SortDescSpec(industries, MemberKey);
    forall k ensures Seqs.WithKey(r, MemberKey, k) <= Seqs.WithKey(industries, MemberKey, k) {
      Seqs.WithKeyPrefix(sorted, |r|, MemberKey, k);
    }
    r
  }

  /** The top industries are ranked by member count. */
  lemma TopIndustriesRanked(industries: seq<IndustryRow>)
    ensures Seqs.NonIncreasing(TopIndustries(industries), MemberKey)
  {
    var sorted := Seqs.SortDesc(industries, MemberKey);
    Seqs.SortDescOrdered(industries, MemberKey);
    var top := TopIndustries(industries);
    forall i, j | 0 <= i < j < |top| ensures MemberKey(top[i]) >= MemberKey(top[j]) {
      assert top[i] == sorted[i] && top[j] == sorted[j];
    }
  }

  /** No industry left out of the top industries has more members than any
      industry shown. */
  lemma TopIndustriesAreLargest(industries: seq<IndustryRow>)
    ensures forall y, i :: y in multiset(industries) - multiset(TopIndustries(industries)) && 0 <= i < |TopIndustries(industries)|
              ==> y.memberCount <= TopIndustries(industries)[i].memberCount
  {
    var sorted := Seqs.SortDesc(industries, MemberKey);
    var top := TopIndustries(industries);
    Seqs.SortDescOrdered(industries, MemberKey);
    Seqs.TakeDominates(sorted, MemberKey, 5);
    forall y, i | y in multiset(industries) - multiset(top) && 0 <= i < |top|
      ensures y.memberCount <= top[i].memberCount
    {
      assert MemberKey(y) <= MemberKey(sorted[i]);
    }
  }

  /** `islandDistribution`: each island with its share, by member count. */
  function Distribution(islands: seq<IslandRow>): (r: seq<IslandShare>)
    ensures |r| == |islands|
    ensures multiset(r) == multiset(Shares(islands, Seqs.Sum(islands, IslandMembers)))
  {
    Seqs.SortDesc(Shares(islands, Seqs.Sum(islands, IslandMembers)), ShareKey)
  }

  /** The figures of `fetchAnalytics` for the rows fetched. */
  function Compute(industries: seq<IndustryRow>, islands: seq<IslandRow>): (d: Data)
    ensures d.totalMembers == Seqs.Sum(industries, IndustryMembers)
    ensures d.totalCompanies == Seqs.Sum(industries, IndustryCompanies)
    ensures d.totalIndustries == |industries|
    ensures d.memberGrowth == Stats.Mean(industries, Growth)
    ensures d.companyGrowth == Stats.Scale(d.memberGrowth, 0.8)
    ensures d.topIndustries == TopIndustries(industries)
    ensures d.islandDistribution == Distribution(islands)
  {
    var avg := Stats.Mean(industries, Growth);
    Data(
      Seqs.Sum(industries, IndustryMembers),
      Seqs.Sum(industries, IndustryCompanies),
      |industries|,
      avg,
      Stats.Scale(avg, 0.8),
      TopIndustries(industries),
      Distribution(islands))
  }

  /** The member growth (the mean growth rate) is a number exactly when
      there are industries, and the company growth is four fifths of it. */
  lemma GrowthFigures(industries: seq<IndustryRow>, islands: seq<IslandRow>)
    ensures var d := Compute(industries, islands);
            && (|industries| > 0 <==> d.memberGrowth.Finite?)
            && (d.companyGrowth.Finite? <==> d.memberGrowth.Finite?)
            && (d.companyGrowth.Finite? ==> d.companyGrowth.value == d.memberGrowth.value * 0.8)
  {
    var d := Compute(industries, islands);
    var avg := Stats.Mean(industries, Growth);
    assert d.memberGrowth == avg;
    assert d.companyGrowth == Stats.Scale(avg, 0.8);
  }

  /** The island distribution lists every island once, by member count. */
  lemma DistributionOrdered(islands: seq<IslandRow>)
    ensures Seqs.NonIncreasing(Distribution(islands), ShareKey)
  {
    Seqs.SortDescSpec(Shares(islands, Seqs.Sum(islands, IslandMembers)), ShareKey);
  }

  /** With no industries the average growth is `0 / 0`: both growth figures
      are NaN, shown red with a falling arrow. */
  lemma NoIndustries(islands: seq<IslandRow>)
    ensures Compute([], islands).memberGrowth == Stats.NaN
    ensures Compute([], islands).companyGrowth == Stats.NaN
    ensures GrowthColor(Stats.NaN) == "text-red-500" && GrowthIcon(Stats.NaN) == Down
  {
  }

  /** The island percentages add up to 100 whenever some island has
      members. */
  lemma DistributionAddsUp(islands: seq<IslandRow>)
    requires Seqs.Sum(islands, IslandMembers) != 0
    ensures Seqs.SumReal(Distribution(islands), ShareValue) == 100.0
  {
    var total := Seqs.Sum(islands, IslandMembers);
    var shares := Shares(islands, total);
    Seqs.SumPointwise(islands, shares, IslandMembers, ShareMembers);
    assert total == Seqs.Sum(shares, ShareMembers);
    SharesArePercentages(islands, total);
    Stats.SharesSumTo100(shares, ShareMembers, ShareValue, total);
    Seqs.SortDescSum(shares, ShareKey, ShareValue);
  }

  /** Against a non-zero total, every share's value is its percentage. */
  lemma SharesArePercentages(islands: seq<IslandRow>, total: int)
    requires total != 0
    ensures var shares := Shares(islands, total);
            forall i :: 0 <= i < |shares| ==>
              ShareValue(shares[i]) == Stats.ShareOf(ShareMembers(shares[i]), total)
  {
  }

  /** `fetchAnalytics`: the figures are replaced when both fetches succeed;
      when either fails the error is only logged and the figures shown
      before remain. */
  function Load(prev: Option<Data>, industries: Result<seq<IndustryRow>>, islands: Result<seq<IslandRow>>): (r: Option<Data>)
    ensures industries.Failure? || islands.Failure? ==> r == prev
    ensures industries.Success? && islands.Success? ==> r == Some(Compute(industries.value, islands.value))
    ensures industries.Success? && islands.Success? ==> r.Some? && r.value.totalIndustries == |industries.value|
  {
    if industries.Failure? || islands.Failure? then prev
    else Some(Compute(industries.value, islands.value))
  }

  /** The outcomes of the two fetches of one `fetchAnalytics` call. */
  datatype Fetch = Fetch(industries: Result<seq<IndustryRow>>, islands: Result<seq<IslandRow>>)

  /** After a successful load, any number of failed loads keep showing the
      figures of that success, whatever was shown before it. */
  lemma {:induction false} LoadKeepsLastSuccess(prev: Option<Data>, industries: seq<IndustryRow>, islands: seq<IslandRow>,
                                                failures: seq<Fetch>)
    requires forall k :: 0 <= k < |failures| ==> failures[k].industries.Failure? || failures[k].islands.Failure?
    ensures LoadAll(Load(prev, Success(industries), Success(islands)), failures) == Some(Compute(industries, islands))
    decreases |failures|
  {
    if |failures| > 0 {
      LoadKeepsLastSuccess(prev, industries, islands, failures[..|failures| - 1]);
    }
  }

  /** Folding `Load` over a sequence of fetch outcomes, in order. */
  function LoadAll(shown: Option<Data>, fetches: seq<Fetch>): Option<Data>
    decreases |fetches|
  {
    if |fetches| == 0 then shown
    else
      var last := fetches[|fetches| - 1];
      Load(LoadAll(shown, fetches[..|fetches| - 1]), last.industries, last.islands)
  }

  // ---------------------------------------------------------------------
  // Growth colour and arrow
  // ---------------------------------------------------------------------

  /** `getGrowthColor`: thresholds 10, 5 and 0. */
  function GrowthColor(growth: Stats.Num): string {
    Levels.TierTextColor(Levels.TierOf(growth, 10.0, 5.0, 0.0))
  }

  datatype Trend = Up | Down

  /** `getGrowthIcon`: a rising arrow for positive growth. */
  function GrowthIcon(growth: Stats.Num): Trend {
    if growth.Above(0.0) then Up else Down
  }

  /** The arrow rises exactly when the colour is not red. */
  lemma IconAgreesWithColor(growth: Stats.Num)
    ensures GrowthIcon(growth) == Up <==> GrowthColor(growth) != "text-red-500"
  {
    Levels.TierRedIff(growth, 10.0, 5.0, 0.0);
    Levels.TierColorsDistinct(Levels.TierOf(growth, 10.0, 5.0, 0.0), Levels.Red);
  }

  /** The four bands of `getGrowthColor`: above 10 green, above 5 yellow,
      above 0 orange, red otherwise (NaN included). */
  lemma GrowthBands(g: Stats.Num)
    ensures GrowthColor(g) == "text-green-500" <==> g.Above(10.0)
    ensures GrowthColor(g) == "text-yellow-500" <==> g.Above(5.0) && !g.Above(10.0)
    ensures GrowthColor(g) == "text-orange-500" <==> g.Above(0.0) && !g.Above(5.0)
    ensures GrowthColor(g) == "text-red-500" <==> !g.Above(0.0)
  {
    var t := Levels.TierOf(g, 10.0, 5.0, 0.0);
    forall u: Levels.Tier ensures Levels.TierTextColor(t) == Levels.TierTextColor(u) <==> t == u {
      Levels.TierColorsDistinct(t, u);
    }
  }

  /** More growth never gets a colour lower in green, yellow, orange, red. */
  lemma GrowthColorMonotone(x: real, y: real)
    requires x <= y
    ensures Levels.TierRank(Levels.TierOf(Stats.Finite(x), 10.0, 5.0, 0.0))
            <= Levels.TierRank(Levels.TierOf(Stats.Finite(y), 10.0, 5.0, 0.0))
  {
    Levels.TierMonotone(x, y, 10.0, 5.0, 0.0);
  }

  // ---------------------------------------------------------------------
  // Number format
  // ---------------------------------------------------------------------

  /** `formatNumber` for a count: below 1000 the plain decimal string, from
      1000 on the thousands with one decimal and a `k` (`toFixed(1)`, with a
      tie rounded up). */
  function FormatNumber(n: int): (r: string)
    ensures n >= 1000 ==> |r| >= 4 && r[|r| - 1] == 'k' && r[|r| - 3] == '.'
  {
    if n >= 1000 then
      var tenths := (n + 50) / 100;
      Numbers.NatToString(tenths / 10) + "." + [Numbers.DigitChar(tenths % 10)] + "k"
    else
      Numbers.IntToString(n)
  }

  /** Below 1000, reading the text back gives the count. */
  lemma FormatNumberSmall(n: int)
    requires n < 1000
    ensures Numbers.ParseInt(FormatNumber(n)) == Some(n)
  {
    Numbers.ParseIntRoundTrip(n);
  }

  /** From 1000 on, the number before the `k` is the count in thousands to
      the nearest tenth. */
  lemma FormatNumberThousands(n: int)
    requires n >= 1000
    ensures var v := Numbers.ParseFloat(FormatNumber(n)[..|FormatNumber(n)| - 1]);
            && v.Some?
            && n as real - 50.0 < v.value * 1000.0 <= n as real + 50.0
  {
    var tenths := (n + 50) / 100;
    var q, d := tenths / 10, tenths % 10;
    var digits := Numbers.NatToString(q);
    var s := FormatNumber(n)[..|FormatNumber(n)| - 1];
    assert s == digits + "." + [Numbers.DigitChar(d)];
    ParseOneDecimal(s, q, d);
    RoundToTenths(n);
  }

  /** The text of `q` followed by a point and the digit `d`. */
  predicate PointText(s: string, q: nat, d: nat)
    requires d < 10
  {
    var digits := Numbers.NatToString(q);
    |s| == |digits| + 2 && s[..|digits|] == digits && s[|digits|] == '.' && s[|digits| + 1] == Numbers.DigitChar(d)
  }

  /** `q.d` reads back as `q + d / 10`. */
  lemma {:induction false} ParseOneDecimal(s: string, q: nat, d: nat)
    requires d < 10 && PointText(s, q, d)
    ensures Numbers.ParseFloat(s) == Some(q as real + d as real / 10.0)
  {
    ScanOneDecimal(s, q, d);
    assert Numbers.DigitValue(s[0], 10).Some? by {
      var digits := Numbers.NatToString(q);
      assert s[0] == s[..|digits|][0] == digits[0];
    }
    Numbers.ParseFloatUnsigned(s, q as real + d as real / 10.0, |s|);
  }

  /** The unsigned literal `q.d` spans the whole text. */
  lemma {:induction false} ScanOneDecimal(s: string, q: nat, d: nat)
    requires d < 10 && PointText(s, q, d)
    ensures Numbers.ScanUnsignedDecimal(s) == Some((q as real + d as real / 10.0, |s|))
  {
    var digits := Numbers.NatToString(q);
    var c := Numbers.DigitChar(d);
    assert Numbers.RunValue([c], 10) == d by {
      Numbers.DigitRunAll([c], 10);
      assert [c][..0] == [];
    }
    assert Numbers.Mantissa(q, d, 1) == q as real + d as real / 10.0 by {
      assert Numbers.ScaleByPow10(d as real, 0) == d as real;
    }
    assert s[|digits| + 1..] == [c];
    Numbers.ScanPointNumber(s, digits, [c]);
  }

  /** Rounding to tenths of a thousand stays within half a tenth. */
  lemma RoundToTenths(n: int)
    requires n >= 1000
    ensures var t := (n + 50) / 100;
            n as real - 50.0 < ((t / 10) as real + (t % 10) as real / 10.0) * 1000.0 <= n as real + 50.0
  {
    var t := (n + 50) / 100;
    assert t * 100 <= n + 50 < t * 100 + 100;
    assert (t / 10) * 10 + t % 10 == t;
    assert ((t / 10) as real + (t % 10) as real / 10.0) * 1000.0 == t as real * 100.0;
  }

  // ---------------------------------------------------------------------
  // The growth ranking rendered from the figures
  // ---------------------------------------------------------------------

  /** What one render shows from the top industries: the member-share card
      in stored order and the growth card. */
  datatype View = View(distribution: seq<IndustryRow>, growthRanking: seq<IndustryRow>)

  /** Rendering as written: the growth card sorts the stored top industries
      in place, so the figures come out of the render reordered by growth. */
  function RenderInPlace(d: Data): (r: (View, Data))
    ensures r.0.distribution == d.topIndustries
    ensures Seqs.NonIncreasing(r.0.growthRanking, GrowthKey)
    ensures r.1.topIndustries == r.0.growthRanking
  {
    var ranking := Seqs.SortDesc(d.topIndustries, GrowthKey);
    Seqs.SortDescSpec(d.topIndustries, GrowthKey);
    (View(d.topIndustries, ranking), d.(topIndustries := ranking))
  }

  /** Two industries ranked by members in one order and by growth in the
      other. */
  const RowA := IndustryRow("A", 100, 10, 1.0, "#000")
  const RowB := IndustryRow("B", 50, 5, 9.0, "#fff")

  lemma TopOfTwo()
    ensures TopIndustries([RowA, RowB]) == [RowA, RowB]
  {
    assert Seqs.SortDesc([RowB], MemberKey) == [RowB];
    assert Seqs.SortDesc([RowA, RowB], MemberKey) == [RowA, RowB];
  }

  lemma GrowthOfTwo()
    ensures Seqs.SortDesc([RowA, RowB], GrowthKey) == [RowB, RowA]
  {
    assert Seqs.SortDesc([RowB], GrowthKey) == [RowB];
  }

  /** After one render in place, the next render's member-share card is no
      longer ordered by member count. */
  lemma RenderInPlaceReorders()
    ensures var d := Compute([RowA, RowB], []);
            && Seqs.NonIncreasing(RenderInPlace(d).0.distribution, MemberKey)
            && !Seqs.NonIncreasing(RenderInPlace(RenderInPlace(d).1).0.distribution, MemberKey)
  {
    var d := Compute([RowA, RowB], []);
    TopOfTwo();
    GrowthOfTwo();
    var next := RenderInPlace(d).1;
    assert next.topIndustries == [RowB, RowA];
    assert RenderInPlace(next).0.distribution[0] == RowB;
  }

  /** Rendering with the growth card sorting a copy: the figures are left as
      they were. */
  function Render(d: Data): (r: View)
    ensures r.distribution == d.topIndustries
    ensures Seqs.NonIncreasing(r.growthRanking, GrowthKey)
    ensures multiset(r.growthRanking) == multiset(d.topIndustries)
  {
    Seqs.SortDescSpec(d.topIndustries, GrowthKey);
    View(d.topIndustries, Seqs.SortDesc(d.topIndustries, GrowthKey))
  }

  /** Every render of computed figures lists the member-share card by member
      count and the growth card by growth, over the same industries. */
  lemma RenderKeepsRankings(industries: seq<IndustryRow>, islands: seq<IslandRow>)
    ensures var v := Render(Compute(industries, islands));
            && Seqs.NonIncreasing(v.distribution, MemberKey)
            && Seqs.NonIncreasing(v.growthRanking, GrowthKey)
            && multiset(v.growthRanking) == multiset(v.distribution)
  {
    TopIndustriesRanked(industries);
  }
}
