/** The shipped demonstration tables and the dashboard figures computed from
    them: totals, average growth and the fastest-growing industry. */
module MockData {
  import opened Wrappers
  import Seqs
  import Stats

  datatype Industry = Industry(
    id: string,
    name: string,
    memberCount: int,
    companyCount: int,
    growthRate: real,
    color: string,
    icon: string)

  /** An island row; its per-island industry list and coordinates play no
      part in the figures. */
  datatype Island = Island(name: string, memberCount: int, companyCount: int)

  function MemberCount(i: Industry): int { i.memberCount }
  function CompanyCount(i: Industry): int { i.companyCount }
  function GrowthRate(i: Industry): real { i.growthRate }

  const Industries: seq<Industry> := [
    Industry("tourism", "Tourism & Hospitality", 612, 89, 8.2, "#FF8A65", "\U{1F3E8}"),
    Industry("healthcare", "Healthcare", 445, 67, 12.5, "#4CAF50", "\U{1F3E5}"),
    Industry("technology", "Technology", 398, 52, 15.8, "#1E88E5", "\U{1F4BB}"),
    Industry("finance", "Finance & Banking", 289, 34, 6.7, "#E91E63", "\U{1F3E6}"),
    Industry("government", "Government", 245, 28, 3.2, "#37474F", "\U{1F3DB}\U{FE0F}"),
    Industry("education", "Education", 198, 23, 9.1, "#FF7043", "\U{1F393}"),
    Industry("retail", "Retail & E-commerce", 156, 45, 11.3, "#2E7D32", "\U{1F6CD}\U{FE0F}"),
    Industry("real-estate", "Real Estate", 134, 67, 4.8, "#C2185B", "\U{1F3E0}"),
    Industry("agriculture", "Agriculture", 98, 34, 7.2, "#4CAF50", "\U{1F331}"),
    Industry("transportation", "Transportation", 87, 19, 5.6, "#0277BD", "\U{2708}\U{FE0F}")]

  const Islands: seq<Island> := [
    Island("Oahu", 1847, 234),
    Island("Maui", 456, 67),
    Island("Big Island", 398, 45),
    Island("Kauai", 123, 18),
    Island("Molokai", 23, 4)]

  // ---------------------------------------------------------------------
  // The fastest-growing industry
  // ---------------------------------------------------------------------

  /** Position k holds a largest growth rate, and every later one is
      strictly smaller: the last of the largest. */
  ghost predicate IsLastMax(s: seq<Industry>, k: int) {
    && 0 <= k < |s|
    && (forall j :: 0 <= j < |s| ==> s[j].growthRate <= s[k].growthRate)
    && (forall j :: k < j < |s| ==> s[j].growthRate < s[k].growthRate)
  }

  /** The fold `(prev, current) => prev.growthRate > current.growthRate ?
      prev : current` from position `i` on, with the accumulator at position
      `acc`, which is the last of the largest among the first `i`. */
  function ReduceFrom(s: seq<Industry>, acc: nat, i: nat): (k: nat)
    requires acc < i <= |s|
    requires forall j :: 0 <= j < i ==> s[j].growthRate <= s[acc].growthRate
    requires forall j :: acc < j < i ==> s[j].growthRate < s[acc].growthRate
    ensures IsLastMax(s, k)
    decreases |s| - i
  {
    if i == |s| then acc
    else ReduceFrom(s, if s[acc].growthRate > s[i].growthRate then acc else i, i + 1)
  }

  /** `industries.reduce(...)` with no initial value: an empty table has no
      answer (the call throws); otherwise the last industry with the
      largest growth rate. */
  function TopGrowth(s: seq<Industry>): (r: Option<Industry>)
    ensures r.Some? <==> |s| > 0
    ensures r.Some? ==> exists k :: IsLastMax(s, k) && r.value == s[k]
  {
    if |s| == 0 then None else Some(s[ReduceFrom(s, 0, 1)])
  }

  /** The last of the largest is unique, so it pins the answer down. */
  lemma LastMaxUnique(s: seq<Industry>, k: int, m: int)
    requires IsLastMax(s, k) && IsLastMax(s, m)
    ensures k == m
  {
    var a, b := s[k].growthRate, s[m].growthRate;
    if k < m {
      assert false;
    } else if m < k {
      assert false;
    }
  }

  /** Of two industries with the same growth rate, the later one wins. */
  lemma TiesGoToLater(a: Industry, b: Industry)
    requires a.growthRate == b.growthRate
    ensures TopGrowth([a, b]) == Some(b)
  {
    var k :| IsLastMax([a, b], k) && TopGrowth([a, b]).value == [a, b][k];
    LastMaxUnique([a, b], k, 1);
  }

  // ---------------------------------------------------------------------
  // Dashboard figures
  // ---------------------------------------------------------------------

  datatype DashboardStats = DashboardStats(
    totalMembers: int,
    totalCompanies: int,
    totalIslands: nat,
    averageGrowthRate: Stats.Num,
    topGrowthIndustry: Option<Industry>)

  /** `dashboardStats` over given tables. The average is the unguarded
      mean, NaN for an empty table. */
  function Compute(industries: seq<Industry>, islands: seq<Island>): (r: DashboardStats)
    ensures r.totalMembers == Seqs.Sum(industries, MemberCount)
    ensures r.totalCompanies == Seqs.Sum(industries, CompanyCount)
    ensures r.totalIslands == |islands|
    ensures r.averageGrowthRate == Stats.Mean(industries, GrowthRate)
    ensures r.topGrowthIndustry == TopGrowth(industries)
  {
    DashboardStats(
      Seqs.Sum(industries, MemberCount),
      Seqs.Sum(industries, CompanyCount),
      |islands|,
      Stats.Mean(industries, GrowthRate),
      TopGrowth(industries))
  }

  /** The member total of the shipped industry table. */
  lemma ShippedMembers()
    ensures Seqs.Sum(Industries, MemberCount) == 2662
  {
    var s := Industries;
    var k := 0;
    while k < |s|
      invariant 0 <= k <= |s|
      invariant Seqs.Sum(s[..k], MemberCount) == [0, 612, 1057, 1455, 1744, 1989, 2187, 2343, 2477, 2575, 2662][k]
    {
      Seqs.SumPrefixStep(s, k + 1, MemberCount);
      k := k + 1;
    }
    assert s[..k] == s;
  }

  /** The company total of the shipped industry table. */
  lemma ShippedCompanies()
    ensures Seqs.Sum(Industries, CompanyCount) == 458
  {
    var s := Industries;
    var k := 0;
    while k < |s|
      invariant 0 <= k <= |s|
      invariant Seqs.Sum(s[..k], CompanyCount) == [0, 89, 156, 208, 242, 270, 293, 338, 405, 439, 458][k]
    {
      Seqs.SumPrefixStep(s, k + 1, CompanyCount);
      k := k + 1;
    }
    assert s[..k] == s;
  }

  /** The growth-rate total of the shipped industry table. */
  lemma ShippedGrowth()
    ensures Seqs.SumReal(Industries, GrowthRate) == 84.4
  {
    var s := Industries;
    var k := 0;
    while k < |s|
      invariant 0 <= k <= |s|
      invariant Seqs.SumReal(s[..k], GrowthRate) == [0.0, 8.2, 20.7, 36.5, 43.2, 46.4, 55.5, 66.8, 71.6, 78.8, 84.4][k]
    {
      Seqs.SumRealPrefixStep(s, k + 1, GrowthRate);
      k := k + 1;
    }
    assert s[..k] == s;
  }

  /** The figures on the shipped tables: 2662 members, 458 companies, five
      islands, an average growth of 8.44 in exact arithmetic and Technology
      as the fastest-growing industry. */
  lemma ShippedStats()
    ensures Compute(Industries, Islands) ==
            DashboardStats(2662, 458, 5, Stats.Finite(8.44), Some(Industries[2]))
    ensures Industries[2].name == "Technology" && Industries[2].growthRate == 15.8
  {
    ShippedMembers();
    ShippedCompanies();
    ShippedGrowth();
    ShippedAverage();
    ShippedTopGrowth();
  }

  /** 84.4 over ten industries, in exact arithmetic. */
  lemma ShippedAverage()
    ensures Stats.Mean(Industries, GrowthRate) == Stats.Finite(8.44)
  {
    ShippedGrowth();
    assert |Industries| as real == 10.0;
  }

  /** Technology, third in the table, grows fastest. */
  lemma ShippedTopGrowth()
    ensures TopGrowth(Industries) == Some(Industries[2])
  {
    var s := Industries;
    assert IsLastMax(s, 2);
    var k :| IsLastMax(s, k) && TopGrowth(s).value == s[k];
    LastMaxUnique(s, k, 2);
  }
}
