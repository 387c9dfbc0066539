/** The geographic page: island totals, the island icons, the tech-share
    colour, each island's share of members and its members per company. */
module Geographic {
  import Seqs
  import Stats
  import Levels

  /** An island row (its map coordinates are not read here). */
  datatype Island = Island(
    id: string,
    name: string,
    memberCount: int,
    companyCount: int,
    population: int,
    techPercentage: real)

  function MemberCount(i: Island): int {
    i.memberCount
  }

  function CompanyCount(i: Island): int {
    i.companyCount
  }

  /** `totalMembers` and `totalCompanies`. */
  function Totals(islands: seq<Island>): (int, int) {
    (Seqs.Sum(islands, MemberCount), Seqs.Sum(islands, CompanyCount))
  }

  const CityIcon := "\U{1F3D9}\U{FE0F}"
  const VolcanoIcon := "\U{1F30B}"
  const ParkIcon := "\U{1F3DE}\U{FE0F}"
  const HerbIcon := "\U{1F33F}"
  const IslandIcon := "\U{1F3DD}\U{FE0F}"

  /** `getIslandIcon`: an exact, case-sensitive match on the island's name. */
  function Icon(name: string): (r: string)
    ensures name == "Oahu" <==> r == CityIcon
    ensures name == "Maui" <==> r == VolcanoIcon
    ensures name == "Big Island" <==> r == ParkIcon
    ensures name == "Kauai" <==> r == HerbIcon
    ensures r == IslandIcon <==> name !in {"Oahu", "Maui", "Big Island", "Kauai"}
  {
    if name == "Oahu" then CityIcon
    else if name == "Maui" then VolcanoIcon
    else if name == "Big Island" then ParkIcon
    else if name == "Kauai" then HerbIcon
    else IslandIcon
  }

  /** Molokai has no icon of its own: it shares the default one, and the
      match is case-sensitive. */
  lemma IconExamples()
    ensures Icon("Molokai") == Icon("Lanai") == IslandIcon
    ensures Icon("oahu") == IslandIcon
  {
  }

  /** `getMarketShareColor`, applied to the island's tech percentage. */
  function MarketShareColor(percentage: real): string {
    Levels.TierTextColor(Levels.TierOf(Stats.Finite(percentage), 60.0, 30.0, 15.0))
  }

  /** The colour bands of the tech share. */
  lemma MarketShareBands(p: real)
    ensures MarketShareColor(p) == "text-green-500" <==> p > 60.0
    ensures MarketShareColor(p) == "text-yellow-500" <==> 30.0 < p <= 60.0
    ensures MarketShareColor(p) == "text-orange-500" <==> 15.0 < p <= 30.0
    ensures MarketShareColor(p) == "text-red-500" <==> p <= 15.0
  {
    var t := Levels.TierOf(Stats.Finite(p), 60.0, 30.0, 15.0);
    forall u: Levels.Tier ensures Levels.TierTextColor(t) == Levels.TierTextColor(u) <==> t == u {
      Levels.TierColorsDistinct(t, u);
    }
  }

  /** The island's share of all members, in percent, as displayed. */
  function MemberShare(island: Island, totalMembers: int): Stats.Num {
    Stats.Percentage(island.memberCount, totalMembers)
  }

  /** The width of the island's share bar: `Math.min(share, 100)`. */
  function ShareBarWidth(island: Island, totalMembers: int): Stats.Num {
    Stats.Min(MemberShare(island, totalMembers), 100.0)
  }

  /** An island's bar is exactly its share of the members, which lies
      between 0 and 100, when the total is the sum of non-negative counts;
      the cap never applies. */
  lemma ShareBarIsShare(islands: seq<Island>, i: int)
    requires forall j :: 0 <= j < |islands| ==> islands[j].memberCount >= 0
    requires 0 <= i < |islands| && Totals(islands).0 > 0
    ensures var total := Totals(islands).0;
            && ShareBarWidth(islands[i], total) == MemberShare(islands[i], total)
            && 0.0 <= MemberShare(islands[i], total).value <= 100.0
  {
    var total := Totals(islands).0;
    Seqs.SumBoundsTerm(islands, MemberCount, i);
  }

  /** The displayed shares of all islands add up to 100 percent. */
  lemma SharesAddUp(islands: seq<Island>)
    requires Totals(islands).0 != 0
    ensures var total := Totals(islands).0;
            Seqs.SumReal(islands, x => Stats.ShareOf(MemberCount(x), total)) == 100.0
  {
    var total := Totals(islands).0;
    Stats.SharesSumTo100(islands, MemberCount, x => Stats.ShareOf(MemberCount(x), total), total);
  }

  /** Members per company: `member_count / company_count`; an island with
      members but no companies shows Infinity, one with neither NaN. */
  function MembersPerCompany(island: Island): (r: Stats.Num)
    ensures island.companyCount == 0 && island.memberCount > 0 ==> r == Stats.PosInf
    ensures island.companyCount == 0 && island.memberCount == 0 ==> r == Stats.NaN
    ensures r.Finite? ==> r.value * island.companyCount as real == island.memberCount as real
  {
    Stats.Div(island.memberCount as real, island.companyCount as real)
  }
}
