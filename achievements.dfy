/** The badge system of the reading passport (lib/achievements.ts): seventeen
    achievements, each unlocked by a `>=` threshold on the passport
    statistics, with the unlocked list and the next three locked ones. */
module Achievements {
  import Seqs

  /** `PassportStats`. `countriesPerContinent` is a record whose missing keys
      read as 0 through `|| 0`. */
  datatype PassportStats = PassportStats(
    totalBooks: int,
    totalCountries: int,
    continentsVisited: seq<string>,
    countriesPerContinent: map<string, int>)

  /** `counts[continent] || 0`: a missing key reads as 0. */
  function CountIn(counts: map<string, int>, continent: string): (n: int)
    ensures continent !in counts ==> n == 0
    ensures continent in counts ==> n == counts[continent]
  {
    if continent in counts then counts[continent] else 0
  }

  /** The sum of `CountIn` over `continents`. */
  function CountAcross(counts: map<string, int>, continents: seq<string>): int {
    if continents == [] then 0 else CountIn(counts, continents[0]) + CountAcross(counts, continents[1..])
  }

  /** The requirement closures of the list: every one is a `>=` threshold. */
  datatype Requirement =
    | BooksAtLeast(books: nat)
    | CountriesAtLeast(countries: nat)
    | ContinentsAtLeast(continents: nat)
    | CountAcrossAtLeast(among: seq<string>, count: nat)

  predicate Holds(req: Requirement, stats: PassportStats) {
    match req
    case BooksAtLeast(n) => stats.totalBooks >= n
    case CountriesAtLeast(n) => stats.totalCountries >= n
    case ContinentsAtLeast(n) => |stats.continentsVisited| >= n
    case CountAcrossAtLeast(among, n) => CountAcross(stats.countriesPerContinent, among) >= n
  }

  datatype Tier = Bronze | Silver | Gold | Platinum

  /** The tier's name, as the source spells it. */
  function TierName(t: Tier): string {
    match t
    case Bronze => "bronze"
    case Silver => "silver"
    case Gold => "gold"
    case Platinum => "platinum"
  }

  datatype Achievement = Achievement(
    id: string,
    name: string,
    description: string,
    icon: string,
    requirement: Requirement,
    tier: Tier)

  predicate Unlocks(a: Achievement, stats: PassportStats) {
    Holds(a.requirement, stats)
  }

  // The entries of `ACHIEVEMENTS`.
  const FirstStamp := Achievement("first-stamp", "First Stamp", "Read your first book from another country",
    "\U{1F4D6}", BooksAtLeast(1), Bronze)
  const Bookworm := Achievement("bookworm", "Bookworm", "Read 5 books from different countries",
    "\U{1F41B}", BooksAtLeast(5), Bronze)
  const AvidReader := Achievement("avid-reader", "Avid Reader", "Read 10 books from around the world",
    "\U{1F4DA}", BooksAtLeast(10), Silver)
  const LiteraryExplorer := Achievement("literary-explorer", "Literary Explorer", "Read 25 books from different cultures",
    "\U{1F52D}", BooksAtLeast(25), Gold)
  const WorldReader := Achievement("world-reader", "World Reader", "Read 50 books from around the globe",
    "\U{1F31F}", BooksAtLeast(50), Platinum)
  const Wanderer := Achievement("wanderer", "Wanderer", "Read books from 5 different countries",
    "\U{1F9ED}", CountriesAtLeast(5), Bronze)
  const Globetrotter := Achievement("globetrotter", "Globetrotter", "Read books from 10 different countries",
    "\U{2708}\U{FE0F}", CountriesAtLeast(10), Silver)
  const WorldTraveler := Achievement("world-traveler", "World Traveler", "Read books from 25 different countries",
    "\U{1F30D}", CountriesAtLeast(25), Gold)
  const CitizenOfWorld := Achievement("citizen-of-world", "Citizen of the World", "Read books from 50 different countries",
    "\U{1F451}", CountriesAtLeast(50), Platinum)
  const ContinentalCurious := Achievement("continental-curious", "Continental Curious", "Read books from 2 different continents",
    "\U{1F5FA}\U{FE0F}", ContinentsAtLeast(2), Bronze)
  const ContinentalExplorer := Achievement("continental-explorer", "Continental Explorer", "Read books from 4 different continents",
    "\U{1F9F3}", ContinentsAtLeast(4), Silver)
  const ContinentalMaster := Achievement("continental-master", "Continental Master", "Read books from all 6 inhabited continents",
    "\U{1F3C6}", ContinentsAtLeast(6), Gold)
  const AfricanSafari := Achievement("african-safari", "African Safari", "Read books from 5 African countries",
    "\U{1F981}", CountAcrossAtLeast(["Africa"], 5), Silver)
  const AsianOdyssey := Achievement("asian-odyssey", "Asian Odyssey", "Read books from 5 Asian countries",
    "\U{1F409}", CountAcrossAtLeast(["Asia"], 5), Silver)
  const EuropeanTour := Achievement("european-tour", "European Tour", "Read books from 5 European countries",
    "\U{1F3DB}\U{FE0F}", CountAcrossAtLeast(["Europe"], 5), Silver)
  const AmericasAdventure := Achievement("americas-adventure", "Americas Adventure", "Read books from 5 countries in the Americas",
    "\U{1F30E}", CountAcrossAtLeast(["North America", "South America"], 5), Silver)
  const PacificVoyager := Achievement("pacific-voyager", "Pacific Voyager", "Read books from 3 Oceanian countries",
    "\U{1F3C4}", CountAcrossAtLeast(["Oceania"], 3), Silver)

  /** `ACHIEVEMENTS`, in declaration order. */
  const AllAchievements: seq<Achievement> := [
    FirstStamp, Bookworm, AvidReader, LiteraryExplorer,
    WorldReader, Wanderer, Globetrotter, WorldTraveler,
    CitizenOfWorld, ContinentalCurious, ContinentalExplorer, ContinentalMaster,
    AfricanSafari, AsianOdyssey, EuropeanTour, AmericasAdventure,
    PacificVoyager
  ]

  /** The achievements of `list` that `stats` unlocks, in list order
      (`filter` with the requirement). */
  function UnlockedIn(list: seq<Achievement>, stats: PassportStats): (r: seq<Achievement>)
    ensures |r| <= |list|
    ensures forall a :: a in r <==> a in list && Unlocks(a, stats)
  {
    if list == [] then []
    else
      var rest := UnlockedIn(list[1..], stats);
      if Unlocks(list[0], stats) then [list[0]] + rest else rest
  }

  /** The achievements of `list` that `stats` leaves locked, in list order
      (`filter` with the negated requirement). */
  function LockedIn(list: seq<Achievement>, stats: PassportStats): (r: seq<Achievement>)
    ensures |r| <= |list|
    ensures forall a :: a in r <==> a in list && !Unlocks(a, stats)
  {
    if list == [] then []
    else
      var rest := LockedIn(list[1..], stats);
      if Unlocks(list[0], stats) then rest else [list[0]] + rest
  }

  /** `getUnlockedAchievements(stats)`. */
  function GetUnlockedAchievements(stats: PassportStats): (r: seq<Achievement>)
    ensures forall a :: a in r <==> a in AllAchievements && Unlocks(a, stats)
  {
    UnlockedIn(AllAchievements, stats)
  }

  /** `getNextAchievements(stats)`: at most three, the first locked ones in
      list order, none of them unlocked. */
  function GetNextAchievements(stats: PassportStats): (r: seq<Achievement>)
    ensures |r| <= 3 && |r| <= |LockedIn(AllAchievements, stats)|
    ensures r == LockedIn(AllAchievements, stats)[..|r|]
    ensures |r| < 3 ==> r == LockedIn(AllAchievements, stats)
    ensures forall a | a in r :: a in AllAchievements && !Unlocks(a, stats)
  {
    Seqs.Take(LockedIn(AllAchievements, stats), 3)
  }

  /** Filtering distributes over concatenation, which is to say the filter
      keeps the relative order of the list. */
  lemma {:induction false} UnlockedKeepsOrder(a: seq<Achievement>, b: seq<Achievement>, stats: PassportStats)
    ensures UnlockedIn(a + b, stats) == UnlockedIn(a, stats) + UnlockedIn(b, stats)
  {
    if a == [] {
      assert a + b == b;
    } else {
      assert (a + b)[0] == a[0];
      assert (a + b)[1..] == a[1..] + b;
      UnlockedKeepsOrder(a[1..], b, stats);
    }
  }

  /** The same for the locked achievements. */
  lemma {:induction false} LockedKeepsOrder(a: seq<Achievement>, b: seq<Achievement>, stats: PassportStats)
    ensures LockedIn(a + b, stats) == LockedIn(a, stats) + LockedIn(b, stats)
  {
    if a == [] {
      assert a + b == b;
    } else {
      assert (a + b)[0] == a[0];
      assert (a + b)[1..] == a[1..] + b;
      LockedKeepsOrder(a[1..], b, stats);
    }
  }

  /** The unlocked and the locked achievements together are the list, each
      entry exactly once. */
  lemma {:induction false} UnlockedAndLockedPartition(list: seq<Achievement>, stats: PassportStats)
    ensures multiset(UnlockedIn(list, stats)) + multiset(LockedIn(list, stats)) == multiset(list)
    ensures |UnlockedIn(list, stats)| + |LockedIn(list, stats)| == |list|
  {
    if list != [] {
      UnlockedAndLockedPartition(list[1..], stats);
      assert list == [list[0]] + list[1..];
    }
  }

  /** The next achievements are never among the unlocked ones. */
  lemma NextDisjointFromUnlocked(stats: PassportStats)
    ensures forall a | a in GetNextAchievements(stats) :: a !in GetUnlockedAchievements(stats)
    ensures |GetUnlockedAchievements(stats)| + |LockedIn(AllAchievements, stats)| == |AllAchievements| == 17
  {
    UnlockedAndLockedPartition(AllAchievements, stats);
  }

  /** `s` is below `t` in every statistic a requirement reads. */
  ghost predicate StatsBelow(s: PassportStats, t: PassportStats) {
    && s.totalBooks <= t.totalBooks
    && s.totalCountries <= t.totalCountries
    && |s.continentsVisited| <= |t.continentsVisited|
    && forall c :: CountIn(s.countriesPerContinent, c) <= CountIn(t.countriesPerContinent, c)
  }

  lemma {:induction false} CountAcrossMonotone(s: map<string, int>, t: map<string, int>, among: seq<string>)
    requires forall c :: CountIn(s, c) <= CountIn(t, c)
    ensures CountAcross(s, among) <= CountAcross(t, among)
  {
    if among != [] {
      CountAcrossMonotone(s, t, among[1..]);
    }
  }

  /** Raising statistics never re-locks a requirement. */
  lemma RequirementMonotone(req: Requirement, s: PassportStats, t: PassportStats)
    requires StatsBelow(s, t)
    ensures Holds(req, s) ==> Holds(req, t)
  {
    if req.CountAcrossAtLeast? {
      CountAcrossMonotone(s.countriesPerContinent, t.countriesPerContinent, req.among);
    }
  }

  /** Raising statistics never re-locks an achievement. */
  lemma UnlockedMonotone(s: PassportStats, t: PassportStats)
    requires StatsBelow(s, t)
    ensures forall a | a in GetUnlockedAchievements(s) :: a in GetUnlockedAchievements(t)
    ensures |GetUnlockedAchievements(s)| <= |GetUnlockedAchievements(t)|
  {
    forall a | a in GetUnlockedAchievements(s) ensures a in GetUnlockedAchievements(t) {
      RequirementMonotone(a.requirement, s, t);
    }
    SubsetFilterShorter(AllAchievements, s, t);
  }

  lemma {:induction false} SubsetFilterShorter(list: seq<Achievement>, s: PassportStats, t: PassportStats)
    requires StatsBelow(s, t)
    ensures |UnlockedIn(list, s)| <= |UnlockedIn(list, t)|
  {
    if list != [] {
      SubsetFilterShorter(list[1..], s, t);
      RequirementMonotone(list[0].requirement, s, t);
    }
  }

  /** The ladders are nested: the higher badge of each ladder implies the
      lower ones. */
  lemma LaddersNested(stats: PassportStats)
    ensures Unlocks(WorldReader, stats) ==> Unlocks(LiteraryExplorer, stats)
    ensures Unlocks(LiteraryExplorer, stats) ==> Unlocks(AvidReader, stats)
    ensures Unlocks(AvidReader, stats) ==> Unlocks(Bookworm, stats)
    ensures Unlocks(Bookworm, stats) ==> Unlocks(FirstStamp, stats)
    ensures Unlocks(CitizenOfWorld, stats) ==> Unlocks(WorldTraveler, stats)
    ensures Unlocks(WorldTraveler, stats) ==> Unlocks(Globetrotter, stats)
    ensures Unlocks(Globetrotter, stats) ==> Unlocks(Wanderer, stats)
    ensures Unlocks(ContinentalMaster, stats) ==> Unlocks(ContinentalExplorer, stats)
    ensures Unlocks(ContinentalExplorer, stats) ==> Unlocks(ContinentalCurious, stats)
  {
  }

  /** The requirement asks for at least one of something. */
  predicate Positive(req: Requirement) {
    match req
    case BooksAtLeast(n) => n > 0
    case CountriesAtLeast(n) => n > 0
    case ContinentsAtLeast(n) => n > 0
    case CountAcrossAtLeast(_, n) => n > 0
  }

  /** No positive requirement holds of empty statistics. */
  lemma PositiveFailsOnEmpty(req: Requirement)
    requires Positive(req)
    ensures !Holds(req, PassportStats(0, 0, [], map[]))
  {
    if req.CountAcrossAtLeast? {
      NoCounts(map[], req.among);
    }
  }

  lemma {:induction false} NoCounts(zero: map<string, int>, among: seq<string>)
    requires zero == map[]
    ensures CountAcross(zero, among) == 0
  {
    if among != [] {
      NoCounts(zero, among[1..]);
    }
  }

  /** With no books at all nothing is unlocked, and the next three badges
      are the first three book milestones. */
  lemma EmptyPassport()
    ensures GetUnlockedAchievements(PassportStats(0, 0, [], map[])) == []
    ensures GetNextAchievements(PassportStats(0, 0, [], map[])) == [FirstStamp, Bookworm, AvidReader]
  {
    var zero := PassportStats(0, 0, [], map[]);
    NothingUnlocksOnEmpty();
    AllLockedIsList(AllAchievements, zero);
    FirstThreeAchievements();
  }

  lemma NothingUnlocksOnEmpty()
    ensures forall a | a in AllAchievements :: !Unlocks(a, PassportStats(0, 0, [], map[]))
  {
    var all := AllAchievements;
    assert forall k | 0 <= k < |all| :: Positive(all[k].requirement);
    forall a | a in all ensures !Unlocks(a, PassportStats(0, 0, [], map[])) {
      PositiveFailsOnEmpty(a.requirement);
    }
  }

  lemma FirstThreeAchievements()
    ensures AllAchievements[..3] == [FirstStamp, Bookworm, AvidReader]
  {
  }

  lemma {:induction false} AllLockedIsList(list: seq<Achievement>, stats: PassportStats)
    requires forall a | a in list :: !Unlocks(a, stats)
    ensures LockedIn(list, stats) == list
    ensures UnlockedIn(list, stats) == []
  {
    if list != [] {
      AllLockedIsList(list[1..], stats);
    }
  }

  /** americas-adventure adds the North and South America counts, a missing
      continent counting as 0. */
  lemma AmericasAdventureAddsBoth(stats: PassportStats)
    ensures Unlocks(AmericasAdventure, stats) <==>
      CountIn(stats.countriesPerContinent, "North America") + CountIn(stats.countriesPerContinent, "South America") >= 5
  {
    var among := AmericasAdventure.requirement.among;
    assert among[0] == "North America" && among[1..][0] == "South America";
    assert among[1..][1..] == [];
    var counts := stats.countriesPerContinent;
    assert CountAcross(counts, among[1..]) == CountIn(counts, "South America") + CountAcross(counts, []);
  }

  datatype TierStyle = TierStyle(bg: string, border: string, text: string)

  /** `TIER_COLORS`. */
  const TierColors: map<string, TierStyle> := map[
    "bronze" := TierStyle("bg-amber-100", "border-amber-500", "text-amber-700"),
    "silver" := TierStyle("bg-gray-100", "border-gray-400", "text-gray-600"),
    "gold" := TierStyle("bg-yellow-100", "border-yellow-500", "text-yellow-700"),
    "platinum" := TierStyle("bg-purple-100", "border-purple-500", "text-purple-700")
  ]

  /** Every tier, and so every achievement, has a style, and different
      tiers are styled differently. */
  lemma TierColorsCoverTiers()
    ensures forall t: Tier :: TierName(t) in TierColors
    ensures forall k | 0 <= k < |AllAchievements| :: TierName(AllAchievements[k].tier) in TierColors
    ensures forall t: Tier, u: Tier | t != u :: TierColors[TierName(t)] != TierColors[TierName(u)]
  {
  }
}
