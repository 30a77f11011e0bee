/** The statistics page of the reading passport (components/PassportModal.tsx):
    the stats block that feeds the achievements, the per-continent progress
    bar and the "unlocked" counter. */
module Passport {
  import Seqs
  import Continents
  import opened Achievements

  /** `codes.map(getContinent)`, the lookup given as `continentOf`. */
  function ContinentsOf(codes: seq<string>, continentOf: string -> string): (r: seq<string>)
    ensures |r| == |codes| && forall k | 0 <= k < |r| :: r[k] == continentOf(codes[k])
  {
    if codes == [] then [] else [continentOf(codes[0])] + ContinentsOf(codes[1..], continentOf)
  }

  /** What `getContinent` promises: a member of `CONTINENTS` or "Unknown". */
  ghost predicate ContinentLookup(continentOf: string -> string) {
    forall code :: continentOf(code) in Continents.AllContinents || continentOf(code) == Continents.Unknown
  }

  /** `Continents.GetContinent` is such a lookup. */
  lemma GetContinentIsContinentLookup()
    ensures ContinentLookup(Continents.GetContinent)
  {
  }

  /** `.filter(c => c !== 'Unknown')`. */
  function WithoutUnknown(s: seq<string>): (r: seq<string>)
    ensures forall c :: c in r <==> c in s && c != Continents.Unknown
    ensures Seqs.NoDuplicates(s) ==> Seqs.NoDuplicates(r)
    ensures |r| <= |s|
  {
    if s == [] then []
    else
      var rest := WithoutUnknown(s[1..]);
      assert Seqs.NoDuplicates(s) ==> s[0] !in s[1..];
      if s[0] != Continents.Unknown then [s[0]] + rest else rest
  }

  /** `continentsVisited` over the continents of the codes: the distinct
      names, "Unknown" excluded. */
  function Visited(names: seq<string>): (r: seq<string>)
    ensures Seqs.NoDuplicates(r)
    ensures forall c :: c in r <==> c in names && c != Continents.Unknown
  {
    var r := WithoutUnknown(Seqs.Dedup(names));
    assert forall c | c in names :: c in Seqs.Dedup(names) by {
      forall c | c in names ensures c in Seqs.Dedup(names) {
        var k :| 0 <= k < |names| && names[k] == c;
      }
    }
    r
  }

  /** `continentsVisited` of the stamped country codes. */
  function ContinentsVisited(codes: seq<string>, continentOf: string -> string): (r: seq<string>)
    ensures Seqs.NoDuplicates(r)
    ensures forall c :: c in r <==>
      c != Continents.Unknown && exists k | 0 <= k < |codes| :: continentOf(codes[k]) == c
  {
    var names := ContinentsOf(codes, continentOf);
    assert forall c | c in names :: exists k | 0 <= k < |codes| :: continentOf(codes[k]) == c;
    Visited(names)
  }

  /** How many entries of `names` are `continent`. */
  function Occurrences(names: seq<string>, continent: string): nat {
    if names == [] then 0
    else
      Occurrences(names[..|names| - 1], continent) + (if names[|names| - 1] == continent then 1 else 0)
  }

  /** How many entries of `names` are not "Unknown". */
  function KnownCount(names: seq<string>): nat {
    if names == [] then 0
    else
      KnownCount(names[..|names| - 1]) + (if names[|names| - 1] != Continents.Unknown then 1 else 0)
  }

  /** `countriesPerContinent` after the `forEach` over continents `names`:
      each continent's count is its number of occurrences; "Unknown" never
      becomes a key, and only continents that occur do. */
  function Tally(names: seq<string>): (r: map<string, int>)
    ensures Continents.Unknown !in r
    ensures forall c | c in r :: r[c] > 0
    ensures forall c | c != Continents.Unknown :: CountIn(r, c) == Occurrences(names, c)
  {
    if names == [] then map[]
    else
      var front := Tally(names[..|names| - 1]);
      var continent := names[|names| - 1];
      if continent != Continents.Unknown then front[continent := CountIn(front, continent) + 1]
      else front
  }

  /** `countriesPerContinent` of the stamped country codes. */
  function PerContinent(codes: seq<string>, continentOf: string -> string): map<string, int> {
    Tally(ContinentsOf(codes, continentOf))
  }

  /** One more name extends the tally by that name. */
  lemma TallyAppend(names: seq<string>, continent: string)
    ensures Tally(names + [continent]) == if continent != Continents.Unknown
      then Tally(names)[continent := CountIn(Tally(names), continent) + 1]
      else Tally(names)
  {
    assert (names + [continent])[..|names|] == names;
  }

  /** The stats block: `totalBooks`, `totalCountries`, `continentsVisited`
      and `countriesPerContinent`, the last filled code by code. */
  method ComputeStats(bookCount: nat, countryCodes: seq<string>, continentOf: string -> string)
    returns (stats: PassportStats)
    ensures stats.totalBooks == bookCount
    ensures stats.totalCountries == |countryCodes|
    ensures stats.continentsVisited == ContinentsVisited(countryCodes, continentOf)
    ensures stats.countriesPerContinent == PerContinent(countryCodes, continentOf)
  {
    ghost var names: seq<string> := [];
    var counts: map<string, int> := map[];
    var i := 0;
    while i < |countryCodes|
      invariant 0 <= i <= |countryCodes|
      invariant |names| == i && forall k | 0 <= k < i :: names[k] == continentOf(countryCodes[k])
      invariant counts == Tally(names)
    {
      var continent := continentOf(countryCodes[i]);
      TallyAppend(names, continent);
      if continent != Continents.Unknown {
        counts := counts[continent := CountIn(counts, continent) + 1];
      }
      names := names + [continent];
      i := i + 1;
    }
    assert names == ContinentsOf(countryCodes, continentOf);
    stats := PassportStats(bookCount, |countryCodes|, ContinentsVisited(countryCodes, continentOf), counts);
  }

  lemma {:induction false} OccurrencesPositive(names: seq<string>, c: string)
    ensures Occurrences(names, c) > 0 <==> c in names
  {
    if names != [] {
      var front := names[..|names| - 1];
      OccurrencesPositive(front, c);
      assert names == front + [names[|names| - 1]];
    }
  }

  /** A continent is listed as visited exactly when its count is positive. */
  lemma VisitedIffCounted(names: seq<string>, c: string)
    ensures c in Visited(names) <==> CountIn(Tally(names), c) > 0
  {
    OccurrencesPositive(names, c);
  }

  /** The sum of `Occurrences` over `continents`. */
  function OccurrencesAcross(names: seq<string>, continents: seq<string>): nat {
    if continents == [] then 0
    else Occurrences(names, continents[0]) + OccurrencesAcross(names, continents[1..])
  }

  lemma {:induction false} OccurrencesAcrossStep(names: seq<string>, continents: seq<string>)
    requires names != [] && Seqs.NoDuplicates(continents)
    ensures OccurrencesAcross(names, continents) == OccurrencesAcross(names[..|names| - 1], continents)
      + (if names[|names| - 1] in continents then 1 else 0)
  {
    if continents != [] {
      OccurrencesAcrossStep(names, continents[1..]);
    }
  }

  /** Summed over distinct continents that leave out no known name, the
      occurrences are the known names. */
  lemma {:induction false} OccurrencesAcrossKnown(names: seq<string>, continents: seq<string>)
    requires Seqs.NoDuplicates(continents) && Continents.Unknown !in continents
    requires forall k | 0 <= k < |names| :: names[k] in continents || names[k] == Continents.Unknown
    ensures OccurrencesAcross(names, continents) == KnownCount(names)
  {
    if names == [] {
      NoOccurrencesAcross(continents);
    } else {
      OccurrencesAcrossStep(names, continents);
      OccurrencesAcrossKnown(names[..|names| - 1], continents);
    }
  }

  lemma {:induction false} NoOccurrencesAcross(continents: seq<string>)
    ensures OccurrencesAcross([], continents) == 0
  {
    if continents != [] {
      NoOccurrencesAcross(continents[1..]);
    }
  }

  lemma {:induction false} CountAcrossIsOccurrences(names: seq<string>, continents: seq<string>)
    requires Continents.Unknown !in continents
    ensures CountAcross(Tally(names), continents) == OccurrencesAcross(names, continents)
  {
    if continents != [] {
      CountAcrossIsOccurrences(names, continents[1..]);
    }
  }

  lemma {:induction false} KnownCountBound(names: seq<string>)
    ensures KnownCount(names) <= |names|
  {
    if names != [] {
      KnownCountBound(names[..|names| - 1]);
    }
  }

  lemma ContinentNamesDistinct()
    ensures Seqs.NoDuplicates(Continents.AllContinents) && Continents.Unknown !in Continents.AllContinents
  {
  }

  /** For a lookup that yields one of `continents` or "Unknown", the counts
      over those continents add up to the number of codes on a known
      continent, so never to more than the number of codes. */
  lemma CountsSumOver(codes: seq<string>, continentOf: string -> string, continents: seq<string>)
    requires Seqs.NoDuplicates(continents) && Continents.Unknown !in continents
    requires forall code :: continentOf(code) in continents || continentOf(code) == Continents.Unknown
    ensures CountAcross(PerContinent(codes, continentOf), continents) == KnownCount(ContinentsOf(codes, continentOf))
    ensures KnownCount(ContinentsOf(codes, continentOf)) <= |codes|
  {
    var names := ContinentsOf(codes, continentOf);
    OccurrencesAcrossKnown(names, continents);
    CountAcrossIsOccurrences(names, continents);
    KnownCountBound(names);
  }

  /** With `getContinent`'s promise, the counts of the seven continents add
      up to the number of codes on a known continent, so never to more than
      `totalCountries`. */
  lemma CountsSumToKnownCodes(codes: seq<string>, continentOf: string -> string)
    requires ContinentLookup(continentOf)
    ensures CountAcross(PerContinent(codes, continentOf), Continents.AllContinents)
      == KnownCount(ContinentsOf(codes, continentOf))
    ensures KnownCount(ContinentsOf(codes, continentOf)) <= |codes|
  {
    ContinentNamesDistinct();
    CountsSumOver(codes, continentOf, Continents.AllContinents);
  }

  /** The width of a continent's progress bar, in percent:
      `Math.min(count * 10, 100)`, full from ten countries on. */
  function ProgressWidth(count: int): (w: int)
    ensures w <= 100
    ensures count >= 0 ==> w >= 0
    ensures w == 100 <==> count >= 10
    ensures count < 10 ==> w == count * 10
  {
    if count * 10 < 100 then count * 10 else 100
  }

  /** The "of N unlocked" denominator as the page computes it: the unlocked
      badges, plus the next ones shown, plus ten. */
  function UnlockedDenominatorAsWritten(stats: PassportStats): (r: int)
    ensures |GetUnlockedAchievements(stats)| + 10 <= r <= |GetUnlockedAchievements(stats)| + 13
  {
    |GetUnlockedAchievements(stats)| + |GetNextAchievements(stats)| + 10
  }

  /** With no books the page reads "0 of 13 unlocked", although the list
      holds 17 achievements. */
  lemma UnlockedDenominatorAsWrittenIsWrong()
    ensures UnlockedDenominatorAsWritten(PassportStats(0, 0, [], map[])) == 13
    ensures |AllAchievements| == 17
  {
    EmptyPassport();
  }

  /** The unlocked entries of `list` out of all of them. */
  function CounterOver(list: seq<Achievement>, stats: PassportStats): (r: (nat, nat))
    ensures r.1 == |list|
    ensures r.0 <= r.1
    ensures r.0 == r.1 <==> forall k | 0 <= k < |list| :: Unlocks(list[k], stats)
  {
    AllUnlockedIffNoneLocked(list, stats);
    UnlockedAndLockedPartition(list, stats);
    (|UnlockedIn(list, stats)|, |list|)
  }

  /** The counter the page evidently intends: the unlocked badges out of all
      seventeen; the two are equal exactly when every badge is unlocked. */
  function UnlockedCounter(stats: PassportStats): (r: (nat, nat))
    ensures r.0 == |GetUnlockedAchievements(stats)| && r.1 == 17
    ensures r.0 <= r.1
    ensures r.0 == r.1 <==> forall k | 0 <= k < |AllAchievements| :: Unlocks(AllAchievements[k], stats)
  {
    CounterOver(AllAchievements, stats)
  }

  lemma {:induction false} AllUnlockedIffNoneLocked(list: seq<Achievement>, stats: PassportStats)
    ensures LockedIn(list, stats) == [] <==> forall k | 0 <= k < |list| :: Unlocks(list[k], stats)
  {
    if list != [] {
      AllUnlockedIffNoneLocked(list[1..], stats);
      assert forall k | 1 <= k < |list| :: list[1..][k - 1] == list[k];
    }
  }
}
