/** The local observability store: recommendation, evaluation and
    engagement traces appended to one in-memory list, and the quality
    metrics computed from it. Scores are kept in hundredths (70 stands for
    0.7); the clock and the random id suffix are parameters. */
module Opik {
  import opened Wrappers
  import Seqs
  import Text

  datatype TraceType = RecommendationType | EvaluationType | ExperimentType

  /** A metadata value: the records hold strings and numbers. */
  datatype Value = Str(s: string) | Num(n: int)

  type Metadata = map<string, Value>

  datatype HistoryEntry = HistoryEntry(title: string, author: string, country: string, rating: Option<int>)

  datatype RecommendedBook = RecommendedBook(title: string, author: string, country: string, reason: string)

  datatype RecommendationInput = RecommendationInput(readingHistory: seq<HistoryEntry>, preferences: Option<string>)

  datatype RecommendationOutput = RecommendationOutput(recommendedBook: RecommendedBook, model: string, promptVersion: string)

  datatype EvaluationKind = LlmAsJudge | UserFeedback | EngagementKind

  datatype Action = Viewed | ClickedFinder | AddedToList | MarkedRead

  function ActionName(a: Action): string {
    match a
    case Viewed => "viewed"
    case ClickedFinder => "clicked_finder"
    case AddedToList => "added_to_list"
    case MarkedRead => "marked_read"
  }

  /** What a trace carries beyond the common fields. */
  datatype Details =
    | RecommendationDetails(userId: string, input: RecommendationInput, output: RecommendationOutput)
    | EvaluationDetails(recommendationId: string, evaluationType: EvaluationKind, score: int,
                        criteria: seq<string>, reasoning: Option<string>)
    | NoDetails

  /** A stored trace. `metadata` is `None` for a trace built without a
      metadata record. */
  datatype Trace = Trace(id: string, timestamp: int, traceType: TraceType, metadata: Option<Metadata>, details: Details)

  /** A generated id: prefix, clock, `_`, random suffix. */
  function TraceId(prefix: string, now: nat, suffix: string): (id: string)
    ensures |id| > |prefix| && id[..|prefix|] == prefix
  {
    prefix + "_" + Text.NatToString(now) + "_" + suffix
  }

  const Criteria: seq<string> := [
    "Relevance to reading history",
    "Cultural diversity",
    "Appropriate difficulty level",
    "Clear reasoning provided"
  ]

  /** Whether no book of the history comes from the country. */
  predicate NewCountry(country: string, history: seq<HistoryEntry>) {
    forall k | 0 <= k < |history| :: history[k].country != country
  }

  /** The judge's score in hundredths: a base of 70, 15 more for a country
      the history does not contain, 10 more for a reason longer than 50
      characters, capped at 100, which it therefore never reaches. */
  function JudgeScore(recommendation: RecommendedBook, history: seq<HistoryEntry>): (score: int)
    ensures score in {70, 80, 85, 95} && score < 100
  {
    var base := 70;
    var withCountry := if NewCountry(recommendation.country, history) then base + 15 else base;
    var withReason := if |recommendation.reason| > 50 then withCountry + 10 else withCountry;
    if withReason < 100 then withReason else 100
  }

  /** The score has the country bonus exactly when the country is new and
      the reason bonus exactly when the reason is long. */
  lemma JudgeScoreBonuses(recommendation: RecommendedBook, history: seq<HistoryEntry>)
    ensures JudgeScore(recommendation, history) in {85, 95} <==> NewCountry(recommendation.country, history)
    ensures JudgeScore(recommendation, history) in {80, 95} <==> |recommendation.reason| > 50
  {
  }

  /** The reasoning text of an evaluation. */
  function ScoreReasoning(score: nat): string {
    "Recommendation scored " + Text.NatToString(score)
      + "/100 based on diversity, relevance, and reasoning quality."
  }

  /** The metadata of an engagement: the recommendation id and the action,
      then the caller's entries, which win on a clash. */
  function EngagementMetadata(recommendationId: string, action: Action, metadata: Metadata): (m: Metadata)
    ensures forall k | k in metadata :: k in m && m[k] == metadata[k]
    ensures "action" in m && "recommendationId" in m
    ensures "action" !in metadata ==> m["action"] == Str(ActionName(action))
    ensures "recommendationId" !in metadata ==> m["recommendationId"] == Str(recommendationId)
    ensures forall k | k in m :: k in metadata || k == "action" || k == "recommendationId"
  {
    map["recommendationId" := Str(recommendationId), "action" := Str(ActionName(action))] + metadata
  }

  /** The trace shapes the three tracking operations produce. */
  predicate WellFormed(t: Trace) {
    match t.details
    case RecommendationDetails(_, _, _) => t.traceType == RecommendationType && t.metadata.Some?
    case EvaluationDetails(_, _, score, _, _) => t.traceType == EvaluationType && score in {70, 80, 85, 95}
    case NoDetails => t.traceType == EvaluationType && t.metadata.Some?
  }

  predicate AllWellFormed(traces: seq<Trace>) {
    forall k | 0 <= k < |traces| :: WellFormed(traces[k])
  }

  predicate IsRecommendation(t: Trace) {
    t.traceType == RecommendationType
  }

  /** `type === 'evaluation' && 'score' in t`. */
  predicate IsScoredEvaluation(t: Trace) {
    t.traceType == EvaluationType && t.details.EvaluationDetails?
  }

  /** An engagement: an evaluation-typed trace whose metadata records an
      action; a trace without metadata is not one. */
  predicate IsEngagement(t: Trace) {
    t.traceType == EvaluationType && t.metadata.Some? && "action" in t.metadata.value
  }

  /** The countries of the recommended books, in trace order. */
  function RecommendedCountries(traces: seq<Trace>): (r: seq<string>)
    requires AllWellFormed(traces)
    ensures |r| == Seqs.CountIf(traces, IsRecommendation)
  {
    if traces == [] then []
    else
      var front := RecommendedCountries(traces[..|traces| - 1]);
      var t := traces[|traces| - 1];
      if IsRecommendation(t) then front + [t.details.output.recommendedBook.country] else front
  }

  /** A recommendation trace contributes its book's country, any other
      trace nothing. */
  lemma RecommendedCountriesSingle(t: Trace)
    requires WellFormed(t)
    ensures AllWellFormed([t])
    ensures RecommendedCountries([t]) == if IsRecommendation(t) then [t.details.output.recommendedBook.country] else []
  {
    assert [t][..0] == [];
  }

  /** The countries are collected trace by trace, so they keep trace order
      across concatenation. */
  lemma {:induction false} RecommendedCountriesAppend(a: seq<Trace>, b: seq<Trace>)
    requires AllWellFormed(a) && AllWellFormed(b)
    ensures AllWellFormed(a + b)
    ensures RecommendedCountries(a + b) == RecommendedCountries(a) + RecommendedCountries(b)
    decreases |b|
  {
    if b == [] {
      assert a + b == a;
    } else {
      var b' := b[..|b| - 1];
      assert (a + b)[..|a + b| - 1] == a + b';
      RecommendedCountriesAppend(a, b');
    }
  }

  /** The scores of the scored evaluations, in trace order. */
  function Scores(traces: seq<Trace>): (r: seq<int>)
    requires AllWellFormed(traces)
    ensures |r| == Seqs.CountIf(traces, IsScoredEvaluation)
    ensures forall k | 0 <= k < |r| :: r[k] in {70, 80, 85, 95}
  {
    if traces == [] then []
    else
      var front := Scores(traces[..|traces| - 1]);
      var t := traces[|traces| - 1];
      if IsScoredEvaluation(t) then front + [t.details.score] else front
  }

  /** A scored evaluation contributes its score, any other trace nothing. */
  lemma ScoresSingle(t: Trace)
    requires WellFormed(t)
    ensures AllWellFormed([t])
    ensures Scores([t]) == if IsScoredEvaluation(t) then [t.details.score] else []
  {
    assert [t][..0] == [];
  }

  /** The scores are collected trace by trace, so they keep trace order
      across concatenation. */
  lemma {:induction false} ScoresAppend(a: seq<Trace>, b: seq<Trace>)
    requires AllWellFormed(a) && AllWellFormed(b)
    ensures AllWellFormed(a + b)
    ensures Scores(a + b) == Scores(a) + Scores(b)
    decreases |b|
  {
    if b == [] {
      assert a + b == a;
    } else {
      var b' := b[..|b| - 1];
      assert (a + b)[..|a + b| - 1] == a + b';
      ScoresAppend(a, b');
    }
  }

  function Sum(s: seq<int>): int {
    if s == [] then 0 else Sum(s[..|s| - 1]) + s[|s| - 1]
  }

  /** A sum of values between `lo` and `hi` lies between `n * lo` and
      `n * hi`. */
  lemma {:induction false} SumBounds(s: seq<int>, lo: int, hi: int)
    requires forall k | 0 <= k < |s| :: lo <= s[k] <= hi
    ensures |s| * lo <= Sum(s) <= |s| * hi
  {
    if s != [] {
      SumBounds(s[..|s| - 1], lo, hi);
    }
  }

  /** The mean of the scores, 0 when there are none. */
  function Average(s: seq<int>): (r: real)
    requires forall k | 0 <= k < |s| :: 70 <= s[k] <= 95
    ensures s == [] ==> r == 0.0
    ensures s != [] ==> 70.0 <= r <= 95.0
    ensures s != [] ==> r * (|s| as real) == Sum(s) as real
  {
    if s == [] then 0.0
    else
      SumBounds(s, 70, 95);
      var n := |s| as real;
      assert n * 70.0 <= Sum(s) as real <= n * 95.0;
      Sum(s) as real / n
  }

  /** Engagements per recommendation, 0 when there are no recommendations. */
  function Rate(engagements: nat, recommendations: nat): (r: real)
    ensures recommendations == 0 ==> r == 0.0
    ensures r >= 0.0
    ensures recommendations > 0 ==> r * (recommendations as real) == engagements as real
  {
    if recommendations > 0 then engagements as real / recommendations as real else 0.0
  }

  datatype CountryCount = CountryCount(country: string, count: nat)

  /** How many times `c` occurs in `s`. */
  function Occurrences(s: seq<string>, c: string): nat {
    if s == [] then 0 else Occurrences(s[..|s| - 1], c) + (if s[|s| - 1] == c then 1 else 0)
  }

  /** A country occurs exactly when it is in the list. */
  lemma {:induction false} OccurrencesPositive(s: seq<string>, c: string)
    ensures Occurrences(s, c) > 0 <==> c in s
  {
    if s != [] {
      var front := s[..|s| - 1];
      OccurrencesPositive(front, c);
      assert s == front + [s[|s| - 1]];
    }
  }

  /** The country counter while the `forEach` runs: the countries in order
      of first appearance, and the count of each. */
  datatype Tally = Tally(keys: seq<string>, counts: map<string, nat>)

  /** One step of the `forEach`: the country's count goes up by one, and a
      country not counted yet becomes the last key. */
  function AddCountry(t: Tally, c: string): Tally {
    Tally(
      if c in t.counts then t.keys else t.keys + [c],
      t.counts[c := (if c in t.counts then t.counts[c] else 0) + 1])
  }

  function TallyAll(s: seq<string>): Tally {
    if s == [] then Tally([], map[]) else AddCountry(TallyAll(s[..|s| - 1]), s[|s| - 1])
  }

  /** The keys are the distinct countries in order of first appearance, and
      each country's count is its number of occurrences. */
  lemma {:induction false} TallyAllMeaning(s: seq<string>)
    ensures TallyAll(s).keys == Seqs.Dedup(s)
    ensures forall c :: c in TallyAll(s).counts <==> c in s
    ensures forall c | c in TallyAll(s).counts :: TallyAll(s).counts[c] == Occurrences(s, c)
  {
    if s != [] {
      var front := s[..|s| - 1];
      var c := s[|s| - 1];
      assert s == front + [c];
      TallyAllMeaning(front);
      OccurrencesPositive(front, c);
      forall d
        ensures d in s <==> d in front || d == c
        ensures Occurrences(s, d) == Occurrences(front, d) + (if d == c then 1 else 0)
      {
      }
    }
  }

  /** `Object.entries(countryCounts).map(...)`: one entry per key, in key
      order. */
  function Entries(t: Tally): (r: seq<CountryCount>)
    requires forall k | 0 <= k < |t.keys| :: t.keys[k] in t.counts
    ensures |r| == |t.keys|
    ensures forall k | 0 <= k < |r| :: r[k] == CountryCount(t.keys[k], t.counts[t.keys[k]])
  {
    seq(|t.keys|, k requires 0 <= k < |t.keys| => CountryCount(t.keys[k], t.counts[t.keys[k]]))
  }

  predicate Descending(s: seq<CountryCount>) {
    forall i, j | 0 <= i < j < |s| :: s[i].count >= s[j].count
  }

  /** Inserting into a list sorted by decreasing count, after every entry
      whose count is at least as large, as a stable sort places it. */
  function Insert(sorted: seq<CountryCount>, x: CountryCount): (r: seq<CountryCount>)
    ensures |r| == |sorted| + 1
  {
    if sorted == [] then [x]
    else if sorted[|sorted| - 1].count >= x.count then sorted + [x]
    else Insert(sorted[..|sorted| - 1], x) + [sorted[|sorted| - 1]]
  }

  /** Inserting adds exactly the new entry. */
  lemma {:induction false} InsertPermutes(sorted: seq<CountryCount>, x: CountryCount)
    ensures multiset(Insert(sorted, x)) == multiset(sorted) + multiset{x}
  {
    if sorted != [] && sorted[|sorted| - 1].count < x.count {
      var init := sorted[..|sorted| - 1];
      var last := sorted[|sorted| - 1];
      assert sorted == init + [last];
      InsertPermutes(init, x);
    }
  }

  /** Inserting keeps the list sorted by decreasing count. */
  lemma {:induction false} InsertKeepsOrder(sorted: seq<CountryCount>, x: CountryCount)
    requires Descending(sorted)
    ensures Descending(Insert(sorted, x))
  {
    if sorted != [] && sorted[|sorted| - 1].count < x.count {
      var init := sorted[..|sorted| - 1];
      var last := sorted[|sorted| - 1];
      var front := Insert(init, x);
      InsertKeepsOrder(init, x);
      InsertPermutes(init, x);
      forall i | 0 <= i < |front|
        ensures front[i].count >= last.count
      {
        assert front[i] in multiset(init) + multiset{x} by {
          assert front[i] in multiset(front);
        }
        if front[i] != x {
          var k :| 0 <= k < |init| && init[k] == front[i];
          assert sorted[k] == init[k];
        }
      }
    }
  }

  /** The entries of `s` with count `n`, in order. */
  function WithCount(s: seq<CountryCount>, n: int): (r: seq<CountryCount>)
  {
    if s == [] then []
    else WithCount(s[..|s| - 1], n) + (if s[|s| - 1].count == n then [s[|s| - 1]] else [])
  }

  lemma {:induction false} WithCountAppend(a: seq<CountryCount>, b: seq<CountryCount>, n: int)
    ensures WithCount(a + b, n) == WithCount(a, n) + WithCount(b, n)
  {
    if b != [] {
      var init := b[..|b| - 1];
      assert (a + b)[..|a + b| - 1] == a + init;
      WithCountAppend(a, init, n);
    } else {
      assert a + b == a;
    }
  }

  /** Inserting places the new entry after every entry with the same count:
      among entries of equal count the order of arrival is kept. */
  lemma {:induction false} InsertStable(sorted: seq<CountryCount>, x: CountryCount, n: int)
    ensures WithCount(Insert(sorted, x), n) == WithCount(sorted, n) + (if x.count == n then [x] else [])
  {
    if sorted == [] {
    } else if sorted[|sorted| - 1].count >= x.count {
      WithCountAppend(sorted, [x], n);
      WithCountSingle(x, n);
    } else {
      var init := sorted[..|sorted| - 1];
      var last := sorted[|sorted| - 1];
      InsertStable(init, x, n);
      InsertPassing(sorted, x, n);
      WithCountSingle(last, n);
      var w := WithCount(init, n);
      var wx := if x.count == n then [x] else [];
      var wl := if last.count == n then [last] else [];
      assert w + wx + wl == w + wl + wx by {
        assert wx == [] || wl == [];
      }
    }
  }

  lemma WithCountSingle(e: CountryCount, n: int)
    ensures WithCount([e], n) == if e.count == n then [e] else []
  {
    assert [e][..0] == [];
  }

  /** Passing over a last entry of smaller count: the entries of count `n`
      are those of the front, then the last one's. */
  lemma InsertPassing(sorted: seq<CountryCount>, x: CountryCount, n: int)
    requires sorted != [] && sorted[|sorted| - 1].count < x.count
    ensures var init := sorted[..|sorted| - 1]; var last := sorted[|sorted| - 1];
      WithCount(Insert(sorted, x), n) == WithCount(Insert(init, x), n) + WithCount([last], n)
      && WithCount(sorted, n) == WithCount(init, n) + WithCount([last], n)
  {
    var init := sorted[..|sorted| - 1];
    var last := sorted[|sorted| - 1];
    assert Insert(sorted, x) == Insert(init, x) + [last];
    WithCountAppend(Insert(init, x), [last], n);
    assert sorted == init + [last];
    WithCountAppend(init, [last], n);
  }

  /** `.sort((a, b) => b.count - a.count)`: a stable sort by decreasing
      count. */
  function SortByCount(s: seq<CountryCount>): (r: seq<CountryCount>)
    ensures |r| == |s|
  {
    if s == [] then [] else Insert(SortByCount(s[..|s| - 1]), s[|s| - 1])
  }

  /** Sorting yields a list in decreasing count order that is a permutation
      of its input. */
  lemma {:induction false} SortByCountSorts(s: seq<CountryCount>)
    ensures Descending(SortByCount(s))
    ensures multiset(SortByCount(s)) == multiset(s)
  {
    if s != [] {
      var init := s[..|s| - 1];
      assert s == init + [s[|s| - 1]];
      SortByCountSorts(init);
      InsertKeepsOrder(SortByCount(init), s[|s| - 1]);
      InsertPermutes(SortByCount(init), s[|s| - 1]);
    }
  }

  /** Sorting is stable: the entries of any one count keep their order. */
  lemma {:induction false} SortByCountStable(s: seq<CountryCount>, n: int)
    ensures WithCount(SortByCount(s), n) == WithCount(s, n)
  {
    if s != [] {
      var init := s[..|s| - 1];
      SortByCountStable(init, n);
      InsertStable(SortByCount(init), s[|s| - 1], n);
    }
  }

  /** The entries of one count among the first `k` are a prefix of those of
      the whole list. */
  lemma {:induction false} WithCountTake(s: seq<CountryCount>, k: nat, n: int)
    ensures var w := WithCount(s, n);
      |WithCount(Seqs.Take(s, k), n)| <= |w| && WithCount(Seqs.Take(s, k), n) == w[..|WithCount(Seqs.Take(s, k), n)|]
  {
    var top := Seqs.Take(s, k);
    assert s == top + s[|top|..];
    WithCountAppend(top, s[|top|..], n);
  }

  /** The five most frequent recommended countries. */
  function TopCountries(countries: seq<string>): (r: seq<CountryCount>)
    ensures |r| <= 5 && Descending(r)
  {
    TallyAllMeaning(countries);
    var sorted := SortByCount(Entries(TallyAll(countries)));
    SortByCountSorts(Entries(TallyAll(countries)));
    Seqs.Take(sorted, 5)
  }

  /** Countries recommended equally often are listed in the order of their
      first recommendation, the order of the tally's keys. */
  lemma TopCountriesTies(countries: seq<string>, n: int)
    ensures forall k | 0 <= k < |TallyAll(countries).keys| :: TallyAll(countries).keys[k] in TallyAll(countries).counts
    ensures var w := WithCount(Entries(TallyAll(countries)), n);
      |WithCount(TopCountries(countries), n)| <= |w|
      && WithCount(TopCountries(countries), n) == w[..|WithCount(TopCountries(countries), n)|]
  {
    TallyAllMeaning(countries);
    var entries := Entries(TallyAll(countries));
    SortByCountStable(entries, n);
    WithCountTake(SortByCount(entries), 5, n);
  }

  /** Every entry of `s` is a country of `countries` with its number of
      occurrences. */
  predicate CountsOf(s: seq<CountryCount>, countries: seq<string>) {
    forall e | e in s :: e.country in countries && e.count == Occurrences(countries, e.country)
  }

  predicate DistinctCountries(s: seq<CountryCount>) {
    forall i, j | 0 <= i < j < |s| :: s[i].country != s[j].country
  }

  /** The entries of the tally hold each country of the list once, with its
      number of occurrences. */
  lemma EntriesMeaning(countries: seq<string>)
    ensures forall k | 0 <= k < |TallyAll(countries).keys| :: TallyAll(countries).keys[k] in TallyAll(countries).counts
    ensures CountsOf(Entries(TallyAll(countries)), countries)
    ensures DistinctCountries(Entries(TallyAll(countries)))
    ensures forall c | c in countries :: CountryCount(c, Occurrences(countries, c)) in Entries(TallyAll(countries))
  {
    TallyAllMeaning(countries);
    var t := TallyAll(countries);
    var entries := Entries(t);
    forall c | c in countries
      ensures CountryCount(c, Occurrences(countries, c)) in entries
    {
      var k :| 0 <= k < |t.keys| && t.keys[k] == c;
      assert entries[k] == CountryCount(c, Occurrences(countries, c));
    }
  }

  /** A permutation of entries with distinct countries has distinct
      countries and the same entries. */
  lemma PermutedEntries(entries: seq<CountryCount>, sorted: seq<CountryCount>, countries: seq<string>)
    requires multiset(sorted) == multiset(entries)
    requires CountsOf(entries, countries) && DistinctCountries(entries)
    ensures CountsOf(sorted, countries) && DistinctCountries(sorted)
    ensures forall e | e in entries :: e in sorted
  {
    forall e | e in sorted
      ensures e in entries
    {
      assert e in multiset(sorted);
    }
    forall e | e in entries
      ensures e in sorted
    {
      assert e in multiset(entries);
    }
    forall i, j | 0 <= i < j < |sorted|
      ensures sorted[i].country != sorted[j].country
    {
      DistinctAfterPermutation(entries, sorted, i, j);
    }
  }

  /** Two positions of a permutation of entries with distinct countries
      hold different countries: equal countries would mean the same entry,
      which occurs only once. */
  lemma DistinctAfterPermutation(entries: seq<CountryCount>, sorted: seq<CountryCount>, i: nat, j: nat)
    requires multiset(sorted) == multiset(entries)
    requires DistinctCountries(entries)
    requires forall e | e in sorted :: e in entries
    requires i < j < |sorted|
    ensures sorted[i].country != sorted[j].country
  {
    assert sorted[i] in sorted && sorted[j] in sorted;
    var a :| 0 <= a < |entries| && entries[a] == sorted[i];
    var b :| 0 <= b < |entries| && entries[b] == sorted[j];
    if a == b {
      TwoPositions(sorted, i, j);
      SingleOccurrence(entries, a);
    }
  }

  /** An entry found at two positions occurs at least twice. */
  lemma TwoPositions(s: seq<CountryCount>, i: nat, j: nat)
    requires i < j < |s| && s[i] == s[j]
    ensures multiset(s)[s[i]] >= 2
  {
    var e := s[i];
    assert s == s[..i] + [e] + s[i + 1..j] + [e] + s[j + 1..];
    assert multiset(s) == multiset(s[..i]) + multiset{e} + multiset(s[i + 1..j]) + multiset{e} + multiset(s[j + 1..]);
  }

  /** In a list of entries with distinct countries, an entry occurs once. */
  lemma SingleOccurrence(entries: seq<CountryCount>, a: nat)
    requires a < |entries|
    requires DistinctCountries(entries)
    ensures multiset(entries)[entries[a]] == 1
  {
    var e := entries[a];
    assert entries == entries[..a] + [e] + entries[a + 1..];
    assert e !in entries[..a] && e !in entries[a + 1..];
    assert multiset(entries[..a])[e] == 0 && multiset(entries[a + 1..])[e] == 0;
  }

  /** An entry of a sorted list that the first five leave out is
      outnumbered by each of those five. */
  lemma LeftOutOfTop(sorted: seq<CountryCount>, entry: CountryCount)
    requires Descending(sorted) && entry in sorted
    requires forall e | e in Seqs.Take(sorted, 5) :: e.country != entry.country
    ensures |Seqs.Take(sorted, 5)| == 5
    ensures forall e | e in Seqs.Take(sorted, 5) :: e.count >= entry.count
  {
    var top := Seqs.Take(sorted, 5);
    var j :| 0 <= j < |sorted| && sorted[j] == entry;
    if j < |top| {
      assert false;
    }
    forall e | e in top
      ensures e.count >= entry.count
    {
      var i :| 0 <= i < |top| && top[i] == e;
      assert sorted[i] == e;
    }
  }

  /** At most five entries in non-increasing count order; each is a
      recommended country with its number of recommendations, each country
      appears once, and a recommended country left out of the list is
      outnumbered by all five listed ones. */
  lemma TopCountriesMeaning(countries: seq<string>)
    ensures |TopCountries(countries)| <= 5
    ensures Descending(TopCountries(countries))
    ensures CountsOf(TopCountries(countries), countries)
    ensures DistinctCountries(TopCountries(countries))
    ensures forall c | c in countries && (forall e | e in TopCountries(countries) :: e.country != c) ::
      |TopCountries(countries)| == 5
      && forall e | e in TopCountries(countries) :: e.count >= Occurrences(countries, c)
  {
    TopCountriesListed(countries);
    TopCountriesOutnumber(countries);
  }

  lemma TopCountriesListed(countries: seq<string>)
    ensures |TopCountries(countries)| <= 5
    ensures Descending(TopCountries(countries))
    ensures CountsOf(TopCountries(countries), countries)
    ensures DistinctCountries(TopCountries(countries))
  {
    EntriesMeaning(countries);
    var entries := Entries(TallyAll(countries));
    var sorted := SortByCount(entries);
    SortByCountSorts(entries);
    PermutedEntries(entries, sorted, countries);
    var top := Seqs.Take(sorted, 5);
    assert top == TopCountries(countries);
    assert forall e | e in top :: e in sorted;
  }

  lemma TopCountriesOutnumber(countries: seq<string>)
    ensures forall c | c in countries && (forall e | e in TopCountries(countries) :: e.country != c) ::
      |TopCountries(countries)| == 5
      && forall e | e in TopCountries(countries) :: e.count >= Occurrences(countries, c)
  {
    EntriesMeaning(countries);
    var entries := Entries(TallyAll(countries));
    var sorted := SortByCount(entries);
    SortByCountSorts(entries);
    PermutedEntries(entries, sorted, countries);
    var top := Seqs.Take(sorted, 5);
    assert top == TopCountries(countries);
    forall c | c in countries && (forall e | e in top :: e.country != c)
      ensures |top| == 5 && forall e | e in top :: e.count >= Occurrences(countries, c)
    {
      LeftOutOfTop(sorted, CountryCount(c, Occurrences(countries, c)));
    }
  }

  datatype Metrics = Metrics(totalRecommendations: nat, averageScore: real, engagementRate: real,
                             topCountries: seq<CountryCount>)

  /** The metrics of a list of traces: the number of recommendations, the
      mean judge score, engagements per recommendation and the top
      countries. */
  function MetricsOf(traces: seq<Trace>): (m: Metrics)
    requires AllWellFormed(traces)
    ensures m.totalRecommendations == Seqs.CountIf(traces, IsRecommendation)
    ensures m.averageScore == Average(Scores(traces))
    ensures m.engagementRate == Rate(Seqs.CountIf(traces, IsEngagement), m.totalRecommendations)
    ensures m.topCountries == TopCountries(RecommendedCountries(traces))
  {
    var countries := RecommendedCountries(traces);
    Metrics(|countries|, Average(Scores(traces)), Rate(Seqs.CountIf(traces, IsEngagement), |countries|),
      TopCountries(countries))
  }

  const TypeErrorMessage: string := "Cannot use 'in' operator to search for 'action' in undefined"

  /** Some evaluation-typed trace has no metadata record. */
  predicate HasBareEvaluation(traces: seq<Trace>) {
    exists k | 0 <= k < |traces| :: traces[k].traceType == EvaluationType && traces[k].metadata.None?
  }

  /** The metrics as the source computes them: the engagement filter looks
      for `action` in the metadata of every evaluation-typed trace, which
      throws on a trace that has none. */
  function MetricsAsWritten(traces: seq<Trace>): (r: Result<Metrics, string>)
    requires AllWellFormed(traces)
    ensures r.Failure? <==> HasBareEvaluation(traces)
    ensures r.Success? ==> r.value == MetricsOf(traces)
  {
    if HasBareEvaluation(traces) then Failure(TypeErrorMessage) else Success(MetricsOf(traces))
  }

  /** The evaluation record for a score. */
  function EvaluationRecord(recommendationId: string, score: nat, now: nat, suffix: string): Trace {
    Trace(TraceId("eval", now, suffix), now, EvaluationType, None,
      EvaluationDetails(recommendationId, LlmAsJudge, score, Criteria, Some(ScoreReasoning(score))))
  }

  /** The trace `evaluateRecommendation` builds and stores: a judge
      evaluation of the recommendation, with its score, the four criteria
      and no metadata record. */
  function JudgeTrace(recommendationId: string, recommendation: RecommendedBook, history: seq<HistoryEntry>,
                      now: nat, suffix: string): (t: Trace)
    ensures WellFormed(t) && t.metadata.None? && t.traceType == EvaluationType
    ensures t.details.score == JudgeScore(recommendation, history)
    ensures t.details.recommendationId == recommendationId
    ensures t.details.evaluationType == LlmAsJudge && t.details.criteria == Criteria
  {
    EvaluationRecord(recommendationId, JudgeScore(recommendation, history), now, suffix)
  }

  /** As written, one evaluation is enough to make every later metrics
      request fail, whatever else the store holds. */
  lemma EvaluationBreaksMetrics(traces: seq<Trace>, recommendationId: string, recommendation: RecommendedBook,
                                history: seq<HistoryEntry>, now: nat, suffix: string)
    requires AllWellFormed(traces)
    ensures AllWellFormed(traces + [JudgeTrace(recommendationId, recommendation, history, now, suffix)])
    ensures MetricsAsWritten(traces + [JudgeTrace(recommendationId, recommendation, history, now, suffix)]).Failure?
  {
    var s := traces + [JudgeTrace(recommendationId, recommendation, history, now, suffix)];
    assert s[|traces|].metadata.None?;
  }

  /** The traces in insertion order; the methods only ever append. */
  class TraceStore {
    var traces: seq<Trace>

    ghost predicate Valid()
      reads this
    {
      AllWellFormed(traces)
    }

    constructor ()
      ensures Valid() && traces == []
    {
      traces := [];
    }

    /** `trackRecommendation`: stores one recommendation trace at the end
        and returns its id. */
    method TrackRecommendation(userId: string, input: RecommendationInput, output: RecommendationOutput,
                               metadata: Metadata, now: nat, suffix: string) returns (id: string)
      modifies this
      requires Valid()
      ensures Valid()
      ensures id == TraceId("rec", now, suffix)
      ensures traces == old(traces)
        + [Trace(id, now, RecommendationType, Some(metadata), RecommendationDetails(userId, input, output))]
    {
      id := TraceId("rec", now, suffix);
      traces := traces + [Trace(id, now, RecommendationType, Some(metadata), RecommendationDetails(userId, input, output))];
    }

    /** `evaluateRecommendation`: scores the recommendation step by step
        and stores the evaluation at the end. */
    method EvaluateRecommendation(recommendationId: string, recommendation: RecommendedBook,
                                  userHistory: seq<HistoryEntry>, now: nat, suffix: string)
      returns (evaluation: Trace)
      modifies this
      requires Valid()
      ensures Valid()
      ensures evaluation == JudgeTrace(recommendationId, recommendation, userHistory, now, suffix)
      ensures traces == old(traces) + [evaluation]
    {
      var score := 70;
      var seen := false;
      for k := 0 to |userHistory|
        invariant seen <==> exists j | 0 <= j < k :: userHistory[j].country == recommendation.country
      {
        if userHistory[k].country == recommendation.country {
          seen := true;
        }
      }
      if !seen {
        score := score + 15;
      }
      if |recommendation.reason| > 50 {
        score := score + 10;
      }
      if score > 100 {
        score := 100;
      }
      assert seen <==> !NewCountry(recommendation.country, userHistory);
      assert score == JudgeScore(recommendation, userHistory);
      evaluation := EvaluationRecord(recommendationId, score, now, suffix);
      traces := traces + [evaluation];
    }

    /** `trackEngagement`: stores one evaluation-typed trace whose metadata
        records the recommendation and the action. */
    method TrackEngagement(recommendationId: string, action: Action, metadata: Metadata, now: nat, suffix: string)
      modifies this
      requires Valid()
      ensures Valid()
      ensures traces == old(traces)
        + [Trace(TraceId("eng", now, suffix), now, EvaluationType,
                 Some(EngagementMetadata(recommendationId, action, metadata)), NoDetails)]
    {
      var t := Trace(TraceId("eng", now, suffix), now, EvaluationType,
        Some(EngagementMetadata(recommendationId, action, metadata)), NoDetails);
      traces := traces + [t];
    }

    /** `getAllTraces`: every trace, in insertion order. */
    method GetAllTraces() returns (r: seq<Trace>)
      ensures r == traces
    {
      r := traces;
    }

    /** The country counting loop of the metrics. */
    static method CountCountries(countries: seq<string>) returns (keys: seq<string>, counts: map<string, nat>)
      ensures keys == Seqs.Dedup(countries)
      ensures forall c :: c in counts <==> c in countries
      ensures forall c | c in counts :: counts[c] == Occurrences(countries, c)
      ensures Tally(keys, counts) == TallyAll(countries)
    {
      keys := [];
      counts := map[];
      for i := 0 to |countries|
        invariant Tally(keys, counts) == TallyAll(countries[..i])
      {
        assert countries[..i + 1][..i] == countries[..i];
        var c := countries[i];
        if c !in counts {
          keys := keys + [c];
        }
        counts := counts[c := (if c in counts then counts[c] else 0) + 1];
      }
      assert countries[..|countries|] == countries;
      TallyAllMeaning(countries);
    }

    /** `getRecommendationMetrics`, with a trace that has no metadata
        counted as no engagement. */
    method GetRecommendationMetrics() returns (m: Metrics)
      requires Valid()
      ensures m == MetricsOf(traces)
    {
      var countries := RecommendedCountries(traces);
      var scores := Scores(traces);
      var engagements := Seqs.CountIf(traces, IsEngagement);
      var keys, counts := CountCountries(countries);
      TallyAllMeaning(countries);
      var top := Seqs.Take(SortByCount(Entries(Tally(keys, counts))), 5);
      m := Metrics(|countries|, Average(scores), Rate(engagements, |countries|), top);
    }
  }
}
