/** The book recommender: the prompt built from the reading history, the
    two tiers of model calls, the reply parser, the fixed fallback books,
    and `generateRecommendation`, which ties them together and records the
    result in the trace store. The model services, the model listing, JSON
    decoding, the author regular expression, the country-code lookup, the
    clock and `Math.random` are inputs. */
module Recommender {
  import opened Wrappers
  import Text
  import Seqs
  import Opik

  /** One book of the reading history. */
  datatype ReadingHistory = ReadingHistory(title: string, author: string, country: string,
                                           countryCode: string, rating: Option<int>)

  datatype Pace = Slow | MediumPace | Fast

  function PaceName(p: Pace): string {
    match p
    case Slow => "slow"
    case MediumPace => "medium"
    case Fast => "fast"
  }

  datatype Preferences = Preferences(preferredGenres: Option<seq<string>>, readingPace: Option<Pace>,
                                     goal: Option<string>)

  datatype BookRecommendation = BookRecommendation(
    title: string,
    author: string,
    country: string,
    countryCode: string,
    reason: string,
    culturalContext: Option<string>,
    difficulty: Option<string>,
    estimatedPages: Option<int>)

  /** The values of `f` on the history are exactly the elements of its
      mapped list. */
  lemma MappedMembers(history: seq<ReadingHistory>, f: ReadingHistory -> string, mapped: seq<string>)
    requires |mapped| == |history| && forall k | 0 <= k < |history| :: mapped[k] == f(history[k])
    ensures forall c :: c in mapped <==> exists k | 0 <= k < |history| :: f(history[k]) == c
  {
    forall c | c in mapped
      ensures exists k | 0 <= k < |history| :: f(history[k]) == c
    {
      var k :| 0 <= k < |mapped| && mapped[k] == c;
    }
  }

  /** `new Set(history.map(b => b.countryCode))`, in insertion order. */
  function CountriesRead(history: seq<ReadingHistory>): (r: seq<string>)
    ensures Seqs.NoDuplicates(r)
    ensures forall c :: c in r <==> exists k | 0 <= k < |history| :: history[k].countryCode == c
    ensures r == [] <==> history == []
  {
    var codes := seq(|history|, k requires 0 <= k < |history| => history[k].countryCode);
    Seqs.DedupMembers(codes);
    MappedMembers(history, (b: ReadingHistory) => b.countryCode, codes);
    if history == [] then [] else Seqs.DedupHead(codes); Seqs.Dedup(codes)
  }

  /** The continents of the history, in order of first appearance;
      `continentOf` is the continent lookup. */
  function ContinentsRead(history: seq<ReadingHistory>, continentOf: string -> string): (r: seq<string>)
    ensures Seqs.NoDuplicates(r)
    ensures forall c :: c in r <==> exists k | 0 <= k < |history| :: continentOf(history[k].countryCode) == c
    ensures r == [] <==> history == []
  {
    var continents := seq(|history|, k requires 0 <= k < |history| => continentOf(history[k].countryCode));
    Seqs.DedupMembers(continents);
    MappedMembers(history, (b: ReadingHistory) => continentOf(b.countryCode), continents);
    if history == [] then [] else Seqs.DedupHead(continents); Seqs.Dedup(continents)
  }

  // ---------------------------------------------------------------------
  // The prompt

  /** The fixed wording of the prompt: the system instruction, the opening
      of the user prompt, the text shown for an empty history, and the
      closing request with the JSON layout. The lemmas below hold for any
      wording; `PromptWording` is the one the recommender sends. */
  datatype Wording = Wording(intro: string, head: string, noHistory: string, tail: string)

  const SystemIntro: string :=
      "You are an expert literary advisor "
      + "helping readers explore diverse "
      + "global literature.\n"
      + "Your recommendations should be "
      + "thoughtful, culturally rich, and "
      + "help readers discover new perspectives.\n"
      + "Always provide specific book titles "
      + "and authors, and explain why each "
      + "recommendation is valuable.\n"
      + "\n"

  const PromptHead: string :=
      "I'm participating in a reading "
      + "challenge to read books from different "
      + "countries around the world.\n"
      + "\n"
      + "My reading history so far:\n"

  const NoHistoryText: string :=
      "I haven't read any books yet. "
      + "Suggest a great starting point!"

  const PromptTail: string :=
      "Please recommend a book from a "
      + "country I haven't read from yet. "
      + "Format your response as JSON with "
      + "this structure:\n"
      + "{\n"
      + "  \"title\": \"Book Title\",\n"
      + "  \"author\": \"Author Name\",\n"
      + "  \"country\": \"Country Name\",\n"
      + "  \"reason\": \"A detailed explanation "
      + "(2-3 sentences) of why this book "
      + "is a great choice for me\",\n"
      + "  \"culturalContext\": \"Brief "
      + "cultural context about the author/country "
      + "(optional)\",\n"
      + "  \"difficulty\": \"easy|medium|challenging\""
      + ",\n"
      + "  \"estimatedPages\": 300\n"
      + "}\n"
      + "\n"
      + "Make sure the country is one I "
      + "haven't read from yet, and explain "
      + "why this book would be meaningful "
      + "for my journey."

  const PromptWording: Wording := Wording(SystemIntro, PromptHead, NoHistoryText, PromptTail)

  /** A rating is shown only when it is set and not zero. */
  predicate Rated(rating: Option<int>) {
    rating.Some? && rating.value != 0
  }

  /** The line of the `i`-th book (counting from 0), numbered from 1. */
  function HistoryLine(i: nat, b: ReadingHistory): string {
    Text.NatToString(i + 1) + ". \"" + b.title + "\" by " + b.author + " (" + b.country + ")"
      + (if Rated(b.rating) then " - Rated " + Text.IntToString(b.rating.value) + "/5" else "")
  }

  function HistoryLines(history: seq<ReadingHistory>): (r: seq<string>)
    ensures |r| == |history|
    ensures forall k | 0 <= k < |r| :: r[k] == HistoryLine(k, history[k])
  {
    seq(|history|, k requires 0 <= k < |history| => HistoryLine(k, history[k]))
  }

  function HistoryText(w: Wording, history: seq<ReadingHistory>): string {
    if history == [] then w.noHistory else Text.Join(HistoryLines(history), "\n")
  }

  function GoalLine(p: Option<Preferences>): string {
    if p.Some? && p.value.goal.Some? && p.value.goal.value != "" then "My goal: " + p.value.goal.value + "\n" else ""
  }

  /** A genre list, even an empty one, is always shown when given. */
  function GenresLine(p: Option<Preferences>): string {
    if p.Some? && p.value.preferredGenres.Some? then
      "Preferred genres: " + Text.Join(p.value.preferredGenres.value, ", ") + "\n"
    else ""
  }

  function PaceLine(p: Option<Preferences>): string {
    if p.Some? && p.value.readingPace.Some? then "Reading pace: " + PaceName(p.value.readingPace.value) + "\n" else ""
  }

  /** The two lines naming the countries and continents read, `None` when
      there are none. */
  function CountriesLine(countriesRead: seq<string>): string {
    "Countries I've already read from: " + Text.OrElse(Some(Text.Join(countriesRead, ", ")), "None")
  }

  function ContinentsLine(continentsRead: seq<string>): string {
    "Continents I've explored: " + Text.OrElse(Some(Text.Join(continentsRead, ", ")), "None")
  }

  function ReadSection(countriesRead: seq<string>, continentsRead: seq<string>): string {
    "\n\n" + CountriesLine(countriesRead) + "\n" + ContinentsLine(continentsRead)
  }

  function PreferenceSection(p: Option<Preferences>): string {
    "\n\n" + GoalLine(p) + "\n" + GenresLine(p) + "\n" + PaceLine(p)
  }

  /** `buildRecommendationPrompt`. */
  function Prompt(w: Wording, history: seq<ReadingHistory>, countriesRead: seq<string>, continentsRead: seq<string>,
                  preferences: Option<Preferences>): (r: string)
    ensures |r| >= |w.head| + |w.tail| && r[..|w.head|] == w.head && r[|r| - |w.tail|..] == w.tail
  {
    w.head + HistoryText(w, history) + ReadSection(countriesRead, continentsRead)
      + PreferenceSection(preferences) + "\n\n" + w.tail
  }

  /** The system instruction followed by the user prompt. */
  function FullPrompt(w: Wording, userPrompt: string): string {
    w.intro + userPrompt
  }

  /** Every part of the read section is in the prompt. */
  lemma ReadSectionInPrompt(w: Wording, history: seq<ReadingHistory>, countriesRead: seq<string>,
                            continentsRead: seq<string>, preferences: Option<Preferences>, t: string)
    requires Text.Contains(ReadSection(countriesRead, continentsRead), t)
    ensures Text.Contains(Prompt(w, history, countriesRead, continentsRead, preferences), t)
  {
    var front := w.head + HistoryText(w, history);
    var read := ReadSection(countriesRead, continentsRead);
    Text.ContainsRight(front, read, t);
    Text.ContainsLeft(front + read, PreferenceSection(preferences), t);
    Text.ContainsLeft(front + read + PreferenceSection(preferences), "\n\n", t);
    Text.ContainsLeft(front + read + PreferenceSection(preferences) + "\n\n", w.tail, t);
  }

  /** Every part of the history text is in the prompt. */
  lemma HistoryTextInPrompt(w: Wording, history: seq<ReadingHistory>, countriesRead: seq<string>,
                            continentsRead: seq<string>, preferences: Option<Preferences>, t: string)
    requires Text.Contains(HistoryText(w, history), t)
    ensures Text.Contains(Prompt(w, history, countriesRead, continentsRead, preferences), t)
  {
    var front := w.head + HistoryText(w, history);
    var read := ReadSection(countriesRead, continentsRead);
    Text.ContainsRight(w.head, HistoryText(w, history), t);
    Text.ContainsLeft(front, read, t);
    Text.ContainsLeft(front + read, PreferenceSection(preferences), t);
    Text.ContainsLeft(front + read + PreferenceSection(preferences), "\n\n", t);
    Text.ContainsLeft(front + read + PreferenceSection(preferences) + "\n\n", w.tail, t);
  }

  /** Every part of the preference section is in the prompt. */
  lemma PreferenceSectionInPrompt(w: Wording, history: seq<ReadingHistory>, countriesRead: seq<string>,
                                  continentsRead: seq<string>, preferences: Option<Preferences>, t: string)
    requires Text.Contains(PreferenceSection(preferences), t)
    ensures Text.Contains(Prompt(w, history, countriesRead, continentsRead, preferences), t)
  {
    var front := w.head + HistoryText(w, history) + ReadSection(countriesRead, continentsRead);
    Text.ContainsRight(front, PreferenceSection(preferences), t);
    Text.ContainsLeft(front + PreferenceSection(preferences), "\n\n", t);
    Text.ContainsLeft(front + PreferenceSection(preferences) + "\n\n", w.tail, t);
  }

  /** With nothing read, the two lines say `None`. */
  lemma NothingReadLines()
    ensures CountriesLine([]) == "Countries I've already read from: None"
    ensures ContinentsLine([]) == "Continents I've explored: None"
  {
  }

  /** With no history the prompt says so, and names no country and no
      continent. */
  lemma PromptWithoutHistory(w: Wording, preferences: Option<Preferences>)
    ensures Text.Contains(Prompt(w, [], [], [], preferences), w.noHistory)
    ensures Text.Contains(Prompt(w, [], [], [], preferences), CountriesLine([]))
    ensures Text.Contains(Prompt(w, [], [], [], preferences), ContinentsLine([]))
  {
    Text.ContainsSelf(w.noHistory);
    HistoryTextInPrompt(w, [], [], [], preferences, w.noHistory);
    var countries, continents := CountriesLine([]), ContinentsLine([]);
    Text.ContainsSelf(countries);
    Text.ContainsRight("\n\n", countries, countries);
    Text.ContainsLeft("\n\n" + countries, "\n", countries);
    Text.ContainsLeft("\n\n" + countries + "\n", continents, countries);
    ReadSectionInPrompt(w, [], [], [], preferences, countries);
    Text.ContainsSelf(continents);
    Text.ContainsRight("\n\n" + countries + "\n", continents, continents);
    ReadSectionInPrompt(w, [], [], [], preferences, continents);
  }

  /** Every book of a non-empty history has its line in the prompt. */
  lemma PromptListsHistory(w: Wording, history: seq<ReadingHistory>, countriesRead: seq<string>, continentsRead: seq<string>,
                           preferences: Option<Preferences>, k: nat)
    requires k < |history|
    ensures Text.Contains(Prompt(w, history, countriesRead, continentsRead, preferences), HistoryLine(k, history[k]))
  {
    Text.JoinContainsPart(HistoryLines(history), "\n", k);
    HistoryTextInPrompt(w, history, countriesRead, continentsRead, preferences, HistoryLine(k, history[k]));
  }

  /** Absent preferences, preferences with nothing set and an empty goal all
      give the same prompt. */
  lemma PreferencesOptional(w: Wording, history: seq<ReadingHistory>, countriesRead: seq<string>, continentsRead: seq<string>)
    ensures Prompt(w, history, countriesRead, continentsRead, Some(Preferences(None, None, None)))
      == Prompt(w, history, countriesRead, continentsRead, None)
    ensures Prompt(w, history, countriesRead, continentsRead, Some(Preferences(None, None, Some(""))))
      == Prompt(w, history, countriesRead, continentsRead, None)
  {
    assert PreferenceSection(Some(Preferences(None, None, None))) == PreferenceSection(None);
    assert PreferenceSection(Some(Preferences(None, None, Some("")))) == PreferenceSection(None);
  }

  /** Each supplied preference has its line in the prompt. */
  lemma PromptPreferenceLines(w: Wording, history: seq<ReadingHistory>, countriesRead: seq<string>, continentsRead: seq<string>,
                              preferences: Preferences)
    ensures preferences.goal.Some? && preferences.goal.value != "" ==>
      Text.Contains(Prompt(w, history, countriesRead, continentsRead, Some(preferences)),
                    "My goal: " + preferences.goal.value + "\n")
    ensures preferences.preferredGenres.Some? ==>
      Text.Contains(Prompt(w, history, countriesRead, continentsRead, Some(preferences)),
                    "Preferred genres: " + Text.Join(preferences.preferredGenres.value, ", ") + "\n")
    ensures preferences.readingPace.Some? ==>
      Text.Contains(Prompt(w, history, countriesRead, continentsRead, Some(preferences)),
                    "Reading pace: " + PaceName(preferences.readingPace.value) + "\n")
  {
    var p := Some(preferences);
    var goal, genres, pace := GoalLine(p), GenresLine(p), PaceLine(p);
    Text.ContainsSelf(goal);
    Text.ContainsRight("\n\n", goal, goal);
    Text.ContainsLeft("\n\n" + goal, "\n", goal);
    Text.ContainsLeft("\n\n" + goal + "\n", genres, goal);
    Text.ContainsLeft("\n\n" + goal + "\n" + genres, "\n", goal);
    Text.ContainsLeft("\n\n" + goal + "\n" + genres + "\n", pace, goal);
    PreferenceSectionInPrompt(w, history, countriesRead, continentsRead, p, goal);
    Text.ContainsSelf(genres);
    Text.ContainsRight("\n\n" + goal + "\n", genres, genres);
    Text.ContainsLeft("\n\n" + goal + "\n" + genres, "\n", genres);
    Text.ContainsLeft("\n\n" + goal + "\n" + genres + "\n", pace, genres);
    PreferenceSectionInPrompt(w, history, countriesRead, continentsRead, p, genres);
    Text.ContainsSelf(pace);
    Text.ContainsRight("\n\n" + goal + "\n" + genres + "\n", pace, pace);
    PreferenceSectionInPrompt(w, history, countriesRead, continentsRead, p, pace);
  }

  // ---------------------------------------------------------------------
  // The model candidates

  /** An entry of the model listing: its name, if any, and its supported
      generation methods. */
  datatype ModelInfo = ModelInfo(name: Option<string>, supportedGenerationMethods: seq<string>)

  /** First index at or after `from` at which `t` occurs in `s`. */
  function IndexOfText(s: string, t: string, from: nat): (r: Option<nat>)
    ensures r.Some? ==> from <= r.value && Text.OccursAt(s, t, r.value)
    ensures r.Some? ==> forall k | from <= k < r.value :: !Text.OccursAt(s, t, k)
    ensures r.None? ==> forall k | from <= k <= |s| :: !Text.OccursAt(s, t, k)
    decreases |s| + 1 - from
  {
    if from > |s| then None
    else if Text.OccursAt(s, t, from) then Some(from)
    else IndexOfText(s, t, from + 1)
  }

  /** `s.replace(t, u)` with a string pattern: the first occurrence only. */
  function ReplaceFirst(s: string, t: string, u: string): (r: string)
    ensures IndexOfText(s, t, 0).None? ==> r == s
    ensures IndexOfText(s, t, 0).Some? ==>
      var i := IndexOfText(s, t, 0).value;
      r == s[..i] + u + s[i + |t|..] && forall k | 0 <= k < i :: !Text.OccursAt(s, t, k)
  {
    match IndexOfText(s, t, 0)
    case None => s
    case Some(i) => s[..i] + u + s[i + |t|..]
  }

  /** The name a listed model is tried under: without its first `models/`,
      or empty when it has no name. */
  function ListedName(m: ModelInfo): string {
    if m.name.Some? then ReplaceFirst(m.name.value, "models/", "") else ""
  }

  /** A listed model is kept when it supports `generateContent` and its
      name is non-empty and mentions `gemini`. */
  predicate Usable(m: ModelInfo) {
    "generateContent" in m.supportedGenerationMethods && ListedName(m) != "" && Text.Contains(ListedName(m), "gemini")
  }

  /** The models the listing offers, in listing order: exactly the names of
      the usable entries. */
  function DiscoveredModels(models: seq<ModelInfo>): (r: seq<string>)
    ensures |r| <= |models|
    ensures forall k | 0 <= k < |r| :: r[k] != "" && Text.Contains(r[k], "gemini")
    ensures forall k | 0 <= k < |models| && Usable(models[k]) :: ListedName(models[k]) in r
    ensures forall x | x in r :: exists k | 0 <= k < |models| :: Usable(models[k]) && ListedName(models[k]) == x
  {
    if models == [] then []
    else
      var front := DiscoveredModels(models[..|models| - 1]);
      var m := models[|models| - 1];
      assert forall k | 0 <= k < |models| - 1 :: models[..|models| - 1][k] == models[k];
      if Usable(m) then front + [ListedName(m)] else front
  }

  /** The listing is filtered and mapped entry by entry, so the discovered
      names keep the listing's order. */
  lemma {:induction false} DiscoveredModelsAppend(a: seq<ModelInfo>, b: seq<ModelInfo>)
    ensures DiscoveredModels(a + b) == DiscoveredModels(a) + DiscoveredModels(b)
    decreases |b|
  {
    if b == [] {
      assert a + b == a;
    } else {
      var b' := b[..|b| - 1];
      assert (a + b)[..|a + b| - 1] == a + b';
      assert b[..|b| - 1] == b';
      DiscoveredModelsAppend(a, b');
    }
  }

  /** One listing entry contributes its name exactly when it is usable. */
  lemma DiscoveredModelsSingle(m: ModelInfo)
    ensures DiscoveredModels([m]) == if Usable(m) then [ListedName(m)] else []
  {
    assert [m][..0] == [];
  }

  /** The three models tried last by the SDK and in turn by the REST API. */
  const DefaultModels: seq<string> := ["gemini-2.0-flash", "gemini-2.5-flash", "gemini-2.0-flash-lite"]

  /** The candidate list before filtering: the configured model, up to
      three discovered ones, then the defaults. */
  function CandidateSources(configured: Option<string>, discovered: seq<string>): seq<string> {
    (if configured.Some? then [configured.value] else []) + Seqs.Take(discovered, 3) + DefaultModels
  }

  /** `.filter(Boolean)` on strings: the non-empty ones, in order. */
  function NonEmpty(s: seq<string>): (r: seq<string>)
    ensures forall x :: x in r <==> x in s && x != ""
    ensures |r| <= |s|
    ensures |s| > 0 && s[0] != "" ==> |r| > 0 && r[0] == s[0]
  {
    if s == [] then []
    else
      var rest := NonEmpty(s[1..]);
      assert forall x :: x in s <==> x == s[0] || x in s[1..];
      if s[0] != "" then [s[0]] + rest else rest
  }

  /** The filter works element by element: it distributes over
      concatenation, so the kept names stay in their order. */
  lemma {:induction false} NonEmptyAppend(a: seq<string>, b: seq<string>)
    ensures NonEmpty(a + b) == NonEmpty(a) + NonEmpty(b)
    decreases |a|
  {
    if a == [] {
      assert a + b == b;
    } else {
      assert (a + b)[0] == a[0];
      assert (a + b)[1..] == a[1..] + b;
      NonEmptyAppend(a[1..], b);
    }
  }

  /** The models tried through the SDK: the non-empty sources, each kept at
      its first occurrence in source order; never empty, at most seven, and
      every default is among them. */
  function CandidateModels(configured: Option<string>, discovered: seq<string>): (r: seq<string>)
    ensures r == Seqs.Dedup(NonEmpty(CandidateSources(configured, discovered)))
    ensures r != [] && Seqs.NoDuplicates(r) && |r| <= 7
    ensures forall x :: x in r <==> x in CandidateSources(configured, discovered) && x != ""
    ensures forall k | 0 <= k < |DefaultModels| :: DefaultModels[k] in r
    ensures configured.Some? && configured.value != "" ==> r[0] == configured.value
  {
    var sources := CandidateSources(configured, discovered);
    assert |sources| <= 7;
    var kept := NonEmpty(sources);
    assert DefaultModels[0] in kept && DefaultModels[1] in kept && DefaultModels[2] in kept;
    assert configured.Some? && configured.value != "" ==> sources[0] == configured.value;
    Seqs.DedupHead(kept);
    Seqs.DedupMembers(kept);
    Seqs.Dedup(kept)
  }

  /** The configured model and the first three discovered ones are tried,
      in that order and without repeats, before any default they do not
      already name. */
  lemma CandidateOrder(configured: Option<string>, discovered: seq<string>)
    ensures var early := Seqs.Dedup(NonEmpty((if configured.Some? then [configured.value] else []) + Seqs.Take(discovered, 3)));
      var r := CandidateModels(configured, discovered);
      |early| <= |r| && r[..|early|] == early
  {
    var head := (if configured.Some? then [configured.value] else []) + Seqs.Take(discovered, 3);
    var sources := CandidateSources(configured, discovered);
    assert sources == head + DefaultModels;
    NonEmptyAppend(head, DefaultModels);
    var kept := NonEmpty(sources);
    assert kept[..|NonEmpty(head)|] == NonEmpty(head);
    Seqs.DedupPrefix(kept, |NonEmpty(head)|);
  }

  // ---------------------------------------------------------------------
  // The two tiers of model calls

  /** What one SDK call gives: an exception, or a reply whose text may be
      missing. */
  datatype SdkOutcome = SdkThrew | SdkReplied(text: Option<string>)

  /** What one REST call gives: an exception, a response that is not OK, or
      an OK response with the text of the first part of the first
      candidate, if any. */
  datatype RestOutcome = RestThrew | RestNotOk | RestOk(text: Option<string>)

  /** The reply kept so far and the model it is reported under. */
  datatype TierState = TierState(response: string, usedModel: string)

  const InitialState: TierState := TierState("", "gemini")

  /** The trimmed text of an SDK reply. */
  function SdkText(o: SdkOutcome): string
    requires o.SdkReplied?
  {
    Text.Trim(o.text.GetOr(""))
  }

  predicate SdkAnswered(o: SdkOutcome) {
    o.SdkReplied? && SdkText(o) != ""
  }

  /** The SDK loop over the remaining candidates: an exception leaves the
      state alone, a reply replaces it, and a non-empty reply ends the
      loop. */
  function SdkRun(models: seq<string>, prompt: string, sdk: (string, string) -> SdkOutcome, s: TierState): (r: TierState)
    ensures r == s || (r.usedModel in models && sdk(r.usedModel, prompt).SdkReplied?
                       && r.response == SdkText(sdk(r.usedModel, prompt)))
    decreases |models|
  {
    if models == [] then s
    else
      match sdk(models[0], prompt)
      case SdkThrew => SdkRun(models[1..], prompt, sdk, s)
      case SdkReplied(_) =>
        var next := TierState(SdkText(sdk(models[0], prompt)), models[0]);
        if next.response != "" then next else SdkRun(models[1..], prompt, sdk, next)
  }

  /** The first candidate whose reply trims to non-empty text. */
  function FirstSdkAnswer(models: seq<string>, prompt: string, sdk: (string, string) -> SdkOutcome): (r: Option<nat>)
    ensures r.Some? ==> r.value < |models| && SdkAnswered(sdk(models[r.value], prompt))
    ensures r.Some? ==> forall j | 0 <= j < r.value :: !SdkAnswered(sdk(models[j], prompt))
    ensures r.None? ==> forall j | 0 <= j < |models| :: !SdkAnswered(sdk(models[j], prompt))
  {
    if models == [] then None
    else if SdkAnswered(sdk(models[0], prompt)) then Some(0)
    else
      match FirstSdkAnswer(models[1..], prompt, sdk)
      case None => None
      case Some(i) => Some(i + 1)
  }

  /** The SDK tier keeps the reply of the first candidate that answers,
      under that candidate's name, and keeps nothing when none answers. */
  lemma {:induction false} SdkRunMeaning(models: seq<string>, prompt: string, sdk: (string, string) -> SdkOutcome, s: TierState)
    requires s.response == ""
    ensures FirstSdkAnswer(models, prompt, sdk).Some? ==>
      var i := FirstSdkAnswer(models, prompt, sdk).value;
      SdkRun(models, prompt, sdk, s) == TierState(SdkText(sdk(models[i], prompt)), models[i])
    ensures FirstSdkAnswer(models, prompt, sdk).None? ==> SdkRun(models, prompt, sdk, s).response == ""
  {
    if models != [] {
      match sdk(models[0], prompt)
      case SdkThrew =>
        SdkRunMeaning(models[1..], prompt, sdk, s);
      case SdkReplied(_) =>
        var next := TierState(SdkText(sdk(models[0], prompt)), models[0]);
        if next.response == "" {
          SdkRunMeaning(models[1..], prompt, sdk, next);
        }
    }
  }

  /** The REST text kept: an OK response with a non-empty raw text. */
  predicate RestAnswered(o: RestOutcome) {
    o.RestOk? && o.text.Some? && o.text.value != ""
  }

  /** The REST loop over the remaining fixed models: the first non-empty
      raw text is trimmed and kept, even when it trims to nothing. */
  function RestRun(models: seq<string>, prompt: string, rest: (string, string) -> RestOutcome, s: TierState): (r: TierState)
    ensures r == s || (r.usedModel in models && RestAnswered(rest(r.usedModel, prompt))
                       && r.response == Text.Trim(rest(r.usedModel, prompt).text.value))
    decreases |models|
  {
    if models == [] then s
    else if RestAnswered(rest(models[0], prompt)) then
      TierState(Text.Trim(rest(models[0], prompt).text.value), models[0])
    else RestRun(models[1..], prompt, rest, s)
  }

  /** The first model whose REST text is non-empty. */
  function FirstRestAnswer(models: seq<string>, prompt: string, rest: (string, string) -> RestOutcome): (r: Option<nat>)
    ensures r.Some? ==> r.value < |models| && RestAnswered(rest(models[r.value], prompt))
    ensures r.Some? ==> forall j | 0 <= j < r.value :: !RestAnswered(rest(models[j], prompt))
    ensures r.None? ==> forall j | 0 <= j < |models| :: !RestAnswered(rest(models[j], prompt))
  {
    if models == [] then None
    else if RestAnswered(rest(models[0], prompt)) then Some(0)
    else
      match FirstRestAnswer(models[1..], prompt, rest)
      case None => None
      case Some(i) => Some(i + 1)
  }

  /** The REST tier keeps the trimmed text of the first model with a
      non-empty raw text, under that model's name, and changes nothing when
      there is none. */
  lemma {:induction false} RestRunMeaning(models: seq<string>, prompt: string, rest: (string, string) -> RestOutcome, s: TierState)
    ensures FirstRestAnswer(models, prompt, rest).Some? ==>
      var i := FirstRestAnswer(models, prompt, rest).value;
      RestRun(models, prompt, rest, s) == TierState(Text.Trim(rest(models[i], prompt).text.value), models[i])
    ensures FirstRestAnswer(models, prompt, rest).None? ==> RestRun(models, prompt, rest, s) == s
  {
    if models != [] && !RestAnswered(rest(models[0], prompt)) {
      RestRunMeaning(models[1..], prompt, rest, s);
    }
  }

  /** Both tiers: the REST tier runs only when the SDK tier kept nothing. */
  function Respond(models: seq<string>, prompt: string, sdk: (string, string) -> SdkOutcome,
                   rest: (string, string) -> RestOutcome): TierState
  {
    var s := SdkRun(models, prompt, sdk, InitialState);
    if s.response == "" then RestRun(DefaultModels, prompt, rest, s) else s
  }

  /** A kept reply is reported under the model that produced it: a model
      whose SDK reply trims to it, or, when no candidate answered through
      the SDK, a REST model whose text trims to it. */
  lemma RespondReportsSource(models: seq<string>, prompt: string, sdk: (string, string) -> SdkOutcome,
                             rest: (string, string) -> RestOutcome)
    ensures var s := Respond(models, prompt, sdk, rest);
      s.response != "" ==>
        || (s.usedModel in models && SdkAnswered(sdk(s.usedModel, prompt)) && s.response == SdkText(sdk(s.usedModel, prompt)))
        || (FirstSdkAnswer(models, prompt, sdk).None? && s.usedModel in DefaultModels
            && FirstRestAnswer(DefaultModels, prompt, rest).Some?
            && RestAnswered(rest(s.usedModel, prompt)) && s.response == Text.Trim(rest(s.usedModel, prompt).text.value))
  {
    SdkRunMeaning(models, prompt, sdk, InitialState);
    var s := SdkRun(models, prompt, sdk, InitialState);
    if s.response == "" {
      RestRunMeaning(DefaultModels, prompt, rest, s);
    }
  }

  // ---------------------------------------------------------------------
  // Parsing the reply

  /** The fields a decoded JSON object offers; `None` is a missing or
      non-string field. */
  datatype ParsedFields = ParsedFields(
    title: Option<string>,
    author: Option<string>,
    country: Option<string>,
    countryCode: Option<string>,
    reason: Option<string>,
    culturalContext: Option<string>,
    difficulty: Option<string>,
    estimatedPages: Option<int>)

  const DefaultReason: string := "A great addition to your reading journey"

  /** A recommendation from decoded JSON: every text field falls back to
      its default when missing or empty; the code is the looked-up code of
      the country name, else the given code, else empty. */
  function FromJson(parsed: ParsedFields, codeOf: Option<string> -> string): (r: BookRecommendation)
    ensures Text.Given(parsed.title) ==> r.title == parsed.title.value
    ensures !Text.Given(parsed.title) ==> r.title == "Unknown"
    ensures Text.Given(parsed.author) ==> r.author == parsed.author.value
    ensures !Text.Given(parsed.author) ==> r.author == "Unknown"
    ensures Text.Given(parsed.country) ==> r.country == parsed.country.value
    ensures !Text.Given(parsed.country) ==> r.country == "Unknown"
    ensures Text.Given(parsed.reason) ==> r.reason == parsed.reason.value
    ensures !Text.Given(parsed.reason) ==> r.reason == DefaultReason
    ensures Text.Given(parsed.difficulty) ==> r.difficulty == parsed.difficulty
    ensures !Text.Given(parsed.difficulty) ==> r.difficulty == Some("medium")
    ensures codeOf(parsed.country) != "" ==> r.countryCode == codeOf(parsed.country)
    ensures codeOf(parsed.country) == "" ==> r.countryCode == parsed.countryCode.GetOr("")
    ensures r.culturalContext == parsed.culturalContext && r.estimatedPages == parsed.estimatedPages
  {
    BookRecommendation(
      Text.OrElse(parsed.title, "Unknown"),
      Text.OrElse(parsed.author, "Unknown"),
      Text.OrElse(parsed.country, "Unknown"),
      Text.OrElse(Some(codeOf(parsed.country)), Text.OrElse(parsed.countryCode, "")),
      Text.OrElse(parsed.reason, DefaultReason),
      parsed.culturalContext,
      Some(Text.OrElse(parsed.difficulty, "medium")),
      parsed.estimatedPages)
  }

  /** The JSON object a complete recommendation is written as. */
  function FieldsOf(rec: BookRecommendation): ParsedFields {
    ParsedFields(Some(rec.title), Some(rec.author), Some(rec.country), Some(rec.countryCode),
                 Some(rec.reason), rec.culturalContext, rec.difficulty, rec.estimatedPages)
  }

  /** A recommendation whose text fields are all set reads back from its
      JSON unchanged, as long as the name lookup does not contradict its
      code. */
  lemma FromJsonRoundTrip(rec: BookRecommendation, codeOf: Option<string> -> string)
    requires rec.title != "" && rec.author != "" && rec.country != "" && rec.reason != ""
    requires rec.difficulty.Some? && rec.difficulty.value != ""
    requires codeOf(Some(rec.country)) == "" || codeOf(Some(rec.country)) == rec.countryCode
    ensures FromJson(FieldsOf(rec), codeOf) == rec
  {
  }

  /** `/"([^"]+)"/` matches at `i`: a quote, a non-quote, and a later
      quote. */
  predicate QuoteMatchAt(s: string, i: nat) {
    i + 1 < |s| && s[i] == '"' && s[i + 1] != '"' && '"' in s[i + 2..]
  }

  /** The leftmost match of `/"([^"]+)"/` at or after `from`: where it
      starts and where its closing quote is. */
  function FirstQuoteMatch(s: string, from: nat): (r: Option<(nat, nat)>)
    ensures r.Some? ==> from <= r.value.0 && QuoteMatchAt(s, r.value.0)
    ensures r.Some? ==> forall k | from <= k < r.value.0 :: !QuoteMatchAt(s, k)
    ensures r.Some? ==> r.value.0 + 1 < r.value.1 < |s| && s[r.value.1] == '"'
    ensures r.Some? ==> forall k | r.value.0 < k < r.value.1 :: s[k] != '"'
    ensures r.None? ==> forall k | from <= k < |s| :: !QuoteMatchAt(s, k)
    decreases |s| - from
  {
    if from >= |s| then None
    else if QuoteMatchAt(s, from) then
      var d := Text.IndexOf(s[from + 1..], '"');
      assert s[from + 1..][0] != '"';
      assert d.Some? by {
        var k :| 0 <= k < |s[from + 2..]| && s[from + 2..][k] == '"';
        assert s[from + 1..][k + 1] == '"';
      }
      assert forall k | from < k < from + 1 + d.value :: s[k] == s[from + 1..][k - from - 1];
      Some((from, from + 1 + d.value))
    else FirstQuoteMatch(s, from + 1)
  }

  /** The title the text path finds: the text between the quotes of the
      leftmost match. */
  function QuotedTitle(s: string): (r: Option<string>)
    ensures r.Some? ==> r.value != "" && '"' !in r.value
    ensures r.Some? ==> exists i | 0 <= i < |s| ::
      && QuoteMatchAt(s, i)
      && Text.OccursAt(s, "\"" + r.value + "\"", i)
      && (forall k | 0 <= k < i :: !QuoteMatchAt(s, k))
    ensures r.None? ==> forall k | 0 <= k < |s| :: !QuoteMatchAt(s, k)
  {
    match FirstQuoteMatch(s, 0)
    case None => None
    case Some((i, j)) =>
      var t := s[i + 1..j];
      assert s[i..j + 1] == "\"" + t + "\"";
      assert Text.OccursAt(s, "\"" + t + "\"", i);
      Some(t)
  }

  /** A reply that holds a quoted title after quote-free text yields that
      title: the leftmost quoted run wins. */
  lemma QuotedTitleFirst(before: string, title: string, after: string)
    requires '"' !in before && title != "" && '"' !in title
    ensures QuotedTitle(before + "\"" + title + "\"" + after) == Some(title)
  {
    var s := before + "\"" + title + "\"" + after;
    var p := |before|;
    assert s[p] == '"' && s[p + 1] == title[0] && s[p + 1 + |title|] == '"';
    assert forall k | p < k < p + 1 + |title| :: s[k] == title[k - p - 1];
    assert forall k | 0 <= k < p :: s[k] == before[k];
    assert s[p + 2..][|title| - 1] == '"';
    assert QuoteMatchAt(s, p);
    var m := FirstQuoteMatch(s, 0);
    assert m.Some?;
    var (i, j) := m.value;
    assert i == p;
    assert j == p + 1 + |title|;
    assert s[i + 1..j] == title;
  }

  /** A recommendation read from plain text: it cannot fail; the country
      is unknown, the title is the first quoted run, the reason is the
      first 200 characters of the reply. */
  function FromText(response: string, authorOf: string -> Option<string>): (r: BookRecommendation)
    ensures r.country == "Unknown" && r.countryCode == ""
    ensures QuotedTitle(response).Some? ==> r.title == QuotedTitle(response).value
    ensures QuotedTitle(response).None? ==> r.title == "A recommended book"
    ensures Text.Given(authorOf(response)) ==> r.author == authorOf(response).value
    ensures !Text.Given(authorOf(response)) ==> r.author == "An author"
    ensures |response| > 200 ==> r.reason == response[..200]
    ensures response != "" && |response| <= 200 ==> r.reason == response
    ensures response == "" ==> r.reason == DefaultReason
    ensures r.culturalContext.None? && r.difficulty.None? && r.estimatedPages.None?
  {
    BookRecommendation(
      Text.OrElse(QuotedTitle(response), "A recommended book"),
      Text.OrElse(authorOf(response), "An author"),
      "Unknown",
      "",
      Text.OrElse(Some(Seqs.Take(response, 200)), DefaultReason),
      None,
      None,
      None)
  }

  /** `parseRecommendationResponse`: the JSON path when the span from the
      first `{` to the last `}` decodes, the text path otherwise. */
  function ParseResponse(response: string, decode: string -> Option<ParsedFields>,
                         codeOf: Option<string> -> string, authorOf: string -> Option<string>): (r: BookRecommendation)
    ensures Text.GreedySpan(response, '{', '}').None? ==> r == FromText(response, authorOf)
    ensures Text.GreedySpan(response, '{', '}').Some? && decode(Text.GreedySpan(response, '{', '}').value).None?
      ==> r == FromText(response, authorOf)
    ensures Text.GreedySpan(response, '{', '}').Some? && decode(Text.GreedySpan(response, '{', '}').value).Some?
      ==> r == FromJson(decode(Text.GreedySpan(response, '{', '}').value).value, codeOf)
    ensures r.title != "" && r.author != "" && r.country != "" && r.reason != ""
  {
    match Text.GreedySpan(response, '{', '}')
    case Some(span) =>
      (match decode(span)
       case Some(parsed) => FromJson(parsed, codeOf)
       case None => FromText(response, authorOf))
    case None => FromText(response, authorOf)
  }

  // ---------------------------------------------------------------------
  // The fallback books

  datatype FallbackBook = FallbackBook(title: string, author: string, country: string, countryCode: string)

  const Fallbacks: seq<FallbackBook> := [
    FallbackBook("Things Fall Apart", "Chinua Achebe", "Nigeria", "NG"),
    FallbackBook("One Hundred Years of Solitude", "Gabriel García Márquez", "Colombia", "CO"),
    FallbackBook("The Kite Runner", "Khaled Hosseini", "Afghanistan", "AF"),
    FallbackBook("Pachinko", "Min Jin Lee", "South Korea", "KR"),
    FallbackBook("The God of Small Things", "Arundhati Roy", "India", "IN")
  ]

  /** Five fallback books, every field filled in, Things Fall Apart first. */
  lemma FallbacksShape()
    ensures |Fallbacks| == 5
    ensures Fallbacks[0] == FallbackBook("Things Fall Apart", "Chinua Achebe", "Nigeria", "NG")
    ensures forall k | 0 <= k < |Fallbacks| ::
      Fallbacks[k].title != "" && Fallbacks[k].author != "" && Fallbacks[k].country != ""
  {
  }

  /** The books whose country has not been read, in list order. */
  function Available(books: seq<FallbackBook>, countriesRead: seq<string>): (r: seq<FallbackBook>)
    ensures forall b :: b in r <==> b in books && b.countryCode !in countriesRead
  {
    if books == [] then []
    else
      var rest := Available(books[1..], countriesRead);
      assert forall b :: b in books <==> b == books[0] || b in books[1..];
      if books[0].countryCode !in countriesRead then [books[0]] + rest else rest
  }

  /** `Math.floor(random * n)` for `random` in [0, 1). */
  function PickIndex(random: real, n: nat): (i: nat)
    requires 0.0 <= random < 1.0 && n > 0
    ensures i < n
  {
    var x := random * (n as real);
    assert (n as real) - x == (n as real) * (1.0 - random);
    assert 0.0 < (n as real) * (1.0 - random);
    assert 0.0 <= x < n as real;
    assert (x.Floor as real) <= x;
    x.Floor
  }

  /** The recommendation made from a fallback book. */
  function FromFallback(b: FallbackBook): BookRecommendation {
    BookRecommendation(b.title, b.author, b.country, b.countryCode,
      "A classic work from " + b.country + " that offers deep cultural insights" + " and beautiful storytelling.",
      None, Some("medium"), None)
  }

  /** The fallback pick from a list of books: one from a country not read
      yet, picked at random, or the first book when every listed country
      has been read; always of medium difficulty, with a reason naming its
      country. */
  function FallbackFrom(books: seq<FallbackBook>, countriesRead: seq<string>, random: real): (r: BookRecommendation)
    requires books != [] && 0.0 <= random < 1.0
    ensures exists k | 0 <= k < |books| :: r == FromFallback(books[k])
    ensures (exists k | 0 <= k < |books| :: books[k].countryCode !in countriesRead) ==> r.countryCode !in countriesRead
    ensures (forall k | 0 <= k < |books| :: books[k].countryCode in countriesRead) ==> r == FromFallback(books[0])
    ensures r.difficulty == Some("medium") && Text.Contains(r.reason, r.country)
  {
    var available := Available(books, countriesRead);
    var selected := if |available| > 0 then available[PickIndex(random, |available|)] else books[0];
    assert selected in books;
    assert (exists k | 0 <= k < |books| :: books[k].countryCode !in countriesRead) ==> |available| > 0 by {
      if exists k | 0 <= k < |books| :: books[k].countryCode !in countriesRead {
        var k :| 0 <= k < |books| && books[k].countryCode !in countriesRead;
        assert books[k] in available;
      }
    }
    var country := selected.country;
    Text.ContainsSelf(country);
    Text.ContainsRight("A classic work from ", country, country);
    Text.ContainsLeft("A classic work from " + country, " that offers deep cultural insights", country);
    Text.ContainsLeft("A classic work from " + country + " that offers deep cultural insights",
      " and beautiful storytelling.", country);
    FromFallback(selected)
  }

  /** `getFallbackRecommendation`: it always names a book, an author, a
      country and a reason; with every listed country read it is Things
      Fall Apart. */
  function FallbackRecommendation(countriesRead: seq<string>, random: real): (r: BookRecommendation)
    requires 0.0 <= random < 1.0
    ensures r.title != "" && r.author != "" && r.country != "" && r.reason != ""
    ensures (forall k | 0 <= k < |Fallbacks| :: Fallbacks[k].countryCode in countriesRead) ==>
      r.title == "Things Fall Apart" && r.countryCode == "NG"
  {
    FallbacksShape();
    var r := FallbackFrom(Fallbacks, countriesRead, random);
    assert exists k | 0 <= k < |Fallbacks| :: r == FromFallback(Fallbacks[k]);
    r
  }

  // ---------------------------------------------------------------------
  // generateRecommendation

  /** Everything `generateRecommendation` receives from outside: whether an
      API key is configured, the configured model, the model listing (`None`
      when listing failed), the SDK and REST services, JSON decoding, the
      country-code and author lookups, the continent lookup, the random
      number, the clock, the elapsed time, the serialised preferences and
      the random suffixes of the two trace ids. */
  datatype Environment = Environment(
    hasApiKey: bool,
    configuredModel: Option<string>,
    modelListing: Option<seq<ModelInfo>>,
    sdk: (string, string) -> SdkOutcome,
    rest: (string, string) -> RestOutcome,
    decode: string -> Option<ParsedFields>,
    codeOf: Option<string> -> string,
    authorOf: string -> Option<string>,
    continentOf: string -> string,
    random: real,
    now: nat,
    elapsed: nat,
    preferencesJson: Option<string>,
    recommendationSuffix: string,
    evaluationSuffix: string)

  /** The history as the trace store records it. */
  function TraceHistory(history: seq<ReadingHistory>): (r: seq<Opik.HistoryEntry>)
    ensures |r| == |history|
    ensures forall k | 0 <= k < |r| ::
      r[k] == Opik.HistoryEntry(history[k].title, history[k].author, history[k].country, history[k].rating)
  {
    seq(|history|, k requires 0 <= k < |history| =>
      Opik.HistoryEntry(history[k].title, history[k].author, history[k].country, history[k].rating))
  }

  function TracedBook(r: BookRecommendation): Opik.RecommendedBook {
    Opik.RecommendedBook(r.title, r.author, r.country, r.reason)
  }

  /** The prompt sent to every model. */
  function PromptFor(history: seq<ReadingHistory>, preferences: Option<Preferences>, env: Environment): string {
    FullPrompt(PromptWording, Prompt(PromptWording, history, CountriesRead(history),
      ContinentsRead(history, env.continentOf), preferences))
  }

  /** The candidates tried through the SDK. */
  function CandidatesFor(env: Environment): seq<string> {
    CandidateModels(env.configuredModel, if env.modelListing.Some? then DiscoveredModels(env.modelListing.value) else [])
  }

  /** The SDK tier as the loop runs it. */
  method TrySdk(models: seq<string>, prompt: string, sdk: (string, string) -> SdkOutcome)
    returns (response: string, usedModel: string)
    ensures TierState(response, usedModel) == SdkRun(models, prompt, sdk, InitialState)
  {
    response := "";
    usedModel := "gemini";
    var i := 0;
    while i < |models|
      invariant 0 <= i <= |models|
      invariant response == ""
      invariant SdkRun(models[i..], prompt, sdk, TierState(response, usedModel)) == SdkRun(models, prompt, sdk, InitialState)
    {
      var outcome := sdk(models[i], prompt);
      assert models[i..][1..] == models[i + 1..];
      if outcome.SdkReplied? {
        response := Text.Trim(outcome.text.GetOr(""));
        usedModel := models[i];
        if |response| > 0 {
          return;
        }
      }
      i := i + 1;
    }
  }

  /** The REST tier as the loop runs it, from the state the SDK tier left. */
  method TryRest(prompt: string, rest: (string, string) -> RestOutcome, response0: string, usedModel0: string)
    returns (response: string, usedModel: string)
    ensures TierState(response, usedModel) == RestRun(DefaultModels, prompt, rest, TierState(response0, usedModel0))
  {
    response, usedModel := response0, usedModel0;
    var restModels := DefaultModels;
    for i := 0 to |restModels|
      invariant RestRun(restModels[i..], prompt, rest, TierState(response0, usedModel0))
        == RestRun(restModels, prompt, rest, TierState(response0, usedModel0))
      invariant response == response0 && usedModel == usedModel0
    {
      var outcome := rest(restModels[i], prompt);
      assert restModels[i..][1..] == restModels[i + 1..];
      if outcome.RestOk? && outcome.text.Some? && outcome.text.value != "" {
        response := Text.Trim(outcome.text.value);
        usedModel := restModels[i];
        return;
      }
    }
  }

  /** Both tiers in turn: the REST tier only when the SDK tier kept no
      text. */
  method AskModels(models: seq<string>, prompt: string, env: Environment) returns (response: string, usedModel: string)
    ensures TierState(response, usedModel) == Respond(models, prompt, env.sdk, env.rest)
  {
    response, usedModel := TrySdk(models, prompt, env.sdk);
    if response == "" {
      response, usedModel := TryRest(prompt, env.rest, response, usedModel);
    }
  }

  /** The recommendation trace `generateRecommendation` records. */
  function RecommendationTrace(userId: string, history: seq<ReadingHistory>, env: Environment,
                               r: BookRecommendation, usedModel: string): Opik.Trace
  {
    Opik.Trace(Opik.TraceId("rec", env.now, env.recommendationSuffix), env.now, Opik.RecommendationType,
      Some(map["responseTime" := Opik.Num(env.elapsed)]),
      Opik.RecommendationDetails(userId, Opik.RecommendationInput(TraceHistory(history), env.preferencesJson),
        Opik.RecommendationOutput(TracedBook(r), usedModel, "1.0")))
  }

  /** Records a parsed recommendation and its evaluation. */
  method Record(userId: string, history: seq<ReadingHistory>, env: Environment, r: BookRecommendation,
                usedModel: string, store: Opik.TraceStore)
    modifies store
    requires store.Valid()
    ensures store.Valid()
    ensures store.traces == old(store.traces) + [
      RecommendationTrace(userId, history, env, r, usedModel),
      Opik.JudgeTrace(Opik.TraceId("rec", env.now, env.recommendationSuffix), TracedBook(r), TraceHistory(history),
        env.now, env.evaluationSuffix)]
  {
    var traceId := store.TrackRecommendation(userId,
      Opik.RecommendationInput(TraceHistory(history), env.preferencesJson),
      Opik.RecommendationOutput(TracedBook(r), usedModel, "1.0"),
      map["responseTime" := Opik.Num(env.elapsed)], env.now, env.recommendationSuffix);
    var evaluation := store.EvaluateRecommendation(traceId, TracedBook(r), TraceHistory(history),
      env.now, env.evaluationSuffix);
  }

  /** `generateRecommendation`: it never fails. Without an API key, or when
      no tier yields text, it returns the fallback book and records
      nothing; otherwise it returns the parsed reply and records one
      recommendation trace and one evaluation of it. */
  method GenerateRecommendation(userId: string, history: seq<ReadingHistory>, preferences: Option<Preferences>,
                                env: Environment, store: Opik.TraceStore)
    returns (r: BookRecommendation)
    modifies store
    requires store.Valid()
    requires 0.0 <= env.random < 1.0
    ensures store.Valid()
    ensures var s := Respond(CandidatesFor(env), PromptFor(history, preferences, env), env.sdk, env.rest);
      if !env.hasApiKey || s.response == "" then
        r == FallbackRecommendation(CountriesRead(history), env.random) && store.traces == old(store.traces)
      else
        && r == ParseResponse(s.response, env.decode, env.codeOf, env.authorOf)
        && store.traces == old(store.traces) + [
          RecommendationTrace(userId, history, env, r, s.usedModel),
          Opik.JudgeTrace(Opik.TraceId("rec", env.now, env.recommendationSuffix), TracedBook(r),
            TraceHistory(history), env.now, env.evaluationSuffix)]
  {
    var countriesRead := CountriesRead(history);
    var prompt := PromptFor(history, preferences, env);
    if !env.hasApiKey {
      r := FallbackRecommendation(countriesRead, env.random);
      return;
    }
    var response, usedModel := AskModels(CandidatesFor(env), prompt, env);
    if response == "" {
      r := FallbackRecommendation(countriesRead, env.random);
      return;
    }
    r := ParseResponse(response, env.decode, env.codeOf, env.authorOf);
    Record(userId, history, env, r, usedModel, store);
  }
}
