/** The batch recommendation endpoint: it asks a chat model for five books
    at once, classifies the provider's errors, pulls a JSON array out of the
    reply, keeps the complete entries and returns at most five. The session
    lookup, the book query, the chat-completion call and JSON decoding are
    inputs. */
module BatchRecommendations {
  import opened Wrappers
  import Text
  import Seqs

  // ---------------------------------------------------------------------
  // Provider errors

  /** What the handler reads from a failed completion call, once unwrapped
      from a retry error: the HTTP status, the provider's error code and the
      message (empty when there is none). */
  datatype ProviderError = ProviderError(statusCode: Option<int>, errorCode: Option<string>, errorMessage: string)

  datatype ErrorKind = QuotaExceeded | AuthenticationFailed | RateLimited | ServiceFailure | OtherFailure

  predicate QuotaError(e: ProviderError) {
    || e.statusCode == Some(429)
    || e.errorCode == Some("insufficient_quota")
    || Text.Contains(e.errorMessage, "exceeded your current quota")
    || Text.Contains(e.errorMessage, "insufficient_quota")
  }

  predicate AuthError(e: ProviderError) {
    || e.statusCode == Some(401)
    || Text.Contains(e.errorMessage, "API key")
    || Text.Contains(e.errorMessage, "authentication")
    || e.errorCode == Some("invalid_api_key")
  }

  predicate ServerStatus(e: ProviderError) {
    e.statusCode == Some(500) || e.statusCode == Some(502) || e.statusCode == Some(503)
  }

  /** The checks in the order the handler makes them. The quota check
      already takes every 429, so the rate-limit check after it never
      applies: a rate-limited call is reported as an exhausted quota. */
  function Classify(e: ProviderError): (k: ErrorKind)
    ensures k == QuotaExceeded <==> QuotaError(e)
    ensures k == AuthenticationFailed <==> !QuotaError(e) && AuthError(e)
    ensures k == ServiceFailure <==> !QuotaError(e) && !AuthError(e) && ServerStatus(e)
    ensures k == OtherFailure <==> !QuotaError(e) && !AuthError(e) && !ServerStatus(e)
  {
    if QuotaError(e) then QuotaExceeded
    else if AuthError(e) then AuthenticationFailed
    else if e.statusCode == Some(429) && e.errorCode != Some("insufficient_quota") then RateLimited
    else if ServerStatus(e) then ServiceFailure
    else OtherFailure
  }

  /** A complete entry the model suggested; `None` is a missing or
      non-string field. */
  datatype Item = Item(title: Option<string>, author: Option<string>, country: Option<string>,
                       reason: Option<string>, significance: Option<string>)

  /** The handler's answer: the recommendations with the reading statistics,
      or an error message with its HTTP status and, in development, the
      provider's message. */
  datatype Reply =
    | Recommendations(items: seq<Item>, totalBooks: nat, totalCountries: nat, countriesRead: seq<string>)
    | ErrorReply(message: string, status: int, details: Option<string>)

  const QuotaMessage: string :=
    "OpenAI API quota has been exceeded. "
    + "Please check your OpenAI account "
    + "billing and add credits to continue "
    + "using AI recommendations."

  const AuthenticationMessage: string :=
    "AI service authentication failed. "
    + "Please check your API key configuration."

  const RateLimitMessage: string :=
    "AI service is temporarily rate-limited. "
    + "Please try again in a moment."

  const ServiceMessage: string :=
    "AI service encountered an error. "
    + "Please try again later."

  const GenericMessage: string :=
    "Failed to generate recommendations. "
    + "Please try again."

  /** The reply for a failed completion call: 503 for an exhausted quota, a
      rate limit or a server error, 500 otherwise; only the generic reply
      carries the provider's message, and only in development. */
  function ErrorFor(e: ProviderError, development: bool): (r: Reply)
    ensures r.ErrorReply?
    ensures r.status == 503 <==> Classify(e) in {QuotaExceeded, RateLimited, ServiceFailure}
    ensures r.status == 500 <==> Classify(e) in {AuthenticationFailed, OtherFailure}
    ensures r.details.Some? <==> development && Classify(e) == OtherFailure
    ensures r.details.Some? ==> r.details.value == e.errorMessage
  {
    match Classify(e)
    case QuotaExceeded => ErrorReply(QuotaMessage, 503, None)
    case AuthenticationFailed => ErrorReply(AuthenticationMessage, 500, None)
    case RateLimited => ErrorReply(RateLimitMessage, 503, None)
    case ServiceFailure => ErrorReply(ServiceMessage, 503, None)
    case OtherFailure => ErrorReply(GenericMessage, 500, if development then Some(e.errorMessage) else None)
  }

  /** The rate-limit branch is dead: no error is classified as a rate
      limit, and a 429 is always an exhausted quota. */
  lemma RateLimitNeverClassified(e: ProviderError)
    ensures Classify(e) != RateLimited
    ensures e.statusCode == Some(429) ==> Classify(e) == QuotaExceeded
  {
  }

  /** Every call that fails with status 429 gets the quota reply, whatever
      its error code and message say. */
  lemma RateLimitIsReportedAsQuota(e: ProviderError, development: bool)
    requires e.statusCode == Some(429)
    ensures ErrorFor(e, development) == ErrorReply(QuotaMessage, 503, None)
    ensures ErrorFor(e, development).message != RateLimitMessage
  {
    RateLimitNeverClassified(e);
    assert QuotaMessage[0] != RateLimitMessage[0];
  }

  // ---------------------------------------------------------------------
  // The reading history and the prompt

  /** A stored book, newest first. */
  datatype BookRow = BookRow(title: string, author: string, countryName: Option<string>, rating: Option<int>)

  /** The non-empty country names of the books, in order. */
  function CountryNames(books: seq<BookRow>): (r: seq<string>)
    ensures forall c :: c in r <==> c != "" && exists k | 0 <= k < |books| :: books[k].countryName == Some(c)
  {
    if books == [] then []
    else
      var rest := CountryNames(books[1..]);
      assert forall c :: (exists k | 0 <= k < |books| :: books[k].countryName == Some(c)) <==>
        books[0].countryName == Some(c) || exists k | 0 <= k < |books[1..]| :: books[1..][k].countryName == Some(c) by {
        forall c | exists k | 0 <= k < |books| :: books[k].countryName == Some(c)
          ensures books[0].countryName == Some(c) || exists k | 0 <= k < |books[1..]| :: books[1..][k].countryName == Some(c)
        {
          var k :| 0 <= k < |books| && books[k].countryName == Some(c);
          if k > 0 {
            assert books[1..][k - 1] == books[k];
          }
        }
      }
      if Text.Given(books[0].countryName) then [books[0].countryName.value] + rest else rest
  }

  /** `countriesRead`: the distinct non-empty country names in the order
      they first appear. */
  function CountriesRead(books: seq<BookRow>): (r: seq<string>)
    ensures Seqs.NoDuplicates(r)
    ensures forall c :: c in r <==> c != "" && exists k | 0 <= k < |books| :: books[k].countryName == Some(c)
  {
    Seqs.DedupMembers(CountryNames(books));
    Seqs.Dedup(CountryNames(books))
  }

  /** One listed book of the history. */
  datatype HistoryItem = HistoryItem(title: string, author: string, country: string, rating: Option<int>)

  /** The ten newest books as the prompt lists them; a book without a
      country is listed under `Unknown`. */
  function RecentHistory(books: seq<BookRow>): (r: seq<HistoryItem>)
    ensures |r| == if |books| < 10 then |books| else 10
    ensures forall k | 0 <= k < |r| ::
      r[k] == HistoryItem(books[k].title, books[k].author, Text.OrElse(books[k].countryName, "Unknown"), books[k].rating)
  {
    var recent := Seqs.Take(books, 10);
    seq(|recent|, k requires 0 <= k < |recent| =>
      HistoryItem(recent[k].title, recent[k].author, Text.OrElse(recent[k].countryName, "Unknown"), recent[k].rating))
  }

  function ItemLine(b: HistoryItem): string {
    "- \"" + b.title + "\" by " + b.author + " (" + b.country + ")"
      + (if b.rating.Some? && b.rating.value != 0 then " - Rated " + Text.IntToString(b.rating.value) + "/5" else "")
  }

  function ItemLines(items: seq<HistoryItem>): (r: seq<string>)
    ensures |r| == |items|
    ensures forall k | 0 <= k < |r| :: r[k] == ItemLine(items[k])
  {
    seq(|items|, k requires 0 <= k < |items| => ItemLine(items[k]))
  }

  /** `book` or `books` by the count. */
  function BookWord(n: nat): string {
    "book" + (if n != 1 then "s" else "")
  }

  /** `country` or `countries` by the count. */
  function CountryWord(n: nat): string {
    "countr" + (if n != 1 then "ies" else "y")
  }

  /** Both words take the singular exactly for one, whatever the count. */
  lemma Pluralisation(n: nat)
    ensures BookWord(n) == (if n == 1 then "book" else "books")
    ensures CountryWord(n) == (if n == 1 then "country" else "countries")
  {
  }

  function CountLine(totalBooks: nat, totalCountries: nat): string {
    "The user has read " + Text.NatToString(totalBooks) + " " + BookWord(totalBooks)
      + " from " + Text.NatToString(totalCountries) + " " + CountryWord(totalCountries) + "."
  }

  function ExploredLine(countriesRead: seq<string>): string {
    "Countries already explored: " + (if |countriesRead| > 0 then Text.Join(countriesRead, ", ") else "None yet")
  }

  /** The fixed wording of the two prompts: the shared opening, the rest of
      the first-time prompt, the start of the returning reader's prompt, its
      request, and the JSON layout both end with. The lemmas below hold for
      any wording whose two continuations start differently;
      `BatchWording` is the one the endpoint sends. */
  datatype Wording = Wording(opening: string, firstTime: string, returning: string, request: string, format: string)

  const BatchWording: Wording := Wording(
    "You are an expert literary advisor "
    + "helping someone ",
    "start " + FirstTimeRest,
    "diversify " + ReturningRest,
    ReturningRequest,
    JsonFormat)

  const FirstTimeRest: string :=
    "their journey "
    + "into diverse world literature. \n"
    + "\n"
    + "This is a NEW USER who hasn't "
    + "added any books yet. They're just "
    + "beginning their reading journey "
    + "and want to explore literature "
    + "from around the world.\n"
    + "\n"
    + "Please recommend 5 excellent, "
    + "diverse books that will give them "
    + "a wonderful introduction to world "
    + "literature. These should be:\n"
    + "- Highly accessible and engaging "
    + "for someone new to international "
    + "literature\n"
    + "- From different countries and "
    + "cultures\n"
    + "- A mix of contemporary and classic "
    + "works\n"
    + "- Books that are well-known and "
    + "beloved, making them great starting "
    + "points\n"
    + "- Representing different genres "
    + "and perspectives\n"
    + "\n"
    + "For each book, provide:\n"
    + "1. Title\n"
    + "2. Author name\n"
    + "3. Country of origin (use the "
    + "full country name)\n"
    + "4. A brief reason why this book "
    + "is perfect for someone starting "
    + "their reading journey (1-2 sentences)\n"
    + "5. What makes it culturally significant "
    + "or unique\n"
    + "\n"

  const ReturningRest: string :=
    "their reading. \n"
    + "\n"

  const ReturningRequest: string :=
    "Please recommend 5 diverse books "
    + "that will help expand their literary "
    + "horizons. For each book, provide:\n"
    + "1. Title\n"
    + "2. Author name\n"
    + "3. Country of origin (use the "
    + "full country name)\n"
    + "4. A brief reason why this book "
    + "is recommended (1-2 sentences)\n"
    + "5. What makes it culturally significant "
    + "or unique\n"
    + "\n"
    + "Focus on:\n"
    + "- Countries they haven't explored "
    + "yet\n"
    + "- Diverse genres and perspectives\n"
    + "- Books that are accessible and "
    + "engaging\n"
    + "- Mix of contemporary and classic "
    + "literature\n"
    + "\n"

  const JsonFormat: string :=
    "Format your response as a JSON "
    + "array with this structure:\n"
    + "[\n"
    + "  {\n"
    + "    \"title\": \"Book Title\",\n"
    + "    \"author\": \"Author Name\",\n"
    + "    \"country\": \"Full Country Name\",\n"
    + "    \"reason\": \"Why this book is "
    + "recommended\",\n"
    + "    \"significance\": \"Cultural "
    + "or literary significance\"\n"
    + "  }\n"
    + "]\n"
    + "\n"
    + "Return ONLY the JSON array, no "
    + "additional text."

  /** The two continuations of the shared opening start differently. */
  predicate Distinguishable(w: Wording) {
    w.firstTime != [] && w.returning != [] && w.firstTime[0] != w.returning[0]
  }

  lemma BatchWordingDistinguishable()
    ensures Distinguishable(BatchWording)
  {
  }

  function FirstTimePrompt(w: Wording): string {
    w.opening + w.firstTime + w.format
  }

  /** The body of the returning reader's prompt. */
  function HistorySection(books: seq<BookRow>): string {
    CountLine(|books|, |CountriesRead(books)|) + "\n\nRecent books read:\n"
      + Text.Join(ItemLines(RecentHistory(books)), "\n") + "\n\n" + ExploredLine(CountriesRead(books)) + "\n\n"
  }

  /** The prompt: the first-time prompt for a reader with no books, the
      history prompt otherwise. */
  function Prompt(w: Wording, books: seq<BookRow>): (r: string)
    ensures |r| >= |w.opening| + |w.format|
    ensures r[..|w.opening|] == w.opening && r[|r| - |w.format|..] == w.format
  {
    if |books| == 0 then FirstTimePrompt(w)
    else w.opening + w.returning + HistorySection(books) + w.request + w.format
  }

  /** The first-time prompt is sent exactly when the reader has no books. */
  lemma FirstTimeExactlyWithoutBooks(w: Wording, books: seq<BookRow>)
    requires Distinguishable(w)
    ensures Prompt(w, books) == FirstTimePrompt(w) <==> books == []
  {
    if books != [] {
      var p := Prompt(w, books);
      var n := |w.opening|;
      assert p[n] == w.returning[0];
      assert FirstTimePrompt(w)[n] == w.firstTime[0];
    }
  }

  /** Every part of the history section is in the returning reader's
      prompt. */
  lemma HistorySectionInPrompt(w: Wording, books: seq<BookRow>, t: string)
    requires books != [] && Text.Contains(HistorySection(books), t)
    ensures Text.Contains(Prompt(w, books), t)
  {
    var front := w.opening + w.returning;
    Text.ContainsRight(front, HistorySection(books), t);
    Text.ContainsLeft(front + HistorySection(books), w.request, t);
    Text.ContainsLeft(front + HistorySection(books) + w.request, w.format, t);
  }

  /** The returning reader's prompt lists each of the ten newest books. */
  lemma PromptListsRecentBooks(w: Wording, books: seq<BookRow>, k: nat)
    requires books != [] && k < |books| && k < 10
    ensures Text.Contains(Prompt(w, books), ItemLine(RecentHistory(books)[k]))
  {
    var lines := ItemLines(RecentHistory(books));
    var history := Text.Join(lines, "\n");
    var count := CountLine(|books|, |CountriesRead(books)|) + "\n\nRecent books read:\n";
    var explored := ExploredLine(CountriesRead(books));
    Text.JoinContainsPart(lines, "\n", k);
    Text.ContainsRight(count, history, lines[k]);
    Text.ContainsLeft(count + history, "\n\n", lines[k]);
    Text.ContainsLeft(count + history + "\n\n", explored, lines[k]);
    Text.ContainsLeft(count + history + "\n\n" + explored, "\n\n", lines[k]);
    HistorySectionInPrompt(w, books, lines[k]);
  }

  /** The returning reader's prompt names the countries read, `None yet`
      when there are none. */
  lemma PromptNamesCountries(w: Wording, books: seq<BookRow>)
    requires books != []
    ensures Text.Contains(Prompt(w, books), ExploredLine(CountriesRead(books)))
  {
    var history := Text.Join(ItemLines(RecentHistory(books)), "\n");
    var count := CountLine(|books|, |CountriesRead(books)|) + "\n\nRecent books read:\n";
    var explored := ExploredLine(CountriesRead(books));
    Text.ContainsSelf(explored);
    Text.ContainsRight(count + history + "\n\n", explored, explored);
    Text.ContainsLeft(count + history + "\n\n" + explored, "\n\n", explored);
    HistorySectionInPrompt(w, books, explored);
  }

  /** The prompt the endpoint sends. */
  function PromptFor(books: seq<BookRow>): string {
    Prompt(BatchWording, books)
  }

  // ---------------------------------------------------------------------
  // Extracting and validating the reply

  /** A decoded reply: an array of entries, or any other JSON value. An
      entry is `None` when it is `null`; any other non-object entry has no
      string fields, so it is an `Item` with every field `None`. */
  datatype Json = JsonArray(entries: seq<Option<Item>>) | JsonOther

  /** The message of the `TypeError` the validation filter throws when it
      reads `rec.title` of a `null` entry. */
  const NullEntryMessage: string := "Cannot read properties of null (reading 'title')"

  /** The entries of an array without `null`s, as items. */
  function Present(entries: seq<Option<Item>>): (r: seq<Item>)
    requires forall k | 0 <= k < |entries| :: entries[k].Some?
    ensures |r| == |entries| && forall k | 0 <= k < |r| :: entries[k] == Some(r[k])
  {
    seq(|entries|, k requires 0 <= k < |entries| => entries[k].value)
  }

  /** Some entry of the array is `null`. */
  predicate HasNull(entries: seq<Option<Item>>) {
    exists k | 0 <= k < |entries| :: entries[k].None?
  }

  /** The value parsed from the reply: the span from the first `[` to the
      last `]` when there is one, the whole text otherwise; `None` when that
      text does not decode. */
  function Extract(text: string, decode: string -> Option<Json>): (r: Option<Json>)
    ensures (exists i, j | 0 <= i < j < |text| :: text[i] == '[' && text[j] == ']') ==>
      r == decode(Text.GreedySpan(text, '[', ']').value)
    ensures (forall i, j | 0 <= i < j < |text| :: !(text[i] == '[' && text[j] == ']')) ==> r == decode(text)
  {
    match Text.GreedySpan(text, '[', ']')
    case Some(span) => decode(span)
    case None => decode(text)
  }

  /** An entry is kept when its title, author, country and reason are all
      present and non-empty. */
  predicate Complete(item: Item) {
    Text.Given(item.title) && Text.Given(item.author) && Text.Given(item.country) && Text.Given(item.reason)
  }

  /** The complete entries, in order. */
  function CompleteItems(items: seq<Item>): (r: seq<Item>)
    ensures |r| <= |items|
    ensures forall x :: x in r <==> x in items && Complete(x)
  {
    if items == [] then []
    else
      var rest := CompleteItems(items[1..]);
      assert forall x :: x in items <==> x == items[0] || x in items[1..];
      if Complete(items[0]) then [items[0]] + rest else rest
  }

  /** Filtering distributes over concatenation: the kept entries stay in
      their original order. */
  lemma {:induction false} CompleteItemsKeepOrder(a: seq<Item>, b: seq<Item>)
    ensures CompleteItems(a + b) == CompleteItems(a) + CompleteItems(b)
  {
    if a == [] {
      assert a + b == b;
    } else {
      assert (a + b)[0] == a[0];
      assert (a + b)[1..] == a[1..] + b;
      CompleteItemsKeepOrder(a[1..], b);
    }
  }

  /** Filtering twice keeps the same entries. */
  lemma {:induction false} CompleteItemsIdempotent(items: seq<Item>)
    ensures CompleteItems(CompleteItems(items)) == CompleteItems(items)
  {
    if items != [] {
      CompleteItemsIdempotent(items[1..]);
      if Complete(items[0]) {
        assert ([items[0]] + CompleteItems(items[1..]))[1..] == CompleteItems(items[1..]);
      }
    }
  }

  // ---------------------------------------------------------------------
  // The handler

  /** What the completion call gives: an error, or a reply whose first
      choice's content may be missing. */
  datatype Completion = CompletionFailed(error: ProviderError) | Completed(content: Option<string>)

  const NotConfiguredMessage: string :=
    "AI service is not configured. "
    + "Please contact support."

  const EmptyResponseMessage: string :=
    "AI service returned an empty "
    + "response. Please try again."

  const ParseFailedMessage: string :=
    "Failed to parse recommendations. "
    + "Please try again."

  const InvalidFormatMessage: string := "Invalid recommendations format"

  const NoValidMessage: string :=
    "No valid recommendations could "
    + "be generated. Please try again."

  /** The model asked: the configured one, or `gpt-4o-mini`. */
  function ModelName(configured: Option<string>): string {
    Text.OrElse(configured, "gpt-4o-mini")
  }

  /** The reply for the completion call's outcome, as the handler builds it
      after the call: the provider's error classified, an empty text
      rejected, the array extracted, decoded and checked, the complete
      entries kept and the first five returned with the reading statistics.
      A success carries one to five complete entries, in the model's order. */
  function Answer(books: seq<BookRow>, outcome: Completion, decode: string -> Option<Json>, development: bool): (r: Reply)
    ensures r.Recommendations? ==>
      && outcome.Completed? && Text.Trim(outcome.content.GetOr("")) != ""
      && 1 <= |r.items| <= 5
      && (forall x | x in r.items :: Complete(x))
      && Extract(Text.Trim(outcome.content.GetOr("")), decode).Some?
      && Extract(Text.Trim(outcome.content.GetOr("")), decode).value.JsonArray?
      && !HasNull(Extract(Text.Trim(outcome.content.GetOr("")), decode).value.entries)
      && r.items == Seqs.Take(CompleteItems(Present(Extract(Text.Trim(outcome.content.GetOr("")), decode).value.entries)), 5)
      && r.totalBooks == |books|
      && r.countriesRead == CountriesRead(books) && r.totalCountries == |r.countriesRead|
    ensures outcome.CompletionFailed? ==> r == ErrorFor(outcome.error, development)
    ensures outcome.Completed? && Text.Trim(outcome.content.GetOr("")) == "" ==>
      r == ErrorReply(EmptyResponseMessage, 500, None)
    ensures outcome.Completed? && Text.Trim(outcome.content.GetOr("")) != "" ==>
      var parsed := Extract(Text.Trim(outcome.content.GetOr("")), decode);
      && (parsed.None? ==> r == ErrorReply(ParseFailedMessage, 500, None))
      && (parsed.Some? && parsed.value.JsonOther? ==> r == ErrorReply(InvalidFormatMessage, 500, None))
      && (parsed.Some? && parsed.value.JsonArray? && parsed.value.entries == [] ==> r == ErrorReply(InvalidFormatMessage, 500, None))
      && (parsed.Some? && parsed.value.JsonArray? && parsed.value.entries != [] && HasNull(parsed.value.entries)
          ==> r == ErrorReply(GenericMessage, 500, if development then Some(NullEntryMessage) else None))
      && (parsed.Some? && parsed.value.JsonArray? && parsed.value.entries != [] && !HasNull(parsed.value.entries)
          ==> && (CompleteItems(Present(parsed.value.entries)) == [] <==> r == ErrorReply(NoValidMessage, 500, None))
              && (CompleteItems(Present(parsed.value.entries)) != [] <==> r.Recommendations?))
    ensures r.ErrorReply? && r.status != 503 ==> r.status == 500
  {
    match outcome
    case CompletionFailed(e) => ErrorFor(e, development)
    case Completed(content) =>
      var text := Text.Trim(content.GetOr(""));
      if text == "" then ErrorReply(EmptyResponseMessage, 500, None)
      else match Extract(text, decode)
        case None => ErrorReply(ParseFailedMessage, 500, None)
        case Some(JsonOther) => ErrorReply(InvalidFormatMessage, 500, None)
        case Some(JsonArray(entries)) =>
          if entries == [] then ErrorReply(InvalidFormatMessage, 500, None)
          else if HasNull(entries) then ErrorReply(GenericMessage, 500, if development then Some(NullEntryMessage) else None)
          else if CompleteItems(Present(entries)) == [] then ErrorReply(NoValidMessage, 500, None)
          else
            var valid := CompleteItems(Present(entries));
            assert forall x | x in Seqs.Take(valid, 5) :: x in valid;
            Recommendations(Seqs.Take(valid, 5), |books|, |CountriesRead(books)|, CountriesRead(books))
  }

  /** The handler's steps after the completion call, from the raw content
      to the reply. */
  method Handle(books: seq<BookRow>, outcome: Completion, decode: string -> Option<Json>, development: bool)
    returns (reply: Reply)
    ensures reply == Answer(books, outcome, decode, development)
  {
    var text: string;
    match outcome {
      case CompletionFailed(e) =>
        return ErrorFor(e, development);
      case Completed(content) =>
        text := Text.Trim(content.GetOr(""));
    }
    if text == "" {
      return ErrorReply(EmptyResponseMessage, 500, None);
    }
    var recommendations: Option<Json>;
    match Text.GreedySpan(text, '[', ']') {
      case Some(span) =>
        recommendations := decode(span);
      case None =>
        recommendations := decode(text);
    }
    if recommendations.None? {
      return ErrorReply(ParseFailedMessage, 500, None);
    }
    if !recommendations.value.JsonArray? || |recommendations.value.entries| == 0 {
      return ErrorReply(InvalidFormatMessage, 500, None);
    }
    var entries := recommendations.value.entries;
    if HasNull(entries) {
      return ErrorReply(GenericMessage, 500, if development then Some(NullEntryMessage) else None);
    }
    var valid := CompleteItems(Present(entries));
    if |valid| == 0 {
      return ErrorReply(NoValidMessage, 500, None);
    }
    var countriesRead := CountriesRead(books);
    reply := Recommendations(Seqs.Take(valid, 5), |books|, |countriesRead|, countriesRead);
  }

  /** `POST /api/recommendations` after the session and book lookups:
      `userId` is the session's user, `books` the user's books newest
      first, `complete` the chat-completion call with the model and the
      prompt, `decode` `JSON.parse`. */
  method Post(userId: Option<string>, hasApiKey: bool, configuredModel: Option<string>, books: seq<BookRow>,
              complete: (string, string) -> Completion, decode: string -> Option<Json>, development: bool)
    returns (reply: Reply)
    ensures !Text.Given(userId) ==> reply == ErrorReply("Unauthorized", 401, None)
    ensures Text.Given(userId) && !hasApiKey ==> reply == ErrorReply(NotConfiguredMessage, 500, None)
    ensures Text.Given(userId) && hasApiKey ==>
      reply == Answer(books, complete(ModelName(configuredModel), PromptFor(books)), decode, development)
  {
    if !Text.Given(userId) {
      return ErrorReply("Unauthorized", 401, None);
    }
    if !hasApiKey {
      return ErrorReply(NotConfiguredMessage, 500, None);
    }
    var prompt := PromptFor(books);
    var model := ModelName(configuredModel);
    var outcome := complete(model, prompt);
    reply := Handle(books, outcome, decode, development);
  }
}
