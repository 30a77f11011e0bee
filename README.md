# Reading passport and recommender, modelled in Dafny

This project models the core of a reading tracker. Readers log the books they have read and tag each one with a country. They see their progress as stamps in a passport and on a 3D globe. They also ask a language model for book recommendations. The model covers:

- **The recommender** (`lib/ai.ts`, module `Recommender`):
  - the ordered, deduplicated list of candidate models;
  - the SDK loop, then the REST loop, where the first non-empty reply wins;
  - the prompt built from the reading history and preferences;
  - the reply parser, with a JSON path and a text path that cannot fail;
  - the fallback book from a list of five that skips countries already read;
  - `generateRecommendation` as a whole. It always returns a recommendation. On success it records one recommendation trace and one evaluation in the trace store.
- **The trace store** (`lib/opik.ts`, class `Opik.TraceStore`):
  - an append-only list of traces;
  - the heuristic judge score, in hundredths;
  - the engagement record;
  - the metrics: counts, mean score, engagement rate and the five most frequent countries.
- **The batch recommendation endpoint** (`app/api/recommendations/route.ts`, module `BatchRecommendations`):
  - the ordered classification of provider errors;
  - the choice between two prompts, with plural forms;
  - extraction of the JSON array, the required-field filter and the cut to five;
  - the handler's replies, including every error reply.
- **The passport**:
  - the seventeen achievements and their unlocked and next lists (`lib/achievements.ts`);
  - the country-to-continent table (`lib/continents.ts`);
  - the statistics block, progress bar and counter of `components/PassportModal.tsx`.
- **The guest book list** (`lib/storage.ts`, class `Storage.BookStore`): add, update and delete in place, grouping by country, and per-country data.
- **Colours and the globe**:
  - palette and hash colours (`lib/colors.ts`);
  - the globe's hex-colour helpers, polygon resolution, labels and click guard (`components/Globe.tsx`).
- **Themes**:
  - theme lookup with a default (`lib/themes.ts`);
  - the theme provider's state machine with storage persistence (`context/ThemeContext.tsx`, class `ThemeContext.ThemeProvider`).

Code that works step by step is written as methods with loop invariants, proved equal to specification functions. This covers the model loops, the trace store, the guest list, the theme provider, the country counting and the hash loop. The properties are proved about those functions.

How outside services are represented:

- Network calls, `JSON.parse`, the name-to-code lookup and the author regular expression are function-typed parameters.
- The continent lookup `getContinent` is a function-typed parameter too (`continentOf` in `Passport.ComputeStats` and in `Recommender.Environment`). The source always passes `getContinent`, which is modelled as `Continents.GetContinent`. `Passport.GetContinentIsContinentLookup` shows that it meets `Passport.ContinentLookup`, the only assumption the statistics lemmas make about the lookup.
- The clock, `Math.random` and generated id suffixes are plain parameters.
- Browser storage is modelled as fields of the class that owns it.

Some of the documentation describes a terminal failure when no model answers. The code instead catches that failure inside `generateRecommendation` and returns the fallback book. The model follows the code.

## Model

| member | source | states |
|---|---|---|
| Colors.PaletteShape | lib/colors.ts:2-15 | the palette has 60 entries and repeats two colours (entries 33/38 and 34/39), so distinct ids below 60 can share a colour |
| Colors.JsRem | lib/colors.ts:61 | JavaScript's `%` keeps the sign of the dividend: its magnitude is `|a| mod b`, and it agrees with `mod` on non-negative operands |
| Colors.LeadingDigits | lib/colors.ts:20 | the digits `parseInt` reads are the longest run of decimal digits at the front |
| Colors.ParseIntRoundTrip | lib/colors.ts:20 | `parseInt` of the decimal text of any integer gives that integer back |
| Colors.ParseIntDigitsThen | lib/colors.ts:20 | digits followed by a non-digit parse to the digits' value |
| Colors.ParseIntDigits | lib/colors.ts:20 | a non-empty run of decimal digits, leading zeros included, parses whole to its value |
| Colors.ParseInt | lib/colors.ts:20 | `parseInt` gives `NaN` for blank text and for text that starts with anything but a digit, white space or a sign |
| Colors.ColorIndex | lib/colors.ts:18-22 | the palette index is `|n| mod 60`, with a string id parsed first and `NaN` read as 0; it is always below 60 |
| Colors.ColorById | lib/colors.ts:18-23 | a numeric id picks palette entry `\|n\| mod 60`; a string id that parses picks the entry of the parsed number; a string that does not parse gets the first colour |
| Colors.PaddedIdColor | lib/colors.ts:18-23 | the zero-padded id `"004"` that the globe's features carry takes the colour of the number 4 |
| Colors.ColorByIdLaws | lib/colors.ts:18-23 | the colour ignores the sign of the id and is periodic with period 60, and a string id gets the colour of the number it spells |
| Colors.Wrap32 | lib/colors.ts:30 | ToInt32: the result is in [-2^31, 2^31), congruent to the input modulo 2^32, and equal to it when it already fits |
| Colors.HashStep | lib/colors.ts:30 | while `hash << 5` does not overflow, one step is `31 * hash + c` |
| Colors.Hash | lib/colors.ts:28-31 | the empty code hashes to 0, a one-character code to its character code, a two-character code to `31 * c0 + c1` |
| Colors.ComputeHash | lib/colors.ts:28-31 | the hash loop computes the left fold of `c + ((hash << 5) - hash)` over the code's characters, and 0 for the empty code |
| Colors.HslOfHash | lib/colors.ts:34-36 | for every hash, the hue is in [0, 360), the saturation in [55, 80) and the lightness in [45, 65) |
| Colors.HexHslOfHash | lib/colors.ts:61-63 | the hue `Math.abs(hash % 360)` is in [0, 360) |
| Colors.HexHueAgrees | lib/colors.ts:61 | `Math.abs(hash) % 360` and `Math.abs(hash % 360)` are the same hue for every hash, so both colour functions use one colour |
| Colors.GetCountryColor | lib/colors.ts:26-39 | the text is `hsl(h, s%, l%)` of the code's hash; the empty code gives `hsl(0, 55%, 45%)` |
| Colors.EmptyCodeColor | lib/colors.ts:28-38 | the empty code gives exactly `hsl(0, 55%, 45%)` |
| Colors.GetCountryColorHexInputs | lib/colors.ts:55-65 | the triple passed to `hslToHex` is the hash's colour, within the same ranges |
| Storage.Merge | lib/storage.ts:34 | every key the update carries replaces the book's field, and every field the update leaves out keeps the book's value |
| Storage.MergeLaws | lib/storage.ts:34 | a spread with no keys leaves the book as it was; the same update twice is the update once; two updates in a row are one update in which the later keys win |
| Storage.FindIndex | lib/storage.ts:32 | `findIndex` gives the first index whose id matches, and nothing exactly when no book has the id |
| Storage.WithoutId | lib/storage.ts:41 | the filtered list holds exactly the books whose id differs, and is no longer than the original |
| Storage.WithoutIdAppend | lib/storage.ts:41 | filtering keeps the relative order of the remaining books |
| Storage.WithoutUnknownId | lib/storage.ts:39-43 | deleting an id no book carries leaves the list unchanged |
| Storage.WithoutIdRemovesMatches | lib/storage.ts:39-43 | deleting removes exactly as many books as carry the id |
| Storage.BooksInAppend | lib/storage.ts:49-54 | a group keeps the list order of its books |
| Storage.FirstInGroup | lib/storage.ts:63 | the first book of a group is the first book in the list with that code |
| Storage.GroupSizesSum | lib/storage.ts:45-57 | the group sizes add up to the number of books: each book is in exactly one group |
| Storage.GroupAllMeaning | lib/storage.ts:45-57 | the grouping's keys are the distinct codes in order of first appearance, every key has a group, and each group is the books with that code in list order |
| Storage.GroupAll | lib/storage.ts:45-57 | a code has a group exactly when it is a key, and there are never more keys than books |
| Storage.NameFor | lib/storage.ts:63 | the name is the first book's country name when that is set and non-empty, and the code when there are no books or the first book has no name |
| Storage.NameFromFirstBook | lib/storage.ts:63 | a country's entry is named after the first book in the whole list that carries its code, or after the code when that book has no name |
| Storage.CountryDataOf | lib/storage.ts:61-65 | one entry per key, in key order, holding the key's group and the name taken from it |
| Storage.BookStore.AddBook | lib/storage.ts:24-28 | the book is appended; earlier books are untouched |
| Storage.BookStore.UpdateBook | lib/storage.ts:30-37 | the first book with the id is replaced by the merge and nothing else changes; without such a book the list is unchanged |
| Storage.BookStore.DeleteBook | lib/storage.ts:39-43 | the new list is the old one without the books carrying the id |
| Storage.BookStore.GetBooksByCountry | lib/storage.ts:45-57 | the loop builds the grouping whose keys are the distinct codes in first-appearance order and whose groups are the books per code in list order |
| Storage.BookStore.GetCountryData | lib/storage.ts:59-66 | one entry per distinct code, in first-appearance order, each with its non-empty group and the name taken from its first book |
| Storage.GroupMembership | lib/storage.ts:49-54 | every book is in its own code's group and in no other, and no group is empty |
| Storage.LoadBooks | lib/storage.ts:5-16 | no books outside a browser, without stored text, or when the text does not parse; otherwise the parsed list |
| Storage.BookStore.constructor | lib/storage.ts:5-16 | a new guest list is empty |
| Storage.Codes | lib/storage.ts:49-54 | one country code per book, in list order |
| Storage.BooksIn | lib/storage.ts:49-54 | a group holds exactly the books with its code, never more than the list |
| Storage.NoCodeNoBooks | lib/storage.ts:49-54 | a code no book carries has no books |
| Storage.GroupingStep | lib/storage.ts:49-54 | one more book makes a new code the last key and grows only its own code's group |
| Storage.AddToGroupingMeaning | lib/storage.ts:49-54 | one step of the grouping loop keeps the keys in first-appearance order and each group exactly its code's books |
| Continents.TableOfMeaning | lib/continents.ts:2-69 | every key of the object literal comes from a block that lists it and carries that block's continent, and every listed code is a key |
| Continents.KeysOf | lib/continents.ts:98 | `Object.keys` lists each key of the table once |
| Continents.TableKeys | lib/continents.ts:98 | the keys of `CONTINENT_MAP` are exactly its codes, without repeats |
| Continents.TableValuesAreContinents | lib/continents.ts:2-71 | every value of `CONTINENT_MAP` is one of `CONTINENTS`, none is empty or "Unknown", and "Unknown" is not a continent |
| Continents.FindIsTableLookup | lib/continents.ts:94 | looking a code up block by block finds it exactly when it is a key, with the table's value |
| Continents.GetContinent | lib/continents.ts:93-95 | the result is a continent exactly when it is not "Unknown" |
| Continents.GetContinentIsTableValue | lib/continents.ts:93-95 | a known code gives its table value, any other code "Unknown" |
| Continents.GetCountriesInContinent | lib/continents.ts:97-101 | a code is listed exactly when the table maps it to the continent, and never twice; a name that is not a continent, such as "Unknown", gives no codes |
| Continents.ContinentListsPartitionTable | lib/continents.ts:97-101 | the per-continent lists are pairwise disjoint and together hold exactly the table's codes |
| Continents.EveryContinentHasColorAndEmoji | lib/continents.ts:71-91 | colours and emojis are keyed by exactly the seven continents |
| Continents.Find | lib/continents.ts:94 | a code found in the table yields one of the written blocks' continents |
| Continents.CodesOf | lib/continents.ts:2-69 | the table's codes are exactly the codes written in its blocks |
| Continents.KeysMappedTo | lib/continents.ts:97-101 | the filter keeps exactly the codes the table maps to the continent, and repeats none when the keys have none |
| Continents.KeysMappedToAppend | lib/continents.ts:98-100 | the filter works key by key, so the listed codes keep the `Object.keys` order |
| Continents.KeysMappedToSingle | lib/continents.ts:98-100 | one key is kept exactly when the table maps it to the continent |
| Continents.ListsIsMembership | lib/continents.ts:94 | looking a code up through a block's list agrees with membership in that list |
| Continents.SectionsNameContinents | lib/continents.ts:2-71 | every block of the table is headed by a member of `CONTINENTS` |
| Continents.TableValuesAmong | lib/continents.ts:2-69 | the table only maps codes to its blocks' continents |
| Achievements.CountIn | lib/achievements.ts:143 | a continent missing from the per-continent record counts as 0, a present one as its recorded value |
| Achievements.UnlockedIn | lib/achievements.ts:167 | filtering keeps exactly the listed achievements whose requirement holds, and never lengthens the list |
| Achievements.LockedIn | lib/achievements.ts:171 | filtering with the negated requirement keeps exactly the listed achievements whose requirement fails |
| Achievements.GetUnlockedAchievements | lib/achievements.ts:166-168 | an achievement is returned exactly when it is one of the seventeen and the statistics meet its requirement |
| Achievements.GetNextAchievements | lib/achievements.ts:170-172 | at most three achievements, a prefix of the locked ones in list order (all of them when fewer than three are locked), none unlocked |
| Achievements.UnlockedKeepsOrder | lib/achievements.ts:167 | the unlocked filter distributes over concatenation, so it keeps list order |
| Achievements.LockedKeepsOrder | lib/achievements.ts:171 | the locked filter distributes over concatenation, so it keeps list order |
| Achievements.UnlockedAndLockedPartition | lib/achievements.ts:166-172 | the unlocked and the locked achievements together are the list, each entry exactly once |
| Achievements.NextDisjointFromUnlocked | lib/achievements.ts:166-172 | no next achievement is already unlocked, and unlocked plus locked count all 17 achievements |
| Achievements.CountAcrossMonotone | lib/achievements.ts:151-153 | summed per-continent counts grow when every single count grows |
| Achievements.RequirementMonotone | lib/achievements.ts:18-164 | every requirement is a `>=` threshold, so raising the statistics never makes it fail |
| Achievements.UnlockedMonotone | lib/achievements.ts:166-168 | raising the statistics keeps every unlocked achievement unlocked and never shrinks the unlocked list |
| Achievements.SubsetFilterShorter | lib/achievements.ts:167 | raising the statistics never shortens the filtered list of any achievement list |
| Achievements.LaddersNested | lib/achievements.ts:18-126 | within the book, country and continent ladders a higher badge implies every lower one |
| Achievements.NothingUnlocksOnEmpty | lib/achievements.ts:18-164 | no achievement unlocks on empty statistics |
| Achievements.FirstThreeAchievements | lib/achievements.ts:18-45 | the list starts with first-stamp, bookworm and avid-reader |
| Achievements.AllLockedIsList | lib/achievements.ts:166-172 | when nothing in a list unlocks, the locked filter returns the whole list and the unlocked filter nothing |
| Achievements.EmptyPassport | lib/achievements.ts:166-172 | with empty statistics nothing is unlocked and the next three badges are first-stamp, bookworm and avid-reader |
| Achievements.AmericasAdventureAddsBoth | lib/achievements.ts:151-153 | americas-adventure unlocks exactly when the North and South America counts, missing ones as 0, add up to at least 5 |
| Achievements.TierColorsCoverTiers | lib/achievements.ts:174-179 | every tier, hence every achievement, has a style, and different tiers have different styles |
| Passport.ContinentsOf | components/PassportModal.tsx:23 | mapping the lookup over the codes gives one continent per code, position by position |
| Passport.GetContinentIsContinentLookup | components/PassportModal.tsx:23 | the continent lookup the page uses only ever yields a listed continent or "Unknown" |
| Passport.WithoutUnknown | components/PassportModal.tsx:23 | dropping "Unknown" keeps exactly the other names, keeps them distinct and never lengthens the list |
| Passport.Visited | components/PassportModal.tsx:23 | the visited continents are distinct and are exactly the names that occur other than "Unknown" |
| Passport.ContinentsVisited | components/PassportModal.tsx:23 | a continent is listed as visited exactly when it is not "Unknown" and some stamped code maps to it; no continent is listed twice |
| Passport.Tally | components/PassportModal.tsx:25-31 | the per-continent record never has an "Unknown" key, holds only positive counts, and counts each continent's occurrences (missing keys read as 0) |
| Passport.TallyAppend | components/PassportModal.tsx:26-31 | one more code raises its continent's count by one, unless the continent is "Unknown", which leaves the record unchanged |
| Passport.ComputeStats | components/PassportModal.tsx:21-39 | the loop computes the four statistics: book count, number of codes, visited continents, and the per-continent record built code by code |
| Passport.OccurrencesPositive | components/PassportModal.tsx:23-31 | a continent occurs exactly when its occurrence count is positive |
| Passport.VisitedIffCounted | components/PassportModal.tsx:23-31 | a continent is listed as visited exactly when its count in the record is positive, the two views of one stamp list agree |
| Passport.OccurrencesAcrossStep | components/PassportModal.tsx:26-31 | over distinct continents, one more code adds one to the summed counts exactly when its continent is among them |
| Passport.OccurrencesAcrossKnown | components/PassportModal.tsx:26-31 | summed over distinct continents that cover every known name, the occurrences are the number of known names |
| Passport.NoOccurrencesAcross | components/PassportModal.tsx:25 | an empty record sums to 0 over any continents |
| Passport.CountAcrossIsOccurrences | components/PassportModal.tsx:25-31 | summing the record's counts over continents other than "Unknown" sums their occurrences |
| Passport.KnownCountBound | components/PassportModal.tsx:26-31 | at most every code is on a known continent |
| Passport.ContinentNamesDistinct | components/PassportModal.tsx:23 | the continent list has no repeats and does not contain "Unknown" |
| Passport.CountsSumOver | components/PassportModal.tsx:25-31 | for a lookup into distinct continents or "Unknown", the counts over those continents add up to the codes on a known continent, never more than the codes |
| Passport.CountsSumToKnownCodes | components/PassportModal.tsx:25-35 | the seven continents' counts add up to the codes on a known continent, so never exceed `totalCountries` |
| Passport.ProgressWidth | components/PassportModal.tsx:527 | a continent's bar is at most 100%, never negative for a real count, full exactly from ten countries on and ten percent per country below that |
| Passport.UnlockedDenominatorAsWritten | components/PassportModal.tsx:369 | the denominator as written is the unlocked count plus between 10 and 13, so it reaches 17 only once four badges are unlocked |
| Passport.UnlockedDenominatorAsWrittenIsWrong | components/PassportModal.tsx:369 | with no books the counter's denominator as written is 13, while the list holds 17 achievements |
| Passport.CounterOver | components/PassportModal.tsx:369 | the counter of a list is its unlocked entries out of all of them; the two are equal exactly when every entry is unlocked |
| Passport.UnlockedCounter | components/PassportModal.tsx:369 | the intended counter shows the unlocked badges out of all 17, equal exactly when every badge is unlocked |
| Passport.AllUnlockedIffNoneLocked | lib/achievements.ts:170-172 | nothing is locked exactly when every entry is unlocked |
| Globe.HexDigitValue | components/Globe.tsx:12 | a hexadecimal digit is worth less than 16 |
| Globe.HexDigitChar | components/Globe.tsx:16 | `toString(16)` writes each digit value as a lower-case hexadecimal digit that reads back as that value |
| Globe.HexValueBound | components/Globe.tsx:12 | `k` hexadecimal digits hold a value below 16^k |
| Globe.NatToHex | components/Globe.tsx:16 | `toString(16)` of a natural number is a non-empty run of lower-case hexadecimal digits that reads back as the number |
| Globe.NatToHexWidth | components/Globe.tsx:16 | a value below 16^k is written in at most `k` digits |
| Globe.PadStartZeros | components/Globe.tsx:16 | `padStart(6, '0')` leaves a long enough text alone and otherwise prefixes exactly enough zeros to reach the width |
| Globe.LeadingZerosValue | components/Globe.tsx:16 | leading zeros do not change a hexadecimal value |
| Globe.ZerosValue | components/Globe.tsx:16 | a run of zeros is a valid hexadecimal text worth 0 |
| Globe.LeadingHexDigits | components/Globe.tsx:12 | `parseInt(_, 16)` reads the longest run of hexadecimal digits at the front |
| Globe.LeadingHexDigitsAll | components/Globe.tsx:12 | a text made only of hexadecimal digits is read whole |
| Globe.ParseHexDigits | components/Globe.tsx:12 | `parseInt(_, 16)` of a non-empty run of hexadecimal digits is its value |
| Globe.ParseHex | components/Globe.tsx:12 | `parseInt(_, 16)` gives `NaN` for blank text and for text that starts with anything but a hexadecimal digit, white space or a sign |
| Globe.RemoveFirst | components/Globe.tsx:12 | `replace('#', '')` leaves a text without `#` alone and otherwise removes exactly the first `#`, wherever it is, keeping every other character in order |
| Globe.ChannelsOf | components/Globe.tsx:22-24 | shifting and masking yields three channels that are each a byte, whatever the parse gave |
| Globe.ChannelsSplit | components/Globe.tsx:22-24 | the three channels of a 24-bit value put together give the value back |
| Globe.ChannelsOfBytes | components/Globe.tsx:22-24 | three bytes put together form a 24-bit value whose channels are the same three bytes |
| Globe.HexColorValue | components/Globe.tsx:12 | a `#rrggbb` colour parses to the 24-bit value of its six digits |
| Globe.HexToRgba | components/Globe.tsx:20-26 | the result is the `rgba(...)` text of three byte channels and the alpha, and for a `#rrggbb` colour those channels make up its value |
| Globe.BrightenChannel | components/Globe.tsx:13-15 | a brightened channel is capped at 255, never darker than a byte channel for a percentage in [0, 1], and unchanged at 0% |
| Globe.BitOrDisjoint | components/Globe.tsx:16 | OR-ing a value shifted left by `k` with a value below 2^k adds them |
| Globe.Or32Disjoint | components/Globe.tsx:16 | the same holds for JavaScript's 32-bit `|` while the sum stays below 2^31 |
| Globe.PackBytes | components/Globe.tsx:16 | packing three bytes with shifts and `|` places them side by side as a 24-bit value |
| Globe.RgbHexOfBytes | components/Globe.tsx:16 | three bytes written as a colour give a `#rrggbb` colour of lower-case digits whose channels are the same bytes |
| Globe.PaddedHex | components/Globe.tsx:16 | a 24-bit value written in hexadecimal and padded is six lower-case digits that read back as the value |
| Globe.BrightenValue | components/Globe.tsx:11-16 | brightening a 24-bit value brightens each channel, keeps each a byte, never darkens one, and leaves them alone at 0% |
| Globe.BrightenHexColor | components/Globe.tsx:11-17 | for a `#rrggbb` colour and a percentage in [0, 1], brightening gives another `#rrggbb` colour whose channels are the brightened ones, each between the original and 255; at 0% the colour reads back unchanged |
| Globe.BrightenColor | components/Globe.tsx:11-17 | whatever the input, the result starts with `#` and has at least six characters after it |
| Globe.ResolvePolygon | components/Globe.tsx:106-124 | the feature id is the feature's non-empty id, else the index's decimal text; the code is the id table's non-empty entry, else the non-empty ISO_A2, else empty; the book count is the code's count or 0; the name is `name`, else `NAME`, else `Country <id>`; the colour is the id's colour |
| Globe.UnnamedFeatureColor | components/Globe.tsx:108-121 | a feature without an id takes the palette colour at its position modulo 60 |
| Globe.Polygons | components/Globe.tsx:106-124 | one polygon per feature, in order, each resolved with its own index |
| Globe.CountTextSingular | components/Globe.tsx:268 | a positive count reads `1 book` exactly for one |
| Globe.CountText | components/Globe.tsx:268 | the count line starts with the count's decimal text, followed by ` book` exactly when the count is one |
| Globe.PolygonLabel | components/Globe.tsx:264-271 | no polygon gives an empty label, a polygon without books its name, and one with books its name and count line |
| Globe.ClickTarget | components/Globe.tsx:320-327 | the click callback fires exactly for a polygon with a non-empty code, and then with its code and name |
| Globe.PolygonColor | components/Globe.tsx:245-262 | no polygon gives the theme's default; the selected country gets the highlight colour; any other polygon its own colour |
| Themes.ParseMode | context/ThemeContext.tsx:41-42 | a stored text is a mode exactly when it is `light` or `dark`, and then the mode is written as that text |
| Themes.ModeRoundTrip | context/ThemeContext.tsx:41-49 | a mode written to storage reads back as the same mode |
| Themes.Flip | context/ThemeContext.tsx:65 | toggling always changes the mode: `light` becomes `dark` and anything else `light` |
| Themes.FlipTwice | context/ThemeContext.tsx:64-66 | toggling twice restores the mode |
| Themes.ThemeTableShape | lib/themes.ts:105-462 | the table's keys are `modern`, `renaissance` and `library` without repeats, each theme carries its key as its id, the default theme is a key and the default mode is dark |
| Themes.GetTheme | lib/themes.ts:464-466 | a known id gives its theme and any other id the default theme, so the result's id is the id asked for when known and `modern` otherwise |
| Themes.GetActiveTheme | lib/themes.ts:468-484 | the active theme is the resolved theme's identity, fonts, radii and effects with the colours and globe of the requested mode, and carries that mode |
| Themes.AllThemesFollowTable | lib/themes.ts:486-488 | all themes are the table's themes, one per key, in declaration order, each carrying its key as its id |
| Themes.GetAllThemes | lib/themes.ts:486-488 | one theme per key of the table, in declaration order, each carrying its key as its id |
| ThemeContext.ThemeProvider.constructor | context/ThemeContext.tsx:28-31 | the first render shows the default theme in dark mode, not yet mounted, with storage as an earlier visit left it |
| ThemeContext.ThemeProvider.Persist | context/ThemeContext.tsx:46-52 | once mounted, storage holds the current theme and mode; before, storage is left alone; theme and mode are unchanged |
| ThemeContext.ThemeProvider.Mount | context/ThemeContext.tsx:33-52 | after mounting, a stored theme is taken only when it names a theme and a stored mode only when it is `light` or `dark`, otherwise the current value stays, and storage then holds the result |
| ThemeContext.ThemeProvider.SetTheme | context/ThemeContext.tsx:54-58 | a known theme id becomes the theme, any other id is ignored; the mode is unchanged and the stored state stays consistent |
| ThemeContext.ThemeProvider.SetMode | context/ThemeContext.tsx:60-62 | the new mode is taken, the theme is unchanged and the stored state stays consistent |
| ThemeContext.ThemeProvider.ToggleMode | context/ThemeContext.tsx:64-66 | the mode flips, the theme is unchanged and the stored state stays consistent |
| ThemeContext.ThemeProvider.Theme | context/ThemeContext.tsx:68 | the handed-out theme is always the current theme id in the current mode |
| ThemeContext.Summaries | context/ThemeContext.tsx:69-73 | one picker entry per theme, in order, with that theme's id, name and preview |
| ThemeContext.AvailableThemes | context/ThemeContext.tsx:69-73 | the picker offers one entry per theme key, in the table's order, each with that key as its id |
| ThemeContext.AvailableThemesAreAccepted | context/ThemeContext.tsx:54-73 | the picker lists each theme once in the table's order, and its ids are exactly those `setTheme` accepts |
| ThemeContext.KeyedSummaries | context/ThemeContext.tsx:69-73 | entries whose ids are the table's keys in order name every theme id once and nothing else |
| ThemeContext.UseTheme | context/ThemeContext.tsx:82-88 | the hook fails, with the provider message, exactly outside a provider, and otherwise returns the provider's value |
| Opik.TraceId | lib/opik.ts:65 | a generated id starts with its prefix and is longer than it |
| Opik.JudgeScore | lib/opik.ts:104-112 | the judge's score, in hundredths, is one of 70, 80, 85 and 95, so the cap at 100 never bites |
| Opik.JudgeScoreBonuses | lib/opik.ts:104-112 | the 15-point bonus is given exactly for a country absent from the history and the 10-point bonus exactly for a reason longer than 50 characters |
| Opik.EngagementMetadata | lib/opik.ts:146-150 | the engagement metadata keeps every caller entry, adds `action` and `recommendationId` only where the caller did not set them, and holds nothing else |
| Opik.RecommendedCountries | lib/opik.ts:182-185 | one country per recommendation trace |
| Opik.RecommendedCountriesSingle | lib/opik.ts:182-185 | a recommendation trace contributes its recommended book's country, any other trace nothing |
| Opik.RecommendedCountriesAppend | lib/opik.ts:182-185 | countries are collected trace by trace, in trace order |
| Opik.Scores | lib/opik.ts:169 | one score per scored evaluation, each one of the judge's four values |
| Opik.ScoresSingle | lib/opik.ts:169 | a scored evaluation contributes its score, any other trace nothing |
| Opik.ScoresAppend | lib/opik.ts:169 | scores are collected trace by trace, in trace order |
| Opik.SumBounds | lib/opik.ts:173 | a sum of values between two bounds lies between the count times each bound |
| Opik.Average | lib/opik.ts:172-174 | the average is 0 without scores; otherwise it times the number of scores is their sum, and it lies between 70 and 95 |
| Opik.Rate | lib/opik.ts:176-178 | the engagement rate is 0 without recommendations, never negative, and otherwise engagements divided by recommendations |
| Opik.OccurrencesPositive | lib/opik.ts:182-185 | a country occurs exactly when it is in the list |
| Opik.TallyAllMeaning | lib/opik.ts:181-185 | after the counting loop the keys are the distinct countries in order of first appearance, and each country's count is its number of occurrences |
| Opik.TraceStore.CountCountries | lib/opik.ts:181-185 | the loop builds exactly the tally: distinct keys in first-appearance order, each counted by its occurrences |
| Opik.Entries | lib/opik.ts:187-188 | one entry per key, in key order, with that key's count |
| Opik.Insert | lib/opik.ts:189 | inserting into the sorted list adds one entry |
| Opik.InsertPermutes | lib/opik.ts:189 | inserting adds exactly the new entry and removes none |
| Opik.InsertKeepsOrder | lib/opik.ts:189 | inserting keeps the list in decreasing count order |
| Opik.SortByCount | lib/opik.ts:189 | sorting keeps the number of entries |
| Opik.SortByCountSorts | lib/opik.ts:189 | sorting yields a permutation of the entries in decreasing count order |
| Opik.WithCountAppend | lib/opik.ts:189 | the entries of one count are picked part by part, in order |
| Opik.InsertStable | lib/opik.ts:189 | inserting places the new entry after every entry with the same count |
| Opik.SortByCountStable | lib/opik.ts:189 | the sort is stable: the entries of any one count keep their input order |
| Opik.WithCountTake | lib/opik.ts:190 | the entries of one count among the first five are the first ones of that count |
| Opik.TopCountries | lib/opik.ts:186-190 | at most five entries, in non-increasing count order |
| Opik.TopCountriesTies | lib/opik.ts:181-190 | countries recommended equally often are listed in the order of their first recommendation |
| Opik.EntriesMeaning | lib/opik.ts:181-188 | the entries hold each recommended country exactly once, with its number of occurrences |
| Opik.PermutedEntries | lib/opik.ts:187-189 | a permutation of such entries still holds each country once with its count, and keeps every entry |
| Opik.DistinctAfterPermutation | lib/opik.ts:189 | two positions of a permutation of entries with distinct countries name different countries |
| Opik.TwoPositions | lib/opik.ts:189 | an entry found at two positions occurs at least twice |
| Opik.SingleOccurrence | lib/opik.ts:187-188 | in entries with distinct countries every entry occurs once |
| Opik.LeftOutOfTop | lib/opik.ts:189-190 | a country the first five leave out is outnumbered or tied by each of five listed countries |
| Opik.TopCountriesListed | lib/opik.ts:181-190 | the top countries are at most five, in non-increasing count order, each a recommended country with its true count, none twice |
| Opik.TopCountriesOutnumber | lib/opik.ts:181-190 | a recommended country left out of the top list means five countries are listed, each with at least its count |
| Opik.TopCountriesMeaning | lib/opik.ts:181-190 | the top-countries list is the five most frequent recommended countries with their counts, in non-increasing order, none twice |
| Opik.MetricsOf | lib/opik.ts:162-198 | the metrics count the recommendation traces, take the mean of the scored evaluations' scores, give engagements per recommendation, and list the top countries of the recommended books |
| Opik.MetricsAsWritten | lib/opik.ts:168-170 | as written, the metrics fail exactly when some evaluation-typed trace has no metadata record, and otherwise equal the intended metrics |
| Opik.JudgeTrace | lib/opik.ts:114-123 | the stored evaluation is well formed, has no metadata record, and carries the judge's score, the recommendation id, the `llm-as-judge` type and the four criteria |
| Opik.EvaluationBreaksMetrics | lib/opik.ts:170 | after any evaluation is stored, every later metrics call fails |
| Opik.TraceStore.constructor | lib/opik.ts:56 | the store starts empty |
| Opik.TraceStore.TrackRecommendation | lib/opik.ts:61-78 | one recommendation trace with a `rec` id is appended, and that id is returned |
| Opik.TraceStore.EvaluateRecommendation | lib/opik.ts:83-132 | the loop computes the judge's score; the evaluation trace is appended and returned |
| Opik.TraceStore.TrackEngagement | lib/opik.ts:137-157 | one evaluation-typed trace with an `eng` id and the engagement metadata is appended |
| Opik.TraceStore.GetAllTraces | lib/opik.ts:203-205 | every trace, in insertion order |
| Opik.TraceStore.GetRecommendationMetrics | lib/opik.ts:162-198 | the method computes the intended metrics of the stored traces |
| Recommender.MappedMembers | lib/ai.ts:53-56 | the values a mapping takes on the history are exactly the elements of the mapped list |
| Recommender.CountriesRead | lib/ai.ts:53 | the set of countries read has no repeats, holds exactly the codes of the history's books, and is empty exactly for an empty history |
| Recommender.ContinentsRead | lib/ai.ts:54-56 | the set of continents read has no repeats, holds exactly the continents of the history's codes, and is empty exactly for an empty history |
| Recommender.HistoryLines | lib/ai.ts:234-236 | one line per book, in order, the `k`-th book numbered from its position |
| Recommender.Prompt | lib/ai.ts:229-257 | the prompt opens with the fixed request and closes with the fixed answer format |
| Recommender.ReadSectionInPrompt | lib/ai.ts:229-257 | everything in the countries-and-continents section appears in the prompt |
| Recommender.HistoryTextInPrompt | lib/ai.ts:229-257 | everything in the history section appears in the prompt |
| Recommender.PreferenceSectionInPrompt | lib/ai.ts:229-257 | everything in the preferences section appears in the prompt |
| Recommender.NothingReadLines | lib/ai.ts:239-240 | with nothing read, the countries and continents lines say `None` |
| Recommender.PromptWithoutHistory | lib/ai.ts:232-240 | with no history the prompt carries the no-books sentence and both `None` lines |
| Recommender.PromptListsHistory | lib/ai.ts:234-236 | every book of the history has its numbered line in the prompt |
| Recommender.PreferencesOptional | lib/ai.ts:242-244 | absent preferences, preferences with nothing set and an empty goal all give the same prompt |
| Recommender.PromptPreferenceLines | lib/ai.ts:242-244 | a non-empty goal, any genre list and any reading pace each get their line in the prompt |
| Recommender.IndexOfText | lib/ai.ts:87 | the search finds the first occurrence of a text at or after a position, or reports that there is none |
| Recommender.ReplaceFirst | lib/ai.ts:87 | `replace` with a text pattern leaves a text without the pattern alone and otherwise replaces only the first occurrence |
| Recommender.DiscoveredModels | lib/ai.ts:77-93 | the discovered names are exactly the names of the usable listing entries, each non-empty and containing `gemini` |
| Recommender.DiscoveredModelsAppend | lib/ai.ts:86-88 | the listing is filtered and mapped entry by entry, so the names keep listing order |
| Recommender.DiscoveredModelsSingle | lib/ai.ts:86-88 | one entry gives its name without `models/` exactly when it supports `generateContent` and the name is non-empty and contains `gemini` |
| Recommender.NonEmpty | lib/ai.ts:102 | `.filter(Boolean)` keeps exactly the non-empty names |
| Recommender.NonEmptyAppend | lib/ai.ts:102 | the filter distributes over concatenation, so the kept names stay in order |
| Recommender.CandidateModels | lib/ai.ts:95-105 | the candidates are the non-empty sources deduplicated at first occurrence in source order; never empty, at most seven, all three defaults included, and a configured model first |
| Recommender.CandidateOrder | lib/ai.ts:95-105 | the configured and first three discovered models come first, in order and without repeats, ahead of any default they do not already name |
| Recommender.FirstSdkAnswer | lib/ai.ts:111-127 | the index found is the first candidate whose SDK reply trims to non-empty text, or there is none |
| Recommender.SdkRun | lib/ai.ts:107-127 | the SDK loop either leaves the state alone or keeps the trimmed reply of a candidate that replied, under that candidate's name |
| Recommender.SdkRunMeaning | lib/ai.ts:107-127 | the SDK loop keeps the reply of the first candidate that answers, under that candidate's name, and keeps nothing when none answers |
| Recommender.FirstRestAnswer | lib/ai.ts:129-161 | the index found is the first default model whose REST text is non-empty, or there is none |
| Recommender.RestRun | lib/ai.ts:129-161 | the REST loop either leaves the state alone or keeps the trimmed text of a fixed model whose response had text, under that model's name |
| Recommender.RestRunMeaning | lib/ai.ts:129-161 | the REST loop keeps the trimmed text of the first default model with text, under its name, and changes nothing when there is none |
| Recommender.RespondReportsSource | lib/ai.ts:107-161 | a kept reply is reported under the model that produced it: through the SDK, or through REST only when no candidate answered through the SDK |
| Recommender.FromJson | lib/ai.ts:270-282 | each text field is the decoded value when present and non-empty and its default otherwise; the difficulty defaults to `medium`; the country code comes from the country name, else the decoded code, else is empty |
| Recommender.FromJsonRoundTrip | lib/ai.ts:270-282 | a recommendation with every text field set reads back unchanged from its JSON fields |
| Recommender.FirstQuoteMatch | lib/ai.ts:290 | the match found is the leftmost quote followed by at least one non-quote and a closing quote, or there is none |
| Recommender.QuotedTitle | lib/ai.ts:290-294 | a title found is the non-empty, quote-free text of the leftmost match of `"([^"]+)"`: no match starts earlier; none is found only when nothing matches |
| Recommender.QuotedTitleFirst | lib/ai.ts:290-294 | a quoted title preceded by quote-free text is the title found |
| Recommender.FromText | lib/ai.ts:289-299 | the text path never fails: country `Unknown` with no code, the quoted title or `A recommended book`, the matched non-empty author or `An author`, and as the reason the first 200 characters of the reply (the whole reply when shorter, the default when empty) |
| Recommender.ParseResponse | lib/ai.ts:262-300 | the JSON path is taken exactly when the span from the first `{` to the last `}` decodes, the text path otherwise, and the result always names a title, an author, a country and a reason |
| Recommender.FallbacksShape | lib/ai.ts:307-313 | five fallback books with every field filled in, Things Fall Apart first |
| Recommender.Available | lib/ai.ts:315 | the available books are exactly the fallbacks whose country has not been read |
| Recommender.PickIndex | lib/ai.ts:317 | the random pick is a valid index |
| Recommender.FallbackFrom | lib/ai.ts:315-327 | the pick is one of the books, from an unread country whenever there is one, the first book when all are read, with difficulty `medium` and a reason naming its country |
| Recommender.FallbackRecommendation | lib/ai.ts:302-328 | the fallback always names a book, an author, a country and a reason, and is Things Fall Apart when every listed country has been read |
| Recommender.TraceHistory | lib/ai.ts:204-209 | the recorded history has one entry per book with its title, author, country and rating |
| Recommender.TrySdk | lib/ai.ts:107-127 | the loop computes exactly the SDK tier's kept reply and model |
| Recommender.TryRest | lib/ai.ts:129-161 | the loop computes exactly the REST tier's kept reply and model, from the state the SDK tier left |
| Recommender.AskModels | lib/ai.ts:107-161 | the two loops give exactly both tiers' result, REST only when the SDK kept nothing |
| Recommender.Record | lib/ai.ts:167-210 | exactly one recommendation trace and then one evaluation of it are appended to the store |
| Recommender.GenerateRecommendation | lib/ai.ts:41-217 | without a key, or when no tier yields text, the result is the fallback and nothing is recorded; otherwise it is the parsed reply, recorded as one recommendation and one evaluation |
| BatchRecommendations.Classify | app/api/recommendations/route.ts:156-205 | the checks run in source order: quota when any quota sign is present, authentication when no quota sign but an authentication sign, server failure for 500/502/503 otherwise, and any other failure last |
| BatchRecommendations.ErrorFor | app/api/recommendations/route.ts:147-205 | a failed call gets 503 for a quota, rate-limit or server failure and 500 for an authentication or other failure; only the generic reply carries the provider's message, and only in development |
| BatchRecommendations.RateLimitNeverClassified | app/api/recommendations/route.ts:157-188 | no failure is ever classified as a rate limit: every 429 is already taken by the quota check |
| BatchRecommendations.RateLimitIsReportedAsQuota | app/api/recommendations/route.ts:157-188 | a call failing with status 429 always gets the quota reply and never the rate-limit message |
| BatchRecommendations.CountryNames | app/api/recommendations/route.ts:41 | the names kept are exactly the books' non-empty country names |
| BatchRecommendations.CountriesRead | app/api/recommendations/route.ts:41-43 | the countries read are distinct and are exactly the books' non-empty country names |
| BatchRecommendations.RecentHistory | app/api/recommendations/route.ts:46-51 | the history lists the ten newest books, or all when fewer, each with its title, author, rating and country, `Unknown` when it has none |
| BatchRecommendations.ItemLines | app/api/recommendations/route.ts:93 | one prompt line per listed book, in order |
| BatchRecommendations.Pluralisation | app/api/recommendations/route.ts:90 | for every count, `book` and `country` are singular exactly for one and plural otherwise |
| BatchRecommendations.BatchWordingDistinguishable | app/api/recommendations/route.ts:57-121 | the first-time and returning prompts differ right after their shared opening |
| BatchRecommendations.FirstTimeExactlyWithoutBooks | app/api/recommendations/route.ts:55-58 | the first-time prompt is sent exactly when the reader has no books |
| BatchRecommendations.Prompt | app/api/recommendations/route.ts:57-121 | both prompts open with the shared opening and end with the JSON format instructions |
| BatchRecommendations.HistorySectionInPrompt | app/api/recommendations/route.ts:88-121 | everything in the history section is in a returning reader's prompt |
| BatchRecommendations.PromptListsRecentBooks | app/api/recommendations/route.ts:93 | a returning reader's prompt lists each of the ten newest books |
| BatchRecommendations.PromptNamesCountries | app/api/recommendations/route.ts:95 | a returning reader's prompt carries the line naming the countries read |
| BatchRecommendations.Extract | app/api/recommendations/route.ts:210-217 | the span from the first `[` to the last `]` is decoded when a `]` follows the first `[`, the whole text otherwise |
| BatchRecommendations.CompleteItems | app/api/recommendations/route.ts:238-240 | the kept entries are exactly those with title, author, country and reason all set, never more than given |
| BatchRecommendations.CompleteItemsKeepOrder | app/api/recommendations/route.ts:238-240 | the filter distributes over concatenation, so kept entries stay in the model's order |
| BatchRecommendations.CompleteItemsIdempotent | app/api/recommendations/route.ts:238-240 | filtering twice keeps the same entries |
| BatchRecommendations.Present | app/api/recommendations/route.ts:238-240 | an array with no `null` entry reads as its entries, one per position |
| BatchRecommendations.Answer | app/api/recommendations/route.ts:127-291 | a failed call gets its classified error; empty text gets the empty-response 500; text that does not decode gets the parse-failure 500; a non-array or empty array gets `Invalid recommendations format`; an array holding `null` makes the filter throw and gets the generic 500 (with the TypeError text in development); an array without complete entries gets the no-valid 500; an array with a complete entry and no `null`, and only such, gives the first one to five complete entries in order with the true book and country statistics |
| BatchRecommendations.Handle | app/api/recommendations/route.ts:127-291 | the handler's steps after the call compute exactly that reply |
| BatchRecommendations.Post | app/api/recommendations/route.ts:7-291 | no session user gives 401, no key the not-configured 500, and otherwise the reply for the configured model (default `gpt-4o-mini`) called with the reader's prompt |
| Seqs.Dedup | app/api/recommendations/route.ts:41 | `Array.from(new Set(...))` has no repeats, drops no element and adds none |
| Seqs.DedupPrefix | lib/opik.ts:182-185 | deduplicating a longer run only appends to what a prefix gave, so keys stay in first-appearance order |
| Seqs.DedupMembers | app/api/recommendations/route.ts:41 | deduplication keeps exactly the elements |
| Seqs.DedupHead | lib/ai.ts:105 | the first element stays first after deduplication |
| Seqs.Take | app/api/recommendations/route.ts:251 | `slice(0, n)` is the first `n` elements, or all when fewer |
| Text.TrimStartMeaning | app/api/recommendations/route.ts:136 | what is removed at the front is white space, and what remains does not start with it |
| Text.Trim | app/api/recommendations/route.ts:136 | `trim` never lengthens the text, and what it keeps neither starts nor ends with white space |
| Text.TrimMeaning | app/api/recommendations/route.ts:136 | the input is white space, then the trimmed text, then white space; the trimmed text neither starts nor ends with white space, and is empty exactly when the input is all white space |
| Text.TrimSplit | app/api/recommendations/route.ts:136 | what `trim` removes on each side is white space |
| Text.TrimmedAfterLead | app/api/recommendations/route.ts:136 | one more white-space character in front moves the split by one |
| Text.TrimmedAfterTrail | app/api/recommendations/route.ts:136 | one more white-space character at the back keeps the split |
| Text.JoinContainsPart | app/api/recommendations/route.ts:95 | every joined part appears in the joined text |
| Text.NatToString | app/api/recommendations/route.ts:90 | a natural number renders as decimal digits without a leading zero that read back as the number |
| Text.IntToString | lib/ai.ts:235 | an integer renders as its decimal digits, with a leading `-` when negative |
| Text.IndexOf | components/Globe.tsx:12 | the index found is the first occurrence of the character, or there is none |
| Text.LastIndexOf | app/api/recommendations/route.ts:212 | the index found is the last occurrence of the character, or there is none |
| Text.GreedySpan | app/api/recommendations/route.ts:212 | the greedy match runs from the first opening to the last closing character, and there is none exactly when no closing character follows an opening one |
| Text.OrElse | app/api/recommendations/route.ts:49 | `a \|\| b` on text gives `a` when it is set and non-empty, and `b` otherwise |

## Left out

- **Network.** The Gemini SDK and REST calls, the model listing and the OpenAI chat call are left out. Each call is a function parameter that returns an abstract outcome. Retries inside the client libraries are not modelled.
- **RetryError unwrapping.** `lastError` / `errors[0]` in `app/api/recommendations/route.ts:151-154` is left out. The handler sees the already unwrapped status, code and message (`BatchRecommendations.ProviderError`).
- **Database and session.** The session lookup and the Prisma query are left out. The handler receives the session's user id and the books, newest first.
- **Route error paths.** One cause of the route's outer `catch` is modelled: a `null` entry in the decoded array makes the `rec.title` filter throw a TypeError. Its message names neither "prisma" nor "session", so `BatchRecommendations.Answer` gives the generic 500 "Failed to generate recommendations. Please try again.", with the message as `details` in development. A non-null non-object entry, such as a number or a string, does not throw: it is read as an entry without fields and is dropped. The catch's "prisma" (500) and "session" (401) replies are left out, because database and session failures are not modelled.
- **Inherited object keys.** The model's maps hold only their own keys. A plain JavaScript object lookup also sees keys inherited from `Object.prototype`, such as `constructor` or `toString`. So the model does not capture what these lookups do with such a key: `themes[themeId]` (lib/themes.ts:465), `CONTINENT_MAP[countryCode]` (lib/continents.ts:94), `idToIso[featureId]` (components/Globe.tsx:109) and `grouped[book.countryCode]` (lib/storage.ts:50-53), `themes[savedTheme]` (context/ThemeContext.tsx:38), `themes[newThemeId]` (context/ThemeContext.tsx:55), `countryCounts[country]` (lib/opik.ts:184) and `booksByCountry[countryCode]` (components/Globe.tsx:111). For example, a book whose country code is `constructor` would be grouped differently by the source. In the source, a saved or chosen theme id `constructor` passes the `themes[...]` check and becomes the theme id, and the next `getActiveTheme` then reads `colors` off a function and throws (lib/themes.ts:469-480); `ThemeContext.ThemeProvider.Mount` and `ThemeContext.ThemeProvider.SetTheme` ignore such an id instead, and `Valid()` keeps the theme id a key of the table. A recommended country `constructor` is counted by the source as the text `function Object() { [native code] }1`, and one named `__proto__` is lost; `Opik.TallyAllMeaning` counts both like any other name.
- **Reloading the stored list.** `Storage.BookStore` keeps its `books` list between calls, while each source mutator reloads the list through `getBooks()` (lib/storage.ts:24-43). A stored text that parses to something other than an array, such as `5` or `null`, makes the source's `push`, `findIndex` or `filter` throw. The model cannot reach that case, because the `parse` parameter of `Storage.LoadBooks` yields only `Option<seq<Book>>`.
- **`JSON.parse`.** The decoder is an uninterpreted parameter; no JSON grammar is modelled. So is `getCountryCode`. `lib/countries` is not part of this model.
- **Author regex.** The text path's case-insensitive author regular expression is an uninterpreted parameter `authorOf`. The title regex `/"([^"]+)"/` and the greedy `{...}` / `[...]` spans are modelled exactly.
- **Exceptions after parsing.** `generateRecommendation`'s `catch` also covers the trace calls. Those cannot fail in the model, so only the key, no-reply and parse paths are modelled.
- **`averageRating`.** It is computed in `lib/ai.ts:57-59` and never used, so it is left out.
- **`countriesRead` in `parseRecommendationResponse`.** The parameter is never read, so it is dropped.
- **`generateReflectionPrompts`.** Left out: it is a single SDK call with fixed fallback lists.
- **Logging.** `console` output is not modelled.
- **String lengths.** JavaScript's `.length` and `substring` count UTF-16 code units; the model counts characters. The two differ only for characters outside the Basic Multilingual Plane. This affects the `reason.length > 50` bonus in `Opik.JudgeScore` and the 200-character reason in `Recommender.FromText`.
- **Non-string JSON fields.** A decoded field that is present but not a string is read as missing (`None`) in `Recommender.ParsedFields`, `BatchRecommendations.Item` and `Globe.Feature` (its `id`, `ISO_A2`, `name` and `NAME` properties). In the source a truthy non-string value, such as `title: 5`, survives `parsed.title || 'Unknown'` and the `rec.title && ...` filter. The model replaces it by the default or drops the entry. Likewise a numeric feature `id` survives `feat.id || String(index)` in the source, while the model falls back to the index.
- **Floating point.**
  - The judge score is kept in exact hundredths, so the IEEE sum 0.7 + 0.15 + 0.1 is not modelled.
  - `hslToHex` is left out. It rounds floats, so `getCountryColorHex` is modelled only up to the inputs it passes.
  - Brightening uses exact reals.
  - Globe altitudes are not modelled.
- **Float precision of the hash.** The 32-bit wrap of the colour hash is exact. Loss of float precision above 2^53 is not: the intermediate value stays far below it.
- **Rendering.** React rendering, the DOM and `applyThemeToDocument` are left out. The theme provider models which theme and mode are current and what storage holds, not the CSS variables.
- **Object key order.** `Object.entries` lists integer-like keys first. Country names are not integer-like, so the tally keeps insertion order. Country codes are not integer-like either, so `Object.entries(grouped)` (lib/storage.ts:61) lists the codes in first-appearance order, as `Storage.GroupAllMeaning` states.
- **`lib/location.ts` and the other route handlers.** They are HTTP reshaping or floating-point trigonometry, so they are left out.
- **UI-only components.** Left out: they only render.

## Findings

| source | as written | input that shows it | evidently intended | confidence | as-written member | corrected member |
|---|---|---|---|---|---|---|
| lib/opik.ts:114-123, 170 | evaluation traces are stored without a `metadata` record. The engagement filter then evaluates `'action' in t.metadata` on every evaluation-typed trace, so the `in` throws a TypeError on `undefined` | call `evaluateRecommendation` once, then `getRecommendationMetrics` | metrics count an evaluation without metadata as no engagement | not executed | Opik.MetricsAsWritten, Opik.EvaluationBreaksMetrics | Opik.MetricsOf, Opik.TraceStore.GetRecommendationMetrics |
| components/PassportModal.tsx:369 | the counter reads "unlocked of (unlocked + next + 10)" | no books: "0 of 13 unlocked", although there are 17 achievements | the unlocked badges out of all 17 achievements | not executed | Passport.UnlockedDenominatorAsWritten, Passport.UnlockedDenominatorAsWrittenIsWrong | Passport.UnlockedCounter |
