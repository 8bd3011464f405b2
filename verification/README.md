# Tokyo Joshi Pro EPG feed, modelled in Dafny

`epg-to-rss.js` downloads an XMLTV programme guide and cleans the text. It parses
the guide and keeps the programmes whose first title contains "東京女子プロレス",
stopping at 30. Each kept programme becomes an RSS item: a title, a placeholder
link, a guid, a publication date and a description that shows the start time, the
channel and the programme description. The script then writes an RSS 2.0 document.

This project models the deterministic middle of that pipeline as pure Dafny
functions, with lemmas about them:

- `Sanitizer`: the two global replacements that delete U+3000 and line breaks.
  The regular expression `\r?\n|\r` is modelled as the left-to-right scan it
  performs. It is proved equal to deleting every CR and LF.
- `Epg`: the parsed guide. A programme has an optional attribute object with
  optional `channel` and `start`, plus its `title` and `desc` child lists.
- `Selection`: the title filter and the 30-item cap.
- `Items`: the per-programme mapping, with its fallbacks, the 14-character start
  stamp, the date components, the guid and the description template.
- `Feed`: the RSS object, the whole run on a parsed document (`Generate`) and the
  run on the downloaded text (`Run`).
- `Text`, `Sequences` and `Wrappers` hold the string and sequence operations of the
  runtime (`includes`, `slice`, deletion) and the Option and Result types.

The date library is a parameter. `DateRendering` holds two functions applied to the
text that line 53 passes to `new Date`: `toUTCString()` and the Japanese-locale
rendering. The XML parser is the `parse` parameter of `Run`. A thrown exception,
caught at line 106, becomes a `Failure`: no feed is produced.

Behaviour reproduced as the code has it:

- The fallbacks "Sin título", "Sin descripción" and "Desconocido" also replace an
  empty string, not only a missing value, because `||` treats `""` as false.
- When `start` is missing, the guid is the title followed by the text `undefined`.
  When `start` is an empty string, the guid is the title alone.
- A selected programme with no attributes at all makes `p.$.channel` throw, and the
  whole run produces nothing (`MissingAttributes`). A programme that the filter drops
  is never read further, so it can never cause this failure (`Feed.GenerateItems`).
- A document whose root is not `tv` throws at line 23 (`MissingTvRoot`).
- The description literal is "⏰ ", the time, " (JST)  | 📺 Canal: ", the channel,
  a blank line, then the description. Note the two spaces before the bar.
- The "JST" shift adds zero hours. The displayed time is therefore the runtime's
  Asia/Tokyo rendering of the stamp read as UTC. The model keeps that rendering as
  an opaque function of the date text.

## Model

| member | source | states |
|---|---|---|
| `Sequences.Slice` | epg-to-rss.js:35 | `slice(from, to)` clamps both indices to the length. The result has the clamped length, and element k is element from+k of the input |
| `Text.Delete` | epg-to-rss.js:17-18 | reference meaning of deleting a set of characters: no deleted character is left, and the result is an order-preserving subsequence of the input |
| `Text.DeleteCounts` | epg-to-rss.js:17-18 | each kept character occurs exactly as often as in the input, and each deleted one occurs zero times |
| `Text.DeleteTwice` | epg-to-rss.js:17-18 | two deletions in a row delete the union of the two sets, which is why the two replacements compose into one deletion |
| `Text.Includes` | epg-to-rss.js:29 | `String.prototype.includes`: a string never includes a longer one, and every string includes the empty string. `Text.IncludesIffOccurs` gives its full meaning |
| `Text.IncludesIffOccurs` | epg-to-rss.js:29 | `includes` holds exactly when the needle occurs at some index (both directions) |
| `Sanitizer.RemoveIdeographicSpaces` | epg-to-rss.js:17 | no U+3000 is left, and the result is a subsequence of the input |
| `Sanitizer.RemoveLineBreaks` | epg-to-rss.js:18 | the line-break scan, which tries CRLF, then LF, then CR at each position, equals deleting every CR and LF |
| `Sanitizer.Sanitize` | epg-to-rss.js:17-18 | the two replacements equal deleting exactly U+3000, CR and LF, and the output contains none of them |
| `Sanitizer.SanitizeKeepsOthers` | epg-to-rss.js:17-18 | every other character is kept as often as in the input and in order, so nothing is inserted |
| `Sanitizer.SanitizeIdempotent` | epg-to-rss.js:17-18 | sanitizing sanitized text changes nothing |
| `Sanitizer.SanitizeIgnoresDeleted` | epg-to-rss.js:17-18 | removing one U+3000, CR or LF anywhere in the raw text leaves the sanitized text unchanged |
| `Sanitizer.SanitizeJoinsAcrossLineBreak` | epg-to-rss.js:17-18 | a U+3000 and a CRLF between clean pieces vanish, and the pieces are joined with no separator |
| `Epg.First` | epg-to-rss.js:28 | `list?.[0]` is absent exactly when the list is empty, and otherwise is its first value |
| `Epg.OrElse` | epg-to-rss.js:38-40 | the `or` fallback gives the value when it is present and non-empty, and the fallback otherwise |
| `Selection.Programmes` | epg-to-rss.js:23 | a missing programme list reads as empty, and a present one is used as is |
| `Selection.Matches` | epg-to-rss.js:27-30 | the filter callback holds exactly when there is a first title and it contains the needle, so a matching first title is never empty |
| `Selection.Filter` | epg-to-rss.js:27-30 | every kept programme's first title contains the needle, and the kept programmes form an order-preserving subsequence of the input |
| `Selection.FilterCounts` | epg-to-rss.js:27-30 | each matching programme is kept as many times as it occurs, and each other programme is dropped |
| `Selection.FilterAppend` | epg-to-rss.js:27-30 | filtering a concatenation filters each part |
| `Selection.Select` | epg-to-rss.js:35 | the selection has min(30, matches) entries, is the prefix of the matches of that length, and is a subsequence of the input in which every entry matches, and is never longer than the input |
| `Selection.SelectIgnoresLater` | epg-to-rss.js:35 | once 30 matches have been seen, later programmes never change the selection |
| `Selection.SelectAllWhenFew` | epg-to-rss.js:35 | with at most 30 matches, all of them are selected |
| `Selection.SelectedHaveTitle` | epg-to-rss.js:27-30 | every selected programme has a non-empty first title that contains the needle |
| `Selection.UntitledNeverSelected` | epg-to-rss.js:28-29 | a programme with no title, or with an empty first title, is never selected |
| `Selection.SelectedFromInput` | epg-to-rss.js:27-35 | every selected programme is one of the input programmes |
| `Items.StartStamp` | epg-to-rss.js:43 | the stamp is absent exactly when the start attribute is. Otherwise it is the attribute's prefix of length min(14, length) |
| `Items.Guid` | epg-to-rss.js:70 | the guid starts with the title and continues with the stamp, or with `undefined` when the stamp is absent |
| `Items.Derive` | epg-to-rss.js:37-74 | the mapping fails, with `MissingAttributes`, exactly when the programme has no attribute object. Otherwise the item carries the placeholder link and a non-empty title |
| `Items.DeriveAll` | epg-to-rss.js:37 | the map succeeds exactly when every programme has attributes. It then gives one item per programme, in order, each the mapping of its programme |
| `Items.TitleRule` | epg-to-rss.js:38 | the title is the first title when that is present and non-empty, and "Sin título" otherwise |
| `Items.Description` | epg-to-rss.js:72 | the template's text starts with the clock mark, the displayed time and the fixed separator up to "Canal: ". It contains the channel and the description, and ends with a blank line followed by the description |
| `Items.DescriptionRule` | epg-to-rss.js:39-72 | the description is exactly the clock mark and a space, the displayed time ("" without a start stamp), the line-72 separator (" (JST)", two spaces, a bar, a space, the TV mark and " Canal: "), the channel or "Desconocido" when it is missing or empty, a blank line, and the first description or "Sin descripción" when that is missing or empty |
| `Items.GuidRule` | epg-to-rss.js:70 | the guid is the item title directly followed by the 14-character stamp, or by `undefined` when there is no start attribute |
| `Items.Parts` | epg-to-rss.js:47-52 | the six components, in order, spell the stamp's first min(14, length) characters, and exactly its first 14 characters when the stamp is complete |
| `Items.IsoText` | epg-to-rss.js:53 | with components of full width, the date text has the 20-character layout YYYY-MM-DDTHH:MM:SSZ, with each component at its fixed position |
| `Items.PartsSpellStamp` | epg-to-rss.js:43-52 | for every stamp, year, month, day, hour, minute and second are the clamped slices [0,4), [4,6), [6,8), [8,10), [10,12) and [12,14), so a short stamp leaves the later ones short or empty. With a complete stamp they are exactly those slices of the stamp and together spell its first 14 characters |
| `Items.ShortStampExample` | epg-to-rss.js:43-53 | the start attribute `20240315` is kept whole and gives year `2024`, month `03`, day `15`, empty hour, minute and second, and the date text `2024-03-15T::Z` |
| `Items.NoStartNoDates` | epg-to-rss.js:44-46 | with the start attribute missing or empty, the item is still produced, `pubDate` is "" and the displayed time is empty |
| `Items.StartDates` | epg-to-rss.js:46-72 | with a non-empty stamp, `pubDate` and the displayed time are the UTC and Asia/Tokyo renderings of the date that the stamp's components spell |
| `Items.StartExample` | epg-to-rss.js:43-54 | `20240315090000+0900` gives the stamp `20240315090000`, the date text `2024-03-15T09:00:00Z` (read as UTC) and that date's UTC rendering as `pubDate` |
| `Feed.CopyItem` | epg-to-rss.js:86-92 | the copy callback returns an item equal to its input: every field verbatim |
| `Feed.BuildFeed` | epg-to-rss.js:77-96 | the RSS object has version "2.0", the fixed channel title, link and description, and language "ja". Its items are the given items, in order, with every field copied verbatim |
| `Feed.Generate` | epg-to-rss.js:23-96 | a document without a `tv` root fails with `MissingTvRoot`. A produced feed is the fixed RSS object of `BuildFeed` (version "2.0", the fixed channel title, link and description, language "ja") around its items, and holds at most 30 items |
| `Feed.Run` | epg-to-rss.js:14-21 | the parser sees the sanitized text. A parse failure produces no feed, and otherwise the run is `Generate` on the parsed document |
| `Feed.GenerateItems` | epg-to-rss.js:23-74 | the run succeeds exactly when every selected programme has attributes, so dropped programmes never matter. It then holds min(30, matches) items, item i being the mapping of the i-th selected programme |
| `Feed.NoProgrammesNoItems` | epg-to-rss.js:23 | a guide without programmes yields the channel metadata and zero items |
| `Feed.NoMatchesNoItems` | epg-to-rss.js:27-35 | a guide where nothing matches yields zero items |
| `Feed.ItemTitlesContainNeedle` | epg-to-rss.js:27-38 | every item's title contains the needle, so the "Sin título" fallback never reaches the feed |
| `Feed.RunIgnoresDeletedCharacters` | epg-to-rss.js:17-21 | inserting a U+3000, CR or LF anywhere in the downloaded text never changes the outcome |
| `Feed.SingleProgrammeFeed` | epg-to-rss.js:37-72 | one programme "東京女子プロレス #123" on CH1, starting 20240101120000, with description "test desc", gives exactly one item with that title, the guid "東京女子プロレス #12320240101120000" and a description containing "CH1" and "test desc" |

## Left out

- Fetching the guide over HTTP (lines 7, 13-14): network I/O. `Run` takes the downloaded text as its input.
- Parsing with `xml2js.parseStringPromise` (line 21): a foreign library. It is the `parse` parameter of `Run`, and its output is abstracted as the `Epg` records. Node shapes the library can produce are not modelled. One example: a `title` element with attributes becomes an object rather than a string, and `includes` would then throw.
- Serializing with `xml2js.Builder` (lines 98-99), including XML escaping: a foreign library. The model stops at the RSS object. The object's `channel` is a one-element array, modelled as a single `Channel`.
- Creating the output directory and writing the file (lines 8, 102-104): filesystem I/O.
- `new Date(...)`, `toUTCString()` and `toLocaleString('ja-JP', { timeZone: 'Asia/Tokyo', ... })` (lines 53-64): runtime date, locale and time-zone code. These are the two opaque functions of `DateRendering`, applied to the date text of line 53. The zero-hour shift of line 56 changes nothing and is folded into them.
- Console logging and the async wrapper (lines 10-12, 20, 24, 32, 105-108): I/O and control plumbing. The catch is modelled only as "a failure produces no feed". The process exit status is not modelled.
- Strings are sequences of Unicode characters. JavaScript counts UTF-16 code units, so `slice(0, 14)` would differ only for a start attribute holding characters outside the Basic Multilingual Plane.
