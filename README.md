# RSS reader: a Dafny model of its reading and printing core

The RSS reader is a command-line utility. It fetches an RSS feed with the
`feedparser` library and prints the first items of the feed, in feed order, to standard output, either as
readable text or as a JSON-like dictionary. Its repository contains two
revisions of the class that does this work:

- the newer `RssReader` in `src/reader/rss_entities.py`. Its `parse_rss` turns
  the parsed feed into a dictionary of records (`feed`, then `entries`, each
  with `title`, `date`, `link`, `summary` and numbered `links`). Its
  `print_rss` prints that dictionary. Both methods are wrapped in a logging
  decorator and an exception-suppressing decorator (`src/reader/rss_utils.py`);
- the older `RssReader` in `src/rss_class.py`. Its `read_news` prints the raw
  feedparser entries directly, under the suppressing decorator of
  `src/utils.py`.

How the model is built:

- Python's behaviour is spelled out in `python.dfy` (module `Python`). This
  covers exceptions as `Result`, partial output followed by an exception as
  `Run`, slicing with `[0:stop]`, `list.index`, `str` of an integer and
  `str.capitalize`.
- What `feedparser.parse` returns is a value of `FeedParser.RawFeed`. It holds
  the feed title, if there is one, and the entries: their text keys, plus their
  `links` list when they have one.
- Each class is a Dafny `class` whose mutable field is `limit`; the other
  attributes are constants.
- Printing is modelled as the sequence of `print` arguments a method returns.
- Each loop of the source is a `method` with a `while` loop. It is proved
  against a recursive specification function, and the properties of those
  functions are proved as lemmas.
- Unicode NFKC normalisation is taken as a parameter `normalize`.

The model:

- `entities.dfy` (module `Entities`) models the newer class;
- `rss_class.dfy` (module `RssClass`) models the older class;
- `revisions.dfy` (module `Revisions`) proves how the two revisions agree.

Where the code behaves differently from what its documentation or a first reading suggests, the model follows the code:

- A link's printed and stored index is `entry.links.index(link) + 1`
  (`src/reader/rss_entities.py:90`, `:119`, `src/rss_class.py:62`). That is the
  position of the first equal link, so two equal links in one entry share an
  index. The numbers run 1, 2, 3, … only when the links are distinct
  (`Entities.DistinctLinksNumbered`, `Entities.DuplicateLinksShareIndex`).
- The older `check_limit` documents `:return: self.limit`, and
  `src/reader/test/rss_class_test.py:17` expects it to return the limit. The
  code returns nothing, so `RssClass.RssReader.CheckLimit` has no result. The
  newer revision returns the limit (`Entities.RssReader.CheckLimit`).
- The newer `parse_rss` never calls `check_limit`. It slices with the limit as
  given, and a negative limit counts from the end of the entry list.
  `Entities.CheckLimitKeepsRecords` shows that calling `check_limit` first
  would change nothing.

## Model

| member | source | states |
|---|---|---|
| Python.SliceStop | src/reader/rss_entities.py:71 | `entries[0:limit]` takes at most all entries, exactly `limit` of them when `0 <= limit <= n`, and all of them when `limit >= n` |
| Python.ClampKeepsSlice | src/reader/rss_entities.py:57-59 | lowering the limit to the entry count before slicing leaves the slice unchanged |
| Python.IndexOf | src/reader/rss_entities.py:90 | `list.index` returns a position that holds the element, with no equal element before it |
| Python.IndexOfIsFirst | src/reader/rss_entities.py:90 | any first position holding the element is the one `list.index` returns |
| Python.Then | src/rss_class.py:46-62 | defines one printing step after another: once a step has raised, the later steps print nothing and its exception is kept |
| Python.Append | src/reader/rss_entities.py:91-93 | defines `list.append` of the value of a call that may raise: the first exception wins and nothing is appended after it |
| Python.DecimalString | src/reader/rss_entities.py:119 | defines `str(n)` for a non-negative integer; it has at least one character |
| Python.DecimalStringDigits | src/reader/rss_entities.py:119 | the printed link number consists of decimal digits with no leading zero |
| Python.DecimalRoundTrip | src/reader/rss_entities.py:119 | reading the printed link number back gives the number |
| Python.Capitalize | src/reader/rss_entities.py:115 | defines `str.capitalize` on ASCII text; the length is kept |
| Python.CapitalizeSpec | src/reader/rss_entities.py:115 | a capitalized key keeps its length, has its first letter in upper case and the rest in lower case |
| FeedParser.NoAttribute | src/reader/rss_entities.py:68 | defines the message of the `AttributeError` raised when a key the object lacks is read as an attribute (`feed.title`, `link.href`, `link.type`) |
| FeedParser.LinkError | src/reader/rss_entities.py:90 | defines the error of an incomplete link: `href` is read before `type`, so a missing `href` is reported first |
| Entities.SuppressedNotice | src/reader/rss_utils.py:101-104 | defines the notice the suppressing decorator prints, followed by the exception's message |
| Entities.Failure | src/reader/rss_utils.py:78-104 | defines what a method under both decorators prints when its body raises: `Something went wrong...`, then the suppression notice |
| Entities.LinkAt | src/reader/rss_entities.py:90 | defines the record of one raw link: index `list.index + 1`, `href` and `type`, or the `AttributeError` of the first missing one |
| Entities.LinksOf | src/reader/rss_entities.py:87-92 | defines the link loop after `k` links: the records so far, or the first exception |
| Entities.FieldsOf | src/reader/rss_entities.py:75-85 | defines the items of an entry record in insertion order: normalised `title`, `published` as `date`, normalised `link` and `summary`, each when the raw key is present |
| Entities.EntryOf | src/reader/rss_entities.py:72-93 | defines the record of one raw entry: its items and its `links` list, or the exception of its link loop |
| Entities.EntriesOf | src/reader/rss_entities.py:71-93 | defines the entry loop after `k` entries: the records so far, or the first exception |
| Entities.ParseFeed | src/reader/rss_entities.py:68-97 | defines the body of `parse_rss`: the `AttributeError` of a missing title, or the normalised title with the records of `entries[0:limit]` |
| Entities.FieldLine | src/reader/rss_entities.py:115 | defines the line of one item: the capitalised key, `: `, the value |
| Entities.FieldLines | src/reader/rss_entities.py:114-115 | defines the item loop's lines after `k` items |
| Entities.LinkLine | src/reader/rss_entities.py:119 | defines the line of one link record: `[n]: href (type)`, where `n` is 1 plus the `list.index` of the record |
| Entities.LinkLines | src/reader/rss_entities.py:118-119 | defines the link loop's lines after `k` records |
| Entities.EntryLines | src/reader/rss_entities.py:111-119 | defines one entry's block: separator, item lines, then `Links:` and the link lines when the record has `links` |
| Entities.EntriesLines | src/reader/rss_entities.py:110-119 | defines the entry loop's lines: the blocks of the first `k` records, in order |
| Entities.PrintLines | src/reader/rss_entities.py:106-119 | defines the body of `print_rss`: the dictionary in JSON mode; otherwise the `Feed:` line and the entry blocks, with the `KeyError` of a missing `feed` or `entries` |
| Entities.RssReader.constructor | src/reader/rss_entities.py:31-47 | stores the source and flags; the entry count is the number of parsed entries; the limit defaults to that count, and a given limit is stored unchanged |
| Entities.RssReader.CheckLimit | src/reader/rss_entities.py:57-59 | lowers the limit to the entry count when it is larger, keeps it otherwise, and returns the new limit, which is at most the entry count; so a second call changes nothing and returns the same value |
| Entities.CheckLimitKeepsRecords | src/reader/rss_entities.py:71 | the records built from the clamped limit equal those built from the original limit |
| Entities.LinksOfSpec | src/reader/rss_entities.py:87-92 | the link records are built exactly when every link has `href` and `type`: one record per link, in order, holding its `href`, `type` and first-occurrence number; otherwise the error of the first incomplete link |
| Entities.DistinctLinksNumbered | src/reader/rss_entities.py:90 | when an entry's links are pairwise distinct, the record for the j-th link has index j+1 |
| Entities.DuplicateLinksShareIndex | src/reader/rss_entities.py:90 | a link equal to an earlier one gets that earlier link's index |
| Entities.EntryFieldsSpec | src/reader/rss_entities.py:75-85 | an entry record's `title`, `link` and `summary` are the normalised raw values, its `date` is the raw `published`, and each is absent exactly when the raw key is |
| Entities.EntryFieldsOrdered | src/reader/rss_entities.py:75-85 | an entry record holds only `title`, `date`, `link`, `summary`, each at most once, in that order |
| Entities.EntryOfSpec | src/reader/rss_entities.py:72-93 | building an entry fails exactly when one of its links is incomplete; on success the record has the built fields and a `links` list, empty when the raw entry has none |
| Entities.EntriesOfSpec | src/reader/rss_entities.py:71-93 | the entry loop succeeds exactly when every visited entry builds, and then gives their records in order |
| Entities.EntriesOfFirstFailure | src/reader/rss_entities.py:71-93 | when the entry loop fails, its error is that of the first visited entry whose record fails, all entries before it having built |
| Entities.ParseFeedSpec | src/reader/rss_entities.py:68-97 | parsing fails exactly when the feed has no title or a visited entry has an incomplete link; on success `feed` is the normalised title and `entries` holds the records of the first `limit` entries |
| Entities.BuildLinks | src/reader/rss_entities.py:87-92 | the link loop returns the link records, or raises the first incomplete link's error |
| Entities.BuildEntry | src/reader/rss_entities.py:72-93 | the loop body builds the entry record the specification gives |
| Entities.RssReader.ParseRss | src/reader/rss_entities.py:61-97 | returns the parsed dictionary and prints nothing; when parsing raises, prints the logging notice and the suppression notice with the exception's message, and returns `None` |
| Entities.FieldLinesAt | src/reader/rss_entities.py:114-115 | one `Key: value` line per stored item, in the record's order, the key capitalized |
| Entities.LinkLinesAt | src/reader/rss_entities.py:118-119 | one `[index]: href (type)` line per link record, in order |
| Entities.EntryLinesShape | src/reader/rss_entities.py:110-119 | an entry prints the separator, its item lines, then the `Links:` header and its link lines when it has `links` |
| Entities.PrintedIndexIsStored | src/reader/rss_entities.py:119 | the number `print_rss` prints for a link built by `parse_rss` is the index stored in its record |
| Entities.LastLineIsLastLink | src/reader/rss_entities.py:109-119 | in text mode, when the last entry has links, the last printed line is its last link's line |
| Entities.JsonModePrintsDictOnce | src/reader/rss_entities.py:106-107 | in JSON mode the dictionary is printed once and nothing else is printed |
| Entities.TextModeWithoutFeedKey | src/reader/rss_reader_test.py:13-21 | the test dictionary has no `feed` key, so text-mode printing raises `KeyError('feed')` before any entry line and never prints the link line |
| Entities.SingleLinkEntryEndsWithItsLine | src/reader/rss_reader_test.py:96-103 | with a `feed` key, a last entry with one link ends the text output with `[1]: href (type)` |
| Entities.ParsedFeedPrinted | src/reader/rss_entities.py:68-119 | for a dictionary `parse_rss` built, text-mode `print_rss` prints the line of the normalised feed title, then the blocks of the records of `entries[0:limit]`, where the i-th record is the one built from the i-th raw entry |
| Entities.PrintFields | src/reader/rss_entities.py:114-115 | the item loop prints the item lines |
| Entities.PrintLinks | src/reader/rss_entities.py:118-119 | the link loop prints the link lines |
| Entities.PrintEntry | src/reader/rss_entities.py:111-119 | the loop body prints one entry's block |
| Entities.PrintEntries | src/reader/rss_entities.py:110-119 | the entry loop prints each entry's block, in order |
| Entities.RssReader.PrintRss | src/reader/rss_entities.py:99-119 | prints the dictionary in JSON mode. In text mode prints the `Feed:` line and every entry block. A missing `feed` or `entries` key prints the lines before it and then the two notices |
| Entities.RssReader.ReadAndPrint | src/reader/rss_reader.py:20-23 | the command-line sequence `check_limit`, `parse_rss`, then `print_rss` when a dictionary came back: clamps the limit and prints either the two failure notices or what `print_rss` prints for the records of the limit it was given |
| RssClass.SuppressedNotice | src/utils.py:11 | defines the notice the suppressing decorator prints, followed by the exception's message |
| RssClass.Shown | src/utils.py:4-13 | the printed lines come first; when the body raised, the suppression notice with the exception's message is printed last |
| RssClass.RssReader.constructor | src/rss_class.py:7-23 | stores the source and flags; the entry count is the number of parsed entries; the limit defaults to that count, and a given limit is stored unchanged |
| RssClass.RssReader.CheckLimit | src/rss_class.py:25-32 | lowers the limit to the entry count when it is larger, and keeps it otherwise |
| RssClass.CheckLimitKeepsOutput | src/rss_class.py:25-46 | the output after clamping the limit equals the output with the original limit, and a limit larger than the feed prints every entry, as `check_limit` documents |
| RssClass.LinkText | src/rss_class.py:62 | defines the line of a complete raw link: `[n]: href (type)`, where `n` is 1 plus the `list.index` of the raw link |
| RssClass.LinkRun | src/rss_class.py:62 | defines printing one raw link: its line, or the `AttributeError` of a missing `href` or `type` |
| RssClass.LinksRun | src/rss_class.py:61-62 | defines the link loop after `k` links: the lines so far and the exception that stopped it |
| RssClass.KeyLine | src/rss_class.py:50-57 | defines the line of one of the four keys, when the entry has it |
| RssClass.HeadLines | src/rss_class.py:49-57 | defines the separator followed by the title, date, link and summary lines |
| RssClass.EntryRun | src/rss_class.py:49-62 | defines printing one entry: head lines, then `Links:` and the link loop when it has `links` |
| RssClass.EntriesRun | src/rss_class.py:46-62 | defines the entry loop after `k` entries: the lines so far and the exception that stopped it |
| RssClass.ReadNewsRun | src/rss_class.py:44-62 | defines the body of `read_news` after `check_limit`: the `AttributeError` of a missing title, or the `Feed:` line followed by the entry loop over `entries[0:limit]` |
| RssClass.LinksRunSpec | src/rss_class.py:59-62 | the link loop prints one line per link, in order, up to the first link lacking `href` or `type`, and raises that link's error exactly when there is one |
| RssClass.HeadLinesSpec | src/rss_class.py:49-57 | an entry prints the separator and then, in the order title, date, link, summary, one line for each of those keys it has |
| RssClass.EntryRunSpec | src/rss_class.py:49-62 | an entry prints its head lines, then the `Links:` header and the link lines when it has `links`, and raises exactly when one of its links is incomplete |
| RssClass.EntriesRunSpec | src/rss_class.py:46-62 | the entry loop raises exactly when one of the visited entries has an incomplete link; it then stops at the first such entry, having printed the lines of the entries before it and that entry's lines, and raises that entry's error |
| RssClass.EntriesRunPrefix | src/rss_class.py:46-62 | the entries are printed in feed order: what the loop printed after `j` entries begins what it printed after `k >= j` entries |
| RssClass.EntriesRunSlice | src/rss_class.py:46 | the loop over the first `k` entries gives the same result for any two entry lists that agree on those `k` entries |
| RssClass.ReadNewsRunSpec | src/rss_class.py:42-62 | prints `Feed:` first, followed by exactly what the entry loop over `entries[0:limit]` prints, and raises exactly when the feed has no title or a visited entry has an incomplete link. A missing title prints only the suppression notice |
| RssClass.ReadNewsOnlyVisited | src/rss_class.py:46 | the feed cut down to `entries[0:limit]` prints the same as the whole feed: the entries past the slice are never read |
| RssClass.PrintLinks | src/rss_class.py:59-62 | the link loop prints what the link specification gives and raises its error |
| RssClass.PrintEntry | src/rss_class.py:47-62 | the loop body prints what the entry specification gives and raises its error |
| RssClass.PrintEntries | src/rss_class.py:46-62 | the entry loop prints each entry in order and stops at the first exception |
| RssClass.RssReader.ReadNews | src/rss_class.py:34-62 | clamps the limit to the entry count. Prints what the read specification gives for the clamped limit, which equals the output for the limit it was called with |
| Revisions.SameLinkFailures | src/rss_class.py:61-62 | printing a link list raises in the older revision exactly when building its records raises in the newer one, with the same message |
| Revisions.SameEntryFailures | src/rss_class.py:47-62 | printing an entry raises in the older revision exactly when building its record raises in the newer one, with the same message |
| Revisions.SameEntriesFailures | src/rss_class.py:46-62 | the two revisions' entry loops raise on the same inputs with the same message |
| Revisions.SameFailures | src/rss_class.py:42-62 | for the same feed and limit, `read_news` raises exactly when `parse_rss` raises, with the same message |
| Revisions.SameItemOrder | src/rss_class.py:49-57 | the older revision prints an entry's items in the order in which the newer one stores them |
| Revisions.OldItemLineIsNewFieldLine | src/rss_class.py:51-55 | the older date and link lines equal the newer `Key: value` lines, and the older title line is the newer one after a blank line |
| Revisions.SameLinkLines | src/rss_class.py:61-62 | when all links are complete, both revisions print the same link lines with the same numbers |

## Left out

- Fetching and parsing the feed (`feedparser.parse`) happens over the network in a library. The parsed feed is a constructor parameter.
- `unicodedata.normalize("NFKC", …)` is the uninterpreted parameter `normalize`. Unicode normalisation is not modelled.
- Python.Capitalize: handles only ASCII letters, not the full Unicode case mapping of `str.capitalize`.
- Logging (`get_logger`, the logger's messages, the `verbose` flag's effect) is not modelled. The logging decorator is modelled only by the notice it prints and by the exception it re-raises with the same message. The `verbose` flag is only stored.
- Entities.RssReader.CheckLimit: the logging decorator wraps it, but a comparison of integers cannot raise, so the model has no exception path for it.
- Entities.RssReader.PrintRss: JSON mode prints the dictionary's `repr`. The model records the printed value `Dict(r)`, not its characters.
- Entities.RssReader.PrintRss: the dictionary is modelled only in the shape `parse_rss` produces, where every link record has `href` and `type`, `links` comes last, and `entries` is a list. Other shapes, and the `KeyError` or `TypeError` they would raise, are not represented.
- Argument parsing (`parse_argument`) is not part of this model. Of the `main` of `src/reader/rss_reader.py`, the model keeps the calls after the reader is built, as `Entities.RssReader.ReadAndPrint`.
- The top-level `rss_reader.py` calls `parse_rss` and `print_rss` on the older class, which defines neither, and imports a `parse_argument` that `src/utils.py` lacks. It is not modelled.
- `pass_to_html` and `pass_to_pdf`, which the tests import, and the `rss_exeptions` module are not part of this model.
- `RssReaderException` appears only through its message, which is the original exception's message.
- The tests in `src/reader/rss_reader_test.py:92` and `:101` construct `RssReader` with five arguments, which `__init__` does not accept. The test scenarios are modelled on the dictionary only.
- The test at `src/reader/test/rss_class_test.py:33` calls `print_rss` on the older class, which has no such method. It is not modelled.
- A feedparser entry is read through attribute access (`entry.title`). The model reads the same keys from a map. Every entry key is read only after a `keys()` test, so an absent key is an `Option`, not an exception. Only `feed.title` and a link's `href` and `type` are read unguarded; a missing one raises feedparser's `AttributeError` message.
- The constructors take every argument explicitly. The Python defaults (`json=True, verbose=True` at `src/reader/rss_entities.py:31`, `json=None, verbose=None` at `src/rss_class.py:7`) are not modelled; only the `limit=None` default is, as `Option`.
- Printed output is collected section by section, and each loop and loop body is its own method. The order of printed lines is the source's.

## Findings

| source | as written | input that shows it | evidently intended | confidence | as-written member | corrected member |
|---|---|---|---|---|---|---|
| src/reader/rss_reader_test.py:13-21 | the test dictionary nests `feed` inside the entry instead of at the top level, so text-mode `print_rss` raises `KeyError('feed')` at its first line, and the last print is the suppression notice | the module-level `rss_json` with `json=False` | a top-level `feed` key, after which the last printed line is `[1]: https://test_news/1.html (text/html)` as line 103 expects | not executed | Entities.TextModeWithoutFeedKey | Entities.SingleLinkEntryEndsWithItsLine |
