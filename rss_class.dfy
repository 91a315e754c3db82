/**
 * The older revision of the reader (src/rss_class.py): an `RssReader` object
 * whose `read_news` clamps `limit` to the feed size and prints the first
 * `limit` raw entries directly, line by line. Its decorator (src/utils.py)
 * turns any exception into a printed notice and a `None` result, so whatever
 * was printed before the exception stays on the screen.
 */
module RssClass {
  import opened Python
  import opened FeedParser

  const Separator: string := "\n----------------------"
  const LinksHeader: string := "\nLinks:"

  /** Printed by the exception-suppressing decorator about the exception it swallowed. */
  function SuppressedNotice(message: string): string
  {
    "Please check if the link is correct and try again. \nThe following exception was suppressed: " + message
  }

  /** What the screen shows after a decorated run: its lines, then the notice if it raised. */
  function Shown(run: Run<string>): (out: seq<string>)
    ensures run.lines <= out
    ensures run.raised.None? ==> out == run.lines
    ensures run.raised.Some? ==> |out| == |run.lines| + 1 && out[|run.lines|] == SuppressedNotice(run.raised.value)
  {
    if run.raised.Some? then run.lines + [SuppressedNotice(run.raised.value)] else run.lines
  }

  // ---------------------------------------------------------------- one entry

  /** The line of a complete raw link, numbered by `list.index` over the raw list. */
  function LinkText(raw: seq<RawLink>, j: nat): string
    requires j < |raw| && LinkComplete(raw[j])
  {
    "[" + DecimalString(IndexOf(raw, raw[j]) + 1) + "]: " + raw[j]["href"] + " (" + raw[j]["type"] + ")"
  }

  /** Printing the `j`-th link: its line, or the exception raised by reading `href` or `type`. */
  function LinkRun(raw: seq<RawLink>, j: nat): Run<string>
    requires j < |raw|
  {
    if LinkComplete(raw[j]) then Run([LinkText(raw, j)], None) else Run([], Some(LinkError(raw[j])))
  }

  /** The link loop after it has visited the first `k` links. */
  function LinksRun(raw: seq<RawLink>, k: nat): Run<string>
    requires k <= |raw|
  {
    if k == 0 then Run([], None) else Then(LinksRun(raw, k - 1), LinkRun(raw, k - 1))
  }

  /** The line for `key` with the given prefix, when the entry has that key. */
  function KeyLine(e: RawEntry, key: string, prefix: string): seq<string>
  {
    if key in e.fields then [prefix + e.fields[key]] else []
  }

  /** The separator, then the title, date, link and summary lines of the keys the entry has. */
  function HeadLines(e: RawEntry): seq<string>
  {
    [Separator] + KeyLine(e, "title", "\nTitle: ") + KeyLine(e, "published", "Date: ")
    + KeyLine(e, "link", "Link: ") + KeyLine(e, "summary", "\n")
  }

  /** Printing one entry: its head lines, then the links section when the entry has `links`. */
  function EntryRun(e: RawEntry): Run<string>
  {
    if e.links.Some? then Then(Run(HeadLines(e) + [LinksHeader], None), LinksRun(e.links.value, |e.links.value|))
    else Run(HeadLines(e), None)
  }

  /** The entry loop after it has visited the first `k` entries. */
  function EntriesRun(es: seq<RawEntry>, k: nat): Run<string>
    requires k <= |es|
  {
    if k == 0 then Run([], None) else Then(EntriesRun(es, k - 1), EntryRun(es[k - 1]))
  }

  /** The body of `read_news` once `check_limit` has run: the feed line, then the entries of `feed.entries[0:limit]`. */
  function ReadNewsRun(feed: RawFeed, limit: int): Run<string>
  {
    if feed.title.None? then Run([], Some(NoAttribute("title")))
    else Then(Run(["\nFeed: " + feed.title.value], None), EntriesRun(feed.entries, SliceStop(limit, |feed.entries|)))
  }

  /** An entry whose links (if it has any) all have an `href` and a `type`. */
  predicate EntryComplete(e: RawEntry)
  {
    e.links.Some? ==> CompleteUpTo(e.links.value, |e.links.value|)
  }

  /** 1 when the entry has `key`, 0 otherwise. */
  function Present(e: RawEntry, key: string): nat
  {
    if key in e.fields then 1 else 0
  }

  /** The number of the four keys `title`, `published`, `link`, `summary` the entry has. */
  function KeyCount(e: RawEntry): nat
  {
    Present(e, "title") + Present(e, "published") + Present(e, "link") + Present(e, "summary")
  }

  // ---------------------------------------------------------------- lemmas

  /** Once the link loop has raised, visiting more links does not change what was printed. */
  lemma {:induction false} LinksStayRaised(raw: seq<RawLink>, k: nat, k': nat)
    requires k <= k' <= |raw|
    requires LinksRun(raw, k).raised.Some?
    ensures LinksRun(raw, k') == LinksRun(raw, k)
    decreases k' - k
  {
    if k < k' {
      LinksStayRaised(raw, k, k' - 1);
    }
  }

  /** One more turn of the link loop: the link's line, or its error after the lines so far. */
  lemma LinksRunStep(raw: seq<RawLink>, j: nat, lines: seq<string>)
    requires j < |raw| && LinksRun(raw, j) == Run(lines, None)
    ensures LinkComplete(raw[j]) ==> LinksRun(raw, j + 1) == Run(lines + [LinkText(raw, j)], None)
    ensures !LinkComplete(raw[j]) ==> LinksRun(raw, j + 1) == Run(lines, Some(LinkError(raw[j])))
  {
  }

  /** Once the entry loop has raised, visiting more entries does not change what was printed. */
  lemma {:induction false} EntriesStayRaised(es: seq<RawEntry>, k: nat, k': nat)
    requires k <= k' <= |es|
    requires EntriesRun(es, k).raised.Some?
    ensures EntriesRun(es, k') == EntriesRun(es, k)
    decreases k' - k
  {
    if k < k' {
      EntriesStayRaised(es, k, k' - 1);
    }
  }

  /**
   * The link loop prints one line per link, in order, up to the first link
   * without an `href` or a `type`, and raises exactly when there is such a
   * link: that link's error, after the lines of the links before it.
   */
  lemma {:induction false} LinksRunSpec(raw: seq<RawLink>, k: nat)
    requires k <= |raw|
    ensures |LinksRun(raw, k).lines| <= k
    ensures LinksRun(raw, k).raised.None? <==> CompleteUpTo(raw, k)
    ensures LinksRun(raw, k).raised.None? ==> |LinksRun(raw, k).lines| == k
    ensures CompleteUpTo(raw, |LinksRun(raw, k).lines|)
    ensures forall j :: 0 <= j < |LinksRun(raw, k).lines| ==> LinksRun(raw, k).lines[j] == LinkText(raw, j)
    ensures LinksRun(raw, k).raised.Some? ==>
      |LinksRun(raw, k).lines| < k && !LinkComplete(raw[|LinksRun(raw, k).lines|]) &&
      LinksRun(raw, k).raised.value == LinkError(raw[|LinksRun(raw, k).lines|])
  {
    if k > 0 {
      LinksRunSpec(raw, k - 1);
      var r := LinksRun(raw, k - 1);
      if r.raised.None? {
        assert CompleteUpTo(raw, k - 1);
        if LinkComplete(raw[k - 1]) {
          assert LinksRun(raw, k).lines == r.lines + [LinkText(raw, k - 1)];
          assert CompleteUpTo(raw, k);
        } else {
          assert LinksRun(raw, k).lines == r.lines;
        }
      }
    }
  }

  /**
   * An entry's head lines are its separator, then one line for each of the
   * keys `title`, `published`, `link`, `summary` it has, in that fixed order,
   * each carrying that key's value.
   */
  lemma HeadLinesSpec(e: RawEntry)
    ensures |HeadLines(e)| == 1 + KeyCount(e) && HeadLines(e)[0] == Separator
    ensures "title" in e.fields ==> HeadLines(e)[1] == "\nTitle: " + e.fields["title"]
    ensures "published" in e.fields ==> HeadLines(e)[1 + Present(e, "title")] == "Date: " + e.fields["published"]
    ensures "link" in e.fields ==>
      HeadLines(e)[1 + Present(e, "title") + Present(e, "published")] == "Link: " + e.fields["link"]
    ensures "summary" in e.fields ==> HeadLines(e)[KeyCount(e)] == "\n" + e.fields["summary"]
  {
    var t := KeyLine(e, "title", "\nTitle: ");
    var d := KeyLine(e, "published", "Date: ");
    var l := KeyLine(e, "link", "Link: ");
    var m := KeyLine(e, "summary", "\n");
    assert HeadLines(e) == [Separator] + t + d + l + m;
    if "published" in e.fields {
      assert ([Separator] + t + d + l + m)[1 + |t|] == d[0];
    }
    if "link" in e.fields {
      assert ([Separator] + t + d + l + m)[1 + |t| + |d|] == l[0];
    }
    if "summary" in e.fields {
      assert ([Separator] + t + d + l + m)[1 + |t| + |d| + |l|] == m[0];
    }
  }

  /**
   * An entry prints its head lines first, then, when it has `links`, the
   * `Links:` header and the lines of the link loop; its printing raises exactly
   * when one of its links is incomplete.
   */
  lemma EntryRunSpec(e: RawEntry)
    ensures HeadLines(e) <= EntryRun(e).lines
    ensures EntryRun(e).raised.None? <==> EntryComplete(e)
    ensures e.links.None? ==> EntryRun(e).lines == HeadLines(e)
    ensures e.links.Some? ==>
      EntryRun(e).lines[|HeadLines(e)|] == LinksHeader &&
      EntryRun(e).lines[|HeadLines(e)| + 1..] == LinksRun(e.links.value, |e.links.value|).lines &&
      EntryRun(e).raised == LinksRun(e.links.value, |e.links.value|).raised
  {
    if e.links.Some? {
      LinksRunSpec(e.links.value, |e.links.value|);
      var head := HeadLines(e) + [LinksHeader];
      var rest := LinksRun(e.links.value, |e.links.value|).lines;
      assert EntryRun(e).lines == head + rest;
      assert (head + rest)[..|HeadLines(e)|] == HeadLines(e);
      assert (head + rest)[|HeadLines(e)| + 1..] == rest;
    }
  }

  /**
   * The entry loop raises exactly when one of the visited entries has an
   * incomplete link. It then stops at the first such entry: it has printed the
   * lines of the entries before it and that entry's lines up to the failing
   * link, and raises that entry's error.
   */
  lemma {:induction false} EntriesRunSpec(es: seq<RawEntry>, k: nat)
    requires k <= |es|
    ensures EntriesRun(es, k).raised.None? <==> forall i :: 0 <= i < k ==> EntryComplete(es[i])
    ensures EntriesRun(es, k).raised.Some? ==>
      exists f :: 0 <= f < k && (forall i :: 0 <= i < f ==> EntryComplete(es[i])) && !EntryComplete(es[f]) &&
        EntriesRun(es, k).lines == EntriesRun(es, f).lines + EntryRun(es[f]).lines &&
        EntriesRun(es, k).raised == EntryRun(es[f]).raised
  {
    if k > 0 {
      EntriesRunSpec(es, k - 1);
      EntryRunSpec(es[k - 1]);
      if EntriesRun(es, k - 1).raised.Some? {
        var f :| 0 <= f < k - 1 && (forall i :: 0 <= i < f ==> EntryComplete(es[i])) && !EntryComplete(es[f]) &&
          EntriesRun(es, k - 1).lines == EntriesRun(es, f).lines + EntryRun(es[f]).lines &&
          EntriesRun(es, k - 1).raised == EntryRun(es[f]).raised;
      }
    }
  }

  /** What the entry loop printed after `j` entries is the beginning of what it printed after `k >= j` entries. */
  lemma {:induction false} EntriesRunPrefix(es: seq<RawEntry>, j: nat, k: nat)
    requires j <= k <= |es|
    ensures EntriesRun(es, j).lines <= EntriesRun(es, k).lines
    decreases k
  {
    if j < k {
      EntriesRunPrefix(es, j, k - 1);
    }
  }

  /** The entry loop over the first `k` entries reads nothing past them. */
  lemma {:induction false} EntriesRunSlice(es: seq<RawEntry>, others: seq<RawEntry>, k: nat)
    requires k <= |es| && k <= |others| && es[..k] == others[..k]
    ensures EntriesRun(es, k) == EntriesRun(others, k)
  {
    if k > 0 {
      assert es[..k - 1] == others[..k - 1] by {
        assert es[..k - 1] == es[..k][..k - 1];
        assert others[..k - 1] == others[..k][..k - 1];
      }
      assert es[k - 1] == es[..k][k - 1] == others[k - 1];
      EntriesRunSlice(es, others, k - 1);
    }
  }

  /**
   * `read_news` prints `"\nFeed: <title>"` first whenever the feed has a title,
   * and its body raises exactly when the feed has no title (with feedparser's
   * message) or one of the rendered entries has an incomplete link.
   */
  lemma ReadNewsRunSpec(feed: RawFeed, limit: int)
    ensures ReadNewsRun(feed, limit).raised.None? <==>
      feed.title.Some? &&
      forall i :: 0 <= i < SliceStop(limit, |feed.entries|) ==> EntryComplete(feed.entries[i])
    ensures feed.title.None? ==> Shown(ReadNewsRun(feed, limit)) == [SuppressedNotice(NoAttribute("title"))]
    ensures feed.title.Some? ==>
      |ReadNewsRun(feed, limit).lines| >= 1 && ReadNewsRun(feed, limit).lines[0] == "\nFeed: " + feed.title.value
    ensures feed.title.Some? ==>
      ReadNewsRun(feed, limit).lines[1..] == EntriesRun(feed.entries, SliceStop(limit, |feed.entries|)).lines
  {
    EntriesRunSpec(feed.entries, SliceStop(limit, |feed.entries|));
  }

  /**
   * `read_news` prints only from `feed.entries[0:limit]`: the feed cut down to
   * those entries, read with no limit, prints the same.
   */
  lemma ReadNewsOnlyVisited(feed: RawFeed, limit: int)
    ensures var stop := SliceStop(limit, |feed.entries|);
      ReadNewsRun(feed, limit) == ReadNewsRun(RawFeed(feed.title, feed.entries[..stop]), stop)
  {
    var stop := SliceStop(limit, |feed.entries|);
    EntriesRunSlice(feed.entries, feed.entries[..stop], stop);
  }

  /**
   * Lowering `limit` to the feed size before slicing does not change what is
   * printed, and a `limit` larger than the feed prints every entry.
   */
  lemma CheckLimitKeepsOutput(feed: RawFeed, limit: int)
    ensures ReadNewsRun(feed, Min(limit, |feed.entries|)) == ReadNewsRun(feed, limit)
    ensures |feed.entries| <= limit ==> ReadNewsRun(feed, limit) == ReadNewsRun(feed, |feed.entries|)
  {
    ClampKeepsSlice(limit, |feed.entries|);
  }

  // ---------------------------------------------------------------- the loop bodies

  /** The body of the entry loop of `read_news`: the lines of one entry and the exception that stopped them, if any. */
  method PrintEntry(entry: RawEntry) returns (lines: seq<string>, raised: Option<string>)
    ensures Run(lines, raised) == EntryRun(entry)
  {
    lines := [Separator];
    if "title" in entry.fields {
      lines := lines + ["\nTitle: " + entry.fields["title"]];
    }
    assert lines == [Separator] + KeyLine(entry, "title", "\nTitle: ");
    if "published" in entry.fields {
      lines := lines + ["Date: " + entry.fields["published"]];
    }
    assert lines == [Separator] + KeyLine(entry, "title", "\nTitle: ") + KeyLine(entry, "published", "Date: ");
    if "link" in entry.fields {
      lines := lines + ["Link: " + entry.fields["link"]];
    }
    assert lines == [Separator] + KeyLine(entry, "title", "\nTitle: ") + KeyLine(entry, "published", "Date: ")
      + KeyLine(entry, "link", "Link: ");
    if "summary" in entry.fields {
      lines := lines + ["\n" + entry.fields["summary"]];
    }
    assert lines == HeadLines(entry);
    raised := None;
    if entry.links.Some? {
      var linkLines;
      linkLines, raised := PrintLinks(entry.links.value);
      lines := lines + [LinksHeader] + linkLines;
    }
  }

  /** The link loop of `read_news`: the lines printed and the exception that stopped the loop, if any. */
  method PrintLinks(raw: seq<RawLink>) returns (lines: seq<string>, raised: Option<string>)
    ensures Run(lines, raised) == LinksRun(raw, |raw|)
  {
    lines := [];
    var j := 0;
    while j < |raw|
      invariant 0 <= j <= |raw|
      invariant LinksRun(raw, j) == Run(lines, None)
    {
      LinksRunStep(raw, j, lines);
      if !("href" in raw[j] && "type" in raw[j]) {
        LinksStayRaised(raw, j + 1, |raw|);
        return lines, Some(LinkError(raw[j]));
      }
      lines := lines + [LinkText(raw, j)];
      j := j + 1;
    }
    raised := None;
  }

  /**
   * The entry loop of `read_news` over `entries[0:stop]`: the lines printed and
   * the exception that stopped the loop, if any.
   */
  method PrintEntries(entries: seq<RawEntry>, stop: nat) returns (lines: seq<string>, raised: Option<string>)
    requires stop <= |entries|
    ensures Run(lines, raised) == EntriesRun(entries, stop)
  {
    lines := [];
    var i := 0;
    while i < stop
      invariant 0 <= i <= stop
      invariant EntriesRun(entries, i) == Run(lines, None)
    {
      var entryLines, entryRaised := PrintEntry(entries[i]);
      if entryRaised.Some? {
        EntriesStayRaised(entries, i + 1, stop);
        return lines + entryLines, entryRaised;
      }
      lines := lines + entryLines;
      i := i + 1;
    }
    raised := None;
  }

  // ---------------------------------------------------------------- the object

  class RssReader {
    const rssSource: string
    const json: Option<bool>
    const verbose: Option<bool>
    /** The result of `feedparser.parse(rssSource)`. */
    const newsFeed: RawFeed
    const numberNews: nat
    var limit: int

    ghost predicate Valid()
    {
      numberNews == |newsFeed.entries|
    }

    /** `limit` defaults to the number of feed entries; a given limit is stored as it is. */
    constructor (rssSource: string, limit: Option<int>, json: Option<bool>, verbose: Option<bool>, parsed: RawFeed)
      ensures Valid()
      ensures this.rssSource == rssSource && this.json == json && this.verbose == verbose
      ensures newsFeed == parsed && numberNews == |parsed.entries|
      ensures this.limit == if limit.None? then |parsed.entries| else limit.value
    {
      this.rssSource := rssSource;
      this.json := json;
      this.verbose := verbose;
      this.newsFeed := parsed;
      this.numberNews := |parsed.entries|;
      if limit.None? {
        this.limit := |parsed.entries|;
      } else {
        this.limit := limit.value;
      }
    }

    /** Lowers `limit` to the feed size when it is larger; returns nothing. */
    method CheckLimit()
      requires Valid()
      modifies this`limit
      ensures limit == Min(old(limit), numberNews)
      ensures old(limit) <= numberNews ==> limit == old(limit)
    {
      if limit > numberNews {
        limit := numberNews;
      }
    }

    /**
     * Prints the feed title and the first `limit` entries. An exception stops
     * the printing; the decorator then prints its notice, and the call returns
     * `None` either way.
     */
    method ReadNews() returns (emitted: seq<string>)
      requires Valid()
      modifies this`limit
      ensures limit == Min(old(limit), numberNews) && limit <= numberNews
      ensures emitted == Shown(ReadNewsRun(newsFeed, limit))
      ensures emitted == Shown(ReadNewsRun(newsFeed, old(limit)))
    {
      CheckLimit();
      CheckLimitKeepsOutput(newsFeed, old(limit));
      if newsFeed.title.None? {
        return [SuppressedNotice(NoAttribute("title"))];
      }
      var feedLine := "\nFeed: " + newsFeed.title.value;
      var lines, raised := PrintEntries(newsFeed.entries, SliceStop(limit, numberNews));
      emitted := Shown(Run([feedLine] + lines, raised));
    }
  }
}
