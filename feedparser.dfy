/**
 * The shape of what `feedparser.parse(url)` returns, as far as the reader
 * looks at it. Fetching and decoding the feed happen in that library; the
 * model takes its result as given.
 */
module FeedParser {
  import opened Python

  /** One element of an entry's `links` list: its attributes (usually `rel`, `type` and `href`). */
  type RawLink = map<string, string>

  /**
   * One feed entry: its text-valued keys (`title`, `published`, `link`,
   * `summary`, ...) and, when the entry has a `links` key, that list.
   */
  datatype RawEntry = RawEntry(fields: map<string, string>, links: Option<seq<RawLink>>)

  /** A parsed feed: `feed.title` when the feed has one, and the `entries` list. */
  datatype RawFeed = RawFeed(title: Option<string>, entries: seq<RawEntry>)

  /** The message of the `AttributeError` raised when a missing key is read as an attribute. */
  function NoAttribute(key: string): string
  {
    "object has no attribute '" + key + "'"
  }

  /** A link whose `href` and `type` can both be read. */
  predicate LinkComplete(link: RawLink)
  {
    "href" in link && "type" in link
  }

  /** The first `k` links are complete. */
  predicate CompleteUpTo(links: seq<RawLink>, k: nat)
    requires k <= |links|
  {
    forall j :: 0 <= j < k ==> LinkComplete(links[j])
  }

  /** Reading `link.href` and then `link.type` fails on the first of the two that is missing. */
  function LinkError(link: RawLink): string
    requires !LinkComplete(link)
  {
    if "href" !in link then NoAttribute("href") else NoAttribute("type")
  }
}
