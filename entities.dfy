/**
 * The newer revision of the reader (src/reader/rss_entities.py): an
 * `RssReader` object that clamps its `limit` to the feed size, turns the
 * first `limit` raw entries into JSON-shaped records (`parse_rss`) and
 * prints those records as text or as the dictionary itself (`print_rss`).
 *
 * Printing is modelled by the sequence of values handed to `print`, in order.
 * Unicode NFKC normalisation is the parameter `normalize`, about which nothing
 * is assumed.
 */
module Entities {
  import opened Python
  import opened FeedParser

  /** A link record `{"index": ..., "href": ..., "type": ...}`. */
  datatype LinkJson = LinkJson(index: int, href: string, linkType: string)

  /**
   * An entry dictionary: its items other than `links`, in insertion order,
   * and the `links` list when the dictionary has that key.
   */
  datatype EntryJson = EntryJson(fields: seq<(string, string)>, links: Option<seq<LinkJson>>)

  /** The dictionary `parse_rss` returns and `print_rss` renders; either key may be absent. */
  datatype FeedJson = FeedJson(feed: Option<string>, entries: Option<seq<EntryJson>>)

  /** One call of `print`: a line of text, or (in JSON mode) the dictionary itself. */
  datatype Printed = Text(line: string) | Dict(value: FeedJson)

  const Separator: string := "\n----------------------\n"
  const LinksHeader: string := "\nLinks:"

  /** Printed by the logging decorator when the method it wraps raises. */
  const FailureNotice: string := "Something went wrong..."

  /** Printed by the exception-suppressing decorator about the exception it swallowed. */
  function SuppressedNotice(message: string): string
  {
    "Please, check the rss link and start over. \nThe following exception was suppressed: " + message
  }

  /** Everything a decorated method prints when its body raises with `message`; the call then returns `None`. */
  function Failure(message: string): seq<Printed>
  {
    [Text(FailureNotice), Text(SuppressedNotice(message))]
  }

  // ---------------------------------------------------------------- parse_rss

  /** The record built for the `j`-th raw link; reading a missing `href` or `type` raises. */
  function LinkAt(raw: seq<RawLink>, j: nat): Result<LinkJson>
    requires j < |raw|
  {
    if !LinkComplete(raw[j]) then Raised(LinkError(raw[j]))
    else Returned(LinkJson(IndexOf(raw, raw[j]) + 1, raw[j]["href"], raw[j]["type"]))
  }

  /** The `links` list after the loop has visited the first `k` raw links. */
  function LinksOf(raw: seq<RawLink>, k: nat): Result<seq<LinkJson>>
    requires k <= |raw|
  {
    if k == 0 then Returned([]) else Append(LinksOf(raw, k - 1), LinkAt(raw, k - 1))
  }

  /** The scalar items of an entry record, in the order they are inserted. */
  function FieldsOf(e: RawEntry, normalize: string -> string): seq<(string, string)>
  {
    (if "title" in e.fields then [("title", normalize(e.fields["title"]))] else [])
    + (if "published" in e.fields then [("date", e.fields["published"])] else [])
    + (if "link" in e.fields then [("link", normalize(e.fields["link"]))] else [])
    + (if "summary" in e.fields then [("summary", normalize(e.fields["summary"]))] else [])
  }

  /** The record built for one raw entry. */
  function EntryOf(e: RawEntry, normalize: string -> string): Result<EntryJson>
  {
    var links := if e.links.Some? then LinksOf(e.links.value, |e.links.value|) else Returned([]);
    match links
    case Raised(m) => Raised(m)
    case Returned(ls) => Returned(EntryJson(FieldsOf(e, normalize), Some(ls)))
  }

  /** The `entries` list after the loop has visited the first `k` raw entries. */
  function EntriesOf(es: seq<RawEntry>, k: nat, normalize: string -> string): Result<seq<EntryJson>>
    requires k <= |es|
  {
    if k == 0 then Returned([]) else Append(EntriesOf(es, k - 1, normalize), EntryOf(es[k - 1], normalize))
  }

  /** What the body of `parse_rss` returns or raises for a feed and a limit. */
  function ParseFeed(feed: RawFeed, limit: int, normalize: string -> string): Result<FeedJson>
  {
    if feed.title.None? then Raised(NoAttribute("title"))
    else match EntriesOf(feed.entries, SliceStop(limit, |feed.entries|), normalize)
      case Raised(m) => Raised(m)
      case Returned(es) => Returned(FeedJson(Some(normalize(feed.title.value)), Some(es)))
  }

  /** The value stored under `key` in a list of items with distinct keys. */
  function Lookup(fields: seq<(string, string)>, key: string): Option<string>
  {
    if fields == [] then None
    else if fields[0].0 == key then Some(fields[0].1)
    else Lookup(fields[1..], key)
  }

  function Get(m: map<string, string>, key: string): Option<string>
  {
    if key in m then Some(m[key]) else None
  }

  /** Insertion order of the scalar keys of an entry record. */
  function Rank(key: string): nat
  {
    if key == "title" then 0 else if key == "date" then 1 else if key == "link" then 2
    else if key == "summary" then 3 else 4
  }

  lemma {:induction false} LookupConcat(a: seq<(string, string)>, b: seq<(string, string)>, key: string)
    ensures Lookup(a + b, key) == if Lookup(a, key).Some? then Lookup(a, key) else Lookup(b, key)
  {
    if a != [] {
      assert (a + b)[0] == a[0];
      assert (a + b)[1..] == a[1..] + b;
      LookupConcat(a[1..], b, key);
    } else {
      assert a + b == b;
    }
  }

  /** Once building the link list has raised, visiting more links does not change that. */
  lemma {:induction false} LinksStayRaised(raw: seq<RawLink>, k: nat, k': nat)
    requires k <= k' <= |raw|
    requires LinksOf(raw, k).Raised?
    ensures LinksOf(raw, k') == LinksOf(raw, k)
    decreases k' - k
  {
    if k < k' {
      LinksStayRaised(raw, k, k' - 1);
    }
  }

  /** Once building the entry list has raised, visiting more entries does not change that. */
  lemma {:induction false} EntriesStayRaised(es: seq<RawEntry>, k: nat, k': nat, normalize: string -> string)
    requires k <= k' <= |es|
    requires EntriesOf(es, k, normalize).Raised?
    ensures EntriesOf(es, k', normalize) == EntriesOf(es, k, normalize)
    decreases k' - k
  {
    if k < k' {
      EntriesStayRaised(es, k, k' - 1, normalize);
    }
  }

  /**
   * The link list is built exactly when each visited raw link has an `href`
   * and a `type`; it then holds one record per raw link, in order, with that
   * link's `href` and `type` and, as `index`, 1 + the position of the first
   * raw link equal to it. Otherwise the error is that of the first incomplete link.
   */
  lemma {:induction false} LinksOfSpec(raw: seq<RawLink>, k: nat)
    requires k <= |raw|
    ensures LinksOf(raw, k).Returned? <==> CompleteUpTo(raw, k)
    ensures LinksOf(raw, k).Returned? ==>
      |LinksOf(raw, k).value| == k &&
      forall j :: 0 <= j < k ==>
        LinksOf(raw, k).value[j] == LinkJson(IndexOf(raw, raw[j]) + 1, raw[j]["href"], raw[j]["type"])
    ensures LinksOf(raw, k).Raised? ==>
      exists f :: 0 <= f < k && CompleteUpTo(raw, f) && !LinkComplete(raw[f]) &&
        LinksOf(raw, k).message == LinkError(raw[f])
  {
    if k > 0 {
      LinksOfSpec(raw, k - 1);
      if LinksOf(raw, k - 1).Raised? {
        var f :| 0 <= f < k - 1 && CompleteUpTo(raw, f) && !LinkComplete(raw[f]) &&
          LinksOf(raw, k - 1).message == LinkError(raw[f]);
      } else if !LinkComplete(raw[k - 1]) {
        assert CompleteUpTo(raw, k - 1);
      }
    }
  }

  /** When the raw links are pairwise distinct, their records are numbered 1, 2, ..., k in order. */
  lemma DistinctLinksNumbered(raw: seq<RawLink>)
    requires forall i, j :: 0 <= i < j < |raw| ==> raw[i] != raw[j]
    requires LinksOf(raw, |raw|).Returned?
    ensures |LinksOf(raw, |raw|).value| == |raw|
    ensures forall j :: 0 <= j < |raw| ==> LinksOf(raw, |raw|).value[j].index == j + 1
  {
    LinksOfSpec(raw, |raw|);
    forall j | 0 <= j < |raw|
      ensures LinksOf(raw, |raw|).value[j].index == j + 1
    {
      IndexOfIsFirst(raw, raw[j], j);
    }
  }

  /** Equal raw links share the index of the first of them. */
  lemma DuplicateLinksShareIndex(raw: seq<RawLink>, i: nat, j: nat)
    requires i < j < |raw| && raw[i] == raw[j]
    requires LinksOf(raw, |raw|).Returned?
    ensures |LinksOf(raw, |raw|).value| == |raw|
    ensures LinksOf(raw, |raw|).value[j].index == LinksOf(raw, |raw|).value[i].index <= i + 1
  {
    LinksOfSpec(raw, |raw|);
  }

  /** The keys of a list of items rise strictly in insertion order. */
  predicate Ordered(fields: seq<(string, string)>)
  {
    forall i, j :: 0 <= i < j < |fields| ==> Rank(fields[i].0) < Rank(fields[j].0)
  }

  predicate RanksIn(fields: seq<(string, string)>, lo: nat, hi: nat)
  {
    forall i :: 0 <= i < |fields| ==> lo <= Rank(fields[i].0) < hi
  }

  lemma OrderedConcat(a: seq<(string, string)>, b: seq<(string, string)>, lo: nat, mid: nat, hi: nat)
    requires Ordered(a) && RanksIn(a, lo, mid)
    requires Ordered(b) && RanksIn(b, mid, hi)
    requires lo <= mid <= hi
    ensures Ordered(a + b) && RanksIn(a + b, lo, hi)
  {
    forall i, j | 0 <= i < j < |a + b|
      ensures Rank((a + b)[i].0) < Rank((a + b)[j].0)
    {
      if j < |a| {
        assert (a + b)[i] == a[i] && (a + b)[j] == a[j];
      } else if i < |a| {
        assert (a + b)[i] == a[i] && (a + b)[j] == b[j - |a|];
      } else {
        assert (a + b)[i] == b[i - |a|] && (a + b)[j] == b[j - |a|];
      }
    }
    forall i | 0 <= i < |a + b|
      ensures lo <= Rank((a + b)[i].0) < hi
    {
      if i < |a| {
        assert (a + b)[i] == a[i];
      } else {
        assert (a + b)[i] == b[i - |a|];
      }
    }
  }

  /** One of the four optional items of an entry record, or nothing. */
  function Item(present: bool, key: string, value: string): seq<(string, string)>
  {
    if present then [(key, value)] else []
  }

  lemma LookupItem(present: bool, key: string, value: string, wanted: string)
    ensures Lookup(Item(present, key, value), wanted) == if present && key == wanted then Some(value) else None
  {
  }

  lemma FieldsOfItems(e: RawEntry, normalize: string -> string)
    ensures FieldsOf(e, normalize) ==
      Item("title" in e.fields, "title", if "title" in e.fields then normalize(e.fields["title"]) else "")
      + Item("published" in e.fields, "date", if "published" in e.fields then e.fields["published"] else "")
      + Item("link" in e.fields, "link", if "link" in e.fields then normalize(e.fields["link"]) else "")
      + Item("summary" in e.fields, "summary", if "summary" in e.fields then normalize(e.fields["summary"]) else "")
  {
  }

  /**
   * An entry record has `title`, `date`, `link` and `summary` exactly when the
   * raw entry has `title`, `published`, `link` and `summary`; `date` is copied
   * verbatim and the others are normalised.
   */
  lemma EntryFieldsSpec(e: RawEntry, normalize: string -> string)
    ensures Lookup(FieldsOf(e, normalize), "title") ==
      if "title" in e.fields then Some(normalize(e.fields["title"])) else None
    ensures Lookup(FieldsOf(e, normalize), "date") == Get(e.fields, "published")
    ensures Lookup(FieldsOf(e, normalize), "link") ==
      if "link" in e.fields then Some(normalize(e.fields["link"])) else None
    ensures Lookup(FieldsOf(e, normalize), "summary") ==
      if "summary" in e.fields then Some(normalize(e.fields["summary"])) else None
  {
    FieldsOfItems(e, normalize);
    var t := Item("title" in e.fields, "title", if "title" in e.fields then normalize(e.fields["title"]) else "");
    var d := Item("published" in e.fields, "date", if "published" in e.fields then e.fields["published"] else "");
    var l := Item("link" in e.fields, "link", if "link" in e.fields then normalize(e.fields["link"]) else "");
    var s := Item("summary" in e.fields, "summary", if "summary" in e.fields then normalize(e.fields["summary"]) else "");
    forall key | key in ["title", "date", "link", "summary"]
      ensures Lookup(t + d + l + s, key) ==
        if Lookup(t, key).Some? then Lookup(t, key)
        else if Lookup(d, key).Some? then Lookup(d, key)
        else if Lookup(l, key).Some? then Lookup(l, key)
        else Lookup(s, key)
    {
      LookupConcat(t + d + l, s, key);
      LookupConcat(t + d, l, key);
      LookupConcat(t, d, key);
    }
    LookupItem("title" in e.fields, "title", if "title" in e.fields then normalize(e.fields["title"]) else "", "title");
    LookupItem("published" in e.fields, "date", if "published" in e.fields then e.fields["published"] else "", "title");
    LookupItem("link" in e.fields, "link", if "link" in e.fields then normalize(e.fields["link"]) else "", "title");
    LookupItem("summary" in e.fields, "summary", if "summary" in e.fields then normalize(e.fields["summary"]) else "", "title");
    LookupItem("title" in e.fields, "title", if "title" in e.fields then normalize(e.fields["title"]) else "", "date");
    LookupItem("published" in e.fields, "date", if "published" in e.fields then e.fields["published"] else "", "date");
    LookupItem("link" in e.fields, "link", if "link" in e.fields then normalize(e.fields["link"]) else "", "date");
    LookupItem("summary" in e.fields, "summary", if "summary" in e.fields then normalize(e.fields["summary"]) else "", "date");
    LookupItem("title" in e.fields, "title", if "title" in e.fields then normalize(e.fields["title"]) else "", "link");
    LookupItem("published" in e.fields, "date", if "published" in e.fields then e.fields["published"] else "", "link");
    LookupItem("link" in e.fields, "link", if "link" in e.fields then normalize(e.fields["link"]) else "", "link");
    LookupItem("summary" in e.fields, "summary", if "summary" in e.fields then normalize(e.fields["summary"]) else "", "link");
    LookupItem("title" in e.fields, "title", if "title" in e.fields then normalize(e.fields["title"]) else "", "summary");
    LookupItem("published" in e.fields, "date", if "published" in e.fields then e.fields["published"] else "", "summary");
    LookupItem("link" in e.fields, "link", if "link" in e.fields then normalize(e.fields["link"]) else "", "summary");
    LookupItem("summary" in e.fields, "summary", if "summary" in e.fields then normalize(e.fields["summary"]) else "", "summary");
  }

  /**
   * The scalar keys of an entry record are among `title`, `date`, `link` and
   * `summary`, and come in that order.
   */
  lemma EntryFieldsOrdered(e: RawEntry, normalize: string -> string)
    ensures RanksIn(FieldsOf(e, normalize), 0, 4) && Ordered(FieldsOf(e, normalize))
    ensures forall i :: 0 <= i < |FieldsOf(e, normalize)| ==>
      FieldsOf(e, normalize)[i].0 in {"title", "date", "link", "summary"}
  {
    FieldsOfRanked(e, normalize);
    forall i | 0 <= i < |FieldsOf(e, normalize)|
      ensures FieldsOf(e, normalize)[i].0 in {"title", "date", "link", "summary"}
    {
      RankedKey(FieldsOf(e, normalize)[i].0);
    }
  }

  lemma FieldsOfRanked(e: RawEntry, normalize: string -> string)
    ensures RanksIn(FieldsOf(e, normalize), 0, 4) && Ordered(FieldsOf(e, normalize))
  {
    var t := Item("title" in e.fields, "title", if "title" in e.fields then normalize(e.fields["title"]) else "");
    var d := Item("published" in e.fields, "date", if "published" in e.fields then e.fields["published"] else "");
    var l := Item("link" in e.fields, "link", if "link" in e.fields then normalize(e.fields["link"]) else "");
    var s := Item("summary" in e.fields, "summary", if "summary" in e.fields then normalize(e.fields["summary"]) else "");
    FieldsOfItems(e, normalize);
    ItemRanked("title" in e.fields, "title", if "title" in e.fields then normalize(e.fields["title"]) else "");
    ItemRanked("published" in e.fields, "date", if "published" in e.fields then e.fields["published"] else "");
    ItemRanked("link" in e.fields, "link", if "link" in e.fields then normalize(e.fields["link"]) else "");
    ItemRanked("summary" in e.fields, "summary", if "summary" in e.fields then normalize(e.fields["summary"]) else "");
    FourOrdered(t, d, l, s);
  }

  lemma ItemRanked(present: bool, key: string, value: string)
    ensures Ordered(Item(present, key, value))
    ensures RanksIn(Item(present, key, value), Rank(key), Rank(key) + 1)
  {
  }

  lemma FourOrdered(t: seq<(string, string)>, d: seq<(string, string)>, l: seq<(string, string)>, s: seq<(string, string)>)
    requires Ordered(t) && RanksIn(t, 0, 1) && Ordered(d) && RanksIn(d, 1, 2)
    requires Ordered(l) && RanksIn(l, 2, 3) && Ordered(s) && RanksIn(s, 3, 4)
    ensures Ordered(t + d + l + s) && RanksIn(t + d + l + s, 0, 4)
  {
    OrderedConcat(t, d, 0, 1, 2);
    OrderedConcat(t + d, l, 0, 2, 3);
    OrderedConcat(t + d + l, s, 0, 3, 4);
  }

  /** Only the four scalar keys rank below 4. */
  lemma RankedKey(key: string)
    requires Rank(key) < 4
    ensures key in {"title", "date", "link", "summary"}
  {
  }

  /**
   * An entry record is built exactly when the raw entry has no `links` or all
   * its links are complete. It always has a `links` list: empty when the raw
   * entry has no `links`, otherwise the list built from them.
   */
  lemma EntryOfSpec(e: RawEntry, normalize: string -> string)
    ensures EntryOf(e, normalize).Returned? <==> e.links.None? || CompleteUpTo(e.links.value, |e.links.value|)
    ensures EntryOf(e, normalize).Returned? ==>
      EntryOf(e, normalize).value.fields == FieldsOf(e, normalize) &&
      EntryOf(e, normalize).value.links.Some? &&
      (e.links.None? ==> EntryOf(e, normalize).value.links.value == []) &&
      (e.links.Some? ==> Returned(EntryOf(e, normalize).value.links.value) == LinksOf(e.links.value, |e.links.value|))
  {
    if e.links.Some? {
      LinksOfSpec(e.links.value, |e.links.value|);
    }
  }

  /**
   * The entry list is built exactly when each visited raw entry's record is;
   * it then holds the records of the first `k` raw entries, in feed order.
   */
  lemma {:induction false} EntriesOfSpec(es: seq<RawEntry>, k: nat, normalize: string -> string)
    requires k <= |es|
    ensures EntriesOf(es, k, normalize).Returned? <==>
      forall i :: 0 <= i < k ==> EntryOf(es[i], normalize).Returned?
    ensures EntriesOf(es, k, normalize).Returned? ==>
      |EntriesOf(es, k, normalize).value| == k &&
      forall i :: 0 <= i < k ==> EntriesOf(es, k, normalize).value[i] == EntryOf(es[i], normalize).value
  {
    if k > 0 {
      EntriesOfSpec(es, k - 1, normalize);
    }
  }

  /** When the entry list is not built, the error is that of the first raw entry whose record is not. */
  lemma {:induction false} EntriesOfFirstFailure(es: seq<RawEntry>, k: nat, normalize: string -> string)
    requires k <= |es|
    ensures EntriesOf(es, k, normalize).Raised? ==>
      exists f :: 0 <= f < k && (forall i :: 0 <= i < f ==> EntryOf(es[i], normalize).Returned?) &&
        EntryOf(es[f], normalize).Raised? && EntriesOf(es, k, normalize).message == EntryOf(es[f], normalize).message
  {
    if k > 0 {
      if EntriesOf(es, k - 1, normalize).Raised? {
        EntriesOfFirstFailure(es, k - 1, normalize);
        var f :| 0 <= f < k - 1 && (forall i :: 0 <= i < f ==> EntryOf(es[i], normalize).Returned?) &&
          EntryOf(es[f], normalize).Raised? && EntriesOf(es, k - 1, normalize).message == EntryOf(es[f], normalize).message;
      } else {
        EntriesOfSpec(es, k - 1, normalize);
      }
    }
  }

  /**
   * `parse_rss` fails exactly when the feed has no title or one of the first
   * `limit` entries has an incomplete link; the title case raises first.
   * Otherwise the result holds the normalised feed title and one record per
   * entry of `feed.entries[0:limit]`, in feed order: `min(limit, n)` records
   * for a non-negative `limit`.
   */
  lemma ParseFeedSpec(feed: RawFeed, limit: int, normalize: string -> string)
    ensures ParseFeed(feed, limit, normalize).Returned? <==>
      feed.title.Some? &&
      forall i :: 0 <= i < SliceStop(limit, |feed.entries|) ==> EntryOf(feed.entries[i], normalize).Returned?
    ensures feed.title.None? ==> ParseFeed(feed, limit, normalize) == Raised(NoAttribute("title"))
    ensures ParseFeed(feed, limit, normalize).Returned? ==>
      var r := ParseFeed(feed, limit, normalize).value;
      r.feed == Some(normalize(feed.title.value)) && r.entries.Some? &&
      |r.entries.value| == SliceStop(limit, |feed.entries|) &&
      (0 <= limit ==> |r.entries.value| == Min(limit, |feed.entries|)) &&
      forall i :: 0 <= i < |r.entries.value| ==> r.entries.value[i] == EntryOf(feed.entries[i], normalize).value
  {
    EntriesOfSpec(feed.entries, SliceStop(limit, |feed.entries|), normalize);
  }

  /** Calling `check_limit` before `parse_rss` does not change the records built. */
  lemma CheckLimitKeepsRecords(feed: RawFeed, limit: int, normalize: string -> string)
    ensures ParseFeed(feed, Min(limit, |feed.entries|), normalize) == ParseFeed(feed, limit, normalize)
  {
    ClampKeepsSlice(limit, |feed.entries|);
  }

  // ---------------------------------------------------------------- print_rss

  /** The text line of a scalar item: its key capitalised, then its value. */
  function FieldLine(field: (string, string)): string
  {
    Capitalize(field.0) + ": " + field.1
  }

  /** The lines of the first `k` scalar items. */
  function FieldLines(fields: seq<(string, string)>, k: nat): seq<Printed>
    requires k <= |fields|
  {
    if k == 0 then [] else FieldLines(fields, k - 1) + [Text(FieldLine(fields[k - 1]))]
  }

  /** The text line of the `j`-th link, numbered by `list.index` over the printed list. */
  function LinkLine(links: seq<LinkJson>, j: nat): string
    requires j < |links|
  {
    "[" + DecimalString(IndexOf(links, links[j]) + 1) + "]: " + links[j].href + " (" + links[j].linkType + ")"
  }

  /** The lines of the first `k` links. */
  function LinkLines(links: seq<LinkJson>, k: nat): seq<Printed>
    requires k <= |links|
  {
    if k == 0 then [] else LinkLines(links, k - 1) + [Text(LinkLine(links, k - 1))]
  }

  /** The lines of one entry: separator, scalar items, then the links section if the entry has `links`. */
  function EntryLines(e: EntryJson): seq<Printed>
  {
    [Text(Separator)] + FieldLines(e.fields, |e.fields|)
    + (if e.links.Some? then [Text(LinksHeader)] + LinkLines(e.links.value, |e.links.value|) else [])
  }

  /** The lines of the first `k` entries. */
  function EntriesLines(es: seq<EntryJson>, k: nat): seq<Printed>
    requires k <= |es|
  {
    if k == 0 then [] else EntriesLines(es, k - 1) + EntryLines(es[k - 1])
  }

  /**
   * Everything `print_rss` prints. A missing `feed` or `entries` key raises
   * `KeyError`, whose message is the quoted key.
   */
  function PrintLines(json: bool, r: FeedJson): seq<Printed>
  {
    if json then [Dict(r)]
    else if r.feed.None? then Failure("'feed'")
    else
      [Text("\nFeed: " + r.feed.value)]
      + (if r.entries.None? then Failure("'entries'") else EntriesLines(r.entries.value, |r.entries.value|))
  }

  lemma {:induction false} FieldLinesAt(fields: seq<(string, string)>, k: nat)
    requires k <= |fields|
    ensures |FieldLines(fields, k)| == k
    ensures forall i :: 0 <= i < k ==> FieldLines(fields, k)[i] == Text(FieldLine(fields[i]))
  {
    if k > 0 {
      FieldLinesAt(fields, k - 1);
      var p := FieldLines(fields, k - 1);
      assert FieldLines(fields, k) == p + [Text(FieldLine(fields[k - 1]))];
    }
  }

  lemma {:induction false} LinkLinesAt(links: seq<LinkJson>, k: nat)
    requires k <= |links|
    ensures |LinkLines(links, k)| == k
    ensures forall j :: 0 <= j < k ==> LinkLines(links, k)[j] == Text(LinkLine(links, j))
  {
    if k > 0 {
      LinkLinesAt(links, k - 1);
    }
  }

  /**
   * The text lines of an entry: the separator, one `Key: value` line per
   * scalar item in order and, when the entry has `links`, the `Links:` header
   * followed by one line per link in order.
   */
  lemma EntryLinesShape(e: EntryJson)
    ensures |EntryLines(e)| ==
      1 + |e.fields| + (if e.links.Some? then 1 + |e.links.value| else 0)
    ensures EntryLines(e)[0] == Text(Separator)
    ensures forall i :: 0 <= i < |e.fields| ==> EntryLines(e)[1 + i] == Text(FieldLine(e.fields[i]))
    ensures e.links.Some? ==>
      EntryLines(e)[1 + |e.fields|] == Text(LinksHeader) &&
      forall j :: 0 <= j < |e.links.value| ==>
        EntryLines(e)[2 + |e.fields| + j] == Text(LinkLine(e.links.value, j))
  {
    EntryHeadLines(e);
    if e.links.Some? {
      EntryLinkLines(e);
    }
  }

  lemma EntryHeadLines(e: EntryJson)
    ensures |EntryLines(e)| ==
      1 + |e.fields| + (if e.links.Some? then 1 + |e.links.value| else 0)
    ensures EntryLines(e)[0] == Text(Separator)
    ensures forall i :: 0 <= i < |e.fields| ==> EntryLines(e)[1 + i] == Text(FieldLine(e.fields[i]))
  {
    var fs := FieldLines(e.fields, |e.fields|);
    FieldLinesAt(e.fields, |e.fields|);
    var rest := if e.links.Some? then [Text(LinksHeader)] + LinkLines(e.links.value, |e.links.value|) else [];
    if e.links.Some? {
      LinkLinesAt(e.links.value, |e.links.value|);
    }
    assert EntryLines(e) == [Text(Separator)] + fs + rest;
    Layout(Text(Separator), fs, rest);
  }

  lemma EntryLinkLines(e: EntryJson)
    requires e.links.Some?
    ensures |EntryLines(e)| == 2 + |e.fields| + |e.links.value|
    ensures EntryLines(e)[1 + |e.fields|] == Text(LinksHeader)
    ensures forall j :: 0 <= j < |e.links.value| ==>
      EntryLines(e)[2 + |e.fields| + j] == Text(LinkLine(e.links.value, j))
  {
    var fs := FieldLines(e.fields, |e.fields|);
    var ls := LinkLines(e.links.value, |e.links.value|);
    assert EntryLines(e) == [Text(Separator)] + fs + ([Text(LinksHeader)] + ls);
    assert |fs| == |e.fields| by {
      FieldLinesAt(e.fields, |e.fields|);
    }
    assert |ls| == |e.links.value| by {
      LinkLinesAt(e.links.value, |e.links.value|);
    }
    TailLayout(Text(Separator), fs, Text(LinksHeader), ls);
    forall j | 0 <= j < |ls|
      ensures EntryLines(e)[2 + |e.fields| + j] == Text(LinkLine(e.links.value, j))
    {
      LinkLineAt(e.links.value, j);
    }
  }

  /** Where the items of `[first] + middle + ([second] + rest)` end up. */
  lemma TailLayout<T>(first: T, middle: seq<T>, second: T, rest: seq<T>)
    ensures |[first] + middle + ([second] + rest)| == 2 + |middle| + |rest|
    ensures ([first] + middle + ([second] + rest))[1 + |middle|] == second
    ensures forall j :: 0 <= j < |rest| ==> ([first] + middle + ([second] + rest))[2 + |middle| + j] == rest[j]
  {
  }

  lemma LinkLineAt(links: seq<LinkJson>, j: nat)
    requires j < |links|
    ensures |LinkLines(links, |links|)| == |links|
    ensures LinkLines(links, |links|)[j] == Text(LinkLine(links, j))
  {
    LinkLinesAt(links, |links|);
  }

  /** Where the items of `[first] + middle + rest` end up. */
  lemma Layout<T>(first: T, middle: seq<T>, rest: seq<T>)
    ensures |[first] + middle + rest| == 1 + |middle| + |rest|
    ensures ([first] + middle + rest)[0] == first
    ensures forall i :: 0 <= i < |middle| ==> ([first] + middle + rest)[1 + i] == middle[i]
    ensures forall i :: 0 <= i < |rest| ==> ([first] + middle + rest)[1 + |middle| + i] == rest[i]
  {
  }

  /**
   * For a link list that `parse_rss` built, the number printed in front of a
   * link is the `index` stored in its record.
   */
  lemma PrintedIndexIsStored(raw: seq<RawLink>, k: nat)
    requires k <= |raw|
    requires LinksOf(raw, k).Returned?
    ensures |LinksOf(raw, k).value| == k
    ensures forall j :: 0 <= j < k ==>
      IndexOf(LinksOf(raw, k).value, LinksOf(raw, k).value[j]) + 1 == LinksOf(raw, k).value[j].index
  {
    LinksOfSpec(raw, k);
    var ls := LinksOf(raw, k).value;
    forall j | 0 <= j < k
      ensures IndexOf(ls, ls[j]) + 1 == ls[j].index
    {
      var f := IndexOf(raw, raw[j]);
      assert IndexOf(raw, raw[f]) == f;
      assert ls[f] == ls[j];
      forall i | 0 <= i < f
        ensures ls[i] != ls[j]
      {
        assert raw[i] != raw[j];
        var g := IndexOf(raw, raw[i]);
        assert raw[g] == raw[i];
        assert ls[i].index == g + 1 != f + 1 == ls[j].index;
      }
      IndexOfIsFirst(ls, ls[j], f);
    }
  }

  /**
   * What `print_rss` prints in text mode for a dictionary that `parse_rss`
   * built: the line of the normalised feed title, then, in feed order, the
   * block of the record of each of the first `limit` raw entries.
   */
  lemma ParsedFeedPrinted(feed: RawFeed, limit: int, normalize: string -> string)
    requires feed.title.Some? && ParseFeed(feed, limit, normalize).Returned?
    ensures var r := ParseFeed(feed, limit, normalize).value;
      r.entries.Some? && |r.entries.value| == SliceStop(limit, |feed.entries|) &&
      PrintLines(false, r) ==
        [Text("\nFeed: " + normalize(feed.title.value))] + EntriesLines(r.entries.value, |r.entries.value|) &&
      forall i :: 0 <= i < |r.entries.value| ==> Returned(r.entries.value[i]) == EntryOf(feed.entries[i], normalize)
  {
    ParseFeedSpec(feed, limit, normalize);
  }

  /**
   * When the last entry of a text-mode dictionary has links, the last line
   * printed is that of its last link.
   */
  lemma LastLineIsLastLink(r: FeedJson)
    requires r.feed.Some? && r.entries.Some? && |r.entries.value| > 0
    requires var last := r.entries.value[|r.entries.value| - 1]; last.links.Some? && |last.links.value| > 0
    ensures var last := r.entries.value[|r.entries.value| - 1];
      var lines := PrintLines(false, r);
      |lines| > 0 && lines[|lines| - 1] == Text(LinkLine(last.links.value, |last.links.value| - 1))
  {
    var es := r.entries.value;
    var last := es[|es| - 1];
    LinkLinesAt(last.links.value, |last.links.value|);
    EntryLinesShape(last);
  }

  // ------------------------------------------------- the scenarios of the tests

  /** The entry record used by the tests of `print_rss`. */
  function TestEntry(): EntryJson
  {
    EntryJson(
      [("rss_source", "http://test_news/"), ("feed", "Test Feed"), ("title", "Test Title"),
       ("date", "2022-09-27 00:40:19+00:00"), ("link", "https://test_news/1.html")],
      Some([LinkJson(1, "https://test_news/1.html", "text/html")]))
  }

  /** In JSON mode the dictionary is printed once, as it is. */
  lemma JsonModePrintsDictOnce(r: FeedJson)
    ensures PrintLines(true, r) == [Dict(r)]
  {
  }

  /**
   * The tests' dictionary has no `feed` key, so in text mode `print_rss`
   * raises `KeyError` before printing any entry: the last thing printed is
   * the suppression notice, never the link line.
   */
  lemma TextModeWithoutFeedKey()
    ensures PrintLines(false, FeedJson(None, Some([TestEntry()]))) == Failure("'feed'")
    ensures Text("[1]: https://test_news/1.html (text/html)") !in PrintLines(false, FeedJson(None, Some([TestEntry()])))
  {
    var line := "[1]: https://test_news/1.html (text/html)";
    assert |line| == 41;
    assert |FailureNotice| == 23;
    assert |SuppressedNotice("'feed'")| > 41;
  }

  /**
   * In text mode, a dictionary whose last entry has a single link record
   * `{"index": 1, "href": h, "type": t}` ends with the line `[1]: h (t)`.
   */
  lemma SingleLinkEntryEndsWithItsLine(feed: string, es: seq<EntryJson>, href: string, linkType: string)
    requires |es| > 0 && es[|es| - 1].links == Some([LinkJson(1, href, linkType)])
    ensures var lines := PrintLines(false, FeedJson(Some(feed), Some(es)));
      |lines| > 0 && lines[|lines| - 1] == Text("[1]: " + href + " (" + linkType + ")")
  {
    var links := [LinkJson(1, href, linkType)];
    assert LinkLine(links, 0) == "[1]: " + href + " (" + linkType + ")" by {
      assert IndexOf(links, links[0]) == 0;
      assert DecimalString(1) == "1";
    }
    LastLineIsLastLink(FeedJson(Some(feed), Some(es)));
  }

  /**
   * The body of the entry loop of `parse_rss`: the record of one raw entry, or
   * the exception raised while reading one of its links.
   */
  method BuildEntry(entry: RawEntry, normalize: string -> string) returns (r: Result<EntryJson>)
    ensures r == EntryOf(entry, normalize)
  {
    var fields: seq<(string, string)> := [];
    if "title" in entry.fields {
      fields := fields + [("title", normalize(entry.fields["title"]))];
    }
    if "published" in entry.fields {
      fields := fields + [("date", entry.fields["published"])];
    }
    if "link" in entry.fields {
      fields := fields + [("link", normalize(entry.fields["link"]))];
    }
    if "summary" in entry.fields {
      fields := fields + [("summary", normalize(entry.fields["summary"]))];
    }
    assert fields == FieldsOf(entry, normalize);
    var links: Result<seq<LinkJson>> := Returned([]);
    if entry.links.Some? {
      links := BuildLinks(entry.links.value);
    }
    match links
    case Raised(m) => return Raised(m);
    case Returned(ls) => return Returned(EntryJson(fields, Some(ls)));
  }

  /** The link loop of `parse_rss`: the `links` list of an entry, or the exception raised while reading a link. */
  method BuildLinks(raw: seq<RawLink>) returns (r: Result<seq<LinkJson>>)
    ensures r == LinksOf(raw, |raw|)
  {
    var links: seq<LinkJson> := [];
    var j := 0;
    while j < |raw|
      invariant 0 <= j <= |raw|
      invariant LinksOf(raw, j) == Returned(links)
    {
      var link := raw[j];
      if !("href" in link && "type" in link) {
        LinksStayRaised(raw, j + 1, |raw|);
        return Raised(LinkError(link));
      }
      links := links + [LinkJson(IndexOf(raw, link) + 1, link["href"], link["type"])];
      j := j + 1;
    }
    return Returned(links);
  }

  /** The body of the entry loop of `print_rss` in text mode: the lines of one entry. */
  method PrintEntry(entry: EntryJson) returns (block: seq<Printed>)
    ensures block == EntryLines(entry)
  {
    var fieldLines := PrintFields(entry.fields);
    block := [Text(Separator)] + fieldLines;
    if entry.links.Some? {
      var linkLines := PrintLinks(entry.links.value);
      block := block + ([Text(LinksHeader)] + linkLines);
    }
  }

  lemma EntriesLinesStep(es: seq<EntryJson>, i: nat, lines: seq<Printed>, block: seq<Printed>)
    requires i < |es| && lines == EntriesLines(es, i) && block == EntryLines(es[i])
    ensures lines + block == EntriesLines(es, i + 1)
  {
  }

  /** The entry loop of `print_rss` in text mode: the lines of each entry, in order. */
  method PrintEntries(entries: seq<EntryJson>) returns (lines: seq<Printed>)
    ensures lines == EntriesLines(entries, |entries|)
  {
    lines := [];
    var i := 0;
    while i < |entries|
      invariant 0 <= i <= |entries|
      invariant lines == EntriesLines(entries, i)
    {
      var block := PrintEntry(entries[i]);
      EntriesLinesStep(entries, i, lines, block);
      lines := lines + block;
      i := i + 1;
    }
  }

  /** The loop of `print_rss` over an entry's scalar items: one `Key: value` line each, in order. */
  method PrintFields(fields: seq<(string, string)>) returns (lines: seq<Printed>)
    ensures lines == FieldLines(fields, |fields|)
  {
    lines := [];
    var k := 0;
    while k < |fields|
      invariant 0 <= k <= |fields|
      invariant lines == FieldLines(fields, k)
    {
      lines := lines + [Text(FieldLine(fields[k]))];
      k := k + 1;
    }
  }

  /** The link loop of `print_rss`: one line per link record, numbered by `list.index`. */
  method PrintLinks(links: seq<LinkJson>) returns (lines: seq<Printed>)
    ensures lines == LinkLines(links, |links|)
  {
    lines := [];
    var j := 0;
    while j < |links|
      invariant 0 <= j <= |links|
      invariant lines == LinkLines(links, j)
    {
      lines := lines + [Text(LinkLine(links, j))];
      j := j + 1;
    }
  }

  // ---------------------------------------------------------------- the object

  /** An `RssReader` over the feed that `feedparser.parse(rssSource)` returned. */
  class RssReader {
    const rssSource: string
    const json: bool
    const verbose: bool
    /** The result of `feedparser.parse(rssSource)`. */
    const newsFeed: RawFeed
    const numberNews: nat
    var limit: int

    ghost predicate Valid()
    {
      numberNews == |newsFeed.entries|
    }

    /** `limit` defaults to the number of feed entries; a given limit is stored as it is. */
    constructor (rssSource: string, limit: Option<int>, json: bool, verbose: bool, parsed: RawFeed)
      ensures Valid()
      ensures this.rssSource == rssSource && this.json == json && this.verbose == verbose
      ensures newsFeed == parsed && numberNews == |parsed.entries|
      ensures this.limit == if limit.None? then |parsed.entries| else limit.value
    {
      this.rssSource := rssSource;
      this.verbose := verbose;
      this.json := json;
      this.newsFeed := parsed;
      this.numberNews := |parsed.entries|;
      if limit.None? {
        this.limit := |parsed.entries|;
      } else {
        this.limit := limit.value;
      }
    }

    /** Lowers `limit` to the feed size when it is larger, and returns it. */
    method CheckLimit() returns (r: int)
      requires Valid()
      modifies this`limit
      ensures limit == Min(old(limit), numberNews) && r == limit && r <= numberNews
      ensures old(limit) <= numberNews ==> limit == old(limit)
    {
      if limit > numberNews {
        limit := numberNews;
      }
      r := limit;
    }

    /**
     * Builds the dictionary of the first `limit` entries. When the body raises,
     * the decorators print their notices and the call returns `None`.
     */
    method ParseRss(normalize: string -> string) returns (result: Option<FeedJson>, emitted: seq<Printed>)
      requires Valid()
      ensures ParseFeed(newsFeed, limit, normalize).Returned? ==>
        result == Some(ParseFeed(newsFeed, limit, normalize).value) && emitted == []
      ensures ParseFeed(newsFeed, limit, normalize).Raised? ==>
        result == None && emitted == Failure(ParseFeed(newsFeed, limit, normalize).message)
    {
      if newsFeed.title.None? {
        return None, Failure(NoAttribute("title"));
      }
      var feedTitle := normalize(newsFeed.title.value);
      var entries: seq<EntryJson> := [];
      var stop := SliceStop(limit, numberNews);
      var i := 0;
      while i < stop
        invariant 0 <= i <= stop
        invariant EntriesOf(newsFeed.entries, i, normalize) == Returned(entries)
      {
        var entryJson := BuildEntry(newsFeed.entries[i], normalize);
        if entryJson.Raised? {
          EntriesStayRaised(newsFeed.entries, i + 1, stop, normalize);
          return None, Failure(entryJson.message);
        }
        entries := entries + [entryJson.value];
        i := i + 1;
      }
      return Some(FeedJson(Some(feedTitle), Some(entries))), [];
    }

    /**
     * The run of the command-line entry point once the reader exists: clamp
     * `limit`, build the dictionary, and print it unless building it failed.
     */
    method ReadAndPrint(normalize: string -> string) returns (emitted: seq<Printed>)
      requires Valid()
      modifies this`limit
      ensures limit == Min(old(limit), numberNews)
      ensures ParseFeed(newsFeed, old(limit), normalize).Raised? ==>
        emitted == Failure(ParseFeed(newsFeed, old(limit), normalize).message)
      ensures ParseFeed(newsFeed, old(limit), normalize).Returned? ==>
        emitted == PrintLines(json, ParseFeed(newsFeed, old(limit), normalize).value)
    {
      var _ := CheckLimit();
      CheckLimitKeepsRecords(newsFeed, old(limit), normalize);
      var rssJson, failure := ParseRss(normalize);
      emitted := failure;
      if rssJson.Some? {
        emitted := PrintRss(rssJson.value);
      }
    }

    /** Prints the dictionary: as it is in JSON mode, line by line otherwise. */
    method PrintRss(rssJson: FeedJson) returns (emitted: seq<Printed>)
      ensures emitted == PrintLines(json, rssJson)
    {
      if json {
        return [Dict(rssJson)];
      }
      if rssJson.feed.None? {
        return Failure("'feed'");
      }
      emitted := [Text("\nFeed: " + rssJson.feed.value)];
      if rssJson.entries.None? {
        return emitted + Failure("'entries'");
      }
      var lines := PrintEntries(rssJson.entries.value);
      emitted := emitted + lines;
    }
  }
}
