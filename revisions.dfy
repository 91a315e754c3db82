/**
 * How the two revisions of the reader relate: the older `read_news` prints
 * the raw entries directly, the newer `parse_rss` builds records that
 * `print_rss` prints. Given the same feed and limit, both fail on exactly the
 * same inputs with the same message, print the same link lines, and print the
 * same items of an entry in the same order (the newer one normalised).
 */
module Revisions {
  import opened Python
  import opened FeedParser
  import Entities
  import RssClass

  /** The older revision's line for one item of a newer entry record. */
  function OldItemLine(field: (string, string)): string
  {
    if field.0 == "title" then "\nTitle: " + field.1
    else if field.0 == "date" then "Date: " + field.1
    else if field.0 == "link" then "Link: " + field.1
    else "\n" + field.1
  }

  /** The older revision's lines for a list of items. */
  function OldItemLines(fields: seq<(string, string)>): seq<string>
  {
    if fields == [] then [] else [OldItemLine(fields[0])] + OldItemLines(fields[1..])
  }

  lemma {:induction false} OldItemLinesConcat(a: seq<(string, string)>, b: seq<(string, string)>)
    ensures OldItemLines(a + b) == OldItemLines(a) + OldItemLines(b)
  {
    if a == [] {
      assert a + b == b;
    } else {
      assert (a + b)[0] == a[0];
      assert (a + b)[1..] == a[1..] + b;
      OldItemLinesConcat(a[1..], b);
    }
  }

  /** Printing one link raises, in the older revision, exactly when building its record raises in the newer one. */
  lemma {:induction false} SameLinkFailures(raw: seq<RawLink>, k: nat)
    requires k <= |raw|
    ensures RssClass.LinksRun(raw, k).raised == ErrorOf(Entities.LinksOf(raw, k))
  {
    if k > 0 {
      SameLinkFailures(raw, k - 1);
      FailureStep(RssClass.LinksRun(raw, k - 1), RssClass.LinkRun(raw, k - 1),
        Entities.LinksOf(raw, k - 1), Entities.LinkAt(raw, k - 1));
    }
  }

  lemma SameEntryFailures(e: RawEntry, normalize: string -> string)
    ensures RssClass.EntryRun(e).raised == ErrorOf(Entities.EntryOf(e, normalize))
  {
    if e.links.Some? {
      SameLinkFailures(e.links.value, |e.links.value|);
    }
  }

  lemma {:induction false} SameEntriesFailures(es: seq<RawEntry>, k: nat, normalize: string -> string)
    requires k <= |es|
    ensures RssClass.EntriesRun(es, k).raised == ErrorOf(Entities.EntriesOf(es, k, normalize))
  {
    if k > 0 {
      SameEntriesFailures(es, k - 1, normalize);
      EntryStep(RssClass.EntriesRun(es, k - 1), Entities.EntriesOf(es, k - 1, normalize), es[k - 1], normalize);
    }
  }

  /** One more entry keeps the two revisions raising alike. */
  lemma EntryStep(runs: Run<string>, builts: Result<seq<Entities.EntryJson>>, e: RawEntry, normalize: string -> string)
    requires runs.raised == ErrorOf(builts)
    ensures Then(runs, RssClass.EntryRun(e)).raised == ErrorOf(Append(builts, Entities.EntryOf(e, normalize)))
  {
    SameEntryFailures(e, normalize);
    FailureStep(runs, RssClass.EntryRun(e), builts, Entities.EntryOf(e, normalize));
  }

  /** Running two steps raises like building two values raises, when each step does. */
  lemma FailureStep<U>(a: Run<string>, b: Run<string>, x: Result<seq<U>>, y: Result<U>)
    requires a.raised == ErrorOf(x) && b.raised == ErrorOf(y)
    ensures Then(a, b).raised == ErrorOf(Append(x, y))
  {
  }

  /**
   * For the same feed and limit, the body of the older `read_news` raises
   * exactly when the body of the newer `parse_rss` raises, with the same message.
   */
  lemma SameFailures(feed: RawFeed, limit: int, normalize: string -> string)
    ensures RssClass.ReadNewsRun(feed, limit).raised == ErrorOf(Entities.ParseFeed(feed, limit, normalize))
  {
    if feed.title.Some? {
      SameEntriesFailures(feed.entries, SliceStop(limit, |feed.entries|), normalize);
    }
  }

  /**
   * The older revision prints an entry's items in the same order as the newer
   * one stores them: its head lines are the separator and one line per item
   * of the record built without normalisation.
   */
  lemma SameItemOrder(e: RawEntry)
    ensures RssClass.HeadLines(e) == [RssClass.Separator] + OldItemLines(Entities.FieldsOf(e, s => s))
  {
    var lines := OldItemLines(Entities.FieldsOf(e, s => s));
    var a := RssClass.KeyLine(e, "title", "\nTitle: ");
    var b := RssClass.KeyLine(e, "published", "Date: ");
    var c := RssClass.KeyLine(e, "link", "Link: ");
    var d := RssClass.KeyLine(e, "summary", "\n");
    assert lines == a + b + c + d by {
      var t := Entities.Item("title" in e.fields, "title", Value(e, "title"));
      var u := Entities.Item("published" in e.fields, "date", Value(e, "published"));
      var v := Entities.Item("link" in e.fields, "link", Value(e, "link"));
      var w := Entities.Item("summary" in e.fields, "summary", Value(e, "summary"));
      assert Entities.FieldsOf(e, s => s) == t + u + v + w by {
        Entities.FieldsOfItems(e, s => s);
      }
      OldItemLinesConcat(t, u);
      OldItemLinesConcat(t + u, v);
      OldItemLinesConcat(t + u + v, w);
      ItemLine(e, "title", "title", "\nTitle: ");
      ItemLine(e, "published", "date", "Date: ");
      ItemLine(e, "link", "link", "Link: ");
      ItemLine(e, "summary", "summary", "\n");
    }
    assert RssClass.HeadLines(e) == [RssClass.Separator] + a + b + c + d;
  }

  function Value(e: RawEntry, key: string): string
  {
    if key in e.fields then e.fields[key] else ""
  }

  lemma ItemLine(e: RawEntry, key: string, newKey: string, prefix: string)
    requires prefix + Value(e, key) == OldItemLine((newKey, Value(e, key)))
    ensures OldItemLines(Entities.Item(key in e.fields, newKey, Value(e, key))) == RssClass.KeyLine(e, key, prefix)
  {
    if key in e.fields {
      assert OldItemLines([(newKey, Value(e, key))]) == [OldItemLine((newKey, Value(e, key)))];
    }
  }

  /**
   * The older revision's item lines are the newer revision's `Key: value`
   * lines, except that the title line is preceded by a blank line and the
   * summary is printed without its key.
   */
  lemma OldItemLineIsNewFieldLine(field: (string, string))
    ensures field.0 == "date" || field.0 == "link" ==> OldItemLine(field) == Entities.FieldLine(field)
    ensures field.0 == "title" ==> OldItemLine(field) == "\n" + Entities.FieldLine(field)
  {
    if field.0 == "date" {
      assert Capitalize("date") == "Date";
    } else if field.0 == "link" {
      assert Capitalize("link") == "Link";
    } else if field.0 == "title" {
      assert Capitalize("title") == "Title";
    }
  }

  /**
   * When all links of an entry are complete, both revisions print the same
   * link lines: the older one numbers the raw links, the newer one its own
   * records, and the numbers agree.
   */
  lemma SameLinkLines(raw: seq<RawLink>)
    requires CompleteUpTo(raw, |raw|)
    ensures Entities.LinksOf(raw, |raw|).Returned?
    ensures |RssClass.LinksRun(raw, |raw|).lines| == |Entities.LinksOf(raw, |raw|).value| == |raw|
    ensures forall j :: 0 <= j < |raw| ==>
      RssClass.LinksRun(raw, |raw|).lines[j] == Entities.LinkLine(Entities.LinksOf(raw, |raw|).value, j)
  {
    Entities.LinksOfSpec(raw, |raw|);
    RssClass.LinksRunSpec(raw, |raw|);
    Entities.PrintedIndexIsStored(raw, |raw|);
  }
}
