/** The item loop of `main`: every upstream item whose page could be fetched
    becomes an output entry with the images of its page appended to its
    description; an item whose page failed is skipped. */
module Pipeline {
  import opened Wrappers
  import Seqs
  import Rss
  import Feeds
  import Images
  import Enrich

  /** True of a page whose request succeeded. */
  predicate Fetched(page: Images.Page)
  {
    page.Success?
  }

  /** The output entry for an item whose page yielded `images`. */
  function MakeEntry(item: Rss.Item, images: seq<string>): (e: Feeds.Item)
    ensures e.title == item.title
    ensures e.link.href == item.link && e.id == item.link
    ensures item.description <= e.description
    ensures |images| == 0 ==> e.description == item.description + Enrich.Separator
  {
    Feeds.Item(
      item.title,
      Feeds.Link(item.link),
      Enrich.EnrichDescription(item.description, item.title, images),
      item.link)
  }

  /** The entries for `items`, where `pages[i]` is what the request for the
      page of `items[i]` produced. */
  function Entries(items: seq<Rss.Item>, pages: seq<Images.Page>): (es: seq<Feeds.Item>)
    requires |items| == |pages|
    ensures |es| == |Seqs.IndicesWhere(pages, Fetched)|
    ensures |es| <= |items|
    ensures |es| == |items| <==> forall i :: 0 <= i < |pages| ==> pages[i].Success?
    decreases |items|
  {
    if |items| == 0 then []
    else
      var n := |items| - 1;
      var es', last := Entries(items[..n], pages[..n]), EntryFor(items[n], pages[n]);
      assert |last| == if Fetched(pages[n]) then 1 else 0;
      Seqs.IndicesWhereSnoc(pages, Fetched);
      Seqs.IndicesWhereSpec(pages, Fetched);
      assert forall i :: 0 <= i < |pages| ==> (Fetched(pages[i]) <==> pages[i].Success?);
      es' + last
  }

  /** What one item contributes: no entry when its page failed, otherwise the
      entry built from the page's images. */
  function EntryFor(item: Rss.Item, page: Images.Page): (es: seq<Feeds.Item>)
    ensures Fetched(page) ==> es == [MakeEntry(item, Images.NormalizeAll(page.value))]
    ensures !Fetched(page) ==> es == []
  {
    match Images.FetchImages(page)
    case Failure(_) => []
    case Success(images) => [MakeEntry(item, images)]
  }

  /** The last item's contribution comes after those of the items before it. */
  lemma EntriesUnfold(items: seq<Rss.Item>, pages: seq<Images.Page>)
    requires |items| == |pages| > 0
    ensures Entries(items, pages)
         == Entries(items[..|items| - 1], pages[..|pages| - 1]) + EntryFor(items[|items| - 1], pages[|pages| - 1])
  {
  }

  /** Taking one more item adds exactly what that item contributes. */
  lemma EntriesStep(items: seq<Rss.Item>, pages: seq<Images.Page>, i: nat)
    requires |items| == |pages| && i < |items|
    ensures Entries(items[..i + 1], pages[..i + 1]) == Entries(items[..i], pages[..i]) + EntryFor(items[i], pages[i])
  {
    assert items[..i + 1][..i] == items[..i];
    assert pages[..i + 1][..i] == pages[..i];
  }

  /** The output feed for an upstream document: the channel's title, link and
      description, and the entries of its items. */
  function BuildFeed(rss: Rss.RSS, pages: seq<Images.Page>): (f: Feeds.Feed)
    requires |pages| == |rss.channel.items|
    ensures f.title == rss.channel.title
    ensures f.link.href == rss.channel.link
    ensures f.description == rss.channel.description
    ensures |f.items| <= |rss.channel.items|
    ensures |f.items| == |rss.channel.items| <==> forall i :: 0 <= i < |pages| ==> pages[i].Success?
  {
    Feeds.Feed(
      rss.channel.title,
      Feeds.Link(rss.channel.link),
      rss.channel.description,
      Entries(rss.channel.items, pages))
  }

  /** One pass of the item loop for an item whose page was fetched: collect
      its images, build its description, build its entry. */
  method EnrichItem(item: Rss.Item, srcs: seq<Option<string>>) returns (entry: Feeds.Item)
    ensures entry == MakeEntry(item, Images.NormalizeAll(srcs))
  {
    var images := Images.CollectImages(srcs);
    var html := Enrich.BuildDescription(item.description, item.title, images);
    entry := Feeds.Item(item.title, Feeds.Link(item.link), html, item.link);
  }

  /** One pass of the item loop: skip the item when its page failed,
      otherwise build its entry. */
  method ProcessItem(item: Rss.Item, page: Images.Page) returns (added: seq<Feeds.Item>)
    ensures added == EntryFor(item, page)
  {
    match page {
      case Failure(_) =>
        added := [];
      case Success(srcs) =>
        var entry := EnrichItem(item, srcs);
        added := [entry];
    }
  }

  /** The item loop of `main`, over the items in upstream order. */
  method CollectEntries(items: seq<Rss.Item>, pages: seq<Images.Page>) returns (entries: seq<Feeds.Item>)
    requires |items| == |pages|
    ensures entries == Entries(items, pages)
  {
    entries := [];
    var i := 0;
    while i < |items|
      invariant 0 <= i <= |items|
      invariant entries == Entries(items[..i], pages[..i])
    {
      EntriesStep(items, pages, i);
      var added := ProcessItem(items[i], pages[i]);
      entries := entries + added;
      i := i + 1;
    }
    assert items[..|items|] == items && pages[..|pages|] == pages;
  }

  /** The body of `main` between the upstream fetch and the serialisation:
      one page outcome per item, taken in order. */
  method Run(rss: Rss.RSS, pages: seq<Images.Page>) returns (feed: Feeds.Feed)
    requires |pages| == |rss.channel.items|
    ensures feed == BuildFeed(rss, pages)
  {
    feed := Feeds.Feed(rss.channel.title, Feeds.Link(rss.channel.link), rss.channel.description, []);
    var entries := CollectEntries(rss.channel.items, pages);
    feed := feed.(items := entries);
  }

  /** `es` holds, position by position, the entries for the items at the
      positions `ks`, each built from the images of its own page. */
  predicate Selects(items: seq<Rss.Item>, pages: seq<Images.Page>, ks: seq<nat>, es: seq<Feeds.Item>)
    requires |items| == |pages|
  {
    && |ks| == |es|
    && forall k :: 0 <= k < |es| ==>
         && ks[k] < |items|
         && pages[ks[k]].Success?
         && es[k] == MakeEntry(items[ks[k]], Images.NormalizeAll(pages[ks[k]].value))
  }

  /** The `k`-th entry is built from the `k`-th item whose page was fetched:
      failed items are dropped and upstream order is kept. */
  lemma {:induction false} EntriesSelect(items: seq<Rss.Item>, pages: seq<Images.Page>)
    requires |items| == |pages|
    ensures Selects(items, pages, Seqs.IndicesWhere(pages, Fetched), Entries(items, pages))
    decreases |items|
  {
    if |items| > 0 {
      var n := |items| - 1;
      EntriesSelect(items[..n], pages[..n]);
      EntriesUnfold(items, pages);
      Seqs.IndicesWhereSnoc(pages, Fetched);
      SelectsSnoc(items, pages, Seqs.IndicesWhere(pages[..n], Fetched), Entries(items[..n], pages[..n]),
                  Seqs.IndicesWhere(pages, Fetched), Entries(items, pages));
    }
  }

  /** Adding one item to the end adds its position and its entry when its
      page was fetched, and nothing otherwise. */
  lemma SelectsSnoc(items: seq<Rss.Item>, pages: seq<Images.Page>,
                    ks': seq<nat>, es': seq<Feeds.Item>, ks: seq<nat>, es: seq<Feeds.Item>)
    requires |items| == |pages| > 0
    requires Selects(items[..|items| - 1], pages[..|pages| - 1], ks', es')
    requires ks == ks' + if Fetched(pages[|pages| - 1]) then [|pages| - 1] else []
    requires es == es' + EntryFor(items[|items| - 1], pages[|pages| - 1])
    ensures Selects(items, pages, ks, es)
  {
    SelectsWiden(items, pages, ks', es');
    if Fetched(pages[|pages| - 1]) {
      SelectsAppend(items, pages, ks', es');
    } else {
      assert ks == ks' && es == es';
    }
  }

  /** What holds of the items and pages before the last one still holds with
      the last one added. */
  lemma SelectsWiden(items: seq<Rss.Item>, pages: seq<Images.Page>, ks: seq<nat>, es: seq<Feeds.Item>)
    requires |items| == |pages| > 0
    requires Selects(items[..|items| - 1], pages[..|pages| - 1], ks, es)
    ensures Selects(items, pages, ks, es)
  {
    var n := |items| - 1;
    forall k | 0 <= k < |es|
      ensures ks[k] < |items| && pages[ks[k]].Success?
      ensures es[k] == MakeEntry(items[ks[k]], Images.NormalizeAll(pages[ks[k]].value))
    {
      assert items[..n][ks[k]] == items[ks[k]] && pages[..n][ks[k]] == pages[ks[k]];
    }
  }

  /** A fetched last page adds its position and its entry at the end. */
  lemma SelectsAppend(items: seq<Rss.Item>, pages: seq<Images.Page>, ks: seq<nat>, es: seq<Feeds.Item>)
    requires |items| == |pages| > 0 && Fetched(pages[|pages| - 1])
    requires Selects(items, pages, ks, es)
    ensures Selects(items, pages, ks + [|items| - 1], es + EntryFor(items[|items| - 1], pages[|pages| - 1]))
  {
    var n := |items| - 1;
    var e := MakeEntry(items[n], Images.NormalizeAll(pages[n].value));
    assert EntryFor(items[n], pages[n]) == [e];
    var ks', es' := ks + [n], es + [e];
    forall k | 0 <= k < |es'|
      ensures ks'[k] < |items| && pages[ks'[k]].Success?
      ensures es'[k] == MakeEntry(items[ks'[k]], Images.NormalizeAll(pages[ks'[k]].value))
    {
      if k < |es| {
        assert ks'[k] == ks[k] && es'[k] == es[k];
      }
    }
  }

  /** Every item whose page was fetched has its entry in the output; a failure
      on one page does not keep any other item out. */
  lemma EntriesKeepFetched(items: seq<Rss.Item>, pages: seq<Images.Page>, i: nat)
    requires |items| == |pages|
    requires i < |pages| && pages[i].Success?
    ensures exists k :: (0 <= k < |Entries(items, pages)|
      && Entries(items, pages)[k] == MakeEntry(items[i], Images.NormalizeAll(pages[i].value)))
  {
    var ks := Seqs.IndicesWhere(pages, Fetched);
    Seqs.IndicesWhereSpec(pages, Fetched);
    assert Fetched(pages[i]);
    var k :| 0 <= k < |ks| && ks[k] == i;
    EntriesSelect(items, pages);
    assert Entries(items, pages)[k] == MakeEntry(items[i], Images.NormalizeAll(pages[i].value));
  }

  /** An item whose page failed has no entry: no entry carries its link unless
      another item shares that link. */
  lemma EntriesDropFailed(items: seq<Rss.Item>, pages: seq<Images.Page>, i: nat)
    requires |items| == |pages|
    requires i < |pages| && pages[i].Failure?
    requires forall j :: 0 <= j < |items| && j != i ==> items[j].link != items[i].link
    ensures forall e :: e in Entries(items, pages) ==> e.id != items[i].link
  {
    EntriesSelect(items, pages);
    var ks := Seqs.IndicesWhere(pages, Fetched);
    forall e | e in Entries(items, pages)
      ensures e.id != items[i].link
    {
      var k :| 0 <= k < |Entries(items, pages)| && Entries(items, pages)[k] == e;
      assert ks[k] != i;
    }
  }

  /** When every page was fetched, the output has one entry per item, in the
      same order. */
  lemma EntriesAllFetched(items: seq<Rss.Item>, pages: seq<Images.Page>)
    requires |items| == |pages|
    requires forall i :: 0 <= i < |pages| ==> pages[i].Success?
    ensures |Entries(items, pages)| == |items|
    ensures forall k :: 0 <= k < |items| ==>
      Entries(items, pages)[k] == MakeEntry(items[k], Images.NormalizeAll(pages[k].value))
  {
    EntriesSelect(items, pages);
    var ks := Seqs.IndicesWhere(pages, Fetched);
    Seqs.IndicesWhereSpec(pages, Fetched);
    IncreasingFullIsIdentity(ks, |pages|);
  }

  /** A strictly increasing sequence of `n` positions below `n` lists them
      all, each in its own place. */
  lemma {:induction false} IncreasingFullIsIdentity(ks: seq<nat>, n: nat)
    requires |ks| == n
    requires forall k :: 0 <= k < |ks| ==> ks[k] < n
    requires forall k, l :: 0 <= k < l < |ks| ==> ks[k] < ks[l]
    ensures forall k :: 0 <= k < |ks| ==> ks[k] == k
    decreases n
  {
    if n > 0 {
      var front := ks[..n - 1];
      assert forall k :: 0 <= k < n - 1 ==> front[k] < ks[n - 1];
      IncreasingFullIsIdentity(front, n - 1);
      if n > 1 {
        assert ks[n - 2] == front[n - 2] == n - 2;
      }
      assert ks[n - 1] == n - 1;
    }
  }

  /** Entry identifiers are upstream links, so distinct upstream links give
      distinct identifiers. */
  lemma EntryIdsDistinct(items: seq<Rss.Item>, pages: seq<Images.Page>)
    requires |items| == |pages|
    requires forall i, j :: 0 <= i < j < |items| ==> items[i].link != items[j].link
    ensures forall k, l :: 0 <= k < l < |Entries(items, pages)| ==>
      Entries(items, pages)[k].id != Entries(items, pages)[l].id
  {
    Seqs.IndicesWhereSpec(pages, Fetched);
    EntriesSelect(items, pages);
  }

  /** The feed does not depend on the channel fields the pipeline does not copy:
      the `version` attribute, `lastBuildDate`, `docs` and `language`. */
  lemma BuildFeedIgnoresUnusedFields(a: Rss.RSS, b: Rss.RSS, pages: seq<Images.Page>)
    requires |pages| == |a.channel.items|
    requires a.channel.title == b.channel.title && a.channel.link == b.channel.link
    requires a.channel.description == b.channel.description && a.channel.items == b.channel.items
    ensures BuildFeed(a, pages) == BuildFeed(b, pages)
  {
  }
}
