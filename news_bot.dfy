/** The aggregation run: every configured feed is visited in order, each contributes at most
    EntryCap articles to one shared list, and the list is then ranked newest first. */
module NewsBot {
  import opened Records
  import opened Normalize
  import opened Ranking

  /** Entries taken from the front of each feed. */
  const EntryCap: nat := 15

  /** The number of leading entries of a feed that are processed. */
  function Taken(entries: seq<RawEntry>): (n: nat)
    ensures n <= EntryCap && n <= |entries|
    ensures n == EntryCap || n == |entries|
  {
    if |entries| <= EntryCap then |entries| else EntryCap
  }

  /** The articles appended while walking entries `from` up to `to`: one per entry, until the
      first entry whose record cannot be built; that failure abandons the entries after it. */
  function EntryArticles(source: string, entries: seq<RawEntry>, from: nat, to: nat, now: int): seq<Article>
    requires from <= to <= |entries|
    decreases |entries| - from
  {
    if from == to then []
    else match NormalizeEntry(source, entries[from], now)
      case MissingAttribute(_) => []
      case Built(a) => [a] + EntryArticles(source, entries, from + 1, to, now)
  }

  /** What one source contributes: nothing when its feed cannot be retrieved, otherwise the
      articles of its first EntryCap entries up to the first failing one. */
  function SourceArticles(source: string, url: string, web: Web, now: int): seq<Article> {
    if url in web then EntryArticles(source, web[url], 0, Taken(web[url]), now) else []
  }

  /** What the first n sources of the registry contribute, in registry order. */
  function Collected(feeds: seq<FeedDescriptor>, n: nat, web: Web, now: int): seq<Article>
    requires n <= |feeds|
  {
    if n == 0 then []
    else Collected(feeds, n - 1, web, now) + SourceArticles(feeds[n - 1].source, feeds[n - 1].url, web, now)
  }

  /** Collecting one more source appends its contribution. */
  lemma CollectedNext(feeds: seq<FeedDescriptor>, i: nat, web: Web, now: int)
    requires i < |feeds|
    ensures Collected(feeds, i + 1, web, now) ==
      Collected(feeds, i, web, now) + SourceArticles(feeds[i].source, feeds[i].url, web, now)
  {
  }

  lemma ConcatAssoc(a: seq<Article>, b: seq<Article>, c: seq<Article>)
    ensures (a + b) + c == a + (b + c)
  {
  }

  /** The walk from entry `from` never yields more articles than entries it walked. */
  lemma {:induction false} EntryArticlesLength(source: string, entries: seq<RawEntry>, from: nat, to: nat, now: int)
    requires from <= to <= |entries|
    decreases |entries| - from
    ensures |EntryArticles(source, entries, from, to, now)| <= to - from
  {
    if from < to && NormalizeEntry(source, entries[from], now).Built? {
      EntryArticlesLength(source, entries, from + 1, to, now);
    }
  }

  /** Article k of the walk from entry `from` is the record of entry from + k. */
  lemma {:induction false} EntryArticlesRecords(source: string, entries: seq<RawEntry>, from: nat, to: nat, now: int, k: nat)
    requires from <= to <= |entries|
    requires k < |EntryArticles(source, entries, from, to, now)|
    decreases k
    ensures from + k < to
    ensures NormalizeEntry(source, entries[from + k], now) == Built(EntryArticles(source, entries, from, to, now)[k])
  {
    if k > 0 {
      EntryArticlesRecords(source, entries, from + 1, to, now, k - 1);
    }
  }

  /** The walk stops early only at an entry whose record cannot be built. */
  lemma {:induction false} EntryArticlesStop(source: string, entries: seq<RawEntry>, from: nat, to: nat, now: int)
    requires from <= to <= |entries|
    decreases |entries| - from
    ensures var r := EntryArticles(source, entries, from, to, now);
      |r| < to - from ==> NormalizeEntry(source, entries[from + |r|], now).MissingAttribute?
  {
    if from < to && NormalizeEntry(source, entries[from], now).Built? {
      EntryArticlesStop(source, entries, from + 1, to, now);
      EntryArticlesLength(source, entries, from + 1, to, now);
    }
  }

  /** The walk from entry `from` keeps a prefix of the entries: article k is the record of entry
      from + k, and the walk stops early only at an entry whose record cannot be built. */
  lemma EntryArticlesStopAtFirstFailure(source: string, entries: seq<RawEntry>, from: nat, to: nat, now: int)
    requires from <= to <= |entries|
    ensures var r := EntryArticles(source, entries, from, to, now);
      |r| <= to - from &&
      (forall k :: 0 <= k < |r| ==> NormalizeEntry(source, entries[from + k], now) == Built(r[k])) &&
      (|r| < to - from ==> NormalizeEntry(source, entries[from + |r|], now).MissingAttribute?)
  {
    EntryArticlesLength(source, entries, from, to, now);
    EntryArticlesStop(source, entries, from, to, now);
    forall k | 0 <= k < |EntryArticles(source, entries, from, to, now)|
      ensures NormalizeEntry(source, entries[from + k], now) == Built(EntryArticles(source, entries, from, to, now)[k])
    {
      EntryArticlesRecords(source, entries, from, to, now, k);
    }
  }

  /** When every walked entry has a title and a link, no entry is lost. */
  lemma EntryArticlesKeepAll(source: string, entries: seq<RawEntry>, to: nat, now: int)
    requires to <= |entries|
    requires forall k :: 0 <= k < to ==> entries[k].title.Some? && entries[k].link.Some?
    ensures |EntryArticles(source, entries, 0, to, now)| == to
  {
    EntryArticlesStopAtFirstFailure(source, entries, 0, to, now);
  }

  /** A walk whose k-th entry is the first to lack a title or a link yields exactly the records of
      the entries before it. */
  lemma {:induction false} EntryArticlesAbortAt(source: string, entries: seq<RawEntry>, from: nat, to: nat, now: int, k: nat)
    requires from <= k < to <= |entries|
    requires forall j :: from <= j < k ==> entries[j].title.Some? && entries[j].link.Some?
    requires entries[k].title.None? || entries[k].link.None?
    decreases k - from
    ensures |EntryArticles(source, entries, from, to, now)| == k - from
  {
    if from < k {
      EntryArticlesAbortAt(source, entries, from + 1, to, now, k);
    }
  }

  /** A source contributes nothing when its feed cannot be retrieved, and at most EntryCap
      articles otherwise; article k comes from entry k of the feed, labelled with the source,
      with the entry's title and link. */
  lemma SourceArticlesFromLeadingEntries(source: string, url: string, web: Web, now: int)
    ensures var r := SourceArticles(source, url, web, now);
      (url !in web ==> r == []) &&
      |r| <= EntryCap &&
      (url in web ==>
        var entries := web[url];
        |r| <= |entries| &&
        forall k :: 0 <= k < |r| ==>
          NormalizeEntry(source, entries[k], now) == Built(r[k]) &&
          r[k].source == source &&
          r[k].title == entries[k].title.value && r[k].link == entries[k].link.value)
  {
    if url in web {
      var entries := web[url];
      EntryArticlesStopAtFirstFailure(source, entries, 0, Taken(entries), now);
    }
  }

  /** A source whose k-th leading entry is the first to lack a title or a link contributes exactly
      the records of the k entries before it; the rest of the feed is skipped. */
  lemma SourceArticlesAbortAt(source: string, url: string, web: Web, now: int, k: nat)
    requires url in web
    requires k < |web[url]| && k < EntryCap
    requires forall j :: 0 <= j < k ==> web[url][j].title.Some? && web[url][j].link.Some?
    requires web[url][k].title.None? || web[url][k].link.None?
    ensures |SourceArticles(source, url, web, now)| == k
  {
    EntryArticlesAbortAt(source, web[url], 0, Taken(web[url]), now, k);
  }

  /** A run collects at most EntryCap articles per configured source. */
  lemma {:induction false} CollectedBound(feeds: seq<FeedDescriptor>, n: nat, web: Web, now: int)
    requires n <= |feeds|
    ensures |Collected(feeds, n, web, now)| <= EntryCap * n
  {
    if n > 0 {
      CollectedBound(feeds, n - 1, web, now);
      SourceArticlesFromLeadingEntries(feeds[n - 1].source, feeds[n - 1].url, web, now);
    }
  }

  /** Whatever later sources do, the articles of the earlier sources stay collected, in front. */
  lemma {:induction false} CollectedKeepsEarlier(feeds: seq<FeedDescriptor>, i: nat, n: nat, web: Web, now: int)
    requires i <= n <= |feeds|
    decreases n
    ensures Collected(feeds, i, web, now) <= Collected(feeds, n, web, now)
  {
    if i < n {
      CollectedKeepsEarlier(feeds, i, n - 1, web, now);
    }
  }

  /** Every collected article is labelled with the name of a configured source. */
  lemma {:induction false} CollectedSources(feeds: seq<FeedDescriptor>, n: nat, web: Web, now: int)
    requires n <= |feeds|
    ensures forall a :: a in Collected(feeds, n, web, now) ==>
      exists j :: 0 <= j < n && a.source == feeds[j].source
  {
    if n > 0 {
      var last := feeds[n - 1];
      CollectedSources(feeds, n - 1, web, now);
      SourceArticlesFromLeadingEntries(last.source, last.url, web, now);
      forall a | a in Collected(feeds, n, web, now)
        ensures exists j :: 0 <= j < n && a.source == feeds[j].source
      {
        if a !in Collected(feeds, n - 1, web, now) {
          var r := SourceArticles(last.source, last.url, web, now);
          assert a in r;
          var k :| 0 <= k < |r| && r[k] == a;
          assert a.source == feeds[n - 1].source;
        }
      }
    }
  }

  /** The published timeline of a run: newest first, a permutation of what was collected, equal
      timestamps in collection order, and at most EntryCap articles per source. */
  lemma RankedTimeline(feeds: seq<FeedDescriptor>, web: Web, now: int)
    ensures var collected := Collected(feeds, |feeds|, web, now);
      var ranked := SortNewestFirst(collected);
      NewestFirst(ranked) &&
      multiset(ranked) == multiset(collected) &&
      (forall t :: WithTimestamp(ranked, t) == WithTimestamp(collected, t)) &&
      |ranked| <= EntryCap * |feeds|
  {
    var collected := Collected(feeds, |feeds|, web, now);
    SortNewestFirstCorrect(collected);
    CollectedBound(feeds, |feeds|, web, now);
    assert |SortNewestFirst(collected)| == |multiset(SortNewestFirst(collected))|;
  }

  /** The module-level article list and the operations that fill and rank it. */
  class Pipeline {
    var articles: seq<Article>

    constructor ()
      ensures articles == []
    {
      articles := [];
    }

    /** `parse_feed`: retrieves one feed and appends an article per leading entry. A failed
        retrieval, like a failed record in the loop, is absorbed by the handler around the body:
        the articles already appended stay. */
    method ParseFeed(sourceName: string, url: string, web: Web, now: int)
      modifies this
      ensures articles == old(articles) + SourceArticles(sourceName, url, web, now)
    {
      if url !in web {
        return;
      }
      AppendEntries(sourceName, web[url], now);
    }

    /** The loop of `parse_feed` over the leading entries. The date lookup has its own fallback;
        a missing title or link raises and leaves the loop, so the entries after it are skipped. */
    method AppendEntries(sourceName: string, entries: seq<RawEntry>, now: int)
      modifies this
      ensures articles == old(articles) + EntryArticles(sourceName, entries, 0, Taken(entries), now)
    {
      var n := Taken(entries);
      ghost var appended := EntryArticles(sourceName, entries, 0, n, now);
      var i := 0;
      while i < n
        invariant 0 <= i <= n
        invariant old(articles) + appended == articles + EntryArticles(sourceName, entries, i, n, now)
      {
        var outcome := NormalizeEntry(sourceName, entries[i], now);
        if outcome.MissingAttribute? {
          break;
        }
        ConcatAssoc(articles, [outcome.article], EntryArticles(sourceName, entries, i + 1, n, now));
        articles := articles + [outcome.article];
        i := i + 1;
      }
    }

    /** `main`: visits every configured feed in order, then ranks the list newest first. */
    method Run(feeds: seq<FeedDescriptor>, web: Web, now: int)
      modifies this
      ensures articles == SortNewestFirst(old(articles) + Collected(feeds, |feeds|, web, now))
    {
      ParseAll(feeds, web, now);
      SortByTimestamp();
    }

    /** The loop of `main` over the configured feeds, one ParseFeed per feed, in order. */
    method ParseAll(feeds: seq<FeedDescriptor>, web: Web, now: int)
      modifies this
      ensures articles == old(articles) + Collected(feeds, |feeds|, web, now)
    {
      for i := 0 to |feeds|
        invariant articles == old(articles) + Collected(feeds, i, web, now)
      {
        ParseFeed(feeds[i].source, feeds[i].url, web, now);
        CollectedNext(feeds, i, web, now);
        ConcatAssoc(old(articles), Collected(feeds, i, web, now), SourceArticles(feeds[i].source, feeds[i].url, web, now));
      }
    }

    /** `articles.sort(key=timestamp, reverse=True)`: a stable sort, newest first. */
    method SortByTimestamp()
      modifies this
      ensures articles == SortNewestFirst(old(articles))
    {
      articles := SortNewestFirst(articles);
    }
  }
}
