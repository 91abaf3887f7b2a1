# NewsPage aggregation bot, modelled in Dafny

`news_bot.py` builds the news page's data. It visits a fixed list of wire-service feeds
(`FEEDS`) in order. From each feed it takes the first 15 entries and turns each one into an
article record:

- the source label;
- the title and the link;
- a cleaned summary: the text is cut at the first `<`, then capped at 200 characters plus
  `"..."`;
- a timestamp and a display date. These come from the entry's `published` text. When that text
  is absent or does not parse, the fallback is the current time with the date "Just now".

The records go onto one module-level list. An entry that has no title or no link raises. That
exception ends the work on its feed, but the records already appended stay. Once every feed has
been visited, the list is sorted newest first with Python's stable sort, then written out as
JSON.

The model has seven modules:

- `Wrappers` holds `Option`.
- `Records` holds the entities: raw entries, parsed dates, articles, feed descriptors, and the
  `Web` map of what each feed address serves.
- `Summary` holds the summary clean-up.
- `Dates` holds the timestamp and date resolution, with its fallback.
- `Normalize` builds one record, or reports which attribute lookup raised.
- `NewsBot` holds the per-feed walk, the collection over all feeds, and the class
  `NewsBot.Pipeline`.
- `Ranking` holds the stable newest-first ordering.

The module-level list `articles` becomes the
field of `Pipeline`, and its methods update that field in place:

- `ParseFeed` models `parse_feed`;
- `AppendEntries` models its loop;
- `ParseAll` models the loop of `main`;
- `SortByTimestamp` models the sort;
- `Run` models `main`.

Each method is proved against a specification function, and the properties are stated as lemmas
about those functions.

## Model

| member | source | states |
|---|---|---|
| Summary.StripAtTagKeepsTextBeforeTag | news_bot.py:37-39 | The cut result is a prefix of the text and contains no '<'. It is the whole text when there is no '<'. Otherwise the character right after the kept part is the first '<'. |
| Summary.CleanSummary | news_bot.py:36-45 | A stored summary is never longer than 203 characters, which is 200 plus the ellipsis. |
| Summary.CleanSummaryHasNoTag | news_bot.py:36-45 | A stored summary never contains '<', even after truncation. |
| Summary.ShortSummaryIsPrefix | news_bot.py:36-45 | When the cut text fits in 200 characters, it is stored as is: the longest prefix of the raw summary without '<', ending at the end of the text or right before its first '<', and the whole raw summary when that has no '<'. |
| Summary.LongSummaryIsTruncated | news_bot.py:45 | When the cut text is over 200 characters, the stored summary is exactly 203 characters: the first 200 characters of the raw text, then "...". |
| Summary.EmptySummary | news_bot.py:36-39 | The stored summary is empty exactly when the attribute is absent, empty, or starts with '<'. An absent summary therefore becomes "" with no ellipsis. |
| Summary.EllipsisOnlyWhenTruncated | news_bot.py:45 | The stored summary ends in the ellipsis past position 200 if and only if the cut text was longer than 200. |
| Summary.TextBeforeMarkupKept | news_bot.py:36-39 | Plain text of at most 200 characters followed by markup starting with '<' is stored as the plain text alone. |
| Dates.TwoDigits | news_bot.py:30 | The zero-padded fields of the display format are two decimal digits. |
| Dates.FormatDateIsNotJustNow | news_bot.py:30 | A formatted date is 14 characters with ':' third, so it never equals "Just now". |
| Dates.ResolveDateFallback | news_bot.py:26-33 | The date is "Just now" if and only if `published` is absent or does not parse, and then the timestamp is the current time. Otherwise the timestamp is the parsed epoch and the date is its rendering. |
| Dates.ParsedDateScenario | news_bot.py:26-30 | A published time parsed to epoch 1700000000 gives timestamp 1700000000 and a date other than "Just now". |
| Normalize.NormalizeEntry | news_bot.py:41-48 | A record is built if and only if the entry has both a title and a link. Otherwise the failing lookup is named: the title first, then the link. A built record copies the source label, title and link. |
| Normalize.BuiltArticleInvariants | news_bot.py:26-48 | A built record carries the entry's cleaned summary and its resolved timestamp and date. Its summary has at most 203 characters and no '<'. Its date is "Just now" exactly on the fallback, which also sets the timestamp to the current time. |
| NewsBot.Taken | news_bot.py:23 | The slice `[:15]` takes 15 entries, or every entry when the feed has fewer. |
| NewsBot.EntryArticlesLength | news_bot.py:23-48 | A walk over entries never yields more articles than it walked. |
| NewsBot.EntryArticlesRecords | news_bot.py:23-48 | Article k of a walk is the record built from the k-th walked entry. |
| NewsBot.EntryArticlesStop | news_bot.py:23-50 | A walk ends early only at an entry whose record cannot be built. |
| NewsBot.EntryArticlesStopAtFirstFailure | news_bot.py:23-50 | The walk keeps a prefix of the entries, article k comes from entry k, and it stops early only at a failing entry. |
| NewsBot.EntryArticlesKeepAll | news_bot.py:23-48 | When every walked entry has a title and a link, the walk yields one article per entry. |
| NewsBot.EntryArticlesAbortAt | news_bot.py:41-50 | When entry k is the first without a title or a link, the walk yields exactly the k articles before it. |
| NewsBot.SourceArticlesFromLeadingEntries | news_bot.py:21-50 | A feed that cannot be retrieved contributes nothing. Any feed contributes at most 15 articles, and article k is feed entry k's record, labelled with the source and carrying its title and link. |
| NewsBot.SourceArticlesAbortAt | news_bot.py:23-50 | A feed whose k-th leading entry is the first to lack a title or a link contributes exactly k articles. The rest of the feed is skipped. |
| NewsBot.CollectedBound | news_bot.py:23-54 | A run over n feeds collects at most 15 × n articles. |
| NewsBot.CollectedKeepsEarlier | news_bot.py:49-54 | The articles of the earlier feeds stay at the front of the list, whatever later feeds do. |
| NewsBot.CollectedSources | news_bot.py:42-54 | Every collected article is labelled with the name of a configured source. |
| NewsBot.RankedTimeline | news_bot.py:52-57 | The final list is newest first and a permutation of what was collected. Equal timestamps keep collection order. It has at most 15 articles per configured feed. |
| NewsBot.Pipeline.constructor | news_bot.py:17 | The article list starts empty. |
| NewsBot.Pipeline.ParseFeed | news_bot.py:19-50 | `parse_feed` appends exactly that feed's contribution to the list and changes nothing else. A failed retrieval appends nothing. |
| NewsBot.Pipeline.AppendEntries | news_bot.py:23-48 | The entry loop appends the articles of the leading entries up to the first one that raises, and keeps what came before. |
| NewsBot.Pipeline.ParseAll | news_bot.py:53-54 | The loop over the feeds appends every feed's contribution, in configuration order. |
| NewsBot.Pipeline.SortByTimestamp | news_bot.py:57 | The list is replaced by its stable newest-first ranking. |
| NewsBot.Pipeline.Run | news_bot.py:52-57 | `main` leaves the ranking of the earlier contents plus everything collected from the feeds. |
| Ranking.InsertPermutes | news_bot.py:57 | Inserting an article adds exactly that article to the multiset. |
| Ranking.InsertRanked | news_bot.py:57 | Inserting into a newest-first list keeps it newest first. |
| Ranking.InsertGroups | news_bot.py:57 | Every timestamp group after inserting an article is the group of the article followed by the list, so the new article comes first among those with its timestamp. |
| Ranking.WithTimestampAppend | news_bot.py:57 | The timestamp groups of a concatenation are the concatenated groups. |
| Ranking.SortNewestFirstCorrect | news_bot.py:57 | The ranking is non-increasing in timestamp and a permutation of its input. It is stable: every timestamp group keeps its input order. |
| Ranking.StableRankingUnique | news_bot.py:57 | Any newest-first sequence that keeps every timestamp group of the input in input order is the ranking. So the ranking is the result of Python's stable `sort(reverse=True)`. |
| Ranking.RankedByGroupsUnique | news_bot.py:57 | Two newest-first sequences with the same timestamp groups are equal. |
| Ranking.RankingScenario | news_bot.py:57 | Articles stamped 100, 300 and 200, collected in that order, rank as 300, 200, 100. |

## Left out

- Feed retrieval and parsing (`feedparser.parse`, line 22) is an external library. It is
  modelled as the `Web` map from feed address to the entries served there. An address missing
  from the map is a failed retrieval, which the handler at lines 49-50 absorbs. The model does
  not capture other exceptions the library might raise partway through a feed.
- Date parsing and formatting (`date_parser.parse`, `timestamp()`, `strftime`, lines 28-30) are
  supplied with each `published` text as `Published.parsed`. This is the epoch seconds and the
  calendar fields, or None when any of the three steps raises. The display format is written
  out with the C locale's month abbreviations. Time zones and the local-time reading of naive
  dates belong to the parser and are not modelled.
- Timestamps are whole seconds (`int`). The source's floating-point epoch seconds are not
  modelled.
- NewsBot.Pipeline.Run: `time.time()` (line 32) is a single parameter `now` for the whole run.
  The source reads the clock once per falling-back entry, so the model does not capture
  fallback timestamps that differ between entries. In the source, entries that fall back
  later get larger timestamps, so the sort at line 57 puts them first. In the model they all
  share `now`, so the sort keeps them in collection order, which is the reverse.
- The JSON write (lines 60-61) and the progress and failure messages (lines 20, 50, 63) are
  output only. The text of the exception in the failure message is not modelled.
- The six `FEEDS` literals (lines 8-15) are configuration. Every operation takes the feed list
  as a parameter, so any registry is covered.
- Attributes of the wrong type are not modelled, for example a `summary` that is not a string.
  Every attribute is a string or absent.
- Other revisions of this bot behave differently, and `news_bot.py` does none of the
  following. The model follows the code:
  - a total cap of 300 articles after ranking;
  - falling back to `updated_parsed` for dates and to `description` for summaries;
  - the placeholders "No Title" and "#" for a missing title or link.

  In the code, a missing title or link raises and ends that feed's walk, and the model does
  exactly that.
- `main` is named `Run` in the model.
