/** Building the article record of one raw entry. */
module Normalize {
  import opened Records
  import opened Summary
  import opened Dates

  /** An entry normalised into an article, or the attribute whose lookup raised. */
  datatype Outcome = Built(article: Article) | MissingAttribute(name: string)

  /** The record of `entry` from source `source`. The record reads `title` before `link`,
      and a missing one of them raises; the date and the summary never do. */
  function NormalizeEntry(source: string, entry: RawEntry, now: int): (r: Outcome)
    ensures r.Built? <==> entry.title.Some? && entry.link.Some?
    ensures r.MissingAttribute? ==> r.name == (if entry.title.None? then "title" else "link")
    ensures r.Built? ==>
      r.article.source == source && r.article.title == entry.title.value && r.article.link == entry.link.value
  {
    var stamp := ResolveDate(entry.published, now);
    var summary := CleanSummary(entry.summary);
    match entry.title
    case None => MissingAttribute("title")
    case Some(title) =>
      match entry.link
      case None => MissingAttribute("link")
      case Some(link) => Built(Article(source, title, link, summary, stamp.timestamp, stamp.date))
  }

  /** A built article carries the entry's clean summary and resolved date, and so the record
      invariants: a summary of at most 203 characters without '<', and a "Just now" date exactly
      when the timestamp is the fallback clock value. */
  lemma BuiltArticleInvariants(source: string, entry: RawEntry, now: int)
    requires NormalizeEntry(source, entry, now).Built?
    ensures var a := NormalizeEntry(source, entry, now).article;
      a.summary == CleanSummary(entry.summary) &&
      Stamp(a.timestamp, a.date) == ResolveDate(entry.published, now) &&
      |a.summary| <= SummaryCap + |Ellipsis| && '<' !in a.summary &&
      (a.date == JustNow <==> entry.published.None? || entry.published.value.parsed.None?) &&
      (a.date == JustNow ==> a.timestamp == now)
  {
    CleanSummaryHasNoTag(entry.summary);
    ResolveDateFallback(entry.published, now);
  }
}
