/** The records that flow through the aggregation pipeline. */
module Records {
  import opened Wrappers

  /** One raw item of a syndication feed. Every attribute the pipeline reads may be absent. */
  datatype RawEntry = RawEntry(
    title: Option<string>,
    link: Option<string>,
    summary: Option<string>,
    published: Option<Published>)

  type Hour = h: int | 0 <= h < 24
  type Minute = m: int | 0 <= m < 60
  type Month = m: int | 1 <= m <= 12 witness 1
  type Day = d: int | 1 <= d <= 31 witness 1

  /** What the date parser yields for a `published` text: the epoch seconds and the
      calendar fields that the display format shows. */
  datatype DateTime = DateTime(epoch: int, hour: Hour, minute: Minute, month: Month, day: Day)

  /** A `published` attribute: its text, and what parsing it, converting it to epoch seconds and
      formatting it yield, or None when one of those raises. The parser is an external capability,
      so its verdict is supplied with the text. */
  datatype Published = Published(text: string, parsed: Option<DateTime>)

  /** The canonical output record, one per accepted entry. */
  datatype Article = Article(
    source: string,
    title: string,
    link: string,
    summary: string,
    timestamp: int,
    date: string)

  /** A configured source: its label and its feed address. */
  datatype FeedDescriptor = FeedDescriptor(source: string, url: string)

  /** The feeds as retrieval finds them: the entries served at each address. Retrieval is an
      external capability; an address missing from the map is one whose retrieval or parsing fails. */
  type Web = map<string, seq<RawEntry>>
}
