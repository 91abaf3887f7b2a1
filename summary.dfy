/** The summary clean-up applied to every entry: cut at the first '<', then cap the length. */
module Summary {
  import opened Wrappers

  /** Characters kept before the ellipsis when a summary is too long. */
  const SummaryCap: nat := 200
  const Ellipsis: string := "..."

  /** The position of the first '<' in `s`, or |s| when there is none. */
  function TagIndex(s: string): (i: nat)
    ensures i <= |s|
    ensures forall k :: 0 <= k < i ==> s[k] != '<'
    ensures i < |s| ==> s[i] == '<'
  {
    if s == [] || s[0] == '<' then 0 else 1 + TagIndex(s[1..])
  }

  /** `summary.split('<')[0]`, applied when the text contains a '<'. */
  function StripAtTag(s: string): string {
    if '<' in s then s[..TagIndex(s)] else s
  }

  /** The length cap: texts longer than SummaryCap keep their first SummaryCap characters
      followed by the ellipsis. */
  function Truncate(s: string): string {
    if |s| > SummaryCap then s[..SummaryCap] + Ellipsis else s
  }

  /** The stored summary of an entry whose `summary` attribute is `raw` (absent reads as ""). */
  function CleanSummary(raw: Option<string>): (r: string)
    ensures |r| <= SummaryCap + |Ellipsis|
  {
    Truncate(StripAtTag(raw.GetOr("")))
  }

  /** The cut keeps exactly the text before the first '<': a prefix of the input without '<',
      all of the input when it has no '<'. */
  lemma StripAtTagKeepsTextBeforeTag(s: string)
    ensures var r := StripAtTag(s);
      |r| <= |s| && r == s[..|r|] && '<' !in r &&
      ('<' !in s ==> r == s) &&
      ('<' in s ==> s[|r|] == '<')
  {
    var i := TagIndex(s);
    if '<' in s {
      var j :| 0 <= j < |s| && s[j] == '<';
      assert i <= j;
    }
    assert forall c :: c in s[..i] ==> c != '<' by {
      forall c | c in s[..i] ensures c != '<' {
        var k :| 0 <= k < i && s[..i][k] == c;
      }
    }
  }

  /** A stored summary contains no '<'. */
  lemma CleanSummaryHasNoTag(raw: Option<string>)
    ensures '<' !in CleanSummary(raw)
  {
    var s := StripAtTag(raw.GetOr(""));
    StripAtTagKeepsTextBeforeTag(raw.GetOr(""));
    if |s| > SummaryCap {
      assert forall c :: c in s[..SummaryCap] ==> c in s;
      assert '<' !in Ellipsis;
    }
  }

  /** A clean text within the cap is stored as it is: a prefix of the raw text, and all of it
      when the raw text has no '<'. */
  lemma ShortSummaryIsPrefix(raw: Option<string>)
    requires |StripAtTag(raw.GetOr(""))| <= SummaryCap
    ensures var r := CleanSummary(raw);
      r == StripAtTag(raw.GetOr("")) &&
      r == raw.GetOr("")[..|r|] && '<' !in r &&
      (|r| == |raw.GetOr("")| || raw.GetOr("")[|r|] == '<') &&
      ('<' !in raw.GetOr("") ==> r == raw.GetOr(""))
  {
    StripAtTagKeepsTextBeforeTag(raw.GetOr(""));
  }

  /** A clean text over the cap is stored as its first SummaryCap characters and the ellipsis,
      203 characters in all. */
  lemma LongSummaryIsTruncated(raw: Option<string>)
    requires |StripAtTag(raw.GetOr(""))| > SummaryCap
    ensures var r := CleanSummary(raw);
      |r| == SummaryCap + |Ellipsis| &&
      r[..SummaryCap] == raw.GetOr("")[..SummaryCap] &&
      r[SummaryCap..] == Ellipsis
  {
    StripAtTagKeepsTextBeforeTag(raw.GetOr(""));
  }

  /** The stored summary is empty exactly when the attribute is absent, empty, or starts with a
      tag; an empty summary carries no ellipsis. */
  lemma EmptySummary(raw: Option<string>)
    ensures CleanSummary(raw) == [] <==> raw.None? || raw.value == [] || raw.value[0] == '<'
  {
    var s := raw.GetOr("");
    StripAtTagKeepsTextBeforeTag(s);
    if s != [] && s[0] == '<' {
      assert '<' in s;
    }
  }

  /** The ellipsis is there exactly when the text before the first '<' is over the cap. */
  lemma EllipsisOnlyWhenTruncated(raw: Option<string>)
    ensures var r := CleanSummary(raw);
      (|r| > SummaryCap && r[SummaryCap..] == Ellipsis) <==> |StripAtTag(raw.GetOr(""))| > SummaryCap
  {
  }

  /** Text without '<' in front of a tag is what the cut keeps. */
  lemma {:induction false} TagIndexAfterPlainText(a: string, b: string)
    requires '<' !in a && b != [] && b[0] == '<'
    ensures TagIndex(a + b) == |a|
  {
    if a == [] {
      assert a + b == b;
    } else {
      assert (a + b)[0] == a[0] && (a + b)[1..] == a[1..] + b;
      assert a[0] in a;
      assert '<' !in a[1..] by { assert forall c :: c in a[1..] ==> c in a; }
      TagIndexAfterPlainText(a[1..], b);
    }
  }

  /** Plain text followed by markup, such as "Breaking news happens <img src=x>", is stored as
      the plain text alone when it fits the cap. */
  lemma TextBeforeMarkupKept(text: string, markup: string)
    requires '<' !in text && |text| <= SummaryCap
    requires markup != [] && markup[0] == '<'
    ensures CleanSummary(Some(text + markup)) == text
  {
    TagIndexAfterPlainText(text, markup);
    assert (text + markup)[|text|] == '<';
    assert (text + markup)[..|text|] == text;
  }
}
