/** Ranking of the collected articles: newest first, equal timestamps in collection order,
    as a stable sort on the timestamp in descending order does. */
module Ranking {
  import opened Records

  /** Non-increasing in timestamp. */
  predicate NewestFirst(s: seq<Article>) {
    forall i, j :: 0 <= i < j < |s| ==> s[i].timestamp >= s[j].timestamp
  }

  /** The articles of `s` stamped `t`, in their order in `s`. */
  function WithTimestamp(s: seq<Article>, t: int): seq<Article> {
    if s == [] then []
    else (if s[0].timestamp == t then [s[0]] else []) + WithTimestamp(s[1..], t)
  }

  /** `a` placed in front of the first article of `s` that is not newer than it. */
  function Insert(a: Article, s: seq<Article>): seq<Article> {
    if s == [] || a.timestamp >= s[0].timestamp then [a] + s
    else [s[0]] + Insert(a, s[1..])
  }

  /** Insertion sort, newest first. */
  function SortNewestFirst(s: seq<Article>): seq<Article> {
    if s == [] then [] else Insert(s[0], SortNewestFirst(s[1..]))
  }

  lemma {:induction false} WithTimestampAppend(x: seq<Article>, y: seq<Article>, t: int)
    ensures WithTimestamp(x + y, t) == WithTimestamp(x, t) + WithTimestamp(y, t)
  {
    if x == [] {
      assert x + y == y;
    } else {
      assert (x + y)[0] == x[0];
      assert (x + y)[1..] == x[1..] + y;
      WithTimestampAppend(x[1..], y, t);
    }
  }

  lemma WithTimestampSingle(a: Article, t: int)
    ensures WithTimestamp([a], t) == if a.timestamp == t then [a] else []
  {
    assert [a][1..] == [];
  }

  lemma {:induction false} InsertPermutes(a: Article, s: seq<Article>)
    ensures multiset(Insert(a, s)) == multiset([a] + s)
  {
    if s != [] && a.timestamp < s[0].timestamp {
      InsertPermutes(a, s[1..]);
      assert s == [s[0]] + s[1..];
    }
  }

  /** A ranked sequence's tail is ranked, and no article in it is newer than its head. */
  lemma RankedTail(s: seq<Article>)
    requires NewestFirst(s) && s != []
    ensures NewestFirst(s[1..])
    ensures forall k :: 0 <= k < |s[1..]| ==> s[1..][k].timestamp <= s[0].timestamp
  {
    forall i, j | 0 <= i < j < |s[1..]| ensures s[1..][i].timestamp >= s[1..][j].timestamp {
      assert s[1..][i] == s[i + 1] && s[1..][j] == s[j + 1];
    }
    forall k | 0 <= k < |s[1..]| ensures s[1..][k].timestamp <= s[0].timestamp {
      assert s[1..][k] == s[k + 1];
    }
  }

  /** An article no older than every article of a ranked sequence can head it. */
  lemma RankedCons(h: Article, r: seq<Article>)
    requires NewestFirst(r)
    requires forall k :: 0 <= k < |r| ==> r[k].timestamp <= h.timestamp
    ensures NewestFirst([h] + r)
  {
    forall i, j | 0 <= i < j < |[h] + r| ensures ([h] + r)[i].timestamp >= ([h] + r)[j].timestamp {
      assert ([h] + r)[j] == r[j - 1];
      if i > 0 {
        assert ([h] + r)[i] == r[i - 1];
      }
    }
  }

  /** Inserting keeps every article at or below a bound that all of them meet. */
  lemma {:induction false} InsertBounded(a: Article, s: seq<Article>, t: int)
    requires a.timestamp <= t
    requires forall k :: 0 <= k < |s| ==> s[k].timestamp <= t
    ensures forall k :: 0 <= k < |Insert(a, s)| ==> Insert(a, s)[k].timestamp <= t
  {
    if s == [] || a.timestamp >= s[0].timestamp {
      forall k | 0 <= k < |[a] + s| ensures ([a] + s)[k].timestamp <= t {
        if k > 0 {
          assert ([a] + s)[k] == s[k - 1];
        }
      }
    } else {
      var rest := Insert(a, s[1..]);
      forall k | 0 <= k < |s[1..]| ensures s[1..][k].timestamp <= t {
        assert s[1..][k] == s[k + 1];
      }
      InsertBounded(a, s[1..], t);
      forall k | 0 <= k < |[s[0]] + rest| ensures ([s[0]] + rest)[k].timestamp <= t {
        if k > 0 {
          assert ([s[0]] + rest)[k] == rest[k - 1];
        }
      }
    }
  }

  /** Inserting into a ranked sequence keeps it ranked. */
  lemma {:induction false} InsertRanked(a: Article, s: seq<Article>)
    requires NewestFirst(s)
    ensures NewestFirst(Insert(a, s))
  {
    if s == [] {
      RankedCons(a, s);
    } else if a.timestamp >= s[0].timestamp {
      RankedTail(s);
      forall k | 0 <= k < |s| ensures s[k].timestamp <= a.timestamp {
        assert s[k].timestamp <= s[0].timestamp;
      }
      RankedCons(a, s);
    } else {
      RankedTail(s);
      InsertRanked(a, s[1..]);
      InsertBounded(a, s[1..], s[0].timestamp);
      RankedCons(s[0], Insert(a, s[1..]));
    }
  }

  /** Inserting `a` in front of the articles it is not older than puts it behind no article
      stamped like it: every timestamp group is that of `[a] + s`. */
  lemma {:induction false} InsertGroups(a: Article, s: seq<Article>, t: int)
    ensures WithTimestamp(Insert(a, s), t) == WithTimestamp([a] + s, t)
  {
    if s != [] && a.timestamp < s[0].timestamp {
      var rest := Insert(a, s[1..]);
      var ga, g0 := WithTimestamp([a], t), WithTimestamp([s[0]], t);
      InsertGroups(a, s[1..], t);
      WithTimestampSingle(a, t);
      WithTimestampSingle(s[0], t);
      assert ga == [] || g0 == [];
      assert g0 + ga == ga + g0;
      calc {
        WithTimestamp(Insert(a, s), t);
        WithTimestamp([s[0]] + rest, t);
        { WithTimestampAppend([s[0]], rest, t); }
        g0 + WithTimestamp(rest, t);
        g0 + WithTimestamp([a] + s[1..], t);
        { WithTimestampAppend([a], s[1..], t); }
        g0 + (ga + WithTimestamp(s[1..], t));
        ga + (g0 + WithTimestamp(s[1..], t));
        { WithTimestampAppend([s[0]], s[1..], t); assert [s[0]] + s[1..] == s; }
        ga + WithTimestamp(s, t);
        { WithTimestampAppend([a], s, t); }
        WithTimestamp([a] + s, t);
      }
    }
  }

  /** The ranking is non-increasing in timestamp, a permutation of the collected articles, and
      stable: the articles with any one timestamp keep their collection order. */
  lemma {:induction false} SortNewestFirstCorrect(s: seq<Article>)
    ensures NewestFirst(SortNewestFirst(s))
    ensures multiset(SortNewestFirst(s)) == multiset(s)
    ensures forall t :: WithTimestamp(SortNewestFirst(s), t) == WithTimestamp(s, t)
  {
    if s != [] {
      var tail := SortNewestFirst(s[1..]);
      SortNewestFirstCorrect(s[1..]);
      InsertRanked(s[0], tail);
      InsertPermutes(s[0], tail);
      assert s == [s[0]] + s[1..];
      forall t ensures WithTimestamp(SortNewestFirst(s), t) == WithTimestamp(s, t) {
        InsertGroups(s[0], tail, t);
        WithTimestampAppend([s[0]], tail, t);
        WithTimestampAppend([s[0]], s[1..], t);
      }
    }
  }

  /** Any article stamped `t` is in the group of `t`. */
  lemma {:induction false} InWithTimestamp(s: seq<Article>, k: nat)
    requires k < |s|
    ensures s[k] in WithTimestamp(s, s[k].timestamp)
  {
    if k > 0 {
      InWithTimestamp(s[1..], k - 1);
      assert s[1..][k - 1] == s[k];
    }
  }

  /** Every member of a group of `s` is an article of `s`. */
  lemma {:induction false} WithTimestampMembers(s: seq<Article>, t: int)
    ensures forall x :: x in WithTimestamp(s, t) ==> x in s && x.timestamp == t
  {
    if s != [] {
      WithTimestampMembers(s[1..], t);
    }
  }

  /** A group of `x` that starts at the head of `x`. */
  lemma HeadGroup(x: seq<Article>)
    requires x != []
    ensures WithTimestamp(x, x[0].timestamp) == [x[0]] + WithTimestamp(x[1..], x[0].timestamp)
  {
  }

  /** In a ranked sequence, no article is newer than the head. */
  lemma HeadIsNewest(x: seq<Article>, t: int)
    requires NewestFirst(x) && x != []
    requires WithTimestamp(x, t) != []
    ensures t <= x[0].timestamp
  {
    WithTimestampMembers(x, t);
    var z := WithTimestamp(x, t)[0];
    assert z in WithTimestamp(x, t);
    assert exists j :: 0 <= j < |x| && x[j] == z;
  }

  /** Two ranked sequences with the same groups have the same head. */
  lemma {:induction false} HeadsAgree(x: seq<Article>, y: seq<Article>)
    requires NewestFirst(x) && NewestFirst(y) && x != [] && y != []
    requires WithTimestamp(x, x[0].timestamp) == WithTimestamp(y, x[0].timestamp)
    requires WithTimestamp(x, y[0].timestamp) == WithTimestamp(y, y[0].timestamp)
    ensures x[0] == y[0]
  {
    InWithTimestamp(x, 0);
    InWithTimestamp(y, 0);
    HeadIsNewest(y, x[0].timestamp);
    HeadIsNewest(x, y[0].timestamp);
    assert x[0].timestamp == y[0].timestamp;
    HeadGroup(x);
    HeadGroup(y);
    assert WithTimestamp(x, x[0].timestamp)[0] == x[0];
    assert WithTimestamp(y, x[0].timestamp)[0] == y[0];
  }

  /** Two ranked sequences with the same group for every timestamp are equal. */
  lemma {:induction false} RankedByGroupsUnique(x: seq<Article>, y: seq<Article>)
    requires NewestFirst(x) && NewestFirst(y)
    requires forall t :: WithTimestamp(x, t) == WithTimestamp(y, t)
    ensures x == y
  {
    if x != [] && y != [] {
      HeadsAgree(x, y);
      forall t ensures WithTimestamp(x[1..], t) == WithTimestamp(y[1..], t) {
        assert x == [x[0]] + x[1..] && y == [y[0]] + y[1..];
        WithTimestampAppend([x[0]], x[1..], t);
        WithTimestampAppend([y[0]], y[1..], t);
        var head := WithTimestamp([x[0]], t);
        assert WithTimestamp(x, t) == WithTimestamp(y, t);
        assert head + WithTimestamp(x[1..], t) == head + WithTimestamp(y[1..], t);
        assert WithTimestamp(x[1..], t) == (head + WithTimestamp(x[1..], t))[|head|..];
        assert WithTimestamp(y[1..], t) == (head + WithTimestamp(y[1..], t))[|head|..];
      }
      RankedByGroupsUnique(x[1..], y[1..]);
      assert x == [x[0]] + x[1..] && y == [y[0]] + y[1..];
    } else if x != [] {
      InWithTimestamp(x, 0);
    } else if y != [] {
      InWithTimestamp(y, 0);
    }
  }

  /** A stable newest-first sort has one possible outcome: any ranked sequence that keeps every
      timestamp group of `s` in collection order is SortNewestFirst(s). */
  lemma StableRankingUnique(s: seq<Article>, r: seq<Article>)
    requires NewestFirst(r)
    requires forall t :: WithTimestamp(r, t) == WithTimestamp(s, t)
    ensures r == SortNewestFirst(s)
  {
    SortNewestFirstCorrect(s);
    RankedByGroupsUnique(r, SortNewestFirst(s));
  }

  /** Scenario: articles stamped 100, 300 and 200, collected in that order, rank as 300, 200, 100. */
  lemma RankingScenario(a: Article, b: Article, c: Article)
    requires a.timestamp == 100 && b.timestamp == 300 && c.timestamp == 200
    ensures SortNewestFirst([a, b, c]) == [b, c, a]
  {
    assert [a, b, c][1..] == [b, c] && [b, c][1..] == [c];
    assert SortNewestFirst([c]) == [c];
    assert Insert(b, [c]) == [b, c];
    assert [b, c][1..] == [c] && Insert(a, [c]) == [c, a];
  }
}
