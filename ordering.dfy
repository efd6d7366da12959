/** `order_by('date')` on the sessions table. PostgreSQL leaves the order of
    equal dates unspecified; the model keeps table order among equal dates,
    and its contract only promises what the database does: date order and
    the same rows. */
module Ordering {
  import opened MarketplaceModels

  ghost predicate SortedByDate(s: seq<Session>)
  {
    forall i, j :: 0 <= i < j < |s| ==> s[i].date <= s[j].date
  }

  /** Inserts `x` before the first row whose date is not earlier, so that
      `x` precedes the rows it ties with. */
  function InsertByDate(x: Session, s: seq<Session>): (r: seq<Session>)
    requires SortedByDate(s)
    ensures SortedByDate(r)
    ensures multiset(r) == multiset(s) + multiset{x}
    ensures |r| == |s| + 1 && (r[0] == x || (s != [] && r[0] == s[0]))
  {
    if s == [] then [x]
    else if x.date <= s[0].date then
      SortedCons(x, s);
      [x] + s
    else
      SortedTail(s);
      var rest := InsertByDate(x, s[1..]);
      ConsMultiset(s);
      SortedCons(s[0], rest);
      [s[0]] + rest
  }

  /** The rows after the first of a sorted list are sorted, and the first is
      no later than the second. */
  lemma SortedTail(s: seq<Session>)
    requires SortedByDate(s) && s != []
    ensures SortedByDate(s[1..])
    ensures |s| > 1 ==> s[0].date <= s[1..][0].date
  {
    forall i, j | 0 <= i < j < |s[1..]| ensures s[1..][i].date <= s[1..][j].date {
      assert s[1..][i] == s[i + 1] && s[1..][j] == s[j + 1];
    }
  }

  lemma ConsMultiset(s: seq<Session>)
    requires s != []
    ensures multiset(s) == multiset{s[0]} + multiset(s[1..])
  {
    assert s == [s[0]] + s[1..];
  }

  /** A row no later than the head of a sorted list extends it. */
  lemma {:induction false} SortedCons(h: Session, t: seq<Session>)
    requires SortedByDate(t) && (t != [] ==> h.date <= t[0].date)
    ensures SortedByDate([h] + t)
  {
    forall i, j | 0 <= i < j < |[h] + t|
      ensures ([h] + t)[i].date <= ([h] + t)[j].date
    {
      if i > 0 {
        assert ([h] + t)[i] == t[i - 1] && ([h] + t)[j] == t[j - 1];
      } else {
        assert ([h] + t)[j] == t[j - 1];
      }
    }
  }

  /** The sessions ordered by date: a permutation of the input whose dates
      never decrease. */
  function SortByDate(s: seq<Session>): (r: seq<Session>)
    ensures SortedByDate(r)
    ensures multiset(r) == multiset(s)
    ensures |r| == |s|
  {
    if s == [] then []
    else
      assert s == [s[0]] + s[1..];
      InsertByDate(s[0], SortByDate(s[1..]))
  }

  /** Ordering neither adds nor drops a row. */
  lemma SortKeepsRows(s: seq<Session>)
    ensures forall x :: x in SortByDate(s) <==> x in s
  {
    forall x ensures x in SortByDate(s) <==> x in s {
      assert x in SortByDate(s) <==> x in multiset(SortByDate(s));
    }
  }
}
