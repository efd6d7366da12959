/** Filtering of table rows, the operation behind every `objects.filter(...)`,
    and the pairwise row constraints of a table (distinct keys, ordering). */
module Collections {

  /** The rows of `s` that satisfy `p`, in their original order. */
  function Filter<T>(s: seq<T>, p: T -> bool): (r: seq<T>)
    ensures |r| <= |s|
    ensures forall i :: 0 <= i < |r| ==> p(r[i])
  {
    if s == [] then []
    else if p(s[0]) then [s[0]] + Filter(s[1..], p)
    else Filter(s[1..], p)
  }

  /** `rel` holds of every pair of rows, the earlier one first. */
  ghost predicate Pairwise<T>(s: seq<T>, rel: (T, T) -> bool)
  {
    forall i, j :: 0 <= i < j < |s| ==> rel(s[i], s[j])
  }

  /** A row is kept exactly when it was there and satisfies the filter. */
  lemma {:induction false} FilterMembership<T>(s: seq<T>, p: T -> bool, x: T)
    ensures x in Filter(s, p) <==> x in s && p(x)
  {
    if s != [] {
      FilterMembership(s[1..], p, x);
      assert s == [s[0]] + s[1..];
    }
  }

  /** `FilterMembership` for every value at once. */
  lemma FilterMembershipAll<T>(s: seq<T>, p: T -> bool)
    ensures forall x :: x in Filter(s, p) <==> x in s && p(x)
  {
    forall x ensures x in Filter(s, p) <==> x in s && p(x) {
      FilterMembership(s, p, x);
    }
  }

  /** Filtering keeps every pairwise constraint (it keeps the relative order). */
  lemma {:induction false} FilterPairwise<T>(s: seq<T>, p: T -> bool, rel: (T, T) -> bool)
    requires Pairwise(s, rel)
    ensures Pairwise(Filter(s, p), rel)
  {
    if s != [] {
      var tail := s[1..];
      assert Pairwise(tail, rel) by {
        forall i, j | 0 <= i < j < |tail| ensures rel(tail[i], tail[j]) {
          assert tail[i] == s[i + 1] && tail[j] == s[j + 1];
        }
      }
      FilterPairwise(tail, p, rel);
      if p(s[0]) {
        var r := Filter(s, p);
        var f := Filter(tail, p);
        assert r == [s[0]] + f;
        forall j | 0 < j < |r| ensures rel(r[0], r[j]) {
          FilterMembership(tail, p, r[j]);
          assert r[j] == f[j - 1] && f[j - 1] in f;
          var k :| 0 <= k < |tail| && tail[k] == r[j];
          assert tail[k] == s[k + 1];
        }
      }
    }
  }

  /** A row related to every earlier row can be appended. */
  lemma AppendPairwise<T>(s: seq<T>, x: T, rel: (T, T) -> bool)
    requires Pairwise(s, rel)
    requires forall i :: 0 <= i < |s| ==> rel(s[i], x)
    ensures Pairwise(s + [x], rel)
  {
  }
}
