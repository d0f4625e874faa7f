/**
 * The `.sort((a, b) => volume(b) - volume(a))` step of the candidate selection: a stable
 * sort by descending volume, modelled as an insertion sort.
 */
module VolumeSort {
  import opened OrderTypes
  import opened Fit

  function Vol(p: Product): int
  {
    CalculateVolume(p.dimensions)
  }

  predicate SortedByVolumeDesc(s: seq<Product>)
  {
    forall i, j :: 0 <= i < j < |s| ==> Vol(s[i]) >= Vol(s[j])
  }

  /** The products of s with volume v, in their order in s. */
  function WithVolume(s: seq<Product>, v: int): seq<Product>
  {
    if s == [] then []
    else (if Vol(s[0]) == v then [s[0]] else []) + WithVolume(s[1..], v)
  }

  /**
   * Inserts p into a list sorted by descending volume, before every element whose volume
   * is not larger than p's (p comes first in the original order, so ties keep that order).
   */
  function InsertByVolume(p: Product, s: seq<Product>): (r: seq<Product>)
    ensures multiset(r) == multiset(s) + multiset{p}
  {
    if s == [] || Vol(s[0]) <= Vol(p) then [p] + s
    else
      assert s == [s[0]] + s[1..];
      [s[0]] + InsertByVolume(p, s[1..])
  }

  lemma BoundedByHead(s: seq<Product>, p: Product, rest: seq<Product>, k: int)
    requires s != [] && SortedByVolumeDesc(s) && Vol(p) < Vol(s[0])
    requires multiset(rest) == multiset(s[1..]) + multiset{p}
    requires 0 <= k < |rest|
    ensures Vol(rest[k]) <= Vol(s[0])
  {
    assert rest[k] in multiset(rest);
    if rest[k] != p {
      assert rest[k] in multiset(s[1..]);
      var j :| 0 <= j < |s[1..]| && s[1..][j] == rest[k];
      assert s[j + 1] == rest[k];
    }
  }

  lemma {:induction false} InsertKeepsSorted(p: Product, s: seq<Product>)
    requires SortedByVolumeDesc(s)
    ensures SortedByVolumeDesc(InsertByVolume(p, s))
  {
    if s != [] && Vol(s[0]) > Vol(p) {
      var rest := InsertByVolume(p, s[1..]);
      InsertKeepsSorted(p, s[1..]);
      forall k | 0 <= k < |rest|
        ensures Vol(rest[k]) <= Vol(s[0])
      {
        BoundedByHead(s, p, rest, k);
      }
      var r := [s[0]] + rest;
      forall i, j | 0 <= i < j < |r|
        ensures Vol(r[i]) >= Vol(r[j])
      {
        if i > 0 {
          assert r[i] == rest[i - 1] && r[j] == rest[j - 1];
        } else {
          assert r[j] == rest[j - 1];
        }
      }
    }
  }

  /** The stable sort by descending volume. */
  function SortByVolumeDesc(s: seq<Product>): (r: seq<Product>)
    ensures multiset(r) == multiset(s)
  {
    if s == [] then []
    else
      assert s == [s[0]] + s[1..];
      InsertByVolume(s[0], SortByVolumeDesc(s[1..]))
  }

  /** The sort's result is ordered by descending volume. */
  lemma {:induction false} SortIsSorted(s: seq<Product>)
    ensures SortedByVolumeDesc(SortByVolumeDesc(s))
  {
    if s != [] {
      SortIsSorted(s[1..]);
      InsertKeepsSorted(s[0], SortByVolumeDesc(s[1..]));
    }
  }

  /** Sorting a list that is already in descending volume leaves it as it is. */
  lemma {:induction false} SortOfSorted(s: seq<Product>)
    requires SortedByVolumeDesc(s)
    ensures SortByVolumeDesc(s) == s
  {
    if s != [] {
      assert SortedByVolumeDesc(s[1..]) by {
        forall i, j | 0 <= i < j < |s[1..]|
          ensures Vol(s[1..][i]) >= Vol(s[1..][j])
        {
          assert s[1..][i] == s[i + 1] && s[1..][j] == s[j + 1];
        }
      }
      SortOfSorted(s[1..]);
      if |s| > 1 {
        assert s[1..][0] == s[1];
        assert Vol(s[1]) <= Vol(s[0]);
      }
      assert [s[0]] + s[1..] == s;
    }
  }

  lemma {:induction false} WithVolumeOfInsert(p: Product, s: seq<Product>, v: int)
    requires SortedByVolumeDesc(s)
    ensures WithVolume(InsertByVolume(p, s), v) ==
            (if Vol(p) == v then [p] else []) + WithVolume(s, v)
  {
    if s == [] || Vol(s[0]) <= Vol(p) {
      assert ([p] + s)[1..] == s;
      if s != [] && Vol(p) == v && Vol(s[0]) == v {
      }
    } else {
      var rest := InsertByVolume(p, s[1..]);
      assert ([s[0]] + rest)[1..] == rest;
      WithVolumeOfInsert(p, s[1..], v);
      if Vol(p) == v {
        assert Vol(s[0]) != v;
      }
    }
  }

  /** Stability: for each volume, the sort keeps the products of that volume in input order. */
  lemma {:induction false} SortIsStable(s: seq<Product>, v: int)
    ensures WithVolume(SortByVolumeDesc(s), v) == WithVolume(s, v)
  {
    if s != [] {
      SortIsStable(s[1..], v);
      SortIsSorted(s[1..]);
      WithVolumeOfInsert(s[0], SortByVolumeDesc(s[1..]), v);
    }
  }

  /** The sort's result holds the same products as its input. */
  lemma SortedMembers(ps: seq<Product>, p: Product)
    ensures p in SortByVolumeDesc(ps) <==> p in ps
  {
    assert p in SortByVolumeDesc(ps) <==> p in multiset(SortByVolumeDesc(ps));
  }

  /** The sort keeps the number of products. */
  lemma SortKeepsLength(ps: seq<Product>)
    ensures |SortByVolumeDesc(ps)| == |ps|
  {
    assert |multiset(SortByVolumeDesc(ps))| == |multiset(ps)|;
  }
}
