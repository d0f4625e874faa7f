/**
 * `findProductsThatFitInBox`: keep the products that fit the box on their own, sort them
 * by descending volume, then make one greedy forward pass that takes a product while the
 * box's remaining volume allows it.
 */
module Selection {
  import opened OrderTypes
  import opened Fit
  import opened VolumeSort

  /** a is obtained from b by deleting elements, keeping the order of the rest. */
  predicate IsSubsequence(a: seq<Product>, b: seq<Product>)
    decreases |b|
  {
    if a == [] then true
    else if b == [] then false
    else if a[0] == b[0] then IsSubsequence(a[1..], b[1..])
    else IsSubsequence(a, b[1..])
  }

  /**
   * The `.filter(product => canProductFitInBox(product, box))` step: every fitting
   * product, each copy of it, in input order, and nothing else.
   */
  function FilterFits(ps: seq<Product>, box: Box): (r: seq<Product>)
    ensures multiset(r) <= multiset(ps)
    ensures forall p :: p in r <==> p in ps && CanProductFitInBox(p, box)
    ensures IsSubsequence(r, ps)
  {
    if ps == [] then []
    else
      assert ps == [ps[0]] + ps[1..];
      var rest := FilterFits(ps[1..], box);
      if CanProductFitInBox(ps[0], box) then
        assert ([ps[0]] + rest)[1..] == rest;
        [ps[0]] + rest
      else
        SkipHead(rest, ps);
        rest
  }

  /** The filter keeps every copy of every fitting product and no copy of any other. */
  lemma {:induction false} FilterFitsKeepsEveryCopy(ps: seq<Product>, box: Box, p: Product)
    ensures multiset(FilterFits(ps, box))[p] == if CanProductFitInBox(p, box) then multiset(ps)[p] else 0
  {
    if ps != [] {
      assert ps == [ps[0]] + ps[1..];
      FilterFitsKeepsEveryCopy(ps[1..], box, p);
    }
  }

  function SumVolumes(s: seq<Product>): int
  {
    if s == [] then 0 else Vol(s[0]) + SumVolumes(s[1..])
  }

  /**
   * The forward pass over the sorted candidates with remaining volume cap: a product is
   * taken when its volume is at most cap and it fits the box (the source checks both).
   */
  function GreedySelect(s: seq<Product>, box: Box, cap: int): seq<Product>
  {
    if s == [] then []
    else if Vol(s[0]) <= cap && CanProductFitInBox(s[0], box) then
      [s[0]] + GreedySelect(s[1..], box, cap - Vol(s[0]))
    else GreedySelect(s[1..], box, cap)
  }

  /** The sequence of sorted candidates the forward pass walks over. */
  function SortedFitting(ps: seq<Product>, box: Box): seq<Product>
  {
    SortByVolumeDesc(FilterFits(ps, box))
  }

  /** What `findProductsThatFitInBox(ps, box)` returns. */
  function Candidates(ps: seq<Product>, box: Box): seq<Product>
  {
    GreedySelect(SortedFitting(ps, box), box, CalculateVolume(box.dimensions))
  }

  method FindProductsThatFitInBox(products: seq<Product>, box: Box) returns (fittingProducts: seq<Product>)
    ensures fittingProducts == Candidates(products, box)
  {
    var sortedProducts := SortByVolumeDesc(FilterFits(products, box));
    fittingProducts := ForwardPass(sortedProducts, box, CalculateVolume(box.dimensions));
  }

  /**
   * The `for (const product of sortedProducts)` loop of `findProductsThatFitInBox`: take a
   * product when it fits and its volume is within what the box still holds.
   */
  method ForwardPass(sortedProducts: seq<Product>, box: Box, volume: int) returns (fittingProducts: seq<Product>)
    ensures fittingProducts == GreedySelect(sortedProducts, box, volume)
    ensures volume >= 0 ==> SumVolumes(fittingProducts) <= volume
  {
    fittingProducts := [];
    var remainingVolume := volume;
    assert sortedProducts[0..] == sortedProducts;
    for k := 0 to |sortedProducts|
      invariant fittingProducts + GreedySelect(sortedProducts[k..], box, remainingVolume) ==
                GreedySelect(sortedProducts, box, volume)
      invariant remainingVolume == volume - SumVolumes(fittingProducts)
      invariant volume >= 0 ==> remainingVolume >= 0
    {
      var product := sortedProducts[k];
      var productVolume := CalculateVolume(product.dimensions);
      if productVolume <= remainingVolume && CanProductFitInBox(product, box) {
        GreedyTake(fittingProducts, sortedProducts, k, box, remainingVolume);
        SumAppend(fittingProducts, product);
        fittingProducts := fittingProducts + [product];
        remainingVolume := remainingVolume - productVolume;
      } else {
        GreedySkip(sortedProducts, k, box, remainingVolume);
      }
    }
  }

  /** Appending a product adds its volume to the sum. */
  lemma {:induction false} SumAppend(acc: seq<Product>, p: Product)
    ensures SumVolumes(acc + [p]) == SumVolumes(acc) + Vol(p)
  {
    if acc != [] {
      assert (acc + [p])[1..] == acc[1..] + [p];
      SumAppend(acc[1..], p);
    }
  }

  /** An iteration of the forward pass that takes the product at k, after taking acc. */
  lemma GreedyTake(acc: seq<Product>, s: seq<Product>, k: int, box: Box, cap: int)
    requires 0 <= k < |s|
    requires Vol(s[k]) <= cap && CanProductFitInBox(s[k], box)
    ensures acc + GreedySelect(s[k..], box, cap) ==
            (acc + [s[k]]) + GreedySelect(s[k + 1..], box, cap - Vol(s[k]))
  {
    assert s[k..][1..] == s[k + 1..];
    var g := GreedySelect(s[k + 1..], box, cap - Vol(s[k]));
    assert acc + ([s[k]] + g) == (acc + [s[k]]) + g;
  }

  /** An iteration of the forward pass that skips the product at k. */
  lemma GreedySkip(s: seq<Product>, k: int, box: Box, cap: int)
    requires 0 <= k < |s|
    requires !(Vol(s[k]) <= cap && CanProductFitInBox(s[k], box))
    ensures GreedySelect(s[k..], box, cap) == GreedySelect(s[k + 1..], box, cap)
  {
    assert s[k..][1..] == s[k + 1..];
  }

  // ---- properties of the greedy pass ----

  lemma {:induction false} SubsequenceMultiset(a: seq<Product>, b: seq<Product>)
    requires IsSubsequence(a, b)
    ensures multiset(a) <= multiset(b)
    decreases |b|
  {
    if a != [] {
      assert b == [b[0]] + b[1..];
      if a[0] == b[0] {
        assert a == [a[0]] + a[1..];
        SubsequenceMultiset(a[1..], b[1..]);
      } else {
        SubsequenceMultiset(a, b[1..]);
      }
    }
  }

  lemma {:induction false} SubsequenceOfSorted(a: seq<Product>, b: seq<Product>)
    requires IsSubsequence(a, b)
    requires SortedByVolumeDesc(b)
    ensures SortedByVolumeDesc(a)
    decreases |b|
  {
    if a != [] {
      if a[0] == b[0] {
        SubsequenceOfSorted(a[1..], b[1..]);
        SubsequenceMultiset(a[1..], b[1..]);
        forall i, j | 0 <= i < j < |a|
          ensures Vol(a[i]) >= Vol(a[j])
        {
          if i == 0 {
            assert a[j] == a[1..][j - 1];
            assert a[j] in multiset(b[1..]);
            var m :| 0 <= m < |b[1..]| && b[1..][m] == a[j];
            assert b[m + 1] == a[j];
          } else {
            assert a[i] == a[1..][i - 1] && a[j] == a[1..][j - 1];
          }
        }
      } else {
        SubsequenceOfSorted(a, b[1..]);
      }
    }
  }

  lemma {:induction false} GreedyIsSubsequence(s: seq<Product>, box: Box, cap: int)
    ensures IsSubsequence(GreedySelect(s, box, cap), s)
  {
    if s != [] {
      var r := GreedySelect(s, box, cap);
      if Vol(s[0]) <= cap && CanProductFitInBox(s[0], box) {
        GreedyIsSubsequence(s[1..], box, cap - Vol(s[0]));
        assert r[1..] == GreedySelect(s[1..], box, cap - Vol(s[0]));
      } else {
        GreedyIsSubsequence(s[1..], box, cap);
        SkipHead(r, s);
      }
    }
  }

  lemma {:induction false} SkipHead(a: seq<Product>, b: seq<Product>)
    requires b != [] && IsSubsequence(a, b[1..])
    ensures IsSubsequence(a, b)
    decreases |b|, |a|
  {
    if a != [] && a[0] == b[0] {
      DropHead(a, b[1..]);
    }
  }

  lemma {:induction false} DropHead(a: seq<Product>, b: seq<Product>)
    requires a != [] && IsSubsequence(a, b)
    ensures IsSubsequence(a[1..], b)
    decreases |b|, |a|
  {
    if a[0] != b[0] {
      DropHead(a, b[1..]);
    }
    SkipHead(a[1..], b);
  }

  lemma {:induction false} GreedyFits(s: seq<Product>, box: Box, cap: int, p: Product)
    requires p in GreedySelect(s, box, cap)
    ensures CanProductFitInBox(p, box)
  {
    if s != [] {
      if Vol(s[0]) <= cap && CanProductFitInBox(s[0], box) {
        if p != s[0] {
          GreedyFits(s[1..], box, cap - Vol(s[0]), p);
        }
      } else {
        GreedyFits(s[1..], box, cap, p);
      }
    }
  }

  lemma {:induction false} GreedyWithinCapacity(s: seq<Product>, box: Box, cap: int)
    requires cap >= 0
    ensures SumVolumes(GreedySelect(s, box, cap)) <= cap
  {
    if s != [] {
      if Vol(s[0]) <= cap && CanProductFitInBox(s[0], box) {
        var r := GreedySelect(s, box, cap);
        GreedyWithinCapacity(s[1..], box, cap - Vol(s[0]));
        assert r[1..] == GreedySelect(s[1..], box, cap - Vol(s[0]));
      } else {
        GreedyWithinCapacity(s[1..], box, cap);
      }
    }
  }

  /** When every product fits, the filter keeps the whole list. */
  lemma {:induction false} FilterKeepsAllFitting(ps: seq<Product>, box: Box)
    requires forall i :: 0 <= i < |ps| ==> CanProductFitInBox(ps[i], box)
    ensures FilterFits(ps, box) == ps
  {
    if ps != [] {
      FilterKeepsAllFitting(ps[1..], box);
      assert [ps[0]] + ps[1..] == ps;
    }
  }

  /**
   * When every product fits and their volumes, none negative, add up to at most cap, the
   * forward pass takes them all.
   */
  lemma {:induction false} GreedyTakesAll(s: seq<Product>, box: Box, cap: int)
    requires forall i :: 0 <= i < |s| ==> CanProductFitInBox(s[i], box) && Vol(s[i]) >= 0
    requires SumVolumes(s) <= cap
    ensures GreedySelect(s, box, cap) == s
  {
    if s != [] {
      SumVolumesNonNegative(s[1..]);
      GreedyTakesAll(s[1..], box, cap - Vol(s[0]));
      assert [s[0]] + s[1..] == s;
    }
  }

  lemma {:induction false} SumVolumesNonNegative(s: seq<Product>)
    requires forall i :: 0 <= i < |s| ==> Vol(s[i]) >= 0
    ensures SumVolumes(s) >= 0
  {
    if s != [] {
      SumVolumesNonNegative(s[1..]);
    }
  }

  lemma {:induction false} SubsequenceLength(a: seq<Product>, b: seq<Product>)
    requires IsSubsequence(a, b)
    ensures |a| <= |b|
    decreases |b|
  {
    if a != [] {
      if a[0] == b[0] {
        SubsequenceLength(a[1..], b[1..]);
      } else {
        SubsequenceLength(a, b[1..]);
      }
    }
  }

  // ---- properties of the candidate set ----

  /** Every selected product fits the box on its own. */
  lemma CandidatesFitBox(ps: seq<Product>, box: Box)
    ensures forall p :: p in Candidates(ps, box) ==> CanProductFitInBox(p, box)
  {
    forall p | p in Candidates(ps, box)
      ensures CanProductFitInBox(p, box)
    {
      GreedyFits(SortedFitting(ps, box), box, CalculateVolume(box.dimensions), p);
    }
  }

  /** The selected products' volumes sum to no more than the box's volume. */
  lemma CandidatesWithinCapacity(ps: seq<Product>, box: Box)
    requires PositiveDimensions(box.dimensions)
    ensures SumVolumes(Candidates(ps, box)) <= CalculateVolume(box.dimensions)
  {
    PositiveVolume(box.dimensions);
    GreedyWithinCapacity(SortedFitting(ps, box), box, CalculateVolume(box.dimensions));
  }

  /**
   * The selection is a subsequence of the filtered, sorted input; it is ordered by
   * descending volume; and it draws each product from the input at most as often as it occurs.
   */
  lemma CandidatesOrderAndOrigin(ps: seq<Product>, box: Box)
    ensures IsSubsequence(Candidates(ps, box), SortedFitting(ps, box))
    ensures SortedByVolumeDesc(Candidates(ps, box))
    ensures multiset(Candidates(ps, box)) <= multiset(ps)
  {
    var sorted := SortedFitting(ps, box);
    GreedyIsSubsequence(sorted, box, CalculateVolume(box.dimensions));
    SortIsSorted(FilterFits(ps, box));
    SubsequenceOfSorted(Candidates(ps, box), sorted);
    SubsequenceMultiset(Candidates(ps, box), sorted);
  }

  lemma NoneFitEmptyFilter(ps: seq<Product>, box: Box)
    requires forall p :: p in ps ==> !CanProductFitInBox(p, box)
    ensures FilterFits(ps, box) == []
  {
  }

  lemma FirstSortedFits(ps: seq<Product>, box: Box, p: Product) returns (first: Product)
    requires p in ps && CanProductFitInBox(p, box)
    ensures SortedFitting(ps, box) != [] && first == SortedFitting(ps, box)[0]
    ensures first in ps && CanProductFitInBox(first, box)
  {
    var filtered := FilterFits(ps, box);
    var sorted := SortedFitting(ps, box);
    assert p in multiset(filtered);
    assert sorted != [];
    first := sorted[0];
    assert first in multiset(sorted);
    assert first in filtered;
  }

  /**
   * For a box and products with positive dimensions, the selection is empty exactly when
   * no product fits the box on its own.
   */
  lemma CandidatesEmptyIff(ps: seq<Product>, box: Box)
    requires AllPositive(ps)
    requires PositiveDimensions(box.dimensions)
    ensures Candidates(ps, box) == [] <==> forall p :: p in ps ==> !CanProductFitInBox(p, box)
  {
    if p :| p in ps && CanProductFitInBox(p, box) {
      var first := FirstSortedFits(ps, box, p);
      var i :| 0 <= i < |ps| && ps[i] == first;
      FitBoundsVolume(first, box);
      var sorted := SortedFitting(ps, box);
      assert Vol(sorted[0]) <= CalculateVolume(box.dimensions);
    } else {
      NoneFitEmptyFilter(ps, box);
    }
  }

  /** A box takes every product of an order whose products all fit it and fill it at most. */
  lemma BoxTakesAll(ps: seq<Product>, box: Box)
    requires AllPositive(ps)
    requires forall i :: 0 <= i < |ps| ==> CanProductFitInBox(ps[i], box)
    requires SumVolumes(SortByVolumeDesc(ps)) <= CalculateVolume(box.dimensions)
    ensures Candidates(ps, box) == SortByVolumeDesc(ps)
  {
    FilterKeepsAllFitting(ps, box);
    var sorted := SortByVolumeDesc(ps);
    forall i | 0 <= i < |sorted|
      ensures CanProductFitInBox(sorted[i], box) && Vol(sorted[i]) >= 0
    {
      SortedMembers(ps, sorted[i]);
      var m :| 0 <= m < |ps| && ps[m] == sorted[i];
      PositiveVolume(ps[m].dimensions);
    }
    GreedyTakesAll(sorted, box, CalculateVolume(box.dimensions));
  }

  lemma CandidatesAtMostAll(ps: seq<Product>, box: Box)
    ensures |Candidates(ps, box)| <= |ps|
  {
    var filtered := FilterFits(ps, box);
    CandidatesOrderAndOrigin(ps, box);
    SubsequenceLength(Candidates(ps, box), SortedFitting(ps, box));
    SortKeepsLength(filtered);
    SubsequenceLength(filtered, ps);
  }
}
