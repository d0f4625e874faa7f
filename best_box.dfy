/**
 * `findBestBoxForProducts`: the catalog box whose candidate set has the most products,
 * the earliest such box on a tie (the running best is replaced only on a strict `>`).
 */
module BestBox {
  import opened OrderTypes
  import opened VolumeSort
  import opened Selection
  import opened Catalog

  datatype BoxFit = BoxFit(box: Box, products: seq<Product>)

  /** The size of each box's candidate set, in catalog order. */
  function Counts(ps: seq<Product>, boxes: seq<Box>): seq<int>
  {
    seq(|boxes|, j requires 0 <= j < |boxes| => |Candidates(ps, boxes[j])|)
  }

  /** The first position holding the largest value of a non-empty sequence. */
  function FirstMaxIndex(cs: seq<int>): (k: nat)
    requires |cs| > 0
    ensures k < |cs|
    ensures forall j :: 0 <= j < |cs| ==> cs[j] <= cs[k]
    ensures forall j :: 0 <= j < k ==> cs[j] < cs[k]
  {
    if |cs| == 1 then 0
    else
      var k := FirstMaxIndex(cs[..|cs| - 1]);
      assert forall j :: 0 <= j < |cs| - 1 ==> cs[..|cs| - 1][j] == cs[j];
      if cs[|cs| - 1] > cs[k] then |cs| - 1 else k
  }

  /** The box and candidate set `findBestBoxForProducts(ps)` returns for the catalog boxes. */
  function BestFit(ps: seq<Product>, boxes: seq<Box>): BoxFit
    requires |boxes| > 0
  {
    var k := FirstMaxIndex(Counts(ps, boxes));
    BoxFit(boxes[k], Candidates(ps, boxes[k]))
  }

  lemma FirstMaxStep(cs: seq<int>, i: nat)
    requires 0 < i < |cs|
    ensures FirstMaxIndex(cs[..i + 1]) ==
            var k := FirstMaxIndex(cs[..i]); if cs[i] > cs[k] then i else k
  {
    assert cs[..i + 1][..i] == cs[..i];
  }

  /** The choice among the first n boxes. */
  function PrefixBest(ps: seq<Product>, boxes: seq<Box>, n: int): BoxFit
    requires 0 < n <= |boxes|
  {
    var k := FirstMaxIndex(Counts(ps, boxes)[..n]);
    BoxFit(boxes[k], Candidates(ps, boxes[k]))
  }

  lemma PrefixBestFirst(ps: seq<Product>, boxes: seq<Box>)
    requires |boxes| > 0
    ensures PrefixBest(ps, boxes, 1) == BoxFit(boxes[0], Candidates(ps, boxes[0]))
  {
    assert FirstMaxIndex(Counts(ps, boxes)[..1]) == 0;
  }

  /** Looking at one more box replaces the choice only when that box has strictly more candidates. */
  lemma PrefixBestStep(ps: seq<Product>, boxes: seq<Box>, i: int)
    requires 0 < i < |boxes|
    ensures PrefixBest(ps, boxes, i + 1) ==
            if |Candidates(ps, boxes[i])| > |PrefixBest(ps, boxes, i).products|
            then BoxFit(boxes[i], Candidates(ps, boxes[i])) else PrefixBest(ps, boxes, i)
  {
    var cs := Counts(ps, boxes);
    var k := FirstMaxIndex(cs[..i]);
    assert |PrefixBest(ps, boxes, i).products| == cs[k];
    assert |Candidates(ps, boxes[i])| == cs[i];
    FirstMaxStep(cs, i);
  }

  lemma PrefixBestAll(ps: seq<Product>, boxes: seq<Box>)
    requires |boxes| > 0
    ensures PrefixBest(ps, boxes, |boxes|) == BestFit(ps, boxes)
  {
    assert Counts(ps, boxes)[..|boxes|] == Counts(ps, boxes);
  }

  method FindBestBoxForProducts(products: seq<Product>) returns (bestFit: BoxFit)
    ensures bestFit == BestFit(products, AvailableBoxes)
  {
    var boxes := AvailableBoxes;
    CatalogIsWellFormed();
    bestFit := BoxFit(boxes[0], []);
    for i := 0 to |boxes|
      invariant i == 0 ==> bestFit == BoxFit(boxes[0], [])
      invariant i > 0 ==> bestFit == PrefixBest(products, boxes, i)
    {
      var box := boxes[i];
      var fittingProducts := FindProductsThatFitInBox(products, box);
      if i == 0 {
        PrefixBestFirst(products, boxes);
      } else {
        PrefixBestStep(products, boxes, i);
      }
      if |fittingProducts| > |bestFit.products| {
        bestFit := BoxFit(box, fittingProducts);
      }
    }
    PrefixBestAll(products, boxes);
  }

  /**
   * The chosen set is the candidate set of some box k; no box has a larger one, and every
   * box before k has a strictly smaller one.
   */
  lemma BestFitIsFirstMaximum(ps: seq<Product>, boxes: seq<Box>) returns (k: nat)
    requires |boxes| > 0
    ensures k < |boxes|
    ensures BestFit(ps, boxes) == BoxFit(boxes[k], Candidates(ps, boxes[k]))
    ensures forall j :: 0 <= j < |boxes| ==> |Candidates(ps, boxes[j])| <= |BestFit(ps, boxes).products|
    ensures forall j :: 0 <= j < k ==> |Candidates(ps, boxes[j])| < |BestFit(ps, boxes).products|
  {
    var cs := Counts(ps, boxes);
    k := FirstMaxIndex(cs);
    forall j | 0 <= j < |boxes|
      ensures |Candidates(ps, boxes[j])| <= |BestFit(ps, boxes).products|
    {
      assert cs[j] <= cs[k];
    }
    forall j | 0 <= j < k
      ensures |Candidates(ps, boxes[j])| < |BestFit(ps, boxes).products|
    {
      assert cs[j] < cs[k];
    }
  }

  /** The chosen set is empty exactly when every box's candidate set is empty. */
  lemma BestFitEmptyIff(ps: seq<Product>, boxes: seq<Box>)
    requires |boxes| > 0
    ensures BestFit(ps, boxes).products == [] <==>
            forall j :: 0 <= j < |boxes| ==> Candidates(ps, boxes[j]) == []
  {
    var k := BestFitIsFirstMaximum(ps, boxes);
  }

  /**
   * With positive dimensions, the chosen set is empty exactly when no product fits any box.
   */
  lemma BestFitEmptyIffNothingFits(ps: seq<Product>, boxes: seq<Box>)
    requires |boxes| > 0
    requires AllPositive(ps) && AllBoxesPositive(boxes)
    ensures BestFit(ps, boxes).products == [] <==>
            forall p, j :: p in ps && 0 <= j < |boxes| ==> !Fit.CanProductFitInBox(p, boxes[j])
  {
    BestFitEmptyIff(ps, boxes);
    forall j | 0 <= j < |boxes|
      ensures Candidates(ps, boxes[j]) == [] <==>
              forall p :: p in ps ==> !Fit.CanProductFitInBox(p, boxes[j])
    {
      CandidatesEmptyIff(ps, boxes[j]);
    }
  }

  /** When the first box takes the whole order, no later box can take more, so it is chosen. */
  lemma FirstBoxWins(ps: seq<Product>, boxes: seq<Box>)
    requires |boxes| > 0
    requires Candidates(ps, boxes[0]) == SortByVolumeDesc(ps)
    ensures BestFit(ps, boxes) == BoxFit(boxes[0], SortByVolumeDesc(ps))
  {
    var k := BestFitIsFirstMaximum(ps, boxes);
    SortKeepsLength(ps);
    CandidatesAtMostAll(ps, boxes[k]);
  }
}
