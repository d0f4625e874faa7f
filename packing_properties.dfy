/**
 * What the assignment loop guarantees about the boxes it emits: every product id is
 * packed exactly as often as it occurs in the order, at most one sentinel box exists and
 * it is the last one, and each box's products fit the box it names.
 */
module PackingProperties {
  import opened Wrappers
  import opened OrderTypes
  import opened Fit
  import opened Selection
  import opened Catalog
  import opened BestBox
  import opened Removal
  import opened Packing

  /** The concatenation of every box's product list. */
  function AllPackedIds(bs: seq<PackedBox>): seq<string>
  {
    if bs == [] then [] else bs[0].products + AllPackedIds(bs[1..])
  }

  /** Conservation: the packed ids are, as a multiset, the ids of the working list. */
  lemma {:induction false} PackConservesIds(rem: seq<Product>, boxes: seq<Box>)
    requires |boxes| > 0
    ensures multiset(AllPackedIds(PackFrom(rem, boxes))) == multiset(ProductIds(rem))
    decreases |rem|
  {
    if rem != [] {
      var best := BestFit(rem, boxes);
      var out := PackFrom(rem, boxes);
      if best.products == [] {
        assert out[1..] == [];
      } else {
        var rest := RemoveAllById(rem, best.products);
        ChosenFromRemaining(rem, boxes);
        RemovalShrinks(rem, best.products);
        IdsOfSubMultiset(best.products, rem);
        PackConservesIds(rest, boxes);
        assert out[1..] == PackFrom(rest, boxes);
      }
    }
  }

  /** The shape of a packing: non-empty boxes, the observation only on a last sentinel box. */
  predicate WellShaped(out: seq<PackedBox>, boxes: seq<Box>)
  {
    && (forall i :: 0 <= i < |out| ==> out[i].products != [])
    && (forall i :: 0 <= i < |out| && out[i].box_id.None? ==> i == |out| - 1)
    && (forall i :: 0 <= i < |out| ==>
          out[i].observation == if out[i].box_id.None? then Some(NoFitObservation) else None)
    && (forall i :: 0 <= i < |out| && out[i].box_id.Some? ==>
          exists k :: 0 <= k < |boxes| && boxes[k].id == out[i].box_id.value)
  }

  lemma ShapeOfCons(head: PackedBox, tail: seq<PackedBox>, boxes: seq<Box>, k: int)
    requires WellShaped(tail, boxes)
    requires 0 <= k < |boxes| && head == PackedBox(Some(boxes[k].id), head.products, None)
    requires head.products != []
    ensures WellShaped([head] + tail, boxes)
  {
    var out := [head] + tail;
    forall i | 0 < i < |out|
      ensures out[i] == tail[i - 1]
    {
    }
  }

  /**
   * The packing is well shaped, uses at most one box per product, and is empty exactly
   * when the working list is.
   */
  lemma {:induction false} PackIsWellShaped(rem: seq<Product>, boxes: seq<Box>)
    requires |boxes| > 0
    ensures WellShaped(PackFrom(rem, boxes), boxes)
    ensures |PackFrom(rem, boxes)| <= |rem|
    ensures PackFrom(rem, boxes) == [] <==> rem == []
    decreases |rem|
  {
    if rem != [] {
      var best := BestFit(rem, boxes);
      var out := PackFrom(rem, boxes);
      if best.products == [] {
        PackFromLastRound(rem, boxes);
      } else {
        var rest := RemoveAllById(rem, best.products);
        ChosenFromRemaining(rem, boxes);
        RemovalShrinks(rem, best.products);
        PackIsWellShaped(rest, boxes);
        var tail := PackFrom(rest, boxes);
        PackFromStep(rem, boxes, rest);
        var head := PackedBox(Some(best.box.id), ProductIds(best.products), None);
        assert out == [head] + tail;
        var k := BestFitIsFirstMaximum(rem, boxes);
        ShapeOfCons(head, tail, boxes, k);
      }
    }
  }

  /** At most one box has no id. */
  lemma AtMostOneSentinel(rem: seq<Product>, boxes: seq<Box>, i: int, j: int)
    requires |boxes| > 0
    requires 0 <= i < |PackFrom(rem, boxes)| && 0 <= j < |PackFrom(rem, boxes)|
    requires PackFrom(rem, boxes)[i].box_id.None? && PackFrom(rem, boxes)[j].box_id.None?
    ensures i == j
  {
    PackIsWellShaped(rem, boxes);
  }

  lemma SameIdSameProduct(us: seq<Product>, p: Product, q: Product)
    requires UniqueIds(us) && p in us && q in us && p.product_id == q.product_id
    ensures p == q
  {
    var a :| 0 <= a < |us| && us[a] == p;
    var b :| 0 <= b < |us| && us[b] == q;
    if a < b {
    } else if b < a {
    }
  }

  /** A product of us whose id appears in ps is itself in ps (ids being unique in us). */
  lemma FindById(us: seq<Product>, ps: seq<Product>, p: Product)
    requires UniqueIds(us) && p in us
    requires forall q :: q in ps ==> q in us
    requires p.product_id in ProductIds(ps)
    ensures p in ps
  {
    var i :| 0 <= i < |ps| && ProductIds(ps)[i] == p.product_id;
    SameIdSameProduct(us, p, ps[i]);
  }

  /** The products a box of the packing names, read back from the order's products. */
  predicate BoxFitsIn(pb: PackedBox, us: seq<Product>, box: Box)
  {
    forall p :: p in us && p.product_id in pb.products ==> CanProductFitInBox(p, box)
  }

  predicate FitsNowhere(pb: PackedBox, us: seq<Product>, boxes: seq<Box>)
  {
    forall p, k :: p in us && p.product_id in pb.products && 0 <= k < |boxes| ==>
      !CanProductFitInBox(p, boxes[k])
  }

  /** Every box of out with an id fits the catalog box of that id; the sentinel fits nowhere. */
  predicate PackingFits(out: seq<PackedBox>, us: seq<Product>, boxes: seq<Box>)
  {
    && (forall i :: 0 <= i < |out| && out[i].box_id.Some? ==>
          exists k :: 0 <= k < |boxes| && boxes[k].id == out[i].box_id.value && BoxFitsIn(out[i], us, boxes[k]))
    && (forall i :: 0 <= i < |out| && out[i].box_id.None? ==> FitsNowhere(out[i], us, boxes))
  }

  lemma FitsOfCons(head: PackedBox, tail: seq<PackedBox>, us: seq<Product>, boxes: seq<Box>, k: int)
    requires PackingFits(tail, us, boxes)
    requires 0 <= k < |boxes| && head.box_id == Some(boxes[k].id) && BoxFitsIn(head, us, boxes[k])
    ensures PackingFits([head] + tail, us, boxes)
  {
    var out := [head] + tail;
    forall i | 0 < i < |out|
      ensures out[i] == tail[i - 1]
    {
    }
  }

  lemma SubsetOfUniverse(us: seq<Product>, small: seq<Product>, big: seq<Product>)
    requires multiset(small) <= multiset(big)
    requires forall q :: q in big ==> q in us
    ensures forall q :: q in small ==> q in us
  {
    forall q | q in small
      ensures q in us
    {
      assert q in multiset(small);
    }
  }

  /** The final round: every remaining product fits no box. */
  lemma SentinelFitsNowhere(us: seq<Product>, rem: seq<Product>, boxes: seq<Box>)
    requires |boxes| > 0 && rem != []
    requires UniqueIds(us) && AllPositive(us) && AllBoxesPositive(boxes)
    requires forall q :: q in rem ==> q in us
    requires BestFit(rem, boxes).products == []
    ensures FitsNowhere(PackedBox(None, ProductIds(rem), Some(NoFitObservation)), us, boxes)
  {
    assert AllPositive(rem) by {
      forall i | 0 <= i < |rem|
        ensures PositiveDimensions(rem[i].dimensions)
      {
        assert rem[i] in us;
      }
    }
    BestFitEmptyIffNothingFits(rem, boxes);
    forall p, k | p in us && p.product_id in ProductIds(rem) && 0 <= k < |boxes|
      ensures !CanProductFitInBox(p, boxes[k])
    {
      FindById(us, rem, p);
    }
  }

  /** A regular round: the chosen products fit the chosen box. */
  lemma RoundFits(us: seq<Product>, rem: seq<Product>, boxes: seq<Box>) returns (k: int)
    requires |boxes| > 0
    requires UniqueIds(us)
    requires forall q :: q in rem ==> q in us
    ensures 0 <= k < |boxes| && BestFit(rem, boxes).box == boxes[k]
    ensures BoxFitsIn(PackedBox(Some(boxes[k].id), ProductIds(BestFit(rem, boxes).products), None), us, boxes[k])
  {
    var best := BestFit(rem, boxes);
    k := BestFitIsFirstMaximum(rem, boxes);
    CandidatesFitBox(rem, boxes[k]);
    ChosenFromRemaining(rem, boxes);
    SubsetOfUniverse(us, best.products, rem);
    forall p | p in us && p.product_id in ProductIds(best.products)
      ensures CanProductFitInBox(p, boxes[k])
    {
      FindById(us, best.products, p);
    }
  }

  /**
   * With unique ids and positive dimensions: the products of every box with an id fit
   * that catalog box, and the products of the sentinel box fit no catalog box at all.
   */
  lemma {:induction false} PackedProductsFit(us: seq<Product>, rem: seq<Product>, boxes: seq<Box>)
    requires |boxes| > 0
    requires UniqueIds(us) && AllPositive(us) && AllBoxesPositive(boxes)
    requires forall q :: q in rem ==> q in us
    ensures PackingFits(PackFrom(rem, boxes), us, boxes)
    decreases |rem|
  {
    if rem != [] {
      var best := BestFit(rem, boxes);
      if best.products == [] {
        PackFromLastRound(rem, boxes);
        SentinelFitsNowhere(us, rem, boxes);
      } else {
        var rest := RemoveAllById(rem, best.products);
        ChosenFromRemaining(rem, boxes);
        RemovalShrinks(rem, best.products);
        SubsetOfUniverse(us, rest, rem);
        PackedProductsFit(us, rest, boxes);
        PackFromStep(rem, boxes, rest);
        var k := RoundFits(us, rem, boxes);
        FitsOfCons(PackedBox(Some(boxes[k].id), ProductIds(best.products), None), PackFrom(rest, boxes), us, boxes, k);
      }
    }
  }

  lemma {:induction false} UniqueIdsOccurOnce(ps: seq<Product>, id: string)
    requires UniqueIds(ps)
    ensures multiset(ProductIds(ps))[id] == if id in ProductIds(ps) then 1 else 0
  {
    if ps != [] {
      assert ProductIds(ps) == [ps[0].product_id] + ProductIds(ps[1..]);
      assert UniqueIds(ps[1..]) by {
        forall i, j | 0 <= i < j < |ps[1..]|
          ensures ps[1..][i].product_id != ps[1..][j].product_id
        {
          assert ps[1..][i] == ps[i + 1] && ps[1..][j] == ps[j + 1];
        }
      }
      UniqueIdsOccurOnce(ps[1..], id);
      if id == ps[0].product_id {
        assert id !in ProductIds(ps[1..]) by {
          forall j | 0 <= j < |ps[1..]|
            ensures ProductIds(ps[1..])[j] != id
          {
            assert ps[1..][j] == ps[j + 1];
          }
        }
      }
    }
  }

  /**
   * What packing an order with the fixed catalog guarantees: the order id is kept; the
   * packed ids are the order's ids (with unique ids, each exactly once); at most one
   * sentinel box, last; no boxes for an empty order; and, for well-formed orders, every
   * box's products fit the box it names while the sentinel's products fit no box.
   */
  lemma PackedOrderGuarantees(order: Order)
    ensures PackedOrderOf(order).order_id == order.order_id
    ensures multiset(AllPackedIds(PackedOrderOf(order).boxes)) == multiset(ProductIds(order.products))
    ensures WellShaped(PackedOrderOf(order).boxes, AvailableBoxes)
    ensures PackedOrderOf(order).boxes == [] <==> order.products == []
    ensures UniqueIds(order.products) ==>
              forall id :: multiset(AllPackedIds(PackedOrderOf(order).boxes))[id] ==
                           if id in ProductIds(order.products) then 1 else 0
    ensures UniqueIds(order.products) && AllPositive(order.products) ==>
              PackingFits(PackedOrderOf(order).boxes, order.products, AvailableBoxes)
  {
    CatalogIsWellFormed();
    PackConservesIds(order.products, AvailableBoxes);
    PackIsWellShaped(order.products, AvailableBoxes);
    if UniqueIds(order.products) {
      forall id
        ensures multiset(ProductIds(order.products))[id] == if id in ProductIds(order.products) then 1 else 0
      {
        UniqueIdsOccurOnce(order.products, id);
      }
      if AllPositive(order.products) {
        PackedProductsFit(order.products, order.products, AvailableBoxes);
      }
    }
  }
}
