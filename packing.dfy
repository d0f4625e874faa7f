/**
 * `packOrder` and `processOrders`: each round packs the best box's candidate set and
 * removes it from the working list; when no box takes even one product, a single
 * sentinel box without an id takes every remaining product and the loop stops.
 */
module Packing {
  import opened Wrappers
  import opened OrderTypes
  import opened Fit
  import opened VolumeSort
  import opened Selection
  import opened Catalog
  import opened BestBox
  import opened Removal

  const NoFitObservation: string := "Produto não cabe em nenhuma caixa disponível."

  /** The chosen set of a round is drawn from the products that round starts with. */
  lemma ChosenFromRemaining(rem: seq<Product>, boxes: seq<Box>)
    requires |boxes| > 0
    ensures multiset(BestFit(rem, boxes).products) <= multiset(rem)
  {
    var k := BestFitIsFirstMaximum(rem, boxes);
    CandidatesOrderAndOrigin(rem, boxes[k]);
  }

  /** The boxes the loop emits, starting from the working list rem. */
  function PackFrom(rem: seq<Product>, boxes: seq<Box>): seq<PackedBox>
    requires |boxes| > 0
    decreases |rem|
  {
    if rem == [] then []
    else
      var best := BestFit(rem, boxes);
      if best.products == [] then [PackedBox(None, ProductIds(rem), Some(NoFitObservation))]
      else
        ChosenFromRemaining(rem, boxes);
        RemovalShrinks(rem, best.products);
        [PackedBox(Some(best.box.id), ProductIds(best.products), None)] +
        PackFrom(RemoveAllById(rem, best.products), boxes)
  }

  lemma PackFromLastRound(rem: seq<Product>, boxes: seq<Box>)
    requires |boxes| > 0 && rem != []
    requires BestFit(rem, boxes).products == []
    ensures PackFrom(rem, boxes) == [PackedBox(None, ProductIds(rem), Some(NoFitObservation))]
  {
  }

  /** One round of the loop: the list shrinks, and the boxes still to come are those of what is left. */
  lemma PackFromStep(rem: seq<Product>, boxes: seq<Box>, next: seq<Product>)
    requires |boxes| > 0 && rem != []
    requires BestFit(rem, boxes).products != []
    requires next == RemoveAllById(rem, BestFit(rem, boxes).products)
    ensures |next| < |rem|
    ensures PackFrom(rem, boxes) ==
            [PackedBox(Some(BestFit(rem, boxes).box.id), ProductIds(BestFit(rem, boxes).products), None)] +
            PackFrom(next, boxes)
  {
    ChosenFromRemaining(rem, boxes);
    RemovalShrinks(rem, BestFit(rem, boxes).products);
  }

  /** What `packOrder(order)` returns. */
  function PackedOrderOf(order: Order): PackedOrder
  {
    PackedOrder(order.order_id, PackFrom(order.products, AvailableBoxes))
  }

  /** The body of the `forEach`: find the first product with that id and splice it out. */
  method SpliceOutFirst(remaining: seq<Product>, id: string) returns (r: seq<Product>)
    ensures r == RemoveFirstById(remaining, id)
  {
    r := remaining;
    var index := FindIndexById(r, id);
    if index != -1 {
      r := r[..index] + r[index + 1..];
    }
  }

  /** The `forEach` that splices each packed product out of the working list. */
  method RemovePacked(remainingProducts: seq<Product>, packed: seq<Product>) returns (remaining: seq<Product>)
    ensures remaining == RemoveAllById(remainingProducts, packed)
  {
    remaining := remainingProducts;
    for j := 0 to |packed|
      invariant RemoveAllById(remaining, packed[j..]) == RemoveAllById(remainingProducts, packed)
    {
      RemoveAllByIdStep(remaining, packed, j);
      remaining := SpliceOutFirst(remaining, packed[j].product_id);
    }
    assert packed[|packed|..] == [];
  }

  method PackOrder(order: Order) returns (packed: PackedOrder)
    ensures packed == PackedOrderOf(order)
  {
    var boxes := AvailableBoxes;
    var packedBoxes: seq<PackedBox> := [];
    var remainingProducts := order.products;
    while |remainingProducts| > 0
      invariant packedBoxes + PackFrom(remainingProducts, boxes) == PackFrom(order.products, boxes)
      decreases |remainingProducts|
    {
      var bestFit := FindBestBoxForProducts(remainingProducts);
      if |bestFit.products| == 0 {
        PackFromLastRound(remainingProducts, boxes);
        packedBoxes := packedBoxes + [PackedBox(None, ProductIds(remainingProducts), Some(NoFitObservation))];
        break;
      }
      packedBoxes := packedBoxes + [PackedBox(Some(bestFit.box.id), ProductIds(bestFit.products), None)];
      ghost var before := remainingProducts;
      remainingProducts := RemovePacked(remainingProducts, bestFit.products);
      PackFromStep(before, boxes, remainingProducts);
    }
    packed := PackedOrder(order.order_id, packedBoxes);
  }

  /** `processOrders`: one packed order per order, in the same order. */
  function ProcessOrders(orders: seq<Order>): (r: seq<PackedOrder>)
    ensures |r| == |orders|
    ensures forall i :: 0 <= i < |orders| ==> r[i] == PackedOrderOf(orders[i])
  {
    seq(|orders|, i requires 0 <= i < |orders| => PackedOrderOf(orders[i]))
  }

  /**
   * An order whose products all fit the first box and together fill at most its volume is
   * packed into one such box, largest product first.
   */
  lemma {:induction false} OrderFittingFirstBox(ps: seq<Product>, boxes: seq<Box>)
    requires |boxes| > 0
    requires ps != [] && AllPositive(ps)
    requires forall i :: 0 <= i < |ps| ==> CanProductFitInBox(ps[i], boxes[0])
    requires SumVolumes(SortByVolumeDesc(ps)) <= CalculateVolume(boxes[0].dimensions)
    ensures PackFrom(ps, boxes) == [PackedBox(Some(boxes[0].id), ProductIds(SortByVolumeDesc(ps)), None)]
  {
    BoxTakesAll(ps, boxes[0]);
    FirstBoxWins(ps, boxes);
    RemoveEverything(ps, SortByVolumeDesc(ps));
    SortKeepsLength(ps);
    assert PackFrom([], boxes) == [];
    PackFromStep(ps, boxes, []);
  }
}
