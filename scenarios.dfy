/**
 * Concrete orders evaluated in the model: those of src/orders/services/packing.service.spec.ts,
 * the single PS5 of the controller's mocked test and the PS5 and Volante of the controller's
 * request example, together with the lemmas about one-product orders, two-order batches and
 * small fixed lists that these rest on.
 */
module Scenarios {
  import opened Wrappers
  import opened OrderTypes
  import opened Fit
  import opened VolumeSort
  import opened Selection
  import opened Catalog
  import opened BestBox
  import opened Removal
  import opened Packing

  lemma FitByCases(p: Product, box: Box)
    ensures CanProductFitInBox(p, box) <==>
            || Within(Orientations(p.dimensions)[0], box.dimensions)
            || Within(Orientations(p.dimensions)[1], box.dimensions)
            || Within(Orientations(p.dimensions)[2], box.dimensions)
            || Within(Orientations(p.dimensions)[3], box.dimensions)
            || Within(Orientations(p.dimensions)[4], box.dimensions)
            || Within(Orientations(p.dimensions)[5], box.dimensions)
  {
    if CanProductFitInBox(p, box) {
      var i :| 0 <= i < 6 && Within(Orientations(p.dimensions)[i], box.dimensions);
      assert i == 0 || i == 1 || i == 2 || i == 3 || i == 4 || i == 5;
    }
  }

  lemma SingleCandidates(p: Product, box: Box)
    ensures Candidates([p], box) ==
            if CanProductFitInBox(p, box) && Vol(p) <= CalculateVolume(box.dimensions) then [p] else []
  {
    assert [p][1..] == [];
    if CanProductFitInBox(p, box) {
      assert FilterFits([p], box) == [p];
      assert SortByVolumeDesc([p]) == InsertByVolume(p, []) == [p];
      var cap := CalculateVolume(box.dimensions);
      assert GreedySelect([p], box, cap) ==
             if Vol(p) <= cap then [p] + GreedySelect([], box, cap - Vol(p)) else GreedySelect([], box, cap);
    }
  }

  lemma SingleCandidatesFit(p: Product, box: Box)
    requires PositiveDimensions(p.dimensions) && PositiveDimensions(box.dimensions)
    ensures Candidates([p], box) == if CanProductFitInBox(p, box) then [p] else []
  {
    SingleCandidates(p, box);
    if CanProductFitInBox(p, box) {
      FitBoundsVolume(p, box);
    }
  }

  lemma SingleCounts(p: Product, boxes: seq<Box>)
    requires PositiveDimensions(p.dimensions)
    requires |boxes| == 3 && AllBoxesPositive(boxes)
    ensures Counts([p], boxes) ==
            seq(3, j requires 0 <= j < 3 => if CanProductFitInBox(p, boxes[j]) then 1 else 0)
    ensures forall j :: 0 <= j < 3 ==>
              Candidates([p], boxes[j]) == if CanProductFitInBox(p, boxes[j]) then [p] else []
  {
    forall j | 0 <= j < 3
      ensures Candidates([p], boxes[j]) == if CanProductFitInBox(p, boxes[j]) then [p] else []
    {
      SingleCandidatesFit(p, boxes[j]);
    }
  }

  lemma FirstMaxOfThree(cs: seq<int>)
    requires |cs| == 3
    ensures FirstMaxIndex(cs) ==
            if cs[2] > cs[0] && cs[2] > cs[1] then 2 else if cs[1] > cs[0] then 1 else 0
  {
    assert cs[..2][..1] == [cs[0]];
    assert cs[..2] == [cs[0], cs[1]];
    assert cs[..3] == cs;
    assert FirstMaxIndex([cs[0]]) == 0;
  }

  lemma SingleBestFit(p: Product, boxes: seq<Box>)
    requires PositiveDimensions(p.dimensions)
    requires |boxes| == 3 && AllBoxesPositive(boxes)
    ensures BestFit([p], boxes) ==
            if CanProductFitInBox(p, boxes[0]) then BoxFit(boxes[0], [p])
            else if CanProductFitInBox(p, boxes[1]) then BoxFit(boxes[1], [p])
            else if CanProductFitInBox(p, boxes[2]) then BoxFit(boxes[2], [p])
            else BoxFit(boxes[0], [])
  {
    SingleCounts(p, boxes);
    FirstMaxOfThree(Counts([p], boxes));
  }

  lemma IdsOfOne(p: Product)
    ensures ProductIds([p]) == [p.product_id]
  {
  }

  lemma RemoveOnlyProduct(p: Product)
    ensures RemoveAllById([p], [p]) == []
  {
    assert RemoveFirstById([p], p.product_id) == [];
    assert [p][1..] == [];
  }

  /** For a three-box catalog, an order of one product goes to the first box it fits, else none. */
  lemma SinglePack(p: Product, boxes: seq<Box>)
    requires PositiveDimensions(p.dimensions)
    requires |boxes| == 3 && AllBoxesPositive(boxes)
    ensures PackFrom([p], boxes) ==
            if CanProductFitInBox(p, boxes[0]) then [PackedBox(Some(boxes[0].id), [p.product_id], None)]
            else if CanProductFitInBox(p, boxes[1]) then [PackedBox(Some(boxes[1].id), [p.product_id], None)]
            else if CanProductFitInBox(p, boxes[2]) then [PackedBox(Some(boxes[2].id), [p.product_id], None)]
            else [PackedBox(None, [p.product_id], Some(NoFitObservation))]
  {
    SingleBestFit(p, boxes);
    IdsOfOne(p);
    var best := BestFit([p], boxes);
    if best.products != [] {
      RemoveOnlyProduct(p);
      PackFromStep([p], boxes, []);
    } else {
      PackFromLastRound([p], boxes);
    }
  }

  /** An order of one product with the fixed catalog. */
  lemma SingleProductOrder(p: Product)
    requires PositiveDimensions(p.dimensions)
    ensures PackFrom([p], AvailableBoxes) ==
            if CanProductFitInBox(p, AvailableBoxes[0]) then [PackedBox(Some("Caixa 1"), [p.product_id], None)]
            else if CanProductFitInBox(p, AvailableBoxes[1]) then [PackedBox(Some("Caixa 2"), [p.product_id], None)]
            else if CanProductFitInBox(p, AvailableBoxes[2]) then [PackedBox(Some("Caixa 3"), [p.product_id], None)]
            else [PackedBox(None, [p.product_id], Some(NoFitObservation))]
  {
    CatalogIsWellFormed();
    SinglePack(p, AvailableBoxes);
  }

  /** An item of exactly Caixa 1's dimensions goes into Caixa 1: equality counts as fitting. */
  lemma ExactFitGoesToCaixa1()
    ensures PackFrom([Product("ExactFit", Dimensions(30, 40, 80))], AvailableBoxes) ==
            [PackedBox(Some("Caixa 1"), ["ExactFit"], None)]
  {
    var p := Product("ExactFit", Dimensions(30, 40, 80));
    FitByCases(p, AvailableBoxes[0]);
    CatalogIsWellFormed();
    SinglePack(p, AvailableBoxes);
  }

  /** 80 x 30 x 20 goes into Caixa 1 once rotated. */
  lemma RotatedItemGoesToCaixa1()
    ensures PackFrom([Product("Rotatable", Dimensions(80, 30, 20))], AvailableBoxes) ==
            [PackedBox(Some("Caixa 1"), ["Rotatable"], None)]
  {
    var p := Product("Rotatable", Dimensions(80, 30, 20));
    FitByCases(p, AvailableBoxes[0]);
    FitByCases(p, AvailableBoxes[1]);
    FitByCases(p, AvailableBoxes[2]);
    SingleProductOrder(p);
  }

  /** 45 x 70 x 50 is too thick for Caixa 1 and too long for Caixa 2; it goes into Caixa 3. */
  lemma LargeItemGoesToCaixa3()
    ensures PackFrom([Product("Large-Item", Dimensions(45, 70, 50))], AvailableBoxes) ==
            [PackedBox(Some("Caixa 3"), ["Large-Item"], None)]
  {
    var p := Product("Large-Item", Dimensions(45, 70, 50));
    FitByCases(p, AvailableBoxes[0]);
    FitByCases(p, AvailableBoxes[1]);
    FitByCases(p, AvailableBoxes[2]);
    SingleProductOrder(p);
  }

  /** 100 x 100 x 100 fits no box: one sentinel box with the fixed observation. */
  lemma TooLargeItemGetsSentinel()
    ensures PackFrom([Product("Too-Large", Dimensions(100, 100, 100))], AvailableBoxes) ==
            [PackedBox(None, ["Too-Large"], Some(NoFitObservation))]
  {
    var p := Product("Too-Large", Dimensions(100, 100, 100));
    FitByCases(p, AvailableBoxes[0]);
    FitByCases(p, AvailableBoxes[1]);
    FitByCases(p, AvailableBoxes[2]);
    SingleProductOrder(p);
  }

  /** One unit over Caixa 3 along every axis also fits nowhere. */
  lemma SlightlyTooBigItemGetsSentinel()
    ensures PackFrom([Product("SlightlyTooBig", Dimensions(51, 81, 61))], AvailableBoxes) ==
            [PackedBox(None, ["SlightlyTooBig"], Some(NoFitObservation))]
  {
    var p := Product("SlightlyTooBig", Dimensions(51, 81, 61));
    FitByCases(p, AvailableBoxes[0]);
    FitByCases(p, AvailableBoxes[1]);
    FitByCases(p, AvailableBoxes[2]);
    SingleProductOrder(p);
  }

  /**
   * 40 x 10 x 25 fits Caixa 1 (as 10 x 25 x 40) as well as Caixa 2; with one product in
   * each, the strict comparison keeps the first box, Caixa 1.
   */
  lemma SmallItemGoesToFirstBox()
    ensures PackFrom([Product("item", Dimensions(40, 10, 25))], AvailableBoxes) ==
            [PackedBox(Some("Caixa 1"), ["item"], None)]
  {
    var p := Product("item", Dimensions(40, 10, 25));
    FitByCases(p, AvailableBoxes[0]);
    FitByCases(p, AvailableBoxes[1]);
    FitByCases(p, AvailableBoxes[2]);
    SingleProductOrder(p);
  }

  /** 40 x 40 x 30 fits Caixa 1 as 30 x 40 x 40, so the first box already takes it. */
  lemma MediumItemGoesToCaixa1()
    ensures PackFrom([Product("Medium-Box", Dimensions(40, 40, 30))], AvailableBoxes) ==
            [PackedBox(Some("Caixa 1"), ["Medium-Box"], None)]
  {
    var p := Product("Medium-Box", Dimensions(40, 40, 30));
    FitByCases(p, AvailableBoxes[0]);
    FitByCases(p, AvailableBoxes[1]);
    FitByCases(p, AvailableBoxes[2]);
    SingleProductOrder(p);
  }

  /** An order without products yields no boxes. */
  lemma EmptyOrderHasNoBoxes(id: int)
    ensures PackedOrderOf(Order(id, [])) == PackedOrder(id, [])
  {
  }

  /** Which catalog boxes each product of the mixed order fits. */
  lemma MixedFits(s: Product, l: Product, t: Product)
    requires s.dimensions == Dimensions(10, 10, 10)
    requires l.dimensions == Dimensions(45, 70, 50)
    requires t.dimensions == Dimensions(100, 100, 100)
    ensures CanProductFitInBox(s, AvailableBoxes[0]) && CanProductFitInBox(s, AvailableBoxes[1])
    ensures CanProductFitInBox(s, AvailableBoxes[2])
    ensures !CanProductFitInBox(l, AvailableBoxes[0]) && !CanProductFitInBox(l, AvailableBoxes[1])
    ensures CanProductFitInBox(l, AvailableBoxes[2])
    ensures !CanProductFitInBox(t, AvailableBoxes[0]) && !CanProductFitInBox(t, AvailableBoxes[1])
    ensures !CanProductFitInBox(t, AvailableBoxes[2])
  {
    FitByCases(s, AvailableBoxes[0]); FitByCases(s, AvailableBoxes[1]); FitByCases(s, AvailableBoxes[2]);
    FitByCases(l, AvailableBoxes[0]); FitByCases(l, AvailableBoxes[1]); FitByCases(l, AvailableBoxes[2]);
    FitByCases(t, AvailableBoxes[0]); FitByCases(t, AvailableBoxes[1]); FitByCases(t, AvailableBoxes[2]);
  }

  lemma FilterCons(a: Product, rest: seq<Product>, box: Box)
    ensures FilterFits([a] + rest, box) ==
            (if CanProductFitInBox(a, box) then [a] else []) + FilterFits(rest, box)
  {
    assert ([a] + rest)[1..] == rest;
  }

  /** Only the first of three products fits the box. */
  lemma FilterFirstOfThree(a: Product, b: Product, c: Product, box: Box)
    requires CanProductFitInBox(a, box) && !CanProductFitInBox(b, box) && !CanProductFitInBox(c, box)
    ensures FilterFits([a, b, c], box) == [a]
  {
    assert FilterFits([c], box) == [] by { FilterCons(c, [], box); }
    assert FilterFits([b, c], box) == [] by { FilterCons(b, [c], box); }
    FilterCons(a, [b, c], box);
  }

  lemma FilterFirstOfTwo(b: Product, c: Product, box: Box)
    requires CanProductFitInBox(b, box) && !CanProductFitInBox(c, box)
    ensures FilterFits([b, c], box) == [b]
  {
    assert FilterFits([c], box) == [] by { FilterCons(c, [], box); }
    FilterCons(b, [c], box);
    assert [b, c] == [b] + [c];
    assert [b] + [] == [b];
  }

  lemma FilterKeepsHead(a: Product, rest: seq<Product>, r: seq<Product>, box: Box)
    requires CanProductFitInBox(a, box) && FilterFits(rest, box) == r
    ensures FilterFits([a] + rest, box) == [a] + r
  {
    FilterCons(a, rest, box);
  }

  lemma SortOne(a: Product)
    ensures SortByVolumeDesc([a]) == [a]
  {
    assert [a][1..] == [];
    assert [a] + [] == [a];
  }

  /** Two products, the second strictly larger, come out of the sort swapped. */
  lemma SortTwo(a: Product, b: Product)
    requires Vol(a) < Vol(b)
    ensures SortByVolumeDesc([a, b]) == [b, a]
  {
    assert [a, b][1..] == [b];
    SortOne(b);
    assert [b][1..] == [];
    assert InsertByVolume(a, []) == [a] by { assert [a] + [] == [a]; }
    assert InsertByVolume(a, [b]) == [b] + [a];
    assert [b] + [a] == [b, a];
  }

  lemma GreedyOne(a: Product, box: Box, cap: int)
    requires CanProductFitInBox(a, box) && Vol(a) <= cap
    ensures GreedySelect([a], box, cap) == [a]
  {
    assert [a][1..] == [];
    assert [a] + [] == [a];
  }

  /** Two fitting products whose volumes add up to at most the capacity are both taken. */
  lemma GreedyTwo(a: Product, b: Product, box: Box, cap: int)
    requires CanProductFitInBox(a, box) && CanProductFitInBox(b, box)
    requires Vol(a) + Vol(b) <= cap && Vol(b) >= 0
    ensures GreedySelect([a, b], box, cap) == [a, b]
  {
    assert [a, b][1..] == [b];
    GreedyOne(b, box, cap - Vol(a));
    assert [a] + [b] == [a, b];
  }

  /** When one product passes the fit filter, it is the only candidate. */
  lemma CandidatesOfOneFitting(ps: seq<Product>, box: Box, a: Product)
    requires PositiveDimensions(a.dimensions) && PositiveDimensions(box.dimensions)
    requires FilterFits(ps, box) == [a]
    ensures Candidates(ps, box) == [a]
  {
    assert a in FilterFits(ps, box);
    SortOne(a);
    FitBoundsVolume(a, box);
    GreedyOne(a, box, CalculateVolume(box.dimensions));
  }

  /** When two products pass the fit filter and fit together, both are taken, largest first. */
  lemma CandidatesOfTwoFitting(ps: seq<Product>, box: Box, a: Product, b: Product)
    requires Vol(a) < Vol(b) && Vol(a) >= 0 && Vol(a) + Vol(b) <= CalculateVolume(box.dimensions)
    requires FilterFits(ps, box) == [a, b]
    ensures Candidates(ps, box) == [b, a]
  {
    assert a in FilterFits(ps, box) && b in FilterFits(ps, box);
    SortTwo(a, b);
    GreedyTwo(b, a, box, CalculateVolume(box.dimensions));
  }

  /** In the mixed order, only the small product is a candidate for a box other than Caixa 3. */
  lemma MixedCandidatesSmallBox(s: Product, l: Product, t: Product, j: int)
    requires s.dimensions == Dimensions(10, 10, 10)
    requires l.dimensions == Dimensions(45, 70, 50)
    requires t.dimensions == Dimensions(100, 100, 100)
    requires j == 0 || j == 1
    ensures Candidates([s, l, t], AvailableBoxes[j]) == [s]
  {
    CatalogIsWellFormed();
    MixedFits(s, l, t);
    FilterFirstOfThree(s, l, t, AvailableBoxes[j]);
    CandidatesOfOneFitting([s, l, t], AvailableBoxes[j], s);
  }

  lemma MixedFilterCaixa3(s: Product, l: Product, t: Product)
    requires s.dimensions == Dimensions(10, 10, 10)
    requires l.dimensions == Dimensions(45, 70, 50)
    requires t.dimensions == Dimensions(100, 100, 100)
    ensures FilterFits([s, l, t], AvailableBoxes[2]) == [s, l]
  {
    MixedFits(s, l, t);
    FilterFirstOfTwo(l, t, AvailableBoxes[2]);
    FilterKeepsHead(s, [l, t], [l], AvailableBoxes[2]);
    assert [s] + [l, t] == [s, l, t] && [s] + [l] == [s, l];
  }

  /** In the mixed order, Caixa 3 takes the large product and then the small one. */
  lemma MixedCandidatesCaixa3(s: Product, l: Product, t: Product)
    requires s.dimensions == Dimensions(10, 10, 10)
    requires l.dimensions == Dimensions(45, 70, 50)
    requires t.dimensions == Dimensions(100, 100, 100)
    ensures Candidates([s, l, t], AvailableBoxes[2]) == [l, s]
  {
    MixedFilterCaixa3(s, l, t);
    assert Vol(s) == 1000 && Vol(l) == 157500 && CalculateVolume(AvailableBoxes[2].dimensions) == 240000;
    CandidatesOfTwoFitting([s, l, t], AvailableBoxes[2], s, l);
  }

  /** With three boxes, the third wins when it alone has the most candidates. */
  lemma ThirdBoxWins(ps: seq<Product>, boxes: seq<Box>)
    requires |boxes| == 3
    requires |Candidates(ps, boxes[2])| > |Candidates(ps, boxes[0])|
    requires |Candidates(ps, boxes[2])| > |Candidates(ps, boxes[1])|
    ensures BestFit(ps, boxes) == BoxFit(boxes[2], Candidates(ps, boxes[2]))
  {
    FirstMaxOfThree(Counts(ps, boxes));
  }

  /** The mixed order's first round picks Caixa 3, the only box with two candidates. */
  lemma MixedBestFit(s: Product, l: Product, t: Product)
    requires s.dimensions == Dimensions(10, 10, 10)
    requires l.dimensions == Dimensions(45, 70, 50)
    requires t.dimensions == Dimensions(100, 100, 100)
    ensures BestFit([s, l, t], AvailableBoxes) == BoxFit(AvailableBoxes[2], [l, s])
  {
    MixedCandidatesSmallBox(s, l, t, 0);
    MixedCandidatesSmallBox(s, l, t, 1);
    MixedCandidatesCaixa3(s, l, t);
    assert |[l, s]| == 2 && |[s]| == 1;
    ThirdBoxWins([s, l, t], AvailableBoxes);
  }

  /** Removing the first two products of a list of three with distinct ids leaves the third. */
  lemma RemoveFirstTwo(a: Product, b: Product, c: Product)
    requires a.product_id != b.product_id && b.product_id != c.product_id && a.product_id != c.product_id
    ensures RemoveAllById([a, b, c], [b, a]) == [c]
  {
    assert RemoveFirstById([a, b, c], b.product_id) == [a, c] by {
      assert FindIndexById([a, b, c], b.product_id) == 1;
      assert [a, b, c][..1] + [a, b, c][2..] == [a, c];
    }
    assert RemoveFirstById([a, c], a.product_id) == [c] by {
      assert FindIndexById([a, c], a.product_id) == 0;
      assert [a, c][..0] + [a, c][1..] == [c];
    }
    assert [b, a][1..] == [a] && [a][1..] == [];
    assert RemoveAllById([a, b, c], [b, a]) == RemoveAllById([a, c], [a]);
    assert RemoveAllById([a, c], [a]) == RemoveAllById([c], []);
  }

  /** What is left of the mixed order after the first round goes to a sentinel box. */
  lemma MixedTail(s: Product, l: Product, t: Product)
    requires s.dimensions == Dimensions(10, 10, 10)
    requires l.dimensions == Dimensions(45, 70, 50)
    requires t == Product("TooLarge", Dimensions(100, 100, 100))
    ensures PackFrom([t], AvailableBoxes) == [PackedBox(None, ["TooLarge"], Some(NoFitObservation))]
  {
    MixedFits(s, l, t);
    SingleProductOrder(t);
  }

  lemma MixedFirstBox(s: Product, l: Product)
    requires s.product_id == "Small1" && l.product_id == "Large1"
    ensures PackedBox(Some(AvailableBoxes[2].id), ProductIds([l, s]), None) ==
            PackedBox(Some("Caixa 3"), ["Large1", "Small1"], None)
  {
    assert ProductIds([l, s]) == ["Large1", "Small1"];
  }

  /**
   * Small (10 x 10 x 10), large (45 x 70 x 50) and too large (100 x 100 x 100): Caixa 3
   * takes the large and the small product, largest first, and a sentinel box takes the
   * product that fits nowhere.
   */
  lemma MixedOrderUsesCaixa3AndSentinel(s: Product, l: Product, t: Product)
    requires s == Product("Small1", Dimensions(10, 10, 10))
    requires l == Product("Large1", Dimensions(45, 70, 50))
    requires t == Product("TooLarge", Dimensions(100, 100, 100))
    ensures PackFrom([s, l, t], AvailableBoxes) ==
            [PackedBox(Some("Caixa 3"), ["Large1", "Small1"], None),
             PackedBox(None, ["TooLarge"], Some(NoFitObservation))]
  {
    MixedTail(s, l, t);
    MixedBestFit(s, l, t);
    RemoveFirstTwo(s, l, t);
    PackFromStep([s, l, t], AvailableBoxes, [t]);
    MixedFirstBox(s, l);
  }

  lemma SumOfTwo(a: Product, b: Product)
    ensures SumVolumes([a, b]) == Vol(a) + Vol(b)
  {
    assert [b][1..] == [];
    assert SumVolumes([b]) == Vol(b);
    assert [a, b][1..] == [b];
  }

  lemma SumOfThree(a: Product, b: Product, c: Product)
    ensures SumVolumes([a, b, c]) == Vol(a) + Vol(b) + Vol(c)
  {
    assert [a, b, c][1..] == [b, c];
    SumOfTwo(b, c);
  }

  /** Two products that each fit a box fit it as a list, and are positive as a list. */
  lemma {:induction false} PairFits(a: Product, b: Product, box: Box)
    requires PositiveDimensions(a.dimensions) && PositiveDimensions(b.dimensions)
    requires CanProductFitInBox(a, box) && CanProductFitInBox(b, box)
    ensures AllPositive([a, b])
    ensures forall i :: 0 <= i < |[a, b]| ==> CanProductFitInBox([a, b][i], box)
  {
  }

  /** Three products that each fit a box fit it as a list, and are positive as a list. */
  lemma {:induction false} TripleFits(a: Product, b: Product, c: Product, box: Box)
    requires PositiveDimensions(a.dimensions) && PositiveDimensions(b.dimensions)
    requires PositiveDimensions(c.dimensions)
    requires CanProductFitInBox(a, box) && CanProductFitInBox(b, box) && CanProductFitInBox(c, box)
    ensures AllPositive([a, b, c])
    ensures forall i :: 0 <= i < |[a, b, c]| ==> CanProductFitInBox([a, b, c][i], box)
  {
  }

  /** Three products already in descending volume are left as they are by the sort. */
  lemma {:induction false} TripleSorted(a: Product, b: Product, c: Product)
    requires Vol(a) >= Vol(b) >= Vol(c)
    ensures SortByVolumeDesc([a, b, c]) == [a, b, c]
  {
    SortOfSorted([a, b, c]);
  }

  lemma IdsOfTwo(a: Product, b: Product)
    ensures ProductIds([a, b]) == [a.product_id, b.product_id]
  {
  }

  lemma IdsOfThree(a: Product, b: Product, c: Product)
    ensures ProductIds([a, b, c]) == [a.product_id, b.product_id, c.product_id]
  {
  }

  /** The PS5 (40 x 10 x 25) and the Volante (40 x 30 x 30) both fit Caixa 1. */
  lemma {:induction false} PS5AndVolanteFit(a: Product, v: Product)
    requires a.dimensions == Dimensions(40, 10, 25) && v.dimensions == Dimensions(40, 30, 30)
    ensures CanProductFitInBox(a, AvailableBoxes[0]) && CanProductFitInBox(v, AvailableBoxes[0])
  {
    FitByCases(a, AvailableBoxes[0]);
    FitByCases(v, AvailableBoxes[0]);
  }

  /** The Volante is the larger of the two, and together they fill Caixa 1 at most. */
  lemma {:induction false} PS5AndVolanteVolumes(a: Product, v: Product)
    requires a.dimensions == Dimensions(40, 10, 25) && v.dimensions == Dimensions(40, 30, 30)
    ensures SortByVolumeDesc([a, v]) == [v, a]
    ensures SumVolumes([v, a]) <= CalculateVolume(AvailableBoxes[0].dimensions)
  {
    SortTwo(a, v);
    SumOfTwo(v, a);
  }

  /**
   * The PS5 (40 x 10 x 25) and Volante (40 x 30 x 30) order of the controller's request
   * example: both fit Caixa 1 together, so one Caixa 1 holds the Volante and then the PS5.
   */
  lemma {:induction false} PS5AndVolanteGoToCaixa1(a: Product, v: Product)
    requires a == Product("PS5", Dimensions(40, 10, 25))
    requires v == Product("Volante", Dimensions(40, 30, 30))
    ensures PackFrom([a, v], AvailableBoxes) == [PackedBox(Some("Caixa 1"), ["Volante", "PS5"], None)]
  {
    PS5AndVolanteFit(a, v);
    PairFits(a, v, AvailableBoxes[0]);
    PS5AndVolanteVolumes(a, v);
    IdsOfTwo(v, a);
    OrderFittingFirstBox([a, v], AvailableBoxes);
  }

  /** The PS5 (10 x 15 x 20) and the controller (5 x 10 x 15) both fit Caixa 1. */
  lemma {:induction false} PS5AndControllerFit(a: Product, c: Product)
    requires a.dimensions == Dimensions(10, 15, 20) && c.dimensions == Dimensions(5, 10, 15)
    ensures CanProductFitInBox(a, AvailableBoxes[0]) && CanProductFitInBox(c, AvailableBoxes[0])
  {
    FitByCases(a, AvailableBoxes[0]);
    FitByCases(c, AvailableBoxes[0]);
  }

  /** The PS5 is the larger of the two, and together they fill Caixa 1 at most. */
  lemma {:induction false} PS5AndControllerVolumes(a: Product, c: Product)
    requires a.dimensions == Dimensions(10, 15, 20) && c.dimensions == Dimensions(5, 10, 15)
    ensures SortByVolumeDesc([a, c]) == [a, c]
    ensures SumVolumes([a, c]) <= CalculateVolume(AvailableBoxes[0].dimensions)
  {
    SortOfSorted([a, c]);
    SumOfTwo(a, c);
  }

  /** A PS5 (10 x 15 x 20) and a controller (5 x 10 x 15) share one Caixa 1, PS5 first. */
  lemma {:induction false} PS5AndControllerGoToCaixa1(a: Product, c: Product)
    requires a == Product("PS5", Dimensions(10, 15, 20))
    requires c == Product("Controller", Dimensions(5, 10, 15))
    ensures PackFrom([a, c], AvailableBoxes) == [PackedBox(Some("Caixa 1"), ["PS5", "Controller"], None)]
  {
    PS5AndControllerFit(a, c);
    PairFits(a, c, AvailableBoxes[0]);
    PS5AndControllerVolumes(a, c);
    IdsOfTwo(a, c);
    OrderFittingFirstBox([a, c], AvailableBoxes);
  }

  /** A 10 x 10 x 10 item fits Caixa 1. */
  lemma {:induction false} CubeOfTenFits(p: Product)
    requires p.dimensions == Dimensions(10, 10, 10)
    ensures CanProductFitInBox(p, AvailableBoxes[0])
  {
    FitByCases(p, AvailableBoxes[0]);
  }

  /** Three 10 x 10 x 10 items keep their order in the sort and fill Caixa 1 at most. */
  lemma {:induction false} ThreeCubesVolumes(x: Product, y: Product, z: Product)
    requires x.dimensions == Dimensions(10, 10, 10) && y.dimensions == Dimensions(10, 10, 10)
    requires z.dimensions == Dimensions(10, 10, 10)
    ensures SortByVolumeDesc([x, y, z]) == [x, y, z]
    ensures SumVolumes([x, y, z]) <= CalculateVolume(AvailableBoxes[0].dimensions)
  {
    TripleSorted(x, y, z);
    SumOfThree(x, y, z);
  }

  /** Three 10 x 10 x 10 items all go into one Caixa 1, in their order. */
  lemma {:induction false} ThreeEqualItemsShareOneBox(x: Product, y: Product, z: Product)
    requires x == Product("Item1", Dimensions(10, 10, 10))
    requires y == Product("Item2", Dimensions(10, 10, 10))
    requires z == Product("Item3", Dimensions(10, 10, 10))
    ensures PackFrom([x, y, z], AvailableBoxes) ==
            [PackedBox(Some("Caixa 1"), ["Item1", "Item2", "Item3"], None)]
  {
    CubeOfTenFits(x);
    CubeOfTenFits(y);
    CubeOfTenFits(z);
    TripleFits(x, y, z, AvailableBoxes[0]);
    ThreeCubesVolumes(x, y, z);
    IdsOfThree(x, y, z);
    OrderFittingFirstBox([x, y, z], AvailableBoxes);
  }

  /** Two orders are packed one after the other, each on its own. */
  lemma {:induction false} TwoOrders(o1: Order, o2: Order, p1: PackedOrder, p2: PackedOrder)
    requires PackedOrderOf(o1) == p1 && PackedOrderOf(o2) == p2
    ensures ProcessOrders([o1, o2]) == [p1, p2]
  {
  }

  /** Two one-product orders are packed in their order, each keeping its id. */
  lemma {:induction false} MultipleOrdersKeepTheirIds(o1: Order, o2: Order)
    requires o1 == Order(1, [Product("small-item", Dimensions(10, 10, 10))])
    requires o2 == Order(2, [Product("medium-item", Dimensions(20, 20, 20))])
    ensures ProcessOrders([o1, o2]) ==
            [PackedOrder(1, [PackedBox(Some("Caixa 1"), ["small-item"], None)]),
             PackedOrder(2, [PackedBox(Some("Caixa 1"), ["medium-item"], None)])]
  {
    SmallOrderIntoFirstBox(o1, "small-item", 10);
    SmallOrderIntoFirstBox(o2, "medium-item", 20);
    TwoOrders(o1, o2, PackedOrder(1, [PackedBox(Some("Caixa 1"), ["small-item"], None)]),
              PackedOrder(2, [PackedBox(Some("Caixa 1"), ["medium-item"], None)]));
  }

  /** An order of one cube of side at most 30 is one Caixa 1 holding it. */
  lemma {:induction false} SmallOrderIntoFirstBox(o: Order, id: string, side: int)
    requires 0 < side <= 30
    requires o.products == [Product(id, Dimensions(side, side, side))]
    ensures PackedOrderOf(o) == PackedOrder(o.order_id, [PackedBox(Some("Caixa 1"), [id], None)])
  {
    var p := Product(id, Dimensions(side, side, side));
    assert Within(Orientations(p.dimensions)[0], AvailableBoxes[0].dimensions);
    CatalogIsWellFormed();
    SingleProductOrder(p);
  }
}
