# Order packing engine

This project models the packing engine of the order-packing web service, `PackingService`. The service groups the products of each order into cardboard boxes chosen from a fixed catalog of three: Caixa 1 is 30 x 40 x 80, Caixa 2 is 50 x 50 x 40 and Caixa 3 is 50 x 80 x 60.

The engine works in rounds:

- **Fit.** A product fits a box when one of the six orientations of its height, width and length is component-wise at most the box's dimensions.
- **Selection.** For each box, the products that fit are sorted by volume, largest first (stably). Then each product in turn is taken if its volume is within what remains of the box's volume; the others are skipped.
- **Best box.** The chosen box is the first box, in catalog order, whose selection has the most products; a later box replaces it only when it takes strictly more.
- **Removal.** The selected products are removed from the remaining list, by id and one occurrence at a time. The round repeats until nothing remains.
- **Sentinel.** If no box takes any product, all remaining products go into one box with no id. That box carries the observation "Produto não cabe em nenhuma caixa disponível.", and packing stops.

The mappers translate between the HTTP records, which use Portuguese field names, and the engine's records. An observation is copied to the response only when it is present and non-empty.

Layout, one module per file:

- `order_types.dfy`: the engine's records.
- `dto_types.dfy`: the HTTP records.
- `fit.dfy`: `canProductFitInBox` and `calculateVolume`.
- `volume_sort.dfy`: the volume sort.
- `selection.dfy`: `findProductsThatFitInBox` and its forward pass.
- `best_box.dfy`: `findBestBoxForProducts`.
- `catalog.dfy`: `availableBoxes`.
- `removal.dfy`: the `findIndex`/`splice` removal.
- `packing.dfy`: `packOrder` and `processOrders`.
- `packing_properties.dfy`: whole-packing guarantees.
- `mappers.dfy`: the two mappers.
- `scenarios.dfy`: concrete orders proved for the fixed catalog: the worked examples of the service's test file, the single PS5 of the controller's mocked test and the PS5 and Volante of its request example, with the lemmas about one-product orders, two-order batches and small fixed lists that they rest on.

Each loop of the service is a `method` with invariants, proved equal to a recursive specification function:

- `FindProductsThatFitInBox`, with its forward pass `ForwardPass`;
- `FindBestBoxForProducts`;
- `PackOrder`, with its inner `RemovePacked` and `SpliceOutFirst`.

The properties are proved about those functions. The service has no mutable fields, because `availableBoxes` is read-only. So it is not modelled as a class. `processOrders` is a function over the specification `PackFrom`.

The controller's test (src/orders/orders.controller.spec.ts:41-82) uses a mocked service that answers Caixa 2 for a single 40 x 10 x 25 PS5. The request and response example on the controller (src/orders/orders.controller.ts:20-46, 83-97) gives Caixa 2 holding PS5 and then Volante for a PS5 with a 40 x 30 x 30 Volante. The code gives Caixa 1 in both cases. Rotated to 10 x 25 x 40 the PS5 fits Caixa 1, and the tie-break keeps the first box with the most products. The Volante, rotated to 30 x 40 x 30, fits Caixa 1 too, and the two together stay within its volume; the sort puts the larger Volante first. The model follows the code; see `Scenarios.SmallItemGoesToFirstBox` and `Scenarios.PS5AndVolanteGoToCaixa1`.

## Model

| member | source | states |
|---|---|---|
| Catalog.CatalogIsWellFormed | src/orders/services/packing.service.ts:7-20 | the catalog holds exactly three boxes, every dimension positive, with distinct ids |
| Fit.OrientationsAreRotations | src/orders/services/packing.service.ts:101-108 | each of the six orientations tried is a rotation of the product's dimensions |
| Fit.RotationIsListed | src/orders/services/packing.service.ts:101-108 | every rotation of the dimensions is one of the six orientations tried, so none is missed |
| Fit.FitIffSomeRotationFits | src/orders/services/packing.service.ts:97-113 | a product fits a box if and only if some rotation of its dimensions is component-wise within the box |
| Fit.FitIsRotationInvariant | src/orders/services/packing.service.ts:97-113 | two products whose dimensions are rotations of each other either both fit a box or both do not |
| Fit.FitIsMonotone | src/orders/services/packing.service.ts:110-112 | a product no larger, dimension by dimension, than a fitting one also fits |
| Fit.ExactDimensionsFit | src/orders/services/packing.service.ts:110-112 | a product with exactly the box's dimensions fits, because the comparison is not strict |
| Fit.VolumeOfRotation | src/orders/services/packing.service.ts:115-117 | the volume is the same in every orientation |
| Fit.FitBoundsVolume | src/orders/services/packing.service.ts:97-117 | a product with positive dimensions that fits a box has at most the box's volume |
| Fit.PositiveVolume | src/orders/services/packing.service.ts:115-117 | positive dimensions give a positive volume |
| VolumeSort.InsertByVolume | src/orders/services/packing.service.ts:83 | inserting a product adds exactly that product to the multiset of products |
| VolumeSort.SortByVolumeDesc | src/orders/services/packing.service.ts:83 | the sorted list is a permutation of its input |
| VolumeSort.InsertKeepsSorted | src/orders/services/packing.service.ts:83 | inserting into a list sorted by non-increasing volume keeps it sorted |
| VolumeSort.SortIsSorted | src/orders/services/packing.service.ts:83 | the sorted list has non-increasing volume |
| VolumeSort.WithVolumeOfInsert | src/orders/services/packing.service.ts:83 | into a sorted list, the products of any one volume after insertion are the new product (if it has that volume) followed by the old ones of that volume, in their old order |
| VolumeSort.SortIsStable | src/orders/services/packing.service.ts:83 | products of equal volume keep their input order (a stable sort) |
| VolumeSort.SortOfSorted | src/orders/services/packing.service.ts:83 | a list already in non-increasing volume is left unchanged by the sort |
| Selection.FilterFits | src/orders/services/packing.service.ts:82 | the filtered list is a subsequence of the input (input order kept) and a sub-multiset of it; a product is in it if and only if it is in the input and fits the box |
| Selection.FilterFitsKeepsEveryCopy | src/orders/services/packing.service.ts:82 | the filter keeps every copy of a fitting product and no copy of any other: each product occurs as often as in the input if it fits, and not at all otherwise |
| Selection.FilterKeepsAllFitting | src/orders/services/packing.service.ts:82 | when every product fits, the filter returns the input unchanged |
| Selection.FindProductsThatFitInBox | src/orders/services/packing.service.ts:77-95 | the method returns the greedy volume-bounded selection from the sorted fitting products, for any box |
| Selection.ForwardPass | src/orders/services/packing.service.ts:85-92 | the loop over the sorted products, which takes a product when it fits and its volume is within what remains, returns the greedy selection for the volume it starts with; the remaining volume is always the starting volume minus what was taken, and never drops below zero when the start is non-negative |
| Selection.GreedyTakesAll | src/orders/services/packing.service.ts:85-92 | when every product fits, no volume is negative and the total is within the capacity, the pass takes every product in order |
| Selection.GreedyFits | src/orders/services/packing.service.ts:85-92 | the greedy pass takes only products that fit the box |
| Selection.GreedyWithinCapacity | src/orders/services/packing.service.ts:85-92 | the greedy pass keeps the total volume within the remaining capacity |
| Selection.CandidatesFitBox | src/orders/services/packing.service.ts:82-92 | every product selected for a box fits that box |
| Selection.CandidatesWithinCapacity | src/orders/services/packing.service.ts:79-92 | for a box with positive dimensions, the total volume of the selection is at most the box's volume |
| Selection.CandidatesOrderAndOrigin | src/orders/services/packing.service.ts:81-92 | the selection is a subsequence of the fitting products sorted by volume, is itself in non-increasing volume, and is a sub-multiset of the order's products |
| Selection.FirstSortedFits | src/orders/services/packing.service.ts:83-92 | when some product of the order fits the box, the sorted fitting list is non-empty and its first product is a product of the order that fits |
| Selection.CandidatesEmptyIff | src/orders/services/packing.service.ts:77-95 | for a box and products with positive dimensions, the selection is empty if and only if no product fits the box |
| Selection.BoxTakesAll | src/orders/services/packing.service.ts:77-95 | a box that every product (all of positive dimensions) fits, and whose volume the products fill at most, takes all of them, sorted by volume |
| Selection.CandidatesAtMostAll | src/orders/services/packing.service.ts:77-95 | a box never takes more products than the order has |
| BestBox.FirstMaxIndex | src/orders/services/packing.service.ts:63-75 | the index returned holds the maximum count, and every earlier index holds a strictly smaller one |
| BestBox.PrefixBestStep | src/orders/services/packing.service.ts:66-72 | a further box replaces the current choice only when it takes strictly more products |
| BestBox.FindBestBoxForProducts | src/orders/services/packing.service.ts:63-75 | the loop returns the first box whose selection is largest, with that selection |
| BestBox.BestFitIsFirstMaximum | src/orders/services/packing.service.ts:63-75 | the chosen box is in the catalog; its selection is at least as large as every box's, and strictly larger than those of all earlier boxes |
| BestBox.BestFitEmptyIff | src/orders/services/packing.service.ts:63-75 | the chosen selection is empty if and only if every box's selection is empty |
| BestBox.BestFitEmptyIffNothingFits | src/orders/services/packing.service.ts:63-113 | with positive dimensions throughout, the chosen selection is empty if and only if no remaining product fits any box |
| BestBox.FirstBoxWins | src/orders/services/packing.service.ts:63-75 | when the first box takes every product, it is the box chosen, with all the products sorted by volume |
| Removal.FindIndexById | src/orders/services/packing.service.ts:50 | -1 if and only if no product has the id; otherwise the first index holding it |
| Removal.RemoveFirstByIdEffect | src/orders/services/packing.service.ts:50-53 | when the id is present, the result is the list with its first product of that id cut out, the others in their order, and its ids lose exactly one copy of the id; when absent, the list is unchanged |
| Removal.RemoveAllByIdEffect | src/orders/services/packing.service.ts:49-54 | when the packed ids are drawn from the list's ids, the remaining ids are exactly the old ones minus the packed ones, the list shrinks by the number packed, and products are only dropped |
| Removal.RemovalShrinks | src/orders/services/packing.service.ts:32-55 | removing a non-empty set of products taken from the remaining list makes it strictly shorter, so the loop ends |
| Removal.RemoveEverything | src/orders/services/packing.service.ts:49-54 | removing, one id at a time, any permutation of a list's products leaves nothing |
| Packing.PackFromStep | src/orders/services/packing.service.ts:32-55 | a round that packs products emits its box and continues on a strictly shorter remaining list |
| Packing.SpliceOutFirst | src/orders/services/packing.service.ts:50-53 | the index lookup and splice remove the first product with the id |
| Packing.RemovePacked | src/orders/services/packing.service.ts:49-54 | the loop over the packed products leaves the remaining list with every packed product removed in turn |
| Packing.PackOrder | src/orders/services/packing.service.ts:26-61 | the packing loop returns the order's id and the boxes of the specification function |
| Packing.ProcessOrders | src/orders/services/packing.service.ts:22-24 | one packed order per order, in order, each with its order's id and packing |
| Packing.OrderFittingFirstBox | src/orders/services/packing.service.ts:26-75 | a non-empty order of products with positive dimensions that all fit the first box and fill it at most is packed as one such box holding the products sorted by volume |
| PackingProperties.PackConservesIds | src/orders/services/packing.service.ts:32-55 | the ids across all boxes are, as a multiset, exactly the ids of the order's products |
| PackingProperties.PackIsWellShaped | src/orders/services/packing.service.ts:32-55 | every box is non-empty and names a catalog box or is the sentinel; only the last box may be the sentinel; a box carries the no-fit observation if it is the sentinel and no observation otherwise; there are no more boxes than products, and none exactly when there are no products |
| PackingProperties.AtMostOneSentinel | src/orders/services/packing.service.ts:35-42 | at most one box of a packing lacks a box id |
| PackingProperties.PackedProductsFit | src/orders/services/packing.service.ts:32-55 | with unique ids and positive dimensions, each product of a box with an id fits the catalog box of that id, and every product of the sentinel fits no catalog box |
| PackingProperties.UniqueIdsOccurOnce | src/orders/services/packing.service.ts:49-54 | with unique ids, each id occurs once in the order's id list, or not at all; together with conservation, each id is packed exactly once |
| PackingProperties.PackedOrderGuarantees | src/orders/services/packing.service.ts:26-61 | the packed order keeps the order's id, packs exactly the order's ids and is well shaped, with no boxes for an empty order; with unique ids each id is packed exactly once, and with unique ids and positive dimensions every box fits its products |
| Mappers.MapPedidoToOrder | src/orders/services/packing.service.ts:119-131 | the request's id is kept; the products keep their number, order and ids; altura, largura and comprimento become height, width and length |
| Mappers.MapPedidoToOrderRoundTrip | src/orders/services/packing.service.ts:119-131 | mapping a request and converting back gives the request again, so no information is lost |
| Mappers.MapPedidoToOrderOnto | src/orders/services/packing.service.ts:119-131 | every order is the mapping of some request |
| Mappers.MapObservation | src/orders/services/packing.service.ts:139 | the observation is present in the response if and only if it is present and non-empty, and is then unchanged |
| Mappers.MapPackedOrderToPedidoEmbalagem | src/orders/services/packing.service.ts:133-142 | the response keeps the order id and the number and order of the boxes; each box keeps its id and products, and carries the box's observation exactly when it is present and non-empty |
| Mappers.ResponseObservationOnlyOnSentinel | src/orders/services/packing.service.ts:133-142 | in the response to a packing, a box carries the no-fit observation if it has no box id, and no observation otherwise |
| Scenarios.SingleProductOrder | src/orders/services/packing.service.ts:26-75 | a single positive product goes alone into the first catalog box it fits, or into the sentinel if it fits none |
| Scenarios.SmallItemGoesToFirstBox | src/orders/services/packing.service.ts:63-75 | a 40 x 10 x 25 product goes into Caixa 1, the first box it fits by rotation (the controller's mocked test expects Caixa 2) |
| Scenarios.PS5AndVolanteGoToCaixa1 | src/orders/services/packing.service.ts:26-95 | the controller's example order, a PS5 of 40 x 10 x 25 with a Volante of 40 x 30 x 30, is packed as one Caixa 1 holding the Volante and then the PS5 (the example's response says Caixa 2) |
| Scenarios.MultipleOrdersKeepTheirIds | src/orders/services/packing.service.spec.ts:21-48 | the two test orders are packed in their order, each keeping its id, each as one Caixa 1 |
| Scenarios.PS5AndControllerGoToCaixa1 | src/orders/services/packing.service.spec.ts:52-73 | a PS5 of 10 x 15 x 20 and a controller of 5 x 10 x 15 share one Caixa 1, PS5 first |
| Scenarios.MediumItemGoesToCaixa1 | src/orders/services/packing.service.spec.ts:75-91 | a 40 x 40 x 30 product goes into Caixa 1 |
| Scenarios.LargeItemGoesToCaixa3 | src/orders/services/packing.service.spec.ts:93-109 | a 45 x 70 x 50 product goes into Caixa 3 |
| Scenarios.TooLargeItemGetsSentinel | src/orders/services/packing.service.spec.ts:111-128 | a 100 x 100 x 100 product goes into the sentinel box with the no-fit observation |
| Scenarios.ThreeEqualItemsShareOneBox | src/orders/services/packing.service.spec.ts:130-153 | three 10 x 10 x 10 items go into one Caixa 1, in their order |
| Scenarios.MixedOrderUsesCaixa3AndSentinel | src/orders/services/packing.service.spec.ts:155-184 | Small1, Large1 and TooLarge pack as Caixa 3 holding Large1 then Small1, followed by the sentinel holding TooLarge |
| Scenarios.RotatedItemGoesToCaixa1 | src/orders/services/packing.service.spec.ts:188-204 | an 80 x 30 x 20 product fits Caixa 1 after rotation |
| Scenarios.EmptyOrderHasNoBoxes | src/orders/services/packing.service.spec.ts:277-286 | an order with no products packs into no boxes |
| Scenarios.ExactFitGoesToCaixa1 | src/orders/services/packing.service.spec.ts:288-304 | a product of exactly 30 x 40 x 80 goes into Caixa 1 |
| Scenarios.SlightlyTooBigItemGetsSentinel | src/orders/services/packing.service.spec.ts:306-323 | a 51 x 81 x 61 product goes into the sentinel box |

## Left out

- Numbers: JavaScript numbers are floating point. The model uses unbounded integers, so products with fractional or very large dimensions, and the rounding of their volumes, are outside it.
- VolumeSort.SortByVolumeDesc: `Array.prototype.sort` has its own engine internals. The model uses a stable insertion sort. That gives the same result, because the comparator orders by volume and the runtime's sort is stable.
- The `PackedProduct` interface (src/orders/interfaces/order.interface.ts:22-26) is declared but never used by the service, so it is not modelled.
- The HTTP controller, the module wiring, the application bootstrap and the API documentation decorators have no packing logic, so they are not modelled.
- Input validation: nothing in the source validates a request. No validation pipe is installed (src/main.ts:5-19, src/orders/orders.module.ts:5-8), the request records carry only documentation decorators, and the controller hands the body straight to `mapPedidoToOrder` (src/orders/orders.controller.ts:125-128). So zero or negative dimensions and repeated product ids reach the engine, and the model accepts them too. Conservation (`PackingProperties.PackConservesIds`), shape (`PackingProperties.PackIsWellShaped`) and termination (`PackFrom`'s decreasing remaining list) hold for every input. The lemmas that assume positive dimensions or unique ids say so in their own `requires`: `Fit.FitBoundsVolume`, `Selection.CandidatesWithinCapacity` (a box with positive dimensions), `Selection.CandidatesEmptyIff`, `Selection.BoxTakesAll`, `BestBox.BestFitEmptyIffNothingFits`, `Packing.OrderFittingFirstBox`, `PackingProperties.UniqueIdsOccurOnce`, `PackingProperties.PackedProductsFit` and `Scenarios.SingleProductOrder`.
- src/orders/dto/dimensions.dto.ts is not part of this model. Its fields are taken from `mapPedidoToOrder`, which reads `altura`, `largura` and `comprimento`.
- Selection.CandidatesWithinCapacity: the volume bound applies to the products of one selection. It is not a bound on packing: the source's check is on volume only, not geometric, so the products of a box need not physically fit together.
- PackingProperties.PackedProductsFit: this holds only with unique product ids. The source removes packed products by id, so two different products that share an id can change places between boxes.
- The methods read the fixed catalog `Catalog.AvailableBoxes`, as the service does. The specification functions take the box list as a parameter.
