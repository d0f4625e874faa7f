/**
 * The engine's data model: the records of src/orders/interfaces/order.interface.ts.
 * Numbers are modelled as unbounded integers; a nullable or optional field is an Option.
 */
module OrderTypes {
  import opened Wrappers

  datatype Dimensions = Dimensions(height: int, width: int, length: int)

  datatype Product = Product(product_id: string, dimensions: Dimensions)

  datatype Order = Order(order_id: int, products: seq<Product>)

  datatype Box = Box(id: string, dimensions: Dimensions)

  /** box_id is None for the sentinel box that collects products fitting in no box. */
  datatype PackedBox = PackedBox(box_id: Option<string>, products: seq<string>, observation: Option<string>)

  datatype PackedOrder = PackedOrder(order_id: int, boxes: seq<PackedBox>)

  /** The well-formedness the boundary layer guarantees for every dimension. */
  predicate PositiveDimensions(d: Dimensions)
  {
    d.height > 0 && d.width > 0 && d.length > 0
  }

  predicate AllPositive(ps: seq<Product>)
  {
    forall i :: 0 <= i < |ps| ==> PositiveDimensions(ps[i].dimensions)
  }

  predicate AllBoxesPositive(boxes: seq<Box>)
  {
    forall j :: 0 <= j < |boxes| ==> PositiveDimensions(boxes[j].dimensions)
  }

  predicate UniqueIds(ps: seq<Product>)
  {
    forall i, j :: 0 <= i < j < |ps| ==> ps[i].product_id != ps[j].product_id
  }

  /** The `map(p => p.product_id)` the engine applies to a product list. */
  function ProductIds(ps: seq<Product>): (ids: seq<string>)
  {
    seq(|ps|, i requires 0 <= i < |ps| => ps[i].product_id)
  }
}
