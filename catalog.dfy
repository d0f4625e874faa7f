/** The fixed, ordered box catalog `availableBoxes`. */
module Catalog {
  import opened OrderTypes

  const AvailableBoxes: seq<Box> := [
    Box("Caixa 1", Dimensions(30, 40, 80)),
    Box("Caixa 2", Dimensions(50, 50, 40)),
    Box("Caixa 3", Dimensions(50, 80, 60))
  ]

  /** Three boxes with positive dimensions and distinct identifiers. */
  lemma CatalogIsWellFormed()
    ensures |AvailableBoxes| == 3
    ensures AllBoxesPositive(AvailableBoxes)
    ensures forall i, j :: 0 <= i < j < |AvailableBoxes| ==> AvailableBoxes[i].id != AvailableBoxes[j].id
  {
  }
}
