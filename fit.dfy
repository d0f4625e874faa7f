/**
 * The fit check and the volume of packing.service.ts: a product fits a box when one of
 * its six axis orders is component-wise no larger than the box.
 */
module Fit {
  import opened OrderTypes

  /** The six orientations the fit check tries, in the order the source lists them. */
  function Orientations(d: Dimensions): seq<Dimensions>
  {
    [Dimensions(d.height, d.width, d.length),
     Dimensions(d.height, d.length, d.width),
     Dimensions(d.width, d.height, d.length),
     Dimensions(d.width, d.length, d.height),
     Dimensions(d.length, d.height, d.width),
     Dimensions(d.length, d.width, d.height)]
  }

  /** Component-wise comparison with `<=`, height against height and so on. */
  predicate Within(o: Dimensions, b: Dimensions)
  {
    o.height <= b.height && o.width <= b.width && o.length <= b.length
  }

  /** o is a rotation of d when it holds the same three values in some order. */
  predicate IsRotationOf(o: Dimensions, d: Dimensions)
  {
    multiset{o.height, o.width, o.length} == multiset{d.height, d.width, d.length}
  }

  /** `canProductFitInBox`: some orientation of the product is within the box. */
  predicate CanProductFitInBox(p: Product, box: Box)
  {
    exists i :: 0 <= i < 6 && Within(Orientations(p.dimensions)[i], box.dimensions)
  }

  /** `calculateVolume`. */
  function CalculateVolume(d: Dimensions): int
  {
    d.height * d.width * d.length
  }

  lemma OrientationsAreRotations(d: Dimensions, i: int)
    requires 0 <= i < 6
    ensures IsRotationOf(Orientations(d)[i], d)
  {
  }

  lemma PairCases(x: int, y: int, b: int, c: int)
    requires multiset{x, y} == multiset{b, c}
    ensures (x == b && y == c) || (x == c && y == b)
  {
    assert x in multiset{b, c};
    if x == b {
      assert multiset{x, y} - multiset{b} == multiset{y};
      assert multiset{b, c} - multiset{b} == multiset{c};
    } else {
      assert multiset{x, y} - multiset{c} == multiset{y};
      assert multiset{b, c} - multiset{c} == multiset{b};
    }
  }

  lemma FirstIsMember(h: int, w: int, l: int, a: int, b: int, c: int)
    requires multiset{h, w, l} == multiset{a, b, c}
    ensures h == a || h == b || h == c
  {
    assert h in multiset{h, w, l};
  }

  lemma DropFirst(h: int, w: int, l: int, a: int, b: int, c: int)
    requires multiset{h, w, l} == multiset{a, b, c}
    requires h == a
    ensures multiset{w, l} == multiset{b, c}
  {
    assert multiset{h, w, l} - multiset{a} == multiset{w, l};
    assert multiset{a, b, c} - multiset{a} == multiset{b, c};
  }

  /** Every rotation of d is one of the six orientations the fit check lists. */
  lemma RotationIsListed(o: Dimensions, d: Dimensions) returns (i: int)
    requires IsRotationOf(o, d)
    ensures 0 <= i < 6 && Orientations(d)[i] == o
  {
    var h, w, l := o.height, o.width, o.length;
    var a, b, c := d.height, d.width, d.length;
    FirstIsMember(h, w, l, a, b, c);
    if h == a {
      DropFirst(h, w, l, a, b, c);
      PairCases(w, l, b, c);
      i := if w == b then 0 else 1;
    } else if h == b {
      assert multiset{a, b, c} == multiset{b, a, c};
      DropFirst(h, w, l, b, a, c);
      PairCases(w, l, a, c);
      i := if w == a then 2 else 3;
    } else {
      assert multiset{a, b, c} == multiset{c, a, b};
      DropFirst(h, w, l, c, a, b);
      PairCases(w, l, a, b);
      i := if w == a then 4 else 5;
    }
  }

  /** The fit check holds exactly when some rotation of the product is within the box. */
  lemma FitIffSomeRotationFits(p: Product, box: Box)
    ensures CanProductFitInBox(p, box) <==>
            exists o :: IsRotationOf(o, p.dimensions) && Within(o, box.dimensions)
  {
    if CanProductFitInBox(p, box) {
      var i :| 0 <= i < 6 && Within(Orientations(p.dimensions)[i], box.dimensions);
      OrientationsAreRotations(p.dimensions, i);
    }
    if o :| IsRotationOf(o, p.dimensions) && Within(o, box.dimensions) {
      var i := RotationIsListed(o, p.dimensions);
      assert Within(Orientations(p.dimensions)[i], box.dimensions);
    }
  }

  /** Rotation invariance: rotating a product's dimensions never changes the fit check. */
  lemma FitIsRotationInvariant(p: Product, o: Dimensions, box: Box)
    requires IsRotationOf(o, p.dimensions)
    ensures CanProductFitInBox(Product(p.product_id, o), box) == CanProductFitInBox(p, box)
  {
    FitIffSomeRotationFits(p, box);
    FitIffSomeRotationFits(Product(p.product_id, o), box);
    forall r | IsRotationOf(r, o)
      ensures IsRotationOf(r, p.dimensions)
    {
    }
    forall r | IsRotationOf(r, p.dimensions)
      ensures IsRotationOf(r, o)
    {
    }
  }

  /** Monotonicity: shrinking a fitting product, axis by axis, keeps it fitting. */
  lemma FitIsMonotone(p: Product, q: Dimensions, box: Box)
    requires Within(q, p.dimensions)
    requires CanProductFitInBox(p, box)
    ensures CanProductFitInBox(Product(p.product_id, q), box)
  {
    var i :| 0 <= i < 6 && Within(Orientations(p.dimensions)[i], box.dimensions);
    assert Within(Orientations(q)[i], box.dimensions);
  }

  /** The exact-fit boundary: a product equal to the box along every axis fits it. */
  lemma ExactDimensionsFit(id: string, box: Box)
    ensures CanProductFitInBox(Product(id, box.dimensions), box)
  {
    assert Within(Orientations(box.dimensions)[0], box.dimensions);
  }

  /** A rotation has the same volume. */
  lemma VolumeOfRotation(o: Dimensions, d: Dimensions)
    requires IsRotationOf(o, d)
    ensures CalculateVolume(o) == CalculateVolume(d)
  {
    var i := RotationIsListed(o, d);
    var a, b, c := d.height, d.width, d.length;
    assert a * c * b == a * b * c;
    assert b * a * c == a * b * c;
    assert b * c * a == a * b * c;
    assert c * a * b == a * b * c;
    assert c * b * a == a * b * c;
  }

  lemma ProductMonotone(x: int, y: int, z: int, xx: int, yy: int, zz: int)
    requires 0 <= x <= xx && 0 <= y <= yy && 0 <= z <= zz
    ensures x * y * z <= xx * yy * zz
  {
    assert x * y <= xx * y;
    assert xx * y <= xx * yy;
    assert (x * y) * z <= (xx * yy) * z;
    assert (xx * yy) * z <= (xx * yy) * zz;
  }

  /** A product with positive dimensions that fits a box has at most the box's volume. */
  lemma FitBoundsVolume(p: Product, box: Box)
    requires PositiveDimensions(p.dimensions)
    requires CanProductFitInBox(p, box)
    ensures CalculateVolume(p.dimensions) <= CalculateVolume(box.dimensions)
  {
    var i :| 0 <= i < 6 && Within(Orientations(p.dimensions)[i], box.dimensions);
    var o := Orientations(p.dimensions)[i];
    OrientationsAreRotations(p.dimensions, i);
    VolumeOfRotation(o, p.dimensions);
    ProductMonotone(o.height, o.width, o.length,
                    box.dimensions.height, box.dimensions.width, box.dimensions.length);
  }

  lemma PositiveVolume(d: Dimensions)
    requires PositiveDimensions(d)
    ensures CalculateVolume(d) > 0
  {
    assert d.height * d.width > 0;
  }
}
