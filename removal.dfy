/**
 * Removing the packed products from the working list: for each packed product, the first
 * remaining product with the same product_id is spliced out, if there is one.
 */
module Removal {
  import opened OrderTypes

  /** `findIndex(p => p.product_id === id)`: the first position with that id, or -1. */
  function FindIndexById(s: seq<Product>, id: string): (i: int)
    ensures -1 <= i < |s|
    ensures i == -1 <==> forall j :: 0 <= j < |s| ==> s[j].product_id != id
    ensures i >= 0 ==> s[i].product_id == id && forall j :: 0 <= j < i ==> s[j].product_id != id
  {
    if s == [] then -1
    else if s[0].product_id == id then 0
    else
      var i := FindIndexById(s[1..], id);
      if i == -1 then -1 else i + 1
  }

  /** One step of the removal: `splice(index, 1)` when the index is not -1. */
  function RemoveFirstById(s: seq<Product>, id: string): seq<Product>
  {
    var i := FindIndexById(s, id);
    if i != -1 then s[..i] + s[i + 1..] else s
  }

  /** The removal of every packed product, in the order they were packed. */
  function RemoveAllById(s: seq<Product>, packed: seq<Product>): seq<Product>
    decreases |packed|
  {
    if packed == [] then s
    else RemoveAllById(RemoveFirstById(s, packed[0].product_id), packed[1..])
  }

  lemma RemoveAllByIdStep(s: seq<Product>, packed: seq<Product>, j: int)
    requires 0 <= j < |packed|
    ensures RemoveAllById(s, packed[j..]) ==
            RemoveAllById(RemoveFirstById(s, packed[j].product_id), packed[j + 1..])
  {
    assert packed[j..][1..] == packed[j + 1..];
  }

  lemma IdsOfSplice(s: seq<Product>, i: int)
    requires 0 <= i < |s|
    ensures ProductIds(s[..i] + s[i + 1..]) == ProductIds(s)[..i] + ProductIds(s)[i + 1..]
  {
  }

  lemma MultisetOfSplice<T>(s: seq<T>, i: int)
    requires 0 <= i < |s|
    ensures multiset(s) == multiset(s[..i] + s[i + 1..]) + multiset{s[i]}
  {
    assert s == s[..i] + [s[i]] + s[i + 1..];
  }

  /**
   * One removal step takes exactly one occurrence of id out of the list's ids when it is
   * there (shortening the list by one) and changes nothing otherwise. The product taken
   * out is the first one with that id, and the others keep their order.
   */
  lemma RemoveFirstByIdEffect(s: seq<Product>, id: string)
    ensures multiset(ProductIds(RemoveFirstById(s, id))) == multiset(ProductIds(s)) - multiset{id}
    ensures |RemoveFirstById(s, id)| == if id in ProductIds(s) then |s| - 1 else |s|
    ensures multiset(RemoveFirstById(s, id)) <= multiset(s)
    ensures id in ProductIds(s) ==>
              exists i :: 0 <= i < |s| && s[i].product_id == id &&
                (forall j :: 0 <= j < i ==> s[j].product_id != id) &&
                RemoveFirstById(s, id) == s[..i] + s[i + 1..]
    ensures id !in ProductIds(s) ==> RemoveFirstById(s, id) == s
  {
    var i := FindIndexById(s, id);
    if i != -1 {
      var r := s[..i] + s[i + 1..];
      assert RemoveFirstById(s, id) == r;
      assert s[i].product_id == id;
      assert multiset(ProductIds(r)) == multiset(ProductIds(s)) - multiset{id} by {
        IdsOfSpliceMultiset(s, i);
        MinusAdded(multiset(ProductIds(r)), id);
      }
      assert id in ProductIds(s) by {
        assert ProductIds(s)[i] == id;
      }
      assert multiset(r) <= multiset(s) by {
        MultisetOfSplice(s, i);
      }
    } else {
      assert RemoveFirstById(s, id) == s;
      assert id !in ProductIds(s);
      MinusAbsent(multiset(ProductIds(s)), id);
    }
  }

  lemma MinusAdded<T>(A: multiset<T>, x: T)
    ensures (A + multiset{x}) - multiset{x} == A
  {
  }

  lemma MinusAbsent<T>(A: multiset<T>, x: T)
    requires x !in A
    ensures A - multiset{x} == A
  {
  }

  lemma RemoveFromBoth<T>(a: seq<T>, b: seq<T>, i: int)
    requires a != [] && 0 <= i < |b| && b[i] == a[0]
    requires multiset(a) <= multiset(b)
    ensures multiset(a[1..]) <= multiset(b[..i] + b[i + 1..])
  {
    assert a == [a[0]] + a[1..];
    MultisetOfSplice(b, i);
    var x := multiset{a[0]};
    var A, B := multiset(a[1..]), multiset(b[..i] + b[i + 1..]);
    assert A + x <= B + x;
    forall y
      ensures A[y] <= B[y]
    {
      assert (A + x)[y] <= (B + x)[y];
    }
  }

  lemma AddKeepsSubMultiset<T>(A: multiset<T>, B: multiset<T>, x: multiset<T>)
    requires A <= B
    ensures A + x <= B + x
  {
    forall y
      ensures (A + x)[y] <= (B + x)[y]
    {
      assert A[y] <= B[y];
    }
  }

  lemma IdsOfSpliceMultiset(s: seq<Product>, i: int)
    requires 0 <= i < |s|
    ensures multiset(ProductIds(s)) == multiset(ProductIds(s[..i] + s[i + 1..])) + multiset{s[i].product_id}
  {
    IdsOfSplice(s, i);
    MultisetOfSplice(ProductIds(s), i);
  }

  /** Matching the head of a against b[i] extends a sub-multiset of ids by one. */
  lemma IdsOfMatchedHead(a: seq<Product>, b: seq<Product>, i: int)
    requires a != [] && 0 <= i < |b| && b[i] == a[0]
    requires multiset(ProductIds(a[1..])) <= multiset(ProductIds(b[..i] + b[i + 1..]))
    ensures multiset(ProductIds(a)) <= multiset(ProductIds(b))
  {
    IdsOfSpliceMultiset(b, i);
    IdsOfHead(a);
    AddKeepsSubMultiset(multiset(ProductIds(a[1..])), multiset(ProductIds(b[..i] + b[i + 1..])),
                        multiset{a[0].product_id});
  }

  lemma IdsOfHead(a: seq<Product>)
    requires a != []
    ensures multiset(ProductIds(a)) == multiset(ProductIds(a[1..])) + multiset{a[0].product_id}
  {
    IdsOfSpliceMultiset(a, 0);
    assert a[..0] + a[1..] == a[1..];
  }

  /** Ids of a sub-multiset of products form a sub-multiset of the ids. */
  lemma {:induction false} IdsOfSubMultiset(a: seq<Product>, b: seq<Product>)
    requires multiset(a) <= multiset(b)
    ensures multiset(ProductIds(a)) <= multiset(ProductIds(b))
    decreases |a|
  {
    if a != [] {
      assert a[0] in b by {
        assert a[0] in multiset(a);
      }
      var i :| 0 <= i < |b| && b[i] == a[0];
      RemoveFromBoth(a, b, i);
      IdsOfSubMultiset(a[1..], b[..i] + b[i + 1..]);
      IdsOfMatchedHead(a, b, i);
    }
  }

  /**
   * When the packed products' ids are drawn from the list's ids, removing them takes
   * exactly those ids out, shortens the list by their number, and only drops products.
   */
  lemma {:induction false} RemoveAllByIdEffect(s: seq<Product>, packed: seq<Product>)
    requires multiset(ProductIds(packed)) <= multiset(ProductIds(s))
    ensures multiset(ProductIds(RemoveAllById(s, packed))) ==
            multiset(ProductIds(s)) - multiset(ProductIds(packed))
    ensures |RemoveAllById(s, packed)| == |s| - |packed|
    ensures multiset(RemoveAllById(s, packed)) <= multiset(s)
    decreases |packed|
  {
    if packed != [] {
      var id := packed[0].product_id;
      var s' := RemoveFirstById(s, id);
      assert ProductIds(packed) == [id] + ProductIds(packed[1..]);
      assert id in multiset(ProductIds(s));
      RemoveFirstByIdEffect(s, id);
      RemoveAllByIdEffect(s', packed[1..]);
    }
  }

  /** A non-empty selection drawn from the list strictly shortens it. */
  lemma RemovalShrinks(s: seq<Product>, packed: seq<Product>)
    requires packed != []
    requires multiset(packed) <= multiset(s)
    ensures |RemoveAllById(s, packed)| < |s|
    ensures multiset(ProductIds(RemoveAllById(s, packed))) ==
            multiset(ProductIds(s)) - multiset(ProductIds(packed))
    ensures multiset(RemoveAllById(s, packed)) <= multiset(s)
  {
    IdsOfSubMultiset(packed, s);
    RemoveAllByIdEffect(s, packed);
  }

  /** Removing all of a permutation of the list, product by product, leaves nothing. */
  lemma RemoveEverything(ps: seq<Product>, perm: seq<Product>)
    requires multiset(perm) == multiset(ps)
    ensures RemoveAllById(ps, perm) == []
  {
    IdsOfSubMultiset(perm, ps);
    RemoveAllByIdEffect(ps, perm);
    assert |perm| == |multiset(perm)| == |multiset(ps)| == |ps|;
  }
}
