/** The few pieces of the browser document that the widget touches. */
module Dom {

  /** A live element of the page, known only by its identity. */
  datatype Element = Element(key: nat)

  /**
   * `node.remove()` on a child list: the list without `c`. A node has one
   * place in the tree, so removing every occurrence is removing it.
   */
  function Detach<T(==)>(children: seq<T>, c: T): seq<T>
  {
    if children == [] then []
    else (if children[0] == c then [] else [children[0]]) + Detach(children[1..], c)
  }

  /** After removal `c` is gone and every other child is still there. */
  lemma {:induction false} DetachMembership<T>(children: seq<T>, c: T, x: T)
    ensures x in Detach(children, c) <==> x in children && x != c
  {
    if children != [] {
      DetachMembership(children[1..], c, x);
      assert children == [children[0]] + children[1..];
    }
  }

  /** Removal drops exactly the occurrences of `c`; a list without `c` is left as it is. */
  lemma {:induction false} DetachKeepsOthers<T>(children: seq<T>, c: T)
    ensures |Detach(children, c)| == |children| - multiset(children)[c]
    ensures c !in children ==> Detach(children, c) == children
  {
    if children != [] {
      DetachKeepsOthers(children[1..], c);
      assert children == [children[0]] + children[1..];
    }
  }

  /** Removing a node that was already removed changes nothing. */
  lemma DetachIdempotent<T>(children: seq<T>, c: T)
    ensures Detach(Detach(children, c), c) == Detach(children, c)
  {
    DetachMembership(children, c, c);
    DetachKeepsOthers(Detach(children, c), c);
  }
}
