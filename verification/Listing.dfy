/** Lists as the API server returns them: the members of a set, in some order. */
module Listings {
  function ItemSet<T(==)>(items: seq<T>): set<T> {
    set x | x in items
  }

  lemma EmptyItems<T>(items: seq<T>)
    ensures |items| == 0 <==> ItemSet(items) == {}
  {
    if |items| > 0 {
      assert items[0] in ItemSet(items);
    }
  }

  lemma ItemSetSnoc<T>(items: seq<T>, x: T)
    ensures ItemSet(items + [x]) == ItemSet(items) + {x}
  {
  }

  /** The members of a set, in an order nobody promises, once each. */
  method Arrange<T(==)>(s: set<T>) returns (items: seq<T>)
    ensures ItemSet(items) == s && |items| == |s|
  {
    items := [];
    var todo := s;
    while todo != {}
      invariant ItemSet(items) == s - todo && todo <= s && |items| + |todo| == |s|
      decreases todo
    {
      var x :| x in todo;
      ItemSetSnoc(items, x);
      items := items + [x];
      todo := todo - {x};
    }
  }
}
