/** The option type, digits, and small facts about finite sets and sequences used by every other module. */
module Common {
  datatype Option<+T> = None | Some(value: T)

  predicate IsDigit(c: char) {
    '0' <= c <= '9'
  }

  ghost predicate Distinct<T>(s: seq<T>) {
    forall i, j :: 0 <= i < j < |s| ==> s[i] != s[j]
  }

  /** `order` lists every element of `elements` exactly once. */
  ghost predicate Lists<T>(order: seq<T>, elements: set<T>) {
    && Distinct(order)
    && (forall x :: x in order ==> x in elements)
    && (forall x :: x in elements ==> x in order)
  }

  lemma ListsLength<T>(order: seq<T>, elements: set<T>)
    requires Lists(order, elements)
    ensures |order| == |elements|
  {
    if order == [] {
      assert elements == {};
    } else {
      var last := order[|order| - 1];
      var init := order[..|order| - 1];
      assert order == init + [last];
      assert last in order;
      forall x
        ensures x in init <==> x in elements - {last}
      {
        assert x in order <==> x in init || x == last;
      }
      ListsLength(init, elements - {last});
    }
  }

  /** Every finite set can be listed. */
  lemma ListingExists<T>(elements: set<T>) returns (order: seq<T>)
    ensures Lists(order, elements)
  {
    if elements == {} {
      order := [];
    } else {
      var x :| x in elements;
      var rest := ListingExists(elements - {x});
      order := [x] + rest;
      forall y
        ensures y in order <==> y in elements
      {
        assert y in order <==> y == x || y in rest;
      }
    }
  }

  /** ... starting with any chosen element. */
  lemma ListingFrom<T>(elements: set<T>, first: T) returns (order: seq<T>)
    requires first in elements
    ensures Lists(order, elements) && |order| > 0 && order[0] == first
  {
    var rest := ListingExists(elements - {first});
    order := [first] + rest;
    forall y
      ensures y in order <==> y in elements
    {
      assert y in order <==> y == first || y in rest;
    }
  }

  lemma SubsetSize<T>(a: set<T>, b: set<T>)
    requires a <= b
    ensures |a| <= |b|
  {
    if a != {} {
      var x :| x in a;
      SubsetSize(a - {x}, b - {x});
    }
  }

  lemma DisjointUnionSize<T>(a: set<T>, b: set<T>)
    requires a !! b
    ensures |a + b| == |a| + |b|
  {
    if a != {} {
      var x :| x in a;
      DisjointUnionSize(a - {x}, b);
      assert a + b == (a - {x} + b) + {x};
    } else {
      assert a + b == b;
    }
  }
}
