/**
 * Listing the rows of a table in descending order of a key, as the
 * `order_by("-column")` queries of the server do. Rows that tie on the key
 * come out in an order the model leaves open, as the database does.
 */
module Ordering {

  ghost predicate SortedDesc<T>(s: seq<T>, key: T -> int)
  {
    forall i, j :: 0 <= i < j < |s| ==> key(s[i]) >= key(s[j])
  }

  /** A finite non-empty set has an element whose key is largest. */
  lemma {:induction false} MaxExists<T>(xs: set<T>, key: T -> int)
    requires xs != {}
    ensures exists m :: m in xs && forall y :: y in xs ==> key(y) <= key(m)
    decreases xs
  {
    var x :| x in xs;
    if xs != {x} {
      var rest := xs - {x};
      MaxExists(rest, key);
      var m :| m in rest && forall y :: y in rest ==> key(y) <= key(m);
      if key(x) <= key(m) {
        assert forall y :: y in xs ==> key(y) <= key(m);
      } else {
        assert forall y :: y in xs ==> key(y) <= key(x);
      }
    }
  }

  /** The elements of `xs`, each once, largest key first. */
  ghost function SortDesc<T(!new)>(xs: set<T>, key: T -> int): (r: seq<T>)
    ensures |r| == |xs|
    ensures forall x :: x in r <==> x in xs
    ensures forall i, j :: 0 <= i < j < |r| ==> r[i] != r[j]
    ensures SortedDesc(r, key)
    decreases xs
  {
    if xs == {} then []
    else
      MaxExists(xs, key);
      var m :| m in xs && forall y :: y in xs ==> key(y) <= key(m);
      [m] + SortDesc(xs - {m}, key)
  }

  /** The first `limit` elements of `s`, or all of them when there are fewer
      (Python's `s[:limit]`). */
  function Take<T>(s: seq<T>, limit: nat): (r: seq<T>)
    ensures |r| == if |s| < limit then |s| else limit
    ensures r == s[..|r|]
  {
    if |s| <= limit then s else s[..limit]
  }
}
