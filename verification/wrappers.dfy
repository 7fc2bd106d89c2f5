/** Small shared vocabulary: optional values and sequences without repetitions. */
module Wrappers {

  datatype Option<+T> = None | Some(value: T)

  /** No element occurs twice. */
  predicate Distinct<T(==)>(q: seq<T>) {
    forall i, j | 0 <= i < j < |q| :: q[i] != q[j]
  }

  function Elements<T>(q: seq<T>): set<T> {
    set x | x in q
  }

  /** The first position of x, which is what Array.indexOf answers when x occurs. */
  function IndexOf<T(==)>(q: seq<T>, x: T): (i: nat)
    requires x in q
    ensures i < |q| && q[i] == x
    ensures forall j | 0 <= j < i :: q[j] != x
  {
    if q[0] == x then 0 else 1 + IndexOf(q[1..], x)
  }

  /** q with its first occurrence of x taken out, and q itself when there is none. */
  function Without<T(==)>(q: seq<T>, x: T): seq<T> {
    if x in q then q[..IndexOf(q, x)] + q[IndexOf(q, x) + 1..] else q
  }

  lemma WithoutAt<T>(q: seq<T>, i: nat)
    requires Distinct(q) && i < |q|
    ensures Without(q, q[i]) == q[..i] + q[i + 1..]
    ensures Distinct(Without(q, q[i]))
    ensures Elements(Without(q, q[i])) == Elements(q) - {q[i]}
  {
    var j := IndexOf(q, q[i]);
    assert j == i;
    var r := q[..i] + q[i + 1..];
    forall x ensures x in Elements(r) <==> x in Elements(q) - {q[i]} {
      if x in q && x != q[i] {
        var p :| 0 <= p < |q| && q[p] == x;
        assert r[if p < i then p else p - 1] == x;
      }
      if x in r {
        var p :| 0 <= p < |r| && r[p] == x;
        assert x == q[if p < i then p else p + 1];
      }
    }
  }

  lemma WithoutElements<T>(q: seq<T>, x: T)
    requires Distinct(q)
    ensures Distinct(Without(q, x)) && Elements(Without(q, x)) == Elements(q) - {x}
  {
    if x in q { WithoutAt(q, IndexOf(q, x)); }
  }

  /** Any element; which one is left open. */
  method AnyOf<T>(s: set<T>) returns (x: T)
    requires s != {}
    ensures x in s
  {
    x :| x in s;
  }
}
