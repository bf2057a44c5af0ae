/** Shared value types: optional values, and the order SQLite gives to text. */
module Options {
  datatype Option<+T> = None | Some(value: T)
}

/** An entity as a vertex of the relationship and co-occurrence graphs. */
module Graphs {
  datatype Vertex = Vertex(id: string)
}

/**
 * The order of TEXT values under SQLite's BINARY collation, which for valid text is the order
 * of code points.  The SQL statements break ties with it.
 */
module TextOrder {
  predicate Leq(a: string, b: string)
  {
    if a == [] then true
    else if b == [] then false
    else a[0] < b[0] || (a[0] == b[0] && Leq(a[1..], b[1..]))
  }

  lemma {:induction false} LeqTotal(a: string, b: string)
    ensures Leq(a, b) || Leq(b, a)
  {
    if a != [] && b != [] {
      LeqTotal(a[1..], b[1..]);
    }
  }

  lemma {:induction false} LeqAntisymmetric(a: string, b: string)
    requires Leq(a, b) && Leq(b, a)
    ensures a == b
  {
    if a != [] && b != [] {
      LeqAntisymmetric(a[1..], b[1..]);
      assert a == [a[0]] + a[1..] && b == [b[0]] + b[1..];
    }
  }

  lemma {:induction false} LeqTransitive(a: string, b: string, c: string)
    requires Leq(a, b) && Leq(b, c)
    ensures Leq(a, c)
  {
    if a != [] && c != [] && a[0] == c[0] {
      LeqTransitive(a[1..], b[1..], c[1..]);
    }
  }

  /** A text comes before its extensions, and before any that has a larger character where they first differ. */
  lemma {:induction false} LeqIff(a: string, b: string)
    ensures Leq(a, b) <==> a <= b || exists i | 0 <= i < |a| && i < |b| :: a[..i] == b[..i] && a[i] < b[i]
  {
    if a != [] && b != [] && a[0] == b[0] {
      var x, y := a[1..], b[1..];
      LeqIff(x, y);
      assert x <= y <==> a <= b by { assert a == [a[0]] + x && b == [b[0]] + y; }
      if i :| 0 <= i < |x| && i < |y| && x[..i] == y[..i] && x[i] < y[i] {
        assert a[..i + 1] == [a[0]] + x[..i] && b[..i + 1] == [b[0]] + y[..i] && a[i + 1] < b[i + 1];
      }
      if i :| 0 <= i < |a| && i < |b| && a[..i] == b[..i] && a[i] < b[i] {
        assert x[..i - 1] == a[..i][1..] && y[..i - 1] == b[..i][1..] && x[i - 1] < y[i - 1];
      }
    } else if a != [] && b != [] {
      assert a[..0] == b[..0];
      if i :| 0 <= i < |a| && i < |b| && a[..i] == b[..i] && a[i] < b[i] {
        assert i > 0 ==> a[0] == a[..i][0] == b[..i][0] == b[0];
      }
    }
  }

  /** `better` is total and transitive, so every finite nonempty set has an element it puts first. */
  lemma {:induction false} FirstExists<T(!new)>(s: set<T>, better: (T, T) -> bool) returns (first: T)
    requires s != {}
    requires forall x, y :: better(x, y) || better(y, x)
    requires forall x, y, z :: better(x, y) && better(y, z) ==> better(x, z)
    ensures first in s && forall x | x in s :: better(first, x)
  {
    var x :| x in s;
    if s == {x} {
      first := x;
    } else {
      var rest := FirstExists(s - {x}, better);
      first := if better(x, rest) then x else rest;
      assert forall y | y in s :: y == x || y in s - {x};
    }
  }
}
