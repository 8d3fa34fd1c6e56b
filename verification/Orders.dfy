/** Strict total orders and the first of a set, for maps that are walked in key order. */
module Orders {

  type Order<!T> = (T, T) -> bool

  ghost predicate StrictTotal<T(!new)>(less: Order<T>) {
    && (forall a :: !less(a, a))
    && (forall a, b, c :: less(a, b) && less(b, c) ==> less(a, c))
    && forall a, b :: a == b || less(a, b) || less(b, a)
  }

  predicate IsFirst<T(!new)>(less: Order<T>, s: set<T>, x: T) {
    x in s && forall y | y in s :: y == x || less(x, y)
  }

  lemma {:induction false} FirstExists<T(!new)>(less: Order<T>, s: set<T>)
    requires StrictTotal(less) && s != {}
    ensures exists x :: IsFirst(less, s, x)
  {
    var x :| x in s;
    var rest := s - {x};
    var z := x;
    if rest != {} {
      FirstExists(less, rest);
      var y :| IsFirst(less, rest, y);
      z := if less(x, y) then x else y;
    }
    forall m | m in s ensures m == z || less(z, m) {
      assert m == x || m in rest;
    }
    assert IsFirst(less, s, z);
  }

  function First<T(!new)>(less: Order<T>, s: set<T>): (x: T)
    requires StrictTotal(less) && s != {}
    ensures IsFirst(less, s, x)
  {
    FirstExists(less, s);
    var x :| x in s && IsFirst(less, s, x);
    x
  }
}
