/** The order that maps keyed by text are walked in. */
module Names {
  import opened Orders

  predicate Less(a: string, b: string) {
    if b == "" then false
    else if a == "" then true
    else a[0] < b[0] || (a[0] == b[0] && Less(a[1..], b[1..]))
  }

  lemma {:induction false} OneWayOrTheOther(a: string, b: string)
    ensures a == b || Less(a, b) || Less(b, a)
    ensures !Less(a, a)
  {
    if a != "" && b != "" {
      OneWayOrTheOther(a[1..], b[1..]);
      assert a[0] == b[0] && a[1..] == b[1..] ==> a == [a[0]] + a[1..] && b == [b[0]] + b[1..];
    } else if a != "" {
      OneWayOrTheOther(a[1..], a[1..]);
    }
  }

  lemma {:induction false} LessIsTransitive(a: string, b: string, c: string)
    requires Less(a, b) && Less(b, c)
    ensures Less(a, c)
  {
    if a != "" && a[0] == b[0] && b[0] == c[0] {
      LessIsTransitive(a[1..], b[1..], c[1..]);
    }
  }

  lemma LessIsTotal()
    ensures StrictTotal(Less)
  {
    forall a, b ensures (a == b || Less(a, b) || Less(b, a)) && !Less(a, a) {
      OneWayOrTheOther(a, b);
    }
    forall a, b, c | Less(a, b) && Less(b, c) ensures Less(a, c) {
      LessIsTransitive(a, b, c);
    }
  }

  function FirstName(names: set<string>): (n: string)
    requires names != {}
    ensures n in names && IsFirst(Less, names, n)
  {
    LessIsTotal();
    First(Less, names)
  }
}
