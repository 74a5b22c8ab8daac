/** The order of texts by their characters, which is also that of their UTF-8 bytes. */
module TextOrder {

  predicate NotAfter(a: string, b: string) {
    if a == "" then true
    else if b == "" then false
    else if a[0] != b[0] then a[0] < b[0]
    else NotAfter(a[1..], b[1..])
  }

  lemma {:induction false} NotAfterItself(a: string)
    ensures NotAfter(a, a)
  {
    if a != "" {
      NotAfterItself(a[1..]);
    }
  }

  lemma {:induction false} NotAfterTotal(a: string, b: string)
    ensures NotAfter(a, b) || NotAfter(b, a)
  {
    if a != "" && b != "" {
      NotAfterTotal(a[1..], b[1..]);
    }
  }

  lemma {:induction false} NotAfterTransitive(a: string, b: string, c: string)
    requires NotAfter(a, b) && NotAfter(b, c)
    ensures NotAfter(a, c)
  {
    if a != "" && a[0] == b[0] == c[0] {
      NotAfterTransitive(a[1..], b[1..], c[1..]);
    }
  }

  /** The first of some texts. */
  method First(texts: set<string>) returns (first: string)
    requires texts != {}
    ensures first in texts && forall t :: t in texts ==> NotAfter(first, t)
  {
    first :| first in texts;
    NotAfterItself(first);
    var left := texts - {first};
    while left != {}
      invariant left <= texts && first in texts && forall t :: t in texts - left ==> NotAfter(first, t)
      decreases left
    {
      var next :| next in left;
      NotAfterTotal(first, next);
      NotAfterItself(next);
      if !NotAfter(first, next) {
        forall t | t in texts - left
          ensures NotAfter(next, t)
        {
          NotAfterTransitive(next, first, t);
        }
        first := next;
      }
      left := left - {next};
    }
  }
}
