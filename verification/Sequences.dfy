/** What proofs about sequences say again and again, said once. */
module Sequences {

  lemma Associates<A>(a: seq<A>, b: seq<A>, c: seq<A>)
    ensures a + b + c == a + (b + c)
  {
  }

  lemma RestOfBoth<A>(a: seq<A>, b: seq<A>)
    requires |a| > 0
    ensures |a + b| > 0 && (a + b)[0] == a[0] && (a + b)[1..] == a[1..] + b
  {
  }

  lemma WithNothing<A>(a: seq<A>)
    ensures a + [] == a && [] + a == a
  {
  }

  lemma InitAndLast<A>(s: seq<A>)
    requires |s| > 0
    ensures s == s[..|s| - 1] + [s[|s| - 1]]
  {
  }
}
