/** Sizes of finite sets. */
module Sets {

  /** A one-to-one correspondence keeps the size. */
  lemma {:induction false} SameSize<A, B>(s: set<A>, f: A -> B, image: set<B>)
    requires forall x | x in s :: f(x) in image
    requires forall y | y in image :: exists x :: x in s && f(x) == y
    requires forall x, y | x in s && y in s && x != y :: f(x) != f(y)
    ensures |image| == |s|
  {
    if s == {} {
      if y :| y in image { assert false; }
    } else {
      var x :| x in s;
      SameSize(s - {x}, f, image - {f(x)});
    }
  }
}
