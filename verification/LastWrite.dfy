/** Last write wins: a register that keeps the greatest entry seen depends only on which entries were
    seen, not on their order or on repetitions. */
module LastWrite {
  import opened Base

  /** The register after the entries of `xs`, each kept only when it beats the one held. */
  function Latest<A>(less: (A, A) -> bool, xs: seq<A>): Option<A> {
    if xs == [] then None
    else
      var held, x := Latest(less, xs[..|xs| - 1]), xs[|xs| - 1];
      if held.None? || less(held.value, x) then Some(x) else held
  }

  /** `less` orders the members of `s` strictly and totally. */
  ghost predicate Ordered<A(!new)>(less: (A, A) -> bool, s: set<A>) {
    (forall x :: x in s ==> !less(x, x))
    && (forall x, y :: x in s && y in s ==> x == y || less(x, y) || less(y, x))
    && (forall x, y, z :: x in s && y in s && z in s && less(x, y) && less(y, z) ==> less(x, z))
  }

  ghost predicate Greatest<A>(less: (A, A) -> bool, s: set<A>, m: A) {
    m in s && forall x :: x in s ==> x == m || less(x, m)
  }

  /** The register holds the greatest entry seen. */
  lemma {:induction false} LatestIsGreatest<A(!new)>(less: (A, A) -> bool, xs: seq<A>)
    requires Ordered(less, Elements(xs))
    ensures Latest(less, xs).None? <==> xs == []
    ensures xs != [] ==> Greatest(less, Elements(xs), Latest(less, xs).value)
  {
    if xs != [] {
      var init, x := xs[..|xs| - 1], xs[|xs| - 1];
      assert Elements(xs) == Elements(init) + {x};
      LatestIsGreatest(less, init);
    }
  }

  /** The same entries in any order, with any repeats, leave the same register. */
  lemma LatestOfSet<A(!new)>(less: (A, A) -> bool, xs: seq<A>, ys: seq<A>)
    requires Elements(xs) == Elements(ys) && Ordered(less, Elements(xs))
    ensures Latest(less, xs) == Latest(less, ys)
  {
    LatestIsGreatest(less, xs);
    LatestIsGreatest(less, ys);
    assert xs != [] ==> xs[0] in Elements(ys);
    assert ys != [] ==> ys[0] in Elements(xs);
  }
}
