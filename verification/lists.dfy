/** Folds over lists by recursion from the end, the order in which the service's loops build them. */
module Lists {

  function Front<T>(s: seq<T>): seq<T>
    requires s != []
  {
    s[..|s| - 1]
  }

  function Last<T>(s: seq<T>): T
    requires s != []
  {
    s[|s| - 1]
  }

  predicate Any<T>(p: T -> bool, s: seq<T>) {
    s != [] && (Any(p, Front(s)) || p(Last(s)))
  }

  function Map<T, U>(f: T -> U, s: seq<T>): seq<U> {
    if s == [] then [] else Map(f, Front(s)) + [f(Last(s))]
  }

  function Filter<T>(p: T -> bool, s: seq<T>): seq<T> {
    if s == [] then [] else Filter(p, Front(s)) + if p(Last(s)) then [Last(s)] else []
  }

  function Union<T, U>(f: T -> seq<U>, s: seq<T>): set<U> {
    if s == [] then {} else Union(f, Front(s)) + set c | c in f(Last(s))
  }

  lemma Singletons<T, U, V>(p: T -> bool, f: T -> U, g: T -> seq<V>, x: T)
    ensures Any(p, [x]) == p(x) && Filter(p, [x]) == (if p(x) then [x] else [])
    ensures Map(f, [x]) == [f(x)] && Union(g, [x]) == set c | c in g(x)
  {
    assert Front([x]) == [] && Last([x]) == x;
  }

  lemma {:induction false} AnyMeaning<T>(p: T -> bool, s: seq<T>)
    ensures Any(p, s) <==> exists i | 0 <= i < |s| :: p(s[i])
  {
    if s != [] {
      var front := Front(s);
      AnyMeaning(p, front);
      assert forall i | 0 <= i < |front| :: front[i] == s[i];
    }
  }

  lemma {:induction false} AnyPrefix<T>(p: T -> bool, s: seq<T>, k: nat)
    requires k <= |s| && Any(p, s[..k])
    ensures Any(p, s)
    decreases |s| - k
  {
    if k < |s| {
      assert Front(s[..k + 1]) == s[..k];
      AnyPrefix(p, s, k + 1);
    } else {
      assert s[..k] == s;
    }
  }

  lemma {:induction false} MapMeaning<T, U>(f: T -> U, s: seq<T>)
    ensures |Map(f, s)| == |s|
    ensures forall i | 0 <= i < |s| :: Map(f, s)[i] == f(s[i])
  {
    if s != [] {
      MapMeaning(f, Front(s));
    }
  }

  lemma {:induction false} UnionMeaning<T, U>(f: T -> seq<U>, s: seq<T>, c: U)
    ensures c in Union(f, s) <==> exists i | 0 <= i < |s| :: c in f(s[i])
  {
    if s != [] {
      var front := Front(s);
      UnionMeaning(f, front, c);
      assert forall i | 0 <= i < |front| :: front[i] == s[i];
    }
  }

  /** picked lists the elements of all at the strictly increasing positions at. */
  ghost predicate IsSelection<T>(at: seq<nat>, all: seq<T>, picked: seq<T>) {
    && |at| == |picked|
    && (forall k | 0 <= k < |at| :: at[k] < |all| && all[at[k]] == picked[k])
    && (forall j, k | 0 <= j < k < |at| :: at[j] < at[k])
  }

  /** The positions of the elements that Filter keeps. */
  function Kept<T>(p: T -> bool, s: seq<T>): seq<nat> {
    if s == [] then [] else Kept(p, Front(s)) + if p(Last(s)) then [|s| - 1] else []
  }

  /** Filter keeps exactly the elements that satisfy p, in their order. */
  lemma FilterMeaning<T>(p: T -> bool, s: seq<T>)
    ensures IsSelection(Kept(p, s), s, Filter(p, s))
    ensures forall i: nat | i < |s| :: p(s[i]) <==> i in Kept(p, s)
  {
    KeptAscends(p, s);
    KeptValues(p, s);
    KeptMembers(p, s);
  }

  lemma {:induction false} KeptAscends<T>(p: T -> bool, s: seq<T>)
    ensures forall k | 0 <= k < |Kept(p, s)| :: Kept(p, s)[k] < |s|
    ensures forall j, k | 0 <= j < k < |Kept(p, s)| :: Kept(p, s)[j] < Kept(p, s)[k]
  {
    if s != [] {
      KeptAscends(p, Front(s));
    }
  }

  lemma {:induction false} KeptValues<T>(p: T -> bool, s: seq<T>)
    ensures |Kept(p, s)| == |Filter(p, s)|
    ensures forall k | 0 <= k < |Kept(p, s)| :: Kept(p, s)[k] < |s| && s[Kept(p, s)[k]] == Filter(p, s)[k]
  {
    if s != [] {
      KeptValues(p, Front(s));
    }
  }

  lemma {:induction false} KeptMembers<T>(p: T -> bool, s: seq<T>)
    ensures forall i: nat :: i in Kept(p, s) <==> i < |s| && p(s[i])
  {
    if s != [] {
      KeptMembers(p, Front(s));
      assert forall i | 0 <= i < |s| - 1 :: Front(s)[i] == s[i];
    }
  }
}
