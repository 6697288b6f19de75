/** Optional values, and removal of list elements the way `list.remove` does it. */
module Lists {
  datatype Option<+T> = None | Some(value: T)

  /** `list.remove(x)`: the first element equal to `x` goes; a list without one is unchanged. */
  function RemoveFirst<T(==)>(xs: seq<T>, x: T): seq<T> {
    if xs == [] then []
    else if xs[0] == x then xs[1..]
    else [xs[0]] + RemoveFirst(xs[1..], x)
  }

  lemma {:induction false} RemoveFirstAt<T>(front: seq<T>, x: T, back: seq<T>)
    requires x !in front
    ensures RemoveFirst(front + [x] + back, x) == front + back
  {
    var xs := front + [x] + back;
    if front == [] {
      assert xs[0] == x && xs[1..] == back == front + back;
    } else {
      var rest := front[1..] + [x] + back;
      assert xs[0] == front[0] && xs[1..] == rest;
      assert RemoveFirst(rest, x) == front[1..] + back by {
        RemoveFirstAt(front[1..], x, back);
      }
      assert RemoveFirst(xs, x) == [front[0]] + (front[1..] + back);
    }
  }

  ghost predicate NoDuplicates<T(!new)>(xs: seq<T>) {
    forall i, j :: 0 <= i < j < |xs| ==> xs[i] != xs[j]
  }

  /** The elements in order of first appearance, each once. */
  function Distinct<T(==)>(xs: seq<T>): seq<T> {
    if xs == [] then []
    else
      var front := Distinct(xs[..|xs| - 1]);
      if xs[|xs| - 1] in front then front else front + [xs[|xs| - 1]]
  }

  lemma {:induction false} DistinctKeepsElements<T(!new)>(xs: seq<T>)
    ensures NoDuplicates(Distinct(xs))
    ensures forall x :: x in Distinct(xs) <==> x in xs
    ensures |Distinct(xs)| <= |xs|
  {
    if xs != [] {
      DistinctKeepsElements(xs[..|xs| - 1]);
      assert xs == xs[..|xs| - 1] + [xs[|xs| - 1]];
    }
  }

  lemma {:induction false} DistinctUnchangedIff<T(!new)>(xs: seq<T>)
    ensures Distinct(xs) == xs <==> NoDuplicates(xs)
  {
    DistinctKeepsElements(xs);
    if xs != [] && NoDuplicates(xs) {
      DistinctUnchangedIff(xs[..|xs| - 1]);
      assert xs == xs[..|xs| - 1] + [xs[|xs| - 1]];
    }
  }

  /** The results of `f` on each element, one after the other. */
  function Flat<T, U>(xs: seq<T>, f: T -> seq<U>): seq<U> {
    if xs == [] then [] else Flat(xs[..|xs| - 1], f) + f(xs[|xs| - 1])
  }

  lemma {:induction false} FlatOfConcat<T, U>(a: seq<T>, b: seq<T>, f: T -> seq<U>)
    ensures Flat(a + b, f) == Flat(a, f) + Flat(b, f)
  {
    if b == [] {
      assert a + b == a;
    } else {
      var front, last := b[..|b| - 1], b[|b| - 1];
      FlatOfConcat(a, front, f);
      assert a + b == a + front + [last];
      FlatExtends(a + front, last, f);
      ConcatAssociates(Flat(a, f), Flat(front, f), f(last));
    }
  }

  lemma ConcatAssociates<T>(a: seq<T>, b: seq<T>, c: seq<T>)
    ensures a + b + c == a + (b + c)
  {
  }

  lemma FlatExtends<T, U>(xs: seq<T>, x: T, f: T -> seq<U>)
    ensures Flat(xs + [x], f) == Flat(xs, f) + f(x)
  {
    assert (xs + [x])[..|xs|] == xs;
  }

  // ----- Images of sets -----

  function Image<A, B>(s: set<A>, f: A -> B): set<B> {
    set x | x in s :: f(x)
  }

  lemma {:induction false} InjectiveImageSize<A(!new), B>(s: set<A>, f: A -> B)
    requires forall x, y | x in s && y in s :: f(x) == f(y) ==> x == y
    ensures |Image(s, f)| == |s|
  {
    if s == {} {
      assert Image(s, f) == {};
    } else {
      var x :| x in s;
      var rest := s - {x};
      InjectiveImageSize(rest, f);
      assert Image(s, f) == Image(rest, f) + {f(x)};
      assert f(x) !in Image(rest, f);
    }
  }
}
