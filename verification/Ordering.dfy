/** Sorting by a total key, and why the result does not depend on the row order. */
module Ordering {
  import opened Text
  import opened Claims

  /** Every sort of the briefing compares these fields, in this order. */
  datatype Key = Key(rank: nat, at: nat, id: string, text: string)

  predicate KeyLess(a: Key, b: Key) {
    if a.rank != b.rank then a.rank < b.rank
    else if a.at != b.at then a.at < b.at
    else if a.id != b.id then Less(a.id, b.id)
    else Less(a.text, b.text)
  }

  lemma KeyOrder(a: Key, b: Key)
    ensures a == b || KeyLess(a, b) || KeyLess(b, a)
    ensures !(KeyLess(a, b) && KeyLess(b, a))
  {
    LessTotal(a.id, b.id);
    LessTotal(a.text, b.text);
  }

  lemma KeyTransitive(a: Key, b: Key, c: Key)
    requires KeyLess(a, b) && KeyLess(b, c)
    ensures KeyLess(a, c)
  {
    if a.rank == b.rank == c.rank && a.at == b.at == c.at {
      if a.id != b.id && b.id != c.id {
        LessTransitive(a.id, b.id, c.id);
        LessTotal(a.id, c.id);
      } else if a.id == b.id == c.id {
        LessTransitive(a.text, b.text, c.text);
      }
    }
  }

  function Filter<T>(keep: T -> bool, xs: seq<T>): seq<T> {
    if xs == [] then []
    else (if keep(xs[0]) then [xs[0]] else []) + Filter(keep, xs[1..])
  }

  function Map<S, T>(f: S -> T, xs: seq<S>): seq<T> {
    if xs == [] then [] else [f(xs[0])] + Map(f, xs[1..])
  }

  function First<T>(keep: T -> bool, xs: seq<T>): Option<T> {
    if xs == [] then None else if keep(xs[0]) then Some(xs[0]) else First(keep, xs[1..])
  }

  lemma {:induction false} FirstFacts<T>(keep: T -> bool, xs: seq<T>)
    ensures First(keep, xs).Some? <==> exists x :: x in xs && keep(x)
    ensures First(keep, xs).Some? ==> First(keep, xs).value in xs && keep(First(keep, xs).value)
  {
    if xs != [] {
      assert xs == [xs[0]] + xs[1..];
      FirstFacts(keep, xs[1..]);
      if First(keep, xs[1..]).Some? {
        assert First(keep, xs[1..]).value in xs;
      }
    }
  }

  /** A search that only one element can satisfy does not depend on the order. */
  lemma FirstIsOrderFree<T(!new)>(keep: T -> bool, xs: seq<T>, ys: seq<T>)
    requires multiset(xs) == multiset(ys)
    requires forall x, y | x in xs && y in xs && keep(x) && keep(y) :: x == y
    ensures First(keep, xs) == First(keep, ys)
  {
    FirstFacts(keep, xs);
    FirstFacts(keep, ys);
    forall x: T
      ensures x in xs <==> x in ys
    {
      assert x in xs <==> x in multiset(xs);
    }
  }

  /** Put `x` before the first element whose key is not smaller: stable insertion. */
  function Insert<T>(key: T -> Key, x: T, xs: seq<T>): seq<T> {
    if xs == [] || !KeyLess(key(xs[0]), key(x)) then [x] + xs
    else [xs[0]] + Insert(key, x, xs[1..])
  }

  function SortBy<T>(key: T -> Key, xs: seq<T>): seq<T> {
    if xs == [] then [] else Insert(key, xs[0], SortBy(key, xs[1..]))
  }

  lemma {:induction false} FilterMembers<T>(keep: T -> bool, xs: seq<T>, x: T)
    ensures x in Filter(keep, xs) <==> x in xs && keep(x)
  {
    if xs != [] {
      assert xs == [xs[0]] + xs[1..];
      FilterMembers(keep, xs[1..], x);
    }
  }

  lemma {:induction false} FilterCounts<T>(keep: T -> bool, xs: seq<T>, x: T)
    ensures multiset(Filter(keep, xs))[x] == if keep(x) then multiset(xs)[x] else 0
  {
    if xs != [] {
      assert xs == [xs[0]] + xs[1..];
      FilterCounts(keep, xs[1..], x);
    }
  }

  lemma {:induction false} FilterAgrees<T>(k: T -> bool, l: T -> bool, xs: seq<T>)
    requires forall x | x in xs :: k(x) == l(x)
    ensures Filter(k, xs) == Filter(l, xs)
  {
    if xs != [] {
      assert xs == [xs[0]] + xs[1..];
      FilterAgrees(k, l, xs[1..]);
    }
  }

  lemma {:induction false} MapAgrees<S, T>(f: S -> T, g: S -> T, xs: seq<S>)
    requires forall x | x in xs :: f(x) == g(x)
    ensures Map(f, xs) == Map(g, xs)
  {
    if xs != [] {
      assert xs == [xs[0]] + xs[1..];
      MapAgrees(f, g, xs[1..]);
    }
  }

  lemma {:induction false} MapConcat<S, T>(f: S -> T, a: seq<S>, b: seq<S>)
    ensures Map(f, a + b) == Map(f, a) + Map(f, b)
  {
    if a == [] {
      assert a + b == b;
    } else {
      assert (a + b)[1..] == a[1..] + b;
      MapConcat(f, a[1..], b);
    }
  }

  lemma Associates<T>(x: seq<T>, y: seq<T>, z: seq<T>)
    ensures x + y + z == x + (y + z)
  {
  }

  lemma {:induction false} FilterConcat<T>(keep: T -> bool, a: seq<T>, b: seq<T>)
    ensures Filter(keep, a + b) == Filter(keep, a) + Filter(keep, b)
  {
    if a == [] {
      assert a + b == b && [] + Filter(keep, b) == Filter(keep, b);
    } else {
      assert (a + b)[1..] == a[1..] + b;
      FilterConcat(keep, a[1..], b);
      Associates(if keep(a[0]) then [a[0]] else [], Filter(keep, a[1..]), Filter(keep, b));
    }
  }

  lemma {:induction false} MapMembers<S, T>(f: S -> T, xs: seq<S>, y: T)
    ensures y in Map(f, xs) <==> exists x :: x in xs && f(x) == y
  {
    if xs != [] {
      assert xs == [xs[0]] + xs[1..];
      MapMembers(f, xs[1..], y);
    }
  }

  lemma MapCounts<S, T>(f: S -> T, a: seq<S>, x: S, b: seq<S>)
    ensures multiset(Map(f, a + [x] + b)) == multiset{f(x)} + multiset(Map(f, a + b))
  {
    MapConcat(f, a + [x], b);
    MapConcat(f, a, [x]);
    MapConcat(f, a, b);
    assert Map(f, [x]) == [f(x)];
  }

  /** Mapping commutes with reordering. */
  lemma {:induction false} MapPermutes<S, T>(f: S -> T, xs: seq<S>, ys: seq<S>)
    requires multiset(xs) == multiset(ys)
    ensures multiset(Map(f, xs)) == multiset(Map(f, ys))
  {
    assert |xs| == |multiset(xs)| == |multiset(ys)| == |ys|;
    if xs != [] {
      assert xs[0] in multiset(ys);
      var i :| 0 <= i < |ys| && ys[i] == xs[0];
      var rest := ys[..i] + ys[i + 1..];
      assert ys == ys[..i] + [ys[i]] + ys[i + 1..];
      MapCounts(f, ys[..i], ys[i], ys[i + 1..]);
      TailCounts(xs);
      assert multiset(rest) == multiset(ys) - multiset{ys[i]};
      MapPermutes(f, xs[1..], rest);
    }
  }

  /** Filtering commutes with reordering. */
  lemma FilterPermutes<T(!new)>(keep: T -> bool, xs: seq<T>, ys: seq<T>)
    requires multiset(xs) == multiset(ys)
    ensures multiset(Filter(keep, xs)) == multiset(Filter(keep, ys))
  {
    var a, b := multiset(Filter(keep, xs)), multiset(Filter(keep, ys));
    forall x: T
      ensures a[x] == b[x]
    {
      FilterCounts(keep, xs, x);
      FilterCounts(keep, ys, x);
    }
    assert a == b;
  }

  lemma {:induction false} InsertPermutes<T>(key: T -> Key, x: T, xs: seq<T>)
    ensures multiset(Insert(key, x, xs)) == multiset{x} + multiset(xs)
  {
    if xs != [] {
      assert xs == [xs[0]] + xs[1..];
      if KeyLess(key(xs[0]), key(x)) {
        InsertPermutes(key, x, xs[1..]);
      }
    }
  }

  lemma {:induction false} SortPermutes<T>(key: T -> Key, xs: seq<T>)
    ensures multiset(SortBy(key, xs)) == multiset(xs)
  {
    if xs != [] {
      assert xs == [xs[0]] + xs[1..];
      SortPermutes(key, xs[1..]);
      InsertPermutes(key, xs[0], SortBy(key, xs[1..]));
    }
  }

  predicate Sorted<T>(key: T -> Key, xs: seq<T>) {
    forall i, j | 0 <= i < j < |xs| :: !KeyLess(key(xs[j]), key(xs[i]))
  }

  lemma {:induction false} InsertSorts<T>(key: T -> Key, x: T, xs: seq<T>)
    requires Sorted(key, xs)
    ensures Sorted(key, Insert(key, x, xs))
  {
    if xs == [] {
    } else if !KeyLess(key(xs[0]), key(x)) {
      forall j | 0 <= j < |xs|
        ensures !KeyLess(key(xs[j]), key(x))
      {
        KeyOrder(key(xs[0]), key(xs[j]));
        KeyOrder(key(xs[0]), key(x));
        if KeyLess(key(xs[j]), key(x)) && j > 0 && key(xs[0]) != key(xs[j]) {
          KeyTransitive(key(xs[0]), key(xs[j]), key(x));
        }
      }
    } else {
      var tail := Insert(key, x, xs[1..]);
      InsertSorts(key, x, xs[1..]);
      InsertPermutes(key, x, xs[1..]);
      forall j | 0 <= j < |tail|
        ensures !KeyLess(key(tail[j]), key(xs[0]))
      {
        assert tail[j] in multiset(tail);
        if tail[j] == x {
          KeyOrder(key(xs[0]), key(x));
        } else {
          assert tail[j] in xs[1..];
          var i :| 0 <= i < |xs[1..]| && xs[1..][i] == tail[j];
          assert xs[i + 1] == tail[j];
        }
      }
    }
  }

  lemma {:induction false} SortSorts<T>(key: T -> Key, xs: seq<T>)
    ensures Sorted(key, SortBy(key, xs))
  {
    if xs != [] {
      SortSorts(key, xs[1..]);
      InsertSorts(key, xs[0], SortBy(key, xs[1..]));
    }
  }

  /** Elements of `xs` are told apart by their keys. */
  ghost predicate KeysDistinguish<T(!new)>(key: T -> Key, xs: seq<T>) {
    forall x, y | x in xs && y in xs && key(x) == key(y) :: x == y
  }

  lemma HeadsAgree<T(!new)>(key: T -> Key, xs: seq<T>, ys: seq<T>)
    requires Sorted(key, xs) && Sorted(key, ys) && multiset(xs) == multiset(ys) && KeysDistinguish(key, xs)
    requires xs != [] && ys != []
    ensures xs[0] == ys[0]
  {
    assert xs[0] in multiset(ys) && ys[0] in multiset(xs);
    var i :| 0 <= i < |ys| && ys[i] == xs[0];
    var j :| 0 <= j < |xs| && xs[j] == ys[0];
    KeyOrder(key(xs[0]), key(ys[0]));
  }

  lemma TailCounts<T>(xs: seq<T>)
    requires xs != []
    ensures multiset(xs[1..]) == multiset(xs) - multiset{xs[0]}
  {
    assert xs == [xs[0]] + xs[1..];
  }

  lemma {:induction false} SortedIsUnique<T(!new)>(key: T -> Key, xs: seq<T>, ys: seq<T>)
    requires Sorted(key, xs) && Sorted(key, ys) && multiset(xs) == multiset(ys) && KeysDistinguish(key, xs)
    ensures xs == ys
  {
    assert |xs| == |multiset(xs)| == |multiset(ys)| == |ys|;
    if xs != [] {
      HeadsAgree(key, xs, ys);
      TailCounts(xs);
      TailCounts(ys);
      TailSorted(key, xs);
      TailSorted(key, ys);
      hide Sorted, KeysDistinguish;
      SortedIsUnique(key, xs[1..], ys[1..]);
      assert xs == [xs[0]] + xs[1..] && ys == [ys[0]] + ys[1..];
    }
  }

  lemma TailSorted<T(!new)>(key: T -> Key, xs: seq<T>)
    requires xs != [] && Sorted(key, xs)
    ensures Sorted(key, xs[1..]) && (KeysDistinguish(key, xs) ==> KeysDistinguish(key, xs[1..]))
  {
  }

  /** Sorting forgets the order its input came in. */
  lemma SortIsOrderFree<T(!new)>(key: T -> Key, xs: seq<T>, ys: seq<T>)
    requires multiset(xs) == multiset(ys) && KeysDistinguish(key, xs)
    ensures SortBy(key, xs) == SortBy(key, ys)
  {
    SortPermutes(key, xs);
    SortPermutes(key, ys);
    SortSorts(key, xs);
    SortSorts(key, ys);
    forall x | x in SortBy(key, xs)
      ensures x in xs
    {
      assert x in multiset(SortBy(key, xs));
    }
    SortedIsUnique(key, SortBy(key, xs), SortBy(key, ys));
  }
}
