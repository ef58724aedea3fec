/** Small vocabulary shared by the other modules. */
module Common {

  datatype Option<+T> = None | Some(value: T) {
    /** Python's `d.get(key, default)` on an optional key. */
    function GetOr(default: T): T {
      match this
      case Some(v) => v
      case None => default
    }
  }

  /** The list comprehension `[x for x in xs if keep(x)]`. */
  function Filter<T>(keep: T -> bool, xs: seq<T>): seq<T> {
    if xs == [] then []
    else if keep(xs[0]) then [xs[0]] + Filter(keep, xs[1..])
    else Filter(keep, xs[1..])
  }

  lemma {:induction false} FilterAppend<T>(keep: T -> bool, xs: seq<T>, ys: seq<T>)
    ensures Filter(keep, xs + ys) == Filter(keep, xs) + Filter(keep, ys)
  {
    if xs == [] {
      assert xs + ys == ys;
    } else {
      FilterAppend(keep, xs[1..], ys);
      assert (xs + ys)[0] == xs[0] && (xs + ys)[1..] == xs[1..] + ys;
    }
  }

  lemma {:induction false} FilterMembers<T>(keep: T -> bool, xs: seq<T>)
    ensures forall x :: x in Filter(keep, xs) <==> x in xs && keep(x)
  {
    if xs != [] {
      FilterMembers(keep, xs[1..]);
      assert xs == [xs[0]] + xs[1..];
    }
  }

  lemma {:induction false} FilterAll<T>(keep: T -> bool, xs: seq<T>)
    requires forall x :: x in xs ==> keep(x)
    ensures Filter(keep, xs) == xs
  {
    if xs != [] {
      FilterAll(keep, xs[1..]);
    }
  }

  lemma {:induction false} FilterNone<T>(keep: T -> bool, xs: seq<T>)
    requires forall x :: x in xs ==> !keep(x)
    ensures Filter(keep, xs) == []
  {
    if xs != [] {
      FilterNone(keep, xs[1..]);
    }
  }

  lemma {:induction false} FilterLength<T>(keep: T -> bool, xs: seq<T>)
    ensures |Filter(keep, xs)| <= |xs|
    ensures |Filter(keep, xs)| == |xs| <==> forall x :: x in xs ==> keep(x)
  {
    if xs != [] {
      FilterLength(keep, xs[1..]);
      assert xs == [xs[0]] + xs[1..];
    }
  }

  /** The lists made of the elements, one behind the other. */
  function FlatMap<T, U>(f: T -> seq<U>, xs: seq<T>): seq<U> {
    if xs == [] then [] else f(xs[0]) + FlatMap(f, xs[1..])
  }

  lemma {:induction false} FlatMapAppend<T, U>(f: T -> seq<U>, xs: seq<T>, ys: seq<T>)
    ensures FlatMap(f, xs + ys) == FlatMap(f, xs) + FlatMap(f, ys)
  {
    if xs == [] {
      assert xs + ys == ys;
    } else {
      FlatMapAppend(f, xs[1..], ys);
      assert (xs + ys)[0] == xs[0] && (xs + ys)[1..] == xs[1..] + ys;
    }
  }

  lemma FlatMapSingle<T, U>(f: T -> seq<U>, x: T)
    ensures FlatMap(f, [x]) == f(x)
  {
    assert [x][1..] == [];
    assert FlatMap(f, [x]) == f(x) + [];
  }

  lemma FlatMapSnoc<T, U>(f: T -> seq<U>, xs: seq<T>, x: T)
    ensures FlatMap(f, xs + [x]) == FlatMap(f, xs) + f(x)
  {
    FlatMapAppend(f, xs, [x]);
    FlatMapSingle(f, x);
  }

  lemma {:induction false} FlatMapMembers<T, U>(f: T -> seq<U>, xs: seq<T>, y: U)
    ensures y in FlatMap(f, xs) <==> exists x :: x in xs && y in f(x)
  {
    if xs != [] {
      FlatMapMembers(f, xs[1..], y);
      assert xs == [xs[0]] + xs[1..];
    }
  }

  lemma {:induction false} FlatMapLength<T, U>(f: T -> seq<U>, size: T -> int, xs: seq<T>)
    requires forall x :: x in xs ==> size(x) == |f(x)|
    ensures |FlatMap(f, xs)| == Sum(size, xs)
  {
    if xs != [] {
      FlatMapLength(f, size, xs[1..]);
    }
  }

  /** `[f(x) for x in xs]` without the missing results. */
  function FilterMap<T, U>(f: T -> Option<U>, xs: seq<T>): seq<U> {
    if xs == [] then []
    else
      var front, y := FilterMap(f, xs[..|xs| - 1]), f(xs[|xs| - 1]);
      if y.Some? then front + [y.value] else front
  }

  lemma FilterMapSingle<T, U>(f: T -> Option<U>, x: T)
    ensures FilterMap(f, [x]) == if f(x).Some? then [f(x).value] else []
  {
    assert [x][..0] == [];
  }

  lemma {:induction false} FilterMapMembers<T, U>(f: T -> Option<U>, xs: seq<T>, y: U)
    ensures y in FilterMap(f, xs) <==> exists x :: x in xs && f(x) == Some(y)
  {
    if xs != [] {
      FilterMapMembers(f, xs[..|xs| - 1], y);
      assert xs == xs[..|xs| - 1] + [xs[|xs| - 1]];
    }
  }

  method FilterMapLoop<T, U>(f: T -> Option<U>, xs: seq<T>) returns (ys: seq<U>)
    ensures ys == FilterMap(f, xs)
  {
    ys := [];
    for i := 0 to |xs|
      invariant ys == FilterMap(f, xs[..i])
    {
      var y := f(xs[i]);
      assert xs[..i + 1][..i] == xs[..i];
      if y.Some? {
        ys := ys + [y.value];
      }
    }
    assert xs[..|xs|] == xs;
  }

  /** `str.isspace` on one character. */
  predicate IsSpace(c: char) {
    var n := c as int;
    || 0x09 <= n <= 0x0D || 0x1C <= n <= 0x20 || n == 0x85 || n == 0xA0 || n == 0x1680
    || 0x2000 <= n <= 0x200A || n == 0x2028 || n == 0x2029 || n == 0x202F || n == 0x205F || n == 0x3000
  }

  /** The white space of ASCII, and nothing that ASCII prints. */
  lemma AsciiSpace(c: char)
    requires c as int < 127
    ensures IsSpace(c) <==> c in [' ', '\t', '\n', '\r'] || c as int in [0x0B, 0x0C, 0x1C, 0x1D, 0x1E, 0x1F]
  {
  }

  /** Sum of a measure over a list. */
  function Sum<T>(f: T -> int, xs: seq<T>): int {
    if xs == [] then 0 else f(xs[0]) + Sum(f, xs[1..])
  }

  lemma {:induction false} SumAppend<T>(f: T -> int, xs: seq<T>, ys: seq<T>)
    ensures Sum(f, xs + ys) == Sum(f, xs) + Sum(f, ys)
  {
    if xs == [] {
      assert xs + ys == ys;
    } else {
      assert (xs + ys)[1..] == xs[1..] + ys;
      SumAppend(f, xs[1..], ys);
    }
  }

  lemma SumWithout<T>(f: T -> int, xs: seq<T>, k: nat)
    requires k < |xs|
    ensures Sum(f, xs) == f(xs[k]) + Sum(f, xs[..k] + xs[k + 1..])
  {
    assert xs == xs[..k] + ([xs[k]] + xs[k + 1..]);
    SumAppend(f, xs[..k], [xs[k]] + xs[k + 1..]);
    SumAppend(f, [xs[k]], xs[k + 1..]);
    SumAppend(f, xs[..k], xs[k + 1..]);
  }

  lemma MultisetWithout<T>(xs: seq<T>, k: nat)
    requires k < |xs|
    ensures multiset(xs[..k] + xs[k + 1..]) == multiset(xs) - multiset{xs[k]}
  {
    assert xs == xs[..k] + [xs[k]] + xs[k + 1..];
  }

  /** The first element of a list occurs in every permutation of it. */
  lemma PermutationHead<T>(xs: seq<T>, ys: seq<T>) returns (k: nat)
    requires multiset(xs) == multiset(ys) && xs != []
    ensures k < |ys| && ys[k] == xs[0]
    ensures multiset(xs[1..]) == multiset(ys[..k] + ys[k + 1..])
  {
    assert xs[0] in multiset(ys);
    k :| 0 <= k < |ys| && ys[k] == xs[0];
    MultisetWithout(xs, 0);
    MultisetWithout(ys, k);
    assert xs[..0] + xs[1..] == xs[1..];
  }

  /** A sum does not depend on the order of the list. */
  lemma {:induction false} SumPermutation<T>(f: T -> int, xs: seq<T>, ys: seq<T>)
    requires multiset(xs) == multiset(ys)
    ensures Sum(f, xs) == Sum(f, ys)
  {
    if xs == [] {
      assert |multiset(ys)| == 0;
    } else {
      var k := PermutationHead(xs, ys);
      SumPermutation(f, xs[1..], ys[..k] + ys[k + 1..]);
      SumWithout(f, ys, k);
    }
  }
}
