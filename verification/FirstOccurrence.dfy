/**
  The first-occurrence order of a list: the list without the elements that already stand further left.
  Lists of ancestor types grow and repeat elements, but what a lookup finds depends on this order only.
 */
module FirstOccurrence {

  ghost function Add<T>(seen: seq<T>, x: T): seq<T> {
    if x in seen then seen else seen + [x]
  }

  ghost function AddAll<T>(seen: seq<T>, xs: seq<T>): seq<T>
    decreases |xs|
  {
    if xs == [] then seen else AddAll(Add(seen, xs[0]), xs[1..])
  }

  ghost function FirstOcc<T>(xs: seq<T>): seq<T> {
    AddAll([], xs)
  }

  /** The position of the leftmost `x`. */
  ghost function Index<T>(xs: seq<T>, x: T): (i: nat)
    requires x in xs
    ensures i < |xs| && xs[i] == x && x !in xs[..i]
  {
    if xs[0] == x then 0 else 1 + Index(xs[1..], x)
  }

  lemma {:induction false} AddAllConcat<T>(seen: seq<T>, xs: seq<T>, ys: seq<T>)
    ensures AddAll(seen, xs + ys) == AddAll(AddAll(seen, xs), ys)
    decreases |xs|
  {
    if xs == [] {
      assert xs + ys == ys;
    } else {
      assert (xs + ys)[1..] == xs[1..] + ys;
      AddAllConcat(Add(seen, xs[0]), xs[1..], ys);
    }
  }

  lemma {:induction false} AddAllMembers<T>(seen: seq<T>, xs: seq<T>)
    ensures forall x :: x in AddAll(seen, xs) <==> x in seen || x in xs
    decreases |xs|
  {
    if xs != [] {
      AddAllMembers(Add(seen, xs[0]), xs[1..]);
      assert xs == [xs[0]] + xs[1..];
    }
  }

  lemma {:induction false} AddAllPrefix<T>(seen: seq<T>, xs: seq<T>)
    ensures seen <= AddAll(seen, xs)
    decreases |xs|
  {
    if xs != [] {
      AddAllPrefix(Add(seen, xs[0]), xs[1..]);
    }
  }

  /** Elements already seen add nothing. */
  lemma {:induction false} AddAllSeen<T>(seen: seq<T>, xs: seq<T>)
    requires forall x :: x in xs ==> x in seen
    ensures AddAll(seen, xs) == seen
    decreases |xs|
  {
    if xs != [] {
      assert xs[0] in xs;
      AddAllSeen(seen, xs[1..]);
    }
  }

  /** A list that already holds a stretch of the result, in order, yields the same result. */
  lemma {:induction false} AddAllBetween<T>(seen: seq<T>, more: seq<T>, xs: seq<T>)
    requires seen <= more <= AddAll(seen, xs)
    ensures AddAll(more, xs) == AddAll(seen, xs)
    decreases |xs|
  {
    if xs == [] {
      assert seen == more;
    } else if seen != more {
      var next := Add(seen, xs[0]);
      AddAllPrefix(next, xs[1..]);
      assert next <= more;
      assert xs[0] in next;
      assert xs[0] in more;
      AddAllBetween(next, more, xs[1..]);
    }
  }

  /** Adding a list or adding only its first occurrences comes to the same. */
  lemma {:induction false} AddAllNested<T>(seen: seq<T>, inner: seq<T>, xs: seq<T>)
    ensures AddAll(seen, AddAll(inner, xs)) == AddAll(AddAll(seen, inner), xs)
    decreases |xs|
  {
    if xs != [] {
      var next := Add(inner, xs[0]);
      AddAllNested(seen, next, xs[1..]);
      AddAllMembers(seen, inner);
      if xs[0] !in inner {
        AddAllConcat(seen, inner, [xs[0]]);
        assert AddAll(AddAll(seen, inner), [xs[0]]) == Add(AddAll(seen, inner), xs[0]);
      }
      assert AddAll(seen, next) == Add(AddAll(seen, inner), xs[0]);
    }
  }

  lemma SameFirstOcc<T>(seen: seq<T>, xs: seq<T>, ys: seq<T>)
    requires FirstOcc(xs) == FirstOcc(ys)
    ensures AddAll(seen, xs) == AddAll(seen, ys)
  {
    AddAllNested(seen, [], xs);
    AddAllNested(seen, [], ys);
  }

  lemma FirstOccMembers<T>(xs: seq<T>)
    ensures forall x :: x in FirstOcc(xs) <==> x in xs
  {
    AddAllMembers([], xs);
  }

  lemma {:induction false} AddAllNoDuplicates<T>(seen: seq<T>, xs: seq<T>)
    requires forall i, j :: 0 <= i < j < |seen| ==> seen[i] != seen[j]
    ensures forall i, j :: 0 <= i < j < |AddAll(seen, xs)| ==> AddAll(seen, xs)[i] != AddAll(seen, xs)[j]
    decreases |xs|
  {
    if xs != [] {
      AddAllNoDuplicates(Add(seen, xs[0]), xs[1..]);
    }
  }

  /** What the name promises: same elements, each once, ordered by their leftmost position in the list. */
  lemma {:induction false} FirstOccMeaning<T>(xs: seq<T>, x: T, y: T)
    requires x in xs && y in xs
    ensures x in FirstOcc(xs) && y in FirstOcc(xs)
    ensures forall i, j :: 0 <= i < j < |FirstOcc(xs)| ==> FirstOcc(xs)[i] != FirstOcc(xs)[j]
    ensures Index(xs, x) < Index(xs, y) <==> Index(FirstOcc(xs), x) < Index(FirstOcc(xs), y)
    decreases |xs|
  {
    FirstOccMembers(xs);
    AddAllNoDuplicates([], xs);
    var init, last := xs[..|xs| - 1], xs[|xs| - 1];
    assert xs == init + [last];
    AddAllConcat([], init, [last]);
    assert FirstOcc(xs) == Add(FirstOcc(init), last);
    FirstOccMembers(init);
    IndexOfPrefix(init, [last], x);
    IndexOfPrefix(init, [last], y);
    IndexOfPrefix(FirstOcc(init), [last], x);
    IndexOfPrefix(FirstOcc(init), [last], y);
    if x in init && y in init {
      FirstOccMeaning(init, x, y);
    }
  }

  lemma IndexUnique<T>(xs: seq<T>, x: T, i: nat)
    requires i < |xs| && xs[i] == x && x !in xs[..i]
    ensures Index(xs, x) == i
  {
    var k := Index(xs, x);
    assert forall j :: 0 <= j < i ==> xs[j] in xs[..i];
    assert forall j :: 0 <= j < k ==> xs[j] in xs[..k];
  }

  lemma IndexOfPrefix<T>(xs: seq<T>, ys: seq<T>, x: T)
    ensures x in xs ==> x in xs + ys && Index(xs + ys, x) == Index(xs, x)
    ensures x !in xs && x in ys ==> x in xs + ys && Index(xs + ys, x) >= |xs|
  {
    if x in xs {
      var i := Index(xs, x);
      assert (xs + ys)[i] == x && (xs + ys)[..i] == xs[..i];
      IndexUnique(xs + ys, x, i);
    } else if x in ys {
      assert ys[Index(ys, x)] == x;
      assert (xs + ys)[|xs| + Index(ys, x)] == x;
      assert forall k :: 0 <= k < |xs| ==> (xs + ys)[k] == xs[k] != x;
    }
  }
}
