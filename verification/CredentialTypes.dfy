/**
  Credential types and their ancestors (packages/cli/src/credential-types.ts).

  Every known type has an optional `extends` array. Asking for the ancestors of a type appends to that very
  array, so the stored arrays grow with every call; this module says what stays the same nevertheless.
 */
module CredentialTypes {
  import opened Options
  import opened FirstOccurrence

  /** The known types, each with its `extends` array; `None` where the field is undefined. */
  type Known = map<string, Option<seq<string>>>

  /** `known[t]?.extends ?? []` */
  function Parents(k: Known, t: string): seq<string> {
    if t in k && k[t].Some? then k[t].value else []
  }

  /** The relation has no cycle: every type has a higher rank than the types it extends. */
  ghost predicate Ranked(k: Known, rank: string -> nat) {
    forall t, p :: p in Parents(k, t) ==> rank(p) < rank(t)
  }

  /** The reference definition of the ancestor list: the direct parents, then the list of each parent. */
  ghost function Ancestors(d: Known, rank: string -> nat, t: string): seq<string>
    requires Ranked(d, rank)
    decreases rank(t), 1, 0
  {
    Parents(d, t) + AncestorsOfAll(d, rank, t, Parents(d, t))
  }

  /** The ancestor lists of `ts` in sequence; all of `ts` rank below `t`. */
  ghost function AncestorsOfAll(d: Known, rank: string -> nat, t: string, ts: seq<string>): seq<string>
    requires Ranked(d, rank)
    requires forall p :: p in ts ==> rank(p) < rank(t)
    decreases rank(t), 0, |ts|
  {
    if ts == [] then [] else Ancestors(d, rank, ts[0]) + AncestorsOfAll(d, rank, t, ts[1..])
  }

  /** A path along `extends`, from a type to an ancestor. */
  ghost predicate IsPath(d: Known, path: seq<string>, t: string, ancestor: string) {
    && |path| >= 2 && path[0] == t && path[|path| - 1] == ancestor
    && forall i :: 0 <= i < |path| - 1 ==> path[i + 1] in Parents(d, path[i])
  }

  /** One call of `getParentTypes(t)`: the arrays afterwards. */
  ghost function Grow(k: Known, rank: string -> nat, t: string): (grown: Known)
    requires Ranked(k, rank)
    ensures Ranked(grown, rank) && grown.Keys == k.Keys
    ensures forall u :: u in k && (rank(u) > rank(t) || (rank(u) == rank(t) && u != t)) ==> grown[u] == k[u]
    decreases rank(t), 1, 0
  {
    GrowEach(k, rank, t, Parents(k, t))
  }

  /** The `forEach` of that call over the elements `todo` that it has still to visit. */
  ghost function GrowEach(k: Known, rank: string -> nat, t: string, todo: seq<string>): (grown: Known)
    requires Ranked(k, rank)
    requires forall p :: p in todo ==> rank(p) < rank(t)
    requires todo != [] ==> t in k && k[t].Some?
    ensures Ranked(grown, rank) && grown.Keys == k.Keys
    ensures forall u :: u in k && (rank(u) > rank(t) || (rank(u) == rank(t) && u != t)) ==> grown[u] == k[u]
    decreases rank(t), 0, |todo|
  {
    if todo == [] then k
    else
      var k1 := Grow(k, rank, todo[0]);
      assert k1[t] == k[t];
      GrowEach(Push(k1, rank, t, todo[0]), rank, t, todo[1..])
  }

  /** `extendsArr.push(...list of p)` */
  ghost function Push(k: Known, rank: string -> nat, t: string, p: string): (pushed: Known)
    requires Ranked(k, rank) && t in k && k[t].Some? && rank(p) < rank(t)
    ensures Ranked(pushed, rank) && pushed.Keys == k.Keys
    ensures forall u :: u in k && u != t ==> pushed[u] == k[u]
  {
    k[t := Some(Parents(k, t) + Parents(k, p))]
  }

  /** `k` is reached from `before` when the call on `t` has visited the first `i` elements of its array. */
  ghost predicate GrowthPending(k: Known, rank: string -> nat, t: string, visited: seq<string>, i: nat, before: Known)
    requires i <= |visited|
  {
    && Ranked(k, rank) && Ranked(before, rank)
    && visited <= Parents(k, t)
    && (forall p :: p in visited[i..] ==> rank(p) < rank(t))
    && GrowEach(k, rank, t, visited[i..]) == Grow(before, rank, t)
  }

  lemma GrowEachUnfold(k: Known, rank: string -> nat, t: string, todo: seq<string>)
    requires Ranked(k, rank) && todo != [] && t in k && k[t].Some? && forall p :: p in todo ==> rank(p) < rank(t)
    ensures Grow(k, rank, todo[0])[t] == k[t] && forall p :: p in todo[1..] ==> rank(p) < rank(t)
    ensures GrowEach(k, rank, t, todo) == GrowEach(Push(Grow(k, rank, todo[0]), rank, t, todo[0]), rank, t, todo[1..])
  {
  }

  lemma GrowEachNext(k: Known, rank: string -> nat, t: string, visited: seq<string>, i: nat)
    requires Ranked(k, rank) && i < |visited| && t in k && k[t].Some?
    requires forall p :: p in visited[i..] ==> rank(p) < rank(t)
    ensures rank(visited[i]) < rank(t) && forall p :: p in visited[i + 1..] ==> rank(p) < rank(t)
    ensures var k1 := Grow(k, rank, visited[i]);
            && k1[t] == k[t]
            && GrowEach(k, rank, t, visited[i..]) == GrowEach(Push(k1, rank, t, visited[i]), rank, t, visited[i + 1..])
  {
    var todo := visited[i..];
    assert todo[0] == visited[i] && todo[1..] == visited[i + 1..];
    GrowEachUnfold(k, rank, t, todo);
  }

  lemma PushExtends(k: Known, rank: string -> nat, t: string, p: string, visited: seq<string>)
    requires Ranked(k, rank) && t in k && k[t].Some? && rank(p) < rank(t) && visited <= Parents(k, t)
    ensures visited <= Parents(Push(k, rank, t, p), t)
  {
  }

  /** One iteration of the visit. */
  lemma GrowEachStep(k: Known, rank: string -> nat, t: string, visited: seq<string>, i: nat, before: Known)
    requires i < |visited| && GrowthPending(k, rank, t, visited, i, before)
    ensures Ranked(k, rank) && t in k && k[t].Some? && i < |Parents(k, t)| && Parents(k, t)[i] == visited[i]
    ensures rank(visited[i]) < rank(t)
    ensures var k1 := Grow(k, rank, visited[i]);
            && k1[t] == k[t]
            && GrowthPending(Push(k1, rank, t, visited[i]), rank, t, visited, i + 1, before)
  {
    assert visited[i] in visited[i..];
    assert Parents(k, t)[i] == visited[i];
    assert Parents(k, t) != [];
    GrowEachNext(k, rank, t, visited, i);
    PushExtends(Grow(k, rank, visited[i]), rank, t, visited[i], visited);
  }

  lemma GrowEachDone(k: Known, rank: string -> nat, t: string, visited: seq<string>, before: Known)
    requires GrowthPending(k, rank, t, visited, |visited|, before)
    ensures Ranked(before, rank) && k == Grow(before, rank, t)
  {
    assert visited[|visited|..] == [];
  }

  /** The arrays after calls on the types `calls`, in this order. */
  ghost function History(d: Known, rank: string -> nat, calls: seq<string>): (k: Known)
    requires Ranked(d, rank)
    ensures Ranked(k, rank) && k.Keys == d.Keys
    decreases |calls|
  {
    if calls == [] then d
    else Grow(History(d, rank, calls[..|calls| - 1]), rank, calls[|calls| - 1])
  }

  // ---- What every call keeps -------------------------------------------------------------------------------

  /**
    How far the array of one type may have grown: it starts with the declared parents, and its first occurrences
    are a leading part of those of the ancestor list; what was appended are ancestors of the declared parents.
   */
  ghost predicate GrownArray(d: Known, k: Known, rank: string -> nat, t: string)
    requires Ranked(d, rank)
  {
    && (t in k ==> t in d && (k[t].Some? <==> d[t].Some?))
    && Parents(d, t) <= Parents(k, t)
    && FirstOcc(Parents(k, t)) <= FirstOcc(Ancestors(d, rank, t))
    && forall x :: x in Parents(k, t)[|Parents(d, t)|..] ==> x in AncestorsOfAll(d, rank, t, Parents(d, t))
  }

  ghost predicate GrownFrom(d: Known, k: Known, rank: string -> nat) {
    && Ranked(d, rank) && Ranked(k, rank) && k.Keys == d.Keys
    && forall t :: GrownArray(d, k, rank, t)
  }

  lemma SplitHead(xs: seq<string>, ys: seq<string>)
    requires xs != []
    ensures xs == [xs[0]] + xs[1..] && xs + ys == [xs[0]] + (xs[1..] + ys)
  {
  }

  lemma ConcatThree(xs: seq<string>, ys: seq<string>, zs: seq<string>)
    ensures xs + (ys + zs) == (xs + ys) + zs
  {
  }

  lemma InConcat(xs: seq<string>, ys: seq<string>)
    ensures forall p :: p in xs + ys <==> p in xs || p in ys
  {
  }

  lemma AncestorsOfHead(d: Known, rank: string -> nat, t: string, ts: seq<string>, x: string, rest: seq<string>)
    requires Ranked(d, rank) && ts == [x] + rest
    requires forall p :: p in ts ==> rank(p) < rank(t)
    ensures rank(x) < rank(t) && forall p :: p in rest ==> rank(p) < rank(t)
    ensures AncestorsOfAll(d, rank, t, ts) == Ancestors(d, rank, x) + AncestorsOfAll(d, rank, t, rest)
  {
    assert ts[0] == x && ts[1..] == rest;
    assert x in ts && forall p :: p in rest ==> p in ts;
  }

  lemma {:induction false} AncestorsOfBoth(d: Known, rank: string -> nat, t: string, xs: seq<string>, ys: seq<string>,
                                           whole: seq<string>)
    requires Ranked(d, rank) && whole == xs + ys
    requires forall p :: p in xs ==> rank(p) < rank(t)
    requires forall p :: p in ys ==> rank(p) < rank(t)
    requires forall p :: p in whole ==> rank(p) < rank(t)
    ensures AncestorsOfAll(d, rank, t, whole) == AncestorsOfAll(d, rank, t, xs) + AncestorsOfAll(d, rank, t, ys)
    decreases |xs|
  {
    if xs == [] {
      assert whole == ys;
    } else {
      var x, rest := xs[0], xs[1..];
      SplitHead(xs, ys);
      AncestorsOfHead(d, rank, t, xs, x, rest);
      AncestorsOfHead(d, rank, t, whole, x, rest + ys);
      AncestorsOfBoth(d, rank, t, rest, ys, rest + ys);
      ConcatThree(Ancestors(d, rank, x), AncestorsOfAll(d, rank, t, rest), AncestorsOfAll(d, rank, t, ys));
    }
  }

  lemma AncestorsOfAllConcat(d: Known, rank: string -> nat, t: string, xs: seq<string>, ys: seq<string>)
    requires Ranked(d, rank)
    requires forall p :: p in xs + ys ==> rank(p) < rank(t)
    ensures forall p :: p in xs ==> p in xs + ys
    ensures forall p :: p in ys ==> p in xs + ys
    ensures AncestorsOfAll(d, rank, t, xs + ys) == AncestorsOfAll(d, rank, t, xs) + AncestorsOfAll(d, rank, t, ys)
  {
    InConcat(xs, ys);
    AncestorsOfBoth(d, rank, t, xs, ys, xs + ys);
  }

  lemma {:induction false} AncestorsOfAllMembers(d: Known, rank: string -> nat, t: string, ts: seq<string>, x: string)
    requires Ranked(d, rank)
    requires forall p :: p in ts ==> rank(p) < rank(t)
    ensures x in AncestorsOfAll(d, rank, t, ts) <==> exists p :: p in ts && x in Ancestors(d, rank, p)
    decreases |ts|
  {
    if ts != [] {
      var rest := ts[1..];
      AncestorsOfAllMembers(d, rank, t, rest, x);
      if x in AncestorsOfAll(d, rank, t, rest) {
        var p :| p in rest && x in Ancestors(d, rank, p);
        assert p in ts;
      }
      if p :| p in ts && x in Ancestors(d, rank, p) {
        assert p == ts[0] || p in rest;
      }
    }
  }

  lemma {:induction false} AncestorsTransitive(d: Known, rank: string -> nat, t: string, x: string, y: string)
    requires Ranked(d, rank)
    requires x in Ancestors(d, rank, t) && y in Ancestors(d, rank, x)
    ensures y in Ancestors(d, rank, t)
    decreases rank(t)
  {
    AncestorsOfAllMembers(d, rank, t, Parents(d, t), x);
    AncestorsOfAllMembers(d, rank, t, Parents(d, t), y);
    if x !in Parents(d, t) {
      var p :| p in Parents(d, t) && x in Ancestors(d, rank, p);
      AncestorsTransitive(d, rank, p, x, y);
    }
  }

  lemma {:induction false} AncestorsRankLower(d: Known, rank: string -> nat, t: string, x: string)
    requires Ranked(d, rank) && x in Ancestors(d, rank, t)
    ensures rank(x) < rank(t)
    decreases rank(t)
  {
    AncestorsOfAllMembers(d, rank, t, Parents(d, t), x);
    if x !in Parents(d, t) {
      var p :| p in Parents(d, t) && x in Ancestors(d, rank, p);
      AncestorsRankLower(d, rank, p, x);
    }
  }

  lemma PathTail(d: Known, path: seq<string>, t: string, x: string)
    requires IsPath(d, path, t, x) && x !in Parents(d, t)
    ensures path[1] in Parents(d, t) && IsPath(d, path[1..], path[1], x)
  {
    assert path[0 + 1] in Parents(d, path[0]);
  }

  /** The ancestor list holds exactly the types that a path along `extends` reaches. */
  lemma {:induction false} AncestorsAreReachable(d: Known, rank: string -> nat, t: string, x: string)
    requires Ranked(d, rank)
    ensures x in Ancestors(d, rank, t) <==> exists path :: IsPath(d, path, t, x)
    decreases rank(t)
  {
    AncestorsOfAllMembers(d, rank, t, Parents(d, t), x);
    if x in Parents(d, t) {
      assert IsPath(d, [t, x], t, x);
    } else {
      if x in Ancestors(d, rank, t) {
        var p :| p in Parents(d, t) && x in Ancestors(d, rank, p);
        AncestorsAreReachable(d, rank, p, x);
        var path :| IsPath(d, path, p, x);
        assert IsPath(d, [t] + path, t, x);
      }
      if path :| IsPath(d, path, t, x) {
        PathTail(d, path, t, x);
        AncestorsAreReachable(d, rank, path[1], x);
      }
    }
  }

  /** What a visit of `whole`, the array of `t`, needs to know about it. */
  ghost predicate Visitable(d: Known, rank: string -> nat, t: string, whole: seq<string>)
    requires Ranked(d, rank)
  {
    && (forall x :: x in whole ==> rank(x) < rank(t))
    && (forall x :: x in whole ==> x in Ancestors(d, rank, t))
    && AddAll(FirstOcc(whole), AncestorsOfAll(d, rank, t, whole)) == FirstOcc(Ancestors(d, rank, t))
  }

  /** The first-occurrence order once the first `i` elements of `whole` are visited. */
  ghost function VisitOrder(d: Known, rank: string -> nat, t: string, whole: seq<string>, i: nat): seq<string>
    requires Ranked(d, rank) && Visitable(d, rank, t, whole) && i <= |whole|
  {
    AddAll(FirstOcc(whole), AncestorsOfAll(d, rank, t, whole[..i]))
  }

  lemma OneList(d: Known, rank: string -> nat, t: string, p: string)
    requires Ranked(d, rank) && rank(p) < rank(t)
    ensures AncestorsOfAll(d, rank, t, [p]) == Ancestors(d, rank, p)
  {
    assert [p][1..] == [];
    assert AncestorsOfAll(d, rank, t, [p]) == Ancestors(d, rank, p) + [];
  }

  lemma VisitOrderStep(d: Known, rank: string -> nat, t: string, whole: seq<string>, i: nat)
    requires Ranked(d, rank) && Visitable(d, rank, t, whole) && i < |whole|
    ensures VisitOrder(d, rank, t, whole, i + 1)
         == AddAll(VisitOrder(d, rank, t, whole, i), Ancestors(d, rank, whole[i]))
  {
    var p := whole[i];
    assert whole[..i + 1] == whole[..i] + [p];
    AncestorsOfAllConcat(d, rank, t, whole[..i], [p]);
    OneList(d, rank, t, p);
    AddAllConcat(FirstOcc(whole), AncestorsOfAll(d, rank, t, whole[..i]), Ancestors(d, rank, p));
  }

  lemma VisitOrderBelow(d: Known, rank: string -> nat, t: string, whole: seq<string>, i: nat)
    requires Ranked(d, rank) && Visitable(d, rank, t, whole) && i <= |whole|
    ensures VisitOrder(d, rank, t, whole, i) <= FirstOcc(Ancestors(d, rank, t))
  {
    assert whole == whole[..i] + whole[i..];
    AncestorsOfAllConcat(d, rank, t, whole[..i], whole[i..]);
    AddAllConcat(FirstOcc(whole), AncestorsOfAll(d, rank, t, whole[..i]), AncestorsOfAll(d, rank, t, whole[i..]));
    AddAllPrefix(VisitOrder(d, rank, t, whole, i), AncestorsOfAll(d, rank, t, whole[i..]));
  }

  /**
    Visiting the whole array, as grown so far, completes it: appending the ancestor lists of all its elements
    brings its first occurrences to those of the reference list.
   */
  lemma GrownIsVisitable(d: Known, rank: string -> nat, t: string, direct: seq<string>, tail: seq<string>,
                         whole: seq<string>)
    requires Ranked(d, rank) && direct == Parents(d, t) && whole == direct + tail
    requires FirstOcc(whole) <= FirstOcc(Ancestors(d, rank, t))
    ensures Visitable(d, rank, t, whole)
  {
    var goal := FirstOcc(Ancestors(d, rank, t));
    FirstOccMembers(Ancestors(d, rank, t));
    FirstOccMembers(whole);
    forall x | x in whole ensures x in Ancestors(d, rank, t) && rank(x) < rank(t) {
      assert x in FirstOcc(whole);
      AncestorsRankLower(d, rank, t, x);
    }
    AncestorsOfAllConcat(d, rank, t, direct, tail);
    var q, rest := AncestorsOfAll(d, rank, t, direct), AncestorsOfAll(d, rank, t, tail);
    AddAllConcat([], direct, q);
    AddAllConcat([], direct, tail);
    AddAllPrefix(FirstOcc(direct), tail);
    AddAllBetween(FirstOcc(direct), FirstOcc(whole), q);
    forall y | y in rest ensures y in goal {
      AncestorsOfAllMembers(d, rank, t, tail, y);
      var x :| x in tail && y in Ancestors(d, rank, x);
      assert x in whole;
      AncestorsTransitive(d, rank, t, x, y);
    }
    AddAllSeen(goal, rest);
    AddAllConcat(FirstOcc(whole), q, rest);
  }

  lemma VisitOrderAtStart(d: Known, rank: string -> nat, t: string, whole: seq<string>)
    requires Ranked(d, rank) && Visitable(d, rank, t, whole)
    ensures VisitOrder(d, rank, t, whole, 0) == FirstOcc(whole)
  {
    assert whole[..0] == [];
  }

  lemma PrefixSplit<T>(front: seq<T>, whole: seq<T>)
    requires front <= whole
    ensures whole == front + whole[|front|..]
  {
  }

  lemma ArrayIsVisitable(d: Known, k: Known, rank: string -> nat, t: string)
    requires Ranked(d, rank) && GrownArray(d, k, rank, t)
    ensures Visitable(d, rank, t, Parents(k, t))
  {
    var whole, direct := Parents(k, t), Parents(d, t);
    PrefixSplit(direct, whole);
    GrownIsVisitable(d, rank, t, direct, whole[|direct|..], whole);
  }

  /** One push of the visit moves the order one step on. */
  lemma PushMovesOrder(d: Known, k: Known, rank: string -> nat, t: string, whole: seq<string>, i: nat)
    requires Ranked(d, rank) && Ranked(k, rank) && Visitable(d, rank, t, whole) && i < |whole|
    requires t in k && k[t].Some?
    requires FirstOcc(Parents(k, t)) == VisitOrder(d, rank, t, whole, i)
    requires FirstOcc(Parents(k, whole[i])) == FirstOcc(Ancestors(d, rank, whole[i]))
    ensures FirstOcc(Parents(Push(k, rank, t, whole[i]), t)) == VisitOrder(d, rank, t, whole, i + 1)
  {
    var p := whole[i];
    AddAllConcat([], Parents(k, t), Parents(k, p));
    SameFirstOcc(FirstOcc(Parents(k, t)), Parents(k, p), Ancestors(d, rank, p));
    VisitOrderStep(d, rank, t, whole, i);
  }

  /** It also keeps the array within its bounds: what is appended are ancestors of the declared parents. */
  lemma PushKeeps(d: Known, k: Known, rank: string -> nat, t: string, whole: seq<string>, i: nat)
    requires GrownFrom(d, k, rank) && Visitable(d, rank, t, whole) && i < |whole|
    requires t in k && k[t].Some?
    requires FirstOcc(Parents(k, t)) == VisitOrder(d, rank, t, whole, i)
    requires FirstOcc(Parents(k, whole[i])) == FirstOcc(Ancestors(d, rank, whole[i]))
    ensures GrownFrom(d, Push(k, rank, t, whole[i]), rank)
    ensures FirstOcc(Parents(Push(k, rank, t, whole[i]), t)) == VisitOrder(d, rank, t, whole, i + 1)
  {
    var p := whole[i];
    var pushed := Push(k, rank, t, p);
    PushMovesOrder(d, k, rank, t, whole, i);
    VisitOrderBelow(d, rank, t, whole, i + 1);
    assert GrownArray(d, k, rank, t);
    assert p in whole;
    PushedArray(d, k, rank, t, p);
    forall u | u != t ensures GrownArray(d, pushed, rank, u) {
      assert GrownArray(d, k, rank, u);
      assert Parents(pushed, u) == Parents(k, u);
    }
  }

  lemma PushedArray(d: Known, k: Known, rank: string -> nat, t: string, p: string)
    requires Ranked(d, rank) && Ranked(k, rank) && GrownArray(d, k, rank, t) && t in k && k[t].Some?
    requires rank(p) < rank(t) && p in Ancestors(d, rank, t)
    requires FirstOcc(Parents(k, p)) == FirstOcc(Ancestors(d, rank, p))
    requires FirstOcc(Parents(Push(k, rank, t, p), t)) <= FirstOcc(Ancestors(d, rank, t))
    ensures GrownArray(d, Push(k, rank, t, p), rank, t)
  {
    var before, listP, direct := Parents(k, t), Parents(k, p), Parents(d, t);
    assert (before + listP)[|direct|..] == before[|direct|..] + listP;
    FirstOccMembers(listP);
    FirstOccMembers(Ancestors(d, rank, p));
    forall x | x in listP ensures x in AncestorsOfAll(d, rank, t, direct) {
      assert x in FirstOcc(listP);
      GrandAncestor(d, rank, t, p, x);
    }
  }

  lemma GrandAncestor(d: Known, rank: string -> nat, t: string, p: string, x: string)
    requires Ranked(d, rank) && p in Ancestors(d, rank, t) && x in Ancestors(d, rank, p)
    ensures x in AncestorsOfAll(d, rank, t, Parents(d, t))
  {
    AncestorsOfAllMembers(d, rank, t, Parents(d, t), p);
    AncestorsOfAllMembers(d, rank, t, Parents(d, t), x);
    if p !in Parents(d, t) {
      var q :| q in Parents(d, t) && p in Ancestors(d, rank, q);
      AncestorsTransitive(d, rank, q, p, x);
    }
  }

  /** A call keeps the bounds of every array and completes the array of its own type. */
  lemma {:induction false} GrowKeeps(d: Known, k: Known, rank: string -> nat, t: string)
    requires GrownFrom(d, k, rank)
    ensures GrownFrom(d, Grow(k, rank, t), rank)
    ensures FirstOcc(Parents(Grow(k, rank, t), t)) == FirstOcc(Ancestors(d, rank, t))
    decreases rank(t), 1, 0
  {
    var whole := Parents(k, t);
    assert GrownArray(d, k, rank, t);
    ArrayIsVisitable(d, k, rank, t);
    VisitOrderAtStart(d, rank, t, whole);
    assert whole[0..] == whole;
    GrowEachKeeps(d, k, rank, t, whole, 0);
  }

  lemma {:induction false} GrowEachKeeps(d: Known, k: Known, rank: string -> nat, t: string, whole: seq<string>, i: nat)
    requires GrownFrom(d, k, rank) && Visitable(d, rank, t, whole) && i <= |whole|
    requires i < |whole| ==> t in k && k[t].Some?
    requires FirstOcc(Parents(k, t)) == VisitOrder(d, rank, t, whole, i)
    ensures GrownFrom(d, GrowEach(k, rank, t, whole[i..]), rank)
    ensures FirstOcc(Parents(GrowEach(k, rank, t, whole[i..]), t)) == FirstOcc(Ancestors(d, rank, t))
    decreases rank(t), 0, |whole| - i
  {
    if i == |whole| {
      assert whole[..i] == whole;
    } else {
      var p := whole[i];
      var k1 := Grow(k, rank, p);
      GrowKeeps(d, k, rank, p);
      assert k1[t] == k[t];
      PushKeeps(d, k1, rank, t, whole, i);
      GrowEachKeeps(d, Push(k1, rank, t, p), rank, t, whole, i + 1);
      assert whole[i..][1..] == whole[i + 1..];
    }
  }

  /** Nothing has grown yet. */
  lemma FreshIsGrown(d: Known, rank: string -> nat)
    requires Ranked(d, rank)
    ensures GrownFrom(d, d, rank)
  {
    forall t ensures GrownArray(d, d, rank, t) {
      AddAllConcat([], Parents(d, t), AncestorsOfAll(d, rank, t, Parents(d, t)));
      AddAllPrefix(FirstOcc(Parents(d, t)), AncestorsOfAll(d, rank, t, Parents(d, t)));
    }
  }

  lemma {:induction false} HistoryKeeps(d: Known, rank: string -> nat, calls: seq<string>)
    requires Ranked(d, rank)
    ensures GrownFrom(d, History(d, rank, calls), rank)
    decreases |calls|
  {
    if calls == [] {
      FreshIsGrown(d, rank);
    } else {
      HistoryKeeps(d, rank, calls[..|calls| - 1]);
      GrowKeeps(d, History(d, rank, calls[..|calls| - 1]), rank, calls[|calls| - 1]);
    }
  }

  /**
    After any calls before, on any types, the list returned for `t` has the first-occurrence order of the reference
    list, and its elements are exactly the types a path along `extends` reaches.
   */
  lemma ParentTypesAfterAnyHistory(d: Known, rank: string -> nat, calls: seq<string>, t: string)
    requires Ranked(d, rank)
    ensures var returned := Parents(Grow(History(d, rank, calls), rank, t), t);
            && FirstOcc(returned) == FirstOcc(Ancestors(d, rank, t))
            && forall x :: x in returned <==> exists path :: IsPath(d, path, t, x)
  {
    HistoryKeeps(d, rank, calls);
    GrowKeeps(d, History(d, rank, calls), rank, t);
    var returned := Parents(Grow(History(d, rank, calls), rank, t), t);
    FirstOccMembers(returned);
    FirstOccMembers(Ancestors(d, rank, t));
    forall x ensures x in returned <==> exists path :: IsPath(d, path, t, x) {
      assert x in returned <==> x in FirstOcc(returned);
      assert x in Ancestors(d, rank, t) <==> x in FirstOcc(Ancestors(d, rank, t));
      AncestorsAreReachable(d, rank, t, x);
    }
  }

  /** At any time, every stored array holds proper ancestors of its own type only. */
  lemma StoredArraysHoldAncestors(d: Known, rank: string -> nat, calls: seq<string>, t: string, x: string)
    requires Ranked(d, rank) && x in Parents(History(d, rank, calls), t)
    ensures x != t && exists path :: IsPath(d, path, t, x)
  {
    HistoryKeeps(d, rank, calls);
    var k := History(d, rank, calls);
    assert GrownArray(d, k, rank, t);
    FirstOccMembers(Parents(k, t));
    FirstOccMembers(Ancestors(d, rank, t));
    assert x in FirstOcc(Parents(k, t));
    AncestorsRankLower(d, rank, t, x);
    AncestorsAreReachable(d, rank, t, x);
  }

  /** The arrays as the credential classes show them: the grown array for a `shared` type, the declared one else. */
  ghost function Walk(d: Known, k: Known, shared: set<string>): (walk: Known)
    requires k.Keys == d.Keys
  {
    map t | t in k :: if t in shared then k[t] else d[t]
  }

  /**
    The service. `known` holds the arrays that `getParentTypes` reads and extends. `declared` holds the arrays of the
    credential classes; for the types in `shared` the class array and the known array are one object (classes that a
    directory loader instantiated itself), for the others they are two (classes loaded lazily).
   */
  class CredentialTypes {
    var known: Known
    const declared: Known
    const shared: set<string>
    ghost const rank: string -> nat

    ghost predicate Valid()
      reads this
    {
      GrownFrom(declared, known, rank)
    }

    constructor (declared: Known, shared: set<string>, ghost rank: string -> nat)
      requires Ranked(declared, rank)
      ensures Valid() && this.declared == declared && this.shared == shared && this.rank == rank
      ensures known == declared
    {
      this.known, this.declared, this.shared, this.rank := declared, declared, shared, rank;
      new;
      FreshIsGrown(declared, rank);
    }

    predicate Recognizes(typeName: string)
      reads this
    {
      typeName in known
    }

    /** `getByName(t).extends` for every recognized type. */
    ghost function ClassExtends(): (walk: Known)
      requires known.Keys == declared.Keys
      reads this
    {
      Walk(declared, known, shared)
    }

    /** `getByName(typeName).extends` */
    method ExtendsOf(typeName: string) returns (parents: Option<seq<string>>)
      requires Valid() && Recognizes(typeName)
      ensures parents == ClassExtends()[typeName]
    {
      parents := if typeName in shared then known[typeName] else declared[typeName];
    }

    method GetParentTypes(typeName: string) returns (parentTypes: seq<string>)
      requires Ranked(known, rank)
      modifies this`known
      ensures known == Grow(old(known), rank, typeName)
      ensures parentTypes == Parents(known, typeName)
      decreases rank(typeName)
    {
      ghost var before := known;
      var visited := Parents(known, typeName);
      assert visited[0..] == visited;
      var i := 0;
      while i < |visited|
        invariant 0 <= i <= |visited| && known.Keys == before.Keys
        invariant GrowthPending(known, rank, typeName, visited, i, before)
      {
        GrowEachStep(known, rank, typeName, visited, i, before);
        var element := Parents(known, typeName)[i];
        var elementParents := GetParentTypes(element);
        known := known[typeName := Some(Parents(known, typeName) + elementParents)];
        i := i + 1;
      }
      GrowEachDone(known, rank, typeName, visited, before);
      parentTypes := Parents(known, typeName);
    }
  }
}
