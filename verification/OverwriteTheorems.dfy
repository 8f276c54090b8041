/** What lookups return after `setData`, for every table, key order and history of ancestor queries. */
module OverwriteTheorems {
  import opened Options
  import opened FirstOccurrence
  import opened CredentialTypes
  import opened OverwriteRules

  // ---- Merging ---------------------------------------------------------------------------------------------

  lemma {:induction false} MergeConcat(table: Table, xs: seq<string>, ys: seq<string>)
    ensures Merge(table, xs + ys) == Merge(table, ys) + Merge(table, xs)
    decreases |xs|
  {
    if xs == [] {
      assert xs + ys == ys;
    } else {
      assert (xs + ys)[1..] == xs[1..] + ys && (xs + ys)[0] == xs[0];
      MergeConcat(table, xs[1..], ys);
      PlusAssociative(Merge(table, ys), Merge(table, xs[1..]), Own(table, xs[0]));
    }
  }

  lemma {:induction false} MergeKeys(table: Table, xs: seq<string>, f: string)
    ensures f in Merge(table, xs) <==> exists u :: u in xs && f in Own(table, u)
    decreases |xs|
  {
    if xs != [] {
      MergeKeys(table, xs[1..], f);
      if u :| u in xs && f in Own(table, u) {
        assert u == xs[0] || u in xs[1..];
      }
    }
  }

  /** A merge sees the first occurrences only. */
  lemma {:induction false} MergeAddAll(table: Table, seen: seq<string>, xs: seq<string>)
    ensures Merge(table, AddAll(seen, xs)) == Merge(table, seen + xs)
    decreases |xs|
  {
    if xs == [] {
      assert seen + xs == seen;
    } else {
      var x := xs[0];
      MergeAddAll(table, Add(seen, x), xs[1..]);
      assert seen + xs == (seen + [x]) + xs[1..];
      if x in seen {
        MergeSeen(table, seen, x);
        MergeConcat(table, seen + [x], xs[1..]);
        MergeConcat(table, seen, xs[1..]);
      }
    }
  }

  lemma MergeSeen(table: Table, seen: seq<string>, x: string)
    requires x in seen
    ensures Merge(table, seen + [x]) == Merge(table, seen)
  {
    MergeConcat(table, seen, [x]);
    forall f | f in Own(table, x) ensures f in Merge(table, seen) {
      MergeKeys(table, seen, f);
    }
    assert Merge(table, [x]) == Own(table, x);
  }

  lemma MergeFirstOcc(table: Table, xs: seq<string>, ys: seq<string>)
    requires FirstOcc(xs) == FirstOcc(ys)
    ensures Merge(table, xs) == Merge(table, ys)
  {
    MergeAddAll(table, [], xs);
    MergeAddAll(table, [], ys);
    assert [] + xs == xs && [] + ys == ys;
  }

  /** However often the arrays have grown: the lookup is the one along the reference list. */
  lemma LookupAfterAnyHistory(d: Known, rank: string -> nat, calls: seq<string>, table: Table, t: string)
    requires Ranked(d, rank)
    ensures Merge(table, [t] + Parents(Grow(History(d, rank, calls), rank, t), t)) == Lookup(d, rank, table, t)
  {
    ParentTypesAfterAnyHistory(d, rank, calls, t);
    LookupFirstOcc(d, rank, table, t, Parents(Grow(History(d, rank, calls), rank, t), t));
  }

  lemma LookupFirstOcc(d: Known, rank: string -> nat, table: Table, t: string, list: seq<string>)
    requires Ranked(d, rank) && FirstOcc(list) == FirstOcc(Ancestors(d, rank, t))
    ensures Merge(table, [t] + list) == Lookup(d, rank, table, t)
  {
    MergeConcat(table, [t], list);
    MergeConcat(table, [t], Ancestors(d, rank, t));
    MergeFirstOcc(table, list, Ancestors(d, rank, t));
  }

  // ---- The sandwich: raw below stored below inherited ------------------------------------------------------

  ghost predicate AboveRaw(raw: Table, t: string, fields: Fields) {
    forall f :: f in Own(raw, t) ==> f in fields && fields[f] == raw[t][f]
  }

  ghost predicate BelowInherited(w: Known, rank: string -> nat, raw: Table, t: string, fields: Fields)
    requires Ranked(w, rank)
  {
    forall f :: f in fields ==> Inherits(w, rank, raw, t, f, fields[f])
  }

  ghost predicate Sandwich(w: Known, rank: string -> nat, raw: Table, table: Table)
    requires Ranked(w, rank)
  {
    && table.Keys == raw.Keys
    && (forall t :: AboveRaw(raw, t, Own(table, t)))
    && (forall t :: BelowInherited(w, rank, raw, t, Own(table, t)))
  }

  lemma RawIsSandwiched(w: Known, rank: string -> nat, raw: Table)
    requires Ranked(w, rank)
    ensures Sandwich(w, rank, raw, raw)
  {
  }

  /** What a resolution finds is inherited, and for a recognized type includes the raw fields. */
  lemma {:induction false} ResolveSound(w: Known, rank: string -> nat, raw: Table, table: Table, done: seq<string>,
                                        t: string)
    requires Ranked(w, rank) && Sandwich(w, rank, raw, table)
    requires forall u :: u in done ==> u in w
    ensures BelowInherited(w, rank, raw, t, FieldsOf(Resolve(w, rank, table, done, t).0))
    ensures t in w ==> AboveRaw(raw, t, FieldsOf(Resolve(w, rank, table, done, t).0))
    ensures forall u :: u in Resolve(w, rank, table, done, t).1 ==> u in w
    decreases rank(t), 1, 0
  {
    assert AboveRaw(raw, t, Own(table, t)) && BelowInherited(w, rank, raw, t, Own(table, t));
    if t !in done && t in w && w[t].Some? {
      ResolveAllSound(w, rank, raw, table, done, t, Parents(w, t), map[]);
    }
  }

  /** The fields collected from the parents `ps`: each is inherited by some parent of `t`. */
  ghost predicate FromParents(w: Known, rank: string -> nat, raw: Table, t: string, fields: Fields)
    requires Ranked(w, rank)
  {
    forall f :: f in fields ==> exists p :: p in Parents(w, t) && Inherits(w, rank, raw, p, f, fields[f])
  }

  lemma {:induction false} ResolveAllSound(w: Known, rank: string -> nat, raw: Table, table: Table, done: seq<string>,
                                           t: string,
                                           ps: seq<string>, acc: Fields)
    requires Ranked(w, rank) && Sandwich(w, rank, raw, table)
    requires forall u :: u in done ==> u in w
    requires forall p :: p in ps ==> p in Parents(w, t)
    requires FromParents(w, rank, raw, t, acc)
    ensures forall p :: p in ps ==> rank(p) < rank(t)
    ensures FromParents(w, rank, raw, t, ResolveAll(w, rank, table, done, t, ps, acc).0)
    ensures forall u :: u in ResolveAll(w, rank, table, done, t, ps, acc).1 ==> u in w
    decreases rank(t), 0, |ps|
  {
    if ps != [] {
      var p := ps[0];
      var (found, done1) := Resolve(w, rank, table, done, p);
      ResolveSound(w, rank, raw, table, done, p);
      ResolveAllSound(w, rank, raw, table, done1, t, ps[1..], acc + FieldsOf(found));
    }
  }

  lemma StoreSound(w: Known, rank: string -> nat, raw: Table, table: Table, t: string, found: Option<Fields>)
    requires Ranked(w, rank) && Sandwich(w, rank, raw, table) && t in raw
    requires found.Some? ==> AboveRaw(raw, t, found.value) && BelowInherited(w, rank, raw, t, found.value)
    ensures Sandwich(w, rank, raw, Store(table, t, found))
  {
    var stored := Store(table, t, found);
    forall u ensures AboveRaw(raw, u, Own(stored, u)) && BelowInherited(w, rank, raw, u, Own(stored, u)) {
      assert AboveRaw(raw, u, Own(table, u)) && BelowInherited(w, rank, raw, u, Own(table, u));
      assert u != t ==> Own(stored, u) == Own(table, u);
    }
  }

  lemma {:induction false} SetAllSound(w: Known, rank: string -> nat, raw: Table, table: Table, done: seq<string>,
                                       keys: seq<string>)
    requires Ranked(w, rank) && Sandwich(w, rank, raw, table)
    requires forall u :: u in done ==> u in w
    requires forall t :: t in keys ==> t in raw
    ensures Sandwich(w, rank, raw, SetAll(w, rank, table, done, keys).0)
    decreases |keys|
  {
    if keys != [] {
      var t := keys[0];
      var (found, done1) := Resolve(w, rank, table, done, t);
      ResolveSound(w, rank, raw, table, done, t);
      ResolveSomeRecognized(w, rank, table, done, t);
      StoreSound(w, rank, raw, table, t, found);
      SetAllSound(w, rank, raw, Store(table, t, found), done1, keys[1..]);
    }
  }

  lemma ResolveSomeRecognized(w: Known, rank: string -> nat, table: Table, done: seq<string>, t: string)
    requires Ranked(w, rank) && (forall u :: u in done ==> u in w)
    ensures Resolve(w, rank, table, done, t).0.Some? ==> t in w
  {
  }

  /**
    At every step of `setData`, whatever the key order: raw below stored below inherited; no type gains or loses its
    entry.
   */
  lemma SetDataSandwich(w: Known, rank: string -> nat, raw: Table, keys: seq<string>)
    requires Ranked(w, rank) && Enumerates(keys, raw)
    ensures Sandwich(w, rank, raw, ResolvedTable(w, rank, raw, keys))
    ensures ResolvedTable(w, rank, raw, keys).Keys == raw.Keys
  {
    RawIsSandwiched(w, rank, raw);
    SetAllSound(w, rank, raw, raw, [], keys);
  }

  // ---- Known types only ------------------------------------------------------------------------------------

  /** `v` is the raw value of `f` at `t`, or at a type that a path of known types reaches, unhidden on that path. */
  ghost predicate Collected(w: Known, rank: string -> nat, raw: Table, t: string, f: string, v: Value)
    requires Ranked(w, rank)
    decreases rank(t)
  {
    if f in Own(raw, t) then raw[t][f] == v
    else exists p :: p in Parents(w, t) && p in w && Collected(w, rank, raw, p, f, v)
  }

  ghost predicate AllCollected(w: Known, rank: string -> nat, raw: Table, t: string, fields: Fields)
    requires Ranked(w, rank)
  {
    forall f :: f in fields ==> Collected(w, rank, raw, t, f, fields[f])
  }

  ghost predicate EntriesCollected(w: Known, rank: string -> nat, raw: Table, table: Table)
    requires Ranked(w, rank)
  {
    && (forall t :: AboveRaw(raw, t, Own(table, t)))
    && (forall t :: AllCollected(w, rank, raw, t, Own(table, t)))
  }

  ghost predicate FromKnownParents(w: Known, rank: string -> nat, raw: Table, t: string, fields: Fields)
    requires Ranked(w, rank)
  {
    forall f :: f in fields ==> exists p :: p in Parents(w, t) && p in w && Collected(w, rank, raw, p, f, fields[f])
  }

  /** A resolution finds nothing for an unknown type, and collects from known ones only. */
  lemma {:induction false} ResolveCollects(w: Known, rank: string -> nat, raw: Table, table: Table, done: seq<string>,
                                           t: string)
    requires Ranked(w, rank) && EntriesCollected(w, rank, raw, table)
    requires forall u :: u in done ==> u in w
    ensures AllCollected(w, rank, raw, t, FieldsOf(Resolve(w, rank, table, done, t).0))
    ensures t !in w ==> Resolve(w, rank, table, done, t).0 == None
    ensures forall u :: u in Resolve(w, rank, table, done, t).1 ==> u in w
    decreases rank(t), 1, 0
  {
    assert AboveRaw(raw, t, Own(table, t)) && AllCollected(w, rank, raw, t, Own(table, t));
    if t !in done && t in w && w[t].Some? {
      ResolveAllCollects(w, rank, raw, table, done, t, Parents(w, t), map[]);
    }
  }

  lemma {:induction false} ResolveAllCollects(w: Known, rank: string -> nat, raw: Table, table: Table,
                                              done: seq<string>, t: string, ps: seq<string>, acc: Fields)
    requires Ranked(w, rank) && EntriesCollected(w, rank, raw, table)
    requires forall u :: u in done ==> u in w
    requires forall p :: p in ps ==> p in Parents(w, t)
    requires FromKnownParents(w, rank, raw, t, acc)
    ensures forall p :: p in ps ==> rank(p) < rank(t)
    ensures FromKnownParents(w, rank, raw, t, ResolveAll(w, rank, table, done, t, ps, acc).0)
    ensures forall u :: u in ResolveAll(w, rank, table, done, t, ps, acc).1 ==> u in w
    decreases rank(t), 0, |ps|
  {
    if ps != [] {
      var p := ps[0];
      var (found, done1) := Resolve(w, rank, table, done, p);
      ResolveCollects(w, rank, raw, table, done, p);
      ResolveAllCollects(w, rank, raw, table, done1, t, ps[1..], acc + FieldsOf(found));
    }
  }

  lemma StoreCollects(w: Known, rank: string -> nat, raw: Table, table: Table, t: string, found: Option<Fields>)
    requires Ranked(w, rank) && EntriesCollected(w, rank, raw, table) && t in raw
    requires found.Some? ==> AboveRaw(raw, t, found.value) && AllCollected(w, rank, raw, t, found.value)
    ensures EntriesCollected(w, rank, raw, Store(table, t, found))
  {
    var stored := Store(table, t, found);
    forall u ensures AboveRaw(raw, u, Own(stored, u)) && AllCollected(w, rank, raw, u, Own(stored, u)) {
      assert AboveRaw(raw, u, Own(table, u)) && AllCollected(w, rank, raw, u, Own(table, u));
      assert u != t ==> Own(stored, u) == Own(table, u);
    }
  }

  lemma {:induction false} SetAllCollects(w: Known, rank: string -> nat, raw: Table, table: Table, done: seq<string>,
                                          keys: seq<string>)
    requires Ranked(w, rank) && EntriesCollected(w, rank, raw, table) && Sandwich(w, rank, raw, table)
    requires forall u :: u in done ==> u in w
    requires forall t :: t in keys ==> t in raw
    ensures EntriesCollected(w, rank, raw, SetAll(w, rank, table, done, keys).0)
    decreases |keys|
  {
    if keys != [] {
      var t := keys[0];
      var (found, done1) := Resolve(w, rank, table, done, t);
      ResolveSound(w, rank, raw, table, done, t);
      ResolveCollects(w, rank, raw, table, done, t);
      StoreSound(w, rank, raw, table, t, found);
      StoreCollects(w, rank, raw, table, t, found);
      SetAllCollects(w, rank, raw, Store(table, t, found), done1, keys[1..]);
    }
  }

  /** What is stored for a type comes from known types: overwrites of an unknown one reach no other entry. */
  lemma StoredFromKnown(w: Known, rank: string -> nat, raw: Table, keys: seq<string>, t: string)
    requires Ranked(w, rank) && Enumerates(keys, raw)
    ensures AllCollected(w, rank, raw, t, Own(ResolvedTable(w, rank, raw, keys), t))
    ensures t !in w ==> Own(ResolvedTable(w, rank, raw, keys), t) == Own(raw, t)
  {
    RawIsSandwiched(w, rank, raw);
    SetAllCollects(w, rank, raw, raw, [], keys);
    SetDataSandwich(w, rank, raw, keys);
    var stored := Own(ResolvedTable(w, rank, raw, keys), t);
    assert AllCollected(w, rank, raw, t, stored) && AboveRaw(raw, t, stored);
    if t !in w {
      forall f ensures f in stored <==> f in Own(raw, t) {
        assert f in stored ==> Collected(w, rank, raw, t, f, stored[f]);
      }
    }
  }

  // ---- Lookups, for any number of parents ------------------------------------------------------------------

  lemma InheritsFromParent(w: Known, rank: string -> nat, raw: Table, t: string, p: string, f: string, v: Value)
    requires Ranked(w, rank) && p in Parents(w, t) && Inherits(w, rank, raw, p, f, v) && f !in Own(raw, t)
    ensures Inherits(w, rank, raw, t, f, v)
  {
  }

  /** A field found along the ancestor list comes by a path that no nearer definition blocks. */
  lemma {:induction false} LookupInherits(d: Known, w: Known, rank: string -> nat, raw: Table, table: Table,
                                          t: string, f: string)
    requires Similar(d, w, rank) && Sandwich(w, rank, raw, table)
    requires f in Lookup(d, rank, table, t)
    ensures Inherits(w, rank, raw, t, f, Lookup(d, rank, table, t)[f])
    decreases rank(t), 1, 0
  {
    var v := Lookup(d, rank, table, t)[f];
    MergeConcat(table, [t], Ancestors(d, rank, t));
    assert Merge(table, [t]) == Own(table, t);
    assert AboveRaw(raw, t, Own(table, t)) && BelowInherited(w, rank, raw, t, Own(table, t));
    if f !in Own(table, t) {
      var direct := Parents(d, t);
      MergeConcat(table, direct, AncestorsOfAll(d, rank, t, direct));
      if f in Merge(table, direct) {
        var p := FirstDefiner(table, direct, f);
        assert BelowInherited(w, rank, raw, p, Own(table, p));
        InheritsFromParent(w, rank, raw, t, p, f, v);
      } else {
        LookupAllInherits(d, w, rank, raw, table, t, direct, f);
      }
    }
  }

  /** The leftmost type of the list whose entry defines `f` decides the merge. */
  lemma {:induction false} FirstDefiner(table: Table, xs: seq<string>, f: string) returns (u: string)
    requires f in Merge(table, xs)
    ensures u in xs && f in Own(table, u) && Own(table, u)[f] == Merge(table, xs)[f]
    decreases |xs|
  {
    if f in Own(table, xs[0]) {
      u := xs[0];
    } else {
      u := FirstDefiner(table, xs[1..], f);
    }
  }

  lemma LookupSkipsOwn(d: Known, rank: string -> nat, table: Table, t: string, f: string)
    requires Ranked(d, rank) && f !in Own(table, t)
    ensures Field(Lookup(d, rank, table, t), f) == Field(Merge(table, Ancestors(d, rank, t)), f)
  {
    MergeConcat(table, [t], Ancestors(d, rank, t));
    assert Merge(table, [t]) == Own(table, t);
  }

  lemma {:induction false} LookupAllInherits(d: Known, w: Known, rank: string -> nat, raw: Table, table: Table,
                                             t: string,
                                             ps: seq<string>, f: string)
    requires Similar(d, w, rank) && Sandwich(w, rank, raw, table)
    requires forall p :: p in ps ==> p in Parents(d, t)
    requires f !in Own(raw, t) && f !in Merge(table, ps)
    ensures forall p :: p in ps ==> rank(p) < rank(t)
    ensures f in Merge(table, AncestorsOfAll(d, rank, t, ps))
        ==> Inherits(w, rank, raw, t, f, Merge(table, AncestorsOfAll(d, rank, t, ps))[f])
    decreases rank(t), 0, |ps|
  {
    if ps != [] && f in Merge(table, AncestorsOfAll(d, rank, t, ps)) {
      var p, rest := ps[0], ps[1..];
      MergeConcat(table, Ancestors(d, rank, p), AncestorsOfAll(d, rank, t, rest));
      assert p in Parents(d, t) && p in Parents(w, t);
      if f in Merge(table, Ancestors(d, rank, p)) {
        LookupSkipsOwn(d, rank, table, p, f);
        LookupInherits(d, w, rank, raw, table, p, f);
        InheritsFromParent(w, rank, raw, t, p, f, Lookup(d, rank, table, p)[f]);
      } else {
        LookupAllInherits(d, w, rank, raw, table, t, rest, f);
      }
    }
  }

  /** The ancestor lists of several types find what the first of them finds, or else what the others do. */
  lemma FirstOrOthers(d: Known, rank: string -> nat, table: Table, t: string, p: string, rest: seq<string>, f: string)
    requires Ranked(d, rank) && rank(p) < rank(t) && forall q :: q in rest ==> rank(q) < rank(t)
    requires f !in Own(table, p)
    ensures forall q :: q in [p] + rest ==> rank(q) < rank(t)
    ensures Field(Merge(table, AncestorsOfAll(d, rank, t, [p] + rest)), f)
         == if f in Lookup(d, rank, table, p) then Field(Lookup(d, rank, table, p), f)
            else Field(Merge(table, AncestorsOfAll(d, rank, t, rest)), f)
  {
    AncestorsOfHead(d, rank, t, [p] + rest, p, rest);
    LookupSkipsOwn(d, rank, table, p, f);
    MergeConcat(table, Ancestors(d, rank, p), AncestorsOfAll(d, rank, t, rest));
  }

  lemma {:induction false} FirstOfAll(d: Known, rank: string -> nat, table: Table, t: string, ps: seq<string>, i: nat,
                                      f: string)
    requires Ranked(d, rank) && i < |ps| && forall p :: p in ps ==> rank(p) < rank(t)
    requires forall p :: p in ps ==> f !in Own(table, p)
    requires forall j :: 0 <= j < i ==> f !in Lookup(d, rank, table, ps[j])
    requires f in Lookup(d, rank, table, ps[i])
    ensures Field(Merge(table, AncestorsOfAll(d, rank, t, ps)), f) == Field(Lookup(d, rank, table, ps[i]), f)
    decreases |ps|
  {
    var p, rest := ps[0], ps[1..];
    assert ps == [p] + rest;
    assert p in ps && forall q :: q in rest ==> q in ps;
    FirstOrOthers(d, rank, table, t, p, rest, f);
    if i > 0 {
      assert forall j :: 0 <= j < i - 1 ==> rest[j] == ps[j + 1];
      FirstOfAll(d, rank, table, t, rest, i - 1, f);
    }
  }

  /**
    The order of a lookup with several parents: a field that neither the type nor a parent defines itself comes from the
    first parent whose own lookup finds it.
   */
  lemma EarlierParentWins(d: Known, rank: string -> nat, table: Table, t: string, i: nat, f: string)
    requires Ranked(d, rank) && i < |Parents(d, t)| && f !in Own(table, t)
    requires forall p :: p in Parents(d, t) ==> f !in Own(table, p)
    requires forall j :: 0 <= j < i ==> f !in Lookup(d, rank, table, Parents(d, t)[j])
    requires f in Lookup(d, rank, table, Parents(d, t)[i])
    ensures Field(Lookup(d, rank, table, t), f) == Field(Lookup(d, rank, table, Parents(d, t)[i]), f)
  {
    var ps := Parents(d, t);
    LookupSkipsOwn(d, rank, table, t, f);
    MergeConcat(table, ps, AncestorsOfAll(d, rank, t, ps));
    MergeKeys(table, ps, f);
    FirstOfAll(d, rank, table, t, ps, i, f);
  }

  /** An inherited value is a raw value of the type or an ancestor. */
  lemma {:induction false} InheritsFromFamily(d: Known, w: Known, rank: string -> nat, raw: Table, t: string,
                                              f: string, v: Value)
    returns (u: string)
    requires Similar(d, w, rank) && Inherits(w, rank, raw, t, f, v)
    ensures InFamily(d, rank, t, u) && f in Own(raw, u) && raw[u][f] == v
    decreases rank(t)
  {
    if f in Own(raw, t) {
      u := t;
    } else {
      var p :| p in Parents(w, t) && Inherits(w, rank, raw, p, f, v);
      u := InheritsFromFamily(d, w, rank, raw, p, f, v);
      if u != p {
        AncestorsTransitive(d, rank, t, p, u);
      }
    }
  }

  /**
    For every acyclic relation, table, key order and later history: a lookup has exactly the fields that the type or
    an ancestor defines; each value is the raw value of one of them that no nearer definition on some path hides; and
    the type's own raw values win.
   */
  lemma LookupAfterSetData(d: Known, w: Known, rank: string -> nat, raw: Table, keys: seq<string>, list: seq<string>,
                           t: string)
    requires Similar(d, w, rank) && Enumerates(keys, raw)
    requires FirstOcc(list) == FirstOcc(Ancestors(d, rank, t))
    ensures var found := Merge(ResolvedTable(w, rank, raw, keys), [t] + list);
            && (forall f :: f in found <==> exists u :: InFamily(d, rank, t, u) && f in Own(raw, u))
            && (forall f :: f in found ==> Inherits(w, rank, raw, t, f, found[f]))
            && (forall f :: f in Own(raw, t) ==> found[f] == raw[t][f])
  {
    var table := ResolvedTable(w, rank, raw, keys);
    SetDataSandwich(w, rank, raw, keys);
    LookupFirstOcc(d, rank, table, t, list);
    LookupSandwiched(d, w, rank, raw, table, t);
  }

  lemma LookupSandwiched(d: Known, w: Known, rank: string -> nat, raw: Table, table: Table, t: string)
    requires Similar(d, w, rank) && Sandwich(w, rank, raw, table)
    ensures forall f :: f in Lookup(d, rank, table, t) <==> exists u :: InFamily(d, rank, t, u) && f in Own(raw, u)
    ensures forall f :: f in Lookup(d, rank, table, t) ==> Inherits(w, rank, raw, t, f, Lookup(d, rank, table, t)[f])
  {
    var family := [t] + Ancestors(d, rank, t);
    forall f ensures f in Lookup(d, rank, table, t) <==> exists u :: InFamily(d, rank, t, u) && f in Own(raw, u) {
      MergeKeys(table, family, f);
      if f in Lookup(d, rank, table, t) {
        LookupInherits(d, w, rank, raw, table, t, f);
        var u := InheritsFromFamily(d, w, rank, raw, t, f, Lookup(d, rank, table, t)[f]);
      }
      if u :| InFamily(d, rank, t, u) && f in Own(raw, u) {
        assert AboveRaw(raw, u, Own(table, u));
        assert u in family;
      }
    }
    forall f | f in Lookup(d, rank, table, t) ensures Inherits(w, rank, raw, t, f, Lookup(d, rank, table, t)[f]) {
      LookupInherits(d, w, rank, raw, table, t, f);
    }
  }
}
