/**
  When the ancestry of a type is a chain, a lookup is "the nearest type that defines the field wins", and only then:
  for any other ancestry some table makes `setData` change what a lookup finds.
 */
module SingleInheritance {
  import opened Options
  import opened FirstOccurrence
  import opened CredentialTypes
  import opened OverwriteRules
  import opened OverwriteTheorems

  // ---- A chain: the nearest definition wins ----------------------------------------------------------------

  /** On a chain there is one inherited value at most: the nearest one. */
  lemma {:induction false} InheritsOnChain(w: Known, rank: string -> nat, raw: Table, t: string, f: string, v: Value)
    requires Ranked(w, rank) && Linear(w, rank, t)
    ensures Inherits(w, rank, raw, t, f, v) <==> Nearest(w, rank, raw, t, f) == Some(v)
    decreases rank(t)
  {
    if f !in Own(raw, t) && Parents(w, t) != [] {
      InheritsOnChain(w, rank, raw, Parents(w, t)[0], f, v);
    }
  }

  lemma {:induction false} NearestDefinedInFamily(d: Known, w: Known, rank: string -> nat, raw: Table, t: string,
                                                  f: string)
    requires Similar(d, w, rank) && Linear(w, rank, t)
    ensures Nearest(w, rank, raw, t, f).Some? <==> exists u :: InFamily(d, rank, t, u) && f in Own(raw, u)
    decreases rank(t)
  {
    if Nearest(w, rank, raw, t, f).Some? {
      InheritsOnChain(w, rank, raw, t, f, Nearest(w, rank, raw, t, f).value);
      var u := InheritsFromFamily(d, w, rank, raw, t, f, Nearest(w, rank, raw, t, f).value);
    }
    if u :| InFamily(d, rank, t, u) && f in Own(raw, u) {
      if u != t {
        AncestorsOfAllMembers(d, rank, t, Parents(d, t), u);
        var p :| p in Parents(d, t) && InFamily(d, rank, p, u);
        assert p == Parents(w, t)[0];
        NearestDefinedInFamily(d, w, rank, raw, p, f);
      }
    }
  }

  /** A lookup in any table between the raw one and the inherited values obeys the rule. */
  lemma LookupOnChain(d: Known, w: Known, rank: string -> nat, raw: Table, table: Table, t: string, f: string)
    requires Similar(d, w, rank) && Sandwich(w, rank, raw, table) && Linear(w, rank, t)
    ensures Field(Lookup(d, rank, table, t), f) == Nearest(w, rank, raw, t, f)
  {
    LookupSandwiched(d, w, rank, raw, table, t);
    NearestDefinedInFamily(d, w, rank, raw, t, f);
    if f in Lookup(d, rank, table, t) {
      InheritsOnChain(w, rank, raw, t, f, Lookup(d, rank, table, t)[f]);
    }
  }

  lemma SimilarToItself(d: Known, rank: string -> nat)
    requires Ranked(d, rank)
    ensures Similar(d, d, rank)
  {
  }

  /**
    The rule: for every table, every key order in which `setData` visits it along the arrays `w`, and every history of
    ancestor queries before the lookup, a type whose ancestry is a chain gets each field from the nearest type that
    defines it. The arrays walked may be the declared ones or grown ones.
   */
  lemma NearestTypeWins(d: Known, w: Known, rank: string -> nat, raw: Table, keys: seq<string>, calls: seq<string>,
                        t: string, f: string)
    requires Similar(d, w, rank) && Enumerates(keys, raw) && Linear(w, rank, t)
    ensures var list := Parents(Grow(History(d, rank, calls), rank, t), t);
            Field(Merge(ResolvedTable(w, rank, raw, keys), [t] + list), f) == Nearest(w, rank, raw, t, f)
  {
    LookupAfterAnyHistory(d, rank, calls, ResolvedTable(w, rank, raw, keys), t);
    SetDataSandwich(w, rank, raw, keys);
    LookupOnChain(d, w, rank, raw, ResolvedTable(w, rank, raw, keys), t, f);
  }

  /** Applying `setData` to the table it produced changes no lookup on a chain, whatever the two key orders. */
  lemma SetDataAgain(d: Known, rank: string -> nat, raw: Table, keys: seq<string>, again: seq<string>, t: string)
    requires Ranked(d, rank) && Enumerates(keys, raw) && Linear(d, rank, t)
    requires Enumerates(again, ResolvedTable(d, rank, raw, keys))
    ensures var once := ResolvedTable(d, rank, raw, keys);
            && ResolvedTable(d, rank, once, again).Keys == raw.Keys
            && Lookup(d, rank, ResolvedTable(d, rank, once, again), t) == Lookup(d, rank, once, t)
  {
    var once := ResolvedTable(d, rank, raw, keys);
    var twice := ResolvedTable(d, rank, once, again);
    SetDataSandwich(d, rank, raw, keys);
    SetDataSandwich(d, rank, once, again);
    SimilarToItself(d, rank);
    forall f ensures Field(Lookup(d, rank, twice, t), f) == Field(Lookup(d, rank, once, t), f) {
      LookupOnChain(d, d, rank, raw, once, t, f);
      LookupOnChain(d, d, rank, once, twice, t, f);
      NearestInStored(d, rank, raw, once, t, f);
    }
    SameFields(Lookup(d, rank, twice, t), Lookup(d, rank, once, t));
  }

  lemma {:induction false} NearestInStored(d: Known, rank: string -> nat, raw: Table, table: Table, t: string,
                                           f: string)
    requires Ranked(d, rank) && Sandwich(d, rank, raw, table) && Linear(d, rank, t)
    ensures Nearest(d, rank, table, t, f) == Nearest(d, rank, raw, t, f)
    decreases rank(t)
  {
    assert AboveRaw(raw, t, Own(table, t)) && BelowInherited(d, rank, raw, t, Own(table, t));
    if f in Own(table, t) {
      InheritsOnChain(d, rank, raw, t, f, table[t][f]);
    } else if Parents(d, t) != [] {
      NearestInStored(d, rank, raw, table, Parents(d, t)[0], f);
    }
  }

  lemma SameFields(a: Fields, b: Fields)
    requires forall f :: Field(a, f) == Field(b, f)
    ensures a == b
  {
    forall f ensures f in a <==> f in b {
      assert Field(a, f) == Field(b, f);
    }
    forall f | f in a ensures a[f] == b[f] {
      assert Field(a, f) == Field(b, f);
    }
  }

  // ---- No chain: some table disagrees ----------------------------------------------------------------------

  /** `setData` leaves every lookup of `t` as it is in the raw table, whatever the table and its key order. */
  ghost predicate Transparent(d: Known, w: Known, rank: string -> nat, t: string)
    requires Ranked(d, rank) && Ranked(w, rank)
  {
    forall raw, keys :: Enumerates(keys, raw)
      ==> Lookup(d, rank, ResolvedTable(w, rank, raw, keys), t) == Lookup(d, rank, raw, t)
  }

  /** An array that names two different types does not start and end with the same one. */
  ghost predicate EndsDiffer(ps: seq<string>) {
    (exists p :: p in ps && p != ps[0]) ==> ps[|ps| - 1] != ps[0]
  }

  ghost predicate NoRepeats(ps: seq<string>) {
    forall i, j :: 0 <= i < j < |ps| ==> ps[i] != ps[j]
  }

  /** Every declared parent is a known type, none is listed twice, and `w` are arrays of that relation. */
  ghost predicate WellDeclared(d: Known, w: Known, rank: string -> nat) {
    && Similar(d, w, rank) && w.Keys == d.Keys
    && (forall t, p :: p in Parents(d, t) ==> p in d)
    && (forall t :: NoRepeats(Parents(d, t)) && Parents(d, t) <= Parents(w, t) && EndsDiffer(Parents(w, t)))
  }

  /** The last parent wins while the table is resolved. */
  lemma {:induction false} LastParentWins(w: Known, rank: string -> nat, table: Table, done: seq<string>, t: string,
                                          ps: seq<string>, acc: Fields, f: string)
    requires Ranked(w, rank) && ps != []
    requires forall p :: p in ps ==> p in Parents(w, t)
    requires forall u :: u in done ==> u in w
    requires ps[|ps| - 1] in w && f in Own(table, ps[|ps| - 1])
    ensures forall p :: p in ps ==> rank(p) < rank(t)
    ensures var fields := ResolveAll(w, rank, table, done, t, ps, acc).0;
            f in fields && fields[f] == table[ps[|ps| - 1]][f]
    decreases |ps|
  {
    var p := ps[0];
    var (found, done1) := Resolve(w, rank, table, done, p);
    RawIsSandwiched(w, rank, table);
    ResolveSound(w, rank, table, table, done, p);
    if |ps| > 1 {
      LastParentWins(w, rank, table, done1, t, ps[1..], acc + FieldsOf(found), f);
    } else {
      assert ResolveAll(w, rank, table, done, t, ps, acc)
          == ResolveAll(w, rank, table, done1, t, [], acc + FieldsOf(found));
    }
  }

  lemma {:induction false} SetAllKeepsOthers(w: Known, rank: string -> nat, table: Table, done: seq<string>,
                                             keys: seq<string>, t: string)
    requires Ranked(w, rank) && t !in keys
    ensures Own(SetAll(w, rank, table, done, keys).0, t) == Own(table, t)
    decreases |keys|
  {
    if keys != [] {
      var (found, done1) := Resolve(w, rank, table, done, keys[0]);
      assert keys[0] in keys;
      SetAllKeepsOthers(w, rank, Store(table, keys[0], found), done1, keys[1..], t);
    }
  }

  const FIELD := "scope"

  /** A table with an entry for `t` that lacks the field, and two other types that define it differently. */
  function Quarrel(t: string, p: string, q: string): Table {
    map[t := map["own" := Null], p := map[FIELD := Text("first")], q := map[FIELD := Text("last")]]
  }

  /** The type visited first comes to hold the value of its last parent. */
  lemma FirstVisitedStores(w: Known, rank: string -> nat, raw: Table, t: string, rest: seq<string>, f: string)
    requires Ranked(w, rank) && t in w && t in raw && t !in rest && f !in raw[t]
    requires Parents(w, t) != [] && Parents(w, t)[|Parents(w, t)| - 1] in w
    requires f in Own(raw, Parents(w, t)[|Parents(w, t)| - 1])
    ensures Field(Own(ResolvedTable(w, rank, raw, [t] + rest), t), f)
         == Some(raw[Parents(w, t)[|Parents(w, t)| - 1]][f])
  {
    LastParentWins(w, rank, raw, [], t, Parents(w, t), map[], f);
    var (found, done1) := Resolve(w, rank, raw, [], t);
    assert f in found.value.Keys;
    SetAllKeepsOthers(w, rank, Store(raw, t, found), done1, rest, t);
    assert ([t] + rest)[1..] == rest;
  }

  lemma LookupOwnFirst(d: Known, rank: string -> nat, table: Table, t: string, f: string)
    requires Ranked(d, rank)
    ensures f in Own(table, t) ==> Field(Lookup(d, rank, table, t), f) == Some(table[t][f])
    ensures f !in Own(table, t) && Parents(d, t) != [] && f in Own(table, Parents(d, t)[0])
        ==> Field(Lookup(d, rank, table, t), f) == Some(table[Parents(d, t)[0]][f])
  {
    MergeConcat(table, [t], Ancestors(d, rank, t));
    assert Merge(table, [t]) == Own(table, t);
    if Parents(d, t) != [] {
      assert Ancestors(d, rank, t)[0] == Parents(d, t)[0];
    }
  }

  lemma FirstAndLastParent(d: Known, w: Known, rank: string -> nat, t: string)
    requires WellDeclared(d, w, rank) && Parents(d, t) != []
    ensures Parents(d, t) <= Parents(w, t) && t in w
    ensures var ps := Parents(w, t);
            && ps[0] == Parents(d, t)[0] && ps[|ps| - 1] in w
            && rank(ps[0]) < rank(t) && rank(ps[|ps| - 1]) < rank(t)
  {
    assert Parents(d, t) <= Parents(w, t);
    var p, q := Parents(w, t)[0], Parents(w, t)[|Parents(w, t)| - 1];
    assert p in Parents(w, t) && q in Parents(w, t);
    AncestorsKnown(d, w, rank, t, q);
  }

  /**
    Two parents, one first and one last: the stored entry takes the value of the last, the ancestor list finds the
    first.
   */
  lemma TwoParentsDisagree(d: Known, w: Known, rank: string -> nat, t: string) returns (raw: Table, keys: seq<string>)
    requires WellDeclared(d, w, rank)
    requires Parents(d, t) != [] && Parents(w, t)[|Parents(w, t)| - 1] != Parents(w, t)[0]
    ensures Enumerates(keys, raw) && forall u :: u in raw ==> rank(u) <= rank(t)
    ensures Field(Lookup(d, rank, ResolvedTable(w, rank, raw, keys), t), FIELD) == Some(Text("last"))
    ensures Field(Lookup(d, rank, raw, t), FIELD) == Some(Text("first"))
  {
    FirstAndLastParent(d, w, rank, t);
    var ps := Parents(w, t);
    raw, keys := QuarrelLookups(d, w, rank, t, ps[0], ps[|ps| - 1]);
  }

  lemma QuarrelLookups(d: Known, w: Known, rank: string -> nat, t: string, p: string, q: string)
    returns (raw: Table, keys: seq<string>)
    requires Ranked(d, rank) && Ranked(w, rank) && t in w && q in w && p != q
    requires rank(p) < rank(t) && rank(q) < rank(t)
    requires Parents(d, t) != [] && Parents(d, t)[0] == p
    requires Parents(w, t) != [] && Parents(w, t)[|Parents(w, t)| - 1] == q
    ensures Enumerates(keys, raw) && forall u :: u in raw ==> rank(u) <= rank(t)
    ensures Field(Lookup(d, rank, ResolvedTable(w, rank, raw, keys), t), FIELD) == Some(Text("last"))
    ensures Field(Lookup(d, rank, raw, t), FIELD) == Some(Text("first"))
  {
    raw, keys := Quarrel(t, p, q), [t, p, q];
    FirstVisitedStores(w, rank, raw, t, [p, q], FIELD);
    assert [t] + [p, q] == keys;
    LookupOwnFirst(d, rank, ResolvedTable(w, rank, raw, keys), t, FIELD);
    LookupOwnFirst(d, rank, raw, t, FIELD);
  }

  lemma {:induction false} AncestorsKnown(d: Known, w: Known, rank: string -> nat, t: string, u: string)
    requires WellDeclared(d, w, rank) && u in Ancestors(d, rank, t)
    ensures u in d
    decreases rank(t)
  {
    AncestorsOfAllMembers(d, rank, t, Parents(d, t), u);
    if u !in Parents(d, t) {
      var p :| p in Parents(d, t) && u in Ancestors(d, rank, p);
      AncestorsKnown(d, w, rank, p, u);
    }
  }

  /** From `t` up to `b`, every type extends one other type only. */
  ghost predicate Leads(w: Known, rank: string -> nat, t: string, b: string)
    requires Ranked(w, rank)
    decreases rank(t)
  {
    t == b ||
    (&& Parents(w, t) != []
     && (forall p :: p in Parents(w, t) ==> p == Parents(w, t)[0])
     && Leads(w, rank, Parents(w, t)[0], b))
  }

  /** No type on the way from `t` to `b` has an entry; `b` may have one. */
  ghost predicate Silent(w: Known, rank: string -> nat, table: Table, t: string, b: string)
    requires Ranked(w, rank) && Leads(w, rank, t, b)
    decreases rank(t)
  {
    t != b ==> t !in table && Silent(w, rank, table, Parents(w, t)[0], b)
  }

  lemma {:induction false} LeadsDown(w: Known, rank: string -> nat, t: string, b: string)
    requires Ranked(w, rank) && Leads(w, rank, t, b)
    ensures t == b || rank(b) < rank(t)
    decreases rank(t)
  {
    if t != b {
      assert Parents(w, t)[0] in Parents(w, t);
      LeadsDown(w, rank, Parents(w, t)[0], b);
    }
  }

  lemma {:induction false} LowIsSilent(w: Known, rank: string -> nat, table: Table, t: string, b: string)
    requires Ranked(w, rank) && Leads(w, rank, t, b)
    requires forall u :: u in table ==> rank(u) <= rank(b)
    ensures Silent(w, rank, table, t, b)
    decreases rank(t)
  {
    LeadsDown(w, rank, t, b);
    if t != b {
      assert Parents(w, t)[0] in Parents(w, t);
      LowIsSilent(w, rank, table, Parents(w, t)[0], b);
    }
  }

  /** Up an ancestry that is no chain, there is a first type with two parents. */
  lemma {:induction false} FirstBranching(w: Known, rank: string -> nat, t: string) returns (b: string)
    requires Ranked(w, rank) && !Linear(w, rank, t)
    ensures Leads(w, rank, t, b) && exists p :: p in Parents(w, b) && p != Parents(w, b)[0]
    decreases rank(t)
  {
    if p :| p in Parents(w, t) && p != Parents(w, t)[0] {
      b := t;
    } else {
      assert Parents(w, t)[0] in Parents(w, t);
      b := FirstBranching(w, rank, Parents(w, t)[0]);
    }
  }

  /** Types without an entry and with one parent pass the lookup on. */
  lemma {:induction false} LookupPassedOn(d: Known, w: Known, rank: string -> nat, table: Table, t: string, b: string)
    requires WellDeclared(d, w, rank) && Leads(w, rank, t, b) && Silent(w, rank, table, t, b)
    ensures Lookup(d, rank, table, t) == Lookup(d, rank, table, b)
    decreases rank(t)
  {
    if t != b {
      var p := Parents(w, t)[0];
      assert NoRepeats(Parents(d, t)) && Parents(d, t) <= Parents(w, t);
      assert p in Parents(w, t) && p in Ancestors(d, rank, t);
      NoParentsNoAncestors(d, rank, t);
      OnlyParent(d, rank, t, p);
      LookupAtOnlyParent(d, rank, table, t, p);
      LookupPassedOn(d, w, rank, table, p, b);
    }
  }

  lemma BranchingEndsDiffer(d: Known, w: Known, rank: string -> nat, b: string)
    requires WellDeclared(d, w, rank) && exists p :: p in Parents(w, b) && p != Parents(w, b)[0]
    ensures Parents(d, b) != [] && Parents(w, b)[|Parents(w, b)| - 1] != Parents(w, b)[0]
  {
    var ps := Parents(w, b);
    assert EndsDiffer(ps);
    assert ps[0] in ps;
    assert ps[0] in Ancestors(d, rank, b);
    NoParentsNoAncestors(d, rank, b);
  }

  /** An ancestry that is no chain has a table on which `setData` changes a lookup. */
  lemma NoChainDisagrees(d: Known, w: Known, rank: string -> nat, t: string) returns (raw: Table, keys: seq<string>)
    requires WellDeclared(d, w, rank) && !Linear(w, rank, t)
    ensures Enumerates(keys, raw)
    ensures Field(Lookup(d, rank, ResolvedTable(w, rank, raw, keys), t), FIELD) == Some(Text("last"))
    ensures Field(Lookup(d, rank, raw, t), FIELD) == Some(Text("first"))
  {
    var b := FirstBranching(w, rank, t);
    BranchingEndsDiffer(d, w, rank, b);
    raw, keys := TwoParentsDisagree(d, w, rank, b);
    var table := ResolvedTable(w, rank, raw, keys);
    SetDataSandwich(w, rank, raw, keys);
    LowIsSilent(w, rank, raw, t, b);
    LowIsSilent(w, rank, table, t, b);
    LookupPassedOn(d, w, rank, raw, t, b);
    LookupPassedOn(d, w, rank, table, t, b);
  }

  lemma NoParentsNoAncestors(d: Known, rank: string -> nat, t: string)
    requires Ranked(d, rank)
    ensures Parents(d, t) == [] ==> Ancestors(d, rank, t) == []
  {
  }

  lemma {:induction false} SameTwice(ps: seq<string>, p: string)
    requires NoRepeats(ps) && ps != [] && forall u :: u in ps ==> u == p
    ensures ps == [p]
  {
    var i := |ps| - 1;
    assert ps[i] in ps && ps[0] in ps;
  }

  lemma OnlyParent(d: Known, rank: string -> nat, t: string, p: string)
    requires Ranked(d, rank) && NoRepeats(Parents(d, t)) && Parents(d, t) != []
    requires forall u :: u in Parents(d, t) ==> u == p
    ensures Parents(d, t) == [p] && Ancestors(d, rank, t) == [p] + Ancestors(d, rank, p)
  {
    var ps := Parents(d, t);
    SameTwice(ps, p);
    OneList(d, rank, t, p);
  }

  lemma LookupAtOnlyParent(d: Known, rank: string -> nat, table: Table, t: string, p: string)
    requires Ranked(d, rank) && Ancestors(d, rank, t) == [p] + Ancestors(d, rank, p) && t !in table
    ensures Lookup(d, rank, table, t) == Lookup(d, rank, table, p)
  {
    MergeConcat(table, [t], Ancestors(d, rank, t));
  }

  /**
    `setData` leaves the lookups of a type as they are in the raw table, for all tables and key orders, exactly when
    the arrays it walks make the ancestry of that type a chain.
   */
  lemma TransparentIffLinear(d: Known, w: Known, rank: string -> nat, t: string)
    requires WellDeclared(d, w, rank)
    ensures Transparent(d, w, rank, t) <==> Linear(w, rank, t)
  {
    if Linear(w, rank, t) {
      forall raw, keys | Enumerates(keys, raw)
        ensures Lookup(d, rank, ResolvedTable(w, rank, raw, keys), t) == Lookup(d, rank, raw, t) {
        var table := ResolvedTable(w, rank, raw, keys);
        SetDataSandwich(w, rank, raw, keys);
        RawIsSandwiched(w, rank, raw);
        forall f ensures Field(Lookup(d, rank, table, t), f) == Field(Lookup(d, rank, raw, t), f) {
          LookupOnChain(d, w, rank, raw, table, t, f);
          LookupOnChain(d, w, rank, raw, raw, t, f);
        }
        SameFields(Lookup(d, rank, table, t), Lookup(d, rank, raw, t));
      }
    } else {
      var raw, keys := NoChainDisagrees(d, w, rank, t);
      assert Enumerates(keys, raw);
    }
  }

  // ---- Which arrays setData walks --------------------------------------------------------------------------

  lemma NoRepeatsEndsDiffer(ps: seq<string>)
    requires NoRepeats(ps)
    ensures EndsDiffer(ps)
  {
  }

  /** With arrays as declared: exactly single inheritance is transparent. */
  lemma DeclaredArraysAreWellDeclared(d: Known, rank: string -> nat)
    requires Ranked(d, rank) && (forall t :: NoRepeats(Parents(d, t)))
    requires forall t, p :: p in Parents(d, t) ==> p in d
    ensures WellDeclared(d, d, rank)
  {
    forall t ensures EndsDiffer(Parents(d, t)) {
      NoRepeatsEndsDiffer(Parents(d, t));
    }
  }

  /** The arrays of any state walk the same relation, if every declared ancestry is a chain. */
  lemma GrownChainsAreWellDeclared(d: Known, k: Known, rank: string -> nat, shared: set<string>)
    requires GrownFrom(d, k, rank)
    requires forall t, p :: p in Parents(d, t) ==> p in d
    requires forall t :: NoRepeats(Parents(d, t)) && Linear(d, rank, t)
    ensures WellDeclared(d, Walk(d, k, shared), rank)
  {
    var w := Walk(d, k, shared);
    forall t ensures Parents(d, t) <= Parents(w, t) && EndsDiffer(Parents(w, t))
                     && (forall p :: p in Parents(w, t) ==> p in Ancestors(d, rank, t) && rank(p) < rank(t)) {
      assert GrownArray(d, k, rank, t) && NoRepeats(Parents(d, t)) && Linear(d, rank, t);
      NoRepeatsEndsDiffer(Parents(d, t));
      if t in shared {
        GrownEnds(d, k, rank, t);
      } else {
        assert Parents(w, t) == Parents(d, t);
      }
    }
  }

  lemma GrownEnds(d: Known, k: Known, rank: string -> nat, t: string)
    requires GrownFrom(d, k, rank) && NoRepeats(Parents(d, t)) && Linear(d, rank, t)
    ensures EndsDiffer(Parents(k, t))
    ensures |Parents(k, t)| > 1 ==> Parents(k, t)[|Parents(k, t)| - 1] != Parents(k, t)[0]
    ensures forall p :: p in Parents(k, t) ==> p in Ancestors(d, rank, t) && rank(p) < rank(t)
  {
    assert GrownArray(d, k, rank, t);
    var direct, all := Parents(d, t), Parents(k, t);
    FirstOccMembers(all);
    FirstOccMembers(Ancestors(d, rank, t));
    forall p | p in all ensures p in Ancestors(d, rank, t) && rank(p) < rank(t) {
      assert p in FirstOcc(all);
      AncestorsRankLower(d, rank, t, p);
    }
    NoParentsNoAncestors(d, rank, t);
    if |all| > 1 {
      assert all[0] in all;
      var p := direct[0];
      OnlyParent(d, rank, t, p);
      assert all[0] == p;
      var last := all[|all| - 1];
      assert last == all[1..][|all| - 2];
      assert last in AncestorsOfAll(d, rank, t, [p]);
      OneList(d, rank, t, p);
      AncestorsRankLower(d, rank, p, last);
    }
  }

  /**
    Where the class array and the known array are one object, the growth breaks a later `setData`: once the array
    of a type with a single parent has grown, some table, set then, is looked up differently from the rule that
    held before.
   */
  lemma GrownSharedArrayBreaksSetData(d: Known, k: Known, rank: string -> nat, shared: set<string>, t: string)
    returns (raw: Table, keys: seq<string>)
    requires GrownFrom(d, k, rank)
    requires forall u, p :: p in Parents(d, u) ==> p in d
    requires forall u :: NoRepeats(Parents(d, u)) && Linear(d, rank, u)
    requires t in shared && |Parents(k, t)| > 1
    ensures Ranked(Walk(d, k, shared), rank) && Enumerates(keys, raw)
    ensures Field(Lookup(d, rank, ResolvedTable(Walk(d, k, shared), rank, raw, keys), t), FIELD) == Some(Text("last"))
    ensures Nearest(d, rank, raw, t, FIELD) == Some(Text("first"))
  {
    GrownChainsAreWellDeclared(d, k, rank, shared);
    GrownArrayEnds(d, k, rank, t);
    assert Parents(Walk(d, k, shared), t) == Parents(k, t);
    raw, keys := TwoParentsDisagree(d, Walk(d, k, shared), rank, t);
    RawLookupIsNearest(d, rank, raw, t, FIELD);
  }

  lemma RawLookupIsNearest(d: Known, rank: string -> nat, raw: Table, t: string, f: string)
    requires Ranked(d, rank) && Linear(d, rank, t)
    ensures Field(Lookup(d, rank, raw, t), f) == Nearest(d, rank, raw, t, f)
  {
    SimilarToItself(d, rank);
    RawIsSandwiched(d, rank, raw);
    LookupOnChain(d, d, rank, raw, raw, t, f);
  }

  lemma GrownArrayEnds(d: Known, k: Known, rank: string -> nat, t: string)
    requires GrownFrom(d, k, rank) && |Parents(k, t)| > 1
    requires NoRepeats(Parents(d, t)) && Linear(d, rank, t)
    ensures t in k && Parents(d, t) != [] && Parents(k, t)[|Parents(k, t)| - 1] != Parents(k, t)[0]
  {
    GrownEnds(d, k, rank, t);
    assert Parents(k, t)[0] in Parents(k, t);
    NoParentsNoAncestors(d, rank, t);
  }

  lemma WalkSimilar(d: Known, k: Known, rank: string -> nat, shared: set<string>)
    requires GrownFrom(d, k, rank)
    ensures Similar(d, Walk(d, k, shared), rank)
  {
    var w := Walk(d, k, shared);
    forall t ensures (forall p :: p in Parents(d, t) ==> p in Parents(w, t))
                     && (forall p :: p in Parents(w, t) ==> p in Ancestors(d, rank, t) && rank(p) < rank(t)) {
      assert GrownArray(d, k, rank, t);
      FirstOccMembers(Parents(k, t));
      FirstOccMembers(Ancestors(d, rank, t));
      forall p | p in Parents(w, t) ensures p in Ancestors(d, rank, t) && rank(p) < rank(t) {
        assert p in Parents(d, t) || p in FirstOcc(Parents(k, t));
        AncestorsRankLower(d, rank, t, p);
      }
    }
  }

  /** No type of the family shows an array that has grown. */
  ghost predicate FamilyAsDeclared(d: Known, w: Known, rank: string -> nat, t: string)
    requires Ranked(d, rank)
  {
    forall u :: InFamily(d, rank, t, u) ==> Parents(w, u) == Parents(d, u)
  }

  lemma FamilyOfParent(d: Known, rank: string -> nat, t: string, p: string, u: string)
    requires Ranked(d, rank) && p in Parents(d, t) && InFamily(d, rank, p, u)
    ensures InFamily(d, rank, t, u)
  {
    AncestorsOfAllMembers(d, rank, t, Parents(d, t), u);
  }

  /** Along such arrays the ancestry and the nearest definitions are the declared ones. */
  lemma {:induction false} FamilySame(d: Known, w: Known, rank: string -> nat, raw: Table, t: string, f: string)
    requires Ranked(d, rank) && Ranked(w, rank) && FamilyAsDeclared(d, w, rank, t)
    ensures Nearest(w, rank, raw, t, f) == Nearest(d, rank, raw, t, f)
    ensures Linear(w, rank, t) <==> Linear(d, rank, t)
    decreases rank(t)
  {
    assert InFamily(d, rank, t, t);
    if Parents(d, t) != [] {
      var p := Parents(d, t)[0];
      assert p in Parents(d, t);
      forall u | InFamily(d, rank, p, u) ensures Parents(w, u) == Parents(d, u) {
        FamilyOfParent(d, rank, t, p, u);
      }
      FamilySame(d, w, rank, raw, p, f);
    }
  }

  /**
    A type whose class has an array of its own, or whose shared array holds one type at most, shows the declared one.
   */
  lemma ShowsDeclared(d: Known, k: Known, rank: string -> nat, shared: set<string>, u: string)
    requires GrownFrom(d, k, rank) && (u in shared ==> |Parents(k, u)| <= |Parents(d, u)|)
    ensures Parents(Walk(d, k, shared), u) == Parents(d, u)
  {
    assert GrownArray(d, k, rank, u);
    PrefixSplit(Parents(d, u), Parents(k, u));
  }

  /**
    The rule after any ancestor queries: if neither the type nor an ancestor has a class that shares its array,
    `setData` obeys it whatever was asked before, for every table, key order and field.
   */
  lemma QueriesBeforeSetData(d: Known, rank: string -> nat, shared: set<string>, calls: seq<string>, raw: Table,
                             keys: seq<string>, t: string, f: string)
    requires Ranked(d, rank) && Enumerates(keys, raw) && Linear(d, rank, t)
    requires t !in shared && forall u :: u in Ancestors(d, rank, t) ==> u !in shared
    ensures var w := Walk(d, History(d, rank, calls), shared);
            && Ranked(w, rank)
            && Field(Lookup(d, rank, ResolvedTable(w, rank, raw, keys), t), f) == Nearest(d, rank, raw, t, f)
  {
    var k := History(d, rank, calls);
    HistoryKeeps(d, rank, calls);
    forall u | InFamily(d, rank, t, u) ensures Parents(Walk(d, k, shared), u) == Parents(d, u) {
      ShowsDeclared(d, k, rank, shared, u);
    }
    RuleAsDeclared(d, k, rank, shared, raw, keys, t, f);
  }

  lemma RuleAsDeclared(d: Known, k: Known, rank: string -> nat, shared: set<string>, raw: Table, keys: seq<string>,
                       t: string, f: string)
    requires GrownFrom(d, k, rank) && Enumerates(keys, raw) && Linear(d, rank, t)
    requires FamilyAsDeclared(d, Walk(d, k, shared), rank, t)
    ensures Ranked(Walk(d, k, shared), rank)
    ensures Field(Lookup(d, rank, ResolvedTable(Walk(d, k, shared), rank, raw, keys), t), f)
         == Nearest(d, rank, raw, t, f)
  {
    var w := Walk(d, k, shared);
    WalkSimilar(d, k, rank, shared);
    FamilySame(d, w, rank, raw, t, f);
    SetDataSandwich(w, rank, raw, keys);
    LookupOnChain(d, w, rank, raw, ResolvedTable(w, rank, raw, keys), t, f);
  }

  /** `setData` now would obey the rule for `t`, whatever the table and its key order. */
  ghost predicate ObeysRule(d: Known, w: Known, rank: string -> nat, t: string)
    requires Ranked(d, rank) && Ranked(w, rank)
  {
    forall raw, keys, f :: Enumerates(keys, raw)
      ==> Field(Lookup(d, rank, ResolvedTable(w, rank, raw, keys), t), f) == Nearest(d, rank, raw, t, f)
  }

  lemma {:induction false} LinearUpwards(d: Known, w: Known, rank: string -> nat, t: string, u: string)
    requires Similar(d, w, rank) && Linear(w, rank, t) && InFamily(d, rank, t, u)
    ensures Linear(w, rank, u)
    decreases rank(t)
  {
    if u != t {
      AncestorsOfAllMembers(d, rank, t, Parents(d, t), u);
      var p :| p in Parents(d, t) && InFamily(d, rank, p, u);
      assert p in Parents(w, t);
      LinearUpwards(d, w, rank, p, u);
    }
  }

  /**
    Under single inheritance, in any grown state: `setData` obeys the rule for a type exactly when no shared array of
    the type or of an ancestor holds more than one type.
   */
  lemma ObeysRuleIff(d: Known, k: Known, rank: string -> nat, shared: set<string>, t: string)
    requires GrownFrom(d, k, rank)
    requires forall u, p :: p in Parents(d, u) ==> p in d
    requires forall u :: NoRepeats(Parents(d, u)) && Linear(d, rank, u)
    ensures Ranked(Walk(d, k, shared), rank)
    ensures ObeysRule(d, Walk(d, k, shared), rank, t)
       <==> forall u :: InFamily(d, rank, t, u) && u in shared ==> |Parents(k, u)| <= 1
  {
    var w := Walk(d, k, shared);
    WalkSimilar(d, k, rank, shared);
    if forall u :: InFamily(d, rank, t, u) && u in shared ==> |Parents(k, u)| <= 1 {
      forall u | InFamily(d, rank, t, u) ensures Parents(w, u) == Parents(d, u) {
        OneParentAsDeclared(d, k, rank, shared, u);
      }
      forall raw, keys, f | Enumerates(keys, raw)
        ensures Field(Lookup(d, rank, ResolvedTable(w, rank, raw, keys), t), f) == Nearest(d, rank, raw, t, f) {
        RuleAsDeclared(d, k, rank, shared, raw, keys, t, f);
      }
    } else {
      var u :| InFamily(d, rank, t, u) && u in shared && |Parents(k, u)| > 1;
      GrownArrayEnds(d, k, rank, u);
      assert Parents(w, u) == Parents(k, u);
      assert Parents(w, u)[|Parents(w, u)| - 1] in Parents(w, u);
      if Linear(w, rank, t) {
        LinearUpwards(d, w, rank, t, u);
      }
      GrownChainsAreWellDeclared(d, k, rank, shared);
      var raw, keys := NoChainDisagrees(d, w, rank, t);
      RawLookupIsNearest(d, rank, raw, t, FIELD);
    }
  }

  lemma OneParentAsDeclared(d: Known, k: Known, rank: string -> nat, shared: set<string>, u: string)
    requires GrownFrom(d, k, rank) && (u in shared ==> |Parents(k, u)| <= 1)
    ensures Parents(Walk(d, k, shared), u) == Parents(d, u)
  {
    assert GrownArray(d, k, rank, u);
    if u in shared && Parents(d, u) == [] && Parents(k, u) != [] {
      assert Parents(k, u)[0] in Parents(k, u)[|Parents(d, u)|..];
      NoParentsNoAncestors(d, rank, u);
    }
    ShowsDeclared(d, k, rank, shared, u);
  }

  /** The first query of a chain adds each ancestor once: what was pushed is not visited again. */
  lemma {:induction false} FirstQueryOnChain(d: Known, k: Known, rank: string -> nat, t: string)
    requires Ranked(d, rank) && Ranked(k, rank) && Linear(d, rank, t) && FamilyAsDeclared(d, k, rank, t)
    requires forall u :: NoRepeats(Parents(d, u))
    ensures Parents(Grow(k, rank, t), t) == Ancestors(d, rank, t)
    decreases rank(t)
  {
    assert InFamily(d, rank, t, t);
    if Parents(d, t) == [] {
      NoParentsNoAncestors(d, rank, t);
    } else {
      var p := Parents(d, t)[0];
      assert p in Parents(d, t);
      OnlyParent(d, rank, t, p);
      forall u | InFamily(d, rank, p, u) ensures Parents(k, u) == Parents(d, u) {
        FamilyOfParent(d, rank, t, p, u);
      }
      FirstQueryOnChain(d, k, rank, p);
      GrowEachUnfold(k, rank, t, [p]);
      assert [p][1..] == [];
    }
  }

  /** Such growth takes one ancestor query: after it the array of a type with a grandparent is longer than declared. */
  lemma OneQueryGrows(d: Known, rank: string -> nat, calls: seq<string>, t: string)
    requires Ranked(d, rank) && Parents(d, t) != [] && Parents(d, Parents(d, t)[0]) != []
    ensures |Parents(Grow(History(d, rank, calls), rank, t), t)| > 1
  {
    var p := Parents(d, t)[0];
    var g := Parents(d, p)[0];
    assert p in Parents(d, t) && g in Parents(d, p);
    AncestorsOfAllMembers(d, rank, t, Parents(d, t), g);
    ParentTypesAfterAnyHistory(d, rank, calls, t);
    var list := Parents(Grow(History(d, rank, calls), rank, t), t);
    FirstOccMembers(list);
    FirstOccMembers(Ancestors(d, rank, t));
    assert p in FirstOcc(list) && g in FirstOcc(list);
    assert p in list && g in list && rank(g) < rank(p);
  }
}
