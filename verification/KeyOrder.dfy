/**
  When the key order of the table shows. A type reached through a child is marked as resolved but keeps its raw entry,
  so a type whose ancestry is no chain is looked up differently when some child is visited first.
 */
module KeyOrder {
  import opened Options
  import opened CredentialTypes
  import opened OverwriteRules
  import opened OverwriteTheorems
  import opened SingleInheritance

  /** The lookups of `t` are the same whatever the table and the order in which its keys are visited. */
  ghost predicate OrderFree(d: Known, w: Known, rank: string -> nat, t: string)
    requires Ranked(d, rank) && Ranked(w, rank)
  {
    forall raw, keys, others :: Enumerates(keys, raw) && Enumerates(others, raw) ==>
      Lookup(d, rank, ResolvedTable(w, rank, raw, keys), t) == Lookup(d, rank, ResolvedTable(w, rank, raw, others), t)
  }

  // ---- Marked types ----------------------------------------------------------------------------------------

  /** With a type, all its known parents are marked. */
  ghost predicate Closed(w: Known, done: seq<string>) {
    forall u, p :: u in done && p in Parents(w, u) && p in w ==> p in done
  }

  ghost predicate Includes(more: seq<string>, done: seq<string>) {
    forall u :: u in done ==> u in more
  }

  /** A resolution marks the type and, with it, its whole ancestry. */
  lemma {:induction false} ResolveMarks(w: Known, rank: string -> nat, table: Table, done: seq<string>, t: string)
    requires Ranked(w, rank) && Closed(w, done)
    ensures var marked := Resolve(w, rank, table, done, t).1;
            Closed(w, marked) && Includes(marked, done) && (t in w ==> t in marked)
    decreases rank(t), 1, 0
  {
    if t !in done && t in w && w[t].Some? {
      ResolveAllMarks(w, rank, table, done, t, Parents(w, t), map[]);
    }
  }

  lemma {:induction false} ResolveAllMarks(w: Known, rank: string -> nat, table: Table, done: seq<string>, t: string,
                                           ps: seq<string>, acc: Fields)
    requires Ranked(w, rank) && Closed(w, done) && forall p :: p in ps ==> rank(p) < rank(t)
    ensures var marked := ResolveAll(w, rank, table, done, t, ps, acc).1;
            Closed(w, marked) && Includes(marked, done) && (forall p :: p in ps && p in w ==> p in marked)
    decreases rank(t), 0, |ps|
  {
    if ps != [] {
      var (found, done1) := Resolve(w, rank, table, done, ps[0]);
      ResolveMarks(w, rank, table, done, ps[0]);
      ResolveAllMarks(w, rank, table, done1, t, ps[1..], acc + FieldsOf(found));
    }
  }

  /** `fields` has all raw fields of the types that are in `marked` but not in `start`. */
  ghost predicate Covers(raw: Table, start: seq<string>, marked: seq<string>, fields: Fields) {
    forall u :: u in marked && u !in start ==> Own(raw, u).Keys <= fields.Keys
  }

  /** What a resolution marks, it has collected: the fields of every type newly marked are among those found. */
  lemma {:induction false} MarkedAreCollected(w: Known, rank: string -> nat, raw: Table, table: Table,
                                              done: seq<string>, t: string)
    requires Ranked(w, rank) && (forall u :: AboveRaw(raw, u, Own(table, u)))
    ensures var (found, marked) := Resolve(w, rank, table, done, t);
            Covers(raw, done, marked, FieldsOf(found))
    decreases rank(t), 1, 0
  {
    assert AboveRaw(raw, t, Own(table, t));
    if t !in done && t in w && w[t].Some? {
      AllMarkedAreCollected(w, rank, raw, table, done, t, Parents(w, t), map[], done);
      var (fields, marked) := ResolveAll(w, rank, table, done, t, Parents(w, t), map[]);
      forall u | u in marked + [t] && u !in done ensures Own(raw, u).Keys <= (fields + Own(table, t)).Keys {
        assert u in marked || u == t;
      }
    }
  }

  lemma {:induction false} AllMarkedAreCollected(w: Known, rank: string -> nat, raw: Table, table: Table,
                                                 done: seq<string>, t: string, ps: seq<string>, acc: Fields,
                                                 start: seq<string>)
    requires Ranked(w, rank) && (forall u :: AboveRaw(raw, u, Own(table, u)))
    requires forall p :: p in ps ==> rank(p) < rank(t)
    requires Covers(raw, start, done, acc)
    ensures var (fields, marked) := ResolveAll(w, rank, table, done, t, ps, acc);
            Covers(raw, start, marked, fields)
    decreases rank(t), 0, |ps|
  {
    if ps != [] {
      var (found, done1) := Resolve(w, rank, table, done, ps[0]);
      MarkedAreCollected(w, rank, raw, table, done, ps[0]);
      CoversMore(raw, start, done, done1, acc, FieldsOf(found));
      AllMarkedAreCollected(w, rank, raw, table, done1, t, ps[1..], acc + FieldsOf(found), start);
    }
  }

  lemma CoversMore(raw: Table, start: seq<string>, done: seq<string>, more: seq<string>, acc: Fields, found: Fields)
    requires Covers(raw, start, done, acc) && Covers(raw, done, more, found)
    ensures Covers(raw, start, more, acc + found)
  {
    forall u | u in more && u !in start ensures Own(raw, u).Keys <= (acc + found).Keys {
      assert u in done ==> Own(raw, u).Keys <= acc.Keys;
      assert u !in done ==> Own(raw, u).Keys <= found.Keys;
    }
  }

  lemma {:induction false} FamilyMarked(w: Known, rank: string -> nat, marked: seq<string>, t: string, u: string)
    requires Ranked(w, rank) && Closed(w, marked) && t in marked && InFamily(w, rank, t, u)
    requires forall v, p :: p in Parents(w, v) ==> p in w
    ensures u in marked
    decreases rank(t)
  {
    if u != t {
      AncestorsOfAllMembers(w, rank, t, Parents(w, t), u);
      var p :| p in Parents(w, t) && InFamily(w, rank, p, u);
      FamilyMarked(w, rank, marked, p, u);
    }
  }

  /** The type visited first comes to hold every field that it or an ancestor, however far up, defines, and no other. */
  lemma FirstVisitedHasAll(w: Known, rank: string -> nat, raw: Table, t: string, rest: seq<string>, f: string)
    requires Ranked(w, rank) && Enumerates([t] + rest, raw) && t in w
    requires forall v, p :: p in Parents(w, v) ==> p in w
    ensures f in Own(ResolvedTable(w, rank, raw, [t] + rest), t)
       <==> exists u :: InFamily(w, rank, t, u) && f in Own(raw, u)
  {
    var (found, marked) := Resolve(w, rank, raw, [], t);
    var stored := Own(ResolvedTable(w, rank, raw, [t] + rest), t);
    FirstStored(w, rank, raw, t, rest);
    ResolveMarks(w, rank, raw, [], t);
    MarkedAreCollected(w, rank, raw, raw, [], t);
    if u :| InFamily(w, rank, t, u) && f in Own(raw, u) {
      FamilyMarked(w, rank, marked, t, u);
    }
    if f in stored {
      SetDataSandwich(w, rank, raw, [t] + rest);
      assert BelowInherited(w, rank, raw, t, stored);
      SimilarToItself(w, rank);
      var u := InheritsFromFamily(w, w, rank, raw, t, f, stored[f]);
    }
  }

  lemma FirstStored(w: Known, rank: string -> nat, raw: Table, t: string, rest: seq<string>)
    requires Ranked(w, rank) && Enumerates([t] + rest, raw)
    ensures forall f :: f in FieldsOf(Resolve(w, rank, raw, [], t).0)
              ==> f in Own(ResolvedTable(w, rank, raw, [t] + rest), t)
  {
    var (found, marked) := Resolve(w, rank, raw, [], t);
    assert ([t] + rest)[1..] == rest && ([t] + rest)[0] == t;
    forall i | 0 <= i < |rest| ensures rest[i] != t {
      assert ([t] + rest)[i + 1] == rest[i];
    }
    SetAllKeepsOthers(w, rank, Store(raw, t, found), marked, rest, t);
    assert forall f :: f in FieldsOf(found) ==> f in found.value.Keys;
  }

  /** Marked types keep their entries when their turn comes. */
  lemma {:induction false} MarkedKeepEntries(w: Known, rank: string -> nat, table: Table, done: seq<string>,
                                             keys: seq<string>)
    requires Ranked(w, rank) && forall t :: t in keys ==> t in done
    ensures SetAll(w, rank, table, done, keys).0 == table
    decreases |keys|
  {
    if keys != [] {
      assert keys[0] in keys;
      var (found, done1) := Resolve(w, rank, table, done, keys[0]);
      assert done1 == done && Store(table, keys[0], found) == table;
      MarkedKeepEntries(w, rank, table, done, keys[1..]);
    }
  }

  lemma {:induction false} LeadsToMarked(d: Known, w: Known, rank: string -> nat, done: seq<string>, t: string,
                                         b: string)
    requires WellDeclared(d, w, rank) && Leads(w, rank, t, b) && Closed(w, done) && t in done
    ensures b in done
    decreases rank(t)
  {
    if t != b {
      var p := Parents(w, t)[0];
      assert p in Parents(w, t);
      AncestorsKnown(d, w, rank, t, p);
      LeadsToMarked(d, w, rank, done, p, b);
    }
  }

  // ---- Two orders ------------------------------------------------------------------------------------------

  /** The quarrel of two parents of `b`, and an entry for a type `c` further down. */
  function WithChild(b: string, p: string, q: string, c: string): Table {
    Quarrel(b, p, q)[c := map["own" := Null]]
  }

  /** `b` first: its entry takes the value of the last parent. */
  lemma BranchingFirst(d: Known, w: Known, rank: string -> nat, b: string, p: string, q: string, c: string)
    requires Ranked(d, rank) && Ranked(w, rank) && b in w && q in w && p != q && c != b && c != p && c != q
    requires rank(p) < rank(b) && rank(q) < rank(b)
    requires Parents(w, b) != [] && Parents(w, b)[|Parents(w, b)| - 1] == q
    ensures Field(Lookup(d, rank, ResolvedTable(w, rank, WithChild(b, p, q, c), [b, p, q, c]), b), FIELD)
         == Some(Text("last"))
  {
    var raw := WithChild(b, p, q, c);
    FirstVisitedStores(w, rank, raw, b, [p, q, c], FIELD);
    assert [b] + [p, q, c] == [b, p, q, c];
    LookupOwnFirst(d, rank, ResolvedTable(w, rank, raw, [b, p, q, c]), b, FIELD);
  }

  /** Resolving `c` marks the branching and its parents. */
  lemma ChildMarks(d: Known, w: Known, rank: string -> nat, raw: Table, b: string, c: string, u: string)
    requires WellDeclared(d, w, rank) && c in w && u in Parents(w, c) && Leads(w, rank, u, b)
    ensures var marked := Resolve(w, rank, raw, [], c).1;
            b in marked && forall p :: p in Parents(w, b) ==> p in marked
  {
    var marked := Resolve(w, rank, raw, [], c).1;
    ResolveMarks(w, rank, raw, [], c);
    KnownParent(d, w, rank, c, u);
    LeadsToMarked(d, w, rank, marked, u, b);
    forall p | p in Parents(w, b) ensures p in marked {
      KnownParent(d, w, rank, b, p);
    }
  }

  lemma KnownParent(d: Known, w: Known, rank: string -> nat, t: string, p: string)
    requires WellDeclared(d, w, rank) && p in Parents(w, t)
    ensures p in w
  {
    AncestorsKnown(d, w, rank, t, p);
  }

  /** `c` first: all of its ancestry is marked, and only its own entry changes. */
  lemma ChildFirstStores(w: Known, rank: string -> nat, raw: Table, c: string, rest: seq<string>, t: string)
    requires Ranked(w, rank) && t != c
    requires forall v :: v in rest ==> v in Resolve(w, rank, raw, [], c).1
    ensures Own(ResolvedTable(w, rank, raw, [c] + rest), t) == Own(raw, t)
  {
    var (found, marked) := Resolve(w, rank, raw, [], c);
    assert ([c] + rest)[1..] == rest;
    MarkedKeepEntries(w, rank, Store(raw, c, found), marked, rest);
  }

  /** So `b` keeps its entry, and the lookup finds the first parent. */
  lemma ChildFirst(d: Known, w: Known, rank: string -> nat, b: string, p: string, q: string, c: string)
    requires Ranked(d, rank) && Ranked(w, rank) && p != q && c != b && c != p && b != p && b != q
    requires Parents(d, b) != [] && Parents(d, b)[0] == p
    requires forall v :: v in [b, p, q] ==> v in Resolve(w, rank, WithChild(b, p, q, c), [], c).1
    ensures Field(Lookup(d, rank, ResolvedTable(w, rank, WithChild(b, p, q, c), [c, b, p, q]), b), FIELD)
         == Some(Text("first"))
  {
    var raw := WithChild(b, p, q, c);
    assert [c] + [b, p, q] == [c, b, p, q];
    ChildFirstStores(w, rank, raw, c, [b, p, q], b);
    ChildFirstStores(w, rank, raw, c, [b, p, q], p);
    LookupOwnFirst(d, rank, ResolvedTable(w, rank, raw, [c, b, p, q]), b, FIELD);
  }

  /** `c` is one of the types on the way from `t` to `u`, before `u`. */
  ghost predicate Passes(w: Known, rank: string -> nat, t: string, u: string, c: string)
    requires Ranked(w, rank) && Leads(w, rank, t, u)
    decreases rank(t)
  {
    t != u && (t == c || Passes(w, rank, Parents(w, t)[0], u, c))
  }

  /** Entries of the branching, its parents and a type aside leave the way from `t` to the branching silent. */
  lemma {:induction false} AsideIsSilent(w: Known, rank: string -> nat, table: Table, t: string, u: string, b: string,
                                         c: string)
    requires Ranked(w, rank) && Leads(w, rank, t, u) && Leads(w, rank, u, b) && u in Parents(w, c)
    requires !Passes(w, rank, t, u, c)
    requires forall v :: v in table ==> v == c || rank(v) <= rank(b)
    ensures Leads(w, rank, t, b) && Silent(w, rank, table, t, b)
    decreases rank(t)
  {
    LeadsDown(w, rank, t, u);
    LeadsDown(w, rank, u, b);
    if t != u {
      assert Parents(w, t)[0] in Parents(w, t);
      AsideIsSilent(w, rank, table, Parents(w, t)[0], u, b, c);
    } else if t != b {
      assert Parents(w, t)[0] in Parents(w, t);
      LowIsSilentBut(w, rank, table, t, b, c);
    }
  }

  lemma {:induction false} LowIsSilentBut(w: Known, rank: string -> nat, table: Table, t: string, b: string, c: string)
    requires Ranked(w, rank) && Leads(w, rank, t, b) && rank(t) < rank(c)
    requires forall v :: v in table ==> v == c || rank(v) <= rank(b)
    ensures Silent(w, rank, table, t, b)
    decreases rank(t)
  {
    LeadsDown(w, rank, t, b);
    if t != b {
      assert Parents(w, t)[0] in Parents(w, t);
      LowIsSilentBut(w, rank, table, Parents(w, t)[0], b, c);
    }
  }

  /** The way up from a type that is no chain is none either, and has the same first branching. */
  lemma {:induction false} BranchingBeyond(w: Known, rank: string -> nat, t: string, u: string)
    requires Ranked(w, rank) && Leads(w, rank, t, u) && !Linear(w, rank, t)
    ensures !Linear(w, rank, u)
    decreases rank(t)
  {
    if t != u {
      assert Parents(w, t)[0] in Parents(w, t);
      BranchingBeyond(w, rank, Parents(w, t)[0], u);
    }
  }

  /** Whatever the order, the lookup of `t` is that of the branching. */
  lemma LookupAtBranching(d: Known, w: Known, rank: string -> nat, raw: Table, keys: seq<string>, t: string, u: string,
                          b: string, c: string)
    requires WellDeclared(d, w, rank) && Enumerates(keys, raw)
    requires Leads(w, rank, t, u) && Leads(w, rank, u, b) && u in Parents(w, c) && !Passes(w, rank, t, u, c)
    requires forall v :: v in raw ==> v == c || rank(v) <= rank(b)
    ensures var table := ResolvedTable(w, rank, raw, keys);
            Lookup(d, rank, table, t) == Lookup(d, rank, table, b)
  {
    var table := ResolvedTable(w, rank, raw, keys);
    SetDataSandwich(w, rank, raw, keys);
    AsideIsSilent(w, rank, table, t, u, b, c);
    LookupPassedOn(d, w, rank, table, t, b);
  }

  lemma BothEnumerate(rank: string -> nat, b: string, p: string, q: string, c: string)
    requires rank(p) < rank(b) && rank(q) < rank(b) && p != q && rank(b) < rank(c)
    ensures Enumerates([b, p, q, c], WithChild(b, p, q, c)) && Enumerates([c, b, p, q], WithChild(b, p, q, c))
    ensures forall v :: v in WithChild(b, p, q, c) ==> v == c || rank(v) <= rank(b)
  {
  }

  /** Two orders of one table, two answers of one lookup. */
  lemma BranchingDisagrees(d: Known, w: Known, rank: string -> nat, b: string, u: string, c: string)
    returns (p: string, q: string)
    requires WellDeclared(d, w, rank) && (exists r :: r in Parents(w, b) && r != Parents(w, b)[0])
    requires u in Parents(w, c) && Leads(w, rank, u, b)
    ensures rank(p) < rank(b) && rank(q) < rank(b) && p != q && rank(b) < rank(c)
    ensures Field(Lookup(d, rank, ResolvedTable(w, rank, WithChild(b, p, q, c), [b, p, q, c]), b), FIELD)
         == Some(Text("last"))
    ensures Field(Lookup(d, rank, ResolvedTable(w, rank, WithChild(b, p, q, c), [c, b, p, q]), b), FIELD)
         == Some(Text("first"))
  {
    LeadsDown(w, rank, u, b);
    BranchingEndsDiffer(d, w, rank, b);
    FirstAndLastParent(d, w, rank, b);
    p, q := Parents(w, b)[0], Parents(w, b)[|Parents(w, b)| - 1];
    assert p in Parents(w, b) && q in Parents(w, b);
    BranchingFirst(d, w, rank, b, p, q, c);
    ChildMarks(d, w, rank, WithChild(b, p, q, c), b, c, u);
    ChildFirst(d, w, rank, b, p, q, c);
  }

  lemma OrdersDisagree(d: Known, w: Known, rank: string -> nat, t: string, u: string, c: string)
    returns (raw: Table, keys: seq<string>, others: seq<string>)
    requires WellDeclared(d, w, rank) && !Linear(w, rank, t)
    requires Leads(w, rank, t, u) && u in Parents(w, c) && !Passes(w, rank, t, u, c)
    ensures Enumerates(keys, raw) && Enumerates(others, raw)
    ensures Field(Lookup(d, rank, ResolvedTable(w, rank, raw, keys), t), FIELD) == Some(Text("last"))
    ensures Field(Lookup(d, rank, ResolvedTable(w, rank, raw, others), t), FIELD) == Some(Text("first"))
  {
    BranchingBeyond(w, rank, t, u);
    var b := FirstBranching(w, rank, u);
    var p, q := BranchingDisagrees(d, w, rank, b, u, c);
    LeadsDown(w, rank, u, b);
    BothEnumerate(rank, b, p, q, c);
    raw, keys, others := WithChild(b, p, q, c), [b, p, q, c], [c, b, p, q];
    LookupAtBranching(d, w, rank, raw, keys, t, u, b, c);
    LookupAtBranching(d, w, rank, raw, others, t, u, b, c);
  }

  // ---- When the order is irrelevant ------------------------------------------------------------------------

  /** On a chain it always is. */
  lemma ChainIsOrderFree(d: Known, w: Known, rank: string -> nat, t: string)
    requires Similar(d, w, rank) && Linear(w, rank, t)
    ensures OrderFree(d, w, rank, t)
  {
    forall raw, keys, others | Enumerates(keys, raw) && Enumerates(others, raw)
      ensures Lookup(d, rank, ResolvedTable(w, rank, raw, keys), t)
           == Lookup(d, rank, ResolvedTable(w, rank, raw, others), t) {
      var one, two := ResolvedTable(w, rank, raw, keys), ResolvedTable(w, rank, raw, others);
      SetDataSandwich(w, rank, raw, keys);
      SetDataSandwich(w, rank, raw, others);
      forall f ensures Field(Lookup(d, rank, one, t), f) == Field(Lookup(d, rank, two, t), f) {
        LookupOnChain(d, w, rank, raw, one, t, f);
        LookupOnChain(d, w, rank, raw, two, t, f);
      }
      SameFields(Lookup(d, rank, one, t), Lookup(d, rank, two, t));
    }
  }

  /**
    Some type `c` extends `t`, or extends a type `u` further up to which `t` leads, without being on that way itself:
    then the key order is irrelevant for `t` exactly when its ancestry is a chain.
   */
  lemma OrderFreeIffLinear(d: Known, w: Known, rank: string -> nat, t: string, u: string, c: string)
    requires WellDeclared(d, w, rank)
    requires Leads(w, rank, t, u) && u in Parents(w, c) && !Passes(w, rank, t, u, c)
    ensures OrderFree(d, w, rank, t) <==> Linear(w, rank, t)
  {
    if Linear(w, rank, t) {
      ChainIsOrderFree(d, w, rank, t);
    } else {
      var raw, keys, others := OrdersDisagree(d, w, rank, t, u, c);
      assert Enumerates(keys, raw) && Enumerates(others, raw);
    }
  }

  /** With the arrays as declared, for every type that some type extends. */
  lemma ExtendedTypesOrderFree(d: Known, rank: string -> nat, t: string, c: string)
    requires Ranked(d, rank) && (forall u :: NoRepeats(Parents(d, u)))
    requires forall u, p :: p in Parents(d, u) ==> p in d
    requires t in Parents(d, c)
    ensures OrderFree(d, d, rank, t) <==> Linear(d, rank, t)
  {
    DeclaredArraysAreWellDeclared(d, rank);
    OrderFreeIffLinear(d, d, rank, t, t, c);
  }
}
