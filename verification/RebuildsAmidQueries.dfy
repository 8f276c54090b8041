/**
  Rebuilding the registries while ancestor queries come in between. A directory loader keeps one `extends` array for the
  class of a credential and for the known type (packages/core/src/DirectoryLoader.ts), so a query grows what the next
  rebuild looks at, and a node may become eligible that was not.
 */
module RebuildsAmidQueries {
  import opened Options
  import opened FirstOccurrence
  import opened CredentialTypes
  import opened PostProcessing

  // ---- Credentials with the arrays of the moment -----------------------------------------------------------

  /** The credential with the array that its class shows. */
  ghost function WithArray(c: Credential, w: Known): Credential {
    if c.name in w then c.(parents := w[c.name]) else c
  }

  ghost function CredentialsAt(cs: seq<Credential>, w: Known): seq<Credential> {
    if cs == [] then [] else [WithArray(cs[0], w)] + CredentialsAt(cs[1..], w)
  }

  ghost function LoadersAt(loaders: seq<Loader>, w: Known): seq<Loader> {
    if loaders == [] then []
    else [loaders[0].(credentials := CredentialsAt(loaders[0].credentials, w))] + LoadersAt(loaders[1..], w)
  }

  lemma {:induction false} CredentialsAtConcat(xs: seq<Credential>, ys: seq<Credential>, w: Known)
    ensures CredentialsAt(xs + ys, w) == CredentialsAt(xs, w) + CredentialsAt(ys, w)
    decreases |xs|
  {
    if xs == [] {
      assert xs + ys == ys;
    } else {
      assert (xs + ys)[1..] == xs[1..] + ys;
      CredentialsAtConcat(xs[1..], ys, w);
    }
  }

  /** The nodes stay the same, the credentials have their arrays. */
  lemma {:induction false} AllAt(loaders: seq<Loader>, w: Known)
    ensures AllNodes(LoadersAt(loaders, w)) == AllNodes(loaders)
    ensures AllCredentials(LoadersAt(loaders, w)) == CredentialsAt(AllCredentials(loaders), w)
    decreases |loaders|
  {
    if loaders != [] {
      AllAt(loaders[1..], w);
      CredentialsAtConcat(loaders[0].credentials, AllCredentials(loaders[1..]), w);
      var first := loaders[0].(credentials := CredentialsAt(loaders[0].credentials, w));
      assert LoadersAt(loaders, w)[1..] == LoadersAt(loaders[1..], w) && LoadersAt(loaders, w)[0] == first;
    }
  }

  lemma {:induction false} FindAt(cs: seq<Credential>, w: Known, name: string)
    ensures Find(CredentialsAt(cs, w), name)
         == if Find(cs, name).Some? then Some(WithArray(Find(cs, name).value, w)) else None
    decreases |cs|
  {
    if cs != [] {
      FindAt(cs[1..], w, name);
      assert CredentialsAt(cs, w)[1..] == CredentialsAt(cs[1..], w);
    }
  }

  // ---- Arrays only grow ------------------------------------------------------------------------------------

  /** Every array starts with the former one. */
  ghost predicate Grows(before: Known, after: Known) {
    && before.Keys == after.Keys
    && (forall t :: t in before ==> (before[t].Some? <==> after[t].Some?))
    && (forall t :: t in before ==> Parents(before, t) <= Parents(after, t))
  }

  lemma GrowsTwice(a: Known, b: Known, c: Known)
    requires Grows(a, b) && Grows(b, c)
    ensures Grows(a, c)
  {
    forall t | t in a ensures Parents(a, t) <= Parents(c, t) {
      assert Parents(a, t) <= Parents(b, t) <= Parents(c, t);
    }
  }

  lemma PushGrows(k: Known, rank: string -> nat, t: string, p: string)
    requires Ranked(k, rank) && t in k && k[t].Some? && rank(p) < rank(t)
    ensures Grows(k, Push(k, rank, t, p))
  {
  }

  lemma {:induction false} GrowGrows(k: Known, rank: string -> nat, t: string)
    requires Ranked(k, rank)
    ensures Grows(k, Grow(k, rank, t))
    decreases rank(t), 1, 0
  {
    GrowEachGrows(k, rank, t, Parents(k, t));
  }

  lemma {:induction false} GrowEachGrows(k: Known, rank: string -> nat, t: string, todo: seq<string>)
    requires Ranked(k, rank) && forall p :: p in todo ==> rank(p) < rank(t)
    requires todo != [] ==> t in k && k[t].Some?
    ensures Grows(k, GrowEach(k, rank, t, todo))
    decreases rank(t), 0, |todo|
  {
    if todo != [] {
      var k1 := Grow(k, rank, todo[0]);
      GrowGrows(k, rank, todo[0]);
      GrowEachUnfold(k, rank, t, todo);
      var pushed := Push(k1, rank, t, todo[0]);
      PushGrows(k1, rank, t, todo[0]);
      GrowEachGrows(pushed, rank, t, todo[1..]);
      GrowsTwice(k, k1, pushed);
      GrowsTwice(k, pushed, GrowEach(pushed, rank, t, todo[1..]));
    }
  }

  lemma {:induction false} HistoryGrows(d: Known, rank: string -> nat, earlier: seq<string>, calls: seq<string>)
    requires Ranked(d, rank) && earlier <= calls
    ensures Grows(History(d, rank, earlier), History(d, rank, calls))
    decreases |calls|
  {
    if earlier != calls {
      var rest := calls[..|calls| - 1];
      assert earlier <= rest;
      HistoryGrows(d, rank, earlier, rest);
      GrowGrows(History(d, rank, rest), rank, calls[|calls| - 1]);
      GrowsTwice(History(d, rank, earlier), History(d, rank, rest), History(d, rank, calls));
    }
  }

  // ---- Eligible nodes --------------------------------------------------------------------------------------

  lemma AllowsProxyGrows(cs: seq<Credential>, before: Known, after: Known, name: string)
    requires Grows(before, after) && AllowsProxy(CredentialsAt(cs, before), name)
    ensures AllowsProxy(CredentialsAt(cs, after), name)
  {
    FindAt(cs, before, name);
    FindAt(cs, after, name);
    var c := Find(cs, name).value;
    if !c.authenticates && c.name in before {
      var i :| 0 <= i < |Parents(before, c.name)| && IsOAuth(Parents(before, c.name)[i]);
      assert Parents(after, c.name)[i] == Parents(before, c.name)[i];
    }
  }

  /** Growth makes nodes eligible, and never the other way round. */
  lemma TargetGrows(cs: seq<Credential>, before: Known, after: Known, nodes: seq<Node>, l: nat)
    requires Grows(before, after) && IsTarget(CredentialsAt(cs, before), nodes, l)
    ensures IsTarget(CredentialsAt(cs, after), nodes, l)
  {
    var node :| node in nodes && IsEligible(CredentialsAt(cs, before), node) && Mentions(node.properties, l);
    var i :| 0 <= i < |node.credentials.value| && AllowsProxy(CredentialsAt(cs, before), node.credentials.value[i]);
    AllowsProxyGrows(cs, before, after, node.credentials.value[i]);
    assert IsEligible(CredentialsAt(cs, after), node);
  }

  /**
    As declared, a credential allows proxy authentication if it authenticates itself or one of its parents is an OAuth
    type; once its ancestors were asked for, after whatever calls, any ancestor will do.
   */
  lemma QueryWidensProxy(cs: seq<Credential>, d: Known, rank: string -> nat, calls: seq<string>, c: Credential)
    requires Ranked(d, rank) && Find(cs, c.name) == Some(c) && c.name in d
    ensures AllowsProxy(CredentialsAt(cs, d), c.name)
       <==> c.authenticates || exists p :: p in Parents(d, c.name) && IsOAuth(p)
    ensures AllowsProxy(CredentialsAt(cs, Grow(History(d, rank, calls), rank, c.name)), c.name)
       <==> c.authenticates || exists p :: p in Ancestors(d, rank, c.name) && IsOAuth(p)
  {
    FindAt(cs, d, c.name);
    var k := Grow(History(d, rank, calls), rank, c.name);
    FindAt(cs, k, c.name);
    ParentTypesAfterAnyHistory(d, rank, calls, c.name);
    FirstOccMembers(Parents(k, c.name));
    FirstOccMembers(Ancestors(d, rank, c.name));
    assert forall p :: p in Parents(k, c.name) <==> p in FirstOcc(Parents(k, c.name));
  }

  // ---- Rebuilds --------------------------------------------------------------------------------------------

  /** One rebuild after the other, with the arrays `ws` of the moment. */
  ghost function RebuiltAt(lists: Lists, loaders: seq<Loader>, ws: seq<Known>): Lists
    decreases |ws|
  {
    if ws == [] then lists
    else PostProcess(RebuiltAt(lists, loaders, ws[..|ws| - 1]), LoadersAt(loaders, ws[|ws| - 1]))
  }

  /** A list is extended once if some rebuild met it in an eligible node, and is as it was otherwise. */
  lemma {:induction false} RebuiltAtEffect(lists: Lists, loaders: seq<Loader>, ws: seq<Known>, l: nat)
    requires Allocated(lists) && AllExist(lists, AllNodes(loaders)) && l in lists.names
    ensures var after, cs := RebuiltAt(lists, loaders, ws), AllCredentials(loaders);
            && Allocated(after) && AllExist(after, AllNodes(loaders)) && l in after.names
            && after.names[l] == if exists w :: w in ws && IsTarget(CredentialsAt(cs, w), AllNodes(loaders), l)
                                 then Injected(lists.names[l]) else lists.names[l]
    decreases |ws|
  {
    if ws != [] {
      var init, last := ws[..|ws| - 1], ws[|ws| - 1];
      assert ws == init + [last];
      assert forall w :: w in ws <==> w in init || w == last;
      RebuiltAtEffect(lists, loaders, init, l);
      AllAt(loaders, last);
      PostProcessEffect(RebuiltAt(lists, loaders, init), LoadersAt(loaders, last), l);
    }
  }

  /** The arrays that the classes show after these calls. */
  ghost function ArraysAfter(d: Known, rank: string -> nat, shared: set<string>, calls: seq<string>): Known
    requires Ranked(d, rank)
  {
    Walk(d, History(d, rank, calls), shared)
  }

  ghost function AfterEach(d: Known, rank: string -> nat, shared: set<string>, histories: seq<seq<string>>): seq<Known>
    requires Ranked(d, rank)
  {
    if histories == [] then []
    else [ArraysAfter(d, rank, shared, histories[0])] + AfterEach(d, rank, shared, histories[1..])
  }

  lemma WalkGrows(d: Known, before: Known, after: Known, shared: set<string>)
    requires before.Keys == d.Keys && Grows(before, after)
    ensures Grows(Walk(d, before, shared), Walk(d, after, shared))
  {
    var v, w := Walk(d, before, shared), Walk(d, after, shared);
    forall t | t in v ensures (v[t].Some? <==> w[t].Some?) && Parents(v, t) <= Parents(w, t) {
      assert Parents(before, t) <= Parents(after, t);
    }
  }

  /** What some history made eligible is eligible after every longer one. */
  lemma LastIsWidest(cs: seq<Credential>, nodes: seq<Node>, d: Known, rank: string -> nat, shared: set<string>,
                     earlier: seq<string>, calls: seq<string>, l: nat)
    requires Ranked(d, rank) && earlier <= calls
    requires IsTarget(CredentialsAt(cs, ArraysAfter(d, rank, shared, earlier)), nodes, l)
    ensures IsTarget(CredentialsAt(cs, ArraysAfter(d, rank, shared, calls)), nodes, l)
  {
    HistoryGrows(d, rank, earlier, calls);
    WalkGrows(d, History(d, rank, earlier), History(d, rank, calls), shared);
    TargetGrows(cs, ArraysAfter(d, rank, shared, earlier), ArraysAfter(d, rank, shared, calls), nodes, l);
  }

  lemma {:induction false} SomeIffLast(cs: seq<Credential>, nodes: seq<Node>, d: Known, rank: string -> nat,
                                       shared: set<string>, histories: seq<seq<string>>, last: seq<string>, l: nat)
    requires Ranked(d, rank) && forall h :: h in histories ==> h <= last
    ensures var ws := AfterEach(d, rank, shared, histories);
            (exists w :: w in ws && IsTarget(CredentialsAt(cs, w), nodes, l))
              ==> IsTarget(CredentialsAt(cs, ArraysAfter(d, rank, shared, last)), nodes, l)
    ensures last in histories ==> ArraysAfter(d, rank, shared, last) in AfterEach(d, rank, shared, histories)
    decreases |histories|
  {
    if histories != [] {
      var first, rest := histories[0], histories[1..];
      assert first in histories && forall h :: h in rest ==> h in histories;
      SomeIffLast(cs, nodes, d, rank, shared, rest, last, l);
      if IsTarget(CredentialsAt(cs, ArraysAfter(d, rank, shared, first)), nodes, l) {
        LastIsWidest(cs, nodes, d, rank, shared, first, last, l);
      }
    }
  }

  /**
    Any queries between rebuilds: each list ends extended once if, with the arrays of the last rebuild, an eligible
    node has it in a `resource` or `operation` parameter, and is as it was otherwise.
   */
  lemma LastRebuildDecides(lists: Lists, loaders: seq<Loader>, d: Known, rank: string -> nat, shared: set<string>,
                           histories: seq<seq<string>>, last: seq<string>, l: nat)
    requires Ranked(d, rank) && last in histories && forall h :: h in histories ==> h <= last
    requires Allocated(lists) && AllExist(lists, AllNodes(loaders)) && l in lists.names
    ensures var after := RebuiltAt(lists, loaders, AfterEach(d, rank, shared, histories));
            var cs := CredentialsAt(AllCredentials(loaders), ArraysAfter(d, rank, shared, last));
            && l in after.names
            && after.names[l] == if IsTarget(cs, AllNodes(loaders), l)
                                 then Injected(lists.names[l]) else lists.names[l]
  {
    RebuiltAtEffect(lists, loaders, AfterEach(d, rank, shared, histories), l);
    SomeIffLast(AllCredentials(loaders), AllNodes(loaders), d, rank, shared, histories, last, l);
  }
}
