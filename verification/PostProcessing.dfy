/**
  Rebuilding the registries from the loaders (packages/cli/src/load-nodes-and-credentials.ts). The descriptions are
  objects of the loaders: option lists that one rebuild extends are the lists that the next one meets again, and
  several nodes may share one. A list is therefore known by its identity.
 */
module PostProcessing {
  import opened Options

  const CUSTOM_API_CALL := "Custom API Call"

  /** A parameter of a node; `options` is the identity of its list of options, if it has one. */
  datatype Property = Property(name: string, options: Option<nat>)

  datatype Node = Node(
    name: string, defaultVersion: Option<string>, version: string, usableAsTool: bool,
    credentials: Option<seq<string>>, properties: seq<Property>)

  datatype Credential = Credential(name: string, authenticates: bool, parents: Option<seq<string>>)

  /** The names in each option list; identities below `next` are taken. */
  datatype Lists = Lists(names: map<nat, seq<string>>, next: nat)

  /** The nodes that each known credential supports, where the loader says so. */
  type Support = map<string, Option<seq<string>>>

  /** `packageName` is missing for directories of custom nodes, which know of no supported nodes. */
  datatype Loader = Loader(
    nodes: seq<Node>, credentials: seq<Credential>, packageName: Option<string>, support: Support)

  // ---- supportsProxyAuth -----------------------------------------------------------------------------------

  function Find(types: seq<Credential>, name: string): Option<Credential> {
    if types == [] then None else if types[0].name == name then Some(types[0]) else Find(types[1..], name)
  }

  predicate IsOAuth(typeName: string) {
    typeName in ["oAuth2Api", "googleOAuth2Api", "oAuth1Api"]
  }

  predicate AllowsProxy(types: seq<Credential>, name: string) {
    var found := Find(types, name);
    found.Some? &&
    (found.value.authenticates ||
     (found.value.parents.Some? &&
      exists i :: 0 <= i < |found.value.parents.value| && IsOAuth(found.value.parents.value[i])))
  }

  predicate SupportsProxyAuth(types: seq<Credential>, node: Node) {
    node.credentials.Some? &&
    exists i :: 0 <= i < |node.credentials.value| && AllowsProxy(types, node.credentials.value[i])
  }

  /** The latest version of a node, and one that supports proxy authentication. */
  predicate IsEligible(types: seq<Credential>, node: Node) {
    (node.defaultVersion == None || node.defaultVersion == Some(node.version)) && SupportsProxyAuth(types, node)
  }

  predicate TakesCall(p: Property) {
    p.name in ["resource", "operation"] && p.options.Some?
  }

  // ---- createAiTools ---------------------------------------------------------------------------------------

  function ToolName(name: string): string {
    name + "Tool"
  }

  /** `structuredClone` of the parameters: every option list is copied. */
  function CloneProperties(lists: Lists, ps: seq<Property>): (Lists, seq<Property>)
    decreases |ps|
  {
    if ps == [] then (lists, [])
    else
      var p := ps[0];
      var (copied, q) :=
        if p.options.Some? && p.options.value in lists.names then
          (Lists(lists.names[lists.next := lists.names[p.options.value]], lists.next + 1),
           p.(options := Some(lists.next)))
        else (lists, p.(options := None));
      var (rest, qs) := CloneProperties(copied, ps[1..]);
      (rest, [q] + qs)
  }

  /** The tool made of a node. */
  function MakeTool(lists: Lists, node: Node): (Lists, Node) {
    var (copied, ps) := CloneProperties(lists, node.properties);
    var described := exists i :: 0 <= i < |ps| && ps[i].name == "toolDescription";
    (copied, node.(name := ToolName(node.name), usableAsTool := false,
                   properties := if described then ps else [Property("toolDescription", None)] + ps))
  }

  function MakeTools(lists: Lists, usable: seq<Node>): (Lists, seq<Node>)
    decreases |usable|
  {
    if usable == [] then (lists, [])
    else
      var (copied, tool) := MakeTool(lists, usable[0]);
      var (rest, tools) := MakeTools(copied, usable[1..]);
      (rest, [tool] + tools)
  }

  function Usable(nodes: seq<Node>): seq<Node> {
    if nodes == [] then [] else (if nodes[0].usableAsTool then [nodes[0]] else []) + Usable(nodes[1..])
  }

  /** Every credential that supports the node is made to support its tool. */
  function AddTool(support: Support, name: string): Support {
    map c | c in support ::
      if support[c].Some? && name in support[c].value then Some(support[c].value + [ToolName(name)]) else support[c]
  }

  function AddTools(support: Support, usable: seq<Node>): Support
    decreases |usable|
  {
    if usable == [] then support else AddTools(AddTool(support, usable[0].name), usable[1..])
  }

  // ---- injectCustomApiCallOptions --------------------------------------------------------------------------

  function Injected(names: seq<string>): seq<string> {
    if names == [] || names[|names| - 1] == CUSTOM_API_CALL then names else names + [CUSTOM_API_CALL]
  }

  function InjectProperties(names: map<nat, seq<string>>, ps: seq<Property>): map<nat, seq<string>>
    decreases |ps|
  {
    if ps == [] then names
    else if TakesCall(ps[0]) && ps[0].options.value in names then
      InjectProperties(names[ps[0].options.value := Injected(names[ps[0].options.value])], ps[1..])
    else InjectProperties(names, ps[1..])
  }

  function InjectNodes(types: seq<Credential>, names: map<nat, seq<string>>, nodes: seq<Node>): map<nat, seq<string>>
    decreases |nodes|
  {
    if nodes == [] then names
    else
      var injected := if IsEligible(types, nodes[0]) then InjectProperties(names, nodes[0].properties) else names;
      InjectNodes(types, injected, nodes[1..])
  }

  // ---- postProcessLoaders ----------------------------------------------------------------------------------

  function AllNodes(loaders: seq<Loader>): seq<Node> {
    if loaders == [] then [] else loaders[0].nodes + AllNodes(loaders[1..])
  }

  function AllCredentials(loaders: seq<Loader>): seq<Credential> {
    if loaders == [] then [] else loaders[0].credentials + AllCredentials(loaders[1..])
  }

  /** A fresh list for every credential, with the full names of the nodes. */
  function FullSupport(loader: Loader): Support {
    map c | c in loader.support ::
      if loader.packageName.Some? && loader.support[c].Some? then
        Some(FullNames(loader.packageName.value, loader.support[c].value))
      else None
  }

  function FullNames(packageName: string, names: seq<string>): seq<string> {
    if names == [] then [] else [packageName + "." + names[0]] + FullNames(packageName, names[1..])
  }

  function AllSupport(loaders: seq<Loader>): Support {
    if loaders == [] then map[] else FullSupport(loaders[0]) + AllSupport(loaders[1..])
  }

  function Tools(lists: Lists, loaders: seq<Loader>): (Lists, seq<Node>) {
    MakeTools(lists, Usable(AllNodes(loaders)))
  }

  /** The option lists after one rebuild. */
  function PostProcess(lists: Lists, loaders: seq<Loader>): Lists {
    var (made, tools) := Tools(lists, loaders);
    made.(names := InjectNodes(AllCredentials(loaders), made.names, AllNodes(loaders) + tools))
  }

  /** The option lists after `n` rebuilds from the same loaders. */
  function Rebuilt(lists: Lists, loaders: seq<Loader>, n: nat): Lists {
    if n == 0 then lists else PostProcess(Rebuilt(lists, loaders, n - 1), loaders)
  }

  // ---- Option lists ----------------------------------------------------------------------------------------

  /** Some parameter in `ps` takes the call and has this list. */
  ghost predicate Mentions(ps: seq<Property>, l: nat) {
    exists p :: p in ps && TakesCall(p) && p.options.value == l
  }

  /** Some eligible node has the list in a `resource` or `operation` parameter. */
  ghost predicate IsTarget(types: seq<Credential>, nodes: seq<Node>, l: nat) {
    exists node :: node in nodes && IsEligible(types, node) && Mentions(node.properties, l)
  }

  lemma {:induction false} InjectPropertiesEffect(names: map<nat, seq<string>>, ps: seq<Property>, l: nat)
    requires l in names
    ensures var after := InjectProperties(names, ps);
            after.Keys == names.Keys && after[l] == if Mentions(ps, l) then Injected(names[l]) else names[l]
    decreases |ps|
  {
    if ps != [] {
      var rest := ps[1..];
      assert forall p :: p in ps <==> p == ps[0] || p in rest;
      assert Mentions(ps, l) <==> (TakesCall(ps[0]) && ps[0].options.value == l) || Mentions(rest, l);
      if TakesCall(ps[0]) && ps[0].options.value in names {
        InjectPropertiesEffect(names[ps[0].options.value := Injected(names[ps[0].options.value])], rest, l);
      } else {
        InjectPropertiesEffect(names, rest, l);
      }
    }
  }

  lemma {:induction false} InjectNodesEffect(types: seq<Credential>, names: map<nat, seq<string>>, nodes: seq<Node>,
                                             l: nat)
    requires l in names
    ensures var after := InjectNodes(types, names, nodes);
            after.Keys == names.Keys && after[l] == if IsTarget(types, nodes, l) then Injected(names[l]) else names[l]
    decreases |nodes|
  {
    if nodes != [] {
      var node, rest := nodes[0], nodes[1..];
      assert forall n :: n in nodes <==> n == node || n in rest;
      assert IsTarget(types, nodes, l) <==>
        (IsEligible(types, node) && Mentions(node.properties, l)) || IsTarget(types, rest, l);
      InjectPropertiesEffect(names, node.properties, l);
      InjectNodesEffect(types,
                        if IsEligible(types, node) then InjectProperties(names, node.properties) else names, rest, l);
    }
  }

  /** Identities in use are below `next`. */
  ghost predicate Allocated(lists: Lists) {
    forall l :: l in lists.names ==> l < lists.next
  }

  /** `q` is the parameter `p` with a new list of the same contents. */
  ghost predicate IsCopy(lists: Lists, copied: Lists, p: Property, q: Property) {
    && p.options.Some? && q.options.Some? && p.name == q.name
    && p.options.value in lists.names && q.options.value in copied.names && q.options.value >= lists.next
    && copied.names[q.options.value] == lists.names[p.options.value]
  }

  /** The option lists of the parameters exist. */
  ghost predicate Exist(lists: Lists, ps: seq<Property>) {
    forall p :: p in ps && p.options.Some? ==> p.options.value in lists.names
  }

  ghost predicate AllExist(lists: Lists, nodes: seq<Node>) {
    forall node :: node in nodes ==> Exist(lists, node.properties)
  }

  /** What cloning the parameters leaves: the old lists as they were, and copies with new identities. */
  lemma {:induction false} CloneEffect(lists: Lists, ps: seq<Property>)
    requires Allocated(lists)
    ensures var (copied, qs) := CloneProperties(lists, ps);
            && Allocated(copied) && copied.next >= lists.next && |qs| == |ps|
            && (forall l :: l in lists.names ==> l in copied.names && copied.names[l] == lists.names[l])
    decreases |ps|
  {
    if ps != [] {
      var p := ps[0];
      if p.options.Some? && p.options.value in lists.names {
        CloneEffect(Lists(lists.names[lists.next := lists.names[p.options.value]], lists.next + 1), ps[1..]);
      } else {
        CloneEffect(lists, ps[1..]);
      }
    }
  }

  lemma {:induction false} CloneCopies(lists: Lists, ps: seq<Property>, i: nat)
    requires Allocated(lists) && Exist(lists, ps) && i < |ps|
    ensures var (copied, qs) := CloneProperties(lists, ps);
            && |qs| == |ps| && (qs[i].options.Some? <==> ps[i].options.Some?)
            && (qs[i].options.Some? ==> IsCopy(lists, copied, ps[i], qs[i]))
    decreases |ps|
  {
    var p, rest := ps[0], ps[1..];
    assert p in ps && forall r :: r in rest ==> r in ps;
    CloneEffect(lists, ps);
    if p.options.Some? {
      var first := Lists(lists.names[lists.next := lists.names[p.options.value]], lists.next + 1);
      CloneEffect(first, rest);
      if i > 0 {
        assert ps[i] == rest[i - 1] && ps[i] in ps;
        CloneCopies(first, rest, i - 1);
      }
    } else if i > 0 {
      assert ps[i] == rest[i - 1];
      CloneCopies(lists, rest, i - 1);
    }
  }

  /** `l` is new, with the contents of a list that a parameter of the node has. */
  ghost predicate CopiedFrom(lists: Lists, made: Lists, node: Node, l: nat) {
    l >= lists.next && l in made.names &&
    exists p :: p in node.properties && TakesCall(p) && p.options.value in lists.names &&
      made.names[l] == lists.names[p.options.value]
  }

  lemma ToolEffect(lists: Lists, node: Node, l: nat)
    requires Allocated(lists) && Exist(lists, node.properties) && Mentions(MakeTool(lists, node).1.properties, l)
    ensures CopiedFrom(lists, MakeTool(lists, node).0, node, l)
  {
    var ps := node.properties;
    CloneEffect(lists, ps);
    var (copied, qs) := CloneProperties(lists, ps);
    var q :| q in MakeTool(lists, node).1.properties && TakesCall(q) && q.options.value == l;
    assert q in qs;
    var i :| 0 <= i < |qs| && qs[i] == q;
    CloneCopies(lists, ps, i);
    assert ps[i] in ps;
  }

  lemma {:induction false} ToolsEffect(lists: Lists, usable: seq<Node>)
    requires Allocated(lists) && AllExist(lists, usable)
    ensures var (made, tools) := MakeTools(lists, usable);
            && Allocated(made) && made.next >= lists.next && |tools| == |usable|
            && (forall l :: l in lists.names ==> l in made.names && made.names[l] == lists.names[l])
            && (forall i, l: nat :: 0 <= i < |tools| && Mentions(tools[i].properties, l) ==> l >= lists.next)
    decreases |usable|
  {
    if usable != [] {
      CloneEffect(lists, usable[0].properties);
      var (copied, tool) := MakeTool(lists, usable[0]);
      RestExist(lists, copied, usable);
      ToolsEffect(copied, usable[1..]);
      forall l: nat | Mentions(tool.properties, l) ensures l >= lists.next {
        ToolEffect(lists, usable[0], l);
      }
    }
  }

  lemma RestExist(lists: Lists, copied: Lists, nodes: seq<Node>)
    requires AllExist(lists, nodes) && nodes != [] && forall l :: l in lists.names ==> l in copied.names
    ensures Exist(lists, nodes[0].properties) && AllExist(lists, nodes[1..]) && AllExist(copied, nodes[1..])
  {
    assert nodes[0] in nodes;
    forall node | node in nodes[1..] ensures Exist(lists, node.properties) && Exist(copied, node.properties) {
      assert node in nodes;
    }
  }

  /** A parameter of a tool that takes the call has a copy of the list of the node's parameter. */
  lemma {:induction false} ToolCopies(lists: Lists, usable: seq<Node>, i: nat, l: nat)
    requires Allocated(lists) && AllExist(lists, usable)
    requires i < |MakeTools(lists, usable).1| && Mentions(MakeTools(lists, usable).1[i].properties, l)
    ensures |MakeTools(lists, usable).1| == |usable|
    ensures CopiedFrom(lists, MakeTools(lists, usable).0, usable[i], l)
    decreases |usable|
  {
    ToolsEffect(lists, usable);
    CloneEffect(lists, usable[0].properties);
    var (copied, tool) := MakeTool(lists, usable[0]);
    RestExist(lists, copied, usable);
    ToolsEffect(copied, usable[1..]);
    if i == 0 {
      ToolEffect(lists, usable[0], l);
    } else {
      ToolCopies(copied, usable[1..], i - 1, l);
      CopiedEarlier(lists, copied, MakeTools(copied, usable[1..]).0, usable[i], l);
    }
  }

  lemma CopiedEarlier(lists: Lists, copied: Lists, made: Lists, node: Node, l: nat)
    requires CopiedFrom(copied, made, node, l) && Exist(lists, node.properties) && copied.next >= lists.next
    requires forall k :: k in lists.names ==> k in copied.names && copied.names[k] == lists.names[k]
    ensures CopiedFrom(lists, made, node, l)
  {
  }

  lemma {:induction false} UsableExist(lists: Lists, nodes: seq<Node>)
    requires AllExist(lists, nodes)
    ensures AllExist(lists, Usable(nodes))
    ensures forall node :: node in Usable(nodes) ==> node in nodes
    decreases |nodes|
  {
    if nodes != [] {
      RestExist(lists, lists, nodes);
      UsableExist(lists, nodes[1..]);
    }
  }

  /** One rebuild, on a list that was there before. */
  lemma PostProcessEffect(lists: Lists, loaders: seq<Loader>, l: nat)
    requires Allocated(lists) && AllExist(lists, AllNodes(loaders)) && l in lists.names
    ensures var after := PostProcess(lists, loaders);
            && Allocated(after) && AllExist(after, AllNodes(loaders)) && l in after.names
            && after.names[l] == if IsTarget(AllCredentials(loaders), AllNodes(loaders), l)
                                 then Injected(lists.names[l]) else lists.names[l]
  {
    var types, nodes := AllCredentials(loaders), AllNodes(loaders);
    var (made, tools) := Tools(lists, loaders);
    UsableExist(lists, nodes);
    ToolsEffect(lists, Usable(nodes));
    InjectNodesEffect(types, made.names, nodes + tools, l);
    forall k | k in lists.names ensures k in PostProcess(lists, loaders).names {
      InjectNodesEffect(types, made.names, nodes + tools, k);
    }
    assert forall tool :: tool in tools ==> !Mentions(tool.properties, l);
    if IsTarget(types, nodes + tools, l) {
      var node :| node in nodes + tools && IsEligible(types, node) && Mentions(node.properties, l);
      assert node in nodes;
    }
    if IsTarget(types, nodes, l) {
      var node :| node in nodes && IsEligible(types, node) && Mentions(node.properties, l);
      assert node in nodes + tools;
    }
  }

  /**
    After any positive number of rebuilds: a list that an eligible node has in a `resource` or `operation` parameter
    is extended once, any other list is as it was; sharing of lists and the copies made for tools change nothing.
   */
  lemma {:induction false} ManyRebuilds(lists: Lists, loaders: seq<Loader>, l: nat, n: nat)
    requires Allocated(lists) && AllExist(lists, AllNodes(loaders)) && l in lists.names && n >= 1
    ensures var after := Rebuilt(lists, loaders, n);
            && Allocated(after) && AllExist(after, AllNodes(loaders)) && l in after.names
            && after.names[l] == if IsTarget(AllCredentials(loaders), AllNodes(loaders), l)
                                 then Injected(lists.names[l]) else lists.names[l]
    decreases n
  {
    if n > 1 {
      ManyRebuilds(lists, loaders, l, n - 1);
    }
    PostProcessEffect(Rebuilt(lists, loaders, n - 1), loaders, l);
  }

  ghost predicate NoneBefore(types: seq<Credential>, j: nat, name: string) {
    forall i :: 0 <= i < j && i < |types| ==> types[i].name != name
  }

  /** The credential is of the type that comes first with this name. */
  ghost predicate ComesFirst(types: seq<Credential>, c: Credential, name: string) {
    c.name == name && exists j :: 0 <= j < |types| && types[j] == c && NoneBefore(types, j, name)
  }

  lemma {:induction false} FindsFirst(types: seq<Credential>, name: string, c: Credential)
    ensures Find(types, name) == Some(c) <==> ComesFirst(types, c, name)
    decreases |types|
  {
    if types != [] {
      var rest := types[1..];
      assert forall i :: 0 <= i < |rest| ==> rest[i] == types[i + 1];
      FindsFirst(rest, name, c);
      if ComesFirst(types, c, name) && types[0].name != name {
        var j :| 0 <= j < |types| && types[j] == c && NoneBefore(types, j, name);
        assert rest[j - 1] == c && NoneBefore(rest, j - 1, name);
      }
      if ComesFirst(rest, c, name) && types[0].name != name {
        var j :| 0 <= j < |rest| && rest[j] == c && NoneBefore(rest, j, name);
        assert types[j + 1] == c && forall i :: 1 <= i < j + 1 ==> types[i] == rest[i - 1];
        assert NoneBefore(types, j + 1, name);
      }
      if types[0].name == name && types[0] == c {
        assert NoneBefore(types, 0, name);
      }
    }
  }

  /** One of the credentials of the node authenticates, or extends one of the three OAuth types directly. */
  ghost predicate Authenticates(types: seq<Credential>, node: Node, c: Credential) {
    && node.credentials.Some? && c.name in node.credentials.value && ComesFirst(types, c, c.name)
    && (c.authenticates
        || (c.parents.Some?
            && ("oAuth2Api" in c.parents.value || "googleOAuth2Api" in c.parents.value
                || "oAuth1Api" in c.parents.value)))
  }

  /** The list belongs to a parameter `resource` or `operation` of a node in its latest version. */
  ghost predicate BelongsTo(node: Node, p: Property, l: nat) {
    && (node.defaultVersion == None || node.defaultVersion == Some(node.version))
    && p in node.properties && (p.name == "resource" || p.name == "operation") && p.options == Some(l)
  }

  lemma TargetMeaning(types: seq<Credential>, nodes: seq<Node>, l: nat)
    ensures IsTarget(types, nodes, l) <==>
      exists node, p, c :: node in nodes && BelongsTo(node, p, l) && Authenticates(types, node, c)
  {
    if IsTarget(types, nodes, l) {
      var node :| node in nodes && IsEligible(types, node) && Mentions(node.properties, l);
      var p :| p in node.properties && TakesCall(p) && p.options.value == l;
      var i :| 0 <= i < |node.credentials.value| && AllowsProxy(types, node.credentials.value[i]);
      var c := Find(types, node.credentials.value[i]).value;
      FindsFirst(types, node.credentials.value[i], c);
      assert Authenticates(types, node, c) && BelongsTo(node, p, l);
    }
    if node, p, c :| node in nodes && BelongsTo(node, p, l) && Authenticates(types, node, c) {
      FindsFirst(types, c.name, c);
      assert AllowsProxy(types, c.name);
      assert IsEligible(types, node) && TakesCall(p) && Mentions(node.properties, l);
    }
  }

  /**
    Which lists any number of rebuilds extends, and how: the option comes to the end, unless it is there already or the
    list is empty.
   */
  lemma WhichListsGrow(lists: Lists, loaders: seq<Loader>, l: nat, n: nat)
    requires Allocated(lists) && AllExist(lists, AllNodes(loaders)) && l in lists.names && n >= 1
    ensures var types, before, after := AllCredentials(loaders), lists.names[l], Rebuilt(lists, loaders, n).names;
            var grows := exists node, p, c ::
              node in AllNodes(loaders) && BelongsTo(node, p, l) && Authenticates(types, node, c);
            && l in after
            && after[l] == if grows && before != [] && before[|before| - 1] != "Custom API Call"
                           then before + ["Custom API Call"] else before
  {
    ManyRebuilds(lists, loaders, l, n);
    TargetMeaning(AllCredentials(loaders), AllNodes(loaders), l);
  }

  ghost function CallsIn(names: seq<string>): nat {
    multiset(names)[CUSTOM_API_CALL]
  }

  /** A non-empty list without the call ends with exactly one, at its end. */
  lemma ExactlyOneCall(lists: Lists, loaders: seq<Loader>, l: nat, n: nat)
    requires Allocated(lists) && AllExist(lists, AllNodes(loaders)) && l in lists.names && n >= 1
    requires lists.names[l] != [] && CUSTOM_API_CALL !in lists.names[l]
    requires IsTarget(AllCredentials(loaders), AllNodes(loaders), l)
    ensures var names := Rebuilt(lists, loaders, n).names;
            l in names && names[l] == lists.names[l] + [CUSTOM_API_CALL] && CallsIn(names[l]) == 1
  {
    ManyRebuilds(lists, loaders, l, n);
    assert lists.names[l][|lists.names[l]| - 1] in lists.names[l];
  }

  /** `l` holds what a list of the node held before, extended. */
  ghost predicate ExtendsCopy(lists: Lists, after: Lists, node: Node, l: nat) {
    l in after.names && exists p ::
      p in node.properties && TakesCall(p) && p.options.value in lists.names &&
      after.names[l] == Injected(lists.names[p.options.value])
  }

  /**
    The list of an eligible tool is its own copy, extended once: the rebuild leaves in it what it leaves in the
    original.
   */
  lemma ToolListExtended(lists: Lists, loaders: seq<Loader>, i: nat, l: nat)
    requires Allocated(lists) && AllExist(lists, AllNodes(loaders))
    requires i < |Tools(lists, loaders).1|
    requires IsEligible(AllCredentials(loaders), Tools(lists, loaders).1[i])
    requires Mentions(Tools(lists, loaders).1[i].properties, l)
    ensures l !in lists.names && l in PostProcess(lists, loaders).names && i < |Usable(AllNodes(loaders))|
    ensures ExtendsCopy(lists, PostProcess(lists, loaders), Usable(AllNodes(loaders))[i], l)
  {
    var types, nodes := AllCredentials(loaders), AllNodes(loaders);
    var (made, tools) := Tools(lists, loaders);
    UsableExist(lists, nodes);
    ToolCopies(lists, Usable(nodes), i, l);
    InjectNodesEffect(types, made.names, nodes + tools, l);
    assert tools[i] in nodes + tools;
    assert IsTarget(types, nodes + tools, l);
  }

  // ---- The registries --------------------------------------------------------------------------------------

  /** The registries of the loaders follow each other; for the same credential the later loader wins. */
  lemma {:induction false} RegistriesFollow(xs: seq<Loader>, ys: seq<Loader>)
    ensures AllNodes(xs + ys) == AllNodes(xs) + AllNodes(ys)
    ensures AllCredentials(xs + ys) == AllCredentials(xs) + AllCredentials(ys)
    ensures AllSupport(xs + ys) == AllSupport(xs) + AllSupport(ys)
    decreases |xs|
  {
    if xs == [] {
      assert xs + ys == ys;
    } else {
      assert (xs + ys)[1..] == xs[1..] + ys;
      RegistriesFollow(xs[1..], ys);
      PlusAssociative(FullSupport(xs[0]), AllSupport(xs[1..]), AllSupport(ys));
    }
  }

  lemma {:induction false} FullNamesMembers(packageName: string, names: seq<string>, name: string)
    ensures name in FullNames(packageName, names) <==>
              exists short :: short in names && name == packageName + "." + short
    decreases |names|
  {
    if names != [] {
      FullNamesMembers(packageName, names[1..], name);
      assert forall short :: short in names <==> short == names[0] || short in names[1..];
    }
  }

  /** One loader: of a package it names the supported nodes in full, otherwise it names none. */
  lemma OneLoader(loader: Loader, c: string, name: string)
    ensures AllNodes([loader]) == loader.nodes && AllCredentials([loader]) == loader.credentials
    ensures c in AllSupport([loader]) <==> c in loader.support
    ensures Supports(AllSupport([loader]), c, name) <==>
      && c in loader.support && loader.packageName.Some? && loader.support[c].Some?
      && exists short :: short in loader.support[c].value && name == loader.packageName.value + "." + short
  {
    assert [loader][1..] == [];
    assert AllSupport([loader]) == FullSupport(loader);
    if c in loader.support && loader.packageName.Some? && loader.support[c].Some? {
      FullNamesMembers(loader.packageName.value, loader.support[c].value, name);
    }
  }

  /** The usable nodes are those marked so, in the order of the registry. */
  lemma {:induction false} UsableMeaning(xs: seq<Node>, ys: seq<Node>, node: Node)
    ensures Usable(xs + ys) == Usable(xs) + Usable(ys)
    ensures Usable([node]) == if node.usableAsTool then [node] else []
    decreases |xs|
  {
    assert [node][1..] == [];
    if xs == [] {
      assert xs + ys == ys;
    } else {
      assert (xs + ys)[1..] == xs[1..] + ys;
      UsableMeaning(xs[1..], ys, node);
    }
  }

  ghost function Names(ps: seq<Property>): seq<string> {
    seq(|ps|, i requires 0 <= i < |ps| => ps[i].name)
  }

  lemma {:induction false} CloneNames(lists: Lists, ps: seq<Property>)
    ensures Names(CloneProperties(lists, ps).1) == Names(ps)
    decreases |ps|
  {
    if ps != [] {
      var p := ps[0];
      var copied :=
        if p.options.Some? && p.options.value in lists.names then
          Lists(lists.names[lists.next := lists.names[p.options.value]], lists.next + 1)
        else lists;
      CloneNames(copied, ps[1..]);
      var (rest, qs) := CloneProperties(copied, ps[1..]);
      var q := CloneProperties(lists, ps).1[0];
      assert CloneProperties(lists, ps).1 == [q] + qs && q.name == p.name;
      assert Names([q] + qs) == [p.name] + Names(qs);
      assert Names(ps) == [p.name] + Names(ps[1..]);
    }
  }

  /** The tool has a parameter of the same name with a new list of the same options. */
  ghost predicate HasCopy(lists: Lists, made: (Lists, Node), p: Property) {
    exists q :: q in made.1.properties && IsCopy(lists, made.0, p, q)
  }

  /** A tool is its node under the name of the tool, with a description among its parameters, and is no tool itself. */
  lemma ToolMeaning(lists: Lists, node: Node)
    ensures var tool := MakeTool(lists, node).1;
            && tool.name == node.name + "Tool" && !tool.usableAsTool
            && tool.defaultVersion == node.defaultVersion && tool.version == node.version
            && tool.credentials == node.credentials
            && Names(tool.properties) ==
                 (if "toolDescription" in Names(node.properties) then Names(node.properties)
                  else ["toolDescription"] + Names(node.properties))
    ensures Allocated(lists) && Exist(lists, node.properties) ==>
              forall p :: p in node.properties && p.options.Some? ==> HasCopy(lists, MakeTool(lists, node), p)
  {
    if Allocated(lists) && Exist(lists, node.properties) {
      forall p | p in node.properties && p.options.Some? ensures HasCopy(lists, MakeTool(lists, node), p) {
        var i :| 0 <= i < |node.properties| && node.properties[i] == p;
        CloneCopies(lists, node.properties, i);
        assert CloneProperties(lists, node.properties).1[i] in MakeTool(lists, node).1.properties;
      }
    }
    CloneNames(lists, node.properties);
    var ps := CloneProperties(lists, node.properties).1;
    assert Names([Property("toolDescription", None)] + ps) == ["toolDescription"] + Names(ps);
    if i :| 0 <= i < |ps| && ps[i].name == "toolDescription" {
      assert Names(ps)[i] == "toolDescription";
    }
    if "toolDescription" in Names(ps) {
      var i :| 0 <= i < |Names(ps)| && Names(ps)[i] == "toolDescription";
      assert ps[i].name == "toolDescription";
    }
  }

  /** There is one tool for each usable node, in the same order. */
  lemma {:induction false} ToolsFollow(lists: Lists, usable: seq<Node>, i: nat)
    requires i < |usable|
    ensures |MakeTools(lists, usable).1| == |usable|
    ensures exists before :: MakeTools(lists, usable).1[i] == MakeTool(before, usable[i]).1
    decreases |usable|
  {
    var (copied, tool) := MakeTool(lists, usable[0]);
    var (rest, tools) := MakeTools(copied, usable[1..]);
    assert MakeTools(lists, usable).1 == [tool] + tools;
    if |usable| > 1 {
      ToolsFollow(copied, usable[1..], if i > 0 then i - 1 else 0);
    } else {
      assert usable[1..] == [] && tools == [];
    }
    if i > 0 {
      var before :| tools[i - 1] == MakeTool(before, usable[1..][i - 1]).1;
      assert MakeTools(lists, usable).1[i] == MakeTool(before, usable[i]).1;
    } else {
      assert MakeTools(lists, usable).1[0] == MakeTool(lists, usable[0]).1;
    }
  }

  // ---- Credentials of tools --------------------------------------------------------------------------------

  ghost predicate Supports(support: Support, c: string, name: string) {
    c in support && support[c].Some? && name in support[c].value
  }

  /** No node that becomes a tool has the name of a tool. */
  ghost predicate FreshToolNames(usable: seq<Node>) {
    forall a, b :: a in usable && b in usable ==> a.name != ToolName(b.name)
  }

  /** `name` is the tool name of one of the nodes, which `c` supports. */
  ghost predicate SupportsOriginal(support: Support, usable: seq<Node>, c: string, name: string) {
    exists node :: node in usable && name == ToolName(node.name) && Supports(support, c, node.name)
  }

  lemma {:induction false} AddToolsEffect(support: Support, usable: seq<Node>, c: string, name: string)
    requires FreshToolNames(usable)
    ensures Supports(AddTools(support, usable), c, name) <==>
              Supports(support, c, name) || SupportsOriginal(support, usable, c, name)
    decreases |usable|
  {
    if usable != [] {
      var node, rest := usable[0], usable[1..];
      var added := AddTool(support, node.name);
      assert node in usable && forall n :: n in usable <==> n == node || n in rest;
      AddToolsEffect(added, rest, c, name);
      assert forall u :: Supports(added, c, u) <==>
        Supports(support, c, u) || (u == ToolName(node.name) && Supports(support, c, node.name));
      assert SupportsOriginal(added, rest, c, name) <==> SupportsOriginal(support, rest, c, name);
    }
  }

  lemma ToolNameInjective(a: string, b: string)
    requires ToolName(a) == ToolName(b)
    ensures a == b
  {
    assert ToolName(a)[..|a|] == a && ToolName(b)[..|b|] == b;
  }

  /** A credential supports a tool exactly when it supports the node the tool was made of, if tool names are new. */
  lemma ToolSupportedIffOriginal(loaders: seq<Loader>, c: string, node: Node)
    requires FreshToolNames(Usable(AllNodes(loaders))) && node in Usable(AllNodes(loaders))
    requires !Supports(AllSupport(loaders), c, ToolName(node.name))
    ensures var after := AddTools(AllSupport(loaders), Usable(AllNodes(loaders)));
            Supports(after, c, ToolName(node.name)) <==> Supports(after, c, node.name)
  {
    var support, usable := AllSupport(loaders), Usable(AllNodes(loaders));
    AddToolsEffect(support, usable, c, ToolName(node.name));
    AddToolsEffect(support, usable, c, node.name);
    if SupportsOriginal(support, usable, c, ToolName(node.name)) {
      var other :| other in usable && ToolName(node.name) == ToolName(other.name) && Supports(support, c, other.name);
      ToolNameInjective(node.name, other.name);
    }
  }
}
