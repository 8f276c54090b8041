/** The service that rebuilds the registries (packages/cli/src/load-nodes-and-credentials.ts). */
module LoadNodesAndCredentials {
  import opened Options
  import opened PostProcessing

  class LoadNodesAndCredentials {
    const loaders: seq<Loader>
    /** The option lists of all descriptions, by identity. */
    var optionNames: map<nat, seq<string>>
    var nextList: nat
    var nodes: seq<Node>
    var credentials: seq<Credential>
    var supportedNodes: Support

    ghost function View(): Lists
      reads this
    {
      Lists(optionNames, nextList)
    }

    constructor (loaders: seq<Loader>, optionNames: map<nat, seq<string>>, nextList: nat)
      ensures this.loaders == loaders && View() == Lists(optionNames, nextList)
    {
      this.loaders, this.optionNames, this.nextList := loaders, optionNames, nextList;
      nodes, credentials, supportedNodes := [], [], map[];
    }

    /** `threw` is true where the program reads the last option of an empty list. */
    method PostProcessLoaders() returns (threw: bool)
      modifies this
      ensures !threw ==> View() == PostProcess(old(View()), loaders)
      ensures nodes == AllNodes(loaders) + Tools(old(View()), loaders).1 && credentials == AllCredentials(loaders)
      ensures supportedNodes == AddTools(AllSupport(loaders), Usable(AllNodes(loaders)))
      ensures threw <==> EmptyTarget(credentials, nodes, Tools(old(View()), loaders).0.names)
    {
      CollectFromLoaders();
      CreateAiTools();
      threw := InjectCustomApiCallOptions();
    }

    /** The registries are reset and filled, loader by loader. */
    method CollectFromLoaders()
      modifies this`nodes, this`credentials, this`supportedNodes
      ensures nodes == AllNodes(loaders) && credentials == AllCredentials(loaders)
      ensures supportedNodes == AllSupport(loaders)
    {
      nodes, credentials, supportedNodes := [], [], map[];
      var i := 0;
      while i < |loaders|
        invariant 0 <= i <= |loaders|
        invariant nodes + AllNodes(loaders[i..]) == AllNodes(loaders)
        invariant credentials + AllCredentials(loaders[i..]) == AllCredentials(loaders)
        invariant supportedNodes + AllSupport(loaders[i..]) == AllSupport(loaders)
      {
        assert loaders[i..][0] == loaders[i] && loaders[i..][1..] == loaders[i + 1..];
        ghost var restNodes, restCredentials, restSupport :=
          AllNodes(loaders[i + 1..]), AllCredentials(loaders[i + 1..]), AllSupport(loaders[i + 1..]);
        assert nodes + (loaders[i].nodes + restNodes) == (nodes + loaders[i].nodes) + restNodes;
        assert credentials + (loaders[i].credentials + restCredentials)
            == (credentials + loaders[i].credentials) + restCredentials;
        PlusAssociative(supportedNodes, FullSupport(loaders[i]), restSupport);
        nodes := nodes + loaders[i].nodes;
        credentials := credentials + loaders[i].credentials;
        supportedNodes := supportedNodes + FullSupport(loaders[i]);
        i := i + 1;
      }
      assert loaders[|loaders|..] == [];
    }

    method CreateAiTools()
      modifies this`nodes, this`optionNames, this`nextList, this`supportedNodes
      ensures var (made, tools) := MakeTools(old(View()), Usable(old(nodes)));
              View() == made && nodes == old(nodes) + tools
      ensures supportedNodes == AddTools(old(supportedNodes), Usable(old(nodes)))
    {
      var usableNodes := Usable(nodes);
      var i := 0;
      ghost var added: seq<Node> := [];
      assert usableNodes[0..] == usableNodes;
      assert [] + MakeTools(View(), usableNodes).1 == MakeTools(View(), usableNodes).1;
      while i < |usableNodes|
        invariant 0 <= i <= |usableNodes| && nodes == old(nodes) + added
        invariant var (made, tools) := MakeTools(View(), usableNodes[i..]);
                  MakeTools(old(View()), usableNodes) == (made, added + tools)
        invariant AddTools(supportedNodes, usableNodes[i..]) == AddTools(old(supportedNodes), usableNodes)
      {
        assert usableNodes[i..][0] == usableNodes[i] && usableNodes[i..][1..] == usableNodes[i + 1..];
        var (copied, wrapped) := MakeTool(Lists(optionNames, nextList), usableNodes[i]);
        ghost var later := MakeTools(copied, usableNodes[i + 1..]).1;
        assert added + ([wrapped] + later) == (added + [wrapped]) + later;
        assert old(nodes) + (added + [wrapped]) == (old(nodes) + added) + [wrapped];
        optionNames, nextList := copied.names, copied.next;
        nodes := nodes + [wrapped];
        added := added + [wrapped];
        supportedNodes := AddTool(supportedNodes, usableNodes[i].name);
        i := i + 1;
      }
      assert usableNodes[|usableNodes|..] == [];
      assert added + [] == added;
    }

    method InjectCustomApiCallOptions() returns (threw: bool)
      modifies this`optionNames
      ensures !threw ==> optionNames == InjectNodes(credentials, old(optionNames), nodes)
      ensures threw <==> EmptyTarget(credentials, nodes, old(optionNames))
    {
      var i := 0;
      while i < |nodes|
        invariant 0 <= i <= |nodes| && SameEmpty(old(optionNames), optionNames)
        invariant InjectNodes(credentials, optionNames, nodes[i..]) == InjectNodes(credentials, old(optionNames), nodes)
        invariant forall j :: 0 <= j < i && IsEligible(credentials, nodes[j]) ==>
          !MentionsEmpty(nodes[j].properties, old(optionNames))
      {
        assert nodes[i..][0] == nodes[i] && nodes[i..][1..] == nodes[i + 1..];
        if IsEligible(credentials, nodes[i]) {
          ghost var before := optionNames;
          var failed := InjectInto(nodes[i].properties);
          SameMentionsEmpty(old(optionNames), before, nodes[i].properties);
          if failed {
            EmptyTargetAt(credentials, nodes, i, old(optionNames));
            return true;
          }
        }
        i := i + 1;
      }
      assert nodes[|nodes|..] == [];
      NoEmptyTarget(credentials, nodes, old(optionNames));
      return false;
    }

    method InjectInto(properties: seq<Property>) returns (threw: bool)
      modifies this`optionNames
      ensures !threw ==> optionNames == InjectProperties(old(optionNames), properties)
      ensures threw <==> MentionsEmpty(properties, old(optionNames))
      ensures SameEmpty(old(optionNames), optionNames)
    {
      var i := 0;
      while i < |properties|
        invariant 0 <= i <= |properties| && SameEmpty(old(optionNames), optionNames)
        invariant InjectProperties(optionNames, properties[i..]) == InjectProperties(old(optionNames), properties)
        invariant forall j :: 0 <= j < i ==> !IsEmptyAt(properties[j], old(optionNames))
      {
        assert properties[i..][0] == properties[i] && properties[i..][1..] == properties[i + 1..];
        var p := properties[i];
        if TakesCall(p) && p.options.value in optionNames {
          var names := optionNames[p.options.value];
          if names == [] {
            assert p in properties && Mentions(properties, p.options.value);
            return true;
          }
          if names[|names| - 1] != CUSTOM_API_CALL {
            optionNames := optionNames[p.options.value := names + [CUSTOM_API_CALL]];
          } else {
            assert optionNames[p.options.value := names] == optionNames;
          }
        }
        i := i + 1;
      }
      assert properties[|properties|..] == [];
      return false;
    }
  }

  /** The same lists are without options. */
  ghost predicate SameEmpty(before: map<nat, seq<string>>, after: map<nat, seq<string>>) {
    after.Keys == before.Keys && forall l :: l in before ==> (before[l] == [] <==> after[l] == [])
  }

  predicate IsEmptyAt(p: Property, names: map<nat, seq<string>>) {
    TakesCall(p) && p.options.value in names && names[p.options.value] == []
  }

  /** A parameter that takes the call has a list without options. */
  ghost predicate MentionsEmpty(properties: seq<Property>, names: map<nat, seq<string>>) {
    exists l :: l in names && names[l] == [] && Mentions(properties, l)
  }

  lemma SameMentionsEmpty(before: map<nat, seq<string>>, after: map<nat, seq<string>>, properties: seq<Property>)
    requires SameEmpty(before, after)
    ensures MentionsEmpty(properties, before) <==> MentionsEmpty(properties, after)
  {
  }

  lemma EmptyTargetAt(types: seq<Credential>, nodes: seq<Node>, i: nat, names: map<nat, seq<string>>)
    requires i < |nodes| && IsEligible(types, nodes[i]) && MentionsEmpty(nodes[i].properties, names)
    ensures EmptyTarget(types, nodes, names)
  {
    var l :| l in names && names[l] == [] && Mentions(nodes[i].properties, l);
    assert IsTarget(types, nodes, l);
  }

  lemma NoEmptyTarget(types: seq<Credential>, nodes: seq<Node>, names: map<nat, seq<string>>)
    requires forall i :: 0 <= i < |nodes| && IsEligible(types, nodes[i]) ==> !MentionsEmpty(nodes[i].properties, names)
    ensures !EmptyTarget(types, nodes, names)
  {
  }

  /** An eligible node has a list without options. */
  ghost predicate EmptyTarget(types: seq<Credential>, nodes: seq<Node>, names: map<nat, seq<string>>) {
    exists l :: l in names && names[l] == [] && IsTarget(types, nodes, l)
  }
}
