/** The service that resolves and applies overwrites (packages/cli/src/credentials-overwrites.ts). */
module CredentialsOverwrites {
  import opened Options
  import opened FirstOccurrence
  import opened CredentialTypes
  import opened OverwriteRules
  import opened OverwriteTheorems
  import opened SingleInheritance

  /** `applyOverwrite`: every non-blank field is kept, every other one is filled from the overwrites if they have it. */
  ghost function Applied(overwrites: Fields, data: Fields): Fields {
    map f | f in data.Keys + overwrites.Keys :: if f in overwrites && IsBlank(data, f) then overwrites[f] else data[f]
  }

  class CredentialsOverwrites {
    var overwriteData: Table
    var resolvedTypes: seq<string>
    const credentialTypes: CredentialTypes

    ghost predicate Valid()
      reads this, credentialTypes
    {
      credentialTypes.Valid()
    }

    /** The arrays that `setData` walks now. */
    ghost function Walked(): (w: Known)
      requires Valid()
      reads this, credentialTypes
      ensures Ranked(w, credentialTypes.rank)
    {
      WalkSimilar(credentialTypes.declared, credentialTypes.known, credentialTypes.rank, credentialTypes.shared);
      credentialTypes.ClassExtends()
    }

    constructor (data: Table, keys: seq<string>, credentialTypes: CredentialTypes)
      requires credentialTypes.Valid() && Enumerates(keys, data)
      ensures this.credentialTypes == credentialTypes && Valid()
      ensures overwriteData == ResolvedTable(Walked(), credentialTypes.rank, data, keys)
    {
      this.credentialTypes := credentialTypes;
      this.resolvedTypes := [];
      new;
      SetData(data, keys);
    }

    /** `keys` is the order in which the object enumerates its properties. */
    method SetData(data: Table, keys: seq<string>)
      requires Valid() && Enumerates(keys, data)
      modifies this`overwriteData, this`resolvedTypes
      ensures overwriteData == ResolvedTable(Walked(), credentialTypes.rank, data, keys)
    {
      resolvedTypes := [];
      overwriteData := data;
      ghost var w, rank := Walked(), credentialTypes.rank;
      var i := 0;
      while i < |keys|
        invariant 0 <= i <= |keys|
        invariant SetAll(w, rank, overwriteData, resolvedTypes, keys[i..]) == SetAll(w, rank, data, [], keys)
      {
        assert keys[i..][0] == keys[i] && keys[i..][1..] == keys[i + 1..];
        var overwrites := GetOverwrites(keys[i]);
        if overwrites.Some? && |overwrites.value.Keys| > 0 {
          overwriteData := overwriteData[keys[i] := overwrites.value];
        }
        i := i + 1;
      }
      assert keys[|keys|..] == [];
    }

    method GetOverwrites(typeName: string) returns (overwrites: Option<Fields>)
      requires Valid()
      modifies this`resolvedTypes
      ensures (overwrites, resolvedTypes)
           == Resolve(Walked(), credentialTypes.rank, overwriteData, old(resolvedTypes), typeName)
      decreases credentialTypes.rank(typeName)
    {
      var stored := if typeName in overwriteData then Some(overwriteData[typeName]) else None;
      if typeName in resolvedTypes {
        return stored;
      }
      if !credentialTypes.Recognizes(typeName) {
        return None;
      }
      var parents := credentialTypes.ExtendsOf(typeName);
      if parents == None {
        resolvedTypes := resolvedTypes + [typeName];
        return stored;
      }
      ghost var w, rank := Walked(), credentialTypes.rank;
      assert Parents(w, typeName) == parents.value;
      var collected: Fields := map[];
      var i := 0;
      while i < |parents.value|
        invariant 0 <= i <= |parents.value|
        invariant forall p :: p in parents.value[i..] ==> rank(p) < rank(typeName)
        invariant ResolveAll(w, rank, overwriteData, resolvedTypes, typeName, parents.value[i..], collected)
               == ResolveAll(w, rank, overwriteData, old(resolvedTypes), typeName, parents.value, map[])
      {
        assert parents.value[i..][0] == parents.value[i] && parents.value[i..][1..] == parents.value[i + 1..];
        var found := GetOverwrites(parents.value[i]);
        collected := collected + FieldsOf(found);
        i := i + 1;
      }
      assert parents.value[|parents.value|..] == [];
      assert collected + map[] == collected;
      if typeName in overwriteData {
        collected := collected + overwriteData[typeName];
      }
      resolvedTypes := resolvedTypes + [typeName];
      return Some(collected);
    }

    /** The result does not depend on how far the arrays have grown. */
    method Get(name: string) returns (overwrites: Fields)
      requires Valid()
      modifies credentialTypes`known
      ensures Valid()
      ensures credentialTypes.known == Grow(old(credentialTypes.known), credentialTypes.rank, name)
      ensures overwrites == Lookup(credentialTypes.declared, credentialTypes.rank, overwriteData, name)
    {
      ghost var d, k, rank := credentialTypes.declared, credentialTypes.known, credentialTypes.rank;
      GrowKeeps(d, k, rank, name);
      var parentTypes := credentialTypes.GetParentTypes(name);
      overwrites := Merge(overwriteData, [name] + parentTypes);
      LookupFirstOcc(d, rank, overwriteData, name, parentTypes);
    }

    method ApplyOverwrite(typeName: string, data: Fields) returns (returnData: Fields)
      requires Valid()
      modifies credentialTypes`known
      ensures Valid()
      ensures returnData
           == Applied(Lookup(credentialTypes.declared, credentialTypes.rank, overwriteData, typeName), data)
    {
      var overwrites := Get(typeName);
      returnData := FillBlanks(overwrites, data);
    }
  }

  /** The field `f` of the copy while the overwrites in `todo` have not been looked at. */
  ghost function Filled(overwrites: Fields, data: Fields, todo: set<string>, f: string): Option<Value> {
    if f in overwrites && f !in todo && IsBlank(data, f) then Some(overwrites[f]) else Field(data, f)
  }

  lemma FilledIsApplied(overwrites: Fields, data: Fields, returnData: Fields)
    requires forall f :: Field(returnData, f) == Filled(overwrites, data, {}, f)
    ensures returnData == Applied(overwrites, data)
  {
    forall f ensures Field(returnData, f) == Field(Applied(overwrites, data), f) {
      assert Field(returnData, f) == Filled(overwrites, data, {}, f);
    }
    SameFields(returnData, Applied(overwrites, data));
  }

  /** The copy of `data` with its blank fields filled, key by key. */
  method FillBlanks(overwrites: Fields, data: Fields) returns (returnData: Fields)
    ensures returnData == Applied(overwrites, data)
  {
    returnData := data;
    var todo := overwrites.Keys;
    while todo != {}
      invariant todo <= overwrites.Keys
      invariant forall f :: Field(returnData, f) == Filled(overwrites, data, todo, f)
      decreases |todo|
    {
      var key :| key in todo;
      ghost var before, left := returnData, todo;
      assert Field(before, key) == Filled(overwrites, data, left, key) == Field(data, key);
      if IsBlank(returnData, key) {
        returnData := returnData[key := overwrites[key]];
      }
      todo := todo - {key};
      forall f ensures Field(returnData, f) == Filled(overwrites, data, todo, f) {
        assert Field(before, f) == Filled(overwrites, data, left, f);
        assert f != key ==> Field(returnData, f) == Field(before, f);
      }
    }
    FilledIsApplied(overwrites, data, returnData);
  }

  // ---- setData followed by applyOverwrite ------------------------------------------------------------------

  /**
    On a chain: a field that is neither null nor an empty text is kept; any other takes the nearest definition, where
    there is one; the fields are those of the input and those that the type or an ancestor defines. Doing it twice
    changes nothing more.
   */
  lemma ApplyOverwriteRule(d: Known, rank: string -> nat, raw: Table, keys: seq<string>, t: string, data: Fields,
                           f: string)
    requires Ranked(d, rank) && Enumerates(keys, raw) && Linear(d, rank, t)
    ensures var overwrites := Lookup(d, rank, ResolvedTable(d, rank, raw, keys), t);
            var applied := Applied(overwrites, data);
            var filled := f in data && data[f] != Null && data[f] != Text("");
            && (filled ==> Field(applied, f) == Some(data[f]))
            && (!filled && Nearest(d, rank, raw, t, f).Some? ==> Field(applied, f) == Nearest(d, rank, raw, t, f))
            && (!filled && Nearest(d, rank, raw, t, f) == None ==> Field(applied, f) == Field(data, f))
            && (f in applied <==> f in data || exists u :: InFamily(d, rank, t, u) && f in Own(raw, u))
            && Applied(overwrites, applied) == applied
  {
    var table := ResolvedTable(d, rank, raw, keys);
    var overwrites := Lookup(d, rank, table, t);
    SetDataSandwich(d, rank, raw, keys);
    SimilarToItself(d, rank);
    LookupOnChain(d, d, rank, raw, table, t, f);
    NearestDefinedInFamily(d, d, rank, raw, t, f);
    assert Field(overwrites, f) == Nearest(d, rank, raw, t, f);
  }
}
