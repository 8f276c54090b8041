/**
  Overwrite tables of credential types and the functions that specify `CredentialsOverwrites`
  (packages/cli/src/credentials-overwrites.ts), with the rule that lookups are meant to follow.
 */
module OverwriteRules {
  import opened Options
  import opened CredentialTypes

  /** A credential field: null, a text, or any other JSON value. */
  datatype Value = Null | Text(text: string) | Other(json: string)

  /** The fields of one credential; an absent key is an undefined field. */
  type Fields = map<string, Value>

  /** The overwrites of each credential type. */
  type Table = map<string, Fields>

  function Own(table: Table, t: string): Fields {
    if t in table then table[t] else map[]
  }

  function Field(fields: Fields, f: string): Option<Value> {
    if f in fields then Some(fields[f]) else None
  }

  /** A key order of the table: every type once. */
  ghost predicate Enumerates(keys: seq<string>, table: Table) {
    && (forall t :: t in keys <==> t in table)
    && forall i, j :: 0 <= i < j < |keys| ==> keys[i] != keys[j]
  }

  // ---- setData ---------------------------------------------------------------------------------------------

  /** `getOverwrites(t)`: the fields found, and the types marked as resolved afterwards. */
  ghost function Resolve(w: Known, rank: string -> nat, table: Table, done: seq<string>,
                         t: string): (Option<Fields>, seq<string>)
    requires Ranked(w, rank)
    decreases rank(t), 1, 0
  {
    if t in done then
      (if t in table then Some(table[t]) else None, done)
    else if t !in w then
      (None, done)
    else if w[t] == None then
      (if t in table then Some(table[t]) else None, done + [t])
    else
      var (fields, done1) := ResolveAll(w, rank, table, done, t, Parents(w, t), map[]);
      (Some(fields + Own(table, t)), done1 + [t])
  }

  /** The loop of that call over the parents `ps`, from the fields `acc` collected so far. */
  ghost function ResolveAll(w: Known, rank: string -> nat, table: Table, done: seq<string>, t: string,
                            ps: seq<string>, acc: Fields): (Fields, seq<string>)
    requires Ranked(w, rank)
    requires forall p :: p in ps ==> rank(p) < rank(t)
    decreases rank(t), 0, |ps|
  {
    if ps == [] then (acc, done)
    else
      var (found, done1) := Resolve(w, rank, table, done, ps[0]);
      ResolveAll(w, rank, table, done1, t, ps[1..], acc + FieldsOf(found))
  }

  /** What `Object.assign` takes from a source that may be undefined. */
  function FieldsOf(found: Option<Fields>): Fields {
    if found.Some? then found.value else map[]
  }

  /** The loop of `setData` over the keys it has still to visit. */
  ghost function SetAll(w: Known, rank: string -> nat, table: Table, done: seq<string>,
                        keys: seq<string>): (Table, seq<string>)
    requires Ranked(w, rank)
    decreases |keys|
  {
    if keys == [] then (table, done)
    else
      var (found, done1) := Resolve(w, rank, table, done, keys[0]);
      SetAll(w, rank, Store(table, keys[0], found), done1, keys[1..])
  }

  function Store(table: Table, t: string, found: Option<Fields>): Table {
    if found.Some? && |found.value.Keys| > 0 then table[t := found.value] else table
  }

  /** The table that `setData(raw)` leaves, when the object enumerates its keys in the order `keys`. */
  ghost function ResolvedTable(w: Known, rank: string -> nat, raw: Table, keys: seq<string>): Table
    requires Ranked(w, rank)
  {
    SetAll(w, rank, raw, [], keys).0
  }

  // ---- get and applyOverwrite ------------------------------------------------------------------------------

  /** The fields of the listed types merged from right to left, so that the leftmost type wins. */
  function Merge(table: Table, types: seq<string>): Fields {
    if types == [] then map[] else Merge(table, types[1..]) + Own(table, types[0])
  }

  /** The lookup with the reference ancestor list. */
  ghost function Lookup(d: Known, rank: string -> nat, table: Table, t: string): Fields
    requires Ranked(d, rank)
  {
    Merge(table, [t] + Ancestors(d, rank, t))
  }

  /** `[null, undefined, ''].includes(data[f])` */
  predicate IsBlank(data: Fields, f: string) {
    f !in data || data[f] == Null || data[f] == Text("")
  }

  // ---- The rule --------------------------------------------------------------------------------------------

  /** For single inheritance: the raw value of `f` at the nearest type up the chain that defines it. */
  ghost function Nearest(w: Known, rank: string -> nat, raw: Table, t: string, f: string): Option<Value>
    requires Ranked(w, rank)
    decreases rank(t)
  {
    if f in Own(raw, t) then Some(raw[t][f])
    else if Parents(w, t) == [] then None
    else Nearest(w, rank, raw, Parents(w, t)[0], f)
  }

  /**
    For several parents: `v` is the raw value of `f` at a type that some path along `extends` reaches from `t`
    without passing a type that defines `f`.
   */
  ghost predicate Inherits(w: Known, rank: string -> nat, raw: Table, t: string, f: string, v: Value)
    requires Ranked(w, rank)
    decreases rank(t)
  {
    if f in Own(raw, t) then raw[t][f] == v
    else exists p :: p in Parents(w, t) && Inherits(w, rank, raw, p, f, v)
  }

  /** The ancestry of `t` is a chain: neither it nor an ancestor extends two different types. */
  ghost predicate Linear(w: Known, rank: string -> nat, t: string)
    requires Ranked(w, rank)
    decreases rank(t)
  {
    Parents(w, t) != [] ==>
      && (forall p :: p in Parents(w, t) ==> p == Parents(w, t)[0])
      && Linear(w, rank, Parents(w, t)[0])
  }

  /** `t` itself or one of its ancestors. */
  ghost predicate InFamily(d: Known, rank: string -> nat, t: string, u: string)
    requires Ranked(d, rank)
  {
    u == t || u in Ancestors(d, rank, t)
  }

  /** The arrays `w` are those of `d`, possibly grown by ancestors. */
  ghost predicate Similar(d: Known, w: Known, rank: string -> nat) {
    && Ranked(d, rank) && Ranked(w, rank)
    && (forall t, p :: p in Parents(d, t) ==> p in Parents(w, t))
    && (forall t, p :: p in Parents(w, t) ==> p in Ancestors(d, rank, t))
  }
}
