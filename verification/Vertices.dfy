/** One vertex type, materialised from the mappings that emit it: `finalize_vertex` and what it calls. */
module Vertices {
  import opened Results
  import opened Tables

  const MAX_ID: nat := 0xFFFF_FFFF

  datatype Cardinality = Single | Multi

  datatype Property = Property(name: string, cardinality: Cardinality)

  datatype Node = Node(typeName: string, properties: seq<Property>)

  /** A projection before it is collected: the columns beside `subject`, and the rows. */
  datatype Frame = Frame(types: map<string, ColumnType>, rows: seq<Row>)

  /** One mapping's contribution to a vertex type. */
  datatype Prepared = Prepared(node: Node, dedup: bool, frame: Frame)

  datatype Failure =
    | TooLarge(vertices: nat)
    | TooManyValues(at: string, subject: Cell, first: Cell, second: Cell)
    | EngineRefused

  /** A row before it is numbered. */
  datatype Bare = Bare(subject: Cell, cells: map<string, Cell>)

  datatype Vertex = Vertex(id: nat, row: Bare)

  datatype PropertyTable = PropertyTable(name: string, batches: seq<seq<Pair>>)

  datatype VertexTable = VertexTable(typeName: string, batches: seq<seq<Vertex>>, properties: seq<PropertyTable>)

  /** The engine's catalogue of in-memory tables, which the edge phase reads back. */
  class Session {
    var tables: map<string, seq<seq<Vertex>>>

    constructor ()
      ensures tables == map[]
    {
      tables := map[];
    }

    method Register(typeName: string, batches: seq<seq<Vertex>>)
      modifies this
      ensures tables == old(tables)[typeName := batches]
    {
      tables := tables[typeName := batches];
    }

    /** `ctx.table(typeName)` and a selection of `subject` and the id. A table registered from no batch
        has the empty schema, so selecting a column of it is refused. */
    method Select(typeName: string) returns (r: Result<seq<Vertex>, Failure>)
      ensures r == Selected(tables, typeName)
    {
      if typeName in tables && tables[typeName] != [] {
        r := Ok(Flatten(tables[typeName]));
      } else {
        r := Err(EngineRefused);
      }
    }
  }

  function Selected(tables: map<string, seq<seq<Vertex>>>, typeName: string): Result<seq<Vertex>, Failure> {
    if typeName in tables && tables[typeName] != [] then Ok(Flatten(tables[typeName])) else Err(EngineRefused)
  }

  // ------------------------------------------------------------------ the mappings of one type

  predicate Names(properties: seq<Property>, name: string) {
    exists p :: p in properties && p.name == name
  }

  ghost predicate DistinctNames(properties: seq<Property>) {
    forall i, j | 0 <= i < j < |properties| :: properties[i].name != properties[j].name
  }

  ghost predicate RowFits(r: Row, types: map<string, ColumnType>) {
    r.entries.Keys == types.Keys && forall n | n in types :: Fits(r.entries[n], types[n])
  }

  /** What a projection is: a column per property of the node, every row of the columns' types. */
  ghost predicate WellFormed(p: Prepared) {
    && DistinctNames(p.node.properties)
    && (forall n :: n in p.frame.types <==> Names(p.node.properties, n))
    && forall r | r in p.frame.rows :: RowFits(r, p.frame.types)
  }

  /** `p` is what the first mapping to write `p.name` says of it. */
  ghost predicate FirstSaysBefore(group: seq<Prepared>, limit: nat, p: Property)
    requires limit <= |group|
  {
    exists k ::
      && 0 <= k < limit
      && p in group[k].node.properties
      && forall j | 0 <= j < k :: !Names(group[j].node.properties, p.name)
  }

  ghost predicate FirstSays(group: seq<Prepared>, p: Property) {
    FirstSaysBefore(group, |group|, p)
  }

  /** Every property of every mapping, in order. */
  ghost function Listed(group: seq<Prepared>): seq<Property> {
    if group == [] then [] else Listed(group[..|group| - 1]) + group[|group| - 1].node.properties
  }

  /** `kept` is, at the places `at` of `all` and in their order, the first of each name. */
  ghost predicate FirstsAt(all: seq<Property>, kept: seq<Property>, at: seq<nat>) {
    && |at| == |kept|
    && (forall i, j | 0 <= i < j < |at| :: at[i] < at[j])
    && (forall i | 0 <= i < |at| ::
          at[i] < |all| && kept[i] == all[at[i]] && !Names(all[..at[i]], kept[i].name))
    && forall p | p in all :: Names(kept, p.name)
  }

  ghost predicate FirstSeen(all: seq<Property>, kept: seq<Property>) {
    exists at :: FirstsAt(all, kept, at)
  }

  lemma {:induction false} FirstSeenStep(all: seq<Property>, kept: seq<Property>, p: Property)
    requires FirstSeen(all, kept)
    ensures FirstSeen(all + [p], if Names(kept, p.name) then kept else kept + [p])
  {
    var at :| FirstsAt(all, kept, at);
    forall i | 0 <= i < |at|
      ensures (all + [p])[..at[i]] == all[..at[i]]
    {
    }
    if Names(kept, p.name) {
      assert FirstsAt(all + [p], kept, at);
    } else {
      NewAtEnd(all, kept, at, p);
    }
  }

  lemma {:induction false} NewAtEnd(all: seq<Property>, kept: seq<Property>, at: seq<nat>, p: Property)
    requires FirstsAt(all, kept, at) && !Names(kept, p.name)
    ensures FirstSeen(all + [p], kept + [p])
  {
    var more, places := all + [p], at + [|all|];
    hide Names;
    assert more[..|all|] == all;
    assert forall i | 0 <= i < |at| :: more[..at[i]] == all[..at[i]];
    NewIsNamed(all, kept, p);
    assert FirstsAt(more, kept + [p], places);
  }

  lemma {:induction false} NewIsNamed(all: seq<Property>, kept: seq<Property>, p: Property)
    requires (forall q | q in all :: Names(kept, q.name)) && !Names(kept, p.name)
    ensures (forall q | q in all + [p] :: Names(kept + [p], q.name)) && !Names(all, p.name)
  {
    assert p in kept + [p] && forall k | k in kept :: k in kept + [p];
    forall q | q in all
      ensures Names(kept + [p], q.name)
    {
      var k :| k in kept && k.name == q.name;
    }
  }

  lemma {:induction false} AllFirst(all: seq<Property>)
    requires DistinctNames(all)
    ensures FirstSeen(all, all)
  {
    var at := seq(|all|, i => i);
    assert FirstsAt(all, all, at);
  }

  ghost predicate IsMergedNode(group: seq<Prepared>, node: Node) {
    && group != []
    && node.typeName == group[0].node.typeName
    && group[0].node.properties <= node.properties
    && DistinctNames(node.properties)
    && (forall p | p in node.properties :: FirstSays(group, p))
    && forall g, p | g in group && p in g.node.properties :: Names(node.properties, p.name)
  }

  /** The inner loop of the merge: the properties of one more mapping, those not yet named. */
  method AddUnnamed(properties: seq<Property>, more: seq<Property>, ghost seen: seq<Property>)
    returns (out: seq<Property>)
    requires DistinctNames(properties) && FirstSeen(seen, properties)
    ensures FirstSeen(seen + more, out)
    ensures DistinctNames(out) && properties <= out
    ensures forall p | p in out :: p in properties || (p in more && !Names(properties, p.name))
    ensures forall p | p in more :: Names(out, p.name)
  {
    hide FirstSeen;
    out := properties;
    assert seen + more[..0] == seen;
    for i := 0 to |more|
      invariant DistinctNames(out) && properties <= out && FirstSeen(seen + more[..i], out)
      invariant forall p | p in out :: p in properties || (p in more && !Names(properties, p.name))
      invariant forall j | 0 <= j < i :: Names(out, more[j].name)
    {
      FirstSeenStep(seen + more[..i], out, more[i]);
      assert seen + more[..i] + [more[i]] == seen + more[..i + 1];
      if !Names(out, more[i].name) {
        ghost var before := out;
        assert !Names(properties, more[i].name);
        out := out + [more[i]];
        assert more[i] in out && forall p | p in before :: p in out;
      }
    }
    assert more[..|more|] == more;
  }

  /** `node` is the merge of the first `k` mappings. */
  ghost predicate MergedBefore(group: seq<Prepared>, k: nat, node: Node)
    requires 0 < k <= |group|
  {
    && node.typeName == group[0].node.typeName
    && group[0].node.properties <= node.properties
    && FirstSeen(Listed(group[..k]), node.properties)
    && DistinctNames(node.properties)
    && (forall p | p in node.properties :: FirstSaysBefore(group, k, p))
    && forall j, p | 0 <= j < k && p in group[j].node.properties :: Names(node.properties, p.name)
  }

  lemma {:induction false} UnnamedIsFirst(group: seq<Prepared>, k: nat, node: Node, p: Property)
    requires 0 < k < |group| && MergedBefore(group, k, node)
    requires p in group[k].node.properties && !Names(node.properties, p.name)
    ensures FirstSaysBefore(group, k + 1, p)
  {
    forall j, q | 0 <= j < k && q in group[j].node.properties
      ensures q.name != p.name
    {
      assert Names(node.properties, q.name);
    }
  }

  lemma {:induction false} MergeStep(group: seq<Prepared>, k: nat, node: Node, out: seq<Property>)
    requires 0 < k < |group| && MergedBefore(group, k, node)
    requires DistinctNames(out) && node.properties <= out
    requires forall p | p in out ::
               p in node.properties || (p in group[k].node.properties && !Names(node.properties, p.name))
    requires forall p | p in group[k].node.properties :: Names(out, p.name)
    requires FirstSeen(Listed(group[..k]) + group[k].node.properties, out)
    ensures MergedBefore(group, k + 1, node.(properties := out))
  {
    hide DistinctNames, FirstSeen;
    assert group[..k + 1][..k] == group[..k];
    assert forall p | p in node.properties :: p in out;
    forall p | p in out
      ensures FirstSaysBefore(group, k + 1, p)
    {
      if p in node.properties {
        assert FirstSaysBefore(group, k, p);
      } else {
        UnnamedIsFirst(group, k, node, p);
      }
    }
    hide FirstSaysBefore;
    forall j, p | 0 <= j < k + 1 && p in group[j].node.properties
      ensures Names(out, p.name)
    {
      if j < k {
        assert Names(node.properties, p.name);
        var q :| q in node.properties && q.name == p.name;
        assert q in out;
      }
    }
  }

  method MergeNode(group: seq<Prepared>) returns (node: Node)
    requires group != []
    requires forall g | g in group :: WellFormed(g)
    ensures IsMergedNode(group, node) && FirstSeen(Listed(group), node.properties)
  {
    hide FirstSeen;
    node := group[0].node;
    assert WellFormed(group[0]);
    AllFirst(node.properties);
    assert group[..1] == [group[0]] && Listed(group[..1][..0]) == [];
    assert Listed(group[..1]) == node.properties;
    for k := 1 to |group|
      invariant MergedBefore(group, k, node)
    {
      var out := AddUnnamed(node.properties, group[k].node.properties, Listed(group[..k]));
      MergeStep(group, k, node, out);
      node := node.(properties := out);
    }
    assert group[..|group|] == group;
  }

  lemma {:induction false} MergedNames(group: seq<Prepared>, node: Node, name: string)
    requires IsMergedNode(group, node)
    ensures Names(node.properties, name) <==> exists g :: g in group && Names(g.node.properties, name)
  {
    if Names(node.properties, name) {
      var p :| p in node.properties && p.name == name;
      assert FirstSays(group, p);
    }
    if g :| g in group && Names(g.node.properties, name) {
      var p :| p in g.node.properties && p.name == name;
    }
  }

  // ------------------------------------------------------------------ the union

  /** The type of a column: the first mapping to write it says. */
  function TypeIn(group: seq<Prepared>, name: string): ColumnType
    requires exists g :: g in group && Names(g.node.properties, name)
    requires forall g | g in group :: WellFormed(g)
  {
    assert WellFormed(group[0]);
    if Names(group[0].node.properties, name) then group[0].frame.types[name]
    else
      assert forall g | g in group :: g == group[0] || g in group[1..];
      TypeIn(group[1..], name)
  }

  /** Every mapping spells a column it writes as `types` does: else the engine refuses the union. */
  predicate Agrees(p: Prepared, types: map<string, ColumnType>) {
    forall n | n in p.frame.types && n in types :: p.frame.types[n] == types[n]
  }

  function Align(r: Row, types: map<string, ColumnType>): (a: Row)
    ensures a.subject == r.subject && a.entries.Keys == types.Keys
  {
    Row(r.subject, map n | n in types :: if n in r.entries then r.entries[n] else TypedNull(types[n]))
  }

  /** `a` is `r` under the union's header: a column `r` has stands, and any other is a null of the column's type. */
  ghost predicate IsAligned(a: Row, r: Row, types: map<string, ColumnType>) {
    && a.subject == r.subject && (forall n :: n in a.entries <==> n in types)
    && (forall n | n in types && n in r.entries :: a.entries[n] == r.entries[n])
    && (forall n | n in types && n !in r.entries ::
          if types[n].ScalarColumn? then a.entries[n] == Scalar(Null) else a.entries[n] == NullList)
  }

  lemma {:induction false} AlignIsAligned(a: Row, r: Row, types: map<string, ColumnType>)
    ensures IsAligned(a, r, types) <==> a == Align(r, types)
  {
    if IsAligned(a, r, types) {
      assert a.entries == Align(r, types).entries;
    }
  }

  function AlignAll(rows: seq<Row>, types: map<string, ColumnType>): (out: seq<Row>)
    ensures |out| == |rows| && forall i | 0 <= i < |rows| :: out[i] == Align(rows[i], types)
  {
    seq(|rows|, i requires 0 <= i < |rows| => Align(rows[i], types))
  }

  /** `UNION ALL` of the aligned projections. */
  function UnionRows(group: seq<Prepared>, types: map<string, ColumnType>): seq<Row> {
    if group == [] then [] else AlignAll(group[0].frame.rows, types) + UnionRows(group[1..], types)
  }

  /** The rows of every mapping as the mapping has them, mapping by mapping. */
  function OwnRows(group: seq<Prepared>): seq<Row> {
    if group == [] then [] else group[0].frame.rows + OwnRows(group[1..])
  }

  ghost predicate IsUnion(rows: seq<Row>, group: seq<Prepared>, types: map<string, ColumnType>) {
    && |rows| == |OwnRows(group)|
    && forall i | 0 <= i < |rows| :: IsAligned(rows[i], OwnRows(group)[i], types)
  }

  lemma {:induction false} UnionIsAligned(group: seq<Prepared>, types: map<string, ColumnType>)
    ensures UnionRows(group, types) == AlignAll(OwnRows(group), types)
    ensures IsUnion(UnionRows(group, types), group, types)
  {
    if group == [] {
    } else {
      UnionIsAligned(group[1..], types);
    }
    var rows, own := UnionRows(group, types), OwnRows(group);
    forall i | 0 <= i < |rows|
      ensures IsAligned(rows[i], own[i], types)
    {
      AlignIsAligned(rows[i], own[i], types);
    }
  }

  lemma {:induction false} UnionAppend(group: seq<Prepared>, p: Prepared, types: map<string, ColumnType>)
    ensures UnionRows(group + [p], types) == UnionRows(group, types) + AlignAll(p.frame.rows, types)
  {
    hide AlignAll;
    if group == [] {
      assert group + [p] == [p] && [p][1..] == [];
    } else {
      UnionAppend(group[1..], p, types);
      assert (group + [p])[1..] == group[1..] + [p];
    }
  }

  method UnionAll(group: seq<Prepared>, types: map<string, ColumnType>) returns (r: Result<seq<Row>, Failure>)
    ensures r == if forall g | g in group :: Agrees(g, types) then Ok(UnionRows(group, types)) else Err(EngineRefused)
    ensures r.Ok? ==> IsUnion(r.value, group, types)
  {
    UnionIsAligned(group, types);
    var rows := [];
    for k := 0 to |group|
      invariant rows == UnionRows(group[..k], types)
      invariant forall j | 0 <= j < k :: Agrees(group[j], types)
    {
      if !Agrees(group[k], types) {
        return Err(EngineRefused);
      }
      UnionAppend(group[..k], group[k], types);
      assert group[..k] + [group[k]] == group[..k + 1];
      rows := rows + AlignAll(group[k].frame.rows, types);
    }
    assert group[..|group|] == group;
    r := Ok(rows);
  }

  lemma {:induction false} UnionMember(group: seq<Prepared>, types: map<string, ColumnType>, a: Row)
    ensures a in UnionRows(group, types) <==>
      exists g, r :: g in group && r in g.frame.rows && a == Align(r, types)
    ensures a in UnionRows(group, types) <==>
      exists g, r :: g in group && r in g.frame.rows && IsAligned(a, r, types)
  {
    forall r
      ensures IsAligned(a, r, types) <==> a == Align(r, types)
    {
      AlignIsAligned(a, r, types);
    }
    if group == [] {
    } else {
      UnionMember(group[1..], types, a);
      var head := AlignAll(group[0].frame.rows, types);
      assert a in UnionRows(group, types) <==> a in head || a in UnionRows(group[1..], types);
      assert forall g | g in group :: g == group[0] || g in group[1..];
      if g, r :| g in group && r in g.frame.rows && a == Align(r, types) {
        if g == group[0] {
          var i :| 0 <= i < |g.frame.rows| && g.frame.rows[i] == r;
          assert head[i] == a;
        }
      }
      if a in head {
        var i :| 0 <= i < |head| && head[i] == a;
        assert group[0].frame.rows[i] in group[0].frame.rows;
      }
    }
  }

  // ------------------------------------------------------------------ refusing two values

  /** `c` is the one non-null value the rows offer, or null when none does. */
  ghost predicate OnlyOffer(rows: seq<Row>, subject: Cell, name: string, c: Cell)
    requires forall r | r in rows :: HasScalar(r, name)
  {
    var offers := Offers(rows, subject, name);
    && (c.Null? ==> forall o | o in offers :: o.Null?)
    && (c.Val? ==> c in offers && forall o | o in offers :: o.Null? || o == c)
  }

  /** Some row offers `a` and some row offers another value `b`. */
  ghost predicate TwoValues(rows: seq<Row>, subject: Cell, name: string, a: Cell, b: Cell)
    requires forall r | r in rows :: HasScalar(r, name)
  {
    a.Val? && b.Val? && a != b && a in Offers(rows, subject, name) && b in Offers(rows, subject, name)
  }

  ghost predicate Conflict(rows: seq<Row>, names: seq<string>)
    requires ScalarColumns(rows, names)
  {
    exists s, i, a, b :: 0 <= i < |names| && TwoValues(rows, s, names[i], a, b)
  }

  /** Least and greatest differ exactly when two values are offered, and are else the one offered. */
  lemma {:induction false} LeastIsGreatest(rows: seq<Row>, subject: Cell, name: string)
    requires forall r | r in rows :: HasScalar(r, name)
    ensures var offers := Offers(rows, subject, name);
            if Least(offers) == Greatest(offers) then
              OnlyOffer(rows, subject, name, Least(offers)) && forall a, b :: !TwoValues(rows, subject, name, a, b)
            else TwoValues(rows, subject, name, Least(offers), Greatest(offers))
  {
    var offers := Offers(rows, subject, name);
    if Least(offers) == Greatest(offers) {
      assert forall o | o in offers :: o.Null? || o == Least(offers);
    }
  }

  function Kept(g: Group, names: seq<string>): (b: Bare)
    requires Distinct(names) && Shaped(g, names)
    ensures b.subject == g.subject && b.cells.Keys == set n | n in names
    ensures forall i | 0 <= i < |names| :: b.cells[names[i]] == g.least[i]
  {
    Bare(g.subject, Zip(names, g.least))
  }

  function Zip(names: seq<string>, cells: seq<Cell>): (m: map<string, Cell>)
    requires |cells| == |names| && Distinct(names)
    ensures m.Keys == set n | n in names
    ensures forall i | 0 <= i < |names| :: m[names[i]] == cells[i]
  {
    if names == [] then map[]
    else
      var rest := Zip(names[1..], cells[1..]);
      assert forall n | n in names :: n == names[0] || n in names[1..];
      assert forall i | 1 <= i < |names| :: names[i] == names[1..][i - 1];
      rest[names[0] := cells[0]]
  }

  predicate Distinct(names: seq<string>) {
    forall i, j | 0 <= i < j < |names| :: names[i] != names[j]
  }

  predicate Shaped(g: Group, names: seq<string>) {
    |g.least| == |g.greatest| == |g.several| == |names|
  }

  predicate AllShaped(groups: seq<Group>, names: seq<string>) {
    forall i | 0 <= i < |groups| :: Shaped(groups[i], names)
  }

  /** What the refusal of column `i` of a merged row says: the column, the subject, its two values. */
  ghost predicate Reports(error: Failure, typeName: string, names: seq<string>, g: Group, i: int) {
    && 0 <= i < |names| && Shaped(g, names) && g.several[i]
    && error == TooManyValues(typeName + "." + names[i], g.subject, g.least[i], g.greatest[i])
  }

  predicate Refused(g: Group) {
    exists i :: 0 <= i < |g.several| && g.several[i]
  }

  function KeepAll(groups: seq<Group>, names: seq<string>): (out: seq<Bare>)
    requires Distinct(names) && AllShaped(groups, names)
    ensures |out| == |groups| && forall i | 0 <= i < |groups| :: out[i] == Kept(groups[i], names)
  {
    seq(|groups|, i requires 0 <= i < |groups| => Kept(groups[i], names))
  }

  method FindSeveral(batch: seq<Group>, column: nat) returns (row: nat)
    requires forall g | g in batch :: column < |g.several|
    ensures row <= |batch|
    ensures row < |batch| ==> batch[row].several[column]
    ensures forall k | 0 <= k < row :: !batch[k].several[column]
  {
    row := 0;
    while row < |batch| && !batch[row].several[column]
      invariant row <= |batch|
      invariant forall k | 0 <= k < row :: !batch[k].several[column]
    {
      row := row + 1;
    }
  }

  /** One collected batch of the merge: refuse the first column some row of which saw two values. */
  method SingleValuedBatch(
    typeName: string, names: seq<string>, batch: seq<Group>)
    returns (r: Result<seq<Bare>, Failure>)
    requires Distinct(names)
    requires AllShaped(batch, names)
    ensures r.Ok? <==> forall g | g in batch :: !Refused(g)
    ensures r.Ok? ==> r.value == KeepAll(batch, names)
    ensures r.Err? ==> exists g, i :: g in batch && Reports(r.error, typeName, names, g, i)
  {
    for i := 0 to |names|
      invariant forall g, j | g in batch && 0 <= j < i :: !g.several[j]
    {
      var row := FindSeveral(batch, i);
      if row < |batch| {
        var g := batch[row];
        r := Err(TooManyValues(typeName + "." + names[i], g.subject, g.least[i], g.greatest[i]));
        assert g in batch && Reports(r.error, typeName, names, g, i);
        return;
      }
    }
    r := Ok(KeepAll(batch, names));
  }

  lemma {:induction false} BatchWithin<T>(batches: seq<seq<T>>, k: nat) returns (p: nat)
    requires k < |batches|
    ensures p + |batches[k]| <= |Flatten(batches)| && batches[k] == Flatten(batches)[p..p + |batches[k]|]
  {
    FlattenPrefix(batches, k);
    p := |Flatten(batches[..k])|;
    assert Flatten(batches[k..]) == batches[k] + Flatten(batches[k..][1..]);
    assert batches[k] == Flatten(batches)[p..p + |batches[k]|];
  }

  lemma {:induction false} KeepStep(
    batches: seq<seq<Group>>, k: nat, out: seq<seq<Bare>>, kept: seq<Bare>, names: seq<string>)
    requires k < |batches| && Distinct(names)
    requires AllShaped(Flatten(batches[..k]), names) && AllShaped(batches[k], names)
    requires Flatten(out) == KeepAll(Flatten(batches[..k]), names) && kept == KeepAll(batches[k], names)
    ensures Flatten(batches[..k + 1]) == Flatten(batches[..k]) + batches[k]
    ensures AllShaped(Flatten(batches[..k + 1]), names)
    ensures Flatten(out + [kept]) == KeepAll(Flatten(batches[..k + 1]), names)
  {
    hide Kept, Flatten;
    FlattenAppend(batches[..k], batches[k]);
    FlattenAppend(out, kept);
    assert batches[..k] + [batches[k]] == batches[..k + 1];
  }

  method SingleValued(typeName: string, names: seq<string>, batches: seq<seq<Group>>)
    returns (r: Result<seq<seq<Bare>>, Failure>)
    requires Distinct(names)
    requires AllShaped(Flatten(batches), names)
    ensures r.Ok? <==> forall g | g in Flatten(batches) :: !Refused(g)
    ensures r.Ok? ==> |r.value| == |batches| && Flatten(r.value) == KeepAll(Flatten(batches), names)
    ensures r.Err? ==> exists g, i :: g in Flatten(batches) && Reports(r.error, typeName, names, g, i)
  {
    hide Refused, Kept, Reports;
    var out: seq<seq<Bare>> := [];
    for k := 0 to |batches|
      invariant |out| == k
      invariant AllShaped(Flatten(batches[..k]), names)
      invariant forall g | g in Flatten(batches[..k]) :: !Refused(g)
      invariant Flatten(out) == KeepAll(Flatten(batches[..k]), names)
    {
      var batch := batches[k];
      ghost var p := BatchWithin(batches, k);
      var kept := SingleValuedBatch(typeName, names, batch);
      if kept.Err? {
        return Err(kept.error);
      }
      KeepStep(batches, k, out, kept.value, names);
      out := out + [kept.value];
    }
    assert batches[..|batches|] == batches;
    r := Ok(out);
  }

  // ------------------------------------------------------------------ dense ids

  function Numbered(rows: seq<Bare>, first: nat): (out: seq<Vertex>)
    ensures |out| == |rows| && forall i | 0 <= i < |rows| :: out[i] == Vertex(first + i, rows[i])
  {
    seq(|rows|, i requires 0 <= i < |rows| => Vertex(first + i, rows[i]))
  }

  /** The `k`th batch is the first whose last id would not fit. */
  ghost predicate Overflows(batches: seq<seq<Bare>>, first: nat, k: nat) {
    && 0 < k <= |batches|
    && first + |Flatten(batches[..k])| > MAX_ID
    && (k > 1 ==> first + |Flatten(batches[..k - 1])| <= MAX_ID)
  }

  /** The ids count on from `first` across the batches, however these are cut, and are refused exactly
      when one past the last does not fit a `u32`. */
  method PrependDenseId(batches: seq<seq<Bare>>, first: nat) returns (r: Result<seq<seq<Vertex>>, Failure>)
    ensures r.Ok? <==> batches == [] || first + |Flatten(batches)| <= MAX_ID
    ensures r.Ok? ==> |r.value| == |batches| && Flatten(r.value) == Numbered(Flatten(batches), first)
    ensures r.Err? ==>
        exists k: nat :: Overflows(batches, first, k) && r.error == TooLarge(first + |Flatten(batches[..k])|)
  {
    var out: seq<seq<Vertex>> := [];
    var next := first;
    for k := 0 to |batches|
      invariant |out| == k
      invariant next == first + |Flatten(batches[..k])|
      invariant k > 0 ==> next <= MAX_ID
      invariant Flatten(out) == Numbered(Flatten(batches[..k]), first)
    {
      FlattenAppend(batches[..k], batches[k]);
      assert batches[..k] + [batches[k]] == batches[..k + 1];
      var end := next + |batches[k]|;
      if next > MAX_ID || end > MAX_ID {
        FlattenPrefix(batches, k + 1);
        assert Overflows(batches, first, k + 1);
        return Err(TooLarge(end));
      }
      var ids := Numbered(batches[k], next);
      FlattenAppend(out, ids);
      out := out + [ids];
      next := end;
    }
    assert batches[..|batches|] == batches;
    r := Ok(out);
  }

  // ------------------------------------------------------------------ joins by subject

  /** `row_per_value`: unnested when the column's TYPE is a list, and only then. */
  function RowPerValue(rows: seq<(Cell, Entry)>, ty: ColumnType): seq<(Cell, Cell)>
    requires forall r | r in rows :: Fits(r.1, ty)
  {
    if rows == [] then []
    else
      assert rows[0] in rows && Fits(rows[0].1, ty);
      PairWith(rows[0].0, if ty.ListColumn? then Elements(rows[0].1) else [rows[0].1.cell])
        + RowPerValue(rows[1..], ty)
  }

  function PairWith(key: Cell, cells: seq<Cell>): (out: seq<(Cell, Cell)>)
    ensures |out| == |cells| && forall i | 0 <= i < |cells| :: out[i] == (key, cells[i])
  {
    seq(|cells|, i requires 0 <= i < |cells| => (key, cells[i]))
  }

  lemma {:induction false} RowPerValueMember(rows: seq<(Cell, Entry)>, ty: ColumnType, key: Cell, c: Cell)
    requires forall r | r in rows :: Fits(r.1, ty)
    ensures (key, c) in RowPerValue(rows, ty) <==> exists e :: (key, e) in rows && c in Elements(e)
  {
    if rows == [] {
    } else {
      RowPerValueMember(rows[1..], ty, key, c);
      assert rows[0] in rows && forall r | r in rows :: r == rows[0] || r in rows[1..];
      var head := PairWith(rows[0].0, Elements(rows[0].1));
      assert RowPerValue(rows, ty) == head + RowPerValue(rows[1..], ty);
      if rows[0].0 == key && c in Elements(rows[0].1) {
        var i :| 0 <= i < |Elements(rows[0].1)| && Elements(rows[0].1)[i] == c;
        assert head[i] == (key, c);
      }
      assert (key, c) in head <==> rows[0].0 == key && c in Elements(rows[0].1);
    }
  }

  /** The vertices `subject` names: a null names none. */
  function Matching(vertices: seq<Vertex>, subject: Cell): (ids: seq<int>)
    ensures forall i :: i in ids <==> exists v :: v in vertices && Named(v, subject) && v.id == i
  {
    if vertices == [] then []
    else
      var rest := Matching(vertices[1..], subject);
      assert forall v | v in vertices :: v == vertices[0] || v in vertices[1..];
      if Named(vertices[0], subject) then [vertices[0].id] + rest else rest
  }

  predicate Named(v: Vertex, subject: Cell) {
    subject.Val? && v.row.subject == subject
  }

  /** The inner join of keyed rows with a vertex table: the key is replaced by the id it names. */
  function JoinSubject<T>(rows: seq<(Cell, T)>, vertices: seq<Vertex>): seq<(int, T)> {
    if rows == [] then [] else WithIds(Matching(vertices, rows[0].0), rows[0].1) + JoinSubject(rows[1..], vertices)
  }

  function WithIds<T>(ids: seq<int>, t: T): (out: seq<(int, T)>)
    ensures |out| == |ids| && forall i | 0 <= i < |ids| :: out[i] == (ids[i], t)
  {
    seq(|ids|, i requires 0 <= i < |ids| => (ids[i], t))
  }

  lemma {:induction false} JoinMember<T>(rows: seq<(Cell, T)>, vertices: seq<Vertex>, id: int, t: T)
    ensures (id, t) in JoinSubject(rows, vertices) <==>
      exists key, v :: (key, t) in rows && v in vertices && Named(v, key) && v.id == id
  {
    if rows == [] {
    } else {
      JoinMember(rows[1..], vertices, id, t);
      assert rows[0] in rows && forall r | r in rows :: r == rows[0] || r in rows[1..];
      var ids := Matching(vertices, rows[0].0);
      var head := WithIds(ids, rows[0].1);
      if id in ids && rows[0].1 == t {
        var i :| 0 <= i < |ids| && ids[i] == id;
        assert head[i] == (id, t);
        var v :| v in vertices && Named(v, rows[0].0) && v.id == id;
        assert (rows[0].0, t) in rows;
      }
      assert (id, t) in head <==> id in ids && rows[0].1 == t;
    }
  }

  // ------------------------------------------------------------------ a multi-valued property's table

  function Column(rows: seq<Row>, name: string): (out: seq<(Cell, Entry)>)
    requires forall i | 0 <= i < |rows| :: name in rows[i].entries
    ensures |out| == |rows| && forall i | 0 <= i < |rows| :: out[i] == (rows[i].subject, rows[i].entries[name])
  {
    seq(|rows|, i requires 0 <= i < |rows| => (rows[i].subject, rows[i].entries[name]))
  }

  /** `filter(is_not_null)`. */
  function NonNull(rows: seq<(Cell, Cell)>): (out: seq<(Cell, int)>)
    ensures forall k, v :: (k, v) in out <==> (k, Val(v)) in rows
  {
    if rows == [] then []
    else
      var rest := NonNull(rows[1..]);
      assert forall r | r in rows :: r == rows[0] || r in rows[1..];
      if rows[0].1.Val? then [(rows[0].0, rows[0].1.v)] + rest else rest
  }

  /** Some row of `subject` offers `v` for `name`, alone or in a list. */
  ghost predicate Offered(rows: seq<Row>, subject: Cell, name: string, v: int) {
    exists r :: r in rows && r.subject == subject && name in r.entries && Val(v) in Elements(r.entries[name])
  }

  /** The table holds an id and a value exactly when a row offers the value for a subject the id numbers. */
  ghost predicate IsPropertyTable(table: seq<Pair>, rows: seq<Row>, vertices: seq<Vertex>, name: string) {
    && StrictPairs(table)
    && forall p :: p in table <==> ValueOf(p, rows, vertices, name)
  }

  ghost predicate ValueOf(p: Pair, rows: seq<Row>, vertices: seq<Vertex>, name: string) {
    exists v :: v in vertices && v.id == p.0 && v.row.subject.Val? && Offered(rows, v.row.subject, name, p.1)
  }

  lemma {:induction false} ColumnMember(rows: seq<Row>, name: string, subject: Cell, e: Entry)
    requires forall i | 0 <= i < |rows| :: name in rows[i].entries
    ensures (subject, e) in Column(rows, name) <==>
      exists r :: r in rows && r.subject == subject && name in r.entries && r.entries[name] == e
  {
    var column := Column(rows, name);
    if r :| r in rows && r.subject == subject && name in r.entries && r.entries[name] == e {
      var i :| 0 <= i < |rows| && rows[i] == r;
      assert column[i] == (subject, e);
    }
    if (subject, e) in column {
      var i :| 0 <= i < |column| && column[i] == (subject, e);
      assert rows[i] in rows;
    }
  }

  lemma {:induction false} ColumnOffers(rows: seq<Row>, name: string, ty: ColumnType, subject: Cell, v: int)
    requires forall i | 0 <= i < |rows| :: name in rows[i].entries && Fits(rows[i].entries[name], ty)
    requires forall r | r in Column(rows, name) :: Fits(r.1, ty)
    ensures (subject, Val(v)) in RowPerValue(Column(rows, name), ty) <==> Offered(rows, subject, name, v)
  {
    RowPerValueMember(Column(rows, name), ty, subject, Val(v));
    if Offered(rows, subject, name, v) {
      var r :| r in rows && r.subject == subject && name in r.entries && Val(v) in Elements(r.entries[name]);
      ColumnMember(rows, name, subject, r.entries[name]);
    }
    if e :| (subject, e) in Column(rows, name) && Val(v) in Elements(e) {
      ColumnMember(rows, name, subject, e);
    }
  }

  method PropertyValues(rows: seq<Row>, vertices: seq<Vertex>, name: string, ty: ColumnType)
    returns (batches: seq<seq<Pair>>)
    requires forall i | 0 <= i < |rows| :: name in rows[i].entries && Fits(rows[i].entries[name], ty)
    ensures IsPropertyTable(Flatten(batches), rows, vertices, name)
  {
    var column := Column(rows, name);
    var values := NonNull(RowPerValue(column, ty));
    var joined := JoinSubject(values, vertices);
    var table := DistinctSorted(joined);
    batches := Collect(table);
    forall p ensures p in table <==> ValueOf(p, rows, vertices, name) {
      JoinMember(values, vertices, p.0, p.1);
      if key, v :| (key, p.1) in values && v in vertices && Named(v, key) && v.id == p.0 {
        ColumnOffers(rows, name, ty, key, p.1);
      }
      if ValueOf(p, rows, vertices, name) {
        var v :| v in vertices && v.id == p.0 && v.row.subject.Val? && Offered(rows, v.row.subject, name, p.1);
        ColumnOffers(rows, name, ty, v.row.subject, p.1);
        assert Named(v, v.row.subject);
      }
    }
  }

  // ------------------------------------------------------------------ the table

  function BareSubjects(rows: seq<Bare>): set<Cell> {
    set b | b in rows :: b.subject
  }

  ghost predicate StrictlyBySubject(rows: seq<Bare>) {
    forall i, j | 0 <= i < j < |rows| :: Lt(rows[i].subject, rows[j].subject)
  }

  ghost predicate OneRowPerSubject(table: seq<Bare>, rows: seq<Row>) {
    StrictlyBySubject(table) && BareSubjects(table) == SubjectsOf(rows)
  }

  ghost predicate CellsAreOffers(b: Bare, rows: seq<Row>, names: seq<string>)
    requires ScalarColumns(rows, names)
  {
    && b.cells.Keys == (set n | n in names)
    && forall i | 0 <= i < |names| :: OnlyOffer(rows, b.subject, names[i], b.cells[names[i]])
  }

  /** A deduplicated table: a row per distinct subject, in subject order, each property the one value offered. */
  ghost predicate IsMerge(table: seq<Bare>, rows: seq<Row>, names: seq<string>)
    requires ScalarColumns(rows, names)
  {
    OneRowPerSubject(table, rows) && forall b | b in table :: CellsAreOffers(b, rows, names)
  }

  lemma {:induction false} GroupsAreShaped(groups: seq<Group>, rows: seq<Row>, names: seq<string>)
    requires ScalarColumns(rows, names)
    requires forall g | g in groups :: IsGroup(g, rows, names)
    ensures AllShaped(groups, names)
  {
    forall i | 0 <= i < |groups| ensures Shaped(groups[i], names) {
      assert groups[i] in groups;
    }
  }

  lemma {:induction false} RefusedHasTwoValues(g: Group, rows: seq<Row>, names: seq<string>, i: int)
    requires ScalarColumns(rows, names) && IsGroup(g, rows, names) && 0 <= i < |names|
    ensures g.several[i] ==> TwoValues(rows, g.subject, names[i], g.least[i], g.greatest[i])
    ensures !g.several[i] ==> OnlyOffer(rows, g.subject, names[i], g.least[i])
    ensures !g.several[i] ==> forall a, b :: !TwoValues(rows, g.subject, names[i], a, b)
  {
    LeastIsGreatest(rows, g.subject, names[i]);
  }

  lemma {:induction false} KeptOffers(g: Group, rows: seq<Row>, names: seq<string>)
    requires ScalarColumns(rows, names) && Distinct(names)
    requires IsGroup(g, rows, names) && !Refused(g)
    ensures CellsAreOffers(Kept(g, names), rows, names)
  {
    forall i | 0 <= i < |names| ensures OnlyOffer(rows, g.subject, names[i], g.least[i]) {
      RefusedHasTwoValues(g, rows, names, i);
    }
  }

  lemma {:induction false} NothingRefused(groups: seq<Group>, rows: seq<Row>, names: seq<string>)
    requires ScalarColumns(rows, names)
    requires forall g | g in groups :: IsGroup(g, rows, names) && !Refused(g)
    requires GroupSubjects(groups) == SubjectsOf(rows)
    ensures !Conflict(rows, names)
  {
    if s, i, a, b :| 0 <= i < |names| && TwoValues(rows, s, names[i], a, b) {
      var r :| r in rows && r.subject == s && ScalarOf(r, names[i]) == a;
      assert s in GroupSubjects(groups);
      var g :| g in groups && g.subject == s;
      RefusedHasTwoValues(g, rows, names, i);
      assert false;
    }
  }

  lemma {:induction false} KeptSubjects(groups: seq<Group>, names: seq<string>)
    requires Distinct(names) && AllShaped(groups, names)
    ensures BareSubjects(KeepAll(groups, names)) == GroupSubjects(groups)
  {
    var table := KeepAll(groups, names);
    forall b | b in table ensures b.subject in GroupSubjects(groups) {
      var k :| 0 <= k < |table| && table[k] == b;
      assert groups[k] in groups;
    }
    forall g | g in groups ensures g.subject in BareSubjects(table) {
      var k :| 0 <= k < |groups| && groups[k] == g;
      assert table[k] in table;
    }
  }

  lemma {:induction false} KeptCells(groups: seq<Group>, rows: seq<Row>, names: seq<string>, b: Bare)
    requires ScalarColumns(rows, names) && Distinct(names)
    requires forall g | g in groups :: IsGroup(g, rows, names) && !Refused(g)
    requires AllShaped(groups, names)
    requires b in KeepAll(groups, names)
    ensures CellsAreOffers(b, rows, names)
  {
    var k :| 0 <= k < |groups| && Kept(groups[k], names) == b;
    assert groups[k] in groups;
    KeptOffers(groups[k], rows, names);
  }

  /** The deduplicating half of `finalize_vertex`: group, sort, collect, refuse. */
  method MergeRows(typeName: string, rows: seq<Row>, names: seq<string>) returns (r: Result<seq<seq<Bare>>, Failure>)
    requires ScalarColumns(rows, names) && Distinct(names)
    ensures r.Ok? <==> !Conflict(rows, names)
    ensures r.Ok? ==> IsMerge(Flatten(r.value), rows, names)
    ensures r.Ok? && r.value == [] ==> rows == []
    ensures r.Err? ==> exists i, s, a, b :: 0 <= i < |names| && TwoValues(rows, s, names[i], a, b)
                                            && r.error == TooManyValues(typeName + "." + names[i], s, a, b)
  {
    var groups := Aggregate(rows, names);
    var sorted := SortBySubject(groups, (g: Group) => g.subject);
    SortedGroups(groups, sorted);
    var batches := Collect(sorted);
    GroupsAreShaped(sorted, rows, names);
    r := SingleValued(typeName, names, batches);
    if r.Ok? {
      KeptSubjects(sorted, names);
      forall b | b in Flatten(r.value) ensures CellsAreOffers(b, rows, names) {
        KeptCells(sorted, rows, names, b);
      }
      NothingRefused(sorted, rows, names);
      assert rows != [] ==> rows[0].subject in SubjectsOf(rows);
    } else {
      ghost var g, i :| g in Flatten(batches) && Reports(r.error, typeName, names, g, i);
      RefusedHasTwoValues(g, rows, names, i);
    }
  }

  lemma {:induction false} SortedGroups(groups: seq<Group>, sorted: seq<Group>)
    requires forall i, j | 0 <= i < j < |groups| :: groups[i].subject != groups[j].subject
    requires multiset(groups) == multiset(sorted)
    requires SortedBySubject(sorted, (g: Group) => g.subject)
    ensures forall g :: g in sorted <==> g in groups
    ensures GroupSubjects(sorted) == GroupSubjects(groups)
    ensures forall i, j | 0 <= i < j < |sorted| :: Lt(sorted[i].subject, sorted[j].subject)
  {
    forall g ensures g in sorted <==> g in groups {
      assert g in sorted <==> g in multiset(sorted);
      assert g in groups <==> g in multiset(groups);
    }
    forall i, j | 0 <= i < j < |sorted| ensures Lt(sorted[i].subject, sorted[j].subject) {
      DistinctSubjectsStay(groups, sorted, i, j);
    }
  }

  lemma {:induction false} DistinctSubjectsStay(groups: seq<Group>, sorted: seq<Group>, i: int, j: int)
    requires forall i, j | 0 <= i < j < |groups| :: groups[i].subject != groups[j].subject
    requires multiset(groups) == multiset(sorted)
    requires 0 <= i < j < |sorted|
    ensures sorted[i].subject != sorted[j].subject
  {
    if sorted[i].subject == sorted[j].subject {
      var g := sorted[i];
      assert g in multiset(sorted) && sorted[j] in multiset(sorted);
      assert g in groups && sorted[j] in groups;
      assert sorted[j] == g;
      MultisetTwice(sorted, i, j);
      AtMostOnce(groups, g);
      assert false;
    }
  }

  lemma {:induction false} MultisetTwice<T>(s: seq<T>, i: int, j: int)
    requires 0 <= i < j < |s| && s[i] == s[j]
    ensures multiset(s)[s[i]] >= 2
  {
    assert s == s[..i] + [s[i]] + s[i + 1..j] + [s[j]] + s[j + 1..];
  }

  lemma {:induction false} AtMostOnce(groups: seq<Group>, g: Group)
    requires forall i, j | 0 <= i < j < |groups| :: groups[i].subject != groups[j].subject
    ensures multiset(groups)[g] <= 1
  {
    if groups == [] {
    } else {
      AtMostOnce(groups[1..], g);
      assert groups == [groups[0]] + groups[1..];
      if groups[0] == g {
        assert g !in groups[1..];
        assert g !in multiset(groups[1..]);
      }
    }
  }

  /** A table without merging: every row kept, in subject order, ties in any order. */
  ghost predicate IsSortedCopy(table: seq<Bare>, rows: seq<Row>, names: seq<string>)
    requires ScalarColumns(rows, names)
  {
    && SortedBySubject(table, (b: Bare) => b.subject)
    && multiset(table) == multiset(ProjectAll(rows, names))
  }

  function Project(r: Row, names: seq<string>): Bare
    requires forall n | n in names :: HasScalar(r, n)
  {
    Bare(r.subject, map n | n in names :: ScalarOf(r, n))
  }

  function ProjectAll(rows: seq<Row>, names: seq<string>): (out: seq<Bare>)
    requires ScalarColumns(rows, names)
    ensures |out| == |rows|
  {
    seq(|rows|, i requires 0 <= i < |rows| => assert rows[i] in rows; Project(rows[i], names))
  }

  method SortRows(rows: seq<Row>, names: seq<string>) returns (batches: seq<seq<Bare>>)
    requires ScalarColumns(rows, names)
    ensures IsSortedCopy(Flatten(batches), rows, names)
  {
    var sorted := SortBySubject(ProjectAll(rows, names), (b: Bare) => b.subject);
    batches := Collect(sorted);
  }

  // ------------------------------------------------------------------ finalize_vertex

  function NamesOf(properties: seq<Property>, c: Cardinality): (names: seq<string>)
    ensures forall n :: n in names <==> exists p :: p in properties && p.name == n && p.cardinality == c
  {
    if properties == [] then []
    else
      var rest := NamesOf(properties[1..], c);
      assert forall p | p in properties :: p == properties[0] || p in properties[1..];
      if properties[0].cardinality == c then [properties[0].name] + rest else rest
  }

  lemma {:induction false} NamesStayDistinct(properties: seq<Property>, c: Cardinality)
    requires DistinctNames(properties)
    ensures Distinct(NamesOf(properties, c))
  {
    if properties == [] {
    } else {
      NamesStayDistinct(properties[1..], c);
      assert properties[0].name !in NamesOf(properties[1..], c);
    }
  }

  /** The shape a mapping writes: a cardinality per property, and a single-valued property in a scalar
      column, since the checker refuses a sequence where one value is wanted. */
  ghost predicate Writes(g: Prepared, shape: map<string, Cardinality>) {
    forall p | p in g.node.properties ::
      && p.name in shape && shape[p.name] == p.cardinality
      && (p.cardinality.Single? && p.name in g.frame.types ==> g.frame.types[p.name].ScalarColumn?)
  }

  /** One mapping or several of one type, each a projection of its properties. */
  ghost predicate IsTypeGroup(group: seq<Prepared>, shape: map<string, Cardinality>) {
    group != [] && forall g | g in group :: WellFormed(g) && Writes(g, shape)
  }

  function TypesOf(group: seq<Prepared>, node: Node): (types: map<string, ColumnType>)
    requires IsMergedNode(group, node)
    requires forall g | g in group :: WellFormed(g)
    ensures forall n :: n in types <==> Names(node.properties, n)
  {
    map n | n in (set p | p in node.properties :: p.name) ::
      MergedNames(group, node, n); TypeIn(group, n)
  }

  lemma {:induction false} TypeInIsOneOfTheirs(group: seq<Prepared>, name: string)
    requires exists g :: g in group && Names(g.node.properties, name)
    requires forall g | g in group :: WellFormed(g)
    ensures exists g :: g in group && name in g.frame.types && TypeIn(group, name) == g.frame.types[name]
  {
    assert WellFormed(group[0]);
    if Names(group[0].node.properties, name) {
      assert group[0] in group;
    } else {
      assert forall g | g in group :: g == group[0] || g in group[1..];
      TypeInIsOneOfTheirs(group[1..], name);
      assert forall g | g in group[1..] :: g in group;
    }
  }

  lemma {:induction false} MergedCardinality(
    group: seq<Prepared>, shape: map<string, Cardinality>, node: Node, p: Property)
    requires IsMergedNode(group, node) && IsTypeGroup(group, shape) && p in node.properties
    ensures p.name in shape && shape[p.name] == p.cardinality
  {
    assert FirstSays(group, p);
    var k :| 0 <= k < |group| && p in group[k].node.properties;
    assert Writes(group[k], shape);
  }

  lemma {:induction false} SingleColumnsAreScalar(
    group: seq<Prepared>, shape: map<string, Cardinality>, node: Node, name: string)
    requires IsMergedNode(group, node) && IsTypeGroup(group, shape)
    requires name in NamesOf(node.properties, Single)
    ensures name in TypesOf(group, node) && TypesOf(group, node)[name].ScalarColumn?
  {
    var p :| p in node.properties && p.name == name && p.cardinality == Single;
    MergedCardinality(group, shape, node, p);
    MergedNames(group, node, name);
    TypeInIsOneOfTheirs(group, name);
    var g :| g in group && name in g.frame.types && TypeIn(group, name) == g.frame.types[name];
    assert WellFormed(g) && Writes(g, shape);
    var q :| q in g.node.properties && q.name == name;
  }

  /** Every row of an agreed union has every column, in the column's type. */
  lemma {:induction false} UnionFits(group: seq<Prepared>, types: map<string, ColumnType>)
    requires forall g | g in group :: WellFormed(g) && Agrees(g, types)
    ensures forall r | r in UnionRows(group, types) :: RowFits(r, types)
  {
    forall a | a in UnionRows(group, types) ensures RowFits(a, types) {
      UnionMember(group, types, a);
      var g, r :| g in group && r in g.frame.rows && a == Align(r, types);
      assert WellFormed(g) && Agrees(g, types) && RowFits(r, g.frame.types);
    }
  }

  lemma {:induction false} UnionIsScalar(group: seq<Prepared>, shape: map<string, Cardinality>, node: Node)
    requires IsMergedNode(group, node) && IsTypeGroup(group, shape)
    requires forall g | g in group :: Agrees(g, TypesOf(group, node))
    ensures ScalarColumns(UnionRows(group, TypesOf(group, node)), NamesOf(node.properties, Single))
  {
    var types := TypesOf(group, node);
    UnionFits(group, types);
    forall r, n | r in UnionRows(group, types) && n in NamesOf(node.properties, Single) ensures HasScalar(r, n) {
      SingleColumnsAreScalar(group, shape, node, n);
      assert RowFits(r, types);
    }
  }

  ghost predicate AllAgree(group: seq<Prepared>, node: Node)
    requires IsMergedNode(group, node)
    requires forall g | g in group :: WellFormed(g)
  {
    forall g | g in group :: Agrees(g, TypesOf(group, node))
  }

  function RowsOf(group: seq<Prepared>, node: Node): seq<Row>
    requires IsMergedNode(group, node)
    requires forall g | g in group :: WellFormed(g)
  {
    UnionRows(group, TypesOf(group, node))
  }

  /** What `finalize_vertex` builds, said of the union of the group's rows. */
  ghost predicate IsVertexTable(
    table: VertexTable, group: seq<Prepared>, shape: map<string, Cardinality>, node: Node, first: nat)
    requires IsMergedNode(group, node) && IsTypeGroup(group, shape) && AllAgree(group, node)
  {
    UnionIsScalar(group, shape, node);
    var rows := RowsOf(group, node);
    var multis := NamesOf(node.properties, Multi);
    var vertices := Flatten(table.batches);
    && table.typeName == node.typeName
    && IsRowTable(vertices, group[0].dedup, rows, NamesOf(node.properties, Single), first)
    && |table.properties| == |multis|
    && forall i | 0 <= i < |multis| ::
         && table.properties[i].name == multis[i]
         && IsPropertyTable(Flatten(table.properties[i].batches), rows, vertices, multis[i])
  }

  /** Why `finalize_vertex` fails: its rows are refused, or the engine refuses to align the mappings or
      to select from a table registered with no batch. */
  ghost predicate RefusesGroup(
    error: Failure, group: seq<Prepared>, shape: map<string, Cardinality>, node: Node, first: nat)
    requires IsMergedNode(group, node) && IsTypeGroup(group, shape)
  {
    if !AllAgree(group, node) then error.EngineRefused?
    else
      UnionIsScalar(group, shape, node);
      var rows := RowsOf(group, node);
      if error.EngineRefused? then rows == [] && NamesOf(node.properties, Multi) != []
      else RefusesRows(error, node.typeName, group[0].dedup, rows, NamesOf(node.properties, Single), first)
  }

  function Bares(vertices: seq<Vertex>): (out: seq<Bare>)
    ensures |out| == |vertices| && forall i | 0 <= i < |vertices| :: out[i] == vertices[i].row
  {
    seq(|vertices|, i requires 0 <= i < |vertices| => vertices[i].row)
  }

  /** The ids count from `first`, and the one past the last fits a `u32`. */
  ghost predicate IsNumbering(vertices: seq<Vertex>, first: nat) {
    && (forall i | 0 <= i < |vertices| :: vertices[i].id == first + i)
    && (vertices != [] ==> first + |vertices| <= MAX_ID)
  }

  /** How many vertices a group makes. */
  function VertexCount(rows: seq<Row>, dedup: bool): nat {
    if dedup then |SubjectsOf(rows)| else |rows|
  }

  lemma {:induction false} StrictCount(table: seq<Bare>)
    requires StrictlyBySubject(table)
    ensures |BareSubjects(table)| == |table|
  {
    if table == [] {
    } else {
      hide StrictlyBySubject, BareSubjects;
      BareTail(table);
      StrictCount(table[1..]);
    }
  }

  /** The first subject of a strictly sorted table is none of the others'. */
  lemma {:induction false} BareTail(table: seq<Bare>)
    requires StrictlyBySubject(table) && table != []
    ensures StrictlyBySubject(table[1..])
    ensures BareSubjects(table) == {table[0].subject} + BareSubjects(table[1..])
    ensures table[0].subject !in BareSubjects(table[1..])
  {
    var rest := table[1..];
    assert table == [table[0]] + rest;
    forall b | b in rest
      ensures b.subject != table[0].subject
    {
      var i :| 0 <= i < |rest| && rest[i] == b;
      assert table[i + 1] == b;
    }
    assert forall s :: s in BareSubjects(table) <==> s == table[0].subject || s in BareSubjects(rest);
  }

  method PropertyTables(
    session: Session, typeName: string, rows: seq<Row>, multis: seq<string>, types: map<string, ColumnType>)
    returns (r: Result<seq<PropertyTable>, Failure>)
    requires typeName in session.tables
    requires forall n | n in multis :: n in types
    requires forall a | a in rows :: RowFits(a, types)
    ensures r.Err? <==> session.tables[typeName] == [] && multis != []
    ensures r.Err? ==> r.error == EngineRefused
    ensures r.Ok? ==> |r.value| == |multis| && forall i | 0 <= i < |multis| ::
      && r.value[i].name == multis[i]
      && IsPropertyTable(Flatten(r.value[i].batches), rows, Flatten(session.tables[typeName]), multis[i])
  {
    var out: seq<PropertyTable> := [];
    for k := 0 to |multis|
      invariant |out| == k
      invariant k > 0 ==> session.tables[typeName] != []
      invariant forall i | 0 <= i < k ::
        && out[i].name == multis[i]
        && IsPropertyTable(Flatten(out[i].batches), rows, Flatten(session.tables[typeName]), multis[i])
    {
      var vertices := session.Select(typeName);
      if vertices.Err? {
        return Err(vertices.error);
      }
      assert multis[k] in multis;
      forall i | 0 <= i < |rows|
        ensures multis[k] in rows[i].entries && Fits(rows[i].entries[multis[k]], types[multis[k]])
      {
        assert rows[i] in rows && RowFits(rows[i], types);
      }
      var batches := PropertyValues(rows, vertices.value, multis[k], types[multis[k]]);
      out := out + [PropertyTable(multis[k], batches)];
    }
    r := Ok(out);
  }

  /** Either half of the sort-and-collect step. */
  method VertexRows(typeName: string, dedup: bool, rows: seq<Row>, names: seq<string>)
    returns (r: Result<seq<seq<Bare>>, Failure>)
    requires ScalarColumns(rows, names) && Distinct(names)
    ensures r.Ok? <==> !(dedup && Conflict(rows, names))
    ensures r.Ok? ==> |Flatten(r.value)| == VertexCount(rows, dedup)
    ensures r.Ok? && r.value == [] ==> rows == []
    ensures r.Ok? ==>
      if dedup then IsMerge(Flatten(r.value), rows, names) else IsSortedCopy(Flatten(r.value), rows, names)
    ensures r.Err? ==> exists i, s, a, b :: 0 <= i < |names| && TwoValues(rows, s, names[i], a, b)
                                            && r.error == TooManyValues(typeName + "." + names[i], s, a, b)
  {
    if dedup {
      r := MergeRows(typeName, rows, names);
      if r.Ok? {
        StrictCount(Flatten(r.value));
      }
    } else {
      var batches := SortRows(rows, names);
      ghost var projected := ProjectAll(rows, names);
      assert |multiset(Flatten(batches))| == |multiset(projected)|;
      r := Ok(batches);
    }
  }

  /** Why the rows of a type are refused: a subject with two values, or more vertices than ids. */
  ghost predicate RefusesRows(
    error: Failure, typeName: string, dedup: bool, rows: seq<Row>, names: seq<string>, first: nat)
    requires ScalarColumns(rows, names)
  {
    match error
    case TooManyValues(at, s, a, b) =>
      dedup && exists n :: n in names && at == typeName + "." + n && TwoValues(rows, s, n, a, b)
    case TooLarge(_) =>
      first + VertexCount(rows, dedup) > MAX_ID && !(dedup && Conflict(rows, names))
    case EngineRefused => false
  }

  ghost predicate IsRowTable(vertices: seq<Vertex>, dedup: bool, rows: seq<Row>, names: seq<string>, first: nat)
    requires ScalarColumns(rows, names)
  {
    && IsNumbering(vertices, first)
    && |vertices| == VertexCount(rows, dedup)
    && if dedup then IsMerge(Bares(vertices), rows, names) && !Conflict(rows, names)
       else IsSortedCopy(Bares(vertices), rows, names)
  }

  /** The rows of a type, sorted or merged, then numbered. */
  method TableRows(typeName: string, dedup: bool, rows: seq<Row>, names: seq<string>, first: nat)
    returns (r: Result<seq<seq<Vertex>>, Failure>)
    requires ScalarColumns(rows, names) && Distinct(names)
    ensures r.Ok? ==> IsRowTable(Flatten(r.value), dedup, rows, names, first)
    ensures r.Ok? && r.value == [] ==> rows == []
    ensures r.Err? ==> RefusesRows(r.error, typeName, dedup, rows, names, first)
  {
    var sorted := VertexRows(typeName, dedup, rows, names);
    if sorted.Err? {
      ghost var i, s, a, b :| 0 <= i < |names| && TwoValues(rows, s, names[i], a, b)
        && sorted.error == TooManyValues(typeName + "." + names[i], s, a, b);
      assert names[i] in names;
      return Err(sorted.error);
    }
    r := PrependDenseId(sorted.value, first);
    if r.Err? {
      ghost var k: nat :| Overflows(sorted.value, first, k)
          && r.error == TooLarge(first + |Flatten(sorted.value[..k])|);
      FlattenPrefix(sorted.value, k);
    } else {
      assert Bares(Flatten(r.value)) == Flatten(sorted.value);
    }
  }

  /** One vertex type from its mappings. `node` is the merged node, reported whether or not the run fails. */
  method FinalizeVertex(session: Session, group: seq<Prepared>, first: nat, ghost shape: map<string, Cardinality>)
    returns (r: Result<VertexTable, Failure>, node: Node)
    requires IsTypeGroup(group, shape)
    modifies session
    ensures IsMergedNode(group, node) && FirstSeen(Listed(group), node.properties)
    ensures r.Ok? ==>
      && AllAgree(group, node) && IsVertexTable(r.value, group, shape, node, first)
      && session.tables == old(session.tables)[node.typeName := r.value.batches]
    ensures r.Err? ==> RefusesGroup(r.error, group, shape, node, first)
  {
    node := MergeNode(group);
    var types := TypesOf(group, node);
    var union := UnionAll(group, types);
    if union.Err? {
      return Err(union.error), node;
    }
    var rows := union.value;
    UnionIsScalar(group, shape, node);
    UnionFits(group, types);
    var singles, multis := NamesOf(node.properties, Single), NamesOf(node.properties, Multi);
    NamesStayDistinct(node.properties, Single);
    var numbered := TableRows(node.typeName, group[0].dedup, rows, singles, first);
    if numbered.Err? {
      return Err(numbered.error), node;
    }
    session.Register(node.typeName, numbered.value);
    var properties := PropertyTables(session, node.typeName, rows, multis, types);
    if properties.Err? {
      return Err(properties.error), node;
    }
    r := Ok(VertexTable(node.typeName, numbered.value, properties.value));
  }
}
