/** The whole run: every vertex type, numbered across the graph, and then every edge against them. */
module Materialise {
  import opened Results
  import opened Tables
  import opened Vertices
  import opened VertexLaws
  import opened Edges
  import Origins

  datatype EdgeInput = EdgeInput(edge: EdgeType, rows: EdgeRows)

  /** What one mapping projects: its vertex, and a relation per edge it emits. */
  datatype Mapping = Mapping(vertex: Prepared, edges: seq<EdgeInput>)

  datatype Graph = Graph(nodes: seq<Node>, vertices: seq<VertexTable>, edges: seq<EdgeTable>)

  // ------------------------------------------------------------------ grouping by first appearance

  function Members<K(==), V>(items: seq<(K, V)>, key: K): seq<V> {
    if items == [] then []
    else
      var before := Members(items[..|items| - 1], key);
      if items[|items| - 1].0 == key then before + [items[|items| - 1].1] else before
  }

  /** The keys, each where it first appears. */
  function Keys<K(==), V>(items: seq<(K, V)>): seq<K> {
    if items == [] then []
    else
      var before := Keys(items[..|items| - 1]);
      if items[|items| - 1].0 in before then before else before + [items[|items| - 1].0]
  }

  ghost predicate IsGrouping<K, V>(groups: seq<(K, seq<V>)>, items: seq<(K, V)>) {
    && |groups| == |Keys(items)|
    && forall i | 0 <= i < |groups| :: groups[i] == (Keys(items)[i], Members(items, Keys(items)[i]))
  }

  lemma {:induction false} KeysAreDistinct<K, V>(items: seq<(K, V)>)
    ensures forall i, j | 0 <= i < j < |Keys(items)| :: Keys(items)[i] != Keys(items)[j]
    ensures forall k :: k in Keys(items) <==> exists it :: it in items && it.0 == k
  {
    if items == [] {
    } else {
      var before := items[..|items| - 1];
      KeysAreDistinct(before);
      assert items == before + [items[|items| - 1]];
      assert forall it :: it in items <==> it in before || it == items[|items| - 1];
      if items[|items| - 1].0 in Keys(before) {
        assert Keys(items) == Keys(before);
      } else {
        assert Keys(items) == Keys(before) + [items[|items| - 1].0];
      }
    }
  }

  lemma {:induction false} MemberOf<K, V>(items: seq<(K, V)>, key: K, v: V)
    ensures v in Members(items, key) <==> (key, v) in items
  {
    if items == [] {
    } else {
      var before := items[..|items| - 1];
      MemberOf(before, key, v);
      assert items == before + [items[|items| - 1]];
      assert (key, v) in items <==> (key, v) in before || (key, v) == items[|items| - 1];
    }
  }

  method FindKey<K(==), V>(groups: seq<(K, seq<V>)>, key: K) returns (at: nat)
    ensures at <= |groups|
    ensures at < |groups| ==> groups[at].0 == key
    ensures forall i | 0 <= i < at :: groups[i].0 != key
  {
    at := 0;
    while at < |groups| && groups[at].0 != key
      invariant at <= |groups|
      invariant forall i | 0 <= i < at :: groups[i].0 != key
    {
      at := at + 1;
    }
  }

  lemma {:induction false} GroupStep<K, V>(groups: seq<(K, seq<V>)>, before: seq<(K, V)>, key: K, v: V, at: nat)
    requires IsGrouping(groups, before)
    requires at <= |groups| && (at < |groups| ==> groups[at].0 == key)
    requires forall i | 0 <= i < at :: groups[i].0 != key
    ensures at < |groups| ==> IsGrouping(groups[at := (key, groups[at].1 + [v])], before + [(key, v)])
    ensures at == |groups| ==> IsGrouping(groups + [(key, [v])], before + [(key, v)])
  {
    var after := before + [(key, v)];
    assert after[..|after| - 1] == before && after[|after| - 1] == (key, v);
    KeysAreDistinct(before);
    if at < |groups| {
      assert groups[at] == (Keys(before)[at], Members(before, Keys(before)[at]));
      assert Keys(after) == Keys(before);
      forall i | 0 <= i < |groups| && i != at
        ensures Members(after, Keys(after)[i]) == Members(before, Keys(before)[i])
      {
        assert Keys(before)[i] != Keys(before)[at];
      }
    } else {
      forall i | 0 <= i < |groups| ensures Keys(before)[i] != key {
        assert groups[i].0 == Keys(before)[i];
      }
      assert key !in Keys(before) && Keys(after) == Keys(before) + [key];
      NoMembers(before, key);
      assert Members(after, key) == [v];
      forall i | 0 <= i < |groups| ensures Members(after, Keys(after)[i]) == Members(before, Keys(before)[i]) {
        assert Keys(before)[i] == groups[i].0;
      }
    }
  }

  method GroupByKey<K(==), V>(items: seq<(K, V)>) returns (groups: seq<(K, seq<V>)>)
    ensures IsGrouping(groups, items)
  {
    groups := [];
    for n := 0 to |items|
      invariant IsGrouping(groups, items[..n])
    {
      var (key, v) := items[n];
      var at := FindKey(groups, key);
      GroupStep(groups, items[..n], key, v, at);
      assert items[..n] + [items[n]] == items[..n + 1];
      if at < |groups| {
        groups := groups[at := (key, groups[at].1 + [v])];
      } else {
        groups := groups + [(key, [v])];
      }
    }
    assert items[..|items|] == items;
  }

  lemma {:induction false} NoMembers<K, V>(items: seq<(K, V)>, key: K)
    requires key !in Keys(items)
    ensures Members(items, key) == []
  {
    if items == [] {
    } else {
      var before := items[..|items| - 1];
      assert forall k | k in Keys(before) :: k in Keys(items);
      NoMembers(before, key);
    }
  }

  // ------------------------------------------------------------------ phase 1: vertices

  type Shapes = map<string, map<string, Cardinality>>

  ghost predicate MappingFits(m: Mapping, shapes: Shapes) {
    && WellFormed(m.vertex)
    && m.vertex.node.typeName in shapes && Writes(m.vertex, shapes[m.vertex.node.typeName])
    && forall e | e in m.edges :: FitsType(e.rows)
  }

  function AllVertices(tables: seq<VertexTable>): seq<Vertex> {
    if tables == [] then [] else AllVertices(tables[..|tables| - 1]) + Flatten(tables[|tables| - 1].batches)
  }

  ghost predicate GroupFits(g: (string, seq<Prepared>), shapes: Shapes) {
    g.0 in shapes && IsTypeGroup(g.1, shapes[g.0]) && forall p | p in g.1 :: p.node.typeName == g.0
  }

  ghost predicate TableOf(t: VertexTable, g: (string, seq<Prepared>), shapes: Shapes, node: Node, first: nat)
    requires GroupFits(g, shapes)
  {
    Built(t, g.1, shapes[g.0], node, first) && t.typeName == g.0
  }

  /** How many vertices a group makes, said of its mappings alone. */
  function GroupCount(group: seq<Prepared>): nat {
    if group != [] && group[0].dedup then |GroupOfSubjects(group)| else RowCount(group)
  }

  function GroupOfSubjects(group: seq<Prepared>): set<Cell> {
    set g, r | g in group && r in g.frame.rows :: r.subject
  }

  function RowCount(group: seq<Prepared>): nat {
    if group == [] then 0 else |group[0].frame.rows| + RowCount(group[1..])
  }

  function TotalCount(groups: seq<(string, seq<Prepared>)>): nat {
    if groups == [] then 0 else TotalCount(groups[..|groups| - 1]) + GroupCount(groups[|groups| - 1].1)
  }

  lemma {:induction false} UnionCount(group: seq<Prepared>, types: map<string, ColumnType>)
    ensures |UnionRows(group, types)| == RowCount(group)
  {
    if group == [] {
    } else {
      UnionCount(group[1..], types);
    }
  }

  lemma {:induction false} UnionSubjects(group: seq<Prepared>, types: map<string, ColumnType>)
    ensures SubjectsOf(UnionRows(group, types)) == GroupOfSubjects(group)
  {
    forall c ensures c in SubjectsOf(UnionRows(group, types)) <==> c in GroupOfSubjects(group) {
      if a :| a in UnionRows(group, types) && a.subject == c {
        UnionMember(group, types, a);
      }
      if g, r :| g in group && r in g.frame.rows && r.subject == c {
        UnionMember(group, types, Align(r, types));
      }
    }
  }

  lemma {:induction false} CountIsGroupCount(group: seq<Prepared>, node: Node)
    requires IsMergedNode(group, node)
    requires forall g | g in group :: WellFormed(g)
    ensures VertexCount(RowsOf(group, node), group[0].dedup) == GroupCount(group)
  {
    UnionCount(group, TypesOf(group, node));
    UnionSubjects(group, TypesOf(group, node));
  }

  lemma {:induction false} CountsAreMonotone(groups: seq<(string, seq<Prepared>)>, k: nat)
    requires k <= |groups|
    ensures TotalCount(groups[..k]) <= TotalCount(groups)
  {
    if k < |groups| {
      CountsAreMonotone(groups[..|groups| - 1], k);
      assert groups[..|groups| - 1][..k] == groups[..k];
    } else {
      assert groups[..k] == groups;
    }
  }

  ghost predicate GroupsFit(groups: seq<(string, seq<Prepared>)>, shapes: Shapes) {
    && (forall i | 0 <= i < |groups| :: GroupFits(groups[i], shapes))
    && forall i, j | 0 <= i < j < |groups| :: groups[i].0 != groups[j].0
  }

  /** The first `k` types are built, numbered one after another, and registered. */
  ghost predicate TypesBuilt(
    tables: seq<VertexTable>, nodes: seq<Node>, groups: seq<(string, seq<Prepared>)>, shapes: Shapes,
    catalogue: map<string, seq<seq<Vertex>>>)
    requires GroupsFit(groups, shapes)
  {
    && |tables| == |nodes| <= |groups|
    && |AllVertices(tables)| == TotalCount(groups[..|tables|])
    && forall j | 0 <= j < |tables| ::
         && TableOf(tables[j], groups[j], shapes, nodes[j], |AllVertices(tables[..j])|)
         && groups[j].0 in catalogue && catalogue[groups[j].0] == tables[j].batches
  }

  lemma {:induction false} TypesExtend(
    tables: seq<VertexTable>, nodes: seq<Node>, groups: seq<(string, seq<Prepared>)>, shapes: Shapes,
    catalogue: map<string, seq<seq<Vertex>>>, table: VertexTable, node: Node)
    requires GroupsFit(groups, shapes) && TypesBuilt(tables, nodes, groups, shapes, catalogue)
    requires |tables| < |groups|
    requires TableOf(table, groups[|tables|], shapes, node, |AllVertices(tables)|)
    requires |Flatten(table.batches)| == GroupCount(groups[|tables|].1)
    ensures TypesBuilt(tables + [table], nodes + [node], groups, shapes, catalogue[groups[|tables|].0 := table.batches])
  {
    hide TableOf, Flatten, GroupCount, GroupFits;
    var k := |tables|;
    var longer := tables + [table];
    assert longer[..|longer| - 1] == tables && longer[..k] == tables;
    assert groups[..k + 1][..k] == groups[..k];
    assert forall j | 0 <= j < k :: longer[..j] == tables[..j];
  }

  lemma {:induction false} TooLargeInAll(
    groups: seq<(string, seq<Prepared>)>, shapes: Shapes, k: nat, node: Node, error: Failure)
    requires GroupsFit(groups, shapes) && k < |groups|
    requires IsMergedNode(groups[k].1, node)
    requires error.TooLarge? && RefusesGroup(error, groups[k].1, shapes[groups[k].0], node, TotalCount(groups[..k]))
    ensures TotalCount(groups) > MAX_ID
  {
    CountIsGroupCount(groups[k].1, node);
    assert groups[..k + 1][..k] == groups[..k];
    CountsAreMonotone(groups, k + 1);
  }

  lemma {:induction false} TableHasItsCount(
    table: VertexTable, g: (string, seq<Prepared>), shapes: Shapes, node: Node, first: nat)
    requires GroupFits(g, shapes) && TableOf(table, g, shapes, node, first)
    ensures |Flatten(table.batches)| == GroupCount(g.1)
  {
    CountIsGroupCount(g.1, node);
    UnionIsScalar(g.1, shapes[g.0], node);
  }

  /** The `k`-th type is refused, numbered from where the types before it end. */
  ghost predicate TypeRefused(
    error: Failure, groups: seq<(string, seq<Prepared>)>, shapes: Shapes, k: int, node: Node)
    requires GroupsFit(groups, shapes)
  {
    && 0 <= k < |groups| && IsMergedNode(groups[k].1, node)
    && GroupFits(groups[k], shapes)
    && RefusesGroup(error, groups[k].1, shapes[groups[k].0], node, TotalCount(groups[..k]))
  }

  method NextType(
    session: Session, groups: seq<(string, seq<Prepared>)>, ghost shapes: Shapes,
    ghost tables: seq<VertexTable>, ghost nodes: seq<Node>, k: nat, first: nat)
    returns (r: Result<VertexTable, Failure>, node: Node)
    requires GroupsFit(groups, shapes) && TypesBuilt(tables, nodes, groups, shapes, session.tables)
    requires k == |tables| < |groups| && first == |AllVertices(tables)|
    modifies session
    ensures r.Ok? ==> TypesBuilt(tables + [r.value], nodes + [node], groups, shapes, session.tables)
    ensures r.Ok? ==> |AllVertices(tables + [r.value])| == first + |Flatten(r.value.batches)|
    ensures r.Err? ==> TypeRefused(r.error, groups, shapes, k, node)
    ensures r.Err? && r.error.TooLarge? ==> TotalCount(groups) > MAX_ID
  {
    ghost var catalogue := session.tables;
    assert GroupFits(groups[k], shapes);
    r, node := FinalizeVertex(session, groups[k].1, first, shapes[groups[k].0]);
    if r.Ok? {
      TableHasItsCount(r.value, groups[k], shapes, node, first);
      TypesExtend(tables, nodes, groups, shapes, catalogue, r.value, node);
      assert (tables + [r.value])[..k] == tables;
    } else if r.error.TooLarge? {
      TooLargeInAll(groups, shapes, k, node, r.error);
    }
  }

  method VertexPhase(session: Session, groups: seq<(string, seq<Prepared>)>, ghost shapes: Shapes)
    returns (r: Result<seq<VertexTable>, Failure>, nodes: seq<Node>)
    requires GroupsFit(groups, shapes)
    modifies session
    ensures r.Ok? ==> |r.value| == |groups| && TypesBuilt(r.value, nodes, groups, shapes, session.tables)
    ensures r.Err? ==> exists k, node :: TypeRefused(r.error, groups, shapes, k, node)
    ensures r.Err? && r.error.TooLarge? ==> TotalCount(groups) > MAX_ID
  {
    var tables: seq<VertexTable> := [];
    nodes := [];
    var first := 0;
    for k := 0 to |groups|
      invariant |tables| == k && TypesBuilt(tables, nodes, groups, shapes, session.tables)
      invariant first == |AllVertices(tables)|
    {
      var table, node := NextType(session, groups, shapes, tables, nodes, k, first);
      if table.Err? {
        return Err(table.error), nodes;
      }
      tables, nodes := tables + [table.value], nodes + [node];
      first := first + CountRows(table.value.batches);
    }
    r := Ok(tables);
  }

  /** `batches.iter().map(num_rows).sum()`. */
  function CountRows<T>(batches: seq<seq<T>>): (n: nat)
    ensures n == |Flatten(batches)|
  {
    if batches == [] then 0 else |batches[0]| + CountRows(batches[1..])
  }

  // ------------------------------------------------------------------ phase 2: edges

  type Catalogue = map<string, seq<seq<Vertex>>>

  type EdgeKey = (string, string, string)

  function KeyOf(e: EdgeType): EdgeKey {
    (e.source, e.name, e.destination)
  }

  function EdgeInputs(mappings: seq<Mapping>): seq<EdgeInput> {
    if mappings == [] then [] else EdgeInputs(mappings[..|mappings| - 1]) + mappings[|mappings| - 1].edges
  }

  type Produced = (EdgeKey, (EdgeType, PreparedEdge))

  /** `it` is what `execute_edge` makes of `e` over the registered vertices. */
  ghost predicate IsProduced(it: Produced, e: EdgeInput, tables: Catalogue) {
    && FitsType(e.rows)
    && it.0 == KeyOf(e.edge) && it.1.0 == e.edge
    && Selected(tables, e.edge.source).Ok? && Selected(tables, e.edge.destination).Ok?
    && IsResolution(it.1.1, Candidates(e.rows), Selected(tables, e.edge.source).value,
        Selected(tables, e.edge.destination).value)
  }

  ghost predicate AllProduced(items: seq<Produced>, inputs: seq<EdgeInput>, tables: Catalogue) {
    |items| == |inputs| && forall i | 0 <= i < |items| :: IsProduced(items[i], inputs[i], tables)
  }

  /** An end of `e` has no table to look its subjects up in. */
  ghost predicate EndMissing(e: EdgeInput, tables: Catalogue) {
    Selected(tables, e.edge.source).Err? || Selected(tables, e.edge.destination).Err?
  }

  ghost predicate AnEndIsMissing(inputs: seq<EdgeInput>, tables: Catalogue) {
    exists e :: e in inputs && EndMissing(e, tables)
  }

  method ExecuteEdges(session: Session, edges: seq<EdgeInput>) returns (r: Result<seq<Produced>, Failure>)
    requires forall e | e in edges :: FitsType(e.rows)
    ensures r.Ok? ==> AllProduced(r.value, edges, session.tables)
    ensures r.Err? ==> r.error == EngineRefused && AnEndIsMissing(edges, session.tables)
  {
    var out: seq<Produced> := [];
    for i := 0 to |edges|
      invariant AllProduced(out, edges[..i], session.tables)
    {
      var prepared := ExecuteEdge(session, edges[i].edge, edges[i].rows);
      if prepared.Err? {
        assert EndMissing(edges[i], session.tables);
        return Err(prepared.error);
      }
      out := out + [(KeyOf(edges[i].edge), (edges[i].edge, prepared.value))];
    }
    r := Ok(out);
  }

  lemma {:induction false} InputsHold(mappings: seq<Mapping>, k: nat)
    requires k < |mappings|
    ensures forall e | e in mappings[k].edges :: e in EdgeInputs(mappings)
  {
    if k < |mappings| - 1 {
      InputsHold(mappings[..|mappings| - 1], k);
    }
  }

  method ProduceEdges(session: Session, mappings: seq<Mapping>) returns (r: Result<seq<Produced>, Failure>)
    requires forall m, e | m in mappings && e in m.edges :: FitsType(e.rows)
    ensures r.Ok? ==> AllProduced(r.value, EdgeInputs(mappings), session.tables)
    ensures r.Err? ==> r.error == EngineRefused && AnEndIsMissing(EdgeInputs(mappings), session.tables)
  {
    hide IsProduced, EndMissing, FitsType;
    var out: seq<Produced> := [];
    for k := 0 to |mappings|
      invariant AllProduced(out, EdgeInputs(mappings[..k]), session.tables)
    {
      assert mappings[k] in mappings;
      var more := ExecuteEdges(session, mappings[k].edges);
      if more.Err? {
        InputsHold(mappings, k);
        return Err(more.error);
      }
      assert mappings[..k + 1][..k] == mappings[..k];
      out := out + more.value;
    }
    assert mappings[..|mappings|] == mappings;
    r := Ok(out);
  }

  function KeyedInputs(inputs: seq<EdgeInput>): (items: seq<(EdgeKey, EdgeInput)>)
    ensures |items| == |inputs| && forall i | 0 <= i < |items| :: items[i] == (KeyOf(inputs[i].edge), inputs[i])
  {
    seq(|inputs|, i requires 0 <= i < |inputs| => (KeyOf(inputs[i].edge), inputs[i]))
  }

  /** The relations `key` names, as the mappings write them; the first of them says what the relation is. */
  function Writings(inputs: seq<EdgeInput>, key: EdgeKey): seq<EdgeInput> {
    Members(KeyedInputs(inputs), key)
  }

  lemma {:induction false} MembersRunBeside(
    items: seq<Produced>, inputs: seq<EdgeInput>, tables: Catalogue, key: EdgeKey)
    requires AllProduced(items, inputs, tables)
    ensures |Members(items, key)| == |Writings(inputs, key)|
    ensures forall i | 0 <= i < |Members(items, key)| :: Members(items, key)[i].0 == Writings(inputs, key)[i].edge
  {
    if items == [] {
    } else {
      var n := |items| - 1;
      MembersRunBeside(items[..n], inputs[..n], tables, key);
      assert KeyedInputs(inputs)[..n] == KeyedInputs(inputs[..n]);
      assert IsProduced(items[n], inputs[n], tables);
    }
  }

  function Seconds(members: seq<(EdgeType, PreparedEdge)>): (out: seq<PreparedEdge>)
    ensures |out| == |members| && forall i | 0 <= i < |members| :: out[i] == members[i].1
  {
    seq(|members|, i requires 0 <= i < |members| => members[i].1)
  }

  /** Some candidate row of some mapping writing the relation joins `p`'s two ends. */
  ghost predicate Offers(p: Pair, inputs: seq<EdgeInput>, key: EdgeKey, src: seq<Vertex>, dst: seq<Vertex>)
    requires forall e | e in inputs :: FitsType(e.rows)
  {
    exists e :: e in inputs && KeyOf(e.edge) == key && Joins(p, Candidates(e.rows), src, dst)
  }

  /** The candidates of every mapping writing the relation, over all of them, that miss an end. */
  function MissingIn(inputs: seq<EdgeInput>, key: EdgeKey, src: seq<Vertex>, dst: seq<Vertex>): nat
    requires forall i | 0 <= i < |inputs| :: FitsType(inputs[i].rows)
  {
    if inputs == [] then 0
    else
      var last := inputs[|inputs| - 1];
      MissingIn(inputs[..|inputs| - 1], key, src, dst)
      + if KeyOf(last.edge) == key then Missing(Candidates(last.rows), src, dst) else 0
  }

  lemma {:induction false} PairsOf(group: seq<PreparedEdge>, p: Pair)
    ensures p in AllPairs(group) <==> exists e :: e in group && p in e.resolved
  {
    if group == [] {
    } else {
      PairsOf(group[1..], p);
      assert forall e | e in group :: e == group[0] || e in group[1..];
    }
  }

  lemma {:induction false} GroupPairsOffered(
    items: seq<Produced>, inputs: seq<EdgeInput>, tables: Catalogue, key: EdgeKey, p: Pair, src: seq<Vertex>,
    dst: seq<Vertex>)
    requires AllProduced(items, inputs, tables)
    requires forall e | e in inputs :: FitsType(e.rows)
    requires Selected(tables, key.0) == Ok(src) && Selected(tables, key.2) == Ok(dst)
    requires p in AllPairs(Seconds(Members(items, key)))
    ensures Offers(p, inputs, key, src, dst)
  {
    var members := Members(items, key);
    PairsOf(Seconds(members), p);
    var i :| 0 <= i < |members| && p in Seconds(members)[i].resolved;
    MemberOf(items, key, members[i]);
    var k :| 0 <= k < |items| && items[k] == (key, members[i]);
    assert IsProduced(items[k], inputs[k], tables) && inputs[k] in inputs;
    assert Joins(p, Candidates(inputs[k].rows), src, dst);
  }

  lemma {:induction false} OfferedPairsGrouped(
    items: seq<Produced>, inputs: seq<EdgeInput>, tables: Catalogue, key: EdgeKey, p: Pair, src: seq<Vertex>,
    dst: seq<Vertex>)
    requires AllProduced(items, inputs, tables)
    requires forall e | e in inputs :: FitsType(e.rows)
    requires Selected(tables, key.0) == Ok(src) && Selected(tables, key.2) == Ok(dst)
    requires Offers(p, inputs, key, src, dst)
    ensures p in AllPairs(Seconds(Members(items, key)))
  {
    var members := Members(items, key);
    var e :| e in inputs && KeyOf(e.edge) == key && Joins(p, Candidates(e.rows), src, dst);
    var k :| 0 <= k < |inputs| && inputs[k] == e;
    assert IsProduced(items[k], inputs[k], tables);
    assert items[k] == (key, items[k].1) && items[k] in items;
    MemberOf(items, key, items[k].1);
    var i :| 0 <= i < |members| && members[i] == items[k].1;
    assert Seconds(members)[i] in Seconds(members);
    PairsOf(Seconds(members), p);
  }

  lemma {:induction false} GroupDropped(items: seq<Produced>, inputs: seq<EdgeInput>, tables: Catalogue, key: EdgeKey)
    requires AllProduced(items, inputs, tables)
    requires forall i | 0 <= i < |inputs| :: FitsType(inputs[i].rows)
    requires Selected(tables, key.0).Ok? && Selected(tables, key.2).Ok?
    requires UniqueSubjects(Selected(tables, key.0).value) && UniqueSubjects(Selected(tables, key.2).value)
    ensures AllDropped(Seconds(Members(items, key))) ==
            MissingIn(inputs, key, Selected(tables, key.0).value, Selected(tables, key.2).value)
  {
    hide Pairings, Carriers, Selected;
    if items == [] {
    } else {
      var n := |items| - 1;
      GroupDropped(items[..n], inputs[..n], tables, key);
      var before := Members(items[..n], key);
      assert IsProduced(items[n], inputs[n], tables);
      if items[n].0 == key {
        assert Seconds(before + [items[n].1]) == Seconds(before) + [items[n].1.1];
        AllAppend(Seconds(before), items[n].1.1);
      }
    }
  }

  /** What a relation's table is: the pairs the candidates of all its mappings join, each once and in
      order, no end dangling, and the candidates that joined nothing counted. */
  ghost predicate IsRelation(table: EdgeTable, key: EdgeKey, inputs: seq<EdgeInput>, tables: Catalogue)
    requires forall e | e in inputs :: FitsType(e.rows)
  {
    && Writings(inputs, key) != [] && table.edge == Writings(inputs, key)[0].edge && KeyOf(table.edge) == key
    && Selected(tables, key.0).Ok? && Selected(tables, key.2).Ok?
    && var src, dst, pairs := Selected(tables, key.0).value, Selected(tables, key.2).value, Flatten(table.batches);
    && StrictPairs(pairs) && NoDangling(pairs, src, dst)
    && (forall p :: p in pairs <==> Offers(p, inputs, key, src, dst))
    && (table.edge.cardinality.Single? ==> !TwoDestinations(pairs))
    && (UniqueSubjects(src) && UniqueSubjects(dst) ==> table.dropped == MissingIn(inputs, key, src, dst))
  }

  /** Every key some item carries has a group, whose edge type is the first of them. */
  lemma {:induction false} GroupIsUsable(
    groups: seq<(EdgeKey, seq<(EdgeType, PreparedEdge)>)>, items: seq<Produced>, inputs: seq<EdgeInput>,
    tables: Catalogue, k: nat)
    requires IsGrouping(groups, items) && AllProduced(items, inputs, tables) && k < |groups|
    requires forall e | e in inputs :: FitsType(e.rows)
    ensures var key := groups[k].0;
            && groups[k].1 == Members(items, key) != [] && KeyOf(groups[k].1[0].0) == key
            && Selected(tables, key.0).Ok? && Selected(tables, key.2).Ok?
  {
    KeysAreDistinct(items);
    var key := groups[k].0;
    assert Keys(items)[k] == key && key in Keys(items);
    var it :| it in items && it.0 == key;
    assert it == (key, it.1);
    MemberOf(items, key, it.1);
    var i :| 0 <= i < |items| && items[i] == it;
    assert IsProduced(items[i], inputs[i], tables);
    MemberOf(items, key, groups[k].1[0]);
    var j :| 0 <= j < |items| && items[j] == (key, groups[k].1[0]);
    assert IsProduced(items[j], inputs[j], tables);
  }

  lemma {:induction false} JoinsDoNotDangle(
    p: Pair, inputs: seq<EdgeInput>, key: EdgeKey, src: seq<Vertex>, dst: seq<Vertex>)
    requires forall e | e in inputs :: FitsType(e.rows)
    requires Offers(p, inputs, key, src, dst)
    ensures p.0 in Ids(src) && p.1 in Ids(dst)
  {
    var e :| e in inputs && KeyOf(e.edge) == key && Joins(p, Candidates(e.rows), src, dst);
    var s, d, v, w :| (s, d) in Candidates(e.rows) && Ends(p, s, d, src, dst, v, w);
  }

  /** Two pairs of one source are offered: what a single-valued relation cannot hold. */
  ghost predicate ManyDestinations(inputs: seq<EdgeInput>, key: EdgeKey, src: seq<Vertex>, dst: seq<Vertex>)
    requires forall e | e in inputs :: FitsType(e.rows)
  {
    exists p, q :: Offers(p, inputs, key, src, dst) && Offers(q, inputs, key, src, dst) && p.0 == q.0 && p.1 != q.1
  }

  /** A single-valued relation is offered two destinations of one source; the error names the three by subject. */
  ghost predicate RelationRefused(error: Failure, key: EdgeKey, inputs: seq<EdgeInput>, tables: Catalogue)
    requires forall e | e in inputs :: FitsType(e.rows)
  {
    && Writings(inputs, key) != [] && Writings(inputs, key)[0].edge.cardinality.Single?
    && error.TooManyValues? && error.at == key.0 + "_" + key.1 + "_" + key.2
    && Selected(tables, key.0).Ok? && Selected(tables, key.2).Ok?
    && var src, dst := Selected(tables, key.0).value, Selected(tables, key.2).value;
    && ManyDestinations(inputs, key, src, dst)
    && exists s, d, e ::
         Offers((s, d), inputs, key, src, dst) && Offers((s, e), inputs, key, src, dst) && d < e
         && Reads(error, s, d, e, src, dst)
  }

  lemma {:induction false} ReportRefuses(
    error: Failure, edge: EdgeType, pairs: seq<Pair>, inputs: seq<EdgeInput>, tables: Catalogue)
    requires forall e | e in inputs :: FitsType(e.rows)
    requires var key := KeyOf(edge);
             && Writings(inputs, key) != [] && Writings(inputs, key)[0].edge == edge && edge.cardinality.Single?
             && Selected(tables, key.0).Ok? && Selected(tables, key.2).Ok?
             && var src, dst := Selected(tables, key.0).value, Selected(tables, key.2).value;
             && (forall p | p in pairs :: Offers(p, inputs, key, src, dst)) && ReportsEdge(error, edge, pairs, src, dst)
    ensures RelationRefused(error, KeyOf(edge), inputs, tables)
  {
    hide Offers;
    var key := KeyOf(edge);
    var src, dst := Selected(tables, key.0).value, Selected(tables, key.2).value;
    var s, d, e :| d < e && (s, d) in pairs && (s, e) in pairs && Reads(error, s, d, e, src, dst);
    assert Offers((s, d), inputs, key, src, dst) && Offers((s, e), inputs, key, src, dst);
    assert (s, d).0 == (s, e).0 && (s, d).1 != (s, e).1;
  }

  method OneRelation(
    session: Session, group: (EdgeKey, seq<(EdgeType, PreparedEdge)>), ghost items: seq<Produced>,
    ghost inputs: seq<EdgeInput>)
    returns (r: Result<EdgeTable, Failure>)
    requires AllProduced(items, inputs, session.tables)
    requires forall e | e in inputs :: FitsType(e.rows)
    requires group.1 == Members(items, group.0) != [] && KeyOf(group.1[0].0) == group.0
    requires Selected(session.tables, group.0.0).Ok? && Selected(session.tables, group.0.2).Ok?
    ensures r.Ok? ==> IsRelation(r.value, group.0, inputs, session.tables)
    ensures r.Err? ==> RelationRefused(r.error, group.0, inputs, session.tables)
  {
    ghost var key := group.0;
    ghost var src, dst := Selected(session.tables, key.0).value, Selected(session.tables, key.2).value;
    ghost var pairs := AllPairs(Seconds(group.1));
    forall p ensures p in pairs <==> Offers(p, inputs, key, src, dst) {
      if p in pairs {
        GroupPairsOffered(items, inputs, session.tables, key, p, src, dst);
      } else if Offers(p, inputs, key, src, dst) {
        OfferedPairsGrouped(items, inputs, session.tables, key, p, src, dst);
      }
    }
    forall p | p in pairs ensures p.0 in Ids(src) && p.1 in Ids(dst) {
      JoinsDoNotDangle(p, inputs, key, src, dst);
    }
    if UniqueSubjects(src) && UniqueSubjects(dst) {
      GroupDropped(items, inputs, session.tables, key);
    }
    MembersRunBeside(items, inputs, session.tables, key);
    r := FinalizeEdge(session, group.1[0].0, Seconds(group.1));
    if r.Ok? {
      SamePairs(pairs, Flatten(r.value.batches), EngineRefused, group.1[0].0, src, dst);
    } else {
      ReportRefuses(r.error, group.1[0].0, pairs, inputs, session.tables);
    }
  }

  // ------------------------------------------------------------------ execute_graph

  function VertexItems(mappings: seq<Mapping>): (items: seq<(string, Prepared)>)
    ensures |items| == |mappings|
    ensures forall i | 0 <= i < |items| :: items[i] == (mappings[i].vertex.node.typeName, mappings[i].vertex)
  {
    seq(|mappings|, i requires 0 <= i < |mappings| => (mappings[i].vertex.node.typeName, mappings[i].vertex))
  }

  ghost function Grouping<K, V>(items: seq<(K, V)>): (groups: seq<(K, seq<V>)>)
    ensures IsGrouping(groups, items)
  {
    seq(|Keys(items)|, i requires 0 <= i < |Keys(items)| => (Keys(items)[i], Members(items, Keys(items)[i])))
  }

  lemma {:induction false} KeysOfKeysOnly<K, V, W>(a: seq<(K, V)>, b: seq<(K, W)>)
    requires |a| == |b| && forall i | 0 <= i < |a| :: a[i].0 == b[i].0
    ensures Keys(a) == Keys(b)
  {
    if a == [] {
    } else {
      KeysOfKeysOnly(a[..|a| - 1], b[..|b| - 1]);
    }
  }

  lemma {:induction false} InputsFit(mappings: seq<Mapping>, shapes: Shapes)
    requires forall m | m in mappings :: MappingFits(m, shapes)
    ensures forall e | e in EdgeInputs(mappings) :: FitsType(e.rows)
  {
    if mappings == [] {
    } else {
      var last := mappings[|mappings| - 1];
      assert last in mappings && MappingFits(last, shapes);
      InputsFit(mappings[..|mappings| - 1], shapes);
    }
  }

  lemma {:induction false} GroupingFits(mappings: seq<Mapping>, shapes: Shapes)
    requires forall m | m in mappings :: MappingFits(m, shapes)
    ensures GroupsFit(Grouping(VertexItems(mappings)), shapes)
  {
    var items := VertexItems(mappings);
    var groups := Grouping(items);
    KeysAreDistinct(items);
    forall i | 0 <= i < |groups| ensures GroupFits(groups[i], shapes) {
      var key := Keys(items)[i];
      assert key in Keys(items);
      var it :| it in items && it.0 == key;
      assert it == (key, it.1);
      MemberOf(items, key, it.1);
      forall p | p in groups[i].1
        ensures p.node.typeName == key && key in shapes && WellFormed(p) && Writes(p, shapes[key])
      {
        MemberOf(items, key, p);
        var k :| 0 <= k < |items| && items[k] == (key, p);
        assert mappings[k] in mappings && MappingFits(mappings[k], shapes);
      }
      assert groups[i].1[0] in groups[i].1;
    }
  }

  ghost predicate AllRelations(edges: seq<EdgeTable>, keys: seq<EdgeKey>, inputs: seq<EdgeInput>, tables: Catalogue)
    requires forall e | e in inputs :: FitsType(e.rows)
  {
    |edges| == |keys| && forall k | 0 <= k < |keys| :: IsRelation(edges[k], keys[k], inputs, tables)
  }

  /** What a run's graph is, said of its mappings. */
  ghost predicate IsGraphOf(graph: Graph, mappings: seq<Mapping>, shapes: Shapes, tables: Catalogue)
    requires GroupsFit(Grouping(VertexItems(mappings)), shapes)
    requires forall e | e in EdgeInputs(mappings) :: FitsType(e.rows)
  {
    var types := Grouping(VertexItems(mappings));
    && |graph.vertices| == |types| && TypesBuilt(graph.vertices, graph.nodes, types, shapes, tables)
    && AllRelations(graph.edges, Keys(KeyedInputs(EdgeInputs(mappings))), EdgeInputs(mappings), tables)
  }

  /** One more relation: the group at `k`. */
  method NextRelation(
    session: Session, groups: seq<(EdgeKey, seq<(EdgeType, PreparedEdge)>)>, k: nat, edges: seq<EdgeTable>,
    ghost items: seq<Produced>, ghost inputs: seq<EdgeInput>)
    returns (r: Result<seq<EdgeTable>, Failure>)
    requires forall e | e in inputs :: FitsType(e.rows)
    requires IsGrouping(groups, items) && AllProduced(items, inputs, session.tables)
    requires k < |groups| && AllRelations(edges, Keys(items)[..k], inputs, session.tables)
    ensures r.Ok? ==> AllRelations(r.value, Keys(items)[..k + 1], inputs, session.tables)
    ensures r.Err? ==> RelationRefused(r.error, groups[k].0, inputs, session.tables)
  {
    GroupIsUsable(groups, items, inputs, session.tables, k);
    var table := OneRelation(session, groups[k], items, inputs);
    if table.Err? {
      return Err(table.error);
    }
    RelationsExtend(edges, Keys(items)[..k], inputs, session.tables, table.value, groups[k].0);
    assert Keys(items)[..k] + [groups[k].0] == Keys(items)[..k + 1];
    r := Ok(edges + [table.value]);
  }

  method Relations(
    session: Session, groups: seq<(EdgeKey, seq<(EdgeType, PreparedEdge)>)>,
    ghost items: seq<Produced>, ghost inputs: seq<EdgeInput>)
    returns (r: Result<seq<EdgeTable>, Failure>)
    requires forall e | e in inputs :: FitsType(e.rows)
    requires IsGrouping(groups, items) && AllProduced(items, inputs, session.tables)
    ensures r.Ok? ==> AllRelations(r.value, Keys(items), inputs, session.tables)
    ensures r.Err? ==> exists key :: RelationRefused(r.error, key, inputs, session.tables)
  {
    r := Ok([]);
    for k := 0 to |groups|
      invariant r.Ok? && AllRelations(r.value, Keys(items)[..k], inputs, session.tables)
    {
      r := NextRelation(session, groups, k, r.value, items, inputs);
      if r.Err? {
        return;
      }
    }
    assert Keys(items)[..|groups|] == Keys(items);
  }

  lemma {:induction false} RelationsExtend(
    edges: seq<EdgeTable>, keys: seq<EdgeKey>, inputs: seq<EdgeInput>, tables: Catalogue, table: EdgeTable,
    key: EdgeKey)
    requires forall e | e in inputs :: FitsType(e.rows)
    requires AllRelations(edges, keys, inputs, tables) && IsRelation(table, key, inputs, tables)
    ensures AllRelations(edges + [table], keys + [key], inputs, tables)
  {}

  method EdgePhase(session: Session, mappings: seq<Mapping>) returns (r: Result<seq<EdgeTable>, Failure>)
    requires forall m, e | m in mappings && e in m.edges :: FitsType(e.rows)
    requires forall e | e in EdgeInputs(mappings) :: FitsType(e.rows)
    ensures r.Ok? ==>
        AllRelations(r.value, Keys(KeyedInputs(EdgeInputs(mappings))), EdgeInputs(mappings), session.tables)
    ensures r == Err(EngineRefused) <==> AnEndIsMissing(EdgeInputs(mappings), session.tables)
    ensures r.Err? && r.error != EngineRefused ==>
              exists key :: RelationRefused(r.error, key, EdgeInputs(mappings), session.tables)
  {
    ghost var inputs := EdgeInputs(mappings);
    var produced := ProduceEdges(session, mappings);
    if produced.Err? {
      return Err(produced.error);
    }
    var items := produced.value;
    forall e | e in inputs
      ensures !EndMissing(e, session.tables)
    {
      var i :| 0 <= i < |inputs| && inputs[i] == e;
      assert IsProduced(items[i], inputs[i], session.tables);
    }
    forall i | 0 <= i < |items| ensures items[i].0 == KeyedInputs(inputs)[i].0 {
      assert IsProduced(items[i], inputs[i], session.tables);
    }
    KeysOfKeysOnly(items, KeyedInputs(inputs));
    var groups := GroupByKey(items);
    r := Relations(session, groups, items, inputs);
  }

  method ExecuteGraph(
    session: Session, mappings: seq<Mapping>, ghost shapes: Shapes)
    returns (r: Result<Graph, Failure>)
    requires forall m | m in mappings :: MappingFits(m, shapes)
    modifies session
    ensures GroupsFit(Grouping(VertexItems(mappings)), shapes)
    ensures forall e | e in EdgeInputs(mappings) :: FitsType(e.rows)
    ensures r.Ok? ==> IsGraphOf(r.value, mappings, shapes, session.tables)
    ensures r.Ok? ==>
              var types := Grouping(VertexItems(mappings));
              |r.value.vertices| == |types|
              && forall j | 0 <= j < |types| :: Origins.SaysItsRows(r.value.vertices[j], types[j].1)
    ensures r.Err? ==>
              || (exists k, node :: TypeRefused(r.error, Grouping(VertexItems(mappings)), shapes, k, node))
              || (r.error == EngineRefused && AnEndIsMissing(EdgeInputs(mappings), session.tables))
              || (exists key :: RelationRefused(r.error, key, EdgeInputs(mappings), session.tables))
    ensures r.Err? && r.error.TooLarge? ==> TotalCount(Grouping(VertexItems(mappings))) > MAX_ID
  {
    GroupingFits(mappings, shapes);
    InputsFit(mappings, shapes);
    var groups := GroupByKey(VertexItems(mappings));
    assert groups == Grouping(VertexItems(mappings));
    var vertices, nodes := VertexPhase(session, groups, shapes);
    if vertices.Err? {
      return Err(vertices.error);
    }
    assert forall m, e | m in mappings && e in m.edges :: MappingFits(m, shapes);
    var edges := EdgePhase(session, mappings);
    if edges.Err? {
      return Err(edges.error);
    }
    r := Ok(Graph(nodes, vertices.value, edges.value));
    forall j | 0 <= j < |groups|
      ensures Origins.SaysItsRows(vertices.value[j], groups[j].1)
    {
      assert TableOf(vertices.value[j], groups[j], shapes, nodes[j], |AllVertices(vertices.value[..j])|);
      Origins.TableSaysItsRows(
        vertices.value[j], groups[j].1, shapes[groups[j].0], nodes[j], |AllVertices(vertices.value[..j])|);
    }
  }
}
