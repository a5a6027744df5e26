/** The ids of a run's vertices, across all types. */
module Numbering {
  import opened Tables
  import opened Vertices
  import opened VertexLaws
  import opened Materialise
  import Edges

  ghost predicate Run(
    tables: seq<VertexTable>, nodes: seq<Node>, groups: seq<(string, seq<Prepared>)>, shapes: Shapes,
    catalogue: map<string, seq<seq<Vertex>>>)
  {
    GroupsFit(groups, shapes) && TypesBuilt(tables, nodes, groups, shapes, catalogue) && |tables| == |groups|
  }

  lemma {:induction false} PrefixOfAll(tables: seq<VertexTable>, k: nat)
    requires k <= |tables|
    ensures AllVertices(tables[..k]) <= AllVertices(tables)
  {
    if k < |tables| {
      PrefixOfAll(tables[..|tables| - 1], k);
      assert tables[..|tables| - 1][..k] == tables[..k];
    } else {
      assert tables[..k] == tables;
    }
  }

  /** A type is one contiguous range of the numbering. */
  lemma {:induction false} TypeIsARange(tables: seq<VertexTable>, k: nat)
    requires k < |tables|
    ensures var start, own := |AllVertices(tables[..k])|, Flatten(tables[k].batches);
            start + |own| <= |AllVertices(tables)| && AllVertices(tables)[start..start + |own|] == own
  {
    PrefixOfAll(tables, k + 1);
    assert tables[..k + 1][..k] == tables[..k];
    var start, own := |AllVertices(tables[..k])|, Flatten(tables[k].batches);
    assert AllVertices(tables[..k + 1]) == AllVertices(tables[..k]) + own;
    var upto := AllVertices(tables[..k + 1]);
    assert AllVertices(tables)[..|upto|] == upto;
    assert AllVertices(tables)[start..start + |own|] == upto[start..start + |own|];
  }

  lemma {:induction false} RangeStart(
    tables: seq<VertexTable>, nodes: seq<Node>, groups: seq<(string, seq<Prepared>)>, shapes: Shapes,
    catalogue: map<string, seq<seq<Vertex>>>, k: nat)
    requires Run(tables, nodes, groups, shapes, catalogue) && k < |tables|
    ensures IsNumbering(Flatten(tables[k].batches), |AllVertices(tables[..k])|)
  {
    assert TableOf(tables[k], groups[k], shapes, nodes[k], |AllVertices(tables[..k])|);
    UnionIsScalar(groups[k].1, shapes[groups[k].0], nodes[k]);
  }

  /** The ids fill `[0, N)`: the vertex in place `i` of the whole graph has the id `i`, and `N` fits a `u32`. */
  lemma {:induction false} NumberingIsDense(
    tables: seq<VertexTable>, nodes: seq<Node>, groups: seq<(string, seq<Prepared>)>, shapes: Shapes,
    catalogue: map<string, seq<seq<Vertex>>>)
    requires Run(tables, nodes, groups, shapes, catalogue)
    ensures forall i | 0 <= i < |AllVertices(tables)| :: AllVertices(tables)[i].id == i
    ensures |AllVertices(tables)| == TotalCount(groups) <= MAX_ID
  {
    DenseUpTo(tables, nodes, groups, shapes, catalogue, |tables|);
    assert tables[..|tables|] == tables && groups[..|tables|] == groups;
  }

  lemma {:induction false} DenseUpTo(
    tables: seq<VertexTable>, nodes: seq<Node>, groups: seq<(string, seq<Prepared>)>, shapes: Shapes,
    catalogue: map<string, seq<seq<Vertex>>>, k: nat)
    requires Run(tables, nodes, groups, shapes, catalogue) && k <= |tables|
    ensures forall i | 0 <= i < |AllVertices(tables[..k])| :: AllVertices(tables[..k])[i].id == i
    ensures |AllVertices(tables[..k])| <= MAX_ID
  {
    hide Run, Flatten;
    if k == 0 {
    } else {
      DenseUpTo(tables, nodes, groups, shapes, catalogue, k - 1);
      RangeStart(tables, nodes, groups, shapes, catalogue, k - 1);
      assert tables[..k][..k - 1] == tables[..k - 1];
    }
  }

  lemma {:induction false} PlaceOf(
    tables: seq<VertexTable>, nodes: seq<Node>, groups: seq<(string, seq<Prepared>)>, shapes: Shapes,
    catalogue: map<string, seq<seq<Vertex>>>, k: nat, i: nat)
    requires Run(tables, nodes, groups, shapes, catalogue)
    requires k < |tables| && i < |Flatten(tables[k].batches)|
    ensures Flatten(tables[k].batches)[i].id == |AllVertices(tables[..k])| + i
    ensures |AllVertices(tables[..k])| + |Flatten(tables[k].batches)|
        == |AllVertices(tables[..k + 1])| <= |AllVertices(tables)|
  {
    hide Run;
    RangeStart(tables, nodes, groups, shapes, catalogue, k);
    assert tables[..k + 1][..k] == tables[..k];
    PrefixOfAll(tables, k + 1);
  }

  lemma {:induction false} EarlierTypesEndBefore(tables: seq<VertexTable>, j: nat, k: nat)
    requires j < k <= |tables|
    ensures |AllVertices(tables[..j + 1])| <= |AllVertices(tables[..k])|
  {
    PrefixOfAll(tables[..k], j + 1);
    assert tables[..k][..j + 1] == tables[..j + 1];
  }

  /** An id is one vertex: no two places of the graph share one. */
  lemma {:induction false} IdIsOnePlace(
    tables: seq<VertexTable>, nodes: seq<Node>, groups: seq<(string, seq<Prepared>)>, shapes: Shapes,
    catalogue: map<string, seq<seq<Vertex>>>, j: nat, a: nat, k: nat, b: nat)
    requires Run(tables, nodes, groups, shapes, catalogue)
    requires j < |tables| && a < |Flatten(tables[j].batches)|
    requires k < |tables| && b < |Flatten(tables[k].batches)|
    ensures Flatten(tables[j].batches)[a].id == Flatten(tables[k].batches)[b].id <==> j == k && a == b
  {
    PlaceOf(tables, nodes, groups, shapes, catalogue, j, a);
    PlaceOf(tables, nodes, groups, shapes, catalogue, k, b);
    if j < k {
      EarlierTypesEndBefore(tables, j, k);
    } else if k < j {
      EarlierTypesEndBefore(tables, k, j);
    }
  }

  lemma {:induction false} BuiltIsStrict(
    t: VertexTable, group: seq<Prepared>, shape: map<string, Cardinality>, node: Node, first: nat)
    requires Built(t, group, shape, node, first) && group[0].dedup
    ensures StrictlyBySubject(Bares(Flatten(t.batches)))
  {
    UnionIsScalar(group, shape, node);
  }

  lemma {:induction false} BuiltIsNumbered(
    t: VertexTable, group: seq<Prepared>, shape: map<string, Cardinality>, node: Node, first: nat)
    requires Built(t, group, shape, node, first)
    ensures IsNumbering(Flatten(t.batches), first)
  {
    UnionIsScalar(group, shape, node);
  }

  lemma {:induction false} StrictOrder(rows: seq<Bare>, a: nat, b: nat)
    requires StrictlyBySubject(rows) && a < |rows| && b < |rows|
    ensures a < b <==> Lt(rows[a].subject, rows[b].subject)
    ensures a == b <==> rows[a].subject == rows[b].subject
  {}

  /** Inside a deduplicated type the ids run with the subjects, so a type and a subject have one id. */
  lemma {:induction false} IdsRunWithSubjects(
    t: VertexTable, group: seq<Prepared>, shape: map<string, Cardinality>, node: Node, first: nat, a: nat, b: nat)
    requires Built(t, group, shape, node, first) && group[0].dedup
    requires a < |Flatten(t.batches)| && b < |Flatten(t.batches)|
    ensures var own := Flatten(t.batches);
            && (own[a].id < own[b].id <==> Lt(own[a].row.subject, own[b].row.subject))
            && (own[a].id == own[b].id <==> own[a].row.subject == own[b].row.subject)
  {
    BuiltIsNumbered(t, group, shape, node, first);
    BuiltIsStrict(t, group, shape, node, first);
    StrictOrder(Bares(Flatten(t.batches)), a, b);
  }

  /** A deduplicated table satisfies what counting an edge's drops asks of its ends. */
  lemma {:induction false} DedupedSubjectsAreUnique(
    t: VertexTable, group: seq<Prepared>, shape: map<string, Cardinality>, node: Node, first: nat)
    requires Built(t, group, shape, node, first) && group[0].dedup
    ensures Edges.UniqueSubjects(Flatten(t.batches))
  {
    BuiltIsStrict(t, group, shape, node, first);
    var vertices := Flatten(t.batches);
    forall i, j | 0 <= i < j < |vertices| ensures vertices[i].row.subject != vertices[j].row.subject {
      assert Bares(vertices)[i] == vertices[i].row && Bares(vertices)[j] == vertices[j].row;
    }
  }
}
