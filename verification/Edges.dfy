/** One edge table from every mapping that writes it: `execute_edge`, `finalize_edge` and the scan for a
    source with two destinations. */
module Edges {
  import opened Results
  import opened Tables
  import opened Vertices

  datatype EdgeType = EdgeType(source: string, name: string, destination: string, cardinality: Cardinality)

  /** A mapping's projection to source and destination, the second alone in its column's type. */
  datatype EdgeRows = EdgeRows(rows: seq<(Cell, Entry)>, ty: ColumnType)

  datatype PreparedEdge = PreparedEdge(resolved: seq<Pair>, dropped: nat)

  datatype EdgeTable = EdgeTable(edge: EdgeType, batches: seq<seq<Pair>>, dropped: nat)

  ghost predicate FitsType(e: EdgeRows) {
    forall r | r in e.rows :: Fits(r.1, e.ty)
  }

  /** The rows offered as edges: one per destination, however the source spells many. */
  function Candidates(e: EdgeRows): seq<(Cell, Cell)>
    requires FitsType(e)
  {
    RowPerValue(e.rows, e.ty)
  }

  // ------------------------------------------------------------------ the two joins

  function Swap<A, B>(rows: seq<(A, B)>): (out: seq<(B, A)>)
    ensures |out| == |rows| && forall i | 0 <= i < |rows| :: out[i] == (rows[i].1, rows[i].0)
  {
    seq(|rows|, i requires 0 <= i < |rows| => (rows[i].1, rows[i].0))
  }

  lemma {:induction false} SwapMember<A, B>(rows: seq<(A, B)>, a: A, b: B)
    ensures (b, a) in Swap(rows) <==> (a, b) in rows
  {
    if (a, b) in rows {
      var i :| 0 <= i < |rows| && rows[i] == (a, b);
      assert Swap(rows)[i] == (b, a);
    }
  }

  /** Both inner joins: source ids, then destination ids. */
  function Resolve(candidates: seq<(Cell, Cell)>, src: seq<Vertex>, dst: seq<Vertex>): seq<Pair> {
    Swap(JoinSubject(Swap(JoinSubject(candidates, src)), dst))
  }

  /** `p` joins the vertices some candidate names at both ends. */
  ghost predicate Joins(p: Pair, candidates: seq<(Cell, Cell)>, src: seq<Vertex>, dst: seq<Vertex>) {
    exists s, d, v, w :: (s, d) in candidates && Ends(p, s, d, src, dst, v, w)
  }

  ghost predicate Ends(p: Pair, s: Cell, d: Cell, src: seq<Vertex>, dst: seq<Vertex>, v: Vertex, w: Vertex) {
    v in src && w in dst && Named(v, s) && Named(w, d) && p == (v.id, w.id)
  }

  lemma {:induction false} ResolveMember(candidates: seq<(Cell, Cell)>, src: seq<Vertex>, dst: seq<Vertex>, p: Pair)
    ensures p in Resolve(candidates, src, dst) <==> Joins(p, candidates, src, dst)
  {
    var first := JoinSubject(candidates, src);
    var second := JoinSubject(Swap(first), dst);
    SwapMember(second, p.1, p.0);
    JoinMember(Swap(first), dst, p.1, p.0);
    if d, w :| (d, p.0) in Swap(first) && w in dst && Named(w, d) && w.id == p.1 {
      SwapMember(first, p.0, d);
      JoinMember(candidates, src, p.0, d);
      var s, v :| (s, d) in candidates && v in src && Named(v, s) && v.id == p.0;
      assert Ends(p, s, d, src, dst, v, w);
    }
    if s, d, v, w :| (s, d) in candidates && Ends(p, s, d, src, dst, v, w) {
      JoinMember(candidates, src, p.0, d);
      SwapMember(first, p.0, d);
    }
  }

  // ------------------------------------------------------------------ what the join drops

  ghost predicate UniqueSubjects(vertices: seq<Vertex>) {
    forall i, j | 0 <= i < j < |vertices| :: vertices[i].row.subject.Val? ==>
        vertices[i].row.subject != vertices[j].row.subject
  }

  predicate Exists(vertices: seq<Vertex>, subject: Cell) {
    exists v :: v in vertices && Named(v, subject)
  }

  /** How many candidates name, at one end or the other, a subject no vertex carries. */
  function Missing(candidates: seq<(Cell, Cell)>, src: seq<Vertex>, dst: seq<Vertex>): nat {
    if candidates == [] then 0
    else
      (if Exists(src, candidates[0].0) && Exists(dst, candidates[0].1) then 0 else 1)
      + Missing(candidates[1..], src, dst)
  }

  lemma {:induction false} MatchOnce(vertices: seq<Vertex>, subject: Cell)
    requires UniqueSubjects(vertices)
    ensures |Matching(vertices, subject)| == if Exists(vertices, subject) then 1 else 0
  {
    if vertices == [] {
    } else {
      MatchOnce(vertices[1..], subject);
      assert forall v | v in vertices :: v == vertices[0] || v in vertices[1..];
      if Named(vertices[0], subject) {
        assert vertices[0] in vertices;
        forall v | v in vertices[1..] ensures !Named(v, subject) {
          var i :| 0 <= i < |vertices[1..]| && vertices[1..][i] == v;
          assert vertices[i + 1] == v;
        }
      } else {
        assert forall v | v in vertices[1..] :: v in vertices;
      }
    }
  }

  lemma {:induction false} JoinAppend<T>(a: seq<(Cell, T)>, b: seq<(Cell, T)>, vertices: seq<Vertex>)
    ensures JoinSubject(a + b, vertices) == JoinSubject(a, vertices) + JoinSubject(b, vertices)
  {
    hide Matching, WithIds;
    if a == [] {
      assert a + b == b;
    } else {
      var head, rest := WithIds(Matching(vertices, a[0].0), a[0].1), JoinSubject(a[1..], vertices);
      JoinAppend(a[1..], b, vertices);
      assert (a + b)[0] == a[0] && (a + b)[1..] == a[1..] + b;
      assert JoinSubject(a + b, vertices) == head + (rest + JoinSubject(b, vertices));
      assert head + (rest + JoinSubject(b, vertices)) == head + rest + JoinSubject(b, vertices);
    }
  }

  lemma {:induction false} JoinOne<T>(key: Cell, t: T, vertices: seq<Vertex>)
    ensures JoinSubject([(key, t)], vertices) == WithIds(Matching(vertices, key), t)
  {
    assert [(key, t)][1..] == [];
    assert JoinSubject([(key, t)], vertices)
        == WithIds(Matching(vertices, key), t) + JoinSubject([(key, t)][1..], vertices);
  }

  /** While a subject names at most one vertex, a candidate is matched once or dropped. */
  lemma {:induction false} EveryCandidateIsMatchedOrDropped(
    candidates: seq<(Cell, Cell)>, src: seq<Vertex>, dst: seq<Vertex>)
    requires UniqueSubjects(src) && UniqueSubjects(dst)
    ensures |candidates| == |Resolve(candidates, src, dst)| + Missing(candidates, src, dst)
  {
    if candidates == [] {
    } else {
      var (s, d) := candidates[0];
      var rest := candidates[1..];
      EveryCandidateIsMatchedOrDropped(rest, src, dst);
      MatchOnce(src, s);
      MatchOnce(dst, d);
      var head := WithIds(Matching(src, s), d);
      var tail := JoinSubject(rest, src);
      assert JoinSubject(candidates, src) == head + tail;
      assert Swap(head + tail) == Swap(head) + Swap(tail);
      JoinAppend(Swap(head), Swap(tail), dst);
      if Exists(src, s) {
        assert Swap(head) == [(d, Matching(src, s)[0])];
        JoinOne(d, Matching(src, s)[0], dst);
      } else {
        assert Swap(head) == [];
      }
    }
  }

  /** How many vertices carry the subject. */
  function Carriers(vertices: seq<Vertex>, subject: Cell): nat {
    if vertices == [] then 0 else (if Named(vertices[0], subject) then 1 else 0) + Carriers(vertices[1..], subject)
  }

  /** How many pairs of vertices the candidates name. */
  function Pairings(candidates: seq<(Cell, Cell)>, src: seq<Vertex>, dst: seq<Vertex>): nat {
    if candidates == [] then 0
    else
      Carriers(src, candidates[0].0) * Carriers(dst, candidates[0].1) + Pairings(candidates[1..], src, dst)
  }

  lemma {:induction false} MatchesAreCarriers(vertices: seq<Vertex>, subject: Cell)
    ensures |Matching(vertices, subject)| == Carriers(vertices, subject)
  {
    if vertices == [] {
    } else {
      MatchesAreCarriers(vertices[1..], subject);
    }
  }

  lemma {:induction false} OneKeyJoins<T>(rows: seq<(Cell, T)>, key: Cell, vertices: seq<Vertex>)
    requires forall r | r in rows :: r.0 == key
    ensures |JoinSubject(rows, vertices)| == |rows| * Carriers(vertices, key)
  {
    hide Matching, Carriers;
    if rows == [] {
    } else {
      assert rows[0] in rows && forall r | r in rows[1..] :: r in rows;
      OneKeyJoins(rows[1..], key, vertices);
      MatchesAreCarriers(vertices, key);
      assert JoinSubject(rows, vertices)
          == WithIds(Matching(vertices, key), rows[0].1) + JoinSubject(rows[1..], vertices);
      assert (1 + |rows[1..]|) * Carriers(vertices, key)
          == Carriers(vertices, key) + |rows[1..]| * Carriers(vertices, key);
    }
  }

  /** A candidate resolves once for each pair of vertices that carry its ends. */
  lemma {:induction false} ResolvesAsOftenAsItPairs(
    candidates: seq<(Cell, Cell)>, src: seq<Vertex>, dst: seq<Vertex>)
    ensures |Resolve(candidates, src, dst)| == Pairings(candidates, src, dst)
  {
    hide Matching, Carriers;
    if candidates == [] {
    } else {
      var (s, d) := candidates[0];
      var rest := candidates[1..];
      ResolvesAsOftenAsItPairs(rest, src, dst);
      MatchesAreCarriers(src, s);
      var head := WithIds(Matching(src, s), d);
      var tail := JoinSubject(rest, src);
      assert JoinSubject(candidates, src) == head + tail;
      assert Swap(head + tail) == Swap(head) + Swap(tail);
      JoinAppend(Swap(head), Swap(tail), dst);
      OneKeyJoins(Swap(head), d, dst);
    }
  }

  method ExecuteEdge(session: Session, edge: EdgeType, rows: EdgeRows) returns (r: Result<PreparedEdge, Failure>)
    requires FitsType(rows)
    ensures var src, dst := Selected(session.tables, edge.source), Selected(session.tables, edge.destination);
            if src.Err? || dst.Err? then r == Err(EngineRefused)
            else r.Ok? && IsResolution(r.value, Candidates(rows), src.value, dst.value)
  {
    var candidates := Candidates(rows);
    var src := session.Select(edge.source);
    if src.Err? {
      return Err(src.error);
    }
    var dst := session.Select(edge.destination);
    if dst.Err? {
      return Err(dst.error);
    }
    var resolved := Resolve(candidates, src.value, dst.value);
    forall p ensures p in resolved <==> Joins(p, candidates, src.value, dst.value) {
      ResolveMember(candidates, src.value, dst.value, p);
    }
    var dropped := if |candidates| >= |resolved| then |candidates| - |resolved| else 0;
    ResolvesAsOftenAsItPairs(candidates, src.value, dst.value);
    if UniqueSubjects(src.value) && UniqueSubjects(dst.value) {
      EveryCandidateIsMatchedOrDropped(candidates, src.value, dst.value);
    }
    r := Ok(PreparedEdge(resolved, dropped));
  }

  /** The pairs a mapping's candidates resolve to, and the candidates that resolve to none. */
  ghost predicate IsResolution(e: PreparedEdge, candidates: seq<(Cell, Cell)>, src: seq<Vertex>, dst: seq<Vertex>) {
    && (forall p :: p in e.resolved <==> Joins(p, candidates, src, dst))
    && |e.resolved| == Pairings(candidates, src, dst)
    && e.dropped == (if |candidates| >= |e.resolved| then |candidates| - |e.resolved| else 0)
    && (UniqueSubjects(src) && UniqueSubjects(dst) ==>
          e.dropped == Missing(candidates, src, dst) && |candidates| == |e.resolved| + e.dropped)
  }

  // ------------------------------------------------------------------ a single-valued relation

  ghost predicate TwoDestinations(pairs: seq<Pair>) {
    exists p, q :: p in pairs && q in pairs && p.0 == q.0 && p.1 != q.1
  }

  /** The scan of adjacent pairs, carried from one batch to the next. */
  method FindSecond(batches: seq<seq<Pair>>) returns (found: bool, src: int, first: int, second: int)
    requires StrictPairs(Flatten(batches))
    ensures found <==> TwoDestinations(Flatten(batches))
    ensures found ==> first < second && (src, first) in Flatten(batches) && (src, second) in Flatten(batches)
  {
    var pairs := Flatten(batches);
    found, src, first, second := false, 0, 0, 0;
    var previous: seq<Pair> := [];
    for i := 0 to |pairs|
      invariant previous == if i == 0 then [] else [pairs[i - 1]]
      invariant forall j, k | 0 <= j < k < i :: pairs[j].0 < pairs[k].0
    {
      if previous != [] && previous[0].0 == pairs[i].0 {
        assert pairs[i - 1] in pairs && pairs[i] in pairs;
        return true, pairs[i].0, previous[0].1, pairs[i].1;
      }
      previous := [pairs[i]];
    }
    assert !TwoDestinations(pairs);
  }

  /** The subject an id numbers, read back from the table that numbered it. */
  method SubjectOf(session: Session, typeName: string, id: int) returns (subject: Cell)
    requires Selected(session.tables, typeName).Ok?
    requires id in Ids(Selected(session.tables, typeName).value)
    ensures Numbers(Selected(session.tables, typeName).value, id, subject)
  {
    var selected := session.Select(typeName);
    var vertices := selected.value;
    var k := 0;
    while k < |vertices| && vertices[k].id != id
      invariant k <= |vertices|
      invariant forall j | 0 <= j < k :: vertices[j].id != id
    {
      k := k + 1;
    }
    assert vertices[k] in vertices;
    subject := vertices[k].row.subject;
  }

  function AllPairs(group: seq<PreparedEdge>): seq<Pair> {
    if group == [] then [] else group[0].resolved + AllPairs(group[1..])
  }

  function AllDropped(group: seq<PreparedEdge>): nat {
    if group == [] then 0 else group[0].dropped + AllDropped(group[1..])
  }

  lemma {:induction false} AllAppend(group: seq<PreparedEdge>, e: PreparedEdge)
    ensures AllPairs(group + [e]) == AllPairs(group) + e.resolved
    ensures AllDropped(group + [e]) == AllDropped(group) + e.dropped
  {
    if group == [] {
      assert group + [e] == [e] && [e][1..] == [];
    } else {
      AllAppend(group[1..], e);
      assert (group + [e])[1..] == group[1..] + [e];
    }
  }

  /** What the refusal of a single-valued relation says: a source and two of its destinations, by subject. */
  ghost predicate ReportsEdge(error: Failure, edge: EdgeType, pairs: seq<Pair>, src: seq<Vertex>, dst: seq<Vertex>) {
    && error.TooManyValues?
    && error.at == edge.source + "_" + edge.name + "_" + edge.destination
    && exists s, d, e :: d < e && (s, d) in pairs && (s, e) in pairs && Reads(error, s, d, e, src, dst)
  }

  ghost predicate Reads(error: Failure, s: int, d: int, e: int, src: seq<Vertex>, dst: seq<Vertex>)
    requires error.TooManyValues?
  {
    Numbers(src, s, error.subject) && Numbers(dst, d, error.first) && Numbers(dst, e, error.second)
  }

  ghost predicate Numbers(vertices: seq<Vertex>, id: int, subject: Cell) {
    exists v :: v in vertices && v.id == id && v.row.subject == subject
  }

  function Ids(vertices: seq<Vertex>): set<int> {
    set v | v in vertices :: v.id
  }

  ghost predicate NoDangling(pairs: seq<Pair>, src: seq<Vertex>, dst: seq<Vertex>) {
    forall p | p in pairs :: p.0 in Ids(src) && p.1 in Ids(dst)
  }

  method SingleValuedEdge(session: Session, edge: EdgeType, batches: seq<seq<Pair>>) returns (r: Result<(), Failure>)
    requires Selected(session.tables, edge.source).Ok? && Selected(session.tables, edge.destination).Ok?
    requires StrictPairs(Flatten(batches))
    requires NoDangling(Flatten(batches), Selected(session.tables, edge.source).value,
                        Selected(session.tables, edge.destination).value)
    ensures r.Ok? <==> !TwoDestinations(Flatten(batches))
    ensures r.Err? ==> ReportsEdge(r.error, edge, Flatten(batches), Selected(session.tables, edge.source).value,
                                   Selected(session.tables, edge.destination).value)
  {
    var found, src, first, second := FindSecond(batches);
    if !found {
      return Ok(());
    }
    var s := SubjectOf(session, edge.source, src);
    var d := SubjectOf(session, edge.destination, first);
    var e := SubjectOf(session, edge.destination, second);
    r := Err(TooManyValues(edge.source + "_" + edge.name + "_" + edge.destination, s, d, e));
  }

  /** The merged table of every contribution. */
  ghost predicate IsEdgeTable(table: EdgeTable, edge: EdgeType, group: seq<PreparedEdge>) {
    && table.edge == edge && StrictPairs(Flatten(table.batches))
    && (forall p :: p in Flatten(table.batches) <==> p in AllPairs(group))
    && table.dropped == AllDropped(group)
  }

  lemma {:induction false} SamePairs(
    a: seq<Pair>, b: seq<Pair>, error: Failure, edge: EdgeType, src: seq<Vertex>, dst: seq<Vertex>)
    requires forall p :: p in a <==> p in b
    ensures TwoDestinations(a) <==> TwoDestinations(b)
    ensures ReportsEdge(error, edge, a, src, dst) ==> ReportsEdge(error, edge, b, src, dst)
    ensures NoDangling(a, src, dst) ==> NoDangling(b, src, dst)
  {}

  method FinalizeEdge(
    session: Session, edge: EdgeType, group: seq<PreparedEdge>)
    returns (r: Result<EdgeTable, Failure>)
    requires Selected(session.tables, edge.source).Ok? && Selected(session.tables, edge.destination).Ok?
    requires NoDangling(AllPairs(group), Selected(session.tables, edge.source).value,
                        Selected(session.tables, edge.destination).value)
    ensures r.Ok? <==> edge.cardinality.Single? ==> !TwoDestinations(AllPairs(group))
    ensures r.Ok? ==> IsEdgeTable(r.value, edge, group)
    ensures r.Err? ==> ReportsEdge(r.error, edge, AllPairs(group), Selected(session.tables, edge.source).value,
                                   Selected(session.tables, edge.destination).value)
  {
    var dropped, merged := 0, [];
    for k := 0 to |group|
      invariant dropped == AllDropped(group[..k]) && merged == AllPairs(group[..k])
    {
      AllAppend(group[..k], group[k]);
      assert group[..k] + [group[k]] == group[..k + 1];
      dropped, merged := dropped + group[k].dropped, merged + group[k].resolved;
    }
    assert group[..|group|] == group;
    var sorted := DistinctSorted(merged);
    var batches := Collect(sorted);
    ghost var src, dst := Selected(session.tables, edge.source).value, Selected(session.tables, edge.destination).value;
    SamePairs(merged, Flatten(batches), EngineRefused, edge, src, dst);
    if edge.cardinality.Single? {
      var checked := SingleValuedEdge(session, edge, batches);
      if checked.Err? {
        SamePairs(Flatten(batches), merged, checked.error, edge, src, dst);
        return Err(checked.error);
      }
    }
    r := Ok(EdgeTable(edge, batches, dropped));
  }
}
