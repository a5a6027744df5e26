/** What the vertices of a type hold, said of the rows its mappings project and of nothing made from them. */
module Origins {
  import opened Results
  import opened Tables
  import opened Vertices
  import opened VertexLaws

  // ------------------------------------------------------------------ what the mappings' own rows say

  /** Some mapping writes `n`, of this cardinality. */
  ghost predicate Wrote(group: seq<Prepared>, n: string, c: Cardinality) {
    exists g :: g in group && Property(n, c) in g.node.properties
  }

  /** Some mapping has a row of `s`. */
  ghost predicate HasRow(group: seq<Prepared>, s: Cell) {
    exists g, r :: g in group && r in g.frame.rows && r.subject == s
  }

  /** Some mapping's row of `s` has the value `x` in the column `n`. */
  ghost predicate RowSays(group: seq<Prepared>, s: Cell, n: string, x: int) {
    exists g, r ::
      g in group && r in g.frame.rows && r.subject == s && n in r.entries && r.entries[n] == Scalar(Val(x))
  }

  /** The entry is the value `x`, or a list of several with `x` among them. */
  predicate Holds(e: Entry, x: int) {
    e == Scalar(Val(x)) || (e.Many? && Val(x) in e.cells)
  }

  ghost predicate RowHolds(group: seq<Prepared>, s: Cell, n: string, x: int) {
    exists g, r :: g in group && r in g.frame.rows && r.subject == s && n in r.entries && Holds(r.entries[n], x)
  }

  /** The rows of `s` say two values of one single-valued property. */
  ghost predicate SaysTwo(group: seq<Prepared>, s: Cell, n: string, x: int, y: int) {
    Wrote(group, n, Single) && x != y && RowSays(group, s, n, x) && RowSays(group, s, n, y)
  }

  // ------------------------------------------------------------------ the aligned union says the same

  lemma {:induction false} NamesAreWritten(
    group: seq<Prepared>, shape: map<string, Cardinality>, node: Node, n: string, c: Cardinality)
    requires IsMergedNode(group, node) && IsTypeGroup(group, shape)
    ensures n in NamesOf(node.properties, c) <==> Wrote(group, n, c)
  {
    MergedNames(group, node, n);
    if n in NamesOf(node.properties, c) {
      var p :| p in node.properties && p.name == n && p.cardinality == c;
      assert FirstSays(group, p);
    }
    if Wrote(group, n, c) {
      var g :| g in group && Property(n, c) in g.node.properties;
      assert Writes(g, shape);
      var p :| p in node.properties && p.name == n;
      MergedCardinality(group, shape, node, p);
    }
  }

  lemma {:induction false} AlignedSays(a: Row, r: Row, types: map<string, ColumnType>, n: string, x: int)
    requires IsAligned(a, r, types) && HasScalar(a, n)
    ensures ScalarOf(a, n) == Val(x) <==> n in r.entries && r.entries[n] == Scalar(Val(x))
  {
  }

  lemma {:induction false} AlignedHolds(a: Row, r: Row, types: map<string, ColumnType>, n: string, x: int)
    requires IsAligned(a, r, types) && n in types
    ensures n in a.entries && (Val(x) in Elements(a.entries[n]) <==> n in r.entries && Holds(r.entries[n], x))
  {
  }

  /** What the union offers of a single-valued property is what the mappings' rows say. */
  lemma {:induction false} UnionOffersWhatRowsSay(
    group: seq<Prepared>, shape: map<string, Cardinality>, node: Node, s: Cell, n: string, x: int)
    requires IsMergedNode(group, node) && IsTypeGroup(group, shape) && AllAgree(group, node)
    requires n in NamesOf(node.properties, Single)
    ensures forall r | r in RowsOf(group, node) :: HasScalar(r, n)
    ensures Val(x) in Offers(RowsOf(group, node), s, n) <==> RowSays(group, s, n, x)
  {
    UnionIsScalar(group, shape, node);
    var rows := RowsOf(group, node);
    if a :| a in rows && a.subject == s && ScalarOf(a, n) == Val(x) {
      AlignedRowSays(group, TypesOf(group, node), a, n, x);
    }
    if RowSays(group, s, n, x) {
      var a := RowSaysAligned(group, TypesOf(group, node), s, n, x);
      AlignedSaysOf(a, rows, s, n, x);
    }
  }

  lemma {:induction false} AlignedSaysOf(a: Row, rows: seq<Row>, s: Cell, n: string, x: int)
    requires forall r | r in rows :: HasScalar(r, n)
    requires a in rows && a.subject == s && ScalarOf(a, n) == Val(x)
    ensures Val(x) in Offers(rows, s, n)
  {
  }

  lemma {:induction false} AlignedRowSays(
    group: seq<Prepared>, types: map<string, ColumnType>, a: Row, n: string, x: int)
    requires a in UnionRows(group, types) && HasScalar(a, n) && ScalarOf(a, n) == Val(x)
    ensures RowSays(group, a.subject, n, x)
  {
    hide UnionRows, IsAligned, Align;
    UnionMember(group, types, a);
    var g, r :| g in group && r in g.frame.rows && IsAligned(a, r, types);
    AlignedSays(a, r, types, n, x);
    assert a.subject == r.subject by {
      AlignIsAligned(a, r, types);
    }
  }

  lemma {:induction false} RowSaysAligned(
    group: seq<Prepared>, types: map<string, ColumnType>, s: Cell, n: string, x: int) returns (a: Row)
    requires n in types && RowSays(group, s, n, x)
    ensures a in UnionRows(group, types) && a.subject == s && HasScalar(a, n) && ScalarOf(a, n) == Val(x)
  {
    hide UnionRows;
    var g, r :| g in group && r in g.frame.rows && r.subject == s && n in r.entries && r.entries[n] == Scalar(Val(x));
    a := Align(r, types);
    AlignIsAligned(a, r, types);
    UnionMember(group, types, a);
  }

  /** And of a property with a table of its own. */
  lemma {:induction false} UnionOffersWhatRowsHold(
    group: seq<Prepared>, types: map<string, ColumnType>, s: Cell, n: string, x: int)
    requires n in types
    ensures Offered(UnionRows(group, types), s, n, x) <==> RowHolds(group, s, n, x)
  {
    hide UnionRows, IsAligned, Align, Holds, Elements;
    if Offered(UnionRows(group, types), s, n, x) {
      var a :| a in UnionRows(group, types) && a.subject == s && n in a.entries && Val(x) in Elements(a.entries[n]);
      UnionMember(group, types, a);
      var g, r :| g in group && r in g.frame.rows && IsAligned(a, r, types);
      AlignedHolds(a, r, types, n, x);
      AlignIsAligned(a, r, types);
    }
    if RowHolds(group, s, n, x) {
      var g, r :| g in group && r in g.frame.rows && r.subject == s && n in r.entries && Holds(r.entries[n], x);
      var a := Align(r, types);
      AlignIsAligned(a, r, types);
      AlignedHolds(a, r, types, n, x);
      UnionMember(group, types, a);
    }
  }

  lemma {:induction false} UnionHasTheirSubjects(group: seq<Prepared>, node: Node, s: Cell)
    requires IsMergedNode(group, node) && forall g | g in group :: WellFormed(g)
    ensures s in SubjectsOf(RowsOf(group, node)) <==> HasRow(group, s)
  {
    var types := TypesOf(group, node);
    if s in SubjectsOf(RowsOf(group, node)) {
      var a :| a in RowsOf(group, node) && a.subject == s;
      UnionMember(group, types, a);
    }
    if HasRow(group, s) {
      var g, r :| g in group && r in g.frame.rows && r.subject == s;
      AlignIsAligned(Align(r, types), r, types);
      UnionMember(group, types, Align(r, types));
    }
  }

  // ------------------------------------------------------------------ a deduplicated type

  ghost predicate HasSubject(vertices: seq<Vertex>, s: Cell) {
    exists v :: v in vertices && v.row.subject == s
  }

  /** A vertex for each subject some row has, and on it exactly what the rows of its subject say. */
  ghost predicate MergesItsRows(vertices: seq<Vertex>, group: seq<Prepared>) {
    && (forall s :: HasSubject(vertices, s) <==> HasRow(group, s))
    && (forall v, n | v in vertices :: n in v.row.cells <==> Wrote(group, n, Single))
    && (forall v, n, x | v in vertices && n in v.row.cells ::
          v.row.cells[n] == Val(x) <==> RowSays(group, v.row.subject, n, x))
  }

  lemma {:induction false} OnlyOfferIsTheOffer(rows: seq<Row>, s: Cell, n: string, c: Cell, x: int)
    requires forall r | r in rows :: HasScalar(r, n)
    requires OnlyOffer(rows, s, n, c)
    ensures c == Val(x) <==> Val(x) in Offers(rows, s, n)
  {
  }

  lemma {:induction false} VertexHasWhatIsWritten(
    t: VertexTable, group: seq<Prepared>, shape: map<string, Cardinality>, node: Node, first: nat, v: Vertex, n: string)
    requires Built(t, group, shape, node, first) && group[0].dedup && v in Flatten(t.batches)
    ensures n in v.row.cells <==> n in NamesOf(node.properties, Single)
    ensures n in v.row.cells <==> Wrote(group, n, Single)
  {
    hide Wrote, OnlyOffer;
    UnionIsScalar(group, shape, node);
    NamesAreWritten(group, shape, node, n, Single);
    var vertices := Flatten(t.batches);
    var i :| 0 <= i < |vertices| && vertices[i] == v;
    assert Bares(vertices)[i] == v.row && v.row in Bares(vertices);
    assert CellsAreOffers(v.row, RowsOf(group, node), NamesOf(node.properties, Single));
  }

  lemma {:induction false} VertexSaysWhatItsRowsSay(
    t: VertexTable, group: seq<Prepared>, shape: map<string, Cardinality>, node: Node, first: nat, v: Vertex, n: string,
    x: int)
    requires Built(t, group, shape, node, first) && group[0].dedup
    requires v in Flatten(t.batches) && n in v.row.cells
    ensures v.row.cells[n] == Val(x) <==> RowSays(group, v.row.subject, n, x)
  {
    VertexHasWhatIsWritten(t, group, shape, node, first, v, n);
    VertexOffers(t, group, shape, node, first, v, n);
    UnionOffersWhatRowsSay(group, shape, node, v.row.subject, n, x);
    hide *;
    OnlyOfferIsTheOffer(RowsOf(group, node), v.row.subject, n, v.row.cells[n], x);
  }

  lemma {:induction false} MergedTableSaysItsRows(
    t: VertexTable, group: seq<Prepared>, shape: map<string, Cardinality>, node: Node, first: nat)
    requires Built(t, group, shape, node, first) && group[0].dedup
    ensures MergesItsRows(Flatten(t.batches), group)
  {
    hide Built, Wrote, HasRow, RowSays;
    var vertices := Flatten(t.batches);
    forall s
      ensures HasSubject(vertices, s) <==> HasRow(group, s)
    {
      SubjectsAreTheirRows(t, group, shape, node, first, s);
    }
    forall v, n | v in vertices
      ensures n in v.row.cells <==> Wrote(group, n, Single)
    {
      VertexHasWhatIsWritten(t, group, shape, node, first, v, n);
    }
    forall v, n, x | v in vertices && n in v.row.cells
      ensures v.row.cells[n] == Val(x) <==> RowSays(group, v.row.subject, n, x)
    {
      VertexSaysWhatItsRowsSay(t, group, shape, node, first, v, n, x);
    }
  }

  lemma {:induction false} SubjectsAreTheirRows(
    t: VertexTable, group: seq<Prepared>, shape: map<string, Cardinality>, node: Node, first: nat, s: Cell)
    requires Built(t, group, shape, node, first) && group[0].dedup
    ensures HasSubject(Flatten(t.batches), s) <==> HasRow(group, s)
  {
    UnionIsScalar(group, shape, node);
    UnionHasTheirSubjects(group, node, s);
    var vertices := Flatten(t.batches);
    var bares := Bares(vertices);
    assert BareSubjects(bares) == SubjectsOf(RowsOf(group, node));
    if s in BareSubjects(bares) {
      var b :| b in bares && b.subject == s;
      var i :| 0 <= i < |bares| && bares[i] == b;
      assert vertices[i] in vertices && vertices[i].row == b;
    }
    if HasSubject(vertices, s) {
      var v :| v in vertices && v.row.subject == s;
      var i :| 0 <= i < |vertices| && vertices[i] == v;
      assert bares[i] == v.row && v.row in bares;
    }
  }

  // ------------------------------------------------------------------ a type that is not deduplicated

  /** `b` is `r` cut down to the columns of `b`; a column `r` does not have is null there. */
  ghost predicate Shows(b: Bare, r: Row) {
    && b.subject == r.subject
    && forall n, x | n in b.cells :: b.cells[n] == Val(x) <==> n in r.entries && r.entries[n] == Scalar(Val(x))
  }

  /** How many of the rows `b` shows. */
  ghost function CountShown(rows: seq<Row>, b: Bare): nat {
    if rows == [] then 0 else (if Shows(b, rows[0]) then 1 else 0) + CountShown(rows[1..], b)
  }

  /** Each row of each mapping is one vertex, in subject order. */
  ghost predicate CopiesItsRows(vertices: seq<Vertex>, group: seq<Prepared>) {
    && (forall i, j | 0 <= i < j < |vertices| :: Le(vertices[i].row.subject, vertices[j].row.subject))
    && (forall v, n | v in vertices :: n in v.row.cells <==> Wrote(group, n, Single))
    && (forall b: Bare | (forall n :: n in b.cells <==> Wrote(group, n, Single)) ::
          multiset(Bares(vertices))[b] == CountShown(OwnRows(group), b))
  }

  ghost predicate Columns(names: seq<string>, types: map<string, ColumnType>) {
    forall n | n in names :: n in types && types[n].ScalarColumn?
  }

  lemma {:induction false} ProjectedShows(r: Row, types: map<string, ColumnType>, names: seq<string>, b: Bare)
    requires Columns(names, types) && forall n | n in names && n in r.entries :: r.entries[n].Scalar?
    requires forall n :: n in b.cells <==> n in names
    ensures forall n | n in names :: HasScalar(Align(r, types), n)
    ensures Project(Align(r, types), names) == b <==> Shows(b, r)
  {
    var a := Align(r, types);
    AlignIsAligned(a, r, types);
    forall n | n in names
      ensures HasScalar(a, n) && (n in r.entries ==> a.entries[n] == r.entries[n])
      ensures n !in r.entries ==> a.entries[n] == Scalar(Null)
    {}
    var p := Project(a, names);
    forall n | n in names
      ensures p.cells[n] == b.cells[n]
              <==> forall x :: b.cells[n] == Val(x) <==> n in r.entries && r.entries[n] == Scalar(Val(x))
    {
      SameCell(p.cells[n], b.cells[n]);
    }
    assert p == b <==> p.subject == b.subject && p.cells == b.cells;
  }

  lemma {:induction false} SameCell(c: Cell, d: Cell)
    ensures c == d <==> forall x :: d == Val(x) <==> c == Val(x)
  {
    assert c.Val? ==> c == Val(c.v);
    assert d.Val? ==> d == Val(d.v);
  }

  ghost predicate ScalarWhereSingle(rows: seq<Row>, names: seq<string>) {
    forall r, n | r in rows && n in names && n in r.entries :: r.entries[n].Scalar?
  }

  lemma {:induction false} ProjectionCounts(
    own: seq<Row>, types: map<string, ColumnType>, names: seq<string>, b: Bare)
    requires Columns(names, types) && ScalarWhereSingle(own, names)
    requires forall n :: n in b.cells <==> n in names
    ensures ScalarColumns(AlignAll(own, types), names)
    ensures multiset(ProjectAll(AlignAll(own, types), names))[b] == CountShown(own, b)
  {
    if own == [] {
    } else {
      var rest := own[1..];
      assert own[0] in own && forall r | r in rest :: r in own;
      ProjectionCounts(rest, types, names, b);
      ProjectedShows(own[0], types, names, b);
      assert AlignAll(own, types) == [Align(own[0], types)] + AlignAll(rest, types);
      hide Align, AlignAll, HasScalar, Columns, ScalarWhereSingle, Shows;
      ProjectionStep(Align(own[0], types), AlignAll(rest, types), names);
    }
  }

  lemma {:induction false} ProjectionStep(a: Row, rows: seq<Row>, names: seq<string>)
    requires ScalarColumns(rows, names) && forall n | n in names :: HasScalar(a, n)
    ensures ScalarColumns([a] + rows, names)
    ensures ProjectAll([a] + rows, names) == [Project(a, names)] + ProjectAll(rows, names)
  {
    hide HasScalar, Project;
    assert forall r | r in [a] + rows :: r == a || r in rows;
    assert ([a] + rows)[1..] == rows;
  }

  lemma {:induction false} OwnRowsAreTheirs(group: seq<Prepared>, r: Row)
    ensures r in OwnRows(group) <==> exists g :: g in group && r in g.frame.rows
  {
    if group == [] {
    } else {
      OwnRowsAreTheirs(group[1..], r);
      assert forall g | g in group :: g == group[0] || g in group[1..];
    }
  }

  lemma {:induction false} OwnSinglesAreScalar(
    group: seq<Prepared>, shape: map<string, Cardinality>, node: Node)
    requires IsMergedNode(group, node) && IsTypeGroup(group, shape)
    ensures ScalarWhereSingle(OwnRows(group), NamesOf(node.properties, Single))
  {
    forall r, n | r in OwnRows(group) && n in NamesOf(node.properties, Single) && n in r.entries
      ensures r.entries[n].Scalar?
    {
      OwnRowsAreTheirs(group, r);
      var g :| g in group && r in g.frame.rows;
      assert WellFormed(g) && RowFits(r, g.frame.types) && Writes(g, shape);
      var q :| q in g.node.properties && q.name == n;
      var p :| p in node.properties && p.name == n && p.cardinality == Single;
      MergedCardinality(group, shape, node, p);
    }
  }

  lemma {:induction false} CopiedTableSaysItsRows(
    t: VertexTable, group: seq<Prepared>, shape: map<string, Cardinality>, node: Node, first: nat)
    requires Built(t, group, shape, node, first) && !group[0].dedup
    ensures CopiesItsRows(Flatten(t.batches), group)
  {
    UnionIsScalar(group, shape, node);
    UnionIsAligned(group, TypesOf(group, node));
    OwnSinglesAreScalar(group, shape, node);
    var vertices, names, types := Flatten(t.batches), NamesOf(node.properties, Single), TypesOf(group, node);
    var bares := Bares(vertices);
    forall n
      ensures n in names <==> Wrote(group, n, Single)
      ensures n in names ==> n in types && types[n].ScalarColumn?
    {
      NamesAreWritten(group, shape, node, n, Single);
      if n in names {
        SingleColumnsAreScalar(group, shape, node, n);
      }
    }
    SortedCopyShows(vertices, group, types, names);
  }

  lemma {:induction false} SortedCopyShows(
    vertices: seq<Vertex>, group: seq<Prepared>, types: map<string, ColumnType>, names: seq<string>)
    requires Columns(names, types) && ScalarWhereSingle(OwnRows(group), names)
    requires forall n :: n in names <==> Wrote(group, n, Single)
    requires ScalarColumns(AlignAll(OwnRows(group), types), names)
    requires IsSortedCopy(Bares(vertices), AlignAll(OwnRows(group), types), names)
    ensures CopiesItsRows(vertices, group)
  {
    hide Wrote, CountShown;
    var own, bares := OwnRows(group), Bares(vertices);
    var projected := ProjectAll(AlignAll(own, types), names);
    forall i, j | 0 <= i < j < |vertices|
      ensures Le(vertices[i].row.subject, vertices[j].row.subject)
    {
      assert bares[i] == vertices[i].row && bares[j] == vertices[j].row;
    }
    forall v, n | v in vertices
      ensures n in v.row.cells <==> Wrote(group, n, Single)
    {
      var i :| 0 <= i < |vertices| && vertices[i] == v;
      assert bares[i] in multiset(bares);
      var j :| 0 <= j < |projected| && projected[j] == v.row;
    }
    forall b: Bare | forall n :: n in b.cells <==> Wrote(group, n, Single)
      ensures multiset(bares)[b] == CountShown(own, b)
    {
      ProjectionCounts(own, types, names, b);
    }
  }

  // ------------------------------------------------------------------ the tables of multi-valued properties

  /** A table per multi-valued property: an id and a value exactly when a row of the id's subject has the value. */
  ghost predicate TablesHoldItsRows(t: VertexTable, group: seq<Prepared>) {
    && (forall n :: (exists i :: 0 <= i < |t.properties| && t.properties[i].name == n) <==> Wrote(group, n, Multi))
    && forall i, id, x | 0 <= i < |t.properties| ::
         (id, x) in Flatten(t.properties[i].batches) <==>
         exists v :: v in Flatten(t.batches) && v.id == id && v.row.subject.Val?
                     && RowHolds(group, v.row.subject, t.properties[i].name, x)
  }

  lemma {:induction false} PropertyTablesHoldItsRows(
    t: VertexTable, group: seq<Prepared>, shape: map<string, Cardinality>, node: Node, first: nat)
    requires Built(t, group, shape, node, first)
    ensures TablesHoldItsRows(t, group)
  {
    var multis := NamesOf(node.properties, Multi);
    forall n
      ensures (exists i :: 0 <= i < |t.properties| && t.properties[i].name == n) <==> Wrote(group, n, Multi)
    {
      NamesAreWritten(group, shape, node, n, Multi);
      if n in multis {
        var i :| 0 <= i < |multis| && multis[i] == n;
        assert t.properties[i].name == n;
      }
    }
    forall i, id, x | 0 <= i < |t.properties|
      ensures (id, x) in Flatten(t.properties[i].batches) <==>
              exists v :: v in Flatten(t.batches) && v.id == id && v.row.subject.Val?
                          && RowHolds(group, v.row.subject, t.properties[i].name, x)
    {
      PropertyTableHolds(t, group, shape, node, first, i, (id, x));
    }
  }

  lemma {:induction false} PropertyTableHolds(
    t: VertexTable, group: seq<Prepared>, shape: map<string, Cardinality>, node: Node, first: nat, i: int, p: Pair)
    requires Built(t, group, shape, node, first) && 0 <= i < |t.properties|
    ensures p in Flatten(t.properties[i].batches) <==>
            exists v :: v in Flatten(t.batches) && v.id == p.0 && v.row.subject.Val?
                        && RowHolds(group, v.row.subject, t.properties[i].name, p.1)
  {
    hide RowHolds, Offered;
    var name := t.properties[i].name;
    assert name in NamesOf(node.properties, Multi);
    var q :| q in node.properties && q.name == name;
    assert name in TypesOf(group, node);
    assert p in Flatten(t.properties[i].batches) <==> ValueOf(p, RowsOf(group, node), Flatten(t.batches), name);
    forall s
      ensures Offered(RowsOf(group, node), s, name, p.1) <==> RowHolds(group, s, name, p.1)
    {
      UnionOffersWhatRowsHold(group, TypesOf(group, node), s, name, p.1);
    }
  }

  // ------------------------------------------------------------------ the whole table

  /** A built type says what its mappings' rows say, of every vertex, property and value. */
  ghost predicate SaysItsRows(t: VertexTable, group: seq<Prepared>) {
    && group != []
    && (if group[0].dedup then MergesItsRows(Flatten(t.batches), group) else CopiesItsRows(Flatten(t.batches), group))
    && TablesHoldItsRows(t, group)
  }

  lemma {:induction false} TableSaysItsRows(
    t: VertexTable, group: seq<Prepared>, shape: map<string, Cardinality>, node: Node, first: nat)
    requires Built(t, group, shape, node, first)
    ensures SaysItsRows(t, group)
  {
    PropertyTablesHoldItsRows(t, group, shape, node, first);
    if group[0].dedup {
      MergedTableSaysItsRows(t, group, shape, node, first);
    } else {
      CopiedTableSaysItsRows(t, group, shape, node, first);
    }
  }

  // ------------------------------------------------------------------ refusals

  /** The rows of one type conflict exactly when some subject's own rows say two values. */
  lemma {:induction false} ConflictIsTwoRows(group: seq<Prepared>, shape: map<string, Cardinality>, node: Node)
    requires IsMergedNode(group, node) && IsTypeGroup(group, shape) && AllAgree(group, node)
    ensures ScalarColumns(RowsOf(group, node), NamesOf(node.properties, Single))
    ensures Conflict(RowsOf(group, node), NamesOf(node.properties, Single))
            <==> exists s, n, x, y :: SaysTwo(group, s, n, x, y)
  {
    UnionIsScalar(group, shape, node);
    var rows, names := RowsOf(group, node), NamesOf(node.properties, Single);
    if Conflict(rows, names) {
      var s, i, a, b :| 0 <= i < |names| && TwoValues(rows, s, names[i], a, b);
      TwoValuesAreSaid(group, shape, node, s, names[i], a, b);
    }
    if s, n, x, y :| SaysTwo(group, s, n, x, y) {
      NamesAreWritten(group, shape, node, n, Single);
      var i :| 0 <= i < |names| && names[i] == n;
      UnionOffersWhatRowsSay(group, shape, node, s, n, x);
      UnionOffersWhatRowsSay(group, shape, node, s, n, y);
      assert TwoValues(rows, s, names[i], Val(x), Val(y));
    }
  }

  lemma {:induction false} TwoValuesAreSaid(
    group: seq<Prepared>, shape: map<string, Cardinality>, node: Node, s: Cell, n: string, a: Cell, b: Cell)
    requires IsMergedNode(group, node) && IsTypeGroup(group, shape) && AllAgree(group, node)
    requires n in NamesOf(node.properties, Single)
    requires forall r | r in RowsOf(group, node) :: HasScalar(r, n)
    requires TwoValues(RowsOf(group, node), s, n, a, b)
    ensures a.Val? && b.Val? && SaysTwo(group, s, n, a.v, b.v)
  {
    NamesAreWritten(group, shape, node, n, Single);
    UnionOffersWhatRowsSay(group, shape, node, s, n, a.v);
    UnionOffersWhatRowsSay(group, shape, node, s, n, b.v);
  }

  /** The two values a refusal names are two that rows of the subject it names say. */
  lemma {:induction false} RefusalNamesTwoRows(
    error: Failure, group: seq<Prepared>, shape: map<string, Cardinality>, node: Node, first: nat)
    requires IsMergedNode(group, node) && IsTypeGroup(group, shape)
    requires error.TooManyValues? && RefusesGroup(error, group, shape, node, first)
    ensures group[0].dedup && error.first.Val? && error.second.Val?
    ensures exists n :: error.at == node.typeName + "." + n
                        && SaysTwo(group, error.subject, n, error.first.v, error.second.v)
  {
    UnionIsScalar(group, shape, node);
    var rows, names := RowsOf(group, node), NamesOf(node.properties, Single);
    var n :| n in names && error.at == node.typeName + "." + n
             && TwoValues(rows, error.subject, n, error.first, error.second);
    TwoValuesAreSaid(group, shape, node, error.subject, n, error.first, error.second);
  }

  /** A type that is built has no such two, and one that has them is not built. */
  lemma {:induction false} BuiltSaysNoTwo(
    t: VertexTable, group: seq<Prepared>, shape: map<string, Cardinality>, node: Node, first: nat)
    requires Built(t, group, shape, node, first) && group[0].dedup
    ensures forall s, n, x, y :: !SaysTwo(group, s, n, x, y)
  {
    ConflictIsTwoRows(group, shape, node);
  }

  /** The engine refuses to align a group exactly when two of its mappings spell a column apart. */
  lemma {:induction false} AgreementIsPairwise(group: seq<Prepared>, shape: map<string, Cardinality>, node: Node)
    requires IsMergedNode(group, node) && IsTypeGroup(group, shape)
    ensures AllAgree(group, node) <==>
            forall g, h, n | g in group && h in group && n in g.frame.types && n in h.frame.types ::
              g.frame.types[n] == h.frame.types[n]
  {
    var types := TypesOf(group, node);
    forall g, n | g in group && n in g.frame.types
      ensures n in types && exists h :: h in group && n in h.frame.types && types[n] == h.frame.types[n]
    {
      assert WellFormed(g);
      MergedNames(group, node, n);
      TypeInIsOneOfTheirs(group, n);
    }
    if AllAgree(group, node) {
      forall g, h, n | g in group && h in group && n in g.frame.types && n in h.frame.types
        ensures g.frame.types[n] == h.frame.types[n]
      {
        assert Agrees(g, types) && Agrees(h, types);
      }
    }
  }
}
