/** What a vertex table does not depend on: row order, mapping order, batch cuts, a mapping that is silent. */
module VertexLaws {
  import opened Tables
  import opened Vertices

  /** The two relations offer a subject the same values of a column; a null is no value. */
  ghost predicate OffersAgree(a: seq<Row>, b: seq<Row>, s: Cell, n: string)
    requires forall r | r in a :: HasScalar(r, n)
    requires forall r | r in b :: HasScalar(r, n)
  {
    forall o: Cell | o.Val? :: o in Offers(a, s, n) <==> o in Offers(b, s, n)
  }

  /** They have the same subjects and offer each the same values, column by column. */
  ghost predicate SameOffers(a: seq<Row>, b: seq<Row>, names: seq<string>)
    requires ScalarColumns(a, names) && ScalarColumns(b, names)
  {
    SubjectsOf(a) == SubjectsOf(b) && forall s, n | s in SubjectsOf(a) && n in names :: OffersAgree(a, b, s, n)
  }

  ghost predicate SameRowSet(a: seq<Row>, b: seq<Row>) {
    forall r :: r in a <==> r in b
  }

  lemma {:induction false} SameRowsOfferTheSame(a: seq<Row>, b: seq<Row>, names: seq<string>)
    requires ScalarColumns(a, names) && ScalarColumns(b, names)
    requires SameRowSet(a, b)
    ensures SameOffers(a, b, names)
  {
  }

  lemma {:induction false} OnlyOfferIsUnique(a: seq<Row>, b: seq<Row>, s: Cell, n: string, c: Cell, d: Cell)
    requires forall r | r in a :: HasScalar(r, n)
    requires forall r | r in b :: HasScalar(r, n)
    requires OnlyOffer(a, s, n, c) && OnlyOffer(b, s, n, d)
    ensures c == d <==> OffersAgree(a, b, s, n)
  {
    if OffersAgree(a, b, s, n) {
      assert c.Val? ==> c in Offers(b, s, n);
      assert d.Val? ==> d in Offers(a, s, n);
    }
  }

  lemma {:induction false} StrictSubjectsAreCanonical(t: seq<Bare>, u: seq<Bare>)
    requires StrictlyBySubject(t) && StrictlyBySubject(u)
    requires BareSubjects(t) == BareSubjects(u)
    ensures |t| == |u| && forall i | 0 <= i < |t| :: t[i].subject == u[i].subject
  {
    StrictCount(t);
    StrictCount(u);
    if t == [] {
    } else {
      assert t[0].subject in BareSubjects(u) && u[0].subject in BareSubjects(t);
      assert t[0].subject == u[0].subject;
      BareTail(t);
      BareTail(u);
      StrictSubjectsAreCanonical(t[1..], u[1..]);
      assert forall i | 1 <= i < |t| :: t[i] == t[1..][i - 1] && u[i] == u[1..][i - 1];
    }
  }

  ghost predicate SameColumns(names: seq<string>, names': seq<string>) {
    forall n :: n in names <==> n in names'
  }

  lemma {:induction false} ColumnsStayScalar(rows: seq<Row>, names: seq<string>, names': seq<string>)
    requires ScalarColumns(rows, names') && SameColumns(names, names')
    ensures ScalarColumns(rows, names)
  {
  }

  /** A deduplicated table says of the rows exactly what they offer: two relations merge into one table when and
      only when they offer the same. Neither the order of the rows nor the order of the columns, nor how often a
      row is repeated, nor a null beside a value reaches it. */
  lemma {:induction false} MergeIsCanonical(
    t: seq<Bare>, a: seq<Row>, names: seq<string>, u: seq<Bare>, b: seq<Row>, names': seq<string>)
    requires ScalarColumns(a, names) && ScalarColumns(b, names')
    requires IsMerge(t, a, names) && IsMerge(u, b, names')
    requires SameColumns(names, names')
    ensures ScalarColumns(b, names)
    ensures t == u <==> SameOffers(a, b, names)
  {
    ColumnsStayScalar(b, names, names');
    if SameOffers(a, b, names) {
      hide CellsAreOffers, OffersAgree;
      StrictSubjectsAreCanonical(t, u);
      forall i | 0 <= i < |t| ensures t[i] == u[i] {
        SameCells(t[i], a, names, u[i], b, names');
      }
    } else if t == u {
      hide CellsAreOffers, OffersAgree;
      forall s, n | s in SubjectsOf(a) && n in names ensures OffersAgree(a, b, s, n) {
        var x :| x in t && x.subject == s;
        SameCells(x, a, names, x, b, names');
      }
    }
  }

  lemma {:induction false} SameCells(
    x: Bare, a: seq<Row>, names: seq<string>, y: Bare, b: seq<Row>, names': seq<string>)
    requires ScalarColumns(a, names) && ScalarColumns(b, names') && ScalarColumns(b, names)
    requires CellsAreOffers(x, a, names) && CellsAreOffers(y, b, names')
    requires x.subject == y.subject && SameColumns(names, names')
    ensures x == y <==> forall n | n in names :: OffersAgree(a, b, x.subject, n)
  {
    assert x.cells.Keys == y.cells.Keys;
    forall n | n in names
      ensures n in x.cells && (x.cells[n] == y.cells[n] <==> OffersAgree(a, b, x.subject, n))
    {
      var i :| 0 <= i < |names| && names[i] == n;
      var j :| 0 <= j < |names'| && names'[j] == n;
      OnlyOfferIsUnique(a, b, x.subject, n, x.cells[n], y.cells[n]);
    }
    assert x == y <==> x.cells == y.cells;
  }

  // ------------------------------------------------------------------ mapping order

  ghost predicate SameMappings(a: seq<Prepared>, b: seq<Prepared>) {
    forall p :: p in a <==> p in b
  }

  lemma {:induction false} SameNames(a: seq<Prepared>, m: Node, b: seq<Prepared>, n: Node, name: string)
    requires IsMergedNode(a, m) && IsMergedNode(b, n) && SameMappings(a, b)
    ensures Names(m.properties, name) <==> Names(n.properties, name)
  {
    MergedNames(a, m, name);
    MergedNames(b, n, name);
  }

  lemma {:induction false} SameNamesOf(
    a: seq<Prepared>, m: Node, b: seq<Prepared>, n: Node, shape: map<string, Cardinality>, name: string,
    c: Cardinality)
    requires IsMergedNode(a, m) && IsMergedNode(b, n) && SameMappings(a, b)
    requires IsTypeGroup(a, shape) && IsTypeGroup(b, shape)
    ensures name in NamesOf(m.properties, c) ==> name in NamesOf(n.properties, c)
  {
    if name in NamesOf(m.properties, c) {
      var p :| p in m.properties && p.name == name && p.cardinality == c;
      MergedCardinality(a, shape, m, p);
      SameNames(a, m, b, n, name);
      var q :| q in n.properties && q.name == name;
      MergedCardinality(b, shape, n, q);
    }
  }

  lemma {:induction false} SameTypes(
    a: seq<Prepared>, m: Node, b: seq<Prepared>, n: Node, shape: map<string, Cardinality>)
    requires IsMergedNode(a, m) && IsMergedNode(b, n) && SameMappings(a, b)
    requires IsTypeGroup(a, shape) && IsTypeGroup(b, shape)
    requires AllAgree(a, m)
    ensures TypesOf(a, m) == TypesOf(b, n)
  {
    var s, t := TypesOf(a, m), TypesOf(b, n);
    forall name ensures name in s <==> name in t {
      SameNames(a, m, b, n, name);
    }
    forall name | name in s ensures s[name] == t[name] {
      MergedNames(b, n, name);
      TypeInIsOneOfTheirs(b, name);
      var g :| g in b && name in g.frame.types && TypeIn(b, name) == g.frame.types[name];
      assert g in a && Agrees(g, s);
    }
  }

  lemma {:induction false} SameRows(
    a: seq<Prepared>, m: Node, b: seq<Prepared>, n: Node, shape: map<string, Cardinality>)
    requires IsMergedNode(a, m) && IsMergedNode(b, n) && SameMappings(a, b)
    requires IsTypeGroup(a, shape) && IsTypeGroup(b, shape)
    requires AllAgree(a, m)
    ensures AllAgree(b, n)
    ensures SameRowSet(RowsOf(a, m), RowsOf(b, n))
  {
    SameTypes(a, m, b, n, shape);
    forall g | g in b ensures Agrees(g, TypesOf(b, n)) {
      assert g in a;
    }
    forall r ensures r in RowsOf(a, m) <==> r in RowsOf(b, n) {
      UnionMember(a, TypesOf(a, m), r);
      UnionMember(b, TypesOf(b, n), r);
    }
  }

  /** `t` is what `finalize_vertex` makes of `group`, whose merged node is `node`. */
  ghost predicate Built(t: VertexTable, group: seq<Prepared>, shape: map<string, Cardinality>, node: Node, first: nat) {
    && IsTypeGroup(group, shape) && IsMergedNode(group, node) && AllAgree(group, node)
    && IsVertexTable(t, group, shape, node, first)
  }

  /** The order the mappings of a type are written in does not reach its vertices. */
  lemma {:induction false} MappingOrderIsIrrelevant(
    t: VertexTable, a: seq<Prepared>, m: Node, u: VertexTable, b: seq<Prepared>, n: Node,
    shape: map<string, Cardinality>, first: nat)
    requires Built(t, a, shape, m, first) && Built(u, b, shape, n, first)
    requires SameMappings(a, b) && a[0].dedup && b[0].dedup
    ensures Flatten(t.batches) == Flatten(u.batches)
  {
    SameRows(a, m, b, n, shape);
    UnionIsScalar(a, shape, m);
    UnionIsScalar(b, shape, n);
    forall name ensures name in NamesOf(m.properties, Single) <==> name in NamesOf(n.properties, Single) {
      SameNamesOf(a, m, b, n, shape, name, Single);
      SameNamesOf(b, n, a, m, shape, name, Single);
    }
    var v, w := Flatten(t.batches), Flatten(u.batches);
    var names, names' := NamesOf(m.properties, Single), NamesOf(n.properties, Single);
    MergeIsCanonical(Bares(v), RowsOf(a, m), names, Bares(w), RowsOf(b, n), names');
    SameRowsOfferTheSame(RowsOf(a, m), RowsOf(b, n), names);
    SameVertices(v, w, first);
  }

  /** Nor does it reach the table of a multi-valued property. */
  lemma {:induction false} MappingOrderKeepsProperties(
    t: VertexTable, a: seq<Prepared>, m: Node, u: VertexTable, b: seq<Prepared>, n: Node,
    shape: map<string, Cardinality>, first: nat, i: int)
    requires Built(t, a, shape, m, first) && Built(u, b, shape, n, first)
    requires SameMappings(a, b) && a[0].dedup && b[0].dedup
    requires 0 <= i < |t.properties|
    ensures exists j ::
      && 0 <= j < |u.properties| && u.properties[j].name == t.properties[i].name
      && Flatten(u.properties[j].batches) == Flatten(t.properties[i].batches)
  {
    MappingOrderIsIrrelevant(t, a, m, u, b, n, shape, first);
    SameRows(a, m, b, n, shape);
    var name := t.properties[i].name;
    assert NamesOf(m.properties, Multi)[i] == name;
    SameNamesOf(a, m, b, n, shape, name, Multi);
    var j :| 0 <= j < |NamesOf(n.properties, Multi)| && NamesOf(n.properties, Multi)[j] == name;
    assert u.properties[j].name == name;
    PropertyTableIsCanonical(
      Flatten(t.properties[i].batches), RowsOf(a, m), Flatten(u.properties[j].batches), RowsOf(b, n),
      Flatten(t.batches), name);
  }

  lemma {:induction false} SameVertices(v: seq<Vertex>, w: seq<Vertex>, first: nat)
    requires IsNumbering(v, first) && IsNumbering(w, first) && Bares(v) == Bares(w)
    ensures v == w
  {
    assert |v| == |w|;
    forall i | 0 <= i < |v| ensures v[i] == w[i] {
      assert Bares(v)[i] == v[i].row && Bares(w)[i] == w[i].row;
    }
  }

  /** A property table is a function of what the rows offer each subject. */
  lemma {:induction false} PropertyTableIsCanonical(
    t: seq<Pair>, a: seq<Row>, u: seq<Pair>, b: seq<Row>, vertices: seq<Vertex>, name: string)
    requires IsPropertyTable(t, a, vertices, name) && IsPropertyTable(u, b, vertices, name)
    requires forall s: Cell, v: int :: s.Val? ==> (Offered(a, s, name, v) <==> Offered(b, s, name, v))
    ensures t == u
  {
    forall p ensures p in t <==> p in u {
      assert p in t <==> ValueOf(p, a, vertices, name);
      assert p in u <==> ValueOf(p, b, vertices, name);
    }
    StrictPairsAreCanonical(t, u);
  }

  // ------------------------------------------------------------------ a mapping that omits a property

  lemma {:induction false} OffersOfSilence(rows: seq<Row>, more: seq<Row>, s: Cell, n: string, c: Cell)
    requires forall r | r in rows :: HasScalar(r, n)
    requires forall r | r in more :: HasScalar(r, n) && ScalarOf(r, n) == Null
    requires forall r | r in rows + more :: HasScalar(r, n)
    ensures OnlyOffer(rows + more, s, n, c) <==> OnlyOffer(rows, s, n, c)
  {
    forall o: Cell | o.Val? ensures o in Offers(rows + more, s, n) <==> o in Offers(rows, s, n) {
      assert forall r :: r in rows + more <==> r in rows || r in more;
    }
  }

  /** What the added mapping offers for a property it does not write is nothing but nulls. */
  lemma {:induction false} SilentRows(
    group: seq<Prepared>, p: Prepared, n: Node, shape: map<string, Cardinality>, name: string, r: Row)
    requires IsTypeGroup(group + [p], shape) && IsMergedNode(group + [p], n) && AllAgree(group + [p], n)
    requires name in NamesOf(n.properties, Single) && !Names(p.node.properties, name)
    requires r in AlignAll(p.frame.rows, TypesOf(group + [p], n))
    ensures HasScalar(r, name) && ScalarOf(r, name) == Null
  {
    var types := TypesOf(group + [p], n);
    var i :| 0 <= i < |p.frame.rows| && r == Align(p.frame.rows[i], types);
    assert p in group + [p] && WellFormed(p) && RowFits(p.frame.rows[i], p.frame.types);
    SingleColumnsAreScalar(group + [p], shape, n, name);
  }

  lemma {:induction false} VertexOffers(
    t: VertexTable, group: seq<Prepared>, shape: map<string, Cardinality>, node: Node, first: nat, v: Vertex,
    name: string)
    requires Built(t, group, shape, node, first) && group[0].dedup
    requires v in Flatten(t.batches) && name in NamesOf(node.properties, Single)
    ensures forall r | r in RowsOf(group, node) :: HasScalar(r, name)
    ensures name in v.row.cells && OnlyOffer(RowsOf(group, node), v.row.subject, name, v.row.cells[name])
  {
    UnionIsScalar(group, shape, node);
    var vertices := Flatten(t.batches);
    var i :| 0 <= i < |vertices| && vertices[i] == v;
    assert Bares(vertices)[i] == v.row && v.row in Bares(vertices);
    var names := NamesOf(node.properties, Single);
    assert CellsAreOffers(v.row, RowsOf(group, node), names);
    var k :| 0 <= k < |names| && names[k] == name;
  }

  /** A mapping that does not write `name` leaves every other mapping's value of it as it was. */
  lemma {:induction false} SilentMappingErasesNothing(
    t: VertexTable, group: seq<Prepared>, m: Node, u: VertexTable, p: Prepared, n: Node,
    shape: map<string, Cardinality>, first: nat, first': nat, name: string, v: Vertex, w: Vertex)
    requires Built(t, group, shape, m, first) && Built(u, group + [p], shape, n, first')
    requires group[0].dedup
    requires name in NamesOf(m.properties, Single) && !Names(p.node.properties, name)
    requires v in Flatten(t.batches) && w in Flatten(u.batches) && v.row.subject == w.row.subject
    ensures name in v.row.cells && name in w.row.cells
    ensures w.row.cells[name] == v.row.cells[name]
  {
    var s, types := v.row.subject, TypesOf(group + [p], n);
    KeepsSingle(group, m, p, n, shape, name);
    VertexOffers(t, group, shape, m, first, v, name);
    VertexOffers(u, group + [p], shape, n, first', w, name);
    UnionAppend(group, p, types);
    var before, more := UnionRows(group, types), AlignAll(p.frame.rows, types);
    forall r | r in more ensures HasScalar(r, name) && ScalarOf(r, name) == Null {
      SilentRows(group, p, n, shape, name, r);
    }
    forall r | r in before ensures HasScalar(r, name) {
      assert r in before + more;
    }
    OffersOfSilence(before, more, s, name, w.row.cells[name]);
    SingleColumnsAreScalar(group, shape, m, name);
    SingleColumnsAreScalar(group + [p], shape, n, name);
    forall o ensures o in Offers(RowsOf(group, m), s, name) <==> o in Offers(before, s, name) {
      OffersMoveOver(group, TypesOf(group, m), types, name, s, o);
      OffersMoveOver(group, types, TypesOf(group, m), name, s, o);
    }
  }

  lemma {:induction false} KeepsSingle(
    group: seq<Prepared>, m: Node, p: Prepared, n: Node, shape: map<string, Cardinality>, name: string)
    requires IsTypeGroup(group, shape) && IsTypeGroup(group + [p], shape)
    requires IsMergedNode(group, m) && IsMergedNode(group + [p], n)
    requires name in NamesOf(m.properties, Single)
    ensures name in NamesOf(n.properties, Single)
  {
    var q :| q in m.properties && q.name == name && q.cardinality == Single;
    MergedCardinality(group, shape, m, q);
    MergedNames(group, m, name);
    assert forall g | g in group :: g in group + [p];
    MergedNames(group + [p], n, name);
    var q' :| q' in n.properties && q'.name == name;
    MergedCardinality(group + [p], shape, n, q');
  }

  /** Aligning the same rows under a wider header leaves a column they share as it was. */
  lemma {:induction false} OffersMoveOver(
    group: seq<Prepared>, types: map<string, ColumnType>, wider: map<string, ColumnType>, name: string, s: Cell,
    o: Cell)
    requires name in types && name in wider && types[name] == wider[name]
    requires forall r | r in UnionRows(group, types) :: HasScalar(r, name)
    requires forall r | r in UnionRows(group, wider) :: HasScalar(r, name)
    ensures o in Offers(UnionRows(group, types), s, name) ==> o in Offers(UnionRows(group, wider), s, name)
  {
    if o in Offers(UnionRows(group, types), s, name) {
      var a :| a in UnionRows(group, types) && a.subject == s && ScalarOf(a, name) == o;
      UnionMember(group, types, a);
      var g, r :| g in group && r in g.frame.rows && a == Align(r, types);
      var b := Align(r, wider);
      UnionMember(group, wider, b);
      assert ScalarOf(b, name) == o;
    }
  }
}
