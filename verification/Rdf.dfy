/** The RDF pivot: triples to one wide row per subject of a shape, and why spelling many values as a
    list or as repeated rows makes the same graph. Terms are ranks, as values are. */
module Rdf {
  import opened Tables
  import opened Vertices
  import opened Edges

  /** A triple as the pivot reads it: the subject's and the object's lexical values, and whether the
      object is a literal with a base direction, which a column cannot hold. */
  datatype Triple = Triple(subject: int, property: int, term: int, directional: bool)

  datatype RdfColumn = RdfColumn(property: int, multi: bool)

  /** One row: the subject, and an entry per column, in column order. */
  datatype PivotRow = PivotRow(subject: int, entries: seq<Entry>)

  datatype Pivot = Rows(rows: seq<PivotRow>) | DirectionUnsupported(subject: int, property: int)

  /** Every object of a predicate of a subject, in triple order. */
  function Objects(triples: seq<Triple>, subject: int, property: int): seq<int> {
    if triples == [] then []
    else
      var before := Objects(triples[..|triples| - 1], subject, property);
      var last := triples[|triples| - 1];
      if last.subject == subject && last.property == property then before + [last.term] else before
  }

  ghost predicate Typed(triples: seq<Triple>, rdfType: int, typeIri: int, subject: int) {
    exists t :: t in triples && t.subject == subject && t.property == rdfType && t.term == typeIri
  }

  ghost predicate Ascending(s: seq<int>) {
    forall i, j | 0 <= i < j < |s| :: s[i] <= s[j]
  }

  function Cells(s: seq<int>): (cells: seq<Cell>)
    ensures |cells| == |s| && forall i | 0 <= i < |s| :: cells[i] == Val(s[i])
  {
    seq(|s|, i requires 0 <= i < |s| => Val(s[i]))
  }

  /** A multi-valued column lists every object, in order; a single-valued one holds the least, or null. */
  ghost predicate IsEntry(e: Entry, column: RdfColumn, objects: seq<int>) {
    if column.multi then
      exists sorted :: Ascending(sorted) && multiset(sorted) == multiset(objects) && e == Many(Cells(sorted))
    else e == Scalar(Least(Cells(objects)))
  }

  ghost predicate IsPivotRow(r: PivotRow, triples: seq<Triple>, columns: seq<RdfColumn>) {
    && |r.entries| == |columns|
    && forall c | 0 <= c < |columns| ::
        IsEntry(r.entries[c], columns[c], Objects(triples, r.subject, columns[c].property))
  }

  /** One row per subject of the type, in subject order. */
  ghost predicate IsPivot(
    rows: seq<PivotRow>, triples: seq<Triple>, rdfType: int, typeIri: int, columns: seq<RdfColumn>) {
    && (forall i, j | 0 <= i < j < |rows| :: rows[i].subject < rows[j].subject)
    && (forall s :: Typed(triples, rdfType, typeIri, s) <==> s in RowSubjects(rows))
    && forall i | 0 <= i < |rows| :: IsPivotRow(rows[i], triples, columns)
  }

  function RowSubjects(rows: seq<PivotRow>): set<int> {
    set r | r in rows :: r.subject
  }

  // ------------------------------------------------------------------ the nested maps

  type Index = map<int, map<int, seq<int>>>

  function Lookup(rows: Index, subject: int, property: int): seq<int> {
    if subject in rows && property in rows[subject] then rows[subject][property] else []
  }

  function Push(rows: Index, t: Triple): (out: Index)
    ensures forall s, p ::
      Lookup(out, s, p)
      == if s == t.subject && p == t.property then Lookup(rows, s, p) + [t.term] else Lookup(rows, s, p)
  {
    var predicates := if t.subject in rows then rows[t.subject] else map[];
    var objects := if t.property in predicates then predicates[t.property] else [];
    rows[t.subject := predicates[t.property := objects + [t.term]]]
  }

  method SortObjects(objects: seq<int>) returns (sorted: seq<int>)
    ensures Ascending(sorted) && multiset(sorted) == multiset(objects)
  {
    sorted := SortBySubject(objects, (x: int) => Val(x));
    forall i, j | 0 <= i < j < |sorted| ensures sorted[i] <= sorted[j] {
      assert Le(Val(sorted[i]), Val(sorted[j]));
    }
  }

  ghost predicate StrictlyAscending(s: seq<int>) {
    forall i, j | 0 <= i < j < |s| :: s[i] < s[j]
  }

  /** Insertion into a sorted set, kept as the sequence it iterates in. */
  method InsertSorted(sorted: seq<int>, x: int) returns (out: seq<int>)
    requires StrictlyAscending(sorted)
    ensures StrictlyAscending(out)
    ensures forall y :: y in out <==> y in sorted || y == x
  {
    var k := |sorted|;
    while k > 0 && x <= sorted[k - 1]
      invariant 0 <= k <= |sorted|
      invariant forall j | k <= j < |sorted| :: x <= sorted[j]
    {
      k := k - 1;
    }
    if k < |sorted| && sorted[k] == x {
      out := sorted;
    } else {
      InsertKeepsOrder(sorted, k, x);
      InsertAddsOne(sorted, k, x);
      out := sorted[..k] + [x] + sorted[k..];
    }
  }

  lemma {:induction false} InsertKeepsOrder(sorted: seq<int>, k: int, x: int)
    requires StrictlyAscending(sorted) && 0 <= k <= |sorted|
    requires k > 0 ==> sorted[k - 1] < x
    requires k < |sorted| ==> x < sorted[k]
    ensures StrictlyAscending(sorted[..k] + [x] + sorted[k..])
  {}

  lemma {:induction false} InsertAddsOne(sorted: seq<int>, k: int, x: int)
    requires 0 <= k <= |sorted|
    ensures forall y :: y in sorted[..k] + [x] + sorted[k..] <==> y in sorted || y == x
  {
    assert sorted == sorted[..k] + sorted[k..];
  }

  method PivotEntry(column: RdfColumn, objects: seq<int>) returns (e: Entry)
    ensures IsEntry(e, column, objects)
  {
    if column.multi {
      var sorted := SortObjects(objects);
      e := Many(Cells(sorted));
    } else {
      e := Scalar(Least(Cells(objects)));
    }
  }

  method RdfToBatch(triples: seq<Triple>, rdfType: int, typeIri: int, columns: seq<RdfColumn>) returns (r: Pivot)
    ensures r.Rows? <==> forall t | t in triples :: !t.directional
    ensures r.Rows? ==> IsPivot(r.rows, triples, rdfType, typeIri, columns)
    ensures r.DirectionUnsupported? ==>
      exists i :: 0 <= i < |triples| && IsFirstDirectional(triples, i)
                  && r == DirectionUnsupported(triples[i].subject, triples[i].property)
  {
    var index: Index := map[];
    var typed: seq<int> := [];
    for i := 0 to |triples|
      invariant forall j | 0 <= j < i :: !triples[j].directional
      invariant forall s, p :: Lookup(index, s, p) == Objects(triples[..i], s, p)
      invariant StrictlyAscending(typed)
      invariant forall s :: s in typed <==> Typed(triples[..i], rdfType, typeIri, s)
    {
      var t := triples[i];
      if t.directional {
        assert IsFirstDirectional(triples, i);
        return DirectionUnsupported(t.subject, t.property);
      }
      TypedStep(triples, i, rdfType, typeIri);
      if t.property == rdfType && t.term == typeIri {
        typed := InsertSorted(typed, t.subject);
      }
      PushStep(index, triples, i);
      index := Push(index, t);
    }
    assert triples[..|triples|] == triples;
    var rows := PivotRows(triples, index, typed, columns);
    r := Rows(rows);
    RowsAreOf(rows, typed);
  }

  lemma {:induction false} RowsAreOf(rows: seq<PivotRow>, subjects: seq<int>)
    requires |rows| == |subjects| && forall i | 0 <= i < |rows| :: rows[i].subject == subjects[i]
    ensures forall s :: s in RowSubjects(rows) <==> s in subjects
  {
    forall s ensures s in RowSubjects(rows) <==> s in subjects {
      if s in subjects {
        var i :| 0 <= i < |subjects| && subjects[i] == s;
        assert rows[i] in rows;
      }
    }
  }

  lemma {:induction false} TypedStep(triples: seq<Triple>, i: nat, rdfType: int, typeIri: int)
    requires i < |triples|
    ensures forall s :: Typed(triples[..i + 1], rdfType, typeIri, s)
                        <==> Typed(triples[..i], rdfType, typeIri, s)
                             || (triples[i].subject == s && triples[i].property == rdfType
                                 && triples[i].term == typeIri)
  {
    var t, before, after := triples[i], triples[..i], triples[..i + 1];
    assert after == before + [t];
    forall s
      ensures Typed(after, rdfType, typeIri, s)
              <==> Typed(before, rdfType, typeIri, s)
                   || (t.subject == s && t.property == rdfType && t.term == typeIri)
    {
      if Typed(after, rdfType, typeIri, s) {
        var u :| u in after && u.subject == s && u.property == rdfType && u.term == typeIri;
        assert u in before || u == t;
      }
      if Typed(before, rdfType, typeIri, s) {
        var u :| u in before && u.subject == s && u.property == rdfType && u.term == typeIri;
        assert u in after;
      }
      assert t in after;
    }
  }

  lemma {:induction false} PushStep(index: Index, triples: seq<Triple>, i: nat)
    requires i < |triples| && forall s, p :: Lookup(index, s, p) == Objects(triples[..i], s, p)
    ensures forall s, p :: Lookup(Push(index, triples[i]), s, p) == Objects(triples[..i + 1], s, p)
  {
    var t := triples[i];
    var longer := triples[..i + 1];
    assert longer[..i] == triples[..i] && longer[i] == t;
    forall s, p
      ensures Lookup(Push(index, t), s, p) == Objects(longer, s, p)
    {
      hide Push, Lookup;
      assert Lookup(index, s, p) == Objects(triples[..i], s, p);
    }
  }

  ghost predicate IsFirstDirectional(triples: seq<Triple>, i: int) {
    0 <= i < |triples| && triples[i].directional && forall j | 0 <= j < i :: !triples[j].directional
  }

  method PivotRows(ghost triples: seq<Triple>, index: Index, subjects: seq<int>, columns: seq<RdfColumn>)
    returns (rows: seq<PivotRow>)
    requires forall s, p :: Lookup(index, s, p) == Objects(triples, s, p)
    ensures |rows| == |subjects|
    ensures forall i | 0 <= i < |rows| :: rows[i].subject == subjects[i] && IsPivotRow(rows[i], triples, columns)
  {
    hide IsEntry, Lookup, Objects;
    rows := [];
    for i := 0 to |subjects|
      invariant |rows| == i
      invariant forall k | 0 <= k < i :: rows[k].subject == subjects[k] && IsPivotRow(rows[k], triples, columns)
    {
      var entries: seq<Entry> := [];
      for c := 0 to |columns|
        invariant |entries| == c
        invariant forall d | 0 <= d < c ::
          IsEntry(entries[d], columns[d], Objects(triples, subjects[i], columns[d].property))
      {
        var e := PivotEntry(columns[c], Lookup(index, subjects[i], columns[c].property));
        entries := entries + [e];
      }
      rows := rows + [PivotRow(subjects[i], entries)];
    }
  }

  // ------------------------------------------------------------------ the order of the triples

  /** How often a subject has an object for a predicate: what a permutation keeps. */
  function CountOf(triples: seq<Triple>, subject: int, property: int, term: int): nat {
    if triples == [] then 0
    else
      CountOf(triples[..|triples| - 1], subject, property, term)
      + if triples[|triples| - 1].subject == subject && triples[|triples| - 1].property == property
           && triples[|triples| - 1].term == term then 1 else 0
  }

  lemma {:induction false} ObjectsAreCounted(triples: seq<Triple>, s: int, p: int, o: int)
    ensures multiset(Objects(triples, s, p))[o] == CountOf(triples, s, p, o)
  {
    if triples == [] {
    } else {
      ObjectsAreCounted(triples[..|triples| - 1], s, p, o);
    }
  }

  /** The occurrences in a multiset, summed over the triples that say the same with either direction flag. */
  lemma {:induction false} CountIsMultiplicity(triples: seq<Triple>, s: int, p: int, o: int)
    ensures CountOf(triples, s, p, o)
        == multiset(triples)[Triple(s, p, o, true)] + multiset(triples)[Triple(s, p, o, false)]
  {
    if triples == [] {
    } else {
      CountIsMultiplicity(triples[..|triples| - 1], s, p, o);
      assert triples == triples[..|triples| - 1] + [triples[|triples| - 1]];
    }
  }

  lemma {:induction false} PermutedObjects(a: seq<Triple>, b: seq<Triple>, s: int, p: int)
    requires multiset(a) == multiset(b)
    ensures multiset(Objects(a, s, p)) == multiset(Objects(b, s, p))
  {
    forall o ensures multiset(Objects(a, s, p))[o] == multiset(Objects(b, s, p))[o] {
      ObjectsAreCounted(a, s, p, o);
      ObjectsAreCounted(b, s, p, o);
      CountIsMultiplicity(a, s, p, o);
      CountIsMultiplicity(b, s, p, o);
    }
  }

  lemma {:induction false} AscendingIsCanonical(a: seq<int>, b: seq<int>)
    requires Ascending(a) && Ascending(b) && multiset(a) == multiset(b)
    ensures a == b
  {
    assert |a| == |multiset(a)| == |multiset(b)| == |b|;
    if a == [] {
    } else {
      LeastFirst(a, b);
      LeastFirst(b, a);
      WithoutFirst(a);
      WithoutFirst(b);
      AscendingIsCanonical(a[1..], b[1..]);
      assert a == [a[0]] + a[1..] && b == [b[0]] + b[1..];
    }
  }

  lemma {:induction false} LeastFirst(a: seq<int>, b: seq<int>)
    requires Ascending(a) && a != [] && b != [] && multiset(a) == multiset(b)
    ensures a[0] <= b[0]
  {
    assert b[0] in multiset(a);
    assert b[0] in a;
  }

  lemma {:induction false} WithoutFirst(a: seq<int>)
    requires a != [] && Ascending(a)
    ensures multiset(a[1..]) == multiset(a) - multiset{a[0]} && Ascending(a[1..])
  {
    assert a == [a[0]] + a[1..];
  }

  lemma {:induction false} LeastOfPermuted(a: seq<int>, b: seq<int>)
    requires multiset(a) == multiset(b)
    ensures Least(Cells(a)) == Least(Cells(b))
  {
    forall x ensures Val(x) in Cells(a) <==> Val(x) in Cells(b) {
      CellsMember(a, x);
      CellsMember(b, x);
      assert x in a <==> x in multiset(a);
      assert x in b <==> x in multiset(b);
    }
  }

  lemma {:induction false} CellsMember(s: seq<int>, x: int)
    ensures Val(x) in Cells(s) <==> x in s
  {
    if x in s {
      var i :| 0 <= i < |s| && s[i] == x;
      assert Cells(s)[i] == Val(x);
    }
  }

  lemma {:induction false} EntryIsCanonical(d: Entry, e: Entry, column: RdfColumn, a: seq<int>, b: seq<int>)
    requires multiset(a) == multiset(b)
    requires IsEntry(d, column, a) && IsEntry(e, column, b)
    ensures d == e
  {
    if column.multi {
      var s :| Ascending(s) && multiset(s) == multiset(a) && d == Many(Cells(s));
      var t :| Ascending(t) && multiset(t) == multiset(b) && e == Many(Cells(t));
      AscendingIsCanonical(s, t);
    } else {
      LeastOfPermuted(a, b);
    }
  }

  lemma {:induction false} SubjectsAreCanonical(a: seq<PivotRow>, b: seq<PivotRow>)
    requires forall i, j | 0 <= i < j < |a| :: a[i].subject < a[j].subject
    requires forall i, j | 0 <= i < j < |b| :: b[i].subject < b[j].subject
    requires RowSubjects(a) == RowSubjects(b)
    ensures |a| == |b| && forall i | 0 <= i < |a| :: a[i].subject == b[i].subject
  {
    if a == [] || b == [] {
      assert a != [] ==> a[0].subject in RowSubjects(a);
      assert b != [] ==> b[0].subject in RowSubjects(b);
    } else {
      assert a[0].subject in RowSubjects(b) && b[0].subject in RowSubjects(a);
      TailOfSubjects(a);
      TailOfSubjects(b);
      SubjectsAreCanonical(a[1..], b[1..]);
      assert forall i | 1 <= i < |a| :: a[i] == a[1..][i - 1] && b[i] == b[1..][i - 1];
    }
  }

  lemma {:induction false} TailOfSubjects(a: seq<PivotRow>)
    requires a != [] && forall i, j | 0 <= i < j < |a| :: a[i].subject < a[j].subject
    ensures RowSubjects(a[1..]) == RowSubjects(a) - {a[0].subject}
    ensures forall s | s in RowSubjects(a) :: a[0].subject <= s
  {
    assert a == [a[0]] + a[1..];
    forall r | r in a[1..] ensures a[0].subject < r.subject {
      var i :| 0 <= i < |a[1..]| && a[1..][i] == r;
      assert a[i + 1] == r;
    }
  }

  /** Permuting the triples leaves the pivot as it was. */
  lemma {:induction false} TripleOrderIsIrrelevant(
    a: seq<Triple>, m: seq<PivotRow>, b: seq<Triple>, n: seq<PivotRow>, rdfType: int, typeIri: int,
    columns: seq<RdfColumn>)
    requires multiset(a) == multiset(b)
    requires IsPivot(m, a, rdfType, typeIri, columns) && IsPivot(n, b, rdfType, typeIri, columns)
    ensures m == n
  {
    forall s ensures s in RowSubjects(m) <==> s in RowSubjects(n) {
      TypedMoves(a, b, rdfType, typeIri, s);
      TypedMoves(b, a, rdfType, typeIri, s);
    }
    SubjectsAreCanonical(m, n);
    forall i | 0 <= i < |m| ensures m[i] == n[i] {
      SameRow(m[i], a, n[i], b, columns);
    }
  }

  lemma {:induction false} TypedMoves(a: seq<Triple>, b: seq<Triple>, rdfType: int, typeIri: int, s: int)
    requires multiset(a) == multiset(b)
    ensures Typed(a, rdfType, typeIri, s) ==> Typed(b, rdfType, typeIri, s)
  {
    if t :| t in a && t.subject == s && t.property == rdfType && t.term == typeIri {
      assert t in multiset(a);
      assert t in b;
    }
  }

  lemma {:induction false} SameRow(x: PivotRow, a: seq<Triple>, y: PivotRow, b: seq<Triple>, columns: seq<RdfColumn>)
    requires multiset(a) == multiset(b) && x.subject == y.subject
    requires IsPivotRow(x, a, columns) && IsPivotRow(y, b, columns)
    ensures x == y
  {
    forall c | 0 <= c < |columns| ensures x.entries[c] == y.entries[c] {
      PermutedObjects(a, b, x.subject, columns[c].property);
      EntryIsCanonical(x.entries[c], y.entries[c], columns[c],
                       Objects(a, x.subject, columns[c].property), Objects(b, x.subject, columns[c].property));
    }
  }

  // ------------------------------------------------------------------ a list, or repeated rows

  /** Column `c` of the pivot as the executor reads it: the subject and what the column holds. */
  function ListRows(rows: seq<PivotRow>, c: nat, name: string): (out: seq<Row>)
    requires forall i | 0 <= i < |rows| :: c < |rows[i].entries|
    ensures |out| == |rows|
        && forall i | 0 <= i < |rows| :: out[i] == Row(Val(rows[i].subject), map[name := rows[i].entries[c]])
  {
    seq(|rows|, i requires 0 <= i < |rows| => Row(Val(rows[i].subject), map[name := rows[i].entries[c]]))
  }

  /** The same data as a relational source spells it: a row per value. */
  ghost predicate IsRepeated(
    repeated: seq<Row>, triples: seq<Triple>, rdfType: int, typeIri: int, property: int, name: string) {
    && (forall r | r in repeated :: exists t :: t in triples && t.property == property && r == RepeatedRow(t, name))
    && forall t | t in triples && t.property == property && Typed(triples, rdfType, typeIri, t.subject) ::
         RepeatedRow(t, name) in repeated
  }

  function RepeatedRow(t: Triple, name: string): Row {
    Row(Val(t.subject), map[name := Scalar(Val(t.term))])
  }

  lemma {:induction false} ObjectsMember(triples: seq<Triple>, s: int, p: int, o: int)
    ensures o in Objects(triples, s, p) <==>
      exists t :: t in triples && t.subject == s && t.property == p && t.term == o
  {
    if triples == [] {
    } else {
      var before := triples[..|triples| - 1];
      ObjectsMember(before, s, p, o);
      assert triples == before + [triples[|triples| - 1]];
      assert forall t :: t in triples <==> t in before || t == triples[|triples| - 1];
    }
  }

  /** Both spellings offer a subject of the type the same values. */
  lemma {:induction false} SpellingsOfferTheSame(
    triples: seq<Triple>, rows: seq<PivotRow>, repeated: seq<Row>, rdfType: int, typeIri: int, columns: seq<RdfColumn>,
    c: nat, name: string, s: int, v: int)
    requires IsPivot(rows, triples, rdfType, typeIri, columns)
    requires c < |columns| && columns[c].multi
    requires forall i | 0 <= i < |rows| :: c < |rows[i].entries|
    requires IsRepeated(repeated, triples, rdfType, typeIri, columns[c].property, name)
    requires Typed(triples, rdfType, typeIri, s)
    ensures Offered(ListRows(rows, c, name), Val(s), name, v) <==> Offered(repeated, Val(s), name, v)
  {
    ListOffers(triples, rows, rdfType, typeIri, columns, c, name, s, v);
    ObjectsMember(triples, s, columns[c].property, v);
    if r :| r in repeated && r.subject == Val(s) && name in r.entries && Val(v) in Elements(r.entries[name]) {
      var t :| t in triples && t.property == columns[c].property && r == RepeatedRow(t, name);
      assert t.subject == s && t.term == v;
    }
    if t :| t in triples && t.subject == s && t.property == columns[c].property && t.term == v {
      assert RepeatedRow(t, name) in repeated;
      assert Val(v) in Elements(RepeatedRow(t, name).entries[name]);
    }
  }

  lemma {:induction false} ListOffers(
    triples: seq<Triple>, rows: seq<PivotRow>, rdfType: int, typeIri: int, columns: seq<RdfColumn>,
    c: nat, name: string, s: int, v: int)
    requires IsPivot(rows, triples, rdfType, typeIri, columns)
    requires c < |columns| && columns[c].multi
    requires forall i | 0 <= i < |rows| :: c < |rows[i].entries|
    requires Typed(triples, rdfType, typeIri, s)
    ensures Offered(ListRows(rows, c, name), Val(s), name, v) <==> v in Objects(triples, s, columns[c].property)
  {
    hide IsEntry, IsPivotRow, Objects, Elements;
    var list := ListRows(rows, c, name);
    var p := columns[c].property;
    if r :| r in list && r.subject == Val(s) && name in r.entries && Val(v) in Elements(r.entries[name]) {
      var i :| 0 <= i < |list| && list[i] == r;
      ListEntry(rows[i], triples, columns, c, v);
    }
    if v in Objects(triples, s, p) {
      assert s in RowSubjects(rows);
      var row :| row in rows && row.subject == s;
      var i :| 0 <= i < |rows| && rows[i] == row;
      ListEntry(rows[i], triples, columns, c, v);
      assert list[i] in list;
    }
  }

  lemma {:induction false} ListEntry(row: PivotRow, triples: seq<Triple>, columns: seq<RdfColumn>, c: nat, v: int)
    requires IsPivotRow(row, triples, columns) && c < |columns| && columns[c].multi
    ensures Val(v) in Elements(row.entries[c]) <==> v in Objects(triples, row.subject, columns[c].property)
  {
    var objects := Objects(triples, row.subject, columns[c].property);
    assert IsEntry(row.entries[c], columns[c], objects);
    var sorted :| Ascending(sorted) && multiset(sorted) == multiset(objects) && row.entries[c] == Many(Cells(sorted));
    CellsMember(sorted, v);
    assert v in sorted <==> v in multiset(sorted);
    assert v in objects <==> v in multiset(objects);
  }

  /** So a multi-valued property has one table, whichever way the source spelled it. The vertices are
      those of the type: no other subject is numbered. */
  lemma {:induction false} SpellingsMakeOnePropertyTable(
    triples: seq<Triple>, rows: seq<PivotRow>, repeated: seq<Row>, rdfType: int, typeIri: int, columns: seq<RdfColumn>,
    c: nat, name: string, vertices: seq<Vertex>, t: seq<Pair>, u: seq<Pair>)
    requires IsPivot(rows, triples, rdfType, typeIri, columns)
    requires c < |columns| && columns[c].multi
    requires forall i | 0 <= i < |rows| :: c < |rows[i].entries|
    requires IsRepeated(repeated, triples, rdfType, typeIri, columns[c].property, name)
    requires forall v | v in vertices && v.row.subject.Val? :: Typed(triples, rdfType, typeIri, v.row.subject.v)
    requires IsPropertyTable(t, ListRows(rows, c, name), vertices, name) && IsPropertyTable(u, repeated, vertices, name)
    ensures t == u
  {
    var list := ListRows(rows, c, name);
    forall p ensures p in t <==> p in u {
      forall v | v in vertices && v.row.subject.Val?
        ensures Offered(list, v.row.subject, name, p.1) <==> Offered(repeated, v.row.subject, name, p.1)
      {
        SpellingsOfferTheSame(triples, rows, repeated, rdfType, typeIri, columns, c, name, v.row.subject.v, p.1);
      }
      assert p in t <==> ValueOf(p, list, vertices, name);
      assert p in u <==> ValueOf(p, repeated, vertices, name);
    }
    StrictPairsAreCanonical(t, u);
  }

  /** And a multi-valued edge joins the same ends. */
  lemma {:induction false} SpellingsMakeOneEdgeSet(
    triples: seq<Triple>, rows: seq<PivotRow>, repeated: seq<Row>, rdfType: int, typeIri: int, columns: seq<RdfColumn>,
    c: nat, name: string, src: seq<Vertex>, dst: seq<Vertex>, p: Pair)
    requires IsPivot(rows, triples, rdfType, typeIri, columns)
    requires c < |columns| && columns[c].multi
    requires forall i | 0 <= i < |rows| :: c < |rows[i].entries|
    requires IsRepeated(repeated, triples, rdfType, typeIri, columns[c].property, name)
    requires forall v | v in src && v.row.subject.Val? :: Typed(triples, rdfType, typeIri, v.row.subject.v)
    ensures JoinsOffered(p, ListRows(rows, c, name), name, src, dst) <==> JoinsOffered(p, repeated, name, src, dst)
  {
    forall v, w | v in src && w in dst && v.row.subject.Val? && w.row.subject.Val?
      ensures Offered(ListRows(rows, c, name), v.row.subject, name, w.row.subject.v)
              <==> Offered(repeated, v.row.subject, name, w.row.subject.v)
    {
      SpellingsOfferTheSame(triples, rows, repeated, rdfType, typeIri, columns, c, name, v.row.subject.v,
          w.row.subject.v);
    }
  }

  ghost predicate JoinsOffered(p: Pair, rows: seq<Row>, name: string, src: seq<Vertex>, dst: seq<Vertex>) {
    exists v, w ::
      && v in src && w in dst && p == (v.id, w.id)
      && v.row.subject.Val? && w.row.subject.Val? && Offered(rows, v.row.subject, name, w.row.subject.v)
  }

  /** `JoinsOffered` is what `execute_edge` resolves of those rows. */
  lemma {:induction false} ResolvesWhatIsOffered(
    rows: seq<Row>, name: string, ty: ColumnType, src: seq<Vertex>, dst: seq<Vertex>, p: Pair)
    requires forall i | 0 <= i < |rows| :: name in rows[i].entries && Fits(rows[i].entries[name], ty)
    requires forall r | r in Column(rows, name) :: Fits(r.1, ty)
    ensures p in Resolve(RowPerValue(Column(rows, name), ty), src, dst) <==> JoinsOffered(p, rows, name, src, dst)
  {
    hide Resolve, RowPerValue, Column, Fits, Offered;
    var candidates := RowPerValue(Column(rows, name), ty);
    ResolveMember(candidates, src, dst, p);
    if s, d, v, w :| (s, d) in candidates && Ends(p, s, d, src, dst, v, w) {
      ColumnOffers(rows, name, ty, s, d.v);
    }
    if JoinsOffered(p, rows, name, src, dst) {
      var v, w :| v in src && w in dst && p == (v.id, w.id)
        && v.row.subject.Val? && w.row.subject.Val? && Offered(rows, v.row.subject, name, w.row.subject.v);
      ColumnOffers(rows, name, ty, v.row.subject, w.row.subject.v);
      assert Ends(p, v.row.subject, w.row.subject, src, dst, v, w);
    }
  }
}
