/** The relational operators the executor hands to its engine, by their meaning.

    A value is its rank in its column's order: a run reads finitely many values, and nothing here
    depends on more than the order being total. A null is a cell of its own and sorts last.

    An operator whose result the engine leaves open (the order of a union, of a group or of a tie,
    and how a result is cut into batches) is a method whose contract leaves it open too, so what is
    proved of a caller holds of every such choice. */
module Tables {

  datatype Cell = Null | Val(v: int)

  /** `ORDER BY ... ASC NULLS LAST`. */
  predicate Le(a: Cell, b: Cell) {
    b.Null? || (a.Val? && a.v <= b.v)
  }

  predicate Lt(a: Cell, b: Cell) {
    Le(a, b) && a != b
  }

  /** What one column of one row holds: a scalar, or a list as the RDF pivot spells many values. */
  datatype Entry = Scalar(cell: Cell) | Many(cells: seq<Cell>) | NullList

  datatype ColumnType = ScalarColumn | ListColumn

  predicate Fits(e: Entry, ty: ColumnType) {
    e.Scalar? <==> ty.ScalarColumn?
  }

  /** The typed null a mapping contributes for a property it does not write. */
  function TypedNull(ty: ColumnType): (e: Entry)
    ensures Fits(e, ty)
  {
    if ty.ScalarColumn? then Scalar(Null) else NullList
  }

  /** `UNNEST` of one entry: a row per element, a null list being one null row and an empty list none. */
  function Elements(e: Entry): seq<Cell> {
    match e
    case Scalar(c) => [c]
    case Many(cs) => cs
    case NullList => [Null]
  }

  // ------------------------------------------------------------------ batches

  function Flatten<T>(batches: seq<seq<T>>): seq<T> {
    if batches == [] then [] else batches[0] + Flatten(batches[1..])
  }

  lemma {:induction false} FlattenAppend<T>(a: seq<seq<T>>, b: seq<T>)
    ensures Flatten(a + [b]) == Flatten(a) + b
  {
    if a == [] {
      assert a + [b] == [b] && Flatten([b]) == b + Flatten<T>([]);
    } else {
      FlattenAppend(a[1..], b);
      assert (a + [b])[1..] == a[1..] + [b];
    }
  }

  lemma {:induction false} FlattenPrefix<T>(batches: seq<seq<T>>, k: nat)
    requires k <= |batches|
    ensures Flatten(batches) == Flatten(batches[..k]) + Flatten(batches[k..])
  {
    if k == 0 {
      assert batches[..0] == [] && batches[0..] == batches;
    } else {
      FlattenPrefix(batches[1..], k - 1);
      assert batches[..k][1..] == batches[1..][..k - 1];
      assert batches[k..] == batches[1..][k - 1..];
    }
  }

  /** The rows of a result, cut into batches as the engine likes. */
  method Collect<T>(rows: seq<T>) returns (batches: seq<seq<T>>)
    ensures Flatten(batches) == rows
  {
    batches := if rows == [] then [] else [rows];
    assert rows != [] ==> Flatten([rows]) == rows + Flatten<T>([]);
  }

  // ------------------------------------------------------------------ min and max

  /** `MIN`: the least value that is there, null when none is. */
  function Least(cells: seq<Cell>): (m: Cell)
    ensures m.Null? <==> forall c | c in cells :: c.Null?
    ensures m.Val? ==> m in cells && forall c | c in cells && c.Val? :: m.v <= c.v
  {
    if cells == [] then Null
    else
      var rest := Least(cells[1..]);
      assert forall c | c in cells :: c == cells[0] || c in cells[1..];
      if cells[0].Val? && (rest.Null? || cells[0].v <= rest.v) then cells[0] else rest
  }

  /** `MAX`: the greatest value that is there, null when none is. */
  function Greatest(cells: seq<Cell>): (m: Cell)
    ensures m.Null? <==> forall c | c in cells :: c.Null?
    ensures m.Val? ==> m in cells && forall c | c in cells && c.Val? :: c.v <= m.v
  {
    if cells == [] then Null
    else
      var rest := Greatest(cells[1..]);
      assert forall c | c in cells :: c == cells[0] || c in cells[1..];
      if cells[0].Val? && (rest.Null? || rest.v <= cells[0].v) then cells[0] else rest
  }

  // ------------------------------------------------------------------ rows and groups

  datatype Row = Row(subject: Cell, entries: map<string, Entry>)

  predicate HasScalar(r: Row, name: string) {
    name in r.entries && r.entries[name].Scalar?
  }

  function ScalarOf(r: Row, name: string): Cell
    requires HasScalar(r, name)
  {
    r.entries[name].cell
  }

  /** The cells the rows of `subject` offer for the scalar column `name`, in row order. */
  function Offers(rows: seq<Row>, subject: Cell, name: string): (cells: seq<Cell>)
    requires forall r | r in rows :: HasScalar(r, name)
    ensures forall c :: c in cells <==>
      exists r :: r in rows && r.subject == subject && ScalarOf(r, name) == c
  {
    if rows == [] then []
    else
      var rest := Offers(rows[1..], subject, name);
      assert rows[0] in rows && forall r | r in rows :: r == rows[0] || r in rows[1..];
      if rows[0].subject == subject then [ScalarOf(rows[0], name)] + rest else rest
  }

  function SubjectsOf(rows: seq<Row>): set<Cell> {
    set r | r in rows :: r.subject
  }

  function GroupSubjects(groups: seq<Group>): set<Cell> {
    set g | g in groups :: g.subject
  }

  /** One group of the merge: the least and the greatest each column offers, and whether they differ. */
  datatype Group = Group(subject: Cell, least: seq<Cell>, greatest: seq<Cell>, several: seq<bool>)

  ghost predicate IsGroup(g: Group, rows: seq<Row>, names: seq<string>)
    requires ScalarColumns(rows, names)
  {
    && |g.least| == |g.greatest| == |g.several| == |names|
    && forall i | 0 <= i < |names| ::
         && g.least[i] == Least(Offers(rows, g.subject, names[i]))
         && g.greatest[i] == Greatest(Offers(rows, g.subject, names[i]))
         && g.several[i] == (g.least[i] != g.greatest[i])
  }

  ghost predicate ScalarColumns(rows: seq<Row>, names: seq<string>) {
    forall r, n | r in rows && n in names :: HasScalar(r, n)
  }

  function GroupOf(rows: seq<Row>, names: seq<string>, subject: Cell): (g: Group)
    requires ScalarColumns(rows, names)
    ensures g.subject == subject && IsGroup(g, rows, names)
  {
    var least := seq(|names|, i requires 0 <= i < |names| => Least(Offers(rows, subject, names[i])));
    var greatest := seq(|names|, i requires 0 <= i < |names| => Greatest(Offers(rows, subject, names[i])));
    Group(subject, least, greatest,
          seq(|names|, i requires 0 <= i < |names| => least[i] != greatest[i]))
  }

  /** `GROUP BY subject` with `MIN`, `MAX` and `IS DISTINCT FROM` of every column, in any group order. */
  method Aggregate(rows: seq<Row>, names: seq<string>) returns (groups: seq<Group>)
    requires ScalarColumns(rows, names)
    ensures forall i, j | 0 <= i < j < |groups| :: groups[i].subject != groups[j].subject
    ensures forall g | g in groups :: IsGroup(g, rows, names)
    ensures GroupSubjects(groups) == SubjectsOf(rows)
  {
    groups := [];
    var seen: set<Cell> := {};
    for i := 0 to |rows|
      invariant forall g, h | 0 <= g < h < |groups| :: groups[g].subject != groups[h].subject
      invariant forall g | g in groups :: IsGroup(g, rows, names) && g.subject in seen
      invariant GroupSubjects(groups) == seen <= SubjectsOf(rows)
      invariant forall j | 0 <= j < i :: rows[j].subject in seen
    {
      var s := rows[i].subject;
      if s !in seen {
        var g := GroupOf(rows, names, s);
        assert GroupSubjects(groups + [g]) == GroupSubjects(groups) + {s} by {
          assert forall h :: h in groups + [g] <==> h in groups || h == g;
        }
        groups := groups + [g];
        seen := seen + {s};
        assert rows[i] in rows;
      }
    }
  }

  // ------------------------------------------------------------------ sort

  ghost predicate SortedBySubject<T>(rows: seq<T>, subject: T -> Cell) {
    forall i, j | 0 <= i < j < |rows| :: Le(subject(rows[i]), subject(rows[j]))
  }

  method InsertBySubject<T>(sorted: seq<T>, row: T, subject: T -> Cell) returns (out: seq<T>)
    requires SortedBySubject(sorted, subject)
    ensures SortedBySubject(out, subject)
    ensures exists k :: 0 <= k <= |sorted| && out == sorted[..k] + [row] + sorted[k..]
  {
    var k := |sorted|;
    while k > 0 && !Le(subject(sorted[k - 1]), subject(row))
      invariant 0 <= k <= |sorted|
      invariant forall j | k <= j < |sorted| :: Le(subject(row), subject(sorted[j]))
    {
      k := k - 1;
    }
    out := sorted[..k] + [row] + sorted[k..];
  }

  /** `ORDER BY subject ASC`: ties come out in any order. */
  method SortBySubject<T>(rows: seq<T>, subject: T -> Cell) returns (sorted: seq<T>)
    ensures SortedBySubject(sorted, subject)
    ensures multiset(sorted) == multiset(rows)
  {
    sorted := [];
    for i := 0 to |rows|
      invariant SortedBySubject(sorted, subject)
      invariant multiset(sorted) == multiset(rows[..i])
    {
      var out := InsertBySubject(sorted, rows[i], subject);
      ghost var k :| 0 <= k <= |sorted| && out == sorted[..k] + [rows[i]] + sorted[k..];
      assert sorted == sorted[..k] + sorted[k..];
      assert rows[..i + 1] == rows[..i] + [rows[i]];
      sorted := out;
    }
    assert rows[..|rows|] == rows;
  }

  // ------------------------------------------------------------------ distinct pairs in order

  type Pair = (int, int)

  predicate PairLt(a: Pair, b: Pair) {
    a.0 < b.0 || (a.0 == b.0 && a.1 < b.1)
  }

  ghost predicate StrictPairs(s: seq<Pair>) {
    forall i, j | 0 <= i < j < |s| :: PairLt(s[i], s[j])
  }

  /** `DISTINCT`, then `ORDER BY` both columns. */
  method DistinctSorted(pairs: seq<Pair>) returns (sorted: seq<Pair>)
    ensures StrictPairs(sorted)
    ensures forall p :: p in sorted <==> p in pairs
  {
    sorted := [];
    for i := 0 to |pairs|
      invariant StrictPairs(sorted)
      invariant forall p :: p in sorted <==> p in pairs[..i]
    {
      var p := pairs[i];
      assert pairs[..i + 1] == pairs[..i] + [p];
      if p !in sorted {
        var k := |sorted|;
        while k > 0 && PairLt(p, sorted[k - 1])
          invariant 0 <= k <= |sorted|
          invariant forall j | k <= j < |sorted| :: PairLt(p, sorted[j])
        {
          k := k - 1;
        }
        assert forall j | 0 <= j < k :: PairLt(sorted[j], p) by {
          if k > 0 {
            assert sorted[k - 1] != p;
          }
        }
        ghost var before := sorted;
        sorted := sorted[..k] + [p] + sorted[k..];
        assert forall q :: q in sorted <==> q == p || q in before by {
          assert before == before[..k] + before[k..];
        }
      }
    }
    assert pairs[..|pairs|] == pairs;
  }

  /** A strictly sorted table is settled by the set of its rows. */
  lemma {:induction false} StrictPairsAreCanonical(a: seq<Pair>, b: seq<Pair>)
    requires StrictPairs(a) && StrictPairs(b)
    requires forall p :: p in a <==> p in b
    ensures a == b
  {
    assert b != [] ==> b[0] in b;
    if a == [] {
    } else {
      assert a[0] in b;
      assert b[0] in a;
      assert a[0] == b[0];
      forall p ensures p in a[1..] <==> p in b[1..] {
        StrictTail(a, p);
        StrictTail(b, p);
      }
      StrictPairsAreCanonical(a[1..], b[1..]);
      assert a == [a[0]] + a[1..] && b == [b[0]] + b[1..];
    }
  }

  lemma {:induction false} StrictTail(s: seq<Pair>, p: Pair)
    requires StrictPairs(s) && s != []
    ensures p in s[1..] <==> p in s && p != s[0]
  {
    if p in s && p != s[0] {
      var i :| 0 <= i < |s| && s[i] == p;
      assert s[1..][i - 1] == p;
    }
  }
}
