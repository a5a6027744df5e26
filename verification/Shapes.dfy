/** The shapes of a document in fossil's order: a value of the set of shapes, not of how they were written. */
module Shapes {
  import opened Common
  import Text

  /** A shape: what it is known by, its predicates, and whatever else it holds. */
  datatype Shape = Shape(iri: string, predicates: seq<string>, content: int)

  datatype Rejection = AmbiguousOrder(first: string, second: string) | Rejected(reason: int)

  datatype OutputShapes = OutputShapes(shapes: seq<Shape>, index: map<string, nat>, rejections: seq<Rejection>)

  // ------------------------------------------------------------------ the order of shapes

  /** A shape with an IRI is placed by it; a blank one by its predicates. */
  datatype Key = Named(iri: string) | Blank(predicates: seq<string>)

  predicate IsBlank(iri: string) {
    |iri| >= 2 && iri[0] == '_' && iri[1] == ':'
  }

  function OrderKey(s: Shape): Key {
    if IsBlank(s.iri) then Blank(SortTexts(s.predicates)) else Named(s.iri)
  }

  function SortTexts(ts: seq<string>): (r: seq<string>)
    ensures |r| == |ts|
  {
    if ts == [] then [] else PlaceText(SortTexts(ts[1..]), ts[0])
  }

  function PlaceText(ts: seq<string>, t: string): (r: seq<string>)
    ensures |r| == |ts| + 1
  {
    if ts == [] || Text.Le(t, ts[0]) then [t] + ts else [ts[0]] + PlaceText(ts[1..], t)
  }

  predicate ListLe(a: seq<string>, b: seq<string>) {
    a == [] || (b != [] && (Text.Lt(a[0], b[0]) || (a[0] == b[0] && ListLe(a[1..], b[1..]))))
  }

  /** Shapes with an IRI first. */
  predicate KeyLe(a: Key, b: Key) {
    match (a, b)
    case (Named(i), Named(j)) => Text.Le(i, j)
    case (Named(_), Blank(_)) => true
    case (Blank(_), Named(_)) => false
    case (Blank(p), Blank(q)) => ListLe(p, q)
  }

  lemma {:induction false} ListTotal(a: seq<string>, b: seq<string>)
    ensures ListLe(a, b) || ListLe(b, a)
  {
    if a != [] && b != [] {
      Text.Total(a[0], b[0]);
      ListTotal(a[1..], b[1..]);
    }
  }

  lemma {:induction false} ListTransitive(a: seq<string>, b: seq<string>, c: seq<string>)
    requires ListLe(a, b) && ListLe(b, c)
    ensures ListLe(a, c)
  {
    if a == [] {
    } else {
      Text.Transitive(a[0], b[0], c[0]) by { TextLe(a[0], b[0]); TextLe(b[0], c[0]); }
      if a[0] == b[0] && b[0] == c[0] {
        ListTransitive(a[1..], b[1..], c[1..]);
      } else if a[0] == c[0] {
        Text.Antisymmetric(a[0], b[0]);
      }
    }
  }

  lemma {:induction false} TextLe(a: string, b: string)
    requires Text.Lt(a, b) || a == b
    ensures Text.Le(a, b)
  {
    Text.Reflexive(a);
  }

  lemma {:induction false} ListAntisymmetric(a: seq<string>, b: seq<string>)
    requires ListLe(a, b) && ListLe(b, a)
    ensures a == b
  {
    if a != [] && b != [] {
      if a[0] != b[0] {
        Text.Antisymmetric(a[0], b[0]);
      }
      ListAntisymmetric(a[1..], b[1..]);
      assert a == [a[0]] + a[1..] && b == [b[0]] + b[1..];
    }
  }

  /** The order of shapes is a total preorder, and of keys a total order. */
  lemma {:induction false} KeysAreOrdered(a: Key, b: Key, c: Key)
    ensures KeyLe(a, b) || KeyLe(b, a)
    ensures KeyLe(a, b) && KeyLe(b, c) ==> KeyLe(a, c)
    ensures KeyLe(a, b) && KeyLe(b, a) ==> a == b
  {
    if a.Named? && b.Named? {
      Text.Total(a.iri, b.iri);
      if Text.Le(a.iri, b.iri) && Text.Le(b.iri, a.iri) {
        Text.Antisymmetric(a.iri, b.iri);
      }
      if c.Named? && Text.Le(a.iri, b.iri) && Text.Le(b.iri, c.iri) {
        Text.Transitive(a.iri, b.iri, c.iri);
      }
    } else if a.Blank? && b.Blank? {
      ListTotal(a.predicates, b.predicates);
      if ListLe(a.predicates, b.predicates) && ListLe(b.predicates, a.predicates) {
        ListAntisymmetric(a.predicates, b.predicates);
      }
      if c.Blank? && ListLe(a.predicates, b.predicates) && ListLe(b.predicates, c.predicates) {
        ListTransitive(a.predicates, b.predicates, c.predicates);
      }
    }
  }

  /** A list in order, no text after a lesser one. */
  ghost predicate Ordered(ts: seq<string>) {
    forall i, j | 0 <= i < j < |ts| :: ts[i] == ts[j] || Text.Before(ts[i], ts[j])
  }

  lemma {:induction false} PlacedStaysOrdered(ts: seq<string>, t: string)
    requires Ordered(ts)
    ensures Ordered(PlaceText(ts, t)) && multiset(PlaceText(ts, t)) == multiset(ts) + multiset{t}
  {
    if ts == [] {
    } else if Text.Le(t, ts[0]) {
      forall j | 0 <= j < |ts|
        ensures t == ts[j] || Text.Before(t, ts[j])
      {
        Text.LeIsBefore(ts[0], ts[j]);
        Text.Transitive(t, ts[0], ts[j]);
        Text.LeIsBefore(t, ts[j]);
      }
    } else {
      var rest := ts[1..];
      PlacedStaysOrdered(rest, t);
      Text.Total(t, ts[0]);
      Text.LeIsBefore(ts[0], t);
      assert ts == [ts[0]] + rest;
      var placed := PlaceText(rest, t);
      forall j | 0 <= j < |placed|
        ensures ts[0] == placed[j] || Text.Before(ts[0], placed[j])
      {
        assert placed[j] in multiset(placed);
        assert placed[j] == t || placed[j] in rest;
      }
    }
  }

  lemma {:induction false} SortingOrders(ts: seq<string>)
    ensures Ordered(SortTexts(ts)) && multiset(SortTexts(ts)) == multiset(ts)
  {
    if ts == [] {
    } else {
      SortingOrders(ts[1..]);
      PlacedStaysOrdered(SortTexts(ts[1..]), ts[0]);
      assert ts == [ts[0]] + ts[1..];
    }
  }

  lemma {:induction false} OneOrder(a: seq<string>, b: seq<string>)
    requires Ordered(a) && Ordered(b) && multiset(a) == multiset(b)
    ensures a == b
  {
    hide Text.Le;
    assert |a| == |multiset(a)| == |multiset(b)| == |b|;
    if a == [] {
    } else {
      assert a[0] in multiset(b) && b[0] in multiset(a);
      LeastOfBoth(a, b);
      WithoutFirst(a, b);
      OneOrder(a[1..], b[1..]);
      assert a == [a[0]] + a[1..] && b == [b[0]] + b[1..];
    }
  }

  lemma {:induction false} WithoutFirst(a: seq<string>, b: seq<string>)
    requires a != [] && b != [] && a[0] == b[0] && multiset(a) == multiset(b)
    ensures multiset(a[1..]) == multiset(b[1..])
  {
    assert a == [a[0]] + a[1..] && b == [b[0]] + b[1..];
    assert multiset(a[1..]) == multiset(a) - multiset{a[0]} && multiset(b[1..]) == multiset(b) - multiset{b[0]};
  }

  lemma {:induction false} LeastOfBoth(a: seq<string>, b: seq<string>)
    requires Ordered(a) && Ordered(b) && a != [] && b != [] && a[0] in b && b[0] in a
    ensures a[0] == b[0]
  {
    Text.LeIsBefore(a[0], b[0]);
    Text.LeIsBefore(b[0], a[0]);
    if Text.Le(a[0], b[0]) && Text.Le(b[0], a[0]) {
      Text.Antisymmetric(a[0], b[0]);
    }
  }

  predicate NamedByIri(s: Shape) {
    !("_:" <= s.iri)
  }

  /** Two shapes tie exactly when they have one IRI, or have none and the same predicates however listed. */
  lemma {:induction false} TiesAreSamePredicates(a: Shape, b: Shape)
    ensures OrderKey(a) == OrderKey(b) <==>
            if NamedByIri(a) && NamedByIri(b) then a.iri == b.iri
            else !NamedByIri(a) && !NamedByIri(b) && multiset(a.predicates) == multiset(b.predicates)
  {
    BlankIsUnnamed(a);
    BlankIsUnnamed(b);
    SortingOrders(a.predicates);
    SortingOrders(b.predicates);
    if multiset(a.predicates) == multiset(b.predicates) {
      OneOrder(SortTexts(a.predicates), SortTexts(b.predicates));
    }
  }

  lemma {:induction false} BlankIsUnnamed(s: Shape)
    ensures IsBlank(s.iri) <==> !NamedByIri(s)
  {
    if IsBlank(s.iri) {
      assert s.iri[..2] == "_:";
    }
  }

  /** A list comes before another where they part: it has ended, or has the lesser text. */
  ghost predicate ListBefore(a: seq<string>, b: seq<string>) {
    exists k :: PartsBefore(a, b, k)
  }

  ghost predicate PartsBefore(a: seq<string>, b: seq<string>, k: int) {
    0 <= k <= |a| && k < |b| && a[..k] == b[..k] && (k == |a| || Text.Before(a[k], b[k]))
  }

  lemma {:induction false} ListLeParts(a: seq<string>, b: seq<string>)
    ensures ListLe(a, b) && a != b ==> ListBefore(a, b)
  {
    if a == [] {
      assert b != [] ==> PartsBefore(a, b, 0);
    } else if b != [] && Text.Lt(a[0], b[0]) {
      Text.LeIsBefore(a[0], b[0]);
      assert PartsBefore(a, b, 0);
    } else if b != [] && a[0] == b[0] && ListLe(a[1..], b[1..]) && a != b {
      assert a == [a[0]] + a[1..] && b == [b[0]] + b[1..];
      ListLeParts(a[1..], b[1..]);
      var k :| PartsBefore(a[1..], b[1..], k);
      assert a[..k + 1] == [a[0]] + a[1..][..k] && b[..k + 1] == [b[0]] + b[1..][..k];
      assert PartsBefore(a, b, k + 1);
    }
  }

  lemma {:induction false} PartsListLe(a: seq<string>, b: seq<string>, k: int)
    requires PartsBefore(a, b, k)
    ensures ListLe(a, b)
    decreases k
  {
    if k == 0 {
      if a != [] {
        Text.LeIsBefore(a[0], b[0]);
        Text.BeforeIsApart(a[0], b[0]);
      }
    } else {
      assert a[0] == a[..k][0] && b[0] == b[..k][0];
      assert a[1..][..k - 1] == a[..k][1..] && b[1..][..k - 1] == b[..k][1..];
      PartsListLe(a[1..], b[1..], k - 1);
    }
  }

  /** A shape with an IRI before one without; two with, by it; two without, by their predicates in order. */
  lemma {:induction false} OrderOfShapes(a: Shape, b: Shape)
    ensures KeyLe(OrderKey(a), OrderKey(b)) <==>
            if NamedByIri(a) then !NamedByIri(b) || a.iri == b.iri || Text.Before(a.iri, b.iri)
            else
              !NamedByIri(b)
              && var p, q := SortTexts(a.predicates), SortTexts(b.predicates); p == q || ListBefore(p, q)
    ensures Ordered(SortTexts(a.predicates)) && multiset(SortTexts(a.predicates)) == multiset(a.predicates)
  {
    BlankIsUnnamed(a);
    BlankIsUnnamed(b);
    SortingOrders(a.predicates);
    Text.LeIsBefore(a.iri, b.iri);
    var p, q := SortTexts(a.predicates), SortTexts(b.predicates);
    ListLeParts(p, q);
    if k :| PartsBefore(p, q, k) {
      PartsListLe(p, q, k);
    }
    ListReflexive(p);
  }

  lemma {:induction false} ListReflexive(a: seq<string>)
    ensures ListLe(a, a)
  {
    if a == [] {
    } else {
      ListReflexive(a[1..]);
    }
  }

  // ------------------------------------------------------------------ construction

  function Deduped(shapes: seq<Shape>, seen: set<string>): seq<Shape> {
    if shapes == [] then []
    else if shapes[0].iri in seen then Deduped(shapes[1..], seen)
    else [shapes[0]] + Deduped(shapes[1..], seen + {shapes[0].iri})
  }

  /** A stable sort, a shape at a time: after whatever is not greater. */
  function Sorted(shapes: seq<Shape>): (r: seq<Shape>)
    ensures |r| == |shapes|
  {
    if shapes == [] then [] else Placed(Sorted(shapes[..|shapes| - 1]), shapes[|shapes| - 1])
  }

  function Placed(sorted: seq<Shape>, s: Shape): (r: seq<Shape>)
    ensures |r| == |sorted| + 1
  {
    if sorted == [] then [s]
    else if KeyLe(OrderKey(sorted[|sorted| - 1]), OrderKey(s)) then sorted + [s]
    else Placed(sorted[..|sorted| - 1], s) + [sorted[|sorted| - 1]]
  }

  predicate TiedAt(kept: seq<Shape>, i: nat) {
    i + 1 < |kept| && OrderKey(kept[i]) == OrderKey(kept[i + 1])
  }

  /** The ties from the `i`-th pair on, each reported once. */
  function Ties(kept: seq<Shape>, i: nat, rejections: seq<Rejection>): seq<Rejection>
    decreases |kept| - i
  {
    if i + 1 >= |kept| then rejections
    else
      var tie := AmbiguousOrder(kept[i].iri, kept[i + 1].iri);
      Ties(kept, i + 1, if TiedAt(kept, i) && tie !in rejections then rejections + [tie] else rejections)
  }

  function Index(kept: seq<Shape>): map<string, nat> {
    if kept == [] then map[] else Index(kept[..|kept| - 1])[kept[|kept| - 1].iri := |kept| - 1]
  }

  function Built(shapes: seq<Shape>, rejections: seq<Rejection>): OutputShapes {
    var kept := Sorted(Deduped(shapes, {}));
    OutputShapes(kept, Index(kept), Ties(kept, 0, rejections))
  }

  /** `OutputShapes::new`. */
  method New(shapes: seq<Shape>, rejections: seq<Rejection>) returns (o: OutputShapes)
    ensures o == Built(shapes, rejections)
  {
    var kept := KeepFirst(shapes);
    kept := Sorted(kept);
    var all := rejections;
    var i := 0;
    while i + 1 < |kept|
      invariant Ties(kept, i, all) == Ties(kept, 0, rejections)
      decreases |kept| - i
    {
      if OrderKey(kept[i]) == OrderKey(kept[i + 1]) {
        var tie := AmbiguousOrder(kept[i].iri, kept[i + 1].iri);
        if tie !in all {
          all := all + [tie];
        }
      }
      i := i + 1;
    }
    var index: map<string, nat> := map[];
    for k := 0 to |kept|
      invariant index == Index(kept[..k])
    {
      assert kept[..k + 1][..k] == kept[..k];
      index := index[kept[k].iri := k];
    }
    assert kept[..|kept|] == kept;
    o := OutputShapes(kept, index, all);
  }

  method KeepFirst(shapes: seq<Shape>) returns (kept: seq<Shape>)
    ensures kept == Deduped(shapes, {})
  {
    hide Deduped;
    kept := [];
    assert shapes[0..] == shapes;
    var seen: set<string> := {};
    for i := 0 to |shapes|
      invariant kept + Deduped(shapes[i..], seen) == Deduped(shapes, {})
    {
      DedupedStep(shapes, i, seen);
      if shapes[i].iri !in seen {
        seen := seen + {shapes[i].iri};
        kept := kept + [shapes[i]];
      }
    }
    NothingDeduped(seen);
    assert shapes[|shapes|..] == [];
  }

  lemma {:induction false} NothingDeduped(seen: set<string>)
    ensures Deduped([], seen) == []
  {
  }

  lemma {:induction false} DedupedStep(shapes: seq<Shape>, i: nat, seen: set<string>)
    requires i < |shapes|
    ensures Deduped(shapes[i..], seen)
            == if shapes[i].iri in seen then Deduped(shapes[i + 1..], seen)
               else [shapes[i]] + Deduped(shapes[i + 1..], seen + {shapes[i].iri})
  {
    assert shapes[i..][0] == shapes[i] && shapes[i..][1..] == shapes[i + 1..];
  }

  function Lookup(o: OutputShapes, iri: string): Option<Shape> {
    if iri in o.index && o.index[iri] < |o.shapes| then Some(o.shapes[o.index[iri]]) else None
  }

  // ------------------------------------------------------------------ the first declaration wins

  predicate DistinctIris(shapes: seq<Shape>) {
    forall i, j | 0 <= i < j < |shapes| :: shapes[i].iri != shapes[j].iri
  }

  /** The first shape of an IRI, looked for in the order it was given. */
  function Find(shapes: seq<Shape>, iri: string): Option<Shape> {
    if shapes == [] then None else if shapes[0].iri == iri then Some(shapes[0]) else Find(shapes[1..], iri)
  }

  lemma {:induction false} DedupedKeepsFirst(shapes: seq<Shape>, seen: set<string>, iri: string)
    ensures DistinctIris(Deduped(shapes, seen))
    ensures forall s | s in Deduped(shapes, seen) :: s.iri !in seen && s in shapes
    ensures iri !in seen ==> Find(Deduped(shapes, seen), iri) == Find(shapes, iri)
  {
    if shapes == [] {
    } else {
      var more := if shapes[0].iri in seen then seen else seen + {shapes[0].iri};
      DedupedKeepsFirst(shapes[1..], more, iri);
      if shapes[0].iri !in seen {
        assert Deduped(shapes, seen)[1..] == Deduped(shapes[1..], more);
      }
    }
  }

  lemma {:induction false} FindInDistinct(shapes: seq<Shape>, k: nat)
    requires DistinctIris(shapes) && k < |shapes|
    ensures Find(shapes, shapes[k].iri) == Some(shapes[k])
  {
    if k == 0 {
    } else {
      FindInDistinct(shapes[1..], k - 1);
    }
  }

  lemma {:induction false} FindIsThere(shapes: seq<Shape>, iri: string)
    ensures Find(shapes, iri).None? <==> forall s | s in shapes :: s.iri != iri
    ensures Find(shapes, iri).Some? ==> Find(shapes, iri).value in shapes && Find(shapes, iri).value.iri == iri
  {
    if shapes == [] {
    } else {
      FindIsThere(shapes[1..], iri);
      assert forall s | s in shapes :: s == shapes[0] || s in shapes[1..];
    }
  }

  lemma {:induction false} IndexFinds(kept: seq<Shape>)
    requires DistinctIris(kept)
    ensures forall iri | iri in Index(kept) :: Index(kept)[iri] < |kept| && kept[Index(kept)[iri]].iri == iri
    ensures forall s | s in kept :: s.iri in Index(kept)
  {
    if kept == [] {
    } else {
      IndexFinds(kept[..|kept| - 1]);
    }
  }

  lemma {:induction false} PlacedKeeps(sorted: seq<Shape>, s: Shape)
    ensures multiset(Placed(sorted, s)) == multiset(sorted) + multiset{s}
  {
    if sorted != [] && !KeyLe(OrderKey(sorted[|sorted| - 1]), OrderKey(s)) {
      PlacedKeeps(sorted[..|sorted| - 1], s);
      assert sorted == sorted[..|sorted| - 1] + [sorted[|sorted| - 1]];
    }
  }

  lemma {:induction false} SortedKeeps(shapes: seq<Shape>)
    ensures multiset(Sorted(shapes)) == multiset(shapes)
  {
    if shapes == [] {
    } else {
      SortedKeeps(shapes[..|shapes| - 1]);
      PlacedKeeps(Sorted(shapes[..|shapes| - 1]), shapes[|shapes| - 1]);
      assert shapes == shapes[..|shapes| - 1] + [shapes[|shapes| - 1]];
    }
  }

  lemma {:induction false} SameMembers(a: seq<Shape>, b: seq<Shape>)
    requires multiset(a) == multiset(b)
    ensures forall s :: s in a <==> s in b
  {
    forall s
      ensures s in a <==> s in b
    {
      assert s in a <==> s in multiset(a);
      assert s in b <==> s in multiset(b);
    }
  }

  /** Distinctness is a matter of what is there, not of where. */
  lemma {:induction false} DistinctAnyOrder(a: seq<Shape>, b: seq<Shape>)
    requires DistinctIris(a) && multiset(a) == multiset(b)
    ensures DistinctIris(b)
  {
    SameMembers(a, b);
    forall i, j | 0 <= i < j < |b|
      ensures b[i].iri != b[j].iri
    {
      if b[i] == b[j] {
        TwiceThere(b, i, j);
        OnceThere(a, b[i]);
        assert false;
      }
      assert b[i] in a && b[j] in a;
      var p :| 0 <= p < |a| && a[p] == b[i];
      var q :| 0 <= q < |a| && a[q] == b[j];
      assert p < q || q < p;
    }
  }

  lemma {:induction false} TwiceThere(b: seq<Shape>, i: nat, j: nat)
    requires i < j < |b| && b[i] == b[j]
    ensures multiset(b)[b[i]] >= 2
  {
    assert b == b[..j] + [b[j]] + b[j + 1..];
    assert b[i] in b[..j];
  }

  lemma {:induction false} OnceThere(a: seq<Shape>, s: Shape)
    requires DistinctIris(a)
    ensures multiset(a)[s] <= 1
  {
    if s in a {
      var p :| 0 <= p < |a| && a[p] == s;
      assert a == a[..p] + [a[p]] + a[p + 1..];
      assert s !in a[..p] && s !in a[p + 1..];
    }
  }

  /** Of distinct shapes in any order, the index finds what a search does. */
  lemma {:induction false} IndexAgreesWithSearch(shapes: seq<Shape>, kept: seq<Shape>, iri: string)
    requires DistinctIris(shapes) && DistinctIris(kept) && multiset(shapes) == multiset(kept)
    ensures var at := Index(kept);
            if iri in at then at[iri] < |kept| && Find(shapes, iri) == Some(kept[at[iri]])
            else Find(shapes, iri) == None
  {
    hide DistinctIris, Index;
    SameMembers(shapes, kept);
    IndexFinds(kept);
    FindIsThere(shapes, iri);
    if iri in Index(kept) {
      var s := kept[Index(kept)[iri]];
      assert s in shapes;
      var k :| 0 <= k < |shapes| && shapes[k] == s;
      FindInDistinct(shapes, k);
    }
  }

  /** A lookup answers as a search through what was given would. */
  lemma {:induction false} LookupAgreesWithSearch(shapes: seq<Shape>, rejections: seq<Rejection>, iri: string)
    ensures Lookup(Built(shapes, rejections), iri) == Find(shapes, iri)
  {
    hide DistinctIris, Index, Find, Sorted, Deduped, Ties;
    var deduped := Deduped(shapes, {});
    DedupedKeepsFirst(shapes, {}, iri);
    SortedKeeps(deduped);
    DistinctAnyOrder(deduped, Sorted(deduped));
    IndexAgreesWithSearch(deduped, Sorted(deduped), iri);
  }

  // ------------------------------------------------------------------ one order

  ghost predicate InOrder(shapes: seq<Shape>) {
    forall i, j | 0 <= i < j < |shapes| :: KeyLe(OrderKey(shapes[i]), OrderKey(shapes[j]))
  }

  lemma {:induction false} PlacedInOrder(sorted: seq<Shape>, s: Shape)
    requires InOrder(sorted)
    ensures InOrder(Placed(sorted, s))
    ensures forall x | x in Placed(sorted, s) :: x == s || x in sorted
  {
    if sorted == [] {
    } else {
      var last := sorted[|sorted| - 1];
      KeysAreOrdered(OrderKey(last), OrderKey(s), OrderKey(s));
      if KeyLe(OrderKey(last), OrderKey(s)) {
        forall i | 0 <= i < |sorted|
          ensures KeyLe(OrderKey(sorted[i]), OrderKey(s))
        {
          KeysAreOrdered(OrderKey(sorted[i]), OrderKey(last), OrderKey(s));
        }
      } else {
        var front := Placed(sorted[..|sorted| - 1], s);
        PlacedInOrder(sorted[..|sorted| - 1], s);
        forall i | 0 <= i < |front|
          ensures KeyLe(OrderKey(front[i]), OrderKey(last))
        {
          assert front[i] in front;
        }
      }
    }
  }

  lemma {:induction false} SortedInOrder(shapes: seq<Shape>)
    ensures InOrder(Sorted(shapes))
  {
    if shapes == [] {
    } else {
      SortedInOrder(shapes[..|shapes| - 1]);
      PlacedInOrder(Sorted(shapes[..|shapes| - 1]), shapes[|shapes| - 1]);
    }
  }

  /** The sort is stable: what is in order stands. */
  lemma {:induction false} InOrderStands(shapes: seq<Shape>)
    requires InOrder(shapes)
    ensures Sorted(shapes) == shapes
  {
    if shapes == [] {
    } else {
      InOrderStands(shapes[..|shapes| - 1]);
      assert shapes == shapes[..|shapes| - 1] + [shapes[|shapes| - 1]];
    }
  }

  predicate Tied(kept: seq<Shape>) {
    exists i, j | 0 <= i < j < |kept| :: OrderKey(kept[i]) == OrderKey(kept[j])
  }

  /** In order, two shapes that tie have neighbours that tie. */
  lemma {:induction false} TiesAreNeighbours(kept: seq<Shape>)
    requires InOrder(kept)
    ensures Tied(kept) <==> exists i: nat :: TiedAt(kept, i)
  {
    if Tied(kept) {
      var i, j :| 0 <= i < j < |kept| && OrderKey(kept[i]) == OrderKey(kept[j]);
      KeysAreOrdered(OrderKey(kept[i]), OrderKey(kept[i + 1]), OrderKey(kept[j]));
      if i + 1 < j {
        assert KeyLe(OrderKey(kept[i + 1]), OrderKey(kept[j]));
      }
      assert TiedAt(kept, i);
    }
    if i: nat :| TiedAt(kept, i) {
      assert OrderKey(kept[i]) == OrderKey(kept[i + 1]);
    }
  }

  /** `r` names two shapes that stand together, from the `i`-th on, and that the order cannot tell apart. */
  ghost predicate NamesTie(kept: seq<Shape>, i: nat, r: Rejection) {
    exists k: nat :: i <= k && TiedAt(kept, k) && r == AmbiguousOrder(kept[k].iri, kept[k + 1].iri)
  }

  lemma {:induction false} FirstTie(kept: seq<Shape>, i: nat, r: Rejection)
    requires i + 1 < |kept|
    ensures NamesTie(kept, i, r)
            <==> NamesTie(kept, i + 1, r) || (TiedAt(kept, i) && r == AmbiguousOrder(kept[i].iri, kept[i + 1].iri))
  {
    if NamesTie(kept, i, r) {
      var k: nat :| i <= k && TiedAt(kept, k) && r == AmbiguousOrder(kept[k].iri, kept[k + 1].iri);
      assert k > i ==> NamesTie(kept, i + 1, r);
    }
  }

  /** What is reported is what was rejected before, which stays first, and exactly the neighbouring ties. */
  lemma {:induction false} TiesAreReported(kept: seq<Shape>, i: nat, rejections: seq<Rejection>)
    ensures rejections <= Ties(kept, i, rejections)
    ensures forall r :: r in Ties(kept, i, rejections) <==> r in rejections || NamesTie(kept, i, r)
    decreases |kept| - i
  {
    if i + 1 < |kept| {
      var tie := AmbiguousOrder(kept[i].iri, kept[i + 1].iri);
      var more := if TiedAt(kept, i) && tie !in rejections then rejections + [tie] else rejections;
      TiesAreReported(kept, i + 1, more);
      assert Ties(kept, i, rejections) == Ties(kept, i + 1, more);
      hide Ties, NamesTie, TiedAt;
      forall r
        ensures r in Ties(kept, i + 1, more) <==> r in rejections || NamesTie(kept, i, r)
      {
        FirstTie(kept, i, r);
      }
    }
  }

  lemma {:induction false} TiesOnce(kept: seq<Shape>, i: nat, rejections: seq<Rejection>)
    requires forall r | NamesTie(kept, i, r) :: r in rejections
    ensures Ties(kept, i, rejections) == rejections
    decreases |kept| - i
  {
    if i + 1 < |kept| {
      var tie := AmbiguousOrder(kept[i].iri, kept[i + 1].iri);
      FirstTie(kept, i, tie);
      forall r | NamesTie(kept, i + 1, r)
        ensures r in rejections
      {
        FirstTie(kept, i, r);
      }
      TiesOnce(kept, i + 1, rejections);
    }
  }

  lemma {:induction false} DistinctStands(shapes: seq<Shape>, seen: set<string>)
    requires DistinctIris(shapes) && forall s | s in shapes :: s.iri !in seen
    ensures Deduped(shapes, seen) == shapes
  {
    if shapes == [] {
    } else {
      forall s | s in shapes[1..]
        ensures s.iri !in seen + {shapes[0].iri}
      {
        var k :| 0 <= k < |shapes| - 1 && shapes[1..][k] == s;
        assert shapes[k + 1] == s;
      }
      DistinctStands(shapes[1..], seen + {shapes[0].iri});
    }
  }

  lemma {:induction false} KeptIsDistinct(shapes: seq<Shape>)
    ensures DistinctIris(Sorted(Deduped(shapes, {})))
  {
    DedupedKeepsFirst(shapes, {}, "");
    SortedKeeps(Deduped(shapes, {}));
    DistinctAnyOrder(Deduped(shapes, {}), Sorted(Deduped(shapes, {})));
  }

  /** What is reported beside what was rejected before is exactly each two kept shapes, by name, that stand together
      and that the order cannot tell apart; where any two shapes tie, two that stand together do. */
  lemma {:induction false} TiesAreRejected(shapes: seq<Shape>, rejections: seq<Rejection>)
    ensures var o := Built(shapes, rejections);
            && rejections <= o.rejections
            && (forall r :: r in o.rejections <==> r in rejections || NamesTie(o.shapes, 0, r))
            && (Tied(o.shapes) <==> exists r :: NamesTie(o.shapes, 0, r))
  {
    var o := Built(shapes, rejections);
    SortedInOrder(Deduped(shapes, {}));
    TiesAreNeighbours(o.shapes);
    TiesAreReported(o.shapes, 0, rejections);
    if k: nat :| TiedAt(o.shapes, k) {
      assert NamesTie(o.shapes, 0, AmbiguousOrder(o.shapes[k].iri, o.shapes[k + 1].iri));
    }
  }

  /** Built again from what it holds, it is the same, rejections and all. */
  lemma {:induction false} BuiltOnce(shapes: seq<Shape>, rejections: seq<Rejection>)
    ensures var o := Built(shapes, rejections); Built(o.shapes, o.rejections) == o
  {
    var o := Built(shapes, rejections);
    KeptIsDistinct(shapes);
    DistinctStands(o.shapes, {});
    SortedInOrder(Deduped(shapes, {}));
    InOrderStands(o.shapes);
    TiesAreReported(o.shapes, 0, rejections);
    TiesOnce(o.shapes, 0, o.rejections);
  }

  // ------------------------------------------------------------------ and only the set of shapes decides it

  lemma {:induction false} EmptyTogether(a: seq<Shape>, b: seq<Shape>)
    requires forall s :: s in a <==> s in b
    ensures a == [] <==> b == []
  {
    if a != [] {
      assert a[0] in a;
    }
    if b != [] {
      assert b[0] in b;
    }
  }

  lemma {:induction false} UntiedOrderIsOne(a: seq<Shape>, b: seq<Shape>)
    requires InOrder(a) && InOrder(b) && !Tied(a) && !Tied(b)
    requires forall s :: s in a <==> s in b
    ensures a == b
  {
    EmptyTogether(a, b);
    if a == [] {
    } else {
      assert a[0] in a && a[0] in b;
      assert b[0] in b && b[0] in a;
      HeadsAgree(a, b);
      TailsAgree(a, b);
      UntiedOrderIsOne(a[1..], b[1..]);
      assert a == [a[0]] + a[1..] && b == [b[0]] + b[1..];
    }
  }

  lemma {:induction false} HeadsAgree(a: seq<Shape>, b: seq<Shape>)
    requires InOrder(a) && InOrder(b) && !Tied(b) && a != [] && b != []
    requires a[0] in b && b[0] in a
    ensures a[0] == b[0]
  {
    var i :| 0 <= i < |a| && a[i] == b[0];
    var j :| 0 <= j < |b| && b[j] == a[0];
    FirstIsLeast(a, i);
    FirstIsLeast(b, j);
    KeysAreOrdered(OrderKey(a[0]), OrderKey(b[0]), OrderKey(a[0]));
    assert OrderKey(b[0]) == OrderKey(b[j]);
  }

  lemma {:induction false} FirstIsLeast(shapes: seq<Shape>, i: nat)
    requires InOrder(shapes) && i < |shapes|
    ensures KeyLe(OrderKey(shapes[0]), OrderKey(shapes[i]))
  {
    if i == 0 {
      KeysAreOrdered(OrderKey(shapes[0]), OrderKey(shapes[0]), OrderKey(shapes[0]));
    }
  }

  lemma {:induction false} TailsAgree(a: seq<Shape>, b: seq<Shape>)
    requires !Tied(a) && !Tied(b) && a != [] && b != [] && a[0] == b[0]
    requires forall s :: s in a <==> s in b
    ensures forall s :: s in a[1..] <==> s in b[1..]
  {
    forall s
      ensures s in a[1..] <==> s in b[1..]
    {
      InTail(a, s);
      InTail(b, s);
    }
  }

  lemma {:induction false} InTail(a: seq<Shape>, s: Shape)
    requires !Tied(a) && a != []
    ensures s in a[1..] <==> s in a && s != a[0]
  {
    if s in a[1..] {
      var k :| 0 <= k < |a| - 1 && a[1..][k] == s;
      assert a[k + 1] == s && OrderKey(a[0]) != OrderKey(a[k + 1]);
    }
    if s in a && s != a[0] {
      var k :| 0 <= k < |a| && a[k] == s;
      assert a[1..][k - 1] == s;
    }
  }

  lemma {:induction false} UntiedAnyOrder(a: seq<Shape>, b: seq<Shape>)
    requires !Tied(a) && DistinctIris(b) && forall s :: s in a <==> s in b
    ensures !Tied(b)
  {
    forall i, j | 0 <= i < j < |b|
      ensures OrderKey(b[i]) != OrderKey(b[j])
    {
      assert b[i] in a && b[j] in a && b[i] != b[j];
      var p :| 0 <= p < |a| && a[p] == b[i];
      var q :| 0 <= q < |a| && a[q] == b[j];
      assert p < q || q < p;
    }
  }

  /** Two ways to write one set of shapes build one value, when no order was ambiguous. */
  lemma {:induction false} OrderOfWritingIsIrrelevant(a: seq<Shape>, b: seq<Shape>, rejections: seq<Rejection>)
    requires DistinctIris(a) && multiset(a) == multiset(b)
    requires forall r | r in Built(a, rejections).rejections :: !r.AmbiguousOrder?
    ensures Built(a, rejections) == Built(b, rejections)
  {
    DistinctAnyOrder(a, b);
    DistinctStands(a, {});
    DistinctStands(b, {});
    var x, y := Sorted(a), Sorted(b);
    SortedKeeps(a);
    SortedKeeps(b);
    SortedInOrder(a);
    SortedInOrder(b);
    SameMembers(x, y);
    TiesAreRejected(a, rejections);
    DistinctAnyOrder(b, y);
    UntiedAnyOrder(x, y);
    UntiedOrderIsOne(x, y);
  }
}
