/** The walk from an operator back to the sources it reads: which operators a relation needs, in what
    order they are built, and that building each once is the recursive meaning of the relation. */
module Plan {
  import opened Results
  import Text

  /** The operators of the algebra: what one reads, and for a source where it reads from. */
  datatype Op =
    | Source(uri: string)
    | Project(input: nat)
    | Extend(input: nat)
    | Rename(input: nat)
    | Filter(input: nat)
    | Join(left: nat, right: nat)
    | Union(left: nat, right: nat)
    | GroupBy(input: nat)
    | Distinct(input: nat)
    | EmitVertex(input: nat)
    | EmitEdge(input: nat)
    | Sink(input: nat)
    | Empty

  datatype Failure = PastTheEnd | NotInOrder(at: nat, input: nat) | NotExecuted(op: Op) | NotPlanned
      | Refused(reason: string)

  function Inputs(op: Op): seq<nat> {
    match op
    case Source(_) => []
    case Empty => []
    case Join(l, r) => [l, r]
    case Union(l, r) => [l, r]
    case _ => [op.input]
  }

  predicate Executable(op: Op) {
    op.Source? || op.Project? || op.Filter? || op.Join? || op.Union? || op.GroupBy? || op.Distinct?
  }

  // ------------------------------------------------------------------ reachability

  predicate Reads(ops: seq<Op>, i: nat, d: nat) {
    i < |ops| && d in Inputs(ops[i])
  }

  ghost predicate IsPath(ops: seq<Op>, path: seq<nat>) {
    path != [] && forall k | 0 <= k < |path| - 1 :: Reads(ops, path[k], path[k + 1])
  }

  /** `to` is `from`, or read by what `from` reads, and so on. */
  ghost predicate Reaches(ops: seq<Op>, from: nat, to: nat) {
    exists path: seq<nat> :: IsPath(ops, path) && path[0] == from && path[|path| - 1] == to
  }

  /** Some operator the index depends on reads an index not below its own. */
  ghost predicate Broken(ops: seq<Op>, index: nat) {
    exists i: nat, d: nat :: Reaches(ops, index, i) && Reads(ops, i, d) && d >= i
  }

  lemma {:induction false} ReachesItself(ops: seq<Op>, i: nat)
    ensures Reaches(ops, i, i)
  {
    assert IsPath(ops, [i]);
  }

  lemma {:induction false} ReachFurther(ops: seq<Op>, from: nat, i: nat, d: nat)
    requires Reaches(ops, from, i) && Reads(ops, i, d)
    ensures Reaches(ops, from, d)
  {
    var path: seq<nat> :| IsPath(ops, path) && path[0] == from && path[|path| - 1] == i;
    assert IsPath(ops, path + [d]);
  }

  lemma {:induction false} ReachFrom(ops: seq<Op>, i: nat, d: nat, to: nat)
    requires Reads(ops, i, d) && Reaches(ops, d, to)
    ensures Reaches(ops, i, to)
  {
    var path: seq<nat> :| IsPath(ops, path) && path[0] == d && path[|path| - 1] == to;
    var longer := [i] + path;
    forall k | 0 <= k < |longer| - 1 ensures Reads(ops, longer[k], longer[k + 1]) {
      if k > 0 {
        assert longer[k] == path[k - 1] && longer[k + 1] == path[k];
      }
    }
    assert IsPath(ops, longer);
  }

  // ------------------------------------------------------------------ said of the operators themselves

  /** Every operator under `i` reads indices below its own. */
  predicate InOrder(ops: seq<Op>, i: nat) {
    i < |ops|
    && match ops[i]
       case Source(_) => true
       case Empty => true
       case Join(l, r) => l < i && r < i && InOrder(ops, l) && InOrder(ops, r)
       case Union(l, r) => l < i && r < i && InOrder(ops, l) && InOrder(ops, r)
       case Project(o) => o < i && InOrder(ops, o)
       case Extend(o) => o < i && InOrder(ops, o)
       case Rename(o) => o < i && InOrder(ops, o)
       case Filter(o) => o < i && InOrder(ops, o)
       case GroupBy(o) => o < i && InOrder(ops, o)
       case Distinct(o) => o < i && InOrder(ops, o)
       case EmitVertex(o) => o < i && InOrder(ops, o)
       case EmitEdge(o) => o < i && InOrder(ops, o)
       case Sink(o) => o < i && InOrder(ops, o)
  }

  /** The operator and all under it. */
  function Under(ops: seq<Op>, i: nat): set<nat>
    requires InOrder(ops, i)
  {
    {i} + match ops[i]
          case Source(_) => {}
          case Empty => {}
          case Join(l, r) => Under(ops, l) + Under(ops, r)
          case Union(l, r) => Under(ops, l) + Under(ops, r)
          case Project(o) => Under(ops, o)
          case Extend(o) => Under(ops, o)
          case Rename(o) => Under(ops, o)
          case Filter(o) => Under(ops, o)
          case GroupBy(o) => Under(ops, o)
          case Distinct(o) => Under(ops, o)
          case EmitVertex(o) => Under(ops, o)
          case EmitEdge(o) => Under(ops, o)
          case Sink(o) => Under(ops, o)
  }

  /** The sources a relation is derived from: those of its one input, or of its left and of its right. */
  function Sources(ops: seq<Op>, i: nat): set<string>
    requires InOrder(ops, i)
  {
    match ops[i]
    case Source(u) => {u}
    case Empty => {}
    case Join(l, r) => Sources(ops, l) + Sources(ops, r)
    case Union(l, r) => Sources(ops, l) + Sources(ops, r)
    case Project(o) => Sources(ops, o)
    case Extend(o) => Sources(ops, o)
    case Rename(o) => Sources(ops, o)
    case Filter(o) => Sources(ops, o)
    case GroupBy(o) => Sources(ops, o)
    case Distinct(o) => Sources(ops, o)
    case EmitVertex(o) => Sources(ops, o)
    case EmitEdge(o) => Sources(ops, o)
    case Sink(o) => Sources(ops, o)
  }

  /** `d` is what the operator names as its input, its left or its right. */
  predicate Operand(op: Op, d: nat) {
    match op
    case Source(_) => false
    case Empty => false
    case Join(l, r) => d == l || d == r
    case Union(l, r) => d == l || d == r
    case _ => d == op.input
  }

  lemma {:induction false} ReadsAreOperands(ops: seq<Op>, i: nat, d: nat)
    ensures Reads(ops, i, d) <==> i < |ops| && Operand(ops[i], d)
  {
  }

  lemma {:induction false} ReachesByOperand(ops: seq<Op>, i: nat, j: nat)
    requires Reaches(ops, i, j) && j != i
    ensures exists d: nat :: Reads(ops, i, d) && Reaches(ops, d, j)
  {
    var path: seq<nat> :| IsPath(ops, path) && path[0] == i && path[|path| - 1] == j;
    assert Reads(ops, path[0], path[1]);
    assert forall k | 0 <= k < |path| - 2 :: path[1..][k] == path[k + 1];
    assert IsPath(ops, path[1..]);
  }

  /** What an operator reaches is what is under it. */
  lemma {:induction false} ReachedIsUnder(ops: seq<Op>, i: nat, j: nat)
    requires InOrder(ops, i)
    ensures Reaches(ops, i, j) <==> j in Under(ops, i)
    decreases i
  {
    hide Reaches;
    ReachesItself(ops, i);
    if Reaches(ops, i, j) && j != i {
      ReachesByOperand(ops, i, j);
      var d: nat :| Reads(ops, i, d) && Reaches(ops, d, j);
      ReadsAreOperands(ops, i, d);
      ReachedIsUnder(ops, d, j);
    }
    if j in Under(ops, i) && j != i {
      var d: nat :| Operand(ops[i], d) && d < i && InOrder(ops, d) && j in Under(ops, d);
      ReachedIsUnder(ops, d, j);
      ReadsAreOperands(ops, i, d);
      ReachFrom(ops, i, d, j);
    }
  }

  lemma {:induction false} BrokenBelow(ops: seq<Op>, i: nat)
    requires Broken(ops, i)
    ensures exists d: nat :: Reads(ops, i, d) && (d >= i || Broken(ops, d))
  {
    var j: nat, e: nat :| Reaches(ops, i, j) && Reads(ops, j, e) && e >= j;
    if j != i {
      ReachesByOperand(ops, i, j);
      var d: nat :| Reads(ops, i, d) && Reaches(ops, d, j);
      assert Broken(ops, d);
    }
  }

  lemma {:induction false} UnbrokenStep(ops: seq<Op>, i: nat)
    requires i < |ops|
    ensures !Broken(ops, i) <==> forall d: nat | Reads(ops, i, d) :: d < i && !Broken(ops, d)
  {
    hide Broken;
    if Broken(ops, i) {
      BrokenBelow(ops, i);
    } else {
      forall d: nat | Reads(ops, i, d)
        ensures d < i && !Broken(ops, d)
      {
        InputIsUnbroken(ops, i, d);
      }
    }
  }

  /** A walk is unbroken exactly when everything under the index reads below itself. */
  lemma {:induction false} UnbrokenIsInOrder(ops: seq<Op>, i: nat)
    requires i < |ops|
    ensures !Broken(ops, i) <==> InOrder(ops, i)
    decreases i
  {
    hide Broken;
    UnbrokenStep(ops, i);
    forall d: nat | Reads(ops, i, d) && d < i
      ensures !Broken(ops, d) <==> InOrder(ops, d)
    {
      UnbrokenIsInOrder(ops, d);
    }
    forall d: nat
      ensures Reads(ops, i, d) <==> Operand(ops[i], d)
    {
      ReadsAreOperands(ops, i, d);
    }
    hide Reads, Inputs;
    InOrderStep(ops, i);
  }

  lemma {:induction false} InOrderStep(ops: seq<Op>, i: nat)
    requires i < |ops|
    ensures InOrder(ops, i) <==> forall d: nat | Operand(ops[i], d) :: d < i && InOrder(ops, d)
  {
    match ops[i] {
      case Source(_) =>
      case Empty =>
      case Join(l, r) => assert Operand(ops[i], l) && Operand(ops[i], r);
      case Union(l, r) => assert Operand(ops[i], l) && Operand(ops[i], r);
      case _ => assert Operand(ops[i], ops[i].input);
    }
  }

  lemma {:induction false} SourcesAreUnder(ops: seq<Op>, i: nat, u: string)
    requires InOrder(ops, i)
    ensures u in Sources(ops, i) <==> exists j :: j in Under(ops, i) && j < |ops| && ops[j] == Source(u)
    decreases i
  {
    if ops[i].Source? || ops[i].Empty? {
      assert Under(ops, i) == {i};
    } else {
      forall d: nat | Operand(ops[i], d)
        ensures d < i && InOrder(ops, d) && Under(ops, d) <= Under(ops, i) && Sources(ops, d) <= Sources(ops, i)
        ensures u in Sources(ops, d) <==> exists j :: j in Under(ops, d) && j < |ops| && ops[j] == Source(u)
      {
        SourcesAreUnder(ops, d, u);
      }
      if u in Sources(ops, i) {
        var d: nat :| Operand(ops[i], d) && u in Sources(ops, d);
        var j :| j in Under(ops, d) && j < |ops| && ops[j] == Source(u);
        assert j in Under(ops, i);
      }
      if j :| j in Under(ops, i) && j < |ops| && ops[j] == Source(u) {
        assert j != i;
        var d: nat :| Operand(ops[i], d) && j in Under(ops, d);
      }
    }
  }

  /** A set that holds the index and what its members read holds everything the index reaches. */
  lemma {:induction false} ClosedHoldsReachable(ops: seq<Op>, marked: seq<bool>, path: seq<nat>)
    requires IsPath(ops, path)
    requires path[0] < |marked| && marked[path[0]]
    requires forall i: nat, d: nat | i < |marked| && marked[i] && Reads(ops, i, d) :: d < |marked| && marked[d]
    ensures path[|path| - 1] < |marked| && marked[path[|path| - 1]]
    decreases |path|
  {
    if |path| > 1 {
      assert Reads(ops, path[0], path[1]);
      assert forall k | 0 <= k < |path| - 2 :: path[1..][k] == path[k + 1];
      ClosedHoldsReachable(ops, marked, path[1..]);
    }
  }

  // ------------------------------------------------------------------ evaluation_order

  ghost predicate IsOrder(order: seq<nat>, ops: seq<Op>, index: nat) {
    && (forall i, j | 0 <= i < j < |order| :: order[i] < order[j])
    && forall i: nat :: i in order <==> Reaches(ops, index, i)
  }

  /** The ops above `at` are settled: each marked one is reached, and reads marked ops below it. */
  ghost predicate Settled(ops: seq<Op>, index: nat, needed: seq<bool>, at: nat) {
    && |needed| == index + 1 <= |ops| && needed[index]
    && (forall i: nat | i <= index && needed[i] :: Reaches(ops, index, i))
    && forall i: nat, d: nat | at <= i <= index && needed[i] && Reads(ops, i, d) :: d < i && needed[d]
  }

  method MarkInputs(ops: seq<Op>, index: nat, needed: array<bool>, i: nat) returns (r: Result<(), Failure>)
    requires i <= index < |ops| && needed.Length == index + 1 && needed[i]
    requires Settled(ops, index, needed[..], i + 1)
    modifies needed
    ensures r.Ok? ==> Settled(ops, index, needed[..], i)
    ensures r.Ok? ==> forall d | d in Inputs(ops[i]) :: d < i
    ensures r.Err? ==> exists d :: d in Inputs(ops[i]) && d >= i && r.error == NotInOrder(i, d)
  {
    hide Reaches;
    var inputs := Inputs(ops[i]);
    for k := 0 to |inputs|
      invariant Settled(ops, index, needed[..], i + 1) && needed[i]
      invariant forall j | 0 <= j < k :: inputs[j] < i && needed[inputs[j]]
    {
      var d := inputs[k];
      assert d in inputs && Reads(ops, i, d);
      if d >= i {
        return Err(NotInOrder(i, d));
      }
      ReachFurther(ops, index, i, d);
      needed[d] := true;
    }
    r := Ok(());
  }

  lemma {:induction false} OrderIsUnder(order: seq<nat>, ops: seq<Op>, index: nat)
    requires IsOrder(order, ops, index) && InOrder(ops, index)
    ensures forall i :: i in order <==> i in Under(ops, index)
  {
    forall i: nat
      ensures i in order <==> i in Under(ops, index)
    {
      ReachedIsUnder(ops, index, i);
    }
  }

  lemma {:induction false} BreaksTheWalk(ops: seq<Op>, index: nat, i: nat, d: nat)
    requires Reaches(ops, index, i) && Reads(ops, i, d) && d >= i
    ensures Broken(ops, index)
  {
  }

  /** The index is past the end, or something it reaches reads an operand not below itself. */
  ghost predicate RefusesOrder(error: Failure, ops: seq<Op>, index: nat) {
    match error
    case PastTheEnd => index >= |ops|
    case NotInOrder(i, d) => i < |ops| && Reaches(ops, index, i) && Operand(ops[i], d) && d >= i
    case _ => false
  }

  method EvaluationOrder(ops: seq<Op>, index: nat) returns (r: Result<seq<nat>, Failure>)
    ensures r.Ok? <==> index < |ops| && !Broken(ops, index)
    ensures r.Ok? <==> InOrder(ops, index)
    ensures r.Ok? ==> IsOrder(r.value, ops, index) && forall i :: i in r.value <==> i in Under(ops, index)
    ensures r.Err? ==> RefusesOrder(r.error, ops, index)
  {
    hide Reaches, Broken, Under;
    if index >= |ops| {
      return Err(PastTheEnd);
    }
    UnbrokenIsInOrder(ops, index);
    hide InOrder;
    var needed := new bool[index + 1](i => i == index);
    ReachesItself(ops, index);
    var i := index + 1;
    while i > 0
      invariant 0 <= i <= index + 1
      invariant Settled(ops, index, needed[..], i)
    {
      i := i - 1;
      if needed[i] {
        var marked := MarkInputs(ops, index, needed, i);
        if marked.Err? {
          ghost var d :| d in Inputs(ops[i]) && d >= i && marked.error == NotInOrder(i, d);
          ReadsAreOperands(ops, i, d);
          BreaksTheWalk(ops, index, i, d);
          return Err(marked.error);
        }
      }
    }
    ghost var marks := needed[..];
    var order: seq<nat> := [];
    for j := 0 to index + 1
      invariant forall a, b | 0 <= a < b < |order| :: order[a] < order[b]
      invariant forall k: nat :: k in order <==> k < j && marks[k]
      invariant forall a | 0 <= a < |order| :: order[a] < j
      invariant needed[..] == marks
    {
      if needed[j] {
        order := order + [j];
      }
    }
    MarkedAreReached(ops, index, marks);
    OrderIsUnder(order, ops, index);
    r := Ok(order);
  }

  lemma {:induction false} MarkedAreReached(ops: seq<Op>, index: nat, marks: seq<bool>)
    requires Settled(ops, index, marks, 0)
    ensures forall i: nat :: (i < |marks| && marks[i]) <==> Reaches(ops, index, i)
    ensures !Broken(ops, index)
  {
    forall i: nat | Reaches(ops, index, i) ensures i < |marks| && marks[i] {
      var path: seq<nat> :| IsPath(ops, path) && path[0] == index && path[|path| - 1] == i;
      ClosedHoldsReachable(ops, marks, path);
    }
  }

  // ------------------------------------------------------------------ derived_from

  /** The keys of the sources the index is derived from, each once, in order. */
  method DerivedFrom(ops: seq<Op>, index: nat) returns (r: Result<seq<string>, Failure>)
    ensures r.Ok? <==> index < |ops| && !Broken(ops, index)
    ensures r.Ok? ==> Text.Ascending(r.value)
    ensures r.Ok? <==> InOrder(ops, index)
    ensures r.Ok? ==> forall u :: u in r.value <==> u in Sources(ops, index)
    ensures r.Ok? ==> forall u :: u in r.value <==>
      exists i: nat :: i < |ops| && Reaches(ops, index, i) && ops[i] == Source(u)
  {
    var order := EvaluationOrder(ops, index);
    if order.Err? {
      return Err(order.error);
    }
    var keys: seq<string> := [];
    forall k | 0 <= k < |order.value| ensures order.value[k] < |ops| {
      assert order.value[k] in order.value;
      ReachedIsInRange(ops, index, order.value[k]);
    }
    for k := 0 to |order.value|
      invariant Text.Ascending(keys)
      invariant forall u :: u in keys <==> exists j :: 0 <= j < k && ops[order.value[j]] == Source(u)
    {
      var op := ops[order.value[k]];
      if op.Source? {
        keys := Text.Insert(keys, op.uri);
      }
    }
    forall u ensures u in keys <==> exists i: nat :: i < |ops| && Reaches(ops, index, i) && ops[i] == Source(u) {
      if i: nat :| i < |ops| && Reaches(ops, index, i) && ops[i] == Source(u) {
        assert i in order.value;
      }
      if j :| 0 <= j < |order.value| && ops[order.value[j]] == Source(u) {
        assert order.value[j] in order.value;
      }
    }
    forall u
      ensures u in keys <==> u in Sources(ops, index)
    {
      SourcesAreUnder(ops, index, u);
    }
    r := Ok(keys);
  }

  /** In an unbroken walk every read goes down, so nothing past the index is reached. */
  lemma {:induction false} ReachedIsInRange(ops: seq<Op>, index: nat, i: nat)
    requires index < |ops| && !Broken(ops, index) && Reaches(ops, index, i)
    ensures i <= index
  {
    var path: seq<nat> :| IsPath(ops, path) && path[0] == index && path[|path| - 1] == i;
    PathGoesDown(ops, path, |path| - 1);
  }

  lemma {:induction false} PathGoesDown(ops: seq<Op>, path: seq<nat>, k: nat)
    requires IsPath(ops, path) && k < |path|
    requires !Broken(ops, path[0])
    ensures path[k] <= path[0]
  {
    if k == 0 {
    } else {
      PathGoesDown(ops, path, k - 1);
      assert IsPath(ops, path[..k]) && path[..k][0] == path[0] && path[..k][k - 1] == path[k - 1];
      assert Reaches(ops, path[0], path[k - 1]) && Reads(ops, path[k - 1], path[k]);
    }
  }

  // ------------------------------------------------------------------ plan_relation

  /** What the engine makes of one operator and the relations it reads. */
  type Engine<!R> = (Op, seq<R>) -> Result<R, Failure>

  /** The recursive meaning of the relation at `i`, its inputs from the first on. */
  function Meaning<R>(engine: Engine<R>, ops: seq<Op>, i: nat): Result<R, Failure>
    requires i < |ops| && !Broken(ops, i)
    decreases i, 1
  {
    if !Executable(ops[i]) then Err(NotExecuted(ops[i]))
    else
      var inputs := Meanings(engine, ops, i, Inputs(ops[i]));
      if inputs.Err? then Err(inputs.error) else engine(ops[i], inputs.value)
  }

  function Meanings<R>(engine: Engine<R>, ops: seq<Op>, i: nat, inputs: seq<nat>): (r: Result<seq<R>, Failure>)
    requires i < |ops| && !Broken(ops, i)
    requires forall d | d in inputs :: Reads(ops, i, d)
    ensures r.Ok? ==> |r.value| == |inputs|
    decreases i, 0, |inputs|
  {
    if inputs == [] then Ok([])
    else
      InputIsUnbroken(ops, i, inputs[0]);
      var first := Meaning(engine, ops, inputs[0]);
      if first.Err? then Err(first.error)
      else
        var rest := Meanings(engine, ops, i, inputs[1..]);
        if rest.Err? then Err(rest.error) else Ok([first.value] + rest.value)
  }

  lemma {:induction false} InputIsUnbroken(ops: seq<Op>, i: nat, d: nat)
    requires i < |ops| && !Broken(ops, i) && Reads(ops, i, d)
    ensures d < i && !Broken(ops, d)
  {
    ReachesItself(ops, i);
    if j: nat, e: nat :| Reaches(ops, d, j) && Reads(ops, j, e) && e >= j {
      ReachFrom(ops, i, d, j);
      assert false;
    }
  }

  function OfOne<R>(engine: Engine<R>, op: Op, a: Result<R, Failure>): Result<R, Failure> {
    if a.Err? then a else engine(op, [a.value])
  }

  function OfTwo<R>(engine: Engine<R>, op: Op, a: Result<R, Failure>, b: Result<R, Failure>): Result<R, Failure> {
    if a.Err? then a else if b.Err? then b else engine(op, [a.value, b.value])
  }

  /** The meaning, said of the operators: a join and a union are of their left and their right, in that order, and
      what makes vertices or edges, or changes names or columns alone, is not executed here. */
  function Means<R>(engine: Engine<R>, ops: seq<Op>, i: nat): Result<R, Failure>
    requires InOrder(ops, i)
  {
    match ops[i]
    case Source(_) => engine(ops[i], [])
    case Join(l, r) => OfTwo(engine, ops[i], Means(engine, ops, l), Means(engine, ops, r))
    case Union(l, r) => OfTwo(engine, ops[i], Means(engine, ops, l), Means(engine, ops, r))
    case Project(o) => OfOne(engine, ops[i], Means(engine, ops, o))
    case Filter(o) => OfOne(engine, ops[i], Means(engine, ops, o))
    case GroupBy(o) => OfOne(engine, ops[i], Means(engine, ops, o))
    case Distinct(o) => OfOne(engine, ops[i], Means(engine, ops, o))
    case Empty => Err(NotExecuted(ops[i]))
    case Extend(_) => Err(NotExecuted(ops[i]))
    case Rename(_) => Err(NotExecuted(ops[i]))
    case EmitVertex(_) => Err(NotExecuted(ops[i]))
    case EmitEdge(_) => Err(NotExecuted(ops[i]))
    case Sink(_) => Err(NotExecuted(ops[i]))
  }

  lemma {:induction false} MeaningsOfTwo<R>(engine: Engine<R>, ops: seq<Op>, i: nat, l: nat, r: nat)
    requires i < |ops| && !Broken(ops, i) && Reads(ops, i, l) && Reads(ops, i, r)
    ensures l < i && r < i && !Broken(ops, l) && !Broken(ops, r)
    ensures var a, b := Meaning(engine, ops, l), Meaning(engine, ops, r);
            Meanings(engine, ops, i, [l, r])
            == if a.Err? then Err(a.error) else if b.Err? then Err(b.error) else Ok([a.value, b.value])
  {
    InputIsUnbroken(ops, i, l);
    InputIsUnbroken(ops, i, r);
    MeaningsOfOne(engine, ops, i, r);
    hide Broken, Meaning;
    assert [l, r][0] == l && [l, r][1..] == [r];
    var a, b := Meaning(engine, ops, l), Meaning(engine, ops, r);
    if a.Ok? && b.Ok? {
      assert [a.value] + [b.value] == [a.value, b.value];
    }
  }

  lemma {:induction false} MeaningsOfOne<R>(engine: Engine<R>, ops: seq<Op>, i: nat, o: nat)
    requires i < |ops| && !Broken(ops, i) && Reads(ops, i, o)
    ensures o < i && !Broken(ops, o)
    ensures var a := Meaning(engine, ops, o);
            Meanings(engine, ops, i, [o]) == if a.Err? then Err(a.error) else Ok([a.value])
  {
    InputIsUnbroken(ops, i, o);
    hide Broken, Meaning;
    assert [o][0] == o && [o][1..] == [];
    var a := Meaning(engine, ops, o);
    if a.Ok? {
      assert [a.value] + [] == [a.value];
    }
  }

  /** The walk over an operator's inputs means what the operator says. */
  lemma {:induction false} MeaningIsMeans<R>(engine: Engine<R>, ops: seq<Op>, i: nat)
    requires InOrder(ops, i) && !Broken(ops, i)
    ensures Meaning(engine, ops, i) == Means(engine, ops, i)
    decreases i, 1
  {
    InOrderStep(ops, i);
    hide Broken, InOrder;
    if ops[i].Join? {
      TwoMean(engine, ops, i, ops[i].left, ops[i].right);
    } else if ops[i].Union? {
      TwoMean(engine, ops, i, ops[i].left, ops[i].right);
    } else if ops[i].Project? || ops[i].Filter? || ops[i].GroupBy? || ops[i].Distinct? {
      ReadsAreOperands(ops, i, ops[i].input);
      MeaningsOfOne(engine, ops, i, ops[i].input);
      MeaningIsMeans(engine, ops, ops[i].input);
    }
  }

  lemma {:induction false} TwoMean<R>(engine: Engine<R>, ops: seq<Op>, i: nat, l: nat, r: nat)
    requires InOrder(ops, i) && !Broken(ops, i) && (ops[i] == Join(l, r) || ops[i] == Union(l, r))
    ensures Meaning(engine, ops, i) == Means(engine, ops, i)
    decreases i, 0
  {
    hide Broken;
    ReadsAreOperands(ops, i, l);
    ReadsAreOperands(ops, i, r);
    MeaningsOfTwo(engine, ops, i, l, r);
    MeaningIsMeans(engine, ops, l);
    MeaningIsMeans(engine, ops, r);
  }

  /** `built` holds the meaning of every op built so far. */
  ghost predicate IsBuilt<R>(built: map<nat, R>, engine: Engine<R>, ops: seq<Op>) {
    forall i | i in built :: i < |ops| && !Broken(ops, i) && Meaning(engine, ops, i) == Ok(built[i])
  }

  /** The looked-up inputs of an op, all of which are there, are the meanings of its inputs. */
  lemma {:induction false} LookupIsMeaning<R>(
    built: map<nat, R>, engine: Engine<R>, ops: seq<Op>, i: nat, inputs: seq<nat>)
    requires IsBuilt(built, engine, ops)
    requires i < |ops| && !Broken(ops, i)
    requires forall d | d in inputs :: Reads(ops, i, d) && d in built
    ensures Meanings(engine, ops, i, inputs) == Ok(LookupAll(built, inputs))
    decreases |inputs|
  {
    if inputs == [] {
    } else {
      InputIsUnbroken(ops, i, inputs[0]);
      LookupIsMeaning(built, engine, ops, i, inputs[1..]);
    }
  }

  function LookupAll<R>(built: map<nat, R>, inputs: seq<nat>): (out: seq<R>)
    requires forall d | d in inputs :: d in built
    ensures |out| == |inputs|
  {
    if inputs == [] then [] else [built[inputs[0]]] + LookupAll(built, inputs[1..])
  }

  lemma {:induction false} FailurePropagates<R>(engine: Engine<R>, ops: seq<Op>, i: nat, inputs: seq<nat>, d: nat)
    requires i < |ops| && !Broken(ops, i)
    requires forall e | e in inputs :: Reads(ops, i, e)
    requires d in inputs && d < |ops| && !Broken(ops, d) && Meaning(engine, ops, d).Err?
    ensures Meanings(engine, ops, i, inputs).Err?
    decreases |inputs|
  {
    InputIsUnbroken(ops, i, inputs[0]);
    if d != inputs[0] {
      FailurePropagates(engine, ops, i, inputs[1..], d);
    }
  }

  /** A failing op fails every relation that reaches it. */
  lemma {:induction false} ReachedFailureFails<R>(engine: Engine<R>, ops: seq<Op>, path: seq<nat>)
    requires IsPath(ops, path) && path[0] < |ops| && !Broken(ops, path[0])
    requires path[|path| - 1] < |ops| && !Broken(ops, path[|path| - 1])
    requires Meaning(engine, ops, path[|path| - 1]).Err?
    ensures Meaning(engine, ops, path[0]).Err?
    decreases |path|
  {
    if |path| > 1 {
      assert Reads(ops, path[0], path[1]);
      InputIsUnbroken(ops, path[0], path[1]);
      assert forall k | 0 <= k < |path| - 2 :: path[1..][k] == path[k + 1];
      ReachedFailureFails(engine, ops, path[1..]);
      FailurePropagates(engine, ops, path[0], Inputs(ops[path[0]]), path[1]);
    }
  }

  lemma {:induction false} ReachedIsUnbroken(ops: seq<Op>, index: nat, i: nat)
    requires index < |ops| && !Broken(ops, index) && Reaches(ops, index, i)
    ensures i < |ops| && !Broken(ops, i)
  {
    ReachedIsInRange(ops, index, i);
    if j: nat, e: nat :| Reaches(ops, i, j) && Reads(ops, j, e) && e >= j {
      ReachesThrough(ops, index, i, j);
      assert false;
    }
  }

  lemma {:induction false} ReachesThrough(ops: seq<Op>, a: nat, b: nat, c: nat)
    requires Reaches(ops, a, b) && Reaches(ops, b, c)
    ensures Reaches(ops, a, c)
  {
    var p: seq<nat> :| IsPath(ops, p) && p[0] == a && p[|p| - 1] == b;
    var q: seq<nat> :| IsPath(ops, q) && q[0] == b && q[|q| - 1] == c;
    var path := p + q[1..];
    forall k | 0 <= k < |path| - 1 ensures Reads(ops, path[k], path[k + 1]) {
      if k >= |p| - 1 {
        assert path[k] == q[k - (|p| - 1)] && path[k + 1] == q[k - (|p| - 1) + 1];
      }
    }
    assert IsPath(ops, path);
  }

  /** The inputs of one op, looked up: each is there, since the order builds it first. */
  method LookUp<R>(built: map<nat, R>, inputs: seq<nat>) returns (r: Result<seq<R>, Failure>)
    ensures r.Ok? <==> forall d | d in inputs :: d in built
    ensures r.Ok? ==> r.value == LookupAll(built, inputs)
    ensures r.Err? ==> r.error == NotPlanned
  {
    var out: seq<R> := [];
    for k := 0 to |inputs|
      invariant forall j | 0 <= j < k :: inputs[j] in built
      invariant out == LookupAll(built, inputs[..k])
    {
      if inputs[k] !in built {
        assert inputs[k] in inputs;
        return Err(NotPlanned);
      }
      LookupAppend(built, inputs[..k], inputs[k]);
      assert inputs[..k] + [inputs[k]] == inputs[..k + 1];
      out := out + [built[inputs[k]]];
    }
    assert inputs[..|inputs|] == inputs;
    r := Ok(out);
  }

  lemma {:induction false} LookupAppend<R>(built: map<nat, R>, inputs: seq<nat>, d: nat)
    requires forall e | e in inputs :: e in built
    requires d in built
    ensures LookupAll(built, inputs + [d]) == LookupAll(built, inputs) + [built[d]]
  {
    if inputs == [] {
      assert inputs + [d] == [d] && [d][1..] == [];
    } else {
      LookupAppend(built, inputs[1..], d);
      assert (inputs + [d])[1..] == inputs[1..] + [d];
    }
  }

  /** Each op of the dependency closure is built once, in ascending order. The relation is the recursive
      meaning; a failure is a failure of the meaning, and no look-up ever misses. */
  method PlanRelation<R>(engine: Engine<R>, ops: seq<Op>, index: nat) returns (r: Result<R, Failure>)
    ensures InOrder(ops, index) ==> var means := Means(engine, ops, index); if means.Ok? then r == means else r.Err?
    ensures index < |ops| && !Broken(ops, index) ==>
      var meaning := Meaning(engine, ops, index);
      if meaning.Ok? then r == meaning else r.Err?
    ensures index >= |ops| || Broken(ops, index) ==> r.Err? && (r.error.PastTheEnd? || r.error.NotInOrder?)
    ensures r != Err(NotPlanned) || exists op, inputs :: engine(op, inputs) == Err(NotPlanned)
  {
    if index < |ops| {
      UnbrokenIsInOrder(ops, index);
    }
    var order := EvaluationOrder(ops, index);
    if order.Err? {
      return Err(order.error);
    }
    MeaningIsMeans(engine, ops, index);
    var built: map<nat, R> := map[];
    for k := 0 to |order.value|
      invariant IsBuilt(built, engine, ops)
      invariant forall i :: i in built <==> i in order.value[..k]
    {
      var i := order.value[k];
      assert i in order.value;
      ReachedIsUnbroken(ops, index, i);
      if !Executable(ops[i]) {
        FailsAtIndex(engine, ops, index, i);
        return Err(NotExecuted(ops[i]));
      }
      InputsComeFirst(ops, index, order.value, k);
      var inputs := LookUp(built, Inputs(ops[i]));
      LookupIsMeaning(built, engine, ops, i, Inputs(ops[i]));
      var df := engine(ops[i], inputs.value);
      if df.Err? {
        FailsAtIndex(engine, ops, index, i);
        return Err(df.error);
      }
      assert order.value[..k + 1] == order.value[..k] + [i];
      built := built[i := df.value];
    }
    ReachesItself(ops, index);
    assert order.value[..|order.value|] == order.value;
    assert index in built;
    r := Ok(built[index]);
  }

  lemma {:induction false} FailsAtIndex<R>(engine: Engine<R>, ops: seq<Op>, index: nat, i: nat)
    requires index < |ops| && !Broken(ops, index) && Reaches(ops, index, i)
    requires i < |ops| && !Broken(ops, i) && Meaning(engine, ops, i).Err?
    ensures Meaning(engine, ops, index).Err?
  {
    var path: seq<nat> :| IsPath(ops, path) && path[0] == index && path[|path| - 1] == i;
    ReachedFailureFails(engine, ops, path);
  }

  /** Ascending order is dependency order: what the `k`th op reads stands before it. */
  lemma {:induction false} InputsComeFirst(ops: seq<Op>, index: nat, order: seq<nat>, k: nat)
    requires index < |ops| && !Broken(ops, index) && IsOrder(order, ops, index) && k < |order|
    requires order[k] < |ops|
    ensures forall d | d in Inputs(ops[order[k]]) :: d in order[..k]
  {
    forall d | d in Inputs(ops[order[k]]) ensures d in order[..k] {
      assert order[k] in order && Reads(ops, order[k], d);
      ReachFurther(ops, index, order[k], d);
      assert d < order[k];
      var j :| 0 <= j < |order| && order[j] == d;
      assert j < k;
    }
  }
}
