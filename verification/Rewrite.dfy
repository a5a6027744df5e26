/** Physical plans as trees, and the two rewrites every browser run executes under: one that leaves no node
    which would spawn a task, and one that compacts what an operator holds. */
module Rewrite {
  import opened Common
  import opened Results

  /** What a node does. `Other` is any operator neither rewrite looks at. */
  datatype Kind =
    | Coalesce(fetch: Option<nat>)
    | Buffer
    | Repartition
    | OneTaskCoalesce
    | GlobalLimit(limit: nat)
    | Compaction
    | Sort
    | HashJoin
    | Other(op: int)

  datatype Plan = Node(kind: Kind, inputs: seq<Plan>)

  datatype Failure = SpawnsPerPartition

  /** A partition is its rows in order. */
  type Partitions = seq<seq<int>>

  /** The engine: how many partitions an operator puts out, and what it may put out for what it is given. */
  datatype Engine = Engine(count: (Kind, seq<nat>) -> nat, runs: (Kind, seq<Partitions>, Partitions) -> bool)

  predicate Unary(k: Kind) {
    k.Coalesce? || k.Buffer? || k.Repartition? || k.OneTaskCoalesce? || k.GlobalLimit? || k.Compaction? || k.Sort?
  }

  /** Every node has the inputs its kind takes. */
  predicate Shaped(p: Plan) {
    && (Unary(p.kind) ==> |p.inputs| == 1)
    && (p.kind.HashJoin? ==> |p.inputs| == 2)
    && forall i | 0 <= i < |p.inputs| :: Shaped(p.inputs[i])
  }

  // ------------------------------------------------------------------ what a plan puts out

  /** `out` is the rows of `parts`, each partition's in its order. */
  ghost predicate Interleaved(parts: Partitions, out: seq<int>)
    decreases |out|
  {
    if out == [] then forall i | 0 <= i < |parts| :: parts[i] == []
    else
      exists i ::
        0 <= i < |parts| && parts[i] != [] && parts[i][0] == out[0] && Interleaved(parts[i := parts[i][1..]], out[1..])
  }

  function Limited(rows: seq<int>, fetch: Option<nat>): (r: seq<int>)
    ensures r <= rows && (fetch.Some? ==> |r| <= fetch.value)
    ensures r == rows || (fetch.Some? && |r| == fetch.value)
  {
    if fetch.Some? && fetch.value < |rows| then rows[..fetch.value] else rows
  }

  /** What a node may put out for what its inputs put out: rows merge in whatever order they are ready. */
  ghost predicate NodeYields(k: Kind, ins: seq<Partitions>, out: Partitions, eng: Engine) {
    match k
    case Coalesce(fetch) =>
      |ins| == 1 && exists merged :: Interleaved(ins[0], merged) && out == [Limited(merged, fetch)]
    case OneTaskCoalesce => |ins| == 1 && |out| == 1 && Interleaved(ins[0], out[0])
    case GlobalLimit(limit) => |ins| == 1 && |ins[0]| == 1 && out == [Limited(ins[0][0], Some(limit))]
    case Buffer => |ins| == 1 && out == ins[0]
    case Compaction => |ins| == 1 && out == ins[0]
    case _ => eng.runs(k, ins, out)
  }

  ghost predicate Yields(p: Plan, out: Partitions, eng: Engine)
    decreases p
  {
    exists ins: seq<Partitions> :: InputsYield(p.inputs, ins, eng) && NodeYields(p.kind, ins, out, eng)
  }

  ghost predicate InputsYield(ps: seq<Plan>, ins: seq<Partitions>, eng: Engine)
    decreases ps
  {
    |ins| == |ps| && forall i | 0 <= i < |ps| :: Yields(ps[i], ins[i], eng)
  }

  /** How many partitions a plan puts out. */
  function Count(p: Plan, eng: Engine): nat {
    match p.kind
    case Coalesce(_) => 1
    case OneTaskCoalesce => 1
    case GlobalLimit(_) => 1
    case Buffer => if p.inputs == [] then 0 else Count(p.inputs[0], eng)
    case Compaction => if p.inputs == [] then 0 else Count(p.inputs[0], eng)
    case _ => eng.count(p.kind, Counts(p.inputs, eng))
  }

  function Counts(ps: seq<Plan>, eng: Engine): seq<nat> {
    if ps == [] then [] else [Count(ps[0], eng)] + Counts(ps[1..], eng)
  }

  /** The engine puts out the partitions it says it does. */
  ghost predicate Honest(eng: Engine) {
    forall k, ins, out ::
      eng.runs(k, ins, out) ==> |out| == eng.count(k, seq(|ins|, i requires 0 <= i < |ins| => |ins[i]|))
  }

  lemma {:induction false} CountsAre(ps: seq<Plan>, eng: Engine)
    ensures |Counts(ps, eng)| == |ps| && forall i | 0 <= i < |ps| :: Counts(ps, eng)[i] == Count(ps[i], eng)
  {
    if ps == [] {
    } else {
      CountsAre(ps[1..], eng);
    }
  }

  /** Whatever a plan puts out, it puts out in that many partitions. */
  lemma {:induction false} CountIsPartitions(p: Plan, out: Partitions, eng: Engine)
    requires Shaped(p) && Honest(eng) && Yields(p, out, eng)
    ensures |out| == Count(p, eng)
    decreases p
  {
    var ins :| InputsYield(p.inputs, ins, eng) && NodeYields(p.kind, ins, out, eng);
    forall i | 0 <= i < |ins|
      ensures |ins[i]| == Count(p.inputs[i], eng)
    {
      CountIsPartitions(p.inputs[i], ins[i], eng);
    }
    CountsAre(p.inputs, eng);
    assert Counts(p.inputs, eng) == seq(|ins|, i requires 0 <= i < |ins| => |ins[i]|);
  }

  /** The rows of `out` that `from` says are of partition `i`. */
  function Taken(out: seq<int>, from: seq<nat>, i: nat): seq<int>
    requires |from| == |out|
  {
    if out == [] then [] else (if from[0] == i then [out[0]] else []) + Taken(out[1..], from[1..], i)
  }

  /** Each row of `out` is of some partition, and of each partition it has all the rows in their order. */
  ghost predicate Merges(parts: Partitions, out: seq<int>, from: seq<nat>) {
    && |from| == |out| && (forall k | 0 <= k < |from| :: from[k] < |parts|)
    && forall i | 0 <= i < |parts| :: parts[i] == Taken(out, from, i)
  }

  lemma {:induction false} InterleavedIsMerged(parts: Partitions, out: seq<int>)
    ensures Interleaved(parts, out) <==> exists from :: Merges(parts, out, from)
  {
    if Interleaved(parts, out) {
      var from := InterleavedMerges(parts, out);
    }
    if from :| Merges(parts, out, from) {
      MergesInterleave(parts, out, from);
    }
  }

  lemma {:induction false} InterleavedMerges(parts: Partitions, out: seq<int>) returns (from: seq<nat>)
    requires Interleaved(parts, out)
    ensures Merges(parts, out, from)
    decreases |out|
  {
    if out == [] {
      from := [];
    } else {
      var i :| 0 <= i < |parts| && parts[i] != [] && parts[i][0] == out[0]
               && Interleaved(parts[i := parts[i][1..]], out[1..]);
      var more := InterleavedMerges(parts[i := parts[i][1..]], out[1..]);
      MergesOne(parts, out, i, more);
      from := [i] + more;
    }
  }

  lemma {:induction false} MergesInterleave(parts: Partitions, out: seq<int>, from: seq<nat>)
    requires Merges(parts, out, from)
    ensures Interleaved(parts, out)
    decreases |out|
  {
    if out == [] {
    } else {
      var i := from[0];
      assert parts[i] == [out[0]] + Taken(out[1..], from[1..], i);
      MergesInterleave(parts[i := parts[i][1..]], out[1..], from[1..]);
    }
  }

  lemma {:induction false} MergesOne(parts: Partitions, out: seq<int>, i: nat, from: seq<nat>)
    requires out != [] && i < |parts| && parts[i] != [] && parts[i][0] == out[0]
    requires Merges(parts[i := parts[i][1..]], out[1..], from)
    ensures Merges(parts, out, [i] + from)
  {
    assert ([i] + from)[1..] == from;
    assert parts[i] == [out[0]] + parts[i][1..];
  }

  /** The two plans may put out the same. */
  ghost predicate SameResults(p: Plan, q: Plan, eng: Engine) {
    forall out :: Yields(p, out, eng) <==> Yields(q, out, eng)
  }

  // ------------------------------------------------------------------ no task is spawned

  function OneTask(input: Plan, fetch: Option<nat>): Plan {
    var merged := Node(OneTaskCoalesce, [input]);
    if fetch.Some? then Node(GlobalLimit(fetch.value), [merged]) else merged
  }

  /** The rule at one node, its inputs rewritten. */
  function Unspawned(k: Kind, inputs: seq<Plan>): Result<Plan, Failure>
    requires Unary(k) ==> |inputs| == 1
  {
    match k
    case Coalesce(fetch) => Ok(OneTask(inputs[0], fetch))
    case Buffer => Ok(inputs[0])
    case Repartition => Err(SpawnsPerPartition)
    case _ => Ok(Node(k, inputs))
  }

  function Transform(p: Plan): Result<Plan, Failure>
    requires Shaped(p)
    decreases p
  {
    var inputs := TransformAll(p.inputs);
    if inputs.Err? then Err(inputs.error) else Unspawned(p.kind, inputs.value)
  }

  function TransformAll(ps: seq<Plan>): (r: Result<seq<Plan>, Failure>)
    requires forall i | 0 <= i < |ps| :: Shaped(ps[i])
    ensures r.Ok? ==> |r.value| == |ps|
    decreases ps
  {
    if ps == [] then Ok([])
    else
      var q := Transform(ps[0]);
      if q.Err? then Err(q.error)
      else
        var more := TransformAll(ps[1..]);
        if more.Err? then more else Ok([q.value] + more.value)
  }

  /** `OneTask::optimize`: bottom up, and then the root merged when it is still in several partitions. */
  function Optimize(p: Plan, eng: Engine): Result<Plan, Failure>
    requires Shaped(p)
  {
    var q := Transform(p);
    if q.Ok? && Count(q.value, eng) > 1 then Ok(OneTask(q.value, None)) else q
  }

  predicate Spawns(k: Kind) {
    k.Coalesce? || k.Buffer? || k.Repartition?
  }

  predicate NoneSpawns(p: Plan) {
    !Spawns(p.kind) && forall i | 0 <= i < |p.inputs| :: NoneSpawns(p.inputs[i])
  }

  predicate HasRepartition(p: Plan) {
    p.kind.Repartition? || exists i | 0 <= i < |p.inputs| :: HasRepartition(p.inputs[i])
  }

  lemma {:induction false} TransformAllAt(ps: seq<Plan>, i: nat)
    requires forall j | 0 <= j < |ps| :: Shaped(ps[j])
    requires TransformAll(ps).Ok? && i < |ps|
    ensures Transform(ps[i]) == Ok(TransformAll(ps).value[i])
  {
    if i == 0 {
    } else {
      TransformAllAt(ps[1..], i - 1);
    }
  }

  /** A rewritten plan has no node left that spawns, whatever is nested under what. */
  lemma {:induction false} TransformLeavesNoneSpawning(p: Plan)
    requires Shaped(p) && Transform(p).Ok?
    ensures NoneSpawns(Transform(p).value) && Shaped(Transform(p).value)
    decreases p
  {
    var inputs := TransformAll(p.inputs).value;
    forall i | 0 <= i < |inputs|
      ensures NoneSpawns(inputs[i]) && Shaped(inputs[i])
    {
      TransformAllAt(p.inputs, i);
      TransformLeavesNoneSpawning(p.inputs[i]);
    }
  }

  /** The rewrite fails exactly on a plan with a repartition somewhere in it. */
  lemma {:induction false} TransformFailsIffRepartitioned(p: Plan)
    requires Shaped(p)
    ensures Transform(p).Err? <==> HasRepartition(p)
    decreases p, 1
  {
    AllFailIffRepartitioned(p.inputs);
  }

  lemma {:induction false} AllFailIffRepartitioned(ps: seq<Plan>)
    requires forall i | 0 <= i < |ps| :: Shaped(ps[i])
    ensures TransformAll(ps).Err? <==> exists i | 0 <= i < |ps| :: HasRepartition(ps[i])
    decreases ps, 0
  {
    if ps == [] {
    } else {
      TransformFailsIffRepartitioned(ps[0]);
      AllFailIffRepartitioned(ps[1..]);
      assert forall i | 1 <= i < |ps| :: ps[i] == ps[1..][i - 1];
    }
  }

  // ------------------------------------------------------------------ and the results stand

  lemma {:induction false} YieldsFrom(p: Plan, ins: seq<Partitions>, out: Partitions, eng: Engine)
    requires InputsYield(p.inputs, ins, eng) && NodeYields(p.kind, ins, out, eng)
    ensures Yields(p, out, eng)
  {
  }

  /** A node's results are decided by its inputs' results. */
  lemma {:induction false} InputsDecide(k: Kind, ps: seq<Plan>, qs: seq<Plan>, eng: Engine)
    requires |ps| == |qs| && forall i | 0 <= i < |ps| :: SameResults(ps[i], qs[i], eng)
    ensures SameResults(Node(k, ps), Node(k, qs), eng)
  {
    forall out
      ensures Yields(Node(k, ps), out, eng) <==> Yields(Node(k, qs), out, eng)
    {
      if Yields(Node(k, ps), out, eng) {
        var ins :| InputsYield(ps, ins, eng) && NodeYields(k, ins, out, eng);
        YieldsFrom(Node(k, qs), ins, out, eng);
      }
      if Yields(Node(k, qs), out, eng) {
        var ins :| InputsYield(qs, ins, eng) && NodeYields(k, ins, out, eng);
        YieldsFrom(Node(k, ps), ins, out, eng);
      }
    }
  }

  /** Merging in one task, and limiting after it, may put out what coalescing with a fetch may. */
  lemma {:induction false} OneTaskIsCoalesce(input: Plan, fetch: Option<nat>, eng: Engine)
    ensures SameResults(Node(Coalesce(fetch), [input]), OneTask(input, fetch), eng)
  {
    forall out
      ensures Yields(Node(Coalesce(fetch), [input]), out, eng) <==> Yields(OneTask(input, fetch), out, eng)
    {
      if Yields(Node(Coalesce(fetch), [input]), out, eng) {
        CoalescedIsOneTask(input, fetch, out, eng);
      }
      if Yields(OneTask(input, fetch), out, eng) {
        OneTaskIsCoalesced(input, fetch, out, eng);
      }
    }
  }

  lemma {:induction false} CoalescedIsOneTask(input: Plan, fetch: Option<nat>, out: Partitions, eng: Engine)
    requires Yields(Node(Coalesce(fetch), [input]), out, eng)
    ensures Yields(OneTask(input, fetch), out, eng)
  {
    var ins :| InputsYield([input], ins, eng) && NodeYields(Coalesce(fetch), ins, out, eng);
    var merged :| Interleaved(ins[0], merged) && out == [Limited(merged, fetch)];
    YieldsFrom(Node(OneTaskCoalesce, [input]), ins, [merged], eng);
    if fetch.Some? {
      YieldsFrom(OneTask(input, fetch), [[merged]], out, eng);
    }
  }

  lemma {:induction false} OneTaskIsCoalesced(input: Plan, fetch: Option<nat>, out: Partitions, eng: Engine)
    requires Yields(OneTask(input, fetch), out, eng)
    ensures Yields(Node(Coalesce(fetch), [input]), out, eng)
  {
    var merging := Node(OneTaskCoalesce, [input]);
    var merged: Partitions := out;
    if fetch.Some? {
      var outer :| InputsYield([merging], outer, eng) && NodeYields(GlobalLimit(fetch.value), outer, out, eng);
      merged := outer[0];
    }
    assert Yields(merging, merged, eng);
    var ins :| InputsYield([input], ins, eng) && NodeYields(OneTaskCoalesce, ins, merged, eng);
    assert Interleaved(ins[0], merged[0]) && out == [Limited(merged[0], fetch)];
    YieldsFrom(Node(Coalesce(fetch), [input]), ins, out, eng);
  }

  lemma {:induction false} BufferIsItsInput(input: Plan, k: Kind, eng: Engine)
    requires k.Buffer? || k.Compaction?
    ensures SameResults(Node(k, [input]), input, eng)
  {
    forall out
      ensures Yields(Node(k, [input]), out, eng) <==> Yields(input, out, eng)
    {
      if Yields(input, out, eng) {
        assert InputsYield([input], [out], eng);
        YieldsFrom(Node(k, [input]), [out], out, eng);
      }
    }
  }

  lemma {:induction false} TransformKeepsResults(p: Plan, eng: Engine)
    requires Shaped(p) && Transform(p).Ok?
    ensures SameResults(p, Transform(p).value, eng)
    decreases p
  {
    var inputs := TransformAll(p.inputs).value;
    forall i | 0 <= i < |inputs|
      ensures SameResults(p.inputs[i], inputs[i], eng)
    {
      TransformAllAt(p.inputs, i);
      TransformKeepsResults(p.inputs[i], eng);
    }
    InputsDecide(p.kind, p.inputs, inputs, eng);
    assert p == Node(p.kind, p.inputs);
    if p.kind.Coalesce? {
      OneTaskIsCoalesce(inputs[0], p.kind.fetch, eng);
      assert inputs == [inputs[0]];
    } else if p.kind.Buffer? {
      BufferIsItsInput(inputs[0], p.kind, eng);
      assert inputs == [inputs[0]];
    }
  }

  lemma {:induction false} CountsAt(ps: seq<Plan>, qs: seq<Plan>, eng: Engine)
    requires |ps| == |qs| && forall i | 0 <= i < |ps| :: Count(ps[i], eng) == Count(qs[i], eng)
    ensures Counts(ps, eng) == Counts(qs, eng)
  {
    if ps == [] {
    } else {
      CountsAt(ps[1..], qs[1..], eng);
    }
  }

  lemma {:induction false} TransformKeepsCount(p: Plan, eng: Engine)
    requires Shaped(p) && Transform(p).Ok?
    ensures Count(Transform(p).value, eng) == Count(p, eng)
    decreases p
  {
    var inputs := TransformAll(p.inputs).value;
    forall i | 0 <= i < |inputs|
      ensures Count(p.inputs[i], eng) == Count(inputs[i], eng)
    {
      TransformAllAt(p.inputs, i);
      TransformKeepsCount(p.inputs[i], eng);
    }
    CountsAt(p.inputs, inputs, eng);
  }

  /** When the rule succeeds, and it does unless the plan repartitions: nothing is left that spawns, the root
      is in one partition, and the plan may put out exactly what it might, merged when it was in several. */
  lemma {:induction false} OneTaskIsSafeAndFaithful(p: Plan, eng: Engine)
    requires Shaped(p)
    ensures Optimize(p, eng).Err? <==> HasRepartition(p)
    ensures Optimize(p, eng).Ok? ==>
              var q := Optimize(p, eng).value;
              && Shaped(q) && NoneSpawns(q) && Count(q, eng) <= 1 && (Count(p, eng) > 0 ==> Count(q, eng) == 1)
              && (Count(p, eng) <= 1 ==> SameResults(p, q, eng))
              && (Count(p, eng) > 1 ==> SameResults(Node(Coalesce(None), [p]), q, eng))
  {
    TransformFailsIffRepartitioned(p);
    if Transform(p).Ok? {
      var t := Transform(p).value;
      TransformLeavesNoneSpawning(p);
      TransformKeepsResults(p, eng);
      TransformKeepsCount(p, eng);
      if Count(t, eng) > 1 {
        InputsDecide(Coalesce(None), [p], [t], eng);
        OneTaskIsCoalesce(t, None, eng);
      }
    }
  }

  /** So whatever the rewritten plan puts out, it puts out in one partition. */
  lemma {:induction false} OneTaskRunsInOnePartition(p: Plan, out: Partitions, eng: Engine)
    requires Shaped(p) && Honest(eng) && Optimize(p, eng).Ok? && Yields(Optimize(p, eng).value, out, eng)
    ensures |out| <= 1 && (Count(p, eng) > 0 ==> |out| == 1)
  {
    OneTaskIsSafeAndFaithful(p, eng);
    CountIsPartitions(Optimize(p, eng).value, out, eng);
  }

  // ------------------------------------------------------------------ rows

  function Rows(parts: Partitions): multiset<int> {
    if parts == [] then multiset{} else multiset(parts[0]) + Rows(parts[1..])
  }

  lemma {:induction false} RowsWithout(parts: Partitions, i: nat)
    requires i < |parts| && parts[i] != []
    ensures Rows(parts) == Rows(parts[i := parts[i][1..]]) + multiset{parts[i][0]}
  {
    var less := parts[i := parts[i][1..]];
    if i == 0 {
      assert parts[0] == [parts[0][0]] + parts[0][1..];
      assert less[1..] == parts[1..];
    } else {
      RowsWithout(parts[1..], i - 1);
      assert less[1..] == parts[1..][i - 1 := parts[i][1..]];
    }
  }

  /** Merging loses no row and makes none. */
  lemma {:induction false} InterleavedKeepsRows(parts: Partitions, out: seq<int>)
    requires Interleaved(parts, out)
    ensures multiset(out) == Rows(parts)
    decreases |out|
  {
    if out == [] {
      NoRows(parts);
    } else {
      var i :| 0 <= i < |parts| && parts[i] != [] && parts[i][0] == out[0]
          && Interleaved(parts[i := parts[i][1..]], out[1..]);
      InterleavedKeepsRows(parts[i := parts[i][1..]], out[1..]);
      RowsWithout(parts, i);
      assert out == [out[0]] + out[1..];
    }
  }

  lemma {:induction false} NoRows(parts: Partitions)
    requires forall i | 0 <= i < |parts| :: parts[i] == []
    ensures Rows(parts) == multiset{}
  {
    if parts == [] {
    } else {
      NoRows(parts[1..]);
    }
  }

  /** Whatever the rewritten plan puts out is, row for row, something the plan might have put out. */
  lemma {:induction false} OneTaskKeepsRows(p: Plan, out: Partitions, eng: Engine)
    requires Shaped(p) && Optimize(p, eng).Ok? && Yields(Optimize(p, eng).value, out, eng)
    ensures exists was :: Yields(p, was, eng) && Rows(was) == Rows(out)
  {
    OneTaskIsSafeAndFaithful(p, eng);
    if Count(p, eng) > 1 {
      assert Yields(Node(Coalesce(None), [p]), out, eng);
      var ins :| InputsYield([p], ins, eng) && NodeYields(Coalesce(None), ins, out, eng);
      var merged :| Interleaved(ins[0], merged) && out == [Limited(merged, None)];
      InterleavedKeepsRows(ins[0], merged);
      assert out[1..] == [] && Rows(out) == multiset(merged) + Rows(out[1..]);
      assert Rows(out[1..]) == multiset{};
      assert Yields(p, ins[0], eng) && Rows(ins[0]) == Rows(out);
    } else {
      assert Yields(p, out, eng);
    }
  }

  // ------------------------------------------------------------------ what an operator holds is compacted

  predicate Holds(k: Kind) {
    k.Sort? || k.HashJoin?
  }

  function Compacted(k: Kind, inputs: seq<Plan>): Plan {
    if Holds(k) && inputs != [] && !inputs[0].kind.Compaction?
      then Node(k, [Node(Compaction, [inputs[0]])] + inputs[1..])
    else Node(k, inputs)
  }

  function Compact(p: Plan): Plan
    decreases p
  {
    Compacted(p.kind, CompactAll(p.inputs))
  }

  function CompactAll(ps: seq<Plan>): (r: seq<Plan>)
    ensures |r| == |ps|
    decreases ps
  {
    if ps == [] then [] else [Compact(ps[0])] + CompactAll(ps[1..])
  }

  /** Every operator that holds its whole input holds it compacted. */
  predicate HeldCompacted(p: Plan) {
    && (Holds(p.kind) && p.inputs != [] ==> p.inputs[0].kind.Compaction?)
    && forall i | 0 <= i < |p.inputs| :: HeldCompacted(p.inputs[i])
  }

  /** A plan with its compactions taken out. */
  function Erase(p: Plan): Plan
    decreases p
  {
    if p.kind.Compaction? && |p.inputs| == 1 then Erase(p.inputs[0]) else Node(p.kind, EraseAll(p.inputs))
  }

  function EraseAll(ps: seq<Plan>): seq<Plan>
    decreases ps
  {
    if ps == [] then [] else [Erase(ps[0])] + EraseAll(ps[1..])
  }

  predicate Compactionless(p: Plan) {
    !p.kind.Compaction? && forall i | 0 <= i < |p.inputs| :: Compactionless(p.inputs[i])
  }

  lemma {:induction false} CompactAllAt(ps: seq<Plan>, i: nat)
    requires i < |ps|
    ensures CompactAll(ps)[i] == Compact(ps[i])
  {
    if i == 0 {
    } else {
      CompactAllAt(ps[1..], i - 1);
    }
  }

  lemma {:induction false} CompactReachesEverything(p: Plan)
    ensures HeldCompacted(Compact(p))
    decreases p
  {
    var inputs := CompactAll(p.inputs);
    forall i | 0 <= i < |inputs|
      ensures HeldCompacted(inputs[i])
    {
      CompactAllAt(p.inputs, i);
      CompactReachesEverything(p.inputs[i]);
    }
  }

  /** A plan that needs no compaction gets none. */
  lemma {:induction false} CompactedStands(p: Plan)
    requires HeldCompacted(p)
    ensures Compact(p) == p
    decreases p, 1
  {
    AllCompactedStand(p.inputs);
  }

  lemma {:induction false} AllCompactedStand(ps: seq<Plan>)
    requires forall i | 0 <= i < |ps| :: HeldCompacted(ps[i])
    ensures CompactAll(ps) == ps
    decreases ps, 0
  {
    if ps == [] {
    } else {
      CompactedStands(ps[0]);
      AllCompactedStand(ps[1..]);
    }
  }

  lemma {:induction false} CompactedErases(k: Kind, inputs: seq<Plan>)
    ensures Erase(Compacted(k, inputs)) == Erase(Node(k, inputs))
  {
    if Holds(k) && inputs != [] && !inputs[0].kind.Compaction? {
      var compaction := Node(Compaction, [inputs[0]]);
      var children := [compaction] + inputs[1..];
      assert Erase(compaction) == Erase(inputs[0]);
      assert children[1..] == inputs[1..];
      assert EraseAll(children) == EraseAll(inputs);
    }
  }

  lemma {:induction false} CompactErases(p: Plan)
    ensures Erase(Compact(p)) == Erase(p)
    decreases p, 1
  {
    AllCompactErase(p.inputs);
    var inputs := CompactAll(p.inputs);
    CompactedErases(p.kind, inputs);
    if p.kind.Compaction? && |p.inputs| == 1 {
      assert EraseAll(inputs)[0] == Erase(inputs[0]) && EraseAll(p.inputs)[0] == Erase(p.inputs[0]);
    }
  }

  lemma {:induction false} AllCompactErase(ps: seq<Plan>)
    ensures EraseAll(CompactAll(ps)) == EraseAll(ps)
    decreases ps, 0
  {
    if ps == [] {
    } else {
      CompactErases(ps[0]);
      AllCompactErase(ps[1..]);
      assert CompactAll(ps)[1..] == CompactAll(ps[1..]);
    }
  }

  lemma {:induction false} NothingToErase(p: Plan)
    requires Compactionless(p)
    ensures Erase(p) == p
    decreases p, 1
  {
    NothingToEraseIn(p.inputs);
  }

  lemma {:induction false} NothingToEraseIn(ps: seq<Plan>)
    requires forall i | 0 <= i < |ps| :: Compactionless(ps[i])
    ensures EraseAll(ps) == ps
    decreases ps, 0
  {
    if ps == [] {
    } else {
      NothingToErase(ps[0]);
      NothingToEraseIn(ps[1..]);
    }
  }

  lemma {:induction false} CompactedKeepsResults(k: Kind, inputs: seq<Plan>, eng: Engine)
    ensures SameResults(Node(k, inputs), Compacted(k, inputs), eng)
  {
    if Holds(k) && inputs != [] && !inputs[0].kind.Compaction? {
      var children := [Node(Compaction, [inputs[0]])] + inputs[1..];
      BufferIsItsInput(inputs[0], Compaction, eng);
      InputsDecide(k, inputs, children, eng);
    }
  }

  lemma {:induction false} CompactKeepsResults(p: Plan, eng: Engine)
    ensures SameResults(p, Compact(p), eng)
    decreases p
  {
    var inputs := CompactAll(p.inputs);
    forall i | 0 <= i < |inputs|
      ensures SameResults(p.inputs[i], inputs[i], eng)
    {
      CompactAllAt(p.inputs, i);
      CompactKeepsResults(p.inputs[i], eng);
    }
    InputsDecide(p.kind, p.inputs, inputs, eng);
    assert p == Node(p.kind, p.inputs);
    CompactedKeepsResults(p.kind, inputs, eng);
  }

  /** `Compact`'s rule at one node: what an operator that holds its first input holds is compacted, and nothing
      else is touched; what the node may put out stays, and taken out again the node is what it was. */
  method CompactNode(node: Plan) returns (r: Plan)
    requires Holds(node.kind) ==> node.inputs != []
    ensures r.kind == node.kind && |r.inputs| == |node.inputs|
    ensures forall i | 1 <= i < |node.inputs| :: r.inputs[i] == node.inputs[i]
    ensures Holds(node.kind) ==> r.inputs[0].kind.Compaction?
    ensures r == node || r.inputs[0] == Node(Compaction, [node.inputs[0]])
    ensures !Holds(node.kind) || node.inputs[0].kind.Compaction? ==> r == node
    ensures Erase(r) == Erase(node) && forall eng :: SameResults(node, r, eng)
    ensures r == Compacted(node.kind, node.inputs)
  {
    var held := 0;
    if !Holds(node.kind) {
      return node;
    }
    var children := node.inputs;
    if children[held].kind.Compaction? {
      return node;
    }
    children := children[held := Node(Compaction, [children[held]])];
    r := Node(node.kind, children);
    assert children == [Node(Compaction, [node.inputs[0]])] + node.inputs[1..];
    CompactedErases(node.kind, node.inputs);
    forall eng
      ensures SameResults(node, r, eng)
    {
      CompactedKeepsResults(node.kind, node.inputs, eng);
    }
  }

  /** Compaction reaches every operator that holds its input, is done once, keeps every result, and taken out
      again leaves the plan it was put into. */
  lemma {:induction false} CompactIsExact(p: Plan, eng: Engine)
    ensures HeldCompacted(Compact(p))
    ensures Compact(Compact(p)) == Compact(p)
    ensures SameResults(p, Compact(p), eng)
    ensures Compactionless(p) ==> Erase(Compact(p)) == p
  {
    CompactReachesEverything(p);
    CompactedStands(Compact(p));
    CompactKeepsResults(p, eng);
    CompactErases(p);
    if Compactionless(p) {
      NothingToErase(p);
    }
  }

  /** `s` is the plan or somewhere in it. */
  predicate Within(s: Plan, p: Plan) {
    s == p || exists i | 0 <= i < |p.inputs| :: Within(s, p.inputs[i])
  }

  lemma {:induction false} HeldWithin(s: Plan, p: Plan)
    requires HeldCompacted(p) && Within(s, p)
    ensures (s.kind == Sort || s.kind == HashJoin) && s.inputs != [] ==> s.inputs[0].kind == Compaction
  {
    if s != p {
      var i :| 0 <= i < |p.inputs| && Within(s, p.inputs[i]);
      HeldWithin(s, p.inputs[i]);
    }
  }

  /** Every sort and every hash join of a compacted plan holds a compaction first, wherever it is. */
  lemma {:induction false} EverySortAndHashJoinIsCompacted(s: Plan, p: Plan)
    requires Within(s, Compact(p)) && (s.kind == Sort || s.kind == HashJoin) && s.inputs != []
    ensures s.inputs[0].kind == Compaction
  {
    CompactReachesEverything(p);
    HeldWithin(s, Compact(p));
  }

  /** A compaction stands nowhere but as the first input of a sort or of a hash join. */
  predicate CompactsOnlyHeld(p: Plan) {
    forall i | 0 <= i < |p.inputs| ::
      && CompactsOnlyHeld(p.inputs[i])
      && (p.inputs[i].kind == Compaction ==> i == 0 && (p.kind == Sort || p.kind == HashJoin))
  }

  lemma {:induction false} CompactedKeepsKind(p: Plan)
    ensures Compact(p).kind == p.kind
  {
  }

  /** And where there was no compaction, none is put anywhere else. */
  lemma {:induction false} CompactionIsPutNowhereElse(p: Plan)
    requires Compactionless(p)
    ensures CompactsOnlyHeld(Compact(p)) && Compact(p).kind != Compaction
    decreases p
  {
    var inputs, q := CompactAll(p.inputs), Compact(p);
    forall i | 0 <= i < |inputs|
      ensures CompactsOnlyHeld(inputs[i]) && inputs[i].kind != Compaction
    {
      CompactAllAt(p.inputs, i);
      CompactionIsPutNowhereElse(p.inputs[i]);
    }
    forall i | 0 <= i < |q.inputs|
      ensures CompactsOnlyHeld(q.inputs[i])
      ensures q.inputs[i].kind == Compaction ==> i == 0 && (q.kind == Sort || q.kind == HashJoin)
    {
      if q.inputs[i] != inputs[i] {
        assert q.inputs[i] == Node(Compaction, [inputs[0]]);
      }
    }
  }

  lemma {:induction false} CompactSpawnsNothing(p: Plan)
    requires NoneSpawns(p)
    ensures NoneSpawns(Compact(p))
    decreases p
  {
    var inputs := CompactAll(p.inputs);
    forall i | 0 <= i < |inputs|
      ensures NoneSpawns(inputs[i])
    {
      CompactAllAt(p.inputs, i);
      CompactSpawnsNothing(p.inputs[i]);
    }
  }

  lemma {:induction false} CompactedKeepsCount(k: Kind, inputs: seq<Plan>, eng: Engine)
    ensures Count(Compacted(k, inputs), eng) == Count(Node(k, inputs), eng)
  {
    if Holds(k) && inputs != [] && !inputs[0].kind.Compaction? {
      var compaction := Node(Compaction, [inputs[0]]);
      assert ([compaction] + inputs[1..])[1..] == inputs[1..];
      assert Count(compaction, eng) == Count(inputs[0], eng);
    }
  }

  lemma {:induction false} CompactKeepsCount(p: Plan, eng: Engine)
    ensures Count(Compact(p), eng) == Count(p, eng)
    decreases p, 1
  {
    AllCompactKeepCount(p.inputs, eng);
    var inputs := CompactAll(p.inputs);
    CompactedKeepsCount(p.kind, inputs, eng);
    if p.inputs == [] {
    } else {
      CompactKeepsCount(p.inputs[0], eng);
    }
  }

  lemma {:induction false} AllCompactKeepCount(ps: seq<Plan>, eng: Engine)
    ensures Counts(CompactAll(ps), eng) == Counts(ps, eng)
    decreases ps, 0
  {
    if ps == [] {
    } else {
      CompactKeepsCount(ps[0], eng);
      AllCompactKeepCount(ps[1..], eng);
      assert CompactAll(ps)[1..] == CompactAll(ps[1..]);
    }
  }

  /** The session's two rules together: what runs spawns nothing, is in one partition, holds everything
      compacted, and may put out what the plan might, merged when it was in several partitions. */
  lemma {:induction false} SessionPlanIsSafeAndFaithful(p: Plan, eng: Engine)
    requires Shaped(p) && !HasRepartition(p)
    ensures Optimize(p, eng).Ok?
    ensures var q := Compact(Optimize(p, eng).value);
            && NoneSpawns(q) && HeldCompacted(q)
            && Count(q, eng) <= 1 && (Count(p, eng) > 0 ==> Count(q, eng) == 1)
            && (Count(p, eng) <= 1 ==> SameResults(p, q, eng))
            && (Count(p, eng) > 1 ==> SameResults(Node(Coalesce(None), [p]), q, eng))
  {
    OneTaskIsSafeAndFaithful(p, eng);
    var t := Optimize(p, eng).value;
    CompactSpawnsNothing(t);
    CompactKeepsCount(t, eng);
    CompactIsExact(t, eng);
  }

  /** And whatever it puts out is in one partition. */
  lemma {:induction false} SessionRunsInOnePartition(p: Plan, out: Partitions, eng: Engine)
    requires Shaped(p) && Honest(eng)
    requires Optimize(p, eng).Ok? && Yields(Compact(Optimize(p, eng).value), out, eng)
    ensures |out| <= 1 && (Count(p, eng) > 0 ==> |out| == 1)
  {
    CompactIsExact(Optimize(p, eng).value, eng);
    OneTaskRunsInOnePartition(p, out, eng);
  }
}
