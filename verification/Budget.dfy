/** What a run may hold: a counter that never wraps, and the first refusal kept. */
module Memory {
  import opened Common
  import opened Results

  datatype Refusal = Refusal(consumer: nat, requested: nat, reserved: nat, budget: nat)

  function SaturatingAdd(a: nat, b: nat): nat {
    if a + b > USIZE_MAX then USIZE_MAX else a + b
  }

  function SaturatingSub(a: nat, b: nat): nat {
    if b > a then 0 else a - b
  }

  /** May this much more be held? A sum past a `usize` may not, whatever the limit. */
  predicate Fits(used: nat, additional: nat, limit: nat) {
    used + additional <= USIZE_MAX && used + additional <= limit
  }

  function First(kept: Option<Refusal>, refusal: Refusal): Option<Refusal> {
    if kept.Some? then kept else Some(refusal)
  }

  class Budget {
    const limit: nat
    var used: nat
    var refused: Option<Refusal>

    constructor (limit: nat)
      requires limit <= USIZE_MAX
      ensures this.limit == limit && used == 0 && refused == None && Valid()
    {
      this.limit, used, refused := limit, 0, None;
    }

    ghost predicate Valid()
      reads this
    {
      limit <= USIZE_MAX && used <= USIZE_MAX
    }

    method Refused() returns (r: Option<Refusal>)
      ensures r == refused
    {
      r := refused;
    }

    method Grow(additional: nat)
      requires Valid()
      modifies this`used
      ensures Valid() && used == SaturatingAdd(old(used), additional)
      ensures if old(used) + additional <= USIZE_MAX then used == old(used) + additional else used == USIZE_MAX
    {
      used := if additional > USIZE_MAX - used then USIZE_MAX else used + additional;
    }

    method Shrink(amount: nat)
      requires Valid()
      modifies this`used
      ensures Valid() && used == SaturatingSub(old(used), amount)
      ensures if amount <= old(used) then used == old(used) - amount else used == 0
    {
      used := if used < amount then 0 else used - amount;
    }

    /** The atomic half: the new count, or the count that refused it. */
    method Claim(additional: nat) returns (r: Result<(), nat>)
      requires Valid()
      modifies this`used
      ensures Valid()
      ensures r.Ok? <==> Fits(old(used), additional, limit)
      ensures r.Ok? ==> used == old(used) + additional
      ensures r.Err? ==> used == old(used) && r.error == old(used)
    {
      if additional <= USIZE_MAX - used && used + additional <= limit {
        used := used + additional;
        return Ok(());
      }
      r := Err(used);
    }

    /** The locked half: the first refusal is the one kept. */
    method Record(refusal: Refusal)
      modifies this`refused
      ensures refused == First(old(refused), refusal)
    {
      if refused.None? {
        refused := Some(refusal);
      }
    }

    method TryGrow(consumer: nat, additional: nat) returns (r: Result<(), Refusal>)
      requires Valid()
      modifies this
      ensures Valid()
      ensures r.Ok? <==> old(used) + additional <= limit
      ensures r.Ok? ==> used == old(used) + additional && refused == old(refused)
      ensures r.Err? ==> used == old(used) && r.error == Refusal(consumer, additional, used, limit)
                         && refused == First(old(refused), r.error)
    {
      var claimed := Claim(additional);
      if claimed.Ok? {
        return Ok(());
      }
      var refusal := Refusal(consumer, additional, claimed.error, limit);
      Record(refusal);
      r := Err(refusal);
    }
  }

  // ------------------------------------------------------------------ every interleaving

  /** The pool, what is held through it, and the refusals between their claim and their record. */
  datatype State = State(used: nat, kept: Option<Refusal>, pending: seq<Refusal>, held: seq<nat>, refusals: nat)

  /** A step of some consumer: each is atomic, and a refused request takes two. */
  datatype Step = Grow(consumer: nat, amount: nat) | Shrink(consumer: nat, amount: nat)
      | Claim(consumer: nat, amount: nat) | Record(which: nat)

  function Start(consumers: nat): State {
    State(0, None, [], seq(consumers, _ => 0), 0)
  }

  predicate Enabled(s: State, step: Step) {
    if step.Record? then step.which < |s.pending| else step.consumer < |s.held|
  }

  function Next(s: State, step: Step, limit: nat): State
    requires Enabled(s, step)
  {
    match step
    case Grow(c, n) => s.(used := SaturatingAdd(s.used, n), held := s.held[c := s.held[c] + n])
    case Shrink(c, n) => s.(used := SaturatingSub(s.used, n), held := s.held[c := SaturatingSub(s.held[c], n)])
    case Claim(c, n) =>
      if Fits(s.used, n, limit) then s.(used := s.used + n, held := s.held[c := s.held[c] + n])
      else s.(pending := s.pending + [Refusal(c, n, s.used, limit)], refusals := s.refusals + 1)
    case Record(i) =>
      s.(kept := First(s.kept, s.pending[i]), pending := s.pending[..i] + s.pending[i + 1..])
  }

  /** Every step of the run is one some consumer could take. */
  ghost predicate CanRun(s: State, steps: seq<Step>, limit: nat)
    decreases |steps|
  {
    steps != [] ==> Enabled(s, steps[0]) && CanRun(Next(s, steps[0], limit), steps[1..], limit)
  }

  function Run(s: State, steps: seq<Step>, limit: nat): State
    requires CanRun(s, steps, limit)
    decreases |steps|
  {
    if steps == [] then s else Run(Next(s, steps[0], limit), steps[1..], limit)
  }

  /** Consumers that only ask, and give back no more than they hold. */
  ghost predicate Disciplined(s: State, steps: seq<Step>, limit: nat)
    requires CanRun(s, steps, limit)
    decreases |steps|
  {
    steps != [] ==>
      && !steps[0].Grow? && (steps[0].Shrink? ==> steps[0].amount <= s.held[steps[0].consumer])
      && Disciplined(Next(s, steps[0], limit), steps[1..], limit)
  }

  predicate Justified(r: Refusal, limit: nat) {
    r.budget == limit && r.reserved + r.requested > r.budget
  }

  /** What holds in every state of every run. */
  predicate Safe(s: State, limit: nat) {
    && s.used <= USIZE_MAX
    && (s.kept.Some? ==> Justified(s.kept.value, limit))
    && (forall i | 0 <= i < |s.pending| :: Justified(s.pending[i], limit))
    && (s.refusals > 0 ==> s.kept.Some? || s.pending != [])
  }

  lemma {:induction false} StepIsSafe(s: State, step: Step, limit: nat)
    requires Safe(s, limit) && Enabled(s, step) && limit <= USIZE_MAX
    ensures Safe(Next(s, step, limit), limit)
    ensures s.kept.Some? ==> Next(s, step, limit).kept == s.kept
  {
  }

  /** However the consumers' steps fall: the counter never wraps, a kept refusal never changes and was due, and
      once every refusal is recorded one is kept if any request was refused. */
  lemma {:induction false} EveryRunIsSafe(s: State, steps: seq<Step>, limit: nat)
    requires Safe(s, limit) && CanRun(s, steps, limit) && limit <= USIZE_MAX
    ensures Safe(Run(s, steps, limit), limit)
    ensures s.kept.Some? ==> Run(s, steps, limit).kept == s.kept
    decreases |steps|
  {
    if steps == [] {
    } else {
      StepIsSafe(s, steps[0], limit);
      EveryRunIsSafe(Next(s, steps[0], limit), steps[1..], limit);
    }
  }

  function Sum(ns: seq<nat>): nat {
    if ns == [] then 0 else ns[0] + Sum(ns[1..])
  }

  lemma {:induction false} SumUpdate(ns: seq<nat>, i: nat, n: nat)
    requires i < |ns|
    ensures Sum(ns[i := n]) == Sum(ns) - ns[i] + n && ns[i] <= Sum(ns)
  {
    if i > 0 {
      SumUpdate(ns[1..], i - 1, n);
      assert ns[i := n][1..] == ns[1..][i - 1 := n];
    } else {
      assert ns[0 := n][1..] == ns[1..];
    }
  }

  /** The counter is what is held, and is within the limit. */
  predicate Accounted(s: State, limit: nat) {
    s.used == Sum(s.held) && s.used <= limit
  }

  lemma {:induction false} EveryDisciplinedRunIsAccounted(s: State, steps: seq<Step>, limit: nat)
    requires CanRun(s, steps, limit) && Disciplined(s, steps, limit) && Accounted(s, limit)
    ensures Accounted(Run(s, steps, limit), limit)
    decreases |steps|
  {
    if steps == [] {
    } else {
      var step := steps[0];
      if step.Shrink? {
        SumUpdate(s.held, step.consumer, s.held[step.consumer] - step.amount);
      } else if step.Claim? {
        SumUpdate(s.held, step.consumer, s.held[step.consumer] + step.amount);
      }
      EveryDisciplinedRunIsAccounted(Next(s, step, limit), steps[1..], limit);
    }
  }

  lemma {:induction false} NothingIsHeld(consumers: nat)
    ensures Sum(Start(consumers).held) == 0
  {
    if consumers == 0 {
    } else {
      NothingIsHeld(consumers - 1);
      assert Start(consumers).held[1..] == Start(consumers - 1).held;
    }
  }

  /** Over every interleaving from the start. */
  lemma {:induction false} TheBudgetHolds(consumers: nat, steps: seq<Step>, limit: nat)
    requires limit <= USIZE_MAX && CanRun(Start(consumers), steps, limit)
    ensures var s := Run(Start(consumers), steps, limit);
            && s.used <= USIZE_MAX
            && (s.kept.Some? ==> Justified(s.kept.value, limit))
            && (s.pending == [] && s.refusals > 0 ==> s.kept.Some?)
            && (Disciplined(Start(consumers), steps, limit) ==> s.used == Sum(s.held) <= limit)
  {
    EveryRunIsSafe(Start(consumers), steps, limit);
    NothingIsHeld(consumers);
    if Disciplined(Start(consumers), steps, limit) {
      EveryDisciplinedRunIsAccounted(Start(consumers), steps, limit);
    }
  }

  /** Growing without asking can pass the limit: what bounds the count is asking. */
  lemma {:induction false} UnaskedGrowthPassesTheLimit(limit: nat)
    requires limit < USIZE_MAX
    ensures var steps := [Grow(0, limit + 1)];
            CanRun(Start(1), steps, limit) && Run(Start(1), steps, limit).used > limit
  {
    var steps := [Grow(0, limit + 1)];
    assert steps[1..] == [];
    assert CanRun(Next(Start(1), steps[0], limit), [], limit);
  }
}
