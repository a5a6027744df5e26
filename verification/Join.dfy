/** The join condition: taken apart on `and`, admitted as column equalities, and walked for the columns
    it names. A condition is read in SQL's three-valued logic. */
module Join {
  import opened Common
  import opened Results
  import opened Tables

  datatype Expr =
    | LitString(text: string)
    | LitBool(b: bool)
    | LitInt(n: int)
    | LitFloat(bits: int)
    | ColRef(source: string, column: string)
    | Concat(first: Expr, second: Expr)
    | IsNull(tested: Expr, negated: bool)
    | Call(func: string, args: seq<Expr>)
    | Bin(op: BinOp, lhs: Expr, rhs: Expr)
    | Unary(unop: UnOp, operand: Expr)
    | Ternary(cond: Expr, thn: Expr, otherwise: Expr)
    | Assert(name: string, inner: Expr)

  datatype JoinKind = Inner | LeftOuter | RightOuter | Full

  /** One side: the names its columns are qualified by, and the alias that replaces them. */
  datatype JoinSide = JoinSide(relations: seq<string>, alias: Option<string>) {
    predicate Addresses(name: string) {
      if alias.Some? then name == alias.value else name in relations
    }
  }

  datatype Failure = NotInner | NotEquality(conjunct: Expr) | NotColumns(conjunct: Expr)
      | NotAddressed(source: string) | NoColumn(source: string, column: string)

  // ------------------------------------------------------------------ conjuncts

  function Conjuncts(on: Expr): (out: seq<Expr>)
    ensures out != []
    ensures forall c | c in out :: !(c.Bin? && c.op.And?)
  {
    if on.Bin? && on.op.And? then Conjuncts(on.lhs) + Conjuncts(on.rhs) else [on]
  }

  datatype Truth = True | False | Unknown

  function And3(a: Truth, b: Truth): Truth {
    if a.False? || b.False? then False else if a.True? && b.True? then True else Unknown
  }

  /** What a pair of rows says: the cell under a qualified column, and the truth of any other condition. */
  datatype Reading = Reading(cell: (string, string) -> Cell, other: Expr -> Truth)

  function Equal3(a: Cell, b: Cell): Truth {
    if a.Null? || b.Null? then Unknown else if a == b then True else False
  }

  function Eval(e: Expr, r: Reading): Truth {
    if e.Bin? && e.op.And? then And3(Eval(e.lhs, r), Eval(e.rhs, r))
    else if e.Bin? && e.op.Eq? && e.lhs.ColRef? && e.rhs.ColRef? then
      Equal3(r.cell(e.lhs.source, e.lhs.column), r.cell(e.rhs.source, e.rhs.column))
    else r.other(e)
  }

  /** An equality of two columns is unknown beside a null, and else says whether the cells are one; a conjunction is
      false where a side is, true where both are, and else unknown. */
  lemma {:induction false} TruthIsThreeValued(
    s: string, a: string, t: string, b: string, lhs: Expr, rhs: Expr, r: Reading)
    ensures var e := Eval(Bin(Eq, ColRef(s, a), ColRef(t, b)), r);
            match (r.cell(s, a), r.cell(t, b))
            case (Val(x), Val(y)) => e == if x == y then True else False
            case _ => e == Unknown
    ensures var x, y := Eval(lhs, r), Eval(rhs, r);
            match Eval(Bin(And, lhs, rhs), r)
            case False => x == False || y == False
            case True => x == True && y == True
            case Unknown => x != False && y != False && (x == Unknown || y == Unknown)
  {
  }

  function EvalAll(conjuncts: seq<Expr>, r: Reading): Truth {
    if conjuncts == [] then True else And3(Eval(conjuncts[0], r), EvalAll(conjuncts[1..], r))
  }

  lemma {:induction false} EvalAppend(a: seq<Expr>, b: seq<Expr>, r: Reading)
    ensures EvalAll(a + b, r) == And3(EvalAll(a, r), EvalAll(b, r))
  {
    if a == [] {
      assert a + b == b;
    } else {
      EvalAppend(a[1..], b, r);
      assert (a + b)[1..] == a[1..] + b;
    }
  }

  /** Splitting a condition keeps its truth, unknown included. */
  lemma {:induction false} SplittingKeepsTruth(on: Expr, r: Reading)
    ensures EvalAll(Conjuncts(on), r) == Eval(on, r)
  {
    if on.Bin? && on.op.And? {
      SplittingKeepsTruth(on.lhs, r);
      SplittingKeepsTruth(on.rhs, r);
      EvalAppend(Conjuncts(on.lhs), Conjuncts(on.rhs), r);
    } else {
      assert Conjuncts(on) == [on] && [on][1..] == [];
    }
  }

  lemma {:induction false} AllTrue(conjuncts: seq<Expr>, r: Reading)
    ensures EvalAll(conjuncts, r).True? <==> forall c | c in conjuncts :: Eval(c, r).True?
  {
    if conjuncts == [] {
    } else {
      AllTrue(conjuncts[1..], r);
      assert conjuncts[0] in conjuncts && forall c | c in conjuncts[1..] :: c in conjuncts;
      assert forall c | c in conjuncts :: c == conjuncts[0] || c in conjuncts[1..];
    }
  }

  /** A pair satisfies a condition exactly when it satisfies every conjunct. */
  lemma {:induction false} SatisfiesEveryConjunct(on: Expr, r: Reading)
    ensures Eval(on, r).True? <==> forall c | c in Conjuncts(on) :: Eval(c, r).True?
  {
    SplittingKeepsTruth(on, r);
    AllTrue(Conjuncts(on), r);
  }

  // ------------------------------------------------------------------ how the `and`s associate

  predicate IsAnd(e: Expr) {
    e.Bin? && e.op.And?
  }

  /** `f` is `e` with one pair of `and`s rotated, wherever among its `and`s they are. */
  predicate Rotated(e: Expr, f: Expr) {
    && IsAnd(e) && IsAnd(f)
    && (|| (IsAnd(e.lhs) && f == Bin(And, e.lhs.lhs, Bin(And, e.lhs.rhs, e.rhs)))
        || (f.rhs == e.rhs && Rotated(e.lhs, f.lhs))
        || (f.lhs == e.lhs && Rotated(e.rhs, f.rhs)))
  }

  ghost predicate RotatesTo(e: Expr, f: Expr, n: nat)
    decreases n
  {
    if n == 0 then e == f else exists g :: Rotated(e, g) && RotatesTo(g, f, n - 1)
  }

  lemma {:induction false} RotationKeepsConjuncts(e: Expr, f: Expr)
    requires Rotated(e, f)
    ensures Conjuncts(e) == Conjuncts(f)
  {
    if IsAnd(e.lhs) && f == Bin(And, e.lhs.lhs, Bin(And, e.lhs.rhs, e.rhs)) {
      var a, b, c := Conjuncts(e.lhs.lhs), Conjuncts(e.lhs.rhs), Conjuncts(e.rhs);
      assert Conjuncts(e) == (a + b) + c && Conjuncts(f) == a + (b + c);
    } else if f.rhs == e.rhs && Rotated(e.lhs, f.lhs) {
      RotationKeepsConjuncts(e.lhs, f.lhs);
    } else {
      RotationKeepsConjuncts(e.rhs, f.rhs);
    }
  }

  lemma {:induction false} RotationsKeepConjuncts(e: Expr, f: Expr, n: nat)
    requires RotatesTo(e, f, n)
    ensures Conjuncts(e) == Conjuncts(f)
    decreases n
  {
    if n == 0 {
    } else {
      var g :| Rotated(e, g) && RotatesTo(g, f, n - 1);
      RotationKeepsConjuncts(e, g);
      RotationsKeepConjuncts(g, f, n - 1);
    }
  }

  lemma {:induction false} RotationsCompose(e: Expr, f: Expr, g: Expr, n: nat, m: nat)
    requires RotatesTo(e, f, n) && RotatesTo(f, g, m)
    ensures RotatesTo(e, g, n + m)
    decreases n
  {
    if n == 0 {
    } else {
      var h :| Rotated(e, h) && RotatesTo(h, f, n - 1);
      RotationsCompose(h, f, g, n - 1, m);
    }
  }

  lemma {:induction false} RotationsUnder(e: Expr, f: Expr, other: Expr, n: nat)
    requires RotatesTo(e, f, n)
    ensures RotatesTo(Bin(And, e, other), Bin(And, f, other), n)
    ensures RotatesTo(Bin(And, other, e), Bin(And, other, f), n)
    decreases n
  {
    if n == 0 {
    } else {
      var g :| Rotated(e, g) && RotatesTo(g, f, n - 1);
      RotationsUnder(g, f, other, n - 1);
      assert Rotated(Bin(And, e, other), Bin(And, g, other)) && Rotated(Bin(And, other, e), Bin(And, other, g));
    }
  }

  /** The condition of these conjuncts whose `and`s all associate to the right. */
  function RightComb(conjuncts: seq<Expr>): Expr
    requires conjuncts != []
  {
    if |conjuncts| == 1 then conjuncts[0] else Bin(And, conjuncts[0], RightComb(conjuncts[1..]))
  }

  lemma {:induction false} CombsJoin(a: seq<Expr>, b: seq<Expr>) returns (n: nat)
    requires a != [] && b != []
    ensures RotatesTo(Bin(And, RightComb(a), RightComb(b)), RightComb(a + b), n)
  {
    assert (a + b)[1..] == a[1..] + b;
    if |a| == 1 {
      assert a[1..] + b == b;
      return 0;
    }
    n := CombsJoin(a[1..], b);
    var inner := Bin(And, RightComb(a[1..]), RightComb(b));
    RotationsUnder(inner, RightComb(a[1..] + b), a[0], n);
    assert Rotated(Bin(And, RightComb(a), RightComb(b)), Bin(And, a[0], inner));
    n := n + 1;
  }

  lemma {:induction false} SidesRotate(l: Expr, a: seq<Expr>, n: nat, r: Expr, b: seq<Expr>, m: nat) returns (k: nat)
    requires a != [] && b != []
    requires RotatesTo(l, RightComb(a), n) && RotatesTo(r, RightComb(b), m)
    ensures RotatesTo(Bin(And, l, r), RightComb(a + b), k)
  {
    hide RotatesTo, RightComb;
    var j := CombsJoin(a, b);
    var half := Bin(And, RightComb(a), r);
    RotationsUnder(l, RightComb(a), r, n);
    RotationsUnder(r, RightComb(b), RightComb(a), m);
    RotationsCompose(half, Bin(And, RightComb(a), RightComb(b)), RightComb(a + b), m, j);
    RotationsCompose(Bin(And, l, r), half, RightComb(a + b), n, m + j);
    k := n + (m + j);
  }

  lemma {:induction false} RotatesToComb(e: Expr) returns (n: nat)
    ensures RotatesTo(e, RightComb(Conjuncts(e)), n)
  {
    if !IsAnd(e) {
      return 0;
    }
    var l := RotatesToComb(e.lhs);
    var r := RotatesToComb(e.rhs);
    n := SidesRotate(e.lhs, Conjuncts(e.lhs), l, e.rhs, Conjuncts(e.rhs), r);
    assert e == Bin(And, e.lhs, e.rhs);
  }

  /** The split sees nothing of how the `and`s associate and everything else: two conditions have the same
      conjuncts exactly when rotating their `and`s makes them one. */
  lemma {:induction false} AssociationIsIrrelevant(a: Expr, b: Expr)
    ensures Conjuncts(a) == Conjuncts(b) <==> exists c, n: nat, m: nat :: RotatesTo(a, c, n) && RotatesTo(b, c, m)
  {
    var n := RotatesToComb(a);
    var m := RotatesToComb(b);
    hide RotatesTo, RightComb;
    if Conjuncts(a) == Conjuncts(b) {
      var comb := RightComb(Conjuncts(a));
      assert RotatesTo(a, comb, n) && RotatesTo(b, comb, m);
    }
    if c, i: nat, j: nat :| RotatesTo(a, c, i) && RotatesTo(b, c, j) {
      RotationsKeepConjuncts(a, c, i);
      RotationsKeepConjuncts(b, c, j);
    }
  }

  /** So any two conditions with the same leaves in the same order mean the same. */
  lemma {:induction false} SameConjunctsSameTruth(a: Expr, b: Expr, r: Reading)
    requires Conjuncts(a) == Conjuncts(b)
    ensures Eval(a, r) == Eval(b, r)
  {
    SplittingKeepsTruth(a, r);
    SplittingKeepsTruth(b, r);
  }

  // ------------------------------------------------------------------ join_equalities

  predicate Addressed(source: string, left: JoinSide, right: JoinSide) {
    source == "" || left.Addresses(source) || right.Addresses(source)
  }

  /** The admitted form: an equality between two columns, each unqualified or of one of the sides. */
  predicate Admitted(c: Expr, left: JoinSide, right: JoinSide) {
    && c.Bin? && c.op.Eq? && c.lhs.ColRef? && c.rhs.ColRef?
    && Addressed(c.lhs.source, left, right) && Addressed(c.rhs.source, left, right)
  }

  /** A qualifier is a side's alias where it has one, and then none of its relations' names; else one of those. */
  predicate Qualifies(n: string, side: JoinSide) {
    match side.alias
    case Some(alias) => n == alias
    case None => n in side.relations
  }

  /** An equality of two columns is admitted exactly when each is unqualified or a side's. */
  lemma {:induction false} EqualitiesAreQualified(
    s: string, a: string, t: string, b: string, left: JoinSide, right: JoinSide)
    ensures Admitted(Bin(Eq, ColRef(s, a), ColRef(t, b)), left, right) <==>
            && (s == "" || Qualifies(s, left) || Qualifies(s, right))
            && (t == "" || Qualifies(t, left) || Qualifies(t, right))
  {
  }

  /** What a refused conjunct is refused for. */
  function Refusal(c: Expr, left: JoinSide, right: JoinSide): Failure
    requires !Admitted(c, left, right)
  {
    if !c.Bin? || !c.op.Eq? then NotEquality(c)
    else if !c.lhs.ColRef? || !c.rhs.ColRef? then NotColumns(c)
    else if !Addressed(c.lhs.source, left, right) then NotAddressed(c.lhs.source)
    else NotAddressed(c.rhs.source)
  }

  predicate Equates(c: Expr, x: Expr, y: Expr) {
    c == Bin(Eq, x, y)
  }

  /** A conjunct that is no equality is refused as that; an equality that is not of two columns as that; and else for
      the first of its two qualifiers that is no side's. */
  lemma {:induction false} RefusalsAre(c: Expr, left: JoinSide, right: JoinSide)
    requires !Admitted(c, left, right)
    ensures match Refusal(c, left, right)
            case NotEquality(d) => d == c && forall x, y :: !Equates(c, x, y)
            case NotColumns(d) => d == c && exists x, y :: Equates(c, x, y) && !(x.ColRef? && y.ColRef?)
            case NotAddressed(n) =>
              exists s, a, t, b :: Equates(c, ColRef(s, a), ColRef(t, b))
                && n != "" && !Qualifies(n, left) && !Qualifies(n, right)
                && (n == s || (n == t && (s == "" || Qualifies(s, left) || Qualifies(s, right))))
            case _ => false
  {
    if c.Bin? && c.op.Eq? {
      assert Equates(c, c.lhs, c.rhs);
      if c.lhs.ColRef? && c.rhs.ColRef? {
        assert Equates(c, ColRef(c.lhs.source, c.lhs.column), ColRef(c.rhs.source, c.rhs.column));
      }
    }
  }

  method JoinEqualities(on: Expr, left: JoinSide, right: JoinSide) returns (r: Result<seq<Expr>, Failure>)
    ensures r.Ok? <==> forall c | c in Conjuncts(on) :: Admitted(c, left, right)
    ensures r.Ok? ==> r.value == Conjuncts(on)
    ensures r.Err? ==>
        exists k :: FirstRefused(Conjuncts(on), k, left, right) && r.error == Refusal(Conjuncts(on)[k], left, right)
  {
    var conjuncts := Conjuncts(on);
    var out: seq<Expr> := [];
    for k := 0 to |conjuncts|
      invariant out == conjuncts[..k]
      invariant forall j | 0 <= j < k :: Admitted(conjuncts[j], left, right)
    {
      var c := conjuncts[k];
      assert c in conjuncts;
      if !c.Bin? || !c.op.Eq? {
        assert FirstRefused(conjuncts, k, left, right);
        return Err(NotEquality(c));
      }
      if !c.lhs.ColRef? || !c.rhs.ColRef? {
        assert FirstRefused(conjuncts, k, left, right);
        return Err(NotColumns(c));
      }
      var sources := [c.lhs.source, c.rhs.source];
      for s := 0 to 2
        invariant forall j | 0 <= j < s :: Addressed(sources[j], left, right)
      {
        if sources[s] != "" && !left.Addresses(sources[s]) && !right.Addresses(sources[s]) {
          assert s == 1 ==> Addressed(sources[0], left, right);
          assert FirstRefused(conjuncts, k, left, right) && Refusal(c, left, right) == NotAddressed(sources[s]);
          return Err(NotAddressed(sources[s]));
        }
      }
      assert Addressed(sources[0], left, right) && Addressed(sources[1], left, right);
      out := out + [c];
    }
    r := Ok(out);
  }

  ghost predicate FirstRefused(conjuncts: seq<Expr>, k: int, left: JoinSide, right: JoinSide) {
    && 0 <= k < |conjuncts| && !Admitted(conjuncts[k], left, right)
    && forall j | 0 <= j < k :: Admitted(conjuncts[j], left, right)
  }

  // ------------------------------------------------------------------ condition_refs

  type Ref = (string, string)

  function Size(e: Expr): nat {
    match e
    case Bin(_, l, r) => 1 + Size(l) + Size(r)
    case Concat(l, r) => 1 + Size(l) + Size(r)
    case _ => 1
  }

  function StackSize(stack: seq<Expr>): nat {
    if stack == [] then 0 else StackSize(stack[..|stack| - 1]) + Size(stack[|stack| - 1])
  }

  /** The qualified references under binary operators and concatenations, the right operand's first. */
  function Walked(e: Expr): seq<Ref> {
    match e
    case ColRef(s, c) => if s == "" then [] else [(s, c)]
    case Bin(_, l, r) => Walked(r) + Walked(l)
    case Concat(l, r) => Walked(r) + Walked(l)
    case _ => []
  }

  function WalkedStack(stack: seq<Expr>): seq<Ref> {
    if stack == [] then [] else Walked(stack[|stack| - 1]) + WalkedStack(stack[..|stack| - 1])
  }

  /** The explicit stack of the walk: the last pushed is read first. */
  method ConditionRefs(on: Expr) returns (out: seq<Ref>)
    ensures out == Walked(on)
  {
    out := [];
    var stack := [on];
    assert stack[..0] == [];
    while stack != []
      invariant out + WalkedStack(stack) == Walked(on)
      decreases StackSize(stack)
    {
      var popped, pushed := Visit(stack[|stack| - 1]);
      VisitKeepsTheWalk(stack, pushed, out, popped, Walked(on));
      out := out + popped;
      stack := stack[..|stack| - 1] + pushed;
    }
  }

  /** One popped expression: what it names itself, and what it pushes. */
  method Visit(e: Expr) returns (named: seq<Ref>, pushed: seq<Expr>)
    ensures named + WalkedPushed(pushed) == Walked(e)
    ensures |pushed| == 0 || |pushed| == 2
    ensures PushedSize(pushed) < Size(e)
  {
    named, pushed := [], [];
    match e {
      case ColRef(source, column) =>
        if source != "" {
          named := [(source, column)];
        }
      case Bin(_, lhs, rhs) => pushed := [lhs, rhs];
      case Concat(first, second) => pushed := [first, second];
      case _ =>
    }
  }

  function WalkedPushed(pushed: seq<Expr>): seq<Ref> {
    if |pushed| == 2 then Walked(pushed[1]) + Walked(pushed[0]) else []
  }

  function PushedSize(pushed: seq<Expr>): nat {
    if |pushed| == 2 then Size(pushed[0]) + Size(pushed[1]) else 0
  }

  lemma {:induction false} Pushed(rest: seq<Expr>, pushed: seq<Expr>)
    requires |pushed| == 0 || |pushed| == 2
    ensures StackSize(rest + pushed) == StackSize(rest) + PushedSize(pushed)
    ensures WalkedStack(rest + pushed) == WalkedPushed(pushed) + WalkedStack(rest)
  {
    if pushed == [] {
      assert rest + pushed == rest;
    } else {
      var one, two := rest + [pushed[0]], rest + pushed;
      assert two[..|two| - 1] == one && one[..|one| - 1] == rest;
      assert WalkedStack(two) == Walked(pushed[1]) + (Walked(pushed[0]) + WalkedStack(rest));
    }
  }

  lemma {:induction false} VisitKeepsTheWalk(
    stack: seq<Expr>, pushed: seq<Expr>, out: seq<Ref>, named: seq<Ref>, whole: seq<Ref>)
    requires stack != [] && out + WalkedStack(stack) == whole
    requires |pushed| == 0 || |pushed| == 2
    requires named + WalkedPushed(pushed) == Walked(stack[|stack| - 1]) && PushedSize(pushed) < Size(stack[|stack| - 1])
    ensures (out + named) + WalkedStack(stack[..|stack| - 1] + pushed) == whole
    ensures StackSize(stack[..|stack| - 1] + pushed) < StackSize(stack)
  {
    var rest := stack[..|stack| - 1];
    Pushed(rest, pushed);
    Reassociate(out, named, WalkedPushed(pushed), WalkedStack(rest));
  }

  lemma {:induction false} Reassociate<T>(a: seq<T>, b: seq<T>, c: seq<T>, d: seq<T>)
    ensures (a + b) + (c + d) == a + ((b + c) + d)
  {}

  /** Every qualified reference anywhere in an expression. */
  function AllRefs(e: Expr): set<Ref> {
    match e
    case ColRef(s, c) => if s == "" then {} else {(s, c)}
    case Concat(l, r) => AllRefs(l) + AllRefs(r)
    case IsNull(t, _) => AllRefs(t)
    case Call(_, args) => set a, r | a in args && r in AllRefs(a) :: r
    case Bin(_, l, r) => AllRefs(l) + AllRefs(r)
    case Unary(_, o) => AllRefs(o)
    case Ternary(c, t, o) => AllRefs(c) + AllRefs(t) + AllRefs(o)
    case Assert(_, i) => AllRefs(i)
    case _ => {}
  }

  /** `s` is the condition, or under its binary operators and concatenations and nothing else. */
  predicate Beside(s: Expr, on: Expr) {
    match on
    case Bin(_, l, r) => s == on || Beside(s, l) || Beside(s, r)
    case Concat(l, r) => s == on || Beside(s, l) || Beside(s, r)
    case _ => s == on
  }

  /** The walk collects the qualified columns there, and only those. */
  lemma {:induction false} WalkedAreBeside(on: Expr, source: string, column: string)
    ensures (source, column) in Walked(on) <==> source != "" && Beside(ColRef(source, column), on)
  {
    match on {
      case Bin(_, l, r) =>
        WalkedAreBeside(l, source, column);
        WalkedAreBeside(r, source, column);
      case Concat(l, r) =>
        WalkedAreBeside(l, source, column);
        WalkedAreBeside(r, source, column);
      case _ =>
    }
  }

  /** Of an admitted condition the walk misses no reference, though it enters neither calls nor branches. */
  lemma {:induction false} AdmittedRefsAreAllWalked(on: Expr, left: JoinSide, right: JoinSide)
    requires forall c | c in Conjuncts(on) :: Admitted(c, left, right)
    ensures forall r :: r in Walked(on) <==> r in AllRefs(on)
  {
    if on.Bin? && on.op.And? {
      AdmittedRefsAreAllWalked(on.lhs, left, right);
      AdmittedRefsAreAllWalked(on.rhs, left, right);
    } else {
      assert on in Conjuncts(on);
    }
  }

  // ------------------------------------------------------------------ join

  /** The pairs an inner join keeps, left rows first. */
  function Kept<L, R>(left: seq<L>, right: seq<R>, keep: (L, R) -> bool): seq<(L, R)> {
    if left == [] then [] else KeptOf(left[0], right, keep) + Kept(left[1..], right, keep)
  }

  function KeptOf<L, R>(l: L, right: seq<R>, keep: (L, R) -> bool): seq<(L, R)> {
    if right == [] then []
    else (if keep(l, right[0]) then [(l, right[0])] else []) + KeptOf(l, right[1..], keep)
  }

  lemma {:induction false} KeepsTheSame<L, R>(left: seq<L>, right: seq<R>, a: (L, R) -> bool, b: (L, R) -> bool)
    requires forall l, r | l in left && r in right :: a(l, r) == b(l, r)
    ensures Kept(left, right, a) == Kept(left, right, b)
  {
    if left == [] {
    } else {
      KeepsTheSameOf(left[0], right, a, b);
      KeepsTheSame(left[1..], right, a, b);
    }
  }

  lemma {:induction false} KeepsTheSameOf<L, R>(l: L, right: seq<R>, a: (L, R) -> bool, b: (L, R) -> bool)
    requires forall r | r in right :: a(l, r) == b(l, r)
    ensures KeptOf(l, right, a) == KeptOf(l, right, b)
  {
    if right == [] {
    } else {
      KeepsTheSameOf(l, right[1..], a, b);
    }
  }

  /** A side has every column the condition says is its own. */
  predicate HasItsColumns(refs: seq<Ref>, side: JoinSide, columns: set<string>) {
    forall r | r in refs && side.Addresses(r.0) :: r.1 in columns
  }

  predicate AllHold(conjuncts: seq<Expr>, r: Reading) {
    forall c | c in conjuncts :: Eval(c, r).True?
  }

  /** The kind is refused before the condition, the condition before its columns, and the left side's columns before
      the right's, each at the first place it can be. */
  ghost predicate JoinRefused(
    error: Failure, leftSide: JoinSide, rightSide: JoinSide, leftColumns: set<string>, rightColumns: set<string>,
    on: Expr, kind: JoinKind)
  {
    if kind != Inner then error == NotInner
    else if exists k :: FirstRefused(Conjuncts(on), k, leftSide, rightSide) then
      exists k :: FirstRefused(Conjuncts(on), k, leftSide, rightSide)
                  && error == Refusal(Conjuncts(on)[k], leftSide, rightSide)
    else if exists k :: FirstMissing(Walked(on), k, leftSide, leftColumns) then
      exists k :: FirstMissing(Walked(on), k, leftSide, leftColumns)
                  && error == NoColumn(Walked(on)[k].0, Walked(on)[k].1)
    else
      exists k :: FirstMissing(Walked(on), k, rightSide, rightColumns)
                  && error == NoColumn(Walked(on)[k].0, Walked(on)[k].1)
  }

  /** The `k`th reference is the first the side qualifies and has no column for. */
  ghost predicate FirstMissing(refs: seq<Ref>, k: int, side: JoinSide, columns: set<string>) {
    && 0 <= k < |refs|
    && Qualifies(refs[k].0, side) && refs[k].1 !in columns
    && forall j | 0 <= j < k :: Qualifies(refs[j].0, side) ==> refs[j].1 in columns
  }

  /** The planned join is the pairs of rows of which the condition, as written, is true. */
  method PlanJoin<L, R>(
    left: seq<L>, right: seq<R>, leftSide: JoinSide, rightSide: JoinSide, leftColumns: set<string>,
    rightColumns: set<string>,
    on: Expr, kind: JoinKind, read: (L, R) -> Reading)
    returns (r: Result<seq<(L, R)>, Failure>)
    ensures r.Ok? <==>
      && kind.Inner? && (forall c | c in Conjuncts(on) :: Admitted(c, leftSide, rightSide))
      && HasItsColumns(Walked(on), leftSide, leftColumns) && HasItsColumns(Walked(on), rightSide, rightColumns)
    ensures r.Ok? ==> r.value == Kept(left, right, (l, r) => Eval(on, read(l, r)).True?)
    ensures r.Err? ==> JoinRefused(r.error, leftSide, rightSide, leftColumns, rightColumns, on, kind)
  {
    if !kind.Inner? {
      return Err(NotInner);
    }
    var equalities := JoinEqualities(on, leftSide, rightSide);
    if equalities.Err? {
      return Err(equalities.error);
    }
    var refs := ConditionRefs(on);
    var missing := MissingColumn(refs, leftSide, leftColumns);
    if missing.Some? {
      return Err(NoColumn(missing.value.0, missing.value.1));
    }
    missing := MissingColumn(refs, rightSide, rightColumns);
    if missing.Some? {
      return Err(NoColumn(missing.value.0, missing.value.1));
    }
    forall l, r | l in left && r in right
      ensures AllHold(equalities.value, read(l, r)) == Eval(on, read(l, r)).True?
    {
      SatisfiesEveryConjunct(on, read(l, r));
    }
    KeepsTheSame(left, right, (l, r) => AllHold(equalities.value, read(l, r)), (l, r) => Eval(on, read(l, r)).True?);
    r := Ok(Kept(left, right, (l, r) => AllHold(equalities.value, read(l, r))));
  }

  method MissingColumn(refs: seq<Ref>, side: JoinSide, columns: set<string>) returns (missing: Option<Ref>)
    ensures missing.None? <==> HasItsColumns(refs, side, columns)
    ensures missing.Some? ==> exists k :: FirstMissing(refs, k, side, columns) && refs[k] == missing.value
  {
    for k := 0 to |refs|
      invariant forall j | 0 <= j < k :: side.Addresses(refs[j].0) ==> refs[j].1 in columns
    {
      if side.Addresses(refs[k].0) && refs[k].1 !in columns {
        assert FirstMissing(refs, k, side, columns);
        return Some(refs[k]);
      }
    }
    missing := None;
  }

  /** A side has its columns exactly when it has the column of every reference its alias, or else one of its
      relations, qualifies. */
  lemma {:induction false} QualifiedColumnsAreThere(refs: seq<Ref>, side: JoinSide, columns: set<string>)
    ensures HasItsColumns(refs, side, columns) <==> forall r | r in refs && Qualifies(r.0, side) :: r.1 in columns
  {
  }

  /** The pairs kept are those the condition keeps, each as often as its two rows meet. */
  lemma {:induction false} KeptAsOftenAsTheyMeet<L, R>(left: seq<L>, right: seq<R>, keep: (L, R) -> bool, l: L, r: R)
    ensures multiset(Kept(left, right, keep))[(l, r)]
            == if keep(l, r) then multiset(left)[l] * multiset(right)[r] else 0
  {
    if left == [] {
    } else {
      hide KeptOf;
      KeptAsOftenAsTheyMeet(left[1..], right, keep, l, r);
      KeptOfAsOften(left[0], right, keep, l, r);
      CountsSplit(left, l);
      OneMore(multiset(left[1..])[l], multiset(right)[r]);
    }
  }

  lemma {:induction false} CountsSplit<L>(left: seq<L>, l: L)
    requires left != []
    ensures multiset(left)[l] == multiset(left[1..])[l] + if left[0] == l then 1 else 0
  {
    assert left == [left[0]] + left[1..];
  }

  lemma {:induction false} OneMore(n: nat, m: nat)
    ensures (n + 1) * m == n * m + m
  {
  }

  lemma {:induction false} KeptOfAsOften<L, R>(first: L, right: seq<R>, keep: (L, R) -> bool, l: L, r: R)
    ensures multiset(KeptOf(first, right, keep))[(l, r)]
            == if first == l && keep(l, r) then multiset(right)[r] else 0
  {
    if right == [] {
    } else {
      KeptOfAsOften(first, right[1..], keep, l, r);
      assert right == [right[0]] + right[1..];
    }
  }

  /** Of an admitted condition: a pair is kept exactly when every equated pair of cells is there and equal. */
  lemma {:induction false} KeptPairsAgree(on: Expr, left: JoinSide, right: JoinSide, r: Reading)
    requires forall c | c in Conjuncts(on) :: Admitted(c, left, right)
    ensures Eval(on, r).True? <==> forall c | c in Conjuncts(on) ::
      && c.Bin? && c.lhs.ColRef? && c.rhs.ColRef?
      && r.cell(c.lhs.source, c.lhs.column).Val?
      && r.cell(c.lhs.source, c.lhs.column) == r.cell(c.rhs.source, c.rhs.column)
  {
    SatisfiesEveryConjunct(on, r);
  }
}
