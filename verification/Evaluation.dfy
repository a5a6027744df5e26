/** What a condition means in a run, written without the folder, and what the folder decides against it. */
module Evaluation {
  import opened Common
  import opened Hir
  import opened Fold
  import Text

  // ------------------------------------------------------------------ values in order

  /** A number, as a float. */
  function AsFloat(c: Constant, fl: Floats): Option<int> {
    match c
    case Int(i) => Some(fl.ofInt(i))
    case Float(f) => Some(f)
    case Text(_) => None
    case Bool(_) => None
  }

  predicate Numbers(l: Constant, r: Constant) {
    (l.Int? || l.Float?) && (r.Int? || r.Float?)
  }

  /** Two numbers of which one is a float are in the order of floats. */
  function FloatOrder(l: Constant, r: Constant, fl: Floats): Option<Order>
    requires Numbers(l, r)
  {
    fl.compare(AsFloat(l, fl).value, AsFloat(r, fl).value)
  }

  ghost predicate Comparable(l: Constant, r: Constant, fl: Floats) {
    || (l.Text? && r.Text?) || (l.Bool? && r.Bool?) || (l.Int? && r.Int?)
    || (Numbers(l, r) && FloatOrder(l, r, fl).Some?)
  }

  ghost predicate Below(l: Constant, r: Constant, fl: Floats) {
    match (l, r)
    case (Text(a), Text(b)) => Text.Before(a, b)
    case (Bool(a), Bool(b)) => !a && b
    case (Int(a), Int(b)) => a < b
    case _ => Numbers(l, r) && FloatOrder(l, r, fl) == Some(Less)
  }

  ghost predicate Above(l: Constant, r: Constant, fl: Floats) {
    match (l, r)
    case (Text(a), Text(b)) => Text.Before(b, a)
    case (Bool(a), Bool(b)) => a && !b
    case (Int(a), Int(b)) => a > b
    case _ => Numbers(l, r) && FloatOrder(l, r, fl) == Some(Greater)
  }

  ghost predicate Same(l: Constant, r: Constant, fl: Floats) {
    match (l, r)
    case (Text(a), Text(b)) => a == b
    case (Bool(a), Bool(b)) => a == b
    case (Int(a), Int(b)) => a == b
    case _ => Numbers(l, r) && FloatOrder(l, r, fl) == Some(Equal)
  }

  // ------------------------------------------------------------------ whole numbers

  /** A whole number, where 64 bits hold it. */
  function Whole(i: int): Option<Constant> {
    if -9_223_372_036_854_775_808 <= i <= 9_223_372_036_854_775_807 then Some(Int(i)) else None
  }

  function Magnitude(i: int): int {
    if i < 0 then -i else i
  }

  predicate Divides(a: int, b: int, q: int, r: int) {
    a == q * b + r
  }

  /** `r` is what is left of `a` by `b`: less than `b`, and of the sign of `a`. */
  ghost predicate IsRemainder(a: int, b: int, r: int) {
    (exists q :: Divides(a, b, q, r)) && Magnitude(r) < Magnitude(b) && (r > 0 ==> a > 0) && (r < 0 ==> a < 0)
  }

  lemma {:induction false} RemainderIsOne(a: int, b: int, r: int, s: int)
    requires IsRemainder(a, b, r) && IsRemainder(a, b, s)
    ensures r == s
  {
    var p :| Divides(a, b, p, r);
    var q :| Divides(a, b, q, s);
    assert (p - q) * b == s - r;
    if p > q {
      FurtherApart(p - q, b);
    } else if p < q {
      assert (q - p) * b == r - s;
      FurtherApart(q - p, b);
    }
  }

  lemma {:induction false} FurtherApart(n: int, b: int)
    requires n > 0
    ensures Magnitude(n * b) >= Magnitude(b)
  {
  }

  lemma {:induction false} MagnitudesDivide(a: int, b: int) returns (q: int, r: int)
    requires b != 0
    ensures Divides(Magnitude(a), Magnitude(b), q, r) && 0 <= r < Magnitude(b) && (a == 0 ==> r == 0)
    ensures TruncatedRem(a, b) == if a < 0 then -r else r
  {
    q, r := Magnitude(a) / Magnitude(b), Magnitude(a) % Magnitude(b);
  }

  lemma {:induction false} SignsDivide(a: int, b: int, q: int, r: int)
    requires Divides(Magnitude(a), Magnitude(b), q, r)
    ensures Divides(a, b, if (a < 0) == (b < 0) then q else -q, if a < 0 then -r else r)
  {
    if a < 0 && b > 0 {
      assert (-q) * b == -(q * b);
    } else if a >= 0 && b < 0 {
      assert (-q) * b == q * (-b);
    }
  }

  lemma {:induction false} TruncatedRemIsRemainder(a: int, b: int)
    requires b != 0
    ensures IsRemainder(a, b, TruncatedRem(a, b))
  {
    hide *;
    var q, r := MagnitudesDivide(a, b);
    SignsDivide(a, b, q, r);
    var k := if (a < 0) == (b < 0) then q else -q;
    LeavesRemainder(a, b, k, TruncatedRem(a, b), r);
  }

  lemma {:induction false} LeavesRemainder(a: int, b: int, k: int, s: int, r: int)
    requires Divides(a, b, k, s) && s == (if a < 0 then -r else r) && 0 <= r < Magnitude(b) && (a == 0 ==> r == 0)
    ensures IsRemainder(a, b, s)
  {
    hide Divides;
  }

  ghost function Remainder(a: int, b: int): (r: int)
    requires b != 0
    ensures IsRemainder(a, b, r)
  {
    TruncatedRemIsRemainder(a, b);
    var r :| IsRemainder(a, b, r);
    r
  }

  // ------------------------------------------------------------------ the operators

  ghost function Compare(op: BinOp, l: Constant, r: Constant, fl: Floats): Option<Constant> {
    if !Comparable(l, r, fl) then None
    else
      match op
      case Eq => Some(Bool(Same(l, r, fl)))
      case Ne => Some(Bool(!Same(l, r, fl)))
      case Lt => Some(Bool(Below(l, r, fl)))
      case Le => Some(Bool(Below(l, r, fl) || Same(l, r, fl)))
      case Gt => Some(Bool(Above(l, r, fl)))
      case Ge => Some(Bool(Above(l, r, fl) || Same(l, r, fl)))
      case _ => None
  }

  /** Whole numbers exactly, and any others as floats; a quotient is always a float. */
  ghost function Reckon(op: BinOp, l: Constant, r: Constant, fl: Floats): Option<Constant> {
    if !Numbers(l, r) then None
    else if l.Int? && r.Int? && !op.Div? then
      match op
      case Add => Whole(l.i + r.i)
      case Sub => Whole(l.i - r.i)
      case Mul => Whole(l.i * r.i)
      case Rem =>
        if r.i == 0 || (l.i == -9_223_372_036_854_775_808 && r.i == -1) then None else Some(Int(Remainder(l.i, r.i)))
      case _ => None
    else
      var a, b := AsFloat(l, fl).value, AsFloat(r, fl).value;
      match op
      case Add => Some(Float(fl.add(a, b)))
      case Sub => Some(Float(fl.sub(a, b)))
      case Mul => Some(Float(fl.mul(a, b)))
      case Div => Some(Float(fl.div(a, b)))
      case Rem => Some(Float(fl.rem(a, b)))
      case _ => None
  }

  ghost function Binary(op: BinOp, l: Constant, r: Constant, fl: Floats): Option<Constant> {
    match op
    case And => if l.Bool? && r.Bool? then Some(Bool(l.b && r.b)) else None
    case Or => if l.Bool? && r.Bool? then Some(Bool(l.b || r.b)) else None
    case Add => Reckon(op, l, r, fl)
    case Sub => Reckon(op, l, r, fl)
    case Mul => Reckon(op, l, r, fl)
    case Div => Reckon(op, l, r, fl)
    case Rem => Reckon(op, l, r, fl)
    case _ => Compare(op, l, r, fl)
  }

  function Negated(op: UnOp, c: Constant, fl: Floats): Option<Constant> {
    if op.Not? then if c.Bool? then Some(Bool(if c.b then false else true)) else None
    else if c.Int? then Whole(0 - c.i)
    else if c.Float? then Some(Float(fl.neg(c.f)))
    else None
  }

  /** The calls on texts: how long one is, and whether it is another with text around it, behind or before. */
  ghost function Called(func: string, args: seq<Constant>): Option<Constant> {
    if func == "str.length" then if |args| == 1 && args[0].Text? then Whole(|args[0].t|) else None
    else if |args| != 2 || !args[0].Text? || !args[1].Text? then None
    else if func == "str.contains" then Some(Bool(exists p, q: string :: Around(args[0].t, p, args[1].t, q)))
    else if func == "str.starts_with" then Some(Bool(exists q: string :: Around(args[0].t, "", args[1].t, q)))
    else if func == "str.ends_with" then Some(Bool(exists p: string :: Around(args[0].t, p, args[1].t, "")))
    else None
  }

  predicate Around(t: string, p: string, n: string, q: string) {
    t == p + n + q
  }

  // ------------------------------------------------------------------ a run

  type Env = map<string, Constant>

  /** Everything decided, as a run decides it: a name by the row, and whatever has no fixed meaning by `run`. */
  ghost function Evaluate(e: Expr, env: Env, run: Expr -> Constant, fl: Floats): Constant {
    match e
    case IntLit(i) => Int(i)
    case FloatLit(f) => Float(f)
    case StringLit(s) => Text(s)
    case LangStringLit(s, _) => Text(s)
    case BoolLit(b) => Bool(b)
    case FieldRef(name) => if name in env then env[name] else run(e)
    case Unary(op, operand) => Decided(Negated(op, Evaluate(operand, env, run, fl), fl), run(e))
    case Bin(op, lhs, rhs) => Decided(Binary(op, Evaluate(lhs, env, run, fl), Evaluate(rhs, env, run, fl), fl), run(e))
    case Call(func, args) => Decided(Called(func, EvaluateAll(args, env, run, fl)), run(e))
    case _ => run(e)
  }

  ghost function EvaluateAll(es: seq<Expr>, env: Env, run: Expr -> Constant, fl: Floats): (vs: seq<Constant>)
    ensures |vs| == |es|
  {
    if es == [] then [] else [Evaluate(es[0], env, run, fl)] + EvaluateAll(es[1..], env, run, fl)
  }

  function Decided(v: Option<Constant>, otherwise: Constant): Constant {
    if v.Some? then v.value else otherwise
  }

  // ------------------------------------------------------------------ the folder's operators mean that

  lemma {:induction false} TextsCompare(a: string, b: string)
    ensures CompareTexts(a, b).Less? <==> Text.Before(a, b)
    ensures CompareTexts(a, b).Greater? <==> Text.Before(b, a)
  {
    Text.LeIsBefore(a, b);
    Text.LeIsBefore(b, a);
    Text.Total(a, b);
    if Text.Le(a, b) && Text.Le(b, a) {
      Text.Antisymmetric(a, b);
    }
  }

  lemma {:induction false} OrderIsTheirs(l: Constant, r: Constant, fl: Floats)
    ensures Ordering(l, r, fl).Some? <==> Comparable(l, r, fl)
    ensures Ordering(l, r, fl) == Some(Less) <==> Comparable(l, r, fl) && Below(l, r, fl)
    ensures Ordering(l, r, fl) == Some(Greater) <==> Comparable(l, r, fl) && Above(l, r, fl)
    ensures Ordering(l, r, fl) == Some(Equal) <==> Comparable(l, r, fl) && Same(l, r, fl)
  {
    if l.Text? && r.Text? {
      TextsCompare(l.t, r.t);
    }
  }

  lemma {:induction false} RemIsTheRemainder(a: int, b: int)
    requires b != 0
    ensures TruncatedRem(a, b) == Remainder(a, b)
  {
    TruncatedRemIsRemainder(a, b);
    RemainderIsOne(a, b, TruncatedRem(a, b), Remainder(a, b));
  }

  /** What the folder makes of an operator is what the operator means. */
  lemma {:induction false} BinopIsItsMeaning(op: BinOp, l: Constant, r: Constant, fl: Floats)
    ensures Binop(op, l, r, fl) == Binary(op, l, r, fl)
  {
    hide TruncatedRem, Remainder, Ordering, Comparable, Below, Above, Same;
    OrderIsTheirs(l, r, fl);
    if op.Rem? && l.Int? && r.Int? && r.i != 0 {
      RemIsTheRemainder(l.i, r.i);
    }
  }

  lemma {:induction false} UnopIsItsMeaning(op: UnOp, c: Constant, fl: Floats)
    ensures Unop(op, c, fl) == Negated(op, c, fl)
  {
  }

  lemma {:induction false} KnownIsItsMeaning(func: string, args: seq<Constant>)
    ensures Known(func, args) == Called(func, args)
  {
    hide Contains, Around;
    assert |"str.length"| == 10 && |"str.contains"| == 12 && |"str.starts_with"| == 15 && |"str.ends_with"| == 13;
    if |args| == 2 && args[0].Text? && args[1].Text? {
      var t, n := args[0].t, args[1].t;
      if func == "str.contains" {
        ContainsIsAround(t, n);
      } else if func == "str.starts_with" {
        StartIsAround(t, n);
      } else if func == "str.ends_with" {
        EndIsAround(t, n);
      }
    }
  }

  lemma {:induction false} ContainsIsAround(t: string, n: string)
    ensures Contains(t, n) <==> exists p, q: string :: Around(t, p, n, q)
  {
    if i :| 0 <= i <= |t| && n <= t[i..] {
      assert Around(t, t[..i], n, t[i..][|n|..]);
    }
    if p, q: string :| Around(t, p, n, q) {
      assert t[|p|..] == n + q;
    }
  }

  lemma {:induction false} StartIsAround(t: string, n: string)
    ensures n <= t <==> exists q: string :: Around(t, "", n, q)
  {
    if n <= t {
      assert Around(t, "", n, t[|n|..]);
    }
    if q: string :| Around(t, "", n, q) {
      assert t[..|n|] == n;
    }
  }

  lemma {:induction false} EndIsAround(t: string, n: string)
    ensures |n| <= |t| && t[|t| - |n|..] == n <==> exists p: string :: Around(t, p, n, "")
  {
    if |n| <= |t| && t[|t| - |n|..] == n {
      assert Around(t, t[..|t| - |n|], n, "");
    }
  }

  // ------------------------------------------------------------------ the folder decides what a run decides

  /** A binding a row may extend. */
  predicate Extends(env: Env, field: string, value: Option<Constant>) {
    value.Some? ==> field in env && env[field] == value.value
  }

  /** What is decided here is what every run decides, whatever the other columns hold. */
  lemma {:induction false} FoldIsPartialEvaluation(
    e: Expr, field: string, value: Option<Constant>, env: Env, run: Expr -> Constant, fl: Floats)
    requires Extends(env, field, value)
    ensures Fold.Fold(e, field, value, fl).Some? ==> Evaluate(e, env, run, fl) == Fold.Fold(e, field, value, fl).value
    decreases e
  {
    hide Binop, Unop, Known, Binary, Negated, Called;
    match e {
      case Unary(op, operand) =>
        FoldIsPartialEvaluation(operand, field, value, env, run, fl);
        UnopIsItsMeaning(op, Evaluate(operand, env, run, fl), fl);
      case Bin(op, lhs, rhs) =>
        FoldIsPartialEvaluation(lhs, field, value, env, run, fl);
        FoldIsPartialEvaluation(rhs, field, value, env, run, fl);
        BinopIsItsMeaning(op, Evaluate(lhs, env, run, fl), Evaluate(rhs, env, run, fl), fl);
      case Call(func, args) =>
        FoldAllIsPartialEvaluation(args, field, value, env, run, fl);
        KnownIsItsMeaning(func, EvaluateAll(args, env, run, fl));
      case _ =>
    }
  }

  lemma {:induction false} FoldAllIsPartialEvaluation(
    es: seq<Expr>, field: string, value: Option<Constant>, env: Env, run: Expr -> Constant, fl: Floats)
    requires Extends(env, field, value)
    ensures FoldAll(es, field, value, fl).Some? ==> EvaluateAll(es, env, run, fl) == FoldAll(es, field, value, fl).value
    decreases es
  {
    if es == [] {
    } else {
      FoldIsPartialEvaluation(es[0], field, value, env, run, fl);
      FoldAllIsPartialEvaluation(es[1..], field, value, env, run, fl);
    }
  }

  /** The row that binds the one field, or none. */
  function Binding(field: string, value: Option<Constant>): Env {
    if value.Some? then map[field := value.value] else map[]
  }

  /** Every name in it is the bound field's, and every operator and call in it means something of its operands. */
  ghost predicate Settled(e: Expr, row: Env, run: Expr -> Constant, fl: Floats) {
    match e
    case IntLit(_) => true
    case FloatLit(_) => true
    case StringLit(_) => true
    case LangStringLit(_, _) => true
    case BoolLit(_) => true
    case FieldRef(name) => name in row
    case Unary(op, o) => Settled(o, row, run, fl) && Negated(op, Evaluate(o, row, run, fl), fl).Some?
    case Bin(op, l, r) =>
      && Settled(l, row, run, fl) && Settled(r, row, run, fl)
      && Binary(op, Evaluate(l, row, run, fl), Evaluate(r, row, run, fl), fl).Some?
    case Call(func, args) =>
      (forall a | a in args :: Settled(a, row, run, fl)) && Called(func, EvaluateAll(args, row, run, fl)).Some?
    case _ => false
  }

  /** And it is decided exactly when the one binding settles it. */
  lemma {:induction false} FoldDecidesWhatIsSettled(
    e: Expr, field: string, value: Option<Constant>, run: Expr -> Constant, fl: Floats)
    ensures Fold.Fold(e, field, value, fl).Some? <==> Settled(e, Binding(field, value), run, fl)
    decreases e
  {
    hide Binop, Unop, Known, Binary, Negated, Called;
    var row := Binding(field, value);
    FoldIsPartialEvaluation(e, field, value, row, run, fl);
    match e {
      case Unary(op, o) =>
        FoldDecidesWhatIsSettled(o, field, value, run, fl);
        FoldIsPartialEvaluation(o, field, value, row, run, fl);
        UnopIsItsMeaning(op, Evaluate(o, row, run, fl), fl);
      case Bin(op, l, r) =>
        FoldDecidesWhatIsSettled(l, field, value, run, fl);
        FoldDecidesWhatIsSettled(r, field, value, run, fl);
        FoldIsPartialEvaluation(l, field, value, row, run, fl);
        FoldIsPartialEvaluation(r, field, value, row, run, fl);
        BinopIsItsMeaning(op, Evaluate(l, row, run, fl), Evaluate(r, row, run, fl), fl);
      case Call(func, args) =>
        FoldAllDecidesWhatIsSettled(args, field, value, run, fl);
        FoldAllIsPartialEvaluation(args, field, value, row, run, fl);
        KnownIsItsMeaning(func, EvaluateAll(args, row, run, fl));
      case _ =>
    }
  }

  lemma {:induction false} FoldAllDecidesWhatIsSettled(
    es: seq<Expr>, field: string, value: Option<Constant>, run: Expr -> Constant, fl: Floats)
    ensures FoldAll(es, field, value, fl).Some? <==> forall e | e in es :: Settled(e, Binding(field, value), run, fl)
    decreases es
  {
    if es == [] {
    } else {
      FoldDecidesWhatIsSettled(es[0], field, value, run, fl);
      FoldAllDecidesWhatIsSettled(es[1..], field, value, run, fl);
      assert forall e | e in es :: e == es[0] || e in es[1..];
    }
  }

  /** A constant refused where it is written (its assertion folds to false with the constant bound) fails
      the assertion in every run, whatever the row holds beside it. */
  lemma {:induction false} RefusedConstantFailsEveryRun(
    written: Expr, condition: Expr, field: string, constant: Constant, row: Env, run: Expr -> Constant, fl: Floats)
    requires Fold.Fold(written, "", None, fl) == Some(constant)
    requires Fold.Fold(condition, field, Some(constant), fl) == Some(Bool(false))
    ensures var value := Evaluate(written, row, run, fl);
            Evaluate(condition, row[field := value], run, fl) == Bool(false)
  {
    FoldIsPartialEvaluation(written, "", None, row, run, fl);
    FoldIsPartialEvaluation(condition, field, Some(constant), row[field := constant], run, fl);
  }
}
