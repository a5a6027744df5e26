/** What the program alone decides of a condition: `fold`, over 64-bit integers and any floating-point
    arithmetic. */
module Fold {
  import opened Common
  import opened Hir
  import Text

  datatype Constant = Int(i: int) | Float(f: int) | Text(t: string) | Bool(b: bool)

  datatype Order = Less | Equal | Greater

  /** A floating-point arithmetic over the bits of its values: nothing below depends on which. Two
      values may be incomparable. */
  datatype Floats = Floats(
    ofInt: int -> int, neg: int -> int, add: (int, int) -> int, sub: (int, int) -> int, mul: (int, int) -> int,
    div: (int, int) -> int, rem: (int, int) -> int, compare: (int, int) -> Option<Order>)

  predicate InRange(i: int) {
    I64_MIN <= i <= I64_MAX
  }

  /** A constant the machine holds. */
  predicate Held(c: Constant) {
    c.Int? ==> InRange(c.i)
  }

  function Checked(i: int): Option<Constant> {
    if InRange(i) then Some(Int(i)) else None
  }

  /** The remainder of a division that truncates: its sign is the dividend's. */
  function TruncatedRem(a: int, b: int): int
    requires b != 0
  {
    var r := (if a < 0 then -a else a) % (if b < 0 then -b else b);
    if a < 0 then -r else r
  }

  function CheckedRem(a: int, b: int): Option<Constant> {
    if b == 0 || (a == I64_MIN && b == -1) then None else Some(Int(TruncatedRem(a, b)))
  }

  function Number(c: Constant, fl: Floats): Option<int> {
    match c
    case Int(i) => Some(fl.ofInt(i))
    case Float(f) => Some(f)
    case _ => None
  }

  function CompareInts(a: int, b: int): Order {
    if a < b then Less else if a == b then Equal else Greater
  }

  function CompareTexts(a: string, b: string): Order {
    if a == b then Equal else if Text.Le(a, b) then Less else Greater
  }

  function Ordering(l: Constant, r: Constant, fl: Floats): Option<Order> {
    if l.Text? && r.Text? then Some(CompareTexts(l.t, r.t))
    else if l.Bool? && r.Bool? then Some(if l.b == r.b then Equal else if r.b then Less else Greater)
    else if l.Int? && r.Int? then Some(CompareInts(l.i, r.i))
    else
      var a, b := Number(l, fl), Number(r, fl);
      if a.None? || b.None? then None else fl.compare(a.value, b.value)
  }

  function Compared(op: BinOp, o: Order): bool
    requires op.Eq? || op.Ne? || op.Lt? || op.Le? || op.Gt? || op.Ge?
  {
    match op
    case Eq => o.Equal?
    case Ne => !o.Equal?
    case Lt => o.Less?
    case Le => !o.Greater?
    case Gt => o.Greater?
    case Ge => !o.Less?
  }

  function IntOp(op: BinOp, a: int, b: int): Option<Constant>
    requires IsArith(op)
  {
    match op
    case Add => Checked(a + b)
    case Sub => Checked(a - b)
    case Mul => Checked(a * b)
    case Rem => CheckedRem(a, b)
  }

  function FloatOp(op: BinOp, a: int, b: int, fl: Floats): int
    requires IsArith(op)
  {
    match op
    case Add => fl.add(a, b)
    case Sub => fl.sub(a, b)
    case Mul => fl.mul(a, b)
    case Rem => fl.rem(a, b)
  }

  predicate IsArith(op: BinOp) {
    op.Add? || op.Sub? || op.Mul? || op.Rem?
  }

  predicate IsConnective(op: BinOp) {
    op.And? || op.Or?
  }

  function Connect(op: BinOp, a: bool, b: bool): bool
    requires IsConnective(op)
  {
    if op.And? then a && b else a || b
  }

  function Arith(op: BinOp, l: Constant, r: Constant, fl: Floats): Option<Constant>
    requires IsArith(op)
  {
    if l.Int? && r.Int? then IntOp(op, l.i, r.i)
    else
      var a, b := Number(l, fl), Number(r, fl);
      if a.None? || b.None? then None else Some(Float(FloatOp(op, a.value, b.value, fl)))
  }

  function Divide(l: Constant, r: Constant, fl: Floats): Option<Constant> {
    var a, b := Number(l, fl), Number(r, fl);
    if a.None? || b.None? then None else Some(Float(fl.div(a.value, b.value)))
  }

  function Binop(op: BinOp, l: Constant, r: Constant, fl: Floats): Option<Constant> {
    if IsConnective(op) then if l.Bool? && r.Bool? then Some(Bool(Connect(op, l.b, r.b))) else None
    else if op.Div? then Divide(l, r, fl)
    else if IsArith(op) then Arith(op, l, r, fl)
    else
      var o := Ordering(l, r, fl);
      if o.None? then None else Some(Bool(Compared(op, o.value)))
  }

  function Unop(op: UnOp, c: Constant, fl: Floats): Option<Constant> {
    match (op, c)
    case (Not, Bool(b)) => Some(Bool(!b))
    case (Neg, Int(i)) => Checked(-i)
    case (Neg, Float(f)) => Some(Float(fl.neg(f)))
    case _ => None
  }

  predicate Contains(t: string, n: string) {
    exists i :: 0 <= i <= |t| && n <= t[i..]
  }

  /** The calls whose meaning is fixed here. */
  function Known(func: string, args: seq<Constant>): Option<Constant> {
    if func == "str.length" && |args| == 1 && args[0].Text? then Checked(|args[0].t|)
    else if |args| == 2 && args[0].Text? && args[1].Text? then
      var t, n := args[0].t, args[1].t;
      if func == "str.contains" then Some(Bool(Contains(t, n)))
      else if func == "str.starts_with" then Some(Bool(n <= t))
      else if func == "str.ends_with" then Some(Bool(|n| <= |t| && t[|t| - |n|..] == n))
      else None
    else None
  }

  /** `e`'s value with `field` bound to `value`, or undecided. */
  function Fold(e: Expr, field: string, value: Option<Constant>, fl: Floats): Option<Constant> {
    match e
    case IntLit(i) => Some(Int(i))
    case FloatLit(f) => Some(Float(f))
    case StringLit(s) => Some(Text(s))
    case LangStringLit(s, _) => Some(Text(s))
    case BoolLit(b) => Some(Bool(b))
    case FieldRef(name) => if name == field then value else None
    case Unary(op, operand) =>
      var v := Fold(operand, field, value, fl);
      if v.None? then None else Unop(op, v.value, fl)
    case Bin(op, lhs, rhs) =>
      var l := Fold(lhs, field, value, fl);
      var r := Fold(rhs, field, value, fl);
      if l.None? || r.None? then None else Binop(op, l.value, r.value, fl)
    case Call(func, args) =>
      var vs := FoldAll(args, field, value, fl);
      if vs.None? then None else Known(func, vs.value)
    case _ => None
  }

  function FoldAll(es: seq<Expr>, field: string, value: Option<Constant>, fl: Floats): (r: Option<seq<Constant>>)
    ensures r.Some? ==> |r.value| == |es|
  {
    if es == [] then Some([])
    else
      var v := Fold(es[0], field, value, fl);
      var vs := FoldAll(es[1..], field, value, fl);
      if v.None? || vs.None? then None else Some([v.value] + vs.value)
  }

  // ------------------------------------------------------------------ what a decision reads

  /** What is decided with nothing bound is decided the same with anything bound. */
  lemma {:induction false} UnboundDecisionStands(
    e: Expr, field: string, other: string, value: Option<Constant>, fl: Floats)
    ensures Fold(e, field, None, fl).Some? ==> Fold(e, other, value, fl) == Fold(e, field, None, fl)
    decreases e
  {
    match e {
      case Unary(_, operand) => UnboundDecisionStands(operand, field, other, value, fl);
      case Bin(_, lhs, rhs) =>
        UnboundDecisionStands(lhs, field, other, value, fl);
        UnboundDecisionStands(rhs, field, other, value, fl);
      case Call(_, args) => UnboundDecisionsStand(args, field, other, value, fl);
      case _ =>
    }
  }

  lemma {:induction false} UnboundDecisionsStand(
    es: seq<Expr>, field: string, other: string, value: Option<Constant>, fl: Floats)
    ensures FoldAll(es, field, None, fl).Some? ==> FoldAll(es, other, value, fl) == FoldAll(es, field, None, fl)
    decreases es
  {
    if es == [] {
    } else {
      UnboundDecisionStands(es[0], field, other, value, fl);
      UnboundDecisionsStand(es[1..], field, other, value, fl);
    }
  }

  /** A decided expression reads no name but the bound one; with nothing bound, none at all. */
  lemma {:induction false} DecidedReadsOnlyTheField(e: Expr, field: string, value: Option<Constant>, fl: Floats)
    requires Fold(e, field, value, fl).Some?
    ensures forall n | n in FieldRefs(e) :: n == field && value.Some?
    decreases e
  {
    match e {
      case Unary(_, operand) => DecidedReadsOnlyTheField(operand, field, value, fl);
      case Bin(_, lhs, rhs) =>
        DecidedReadsOnlyTheField(lhs, field, value, fl);
        DecidedReadsOnlyTheField(rhs, field, value, fl);
      case Call(_, args) => DecidedAllReadOnlyTheField(args, field, value, fl);
      case _ =>
    }
  }

  lemma {:induction false} DecidedAllReadOnlyTheField(es: seq<Expr>, field: string, value: Option<Constant>, fl: Floats)
    requires FoldAll(es, field, value, fl).Some?
    ensures forall n | n in FieldRefsAll(es) :: n == field && value.Some?
    decreases es
  {
    if es == [] {
    } else {
      DecidedReadsOnlyTheField(es[0], field, value, fl);
      DecidedAllReadOnlyTheField(es[1..], field, value, fl);
    }
  }

  // ------------------------------------------------------------------ integers never wrap

  ghost predicate HeldLiterals(e: Expr) {
    match e
    case IntLit(i) => InRange(i)
    case Unary(_, o) => HeldLiterals(o)
    case Bin(_, l, r) => HeldLiterals(l) && HeldLiterals(r)
    case Call(_, args) => forall a | a in args :: HeldLiterals(a)
    case _ => true
  }

  lemma {:induction false} RemIsHeld(a: int, b: int)
    requires InRange(a) && InRange(b) && b != 0
    ensures InRange(TruncatedRem(a, b))
  {}

  /** An integer that leaves the machine's range is undecided, never wrapped. */
  lemma {:induction false} FoldIsHeld(e: Expr, field: string, value: Option<Constant>, fl: Floats)
    requires HeldLiterals(e) && (value.Some? ==> Held(value.value))
    ensures Fold(e, field, value, fl).Some? ==> Held(Fold(e, field, value, fl).value)
    decreases e
  {
    match e {
      case Bin(op, lhs, rhs) =>
        FoldIsHeld(lhs, field, value, fl);
        FoldIsHeld(rhs, field, value, fl);
        var l, r := Fold(lhs, field, value, fl), Fold(rhs, field, value, fl);
        if op.Rem? && l.Some? && r.Some? && l.value.Int? && r.value.Int? && r.value.i != 0 {
          RemIsHeld(l.value.i, r.value.i);
        }
      case _ =>
    }
  }

  /** The six comparisons are readings of one order: exactly one of less, equal and greater, and the other three
      their complements. */
  lemma {:induction false} ComparisonsAgree(l: Constant, r: Constant, fl: Floats)
    requires Ordering(l, r, fl).Some?
    ensures var eq, ne, lt, le, gt, ge :=
              Binop(Eq, l, r, fl), Binop(Ne, l, r, fl), Binop(Lt, l, r, fl), Binop(Le, l, r, fl), Binop(Gt, l, r, fl),
              Binop(Ge, l, r, fl);
            && (eq == Some(Bool(true)) || lt == Some(Bool(true)) || gt == Some(Bool(true)))
            && !(eq == Some(Bool(true)) && lt == Some(Bool(true)))
            && !(gt == Some(Bool(true)) && lt == Some(Bool(true)))
            && !(eq == Some(Bool(true)) && gt == Some(Bool(true)))
            && (ne == Some(Bool(true)) <==> eq == Some(Bool(false)))
            && (le == Some(Bool(true)) <==> gt == Some(Bool(false)))
            && (ge == Some(Bool(true)) <==> lt == Some(Bool(false)))
  {}

  lemma {:induction false} TextOrderMirrors(a: string, b: string)
    ensures CompareTexts(a, b).Less? <==> CompareTexts(b, a).Greater?
  {
    Text.Total(a, b);
    if Text.Le(a, b) && Text.Le(b, a) {
      Text.Antisymmetric(a, b);
    }
  }

  function Mirrored(o: Option<Order>): Option<Order> {
    match o
    case Some(Less) => Some(Greater)
    case Some(Greater) => Some(Less)
    case _ => o
  }

  lemma {:induction false} OrderMirrors(l: Constant, r: Constant, fl: Floats)
    requires forall a, b :: fl.compare(b, a) == Mirrored(fl.compare(a, b))
    ensures Ordering(r, l, fl) == Mirrored(Ordering(l, r, fl))
  {
    if l.Text? && r.Text? {
      TextOrderMirrors(l.t, r.t);
      TextOrderMirrors(r.t, l.t);
    } else if Number(l, fl).Some? && Number(r, fl).Some? {
      var a, b := Number(l, fl).value, Number(r, fl).value;
      assert fl.compare(b, a) == Mirrored(fl.compare(a, b));
    }
  }

  /** Swapping the operands mirrors a comparison, decided or not, where it does so for floats. */
  lemma {:induction false} SwappingMirrorsComparisons(l: Constant, r: Constant, fl: Floats)
    requires forall a, b :: fl.compare(b, a) == Mirrored(fl.compare(a, b))
    ensures Binop(Lt, l, r, fl) == Binop(Gt, r, l, fl) && Binop(Le, l, r, fl) == Binop(Ge, r, l, fl)
    ensures Binop(Eq, l, r, fl) == Binop(Eq, r, l, fl) && Binop(Ne, l, r, fl) == Binop(Ne, r, l, fl)
  {
    hide Ordering, IntOp;
    OrderMirrors(l, r, fl);
  }
}
