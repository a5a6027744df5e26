/** What joins the checker and the folder, written apart: a decided value inhabits the type it was given.
    And what the taint promises: an error type is never silent, and never reported twice. */
module Soundness {
  import opened Common
  import opened Hir
  import opened Types
  import Check
  import Fold

  // ------------------------------------------------------------------ type soundness

  /** The values of a type, as constants. */
  predicate Inhabits(c: Fold.Constant, t: Ty) {
    match c
    case Int(_) => t == INTEGER || t == FLOAT
    case Float(_) => t == FLOAT
    case Text(_) => t == STRING || t == LANG_STRING || t == URI
    case Bool(_) => t == BOOL
  }

  /** Whatever is known of a type says, of a value, that it inhabits it. */
  predicate Agrees(v: Option<Fold.Constant>, t: Option<Ty>) {
    v.Some? && t.Some? && !t.value.Error? ==> Inhabits(v.value, t.value)
  }

  /** A row of the catalogue the folder knows gives back what the folder computes. */
  predicate KnownRows(catalogue: map<string, Check.Signature>) {
    && ("str.length" in catalogue ==> catalogue["str.length"].ret == Some(INTEGER))
    && (forall f | f in ["str.contains", "str.starts_with", "str.ends_with"] && f in catalogue ::
          catalogue[f].ret == Some(BOOL))
  }

  lemma {:induction false} SubtypingKeepsValues(c: Fold.Constant, t: Ty, u: Ty)
    requires Inhabits(c, t) && Types.Subtypes(t, u) && !u.Error?
    ensures Inhabits(c, u)
  {}

  /** If the bound value is of its field's type, then what is decided is of the type that was given. */
  lemma {:induction false} TypeSoundness(
    cx: Check.Context, expected: Option<Ty>, e: Expr, field: string, value: Option<Fold.Constant>, fl: Fold.Floats)
    requires KnownRows(cx.catalogue)
    requires Agrees(value, Check.FieldTyping(cx, field).ty)
    ensures Agrees(Fold.Fold(e, field, value, fl), Check.Typing(cx, expected, e).ty)
    decreases e
  {
    hide Check.BinTyping, Fold.Binop, Fold.Known;
    match e {
      case Unary(_, operand) => TypeSoundness(cx, expected, operand, field, value, fl);
      case Bin(op, lhs, rhs) =>
        TypeSoundness(cx, expected, lhs, field, value, fl);
        TypeSoundness(cx, expected, rhs, field, value, fl);
        var l, r := Fold.Fold(lhs, field, value, fl), Fold.Fold(rhs, field, value, fl);
        if l.Some? && r.Some? {
          OperatorSoundness(op, l.value, r.value, Check.Typing(cx, expected, lhs).ty,
              Check.Typing(cx, expected, rhs).ty, fl);
        }
      case Call(func, args) =>
        var vs := Fold.FoldAll(args, field, value, fl);
        if vs.Some? && Fold.Known(func, vs.value).Some? {
          KnownSoundness(cx, expected, e, vs.value);
        }
      case _ =>
    }
  }

  /** An operator, over values that inhabit what is known of their types. */
  lemma {:induction false} OperatorSoundness(
    op: BinOp, l: Fold.Constant, r: Fold.Constant, t: Option<Ty>, u: Option<Ty>, fl: Fold.Floats)
    requires Agrees(Some(l), t) && Agrees(Some(r), u)
    ensures Agrees(Fold.Binop(op, l, r, fl), Check.BinTyping(op, t, u).ty)
  {}

  lemma {:induction false} KnownSoundness(cx: Check.Context, expected: Option<Ty>, e: Expr, vs: seq<Fold.Constant>)
    requires e.Call? && KnownRows(cx.catalogue) && Fold.Known(e.func, vs).Some?
    ensures Agrees(Fold.Known(e.func, vs), Check.CallTyping(cx, expected, e).ty)
  {
    assert e.func in ["str.length", "str.contains", "str.starts_with", "str.ends_with"];
  }

  /** So a value the checker lets into a slot, when the program alone decides it, is of the slot's type. */
  lemma {:induction false} WhatFitsASlotInhabitsIt(
    cx: Check.Context, slot: Ty, e: Expr, field: string, value: Option<Fold.Constant>, fl: Fold.Floats)
    requires KnownRows(cx.catalogue)
    requires Agrees(value, Check.FieldTyping(cx, field).ty)
    requires var t := Check.Typing(cx, Some(slot), e).ty;
             t.Some? && !t.value.Error? && !slot.Error? && Check.Fits(t.value, Some(slot))
    requires Fold.Fold(e, field, value, fl).Some?
    ensures Inhabits(Fold.Fold(e, field, value, fl).value, slot)
  {
    TypeSoundness(cx, Some(slot), e, field, value, fl);
    SubtypingKeepsValues(Fold.Fold(e, field, value, fl).value, Check.Typing(cx, Some(slot), e).ty.value, slot);
  }

  /** An assertion of type Bool that is decided is decided as a truth value: `check_one` reads nothing else. */
  lemma {:induction false} DecidedAssertionIsATruthValue(
    cx: Check.Context, condition: Expr, field: string, value: Option<Fold.Constant>, fl: Fold.Floats)
    requires KnownRows(cx.catalogue)
    requires Agrees(value, Check.FieldTyping(cx, field).ty)
    requires Check.Typing(cx, None, condition).ty == Some(BOOL)
    requires Fold.Fold(condition, field, value, fl).Some?
    ensures Fold.Fold(condition, field, value, fl).value.Bool?
  {
    TypeSoundness(cx, None, condition, field, value, fl);
  }

  // ------------------------------------------------------------------ progress

  /** The arithmetic a machine does not decide: an integer out of its range, a remainder by zero, two floats
      with no order between them. */
  predicate Undecidable(op: BinOp, l: Fold.Constant, r: Fold.Constant, fl: Fold.Floats) {
    || (Fold.IsArith(op) && l.Int? && r.Int? && Fold.IntOp(op, l.i, r.i).None?)
    || (Check.IsComparison(op) && Fold.Number(l, fl).Some? && Fold.Number(r, fl).Some? && Fold.Ordering(l, r, fl).None?)
  }

  /** An operator the checker accepts, over values of its operands' types, is decided but for that arithmetic. */
  lemma {:induction false} AcceptedOperatorIsDecided(
    op: BinOp, l: Fold.Constant, r: Fold.Constant, t: Ty, u: Ty, fl: Fold.Floats)
    requires Inhabits(l, t) && Inhabits(r, u) && Check.BinTyping(op, Some(t), Some(u)).found == []
    ensures Fold.Binop(op, l, r, fl).Some? || Undecidable(op, l, r, fl)
  {
    if Check.IsComparison(op) {
    } else if Fold.IsArith(op) {
    }
  }

  /** A connective or an arithmetic operator it refuses is never decided. */
  lemma {:induction false} RefusedOperatorIsUndecided(
    op: BinOp, l: Fold.Constant, r: Fold.Constant, t: Ty, u: Ty, fl: Fold.Floats)
    requires Inhabits(l, t) && Inhabits(r, u) && !Check.IsComparison(op)
    requires Check.BinTyping(op, Some(t), Some(u)).found != []
    ensures Fold.Binop(op, l, r, fl).None?
  {
  }

  /** Literals and one name, under operators. */
  predicate Closed(e: Expr, field: string) {
    match e
    case IntLit(_) => true
    case FloatLit(_) => true
    case StringLit(_) => true
    case LangStringLit(_, _) => true
    case BoolLit(_) => true
    case FieldRef(name) => name == field
    case Unary(_, o) => Closed(o, field)
    case Bin(_, l, r) => Closed(l, field) && Closed(r, field)
    case _ => false
  }

  /** Some operator in it is over values the machine does not decide it of. */
  predicate Overflows(e: Expr, field: string, value: Fold.Constant, fl: Fold.Floats) {
    match e
    case Unary(op, o) =>
      || Overflows(o, field, value, fl)
      || (op.Neg? && Fold.Fold(o, field, Some(value), fl).Some? && Fold.Fold(o, field, Some(value), fl).value.Int?
          && !Fold.InRange(-Fold.Fold(o, field, Some(value), fl).value.i))
    case Bin(op, l, r) =>
      || Overflows(l, field, value, fl) || Overflows(r, field, value, fl)
      || (Fold.Fold(l, field, Some(value), fl).Some? && Fold.Fold(r, field, Some(value), fl).Some?
          && Undecidable(op, Fold.Fold(l, field, Some(value), fl).value, Fold.Fold(r, field, Some(value), fl).value,
              fl))
    case _ => false
  }

  /** What the checker accepts without a word is decided once its one name is bound, but for such arithmetic:
      the folder is stuck on nothing the checker lets through. */
  lemma {:induction false} AcceptedIsDecided(
    cx: Check.Context, expected: Option<Ty>, e: Expr, field: string, value: Fold.Constant, fl: Fold.Floats)
    requires KnownRows(cx.catalogue) && Closed(e, field)
    requires var t := Check.FieldTyping(cx, field).ty; t.Some? && Inhabits(value, t.value)
    requires Check.Typing(cx, expected, e).found == []
    ensures Check.Typing(cx, expected, e).ty.Some? && !Check.Typing(cx, expected, e).ty.value.Error?
    ensures Fold.Fold(e, field, Some(value), fl).Some? || Overflows(e, field, value, fl)
    decreases e, 1
  {
    if e.Unary? {
      AcceptedUnary(cx, expected, e, field, value, fl);
    } else if e.Bin? {
      AcceptedBin(cx, expected, e, field, value, fl);
    } else {
      hide Fold.Binop, Fold.Known, Undecidable, Check.BinTyping, Check.LookupIn;
    }
  }

  lemma {:induction false} AcceptedUnary(
    cx: Check.Context, expected: Option<Ty>, e: Expr, field: string, value: Fold.Constant, fl: Fold.Floats)
    requires e.Unary?
    requires KnownRows(cx.catalogue) && Closed(e, field)
    requires var t := Check.FieldTyping(cx, field).ty; t.Some? && Inhabits(value, t.value)
    requires Check.Typing(cx, expected, e).found == []
    ensures Check.Typing(cx, expected, e).ty.Some? && !Check.Typing(cx, expected, e).ty.value.Error?
    ensures Fold.Fold(e, field, Some(value), fl).Some? || Overflows(e, field, value, fl)
    decreases e, 0
  {
    hide Fold.Binop, Fold.Known, Undecidable, Check.BinTyping, Check.LookupIn;
    AcceptedIsDecided(cx, expected, e.operand, field, value, fl);
    TypeSoundness(cx, expected, e.operand, field, Some(value), fl);
  }

  lemma {:induction false} AcceptedBin(
    cx: Check.Context, expected: Option<Ty>, e: Expr, field: string, value: Fold.Constant, fl: Fold.Floats)
    requires e.Bin?
    requires KnownRows(cx.catalogue) && Closed(e, field)
    requires var t := Check.FieldTyping(cx, field).ty; t.Some? && Inhabits(value, t.value)
    requires Check.Typing(cx, expected, e).found == []
    ensures Check.Typing(cx, expected, e).ty.Some? && !Check.Typing(cx, expected, e).ty.value.Error?
    ensures Fold.Fold(e, field, Some(value), fl).Some? || Overflows(e, field, value, fl)
    decreases e, 0
  {
    hide Fold.Binop, Fold.Known, Undecidable, Check.LookupIn;
    AcceptedIsDecided(cx, expected, e.lhs, field, value, fl);
    AcceptedIsDecided(cx, expected, e.rhs, field, value, fl);
    TypeSoundness(cx, expected, e.lhs, field, Some(value), fl);
    TypeSoundness(cx, expected, e.rhs, field, Some(value), fl);
    var l, r := Fold.Fold(e.lhs, field, Some(value), fl), Fold.Fold(e.rhs, field, Some(value), fl);
    if l.Some? && r.Some? {
      AcceptedOperatorIsDecided(e.op, l.value, r.value,
        Check.Typing(cx, expected, e.lhs).ty.value, Check.Typing(cx, expected, e.rhs).ty.value, fl);
    }
  }

  // ------------------------------------------------------------------ the taint

  predicate CleanRow(row: Ty) {
    !row.Error? && (row.Record? ==> forall i | 0 <= i < |row.fields| :: !row.fields[i].ty.Error?)
  }

  /** No error type among what typing reads. */
  predicate Clean(cx: Check.Context) {
    && (cx.flat.Some? ==> CleanRow(cx.flat.value))
    && (cx.rows.Some? ==> forall b | b in cx.rows.value && cx.rows.value[b].Some? :: CleanRow(cx.rows.value[b].value))
    && (forall f | f in cx.catalogue :: cx.catalogue[f].ret != Some(Error))
  }

  predicate Silent(t: Check.Typed) {
    t.ty == Some(Error) && t.found == []
  }

  lemma {:induction false} FieldIsClean(fields: seq<Field>, name: string)
    requires forall i | 0 <= i < |fields| :: !fields[i].ty.Error?
    ensures Check.FieldIn(fields, name) != Some(Error)
  {
    if fields == [] {
    } else {
      FieldIsClean(fields[1..], name);
    }
  }

  lemma {:induction false} LookupIsNotSilent(row: Ty, name: string)
    requires CleanRow(row)
    ensures !Silent(Check.LookupIn(row, name))
  {
    if row.Record? {
      FieldIsClean(row.fields, name);
    }
  }

  /** An error type is never silent: with none given to it, the checker has one only when it raised. */
  lemma {:induction false} TaintIsNeverSilent(cx: Check.Context, expected: Option<Ty>, e: Expr)
    requires Clean(cx)
    ensures !Silent(Check.Typing(cx, expected, e))
    decreases e, 1
  {
    match e {
      case ColumnRef(binding, column) =>
        if cx.rows.Some? && binding in cx.rows.value && cx.rows.value[binding].Some? {
          LookupIsNotSilent(cx.rows.value[binding].value, column);
        }
      case FieldRef(name) =>
        if cx.flat.Some? {
          LookupIsNotSilent(cx.flat.value, name);
        }
      case Unary(_, operand) => TaintIsNeverSilent(cx, expected, operand);
      case Bin(_, lhs, rhs) =>
        TaintIsNeverSilent(cx, expected, lhs);
        TaintIsNeverSilent(cx, expected, rhs);
      case Ternary(cond, thn, otherwise) =>
        hide Silent, Check.Typing;
        TaintIsNeverSilent(cx, expected, cond);
        TaintIsNeverSilent(cx, expected, thn);
        TaintIsNeverSilent(cx, expected, otherwise);
        ConditionalIsNotSilent(cx, expected, e);
      case Call(func, args) =>
        if func in cx.catalogue {
          StoppedArgsAreNotSilent(cx, expected, args, cx.catalogue[func].params);
          assert !Silent(Check.AppliedTyping(cx, expected, e));
        }
      case _ =>
    }
  }

  lemma {:induction false} ConditionalIsNotSilent(cx: Check.Context, expected: Option<Ty>, e: Expr)
    requires e.Ternary?
    requires !Silent(Check.Typing(cx, expected, e.cond))
    requires !Silent(Check.Typing(cx, expected, e.thn)) && !Silent(Check.Typing(cx, expected, e.otherwise))
    ensures !Silent(Check.Typing(cx, expected, e))
  {
    assert !Silent(Check.ConditionTyping(cx, expected, e.cond));
    assert !Silent(Check.BranchesTyping(cx, expected, e));
  }

  lemma {:induction false} StoppedArgsAreNotSilent(
    cx: Check.Context, expected: Option<Ty>, args: seq<Expr>, params: seq<Check.Param>)
    requires Clean(cx)
    ensures !Silent(Check.ArgsTyping(cx, expected, args, params))
    decreases args, 0
  {
    if args != [] && params != [] {
      TaintIsNeverSilent(cx, expected, args[0]);
      StoppedArgsAreNotSilent(cx, expected, args[1..], params[1..]);
    }
  }

  /** An operator over an error is an error, and says nothing more than its operands did. */
  lemma {:induction false} TaintIsReportedOnce(cx: Check.Context, expected: Option<Ty>, e: Expr)
    ensures e.Unary? && Check.Typing(cx, expected, e.operand).ty == Some(Error) ==>
              Check.Typing(cx, expected, e) == Check.Typing(cx, expected, e.operand)
    ensures e.Bin? ==>
              var l, r := Check.Typing(cx, expected, e.lhs), Check.Typing(cx, expected, e.rhs);
              l.ty == Some(Error) || r.ty == Some(Error) ==>
                Check.Typing(cx, expected, e) == Check.Typed(Some(Error), l.found + r.found)
    ensures e.Ternary? && Check.Typing(cx, expected, e.cond).ty == Some(Error) ==>
              Check.Typing(cx, expected, e) == Check.Typing(cx, expected, e.cond)
    ensures e.Ternary? ==>
              var c, t, o :=
                Check.Typing(cx, expected, e.cond), Check.Typing(cx, expected, e.thn),
                Check.Typing(cx, expected, e.otherwise);
              !Check.NotBool(c.ty) && c.ty != Some(Error) && (t.ty == Some(Error) || o.ty == Some(Error)) ==>
                Check.Typing(cx, expected, e) == Check.Typed(Some(Error), c.found + (t.found + o.found))
  {
    match e {
      case Unary(_, operand) =>
        assert Check.Typing(cx, expected, operand).found + [] == Check.Typing(cx, expected, operand).found;
      case Bin(_, lhs, rhs) =>
        var both := Check.BothFound(cx, expected, lhs, rhs);
        assert both + [] == both;
      case Ternary(cond, thn, otherwise) =>
        var both := Check.BothFound(cx, expected, thn, otherwise);
        assert both + [] == both;
      case _ =>
    }
  }

  /** No expression reports more than twice its size. */
  lemma {:induction false} ReportsAreBounded(cx: Check.Context, expected: Option<Ty>, e: Expr)
    ensures |Check.Typing(cx, expected, e).found| <= 2 * Size(e)
    decreases e, 1
  {
    match e {
      case Interpolation(parts) => HolesAreBounded(cx, parts);
      case Call(func, args) =>
        if func in cx.catalogue {
          ArgsAreBounded(cx, expected, args, cx.catalogue[func].params);
          CallIsBounded(cx, expected, e);
        }
      case Edge(_, ends) => AllAreBounded(cx, expected, ends);
      case Unary(_, operand) => ReportsAreBounded(cx, expected, operand);
      case Bin(_, lhs, rhs) =>
        ReportsAreBounded(cx, expected, lhs);
        ReportsAreBounded(cx, expected, rhs);
        OperatorIsBounded(cx, expected, e);
      case Ternary(cond, thn, otherwise) =>
        ReportsAreBounded(cx, expected, cond);
        ReportsAreBounded(cx, expected, thn);
        ReportsAreBounded(cx, expected, otherwise);
        ConditionalIsBounded(cx, expected, e);
      case _ =>
    }
  }

  lemma {:induction false} ConditionalIsBounded(cx: Check.Context, expected: Option<Ty>, e: Expr)
    requires e.Ternary?
    requires |Check.Typing(cx, expected, e.cond).found| <= 2 * Size(e.cond)
    requires |Check.Typing(cx, expected, e.thn).found| <= 2 * Size(e.thn)
    requires |Check.Typing(cx, expected, e.otherwise).found| <= 2 * Size(e.otherwise)
    ensures |Check.Typing(cx, expected, e).found| <= 2 * Size(e)
  {
    assert |Check.BothFound(cx, expected, e.thn, e.otherwise)| <= 2 * Size(e.thn) + 2 * Size(e.otherwise);
    assert |Check.BranchesTyping(cx, expected, e).found| <= 2 * Size(e.thn) + 2 * Size(e.otherwise) + 1;
    assert |Check.ConditionTyping(cx, expected, e.cond).found| <= 2 * Size(e.cond) + 1;
  }

  lemma {:induction false} OperatorIsBounded(cx: Check.Context, expected: Option<Ty>, e: Expr)
    requires e.Bin?
    requires |Check.Typing(cx, expected, e.lhs).found| <= 2 * Size(e.lhs)
    requires |Check.Typing(cx, expected, e.rhs).found| <= 2 * Size(e.rhs)
    ensures |Check.Typing(cx, expected, e).found| <= 2 * Size(e)
  {
    assert |Check.BothFound(cx, expected, e.lhs, e.rhs)| <= 2 * Size(e.lhs) + 2 * Size(e.rhs);
  }

  lemma {:induction false} CallIsBounded(cx: Check.Context, expected: Option<Ty>, e: Expr)
    requires e.Call? && e.func in cx.catalogue
    requires var t := Check.ArgsTyping(cx, expected, e.args, cx.catalogue[e.func].params);
             |t.found| <= 2 * SizeAll(e.args) + if t.ty.Some? then 1 else 0
    ensures |Check.Typing(cx, expected, e).found| <= 2 * Size(e)
  {
    assert |Check.AppliedTyping(cx, expected, e).found| <= 2 * SizeAll(e.args) + 1;
    assert |Check.CallTyping(cx, expected, e).found| <= 2 * SizeAll(e.args) + 2;
  }

  lemma {:induction false} ArgsAreBounded(
    cx: Check.Context, expected: Option<Ty>, args: seq<Expr>, params: seq<Check.Param>)
    ensures |Check.ArgsTyping(cx, expected, args, params).found|
            <= 2 * SizeAll(args) + if Check.ArgsTyping(cx, expected, args, params).ty.Some? then 1 else 0
    decreases args, 0
  {
    if args != [] && params != [] {
      ReportsAreBounded(cx, expected, args[0]);
      ArgsAreBounded(cx, expected, args[1..], params[1..]);
    }
  }

  lemma {:induction false} AllAreBounded(cx: Check.Context, expected: Option<Ty>, es: seq<Expr>)
    ensures |Check.AllFound(cx, expected, es)| <= 2 * SizeAll(es)
    decreases es, 0
  {
    if es == [] {
    } else {
      ReportsAreBounded(cx, expected, es[0]);
      AllAreBounded(cx, expected, es[1..]);
    }
  }

  lemma {:induction false} HolesAreBounded(cx: Check.Context, parts: seq<Part>)
    ensures |Check.HolesFound(cx, parts)| <= 2 * PartsSize(parts)
    decreases parts, 0
  {
    if parts == [] {
    } else {
      HoleIsBounded(cx, parts[0]);
      HolesAreBounded(cx, parts[1..]);
    }
  }

  lemma {:induction false} HoleIsBounded(cx: Check.Context, part: Part)
    ensures |Check.HoleFound(cx, part)| <= 2 * PartSize(part)
    decreases part, 0
  {
    if part.Hole? {
      ReportsAreBounded(cx, None, part.hole);
    }
  }
}
