/** The checker as it runs: a sink that grows, the first error kept, an expectation taken and put back.
    Every method is proved against `Check.Typing`. */
module Checker {
  import opened Common
  import opened Results
  import opened Hir
  import opened Types
  import opened Check

  /** Where a check puts what it found: it only grows, and raising is the one way to the taint. */
  class Diagnostics {
    var found: seq<Problem>

    constructor ()
      ensures found == []
    {
      found := [];
    }

    method Push(p: Problem)
      modifies this
      ensures found == old(found) + [p]
    {
      found := found + [p];
    }

    /** Exactly one diagnostic, and the taint that says so. */
    method Raise(p: Problem) returns (taint: Ty)
      modifies this
      ensures found == old(found) + [p] && taint == Error
    {
      Push(p);
      taint := Error;
    }
  }

  /** The first error there was, once `more` are raised on top of `before`. */
  function FirstError(before: Option<Problem>, more: seq<Problem>): Option<Problem> {
    if before.Some? then before else if more != [] then Some(more[0]) else None
  }

  /** What the checker carries from one expression to the next. */
  datatype State = State(
    found: seq<Problem>, firstError: Option<Problem>, expected: Option<Ty>, entries: seq<(int, Ty)>)

  /** What raising `more` on top of `s` leaves: the first error stays the first there was. */
  function Grow(s: State, more: seq<Problem>): State {
    s.(found := s.found + more, firstError := FirstError(s.firstError, more))
  }

  lemma {:induction false} GrowTwice(s: State, first: seq<Problem>, second: seq<Problem>)
    ensures Grow(Grow(s, first), second) == Grow(s, first + second)
  {
    assert s.found + first + second == s.found + (first + second);
  }

  lemma {:induction false} GrowNothing(s: State)
    ensures Grow(s, []) == s
  {
    assert s.found + [] == s.found;
  }

  class Expressions {
    const cx: Context
    const sink: Diagnostics
    var firstError: Option<Problem>
    var expected: Option<Ty>
    var entries: seq<(int, Ty)>

    constructor (cx: Context, expected: Option<Ty>)
      ensures this.cx == cx && this.expected == expected && fresh(sink)
      ensures sink.found == [] && firstError == None && entries == []
    {
      this.cx := cx;
      this.expected := expected;
      sink := new Diagnostics();
      firstError, entries := None, [];
    }

    ghost function Now(): State
      reads this, sink
    {
      State(sink.found, firstError, expected, entries)
    }

    /** Since the call began, exactly `more` was raised. */
    twostate predicate Grew(more: seq<Problem>)
      reads this, sink
    {
      Now() == Grow(old(Now()), more)
    }

    /** `raise`: report, and keep the first error. */
    method Raise(p: Problem) returns (taint: Ty)
      modifies this, sink
      ensures Grew([p]) && taint == Error
      ensures firstError == if old(firstError) == None then Some(p) else old(firstError)
    {
      taint := sink.Raise(p);
      if firstError.None? {
        firstError := Some(p);
      }
    }

    method LookupIn(row: Ty, name: string) returns (ty: Option<Ty>)
      modifies this, sink
      ensures ty == Check.LookupIn(row, name).ty && Grew(Check.LookupIn(row, name).found)
    {
      if !row.Record? {
        var taint := Raise(NotARecord);
        return Some(taint);
      }
      ty := FieldIn(row.fields, name);
      if ty.None? {
        var taint := Raise(UnknownField);
        ty := Some(taint);
      }
    }

    method LookupField(name: string) returns (ty: Option<Ty>)
      modifies this, sink
      ensures ty == FieldTyping(cx, name).ty && Grew(FieldTyping(cx, name).found)
    {
      if cx.flat.None? {
        return None;
      }
      ty := LookupIn(cx.flat.value, name);
    }

    method LookupColumn(binding: string, column: string) returns (ty: Option<Ty>)
      modifies this, sink
      ensures ty == ColumnTyping(cx, binding, column).ty && Grew(ColumnTyping(cx, binding, column).found)
    {
      if cx.rows.None? {
        return None;
      }
      if binding !in cx.rows.value {
        var _ := Raise(RowNotInScope);
        return None;
      }
      if cx.rows.value[binding].None? {
        return None;
      }
      ty := LookupIn(cx.rows.value[binding].value, column);
    }

    method RefuseIllFormedTag(tag: string)
      modifies this, sink
      ensures Grew(TagFound(cx, tag))
    {
      if !cx.wellFormedTag(tag) {
        var _ := Raise(InvalidLanguageTag);
      }
    }

    method SynthTy(e: Expr) returns (ty: Option<Ty>)
      modifies this, sink
      ensures ty == Typing(cx, old(expected), e).ty && Grew(Typing(cx, old(expected), e).found)
      decreases e, 4
    {
      match e {
        case StringLit(_) =>
          var iri := Denoted(expected);
          ty := if iri.Some? && !iri.value.Ref? then iri else Some(STRING);
        case LangStringLit(_, tag) =>
          RefuseIllFormedTag(tag);
          ty := Some(LANG_STRING);
        case Interpolation(parts) => ty := SynthInterpolation(e, parts);
        case ColumnRef(binding, column) => ty := LookupColumn(binding, column);
        case FieldRef(name) => ty := LookupField(name);
        case Call(_, _) => ty := SynthCall(e);
        case Edge(target, ends) => ty := SynthEdge(e, target, ends);
        case IntLit(_) => ty := Some(INTEGER);
        case FloatLit(_) => ty := Some(FLOAT);
        case NullLit => ty := Some(Null);
        case BoolLit(_) => ty := Some(BOOL);
        case Unary(op, operand) => ty := SynthUnary(op, operand);
        case Bin(op, lhs, rhs) => ty := SynthBinop(op, lhs, rhs);
        case Ternary(cond, thn, otherwise) => ty := SynthTernary(cond, thn, otherwise);
      }
    }

    method SynthInterpolation(e: Expr, parts: seq<Part>) returns (ty: Option<Ty>)
      requires e == Interpolation(parts)
      modifies this, sink
      ensures ty == Typing(cx, old(expected), e).ty && Grew(Typing(cx, old(expected), e).found)
      decreases e, 2
    {
      var slot := expected;
      expected := None;
      SynthHoles(e, parts);
      expected := slot;
      ty := if Denoted(expected).Some? then Denoted(expected) else Some(STRING);
    }

    method SynthHoles(ghost e: Expr, parts: seq<Part>)
      requires e == Interpolation(parts) && expected == None
      modifies this, sink
      ensures Grew(HolesFound(cx, parts))
      decreases e, 1
    {
      hide HoleFound;
      ghost var s := Now();
      ghost var more: seq<Problem> := [];
      GrowNothing(s);
      for i := 0 to |parts|
        invariant expected == None && Now() == Grow(s, more)
        invariant more + HolesFound(cx, parts[i..]) == HolesFound(cx, parts)
      {
        assert parts[i..][1..] == parts[i + 1..];
        ghost var found := HoleFound(cx, parts[i]);
        SynthPart(e, parts[i]);
        GrowTwice(s, more, found);
        assert more + (found + HolesFound(cx, parts[i + 1..])) == more + found + HolesFound(cx, parts[i + 1..]);
        more := more + found;
      }
    }

    method SynthPart(ghost e: Expr, part: Part)
      requires e.Interpolation? && part in e.parts && expected == None
      modifies this, sink
      ensures Grew(HoleFound(cx, part))
      decreases e, 0
    {
      match part {
        case Run(_) => GrowNothing(Now());
        case Hole(hole) => var _ := SynthTy(hole);
      }
    }

    method SynthEdge(e: Expr, target: string, ends: seq<Expr>) returns (ty: Option<Ty>)
      requires e == Edge(target, ends)
      modifies this, sink
      ensures ty == Typing(cx, old(expected), e).ty && Grew(Typing(cx, old(expected), e).found)
      decreases e, 2
    {
      ghost var s, slot := Now(), expected;
      SynthAll(e, ends);
      ty := EdgeTy(target, |ends|);
      GrowTwice(s, AllFound(cx, slot, ends), EdgeTyping(cx, target, |ends|).found);
    }

    method SynthAll(ghost e: Expr, ends: seq<Expr>)
      requires e.Edge? && e.ends == ends
      modifies this, sink
      ensures Grew(AllFound(cx, old(expected), ends))
      decreases e, 1
    {
      hide Typing;
      ghost var s, slot := Now(), expected;
      ghost var more: seq<Problem> := [];
      GrowNothing(s);
      for i := 0 to |ends|
        invariant expected == slot && Now() == Grow(s, more)
        invariant more + AllFound(cx, slot, ends[i..]) == AllFound(cx, slot, ends)
      {
        assert ends[i..][1..] == ends[i + 1..];
        var _ := SynthTy(ends[i]);
        ghost var found := Typing(cx, slot, ends[i]).found;
        GrowTwice(s, more, found);
        assert more + (found + AllFound(cx, slot, ends[i + 1..])) == more + found + AllFound(cx, slot, ends[i + 1..]);
        more := more + found;
      }
    }

    /** The edge, its arguments typed. */
    method EdgeTy(target: string, given: nat) returns (ty: Option<Ty>)
      modifies this, sink
      ensures ty == EdgeTyping(cx, target, given).ty && Grew(EdgeTyping(cx, target, given).found)
    {
      if target !in cx.shapes {
        var _ := Raise(UnknownShape);
        return Some(Ref([]));
      }
      var iri := cx.shapes[target];
      if iri !in cx.templates {
        var _ := Raise(EdgeWithoutTemplate);
        return Some(Ref([]));
      }
      if given != cx.templates[iri] {
        var _ := Raise(EdgeArity);
      }
      ty := Some(Ref([iri]));
    }

    method SynthUnary(op: UnOp, operand: Expr) returns (ty: Option<Ty>)
      modifies this, sink
      ensures ty == Typing(cx, old(expected), Unary(op, operand)).ty
      ensures Grew(Typing(cx, old(expected), Unary(op, operand)).found)
      decreases operand, 5
    {
      hide UnaryTyping;
      ghost var s, slot := Now(), expected;
      var t := SynthTy(operand);
      ty := UnaryTy(op, t);
      GrowTwice(s, Typing(cx, slot, operand).found, UnaryTyping(op, t).found);
    }

    /** The operator, its operand typed. */
    method UnaryTy(op: UnOp, operand: Option<Ty>) returns (ty: Option<Ty>)
      modifies this, sink
      ensures ty == UnaryTyping(op, operand).ty && Grew(UnaryTyping(op, operand).found)
    {
      ty := operand;
      GrowNothing(Now());
      if ty.None? {
        return if op.Not? then Some(BOOL) else None;
      }
      if ty.value.Error? {
        return;
      }
      var ok := if op.Not? then ty.value == BOOL else ty.value == INTEGER || ty.value == FLOAT;
      if !ok {
        var taint := Raise(if op.Not? then ExpectedBool else ExpectedNumber);
        ty := Some(taint);
      }
    }

    method SynthBinop(op: BinOp, lhs: Expr, rhs: Expr) returns (ty: Option<Ty>)
      modifies this, sink
      ensures ty == Typing(cx, old(expected), Bin(op, lhs, rhs)).ty
      ensures Grew(Typing(cx, old(expected), Bin(op, lhs, rhs)).found)
      decreases Bin(op, lhs, rhs), 2
    {
      hide BothFound, BinTyping;
      ghost var s, slot := Now(), expected;
      var l, r := SynthBoth(Bin(op, lhs, rhs), lhs, rhs);
      ty := OperatorTy(op, l, r);
      GrowTwice(s, BothFound(cx, slot, lhs, rhs), BinTyping(op, l, r).found);
    }

    /** Two operands, left before right. */
    method SynthBoth(ghost e: Expr, a: Expr, b: Expr) returns (x: Option<Ty>, y: Option<Ty>)
      requires (e.Bin? && e.lhs == a && e.rhs == b) || (e.Ternary? && e.thn == a && e.otherwise == b)
      modifies this, sink
      ensures x == Typing(cx, old(expected), a).ty && y == Typing(cx, old(expected), b).ty
      ensures Grew(BothFound(cx, old(expected), a, b))
      decreases e, 0
    {
      ghost var s, slot := Now(), expected;
      x := SynthTy(a);
      y := SynthTy(b);
      GrowTwice(s, Typing(cx, slot, a).found, Typing(cx, slot, b).found);
    }

    /** The operator, its operands typed. */
    method OperatorTy(op: BinOp, l: Option<Ty>, r: Option<Ty>) returns (ty: Option<Ty>)
      modifies this, sink
      ensures ty == BinTyping(op, l, r).ty && Grew(BinTyping(op, l, r).found)
    {
      if Tainted(l) {
        return l;
      }
      if Tainted(r) {
        return r;
      }
      if IsConnective(op) {
        if NotBool(l) || NotBool(r) {
          var taint := Raise(ExpectedBool);
          return Some(taint);
        }
      } else if IsComparison(op) {
        if CannotCompare(l, r) {
          var taint := Raise(Incomparable);
          return Some(taint);
        }
      } else {
        ty := SynthArith(op, l, r);
        return;
      }
      ty := Some(BOOL);
    }

    method SynthArith(op: BinOp, l: Option<Ty>, r: Option<Ty>) returns (ty: Option<Ty>)
      modifies this, sink
      ensures ty == ArithTyping(op, l, r).ty && Grew(ArithTyping(op, l, r).found)
    {
      var widest, poisoned := Some(false), false;
      var sides := [l, r];
      for i := 0 to 2
        invariant expected == old(expected) && entries == old(entries)
        invariant i == 0 ==> Grew([])
        invariant i == 1 ==> Grew(if NotNumber(l) then [ExpectedNumber] else [])
        invariant i == 2 ==>
            Grew((if NotNumber(l) then [ExpectedNumber] else []) + if NotNumber(r) then [ExpectedNumber] else [])
        invariant poisoned == ((i > 0 && NotNumber(l)) || (i > 1 && NotNumber(r)))
        invariant !poisoned ==> (widest.None? <==> (i > 0 && l.None?) || (i > 1 && r.None?))
        invariant !poisoned && widest.Some? ==>
            (widest.value <==> (i > 0 && l.value == FLOAT) || (i > 1 && r.value == FLOAT))
      {
        var side := sides[i];
        if side.None? {
          widest := None;
        } else if side.value == FLOAT {
          widest := if widest.Some? then Some(true) else None;
        } else if side.value != INTEGER {
          var _ := Raise(ExpectedNumber);
          poisoned := true;
        }
      }
      if poisoned {
        return Some(Error);
      }
      if op.Div? {
        return Some(FLOAT);
      }
      ty := if widest.None? then None else if widest.value then Some(FLOAT) else Some(INTEGER);
    }

    method SynthTernary(cond: Expr, thn: Expr, otherwise: Expr) returns (ty: Option<Ty>)
      modifies this, sink
      ensures ty == Typing(cx, old(expected), Ternary(cond, thn, otherwise)).ty
      ensures Grew(Typing(cx, old(expected), Ternary(cond, thn, otherwise)).found)
      decreases Ternary(cond, thn, otherwise), 2
    {
      hide ConditionTyping, BranchesTyping;
      ghost var s, slot := Now(), expected;
      ty := SynthCondition(cond);
      ghost var c := ConditionTyping(cx, slot, cond);
      if ty.Some? {
        return;
      }
      ty := SynthBranches(Ternary(cond, thn, otherwise));
      GrowTwice(s, c.found, BranchesTyping(cx, slot, Ternary(cond, thn, otherwise)).found);
    }

    /** The condition: what stops the conditional, if it does. */
    method SynthCondition(cond: Expr) returns (stop: Option<Ty>)
      modifies this, sink
      ensures stop == ConditionTyping(cx, old(expected), cond).ty
      ensures Grew(ConditionTyping(cx, old(expected), cond).found)
      decreases cond, 5
    {
      ghost var s, slot := Now(), expected;
      var c := SynthTy(cond);
      stop := None;
      if c.Some? {
        if c.value.Error? {
          return c;
        }
        if !Subtypes(c.value, BOOL) {
          var taint := Raise(ExpectedBool);
          GrowTwice(s, Typing(cx, slot, cond).found, [ExpectedBool]);
          return Some(taint);
        }
      }
    }

    method SynthBranches(e: Expr) returns (ty: Option<Ty>)
      requires e.Ternary?
      modifies this, sink
      ensures ty == BranchesTyping(cx, old(expected), e).ty && Grew(BranchesTyping(cx, old(expected), e).found)
      decreases e, 1
    {
      ghost var s, slot := Now(), expected;
      var t, o := SynthBoth(e, e.thn, e.otherwise);
      ty := BranchTy(t, o);
      GrowTwice(s, BothFound(cx, slot, e.thn, e.otherwise), BranchTyping(t, o).found);
    }

    /** The two branches, each typed. */
    method BranchTy(t: Option<Ty>, o: Option<Ty>) returns (ty: Option<Ty>)
      modifies this, sink
      ensures ty == BranchTyping(t, o).ty && Grew(BranchTyping(t, o).found)
    {
      if Tainted(t) {
        return t;
      }
      if Tainted(o) {
        return o;
      }
      if t.Some? && o.Some? {
        if Subtypes(t.value, o.value) {
          return o;
        } else if Subtypes(o.value, t.value) {
          return t;
        }
        var taint := Raise(BranchMismatch);
        return Some(taint);
      }
      ty := if t.Some? then t else o;
    }

    method SynthCall(e: Expr) returns (ty: Option<Ty>)
      requires e.Call?
      modifies this, sink
      ensures ty == CallTyping(cx, old(expected), e).ty && Grew(CallTyping(cx, old(expected), e).found)
      decreases e, 3
    {
      ghost var s, slot := Now(), expected;
      if e.func !in cx.catalogue {
        var taint := Raise(UnknownFunction);
        return Some(taint);
      }
      if IsConstantLang(e.func, e.args) {
        if e.args[0].StringLit? {
          var taint := Raise(NeedlessLang);
          return Some(taint);
        }
        RefuseIllFormedTag(e.args[1].text);
      }
      GrowNothing(s);
      ty := SynthApplied(e);
      ghost var tag := if IsConstantLang(e.func, e.args) then TagFound(cx, e.args[1].text) else [];
      GrowTwice(s, tag, AppliedTyping(cx, slot, e).found);
    }

    method SynthApplied(e: Expr) returns (ty: Option<Ty>)
      requires e.Call? && e.func in cx.catalogue
      modifies this, sink
      ensures ty == AppliedTyping(cx, old(expected), e).ty && Grew(AppliedTyping(cx, old(expected), e).found)
      decreases e, 2
    {
      ghost var s, slot := Now(), expected;
      var params := cx.catalogue[e.func].params;
      if |e.args| < Required(params) || |e.args| > |params| {
        var taint := Raise(CallArity);
        return Some(taint);
      }
      ty := SynthArgs(e, params);
      if ty.Some? {
        return;
      }
      ty := ReturnTy(cx.catalogue[e.func].ret);
      GrowTwice(s, ArgsTyping(cx, slot, e.args, params).found, ReturnTyping(cx.catalogue[e.func].ret).found);
    }

    method ReturnTy(ret: Option<Ty>) returns (ty: Option<Ty>)
      modifies this, sink
      ensures ty == ReturnTyping(ret).ty && Grew(ReturnTyping(ret).found)
    {
      ty := ret;
      GrowNothing(Now());
      if ret.None? {
        var taint := Raise(RelationAsValue);
        ty := Some(taint);
      }
    }

    method SynthArgs(e: Expr, params: seq<Param>) returns (stop: Option<Ty>)
      requires e.Call?
      modifies this, sink
      ensures stop == ArgsTyping(cx, old(expected), e.args, params).ty
      ensures Grew(ArgsTyping(cx, old(expected), e.args, params).found)
      decreases e, 1
    {
      hide ArgTyping;
      var args := e.args;
      ghost var s, slot := Now(), expected;
      ghost var more: seq<Problem> := [];
      GrowNothing(s);
      stop := None;
      for i := 0 to if |args| < |params| then |args| else |params|
        invariant expected == slot && stop.None? && Now() == Grow(s, more)
        invariant ArgsTyping(cx, slot, args, params) == After(more, ArgsTyping(cx, slot, args[i..], params[i..]))
      {
        ghost var step := ArgTyping(cx, slot, args[i], params[i]);
        ArgsTypingStep(cx, slot, args[i..], params[i..]);
        assert args[i..][1..] == args[i + 1..] && params[i..][1..] == params[i + 1..];
        stop := SynthArg(e, args[i], params[i]);
        GrowTwice(s, more, step.found);
        if stop.Some? {
          return;
        }
        AfterTwice(more, step.found, ArgsTyping(cx, slot, args[i + 1..], params[i + 1..]));
        more := more + step.found;
      }
    }

    /** One argument: what stops the call, if it does. */
    method SynthArg(ghost e: Expr, arg: Expr, param: Param) returns (stop: Option<Ty>)
      requires e.Call? && arg in e.args
      modifies this, sink
      ensures stop == ArgTyping(cx, old(expected), arg, param).ty
      ensures Grew(ArgTyping(cx, old(expected), arg, param).found)
      decreases e, 0
    {
      stop := None;
      if param.ty.Some? {
        ghost var s, slot := Now(), expected;
        var t := SynthTy(arg);
        if t.Some? {
          if t.value.Error? {
            return t;
          }
          if !Subtypes(t.value, param.ty.value) {
            var taint := Raise(ArgumentMismatch);
            GrowTwice(s, Typing(cx, slot, arg).found, [ArgumentMismatch]);
            return Some(taint);
          }
        }
      } else {
        GrowNothing(Now());
      }
    }

    /** `compatible`: a value that does not fit its slot is one diagnostic, and the taint. */
    method Compatible(actual: Ty, slot: Option<Ty>) returns (r: Result<(), Ty>)
      modifies this, sink
      ensures r.Ok? <==> Fits(actual, slot)
      ensures Grew(if r.Ok? then [] else [PropertyMismatch]) && (r.Err? ==> r.error == Error)
    {
      GrowNothing(Now());
      if slot.None? || Subtypes(actual, slot.value) {
        return Ok(());
      }
      var taint := Raise(PropertyMismatch);
      r := Err(taint);
    }

    /** `synth`: the type, recorded under the expression's id when there is one. */
    method Synth(id: int, e: Expr) returns (ty: Option<Ty>)
      modifies this, sink
      ensures ty == Typing(cx, old(expected), e).ty
      ensures sink.found == old(sink.found) + Typing(cx, old(expected), e).found
      ensures expected == old(expected)
      ensures entries == if ty.Some? then old(entries) + [(id, ty.value)] else old(entries)
      ensures firstError == FirstError(old(firstError), Typing(cx, old(expected), e).found)
    {
      ty := SynthTy(e);
      if ty.Some? {
        entries := entries + [(id, ty.value)];
      }
    }
  }
}
