/** The checker's typing rules, said of an expression's parts: what type each form has and what it adds to what
    its parts report. */
module Rules {
  import opened Common
  import opened Hir
  import opened Types
  import opened Check

  // ------------------------------------------------------------------ which type satisfies which

  /** A type without the sequences around it, and how many there are. */
  function Core(t: Ty): Ty {
    if t.Seq? then Core(t.inner) else t
  }

  function Depth(t: Ty): nat {
    if t.Seq? then 1 + Depth(t.inner) else 0
  }

  /** The type inside `n` of the sequences around it. */
  function Inside(t: Ty, n: nat): Ty {
    if n == 0 || !t.Seq? then t else Inside(t.inner, n - 1)
  }

  predicate AtMostWider(a: Ty, b: Ty) {
    || a == b || a == Error || b == Error
    || (a == Prim(Integer) && b == Prim(Float))
    || (a.Ref? && b.Ref? && forall s | s in a.shapes :: s in b.shapes)
  }

  /** A type satisfies another exactly when, inside the sequences they share, it is the same, is an integer where
      a float is wanted, is a reference to no shape the other does not have, or one of the two is the taint. */
  lemma {:induction false} SubtypesIsWidening(a: Ty, b: Ty)
    ensures Subtypes(a, b) <==>
            var n := if Depth(a) < Depth(b) then Depth(a) else Depth(b); AtMostWider(Inside(a, n), Inside(b, n))
  {
    if a.Seq? && b.Seq? {
      SubtypesIsWidening(a.inner, b.inner);
      if a == b {
        SubtypesItself(a.inner);
      }
    }
  }

  lemma {:induction false} SubtypesItself(a: Ty)
    ensures Subtypes(a, a)
  {
  }

  // ------------------------------------------------------------------ names

  /** The first field called `name` is the `k`-th. */
  predicate FirstNamed(fields: seq<Field>, name: string, k: int) {
    0 <= k < |fields| && fields[k].name == name && forall j | 0 <= j < k :: fields[j].name != name
  }

  ghost predicate IsTypeOf(fields: seq<Field>, name: string, ty: Ty) {
    exists k :: FirstNamed(fields, name, k) && fields[k].ty == ty
  }

  predicate Unnamed(fields: seq<Field>, name: string) {
    forall j | 0 <= j < |fields| :: fields[j].name != name
  }

  /** A look-up in a row: the type of the first field of the name, or one report. */
  ghost predicate IsLookedUp(t: Typed, row: Ty, name: string) {
    match row
    case Record(fields) =>
      && (forall ty :: t == Typed(Some(ty), []) <==> IsTypeOf(fields, name, ty))
      && (t == Typed(Some(Error), [UnknownField]) <==> Unnamed(fields, name))
    case _ => t == Typed(Some(Error), [NotARecord])
  }

  lemma {:induction false} FieldInIsFirst(fields: seq<Field>, name: string)
    ensures FieldIn(fields, name).None? <==> Unnamed(fields, name)
    ensures forall ty :: FieldIn(fields, name) == Some(ty) <==> IsTypeOf(fields, name, ty)
  {
    if fields == [] {
    } else {
      FieldInIsFirst(fields[1..], name);
      if fields[0].name == name {
        assert FirstNamed(fields, name, 0);
      } else {
        forall ty
          ensures IsTypeOf(fields, name, ty) <==> IsTypeOf(fields[1..], name, ty)
        {
          if k :| FirstNamed(fields, name, k) && fields[k].ty == ty {
            FirstInTheRest(fields, name, k - 1);
          }
          if k :| FirstNamed(fields[1..], name, k) && fields[1..][k].ty == ty {
            FirstInTheRest(fields, name, k);
          }
        }
        assert forall j | 0 <= j < |fields| - 1 :: fields[1..][j] == fields[j + 1];
      }
    }
  }

  lemma {:induction false} FirstInTheRest(fields: seq<Field>, name: string, k: int)
    requires fields != [] && fields[0].name != name
    ensures FirstNamed(fields[1..], name, k) <==> k >= 0 && FirstNamed(fields, name, k + 1)
  {
    assert forall j | 1 <= j < |fields| :: fields[j] == fields[1..][j - 1];
    if FirstNamed(fields[1..], name, k) {
      forall j | 0 <= j < k + 1
        ensures fields[j].name != name
      {
        assert j > 0 ==> fields[1..][j - 1].name != name;
      }
    }
  }

  lemma {:induction false} LookupIsLookedUp(row: Ty, name: string)
    ensures IsLookedUp(LookupIn(row, name), row, name)
  {
    if row.Record? {
      FieldInIsFirst(row.fields, name);
    }
  }

  /** A bare name is looked up in the one row there is, and is unknown where there is none. */
  lemma {:induction false} NameIsLookedUp(cx: Context, expected: Option<Ty>, name: string)
    ensures var t := Typing(cx, expected, FieldRef(name));
            if cx.flat.Some? then IsLookedUp(t, cx.flat.value, name) else t == Typed(None, [])
  {
    if cx.flat.Some? {
      LookupIsLookedUp(cx.flat.value, name);
    }
  }

  /** A qualified one in its binding's row; a binding out of scope is reported, and one without a row is unknown. */
  lemma {:induction false} ColumnIsLookedUp(cx: Context, expected: Option<Ty>, binding: string, column: string)
    ensures var t := Typing(cx, expected, ColumnRef(binding, column));
            match cx.rows
            case None => t == Typed(None, [])
            case Some(rows) =>
              if binding !in rows then t == Typed(None, [RowNotInScope])
              else if rows[binding].None? then t == Typed(None, [])
              else IsLookedUp(t, rows[binding].value, column)
  {
    if cx.rows.Some? && binding in cx.rows.value && cx.rows.value[binding].Some? {
      LookupIsLookedUp(cx.rows.value[binding].value, column);
    }
  }

  // ------------------------------------------------------------------ literals

  /** What a literal is; a text is an IRI in a slot for one, and a text with holes a reference or an IRI in a slot
      for one. */
  lemma {:induction false} LiteralsAreTyped(
    cx: Context, expected: Option<Ty>, n: int, f: int, b: bool, s: string, tag: string, parts: seq<Part>)
    ensures Typing(cx, expected, IntLit(n)) == Typed(Some(Prim(Integer)), [])
    ensures Typing(cx, expected, FloatLit(f)) == Typed(Some(Prim(Float)), [])
    ensures Typing(cx, expected, BoolLit(b)) == Typed(Some(Prim(Primitive.Bool)), [])
    ensures Typing(cx, expected, NullLit) == Typed(Some(Null), [])
    ensures Typing(cx, expected, StringLit(s))
            == Typed(Some(Prim(if expected == Some(Prim(Uri)) then Uri else Str)), [])
    ensures Typing(cx, expected, LangStringLit(s, tag))
            == Typed(Some(Prim(LangStr)), if cx.wellFormedTag(tag) then [] else [InvalidLanguageTag])
    ensures Typing(cx, expected, Interpolation(parts)).ty
            == if expected.Some? && (expected.value.Ref? || expected.value == Prim(Uri)) then expected
               else Some(Prim(Str))
  {
  }

  /** A text with holes reports what its holes do, in order, each typed outside the slot. */
  lemma {:induction false} HolesReportInOrder(
    cx: Context, expected: Option<Ty>, text: string, hole: Expr, more: seq<Part>)
    ensures Typing(cx, expected, Interpolation([])).found == []
    ensures Typing(cx, expected, Interpolation([Run(text)] + more)).found
            == Typing(cx, expected, Interpolation(more)).found
    ensures Typing(cx, expected, Interpolation([Hole(hole)] + more)).found
            == Typing(cx, None, hole).found + Typing(cx, expected, Interpolation(more)).found
  {
    var run, open: seq<Part> := [Run(text)] + more, [Hole(hole)] + more;
    assert run[0] == Run(text) && run[1..] == more && open[0] == Hole(hole) && open[1..] == more;
    assert HolesFound(cx, run) == [] + HolesFound(cx, more);
    assert HolesFound(cx, open) == HoleFound(cx, Hole(hole)) + HolesFound(cx, more);
  }

  // ------------------------------------------------------------------ operators

  predicate IsError(t: Option<Ty>) {
    t == Some(Error)
  }

  /** Not known to be anything but a truth value. */
  predicate MaybeBool(t: Option<Ty>) {
    t == None || t == Some(Prim(Primitive.Bool))
  }

  predicate MaybeNumber(t: Option<Ty>) {
    t == None || t == Some(Prim(Integer)) || t == Some(Prim(Float))
  }

  /** A pair of operands that may be compared: one is unknown, one is null, or one satisfies the other. */
  predicate MayCompare(l: Option<Ty>, r: Option<Ty>) {
    || l == None || r == None || l == Some(Null) || r == Some(Null)
    || Subtypes(l.value, r.value) || Subtypes(r.value, l.value)
  }

  lemma {:induction false} ConnectivesAreTyped(cx: Context, expected: Option<Ty>, op: BinOp, lhs: Expr, rhs: Expr)
    requires op == And || op == Or
    ensures var l, r := Typing(cx, expected, lhs), Typing(cx, expected, rhs);
            Typing(cx, expected, Bin(op, lhs, rhs))
            == if IsError(l.ty) || IsError(r.ty) then Typed(Some(Error), l.found + r.found)
               else if MaybeBool(l.ty) && MaybeBool(r.ty) then Typed(Some(Prim(Primitive.Bool)), l.found + r.found)
               else Typed(Some(Error), l.found + r.found + [ExpectedBool])
  {
    OperandsReport(cx, expected, op, lhs, rhs);
  }

  lemma {:induction false} ComparisonsAreTyped(cx: Context, expected: Option<Ty>, op: BinOp, lhs: Expr, rhs: Expr)
    requires op in {Eq, Ne, Lt, Le, Gt, Ge}
    ensures var l, r := Typing(cx, expected, lhs), Typing(cx, expected, rhs);
            Typing(cx, expected, Bin(op, lhs, rhs))
            == if IsError(l.ty) || IsError(r.ty) then Typed(Some(Error), l.found + r.found)
               else if MayCompare(l.ty, r.ty) then Typed(Some(Prim(Primitive.Bool)), l.found + r.found)
               else Typed(Some(Error), l.found + r.found + [Incomparable])
  {
    OperandsReport(cx, expected, op, lhs, rhs);
  }

  /** A quotient is a float. Otherwise the wider of two numbers, unknown when either is, and a report for each
      operand that is not a number. */
  lemma {:induction false} ArithmeticIsTyped(cx: Context, expected: Option<Ty>, op: BinOp, lhs: Expr, rhs: Expr)
    requires op in {Add, Sub, Mul, Div, Rem}
    ensures var l, r := Typing(cx, expected, lhs), Typing(cx, expected, rhs);
            var both := l.found + r.found;
            Typing(cx, expected, Bin(op, lhs, rhs))
            == if IsError(l.ty) || IsError(r.ty) then Typed(Some(Error), both)
               else if !MaybeNumber(l.ty) && !MaybeNumber(r.ty) then
                 Typed(Some(Error), both + [ExpectedNumber, ExpectedNumber])
               else if !MaybeNumber(l.ty) || !MaybeNumber(r.ty) then Typed(Some(Error), both + [ExpectedNumber])
               else if op == Div then Typed(Some(Prim(Float)), both)
               else if l.ty == None || r.ty == None then Typed(None, both)
               else if l.ty == Some(Prim(Integer)) && r.ty == Some(Prim(Integer)) then Typed(Some(Prim(Integer)), both)
               else Typed(Some(Prim(Float)), both)
  {
    hide Typing, BinTyping;
    OperandsReport(cx, expected, op, lhs, rhs);
    NumbersAreTyped(op, Typing(cx, expected, lhs).ty, Typing(cx, expected, rhs).ty);
  }

  lemma {:induction false} NumbersAreTyped(op: BinOp, l: Option<Ty>, r: Option<Ty>)
    requires op in {Add, Sub, Mul, Div, Rem}
    ensures BinTyping(op, l, r)
            == if IsError(l) || IsError(r) then Typed(Some(Error), [])
               else if !MaybeNumber(l) && !MaybeNumber(r) then Typed(Some(Error), [ExpectedNumber, ExpectedNumber])
               else if !MaybeNumber(l) || !MaybeNumber(r) then Typed(Some(Error), [ExpectedNumber])
               else if op == Div then Typed(Some(Prim(Float)), [])
               else if l == None || r == None then Typed(None, [])
               else if l == Some(Prim(Integer)) && r == Some(Prim(Integer)) then Typed(Some(Prim(Integer)), [])
               else Typed(Some(Prim(Float)), [])
  {
    assert [ExpectedNumber] + [ExpectedNumber] == [ExpectedNumber, ExpectedNumber];
  }

  lemma {:induction false} OperandsReport(cx: Context, expected: Option<Ty>, op: BinOp, lhs: Expr, rhs: Expr)
    ensures var l, r := Typing(cx, expected, lhs), Typing(cx, expected, rhs);
            && Typing(cx, expected, Bin(op, lhs, rhs)).ty == BinTyping(op, l.ty, r.ty).ty
            && Typing(cx, expected, Bin(op, lhs, rhs)).found == l.found + r.found + BinTyping(op, l.ty, r.ty).found
  {
    hide BinTyping;
  }

  lemma {:induction false} UnariesAreTyped(cx: Context, expected: Option<Ty>, o: Expr)
    ensures var t := Typing(cx, expected, o);
            Typing(cx, expected, Unary(Not, o))
            == if IsError(t.ty) then t
               else if MaybeBool(t.ty) then Typed(Some(Prim(Primitive.Bool)), t.found)
               else Typed(Some(Error), t.found + [ExpectedBool])
    ensures var t := Typing(cx, expected, o);
            Typing(cx, expected, Unary(Neg, o))
            == if IsError(t.ty) || MaybeNumber(t.ty) then t else Typed(Some(Error), t.found + [ExpectedNumber])
  {
    var t := Typing(cx, expected, o);
    assert t.found + [] == t.found;
  }

  /** What joins two branches: the one the other satisfies. */
  lemma {:induction false} ConditionalsAreTyped(
    cx: Context, expected: Option<Ty>, cond: Expr, thn: Expr, otherwise: Expr)
    ensures var c, t, o := Typing(cx, expected, cond), Typing(cx, expected, thn), Typing(cx, expected, otherwise);
            var all := c.found + (t.found + o.found);
            Typing(cx, expected, Ternary(cond, thn, otherwise))
            == if IsError(c.ty) then c
               else if !MaybeBool(c.ty) then Typed(Some(Error), c.found + [ExpectedBool])
               else if IsError(t.ty) || IsError(o.ty) then Typed(Some(Error), all)
               else if t.ty == None then Typed(o.ty, all)
               else if o.ty == None then Typed(t.ty, all)
               else if Subtypes(t.ty.value, o.ty.value) then Typed(o.ty, all)
               else if Subtypes(o.ty.value, t.ty.value) then Typed(t.ty, all)
               else Typed(Some(Error), all + [BranchMismatch])
  {
    var c, t, o := Typing(cx, expected, cond), Typing(cx, expected, thn), Typing(cx, expected, otherwise);
    assert BothFound(cx, expected, thn, otherwise) == t.found + o.found;
    assert t.found + o.found + [] == t.found + o.found;
    assert c.found + (t.found + o.found + [BranchMismatch]) == c.found + (t.found + o.found) + [BranchMismatch];
  }

  // ------------------------------------------------------------------ calls

  ghost function MandatoryAt(params: seq<Param>): set<int> {
    set k | 0 <= k < |params| && !params[k].optional
  }

  /** How many arguments a call must have: the parameters that are not optional. */
  lemma {:induction false} RequiredAreTheMandatory(params: seq<Param>)
    ensures Required(params) == |MandatoryAt(params)|
  {
    if params == [] {
      assert MandatoryAt(params) == {};
    } else {
      var last := |params| - 1;
      var before := params[..last];
      RequiredAreTheMandatory(before);
      RequiredAtTheEnd(before, params[last]);
      assert params == before + [params[last]];
      assert MandatoryAt(params) == MandatoryAt(before) + if params[last].optional then {} else {last};
    }
  }

  lemma {:induction false} RequiredAtTheEnd(params: seq<Param>, p: Param)
    ensures Required(params + [p]) == Required(params) + if p.optional then 0 else 1
  {
    if params == [] {
      assert params + [p] == [p];
    } else {
      RequiredAtTheEnd(params[1..], p);
      assert (params + [p])[1..] == params[1..] + [p];
    }
  }

  ghost predicate Mandatory(params: seq<Param>, given: nat) {
    |MandatoryAt(params)| <= given <= |params|
  }

  /** The `k`-th argument passes: it has no type to be of, or it is typed without the taint and as its parameter. */
  predicate Passes(cx: Context, expected: Option<Ty>, arg: Expr, param: Param) {
    || param.ty == None
    || var t := Typing(cx, expected, arg).ty; !IsError(t) && (t == None || Subtypes(t.value, param.ty.value))
  }

  /** What an argument reports, stopped or not. */
  function Reports(cx: Context, expected: Option<Ty>, arg: Expr, param: Param): seq<Problem> {
    if param.ty == None then []
    else
      var t := Typing(cx, expected, arg);
      if IsError(t.ty) || Passes(cx, expected, arg, param) then t.found else t.found + [ArgumentMismatch]
  }

  /** Arguments up to and with the first that does not pass. */
  function Reported(cx: Context, expected: Option<Ty>, args: seq<Expr>, params: seq<Param>): seq<Problem>
    requires |args| <= |params|
  {
    if args == [] then []
    else
      Reports(cx, expected, args[0], params[0])
      + if Passes(cx, expected, args[0], params[0]) then Reported(cx, expected, args[1..], params[1..]) else []
  }

  predicate AllPass(cx: Context, expected: Option<Ty>, args: seq<Expr>, params: seq<Param>)
    requires |args| <= |params|
  {
    forall k | 0 <= k < |args| :: Passes(cx, expected, args[k], params[k])
  }

  lemma {:induction false} ArgIsReported(cx: Context, expected: Option<Ty>, arg: Expr, param: Param)
    ensures ArgTyping(cx, expected, arg, param)
            == Typed(if Passes(cx, expected, arg, param) then None else Some(Error), Reports(cx, expected, arg, param))
  {
  }

  lemma {:induction false} FirstAndRestPass(cx: Context, expected: Option<Ty>, args: seq<Expr>, params: seq<Param>)
    requires 0 < |args| <= |params|
    ensures AllPass(cx, expected, args, params)
            <==> Passes(cx, expected, args[0], params[0]) && AllPass(cx, expected, args[1..], params[1..])
  {
    hide Passes;
    forall k | 0 <= k < |args| - 1
      ensures Passes(cx, expected, args[1..][k], params[1..][k]) == Passes(cx, expected, args[k + 1], params[k + 1])
    {}
    if AllPass(cx, expected, args[1..], params[1..]) {
      forall k | 1 <= k < |args|
        ensures Passes(cx, expected, args[k], params[k])
      {
        assert Passes(cx, expected, args[1..][k - 1], params[1..][k - 1]);
      }
    }
  }

  lemma {:induction false} ArgsAreReported(cx: Context, expected: Option<Ty>, args: seq<Expr>, params: seq<Param>)
    requires |args| <= |params|
    ensures ArgsTyping(cx, expected, args, params)
            == Typed(if AllPass(cx, expected, args, params) then None else Some(Error),
                     Reported(cx, expected, args, params))
  {
    hide Passes, Reports, ArgTyping;
    if args == [] {
    } else {
      ArgIsReported(cx, expected, args[0], params[0]);
      ArgsAreReported(cx, expected, args[1..], params[1..]);
      ArgsTypingStep(cx, expected, args, params);
      FirstAndRestPass(cx, expected, args, params);
      var head := Reports(cx, expected, args[0], params[0]);
      assert head + [] == head;
    }
  }

  /** A call: an unknown name; a constant text given a constant tag; a tag that is no tag; too few or too many
      arguments; the first argument that does not pass; a relation taken for a value. */
  lemma {:induction false} CallsAreTyped(cx: Context, expected: Option<Ty>, func: string, args: seq<Expr>)
    ensures func !in cx.catalogue ==> Typing(cx, expected, Call(func, args)) == Typed(Some(Error), [UnknownFunction])
    ensures func in cx.catalogue && func != "str.lang" ==>
              Typing(cx, expected, Call(func, args)) == Applying(cx, expected, cx.catalogue[func], args)
    ensures "str.lang" in cx.catalogue ==>
              var t := Typing(cx, expected, Call("str.lang", args));
              var applied := Applying(cx, expected, cx.catalogue["str.lang"], args);
              if |args| != 2 || !args[1].StringLit? then t == applied
              else if args[0].StringLit? then t == Typed(Some(Error), [NeedlessLang])
              else if cx.wellFormedTag(args[1].text) then t == applied
              else t == Typed(applied.ty, [InvalidLanguageTag] + applied.found)
  {
    hide ArgsTyping, Required;
    if func in cx.catalogue {
      AppliedIsApplying(cx, expected, Call(func, args));
    }
    if "str.lang" in cx.catalogue {
      AppliedIsApplying(cx, expected, Call("str.lang", args));
    }
  }

  ghost function Applying(cx: Context, expected: Option<Ty>, s: Signature, args: seq<Expr>): Typed {
    if !Mandatory(s.params, |args|) then Typed(Some(Error), [CallArity])
    else if !AllPass(cx, expected, args, s.params) then Typed(Some(Error), Reported(cx, expected, args, s.params))
    else if s.ret == None then Typed(Some(Error), Reported(cx, expected, args, s.params) + [RelationAsValue])
    else Typed(s.ret, Reported(cx, expected, args, s.params))
  }

  lemma {:induction false} AppliedIsApplying(cx: Context, expected: Option<Ty>, e: Expr)
    requires e.Call? && e.func in cx.catalogue
    ensures AppliedTyping(cx, expected, e) == Applying(cx, expected, cx.catalogue[e.func], e.args)
  {
    hide ArgsTyping, Required, AllPass, Reported;
    var params := cx.catalogue[e.func].params;
    RequiredAreTheMandatory(params);
    if |e.args| <= |params| {
      ArgsAreReported(cx, expected, e.args, params);
    }
  }

  /** An edge reports what its ends do, and is a reference to the shape of its name where that has a template. */
  lemma {:induction false} EdgesAreTyped(cx: Context, expected: Option<Ty>, target: string, ends: seq<Expr>)
    ensures var t := Typing(cx, expected, Edge(target, ends));
            t == if target !in cx.shapes then Typed(Some(Ref([])), EndsReport(cx, expected, ends) + [UnknownShape])
                 else
                   var iri := cx.shapes[target];
                   if iri !in cx.templates
                     then Typed(Some(Ref([])), EndsReport(cx, expected, ends) + [EdgeWithoutTemplate])
                   else if |ends| == cx.templates[iri] then Typed(Some(Ref([iri])), EndsReport(cx, expected, ends))
                   else Typed(Some(Ref([iri])), EndsReport(cx, expected, ends) + [EdgeArity])
  {
    EndsReportInOrder(cx, expected, ends);
    var found := EndsReport(cx, expected, ends);
    assert found + [] == found;
  }

  function EndsReport(cx: Context, expected: Option<Ty>, ends: seq<Expr>): seq<Problem> {
    if ends == [] then []
    else EndsReport(cx, expected, ends[..|ends| - 1]) + Typing(cx, expected, ends[|ends| - 1]).found
  }

  lemma {:induction false} EndsReportInOrder(cx: Context, expected: Option<Ty>, ends: seq<Expr>)
    ensures AllFound(cx, expected, ends) == EndsReport(cx, expected, ends)
  {
    if ends == [] {
    } else {
      var last := |ends| - 1;
      EndsReportInOrder(cx, expected, ends[..last]);
      AllFoundAppend(cx, expected, ends[..last], ends[last]);
      assert ends == ends[..last] + [ends[last]];
    }
  }

  lemma {:induction false} AllFoundAppend(cx: Context, expected: Option<Ty>, es: seq<Expr>, e: Expr)
    ensures AllFound(cx, expected, es + [e]) == AllFound(cx, expected, es) + Typing(cx, expected, e).found
  {
    hide Typing;
    if es == [] {
      assert es + [e] == [e] && [e][1..] == [];
    } else {
      AllFoundAppend(cx, expected, es[1..], e);
      assert (es + [e])[1..] == es[1..] + [e];
    }
  }
}
