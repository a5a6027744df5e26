/** The expression checker: what type an expression has and what is reported on the way. `Typing` is the
    specification; the class updates its sink, its first error and its expectation as it goes. */
module Check {
  import opened Common
  import opened Hir
  import opened Types

  /** A diagnostic, by what it is about. */
  datatype Problem =
    | UnknownField | RowNotInScope | NotARecord | UnknownShape | EdgeWithoutTemplate | EdgeArity
    | UnknownFunction | NeedlessLang | CallArity | ArgumentMismatch | RelationAsValue | InvalidLanguageTag
    | ExpectedBool | ExpectedNumber | Incomparable | BranchMismatch | PropertyMismatch

  /** A parameter's type, absent when it is a relation, a condition or a column. */
  datatype Param = Param(ty: Option<Ty>, optional: bool)

  datatype Signature = Signature(params: seq<Param>, ret: Option<Ty>)

  /** What typing an expression reads: the rows in scope, the catalogue, and the program's types. */
  datatype Context = Context(
    rows: Option<map<string, Option<Ty>>>, flat: Option<Ty>, catalogue: map<string, Signature>,
    shapes: map<string, string>, templates: map<string, nat>, wellFormedTag: string -> bool)

  datatype Typed = Typed(ty: Option<Ty>, found: seq<Problem>)

  function Refused(p: Problem): Typed {
    Typed(Some(Error), [p])
  }

  /** What a string denotes where a node or an IRI is expected. */
  function Denoted(expected: Option<Ty>): Option<Ty> {
    if expected.Some? && (expected.value.Ref? || expected.value == URI) then expected else None
  }

  function FieldIn(fields: seq<Field>, name: string): Option<Ty> {
    if fields == [] then None
    else if fields[0].name == name then Some(fields[0].ty)
    else FieldIn(fields[1..], name)
  }

  function LookupIn(row: Ty, name: string): Typed {
    if !row.Record? then Refused(NotARecord)
    else
      var field := FieldIn(row.fields, name);
      if field.Some? then Typed(field, []) else Refused(UnknownField)
  }

  function FieldTyping(cx: Context, name: string): Typed {
    if cx.flat.None? then Typed(None, []) else LookupIn(cx.flat.value, name)
  }

  function ColumnTyping(cx: Context, binding: string, column: string): Typed {
    if cx.rows.None? then Typed(None, [])
    else if binding !in cx.rows.value then Typed(None, [RowNotInScope])
    else if cx.rows.value[binding].None? then Typed(None, [])
    else LookupIn(cx.rows.value[binding].value, column)
  }

  predicate IsConnective(op: BinOp) {
    op.And? || op.Or?
  }

  predicate IsComparison(op: BinOp) {
    op.Eq? || op.Ne? || op.Lt? || op.Le? || op.Gt? || op.Ge?
  }

  predicate Tainted(ty: Option<Ty>) {
    ty.Some? && ty.value.Error?
  }

  predicate NotBool(ty: Option<Ty>) {
    ty.Some? && !Subtypes(ty.value, BOOL)
  }

  predicate NotNumber(ty: Option<Ty>) {
    ty.Some? && ty.value != INTEGER && ty.value != FLOAT
  }

  predicate CannotCompare(l: Option<Ty>, r: Option<Ty>) {
    l.Some? && r.Some? && !l.value.Null? && !r.value.Null? && !Subtypes(l.value, r.value) && !Subtypes(r.value, l.value)
  }

  /** A binary operator over operands already typed. */
  function BinTyping(op: BinOp, l: Option<Ty>, r: Option<Ty>): Typed {
    if Tainted(l) || Tainted(r) then Typed(Some(Error), [])
    else if IsConnective(op) then
      if NotBool(l) || NotBool(r) then Refused(ExpectedBool) else Typed(Some(BOOL), [])
    else if IsComparison(op) then
      if CannotCompare(l, r) then Refused(Incomparable) else Typed(Some(BOOL), [])
    else ArithTyping(op, l, r)
  }

  function ArithTyping(op: BinOp, l: Option<Ty>, r: Option<Ty>): Typed {
    var found := (if NotNumber(l) then [ExpectedNumber] else []) + if NotNumber(r) then [ExpectedNumber] else [];
    if found != [] then Typed(Some(Error), found)
    else if op.Div? then Typed(Some(FLOAT), [])
    else if l.None? || r.None? then Typed(None, [])
    else if l.value == FLOAT || r.value == FLOAT then Typed(Some(FLOAT), [])
    else Typed(Some(INTEGER), [])
  }

  function UnaryTyping(op: UnOp, operand: Option<Ty>): Typed {
    if operand.None? then Typed(if op.Not? then Some(BOOL) else None, [])
    else if operand.value.Error? then Typed(operand, [])
    else if op.Not? then if operand.value == BOOL then Typed(operand, []) else Refused(ExpectedBool)
    else if operand.value == INTEGER || operand.value == FLOAT then Typed(operand, [])
    else Refused(ExpectedNumber)
  }

  function BranchTyping(t: Option<Ty>, o: Option<Ty>): Typed {
    if Tainted(t) || Tainted(o) then Typed(Some(Error), [])
    else if t.Some? && o.Some? then
      if Subtypes(t.value, o.value) then Typed(o, [])
      else if Subtypes(o.value, t.value) then Typed(t, [])
      else Refused(BranchMismatch)
    else if t.Some? then Typed(t, [])
    else Typed(o, [])
  }

  /** Does a value's type fit the slot it is written in? A slot that narrows nothing takes anything. */
  predicate Fits(actual: Ty, slot: Option<Ty>) {
    slot.None? || Subtypes(actual, slot.value)
  }

  /** How many arguments a call must have. */
  function Required(params: seq<Param>): nat {
    if params == [] then 0 else (if params[0].optional then 0 else 1) + Required(params[1..])
  }

  /** `x.lang("…")` with a constant tag. */
  predicate IsConstantLang(func: string, args: seq<Expr>) {
    func == "str.lang" && |args| == 2 && args[1].StringLit?
  }

  function TagFound(cx: Context, tag: string): seq<Problem> {
    if cx.wellFormedTag(tag) then [] else [InvalidLanguageTag]
  }

  /** An edge over arguments already typed: a reference to the shape, whatever is reported of it. */
  function EdgeTyping(cx: Context, target: string, given: nat): Typed {
    if target !in cx.shapes then Typed(Some(Ref([])), [UnknownShape])
    else
      var iri := cx.shapes[target];
      if iri !in cx.templates then Typed(Some(Ref([])), [EdgeWithoutTemplate])
      else Typed(Some(Ref([iri])), if given != cx.templates[iri] then [EdgeArity] else [])
  }

  /** A call once its name is catalogued: the arity, then the arguments in order, then the result. */
  function ReturnTyping(ret: Option<Ty>): Typed {
    if ret.Some? then Typed(ret, []) else Refused(RelationAsValue)
  }

  function After(found: seq<Problem>, t: Typed): Typed {
    Typed(t.ty, found + t.found)
  }

  function Typing(cx: Context, expected: Option<Ty>, e: Expr): Typed
    decreases e, 2
  {
    match e
    case StringLit(_) =>
      var iri := Denoted(expected);
      Typed(if iri.Some? && !iri.value.Ref? then iri else Some(STRING), [])
    case LangStringLit(_, tag) => Typed(Some(LANG_STRING), TagFound(cx, tag))
    case Interpolation(parts) =>
      Typed(if Denoted(expected).Some? then Denoted(expected) else Some(STRING), HolesFound(cx, parts))
    case ColumnRef(binding, column) => ColumnTyping(cx, binding, column)
    case FieldRef(name) => FieldTyping(cx, name)
    case Call(func, args) => CallTyping(cx, expected, e)
    case Edge(target, ends) => After(AllFound(cx, expected, ends), EdgeTyping(cx, target, |ends|))
    case IntLit(_) => Typed(Some(INTEGER), [])
    case FloatLit(_) => Typed(Some(FLOAT), [])
    case NullLit => Typed(Some(Null), [])
    case BoolLit(_) => Typed(Some(BOOL), [])
    case Unary(op, operand) =>
      var t := Typing(cx, expected, operand);
      After(t.found, UnaryTyping(op, t.ty))
    case Bin(op, lhs, rhs) =>
      var l, r := Typing(cx, expected, lhs), Typing(cx, expected, rhs);
      After(BothFound(cx, expected, lhs, rhs), BinTyping(op, l.ty, r.ty))
    case Ternary(cond, thn, otherwise) =>
      var c := ConditionTyping(cx, expected, cond);
      if c.ty.Some? then c else After(c.found, BranchesTyping(cx, expected, e))
  }

  /** What stops a conditional at its condition, if it does. */
  function ConditionTyping(cx: Context, expected: Option<Ty>, cond: Expr): (r: Typed)
    ensures r.ty.Some? ==> r.ty.value.Error?
    decreases cond, 3
  {
    var c := Typing(cx, expected, cond);
    if Tainted(c.ty) then c
    else if NotBool(c.ty) then After(c.found, Refused(ExpectedBool))
    else Typed(None, c.found)
  }

  function BranchesTyping(cx: Context, expected: Option<Ty>, e: Expr): Typed
    requires e.Ternary?
    decreases e, 0
  {
    var t, o := Typing(cx, expected, e.thn), Typing(cx, expected, e.otherwise);
    After(BothFound(cx, expected, e.thn, e.otherwise), BranchTyping(t.ty, o.ty))
  }

  function CallTyping(cx: Context, expected: Option<Ty>, e: Expr): Typed
    requires e.Call?
    decreases e, 1
  {
    if e.func !in cx.catalogue then Refused(UnknownFunction)
    else if IsConstantLang(e.func, e.args) && e.args[0].StringLit? then Refused(NeedlessLang)
    else
      var tag := if IsConstantLang(e.func, e.args) then TagFound(cx, e.args[1].text) else [];
      After(tag, AppliedTyping(cx, expected, e))
  }

  function AppliedTyping(cx: Context, expected: Option<Ty>, e: Expr): Typed
    requires e.Call? && e.func in cx.catalogue
    decreases e, 0
  {
    var params := cx.catalogue[e.func].params;
    if |e.args| < Required(params) || |e.args| > |params| then Refused(CallArity)
    else
      var args := ArgsTyping(cx, expected, e.args, params);
      if args.ty.Some? then args else After(args.found, ReturnTyping(cx.catalogue[e.func].ret))
  }

  /** The arguments in order, up to the first that stops the call: an error, or a type the parameter refuses. */
  function ArgsTyping(cx: Context, expected: Option<Ty>, args: seq<Expr>, params: seq<Param>): (r: Typed)
    ensures r.ty.Some? ==> r.ty.value.Error?
    decreases args
  {
    if args == [] || params == [] then Typed(None, [])
    else
      var t := ArgTyping(cx, expected, args[0], params[0]);
      if t.ty.Some? then t else After(t.found, ArgsTyping(cx, expected, args[1..], params[1..]))
  }

  /** What stops the call at this argument, if it does. */
  function ArgTyping(cx: Context, expected: Option<Ty>, arg: Expr, param: Param): (r: Typed)
    ensures r.ty.Some? ==> r.ty.value.Error?
    decreases arg, 3
  {
    if param.ty.None? then Typed(None, [])
    else
      var t := Typing(cx, expected, arg);
      if Tainted(t.ty) then t
      else if t.ty.Some? && !Subtypes(t.ty.value, param.ty.value) then After(t.found, Refused(ArgumentMismatch))
      else Typed(None, t.found)
  }

  lemma {:induction false} ArgsTypingStep(cx: Context, expected: Option<Ty>, args: seq<Expr>, params: seq<Param>)
    requires args != [] && params != []
    ensures var t := ArgTyping(cx, expected, args[0], params[0]);
            ArgsTyping(cx, expected, args, params)
            == if t.ty.Some? then t else After(t.found, ArgsTyping(cx, expected, args[1..], params[1..]))
  {
  }

  lemma {:induction false} AfterTwice(first: seq<Problem>, second: seq<Problem>, t: Typed)
    ensures After(first, After(second, t)) == After(first + second, t)
  {
    assert first + (second + t.found) == first + second + t.found;
  }

  /** What two operands have reported, left before right. */
  function BothFound(cx: Context, expected: Option<Ty>, a: Expr, b: Expr): seq<Problem>
    decreases if a < b then b else a, 3
  {
    Typing(cx, expected, a).found + Typing(cx, expected, b).found
  }

  function AllFound(cx: Context, expected: Option<Ty>, es: seq<Expr>): seq<Problem>
    decreases es
  {
    if es == [] then [] else Typing(cx, expected, es[0]).found + AllFound(cx, expected, es[1..])
  }

  /** A hole is not in the slot the interpolation is in. */
  function HolesFound(cx: Context, parts: seq<Part>): seq<Problem>
    decreases parts
  {
    if parts == [] then [] else HoleFound(cx, parts[0]) + HolesFound(cx, parts[1..])
  }

  function HoleFound(cx: Context, part: Part): seq<Problem>
    decreases part
  {
    match part
    case Run(_) => []
    case Hole(hole) => Typing(cx, None, hole).found
  }
}
