/** How a template is written: the grammar the reader's documentation gives, with everything it leaves to the writer,
    and what a written template means. */
module TemplateGrammar {
  import opened Common
  import opened Results
  import opened Template
  import Decimal

  // ------------------------------------------------------------------ what a writer chooses

  /** A keyword, its letters in any case, behind its white space. */
  datatype Word = Word(gap: string, letters: string)

  /** A template, every token with the white space before it: values, and the chains of operators between them. */
  datatype Tree =
    | HoleAt(gap: string, digits: string)
    | TextAt(gap: string, text: string)
    | NumberAt(gap: string, digits: string)
    | Group(gap: string, inner: Tree, close: string)
    | CastOf(cast: Word, open: string, inner: Tree, as_: Word, before: string, ty: string, after: string)
    | CaseOf(case_: Word, when: Word, test: Tree, then_: Word, first: Tree, else_: Word, second: Tree, end: Word)
    | CallOf(gap: string, name: string, open: string, args: Args)
    | Joined(lhs: Tree, gap: string, rhs: Tree)
    | Tested(inner: Tree, is_: Word, not: Option<Word>, null_: Word)
    | Either(lhs: Tree, or: Word, rhs: Tree)

  /** The arguments of a call, to the closing parenthesis. */
  datatype Args = Empty(close: string) | Last(arg: Tree, close: string) | More(arg: Tree, comma: string, rest: Args)

  predicate Primary(t: Tree) {
    !t.Joined? && !t.Tested? && !t.Either?
  }

  // ------------------------------------------------------------------ its text

  function Spelled(w: Word, rest: string): string {
    w.gap + (w.letters + rest)
  }

  /** A string's text, its quotes doubled. */
  function Doubled(s: string): string {
    if s == "" then "" else (if s[0] == '\'' then "''" else [s[0]]) + Doubled(s[1..])
  }

  /** A template's text, and then `rest`. */
  function Write(t: Tree, rest: string): string {
    match t
    case HoleAt(gap, digits) => gap + ("%" + (digits + rest))
    case TextAt(gap, text) => gap + ("'" + (Doubled(text) + ("'" + rest)))
    case NumberAt(gap, digits) => gap + (digits + rest)
    case Group(gap, inner, close) => gap + ("(" + Write(inner, close + (")" + rest)))
    case CastOf(cast, open, inner, as_, before, ty, after) =>
      Spelled(cast, open + ("(" + Write(inner, Spelled(as_, before + (ty + (after + (")" + rest)))))))
    case CaseOf(case_, when, test, then_, first, else_, second, end) =>
      Spelled(case_, Spelled(when, Write(test,
        Spelled(then_, Write(first, Spelled(else_, Write(second, Spelled(end, rest))))))))
    case CallOf(gap, name, open, args) => gap + (name + (open + ("(" + WriteArgs(args, rest))))
    case Joined(l, gap, r) => Write(l, gap + ("||" + Write(r, rest)))
    case Tested(inner, is_, not, null_) => Write(inner, Spelled(is_, WriteTest(not, null_, rest)))
    case Either(l, or, r) => Write(l, Spelled(or, Write(r, rest)))
  }

  function WriteArgs(args: Args, rest: string): string {
    match args
    case Empty(close) => close + (")" + rest)
    case Last(arg, close) => Write(arg, close + (")" + rest))
    case More(arg, comma, more) => Write(arg, comma + ("," + WriteArgs(more, rest)))
  }

  function WriteTest(not: Option<Word>, null_: Word, rest: string): string {
    if not.Some? then Spelled(not.value, Spelled(null_, rest)) else Spelled(null_, rest)
  }

  // ------------------------------------------------------------------ and when that text is a template

  predicate Spaces(s: string) {
    forall i | 0 <= i < |s| :: IsSpace(s[i])
  }

  /** Each letter is the keyword's own or its small form. */
  predicate Spells(letters: string, kw: string) {
    |letters| == |kw|
    && forall i | 0 <= i < |kw| :: letters[i] == kw[i] || letters[i] as int == kw[i] as int + 32
  }

  /** No word goes on here. */
  predicate Apart(next: string, env: Env) {
    next != "" ==> !env.letter(next[0]) && !env.numeric(next[0]) && next[0] != '_'
  }

  predicate IsWord(w: Word, kw: string, next: string, env: Env) {
    Spaces(w.gap) && Spells(w.letters, kw) && Apart(next, env)
  }

  /** Digits, all of them. */
  predicate IsNumeral(digits: string, rest: string) {
    digits != "" && Decimal.AllDigits(digits) && (rest != "" ==> !Decimal.IsDigit(rest[0]))
  }

  /** A name a call can have: the two keywords a value begins with are not. */
  predicate IsName(s: string, env: Env) {
    && s != "" && (env.letter(s[0]) || s[0] == '_')
    && (forall i | 0 <= i < |s| :: env.letter(s[i]) || env.numeric(s[i]) || s[i] == '_')
    && !Spells(s, "CAST") && !Spells(s, "CASE")
  }

  predicate Balanced(s: string, depth: nat) {
    if s == "" then depth == 0
    else if s[0] == '(' then Balanced(s[1..], depth + 1)
    else if s[0] == ')' then depth > 0 && Balanced(s[1..], depth - 1)
    else Balanced(s[1..], depth)
  }

  /** A type, without the white space around it. */
  predicate IsType(s: string) {
    Balanced(s, 0) && (s != "" ==> !IsSpace(s[0]) && !IsSpace(s[|s| - 1]))
  }

  /** The tree, with `rest` behind it, is a template of the grammar: `OR` binds loosest, `||` and the tests chain from
      the left, and white space stands wherever two words would run together. */
  predicate Fits(t: Tree, rest: string, env: Env) {
    match t
    case HoleAt(gap, digits) => Spaces(gap) && IsNumeral(digits, rest)
    case TextAt(gap, text) => Spaces(gap) && !Starts(rest, '\'')
    case NumberAt(gap, digits) => Spaces(gap) && IsNumeral(digits, rest)
    case Group(gap, inner, close) => Spaces(gap) && Spaces(close) && Fits(inner, close + (")" + rest), env)
    case CastOf(cast, open, inner, as_, before, ty, after) =>
      var type_ := before + (ty + (after + (")" + rest)));
      && IsWord(cast, "CAST", open + ("(" + Write(inner, Spelled(as_, type_))), env) && Spaces(open)
      && Fits(inner, Spelled(as_, type_), env) && IsWord(as_, "AS", type_, env)
      && Spaces(before) && IsType(ty) && Spaces(after)
    case CaseOf(case_, when, test, then_, first, else_, second, end) =>
      var c := Write(second, Spelled(end, rest));
      var b := Write(first, Spelled(else_, c));
      var a := Write(test, Spelled(then_, b));
      && IsWord(case_, "CASE", Spelled(when, a), env) && IsWord(when, "WHEN", a, env)
      && Fits(test, Spelled(then_, b), env) && IsWord(then_, "THEN", b, env)
      && Fits(first, Spelled(else_, c), env) && IsWord(else_, "ELSE", c, env)
      && Fits(second, Spelled(end, rest), env) && IsWord(end, "END", rest, env)
    case CallOf(gap, name, open, args) => Spaces(gap) && IsName(name, env) && Spaces(open) && FitArgs(args, rest, env)
    case Joined(l, gap, r) =>
      && !l.Either? && Fits(l, gap + ("||" + Write(r, rest)), env) && Spaces(gap)
      && Primary(r) && Fits(r, rest, env)
    case Tested(inner, is_, not, null_) =>
      && !inner.Either? && Fits(inner, Spelled(is_, WriteTest(not, null_, rest)), env)
      && IsWord(is_, "IS", WriteTest(not, null_, rest), env)
      && (not.Some? ==> IsWord(not.value, "NOT", Spelled(null_, rest), env)) && IsWord(null_, "NULL", rest, env)
    case Either(l, or, r) =>
      && Fits(l, Spelled(or, Write(r, rest)), env) && IsWord(or, "OR", Write(r, rest), env)
      && !r.Either? && Fits(r, rest, env)
  }

  predicate FitArgs(args: Args, rest: string, env: Env) {
    match args
    case Empty(close) => Spaces(close)
    case Last(arg, close) => Fits(arg, close + (")" + rest), env) && Spaces(close)
    case More(arg, comma, more) =>
      && Fits(arg, comma + ("," + WriteArgs(more, rest)), env) && Spaces(comma)
      && !more.Empty? && FitArgs(more, rest, env)
  }

  // ------------------------------------------------------------------ what it means

  /** A template over its arguments, in the order the reader meets what can fail. */
  function Meaning(t: Tree, env: Env): Result<Shape, Failure> {
    match t
    case HoleAt(_, digits) => Argument(Decimal.Value(digits), env.args)
    case TextAt(_, text) => Ok(TextLit(text))
    case NumberAt(_, digits) =>
      if Decimal.Value(digits) > I64_MAX then Err(Malformed) else Ok(NumberLit(Decimal.Value(digits)))
    case Group(_, inner, _) => Meaning(inner, env)
    case CastOf(_, _, inner, _, _, ty, _) => CastMeans(Meaning(inner, env), ty)
    case CaseOf(_, _, test, _, first, _, second, _) =>
      CaseMeans(Meaning(test, env), Meaning(first, env), Meaning(second, env), env)
    case CallOf(_, name, _, args) => CallMeans(name, Meanings(args, env), env)
    case Joined(l, _, r) => Both(Meaning(l, env), Meaning(r, env), (x, y) => Concat(x, y))
    case Tested(inner, _, not, _) => TestMeans(Meaning(inner, env), not.Some?)
    case Either(l, _, r) => Both(Meaning(l, env), Meaning(r, env), (x, y) => Shape.Or(x, y))
  }

  function Argument(n: nat, args: seq<int>): Result<Shape, Failure> {
    if n > USIZE_MAX then Err(Malformed) else if n >= |args| then Err(NoArgument(n)) else Ok(Given(args[n]))
  }

  function Both(
    l: Result<Shape, Failure>, r: Result<Shape, Failure>, f: (Shape, Shape) -> Shape): Result<Shape, Failure> {
    if l.Err? then l else if r.Err? then r else Ok(f(l.value, r.value))
  }

  function TestMeans(e: Result<Shape, Failure>, negated: bool): Result<Shape, Failure> {
    if e.Err? then e else Ok(if negated then IsNotNull(e.value) else IsNull(e.value))
  }

  function CastMeans(inner: Result<Shape, Failure>, ty: string): Result<Shape, Failure> {
    if inner.Err? then inner
    else if ty == "BIGINT" then Ok(CastTo(inner.value, Int64))
    else if ty == "INTEGER" then Ok(CastTo(inner.value, Int32))
    else if ty == "DOUBLE" then Ok(CastTo(inner.value, Float64))
    else if ty == "BOOLEAN" then Ok(CastTo(inner.value, Target.Boolean))
    else if ty == "DATE" then Ok(CastTo(inner.value, Date32))
    else if |ty| >= 7 && ty[..7] == "DECIMAL" then Ok(CastTo(inner.value, Float64))
    else Err(NotMapped(ty))
  }

  function CaseMeans(
    w: Result<Shape, Failure>, t: Result<Shape, Failure>, o: Result<Shape, Failure>, env: Env)
    : Result<Shape, Failure>
  {
    if w.Err? then w
    else if t.Err? then t
    else if o.Err? then o
    else if env.builds(w.value, t.value, o.value) then Ok(Case(w.value, t.value, o.value))
    else Err(CaseRejected)
  }

  function CallMeans(name: string, given: Result<seq<Shape>, Failure>, env: Env): Result<Shape, Failure> {
    if given.Err? then Err(given.error)
    else
      var f := env.resolve(name);
      if f.None? then Err(NotAFunction(name)) else Ok(Call(f.value, given.value))
  }

  function Meanings(args: Args, env: Env): Result<seq<Shape>, Failure> {
    match args
    case Empty(_) => Ok([])
    case Last(arg, _) =>
      var e := Meaning(arg, env);
      if e.Err? then Err(e.error) else Ok([e.value])
    case More(arg, _, rest) =>
      var e := Meaning(arg, env);
      if e.Err? then Err(e.error)
      else
        var more := Meanings(rest, env);
        if more.Err? then more else Ok([e.value] + more.value)
  }
}
