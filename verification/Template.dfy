/** The catalogue's expression language: what a template says, and how the reader takes it in. */
module Template {
  import opened Common
  import opened Results
  import Decimal
  import Spans

  datatype Target = Int64 | Int32 | Float64 | Boolean | Date32

  /** The shapes of the language. A template has holes where what it renders to has the arguments given. */
  datatype Shape =
    | Hole(n: nat)
    | Given(argument: int)
    | TextLit(text: string)
    | NumberLit(value: int)
    | Or(lhs: Shape, rhs: Shape)
    | Concat(lhs: Shape, rhs: Shape)
    | IsNull(of: Shape)
    | IsNotNull(of: Shape)
    | Cast(inner: Shape, ty: string)
    | CastTo(inner: Shape, target: Target)
    | Case(when: Shape, thn: Shape, otherwise: Shape)
    | Call(name: string, args: seq<Shape>)

  datatype Failure =
    | ValueDue | Malformed | NoArgument(n: nat) | Unterminated | NoParenthesis | Missing(kw: string)
    | NotMapped(ty: string) | CaseRejected | BareName(name: string) | BadArguments(name: string)
    | NotAFunction(name: string) | Unexpected(c: char) | Trailing(text: string)

  /** The arguments given, what the engine decides, which is the function a name reaches and whether it builds a
      conditional, and which characters are letters and which are numeric. */
  datatype Setting = Setting(
    args: seq<int>, resolve: string -> Option<string>, builds: (Shape, Shape, Shape) -> bool,
    letter: char -> bool, numeric: char -> bool)

  /** Of ASCII the letters and the digits are its own, and no space is either, in Unicode as a whole. */
  ghost predicate Classed(s: Setting) {
    && (forall c: char | c < '\U{80}' :: (s.letter(c) <==> IsAlpha(c)) && (s.numeric(c) <==> Decimal.IsDigit(c)))
    && (forall c: char | IsSpace(c) :: !s.letter(c) && !s.numeric(c))
  }

  type Env = s: Setting | Classed(s)
    witness Setting([], _ => None, (_, _, _) => false, c => IsAlpha(c), c => Decimal.IsDigit(c))

  type Read<T> = Result<(T, string), Failure>

  // ------------------------------------------------------------------ characters and keywords

  /** Unicode's white space. */
  predicate IsSpace(c: char) {
    || '\U{9}' <= c <= '\U{d}' || c == ' ' || c == '\U{85}' || c == '\U{a0}' || c == '\U{1680}'
    || '\U{2000}' <= c <= '\U{200a}' || c == '\U{2028}' || c == '\U{2029}' || c == '\U{202f}'
    || c == '\U{205f}' || c == '\U{3000}'
  }

  predicate IsAlpha(c: char) {
    'a' <= c <= 'z' || 'A' <= c <= 'Z'
  }

  /** What a word goes on with. */
  function WordChars(env: Env): char -> bool {
    c => env.letter(c) || env.numeric(c) || c == '_'
  }

  function Lower(c: char): char {
    if 'A' <= c <= 'Z' then c + 'a' - 'A' else c
  }

  predicate SameWord(a: string, b: string) {
    |a| == |b| && forall i | 0 <= i < |a| :: Lower(a[i]) == Lower(b[i])
  }

  predicate Starts(s: string, c: char) {
    s != "" && s[0] == c
  }

  /** The same character twice. */
  predicate StartsTwice(s: string, c: char) {
    |s| >= 2 && s[0] == c && s[1] == c
  }

  function Trimmed(s: string): (t: string)
    ensures |t| <= |s| && (t != "" ==> !IsSpace(t[0]))
  {
    s[Spans.Span(s, IsSpace)..]
  }

  // Whitespace skipped is skipped once.

  lemma {:induction false} TrimmedStands(s: string)
    requires s == "" || !IsSpace(s[0])
    ensures Trimmed(s) == s
  {
  }

  lemma {:induction false} TrimmedOnce(s: string)
    ensures Trimmed(Trimmed(s)) == Trimmed(s)
  {
    TrimmedStands(Trimmed(s));
  }

  /** Both ends. */
  function Trim(s: string): string {
    TrimEnd(Trimmed(s))
  }

  function TrimEnd(s: string): string {
    if s != "" && IsSpace(s[|s| - 1]) then TrimEnd(s[..|s| - 1]) else s
  }

  /** Does the keyword stand here, as a whole word? */
  predicate AtKeyword(kw: string, s: string, env: Env) {
    var t := Trimmed(s);
    |kw| <= |t| && SameWord(t[..|kw|], kw) && !(|kw| < |t| && WordChars(env)(t[|kw|]))
  }

  function PastKeyword(kw: string, s: string, env: Env): string
    requires AtKeyword(kw, s, env)
  {
    Trimmed(s)[|kw|..]
  }

  predicate AtChar(c: char, s: string) {
    Starts(Trimmed(s), c)
  }

  function PastChar(c: char, s: string): string
    requires AtChar(c, s)
  {
    Trimmed(s)[1..]
  }

  // ------------------------------------------------------------------ the reading

  function CastTarget(ty: string): Option<Target> {
    if ty == "BIGINT" then Some(Int64)
    else if ty == "INTEGER" then Some(Int32)
    else if ty == "DOUBLE" then Some(Float64)
    else if ty == "BOOLEAN" then Some(Boolean)
    else if ty == "DATE" then Some(Date32)
    else if "DECIMAL" <= ty then Some(Float64)
    else None
  }

  function ReadExpr(s: string, env: Env): (r: Read<Shape>)
    ensures r.Ok? ==> |r.value.1| < |s|
    decreases |s|, 4
  {
    var lhs := ReadConcat(s, env);
    if lhs.Err? then lhs else OrTail(lhs.value.0, lhs.value.1, env)
  }

  function OrTail(lhs: Shape, s: string, env: Env): (r: Read<Shape>)
    ensures r.Ok? ==> |r.value.1| <= |s|
    decreases |s|, 4
  {
    if !AtKeyword("OR", s, env) then Ok((lhs, Trimmed(s)))
    else
      var rhs := ReadConcat(PastKeyword("OR", s, env), env);
      if rhs.Err? then rhs else OrTail(Shape.Or(lhs, rhs.value.0), rhs.value.1, env)
  }

  function ReadConcat(s: string, env: Env): (r: Read<Shape>)
    ensures r.Ok? ==> |r.value.1| < |s|
    decreases |s|, 3
  {
    var lhs := ReadPrimary(s, env);
    if lhs.Err? then lhs else ConcatTail(lhs.value.0, lhs.value.1, env)
  }

  function ConcatTail(lhs: Shape, s: string, env: Env): (r: Read<Shape>)
    ensures r.Ok? ==> |r.value.1| <= |s|
    decreases |s|, 4
  {
    var turn := ConcatTurn(lhs, s, env);
    if turn.None? then Ok((lhs, Trimmed(s)))
    else if turn.value.Err? then turn.value
    else ConcatTail(turn.value.value.0, turn.value.value.1, env)
  }

  function ConcatTurn(lhs: Shape, s: string, env: Env): (r: Option<Read<Shape>>)
    ensures r.Some? && r.value.Ok? ==> |r.value.value.1| < |s|
    decreases |s|, 3
  {
    TurnAt(lhs, Trimmed(s), env)
  }

  /** `||` and a primary, or `IS [NOT] NULL`; nothing when neither stands here. */
  function TurnAt(lhs: Shape, t: string, env: Env): (r: Option<Read<Shape>>)
    ensures r.Some? && r.value.Ok? ==> |r.value.value.1| < |t|
    decreases |t|, 2
  {
    if StartsTwice(t, '|') then Some(ReadJoined(lhs, t[2..], env))
    else if AtKeyword("IS", t, env) then Some(ReadTest(lhs, PastKeyword("IS", t, env), env))
    else None
  }

  function ReadJoined(lhs: Shape, s: string, env: Env): (r: Read<Shape>)
    ensures r.Ok? ==> |r.value.1| < |s|
    decreases |s|, 3
  {
    var rhs := ReadPrimary(s, env);
    if rhs.Err? then rhs else Ok((Concat(lhs, rhs.value.0), rhs.value.1))
  }

  /** `NULL` or `NOT NULL`, behind `IS`. */
  function ReadTest(lhs: Shape, u: string, env: Env): (r: Read<Shape>)
    ensures r.Ok? ==> |r.value.1| < |u|
  {
    if AtKeyword("NOT", u, env) then
      if AtKeyword("NULL", PastKeyword("NOT", u, env), env)
          then Ok((IsNotNull(lhs), PastKeyword("NULL", PastKeyword("NOT", u, env), env))) else Err(Missing("NULL"))
    else if AtKeyword("NULL", Trimmed(u), env) then Ok((IsNull(lhs), PastKeyword("NULL", Trimmed(u), env)))
    else Err(Missing("NULL"))
  }

  function ReadPrimary(s: string, env: Env): (r: Read<Shape>)
    ensures r.Ok? ==> |r.value.1| < |s|
    decreases |s|, 2
  {
    ValueAt(Trimmed(s), env)
  }

  /** A value is decided by the character it begins with, or by the word. */
  function ValueAt(t: string, env: Env): (r: Read<Shape>)
    ensures r.Ok? ==> |r.value.1| < |t|
    decreases |t|, 1
  {
    if t == "" then Err(ValueDue)
    else if t[0] == '%' then ReadHole(t, env.args)
    else if t[0] == '\'' then ReadText(t[1..])
    else if Decimal.IsDigit(t[0]) then ReadNumber(t)
    else if t[0] == '(' then Closed(ReadExpr(t[1..], env))
    else WordAt(t, env)
  }

  /** A group, closed. */
  function Closed(e: Read<Shape>): (r: Read<Shape>)
    ensures r.Ok? ==> e.Ok? && |r.value.1| < |e.value.1|
  {
    if e.Err? then e else if AtChar(')', e.value.1) then Ok((e.value.0, PastChar(')', e.value.1)))
        else Err(NoParenthesis)
  }

  function WordAt(t: string, env: Env): (r: Read<Shape>)
    requires t != ""
    ensures r.Ok? ==> |r.value.1| < |t|
    decreases |t|, 0
  {
    if AtKeyword("CAST", t, env) then ReadCast(PastKeyword("CAST", t, env), env)
    else if AtKeyword("CASE", t, env) then ReadCase(PastKeyword("CASE", t, env), env)
    else if env.letter(t[0]) || t[0] == '_' then
      var n := Spans.Span(t, WordChars(env));
      ReadCall(t[..n], t[n..], env)
    else Err(Unexpected(t[0]))
  }

  function ReadHole(t: string, args: seq<int>): (r: Read<Shape>)
    requires t != ""
    ensures r.Ok? ==> |r.value.1| < |t|
  {
    var n := Spans.Span(t[1..], Decimal.IsDigit);
    var digits := t[1..][..n];
    if n == 0 || Decimal.Value(digits) > USIZE_MAX then Err(Malformed)
    else if Decimal.Value(digits) >= |args| then Err(NoArgument(Decimal.Value(digits)))
    else Ok((Given(args[Decimal.Value(digits)]), t[1..][n..]))
  }

  /** To the closing quote: a doubled quote is a quote. */
  function ReadText(s: string): (r: Read<Shape>)
    ensures r.Ok? ==> r.value.0.TextLit? && |r.value.1| <= |s|
  {
    if s == "" then Err(Unterminated)
    else if StartsTwice(s, '\'') then
      var more := ReadText(s[2..]);
      if more.Err? then more else Ok((TextLit("'" + more.value.0.text), more.value.1))
    else if s[0] == '\'' then Ok((TextLit(""), s[1..]))
    else
      var more := ReadText(s[1..]);
      if more.Err? then more else Ok((TextLit([s[0]] + more.value.0.text), more.value.1))
  }

  function ReadNumber(t: string): (r: Read<Shape>)
    requires t != "" && Decimal.IsDigit(t[0])
    ensures r.Ok? ==> |r.value.1| < |t|
  {
    var n := Spans.Span(t, Decimal.IsDigit);
    if Decimal.Value(t[..n]) > I64_MAX then Err(Malformed) else Ok((NumberLit(Decimal.Value(t[..n])), t[n..]))
  }

  /** How far a type goes: to the parenthesis that closes the cast, or to the end. */
  function TypeSpan(s: string, depth: nat): (n: nat)
    ensures n <= |s|
  {
    if s == "" then 0
    else if s[0] == '(' then 1 + TypeSpan(s[1..], depth + 1)
    else if s[0] == ')' then if depth == 0 then 0 else 1 + TypeSpan(s[1..], depth - 1)
    else 1 + TypeSpan(s[1..], depth)
  }

  function ReadCast(s: string, env: Env): (r: Read<Shape>)
    ensures r.Ok? ==> |r.value.1| < |s|
    decreases |s|, 0
  {
    if !AtChar('(', s) then Err(NoParenthesis)
    else
      var inner := ReadExpr(PastChar('(', s), env);
      if inner.Err? then inner
      else if !AtKeyword("AS", inner.value.1, env) then Err(Missing("AS"))
      else ReadType(inner.value.0, Trimmed(PastKeyword("AS", inner.value.1, env)))
  }

  function ReadType(inner: Shape, t: string): (r: Read<Shape>)
    ensures r.Ok? ==> |r.value.1| < |t|
  {
    var n := TypeSpan(t, 0);
    if !AtChar(')', t[n..]) then Err(NoParenthesis)
    else
      var target := CastTarget(Trim(t[..n]));
      if target.None? then Err(NotMapped(Trim(t[..n]))) else Ok((CastTo(inner, target.value), PastChar(')', t[n..])))
  }

  function ReadCase(s: string, env: Env): (r: Read<Shape>)
    ensures r.Ok? ==> |r.value.1| < |s|
    decreases |s|, 1
  {
    var w := ReadAfter("WHEN", s, env);
    if w.Err? then w
    else
      var t := ReadAfter("THEN", w.value.1, env);
      if t.Err? then t
      else
        var o := ReadAfter("ELSE", t.value.1, env);
        if o.Err? then o
        else if !AtKeyword("END", o.value.1, env) then Err(Missing("END"))
        else if env.builds(w.value.0, t.value.0, o.value.0)
          then Ok((Case(w.value.0, t.value.0, o.value.0), PastKeyword("END", o.value.1, env)))
        else Err(CaseRejected)
  }

  /** An expression behind a keyword. */
  function ReadAfter(kw: string, s: string, env: Env): (r: Read<Shape>)
    requires kw != ""
    ensures r.Ok? ==> |r.value.1| < |s|
    decreases |s|, 0
  {
    if !AtKeyword(kw, s, env) then Err(Missing(kw)) else ReadExpr(PastKeyword(kw, s, env), env)
  }

  function ReadCall(name: string, s: string, env: Env): (r: Read<Shape>)
    ensures r.Ok? ==> |r.value.1| < |s|
    decreases |s|, 0
  {
    if !AtChar('(', s) then Err(BareName(name))
    else
      var given := ReadGiven(name, PastChar('(', s), env);
      if given.Err? then Err(given.error) else Applied(name, given.value.0, given.value.1, env)
  }

  /** The name is reconciled once its arguments are read. */
  function Applied(name: string, given: seq<Shape>, rest: string, env: Env): (r: Read<Shape>)
    ensures r.Ok? ==> r.value.1 == rest
  {
    var f := env.resolve(name);
    if f.None? then Err(NotAFunction(name)) else Ok((Call(f.value, given), rest))
  }

  function ReadGiven(name: string, s: string, env: Env): (r: Read<seq<Shape>>)
    ensures r.Ok? ==> |r.value.1| < |s|
    decreases |s|, 6
  {
    if AtChar(')', s) then Ok(([], PastChar(')', s))) else ReadArgs(name, Trimmed(s), env)
  }

  function ReadArgs(name: string, s: string, env: Env): (r: Read<seq<Shape>>)
    ensures r.Ok? ==> |r.value.1| < |s|
    decreases |s|, 5
  {
    var e := ReadExpr(s, env);
    if e.Err? then Err(e.error)
    else if AtChar(',', e.value.1) then
      var more := ReadArgs(name, PastChar(',', e.value.1), env);
      if more.Err? then more else Ok(([e.value.0] + more.value.0, more.value.1))
    else if AtChar(')', e.value.1) then Ok(([e.value.0], PastChar(')', e.value.1)))
    else Err(BadArguments(name))
  }

  /** A whole template. */
  function Reading(template: string, env: Env): Result<Shape, Failure> {
    var e := ReadExpr(template, env);
    if e.Err? then Err(e.error)
    else if Trimmed(e.value.1) != "" then Err(Trailing(Trimmed(e.value.1)))
    else Ok(e.value.0)
  }
}
