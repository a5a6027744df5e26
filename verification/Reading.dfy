/** Reading a printed expression back: what the text says of the tree, no more and no less. */
module Reading {
  import opened Common
  import opened Hir
  import opened Display
  import Decimal
  import Spans

  type Read<T> = Option<(T, string)>

  // ------------------------------------------------------------------ what a text says

  /** A text says of an interpolation which runs and holes, not how the runs were cut. */
  function Glue(text: string, parts: seq<Part>): seq<Part> {
    if text == "" then parts
    else if parts != [] && parts[0].Run? then [Run(text + parts[0].text)] + parts[1..]
    else [Run(text)] + parts
  }

  /** And with no hole it says a string. */
  function Quoted(parts: seq<Part>): Expr {
    if parts == [] then StringLit("")
    else if |parts| == 1 && parts[0].Run? then StringLit(parts[0].text)
    else Interpolation(parts)
  }

  /** A name applied is an edge when the name is a type's. */
  function Applied(name: string, args: seq<Expr>, v: Vocabulary): Expr {
    if v.isType(name) then Edge(name, args) else Call(name, args)
  }

  /** The text of a whole number. */
  predicate IsNumeral(s: string) {
    Decimal.AllDigits(s) && s == Decimal.Text(Decimal.Value(s))
  }

  /** Digits, a point and more digits. */
  predicate IsDecimal(s: string) {
    var n := Spans.Span(s, Decimal.IsDigit);
    0 < n < |s| && s[n] == '.' && Decimal.AllDigits(s[n + 1..])
  }

  /** A float that has this text. */
  ghost function FloatNamed(s: string, v: Vocabulary): int {
    if exists f :: v.float(f) == s then var f :| v.float(f) == s; f else 0
  }

  /** A float with nothing after its point says a whole number, and one past every number says its name. */
  ghost function SaidFloat(f: int, v: Vocabulary): Expr {
    var s := v.float(f);
    if IsNumeral(s) then IntLit(Decimal.Value(s))
    else if IsBare(s) then FieldRef(s)
    else FloatLit(FloatNamed(s, v))
  }

  /** What the text of an operand says. */
  ghost function Inner(e: Expr, v: Vocabulary): Expr
    decreases e, 0
  {
    match e
    case Interpolation(parts) => Quoted(InnerParts(parts, v))
    case Call(func, args) => Applied(func, CanonAll(args, v), v)
    case Edge(target, ends) => Applied(target, CanonAll(ends, v), v)
    case Bin(op, l, r) => Bin(op, Inner(l, v), Inner(r, v))
    case Unary(op, o) => Unary(op, Inner(o, v))
    case Ternary(c, t, o) => Ternary(Inner(c, v), Inner(t, v), Inner(o, v))
    case FloatLit(f) => SaidFloat(f, v)
    case _ => e
  }

  /** What the text of a whole expression says: a negative literal is the negation of a literal. */
  ghost function Canon(e: Expr, v: Vocabulary): Expr
    decreases e, 1
  {
    if e.IntLit? && e.n < 0 then Unary(Neg, IntLit(-e.n)) else Inner(e, v)
  }

  ghost function CanonAll(es: seq<Expr>, v: Vocabulary): seq<Expr>
    decreases es, 0
  {
    if es == [] then [] else [Canon(es[0], v)] + CanonAll(es[1..], v)
  }

  ghost function InnerParts(parts: seq<Part>, v: Vocabulary): seq<Part>
    decreases parts, 0
  {
    if parts == [] then [] else JoinPart(parts[0], InnerParts(parts[1..], v), v)
  }

  ghost function JoinPart(part: Part, rest: seq<Part>, v: Vocabulary): seq<Part>
    decreases part, 0
  {
    match part
    case Run(t) => Glue(t, rest)
    case Hole(hole) => [Hole(Canon(hole, v))] + rest
  }

  // ------------------------------------------------------------------ the texts a program has

  predicate WordChar(c: char) {
    NameChar(c) || c == '.'
  }

  predicate TagChar(c: char) {
    NameChar(c) || c == '-'
  }

  predicate IsWord(s: string) {
    s != "" && forall i | 0 <= i < |s| :: WordChar(s[i])
  }

  predicate IsTag(s: string) {
    forall i | 0 <= i < |s| :: TagChar(s[i])
  }

  /** A text with no opening brace, and no quote but an escaped one; an escape is kept as it is written. */
  predicate Plain(s: string) {
    if s == "" then true
    else if s[0] == '\\' then |s| == 1 || (s[1] != '{' && Plain(s[2..]))
    else s[0] != '"' && s[0] != '{' && Plain(s[1..])
  }

  /** The text ends inside an escape. */
  predicate Open(s: string) {
    if s == "" then false
    else if s[0] == '\\' then |s| == 1 || Open(s[2..])
    else Open(s[1..])
  }

  /** A run that ends inside an escape has a hole behind it, which it cannot escape. */
  predicate Closes(parts: seq<Part>) {
    forall i | 0 <= i < |parts| && parts[i].Run? && Open(parts[i].text) :: i + 1 < |parts| && parts[i + 1].Hole?
  }

  /** Names lex as names, a float's text is a number's or a name, and texts are plain. */
  predicate WellNamed(e: Expr, v: Vocabulary)
    decreases e, 1
  {
    match e
    case Interpolation(parts) => Closes(parts) && forall p | p in parts :: WellNamedPart(p, v)
    case FieldRef(name) => IsBare(name)
    case ColumnRef(binding, _) => IsBare(binding)
    case StringLit(s) => Plain(s) && !Open(s)
    case LangStringLit(s, tag) => Plain(s) && !Open(s) && IsTag(tag)
    case Call(func, args) => IsWord(func) && forall a | a in args :: WellNamed(a, v)
    case Edge(target, ends) => IsWord(target) && forall a | a in ends :: WellNamed(a, v)
    case FloatLit(f) => var s := v.float(f); IsNumeral(s) || IsDecimal(s) || IsBare(s)
    case Bin(_, l, r) => WellNamed(l, v) && WellNamed(r, v)
    case Unary(_, o) => WellNamed(o, v)
    case Ternary(c, t, o) => WellNamed(c, v) && WellNamed(t, v) && WellNamed(o, v)
    case _ => true
  }

  predicate WellNamedPart(part: Part, v: Vocabulary)
    decreases part, 0
  {
    match part
    case Run(t) => Plain(t)
    case Hole(hole) => WellNamed(hole, v)
  }

  // ------------------------------------------------------------------ the reader

  predicate Starts(s: string, c: char) {
    s != "" && s[0] == c
  }

  predicate NotSpace(c: char) {
    c != ' '
  }

  /** The operator a token is. */
  function OpNamed(token: string): Option<BinOp> {
    if token == "==" then Some(Eq)
    else if token == "!=" then Some(Ne)
    else if token == "<" then Some(Lt)
    else if token == "<=" then Some(Le)
    else if token == ">" then Some(Gt)
    else if token == ">=" then Some(Ge)
    else if token == "and" then Some(And)
    else if token == "or" then Some(Or)
    else if token == "+" then Some(Add)
    else if token == "-" then Some(Sub)
    else if token == "*" then Some(Mul)
    else if token == "/" then Some(Div)
    else if token == "%" then Some(Rem)
    else None
  }

  function ReadName(s: string): (r: Read<string>)
    ensures r.Some? ==> |r.value.1| < |s|
  {
    if s == "" then None
    else if s[0] == '"' then Some(("", s[1..]))
    else if s[0] == '\\' || s[0] == '{' then
      if |s| < 2 then None
      else
        var more := ReadName(s[2..]);
        if more.None? then None else Some(([Unescape(s[0], s[1])] + more.value.0, more.value.1))
    else
      var more := ReadName(s[1..]);
      if more.None? then None else Some(([s[0]] + more.value.0, more.value.1))
  }

  function Unescape(mark: char, c: char): char {
    if mark == '{' then c
    else if c == 'n' then '\n'
    else if c == 't' then '\t'
    else if c == 'r' then '\r'
    else c
  }

  ghost function Leaf(w: string, v: Vocabulary): Expr {
    if Decimal.AllDigits(w) then IntLit(Decimal.Value(w))
    else if w == "null" then NullLit
    else if w == "true" then BoolLit(true)
    else if w == "false" then BoolLit(false)
    else if IsDecimal(w) then FloatLit(FloatNamed(w, v))
    else
      var n := Spans.Span(w, NameChar);
      if n < |w| then ColumnRef(w[..n], w[n + 1..]) else FieldRef(w)
  }

  ghost function ReadExpr(s: string, v: Vocabulary): (r: Read<Expr>)
    ensures r.Some? ==> |r.value.1| < |s|
    decreases |s|, 3
  {
    if Starts(s, '-') then
      var o := ReadOperand(s[1..], v);
      if o.None? then None
      else if o.value.0.IntLit? && Starts(o.value.1, ' ') then ReadTail(IntLit(-o.value.0.n), o.value.1, v)
      else Some((Unary(Neg, o.value.0), o.value.1))
    else if "not " <= s then
      var o := ReadOperand(s[4..], v);
      if o.None? then None else Some((Unary(Not, o.value.0), o.value.1))
    else
      var o := ReadOperand(s, v);
      if o.None? then None else ReadTail(o.value.0, o.value.1, v)
  }

  /** What follows a first operand. */
  ghost function ReadTail(first: Expr, s: string, v: Vocabulary): (r: Read<Expr>)
    ensures r.Some? ==> |r.value.1| <= |s|
    decreases |s|, 4
  {
    if !Starts(s, ' ') then Some((first, s))
    else if " ? " <= s then
      var t := ReadOperand(s[3..], v);
      if t.None? || !(" : " <= t.value.1) then None
      else
        var o := ReadOperand(t.value.1[3..], v);
        if o.None? then None else Some((Ternary(first, t.value.0, o.value.0), o.value.1))
    else
      var n := Spans.Span(s[1..], NotSpace);
      var op := OpNamed(s[1..n + 1]);
      if op.None? || n + 2 > |s| then None
      else
        var o := ReadOperand(s[n + 2..], v);
        if o.None? then None else Some((Bin(op.value, first, o.value.0), o.value.1))
  }

  ghost function ReadOperand(s: string, v: Vocabulary): (r: Read<Expr>)
    ensures r.Some? ==> |r.value.1| < |s|
    decreases |s|, 2
  {
    if Starts(s, '(') then
      var e := ReadExpr(s[1..], v);
      if e.None? || !Starts(e.value.1, ')') then None else Some((e.value.0, e.value.1[1..]))
    else ReadAtom(s, v)
  }

  ghost function ReadAtom(s: string, v: Vocabulary): (r: Read<Expr>)
    ensures r.Some? ==> |r.value.1| < |s|
    decreases |s|, 1
  {
    if Starts(s, '"') then
      var parts := ReadParts(s[1..], v);
      if parts.None? then None else ReadTag(Quoted(parts.value.0), parts.value.1)
    else if Starts(s, '-') then
      var n := Spans.Span(s[1..], WordChar);
      Some((IntLit(0 - Decimal.Value(s[1..][..n])), s[1..][n..]))
    else
      var n := Spans.Span(s, WordChar);
      if n == 0 then None else ReadWord(s[..n], s[n..], v)
  }

  /** A string, and the tag written against it. */
  function ReadTag(e: Expr, s: string): (r: Read<Expr>)
    ensures r.Some? ==> |r.value.1| <= |s|
  {
    if Starts(s, '@') then
      var n := Spans.Span(s[1..], TagChar);
      if e.StringLit? then Some((LangStringLit(e.text, s[1..][..n]), s[1..][n..])) else None
    else Some((e, s))
  }

  /** A word, and what it is applied to. */
  ghost function ReadWord(w: string, s: string, v: Vocabulary): (r: Read<Expr>)
    requires w != ""
    ensures r.Some? ==> |r.value.1| <= |s|
    decreases |s|, 0
  {
    if Starts(s, '(') then
      var args := ReadArgs(s[1..], v);
      if args.None? then None else Some((Applied(w, args.value.0, v), args.value.1))
    else if Starts(s, '"') then
      var name := ReadName(s[1..]);
      if name.None? then None else Some((ColumnRef(w[..|w| - 1], name.value.0), name.value.1))
    else Some((Leaf(w, v), s))
  }

  ghost function ReadArgs(s: string, v: Vocabulary): (r: Read<seq<Expr>>)
    ensures r.Some? ==> |r.value.1| < |s|
    decreases |s|, 6
  {
    if Starts(s, ')') then Some(([], s[1..])) else ReadSomeArgs(s, v)
  }

  ghost function ReadSomeArgs(s: string, v: Vocabulary): (r: Read<seq<Expr>>)
    ensures r.Some? ==> |r.value.1| < |s|
    decreases |s|, 5
  {
    var e := ReadExpr(s, v);
    if e.None? then None
    else if Starts(e.value.1, ')') then Some(([e.value.0], e.value.1[1..]))
    else if !(", " <= e.value.1) then None
    else
      var more := ReadSomeArgs(e.value.1[2..], v);
      if more.None? then None else Some(([e.value.0] + more.value.0, more.value.1))
  }

  ghost function ReadParts(s: string, v: Vocabulary): (r: Read<seq<Part>>)
    ensures r.Some? ==> |r.value.1| < |s|
    decreases |s|, 0
  {
    if s == "" then None
    else if s[0] == '"' then Some(([], s[1..]))
    else if s[0] == '{' then
      var e := ReadExpr(s[1..], v);
      if e.None? || !Starts(e.value.1, '}') then None
      else
        var more := ReadParts(e.value.1[1..], v);
        if more.None? then None else Some(([Hole(e.value.0)] + more.value.0, more.value.1))
    else if s[0] == '\\' then
      if |s| < 2 then None
      else
        var n := if s[1] == '{' then 1 else 2;
        var more := ReadParts(s[n..], v);
        if more.None? then None else Some((Glue(s[..n], more.value.0), more.value.1))
    else
      var more := ReadParts(s[1..], v);
      if more.None? then None else Some((Glue([s[0]], more.value.0), more.value.1))
  }
}
