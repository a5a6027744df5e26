/** The source spelling of a lowered expression: a text appended to a buffer. */
module Display {
  import opened Common
  import opened Hir
  import Decimal

  /** What a program's names are: how a float is written, and which names are types'. */
  datatype Vocabulary = Vocabulary(float: int -> string, isType: string -> bool)

  function UnOpText(op: UnOp): string {
    match op
    case Neg => "-"
    case Not => "not"
  }

  function OpText(op: BinOp): string {
    match op
    case Eq => "=="
    case Ne => "!="
    case Lt => "<"
    case Le => "<="
    case Gt => ">"
    case Ge => ">="
    case And => "and"
    case Or => "or"
    case Add => "+"
    case Sub => "-"
    case Mul => "*"
    case Div => "/"
    case Rem => "%"
  }

  // ------------------------------------------------------------------ names

  predicate NameStart(c: char) {
    'A' <= c <= 'Z' || 'a' <= c <= 'z' || c == '_'
  }

  predicate NameChar(c: char) {
    NameStart(c) || Decimal.IsDigit(c)
  }

  const KEYWORDS: set<string> := {"from", "and", "or", "not", "true", "false", "null"}

  /** Does the lexer read it as exactly one name? */
  predicate IsBare(s: string) {
    s != "" && NameStart(s[0]) && (forall i | 0 <= i < |s| :: NameChar(s[i])) && s !in KEYWORDS
  }

  function EscapeChar(c: char): string {
    if c == '"' then "\\\""
    else if c == '\\' then "\\\\"
    else if c == '{' then "{{"
    else if c == '\n' then "\\n"
    else if c == '\t' then "\\t"
    else if c == '\r' then "\\r"
    else [c]
  }

  function Escape(s: string): string {
    if s == "" then "" else EscapeChar(s[0]) + Escape(s[1..])
  }

  /** The one spelling of a member. */
  function Spell(name: string): string {
    if IsBare(name) then name else "\"" + Escape(name) + "\""
  }

  /** A letter of ASCII or an underscore, by its code. */
  predicate CodedLetter(c: char) {
    65 <= c as int <= 90 || 97 <= c as int <= 122 || c as int == 95
  }

  predicate CodedDigit(c: char) {
    48 <= c as int <= 57
  }

  /** A bare name is a letter, then letters and digits, and no reserved word. */
  lemma {:induction false} BareNamesAreThese(s: string)
    ensures IsBare(s) <==>
            && |s| > 0 && CodedLetter(s[0]) && (forall i | 1 <= i < |s| :: CodedLetter(s[i]) || CodedDigit(s[i]))
            && s != "from" && s != "and" && s != "or" && s != "not" && s != "true" && s != "false" && s != "null"
  {
    assert forall c :: NameStart(c) <==> CodedLetter(c);
    assert forall c :: NameChar(c) <==> CodedLetter(c) || CodedDigit(c);
    hide NameStart, NameChar, CodedLetter, CodedDigit;
  }

  /** A name in quotes stays on its line. */
  lemma {:induction false} EscapedIsOneLine(s: string)
    ensures forall i | 0 <= i < |Escape(s)| :: Escape(s)[i] != '\n' && Escape(s)[i] != '\t' && Escape(s)[i] != '\r'
  {
    if s == "" {
    } else {
      EscapedIsOneLine(s[1..]);
      var head, rest := EscapeChar(s[0]), Escape(s[1..]);
      forall i | 0 <= i < |head + rest|
        ensures (head + rest)[i] != '\n' && (head + rest)[i] != '\t' && (head + rest)[i] != '\r'
      {
        assert (head + rest)[i] == if i < |head| then head[i] else rest[i - |head|];
      }
    }
  }

  // ------------------------------------------------------------------ the text of an expression

  predicate Compound(e: Expr) {
    e.Bin? || e.Unary? || e.Ternary?
  }

  function Print(e: Expr, v: Vocabulary): string
    decreases e, 1
  {
    match e
    case Interpolation(parts) => "\"" + PrintParts(parts, v) + "\""
    case NullLit => "null"
    case FieldRef(name) => name
    case ColumnRef(binding, column) => binding + "." + Spell(column)
    case StringLit(s) => "\"" + s + "\""
    case LangStringLit(value, tag) => "\"" + value + "\"@" + tag
    case Call(func, args) => func + "(" + PrintArgs(args, v) + ")"
    case Edge(target, ends) => target + "(" + PrintArgs(ends, v) + ")"
    case IntLit(n) => Decimal.IntText(n)
    case FloatLit(f) => v.float(f)
    case BoolLit(b) => if b then "true" else "false"
    case Bin(op, lhs, rhs) => Operand(lhs, v) + " " + OpText(op) + " " + Operand(rhs, v)
    case Unary(op, operand) => (if op.Not? then "not " else "-") + Operand(operand, v)
    case Ternary(cond, thn, otherwise) => Operand(cond, v) + " ? " + Operand(thn, v) + " : " + Operand(otherwise, v)
  }

  function Operand(e: Expr, v: Vocabulary): string
    decreases e, 2
  {
    if Compound(e) then "(" + Print(e, v) + ")" else Print(e, v)
  }

  function PrintArgs(args: seq<Expr>, v: Vocabulary): string
    decreases args, 0
  {
    if args == [] then ""
    else if |args| == 1 then Print(args[0], v)
    else Print(args[0], v) + ", " + PrintArgs(args[1..], v)
  }

  function PrintParts(parts: seq<Part>, v: Vocabulary): string
    decreases parts, 0
  {
    if parts == [] then "" else PrintPart(parts[0], v) + PrintParts(parts[1..], v)
  }

  function PrintPart(part: Part, v: Vocabulary): string
    decreases part, 2
  {
    match part
    case Run(t) => t
    case Hole(hole) => "{" + Print(hole, v) + "}"
  }

  // ------------------------------------------------------------------ the buffer

  /** What remains to be written of an argument list from its `i`-th argument on. */
  function ArgsFrom(args: seq<Expr>, i: nat, v: Vocabulary): string
    requires i <= |args|
  {
    (if 0 < i < |args| then ", " else "") + PrintArgs(args[i..], v)
  }

  lemma {:induction false} ArgsFromStep(args: seq<Expr>, i: nat, v: Vocabulary)
    requires i < |args|
    ensures ArgsFrom(args, i, v) == (if i > 0 then ", " else "") + Print(args[i], v) + ArgsFrom(args, i + 1, v)
  {
    assert args[i..][0] == args[i] && args[i..][1..] == args[i + 1..];
    if i + 1 == |args| {
      assert Print(args[i], v) + "" == Print(args[i], v);
    }
  }

  lemma {:induction false} ArgsFromEnds(args: seq<Expr>, v: Vocabulary)
    ensures ArgsFrom(args, 0, v) == PrintArgs(args, v) && ArgsFrom(args, |args|, v) == ""
  {
    assert args[0..] == args;
  }

  lemma {:induction false} Rejoin(before: string, a: string, b: string, c: string)
    ensures before + a + b + c == before + (a + b + c)
  {
  }

  class Writer {
    var out: string
    const v: Vocabulary

    constructor (v: Vocabulary)
      ensures this.v == v && out == ""
    {
      this.v, out := v, "";
    }

    method Push(text: string)
      modifies this
      ensures out == old(out) + text
    {
      out := out + text;
    }

    method WriteExpr(e: Expr)
      modifies this
      ensures out == old(out) + Print(e, v)
      decreases e, 1
    {
      match e {
        case Interpolation(parts) => WriteParts(e, parts);
        case NullLit => Push("null");
        case FieldRef(name) => Push(name);
        case ColumnRef(binding, column) => Push(binding + "." + Spell(column));
        case StringLit(s) => Push("\"" + s + "\"");
        case LangStringLit(value, tag) => Push("\"" + value + "\"@" + tag);
        case Call(func, args) => WriteCall(e, func, args);
        case Edge(target, ends) => WriteCall(e, target, ends);
        case IntLit(n) => Push(Decimal.IntText(n));
        case FloatLit(f) => Push(v.float(f));
        case BoolLit(b) => Push(if b then "true" else "false");
        case Bin(_, _, _) => WriteBin(e);
        case Unary(_, _) => WriteUnary(e);
        case Ternary(_, _, _) => WriteTernary(e);
      }
    }

    method WriteBin(e: Expr)
      requires e.Bin?
      modifies this
      ensures out == old(out) + Print(e, v)
      decreases e, 0
    {
      WriteOperand(e.lhs);
      ghost var l, r := Operand(e.lhs, v), Operand(e.rhs, v);
      Push(" " + OpText(e.op) + " ");
      WriteOperand(e.rhs);
      Rejoin(old(out), l, " " + OpText(e.op) + " ", r);
      assert l + (" " + OpText(e.op) + " ") + r == Print(e, v);
    }

    method WriteUnary(e: Expr)
      requires e.Unary?
      modifies this
      ensures out == old(out) + Print(e, v)
      decreases e, 0
    {
      Push(UnOpText(e.unop));
      if e.unop.Not? {
        Push(" ");
      }
      WriteOperand(e.operand);
    }

    method WriteTernary(e: Expr)
      requires e.Ternary?
      modifies this
      ensures out == old(out) + Print(e, v)
      decreases e, 0
    {
      WriteOperand(e.cond);
      Push(" ? ");
      WriteOperand(e.thn);
      ghost var c, t, o := Operand(e.cond, v), Operand(e.thn, v), Operand(e.otherwise, v);
      Rejoin(old(out), c, " ? ", t);
      Push(" : ");
      WriteOperand(e.otherwise);
      Rejoin(old(out), c + " ? " + t, " : ", o);
    }

    method WriteOperand(e: Expr)
      modifies this
      ensures out == old(out) + Operand(e, v)
      decreases e, 2
    {
      if Compound(e) {
        Push("(");
      }
      WriteExpr(e);
      if Compound(e) {
        Push(")");
      }
    }

    method WriteParts(ghost e: Expr, parts: seq<Part>)
      requires e == Interpolation(parts)
      modifies this
      ensures out == old(out) + ("\"" + PrintParts(parts, v) + "\"")
      decreases e, 0
    {
      Push("\"");
      ghost var start := out;
      for i := 0 to |parts|
        invariant out + PrintParts(parts[i..], v) == start + PrintParts(parts, v)
      {
        assert parts[i..][0] == parts[i] && parts[i..][1..] == parts[i + 1..];
        ghost var before := out;
        WritePart(e, parts[i]);
        assert before + (PrintPart(parts[i], v) + PrintParts(parts[i + 1..], v)) == out + PrintParts(parts[i + 1..], v);
      }
      assert out + PrintParts(parts[|parts|..], v) == out;
      Push("\"");
      Rejoin(old(out), "\"", PrintParts(parts, v), "\"");
    }

    method WritePart(ghost e: Expr, part: Part)
      requires e.Interpolation? && part in e.parts
      modifies this
      ensures out == old(out) + PrintPart(part, v)
      decreases e, 0, 0
    {
      match part {
        case Run(t) => Push(t);
        case Hole(hole) =>
          Push("{");
          WriteExpr(hole);
          Push("}");
          Rejoin(old(out), "{", Print(hole, v), "}");
      }
    }

    method WriteCall(ghost e: Expr, callee: string, args: seq<Expr>)
      requires (e.Call? && e.args == args) || (e.Edge? && e.ends == args)
      modifies this
      ensures out == old(out) + (callee + "(" + PrintArgs(args, v) + ")")
      decreases e, 0
    {
      Push(callee);
      Push("(");
      WriteArgs(e, args);
      Rejoin(old(out), callee, "(", PrintArgs(args, v));
      Push(")");
      assert old(out) + (callee + "(" + PrintArgs(args, v)) + ")"
          == old(out) + (callee + "(" + PrintArgs(args, v) + ")");
    }

    method WriteArgs(ghost e: Expr, args: seq<Expr>)
      requires (e.Call? && e.args == args) || (e.Edge? && e.ends == args)
      modifies this
      ensures out == old(out) + PrintArgs(args, v)
      decreases e, 0, 0
    {
      hide Print, PrintArgs, ArgsFrom;
      ghost var start := out;
      ArgsFromEnds(args, v);
      for i := 0 to |args|
        invariant out + ArgsFrom(args, i, v) == start + PrintArgs(args, v)
      {
        ArgsFromStep(args, i, v);
        ghost var before := out;
        if i > 0 {
          Push(", ");
        }
        WriteExpr(args[i]);
        Rejoin(before, if i > 0 then ", " else "", Print(args[i], v), ArgsFrom(args, i + 1, v));
      }
    }
  }

  /** `expr_text`. */
  method ExprText(e: Expr, v: Vocabulary) returns (text: string)
    ensures text == Print(e, v)
  {
    var w := new Writer(v);
    w.WriteExpr(e);
    text := w.out;
  }
}
