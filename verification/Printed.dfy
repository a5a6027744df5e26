/** Different trees print differently, up to what a text says: the reader undoes the printer. */
module Printed {
  import opened Common
  import opened Hir
  import opened Display
  import opened Reading
  import Decimal
  import Spans

  /** What may follow a whole expression. */
  predicate Stop(rest: string) {
    rest == "" || rest[0] == ')' || rest[0] == ',' || rest[0] == '}'
  }

  /** What may follow an operand. */
  predicate SoftStop(rest: string) {
    Stop(rest) || rest[0] == ' '
  }

  // ------------------------------------------------------------------ words

  lemma {:induction false} WordReads(w: string, rest: string, v: Vocabulary)
    requires IsWord(w) && w[0] != '-' && (rest != "" ==> !WordChar(rest[0]))
    ensures ReadAtom(w + rest, v) == ReadWord(w, rest, v)
  {
    Spans.SpanOf(w, rest, WordChar);
    assert (w + rest)[0] == w[0] && WordChar(w[0]);
  }

  /** Only the operator `not` begins as it does. */
  lemma {:induction false} OnlyNotStartsAsNot(w: string, rest: string)
    requires IsWord(w) && (rest != "" ==> !WordChar(rest[0]))
    ensures "not " <= w + rest ==> w == "not" && Starts(rest, ' ')
  {
    var s := w + rest;
    assert rest != "" ==> s[|w|] == rest[0];
    if "not " <= s {
      assert s[..4] == "not ";
      assert s[0] == 'n' && s[1] == 'o' && s[2] == 't' && s[3] == ' ';
      assert |w| == 3;
      assert w == s[..3];
    }
  }

  lemma {:induction false} NumeralReads(n: nat, rest: string, v: Vocabulary)
    requires SoftStop(rest)
    ensures ReadAtom(Decimal.Text(n) + rest, v) == Some((IntLit(n), rest))
    ensures ReadAtom("-" + Decimal.Text(n) + rest, v) == Some((IntLit(0 - n), rest))
  {
    hide ReadExpr, ReadParts, ReadArgs, ReadTail, ReadOperand, IsDecimal;
    var w := Decimal.Text(n);
    Decimal.TextReadsBack(n);
    assert IsWord(w);
    WordReads(w, rest, v);
    Spans.SpanOf(w, rest, WordChar);
    assert ("-" + w + rest)[1..] == w + rest;
  }

  lemma {:induction false} EscapeReads(name: string, rest: string)
    ensures ReadName(Escape(name) + "\"" + rest) == Some((name, rest))
  {
    var s := Escape(name) + "\"" + rest;
    if name == "" {
      assert s == "\"" + rest;
    } else {
      EscapeReads(name[1..], rest);
      var more := Escape(name[1..]) + "\"" + rest;
      assert s == EscapeChar(name[0]) + more;
      EscapedReads(name[0], more);
      assert [name[0]] + name[1..] == name;
    }
  }

  lemma {:induction false} EscapedReads(c: char, more: string)
    requires ReadName(more).Some?
    ensures ReadName(EscapeChar(c) + more) == Some(([c] + ReadName(more).value.0, ReadName(more).value.1))
  {
    assert (EscapeChar(c) + more)[|EscapeChar(c)|..] == more;
  }

  lemma {:induction false} BareColumnReads(binding: string, column: string, rest: string, v: Vocabulary)
    requires IsBare(binding) && IsBare(column) && SoftStop(rest)
    ensures ReadAtom(binding + "." + column + rest, v) == Some((ColumnRef(binding, column), rest))
  {
    var w := binding + "." + column;
    WordReads(w, rest, v);
    DottedLeaf(binding, column, v);
  }

  lemma {:induction false} DottedLeaf(binding: string, column: string, v: Vocabulary)
    requires IsBare(binding)
    ensures Leaf(binding + "." + column, v) == ColumnRef(binding, column)
  {
    var w := binding + "." + column;
    assert w == binding + ("." + column);
    Spans.SpanOf(binding, "." + column, NameChar);
    assert w[|binding|] == '.' && w[0] == binding[0] && w[|binding| + 1..] == column;
  }

  lemma {:induction false} QuotedColumnReads(binding: string, column: string, rest: string, v: Vocabulary)
    requires IsBare(binding) && SoftStop(rest)
    ensures ReadAtom(binding + "." + ("\"" + Escape(column) + "\"") + rest, v)
        == Some((ColumnRef(binding, column), rest))
  {
    hide ReadExpr, ReadParts, ReadOperand, ReadTail, ReadArgs, ReadAtom, ReadName, Escape, Leaf;
    var w := binding + ".";
    var tail := "\"" + Escape(column) + "\"" + rest;
    assert w + ("\"" + Escape(column) + "\"") + rest == w + tail;
    WordReads(w, tail, v);
    assert tail[1..] == Escape(column) + "\"" + rest;
    EscapeReads(column, rest);
    assert w[..|w| - 1] == binding;
  }

  lemma {:induction false} NameReads(name: string, rest: string, v: Vocabulary)
    requires IsBare(name) && SoftStop(rest)
    ensures ReadAtom(name + rest, v) == Some((FieldRef(name), rest))
  {
    WordReads(name, rest, v);
    Spans.SpanOf(name, "", NameChar);
    assert name + "" == name;
  }

  lemma {:induction false} KeywordReads(w: string, rest: string, v: Vocabulary)
    requires w == "null" || w == "true" || w == "false"
    requires SoftStop(rest)
    ensures ReadAtom(w + rest, v) == Some((if w == "null" then NullLit else BoolLit(w == "true"), rest))
  {
    WordReads(w, rest, v);
  }

  lemma {:induction false} DecimalIsAWord(s: string, rest: string)
    requires IsDecimal(s) && SoftStop(rest)
    ensures IsWord(s) && s[0] != '-' && !Decimal.AllDigits(s) && Decimal.IsDigit(s[0])
  {
    var n := Spans.Span(s, Decimal.IsDigit);
    forall i | 0 <= i < |s|
      ensures WordChar(s[i])
    {
      assert i > n ==> Decimal.IsDigit(s[n + 1..][i - n - 1]);
    }
  }

  lemma {:induction false} FloatReads(f: int, rest: string, v: Vocabulary)
    requires WellNamed(FloatLit(f), v) && SoftStop(rest)
    ensures ReadAtom(v.float(f) + rest, v) == Some((SaidFloat(f, v), rest))
  {
    hide IsDecimal, ReadAtom;
    var s := v.float(f);
    if IsNumeral(s) {
      NumeralReads(Decimal.Value(s), rest, v);
    } else if IsBare(s) {
      NameReads(s, rest, v);
    } else {
      DecimalIsAWord(s, rest);
      WordReads(s, rest, v);
    }
  }

  // ------------------------------------------------------------------ texts

  lemma {:induction false} GlueJoins(c: string, t: string, parts: seq<Part>)
    ensures Glue(c, Glue(t, parts)) == Glue(c + t, parts)
  {
    var glued := Glue(t, parts);
    if t == "" {
      assert c + t == c;
    } else if c == "" {
      assert c + t == t;
    } else if parts != [] && parts[0].Run? {
      assert glued[1..] == parts[1..];
      assert c + (t + parts[0].text) == c + t + parts[0].text;
    } else {
      assert glued[1..] == parts;
    }
  }

  /** How much of a plain text is read at once: an escape whole. */
  function Unit(t: string): nat {
    if Starts(t, '\\') && |t| > 1 then 2 else 1
  }

  lemma {:induction false} UnitReads(t: string, rest: string, v: Vocabulary)
    requires Plain(t) && t != "" && (Open(t) ==> Starts(rest, '{'))
    ensures var n := Unit(t); n <= |t| && Plain(t[n..]) && (Open(t[n..]) ==> Open(t))
    ensures var n := Unit(t);
            ReadParts(t + rest, v)
            == (var more := ReadParts(t[n..] + rest, v);
                if more.None? then None else Some((Glue(t[..n], more.value.0), more.value.1)))
  {
    hide ReadExpr, Glue;
    var s := t + rest;
    assert s[0] == t[0];
    if Starts(t, '\\') && |t| > 1 {
      assert s[1] == t[1] && s[2..] == t[2..] + rest && s[..2] == t[..2];
    } else if Starts(t, '\\') {
      assert t[1..] == "" && s[1..] == t[1..] + rest && s[..1] == t[..1];
      assert s[1] == '{';
    } else {
      assert s[1..] == t[1..] + rest && [s[0]] == t[..1];
    }
  }

  /** A run is read into the front of whatever follows it. */
  lemma {:induction false} RunReads(t: string, rest: string, v: Vocabulary)
    requires Plain(t) && (Open(t) ==> Starts(rest, '{'))
    ensures ReadParts(rest, v).None? ==> ReadParts(t + rest, v).None?
    ensures ReadParts(rest, v).Some? ==>
              ReadParts(t + rest, v) == Some((Glue(t, ReadParts(rest, v).value.0), ReadParts(rest, v).value.1))
  {
    hide ReadParts, Plain;
    if t == "" {
      assert t + rest == rest;
    } else {
      var n := Unit(t);
      UnitReads(t, rest, v);
      RunReads(t[n..], rest, v);
      assert t[..n] + t[n..] == t;
      if ReadParts(rest, v).Some? {
        GlueJoins(t[..n], t[n..], ReadParts(rest, v).value.0);
      }
    }
  }

  lemma {:induction false} StringReads(t: string, rest: string, v: Vocabulary)
    requires Plain(t) && !Open(t) && SoftStop(rest)
    ensures ReadAtom("\"" + t + "\"" + rest, v) == Some((StringLit(t), rest))
  {
    hide ReadParts, Glue, Plain;
    TextReads(t, rest, v);
    var s := "\"" + t + "\"" + rest;
    assert s[1..] == t + ("\"" + rest);
  }

  lemma {:induction false} TaggedReads(t: string, tag: string, rest: string, v: Vocabulary)
    requires Plain(t) && !Open(t) && IsTag(tag) && SoftStop(rest)
    ensures ReadAtom("\"" + t + "\"@" + tag + rest, v) == Some((LangStringLit(t, tag), rest))
  {
    hide ReadParts, Glue, Plain;
    var after := "@" + tag + rest;
    TextReads(t, after, v);
    var s := "\"" + t + "\"@" + tag + rest;
    assert s[1..] == t + ("\"" + after);
    assert after[1..] == tag + rest;
    Spans.SpanOf(tag, rest, TagChar);
    assert ReadTag(StringLit(t), after) == Some((LangStringLit(t, tag), rest));
  }

  lemma {:induction false} TextReads(t: string, rest: string, v: Vocabulary)
    requires Plain(t) && !Open(t)
    ensures ReadParts(t + ("\"" + rest), v).Some?
    ensures var r := ReadParts(t + ("\"" + rest), v).value; Quoted(r.0) == StringLit(t) && r.1 == rest
  {
    hide Plain;
    assert ReadParts("\"" + rest, v) == Some(([], rest));
    RunReads(t, "\"" + rest, v);
  }

  // ------------------------------------------------------------------ operators

  /** Each operator's text is a token of its own, with the first or the last character none other of its length has. */
  lemma {:induction false} OpIsNamed(op: BinOp)
    ensures OpNamed(OpText(op)) == Some(op)
  {
    var t := OpText(op);
    match op {
      case Eq => assert t[0] == '=';
      case Ne => assert t[0] == '!';
      case Lt => assert |t| == 1;
      case Le => assert t[0] == '<';
      case Gt => assert t[0] == '>';
      case Ge => assert t[0] == '>';
      case And => assert |t| == 3;
      case Or => assert t[0] == 'o';
      case Add => assert t[0] == '+';
      case Sub => assert t[0] == '-';
      case Mul => assert t[0] == '*';
      case Div => assert t[0] == '/';
      case Rem => assert t[0] == '%';
    }
  }

  lemma {:induction false} OpSpans(op: BinOp, s: string)
    ensures var text := " " + OpText(op) + " " + s;
            && !(" ? " <= text) && Spans.Span(text[1..], NotSpace) == |OpText(op)|
            && text[1..|OpText(op)| + 1] == OpText(op) && text[|OpText(op)| + 2..] == s
  {
    var text := " " + OpText(op) + " " + s;
    assert text[1] == OpText(op)[0];
    assert text[1..] == OpText(op) + (" " + s);
    Spans.SpanOf(OpText(op), " " + s, NotSpace);
  }

  lemma {:induction false} OpReads(first: Expr, op: BinOp, s: string, v: Vocabulary)
    ensures ReadTail(first, " " + OpText(op) + " " + s, v)
            == (var o := ReadOperand(s, v);
                if o.None? then None else Some((Bin(op, first, o.value.0), o.value.1)))
  {
    OpSpans(op, s);
    OpIsNamed(op);
  }

  lemma {:induction false} ConditionalReads(first: Expr, s: string, v: Vocabulary)
    ensures ReadTail(first, " ? " + s, v)
            == (var t := ReadOperand(s, v);
                if t.None? || !(" : " <= t.value.1) then None
                else
                  var o := ReadOperand(t.value.1[3..], v);
                  if o.None? then None else Some((Ternary(first, t.value.0, o.value.0), o.value.1)))
  {
    assert (" ? " + s)[3..] == s;
  }

  // ------------------------------------------------------------------ the reader undoes the printer

  lemma {:induction false} NothingReadsAtAStop(s: string, v: Vocabulary)
    requires Starts(s, ')')
    ensures ReadExpr(s, v).None?
  {
    assert ReadAtom(s, v).None?;
  }

  lemma {:induction false} WordBegins(w: string, rest: string)
    requires IsWord(w) && (rest != "" ==> !WordChar(rest[0])) && (w == "not" ==> !Starts(rest, ' '))
    ensures !Starts(w + rest, '-') && !Starts(w + rest, '(') && !("not " <= w + rest)
  {
    OnlyNotStartsAsNot(w, rest);
    assert (w + rest)[0] == w[0] && WordChar(w[0]);
  }

  lemma {:induction false} ColumnBegins(binding: string, column: string, rest: string)
    requires IsBare(binding) && SoftStop(rest)
    ensures var s := binding + "." + Spell(column) + rest; !Starts(s, '-') && !Starts(s, '(') && !("not " <= s)
  {
    hide Escape;
    if IsBare(column) {
      DottedBegins(binding, column, rest);
    } else {
      var quoted := "\"" + Escape(column) + "\"" + rest;
      DottedBegins(binding, "", quoted);
      assert binding + "." + Spell(column) + rest == binding + "." + "" + quoted;
    }
  }

  lemma {:induction false} DottedBegins(binding: string, column: string, rest: string)
    requires IsBare(binding) && (column == "" || IsBare(column)) && (rest != "" ==> !WordChar(rest[0]))
    ensures var s := binding + "." + column + rest; !Starts(s, '-') && !Starts(s, '(') && !("not " <= s)
  {
    var w := binding + "." + column;
    assert w[|binding|] == '.';
    WordBegins(w, rest);
  }

  lemma {:induction false} CallBegins(callee: string, args: string, rest: string)
    requires IsWord(callee)
    ensures var s := callee + "(" + args + ")" + rest; !Starts(s, '-') && !Starts(s, '(') && !("not " <= s)
  {
    var tail := "(" + args + ")" + rest;
    WordBegins(callee, tail);
    assert callee + "(" + args + ")" + rest == callee + tail;
  }

  lemma {:induction false} FloatBegins(s: string, rest: string)
    requires (IsNumeral(s) || IsDecimal(s) || IsBare(s)) && SoftStop(rest)
    ensures !Starts(s + rest, '-') && !Starts(s + rest, '(') && !("not " <= s + rest)
  {
    if IsNumeral(s) {
      Decimal.TextReadsBack(Decimal.Value(s));
    } else if IsDecimal(s) {
      DecimalIsAWord(s, rest);
    }
    WordBegins(s, rest);
  }

  /** How an operand that is not compound begins. */
  lemma {:induction false} AtomBegins(e: Expr, rest: string, v: Vocabulary)
    requires WellNamed(e, v) && !Compound(e) && SoftStop(rest) && !(e.IntLit? && e.n < 0)
    ensures var s := Print(e, v) + rest; !Starts(s, '-') && !Starts(s, '(') && !("not " <= s)
  {
    match e {
      case FieldRef(name) => WordBegins(name, rest);
      case ColumnRef(binding, column) => ColumnBegins(binding, column, rest);
      case Call(func, args) => CallBegins(func, PrintArgs(args, v), rest);
      case Edge(target, ends) => CallBegins(target, PrintArgs(ends, v), rest);
      case IntLit(n) =>
        Decimal.TextReadsBack(n);
        assert Decimal.IsDigit(Decimal.Text(n)[0]);
        WordBegins(Decimal.Text(n), rest);
      case FloatLit(f) => FloatBegins(v.float(f), rest);
      case NullLit => WordBegins("null", rest);
      case BoolLit(b) => WordBegins(if b then "true" else "false", rest);
      case _ =>
    }
  }

  // What an expression's first characters decide.

  lemma {:induction false} FirstDecides(s: string, e: Expr, rest: string, v: Vocabulary)
    requires ReadOperand(s, v) == Some((e, rest)) && !Starts(s, '-') && !("not " <= s)
    ensures ReadExpr(s, v) == ReadTail(e, rest, v)
  {
  }

  lemma {:induction false} NotDecides(s: string, e: Expr, rest: string, v: Vocabulary)
    requires ReadOperand(s, v) == Some((e, rest))
    ensures ReadExpr("not " + s, v) == Some((Unary(Not, e), rest))
  {
    assert ("not " + s)[4..] == s;
  }

  lemma {:induction false} MinusDecides(s: string, e: Expr, rest: string, v: Vocabulary)
    requires ReadOperand(s, v) == Some((e, rest))
    ensures ReadExpr("-" + s, v)
            == if e.IntLit? && Starts(rest, ' ') then ReadTail(IntLit(-e.n), rest, v) else Some((Unary(Neg, e), rest))
  {
    assert ("-" + s)[1..] == s;
  }

  /** A first operand is read, and then what follows it. */
  lemma {:induction false} FirstReads(e: Expr, rest: string, v: Vocabulary)
    requires WellNamed(e, v) && SoftStop(rest) && (e.IntLit? && e.n < 0 ==> Starts(rest, ' '))
    ensures ReadExpr(Operand(e, v) + rest, v) == ReadTail(Inner(e, v), rest, v)
    decreases e, if Compound(e) then 10 else 7
  {
    if e.IntLit? && e.n < 0 {
      NegativeFirstReads(e.n, rest, v);
    } else {
      OperandReads(e, rest, v);
      OperandBegins(e, rest, v);
      FirstDecides(Operand(e, v) + rest, Inner(e, v), rest, v);
    }
  }

  lemma {:induction false} MagnitudeReads(n: nat, rest: string, v: Vocabulary)
    requires SoftStop(rest)
    ensures ReadOperand(Decimal.Text(n) + rest, v) == Some((IntLit(n), rest))
  {
    NumeralReads(n, rest, v);
    DigitsBegin(n, rest);
  }

  lemma {:induction false} NegativeFirstReads(n: int, rest: string, v: Vocabulary)
    requires n < 0 && Starts(rest, ' ')
    ensures ReadExpr(Decimal.IntText(n) + rest, v) == ReadTail(IntLit(n), rest, v)
  {
    hide ReadExpr, ReadOperand, ReadTail, ReadAtom, ReadParts, ReadArgs, Decimal.Text;
    var s := Decimal.Text(-n) + rest;
    MagnitudeReads(-n, rest, v);
    MinusDecides(s, IntLit(-n), rest, v);
    assert Decimal.IntText(n) + rest == "-" + s;
  }

  lemma {:induction false} OperandBegins(e: Expr, rest: string, v: Vocabulary)
    requires WellNamed(e, v) && SoftStop(rest) && !(e.IntLit? && e.n < 0)
    ensures !Starts(Operand(e, v) + rest, '-') && !("not " <= Operand(e, v) + rest)
  {
    if Compound(e) {
      assert (Operand(e, v) + rest)[0] == '(';
    } else {
      AtomBegins(e, rest, v);
    }
  }

  lemma {:induction false} DigitsBegin(n: nat, rest: string)
    ensures !Starts(Decimal.Text(n) + rest, '(')
  {
    Decimal.TextReadsBack(n);
    assert Decimal.IsDigit((Decimal.Text(n) + rest)[0]);
  }

  lemma {:induction false} ExprReads(e: Expr, rest: string, v: Vocabulary)
    requires WellNamed(e, v) && Stop(rest)
    ensures ReadExpr(Print(e, v) + rest, v) == Some((Canon(e, v), rest))
    decreases e, 8
  {
    if e.Bin? {
      BinReads(e, rest, v);
    } else if e.Ternary? {
      TernaryReads(e, rest, v);
    } else if e.Unary? {
      UnaryReads(e, rest, v);
    } else if e.IntLit? && e.n < 0 {
      NegativeReads(e.n, rest, v);
    } else {
      FirstReads(e, rest, v);
    }
  }

  lemma {:induction false} NegativeReads(n: int, rest: string, v: Vocabulary)
    requires n < 0 && Stop(rest)
    ensures ReadExpr(Decimal.IntText(n) + rest, v) == Some((Unary(Neg, IntLit(-n)), rest))
  {
    hide ReadExpr, ReadOperand, ReadTail, ReadAtom, ReadParts, ReadArgs, Decimal.Text;
    var s := Decimal.Text(-n) + rest;
    MagnitudeReads(-n, rest, v);
    MinusDecides(s, IntLit(-n), rest, v);
    assert Decimal.IntText(n) + rest == "-" + s;
  }

  lemma {:induction false} UnaryReads(e: Expr, rest: string, v: Vocabulary)
    requires e.Unary? && WellNamed(e, v) && Stop(rest)
    ensures ReadExpr(Print(e, v) + rest, v) == Some((Canon(e, v), rest))
    decreases e, 0
  {
    OperandReads(e.operand, rest, v);
    UnaryText(e, rest, v);
    SignedReads(e.unop, Operand(e.operand, v) + rest, Inner(e.operand, v), rest, v);
  }

  lemma {:induction false} UnaryText(e: Expr, rest: string, v: Vocabulary)
    requires e.Unary?
    ensures Print(e, v) + rest == (if e.unop.Not? then "not " else "-") + (Operand(e.operand, v) + rest)
  {
  }

  lemma {:induction false} SignedReads(op: UnOp, s: string, e: Expr, rest: string, v: Vocabulary)
    requires ReadOperand(s, v) == Some((e, rest)) && Stop(rest)
    ensures ReadExpr((if op.Not? then "not " else "-") + s, v) == Some((Unary(op, e), rest))
  {
    if op.Not? {
      NotDecides(s, e, rest, v);
    } else {
      MinusDecides(s, e, rest, v);
    }
  }

  lemma {:induction false} BinReads(e: Expr, rest: string, v: Vocabulary)
    requires e.Bin? && WellNamed(e, v) && Stop(rest)
    ensures ReadExpr(Print(e, v) + rest, v) == Some((Canon(e, v), rest))
    decreases e, 0
  {
    hide Operand, ReadExpr, ReadAtom, ReadOperand, ReadParts, ReadTail;
    var tail := " " + OpText(e.op) + " " + (Operand(e.rhs, v) + rest);
    assert Print(e, v) + rest == Operand(e.lhs, v) + tail;
    FirstReads(e.lhs, tail, v);
    OpReads(Inner(e.lhs, v), e.op, Operand(e.rhs, v) + rest, v);
    OperandReads(e.rhs, rest, v);
  }

  lemma {:induction false} TernarySplits(c: string, t: string, o: string, rest: string)
    ensures c + " ? " + t + " : " + o + rest == c + (" ? " + (t + (" : " + (o + rest))))
  {
  }

  lemma {:induction false} TernaryReads(e: Expr, rest: string, v: Vocabulary)
    requires e.Ternary? && WellNamed(e, v) && Stop(rest)
    ensures ReadExpr(Print(e, v) + rest, v) == Some((Canon(e, v), rest))
    decreases e, 0
  {
    hide Operand, ReadExpr, ReadParts, ReadArgs, ReadAtom, ReadOperand;
    var last := Operand(e.otherwise, v) + rest;
    var middle := Operand(e.thn, v) + (" : " + last);
    TernarySplits(Operand(e.cond, v), Operand(e.thn, v), Operand(e.otherwise, v), rest);
    FirstReads(e.cond, " ? " + middle, v);
    ConditionalReads(Inner(e.cond, v), middle, v);
    OperandReads(e.thn, " : " + last, v);
    assert (" : " + last)[3..] == last;
    OperandReads(e.otherwise, rest, v);
  }

  lemma {:induction false} OperandReads(e: Expr, rest: string, v: Vocabulary)
    requires WellNamed(e, v) && SoftStop(rest)
    ensures ReadOperand(Operand(e, v) + rest, v) == Some((Inner(e, v), rest))
    decreases e, if Compound(e) then 9 else 6
  {
    hide ReadAtom, ReadExpr, ReadParts, ReadTail;
    var s := Operand(e, v) + rest;
    if Compound(e) {
      assert s[1..] == Print(e, v) + (")" + rest);
      ExprReads(e, ")" + rest, v);
    } else {
      AtomReads(e, rest, v);
      if e.IntLit? && e.n < 0 {
        assert s[0] == '-';
      } else {
        AtomBegins(e, rest, v);
      }
    }
  }

  lemma {:induction false} AtomReads(e: Expr, rest: string, v: Vocabulary)
    requires WellNamed(e, v) && !Compound(e) && SoftStop(rest)
    ensures ReadAtom(Print(e, v) + rest, v) == Some((Inner(e, v), rest))
    decreases e, 3
  {
    hide ReadAtom, ReadParts, ReadExpr, ReadTail, ReadOperand, ReadWord, ReadArgs, ReadSomeArgs, SaidFloat;
    match e {
      case Interpolation(parts) => InterpolationReads(e, rest, v);
      case NullLit => KeywordReads("null", rest, v);
      case FieldRef(name) => NameReads(name, rest, v);
      case ColumnRef(binding, column) =>
        if IsBare(column) {
          BareColumnReads(binding, column, rest, v);
        } else {
          QuotedColumnReads(binding, column, rest, v);
        }
      case StringLit(s) => StringReads(s, rest, v);
      case LangStringLit(s, tag) => TaggedReads(s, tag, rest, v);
      case Call(func, args) => CallReads(e, func, args, rest, v);
      case Edge(target, ends) => CallReads(e, target, ends, rest, v);
      case IntLit(n) =>
        NumeralReads(if n < 0 then -n else n, rest, v);
      case FloatLit(f) => FloatReads(f, rest, v);
      case BoolLit(b) => KeywordReads(if b then "true" else "false", rest, v);
    }
  }

  lemma {:induction false} CallReads(e: Expr, callee: string, args: seq<Expr>, rest: string, v: Vocabulary)
    requires e == Call(callee, args) || e == Edge(callee, args)
    requires WellNamed(e, v) && SoftStop(rest)
    ensures ReadAtom(Print(e, v) + rest, v) == Some((Inner(e, v), rest))
    decreases e, 2
  {
    hide ReadExpr, ReadOperand, ReadTail, ReadAtom, ReadParts, ReadArgs;
    var tail := "(" + (PrintArgs(args, v) + (")" + rest));
    assert Print(e, v) + rest == callee + tail;
    WordReads(callee, tail, v);
    assert tail[1..] == PrintArgs(args, v) + (")" + rest);
    ArgsRead(args, rest, v);
  }

  lemma {:induction false} ArgsRead(args: seq<Expr>, rest: string, v: Vocabulary)
    requires forall a | a in args :: WellNamed(a, v)
    ensures ReadArgs(PrintArgs(args, v) + (")" + rest), v) == Some((CanonAll(args, v), rest))
    decreases args, 1
  {
    var s := PrintArgs(args, v) + (")" + rest);
    if args == [] {
      assert s == ")" + rest;
    } else {
      SomeArgsRead(args, rest, v);
      if Starts(s, ')') {
        NothingReadsAtAStop(s, v);
        assert false;
      }
    }
  }

  lemma {:induction false} SomeArgsRead(args: seq<Expr>, rest: string, v: Vocabulary)
    requires args != [] && forall a | a in args :: WellNamed(a, v)
    ensures ReadSomeArgs(PrintArgs(args, v) + (")" + rest), v) == Some((CanonAll(args, v), rest))
    decreases args, 0
  {
    if |args| == 1 {
      ExprReads(args[0], ")" + rest, v);
      assert CanonAll(args, v) == [Canon(args[0], v)];
    } else {
      var more := PrintArgs(args[1..], v) + (")" + rest);
      assert PrintArgs(args, v) + (")" + rest) == Print(args[0], v) + (", " + more);
      ExprReads(args[0], ", " + more, v);
      assert (", " + more)[2..] == more;
      SomeArgsRead(args[1..], rest, v);
    }
  }

  lemma {:induction false} InterpolationReads(e: Expr, rest: string, v: Vocabulary)
    requires e.Interpolation? && WellNamed(e, v) && SoftStop(rest)
    ensures ReadAtom(Print(e, v) + rest, v) == Some((Inner(e, v), rest))
    decreases e, 2
  {
    var s := Print(e, v) + rest;
    assert s[1..] == PrintParts(e.parts, v) + ("\"" + rest);
    PartsRead(e.parts, rest, v);
  }

  lemma {:induction false} PartsRead(parts: seq<Part>, rest: string, v: Vocabulary)
    requires Closes(parts) && forall p | p in parts :: WellNamedPart(p, v)
    ensures ReadParts(PrintParts(parts, v) + ("\"" + rest), v) == Some((InnerParts(parts, v), rest))
    decreases parts, 0
  {
    if parts == [] {
      assert PrintParts(parts, v) + ("\"" + rest) == "\"" + rest;
    } else {
      var more := PrintParts(parts[1..], v) + ("\"" + rest);
      RestCloses(parts, v);
      PartsRead(parts[1..], rest, v);
      assert PrintParts(parts, v) + ("\"" + rest) == PrintPart(parts[0], v) + more;
      PartReads(parts[0], more, InnerParts(parts[1..], v), rest, v);
    }
  }

  lemma {:induction false} RestCloses(parts: seq<Part>, v: Vocabulary)
    requires Closes(parts) && parts != []
    ensures Closes(parts[1..])
    ensures parts[0].Run? && Open(parts[0].text) ==> Starts(PrintParts(parts[1..], v), '{')
  {
    var rest := parts[1..];
    forall i | 0 <= i < |rest| && rest[i].Run? && Open(rest[i].text)
      ensures i + 1 < |rest| && rest[i + 1].Hole?
    {
      assert parts[i + 1] == rest[i];
    }
    if parts[0].Run? && Open(parts[0].text) {
      assert rest[0] == parts[1];
    }
  }

  lemma {:induction false} PartReads(part: Part, more: string, read: seq<Part>, rest: string, v: Vocabulary)
    requires WellNamedPart(part, v) && ReadParts(more, v) == Some((read, rest))
    requires part.Run? && Open(part.text) ==> Starts(more, '{')
    ensures ReadParts(PrintPart(part, v) + more, v) == Some((JoinPart(part, read, v), rest))
    decreases part, 0
  {
    match part {
      case Run(t) => RunReads(t, more, v);
      case Hole(hole) =>
        var s := "{" + Print(hole, v) + "}" + more;
        assert s[1..] == Print(hole, v) + ("}" + more);
        ExprReads(hole, "}" + more, v);
    }
  }
}
