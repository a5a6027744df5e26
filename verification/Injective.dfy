/** The claim of the printer: trees that differ print differently. Of well-named trees, exactly when they do is
    settled; of the others, two ways it fails are given. */
module Injective {
  import opened Common
  import opened Hir
  import opened Display
  import opened Reading
  import Decimal
  import Printed

  // ------------------------------------------------------------------ what is said again is said the same

  lemma {:induction false} GluePrints(t: string, parts: seq<Part>, v: Vocabulary)
    ensures PrintParts(Glue(t, parts), v) == t + PrintParts(parts, v)
  {
    var glued := Glue(t, parts);
    if t != "" && parts != [] && parts[0].Run? {
      assert glued[1..] == parts[1..];
    } else if t != "" {
      assert glued[1..] == parts;
    }
  }

  lemma {:induction false} QuotedPrints(parts: seq<Part>, v: Vocabulary)
    ensures Print(Quoted(parts), v) == "\"" + PrintParts(parts, v) + "\"" && !Compound(Quoted(parts))
  {
    if |parts| == 1 && parts[0].Run? {
      assert parts[1..] == [];
    }
  }

  lemma {:induction false} CanonPrints(e: Expr, v: Vocabulary)
    ensures Print(Canon(e, v), v) == Print(e, v)
    decreases e, 2
  {
    hide SaidFloat;
    if e.IntLit? && e.n < 0 {
      assert Operand(IntLit(-e.n), v) == Decimal.Text(-e.n);
    } else {
      InnerPrints(e, v);
    }
  }

  lemma {:induction false} InnerPrints(e: Expr, v: Vocabulary)
    ensures Print(Inner(e, v), v) == Print(e, v) && Operand(Inner(e, v), v) == Operand(e, v)
    decreases e, 1
  {
    match e {
      case Interpolation(parts) =>
        InnerPartsPrint(parts, v);
        QuotedPrints(InnerParts(parts, v), v);
      case Call(_, args) => CanonAllPrints(args, v);
      case Edge(_, ends) => CanonAllPrints(ends, v);
      case Bin(_, l, r) =>
        InnerPrints(l, v);
        InnerPrints(r, v);
      case Unary(_, o) => InnerPrints(o, v);
      case Ternary(c, t, o) =>
        InnerPrints(c, v);
        InnerPrints(t, v);
        InnerPrints(o, v);
      case FloatLit(f) => FloatPrints(f, v);
      case _ =>
    }
  }

  lemma {:induction false} FloatPrints(f: int, v: Vocabulary)
    ensures Print(SaidFloat(f, v), v) == v.float(f) && !Compound(SaidFloat(f, v))
  {
  }

  lemma {:induction false} CanonAllPrints(es: seq<Expr>, v: Vocabulary)
    ensures |CanonAll(es, v)| == |es| && PrintArgs(CanonAll(es, v), v) == PrintArgs(es, v)
    decreases es, 0
  {
    if es == [] {
    } else {
      CanonPrints(es[0], v);
      CanonAllPrints(es[1..], v);
      assert CanonAll(es, v)[1..] == CanonAll(es[1..], v);
    }
  }

  lemma {:induction false} InnerPartsPrint(parts: seq<Part>, v: Vocabulary)
    ensures PrintParts(InnerParts(parts, v), v) == PrintParts(parts, v)
    decreases parts, 0
  {
    if parts == [] {
    } else {
      InnerPartsPrint(parts[1..], v);
      PartPrints(parts[0], InnerParts(parts[1..], v), v);
    }
  }

  lemma {:induction false} PartPrints(part: Part, rest: seq<Part>, v: Vocabulary)
    ensures PrintParts(JoinPart(part, rest, v), v) == PrintPart(part, v) + PrintParts(rest, v)
    decreases part, 0
  {
    match part {
      case Run(t) => GluePrints(t, rest, v);
      case Hole(hole) =>
        CanonPrints(hole, v);
        assert JoinPart(part, rest, v)[1..] == rest;
    }
  }

  // ------------------------------------------------------------------ the exact claim

  /** Two well-named trees print alike exactly when they say the same: when they differ at most in how the
      runs of a string were cut, in a call and an edge of one name, in the literal -n and the negation of n, and
      in a float and the number, the name or the float its text says. */
  lemma {:induction false} PrintAlikeIffSaySame(a: Expr, b: Expr, v: Vocabulary)
    requires WellNamed(a, v) && WellNamed(b, v)
    ensures Print(a, v) == Print(b, v) <==> Canon(a, v) == Canon(b, v)
  {
    CanonPrints(a, v);
    CanonPrints(b, v);
    if Print(a, v) == Print(b, v) {
      Printed.ExprReads(a, "", v);
      Printed.ExprReads(b, "", v);
    }
  }

  /** None of those pairs: no negative literal, an interpolation has a hole and its runs are whole, the names of
      calls and of edges are apart, and a float's text is its own and no whole number's or name's. */
  ghost predicate Settled(e: Expr, v: Vocabulary)
    decreases e, 1
  {
    match e
    case Interpolation(parts) =>
      && (exists i :: 0 <= i < |parts| && parts[i].Hole?)
      && (forall i | 0 <= i < |parts| - 1 :: parts[i].Hole? || parts[i + 1].Hole?)
      && (forall p | p in parts :: SettledPart(p, v))
    case Call(func, args) => !v.isType(func) && forall a | a in args :: Settled(a, v)
    case Edge(target, ends) => v.isType(target) && forall a | a in ends :: Settled(a, v)
    case IntLit(n) => n >= 0
    case FloatLit(f) =>
      !IsNumeral(v.float(f)) && !IsBare(v.float(f)) && forall g :: v.float(g) == v.float(f) ==> g == f
    case Bin(_, l, r) => Settled(l, v) && Settled(r, v)
    case Unary(_, o) => Settled(o, v)
    case Ternary(c, t, o) => Settled(c, v) && Settled(t, v) && Settled(o, v)
    case _ => true
  }

  ghost predicate SettledPart(part: Part, v: Vocabulary)
    decreases part, 0
  {
    match part
    case Run(t) => t != ""
    case Hole(hole) => Settled(hole, v)
  }

  lemma {:induction false} SettledSaysItself(e: Expr, v: Vocabulary)
    requires Settled(e, v)
    ensures Inner(e, v) == e && Canon(e, v) == e
    decreases e, 1
  {
    match e {
      case Interpolation(parts) => SettledParts(parts, v);
      case Call(_, args) => SettledAll(args, v);
      case Edge(_, ends) => SettledAll(ends, v);
      case Bin(_, l, r) =>
        SettledSaysItself(l, v);
        SettledSaysItself(r, v);
      case Unary(_, o) => SettledSaysItself(o, v);
      case Ternary(c, t, o) =>
        SettledSaysItself(c, v);
        SettledSaysItself(t, v);
        SettledSaysItself(o, v);
      case _ =>
    }
  }

  lemma {:induction false} SettledAll(es: seq<Expr>, v: Vocabulary)
    requires forall a | a in es :: Settled(a, v)
    ensures CanonAll(es, v) == es
    decreases es, 0
  {
    if es == [] {
    } else {
      SettledSaysItself(es[0], v);
      SettledAll(es[1..], v);
    }
  }

  lemma {:induction false} SettledParts(parts: seq<Part>, v: Vocabulary)
    requires forall i | 0 <= i < |parts| - 1 :: parts[i].Hole? || parts[i + 1].Hole?
    requires forall p | p in parts :: SettledPart(p, v)
    ensures InnerParts(parts, v) == parts
    decreases parts, 0
  {
    if parts == [] {
    } else {
      forall i | 0 <= i < |parts| - 2
        ensures parts[1..][i].Hole? || parts[1..][i + 1].Hole?
      {
        assert parts[i + 1].Hole? || parts[i + 2].Hole?;
      }
      SettledParts(parts[1..], v);
      SettledPartStands(parts[0], parts[1..], v);
    }
  }

  lemma {:induction false} SettledPartStands(part: Part, rest: seq<Part>, v: Vocabulary)
    requires SettledPart(part, v) && (part.Hole? || rest == [] || rest[0].Hole?)
    ensures JoinPart(part, rest, v) == [part] + rest
    decreases part, 0
  {
    if part.Hole? {
      SettledSaysItself(part.hole, v);
    }
  }

  /** So there the printer is injective. */
  lemma {:induction false} TreesThatDifferPrintApart(a: Expr, b: Expr, v: Vocabulary)
    requires WellNamed(a, v) && WellNamed(b, v) && Settled(a, v) && Settled(b, v)
    ensures a != b ==> Print(a, v) != Print(b, v)
  {
    SettledSaysItself(a, v);
    SettledSaysItself(b, v);
    PrintAlikeIffSaySame(a, b, v);
  }

  /** What a text does not tell apart: two trees, one text. */
  lemma {:induction false} TreesThatPrintAlike(
    t: string, u: string, callee: string, args: seq<Expr>, n: int, f: int, v: Vocabulary)
    ensures Print(StringLit(t), v) == Print(Interpolation([Run(t)]), v)
    ensures Print(Interpolation([Run(t), Run(u)]), v) == Print(Interpolation([Run(t + u)]), v)
    ensures Print(Call(callee, args), v) == Print(Edge(callee, args), v)
    ensures n > 0 ==> Print(IntLit(-n), v) == Print(Unary(Neg, IntLit(n)), v)
    ensures v.float(f) == Decimal.IntText(n) ==> Print(FloatLit(f), v) == Print(IntLit(n), v)
    ensures v.float(f) == t ==> Print(FloatLit(f), v) == Print(FieldRef(t), v)
  {
    RunsPrint([Run(t)], t, v);
    RunsPrint([Run(t), Run(u)], t + u, v);
    RunsPrint([Run(t + u)], t + u, v);
    if n > 0 {
      CanonPrints(IntLit(-n), v);
    }
  }

  lemma {:induction false} RunsPrint(parts: seq<Part>, text: string, v: Vocabulary)
    requires 1 <= |parts| <= 2 && parts[0].Run? && parts[|parts| - 1].Run?
    requires text == if |parts| == 1 then parts[0].text else parts[0].text + parts[1].text
    ensures PrintParts(parts, v) == text
  {
    if |parts| == 1 {
      assert parts[1..] == [];
    } else {
      assert parts[1..] == [parts[1]];
      RunsPrint([parts[1]], parts[1].text, v);
    }
  }

  /** Nor does a text escape what it holds. A brace in it prints as a brace, so a string that holds the text of
      an expression between braces prints as the interpolation of that expression. */
  lemma {:induction false} BracesPrintAlike(t: string, e: Expr, u: string, v: Vocabulary)
    ensures Print(StringLit(t + "{" + Print(e, v) + "}" + u), v) == Print(Interpolation([Run(t), Hole(e), Run(u)]), v)
    ensures Print(StringLit("{" + Print(e, v) + "}"), v) == Print(Interpolation([Hole(e)]), v)
  {
    var hole := "{" + Print(e, v) + "}";
    var last := [Run(u)];
    var more := [Hole(e), Run(u)];
    var parts := [Run(t)] + more;
    assert [Run(t), Hole(e), Run(u)] == parts && parts[1..] == more && more[1..] == last && last[1..] == [];
    assert PrintParts(last, v) == u + "";
    assert PrintParts(more, v) == hole + u;
    assert PrintParts(parts, v) == t + (hole + u);
    assert t + "{" + Print(e, v) + "}" + u == t + (hole + u);
    assert [Hole(e)][1..] == [];
    assert PrintParts([Hole(e)], v) == hole + "" && hole + "" == hole;
  }

  /** And a quote prints as a quote. */
  lemma {:induction false} QuotesPrintAlike(t: string, u: string, v: Vocabulary)
    ensures Print(StringLit(t + "\" + \"" + u), v) == Print(Bin(Add, StringLit(t), StringLit(u)), v)
  {
    var l, r := "\"" + t + "\"", "\"" + u + "\"";
    assert "\" + \"" == "\"" + " + " + "\"";
    assert "\"" + (t + "\" + \"" + u) + "\"" == l + " + " + r;
    assert " + " == " " + "+" + " ";
    assert Operand(StringLit(t), v) == l && Operand(StringLit(u), v) == r;
    assert l + " " + "+" + " " + r == l + (" " + "+" + " ") + r;
  }
}
