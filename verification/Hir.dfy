/** The lowered expression, and the names it reads. */
module Hir {
  import opened Common

  /** One piece of an interpolated string. */
  datatype Part = Run(text: string) | Hole(hole: Expr)

  datatype Expr =
    | Interpolation(parts: seq<Part>)
    | NullLit
    | FieldRef(name: string)
    | ColumnRef(binding: string, column: string)
    | StringLit(text: string)
    | LangStringLit(value: string, tag: string)
    | Call(func: string, args: seq<Expr>)
    | Edge(target: string, ends: seq<Expr>)
    | IntLit(n: int)
    | FloatLit(bits: int)
    | BoolLit(b: bool)
    | Bin(op: BinOp, lhs: Expr, rhs: Expr)
    | Unary(unop: UnOp, operand: Expr)
    | Ternary(cond: Expr, thn: Expr, otherwise: Expr)

  // ------------------------------------------------------------------ size

  function Size(e: Expr): nat {
    match e
    case Interpolation(parts) => 1 + PartsSize(parts)
    case Call(_, args) => 1 + SizeAll(args)
    case Edge(_, ends) => 1 + SizeAll(ends)
    case Bin(_, l, r) => 1 + Size(l) + Size(r)
    case Unary(_, o) => 1 + Size(o)
    case Ternary(c, t, o) => 1 + Size(c) + Size(t) + Size(o)
    case _ => 1
  }

  function SizeAll(es: seq<Expr>): nat {
    if es == [] then 0 else Size(es[0]) + SizeAll(es[1..])
  }

  /** A literal run is no node: only a hole's expression is. */
  function PartsSize(parts: seq<Part>): nat {
    if parts == [] then 0 else PartSize(parts[0]) + PartsSize(parts[1..])
  }

  function PartSize(part: Part): nat {
    match part
    case Run(_) => 0
    case Hole(hole) => Size(hole)
  }

  // ------------------------------------------------------------------ the bare names an expression reads

  function FieldRefs(e: Expr): seq<string> {
    match e
    case FieldRef(name) => [name]
    case Bin(_, l, r) => FieldRefs(l) + FieldRefs(r)
    case Unary(_, o) => FieldRefs(o)
    case Call(_, args) => FieldRefsAll(args)
    case Edge(_, ends) => FieldRefsAll(ends)
    case Ternary(c, t, o) => FieldRefs(c) + FieldRefs(t) + FieldRefs(o)
    case Interpolation(parts) => FieldRefsParts(parts)
    case _ => []
  }

  function FieldRefsAll(es: seq<Expr>): seq<string> {
    if es == [] then [] else FieldRefs(es[0]) + FieldRefsAll(es[1..])
  }

  function FieldRefsParts(parts: seq<Part>): seq<string> {
    if parts == [] then [] else FieldRefsPart(parts[0]) + FieldRefsParts(parts[1..])
  }

  function FieldRefsPart(part: Part): seq<string> {
    match part
    case Run(_) => []
    case Hole(hole) => FieldRefs(hole)
  }

  lemma {:induction false} NoPartsNoRefs()
    ensures FieldRefsParts([]) == [] && FieldRefsAll([]) == []
  {
  }

  lemma {:induction false} FieldRefsAppend(es: seq<Expr>, e: Expr)
    ensures FieldRefsAll(es + [e]) == FieldRefsAll(es) + FieldRefs(e)
  {
    hide FieldRefs;
    if es == [] {
      assert es + [e] == [e] && [e][1..] == [];
    } else {
      FieldRefsAppend(es[1..], e);
      assert (es + [e])[1..] == es[1..] + [e];
    }
  }

  lemma {:induction false} FieldRefsPartsAppend(parts: seq<Part>, p: Part)
    ensures FieldRefsParts(parts + [p]) == FieldRefsParts(parts) + FieldRefsPart(p)
  {
    hide FieldRefsPart;
    if parts == [] {
      assert parts + [p] == [p] && [p][1..] == [];
    } else {
      FieldRefsPartsAppend(parts[1..], p);
      assert (parts + [p])[1..] == parts[1..] + [p];
    }
  }

  // ------------------------------------------------------------------ they are the bare names in it

  /** The expressions right under one, in the order they are written. */
  function Under(e: Expr): (es: seq<Expr>)
    ensures forall k | k in es :: k < e
  {
    match e
    case Bin(_, l, r) => [l, r]
    case Unary(_, o) => [o]
    case Call(_, args) => args
    case Edge(_, ends) => ends
    case Ternary(c, t, o) => [c, t, o]
    case Interpolation(parts) => Holes(parts)
    case _ => []
  }

  function Holes(parts: seq<Part>): (es: seq<Expr>)
    ensures forall k | k in es :: exists p :: p in parts && p.Hole? && p.hole == k
  {
    if parts == [] then [] else (if parts[0].Hole? then [parts[0].hole] else []) + Holes(parts[1..])
  }

  /** `s` is the expression or somewhere in it. */
  predicate Within(s: Expr, e: Expr) {
    s == e || exists k :: k in Under(e) && Within(s, k)
  }

  lemma {:induction false} OneRef(e: Expr, more: seq<Expr>)
    ensures FieldRefsAll([e] + more) == FieldRefs(e) + FieldRefsAll(more) && FieldRefsAll([e]) == FieldRefs(e)
  {
    assert ([e] + more)[1..] == more && [e][1..] == [];
    assert FieldRefsAll([]) == [];
  }

  /** The names read are those under it, one expression after another. */
  lemma {:induction false} RefsAreInOrder(e: Expr)
    ensures FieldRefs(e) == if e.FieldRef? then [e.name] else FieldRefsAll(Under(e))
  {
    NoPartsNoRefs();
    match e {
      case Bin(_, l, r) =>
        OneRef(l, [r]);
        OneRef(r, []);
        assert [l] + [r] == [l, r];
      case Unary(_, o) => OneRef(o, []);
      case Ternary(c, t, o) =>
        OneRef(c, [t, o]);
        OneRef(t, [o]);
        OneRef(o, []);
        assert [t] + [o] == [t, o] && [c] + [t, o] == [c, t, o];
      case Interpolation(parts) => HolesAreRead(parts);
      case _ =>
    }
  }

  lemma {:induction false} HolesAreRead(parts: seq<Part>)
    ensures FieldRefsParts(parts) == FieldRefsAll(Holes(parts))
  {
    hide FieldRefs;
    if parts == [] {
    } else {
      HolesAreRead(parts[1..]);
      match parts[0] {
        case Run(_) => assert [] + Holes(parts[1..]) == Holes(parts[1..]);
        case Hole(hole) => OneRef(hole, Holes(parts[1..]));
      }
    }
  }

  /** The size is one for the expression and the sizes of those under it. */
  lemma {:induction false} SizeCountsNodes(e: Expr)
    ensures Size(e) == 1 + SizeAll(Under(e))
  {
    match e {
      case Bin(_, l, r) => assert [l, r][1..] == [r] && [r][1..] == [] && SizeAll([r][1..]) == 0;
      case Unary(_, o) => assert [o][1..] == [] && SizeAll([o][1..]) == 0;
      case Ternary(c, t, o) =>
        assert [c, t, o][1..] == [t, o] && [t, o][1..] == [o] && [o][1..] == [];
        assert SizeAll([t, o]) == Size(t) + SizeAll([o]) && SizeAll([o]) == Size(o) + SizeAll([]);
      case Interpolation(parts) => HolesAreCounted(parts);
      case _ =>
    }
  }

  lemma {:induction false} HolesAreCounted(parts: seq<Part>)
    ensures PartsSize(parts) == SizeAll(Holes(parts))
  {
    hide Size;
    if parts == [] {
    } else {
      HolesAreCounted(parts[1..]);
      match parts[0] {
        case Run(_) => assert [] + Holes(parts[1..]) == Holes(parts[1..]);
        case Hole(hole) => assert ([hole] + Holes(parts[1..]))[1..] == Holes(parts[1..]);
      }
    }
  }

  /** A name is read exactly when it stands bare somewhere in the expression. */
  lemma {:induction false} RefsAreWithin(e: Expr, name: string)
    ensures name in FieldRefs(e) <==> Within(FieldRef(name), e)
    decreases e, 1
  {
    RefsAreInOrder(e);
    hide FieldRefs, FieldRefsAll;
    if !e.FieldRef? {
      AllRefsAreWithin(e, Under(e), name);
    }
  }

  lemma {:induction false} AllRefsAreWithin(e: Expr, es: seq<Expr>, name: string)
    requires forall k | k in es :: k < e
    ensures name in FieldRefsAll(es) <==> exists k :: k in es && Within(FieldRef(name), k)
    decreases e, 0, |es|
  {
    hide FieldRefs, Within;
    if es == [] {
    } else {
      assert es[0] in es && forall k | k in es[1..] :: k in es;
      RefsAreWithin(es[0], name);
      AllRefsAreWithin(e, es[1..], name);
      assert forall k :: k in es <==> k == es[0] || k in es[1..];
    }
  }

  /** `field_refs`: the walk that pushes every bare name onto `out`. */
  method CollectFieldRefs(e: Expr, out: seq<string>) returns (names: seq<string>)
    ensures names == out + FieldRefs(e)
    decreases e, 1
  {
    hide FieldRefsAll, FieldRefsParts, FieldRefsPart;
    names := out;
    match e {
      case FieldRef(name) => names := names + [name];
      case Bin(_, lhs, rhs) =>
        names := CollectFieldRefs(lhs, names);
        names := CollectFieldRefs(rhs, names);
      case Unary(_, operand) => names := CollectFieldRefs(operand, names);
      case Call(_, args) => names := CollectAll(e, args, names);
      case Edge(_, ends) => names := CollectAll(e, ends, names);
      case Ternary(cond, thn, otherwise) =>
        names := CollectFieldRefs(cond, names);
        names := CollectFieldRefs(thn, names);
        names := CollectFieldRefs(otherwise, names);
      case Interpolation(parts) =>
        names := CollectParts(e, parts, names);
      case _ =>
    }
  }

  method CollectParts(ghost e: Expr, parts: seq<Part>, out: seq<string>) returns (names: seq<string>)
    requires e == Interpolation(parts)
    ensures names == out + FieldRefsParts(parts)
    decreases e, 0
  {
    hide FieldRefs, FieldRefsParts;
    names := out;
    NoPartsNoRefs();
    for i := 0 to |parts|
      invariant names == out + FieldRefsParts(parts[..i])
    {
      FieldRefsPartsAppend(parts[..i], parts[i]);
      assert parts[..i] + [parts[i]] == parts[..i + 1];
      if parts[i].Hole? {
        names := CollectFieldRefs(parts[i].hole, names);
      }
    }
    assert parts[..|parts|] == parts;
  }

  method CollectAll(ghost e: Expr, es: seq<Expr>, out: seq<string>) returns (names: seq<string>)
    requires (e.Call? && e.args == es) || (e.Edge? && e.ends == es)
    ensures names == out + FieldRefsAll(es)
    decreases e, 0
  {
    hide FieldRefs, FieldRefsAll;
    names := out;
    NoPartsNoRefs();
    for i := 0 to |es|
      invariant names == out + FieldRefsAll(es[..i])
    {
      FieldRefsAppend(es[..i], es[i]);
      assert es[..i] + [es[i]] == es[..i + 1];
      names := CollectFieldRefs(es[i], names);
    }
    assert es[..|es|] == es;
  }
}
