/** The source spelling of a pipeline, and reading it back. */
module Pipes {
  import opened Common
  import opened Hir
  import opened Display
  import opened Reading
  import Injective
  import Printed
  import Spans

  datatype Column = Column(binding: string, name: string)

  datatype Aggregation = Aggregation(out: string, func: string, column: Column)

  datatype SourceOp =
    | Where(cond: Expr)
    | Select(columns: seq<Column>)
    | Join(right: string, alias: Option<string>, on: Expr)
    | Distinct
    | GroupBy(keys: seq<Column>, aggs: seq<Aggregation>)
    | Union(other: string)

  datatype Pipe = Pipe(base: string, ops: seq<SourceOp>)

  // ------------------------------------------------------------------ the text

  /** A column's name stands as it is: nothing quotes it. */
  function ColumnText(c: Column): string {
    c.binding + "." + c.name
  }

  function AggregationText(a: Aggregation): string {
    a.out + " = " + a.func + "(" + ColumnText(a.column) + ")"
  }

  datatype Item = Key(column: Column) | Agg(agg: Aggregation)

  function ItemText(i: Item): string {
    match i
    case Key(c) => ColumnText(c)
    case Agg(a) => AggregationText(a)
  }

  /** The grouped columns, then the aggregations. */
  function Items(keys: seq<Column>, aggs: seq<Aggregation>): seq<Item> {
    seq(|keys|, i requires 0 <= i < |keys| => Key(keys[i])) + seq(|aggs|, i requires 0 <= i < |aggs| => Agg(aggs[i]))
  }

  function ItemsText(items: seq<Item>): string {
    if items == [] then ""
    else if |items| == 1 then ItemText(items[0])
    else ItemText(items[0]) + ", " + ItemsText(items[1..])
  }

  function OnText(right: string, alias: Option<string>): string {
    right + (if alias.Some? then " as " + alias.value else "")
  }

  function PrintOp(op: SourceOp, v: Vocabulary): string {
    match op
    case Where(cond) => ".where(" + Print(cond, v) + ")"
    case Select(columns) => ".select(" + ItemsText(Items(columns, [])) + ")"
    case Join(right, alias, on) => ".join(" + OnText(right, alias) + ", on = " + Print(on, v) + ")"
    case Distinct => ".distinct()"
    case GroupBy(keys, aggs) => ".group_by(" + ItemsText(Items(keys, aggs)) + ")"
    case Union(right) => ".union(" + right + ")"
  }

  function PrintOps(ops: seq<SourceOp>, v: Vocabulary): string {
    if ops == [] then "" else PrintOp(ops[0], v) + PrintOps(ops[1..], v)
  }

  function PrintPipe(p: Pipe, v: Vocabulary): string {
    p.base + PrintOps(p.ops, v)
  }

  // ------------------------------------------------------------------ the buffer

  function ItemsFrom(items: seq<Item>, i: nat): string
    requires i <= |items|
  {
    (if 0 < i < |items| then ", " else "") + ItemsText(items[i..])
  }

  lemma {:induction false} ItemsFromStep(items: seq<Item>, i: nat)
    requires i < |items|
    ensures ItemsFrom(items, i) == (if i > 0 then ", " else "") + ItemText(items[i]) + ItemsFrom(items, i + 1)
  {
    assert items[i..][0] == items[i] && items[i..][1..] == items[i + 1..];
    if i + 1 == |items| {
      assert ItemText(items[i]) + "" == ItemText(items[i]);
    }
  }

  method WriteItem(w: Writer, items: seq<Item>, i: nat)
    requires i < |items|
    modifies w
    ensures w.out == old(w.out) + ((if i > 0 then ", " else "") + ItemText(items[i]))
  {
    if i > 0 {
      w.Push(", ");
    }
    w.Push(ItemText(items[i]));
  }

  method WriteItems(w: Writer, items: seq<Item>)
    modifies w
    ensures w.out == old(w.out) + ItemsText(items)
  {
    ghost var start := w.out;
    assert items[0..] == items;
    for i := 0 to |items|
      invariant w.out + ItemsFrom(items, i) == start + ItemsText(items)
    {
      ItemsFromStep(items, i);
      ghost var before := w.out;
      WriteItem(w, items, i);
      Reassociate(before, (if i > 0 then ", " else "") + ItemText(items[i]), ItemsFrom(items, i + 1));
    }
    assert w.out + ItemsFrom(items, |items|) == w.out;
  }

  lemma {:induction false} Reassociate(a: string, b: string, c: string)
    ensures a + b + c == a + (b + c)
  {
  }

  method WriteOp(w: Writer, op: SourceOp)
    modifies w
    ensures w.out == old(w.out) + PrintOp(op, w.v)
  {
    match op {
      case Where(cond) =>
        w.Push(".where(");
        w.WriteExpr(cond);
        w.Push(")");
        Rejoin(old(w.out), ".where(", Print(cond, w.v), ")");
      case Select(columns) =>
        w.Push(".select(");
        WriteItems(w, Items(columns, []));
        w.Push(")");
        Rejoin(old(w.out), ".select(", ItemsText(Items(columns, [])), ")");
      case Join(_, _, _) => WriteJoin(w, op);
      case Distinct => w.Push(".distinct()");
      case GroupBy(keys, aggs) =>
        w.Push(".group_by(");
        WriteItems(w, Items(keys, aggs));
        w.Push(")");
        Rejoin(old(w.out), ".group_by(", ItemsText(Items(keys, aggs)), ")");
      case Union(right) =>
        w.Push(".union(" + right + ")");
    }
  }

  method WriteJoin(w: Writer, op: SourceOp)
    requires op.Join?
    modifies w
    ensures w.out == old(w.out) + PrintOp(op, w.v)
  {
    w.Push(".join(" + op.right);
    if op.alias.Some? {
      w.Push(" as " + op.alias.value);
    }
    assert w.out == old(w.out) + (".join(" + OnText(op.right, op.alias));
    w.Push(", on = ");
    w.WriteExpr(op.on);
    Rejoin(old(w.out), ".join(" + OnText(op.right, op.alias), ", on = ", Print(op.on, w.v));
    w.Push(")");
  }

  lemma {:induction false} PrintOpsStep(ops: seq<SourceOp>, i: nat, v: Vocabulary)
    requires i < |ops|
    ensures PrintOps(ops[i..], v) == PrintOp(ops[i], v) + PrintOps(ops[i + 1..], v)
  {
    assert ops[i..][0] == ops[i] && ops[i..][1..] == ops[i + 1..];
  }

  /** `pipe_text`. */
  method PipeText(p: Pipe, v: Vocabulary) returns (text: string)
    ensures text == PrintPipe(p, v)
  {
    var w := new Writer(v);
    w.Push(p.base);
    assert p.ops[0..] == p.ops;
    for i := 0 to |p.ops|
      invariant w.v == v && w.out + PrintOps(p.ops[i..], v) == p.base + PrintOps(p.ops, v)
    {
      PrintOpsStep(p.ops, i, v);
      ghost var before := w.out;
      WriteOp(w, p.ops[i]);
      Reassociate(before, PrintOp(p.ops[i], v), PrintOps(p.ops[i + 1..], v));
    }
    text := w.out;
    assert text + "" == text;
  }

  // ------------------------------------------------------------------ what the text says

  ghost function CanonOp(op: SourceOp, v: Vocabulary): SourceOp {
    match op
    case Where(cond) => Where(Canon(cond, v))
    case Join(right, alias, on) => Join(right, alias, Canon(on, v))
    case _ => op
  }

  ghost function CanonOps(ops: seq<SourceOp>, v: Vocabulary): seq<SourceOp> {
    if ops == [] then [] else [CanonOp(ops[0], v)] + CanonOps(ops[1..], v)
  }

  ghost function CanonPipe(p: Pipe, v: Vocabulary): Pipe {
    Pipe(p.base, CanonOps(p.ops, v))
  }

  /** What ends a column among the columns of a stage. */
  predicate InColumn(c: char) {
    c != ',' && c != ')'
  }

  /** A binding is a name; a column's name may be any text that no list of columns would cut. */
  predicate NamedColumn(c: Column) {
    IsBare(c.binding) && forall i | 0 <= i < |c.name| :: InColumn(c.name[i])
  }

  predicate NamedGroups(keys: seq<Column>, aggs: seq<Aggregation>) {
    (forall c | c in keys :: NamedColumn(c)) && (forall a | a in aggs :: NamedItem(Agg(a)))
  }

  predicate NamedItem(i: Item) {
    match i
    case Key(c) => NamedColumn(c)
    case Agg(a) => IsBare(a.out) && IsWord(a.func) && NamedColumn(a.column)
  }

  /** Names lex as names, and columns' names hold what a column may. */
  predicate WellNamedOp(op: SourceOp, v: Vocabulary) {
    match op
    case Where(cond) => WellNamed(cond, v)
    case Select(columns) => NamedGroups(columns, [])
    case Join(right, alias, on) => IsBare(right) && (alias.Some? ==> IsBare(alias.value)) && WellNamed(on, v)
    case Distinct => true
    case GroupBy(keys, aggs) => NamedGroups(keys, aggs)
    case Union(right) => IsBare(right)
  }

  predicate WellNamedPipe(p: Pipe, v: Vocabulary) {
    IsBare(p.base) && forall op | op in p.ops :: WellNamedOp(op, v)
  }

  // ------------------------------------------------------------------ the reader

  /** A column of the binding `b`, from the point on. */
  function ReadMember(b: string, s: string): (r: Read<Column>)
    ensures r.Some? ==> |r.value.1| <= |s|
  {
    if !Starts(s, '.') then None
    else
      var n := Spans.Span(s[1..], InColumn);
      Some((Column(b, s[1..][..n]), s[1..][n..]))
  }

  function ReadColumn(s: string): (r: Read<Column>)
    ensures r.Some? ==> |r.value.1| <= |s|
  {
    var n := Spans.Span(s, NameChar);
    ReadMember(s[..n], s[n..])
  }

  function ReadItem(s: string): (r: Read<Item>)
    ensures r.Some? ==> |r.value.1| <= |s|
  {
    var n := Spans.Span(s, NameChar);
    if " = " <= s[n..] then ReadAggregation(s[..n], s[n..][3..])
    else
      var c := ReadMember(s[..n], s[n..]);
      if c.None? then None else Some((Key(c.value.0), c.value.1))
  }

  function ReadAggregation(name: string, s: string): (r: Read<Item>)
    ensures r.Some? ==> |r.value.1| <= |s|
  {
    var m := Spans.Span(s, WordChar);
    if !Starts(s[m..], '(') then None
    else
      var c := ReadColumn(s[m..][1..]);
      if c.None? || !Starts(c.value.1, ')') then None
      else Some((Agg(Aggregation(name, s[..m], c.value.0)), c.value.1[1..]))
  }

  function ReadItems(s: string): (r: Read<seq<Item>>)
    ensures r.Some? ==> |r.value.1| < |s|
  {
    if Starts(s, ')') then Some(([], s[1..])) else ReadSomeItems(s)
  }

  function ReadSomeItems(s: string): (r: Read<seq<Item>>)
    ensures r.Some? ==> |r.value.1| < |s|
    decreases |s|
  {
    var i := ReadItem(s);
    if i.None? then None
    else if Starts(i.value.1, ')') then Some(([i.value.0], i.value.1[1..]))
    else if !(", " <= i.value.1) then None
    else
      var more := ReadSomeItems(i.value.1[2..]);
      if more.None? then None else Some(([i.value.0] + more.value.0, more.value.1))
  }

  function KeysOf(items: seq<Item>): seq<Column> {
    if items == [] then [] else (if items[0].Key? then [items[0].column] else []) + KeysOf(items[1..])
  }

  function AggsOf(items: seq<Item>): seq<Aggregation> {
    if items == [] then [] else (if items[0].Agg? then [items[0].agg] else []) + AggsOf(items[1..])
  }

  ghost function ReadCondition(s: string, v: Vocabulary): (r: Read<Expr>)
    ensures r.Some? ==> |r.value.1| < |s|
  {
    var e := ReadExpr(s, v);
    if e.None? || !Starts(e.value.1, ')') then None else Some((e.value.0, e.value.1[1..]))
  }

  function ReadAlias(s: string): (r: (Option<string>, string))
    ensures |r.1| <= |s|
  {
    if " as " <= s then
      var n := Spans.Span(s[4..], NameChar);
      (Some(s[4..][..n]), s[4..][n..])
    else (None, s)
  }

  ghost function ReadJoin(s: string, v: Vocabulary): (r: Read<SourceOp>)
    ensures r.Some? ==> |r.value.1| < |s|
  {
    var n := Spans.Span(s, NameChar);
    var alias := ReadAlias(s[n..]);
    ReadOn(s[..n], alias.0, alias.1, v)
  }

  ghost function ReadOn(right: string, alias: Option<string>, s: string, v: Vocabulary): (r: Read<SourceOp>)
    ensures r.Some? ==> |r.value.1| < |s|
  {
    if !(", on = " <= s) then None
    else
      var on := ReadCondition(s[7..], v);
      if on.None? then None else Some((Join(right, alias, on.value.0), on.value.1))
  }

  datatype Verb = WhereVerb | SelectVerb | JoinVerb | DistinctVerb | GroupByVerb | UnionVerb

  function VerbText(verb: Verb): string {
    match verb
    case WhereVerb => "where"
    case SelectVerb => "select"
    case JoinVerb => "join"
    case DistinctVerb => "distinct"
    case GroupByVerb => "group_by"
    case UnionVerb => "union"
  }

  function VerbNamed(s: string): Option<Verb> {
    if s == "where" then Some(WhereVerb)
    else if s == "select" then Some(SelectVerb)
    else if s == "join" then Some(JoinVerb)
    else if s == "distinct" then Some(DistinctVerb)
    else if s == "group_by" then Some(GroupByVerb)
    else if s == "union" then Some(UnionVerb)
    else None
  }

  /** A verb applied, from its opening parenthesis on. */
  ghost function ReadApplied(verb: Verb, s: string, v: Vocabulary): (r: Read<SourceOp>)
    ensures r.Some? ==> |r.value.1| < |s|
  {
    match verb
    case WhereVerb =>
      var e := ReadCondition(s, v);
      if e.None? then None else Some((Where(e.value.0), e.value.1))
    case SelectVerb =>
      var items := ReadItems(s);
      if items.None? then None else Some((Select(KeysOf(items.value.0)), items.value.1))
    case JoinVerb => ReadJoin(s, v)
    case DistinctVerb => if Starts(s, ')') then Some((Distinct, s[1..])) else None
    case GroupByVerb =>
      var items := ReadItems(s);
      if items.None? then None else Some((GroupBy(KeysOf(items.value.0), AggsOf(items.value.0)), items.value.1))
    case UnionVerb =>
      var n := Spans.Span(s, NameChar);
      if Starts(s[n..], ')') then Some((Union(s[..n]), s[n..][1..])) else None
  }

  ghost function ReadOp(s: string, v: Vocabulary): (r: Read<SourceOp>)
    ensures r.Some? ==> |r.value.1| < |s|
  {
    if !Starts(s, '.') then None
    else
      var n := Spans.Span(s[1..], NameChar);
      var verb := VerbNamed(s[1..][..n]);
      if verb.None? || !Starts(s[1..][n..], '(') then None else ReadApplied(verb.value, s[1..][n..][1..], v)
  }

  ghost function ReadOps(s: string, v: Vocabulary): Option<seq<SourceOp>>
    decreases |s|
  {
    if s == "" then Some([])
    else
      var op := ReadOp(s, v);
      if op.None? then None
      else
        var more := ReadOps(op.value.1, v);
        if more.None? then None else Some([op.value.0] + more.value)
  }

  ghost function ReadPipe(s: string, v: Vocabulary): Option<Pipe> {
    var n := Spans.Span(s, NameChar);
    var ops := ReadOps(s[n..], v);
    if ops.None? then None else Some(Pipe(s[..n], ops.value))
  }

  // ------------------------------------------------------------------ the reader undoes the printer

  lemma {:induction false} BareSpans(name: string, rest: string)
    requires IsBare(name) && (rest != "" ==> !NameChar(rest[0]))
    ensures var s := name + rest; var n := Spans.Span(s, NameChar); n == |name| && s[..n] == name && s[n..] == rest
  {
    Spans.SpanOf(name, rest, NameChar);
  }

  /** What follows a column. */
  predicate ColumnEnds(rest: string) {
    Starts(rest, ')') || Starts(rest, ',')
  }

  lemma {:induction false} MemberReads(c: Column, rest: string)
    requires NamedColumn(c) && ColumnEnds(rest)
    ensures ReadMember(c.binding, "." + (c.name + rest)) == Some((c, rest))
  {
    assert ("." + (c.name + rest))[1..] == c.name + rest;
    Spans.SpanOf(c.name, rest, InColumn);
  }

  lemma {:induction false} ColumnReads(c: Column, rest: string)
    requires NamedColumn(c) && ColumnEnds(rest)
    ensures ReadColumn(ColumnText(c) + rest) == Some((c, rest))
  {
    hide ReadMember;
    assert ColumnText(c) + rest == c.binding + ("." + (c.name + rest));
    BareSpans(c.binding, "." + (c.name + rest));
    MemberReads(c, rest);
  }

  lemma {:induction false} KeyReads(c: Column, rest: string)
    requires NamedColumn(c) && ColumnEnds(rest)
    ensures ReadItem(ColumnText(c) + rest) == Some((Key(c), rest))
  {
    hide ReadMember, ReadAggregation;
    assert ColumnText(c) + rest == c.binding + ("." + (c.name + rest));
    BareSpans(c.binding, "." + (c.name + rest));
    MemberReads(c, rest);
  }

  lemma {:induction false} WordSpans(w: string, rest: string)
    requires IsWord(w) && (rest != "" ==> !WordChar(rest[0]))
    ensures var s := w + rest; var n := Spans.Span(s, WordChar); n == |w| && s[..n] == w && s[n..] == rest
  {
    Spans.SpanOf(w, rest, WordChar);
  }

  lemma {:induction false} ItemReads(i: Item, rest: string)
    requires NamedItem(i) && ColumnEnds(rest)
    ensures ReadItem(ItemText(i) + rest) == Some((i, rest))
  {
    if i.Key? {
      KeyReads(i.column, rest);
    } else {
      AggregationReads(i.agg, rest);
    }
  }

  lemma {:induction false} AggregationReads(a: Aggregation, rest: string)
    requires NamedItem(Agg(a))
    ensures ReadItem(AggregationText(a) + rest) == Some((Agg(a), rest))
  {
    var call := a.func + "(" + ColumnText(a.column) + (")" + rest);
    assert AggregationText(a) + rest == a.out + (" = " + call);
    BareSpans(a.out, " = " + call);
    assert (" = " + call)[3..] == call;
    CallReads(a, rest);
  }

  lemma {:induction false} CallReads(a: Aggregation, rest: string)
    requires NamedItem(Agg(a))
    ensures ReadAggregation(a.out, a.func + "(" + ColumnText(a.column) + (")" + rest)) == Some((Agg(a), rest))
  {
    hide ReadColumn;
    var within := ColumnText(a.column) + (")" + rest);
    assert a.func + "(" + ColumnText(a.column) + (")" + rest) == a.func + ("(" + within);
    WordSpans(a.func, "(" + within);
    assert ("(" + within)[1..] == within;
    ColumnReads(a.column, ")" + rest);
    assert (")" + rest)[1..] == rest;
  }

  lemma {:induction false} ItemsRead(items: seq<Item>, rest: string)
    requires forall k | 0 <= k < |items| :: NamedItem(items[k])
    ensures ReadItems(ItemsText(items) + (")" + rest)) == Some((items, rest))
  {
    if items == [] {
      assert ItemsText(items) + (")" + rest) == ")" + rest;
    } else {
      SomeItemsRead(items, rest);
      ItemBegins(items[0]);
      assert (ItemsText(items) + (")" + rest))[0] == ItemText(items[0])[0];
    }
  }

  lemma {:induction false} ItemBegins(i: Item)
    requires NamedItem(i)
    ensures ItemText(i) != "" && ItemText(i)[0] != ')'
  {
  }

  lemma {:induction false} SomeItemsRead(items: seq<Item>, rest: string)
    requires items != [] && forall k | 0 <= k < |items| :: NamedItem(items[k])
    ensures ReadSomeItems(ItemsText(items) + (")" + rest)) == Some((items, rest))
  {
    hide ReadItem, ItemText, NamedItem;
    if |items| == 1 {
      LastItemReads(items[0], rest);
      assert [items[0]] == items;
    } else {
      var more := ItemsText(items[1..]) + (")" + rest);
      SomeItemsRead(items[1..], rest);
      MoreItemsRead(items[0], more, items[1..], rest);
      assert [items[0]] + items[1..] == items;
      Rearranges(ItemText(items[0]), ItemsText(items[1..]), ")" + rest);
    }
  }

  lemma {:induction false} Rearranges(t: string, u: string, rest: string)
    ensures t + ", " + u + rest == t + (", " + (u + rest))
  {
  }

  lemma {:induction false} LastItemReads(i: Item, rest: string)
    requires NamedItem(i)
    ensures ReadSomeItems(ItemText(i) + (")" + rest)) == Some(([i], rest))
  {
    hide ReadItem, ItemText, NamedItem;
    ItemReads(i, ")" + rest);
    assert (")" + rest)[1..] == rest;
  }

  lemma {:induction false} MoreItemsRead(i: Item, more: string, items: seq<Item>, rest: string)
    requires NamedItem(i) && ReadSomeItems(more) == Some((items, rest))
    ensures ReadSomeItems(ItemText(i) + (", " + more)) == Some(([i] + items, rest))
  {
    hide ReadItem, ItemText, NamedItem;
    ItemReads(i, ", " + more);
    assert (", " + more)[2..] == more;
  }

  lemma {:induction false} ItemsSort(keys: seq<Column>, aggs: seq<Aggregation>)
    ensures KeysOf(Items(keys, aggs)) == keys && AggsOf(Items(keys, aggs)) == aggs
    decreases |keys| + |aggs|
  {
    var items := Items(keys, aggs);
    if keys != [] {
      assert items[0] == Key(keys[0]) && items[1..] == Items(keys[1..], aggs);
      ItemsSort(keys[1..], aggs);
    } else if aggs != [] {
      assert items[0] == Agg(aggs[0]) && items[1..] == Items(keys, aggs[1..]);
      ItemsSort(keys, aggs[1..]);
    }
  }

  lemma {:induction false} ItemsAreNamed(keys: seq<Column>, aggs: seq<Aggregation>, rest: string)
    requires NamedGroups(keys, aggs)
    ensures ReadItems(ItemsText(Items(keys, aggs)) + (")" + rest)) == Some((Items(keys, aggs), rest))
  {
    ItemsRead(Items(keys, aggs), rest);
  }

  lemma {:induction false} ConditionReads(e: Expr, rest: string, v: Vocabulary)
    requires WellNamed(e, v)
    ensures ReadCondition(Print(e, v) + (")" + rest), v) == Some((Canon(e, v), rest))
  {
    Printed.ExprReads(e, ")" + rest, v);
    assert (")" + rest)[1..] == rest;
  }

  lemma {:induction false} VerbIsNamed(verb: Verb)
    ensures IsBare(VerbText(verb)) && VerbNamed(VerbText(verb)) == Some(verb)
  {
    assert "union"[0] != "where"[0];
    assert "select"[0] == 's' && "distinct"[0] == 'd' && "group_by"[0] == 'g';
  }

  lemma {:induction false} VerbReads(verb: Verb, s: string, v: Vocabulary)
    ensures ReadOp("." + VerbText(verb) + "(" + s, v) == ReadApplied(verb, s, v)
  {
    VerbIsNamed(verb);
    var text := "." + VerbText(verb) + "(" + s;
    assert text[1..] == VerbText(verb) + ("(" + s);
    BareSpans(VerbText(verb), "(" + s);
    assert ("(" + s)[1..] == s;
  }

  lemma {:induction false} OnReads(right: string, alias: Option<string>, on: Expr, rest: string, v: Vocabulary)
    requires WellNamed(on, v)
    ensures ReadOn(right, alias, ", on = " + (Print(on, v) + (")" + rest)), v)
        == Some((Join(right, alias, Canon(on, v)), rest))
  {
    var s := ", on = " + (Print(on, v) + (")" + rest));
    assert s[7..] == Print(on, v) + (")" + rest);
    ConditionReads(on, rest, v);
  }

  lemma {:induction false} AliasReads(alias: Option<string>, rest: string)
    requires alias.Some? ==> IsBare(alias.value)
    requires Starts(rest, ',')
    ensures ReadAlias((if alias.Some? then " as " + alias.value else "") + rest) == (alias, rest)
  {
    if alias.Some? {
      var s := " as " + alias.value + rest;
      assert s == " as " + (alias.value + rest);
      assert s[4..] == alias.value + rest;
      BareSpans(alias.value, rest);
    } else {
      assert "" + rest == rest;
    }
  }

  function VerbOf(op: SourceOp): Verb {
    match op
    case Where(_) => WhereVerb
    case Select(_) => SelectVerb
    case Join(_, _, _) => JoinVerb
    case Distinct => DistinctVerb
    case GroupBy(_, _) => GroupByVerb
    case Union(_) => UnionVerb
  }

  function VerbArgs(op: SourceOp, v: Vocabulary): string {
    match op
    case Where(cond) => Print(cond, v)
    case Select(columns) => ItemsText(Items(columns, []))
    case Join(right, alias, on) => OnText(right, alias) + ", on = " + Print(on, v)
    case Distinct => ""
    case GroupBy(keys, aggs) => ItemsText(Items(keys, aggs))
    case Union(right) => right
  }

  lemma {:induction false} OpSplits(op: SourceOp, v: Vocabulary)
    ensures PrintOp(op, v) == "." + VerbText(VerbOf(op)) + "(" + VerbArgs(op, v) + ")"
  {
    match op {
      case Where(_) => assert ".where(" == "." + "where" + "(";
      case Select(_) => assert ".select(" == "." + "select" + "(";
      case Join(_, _, _) => assert ".join(" == "." + "join" + "(";
      case Distinct => assert ".distinct()" == "." + "distinct" + "(" + "" + ")";
      case GroupBy(_, _) => assert ".group_by(" == "." + "group_by" + "(";
      case Union(_) => assert ".union(" == "." + "union" + "(";
    }
  }

  lemma {:induction false} OpReads(op: SourceOp, rest: string, v: Vocabulary)
    requires WellNamedOp(op, v)
    ensures ReadOp(PrintOp(op, v) + rest, v) == Some((CanonOp(op, v), rest))
  {
    hide PrintOp, VerbArgs, VerbText, VerbOf, ReadOp, ReadApplied, CanonOp, WellNamedOp;
    var within := VerbArgs(op, v) + (")" + rest);
    OpSplits(op, v);
    assert PrintOp(op, v) + rest == "." + VerbText(VerbOf(op)) + "(" + within;
    VerbReads(VerbOf(op), within, v);
    AppliedReads(op, rest, v);
  }

  lemma {:induction false} AppliedReads(op: SourceOp, rest: string, v: Vocabulary)
    requires WellNamedOp(op, v)
    ensures ReadApplied(VerbOf(op), VerbArgs(op, v) + (")" + rest), v) == Some((CanonOp(op, v), rest))
  {
    match op {
      case Where(cond) => ConditionReads(cond, rest, v);
      case Select(columns) => ColumnsRead(columns, rest, v);
      case Join(_, _, _) => JoinArgsRead(op, rest, v);
      case Distinct => NothingReads(rest, v);
      case GroupBy(keys, aggs) => GroupsRead(keys, aggs, rest, v);
      case Union(right) => UnionReads(right, rest, v);
    }
  }

  /** The verbs over a list of items, that list read. */
  lemma {:induction false} ListedReads(s: string, items: seq<Item>, rest: string, v: Vocabulary)
    requires ReadItems(s) == Some((items, rest))
    ensures ReadApplied(SelectVerb, s, v) == Some((Select(KeysOf(items)), rest))
    ensures ReadApplied(GroupByVerb, s, v) == Some((GroupBy(KeysOf(items), AggsOf(items)), rest))
  {
    hide KeysOf, AggsOf, ReadItems, ReadJoin, ReadCondition;
  }

  lemma {:induction false} ColumnsRead(columns: seq<Column>, rest: string, v: Vocabulary)
    requires NamedGroups(columns, [])
    ensures ReadApplied(SelectVerb, ItemsText(Items(columns, [])) + (")" + rest), v) == Some((Select(columns), rest))
  {
    ItemsAreNamed(columns, [], rest);
    ItemsSort(columns, []);
    ListedReads(ItemsText(Items(columns, [])) + (")" + rest), Items(columns, []), rest, v);
  }

  lemma {:induction false} GroupsRead(keys: seq<Column>, aggs: seq<Aggregation>, rest: string, v: Vocabulary)
    requires NamedGroups(keys, aggs)
    ensures ReadApplied(GroupByVerb, ItemsText(Items(keys, aggs)) + (")" + rest), v)
        == Some((GroupBy(keys, aggs), rest))
  {
    ItemsAreNamed(keys, aggs, rest);
    ItemsSort(keys, aggs);
    ListedReads(ItemsText(Items(keys, aggs)) + (")" + rest), Items(keys, aggs), rest, v);
  }

  lemma {:induction false} NothingReads(rest: string, v: Vocabulary)
    ensures ReadApplied(DistinctVerb, "" + (")" + rest), v) == Some((Distinct, rest))
  {
    assert "" + (")" + rest) == ")" + rest;
    assert (")" + rest)[1..] == rest;
  }

  lemma {:induction false} UnionReads(right: string, rest: string, v: Vocabulary)
    requires IsBare(right)
    ensures ReadApplied(UnionVerb, right + (")" + rest), v) == Some((Union(right), rest))
  {
    BareSpans(right, ")" + rest);
    assert (")" + rest)[1..] == rest;
  }

  lemma {:induction false} JoinArgsRead(op: SourceOp, rest: string, v: Vocabulary)
    requires op.Join? && WellNamedOp(op, v)
    ensures ReadApplied(JoinVerb, VerbArgs(op, v) + (")" + rest), v) == Some((CanonOp(op, v), rest))
  {
    var alias := if op.alias.Some? then " as " + op.alias.value else "";
    var tail := ", on = " + (Print(op.on, v) + (")" + rest));
    AliasReads(op.alias, tail);
    OnReads(op.right, op.alias, op.on, rest, v);
    RightReads(op.right, alias + tail, v);
    JoinSplits(op.right, alias, Print(op.on, v), ")" + rest);
  }

  lemma {:induction false} RightReads(right: string, s: string, v: Vocabulary)
    requires IsBare(right) && (Starts(s, ' ') || Starts(s, ','))
    ensures ReadApplied(JoinVerb, right + s, v) == ReadOn(right, ReadAlias(s).0, ReadAlias(s).1, v)
  {
    BareSpans(right, s);
  }

  lemma {:induction false} JoinSplits(right: string, alias: string, on: string, rest: string)
    ensures right + alias + ", on = " + on + rest == right + (alias + (", on = " + (on + rest)))
  {
  }

  lemma {:induction false} OpsRead(ops: seq<SourceOp>, v: Vocabulary)
    requires forall op | op in ops :: WellNamedOp(op, v)
    ensures ReadOps(PrintOps(ops, v), v) == Some(CanonOps(ops, v))
  {
    if ops == [] {
    } else {
      OpReads(ops[0], PrintOps(ops[1..], v), v);
      OpsRead(ops[1..], v);
    }
  }

  lemma {:induction false} PipeReads(p: Pipe, v: Vocabulary)
    requires WellNamedPipe(p, v)
    ensures ReadPipe(PrintPipe(p, v), v) == Some(CanonPipe(p, v))
  {
    OpsRead(p.ops, v);
    BareSpans(p.base, PrintOps(p.ops, v));
  }

  // ------------------------------------------------------------------ the exact claim

  lemma {:induction false} CanonOpsPrint(ops: seq<SourceOp>, v: Vocabulary)
    ensures PrintOps(CanonOps(ops, v), v) == PrintOps(ops, v)
  {
    if ops == [] {
    } else {
      CanonOpsPrint(ops[1..], v);
      assert CanonOps(ops, v)[1..] == CanonOps(ops[1..], v);
      match ops[0] {
        case Where(cond) => Injective.CanonPrints(cond, v);
        case Join(_, _, on) => Injective.CanonPrints(on, v);
        case _ =>
      }
    }
  }

  /** Two well-named pipelines print alike exactly when they say the same. */
  lemma {:induction false} PipesPrintAlikeIffSaySame(p: Pipe, q: Pipe, v: Vocabulary)
    requires WellNamedPipe(p, v) && WellNamedPipe(q, v)
    ensures PrintPipe(p, v) == PrintPipe(q, v) <==> CanonPipe(p, v) == CanonPipe(q, v)
  {
    CanonOpsPrint(p.ops, v);
    CanonOpsPrint(q.ops, v);
    PipeReads(p, v);
    PipeReads(q, v);
  }

  ghost predicate SettledOp(op: SourceOp, v: Vocabulary) {
    match op
    case Where(cond) => Injective.Settled(cond, v)
    case Join(_, _, on) => Injective.Settled(on, v)
    case _ => true
  }

  lemma {:induction false} SettledOps(ops: seq<SourceOp>, v: Vocabulary)
    requires forall op | op in ops :: SettledOp(op, v)
    ensures CanonOps(ops, v) == ops
  {
    if ops == [] {
    } else {
      assert SettledOp(ops[0], v);
      match ops[0] {
        case Where(cond) => Injective.SettledSaysItself(cond, v);
        case Join(_, _, on) => Injective.SettledSaysItself(on, v);
        case _ =>
      }
      SettledOps(ops[1..], v);
    }
  }

  lemma {:induction false} PipesThatDifferPrintApart(p: Pipe, q: Pipe, v: Vocabulary)
    requires WellNamedPipe(p, v) && WellNamedPipe(q, v)
    requires forall op | op in p.ops + q.ops :: SettledOp(op, v)
    ensures p != q ==> PrintPipe(p, v) != PrintPipe(q, v)
  {
    SettledOps(p.ops, v);
    SettledOps(q.ops, v);
    PipesPrintAlikeIffSaySame(p, q, v);
  }

  /** A selected column stands unquoted, so one column whose name holds a comma prints as two, */
  lemma {:induction false} ColumnsPrintAlike(binding: string, a: string, b: string, v: Vocabulary)
    ensures PrintOp(Select([Column(binding, a + ", " + binding + "." + b)]), v)
            == PrintOp(Select([Column(binding, a), Column(binding, b)]), v)
  {
    var two := Items([Column(binding, a), Column(binding, b)], []);
    assert two[1..] == [Key(Column(binding, b))];
    assert ItemsText(two) == ItemText(two[0]) + ", " + ItemText(two[1]);
    assert binding + "." + (a + ", " + binding + "." + b) == binding + "." + a + ", " + (binding + "." + b);
  }

  /** and one stage whose column's name holds a closing parenthesis prints as two stages. */
  lemma {:induction false} StagesPrintAlike(binding: string, a: string, b: string, v: Vocabulary)
    ensures PrintOps([Select([Column(binding, a + ").select(" + binding + "." + b)])], v)
            == PrintOps([Select([Column(binding, a)]), Select([Column(binding, b)])], v)
  {
    hide PrintOp;
    var c, d := Select([Column(binding, a)]), Select([Column(binding, b)]);
    var whole := Select([Column(binding, a + ").select(" + binding + "." + b)]);
    StagePrints(c, [d], v);
    StagePrints(d, [], v);
    StagePrints(whole, [], v);
    SelectPrints(binding, a, v);
    SelectPrints(binding, b, v);
    SelectPrints(binding, a + ").select(" + binding + "." + b, v);
  }

  lemma {:induction false} StagePrints(op: SourceOp, more: seq<SourceOp>, v: Vocabulary)
    ensures PrintOps([op] + more, v) == PrintOp(op, v) + PrintOps(more, v)
    ensures PrintOps([op], v) == PrintOp(op, v)
  {
    hide PrintOp;
    assert ([op] + more)[1..] == more && [op][1..] == [];
    assert PrintOp(op, v) + "" == PrintOp(op, v);
  }

  lemma {:induction false} SelectPrints(binding: string, name: string, v: Vocabulary)
    ensures PrintOp(Select([Column(binding, name)]), v) == ".select(" + binding + "." + name + ")"
  {
    var items := Items([Column(binding, name)], []);
    assert items == [Key(Column(binding, name))] && ItemsText(items) == binding + "." + name;
  }
}
