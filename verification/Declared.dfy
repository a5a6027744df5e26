/** A declared field's type: how many values it holds, outermost, and then what one value is. Each count has
    one spelling. */
module Declared {
  import opened Common
  import opened Results
  import Decimal

  const OPTION: string := "Option"
  const SEQ: string := "Seq"
  const REF: string := "Ref"
  const U32_MAX: nat := 0xFFFF_FFFF

  /** A type as written: `Seq<String, 1, 3>` is a name, an argument and the numerals after it. */
  datatype TypeExpr = TypeExpr(name: Option<string>, argument: Option<TypeExpr>, bounds: seq<string>)

  datatype Occurs = Occurs(min: nat, max: Option<nat>)

  /** One value: a primitive, or a reference to a type by its IRI. */
  datatype Value = Primitive(p: int) | Reference(iri: string)

  datatype Failure =
    | TakesNoBounds | NeedsAType | CountedTwice | NotACount(text: string) | OneSpelling(said: string)
    | NoFieldCan(min: nat, max: nat) | NotANode | BareParameter | Unbound(name: string) | NotAValue(name: string)

  /** What the names of a program mean: the primitives, and the types it declares or imports. */
  datatype Program = Program(primitive: (string, Option<string>) -> Result<Option<int>, Failure>, families: set<string>,
      types: map<string, string>)

  const ONE: Occurs := Occurs(1, Some(1))

  function NameOf(te: TypeExpr): string {
    if te.name.Some? then te.name.value else ""
  }

  function FieldType(te: TypeExpr, program: Program): Result<(Occurs, Value), Failure> {
    if te.name == Some(OPTION) then
      if te.bounds != [] then Err(TakesNoBounds) else Counted(Occurs(0, Some(1)), te, program)
    else if te.name == Some(SEQ) then
      var occurs := SeqBounds(te.bounds);
      if occurs.Err? then Err(occurs.error) else Counted(occurs.value, te, program)
    else if te.bounds != [] then Err(TakesNoBounds)
    else WithCount(ONE, ValueType(te, program))
  }

  function WithCount(occurs: Occurs, value: Result<Value, Failure>): Result<(Occurs, Value), Failure> {
    if value.Err? then Err(value.error) else Ok((occurs, value.value))
  }

  /** A count of the argument's values, which say no count of their own. */
  function Counted(occurs: Occurs, te: TypeExpr, program: Program): Result<(Occurs, Value), Failure> {
    if te.argument.None? then Err(NeedsAType)
    else if IsCount(te.argument.value) then Err(CountedTwice)
    else WithCount(occurs, ValueType(te.argument.value, program))
  }

  predicate IsCount(te: TypeExpr) {
    te.name == Some(OPTION) || te.name == Some(SEQ)
  }

  function SeqBounds(texts: seq<string>): Result<Occurs, Failure> {
    var bounds := Numerals(texts);
    if bounds.Err? then Err(bounds.error)
    else if bounds.value == [] then Ok(Occurs(0, None))
    else
      var occurs := if |bounds.value| == 1 then Occurs(bounds.value[0], None)
          else Occurs(bounds.value[0], Some(bounds.value[1]));
      if occurs == Occurs(0, None) then Err(OneSpelling("Seq<T>"))
      else if occurs == Occurs(0, Some(1)) then Err(OneSpelling("Option<T>"))
      else if occurs == ONE then Err(OneSpelling("T"))
      else if occurs.max.Some? && (occurs.max.value == 0 || occurs.max.value < occurs.min)
        then Err(NoFieldCan(occurs.min, occurs.max.value))
      else Ok(occurs)
  }

  function Plain(text: string): string {
    if text == "" then "" else (if text[0] == '_' then "" else [text[0]]) + Plain(text[1..])
  }

  /** A numeral is read by value, whatever underscores group its digits. */
  function Numeral(text: string): Result<nat, Failure> {
    var digits := Plain(text);
    if digits == "" || !Decimal.AllDigits(digits) || Decimal.Value(digits) > U32_MAX then Err(NotACount(text))
    else Ok(Decimal.Value(digits))
  }

  function Numerals(texts: seq<string>): (r: Result<seq<nat>, Failure>)
    ensures r.Ok? ==> |r.value| == |texts|
  {
    if texts == [] then Ok([])
    else
      var n := Numeral(texts[0]);
      if n.Err? then Err(n.error)
      else
        var more := Numerals(texts[1..]);
        if more.Err? then more else Ok([n.value] + more.value)
  }

  function ValueType(te: TypeExpr, program: Program): Result<Value, Failure> {
    if NameOf(te) == REF then
      if te.argument.None? then Err(NeedsAType)
      else
        var target := te.argument.value;
        if target.argument.Some? || NameOf(target) in program.families
            || NameOf(target) in {OPTION, SEQ, REF} then Err(NotANode)
        else if NameOf(target) !in program.types then Err(Unbound(NameOf(target)))
        else Ok(Reference(program.types[NameOf(target)]))
    else
      var p := PrimitiveOf(te, program);
      if p.Err? then Err(p.error)
      else if p.value.Some? then Ok(Primitive(p.value.value))
      else Err(NotAValue(NameOf(te)))
  }

  function PrimitiveOf(te: TypeExpr, program: Program): Result<Option<int>, Failure> {
    if te.argument.Some? && (te.argument.value.argument.Some? || te.argument.value.bounds != []) then Err(BareParameter)
    else program.primitive(NameOf(te), if te.argument.Some? then Some(NameOf(te.argument.value)) else None)
  }

  /** Why a reference is refused, if it is: its target takes an argument itself, is not a name for a node, or
      names no type of the program. */
  function TargetRefused(target: TypeExpr, program: Program): Option<Failure> {
    var name := if target.name == None then "" else target.name.value;
    if target.argument != None then Some(NotANode)
    else if name == "Option" || name == "Seq" || name == "Ref" then Some(NotANode)
    else if name in program.families then Some(NotANode)
    else if name !in program.types then Some(Unbound(name))
    else None
  }

  /** A reference means the IRI of the type it names. */
  lemma {:induction false} ReferencesMeanTheirTypes(target: TypeExpr, bounds: seq<string>, program: Program)
    ensures ValueType(TypeExpr(Some("Ref"), None, bounds), program) == Err(NeedsAType)
    ensures var r := ValueType(TypeExpr(Some("Ref"), Some(target), bounds), program);
            match TargetRefused(target, program)
            case Some(failure) => r == Err(failure)
            case None => r == Ok(Reference(program.types[if target.name == None then "" else target.name.value]))
  {
  }

  /** And anything else the primitive its name and its parameter's name write; a parameter is a bare name. */
  lemma {:induction false} OthersMeanTheirPrimitives(
    name: string, parameter: Option<TypeExpr>, bounds: seq<string>, program: Program)
    requires name != "Ref"
    ensures var r := ValueType(TypeExpr(Some(name), parameter, bounds), program);
            if parameter != None && (parameter.value.argument != None || parameter.value.bounds != []) then
              r == Err(BareParameter)
            else
              var p := program.primitive(name, if parameter == None then None else
                         Some(if parameter.value.name == None then "" else parameter.value.name.value));
              if p.Err? then r == Err(p.error)
              else if p.value == None then r == Err(NotAValue(name))
              else r == Ok(Primitive(p.value.value))
  {
  }

  // ------------------------------------------------------------------ what is refused, and as what

  predicate SaysACount(te: TypeExpr) {
    te.name == Some("Option") || te.name == Some("Seq")
  }

  function Holding(o: Occurs, value: Result<Value, Failure>): Result<(Occurs, Value), Failure> {
    match value
    case Ok(v) => Ok((o, v))
    case Err(failure) => Err(failure)
  }

  /** A field type is one value, an optional one or a sequence; only a sequence takes bounds, both others need what
      they hold, and what they hold says no count of its own. */
  lemma {:induction false} FieldTypesAreCounts(te: TypeExpr, program: Program)
    ensures var t := FieldType(te, program);
            if te.name == Some("Option") then
              t == if te.bounds != [] then Err(TakesNoBounds)
                   else if te.argument == None then Err(NeedsAType)
                   else if SaysACount(te.argument.value) then Err(CountedTwice)
                   else Holding(Occurs(0, Some(1)), ValueType(te.argument.value, program))
            else if te.name == Some("Seq") then
              match SeqBounds(te.bounds)
              case Err(failure) => t == Err(failure)
              case Ok(o) =>
                t == if te.argument == None then Err(NeedsAType)
                     else if SaysACount(te.argument.value) then Err(CountedTwice)
                     else Holding(o, ValueType(te.argument.value, program))
            else
              t == if te.bounds != [] then Err(TakesNoBounds) else Holding(Occurs(1, Some(1)), ValueType(te, program))
  {
  }

  /** What a sequence's numerals say, and which shorter spelling is asked for where there is one. */
  lemma {:induction false} SeqBoundsSay(texts: seq<string>)
    ensures match Numerals(texts)
            case Err(failure) => SeqBounds(texts) == Err(failure)
            case Ok(ns) =>
              SeqBounds(texts)
              == if |ns| == 0 then Ok(Occurs(0, None))
                 else if |ns| == 1 then if ns[0] == 0 then Err(OneSpelling("Seq<T>")) else Ok(Occurs(ns[0], None))
                 else if ns[0] == 0 && ns[1] == 1 then Err(OneSpelling("Option<T>"))
                 else if ns[0] == 1 && ns[1] == 1 then Err(OneSpelling("T"))
                 else if ns[1] == 0 || ns[1] < ns[0] then Err(NoFieldCan(ns[0], ns[1]))
                 else Ok(Occurs(ns[0], Some(ns[1])))
  {
  }

  /** A numeral is some digits that a `u32` holds. */
  lemma {:induction false} NumeralsAreDigits(text: string)
    requires '_' !in text
    ensures Numeral(text) == if text != "" && (forall i | 0 <= i < |text| :: '0' <= text[i] <= '9')
                                && Decimal.Value(text) <= 4_294_967_295
                             then Ok(Decimal.Value(text)) else Err(NotACount(text))
  {
    NothingGrouped(text);
  }

  lemma {:induction false} NothingGrouped(s: string)
    requires '_' !in s
    ensures Plain(s) == s
  {
    if s == "" {
    } else {
      NothingGrouped(s[1..]);
      assert s == [s[0]] + s[1..];
    }
  }

  /** And an underscore anywhere in it changes nothing. */
  lemma {:induction false} UnderscoresGroup(before: string, after: string)
    ensures var grouped, plain := Numeral(before + "_" + after), Numeral(before + after);
            if plain.Ok? then grouped == plain else grouped == Err(NotACount(before + "_" + after))
  {
    PlainAppends(before, "_" + after);
    PlainAppends(before, after);
    assert ("_" + after)[1..] == after;
    assert before + "_" + after == before + ("_" + after);
    assert "" + Plain(after) == Plain(after);
  }

  lemma {:induction false} PlainAppends(a: string, b: string)
    ensures Plain(a + b) == Plain(a) + Plain(b)
  {
    if a == "" {
      assert a + b == b;
    } else {
      PlainAppends(a[1..], b);
      PlainStep(a);
      PlainStep(a + b);
      assert (a + b)[0] == a[0] && (a + b)[1..] == a[1..] + b;
      hide Plain;
      Reassociate(if a[0] == '_' then "" else [a[0]], Plain(a[1..]), Plain(b));
    }
  }

  lemma {:induction false} PlainStep(s: string)
    requires s != ""
    ensures Plain(s) == (if s[0] == '_' then "" else [s[0]]) + Plain(s[1..])
  {
  }

  lemma {:induction false} Reassociate(a: string, b: string, c: string)
    ensures a + (b + c) == a + b + c
  {
  }

  // ------------------------------------------------------------------ a count, spelled

  /** A count a field can hold. */
  predicate ValidCount(o: Occurs) {
    o.min <= U32_MAX && (o.max.Some? ==> 1 <= o.max.value <= U32_MAX && o.min <= o.max.value)
  }

  function Spelling(o: Occurs, held: TypeExpr): TypeExpr {
    if o == ONE then held
    else if o == Occurs(0, Some(1)) then TypeExpr(Some(OPTION), Some(held), [])
    else TypeExpr(Some(SEQ), Some(held),
           if o == Occurs(0, None) then []
           else if o.max.None? then [Decimal.Text(o.min)]
           else [Decimal.Text(o.min), Decimal.Text(o.max.value)])
  }

  /** What a field type is a count of. */
  function Held(te: TypeExpr): TypeExpr {
    if IsCount(te) && te.argument.Some? then te.argument.value else te
  }

  /** The same spelling, its numerals read by value. */
  predicate SameSpelling(a: TypeExpr, b: TypeExpr) {
    a.name == b.name && a.argument == b.argument && Numerals(a.bounds) == Numerals(b.bounds)
  }

  lemma {:induction false} PlainDigits(s: string)
    requires Decimal.AllDigits(s)
    ensures Plain(s) == s
  {
    if s == "" {
    } else {
      PlainDigits(s[1..]);
      assert s == [s[0]] + s[1..];
    }
  }

  lemma {:induction false} NumeralOf(n: nat)
    requires n <= U32_MAX
    ensures Numeral(Decimal.Text(n)) == Ok(n)
  {
    Decimal.TextReadsBack(n);
    PlainDigits(Decimal.Text(n));
  }

  lemma {:induction false} NumeralsOf(texts: seq<string>)
    requires |texts| <= 2
    ensures |texts| == 1 && Numeral(texts[0]).Ok? ==> Numerals(texts) == Ok([Numeral(texts[0]).value])
    ensures |texts| == 2 && Numeral(texts[0]).Ok? && Numeral(texts[1]).Ok? ==>
              Numerals(texts) == Ok([Numeral(texts[0]).value, Numeral(texts[1]).value])
  {
    if |texts| == 2 {
      NumeralsOf(texts[1..]);
      assert forall a: nat, b: nat :: [a] + [b] == [a, b];
    } else if |texts| == 1 {
      assert Numerals(texts[1..]) == Ok([]);
      assert forall a: nat :: [a] + [] == [a];
    }
  }

  lemma {:induction false} SpelledBounds(o: Occurs)
    requires ValidCount(o) && o != ONE && o != Occurs(0, Some(1))
    ensures SeqBounds(Spelling(o, TypeExpr(None, None, [])).bounds) == Ok(o)
  {
    NumeralOf(o.min);
    if o.max.Some? {
      NumeralOf(o.max.value);
      NumeralsOf([Decimal.Text(o.min), Decimal.Text(o.max.value)]);
    } else {
      NumeralsOf([Decimal.Text(o.min)]);
    }
  }

  /** Every count of every value has a spelling, and it is accepted as that. */
  lemma {:induction false} EveryCountIsSpelled(o: Occurs, held: TypeExpr, program: Program)
    requires ValidCount(o) && !IsCount(held) && held.bounds == []
    ensures FieldType(Spelling(o, held), program) == WithCount(o, ValueType(held, program))
  {
    if o != ONE && o != Occurs(0, Some(1)) {
      SpelledBounds(o);
      assert Spelling(o, held).bounds == Spelling(o, TypeExpr(None, None, [])).bounds;
    }
  }

  lemma {:induction false} NumeralsAreValid(texts: seq<string>)
    ensures Numerals(texts).Ok? ==> forall i | 0 <= i < |texts| :: Numerals(texts).value[i] <= U32_MAX
  {
    if texts == [] {
    } else {
      NumeralsAreValid(texts[1..]);
    }
  }

  /** And whatever is accepted is a count a field can hold, spelled as that count is. */
  lemma {:induction false} AcceptedIsSpelled(te: TypeExpr, program: Program)
    requires FieldType(te, program).Ok?
    ensures var (o, value) := FieldType(te, program).value;
            && ValidCount(o) && ValueType(Held(te), program) == Ok(value)
            && (|te.bounds| <= 2 ==> SameSpelling(te, Spelling(o, Held(te))))
  {
    var (o, value) := FieldType(te, program).value;
    if te.name == Some(SEQ) {
      NumeralsAreValid(te.bounds);
      SpelledBounds(o);
      var bounds := Numerals(te.bounds).value;
      if |te.bounds| <= 2 {
        SpelledNumerals(o, bounds, Held(te));
      }
    }
  }

  lemma {:induction false} SpelledNumerals(o: Occurs, bounds: seq<nat>, held: TypeExpr)
    requires ValidCount(o) && o != ONE && o != Occurs(0, Some(1)) && |bounds| <= 2
    requires o == if bounds == [] then Occurs(0, None)
                  else if |bounds| == 1 then Occurs(bounds[0], None)
                  else Occurs(bounds[0], Some(bounds[1]))
    requires |bounds| == 1 ==> bounds[0] != 0
    ensures Numerals(Spelling(o, held).bounds) == Ok(bounds)
  {
    assert |bounds| == 1 ==> bounds == [bounds[0]];
    assert |bounds| == 2 ==> bounds == [bounds[0], bounds[1]];
    NumeralOf(o.min);
    if o.max.Some? {
      NumeralOf(o.max.value);
      NumeralsOf([Decimal.Text(o.min), Decimal.Text(o.max.value)]);
    } else {
      NumeralsOf([Decimal.Text(o.min)]);
    }
  }

  /** The count is said the same: by no name, or by one name and numerals of the same values. */
  predicate SameCount(a: TypeExpr, b: TypeExpr) {
    IsCount(a) == IsCount(b) && (IsCount(a) ==> a.name == b.name && Numerals(a.bounds) == Numerals(b.bounds))
  }

  /** The value is said the same: by one name, and one name for its argument. */
  predicate SameHeld(a: TypeExpr, b: TypeExpr) {
    NameOf(a) == NameOf(b) && a.argument.Some? == b.argument.Some?
    && (a.argument.Some? ==> NameOf(a.argument.value) == NameOf(b.argument.value))
  }

  /** No two accepted spellings mean the same count of the same value: what differs in the count's own name or
      numerals differs in the count. The parser hands over at most two bounds. */
  lemma {:induction false} OneSpellingPerCount(a: TypeExpr, b: TypeExpr, program: Program)
    requires FieldType(a, program).Ok? && FieldType(b, program).Ok?
    requires |a.bounds| <= 2 && |b.bounds| <= 2
    ensures FieldType(a, program) == FieldType(b, program)
            <==> SameCount(a, b) && ValueType(Held(a), program) == ValueType(Held(b), program)
  {
    AcceptedIsSpelled(a, program);
    AcceptedIsSpelled(b, program);
    var (o, p) := (FieldType(a, program).value.0, FieldType(b, program).value.0);
    if o == p {
      SpelledAlike(o, Held(a), Held(b));
    }
    if SameCount(a, b) && a.name == Some(SEQ) {
      BoundsByValue(a.bounds, b.bounds);
    }
  }

  lemma {:induction false} SpelledAlike(o: Occurs, x: TypeExpr, y: TypeExpr)
    ensures o == ONE || SameCount(Spelling(o, x), Spelling(o, y))
  {
  }

  lemma {:induction false} BoundsByValue(a: seq<string>, b: seq<string>)
    requires Numerals(a) == Numerals(b)
    ensures SeqBounds(a) == SeqBounds(b)
  {
  }

  /** No two names mean one type, and no two one primitive. */
  ghost predicate NamesApart(program: Program) {
    && (forall m, n | m in program.types && n in program.types && program.types[m] == program.types[n] :: m == n)
    && forall m, p, n, q | program.primitive(m, p) == program.primitive(n, q)
                           && program.primitive(m, p).Ok? && program.primitive(m, p).value.Some? :: m == n && p == q
  }

  /** And where no two names mean one thing, a value has one spelling too, up to bounds nobody reads. */
  lemma {:induction false} OneSpellingPerValue(x: TypeExpr, y: TypeExpr, program: Program)
    requires NamesApart(program) && ValueType(x, program).Ok? && ValueType(y, program).Ok?
    ensures ValueType(x, program) == ValueType(y, program) <==> SameHeld(x, y)
  {
    var p := if x.argument.Some? then Some(NameOf(x.argument.value)) else None;
    var q := if y.argument.Some? then Some(NameOf(y.argument.value)) else None;
    if ValueType(x, program) == ValueType(y, program) && ValueType(x, program).value.Primitive? {
      assert program.primitive(NameOf(x), p) == program.primitive(NameOf(y), q);
    }
  }

  /** Together: two accepted types are one count of one value exactly when they are spelled alike, the bounds
      of what is held aside. */
  lemma {:induction false} OneSpellingPerType(a: TypeExpr, b: TypeExpr, program: Program)
    requires FieldType(a, program).Ok? && FieldType(b, program).Ok?
    requires |a.bounds| <= 2 && |b.bounds| <= 2 && NamesApart(program)
    ensures FieldType(a, program) == FieldType(b, program) <==> SameCount(a, b) && SameHeld(Held(a), Held(b))
  {
    AcceptedIsSpelled(a, program);
    AcceptedIsSpelled(b, program);
    OneSpellingPerCount(a, b, program);
    OneSpellingPerValue(Held(a), Held(b), program);
  }

  /** A `Seq` is accepted exactly when its numerals are counts, and the count they say is one a field can hold
      that nothing shorter says. */
  lemma {:induction false} SeqAccepts(texts: seq<string>)
    ensures SeqBounds(texts).Ok? <==>
              && Numerals(texts).Ok?
              && var ns := Numerals(texts).value;
                 && (|ns| == 1 ==> ns[0] != 0)
                 && (|ns| >= 2 ==> ns[1] != 0 && ns[0] <= ns[1] && !(ns[0] <= 1 && ns[1] == 1))
  {
  }

  /** Of `seq_bounds` alone: past the second bound nothing is read but that it is a numeral. */
  lemma {:induction false} ThirdBoundIsIgnored(min: string, max: string, more: seq<string>)
    requires Numerals([min, max] + more).Ok?
    ensures SeqBounds([min, max] + more) == SeqBounds([min, max])
  {
    var texts := [min, max] + more;
    assert texts[0] == min && texts[1..][0] == max && texts[1..][1..] == more;
    assert [min, max][1..] == [max] && [max][1..] == [];
    NumeralsOf([min, max]);
    assert Numerals(texts).value[..2] == [Numeral(min).value, Numeral(max).value];
  }

  /** Bounds on what is held are not read, whatever it is: there one count of one value has other spellings. */
  lemma {:induction false} HeldBoundsAreIgnored(held: TypeExpr, bounds: seq<string>, te: TypeExpr, program: Program)
    requires IsCount(te) && te.argument == Some(held)
    ensures FieldType(te.(argument := Some(held.(bounds := bounds))), program) == FieldType(te, program)
  {
    assert ValueType(held.(bounds := bounds), program) == ValueType(held, program);
  }
}
