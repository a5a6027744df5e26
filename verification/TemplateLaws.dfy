/** The reader takes in every template of the grammar as it was meant, whatever its writer chose: read, it gives its
    meaning, and fails exactly where and as that fails. */
module TemplateLaws {
  import opened Common
  import opened Results
  import opened Template
  import opened TemplateGrammar
  import Decimal
  import Spans

  // ------------------------------------------------------------------ white space and keywords

  lemma {:induction false} GapTrims(gap: string, s: string)
    requires Spaces(gap)
    ensures Trimmed(gap + s) == Trimmed(s)
    ensures s == "" || !IsSpace(s[0]) ==> Trimmed(gap + s) == s
  {
    var n := Spans.Span(s, IsSpace);
    var run := gap + s[..n];
    assert run + s[n..] == gap + s;
    Spans.SpanOf(run, s[n..], IsSpace);
    if s == "" || !IsSpace(s[0]) {
      TrimmedStands(s);
    }
  }

  lemma {:induction false} CharStands(gap: string, c: char, one: string, rest: string)
    requires Spaces(gap) && one == [c] && !IsSpace(c)
    ensures var s := gap + (one + rest);
            AtChar(c, s) && PastChar(c, s) == rest && Trimmed(s) == one + rest && forall d | d != c :: !AtChar(d, s)
  {
    hide Spans.Span, Trimmed;
    assert (one + rest)[0] == c && (one + rest)[1..] == rest;
    GapTrims(gap, one + rest);
  }

  predicate IsKeyword(kw: string) {
    kw != "" && forall i | 0 <= i < |kw| :: 'A' <= kw[i] <= 'Z'
  }

  lemma {:induction false} SpellsIsSameWord(letters: string, kw: string)
    requires IsKeyword(kw)
    ensures Spells(letters, kw) <==> SameWord(letters, kw)
  {
    if |letters| == |kw| {
      forall i | 0 <= i < |kw|
        ensures Lower(letters[i]) == Lower(kw[i])
                <==> letters[i] == kw[i] || letters[i] as int == kw[i] as int + 32
      {
      }
    }
  }

  lemma {:induction false} WordStands(w: Word, kw: string, next: string, env: Env)
    requires IsKeyword(kw) && IsWord(w, kw, next, env)
    ensures var s := Spelled(w, next);
            Trimmed(s) == w.letters + next && AtKeyword(kw, s, env) && PastKeyword(kw, s, env) == next
    ensures AtKeyword(kw, w.letters + next, env) && PastKeyword(kw, w.letters + next, env) == next
    ensures w.letters != "" && (w.letters + next)[0] == w.letters[0] && IsAlpha(w.letters[0])
  {
    hide Spans.Span, Trimmed, SameWord;
    var s := w.letters + next;
    assert s[0] == w.letters[0] && s[..|kw|] == w.letters && s[|kw|..] == next;
    SpellsIsSameWord(w.letters, kw);
    GapTrims(w.gap, s);
    TrimmedStands(s);
  }

  lemma {:induction false} NotThatKeyword(kw: string, s: string, env: Env)
    requires IsKeyword(kw) && (Trimmed(s) == "" || Lower(Trimmed(s)[0]) != Lower(kw[0]))
    ensures !AtKeyword(kw, s, env) && !AtKeyword(kw, Trimmed(s), env)
  {
    hide Spans.Span, Trimmed;
    TrimmedOnce(s);
    var t := Trimmed(s);
    if |kw| <= |t| {
      assert t[..|kw|][0] == t[0];
    }
  }

  // ------------------------------------------------------------------ what ends an expression

  /** Neither `||` nor `IS` stands here. */
  predicate Stops(rest: string, env: Env) {
    !StartsTwice(Trimmed(rest), '|') && !AtKeyword("IS", Trimmed(rest), env)
  }

  predicate Ends(rest: string, env: Env) {
    Stops(rest, env) && !AtKeyword("OR", Trimmed(rest), env)
  }

  /** An expression ends where the template does, and where a parenthesis closes or a comma stands. */
  lemma {:induction false} ClosesEnds(gap: string, rest: string, env: Env)
    requires Spaces(gap) && (rest == "" || rest[0] == ')' || rest[0] == ',')
    ensures Ends(gap + rest, env) && Trimmed(gap + rest) == rest
  {
    hide Spans.Span, Trimmed;
    GapTrims(gap, rest);
    NotThatKeyword("IS", gap + rest, env);
    NotThatKeyword("OR", gap + rest, env);
  }

  /** And where a word stands that is neither `IS` nor `OR`. */
  lemma {:induction false} WordEnds(w: Word, kw: string, next: string, env: Env)
    requires IsKeyword(kw) && IsWord(w, kw, next, env) && kw[0] != 'I'
    ensures Trimmed(Spelled(w, next)) == w.letters + next
    ensures Stops(Spelled(w, next), env) && (kw[0] != 'O' ==> Ends(Spelled(w, next), env))
  {
    hide Spans.Span, Trimmed;
    WordStands(w, kw, next, env);
    SpellsIsSameWord(w.letters, kw);
    assert Lower(w.letters[0]) == Lower(kw[0]);
    NotThatKeyword("IS", Spelled(w, next), env);
    if kw[0] != 'O' {
      NotThatKeyword("OR", Spelled(w, next), env);
    }
  }

  // ------------------------------------------------------------------ what has been read, and then what is left

  function Then(r: Result<Shape, Failure>, rest: string): Read<Shape> {
    if r.Ok? then Ok((r.value, rest)) else Err(r.error)
  }

  /** The chain goes on from what has been read. */
  function OnConcat(r: Result<Shape, Failure>, rest: string, env: Env): Read<Shape> {
    if r.Ok? then ConcatTail(r.value, rest, env) else Err(r.error)
  }

  function OnOr(r: Result<Shape, Failure>, rest: string, env: Env): Read<Shape> {
    if r.Ok? then OrTail(r.value, rest, env) else Err(r.error)
  }

  lemma {:induction false} ConcatEnds(r: Result<Shape, Failure>, rest: string, env: Env)
    requires Stops(rest, env)
    ensures OnConcat(r, rest, env) == Then(r, Trimmed(rest))
  {
    hide Spans.Span, Trimmed;
    if r.Ok? {
      assert TurnAt(r.value, Trimmed(rest), env).None?;
      assert ConcatTurn(r.value, rest, env).None?;
    }
  }

  lemma {:induction false} OrEnds(r: Result<Shape, Failure>, rest: string, env: Env)
    requires Ends(rest, env)
    ensures OnOr(r, Trimmed(rest), env) == Then(r, Trimmed(rest))
  {
    hide Spans.Span, Trimmed;
    TrimmedOnce(rest);
  }

  // ------------------------------------------------------------------ a value

  lemma {:induction false} ValueStands(gap: string, s: string, env: Env)
    requires Spaces(gap) && s != "" && !IsSpace(s[0])
    ensures ReadPrimary(gap + s, env) == ValueAt(s, env)
  {
    hide Spans.Span, Trimmed;
    GapTrims(gap, s);
  }

  lemma {:induction false} HoleReads(gap: string, digits: string, rest: string, env: Env)
    requires Spaces(gap) && IsNumeral(digits, rest)
    ensures ReadPrimary(gap + ("%" + (digits + rest)), env) == Then(Argument(Decimal.Value(digits), env.args), rest)
  {
    hide Spans.Span, Trimmed;
    var s := "%" + (digits + rest);
    ValueStands(gap, s, env);
    Spans.SpanOf(digits, rest, Decimal.IsDigit);
    assert s[1..] == digits + rest;
    assert ValueAt(s, env) == ReadHole(s, env.args);
  }

  lemma {:induction false} NumberReads(gap: string, digits: string, rest: string, env: Env)
    requires Spaces(gap) && IsNumeral(digits, rest)
    ensures ReadPrimary(gap + (digits + rest), env) == Then(Meaning(NumberAt(gap, digits), env), rest)
  {
    hide Spans.Span, Trimmed;
    var s := digits + rest;
    assert s[0] == digits[0];
    ValueStands(gap, s, env);
    Spans.SpanOf(digits, rest, Decimal.IsDigit);
    assert ValueAt(s, env) == ReadNumber(s);
  }

  lemma {:induction false} DoubledReads(t: string, rest: string)
    requires !Starts(rest, '\'')
    ensures ReadText(Doubled(t) + ("'" + rest)) == Ok((TextLit(t), rest))
  {
    var s := Doubled(t) + ("'" + rest);
    if t == "" {
      assert s == "'" + rest;
    } else {
      DoubledReads(t[1..], rest);
      var more := Doubled(t[1..]) + ("'" + rest);
      var one := if t[0] == '\'' then "''" else [t[0]];
      assert s == one + more;
      CharReads(t[0], one, more, TextLit(t[1..]), rest);
      assert [t[0]] + t[1..] == t;
    }
  }

  lemma {:induction false} CharReads(c: char, one: string, more: string, tail: Shape, rest: string)
    requires tail.TextLit? && ReadText(more) == Ok((tail, rest)) && one == if c == '\'' then "''" else [c]
    ensures ReadText(one + more) == Ok((TextLit([c] + tail.text), rest))
  {
    var s := one + more;
    assert s[|one|..] == more;
  }

  lemma {:induction false} TextReads(gap: string, t: string, rest: string, env: Env)
    requires Spaces(gap) && !Starts(rest, '\'')
    ensures ReadPrimary(gap + ("'" + (Doubled(t) + ("'" + rest))), env) == Ok((TextLit(t), rest))
  {
    hide Spans.Span, Trimmed;
    var s := "'" + (Doubled(t) + ("'" + rest));
    ValueStands(gap, s, env);
    assert s[1..] == Doubled(t) + ("'" + rest);
    DoubledReads(t, rest);
    assert ValueAt(s, env) == ReadText(s[1..]);
  }

  lemma {:induction false} GroupReads(
    gap: string, s: string, r: Result<Shape, Failure>, rest: string, env: Env)
    requires Spaces(gap) && ReadExpr(s, env) == Then(r, ")" + rest)
    ensures ReadPrimary(gap + ("(" + s), env) == Then(r, rest)
  {
    hide Spans.Span, Trimmed;
    var t := "(" + s;
    ValueStands(gap, t, env);
    assert t[1..] == s;
    assert ValueAt(t, env) == Closed(Then(r, ")" + rest));
    CharStands("", ')', ")", rest);
    assert "" + (")" + rest) == ")" + rest;
  }

  // ------------------------------------------------------------------ casts

  lemma {:induction false} WordDecides(gap: string, s: string, env: Env)
    requires Spaces(gap) && s != "" && (env.letter(s[0]) || s[0] == '_')
    ensures ReadPrimary(gap + s, env) == WordAt(s, env)
  {
    hide Spans.Span, Trimmed;
    ValueStands(gap, s, env);
    assert ValueAt(s, env) == WordAt(s, env);
  }

  lemma {:induction false} CastBegins(w: Word, next: string, env: Env)
    requires IsWord(w, "CAST", next, env)
    ensures ReadPrimary(Spelled(w, next), env) == ReadCast(next, env)
  {
    hide Spans.Span, Trimmed;
    WordStands(w, "CAST", next, env);
    WordDecides(w.gap, w.letters + next, env);
  }

  lemma {:induction false} CaseBegins(w: Word, next: string, env: Env)
    requires IsWord(w, "CASE", next, env)
    ensures ReadPrimary(Spelled(w, next), env) == ReadCase(next, env)
  {
    hide Spans.Span, Trimmed;
    WordStands(w, "CASE", next, env);
    WordDecides(w.gap, w.letters + next, env);
    var s := w.letters + next;
    TrimmedStands(s);
    assert s[..4] == w.letters && s[..4][3] == w.letters[3];
    assert Lower(w.letters[3]) != Lower("CAST"[3]);
    assert !SameWord(s[..4], "CAST");
  }

  lemma {:induction false} TypeSpans(ty: string, rest: string, depth: nat)
    requires Balanced(ty, depth)
    ensures TypeSpan(ty + (")" + rest), 0 + depth) == |ty|
  {
    var s := ty + (")" + rest);
    if ty == "" {
    } else {
      assert s[1..] == ty[1..] + (")" + rest);
      TypeSpans(ty[1..], rest, if ty[0] == '(' then depth + 1 else if ty[0] == ')' then depth - 1 else depth);
    }
  }

  lemma {:induction false} SpacesBalance(ty: string, after: string, depth: nat)
    requires Spaces(after)
    ensures Balanced(ty + after, depth) <==> Balanced(ty, depth)
  {
    if ty != "" {
      assert (ty + after)[1..] == ty[1..] + after;
      SpacesBalance(ty[1..], after, if ty[0] == '(' then depth + 1
                                    else if ty[0] == ')' && depth > 0 then depth - 1 else depth);
    } else if after == "" {
    } else {
      assert (ty + after)[1..] == ty + after[1..];
      SpacesBalance(ty, after[1..], depth);
    }
  }

  lemma {:induction false} SpacesTrim(ty: string, after: string)
    requires Spaces(after) && (ty != "" ==> !IsSpace(ty[|ty| - 1]))
    ensures TrimEnd(ty + after) == ty
  {
    if after == "" {
      assert ty + after == ty;
    } else {
      var s := ty + after;
      assert s[|s| - 1] == after[|after| - 1] && s[..|s| - 1] == ty + after[..|after| - 1];
      SpacesTrim(ty, after[..|after| - 1]);
    }
  }

  lemma {:induction false} TypeCloses(inner: Shape, raw: string, rest: string)
    requires TypeSpan(raw + (")" + rest), 0) == |raw|
    ensures ReadType(inner, raw + (")" + rest)) == Then(CastMeans(Ok(inner), Trim(raw)), rest)
  {
    hide Spans.Span, Trimmed, Trim, CastMeans, CastTarget, TypeSpan;
    var s := raw + (")" + rest);
    assert s[..|raw|] == raw && s[|raw|..] == ")" + rest;
    CharStands("", ')', ")", rest);
    assert "" + (")" + rest) == ")" + rest;
    TypeIsMapped(inner, Trim(raw));
  }

  /** The type and the white space behind it; the white space before it is skipped already. */
  lemma {:induction false} TypeReads(inner: Shape, ty: string, after: string, rest: string)
    requires IsType(ty) && Spaces(after) && (ty == "" ==> after == "")
    ensures ReadType(inner, ty + (after + (")" + rest))) == Then(CastMeans(Ok(inner), ty), rest)
  {
    hide Spans.Span, Trimmed, ReadType, CastMeans, TypeSpan, TrimEnd, Balanced;
    var raw := ty + after;
    assert raw + (")" + rest) == ty + (after + (")" + rest));
    SpacesBalance(ty, after, 0);
    TypeSpans(raw, rest, 0);
    TypeCloses(inner, raw, rest);
    TrimmedStands(raw);
    SpacesTrim(ty, after);
  }

  lemma {:induction false} TypeIsMapped(inner: Shape, ty: string)
    ensures CastMeans(Ok(inner), ty)
            == if CastTarget(ty).None? then Err(NotMapped(ty)) else Ok(CastTo(inner, CastTarget(ty).value))
  {
    assert "DECIMAL" <= ty <==> |ty| >= 7 && ty[..7] == "DECIMAL";
  }

  lemma {:induction false} SpacedTypeReads(inner: Shape, before: string, ty: string, after: string, rest: string)
    requires Spaces(before) && IsType(ty) && Spaces(after)
    ensures ReadType(inner, Trimmed(before + (ty + (after + (")" + rest))))) == Then(CastMeans(Ok(inner), ty), rest)
  {
    hide Spans.Span, Trimmed;
    var end := ")" + rest;
    if ty == "" {
      assert "" + (after + end) == after + end && "" + end == end;
      assert before + (ty + (after + end)) == (before + after) + end;
      GapTrims(before + after, end);
      TypeReads(inner, "", "", rest);
    } else {
      assert (ty + (after + end))[0] == ty[0];
      GapTrims(before, ty + (after + end));
      TypeReads(inner, ty, after, rest);
    }
  }

  lemma {:induction false} CastGoesOn(
    open: string, body: string, inner: Result<Shape, Failure>, as_: Word,
    before: string, ty: string, after: string, rest: string, env: Env)
    requires Spaces(open) && Spaces(before) && IsType(ty) && Spaces(after)
    requires IsWord(as_, "AS", before + (ty + (after + (")" + rest))), env)
    requires ReadExpr(body, env) == Then(inner, as_.letters + (before + (ty + (after + (")" + rest)))))
    ensures ReadCast(open + ("(" + body), env) == Then(CastMeans(inner, ty), rest)
  {
    hide Spans.Span, Trimmed, AtKeyword, PastKeyword, CastMeans, ReadType;
    var tail := before + (ty + (after + (")" + rest)));
    CharStands(open, '(', "(", body);
    WordStands(as_, "AS", tail, env);
    if inner.Ok? {
      SpacedTypeReads(inner.value, before, ty, after, rest);
    } else {
      CastFails(inner, ty);
    }
  }

  lemma {:induction false} CastFails(inner: Result<Shape, Failure>, ty: string)
    requires inner.Err?
    ensures CastMeans(inner, ty) == inner
  {
  }

  // ------------------------------------------------------------------ conditionals

  lemma {:induction false} AfterReads(w: Word, kw: string, s: string, env: Env)
    requires IsKeyword(kw) && IsWord(w, kw, s, env)
    ensures ReadAfter(kw, Spelled(w, s), env) == ReadExpr(s, env)
    ensures ReadAfter(kw, w.letters + s, env) == ReadExpr(s, env)
  {
    hide Spans.Span, Trimmed, AtKeyword, PastKeyword;
    WordStands(w, kw, s, env);
  }

  lemma {:induction false} CaseGoesOn(
    when: Word, a: string, w: Result<Shape, Failure>, then_: Word, b: string, t: Result<Shape, Failure>,
    else_: Word, c: string, o: Result<Shape, Failure>, end: Word, rest: string, env: Env)
    requires IsWord(when, "WHEN", a, env) && IsWord(then_, "THEN", b, env)
    requires IsWord(else_, "ELSE", c, env) && IsWord(end, "END", rest, env)
    requires ReadExpr(a, env) == Then(w, then_.letters + b)
    requires ReadExpr(b, env) == Then(t, else_.letters + c)
    requires ReadExpr(c, env) == Then(o, end.letters + rest)
    ensures ReadCase(Spelled(when, a), env) == Then(CaseMeans(w, t, o, env), rest)
  {
    hide Spans.Span, Trimmed, AtKeyword, PastKeyword, ReadAfter;
    AfterReads(when, "WHEN", a, env);
    AfterReads(then_, "THEN", b, env);
    AfterReads(else_, "ELSE", c, env);
    WordStands(end, "END", rest, env);
  }

  // ------------------------------------------------------------------ calls

  /** A call's name is not one of the two keywords. */
  lemma {:induction false} NameIsNoKeyword(name: string, kw: string, rest: string, env: Env)
    requires IsName(name, env) && IsKeyword(kw) && !Spells(name, kw) && Apart(rest, env)
    ensures !AtKeyword(kw, name + rest, env) && Trimmed(name + rest) == name + rest
  {
    hide Spans.Span, Trimmed;
    var s := name + rest;
    assert s[0] == name[0];
    TrimmedStands(s);
    if |kw| < |name| {
      assert s[|kw|] == name[|kw|] && WordChars(env)(s[|kw|]);
    } else if |kw| == |name| {
      assert s[..|kw|] == name;
      SpellsIsSameWord(name, kw);
    } else if |kw| <= |s| {
      assert s[..|kw|][|name|] == rest[0];
      assert IsAlpha(kw[|name|]) && !IsAlpha(rest[0]);
    }
  }

  lemma {:induction false} OpensApart(open: string, given: string, env: Env)
    requires Spaces(open)
    ensures Apart(open + ("(" + given), env)
  {
    var s := open + ("(" + given);
    assert s[0] == if open == "" then '(' else open[0];
  }

  lemma {:induction false} CallBegins(gap: string, name: string, open: string, given: string, env: Env)
    requires Spaces(gap) && IsName(name, env) && Spaces(open)
    ensures ReadPrimary(gap + (name + (open + ("(" + given))), env)
            == var g := ReadGiven(name, given, env);
               if g.Err? then Err(g.error) else Applied(name, g.value.0, g.value.1, env)
  {
    hide Spans.Span, Trimmed, AtKeyword, Spells, Apart;
    var tail := open + ("(" + given);
    var s := name + tail;
    OpensApart(open, given, env);
    NameIsNoKeyword(name, "CAST", tail, env);
    NameIsNoKeyword(name, "CASE", tail, env);
    assert s[0] == name[0];
    WordDecides(gap, s, env);
    NameSpans(name, tail, env);
    CharStands(open, '(', "(", given);
    assert WordAt(s, env) == ReadCall(name, tail, env);
  }

  lemma {:induction false} NameSpans(name: string, tail: string, env: Env)
    requires IsName(name, env) && Apart(tail, env)
    ensures var s := name + tail; var n := Spans.Span(s, WordChars(env)); s[..n] == name && s[n..] == tail
  {
    Spans.SpanOf(name, tail, WordChars(env));
  }

  function ThenAll(r: Result<seq<Shape>, Failure>, rest: string): Read<seq<Shape>> {
    if r.Ok? then Ok((r.value, rest)) else Err(r.error)
  }

  lemma {:induction false} CallGoesOn(
    name: string, given: string, r: Result<seq<Shape>, Failure>, rest: string, env: Env)
    requires ReadGiven(name, given, env) == ThenAll(r, rest)
    ensures var g := ReadGiven(name, given, env);
            (if g.Err? then Err(g.error) else Applied(name, g.value.0, g.value.1, env))
            == Then(CallMeans(name, r, env), rest)
  {
  }

  // ------------------------------------------------------------------ the chains

  lemma {:induction false} BarsGoOn(
    l: Result<Shape, Failure>, gap: string, second: string, r: Result<Shape, Failure>, rest: string, env: Env)
    requires Spaces(gap) && ReadPrimary(second, env) == Then(r, rest)
    ensures OnConcat(l, gap + ("||" + second), env) == OnConcat(Both(l, r, (x, y) => Concat(x, y)), rest, env)
  {
    hide Spans.Span, Trimmed;
    var tail := "||" + second;
    GapTrims(gap, tail);
    assert tail[2..] == second;
    if l.Ok? {
      var turn := ReadJoined(l.value, second, env);
      assert ConcatTurn(l.value, gap + tail, env) == Some(turn);
      assert turn == if r.Ok? then Ok((Concat(l.value, r.value), rest)) else Err(r.error);
    }
  }

  lemma {:induction false} TestReads(e: Shape, not: Option<Word>, null_: Word, rest: string, env: Env)
    requires not.Some? ==> IsWord(not.value, "NOT", Spelled(null_, rest), env)
    requires IsWord(null_, "NULL", rest, env)
    ensures ReadTest(e, WriteTest(not, null_, rest), env) == Then(TestMeans(Ok(e), not.Some?), rest)
  {
    hide Spans.Span, Trimmed, AtKeyword, PastKeyword;
    WordStands(null_, "NULL", rest, env);
    if not.Some? {
      WordStands(not.value, "NOT", Spelled(null_, rest), env);
    } else {
      NullIsNotNot(null_, rest, env);
    }
  }

  lemma {:induction false} NullIsNotNot(w: Word, rest: string, env: Env)
    requires IsWord(w, "NULL", rest, env)
    ensures !AtKeyword("NOT", Spelled(w, rest), env)
  {
    hide Spans.Span, Trimmed;
    WordStands(w, "NULL", rest, env);
    var s := w.letters + rest;
    assert s[..3][1] == w.letters[1] && Lower(w.letters[1]) != Lower("NOT"[1]);
    assert !SameWord(s[..3], "NOT");
  }

  lemma {:induction false} TestGoesOn(
    e: Result<Shape, Failure>, is_: Word, not: Option<Word>, null_: Word, rest: string, env: Env)
    requires IsWord(is_, "IS", WriteTest(not, null_, rest), env)
    requires not.Some? ==> IsWord(not.value, "NOT", Spelled(null_, rest), env)
    requires IsWord(null_, "NULL", rest, env)
    ensures OnConcat(e, Spelled(is_, WriteTest(not, null_, rest)), env)
            == OnConcat(TestMeans(e, not.Some?), rest, env)
  {
    hide Spans.Span, Trimmed, AtKeyword, PastKeyword, ReadTest, WriteTest, IsWord;
    var words := WriteTest(not, null_, rest);
    var tail := Spelled(is_, words);
    WordStands(is_, "IS", words, env);
    if e.Ok? {
      TestReads(e.value, not, null_, rest, env);
      assert !StartsTwice(Trimmed(tail), '|');
      assert ConcatTurn(e.value, tail, env) == Some(ReadTest(e.value, words, env));
    }
  }

  lemma {:induction false} OrGoesOn(
    l: Result<Shape, Failure>, or: Word, second: string, r: Result<Shape, Failure>, rest: string, env: Env)
    requires IsWord(or, "OR", second, env) && ReadConcat(second, env) == Then(r, Trimmed(rest))
    ensures OnOr(l, or.letters + second, env) == OnOr(Both(l, r, (x, y) => Shape.Or(x, y)), Trimmed(rest), env)
  {
    hide Spans.Span, Trimmed, AtKeyword, PastKeyword;
    WordStands(or, "OR", second, env);
  }

  // ------------------------------------------------------------------ every template of the grammar is read

  /** No argument begins with the closing parenthesis. */
  lemma {:induction false} WriteBegins(t: Tree, rest: string, env: Env)
    requires Fits(t, rest, env)
    ensures var s := Trimmed(Write(t, rest)); s != "" && s[0] != ')'
    decreases t
  {
    hide Spans.Span, Trimmed, AtKeyword, PastKeyword, Spells, Doubled, WriteArgs, WriteTest, FitArgs, IsWord;
    match t {
      case HoleAt(gap, digits) => GapTrims(gap, "%" + (digits + rest));
      case TextAt(gap, text) => GapTrims(gap, "'" + (Doubled(text) + ("'" + rest)));
      case NumberAt(gap, digits) =>
        assert (digits + rest)[0] == digits[0];
        GapTrims(gap, digits + rest);
      case Group(gap, inner, close) => GapTrims(gap, "(" + Write(inner, close + (")" + rest)));
      case CastOf(cast, open, inner, as_, before, ty, after) =>
        WordStands(cast, "CAST",
          open + ("(" + Write(inner, Spelled(as_, before + (ty + (after + (")" + rest)))))), env);
      case CaseOf(case_, when, test, then_, first, else_, second, end) =>
        var c := Write(second, Spelled(end, rest));
        var b := Write(first, Spelled(else_, c));
        var next := Spelled(when, Write(test, Spelled(then_, b)));
        WordStands(case_, "CASE", next, env);
        assert Write(t, rest) == Spelled(case_, next);
      case CallOf(gap, name, open, args) => NameBegins(gap, name, open + ("(" + WriteArgs(args, rest)), env);
      case Joined(l, gap, r) => WriteBegins(l, gap + ("||" + Write(r, rest)), env);
      case Tested(inner, is_, not, null_) => WriteBegins(inner, Spelled(is_, WriteTest(not, null_, rest)), env);
      case Either(l, or, r) => WriteBegins(l, Spelled(or, Write(r, rest)), env);
    }
  }

  lemma {:induction false} NameBegins(gap: string, name: string, rest: string, env: Env)
    requires Spaces(gap) && IsName(name, env)
    ensures var s := Trimmed(gap + (name + rest)); s != "" && s[0] != ')'
  {
    hide Spans.Span, Trimmed, Spells;
    assert (name + rest)[0] == name[0];
    assert !env.letter(')');
    GapTrims(gap, name + rest);
  }

  lemma {:induction false} PrimaryReads(t: Tree, rest: string, env: Env)
    requires Primary(t) && Fits(t, rest, env)
    ensures ReadPrimary(Write(t, rest), env) == Then(Meaning(t, env), rest)
    decreases t, 3
  {
    hide Spans.Span, Trimmed;
    match t {
      case HoleAt(gap, digits) => HoleReads(gap, digits, rest, env);
      case TextAt(gap, text) => TextReads(gap, text, rest, env);
      case NumberAt(gap, digits) => NumberReads(gap, digits, rest, env);
      case Group(gap, inner, close) =>
        ClosedReads(inner, close, ")" + rest, env);
        GroupReads(gap, Write(inner, close + (")" + rest)), Meaning(inner, env), rest, env);
      case CastOf(_, _, _, _, _, _, _) => CastReads(t, rest, env);
      case CaseOf(_, _, _, _, _, _, _, _) => CaseReads(t, rest, env);
      case CallOf(gap, name, open, args) =>
        CallBegins(gap, name, open, WriteArgs(args, rest), env);
        GivenReads(name, args, rest, env);
        CallGoesOn(name, WriteArgs(args, rest), Meanings(args, env), rest, env);
    }
  }

  /** An expression up to what closes it. */
  lemma {:induction false} ClosedReads(t: Tree, gap: string, rest: string, env: Env)
    requires Spaces(gap) && (rest == "" || rest[0] == ')' || rest[0] == ',') && Fits(t, gap + rest, env)
    ensures ReadExpr(Write(t, gap + rest), env) == Then(Meaning(t, env), rest)
    decreases t, 7
  {
    hide Spans.Span, Trimmed;
    ClosesEnds(gap, rest, env);
    ExprReads(t, gap + rest, env);
  }

  /** An expression up to a keyword. */
  lemma {:induction false} PieceReads(t: Tree, w: Word, kw: string, next: string, env: Env)
    requires Fits(t, Spelled(w, next), env) && IsWord(w, kw, next, env)
    requires IsKeyword(kw) && kw[0] != 'I' && kw[0] != 'O'
    ensures ReadExpr(Write(t, Spelled(w, next)), env) == Then(Meaning(t, env), w.letters + next)
    decreases t, 7
  {
    hide Spans.Span, Trimmed;
    WordEnds(w, kw, next, env);
    ExprReads(t, Spelled(w, next), env);
  }

  lemma {:induction false} CastReads(t: Tree, rest: string, env: Env)
    requires t.CastOf? && Fits(t, rest, env)
    ensures ReadPrimary(Write(t, rest), env) == Then(Meaning(t, env), rest)
    decreases t, 2
  {
    hide Spans.Span, Trimmed, IsWord;
    var tail := t.before + (t.ty + (t.after + (")" + rest)));
    var body := Write(t.inner, Spelled(t.as_, tail));
    CastBegins(t.cast, t.open + ("(" + body), env);
    PieceReads(t.inner, t.as_, "AS", tail, env);
    CastGoesOn(t.open, body, Meaning(t.inner, env), t.as_, t.before, t.ty, t.after, rest, env);
  }

  lemma {:induction false} CaseReads(t: Tree, rest: string, env: Env)
    requires t.CaseOf? && Fits(t, rest, env)
    ensures ReadPrimary(Write(t, rest), env) == Then(Meaning(t, env), rest)
    decreases t, 2
  {
    hide Spans.Span, Trimmed, IsWord, CaseMeans, ReadCase, ReadPrimary, ReadExpr, Spelled;
    var c := Write(t.second, Spelled(t.end, rest));
    var b := Write(t.first, Spelled(t.else_, c));
    var a := Write(t.test, Spelled(t.then_, b));
    CaseBegins(t.case_, Spelled(t.when, a), env);
    PieceReads(t.test, t.then_, "THEN", b, env);
    PieceReads(t.first, t.else_, "ELSE", c, env);
    PieceReads(t.second, t.end, "END", rest, env);
    CaseGoesOn(t.when, a, Meaning(t.test, env), t.then_, b, Meaning(t.first, env),
      t.else_, c, Meaning(t.second, env), t.end, rest, env);
  }

  lemma {:induction false} SpaceBeforeExpr(s: string, env: Env)
    ensures ReadExpr(Trimmed(s), env) == ReadExpr(s, env)
  {
    hide Spans.Span, Trimmed;
    TrimmedOnce(s);
    assert ReadPrimary(Trimmed(s), env) == ReadPrimary(s, env);
    assert ReadConcat(Trimmed(s), env) == ReadConcat(s, env);
  }

  lemma {:induction false} SpaceBeforeArgs(name: string, s: string, env: Env)
    ensures ReadArgs(name, Trimmed(s), env) == ReadArgs(name, s, env)
  {
    hide Spans.Span, Trimmed;
    SpaceBeforeExpr(s, env);
  }

  lemma {:induction false} GivenReads(name: string, args: Args, rest: string, env: Env)
    requires FitArgs(args, rest, env)
    ensures ReadGiven(name, WriteArgs(args, rest), env) == ThenAll(Meanings(args, env), rest)
    decreases args, 1
  {
    hide Spans.Span, Trimmed;
    match args {
      case Empty(close) => CharStands(close, ')', ")", rest);
      case Last(arg, close) =>
        WriteBegins(arg, close + (")" + rest), env);
        SpaceBeforeArgs(name, WriteArgs(args, rest), env);
        ArgsRead(name, args, rest, env);
      case More(arg, comma, more) =>
        WriteBegins(arg, comma + ("," + WriteArgs(more, rest)), env);
        SpaceBeforeArgs(name, WriteArgs(args, rest), env);
        ArgsRead(name, args, rest, env);
    }
  }

  lemma {:induction false} ArgsRead(name: string, args: Args, rest: string, env: Env)
    requires !args.Empty? && FitArgs(args, rest, env)
    ensures ReadArgs(name, WriteArgs(args, rest), env) == ThenAll(Meanings(args, env), rest)
    decreases args, 0
  {
    hide Spans.Span, Trimmed;
    match args {
      case Last(arg, close) =>
        ClosedReads(arg, close, ")" + rest, env);
        CharStands("", ')', ")", rest);
        assert "" + (")" + rest) == ")" + rest;
      case More(arg, comma, more) =>
        var tail := WriteArgs(more, rest);
        ClosedReads(arg, comma, "," + tail, env);
        CharStands("", ',', ",", tail);
        assert "" + ("," + tail) == "," + tail;
        ArgsRead(name, more, rest, env);
    }
  }

  lemma {:induction false} ConcatReads(t: Tree, rest: string, env: Env)
    requires !t.Either? && Fits(t, rest, env)
    ensures ReadConcat(Write(t, rest), env) == OnConcat(Meaning(t, env), rest, env)
    decreases t, 4
  {
    hide Spans.Span, Trimmed;
    if t.Joined? {
      ConcatReads(t.lhs, t.gap + ("||" + Write(t.rhs, rest)), env);
      PrimaryReads(t.rhs, rest, env);
      BarsGoOn(Meaning(t.lhs, env), t.gap, Write(t.rhs, rest), Meaning(t.rhs, env), rest, env);
    } else if t.Tested? {
      ConcatReads(t.inner, Spelled(t.is_, WriteTest(t.not, t.null_, rest)), env);
      TestGoesOn(Meaning(t.inner, env), t.is_, t.not, t.null_, rest, env);
    } else {
      PrimaryReads(t, rest, env);
    }
  }

  lemma {:induction false} OrReads(t: Tree, rest: string, env: Env)
    requires Fits(t, rest, env) && Stops(rest, env)
    ensures ReadExpr(Write(t, rest), env) == OnOr(Meaning(t, env), Trimmed(rest), env)
    decreases t, 5
  {
    hide Spans.Span, Trimmed;
    if t.Either? {
      var second := Write(t.rhs, rest);
      WordEnds(t.or, "OR", second, env);
      OrReads(t.lhs, Spelled(t.or, second), env);
      ConcatReads(t.rhs, rest, env);
      ConcatEnds(Meaning(t.rhs, env), rest, env);
      OrGoesOn(Meaning(t.lhs, env), t.or, second, Meaning(t.rhs, env), rest, env);
    } else {
      ConcatReads(t, rest, env);
      ConcatEnds(Meaning(t, env), rest, env);
    }
  }

  lemma {:induction false} ExprReads(t: Tree, rest: string, env: Env)
    requires Fits(t, rest, env) && Ends(rest, env)
    ensures ReadExpr(Write(t, rest), env) == Then(Meaning(t, env), Trimmed(rest))
    decreases t, 6
  {
    hide Spans.Span, Trimmed;
    OrReads(t, rest, env);
    OrEnds(Meaning(t, env), rest, env);
  }

  /** Every template of the grammar is read to its end and gives its meaning, and is refused exactly where, and as,
      its meaning is. */
  lemma {:induction false} TemplateRendersAsWritten(t: Tree, gap: string, env: Env)
    requires Fits(t, gap, env) && Spaces(gap)
    ensures Reading(Write(t, gap), env) == Meaning(t, env)
  {
    hide Spans.Span, Trimmed;
    assert gap + "" == gap;
    ClosedReads(t, gap, "", env);
    TrimmedStands("");
  }

  /** What each type a cast may name makes of it, and that any other is not mapped. */
  lemma {:induction false} CastsRenderAsTheirTypes(t: Tree, gap: string, env: Env)
    requires t.CastOf? && Fits(t, gap, env) && Spaces(gap)
    ensures var cast, e, ty := Reading(Write(t, gap), env), Meaning(t.inner, env), t.ty;
            cast == if e.Err? then e
                    else if ty == "BIGINT" then Ok(CastTo(e.value, Int64))
                    else if ty == "INTEGER" then Ok(CastTo(e.value, Int32))
                    else if ty == "DOUBLE" then Ok(CastTo(e.value, Float64))
                    else if ty == "BOOLEAN" then Ok(CastTo(e.value, Target.Boolean))
                    else if ty == "DATE" then Ok(CastTo(e.value, Date32))
                    else if |ty| >= 7 && ty[..7] == "DECIMAL" then Ok(CastTo(e.value, Float64))
                    else Err(NotMapped(ty))
  {
    TemplateRendersAsWritten(t, gap, env);
  }
}
