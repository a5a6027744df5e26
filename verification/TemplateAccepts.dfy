/** The reader takes in nothing else: a text it accepts is a template of the grammar, and what it gives is what that
    template means. */
module TemplateAccepts {
  import opened Common
  import opened Results
  import opened Template
  import opened TemplateGrammar
  import opened TemplateLaws
  import Decimal
  import Spans

  /** The tree is a template of the grammar before `rest`, the two together are this text, and it means this. */
  predicate Says(t: Tree, rest: string, s: string, e: Shape, env: Env) {
    Fits(t, rest, env) && Write(t, rest) == s && Meaning(t, env) == Ok(e)
  }

  // ------------------------------------------------------------------ white space and keywords

  lemma {:induction false} GapStands(s: string) returns (gap: string)
    ensures Spaces(gap) && s == gap + Trimmed(s)
  {
    gap := s[..Spans.Span(s, IsSpace)];
  }

  lemma {:induction false} CharWasWritten(c: char, s: string) returns (gap: string)
    requires AtChar(c, s)
    ensures Spaces(gap) && s == gap + ([c] + PastChar(c, s))
  {
    hide Spans.Span, Trimmed;
    gap := GapStands(s);
    var t := Trimmed(s);
    assert t == [c] + t[1..];
  }

  lemma {:induction false} WordWasWritten(kw: string, s: string, env: Env) returns (w: Word)
    requires IsKeyword(kw) && AtKeyword(kw, s, env)
    ensures IsWord(w, kw, PastKeyword(kw, s, env), env) && s == Spelled(w, PastKeyword(kw, s, env))
    ensures |PastKeyword(kw, s, env)| < |s|
  {
    hide Spans.Span, Trimmed, SameWord, Spells;
    var gap := GapStands(s);
    var t := Trimmed(s);
    w := Word(gap, t[..|kw|]);
    assert t == t[..|kw|] + t[|kw|..];
    SpellsIsSameWord(w.letters, kw);
  }

  // ------------------------------------------------------------------ values

  lemma {:induction false} HoleWasWritten(gap: string, u: string, env: Env) returns (t: Tree)
    requires Spaces(gap) && Starts(u, '%') && ReadHole(u, env.args).Ok?
    ensures Primary(t)
    ensures var r := ReadHole(u, env.args).value; Says(t, r.1, gap + u, r.0, env)
  {
    hide Spans.Span;
    var s := u[1..];
    var n := Spans.Span(s, Decimal.IsDigit);
    t := HoleAt(gap, s[..n]);
    assert u == "%" + (s[..n] + s[n..]);
  }

  lemma {:induction false} NumberWasWritten(gap: string, u: string, env: Env) returns (t: Tree)
    requires Spaces(gap) && u != "" && Decimal.IsDigit(u[0]) && ReadNumber(u).Ok?
    ensures Primary(t)
    ensures var r := ReadNumber(u).value; Says(t, r.1, gap + u, r.0, env)
  {
    hide Spans.Span;
    var n := Spans.Span(u, Decimal.IsDigit);
    t := NumberAt(gap, u[..n]);
    assert u == u[..n] + u[n..];
  }

  lemma {:induction false} TextIsDoubled(s: string)
    requires ReadText(s).Ok?
    ensures var r := ReadText(s).value; !Starts(r.1, '\'') && s == Doubled(r.0.text) + ("'" + r.1)
  {
    if s[0] == '\'' && !StartsTwice(s, '\'') {
      assert s == "" + ("'" + s[1..]);
    } else {
      var one := if s[0] == '\'' then 2 else 1;
      TextIsDoubled(s[one..]);
      CharIsDoubled(s[0], s[..one], ReadText(s[one..]).value.0.text, ReadText(s[one..]).value.1);
      assert s == s[..one] + s[one..];
    }
  }

  lemma {:induction false} CharIsDoubled(c: char, one: string, text: string, rest: string)
    requires one == if c == '\'' then "''" else [c]
    ensures Doubled([c] + text) + ("'" + rest) == one + (Doubled(text) + ("'" + rest))
  {
    assert ([c] + text)[1..] == text;
  }

  lemma {:induction false} TextWasWritten(gap: string, u: string, env: Env) returns (t: Tree)
    requires Spaces(gap) && Starts(u, '\'') && ReadText(u[1..]).Ok?
    ensures Primary(t)
    ensures var r := ReadText(u[1..]).value; Says(t, r.1, gap + u, r.0, env)
  {
    var r := ReadText(u[1..]).value;
    TextIsDoubled(u[1..]);
    t := TextAt(gap, r.0.text);
    assert u == "'" + u[1..];
  }

  // ------------------------------------------------------------------ types

  lemma {:induction false} SpanIsBalanced(s: string, depth: nat)
    requires TypeSpan(s, depth) < |s|
    ensures Balanced(s[..TypeSpan(s, depth)], depth) && s[TypeSpan(s, depth)] == ')'
  {
    var n := TypeSpan(s, depth);
    if s[0] == ')' && depth == 0 {
    } else {
      var next := if s[0] == '(' then depth + 1 else if s[0] == ')' then depth - 1 else depth;
      assert n == 1 + TypeSpan(s[1..], next);
      SpanIsBalanced(s[1..], next);
      assert s[..n][1..] == s[1..][..n - 1];
    }
  }

  lemma {:induction false} EndTrims(s: string) returns (after: string)
    ensures Spaces(after) && s == TrimEnd(s) + after
    ensures TrimEnd(s) != "" ==> !IsSpace(TrimEnd(s)[|TrimEnd(s)| - 1])
  {
    if s != "" && IsSpace(s[|s| - 1]) {
      var n := |s| - 1;
      var more := EndTrims(s[..n]);
      after := more + [s[n]];
      assert s == s[..n] + [s[n]];
    } else {
      after := "";
      assert s == s + "";
    }
  }

  lemma {:induction false} RawIsType(raw: string) returns (ty: string, after: string)
    requires Balanced(raw, 0) && (raw != "" ==> !IsSpace(raw[0]))
    ensures IsType(ty) && Spaces(after) && raw == ty + after && ty == Trim(raw)
  {
    hide Spans.Span, Trimmed, TrimEnd, Balanced;
    TrimmedStands(raw);
    ty := TrimEnd(raw);
    after := EndTrims(raw);
    SpacesBalance(ty, after, 0);
  }

  /** What stands at the type's place, which white space may precede, is a type and white space to the parenthesis. */
  lemma {:induction false} TypeWasWritten(inner: Shape, s: string) returns (before: string, ty: string, after: string)
    requires ReadType(inner, Trimmed(s)).Ok?
    ensures Spaces(before) && IsType(ty) && Spaces(after)
    ensures var r := ReadType(inner, Trimmed(s)).value;
            s == before + (ty + (after + (")" + r.1))) && CastMeans(Ok(inner), ty) == Ok(r.0)
  {
    hide Spans.Span, Trimmed, CastMeans, CastTarget, TypeSpan, Trim, IsType;
    var t := Trimmed(s);
    before := GapStands(s);
    var n := TypeSpan(t, 0);
    TypeIsClosed(t);
    ty, after := RawIsType(t[..n]);
    TypeIsMapped(inner, ty);
    assert t == (ty + after) + (")" + t[n + 1..]);
    assert (ty + after) + (")" + t[n + 1..]) == ty + (after + (")" + t[n + 1..]));
  }

  lemma {:induction false} TypeIsClosed(t: string)
    requires AtChar(')', t[TypeSpan(t, 0)..])
    ensures var n := TypeSpan(t, 0);
            n < |t| && t[n] == ')' && PastChar(')', t[n..]) == t[n + 1..] && Balanced(t[..n], 0)
  {
    hide Spans.Span, Trimmed, TypeSpan, Balanced;
    var n := TypeSpan(t, 0);
    if n == |t| {
      TrimmedStands(t[n..]);
    }
    SpanIsBalanced(t, 0);
    TrimmedStands(t[n..]);
    assert t[n..][1..] == t[n + 1..];
  }

  // ------------------------------------------------------------------ what has white space before it

  lemma {:induction false} SpaceBeforeAfter(kw: string, s: string, env: Env)
    requires kw != ""
    ensures ReadAfter(kw, Trimmed(s), env) == ReadAfter(kw, s, env)
  {
    hide Spans.Span, Trimmed;
    TrimmedOnce(s);
  }

  lemma {:induction false} SpaceBeforeWord(kw: string, s: string, env: Env)
    ensures AtKeyword(kw, Trimmed(s), env) == AtKeyword(kw, s, env)
    ensures AtKeyword(kw, s, env) ==> PastKeyword(kw, Trimmed(s), env) == PastKeyword(kw, s, env)
  {
    hide Spans.Span, Trimmed;
    TrimmedOnce(s);
  }

  lemma {:induction false} SpaceBeforeChar(c: char, s: string)
    ensures AtChar(c, Trimmed(s)) == AtChar(c, s)
    ensures AtChar(c, s) ==> PastChar(c, Trimmed(s)) == PastChar(c, s)
  {
    hide Spans.Span, Trimmed;
    TrimmedOnce(s);
  }

  // ------------------------------------------------------------------ whatever is read was written

  lemma {:induction false} PrimaryWasWritten(s: string, env: Env) returns (t: Tree)
    requires ReadPrimary(s, env).Ok?
    ensures Primary(t)
    ensures var r := ReadPrimary(s, env).value; Says(t, r.1, s, r.0, env)
    decreases |s|, 3
  {
    hide Spans.Span, Trimmed, Says, AtKeyword, PastKeyword;
    var gap := GapStands(s);
    var u := Trimmed(s);
    if u[0] == '%' {
      t := HoleWasWritten(gap, u, env);
    } else if u[0] == '\'' {
      t := TextWasWritten(gap, u, env);
    } else if Decimal.IsDigit(u[0]) {
      t := NumberWasWritten(gap, u, env);
    } else if u[0] == '(' {
      t := GroupWasWritten(gap, u, env);
    } else {
      t := WordValueWasWritten(s, env);
    }
  }

  lemma {:induction false} GroupWasWritten(gap: string, u: string, env: Env) returns (t: Tree)
    requires Spaces(gap) && Starts(u, '(') && Closed(ReadExpr(u[1..], env)).Ok?
    ensures Primary(t)
    ensures var r := Closed(ReadExpr(u[1..], env)).value; Says(t, r.1, gap + u, r.0, env)
    decreases |u|, 2
  {
    hide Spans.Span, Trimmed, AtChar, PastChar;
    var inner, rest := ExprWasWritten(u[1..], env);
    SpaceBeforeChar(')', rest);
    var close := CharWasWritten(')', rest);
    t := Group(gap, inner, close);
    assert u == "(" + u[1..];
  }

  lemma {:induction false} WordValueWasWritten(s: string, env: Env) returns (t: Tree)
    requires Trimmed(s) != "" && WordAt(Trimmed(s), env).Ok?
    ensures Primary(t)
    ensures var r := WordAt(Trimmed(s), env).value; Says(t, r.1, s, r.0, env)
    decreases |s|, 2
  {
    hide Spans.Span, Trimmed, Says, AtKeyword, PastKeyword, ReadCast, ReadCase, ReadCall;
    SpaceBeforeWord("CAST", s, env);
    SpaceBeforeWord("CASE", s, env);
    if AtKeyword("CAST", s, env) {
      t := CastWasWritten(s, env);
    } else if AtKeyword("CASE", s, env) {
      t := CaseWasWritten(s, env);
    } else {
      t := CallWasWritten(s, env);
    }
  }

  lemma {:induction false} CastWasWritten(s: string, env: Env) returns (t: Tree)
    requires AtKeyword("CAST", s, env) && ReadCast(PastKeyword("CAST", s, env), env).Ok?
    ensures Primary(t)
    ensures var r := ReadCast(PastKeyword("CAST", s, env), env).value; Says(t, r.1, s, r.0, env)
    decreases |s|, 1
  {
    hide Spans.Span, Trimmed, AtChar, PastChar, AtKeyword, PastKeyword, IsWord, CastMeans, IsType, ReadType;
    var next := PastKeyword("CAST", s, env);
    var cast := WordWasWritten("CAST", s, env);
    var open := CharWasWritten('(', next);
    var inner, rest := ExprWasWritten(PastChar('(', next), env);
    SpaceBeforeWord("AS", rest, env);
    var as_ := WordWasWritten("AS", rest, env);
    var e := Meaning(inner, env).value;
    var before, ty, after := TypeWasWritten(e, PastKeyword("AS", rest, env));
    t := CastOf(cast, open, inner, as_, before, ty, after);
  }

  lemma {:induction false} AfterWasWritten(kw: string, s: string, env: Env) returns (w: Word, t: Tree, rest: string)
    requires IsKeyword(kw) && ReadAfter(kw, s, env).Ok?
    ensures IsWord(w, kw, Write(t, rest), env) && s == Spelled(w, Write(t, rest)) && |rest| < |s|
    ensures var r := ReadAfter(kw, s, env).value;
            Fits(t, rest, env) && Meaning(t, env) == Ok(r.0) && Trimmed(rest) == r.1
    decreases |s|, 0
  {
    hide Spans.Span, Trimmed, IsWord;
    w := WordWasWritten(kw, s, env);
    t, rest := ExprWasWritten(PastKeyword(kw, s, env), env);
  }

  lemma {:induction false} CaseWasWritten(s: string, env: Env) returns (t: Tree)
    requires AtKeyword("CASE", s, env) && ReadCase(PastKeyword("CASE", s, env), env).Ok?
    ensures Primary(t)
    ensures var r := ReadCase(PastKeyword("CASE", s, env), env).value; Says(t, r.1, s, r.0, env)
    decreases |s|, 1
  {
    hide Spans.Span, Trimmed, AtKeyword, PastKeyword, ReadAfter, IsWord;
    var next := PastKeyword("CASE", s, env);
    var case_ := WordWasWritten("CASE", s, env);
    var when, test, rest1 := AfterWasWritten("WHEN", next, env);
    SpaceBeforeAfter("THEN", rest1, env);
    var then_, first, rest2 := AfterWasWritten("THEN", rest1, env);
    SpaceBeforeAfter("ELSE", rest2, env);
    var else_, second, rest3 := AfterWasWritten("ELSE", rest2, env);
    SpaceBeforeWord("END", rest3, env);
    var end := WordWasWritten("END", rest3, env);
    t := CaseOf(case_, when, test, then_, first, else_, second, end);
  }

  lemma {:induction false} NameWasWritten(u: string, env: Env)
    requires u != "" && (env.letter(u[0]) || u[0] == '_') && Trimmed(u) == u
    requires !AtKeyword("CAST", u, env) && !AtKeyword("CASE", u, env)
    ensures var n := Spans.Span(u, WordChars(env)); n > 0 && IsName(u[..n], env)
  {
    hide Trimmed, Spells;
    var name := u[..Spans.Span(u, WordChars(env))];
    SpellsIsSameWord(name, "CAST");
    SpellsIsSameWord(name, "CASE");
  }

  lemma {:induction false} CallWasWritten(s: string, env: Env) returns (t: Tree)
    requires Trimmed(s) != "" && !AtKeyword("CAST", s, env) && !AtKeyword("CASE", s, env)
    requires WordAt(Trimmed(s), env).Ok?
    ensures Primary(t)
    ensures var r := WordAt(Trimmed(s), env).value; Says(t, r.1, s, r.0, env)
    decreases |s|, 1
  {
    hide Spans.Span, Trimmed, AtChar, PastChar, AtKeyword, IsName;
    SpaceBeforeWord("CAST", s, env);
    SpaceBeforeWord("CASE", s, env);
    TrimmedOnce(s);
    var u := Trimmed(s);
    var gap := GapStands(s);
    NameWasWritten(u, env);
    var n := Spans.Span(u, WordChars(env));
    var open := CharWasWritten('(', u[n..]);
    var args := GivenWasWritten(u[..n], PastChar('(', u[n..]), env);
    t := CallOf(gap, u[..n], open, args);
    assert u == u[..n] + u[n..];
  }

  lemma {:induction false} GivenWasWritten(name: string, s: string, env: Env) returns (args: Args)
    requires ReadGiven(name, s, env).Ok?
    ensures var r := ReadGiven(name, s, env).value;
            FitArgs(args, r.1, env) && WriteArgs(args, r.1) == s && Meanings(args, env) == Ok(r.0)
    decreases |s|, 7
  {
    hide Spans.Span, Trimmed, AtChar, PastChar;
    if AtChar(')', s) {
      var close := CharWasWritten(')', s);
      args := Empty(close);
    } else {
      SpaceBeforeArgs(name, s, env);
      args := ArgsWereWritten(name, s, env);
    }
  }

  lemma {:induction false} ArgsWereWritten(name: string, s: string, env: Env) returns (args: Args)
    requires ReadArgs(name, s, env).Ok?
    ensures !args.Empty?
    ensures var r := ReadArgs(name, s, env).value;
            FitArgs(args, r.1, env) && WriteArgs(args, r.1) == s && Meanings(args, env) == Ok(r.0)
    decreases |s|, 6
  {
    hide Spans.Span, Trimmed, AtChar, PastChar;
    var arg, rest := ExprWasWritten(s, env);
    SpaceBeforeChar(',', rest);
    SpaceBeforeChar(')', rest);
    if AtChar(',', rest) {
      var comma := CharWasWritten(',', rest);
      var more := ArgsWereWritten(name, PastChar(',', rest), env);
      args := More(arg, comma, more);
    } else {
      var close := CharWasWritten(')', rest);
      args := Last(arg, close);
    }
  }

  // ------------------------------------------------------------------ the chains

  lemma {:induction false} ConcatWasWritten(s: string, env: Env) returns (t: Tree, rest: string)
    requires ReadConcat(s, env).Ok?
    ensures !t.Either? && |rest| < |s|
    ensures var r := ReadConcat(s, env).value; Says(t, rest, s, r.0, env) && Trimmed(rest) == r.1
    decreases |s|, 4
  {
    hide Spans.Span, Trimmed, Says, ReadPrimary, ConcatTail;
    var first := PrimaryWasWritten(s, env);
    var r := ReadPrimary(s, env).value;
    t, rest := ConcatTailWasWritten(first, r.1, r.0, s, env);
  }

  lemma {:induction false} ConcatTailWasWritten(t0: Tree, rest0: string, e0: Shape, s: string, env: Env)
    returns (t: Tree, rest: string)
    requires !t0.Either? && Says(t0, rest0, s, e0, env) && ConcatTail(e0, rest0, env).Ok?
    ensures !t.Either? && |rest| <= |rest0|
    ensures var r := ConcatTail(e0, rest0, env).value; Says(t, rest, s, r.0, env) && Trimmed(rest) == r.1
    decreases |rest0|, 4
  {
    hide Spans.Span, Trimmed, Says, ConcatTurn;
    var turn := ConcatTurn(e0, rest0, env);
    if turn.None? {
      t, rest := t0, rest0;
    } else {
      var t1 := TurnWasWritten(t0, rest0, e0, s, env);
      t, rest := ConcatTailWasWritten(t1, turn.value.value.1, turn.value.value.0, s, env);
    }
  }

  lemma {:induction false} TurnWasWritten(t0: Tree, rest0: string, e0: Shape, s: string, env: Env) returns (t: Tree)
    requires !t0.Either? && Says(t0, rest0, s, e0, env)
    requires ConcatTurn(e0, rest0, env).Some? && ConcatTurn(e0, rest0, env).value.Ok?
    ensures !t.Either?
    ensures var r := ConcatTurn(e0, rest0, env).value.value; Says(t, r.1, s, r.0, env)
    decreases |rest0|, 3
  {
    hide Spans.Span, Trimmed, AtKeyword, PastKeyword, ReadTest, ReadJoined, Says;
    var u := Trimmed(rest0);
    if StartsTwice(u, '|') {
      t := BarsWereWritten(t0, rest0, e0, s, env);
    } else {
      SpaceBeforeWord("IS", rest0, env);
      var is_ := WordWasWritten("IS", rest0, env);
      var not, null_ := TestWasWritten(PastKeyword("IS", rest0, env), e0, env);
      t := Tested(t0, is_, not, null_);
      TestSays(t, ReadTest(e0, PastKeyword("IS", rest0, env), env).value, rest0, e0, s, env);
    }
  }

  lemma {:induction false} BarsWereWritten(t0: Tree, rest0: string, e0: Shape, s: string, env: Env) returns (t: Tree)
    requires !t0.Either? && Says(t0, rest0, s, e0, env)
    requires StartsTwice(Trimmed(rest0), '|') && ReadJoined(e0, Trimmed(rest0)[2..], env).Ok?
    ensures !t.Either?
    ensures var r := ReadJoined(e0, Trimmed(rest0)[2..], env).value; Says(t, r.1, s, r.0, env)
    decreases |rest0|, 2
  {
    hide Spans.Span, Trimmed, ReadPrimary, Says;
    var u := Trimmed(rest0);
    var gap := GapStands(rest0);
    var r := PrimaryWasWritten(u[2..], env);
    var read := ReadPrimary(u[2..], env).value;
    t := Joined(t0, gap, r);
    assert u == "||" + u[2..];
    JoinSays(t, read.1, rest0, e0, s, u[2..], read.0, env);
  }

  lemma {:induction false} JoinSays(
    t: Tree, rest: string, rest0: string, e0: Shape, s: string, second: string, e1: Shape, env: Env)
    requires t.Joined? && !t.lhs.Either? && Spaces(t.gap) && Primary(t.rhs)
    requires Says(t.lhs, rest0, s, e0, env) && Says(t.rhs, rest, second, e1, env)
    requires rest0 == t.gap + ("||" + second)
    ensures Says(t, rest, s, Concat(e0, e1), env)
  {
    hide Spaces, Primary;
  }

  lemma {:induction false} TestSays(t: Tree, r: (Shape, string), rest0: string, e0: Shape, s: string, env: Env)
    requires t.Tested? && !t.inner.Either? && Says(t.inner, rest0, s, e0, env)
    requires var words := WriteTest(t.not, t.null_, r.1);
             rest0 == Spelled(t.is_, words) && IsWord(t.is_, "IS", words, env)
    requires TestMeans(Ok(e0), t.not.Some?) == Ok(r.0)
    requires t.not.Some? ==> IsWord(t.not.value, "NOT", Spelled(t.null_, r.1), env)
    requires IsWord(t.null_, "NULL", r.1, env)
    ensures Says(t, r.1, s, r.0, env)
  {
    hide IsWord, Spelled, WriteTest, TestMeans;
  }

  lemma {:induction false} TestWasWritten(s: string, e: Shape, env: Env) returns (not: Option<Word>, null_: Word)
    requires ReadTest(e, s, env).Ok?
    ensures var r := ReadTest(e, s, env).value;
            && s == WriteTest(not, null_, r.1) && TestMeans(Ok(e), not.Some?) == Ok(r.0)
            && (not.Some? ==> IsWord(not.value, "NOT", Spelled(null_, r.1), env)) && IsWord(null_, "NULL", r.1, env)
  {
    hide Spans.Span, Trimmed, AtKeyword, PastKeyword, IsWord;
    if AtKeyword("NOT", s, env) {
      var w := WordWasWritten("NOT", s, env);
      null_ := WordWasWritten("NULL", PastKeyword("NOT", s, env), env);
      not := Some(w);
    } else {
      SpaceBeforeWord("NULL", s, env);
      null_ := WordWasWritten("NULL", s, env);
      not := None;
    }
  }

  lemma {:induction false} ExprWasWritten(s: string, env: Env) returns (t: Tree, rest: string)
    requires ReadExpr(s, env).Ok?
    ensures |rest| < |s|
    ensures var r := ReadExpr(s, env).value; Says(t, rest, s, r.0, env) && Trimmed(rest) == r.1
    decreases |s|, 5
  {
    hide Spans.Span, Trimmed, Says, ReadConcat, OrTail;
    var first, rest0 := ConcatWasWritten(s, env);
    var r := ReadConcat(s, env).value;
    t, rest := OrTailWasWritten(first, rest0, r.0, s, env);
  }

  lemma {:induction false} OrTailWasWritten(t0: Tree, rest0: string, e0: Shape, s: string, env: Env)
    returns (t: Tree, rest: string)
    requires Says(t0, rest0, s, e0, env) && OrTail(e0, Trimmed(rest0), env).Ok?
    ensures |rest| <= |rest0|
    ensures var r := OrTail(e0, Trimmed(rest0), env).value; Says(t, rest, s, r.0, env) && Trimmed(rest) == r.1
    decreases |rest0|, 4
  {
    hide Spans.Span, Trimmed, AtKeyword, PastKeyword, IsWord, ReadConcat;
    SpaceBeforeWord("OR", rest0, env);
    if AtKeyword("OR", rest0, env) {
      var next := PastKeyword("OR", rest0, env);
      var or := WordWasWritten("OR", rest0, env);
      var r, rest1 := ConcatWasWritten(next, env);
      var e1 := Shape.Or(e0, ReadConcat(next, env).value.0);
      t, rest := OrTailWasWritten(Either(t0, or, r), rest1, e1, s, env);
    } else {
      TrimmedOnce(rest0);
      t, rest := t0, rest0;
    }
  }

  /** A text renders to something exactly when it is a template of the grammar that means it: the reader is the
      grammar, and a text of it has one meaning however it is taken apart. */
  lemma {:induction false} ReadingIsTheGrammar(s: string, e: Shape, env: Env)
    ensures Reading(s, env) == Ok(e) <==> exists t, gap :: Spaces(gap) && Says(t, gap, s, e, env)
  {
    hide Spans.Span, Trimmed, ReadExpr;
    if Reading(s, env) == Ok(e) {
      var t, rest := ExprWasWritten(s, env);
      TrimmedOnce(rest);
      var gap := GapStands(rest);
      assert gap + "" == rest;
      assert Says(t, rest, s, e, env);
    }
    if t, gap :| Spaces(gap) && Says(t, gap, s, e, env) {
      TemplateRendersAsWritten(t, gap, env);
    }
  }
}
