/** The reader as it runs: a position that only moves on, and each of its steps a step of the reading. */
module TemplateReader {
  import opened Common
  import opened Results
  import opened Template
  import Decimal
  import Spans

  class Reader {
    const chars: string
    const env: Env
    var pos: nat

    constructor (template: string, env: Env)
      ensures this.chars == template && this.env == env && Valid() && Rest() == template
    {
      this.chars, this.env, this.pos := template, env, 0;
    }

    ghost predicate Valid()
      reads this
    {
      pos <= |chars|
    }

    /** What is left to read. */
    ghost function Rest(): string
      requires Valid()
      reads this
    {
      chars[pos..]
    }

    /** A step reads what the reading reads, and leaves what it leaves. */
    ghost predicate Agrees<T>(r: Result<T, Failure>, read: Read<T>)
      requires Valid()
      reads this
    {
      if r.Ok? then read == Ok((r.value, Rest())) else read == Err(r.error)
    }

    /** On over a run of one kind of character. */
    method SkipWhile(kind: char -> bool)
      requires Valid()
      modifies this`pos
      ensures Valid() && pos == old(pos) + Spans.Span(old(Rest()), kind)
      ensures Rest() == old(Rest())[Spans.Span(old(Rest()), kind)..]
    {
      ghost var s := Rest();
      while pos < |chars| && kind(chars[pos])
        invariant old(pos) <= pos <= |chars|
        invariant pos - old(pos) + Spans.Span(chars[pos..], kind) == Spans.Span(s, kind)
      {
        assert chars[pos..][1..] == chars[pos + 1..];
        pos := pos + 1;
      }
      assert chars[old(pos)..][pos - old(pos)..] == chars[pos..];
    }

    method SkipWs()
      requires Valid()
      modifies this`pos
      ensures Valid() && Rest() == Trimmed(old(Rest()))
    {
      SkipWhile(IsSpace);
    }

    method PeekKw(kw: string) returns (here: bool)
      requires Valid()
      modifies this`pos
      ensures Valid() && Rest() == Trimmed(old(Rest())) && here == AtKeyword(kw, old(Rest()), env)
    {
      hide Spans.Span, Trimmed, SameWord;
      SkipWs();
      var end := pos + |kw|;
      if end > |chars| {
        return false;
      }
      var got := chars[pos..end];
      assert got == Rest()[..|kw|];
      if !SameWord(got, kw) {
        return false;
      }
      here := !(end < |chars| && WordChars(env)(chars[end]));
    }

    method EatKw(kw: string) returns (here: bool)
      requires Valid()
      modifies this`pos
      ensures Valid() && here == AtKeyword(kw, old(Rest()), env)
      ensures Rest() == if here then PastKeyword(kw, old(Rest()), env) else Trimmed(old(Rest()))
    {
      hide Spans.Span, Trimmed, SameWord;
      here := PeekKw(kw);
      if here {
        ghost var before := pos;
        pos := pos + |kw|;
        assert chars[before..][|kw|..] == chars[pos..];
      }
    }

    method ExpectKw(kw: string) returns (r: Result<(), Failure>)
      requires Valid()
      modifies this`pos
      ensures Valid() && (r.Ok? <==> AtKeyword(kw, old(Rest()), env))
      ensures if r.Ok? then Rest() == PastKeyword(kw, old(Rest()), env) else r.error == Missing(kw)
    {
      var here := EatKw(kw);
      r := if here then Ok(()) else Err(Missing(kw));
    }

    method EatChar(c: char) returns (here: bool)
      requires Valid()
      modifies this`pos
      ensures Valid() && here == AtChar(c, old(Rest()))
      ensures Rest() == if here then PastChar(c, old(Rest())) else Trimmed(old(Rest()))
    {
      hide Spans.Span, Trimmed;
      SkipWs();
      here := pos < |chars| && chars[pos] == c;
      if here {
        ghost var before := pos;
        pos := pos + 1;
        assert chars[before..][1..] == chars[pos..];
      }
    }

    method Expr() returns (r: Result<Shape, Failure>)
      requires Valid()
      modifies this`pos
      ensures Valid() && Agrees(r, ReadExpr(old(Rest()), env))
      ensures r.Ok? ==> old(pos) < pos
      decreases |chars| - pos, 3
    {
      hide Spans.Span, Trimmed;
      ghost var s := Rest();
      var lhs := ConcatExpr();
      if lhs.Err? {
        return lhs;
      }
      var tree := lhs.value;
      var more := EatKw("OR");
      ghost var at := ReadConcat(s, env).value.1;
      while more
        invariant Valid() && |Rest()| < |s|
        invariant more == AtKeyword("OR", at, env)
        invariant Rest() == if more then PastKeyword("OR", at, env) else Trimmed(at)
        invariant ReadExpr(s, env) == OrTail(tree, at, env)
        decreases |chars| - pos, more
      {
        ghost var from := Rest();
        var rhs := ConcatExpr();
        if rhs.Err? {
          return rhs;
        }
        tree := Shape.Or(tree, rhs.value);
        at := Rest();
        more := EatKw("OR");
      }
      r := Ok(tree);
    }

    method ConcatExpr() returns (r: Result<Shape, Failure>)
      requires Valid()
      modifies this`pos
      ensures Valid() && Agrees(r, ReadConcat(old(Rest()), env))
      ensures r.Ok? ==> old(pos) < pos
      decreases |chars| - pos, 2
    {
      hide Spans.Span, Trimmed;
      ghost var s := Rest();
      r := Primary();
      if r.Err? {
        return;
      }
      while true
        invariant Valid() && r.Ok? && |Rest()| < |s|
        invariant ReadConcat(s, env) == ConcatTail(r.value, Rest(), env)
        decreases |chars| - pos
      {
        var turn := ConcatStep(r.value);
        if turn.None? {
          return;
        }
        r := turn.value;
        if r.Err? {
          return;
        }
      }
    }

    /** One turn of the loop. */
    method ConcatStep(lhs: Shape) returns (turn: Option<Result<Shape, Failure>>)
      requires Valid()
      modifies this`pos
      ensures Valid()
      ensures turn.None? ==> ConcatTurn(lhs, old(Rest()), env).None? && Rest() == Trimmed(old(Rest()))
      ensures turn.Some? ==> ConcatTurn(lhs, old(Rest()), env).Some?
                             && Agrees(turn.value, ConcatTurn(lhs, old(Rest()), env).value)
      decreases |chars| - pos, 2
    {
      hide Spans.Span, Trimmed;
      TrimmedOnce(Rest());
      SkipWs();
      turn := TurnHere(lhs);
    }

    method TurnHere(lhs: Shape) returns (turn: Option<Result<Shape, Failure>>)
      requires Valid() && Trimmed(Rest()) == Rest()
      modifies this`pos
      ensures Valid()
      ensures turn.None? ==> TurnAt(lhs, old(Rest()), env).None? && Rest() == old(Rest())
      ensures turn.Some? ==> TurnAt(lhs, old(Rest()), env).Some?
                             && Agrees(turn.value, TurnAt(lhs, old(Rest()), env).value)
      decreases |chars| - pos, 1, 1
    {
      hide Spans.Span, Trimmed;
      if pos + 1 < |chars| && chars[pos] == '|' && chars[pos + 1] == '|' {
        var joined := JoinedHere(lhs);
        return Some(joined);
      }
      var here := EatKw("IS");
      if here {
        var test := TestHere(lhs);
        return Some(test);
      }
      turn := None;
    }

    method JoinedHere(lhs: Shape) returns (r: Result<Shape, Failure>)
      requires Valid() && StartsTwice(Rest(), '|')
      modifies this`pos
      ensures Valid() && Agrees(r, ReadJoined(lhs, old(Rest())[2..], env))
      decreases |chars| - pos, 1, 0
    {
      assert Rest()[2..] == chars[pos + 2..];
      pos := pos + 2;
      r := Primary();
      if r.Ok? {
        r := Ok(Concat(lhs, r.value));
      }
    }

    method TestHere(lhs: Shape) returns (r: Result<Shape, Failure>)
      requires Valid()
      modifies this`pos
      ensures Valid() && Agrees(r, ReadTest(lhs, old(Rest()), env))
    {
      var negated := EatKw("NOT");
      var word := ExpectKw("NULL");
      r := if word.Err? then Err(word.error) else Ok(if negated then IsNotNull(lhs) else IsNull(lhs));
    }

    method Primary() returns (r: Result<Shape, Failure>)
      requires Valid()
      modifies this`pos
      ensures Valid() && Agrees(r, ReadPrimary(old(Rest()), env))
      ensures r.Ok? ==> old(pos) < pos
      decreases |chars| - pos, 1
    {
      hide Spans.Span, Trimmed;
      TrimmedOnce(Rest());
      SkipWs();
      if pos == |chars| {
        return Err(ValueDue);
      }
      var c := chars[pos];
      assert Rest()[0] == c;
      if c == '%' {
        r := HoleHere();
      } else if c == '\'' {
        r := TextHere();
      } else if Decimal.IsDigit(c) {
        r := NumberHere();
      } else if c == '(' {
        r := GroupHere();
      } else {
        r := WordHere(c);
      }
    }

    method HoleHere() returns (r: Result<Shape, Failure>)
      requires Valid() && Rest() != ""
      modifies this`pos
      ensures Valid() && Agrees(r, ReadHole(old(Rest()), env.args))
    {
      assert Rest()[1..] == chars[pos + 1..];
      pos := pos + 1;
      var start := pos;
      SkipWhile(Decimal.IsDigit);
      var digits := chars[start..pos];
      assert digits == chars[start..][..pos - start];
      var n := Decimal.Value(digits);
      if digits == "" || n > USIZE_MAX {
        return Err(Malformed);
      }
      r := if n < |env.args| then Ok(Given(env.args[n])) else Err(NoArgument(n));
    }

    method NumberHere() returns (r: Result<Shape, Failure>)
      requires Valid() && Rest() != "" && Decimal.IsDigit(Rest()[0])
      modifies this`pos
      ensures Valid() && Agrees(r, ReadNumber(old(Rest())))
    {
      var start := pos;
      SkipWhile(Decimal.IsDigit);
      assert chars[start..pos] == chars[start..][..pos - start];
      var n := Decimal.Value(chars[start..pos]);
      r := if n > I64_MAX then Err(Malformed) else Ok(NumberLit(n));
    }

    method TextHere() returns (r: Result<Shape, Failure>)
      requires Valid() && Starts(Rest(), '\'')
      modifies this`pos
      ensures Valid() && Agrees(r, ReadText(old(Rest())[1..]))
    {
      hide Spans.Span, Trimmed;
      ghost var s := Rest()[1..];
      assert s == chars[pos + 1..];
      pos := pos + 1;
      var text := "";
      assert forall t: string :: text + t == t;
      while true
        invariant Valid()
        invariant Continues(ReadText(s), text, ReadText(Rest()))
        decreases |chars| - pos
      {
        ghost var from := Rest();
        if pos == |chars| {
          return Err(Unterminated);
        }
        var c := chars[pos];
        if c == '\'' && pos + 1 < |chars| && chars[pos + 1] == '\'' {
          assert from[2..] == chars[pos + 2..];
          pos := pos + 2;
          ContinuesOn(s, text, from, "'", Rest());
          text := text + "'";
        } else if c == '\'' {
          assert from[1..] == chars[pos + 1..];
          pos := pos + 1;
          assert text + "" == text;
          return Ok(TextLit(text));
        } else {
          assert from[1..] == chars[pos + 1..];
          pos := pos + 1;
          ContinuesOn(s, text, from, [c], Rest());
          text := text + [c];
        }
      }
    }

    /** The whole reading is what is read so far, and then the reading of what is left. */
    ghost predicate Continues(whole: Read<Shape>, text: string, left: Read<Shape>)
      requires left.Ok? ==> left.value.0.TextLit?
    {
      whole == if left.Ok? then Ok((TextLit(text + left.value.0.text), left.value.1)) else left
    }

    lemma {:induction false} ContinuesOn(s: string, text: string, from: string, one: string, rest: string)
      requires Continues(ReadText(s), text, ReadText(from))
      requires ReadText(from) == (var more := ReadText(rest);
                 if more.Err? then more else Ok((TextLit(one + more.value.0.text), more.value.1)))
      ensures Continues(ReadText(s), text + one, ReadText(rest))
    {
      if ReadText(rest).Ok? {
        assert text + (one + ReadText(rest).value.0.text) == text + one + ReadText(rest).value.0.text;
      }
    }

    method GroupHere() returns (r: Result<Shape, Failure>)
      requires Valid() && Starts(Rest(), '(')
      modifies this`pos
      ensures Valid() && Agrees(r, Closed(ReadExpr(old(Rest())[1..], env)))
      decreases |chars| - pos, 0
    {
      assert Rest()[1..] == chars[pos + 1..];
      pos := pos + 1;
      r := Expr();
      if r.Err? {
        return;
      }
      var closed := EatChar(')');
      if !closed {
        r := Err(NoParenthesis);
      }
    }

    method WordHere(c: char) returns (r: Result<Shape, Failure>)
      requires Valid() && Starts(Rest(), c) && Trimmed(Rest()) == Rest()
      modifies this`pos
      ensures Valid() && Agrees(r, WordAt(old(Rest()), env))
      decreases |chars| - pos, 0
    {
      hide Spans.Span, Trimmed;
      var cast := EatKw("CAST");
      if cast {
        r := CastHere();
        return;
      }
      var case_ := EatKw("CASE");
      if case_ {
        r := CaseHere();
        return;
      }
      if !env.letter(c) && c != '_' {
        return Err(Unexpected(c));
      }
      var start := pos;
      SkipWhile(WordChars(env));
      assert chars[start..pos] == chars[start..][..pos - start];
      r := CallHere(chars[start..pos]);
    }

    method CastHere() returns (r: Result<Shape, Failure>)
      requires Valid()
      modifies this`pos
      ensures Valid() && Agrees(r, ReadCast(old(Rest()), env))
      decreases |chars| - pos, 4
    {
      hide Spans.Span, Trimmed;
      var open := EatChar('(');
      if !open {
        return Err(NoParenthesis);
      }
      var inner := Expr();
      if inner.Err? {
        return inner;
      }
      var as_ := ExpectKw("AS");
      if as_.Err? {
        return Err(as_.error);
      }
      SkipWs();
      r := TypeHere(inner.value);
    }

    method TypeHere(inner: Shape) returns (r: Result<Shape, Failure>)
      requires Valid()
      modifies this`pos
      ensures Valid() && Agrees(r, ReadType(inner, old(Rest())))
    {
      hide Spans.Span, Trimmed, TypeSpan, Trim, TrimEnd, CastTarget;
      var start := pos;
      SkipType();
      var ty := chars[start..pos];
      assert ty == chars[start..][..pos - start];
      var closed := EatChar(')');
      if !closed {
        return Err(NoParenthesis);
      }
      var target := CastTarget(Trim(ty));
      r := if target.None? then Err(NotMapped(Trim(ty))) else Ok(CastTo(inner, target.value));
    }

    method SkipType()
      requires Valid()
      modifies this`pos
      ensures Valid() && pos == old(pos) + TypeSpan(old(Rest()), 0)
      ensures Rest() == old(Rest())[TypeSpan(old(Rest()), 0)..]
    {
      var depth: nat := 0;
      ghost var s := Rest();
      var open := true;
      while open && pos < |chars|
        invariant old(pos) <= pos <= |chars|
        invariant TypeSpan(s, 0) == pos - old(pos) + if open then TypeSpan(Rest(), depth) else 0
        decreases |chars| - pos, open
      {
        assert Rest()[1..] == chars[pos + 1..];
        if chars[pos] == ')' && depth == 0 {
          open := false;
        } else {
          depth := if chars[pos] == '(' then depth + 1 else if chars[pos] == ')' then depth - 1 else depth;
          pos := pos + 1;
        }
      }
      assert Rest() == s[pos - old(pos)..];
    }

    method CaseHere() returns (r: Result<Shape, Failure>)
      requires Valid()
      modifies this`pos
      ensures Valid() && Agrees(r, ReadCase(old(Rest()), env))
      decreases |chars| - pos, 4, 1
    {
      hide Spans.Span, Trimmed;
      var w := AfterHere("WHEN");
      if w.Err? {
        return w;
      }
      var t := AfterHere("THEN");
      if t.Err? {
        return t;
      }
      var o := AfterHere("ELSE");
      if o.Err? {
        return o;
      }
      var end := ExpectKw("END");
      if end.Err? {
        return Err(end.error);
      }
      r := if env.builds(w.value, t.value, o.value) then Ok(Case(w.value, t.value, o.value)) else Err(CaseRejected);
    }

    method AfterHere(kw: string) returns (r: Result<Shape, Failure>)
      requires Valid() && kw != ""
      modifies this`pos
      ensures Valid() && Agrees(r, ReadAfter(kw, old(Rest()), env))
      decreases |chars| - pos, 4, 0
    {
      var here := ExpectKw(kw);
      if here.Err? {
        return Err(here.error);
      }
      r := Expr();
    }

    method CallHere(name: string) returns (r: Result<Shape, Failure>)
      requires Valid()
      modifies this`pos
      ensures Valid() && Agrees(r, ReadCall(name, old(Rest()), env))
      decreases |chars| - pos, 6
    {
      hide Spans.Span, Trimmed;
      var open := EatChar('(');
      if !open {
        return Err(BareName(name));
      }
      var given := GivenHere(name);
      if given.Err? {
        return Err(given.error);
      }
      var f := env.resolve(name);
      r := if f.None? then Err(NotAFunction(name)) else Ok(Call(f.value, given.value));
    }

    method GivenHere(name: string) returns (r: Result<seq<Shape>, Failure>)
      requires Valid()
      modifies this`pos
      ensures Valid() && Agrees(r, ReadGiven(name, old(Rest()), env))
      decreases |chars| - pos, 5
    {
      var empty := EatChar(')');
      if empty {
        return Ok([]);
      }
      r := ArgsHere(name);
    }

    method ArgsHere(name: string) returns (r: Result<seq<Shape>, Failure>)
      requires Valid()
      modifies this`pos
      ensures Valid() && Agrees(r, ReadArgs(name, old(Rest()), env))
      decreases |chars| - pos, 4
    {
      hide Spans.Span, Trimmed;
      ghost var s := Rest();
      var given: seq<Shape> := [];
      assert forall t: seq<Shape> :: given + t == t;
      while true
        invariant Valid() && |Rest()| <= |s|
        invariant Follows(ReadArgs(name, s, env), given, ReadArgs(name, Rest(), env))
        decreases |chars| - pos
      {
        ghost var from := Rest();
        var e := Expr();
        if e.Err? {
          return Err(e.error);
        }
        given := given + [e.value];
        ghost var after := Rest();
        TrimmedOnce(after);
        var comma := EatChar(',');
        if !comma {
          var closed := EatChar(')');
          return if closed then Ok(given) else Err(BadArguments(name));
        }
        FollowsOn(name, s, given[..|given| - 1], from, e.value, Rest());
        assert given[..|given| - 1] + [e.value] == given;
      }
    }

    lemma {:induction false} FollowsOn(
      name: string, s: string, given: seq<Shape>, from: string, one: Shape, rest: string)
      requires Follows(ReadArgs(name, s, env), given, ReadArgs(name, from, env))
      requires ReadArgs(name, from, env) == (var more := ReadArgs(name, rest, env);
                 if more.Err? then more else Ok(([one] + more.value.0, more.value.1)))
      ensures Follows(ReadArgs(name, s, env), given + [one], ReadArgs(name, rest, env))
    {
      var more := ReadArgs(name, rest, env);
      if more.Ok? {
        assert given + ([one] + more.value.0) == given + [one] + more.value.0;
      }
    }

    /** The whole list is the arguments read so far, and then the list that is left. */
    ghost predicate Follows(whole: Read<seq<Shape>>, given: seq<Shape>, left: Read<seq<Shape>>) {
      whole == if left.Ok? then Ok((given + left.value.0, left.value.1)) else left
    }
  }

  /** `render_expr_template`. */
  method Render(template: string, env: Env) returns (r: Result<Shape, Failure>)
    ensures r == Reading(template, env)
  {
    var reader := new Reader(template, env);
    r := reader.Expr();
    if r.Err? {
      return;
    }
    reader.SkipWs();
    if reader.pos < |reader.chars| {
      return Err(Trailing(reader.chars[reader.pos..]));
    }
  }
}
