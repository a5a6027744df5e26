/** A header's names made unique, compared without case: a name taken grows suffixes until it is free. */
module Names {
  import Decimal

  function LowerChar(c: char): char {
    if 'A' <= c <= 'Z' then c + 'a' - 'A' else c
  }

  function Lower(s: string): (r: string)
    ensures |r| == |s| && forall i | 0 <= i < |s| :: r[i] == LowerChar(s[i])
  {
    if s == "" then "" else [LowerChar(s[0])] + Lower(s[1..])
  }

  /** The names taken, and how many times each was asked for again. */
  type Taken = map<string, nat>

  /** The taken names a name this long, or longer, can still meet. */
  function Ahead(taken: Taken, length: nat): set<string> {
    set k | k in taken.Keys && |k| >= length
  }

  lemma {:induction false} LongerMeetsFewer(taken: Taken, name: string, longer: string)
    requires Lower(name) in taken && |name| < |longer|
    ensures |Ahead(taken, |longer|)| < |Ahead(taken, |name|)|
  {
    var more, fewer := Ahead(taken, |name|), Ahead(taken, |longer|);
    assert Lower(name) in more && Lower(name) !in fewer;
    Fewer(fewer, more - {Lower(name)});
  }

  lemma {:induction false} Fewer(a: set<string>, b: set<string>)
    requires a <= b
    ensures |a| <= |b|
  {
    if a != {} {
      var x :| x in a;
      Fewer(a - {x}, b - {x});
    }
  }

  lemma {:induction false} CountingMeetsTheSame(taken: Taken, key: string, n: nat, length: nat)
    requires key in taken
    ensures Ahead(taken[key := n], length) == Ahead(taken, length)
  {
  }

  function Grown(name: string, count: nat): (r: string)
    ensures |r| > |name|
  {
    name + "_" + Decimal.Text(count)
  }

  /** The name it becomes, and what is counted on the way. It ends: a candidate only lengthens, and the names
      taken are finite. */
  function Free(name: string, taken: Taken): (r: (string, Taken))
    ensures Lower(r.0) !in taken && r.1.Keys == taken.Keys
    ensures Lower(name) !in taken ==> r == (name, taken)
    decreases |Ahead(taken, |name|)|
  {
    var key := Lower(name);
    if key !in taken then (name, taken)
    else
      var count := taken[key] + 1;
      LongerMeetsFewer(taken, name, Grown(name, count));
      CountingMeetsTheSame(taken, key, count, |Grown(name, count)|);
      Free(Grown(name, count), taken[key := count])
  }

  function UniqueNames(names: seq<string>, taken: Taken): (out: seq<string>)
    ensures |out| == |names|
  {
    if names == [] then []
    else
      var f := Free(names[0], taken);
      [f.0] + UniqueNames(names[1..], f.1[Lower(f.0) := 0])
  }

  /** `unique_column_names`. */
  method UniqueColumnNames(names: seq<string>) returns (out: seq<string>)
    ensures out == UniqueNames(names, map[])
  {
    var taken: Taken := map[];
    out := [];
    for i := 0 to |names|
      invariant out + UniqueNames(names[i..], taken) == UniqueNames(names, map[])
    {
      assert names[i..][0] == names[i] && names[i..][1..] == names[i + 1..];
      ghost var free := Free(names[i], taken);
      var name := names[i];
      while Lower(name) in taken
        invariant Free(name, taken) == free
        decreases |Ahead(taken, |name|)|
      {
        var key := Lower(name);
        var count := taken[key] + 1;
        LongerMeetsFewer(taken, name, Grown(name, count));
        CountingMeetsTheSame(taken, key, count, |Grown(name, count)|);
        taken := taken[key := count];
        name := Grown(name, count);
      }
      taken := taken[Lower(name) := 0];
      out := out + [name];
    }
  }

  // ------------------------------------------------------------------ what it promises

  predicate DistinctIgnoringCase(names: seq<string>) {
    forall i, j | 0 <= i < j < |names| :: Lower(names[i]) != Lower(names[j])
  }

  /** `name`, and some suffixes after it. */
  ghost predicate Extends(name: string, out: string)
    decreases |out|
  {
    || out == name
    || exists shorter, count | 1 <= count && |shorter| < |out| :: Extends(name, shorter) && out == Grown(shorter, count)
  }

  lemma {:induction false} FreeExtends(base: string, name: string, taken: Taken)
    requires Extends(base, name)
    ensures Extends(base, Free(name, taken).0)
    decreases |Ahead(taken, |name|)|
  {
    var key := Lower(name);
    if key in taken {
      var count := taken[key] + 1;
      LongerMeetsFewer(taken, name, Grown(name, count));
      CountingMeetsTheSame(taken, key, count, |Grown(name, count)|);
      assert Extends(base, Grown(name, count));
      FreeExtends(base, Grown(name, count), taken[key := count]);
    }
  }

  /** No two names are the same whatever their case, none is one of those taken, and each is the name at its
      place with suffixes. */
  lemma {:induction false} NamesAreUnique(names: seq<string>, taken: Taken)
    ensures var out := UniqueNames(names, taken);
            && DistinctIgnoringCase(out)
            && (forall i | 0 <= i < |out| :: Lower(out[i]) !in taken && Extends(names[i], out[i]))
  {
    if names == [] {
    } else {
      var f := Free(names[0], taken);
      NamesAreUnique(names[1..], f.1[Lower(f.0) := 0]);
      FreeExtends(names[0], names[0], taken);
      var rest := UniqueNames(names[1..], f.1[Lower(f.0) := 0]);
      assert UniqueNames(names, taken) == [f.0] + rest;
      assert forall i | 0 <= i < |rest| :: Lower(rest[i]) != Lower(f.0);
    }
  }

  /** Names apart already, from each other and from those taken, stand. */
  lemma {:induction false} DistinctNamesStand(names: seq<string>, taken: Taken)
    requires DistinctIgnoringCase(names) && forall i | 0 <= i < |names| :: Lower(names[i]) !in taken
    ensures UniqueNames(names, taken) == names
  {
    if names == [] {
    } else {
      DistinctNamesStand(names[1..], taken[Lower(names[0]) := 0]);
    }
  }

  /** So a header already distinct is its own, and doing it twice is doing it once. */
  lemma {:induction false} UniqueOnce(names: seq<string>)
    ensures DistinctIgnoringCase(names) <==> UniqueNames(names, map[]) == names
    ensures UniqueNames(UniqueNames(names, map[]), map[]) == UniqueNames(names, map[])
  {
    NamesAreUnique(names, map[]);
    DistinctNamesStand(UniqueNames(names, map[]), map[]);
    if DistinctIgnoringCase(names) {
      DistinctNamesStand(names, map[]);
    }
  }

  /** The two names differ, if at all, in the case of letters from `A` to `Z`. */
  predicate SameButCase(a: string, b: string) {
    |a| == |b| && forall i | 0 <= i < |a| :: a[i] == b[i] || UpperOf(a[i], b[i]) || UpperOf(b[i], a[i])
  }

  predicate UpperOf(c: char, d: char) {
    'A' <= c <= 'Z' && d as int == c as int + 32
  }

  lemma {:induction false} LowerIsSameButCase(a: string, b: string)
    ensures Lower(a) == Lower(b) <==> SameButCase(a, b)
  {
    if |a| == |b| {
      forall i | 0 <= i < |a|
        ensures Lower(a)[i] == Lower(b)[i] <==> a[i] == b[i] || UpperOf(a[i], b[i]) || UpperOf(b[i], a[i])
      {}
    }
    assert SameButCase(a, b) ==> Lower(a) == Lower(b);
  }

  /** No two names of a header made unique differ in case alone. */
  lemma {:induction false} NoTwoDifferInCaseAlone(names: seq<string>, i: nat, j: nat)
    requires i < j < |UniqueNames(names, map[])|
    ensures !SameButCase(UniqueNames(names, map[])[i], UniqueNames(names, map[])[j])
  {
    NamesAreUnique(names, map[]);
    LowerIsSameButCase(UniqueNames(names, map[])[i], UniqueNames(names, map[])[j]);
  }

  /** The first to ask for a name has it. */
  lemma {:induction false} FirstNameStands(names: seq<string>, taken: Taken, i: nat)
    requires i < |names| && Lower(names[i]) !in taken
    requires forall j | 0 <= j < i :: Lower(UniqueNames(names, taken)[j]) != Lower(names[i])
    ensures UniqueNames(names, taken)[i] == names[i]
  {
    if i == 0 {
    } else {
      var f := Free(names[0], taken);
      var rest := UniqueNames(names[1..], f.1[Lower(f.0) := 0]);
      assert UniqueNames(names, taken) == [f.0] + rest;
      assert UniqueNames(names, taken)[0] == f.0;
      forall j | 0 <= j < i - 1
        ensures Lower(rest[j]) != Lower(names[1..][i - 1])
      {
        assert UniqueNames(names, taken)[j + 1] == rest[j];
      }
      FirstNameStands(names[1..], f.1[Lower(f.0) := 0], i - 1);
    }
  }

  lemma {:induction false} LowerIs(s: string, t: string)
    requires |s| == |t| && forall i | 0 <= i < |s| :: t[i] == LowerChar(s[i])
    ensures Lower(s) == t
  {
  }

  /** The header the rule is documented by. */
  lemma {:induction false} DocumentedHeader()
    ensures UniqueNames(["a", "a", "a_1", "b", "a"], map[]) == ["a", "a_1", "a_1_1", "b", "a_2"]
  {
    hide Lower, Free, UniqueNames, Grown;
    LowerIs("a", "a");
    LowerIs("b", "b");
    LowerIs("a_1", "a_1");
    LowerIs("a_2", "a_2");
    LowerIs("a_1_1", "a_1_1");
    assert ["a"][1..] == [] && ["b", "a"][1..] == ["a"] && ["a_1", "b", "a"][1..] == ["b", "a"];
    assert ["a", "a_1", "b", "a"][1..] == ["a_1", "b", "a"]
        && ["a", "a", "a_1", "b", "a"][1..] == ["a", "a_1", "b", "a"];
    var t1: Taken := map["a" := 0];
    var t2: Taken := map["a" := 1, "a_1" := 0];
    var t3: Taken := map["a" := 1, "a_1" := 1, "a_1_1" := 0];
    var t4: Taken := t3["b" := 0];
    GrownExamples();
    TakenOnce("a", t1, "a_1");
    TakenOnce("a_1", t2, "a_1_1");
    TakenOnce("a", t4, "a_2");
    assert t1["a" := 1] == map["a" := 1] && t2["a_1" := 1] == map["a" := 1, "a_1" := 1];
    UniqueStep(["a"], t4, "a_2", t4["a" := 2], [], ["a_2"]);
    UniqueStep(["b", "a"], t3, "b", t3, ["a_2"], ["b", "a_2"]);
    UniqueStep(["a_1", "b", "a"], t2, "a_1_1", map["a" := 1, "a_1" := 1], ["b", "a_2"], ["a_1_1", "b", "a_2"]);
    UniqueStep(["a", "a_1", "b", "a"], t1, "a_1", map["a" := 1], ["a_1_1", "b", "a_2"], ["a_1", "a_1_1", "b", "a_2"]);
    UniqueStep(["a", "a", "a_1", "b", "a"], map[], "a", map[], ["a_1", "a_1_1", "b", "a_2"],
        ["a", "a_1", "a_1_1", "b", "a_2"]);
  }

  lemma {:induction false} UniqueStep(
    names: seq<string>, taken: Taken, free: string, after: Taken, rest: seq<string>, out: seq<string>)
    requires names != [] && Free(names[0], taken) == (free, after)
    requires UniqueNames(names[1..], after[Lower(free) := 0]) == rest && out == [free] + rest
    ensures UniqueNames(names, taken) == out
  {
  }

  lemma {:induction false} GrownExamples()
    ensures Grown("a", 1) == "a_1" && Grown("a", 2) == "a_2" && Grown("a_1", 1) == "a_1_1"
  {
    assert Decimal.Text(1) == "1" && Decimal.Text(2) == "2";
  }

  lemma {:induction false} TakenOnce(name: string, taken: Taken, grown: string)
    requires Lower(name) in taken && Grown(name, taken[Lower(name)] + 1) == grown && Lower(grown) !in taken
    ensures Free(name, taken) == (grown, taken[Lower(name) := taken[Lower(name)] + 1])
  {
  }
}
