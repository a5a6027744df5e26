/** Text in code-point order: what a sorted list of names is sorted by. */
module Text {

  /** Lexicographic order, a prefix first. */
  predicate Le(a: string, b: string) {
    a == [] || (b != [] && (a[0] < b[0] || (a[0] == b[0] && Le(a[1..], b[1..]))))
  }

  predicate Lt(a: string, b: string) {
    Le(a, b) && a != b
  }

  lemma {:induction false} Total(a: string, b: string)
    ensures Le(a, b) || Le(b, a)
  {
    if a != [] && b != [] {
      Total(a[1..], b[1..]);
    }
  }

  lemma {:induction false} Antisymmetric(a: string, b: string)
    requires Le(a, b) && Le(b, a)
    ensures a == b
  {
    if a != [] && b != [] {
      Antisymmetric(a[1..], b[1..]);
      assert a == [a[0]] + a[1..] && b == [b[0]] + b[1..];
    }
  }

  lemma {:induction false} Transitive(a: string, b: string, c: string)
    requires Le(a, b) && Le(b, c)
    ensures Le(a, c)
  {
    if a != [] && a[0] == b[0] && b[0] == c[0] {
      Transitive(a[1..], b[1..], c[1..]);
    }
  }

  lemma {:induction false} Reflexive(a: string)
    ensures Le(a, a)
  {
    if a == [] {
    } else {
      Reflexive(a[1..]);
    }
  }

  // ------------------------------------------------------------------ where two texts part

  /** `a` comes before `b` in a dictionary of code points: where they part, it has ended or has the lesser. */
  ghost predicate Before(a: string, b: string) {
    exists k :: Parts(a, b, k)
  }

  predicate Parts(a: string, b: string, k: int) {
    0 <= k <= |a| && k < |b| && a[..k] == b[..k] && (k == |a| || a[k] < b[k])
  }

  lemma {:induction false} LeParts(a: string, b: string)
    ensures Le(a, b) && a != b ==> Before(a, b)
  {
    if a == [] {
      assert b != [] ==> Parts(a, b, 0);
    } else if b != [] && a[0] < b[0] {
      assert Parts(a, b, 0);
    } else if b != [] && a[0] == b[0] && Le(a[1..], b[1..]) && a != b {
      assert a == [a[0]] + a[1..] && b == [b[0]] + b[1..];
      LeParts(a[1..], b[1..]);
      var k :| Parts(a[1..], b[1..], k);
      assert a[..k + 1] == [a[0]] + a[1..][..k] && b[..k + 1] == [b[0]] + b[1..][..k];
      assert Parts(a, b, k + 1);
    }
  }

  lemma {:induction false} PartsLe(a: string, b: string, k: int)
    requires Parts(a, b, k)
    ensures Le(a, b) && a != b
    decreases k
  {
    if k == 0 {
    } else {
      assert a[0] == a[..k][0] && b[0] == b[..k][0];
      assert a[1..][..k - 1] == a[..k][1..] && b[1..][..k - 1] == b[..k][1..];
      PartsLe(a[1..], b[1..], k - 1);
    }
  }

  lemma {:induction false} BeforeIsApart(a: string, b: string)
    requires Before(a, b)
    ensures a != b && Le(a, b)
  {
    var k :| Parts(a, b, k);
    PartsLe(a, b, k);
  }

  /** The order is a dictionary's. */
  lemma {:induction false} LeIsBefore(a: string, b: string)
    ensures Le(a, b) <==> a == b || Before(a, b)
  {
    LeParts(a, b);
    Reflexive(a);
    if k :| Parts(a, b, k) {
      PartsLe(a, b, k);
    }
  }

  // ------------------------------------------------------------------ sorted sets

  /** Each text before the next: a sorted list with no repeats. */
  ghost predicate Ascending(s: seq<string>) {
    forall i, j | 0 <= i < j < |s| :: Lt(s[i], s[j])
  }

  lemma {:induction false} Extend(s: seq<string>, x: string)
    requires Ascending(s)
    requires s != [] ==> Lt(s[|s| - 1], x)
    ensures Ascending(s + [x])
  {
    var t := s + [x];
    forall i, j | 0 <= i < j < |t| ensures Lt(t[i], t[j]) {
      if j == |s| && i < |s| - 1 {
        LtTransitive(s[i], s[|s| - 1], x);
      }
    }
  }

  lemma {:induction false} LtTransitive(a: string, b: string, c: string)
    requires Lt(a, b) && Le(b, c)
    ensures Lt(a, c)
  {
    Transitive(a, b, c);
    if a == c {
      Antisymmetric(a, b);
    }
  }

  /** `sort` then `dedup`, an element at a time: where `x` goes in a sorted list with no repeats. */
  method Insert(s: seq<string>, x: string) returns (out: seq<string>)
    requires Ascending(s)
    ensures Ascending(out)
    ensures forall y :: y in out <==> y in s || y == x
  {
    var k := |s|;
    while k > 0 && Le(x, s[k - 1])
      invariant 0 <= k <= |s|
      invariant k < |s| ==> Le(x, s[k])
    {
      k := k - 1;
    }
    if k < |s| && s[k] == x {
      out := s;
    } else {
      if k > 0 {
        Total(x, s[k - 1]);
        Reflexive(x);
      }
      InsertKeepsOrder(s, k, x);
      InsertAddsOne(s, k, x);
      out := s[..k] + [x] + s[k..];
    }
  }

  lemma {:induction false} InsertAddsOne(s: seq<string>, k: int, x: string)
    requires 0 <= k <= |s|
    ensures forall y :: y in s[..k] + [x] + s[k..] <==> y in s || y == x
  {
    assert s == s[..k] + s[k..];
  }

  lemma {:induction false} InsertKeepsOrder(s: seq<string>, k: int, x: string)
    requires Ascending(s) && 0 <= k <= |s|
    requires k > 0 ==> Lt(s[k - 1], x)
    requires k < |s| ==> Lt(x, s[k])
    ensures Ascending(s[..k] + [x] + s[k..])
  {
    forall i | 0 <= i < k ensures Lt(s[i], x) {
      if i < k - 1 {
        LtTransitive(s[i], s[k - 1], x);
      }
    }
    forall j | k <= j < |s| ensures Lt(x, s[j]) {
      if k < j {
        LtTransitive(x, s[k], s[j]);
      }
    }
  }
}
