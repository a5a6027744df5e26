/** The types a program can have, and which of them satisfies which. */
module Types {
  import opened Common

  datatype Precision = Year | Date | DateTime | Hour

  datatype Primitive = Str | LangStr | Integer | Float | Bool | Time(at: Precision) | Uri

  /** `Error` is the taint: something was reported, and nothing more is said of it. */
  datatype Ty =
    | Prim(p: Primitive)
    | Seq(inner: Ty)
    | Record(fields: seq<Field>)
    | Null
    | Relation(rows: seq<(string, Option<Ty>)>)
    | Ref(shapes: seq<string>)
    | Error

  datatype Field = Field(name: string, ty: Ty)

  const STRING: Ty := Prim(Str)
  const LANG_STRING: Ty := Prim(LangStr)
  const INTEGER: Ty := Prim(Integer)
  const FLOAT: Ty := Prim(Float)
  const BOOL: Ty := Prim(Bool)
  const URI: Ty := Prim(Uri)

  /** Does a value of type `actual` satisfy a slot of type `expected`? A type satisfies itself, an error
      everything, an integer a float, a narrower set of shapes a wider one, and a sequence by its values. */
  predicate Subtypes(actual: Ty, expected: Ty) {
    if actual == expected then true
    else if actual.Error? || expected.Error? then true
    else if actual == INTEGER && expected == FLOAT then true
    else if actual.Ref? && expected.Ref? then forall s | s in actual.shapes :: s in expected.shapes
    else if actual.Seq? && expected.Seq? then Subtypes(actual.inner, expected.inner)
    else false
  }

  /** No taint where the order looks. */
  predicate Untainted(t: Ty) {
    if t.Seq? then Untainted(t.inner) else !t.Error?
  }

  lemma {:induction false} SubtypesIsTransitive(a: Ty, b: Ty, c: Ty)
    requires Untainted(a) && Untainted(b) && Untainted(c)
    requires Subtypes(a, b) && Subtypes(b, c)
    ensures Subtypes(a, c)
  {
    if a != b && b != c && a.Seq? {
      SubtypesIsTransitive(a.inner, b.inner, c.inner);
    }
  }

  /** Two types satisfy each other exactly when they differ at most in how a reference lists its shapes. */
  lemma {:induction false} SubtypesIsAntisymmetric(a: Ty, b: Ty)
    requires Untainted(a) && Untainted(b)
    ensures Subtypes(a, b) && Subtypes(b, a) <==> a == b || SameShapes(a, b)
  {
    if a != b && a.Seq? && b.Seq? {
      SubtypesIsAntisymmetric(a.inner, b.inner);
    }
  }

  ghost predicate SameShapes(a: Ty, b: Ty) {
    match (a, b)
    case (Ref(s), Ref(t)) => forall x :: x in s <==> x in t
    case (Seq(x), Seq(y)) => x == y || SameShapes(x, y)
    case _ => false
  }
}
