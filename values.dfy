/** Column values as the database driver hands them to the application:
    SQL NULL (Python's None), a number or a piece of text. The slot table's
    columns tipo_almacen, piso, rack and letra all arrive as such values, and
    the dropdown filters that the user picks are the same values again. */
module Values {

  datatype Value = Null | Num(n: int) | Text(s: string)

  datatype Option<T> = None | Some(value: T)

  /** Python truthiness of a value: None, 0 and the empty string are falsy. */
  predicate Truthy(v: Value) {
    match v
    case Null => false
    case Num(n) => n != 0
    case Text(s) => s != []
  }

  /** Python's ordering of strings: character by character on code points,
      a proper prefix before the longer string. */
  predicate StrLess(a: string, b: string)
    decreases |a|
  {
    if a == [] then b != []
    else if b == [] then false
    else if a[0] != b[0] then a[0] < b[0]
    else StrLess(a[1..], b[1..])
  }

  /** Which kind of value: used only to order values of different kinds. */
  function Kind(v: Value): nat {
    match v
    case Null => 0
    case Num(_) => 1
    case Text(_) => 2
  }

  /** The order `sorted` uses on one column: numbers numerically, text as
      Python compares strings. Python refuses to compare values of different
      kinds; this order puts None before numbers before text instead. */
  predicate Less(a: Value, b: Value) {
    if Kind(a) != Kind(b) then Kind(a) < Kind(b)
    else match (a, b)
      case (Num(x), Num(y)) => x < y
      case (Text(x), Text(y)) => StrLess(x, y)
      case _ => false
  }

  lemma {:induction false} StrLessIrreflexive(a: string)
    ensures !StrLess(a, a)
    decreases |a|
  {
    if a != [] {
      StrLessIrreflexive(a[1..]);
    }
  }

  lemma {:induction false} StrLessTransitive(a: string, b: string, c: string)
    requires StrLess(a, b) && StrLess(b, c)
    ensures StrLess(a, c)
    decreases |a|
  {
    if a != [] && b != [] && c != [] && a[0] == b[0] && b[0] == c[0] {
      StrLessTransitive(a[1..], b[1..], c[1..]);
    }
  }

  lemma {:induction false} StrLessTotal(a: string, b: string)
    requires a != b
    ensures StrLess(a, b) || StrLess(b, a)
    decreases |a|
  {
    if a != [] && b != [] && a[0] == b[0] {
      assert a == [a[0]] + a[1..] && b == [b[0]] + b[1..];
      StrLessTotal(a[1..], b[1..]);
    }
  }

  lemma LessIrreflexive(a: Value)
    ensures !Less(a, a)
  {
    if a.Text? {
      StrLessIrreflexive(a.s);
    }
  }

  lemma LessTransitive(a: Value, b: Value, c: Value)
    requires Less(a, b) && Less(b, c)
    ensures Less(a, c)
  {
    if a.Text? && b.Text? && c.Text? {
      StrLessTransitive(a.s, b.s, c.s);
    }
  }

  lemma LessTotal(a: Value, b: Value)
    requires a != b
    ensures Less(a, b) || Less(b, a)
  {
    if a.Text? && b.Text? {
      StrLessTotal(a.s, b.s);
    }
  }

  lemma LessAsymmetric(a: Value, b: Value)
    requires Less(a, b)
    ensures !Less(b, a)
  {
    if Less(b, a) {
      LessTransitive(a, b, a);
      LessIrreflexive(a);
    }
  }
}
