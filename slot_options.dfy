/** The dropdown options for a new slot assignment
    (`obtener_opciones_disponibles`): the user's non-empty filters become
    `column = ?` conditions with their parameters, the database returns the
    locations of the free slots that satisfy them, and each of the four
    columns is offered as a sorted list without repetitions; floor, rack and
    letter lists leave out falsy values. */
module SlotOptions {
  import opened Values

  datatype Column = KindColumn | FloorColumn | RackColumn | LetterColumn

  /** The fixed order in which filters are turned into conditions:
      tipo_almacen, piso, rack, letra. */
  function Order(c: Column): nat {
    match c
    case KindColumn => 0
    case FloorColumn => 1
    case RackColumn => 2
    case LetterColumn => 3
  }

  function ColumnName(c: Column): string {
    match c
    case KindColumn => "tipo_almacen"
    case FloorColumn => "piso"
    case RackColumn => "rack"
    case LetterColumn => "letra"
  }

  /** The WHERE-clause condition that one filter contributes. */
  function Condition(c: Column): string {
    ColumnName(c) + " = ?"
  }

  /** The column a condition tests, as the database reads the text back. */
  function ConditionColumn(cond: string): (r: Option<Column>)
    ensures r.Some? ==> Condition(r.value) == cond
  {
    if cond == Condition(KindColumn) then Some(KindColumn)
    else if cond == Condition(FloorColumn) then Some(FloorColumn)
    else if cond == Condition(RackColumn) then Some(RackColumn)
    else if cond == Condition(LetterColumn) then Some(LetterColumn)
    else None
  }

  /** The four columns of a slot that the options are drawn from. The user's
      filters have the same shape: one value per column, falsy when unset. */
  datatype Location = Location(kind: Value, floor: Value, rack: Value, letter: Value)

  type Filters = Location

  function Get(loc: Location, c: Column): Value {
    match c
    case KindColumn => loc.kind
    case FloorColumn => loc.floor
    case RackColumn => loc.rack
    case LetterColumn => loc.letter
  }

  /** A row of the slot table as far as this query reads it. */
  datatype SlotRow = SlotRow(location: Location, status: string)

  predicate IsFree(row: SlotRow) {
    row.status == "Libre"
  }

  /** A location passes the filters when it agrees with every filter that is set. */
  predicate Matches(f: Filters, loc: Location) {
    forall c :: Truthy(Get(f, c)) ==> Get(loc, c) == Get(f, c)
  }

  /** The columns whose filter is set, in the fixed order. */
  function ActiveColumns(f: Filters): (cols: seq<Column>)
    ensures forall i, j :: 0 <= i < j < |cols| ==> Order(cols[i]) < Order(cols[j])
    ensures forall c :: c in cols <==> Truthy(Get(f, c))
  {
    (if Truthy(f.kind) then [KindColumn] else [])
    + (if Truthy(f.floor) then [FloorColumn] else [])
    + (if Truthy(f.rack) then [RackColumn] else [])
    + (if Truthy(f.letter) then [LetterColumn] else [])
  }

  /** Builds the condition list and the parallel parameter list by appending
      one entry to each for every filter that is set, in the fixed order. */
  method BuildConditions(f: Filters) returns (conditions: seq<string>, params: seq<Value>)
    ensures |conditions| == |params| == |ActiveColumns(f)|
    ensures forall i :: 0 <= i < |conditions| ==>
      conditions[i] == Condition(ActiveColumns(f)[i]) && params[i] == Get(f, ActiveColumns(f)[i])
  {
    conditions := [];
    params := [];
    if Truthy(f.kind) {
      conditions := conditions + [Condition(KindColumn)];
      params := params + [f.kind];
    }
    if Truthy(f.floor) {
      conditions := conditions + [Condition(FloorColumn)];
      params := params + [f.floor];
    }
    if Truthy(f.rack) {
      conditions := conditions + [Condition(RackColumn)];
      params := params + [f.rack];
    }
    if Truthy(f.letter) {
      conditions := conditions + [Condition(LetterColumn)];
      params := params + [f.letter];
    }
  }

  /** The query text before any condition, as the code writes it: a
      triple-quoted string with its line breaks and indentation. */
  const BaseQuery: string :=
    "\n            SELECT DISTINCT tipo_almacen, piso, rack, letra\n            FROM ubicaciones\n            WHERE status_ubicacion = 'Libre'\n        "

  const OrderBy: string := " ORDER BY tipo_almacen, piso, rack, letra"

  /** `" AND ".join(parts)` */
  function JoinAnd(parts: seq<string>): string
    requires |parts| >= 1
  {
    if |parts| == 1 then parts[0] else parts[0] + " AND " + JoinAnd(parts[1..])
  }

  /** Each condition preceded by " AND ", one after the other: the text that
      the conditions add to the query. */
  function Conjuncts(conditions: seq<string>): string {
    if conditions == [] then [] else " AND " + conditions[0] + Conjuncts(conditions[1..])
  }

  /** Whether `s` starts with `p`. */
  predicate StartsWith(s: string, p: string) {
    |p| <= |s| && s[..|p|] == p
  }

  /** The text one condition adds to the query: " AND " and the condition. */
  function ConjunctOf(c: Column): (t: string)
    ensures |t| > 5 && t[5] == ColumnName(c)[0]
  {
    " AND " + Condition(c)
  }

  /** The column whose conjunct `s` starts with, if any. */
  function LeadingColumn(s: string): (r: Option<Column>)
    ensures r.Some? ==> StartsWith(s, ConjunctOf(r.value))
  {
    if StartsWith(s, ConjunctOf(KindColumn)) then Some(KindColumn)
    else if StartsWith(s, ConjunctOf(FloorColumn)) then Some(FloorColumn)
    else if StartsWith(s, ConjunctOf(RackColumn)) then Some(RackColumn)
    else if StartsWith(s, ConjunctOf(LetterColumn)) then Some(LetterColumn)
    else None
  }

  /** Reads a run of conjuncts back into the condition list. */
  function ReadConjuncts(s: string): Option<seq<string>>
    decreases |s|
  {
    if s == [] then Some([])
    else
      var lead := LeadingColumn(s);
      if lead.None? then None
      else
        var rest := ReadConjuncts(s[|ConjunctOf(lead.value)|..]);
        if rest.None? then None else Some([Condition(lead.value)] + rest.value)
  }

  /** The conditions a query text carries, as the database reads them: the
      text between the base query and the ORDER BY clause. */
  function ReadConditions(query: string): Option<seq<string>> {
    if |BaseQuery| + |OrderBy| <= |query|
      && query[..|BaseQuery|] == BaseQuery
      && query[|query| - |OrderBy|..] == OrderBy
    then ReadConjuncts(query[|BaseQuery|..|query| - |OrderBy|])
    else None
  }

  /** Every entry is the condition of some column. */
  predicate ColumnConditions(conditions: seq<string>) {
    forall i :: 0 <= i < |conditions| ==> ConditionColumn(conditions[i]).Some?
  }

  /** Extends the base query with the conditions, joined by AND, and the
      ORDER BY clause. */
  method ComposeQuery(conditions: seq<string>) returns (query: string)
    ensures query == BaseQuery + Conjuncts(conditions) + OrderBy
    ensures ColumnConditions(conditions) ==> ReadConditions(query) == Some(conditions)
  {
    query := BaseQuery;
    if conditions != [] {
      JoinConjuncts(conditions);
      query := query + (" AND " + JoinAnd(conditions));
    }
    query := query + OrderBy;
    if ColumnConditions(conditions) {
      QueryRoundTrip(conditions);
    }
  }

  /** `" AND " + " AND ".join(parts)` is the run of conjuncts. */
  lemma {:induction false} JoinConjuncts(parts: seq<string>)
    requires |parts| >= 1
    ensures " AND " + JoinAnd(parts) == Conjuncts(parts)
    decreases |parts|
  {
    if |parts| > 1 {
      JoinConjuncts(parts[1..]);
      assert Conjuncts(parts) == " AND " + parts[0] + Conjuncts(parts[1..]);
    } else {
      assert parts[1..] == [];
    }
  }

  /** A conjunct is recognised by its column, whatever follows it. */
  lemma LeadingColumnOf(c: Column, rest: string)
    ensures LeadingColumn(ConjunctOf(c) + rest) == Some(c)
  {
  }

  /** Reading the conjuncts of column conditions gives those conditions back. */
  lemma {:induction false} ReadConjunctsOf(conditions: seq<string>)
    requires ColumnConditions(conditions)
    ensures ReadConjuncts(Conjuncts(conditions)) == Some(conditions)
    decreases |conditions|
  {
    if conditions != [] {
      var c := ConditionColumn(conditions[0]).value;
      var rest := Conjuncts(conditions[1..]);
      var s := Conjuncts(conditions);
      assert s == ConjunctOf(c) + rest;
      LeadingColumnOf(c, rest);
      assert s[|ConjunctOf(c)|..] == rest;
      assert ColumnConditions(conditions[1..]) by {
        forall i | 0 <= i < |conditions[1..]| ensures ConditionColumn(conditions[1..][i]).Some? {
          assert conditions[1..][i] == conditions[i + 1];
        }
      }
      ReadConjunctsOf(conditions[1..]);
      assert conditions == [conditions[0]] + conditions[1..];
    }
  }

  /** Whatever the conjunct reader accepts is the run of conjuncts of what it
      returns. */
  lemma {:induction false} ConjunctsOfRead(s: string)
    requires ReadConjuncts(s).Some?
    ensures Conjuncts(ReadConjuncts(s).value) == s
    decreases |s|
  {
    if s != [] {
      var c := LeadingColumn(s).value;
      var p := ConjunctOf(c);
      var tail := s[|p|..];
      ConjunctsOfRead(tail);
      var conds := ReadConjuncts(s).value;
      assert conds[0] == Condition(c) && conds[1..] == ReadConjuncts(tail).value;
      assert Conjuncts(conds) == " AND " + Condition(c) + Conjuncts(conds[1..]);
      assert s == p + tail by {
        assert s[..|p|] == p;
      }
    }
  }

  /** The reader returns only column conditions. */
  lemma {:induction false} ReadColumnConditions(s: string)
    requires ReadConjuncts(s).Some?
    ensures ColumnConditions(ReadConjuncts(s).value)
    decreases |s|
  {
    if s != [] {
      var c := LeadingColumn(s).value;
      var tail := s[|ConjunctOf(c)|..];
      ReadColumnConditions(tail);
      ConditionRoundTrip(c);
      var conds := ReadConjuncts(s).value;
      assert conds == [Condition(c)] + ReadConjuncts(tail).value;
      forall i | 0 <= i < |conds| ensures ConditionColumn(conds[i]).Some? {
        if i > 0 { assert conds[i] == ReadConjuncts(tail).value[i - 1]; }
      }
    }
  }

  /** The query text and its condition list determine each other: the
      conditions read back from the query are the ones it was built from. */
  lemma QueryRoundTrip(conditions: seq<string>)
    requires ColumnConditions(conditions)
    ensures ReadConditions(BaseQuery + Conjuncts(conditions) + OrderBy) == Some(conditions)
  {
    var q := BaseQuery + Conjuncts(conditions) + OrderBy;
    assert q[..|BaseQuery|] == BaseQuery;
    assert q[|q| - |OrderBy|..] == OrderBy;
    assert q[|BaseQuery|..|q| - |OrderBy|] == Conjuncts(conditions);
    ReadConjunctsOf(conditions);
  }

  /** A query text the database accepts is the base query, the conjuncts of
      the conditions it carries and the ORDER BY clause. */
  lemma ReadQuery(query: string)
    requires ReadConditions(query).Some?
    ensures query == BaseQuery + Conjuncts(ReadConditions(query).value) + OrderBy
    ensures ColumnConditions(ReadConditions(query).value)
  {
    var middle := query[|BaseQuery|..|query| - |OrderBy|];
    ConjunctsOfRead(middle);
    ReadColumnConditions(middle);
    assert query == query[..|BaseQuery|] + middle + query[|query| - |OrderBy|..];
  }

  /** A location satisfies the conditions when, for each of them, the column
      it names holds the parameter at the same position. */
  predicate Satisfies(loc: Location, conditions: seq<string>, params: seq<Value>)
    requires |conditions| == |params|
  {
    forall i :: 0 <= i < |conditions| ==>
      ConditionColumn(conditions[i]).Some? && Get(loc, ConditionColumn(conditions[i]).value) == params[i]
  }

  /** What the database returns for the query: the locations of the free
      rows that satisfy the conditions the query carries. Row order and
      repetitions are the table's; the caller only looks at the set of values. */
  function Execute(table: seq<SlotRow>, query: string, params: seq<Value>): (rows: seq<Location>)
    requires ReadConditions(query).Some? && |ReadConditions(query).value| == |params|
    ensures forall loc :: loc in rows <==>
      exists i :: 0 <= i < |table| && table[i].location == loc && IsFree(table[i])
        && Satisfies(loc, ReadConditions(query).value, params)
  {
    if table == [] then []
    else
      var rest := Execute(table[1..], query, params);
      assert forall i :: 0 < i < |table| ==> table[i] == table[1..][i - 1];
      if IsFree(table[0]) && Satisfies(table[0].location, ReadConditions(query).value, params) then [table[0].location] + rest
      else rest
  }

  /** Whether `v` is the value in column `c` of some free slot that passes the filters. */
  predicate Offered(table: seq<SlotRow>, f: Filters, c: Column, v: Value) {
    exists i :: 0 <= i < |table| && IsFree(table[i]) && Matches(f, table[i].location) && Get(table[i].location, c) == v
  }

  // ---------------------------------------------------------------------
  // sorted(set(...))

  predicate StrictlySorted(xs: seq<Value>) {
    forall i, j :: 0 <= i < j < |xs| ==> Less(xs[i], xs[j])
  }

  /** Adds `v` to a strictly sorted list, keeping it strictly sorted. */
  function Insert(xs: seq<Value>, v: Value): (r: seq<Value>)
    requires StrictlySorted(xs)
    ensures StrictlySorted(r)
    ensures forall x :: x in r <==> x in xs || x == v
  {
    if xs == [] then [v]
    else if v == xs[0] then xs
    else if Less(v, xs[0]) then
      assert forall j :: 0 <= j < |xs| ==> Less(v, xs[j]) by {
        forall j | 0 <= j < |xs| ensures Less(v, xs[j]) {
          if j > 0 { LessTransitive(v, xs[0], xs[j]); }
        }
      }
      [v] + xs
    else
      LessTotal(v, xs[0]);
      var rest := Insert(xs[1..], v);
      assert forall x :: x in rest ==> Less(xs[0], x) by {
        forall x | x in rest ensures Less(xs[0], x) {
          if x != v {
            var j :| 0 <= j < |xs[1..]| && xs[1..][j] == x;
            assert xs[j + 1] == x;
          }
        }
      }
      assert xs == [xs[0]] + xs[1..];
      [xs[0]] + rest
  }

  /** The distinct values of `vs` in increasing order: Python's `sorted(set(vs))`. */
  function SortedSet(vs: seq<Value>): (r: seq<Value>)
    ensures StrictlySorted(r)
    ensures forall x :: x in r <==> x in vs
  {
    if vs == [] then []
    else
      var r := Insert(SortedSet(vs[..|vs| - 1]), vs[|vs| - 1]);
      assert vs == vs[..|vs| - 1] + [vs[|vs| - 1]];
      r
  }

  /** A strictly sorted list is determined by its elements: `SortedSet` is
      the one list `sorted(set(vs))` can be, whatever the sorting algorithm. */
  lemma {:induction false} SortedUnique(a: seq<Value>, b: seq<Value>)
    requires StrictlySorted(a) && StrictlySorted(b)
    requires forall x :: x in a <==> x in b
    ensures a == b
    decreases |a|
  {
    assert a != [] ==> a[0] in a;
    assert b != [] ==> b[0] in b;
    if a != [] && b != [] {
      HeadLeast(a, b[0]);
      HeadLeast(b, a[0]);
      forall x ensures x in a[1..] <==> x in b[1..] {
        NotFirst(a, x);
        NotFirst(b, x);
      }
      SortedUnique(a[1..], b[1..]);
      assert a == [a[0]] + a[1..] && b == [b[0]] + b[1..];
    }
  }

  /** The head of a strictly sorted list is its least element. */
  lemma HeadLeast(a: seq<Value>, x: Value)
    requires StrictlySorted(a) && x in a
    ensures x == a[0] || Less(a[0], x)
    ensures !Less(x, a[0])
  {
    var j :| 0 <= j < |a| && a[j] == x;
    if j > 0 {
      LessAsymmetric(a[0], x);
    } else {
      LessIrreflexive(x);
    }
  }

  /** In a strictly sorted list, the tail holds every element but the head. */
  lemma NotFirst(a: seq<Value>, x: Value)
    requires StrictlySorted(a) && a != []
    ensures x in a[1..] <==> x in a && x != a[0]
  {
    if x in a[1..] {
      var j :| 0 <= j < |a[1..]| && a[1..][j] == x;
      assert Less(a[0], a[j + 1]);
      LessIrreflexive(a[0]);
    }
    if x in a && x != a[0] {
      var j :| 0 <= j < |a| && a[j] == x;
      assert a[1..][j - 1] == x;
    }
  }

  /** The values of column `c` over `rows`, without the falsy ones when
      `dropFalsy` holds. */
  function Project(rows: seq<Location>, c: Column, dropFalsy: bool): (vs: seq<Value>)
    ensures forall v :: v in vs <==> (exists loc :: loc in rows && Get(loc, c) == v) && (dropFalsy ==> Truthy(v))
  {
    if rows == [] then []
    else
      var rest := Project(rows[1..], c, dropFalsy);
      assert forall loc :: loc in rows <==> loc == rows[0] || loc in rows[1..] by {
        assert rows == [rows[0]] + rows[1..];
      }
      if dropFalsy && !Truthy(Get(rows[0], c)) then rest else [Get(rows[0], c)] + rest
  }

  /** The options shown for column `c`: sorted, each value once. */
  function OptionList(rows: seq<Location>, c: Column, dropFalsy: bool): (r: seq<Value>)
    ensures StrictlySorted(r)
    ensures forall v :: v in r <==> (exists loc :: loc in rows && Get(loc, c) == v) && (dropFalsy ==> Truthy(v))
  {
    SortedSet(Project(rows, c, dropFalsy))
  }

  // ---------------------------------------------------------------------
  // What the conditions mean

  /** The conditions and parameters built from the filters select exactly the
      locations that pass the filters. */
  lemma ConditionsMeaning(f: Filters, conditions: seq<string>, params: seq<Value>, loc: Location)
    requires |conditions| == |params| == |ActiveColumns(f)|
    requires forall i :: 0 <= i < |conditions| ==>
      conditions[i] == Condition(ActiveColumns(f)[i]) && params[i] == Get(f, ActiveColumns(f)[i])
    ensures Satisfies(loc, conditions, params) <==> Matches(f, loc)
  {
    var cols := ActiveColumns(f);
    forall i | 0 <= i < |conditions| ensures ConditionColumn(conditions[i]) == Some(cols[i]) {
      ConditionRoundTrip(cols[i]);
    }
    if Satisfies(loc, conditions, params) {
      forall c | Truthy(Get(f, c)) ensures Get(loc, c) == Get(f, c) {
        var i :| 0 <= i < |cols| && cols[i] == c;
      }
    }
    if Matches(f, loc) {
      forall i | 0 <= i < |conditions|
        ensures ConditionColumn(conditions[i]).Some? && Get(loc, ConditionColumn(conditions[i]).value) == params[i]
      {
        assert cols[i] in cols;
      }
    }
  }

  lemma ConditionRoundTrip(c: Column)
    ensures ConditionColumn(Condition(c)) == Some(c)
  {
    var k, fl, r, l := Condition(KindColumn), Condition(FloorColumn), Condition(RackColumn), Condition(LetterColumn);
    assert k[0] == 't' && fl[0] == 'p' && r[0] == 'r' && l[0] == 'l';
  }

  /** `obtener_opciones_disponibles`: the four option lists for the free slots
      of `table` that pass the filters `f`. */
  method AvailableOptions(table: seq<SlotRow>, f: Filters)
    returns (kinds: seq<Value>, floors: seq<Value>, racks: seq<Value>, letters: seq<Value>)
    ensures StrictlySorted(kinds) && StrictlySorted(floors) && StrictlySorted(racks) && StrictlySorted(letters)
    ensures forall v :: v in kinds <==> Offered(table, f, KindColumn, v)
    ensures forall v :: v in floors <==> Offered(table, f, FloorColumn, v) && Truthy(v)
    ensures forall v :: v in racks <==> Offered(table, f, RackColumn, v) && Truthy(v)
    ensures forall v :: v in letters <==> Offered(table, f, LetterColumn, v) && Truthy(v)
  {
    var conditions, params := BuildConditions(f);
    assert ColumnConditions(conditions) by {
      forall i | 0 <= i < |conditions| ensures ConditionColumn(conditions[i]).Some? {
        ConditionRoundTrip(ActiveColumns(f)[i]);
      }
    }
    var query := ComposeQuery(conditions);
    var fetched := Execute(table, query, params);
    forall loc ensures Satisfies(loc, conditions, params) <==> Matches(f, loc) {
      ConditionsMeaning(f, conditions, params, loc);
    }
    kinds := OptionList(fetched, KindColumn, false);
    floors := OptionList(fetched, FloorColumn, true);
    racks := OptionList(fetched, RackColumn, true);
    letters := OptionList(fetched, LetterColumn, true);
  }
}
