/** Parameterised SQL statements as the models send them, the outcome the
    database driver reports, and the sparse SET-clause builder shared by the
    product and user updates. */
module Sql {
  import opened Js

  /** A result row: column name to value. */
  type Row = map<string, Value>

  /** `row.column`: undefined when the row has no such column. */
  function Get(row: Row, column: string): Value {
    if column in row then row[column] else Undefined
  }

  /** `rows[0]`: undefined (None) when there is no row. */
  function First(rows: seq<Row>): Option<Row> {
    if rows == [] then None else Some(rows[0])
  }

  /** A piece of statement text. Only `Text` holds SQL written out in the
      source; every value a caller supplies travels as an argument bound to a
      `Param` or `Assign` placeholder, and the only identifiers spliced into
      the text are `Ident`, `Assign` columns and `ColumnList` names. */
  datatype Fragment =
    | Text(sql: string)                   // literal SQL
    | Ident(name: string)                 // an identifier spliced into the text
    | Param(index: nat)                   // $index
    | Assign(column: string, index: nat)  // column = $index
    | ColumnList(names: seq<string>)      // the result columns, comma-separated

  /** `db.query(text, args)`. */
  datatype Query = Query(text: seq<Fragment>, args: seq<Value>)

  /** An Error object: a driver error carries the SQLSTATE code and the name
      of the violated constraint; `new Error(message)` carries neither. */
  datatype Error = Error(message: string, code: Option<string>, constraint: Option<string>)

  /** `new Error(message)`. */
  function NewError(message: string): Error {
    Error(message, None, None)
  }

  /** SQLSTATE codes, Appendix A of the PostgreSQL manual. */
  const ForeignKeyViolation := "23503"
  const UniqueViolation := "23505"

  predicate HasCode(e: Error, code: string) {
    e.code == Some(code)
  }

  /** What `await db.query(...)` yields: the rows, or the error it throws. */
  datatype DbResult = Rows(rows: seq<Row>) | Failed(error: Error)

  /** The database, as an oracle from each statement to its outcome. */
  type Database = Query -> DbResult

  /** What an async model operation settles to: a value, or a thrown error. */
  datatype Outcome<+T> = Returned(value: T) | Threw(error: Error)

  /** An operation's outcome together with the statements it sent, in order. */
  datatype Run<+T> = Run(outcome: Outcome<T>, issued: seq<Query>)

  /** Sends one statement and settles to `rows[0]`; an error is rethrown as it is. */
  function FirstRow(db: Database, q: Query): (r: Run<Option<Row>>)
    ensures r.issued == [q]
    ensures r.outcome == Returned(None) <==> db(q) == Rows([])
    ensures r.outcome.Returned? && r.outcome.value.Some? <==> db(q).Rows? && db(q).rows != []
    ensures db(q).Rows? && db(q).rows != [] ==> r.outcome == Returned(Some(db(q).rows[0]))
    ensures db(q).Failed? <==> r.outcome.Threw?
    ensures db(q).Failed? ==> r.outcome.error == db(q).error
  {
    match db(q)
    case Rows(rows) => Run(Returned(First(rows)), [q])
    case Failed(e) => Run(Threw(e), [q])
  }

  // ---------------------------------------------------------------------------
  // Reading a statement's text

  function Collect<T>(text: seq<Fragment>, f: Fragment -> seq<T>): seq<T> {
    if text == [] then [] else f(text[0]) + Collect(text[1..], f)
  }

  lemma {:induction false} CollectAppend<T>(a: seq<Fragment>, b: seq<Fragment>, f: Fragment -> seq<T>)
    ensures Collect(a + b, f) == Collect(a, f) + Collect(b, f)
  {
    if a == [] {
      assert a + b == b;
    } else {
      assert (a + b)[0] == a[0];
      assert (a + b)[1..] == a[1..] + b;
      CollectAppend(a[1..], b, f);
    }
  }

  lemma CollectOne<T>(x: Fragment, f: Fragment -> seq<T>)
    ensures Collect([x], f) == f(x)
  {
    assert [x][1..] == [];
  }

  lemma CollectPair<T>(x: Fragment, y: Fragment, f: Fragment -> seq<T>)
    ensures Collect([x, y], f) == f(x) + f(y)
  {
    assert [x, y][1..] == [y];
    CollectOne(y, f);
  }

  function PlaceholdersOf(f: Fragment): seq<nat> {
    match f
    case Param(i) => [i]
    case Assign(_, i) => [i]
    case _ => []
  }

  function AssignmentsOf(f: Fragment): seq<(string, nat)> {
    if f.Assign? then [(f.column, f.index)] else []
  }

  function IdentifiersOf(f: Fragment): seq<string> {
    if f.Ident? then [f.name] else []
  }

  function ColumnsOf(f: Fragment): seq<string> {
    if f.ColumnList? then f.names else []
  }

  /** The placeholder numbers, in the order they appear in the text. */
  function Placeholders(text: seq<Fragment>): seq<nat> {
    Collect(text, PlaceholdersOf)
  }

  /** The `column = $i` clauses, in order. */
  function Assignments(text: seq<Fragment>): seq<(string, nat)> {
    Collect(text, AssignmentsOf)
  }

  /** The identifiers spliced into the text, in order. */
  function Identifiers(text: seq<Fragment>): seq<string> {
    Collect(text, IdentifiersOf)
  }

  /** The result columns the statement names. */
  function ResultColumns(text: seq<Fragment>): seq<string> {
    Collect(text, ColumnsOf)
  }

  /** `s` counts up by one from `first`. */
  predicate Consecutive(s: seq<nat>, first: nat) {
    forall i :: 0 <= i < |s| ==> s[i] == first + i
  }

  /** `$1 ... $n` each appear once, in order, and n is the number of bound
      values: every placeholder has a value and every value a placeholder. */
  predicate WellNumbered(q: Query) {
    |Placeholders(q.text)| == |q.args| && Consecutive(Placeholders(q.text), 1)
  }

  /** The statement text as sent to the server. */
  function Render(text: seq<Fragment>): string {
    if text == [] then "" else RenderFragment(text[0]) + Render(text[1..])
  }

  function RenderFragment(f: Fragment): string {
    match f
    case Text(s) => s
    case Ident(name) => name
    case Param(i) => "$" + DecimalDigits(i)
    case Assign(column, i) => column + " = $" + DecimalDigits(i)
    case ColumnList(names) => JoinNames(names)
  }

  function JoinNames(names: seq<string>): string {
    if names == [] then "" else if |names| == 1 then names[0] else names[0] + ", " + JoinNames(names[1..])
  }

  /** The number after each `$` reads back as the placeholder's index. */
  lemma PlaceholderDigitsReadBack(i: nat)
    ensures RenderFragment(Param(i)) == "$" + IntText(i)
    ensures ParseIntText(IntText(i), Decimal) == Some(i)
  {
    ParseIntReadsIntText(i, [], Decimal);
    assert IntText(i) + [] == IntText(i);
  }

  /** `$first, $first+1, ...`: n placeholders separated by commas. */
  function ParamList(first: nat, n: nat): seq<Fragment>
    decreases n
  {
    if n == 0 then []
    else if n == 1 then [Param(first)]
    else [Param(first), Text(", ")] + ParamList(first + 1, n - 1)
  }

  /** A placeholder list uses exactly the placeholders first .. first + n - 1,
      in order, and names no column. */
  lemma {:induction false} ParamListNumbering(first: nat, n: nat)
    ensures |Placeholders(ParamList(first, n))| == n
    ensures Consecutive(Placeholders(ParamList(first, n)), first)
    ensures Assignments(ParamList(first, n)) == []
    ensures Identifiers(ParamList(first, n)) == []
    ensures ResultColumns(ParamList(first, n)) == []
    decreases n
  {
    if n == 1 {
      CollectOne(Param(first), PlaceholdersOf);
      CollectOne(Param(first), AssignmentsOf);
      CollectOne(Param(first), IdentifiersOf);
      CollectOne(Param(first), ColumnsOf);
    } else if n > 1 {
      var head := [Param(first), Text(", ")];
      var tail := ParamList(first + 1, n - 1);
      ParamListNumbering(first + 1, n - 1);
      assert head == [Param(first)] + [Text(", ")];
      CollectAppend([Param(first)], [Text(", ")], PlaceholdersOf);
      CollectAppend([Param(first)], [Text(", ")], AssignmentsOf);
      CollectAppend([Param(first)], [Text(", ")], IdentifiersOf);
      CollectAppend([Param(first)], [Text(", ")], ColumnsOf);
      CollectOne(Param(first), PlaceholdersOf);
      CollectOne(Param(first), AssignmentsOf);
      CollectOne(Param(first), IdentifiersOf);
      CollectOne(Param(first), ColumnsOf);
      CollectOne(Text(", "), PlaceholdersOf);
      CollectOne(Text(", "), AssignmentsOf);
      CollectOne(Text(", "), IdentifiersOf);
      CollectOne(Text(", "), ColumnsOf);
      CollectAppend(head, tail, PlaceholdersOf);
      CollectAppend(head, tail, AssignmentsOf);
      CollectAppend(head, tail, IdentifiersOf);
      CollectAppend(head, tail, ColumnsOf);
    }
  }

  /** Reading a text distributes over concatenation. */
  lemma {:induction false} Concatenated(a: seq<Fragment>, b: seq<Fragment>)
    ensures Placeholders(a + b) == Placeholders(a) + Placeholders(b)
    ensures Assignments(a + b) == Assignments(a) + Assignments(b)
    ensures Identifiers(a + b) == Identifiers(a) + Identifiers(b)
    ensures ResultColumns(a + b) == ResultColumns(a) + ResultColumns(b)
  {
    CollectAppend(a, b, PlaceholdersOf);
    CollectAppend(a, b, AssignmentsOf);
    CollectAppend(a, b, IdentifiersOf);
    CollectAppend(a, b, ColumnsOf);
  }

  /** Literal text around a piece adds no placeholder, clause or name. */
  lemma {:induction false} Enclosed(before: string, middle: seq<Fragment>, after: string)
    ensures Placeholders([Text(before)] + middle + [Text(after)]) == Placeholders(middle)
    ensures Assignments([Text(before)] + middle + [Text(after)]) == Assignments(middle)
    ensures Identifiers([Text(before)] + middle + [Text(after)]) == Identifiers(middle)
    ensures ResultColumns([Text(before)] + middle + [Text(after)]) == ResultColumns(middle)
  {
    var a, c := [Text(before)], [Text(after)];
    CollectAppend(a, middle, PlaceholdersOf);
    CollectAppend(a, middle, AssignmentsOf);
    CollectAppend(a, middle, IdentifiersOf);
    CollectAppend(a, middle, ColumnsOf);
    CollectAppend(a + middle, c, PlaceholdersOf);
    CollectAppend(a + middle, c, AssignmentsOf);
    CollectAppend(a + middle, c, IdentifiersOf);
    CollectAppend(a + middle, c, ColumnsOf);
    CollectOne(Text(before), PlaceholdersOf);
    CollectOne(Text(before), AssignmentsOf);
    CollectOne(Text(before), IdentifiersOf);
    CollectOne(Text(before), ColumnsOf);
    CollectOne(Text(after), PlaceholdersOf);
    CollectOne(Text(after), AssignmentsOf);
    CollectOne(Text(after), IdentifiersOf);
    CollectOne(Text(after), ColumnsOf);
  }

  // ---------------------------------------------------------------------------
  // Sparse updates

  /** One `key: value` entry of an object, as Object.entries yields it. */
  type Entry = (string, Value)

  function Keys(entries: seq<Entry>): seq<string> {
    seq(|entries|, i requires 0 <= i < |entries| => entries[i].0)
  }

  function Values(entries: seq<Entry>): seq<Value> {
    seq(|entries|, i requires 0 <= i < |entries| => entries[i].1)
  }

  /** The entries whose value is not undefined, in their original order. */
  function Defined(entries: seq<Entry>): (kept: seq<Entry>)
    ensures |kept| <= |entries|
  {
    if entries == [] then []
    else (if entries[0].1 != Undefined then [entries[0]] else []) + Defined(entries[1..])
  }

  /** The kept entries are exactly the entries whose value is defined. */
  lemma {:induction false} DefinedMembers(entries: seq<Entry>)
    ensures forall e :: e in Defined(entries) <==> e in entries && e.1 != Undefined
  {
    if entries != [] {
      DefinedMembers(entries[1..]);
      forall e ensures e in entries <==> e == entries[0] || e in entries[1..] {
        assert entries == [entries[0]] + entries[1..];
      }
    }
  }

  /** One step of the filter. */
  lemma DefinedFirst(entries: seq<Entry>)
    requires entries != []
    ensures Defined(entries) == (if entries[0].1 != Undefined then [entries[0]] else []) + Defined(entries[1..])
  {
  }

  /** Appending one entry to what was filtered so far. */
  lemma {:induction false} DefinedSnoc(entries: seq<Entry>, k: nat)
    requires k < |entries|
    ensures Defined(entries[..k + 1]) == Defined(entries[..k]) + (if entries[k].1 != Undefined then [entries[k]] else [])
  {
    assert entries[..k + 1] == entries[..k] + [entries[k]];
    DefinedAppend(entries[..k], [entries[k]]);
    DefinedFirst([entries[k]]);
    assert [entries[k]][1..] == [];
  }

  /** No key occurs twice. */
  predicate DistinctKeys(entries: seq<Entry>) {
    forall i, j :: 0 <= i < j < |entries| ==> entries[i].0 != entries[j].0
  }

  /** Filtering keeps keys distinct: no column is assigned twice. */
  lemma {:induction false} DefinedKeepsDistinctKeys(entries: seq<Entry>)
    requires DistinctKeys(entries)
    ensures DistinctKeys(Defined(entries))
  {
    if entries != [] {
      var rest := entries[1..];
      DefinedFirst(entries);
      DefinedKeepsDistinctKeys(rest);
      DefinedMembers(rest);
      var kept := Defined(entries);
      if entries[0].1 != Undefined {
        forall i, j | 0 <= i < j < |kept| ensures kept[i].0 != kept[j].0 {
          if i == 0 {
            assert kept[j] == Defined(rest)[j - 1];
            assert kept[j] in Defined(rest);
            var m :| 0 <= m < |rest| && rest[m] == kept[j];
            assert rest[m] == entries[m + 1];
          } else {
            assert kept[i] == Defined(rest)[i - 1];
            assert kept[j] == Defined(rest)[j - 1];
          }
        }
      }
    }
  }

  /** Filtering distributes over concatenation, so the kept entries keep their order. */
  lemma {:induction false} DefinedAppend(a: seq<Entry>, b: seq<Entry>)
    ensures Defined(a + b) == Defined(a) + Defined(b)
  {
    if a == [] {
      assert a + b == b;
    } else {
      assert (a + b)[0] == a[0];
      assert (a + b)[1..] == a[1..] + b;
      DefinedAppend(a[1..], b);
    }
  }

  /** `k1 = $first, k2 = $first+1, ...` for the given entries. */
  function SetClauses(entries: seq<Entry>, first: nat): seq<Fragment>
    decreases |entries|
  {
    if entries == [] then []
    else if |entries| == 1 then [Assign(entries[0].0, first)]
    else [Assign(entries[0].0, first), Text(", ")] + SetClauses(entries[1..], first + 1)
  }

  /** Clause i of the SET list assigns the i-th key from placeholder first + i,
      and the clauses use exactly the placeholders first .. first + n - 1. */
  lemma {:induction false} SetClausesNumbering(entries: seq<Entry>, first: nat)
    ensures |Placeholders(SetClauses(entries, first))| == |entries|
    ensures Consecutive(Placeholders(SetClauses(entries, first)), first)
    ensures |Assignments(SetClauses(entries, first))| == |entries|
    ensures forall i :: 0 <= i < |entries| ==>
      Assignments(SetClauses(entries, first))[i] == (entries[i].0, first + i)
    ensures Identifiers(SetClauses(entries, first)) == []
    ensures ResultColumns(SetClauses(entries, first)) == []
    decreases |entries|
  {
    if |entries| == 1 {
      var x := Assign(entries[0].0, first);
      CollectOne(x, PlaceholdersOf);
      CollectOne(x, AssignmentsOf);
      CollectOne(x, IdentifiersOf);
      CollectOne(x, ColumnsOf);
    } else if |entries| > 1 {
      var x := Assign(entries[0].0, first);
      var head := [x, Text(", ")];
      var tail := SetClauses(entries[1..], first + 1);
      SetClausesNumbering(entries[1..], first + 1);
      assert head == [x] + [Text(", ")];
      CollectAppend([x], [Text(", ")], PlaceholdersOf);
      CollectAppend([x], [Text(", ")], AssignmentsOf);
      CollectAppend([x], [Text(", ")], IdentifiersOf);
      CollectAppend([x], [Text(", ")], ColumnsOf);
      CollectOne(x, PlaceholdersOf);
      CollectOne(x, AssignmentsOf);
      CollectOne(x, IdentifiersOf);
      CollectOne(x, ColumnsOf);
      CollectOne(Text(", "), PlaceholdersOf);
      CollectOne(Text(", "), AssignmentsOf);
      CollectOne(Text(", "), IdentifiersOf);
      CollectOne(Text(", "), ColumnsOf);
      CollectAppend(head, tail, PlaceholdersOf);
      CollectAppend(head, tail, AssignmentsOf);
      CollectAppend(head, tail, IdentifiersOf);
      CollectAppend(head, tail, ColumnsOf);
    }
  }
}
