/** The Categories record store: fixed statements with fixed argument lists,
    `rows[0]` as the not-found signal, and the foreign-key translation on delete. */
module CategoryModel {
  import opened Js
  import opened Sql

  const InUse := "Cannot delete category as it is currently associated with products."

  function InsertText(): seq<Fragment> {
    [Text("INSERT INTO Categories (name, description) VALUES ("), Param(1), Text(", "), Param(2), Text(") RETURNING *;")]
  }

  function AllText(): seq<Fragment> {
    [Text("SELECT * FROM Categories ORDER BY "), Ident("name"), Text(" ASC;")]
  }

  function ByIdText(): seq<Fragment> {
    [Text("SELECT * FROM Categories WHERE id = "), Param(1), Text(";")]
  }

  /** The statement `update` executes; it sets no updated_at column. */
  function UpdateText(): seq<Fragment> {
    [Text("UPDATE Categories SET ")] + UpdateClauses() + [Text(" RETURNING *;")]
  }

  /** `name = $1, description = $2 WHERE id = $3` */
  function UpdateClauses(): seq<Fragment> {
    [Assign("name", 1), Text(", ")] + [Assign("description", 2), Text(" WHERE id = ")] + [Param(3)]
  }

  function DeleteText(): seq<Fragment> {
    [Text("DELETE FROM Categories WHERE id = "), Param(1), Text(" RETURNING *;")]
  }

  /** `INSERT ... VALUES ($1, $2)` binds exactly the name and the description. */
  function InsertQuery(name: Value, description: Value): (q: Query)
    ensures WellNumbered(q) && q.args == [name, description]
  {
    Query(InsertText(), [name, description])
  }

  function AllQuery(): (q: Query)
    ensures WellNumbered(q) && q.args == []
    ensures Identifiers(q.text) == ["name"]
    ensures Render(q.text) == "SELECT * FROM Categories ORDER BY name ASC;"
  {
    AllTextRendersAsSent();
    Query(AllText(), [])
  }

  lemma AllTextRendersAsSent()
    ensures Render(AllText()) == "SELECT * FROM Categories ORDER BY name ASC;"
  {
    var t := AllText();
    assert t[1..][1..][1..] == [];
    assert Render(t) == "SELECT * FROM Categories ORDER BY " + "name" + " ASC;";
  }

  function ByIdQuery(id: Value): (q: Query)
    ensures WellNumbered(q) && q.args == [id]
  {
    Query(ByIdText(), [id])
  }

  /** name is set from $1, description from $2, and the id is matched at $3. */
  function UpdateQuery(id: Value, name: Value, description: Value): (q: Query)
    ensures WellNumbered(q) && q.args == [name, description, id]
    ensures Assignments(q.text) == [("name", 1), ("description", 2)]
  {
    UpdateTextShape();
    Query(UpdateText(), [name, description, id])
  }

  lemma {:induction false} UpdateTextShape()
    ensures Placeholders(UpdateText()) == [1, 2, 3] && Consecutive([1, 2, 3], 1)
    ensures Assignments(UpdateText()) == [("name", 1), ("description", 2)]
  {
    UpdateClausesPlaceholders();
    UpdateClausesAssignments();
    Enclosed("UPDATE Categories SET ", UpdateClauses(), " RETURNING *;");
  }

  lemma UpdateClausesPlaceholders()
    ensures Placeholders(UpdateClauses()) == [1, 2, 3]
  {
    var a, b, c := [Assign("name", 1), Text(", ")], [Assign("description", 2), Text(" WHERE id = ")], [Param(3)];
    CollectAppend(a, b, PlaceholdersOf);
    CollectAppend(a + b, c, PlaceholdersOf);
    CollectPair(a[0], a[1], PlaceholdersOf);
    CollectPair(b[0], b[1], PlaceholdersOf);
    CollectOne(c[0], PlaceholdersOf);
  }

  lemma UpdateClausesAssignments()
    ensures Assignments(UpdateClauses()) == [("name", 1), ("description", 2)]
  {
    var a, b, c := [Assign("name", 1), Text(", ")], [Assign("description", 2), Text(" WHERE id = ")], [Param(3)];
    CollectAppend(a, b, AssignmentsOf);
    CollectAppend(a + b, c, AssignmentsOf);
    CollectPair(a[0], a[1], AssignmentsOf);
    CollectPair(b[0], b[1], AssignmentsOf);
    CollectOne(c[0], AssignmentsOf);
  }

  function DeleteQuery(id: Value): (q: Query)
    ensures WellNumbered(q) && q.args == [id]
  {
    Query(DeleteText(), [id])
  }

  /** `create`: one INSERT; errors, including a duplicate name, are rethrown untranslated. */
  function Create(db: Database, name: Value, description: Value): (r: Run<Option<Row>>)
    ensures r.issued == [InsertQuery(name, description)]
    ensures db(InsertQuery(name, description)).Rows? ==>
      r.outcome == Returned(First(db(InsertQuery(name, description)).rows))
    ensures db(InsertQuery(name, description)).Failed? ==>
      r.outcome == Threw(db(InsertQuery(name, description)).error)
  {
    FirstRow(db, InsertQuery(name, description))
  }

  /** `findAll`: every category, ordered by name. */
  function FindAll(db: Database): (r: Run<seq<Row>>)
    ensures r.issued == [AllQuery()]
    ensures db(AllQuery()).Rows? ==> r.outcome == Returned(db(AllQuery()).rows)
    ensures db(AllQuery()).Failed? ==> r.outcome == Threw(db(AllQuery()).error)
  {
    match db(AllQuery())
    case Rows(rows) => Run(Returned(rows), [AllQuery()])
    case Failed(e) => Run(Threw(e), [AllQuery()])
  }

  function FindById(db: Database, id: Value): (r: Run<Option<Row>>)
    ensures r.issued == [ByIdQuery(id)]
    ensures r.outcome == Returned(None) <==> db(ByIdQuery(id)) == Rows([])
    ensures db(ByIdQuery(id)).Rows? && db(ByIdQuery(id)).rows != [] ==>
      r.outcome == Returned(Some(db(ByIdQuery(id)).rows[0]))
    ensures db(ByIdQuery(id)).Failed? ==> r.outcome == Threw(db(ByIdQuery(id)).error)
  {
    FirstRow(db, ByIdQuery(id))
  }

  /** `update`: settles to undefined when no row has the id. */
  function Update(db: Database, id: Value, name: Value, description: Value): (r: Run<Option<Row>>)
    ensures r.issued == [UpdateQuery(id, name, description)]
    ensures r.outcome == Returned(None) <==> db(UpdateQuery(id, name, description)) == Rows([])
    ensures db(UpdateQuery(id, name, description)).Rows? && db(UpdateQuery(id, name, description)).rows != [] ==>
      r.outcome == Returned(Some(db(UpdateQuery(id, name, description)).rows[0]))
    ensures db(UpdateQuery(id, name, description)).Failed? ==>
      r.outcome == Threw(db(UpdateQuery(id, name, description)).error)
  {
    FirstRow(db, UpdateQuery(id, name, description))
  }

  /** `delete`: a foreign-key violation becomes the "associated with products"
      error; any other error is rethrown as it is. */
  function Delete(db: Database, id: Value): (r: Run<Option<Row>>)
    ensures r.issued == [DeleteQuery(id)]
    ensures r.outcome == Returned(None) <==> db(DeleteQuery(id)) == Rows([])
    ensures db(DeleteQuery(id)).Rows? && db(DeleteQuery(id)).rows != [] ==>
      r.outcome == Returned(Some(db(DeleteQuery(id)).rows[0]))
    ensures db(DeleteQuery(id)).Failed? && HasCode(db(DeleteQuery(id)).error, ForeignKeyViolation) ==>
      r.outcome == Threw(NewError(InUse))
    ensures db(DeleteQuery(id)).Failed? && !HasCode(db(DeleteQuery(id)).error, ForeignKeyViolation) ==>
      r.outcome == Threw(db(DeleteQuery(id)).error)
  {
    var q := DeleteQuery(id);
    match db(q)
    case Rows(rows) => Run(Returned(First(rows)), [q])
    case Failed(e) =>
      if HasCode(e, ForeignKeyViolation) then Run(Threw(NewError(InUse)), [q])
      else Run(Threw(e), [q])
  }
}
