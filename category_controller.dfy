/** The category handlers: required-name validation before the store is
    touched, and the mapping of the store's outcome to a status code. */
module CategoryController {
  import opened Js
  import opened Sql
  import opened Http
  import CategoryModel

  /** The fields the handlers read from the request body. */
  datatype CategoryBody = CategoryBody(name: Value, description: Value)

  /** The text deleteCategory looks for in an error message. */
  const InUseMarker := "Cannot delete category as it is currently associated with products"

  /** The store's "in use" error carries the marker deleteCategory looks for. */
  lemma InUseCarriesMarker()
    ensures Includes(CategoryModel.InUse, InUseMarker)
  {
    assert CategoryModel.InUse[..|InUseMarker|] == InUseMarker;
    IncludesPrefix(CategoryModel.InUse, InUseMarker);
  }

  /** createCategory: 400 without touching the store when the name is falsy;
      201 with the new row, or 500 on any error (a duplicate name included). */
  function CreateCategory(db: Database, body: CategoryBody): (h: Handled)
    ensures h.issued == [] <==> !Truthy(body.name)
    ensures !Truthy(body.name) ==> h.response == Response(BadRequest, Message("Category name is required"))
    ensures Truthy(body.name) ==> h.issued == [CategoryModel.InsertQuery(body.name, body.description)]
    ensures h.response.status == Created <==>
      Truthy(body.name) && db(CategoryModel.InsertQuery(body.name, body.description)).Rows?
    ensures h.response.status == ServerError <==>
      Truthy(body.name) && db(CategoryModel.InsertQuery(body.name, body.description)).Failed?
    ensures Truthy(body.name) && db(CategoryModel.InsertQuery(body.name, body.description)).Rows? ==>
      h.response.body == Record(First(db(CategoryModel.InsertQuery(body.name, body.description)).rows))
    ensures Truthy(body.name) && db(CategoryModel.InsertQuery(body.name, body.description)).Failed? ==>
      h.response.body ==
        Failure("Error creating category", db(CategoryModel.InsertQuery(body.name, body.description)).error.message)
    ensures h.response.status in {Created, BadRequest, ServerError}
  {
    if !Truthy(body.name) then Reject(BadRequest, "Category name is required")
    else
      var run := CategoryModel.Create(db, body.name, body.description);
      match run.outcome
      case Returned(row) => Handled(Response(Created, Record(row)), run.issued)
      case Threw(e) => Handled(Response(ServerError, Failure("Error creating category", e.message)), run.issued)
  }

  /** getAllCategories: 200 with every row, or 500. */
  function GetAllCategories(db: Database): (h: Handled)
    ensures h.issued == [CategoryModel.AllQuery()]
    ensures db(CategoryModel.AllQuery()).Rows? ==>
      h.response == Response(Ok, Records(db(CategoryModel.AllQuery()).rows))
    ensures h.response.status == ServerError <==> db(CategoryModel.AllQuery()).Failed?
    ensures db(CategoryModel.AllQuery()).Failed? ==>
      h.response.body == Failure("Error fetching categories", db(CategoryModel.AllQuery()).error.message)
  {
    var run := CategoryModel.FindAll(db);
    match run.outcome
    case Returned(rows) => Handled(Response(Ok, Records(rows)), run.issued)
    case Threw(e) => Handled(Response(ServerError, Failure("Error fetching categories", e.message)), run.issued)
  }

  /** getCategoryById: 404 when no row has the id, 200 with the row, 500 on error. */
  function GetCategoryById(db: Database, id: string): (h: Handled)
    ensures h.issued == [CategoryModel.ByIdQuery(Str(id))]
    ensures h.response.status == NotFound <==> db(CategoryModel.ByIdQuery(Str(id))) == Rows([])
    ensures h.response.status == Ok <==>
      db(CategoryModel.ByIdQuery(Str(id))).Rows? && db(CategoryModel.ByIdQuery(Str(id))).rows != []
    ensures h.response.status == Ok ==>
      h.response.body == Record(Some(db(CategoryModel.ByIdQuery(Str(id))).rows[0]))
    ensures h.response.status == ServerError <==> db(CategoryModel.ByIdQuery(Str(id))).Failed?
    ensures db(CategoryModel.ByIdQuery(Str(id))).Failed? ==>
      h.response.body == Failure("Error fetching category", db(CategoryModel.ByIdQuery(Str(id))).error.message)
  {
    var run := CategoryModel.FindById(db, Str(id));
    match run.outcome
    case Returned(None) => Handled(Response(NotFound, Message("Category not found")), run.issued)
    case Returned(Some(row)) => Handled(Response(Ok, Record(Some(row))), run.issued)
    case Threw(e) => Handled(Response(ServerError, Failure("Error fetching category", e.message)), run.issued)
  }

  /** updateCategory: 400 before the store is touched when the name is falsy;
      404 when no row has the id; 200 with the row; 500 on any error. */
  function UpdateCategory(db: Database, id: string, body: CategoryBody): (h: Handled)
    ensures h.issued == [] <==> !Truthy(body.name)
    ensures !Truthy(body.name) ==>
      h.response == Response(BadRequest, Message("Category name is required for update"))
    ensures Truthy(body.name) ==> h.issued == [CategoryModel.UpdateQuery(Str(id), body.name, body.description)]
    ensures h.response.status == NotFound <==>
      Truthy(body.name) && db(CategoryModel.UpdateQuery(Str(id), body.name, body.description)) == Rows([])
    ensures h.response.status == ServerError <==>
      Truthy(body.name) && db(CategoryModel.UpdateQuery(Str(id), body.name, body.description)).Failed?
    ensures Truthy(body.name) ==>
      var res := db(CategoryModel.UpdateQuery(Str(id), body.name, body.description));
      && (res.Rows? && res.rows != [] ==> h.response == Response(Ok, Record(Some(res.rows[0]))))
      && (res.Failed? ==> h.response.body == Failure("Error updating category", res.error.message))
    ensures h.response.status in {Ok, BadRequest, NotFound, ServerError}
  {
    if !Truthy(body.name) then Reject(BadRequest, "Category name is required for update")
    else
      var run := CategoryModel.Update(db, Str(id), body.name, body.description);
      match run.outcome
      case Returned(None) => Handled(Response(NotFound, Message("Category not found for update")), run.issued)
      case Returned(Some(row)) => Handled(Response(Ok, Record(Some(row))), run.issued)
      case Threw(e) => Handled(Response(ServerError, Failure("Error updating category", e.message)), run.issued)
  }

  /** deleteCategory: 404 when no row has the id; 409 when the category is
      still referenced (a foreign-key violation, or any error whose message
      carries the marker); 500 for every other error; 200 otherwise. */
  function DeleteCategory(db: Database, id: string): (h: Handled)
    ensures h.issued == [CategoryModel.DeleteQuery(Str(id))]
    ensures h.response.status == NotFound <==> db(CategoryModel.DeleteQuery(Str(id))) == Rows([])
    ensures h.response.status == Conflict <==>
      var res := db(CategoryModel.DeleteQuery(Str(id)));
      res.Failed? && (HasCode(res.error, ForeignKeyViolation) || Includes(res.error.message, InUseMarker))
    ensures h.response.status == Ok <==>
      var res := db(CategoryModel.DeleteQuery(Str(id)));
      res.Rows? && res.rows != []
    ensures
      var res := db(CategoryModel.DeleteQuery(Str(id)));
      && (res.Rows? && res.rows != [] ==>
            h.response == Response(Ok, Removed("Category deleted successfully", "category", res.rows[0])))
      && (res.Failed? && HasCode(res.error, ForeignKeyViolation) ==>
            h.response == Response(Conflict, Message(CategoryModel.InUse)))
      && (res.Failed? && !HasCode(res.error, ForeignKeyViolation) && Includes(res.error.message, InUseMarker) ==>
            h.response == Response(Conflict, Message(res.error.message)))
      && (res.Failed? && !HasCode(res.error, ForeignKeyViolation) && !Includes(res.error.message, InUseMarker) ==>
            h.response == Response(ServerError, Failure("Error deleting category", res.error.message)))
    ensures h.response.status in {Ok, NotFound, Conflict, ServerError}
  {
    InUseCarriesMarker();
    var run := CategoryModel.Delete(db, Str(id));
    match run.outcome
    case Returned(None) => Handled(Response(NotFound, Message("Category not found for deletion")), run.issued)
    case Returned(Some(row)) =>
      Handled(Response(Ok, Removed("Category deleted successfully", "category", row)), run.issued)
    case Threw(e) =>
      if Includes(e.message, InUseMarker) then Handled(Response(Conflict, Message(e.message)), run.issued)
      else Handled(Response(ServerError, Failure("Error deleting category", e.message)), run.issued)
  }
}
