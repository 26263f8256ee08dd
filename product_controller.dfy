/** The product handlers: request validation that answers 400 before the
    store is touched, query-string parsing and pagination for the listing,
    and the mapping of the store's errors to status codes by the text of
    their messages. */
module ProductController {
  import opened Js
  import opened Sql
  import opened Http
  import ProductModel

  /** The fields the create and update handlers read from the request body. */
  datatype ProductBody = ProductBody(name: Value, description: Value, price: Value, categoryId: Value,
                                     stockQuantity: Value, imageUrl: Value)

  const Required := "Name, price, and category_id are required"
  const BadPrice := "Price must be a non-negative number."
  const BadStock := "Stock quantity must be a non-negative integer."
  const BadPage := "Page must be a positive integer."
  const BadLimit := "Limit must be a positive integer between 1 and 100."
  const MaxLimit := 100

  /** The texts the handlers look for in an error message. */
  const InvalidCategoryMarker := "Invalid category_id"
  const InOrdersMarker := "Cannot delete product as it is part of existing orders"
  const ReferencedMarker := "Cannot delete product due to existing references"

  /** Each error the store raises carries the marker its handler looks for. */
  lemma StoreErrorsCarryMarkers()
    ensures Includes(ProductModel.InvalidCategory, InvalidCategoryMarker)
    ensures Includes(ProductModel.InOrders, InOrdersMarker)
    ensures Includes(ProductModel.StillReferenced, ReferencedMarker)
  {
    assert InvalidCategoryMarker == ProductModel.InvalidCategoryReason;
    IncludesConcat(ProductModel.InvalidCategoryReason, ". Category does not exist.");
    assert InOrdersMarker == ProductModel.InOrdersReason;
    IncludesConcat(ProductModel.InOrdersReason, ". Consider archiving the product instead.");
    assert ReferencedMarker == ProductModel.ReferencedReason;
    IncludesConcat(ProductModel.ReferencedReason, ".");
  }


  // ---------------------------------------------------------------------------
  // Validation

  /** `!(isNaN(parseFloat(price)) || parseFloat(price) < 0)`. */
  predicate ValidPrice(price: Value) {
    ParseFloat(price).Some? && !IsNegative(ParseFloat(price).value)
  }

  /** `!(isNaN(parseInt(stock_quantity)) || parseInt(stock_quantity) < 0)`. */
  predicate ValidStock(stock: Value) {
    ParseInt(stock, Detect).Some? && ParseInt(stock, Detect).value >= 0
  }

  /** A price or stock quantity sent as the decimal text of an integer is
      accepted exactly when that integer is not negative. */
  lemma PriceOfDecimalText(i: int)
    ensures ValidPrice(Str(IntText(i))) <==> i >= 0
  {
    ParseFloatReadsIntText(i);
  }

  lemma StockOfDecimalText(i: int)
    ensures ValidStock(Str(IntText(i))) <==> i >= 0
  {
    var t := IntText(i);
    ParseIntReadsIntText(i, [], Detect);
    assert t + [] == t;
    assert ParseIntText(t, Detect) == Some(i);
    assert ParseInt(Str(t), Detect) == Some(i);
  }

  /** The same holds for a whole number sent as a JSON number. */
  lemma ValidatesWholeNumber(i: int)
    ensures ValidPrice(Num(i as real)) <==> i >= 0
    ensures ValidStock(Num(i as real)) <==> i >= 0
  {
    assert Trunc(i as real) == i;
  }

  /** The 400 message createProduct answers with, if any, checked in the
      order the handler checks. */
  function CreateRejection(b: ProductBody): (m: Option<string>)
    ensures m == None <==>
      Truthy(b.name) && Truthy(b.price) && Truthy(b.categoryId) && ValidPrice(b.price) &&
      (Truthy(b.stockQuantity) ==> ValidStock(b.stockQuantity))
    ensures m == Some(Required) <==> !Truthy(b.name) || !Truthy(b.price) || !Truthy(b.categoryId)
    ensures m == Some(BadPrice) <==>
      Truthy(b.name) && Truthy(b.price) && Truthy(b.categoryId) && !ValidPrice(b.price)
    ensures m == Some(BadStock) <==>
      Truthy(b.name) && Truthy(b.price) && Truthy(b.categoryId) && ValidPrice(b.price) &&
      Truthy(b.stockQuantity) && !ValidStock(b.stockQuantity)
  {
    if !Truthy(b.name) || !Truthy(b.price) || !Truthy(b.categoryId) then Some(Required)
    else if !ValidPrice(b.price) then Some(BadPrice)
    else if Truthy(b.stockQuantity) && !ValidStock(b.stockQuantity) then Some(BadStock)
    else None
  }

  /** The 400 message updateProduct answers with, if any: a price or stock
      quantity is checked only when it is truthy. */
  function UpdateRejection(b: ProductBody): (m: Option<string>)
    ensures m == None <==>
      (Truthy(b.price) ==> ValidPrice(b.price)) && (Truthy(b.stockQuantity) ==> ValidStock(b.stockQuantity))
    ensures m == Some(BadPrice) <==> Truthy(b.price) && !ValidPrice(b.price)
    ensures m == Some(BadStock) <==>
      (Truthy(b.price) ==> ValidPrice(b.price)) && Truthy(b.stockQuantity) && !ValidStock(b.stockQuantity)
    ensures m != Some(Required)
  {
    if Truthy(b.price) && !ValidPrice(b.price) then Some(BadPrice)
    else if Truthy(b.stockQuantity) && !ValidStock(b.stockQuantity) then Some(BadStock)
    else None
  }

  /** A numeric price of 0 passes the non-negativity check but is turned away
      as missing, while the text "0" is accepted. */
  lemma ZeroPriceReportedMissing(name: Value, categoryId: Value)
    requires Truthy(name) && Truthy(categoryId)
    ensures ValidPrice(Num(0.0))
    ensures CreateRejection(ProductBody(name, Undefined, Num(0.0), categoryId, Undefined, Undefined)) == Some(Required)
    ensures CreateRejection(ProductBody(name, Undefined, Str("0"), categoryId, Undefined, Undefined)) == None
  {
    ValidatesWholeNumber(0);
    assert !Truthy(Num(0.0));
    var zero := IntText(0);
    assert zero == "0" by {
      assert DecimalDigits(0) == [DigitChar(0)];
    }
    PriceOfDecimalText(0);
    assert ValidPrice(Str("0")) && Truthy(Str("0"));
    assert !Truthy(Undefined);
  }

  /** The createProduct validation with "missing" read as absent (undefined,
      null or the empty string) rather than falsy, so that a price is judged
      by its value alone. */
  function IntendedCreateRejection(b: ProductBody): (m: Option<string>)
    ensures m == None <==>
      Truthy(b.name) && Present(b.price) && Truthy(b.categoryId) && ValidPrice(b.price) &&
      (Truthy(b.stockQuantity) ==> ValidStock(b.stockQuantity))
    ensures m == Some(Required) <==> !Truthy(b.name) || !Present(b.price) || !Truthy(b.categoryId)
    ensures m == Some(BadPrice) <==>
      Truthy(b.name) && Present(b.price) && Truthy(b.categoryId) && !ValidPrice(b.price)
    ensures m == Some(BadStock) <==>
      Truthy(b.name) && Present(b.price) && Truthy(b.categoryId) && ValidPrice(b.price) &&
      Truthy(b.stockQuantity) && !ValidStock(b.stockQuantity)
  {
    if !Truthy(b.name) || !Present(b.price) || !Truthy(b.categoryId) then Some(Required)
    else if !ValidPrice(b.price) then Some(BadPrice)
    else if Truthy(b.stockQuantity) && !ValidStock(b.stockQuantity) then Some(BadStock)
    else None
  }

  predicate Present(v: Value) {
    v != Undefined && v != Null && v != Str("")
  }

  /** Under the intended validation every non-negative numeric price is
      accepted, 0 included, and it rejects exactly what the written one
      rejects for every price other than a numeric 0. */
  lemma IntendedAcceptsEveryNonNegativePrice(b: ProductBody)
    ensures (Truthy(b.name) && Truthy(b.categoryId) && b.price.Num? && b.price.x >= 0.0 &&
             (Truthy(b.stockQuantity) ==> ValidStock(b.stockQuantity))) ==>
      IntendedCreateRejection(b) == None
    ensures b.price != Num(0.0) && b.price != Bool(false) ==> IntendedCreateRejection(b) == CreateRejection(b)
  {
  }

  // ---------------------------------------------------------------------------
  // createProduct

  function NewProductOf(b: ProductBody): ProductModel.NewProduct {
    ProductModel.NewProduct(b.name, b.description, b.price, b.categoryId, b.stockQuantity, b.imageUrl)
  }

  /** createProduct, with the price presence check corrected (see
      ZeroPriceReportedMissing): 400 without touching the store when
      validation fails; otherwise one INSERT answered by 201, by 400 with the
      store's message when it names an invalid category, or by 500. */
  function CreateProduct(db: Database, b: ProductBody): (h: Handled)
    ensures h.issued == [] <==> IntendedCreateRejection(b).Some?
    ensures IntendedCreateRejection(b).Some? ==> h.response == Response(BadRequest, Message(IntendedCreateRejection(b).value))
    ensures IntendedCreateRejection(b).None? ==> h.issued == [ProductModel.InsertQuery(NewProductOf(b))]
    ensures h.response.status == Created <==>
      IntendedCreateRejection(b).None? && db(ProductModel.InsertQuery(NewProductOf(b))).Rows?
    ensures IntendedCreateRejection(b).None? && db(ProductModel.InsertQuery(NewProductOf(b))).Rows? ==>
      h.response.body == Record(First(db(ProductModel.InsertQuery(NewProductOf(b))).rows))
    ensures IntendedCreateRejection(b).None? && db(ProductModel.InsertQuery(NewProductOf(b))).Failed? ==>
      var e := db(ProductModel.InsertQuery(NewProductOf(b))).error;
      && (HasCode(e, ForeignKeyViolation) ==>
            h.response == Response(BadRequest, Message(ProductModel.InvalidCategory)))
      && (!HasCode(e, ForeignKeyViolation) && Includes(e.message, InvalidCategoryMarker) ==>
            h.response == Response(BadRequest, Message(e.message)))
      && (!HasCode(e, ForeignKeyViolation) && !Includes(e.message, InvalidCategoryMarker) ==>
            h.response == Response(ServerError, Failure("Error creating product", e.message)))
    ensures h.response.status in {Created, BadRequest, ServerError}
  {
    StoreErrorsCarryMarkers();
    var rejection := IntendedCreateRejection(b);
    if rejection.Some? then Reject(BadRequest, rejection.value)
    else
      var run := ProductModel.Create(db, NewProductOf(b));
      match run.outcome
      case Returned(row) => Handled(Response(Created, Record(row)), run.issued)
      case Threw(e) =>
        if Includes(e.message, InvalidCategoryMarker) then Handled(Response(BadRequest, Message(e.message)), run.issued)
        else Handled(Response(ServerError, Failure("Error creating product", e.message)), run.issued)
  }

  // ---------------------------------------------------------------------------
  // getAllProducts

  /** The query-string parameters of the listing. */
  datatype ListRequest = ListRequest(categoryId: Option<string>, page: Option<string>, limit: Option<string>,
                                     sortBy: Option<string>, sortOrder: Option<string>)

  /** `param ? parseInt(param, 10) : fallback`; None is NaN. */
  function NumberParam(param: Option<string>, fallback: int): (n: Option<int>)
    ensures !Truthy(QueryValue(param)) ==> n == Some(fallback)
  {
    if Truthy(QueryValue(param)) then ParseInt(QueryValue(param), Decimal) else Some(fallback)
  }

  /** The page number reads back from its decimal text. */
  lemma NumberParamReadsIntText(i: int, fallback: int)
    ensures NumberParam(Some(IntText(i)), fallback) == Some(i)
  {
    ParseIntReadsIntText(i, [], Decimal);
    assert IntText(i) + [] == IntText(i);
  }

  predicate ValidPage(page: Option<int>) {
    page.Some? && page.value >= 1
  }

  predicate ValidLimit(limit: Option<int>) {
    limit.Some? && 1 <= limit.value <= MaxLimit
  }

  /** `Math.ceil(t / l)` for a whole number t and a positive l. */
  function CeilDiv(t: int, l: int): (r: int)
    requires l >= 1
    ensures l * (r - 1) < t <= l * r
  {
    var q := (-t) / l;
    assert -t == l * q + (-t) % l;
    -q
  }

  /** `Math.ceil(total / limit)`; NaN stays NaN. */
  function TotalPages(total: Option<int>, limit: int): (pages: Option<int>)
    requires limit >= 1
    ensures pages.Some? <==> total.Some?
    ensures pages.Some? ==> limit * (pages.value - 1) < total.value <= limit * pages.value
  {
    if total.Some? then Some(CeilDiv(total.value, limit)) else None
  }

  /** The options handed to findAll for a validated page and limit. */
  function ListOptionsOf(q: ListRequest, page: int, limit: int): ProductModel.ListOptions {
    ProductModel.ListOptions(q.categoryId, Some(page), Some(limit), q.sortBy, q.sortOrder)
  }

  /** getAllProducts: 400 without touching the store for a bad page or
      limit; otherwise the listing and COUNT statements, answered by 200 with
      the page of rows and the pagination block, or by 500. */
  function GetAllProducts(db: Database, q: ListRequest): (h: Handled)
    ensures h.issued == [] <==> !ValidPage(NumberParam(q.page, 1)) || !ValidLimit(NumberParam(q.limit, 10))
    ensures !ValidPage(NumberParam(q.page, 1)) ==> h.response == Response(BadRequest, Message(BadPage))
    ensures ValidPage(NumberParam(q.page, 1)) && !ValidLimit(NumberParam(q.limit, 10)) ==>
      h.response == Response(BadRequest, Message(BadLimit))
    ensures ValidPage(NumberParam(q.page, 1)) && ValidLimit(NumberParam(q.limit, 10)) ==>
      var page, limit := NumberParam(q.page, 1).value, NumberParam(q.limit, 10).value;
      var o := ListOptionsOf(q, page, limit);
      && h.issued == ProductModel.FindAll(db, o).issued
      && (h.response.status == Ok <==> ProductModel.FindAll(db, o).outcome.Returned?)
      && (h.response.status == Ok ==>
            var result := ProductModel.FindAll(db, o).outcome.value;
            h.response.body == Listing(result.products, Pagination(result.total, TotalPages(result.total, limit), page, limit)))
      && (ProductModel.FindAll(db, o).outcome.Threw? ==>
            h.response ==
              Response(ServerError, Failure("Error fetching products", ProductModel.FindAll(db, o).outcome.error.message)))
    ensures h.response.status == Ok ==>
      && h.response.body.Listing?
      && h.response.body.pagination.currentPage >= 1
      && 1 <= h.response.body.pagination.pageSize <= MaxLimit
    ensures h.response.status in {Ok, BadRequest, ServerError}
  {
    var pageInt := NumberParam(q.page, 1);
    var limitInt := NumberParam(q.limit, 10);
    if !ValidPage(pageInt) then Reject(BadRequest, BadPage)
    else if !ValidLimit(limitInt) then Reject(BadRequest, BadLimit)
    else
      var page, limit := pageInt.value, limitInt.value;
      var run := ProductModel.FindAll(db, ListOptionsOf(q, page, limit));
      match run.outcome
      case Returned(result) =>
        var pagination := Pagination(result.total, TotalPages(result.total, limit), page, limit);
        Handled(Response(Ok, Listing(result.products, pagination)), run.issued)
      case Threw(e) => Handled(Response(ServerError, Failure("Error fetching products", e.message)), run.issued)
  }

  // ---------------------------------------------------------------------------
  // getProductById

  /** getProductById: 404 when no row has the id, 200 with the row, 500 on error. */
  function GetProductById(db: Database, id: string): (h: Handled)
    ensures h.issued == [ProductModel.ByIdQuery(Str(id))]
    ensures h.response.status == NotFound <==> db(ProductModel.ByIdQuery(Str(id))) == Rows([])
    ensures h.response.status == Ok <==>
      db(ProductModel.ByIdQuery(Str(id))).Rows? && db(ProductModel.ByIdQuery(Str(id))).rows != []
    ensures h.response.status == Ok ==>
      h.response.body == Record(Some(db(ProductModel.ByIdQuery(Str(id))).rows[0]))
    ensures h.response.status == ServerError <==> db(ProductModel.ByIdQuery(Str(id))).Failed?
    ensures db(ProductModel.ByIdQuery(Str(id))).Failed? ==>
      h.response.body == Failure("Error fetching product", db(ProductModel.ByIdQuery(Str(id))).error.message)
  {
    var run := ProductModel.FindById(db, Str(id));
    match run.outcome
    case Returned(None) => Handled(Response(NotFound, Message("Product not found")), run.issued)
    case Returned(Some(row)) => Handled(Response(Ok, Record(Some(row))), run.issued)
    case Threw(e) => Handled(Response(ServerError, Failure("Error fetching product", e.message)), run.issued)
  }

  // ---------------------------------------------------------------------------
  // updateProduct

  /** The columns a product update may set. */
  const ProductColumns: set<string> := {"name", "description", "price", "category_id", "stock_quantity", "image_url"}

  /** The object updateProduct passes to the store, in its key order. */
  function UpdateEntries(b: ProductBody): seq<Entry> {
    [("name", b.name), ("description", b.description), ("price", b.price), ("category_id", b.categoryId),
     ("stock_quantity", b.stockQuantity), ("image_url", b.imageUrl)]
  }

  /** The update object names each product column once. */
  lemma UpdateEntriesShape(b: ProductBody)
    ensures DistinctKeys(UpdateEntries(b))
    ensures forall e :: e in UpdateEntries(b) ==> e.0 in ProductColumns
  {
    var e := UpdateEntries(b);
    assert Keys(e) == ["name", "description", "price", "category_id", "stock_quantity", "image_url"];
    forall i, j | 0 <= i < j < |e| ensures e[i].0 != e[j].0 {
      assert e[i].0 == Keys(e)[i] && e[j].0 == Keys(e)[j];
    }
  }

  /** Neither the key nor the timestamp is a column the body can set. */
  lemma ProtectedColumnsNotSettable()
    ensures "id" !in ProductColumns && "updated_at" !in ProductColumns
  {
  }

  /** The UPDATE sets only product columns, each at most once, from the
      fields the body defines; id and updated_at are never taken from it. */
  lemma UpdateSetsOnlyBodyColumns(b: ProductBody, id: string)
    ensures DistinctKeys(Defined(UpdateEntries(b)))
    ensures forall e :: e in Defined(UpdateEntries(b)) ==> e.0 in ProductColumns && e.1 != Undefined
    ensures Defined(UpdateEntries(b)) != [] ==>
      var text := ProductModel.UpdateQuery(Str(id), Defined(UpdateEntries(b))).text;
      forall i :: 0 <= i < |Assignments(text)| ==>
        Assignments(text)[i].0 in ProductColumns && Assignments(text)[i].0 != "id" && Assignments(text)[i].0 != "updated_at"
  {
    var entries := UpdateEntries(b);
    UpdateEntriesShape(b);
    DefinedKeepsDistinctKeys(entries);
    DefinedMembers(entries);
    ProtectedColumnsNotSettable();
    var kept := Defined(entries);
    if kept != [] {
      var text := ProductModel.UpdateQuery(Str(id), kept).text;
      forall i | 0 <= i < |Assignments(text)|
        ensures Assignments(text)[i].0 in ProductColumns
      {
        assert Assignments(text)[i].0 == kept[i].0;
        assert kept[i] in entries;
      }
    }
  }

  /** updateProduct: 400 without touching the store when validation fails;
      404 when the store finds no row; 200 with the re-read row; 400 with the
      store's message when it names an invalid category; 500 otherwise. */
  function UpdateProduct(db: Database, id: string, b: ProductBody): (h: Handled)
    ensures h.issued == [] <==> UpdateRejection(b).Some?
    ensures UpdateRejection(b).Some? ==> h.response == Response(BadRequest, Message(UpdateRejection(b).value))
    ensures UpdateRejection(b).None? ==> h.issued == ProductModel.Update(db, Str(id), UpdateEntries(b)).issued
    ensures UpdateRejection(b).None? && Defined(UpdateEntries(b)) == [] ==>
      h.issued == [ProductModel.ByIdQuery(Str(id))]
    ensures h.response.status == NotFound <==>
      UpdateRejection(b).None? && ProductModel.Update(db, Str(id), UpdateEntries(b)).outcome == Returned(None)
    ensures UpdateRejection(b).None? && Defined(UpdateEntries(b)) != [] ==>
      var e := db(ProductModel.UpdateQuery(Str(id), Defined(UpdateEntries(b))));
      e.Failed? && HasCode(e.error, ForeignKeyViolation) && e.error.constraint == Some(ProductModel.CategoryForeignKey) ==>
        h.response == Response(BadRequest, Message(ProductModel.InvalidCategory))
    ensures UpdateRejection(b).None? ==>
      var r := ProductModel.Update(db, Str(id), UpdateEntries(b));
      && (r.outcome.Returned? && r.outcome.value.Some? ==> h.response == Response(Ok, Record(r.outcome.value)))
      && (r.outcome.Threw? && Includes(r.outcome.error.message, InvalidCategoryMarker) ==>
            h.response == Response(BadRequest, Message(r.outcome.error.message)))
      && (r.outcome.Threw? && !Includes(r.outcome.error.message, InvalidCategoryMarker) ==>
            h.response == Response(ServerError, Failure("Error updating product", r.outcome.error.message)))
    ensures h.response.status in {Ok, BadRequest, NotFound, ServerError}
  {
    StoreErrorsCarryMarkers();
    var rejection := UpdateRejection(b);
    if rejection.Some? then Reject(BadRequest, rejection.value)
    else
      var run := ProductModel.Update(db, Str(id), UpdateEntries(b));
      match run.outcome
      case Returned(None) => Handled(Response(NotFound, Message("Product not found for update")), run.issued)
      case Returned(Some(row)) => Handled(Response(Ok, Record(Some(row))), run.issued)
      case Threw(e) =>
        if Includes(e.message, InvalidCategoryMarker) then Handled(Response(BadRequest, Message(e.message)), run.issued)
        else Handled(Response(ServerError, Failure("Error updating product", e.message)), run.issued)
  }

  // ---------------------------------------------------------------------------
  // deleteProduct

  /** deleteProduct: 409 when the product appears in an order (and then no
      DELETE is sent) or is still referenced; 404 when no row has the id;
      200 with the removed row; 500 otherwise. */
  function DeleteProduct(db: Database, id: string): (h: Handled)
    ensures h.issued == ProductModel.Delete(db, Str(id)).issued
    ensures var probe := db(ProductModel.ProbeQuery(Str(id)));
      probe.Rows? && probe.rows != [] ==>
        h == Handled(Response(Conflict, Message(ProductModel.InOrders)), [ProductModel.ProbeQuery(Str(id))])
    ensures db(ProductModel.ProbeQuery(Str(id))) == Rows([]) ==>
      var del := db(ProductModel.DeleteQuery(Str(id)));
      && (del == Rows([]) ==> h.response == Response(NotFound, Message("Product not found for deletion")))
      && (del.Rows? && del.rows != [] ==>
            h.response == Response(Ok, Removed("Product deleted successfully", "product", del.rows[0])))
      && (del.Failed? && HasCode(del.error, ForeignKeyViolation) ==>
            h.response == Response(Conflict, Message(ProductModel.StillReferenced)))
    ensures h.response.status == Conflict <==>
      var r := ProductModel.Delete(db, Str(id));
      r.outcome.Threw? && (Includes(r.outcome.error.message, InOrdersMarker) || Includes(r.outcome.error.message, ReferencedMarker))
    ensures var r := ProductModel.Delete(db, Str(id));
      r.outcome.Threw? ==>
        var msg := r.outcome.error.message;
        && (Includes(msg, InOrdersMarker) || Includes(msg, ReferencedMarker) ==>
              h.response == Response(Conflict, Message(msg)))
        && (!Includes(msg, InOrdersMarker) && !Includes(msg, ReferencedMarker) ==>
              h.response == Response(ServerError, Failure("Error deleting product", msg)))
    ensures h.response.status in {Ok, NotFound, Conflict, ServerError}
  {
    StoreErrorsCarryMarkers();
    var run := ProductModel.Delete(db, Str(id));
    match run.outcome
    case Returned(None) => Handled(Response(NotFound, Message("Product not found for deletion")), run.issued)
    case Returned(Some(row)) =>
      Handled(Response(Ok, Removed("Product deleted successfully", "product", row)), run.issued)
    case Threw(e) =>
      if Includes(e.message, InOrdersMarker) then Handled(Response(Conflict, Message(e.message)), run.issued)
      else if Includes(e.message, ReferencedMarker) then Handled(Response(Conflict, Message(e.message)), run.issued)
      else Handled(Response(ServerError, Failure("Error deleting product", e.message)), run.issued)
  }
}
