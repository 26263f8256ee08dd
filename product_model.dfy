/** The Products record store: the listing query with its allow-listed sort
    column, placeholder numbering, pagination offset and companion COUNT
    query; the sparse partial update; and the error translation of create,
    update and delete, including delete's Order_Items pre-check. */
module ProductModel {
  import opened Js
  import opened Sql

  /** The error messages, each split after the words the handlers look for. */
  const InvalidCategoryReason := "Invalid category_id"
  const InvalidCategory := InvalidCategoryReason + ". Category does not exist."
  const InOrdersReason := "Cannot delete product as it is part of existing orders"
  const InOrders := InOrdersReason + ". Consider archiving the product instead."
  const ReferencedReason := "Cannot delete product due to existing references"
  const StillReferenced := ReferencedReason + "."
  /** The foreign key from Products.category_id to Categories. */
  const CategoryForeignKey := "products_category_id_fkey"
  /** The thrown TypeError when the COUNT query yields no row. */
  const NoCountRow := "Cannot read properties of undefined (reading 'count')"

  /** The columns a listing may be ordered by. */
  const SortColumns: seq<string> := ["name", "price", "created_at", "updated_at", "stock_quantity"]
  const DefaultSortColumn := "created_at"

  // ---------------------------------------------------------------------------
  // create

  /** The fields `create` takes, as the handler passes them on. */
  datatype NewProduct = NewProduct(name: Value, description: Value, price: Value, categoryId: Value,
                                   stockQuantity: Value, imageUrl: Value)

  function InsertText(): seq<Fragment> {
    [Text("INSERT INTO Products (name, description, price, category_id, stock_quantity, image_url) VALUES (")]
    + ParamList(1, 6) + [Text(") RETURNING *;")]
  }

  /** The six fields are bound at $1 .. $6 in the order of the column list. */
  function InsertQuery(p: NewProduct): (q: Query)
    ensures WellNumbered(q)
    ensures q.args == [p.name, p.description, p.price, p.categoryId, p.stockQuantity, p.imageUrl]
  {
    ParamListNumbering(1, 6);
    Enclosed("INSERT INTO Products (name, description, price, category_id, stock_quantity, image_url) VALUES (",
             ParamList(1, 6), ") RETURNING *;");
    Query(InsertText(), [p.name, p.description, p.price, p.categoryId, p.stockQuantity, p.imageUrl])
  }

  /** `create`: any foreign-key violation becomes "Invalid category_id"; every
      other error is rethrown as it is. */
  function Create(db: Database, p: NewProduct): (r: Run<Option<Row>>)
    ensures r.issued == [InsertQuery(p)]
    ensures db(InsertQuery(p)).Rows? ==> r.outcome == Returned(First(db(InsertQuery(p)).rows))
    ensures db(InsertQuery(p)).Failed? && HasCode(db(InsertQuery(p)).error, ForeignKeyViolation) ==>
      r.outcome == Threw(NewError(InvalidCategory))
    ensures db(InsertQuery(p)).Failed? && !HasCode(db(InsertQuery(p)).error, ForeignKeyViolation) ==>
      r.outcome == Threw(db(InsertQuery(p)).error)
  {
    var q := InsertQuery(p);
    match db(q)
    case Rows(rows) => Run(Returned(First(rows)), [q])
    case Failed(e) =>
      if HasCode(e, ForeignKeyViolation) then Run(Threw(NewError(InvalidCategory)), [q])
      else Run(Threw(e), [q])
  }

  // ---------------------------------------------------------------------------
  // findAll

  /** The options `findAll` destructures; None is an undefined option, for
      which the destructuring default applies. */
  datatype ListOptions = ListOptions(categoryId: Option<string>, page: Option<int>, limit: Option<int>,
                                     sortBy: Option<string>, sortOrder: Option<string>)

  function PageOf(o: ListOptions): int {
    if o.page.Some? then o.page.value else 1
  }

  function LimitOf(o: ListOptions): int {
    if o.limit.Some? then o.limit.value else 10
  }

  /** Whether the listing is filtered by category (`if (categoryId)`). */
  predicate Filtered(o: ListOptions) {
    Truthy(QueryValue(o.categoryId))
  }

  /** Lower-case letters and underscores only. */
  predicate IsLowerIdentifier(s: string) {
    forall i :: 0 <= i < |s| ==> 'a' <= s[i] <= 'z' || s[i] == '_'
  }

  lemma LowerIdentifierIsPlain(s: string)
    requires IsLowerIdentifier(s)
    ensures ToLowerCase(s) == s
    ensures forall i :: 0 <= i < |s| ==> IsWordChar(s[i])
  {
  }

  lemma SortColumnsAreLowerIdentifiers()
    ensures forall c :: c in SortColumns ==> IsLowerIdentifier(c)
  {
    assert IsLowerIdentifier("name");
    assert IsLowerIdentifier("price");
    assert IsLowerIdentifier("created_at");
    assert IsLowerIdentifier("updated_at");
    assert IsLowerIdentifier("stock_quantity");
  }

  /** The ORDER BY column: `sortBy` itself, in its own casing, when its lower
      case form is allow-listed; created_at otherwise. Either way it is a
      case variant of an allow-listed column and holds only identifier
      characters, so nothing else can reach that position of the text. */
  function SafeSortBy(sortBy: Option<string>): (column: string)
    ensures ToLowerCase(column) in SortColumns
    ensures forall i :: 0 <= i < |column| ==> IsWordChar(column[i])
    ensures sortBy.Some? && ToLowerCase(sortBy.value) in SortColumns ==> column == sortBy.value
    ensures sortBy.Some? && ToLowerCase(sortBy.value) !in SortColumns ==> column == DefaultSortColumn
    ensures sortBy.None? ==> column == DefaultSortColumn
  {
    SortColumnsAreLowerIdentifiers();
    LowerIdentifierIsPlain(DefaultSortColumn);
    var requested := if sortBy.Some? then sortBy.value else DefaultSortColumn;
    if ToLowerCase(requested) in SortColumns then
      LowerIdentifierIsPlain(ToLowerCase(requested));
      LowerPreservesWordChars(requested);
      requested
    else DefaultSortColumn
  }

  /** `s` spells "ASC" in any mix of cases. */
  predicate IsAscIgnoringCase(s: string) {
    |s| == 3 && (s[0] == 'a' || s[0] == 'A') && (s[1] == 's' || s[1] == 'S') && (s[2] == 'c' || s[2] == 'C')
  }

  /** The sort direction: ASC exactly when `sortOrder` spells "asc" in any
      case; DESC for everything else, the missing option included. */
  function SafeSortOrder(sortOrder: Option<string>): (direction: string)
    ensures direction == "ASC" || direction == "DESC"
    ensures direction == "ASC" <==> sortOrder.Some? && IsAscIgnoringCase(sortOrder.value)
  {
    var requested := if sortOrder.Some? then sortOrder.value else "DESC";
    assert ToUpperCase(requested) == "ASC" <==> IsAscIgnoringCase(requested) by {
      if |requested| == 3 {
        assert ToUpperCase(requested)[0] == UpperChar(requested[0]);
        assert ToUpperCase(requested)[1] == UpperChar(requested[1]);
        assert ToUpperCase(requested)[2] == UpperChar(requested[2]);
      }
    }
    if ToUpperCase(requested) == "ASC" then "ASC" else "DESC"
  }

  /** `(page - 1) * limit`. */
  function Offset(page: int, limit: int): int {
    (page - 1) * limit
  }

  /** For a valid page and limit the offset skips exactly the earlier pages. */
  lemma OffsetSkipsEarlierPages(page: int, limit: int)
    requires page >= 1 && limit >= 1
    ensures Offset(page, limit) >= 0
    ensures Offset(page, limit) % limit == 0
    ensures Offset(page, limit) / limit == page - 1
  {
    var k := page - 1;
    assert Offset(page, limit) == k * limit;
    assert k * limit >= 0;
    assert (k * limit) / limit == k && (k * limit) % limit == 0 by {
      DivisionOfMultiple(k, limit);
    }
  }

  lemma DivisionOfMultiple(k: nat, limit: int)
    requires limit >= 1
    ensures (k * limit) / limit == k && (k * limit) % limit == 0
  {
    var q, m := (k * limit) / limit, (k * limit) % limit;
    assert k * limit == q * limit + m && 0 <= m < limit;
    assert (k - q) * limit == m;
    MultipleBounds(k - q, limit);
  }

  lemma MultipleBounds(d: int, limit: int)
    requires limit >= 1
    ensures d >= 1 ==> d * limit >= limit
    ensures d <= -1 ==> d * limit <= -limit
  {
  }

  const ListSelect := "SELECT p.*, c.name as category_name FROM Products p LEFT JOIN Categories c ON p.category_id = c.id"

  /** The category filter, at $1, present only when filtering. */
  function WhereText(filtered: bool): seq<Fragment> {
    if filtered then [Text(" WHERE "), Text("p.category_id = "), Param(1)] else []
  }

  function OrderByText(column: string, direction: string): seq<Fragment> {
    [Text(" ORDER BY p."), Ident(column), Text(" " + direction)]
  }

  /** LIMIT and OFFSET at the two placeholders after the filter's. */
  function PageText(first: nat): seq<Fragment> {
    [Text(" LIMIT "), Param(first), Text(" OFFSET "), Param(first + 1), Text(";")]
  }

  /** The listing text: optional category filter at $1, the ORDER BY column
      and direction, then LIMIT and OFFSET at the next two placeholders. */
  function ListText(filtered: bool, column: string, direction: string): seq<Fragment> {
    [Text(ListSelect)] + WhereText(filtered) + OrderByText(column, direction)
    + PageText(if filtered then 2 else 1)
  }

  /** The listing statement `findAll` sends. */
  function ListQuery(o: ListOptions): Query {
    Query(ListText(Filtered(o), SafeSortBy(o.sortBy), SafeSortOrder(o.sortOrder)),
          (if Filtered(o) then [QueryValue(o.categoryId)] else [])
          + [Num(LimitOf(o) as real), Num(Offset(PageOf(o), LimitOf(o)) as real)])
  }

  function CountAllText(): seq<Fragment> {
    [Text("SELECT COUNT(*) FROM Products")]
  }

  function CountInCategoryText(): seq<Fragment> {
    [Text("SELECT COUNT(*) FROM Products"), Text(" WHERE category_id = "), Param(1)]
  }

  /** The companion COUNT statement `findAll` sends. */
  function CountQuery(o: ListOptions): Query {
    if Filtered(o) then Query(CountInCategoryText(), [QueryValue(o.categoryId)])
    else Query(CountAllText(), [])
  }
  /** The listing binds the category (when filtered) at $1, the limit and the
      offset after it, and uses exactly as many placeholders as values; the
      only identifier in it is the allow-listed ORDER BY column. */
  lemma {:induction false} ListQueryShape(o: ListOptions)
    ensures WellNumbered(ListQuery(o))
    ensures Placeholders(ListQuery(o).text) == if Filtered(o) then [1, 2, 3] else [1, 2]
    ensures ListQuery(o).args == (if Filtered(o) then [QueryValue(o.categoryId)] else [])
      + [Num(LimitOf(o) as real), Num(Offset(PageOf(o), LimitOf(o)) as real)]
    ensures Identifiers(ListQuery(o).text) == [SafeSortBy(o.sortBy)]
    ensures ToLowerCase(SafeSortBy(o.sortBy)) in SortColumns
  {
    var f, column := Filtered(o), SafeSortBy(o.sortBy);
    var q := ListQuery(o);
    assert q.text == ListText(f, column, SafeSortOrder(o.sortOrder));
    ListTextShape(f, column, SafeSortOrder(o.sortOrder));
    var p := Placeholders(q.text);
    if f {
      assert p == [1, 2, 3] && |q.args| == 3;
      assert p[0] == 1 && p[1] == 2 && p[2] == 3;
    } else {
      assert p == [1, 2] && |q.args| == 2;
      assert p[0] == 1 && p[1] == 2;
    }
    assert Consecutive(p, 1);
  }

  lemma {:induction false} ListTextShape(filtered: bool, column: string, direction: string)
    ensures Placeholders(ListText(filtered, column, direction)) == if filtered then [1, 2, 3] else [1, 2]
    ensures Identifiers(ListText(filtered, column, direction)) == [column]
  {
    var a := [Text(ListSelect)];
    var w, b, c := WhereText(filtered), OrderByText(column, direction), PageText(if filtered then 2 else 1);
    TextPieces(a, w, b, c);
    CollectOne(Text(ListSelect), PlaceholdersOf);
    CollectOne(Text(ListSelect), IdentifiersOf);
    WherePiece(filtered);
    OrderByPiece(column, direction);
    LimitPiece(if filtered then 2 else 1);
  }

  lemma {:induction false} WherePiece(filtered: bool)
    ensures Placeholders(WhereText(filtered)) == if filtered then [1] else []
    ensures Identifiers(WhereText(filtered)) == []
  {
    if filtered {
      var v := [Text("p.category_id = "), Param(1)];
      Enclosed(" WHERE ", v, "");
      assert WhereText(filtered) + [Text("")] == [Text(" WHERE ")] + v + [Text("")];
      CollectAppend(WhereText(filtered), [Text("")], PlaceholdersOf);
      CollectAppend(WhereText(filtered), [Text("")], IdentifiersOf);
      CollectOne(Text(""), PlaceholdersOf);
      CollectOne(Text(""), IdentifiersOf);
      assert v == [v[0]] + [v[1]];
      CollectAppend([v[0]], [v[1]], PlaceholdersOf);
      CollectAppend([v[0]], [v[1]], IdentifiersOf);
      CollectOne(v[0], PlaceholdersOf);
      CollectOne(v[1], PlaceholdersOf);
      CollectOne(v[0], IdentifiersOf);
      CollectOne(v[1], IdentifiersOf);
    }
  }

  lemma {:induction false} TextPieces(a: seq<Fragment>, w: seq<Fragment>, b: seq<Fragment>, c: seq<Fragment>)
    ensures Placeholders(a + w + b + c) == Placeholders(a) + Placeholders(w) + Placeholders(b) + Placeholders(c)
    ensures Identifiers(a + w + b + c) == Identifiers(a) + Identifiers(w) + Identifiers(b) + Identifiers(c)
  {
    CollectAppend(a, w, PlaceholdersOf);
    CollectAppend(a + w, b, PlaceholdersOf);
    CollectAppend(a + w + b, c, PlaceholdersOf);
    CollectAppend(a, w, IdentifiersOf);
    CollectAppend(a + w, b, IdentifiersOf);
    CollectAppend(a + w + b, c, IdentifiersOf);
  }

  lemma {:induction false} OrderByPiece(column: string, direction: string)
    ensures Placeholders([Text(" ORDER BY p."), Ident(column), Text(" " + direction)]) == []
    ensures Identifiers([Text(" ORDER BY p."), Ident(column), Text(" " + direction)]) == [column]
  {
    var s := [Text(" ORDER BY p."), Ident(column), Text(" " + direction)];
    assert s == [s[0]] + [s[1]] + [s[2]];
    CollectAppend([s[0]], [s[1]], PlaceholdersOf);
    CollectAppend([s[0]] + [s[1]], [s[2]], PlaceholdersOf);
    CollectAppend([s[0]], [s[1]], IdentifiersOf);
    CollectAppend([s[0]] + [s[1]], [s[2]], IdentifiersOf);
    CollectOne(s[0], PlaceholdersOf);
    CollectOne(s[1], PlaceholdersOf);
    CollectOne(s[2], PlaceholdersOf);
    CollectOne(s[0], IdentifiersOf);
    CollectOne(s[1], IdentifiersOf);
    CollectOne(s[2], IdentifiersOf);
  }

  lemma {:induction false} LimitPiece(first: nat)
    ensures Placeholders([Text(" LIMIT "), Param(first), Text(" OFFSET "), Param(first + 1), Text(";")]) == [first, first + 1]
    ensures Identifiers([Text(" LIMIT "), Param(first), Text(" OFFSET "), Param(first + 1), Text(";")]) == []
  {
    var s := [Text(" LIMIT "), Param(first), Text(" OFFSET "), Param(first + 1), Text(";")];
    var x := [s[0], s[1]];
    var y := [s[2], s[3], s[4]];
    assert s == x + y;
    CollectAppend(x, y, PlaceholdersOf);
    CollectAppend(x, y, IdentifiersOf);
    assert x == [s[0]] + [s[1]];
    CollectAppend([s[0]], [s[1]], PlaceholdersOf);
    CollectAppend([s[0]], [s[1]], IdentifiersOf);
    assert y == [s[2]] + ([s[3]] + [s[4]]);
    CollectAppend([s[2]], [s[3]] + [s[4]], PlaceholdersOf);
    CollectAppend([s[2]], [s[3]] + [s[4]], IdentifiersOf);
    CollectAppend([s[3]], [s[4]], PlaceholdersOf);
    CollectAppend([s[3]], [s[4]], IdentifiersOf);
    CollectOne(s[0], PlaceholdersOf);
    CollectOne(s[1], PlaceholdersOf);
    CollectOne(s[2], PlaceholdersOf);
    CollectOne(s[3], PlaceholdersOf);
    CollectOne(s[4], PlaceholdersOf);
    CollectOne(s[0], IdentifiersOf);
    CollectOne(s[1], IdentifiersOf);
    CollectOne(s[2], IdentifiersOf);
    CollectOne(s[3], IdentifiersOf);
    CollectOne(s[4], IdentifiersOf);
  }

  /** The COUNT statement filters by category exactly when the listing does,
      binding the same category value at $1. */
  lemma {:induction false} CountMatchesListFilter(o: ListOptions)
    ensures WellNumbered(CountQuery(o))
    ensures |CountQuery(o).args| == (if Filtered(o) then 1 else 0)
    ensures CountQuery(o).args == ListQuery(o).args[..|CountQuery(o).args|]
    ensures Placeholders(CountQuery(o).text) == if Filtered(o) then [1] else []
  {
    var c, args := CountQuery(o), ListQuery(o).args;
    if Filtered(o) {
      var t := CountInCategoryText();
      assert c.text == t && c.args == [QueryValue(o.categoryId)];
      assert t == [t[0], t[1]] + [t[2]];
      CollectAppend([t[0], t[1]], [t[2]], PlaceholdersOf);
      assert [t[0], t[1]] == [t[0]] + [t[1]];
      CollectAppend([t[0]], [t[1]], PlaceholdersOf);
      CollectOne(t[0], PlaceholdersOf);
      CollectOne(t[1], PlaceholdersOf);
      CollectOne(t[2], PlaceholdersOf);
      assert Placeholders(c.text) == [1];
      assert args[0] == QueryValue(o.categoryId);
      assert c.args == args[..1];
    } else {
      assert c.text == CountAllText() && c.args == [];
      CollectOne(Text("SELECT COUNT(*) FROM Products"), PlaceholdersOf);
      assert Placeholders(c.text) == [];
    }
  }

  /** Joins the WHERE conditions with AND. */
  function JoinConditions(conditions: seq<seq<Fragment>>): seq<Fragment> {
    if conditions == [] then []
    else if |conditions| == 1 then conditions[0]
    else conditions[0] + [Text(" AND ")] + JoinConditions(conditions[1..])
  }

  /** Builds the listing and COUNT statements step by step, as `findAll` does:
      the text grows by appending, the values by pushing, and a counter hands
      out the placeholder numbers. */
  method BuildListQueries(o: ListOptions) returns (list: Query, count: Query)
    ensures list == ListQuery(o)
    ensures count == CountQuery(o)
  {
    var text := [Text(ListSelect)];
    var conditions: seq<seq<Fragment>> := [];
    var values: seq<Value> := [];
    var paramCount := 1;

    if Truthy(QueryValue(o.categoryId)) {
      conditions := conditions + [[Text("p.category_id = "), Param(paramCount)]];
      paramCount := paramCount + 1;
      values := values + [QueryValue(o.categoryId)];
    }

    ghost var filtered := Filtered(o);
    assert paramCount == if filtered then 2 else 1;
    if |conditions| > 0 {
      assert JoinConditions(conditions) == conditions[0];
      text := text + [Text(" WHERE ")] + JoinConditions(conditions);
    }
    assert text == [Text(ListSelect)] + WhereText(filtered);

    var safeSortBy := SafeSortBy(o.sortBy);
    var safeSortOrder := SafeSortOrder(o.sortOrder);
    text := text + [Text(" ORDER BY p."), Ident(safeSortBy), Text(" " + safeSortOrder)];
    ghost var ordered := text;
    assert ordered == [Text(ListSelect)] + WhereText(filtered) + OrderByText(safeSortBy, safeSortOrder);

    var page := if o.page.Some? then o.page.value else 1;
    var limit := if o.limit.Some? then o.limit.value else 10;
    var offset := (page - 1) * limit;
    ghost var first := paramCount;
    text := text + [Text(" LIMIT "), Param(paramCount)];
    paramCount := paramCount + 1;
    text := text + [Text(" OFFSET "), Param(paramCount), Text(";")];
    paramCount := paramCount + 1;
    assert text == ordered + PageText(first);
    values := values + [Num(limit as real), Num(offset as real)];
    list := Query(text, values);

    var countText := [Text("SELECT COUNT(*) FROM Products")];
    if Truthy(QueryValue(o.categoryId)) {
      countText := countText + [Text(" WHERE category_id = "), Param(1)];
      count := Query(countText, [QueryValue(o.categoryId)]);
    } else {
      count := Query(countText, []);
    }
  }

  /** What `findAll` settles to: the page of rows and the parsed count
      (None when the count does not parse, i.e. NaN). */
  datatype Listing = Listing(products: seq<Row>, total: Option<int>)

  /** `findAll`: the listing statement, then, only if it succeeded, the COUNT
      statement; the total is `parseInt(rows[0].count, 10)`. Errors are
      rethrown as they are. */
  function FindAll(db: Database, o: ListOptions): (r: Run<Listing>)
    ensures db(ListQuery(o)).Failed? ==> r == Run(Threw(db(ListQuery(o)).error), [ListQuery(o)])
    ensures db(ListQuery(o)).Rows? ==> r.issued == [ListQuery(o), CountQuery(o)]
    ensures db(ListQuery(o)).Rows? && db(CountQuery(o)).Failed? ==> r.outcome == Threw(db(CountQuery(o)).error)
    ensures r.outcome.Returned? <==> db(ListQuery(o)).Rows? && db(CountQuery(o)).Rows? && db(CountQuery(o)).rows != []
    ensures r.outcome.Returned? ==>
      r.outcome.value.products == db(ListQuery(o)).rows &&
      r.outcome.value.total == ParseInt(Get(db(CountQuery(o)).rows[0], "count"), Decimal)
  {
    var list, count := ListQuery(o), CountQuery(o);
    match db(list)
    case Failed(e) => Run(Threw(e), [list])
    case Rows(products) =>
      match db(count)
      case Failed(e) => Run(Threw(e), [list, count])
      case Rows(rows) =>
        if rows == [] then Run(Threw(NewError(NoCountRow)), [list, count])
        else Run(Returned(Listing(products, ParseInt(Get(rows[0], "count"), Decimal))), [list, count])
  }

  // ---------------------------------------------------------------------------
  // findById

  function ByIdText(): seq<Fragment> {
    [Text(ListSelect + " WHERE p.id = "), Param(1), Text(";")]
  }

  function ByIdQuery(id: Value): (q: Query)
    ensures WellNumbered(q) && q.args == [id]
  {
    Query(ByIdText(), [id])
  }

  function FindById(db: Database, id: Value): (r: Run<Option<Row>>)
    ensures r.issued == [ByIdQuery(id)]
    ensures r.outcome == Returned(None) <==> db(ByIdQuery(id)) == Rows([])
    ensures db(ByIdQuery(id)).Rows? && db(ByIdQuery(id)).rows != [] ==>
      r.outcome == Returned(Some(db(ByIdQuery(id)).rows[0]))
    ensures db(ByIdQuery(id)).Failed? ==> r.outcome == Threw(db(ByIdQuery(id)).error)
  {
    FirstRow(db, ByIdQuery(id))
  }

  // ---------------------------------------------------------------------------
  // update

  /** `UPDATE Products SET k1 = $1, ..., kn = $n, updated_at = CURRENT_TIMESTAMP
      WHERE id = $n+1`, for the entries left after dropping undefined values. */
  function UpdateQuery(id: Value, kept: seq<Entry>): (q: Query)
    requires |kept| > 0
    ensures |q.args| == |kept| + 1 && q.args[|kept|] == id
    ensures forall i :: 0 <= i < |kept| ==> q.args[i] == kept[i].1
    ensures WellNumbered(q)
    ensures |Assignments(q.text)| == |kept|
    ensures forall i :: 0 <= i < |kept| ==> Assignments(q.text)[i] == (kept[i].0, i + 1)
    ensures Placeholders(q.text)[|kept|] == |kept| + 1
    ensures Text(", updated_at = CURRENT_TIMESTAMP WHERE id = ") in q.text
  {
    var n := |kept|;
    var head := [Text("UPDATE Products SET ")] + SetClauses(kept, 1);
    var tail := [Text(", updated_at = CURRENT_TIMESTAMP WHERE id = "), Param(n + 1), Text(" RETURNING *;")];
    UpdateTextNumbering(kept, head, tail);
    SetClausesNumbering(kept, 1);
    Query(head + tail, Values(kept) + [id])
  }

  lemma {:induction false} UpdateTextNumbering(kept: seq<Entry>, head: seq<Fragment>, tail: seq<Fragment>)
    requires head == [Text("UPDATE Products SET ")] + SetClauses(kept, 1)
    requires tail == [Text(", updated_at = CURRENT_TIMESTAMP WHERE id = "), Param(|kept| + 1), Text(" RETURNING *;")]
    ensures |Placeholders(head + tail)| == |kept| + 1 && Consecutive(Placeholders(head + tail), 1)
    ensures Assignments(head + tail) == Assignments(SetClauses(kept, 1))
  {
    SetClausesNumbering(kept, 1);
    var lead := Text("UPDATE Products SET ");
    CollectOne(lead, PlaceholdersOf);
    CollectOne(lead, AssignmentsOf);
    CollectAppend([lead], SetClauses(kept, 1), PlaceholdersOf);
    CollectAppend([lead], SetClauses(kept, 1), AssignmentsOf);
    CollectAppend(head, tail, PlaceholdersOf);
    CollectAppend(head, tail, AssignmentsOf);
    var t := tail;
    assert t == [t[0]] + [t[1]] + [t[2]];
    CollectAppend([t[0]], [t[1]], PlaceholdersOf);
    CollectAppend([t[0]], [t[1]], AssignmentsOf);
    CollectAppend([t[0]] + [t[1]], [t[2]], PlaceholdersOf);
    CollectAppend([t[0]] + [t[1]], [t[2]], AssignmentsOf);
    CollectOne(t[0], PlaceholdersOf);
    CollectOne(t[1], PlaceholdersOf);
    CollectOne(t[2], PlaceholdersOf);
    CollectOne(t[0], AssignmentsOf);
    CollectOne(t[1], AssignmentsOf);
    CollectOne(t[2], AssignmentsOf);
  }

  /** The error translation in `update`: only a violation of the category
      foreign key becomes "Invalid category_id". */
  function UpdateError(e: Error): (t: Error)
    ensures t == NewError(InvalidCategory) <==>
      (HasCode(e, ForeignKeyViolation) && e.constraint == Some(CategoryForeignKey)) || e == NewError(InvalidCategory)
    ensures t != NewError(InvalidCategory) ==> t == e
  {
    if HasCode(e, ForeignKeyViolation) && e.constraint == Some(CategoryForeignKey) then NewError(InvalidCategory) else e
  }

  /** `update`: with no defined field it is a plain `findById` and sends no
      UPDATE; otherwise it sends the UPDATE, settles to undefined when no row
      matched, and re-reads the updated row by its id. The re-read's promise
      is returned without being awaited inside the try block, so an error it
      settles to bypasses the translation. */
  function Update(db: Database, id: Value, fields: seq<Entry>): (r: Run<Option<Row>>)
    ensures Defined(fields) == [] ==> r == FindById(db, id)
    ensures Defined(fields) != [] ==>
      var q := UpdateQuery(id, Defined(fields));
      && r.issued != [] && r.issued[0] == q
      && (db(q) == Rows([]) ==> r == Run(Returned(None), [q]))
      && (db(q).Failed? ==> r == Run(Threw(UpdateError(db(q).error)), [q]))
      && (db(q).Rows? && db(q).rows != [] ==>
            var reread := FindById(db, Get(db(q).rows[0], "id"));
            r == Run(reread.outcome, [q, ByIdQuery(Get(db(q).rows[0], "id"))]))
  {
    var kept := Defined(fields);
    if kept == [] then FindById(db, id)
    else
      var q := UpdateQuery(id, kept);
      match db(q)
      case Failed(e) => Run(Threw(UpdateError(e)), [q])
      case Rows(rows) =>
        if rows == [] then Run(Returned(None), [q])
        else
          var reread := FindById(db, Get(rows[0], "id"));
          Run(reread.outcome, [q] + reread.issued)
  }

  // ---------------------------------------------------------------------------
  // delete

  function ProbeText(): seq<Fragment> {
    [Text("SELECT 1 FROM Order_Items WHERE product_id = "), Param(1), Text(" LIMIT 1;")]
  }

  function DeleteText(): seq<Fragment> {
    [Text("DELETE FROM Products WHERE id = "), Param(1), Text(" RETURNING *;")]
  }

  /** The Order_Items pre-check. */
  function ProbeQuery(id: Value): (q: Query)
    ensures WellNumbered(q) && q.args == [id]
  {
    Query(ProbeText(), [id])
  }

  function DeleteQuery(id: Value): (q: Query)
    ensures WellNumbered(q) && q.args == [id]
  {
    Query(DeleteText(), [id])
  }

  /** The error translation in `delete`: any foreign-key violation becomes
      "due to existing references"; the pre-check's own error has no code
      and passes through. */
  function DeleteError(e: Error): Error {
    if HasCode(e, ForeignKeyViolation) then NewError(StillReferenced) else e
  }

  /** `delete`: the DELETE is sent only when the Order_Items probe found no
      row; a hit is reported as "part of existing orders". */
  function Delete(db: Database, id: Value): (r: Run<Option<Row>>)
    ensures |r.issued| >= 1 && r.issued[0] == ProbeQuery(id)
    ensures DeleteQuery(id) in r.issued <==> db(ProbeQuery(id)) == Rows([])
    ensures db(ProbeQuery(id)).Rows? && db(ProbeQuery(id)).rows != [] ==>
      r == Run(Threw(NewError(InOrders)), [ProbeQuery(id)])
    ensures db(ProbeQuery(id)).Failed? ==>
      r == Run(Threw(DeleteError(db(ProbeQuery(id)).error)), [ProbeQuery(id)])
    ensures db(ProbeQuery(id)) == Rows([]) ==>
      var del := db(DeleteQuery(id));
      && r.issued == [ProbeQuery(id), DeleteQuery(id)]
      && (del.Rows? ==> r.outcome == Returned(First(del.rows)))
      && (del.Failed? && HasCode(del.error, ForeignKeyViolation) ==> r.outcome == Threw(NewError(StillReferenced)))
      && (del.Failed? && !HasCode(del.error, ForeignKeyViolation) ==> r.outcome == Threw(del.error))
  {
    var probe := ProbeQuery(id);
    assert ProbeText() != DeleteText();
    match db(probe)
    case Failed(e) => Run(Threw(DeleteError(e)), [probe])
    case Rows(hits) =>
      if hits != [] then Run(Threw(DeleteError(NewError(InOrders))), [probe])
      else
        var del := DeleteQuery(id);
        match db(del)
        case Failed(e) => Run(Threw(DeleteError(e)), [probe, del])
        case Rows(rows) => Run(Returned(First(rows)), [probe, del])
  }
}
