# E-commerce store backend: record stores and request handlers

This project models the server-side core of a small Express and PostgreSQL
online store: the Products, Categories and Users record stores (the "models")
and the product and category request handlers (the "controllers"). It also
proves properties of that model.

The database is an oracle, `Sql.Database = Query -> DbResult`. Each statement
either yields rows or fails with an error that carries a SQLSTATE code and a
constraint name. Every model operation returns a `Run`: the value it settles
to or the error it throws, plus the statements it sent, in order. Every
handler returns a `Handled`: the status and body it answers with, plus the
statements sent on its behalf. So "validation failures never reach the store"
is stated as `issued == []`.

A statement is a sequence of fragments plus its bound values. The fragments
are literal SQL `Text`, a spliced identifier `Ident`, a placeholder `Param(i)`
(`$i`), a SET clause `Assign(column, i)`, and a `ColumnList` of result
columns. This lets the contracts speak about:

- placeholder numbering (`WellNumbered`: `$1 .. $n` in order, with n bound values);
- which identifiers are spliced into the text;
- which columns an UPDATE assigns;
- which columns a statement returns.

JavaScript semantics the handlers rely on are written out in module `Js`:

- truthiness;
- `parseInt` with and without radix 10, and `parseFloat`;
- `toLowerCase` and `toUpperCase`;
- `String.prototype.includes`.

Files:

- `js.dfy`: JavaScript values and built-ins.
- `sql.dfy`: statements, the database oracle, placeholder bookkeeping, and the sparse SET-clause builder.
- `http.dfy`: responses.
- `category_model.dfy`, `category_controller.dfy`, `product_model.dfy`, `product_controller.dfy`, `user_model.dfy`: one module per source file.

Imperative code keeps its form:

- `findAll` builds its statement by appending to a string, pushing onto arrays and bumping a counter. `ProductModel.BuildListQueries` does the same and is proved to produce `ProductModel.ListQuery`/`CountQuery`. The listing lemmas are proved about those functions.
- `updateProfile` fills its update object one `if` at a time. `UserModel.CollectProfileFields` does the same and is proved to produce `Defined(ProfileEntries(p))`.

Two behaviours of the code are kept as written:

- Category `update` sets no `updated_at`; the statement that does is built and then ignored.
- Product `update` returns the re-read promise without awaiting it. So an error from that re-read escapes the foreign-key translation (`ProductModel.Update`).

## Model

| member | source | states |
|---|---|---|
| Js.ParseIntReadsIntText | ecommerce-project/backend/controllers/productController.js:36-37 | `parseInt`, with radix 10 or detected, reads back every integer from its decimal text, whatever follows that is no decimal digit (with the radix detected and the integer 0, also no `x` that would make that 0 a hexadecimal prefix) |
| Js.ParseFloatReadsIntText | ecommerce-project/backend/controllers/productController.js:13 | `parseFloat` reads back every integer from its decimal text |
| Js.ParseFloatSign | ecommerce-project/backend/controllers/productController.js:13 | a text without a leading minus sign never parses to a negative number |
| Js.IncludesIffOccurs | ecommerce-project/backend/controllers/productController.js:23 | `includes` holds exactly when the substring occurs at some index (both directions) |
| Js.LowerPreservesWordChars | ecommerce-project/backend/models/productModel.js:41 | a string whose lower-case form consists of word characters consists of word characters itself |
| Js.TrimStart | ecommerce-project/backend/controllers/productController.js:13 | the leading white space the number parsers skip: the result is a suffix, every dropped character is white space, and the result does not start with white space |
| Sql.FirstRow | ecommerce-project/backend/models/categoryModel.js:31-40 | one statement; settles to undefined exactly when it yields no row, to `rows[0]` otherwise, and rethrows the store's error unchanged |
| Sql.PlaceholderDigitsReadBack | ecommerce-project/backend/models/productModel.js:47 | the digits written after `$` read back as the placeholder's index |
| Sql.ParamListNumbering | ecommerce-project/backend/models/productModel.js:5-9 | a `VALUES ($first, ...)` list uses exactly n consecutive placeholders and names no column |
| Sql.Defined | ecommerce-project/backend/models/productModel.js:86 | filtering out undefined values never lengthens the entry list |
| Sql.DefinedMembers | ecommerce-project/backend/models/productModel.js:86 | the kept entries are exactly those whose value is not undefined |
| Sql.DefinedAppend | ecommerce-project/backend/models/productModel.js:86 | the filter distributes over concatenation, so kept entries keep their original order |
| Sql.DefinedSnoc | ecommerce-project/backend/models/userModel.js:73-77 | adding one more field to the filtered prefix is filtering one entry longer |
| Sql.DefinedKeepsDistinctKeys | ecommerce-project/backend/models/productModel.js:86-91 | when the keys are distinct, the kept keys are distinct: no column is assigned twice |
| Sql.SetClausesNumbering | ecommerce-project/backend/models/productModel.js:91 | clause i of the SET list is `key_i = $(first+i)`; the clauses use exactly n consecutive placeholders and splice no identifier or result column |
| CategoryModel.InsertQuery | ecommerce-project/backend/models/categoryModel.js:4-10 | binds exactly `[name, description]` at `$1, $2` |
| CategoryModel.AllQuery | ecommerce-project/backend/models/categoryModel.js:21 | no bound value; the only spliced identifier is `name`, and the text sent is exactly `SELECT * FROM Categories ORDER BY name ASC;` |
| CategoryModel.ByIdQuery | ecommerce-project/backend/models/categoryModel.js:32 | binds the id at `$1` |
| CategoryModel.UpdateQuery | ecommerce-project/backend/models/categoryModel.js:53-59 | sets `name = $1`, `description = $2` and nothing else (no updated_at), with the id at `$3` and values `[name, description, id]` |
| CategoryModel.DeleteQuery | ecommerce-project/backend/models/categoryModel.js:70 | binds the id at `$1` |
| CategoryModel.Create | ecommerce-project/backend/models/categoryModel.js:4-18 | one INSERT; settles to `rows[0]` (undefined when no row comes back); errors, a duplicate name included, are rethrown untranslated |
| CategoryModel.FindAll | ecommerce-project/backend/models/categoryModel.js:20-29 | one SELECT; settles to all rows or rethrows |
| CategoryModel.FindById | ecommerce-project/backend/models/categoryModel.js:31-40 | one SELECT; undefined exactly when no row matches, `rows[0]` otherwise; errors rethrown unchanged |
| CategoryModel.Update | ecommerce-project/backend/models/categoryModel.js:42-67 | one UPDATE; undefined exactly when no row matches, `rows[0]` otherwise; errors rethrown unchanged |
| CategoryModel.Delete | ecommerce-project/backend/models/categoryModel.js:69-82 | one DELETE; undefined exactly when no row matches; code 23503 becomes the "associated with products" error; every other error is rethrown |
| CategoryController.InUseCarriesMarker | ecommerce-project/backend/controllers/categoryController.js:78 | the store's "in use" error contains the text the handler looks for |
| CategoryController.CreateCategory | ecommerce-project/backend/controllers/categoryController.js:6-17 | nothing is sent exactly when the name is falsy (400 "Category name is required"); 201 exactly when the INSERT succeeds, with the first returned row; 500 exactly when it fails, with "Error creating category" and the store's message |
| CategoryController.GetAllCategories | ecommerce-project/backend/controllers/categoryController.js:22-29 | 200 with every row, or 500 exactly when the SELECT fails, with "Error fetching categories" and the store's message |
| CategoryController.GetCategoryById | ecommerce-project/backend/controllers/categoryController.js:34-44 | 404 exactly when no row matches; 200 with the first row exactly when one does; 500 exactly on error, with "Error fetching category" and the store's message |
| CategoryController.UpdateCategory | ecommerce-project/backend/controllers/categoryController.js:49-63 | nothing is sent exactly when the name is falsy (400 "Category name is required for update"); then 404 exactly when no row matches; 200 with the first returned row; 500 exactly on error, with "Error updating category" and the store's message |
| CategoryController.DeleteCategory | ecommerce-project/backend/controllers/categoryController.js:68-83 | 404 exactly when no row matches; 200 with "Category deleted successfully" and the removed row exactly when a row is removed; 409 exactly when the DELETE fails with code 23503 (answering the store's "in use" message) or with a message carrying the marker (answering that message); every other error answers 500 with "Error deleting category" and the message |
| ProductModel.InsertQuery | ecommerce-project/backend/models/productModel.js:5-10 | binds the six fields at `$1 .. $6` in the order of the column list |
| ProductModel.Create | ecommerce-project/backend/models/productModel.js:4-22 | one INSERT; code 23503 becomes "Invalid category_id. Category does not exist."; every other error is rethrown unchanged |
| ProductModel.SortColumnsAreLowerIdentifiers | ecommerce-project/backend/models/productModel.js:40 | every allow-listed sort column is a lower-case identifier |
| ProductModel.SafeSortBy | ecommerce-project/backend/models/productModel.js:40-41 | the ORDER BY column is `sortBy` in its own casing when its lower-case form is allow-listed, `created_at` otherwise; either way its lower-case form is allow-listed and it holds only identifier characters |
| ProductModel.SafeSortOrder | ecommerce-project/backend/models/productModel.js:42 | the direction is ASC or DESC, and ASC exactly when `sortOrder` spells "asc" in any mix of cases (a missing option gives DESC) |
| ProductModel.OffsetSkipsEarlierPages | ecommerce-project/backend/models/productModel.js:46 | for page ≥ 1 and limit ≥ 1 the offset is non-negative, a multiple of limit, and skips exactly page − 1 pages |
| ProductModel.ListQueryShape | ecommerce-project/backend/models/productModel.js:28-48 | with a category filter the placeholders are `$1, $2, $3` (filter, LIMIT, OFFSET), without it `$1, $2`; the bound values are the category, then limit and offset, as many as placeholders; the only spliced identifier is the allow-listed sort column |
| ProductModel.CountMatchesListFilter | ecommerce-project/backend/models/productModel.js:53-61 | the COUNT statement filters by category exactly when the listing does, binding the same category value at `$1` |
| ProductModel.BuildListQueries | ecommerce-project/backend/models/productModel.js:24-59 | the step-by-step construction yields exactly the listing and COUNT statements above |
| ProductModel.FindAll | ecommerce-project/backend/models/productModel.js:24-66 | the COUNT is sent only after the listing succeeds; it settles exactly when both succeed and the count yields a row, to the listed rows and the count parsed in radix 10; errors are rethrown |
| ProductModel.ByIdQuery | ecommerce-project/backend/models/productModel.js:69-76 | binds the id at `$1` |
| ProductModel.FindById | ecommerce-project/backend/models/productModel.js:68-82 | one SELECT; undefined exactly when no row matches, `rows[0]` otherwise; errors rethrown unchanged |
| ProductModel.UpdateQuery | ecommerce-project/backend/models/productModel.js:91-100 | for n kept fields clause i is `key_i = $(i+1)`, the id is bound at `$(n+1)`, the values are the field values followed by the id, and `updated_at = CURRENT_TIMESTAMP` is appended |
| ProductModel.UpdateError | ecommerce-project/backend/models/productModel.js:110-113 | the "Invalid category_id" error comes only from code 23503 on `products_category_id_fkey`; every other error is unchanged |
| ProductModel.Update | ecommerce-project/backend/models/productModel.js:84-115 | no defined field: exactly a `findById`, no UPDATE; otherwise the UPDATE first, undefined when it returns no row, the translated error when it fails, else the re-read by the returned id |
| ProductModel.ProbeQuery | ecommerce-project/backend/models/productModel.js:120-122 | the Order_Items probe binds the id at `$1` |
| ProductModel.DeleteQuery | ecommerce-project/backend/models/productModel.js:127-128 | binds the id at `$1` |
| ProductModel.Delete | ecommerce-project/backend/models/productModel.js:117-137 | the DELETE is sent exactly when the probe returns no row; a probe hit throws "part of existing orders"; code 23503 becomes "due to existing references"; other errors are rethrown |
| ProductController.StoreErrorsCarryMarkers | ecommerce-project/backend/controllers/productController.js:120-123 | each product-store error contains the text its handler looks for |
| ProductController.PriceOfDecimalText | ecommerce-project/backend/controllers/productController.js:13 | a price sent as the decimal text of an integer passes exactly when the integer is not negative |
| ProductController.StockOfDecimalText | ecommerce-project/backend/controllers/productController.js:16 | the same for the stock quantity |
| ProductController.ValidatesWholeNumber | ecommerce-project/backend/controllers/productController.js:13-18 | the same for a whole number sent as a JSON number |
| ProductController.CreateRejection | ecommerce-project/backend/controllers/productController.js:10-18 | checked in the handler's order: no rejection exactly when name, price and category_id are truthy, the price is a non-negative number, and a truthy stock quantity is a non-negative integer; "required" exactly when one of the three is falsy; the price message exactly when the three are truthy and the price is invalid; the stock message exactly when those pass and a truthy stock quantity is invalid |
| ProductController.UpdateRejection | ecommerce-project/backend/controllers/productController.js:89-94 | price and stock quantity are checked only when truthy: no rejection exactly when each truthy one is valid; the price message exactly when a truthy price is invalid; the stock message exactly when the price passes and a truthy stock quantity is invalid; never the "required" message |
| ProductController.ZeroPriceReportedMissing | ecommerce-project/backend/controllers/productController.js:10-15 | a numeric price 0 passes the non-negativity check yet is rejected as missing, while the text "0" is accepted |
| ProductController.IntendedCreateRejection | ecommerce-project/backend/controllers/productController.js:10-18 | the corrected validation, in the handler's order: no rejection exactly when name and category_id are truthy, the price is present (not undefined, null or empty) and a non-negative number, and a truthy stock quantity is a non-negative integer; "required" exactly when name or category_id is falsy or the price is absent; the price message exactly when those pass and the price is invalid; the stock message exactly when those pass and a truthy stock quantity is invalid |
| ProductController.IntendedAcceptsEveryNonNegativePrice | ecommerce-project/backend/controllers/productController.js:10-15 | with "missing" read as absent, every non-negative numeric price is accepted, and the decision differs from the written one only for a numeric 0 or `false` price |
| ProductController.CreateProduct | ecommerce-project/backend/controllers/productController.js:6-28 | with the price presence check corrected (see Findings): nothing is sent exactly when validation rejects (400 with its message); 201 exactly when the INSERT succeeds, with the first returned row; a 23503 answers 400 with the store's message, as does any other error whose message carries "Invalid category_id"; every other error answers 500 with "Error creating product" and the message |
| ProductController.NumberParam | ecommerce-project/backend/controllers/productController.js:36-37 | an absent or empty parameter gives the default |
| ProductController.NumberParamReadsIntText | ecommerce-project/backend/controllers/productController.js:36-37 | a page or limit sent as the decimal text of an integer reads back as that integer |
| ProductController.CeilDiv | ecommerce-project/backend/controllers/productController.js:57 | `Math.ceil(t / l)`: the least r with t ≤ l·r |
| ProductController.TotalPages | ecommerce-project/backend/controllers/productController.js:57 | NaN stays NaN; otherwise the page count covers the total and one page fewer does not |
| ProductController.GetAllProducts | ecommerce-project/backend/controllers/productController.js:33-65 | nothing is sent exactly when the page (default 1) is NaN or < 1 (400) or the limit (default 10) is NaN or outside 1..100 (400); otherwise the listing is sent; 200 carries the rows with totalItems, totalPages, currentPage and pageSize exactly when the listing returns; a thrown error answers 500 with "Error fetching products" and its message |
| ProductController.GetProductById | ecommerce-project/backend/controllers/productController.js:70-80 | 404 exactly when no row matches; 200 with the row exactly when one does; 500 exactly on error, with "Error fetching product" and the store's message |
| ProductController.UpdateEntriesShape | ecommerce-project/backend/controllers/productController.js:96 | the update object names each product column once |
| ProductController.ProtectedColumnsNotSettable | ecommerce-project/backend/controllers/productController.js:96 | neither `id` nor `updated_at` is among the columns the body can set |
| ProductController.UpdateSetsOnlyBodyColumns | ecommerce-project/backend/controllers/productController.js:96 | the UPDATE sets only product columns, each at most once, only from defined body fields, never `id` or `updated_at` |
| ProductController.UpdateProduct | ecommerce-project/backend/controllers/productController.js:85-107 | nothing is sent exactly when validation rejects (400); with no defined field only the re-read is sent; 404 exactly when the store settles to undefined; 200 with the row it settles to; a category foreign-key violation answers 400 with "Invalid category_id", as does any error whose message carries that text; every other error answers 500 with "Error updating product" |
| ProductController.DeleteProduct | ecommerce-project/backend/controllers/productController.js:112-128 | a probe hit answers 409 with the "existing orders" message and sends no DELETE; 404 when no row is removed; 200 with the removed row; 409 with the error's message exactly when it carries either marker, 23503 on the DELETE included; every other error answers 500 with "Error deleting product" |
| UserModel.PublicColumnsOmitHash | ecommerce-project/backend/models/userModel.js:13 | the public column list does not contain `password_hash` |
| UserModel.InsertQuery | ecommerce-project/backend/models/userModel.js:10-15 | binds `[username, email, hash, full_name, address]` at `$1 .. $5` and returns the public columns |
| UserModel.InsertIgnoresPassword | ecommerce-project/backend/models/userModel.js:7-15 | the INSERT does not depend on the plaintext password; the hash is what is bound at `$3` |
| UserModel.UniqueError | ecommerce-project/backend/models/userModel.js:21-29 | 23505 on `users_username_key` becomes "Username already exists.", on `users_email_key` the given email message; every other error, 23505 on another constraint included, is unchanged |
| UserModel.Create | ecommerce-project/backend/models/userModel.js:5-31 | one INSERT; its failure is translated with "Email already registered." for the email |
| UserModel.ByEmailQuery | ecommerce-project/backend/models/userModel.js:34 | binds the email at `$1` |
| UserModel.ByUsernameQuery | ecommerce-project/backend/models/userModel.js:45 | binds the username at `$1` |
| UserModel.ByIdQuery | ecommerce-project/backend/models/userModel.js:56 | binds the id at `$1` and selects only the public columns |
| UserModel.FindByEmail | ecommerce-project/backend/models/userModel.js:33-42 | one SELECT; undefined exactly when no row matches, `rows[0]` otherwise; errors rethrown unchanged |
| UserModel.FindByUsername | ecommerce-project/backend/models/userModel.js:44-53 | one SELECT; undefined exactly when no row matches, `rows[0]` otherwise; errors rethrown unchanged |
| UserModel.FindById | ecommerce-project/backend/models/userModel.js:55-64 | one SELECT of the public columns; undefined exactly when no row matches, `rows[0]` otherwise; errors rethrown unchanged |
| UserModel.CollectProfileFields | ecommerce-project/backend/models/userModel.js:73-77 | the update object filled one `if` at a time holds exactly the defined fields, in the order full_name, address, email, username |
| UserModel.ProfileFieldsAreProfileColumns | ecommerce-project/backend/models/userModel.js:73-77 | every collected key is a profile column, never `password_hash`, and none occurs twice |
| UserModel.ProfileQuery | ecommerce-project/backend/models/userModel.js:84-93 | for n fields clause i is `key_i = $(i+1)`, the id is bound at `$(n+1)` with n + 1 values, id last, and the public columns are returned |
| UserModel.UpdateProfile | ecommerce-project/backend/models/userModel.js:71-111 | no defined field: exactly a `findById`, no UPDATE; otherwise one UPDATE settling to `rows[0]` (undefined when no row), with failures translated using "Email already registered by another user." |
| UserModel.HashNeverReturned | ecommerce-project/backend/models/userModel.js:10-92 | none of the statements of `create`, `findById` and `updateProfile` returns `password_hash`, and a profile update never assigns it |

## Findings

| source | as written | input that shows it | evidently intended | confidence | as-written member | corrected member |
|---|---|---|---|---|---|---|
| ecommerce-project/backend/controllers/productController.js:10 | `!price` treats a numeric price of 0 as missing | body `{ name: "x", price: 0, category_id: 1 }` answers 400 "Name, price, and category_id are required", while `price: "0"` is accepted | a present price is judged by the non-negativity check of line 13, which accepts 0 | medium, not executed | ProductController.ZeroPriceReportedMissing | ProductController.IntendedAcceptsEveryNonNegativePrice |

`ProductController.CreateRejection` models the validation as written.
`ProductController.CreateProduct` uses the corrected validation, `IntendedCreateRejection`.
The two differ only for a price that is the number 0 or `false`.

## Left out

- Executing SQL: the database is an oracle that is a pure function of the statement. Constraint enforcement, transactions and connection handling are not modelled.
- The race between the Order_Items probe and the DELETE in product `delete`: two separate statements with no atomicity, a concurrency matter.
- bcrypt: `UserModel.Create` takes the password hash as a parameter. A hashing failure (for instance an undefined password, which fails before the INSERT) and `comparePassword` are not modelled.
- JWT signing and verification, the server, the routes, the auth and user handlers, and `console.error` logging are not part of this model.
- `CURRENT_TIMESTAMP` appears only as literal statement text.
- Statement text keeps the SQL words but not the template literals' line breaks and indentation.
- Numbers are exact: reals for JSON numbers, unbounded integers for parsed ones. There is no rounding and no loss of precision above 2^53.
- `Js.ParseFloat`: reads digits, one decimal point and "Infinity", but not exponent notation (`"1e3"` reads as 1).
- `Js.ParseInt` of a JSON number truncates the number. JavaScript goes through its string form, which differs for numbers written in exponent notation (`5e-7` gives 5).
- `ProductModel.SafeSortBy`: case mapping is ASCII only, so its identifier-character guarantee holds for the ASCII mapping. JavaScript's full Unicode mapping lowercases the Kelvin sign (U+212A) to `k`, so `stoc` + U+212A + `_quantity` passes the allow-list and is spliced in its own spelling.
- `ProductModel.SafeSortOrder`: likewise ASCII only. Under full Unicode, `"aſc"` upper-cases to `"ASC"`; the direction is still only ever ASC or DESC.
- Query-string parameters are strings or absent. Repeated or nested parameters (arrays and objects) are not modelled. For those, a non-string `sortBy` would throw on `toLowerCase` and the handler would answer 500.
- Request bodies hold undefined, null, booleans, numbers and strings; arrays and objects are not modelled.
- The unused `query` built in category `update` (categoryModel.js lines 43-48) is not modelled, since it is never sent.
- A JSON body of `undefined` (a handler sending `res.json(undefined)`) is represented as `Record(None)`. A NaN in the pagination block (written as null by JSON) is represented as `None`.
