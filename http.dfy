/** The responses the handlers send: a status code and a JSON body. */
module Http {
  import opened Js
  import opened Sql

  /** The pagination block of a product listing. `None` stands for NaN,
      which JSON.stringify writes as null. */
  datatype Pagination = Pagination(totalItems: Option<int>, totalPages: Option<int>, currentPage: int, pageSize: int)

  datatype Body =
    | Message(message: string)                        // { message }
    | Failure(message: string, error: string)         // { message, error }
    | Record(row: Option<Row>)                        // the record itself; None sends no body
    | Records(rows: seq<Row>)                         // an array of records
    | Listing(data: seq<Row>, pagination: Pagination) // { data, pagination }
    | Removed(message: string, key: string, removed: Row) // { message, <key>: removed }

  datatype Response = Response(status: nat, body: Body)

  /** What a handler did: the response it sent and the statements its model
      call sent to the database, in order. */
  datatype Handled = Handled(response: Response, issued: seq<Query>)

  const Ok := 200
  const Created := 201
  const BadRequest := 400
  const NotFound := 404
  const Conflict := 409
  const ServerError := 500

  /** A handler that answered before calling the model. */
  function Reject(status: nat, message: string): Handled {
    Handled(Response(status, Message(message)), [])
  }
}
