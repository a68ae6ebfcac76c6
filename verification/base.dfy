/** Shared vocabulary of every route: optional values, the authenticated
    principal a session carries, and the reply a route handler produces. */
module Base {

  /** A value that may be absent (JavaScript `null`/`undefined`). */
  datatype Option<+T> = None | Some(value: T)

  /** Database ids and every other text value are plain strings. */
  type Id = string

  /** JavaScript truthiness of an optional string: present and not empty. */
  predicate Truthy(o: Option<string>) {
    o.Some? && o.value != ""
  }

  /** The two roles a user row can hold. */
  datatype Role = Distributor | Salesman

  /** What the session callback puts into `session.user`: the user's id, its
      role (absent when the token never received one) and its home company
      (absent for a global salesman). */
  datatype Principal = Principal(id: Id, role: Option<Role>, companyId: Option<Id>)

  predicate IsDistributor(p: Principal) { p.role == Some(Distributor) }

  predicate IsSalesman(p: Principal) { p.role == Some(Salesman) }

  /** A spreadsheet row that was recognised as a product but whose company
      was not found; `companyName` is the cell as written, before trimming. */
  datatype SkippedRow = SkippedRow(name: string, companyName: string)

  /** Why a route refused a request. */
  datatype Reason =
    | Unauthorized
    | NoItems
    | CompanyNotSelected
    | ForeignProduct(productName: string)
    | MissingFields
    | FileRequired
    | NoRows
    | NoCompanyColumn
    | NoValidProducts(skipped: seq<SkippedRow>)
    | CreateFailed
    | ProcessFailed
    | FetchFailed

  const BadRequest: int := 400
  const NotAuthenticated: int := 401
  const Forbidden: int := 403
  const ServerError: int := 500

  /** The outcome of a route handler: a JSON body with status 200, an error
      body with the given status, or an exception the handler does not catch
      (the framework then answers on its own). */
  datatype Reply<+T> = Ok(value: T) | Fail(status: int, reason: Reason) | Crash {

    /** The same refusal, as a reply of another type. */
    function PropagateFailure<U>(): Reply<U>
      requires !Ok?
    {
      if Fail? then Fail(status, reason) else Crash
    }
  }
}
