/** `GET /products` and `POST /products`, src/app/api/products/route.ts. */
module Products {
  import opened Base
  import opened Store
  import opened Sorting

  /** The product `where` clause: everything, or one company's products. */
  datatype Scope = Everything | OfCompany(companyId: Id)

  predicate InScope(sc: Scope, p: Product) {
    sc.Everything? || sc.companyId == p.companyId
  }

  /** A salesman sees its own company's products whatever it asks for; any
      other principal sees the company it asks for, or everything. A salesman
      without a company yields a null filter on the required company column,
      which the database client refuses: None. */
  function ProductScope(pr: Principal, companyParam: Option<string>): (sc: Option<Scope>)
    ensures sc.None? <==> IsSalesman(pr) && pr.companyId.None?
    ensures IsSalesman(pr) && sc.Some? ==> forall p :: InScope(sc.value, p) <==> pr.companyId == Some(p.companyId)
    ensures !IsSalesman(pr) && Truthy(companyParam) ==> forall p :: InScope(sc.value, p) <==> p.companyId == companyParam.value
    ensures !IsSalesman(pr) && !Truthy(companyParam) ==> forall p :: InScope(sc.value, p)
  {
    if IsSalesman(pr) then
      if pr.companyId.Some? then Some(OfCompany(pr.companyId.value)) else None
    else if Truthy(companyParam) then Some(OfCompany(companyParam.value))
    else Some(Everything)
  }

  /** The `companyId` parameter never widens or narrows what a salesman sees. */
  lemma SalesmanScopeIgnoresParameter(pr: Principal, a: Option<string>, b: Option<string>)
    requires IsSalesman(pr)
    ensures ProductScope(pr, a) == ProductScope(pr, b)
  {
  }

  /** `GET /products`: refused without a session; a salesman without a
      company makes the query throw, which the handler does not catch;
      otherwise the products in scope, each once when every product is
      stored under its own id. */
  method ListProducts(s: Store, session: Option<Principal>, companyParam: Option<string>) returns (r: Reply<seq<Product>>)
    ensures session.None? ==> r == Fail(NotAuthenticated, Unauthorized)
    ensures session.Some? && IsSalesman(session.value) && session.value.companyId.None? ==> r == Crash
    ensures session.Some? && !(IsSalesman(session.value) && session.value.companyId.None?) ==>
      && r.Ok?
      && (forall p :: p in r.value <==> p in s.products.Values && InScope(ProductScope(session.value, companyParam).value, p))
      && (KeysMatch(s) ==> Distinct(r.value))
  {
    if session.None? {
      return Fail(NotAuthenticated, Unauthorized);
    }
    var sc := ProductScope(session.value, companyParam);
    if sc.None? {
      return Crash;
    }
    var rows := RowsWhere(s.products, (p: Product) => InScope(sc.value, p));
    r := Ok(rows);
  }

  /** The body of `POST /products`; an absent field was not sent. */
  datatype NewProduct = NewProduct(name: Option<string>, price: int, companyId: Option<Id>)

  /** `POST /products`: distributors only; the fields are stored as sent and
      nothing else is checked, so a missing field or an unknown company makes
      the create throw, which the handler does not catch. */
  function CreateProduct(s: Store, session: Option<Principal>, input: NewProduct, newId: Id): (r: (Reply<Product>, Store))
    ensures session.None? || !IsDistributor(session.value) ==> r == (Fail(Forbidden, Unauthorized), s)
    ensures !r.0.Ok? ==> r.1 == s
    ensures session.Some? && IsDistributor(session.value) ==>
      (r.0.Ok? <==> input.name.Some? && input.companyId.Some?
                    && ProductInsertable(s, Product(newId, input.name.value, input.price, input.companyId.value, None)))
      && (!r.0.Ok? ==> r.0 == Crash)
    ensures r.0.Ok? ==> r.0.value == Product(newId, input.name.value, input.price, input.companyId.value, None)
                        && r.1 == s.(products := s.products[newId := r.0.value])
  {
    if session.None? || !IsDistributor(session.value) then (Fail(Forbidden, Unauthorized), s)
    else if input.name.None? || input.companyId.None? then (Crash, s)
    else
      var p := Product(newId, input.name.value, input.price, input.companyId.value, None);
      match AddProduct(s, p)
      case None => (Crash, s)
      case Some(s') => (Ok(p), s')
  }

  lemma CreateProductKeepsValid(s: Store, session: Option<Principal>, input: NewProduct, newId: Id)
    requires Valid(s)
    ensures Valid(CreateProduct(s, session, input, newId).1)
  {
    var r := CreateProduct(s, session, input, newId);
    if r.0.Ok? {
      AddingProductKeepsValid(s, r.0.value);
    }
  }
}
