/** `GET /categories` and `POST /categories`, src/app/api/categories/route.ts. */
module Categories {
  import opened Base
  import opened Store
  import opened Sorting

  /** The company the listing is restricted to: the `companyId` parameter,
      else the principal's own company, else none (no restriction). */
  function CategoryCompany(p: Principal, companyParam: Option<string>): (c: Option<Id>)
    ensures Truthy(companyParam) ==> c == companyParam
    ensures !Truthy(companyParam) && Truthy(p.companyId) ==> c == p.companyId
    ensures !Truthy(companyParam) && !Truthy(p.companyId) ==> c == None
  {
    if Truthy(companyParam) then companyParam
    else if Truthy(p.companyId) then p.companyId
    else None
  }

  predicate Listed(c: Option<Id>, cat: Category) {
    c.Some? ==> cat.companyId == c.value
  }

  /** `GET /categories`: refused without a session; otherwise the categories
      of the chosen company (or all), by name ascending. */
  method ListCategories(s: Store, session: Option<Principal>, companyParam: Option<string>) returns (r: Reply<seq<Category>>)
    ensures session.None? ==> r == Fail(NotAuthenticated, Unauthorized)
    ensures session.Some? ==> r.Ok? && AscendingBy(r.value, (c: Category) => c.name)
    ensures session.Some? ==> forall cat :: cat in r.value <==>
      cat in s.categories.Values && Listed(CategoryCompany(session.value, companyParam), cat)
    ensures session.Some? && KeysMatch(s) ==> Distinct(r.value)
  {
    if session.None? {
      return Fail(NotAuthenticated, Unauthorized);
    }
    var c := CategoryCompany(session.value, companyParam);
    var rows := RowsWhere(s.categories, (cat: Category) => Listed(c, cat));
    var sorted := SortAscending(rows, (cat: Category) => cat.name);
    assert forall cat :: cat in sorted <==> cat in rows by {
      forall cat ensures cat in sorted <==> cat in rows {
        assert cat in sorted <==> cat in multiset(sorted);
      }
    }
    if KeysMatch(s) {
      PermutationKeepsDistinct(sorted, rows);
    }
    r := Ok(sorted);
  }

  /** The body of `POST /categories`. */
  datatype NewCategory = NewCategory(name: Option<string>, companyId: Option<Id>)

  /** `POST /categories`: distributors only; name and company are required;
      a refused create is answered with 500. */
  function CreateCategory(s: Store, session: Option<Principal>, input: NewCategory, newId: Id): (r: (Reply<Category>, Store))
    ensures session.None? || !IsDistributor(session.value) ==> r == (Fail(Forbidden, Unauthorized), s)
    ensures session.Some? && IsDistributor(session.value) && (!Truthy(input.name) || !Truthy(input.companyId))
            ==> r == (Fail(BadRequest, MissingFields), s)
    ensures !r.0.Ok? ==> r.1 == s
    ensures r.0.Ok? ==> r.0.value == Category(newId, input.name.value, input.companyId.value)
                        && r.1 == s.(categories := s.categories[newId := r.0.value])
    ensures session.Some? && IsDistributor(session.value) && Truthy(input.name) && Truthy(input.companyId) ==>
      (r.0.Ok? <==> newId !in s.categories && input.companyId.value in s.companies)
      && (!r.0.Ok? ==> r.0 == Fail(ServerError, CreateFailed))
  {
    if session.None? || !IsDistributor(session.value) then (Fail(Forbidden, Unauthorized), s)
    else if !Truthy(input.name) || !Truthy(input.companyId) then (Fail(BadRequest, MissingFields), s)
    else
      var c := Category(newId, input.name.value, input.companyId.value);
      match AddCategory(s, c)
      case None => (Fail(ServerError, CreateFailed), s)
      case Some(s') => (Ok(c), s')
  }

  lemma CreateCategoryKeepsValid(s: Store, session: Option<Principal>, input: NewCategory, newId: Id)
    requires Valid(s)
    ensures Valid(CreateCategory(s, session, input, newId).1)
  {
    var r := CreateCategory(s, session, input, newId);
    if r.0.Ok? {
      OrdersSurvive(s, r.1);
    }
  }
}
