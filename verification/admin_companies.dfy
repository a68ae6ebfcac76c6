/** `GET /admin/companies` and `POST /admin/companies`,
    src/app/api/admin/companies/route.ts. */
module Companies {
  import opened Base
  import opened Store
  import opened Sorting

  /** `GET /admin/companies`: distributors and salesmen; every company, in store order. */
  method ListCompanies(s: Store, session: Option<Principal>) returns (r: Reply<seq<Company>>)
    ensures session.None? || !(IsDistributor(session.value) || IsSalesman(session.value))
            ==> r == Fail(Forbidden, Unauthorized)
    ensures session.Some? && (IsDistributor(session.value) || IsSalesman(session.value)) ==>
      && r.Ok? && |r.value| == |s.companies|
      && (forall c :: c in r.value <==> c in s.companies.Values)
      && (KeysMatch(s) ==> Distinct(r.value))
  {
    if session.None? || !(IsDistributor(session.value) || IsSalesman(session.value)) {
      return Fail(Forbidden, Unauthorized);
    }
    var rows := ValuesOf(s.companies);
    r := Ok(rows);
  }

  /** `POST /admin/companies`: distributors only; a name is required; a
      duplicate name (or any refused create) is answered with 500. */
  function CreateCompany(s: Store, session: Option<Principal>, name: Option<string>, newId: Id): (r: (Reply<Company>, Store))
    ensures session.None? || !IsDistributor(session.value) ==> r == (Fail(Forbidden, Unauthorized), s)
    ensures session.Some? && IsDistributor(session.value) && !Truthy(name) ==> r == (Fail(BadRequest, MissingFields), s)
    ensures !r.0.Ok? ==> r.1 == s
    ensures r.0.Ok? ==> r.0.value == Company(newId, name.value)
                        && r.1 == s.(companies := s.companies[newId := r.0.value])
    ensures session.Some? && IsDistributor(session.value) && Truthy(name) ==>
      (r.0.Ok? <==> newId !in s.companies && !CompanyNameTaken(s.companies, name.value))
      && (!r.0.Ok? ==> r.0 == Fail(ServerError, CreateFailed))
  {
    if session.None? || !IsDistributor(session.value) then (Fail(Forbidden, Unauthorized), s)
    else if !Truthy(name) then (Fail(BadRequest, MissingFields), s)
    else
      var c := Company(newId, name.value);
      match AddCompany(s, c)
      case None => (Fail(ServerError, CreateFailed), s)
      case Some(s') => (Ok(c), s')
  }

  lemma CreateCompanyKeepsValid(s: Store, session: Option<Principal>, name: Option<string>, newId: Id)
    requires Valid(s)
    ensures Valid(CreateCompany(s, session, name, newId).1)
  {
    var r := CreateCompany(s, session, name, newId);
    if r.0.Ok? {
      OrdersSurvive(s, r.1);
    }
  }
}
