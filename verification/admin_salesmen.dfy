/** `POST /admin/create-salesman` (src/app/api/admin/create-salesman/route.ts)
    and `GET /admin/salesmen` (src/app/api/admin/salesmen/route.ts). Password
    hashing is the `hash` parameter (bcrypt's `hash`). */
module Salesmen {
  import opened Base
  import opened Store
  import opened Sorting

  /** The body of `POST /admin/create-salesman`. */
  datatype NewSalesman = NewSalesman(name: string, email: string, password: string, companyId: Option<Id>)

  /** `POST /admin/create-salesman`: distributors only; a company is
      required, so a global salesman is never created here; the stored
      password is the hash; the reply is the user without its password; a
      refused create (such as a taken email) is answered with 500. */
  function CreateSalesman(s: Store, session: Option<Principal>, input: NewSalesman,
                          hash: string -> string, newId: Id): (r: (Reply<Profile>, Store))
    ensures session.None? || !IsDistributor(session.value) ==> r == (Fail(Forbidden, Unauthorized), s)
    ensures session.Some? && IsDistributor(session.value) && !Truthy(input.companyId)
            ==> r == (Fail(BadRequest, MissingFields), s)
    ensures !r.0.Ok? ==> r.1 == s
    ensures r.0.Ok? ==>
      var u := User(newId, input.name, input.email, hash(input.password), Salesman, input.companyId);
      && Truthy(input.companyId)
      && r.1 == s.(users := s.users[newId := u])
      && r.0.value == ProfileOf(u)
    ensures session.Some? && IsDistributor(session.value) && Truthy(input.companyId) ==>
      (r.0.Ok? <==> newId !in s.users && !EmailTaken(s.users, input.email) && input.companyId.value in s.companies)
      && (!r.0.Ok? ==> r.0 == Fail(ServerError, CreateFailed))
  {
    if session.None? || !IsDistributor(session.value) then (Fail(Forbidden, Unauthorized), s)
    else if !Truthy(input.companyId) then (Fail(BadRequest, MissingFields), s)
    else
      var u := User(newId, input.name, input.email, hash(input.password), Salesman, input.companyId);
      match AddUser(s, u)
      case None => (Fail(ServerError, CreateFailed), s)
      case Some(s') => (Ok(ProfileOf(u)), s')
  }

  /** The new user is a company-bound salesman holding the hashed password,
      and the reply carries every stored field except that hash. */
  lemma CreatedSalesmanShape(s: Store, session: Option<Principal>, input: NewSalesman, hash: string -> string, newId: Id)
    requires CreateSalesman(s, session, input, hash, newId).0.Ok?
    ensures var (reply, s') := CreateSalesman(s, session, input, hash, newId);
            var u := s'.users[newId];
            && newId in s'.users
            && u.role == Salesman && u.companyId.Some? && u.companyId == input.companyId
            && u.passwordHash == hash(input.password)
            && reply.value.id == u.id && reply.value.name == u.name && reply.value.email == u.email
            && reply.value.role == u.role && reply.value.companyId == u.companyId
  {
  }

  lemma CreateSalesmanKeepsValid(s: Store, session: Option<Principal>, input: NewSalesman, hash: string -> string, newId: Id)
    requires Valid(s)
    ensures Valid(CreateSalesman(s, session, input, hash, newId).1)
  {
    var r := CreateSalesman(s, session, input, hash, newId);
    if r.0.Ok? {
      OrdersSurvive(s, r.1);
    }
  }

  /** `GET /admin/salesmen`: distributors only; exactly the users whose role
      is SALESMAN, by name ascending; a failing read is answered with 500. */
  method ListSalesmen(s: Store, session: Option<Principal>, reachable: bool) returns (r: Reply<seq<User>>)
    ensures session.None? || !IsDistributor(session.value) ==> r == Fail(Forbidden, Unauthorized)
    ensures session.Some? && IsDistributor(session.value) && !reachable ==> r == Fail(ServerError, FetchFailed)
    ensures session.Some? && IsDistributor(session.value) && reachable ==>
      && r.Ok? && AscendingBy(r.value, (u: User) => u.name)
      && (forall u :: u in r.value <==> u in s.users.Values && u.role == Salesman)
      && (KeysMatch(s) ==> Distinct(r.value))
  {
    if session.None? || !IsDistributor(session.value) {
      return Fail(Forbidden, Unauthorized);
    }
    if !reachable {
      return Fail(ServerError, FetchFailed);
    }
    var rows := RowsWhere(s.users, (u: User) => u.role == Salesman);
    var sorted := SortAscending(rows, (u: User) => u.name);
    assert forall u :: u in sorted <==> u in rows by {
      forall u ensures u in sorted <==> u in rows {
        assert u in sorted <==> u in multiset(sorted);
      }
    }
    if KeysMatch(s) {
      PermutationKeepsDistinct(sorted, rows);
    }
    r := Ok(sorted);
  }
}
