/** `POST /parties` and `GET /parties`, src/app/api/parties/route.ts. */
module Parties {
  import opened Base
  import opened Store
  import opened Sorting

  /** The body of `POST /parties`. */
  datatype NewParty = NewParty(name: Option<string>, ownerName: Option<string>,
                               phoneNumber: Option<string>, address: Option<string>)

  predicate Complete(input: NewParty) {
    Truthy(input.name) && Truthy(input.ownerName) && Truthy(input.phoneNumber) && Truthy(input.address)
  }

  /** `POST /parties`: distributors and salesmen; all four fields are
      required and stored as sent; a refused create is answered with 500. */
  function CreateParty(s: Store, session: Option<Principal>, input: NewParty, newId: Id): (r: (Reply<Party>, Store))
    ensures session.None? || !(IsDistributor(session.value) || IsSalesman(session.value))
            ==> r == (Fail(Forbidden, Unauthorized), s)
    ensures session.Some? && (IsDistributor(session.value) || IsSalesman(session.value)) && !Complete(input)
            ==> r == (Fail(BadRequest, MissingFields), s)
    ensures !r.0.Ok? ==> r.1 == s
    ensures r.0.Ok? ==>
      r.0.value == Party(newId, input.name.value, input.ownerName.value, input.phoneNumber.value, input.address.value)
      && r.1 == s.(parties := s.parties[newId := r.0.value])
    ensures session.Some? && (IsDistributor(session.value) || IsSalesman(session.value)) && Complete(input) ==>
      (r.0.Ok? <==> newId !in s.parties) && (!r.0.Ok? ==> r.0 == Fail(ServerError, CreateFailed))
  {
    if session.None? || !(IsDistributor(session.value) || IsSalesman(session.value)) then (Fail(Forbidden, Unauthorized), s)
    else if !Complete(input) then (Fail(BadRequest, MissingFields), s)
    else
      var p := Party(newId, input.name.value, input.ownerName.value, input.phoneNumber.value, input.address.value);
      match AddParty(s, p)
      case None => (Fail(ServerError, CreateFailed), s)
      case Some(s') => (Ok(p), s')
  }

  lemma CreatePartyKeepsValid(s: Store, session: Option<Principal>, input: NewParty, newId: Id)
    requires Valid(s)
    ensures Valid(CreateParty(s, session, input, newId).1)
  {
    var r := CreateParty(s, session, input, newId);
    if r.0.Ok? {
      OrdersSurvive(s, r.1);
    }
  }

  /** `GET /parties`: refused (403) without a session; every party by name
      ascending; a failing read is answered with 500. */
  method ListParties(s: Store, session: Option<Principal>, reachable: bool) returns (r: Reply<seq<Party>>)
    ensures session.None? ==> r == Fail(Forbidden, Unauthorized)
    ensures session.Some? && !reachable ==> r == Fail(ServerError, FetchFailed)
    ensures session.Some? && reachable ==>
      && r.Ok? && AscendingBy(r.value, (p: Party) => p.name)
      && |r.value| == |s.parties|
      && (forall p :: p in r.value <==> p in s.parties.Values)
      && (KeysMatch(s) ==> Distinct(r.value))
  {
    if session.None? {
      return Fail(Forbidden, Unauthorized);
    }
    if !reachable {
      return Fail(ServerError, FetchFailed);
    }
    var rows := ValuesOf(s.parties);
    var sorted := SortAscending(rows, (p: Party) => p.name);
    assert |sorted| == |rows| by {
      assert |multiset(sorted)| == |multiset(rows)|;
    }
    assert forall p :: p in sorted <==> p in rows by {
      forall p ensures p in sorted <==> p in rows {
        assert p in sorted <==> p in multiset(sorted);
      }
    }
    if KeysMatch(s) {
      PermutationKeepsDistinct(sorted, rows);
    }
    r := Ok(sorted);
  }
}
