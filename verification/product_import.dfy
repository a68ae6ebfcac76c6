/** `POST /products/import` after the workbook has been parsed,
    src/app/api/products/import/route.ts: each row is a map from column
    header to cell text (a cell left empty is absent). */
module ProductImport {
  import opened Base
  import opened Text
  import opened Store

  type Row = map<string, string>

  const NameColumns: seq<string> := ["Name", "name", "ProductName", "Product Name"]
  const PriceColumns: seq<string> := ["Price", "price"]
  const CompanyColumns: seq<string> := ["Company Name", "Company", "company"]

  /** `row[a] || row[b] || ...`: the first non-empty cell among the columns. */
  function FirstCell(row: Row, columns: seq<string>): (r: Option<string>)
    ensures r.None? <==> forall i :: 0 <= i < |columns| ==> columns[i] !in row || row[columns[i]] == ""
    ensures r.Some? ==> exists i :: 0 <= i < |columns| && columns[i] in row && row[columns[i]] == r.value
                                    && r.value != ""
                                    && forall j :: 0 <= j < i ==> columns[j] !in row || row[columns[j]] == ""
  {
    if |columns| == 0 then None
    else if columns[0] in row && row[columns[0]] != "" then Some(row[columns[0]])
    else
      var r := FirstCell(row, columns[1..]);
      assert forall i :: 1 <= i < |columns| ==> columns[i] == columns[1..][i - 1];
      r
  }

  /** `Number(row.Price || row.price || 0)`; `parse` is `Number` on text and
      answers None for NaN. A row without a price costs 0. */
  function RowPrice(row: Row, parse: string -> Option<int>): (r: Option<int>)
    ensures FirstCell(row, PriceColumns).None? ==> r == Some(0)
    ensures FirstCell(row, PriceColumns).Some? ==> r == parse(FirstCell(row, PriceColumns).value)
  {
    match FirstCell(row, PriceColumns)
    case None => Some(0)
    case Some(text) => parse(text)
  }

  /** The trimmed company names that occur in the sheet. */
  function CompanyNames(rows: seq<Row>): (names: set<string>)
    ensures names == {} <==> forall i :: 0 <= i < |rows| ==> FirstCell(rows[i], CompanyColumns).None?
  {
    var names := set i | 0 <= i < |rows| && FirstCell(rows[i], CompanyColumns).Some? :: Trim(FirstCell(rows[i], CompanyColumns).value);
    assert forall i :: 0 <= i < |rows| && FirstCell(rows[i], CompanyColumns).Some? ==>
      Trim(FirstCell(rows[i], CompanyColumns).value) in names;
    names
  }

  /** The companies the lookup query returns: those whose name is one of the
      sheet's names, in the order the database lists them. */
  function Fetched(listing: seq<Company>, names: set<string>): (r: seq<Company>)
    ensures forall c :: c in r <==> c in listing && c.name in names
  {
    if |listing| == 0 then []
    else (if listing[0].name in names then [listing[0]] else []) + Fetched(listing[1..], names)
  }

  /** The lookup keeps the database's order: filtering two runs of the
      listing one after the other gives the two filtered runs in turn. */
  lemma {:induction false} FetchedKeepsOrder(a: seq<Company>, b: seq<Company>, names: set<string>)
    ensures Fetched(a + b, names) == Fetched(a, names) + Fetched(b, names)
  {
    if |a| > 0 {
      assert (a + b)[1..] == a[1..] + b;
      FetchedKeepsOrder(a[1..], b, names);
    } else {
      assert a + b == b;
    }
  }

  /** The id the lower-cased-name map holds for a key; when two fetched
      companies share a key, the later one wins, as in a JavaScript `Map`. */
  function CompanyIdFor(fetched: seq<Company>, key: string): (r: Option<Id>)
    ensures r.None? <==> forall i :: 0 <= i < |fetched| ==> Lower(fetched[i].name) != key
    ensures r.Some? ==> exists i :: 0 <= i < |fetched| && Lower(fetched[i].name) == key && fetched[i].id == r.value
                                    && forall j :: i < j < |fetched| ==> Lower(fetched[j].name) != key
  {
    if |fetched| == 0 then None
    else if Lower(fetched[|fetched| - 1].name) == key then Some(fetched[|fetched| - 1].id)
    else CompanyIdFor(fetched[..|fetched| - 1], key)
  }

  /** A product to insert. */
  datatype Draft = Draft(name: string, price: int, companyId: Id)

  datatype RowOutcome = Create(draft: Draft) | Skip(skipped: SkippedRow) | Ignore

  /** A row qualifies when it has a name, a price that is a number and a
      company name. */
  predicate Qualifies(row: Row, parse: string -> Option<int>) {
    FirstCell(row, NameColumns).Some? && RowPrice(row, parse).Some? && FirstCell(row, CompanyColumns).Some?
  }

  /** The lookup key of a row's company: its name, trimmed and lower-cased. */
  function CompanyKey(row: Row): string
    requires FirstCell(row, CompanyColumns).Some?
  {
    Lower(Trim(FirstCell(row, CompanyColumns).value))
  }

  /** What becomes of one row: a qualifying row whose company is found is
      created under that company; a qualifying row whose company is not found
      is skipped with its company name; any other row is dropped silently. */
  function Classify(row: Row, parse: string -> Option<int>, fetched: seq<Company>): (r: RowOutcome)
    ensures !Qualifies(row, parse) <==> r.Ignore?
  {
    if !Qualifies(row, parse) then Ignore
    else
      var id := CompanyIdFor(fetched, CompanyKey(row));
      if id.Some? && id.value != "" then
        Create(Draft(FirstCell(row, NameColumns).value, RowPrice(row, parse).value, id.value))
      else
        Skip(SkippedRow(FirstCell(row, NameColumns).value, FirstCell(row, CompanyColumns).value))
  }

  /** A created row keeps its name and price and gets the id of a fetched
      company whose lower-cased name is the row's key; a skipped row records
      its name and its company cell as written. */
  lemma ClassifyMeaning(row: Row, parse: string -> Option<int>, fetched: seq<Company>)
    ensures var r := Classify(row, parse, fetched);
      && (r.Create? ==>
            && r.draft.name == FirstCell(row, NameColumns).value
            && r.draft.price == RowPrice(row, parse).value
            && r.draft.companyId != ""
            && exists c :: c in fetched && c.id == r.draft.companyId && Lower(c.name) == CompanyKey(row))
      && (r.Skip? ==>
            r.skipped == SkippedRow(FirstCell(row, NameColumns).value, FirstCell(row, CompanyColumns).value))
  {
    var r := Classify(row, parse, fetched);
    if r.Create? {
      var i :| 0 <= i < |fetched| && Lower(fetched[i].name) == CompanyKey(row) && fetched[i].id == r.draft.companyId;
      assert fetched[i] in fetched;
    }
  }

  /** When every company id is non-empty, a qualifying row is skipped exactly
      when no fetched company has its key. */
  lemma SkippedIffCompanyUnknown(row: Row, parse: string -> Option<int>, fetched: seq<Company>)
    requires Qualifies(row, parse)
    requires forall c :: c in fetched ==> c.id != ""
    ensures Classify(row, parse, fetched).Skip? <==> forall c :: c in fetched ==> Lower(c.name) != CompanyKey(row)
  {
    var id := CompanyIdFor(fetched, CompanyKey(row));
    if id.Some? {
      var i :| 0 <= i < |fetched| && Lower(fetched[i].name) == CompanyKey(row) && fetched[i].id == id.value;
      assert fetched[i] in fetched;
    } else {
      forall c | c in fetched ensures Lower(c.name) != CompanyKey(row) {
        var i :| 0 <= i < |fetched| && fetched[i] == c;
      }
    }
  }

  /** The outcome of every row, in sheet order. */
  function Outcomes(rows: seq<Row>, parse: string -> Option<int>, fetched: seq<Company>): seq<RowOutcome> {
    seq(|rows|, i requires 0 <= i < |rows| => Classify(rows[i], parse, fetched))
  }

  /** The products to create and the skipped rows, each in sheet order;
      dropped rows land in neither. */
  function Partition(outcomes: seq<RowOutcome>): (r: (seq<Draft>, seq<SkippedRow>))
    ensures |r.0| + |r.1| <= |outcomes|
    ensures forall d :: d in r.0 <==> Create(d) in outcomes
    ensures forall k :: k in r.1 <==> Skip(k) in outcomes
    ensures (forall i :: 0 <= i < |outcomes| ==> !outcomes[i].Create?) ==> r.0 == []
  {
    if |outcomes| == 0 then ([], [])
    else
      var rest := Partition(outcomes[1..]);
      assert outcomes == [outcomes[0]] + outcomes[1..];
      match outcomes[0]
      case Create(d) => ([d] + rest.0, rest.1)
      case Skip(k) => (rest.0, [k] + rest.1)
      case Ignore => rest
  }

  /** Each draft is to be created as often as a row was created with it, and
      each skipped entry listed as often as a row was skipped with it; so the
      reported count is the number of created rows. */
  lemma PartitionCounts(outcomes: seq<RowOutcome>)
    ensures forall d :: multiset(Partition(outcomes).0)[d] == multiset(outcomes)[Create(d)]
    ensures forall k :: multiset(Partition(outcomes).1)[k] == multiset(outcomes)[Skip(k)]
  {
    forall d ensures multiset(Partition(outcomes).0)[d] == multiset(outcomes)[Create(d)] {
      CreatesCounted(outcomes, d);
    }
    forall k ensures multiset(Partition(outcomes).1)[k] == multiset(outcomes)[Skip(k)] {
      SkipsCounted(outcomes, k);
    }
  }

  lemma {:induction false} CreatesCounted(outcomes: seq<RowOutcome>, d: Draft)
    ensures multiset(Partition(outcomes).0)[d] == multiset(outcomes)[Create(d)]
  {
    if |outcomes| > 0 {
      var tail := outcomes[1..];
      CreatesCounted(tail, d);
      assert outcomes == [outcomes[0]] + tail;
      assert multiset(outcomes)[Create(d)] == multiset(tail)[Create(d)] + (if outcomes[0] == Create(d) then 1 else 0);
      if outcomes[0].Create? {
        assert Partition(outcomes).0 == [outcomes[0].draft] + Partition(tail).0;
      } else {
        assert Partition(outcomes).0 == Partition(tail).0;
      }
    }
  }

  lemma {:induction false} SkipsCounted(outcomes: seq<RowOutcome>, k: SkippedRow)
    ensures multiset(Partition(outcomes).1)[k] == multiset(outcomes)[Skip(k)]
  {
    if |outcomes| > 0 {
      var tail := outcomes[1..];
      SkipsCounted(tail, k);
      assert outcomes == [outcomes[0]] + tail;
      assert multiset(outcomes)[Skip(k)] == multiset(tail)[Skip(k)] + (if outcomes[0] == Skip(k) then 1 else 0);
      if outcomes[0].Skip? {
        assert Partition(outcomes).1 == [outcomes[0].skipped] + Partition(tail).1;
      } else {
        assert Partition(outcomes).1 == Partition(tail).1;
      }
    }
  }

  datatype ImportSummary = ImportSummary(count: nat, skipped: seq<SkippedRow>)

  function ToProducts(drafts: seq<Draft>, idFor: nat -> Id): (ps: seq<Product>)
    ensures |ps| == |drafts|
    ensures forall i :: 0 <= i < |ps| ==> ps[i] == Product(idFor(i), drafts[i].name, drafts[i].price, drafts[i].companyId, None)
  {
    seq(|drafts|, i requires 0 <= i < |drafts| => Product(idFor(i), drafts[i].name, drafts[i].price, drafts[i].companyId, None))
  }

  /** `POST /products/import`. `upload` is the parsed first sheet (absent
      when no file was sent), `listing` the companies table in the order the
      database returns it, `reachable` whether the companies read succeeds,
      `idFor(i)` the id the database gives the i-th inserted product. Every
      error after the role gate lands in one `catch`, answered with 500. */
  function ImportProducts(s: Store, session: Option<Principal>, upload: Option<seq<Row>>,
                          parse: string -> Option<int>, listing: seq<Company>, reachable: bool,
                          idFor: nat -> Id): (r: (Reply<ImportSummary>, Store))
    ensures session.None? || !IsDistributor(session.value) ==> r == (Fail(Forbidden, Unauthorized), s)
    ensures session.Some? && IsDistributor(session.value) ==>
      && (upload.None? ==> r.0 == Fail(BadRequest, FileRequired))
      && (upload.Some? && |upload.value| == 0 ==> r.0 == Fail(BadRequest, NoRows))
      && (upload.Some? && |upload.value| > 0 ==> (r.0 == Fail(BadRequest, NoCompanyColumn) <==> CompanyNames(upload.value) == {}))
    // past the gates, a failing companies read is a 500
    ensures session.Some? && IsDistributor(session.value) && upload.Some? && CompanyNames(upload.value) != {}
            && !reachable
            ==> r == (Fail(ServerError, ProcessFailed), s)
    // once the read succeeds: no row to create is a 400 listing the skipped
    // rows; otherwise the import succeeds exactly when the batch insert does
    ensures session.Some? && IsDistributor(session.value) && upload.Some? && CompanyNames(upload.value) != {}
            && reachable
            ==> var rows := upload.value;
                var plan := Partition(Outcomes(rows, parse, Fetched(listing, CompanyNames(rows))));
                && (|plan.0| == 0 ==> r == (Fail(BadRequest, NoValidProducts(plan.1)), s))
                && (|plan.0| > 0 ==> (r.0.Ok? <==> AddProducts(s, ToProducts(plan.0, idFor)).Some?))
                && (|plan.0| > 0 && !r.0.Ok? ==> r == (Fail(ServerError, ProcessFailed), s))
    ensures !r.0.Ok? ==> r.1 == s
    ensures r.0.Ok? ==>
      var rows := upload.value;
      var plan := Partition(Outcomes(rows, parse, Fetched(listing, CompanyNames(rows))));
      && session.Some? && IsDistributor(session.value) && reachable
      && r.0.value == ImportSummary(|plan.0|, plan.1)
      && |plan.0| > 0
      && AddProducts(s, ToProducts(plan.0, idFor)) == Some(r.1)
      && |r.1.products| == |s.products| + |plan.0|
  {
    if session.None? || !IsDistributor(session.value) then (Fail(Forbidden, Unauthorized), s)
    else if upload.None? then (Fail(BadRequest, FileRequired), s)
    else
      var rows := upload.value;
      if |rows| == 0 then (Fail(BadRequest, NoRows), s)
      else
        var names := CompanyNames(rows);
        if names == {} then (Fail(BadRequest, NoCompanyColumn), s)
        else if !reachable then (Fail(ServerError, ProcessFailed), s)
        else
          var plan := Partition(Outcomes(rows, parse, Fetched(listing, names)));
          if |plan.0| == 0 then (Fail(BadRequest, NoValidProducts(plan.1)), s)
          else
            match AddProducts(s, ToProducts(plan.0, idFor))
            case None => (Fail(ServerError, ProcessFailed), s)
            case Some(s') => (Ok(ImportSummary(|plan.0|, plan.1)), s')
  }

  /** Once the companies read succeeds, with nothing to create the reply
      lists the skipped rows and nothing is inserted. */
  lemma NothingToImport(s: Store, p: Principal, rows: seq<Row>, parse: string -> Option<int>,
                        listing: seq<Company>, idFor: nat -> Id)
    requires IsDistributor(p)
    ensures CompanyNames(rows) != {}
            && (forall i :: 0 <= i < |rows| ==> !Classify(rows[i], parse, Fetched(listing, CompanyNames(rows))).Create?)
            ==> ImportProducts(s, Some(p), Some(rows), parse, listing, true, idFor)
                == (Fail(BadRequest, NoValidProducts(Partition(Outcomes(rows, parse, Fetched(listing, CompanyNames(rows)))).1)), s)
  {
    var fetched := Fetched(listing, CompanyNames(rows));
    if CompanyNames(rows) != {} && forall i :: 0 <= i < |rows| ==> !Classify(rows[i], parse, fetched).Create? {
      var outcomes := Outcomes(rows, parse, fetched);
      var plan := Partition(outcomes);
      assert plan.0 == [];
    }
  }

  /** Every product to create takes its company from a fetched company whose
      lower-cased name is the key of a qualifying row. */
  lemma DraftsMatchRows(rows: seq<Row>, parse: string -> Option<int>, fetched: seq<Company>)
    ensures forall d :: d in Partition(Outcomes(rows, parse, fetched)).0 ==>
      exists c, i :: c in fetched && 0 <= i < |rows| && Qualifies(rows[i], parse)
                     && c.id == d.companyId && Lower(c.name) == CompanyKey(rows[i])
  {
    var outcomes := Outcomes(rows, parse, fetched);
    forall d | d in Partition(outcomes).0
      ensures exists c, i :: c in fetched && 0 <= i < |rows| && Qualifies(rows[i], parse)
                             && c.id == d.companyId && Lower(c.name) == CompanyKey(rows[i])
    {
      var i :| 0 <= i < |outcomes| && outcomes[i] == Create(d);
      ClassifyMeaning(rows[i], parse, fetched);
      var c :| c in fetched && c.id == d.companyId && Lower(c.name) == CompanyKey(rows[i]);
    }
  }

  /** `listing` is the companies table of `s`: every listed company is the
      stored row under its id, and every stored company is listed. */
  predicate ListingOf(s: Store, listing: seq<Company>) {
    && (forall c :: c in listing ==> c.id in s.companies && s.companies[c.id] == c)
    && (forall k :: k in s.companies ==> s.companies[k] in listing)
  }

  /** Every imported product belongs to a stored company whose name occurs
      in the sheet and matches its row's company, ignoring case; a refused
      import adds no product at all. */
  lemma ImportedProductsMatchCompanies(s: Store, session: Option<Principal>, rows: seq<Row>,
                                       parse: string -> Option<int>, listing: seq<Company>, reachable: bool,
                                       idFor: nat -> Id)
    requires ListingOf(s, listing)
    ensures var s' := ImportProducts(s, session, Some(rows), parse, listing, reachable, idFor).1;
            forall k :: k in s'.products && k !in s.products ==>
              && s'.products[k].companyId in s'.companies
              && s'.companies[s'.products[k].companyId].name in CompanyNames(rows)
              && exists i :: 0 <= i < |rows| && Qualifies(rows[i], parse)
                             && Lower(s'.companies[s'.products[k].companyId].name) == CompanyKey(rows[i])
  {
    var r := ImportProducts(s, session, Some(rows), parse, listing, reachable, idFor);
    if r.0.Ok? {
      var fetched := Fetched(listing, CompanyNames(rows));
      var plan := Partition(Outcomes(rows, parse, fetched));
      var ps := ToProducts(plan.0, idFor);
      var s' := r.1;
      assert AddProducts(s, ps) == Some(s');
      DraftsMatchRows(rows, parse, fetched);
      forall k | k in s'.products && k !in s.products
        ensures && s'.products[k].companyId in s'.companies
                && s'.companies[s'.products[k].companyId].name in CompanyNames(rows)
                && exists i :: 0 <= i < |rows| && Qualifies(rows[i], parse)
                               && Lower(s'.companies[s'.products[k].companyId].name) == CompanyKey(rows[i])
      {
        var n :| 0 <= n < |ps| && ps[n].id == k;
        assert s'.products[k] == ps[n];
        assert plan.0[n] in plan.0;
        var c, i :| c in fetched && 0 <= i < |rows| && Qualifies(rows[i], parse)
                    && c.id == plan.0[n].companyId && Lower(c.name) == CompanyKey(rows[i]);
        assert s'.companies[c.id] == c;
      }
    }
  }

  /** With `listing` drawn from the store and fresh, distinct ids for the new
      products, an import that gets past the gates, reads the companies and
      has a row to create succeeds, creating one product per such row. */
  lemma ImportSucceeds(s: Store, p: Principal, rows: seq<Row>,
                       parse: string -> Option<int>, listing: seq<Company>, idFor: nat -> Id)
    requires IsDistributor(p) && ListingOf(s, listing)
    requires forall i: nat :: idFor(i) !in s.products
    requires forall i: nat, j: nat :: i != j ==> idFor(i) != idFor(j)
    ensures var plan := Partition(Outcomes(rows, parse, Fetched(listing, CompanyNames(rows))));
            CompanyNames(rows) != {} && |plan.0| > 0 ==>
              ImportProducts(s, Some(p), Some(rows), parse, listing, true, idFor).0 == Ok(ImportSummary(|plan.0|, plan.1))
  {
    var plan := Partition(Outcomes(rows, parse, Fetched(listing, CompanyNames(rows))));
    DraftCompaniesStored(s, rows, parse, listing);
    DraftsInsertable(s, plan.0, idFor);
    AddProductsSucceeds(s, ToProducts(plan.0, idFor));
  }

  /** With `listing` drawn from the store, every draft's company is stored. */
  lemma DraftCompaniesStored(s: Store, rows: seq<Row>, parse: string -> Option<int>, listing: seq<Company>)
    requires ListingOf(s, listing)
    ensures forall d :: d in Partition(Outcomes(rows, parse, Fetched(listing, CompanyNames(rows)))).0 ==>
      d.companyId in s.companies
  {
    var fetched := Fetched(listing, CompanyNames(rows));
    DraftsMatchRows(rows, parse, fetched);
  }

  /** Drafts whose companies are stored, given fresh and distinct ids, form
      an insertable batch. */
  lemma DraftsInsertable(s: Store, drafts: seq<Draft>, idFor: nat -> Id)
    requires forall d :: d in drafts ==> d.companyId in s.companies
    requires forall i: nat :: idFor(i) !in s.products
    requires forall i: nat, j: nat :: i != j ==> idFor(i) != idFor(j)
    ensures BatchInsertable(s, ToProducts(drafts, idFor))
  {
    var ps := ToProducts(drafts, idFor);
    forall n | 0 <= n < |ps| ensures ProductInsertable(s, ps[n]) {
      assert drafts[n] in drafts;
    }
  }

  /** The import keeps the store valid. */
  lemma ImportKeepsValid(s: Store, session: Option<Principal>, upload: Option<seq<Row>>,
                         parse: string -> Option<int>, listing: seq<Company>, reachable: bool,
                         idFor: nat -> Id)
    requires Valid(s)
    ensures Valid(ImportProducts(s, session, upload, parse, listing, reachable, idFor).1)
  {
    var r := ImportProducts(s, session, upload, parse, listing, reachable, idFor);
    if r.0.Ok? {
      var rows := upload.value;
      var plan := Partition(Outcomes(rows, parse, Fetched(listing, CompanyNames(rows))));
      AddingProductsKeepsValid(s, ToProducts(plan.0, idFor));
    }
  }
}
