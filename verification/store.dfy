/** The database as an immutable value: one map per table, keyed by id, and
    the inserts the routes perform, each refusing what the database's keys and
    unique constraints refuse. */
module Store {
  import opened Base

  datatype Company = Company(id: Id, name: string)

  datatype User = User(id: Id, name: string, email: string, passwordHash: string,
                       role: Role, companyId: Option<Id>)

  /** A user as the routes hand it out: every field but the password hash. */
  datatype Profile = Profile(id: Id, name: string, email: string, role: Role, companyId: Option<Id>)

  function ProfileOf(u: User): Profile {
    Profile(u.id, u.name, u.email, u.role, u.companyId)
  }

  datatype Category = Category(id: Id, name: string, companyId: Id)

  /** Prices and totals are integers in minor currency units. */
  datatype Product = Product(id: Id, name: string, price: int, companyId: Id, categoryId: Option<Id>)

  datatype Party = Party(id: Id, name: string, ownerName: string, phoneNumber: string, address: string)

  datatype OrderStatus = Pending | Delivered | Cancelled

  /** One order line; `priceAtTime` is the product's price when the order was placed. */
  datatype OrderItem = OrderItem(productId: Id, quantity: int, priceAtTime: int)

  /** An order header together with its lines (they are written as one unit). */
  datatype Order = Order(id: Id, salesmanId: Id, companyId: Id, partyId: Option<Id>,
                         totalAmount: int, status: OrderStatus, createdAt: int,
                         items: seq<OrderItem>)

  datatype Store = Store(companies: map<Id, Company>, users: map<Id, User>,
                         products: map<Id, Product>, categories: map<Id, Category>,
                         parties: map<Id, Party>, orders: map<Id, Order>)

  /** Sum of `priceAtTime * quantity` over order lines. */
  function LineTotal(items: seq<OrderItem>): int {
    if |items| == 0 then 0
    else LineTotal(items[..|items| - 1]) + items[|items| - 1].priceAtTime * items[|items| - 1].quantity
  }

  lemma {:induction false} LineTotalAppend(a: seq<OrderItem>, b: seq<OrderItem>)
    ensures LineTotal(a + b) == LineTotal(a) + LineTotal(b)
    decreases |b|
  {
    if |b| > 0 {
      assert (a + b)[..|a + b| - 1] == a + b[..|b| - 1];
      LineTotalAppend(a, b[..|b| - 1]);
    } else {
      assert a + b == a;
    }
  }

  /** Every row is stored under its own id. */
  predicate KeysMatch(s: Store) {
    && (forall k :: k in s.companies ==> s.companies[k].id == k)
    && (forall k :: k in s.users ==> s.users[k].id == k)
    && (forall k :: k in s.products ==> s.products[k].id == k)
    && (forall k :: k in s.categories ==> s.categories[k].id == k)
    && (forall k :: k in s.parties ==> s.parties[k].id == k)
    && (forall k :: k in s.orders ==> s.orders[k].id == k)
  }

  predicate CompanyNameTaken(companies: map<Id, Company>, name: string) {
    exists k :: k in companies && companies[k].name == name
  }

  predicate EmailTaken(users: map<Id, User>, email: string) {
    exists k :: k in users && users[k].email == email
  }

  predicate UniqueEmails(users: map<Id, User>) {
    forall a, b :: a in users && b in users && users[a].email == users[b].email ==> a == b
  }

  /** Company names and user emails are unique. */
  predicate UniqueNames(s: Store) {
    && (forall a, b :: a in s.companies && b in s.companies && s.companies[a].name == s.companies[b].name ==> a == b)
    && UniqueEmails(s.users)
  }

  /** Every foreign key points at an existing row. */
  predicate References(s: Store) {
    && (forall k :: k in s.users && s.users[k].companyId.Some? ==> s.users[k].companyId.value in s.companies)
    && (forall k :: k in s.categories ==> s.categories[k].companyId in s.companies)
    && (forall k :: k in s.products ==> s.products[k].companyId in s.companies)
    && (forall k :: k in s.products && s.products[k].categoryId.Some? ==> s.products[k].categoryId.value in s.categories)
    && (forall k :: k in s.orders ==> OrderReferences(s, s.orders[k]))
  }

  predicate OrderReferences(s: Store, o: Order) {
    && o.salesmanId in s.users
    && o.companyId in s.companies
    && (o.partyId.Some? ==> o.partyId.value in s.parties)
    && (forall i :: 0 <= i < |o.items| ==> o.items[i].productId in s.products)
  }

  /** Tenant isolation: every line of an order is a product of the order's company. */
  predicate TenantIsolated(products: map<Id, Product>, o: Order) {
    forall i :: 0 <= i < |o.items| ==>
      o.items[i].productId in products && products[o.items[i].productId].companyId == o.companyId
  }

  /** Total consistency: the stored total is the sum of the stored lines. */
  predicate TotalConsistent(o: Order) {
    o.totalAmount == LineTotal(o.items)
  }

  /** The invariant every route preserves. */
  predicate Valid(s: Store) {
    && KeysMatch(s)
    && UniqueNames(s)
    && References(s)
    && (forall k :: k in s.orders ==> TenantIsolated(s.products, s.orders[k]) && TotalConsistent(s.orders[k]))
  }

  const Empty := Store(map[], map[], map[], map[], map[], map[])

  lemma EmptyValid()
    ensures Valid(Empty)
  {
  }

  /** `company.create`: refused on an id clash or a duplicate name. */
  function AddCompany(s: Store, c: Company): (r: Option<Store>)
    ensures r.None? <==> c.id in s.companies || CompanyNameTaken(s.companies, c.name)
    ensures r.Some? ==> r.value == s.(companies := s.companies[c.id := c])
  {
    if c.id in s.companies || CompanyNameTaken(s.companies, c.name) then None
    else Some(s.(companies := s.companies[c.id := c]))
  }

  /** `user.create`: refused on an id clash, a duplicate email or an unknown company. */
  function AddUser(s: Store, u: User): (r: Option<Store>)
    ensures r.None? <==> u.id in s.users || EmailTaken(s.users, u.email)
                         || (u.companyId.Some? && u.companyId.value !in s.companies)
    ensures r.Some? ==> r.value == s.(users := s.users[u.id := u])
  {
    if u.id in s.users || EmailTaken(s.users, u.email) || (u.companyId.Some? && u.companyId.value !in s.companies) then None
    else Some(s.(users := s.users[u.id := u]))
  }

  predicate ProductInsertable(s: Store, p: Product) {
    && p.id !in s.products
    && p.companyId in s.companies
    && (p.categoryId.Some? ==> p.categoryId.value in s.categories)
  }

  /** `product.create`: refused on an id clash or an unknown company or category. */
  function AddProduct(s: Store, p: Product): (r: Option<Store>)
    ensures r.None? <==> !ProductInsertable(s, p)
    ensures r.Some? ==> r.value == s.(products := s.products[p.id := p])
  {
    if ProductInsertable(s, p) then Some(s.(products := s.products[p.id := p])) else None
  }

  /** A batch the store accepts: every product insertable on its own, and no
      id used twice within the batch. */
  predicate BatchInsertable(s: Store, ps: seq<Product>) {
    && (forall i :: 0 <= i < |ps| ==> ProductInsertable(s, ps[i]))
    && (forall i, j :: 0 <= i < j < |ps| ==> ps[i].id != ps[j].id)
  }

  /** A batch is accepted exactly when its head is, and its tail is accepted
      by the store that holds the head. */
  lemma BatchStep(s: Store, ps: seq<Product>)
    requires |ps| > 0 && ProductInsertable(s, ps[0])
    ensures BatchInsertable(s, ps)
            <==> BatchInsertable(s.(products := s.products[ps[0].id := ps[0]]), ps[1..])
  {
    var s1 := s.(products := s.products[ps[0].id := ps[0]]);
    var tail := ps[1..];
    assert forall i :: 0 <= i < |tail| ==> tail[i] == ps[i + 1];
    if BatchInsertable(s1, tail) {
      forall i | 0 <= i < |ps| ensures ProductInsertable(s, ps[i]) {
        if i > 0 { assert ProductInsertable(s1, tail[i - 1]); }
      }
      forall i, j | 0 <= i < j < |ps| ensures ps[i].id != ps[j].id {
        if i == 0 { assert ProductInsertable(s1, tail[j - 1]); }
        else { assert tail[i - 1].id != tail[j - 1].id; }
      }
    }
    if BatchInsertable(s, ps) {
      forall i | 0 <= i < |tail| ensures ProductInsertable(s1, tail[i]) {
        assert ps[0].id != ps[i + 1].id;
      }
    }
  }

  /** `product.createMany`: all rows or none. */
  function AddProducts(s: Store, ps: seq<Product>): (r: Option<Store>)
    ensures r.Some? ==> r.value.companies == s.companies && r.value.users == s.users
                        && r.value.categories == s.categories && r.value.parties == s.parties
                        && r.value.orders == s.orders
    ensures r.Some? ==> forall k :: k in s.products ==> k in r.value.products && r.value.products[k] == s.products[k]
    ensures r.Some? ==> forall i :: 0 <= i < |ps| ==> ps[i].id in r.value.products && r.value.products[ps[i].id] == ps[i]
    ensures r.Some? ==> forall k :: k in r.value.products ==> k in s.products || exists i :: 0 <= i < |ps| && ps[i].id == k
    ensures r.Some? ==> |r.value.products| == |s.products| + |ps|
    decreases |ps|
  {
    if |ps| == 0 then Some(s)
    else
      match AddProduct(s, ps[0])
      case None => None
      case Some(s1) =>
        assert s1.products.Keys == s.products.Keys + {ps[0].id};
        var r := AddProducts(s1, ps[1..]);
        if r.Some? then
          assert forall i :: 1 <= i < |ps| ==> ps[i] == ps[1..][i - 1];
          r
        else r
  }

  /** `category.create`: refused on an id clash or an unknown company. */
  function AddCategory(s: Store, c: Category): (r: Option<Store>)
    ensures r.None? <==> c.id in s.categories || c.companyId !in s.companies
    ensures r.Some? ==> r.value == s.(categories := s.categories[c.id := c])
  {
    if c.id in s.categories || c.companyId !in s.companies then None
    else Some(s.(categories := s.categories[c.id := c]))
  }

  /** `party.create`: refused on an id clash. */
  function AddParty(s: Store, p: Party): (r: Option<Store>)
    ensures r.None? <==> p.id in s.parties
    ensures r.Some? ==> r.value == s.(parties := s.parties[p.id := p])
  {
    if p.id in s.parties then None else Some(s.(parties := s.parties[p.id := p]))
  }

  /** `order.create` with nested `items.create`: header and lines in one
      write, refused on an id clash or any dangling reference. */
  function AddOrder(s: Store, o: Order): (r: Option<Store>)
    ensures r.None? <==> o.id in s.orders || !OrderReferences(s, o)
    ensures r.Some? ==> r.value == s.(orders := s.orders[o.id := o])
  {
    if o.id in s.orders || !OrderReferences(s, o) then None
    else Some(s.(orders := s.orders[o.id := o]))
  }

  /** `createMany` succeeds exactly when the batch is insertable. */
  lemma {:induction false} AddProductsSucceeds(s: Store, ps: seq<Product>)
    ensures AddProducts(s, ps).Some? <==> BatchInsertable(s, ps)
    decreases |ps|
  {
    if |ps| > 0 && ProductInsertable(s, ps[0]) {
      BatchStep(s, ps);
      AddProductsSucceeds(s.(products := s.products[ps[0].id := ps[0]]), ps[1..]);
    }
  }

  /** Adding an order that references existing rows, stays within its company
      and carries a consistent total keeps the store valid. */
  lemma AddingOrderKeepsValid(s: Store, o: Order)
    requires Valid(s)
    requires o.id !in s.orders && OrderReferences(s, o) && TenantIsolated(s.products, o) && TotalConsistent(o)
    ensures Valid(s.(orders := s.orders[o.id := o]))
  {
    var s' := s.(orders := s.orders[o.id := o]);
    assert KeysMatch(s');
    assert UniqueNames(s');
    forall k | k in s'.orders
      ensures OrderReferences(s', s'.orders[k])
      ensures TenantIsolated(s'.products, s'.orders[k]) && TotalConsistent(s'.orders[k])
    {
      if k != o.id {
        var old_ := s.orders[k];
        assert s'.orders[k] == old_;
        assert OrderReferences(s, old_) && TenantIsolated(s.products, old_) && TotalConsistent(old_);
      }
    }
    assert References(s');
  }

  /** Stored orders stay referenced and isolated when the orders are left
      alone, no user, company or party disappears and no existing product
      changes. */
  lemma OrdersSurvive(s: Store, s': Store)
    requires forall k :: k in s.orders ==> OrderReferences(s, s.orders[k]) && TenantIsolated(s.products, s.orders[k])
    requires s'.orders == s.orders
    requires s.users.Keys <= s'.users.Keys && s.companies.Keys <= s'.companies.Keys
             && s.parties.Keys <= s'.parties.Keys
    requires forall k :: k in s.products ==> k in s'.products && s'.products[k] == s.products[k]
    ensures forall k :: k in s'.orders ==> OrderReferences(s', s'.orders[k]) && TenantIsolated(s'.products, s'.orders[k])
  {
    forall k | k in s'.orders
      ensures OrderReferences(s', s'.orders[k]) && TenantIsolated(s'.products, s'.orders[k])
    {
      var o := s.orders[k];
      assert OrderReferences(s, o) && TenantIsolated(s.products, o);
      forall i | 0 <= i < |o.items|
        ensures o.items[i].productId in s'.products
        ensures s'.products[o.items[i].productId] == s.products[o.items[i].productId]
      {
      }
    }
  }

  /** Adding a product with a fresh id and existing company keeps the store
      valid: no existing order line can refer to the new id. */
  lemma AddingProductKeepsValid(s: Store, p: Product)
    requires Valid(s) && ProductInsertable(s, p)
    ensures Valid(s.(products := s.products[p.id := p]))
  {
    var s' := s.(products := s.products[p.id := p]);
    OrdersSurvive(s, s');
    assert KeysMatch(s');
    assert UniqueNames(s');
    assert References(s');
  }

  /** A successful `createMany` keeps the store valid. */
  lemma {:induction false} AddingProductsKeepsValid(s: Store, ps: seq<Product>)
    requires Valid(s) && AddProducts(s, ps).Some?
    ensures Valid(AddProducts(s, ps).value)
    decreases |ps|
  {
    if |ps| > 0 {
      AddingProductKeepsValid(s, ps[0]);
      AddingProductsKeepsValid(AddProduct(s, ps[0]).value, ps[1..]);
    }
  }
}
