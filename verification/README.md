# disti_sales: order placement and the multi-tenant routes, in Dafny

This project models the server side of disti_sales. It is a sales-order system: a
distributor runs it for several companies, and salesmen take orders from retail
shops ("parties"). Every product belongs to exactly one company. An order is
placed for one company and may only contain that company's products. A salesman
is either bound to one company or is *global* and names a company with each
order.

The model is a set of pure Dafny functions and small methods over an immutable
`Store`, with one map per database table. The modules follow the route files:

- `Base`: optional values, the session principal, JavaScript truthiness, and the
  route reply `Reply<T>`. A reply is `Ok`, `Fail(status, reason)`, or `Crash`.
  `Crash` means an exception the handler does not catch.
- `Text`: JavaScript `trim` and ASCII `toLowerCase`, plus the ascending text
  order behind `orderBy: { name: 'asc' }`.
- `Sorting`: the `asc` and `desc` orders as insertion sorts. Each is proved sorted
  and a permutation. Tables are enumerated in whatever order the store yields.
- `Store`: the entities, and the inserts with the database's refusals. These are
  id clashes, dangling foreign keys, duplicate company names and duplicate emails.
  `createMany` is all-or-nothing. The Prisma schema is not part of this model, so
  these refusals rest on three assumptions about it:
  - Every relation is a foreign key that the database enforces. This is Prisma's
    default relation mode. `debug-products.ts:16-18` reports products whose
    company is missing; the model takes that as a defensive check, not as a
    sign that the key goes unenforced.
  - `Company.name` is unique. `prisma/seed.ts:22-23` and `:28-29` upsert
    companies `where: { name }`, and Prisma accepts only a unique field there.
  - `User.email` is unique. `prisma/seed.ts:10-11` upserts a user by `email`.
    `src/lib/auth.ts:21-23` and `verify-login.ts:10-11` look users up with
    `findUnique({ where: { email } })`.
- `Store.Valid` is the invariant that every route preserves. It covers keys,
  uniqueness and references. It also requires every order to be
  *tenant-isolated*: each line's product belongs to the order's company. And
  every order must be *total-consistent*: the stored total is the sum of
  `priceAtTime * quantity` over its lines.
- `Orders`: `POST /orders` and `GET /orders`. Placement works like this:
  - The item loop is the fold `Collect`.
  - Its reference definitions are `Known`, the requests whose product exists, and
    `Lines`, their price snapshots.
  - A product of another company aborts the whole request.
  - A missing product is skipped silently.
- `Auth`: the credentials `authorize` step, and the `jwt` and `session`
  callbacks. These carry id, role and company from sign-in into every later
  session.
- `Products`, `Categories`, `Parties`, `Companies`, `Salesmen`, `Stats`: the
  role gates, the required-field checks and the listings of the other routes.
- `ProductImport`: the row mapping of the spreadsheet import. It covers:
  - the column fallbacks
  - `Number()` on the price
  - case-insensitive company lookup after trimming, where the later of two
    companies with the same key wins
  - skipped rows
  - the all-or-nothing batch insert

The routes take from their caller what the code gets from the environment:

| input | what it stands for |
|---|---|
| `session: Option<Principal>` | the session |
| `newId` and `idFor` | the ids the database generates |
| `now` | the clock |
| `hash` and `matches` | bcrypt |
| `parse` | `Number` on text |
| `parseDate` and `endOfDay` | `new Date` and `setHours(23, 59, 59, 999)` |
| `listing` | the companies table, in the order the database returns it; the lemmas that need it assume it is exactly the stored companies (`ProductImport.ListingOf`) |
| `reachable` | whether a read in a `try` block succeeds |

Where the code's own comments and its behaviour part ways, the model follows
the behaviour:

- The comment at `src/app/api/orders/route.ts:28` labels the company and
  salesman filters of `GET /orders` as distributor filters. The code applies
  them to every principal that is not a salesman, and so does
  `Orders.OrderFilterFor`.
- The comment at `src/app/api/orders/route.ts:94` says a distributor's order
  defaults to its company. The seeded distributor has no company, and the code
  keeps that absent company as the target.
  `Orders.DistributorWithoutCompanyCannotOrder` proves that such a distributor
  can never place an order.
- With no session, `POST /orders` reads `user.role` before it checks the session.
  The handler therefore throws instead of answering 403, and the model returns
  `Crash`.
- A salesman without a company asking `GET /products` gets the filter
  `companyId: null` on the required company column. The database client
  refuses a null filter on a required field, and the handler has no `try`, so
  the model returns `Crash` (`Products.ListProducts`).

## Model

| member | source | states |
|---|---|---|
| Store.AddCompany | src/app/api/admin/companies/route.ts:41-43 | creating a company is refused exactly when the id is taken or another company has the same name; otherwise only that company is added |
| Store.AddUser | src/app/api/admin/create-salesman/route.ts:24-32 | creating a user is refused exactly on an id clash, a taken email or an unknown company; otherwise only that user is added |
| Store.AddProduct | src/app/api/products/route.ts:47-53 | creating a product is refused exactly on an id clash or an unknown company or category; otherwise only that product is added |
| Store.AddProducts | src/app/api/products/import/route.ts:90-92 | a batch insert that succeeds stores every given product and keeps every existing one. Nothing else is added and no other table changes. The product count grows by the batch size |
| Store.AddProductsSucceeds | src/app/api/products/import/route.ts:90-92 | the batch insert succeeds exactly when every product is insertable on its own and no id occurs twice in the batch |
| Store.AddCategory | src/app/api/categories/route.ts:46-51 | creating a category is refused exactly on an id clash or an unknown company |
| Store.AddParty | src/app/api/parties/route.ts:28-35 | creating a party is refused exactly on an id clash |
| Store.AddOrder | src/app/api/orders/route.ts:120-131 | the order header and its lines are written as one unit; the write is refused on an id clash or when the salesman, company, party or any line's product does not exist |
| Store.LineTotalAppend | src/app/api/orders/route.ts:111 | the order total over two runs of lines is the sum of the two totals, so summing front-to-back (as the loop does) equals the stored definition |
| Store.AddingOrderKeepsValid | src/app/api/orders/route.ts:98-131 | adding a referenced, tenant-isolated, total-consistent order with a fresh id keeps the whole store valid |
| Store.AddingProductKeepsValid | src/app/api/products/route.ts:47-53 | adding an insertable product keeps the store valid |
| Store.AddingProductsKeepsValid | src/app/api/products/import/route.ts:90-92 | a successful batch insert keeps the store valid |
| Text.Trim | src/app/api/products/import/route.ts:42 | the result is a contiguous piece of the input; everything cut from either end is white space, and the result neither starts nor ends with white space |
| Text.TrimIdempotent | src/app/api/products/import/route.ts:69 | trimming an already trimmed name changes nothing |
| Text.Lower | src/app/api/products/import/route.ts:57 | lower-casing keeps the length and maps each character on its own: each upper-case ASCII letter to its own lower-case letter (code point plus 32), everything else unchanged |
| Text.LowerIdempotent | src/app/api/products/import/route.ts:69 | lower-casing a lower-cased key changes nothing |
| Text.TextLeTotal | src/app/api/categories/route.ts:26 | any two names are comparable in the ascending order |
| Text.TextLeTransitive | src/app/api/categories/route.ts:26 | the ascending name order is transitive |
| Text.TextLeAntisymmetric | src/app/api/categories/route.ts:26 | two names each at most the other are equal |
| Sorting.SortAscending | src/app/api/categories/route.ts:26 | `orderBy name asc` returns a permutation of the rows in which every name is at most every later name |
| Sorting.SortNewestFirst | src/app/api/orders/route.ts:56 | `orderBy createdAt desc` returns a permutation of the rows in which every order is at least as recent as every later one |
| Sorting.TakeNewest | src/app/api/admin/stats/route.ts:21-23 | `take: 5` with `orderBy createdAt desc` returns min(5, n) of the rows, newest first, each row at most as often as it is stored, and no row left out is newer than one returned |
| Sorting.DistinctCounts | src/app/api/admin/stats/route.ts:21-23 | a list has no repeated row exactly when each row occurs at most once in its multiset, so reordering cannot introduce repeats |
| Sorting.RowsWhere | src/app/api/orders/route.ts:47-48 | a filtered `findMany` returns exactly the rows of the table that satisfy the filter, and each row once when no row is stored under two keys |
| Orders.TargetCompany | src/app/api/orders/route.ts:78-96 | any principal except a global salesman orders for its own company, even an absent one; a global salesman must name a company (400 otherwise) and orders for that one |
| Orders.Known | src/app/api/orders/route.ts:102-104 | the requested lines kept are exactly those whose product exists, and never more than were sent |
| Orders.LinesFollowKnown | src/app/api/orders/route.ts:102-117 | the stored lines correspond one-to-one, in request order, to the requests whose product exists; each is that product's id, the requested quantity and the product's current price |
| Orders.NoKnownNoLines | src/app/api/orders/route.ts:102-104 | when no requested product exists, no line is stored |
| Orders.LinesStayInCompany | src/app/api/orders/route.ts:106-109 | when no requested product belongs to another company, every stored line's product belongs to the target company |
| Orders.Collect | src/app/api/orders/route.ts:98-117 | the item loop never throws. It fails exactly when some request names another company's product, and the error names the first such product. Otherwise it yields the snapshot lines and their total |
| Orders.Submit | src/app/api/orders/route.ts:98-141 | once the company is settled, nothing is written unless an order is returned, and the handler never throws here. A foreign product gives 400. Otherwise the order is created exactly when there is a company, the company, salesman and any sent party exist and the id is unused; a failed write is 500. A created order is for the target company, with the caller as salesman, a party only when one was sent, status PENDING and the snapshot lines; its total is the sum of its lines and its lines are products of its company |
| Orders.PlaceOrder | src/app/api/orders/route.ts:62-141 | Without a session the handler throws; other roles get 403; an absent or empty item list gets 400, and every refusal leaves the store unchanged. Past these checks, with the company settled and no foreign product, the order is created exactly when the company, salesman and any sent party exist and the id is unused, and otherwise the reply is 500. A created order has the target company, the caller as salesman, a party only when one was sent, status PENDING and the snapshot lines. Its total is the sum of its lines and every line is a product of its company |
| Orders.ForeignProductRejectsOrder | src/app/api/orders/route.ts:106-109 | the first request whose product belongs to another company makes the reply 400, naming that product, and nothing is written |
| Orders.RequestedCompanyIgnoredWhenBound | src/app/api/orders/route.ts:89-96 | for a company-bound salesman or a distributor, the company named in the request has no effect on the outcome |
| Orders.GlobalSalesmanChoosesCompany | src/app/api/orders/route.ts:82-88 | a global salesman who names no company gets 400 and nothing is written; a created order is for the company it named |
| Orders.DistributorWithoutCompanyCannotOrder | src/app/api/orders/route.ts:93-109 | a distributor without a company gets 400 if any requested product exists; otherwise the create fails with 500 |
| Orders.AllMissingStillCreatesOrder | src/app/api/orders/route.ts:98-132 | when every requested product is missing, an order with no lines and total 0 is still created |
| Orders.PlaceOrderKeepsValid | src/app/api/orders/route.ts:98-131 | placing an order keeps the store valid, so tenant isolation and total consistency hold for every stored order |
| Orders.PlacedLinesAreSnapshots | src/app/api/orders/route.ts:110-116 | each stored line of a created order carries its request's product and quantity and the product's price at placement |
| Orders.NegativeQuantityAccepted | src/app/api/orders/route.ts:111-116 | quantities are not validated: a line of quantity -2 at price 100 is stored, and the order total is -200 |
| Orders.OrderFilterFor | src/app/api/orders/route.ts:22-45 | a salesman's filter selects exactly its own orders in the date window, whatever the query names. For every other principal, the given company and salesman parameters are applied and the date window is inclusive up to the end of the end day |
| Orders.ListOrders | src/app/api/orders/route.ts:6-59 | without a session the reply is 401; otherwise exactly the stored orders the filter selects, newest first, each once when orders are stored under their ids |
| Auth.Authorize | src/lib/auth.ts:14-46 | a missing email or password is refused. The reply is "user not found" exactly when no user has the email. A successful sign-in returns the profile (no password hash) of a user with that email whose hash matches. With unique emails the match alone decides the outcome |
| Auth.JwtCallback | src/lib/auth.ts:64-71 | at sign-in the token takes the user's role, id and company; without a user the token passes through; name and email are never touched |
| Auth.SessionCallback | src/lib/auth.ts:72-79 | the session user receives the token's role, id and company and keeps its name, email and expiry |
| Auth.SignInReachesSession | src/lib/auth.ts:64-79 | the session of the sign-in request and of a later request carry exactly the user's id, role and company, and a global salesman keeps an absent company |
| Products.ProductScope | src/app/api/products/route.ts:13-27 | a salesman sees only its company's products, and a salesman without a company gets the null filter; any other principal sees the requested company's products, or all of them when none is requested |
| Products.SalesmanScopeIgnoresParameter | src/app/api/products/route.ts:21-23 | the `companyId` parameter never changes what a salesman sees |
| Products.ListProducts | src/app/api/products/route.ts:6-35 | without a session the reply is 401; a salesman without a company makes the query throw; otherwise exactly the stored products in scope, each once when products are stored under their ids |
| Products.CreateProduct | src/app/api/products/route.ts:38-56 | only a distributor may create (403 otherwise). The product is stored as sent, exactly when it has a name and company and the insert is allowed; any other outcome is an uncaught exception that leaves the store unchanged |
| Products.CreateProductKeepsValid | src/app/api/products/route.ts:47-53 | product creation keeps the store valid |
| Categories.CategoryCompany | src/app/api/categories/route.ts:13-21 | the listing is limited to the requested company, else to the caller's company, else not limited |
| Categories.ListCategories | src/app/api/categories/route.ts:7-30 | without a session the reply is 401; otherwise exactly the categories of the chosen company (or all), by name ascending, each once when categories are stored under their ids |
| Categories.CreateCategory | src/app/api/categories/route.ts:33-56 | only a distributor may create (403). Name and company are required (400). The category is stored exactly when its id is fresh and its company exists; otherwise the reply is 500 and nothing changes |
| Categories.CreateCategoryKeepsValid | src/app/api/categories/route.ts:45-51 | category creation keeps the store valid |
| Parties.CreateParty | src/app/api/parties/route.ts:9-45 | distributors and salesmen may create (403 otherwise). All four fields are required (400). The party is stored as sent exactly when its id is fresh; otherwise the reply is 500 |
| Parties.CreatePartyKeepsValid | src/app/api/parties/route.ts:28-35 | party creation keeps the store valid |
| Parties.ListParties | src/app/api/parties/route.ts:47-62 | without a session the reply is 403, and a failing read gives 500; otherwise every party, one entry per party, by name ascending |
| Companies.ListCompanies | src/app/api/admin/companies/route.ts:7-25 | only distributors and salesmen may list (403 otherwise); the list holds every company, one entry per company |
| Companies.CreateCompany | src/app/api/admin/companies/route.ts:27-49 | only a distributor may create (403). A name is required (400). The company is stored exactly when its id is fresh and its name is not taken; otherwise the reply is 500 and nothing changes |
| Companies.CreateCompanyKeepsValid | src/app/api/admin/companies/route.ts:41-43 | company creation keeps the store valid, including unique company names |
| Salesmen.CreateSalesman | src/app/api/admin/create-salesman/route.ts:7-42 | Only a distributor may create a salesman (403), and a company is required (400). The stored user is a SALESMAN of that company with the hashed password, and the reply is that user without the hash. Creation succeeds exactly when the id is fresh, the email is free and the company exists; otherwise 500 |
| Salesmen.CreatedSalesmanShape | src/app/api/admin/create-salesman/route.ts:22-37 | a created salesman is company-bound and holds the hash of the password; the reply repeats every stored field except the hash |
| Salesmen.CreateSalesmanKeepsValid | src/app/api/admin/create-salesman/route.ts:24-32 | salesman creation keeps the store valid, including unique emails |
| Salesmen.ListSalesmen | src/app/api/admin/salesmen/route.ts:6-28 | only a distributor may list (403), and a failing read gives 500; otherwise exactly the users whose role is SALESMAN, by name ascending, each once when users are stored under their ids |
| Stats.BookedRevenueSplit | src/app/api/admin/stats/route.ts:33-36 | booked revenue does not depend on the order in which orders are summed |
| Stats.TotalRevenue | src/app/api/admin/stats/route.ts:33-41 | the revenue fold equals booked revenue: the sum of the totals of all orders that are not CANCELLED, 0 when there are none |
| Stats.NewOrderIsBooked | src/app/api/admin/stats/route.ts:33-36 | adding a new PENDING order raises booked revenue by exactly its total |
| Stats.PlacedOrderIsBooked | src/app/api/admin/stats/route.ts:33-36 | every order placed through `POST /orders` raises booked revenue by exactly its total |
| Stats.RecentOrders | src/app/api/admin/stats/route.ts:21-28 | at most five stored orders, newest first; no order left out is newer than one shown, and none is shown twice when orders are stored under their ids |
| Stats.GetStats | src/app/api/admin/stats/route.ts:6-47 | only a distributor may see the figures (403), and a failing read gives 500. The order count is the number of orders, the salesman count is the number of SALESMAN users, the revenue is booked revenue, and the recent orders are min(5, n) stored orders, newest first, none left out newer than one shown and none shown twice in a valid store |
| ProductImport.FirstCell | src/app/api/products/import/route.ts:64-66 | the column fallback returns the first non-empty cell in column order, and is absent exactly when every listed column is missing or empty |
| ProductImport.RowPrice | src/app/api/products/import/route.ts:65 | a row without a price cell costs 0; otherwise the price is `Number` of the first price cell (absent for NaN) |
| ProductImport.CompanyNames | src/app/api/products/import/route.ts:38-43 | the set of trimmed company names is empty exactly when no row has a company cell |
| ProductImport.Fetched | src/app/api/products/import/route.ts:49-55 | the lookup returns exactly the listed companies whose name (case-sensitive) is one of the sheet's trimmed names |
| ProductImport.FetchedKeepsOrder | src/app/api/products/import/route.ts:49-57 | the lookup keeps the order in which the database lists the companies, which decides which of two companies with the same lower-cased name the map keeps |
| ProductImport.CompanyIdFor | src/app/api/products/import/route.ts:57 | the lower-cased-name map has no entry for a key exactly when no fetched company lower-cases to it; otherwise its value is the id of the last such company |
| ProductImport.Classify | src/app/api/products/import/route.ts:63-80 | a row is dropped silently exactly when it lacks a name, a numeric price or a company cell |
| ProductImport.ClassifyMeaning | src/app/api/products/import/route.ts:68-78 | a created row keeps its name and price and gets the non-empty id of a fetched company whose lower-cased name is the row's key; a skipped row records its name and its company cell as written |
| ProductImport.SkippedIffCompanyUnknown | src/app/api/products/import/route.ts:69-78 | when company ids are non-empty, a qualifying row is skipped exactly when no fetched company matches its trimmed, lower-cased company name |
| ProductImport.Partition | src/app/api/products/import/route.ts:59-80 | the products to create and the skipped rows are exactly the created and skipped outcomes; dropped rows land in neither, and no created outcome means nothing to create |
| ProductImport.PartitionCounts | src/app/api/products/import/route.ts:59-80 | each draft occurs among the products to create exactly as often as a row was created with it, and each skipped entry as often as a row was skipped with it, so the reported count is the number of created rows |
| ProductImport.ToProducts | src/app/api/products/import/route.ts:89-92 | one product per draft, with the draft's name, price and company and no category |
| ProductImport.ImportProducts | src/app/api/products/import/route.ts:8-105 | Only a distributor may import (403). The reply is 400 without a file, 400 for an empty sheet, and 400 exactly when no row names a company. A failing companies read is 500. With no row to create the reply is 400 listing the skipped rows. Otherwise the import succeeds exactly when the batch insert does, and a refused batch is 500. Every refusal leaves the store unchanged. A success inserts all drafted products in one batch and reports their count and the skipped rows |
| ProductImport.NothingToImport | src/app/api/products/import/route.ts:82-87 | once the companies are read, when no row yields a product, the reply is 400 listing the skipped rows, and nothing is inserted |
| ProductImport.DraftsMatchRows | src/app/api/products/import/route.ts:69-75 | every product to create takes its company from a fetched company matching a qualifying row |
| ProductImport.ImportedProductsMatchCompanies | src/app/api/products/import/route.ts:49-75 | when the companies listing is the stored companies, every imported product belongs to a stored company whose name appears in the sheet and matches its row's company cell, ignoring case and surrounding white space; a refused import adds no product |
| ProductImport.ImportSucceeds | src/app/api/products/import/route.ts:82-99 | when the companies read succeeds and returns the stored companies, and the new ids are fresh and distinct, an import with a row to create succeeds and reports one product per such row |
| ProductImport.ImportKeepsValid | src/app/api/products/import/route.ts:90-92 | the import keeps the store valid |

## Left out

- Spreadsheet parsing (`XLSX.read`, `sheet_to_json`): the model starts from the parsed rows, given as maps from header to non-empty cell text.
- bcrypt `hash` and `compare`: these are the parameters `hash` and `matches`.
- The NextAuth configuration: the cookie settings, the JWT strategy, the login page, and the signing and expiry of tokens.
- Debug logging to the console and to `debug_order.txt` and `debug_party.txt`: it has no effect on replies or data.
- Date parsing and time zones: these are the parameters `parseDate` and `endOfDay`, and times are integers. An unparseable date (`Invalid Date`) is not modelled.
- Prices and totals are integers in minor currency units, not floating-point numbers or Prisma decimals. `Number(price)` in `POST /products` is taken as already converted.
- The stats route also computes a delivered-only revenue sum and never uses it. That sum is not modelled.
- `Promise.all` in the stats route is modelled as sequential reads of one store state.
- Rows related through `include` and `select` (company names, item products, `_count`) are not attached to list results.
- Text.Lower: covers ASCII letters only; other Unicode case mappings are not modelled.
- A malformed JSON body, a missing `productId` in an order item, a missing or non-integer `quantity` in an order item (whose order write the database refuses, answered with 500), and a non-string field are not modelled. Such requests make the handlers throw or the database refuse them. The create-salesman fields other than `companyId` are taken as present strings.
- Read failures outside a surrounding `try` are not modelled; in the model those reads always succeed. This covers the product lookup in the `POST /orders` item loop (`src/app/api/orders/route.ts:103`, before the `try` at :119), the user lookup in `authorize` (`src/lib/auth.ts:21-23`), and the list reads of `GET` orders, products, categories and companies. In the source, such a failure throws.
- A write that the database fails for a reason other than a key, foreign-key or unique constraint (a lost connection, a timeout) is not modelled. This affects Orders.Submit, Orders.PlaceOrder, Categories.CreateCategory, Parties.CreateParty, Companies.CreateCompany, Salesmen.CreateSalesman and ProductImport.ImportProducts. Their "created exactly when …" clauses assume a database that refuses a write only for a constraint. In the source, such a failure reaches the same `catch` as a refused write and is answered with 500 (`src/app/api/orders/route.ts:133-140`, `src/app/api/categories/route.ts:53-55`, `src/app/api/parties/route.ts:38-43`, `src/app/api/admin/companies/route.ts:46-48`, `src/app/api/admin/create-salesman/route.ts:38-40`, `src/app/api/products/import/route.ts:101-104`). `POST /products` has no `try`, so there it throws; the model's `Crash` for a refused `CreateProduct` covers that outcome too.
- Deleting a company and changing an order's status are outside the modelled core. These are `src/app/api/admin/companies/[id]/route.ts` and `src/app/api/orders/[id]/route.ts`.
- The product template download and all pages and layouts are user interface code. They are not part of this model.
- Sorting.SortAscending: `orderBy: { name: 'asc' }` follows the database's collation. The model orders names by code point, which is binary collation; a locale-aware collation may order mixed-case or accented names differently.
- Sorting.RowsWhere: each row comes back once only when no row value is stored under two keys; the store invariant guarantees this, but the method does not assume it.
- Orders.ListOrders: states each order once only when orders are stored under their ids.
- Products.ListProducts: states each product once only when products are stored under their ids.
- Categories.ListCategories: states each category once only when categories are stored under their ids.
- Salesmen.ListSalesmen: states each salesman once only when users are stored under their ids.
- Stats.RecentOrders: it does not state which of several orders with equal timestamps the database returns.
- ProductImport.Fetched: the `name: { in: [...] }` filter follows the database's collation. The model matches names exactly, by code point, which is binary collation; a case- or accent-insensitive collation would fetch more companies.
- ProductImport.ImportedProductsMatchCompanies: holds when `listing` is exactly the stored companies (`ProductImport.ListingOf`); `ImportProducts` itself takes the listing as given and does not read it from the store.
- ProductImport.SkippedIffCompanyUnknown: it assumes non-empty company ids. An empty id is falsy and would also make a row skipped.
