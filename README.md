# AppSmart customers and products, modelled in Dafny

AppSmart is a small REST backend. It stores **customers** and the
**products** each customer owns, and serves them under `/api/v1`. This
project models that backend's core and proves properties of it:

- **Entities.** `Customer` and `Product` are mutable classes whose nullable
  columns are `Option`s. `State()` is a value snapshot of the object.
- **Store.** One `Database` class holds both tables. Each table is a map from
  id to row, together with the order in which rows were inserted. The
  `customer_id` column is kept as the owner's id. A customer's `products`
  list is not stored: it is computed from that column when a customer is
  loaded.
- **Saving.** `save` checks for nulls the way Hibernate does, then applies the
  column limits of the schema: a description of at most 1024 characters and
  a price with at most 10 digits, 2 of them after the point. It then either
  inserts under a generated id or overwrites the row under the object's id.
- **Deleting.** Deleting a customer cascades to the products it owns.
- **Mappers.** Entities become DTOs and back. A partial update is merged
  into an entity in place.
- **Managers.** `CustomerManagerImpl` and `ProductManagerImpl` parse the
  string ids, call the store, and raise `IllegalArgumentException`. Their
  own messages are the source's; a malformed id always carries the JDK's
  "Invalid UUID string" message (see "Left out").
- **Controllers.** The two controllers choose the status codes.
  `ControllerExceptionHandler` turns the exceptions that escape them into
  400 or 401 responses whose body is the exception's message.
- **Security.** `shrinkToken` cuts the `Bearer` scheme off the Authorization
  header. `JwtTokenFilter` attaches an authenticated principal when the token
  validates. The `SecurityConfig` rule table makes PUT and DELETE under
  `/api/v1` require that principal.

Time and the id generator are parameters: `now` and `newId`. The JWT library
is two oracle functions, `validate` and `extract`, which either return a
value or throw. The per-request security context is an explicit value, not
thread-local state. A UUID is 32 hex digits, written in the canonical
8-4-4-4-12 form.

Points the proofs make explicit:

- **The list endpoints' 404 rule.** The rule reads "the page is empty or its
  index is past the page count". On a page the store cuts, it holds exactly
  when the page is empty (`NonEmptyPageInRange`), so the index test never
  decides anything.
- **The bare scheme.** `shrinkToken` throws on exactly one input: the header
  that is the bare word `Bearer`. That throw is `substring(7)` on six
  characters. A header such as `BearerXtoken` loses its seventh character,
  because the prefix test does not require the space.
- **An invalid token.** A token that makes validation throw ends the request
  in the filter. This happens even on GET and POST, which need no token.
- **The bypass literal.** `LUCKY_YOU` is accepted by validation without being
  parsed. It yields a principal only if `extractUsername` also accepts it,
  and `Authorize` states that condition rather than assuming it.

Files: `wrappers.dfy`, `exceptions.dfy`, `uuids.dfy`, `entities.dfy`,
`dtos.dfy`, `mappers.dfy`, `repositories.dfy`, `managers.dfy`,
`controllers.dfy`, `security.dfy`.

## Model

| member | source | states |
|---|---|---|
| `Uuids.Parse` | src/main/java/com/bukkaa/appsmart/mapper/ItemIdMapper.java:16-19 | a string parses to an id exactly when it is in canonical 8-4-4-4-12 hex form |
| `Uuids.ParseFormat` | src/main/java/com/bukkaa/appsmart/mapper/ItemIdMapper.java:11-19 | parsing the string form of an id gives the id back |
| `Uuids.FormatParse` | src/main/java/com/bukkaa/appsmart/mapper/ItemIdMapper.java:11-19 | formatting a parsed lower-case id gives the original string back |
| `Uuids.FormatInjective` | src/main/java/com/bukkaa/appsmart/mapper/ItemIdMapper.java:11-14 | two ids with the same string form are the same id |
| `ItemIdMapper.IdToString` | src/main/java/com/bukkaa/appsmart/mapper/ItemIdMapper.java:11-14 | an id is rendered exactly when present, and the rendering parses back to it |
| `Entities.CustomerToRow` | src/main/java/com/bukkaa/appsmart/entity/Customer.java:26-36 | a customer can be stored exactly when title and createdAt are present; a null createdAt is reported before a null title, with Hibernate's not-null message |
| `Entities.ProductToRow` | src/main/java/com/bukkaa/appsmart/entity/Product.java:30-46 | a product can be stored exactly when createdAt, price and title are present, the description fits 1024 characters and the price fits precision 10 scale 2; the first null in alphabetical order is reported |
| `Entities.CustomerEqualsIgnoresProducts` | src/main/java/com/bukkaa/appsmart/entity/Customer.java:38-40 | customer equality does not look at the products list |
| `Entities.ProductRowRoundTrip` | src/main/java/com/bukkaa/appsmart/entity/Product.java:20-46 | loading a product row that fits its columns and saving it again writes the same row |
| `Entities.CustomerRowRoundTrip` | src/main/java/com/bukkaa/appsmart/entity/Customer.java:20-36 | loading a customer row and saving it again writes the same row |
| `Entities.ProductStateRoundTrip` | src/main/java/com/bukkaa/appsmart/entity/Product.java:20-46 | a storable product saved and loaded back is the same object with its id set |
| `Entities.CustomerStateRoundTrip` | src/main/java/com/bukkaa/appsmart/entity/Customer.java:20-40 | a storable customer saved and loaded back is the same object with its id and its products set |
| `Entities.Customer.constructor` | src/main/java/com/bukkaa/appsmart/entity/Customer.java:12-18 | a new Customer object holds exactly the given field values |
| `Entities.Product.constructor` | src/main/java/com/bukkaa/appsmart/entity/Product.java:12-18 | a new Product object holds exactly the given field values |
| `ProductMapper.ToDto` | src/main/java/com/bukkaa/appsmart/mapper/ProductMapper.java:18-20 | the DTO has an id string exactly when the product has an id, and it parses back to that id; title, description, price, the deletion flag (`deleted` as `isDeleted`) and the timestamps are carried over |
| `ProductMapper.MapToDto` | src/main/java/com/bukkaa/appsmart/mapper/ProductMapper.java:22-27 | a list maps element by element, keeping its length and order |
| `ProductMapper.ToDtos` | src/main/java/com/bukkaa/appsmart/mapper/ProductMapper.java:22-27 | a null list maps to the empty list; any other list maps element by element |
| `ProductMapper.ToModel` | src/main/java/com/bukkaa/appsmart/mapper/ProductMapper.java:29-32 | id, owner and both timestamps are dropped; title, description, price and flag are taken from the DTO |
| `ProductMapper.Merge` | src/main/java/com/bukkaa/appsmart/mapper/ProductMapper.java:34-36 | merges the update into the given object in place and returns that same object |
| `ProductMapper.MergeKeepsIdentity` | src/main/java/com/bukkaa/appsmart/mapper/ProductMapper.java:34-36 | a merge keeps id, owner and createdAt, and sets modifiedAt to now |
| `ProductMapper.MergeTakesPresentFields` | src/main/java/com/bukkaa/appsmart/mapper/ProductMapper.java:34-36 | each non-null field of the update replaces the stored one, each null leaves it; the primitive flag always replaces |
| `ProductMapper.MergeIdempotent` | src/main/java/com/bukkaa/appsmart/mapper/ProductMapper.java:34-36 | merging the same update twice at the same time equals merging it once |
| `ProductMapper.MergeKeepsRowValid` | src/main/java/com/bukkaa/appsmart/mapper/ProductMapper.java:34-36 | merging an update whose present fields fit the columns into a storable product leaves it storable |
| `ProductMapper.ToModelOfToDto` | src/main/java/com/bukkaa/appsmart/mapper/ProductMapper.java:18-32 | converting to a DTO and back loses exactly the id, owner and timestamps |
| `ProductMapper.ToDtoOfToModel` | src/main/java/com/bukkaa/appsmart/mapper/ProductMapper.java:18-32 | converting a DTO to a model and back loses exactly the id and timestamps |
| `CustomerMapper.ToDto` | src/main/java/com/bukkaa/appsmart/mapper/CustomerMapper.java:19-20 | the DTO has an id string exactly when the customer has an id, and it parses back to that id; title, deletion flag and timestamps are carried over; the products list is never null and is the customer's products mapped one by one through `ProductMapper.toDto` (see "Findings" for the flag) |
| `CustomerMapper.ToDtoAsDeclared` | src/main/java/com/bukkaa/appsmart/mapper/CustomerMapper.java:19-20 | with only the declared mappings, the DTO always says "not deleted" and otherwise agrees with `ToDto` |
| `CustomerMapper.DeletedCustomerShownActive` | src/main/java/com/bukkaa/appsmart/mapper/CustomerMapper.java:19-20 | a deleted customer is shown as not deleted by the declared mapping, and as deleted by `ToDto` |
| `CustomerMapper.MapToDto` | src/main/java/com/bukkaa/appsmart/mapper/CustomerMapper.java:22-27 | a list maps element by element, keeping its length and order |
| `CustomerMapper.ToDtos` | src/main/java/com/bukkaa/appsmart/mapper/CustomerMapper.java:22-27 | a null list maps to the empty list; any other list maps element by element |
| `CustomerMapper.ToModel` | src/main/java/com/bukkaa/appsmart/mapper/CustomerMapper.java:29-33 | id, timestamps and products are dropped; title and flag are taken from the DTO |
| `CustomerMapper.Merge` | src/main/java/com/bukkaa/appsmart/mapper/CustomerMapper.java:35-37 | merges the update into the given object in place and returns that same object |
| `CustomerMapper.MergeKeepsIdentity` | src/main/java/com/bukkaa/appsmart/mapper/CustomerMapper.java:35-37 | a merge keeps id, createdAt and products, and sets modifiedAt to now |
| `CustomerMapper.MergeTakesPresentFields` | src/main/java/com/bukkaa/appsmart/mapper/CustomerMapper.java:35-37 | a non-null title replaces the stored one, a null leaves it; the primitive flag always replaces |
| `CustomerMapper.MergeOmittedFlagClears` | src/main/java/com/bukkaa/appsmart/dto/UpdateCustomerDto.java:16-17 | an update that omits isDeleted clears the deleted flag, since the primitive defaults to false |
| `CustomerMapper.MergeIdempotent` | src/main/java/com/bukkaa/appsmart/mapper/CustomerMapper.java:35-37 | merging the same update twice at the same time equals merging it once |
| `CustomerMapper.MergeKeepsRowValid` | src/main/java/com/bukkaa/appsmart/mapper/CustomerMapper.java:35-37 | merging into a storable customer leaves it storable |
| `CustomerMapper.ToModelOfToDto` | src/main/java/com/bukkaa/appsmart/mapper/CustomerMapper.java:19-33 | converting to a DTO and back loses exactly the id, timestamps and products |
| `Repositories.Restrict` | src/main/java/com/bukkaa/appsmart/repository/CustomerRepository.java:8 | after a delete, the listing keeps exactly the surviving ids, still without repeats, and is unchanged when every id survives |
| `Repositories.RestrictConcat` | src/main/java/com/bukkaa/appsmart/repository/CustomerRepository.java:8 | restricting a listing made of two stretches restricts each stretch and keeps them in that order |
| `Repositories.RestrictAround` | src/main/java/com/bukkaa/appsmart/repository/CustomerRepository.java:8 | a surviving id keeps the survivors before it in front and those after it behind, so the old order is kept |
| `Repositories.Owned` | src/main/java/com/bukkaa/appsmart/entity/Customer.java:38-40 | each product of an owner is a stored row naming that owner, as loaded |
| `Repositories.OwnedExactly` | src/main/java/com/bukkaa/appsmart/entity/Customer.java:38-40 | a stored product is in its owner's list exactly when its customer_id names that owner |
| `Repositories.OwnedNone` | src/main/java/com/bukkaa/appsmart/entity/Customer.java:38-40 | an owner that no row names has an empty list |
| `Repositories.OwnedFrame` | src/main/java/com/bukkaa/appsmart/entity/Customer.java:38-40 | rows outside the table listing do not affect any owner's list |
| `Repositories.OwnedAppend` | src/main/java/com/bukkaa/appsmart/entity/Customer.java:38-40 | inserting a product appends it to its owner's list, in the model's insertion order, and changes no other owner's list |
| `Repositories.PageOf` | src/main/java/com/bukkaa/appsmart/manager/impl/CustomerManagerImpl.java:43-45 | a page holds the ids at positions page*size onward: `size` of them, the remainder on the last page, none past the end |
| `Repositories.TotalPagesBounds` | src/main/java/com/bukkaa/appsmart/controller/CustomerController.java:56 | the page count is the least number of pages that holds every row |
| `Repositories.NonEmptyPageInRange` | src/main/java/com/bukkaa/appsmart/controller/CustomerController.java:56 | a page with anything on it has an index below the page count |
| `Repositories.PageEmptyIff` | src/main/java/com/bukkaa/appsmart/controller/CustomerController.java:56 | a page is empty exactly when its index is at or past the page count |
| `Repositories.DistinctCardinality` | src/main/java/com/bukkaa/appsmart/repository/CustomerRepository.java:8 | a listing of a table without repeats is as long as the table, so the page count uses the number of rows |
| `Repositories.Cascade` | src/main/java/com/bukkaa/appsmart/entity/Customer.java:38 | deleting a customer keeps exactly the products it does not own, each unchanged |
| `Repositories.Database.constructor` | src/main/java/com/bukkaa/appsmart/repository/CustomerRepository.java:8 | an empty database satisfies the store invariant |
| `Repositories.Database.ProductsOf` | src/main/java/com/bukkaa/appsmart/repository/ProductRepository.java:12 | every product listed for an owner names the owner, is stored, and is exactly its stored row |
| `Repositories.Database.LoadCustomerAt` | src/main/java/com/bukkaa/appsmart/entity/Customer.java:38-40 | a loaded customer carries its id, its stored row and its eagerly fetched products |
| `Repositories.Database.FindCustomerById` | src/main/java/com/bukkaa/appsmart/manager/impl/CustomerManagerImpl.java:33 | found exactly when the id is stored, as its row, with its products |
| `Repositories.Database.FindProductById` | src/main/java/com/bukkaa/appsmart/manager/impl/ProductManagerImpl.java:34 | found exactly when the id is stored, as its row |
| `Repositories.Database.FindAllCustomers` | src/main/java/com/bukkaa/appsmart/manager/impl/CustomerManagerImpl.java:44 | a page holds the customers at positions page*size onward in table order, as many as `PageOf` gives; the page count is ceil(rows/size); the page is empty exactly when its index is at or past the count |
| `Repositories.Database.CustomersOnPage` | src/main/java/com/bukkaa/appsmart/manager/impl/CustomerManagerImpl.java:44 | the content of a page is the stored customers at that page's positions |
| `Repositories.Database.LoadCustomers` | src/main/java/com/bukkaa/appsmart/manager/impl/CustomerManagerImpl.java:44 | loading a list of ids gives their customers in the same order |
| `Repositories.Database.SaveCustomer` | src/main/java/com/bukkaa/appsmart/manager/impl/CustomerManagerImpl.java:39 | a null column or a generated id already in use is refused with nothing written; otherwise the object gets its id, the row under it is written, a new id is appended to the listing, and products are untouched |
| `Repositories.Database.SaveProduct` | src/main/java/com/bukkaa/appsmart/manager/impl/ProductManagerImpl.java:70 | like SaveCustomer; also refuses a customer_id naming no stored customer; customers are untouched |
| `Repositories.Database.DeleteCustomerById` | src/main/java/com/bukkaa/appsmart/entity/Customer.java:38 | the customer goes, and every product it owns goes with it; the listings keep their order; the store invariant, foreign key included, is kept |
| `Repositories.Database.DeleteProductById` | src/main/java/com/bukkaa/appsmart/manager/impl/ProductManagerImpl.java:51 | the product goes; customers are untouched |
| `Managers.NoProductsOfUnknownOwner` | src/main/java/com/bukkaa/appsmart/entity/Customer.java:38-40 | an owner that no stored product names has no products |
| `Managers.CustomerManagerImpl.FindCustomer` | src/main/java/com/bukkaa/appsmart/manager/impl/CustomerManagerImpl.java:31-34 | fails exactly on a malformed id, with the UUID message; otherwise finds the customer exactly when it is stored, with its products |
| `Managers.CustomerManagerImpl.CreateCustomer` | src/main/java/com/bukkaa/appsmart/manager/impl/CustomerManagerImpl.java:36-40 | stamps createdAt on the argument; succeeds exactly when the title is present and the id is free; a null title fails with the not-null message and writes nothing; the customers table gains or overwrites exactly that row, and a new id is appended to the table order; the products table is untouched; the stored customer equals the returned one; a new customer has no products |
| `Managers.CustomerManagerImpl.GetAllCustomersPageable` | src/main/java/com/bukkaa/appsmart/manager/impl/CustomerManagerImpl.java:42-45 | a negative index and a size below one fail with PageRequest's messages, in that order; otherwise the store's page for that index and size: exactly as many stored customers as `PageOf` gives, empty exactly when the index is at or past the count |
| `Managers.CustomerManagerImpl.RemoveCustomer` | src/main/java/com/bukkaa/appsmart/manager/impl/CustomerManagerImpl.java:47-50 | a malformed id fails with the UUID message and changes nothing; otherwise the customer and all its products go (the products table is the cascade of the old one), other products stay, both table orders keep the survivors in their old order, and the id has no products left |
| `Managers.CustomerManagerImpl.UpdateCustomer` | src/main/java/com/bukkaa/appsmart/manager/impl/CustomerManagerImpl.java:52-62 | a malformed id or a missing customer fails with its own message and writes nothing; otherwise the stored row becomes the merge of the update into the stored customer, at the same place in the listing; the products table and its order are untouched |
| `Managers.ProductManagerImpl.constructor` | src/main/java/com/bukkaa/appsmart/manager/impl/ProductManagerImpl.java:25-29 | the product manager and its customer manager share one database |
| `Managers.ProductManagerImpl.FindProduct` | src/main/java/com/bukkaa/appsmart/manager/impl/ProductManagerImpl.java:32-35 | fails exactly on a malformed id; otherwise finds the product exactly when it is stored |
| `Managers.ProductManagerImpl.UpdateProduct` | src/main/java/com/bukkaa/appsmart/manager/impl/ProductManagerImpl.java:37-47 | a malformed id or a missing product fails with its own message; succeeds exactly when the merged product still fits its columns, and otherwise fails with the store's column exception, writing nothing; then the stored row is the merge, at the same place in the listing; the customers table and its order are untouched |
| `Managers.ProductManagerImpl.DeleteProduct` | src/main/java/com/bukkaa/appsmart/manager/impl/ProductManagerImpl.java:49-52 | a malformed id fails and changes nothing; otherwise the product goes, the product order keeps the survivors in their old order, and the customers table and its order stay |
| `Managers.ProductManagerImpl.FindAllCustomerProducts` | src/main/java/com/bukkaa/appsmart/manager/impl/ProductManagerImpl.java:54-57 | fails exactly on a malformed id; otherwise a stored product is listed exactly when it names the customer; an unknown customer has none |
| `Managers.ProductManagerImpl.CreateProductForCustomer` | src/main/java/com/bukkaa/appsmart/manager/impl/ProductManagerImpl.java:59-71 | a malformed or unknown customer id fails with its message, touching neither product nor store; otherwise the owner and createdAt are set and the product is saved: it succeeds exactly when the stamped product fits its columns and its id is free, and a column that does not fit fails with the store's exception, writing nothing; a new product is appended to the table order and to its owner's list (in the model's insertion order), a known id keeps its place; the customers table and its order stay |
| `ControllerExceptionHandler.Handle` | src/main/java/com/bukkaa/appsmart/controller/ControllerExceptionHandler.java:13-26 | exactly IllegalArgument, PropertyValue and MalformedJwt are handled; the body is the message; the status is 401 for MalformedJwt and 400 for the other two |
| `ControllerExceptionHandler.Complete` | src/main/java/com/bukkaa/appsmart/controller/ControllerExceptionHandler.java:13-16 | a returned response reaches the client unchanged; an IllegalArgument reaches it as 400 with its message |
| `Paging.StorePageMissingIffEmpty` | src/main/java/com/bukkaa/appsmart/controller/CustomerController.java:56 | on a page whose non-emptiness implies an index in range, the 404 test holds exactly when the page is empty |
| `CustomerController.CustomerController.constructor` | src/main/java/com/bukkaa/appsmart/controller/CustomerController.java:20-25 | the controller holds the given manager |
| `CustomerController.CustomerController.CreateCustomer` | src/main/java/com/bukkaa/appsmart/controller/CustomerController.java:28-38 | no body gives 400 and writes nothing; a null title reaches the client as 400 with the not-null message; otherwise 200 with the new customer: an id that names a stored row, the posted title and flag, createdAt now, no modifiedAt, an empty product list; the customers table gains exactly the posted customer's row under the generated id, appended to the table order; any failure writes nothing; the products table and its order are untouched |
| `CustomerController.CustomerController.FindCustomer` | src/main/java/com/bukkaa/appsmart/controller/CustomerController.java:40-48 | a malformed id reaches the client as 400 with the UUID message; an unknown id gives 404; a stored one gives 200 with its DTO |
| `CustomerController.CustomerController.GetAllCustomersPageable` | src/main/java/com/bukkaa/appsmart/controller/CustomerController.java:50-63 | a bad index or size reaches the client as 400 with PageRequest's message; otherwise 404 exactly when the page is empty, else 200 with between 1 and `size` DTOs of that page |
| `CustomerController.CustomerController.UpdateCustomer` | src/main/java/com/bukkaa/appsmart/controller/CustomerController.java:65-77 | no body gives 400 and writes nothing; a malformed or unknown id reaches the client as 400 with its message and writes nothing; otherwise 200 with the merged customer: same id and createdAt, title from the update if present, flag from the update, modifiedAt now; the stored row becomes that merge, every other row and the table order stay; the products table and its order are untouched |
| `CustomerController.CustomerController.RemoveCustomer` | src/main/java/com/bukkaa/appsmart/controller/CustomerController.java:79-85 | a malformed id reaches the client as 400 with the UUID message; otherwise 200 with no body: the customer goes, the products table is the old one without that customer's products, every other row stays, and both table orders keep the survivors in their old order |
| `ProductController.ProductController.constructor` | src/main/java/com/bukkaa/appsmart/controller/ProductController.java:20-25 | the controller holds the given manager |
| `ProductController.ProductController.CreateProductForCustomer` | src/main/java/com/bukkaa/appsmart/controller/ProductController.java:28-39 | no body gives 400 and writes nothing; a malformed or unknown customer id reaches the client as 400 with its message and writes nothing; a missing price, then a missing title, reaches the client as 400 with the not-null message and writes nothing; with a body, it succeeds exactly when the owner exists, the generated id is free and the stamped product fits its columns, and then answers 200 with the new product carrying the posted fields; the products table gains exactly the stamped product's row under the generated id, appended to the table order and to its owner's list (in the model's insertion order); any failure writes nothing; the customers table and its order stay |
| `ProductController.ProductController.FindAllCustomerProducts` | src/main/java/com/bukkaa/appsmart/controller/ProductController.java:41-55 | 404 exactly when the page is empty or its index exceeds the page count; otherwise 200 with the page's DTOs in order |
| `ProductController.ProductController.UpdateProduct` | src/main/java/com/bukkaa/appsmart/controller/ProductController.java:59-71 | no body gives 400 and writes nothing; a malformed or unknown id reaches the client as 400 with its message; for a stored product it succeeds exactly when the merge fits its columns, and then answers 200 with the merged product: present fields replaced, others kept, modifiedAt now; the stored row becomes that merge, every other row and the table order stay; any failure writes nothing; the customers table and its order are untouched |
| `ProductController.ProductController.FindProduct` | src/main/java/com/bukkaa/appsmart/controller/ProductController.java:73-81 | a malformed id reaches the client as 400 with the UUID message; an unknown id gives 404; a stored one gives 200 with its DTO |
| `ProductController.ProductController.DeleteProduct` | src/main/java/com/bukkaa/appsmart/controller/ProductController.java:83-89 | a malformed id reaches the client as 400 with the UUID message; otherwise 200 with no body: the product is gone, every other product stays, the product order keeps the survivors in their old order, and the customers table and its order stay |
| `JwtTokenService.ShrinkToken` | src/main/java/com/bukkaa/appsmart/security/JwtTokenService.java:13-18 | throws exactly on the header "Bearer", as substring(7) on six characters; an absent, blank or non-Bearer header comes back unchanged; a Bearer header of 7 or more characters loses its first 7; the result is never longer than the header |
| `JwtTokenService.SchemePrefixed` | src/main/java/com/bukkaa/appsmart/security/JwtTokenService.java:14-16 | a header starting with "Bearer" has text, and is too short to cut only when it is "Bearer" itself |
| `JwtTokenService.ShrinkBearer` | src/main/java/com/bukkaa/appsmart/security/JwtTokenService.java:15-16 | shrinking "Bearer " followed by a token gives the token back |
| `JwtTokenFilter.DoFilterInternal` | src/main/java/com/bukkaa/appsmart/security/JwtTokenFilter.java:25-40 | the result and the trace of outward calls are exactly the run `Filtered` describes; the run is well chained: at most one validation, an extraction only after it, and the chain called once, last, with the context in force, exactly when no exception ends the filter; a changed context comes only from a validated token and carries its extracted username as the authenticated principal |
| `JwtTokenFilter.FilteredSteps` | src/main/java/com/bukkaa/appsmart/security/JwtTokenFilter.java:26-39 | a shrinking exception makes no call; a token without text goes straight to the chain with the incoming context; a token with text is validated first; a false answer chains the incoming context; a true one asks for the username, which becomes the authenticated principal of the context the chain gets; an exception from either call ends the run there |
| `JwtTokenFilter.FilteredChainsOnce` | src/main/java/com/bukkaa/appsmart/security/JwtTokenFilter.java:28-39 | every run validates at most once and extracts only after validating, and calls the chain once, as its last call, exactly when it ends without an exception |
| `JwtTokenFilter.FilteredAuthenticates` | src/main/java/com/bukkaa/appsmart/security/JwtTokenFilter.java:28-36 | a run that changes the context had a token with text that validated and yielded a username, and the new context is authenticated with that username as principal |
| `SecurityConfig.RuleFor` | src/main/java/com/bukkaa/appsmart/security/SecurityConfig.java:28-33 | authentication is required exactly for PUT and DELETE on /api/v1 or below; everything else is permitted |
| `SecurityConfig.Authorize` | src/main/java/com/bukkaa/appsmart/security/SecurityConfig.java:28-35 | the filter runs first and the rule then sees its context. A request is refused for want of authentication exactly when it is a protected PUT or DELETE whose token is missing, blank or invalid; without an Authorization header such a request is refused. An admitted protected request carries the extracted username. "Bearer " plus a valid token is admitted. A token whose validation throws ends the request whatever the method. The bypass literal is admitted when the service honours it and can extract a username from it. |

## Left out

- `JwtTokenServiceImpl`: token generation, signature and expiry checks belong to the JWT library and the clock, so they are not modelled. Validation and username extraction are oracle functions. The only concrete rule kept is the `LUCKY_YOU` literal (`HonoursBypass`).
- `TokenController`: it only forwards to token generation, which is not modelled.
- `AuthEntryPoint` is not part of this model. A refused request is the `Refused` admission, described as the entry point's 401.
- What the client receives when an exception escapes the filter is not modelled. This covers an invalid token and the bare `Bearer` header. Such an exception escapes before controller dispatch, so it never reaches the `@ControllerAdvice`.
- `ProductController.ProductController.FindAllCustomerProducts`: it takes the page as an input. The paged manager method it calls, `findAllCustomerProductsPageable`, is not declared in the manager. `ProductManagerImpl.findAllCustomerProducts` calls a `findAllProductsByCustomerId` overload without a `Pageable` that the repository does not declare either. So the list variant is modelled, and the status rule is stated over any page.
- `ControllerExceptionHandler.Complete`: exceptions with no handler are `None`. The framework's default error response for them (a 500 for a `DataIntegrityViolationException`, say) is not modelled.
- `Repositories.Database.SaveCustomer`: saving an object whose id names no stored row inserts under that id. Hibernate's `merge` would instead assign a fresh generated id.
- `Repositories.Database.SaveProduct`: the same upsert simplification as `SaveCustomer`.
- `Repositories.Database.FindAllCustomers`: an unsorted `findAll` is taken to return rows in insertion order. The database's actual order is unspecified.
- `Repositories.Database.DeleteCustomerById`: deleting an id that is not stored removes nothing. Some Spring Data versions instead throw `EmptyResultDataAccessException`.
- `Repositories.Database.DeleteProductById`: a missing id is a no-op, as in `DeleteCustomerById`.
- Spring Data exception translation of constraint violations is not modelled. They surface as the model's `DataIntegrity` exceptions, named after the column.
- `Uuids.InvalidUuidMessage`: every malformed id gets the message "Invalid UUID string: " followed by the id. The JDK uses that message only for a string without the dashed five-group shape. A string longer than 36 characters gets "UUID string too large", and a group with a non-hex digit gets the `NumberFormatException` text of `Long.parseLong`.
- `Uuids.Parse`: it accepts only the canonical 36-character form, with upper and lower case hex. Java's `UUID.fromString` also accepts shorter dash-separated groups.
- Timestamps are natural numbers. Their `dd-MM-yyyy HH:mm:ss` rendering in JSON is not modelled, and neither is the guarantee that `modifiedAt` comes after `createdAt`, which depends on the clock.
- Prices are whole hundredths: a `BigDecimal` with more than two fraction digits is not represented.
- Concurrency, `@Transactional` boundaries and the read-modify-write race of the update operations are not modelled. Every operation runs alone.
- `Repositories.Owned`: a customer's `products` (entity/Customer.java:38-40) is an unordered `@OneToMany` collection without `@OrderBy` or `@OrderColumn`, so its order is whatever the select returns. The model lists an owner's products in the order they were inserted. The same holds for `Repositories.Database.ProductsOf`, `Repositories.OwnedAppend`, and the "appended to its owner's list" of the two `CreateProductForCustomer` members. Membership, stated by `OwnedExactly`, does not depend on this choice.
- Logging is not modelled, and its effect is not harmless. `@ToString` on `Customer` (entity/Customer.java:14) prints `products`, and on `Product` (entity/Product.java:14) it prints `customer`. Both sides are fetched eagerly and point at each other. So at the INFO level, printing an owned product or a customer with products recurses without end. That happens at controller/CustomerController.java:46,75, controller/ProductController.java:37,69,79 and manager/impl/ProductManagerImpl.java:69, and the request then ends in a `StackOverflowError` (a 500 response). Affected are GET and PUT of an owned product, GET and PUT of a customer with products, and creating a product for a customer who already has one. The model answers these requests as if the log statements printed nothing. The logging configuration that decides whether INFO is enabled is not part of this model.
- JSON binding, routing and Spring wiring are not modelled. The controllers take the decoded body as an `Option` (None for a missing body) and the path variable as a string.
- `JwtTokenFilter.DoFilterInternal`: the request details attached to the authentication (`WebAuthenticationDetailsSource`) are not modelled.

## Findings

| source | as written | input that shows it | evidently intended | confidence | as-written member | corrected member |
|---|---|---|---|---|---|---|
| src/main/java/com/bukkaa/appsmart/mapper/CustomerMapper.java:19-20 | `toDto` declares only the id mapping. `CustomerDto` is built through its Lombok builder, whose flag property is `isDeleted`. The entity's getter `isDeleted()` names its property `deleted`, so nothing fills the DTO's flag. `ProductMapper.java:18` pairs the two explicitly for products. | a customer whose `isDeleted` is true | the DTO shows the customer's flag, as products' DTOs do | medium: depends on how MapStruct resolves Lombok builder properties; not executed | `CustomerMapper.ToDtoAsDeclared`, `CustomerMapper.DeletedCustomerShownActive` | `CustomerMapper.ToDto` |
