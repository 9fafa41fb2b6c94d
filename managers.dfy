/** CustomerManagerImpl and ProductManagerImpl: the domain operations over
    the shared database. A string id is parsed first, so a malformed id fails
    before the store is looked at; the clock and the id generator are
    parameters (`now`, `newId`). */
module Managers {
  import opened Wrappers
  import opened Uuids
  import opened Entities
  import opened Exceptions
  import opened Dtos
  import opened Repositories
  import CustomerMapper
  import ProductMapper

  /** The message of `updateCustomer` for a well-formed id with no customer. */
  function CustomerNotFoundMessage(customerId: string): string {
    "Customer with id = '" + customerId + "' not found!"
  }

  /** The message of `updateProduct` for a well-formed id with no product. */
  function ProductNotFoundMessage(productId: string): string {
    "Product with id = '" + productId + "' not found!"
  }

  /** The message of `createProductForCustomer` when the owner is missing. */
  function NoCustomerMessage(customerId: string): string {
    "No Customer found with id = '" + customerId + "'"
  }

  /** The messages of `PageRequest.of` for a negative page index and for a
      page size below one. */
  const NegativePageMessage := "Page index must not be less than zero!"
  const SmallPageSizeMessage := "Page size must not be less than one!"

  /** An owner that no stored product names has no products. */
  lemma NoProductsOfUnknownOwner(db: Database, owner: Uuid)
    requires db.Valid()
    requires forall k :: k in db.products ==> db.products[k].customer != Some(owner)
    ensures db.ProductsOf(owner) == []
  {
    OwnedNone(db.products, db.productOrder, owner);
  }

  class CustomerManagerImpl {
    const repository: Database

    constructor (repository: Database)
      ensures this.repository == repository
    {
      this.repository := repository;
    }

    /** `findCustomer`: a malformed id fails with the parse error; a
        well-formed one gives the stored customer, if any. */
    function FindCustomer(customerId: string): (r: Result<Option<CustomerState>, Exception>)
      reads repository
      requires repository.Valid()
      ensures r.Failure? <==> Parse(customerId).None?
      ensures r.Failure? ==> r.error == IllegalArgument(InvalidUuidMessage(customerId))
      ensures r.Success? ==> (r.value.Some? <==> Parse(customerId).value in repository.customers)
      ensures r.Success? && r.value.Some? ==>
        r.value.value.id == Parse(customerId)
        && CustomerToRow(r.value.value) == Success(repository.customers[Parse(customerId).value])
        && r.value.value.products == Some(repository.ProductsOf(Parse(customerId).value))
    {
      match Parse(customerId)
      case None => Failure(IllegalArgument(InvalidUuidMessage(customerId)))
      case Some(id) => Success(repository.FindCustomerById(id))
    }

    /** `createCustomer`: stamps `createdAt` on the argument, then saves it;
        the result is the argument, now carrying its id, and equal (products
        aside) to what the store then holds under that id. */
    method CreateCustomer(customer: Customer, now: Timestamp, newId: Uuid) returns (r: Result<Customer, Exception>)
      requires repository.Valid()
      modifies customer, repository
      ensures repository.Valid()
      ensures customer.createdAt == Some(now)
      ensures r.Success? <==>
        old(customer.title).Some? && (old(customer.id).Some? || newId !in old(repository.customers))
      ensures old(customer.title).None? ==>
        r == Failure(PropertyValue(NotNullMessage("Customer", "title"))) && unchanged(repository)
      ensures r.Failure? ==> unchanged(repository)
      ensures r.Success? ==> r.value == customer && customer.id.Some?
      ensures r.Success? ==> customer.State() == old(customer.State()).(id := customer.id, createdAt := Some(now))
      ensures r.Success? ==>
        var stored := repository.FindCustomerById(customer.id.value);
        stored.Some? && CustomerEquals(stored.value, customer.State())
      ensures r.Success? && old(customer.id).None? ==>
        customer.id == Some(newId) && repository.ProductsOf(newId) == []
      ensures r.Success? ==>
        repository.customers == old(repository.customers)[customer.id.value := CustomerToRow(customer.State()).value]
      ensures r.Success? && customer.id.value in old(repository.customers) ==>
        repository.customerOrder == old(repository.customerOrder)
      ensures r.Success? && customer.id.value !in old(repository.customers) ==>
        repository.customerOrder == old(repository.customerOrder) + [customer.id.value]
      ensures repository.products == old(repository.products)
      ensures repository.productOrder == old(repository.productOrder)
    {
      customer.createdAt := Some(now);
      ghost var customers0 := repository.customers;
      r := repository.SaveCustomer(customer, newId);
      if r.Success? && old(customer.id).None? {
        assert forall k :: k in repository.products ==> repository.products[k].customer != Some(newId) by {
          forall k | k in repository.products && repository.products[k].customer.Some?
            ensures repository.products[k].customer.value != newId
          {
            assert repository.products[k].customer.value in customers0;
          }
        }
        NoProductsOfUnknownOwner(repository, newId);
      }
    }

    /** `getAllCustomersPageable`: page `page` of `size` customers in table
        order. `PageRequest.of` refuses a negative index and a size below
        one, in that order. */
    function GetAllCustomersPageable(page: int, size: int): (r: Result<Page<CustomerState>, Exception>)
      reads repository
      requires repository.Valid()
      ensures r.Failure? <==> page < 0 || size < 1
      ensures page < 0 ==> r == Failure(IllegalArgument(NegativePageMessage))
      ensures page >= 0 && size < 1 ==> r == Failure(IllegalArgument(SmallPageSizeMessage))
      ensures r.Success? ==> r.value == repository.FindAllCustomers(page, size)
      ensures r.Success? ==> |r.value.content| == PageLength(|repository.customers|, page, size)
      ensures r.Success? ==> |r.value.content| <= size
      ensures r.Success? && repository.customers == map[] ==> r.value.content == []
      ensures r.Success? ==> forall c :: c in r.value.content ==> c.id.Some? && c.id.value in repository.customers
      ensures r.Success? ==> (r.value.content == [] <==> page >= r.value.totalPages)
    {
      if page < 0 then Failure(IllegalArgument(NegativePageMessage))
      else if size < 1 then Failure(IllegalArgument(SmallPageSizeMessage))
      else Success(repository.FindAllCustomers(page, size))
    }

    /** `removeCustomer`: after parsing the id, the customer goes and so does
        every product it owns; every other product stays as it was. */
    method RemoveCustomer(customerId: string) returns (r: Outcome<Exception>)
      requires repository.Valid()
      modifies repository
      ensures repository.Valid()
      ensures Parse(customerId).None? ==>
        r == Fail(IllegalArgument(InvalidUuidMessage(customerId))) && unchanged(repository)
      ensures Parse(customerId).Some? ==>
        var id := Parse(customerId).value;
        r == Pass
        && repository.customers == old(repository.customers) - {id}
        && (forall k :: k in repository.products ==> repository.products[k].customer != Some(id))
        && (forall k :: k in old(repository.products) && old(repository.products)[k].customer != Some(id) ==>
              k in repository.products && repository.products[k] == old(repository.products)[k])
        && repository.ProductsOf(id) == []
        && repository.products == Cascade(old(repository.products), id)
        && repository.customerOrder == Restrict(old(repository.customerOrder), repository.customers.Keys)
        && repository.productOrder == Restrict(old(repository.productOrder), repository.products.Keys)
    {
      var parsed := Parse(customerId);
      if parsed.None? {
        return Fail(IllegalArgument(InvalidUuidMessage(customerId)));
      }
      repository.DeleteCustomerById(parsed.value);
      NoProductsOfUnknownOwner(repository, parsed.value);
      r := Pass;
    }

    /** `updateCustomer`: read, merge in place, save. A malformed id fails
        with the parse error and a missing customer with its own message,
        neither writing anything; otherwise the stored customer becomes the
        merge of the payload into it. */
    method UpdateCustomer(customerId: string, update: UpdateCustomerDto, now: Timestamp) returns (r: Result<Customer, Exception>)
      requires repository.Valid()
      modifies repository
      ensures repository.Valid()
      ensures Parse(customerId).None? ==>
        r == Failure(IllegalArgument(InvalidUuidMessage(customerId))) && unchanged(repository)
      ensures Parse(customerId).Some? && Parse(customerId).value !in old(repository.customers) ==>
        r == Failure(IllegalArgument(CustomerNotFoundMessage(customerId))) && unchanged(repository)
      ensures r.Success? <==> Parse(customerId).Some? && Parse(customerId).value in old(repository.customers)
      ensures r.Success? ==>
        var id := Parse(customerId).value;
        fresh(r.value)
        && r.value.State() == CustomerMapper.Merged(old(repository.LoadCustomerAt(id)), update, now)
        && repository.customers == old(repository.customers)[id := CustomerToRow(r.value.State()).value]
        && repository.customerOrder == old(repository.customerOrder)
      ensures repository.products == old(repository.products)
      ensures repository.productOrder == old(repository.productOrder)
    {
      var parsed := Parse(customerId);
      if parsed.None? {
        return Failure(IllegalArgument(InvalidUuidMessage(customerId)));
      }
      var found := repository.FindCustomerById(parsed.value);
      if found.None? {
        return Failure(IllegalArgument(CustomerNotFoundMessage(customerId)));
      }
      var customer := new Customer(found.value);
      customer := CustomerMapper.Merge(customer, update, now);
      CustomerMapper.MergeKeepsRowValid(found.value, update, now);
      r := repository.SaveCustomer(customer, parsed.value);
    }
  }

  class ProductManagerImpl {
    const repository: Database
    const customerManager: CustomerManagerImpl

    /** Both managers work on the one database. */
    ghost predicate Valid()
      reads repository
    {
      customerManager.repository == repository && repository.Valid()
    }

    constructor (repository: Database, customerManager: CustomerManagerImpl)
      requires customerManager.repository == repository
      ensures this.repository == repository && this.customerManager == customerManager
    {
      this.repository := repository;
      this.customerManager := customerManager;
    }

    /** `findProduct`: a malformed id fails with the parse error; a
        well-formed one gives the stored product, if any. */
    function FindProduct(productId: string): (r: Result<Option<ProductState>, Exception>)
      reads repository
      requires Valid()
      ensures r.Failure? <==> Parse(productId).None?
      ensures r.Failure? ==> r.error == IllegalArgument(InvalidUuidMessage(productId))
      ensures r.Success? ==> (r.value.Some? <==> Parse(productId).value in repository.products)
      ensures r.Success? && r.value.Some? ==>
        r.value.value.id == Parse(productId)
        && ProductToRow(r.value.value) == Success(repository.products[Parse(productId).value])
    {
      match Parse(productId)
      case None => Failure(IllegalArgument(InvalidUuidMessage(productId)))
      case Some(id) => Success(repository.FindProductById(id))
    }

    /** `updateProduct`: read, merge in place, save. A malformed id and a
        missing product fail without writing; a merge that leaves a column
        out of bounds is refused by the store, also without writing. */
    method UpdateProduct(productId: string, update: UpdateProductDto, now: Timestamp) returns (r: Result<Product, Exception>)
      requires Valid()
      modifies repository
      ensures Valid()
      ensures Parse(productId).None? ==>
        r == Failure(IllegalArgument(InvalidUuidMessage(productId))) && unchanged(repository)
      ensures Parse(productId).Some? && Parse(productId).value !in old(repository.products) ==>
        r == Failure(IllegalArgument(ProductNotFoundMessage(productId))) && unchanged(repository)
      ensures r.Failure? ==> unchanged(repository)
      ensures r.Success? <==>
        Parse(productId).Some? && Parse(productId).value in old(repository.products)
        && ProductToRow(ProductMapper.Merged(old(repository.FindProductById(Parse(productId).value)).value, update, now)).Success?
      ensures (Parse(productId).Some? && Parse(productId).value in old(repository.products)
               && ProductToRow(ProductMapper.Merged(old(repository.FindProductById(Parse(productId).value)).value, update, now)).Failure?) ==>
        r == Failure(ProductToRow(ProductMapper.Merged(old(repository.FindProductById(Parse(productId).value)).value, update, now)).error)
      ensures r.Success? ==>
        var id := Parse(productId).value;
        fresh(r.value)
        && r.value.State() == ProductMapper.Merged(old(repository.FindProductById(id)).value, update, now)
        && repository.products == old(repository.products)[id := ProductToRow(r.value.State()).value]
        && repository.productOrder == old(repository.productOrder)
      ensures repository.customers == old(repository.customers)
      ensures repository.customerOrder == old(repository.customerOrder)
    {
      var parsed := Parse(productId);
      if parsed.None? {
        return Failure(IllegalArgument(InvalidUuidMessage(productId)));
      }
      var found := repository.FindProductById(parsed.value);
      if found.None? {
        return Failure(IllegalArgument(ProductNotFoundMessage(productId)));
      }
      var product := new Product(found.value);
      product := ProductMapper.Merge(product, update, now);
      r := repository.SaveProduct(product, parsed.value);
    }

    /** `deleteProduct`: after parsing the id, the product goes. */
    method DeleteProduct(productId: string) returns (r: Outcome<Exception>)
      requires Valid()
      modifies repository
      ensures Valid()
      ensures Parse(productId).None? ==>
        r == Fail(IllegalArgument(InvalidUuidMessage(productId))) && unchanged(repository)
      ensures Parse(productId).Some? ==>
        r == Pass
        && repository.products == old(repository.products) - {Parse(productId).value}
        && repository.productOrder == Restrict(old(repository.productOrder), repository.products.Keys)
        && repository.customers == old(repository.customers)
        && repository.customerOrder == old(repository.customerOrder)
    {
      var parsed := Parse(productId);
      if parsed.None? {
        return Fail(IllegalArgument(InvalidUuidMessage(productId)));
      }
      repository.DeleteProductById(parsed.value);
      r := Pass;
    }

    /** `findAllCustomerProducts`: exactly the stored products whose owner is
        the given customer; an unknown customer has none. */
    function FindAllCustomerProducts(customerId: string): (r: Result<seq<ProductState>, Exception>)
      reads repository
      requires Valid()
      ensures r.Failure? <==> Parse(customerId).None?
      ensures r.Failure? ==> r.error == IllegalArgument(InvalidUuidMessage(customerId))
      ensures r.Success? ==> forall p :: p in r.value ==>
        p.customer == Parse(customerId) && p.id.Some? && p.id.value in repository.products
      ensures r.Success? ==> forall k :: k in repository.products ==>
        (LoadProduct(k, repository.products[k]) in r.value <==> repository.products[k].customer == Parse(customerId))
      ensures r.Success? && Parse(customerId).value !in repository.customers ==> r.value == []
    {
      match Parse(customerId)
      case None => Failure(IllegalArgument(InvalidUuidMessage(customerId)))
      case Some(id) =>
        assert forall k :: k in repository.products ==>
          (LoadProduct(k, repository.products[k]) in repository.ProductsOf(id) <==> repository.products[k].customer == Some(id)) by {
          forall k | k in repository.products
            ensures LoadProduct(k, repository.products[k]) in repository.ProductsOf(id) <==> repository.products[k].customer == Some(id)
          {
            OwnedExactly(repository.products, repository.productOrder, id, k);
          }
        }
        assert id !in repository.customers ==> repository.ProductsOf(id) == [] by {
          if id !in repository.customers {
            NoProductsOfUnknownOwner(repository, id);
          }
        }
        Success(repository.ProductsOf(id))
    }

    /** `createProductForCustomer`: the owner is looked up through the
        customer manager, so a malformed id fails with the parse error and a
        missing owner with its own message, neither touching the product or
        the store. Otherwise the owner and `createdAt` are set on the
        argument, which is saved; a new product is appended to its owner's
        list. */
    method CreateProductForCustomer(customerId: string, product: Product, now: Timestamp, newId: Uuid)
      returns (r: Result<Product, Exception>)
      requires Valid()
      modifies product, repository
      ensures Valid()
      ensures Parse(customerId).None? ==>
        r == Failure(IllegalArgument(InvalidUuidMessage(customerId))) && unchanged(product, repository)
      ensures Parse(customerId).Some? && Parse(customerId).value !in old(repository.customers) ==>
        r == Failure(IllegalArgument(NoCustomerMessage(customerId))) && unchanged(product, repository)
      ensures r.Failure? ==> unchanged(repository)
      ensures r.Success? <==>
        Parse(customerId).Some? && Parse(customerId).value in old(repository.customers)
        && ProductToRow(old(product.State()).(customer := Parse(customerId), createdAt := Some(now))).Success?
        && (old(product.id).Some? || newId !in old(repository.products))
      ensures (Parse(customerId).Some? && Parse(customerId).value in old(repository.customers)
               && ProductToRow(old(product.State()).(customer := Parse(customerId), createdAt := Some(now))).Failure?) ==>
        r == Failure(ProductToRow(old(product.State()).(customer := Parse(customerId), createdAt := Some(now))).error)
      ensures r.Success? ==>
        r.value == product && product.id.Some?
        && product.State() == old(product.State()).(id := product.id, customer := Parse(customerId), createdAt := Some(now))
        && repository.products == old(repository.products)[product.id.value := ProductToRow(product.State()).value]
      ensures r.Success? && old(product.id).None? ==>
        product.id == Some(newId)
        && repository.ProductsOf(Parse(customerId).value) == old(repository.ProductsOf(Parse(customerId).value)) + [product.State()]
      ensures r.Success? && product.id.value in old(repository.products) ==>
        repository.productOrder == old(repository.productOrder)
      ensures r.Success? && product.id.value !in old(repository.products) ==>
        repository.productOrder == old(repository.productOrder) + [product.id.value]
      ensures repository.customers == old(repository.customers)
      ensures repository.customerOrder == old(repository.customerOrder)
    {
      var found := customerManager.FindCustomer(customerId);
      if found.Failure? {
        return Failure(found.error);
      }
      if found.value.None? {
        return Failure(IllegalArgument(NoCustomerMessage(customerId)));
      }
      var owner := Parse(customerId).value;
      ghost var rows0, order0 := repository.products, repository.productOrder;
      product.customer := found.value.value.id;
      product.createdAt := Some(now);
      r := repository.SaveProduct(product, newId);
      if r.Success? && old(product.id).None? {
        var row := repository.products[newId];
        OwnedAppend(rows0, order0, newId, row, owner);
        ProductStateRoundTrip(product.State(), newId);
      }
    }
  }
}
