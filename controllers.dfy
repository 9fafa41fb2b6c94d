/** HTTP responses as values: a status code and a body. */
module Http {
  import opened Dtos

  const OK := 200
  const BAD_REQUEST := 400
  const UNAUTHORIZED := 401
  const NOT_FOUND := 404

  datatype Body =
    | NoBody
    | Text(text: string)
    | CustomerJson(customer: CustomerDto)
    | CustomerListJson(customers: seq<CustomerDto>)
    | ProductJson(product: ProductDto)
    | ProductListJson(products: seq<ProductDto>)

  datatype Response = Response(status: int, body: Body)
}

/** ControllerExceptionHandler: the exceptions a controller lets escape,
    turned into responses whose body is the exception's message. */
module ControllerExceptionHandler {
  import opened Wrappers
  import opened Exceptions
  import opened Http

  /** The handler chosen for an exception; None when this advice has no
      handler for its type and the framework's default handling applies. */
  function Handle(e: Exception): (r: Option<Response>)
    ensures r.Some? <==> e.IllegalArgument? || e.PropertyValue? || e.MalformedJwt?
    ensures r.Some? ==> r.value.body == Text(e.message)
    ensures r.Some? ==> (r.value.status == UNAUTHORIZED <==> e.MalformedJwt?)
    ensures r.Some? ==> (r.value.status == BAD_REQUEST <==> !e.MalformedJwt?)
  {
    match e
    case IllegalArgument(message) => Some(Response(BAD_REQUEST, Text(message)))
    case PropertyValue(message) => Some(Response(BAD_REQUEST, Text(message)))
    case MalformedJwt(message) => Some(Response(UNAUTHORIZED, Text(message)))
    case _ => None
  }

  /** What reaches the client from a controller method that either returns a
      response or throws. */
  function Complete(r: Result<Response, Exception>): (resp: Option<Response>)
    ensures r.Success? ==> resp == Some(r.value)
    ensures r.Failure? && r.error.IllegalArgument? ==> resp == Some(Response(BAD_REQUEST, Text(r.error.message)))
  {
    match r
    case Success(response) => Some(response)
    case Failure(e) => Handle(e)
  }
}

/** The rule both paged list endpoints use to pick 404. */
module Paging {
  import opened Repositories

  /** 404 when the page has nothing on it or its index is past the count. */
  predicate PageMissing<T>(page: int, p: Page<T>) {
    p.content == [] || page > p.totalPages
  }

  /** On a page the store cuts, the index test never decides anything: the
      list endpoint answers 404 exactly when the page is empty. */
  lemma StorePageMissingIffEmpty<T>(page: nat, p: Page<T>)
    requires p.content != [] ==> page < p.totalPages
    ensures PageMissing(page, p) <==> p.content == []
  {
  }
}

/** CustomerController: status selection around the customer manager. */
module CustomerController {
  import opened Wrappers
  import opened Uuids
  import opened Entities
  import opened Exceptions
  import opened Dtos
  import opened Repositories
  import opened Managers
  import opened Http
  import opened Paging
  import ControllerExceptionHandler
  import CustomerMapper

  class CustomerController {
    const manager: CustomerManagerImpl

    constructor (manager: CustomerManagerImpl)
      ensures this.manager == manager
    {
      this.manager := manager;
    }

    /** `POST /api/v1/customers/`: no body gives 400 without touching the
        store; otherwise the created customer as a DTO, with a fresh id, the
        posted title and flag, `createdAt` now, no `modifiedAt` and an empty
        product list. */
    method CreateCustomer(dto: Option<CustomerDto>, now: Timestamp, newId: Uuid) returns (r: Result<Response, Exception>)
      requires manager.repository.Valid()
      modifies manager.repository
      ensures manager.repository.Valid()
      ensures dto.None? ==> r == Success(Response(BAD_REQUEST, NoBody)) && unchanged(manager.repository)
      ensures dto.Some? && dto.value.title.None? ==>
        ControllerExceptionHandler.Complete(r) == Some(Response(BAD_REQUEST, Text(NotNullMessage("Customer", "title"))))
        && unchanged(manager.repository)
      ensures r.Success? && dto.Some? ==>
        r.value.status == OK && r.value.body.CustomerJson?
        && var c := r.value.body.customer;
        c.id.Some? && Parse(c.id.value).Some? && Parse(c.id.value).value in manager.repository.customers
        && c.title == dto.value.title && c.isDeleted == dto.value.isDeleted
        && c.createdAt == Some(now) && c.modifiedAt.None? && c.products == Some([])
      ensures dto.Some? && dto.value.title.Some? && newId !in old(manager.repository.customers) ==> r.Success?
      ensures r.Success? && dto.Some? ==>
        manager.repository.customers == old(manager.repository.customers)[
          newId := CustomerToRow(CustomerMapper.ToModel(dto.value).(id := Some(newId), createdAt := Some(now))).value]
        && manager.repository.customerOrder == old(manager.repository.customerOrder) + [newId]
      ensures r.Failure? ==> unchanged(manager.repository)
      ensures manager.repository.products == old(manager.repository.products)
      ensures manager.repository.productOrder == old(manager.repository.productOrder)
    {
      if dto.None? {
        return Success(Response(BAD_REQUEST, NoBody));
      }
      var customer := new Customer(CustomerMapper.ToModel(dto.value));
      var created := manager.CreateCustomer(customer, now, newId);
      if created.Failure? {
        return Failure(created.error);
      }
      r := Success(Response(OK, CustomerJson(CustomerMapper.ToDto(created.value.State()))));
    }

    /** `GET /api/v1/customers/{customerId}`: 200 with the stored customer,
        404 when there is none, and the parse error as 400 for a malformed
        id. */
    function FindCustomer(customerId: string): (r: Result<Response, Exception>)
      reads manager.repository
      requires manager.repository.Valid()
      ensures Parse(customerId).None? ==>
        ControllerExceptionHandler.Complete(r) == Some(Response(BAD_REQUEST, Text(InvalidUuidMessage(customerId))))
      ensures Parse(customerId).Some? && Parse(customerId).value !in manager.repository.customers ==>
        r == Success(Response(NOT_FOUND, NoBody))
      ensures Parse(customerId).Some? && Parse(customerId).value in manager.repository.customers ==>
        r.Success? && r.value.status == OK && r.value.body.CustomerJson?
        && r.value.body.customer.id.Some? && Parse(r.value.body.customer.id.value) == Parse(customerId)
        && r.value.body.customer == CustomerMapper.ToDto(manager.repository.LoadCustomerAt(Parse(customerId).value))
    {
      match manager.FindCustomer(customerId)
      case Failure(e) => Failure(e)
      case Success(None) => Success(Response(NOT_FOUND, NoBody))
      case Success(Some(c)) => Success(Response(OK, CustomerJson(CustomerMapper.ToDto(c))))
    }

    /** `GET /api/v1/customers/?page=&size=`: an index or size that
        `PageRequest` refuses gives 400 with its message; otherwise 404 when
        the page is empty or past the page count, and 200 with the page
        mapped element by element. */
    function GetAllCustomersPageable(page: int, size: int): (r: Result<Response, Exception>)
      reads manager.repository
      requires manager.repository.Valid()
      ensures page < 0 ==>
        ControllerExceptionHandler.Complete(r) == Some(Response(BAD_REQUEST, Text(NegativePageMessage)))
      ensures page >= 0 && size < 1 ==>
        ControllerExceptionHandler.Complete(r) == Some(Response(BAD_REQUEST, Text(SmallPageSizeMessage)))
      ensures r.Success? <==> page >= 0 && size >= 1
      ensures r.Success? ==>
        (r.value.status == NOT_FOUND <==> manager.GetAllCustomersPageable(page, size).value.content == [])
      ensures r.Success? && r.value.status == NOT_FOUND ==> r.value.body == NoBody
      ensures r.Success? && r.value.status != NOT_FOUND ==>
        r.value.status == OK && r.value.body.CustomerListJson? && 0 < |r.value.body.customers| <= size
        && r.value.body.customers == CustomerMapper.ToDtos(Some(manager.GetAllCustomersPageable(page, size).value.content))
    {
      match manager.GetAllCustomersPageable(page, size)
      case Failure(e) => Failure(e)
      case Success(customersPage) =>
        StorePageMissingIffEmpty(page, customersPage);
        if PageMissing(page, customersPage) then Success(Response(NOT_FOUND, NoBody))
        else Success(Response(OK, CustomerListJson(CustomerMapper.ToDtos(Some(customersPage.content)))))
    }

    /** `PUT /api/v1/customers/{customerId}`: no body gives 400 without
        touching the store; a malformed id or a missing customer give 400
        with the manager's message; otherwise 200 with the merged customer. */
    method UpdateCustomer(customerId: string, dto: Option<UpdateCustomerDto>, now: Timestamp) returns (r: Result<Response, Exception>)
      requires manager.repository.Valid()
      modifies manager.repository
      ensures manager.repository.Valid()
      ensures dto.None? ==> r == Success(Response(BAD_REQUEST, NoBody)) && unchanged(manager.repository)
      ensures dto.Some? && Parse(customerId).None? ==>
        ControllerExceptionHandler.Complete(r) == Some(Response(BAD_REQUEST, Text(InvalidUuidMessage(customerId))))
        && unchanged(manager.repository)
      ensures dto.Some? && Parse(customerId).Some? && Parse(customerId).value !in old(manager.repository.customers) ==>
        ControllerExceptionHandler.Complete(r) == Some(Response(BAD_REQUEST, Text(CustomerNotFoundMessage(customerId))))
        && unchanged(manager.repository)
      ensures dto.Some? && Parse(customerId).Some? && Parse(customerId).value in old(manager.repository.customers) ==>
        var before := old(manager.repository.LoadCustomerAt(Parse(customerId).value));
        r.Success? && r.value.status == OK && r.value.body.CustomerJson?
        && var c := r.value.body.customer;
        c.id.Some? && Parse(c.id.value) == Parse(customerId)
        && c.title == (if dto.value.title.Some? then dto.value.title else before.title)
        && c.isDeleted == dto.value.isDeleted
        && c.createdAt == before.createdAt && c.modifiedAt == Some(now)
        && manager.repository.customers == old(manager.repository.customers)[
             Parse(customerId).value := CustomerToRow(CustomerMapper.Merged(before, dto.value, now)).value]
        && manager.repository.customerOrder == old(manager.repository.customerOrder)
      ensures manager.repository.products == old(manager.repository.products)
      ensures manager.repository.productOrder == old(manager.repository.productOrder)
    {
      if dto.None? {
        return Success(Response(BAD_REQUEST, NoBody));
      }
      var updated := manager.UpdateCustomer(customerId, dto.value, now);
      if updated.Failure? {
        return Failure(updated.error);
      }
      r := Success(Response(OK, CustomerJson(CustomerMapper.ToDto(updated.value.State()))));
    }

    /** `DELETE /api/v1/customers/{customerId}`: 200 with no body, whether or
        not the customer existed; a malformed id gives 400 with the parse
        error. */
    method RemoveCustomer(customerId: string) returns (r: Result<Response, Exception>)
      requires manager.repository.Valid()
      modifies manager.repository
      ensures manager.repository.Valid()
      ensures Parse(customerId).None? ==>
        ControllerExceptionHandler.Complete(r) == Some(Response(BAD_REQUEST, Text(InvalidUuidMessage(customerId))))
        && unchanged(manager.repository)
      ensures Parse(customerId).Some? ==>
        r == Success(Response(OK, NoBody))
        && Parse(customerId).value !in manager.repository.customers
        && manager.repository.ProductsOf(Parse(customerId).value) == []
        && manager.repository.customers == old(manager.repository.customers) - {Parse(customerId).value}
        && manager.repository.products == Cascade(old(manager.repository.products), Parse(customerId).value)
        && manager.repository.customerOrder == Restrict(old(manager.repository.customerOrder), manager.repository.customers.Keys)
        && manager.repository.productOrder == Restrict(old(manager.repository.productOrder), manager.repository.products.Keys)
    {
      var removed := manager.RemoveCustomer(customerId);
      if removed.Fail? {
        return Failure(removed.error);
      }
      r := Success(Response(OK, NoBody));
    }
  }
}

/** ProductController: status selection around the product manager. */
module ProductController {
  import opened Wrappers
  import opened Uuids
  import opened Entities
  import opened Exceptions
  import opened Dtos
  import opened Repositories
  import opened Managers
  import opened Http
  import opened Paging
  import ControllerExceptionHandler
  import ProductMapper

  class ProductController {
    const manager: ProductManagerImpl

    constructor (manager: ProductManagerImpl)
      ensures this.manager == manager
    {
      this.manager := manager;
    }

    /** `POST /api/v1/customers/{customerId}/products`: no body gives 400
        without touching the store; a malformed or unknown customer id gives
        400 with the manager's message; otherwise 200 with the new product,
        which carries the posted title, description, price and flag. */
    method CreateProductForCustomer(customerId: string, dto: Option<ProductDto>, now: Timestamp, newId: Uuid)
      returns (r: Result<Response, Exception>)
      requires manager.Valid()
      modifies manager.repository
      ensures manager.Valid()
      ensures dto.None? ==> r == Success(Response(BAD_REQUEST, NoBody)) && unchanged(manager.repository)
      ensures dto.Some? && Parse(customerId).None? ==>
        ControllerExceptionHandler.Complete(r) == Some(Response(BAD_REQUEST, Text(InvalidUuidMessage(customerId))))
        && unchanged(manager.repository)
      ensures dto.Some? && Parse(customerId).Some? && Parse(customerId).value !in old(manager.repository.customers) ==>
        ControllerExceptionHandler.Complete(r) == Some(Response(BAD_REQUEST, Text(NoCustomerMessage(customerId))))
        && unchanged(manager.repository)
      ensures dto.Some? ==>
        (r.Success? <==>
           Parse(customerId).Some? && Parse(customerId).value in old(manager.repository.customers)
           && newId !in old(manager.repository.products)
           && ProductToRow(ProductMapper.ToModel(dto.value).(customer := Parse(customerId), createdAt := Some(now))).Success?)
      ensures (dto.Some? && Parse(customerId).Some? && Parse(customerId).value in old(manager.repository.customers)
               && dto.value.price.None?) ==>
        ControllerExceptionHandler.Complete(r) == Some(Response(BAD_REQUEST, Text(NotNullMessage("Product", "price"))))
        && unchanged(manager.repository)
      ensures (dto.Some? && Parse(customerId).Some? && Parse(customerId).value in old(manager.repository.customers)
               && dto.value.price.Some? && dto.value.title.None?) ==>
        ControllerExceptionHandler.Complete(r) == Some(Response(BAD_REQUEST, Text(NotNullMessage("Product", "title"))))
        && unchanged(manager.repository)
      ensures r.Success? && dto.Some? ==>
        r.value.status == OK && r.value.body.ProductJson?
        && var p := r.value.body.product;
        p.id.Some? && Parse(p.id.value) == Some(newId)
        && p.title == dto.value.title && p.description == dto.value.description
        && p.price == dto.value.price && p.isDeleted == dto.value.isDeleted
        && p.createdAt == Some(now) && p.modifiedAt.None?
        && manager.repository.ProductsOf(Parse(customerId).value)
             == old(manager.repository.ProductsOf(Parse(customerId).value)) + [ProductMapper.ToModel(dto.value).(id := Some(newId), customer := Parse(customerId), createdAt := Some(now))]
      ensures r.Success? && dto.Some? ==>
        manager.repository.products == old(manager.repository.products)[
          newId := ProductToRow(ProductMapper.ToModel(dto.value).(id := Some(newId), customer := Parse(customerId), createdAt := Some(now))).value]
        && manager.repository.productOrder == old(manager.repository.productOrder) + [newId]
      ensures r.Failure? ==> unchanged(manager.repository)
      ensures manager.repository.customers == old(manager.repository.customers)
      ensures manager.repository.customerOrder == old(manager.repository.customerOrder)
    {
      if dto.None? {
        return Success(Response(BAD_REQUEST, NoBody));
      }
      var product := new Product(ProductMapper.ToModel(dto.value));
      ghost var stamped := product.State().(customer := Parse(customerId), createdAt := Some(now));
      assert product.id.None? && stamped.price == dto.value.price && stamped.title == dto.value.title;
      var created := manager.CreateProductForCustomer(customerId, product, now, newId);
      if created.Failure? {
        if Parse(customerId).Some? && Parse(customerId).value in old(manager.repository.customers)
           && ProductToRow(stamped).Failure? {
          NullColumnHandled(stamped, created.error);
        }
        return Failure(created.error);
      }
      r := Success(Response(OK, ProductJson(ProductMapper.ToDto(created.value.State()))));
    }

    /** A product that a missing price or title keeps out of the store is
        answered with 400 and the not-null message naming that column. */
    static lemma NullColumnHandled(stamped: ProductState, error: Exception)
      requires stamped.createdAt.Some? && ProductToRow(stamped).Failure? && error == ProductToRow(stamped).error
      ensures stamped.price.None? ==>
        ControllerExceptionHandler.Complete(Failure(error)) == Some(Response(BAD_REQUEST, Text(NotNullMessage("Product", "price"))))
      ensures stamped.price.Some? && stamped.title.None? ==>
        ControllerExceptionHandler.Complete(Failure(error)) == Some(Response(BAD_REQUEST, Text(NotNullMessage("Product", "title"))))
    {
    }

    /** `GET /api/v1/customers/{customerId}/products?page=&size=`: 404 when
        the page is empty or past the page count; otherwise 200 with the
        page mapped element by element. The page is given, since the paged
        manager method it comes from is not declared. */
    function FindAllCustomerProducts(page: int, productsPage: Page<ProductState>): (r: Response)
      ensures r.status == NOT_FOUND <==> productsPage.content == [] || page > productsPage.totalPages
      ensures r.status == NOT_FOUND ==> r.body == NoBody
      ensures r.status != NOT_FOUND ==>
        r.status == OK && r.body.ProductListJson?
        && |r.body.products| == |productsPage.content|
        && forall i :: 0 <= i < |r.body.products| ==> r.body.products[i] == ProductMapper.ToDto(productsPage.content[i])
    {
      if PageMissing(page, productsPage) then Response(NOT_FOUND, NoBody)
      else Response(OK, ProductListJson(ProductMapper.ToDtos(Some(productsPage.content))))
    }

    /** `PUT /api/v1/products/{productId}`: no body gives 400 without touching
        the store; a malformed id or a missing product give 400 with the
        manager's message; otherwise 200 with the merged product. */
    method UpdateProduct(productId: string, dto: Option<UpdateProductDto>, now: Timestamp) returns (r: Result<Response, Exception>)
      requires manager.Valid()
      modifies manager.repository
      ensures manager.Valid()
      ensures dto.None? ==> r == Success(Response(BAD_REQUEST, NoBody)) && unchanged(manager.repository)
      ensures dto.Some? && Parse(productId).None? ==>
        ControllerExceptionHandler.Complete(r) == Some(Response(BAD_REQUEST, Text(InvalidUuidMessage(productId))))
        && unchanged(manager.repository)
      ensures dto.Some? && Parse(productId).Some? && Parse(productId).value !in old(manager.repository.products) ==>
        ControllerExceptionHandler.Complete(r) == Some(Response(BAD_REQUEST, Text(ProductNotFoundMessage(productId))))
        && unchanged(manager.repository)
      ensures dto.Some? && Parse(productId).Some? && Parse(productId).value in old(manager.repository.products) ==>
        (r.Success? <==>
           ProductToRow(ProductMapper.Merged(old(manager.repository.FindProductById(Parse(productId).value)).value, dto.value, now)).Success?)
      ensures dto.Some? && Parse(productId).Some? && Parse(productId).value in old(manager.repository.products) && r.Success? ==>
        var before := old(manager.repository.FindProductById(Parse(productId).value)).value;
        r.value.status == OK && r.value.body.ProductJson?
        && var p := r.value.body.product;
        p.id.Some? && Parse(p.id.value) == Parse(productId)
        && p.title == (if dto.value.title.Some? then dto.value.title else before.title)
        && p.description == (if dto.value.description.Some? then dto.value.description else before.description)
        && p.price == (if dto.value.price.Some? then dto.value.price else before.price)
        && p.isDeleted == dto.value.isDeleted
        && p.createdAt == before.createdAt && p.modifiedAt == Some(now)
        && manager.repository.products == old(manager.repository.products)[
             Parse(productId).value := ProductToRow(ProductMapper.Merged(before, dto.value, now)).value]
        && manager.repository.productOrder == old(manager.repository.productOrder)
      ensures r.Failure? ==> unchanged(manager.repository)
      ensures manager.repository.customers == old(manager.repository.customers)
      ensures manager.repository.customerOrder == old(manager.repository.customerOrder)
    {
      if dto.None? {
        return Success(Response(BAD_REQUEST, NoBody));
      }
      var updated := manager.UpdateProduct(productId, dto.value, now);
      if updated.Failure? {
        return Failure(updated.error);
      }
      r := Success(Response(OK, ProductJson(ProductMapper.ToDto(updated.value.State()))));
    }

    /** `GET /api/v1/products/{productId}`: 200 with the stored product, 404
        when there is none, the parse error as 400 for a malformed id. */
    function FindProduct(productId: string): (r: Result<Response, Exception>)
      reads manager.repository
      requires manager.Valid()
      ensures Parse(productId).None? ==>
        ControllerExceptionHandler.Complete(r) == Some(Response(BAD_REQUEST, Text(InvalidUuidMessage(productId))))
      ensures Parse(productId).Some? && Parse(productId).value !in manager.repository.products ==>
        r == Success(Response(NOT_FOUND, NoBody))
      ensures Parse(productId).Some? && Parse(productId).value in manager.repository.products ==>
        r.Success? && r.value.status == OK && r.value.body.ProductJson?
        && r.value.body.product.id.Some? && Parse(r.value.body.product.id.value) == Parse(productId)
        && r.value.body.product == ProductMapper.ToDto(manager.repository.FindProductById(Parse(productId).value).value)
    {
      match manager.FindProduct(productId)
      case Failure(e) => Failure(e)
      case Success(None) => Success(Response(NOT_FOUND, NoBody))
      case Success(Some(p)) => Success(Response(OK, ProductJson(ProductMapper.ToDto(p))))
    }

    /** `DELETE /api/v1/products/{productId}`: 200 with no body; a malformed
        id gives 400 with the parse error. */
    method DeleteProduct(productId: string) returns (r: Result<Response, Exception>)
      requires manager.Valid()
      modifies manager.repository
      ensures manager.Valid()
      ensures Parse(productId).None? ==>
        ControllerExceptionHandler.Complete(r) == Some(Response(BAD_REQUEST, Text(InvalidUuidMessage(productId))))
        && unchanged(manager.repository)
      ensures Parse(productId).Some? ==>
        r == Success(Response(OK, NoBody)) && Parse(productId).value !in manager.repository.products
        && manager.repository.products == old(manager.repository.products) - {Parse(productId).value}
        && manager.repository.productOrder == Restrict(old(manager.repository.productOrder), manager.repository.products.Keys)
      ensures manager.repository.customers == old(manager.repository.customers)
      ensures manager.repository.customerOrder == old(manager.repository.customerOrder)
    {
      var deleted := manager.DeleteProduct(productId);
      if deleted.Fail? {
        return Failure(deleted.error);
      }
      r := Success(Response(OK, NoBody));
    }
  }
}
