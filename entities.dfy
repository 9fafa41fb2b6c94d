/** The two persisted entities, Customer and Product: their mutable Java
    objects (classes with setter-updated fields), value snapshots of those
    objects, the rows the database keeps, and the column constraints that
    decide whether an object can become a row. */
module Entities {
  import opened Wrappers
  import opened Uuids
  import opened Exceptions

  /** `java.sql.Timestamp`, as a point on an abstract clock. */
  type Timestamp = nat

  /** `BigDecimal` at scale 2, as a whole number of hundredths. */
  type Price = int

  /** `@Column(length = 1024)` on Product.description. */
  const DescriptionLength := 1024

  /** `precision = 10, scale = 2`: at most ten digits, two after the point,
      so at most 10^10 - 1 hundredths in absolute value. */
  const PriceBound := 10_000_000_000

  predicate PriceFits(p: Price) {
    -PriceBound < p < PriceBound
  }

  /** The field values of a Product object; `customer` is the owner's id,
      which is what the `customer_id` join column holds. */
  datatype ProductState = ProductState(
    id: Option<Uuid>,
    customer: Option<Uuid>,
    title: Option<string>,
    description: Option<string>,
    price: Option<Price>,
    deleted: bool,
    createdAt: Option<Timestamp>,
    modifiedAt: Option<Timestamp>)

  /** The field values of a Customer object; `products` is the inverse side
      of Product.customer and is filled in when the customer is loaded. */
  datatype CustomerState = CustomerState(
    id: Option<Uuid>,
    title: Option<string>,
    deleted: bool,
    createdAt: Option<Timestamp>,
    modifiedAt: Option<Timestamp>,
    products: Option<seq<ProductState>>)

  /** Lombok's `@EqualsAndHashCode` with `products` excluded. */
  predicate CustomerEquals(a: CustomerState, b: CustomerState) {
    a.id == b.id && a.title == b.title && a.deleted == b.deleted
    && a.createdAt == b.createdAt && a.modifiedAt == b.modifiedAt
  }

  lemma CustomerEqualsIgnoresProducts(a: CustomerState, b: CustomerState)
    ensures CustomerEquals(a, b) <==> a.(products := None) == b.(products := None)
  {
  }

  /** A stored customer row: the NOT NULL columns have non-null types. */
  datatype CustomerRow = CustomerRow(
    title: string,
    deleted: bool,
    createdAt: Timestamp,
    modifiedAt: Option<Timestamp>)

  /** A stored product row; `customer_id` is nullable in the schema. */
  datatype ProductRow = ProductRow(
    customer: Option<Uuid>,
    title: string,
    description: Option<string>,
    price: Price,
    deleted: bool,
    createdAt: Timestamp,
    modifiedAt: Option<Timestamp>)

  /** The checks the database applies beyond NOT NULL. */
  predicate ProductRowFits(r: ProductRow) {
    (r.description.Some? ==> |r.description.value| <= DescriptionLength)
    && PriceFits(r.price)
  }

  /** The message Hibernate puts in a PropertyValueException. */
  function NotNullMessage(entity: string, property: string): string {
    "not-null property references a null or transient value : com.bukkaa.appsmart.entity."
      + entity + "." + property
  }

  /** Turning a Customer object into a row: Hibernate's nullability check,
      properties in alphabetical order (createdAt before title). */
  function CustomerToRow(s: CustomerState): (r: Result<CustomerRow, Exception>)
    ensures r.Success? <==> s.title.Some? && s.createdAt.Some?
    ensures s.createdAt.None? ==> r == Failure(PropertyValue(NotNullMessage("Customer", "createdAt")))
    ensures s.createdAt.Some? && s.title.None? ==> r == Failure(PropertyValue(NotNullMessage("Customer", "title")))
  {
    if s.createdAt.None? then Failure(PropertyValue(NotNullMessage("Customer", "createdAt")))
    else if s.title.None? then Failure(PropertyValue(NotNullMessage("Customer", "title")))
    else Success(CustomerRow(s.title.value, s.deleted, s.createdAt.value, s.modifiedAt))
  }

  /** Turning a Product object into a row: the nullability check on
      createdAt, price and title (alphabetical order), then the length of the
      description and the precision of the price. */
  function ProductToRow(s: ProductState): (r: Result<ProductRow, Exception>)
    ensures r.Success? <==>
      s.createdAt.Some? && s.price.Some? && s.title.Some?
      && (s.description.Some? ==> |s.description.value| <= DescriptionLength)
      && PriceFits(s.price.value)
    ensures r.Success? ==> ProductRowFits(r.value)
    ensures s.createdAt.None? ==> r == Failure(PropertyValue(NotNullMessage("Product", "createdAt")))
    ensures s.createdAt.Some? && s.price.None? ==> r == Failure(PropertyValue(NotNullMessage("Product", "price")))
    ensures s.createdAt.Some? && s.price.Some? && s.title.None? ==> r == Failure(PropertyValue(NotNullMessage("Product", "title")))
  {
    if s.createdAt.None? then Failure(PropertyValue(NotNullMessage("Product", "createdAt")))
    else if s.price.None? then Failure(PropertyValue(NotNullMessage("Product", "price")))
    else if s.title.None? then Failure(PropertyValue(NotNullMessage("Product", "title")))
    else if s.description.Some? && |s.description.value| > DescriptionLength then Failure(DataIntegrity("description"))
    else if !PriceFits(s.price.value) then Failure(DataIntegrity("price"))
    else Success(ProductRow(s.customer, s.title.value, s.description, s.price.value,
                            s.deleted, s.createdAt.value, s.modifiedAt))
  }

  /** The Product object Hibernate materialises from a row. */
  function LoadProduct(id: Uuid, r: ProductRow): ProductState {
    ProductState(Some(id), r.customer, Some(r.title), r.description, Some(r.price),
                 r.deleted, Some(r.createdAt), r.modifiedAt)
  }

  /** The Customer object Hibernate materialises from a row, with its
      eagerly fetched products. */
  function LoadCustomer(id: Uuid, r: CustomerRow, products: seq<ProductState>): CustomerState {
    CustomerState(Some(id), Some(r.title), r.deleted, Some(r.createdAt), r.modifiedAt, Some(products))
  }

  /** Loading a stored row and saving it again writes the same row. */
  lemma ProductRowRoundTrip(id: Uuid, r: ProductRow)
    requires ProductRowFits(r)
    ensures ProductToRow(LoadProduct(id, r)) == Success(r)
  {
  }

  lemma CustomerRowRoundTrip(id: Uuid, r: CustomerRow, products: seq<ProductState>)
    ensures CustomerToRow(LoadCustomer(id, r, products)) == Success(r)
  {
  }

  /** Saving a state and loading it back gives the state with its id. */
  lemma ProductStateRoundTrip(s: ProductState, id: Uuid)
    requires ProductToRow(s).Success?
    ensures LoadProduct(id, ProductToRow(s).value) == s.(id := Some(id))
  {
  }

  lemma CustomerStateRoundTrip(s: CustomerState, id: Uuid, products: seq<ProductState>)
    requires CustomerToRow(s).Success?
    ensures LoadCustomer(id, CustomerToRow(s).value, products) == s.(id := Some(id), products := Some(products))
  {
  }

  /** The mutable Customer entity (Lombok `@Getter @Setter @NoArgsConstructor`). */
  class Customer {
    var id: Option<Uuid>
    var title: Option<string>
    var isDeleted: bool
    var createdAt: Option<Timestamp>
    var modifiedAt: Option<Timestamp>
    var products: Option<seq<ProductState>>

    /** A Customer object holding the given field values. */
    constructor (s: CustomerState)
      ensures State() == s
    {
      id, title, isDeleted := s.id, s.title, s.deleted;
      createdAt, modifiedAt, products := s.createdAt, s.modifiedAt, s.products;
    }

    function State(): CustomerState
      reads this
    {
      CustomerState(id, title, isDeleted, createdAt, modifiedAt, products)
    }
  }

  /** The mutable Product entity. */
  class Product {
    var id: Option<Uuid>
    var customer: Option<Uuid>
    var title: Option<string>
    var description: Option<string>
    var price: Option<Price>
    var isDeleted: bool
    var createdAt: Option<Timestamp>
    var modifiedAt: Option<Timestamp>

    /** A Product object holding the given field values. */
    constructor (s: ProductState)
      ensures State() == s
    {
      id, customer, title, description := s.id, s.customer, s.title, s.description;
      price, isDeleted, createdAt, modifiedAt := s.price, s.deleted, s.createdAt, s.modifiedAt;
    }

    function State(): ProductState
      reads this
    {
      ProductState(id, customer, title, description, price, isDeleted, createdAt, modifiedAt)
    }
  }
}
