/** `ItemIdMapper.uuidToString` as MapStruct calls it for an `id` target with
    `nullValueCheckStrategy = ALWAYS`: a null id stays null. */
module ItemIdMapper {
  import opened Wrappers
  import opened Uuids

  function IdToString(id: Option<Uuid>): (r: Option<string>)
    ensures r.Some? <==> id.Some?
    ensures r.Some? ==> Parse(r.value) == id
  {
    match id
    case None => None
    case Some(u) => ParseFormat(u); Some(Format(u))
  }
}

/** ProductMapper: projections between Product and ProductDto, and the
    in-place partial update `merge`. */
module ProductMapper {
  import opened Wrappers
  import opened Uuids
  import opened Entities
  import opened Dtos
  import ItemIdMapper

  /** `toDto`: the id rendered as text, `deleted` as `isDeleted`, the rest
      copied; the owner is not part of the DTO. */
  function ToDto(m: ProductState): (d: ProductDto)
    ensures d.id.Some? <==> m.id.Some?
    ensures d.id.Some? ==> Parse(d.id.value) == m.id
    ensures d.title == m.title && d.description == m.description && d.price == m.price
    ensures d.isDeleted == m.deleted
    ensures d.createdAt == m.createdAt && d.modifiedAt == m.modifiedAt
  {
    ProductDto(ItemIdMapper.IdToString(m.id), m.title, m.description, m.price,
               m.deleted, m.createdAt, m.modifiedAt)
  }

  /** The element-wise `map(this::toDto)` of a non-null list. */
  function MapToDto(ms: seq<ProductState>): (r: seq<ProductDto>)
    ensures |r| == |ms|
    ensures forall i :: 0 <= i < |ms| ==> r[i] == ToDto(ms[i])
  {
    if ms == [] then [] else [ToDto(ms[0])] + MapToDto(ms[1..])
  }

  /** `toDtos`: `Stream.ofNullable(list)` makes a null list an empty one. */
  function ToDtos(list: Option<seq<ProductState>>): (r: seq<ProductDto>)
    ensures list.None? ==> r == []
    ensures list.Some? ==> |r| == |list.value|
    ensures list.Some? ==> forall i :: 0 <= i < |r| ==> r[i] == ToDto(list.value[i])
  {
    match list
    case None => []
    case Some(ms) => MapToDto(ms)
  }

  /** `toModel`: id, createdAt and modifiedAt are ignored and the DTO has no
      owner, so all four are null in the new object. */
  function ToModel(dto: ProductDto): (m: ProductState)
    ensures m.id.None? && m.customer.None? && m.createdAt.None? && m.modifiedAt.None?
    ensures m.title == dto.title && m.description == dto.description
    ensures m.price == dto.price && m.deleted == dto.isDeleted
  {
    ProductState(None, None, dto.title, dto.description, dto.price, dto.isDeleted, None, None)
  }

  /** What `merge` leaves in the target: title, description and price taken
      from the payload when non-null, `deleted` always taken, modifiedAt set
      to now; id, owner and createdAt untouched. */
  function Merged(target: ProductState, u: UpdateProductDto, now: Timestamp): ProductState {
    target.(
      title := if u.title.Some? then u.title else target.title,
      description := if u.description.Some? then u.description else target.description,
      price := if u.price.Some? then u.price else target.price,
      deleted := u.isDeleted,
      modifiedAt := Some(now))
  }

  /** `merge(@MappingTarget target, updateDto)`: writes the target's fields
      in place and returns the same object. */
  method Merge(target: Product, u: UpdateProductDto, now: Timestamp) returns (r: Product)
    modifies target
    ensures r == target
    ensures target.State() == Merged(old(target.State()), u, now)
  {
    if u.title.Some? {
      target.title := u.title;
    }
    if u.description.Some? {
      target.description := u.description;
    }
    if u.price.Some? {
      target.price := u.price;
    }
    target.isDeleted := u.isDeleted;
    target.modifiedAt := Some(now);
    r := target;
  }

  /** Merge never touches the identity, the owner or the creation time. */
  lemma MergeKeepsIdentity(t: ProductState, u: UpdateProductDto, now: Timestamp)
    ensures Merged(t, u, now).id == t.id
    ensures Merged(t, u, now).customer == t.customer
    ensures Merged(t, u, now).createdAt == t.createdAt
    ensures Merged(t, u, now).modifiedAt == Some(now)
  {
  }

  /** A non-null payload field wins; a null one keeps the old value; the
      primitive flag is copied either way. */
  lemma MergeTakesPresentFields(t: ProductState, u: UpdateProductDto, now: Timestamp)
    ensures u.title.Some? ==> Merged(t, u, now).title == u.title
    ensures u.title.None? ==> Merged(t, u, now).title == t.title
    ensures u.description.Some? ==> Merged(t, u, now).description == u.description
    ensures u.description.None? ==> Merged(t, u, now).description == t.description
    ensures u.price.Some? ==> Merged(t, u, now).price == u.price
    ensures u.price.None? ==> Merged(t, u, now).price == t.price
    ensures Merged(t, u, now).deleted == u.isDeleted
  {
  }

  /** Applying the same payload twice at the same time changes nothing more. */
  lemma MergeIdempotent(t: ProductState, u: UpdateProductDto, now: Timestamp)
    ensures Merged(Merged(t, u, now), u, now) == Merged(t, u, now)
  {
  }

  /** Merging a stored product keeps it storable unless the payload brings
      an over-long description or an over-precise price. */
  lemma MergeKeepsRowValid(t: ProductState, u: UpdateProductDto, now: Timestamp)
    requires ProductToRow(t).Success?
    requires u.description.Some? ==> |u.description.value| <= DescriptionLength
    requires u.price.Some? ==> PriceFits(u.price.value)
    ensures ProductToRow(Merged(t, u, now)).Success?
  {
  }

  /** The DTO round trip: what toModel keeps of toDto is everything but the
      fields it ignores. */
  lemma ToModelOfToDto(m: ProductState)
    ensures ToModel(ToDto(m)) == m.(id := None, customer := None, createdAt := None, modifiedAt := None)
  {
  }

  lemma ToDtoOfToModel(d: ProductDto)
    ensures ToDto(ToModel(d)) == d.(id := None, createdAt := None, modifiedAt := None)
  {
  }
}

/** CustomerMapper: projections between Customer and CustomerDto (the nested
    products go through ProductMapper) and the in-place `merge`. */
module CustomerMapper {
  import opened Wrappers
  import opened Uuids
  import opened Entities
  import opened Dtos
  import ItemIdMapper
  import ProductMapper

  /** `toDto` with the deletion flag carried over, as `ProductMapper.toDto`
      does: id as text, the rest copied, products through
      `ProductMapper.toDtos`, so a null product list becomes an empty one. */
  function ToDto(m: CustomerState): (d: CustomerDto)
    ensures d.id.Some? <==> m.id.Some?
    ensures d.id.Some? ==> Parse(d.id.value) == m.id
    ensures d.title == m.title && d.isDeleted == m.deleted
    ensures d.createdAt == m.createdAt && d.modifiedAt == m.modifiedAt
    ensures d.products == Some(ProductMapper.ToDtos(m.products))
    ensures m.products.None? ==> d.products == Some([])
    ensures m.products.Some? ==> |d.products.value| == |m.products.value|
    ensures m.products.Some? ==>
      forall i :: 0 <= i < |m.products.value| ==> d.products.value[i] == ProductMapper.ToDto(m.products.value[i])
  {
    CustomerDto(ItemIdMapper.IdToString(m.id), m.title, m.deleted, m.createdAt, m.modifiedAt,
                Some(ProductMapper.ToDtos(m.products)))
  }

  /** `toDto` with only the mappings the interface declares. The DTO's
      builder names the flag `isDeleted`, while the entity's getter
      `isDeleted()` names it `deleted`; with no `@Mapping` pairing the two,
      the flag keeps the builder's default. Everything else agrees with
      `ToDto`. */
  function ToDtoAsDeclared(m: CustomerState): (d: CustomerDto)
    ensures !d.isDeleted
    ensures d.(isDeleted := m.deleted) == ToDto(m)
  {
    CustomerDto(ItemIdMapper.IdToString(m.id), m.title, false, m.createdAt, m.modifiedAt,
                Some(ProductMapper.ToDtos(m.products)))
  }

  /** A deleted customer is shown as not deleted by the declared mapping and
      as deleted by `ToDto`. */
  lemma DeletedCustomerShownActive()
    ensures var m := CustomerState(None, Some("c"), true, None, None, None);
      ToDtoAsDeclared(m).isDeleted != m.deleted && ToDto(m).isDeleted == m.deleted
  {
  }

  function MapToDto(ms: seq<CustomerState>): (r: seq<CustomerDto>)
    ensures |r| == |ms|
    ensures forall i :: 0 <= i < |ms| ==> r[i] == ToDto(ms[i])
  {
    if ms == [] then [] else [ToDto(ms[0])] + MapToDto(ms[1..])
  }

  /** `toDtos`: element-wise, a null list gives an empty one. */
  function ToDtos(list: Option<seq<CustomerState>>): (r: seq<CustomerDto>)
    ensures list.None? ==> r == []
    ensures list.Some? ==> |r| == |list.value|
    ensures list.Some? ==> forall i :: 0 <= i < |r| ==> r[i] == ToDto(list.value[i])
  {
    match list
    case None => []
    case Some(ms) => MapToDto(ms)
  }

  /** `toModel`: id, createdAt, modifiedAt and products are ignored. */
  function ToModel(dto: CustomerDto): (m: CustomerState)
    ensures m.id.None? && m.createdAt.None? && m.modifiedAt.None? && m.products.None?
    ensures m.title == dto.title && m.deleted == dto.isDeleted
  {
    CustomerState(None, dto.title, dto.isDeleted, None, None, None)
  }

  /** What `merge` leaves in the target: title from the payload when
      non-null, `deleted` always from the payload, modifiedAt now. */
  function Merged(target: CustomerState, u: UpdateCustomerDto, now: Timestamp): CustomerState {
    target.(
      title := if u.title.Some? then u.title else target.title,
      deleted := u.isDeleted,
      modifiedAt := Some(now))
  }

  /** `merge(@MappingTarget target, updateDto)`, in place, returning the target. */
  method Merge(target: Customer, u: UpdateCustomerDto, now: Timestamp) returns (r: Customer)
    modifies target
    ensures r == target
    ensures target.State() == Merged(old(target.State()), u, now)
  {
    if u.title.Some? {
      target.title := u.title;
    }
    target.isDeleted := u.isDeleted;
    target.modifiedAt := Some(now);
    r := target;
  }

  lemma MergeKeepsIdentity(t: CustomerState, u: UpdateCustomerDto, now: Timestamp)
    ensures Merged(t, u, now).id == t.id
    ensures Merged(t, u, now).createdAt == t.createdAt
    ensures Merged(t, u, now).products == t.products
    ensures Merged(t, u, now).modifiedAt == Some(now)
  {
  }

  lemma MergeTakesPresentFields(t: CustomerState, u: UpdateCustomerDto, now: Timestamp)
    ensures u.title.Some? ==> Merged(t, u, now).title == u.title
    ensures u.title.None? ==> Merged(t, u, now).title == t.title
    ensures Merged(t, u, now).deleted == u.isDeleted
  {
  }

  /** A payload that omits isDeleted un-deletes the customer. */
  lemma MergeOmittedFlagClears(t: CustomerState, title: Option<string>, now: Timestamp)
    ensures !Merged(t, UpdateCustomerDto(title, false), now).deleted
  {
  }

  lemma MergeIdempotent(t: CustomerState, u: UpdateCustomerDto, now: Timestamp)
    ensures Merged(Merged(t, u, now), u, now) == Merged(t, u, now)
  {
  }

  /** Merge keeps a storable customer storable: it never nulls the title. */
  lemma MergeKeepsRowValid(t: CustomerState, u: UpdateCustomerDto, now: Timestamp)
    requires CustomerToRow(t).Success?
    ensures CustomerToRow(Merged(t, u, now)).Success?
  {
  }

  lemma ToModelOfToDto(m: CustomerState)
    ensures ToModel(ToDto(m)) == m.(id := None, createdAt := None, modifiedAt := None, products := None)
  {
  }
}
