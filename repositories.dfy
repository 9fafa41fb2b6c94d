/** The in-memory stand-in for CustomerRepository and ProductRepository: one
    database holding both tables as maps from id to row, each with the order
    in which rows were inserted (the order pages are cut from). The
    `products` collection of a customer is not stored: it is the inverse of
    the `customer_id` column and is computed when a customer is loaded. */
module Repositories {
  import opened Wrappers
  import opened Uuids
  import opened Entities
  import opened Exceptions

  /** A page of a larger ordered result: its content and the number of
      pages the whole result has. */
  datatype Page<T> = Page(content: seq<T>, totalPages: nat)

  predicate Distinct(s: seq<Uuid>) {
    forall i, j :: 0 <= i < j < |s| ==> s[i] != s[j]
  }

  /** `order` lists every key of `m` exactly once. */
  ghost predicate Indexes<V>(m: map<Uuid, V>, order: seq<Uuid>) {
    Distinct(order) && forall k :: k in m <==> k in order
  }

  /** The elements of `order` that belong to `keys`, in their order. */
  function Restrict(order: seq<Uuid>, keys: set<Uuid>): (r: seq<Uuid>)
    ensures forall k :: k in r <==> k in order && k in keys
    ensures |r| <= |order|
    ensures Distinct(order) ==> Distinct(r)
    ensures (forall k :: k in order ==> k in keys) ==> r == order
  {
    if order == [] then []
    else
      var init, last := order[..|order| - 1], order[|order| - 1];
      var rest := Restrict(init, keys);
      assert Distinct(order) ==> last !in init && Distinct(init) by {
        if Distinct(order) {
          DistinctSplit(order);
        }
      }
      if last in keys then rest + [last] else rest
  }

  /** Restricting keeps the surviving ids in their old order: it distributes
      over concatenation, so whatever stood before an id still stands before
      it. */
  lemma {:induction false} RestrictConcat(a: seq<Uuid>, b: seq<Uuid>, keys: set<Uuid>)
    ensures Restrict(a + b, keys) == Restrict(a, keys) + Restrict(b, keys)
    decreases |b|
  {
    if b == [] {
      assert a + b == a;
    } else {
      assert (a + b)[..|a + b| - 1] == a + b[..|b| - 1];
      assert (a + b)[|a + b| - 1] == b[|b| - 1];
      RestrictConcat(a, b[..|b| - 1], keys);
    }
  }

  /** An id that survives keeps its neighbours on either side. */
  lemma RestrictAround(a: seq<Uuid>, x: Uuid, b: seq<Uuid>, keys: set<Uuid>)
    requires x in keys
    ensures Restrict(a + [x] + b, keys) == Restrict(a, keys) + [x] + Restrict(b, keys)
  {
    RestrictConcat(a + [x], b, keys);
    RestrictConcat(a, [x], keys);
    assert Restrict([x], keys) == [x] by {
      assert [x][..0] == [];
    }
  }

  /** The products listed in `order` whose owner is `owner`, in that order,
      as Hibernate materialises them. */
  function Owned(rows: map<Uuid, ProductRow>, order: seq<Uuid>, owner: Uuid): (r: seq<ProductState>)
    requires forall k :: k in order ==> k in rows
    ensures |r| <= |order|
    ensures forall p :: p in r ==>
      p.id.Some? && p.id.value in order && p == LoadProduct(p.id.value, rows[p.id.value])
      && p.customer == Some(owner)
  {
    if order == [] then []
    else
      var init, last := order[..|order| - 1], order[|order| - 1];
      var rest := Owned(rows, init, owner);
      if rows[last].customer == Some(owner) then rest + [LoadProduct(last, rows[last])] else rest
  }

  /** A product listed in `order` is among the products of `owner` exactly
      when its row names `owner`: the two sides of the relation agree. */
  lemma {:induction false} OwnedExactly(rows: map<Uuid, ProductRow>, order: seq<Uuid>, owner: Uuid, k: Uuid)
    requires forall k :: k in order ==> k in rows
    requires k in order
    ensures LoadProduct(k, rows[k]) in Owned(rows, order, owner) <==> rows[k].customer == Some(owner)
  {
    var init, last := order[..|order| - 1], order[|order| - 1];
    if k != last {
      assert k in init by {
        var i :| 0 <= i < |order| && order[i] == k;
        assert init[i] == k;
      }
      OwnedExactly(rows, init, owner, k);
    }
  }

  /** An owner that no listed row names has no products. */
  lemma {:induction false} OwnedNone(rows: map<Uuid, ProductRow>, order: seq<Uuid>, owner: Uuid)
    requires forall k :: k in order ==> k in rows && rows[k].customer != Some(owner)
    ensures Owned(rows, order, owner) == []
  {
    if order != [] {
      OwnedNone(rows, order[..|order| - 1], owner);
    }
  }

  /** Rows outside `order` do not matter to the products of an owner. */
  lemma {:induction false} OwnedFrame(rows: map<Uuid, ProductRow>, rows': map<Uuid, ProductRow>, order: seq<Uuid>, owner: Uuid)
    requires forall k :: k in order ==> k in rows && k in rows' && rows[k] == rows'[k]
    ensures Owned(rows, order, owner) == Owned(rows', order, owner)
  {
    if order != [] {
      OwnedFrame(rows, rows', order[..|order| - 1], owner);
    }
  }

  /** Appending a product to the table appends it to its owner's list and
      leaves every other owner's list as it was. */
  lemma OwnedAppend(rows: map<Uuid, ProductRow>, order: seq<Uuid>, k: Uuid, row: ProductRow, owner: Uuid)
    requires forall j :: j in order ==> j in rows
    requires k !in order
    ensures Owned(rows[k := row], order + [k], owner) ==
      Owned(rows, order, owner) + (if row.customer == Some(owner) then [LoadProduct(k, row)] else [])
  {
    assert (order + [k])[..|order|] == order;
    OwnedFrame(rows, rows[k := row], order, owner);
  }

  /** How many of `total` rows the page with index `page` holds: a full
      page, the remainder on the last one, none past the end. */
  function PageLength(total: nat, page: nat, size: nat): nat
  {
    if page * size < total then
      (if size < total - page * size then size else total - page * size)
    else 0
  }

  /** The page with index `page` of a table listed in `order`. */
  function PageOf(order: seq<Uuid>, page: nat, size: nat): (r: seq<Uuid>)
    requires size > 0
    ensures |r| == PageLength(|order|, page, size)
    ensures |r| <= size
    ensures order == [] ==> r == []
    ensures forall i :: 0 <= i < |r| ==> page * size + i < |order| && r[i] == order[page * size + i]
  {
    var from := if page * size < |order| then page * size else |order|;
    var to := if from + size < |order| then from + size else |order|;
    order[from..to]
  }

  /** Spring's page count: the number of pages of `size` it takes to hold
      `total` elements. */
  function TotalPages(total: nat, size: nat): nat
    requires size > 0
  {
    (total + size - 1) / size
  }

  /** The page count is the least number of pages that holds everything. */
  lemma TotalPagesBounds(total: nat, size: nat)
    requires size > 0
    ensures TotalPages(total, size) * size >= total
    ensures TotalPages(total, size) == 0 || (TotalPages(total, size) - 1) * size < total
  {
  }

  /** A page with anything on it has an index below the page count. */
  lemma NonEmptyPageInRange(order: seq<Uuid>, page: nat, size: nat)
    requires size > 0
    requires PageOf(order, page, size) != []
    ensures page < TotalPages(|order|, size)
  {
    var n := TotalPages(|order|, size);
    TotalPagesBounds(|order|, size);
    assert page * size < |order|;
    if page >= n {
      assert page * size >= n * size by {
        MultiplyMonotone(n, page, size);
      }
    }
  }

  /** A page is empty exactly when its index is not below the page count. */
  lemma PageEmptyIff(order: seq<Uuid>, page: nat, size: nat)
    requires size > 0
    ensures PageOf(order, page, size) == [] <==> page >= TotalPages(|order|, size)
  {
    var n := TotalPages(|order|, size);
    if PageOf(order, page, size) != [] {
      NonEmptyPageInRange(order, page, size);
    }
    if page < n {
      TotalPagesBounds(|order|, size);
      MultiplyMonotone(page, n - 1, size);
      assert page * size < |order|;
    }
  }

  lemma MultiplyMonotone(a: nat, b: nat, c: nat)
    requires a <= b
    ensures a * c <= b * c
  {
  }

  /** The customers and products tables. */
  class Database {
    var customers: map<Uuid, CustomerRow>
    var customerOrder: seq<Uuid>
    var products: map<Uuid, ProductRow>
    var productOrder: seq<Uuid>

    /** Both tables are indexed by their order, every stored product fits
        its columns, and every `customer_id` names a stored customer. */
    ghost predicate Valid()
      reads this
    {
      Indexes(customers, customerOrder) && Indexes(products, productOrder)
      && (forall k :: k in products ==> ProductRowFits(products[k]))
      && (forall k :: k in products && products[k].customer.Some? ==> products[k].customer.value in customers)
    }

    /** An empty database. */
    constructor ()
      ensures Valid()
      ensures customers == map[] && customerOrder == []
      ensures products == map[] && productOrder == []
    {
      customers, customerOrder := map[], [];
      products, productOrder := map[], [];
    }

    /** `Customer.products` and `findAllProductsByCustomerId`: the stored
        products whose `customer_id` is `owner`, in table order. */
    function ProductsOf(owner: Uuid): (r: seq<ProductState>)
      reads this
      requires Valid()
      ensures forall p :: p in r ==>
        p.customer == Some(owner) && p.id.Some? && p.id.value in products
        && ProductToRow(p) == Success(products[p.id.value])
    {
      var r := Owned(products, productOrder, owner);
      assert forall p :: p in r ==> p.id.Some? && p.id.value in products && ProductToRow(p) == Success(products[p.id.value]) by {
        forall p | p in r
          ensures p.id.Some? && p.id.value in products && ProductToRow(p) == Success(products[p.id.value])
        {
          ProductRowRoundTrip(p.id.value, products[p.id.value]);
        }
      }
      r
    }

    /** The stored customer with id `id`, with its products. */
    function LoadCustomerAt(id: Uuid): (c: CustomerState)
      reads this
      requires Valid() && id in customers
      ensures c.id == Some(id) && CustomerToRow(c) == Success(customers[id])
      ensures c.products == Some(ProductsOf(id))
    {
      CustomerRowRoundTrip(id, customers[id], ProductsOf(id));
      LoadCustomer(id, customers[id], ProductsOf(id))
    }

    /** `CustomerRepository.findById`. */
    function FindCustomerById(id: Uuid): (r: Option<CustomerState>)
      reads this
      requires Valid()
      ensures r.Some? <==> id in customers
      ensures r.Some? ==> r.value.id == Some(id) && CustomerToRow(r.value) == Success(customers[id])
      ensures r.Some? ==> r.value.products == Some(ProductsOf(id))
    {
      if id in customers then Some(LoadCustomerAt(id)) else None
    }

    /** `ProductRepository.findById`. */
    function FindProductById(id: Uuid): (r: Option<ProductState>)
      reads this
      requires Valid()
      ensures r.Some? <==> id in products
      ensures r.Some? ==> r.value.id == Some(id) && ProductToRow(r.value) == Success(products[id])
    {
      if id in products then
        ProductRowRoundTrip(id, products[id]);
        Some(LoadProduct(id, products[id]))
      else None
    }

    /** `CustomerRepository.findAll(PageRequest.of(page, size))`, unsorted:
        rows in table order. */
    function FindAllCustomers(page: nat, size: nat): (r: Page<CustomerState>)
      reads this
      requires Valid() && size > 0
      ensures |r.content| == PageLength(|customers|, page, size)
      ensures |r.content| <= size
      ensures customers == map[] ==> r.content == []
      ensures forall i :: 0 <= i < |r.content| ==>
        page * size + i < |customerOrder| && r.content[i] == LoadCustomerAt(customerOrder[page * size + i])
      ensures forall c :: c in r.content ==> c.id.Some? && c.id.value in customers
      ensures r.totalPages == TotalPages(|customers|, size)
      ensures r.content == [] <==> page >= r.totalPages
    {
      var content := CustomersOnPage(page, size);
      assert |customers| == |customerOrder| by {
        DistinctCardinality(customers, customerOrder);
      }
      PageEmptyIff(customerOrder, page, size);
      Page(content, TotalPages(|customers|, size))
    }

    /** The content of page `page`: the customers at positions
        `page * size` up to `page * size + size` of the table. */
    function CustomersOnPage(page: nat, size: nat): (r: seq<CustomerState>)
      reads this
      requires Valid() && size > 0
      ensures |r| == |PageOf(customerOrder, page, size)|
      ensures forall i :: 0 <= i < |r| ==>
        page * size + i < |customerOrder| && r[i] == LoadCustomerAt(customerOrder[page * size + i])
      ensures forall c :: c in r ==> c.id.Some? && c.id.value in customers
    {
      var ids := PageOf(customerOrder, page, size);
      assert forall k :: k in ids ==> k in customers by {
        forall k | k in ids
          ensures k in customers
        {
          var i :| 0 <= i < |ids| && ids[i] == k;
          assert customerOrder[page * size + i] == k;
        }
      }
      LoadCustomers(ids)
    }

    /** The stored customers with the given ids, in that order. */
    function LoadCustomers(ids: seq<Uuid>): (r: seq<CustomerState>)
      reads this
      requires Valid() && forall k :: k in ids ==> k in customers
      ensures |r| == |ids|
      ensures forall i :: 0 <= i < |ids| ==> r[i] == LoadCustomerAt(ids[i])
      ensures forall c :: c in r ==> c.id.Some? && c.id.value in customers
    {
      if ids == [] then []
      else LoadCustomers(ids[..|ids| - 1]) + [LoadCustomerAt(ids[|ids| - 1])]
    }

    /** `save` of a Customer: a customer without an id is inserted under the
        generated `newId` and the object receives that id; one with an id
        overwrites (or inserts) the row under it. A null in a NOT NULL column
        and a generated id already in use are refused, with nothing
        written. The products collection is the inverse side and is not
        written. */
    method SaveCustomer(c: Customer, newId: Uuid) returns (r: Result<Customer, Exception>)
      requires Valid()
      modifies this, c
      ensures Valid()
      ensures products == old(products) && productOrder == old(productOrder)
      ensures CustomerToRow(old(c.State())).Failure? ==>
        r == Failure(CustomerToRow(old(c.State())).error) && unchanged(this, c)
      ensures CustomerToRow(old(c.State())).Success? && old(c.id).None? && newId in old(customers) ==>
        r == Failure(DataIntegrity("customers.id")) && unchanged(this, c)
      ensures r.Success? <==>
        CustomerToRow(old(c.State())).Success? && (old(c.id).Some? || newId !in old(customers))
      ensures r.Success? ==> r.value == c && c.id == Some(if old(c.id).Some? then old(c.id).value else newId)
      ensures r.Success? ==> c.State() == old(c.State()).(id := c.id)
      ensures r.Success? ==> customers == old(customers)[c.id.value := CustomerToRow(c.State()).value]
      ensures r.Success? && c.id.value in old(customers) ==> customerOrder == old(customerOrder)
      ensures r.Success? && c.id.value !in old(customers) ==> customerOrder == old(customerOrder) + [c.id.value]
    {
      var row := CustomerToRow(c.State());
      if row.Failure? {
        return Failure(row.error);
      }
      var id: Uuid;
      if c.id.Some? {
        id := c.id.value;
      } else if newId in customers {
        return Failure(DataIntegrity("customers.id"));
      } else {
        id := newId;
      }
      c.id := Some(id);
      if id !in customers {
        customerOrder := customerOrder + [id];
      }
      customers := customers[id := row.value];
      r := Success(c);
    }

    /** `save` of a Product, as SaveCustomer; besides the column checks, a
        `customer_id` that names no stored customer is refused. */
    method SaveProduct(p: Product, newId: Uuid) returns (r: Result<Product, Exception>)
      requires Valid()
      modifies this, p
      ensures Valid()
      ensures customers == old(customers) && customerOrder == old(customerOrder)
      ensures ProductToRow(old(p.State())).Failure? ==>
        r == Failure(ProductToRow(old(p.State())).error) && unchanged(this, p)
      ensures ProductToRow(old(p.State())).Success? && old(p.customer).Some? && old(p.customer).value !in customers ==>
        r == Failure(DataIntegrity("products.customer_id")) && unchanged(this, p)
      ensures r.Success? <==>
        ProductToRow(old(p.State())).Success?
        && (old(p.customer).Some? ==> old(p.customer).value in customers)
        && (old(p.id).Some? || newId !in old(products))
      ensures r.Failure? ==> unchanged(this, p)
      ensures r.Success? ==> r.value == p && p.id == Some(if old(p.id).Some? then old(p.id).value else newId)
      ensures r.Success? ==> p.State() == old(p.State()).(id := p.id)
      ensures r.Success? ==> products == old(products)[p.id.value := ProductToRow(p.State()).value]
      ensures r.Success? && p.id.value in old(products) ==> productOrder == old(productOrder)
      ensures r.Success? && p.id.value !in old(products) ==> productOrder == old(productOrder) + [p.id.value]
    {
      var row := ProductToRow(p.State());
      if row.Failure? {
        return Failure(row.error);
      }
      if p.customer.Some? && p.customer.value !in customers {
        return Failure(DataIntegrity("products.customer_id"));
      }
      var id: Uuid;
      if p.id.Some? {
        id := p.id.value;
      } else if newId in products {
        return Failure(DataIntegrity("products.id"));
      } else {
        id := newId;
      }
      p.id := Some(id);
      if id !in products {
        productOrder := productOrder + [id];
      }
      products := products[id := row.value];
      r := Success(p);
    }

    /** `CustomerRepository.deleteById`: the row goes, and with it, through
        `cascade = REMOVE` and `orphanRemoval`, every product it owns. */
    method DeleteCustomerById(id: Uuid)
      requires Valid()
      modifies this
      ensures Valid()
      ensures customers == old(customers) - {id}
      ensures products == Cascade(old(products), id)
      ensures customerOrder == Restrict(old(customerOrder), customers.Keys)
      ensures productOrder == Restrict(old(productOrder), products.Keys)
    {
      ghost var customers0, products0 := customers, products;
      customers := customers - {id};
      products := Cascade(products, id);
      RestrictIndexes(customers0, customerOrder, customers);
      RestrictIndexes(products0, productOrder, products);
      customerOrder := Restrict(customerOrder, customers.Keys);
      productOrder := Restrict(productOrder, products.Keys);
    }

    /** `ProductRepository.deleteById`. */
    method DeleteProductById(id: Uuid)
      requires Valid()
      modifies this
      ensures Valid()
      ensures customers == old(customers) && customerOrder == old(customerOrder)
      ensures products == old(products) - {id}
      ensures productOrder == Restrict(old(productOrder), products.Keys)
    {
      ghost var products0 := products;
      products := products - {id};
      RestrictIndexes(products0, productOrder, products);
      productOrder := Restrict(productOrder, products.Keys);
    }
  }

  /** The product rows that survive deleting customer `id`: exactly the
      ones it does not own, each unchanged. */
  function Cascade(products: map<Uuid, ProductRow>, id: Uuid): (r: map<Uuid, ProductRow>)
    ensures r.Keys <= products.Keys
    ensures forall k :: k in r ==> r[k] == products[k] && r[k].customer != Some(id)
    ensures forall k :: k in products && products[k].customer != Some(id) ==> k in r
  {
    map k | k in products && products[k].customer != Some(id) :: products[k]
  }

  /** The last element of a distinct sequence is not among the others. */
  lemma DistinctSplit(order: seq<Uuid>)
    requires Distinct(order) && order != []
    ensures order[|order| - 1] !in order[..|order| - 1]
    ensures Distinct(order[..|order| - 1])
  {
    var init := order[..|order| - 1];
    forall i | 0 <= i < |init|
      ensures init[i] != order[|order| - 1]
    {
      assert init[i] == order[i];
    }
  }

  /** Keeping the part of a listing that a smaller map still holds lists
      that map. */
  lemma RestrictIndexes<V>(m: map<Uuid, V>, order: seq<Uuid>, m': map<Uuid, V>)
    requires Indexes(m, order) && m'.Keys <= m.Keys
    ensures Indexes(m', Restrict(order, m'.Keys))
  {
  }

  /** A distinct listing of a map's keys is as long as the map. */
  lemma {:induction false} DistinctCardinality<V>(m: map<Uuid, V>, order: seq<Uuid>)
    requires Indexes(m, order)
    ensures |m| == |order|
  {
    if order != [] {
      var init, last := order[..|order| - 1], order[|order| - 1];
      DistinctSplit(order);
      var m' := m - {last};
      assert forall k :: k in m' <==> k in init by {
        forall k ensures k in m' <==> k in init {
          if k in init {
            var i :| 0 <= i < |init| && init[i] == k;
            assert order[i] == k;
          }
          if k in order && k != last {
            var i :| 0 <= i < |order| && order[i] == k;
            assert i < |order| - 1;
            assert init[i] == k;
          }
        }
      }
      DistinctCardinality(m', init);
      assert m'.Keys + {last} == m.Keys;
      assert |m'.Keys| + 1 == |m.Keys|;
    }
  }
}
