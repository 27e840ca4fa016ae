/** The catalogue routes of routes/Product.js over the `products` table
    (models/Product.js): create, list, get by id, update and delete. */
module ProductRoutes {
  import opened Http

  const ADD_FAILED := "Error adding product"
  const NOT_FOUND_MESSAGE := "Product not found"
  const UPDATE_FAILED := "Error updating product"
  const DELETED := "Product deleted successfully"

  /** A row of `products`: a serial key and five NOT NULL columns. */
  datatype Product = Product(id: int, name: string, category: string, image: string, price: real, quantity: int)

  /** The body `{ name, category, image, price, quantity }` of POST and PUT. */
  datatype ProductRequest = ProductRequest(name: Field<string>, category: Field<string>, image: Field<string>,
                                           price: Field<real>, quantity: Field<int>)

  /** The table and the next value of its id sequence. */
  datatype ProductTables = ProductTables(products: map<int, Product>, nextId: int)

  /** Every row sits under its own key, which the sequence has already
      handed out, and holds an INTEGER quantity. */
  ghost predicate TablesValid(t: ProductTables) {
    && 1 <= t.nextId
    && forall k :: k in t.products ==>
         t.products[k].id == k && 1 <= k < t.nextId && FitsInteger(t.products[k].quantity)
  }

  /** The row `Product.create` inserts under `id`, if the body passes the
      NOT NULL checks: the four columns without a default must be given, and
      an absent quantity takes the default 0. */
  function NewProduct(req: ProductRequest, id: int): (r: Option<Product>)
    ensures r.Some? <==> && req.name.Given? && req.category.Given? && req.image.Given?
                         && req.price.Given? && !req.quantity.Null?
                         && (req.quantity.Given? ==> FitsInteger(req.quantity.value))
    ensures r.Some? ==> && r.value.id == id && r.value.name == req.name.value
                        && r.value.category == req.category.value && r.value.image == req.image.value
                        && r.value.price == req.price.value
                        && r.value.quantity == if req.quantity.Given? then req.quantity.value else 0
  {
    if req.name.Given? && req.category.Given? && req.image.Given? && req.price.Given? then
      match req.quantity
      case Null => None
      case Undefined => Some(Product(id, req.name.value, req.category.value, req.image.value, req.price.value, 0))
      case Given(q) =>
        if FitsInteger(q) then Some(Product(id, req.name.value, req.category.value, req.image.value, req.price.value, q))
        else None
    else None
  }

  /** POST /: 201 with the stored row, or 500 when the ORM rejects the body
      (before any id is drawn). */
  function CreateProduct(t: ProductTables, req: ProductRequest): (r: Handled<Product, ProductTables>)
    requires TablesValid(t)
    ensures TablesValid(r.state)
    ensures r.response.status in {CREATED, SERVER_ERROR}
    ensures r.response.status == CREATED <==> NewProduct(req, t.nextId).Some?
    ensures r.response.status == SERVER_ERROR ==> r == Handled(Failure(SERVER_ERROR, ADD_FAILED), t)
    ensures r.response.status == CREATED ==>
              && r.response == Success(CREATED, NewProduct(req, t.nextId).value)
              && t.nextId !in t.products
              && r.state == ProductTables(t.products[t.nextId := r.response.body], t.nextId + 1)
  {
    match NewProduct(req, t.nextId)
    case None => Handled(Failure(SERVER_ERROR, ADD_FAILED), t)
    case Some(row) => Handled(Success(CREATED, row), ProductTables(t.products[t.nextId := row], t.nextId + 1))
  }

  /** GET /:id: `Product.findByPk`. */
  function GetProduct(t: ProductTables, id: int): (r: Response<Product>)
    requires TablesValid(t)
    ensures r.status in {OK, NOT_FOUND}
    ensures r.status == NOT_FOUND <==> id !in t.products
    ensures r.status == NOT_FOUND ==> r == Failure(NOT_FOUND, NOT_FOUND_MESSAGE)
    ensures r.Success? ==> r.body.id == id && r.body == t.products[id]
  {
    if id in t.products then Success(OK, t.products[id]) else Failure(NOT_FOUND, NOT_FOUND_MESSAGE)
  }

  /** GET /: every stored product (in no particular order). */
  function ListProducts(t: ProductTables): (r: Response<set<Product>>)
    requires TablesValid(t)
    ensures r.Success? && r.status == OK
    ensures forall p :: p in r.body <==> GetProduct(t, p.id) == Success(OK, p)
  {
    Success(OK, set k | k in t.products :: t.products[k])
  }

  /** The row after PUT /:id assigns all five columns: None when one of them
      is absent or null (the NOT NULL check of `save`) or the quantity leaves
      the INTEGER range. */
  function Overwritten(p: Product, req: ProductRequest): (r: Option<Product>)
    ensures r.Some? <==> && req.name.Given? && req.category.Given? && req.image.Given?
                         && req.price.Given? && req.quantity.Given? && FitsInteger(req.quantity.value)
    ensures r.Some? ==> NewProduct(req, p.id) == r
  {
    if req.name.Given? && req.category.Given? && req.image.Given? && req.price.Given? && req.quantity.Given?
       && FitsInteger(req.quantity.value)
    then Some(p.(name := req.name.value, category := req.category.value, image := req.image.value,
                 price := req.price.value, quantity := req.quantity.value))
    else None
  }

  /** PUT /:id. */
  function UpdateProduct(t: ProductTables, id: int, req: ProductRequest): (r: Handled<Product, ProductTables>)
    requires TablesValid(t)
    ensures TablesValid(r.state)
    ensures r.response.status in {OK, NOT_FOUND, SERVER_ERROR}
    ensures r.response.status == NOT_FOUND <==> id !in t.products
    ensures r.response.status == SERVER_ERROR <==> id in t.products && Overwritten(t.products[id], req).None?
    ensures r.response.status != OK ==> r.state == t
    ensures r.response.status == SERVER_ERROR ==> r.response == Failure(SERVER_ERROR, UPDATE_FAILED)
    ensures r.response.status == OK ==>
              && r.response == Success(OK, Overwritten(t.products[id], req).value)
              && r.state == t.(products := t.products[id := r.response.body])
  {
    if id !in t.products then Handled(Failure(NOT_FOUND, NOT_FOUND_MESSAGE), t)
    else
      match Overwritten(t.products[id], req)
      case None => Handled(Failure(SERVER_ERROR, UPDATE_FAILED), t)
      case Some(row) => Handled(Success(OK, row), t.(products := t.products[id := row]))
  }

  /** DELETE /:id. */
  function RemoveProduct(t: ProductTables, id: int): (r: Handled<string, ProductTables>)
    requires TablesValid(t)
    ensures TablesValid(r.state)
    ensures r.response.status in {OK, NOT_FOUND}
    ensures r.response.status == NOT_FOUND <==> id !in t.products
    ensures r.response.status == NOT_FOUND ==> r == Handled(Failure(NOT_FOUND, NOT_FOUND_MESSAGE), t)
    ensures r.response.status == OK ==>
              r.response == Success(OK, DELETED) && r.state == t.(products := t.products - {id})
  {
    if id in t.products then Handled(Success(OK, DELETED), t.(products := t.products - {id}))
    else Handled(Failure(NOT_FOUND, NOT_FOUND_MESSAGE), t)
  }

  // ------------------------------------------------ the routes against each other

  /** A created product is found under the id it was given, with exactly the
      values of the request, and is listed next to the earlier ones. */
  lemma CreateThenGet(t: ProductTables, req: ProductRequest)
    requires TablesValid(t)
    requires CreateProduct(t, req).response.status == CREATED
    ensures var r := CreateProduct(t, req);
            && GetProduct(r.state, r.response.body.id) == Success(OK, r.response.body)
            && r.response.body.name == req.name.value && r.response.body.price == req.price.value
            && ListProducts(r.state).body == ListProducts(t).body + {r.response.body}
  {
    var r := CreateProduct(t, req);
    var before, after := ListProducts(t).body, ListProducts(r.state).body;
    forall p ensures p in after <==> p in before + {r.response.body} {
      if p in after && p != r.response.body {
        assert GetProduct(r.state, p.id) == Success(OK, p);
        assert p.id != t.nextId;
        assert GetProduct(t, p.id) == Success(OK, p);
      }
    }
  }

  /** A successful update is what a later GET returns, and other products are
      untouched. */
  lemma UpdateThenGet(t: ProductTables, id: int, req: ProductRequest, other: int)
    requires TablesValid(t)
    requires UpdateProduct(t, id, req).response.status == OK
    ensures var r := UpdateProduct(t, id, req);
            && GetProduct(r.state, id) == Success(OK, r.response.body)
            && (other != id ==> GetProduct(r.state, other) == GetProduct(t, other))
  {
  }

  /** The same PUT twice leaves what one PUT leaves. */
  lemma UpdateIdempotent(t: ProductTables, id: int, req: ProductRequest)
    requires TablesValid(t)
    ensures var r := UpdateProduct(t, id, req);
            UpdateProduct(r.state, id, req) == r
  {
    var r := UpdateProduct(t, id, req);
    if r.response.status == OK {
      var row := r.response.body;
      assert Overwritten(row, req) == Some(row);
      assert r.state.products[id := row] == r.state.products;
    }
  }

  /** PUT assigns every column, so a body that leaves any column out fails
      instead of changing only the ones given. */
  lemma PartialUpdateFails(t: ProductTables, id: int, req: ProductRequest)
    requires TablesValid(t) && id in t.products
    requires req.name.Undefined? || req.category.Undefined? || req.image.Undefined?
             || req.price.Undefined? || req.quantity.Undefined?
    ensures UpdateProduct(t, id, req) == Handled(Failure(SERVER_ERROR, UPDATE_FAILED), t)
  {
  }

  /** After a DELETE the id is gone for GET, PUT and a second DELETE. */
  lemma DeleteThenGet(t: ProductTables, id: int, req: ProductRequest)
    requires TablesValid(t)
    ensures var t' := RemoveProduct(t, id).state;
            && GetProduct(t', id) == Failure(NOT_FOUND, NOT_FOUND_MESSAGE)
            && UpdateProduct(t', id, req).response.status == NOT_FOUND
            && RemoveProduct(t', id).response.status == NOT_FOUND
  {
  }

  // ----------------------------------------------------------- the connection

  /** The database connection's view of `products`. */
  class ProductDb {
    var products: map<int, Product>
    var nextId: int

    function Tables(): ProductTables
      reads this
    {
      ProductTables(products, nextId)
    }

    ghost predicate Valid()
      reads this
    {
      TablesValid(Tables())
    }

    constructor ()
      ensures Valid() && Tables() == ProductTables(map[], 1)
    {
      products, nextId := map[], 1;
    }

    /** POST /. */
    method PostProduct(req: ProductRequest) returns (response: Response<Product>)
      requires Valid()
      modifies this
      ensures Valid()
      ensures Handled(response, Tables()) == CreateProduct(old(Tables()), req)
    {
      var row := NewProduct(req, nextId);
      if row.None? {
        return Failure(SERVER_ERROR, ADD_FAILED);
      }
      products := products[nextId := row.value];
      nextId := nextId + 1;
      response := Success(CREATED, row.value);
    }

    /** PUT /:id: the five assignments to the fetched row, then `save`. */
    method PutProduct(id: int, req: ProductRequest) returns (response: Response<Product>)
      requires Valid()
      modifies this
      ensures Valid()
      ensures Handled(response, Tables()) == UpdateProduct(old(Tables()), id, req)
    {
      if id !in products {
        return Failure(NOT_FOUND, NOT_FOUND_MESSAGE);
      }
      if !(req.name.Given? && req.category.Given? && req.image.Given? && req.price.Given? && req.quantity.Given?)
         || !FitsInteger(req.quantity.value) {
        return Failure(SERVER_ERROR, UPDATE_FAILED);
      }
      var product := products[id];
      product := product.(name := req.name.value);
      product := product.(category := req.category.value);
      product := product.(image := req.image.value);
      product := product.(price := req.price.value);
      product := product.(quantity := req.quantity.value);
      products := products[id := product];
      response := Success(OK, product);
    }

    /** DELETE /:id. */
    method DeleteProduct(id: int) returns (response: Response<string>)
      requires Valid()
      modifies this
      ensures Valid()
      ensures Handled(response, Tables()) == RemoveProduct(old(Tables()), id)
    {
      if id !in products {
        return Failure(NOT_FOUND, NOT_FOUND_MESSAGE);
      }
      products := products - {id};
      response := Success(OK, DELETED);
    }
  }
}
