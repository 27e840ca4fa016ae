/** The cart routes of routes/cart.js over the `carts` and `cart_items`
    tables: read a user's cart, add a product to it (creating the cart on
    first use and summing quantities on re-add), and remove a product. */
module CartRoutes {
  import opened Http

  type UserKey = string
  type ProductKey = int

  const CART_NOT_FOUND := "Cart not found"
  const ADDED := "Product added/updated in cart"
  const UPDATE_FAILED := "Error updating cart"
  const REMOVED := "Product removed from cart"
  const LINE_NOT_FOUND := "Product not found in cart"

  /** A row of `cart_items` (models/CartItem.js). */
  datatype CartItem = CartItem(cartId: nat, productId: ProductKey, quantity: int)

  /** The `carts` table (serial id to owner), `cart_items` (serial id to
      row), and the next values of the two id sequences. */
  datatype CartTables = CartTables(carts: map<nat, UserKey>, items: map<nat, CartItem>,
                                   nextCartId: nat, nextItemId: nat)

  /** A user owns at most one cart. */
  ghost predicate CartsUnique(carts: map<nat, UserKey>) {
    forall c, d :: c in carts && d in carts && carts[c] == carts[d] ==> c == d
  }

  /** A cart holds at most one line per product. */
  ghost predicate LinesUnique(items: map<nat, CartItem>) {
    forall i, j :: (i in items && j in items && items[i].cartId == items[j].cartId &&
                    items[i].productId == items[j].productId) ==> i == j
  }

  /** Keys come from the sequences, lines belong to existing carts and hold
      an INTEGER quantity, and the two uniqueness rules the handlers
      maintain (no database constraint backs them). */
  ghost predicate TablesValid(t: CartTables) {
    && 1 <= t.nextCartId && 1 <= t.nextItemId
    && (forall c :: c in t.carts ==> c < t.nextCartId)
    && (forall i :: i in t.items ==>
          i < t.nextItemId && t.items[i].cartId in t.carts && FitsInteger(t.items[i].quantity))
    && CartsUnique(t.carts)
    && LinesUnique(t.items)
  }

  predicate HasCart(carts: map<nat, UserKey>, user: UserKey) {
    exists c :: c in carts && carts[c] == user
  }

  /** `Cart.findOne({ where: { userId } })`. */
  ghost function FindCart(carts: map<nat, UserKey>, user: UserKey): (r: Option<nat>)
    ensures r.Some? <==> HasCart(carts, user)
    ensures r.Some? ==> r.value in carts && carts[r.value] == user
  {
    if HasCart(carts, user) then
      var c :| c in carts && carts[c] == user;
      Some(c)
    else None
  }

  predicate HasLine(items: map<nat, CartItem>, cartId: nat, product: ProductKey) {
    exists i :: i in items && items[i].cartId == cartId && items[i].productId == product
  }

  /** `CartItem.findOne({ where: { cartId, productId } })`. */
  ghost function FindLine(items: map<nat, CartItem>, cartId: nat, product: ProductKey): (r: Option<nat>)
    ensures r.Some? <==> HasLine(items, cartId, product)
    ensures r.Some? ==> r.value in items && items[r.value].cartId == cartId && items[r.value].productId == product
  {
    if HasLine(items, cartId, product) then
      var i :| i in items && items[i].cartId == cartId && items[i].productId == product;
      Some(i)
    else None
  }

  lemma FindCartUnique(carts: map<nat, UserKey>, c: nat)
    requires CartsUnique(carts) && c in carts
    ensures FindCart(carts, carts[c]) == Some(c)
  {
  }

  lemma FindLineUnique(items: map<nat, CartItem>, i: nat)
    requires LinesUnique(items) && i in items
    ensures FindLine(items, items[i].cartId, items[i].productId) == Some(i)
  {
  }

  // ------------------------------------------------------ the abstract view

  /** Line `i` is the line of `product` in the cart of `user`. */
  predicate IsLine(t: CartTables, i: nat, user: UserKey, product: ProductKey) {
    && i in t.items
    && t.items[i].cartId in t.carts
    && t.carts[t.items[i].cartId] == user
    && t.items[i].productId == product
  }

  lemma IsLineUnique(t: CartTables)
    requires TablesValid(t)
    ensures forall i, j, u, p :: IsLine(t, i, u, p) && IsLine(t, j, u, p) ==> i == j
  {
  }

  /** What the tables mean to a shopper: the quantity of `product` in the
      cart of `user`, if that cart holds it. */
  ghost function Quantity(t: CartTables, user: UserKey, product: ProductKey): (r: Option<int>)
    requires TablesValid(t)
    ensures r.Some? <==> exists i :: IsLine(t, i, user, product)
    ensures forall i :: IsLine(t, i, user, product) ==> r == Some(t.items[i].quantity)
  {
    IsLineUnique(t);
    if exists i :: IsLine(t, i, user, product) then
      var i :| IsLine(t, i, user, product);
      Some(t.items[i].quantity)
    else None
  }

  // --------------------------------------------- the four writes the routes do

  /** `Cart.create({ userId })`. */
  function AddCart(t: CartTables, user: UserKey): CartTables {
    t.(carts := t.carts[t.nextCartId := user], nextCartId := t.nextCartId + 1)
  }

  /** `cartItem.save()` after changing its quantity. */
  function SetQuantity(t: CartTables, i: nat, q: int): CartTables
    requires i in t.items
  {
    t.(items := t.items[i := t.items[i].(quantity := q)])
  }

  /** `CartItem.create({ cartId, productId, quantity })`. */
  function InsertLine(t: CartTables, cartId: nat, product: ProductKey, q: int): CartTables {
    t.(items := t.items[t.nextItemId := CartItem(cartId, product, q)], nextItemId := t.nextItemId + 1)
  }

  /** `cartItem.destroy()`. */
  function DeleteLine(t: CartTables, i: nat): CartTables {
    t.(items := t.items - {i})
  }

  /** A new cart holds no line, so no quantity changes. */
  lemma QuantitiesAfterAddCart(t: CartTables, user: UserKey)
    requires TablesValid(t) && !HasCart(t.carts, user)
    ensures TablesValid(AddCart(t, user))
    ensures forall u, p :: Quantity(AddCart(t, user), u, p) == Quantity(t, u, p)
  {
    var t' := AddCart(t, user);
    forall u, p ensures Quantity(t', u, p) == Quantity(t, u, p) {
      assert forall j :: IsLine(t', j, u, p) <==> IsLine(t, j, u, p);
      if Quantity(t, u, p).Some? {
        var j :| IsLine(t, j, u, p);
        assert IsLine(t', j, u, p);
      }
    }
  }

  /** Saving a line changes the quantity under that line's key only. */
  lemma QuantitiesAfterSet(t: CartTables, i: nat, q: int)
    requires TablesValid(t) && i in t.items && FitsInteger(q)
    ensures TablesValid(SetQuantity(t, i, q))
    ensures forall u, p :: Quantity(SetQuantity(t, i, q), u, p) ==
                           if IsLine(t, i, u, p) then Some(q) else Quantity(t, u, p)
  {
    var t' := SetQuantity(t, i, q);
    forall u, p ensures Quantity(t', u, p) == if IsLine(t, i, u, p) then Some(q) else Quantity(t, u, p) {
      assert forall j :: IsLine(t', j, u, p) <==> IsLine(t, j, u, p);
      if Quantity(t, u, p).Some? {
        var j :| IsLine(t, j, u, p);
        assert IsLine(t', j, u, p);
      }
    }
  }

  /** Inserting a line for a product the cart lacks adds that key only. */
  lemma QuantitiesAfterInsert(t: CartTables, c: nat, product: ProductKey, q: int)
    requires TablesValid(t) && c in t.carts && !HasLine(t.items, c, product) && FitsInteger(q)
    ensures TablesValid(InsertLine(t, c, product, q))
    ensures forall u, p :: Quantity(InsertLine(t, c, product, q), u, p) ==
                           if (u, p) == (t.carts[c], product) then Some(q) else Quantity(t, u, p)
  {
    var t' := InsertLine(t, c, product, q);
    assert TablesValid(t');
    forall u, p ensures Quantity(t', u, p) == if (u, p) == (t.carts[c], product) then Some(q) else Quantity(t, u, p) {
      if (u, p) == (t.carts[c], product) {
        assert IsLine(t', t.nextItemId, u, p);
      } else {
        assert forall j :: IsLine(t', j, u, p) <==> IsLine(t, j, u, p);
        if Quantity(t, u, p).Some? {
          var j :| IsLine(t, j, u, p);
          assert IsLine(t', j, u, p);
        }
      }
    }
  }

  /** Deleting a line removes the quantity under its key only. */
  lemma QuantitiesAfterDelete(t: CartTables, i: nat)
    requires TablesValid(t) && i in t.items
    ensures TablesValid(DeleteLine(t, i))
    ensures forall u, p :: Quantity(DeleteLine(t, i), u, p) ==
                           if IsLine(t, i, u, p) then None else Quantity(t, u, p)
  {
    var t' := DeleteLine(t, i);
    IsLineUnique(t);
    forall u, p ensures Quantity(t', u, p) == if IsLine(t, i, u, p) then None else Quantity(t, u, p) {
      assert forall j :: IsLine(t', j, u, p) <==> IsLine(t, j, u, p) && j != i;
      if !IsLine(t, i, u, p) && Quantity(t, u, p).Some? {
        var j :| IsLine(t, j, u, p);
        assert IsLine(t', j, u, p);
      }
    }
  }

  /** The cart found for a user and the line found in it are the ones the
      view is built from. */
  lemma FoundLine(t: CartTables, user: UserKey, product: ProductKey)
    requires TablesValid(t) && HasCart(t.carts, user)
    ensures var c := FindCart(t.carts, user).value;
            && (FindLine(t.items, c, product).Some? <==> Quantity(t, user, product).Some?)
            && (FindLine(t.items, c, product).Some? ==>
                  IsLine(t, FindLine(t.items, c, product).value, user, product))
  {
    var c := FindCart(t.carts, user).value;
    if Quantity(t, user, product).Some? {
      var j :| IsLine(t, j, user, product);
      FindCartUnique(t.carts, t.items[j].cartId);
    }
  }

  /** Without a cart the user holds nothing. */
  lemma NoCartNoLines(t: CartTables, user: UserKey, product: ProductKey)
    requires TablesValid(t) && !HasCart(t.carts, user)
    ensures Quantity(t, user, product).None?
  {
    assert forall j :: !IsLine(t, j, user, product);
  }

  // --------------------------------------------------------- GET /:userId

  /** The cart with the quantity of each of its products. */
  datatype CartView = CartView(id: nat, lines: map<ProductKey, int>)

  /** GET /:userId: the user's cart with its products, or 404. */
  ghost function GetCart(t: CartTables, user: UserKey): (r: Response<CartView>)
    requires TablesValid(t)
    ensures r.status in {OK, NOT_FOUND}
    ensures r.status == NOT_FOUND <==> !HasCart(t.carts, user)
    ensures r.status == NOT_FOUND ==> r == Failure(NOT_FOUND, CART_NOT_FOUND)
    ensures r.Success? ==> r.body.id in t.carts && t.carts[r.body.id] == user
    ensures r.Success? ==> forall p :: (p in r.body.lines <==> Quantity(t, user, p).Some?)
    ensures r.Success? ==> forall p :: p in r.body.lines ==> Quantity(t, user, p) == Some(r.body.lines[p])
  {
    match FindCart(t.carts, user)
    case None => Failure(NOT_FOUND, CART_NOT_FOUND)
    case Some(c) =>
      var products := set i | i in t.items && t.items[i].cartId == c :: t.items[i].productId;
      assert forall p :: p in products <==> Quantity(t, user, p).Some? by {
        forall p ensures p in products <==> Quantity(t, user, p).Some? {
          FoundLine(t, user, p);
        }
      }
      var lines := map p | p in products :: Quantity(t, user, p).value;
      Success(OK, CartView(c, lines))
  }

  // -------------------------------------------------------- POST /:userId

  /** Find or create the user's cart: the tables afterwards and the cart's id. */
  ghost function OpenCart(t: CartTables, user: UserKey): (r: (CartTables, nat))
    requires TablesValid(t)
    ensures TablesValid(r.0)
    ensures forall u, p :: Quantity(r.0, u, p) == Quantity(t, u, p)
    ensures r.1 in r.0.carts && r.0.carts[r.1] == user
    ensures HasCart(t.carts, user) ==> r.0 == t
    ensures !HasCart(t.carts, user) ==> r.1 == t.nextCartId && r.0 == AddCart(t, user)
  {
    match FindCart(t.carts, user)
    case Some(c) => (t, c)
    case None =>
      QuantitiesAfterAddCart(t, user);
      (AddCart(t, user), t.nextCartId)
  }

  /** The quantity a line holds after POST, when the write succeeds:
      `cartItem.quantity += quantity` on an existing line (a `null` adds
      nothing), the given quantity or the column default 1 on a new one. */
  function Added(current: Option<int>, quantity: Field<int>): (r: Option<int>)
    ensures r.None? <==> (current.Some? && quantity.Undefined?) || (current.None? && quantity.Null?)
    ensures current.Some? && r.Some? ==> r.value == current.value + (if quantity.Given? then quantity.value else 0)
    ensures current.None? && r.Some? ==> r.value == (if quantity.Given? then quantity.value else 1)
  {
    match (current, quantity)
    case (Some(q), Given(n)) => Some(q + n)
    case (Some(q), Null) => Some(q)
    case (Some(_), Undefined) => None        // `q + undefined` is NaN
    case (None, Given(n)) => Some(n)
    case (None, Undefined) => Some(1)
    case (None, Null) => None                // NOT NULL column
  }

  /** The second half of POST /:userId: update or insert the line of
      `product` in cart `c`. */
  ghost function WriteLine(t: CartTables, c: nat, product: ProductKey, quantity: Field<int>)
    : (r: Handled<string, CartTables>)
    requires TablesValid(t) && c in t.carts
    ensures TablesValid(r.state)
    ensures r.state.carts == t.carts && r.state.nextCartId == t.nextCartId
    ensures r.response == Success(OK, ADDED) || r.response == Failure(SERVER_ERROR, UPDATE_FAILED)
    ensures var next := Added(Quantity(t, t.carts[c], product), quantity);
            r.response.status == OK <==> next.Some? && FitsInteger(next.value)
    ensures forall u, p :: Quantity(r.state, u, p) ==
              if r.response.status == OK && (u, p) == (t.carts[c], product)
              then Added(Quantity(t, t.carts[c], product), quantity)
              else Quantity(t, u, p)
  {
    FindCartUnique(t.carts, c);
    FoundLine(t, t.carts[c], product);
    match FindLine(t.items, c, product)
    case Some(i) =>
      var q := t.items[i].quantity;
      assert forall u, p :: IsLine(t, i, u, p) <==> (u, p) == (t.carts[c], product);
      (match quantity
       case Given(n) =>
         if !FitsInteger(q + n) then Handled(Failure(SERVER_ERROR, UPDATE_FAILED), t)
         else
           QuantitiesAfterSet(t, i, q + n);
           Handled(Success(OK, ADDED), SetQuantity(t, i, q + n))
       case Null => Handled(Success(OK, ADDED), t)
       case Undefined => Handled(Failure(SERVER_ERROR, UPDATE_FAILED), t))
    case None =>
      if quantity.Null? then Handled(Failure(SERVER_ERROR, UPDATE_FAILED), t)
      else
        var q := if quantity.Given? then quantity.value else 1;
        if !FitsInteger(q) then Handled(Failure(SERVER_ERROR, UPDATE_FAILED), t)
        else
          QuantitiesAfterInsert(t, c, product, q);
          Handled(Success(OK, ADDED), InsertLine(t, c, product, q))
  }

  /** POST /:userId with body `{ productId, quantity }`. The cart is created
      first and stays even when the line write then fails. */
  ghost function AddToCart(t: CartTables, user: UserKey, product: ProductKey, quantity: Field<int>)
    : (r: Handled<string, CartTables>)
    requires TablesValid(t)
    ensures TablesValid(r.state)
    ensures r.state.carts == if HasCart(t.carts, user) then t.carts else t.carts[t.nextCartId := user]
    ensures r.response == Success(OK, ADDED) || r.response == Failure(SERVER_ERROR, UPDATE_FAILED)
    ensures var next := Added(Quantity(t, user, product), quantity);
            r.response.status == OK <==> next.Some? && FitsInteger(next.value)
    ensures forall u, p :: Quantity(r.state, u, p) ==
              if r.response.status == OK && (u, p) == (user, product)
              then Added(Quantity(t, user, product), quantity)
              else Quantity(t, u, p)
  {
    var (t1, c) := OpenCart(t, user);
    WriteLine(t1, c, product, quantity)
  }

  // -------------------------------------- DELETE /:userId/product/:productId

  /** DELETE /:userId/product/:productId. */
  ghost function RemoveFromCart(t: CartTables, user: UserKey, product: ProductKey): (r: Handled<string, CartTables>)
    requires TablesValid(t)
    ensures TablesValid(r.state)
    ensures r.state.carts == t.carts
    ensures r.response.status in {OK, NOT_FOUND}
    ensures r.response == Failure(NOT_FOUND, CART_NOT_FOUND) <==> !HasCart(t.carts, user)
    ensures r.response == Failure(NOT_FOUND, LINE_NOT_FOUND) <==>
              HasCart(t.carts, user) && Quantity(t, user, product).None?
    ensures r.response == Success(OK, REMOVED) <==> Quantity(t, user, product).Some?
    ensures r.response.status == NOT_FOUND ==> r.state == t
    ensures forall u, p :: Quantity(r.state, u, p) == if (u, p) == (user, product) then None else Quantity(t, u, p)
  {
    match FindCart(t.carts, user)
    case None =>
      NoCartNoLines(t, user, product);
      Handled(Failure(NOT_FOUND, CART_NOT_FOUND), t)
    case Some(c) =>
      FoundLine(t, user, product);
      match FindLine(t.items, c, product)
      case None => Handled(Failure(NOT_FOUND, LINE_NOT_FOUND), t)
      case Some(i) =>
        assert forall u, p :: IsLine(t, i, u, p) <==> (u, p) == (user, product);
        QuantitiesAfterDelete(t, i);
        Handled(Success(OK, REMOVED), DeleteLine(t, i))
  }

  // ------------------------------------------------ the routes against each other

  /** Two successful POSTs of the same product add up: the line ends where a
      single POST of the sum would put it. */
  lemma AddTwiceSums(t: CartTables, t1: CartTables, t2: CartTables,
                     user: UserKey, product: ProductKey, a: int, b: int)
    requires TablesValid(t)
    requires AddToCart(t, user, product, Given(a)) == Handled(Success(OK, ADDED), t1)
    requires AddToCart(t1, user, product, Given(b)) == Handled(Success(OK, ADDED), t2)
    ensures TablesValid(t2)
    ensures Quantity(t2, user, product) == Added(Quantity(t, user, product), Given(a + b))
  {
    var q0 := Quantity(t, user, product);
    var q1 := Quantity(t1, user, product);
    assert q1 == Added(q0, Given(a));
    assert Quantity(t2, user, product) == Added(q1, Given(b));
    AddedSums(q0, a, b);
  }

  /** Adding `a`, then `b`, is adding `a + b`, whether or not the line existed. */
  lemma AddedSums(q: Option<int>, a: int, b: int)
    ensures Added(Added(q, Given(a)), Given(b)) == Added(q, Given(a + b))
  {
  }

  /** Adding a product the cart lacks and removing it again gives back the
      quantities the shopper started with (the cart itself stays). */
  lemma AddThenRemove(t: CartTables, user: UserKey, product: ProductKey, quantity: Field<int>)
    requires TablesValid(t) && Quantity(t, user, product).None?
    requires AddToCart(t, user, product, quantity).response.status == OK
    ensures var t1 := AddToCart(t, user, product, quantity).state;
            && RemoveFromCart(t1, user, product).response == Success(OK, REMOVED)
            && forall u, p :: Quantity(RemoveFromCart(t1, user, product).state, u, p) == Quantity(t, u, p)
  {
  }

  /** A second DELETE of the same product finds the cart but not the line. */
  lemma RemoveTwice(t: CartTables, user: UserKey, product: ProductKey)
    requires TablesValid(t) && HasCart(t.carts, user)
    ensures var t1 := RemoveFromCart(t, user, product).state;
            RemoveFromCart(t1, user, product).response == Failure(NOT_FOUND, LINE_NOT_FOUND)
  {
  }

  /** The route does not check the sign of the quantity: a POST of minus the
      current quantity succeeds and leaves a line holding zero. */
  lemma EmptyingLineKeepsIt(t: CartTables, user: UserKey, product: ProductKey)
    requires TablesValid(t) && Quantity(t, user, product).Some?
    ensures var r := AddToCart(t, user, product, Given(-Quantity(t, user, product).value));
            r.response.status == OK && Quantity(r.state, user, product) == Some(0)
  {
  }

  // ----------------------------------------------------------- the connection

  /** The database connection's view of `carts` and `cart_items`. */
  class CartDb {
    var carts: map<nat, UserKey>
    var items: map<nat, CartItem>
    var nextCartId: nat
    var nextItemId: nat

    function Tables(): CartTables
      reads this
    {
      CartTables(carts, items, nextCartId, nextItemId)
    }

    ghost predicate Valid()
      reads this
    {
      TablesValid(Tables())
    }

    constructor ()
      ensures Valid() && Tables() == CartTables(map[], map[], 1, 1)
    {
      carts, items, nextCartId, nextItemId := map[], map[], 1, 1;
    }

    /** `Cart.findOne({ where: { userId } })`. */
    method FindCartOf(user: UserKey) returns (r: Option<nat>)
      requires Valid()
      ensures r == FindCart(carts, user)
    {
      var found := set c | c in carts && carts[c] == user;
      if found == {} {
        assert forall c :: c in carts && carts[c] == user ==> c in found;
        r := None;
      } else {
        var c :| c in found;
        FindCartUnique(carts, c);
        r := Some(c);
      }
    }

    /** `CartItem.findOne({ where: { cartId, productId } })`. */
    method FindLineIn(cartId: nat, product: ProductKey) returns (r: Option<nat>)
      requires Valid()
      ensures r == FindLine(items, cartId, product)
    {
      var found := set i | i in items && items[i].cartId == cartId && items[i].productId == product;
      if found == {} {
        assert forall i :: i in items && items[i].cartId == cartId && items[i].productId == product ==> i in found;
        r := None;
      } else {
        var i :| i in found;
        FindLineUnique(items, i);
        r := Some(i);
      }
    }

    /** The find-or-create step of POST /:userId. */
    method OpenCartOf(user: UserKey) returns (c: nat)
      requires Valid()
      modifies this
      ensures Valid()
      ensures (Tables(), c) == OpenCart(old(Tables()), user)
    {
      var cart := FindCartOf(user);
      if cart.None? {
        QuantitiesAfterAddCart(Tables(), user);
        c := nextCartId;
        carts := carts[c := user];
        nextCartId := nextCartId + 1;
      } else {
        c := cart.value;
      }
    }

    /** The update-or-insert step of POST /:userId. */
    method WriteLineOf(c: nat, product: ProductKey, quantity: Field<int>) returns (response: Response<string>)
      requires Valid() && c in carts
      modifies this
      ensures Valid()
      ensures Handled(response, Tables()) == WriteLine(old(Tables()), c, product, quantity)
    {
      var line := FindLineIn(c, product);
      if line.Some? {
        var i := line.value;
        if quantity.Undefined? {
          return Failure(SERVER_ERROR, UPDATE_FAILED);
        }
        if quantity.Given? {
          var q := items[i].quantity + quantity.value;
          if !FitsInteger(q) {
            return Failure(SERVER_ERROR, UPDATE_FAILED);
          }
          QuantitiesAfterSet(Tables(), i, q);
          items := items[i := items[i].(quantity := q)];
        }
      } else {
        if quantity.Null? {
          return Failure(SERVER_ERROR, UPDATE_FAILED);
        }
        var q := if quantity.Given? then quantity.value else 1;
        if !FitsInteger(q) {
          return Failure(SERVER_ERROR, UPDATE_FAILED);
        }
        QuantitiesAfterInsert(Tables(), c, product, q);
        items := items[nextItemId := CartItem(c, product, q)];
        nextItemId := nextItemId + 1;
      }
      response := Success(OK, ADDED);
    }

    /** POST /:userId. */
    method PostCart(user: UserKey, product: ProductKey, quantity: Field<int>) returns (response: Response<string>)
      requires Valid()
      modifies this
      ensures Valid()
      ensures Handled(response, Tables()) == AddToCart(old(Tables()), user, product, quantity)
    {
      var c := OpenCartOf(user);
      response := WriteLineOf(c, product, quantity);
    }

    /** DELETE /:userId/product/:productId. */
    method DeleteCartLine(user: UserKey, product: ProductKey) returns (response: Response<string>)
      requires Valid()
      modifies this
      ensures Valid()
      ensures Handled(response, Tables()) == RemoveFromCart(old(Tables()), user, product)
    {
      var cart := FindCartOf(user);
      if cart.None? {
        return Failure(NOT_FOUND, CART_NOT_FOUND);
      }
      var line := FindLineIn(cart.value, product);
      if line.None? {
        return Failure(NOT_FOUND, LINE_NOT_FOUND);
      }
      QuantitiesAfterDelete(Tables(), line.value);
      items := items - {line.value};
      response := Success(OK, REMOVED);
    }
  }
}
