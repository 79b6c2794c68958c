/** src/graphql/resolvers/cartResolver.ts: a user's cart and its items. A cart is created the first
    time an item is added; adding furniture already in the cart adds to its quantity. */
module CartResolver {
  import opened Wrappers
  import opened Errors
  import opened Store

  /** The user has a cart. */
  predicate HasCart(carts: map<int, Cart>, userId: int) {
    exists k | k in carts :: carts[k].userId == userId
  }

  /** The id of the user's cart; there is only one (`Database.CartsValid`). */
  ghost function CartIdOf(carts: map<int, Cart>, userId: int): (k: int)
    requires HasCart(carts, userId)
    ensures k in carts && carts[k].userId == userId
  {
    var k :| k in carts && carts[k].userId == userId; k
  }

  /** The cart holds an item for this furniture. */
  predicate HasItem(items: map<int, CartItem>, cartId: int, furnitureId: int) {
    exists k | k in items :: items[k].cartId == cartId && items[k].furnitureId == furnitureId
  }

  /** The id of the cart's item for this furniture; there is only one (`Database.CartsValid`). */
  ghost function ItemIdOf(items: map<int, CartItem>, cartId: int, furnitureId: int): (k: int)
    requires HasItem(items, cartId, furnitureId)
    ensures k in items && items[k].cartId == cartId && items[k].furnitureId == furnitureId
  {
    var k :| k in items && items[k].cartId == cartId && items[k].furnitureId == furnitureId; k
  }

  /** The items of one cart. */
  function ItemsOfCart(items: map<int, CartItem>, cartId: int): (r: map<int, CartItem>)
    ensures forall k :: k in r <==> k in items && items[k].cartId == cartId
    ensures forall k | k in r :: r[k] == items[k]
  {
    map k | k in items && items[k].cartId == cartId :: items[k]
  }

  /** `prisma.cart.findFirst({ where: { userId } })`. */
  method FindCart(db: Database, userId: int) returns (cart: Option<Cart>)
    requires db.Valid()
    ensures cart.None? <==> !HasCart(db.carts, userId)
    ensures cart.Some? ==> cart.value == db.carts[CartIdOf(db.carts, userId)]
  {
    if HasCart(db.carts, userId) {
      var k :| k in db.carts && db.carts[k].userId == userId;
      return Some(db.carts[k]);
    }
    return None;
  }

  /** `prisma.cartItem.findFirst({ where: { cartId, furnitureId } })`. */
  method FindItem(db: Database, cartId: int, furnitureId: int) returns (item: Option<CartItem>)
    requires db.Valid()
    ensures item.None? <==> !HasItem(db.cartItems, cartId, furnitureId)
    ensures item.Some? ==> item.value == db.cartItems[ItemIdOf(db.cartItems, cartId, furnitureId)]
  {
    if HasItem(db.cartItems, cartId, furnitureId) {
      var k :| k in db.cartItems && db.cartItems[k].cartId == cartId && db.cartItems[k].furnitureId == furnitureId;
      return Some(db.cartItems[k]);
    }
    return None;
  }

  /** The first half of `addItemToCart`: the user's cart, created if there is none. */
  method FindOrCreateCart(db: Database, userId: int) returns (cart: Cart)
    requires db.Valid()
    modifies db`carts, db`nextCartId
    ensures db.Valid()
    ensures HasCart(db.carts, userId) && cart == db.carts[CartIdOf(db.carts, userId)]
    ensures HasCart(old(db.carts), userId) ==> db.carts == old(db.carts) && db.nextCartId == old(db.nextCartId)
    ensures !HasCart(old(db.carts), userId) ==>
              db.carts == old(db.carts)[old(db.nextCartId) := Cart(old(db.nextCartId), userId)]
              && db.nextCartId == old(db.nextCartId) + 1
  {
    var found := FindCart(db, userId);
    if found.Some? {
      return found.value;
    }
    cart := Cart(db.nextCartId, userId);
    db.carts := db.carts[cart.id := cart];
    db.nextCartId := db.nextCartId + 1;
    assert db.carts[cart.id].userId == userId;
    assert forall k | k in db.carts && db.carts[k].userId == userId :: k == cart.id;
  }

  /** The second half of `addItemToCart`, inside its try block: the cart's item for this furniture
      gains `quantity`, or a new item is created, which fails when the furniture does not exist. */
  method PutItem(db: Database, cartId: int, furnitureId: int, quantity: int) returns (body: Result<CartItem>)
    requires db.Valid() && cartId in db.carts
    modifies db`cartItems, db`nextCartItemId
    ensures db.Valid()
    ensures if HasItem(old(db.cartItems), cartId, furnitureId) then
              var k := ItemIdOf(old(db.cartItems), cartId, furnitureId);
              body == Ok(old(db.cartItems)[k].(quantity := old(db.cartItems)[k].quantity + quantity))
              && db.cartItems == old(db.cartItems)[k := body.value] && db.nextCartItemId == old(db.nextCartItemId)
            else if furnitureId in db.furniture then
              body == Ok(CartItem(old(db.nextCartItemId), cartId, furnitureId, quantity))
              && db.cartItems == old(db.cartItems)[old(db.nextCartItemId) := body.value]
              && db.nextCartItemId == old(db.nextCartItemId) + 1
            else
              body == Err(Orm(ForeignKeyConstraint))
              && db.cartItems == old(db.cartItems) && db.nextCartItemId == old(db.nextCartItemId)
  {
    var existingItem := FindItem(db, cartId, furnitureId);
    if existingItem.Some? {
      var updated := existingItem.value.(quantity := existingItem.value.quantity + quantity);
      db.cartItems := db.cartItems[updated.id := updated];
      body := Ok(updated);
    } else if furnitureId !in db.furniture {
      body := Err(Orm(ForeignKeyConstraint));
    } else {
      var item := CartItem(db.nextCartItemId, cartId, furnitureId, quantity);
      db.cartItems := db.cartItems[item.id := item];
      db.nextCartItemId := db.nextCartItemId + 1;
      body := Ok(item);
    }
  }

  /** A cart together with the items the query loads with it. */
  datatype CartWithItems = CartWithItems(cart: Cart, items: map<int, CartItem>)

  /** `getCartByUserId(userId)`: the user's cart with its items, or null. */
  method GetCartByUserId(db: Database, userId: int) returns (r: Option<CartWithItems>)
    requires db.Valid()
    ensures r.None? <==> !HasCart(db.carts, userId)
    ensures r.Some? ==>
              r.value.cart.userId == userId && r.value.cart.id in db.carts && r.value.cart == db.carts[r.value.cart.id]
              && r.value.items == ItemsOfCart(db.cartItems, r.value.cart.id)
  {
    var cart := FindCart(db, userId);
    if cart.None? {
      return None;
    }
    return Some(CartWithItems(cart.value, ItemsOfCart(db.cartItems, cart.value.id)));
  }

  /** `addItemToCart(userId, furnitureId, quantity = 1)`. The quantity is not checked. Creating the
      item fails (and is reported as INTERNAL_SERVER_ERROR) when the furniture does not exist; the
      cart created just before stays. */
  method AddItemToCart(db: Database, userId: int, furnitureId: int, quantity: int := 1) returns (r: Result<CartItem>)
    requires db.Valid()
    modifies db`carts, db`nextCartId, db`cartItems, db`nextCartItemId
    ensures db.Valid()
    ensures HasCart(db.carts, userId)
    ensures HasCart(old(db.carts), userId) ==> db.carts == old(db.carts) && db.nextCartId == old(db.nextCartId)
    ensures !HasCart(old(db.carts), userId) ==>
              db.carts == old(db.carts)[old(db.nextCartId) := Cart(old(db.nextCartId), userId)]
              && db.nextCartId == old(db.nextCartId) + 1
    ensures var cartId := CartIdOf(db.carts, userId);
            if HasItem(old(db.cartItems), cartId, furnitureId) then
              var k := ItemIdOf(old(db.cartItems), cartId, furnitureId);
              r == Ok(old(db.cartItems)[k].(quantity := old(db.cartItems)[k].quantity + quantity))
              && db.cartItems == old(db.cartItems)[k := r.value] && db.nextCartItemId == old(db.nextCartItemId)
            else if furnitureId in db.furniture then
              r == Ok(CartItem(old(db.nextCartItemId), cartId, furnitureId, quantity))
              && db.cartItems == old(db.cartItems)[old(db.nextCartItemId) := r.value]
              && db.nextCartItemId == old(db.nextCartItemId) + 1
            else
              r == Err(InternalServerError)
              && db.cartItems == old(db.cartItems) && db.nextCartItemId == old(db.nextCartItemId)
  {
    var cart := FindOrCreateCart(db, userId);
    var body := PutItem(db, cart.id, furnitureId, quantity);
    r := Rethrow(body, InternalServerError);
  }

  /** `updateCartItemQuantity(cartItemId, quantity)`: a quantity below 1 is refused before the
      store is touched; otherwise the item's quantity becomes exactly `quantity`. */
  method UpdateCartItemQuantity(db: Database, cartItemId: int, quantity: int) returns (r: Result<CartItem>)
    requires db.Valid()
    modifies db`cartItems
    ensures db.Valid()
    ensures quantity < 1 ==> r == Err(InvalidInput) && db.cartItems == old(db.cartItems)
    ensures quantity >= 1 && cartItemId !in old(db.cartItems) ==>
              r == Err(InternalServerError) && db.cartItems == old(db.cartItems)
    ensures quantity >= 1 && cartItemId in old(db.cartItems) ==>
              r == Ok(old(db.cartItems)[cartItemId].(quantity := quantity))
              && db.cartItems == old(db.cartItems)[cartItemId := r.value]
  {
    if quantity < 1 {
      return Err(InvalidInput);
    }
    var body: Result<CartItem>;
    if cartItemId !in db.cartItems {
      body := Err(Orm(RecordNotFound));
    } else {
      var updated := db.cartItems[cartItemId].(quantity := quantity);
      db.cartItems := db.cartItems[cartItemId := updated];
      body := Ok(updated);
    }
    r := Rethrow(body, InternalServerError);
  }

  /** `removeItemFromCart(cartItemId)`. */
  method RemoveItemFromCart(db: Database, cartItemId: int) returns (r: Result<bool>)
    requires db.Valid()
    modifies db`cartItems
    ensures db.Valid()
    ensures cartItemId !in old(db.cartItems) ==> r == Err(InternalServerError) && db.cartItems == old(db.cartItems)
    ensures cartItemId in old(db.cartItems) ==> r == Ok(true) && db.cartItems == old(db.cartItems) - {cartItemId}
  {
    var body: Result<bool>;
    if cartItemId !in db.cartItems {
      body := Err(Orm(RecordNotFound));
    } else {
      db.cartItems := db.cartItems - {cartItemId};
      body := Ok(true);
    }
    r := Rethrow(body, InternalServerError);
  }

  /** `clearCart(userId)`: deletes every item of the user's cart and keeps the cart. Without a cart
      the inner "Cart not found." error is replaced by the outer generic one; both carry
      INTERNAL_SERVER_ERROR. */
  method ClearCart(db: Database, userId: int) returns (r: Result<bool>)
    requires db.Valid()
    modifies db`cartItems
    ensures db.Valid()
    ensures !HasCart(db.carts, userId) ==> r == Err(InternalServerError) && db.cartItems == old(db.cartItems)
    ensures HasCart(db.carts, userId) ==>
              var cartId := CartIdOf(db.carts, userId);
              r == Ok(true)
              && db.cartItems == old(db.cartItems) - ItemsOfCart(old(db.cartItems), cartId).Keys
              && ItemsOfCart(db.cartItems, cartId) == map[]
              && (forall k | k in old(db.cartItems) && old(db.cartItems)[k].cartId != cartId ::
                    k in db.cartItems && db.cartItems[k] == old(db.cartItems)[k])
  {
    var body: Result<bool>;
    var cart := FindCart(db, userId);
    if cart.None? {
      body := Err(InternalServerError);
    } else {
      db.cartItems := db.cartItems - ItemsOfCart(db.cartItems, cart.value.id).Keys;
      body := Ok(true);
    }
    r := Rethrow(body, InternalServerError);
  }
}
