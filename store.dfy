/** The records the resolvers read and write, and the database that holds them. The ORM's tables
    become map fields keyed by primary key (users by their unique email), each with the next
    autoincrement id; the implicit many-to-many relation between users and their favourite
    furniture is its join table, a set of (userId, furnitureId) pairs. Every resolver call is one
    atomic step on this object. */
module Store {
  import opened Wrappers
  import opened Passwords

  datatype User = User(
    id: int,
    name: string,
    email: string,
    password: PasswordHash,
    phone: Option<string>,
    address: Option<string>,
    isVerified: bool,
    otp: Option<string>,
    otpExpiresAt: Option<int>)

  datatype Cart = Cart(id: int, userId: int)

  datatype CartItem = CartItem(id: int, cartId: int, furnitureId: int, quantity: int)

  datatype Review = Review(id: int, furnitureId: int, userId: int, rating: int, content: string)

  /** Prices are GraphQL floats that are stored and returned, never computed with. */
  datatype Furniture = Furniture(id: int, title: string, description: string, price: real, categoryId: int)

  datatype Category = Category(id: int, name: string)

  /** A value of the OrderStatus enumeration of the schema. */
  datatype OrderStatus = OrderStatus(name: string)

  datatype OrderItem = OrderItem(furnitureId: int, price: real, quantity: int)

  datatype Order = Order(id: int, userId: int, totalPrice: real, status: OrderStatus, items: seq<OrderItem>)

  /** A row of the users-to-favourite-furniture join table. */
  datatype Favourite = Favourite(userId: int, furnitureId: int)

  const MinRating := 1
  const MaxRating := 5

  /** A stored code and its expiry are set together and cleared together. */
  predicate OtpPaired(u: User) {
    u.otp.Some? <==> u.otpExpiresAt.Some?
  }

  /** Some user has primary key `id`. */
  predicate HasUserId(users: map<string, User>, id: int) {
    exists e | e in users :: users[e].id == id
  }

  class Database {
    var users: map<string, User>
    var nextUserId: int
    var carts: map<int, Cart>
    var nextCartId: int
    var cartItems: map<int, CartItem>
    var nextCartItemId: int
    var reviews: map<int, Review>
    var nextReviewId: int
    var furniture: map<int, Furniture>
    var nextFurnitureId: int
    var categories: map<int, Category>
    var nextCategoryId: int
    var orders: map<int, Order>
    var nextOrderId: int
    var favourites: set<Favourite>
    /** The default the schema gives a new order's status. */
    const defaultOrderStatus: OrderStatus

    /** Users are keyed by their email, have distinct ids below the next one, and keep their code
        and its expiry paired. */
    ghost predicate UsersValid()
      reads this
    {
      && 1 <= nextUserId
      && (forall e | e in users :: users[e].email == e && 1 <= users[e].id < nextUserId && OtpPaired(users[e]))
      && (forall e1, e2 | e1 in users && e2 in users && users[e1].id == users[e2].id :: e1 == e2)
    }

    /** A user has at most one cart, and a cart at most one item per piece of furniture. */
    ghost predicate CartsValid()
      reads this
    {
      && 1 <= nextCartId
      && (forall k | k in carts :: carts[k].id == k && 1 <= k < nextCartId)
      && (forall k1, k2 | k1 in carts && k2 in carts && carts[k1].userId == carts[k2].userId :: k1 == k2)
      && 1 <= nextCartItemId
      && (forall k | k in cartItems :: cartItems[k].id == k && 1 <= k < nextCartItemId)
      && (forall k1, k2 | k1 in cartItems && k2 in cartItems
            && cartItems[k1].cartId == cartItems[k2].cartId
            && cartItems[k1].furnitureId == cartItems[k2].furnitureId :: k1 == k2)
    }

    /** Every stored rating lies between 1 and 5. */
    ghost predicate ReviewsValid()
      reads this
    {
      && 1 <= nextReviewId
      && (forall k | k in reviews :: reviews[k].id == k && 1 <= k < nextReviewId)
      && (forall k | k in reviews :: MinRating <= reviews[k].rating <= MaxRating)
    }

    /** Category names are unique, and every favourite names existing furniture. */
    ghost predicate CatalogueValid()
      reads this
    {
      && 1 <= nextFurnitureId
      && (forall k | k in furniture :: furniture[k].id == k && 1 <= k < nextFurnitureId)
      && 1 <= nextCategoryId
      && (forall k | k in categories :: categories[k].id == k && 1 <= k < nextCategoryId)
      && (forall k1, k2 | k1 in categories && k2 in categories && categories[k1].name == categories[k2].name :: k1 == k2)
      && (forall f | f in favourites :: f.furnitureId in furniture)
    }

    ghost predicate OrdersValid()
      reads this
    {
      && 1 <= nextOrderId
      && (forall k | k in orders :: orders[k].id == k && 1 <= k < nextOrderId)
    }

    ghost predicate Valid()
      reads this
    {
      UsersValid() && CartsValid() && ReviewsValid() && CatalogueValid() && OrdersValid()
    }

    /** An empty database. */
    constructor (defaultOrderStatus: OrderStatus)
      ensures Valid()
      ensures users == map[] && carts == map[] && cartItems == map[] && reviews == map[]
      ensures furniture == map[] && categories == map[] && orders == map[] && favourites == {}
      ensures this.defaultOrderStatus == defaultOrderStatus
    {
      users, nextUserId := map[], 1;
      carts, nextCartId := map[], 1;
      cartItems, nextCartItemId := map[], 1;
      reviews, nextReviewId := map[], 1;
      furniture, nextFurnitureId := map[], 1;
      categories, nextCategoryId := map[], 1;
      orders, nextOrderId := map[], 1;
      favourites := {};
      this.defaultOrderStatus := defaultOrderStatus;
    }
  }
}
