/** The Book / Cart / CartItem / Order / User schema as plain values, with the
    constraints the database declares and the invariants the views rely on.
    Amounts are integer cents. */
module Models {

  datatype Option<T> = None | Some(value: T) {
    function GetOr(default: T): T {
      match this
      case Some(v) => v
      case None => default
    }
  }

  type BookId = nat
  type CartId = nat
  type UserId = nat

  /** The largest magnitude a DecimalField(max_digits=10, decimal_places=2)
      holds, in cents: 99,999,999.99. */
  const MaxCents: int := 9_999_999_999

  datatype Book = Book(title: string, author: string, genre: string, price: int)

  /** The fields of a User row that the views read. */
  datatype Account = Account(username: string, email: string, active: bool, staff: bool)

  /** A CartItem row. Its cart reference is the key of the cart holding it. */
  datatype Line = Line(book: BookId, quantity: nat, total: int)

  /** A Cart row with its CartItems, oldest first. `owner` is None for an
      anonymous cart; `total` is the cached total_price column. */
  datatype Cart = Cart(owner: Option<UserId>, total: int, items: seq<Line>)

  datatype Order = Order(cart: CartId, total: int)

  /** Column defaults: CartItem.quantity = 1, CartItem.total_price = 0,
      Cart.total_price = 0. */
  const DefaultQuantity: nat := 1
  const DefaultLineTotal: int := 0
  const DefaultCartTotal: int := 0

  /** The row `get_or_create` inserts for a book that has no line yet. */
  function DefaultLine(b: BookId): Line {
    Line(b, DefaultQuantity, DefaultLineTotal)
  }

  /** A freshly created cart. */
  function NewCart(owner: Option<UserId>): Cart {
    Cart(owner, DefaultCartTotal, [])
  }

  /** What a valid BookForm admits: the CharField lengths and a price that
      fits the DecimalField. */
  predicate BookFormValid(b: Book) {
    && |b.title| <= 100
    && |b.author| <= 50
    && |b.genre| <= 50
    && -MaxCents <= b.price <= MaxCents
  }

  /** unique_together = ('cart', 'book'): at most one line per book. */
  predicate UniqueBooks(items: seq<Line>) {
    forall i, j :: 0 <= i < j < |items| ==> items[i].book != items[j].book
  }

  /** Every line refers to an existing book (CartItem.book is a foreign key)
      and its total is quantity times that book's price. */
  predicate Priced(items: seq<Line>, books: map<BookId, Book>) {
    forall i :: 0 <= i < |items| ==>
      items[i].book in books && items[i].total == items[i].quantity * books[items[i].book].price
  }

  predicate CartWellFormed(c: Cart, books: map<BookId, Book>) {
    UniqueBooks(c.items) && Priced(c.items, books)
  }

  /** Cart.user is a plain foreign key, so the schema allows several carts
      per user; the views keep it to one because every lookup is a
      get_or_create on the user. */
  predicate OneCartPerOwner(carts: map<CartId, Cart>) {
    forall i, j :: i in carts && j in carts && i != j && carts[i].owner.Some? ==>
      carts[i].owner != carts[j].owner
  }

  /** Order.cart is a OneToOneField: an order refers to an existing cart and
      no two orders share one. */
  predicate OrdersConsistent(orders: set<Order>, carts: map<CartId, Cart>) {
    && (forall o :: o in orders ==> o.cart in carts)
    && (forall o, p :: o in orders && p in orders && o.cart == p.cart ==> o == p)
  }

  /** User.username is unique. */
  predicate UniqueUsernames(accounts: map<UserId, Account>) {
    forall u, v :: u in accounts && v in accounts && u != v ==>
      accounts[u].username != accounts[v].username
  }

  predicate Catalogued(books: map<BookId, Book>) {
    forall b :: b in books ==> -MaxCents <= books[b].price <= MaxCents
  }

  /** Deleting a Book cascades to every CartItem that refers to it; the
      carts' cached totals are left as they were. */
  function CascadeBookDelete(carts: map<CartId, Cart>, b: BookId): (r: map<CartId, Cart>)
    ensures r.Keys == carts.Keys
    ensures forall id :: id in r ==>
      && r[id].owner == carts[id].owner
      && r[id].total == carts[id].total
      && (forall i :: 0 <= i < |r[id].items| ==> r[id].items[i].book != b)
      && (forall l :: l in carts[id].items && l.book != b ==> l in r[id].items)
      && (forall l :: l in r[id].items ==> l in carts[id].items)
  {
    map id | id in carts :: carts[id].(items := Without(carts[id].items, b))
  }

  /** The lines that do not refer to book `b`, in their order. */
  function Without(items: seq<Line>, b: BookId): (r: seq<Line>)
    ensures forall i :: 0 <= i < |r| ==> r[i].book != b
    ensures forall l :: l in items && l.book != b ==> l in r
    ensures forall l :: l in r ==> l in items
    ensures |r| <= |items|
  {
    if items == [] then []
    else if items[0].book == b then Without(items[1..], b)
    else [items[0]] + Without(items[1..], b)
  }

  /** Deleting a Cart cascades to the Order that refers to it. */
  function CascadeCartDelete(orders: set<Order>, id: CartId): set<Order> {
    set o | o in orders && o.cart != id
  }

  /** The cart-delete cascade keeps Order.cart a one-to-one reference: every
      order left refers to a cart that is still there, and at most one order
      refers to each cart. */
  lemma CartDeleteKeepsOrders(orders: set<Order>, carts: map<CartId, Cart>, id: CartId)
    requires OrdersConsistent(orders, carts)
    ensures OrdersConsistent(CascadeCartDelete(orders, id), carts - {id})
  {
  }

  /** Deleting every line of one book keeps a cart well formed against the
      catalog without that book. */
  lemma {:induction false} WithoutWellFormed(items: seq<Line>, b: BookId, books: map<BookId, Book>)
    requires UniqueBooks(items) && Priced(items, books)
    ensures UniqueBooks(Without(items, b)) && Priced(Without(items, b), books - {b})
  {
    if items != [] {
      var rest := items[1..];
      assert UniqueBooks(rest) && Priced(rest, books) by {
        forall i | 0 <= i < |rest| ensures rest[i] == items[i + 1] { }
      }
      WithoutWellFormed(rest, b, books);
      var r := Without(items, b);
      forall l | l in r ensures l.book in books - {b} && l.total == l.quantity * books[l.book].price {
        var k :| 0 <= k < |items| && items[k] == l;
      }
      if items[0].book != b {
        forall l | l in Without(rest, b) ensures l.book != items[0].book {
          var k :| 0 <= k < |rest| && rest[k] == l;
          assert items[k + 1] == l;
        }
      }
    }
  }
}
