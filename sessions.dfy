/** The session record the cart views read and write, the identity of the
    caller, and the bridge that carries an anonymous cart across a logout and
    the next login. */
module Sessions {
  import opened Models
  import opened CartLogic

  /** The two session keys the views use: `cart_id` (the anonymous cart) and
      `cart_items` (the pairs saved at logout). */
  datatype Session = Session(cartId: Option<CartId>, cartItems: Option<seq<Pair>>)

  const EmptySession: Session := Session(None, None)

  /** request.user: anonymous, or a logged-in user. */
  datatype Identity = Anonymous | Authenticated(user: UserId)

  function OwnerFor(who: Identity): Option<UserId> {
    match who
    case Anonymous => None
    case Authenticated(u) => Some(u)
  }

  /** django.contrib.auth.logout: the session is flushed, every key goes. */
  function Flush(s: Session): Session {
    EmptySession
  }

  /** django.contrib.auth.login for user u: a session that belonged to
      another logged-in user is flushed; an anonymous session keeps its keys. */
  function LoginSession(s: Session, previous: Identity, u: UserId): Session {
    match previous
    case Authenticated(v) => if v != u then Flush(s) else s
    case Anonymous => s
  }

  /** The session logout_view leaves, as written: `cart_items` is stored
      (when an anonymous cart was found), then logout() flushes the session,
      then `cart_id` is popped. */
  function LogoutAsWritten(s: Session, saved: Option<seq<Pair>>): (r: Session)
    ensures r == EmptySession
  {
    var stored := if saved.Some? then s.(cartItems := saved) else s;
    Flush(stored).(cartId := None)
  }

  /** The session logout_view evidently means to leave: the flush first, then
      the anonymous cart's pairs stored for the next login. */
  function IntendedLogout(s: Session, saved: Option<seq<Pair>>): (r: Session)
    ensures r.cartId.None?
    ensures r.cartItems == saved
  {
    var flushed := Flush(s);
    (if saved.Some? then flushed.(cartItems := saved) else flushed).(cartId := None)
  }

  /** user_login's `session.pop('cart_items', [])`: the pending pairs, and the
      session without them. */
  function PopCartItems(s: Session): (Session, seq<Pair>) {
    (s.(cartItems := None), s.cartItems.GetOr([]))
  }

  /** As written, whatever the anonymous cart held, the session after logout
      carries no pairs, so the next login replays nothing into the user's
      cart: a cart with lines is not carried over. */
  lemma LogoutLosesSavedCart(s: Session, items: seq<Line>, books: map<BookId, Book>, u: UserId)
    requires items != []
    ensures var after := LoginSession(LogoutAsWritten(s, Some(Serialize(items))), Anonymous, u);
      && after.cartItems.None?
      && Merge([], PopCartItems(after).1, books) == Merged([], None)
      && Merge([], PopCartItems(after).1, books).items != items
  {
  }

  /** With the intended logout, the session bridge round-trips: the pairs of
      a well-formed anonymous cart survive logout, `cart_id` is gone, and the
      next login's replay into an empty user cart rebuilds exactly that
      cart's lines (quantities and line totals). */
  lemma BridgeRoundTrip(s: Session, items: seq<Line>, books: map<BookId, Book>, u: UserId)
    requires UniqueBooks(items) && Priced(items, books)
    ensures var after := LoginSession(IntendedLogout(s, Some(Serialize(items))), Anonymous, u);
      && after.cartId.None?
      && PopCartItems(after).0.cartItems.None?
      && Merge([], PopCartItems(after).1, books) == Merged(items, None)
  {
    SerializeRoundTrip(items, books);
  }
}
