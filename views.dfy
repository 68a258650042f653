/** The views of the bookstore as methods on one store: the catalog, the
    users, the carts with their lines and the orders. Each request is one
    method call; the session comes in as a value and goes out as a value. */
module Views {
  import opened Models
  import opened CartLogic
  import opened Catalog
  import opened Sessions

  /** The user-visible messages of the failure paths. */
  datatype Notice =
    | CartNotFound
    | NotInCart
    | UpdateFailed
    | UsernameTaken
    | EmailTaken
    | AccountDisabled
    | BadCredentials

  /** How a request ends. */
  datatype Outcome =
    | Done                    // the view's success path
    | Ignored                 // not a POST, an invalid form, or a non-staff caller: nothing is written
    | Warned(notice: Notice)  // a message, and nothing is written
    | Failed(status: nat)     // an HTTP error status: 400, 404, 405 or 500

  /** sync_cart's request body: JSON that does not parse, or its `cart` list. */
  datatype SyncBody = Malformed | Payload(pairs: seq<Pair>)

  /** The position of the last '@' in an address, if it has one. */
  function LastAt(s: string): (r: Option<nat>)
    ensures r.Some? ==> r.value < |s| && s[r.value] == '@' && forall j :: r.value < j < |s| ==> s[j] != '@'
    ensures r.None? ==> forall j :: 0 <= j < |s| ==> s[j] != '@'
  {
    if s == [] then None
    else if s[|s| - 1] == '@' then Some(|s| - 1)
    else LastAt(s[..|s| - 1])
  }

  /** UserManager.normalize_email, which create_user applies before storing:
      the domain (everything after the last '@') is lower-cased, the name
      before it is kept; an address without '@' is kept as it is. */
  function NormalizeEmail(email: string): (r: string)
    ensures |r| == |email|
    ensures forall j :: 0 <= j < |email| ==>
      r[j] == if LastAt(email).Some? && LastAt(email).value < j then Lower(email[j]) else email[j]
  {
    match LastAt(email)
    case None => email
    case Some(k) => email[..k + 1] + Fold(email[k + 1..])
  }

  lemma LowerKeepsAt(c: char)
    ensures Lower(c) == '@' <==> c == '@'
  {
  }

  lemma LowerTwice(c: char)
    ensures Lower(Lower(c)) == Lower(c)
  {
  }

  /** Normalising a stored address again changes nothing, so an address
      that create_user stored is found by the taken-email check when typed
      in its normal form. */
  lemma NormalizeEmailTwice(email: string)
    ensures NormalizeEmail(NormalizeEmail(email)) == NormalizeEmail(email)
  {
    var r := NormalizeEmail(email);
    match LastAt(email)
    case None =>
      assert r == email;
    case Some(k) =>
      NormalizeKeepsLastAt(email, k);
      var rr := NormalizeEmail(r);
      forall j | 0 <= j < |email| ensures rr[j] == r[j] {
        LowerTwice(email[j]);
      }
      assert rr == r;
  }

  /** Normalising moves no '@', so the last one stays where it was. */
  lemma NormalizeKeepsLastAt(email: string, k: nat)
    requires LastAt(email) == Some(k)
    ensures LastAt(NormalizeEmail(email)) == Some(k)
  {
    var r := NormalizeEmail(email);
    forall j | k < j < |r| ensures r[j] != '@' {
      LowerKeepsAt(email[j]);
    }
    LastAtIs(r, k);
  }

  /** Two addresses with the same name and the same last '@' whose domains
      differ only in case ("x@Shop.com" and "x@shop.com") are stored as the
      same address. */
  lemma SameDomainFolded(a: string, b: string, k: nat)
    requires |a| == |b| && LastAt(a) == Some(k) && LastAt(b) == Some(k)
    requires forall j :: 0 <= j <= k ==> a[j] == b[j]
    requires forall j :: k < j < |a| ==> Lower(a[j]) == Lower(b[j])
    ensures NormalizeEmail(a) == NormalizeEmail(b)
  {
    var na, nb := NormalizeEmail(a), NormalizeEmail(b);
    forall j | 0 <= j < |a| ensures na[j] == nb[j] { }
  }

  /** An '@' with none after it is the last one. */
  lemma LastAtIs(s: string, k: nat)
    requires k < |s| && s[k] == '@' && forall j :: k < j < |s| ==> s[j] != '@'
    ensures LastAt(s) == Some(k)
  {
  }

  class Store {
    var books: map<BookId, Book>
    var nextBookId: nat
    var accounts: map<UserId, Account>
    var nextUserId: nat
    var carts: map<CartId, Cart>
    var nextCartId: nat
    var orders: set<Order>

    /** The schema's constraints and the invariants the views keep. */
    ghost predicate Valid()
      reads this
    {
      && Catalogued(books)
      && (forall b :: b in books ==> b < nextBookId)
      && (forall u :: u in accounts ==> u < nextUserId)
      && UniqueUsernames(accounts)
      && 0 < nextCartId
      && (forall id :: id in carts ==> 0 < id < nextCartId)
      && (forall id :: id in carts ==> CartWellFormed(carts[id], books))
      && OneCartPerOwner(carts)
      && OrdersConsistent(orders, carts)
    }

    /** An empty database; primary keys start at 1. */
    constructor ()
      ensures Valid()
      ensures books == map[] && accounts == map[] && carts == map[] && orders == {}
    {
      books, accounts, carts, orders := map[], map[], map[], {};
      nextBookId, nextUserId, nextCartId := 1, 1, 1;
    }

    predicate IsStaff(who: Identity)
      reads this`accounts
    {
      who.Authenticated? && who.user in accounts && accounts[who.user].staff
    }

    // -------------------------------------------------------------------
    // Cart resolver

    /** The cart get_cart finds without creating one: the user's cart, or
        the cart whose id the session holds. */
    ghost function Found(who: Identity, session: Session): (r: Option<CartId>)
      reads this`carts
      ensures r.Some? ==> r.value in carts
      ensures who.Authenticated? && r.Some? ==> carts[r.value].owner == Some(who.user)
      ensures who.Authenticated? && r.None? ==> forall id :: id in carts ==> carts[id].owner != Some(who.user)
      ensures who.Anonymous? ==>
        r == if session.cartId.Some? && session.cartId.value != 0 && session.cartId.value in carts then session.cartId else None
    {
      match who
      case Anonymous =>
        if session.cartId.Some? && session.cartId.value != 0 && session.cartId.value in carts then session.cartId else None
      case Authenticated(u) =>
        if exists id :: id in carts && carts[id].owner == Some(u) then
          var id :| id in carts && carts[id].owner == Some(u); Some(id)
        else None
    }

    /** Whether get_cart creates a cart: only for a user who has none. */
    ghost predicate GetCartCreates(who: Identity, session: Session)
      reads this`carts
    {
      who.Authenticated? && Found(who, session).None?
    }

    /** What get_cart returns. */
    ghost function LookedUp(who: Identity, session: Session): (r: Option<CartId>)
      reads this`carts, this`nextCartId
      ensures who.Authenticated? ==> r.Some?
      ensures r.Some? ==> r.value in LookedUpCarts(who, session)
    {
      if GetCartCreates(who, session) then Some(nextCartId) else Found(who, session)
    }

    /** The carts once get_cart has run. */
    ghost function LookedUpCarts(who: Identity, session: Session): map<CartId, Cart>
      reads this`carts, this`nextCartId
    {
      if GetCartCreates(who, session) then carts[nextCartId := NewCart(OwnerFor(who))] else carts
    }

    ghost function LookedUpNext(who: Identity, session: Session): nat
      reads this`carts, this`nextCartId
    {
      if GetCartCreates(who, session) then nextCartId + 1 else nextCartId
    }

    /** The cart `get_cart(request) or create_cart(request)` ends with. */
    ghost function Target(who: Identity, session: Session): CartId
      reads this`carts, this`nextCartId
    {
      if Found(who, session).Some? then Found(who, session).value else nextCartId
    }

    /** The carts once `get_cart(request) or create_cart(request)` has run. */
    ghost function ResolvedCarts(who: Identity, session: Session): (r: map<CartId, Cart>)
      reads this`carts, this`nextCartId
      ensures Target(who, session) in r
    {
      if Found(who, session).Some? then carts else carts[nextCartId := NewCart(OwnerFor(who))]
    }

    /** The session once `get_cart(request) or create_cart(request)` has run:
        a new anonymous cart's id is stored in it. */
    ghost function ResolvedSession(who: Identity, session: Session): Session
      reads this`carts, this`nextCartId
    {
      if Found(who, session).None? && who.Anonymous? then session.(cartId := Some(nextCartId)) else session
    }

    ghost function ResolvedNext(who: Identity, session: Session): nat
      reads this`carts, this`nextCartId
    {
      if Found(who, session).Some? then nextCartId else nextCartId + 1
    }

    /** CartManager.get_cart: a user's cart by get_or_create (so a user
        without one gets a new empty cart), an anonymous caller's cart by the
        session's `cart_id`, or none. */
    method GetCart(who: Identity, session: Session) returns (cart: Option<CartId>)
      requires Valid()
      modifies this`carts, this`nextCartId
      ensures Valid()
      ensures cart == old(LookedUp(who, session))
      ensures carts == old(LookedUpCarts(who, session))
      ensures nextCartId == old(LookedUpNext(who, session))
    {
      match who
      case Anonymous =>
        if session.cartId.None? || session.cartId.value == 0 {
          cart := None;
        } else if session.cartId.value in carts {
          cart := session.cartId;
        } else {
          cart := None;
        }
      case Authenticated(u) =>
        var owned := set id | id in carts && carts[id].owner == Some(u);
        if owned == {} {
          assert forall id :: id in carts && carts[id].owner == Some(u) ==> id in owned;
          var id := nextCartId;
          carts := carts[id := NewCart(Some(u))];
          nextCartId := nextCartId + 1;
          cart := Some(id);
        } else {
          var id :| id in owned;
          assert Found(who, session).value == id;
          cart := Some(id);
        }
    }

    /** CartManager.create_cart: a new cart owned by the user, or a new
        anonymous cart whose id goes into the session. Callers only reach it
        when get_cart found nothing, which keeps one cart per user. */
    method CreateCart(who: Identity, session: Session) returns (id: CartId, session': Session)
      requires Valid()
      requires who.Authenticated? ==> Found(who, session).None?
      modifies this`carts, this`nextCartId
      ensures Valid()
      ensures id == old(nextCartId) && id !in old(carts) && nextCartId == id + 1
      ensures carts == old(carts)[id := NewCart(OwnerFor(who))]
      ensures session' == if who.Anonymous? then session.(cartId := Some(id)) else session
    {
      id := nextCartId;
      carts := carts[id := NewCart(OwnerFor(who))];
      nextCartId := nextCartId + 1;
      session' := if who.Anonymous? then session.(cartId := Some(id)) else session;
    }

    /** `CartManager.get_cart(request) or CartManager.create_cart(request)`. */
    method ResolveOrCreate(who: Identity, session: Session) returns (id: CartId, session': Session)
      requires Valid()
      modifies this`carts, this`nextCartId
      ensures Valid()
      ensures id == old(Target(who, session)) && id in carts
      ensures carts == old(ResolvedCarts(who, session))
      ensures session' == old(ResolvedSession(who, session))
      ensures nextCartId == old(ResolvedNext(who, session))
    {
      var cart := GetCart(who, session);
      if cart.Some? {
        id, session' := cart.value, session;
      } else {
        id, session' := CreateCart(who, session);
      }
    }

    // -------------------------------------------------------------------
    // Read-only cart views (get_cart may still create a user's cart)

    /** The cart page: calculate_total of the cart get_cart finds, 0 without
        one. */
    method CartPage(who: Identity, session: Session) returns (total: int)
      requires Valid()
      modifies this`carts, this`nextCartId
      ensures Valid()
      ensures carts == old(LookedUpCarts(who, session)) && nextCartId == old(LookedUpNext(who, session))
      ensures var cart := old(LookedUp(who, session));
        total == if cart.Some? then Total(carts[cart.value].items) else 0
    {
      var cart := GetCart(who, session);
      total := if cart.Some? then Total(carts[cart.value].items) else 0;
    }

    /** get_cart_count: the sum of the quantities of the cart's lines, 0
        without a cart. */
    method GetCartCount(who: Identity, session: Session) returns (count: nat)
      requires Valid()
      modifies this`carts, this`nextCartId
      ensures Valid()
      ensures carts == old(LookedUpCarts(who, session)) && nextCartId == old(LookedUpNext(who, session))
      ensures var cart := old(LookedUp(who, session));
        count == if cart.Some? then Count(carts[cart.value].items) else 0
      ensures old(Found(who, session)).None? ==> count == 0
    {
      var cart := GetCart(who, session);
      count := if cart.Some? then Count(carts[cart.value].items) else 0;
    }

    /** get_cart_items: book, quantity and line total of every line, oldest
        first; the empty list without a cart. */
    method GetCartItems(who: Identity, session: Session) returns (entries: seq<Entry>)
      requires Valid()
      modifies this`carts, this`nextCartId
      ensures Valid()
      ensures carts == old(LookedUpCarts(who, session)) && nextCartId == old(LookedUpNext(who, session))
      ensures var cart := old(LookedUp(who, session));
        entries == if cart.Some? then Entries(carts[cart.value].items) else []
    {
      var cart := GetCart(who, session);
      if cart.None? {
        entries := [];
      } else {
        entries := Entries(carts[cart.value].items);
      }
    }

    // -------------------------------------------------------------------
    // Cart mutations

    /** add_to_cart: 404 for an unknown book; otherwise the cart is resolved
        or created, the book's line is created with quantity 1 and total
        price, or its quantity raised by one and its total recomputed, and
        the cart's total is resynchronised. */
    method AddToCart(who: Identity, session: Session, b: BookId) returns (outcome: Outcome, session': Session)
      requires Valid()
      modifies this`carts, this`nextCartId
      ensures Valid()
      ensures b !in books ==>
        outcome == Failed(404) && carts == old(carts) && nextCartId == old(nextCartId) && session' == session
      ensures b in books ==>
        var id := old(Target(who, session));
        var before := old(ResolvedCarts(who, session));
        && outcome == Done
        && session' == old(ResolvedSession(who, session))
        && nextCartId == old(ResolvedNext(who, session))
        && carts == before[id := Resync(before[id].(items := Upsert(before[id].items, b, 1, books[b].price)))]
        && Synced(carts[id])
        && QuantityOf(carts[id].items, b) == QuantityOf(before[id].items, b) + 1
    {
      if b !in books {
        return Failed(404), session;
      }
      var id;
      id, session' := ResolveOrCreate(who, session);
      AddCopy(id, b);
      outcome := Done;
    }

    /** The write of add_to_cart: a new line with the default quantity 1 and
        total the book's price, or one more copy on the existing line with
        its total recomputed; then the cart's total is resynchronised. */
    method AddCopy(id: CartId, b: BookId)
      requires Valid() && id in carts && b in books
      modifies this`carts
      ensures Valid()
      ensures carts == old(carts)[id := Resync(old(carts[id]).(items := Upsert(old(carts[id].items), b, 1, books[b].price)))]
      ensures QuantityOf(carts[id].items, b) == QuantityOf(old(carts[id].items), b) + 1
    {
      var book := books[b];
      var items := carts[id].items;
      var pos: nat;
      var line: Line;
      match FindLine(items, b) {
        case None =>
          items := items + [DefaultLine(b)];
          pos := |items| - 1;
          line := items[pos].(total := book.price);
        case Some(k) =>
          pos := k;
          line := items[k].(quantity := items[k].quantity + 1);
          line := line.(total := book.price * line.quantity);
      }
      items := items[pos := line];
      assert items == Upsert(carts[id].items, b, 1, book.price);
      UpsertWellFormed(carts[id].items, b, 1, books);
      UpsertQuantities(carts[id].items, b, 1, book.price, b);
      SaveLines(id, items);
    }

    /** update_quantity: on a POST, the line of book b in the cart gets the
        new quantity of NewQuantity and total quantity times price, and the
        cart's total is resynchronised; without a cart or a line, only an
        error message. */
    method UpdateQuantity(who: Identity, session: Session, b: BookId, isPost: bool, action: Option<string>)
      returns (outcome: Outcome)
      requires Valid()
      modifies this`carts, this`nextCartId
      ensures Valid()
      ensures !isPost ==> outcome == Ignored && carts == old(carts) && nextCartId == old(nextCartId)
      ensures isPost ==>
        var cart := old(LookedUp(who, session));
        var before := old(LookedUpCarts(who, session));
        && nextCartId == old(LookedUpNext(who, session))
        && (cart.None? || !HasLine(before[cart.value].items, b) ==>
              outcome == Warned(UpdateFailed) && carts == before)
        && (cart.Some? && HasLine(before[cart.value].items, b) ==>
              var id := cart.value;
              var i := FindLine(before[id].items, b).value;
              var q := NewQuantity(before[id].items[i].quantity, action);
              && b in books
              && outcome == Done
              && carts == before[id := Resync(before[id].(items := before[id].items[i := Line(b, q, q * books[b].price)]))])
    {
      if !isPost {
        return Ignored;
      }
      var cart := GetCart(who, session);
      if cart.None? {
        return Warned(UpdateFailed);
      }
      var id := cart.value;
      var found := FindLine(carts[id].items, b);
      if found.None? {
        return Warned(UpdateFailed);
      }
      SetQuantity(id, found.value, action);
      outcome := Done;
    }

    /** The write of update_quantity: the line at position i gets
        NewQuantity and total quantity times price, then the cart's total is
        resynchronised. Every other line and every other cart is unchanged. */
    method SetQuantity(id: CartId, i: nat, action: Option<string>)
      requires Valid() && id in carts && i < |carts[id].items|
      modifies this`carts
      ensures Valid()
      ensures var line := old(carts[id].items[i]);
        var q := NewQuantity(line.quantity, action);
        && line.book in books
        && carts == old(carts)[id := Resync(old(carts[id]).(items := old(carts[id].items)[i := Line(line.book, q, q * books[line.book].price)]))]
    {
      var items := carts[id].items;
      var line := items[i];
      line := line.(quantity := NewQuantity(line.quantity, action));
      line := line.(total := line.quantity * books[line.book].price);
      assert UniqueBooks(items[i := line]) && Priced(items[i := line], books) by {
        forall j | 0 <= j < |items| ensures items[i := line][j].book == items[j].book { }
      }
      SaveLines(id, items[i := line]);
    }

    /** remove_from_cart: 404 for an unknown book; a warning without a cart
        or without a line for the book; otherwise the line is deleted and the
        cart's total resynchronised. */
    method RemoveFromCart(who: Identity, session: Session, b: BookId) returns (outcome: Outcome)
      requires Valid()
      modifies this`carts, this`nextCartId
      ensures Valid()
      ensures b !in books ==> outcome == Failed(404) && carts == old(carts) && nextCartId == old(nextCartId)
      ensures b in books ==>
        var cart := old(LookedUp(who, session));
        var before := old(LookedUpCarts(who, session));
        && nextCartId == old(LookedUpNext(who, session))
        && (cart.None? ==> outcome == Warned(CartNotFound) && carts == before)
        && (cart.Some? && !HasLine(before[cart.value].items, b) ==>
              outcome == Warned(NotInCart) && carts == before)
        && (cart.Some? && HasLine(before[cart.value].items, b) ==>
              && outcome == Done
              && carts == before[cart.value := Resync(before[cart.value].(items := Without(before[cart.value].items, b)))]
              && !HasLine(carts[cart.value].items, b)
              && |carts[cart.value].items| == |before[cart.value].items| - 1)
    {
      if b !in books {
        return Failed(404);
      }
      var cart := GetCart(who, session);
      if cart.None? {
        return Warned(CartNotFound);
      }
      var id := cart.value;
      var found := FindLine(carts[id].items, b);
      if found.None? {
        return Warned(NotInCart);
      }
      DropLine(id, b);
      outcome := Done;
    }

    /** The write of remove_from_cart: the book's line is deleted, then the
        cart's total is resynchronised. */
    method DropLine(id: CartId, b: BookId)
      requires Valid() && id in carts && HasLine(carts[id].items, b)
      modifies this`carts
      ensures Valid()
      ensures carts == old(carts)[id := Resync(old(carts[id]).(items := Without(old(carts[id].items), b)))]
      ensures !HasLine(carts[id].items, b) && |carts[id].items| == |old(carts[id].items)| - 1
    {
      var items := carts[id].items;
      var i := FindLine(items, b).value;
      DropFound(items, b, books);
      SaveLines(id, DropAt(items, i));
    }

    /** Saving new lines for cart `id` that keep one line per book and every
        line priced, then `cart.total_price = calculate_total(cart)`. */
    method SaveLines(id: CartId, items: seq<Line>)
      requires Valid() && id in carts && UniqueBooks(items) && Priced(items, books)
      modifies this`carts
      ensures Valid()
      ensures carts == old(carts)[id := Resync(old(carts[id]).(items := items))]
    {
      carts := carts[id := Resync(carts[id].(items := items))];
    }

    /** One pass of the merge loop for a pair whose book exists: its line is
        created with the pair's quantity, or has the quantity added, and the
        line total is recomputed from the book's price. */
    method ReplayPair(id: CartId, x: Pair)
      requires Valid() && id in carts && x.book in books
      modifies this`carts
      ensures Valid()
      ensures carts == old(carts)[id := old(carts[id]).(items := Upsert(old(carts[id].items), x.book, x.quantity, books[x.book].price))]
    {
      var price := books[x.book].price;
      var items := carts[id].items;
      var pos: nat;
      var line: Line;
      match FindLine(items, x.book) {
        case None =>
          items := items + [DefaultLine(x.book)];
          pos := |items| - 1;
          line := items[pos].(quantity := x.quantity);
        case Some(k) =>
          pos := k;
          line := items[k].(quantity := items[k].quantity + x.quantity);
      }
      line := line.(total := price * line.quantity);
      items := items[pos := line];
      assert items == Upsert(carts[id].items, x.book, x.quantity, price);
      UpsertWellFormed(carts[id].items, x.book, x.quantity, books);
      carts := carts[id := carts[id].(items := items)];
    }

    /** The merge loop of sync_cart and user_login: each pair's book is
        looked up (the loop stops at one that does not exist, keeping what it
        wrote), then its line is created with the pair's quantity or has the
        quantity added, and the line total is recomputed. The cart's cached
        total is not touched. */
    method MergeInto(id: CartId, incoming: seq<Pair>) returns (missing: Option<BookId>)
      requires Valid() && id in carts
      modifies this`carts
      ensures Valid()
      ensures var m := Merge(old(carts[id].items), incoming, books);
        missing == m.missing && carts == old(carts)[id := old(carts[id]).(items := m.items)]
    {
      var i := 0;
      while i < |incoming|
        invariant 0 <= i <= |incoming|
        invariant Valid() && id in carts
        invariant carts == old(carts)[id := old(carts[id]).(items := carts[id].items)]
        invariant Merge(carts[id].items, incoming[i..], books) == Merge(old(carts[id].items), incoming, books)
      {
        var x := incoming[i];
        assert incoming[i..][0] == x && incoming[i..][1..] == incoming[i + 1..];
        if x.book !in books {
          return Some(x.book);
        }
        ReplayPair(id, x);
        i := i + 1;
      }
      assert incoming[i..] == [];
      missing := None;
    }

    /** sync_cart: 405 for anything but a POST; 400 for a body that does not
        parse, before anything is written; otherwise the cart is resolved or
        created and the pairs merged into it; 400 when a book does not exist,
        with the lines merged before it kept and the total not resynchronised;
        else the total is resynchronised. */
    method SyncCart(who: Identity, session: Session, isPost: bool, body: SyncBody)
      returns (outcome: Outcome, session': Session)
      requires Valid()
      modifies this`carts, this`nextCartId
      ensures Valid()
      ensures !isPost ==>
        outcome == Failed(405) && carts == old(carts) && nextCartId == old(nextCartId) && session' == session
      ensures isPost && body.Malformed? ==>
        outcome == Failed(400) && carts == old(carts) && nextCartId == old(nextCartId) && session' == session
      ensures isPost && body.Payload? ==>
        var id := old(Target(who, session));
        var before := old(ResolvedCarts(who, session));
        var m := Merge(before[id].items, body.pairs, books);
        && session' == old(ResolvedSession(who, session))
        && nextCartId == old(ResolvedNext(who, session))
        && (m.missing.None? ==>
              outcome == Done && carts == before[id := Resync(before[id].(items := m.items))])
        && (m.missing.Some? ==>
              outcome == Failed(400) && carts == before[id := before[id].(items := m.items)])
    {
      if !isPost {
        return Failed(405), session;
      }
      if body.Malformed? {
        return Failed(400), session;
      }
      var id;
      id, session' := ResolveOrCreate(who, session);
      var missing := MergeInto(id, body.pairs);
      if missing.Some? {
        return Failed(400), session';
      }
      ResyncCart(id);
      outcome := Done;
    }

    /** `cart.total_price = calculate_total(cart); cart.save()`. */
    method ResyncCart(id: CartId)
      requires Valid() && id in carts
      modifies this`carts
      ensures Valid()
      ensures carts == old(carts)[id := Resync(old(carts[id]))]
      ensures Synced(carts[id])
    {
      carts := carts[id := Resync(carts[id])];
    }

    // -------------------------------------------------------------------
    // Session bridge

    /** user_login: on a POST with valid credentials of an active user, the
        user is logged in, the user's cart is found or created, the session's
        `cart_items` is popped and merged into it (404 at a book that does
        not exist, keeping the lines merged before it). The cart's cached
        total is left as it was. */
    method UserLogin(who: Identity, session: Session, isPost: bool, auth: Option<UserId>)
      returns (outcome: Outcome, who': Identity, session': Session)
      requires Valid()
      requires auth.Some? ==> auth.value in accounts
      modifies this`carts, this`nextCartId
      ensures Valid()
      ensures !isPost || auth.None? || !accounts[auth.value].active ==>
        && who' == who && session' == session
        && carts == old(carts) && nextCartId == old(nextCartId)
        && outcome == (if !isPost then Ignored else if auth.None? then Warned(BadCredentials) else Warned(AccountDisabled))
      ensures isPost && auth.Some? && accounts[auth.value].active ==>
        var s := LoginSession(session, who, auth.value);
        var id := old(Target(Authenticated(auth.value), s));
        var before := old(ResolvedCarts(Authenticated(auth.value), s));
        var m := Merge(before[id].items, PopCartItems(s).1, books);
        && who' == Authenticated(auth.value)
        && session' == PopCartItems(s).0
        && nextCartId == old(ResolvedNext(Authenticated(auth.value), s))
        && carts == before[id := before[id].(items := m.items)]
        && carts[id].total == before[id].total
        && outcome == (if m.missing.None? then Done else Failed(404))
    {
      who', session' := who, session;
      if !isPost {
        return Ignored, who', session';
      }
      if auth.None? {
        return Warned(BadCredentials), who', session';
      }
      var u := auth.value;
      if !accounts[u].active {
        return Warned(AccountDisabled), who', session';
      }
      who' := Authenticated(u);
      session' := LoginSession(session, who, u);
      var id;
      id, session' := ResolveOrCreate(who', session');
      var pending;
      session', pending := PopCartItems(session').0, PopCartItems(session').1;
      var missing := MergeInto(id, pending);
      outcome := if missing.Some? then Failed(404) else Done;
    }

    /** logout_view, with the session flushed before the anonymous cart's
        pairs are stored (see Sessions.LogoutAsWritten for the order the code
        has): `cart_id` goes and `cart_items` holds exactly the serialized
        lines of the anonymous caller's cart. get_cart runs first, so a user
        without a cart gets one. */
    method LogoutView(who: Identity, session: Session) returns (session': Session)
      requires Valid()
      modifies this`carts, this`nextCartId
      ensures Valid()
      ensures carts == old(LookedUpCarts(who, session)) && nextCartId == old(LookedUpNext(who, session))
      ensures var cart := old(LookedUp(who, session));
        && session'.cartId.None?
        && session'.cartItems == if cart.Some? && who.Anonymous? then Some(Serialize(carts[cart.value].items)) else None
    {
      var cart := GetCart(who, session);
      var saved: Option<seq<Pair>> := None;
      if cart.Some? && who.Anonymous? {
        saved := Some(Serialize(carts[cart.value].items));
      }
      session' := IntendedLogout(session, saved);
    }

    // -------------------------------------------------------------------
    // Order snapshot

    /** OrderManager.create_order: an order carrying the cart's cached total;
        a second order for the same cart violates the one-to-one constraint
        and nothing is written. */
    method CreateOrder(id: CartId) returns (order: Option<Order>)
      requires Valid() && id in carts
      modifies this`orders
      ensures Valid()
      ensures (exists o :: o in old(orders) && o.cart == id) ==> order.None? && orders == old(orders)
      ensures (forall o :: o in old(orders) ==> o.cart != id) ==>
        order == Some(Order(id, carts[id].total)) && orders == old(orders) + {Order(id, carts[id].total)}
    {
      if exists o :: o in orders && o.cart == id {
        return None;
      }
      var o := Order(id, carts[id].total);
      orders := orders + {o};
      order := Some(o);
    }

    /** OrderManager.clear_cart: the cart get_cart finds loses its lines and
        is deleted, which also deletes the order on it; `cart_id` leaves the
        session. */
    method ClearCart(who: Identity, session: Session) returns (session': Session)
      requires Valid()
      modifies this`carts, this`nextCartId, this`orders
      ensures Valid()
      ensures nextCartId == old(LookedUpNext(who, session))
      ensures var cart := old(LookedUp(who, session));
        var before := old(LookedUpCarts(who, session));
        if cart.Some? then
          && carts == before - {cart.value}
          && orders == CascadeCartDelete(old(orders), cart.value)
          && session' == session.(cartId := None)
        else
          carts == before && orders == old(orders) && session' == session
    {
      var cart := GetCart(who, session);
      if cart.None? {
        return session;
      }
      var id := cart.value;
      carts := carts[id := carts[id].(items := [])];
      carts := carts - {id};
      orders := CascadeCartDelete(orders, id);
      session' := session.(cartId := None);
    }

    /** The order flow of checkout and order_confirmation. With a valid
        form: an order with the cart's cached total is created, then the
        cart is cleared, which takes the order with it. */
    method PlaceOrder(who: Identity, session: Session, id: CartId) returns (order: Option<Order>, session': Session)
      requires Valid()
      requires LookedUp(who, session) == Some(id) && LookedUpCarts(who, session) == carts
      modifies this`carts, this`nextCartId, this`orders
      ensures Valid() && nextCartId == old(nextCartId)
      ensures (exists o :: o in old(orders) && o.cart == id) ==>
        order.None? && carts == old(carts) && orders == old(orders) && session' == session
      ensures (forall o :: o in old(orders) ==> o.cart != id) ==>
        && order == Some(Order(id, old(carts[id].total)))
        && carts == old(carts) - {id}
        && orders == old(orders)
        && session' == session.(cartId := None)
    {
      order := CreateOrder(id);
      if order.None? {
        return order, session;
      }
      assert LookedUp(who, session) == Some(id) && LookedUpCarts(who, session) == carts;
      session' := ClearCart(who, session);
    }

    /** After get_cart returned `id`, the same lookup finds `id` again and
        creates nothing. */
    lemma FoundAgain(who: Identity, session: Session, id: CartId)
      requires Valid()
      requires id in carts
      requires who.Anonymous? ==> session.cartId == Some(id) && id != 0
      requires who.Authenticated? ==> carts[id].owner == Some(who.user)
      ensures LookedUp(who, session) == Some(id) && LookedUpCarts(who, session) == carts
    {
    }

    /** checkout: a warning without a cart; with a POST and a valid form, the
        order is placed and the request ends on the success page. */
    method Checkout(who: Identity, session: Session, isPost: bool, formValid: bool)
      returns (outcome: Outcome, order: Option<Order>, session': Session)
      requires Valid()
      modifies this`carts, this`nextCartId, this`orders
      ensures Valid()
      ensures nextCartId == old(LookedUpNext(who, session))
      ensures var cart := old(LookedUp(who, session));
        var before := old(LookedUpCarts(who, session));
        && (cart.None? ==>
              outcome == Warned(CartNotFound) && order.None? && carts == before && orders == old(orders) && session' == session)
        && (cart.Some? && !(isPost && formValid) ==>
              outcome == Ignored && order.None? && carts == before && orders == old(orders) && session' == session)
        && (cart.Some? && isPost && formValid && (exists o :: o in old(orders) && o.cart == cart.value) ==>
              outcome == Failed(500) && order.None? && carts == before && orders == old(orders) && session' == session)
        && (cart.Some? && isPost && formValid && (forall o :: o in old(orders) ==> o.cart != cart.value) ==>
              && outcome == Done
              && order == Some(Order(cart.value, before[cart.value].total))
              && carts == before - {cart.value}
              && orders == old(orders)
              && session' == session.(cartId := None))
    {
      var cart := GetCart(who, session);
      order, session' := None, session;
      if cart.None? {
        return Warned(CartNotFound), order, session';
      }
      if !(isPost && formValid) {
        return Ignored, order, session';
      }
      FoundAgain(who, session, cart.value);
      order, session' := PlaceOrder(who, session, cart.value);
      outcome := if order.None? then Failed(500) else Done;
    }

    /** order_confirmation: the same order flow; without a cart the request
        is redirected without a message. */
    method OrderConfirmation(who: Identity, session: Session, isPost: bool, formValid: bool)
      returns (outcome: Outcome, order: Option<Order>, session': Session)
      requires Valid()
      modifies this`carts, this`nextCartId, this`orders
      ensures Valid()
      ensures nextCartId == old(LookedUpNext(who, session))
      ensures var cart := old(LookedUp(who, session));
        var before := old(LookedUpCarts(who, session));
        && (cart.None? || !(isPost && formValid) ==>
              outcome == Ignored && order.None? && carts == before && orders == old(orders) && session' == session)
        && (cart.Some? && isPost && formValid && (exists o :: o in old(orders) && o.cart == cart.value) ==>
              outcome == Failed(500) && order.None? && carts == before && orders == old(orders) && session' == session)
        && (cart.Some? && isPost && formValid && (forall o :: o in old(orders) ==> o.cart != cart.value) ==>
              && outcome == Done
              && order == Some(Order(cart.value, before[cart.value].total))
              && carts == before - {cart.value}
              && orders == old(orders)
              && session' == session.(cartId := None))
    {
      var cart := GetCart(who, session);
      order, session' := None, session;
      if cart.None? || !(isPost && formValid) {
        return Ignored, order, session';
      }
      FoundAgain(who, session, cart.value);
      order, session' := PlaceOrder(who, session, cart.value);
      outcome := if order.None? then Failed(500) else Done;
    }

    // -------------------------------------------------------------------
    // Catalog and accounts

    /** add_book: a non-staff caller is turned away; a staff POST whose form
        validates adds the book under a new id. `formValid` is BookForm's
        verdict; a valid form has the field lengths and price range of
        BookFormValid. */
    method AddBook(who: Identity, isPost: bool, formValid: bool, form: Book) returns (outcome: Outcome)
      requires Valid()
      requires formValid ==> BookFormValid(form)
      modifies this`books, this`nextBookId
      ensures Valid()
      ensures !IsStaff(who) || !isPost || !formValid ==>
        outcome == Ignored && books == old(books) && nextBookId == old(nextBookId)
      ensures IsStaff(who) && isPost && formValid ==>
        && outcome == Done
        && old(nextBookId) !in old(books)
        && books == old(books)[old(nextBookId) := form]
        && nextBookId == old(nextBookId) + 1
    {
      if !IsStaff(who) {
        return Ignored;
      }
      if !isPost || !formValid {
        return Ignored;
      }
      books := books[nextBookId := form];
      nextBookId := nextBookId + 1;
      outcome := Done;
    }

    /** delete_book: a non-staff caller changes nothing; for staff, 404 for
        an unknown book, otherwise the book is deleted together with every
        cart line that refers to it. Cached cart totals are not updated. */
    method DeleteBook(who: Identity, b: BookId) returns (outcome: Outcome)
      requires Valid()
      modifies this`books, this`carts
      ensures Valid()
      ensures !IsStaff(who) ==> outcome == Ignored && books == old(books) && carts == old(carts)
      ensures IsStaff(who) && b !in old(books) ==> outcome == Failed(404) && books == old(books) && carts == old(carts)
      ensures IsStaff(who) && b in old(books) ==>
        && outcome == Done
        && books == old(books) - {b}
        && carts == CascadeBookDelete(old(carts), b)
    {
      if !IsStaff(who) {
        return Ignored;
      }
      if b !in books {
        return Failed(404);
      }
      forall id | id in carts
        ensures CartWellFormed(CascadeBookDelete(carts, b)[id], books - {b})
      {
        WithoutWellFormed(carts[id].items, b, books);
      }
      books := books - {b};
      carts := CascadeBookDelete(carts, b);
      outcome := Done;
    }

    /** signup: on a POST with a valid form, a username or an email already
        registered gets a message; otherwise create_user adds an active,
        non-staff account with the email normalised. The taken-email check
        compares the typed address with the stored, normalised ones. */
    method Signup(isPost: bool, formValid: bool, username: string, email: string) returns (outcome: Outcome)
      requires Valid()
      modifies this`accounts, this`nextUserId
      ensures Valid()
      ensures !(isPost && formValid) ==>
        outcome == Ignored && accounts == old(accounts) && nextUserId == old(nextUserId)
      ensures isPost && formValid && (exists u :: u in old(accounts) && old(accounts)[u].username == username) ==>
        outcome == Warned(UsernameTaken) && accounts == old(accounts) && nextUserId == old(nextUserId)
      ensures (&& isPost && formValid
               && (forall u :: u in old(accounts) ==> old(accounts)[u].username != username)
               && (exists u :: u in old(accounts) && old(accounts)[u].email == email)) ==>
        outcome == Warned(EmailTaken) && accounts == old(accounts) && nextUserId == old(nextUserId)
      ensures (&& isPost && formValid
               && (forall u :: u in old(accounts) ==> old(accounts)[u].username != username && old(accounts)[u].email != email)) ==>
        && outcome == Done
        && accounts == old(accounts)[old(nextUserId) := Account(username, NormalizeEmail(email), true, false)]
        && nextUserId == old(nextUserId) + 1
    {
      if !(isPost && formValid) {
        return Ignored;
      }
      if exists u :: u in accounts && accounts[u].username == username {
        return Warned(UsernameTaken);
      }
      if exists u :: u in accounts && accounts[u].email == email {
        return Warned(EmailTaken);
      }
      accounts := accounts[nextUserId := Account(username, NormalizeEmail(email), true, false)];
      nextUserId := nextUserId + 1;
      outcome := Done;
    }
  }
}
