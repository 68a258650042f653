/** The cart arithmetic the views share: finding a book's line, the merge step
    of add_to_cart, sync_cart and the login replay, calculate_total, the cart
    count and the JSON projections. */
module CartLogic {
  import opened Models

  /** One {book_id, quantity} pair, as sync_cart receives it and as
      logout_view stores it in the session. */
  datatype Pair = Pair(book: BookId, quantity: nat)

  /** One entry of get_cart_items' answer; its `price` is the line total. */
  datatype Entry = Entry(book: BookId, quantity: nat, price: int)

  /** The outcome of merging a list of pairs: the lines written so far and,
      when the loop stopped at a book that does not exist, that book. */
  datatype Merged = Merged(items: seq<Line>, missing: Option<BookId>)

  predicate HasLine(items: seq<Line>, b: BookId) {
    exists i :: 0 <= i < |items| && items[i].book == b
  }

  /** The CartItem lookup by (cart, book): the position of the first line
      for `b`, if any. */
  function FindLine(items: seq<Line>, b: BookId): (r: Option<nat>)
    ensures r.Some? ==> r.value < |items| && items[r.value].book == b
    ensures r.Some? ==> forall j :: 0 <= j < r.value ==> items[j].book != b
    ensures r.None? ==> forall j :: 0 <= j < |items| ==> items[j].book != b
  {
    if items == [] then None
    else if items[0].book == b then Some(0)
    else match FindLine(items[1..], b)
      case None => None
      case Some(k) => Some(k + 1)
  }

  /** calculate_total: the sum of the line totals (0 for no lines). */
  function Total(items: seq<Line>): int {
    if items == [] then 0 else items[0].total + Total(items[1..])
  }

  /** get_cart_count: the sum of the quantities. */
  function Count(items: seq<Line>): nat {
    if items == [] then 0 else items[0].quantity + Count(items[1..])
  }

  /** How many copies of book `b` the lines hold. */
  function QuantityOf(items: seq<Line>, b: BookId): nat {
    if items == [] then 0
    else (if items[0].book == b then items[0].quantity else 0) + QuantityOf(items[1..], b)
  }

  /** What the lines are worth at the catalog's prices. */
  function Value(items: seq<Line>, books: map<BookId, Book>): int
    requires forall i :: 0 <= i < |items| ==> items[i].book in books
  {
    if items == [] then 0
    else items[0].quantity * books[items[0].book].price + Value(items[1..], books)
  }

  /** A cart whose cached total agrees with its lines. */
  predicate Synced(c: Cart) {
    c.total == Total(c.items)
  }

  /** `cart.total_price = calculate_total(cart)`. */
  function Resync(c: Cart): Cart {
    c.(total := Total(c.items))
  }

  /** The merge step for `q` copies of book `b` at `price`: a new line
      (b, q, price * q) at the end when the cart has none for `b`, otherwise
      that line's quantity raised by q and its total recomputed. */
  function Upsert(items: seq<Line>, b: BookId, q: nat, price: int): seq<Line> {
    match FindLine(items, b)
    case None => items + [Line(b, q, price * q)]
    case Some(i) => items[i := Line(b, items[i].quantity + q, price * (items[i].quantity + q))]
  }

  /** Merges the pairs one after the other, stopping at the first one whose
      book does not exist; the lines written before it remain. */
  function Merge(items: seq<Line>, incoming: seq<Pair>, books: map<BookId, Book>): (r: Merged)
    ensures r.missing.None? <==> forall k :: 0 <= k < |incoming| ==> incoming[k].book in books
    ensures r.missing.Some? ==>
      r.missing.value !in books &&
      exists k :: 0 <= k < |incoming| && incoming[k].book == r.missing.value
    decreases |incoming|
  {
    if incoming == [] then Merged(items, None)
    else if incoming[0].book !in books then Merged(items, Some(incoming[0].book))
    else
      Merge(Upsert(items, incoming[0].book, incoming[0].quantity, books[incoming[0].book].price),
            incoming[1..], books)
  }

  /** On a synced cart with priced lines, adding q copies of book b and
      resynchronising raises the cached total by exactly q times b's price. */
  lemma ResyncAfterUpsert(c: Cart, b: BookId, q: nat, books: map<BookId, Book>)
    requires Synced(c) && Priced(c.items, books) && b in books
    ensures Resync(c.(items := Upsert(c.items, b, q, books[b].price))).total == c.total + q * books[b].price
  {
    UpsertTotal(c.items, b, q, books);
  }

  /** The merge loop stops at the FIRST pair whose book does not exist: it
      reports that book, and the lines it leaves are exactly the complete
      merge of the pairs before it. */
  lemma {:induction false} MergeStopsAtFirstMissing(items: seq<Line>, incoming: seq<Pair>, books: map<BookId, Book>, k: nat)
    requires k < |incoming| && incoming[k].book !in books
    requires forall j :: 0 <= j < k ==> incoming[j].book in books
    ensures Merge(items, incoming[..k], books).missing.None?
    ensures Merge(items, incoming, books) == Merged(Merge(items, incoming[..k], books).items, Some(incoming[k].book))
    decreases k
  {
    if k > 0 {
      var x := incoming[0];
      var next := Upsert(items, x.book, x.quantity, books[x.book].price);
      assert incoming[1..][..k - 1] == incoming[..k][1..];
      MergeStopsAtFirstMissing(next, incoming[1..], books, k - 1);
    }
  }

  /** The quantity of `c` over a list of pairs. */
  function Incoming(incoming: seq<Pair>, c: BookId): nat {
    if incoming == [] then 0
    else (if incoming[0].book == c then incoming[0].quantity else 0) + Incoming(incoming[1..], c)
  }

  /** What a list of pairs is worth at the catalog's prices (a pair whose
      book does not exist counts for nothing). */
  function IncomingValue(incoming: seq<Pair>, books: map<BookId, Book>): int {
    if incoming == [] then 0
    else
      (if incoming[0].book in books then incoming[0].quantity * books[incoming[0].book].price else 0)
      + IncomingValue(incoming[1..], books)
  }

  /** logout_view's list of {book_id, quantity} pairs, in line order. */
  function Serialize(items: seq<Line>): seq<Pair> {
    if items == [] then [] else [Pair(items[0].book, items[0].quantity)] + Serialize(items[1..])
  }

  /** get_cart_items' list, in line order. */
  function Entries(items: seq<Line>): seq<Entry> {
    if items == [] then [] else [Entry(items[0].book, items[0].quantity, items[0].total)] + Entries(items[1..])
  }

  /** update_quantity's new quantity: one more on "increase", one fewer on
      "decrease" while above 1, unchanged for any other action. */
  function NewQuantity(q: nat, action: Option<string>): (r: nat)
    ensures q >= 1 ==> r >= 1
    ensures r == 0 ==> q == 0
    ensures action == Some("increase") <==> r == q + 1
    ensures r <= q ==> q - r <= 1
    ensures r < q <==> action == Some("decrease") && q > 1
    ensures r <= q + 1
  {
    if action == Some("increase") then q + 1
    else if action == Some("decrease") && q > 1 then q - 1
    else q
  }

  /** Deleting the row at position i. */
  function DropAt(items: seq<Line>, i: nat): seq<Line>
    requires i < |items|
  {
    items[..i] + items[i + 1..]
  }

  // ---------------------------------------------------------------------
  // Sums over concatenations

  lemma {:induction false} TotalConcat(a: seq<Line>, b: seq<Line>)
    ensures Total(a + b) == Total(a) + Total(b)
  {
    if a != [] {
      assert (a + b)[1..] == a[1..] + b;
      TotalConcat(a[1..], b);
    } else {
      assert a + b == b;
    }
  }

  lemma {:induction false} CountConcat(a: seq<Line>, b: seq<Line>)
    ensures Count(a + b) == Count(a) + Count(b)
  {
    if a != [] {
      assert (a + b)[1..] == a[1..] + b;
      CountConcat(a[1..], b);
    } else {
      assert a + b == b;
    }
  }

  lemma {:induction false} QuantityConcat(a: seq<Line>, b: seq<Line>, c: BookId)
    ensures QuantityOf(a + b, c) == QuantityOf(a, c) + QuantityOf(b, c)
  {
    if a != [] {
      assert (a + b)[1..] == a[1..] + b;
      QuantityConcat(a[1..], b, c);
    } else {
      assert a + b == b;
    }
  }

  lemma {:induction false} IncomingConcat(a: seq<Pair>, b: seq<Pair>, c: BookId)
    ensures Incoming(a + b, c) == Incoming(a, c) + Incoming(b, c)
  {
    if a != [] {
      assert (a + b)[1..] == a[1..] + b;
      IncomingConcat(a[1..], b, c);
    } else {
      assert a + b == b;
    }
  }

  lemma {:induction false} IncomingValueConcat(a: seq<Pair>, b: seq<Pair>, books: map<BookId, Book>)
    ensures IncomingValue(a + b, books) == IncomingValue(a, books) + IncomingValue(b, books)
  {
    if a != [] {
      assert (a + b)[1..] == a[1..] + b;
      IncomingValueConcat(a[1..], b, books);
    } else {
      assert a + b == b;
    }
  }

  /** Splitting the lines around position i. */
  lemma SplitAt(items: seq<Line>, i: nat)
    requires i < |items|
    ensures items == items[..i] + [items[i]] + items[i + 1..]
  {
  }

  // ---------------------------------------------------------------------
  // What the cached total means

  /** With every line priced, calculate_total is the sum of quantity times
      price over the lines. */
  lemma {:induction false} TotalIsValue(items: seq<Line>, books: map<BookId, Book>)
    requires Priced(items, books)
    ensures Total(items) == Value(items, books)
  {
    if items != [] {
      assert Priced(items[1..], books) by {
        forall i | 0 <= i < |items[1..]| ensures items[1..][i] == items[i + 1] { }
      }
      TotalIsValue(items[1..], books);
    }
  }

  /** On priced lines, the resynchronised cached total is what the lines are
      worth at catalog prices, and resynchronising again changes nothing. */
  lemma ResyncIsValue(c: Cart, books: map<BookId, Book>)
    requires Priced(c.items, books)
    ensures Resync(c).total == Value(c.items, books)
    ensures Resync(Resync(c)) == Resync(c)
  {
    TotalIsValue(c.items, books);
  }

  /** On lines with one line per book, QuantityOf is that line's quantity. */
  lemma {:induction false} QuantityOfUnique(items: seq<Line>, i: nat)
    requires UniqueBooks(items) && i < |items|
    ensures QuantityOf(items, items[i].book) == items[i].quantity
  {
    SplitAt(items, i);
    var b := items[i].book;
    QuantityConcat(items[..i] + [items[i]], items[i + 1..], b);
    QuantityConcat(items[..i], [items[i]], b);
    QuantityAbsent(items[..i], b);
    QuantityAbsent(items[i + 1..], b);
  }

  /** A book without a line has quantity 0. */
  lemma {:induction false} QuantityAbsent(items: seq<Line>, b: BookId)
    requires forall j :: 0 <= j < |items| ==> items[j].book != b
    ensures QuantityOf(items, b) == 0
  {
    if items != [] {
      QuantityAbsent(items[1..], b);
    }
  }

  // ---------------------------------------------------------------------
  // The merge step

  /** Upsert adds q copies of b and changes no other book's quantity. */
  lemma UpsertQuantities(items: seq<Line>, b: BookId, q: nat, price: int, c: BookId)
    ensures QuantityOf(Upsert(items, b, q, price), c) == QuantityOf(items, c) + (if c == b then q else 0)
  {
    match FindLine(items, b)
    case None =>
      QuantityConcat(items, [Line(b, q, price * q)], c);
    case Some(i) =>
      var line := Line(b, items[i].quantity + q, price * (items[i].quantity + q));
      var r := items[i := line];
      SplitAt(items, i);
      assert r == items[..i] + [line] + items[i + 1..];
      QuantityConcat(items[..i] + [items[i]], items[i + 1..], c);
      QuantityConcat(items[..i], [items[i]], c);
      QuantityConcat(items[..i] + [line], items[i + 1..], c);
      QuantityConcat(items[..i], [line], c);
  }

  /** Upsert keeps every line of another book where it was, and leaves
      exactly one line for b: with quantity QuantityOf(items, b) + q and
      total price times that quantity. */
  lemma UpsertLines(items: seq<Line>, b: BookId, q: nat, price: int)
    requires UniqueBooks(items)
    ensures var r := Upsert(items, b, q, price);
      && |r| == (if HasLine(items, b) then |items| else |items| + 1)
      && (forall j :: 0 <= j < |items| && items[j].book != b ==> r[j] == items[j])
      && (forall j :: 0 <= j < |r| && r[j].book == b ==>
            r[j] == Line(b, QuantityOf(items, b) + q, price * (QuantityOf(items, b) + q)))
      && HasLine(r, b)
  {
    var r := Upsert(items, b, q, price);
    match FindLine(items, b)
    case None =>
      QuantityAbsent(items, b);
      assert r[|items|].book == b;
    case Some(i) =>
      QuantityOfUnique(items, i);
      assert r[i].book == b;
  }

  /** The merge step keeps one line per book and every line priced. */
  lemma UpsertWellFormed(items: seq<Line>, b: BookId, q: nat, books: map<BookId, Book>)
    requires UniqueBooks(items) && Priced(items, books) && b in books
    ensures var r := Upsert(items, b, q, books[b].price);
      UniqueBooks(r) && Priced(r, books)
  {
  }

  /** With the lines priced, the merge step raises calculate_total by
      q times the book's price. */
  lemma UpsertTotal(items: seq<Line>, b: BookId, q: nat, books: map<BookId, Book>)
    requires Priced(items, books) && b in books
    ensures Total(Upsert(items, b, q, books[b].price)) == Total(items) + q * books[b].price
  {
    var price := books[b].price;
    match FindLine(items, b)
    case None =>
      TotalConcat(items, [Line(b, q, price * q)]);
    case Some(i) =>
      var line := Line(b, items[i].quantity + q, price * (items[i].quantity + q));
      SplitAt(items, i);
      assert items[i := line] == items[..i] + [line] + items[i + 1..];
      TotalConcat(items[..i] + [items[i]], items[i + 1..]);
      TotalConcat(items[..i], [items[i]]);
      TotalConcat(items[..i] + [line], items[i + 1..]);
      TotalConcat(items[..i], [line]);
      assert line.total == items[i].total + q * price;
  }

  // ---------------------------------------------------------------------
  // The merge loop

  lemma {:induction false} MergeWellFormed(items: seq<Line>, incoming: seq<Pair>, books: map<BookId, Book>)
    requires UniqueBooks(items) && Priced(items, books)
    ensures UniqueBooks(Merge(items, incoming, books).items)
    ensures Priced(Merge(items, incoming, books).items, books)
    decreases |incoming|
  {
    if incoming != [] && incoming[0].book in books {
      var x := incoming[0];
      UpsertWellFormed(items, x.book, x.quantity, books);
      MergeWellFormed(Upsert(items, x.book, x.quantity, books[x.book].price), incoming[1..], books);
    }
  }

  /** A merge that finds every book adds, per book, the quantities the pairs
      carry for it. */
  lemma {:induction false} MergeQuantities(items: seq<Line>, incoming: seq<Pair>, books: map<BookId, Book>, c: BookId)
    requires Merge(items, incoming, books).missing.None?
    ensures QuantityOf(Merge(items, incoming, books).items, c) == QuantityOf(items, c) + Incoming(incoming, c)
    decreases |incoming|
  {
    if incoming != [] {
      var x := incoming[0];
      UpsertQuantities(items, x.book, x.quantity, books[x.book].price, c);
      MergeQuantities(Upsert(items, x.book, x.quantity, books[x.book].price), incoming[1..], books, c);
    }
  }

  /** A merge that finds every book raises calculate_total by what the pairs
      are worth. */
  lemma {:induction false} MergeTotal(items: seq<Line>, incoming: seq<Pair>, books: map<BookId, Book>)
    requires Priced(items, books)
    requires forall k :: 0 <= k < |incoming| ==> incoming[k].book in books
    ensures Merge(items, incoming, books).missing.None?
    ensures Total(Merge(items, incoming, books).items) == Total(items) + IncomingValue(incoming, books)
    decreases |incoming|
  {
    if incoming != [] {
      var x := incoming[0];
      var next := Upsert(items, x.book, x.quantity, books[x.book].price);
      UpsertTotal(items, x.book, x.quantity, books);
      assert Priced(next, books) by {
        match FindLine(items, x.book)
        case None =>
        case Some(i) =>
      }
      MergeTotal(next, incoming[1..], books);
    }
  }

  /** The session round trip: merging a well-formed cart's serialized pairs
      into an empty cart rebuilds exactly its lines, totals included. */
  lemma SerializeRoundTrip(items: seq<Line>, books: map<BookId, Book>)
    requires UniqueBooks(items) && Priced(items, books)
    ensures Merge([], Serialize(items), books) == Merged(items, None)
  {
    RoundTripFrom(items, 0, books);
    assert items[..0] == [];
  }

  lemma {:induction false} SerializeSuffix(items: seq<Line>, k: nat)
    requires k <= |items|
    ensures Serialize(items[k..]) == if k == |items| then [] else
      [Pair(items[k].book, items[k].quantity)] + Serialize(items[k + 1..])
  {
    if k < |items| {
      assert items[k..][1..] == items[k + 1..];
    }
  }

  lemma {:induction false} RoundTripFrom(items: seq<Line>, k: nat, books: map<BookId, Book>)
    requires UniqueBooks(items) && Priced(items, books) && k <= |items|
    ensures Merge(items[..k], Serialize(items[k..]), books) == Merged(items, None)
    decreases |items| - k
  {
    SerializeSuffix(items, k);
    if k == |items| {
      assert items[..k] == items;
    } else {
      var line := items[k];
      var ps := Serialize(items[k..]);
      assert ps[0] == Pair(line.book, line.quantity) && ps[1..] == Serialize(items[k + 1..]);
      UpsertExtends(items, k, books);
      RoundTripFrom(items, k + 1, books);
    }
  }

  /** Replaying the pair of line k onto the lines before it appends that
      very line. */
  lemma UpsertExtends(items: seq<Line>, k: nat, books: map<BookId, Book>)
    requires UniqueBooks(items) && Priced(items, books) && k < |items|
    ensures Upsert(items[..k], items[k].book, items[k].quantity, books[items[k].book].price) == items[..k + 1]
  {
    var line := items[k];
    assert forall j :: 0 <= j < |items[..k]| ==> items[..k][j].book != line.book;
    assert FindLine(items[..k], line.book).None?;
    assert Line(line.book, line.quantity, books[line.book].price * line.quantity) == line;
    assert items[..k] + [line] == items[..k + 1];
  }

  // ---------------------------------------------------------------------
  // Removing a line

  /** Deleting the found line of b: no line for b remains, the others stay
      in their order (the same as dropping every line of b), and
      calculate_total falls by the deleted line's total. */
  lemma DropFound(items: seq<Line>, b: BookId, books: map<BookId, Book>)
    requires UniqueBooks(items) && FindLine(items, b).Some?
    ensures var r := DropAt(items, FindLine(items, b).value);
      && r == Without(items, b)
      && !HasLine(r, b)
      && UniqueBooks(r)
      && (Priced(items, books) ==> Priced(r, books))
      && Total(r) == Total(items) - items[FindLine(items, b).value].total
      && |r| == |items| - 1
  {
    var i := FindLine(items, b).value;
    DropIsWithout(items, b, i);
    DropKeepsRows(items, i, books);
    DropTotal(items, i);
  }

  /** Deleting the one line of b is dropping every line of b: the lines
      before and after it have other books, and the cascade acts line by
      line. */
  lemma DropIsWithout(items: seq<Line>, b: BookId, i: nat)
    requires UniqueBooks(items) && i < |items| && items[i].book == b
    ensures DropAt(items, i) == Without(items, b)
  {
    var before, after := items[..i], items[i + 1..];
    SplitAt(items, i);
    assert forall j :: 0 <= j < |before| ==> before[j] == items[j];
    WithoutNone(before, b);
    assert forall j :: 0 <= j < |after| ==> after[j] == items[i + 1 + j];
    WithoutNone(after, b);
    assert Without([items[i]], b) == [];
    WithoutConcat(before, [items[i]], b);
    WithoutConcat(before + [items[i]], after, b);
    calc {
      Without(items, b);
      Without(before + [items[i]] + after, b);
      Without(before + [items[i]], b) + Without(after, b);
      before + [] + after;
      { assert before + [] == before; }
      before + after;
    }
  }

  lemma DropKeepsRows(items: seq<Line>, i: nat, books: map<BookId, Book>)
    requires UniqueBooks(items) && i < |items|
    ensures UniqueBooks(DropAt(items, i))
    ensures Priced(items, books) ==> Priced(DropAt(items, i), books)
  {
    var r := DropAt(items, i);
    assert forall j :: 0 <= j < |r| ==> r[j] == items[if j < i then j else j + 1];
  }

  lemma DropTotal(items: seq<Line>, i: nat)
    requires i < |items|
    ensures Total(DropAt(items, i)) == Total(items) - items[i].total
  {
    SplitAt(items, i);
    TotalConcat(items[..i] + [items[i]], items[i + 1..]);
    TotalConcat(items[..i], [items[i]]);
    TotalConcat(items[..i], items[i + 1..]);
  }

  /** Dropping the lines of a book that has none changes nothing. */
  lemma {:induction false} WithoutNone(items: seq<Line>, b: BookId)
    requires forall j :: 0 <= j < |items| ==> items[j].book != b
    ensures Without(items, b) == items
  {
    if items != [] {
      WithoutNone(items[1..], b);
    }
  }

  lemma {:induction false} WithoutConcat(a: seq<Line>, c: seq<Line>, b: BookId)
    ensures Without(a + c, b) == Without(a, b) + Without(c, b)
  {
    if a != [] {
      assert (a + c)[1..] == a[1..] + c;
      WithoutConcat(a[1..], c, b);
    } else {
      assert a + c == c;
    }
  }

  /** get_cart_items lists a book exactly when the cart has a line for it,
      with that line's quantity and total. */
  lemma {:induction false} EntriesMirrorLines(items: seq<Line>)
    ensures |Entries(items)| == |items|
    ensures forall i :: 0 <= i < |items| ==>
      Entries(items)[i] == Entry(items[i].book, items[i].quantity, items[i].total)
  {
    if items != [] {
      EntriesMirrorLines(items[1..]);
    }
  }

  /** After remove_from_cart deletes the line of b, get_cart_items never
      lists b. */
  lemma RemovedBookNotListed(items: seq<Line>, b: BookId)
    requires UniqueBooks(items) && FindLine(items, b).Some?
    ensures forall e :: e in Entries(DropAt(items, FindLine(items, b).value)) ==> e.book != b
  {
    var r := DropAt(items, FindLine(items, b).value);
    DropFound(items, b, map[]);
    EntriesMirrorLines(r);
  }

  /** get_cart_count is the sum over books of their quantities: one more
      copy of any book raises it by one. */
  lemma UpsertCount(items: seq<Line>, b: BookId, q: nat, price: int)
    ensures Count(Upsert(items, b, q, price)) == Count(items) + q
  {
    match FindLine(items, b)
    case None =>
      CountConcat(items, [Line(b, q, price * q)]);
    case Some(i) =>
      var line := Line(b, items[i].quantity + q, price * (items[i].quantity + q));
      SplitAt(items, i);
      assert items[i := line] == items[..i] + [line] + items[i + 1..];
      CountConcat(items[..i] + [items[i]], items[i + 1..]);
      CountConcat(items[..i], [items[i]]);
      CountConcat(items[..i] + [line], items[i + 1..]);
      CountConcat(items[..i], [line]);
  }
}
