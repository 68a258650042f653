/** The merge of a list of {book_id, quantity} pairs depends, in what it adds
    per book and to the cart's total, only on which pairs arrive, not on the
    order they arrive in. */
module MergeOrder {
  import opened Models
  import opened CartLogic

  /** The first pair of xs sits at some position k of a permutation ys;
      what remains of both lists is again a permutation. */
  lemma {:induction false} PickOut(xs: seq<Pair>, ys: seq<Pair>) returns (k: nat)
    requires multiset(xs) == multiset(ys) && xs != []
    ensures k < |ys| && ys[k] == xs[0]
    ensures ys == ys[..k] + [ys[k]] + ys[k + 1..]
    ensures multiset(xs[1..]) == multiset(ys[..k] + ys[k + 1..])
  {
    assert xs[0] in multiset(ys);
    k :| 0 <= k < |ys| && ys[k] == xs[0];
    assert ys == ys[..k] + [ys[k]] + ys[k + 1..];
    assert multiset(ys) == multiset(ys[..k]) + multiset{ys[k]} + multiset(ys[k + 1..]);
    assert xs == [xs[0]] + xs[1..];
    assert multiset(xs) == multiset{xs[0]} + multiset(xs[1..]);
    assert multiset(ys[..k] + ys[k + 1..]) == multiset(ys[..k]) + multiset(ys[k + 1..]);
    assert multiset(xs[1..]) == multiset(xs) - multiset{xs[0]};
  }

  lemma {:induction false} IncomingPermutation(xs: seq<Pair>, ys: seq<Pair>, c: BookId)
    requires multiset(xs) == multiset(ys)
    ensures Incoming(xs, c) == Incoming(ys, c)
    decreases |xs|
  {
    if xs == [] {
      assert |ys| == |multiset(ys)| == 0;
    } else {
      var k := PickOut(xs, ys);
      IncomingPermutation(xs[1..], ys[..k] + ys[k + 1..], c);
      IncomingSplit(ys, k, c);
    }
  }

  /** A book's incoming quantity is the pair at k's share plus the rest's. */
  lemma IncomingSplit(ys: seq<Pair>, k: nat, c: BookId)
    requires k < |ys| && ys == ys[..k] + [ys[k]] + ys[k + 1..]
    ensures Incoming(ys, c) == Incoming([ys[k]], c) + Incoming(ys[..k] + ys[k + 1..], c)
  {
    IncomingConcat(ys[..k] + [ys[k]], ys[k + 1..], c);
    IncomingConcat(ys[..k], [ys[k]], c);
    IncomingConcat(ys[..k], ys[k + 1..], c);
  }

  lemma {:induction false} IncomingValuePermutation(xs: seq<Pair>, ys: seq<Pair>, books: map<BookId, Book>)
    requires multiset(xs) == multiset(ys)
    ensures IncomingValue(xs, books) == IncomingValue(ys, books)
    decreases |xs|
  {
    if xs == [] {
      assert |ys| == |multiset(ys)| == 0;
    } else {
      var k := PickOut(xs, ys);
      IncomingValuePermutation(xs[1..], ys[..k] + ys[k + 1..], books);
      IncomingValueSplit(ys, k, books);
    }
  }

  /** The incoming value is the pair at k's share plus the rest's. */
  lemma IncomingValueSplit(ys: seq<Pair>, k: nat, books: map<BookId, Book>)
    requires k < |ys| && ys == ys[..k] + [ys[k]] + ys[k + 1..]
    ensures IncomingValue(ys, books) == IncomingValue([ys[k]], books) + IncomingValue(ys[..k] + ys[k + 1..], books)
  {
    IncomingValueConcat(ys[..k] + [ys[k]], ys[k + 1..], books);
    IncomingValueConcat(ys[..k], [ys[k]], books);
    IncomingValueConcat(ys[..k], ys[k + 1..], books);
  }

  /** Merging the same pairs in any order finds every book in both orders,
      gives every book the same quantity, and (on priced lines) the same
      calculate_total. */
  lemma MergeOrderIndependent(items: seq<Line>, xs: seq<Pair>, ys: seq<Pair>, books: map<BookId, Book>)
    requires multiset(xs) == multiset(ys)
    requires forall k :: 0 <= k < |xs| ==> xs[k].book in books
    ensures Merge(items, xs, books).missing.None? && Merge(items, ys, books).missing.None?
    ensures forall c :: QuantityOf(Merge(items, xs, books).items, c) == QuantityOf(Merge(items, ys, books).items, c)
    ensures Priced(items, books) ==>
      Total(Merge(items, xs, books).items) == Total(Merge(items, ys, books).items)
  {
    forall k | 0 <= k < |ys| ensures ys[k].book in books {
      assert ys[k] in multiset(xs);
    }
    IncomingValuePermutation(xs, ys, books);
    forall c ensures QuantityOf(Merge(items, xs, books).items, c) == QuantityOf(Merge(items, ys, books).items, c) {
      MergeQuantities(items, xs, books, c);
      MergeQuantities(items, ys, books, c);
      IncomingPermutation(xs, ys, c);
    }
    if Priced(items, books) {
      MergeTotal(items, xs, books);
      MergeTotal(items, ys, books);
    }
  }
}
