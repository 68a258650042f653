/** The catalog view's genre filter: `genre__icontains`, a case-insensitive
    substring test. Case folding is ASCII only, as SQLite's LIKE does it. */
module Catalog {
  import opened Models

  function Lower(c: char): char {
    if 'A' <= c <= 'Z' then (c as int + 32) as char else c
  }

  /** The string with every ASCII capital replaced by its small letter. */
  function Fold(s: string): (r: string)
    ensures |r| == |s|
    ensures forall i :: 0 <= i < |s| ==> r[i] == Lower(s[i])
  {
    if s == [] then [] else [Lower(s[0])] + Fold(s[1..])
  }

  /** `needle` matches `hay` at position i, ignoring ASCII case. */
  predicate MatchesAt(needle: string, hay: string, i: nat) {
    i + |needle| <= |hay| && Fold(hay[i..i + |needle|]) == Fold(needle)
  }

  /** `needle` occurs in `hay` at some position, ignoring ASCII case. */
  ghost predicate OccursIn(needle: string, hay: string) {
    exists i: nat :: MatchesAt(needle, hay, i)
  }

  /** The substring search: try each starting position in turn. */
  function IContains(hay: string, needle: string): (r: bool)
    ensures r <==> OccursIn(needle, hay)
    decreases |hay|
  {
    if |needle| > |hay| then
      NoRoom(needle, hay);
      false
    else if MatchesAt(needle, hay, 0) then
      true
    else
      OccursShift(needle, hay);
      IContains(hay[1..], needle)
  }

  lemma NoRoom(needle: string, hay: string)
    requires |needle| > |hay|
    ensures !OccursIn(needle, hay)
  {
  }

  /** When the needle does not match at position 0, it occurs in `hay` iff it
      occurs in `hay` without its first character. */
  lemma OccursShift(needle: string, hay: string)
    requires |hay| > 0
    requires !MatchesAt(needle, hay, 0)
    ensures OccursIn(needle, hay) <==> OccursIn(needle, hay[1..])
  {
    if OccursIn(needle, hay) {
      var i: nat :| MatchesAt(needle, hay, i);
      ShiftLeft(needle, hay, i);
    }
    if OccursIn(needle, hay[1..]) {
      var i: nat :| MatchesAt(needle, hay[1..], i);
      ShiftRight(needle, hay, i);
    }
  }

  lemma ShiftLeft(needle: string, hay: string, i: nat)
    requires 0 < i && MatchesAt(needle, hay, i)
    ensures MatchesAt(needle, hay[1..], i - 1)
  {
    assert hay[1..][i - 1..i - 1 + |needle|] == hay[i..i + |needle|];
  }

  lemma ShiftRight(needle: string, hay: string, i: nat)
    requires |hay| > 0 && MatchesAt(needle, hay[1..], i)
    ensures MatchesAt(needle, hay, i + 1)
  {
    assert hay[1..][i..i + |needle|] == hay[i + 1..i + 1 + |needle|];
  }

  /** book_list's queryset: the books whose genre contains the filter,
      ignoring ASCII case. */
  function FilterByGenre(books: map<BookId, Book>, genre: string): (r: set<BookId>)
    ensures forall id :: id in r <==> id in books && OccursIn(genre, books[id].genre)
  {
    set id | id in books && IContains(books[id].genre, genre)
  }

  /** The empty filter (no `genre` parameter) lists every book. */
  lemma EmptyFilterListsAll(books: map<BookId, Book>)
    ensures FilterByGenre(books, "") == books.Keys
  {
    forall id | id in books ensures id in FilterByGenre(books, "") {
      assert MatchesAt("", books[id].genre, 0);
    }
  }

  lemma {:induction false} FoldTwice(s: string)
    ensures Fold(Fold(s)) == Fold(s)
  {
    var f := Fold(s);
    assert forall i :: 0 <= i < |s| ==> Lower(f[i]) == f[i];
  }

  /** The filter ignores the case of what the user typed: "Fantasy",
      "FANTASY" and "fantasy" select the same books. */
  lemma FilterIgnoresCase(books: map<BookId, Book>, genre: string)
    ensures FilterByGenre(books, genre) == FilterByGenre(books, Fold(genre))
  {
    FoldTwice(genre);
    forall hay: string, i: nat ensures MatchesAt(genre, hay, i) == MatchesAt(Fold(genre), hay, i) { }
    forall id | id in books ensures OccursIn(genre, books[id].genre) == OccursIn(Fold(genre), books[id].genre) {
      var hay := books[id].genre;
      if OccursIn(genre, hay) {
        var i: nat :| MatchesAt(genre, hay, i);
        assert MatchesAt(Fold(genre), hay, i);
      }
      if OccursIn(Fold(genre), hay) {
        var i: nat :| MatchesAt(Fold(genre), hay, i);
        assert MatchesAt(genre, hay, i);
      }
    }
  }

  /** A longer filter never selects more books than a filter it contains. */
  lemma FilterNarrows(books: map<BookId, Book>, genre: string, extra: string)
    ensures FilterByGenre(books, genre + extra) <= FilterByGenre(books, genre)
  {
    forall id | id in FilterByGenre(books, genre + extra)
      ensures id in FilterByGenre(books, genre)
    {
      var i: nat :| MatchesAt(genre + extra, books[id].genre, i);
      MatchesPrefix(genre, extra, books[id].genre, i);
    }
  }

  /** A match of a string is also a match of its prefix, at the same place. */
  lemma MatchesPrefix(genre: string, extra: string, hay: string, i: nat)
    requires MatchesAt(genre + extra, hay, i)
    ensures MatchesAt(genre, hay, i)
  {
    var n := |genre + extra|;
    assert hay[i..i + |genre|] == hay[i..i + n][..|genre|];
    assert (genre + extra)[..|genre|] == genre;
  }
}
