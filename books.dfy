/**
 * The book table the other files look books up in. Its 66 entries live in
 * src/lib/books, which is not part of this model: every operation takes the
 * table as a parameter.
 */
module Books {
  import opened Wrappers

  datatype Testament = AT | NT

  datatype BookInfo = BookInfo(name: string, abbr: string, testament: Testament)

  /** `i` is the position of the first entry named `name`. */
  predicate FirstNamed(books: seq<BookInfo>, name: string, i: int) {
    0 <= i < |books| && books[i].name == name
    && forall k :: 0 <= k < i ==> books[k].name != name
  }

  /** `books.find((b) => b.name === name)`: the first entry with that name, if any. */
  function FindBook(books: seq<BookInfo>, name: string): (r: Option<BookInfo>)
    ensures r.None? <==> forall i :: 0 <= i < |books| ==> books[i].name != name
    ensures r.Some? ==> exists i :: FirstNamed(books, name, i) && books[i] == r.value
  {
    if |books| == 0 then None
    else if books[0].name == name then
      assert FirstNamed(books, name, 0);
      Some(books[0])
    else
      var r := FindBook(books[1..], name);
      assert r.Some? ==> exists i :: FirstNamed(books, name, i) && books[i] == r.value by {
        if r.Some? {
          var j :| FirstNamed(books[1..], name, j) && books[1..][j] == r.value;
          assert FirstNamed(books, name, j + 1);
        }
      }
      r
  }
}
