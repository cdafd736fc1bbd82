/**
 * The list view of src/components/verses/VerseList.tsx: the reference and
 * testament shown per verse, the count line, and the state that decides
 * whether a saved form adds a verse or updates the one being edited.
 */
module VerseList {
  import opened Wrappers
  import opened Types
  import opened Books
  import opened Numerals
  import opened Strings
  import opened References
  import UseVerses

  /** `${chapter}:${range}`: the reference printed after the book name; it determines the three numbers. */
  function VerseRef(v: Verse): (r: string)
    ensures ParseChapterRange(r) == Some((v.chapter, v.verseStart, v.verseEnd))
    ensures EN_DASH in r <==> v.verseEnd != v.verseStart
  {
    ChapterRange(v.chapter, v.verseStart, v.verseEnd)
  }

  /** `BIBLE_BOOKS.find((b) => b.name === book)?.testament ?? null`. */
  function Testament(books: seq<BookInfo>, book: string): (r: Option<Books.Testament>)
    ensures r.None? <==> forall i :: 0 <= i < |books| ==> books[i].name != book
    ensures r.Some? ==> exists i :: FirstNamed(books, book, i) && books[i].testament == r.value
  {
    match FindBook(books, book)
    case Some(b) => Some(b.testament)
    case None => None
  }

  const SINGULAR := " versículo"

  /** The line above the list: a placeholder for no verses, otherwise the count with "versículo" pluralised. */
  function CountLabel(n: nat): (r: string)
    ensures n == 0 ==> r == "Nenhum versículo ainda"
    ensures n == 1 ==> r == "1" + SINGULAR
    ensures n >= 2 ==> r == IntToString(n) + SINGULAR + "s"
  {
    if n == 0 then "Nenhum versículo ainda"
    else IntToString(n) + SINGULAR + (if n != 1 then "s" else "")
  }

  /** Reads a count back from the line: the number before the first space, or 0 if there is none. */
  function CountOf(line: string): nat {
    match SplitFirst(line, ' ')
    case Some((head, _)) =>
      (match DecimalValue(head)
       case Some(k) => if k >= 0 then k else 0
       case None => 0)
    case None => 0
  }

  lemma PlaceholderCountsZero()
    ensures CountOf(CountLabel(0)) == 0
  {
    var head, tail := "Nenhum", "versículo ainda";
    assert CountLabel(0) == head + [' '] + tail;
    SplitFirstOf(head, ' ', tail);
    assert !IsDigit(head[0]);
    assert DecimalValue(head) == None;
  }

  lemma NumberedCountReadsBack(n: nat)
    requires n >= 1
    ensures CountOf(CountLabel(n)) == n
  {
    var suffix := if n != 1 then "s" else "";
    var rest := SINGULAR[1..] + suffix;
    var digits := IntToString(n);
    NoOtherChar(n, ' ');
    assert CountLabel(n) == digits + SINGULAR + suffix;
    calc {
      digits + SINGULAR + suffix;
      { assert SINGULAR == [' '] + SINGULAR[1..]; }
      digits + ([' '] + SINGULAR[1..]) + suffix;
      digits + [' '] + rest;
    }
    SplitFirstOf(digits, ' ', rest);
    IntRoundTrip(n);
  }

  /** The line states the count: reading it back gives the number of verses, 0 for the placeholder. */
  lemma CountLabelRoundTrip(n: nat)
    ensures CountOf(CountLabel(n)) == n
  {
    if n == 0 {
      PlaceholderCountsZero();
    } else {
      NumberedCountReadsBack(n);
    }
  }

  /** Different counts give different lines. */
  lemma CountLabelInjective(m: nat, n: nat)
    requires CountLabel(m) == CountLabel(n)
    ensures m == n
  {
    CountLabelRoundTrip(m);
    CountLabelRoundTrip(n);
  }

  /** The callback `handleSave` makes: `onUpdate(editing.id, data)` or `onAdd(data)`. */
  datatype StoreCall = Add(data: Draft) | Update(id: string, data: Draft)

  class ListState {
    var formOpen: bool
    /** The verse being edited, or None when the form adds a new one. */
    var editing: Option<Verse>

    constructor ()
      ensures !formOpen && editing == None
    {
      formOpen := false;
      editing := None;
    }

    method HandleEdit(v: Verse)
      modifies this
      ensures editing == Some(v) && formOpen
    {
      editing := Some(v);
      formOpen := true;
    }

    method HandleAdd()
      modifies this
      ensures editing == None && formOpen
    {
      editing := None;
      formOpen := true;
    }

    /** Updates the verse being edited, or adds when none is; then forgets the edited verse. */
    method HandleSave(data: Draft) returns (call: StoreCall)
      modifies this
      ensures old(editing).Some? ==> call == Update(old(editing).value.id, data)
      ensures old(editing).None? ==> call == Add(data)
      ensures editing == None && formOpen == old(formOpen)
    {
      if editing.Some? {
        call := Update(editing.value.id, data);
      } else {
        call := Add(data);
      }
      editing := None;
    }
  }

  /**
   * The page passes the store's `addVerse` and `updateVerse` as `onAdd` and
   * `onUpdate`; this carries out a call on the store, with the id and time a
   * new verse receives supplied.
   */
  method Dispatch(store: UseVerses.VerseStore, call: StoreCall, newId: string, now: int)
    modifies store
    ensures call.Add? ==>
      store.verses == UseVerses.SortVerses(store.bookOrder, old(store.verses) + [UseVerses.NewVerse(call.data, newId, now)])
    ensures call.Update? ==>
      store.verses == UseVerses.SortVerses(store.bookOrder, UseVerses.Updated(old(store.verses), call.id, call.data))
    ensures store.stored == UseVerses.Saved(store.verses)
    ensures store.loaded == old(store.loaded)
  {
    match call
    case Add(data) => store.AddVerse(data, newId, now);
    case Update(id, data) => store.UpdateVerse(id, data);
  }
}
