/**
 * The verse store of src/hooks/useVerses.ts: the collection kept in canonical
 * order, the storage slot it is written to, and the three mutations that all
 * end in `persist`.
 *
 * `getBookOrder` comes from src/lib/books, which is not part of this model; the
 * store takes it as an arbitrary function `bookOrder`, and nothing here depends
 * on how it ranks a book name missing from the table.
 */
module UseVerses {
  import opened Wrappers
  import opened Types

  // ---------------------------------------------------------------------------
  // sortVerses
  // ---------------------------------------------------------------------------

  /** The three keys the comparator looks at, in the order it looks at them. */
  datatype SortKey = SortKey(book: int, chapter: int, verseStart: int)

  function Key(bookOrder: string -> int, v: Verse): SortKey {
    SortKey(bookOrder(v.book), v.chapter, v.verseStart)
  }

  /** Lexicographic order on the keys: book position, then chapter, then first verse. */
  predicate KeyLe(a: SortKey, b: SortKey) {
    a.book < b.book
    || (a.book == b.book && a.chapter < b.chapter)
    || (a.book == b.book && a.chapter == b.chapter && a.verseStart <= b.verseStart)
  }

  /** The comparator passed to `Array.prototype.sort`: negative when `a` goes first. */
  function Compare(bookOrder: string -> int, a: Verse, b: Verse): (r: int)
    ensures r <= 0 <==> KeyLe(Key(bookOrder, a), Key(bookOrder, b))
    ensures r == 0 <==> Key(bookOrder, a) == Key(bookOrder, b)
  {
    var bookDiff := bookOrder(a.book) - bookOrder(b.book);
    if bookDiff != 0 then bookDiff
    else if a.chapter != b.chapter then a.chapter - b.chapter
    else a.verseStart - b.verseStart
  }

  /** Swapping the arguments negates the comparator, as `Array.prototype.sort` asks of a consistent comparator. */
  lemma CompareAntisymmetric(bookOrder: string -> int, a: Verse, b: Verse)
    ensures Compare(bookOrder, a, b) == -Compare(bookOrder, b, a)
  {
  }

  ghost predicate Sorted(bookOrder: string -> int, s: seq<Verse>) {
    forall i, j :: 0 <= i < j < |s| ==> KeyLe(Key(bookOrder, s[i]), Key(bookOrder, s[j]))
  }

  /**
   * Where a stable sort puts `x`, taken from the front of the input, among the
   * already sorted rest `t`: before the first element it does not compare
   * greater than.
   */
  function Insert(bookOrder: string -> int, x: Verse, t: seq<Verse>): (r: seq<Verse>)
    ensures |r| == |t| + 1
    ensures multiset(r) == multiset(t) + multiset{x}
  {
    if |t| == 0 || Compare(bookOrder, x, t[0]) <= 0 then [x] + t
    else
      assert t == [t[0]] + t[1..];
      [t[0]] + Insert(bookOrder, x, t[1..])
  }

  lemma {:induction false} InsertSorted(bookOrder: string -> int, x: Verse, t: seq<Verse>)
    requires Sorted(bookOrder, t)
    ensures Sorted(bookOrder, Insert(bookOrder, x, t))
  {
    if |t| == 0 {
    } else if Compare(bookOrder, x, t[0]) <= 0 {
    } else {
      var rest := Insert(bookOrder, x, t[1..]);
      InsertSorted(bookOrder, x, t[1..]);
      forall j | 0 <= j < |rest|
        ensures KeyLe(Key(bookOrder, t[0]), Key(bookOrder, rest[j]))
      {
        assert rest[j] in multiset(rest);
        assert rest[j] == x || rest[j] in t[1..];
      }
    }
  }

  /** One step of the sort: inserting the head into the sorted tail keeps order and contents. */
  lemma InsertStep(bookOrder: string -> int, s: seq<Verse>, rest: seq<Verse>)
    requires |s| > 0 && Sorted(bookOrder, rest) && multiset(rest) == multiset(s[1..])
    ensures Sorted(bookOrder, Insert(bookOrder, s[0], rest))
    ensures multiset(Insert(bookOrder, s[0], rest)) == multiset(s)
  {
    InsertSorted(bookOrder, s[0], rest);
    assert s == [s[0]] + s[1..];
  }

  /** `[...verses].sort(comparator)`: a sorted copy; the argument is a value and stays as it was. */
  function SortVerses(bookOrder: string -> int, s: seq<Verse>): (r: seq<Verse>)
    ensures |r| == |s|
    ensures multiset(r) == multiset(s)
    ensures Sorted(bookOrder, r)
  {
    if |s| == 0 then []
    else
      var rest := SortVerses(bookOrder, s[1..]);
      InsertStep(bookOrder, s, rest);
      Insert(bookOrder, s[0], rest)
  }

  /** The verses of `s` whose keys equal `k`, in the order `s` has them. */
  function WithKey(bookOrder: string -> int, s: seq<Verse>, k: SortKey): seq<Verse> {
    if |s| == 0 then []
    else if Key(bookOrder, s[0]) == k then [s[0]] + WithKey(bookOrder, s[1..], k)
    else WithKey(bookOrder, s[1..], k)
  }

  lemma {:induction false} InsertWithKey(bookOrder: string -> int, x: Verse, t: seq<Verse>, k: SortKey)
    ensures WithKey(bookOrder, Insert(bookOrder, x, t), k)
         == if Key(bookOrder, x) == k then [x] + WithKey(bookOrder, t, k) else WithKey(bookOrder, t, k)
  {
    if |t| == 0 || Compare(bookOrder, x, t[0]) <= 0 {
      assert ([x] + t)[1..] == t;
    } else {
      var r := Insert(bookOrder, x, t);
      assert r[1..] == Insert(bookOrder, x, t[1..]);
      InsertWithKey(bookOrder, x, t[1..], k);
    }
  }

  /** The sort is stable: verses with equal keys keep their relative order. */
  lemma {:induction false} SortStable(bookOrder: string -> int, s: seq<Verse>, k: SortKey)
    ensures WithKey(bookOrder, SortVerses(bookOrder, s), k) == WithKey(bookOrder, s, k)
  {
    if |s| > 0 {
      SortStable(bookOrder, s[1..], k);
      InsertWithKey(bookOrder, s[0], SortVerses(bookOrder, s[1..]), k);
    }
  }

  lemma {:induction false} WithKeyMember(bookOrder: string -> int, s: seq<Verse>, k: SortKey, x: Verse)
    ensures x in WithKey(bookOrder, s, k) <==> x in s && Key(bookOrder, x) == k
  {
    if |s| > 0 {
      WithKeyMember(bookOrder, s[1..], k, x);
      assert x in s <==> x == s[0] || x in s[1..];
    }
  }

  /** In a sorted list the first element's key is at most that of any element. */
  lemma FirstIsLeast(bookOrder: string -> int, s: seq<Verse>, x: Verse)
    requires Sorted(bookOrder, s) && x in s
    ensures KeyLe(Key(bookOrder, s[0]), Key(bookOrder, x))
  {
    var j :| 0 <= j < |s| && s[j] == x;
    if j == 0 {
    }
  }

  /**
   * Two sorted lists with the same verses in the same order within every key
   * are the same list: a stable sort has only one possible result.
   */
  lemma {:induction false} StableSortUnique(bookOrder: string -> int, r1: seq<Verse>, r2: seq<Verse>)
    requires |r1| == |r2|
    requires Sorted(bookOrder, r1) && Sorted(bookOrder, r2)
    requires forall k :: WithKey(bookOrder, r1, k) == WithKey(bookOrder, r2, k)
    ensures r1 == r2
  {
    if |r1| > 0 {
      var k1, k2 := Key(bookOrder, r1[0]), Key(bookOrder, r2[0]);
      WithKeyMember(bookOrder, r1, k1, r1[0]);
      WithKeyMember(bookOrder, r2, k1, r1[0]);
      FirstIsLeast(bookOrder, r2, r1[0]);
      WithKeyMember(bookOrder, r2, k2, r2[0]);
      WithKeyMember(bookOrder, r1, k2, r2[0]);
      FirstIsLeast(bookOrder, r1, r2[0]);
      assert k1 == k2;
      assert WithKey(bookOrder, r1, k1)[0] == r1[0];
      assert WithKey(bookOrder, r2, k1)[0] == r2[0];
      assert r1[0] == r2[0];
      forall k
        ensures WithKey(bookOrder, r1[1..], k) == WithKey(bookOrder, r2[1..], k)
      {
        var w1, w2 := WithKey(bookOrder, r1, k), WithKey(bookOrder, r2, k);
        assert w1 == w2;
        if k == k1 {
          assert w1[1..] == WithKey(bookOrder, r1[1..], k);
          assert w2[1..] == WithKey(bookOrder, r2[1..], k);
        }
      }
      assert Sorted(bookOrder, r1[1..]) && Sorted(bookOrder, r2[1..]);
      StableSortUnique(bookOrder, r1[1..], r2[1..]);
      assert r1 == [r1[0]] + r1[1..] && r2 == [r2[0]] + r2[1..];
    }
  }

  /**
   * `Array.prototype.sort` is stable, so whatever algorithm the engine runs,
   * its result is the one SortVerses computes.
   */
  lemma SortVersesIsTheStableSort(bookOrder: string -> int, s: seq<Verse>, r: seq<Verse>)
    requires |r| == |s| && Sorted(bookOrder, r)
    requires forall k :: WithKey(bookOrder, r, k) == WithKey(bookOrder, s, k)
    ensures r == SortVerses(bookOrder, s)
  {
    forall k
      ensures WithKey(bookOrder, r, k) == WithKey(bookOrder, SortVerses(bookOrder, s), k)
    {
      SortStable(bookOrder, s, k);
    }
    StableSortUnique(bookOrder, r, SortVerses(bookOrder, s));
  }

  /** Sorting a list that is already in order changes nothing. */
  lemma {:induction false} SortSortedIsIdentity(bookOrder: string -> int, s: seq<Verse>)
    requires Sorted(bookOrder, s)
    ensures SortVerses(bookOrder, s) == s
  {
    if |s| > 0 {
      assert Sorted(bookOrder, s[1..]);
      SortSortedIsIdentity(bookOrder, s[1..]);
      if |s| > 1 {
        assert KeyLe(Key(bookOrder, s[0]), Key(bookOrder, s[1]));
      }
      assert [s[0]] + s[1..] == s;
    }
  }

  // ---------------------------------------------------------------------------
  // The arrays that addVerse, updateVerse and deleteVerse hand to persist
  // ---------------------------------------------------------------------------

  /** `{ ...verse, id: crypto.randomUUID(), createdAt: Date.now() }`, with the id and the time supplied. */
  function NewVerse(data: Draft, id: string, createdAt: int): (r: Verse)
    ensures DraftOf(r) == data && r.id == id && r.createdAt == createdAt && r.version == None
  {
    Verse(id, data.book, data.chapter, data.verseStart, data.verseEnd, data.text, createdAt, None)
  }

  /** `{ ...v, ...data }`: the draft's fields over the verse's, keeping its id, creation time and version. */
  function Merge(v: Verse, data: Draft): (r: Verse)
    ensures DraftOf(r) == data
    ensures r.id == v.id && r.createdAt == v.createdAt && r.version == v.version
  {
    v.(book := data.book, chapter := data.chapter, verseStart := data.verseStart,
       verseEnd := data.verseEnd, text := data.text)
  }

  /** `verses.map((v) => (v.id === id ? { ...v, ...data } : v))`. */
  function Updated(vs: seq<Verse>, id: string, data: Draft): (r: seq<Verse>)
    ensures |r| == |vs|
    ensures forall i :: 0 <= i < |vs| && vs[i].id == id ==> r[i] == Merge(vs[i], data)
    ensures forall i :: 0 <= i < |vs| && vs[i].id != id ==> r[i] == vs[i]
  {
    seq(|vs|, i requires 0 <= i < |vs| => if vs[i].id == id then Merge(vs[i], data) else vs[i])
  }

  /** `verses.filter((v) => v.id !== id)`. */
  function Removed(vs: seq<Verse>, id: string): (r: seq<Verse>)
    ensures |r| <= |vs|
    ensures forall v :: multiset(r)[v] == if v.id == id then 0 else multiset(vs)[v]
  {
    if |vs| == 0 then []
    else
      assert vs == [vs[0]] + vs[1..];
      if vs[0].id == id then Removed(vs[1..], id) else [vs[0]] + Removed(vs[1..], id)
  }

  /** Removing keeps the order of what is left: a sorted list stays sorted. */
  lemma {:induction false} RemovedSorted(bookOrder: string -> int, vs: seq<Verse>, id: string)
    requires Sorted(bookOrder, vs)
    ensures Sorted(bookOrder, Removed(vs, id))
  {
    if |vs| > 0 {
      assert Sorted(bookOrder, vs[1..]);
      RemovedSorted(bookOrder, vs[1..], id);
      var rest := Removed(vs[1..], id);
      if vs[0].id != id {
        forall j | 0 <= j < |rest|
          ensures KeyLe(Key(bookOrder, vs[0]), Key(bookOrder, rest[j]))
        {
          var v := rest[j];
          assert multiset(rest)[v] > 0;
          assert multiset(vs[1..])[v] > 0;
          assert v in vs[1..];
        }
      }
    }
  }

  /** A filter that matches nothing gives back the same list. */
  lemma {:induction false} RemovedAbsent(vs: seq<Verse>, id: string)
    requires forall i :: 0 <= i < |vs| ==> vs[i].id != id
    ensures Removed(vs, id) == vs
  {
    if |vs| > 0 {
      RemovedAbsent(vs[1..], id);
      assert [vs[0]] + vs[1..] == vs;
    }
  }

  /** A map that matches nothing gives back the same list. */
  lemma UpdatedAbsent(vs: seq<Verse>, id: string, data: Draft)
    requires forall i :: 0 <= i < |vs| ==> vs[i].id != id
    ensures Updated(vs, id, data) == vs
  {
  }

  /** Deleting from a sorted list only removes: the re-sort in persist moves nothing. */
  lemma DeleteFromSorted(bookOrder: string -> int, vs: seq<Verse>, id: string)
    requires Sorted(bookOrder, vs)
    ensures SortVerses(bookOrder, Removed(vs, id)) == Removed(vs, id)
    ensures (forall i :: 0 <= i < |vs| ==> vs[i].id != id) ==> SortVerses(bookOrder, Removed(vs, id)) == vs
  {
    RemovedSorted(bookOrder, vs, id);
    SortSortedIsIdentity(bookOrder, Removed(vs, id));
    if forall i :: 0 <= i < |vs| ==> vs[i].id != id {
      RemovedAbsent(vs, id);
    }
  }

  // ---------------------------------------------------------------------------
  // The hook's state
  // ---------------------------------------------------------------------------

  /**
   * What `localStorage.getItem(STORAGE_KEY)` yields, as the load effect sees it:
   * nothing (null or the empty string, both falsy), a value `JSON.parse` throws
   * on, or a stored list.
   */
  datatype Slot = Missing | Unparseable | Saved(verses: seq<Verse>)

  const STORAGE_KEY := "bible-memo-verses"

  class VerseStore {
    const bookOrder: string -> int
    var verses: seq<Verse>
    var loaded: bool
    /** The slot under STORAGE_KEY. */
    var stored: Slot

    /** `useState<Verse[]>([])`, `useState(false)`, over whatever the slot already holds. */
    constructor (bookOrder: string -> int, stored: Slot)
      ensures this.bookOrder == bookOrder && this.stored == stored
      ensures verses == [] && !loaded
    {
      this.bookOrder := bookOrder;
      this.stored := stored;
      verses := [];
      loaded := false;
    }

    /**
     * The mount effect: takes the stored list as it is (no re-sort) when there
     * is one; a missing or unparseable value is ignored. `loaded` is set either way.
     */
    method Load()
      modifies this
      ensures loaded
      ensures verses == if old(stored).Saved? then old(stored).verses else old(verses)
      ensures stored == old(stored)
    {
      if stored.Saved? {
        verses := stored.verses;
      }
      loaded := true;
    }

    /** Sorts, keeps the result as the state and writes the same list to the slot. */
    method Persist(updated: seq<Verse>)
      modifies this
      ensures verses == SortVerses(bookOrder, updated)
      ensures Sorted(bookOrder, verses) && multiset(verses) == multiset(updated)
      ensures stored == Saved(verses)
      ensures loaded == old(loaded)
    {
      var sorted := SortVerses(bookOrder, updated);
      verses := sorted;
      stored := Saved(sorted);
    }

    /** Appends one new verse built from the draft, the given id and time, then persists. */
    method AddVerse(data: Draft, id: string, createdAt: int)
      modifies this
      ensures verses == SortVerses(bookOrder, old(verses) + [NewVerse(data, id, createdAt)])
      ensures multiset(verses) == multiset(old(verses)) + multiset{NewVerse(data, id, createdAt)}
      ensures Sorted(bookOrder, verses) && stored == Saved(verses)
      ensures loaded == old(loaded)
    {
      Persist(verses + [NewVerse(data, id, createdAt)]);
    }

    /** Overwrites the draft fields of every verse with that id, then persists. */
    method UpdateVerse(id: string, data: Draft)
      modifies this
      ensures verses == SortVerses(bookOrder, Updated(old(verses), id, data))
      ensures |verses| == |old(verses)|
      ensures Sorted(bookOrder, verses) && stored == Saved(verses)
      ensures loaded == old(loaded)
      ensures Sorted(bookOrder, old(verses)) && (forall i :: 0 <= i < |old(verses)| ==> old(verses)[i].id != id)
        ==> verses == old(verses)
    {
      if Sorted(bookOrder, verses) && forall i :: 0 <= i < |verses| ==> verses[i].id != id {
        UpdatedAbsent(verses, id, data);
        SortSortedIsIdentity(bookOrder, verses);
      }
      Persist(Updated(verses, id, data));
    }

    /** Drops every verse with that id, then persists. */
    method DeleteVerse(id: string)
      modifies this
      ensures verses == SortVerses(bookOrder, Removed(old(verses), id))
      ensures forall v :: multiset(verses)[v] == if v.id == id then 0 else multiset(old(verses))[v]
      ensures Sorted(bookOrder, verses) && stored == Saved(verses)
      ensures loaded == old(loaded)
      ensures Sorted(bookOrder, old(verses)) && (forall i :: 0 <= i < |old(verses)| ==> old(verses)[i].id != id)
        ==> verses == old(verses)
    {
      if Sorted(bookOrder, verses) {
        DeleteFromSorted(bookOrder, verses, id);
      }
      Persist(Removed(verses, id));
    }
  }
}
