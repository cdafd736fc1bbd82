/**
 * The flashcard drill of src/components/verses/FlashCards.tsx: the card
 * heading, the in-place Fisher–Yates shuffle and the session state behind
 * the shuffle, reset, previous, next and reveal controls.
 *
 * `Math.random()` is not modelled: the shuffle is given the index drawn at
 * each step.
 */
module FlashCards {
  import opened Wrappers
  import opened Types
  import opened Numerals
  import opened Strings
  import opened References

  /** Takes a card heading apart at its last space. */
  function ParseVerseRef(t: string): Option<(string, int, int, int)> {
    match SplitLast(t, ' ')
    case None => None
    case Some((book, rest)) =>
      (match ParseChapterRange(rest)
       case Some((c, s, e)) => Some((book, c, s, e))
       case None => None)
  }

  /**
   * `${book} ${chapter}:${range}`: the reference shown on a card. The heading
   * determines the verse's book, chapter and verse numbers, even when the book
   * name holds spaces, because the numbers after the last space never do.
   */
  function VerseRef(v: Verse): (r: string)
    ensures |r| > |v.book| && r[..|v.book| + 1] == v.book + " "
    ensures EN_DASH in r[|v.book| + 1..] <==> v.verseEnd != v.verseStart
    ensures ParseVerseRef(r) == Some((v.book, v.chapter, v.verseStart, v.verseEnd))
  {
    var tail := ChapterRange(v.chapter, v.verseStart, v.verseEnd);
    ChapterRangeChars(v.chapter, v.verseStart, v.verseEnd, ' ');
    SplitLastOf(v.book, ' ', tail);
    assert (v.book + [' '] + tail)[|v.book| + 1..] == tail;
    v.book + [' '] + tail
  }

  // ---------------------------------------------------------------------------
  // shuffle
  // ---------------------------------------------------------------------------

  /** `draws[i]` is the index drawn when the loop variable is `i`; it lies in [0, i]. */
  predicate ValidDraws(draws: seq<nat>, n: nat) {
    |draws| == n && forall i :: 0 < i < n ==> draws[i] <= i
  }

  function Swap<T>(s: seq<T>, i: nat, j: nat): (r: seq<T>)
    requires i < |s| && j < |s|
    ensures |r| == |s|
  {
    s[i := s[j]][j := s[i]]
  }

  lemma SwapPermutes<T>(s: seq<T>, i: nat, j: nat)
    requires i < |s| && j < |s|
    ensures multiset(Swap(s, i, j)) == multiset(s)
  {
    if i != j {
      var t := s[i := s[j]];
      assert multiset(t) == multiset(s) - multiset{s[i]} + multiset{s[j]};
    }
  }

  /** The loop from `i` down to 1, each step swapping position `i` with `draws[i]`. */
  function FisherYates<T>(s: seq<T>, draws: seq<nat>, i: int): seq<T>
    requires i < |s| && ValidDraws(draws, |s|)
    decreases i
  {
    if i <= 0 then s
    else FisherYates(Swap(s, i, draws[i]), draws, i - 1)
  }

  /** Whatever indices are drawn, the shuffled list is a rearrangement of its input. */
  lemma {:induction false} FisherYatesPermutes<T>(s: seq<T>, draws: seq<nat>, i: int)
    requires i < |s| && ValidDraws(draws, |s|)
    ensures |FisherYates(s, draws, i)| == |s|
    ensures multiset(FisherYates(s, draws, i)) == multiset(s)
    decreases i
  {
    if i > 0 {
      SwapPermutes(s, i, draws[i]);
      FisherYatesPermutes(Swap(s, i, draws[i]), draws, i - 1);
    }
  }

  /** When every draw picks the current position, no element moves. */
  lemma {:induction false} FisherYatesIdentityDraws<T>(s: seq<T>, draws: seq<nat>, i: int)
    requires i < |s| && ValidDraws(draws, |s|)
    requires forall k :: 0 < k < |s| ==> draws[k] == k
    ensures FisherYates(s, draws, i) == s
    decreases i
  {
    if i > 0 {
      assert Swap(s, i, draws[i]) == s;
      FisherYatesIdentityDraws(s, draws, i - 1);
    }
  }

  /**
   * `shuffle(arr)`: copies the input into a fresh array and swaps `a[i]` with
   * `a[draws[i]]` for `i` from the last index down to 1.
   */
  method Shuffle<T>(arr: seq<T>, draws: seq<nat>) returns (r: seq<T>)
    requires ValidDraws(draws, |arr|)
    ensures r == FisherYates(arr, draws, |arr| - 1)
    ensures |r| == |arr| && multiset(r) == multiset(arr)
  {
    var a := new T[|arr|](k requires 0 <= k < |arr| => arr[k]);
    assert a[..] == arr;
    var i := a.Length - 1;
    while i > 0
      invariant -1 <= i < a.Length
      invariant FisherYates(a[..], draws, i) == FisherYates(arr, draws, |arr| - 1)
      invariant multiset(a[..]) == multiset(arr)
    {
      var j := draws[i];
      ghost var before := a[..];
      a[i], a[j] := a[j], a[i];
      assert a[..] == Swap(before, i, j);
      SwapPermutes(before, i, j);
      i := i - 1;
    }
    r := a[..];
  }

  // ---------------------------------------------------------------------------
  // The component's state
  // ---------------------------------------------------------------------------

  /** `Math.max(0, i - 1)`: one card back, staying on the first card. */
  function PrevIndex(i: int): (r: int)
    ensures r >= 0
    ensures i > 0 ==> r == i - 1
    ensures i <= 0 ==> r == 0
  {
    if i - 1 > 0 then i - 1 else 0
  }

  /** `Math.min(order.length - 1, i + 1)`: one card on, staying on the last card. */
  function NextIndex(i: int, len: nat): (r: int)
    ensures r <= len - 1
    ensures i < len - 1 ==> r == i + 1
    ensures i >= len - 1 ==> r == len - 1
    ensures 0 <= i < len ==> 0 <= r < len
  {
    if len - 1 < i + 1 then len - 1 else i + 1
  }

  class Session {
    /** The `verses` prop; the cards view is unmounted whenever the list can change. */
    const verses: seq<Verse>
    var order: seq<Verse>
    var index: int
    var revealed: bool
    var isShuffled: bool

    /** The order is a rearrangement of the verses and, when there are cards, the index points at one. */
    ghost predicate Valid()
      reads this
    {
      multiset(order) == multiset(verses) && |order| == |verses|
      && (|order| > 0 ==> 0 <= index < |order|)
    }

    /** The card shown: `order[index]`. */
    function Current(): (v: Verse)
      reads this
      requires Valid() && |order| > 0
      ensures v in verses
    {
      assert order[index] in multiset(order);
      order[index]
    }

    constructor (verses: seq<Verse>)
      ensures this.verses == verses && order == verses
      ensures index == 0 && !revealed && !isShuffled
      ensures Valid()
    {
      this.verses := verses;
      order := verses;
      index := 0;
      revealed := false;
      isShuffled := false;
    }

    method HandleShuffle(draws: seq<nat>)
      requires ValidDraws(draws, |verses|)
      modifies this
      ensures order == FisherYates(verses, draws, |verses| - 1)
      ensures multiset(order) == multiset(verses)
      ensures index == 0 && !revealed && isShuffled
      ensures Valid()
    {
      order := Shuffle(verses, draws);
      index := 0;
      revealed := false;
      isShuffled := true;
    }

    method HandleReset()
      modifies this
      ensures order == verses
      ensures index == 0 && !revealed && !isShuffled
      ensures Valid()
    {
      order := verses;
      index := 0;
      revealed := false;
      isShuffled := false;
    }

    method HandlePrev()
      requires Valid()
      modifies this
      ensures index == PrevIndex(old(index)) && !revealed
      ensures order == old(order) && isShuffled == old(isShuffled)
      ensures Valid()
    {
      index := PrevIndex(index);
      revealed := false;
    }

    method HandleNext()
      requires Valid()
      modifies this
      ensures index == NextIndex(old(index), |order|) && !revealed
      ensures order == old(order) && isShuffled == old(isShuffled)
      ensures Valid()
    {
      index := NextIndex(index, |order|);
      revealed := false;
    }

    /** A click on the card or on the reveal button: `setRevealed((r) => !r)`. */
    method ToggleReveal()
      modifies this
      ensures revealed == !old(revealed)
      ensures order == old(order) && index == old(index) && isShuffled == old(isShuffled)
    {
      revealed := !revealed;
    }
  }

  /** Going back to the original order after a shuffle gives the order the session started with. */
  method ResetAfterShuffle(verses: seq<Verse>, draws: seq<nat>) returns (order: seq<Verse>, index: int)
    requires ValidDraws(draws, |verses|)
    ensures order == verses && index == 0
  {
    var session := new Session(verses);
    session.HandleShuffle(draws);
    session.HandleNext();
    session.HandleReset();
    order, index := session.order, session.index;
  }
}
