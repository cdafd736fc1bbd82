/**
 * The add/edit dialog of src/components/verses/VerseForm.tsx: the draft the
 * dialog edits, the clamps its number inputs apply, the `isValid` rule and
 * what a submit hands to `onSave`.
 *
 * `String.prototype.trim` is passed in as `trim`; JavaScript's `parseInt` is
 * seen only through its result, `Parsed`.
 */
module VerseForm {
  import opened Wrappers
  import opened Types

  /** What `parseInt(e.target.value)` yields: NaN, or an integer (possibly 0 or negative). */
  datatype Parsed = NaN | Num(n: int)

  /** `parseInt(...) || fallback`: NaN and 0 are falsy and give way to the fallback. */
  function OrElse(p: Parsed, fallback: int): (r: int)
    ensures p.Num? && p.n != 0 ==> r == p.n
    ensures p.NaN? || p.n == 0 ==> r == fallback
  {
    if p.Num? && p.n != 0 then p.n else fallback
  }

  function Max(a: int, b: int): (r: int)
    ensures r >= a && r >= b && (r == a || r == b)
  {
    if a >= b then a else b
  }

  /** The blank draft a new verse starts from. */
  const EMPTY := Draft("", 1, 1, 1, "")

  /** `isValid`: a book is chosen, chapter and first verse are at least 1, the range is not reversed, and the text is not blank. */
  predicate IsValid(form: Draft, trim: string -> string): (ok: bool)
    ensures ok ==> 1 <= form.verseStart <= form.verseEnd
    ensures form.book == "" ==> !ok
  {
    |form.book| > 0
    && form.chapter >= 1
    && form.verseStart >= 1
    && form.verseEnd >= form.verseStart
    && |trim(form.text)| > 0
  }

  /** The blank draft cannot be saved: it names no book. */
  lemma EmptyInvalid(trim: string -> string)
    ensures !IsValid(EMPTY, trim)
    ensures EMPTY.verseEnd >= EMPTY.verseStart
  {
  }

  /** `{ ...form, text: form.text.trim() }`. */
  function Submitted(form: Draft, trim: string -> string): (r: Draft)
    ensures r.text == trim(form.text)
    ensures r.book == form.book && r.chapter == form.chapter
    ensures r.verseStart == form.verseStart && r.verseEnd == form.verseEnd
  {
    form.(text := trim(form.text))
  }

  /** A saved draft passes the same check again, for any `trim` that is idempotent on its text. */
  lemma SubmittedStaysValid(form: Draft, trim: string -> string)
    requires IsValid(form, trim)
    requires trim(trim(form.text)) == trim(form.text)
    ensures IsValid(Submitted(form, trim), trim)
  {
  }

  /** What the open effect sets the draft to: the five fields of `initialData`, or EMPTY. */
  function Opened(initialData: Option<Verse>): (r: Draft)
    ensures initialData.Some? ==> r == DraftOf(initialData.value)
    ensures initialData.None? ==> r == EMPTY
  {
    match initialData
    case Some(v) => Draft(v.book, v.chapter, v.verseStart, v.verseEnd, v.text)
    case None => EMPTY
  }

  /** The chapter input's updater: NaN or 0 becomes 1; other numbers, negative ones too, are kept. */
  function WithChapter(f: Draft, p: Parsed): (r: Draft)
    ensures r == f.(chapter := OrElse(p, 1))
    ensures r.chapter >= 1 <==> p.NaN? || p.n >= 0
  {
    f.(chapter := OrElse(p, 1))
  }

  /** The first-verse input's updater: it pushes the last verse up when needed, never down. */
  function WithVerseStart(f: Draft, p: Parsed): (r: Draft)
    ensures r.verseStart == OrElse(p, 1)
    ensures r.verseEnd >= r.verseStart
    ensures r.verseEnd >= f.verseEnd
    ensures r.verseEnd == f.verseEnd || r.verseEnd == r.verseStart
    ensures r.book == f.book && r.chapter == f.chapter && r.text == f.text
  {
    var v := OrElse(p, 1);
    f.(verseStart := v, verseEnd := Max(f.verseEnd, v))
  }

  /** The last-verse input's updater: never below the first verse, which it falls back to on NaN or 0. */
  function WithVerseEnd(f: Draft, p: Parsed): (r: Draft)
    ensures r.verseEnd >= r.verseStart
    ensures p.Num? && p.n != 0 && p.n >= f.verseStart ==> r.verseEnd == p.n
    ensures p.NaN? || p.n == 0 || p.n < f.verseStart ==> r.verseEnd == f.verseStart
    ensures r == f.(verseEnd := r.verseEnd)
  {
    f.(verseEnd := Max(f.verseStart, OrElse(p, f.verseStart)))
  }

  /** The form's state: the draft held by `useState(EMPTY)`. */
  class FormState {
    var form: Draft

    /** The range is not reversed. */
    predicate RangeOrdered()
      reads this
    {
      form.verseEnd >= form.verseStart
    }

    constructor ()
      ensures form == EMPTY && RangeOrdered()
    {
      form := EMPTY;
    }

    /** The effect on `[open, initialData]`: on opening, load the verse being edited or start blank. */
    method OpenEffect(open: bool, initialData: Option<Verse>)
      modifies this
      ensures form == if open then Opened(initialData) else old(form)
    {
      if open {
        form := Opened(initialData);
      }
    }

    method ChangeBook(book: string)
      modifies this
      ensures form == old(form).(book := book)
      ensures old(RangeOrdered()) ==> RangeOrdered()
    {
      form := form.(book := book);
    }

    method ChangeChapter(p: Parsed)
      modifies this
      ensures form == WithChapter(old(form), p)
      ensures old(RangeOrdered()) ==> RangeOrdered()
    {
      form := WithChapter(form, p);
    }

    method ChangeVerseStart(p: Parsed)
      modifies this
      ensures form == WithVerseStart(old(form), p)
      ensures RangeOrdered()
    {
      form := WithVerseStart(form, p);
    }

    method ChangeVerseEnd(p: Parsed)
      modifies this
      ensures form == WithVerseEnd(old(form), p)
      ensures RangeOrdered()
    {
      form := WithVerseEnd(form, p);
    }

    method ChangeText(text: string)
      modifies this
      ensures form == old(form).(text := text)
      ensures old(RangeOrdered()) ==> RangeOrdered()
    {
      form := form.(text := text);
    }

    /**
     * `handleSubmit`: an invalid draft is ignored; a valid one goes to `onSave`
     * with its text trimmed and the dialog asks to close. The draft itself is
     * left as it is.
     */
    method HandleSubmit(trim: string -> string) returns (saved: Option<Draft>, close: bool)
      ensures saved.Some? <==> IsValid(form, trim)
      ensures saved.Some? ==> saved.value == Submitted(form, trim)
      ensures close <==> saved.Some?
    {
      if !IsValid(form, trim) {
        return None, false;
      }
      saved := Some(Submitted(form, trim));
      close := true;
    }
  }
}
