/**
 * The "chapter:start" / "chapter:start–end" text that both the list and the
 * cards print for a reference, and a reader that takes such a text apart
 * again. The reader is not part of the program; it shows that the printed
 * reference determines the chapter and both verse numbers.
 */
module References {
  import opened Wrappers
  import opened Numerals
  import opened Strings

  const EN_DASH: char := '\U{2013}'

  /**
   * `${verseStart}` for one verse, `${verseStart}–${verseEnd}` (en dash) when
   * the ends differ. The text reads back into both verse numbers, and it holds
   * an en dash exactly for a range.
   */
  function RangeText(verseStart: int, verseEnd: int): (r: string)
    ensures ParseRange(r) == Some((verseStart, verseEnd))
    ensures EN_DASH in r <==> verseEnd != verseStart
  {
    var first := IntToString(verseStart);
    IntRoundTrip(verseStart);
    NoOtherChar(verseStart, EN_DASH);
    if verseEnd != verseStart then
      var last := IntToString(verseEnd);
      IntRoundTrip(verseEnd);
      SplitFirstOf(first, EN_DASH, last);
      assert (first + [EN_DASH] + last)[|first|] == EN_DASH;
      first + [EN_DASH] + last
    else
      first
  }

  /**
   * `${chapter}:${range}`. The text reads back into the chapter and both verse
   * numbers, so distinct references print differently, and it holds an en
   * dash exactly for a range.
   */
  function ChapterRange(chapter: int, verseStart: int, verseEnd: int): (r: string)
    ensures ParseChapterRange(r) == Some((chapter, verseStart, verseEnd))
    ensures EN_DASH in r <==> verseEnd != verseStart
  {
    var head := IntToString(chapter);
    var range := RangeText(verseStart, verseEnd);
    IntRoundTrip(chapter);
    NoOtherChar(chapter, ':');
    NoOtherChar(chapter, EN_DASH);
    SplitFirstOf(head, ':', range);
    head + [':'] + range
  }

  function ParseRange(t: string): Option<(int, int)> {
    match SplitFirst(t, EN_DASH)
    case None =>
      (match DecimalValue(t)
       case Some(n) => Some((n, n))
       case None => None)
    case Some((a, b)) =>
      (match (DecimalValue(a), DecimalValue(b))
       case (Some(s), Some(e)) => Some((s, e))
       case _ => None)
  }

  function ParseChapterRange(t: string): Option<(int, int, int)> {
    match SplitFirst(t, ':')
    case None => None
    case Some((c, r)) =>
      (match (DecimalValue(c), ParseRange(r))
       case (Some(chapter), Some((s, e))) => Some((chapter, s, e))
       case _ => None)
  }

  /** The text holds only digits, minus signs, one colon and at most one en dash. */
  lemma ChapterRangeChars(chapter: int, verseStart: int, verseEnd: int, c: char)
    requires !IsDigit(c) && c != '-' && c != ':' && c != EN_DASH
    ensures c !in ChapterRange(chapter, verseStart, verseEnd)
  {
    NoOtherChar(chapter, c);
    NoOtherChar(verseStart, c);
    NoOtherChar(verseEnd, c);
  }
}
