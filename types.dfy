/** The records of src/lib/types.ts, and the shapes the other files pass around. */
module Types {
  import opened Wrappers

  /** A Bible translation accepted by the text service; its members are not part of this model. */
  type BibleVersion(==)

  /**
   * A stored verse. `version` is read by the list and the cards but is not
   * declared on the record, so it is absent on every verse the code creates;
   * absent, it is shown as "NVI".
   */
  datatype Verse = Verse(
    id: string,
    book: string,
    chapter: int,
    verseStart: int,
    verseEnd: int,
    text: string,
    createdAt: int,
    version: Option<string>)

  /** `Omit<Verse, "id" | "createdAt">` as the form fills it in: the five edited fields. */
  datatype Draft = Draft(
    book: string,
    chapter: int,
    verseStart: int,
    verseEnd: int,
    text: string)

  /** The five draft fields of a stored verse. */
  function DraftOf(v: Verse): Draft {
    Draft(v.book, v.chapter, v.verseStart, v.verseEnd, v.text)
  }

  /** `version ?? "NVI"`. */
  function VersionLabel(v: Verse): (r: string)
    ensures v.version.Some? ==> r == v.version.value
    ensures v.version.None? ==> r == "NVI"
  {
    match v.version
    case Some(name) => name
    case None => "NVI"
  }
}
