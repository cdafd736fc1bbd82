# bible-memo in Dafny

A model of the logic behind bible-memo, a tool for memorising Bible verses.
The user keeps a list of verse references with their text and drills them as flashcards.

The model covers five parts of the program:

- **Verse store** (`use_verses.dfy`, module `UseVerses`). It holds the verse list and the storage slot it is written to. Add, update and delete build a new list, then `persist` sorts it by canonical book position, chapter and first verse, keeps it as state and writes it to the slot. Load takes whatever the slot holds and ignores a missing or unreadable value.
- **Flashcard session** (`flash_cards.dfy`, module `FlashCards`). It covers the card heading, the Fisher–Yates shuffle that swaps in place on a copied array, and the session state behind the shuffle, reset, previous, next and reveal controls.
- **Verse form** (`verse_form.dfy`, module `VerseForm`). It covers the draft being edited, the clamps the number inputs apply, the `isValid` rule and what a submit hands on.
- **Verse list** (`verse_list.dfy`, module `VerseList`). It covers the reference and testament shown per verse and the count line. It also models the add-or-update decision made when the form is saved, and how that decision reaches the store.
- **Verse text retrieval** (`bible_api.dfy`, module `BibleApi`). It looks up the book's abbreviation, turns one response into a text or an error, and expands a verse range into one request per verse. The texts are joined with single spaces in verse order.

Shared modules:

- `Types` holds the verse record and the five-field draft.
- `Books` holds the book table entry and the `find` by name.
- `Numerals` renders integers as `${n}` and proves the rendering can be read back.
- `Strings` splits at a character and joins with a separator.
- `References` holds the `chapter:start–end` text that both views print.
- `Wrappers` holds `Option` and `Result`.

The book table and `getBookOrder` live in `src/lib/books`, which is not part of this model.
Every operation that needs them takes them as parameters: a `seq<BookInfo>` and an arbitrary `string -> int`.
Nothing proved depends on how an unknown book is ranked.
Some inputs come from outside the program: `trim`, `toLowerCase`, the HTTP exchange, the random draws of the shuffle, and the verse id and creation time.
Each of these is a parameter as well.

How the code behaves where one might expect otherwise, as modelled:

- The store validates nothing. Only the form does.
- An update for an id that is not in the list still re-sorts and re-writes the list. When the list is already in order, it comes out unchanged. A list loaded out of order is put in order.
- Add, update and delete return nothing.
- Load does not sort what it reads.
- `version` is not declared on the verse record. Every verse the code creates lacks it, and the views print "NVI" in its place.
- A range whose last verse comes before its first makes `Array.from` build an empty array. The call then returns "" without making any request.

## Model

| member | source | states |
|---|---|---|
| UseVerses.Compare | src/hooks/useVerses.ts:10-15 | the comparator is at most zero exactly when (book position, chapter, first verse) is lexicographically no greater, and zero exactly on equal keys |
| UseVerses.CompareAntisymmetric | src/hooks/useVerses.ts:10-15 | swapping the two verses negates the comparator |
| UseVerses.SortVerses | src/hooks/useVerses.ts:9-16 | the sorted copy has the argument's length and multiset (a permutation) and is ascending by the three keys |
| UseVerses.SortStable | src/hooks/useVerses.ts:10-15 | for every key, the verses with that key appear in the sorted list in the same relative order as in the input |
| UseVerses.StableSortUnique | src/hooks/useVerses.ts:10-15 | two sorted lists that agree in order within every key are equal |
| UseVerses.SortVersesIsTheStableSort | src/hooks/useVerses.ts:10 | any sorted, stable rearrangement of the input is exactly SortVerses' result, so the engine's stable sort agrees with the model |
| UseVerses.SortSortedIsIdentity | src/hooks/useVerses.ts:9-16 | sorting an already ordered list returns it unchanged |
| UseVerses.NewVerse | src/hooks/useVerses.ts:40-44 | the new verse carries the draft's five fields, the given id and creation time, and no version |
| UseVerses.Merge | src/hooks/useVerses.ts:52 | `{ ...v, ...data }` carries the draft's five fields and keeps the verse's id, creation time and version |
| UseVerses.Updated | src/hooks/useVerses.ts:52 | same length; every verse with the id is merged with the draft, every other verse is left as it was |
| UseVerses.UpdatedAbsent | src/hooks/useVerses.ts:52 | with no verse carrying the id, the mapped list is the same list |
| UseVerses.Removed | src/hooks/useVerses.ts:59 | each verse with the id occurs zero times afterwards, each other verse as often as before |
| UseVerses.RemovedSorted | src/hooks/useVerses.ts:59 | a sorted list stays sorted after the filter |
| UseVerses.RemovedAbsent | src/hooks/useVerses.ts:59 | with no verse carrying the id, the filtered list is the same list |
| UseVerses.DeleteFromSorted | src/hooks/useVerses.ts:57-60 | on a sorted list the re-sort after delete moves nothing; deleting an absent id gives back the identical list |
| UseVerses.VerseStore.constructor | src/hooks/useVerses.ts:19-20 | the store starts with no verses and not loaded, over the slot's existing content |
| UseVerses.VerseStore.Load | src/hooks/useVerses.ts:22-30 | a stored list is taken as it is, without sorting; a missing or unparseable value leaves the verses as they were (empty); loaded becomes true either way; the slot is untouched |
| UseVerses.VerseStore.Persist | src/hooks/useVerses.ts:32-36 | the state becomes the sorted permutation of the argument and the slot holds exactly the state |
| UseVerses.VerseStore.AddVerse | src/hooks/useVerses.ts:38-48 | the state is the sorted old list plus exactly one new verse from the draft, id and time; the slot equals the state |
| UseVerses.VerseStore.UpdateVerse | src/hooks/useVerses.ts:50-55 | the state is the sorted mapped list, of unchanged length; the slot equals the state; an absent id on a sorted list leaves it identical |
| UseVerses.VerseStore.DeleteVerse | src/hooks/useVerses.ts:57-62 | exactly the verses with the id are gone and every other count is kept; the state is sorted and stored; an absent id on a sorted list leaves it identical |
| FlashCards.VerseRef | src/components/verses/FlashCards.tsx:12-18 | the heading starts with the book and a space, the rest holds an en dash exactly for a range, and the whole can be read back into the book, chapter, first and last verse, even when the book name holds spaces |
| FlashCards.SwapPermutes | src/components/verses/FlashCards.tsx:24 | swapping two positions keeps the multiset |
| FlashCards.FisherYatesPermutes | src/components/verses/FlashCards.tsx:20-27 | for any draws within [0, i], the shuffled list has the input's length and multiset |
| FlashCards.FisherYatesIdentityDraws | src/components/verses/FlashCards.tsx:22-25 | when every step draws its own index, nothing moves |
| FlashCards.Shuffle | src/components/verses/FlashCards.tsx:20-27 | the in-place loop over the copied array, from the last index down to 1, yields the specified swap sequence's result, a permutation of the input; the input is a value and is left as it was |
| FlashCards.PrevIndex | src/components/verses/FlashCards.tsx:52 | one card back, never below 0; from 0 it stays at 0 |
| FlashCards.NextIndex | src/components/verses/FlashCards.tsx:57 | one card on, never past the last index; from the last index it stays there; an index in range stays in range |
| FlashCards.Session.Current | src/components/verses/FlashCards.tsx:35 | the card shown is one of the verses |
| FlashCards.Session.constructor | src/components/verses/FlashCards.tsx:30-33 | the session starts on the verses' own order at index 0, hidden and not shuffled |
| FlashCards.Session.HandleShuffle | src/components/verses/FlashCards.tsx:37-42 | the order becomes the shuffle of the verses (a permutation), index 0, hidden, marked shuffled |
| FlashCards.Session.HandleReset | src/components/verses/FlashCards.tsx:44-49 | the order becomes exactly the verses, index 0, hidden, not shuffled |
| FlashCards.Session.HandlePrev | src/components/verses/FlashCards.tsx:51-54 | index becomes max(0, index-1), the text is hidden, the order is unchanged, the index stays in range |
| FlashCards.Session.HandleNext | src/components/verses/FlashCards.tsx:56-59 | index becomes min(length-1, index+1), the text is hidden, the order is unchanged, the index stays in range |
| FlashCards.Session.ToggleReveal | src/components/verses/FlashCards.tsx:98 | flips `revealed` (the card and the button at line 126 do the same) and changes nothing else |
| FlashCards.ResetAfterShuffle | src/components/verses/FlashCards.tsx:37-49 | after a shuffle and a move, reset gives back the starting order at index 0 |
| References.RangeText | src/components/verses/FlashCards.tsx:13-16 | the range text reads back into the first and last verse (a single verse reads back with both equal), and holds an en dash exactly when the last verse differs from the first |
| References.ChapterRange | src/components/verses/VerseList.tsx:19-23 | `chapter:range` reads back into the chapter and both verse numbers, so distinct references print differently, and holds an en dash exactly for a range |
| VerseList.VerseRef | src/components/verses/VerseList.tsx:19-23 | the list reference reads back into the chapter and both verse numbers, and shows an en dash exactly for a range |
| VerseList.Testament | src/components/verses/VerseList.tsx:25-27 | the testament of the first book with that name; none exactly when no book has that name |
| VerseList.CountLabel | src/components/verses/VerseList.tsx:56-58 | "Nenhum versículo ainda" for 0, "1 versículo" for 1, "n versículos" otherwise |
| VerseList.CountLabelRoundTrip | src/components/verses/VerseList.tsx:56-58 | the number before the first space of the line is the count, and the placeholder reads as 0 |
| VerseList.CountLabelInjective | src/components/verses/VerseList.tsx:56-58 | different counts give different lines |
| VerseList.ListState.constructor | src/components/verses/VerseList.tsx:30-31 | the form starts closed with nothing being edited |
| VerseList.ListState.HandleEdit | src/components/verses/VerseList.tsx:33-36 | the verse becomes the one being edited and the form opens |
| VerseList.ListState.HandleAdd | src/components/verses/VerseList.tsx:38-41 | nothing is being edited and the form opens |
| VerseList.ListState.HandleSave | src/components/verses/VerseList.tsx:43-50 | an update for the edited verse's id when one is being edited, an add otherwise; then nothing is being edited and the open flag is untouched |
| VerseList.Dispatch | src/app/page.tsx:74-80 | an add call appends the new verse and an update call maps the list, then the store's list is sorted and stored; the loaded flag is untouched |
| Books.FindBook | src/lib/bibleApi.ts:17 | the first table entry with the name; none exactly when no entry has it |
| VerseForm.OrElse | src/components/verses/VerseForm.tsx:117 | `parseInt(...)` with a fallback: a non-zero number is kept, NaN and 0 give the fallback |
| VerseForm.IsValid | src/components/verses/VerseForm.tsx:63-68 | a valid draft has a first verse of at least 1 and a last verse not before it; a draft without a book is never valid |
| VerseForm.EmptyInvalid | src/components/verses/VerseForm.tsx:31-37 | the blank draft `EMPTY` (no book, chapter and both verses 1, no text) cannot be saved, and its range is not reversed |
| VerseForm.Opened | src/components/verses/VerseForm.tsx:49-59 | opening for a verse copies its five draft fields; opening without one gives the blank draft |
| VerseForm.Submitted | src/components/verses/VerseForm.tsx:73 | the saved payload is the draft with its text trimmed and the other four fields as they were |
| VerseForm.SubmittedStaysValid | src/components/verses/VerseForm.tsx:63-73 | a payload saved from a valid draft is itself valid when trimming is idempotent on its text |
| VerseForm.WithChapter | src/components/verses/VerseForm.tsx:114-119 | NaN or 0 become chapter 1 and other numbers are kept; the chapter is at least 1 exactly when the input was not negative |
| VerseForm.WithVerseStart | src/components/verses/VerseForm.tsx:128-135 | the first verse becomes the parsed value (1 on NaN or 0), the last verse becomes max(old last, first), so the range is never reversed |
| VerseForm.WithVerseEnd | src/components/verses/VerseForm.tsx:144-152 | the last verse becomes the parsed value when that is non-zero and not below the first, otherwise the first; the range is never reversed |
| VerseForm.FormState.constructor | src/components/verses/VerseForm.tsx:45 | the draft starts blank |
| VerseForm.FormState.OpenEffect | src/components/verses/VerseForm.tsx:47-61 | on opening the draft is reset from the verse being edited or to blank; while closed it is left alone |
| VerseForm.FormState.ChangeBook | src/components/verses/VerseForm.tsx:91 | only the book changes |
| VerseForm.FormState.ChangeChapter | src/components/verses/VerseForm.tsx:114-119 | the draft is updated by the chapter clamp, and an ordered range stays ordered |
| VerseForm.FormState.ChangeVerseStart | src/components/verses/VerseForm.tsx:128-135 | the draft is updated by the first-verse clamp, and the range is ordered afterwards |
| VerseForm.FormState.ChangeVerseEnd | src/components/verses/VerseForm.tsx:144-152 | the draft is updated by the last-verse clamp, and the range is ordered afterwards |
| VerseForm.FormState.ChangeText | src/components/verses/VerseForm.tsx:164-166 | only the text changes |
| VerseForm.FormState.HandleSubmit | src/components/verses/VerseForm.tsx:63-75 | something is saved, and the dialog asks to close, exactly when the draft is valid: a book, chapter and first verse at least 1, last verse not before first, non-blank trimmed text; what is saved is the draft with trimmed text |
| Types.VersionLabel | src/components/verses/FlashCards.tsx:103 | the verse's own version when it has one, "NVI" otherwise |
| Numerals.IntRoundTrip | src/components/verses/VerseList.tsx:22 | an integer printed as `${n}` reads back as the same integer |
| Numerals.IntToStringInjective | src/components/verses/VerseList.tsx:22 | distinct integers print differently |
| Strings.Join | src/lib/bibleApi.ts:62 | no parts join to the empty text; otherwise the joined text starts with the first part |
| Strings.JoinLength | src/lib/bibleApi.ts:62 | the joined text is the parts' characters plus one separator between each two parts |
| Strings.JoinAppend | src/lib/bibleApi.ts:62 | joining two non-empty lists is joining each with one separator between |
| BibleApi.BookApiAbbr | src/lib/bibleApi.ts:16-21 | fails with "Livro não encontrado: name" exactly when no book has the name, otherwise the first such book's abbreviation lowercased |
| BibleApi.ErrorMessage | src/lib/bibleApi.ts:34-37 | the body's `msg` when it has one, otherwise "Erro " and the status |
| BibleApi.ErrorMessageStatus | src/lib/bibleApi.ts:34-37 | whenever the body has no `msg` (unreadable, or readable without one), the generic message carries the status, which reads back from it |
| BibleApi.SingleVerse | src/lib/bibleApi.ts:34-39 | succeeds exactly on an ok response with a readable body, with its `text`; a non-ok response fails with the error message rule |
| BibleApi.FetchSingleVerse | src/lib/bibleApi.ts:23-40 | a failed `fetch` rejects; the call succeeds exactly on an ok response with a readable body, with its `text`; a non-ok response fails with the error message rule |
| BibleApi.RangeLength | src/lib/bibleApi.ts:58 | end-start+1 requests for an ordered range, none for a reversed one |
| BibleApi.RangeRequests | src/lib/bibleApi.ts:57-61 | request i asks for verse start+i, with the same version, abbreviation, chapter and token |
| BibleApi.FetchAll | src/lib/bibleApi.ts:57-61 | succeeds exactly when every request does, with their texts in request order; a failure is one a request produced, and no partial text is returned |
| BibleApi.FetchRange | src/lib/bibleApi.ts:57-62 | succeeds exactly when every request does, with the texts joined by one space in request order; a failure is one a request produced |
| BibleApi.FetchVerseText | src/lib/bibleApi.ts:42-50 | an unknown book fails with the lookup error before any request is made |
| BibleApi.FetchVerseTextResult | src/lib/bibleApi.ts:50-62 | for a known book: one request for a single verse, otherwise one per verse from start to end; success exactly when all succeed; the text is the single verse's text verbatim or the texts joined with one space in verse order |
| BibleApi.SingleAgreesWithRange | src/lib/bibleApi.ts:52-62 | the single-verse shortcut gives what the range path would give for a one-verse range |
| BibleApi.FetchAllDependsOnlyOnRequests | src/lib/bibleApi.ts:57-61 | two transports that answer the requests alike give the same result |
| BibleApi.FetchVerseTextDependsOnlyOnIssued | src/lib/bibleApi.ts:50-61 | the result depends only on the responses to the issued requests |

## Left out

- Browser storage and JSON: the slot under `bible-memo-verses` holds a `Slot` value (missing, unparseable, or a list). Serialisation is not modelled. A stored value that parses to something other than a list of verses is not modelled either.
- `Math.random`: the shuffle receives the index drawn at each step, and nothing is claimed about its distribution.
- `crypto.randomUUID` and `Date.now` are parameters of AddVerse. The code never checks that ids are unique, and the model claims nothing about it.
- `src/lib/books` is not part of this model. Its table and `getBookOrder` are parameters, and how unknown books rank is left open.
- `String.prototype.trim`, `toLowerCase` and `parseInt` are parameters or their results. Only the properties used are assumed, such as idempotence of trim in SubmittedStaysValid.
- JavaScript numbers are modelled as unbounded integers. Fractions, NaN coming out of the comparator, and floating-point limits are not modelled.
- React scheduling is left out. Each handler takes effect at once. Callbacks that capture an older `verses` and batched state updates are not modelled.
- FlashCards.Session: the `verses` prop is fixed for the life of the session. The page unmounts the cards view whenever the list can change.
- BibleApi.FetchAll: when several requests fail, the model reports the failure of the first in verse order. The real call rejects with whichever failing request settles first. Nothing else about completion order or cancellation is modelled.
- The HTTP exchange is the `transport` parameter. A `Request` record stands for the URL built from the service's base address, the lowercased version and the bearer header. `BibleVersion` is an opaque type.
- BibleApi.SingleVerse: a successful response whose body has no `text` field is not modelled; the model always finds a string there.
- The API token (`getApiToken`, `setApiToken`, the token dialog), the list/cards view toggle and all rendering, `disabled` flags and styling are out of scope.
- VerseForm.FormState.HandleSubmit: `e.preventDefault()` is not modelled. `onSave` and `onOpenChange(false)` are represented by the returned payload and `close` flag.
