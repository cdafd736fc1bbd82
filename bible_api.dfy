/**
 * Verse text retrieval of src/lib/bibleApi.ts: the book abbreviation the
 * service expects, the per-verse request and the rule that turns its
 * response into a text or an error, and the expansion of a verse range into
 * one request per verse whose texts are joined with a single space.
 *
 * The HTTP exchange is a parameter, `transport`, from a request to the
 * response it receives; `toLowerCase` is the parameter `lower`.
 */
module BibleApi {
  import opened Wrappers
  import opened Types
  import opened Books
  import opened Numerals
  import opened Strings

  /** The `message` of the `Error` a call rejects with. */
  datatype FetchError =
    | Thrown(message: string)   // an `Error` thrown by this file
    | InvalidJson               // `res.json()` rejected on a successful response
    | NetworkFailure            // `fetch` itself rejected

  /** `bookApiAbbr`: the first table entry with that name, its abbreviation lowercased. */
  function BookApiAbbr(books: seq<BookInfo>, bookName: string, lower: string -> string): (r: Result<string, FetchError>)
    ensures r.Failure? <==> forall i :: 0 <= i < |books| ==> books[i].name != bookName
    ensures r.Failure? ==> r.error == Thrown("Livro não encontrado: " + bookName)
    ensures r.Success? ==> exists i :: FirstNamed(books, bookName, i) && r.value == lower(books[i].abbr)
  {
    match FindBook(books, bookName)
    case None => Failure(Thrown("Livro não encontrado: " + bookName))
    case Some(book) => Success(lower(book.abbr))
  }

  /** One verse request: what goes into the URL path `/verses/{version}/{abbr}/{chapter}/{verse}` and the bearer header. */
  datatype Request = Request(version: BibleVersion, abbr: string, chapter: int, verse: int, token: string)

  /** A response body as `res.json()` sees it. */
  datatype Body = Malformed | Json(msg: Option<string>, text: string)

  datatype Response =
    | Unreachable
    | Response(ok: bool, status: nat, body: Body)

  /** `err?.msg ?? \`Erro ${res.status}\``, where an unreadable body counts as `{}`. */
  function ErrorMessage(status: nat, body: Body): (m: string)
    ensures body.Json? && body.msg.Some? ==> m == body.msg.value
    ensures !(body.Json? && body.msg.Some?) ==> m == "Erro " + IntToString(status)
  {
    match body
    case Json(Some(msg), _) => msg
    case _ => "Erro " + IntToString(status)
  }

  /** The generic message states the status: it can be read back from it. */
  lemma ErrorMessageStatus(status: nat, body: Body)
    requires !(body.Json? && body.msg.Some?)
    ensures |ErrorMessage(status, body)| > 5
    ensures DecimalValue(ErrorMessage(status, body)[5..]) == Some(status as int)
  {
    assert ErrorMessage(status, body)[5..] == IntToString(status);
    IntRoundTrip(status);
  }

  /** What `fetchSingleVerse` resolves or rejects with, given the response. */
  function SingleVerse(res: Response): (r: Result<string, FetchError>)
    ensures r.Success? <==> res.Response? && res.ok && res.body.Json?
    ensures r.Success? ==> r.value == res.body.text
    ensures res.Response? && !res.ok ==> r == Failure(Thrown(ErrorMessage(res.status, res.body)))
  {
    match res
    case Unreachable => Failure(NetworkFailure)
    case Response(ok, status, body) =>
      if !ok then Failure(Thrown(ErrorMessage(status, body)))
      else
        match body
        case Malformed => Failure(InvalidJson)
        case Json(_, text) => Success(text)
  }

  function FetchSingleVerse(transport: Request -> Response, req: Request): (r: Result<string, FetchError>)
    ensures transport(req).Unreachable? ==> r == Failure(NetworkFailure)
    ensures r.Success? <==> transport(req).Response? && transport(req).ok && transport(req).body.Json?
    ensures r.Success? ==> r.value == transport(req).body.text
    ensures transport(req).Response? && !transport(req).ok
      ==> r == Failure(Thrown(ErrorMessage(transport(req).status, transport(req).body)))
  {
    SingleVerse(transport(req))
  }

  /** `Array.from({ length: verseEnd - verseStart + 1 }, ...)`: a negative length gives no element. */
  function RangeLength(verseStart: int, verseEnd: int): (n: nat)
    ensures verseEnd >= verseStart ==> n == verseEnd - verseStart + 1
    ensures verseEnd < verseStart ==> n == 0
  {
    if verseEnd - verseStart + 1 > 0 then verseEnd - verseStart + 1 else 0
  }

  /** One request per verse number, from `verseStart` up to `verseEnd`, in that order. */
  function RangeRequests(version: BibleVersion, abbr: string, chapter: int, verseStart: int, verseEnd: int, token: string)
    : (reqs: seq<Request>)
    ensures |reqs| == RangeLength(verseStart, verseEnd)
    ensures forall i :: 0 <= i < |reqs| ==> reqs[i] == Request(version, abbr, chapter, verseStart + i, token)
  {
    seq(RangeLength(verseStart, verseEnd), i => Request(version, abbr, chapter, verseStart + i, token))
  }

  /**
   * `Promise.all` over the requests: every text, in request order, when all of
   * them succeed; otherwise a failure that one of them produced.
   */
  function FetchAll(transport: Request -> Response, reqs: seq<Request>): (r: Result<seq<string>, FetchError>)
    ensures r.Success? <==> forall i :: 0 <= i < |reqs| ==> FetchSingleVerse(transport, reqs[i]).Success?
    ensures r.Success? ==> |r.value| == |reqs|
    ensures r.Success? ==> forall i :: 0 <= i < |reqs| ==> r.value[i] == FetchSingleVerse(transport, reqs[i]).value
    ensures r.Failure? ==> exists i :: 0 <= i < |reqs| && FetchSingleVerse(transport, reqs[i]) == Failure(r.error)
  {
    if |reqs| == 0 then Success([])
    else
      match FetchSingleVerse(transport, reqs[0])
      case Failure(e) => Failure(e)
      case Success(text) =>
        match FetchAll(transport, reqs[1..])
        case Failure(e) =>
          assert exists i :: 1 <= i < |reqs| && FetchSingleVerse(transport, reqs[i]) == Failure(e) by {
            var j :| 0 <= j < |reqs| - 1 && FetchSingleVerse(transport, reqs[1..][j]) == Failure(e);
            assert reqs[j + 1] == reqs[1..][j];
          }
          Failure(e)
        case Success(texts) => Success([text] + texts)
  }

  /** `(await Promise.all(...)).join(" ")`. */
  function FetchRange(transport: Request -> Response, reqs: seq<Request>): (r: Result<string, FetchError>)
    ensures r.Success? <==> forall i :: 0 <= i < |reqs| ==> FetchSingleVerse(transport, reqs[i]).Success?
    ensures r.Failure? ==> exists i :: 0 <= i < |reqs| && FetchSingleVerse(transport, reqs[i]) == Failure(r.error)
    ensures r.Success? ==>
      r.value == Join(seq(|reqs|, i requires 0 <= i < |reqs| => FetchSingleVerse(transport, reqs[i]).value), " ")
  {
    var texts :- FetchAll(transport, reqs);
    assert texts == seq(|reqs|, i requires 0 <= i < |reqs| => FetchSingleVerse(transport, reqs[i]).value);
    Success(Join(texts, " "))
  }

  /** The requests a call issues: none for an unknown book, one for a single verse, one per verse of a range. */
  function IssuedRequests(books: seq<BookInfo>, lower: string -> string, version: BibleVersion, bookName: string,
                          chapter: int, verseStart: int, verseEnd: int, token: string): seq<Request>
  {
    match BookApiAbbr(books, bookName, lower)
    case Failure(_) => []
    case Success(abbr) =>
      if verseStart == verseEnd then [Request(version, abbr, chapter, verseStart, token)]
      else RangeRequests(version, abbr, chapter, verseStart, verseEnd, token)
  }

  /** `fetchVerseText`. */
  function FetchVerseText(books: seq<BookInfo>, lower: string -> string, transport: Request -> Response,
                          version: BibleVersion, bookName: string, chapter: int, verseStart: int, verseEnd: int,
                          token: string): (r: Result<string, FetchError>)
    ensures (forall i :: 0 <= i < |books| ==> books[i].name != bookName) ==>
      r == Failure(Thrown("Livro não encontrado: " + bookName))
      && IssuedRequests(books, lower, version, bookName, chapter, verseStart, verseEnd, token) == []
  {
    var abbr :- BookApiAbbr(books, bookName, lower);
    if verseStart == verseEnd then
      FetchSingleVerse(transport, Request(version, abbr, chapter, verseStart, token))
    else
      FetchRange(transport, RangeRequests(version, abbr, chapter, verseStart, verseEnd, token))
  }

  /**
   * For a known book, the call succeeds exactly when every issued request
   * succeeds; the text is then the single verse's text as it came, or the
   * texts of verses `verseStart..verseEnd` joined with one space, in verse
   * order (empty when the range is reversed, with no request made).
   */
  lemma {:induction false} FetchVerseTextResult(books: seq<BookInfo>, lower: string -> string,
                                                transport: Request -> Response, version: BibleVersion,
                                                bookName: string, chapter: int, verseStart: int, verseEnd: int,
                                                token: string)
    requires BookApiAbbr(books, bookName, lower).Success?
    ensures var abbr := BookApiAbbr(books, bookName, lower).value;
      var issued := IssuedRequests(books, lower, version, bookName, chapter, verseStart, verseEnd, token);
      var r := FetchVerseText(books, lower, transport, version, bookName, chapter, verseStart, verseEnd, token);
      && |issued| == (if verseStart == verseEnd then 1 else RangeLength(verseStart, verseEnd))
      && (forall i :: 0 <= i < |issued| ==> issued[i] == Request(version, abbr, chapter, verseStart + i, token))
      && (r.Success? <==> forall i :: 0 <= i < |issued| ==> FetchSingleVerse(transport, issued[i]).Success?)
      && (r.Failure? ==> exists i :: 0 <= i < |issued| && FetchSingleVerse(transport, issued[i]) == Failure(r.error))
      && (r.Success? && verseStart == verseEnd ==> r.value == FetchSingleVerse(transport, issued[0]).value)
      && (r.Success? && verseStart != verseEnd ==>
            r.value == Join(seq(|issued|, i requires 0 <= i < |issued| => FetchSingleVerse(transport, issued[i]).value), " "))
  {
    var abbr := BookApiAbbr(books, bookName, lower).value;
    var issued := IssuedRequests(books, lower, version, bookName, chapter, verseStart, verseEnd, token);
    var r := FetchVerseText(books, lower, transport, version, bookName, chapter, verseStart, verseEnd, token);
    if verseStart == verseEnd {
      var req := Request(version, abbr, chapter, verseStart, token);
      assert issued == [req] && issued[0] == req;
      assert r == FetchSingleVerse(transport, issued[0]);
      assert r.Success? <==> forall i :: 0 <= i < |issued| ==> FetchSingleVerse(transport, issued[i]).Success?;
      if r.Failure? {
        assert FetchSingleVerse(transport, issued[0]) == Failure(r.error);
      }
    } else {
      var reqs := RangeRequests(version, abbr, chapter, verseStart, verseEnd, token);
      assert issued == reqs;
      assert r == FetchRange(transport, reqs);
    }
  }

  /** The single-verse shortcut answers what the range path would for a one-verse range. */
  lemma SingleAgreesWithRange(transport: Request -> Response, version: BibleVersion, abbr: string, chapter: int,
                              verse: int, token: string)
    ensures FetchRange(transport, RangeRequests(version, abbr, chapter, verse, verse, token))
         == FetchSingleVerse(transport, Request(version, abbr, chapter, verse, token))
  {
    var reqs := RangeRequests(version, abbr, chapter, verse, verse, token);
    assert reqs == [Request(version, abbr, chapter, verse, token)];
    assert reqs[1..] == [];
  }

  /** Only the issued requests matter: transports that answer them alike give the same result. */
  lemma {:induction false} FetchAllDependsOnlyOnRequests(t1: Request -> Response, t2: Request -> Response,
                                                         reqs: seq<Request>)
    requires forall i :: 0 <= i < |reqs| ==> t1(reqs[i]) == t2(reqs[i])
    ensures FetchAll(t1, reqs) == FetchAll(t2, reqs)
  {
    if |reqs| > 0 {
      FetchAllDependsOnlyOnRequests(t1, t2, reqs[1..]);
    }
  }

  lemma FetchVerseTextDependsOnlyOnIssued(books: seq<BookInfo>, lower: string -> string,
                                          t1: Request -> Response, t2: Request -> Response, version: BibleVersion,
                                          bookName: string, chapter: int, verseStart: int, verseEnd: int,
                                          token: string)
    requires var issued := IssuedRequests(books, lower, version, bookName, chapter, verseStart, verseEnd, token);
      forall i :: 0 <= i < |issued| ==> t1(issued[i]) == t2(issued[i])
    ensures FetchVerseText(books, lower, t1, version, bookName, chapter, verseStart, verseEnd, token)
         == FetchVerseText(books, lower, t2, version, bookName, chapter, verseStart, verseEnd, token)
  {
    var issued := IssuedRequests(books, lower, version, bookName, chapter, verseStart, verseEnd, token);
    if BookApiAbbr(books, bookName, lower).Success? && verseStart != verseEnd {
      FetchAllDependsOnlyOnRequests(t1, t2, issued);
    } else if BookApiAbbr(books, bookName, lower).Success? {
      assert t1(issued[0]) == t2(issued[0]);
    }
  }
}
