/**
 * The restaurant search service: defensive string coercion, the API-key
 * precondition, turning the grounding chunks of a search response into a
 * title-unique list of places, and the mapping of request errors.
 * The request itself is not modelled: its response (or the error it threw)
 * is an input.
 */
module GeminiService {
  import opened Types

  /** A JavaScript value as `safeString` may receive it. */
  datatype JsValue =
    | JsUndefined
    | JsNull
    | JsString(s: string)
    | JsBool(b: bool)
      /** A number, bigint or symbol, with the text `String(val)` renders it as. */
    | JsPrimitive(rendered: string)
      /** An object: its `message` and `title` ("" when falsy or absent) and
          its `JSON.stringify` text (None when stringifying throws). */
    | JsObject(message: string, title: string, json: Option<string>)

  /** A thrown value: an `Error` (its message and its `String(error)` text) or a string. */
  datatype Thrown = ErrorObject(message: string, rendered: string) | ThrownString(s: string)

  /** The search response as far as the service reads it. */
  datatype GenerateResponse = GenerateResponse(text: JsValue, chunks: Option<seq<GroundingChunk>>)

  /** What a successful search returns. */
  datatype SearchResult = SearchResult(text: string, places: seq<Place>)

  const MissingKeyMessage: string :=
    "API Key is missing. Please check your GitHub repository secrets and ensure 'API_KEY' is set."
  const InvalidKeyMessage: string :=
    "Invalid or Restricted API Key. Ensure the key has Gemini API and Google Maps grounding access."
  const DefaultSnippet: string := "Vibe check: Certified bussing. 100% no cap."
  const Nearby: string := "Nearby"

  /** `new Error(message)`. */
  function NewError(message: string): Thrown
  {
    ErrorObject(message, "Error: " + message)
  }

  /**
   * Coerces any value to a string that is safe to render: the fallback for
   * null and undefined, a string as it is, other primitives as `String(val)`
   * renders them, an object as its message, else its title, else its JSON.
   */
  function SafeString(val: JsValue, fallback: string): (r: string)
    ensures (val.JsNull? || val.JsUndefined?) ==> r == fallback
    ensures val.JsString? ==> r == val.s
    ensures val.JsBool? ==> r == (if val.b then "true" else "false")
    ensures val.JsPrimitive? ==> r == val.rendered
    ensures val.JsObject? && val.message != "" ==> r == val.message
    ensures val.JsObject? && val.message == "" && val.title != "" ==> r == val.title
    ensures val.JsObject? && r == fallback ==> val.message == "" || val.message == fallback
  {
    match val
    case JsUndefined => fallback
    case JsNull => fallback
    case JsString(s) => s
    case JsBool(b) => if b then "true" else "false"
    case JsPrimitive(rendered) => rendered
    case JsObject(message, title, json) =>
      if message != "" then message
      else if title != "" then title
      else if json.Some? then json.value
      else fallback
  }

  /** The key is usable: present, not empty, and not the literal text "undefined". */
  predicate ApiKeyIsSet(apiKey: Option<string>)
  {
    apiKey.Some? && apiKey.value != "" && apiKey.value != "undefined"
  }

  /** `sub` occurs in `s` starting at index `i`. */
  predicate OccursAt(s: string, sub: string, i: int)
  {
    0 <= i && i + |sub| <= |s| && s[i..i + |sub|] == sub
  }

  /** `s.includes(sub)`. */
  predicate Contains(s: string, sub: string)
  {
    exists i | 0 <= i <= |s| :: OccursAt(s, sub, i)
  }

  /** `error?.message || String(error)`. */
  function ErrorText(e: Thrown): (r: string)
    ensures e.ErrorObject? && e.message != "" ==> r == e.message
    ensures e.ErrorObject? && e.message == "" ==> r == e.rendered
    ensures e.ThrownString? ==> r == e.s
  {
    match e
    case ErrorObject(message, rendered) => if message != "" then message else rendered
    case ThrownString(s) => s
  }

  /** A rejected key is reported as the invalid-key error; every other error is rethrown as it is. */
  predicate RejectsKey(e: Thrown)
  {
    Contains(ErrorText(e), "403") || Contains(ErrorText(e), "API_KEY_INVALID")
  }

  function MapError(e: Thrown): (r: Thrown)
    ensures RejectsKey(e) ==> r == NewError(InvalidKeyMessage)
    ensures !RejectsKey(e) ==> r == e
  {
    if RejectsKey(e) then NewError(InvalidKeyMessage) else e
  }

  /** Any error whose text mentions status 403 becomes the invalid-key error. */
  lemma Status403IsInvalidKey(e: Thrown, before: string, after: string)
    requires ErrorText(e) == before + "403" + after
    ensures MapError(e) == NewError(InvalidKeyMessage)
  {
    var s := ErrorText(e);
    assert s[|before|..|before| + 3] == "403";
    assert OccursAt(s, "403", |before|);
  }

  /** A chunk contributes a place when it has a maps entity with a truthy (non-empty) title. */
  predicate Contributes(c: GroundingChunk)
  {
    c.maps.Some? && c.maps.value.title != ""
  }

  /** The titles of the contributing chunks. */
  function ChunkTitles(chunks: seq<GroundingChunk>): set<string>
  {
    set c | c in chunks && Contributes(c) :: c.maps.value.title
  }

  /** `c` contributes and no chunk before it contributed its title. */
  predicate IsFirstOccurrence(earlier: seq<GroundingChunk>, c: GroundingChunk)
  {
    Contributes(c) && c.maps.value.title !in ChunkTitles(earlier)
  }

  /** `placeAnswerSources?.[0]?.reviewSnippets?.[0]` is defined. */
  predicate HasFirstSnippet(m: MapsSource)
  {
    && m.placeAnswerSources.Some? && |m.placeAnswerSources.value| > 0
    && m.placeAnswerSources.value[0].reviewSnippets.Some?
    && |m.placeAnswerSources.value[0].reviewSnippets.value| > 0
  }

  /** The first review snippet of the first answer source. */
  function FirstSnippet(m: MapsSource): string
    requires HasFirstSnippet(m)
  {
    m.placeAnswerSources.value[0].reviewSnippets.value[0]
  }

  /** The first review snippet of the first answer source if it is truthy, else the default. */
  function Snippet(m: MapsSource): (r: string)
    ensures r != ""
    ensures HasFirstSnippet(m) && FirstSnippet(m) != "" ==> r == FirstSnippet(m)
    ensures r != DefaultSnippet ==> HasFirstSnippet(m) && r == FirstSnippet(m)
  {
    match m.placeAnswerSources
    case None => DefaultSnippet
    case Some(sources) =>
      if |sources| == 0 then DefaultSnippet
      else match sources[0].reviewSnippets
        case None => DefaultSnippet
        case Some(snippets) =>
          if |snippets| == 0 || snippets[0] == "" then DefaultSnippet else snippets[0]
  }

  /** The place a contributing maps entity becomes: its title and uri, "Nearby", and a non-empty description. */
  function PlaceOf(m: MapsSource): (p: Place)
    ensures p.title == m.title && p.uri == Some(m.uri) && p.distance == Some(Nearby)
    ensures p.description.Some? && p.description.value != ""
  {
    Place(m.title, Some(m.uri), None, None, Some(Nearby), Some(Snippet(m)))
  }

  /**
   * Reference definition of the extracted places: the place of every chunk
   * that is the first to contribute its title, in chunk order.
   */
  function Dedup(chunks: seq<GroundingChunk>): (places: seq<Place>)
    ensures forall p :: p in places ==> p.title != "" && p.distance == Some(Nearby)
  {
    if chunks == [] then []
    else
      var earlier := chunks[..|chunks| - 1];
      var last := chunks[|chunks| - 1];
      Dedup(earlier) + (if IsFirstOccurrence(earlier, last) then [PlaceOf(last.maps.value)] else [])
  }

  /** The chunks a response carries, or none. */
  function ChunksOf(response: GenerateResponse): seq<GroundingChunk>
  {
    match response.chunks
    case None => []
    case Some(chunks) => chunks
  }

  /** The titles of the extracted places are exactly the titles of the contributing chunks. */
  lemma {:induction false} DedupTitles(chunks: seq<GroundingChunk>)
    ensures Titles(Dedup(chunks)) == ChunkTitles(chunks)
  {
    if chunks != [] {
      var earlier := chunks[..|chunks| - 1];
      var last := chunks[|chunks| - 1];
      DedupTitles(earlier);
      assert chunks == earlier + [last];
      assert ChunkTitles(chunks) == ChunkTitles(earlier) + ChunkTitles([last]);
    }
  }

  /** The extracted places have pairwise distinct titles. */
  lemma {:induction false} DedupDistinct(chunks: seq<GroundingChunk>)
    ensures DistinctTitles(Dedup(chunks))
  {
    if chunks != [] {
      var earlier := chunks[..|chunks| - 1];
      DedupDistinct(earlier);
      DedupTitles(earlier);
    }
  }

  /** There are never more places than chunks. */
  lemma {:induction false} DedupLength(chunks: seq<GroundingChunk>)
    ensures |Dedup(chunks)| <= |chunks|
  {
    if chunks != [] {
      DedupLength(chunks[..|chunks| - 1]);
    }
  }

  /** Every extracted place is the place of some contributing chunk, so it is "Nearby". */
  lemma {:induction false} DedupEntries(chunks: seq<GroundingChunk>)
    ensures forall p :: p in Dedup(chunks) ==>
      p.distance == Some(Nearby) && exists c :: c in chunks && Contributes(c) && p == PlaceOf(c.maps.value)
  {
    if chunks != [] {
      var earlier := chunks[..|chunks| - 1];
      DedupEntries(earlier);
      assert forall c :: c in earlier ==> c in chunks;
    }
  }

  /** Extraction only appends: the places of a prefix of the chunks come first. */
  lemma {:induction false} DedupPrefix(chunks: seq<GroundingChunk>, n: nat)
    requires n <= |chunks|
    ensures Dedup(chunks[..n]) <= Dedup(chunks)
    decreases |chunks| - n
  {
    if n < |chunks| {
      DedupPrefix(chunks, n + 1);
      assert chunks[..n + 1][..n] == chunks[..n];
    } else {
      assert chunks[..n] == chunks;
    }
  }

  /** The first chunk with a given title is the one whose uri and description are kept. */
  lemma DedupKeepsFirst(chunks: seq<GroundingChunk>, j: nat)
    requires j < |chunks| && IsFirstOccurrence(chunks[..j], chunks[j])
    ensures PlaceOf(chunks[j].maps.value) in Dedup(chunks)
  {
    var upTo := chunks[..j + 1];
    assert upTo[..j] == chunks[..j] && upTo[j] == chunks[j];
    assert Dedup(upTo) == Dedup(chunks[..j]) + [PlaceOf(chunks[j].maps.value)];
    DedupPrefix(chunks, j + 1);
    assert Dedup(upTo)[|Dedup(upTo)| - 1] in Dedup(chunks);
  }

  /** A chunk without a maps entity with a title, a web-only chunk for one, adds nothing. */
  lemma IgnoresNonContributing(chunks: seq<GroundingChunk>, c: GroundingChunk)
    requires !Contributes(c)
    ensures Dedup(chunks + [c]) == Dedup(chunks)
  {
    assert (chunks + [c])[..|chunks|] == chunks;
  }

  /** The loop that turns grounding chunks into places, skipping titles already taken. */
  method ExtractPlaces(chunks: seq<GroundingChunk>) returns (places: seq<Place>)
    ensures places == Dedup(chunks)
  {
    places := [];
    var i := 0;
    while i < |chunks|
      invariant i <= |chunks|
      invariant places == Dedup(chunks[..i])
    {
      var chunk := chunks[i];
      assert chunks[..i + 1][..i] == chunks[..i];
      if chunk.maps.Some? && chunk.maps.value.title != "" {
        var title := SafeString(JsString(chunk.maps.value.title), "");
        var snippet := Snippet(chunk.maps.value);
        DedupTitles(chunks[..i]);
        if title !in Titles(places) {
          places := places + [Place(title, Some(chunk.maps.value.uri), None, None,
                                    Some(Nearby), Some(SafeString(JsString(snippet), "")))];
        }
      }
      i := i + 1;
    }
    assert chunks[..i] == chunks;
  }

  /**
   * `findRestaurants` once the request has been answered: the key check
   * comes first and does not look at the response; a thrown error is mapped;
   * otherwise the response text is coerced and the places extracted.
   */
  method FindRestaurants(apiKey: Option<string>, response: Result<GenerateResponse, Thrown>)
    returns (r: Result<SearchResult, Thrown>)
    ensures !ApiKeyIsSet(apiKey) ==> r == Err(NewError(MissingKeyMessage))
    ensures ApiKeyIsSet(apiKey) && response.Err? ==> r == Err(MapError(response.error))
    ensures ApiKeyIsSet(apiKey) && response.Ok? ==>
      r == Ok(SearchResult(SafeString(response.value.text, ""), Dedup(ChunksOf(response.value))))
    ensures r.Ok? ==> DistinctTitles(r.value.places) && |r.value.places| <= |ChunksOf(response.value)|
  {
    if apiKey.None? || apiKey.value == "" || apiKey.value == "undefined" {
      return Err(NewError(MissingKeyMessage));
    }
    match response
    case Err(error) =>
      r := Err(MapError(error));
    case Ok(resp) =>
      var text := SafeString(resp.text, "");
      var places := ExtractPlaces(ChunksOf(resp));
      DedupDistinct(ChunksOf(resp));
      DedupLength(ChunksOf(resp));
      r := Ok(SearchResult(text, places));
  }
}
