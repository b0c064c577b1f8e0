/** Records shared by the lunch picker's components and its search service. */
module Types {

  /** A value that may be absent (an optional property, `null` or `undefined`). */
  datatype Option<+T> = None | Some(value: T)

  /** The outcome of an operation that may throw. */
  datatype Result<+R, +E> = Ok(value: R) | Err(error: E)

  /** The user's position as the browser reports it. */
  datatype Coordinates = Coordinates(latitude: real, longitude: real)

  /** A restaurant. `title` is the key every component compares places on. */
  datatype Place = Place(
    title: string,
    uri: Option<string>,
    address: Option<string>,
    rating: Option<real>,
    distance: Option<string>,
    description: Option<string>)

  /** A web source attached to a grounding chunk. */
  datatype WebSource = WebSource(uri: string, title: string)

  /** One answer source of a maps entity, with its optional review snippets. */
  datatype AnswerSource = AnswerSource(reviewSnippets: Option<seq<string>>)

  /** A maps entity attached to a grounding chunk. */
  datatype MapsSource = MapsSource(
    uri: string,
    title: string,
    placeId: Option<string>,
    placeAnswerSources: Option<seq<AnswerSource>>)

  /** One grounding chunk of a search response: a web source, a maps entity, or both. */
  datatype GroundingChunk = GroundingChunk(web: Option<WebSource>, maps: Option<MapsSource>)

  /** `Math.random()` yields values in [0, 1). */
  predicate IsUniform(x: real)
  {
    0.0 <= x < 1.0
  }

  /** The set of titles of a list of places. */
  function Titles(places: seq<Place>): set<string>
  {
    set p | p in places :: p.title
  }

  /** No two entries of `places` share a title. */
  predicate DistinctTitles(places: seq<Place>)
  {
    forall i, j :: 0 <= i < j < |places| ==> places[i].title != places[j].title
  }
}
