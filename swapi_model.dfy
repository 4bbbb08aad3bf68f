/**
 * The shapes exchanged with the people endpoint: the raw person record, the
 * paginated response, the fetch `Response`, and the deployment environments.
 */
module SwapiModel {
  import opened Wrappers

  /** The deployment environment a REST call is made against. */
  datatype Env = Dev | QA | Stage | Prod

  /**
   * One raw person record as the API sends it. The fields the transform renames or
   * converts are spelled as on the wire; every other field (gender, homeworld,
   * films, urls, ...) is kept by key in `passthrough`, next to `name`.
   */
  datatype PersonResponse = PersonResponse(
    name: string,
    height: string,
    mass: string,
    hair_color: string,
    skin_color: string,
    eye_color: string,
    birth_year: string,
    passthrough: map<string, string>)

  /** One page of people; a `None` `next` marks the last page. */
  datatype PeoplePage = PeoplePage(
    count: int,
    next: Option<string>,
    previous: Option<string>,
    results: seq<PersonResponse>)

  /**
   * The part of a fetch `Response` the core reads. `json` is what `response.json()`
   * yields: the page, or `None` when the body is not a page of people.
   */
  datatype Response = Response(
    ok: bool,
    url: string,
    status: int,
    statusText: string,
    json: Option<PeoplePage>)
}
