/**
 * The mock people endpoint used in place of the network: a fixed table of nine
 * pages, and a 404 "NOT FOUND" response for every other page. The pages' contents
 * are fixtures, so they are a parameter here: any nine pages.
 */
module Mocks {
  import opened Wrappers
  import opened Text
  import opened SwapiModel
  import opened RestError
  import opened PeopleApi

  const BlankPage: PeoplePage := PeoplePage(0, None, None, [])

  /** The nine fixture pages, page 1 first. */
  type Fixtures = s: seq<PeoplePage> | |s| == 9
    witness [BlankPage, BlankPage, BlankPage, BlankPage, BlankPage, BlankPage, BlankPage, BlankPage, BlankPage]

  predicate HasFixture(page: int) { 1 <= page <= 9 }

  /** `responses`: page number to fixture, for exactly the pages 1 to 9. */
  function Responses(fixtures: Fixtures): (table: map<int, PeoplePage>)
    ensures forall page :: page in table <==> HasFixture(page)
    ensures forall page :: HasFixture(page) ==> table[page] == fixtures[page - 1]
  {
    map[1 := fixtures[0], 2 := fixtures[1], 3 := fixtures[2], 4 := fixtures[3], 5 := fixtures[4],
        6 := fixtures[5], 7 := fixtures[6], 8 := fixtures[7], 9 := fixtures[8]]
  }

  /** `buildMockResponseFor(page)`. */
  function BuildMockResponseFor(fixtures: Fixtures, page: int): (response: Response)
    ensures response.ok <==> HasFixture(page)
    ensures response.status == (if response.ok then 200 else 404)
    ensures response.statusText == (if response.ok then "OK" else "NOT FOUND")
    ensures response.ok ==> response.json == Some(fixtures[page - 1])
    ensures response.url == PeopleUrl(Dev, page)
  {
    var table := Responses(fixtures);
    var ok := page in table;
    Response(
      ok := ok,
      url := SwapiHost(Dev) + "/api/people/?page=" + IntToString(page),
      status := if ok then 200 else 404,
      statusText := if ok then "OK" else "NOT FOUND",
      json := if ok then Some(table[page]) else None)
  }

  /** `mockApiCall(options)`: the fixture for the page, or a thrown 404 `ApiError`. */
  function MockApiCall(fixtures: Fixtures, options: Option<ReadOptions>): (r: Result<PeoplePage, Failure>)
    ensures HasFixture(RequestedPage(options)) ==> r == Ok(fixtures[RequestedPage(options) - 1])
    ensures !HasFixture(RequestedPage(options)) ==>
      r.Err? && r.error.ApiFailure? && r.error.error.status == 404 && IsEndOfStream(r.error)
  {
    var response := BuildMockResponseFor(fixtures, RequestedPage(options));
    if !response.ok then Err(ApiFailure(NewApiError(response)))
    else Ok(response.json.value)
  }
}
