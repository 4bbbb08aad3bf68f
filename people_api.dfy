/**
 * The people endpoint: the per-environment host table, the page URL, and `read`,
 * which fetches one page and throws an `ApiError` for a response that is not ok.
 * The network call itself is a parameter: `fetch` maps a URL to the response, or
 * to the message of the error it rejects with.
 */
module PeopleApi {
  import opened Wrappers
  import opened Text
  import opened SwapiModel
  import opened RestError

  /** The one host every environment is configured with. */
  const CommonHost: string := "https://swapi.dev"

  /** `SWAPI_HOST[env]`. */
  function SwapiHost(env: Env): (host: string)
    ensures host == CommonHost
  {
    match env
    case Dev => CommonHost
    case QA => CommonHost
    case Stage => CommonHost
    case Prod => CommonHost
  }

  const PeoplePath: string := "/api/people/?page="

  /** `ReadOptions`: the page to read, if given. */
  datatype ReadOptions = ReadOptions(page: Option<int>)

  /** `const { page = 1 } = options ?? {}`. */
  function RequestedPage(options: Option<ReadOptions>): (page: int)
    ensures options.None? || options.value.page.None? ==> page == 1
    ensures options.Some? && options.value.page.Some? ==> page == options.value.page.value
  {
    match options
    case None => 1
    case Some(o) => o.page.GetOr(1)
  }

  /** The URL of one page of people. */
  function PeopleUrl(env: Env, page: int): string {
    SwapiHost(env) + PeoplePath + IntToString(page)
  }

  /** The URL is the same in every environment, and different pages have different URLs. */
  lemma PeopleUrlShape(env: Env, env': Env, page: int, page': int)
    ensures PeopleUrl(env, page) == PeopleUrl(env', page)
    ensures PeopleUrl(env, page) == PeopleUrl(env', page') ==> page == page'
  {
    var prefix := CommonHost + PeoplePath;
    if PeopleUrl(env, page) == PeopleUrl(env', page') {
      assert PeopleUrl(env, page) == prefix + IntToString(page);
      assert PeopleUrl(env', page') == prefix + IntToString(page');
      assert PeopleUrl(env, page)[|prefix|..] == IntToString(page);
      assert PeopleUrl(env', page')[|prefix|..] == IntToString(page');
      IntToStringInjective(page, page');
    }
  }

  /** The network: the response for a URL, or the message of the error `fetch` rejects with. */
  type Fetch = string -> Result<Response, string>

  /** The message of the error thrown when an ok response's body is not a page of people. */
  const MalformedBodyMessage: string := "response body is not a page of people"

  /** `read(env, options)`. */
  function Read(env: Env, options: Option<ReadOptions>, fetch: Fetch): (r: Result<PeoplePage, Failure>)
    ensures var response := fetch(PeopleUrl(env, RequestedPage(options)));
      && (response.Err? ==> r == Err(OtherFailure(response.error)))
      && (response.Ok? && !response.value.ok ==> r == Err(ApiFailure(NewApiError(response.value))))
      && (response.Ok? && response.value.ok && response.value.json.Some? ==> r == Ok(response.value.json.value))
      && (response.Ok? && response.value.ok && response.value.json.None? ==> r == Err(OtherFailure(MalformedBodyMessage)))
  {
    var url := PeopleUrl(env, RequestedPage(options));
    match fetch(url)
    case Err(message) => Err(OtherFailure(message))
    case Ok(response) =>
      if !response.ok then Err(ApiFailure(NewApiError(response)))
      else match response.json
        case Some(page) => Ok(page)
        case None => Err(OtherFailure(MalformedBodyMessage))
  }

  /** `people(env)`: an endpoint whose `read(options)` is `read(env, options)`. */
  function People(env: Env): (read: (Option<ReadOptions>, Fetch) -> Result<PeoplePage, Failure>)
    ensures forall options, fetch :: read(options, fetch) == Read(env, options, fetch)
  {
    (options: Option<ReadOptions>, fetch: Fetch) => Read(env, options, fetch)
  }

  /** A 404 from the network reaches the caller as an end-of-stream `ApiError`. */
  lemma ReadNotFound(env: Env, options: Option<ReadOptions>, fetch: Fetch)
    requires fetch(PeopleUrl(env, RequestedPage(options))).Ok?
    requires fetch(PeopleUrl(env, RequestedPage(options))).value.status == 404
    requires !fetch(PeopleUrl(env, RequestedPage(options))).value.ok
    ensures Read(env, options, fetch).Err? && IsEndOfStream(Read(env, options, fetch).error)
  {
  }
}
