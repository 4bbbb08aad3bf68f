/**
 * `readAllPagesFromPeopleApi`: reads page 1, 2, 3, ... of the people endpoint, one
 * request at a time, hands each page's transformed people to `onNewDataCallback`,
 * stops after a page whose `next` is null, after a 404 `ApiError`, or once the page
 * number passes `pageLimit`, and hands every other error to `onErrorCallback`.
 *
 * A page number advances only after a successful fetch, so after any other error
 * the SAME page is requested again. A page source that keeps failing therefore
 * keeps the loop running for ever; the model bounds the number of fetch attempts
 * by `fuel` and reports `OutOfFuel` when that bound, and not the loop, ends the run.
 *
 * What the loop does is recorded in a `Trace`: every fetch attempt (the page asked
 * for and what came back), every call of each callback, and why the loop ended.
 */
module Loader {
  import opened Wrappers
  import opened Sequences
  import opened SwapiModel
  import opened RestError
  import opened PeopleApi
  import opened Person
  import opened Mocks

  /**
   * The loader's options. The callbacks are recorded, not run, so only their
   * presence matters; `pageLimit` `None` is the default, positive infinity.
   */
  datatype LoaderOptions = LoaderOptions(
    useMockApi: bool,
    hasOnNewData: bool,
    hasOnError: bool,
    pageLimit: Option<int>)

  /** What the `n`-th fetch attempt (counting from 0) of `page` returns or throws. */
  type PageSource = (nat, int) -> Result<PeoplePage, Failure>

  /** The network: the response the `n`-th fetch attempt gets for a URL, or the error message. */
  type Network = (nat, string) -> Result<Response, string>

  /** `mockApiCall({ page })`, whatever the attempt. */
  function MockSource(fixtures: Fixtures): (src: PageSource)
    ensures forall n, page :: src(n, page) == MockApiCall(fixtures, Some(ReadOptions(Some(page))))
  {
    (n: nat, page: int) => MockApiCall(fixtures, Some(ReadOptions(Some(page))))
  }

  /** `useMockApi ? mockApiCall({ page }) : getSwApi(env).api.people.read({ page })`. */
  function SelectedSource(env: Env, useMockApi: bool, fixtures: Fixtures, network: Network): (src: PageSource)
    ensures useMockApi ==> src == MockSource(fixtures)
    ensures !useMockApi ==> forall n, page ::
      src(n, page) == Read(env, Some(ReadOptions(Some(page))), (url: string) => network(n, url))
  {
    if useMockApi then MockSource(fixtures)
    else (n: nat, page: int) => Read(env, Some(ReadOptions(Some(page))), (url: string) => network(n, url))
  }

  /** `page <= pageLimit`. */
  predicate WithinLimit(page: int, pageLimit: Option<int>) {
    pageLimit.None? || page <= pageLimit.value
  }

  /** One fetch attempt: the page asked for and what the source returned or threw. */
  datatype Attempt = Attempt(page: int, outcome: Result<PeoplePage, Failure>)

  /** Why the loop ended. */
  datatype Stop =
    | Done          // a page's `next` was null
    | EndOfStream   // a 404 `ApiError` was thrown
    | LimitReached  // the page number passed `pageLimit`
    | OutOfFuel     // the model's bound on fetch attempts was used up

  /** The attempts made, the arguments of each callback call in order, and the stop. */
  datatype Trace = Trace(
    attempts: seq<Attempt>,
    newData: seq<seq<StarWarsPerson>>,
    errors: seq<Failure>,
    stop: Stop)

  function Prepend(attempts: seq<Attempt>, newData: seq<seq<StarWarsPerson>>, errors: seq<Failure>, t: Trace): Trace {
    Trace(attempts + t.attempts, newData + t.newData, errors + t.errors, t.stop)
  }

  /** The attempt threw a 404 `ApiError`, which ends the stream. */
  predicate EndsStream(a: Attempt) {
    a.outcome.Err? && IsEndOfStream(a.outcome.error)
  }

  /** The page the loop asks for after `a`: the next one after a success, the same one otherwise. */
  function PageAfter(a: Attempt): int {
    if a.outcome.Ok? then a.page + 1 else a.page
  }

  /** `isNext` after `a`: whether a fetched page has a `next`; unchanged (true) after an error. */
  function IsNextAfter(a: Attempt): bool {
    if a.outcome.Ok? then a.outcome.value.next.Some? else true
  }

  /** The `onNewDataCallback` calls attempt `a` makes: one, with its people, if it succeeded. */
  function Deliveries(options: LoaderOptions, a: Attempt): seq<seq<StarWarsPerson>> {
    if options.hasOnNewData && a.outcome.Ok? then [TransformAll(a.outcome.value.results)] else []
  }

  /** The `onErrorCallback` calls attempt `a` makes: one, with its error, if it failed other than by a 404. */
  function Reports(options: LoaderOptions, a: Attempt): seq<Failure> {
    if options.hasOnError && a.outcome.Err? && !IsEndOfStream(a.outcome.error) then [a.outcome.error] else []
  }

  /**
   * The run of the loop from state (`page`, `isNext`), when `attempt` fetches have
   * been made and at most `fuel` more may be made.
   */
  function Run(src: PageSource, options: LoaderOptions, page: int, isNext: bool, attempt: nat, fuel: nat): Trace
    decreases fuel
  {
    if !(isNext && WithinLimit(page, options.pageLimit)) then
      Trace([], [], [], if isNext then LimitReached else Done)
    else if fuel == 0 then
      Trace([], [], [], OutOfFuel)
    else
      var a := Attempt(page, src(attempt, page));
      if EndsStream(a) then Trace([a], [], [], EndOfStream)
      else Prepend([a], Deliveries(options, a), Reports(options, a),
                   Run(src, options, PageAfter(a), IsNextAfter(a), attempt + 1, fuel - 1))
  }

  /** One turn of the loop, while it runs and fuel is left. */
  lemma RunStep(src: PageSource, options: LoaderOptions, page: int, attempt: nat, fuel: nat)
    requires WithinLimit(page, options.pageLimit) && fuel > 0
    ensures var a := Attempt(page, src(attempt, page));
      Run(src, options, page, true, attempt, fuel) ==
        if EndsStream(a) then Trace([a], [], [], EndOfStream)
        else Prepend([a], Deliveries(options, a), Reports(options, a),
                     Run(src, options, PageAfter(a), IsNextAfter(a), attempt + 1, fuel - 1))
  {
  }

  /** The whole run: from page 1, with no attempt made yet. */
  function LoadAll(src: PageSource, options: LoaderOptions, fuel: nat): Trace {
    Run(src, options, 1, true, 0, fuel)
  }

  // ---------------------------------------------------------------------------
  // Views of the attempts

  /** The attempt lets the loop go on: a page with a `next`, or an error other than a 404. */
  predicate Continues(a: Attempt) {
    match a.outcome
    case Ok(response) => response.next.Some?
    case Err(e) => !IsEndOfStream(e)
  }

  /** The `n` consecutive integers from `start`. */
  function Consecutive(start: int, n: nat): (r: seq<int>)
    ensures |r| == n && forall i :: 0 <= i < n ==> r[i] == start + i
    decreases n
  {
    if n == 0 then [] else [start] + Consecutive(start + 1, n - 1)
  }

  /** The page numbers asked for, in order. */
  function Pages(attempts: seq<Attempt>): seq<int> {
    if attempts == [] then [] else [attempts[0].page] + Pages(attempts[1..])
  }

  /** The page numbers of the successful attempts, in order. */
  function SuccessPages(attempts: seq<Attempt>): seq<int> {
    if attempts == [] then []
    else (if attempts[0].outcome.Ok? then [attempts[0].page] else []) + SuccessPages(attempts[1..])
  }

  /** Each successful attempt's people, transformed, in order. */
  function Delivered(attempts: seq<Attempt>): seq<seq<StarWarsPerson>> {
    if attempts == [] then []
    else
      (if attempts[0].outcome.Ok? then [TransformAll(attempts[0].outcome.value.results)] else [])
      + Delivered(attempts[1..])
  }

  /** The errors of the failed attempts that are not the end of the stream, in order. */
  function Reported(attempts: seq<Attempt>): seq<Failure> {
    if attempts == [] then []
    else
      (if attempts[0].outcome.Err? && !EndsStream(attempts[0]) then [attempts[0].outcome.error] else [])
      + Reported(attempts[1..])
  }

  /** The views of attempts `[a] + rest`: what `a` contributes, then the views of `rest`. */
  lemma ViewsCons(a: Attempt, rest: seq<Attempt>)
    ensures Pages([a] + rest) == [a.page] + Pages(rest)
    ensures SuccessPages([a] + rest) == (if a.outcome.Ok? then [a.page] else []) + SuccessPages(rest)
    ensures Delivered([a] + rest) == (if a.outcome.Ok? then [TransformAll(a.outcome.value.results)] else []) + Delivered(rest)
    ensures Reported([a] + rest) == (if a.outcome.Err? && !EndsStream(a) then [a.outcome.error] else []) + Reported(rest)
  {
    assert ([a] + rest)[0] == a && ([a] + rest)[1..] == rest;
  }

  // ---------------------------------------------------------------------------
  // Properties of a run

  /**
   * The pages asked for: the first is the starting page, each next one is the page
   * after the previous attempt (one more after a success, the same after an error),
   * all are within the limit, each outcome is the source's answer to that attempt,
   * and there are at most `fuel` attempts.
   */
  lemma {:induction false} RunAttempts(src: PageSource, options: LoaderOptions, page: int, isNext: bool, attempt: nat, fuel: nat)
    ensures var t := Run(src, options, page, isNext, attempt, fuel);
      && |t.attempts| <= fuel
      && (|t.attempts| > 0 ==> t.attempts[0].page == page)
      && (forall i :: 0 <= i < |t.attempts| ==>
            page <= t.attempts[i].page && WithinLimit(t.attempts[i].page, options.pageLimit)
            && t.attempts[i].outcome == src(attempt + i, t.attempts[i].page))
      && (forall i :: 0 <= i < |t.attempts| - 1 ==> t.attempts[i + 1].page == PageAfter(t.attempts[i]))
    decreases fuel
  {
    var t := Run(src, options, page, isNext, attempt, fuel);
    if isNext && WithinLimit(page, options.pageLimit) && fuel > 0 {
      var a := Attempt(page, src(attempt, page));
      RunStep(src, options, page, attempt, fuel);
      if !EndsStream(a) {
        var rest := Run(src, options, PageAfter(a), IsNextAfter(a), attempt + 1, fuel - 1);
        RunAttempts(src, options, PageAfter(a), IsNextAfter(a), attempt + 1, fuel - 1);
        assert t.attempts == [a] + rest.attempts;
        forall i | 1 <= i < |t.attempts|
          ensures page <= t.attempts[i].page && WithinLimit(t.attempts[i].page, options.pageLimit)
          ensures t.attempts[i].outcome == src(attempt + i, t.attempts[i].page)
          ensures t.attempts[i].page == PageAfter(t.attempts[i - 1])
        {
          assert t.attempts[i] == rest.attempts[i - 1];
          if i > 1 { assert t.attempts[i - 1] == rest.attempts[i - 2]; }
        }
      }
    }
  }

  /**
   * Each successful attempt calls `onNewDataCallback` once, with exactly that page's
   * people transformed, in order; each failed attempt other than a 404 calls
   * `onErrorCallback` once; a missing callback is simply never called.
   */
  lemma {:induction false} RunCallbacks(src: PageSource, options: LoaderOptions, page: int, isNext: bool, attempt: nat, fuel: nat)
    ensures var t := Run(src, options, page, isNext, attempt, fuel);
      && t.newData == (if options.hasOnNewData then Delivered(t.attempts) else [])
      && t.errors == (if options.hasOnError then Reported(t.attempts) else [])
    decreases fuel
  {
    var t := Run(src, options, page, isNext, attempt, fuel);
    if isNext && WithinLimit(page, options.pageLimit) && fuel > 0 {
      var a := Attempt(page, src(attempt, page));
      RunStep(src, options, page, attempt, fuel);
      if EndsStream(a) {
        ViewsCons(a, []);
        assert [a] + [] == [a];
      } else {
        var rest := Run(src, options, PageAfter(a), IsNextAfter(a), attempt + 1, fuel - 1);
        RunCallbacks(src, options, PageAfter(a), IsNextAfter(a), attempt + 1, fuel - 1);
        ViewsCons(a, rest.attempts);
      }
    }
  }

  /** The successful attempts are of consecutive pages, starting at the starting page. */
  lemma {:induction false} RunSuccessPages(src: PageSource, options: LoaderOptions, page: int, isNext: bool, attempt: nat, fuel: nat)
    ensures var pages := SuccessPages(Run(src, options, page, isNext, attempt, fuel).attempts);
      pages == Consecutive(page, |pages|)
    decreases fuel
  {
    var t := Run(src, options, page, isNext, attempt, fuel);
    if isNext && WithinLimit(page, options.pageLimit) && fuel > 0 {
      var a := Attempt(page, src(attempt, page));
      RunStep(src, options, page, attempt, fuel);
      if EndsStream(a) {
        ViewsCons(a, []);
        assert [a] + [] == [a];
      } else {
        var rest := Run(src, options, PageAfter(a), IsNextAfter(a), attempt + 1, fuel - 1);
        RunSuccessPages(src, options, PageAfter(a), IsNextAfter(a), attempt + 1, fuel - 1);
        ViewsCons(a, rest.attempts);
      }
    }
  }

  /** Every attempt but the last let the loop go on. */
  lemma {:induction false} RunContinues(src: PageSource, options: LoaderOptions, page: int, isNext: bool, attempt: nat, fuel: nat)
    ensures var t := Run(src, options, page, isNext, attempt, fuel);
      forall i :: 0 <= i < |t.attempts| - 1 ==> Continues(t.attempts[i])
    decreases fuel
  {
    var t := Run(src, options, page, isNext, attempt, fuel);
    if isNext && WithinLimit(page, options.pageLimit) && fuel > 0 {
      var a := Attempt(page, src(attempt, page));
      RunStep(src, options, page, attempt, fuel);
      if !EndsStream(a) {
        var rest := Run(src, options, PageAfter(a), IsNextAfter(a), attempt + 1, fuel - 1);
        RunContinues(src, options, PageAfter(a), IsNextAfter(a), attempt + 1, fuel - 1);
        assert t.attempts == [a] + rest.attempts;
        if rest.attempts != [] {
          assert Continues(a);
          forall i | 1 <= i < |t.attempts| - 1 ensures Continues(t.attempts[i]) {
            assert t.attempts[i] == rest.attempts[i - 1];
          }
        }
      }
    }
  }

  /** The stops the run itself decides: a 404 at the last attempt, or a last page without `next`. */
  lemma {:induction false} RunStopByOutcome(src: PageSource, options: LoaderOptions, page: int, isNext: bool, attempt: nat, fuel: nat)
    ensures var t := Run(src, options, page, isNext, attempt, fuel);
      var n := |t.attempts|;
      && (t.stop == EndOfStream <==> n > 0 && EndsStream(t.attempts[n - 1]))
      && (t.stop == Done ==>
            if n == 0 then !isNext
            else t.attempts[n - 1].outcome.Ok? && t.attempts[n - 1].outcome.value.next.None?)
    decreases fuel
  {
    var t := Run(src, options, page, isNext, attempt, fuel);
    if isNext && WithinLimit(page, options.pageLimit) && fuel > 0 {
      var a := Attempt(page, src(attempt, page));
      RunStep(src, options, page, attempt, fuel);
      if !EndsStream(a) {
        var rest := Run(src, options, PageAfter(a), IsNextAfter(a), attempt + 1, fuel - 1);
        RunStopByOutcome(src, options, PageAfter(a), IsNextAfter(a), attempt + 1, fuel - 1);
        assert t.attempts == [a] + rest.attempts;
        if rest.attempts != [] {
          assert t.attempts[|t.attempts| - 1] == rest.attempts[|rest.attempts| - 1];
        }
      }
    }
  }

  /** The stops a bound decides: the page limit, or the model's bound on attempts. */
  lemma {:induction false} RunStopByBound(src: PageSource, options: LoaderOptions, page: int, isNext: bool, attempt: nat, fuel: nat)
    ensures var t := Run(src, options, page, isNext, attempt, fuel);
      var n := |t.attempts|;
      && (t.stop == LimitReached ==>
            !WithinLimit(if n == 0 then page else PageAfter(t.attempts[n - 1]), options.pageLimit)
            && (n == 0 || Continues(t.attempts[n - 1])))
      && (t.stop == OutOfFuel ==> n == fuel && (n == 0 || Continues(t.attempts[n - 1])))
    decreases fuel
  {
    var t := Run(src, options, page, isNext, attempt, fuel);
    if isNext && WithinLimit(page, options.pageLimit) && fuel > 0 {
      var a := Attempt(page, src(attempt, page));
      RunStep(src, options, page, attempt, fuel);
      if !EndsStream(a) {
        var rest := Run(src, options, PageAfter(a), IsNextAfter(a), attempt + 1, fuel - 1);
        RunStopByBound(src, options, PageAfter(a), IsNextAfter(a), attempt + 1, fuel - 1);
        assert t.attempts == [a] + rest.attempts;
        if rest.attempts != [] {
          assert t.attempts[|t.attempts| - 1] == rest.attempts[|rest.attempts| - 1];
        }
      }
    }
  }

  /**
   * Why the loop ended: a 404 ends it at once; a page without `next` ends it as
   * `Done`; `LimitReached` means the page the loop would ask for next is past the
   * limit; `OutOfFuel` means every attempt allowed was made. In the last two cases
   * the last attempt let the loop go on.
   */
  lemma RunStop(src: PageSource, options: LoaderOptions, page: int, isNext: bool, attempt: nat, fuel: nat)
    ensures var t := Run(src, options, page, isNext, attempt, fuel);
      var n := |t.attempts|;
      && (t.stop == EndOfStream <==> n > 0 && EndsStream(t.attempts[n - 1]))
      && (t.stop == Done ==>
            if n == 0 then !isNext
            else t.attempts[n - 1].outcome.Ok? && t.attempts[n - 1].outcome.value.next.None?)
      && (t.stop == LimitReached ==>
            !WithinLimit(if n == 0 then page else PageAfter(t.attempts[n - 1]), options.pageLimit)
            && (n == 0 || Continues(t.attempts[n - 1])))
      && (t.stop == OutOfFuel ==> n == fuel && (n == 0 || Continues(t.attempts[n - 1])))
  {
    RunStopByOutcome(src, options, page, isNext, attempt, fuel);
    RunStopByBound(src, options, page, isNext, attempt, fuel);
  }

  /** The callbacks do not steer the loop: the same pages are fetched and it ends the same way. */
  lemma {:induction false} CallbacksDoNotSteer(src: PageSource, options: LoaderOptions, options': LoaderOptions,
                                               page: int, isNext: bool, attempt: nat, fuel: nat)
    requires options.pageLimit == options'.pageLimit
    ensures Run(src, options, page, isNext, attempt, fuel).attempts == Run(src, options', page, isNext, attempt, fuel).attempts
    ensures Run(src, options, page, isNext, attempt, fuel).stop == Run(src, options', page, isNext, attempt, fuel).stop
    decreases fuel
  {
    if isNext && WithinLimit(page, options.pageLimit) && fuel > 0 {
      var a := Attempt(page, src(attempt, page));
      CallbacksDoNotSteer(src, options, options', PageAfter(a), IsNextAfter(a), attempt + 1, fuel - 1);
    }
  }

  /** Every failure of the source is a 404, so the loop never calls `onErrorCallback`. */
  ghost predicate FailsOnlyAtEnd(src: PageSource) {
    forall n: nat, page: int :: src(n, page).Err? ==> IsEndOfStream(src(n, page).error)
  }

  /** On every attempt the source serves pages 1 to `last` and throws a 404 for page `last` + 1. */
  ghost predicate ServesPages(src: PageSource, last: int) {
    forall n: nat, page: int :: 1 <= page <= last + 1 ==>
      if page <= last then src(n, page).Ok? else EndsStream(Attempt(page, src(n, page)))
  }

  /** The mock serves pages 1 to 9, and all it ever throws is a 404. */
  lemma MockServesNinePages(fixtures: Fixtures)
    ensures ServesPages(MockSource(fixtures), 9)
    ensures FailsOnlyAtEnd(MockSource(fixtures))
  {
    forall page: int ensures RequestedPage(Some(ReadOptions(Some(page)))) == page {
    }
  }

  /** A source whose only failures are 404s never has the loop call `onErrorCallback`. */
  lemma {:induction false} RunNoErrors(src: PageSource, options: LoaderOptions, page: int, isNext: bool, attempt: nat, fuel: nat)
    requires FailsOnlyAtEnd(src)
    ensures Run(src, options, page, isNext, attempt, fuel).errors == []
    decreases fuel
  {
    if isNext && WithinLimit(page, options.pageLimit) && fuel > 0 {
      var a := Attempt(page, src(attempt, page));
      RunStep(src, options, page, attempt, fuel);
      if !EndsStream(a) {
        assert Reports(options, a) == [];
        RunNoErrors(src, options, PageAfter(a), IsNextAfter(a), attempt + 1, fuel - 1);
      }
    }
  }

  /**
   * From a page up to `last` + 1, a source that serves pages 1 to `last` is asked for
   * consecutive pages and none past `last` + 1.
   */
  lemma {:induction false} RunServedPages(src: PageSource, last: int, options: LoaderOptions, page: int, isNext: bool, attempt: nat, fuel: nat)
    requires ServesPages(src, last) && 1 <= page <= last + 1
    ensures var attempts := Run(src, options, page, isNext, attempt, fuel).attempts;
      Pages(attempts) == Consecutive(page, |attempts|) && page + |attempts| <= last + 2
    decreases fuel
  {
    if isNext && WithinLimit(page, options.pageLimit) && fuel > 0 {
      var a := Attempt(page, src(attempt, page));
      RunStep(src, options, page, attempt, fuel);
      if page <= last {
        assert a.outcome.Ok?;
        var rest := Run(src, options, page + 1, IsNextAfter(a), attempt + 1, fuel - 1);
        RunServedPages(src, last, options, page + 1, IsNextAfter(a), attempt + 1, fuel - 1);
        ViewsCons(a, rest.attempts);
      } else {
        assert EndsStream(a);
        ViewsCons(a, []);
        assert [a] + [] == [a];
      }
    }
  }

  /**
   * From a page up to `last` + 1, the loop over a source that serves pages 1 to `last`
   * ends by itself (a null `next`, the limit, or the 404 for page `last` + 1) within
   * the attempts needed to reach page `last` + 1.
   */
  lemma {:induction false} RunServedEnds(src: PageSource, last: int, options: LoaderOptions, page: int, isNext: bool, attempt: nat, fuel: nat)
    requires ServesPages(src, last) && 1 <= page <= last + 1 && fuel >= last + 2 - page
    ensures Run(src, options, page, isNext, attempt, fuel).stop != OutOfFuel
    decreases fuel
  {
    if isNext && WithinLimit(page, options.pageLimit) {
      var a := Attempt(page, src(attempt, page));
      RunStep(src, options, page, attempt, fuel);
      if page <= last {
        assert a.outcome.Ok?;
        RunServedEnds(src, last, options, page + 1, IsNextAfter(a), attempt + 1, fuel - 1);
      } else {
        assert EndsStream(a);
      }
    }
  }

  /**
   * The whole run against the mock: pages 1, 2, 3, ... up to at most 10, no error
   * reported, and ten attempts always suffice for the loop to end by itself.
   */
  lemma MockLoadAll(fixtures: Fixtures, options: LoaderOptions, fuel: nat)
    ensures var t := LoadAll(MockSource(fixtures), options, fuel);
      && Pages(t.attempts) == Consecutive(1, |t.attempts|) && |t.attempts| <= 10
      && t.errors == []
      && (fuel >= 10 ==> t.stop != OutOfFuel)
  {
    var src := MockSource(fixtures);
    MockServesNinePages(fixtures);
    RunServedPages(src, 9, options, 1, true, 0, fuel);
    RunNoErrors(src, options, 1, true, 0, fuel);
    if fuel >= 10 {
      RunServedEnds(src, 9, options, 1, true, 0, fuel);
    }
  }

  /**
   * The whole run asks for page 1 first and then, after each attempt, the page after
   * it, never past `pageLimit`; the pages fetched successfully are 1, 2, 3, ... in
   * order; and the callbacks receive exactly the transformed pages and the errors
   * other than a 404, in order.
   */
  lemma LoadAllProperties(src: PageSource, options: LoaderOptions, fuel: nat)
    ensures var t := LoadAll(src, options, fuel);
      && (|t.attempts| > 0 ==> t.attempts[0].page == 1)
      && (forall i :: 0 <= i < |t.attempts| ==> WithinLimit(t.attempts[i].page, options.pageLimit))
      && (forall i :: 0 <= i < |t.attempts| - 1 ==> t.attempts[i + 1].page == PageAfter(t.attempts[i]))
      && t.newData == (if options.hasOnNewData then Delivered(t.attempts) else [])
      && t.errors == (if options.hasOnError then Reported(t.attempts) else [])
      && SuccessPages(t.attempts) == Consecutive(1, |SuccessPages(t.attempts)|)
  {
    RunAttempts(src, options, 1, true, 0, fuel);
    RunCallbacks(src, options, 1, true, 0, fuel);
    RunSuccessPages(src, options, 1, true, 0, fuel);
  }

  // ---------------------------------------------------------------------------
  // The loop

  lemma PrependNothing(attempts: seq<Attempt>, newData: seq<seq<StarWarsPerson>>, errors: seq<Failure>, stop: Stop)
    ensures Prepend(attempts, newData, errors, Trace([], [], [], stop)) == Trace(attempts, newData, errors, stop)
  {
    AppendNil(attempts);
    AppendNil(newData);
    AppendNil(errors);
  }

  /** A turn of the loop that ends the stream leaves the rest of the run empty. */
  lemma TurnEndsStream(src: PageSource, options: LoaderOptions, fuel: nat, attempts: seq<Attempt>,
                       newData: seq<seq<StarWarsPerson>>, errors: seq<Failure>, page: int, n: nat)
    requires WithinLimit(page, options.pageLimit) && n < fuel
    requires Prepend(attempts, newData, errors, Run(src, options, page, true, n, fuel - n)) == LoadAll(src, options, fuel)
    requires EndsStream(Attempt(page, src(n, page)))
    ensures Trace(attempts + [Attempt(page, src(n, page))], newData, errors, EndOfStream) == LoadAll(src, options, fuel)
  {
    RunStep(src, options, page, n, fuel - n);
    AppendNil(newData);
    AppendNil(errors);
  }

  /** A turn of the loop that lets it go on moves one attempt from the rest of the run to the part done. */
  lemma TurnContinues(src: PageSource, options: LoaderOptions, fuel: nat, attempts: seq<Attempt>,
                      newData: seq<seq<StarWarsPerson>>, errors: seq<Failure>, page: int, n: nat,
                      newData': seq<seq<StarWarsPerson>>, errors': seq<Failure>, page': int, isNext': bool)
    requires WithinLimit(page, options.pageLimit) && n < fuel
    requires Prepend(attempts, newData, errors, Run(src, options, page, true, n, fuel - n)) == LoadAll(src, options, fuel)
    requires var a := Attempt(page, src(n, page));
      && !EndsStream(a)
      && newData' == newData + Deliveries(options, a) && errors' == errors + Reports(options, a)
      && page' == PageAfter(a) && isNext' == IsNextAfter(a)
    ensures Prepend(attempts + [Attempt(page, src(n, page))], newData', errors',
                    Run(src, options, page', isNext', n + 1, fuel - (n + 1))) == LoadAll(src, options, fuel)
  {
    var a := Attempt(page, src(n, page));
    var rest := Run(src, options, PageAfter(a), IsNextAfter(a), n + 1, fuel - (n + 1));
    RunStep(src, options, page, n, fuel - n);
    AppendAssoc(attempts, [a], rest.attempts);
    AppendAssoc(newData, Deliveries(options, a), rest.newData);
    AppendAssoc(errors, Reports(options, a), rest.errors);
  }

  /**
   * `readAllPagesFromPeopleApi(env, options)`, with at most `fuel` fetch attempts.
   * Every attempt goes to the mock when `useMockApi` is set, and to the people
   * endpoint of `env` over `network` otherwise.
   */
  method ReadAllPagesFromPeopleApi(env: Env, fixtures: Fixtures, network: Network, options: LoaderOptions, fuel: nat)
    returns (trace: Trace)
    ensures trace == LoadAll(SelectedSource(env, options.useMockApi, fixtures, network), options, fuel)
  {
    trace := LoadPages(SelectedSource(env, options.useMockApi, fixtures, network), options, fuel);
  }

  /** The loop of `readAllPagesFromPeopleApi`, over the page source `src`. */
  method LoadPages(src: PageSource, options: LoaderOptions, fuel: nat) returns (trace: Trace)
    ensures trace == LoadAll(src, options, fuel)
  {
    var page := 1;
    var isNext := true;
    var n: nat := 0;
    var attempts: seq<Attempt> := [];
    var newData: seq<seq<StarWarsPerson>> := [];
    var errors: seq<Failure> := [];
    var stop := Done;
    while isNext && WithinLimit(page, options.pageLimit)
      invariant n <= fuel
      invariant Prepend(attempts, newData, errors, Run(src, options, page, isNext, n, fuel - n)) == LoadAll(src, options, fuel)
      decreases fuel - n
    {
      if n == fuel {
        PrependNothing(attempts, newData, errors, OutOfFuel);
        stop := OutOfFuel;
        break;
      }
      var outcome := src(n, page);
      ghost var a := Attempt(page, outcome);
      ghost var attempts0, newData0, errors0 := attempts, newData, errors;
      attempts := attempts + [Attempt(page, outcome)];
      match outcome {
        case Ok(response) =>
          var people := TransformAll(response.results);
          if options.hasOnNewData {
            newData := newData + [people];
          }
          isNext := response.next.Some?;
          page := page + 1;
        case Err(e) =>
          if IsEndOfStream(e) {
            TurnEndsStream(src, options, fuel, attempts0, newData, errors, a.page, n);
            isNext := false;
            stop := EndOfStream;
            break;
          }
          if options.hasOnError {
            errors := errors + [e];
          }
      }
      AppendNil(newData0);
      AppendNil(errors0);
      TurnContinues(src, options, fuel, attempts0, newData0, errors0, a.page, n, newData, errors, page, isNext);
      n := n + 1;
    }
    if stop == Done {
      PrependNothing(attempts, newData, errors, if isNext then LimitReached else Done);
      if isNext {
        stop := LimitReached;
      }
    }
    trace := Trace(attempts, newData, errors, stop);
  }
}
