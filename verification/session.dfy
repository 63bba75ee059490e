/** `FoodTruckService` (FoodTruckCLI/FoodTruckService.js): one search session,
    holding its query parameters, a map from page key to the records fetched
    for it, the cursor `_currentPage`, and the `hasStarted` and `isFinished`
    flags. Each operation is a function from the old session to the new one;
    the HTTP exchange of a fetch is an input (the parsed records and the
    length of the raw body) and the URL it would request is an output. */
module Session {
  import opened Optional
  import opened Strings
  import opened QueryParameters

  const Endpoint: string := "https://data.sfgov.org/resource/bbb8-hzi6.json"

  /** An upstream record: whatever named text fields the endpoint sent. */
  type RawRecord = map<string, string>

  /** The six fields `parseResult` keeps; `None` is a field the upstream
      record did not have (JavaScript's `undefined`). */
  datatype Record = Record(
    locationid: Option<string>,
    starttime: Option<string>,
    endtime: Option<string>,
    optionaltext: Option<string>,
    applicant: Option<string>,
    location: Option<string>)

  const ProjectedFields: set<string> :=
    {"locationid", "starttime", "endtime", "optionaltext", "applicant", "location"}

  /** `record[name]` on an upstream record. */
  function Field(raw: RawRecord, name: string): Option<string> {
    if name in raw then Some(raw[name]) else None
  }

  /** `record[name]` on a projected record; names outside the six are absent. */
  function FieldOf(r: Record, name: string): Option<string> {
    if name == "locationid" then r.locationid
    else if name == "starttime" then r.starttime
    else if name == "endtime" then r.endtime
    else if name == "optionaltext" then r.optionaltext
    else if name == "applicant" then r.applicant
    else if name == "location" then r.location
    else None
  }

  /** A projected record seen as an upstream record again: its present fields. */
  function AsRaw(r: Record): RawRecord {
    map k | k in ProjectedFields && FieldOf(r, k).Some? :: FieldOf(r, k).value
  }

  /** The mapping callback of `parseResult`: each of the six fields is copied
      from the upstream record, and every other field is dropped. */
  function Project(raw: RawRecord): (r: Record)
    ensures forall k :: k in ProjectedFields ==> FieldOf(r, k) == Field(raw, k)
    ensures AsRaw(r) == map k | k in raw && k in ProjectedFields :: raw[k]
  {
    Record(Field(raw, "locationid"), Field(raw, "starttime"), Field(raw, "endtime"),
           Field(raw, "optionaltext"), Field(raw, "applicant"), Field(raw, "location"))
  }

  /** Projection loses nothing of a record that already has only the six fields. */
  lemma ProjectAsRaw(r: Record)
    ensures Project(AsRaw(r)) == r
  {
  }

  function ProjectAll(rs: seq<RawRecord>): (r: seq<Record>)
    ensures |r| == |rs|
    ensures forall i :: 0 <= i < |rs| ==> r[i] == Project(rs[i])
    decreases |rs|
  {
    if |rs| == 0 then [] else [Project(rs[0])] + ProjectAll(rs[1..])
  }

  /** `parseResult`: a falsy parsed body gives no records; otherwise one
      projected record per upstream record, in the same order. */
  function ParseResult(results: Option<seq<RawRecord>>): (r: seq<Record>)
    ensures results.None? ==> r == []
    ensures results.Some? ==> |r| == |results.value|
    ensures results.Some? ==> forall i, k :: 0 <= i < |r| && k in ProjectedFields
                                ==> FieldOf(r[i], k) == Field(results.value[i], k)
  {
    match results
    case None => []
    case Some(rs) => ProjectAll(rs)
  }

  datatype Session = Session(
    params: Query,
    searchResults: map<int, seq<Record>>,
    cursor: int,
    hasStarted: bool,
    isFinished: bool)

  /** The `FoodTruckService` constructor: nothing cached, cursor on page 0. */
  function NewService(params: Query): (s: Session)
    ensures s.params == params && s.searchResults == map[]
    ensures s.cursor == 0 && !s.hasStarted && !s.isFinished
  {
    Session(params, map[], 0, false, false)
  }

  /** The exported factory: absent arguments take their defaults (open now,
      10 per batch, sorted by applicant, offset 0, no fields selected) and
      are handed to the query constructor in its own parameter order. */
  function CreateService(isOpen: Option<bool>, batchSize: Option<int>, sortBy: Option<string>,
                         offset: Option<int>, fields: Option<seq<string>>, hour: nat): (s: Session)
    requires hour <= 23
    ensures s.params.limit == (if batchSize.Some? then batchSize.value else 10)
    ensures s.params.order == (if sortBy.Some? then sortBy.value else "applicant")
    ensures s.params.offset == (if offset.Some? then offset.value else 0)
    ensures BoundOf(s.params.starttime) ==
            Some(Bound(StartComparison(isOpen.None? || isOpen.value), hour))
    ensures BoundOf(s.params.endtime) ==
            Some(Bound(EndComparison(isOpen.None? || isOpen.value), hour))
    ensures s.params.select.Some? <==> fields.Some? && |fields.value| > 0
    ensures s.params.select.Some? && (forall i :: 0 <= i < |fields.value| ==> ',' !in fields.value[i])
            ==> Split(s.params.select.value, ',') == fields.value
    ensures s.searchResults == map[] && s.cursor == 0 && !s.hasStarted && !s.isFinished
  {
    NewService(NewQuery(isOpen.GetOr(true), sortBy.GetOr(DefaultSortBy),
                        batchSize.GetOr(DefaultBatchSize), offset.GetOr(0), fields.GetOr([]), hour))
  }

  /** What the `currentPage` getter (or a resolved promise) hands back. */
  datatype PageView =
    | Page(records: seq<Record>)
    | NoResults   // the 'No results found' text
    | Undefined   // a missing key, or a bare `return`

  /** The `currentPage` getter. Its `!this.searchResults` test never holds,
      since the cache is always an object, so only `isFinished` gives the
      sentinel. */
  function CurrentPage(s: Session): (r: PageView)
    ensures r.NoResults? <==> s.isFinished
    ensures r.Page? <==> !s.isFinished && s.cursor in s.searchResults
    ensures r.Page? ==> r.records == s.searchResults[s.cursor]
  {
    if s.isFinished then NoResults
    else if s.cursor in s.searchResults then Page(s.searchResults[s.cursor])
    else Undefined
  }

  /** A JavaScript number as `++` and `--` produce it: an integer or NaN. */
  datatype Numeric = Int(i: int) | NaN

  /** `Number(v)` for a getter value: an empty array reads as 0; a non-empty
      array of records, the sentinel text and `undefined` read as NaN. */
  function ToNumeric(v: PageView): (r: Numeric)
    ensures r.Int? <==> v.Page? && |v.records| == 0
    ensures r.Int? ==> r.i == 0
  {
    if v == Page([]) then Int(0) else NaN
  }

  function AddNumeric(n: Numeric, d: int): Numeric {
    match n
    case Int(i) => Int(i + d)
    case NaN => NaN
  }

  /** The `currentPage` setter: the cursor moves to `n` only when `n` is a key
      that is already cached; otherwise nothing changes. */
  function SetCurrentPage(s: Session, n: Numeric): (r: Session)
    ensures r.params == s.params && r.searchResults == s.searchResults
    ensures r.hasStarted == s.hasStarted && r.isFinished == s.isFinished
    ensures n.Int? && n.i in s.searchResults ==> r.cursor == n.i
    ensures r.cursor != s.cursor ==> n == Int(r.cursor) && r.cursor in s.searchResults
    ensures !(n.Int? && n.i in s.searchResults) ==> r == s
  {
    match n
    case Int(i) => if i in s.searchResults then s.(cursor := i) else s
    case NaN => s
  }

  /** `this.currentPage++`: read the getter, add one, hand the sum to the
      setter. Only an empty cached page reads as a number (0), so the cursor
      can only ever be sent to key 1, and only when that key is cached. */
  function PostIncrement(s: Session): (r: Session)
    ensures r.(cursor := s.cursor) == s
    ensures r.cursor == (if CurrentPage(s) == Page([]) && 1 in s.searchResults then 1 else s.cursor)
  {
    SetCurrentPage(s, AddNumeric(ToNumeric(CurrentPage(s)), 1))
  }

  /** `this.foodTruckService.currentPage--`, what the up-arrow key runs: by
      the same reading it can only send the cursor to key -1. */
  function PostDecrement(s: Session): (r: Session)
    ensures r.(cursor := s.cursor) == s
    ensures r.cursor == (if CurrentPage(s) == Page([]) && -1 in s.searchResults then -1 else s.cursor)
  {
    SetCurrentPage(s, AddNumeric(ToNumeric(CurrentPage(s)), -1))
  }

  /** The accessor round trip can land only on key 1 (from an empty page) or
      key -1 (from an empty page, going back); with neither cached the cursor
      stays where it is. */
  lemma AccessorStepStays(s: Session)
    ensures 1 !in s.searchResults ==> PostIncrement(s) == s
    ensures -1 !in s.searchResults ==> PostDecrement(s) == s
  {
  }

  /** The end-of-data test of `analyzeResults`: an empty raw body, or one
      shorter than the batch size, the length counted in UTF-16 code units
      as JavaScript's `length` does. */
  predicate Exhausted(bodyLength: nat, limit: int) {
    bodyLength == 0 || bodyLength < limit
  }

  /** `analyzeResults`: on exhaustion set `isFinished` and leave the offset;
      otherwise advance the offset by one and leave `isFinished` as it was. */
  function AnalyzeResults(s: Session, bodyLength: nat): (r: Session)
    ensures r.isFinished <==> s.isFinished || Exhausted(bodyLength, s.params.limit)
    ensures r.params.offset == s.params.offset + (if Exhausted(bodyLength, s.params.limit) then 0 else 1)
    ensures r.params.(offset := s.params.offset) == s.params
    ensures r.(params := s.params, isFinished := s.isFinished) == s
  {
    if Exhausted(bodyLength, s.params.limit) then s.(isFinished := true)
    else s.(params := IncrementPage(s.params))
  }

  /** `resetCache`: the cache is emptied and the cursor goes back to 0; the
      query and both flags are kept. */
  function ResetCache(s: Session): (r: Session)
    ensures r.searchResults == map[] && r.cursor == 0
    ensures r.params == s.params && r.hasStarted == s.hasStarted && r.isFinished == s.isFinished
  {
    s.(searchResults := map[], cursor := 0)
  }

  /** The outcome of one HTTP exchange, as far as the session uses it. */
  datatype Response = Response(records: Option<seq<RawRecord>>, bodyLength: nat)

  /** A session operation's result: the new session, the URL requested (if a
      request was made), and the value the returned promise resolves to. */
  datatype Fetched = Fetched(state: Session, request: Option<string>, value: PageView)

  /** `${foodTruckEndpoint}?${this.getQuery()}`. */
  function RequestUrl(q: Query): string {
    Endpoint + "?" + ToJson(q)
  }

  /** What a fetch does beyond the request and the cache write: the cursor
      stays unless key 1 was cached and always lands on a cached key,
      `analyzeResults` decides the finished flag and the offset, the rest of
      the query is kept, and the value is the sentinel once finished and
      otherwise the page under the cursor. */
  predicate FetchEffects(s: Session, resp: Response, r: Fetched) {
    && (1 !in s.searchResults ==> r.state.cursor == s.cursor)
    && r.state.cursor in r.state.searchResults
    && (r.state.isFinished <==> s.isFinished || Exhausted(resp.bodyLength, s.params.limit))
    && r.state.params.offset ==
       s.params.offset + (if Exhausted(resp.bodyLength, s.params.limit) then 0 else 1)
    && r.state.params.(offset := s.params.offset) == s.params
    && (r.state.isFinished ==> r.value == NoResults)
    && (!r.state.isFinished ==> r.value == Page(r.state.searchResults[r.state.cursor]))
  }

  /** `getResults` with its response. A request is made even when the session
      is finished (the early `resolve` does not return); the projected page is
      written at the cursor the fetch started from; `currentPage++` leaves the
      cursor in place unless key 1 was already cached; then `analyzeResults`
      judges the raw body length. The promise resolves to the sentinel if the
      session was already finished, and otherwise to the getter's value. */
  function GetResults(s: Session, resp: Response): (r: Fetched)
    ensures r.request == Some(RequestUrl(s.params))
    ensures r.state.searchResults == s.searchResults[s.cursor := ParseResult(resp.records)]
    ensures r.state.hasStarted == s.hasStarted
    ensures FetchEffects(s, resp, r)
  {
    var url := RequestUrl(s.params);
    var cached := s.(searchResults := s.searchResults[s.cursor := ParseResult(resp.records)]);
    var moved := PostIncrement(cached);
    var analyzed := AnalyzeResults(moved, resp.bodyLength);
    Fetched(analyzed, Some(url), if s.isFinished then NoResults else CurrentPage(analyzed))
  }

  /** `init`: the first call marks the session started and fetches, with
      every effect of `getResults`; every later call does nothing and
      resolves to `undefined`. */
  function Init(s: Session, resp: Response): (r: Fetched)
    ensures s.hasStarted ==> r == Fetched(s, None, Undefined)
    ensures !s.hasStarted ==> r == GetResults(s.(hasStarted := true), resp)
    ensures !s.hasStarted ==> r.state.hasStarted && r.request == Some(RequestUrl(s.params))
    ensures !s.hasStarted ==> r.state.searchResults == s.searchResults[s.cursor := ParseResult(resp.records)]
    ensures !s.hasStarted ==> FetchEffects(s, resp, r)
  {
    if s.hasStarted then Fetched(s, None, Undefined)
    else GetResults(s.(hasStarted := true), resp)
  }

  /** `next`: nothing happens until `init` has run; afterwards every call
      fetches, with every effect of `getResults`. */
  function Next(s: Session, resp: Response): (r: Fetched)
    ensures !s.hasStarted ==> r == Fetched(s, None, Undefined)
    ensures s.hasStarted ==> r == GetResults(s, resp)
    ensures s.hasStarted ==> r.request == Some(RequestUrl(s.params))
    ensures s.hasStarted ==> r.state.searchResults == s.searchResults[s.cursor := ParseResult(resp.records)]
    ensures s.hasStarted ==> r.state.hasStarted && FetchEffects(s, resp, r)
  {
    if !s.hasStarted then Fetched(s, None, Undefined)
    else GetResults(s, resp)
  }

  /** `init` is idempotent: once it has run, running it again changes nothing
      and requests nothing, whatever the response would have been. */
  lemma InitOnce(s: Session, first: Response, again: Response)
    ensures Init(Init(s, first).state, again) == Fetched(Init(s, first).state, None, Undefined)
  {
  }

  /** Anything the session can be asked to do. */
  datatype Event =
    | InitCall(resp: Response)
    | NextCall(resp: Response)
    | SetPage(n: Numeric)
    | StepBack
    | Reset

  function Step(s: Session, e: Event): Session {
    match e
    case InitCall(resp) => Init(s, resp).state
    case NextCall(resp) => Next(s, resp).state
    case SetPage(n) => SetCurrentPage(s, n)
    case StepBack => PostDecrement(s)
    case Reset => ResetCache(s)
  }

  function Run(s: Session, events: seq<Event>): Session
    decreases |events|
  {
    if |events| == 0 then s else Run(Step(s, events[0]), events[1..])
  }

  /** The cursor is 0 or names a cached page. */
  predicate CursorValid(s: Session) {
    s.cursor == 0 || s.cursor in s.searchResults
  }

  /** The shape every reachable session has: the cursor on 0 and nothing
      cached under any other key. */
  predicate OnlyFirstPage(s: Session) {
    s.cursor == 0 && forall k :: k in s.searchResults ==> k == 0
  }

  lemma StepKeepsCursorValid(s: Session, e: Event)
    requires CursorValid(s)
    ensures CursorValid(Step(s, e))
  {
  }

  lemma StepKeepsOnlyFirstPage(s: Session, e: Event)
    requires OnlyFirstPage(s)
    ensures OnlyFirstPage(Step(s, e))
  {
  }

  /** From a new session, whatever happens, the cursor stays on 0 and only
      key 0 is ever cached: every fetch overwrites page 0, and neither
      `currentPage++` nor `currentPage--` ever moves the cursor. */
  lemma {:induction false} RunKeepsOnlyFirstPage(s: Session, events: seq<Event>)
    requires OnlyFirstPage(s)
    ensures OnlyFirstPage(Run(s, events)) && CursorValid(Run(s, events))
    decreases |events|
  {
    if |events| > 0 {
      StepKeepsOnlyFirstPage(s, events[0]);
      RunKeepsOnlyFirstPage(Step(s, events[0]), events[1..]);
    }
  }

  /** The cursor invariant holds along any run that starts from it. */
  lemma {:induction false} RunKeepsCursorValid(s: Session, events: seq<Event>)
    requires CursorValid(s)
    ensures CursorValid(Run(s, events))
    decreases |events|
  {
    if |events| > 0 {
      StepKeepsCursorValid(s, events[0]);
      RunKeepsCursorValid(Step(s, events[0]), events[1..]);
    }
  }

  lemma NewServiceOnlyFirstPage(q: Query, events: seq<Event>)
    ensures OnlyFirstPage(Run(NewService(q), events))
  {
    RunKeepsOnlyFirstPage(NewService(q), events);
  }

  /** `isFinished` is never cleared: once set it stays set, and the batch
      size never changes. */
  lemma {:induction false} FinishedIsTerminal(s: Session, events: seq<Event>)
    requires s.isFinished
    ensures Run(s, events).isFinished
    ensures Run(s, events).params.limit == s.params.limit
    decreases |events|
  {
    if |events| > 0 {
      FinishedIsTerminal(Step(s, events[0]), events[1..]);
    }
  }

  /** Exhaustion does not stop fetching: a finished, started session still
      requests the next URL on `next`, still overwrites the page at its
      cursor, and resolves to the sentinel. */
  lemma FinishedStillFetches(s: Session, resp: Response)
    requires s.hasStarted && s.isFinished
    ensures Next(s, resp).request == Some(RequestUrl(s.params))
    ensures Next(s, resp).value == NoResults
    ensures Next(s, resp).state.isFinished
  {
  }

  /** `next` called once per response, in order. */
  function NextAll(s: Session, resps: seq<Response>): Session
    decreases |resps|
  {
    if |resps| == 0 then s else NextAll(Next(s, resps[0]).state, resps[1..])
  }

  /** How many responses were long enough for `analyzeResults` to advance the offset. */
  function AdvancingResponses(resps: seq<Response>, limit: int): nat
    decreases |resps|
  {
    if |resps| == 0 then 0
    else (if Exhausted(resps[0].bodyLength, limit) then 0 else 1)
         + AdvancingResponses(resps[1..], limit)
  }

  /** Across a run of `next` calls on a started session the offset grows by
      exactly the number of responses whose raw body was non-empty and at
      least `$limit` code units long, whether or not the session has finished. */
  lemma {:induction false} OffsetCountsAdvancingResponses(s: Session, resps: seq<Response>)
    requires s.hasStarted
    ensures NextAll(s, resps).params.offset == s.params.offset + AdvancingResponses(resps, s.params.limit)
    ensures NextAll(s, resps).params.limit == s.params.limit
    decreases |resps|
  {
    if |resps| > 0 {
      OffsetCountsAdvancingResponses(Next(s, resps[0]).state, resps[1..]);
    }
  }

  /** Two records and then one, with a batch size of 2. The limit is compared
      with the length of the raw JSON text (`[{"id":"1"},{"id":"2"}]` is 23
      code units long and `[{"id":"3"}]` is 12), so the
      session is not finished after the short second page; the second page
      replaced the first under key 0, and the offset has moved twice. */
  lemma TwoFetchesScenario(q: Query)
    requires q.limit == 2 && q.offset == 0
    ensures var first := Response(Some([map["id" := "1"], map["id" := "2"]]), 23);
            var second := Response(Some([map["id" := "3"]]), 12);
            var s := Next(Init(NewService(q), first).state, second).state;
            && s.searchResults == map[0 := [Record(None, None, None, None, None, None)]]
            && s.cursor == 0
            && !s.isFinished
            && s.params.offset == 2
  {
    var first := Response(Some([map["id" := "1"], map["id" := "2"]]), 23);
    var second := Response(Some([map["id" := "3"]]), 12);
    FirstFetch(q, first);
    var s1 := Init(NewService(q), first).state;
    RefetchFirstPage(s1, ParseResult(first.records), second);
    IdOnlyPage("3");
  }

  /** The first fetch of a fresh session whose body is not exhausted: page 0
      is written, the cursor stays on it, and the offset moves by one. */
  lemma FirstFetch(q: Query, resp: Response)
    requires !Exhausted(resp.bodyLength, q.limit)
    ensures var s := Init(NewService(q), resp).state;
            && s.hasStarted && s.cursor == 0 && !s.isFinished
            && s.searchResults == map[0 := ParseResult(resp.records)]
            && s.params == q.(offset := q.offset + 1)
  {
  }

  /** A later fetch on a running session that has cached page 0 only: the new
      page overwrites page 0, since the cursor cannot reach key 1. */
  lemma RefetchFirstPage(s: Session, page: seq<Record>, resp: Response)
    requires s.hasStarted && s.cursor == 0 && !s.isFinished && s.searchResults == map[0 := page]
    requires !Exhausted(resp.bodyLength, s.params.limit)
    ensures var r := Next(s, resp).state;
            && r.cursor == 0 && !r.isFinished
            && r.searchResults == map[0 := ParseResult(resp.records)]
            && r.params == s.params.(offset := s.params.offset + 1)
  {
    assert 1 !in s.searchResults;
    assert s.searchResults[0 := ParseResult(resp.records)] == map[0 := ParseResult(resp.records)];
  }

  /** An upstream record carrying none of the six fields projects to a
      record with every field absent. */
  lemma IdOnlyPage(v: string)
    ensures ParseResult(Some([map["id" := v]])) == [Record(None, None, None, None, None, None)]
  {
    var page := ParseResult(Some([map["id" := v]]));
    assert FieldOf(page[0], "locationid") == None;
    assert FieldOf(page[0], "starttime") == None;
    assert FieldOf(page[0], "endtime") == None;
    assert FieldOf(page[0], "optionaltext") == None;
    assert FieldOf(page[0], "applicant") == None;
    assert FieldOf(page[0], "location") == None;
  }

  /** A body shorter than the batch size ends the session: `[]` is two
      code units long, below the default 10. */
  lemma EmptyArrayFinishes(s: Session)
    requires s.hasStarted && s.params.limit == 10
    ensures var r := Next(s, Response(Some([]), 2));
            r.state.isFinished && r.value == NoResults && r.state.params.offset == s.params.offset
  {
  }
}
