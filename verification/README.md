# FoodTruckCLI core in Dafny

This project models the core of FoodTruckCLI. FoodTruckCLI is a command-line
client that lists the San Francisco food trucks open at the current hour,
one page at a time. The model covers three pieces:

- `FoodTruckQueryParameters`, `convertTimeToHourFormat` and `paramToString`
  (FoodTruckCLI/FoodTruckService.js). These build the Socrata query string:
  a `$where` time window around the current hour, then `$order`, `$limit`
  and `$offset`.
- `FoodTruckService` (same file). This is the paging session: it holds a
  cache of fetched pages, a cursor, and the `hasStarted` and `isFinished`
  flags.
- `parseCommand` and the branch step of `validateCommand`
  (FoodTruckCLI/FoodTruckPrompter.js). These turn `run -sortBy=...,-isOpen=...`
  into an options map or a list of invalid option names.

Every operation is a pure function over immutable data:

| file | module | contents |
|---|---|---|
| `optional.dfy` | `Optional` | `Option`, which stands for JavaScript `undefined` |
| `strings.dfy` | `Strings` | the string built-ins the code relies on: `split` on one character, `join`, `trim`, first-match `replace`, and the global `replace(/-/g, '')` |
| `decimal.dfy` | `Decimal` | how a template literal writes an integer, and its inverse |
| `query.dfy` | `QueryParameters` | the query object and its `toJSON` rendering |
| `session.dfy` | `Session` | the service state machine, and runs of events over it |
| `command.dfy` | `CommandParser` | the command parser and the validate decision |

Some inputs come from outside the program in the original and are
parameters here:

- The wall-clock hour that the constructor reads from `new Date()`.
- The outcome of an HTTP exchange: the parsed records and the length of the
  raw body, counted in UTF-16 code units as JavaScript's `length` counts it.

The URL a fetch requests is an output of the fetch.

What the code does, where a reader might expect otherwise (the model follows
the code in each case):

- `this.currentPage++` is a read through the `currentPage` getter, a numeric
  conversion, and a write through the setter. The getter returns the page
  just written (an array of records), or the `No results found` text when
  the session was already finished. The sum is `NaN`, or 1 when that array
  is empty. The setter
  ignores keys that are not cached. So the cursor never moves, and every
  fetch overwrites page 0 (`Session.RunKeepsOnlyFirstPage`).
- `analyzeResults` receives the raw response body, a string. It compares the
  body's length (in code units) with `$limit`, not a record count
  (`Session.TwoFetchesScenario`, `Session.EmptyArrayFinishes`).
- `incrementPage` adds 1 to `$offset`, not a batch size.
- In `getResults`, the early `resolve` for a finished session does not
  return. So a finished session still requests the next URL
  (`Session.FinishedStillFetches`).
- `convertTimeToHourFormat` writes noon as `12AM` and midnight as `0AM`.
- `$select` is stored but never rendered by `toJSON`.
- No constructor argument is validated.
- `replace(/run/, '')` removes only the first `run`. The whole command is
  trimmed once, but the individual tokens are not, so `-sortBy=a, -isOpen=b`
  rejects ` -isOpen` (`CommandParser.LeadingBlankRejected`).
- The usage example in the prompt text, `run -sortBy=starttime,-isOpen=false,batchSize=25`,
  is itself rejected, and so is every command of that shape: its last option
  has no dash (`CommandParser.HelpExampleRejected`).

## Model

| member | source | states |
|---|---|---|
| QueryParameters.ConvertTimeToHourFormat | FoodTruckCLI/FoodTruckService.js:125-128 | the text ends in `AM` for hours 0-12 and in `PM` otherwise; the digits before it carry no leading zero and read back as the hour, or as the hour minus 12 |
| QueryParameters.HourFormatRoundTrip | FoodTruckCLI/FoodTruckService.js:125-128 | the hour text names its hour uniquely: decoding gives `h` if and only if `h <= 23` and the text is the formatting of `h` |
| QueryParameters.BoundOfClause | FoodTruckCLI/FoodTruckService.js:100-101 | a clause `comparison"hour"` reads back as the same comparison and the same hour |
| QueryParameters.NewQuery | FoodTruckCLI/FoodTruckService.js:97-106 | both time clauses compare against the given hour, inclusively when `isOpen` and strictly otherwise; sort key, batch size and offset are stored as given; `$select` is present exactly when fields were given, and, when no field holds `,`, splitting it on `,` gives the fields back |
| QueryParameters.SelectRoundTrip | FoodTruckCLI/FoodTruckService.js:105 | joining comma-free field names with `,` and splitting again gives the names back |
| QueryParameters.IncrementPage | FoodTruckCLI/FoodTruckService.js:108-110 | the offset grows by exactly one, and nothing else changes |
| QueryParameters.AdvancePagesOffset | FoodTruckCLI/FoodTruckService.js:108-122 | after `k` page increments, the offset read back from the query string has grown by `k`, and the other parameters are unchanged |
| QueryParameters.AdvancePagesShape | FoodTruckCLI/FoodTruckService.js:108-110 | `k` increments equal one offset change of `k` |
| QueryParameters.SetLimit | FoodTruckCLI/FoodTruckService.js:112-115 | a falsy value (absent or 0) leaves the query unchanged; any other value becomes the limit and nothing else changes |
| QueryParameters.SetLimitRoundTrip | FoodTruckCLI/FoodTruckService.js:112-122 | the limit read back from the query string is the value given to the setter, or the old limit when that value was falsy; the other parameters read back unchanged |
| QueryParameters.ParamToString | FoodTruckCLI/FoodTruckService.js:130-132 | the text is the name, `=` and the value, in that order and nothing else, led by `&` exactly when the parameter is not the first |
| QueryParameters.TailUntrimmed | FoodTruckCLI/FoodTruckService.js:117-132 | the trailing parameters start with `&` and end with a digit, so `trim` removes nothing |
| QueryParameters.ToJson | FoodTruckCLI/FoodTruckService.js:117-122 | the full query string: the where clause joins the start and end clauses with `%20AND%20`, then order, limit and offset follow, each led by `&`; `$select` never appears |
| QueryParameters.ToJsonPieces | FoodTruckCLI/FoodTruckService.js:117-122 | the query string is the four `name=value` parameters joined by `&` |
| QueryParameters.SplitToJson | FoodTruckCLI/FoodTruckService.js:117-132 | splitting the query string on `&` gives back exactly its four parameters, provided the stored text holds no `&` |
| QueryParameters.DecodePieces | FoodTruckCLI/FoodTruckService.js:117-132 | each parameter starts with its name and `=`, and what follows reads back as the stored value |
| QueryParameters.QueryRoundTrip | FoodTruckCLI/FoodTruckService.js:117-122 | decoding the query string gives back exactly the stored where clause, sort key, limit and offset, provided the stored text holds no `&` |
| QueryParameters.NewQueryRoundTrip | FoodTruckCLI/FoodTruckService.js:97-122 | for a freshly built query, the round trip needs only a sort key without `&`, and gives back the batch size and offset that were passed |
| QueryParameters.DollarCount | FoodTruckCLI/FoodTruckService.js:117-122 | with a sort key free of `$`, the query string holds exactly four `$`, one per parameter name |
| Session.Project | FoodTruckCLI/FoodTruckService.js:64-72 | each of the six kept fields is copied from the upstream record (absent stays absent), and every other field is dropped |
| Session.ProjectAsRaw | FoodTruckCLI/FoodTruckService.js:64-72 | projecting a record that holds only the six fields gives the same record |
| Session.ProjectAll | FoodTruckCLI/FoodTruckService.js:64 | one projected record per upstream record, in the same order |
| Session.ParseResult | FoodTruckCLI/FoodTruckService.js:61-73 | a falsy parse gives no records; otherwise each record's six fields equal the upstream ones, position by position |
| Session.NewService | FoodTruckCLI/FoodTruckService.js:9-17 | a new session has no cache, the cursor on 0, and both flags clear |
| Session.CreateService | FoodTruckCLI/FoodTruckService.js:134-137 | each argument is passed to the query in the constructor's order, and an absent one takes its default: open now (both time clauses inclusive at the given hour), 10 per batch, sort by applicant, offset 0, no fields; `$select` is present exactly when a non-empty field list was given, and, when no field holds `,`, splits back into it |
| Session.CurrentPage | FoodTruckCLI/FoodTruckService.js:31-34 | a finished session gives the sentinel; otherwise the page cached under the cursor, or `undefined` when that key is missing |
| Session.ToNumeric | FoodTruckCLI/FoodTruckService.js:54 | the getter's value converts to a number only when it is an empty array, and then to 0 |
| Session.PostIncrement | FoodTruckCLI/FoodTruckService.js:54 | only the cursor can change, and it moves to key 1 exactly when the getter shows an empty cached page and key 1 is cached |
| Session.PostDecrement | FoodTruckCLI/FoodTruckPrompter.js:71 | only the cursor can change, and it moves to key -1 exactly when the getter shows an empty cached page and key -1 is cached |
| Session.SetCurrentPage | FoodTruckCLI/FoodTruckService.js:36-39 | the cursor moves only to a key that is already cached; otherwise nothing changes |
| Session.AccessorStepStays | FoodTruckCLI/FoodTruckService.js:31-54 | `currentPage++` and `currentPage--` leave the session unchanged unless key 1 (or key -1) is cached |
| Session.AnalyzeResults | FoodTruckCLI/FoodTruckService.js:82-88 | `isFinished` is set exactly when the body is empty or shorter than `$limit`; otherwise the offset grows by one; nothing else changes |
| Session.ResetCache | FoodTruckCLI/FoodTruckService.js:90-93 | the cache is emptied and the cursor goes back to 0; the query and both flags are kept |
| Session.GetResults | FoodTruckCLI/FoodTruckService.js:46-59 | a request for the current query URL is always made; the projected page is written at the cursor the fetch started from; the cursor stays put unless key 1 was cached; the finished flag and offset follow `analyzeResults`; the resolved value is the sentinel once finished and otherwise the page under the cursor |
| Session.Init | FoodTruckCLI/FoodTruckService.js:19-24 | the first call marks the session started and fetches with every effect of `getResults`: the cache write, the cursor, the finished flag and offset from `analyzeResults`, and the resolved value; a later call requests nothing and changes nothing |
| Session.InitOnce | FoodTruckCLI/FoodTruckService.js:19-24 | calling `init` a second time changes nothing and requests nothing, whatever the response would have been |
| Session.Next | FoodTruckCLI/FoodTruckService.js:26-29 | nothing happens before `init`; afterwards every call fetches with every effect of `getResults`: the cache write, the cursor, the finished flag and offset from `analyzeResults`, and the resolved value |
| Session.StepKeepsCursorValid | FoodTruckCLI/FoodTruckService.js:8-93 | every operation keeps the cursor on 0 or on a cached key |
| Session.StepKeepsOnlyFirstPage | FoodTruckCLI/FoodTruckService.js:31-59 | every operation keeps the cursor on 0 and the cache within key 0 |
| Session.RunKeepsOnlyFirstPage | FoodTruckCLI/FoodTruckService.js:31-59 | along any sequence of operations, the cursor stays on 0 and only key 0 is ever cached |
| Session.RunKeepsCursorValid | FoodTruckCLI/FoodTruckService.js:8-93 | along any sequence of operations, the cursor stays on 0 or on a cached key |
| Session.NewServiceOnlyFirstPage | FoodTruckCLI/FoodTruckService.js:9-59 | every session reachable from a new one has the cursor on 0 and nothing cached beyond key 0 |
| Session.FinishedIsTerminal | FoodTruckCLI/FoodTruckService.js:82-93 | once `isFinished` is set, no sequence of operations clears it, and the batch size never changes |
| Session.FinishedStillFetches | FoodTruckCLI/FoodTruckService.js:46-58 | a finished session still requests the next URL on `next`, stays finished, and resolves to the sentinel |
| Session.OffsetCountsAdvancingResponses | FoodTruckCLI/FoodTruckService.js:82-110 | across a run of `next` calls, the offset grows by exactly the number of responses whose raw body was non-empty and at least `$limit` code units long |
| Session.TwoFetchesScenario | FoodTruckCLI/FoodTruckService.js:46-88 | with a batch size of 2, a two-record page (a 23-unit body) and then a one-record page (12 units) leave only the second page cached under key 0, the session unfinished, and the offset at 2 |
| Session.EmptyArrayFinishes | FoodTruckCLI/FoodTruckService.js:82-86 | a `[]` body (two code units) finishes a session whose batch size is 10, leaves the offset alone, and resolves to the sentinel |
| CommandParser.ParseTokens | FoodTruckCLI/FoodTruckPrompter.js:93-98 | at every key the result map agrees with the reference reading: it holds the value of the last token that sets the key, and nothing when no token does; only the three option keys occur; the invalid list is the names of the non-empty, unrecognised tokens, in order |
| CommandParser.LastValueExists | FoodTruckCLI/FoodTruckPrompter.js:93-96 | a key has a value exactly when some token sets it |
| CommandParser.LastSetter | FoodTruckCLI/FoodTruckPrompter.js:93-96 | a key with a value has a token that sets it, and the value is that token's |
| CommandParser.SetterGivesValue | FoodTruckCLI/FoodTruckPrompter.js:93-96 | a key that some token sets has a value |
| CommandParser.LastValueIsLast | FoodTruckCLI/FoodTruckPrompter.js:93-96 | when several tokens set a key, the value is the one carried by the last of them |
| CommandParser.KeyOfRemovesDashes | FoodTruckCLI/FoodTruckPrompter.js:96 | exactly the three valid option names have a result key, and it is the name with its dashes removed |
| CommandParser.InvalidNamesSnoc | FoodTruckCLI/FoodTruckPrompter.js:97 | a token appended at the end adds its name to the invalid list exactly when it is unrecognised |
| CommandParser.ParseCommand | FoodTruckCLI/FoodTruckPrompter.js:90-105 | `hasError` holds exactly when the invalid list is non-empty; the invalid list is that of the tokens of the trimmed command; at every key the result map holds the value of the last token that sets it |
| CommandParser.TokensPartition | FoodTruckCLI/FoodTruckPrompter.js:93-98 | every non-empty token is either recognised or has its name on the invalid list, never both; empty tokens go nowhere |
| CommandParser.LeadingBlankRejected | FoodTruckCLI/FoodTruckPrompter.js:93-97 | a token starting with whitespace is never recognised, and its reported name keeps the whitespace |
| CommandParser.OptionValueBetween | FoodTruckCLI/FoodTruckPrompter.js:95-96 | the option name is the text before the first `=`, and the value is the text between the first and second `=` |
| CommandParser.NoEqualsNoValue | FoodTruckCLI/FoodTruckPrompter.js:95-96 | a token without `=` is all name, and its value is absent |
| CommandParser.ValidateCommand | FoodTruckCLI/FoodTruckPrompter.js:39-46 | the error path is taken exactly when the command, with its first `run` removed, has an unrecognised option, and it reports exactly those names; otherwise the search starts with options keyed only by the three option names, each holding the value of the last token that sets it |
| CommandParser.StripLeadingRun | FoodTruckCLI/FoodTruckPrompter.js:40 | a leading `run` is the occurrence removed, and nothing else changes |
| CommandParser.ThreeTokens | FoodTruckCLI/FoodTruckPrompter.js:93 | three comma-free tokens with nothing to trim at the ends of the command are read back as written |
| CommandParser.RunThreeTokensRejected | FoodTruckCLI/FoodTruckPrompter.js:39-46 | `run ` and three tokens, the first two recognised and the last not, is rejected with exactly the last token's name |
| CommandParser.HelpExampleRejected | FoodTruckCLI/FoodTruckPrompter.js:14-46 | every command shaped like the usage example shown in the prompt, `run -sortBy=v1,-isOpen=v2,batchSize=v3`, is rejected with `batchSize` as the only invalid name, whatever its three values (none holding `=` or `,`, the last not ending in whitespace) |
| CommandParser.RecognisedAroundUnknown | FoodTruckCLI/FoodTruckPrompter.js:93-98 | an unknown token between two recognised ones does not stop the later one from being stored |
| CommandParser.MixedOptionsExample | FoodTruckCLI/FoodTruckPrompter.js:90-105 | parsing the command text `-sortBy=v1,-foo=v2,-batchSize=v3` stores `v1` under `sortBy` and `v3` under `batchSize`, reports `-foo`, and raises the error flag, for any values holding no `=` or `,` whose last does not end in whitespace |
| Strings.Split | FoodTruckCLI/FoodTruckPrompter.js:93-95 | a split always has one more piece than the text has separators, and no piece contains the separator |
| Strings.JoinSplit | FoodTruckCLI/FoodTruckPrompter.js:93 | joining the pieces of a split with the separator gives back the text |
| Strings.SplitJoin | FoodTruckCLI/FoodTruckService.js:105 | splitting a join of separator-free pieces gives back the pieces |
| Strings.TrimStart | FoodTruckCLI/FoodTruckPrompter.js:93 | the result is a suffix of the input, everything dropped is whitespace, and what is kept does not start with whitespace |
| Strings.TrimEnd | FoodTruckCLI/FoodTruckPrompter.js:93 | the result is a prefix of the input, everything dropped is whitespace, and what is kept does not end with whitespace |
| Strings.ReplaceFirst | FoodTruckCLI/FoodTruckPrompter.js:40 | with no match the text is unchanged; otherwise only the first match is replaced |
| Strings.RemoveAll | FoodTruckCLI/FoodTruckPrompter.js:96 | the result has no `-` left, and a name without dashes is unchanged |
| Strings.RemoveAllLength | FoodTruckCLI/FoodTruckPrompter.js:96 | the result is shorter than the input by exactly the number of removed characters |
| Strings.RemoveAllKeeps | FoodTruckCLI/FoodTruckPrompter.js:96 | every other character occurs in the result as often as in the input |
| Strings.RemoveAllAppend | FoodTruckCLI/FoodTruckPrompter.js:96 | removal distributes over concatenation, so the kept characters stay in their order |
| Decimal.IntRoundTrip | FoodTruckCLI/FoodTruckService.js:121 | reading back the decimal text written for a limit or offset gives the same integer |

## Left out

- The HTTP request, `JSON.parse` (and its exception on a body that is not
  JSON) and every `console.log` are left out. The outcome of an exchange is
  an input of `Session.GetResults`: the parsed records, or `None` for a falsy
  parse, and the raw body length.
- Promises and `async`/`await` are left out. Each operation completes before
  the next starts, so the race between two overlapping `next` calls is not
  modelled.
- `new Date()` is left out. The hour (0-23) is a parameter.
- `addParameters` is left out: it assigns to `this.parameters`, which is
  never set, so it always throws. `getQuery` is `ToJson` of the session's
  query.
- `RESTRICTED_FIELDS` is declared but never used, so it is not modelled.
- The interactive prompt is left out: the `prompts` library, the raw-mode
  keypress loop and `process.exit`, as well as `initSearch`,
  `throwSearchError` and the empty `initNavigationEvents` and `closeEvents`.
  The up-arrow key's `currentPage--` is modelled as `Session.PostDecrement`,
  and the down-arrow key's `next` as `Session.Next`.
- `Session.CreateService` takes `isOpen` as a boolean and `batchSize` as an
  integer. The prompter passes the option texts through unconverted: any
  non-empty `isOpen` text, even `false`, is truthy. A `batchSize` text is
  compared with the body length as a number, so JavaScript converts it with
  `Number()`: `"25"` compares as 25, `""` as 0, and `"abc"` as NaN, in which
  case no body is ever short enough to finish the session. Those coercions
  are not modelled.
- `Session.ParseResult` does not model the two ways `parseResult` throws.
  A parse that is truthy but not an array, such as the JSON error object
  the endpoint returns for an unknown `$order`, makes `results.map` fail. A
  `null` element makes `record.locationid` fail. A response here is either
  falsy or a list of records.
- `Session.Project` models upstream field values as text. Values of other
  JSON types are not modelled.
- `QueryParameters.SetLimit` treats only an absent value and 0 as falsy.
  The other JavaScript falsy values (`''`, `NaN`, `null`, `false`) are not
  modelled because the limit is an integer here.
- `Decimal.IntToString` writes `$limit` and `$offset` as unbounded integers.
  In JavaScript they are doubles, and `${n}` switches to exponent notation
  from 1e21 on. That range is not modelled.
- `QueryParameters.IncrementPage` adds 1 to an unbounded integer. On a
  JavaScript double, `++` stops being exact above 2^53. That range is not
  modelled.
- The body length is a count of UTF-16 code units, taken as given. How a
  body's characters map to code units is not modelled.
- The whitespace that `trim` removes (`Strings.IsWhitespace`) is the set
  `String.prototype.trim` removes. Unicode category `Zs` is written out as a list of code points, as
  of Unicode 15.
