# Trip planner core in Dafny

A model of the deterministic core of an LLM trip planner. The planner runs a LangGraph state graph with these nodes:

1. a budget estimate;
2. a research plan;
3. five research agents (lodging, activities, food, intercity transport, recommendations);
4. one human-review node that suspends the run for the user's selections;
5. a planner.

Around the graph sits an API service that keeps per-thread sessions and builds resume payloads from the user's 0-based selections. The LLM calls, the HTTP clients and the LangGraph runtime are treated as opaque. What remains is sequential and pure, and is modelled here.

- **Domain records** (`types.dfy`, `dates.dfy`, `schemas.dfy`, `candidates.dfy`):
  - the constrained scalar types (money, coordinates, ratings, ISO 4217 codes, URLs, `HH:MM` times);
  - the budget total, the research plan and its directives;
  - the trip context with its date check, inclusive day count and traveller age groups;
  - recommendations;
  - the four candidate records with their validation, `model_dump` and `model_dump(exclude_none=True)`.
- **Candidate-list reducer** (`reducer.dfy`): the merge LangGraph applies to a category's list. It does subset replace when the incoming list narrows the held one, and otherwise an id-deduplicating append.
- **Nodes and routing** (`nodes.dfy`):
  - agent-output normalisation and the research fallback;
  - the review node split into `Assemble` (what it suspends with) and `ApplyResume` (the update it returns for an answer);
  - the conditional edge out of review.
- **Graph wiring** (`graph.dfy`): the compiled graph as a successor relation over node names, with the ordering facts every run obeys.
- **Post-processing hook** (`post_processing.dfy`): the tolerant extraction of JSON from raw model text, collection normalisation, the skip-invalid item builder, the transfer-leg transform, and the `on_chain_*` callbacks.
- **API layer** (`session.dfy`, `response.dfy`):
  - the configuration check;
  - the thread maps and their guards;
  - `_store_result` and `_build_resume_payload`;
  - `plan_trip`, `resume_trip`, `final_plan`, `extra_research` and `cleanup_old_threads`;
  - the response builder.
- **Search-result normalisers** (`amadeus.dfy`, `tavily.dfy`, `reddit.dfy`, `documents.dfy`):
  - the Amadeus error formatter;
  - the Tavily page cleaner;
  - the Reddit post normaliser.

Shared helpers are `wrappers.dfy` (`Option`, `Result`), `seqs.dfy` (subsequences, filter, map), `text.dfy` (Python's `strip`, `find`, `rfind`, `join`, integer printing) and `json.dfy` (parsed JSON values and Python truthiness).

Things the code takes from outside become parameters:

- `json.loads` is `parse: string -> Option<Json>`;
- the regular-expression scans and substitutions are functions passed in (`fenced`, `subs`, `scan`, `dropLinks`);
- `uuid4()` is a string argument, and `datetime.now()` is a `now` argument;
- today's date, for ages, is an argument;
- the compiled graph is a function from its input, context and config to a run result or an error;
- a research agent is a function from its prompt message to a response or an error;
- Python's `str` of floats and containers is a `show` function that never returns `""`;
- `repr` of a message is an argument.

## Model

| member | source | states |
|---|---|---|
| `Types.ValidateUrl` | src/core/types.py:13-19 | A URL is accepted exactly when its trimmed form is `http://` or `https://` followed by one or more characters from `\w` (read as ASCII) or `- . / % ? # = &`. The trim removes Unicode White_Space, as pydantic's `strip_whitespace` does, and the value kept is the trimmed form. |
| `Types.ValidateTime` | src/core/types.py:20-26 | A time is accepted exactly when its trimmed form matches the two-digit hour and minute pattern, with `\d` read as ASCII. The trim is the same as for URLs, and the value kept is the trimmed form. |
| `Types.SeparatorRefused` | src/core/types.py:13-26 | A value that starts with an information separator (U+001C to U+001F) is refused by both validators: the trim keeps it, although Python's `str.strip` would remove it. |
| `Types.TimePatternIsClock` | src/core/types.py:22-23 | The time pattern accepts exactly the `HH:MM` readings of a 24-hour clock, hours 0 to 23 and minutes 0 to 59, each written with two digits. |
| `Dates.Next` | src/core/schemas.py:372-375 | On the model of Python's `date` that `days_number` subtracts, the day after a valid date (before the end of year 9999) is again a valid date. |
| `Dates.NextOrdinal` | src/core/schemas.py:372-375 | The day after a date has the next ordinal, so subtracting two dates counts the days between them. |
| `Dates.OrdinalMonotone` | src/core/schemas.py:366-370 | A date before another has a strictly smaller ordinal, so the order the date check compares agrees with the day count. |
| `Dates.OrdinalInjective` | src/core/schemas.py:372-375 | Two valid dates with the same ordinal are the same date. |
| `Schemas.Total` | src/core/schemas.py:75-87 | The total of a validated budget is non-negative and at least each of the six category amounts. |
| `Schemas.TotalIsSum` | src/core/schemas.py:75-87 | The total is the sum of intercity transport, local transport, food, activities, lodging and other; the daily average is not part of it. |
| `Schemas.TotalZero` | src/core/schemas.py:75-87 | A validated budget totals zero exactly when every category amount is zero. |
| `Schemas.LoadDumpDirective` | src/core/schemas.py:90-98 | A research directive dumped, with or without its `None` fields, validates back to itself. |
| `Schemas.DumpDirectiveTruthy` | src/core/schemas.py:90-98 | Dumped without `None` fields, a directive is a falsy empty dict exactly when none of its fields is set. |
| `Schemas.LoadPlan` | src/core/schemas.py:101-108 | A research plan validates only from an object whose keys are all category directive names; unknown keys are refused. |
| `Schemas.LoadDumpPlan` | src/core/schemas.py:101-108 | A research plan dumped, with or without its `None` fields, validates back to itself. |
| `Schemas.DumpPlanEntry` | src/core/schemas.py:101-108 | The full dump of a plan has every category key, `null` where there is no directive; the dump without `None` fields has exactly the keys of the present directives. |
| `Schemas.AgeCountsBirthdays` | src/core/schemas.py:338-343 | The age on a given day is at least `k` exactly when the `k`-th birthday is not after that day. The month and day comparison is Python's tuple order. |
| `Schemas.GroupOfAge` | src/core/schemas.py:344-348 | Under 2 is an infant, 2 to 17 is a child, and 18 or more is an adult; the three groups are exclusive. |
| `Schemas.CountGroup` | src/core/schemas.py:377-390 | Each traveller count is at most the number of travellers. |
| `Schemas.CountsPartition` | src/core/schemas.py:377-390 | The adult, child and infant counts add up to the number of travellers. |
| `Schemas.ValidateContext` | src/core/schemas.py:350-370 | A context is accepted unchanged exactly when its fields are valid and `date_from` is not after `date_to`; a start after the end fails with the validator's message. |
| `Schemas.DaysNumberPositive` | src/core/schemas.py:372-375 | An accepted context lasts at least one day, and exactly one when it starts and ends on the same date. |
| `Schemas.DaysNumberNext` | src/core/schemas.py:372-375 | Moving the end date one day later adds one to the day count: both ends count. |
| `Schemas.LoadHop` | src/core/schemas.py:225-232 | An accepted intracity hop has one of the eight listed modes, a duration between 0 and 1440 minutes when given, and no unknown key. |
| `Schemas.LoadRecs` | src/core/schemas.py:235-254 | Accepted recommendations have every field, copy each known field given, fill the others with their defaults, ignore unknown keys, and every value has its declared type. |
| `Schemas.LoadRecsDefaults` | src/core/schemas.py:235-254 | An object with no known key validates to the record of defaults: empty lists and maps, and `None`. |
| `Schemas.RecsRatingBound` | src/core/schemas.py:245 | The child-friendliness rating of accepted recommendations is absent or an integer from 1 to 5. |
| `Candidates.Load` | src/core/schemas.py:111-215 | A candidate validates only from an object with a string `name` and no key outside its record; the name is kept. |
| `Candidates.LoadRest` | src/core/schemas.py:111-215 | The fields other than id, name, url and address are the defaults (`evidence_score`, `tags`, `transfer`) overridden by the given non-null fields, each validated against its declared bound. |
| `Candidates.LoadWellFormed` | src/core/schemas.py:111-215 | Whatever validation accepts is well formed: fields within their bounds, times and URLs stripped, and no id or address on a transport option. |
| `Candidates.LoadDump` | src/core/schemas.py:111-215 | A well-formed candidate dumped without `None` fields validates back to itself. |
| `Candidates.LoadDumpFull` | src/core/schemas.py:111-215 | A well-formed candidate dumped with every field, `null` where unset, validates back to itself. Nested transfer legs are included. |
| `Candidates.DumpFull` | src/core/schemas.py:111-215 | The full dump of a candidate has exactly the keys of its category's record. |
| `Candidates.TransferNormal` | src/core/schemas.py:193-201 | A valid transfer leg is stored with a string name and place, stripped times, a duration within 0 to 10080 minutes, and no null field. |
| `Candidates.TransferIdempotent` | src/core/schemas.py:193-201 | Validating a stored transfer leg again gives it back unchanged. |
| `Candidates.KindIdempotent` | src/core/schemas.py:142 | Validating a stored field value of any kind again gives it back unchanged; the bounds include evidence score 0 to 1 and activity duration 0 to 720. |
| `Candidates.LoadTransportCore` | src/core/schemas.py:204-215 | An intercity transport option never carries an id or an address. |
| `Candidates.LoadUrl` | src/core/types.py:13-19 | The URL a candidate keeps is the validated, stripped form of the one given. |
| `Reducer.Merge` | src/core/reducer.py:9-77 | A missing incoming value keeps the held one; a missing held value adopts the incoming one; otherwise the result is at most as long as both lists together. |
| `Reducer.MergeReplaces` | src/core/reducer.py:35-56 | When both lists are non-empty, the incoming one is no longer, and its ids (or, without ids, its name/url/address keys) are all held, the incoming list replaces the held one. |
| `Reducer.MergeSelection` | src/core/reducer.py:35-56 | Any non-empty selection of held candidates, no longer than the held list, replaces it exactly. |
| `Reducer.MergeSelf` | src/core/reducer.py:35-56 | Merging a non-empty list with itself leaves it unchanged. |
| `Reducer.MergeAppends` | src/core/reducer.py:58-77 | On the append path, the held list is an unchanged prefix of the result, and the rest is a subsequence of the incoming list. It keeps every incoming item without an id, and each new id once. The result length is between the held length and the sum of both. |
| `Reducer.MergeKeepsIdsDistinct` | src/core/reducer.py:58-77 | On the append path, if the held ids are pairwise distinct then so are the merged ids. |
| `Reducer.DedupMatchesSpec` | src/core/reducer.py:62-72 | The forward loop that skips seen ids keeps the same items as an item-by-item description: an item stays when it has no id or its id is neither held nor kept earlier. |
| `Reducer.DedupSubseq` | src/core/reducer.py:62-72 | The appended items appear in the incoming list in the same order. |
| `Reducer.DedupKeepsNoId` | src/core/reducer.py:66-68 | Every incoming item with a missing or empty id is appended, in order. |
| `Reducer.DedupIds` | src/core/reducer.py:62-72 | The ids appended are exactly the incoming ids not already held. |
| `Reducer.DedupDistinct` | src/core/reducer.py:62-72 | No appended item repeats a held id or an id appended before it. |
| `Reducer.MergeWritten` | src/core/reducer.py:9-23 | On the values nodes actually write, a model or a dumped dictionary: a missing value on either side behaves as in `Merge`, and two models merge exactly as `Merge` does. When both sides are present, the merge raises exactly when the incoming value is a dictionary, whose type has no `model_fields`. |
| `Nodes.ExtractAgentOutput` | src/core/nodes.py:31-47 | The default replaces a missing structured response only, not a `None` one. Missing messages become the single "Empty response" message. |
| `Nodes.MakeResearch` | src/core/nodes.py:49-68 | The agent receives the stripped prompt as a named human message. On failure the update is the category default plus an "Error: ..." message, unless reading the agent's history raises too. |
| `Nodes.ResearchUpdate` | src/core/nodes.py:159-254 | A candidate research node sets its own category's list and nothing else. |
| `Nodes.RecommendationsUpdate` | src/core/nodes.py:256-270 | The recommendations node sets the recommendations and no candidate list. |
| `Nodes.FailedResearchKeepsList` | src/core/nodes.py:61-68 | A failed research call falls back to the empty list, which the reducer merges into the held list without changing it. |
| `Nodes.Apply` | src/core/schemas.py:284-322 | Folding a node's update into the state appends its messages and merges only the lists it names. A missing plan leaves the plan alone, and the other keys are unchanged. |
| `Nodes.ApplyNoUpdate` | src/core/nodes.py:345-346 | The empty update leaves the state as it was. |
| `Nodes.Entries` | src/core/nodes.py:315-343 | Every category asked about that has a non-empty list gets an entry, and every entry is such a category; there are never more entries than categories. |
| `Nodes.EntriesAreFiltered` | src/core/nodes.py:315-343 | The entries are the categories with options in the order lodging, intercity transport, activities, food. Each carries every candidate's full dump. |
| `Nodes.Assemble` | src/core/nodes.py:315-358 | The node does not suspend exactly when no category has options. Otherwise it suspends with the fixed task text, one entry per category with options, and the full dump of the plan or `null`. |
| `Nodes.AssembledOptionsRecover` | src/core/nodes.py:317-343 | Every option offered for review validates back to the stored candidate it was dumped from. |
| `Nodes.ApplyResume` | src/core/nodes.py:364-419 | An accepted answer adds the "Human review completed" message, always sets the plan, and never touches recommendations. |
| `Nodes.ResumeAsWrittenRaises` | src/core/nodes.py:384-419 | With the lists written as the `model_dump()` dictionaries the node returns, a truthy answer for a category whose options the state holds makes the reducer raise. A category the answer leaves alone keeps its channel. |
| `Nodes.ResumeTouches` | src/core/nodes.py:383-417 | A category's list is updated exactly when the answer holds a truthy value under its key: a single object becomes a one-element list, and a list is kept in order. |
| `Nodes.ResumePlan` | src/core/nodes.py:366-381 | A truthy plan answer becomes the new plan, keeping only its truthy directives; an absent or falsy one clears the plan. |
| `Nodes.TruthyPart` | src/core/nodes.py:373-375 | The plan answer keeps exactly its truthy entries, with their values. |
| `Nodes.LoadAll` | src/core/nodes.py:389-416 | A list of answers is accepted exactly when every item validates, giving the candidates in the same order. |
| `Nodes.ResumeWithSelection` | src/core/nodes.py:383-417 | Answering a non-empty selection of well-formed candidates sets that category's list to exactly those candidates and clears the plan. |
| `Nodes.Keep` | src/core/nodes.py:373-378 | A plan sent back through review keeps exactly the directives that have some field set, unchanged. |
| `Nodes.PlanAnswerOfDump` | src/core/nodes.py:367-379 | Reading back a plan dumped without `None` fields gives the plan minus its empty directives. |
| `Nodes.Requested` | src/core/nodes.py:430-443 | The categories routed to are exactly those the plan has a directive for. |
| `Nodes.Route` | src/core/nodes.py:424-445 | The route always names some node; when it names the planner it names nothing else. |
| `Nodes.RouteToPlanner` | src/core/nodes.py:424-445 | The route goes to the planner exactly when there is no plan or the plan has no directive. |
| `Nodes.RouteTargets` | src/core/nodes.py:424-445 | A research node is routed to exactly when its category has a directive, even one asking for zero candidates; only research nodes and the planner are ever routed to. |
| `Nodes.RouteOrdered` | src/core/nodes.py:433-443 | Research nodes are routed in the order activities, food, lodging, intercity transport. |
| `Nodes.EmptyReviewRoutesAgain` | src/core/nodes.py:345-346 | When review has nothing to offer it returns no update, so the route is decided by the plan already held. |
| `Graph.Build` | src/core/graph_builder.py:58 | The review node is the one whose successors the route decides. |
| `Graph.BuildIgnoresMode` | src/core/graph_builder.py:9-63 | The wiring is the same whatever review mode is requested. |
| `Graph.StepSound` | src/core/graph_builder.py:42-61 | Every step a run takes, fixed edge or route, stays within the successor relation. |
| `Graph.StepComplete` | src/core/graph_builder.py:42-61 | Every member of the successor relation is a step the graph takes under some plan. |
| `Graph.ReviewComplete` | src/core/graph_builder.py:58 | Each research node and the planner is reached out of review under a suitable plan. |
| `Graph.RunIsPath` | src/core/graph_builder.py:42-61 | A run whose plan changes between steps is still a path through the successor relation. |
| `Graph.PathPhases` | src/core/graph_builder.py:42-50 | Every run starts with START, the budget estimate, research planning and then a research node. |
| `Graph.PlanningOnce` | src/core/graph_builder.py:42-61 | On every run the budget estimate and research planning each occur exactly once, both before any research node. |
| `Graph.EndOnlyAfterPlanner` | src/core/graph_builder.py:61 | Only the planner leads to END, and it leads nowhere else, so there is no automatic loop from planner to research. |
| `Graph.FanOutFanIn` | src/core/graph_builder.py:46-56 | Research planning fans out to exactly the five research nodes, and review is each research node's only successor. |
| `PostProcessing.NewHook` | src/core/post_processing.py:31-36 | The hook is built exactly for the five known output types, with nothing captured; any other name is refused with the source's message. |
| `PostProcessing.NewHookNames` | src/core/post_processing.py:35-36 | Every output type is accepted under its own name. |
| `PostProcessing.OnChainStart` | src/core/post_processing.py:38-40 | Starting a chain forgets any captured text. |
| `PostProcessing.OnLlmEnd` | src/core/post_processing.py:42-56 | The text of the first generation of the first batch is captured when it exists; otherwise the hook is unchanged. |
| `PostProcessing.UniqueFrom` | src/core/post_processing.py:151 | The candidate texts are tried once each, in order of first appearance. |
| `PostProcessing.FirstParse` | src/core/post_processing.py:151-160 | Parsing fails exactly when no candidate parses; a success is the parse of one of the candidates. |
| `PostProcessing.FirstParseWins` | src/core/post_processing.py:151-156 | The earliest candidate that parses decides the result. |
| `PostProcessing.FirstParseUnique` | src/core/post_processing.py:151 | Dropping repeated candidates does not change which one wins. |
| `PostProcessing.FirstOpening` | src/core/post_processing.py:139-144 | The span starts at the first `{` or `[` in the stripped text. |
| `PostProcessing.ParseCandidates` | src/core/post_processing.py:127-148 | The candidates are non-empty, and the stripped text, when non-empty, is tried first, before the fenced blocks and the bracket span. |
| `PostProcessing.ExtractJson` | src/core/post_processing.py:122-160 | Empty text gives nothing; any result is the parse of one of the candidates. |
| `PostProcessing.ExtractJsonFirst` | src/core/post_processing.py:122-160 | Extraction is the first parsing candidate; it fails exactly when none parses; stripped text that parses wins. |
| `PostProcessing.NormaliseCollection` | src/core/post_processing.py:214-236 | A dict with a listed key gives that list, `[]` for null or `[v]` for a scalar. A dict without one is itself the one entry. A list is itself, null is empty, and anything else is one entry. |
| `PostProcessing.FirstKey` | src/core/post_processing.py:223-224 | The collection key used is the first listed key present. |
| `PostProcessing.TransformLegs` | src/core/post_processing.py:270-287 | The transformed transfer list holds only valid legs; iterating a number or a boolean raises. |
| `PostProcessing.TransformLegsKeeps` | src/core/post_processing.py:275-286 | The legs kept are exactly the valid ones, in their order. |
| `PostProcessing.TransformedLegsValidate` | src/core/post_processing.py:270-287 | After the transform the `transfer` field passes the candidate's own validation. |
| `PostProcessing.Transform` | src/core/post_processing.py:270-287 | The transform changes no key and no field other than `transfer`. |
| `PostProcessing.BuildItems` | src/core/post_processing.py:162-212 | The items built are never more than the entries. |
| `PostProcessing.BuildItemsAppend` | src/core/post_processing.py:176-210 | Entries are handled one by one, in order: building distributes over concatenation. |
| `PostProcessing.BuildItemsOne` | src/core/post_processing.py:176-210 | One entry yields its candidate when it is a dict that survives the transform and validation, and nothing otherwise. |
| `PostProcessing.BuildItemsExtremes` | src/core/post_processing.py:176-210 | When no entry survives the result is empty; when every entry survives nothing is dropped. |
| `PostProcessing.Wrap` | src/core/schemas.py:156-222 | A wrapper is built exactly when it is given its own field name, since wrappers forbid other keys. |
| `PostProcessing.Convert` | src/core/post_processing.py:98-120 | Parsed JSON of a candidate category always converts, to a list of that category, unless it is null. Recommendations convert exactly when they validate. |
| `PostProcessing.ConvertScalar` | src/core/post_processing.py:232-236 | A scalar where a collection is expected converts to an empty list, not a failure. |
| `PostProcessing.ConvertWrapper` | src/core/post_processing.py:238-296 | The wrapper JSON of well-formed candidates converts back to exactly those candidates. |
| `PostProcessing.TransportAsWrittenFails` | src/core/post_processing.py:289-296 | As written, transport conversion never succeeds, whatever the agent returned. |
| `PostProcessing.TrainPayloadConverts` | src/core/post_processing.py:289-296 | A one-train transport payload converts to nothing as written and to one candidate once the wrapper is given its field. |
| `PostProcessing.TrainItemLoads` | src/core/schemas.py:193-215 | The sample train item validates as a transport option with its name, its one leg and no other field set. |
| `PostProcessing.AsWrittenAgrees` | src/core/post_processing.py:238-300 | The wrong field name affects only transport conversion. |
| `PostProcessing.OnChainEnd` | src/core/post_processing.py:58-82 | An explicit text replaces the captured one, and a present structured response is returned untouched. Conversion runs only with none and a non-empty text; a successful one is stored in the outputs, while a failure changes nothing and returns `None`. Without a text given and with no string under `output`, the captured text is kept. |
| `PostProcessing.ConvertResponse` | src/core/post_processing.py:84-96 | A present structured response is returned as it is, without touching the hook. |
| `PostProcessing.ConvertResponseText` | src/core/post_processing.py:84-96 | With no structured response, the text given or found under `output` is converted. |
| `PostProcessing.ConvertOutputText` | src/core/post_processing.py:88-96 | A non-empty string under `output`, with no text given and no structured response, is the text converted. |
| `PostProcessing.ConvertArgText` | src/core/post_processing.py:84-96 | A non-empty text given to `convert`, with no structured response, is the text converted. |
| `PostProcessing.ConvertUsesCapture` | src/core/post_processing.py:63-72 | The captured text is used when the response has neither a structured value nor a text. |
| `PostProcessing.ConvertRawWrapper` | src/core/post_processing.py:98-120 | Raw text that parses as the wrapper of well-formed candidates converts to those candidates. |
| `Response.DetermineStatus` | src/api/response_builder.py:32-40 | The status is "interrupt" whenever the run suspended. Otherwise it is "needs_follow_up" when the final plan has any research plan, even an empty one. Next comes "complete" with a final plan, and "no_plan" without one. |
| `Response.StatusNameInjective` | src/api/response_builder.py:32-40 | The four statuses have distinct names. |
| `Response.ExtractInterrupt` | src/api/response_builder.py:21-29 | The interrupt is a copy of the first value when the list is non-empty and that value is a mapping, and none otherwise. |
| `Response.InterruptImpliesStatus` | src/api/response_builder.py:21-48 | A response carrying an interrupt always has the "interrupt" status. |
| `Response.ReviewSuspensionReported` | src/api/response_builder.py:21-40 | A run suspended by review reports the "interrupt" status with the node's task text and selection entries. |
| `Response.ListFrom` | src/api/response_builder.py:50-88 | A category list is the wrapper's list, a truthy dict's same-named entry, or a truthy list as is. Absent or falsy data gives nothing, and so does a model without that attribute. |
| `Response.ResponseListMatchesState` | src/api/response_builder.py:80-88 | For a typed state every category's response list is the state's list dumped, or nothing when unresearched. Transport reads the `transport` field. |
| `Response.ResponseListOfDict` | src/api/response_builder.py:50-58 | A dict holding a wrapper's dump shows the same list as the wrapper. |
| `Response.RenderMessages` | src/api/response_builder.py:6-18 | Rendering keeps the count and order of messages. A string content is copied verbatim, other content uses `repr` of the message, and a non-message uses `str`. |
| `Response.RenderStateMessages` | src/api/response_builder.py:6-18 | A state's messages render as their contents, in order. |
| `Response.ToResponse` | src/api/response_builder.py:43-103 | The response shows an interrupt only with the "interrupt" status, lists a category exactly when the state has one, and its messages are the contents of the state's messages, in order. |
| `Session.MissingSettings` | src/api/app.py:155-156 | The missing settings are exactly the required ones that are absent or empty, in list order. |
| `Session.EnsureConfiguration` | src/api/app.py:155-161 | Configuration passes exactly when every required setting is set; otherwise it fails, naming the missing ones joined by ", ". |
| `Session.ErrorMessage` | src/api/app.py:477-482 | The service has a message of its own exactly for the missing-id, unknown-thread, no-options and out-of-range errors. The unknown-thread message names the id as `str` renders it, and the other two name the offending key. |
| `Session.LookupThread` | src/api/workflow_service.py:265-270 | A config is accepted only with a `configurable` object naming a known thread. |
| `Session.LookupMadeConfig` | src/api/workflow_service.py:179-191 | A config made for a thread leads back to it when it is known. An unknown thread is refused by name, and an empty id as missing. |
| `Session.StoreResult` | src/api/app.py:264-273 | The latest result is always stored. Contexts, configs and timestamps are untouched, and no other thread's interrupt changes. |
| `Session.StoreResultMatchesResponse` | src/api/workflow_service.py:198-207 | The stored interrupt is the one the response shows, and it is dropped when the result has none. A non-mapping interrupt leaves the stored one in place. |
| `Session.StoredOptions` | src/api/app.py:298-312 | The options of a category are its stored candidates, in order, and none when it was not researched. |
| `Session.ResolveAsWritten` | src/api/app.py:308-312 | As written, a stored wrapper resolves to one `(field, list)` pair rather than to its candidates. |
| `Session.PutSingle` | src/api/app.py:334-343 | No index leaves the payload alone. Empty options or an index outside the range raise, naming the key or the index. Otherwise the payload holds exactly the dump of the chosen option. |
| `Session.FirstBadIndex` | src/api/app.py:380-383 | The first index outside the range is reported, and none exactly when all are in range. |
| `Session.DumpChosen` | src/api/app.py:384-386 | The chosen options are dumped in the order chosen, duplicates kept. |
| `Session.PutMulti` | src/api/app.py:373-387 | No list leaves the payload alone. Empty options or an index outside the range raise. Otherwise the payload holds the dumps of the chosen options, in the given order; an empty list gives `[]`. |
| `Session.PayloadWithoutState` | src/api/app.py:282-293 | With no stored state, the payload holds at most the research-plan override. |
| `Session.PayloadKeepsPlan` | src/api/app.py:295-296 | A research-plan override is copied into any payload, dumped without `None` fields, whatever the selections. |
| `Session.PayloadKeepsPlanWith` | src/api/app.py:295-296 | The override survives whatever the options resolve to: no selection step writes its key, so the as-written resolver keeps it too. |
| `Session.Pick` | src/api/app.py:379-384 | The picked candidates are those at the given indices, in order. |
| `Session.MultiPayload` | src/api/app.py:373-387 | Choosing activities or food by indices builds exactly the answer of those candidates. |
| `Session.SinglePayload` | src/api/app.py:334-343 | Choosing lodging or transport by an index in range builds exactly that candidate's dump. |
| `Session.SingleOutOfRange` | src/api/app.py:340-341 | An index outside the range is refused, naming the key and the index. |
| `Session.SelectionNarrowsState` | src/api/app.py:373-387 | End to end, indices chosen for activities or food and answered to the review node leave exactly those candidates as the category's list, once the review node's lists reach the reducer as models rather than dumped dictionaries. |
| `Session.SelectionAsWrittenRaises` | src/core/reducer.py:19-23 | End to end as written, any non-empty activities or food selection of held options is accepted by the payload and the review node, then makes the reducer raise on the dumped dictionary. This includes a selection with repeats longer than the list. |
| `Session.RunAndStore` | src/api/workflow_service.py:249-255 | A successful run is stored under its thread and returned with the config; a failing run changes nothing. |
| `Session.PlanTrip` | src/api/workflow_service.py:237-255 | Planning allocates thread `trip_<uuid>`, stores its context and a fresh config, clears any pending state, and stores the run's result under it. |
| `Session.PlanTripResumable` | src/api/workflow_service.py:237-241 | The config a planning run returns leads back to its thread. |
| `Session.ResumeTrip` | src/api/app.py:494-503 | When building the payload fails, the graph is not run and the stored states and interrupts are unchanged. |
| `Session.ResumeAsWrittenDropsSelections` | src/api/app.py:481-502 | As written, a resume of a known thread builds its payload against a fresh thread with an empty store, then resumes the named thread through the client's config with that empty answer. Success depends only on that run, the result is stored under the fresh id, and the named thread's stored result is left as it was. |
| `Session.ResumeUsesSelection` | src/api/app.py:473-503 | Without the thread swap, the selection built from the named thread's state reaches the graph. |
| `Session.ResolveAsWrittenRefuses` | src/api/app.py:308-343 | As written, choosing lodging fails. With the options read as candidates, index 1 gives that candidate's dump. |
| `Session.FinalPlan` | src/api/workflow_service.py:257-280 | A missing or unknown thread is refused before the graph runs, with nothing changed. |
| `Session.FinalPlanAnswerGoesToPlanner` | src/api/workflow_service.py:274-278 | The final-plan answer names no plan and no category, so review clears the plan, narrows no list and routes to the planner. |
| `Session.ExtraResearch` | src/api/workflow_service.py:282-304 | A missing or unknown thread is refused before the graph runs, with nothing changed. |
| `Session.ExtraResearchAnswer` | src/api/workflow_service.py:299-303 | The extra-research answer becomes the plan without its empty directives, and no list changes. |
| `Session.OldThreads` | src/api/workflow_service.py:157-162 | The stale threads are exactly those stamped strictly before now minus the age limit. |
| `Session.CleanupThread` | src/api/workflow_service.py:164-166 | Cleaning a thread forgets its context, config, state, interrupt and timestamp. |
| `Session.CleanupOldThreads` | src/api/workflow_service.py:151-168 | Every stale thread is forgotten, every other thread is kept unchanged, and the report gives the count. |
| `Session.CleanupAsWrittenFails` | src/api/workflow_service.py:164-165 | As written, cleanup raises exactly when there is a stale thread, and otherwise agrees with the corrected cleanup. |
| `Session.FreshThreadSurvives` | src/api/workflow_service.py:159-162 | A thread stamped now survives cleanup with a non-negative age limit. |
| `Amadeus.Section` | src/services/amadeus/client.py:34-39 | A section is the truthy code and title joined by a space, then ": detail" or the detail alone. As written, it fails exactly when a truthy code or title, or a lone truthy detail, is not a string. |
| `Amadeus.Sections` | src/services/amadeus/client.py:29-41 | Sections are taken from dict entries only and empty ones are dropped. Rendering every part with `str` never fails. |
| `Amadeus.SectionsSkipNonDicts` | src/services/amadeus/client.py:31-33 | Entries that are not dicts contribute nothing. |
| `Amadeus.SectionsAgree` | src/services/amadeus/client.py:29-41 | On entries whose truthy values are strings, the sections as written and as intended agree. |
| `Amadeus.FirstString` | src/services/amadeus/client.py:44-48 | The fallback details are the first of result, message and error present with a string value. |
| `Amadeus.Format` | src/services/amadeus/client.py:14-52 | The message always starts with the prefix, and when anything follows it is ": " and the details. |
| `Amadeus.PrefixCases` | src/services/amadeus/client.py:49 | The prefix is "HTTP <status>" exactly when there is a truthy status, and "Amadeus API error" otherwise. |
| `Amadeus.EmptyBodyIsPrefix` | src/services/amadeus/client.py:21-22 | A missing or empty body gives the bare prefix. |
| `Amadeus.UnparsedBodyReported` | src/services/amadeus/client.py:23-26 | A body that is not JSON is reported stripped, unless it is only whitespace. |
| `Amadeus.FallbackReported` | src/services/amadeus/client.py:44-52 | With no error sections, the first string among result, message and error is reported. |
| `Amadeus.SectionsReported` | src/services/amadeus/client.py:42-51 | The sections of an `errors` list are reported joined by "; ", in order. |
| `Amadeus.AsWrittenAgrees` | src/services/amadeus/client.py:14-52 | The message as written equals the intended one whenever every code, title and detail is a string. |
| `Amadeus.NumericCodeRaises` | src/services/amadeus/client.py:37 | As written, an error entry with a numeric code raises instead of producing a message; the intended message is "HTTP 400: 477 INVALID FORMAT". |
| `Documents.RemoveChar` | src/services/tavily_search/client.py:17 | Removing a character leaves every other character and none of that one. |
| `Tavily.Clean` | src/services/tavily_search/client.py:13-18 | Cleaned text has no carriage return and no leading or trailing whitespace. |
| `Tavily.ProcessPages` | src/services/tavily_search/client.py:5-22 | The loop returns exactly the cleaned pages that are kept, in order. |
| `Tavily.SpecSingle` | src/services/tavily_search/client.py:9-21 | A page is skipped when it is empty. It is kept, with its text cleaned, exactly when the cleaned text is longer than 50 characters. |
| `Tavily.SpecAppend` | src/tools/internet_search.py:20-34 | Pages are processed independently and in order: the result for two runs of pages is the first result followed by the second. |
| `Tavily.SpecClean` | src/tools/internet_search.py:29-33 | Every page returned has no carriage return, no surrounding whitespace, and more than 50 characters. |
| `Tavily.CleanStable` | src/tools/internet_search.py:24-33 | Pages already clean, under substitutions that leave them alone, come back unchanged and all kept. |
| `Reddit.PayloadText` | src/services/reddit/client.py:26-28 | The report is a dict's "result" entry when there is one, otherwise the payload itself, and only a string is read. |
| `Reddit.ResultUnwrapped` | src/tools/reddit_search.py:55 | A dict wrapping the report under "result" reads the same as the bare report. |
| `Reddit.NoTextNoDocuments` | src/tools/reddit_search.py:55-57 | A payload that gives no string gives no documents. |
| `Reddit.CleanTitle` | src/services/reddit/client.py:32 | A cleaned title neither starts nor ends with a quote character, and it is no longer than the matched group. |
| `Reddit.CleanSubreddit` | src/services/reddit/client.py:34 | A cleaned subreddit does not end with a colon. |
| `Reddit.Score` | src/services/reddit/client.py:38-53 | The score is a number exactly when the stripped group is a non-empty run of digits, and `None` otherwise. |
| `Reddit.ScoreRoundTrip` | src/tools/reddit_search.py:67-82 | A number written in decimal, with any whitespace before it and any whitespace after it, reads back as that number. |
| `Reddit.Content` | src/services/reddit/client.py:40-41 | The content is the title and body joined by a blank line and stripped, or the URL when that is empty, with links removed. |
| `Reddit.BlankPostUsesUrl` | src/tools/reddit_search.py:69-70 | A post with blank title and body is represented by its URL. |
| `Reddit.MetadataMap` | src/services/reddit/client.py:46-54 | The metadata has exactly the seven keys, is tagged with source "reddit", and holds the score as an integer or `null`. |
| `Reddit.ToDocument` | src/tools/reddit_search.py:72-83 | A document's metadata is the post's cleaned groups, and its content is the post's content. |
| `Reddit.ParseRedditResults` | src/services/reddit/client.py:10-57 | A payload without a string gives no documents; otherwise there is one document per match, in match order, each tagged "reddit". |

## Left out

- The LLM calls of the budget-estimate, research-plan and planner nodes. The prompts in `src/core/prompts.py` are text, and their outputs are opaque values of the state.
- The LangGraph runtime:
  - checkpointing, the `interrupt` coroutine, parallel execution of the fan-out and the recursion limit;
  - the graph is a parameter of the session functions, and its wiring is modelled as a successor relation;
  - the `add_messages` reducer is modelled as plain appending, so message ids and in-place replacement are not modelled.
- Agent construction (`src/core/agents_builder.py`), tool factories, the HTTP clients (TripAdvisor, Amadeus SDK, Tavily, Reddit), geocoding and the retrieval pipeline. These are I/O whose results enter only as parameters.
- Python's `json.loads` and the regular expressions:
  - both are parameters;
  - the `\w` class and `isdigit` are read as ASCII;
  - there is no Unicode normalisation.
- `uuid4()`, `datetime.now()` and `date.today()`: they are arguments.
- Floating-point arithmetic: money, ratings and coordinates are `real`, and the budget total is exact.
- Python's `str` of floats and containers and `repr` of messages: they are parameters (the `show` function never returns an empty string).
- The FastAPI endpoints in `src/api/app.py` beyond the service methods: request parsing and HTTP status codes.
- `dependencies.py`, `config.py` and `src/api/schemas.py`: configuration loading and request models.
- `make_budget_estimate_node`, `make_research_plan_node` and `make_planner_node`: each is a single LLM call whose result is written to one state key.
- `Types` numeric predicates (`IsLat`, `IsLon`, `IsRating`, `IsNonNegMoney`, `IsIso4217`): these are predicates without a contract of their own. They are stated as used by candidate validation.
- `Reddit.CleanTitle`: states that no surrounding quote remains and the length bound, not the exact number of characters removed.
- `Tavily.ProcessPages`: the four regular-expression substitutions are one `subs` parameter, so what they remove is not modelled. The document is modelled as a value, so the source's in-place update of `page_content` is not visible.
- `PostProcessing.Convert`: per-item validation is the candidate validation of `Candidates.Load`, and pydantic's lax coercion (numeric strings, and so on) is not modelled.
- `Candidates.Load`: values must already have their declared JSON type, so pydantic's lax coercion is not modelled. For example `"duration_min": 90.0`, `"duration_min": "90"` and `"refundable": "true"` are refused here but accepted by pydantic.
- `Schemas.LoadHop`: the same strict typing as `Candidates.Load`, without pydantic's lax coercion of numeric strings and floats.
- `Schemas.LoadRecs`: the same strict typing as `Candidates.Load`, without pydantic's lax coercion.
- `Schemas.LoadDirective`: the same strict typing as `Candidates.Load`, without pydantic's lax coercion.
- `Nodes.ApplyResume`: the update carries the selected lists as candidate lists, and `Nodes.Apply` merges them as models. The node actually writes `model_dump()` dictionaries, on which the reducer raises; that path is `Nodes.ResumeAsWrittenRaises`, listed under Findings.
- `Types.ValidateUrl`: the pattern's `\w` is read as ASCII letters, digits and underscore. Pydantic's regex engine matches any Unicode word character there, so a URL with a non-ASCII letter is refused here but accepted by pydantic.
- `Types.ValidateTime`: the pattern's `\d` is read as ASCII `0`-`9`. Pydantic's regex engine matches any Unicode decimal digit there, so `"1\u0662:30"` is refused here but accepted by pydantic.
- `Session.ErrorMessage`: the messages of the errors Python raises itself (`AttributeError`, `TypeError`, the graph's own errors) are not modelled.
- `Nodes.MakeResearch`: what the agent's state history returns is not modelled; only whether reading it raises.
- `Session.StoreResult`: the interrupt's `.value` attribute is read as the value itself, because the model stores interrupt values directly.

Observations about the source that are not defects of the model:

- The thread timestamps that `cleanup_old_threads` reads are never written by any method, so in practice nothing is ever stale (`src/api/workflow_service.py:151-168`).
- `make_research` reads the agent's state history inside its exception handler (`src/core/nodes.py:64`). If that raises too, the node fails; the model reports this as an error.
- The multi-select doc at `src/api/app.py:84-91` promises that an empty index list keeps all options, but the code sends `[]`. The review node treats `[]` as falsy, so the state is left untouched.
- `final_plan` sends `{"selections": …}`, which the review node does not read. That answer clears the plan and routes to the planner (`Session.FinalPlanAnswerGoesToPlanner`).
- `plan_trip` in `src/api/app.py` starts from no messages, while the one in `src/api/workflow_service.py` starts from one human message. The model takes the messages as an argument.
- `tests/test_domain.py` passes a `recommendations` key to `ResearchPlan`, which forbids extra keys, so that construction is refused (`Schemas.LoadPlan`).

## Findings

| source | as written | input that shows it | evidently intended | confidence | as-written member | corrected member |
|---|---|---|---|---|---|---|
| src/core/post_processing.py:295 | The transport wrapper is built with field `intercity_transport`, but `IntercityTransportAgentOutput` declares `transport` and forbids other keys, so construction always raises and conversion returns `None`. | `{"transport": [{"name": "Shinkansen", "transfer": [{"name": "Tokyo Station", "place": "Tokyo"}]}]}` | `output_field="transport"`, giving one candidate | high (not executed) | `PostProcessing.TransportAsWrittenFails` | `PostProcessing.ConvertWrapper` |
| src/api/app.py:308-312 | `list(output)` of a pydantic wrapper iterates its fields, so the options are one `(field, list)` pair. Index 0 then fails on `model_dump` and any other index is out of range. | a stored lodging list of two candidates, selection `lodging = 1` | the wrapper's candidate list, so index 1 selects the second candidate | high (not executed) | `Session.ResolveAsWrittenRefuses` | `Session.SinglePayload` |
| src/api/app.py:481-489 | The `else` after the unknown-thread check runs for a known thread and swaps it for a fresh id. The payload is then built against an empty store, so selections are dropped. | a known thread with stored activities, selection `activities = [0]` | keep the known thread id, so the selection reaches the review node | high (not executed) | `Session.ResumeAsWrittenDropsSelections` | `Session.ResumeUsesSelection` |
| src/api/workflow_service.py:165 | `self.cleanup_thread` is not defined on the class, so cleanup raises `AttributeError` at the first stale thread. | one thread stamped two hours ago, age limit 60 minutes | forget every stale thread and report the count | high (not executed) | `Session.CleanupAsWrittenFails` | `Session.CleanupOldThreads` |
| src/services/amadeus/client.py:37 | `" ".join` of the code and title raises `TypeError` when the code is a number, which is how Amadeus sends error codes. | status 400, body `{"errors": [{"code": 477, "title": "INVALID FORMAT"}]}` | "HTTP 400: 477 INVALID FORMAT" | medium (not executed) | `Amadeus.NumericCodeRaises` | `Amadeus.Format` |
| src/core/nodes.py:390 | The review node returns each selected list as the `model_dump()` of its wrapper, a plain dictionary. The category's reducer then reads `type(new).model_fields`, which `dict` lacks, so it raises whenever the state already holds that category's options, which it always does when review offered them. This holds as long as the runtime hands node updates to reducers unvalidated. | held activities `[a, b]`, resume answer `{"activities": [dump(a)]}` | return the wrapper itself, so the selection replaces the list | medium (not executed) | `Session.SelectionAsWrittenRaises` | `Session.SelectionNarrowsState` |
