# azure-pim-cli in Dafny

This project models the core of `az-pim`, a command-line tool for Azure
Privileged Identity Management (PIM). Its central entity is a *role
assignment*: a role, the resource scope it applies to, the scope's display
name, the role-definition id, and optionally a principal and a directory
object. Assignments are kept in an ordered set. The model covers the
following parts of the tool:

- **Scopes** (`Scopes`, `scope.dfy`): `/`-separated resource paths.
  - constructors for subscription, resource-group and provider scopes;
  - `is_subscription`, `subscription` and segment-wise `contains`;
  - the `ScopeBuilder` that turns command-line arguments into a scope.
- **Role assignments** (`RoleModel`, `role_model.dfy`):
  - the derived ordering of `RoleAssignment`;
  - the `RoleAssignments` set, kept as a strictly sorted sequence: `find`, `contains`, `is_empty`, `insert`, `retain`;
  - `parse` of an Azure REST response.
- **Request backend** (`RequestBackend`, `backend.dfy`):
  - the operation tables (name, token scope, API version);
  - the per-scope token cache;
  - `retry_request`, a bounded retry loop with an optional response validator;
  - the `RequestBuilder`, which assembles URL, query, body and bearer token.
- **Activation response check** (`Activate`, `activate.dfy`): `check_error_response`.
- **Directory lookups** (`Directory`, `graph.dfy`):
  - parsing of `getByIds` answers;
  - the process-wide object cache;
  - batching of uncached ids into chunks of 50.
- **Expiring map** (`Cache`, `cache.dfy`): `ExpiringMap`, with the clock as a parameter.
- **Eligible-role listing and `elevate` command** (`Eligible`, `Elevate`).
- **Child resources** (`Resources`): `ChildResource::parse`, which accepts the struct and sequence forms of serde.
- **Interactive selector** (`Interactive`): the `App` state machine (focus, toggling, cursor, duration keys, warnings, Enter/Esc) and `column_widths`.
- **Command-line layer** (`Cli`):
  - `parse_key_val`;
  - `build_set`;
  - the all-or-nothing report of `activate_set`;
  - the verbosity-to-log-level mapping.
- **Orphaned-assignment cleanup** (`Cleanup`): the candidate selection of the cleanup example.
- **Supporting modules**:
  - `Json`: serde_json values, where a missing key indexes to `Null`;
  - `Text`: `split`, `split_once`, `starts_with`, ASCII lowercase, UTF-8 length, decimal formatting;
  - `Order`: lexicographic `Ordering`;
  - `Uuid`: hyphenated lowercase text form.

How the source's constructs are represented:

| In the source | In the model |
|---|---|
| `BTreeSet<RoleAssignment>` | strictly sorted `seq` under the derived order |
| sets whose order the code never observes | Dafny `set` |
| the clock, the `az` CLI (tokens, current user id), the HTTP transport, the Graph endpoint | parameters: a sequence of attempts or a response function |
| state the source mutates in place | a `class` with `modifies` clauses: `ExpiringMap`, `Backend`, `RequestBuilder`, `RoleAssignments`, `DirectoryCache`, `App` |

## Model

| member | source | states |
|---|---|---|
| Text.Split | src/models/scope.rs:53 | `split('/')` always yields at least one piece and no piece contains the separator |
| Text.JoinSplit | src/models/scope.rs:64-65 | joining the pieces of a split with the separator gives back the original string |
| Text.SplitJoin | src/models/scope.rs:64-65 | splitting a join of separator-free pieces gives back the pieces |
| Text.SplitInjective | src/models/scope.rs:64-70 | two paths with the same segments are the same path |
| Text.SplitOnce | src/bin/az-pim.rs:226 | `split_once` returns the text before and after the first separator; the first part holds no separator; None exactly when there is no separator |
| Text.SplitOnceJoined | src/bin/az-pim.rs:226 | splitting `a=b` once, with `=` absent from `a`, returns exactly `(a, b)` |
| Text.Lower | src/models/roles.rs:35-42 | lowercasing keeps the length and folds each character on its own |
| Text.Utf8Len | src/interactive.rs:402-404 | `len()` counts UTF-8 bytes: between one and four per character |
| Text.Utf8LenAscii | src/interactive.rs:402-404 | an ASCII string's byte length equals its character count |
| Text.DecimalRoundTrip | src/elevate.rs:40 | the decimal text of a number reads back as that number |
| Text.DecimalInjective | src/elevate.rs:40 | different numbers have different decimal text |
| Order.CmpStringEqualReverse | src/models/roles.rs:144 | string comparison is Equal exactly on equal strings and is antisymmetric |
| Order.CmpStringTransitive | src/models/roles.rs:144 | string comparison is transitive |
| Order.CmpOptStringEqualReverse | src/models/roles.rs:144 | the derived `Option` order (None first) is Equal exactly on equal values and antisymmetric |
| Order.CmpOptStringTransitive | src/models/roles.rs:144 | the derived `Option` order is transitive |
| Json.Index | src/models/roles.rs:76-82 | indexing yields the field when the key is present, and Null (never another value) otherwise |
| Json.Get | src/models/resources.rs:19 | `get` returns Some exactly when the value is an object holding the key |
| Json.AtAppend | src/models/roles.rs:86-87 | indexing along a concatenated path is indexing along each part in turn |
| Json.AtNull | src/models/roles.rs:76-78 | every path below Null is Null |
| Json.AtMissing | src/models/roles.rs:76-78 | below a missing key, every deeper path is Null and `as_str` gives None |
| Uuid.ParseHexRoundTrip | src/models/scope.rs:59 | hex digits printed and read back give the same nibbles |
| Uuid.Format | src/models/scope.rs:29 | the printed form of a UUID has 36 characters |
| Uuid.ParseFormat | src/models/scope.rs:52-60 | parsing the printed form of a UUID returns that UUID |
| Uuid.FormatInjective | src/models/scope.rs:28-30 | different UUIDs print differently |
| Uuid.FormatNoSlash | src/models/scope.rs:28-30 | a printed UUID holds no `/`, so it is exactly one path segment |
| Scopes.New | src/models/scope.rs:19-25 | a scope is accepted exactly when it starts with `/`, and is kept verbatim; otherwise the error is LeadingSlash |
| Scopes.ContainsReflexive | src/models/scope.rs:63-71 | every scope contains itself |
| Scopes.ContainsTransitive | src/models/scope.rs:63-71 | containment is transitive |
| Scopes.ContainsAntisymmetric | src/models/scope.rs:63-71 | two scopes that contain each other are equal |
| Scopes.FewerSegmentsNotContained | src/models/scope.rs:67-70 | a scope with fewer segments is never inside one with more: a child never contains its parent |
| Scopes.ContainsIffPathPrefix | src/models/scope.rs:63-71 | `a` contains `b` exactly when `b`'s path equals `a`'s or starts with `a`'s path followed by `/` |
| Scopes.ContainsExtension | src/models/scope.rs:63-71 | appending `/` and any text to a scope gives a scope it contains |
| Scopes.SubscriptionSegments | src/models/scope.rs:28-30 | a subscription scope splits into "", "subscriptions" and the UUID |
| Scopes.ConstructorPaths | src/models/scope.rs:28-44 | the resource-group path extends the subscription path by one `/`-segment pair, and the provider path extends the resource-group path |
| Scopes.ConstructorsNest | src/models/scope.rs:28-44 | the subscription contains its resource groups, which contain their providers |
| Scopes.DistinctSubscriptionsDisjoint | src/models/scope.rs:28-30 | scopes of different subscriptions never contain one another |
| Scopes.CharacterPrefixIsNotContainment | src/models/scope.rs:63-71 | resource group `r` is a character prefix of a scope in `rg` but does not contain it: containment is by segments |
| Scopes.SubscriptionInherited | src/models/scope.rs:52-71 | a scope inside one that names a subscription names the same subscription |
| Scopes.ConstructorsSubscription | src/models/roles.rs:185-194 | the constructed scopes report their subscription, and only the subscription scope is `is_subscription` |
| Scopes.Build | src/models/scope.rs:113-135 | `build` gives no scope exactly when no argument is given; an explicit scope is returned as given; a subscription alone gives the subscription scope, with a resource group the resource-group scope, and with a provider the provider scope; every result lies inside the named subscription and resource group and carries that subscription |
| Cache.Sweep | src/cache.rs:24-28 | cleanup keeps exactly the entries whose expiry is still ahead, unchanged |
| Cache.ExpiringMap.constructor | src/cache.rs:17-22 | a new map is empty and keeps the given lifetime |
| Cache.ExpiringMap.Cleanup | src/cache.rs:24-28 | the stored map becomes its sweep at the given time |
| Cache.ExpiringMap.Insert | src/cache.rs:30-35 | insert sweeps, then stores the value with expiry "stamp + lifetime"; it returns the previous live value, leaves other keys unchanged, and the new value stays visible until its expiry |
| Cache.ExpiringMap.ContainsKey | src/cache.rs:48-54 | `contains_key` agrees with `get` |
| Cache.InsertedVisible | src/cache.rs:30-46 | a freshly inserted key reads back its value up to its expiry |
| Cache.ExpiredHiddenButStored | src/cache.rs:37-46 | an expired entry is invisible to `get` but still stored until the next cleanup |
| Cache.BoundaryVisibleThenSwept | src/cache.rs:26 | at exactly its expiry instant an entry is still visible to `get`, yet cleanup removes it |
| Cache.SweepInvisibleLater | src/cache.rs:24-46 | a cleanup at an earlier time never changes what `get` returns later |
| Cache.SweepIdempotent | src/cache.rs:24-28 | cleaning twice at the same instant is cleaning once |
| Cache.SweptAllVisible | src/cache.rs:24-46 | right after cleanup every stored key is visible |
| Cache.InsertGetSweepScenario | src/cache.rs:82-91 | insert then get returns the value; after the lifetime it is gone; a later cleanup plus insert leaves one entry |
| Activate.CheckErrorResponse | src/activate.rs:9-27 | 2xx passes; 400 passes only with the codes RoleAssignmentExists or RoleAssignmentRequestExists; everything else fails with the status and body |
| Activate.BodyMattersOnlyOnBadRequest | src/activate.rs:10-24 | outside status 400 the verdict does not depend on the body |
| Activate.BenignCodeNeedsBadRequest | src/activate.rs:11-24 | the "already exists" codes are forgiven only with status 400 |
| Activate.BadRequestWithoutCodeFails | src/activate.rs:11-24 | a 400 whose body carries neither code fails |
| RequestBackend.OperationNamesDistinct | src/backend.rs:29-39 | the operations have pairwise different path names |
| RequestBackend.OperationTables | src/backend.rs:41-62 | role assignments and role definitions use API version 2022-04-01, the rest 2020-10-01; every operation uses the management token |
| RequestBackend.Backend.GetToken | src/backend.rs:83-92 | a cached token is returned without fetching; otherwise one fetch, whose success is cached and whose failure is reported and not cached |
| RequestBackend.FetchAtMostOncePerScope | src/backend.rs:83-92 | over any sequence of calls, a scope is fetched only while missing, and never again after a successful fetch |
| RequestBackend.GetTokens | src/backend.rs:83-92 | a run of `get_token` calls on one backend asks the provider exactly as the fetch log describes, so only for missing scopes and never again after a success |
| RequestBackend.FirstFinishDecides | src/backend.rs:94-136 | the first attempt that does not ask for a retry decides the outcome |
| RequestBackend.AllRetriesExhaust | src/backend.rs:94-136 | when every allowed attempt asks for a retry, the result is "exhausted retries" |
| RequestBackend.RateLimitIsFinal | src/backend.rs:110-112 | a 429 answer ends the loop with a rate-limit error |
| RequestBackend.ValidatorDecidesFirstResponse | src/backend.rs:118-121 | with a validator, a parsed body's fate is the validator's verdict whatever the status |
| RequestBackend.FailureStatusRetriedWithoutValidator | src/backend.rs:118-125 | without a validator, an error status is retried |
| RequestBackend.RetryRequest | src/backend.rs:94-136 | an uncloneable request fails without sending; otherwise the result is the retry function's, at most RETRY_COUNT attempts are used, all but the last asked for a retry, and stopping early means the last one finished |
| RequestBackend.Url | src/backend.rs:194-199 | the URL starts with the base, the optional scope, the providers path and the operation name, and ends with the extra suffix, with nothing in between |
| RequestBackend.UrlDeterminesScope | src/backend.rs:194-199 | two requests with the same URL, operation and suffix address the same scope |
| RequestBackend.RequestBuilder.constructor | src/backend.rs:158-169 | a new builder has the verb and operation and nothing else set |
| RequestBackend.RequestBuilder.Query | src/backend.rs:171-180 | a query pair is appended to the existing pairs; nothing else changes |
| RequestBackend.RequestBuilder.SetScope | src/backend.rs:145-155 | sets the scope only |
| RequestBackend.RequestBuilder.SetExtra | src/backend.rs:145-155 | sets the URL suffix only |
| RequestBackend.RequestBuilder.SetJson | src/backend.rs:145-155 | sets the body only |
| RequestBackend.RequestBuilder.SetValidate | src/backend.rs:145-155 | sets the validator only |
| RequestBackend.RequestBuilder.Send | src/backend.rs:182-217 | without a token nothing is sent; otherwise the request carries the URL, the api-version and then the caller's query pairs, the bearer token and the body, and its outcome is the retry loop's |
| Directory.ParseObject | src/graph.rs:33-60 | an object is produced exactly when `id` and `displayName` are present; non-strings read as empty; `upn` only when it is a string |
| Directory.ObjectsInFromEntries | src/graph.rs:32-64 | every parsed object comes from some entry of the answer, and there are no more objects than entries |
| Directory.ObjectsInComplete | src/graph.rs:32-64 | every entry that parses contributes its object |
| Directory.ParseObjects | src/graph.rs:32-64 | the loop returns exactly the objects of the answer's `value` array, in order |
| Directory.Chunks | src/graph.rs:79 | chunks of at most 50 flatten back to the input, are never empty, and all but the last are full |
| Directory.FlattenMembers | src/graph.rs:79 | an id is in the flattened chunks exactly when some chunk holds it |
| Directory.Uncached | src/graph.rs:72-75 | exactly the requested ids missing from the cache are fetched |
| Directory.StoreObjectsEffect | src/graph.rs:80-82 | storing objects adds exactly their ids, keeps the map keyed by id, and leaves other ids unchanged |
| Directory.StoreChunksEffect | src/graph.rs:79-83 | answers only add ids, keep the cache keyed by id, and every new id was in some answer |
| Directory.UnansweredIdStaysUncached | src/graph.rs:79-89 | an id no answer mentions stays uncached, so it is absent from the result |
| Directory.DirectoryCache.InsertObjects | src/graph.rs:80-82 | the cache becomes the old cache with the objects stored by id |
| Directory.DirectoryCache.FetchChunks | src/graph.rs:79-83 | chunks are asked in order until the first failure, which is reported; the cache holds what the successful answers stored |
| Directory.DirectoryCache.Collect | src/graph.rs:85-89 | the result holds exactly the requested ids present in the cache, with the cached objects |
| Directory.DirectoryCache.GetObjectsByIds | src/graph.rs:67-92 | only uncached ids are asked, in chunks of 50; a failed chunk stops the call; on success the result maps every requested id now cached to its object |
| Directory.AskedOnlyUncached | src/graph.rs:72-79 | every id sent to the directory was requested and not cached, in a chunk of at most 50 |
| Directory.AskedCoversUncached | src/graph.rs:72-79 | every requested uncached id is sent in some chunk |
| Resources.Deserialize | src/models/resources.rs:22 | an entry is accepted exactly in struct form (`id`, `name`, `type`) or sequence form (three strings), with those fields |
| Resources.DeserializeSerialize | src/models/resources.rs:7-13 | a child resource written as JSON reads back unchanged |
| Resources.Parse | src/models/resources.rs:16-29 | a missing or non-array `value` gives an empty set; otherwise every entry must deserialize and the result is the set of them |
| RoleModel.RoleFromStr | src/models/roles.rs:22-27 | any string is a role name, kept verbatim |
| RoleModel.RoleRoundTrip | src/models/roles.rs:22-27 | a role's name parses back to the role |
| RoleModel.CmpKeysEqualReverse | src/models/roles.rs:144 | the lexicographic field order is Equal exactly on equal keys and is antisymmetric |
| RoleModel.CmpKeysTransitive | src/models/roles.rs:144 | the lexicographic field order is transitive |
| RoleModel.CmpKeysAppend | src/models/roles.rs:144 | comparing concatenated keys compares the first parts, then the rest |
| RoleModel.ObjectKeyOrder | src/graph.rs:10 | the derived order on an optional directory object is the key order of its fields |
| RoleModel.CmpIsKeyOrder | src/models/roles.rs:144-157 | the derived order of `RoleAssignment` is the lexicographic order of its fields in declaration order |
| RoleModel.KeyOfInjective | src/models/roles.rs:144-157 | different assignments have different keys |
| RoleModel.CmpEqualReverse | src/models/roles.rs:144 | assignments compare Equal exactly when equal, and the order is antisymmetric |
| RoleModel.CmpTransitive | src/models/roles.rs:144 | the assignment order is transitive |
| RoleModel.SortedDistinct | src/models/roles.rs:30 | a strictly sorted sequence holds no duplicates |
| RoleModel.InsertSorted | src/models/roles.rs:65-67 | inserting keeps the sequence strictly sorted, adds exactly the new element, and leaves it unchanged when already present |
| RoleModel.FilterSorted | src/models/roles.rs:69-74 | retaining a subset keeps the sequence strictly sorted |
| RoleModel.Filter | src/models/roles.rs:69-74 | the retained elements are exactly those kept by the predicate |
| RoleModel.ContainsSorted | src/models/roles.rs:48-50 | the ordered search reports membership exactly |
| RoleModel.FirstIndex | src/models/roles.rs:37-39 | the index found is the first that satisfies the predicate, or the length |
| RoleModel.FindIn | src/models/roles.rs:34-45 | a found assignment is one of the items |
| RoleModel.RoleAssignments.constructor | src/models/roles.rs:29-30 | a new set is empty |
| RoleModel.RoleAssignments.Find | src/models/roles.rs:34-45 | case-insensitive role match: the first item matching the scope path wins; otherwise the first matching the scope name; None exactly when neither matches |
| RoleModel.RoleAssignments.Contains | src/models/roles.rs:48-50 | true exactly for members |
| RoleModel.RoleAssignments.IsEmpty | src/models/roles.rs:53-55 | true exactly for the empty set |
| RoleModel.RoleAssignments.Insert | src/models/roles.rs:65-67 | the set becomes the sorted insertion; the result says whether the entry was new |
| RoleModel.RoleAssignments.Retain | src/models/roles.rs:69-74 | the set becomes the retained subsequence and stays strictly sorted |
| RoleModel.InsertIdempotent | src/models/roles.rs:65-67 | inserting the same entry twice is inserting it once |
| RoleModel.ParseEntry | src/models/roles.rs:86-137 | an entry is accepted exactly when the four strings are present and the scope starts with `/`; the first missing field, checked as role name, scope id, scope name, definition id, names the error; principal fields only when asked; never a directory object |
| RoleModel.ParseEntries | src/models/roles.rs:85-138 | all entries must parse, and the result lists them in order |
| RoleModel.Parse | src/models/roles.rs:79-141 | a missing `value` array is an error; otherwise the first bad entry's error, or the sorted set of all parsed entries |
| RoleModel.ParseEntriesSnoc | src/models/roles.rs:85-138 | parsing one more entry extends the result or reports that entry's error |
| RoleModel.PrefixErrorPropagates | src/models/roles.rs:85-114 | the first failing entry's error is the error of the whole parse |
| RoleModel.ParsedWithoutPrincipal | src/models/roles.rs:116-127 | without `with_principal`, no parsed entry has principal data |
| Eligible.EntryOf | src/roles.rs:29-55 | an entry is accepted exactly when the four strings are present, copied verbatim; the first missing field, checked as role name, scope id, scope name, definition id, names the error |
| Eligible.AcceptsWhatAssignmentParserAccepts | src/roles.rs:29-55 | every entry the assignment parser accepts is listed here with the same strings |
| Eligible.NoLeadingSlashCheck | src/roles.rs:36-38 | a scope id without a leading `/` is listed here but rejected by the assignment parser |
| Eligible.List | src/roles.rs:24-58 | a missing `value` array is an error; otherwise every entry in order, or the first failing entry's error |
| Elevate.FindEntry | src/elevate.rs:22-26 | the first entry with the configured role and scope, or None exactly when none matches |
| Elevate.RequestUrl | src/elevate.rs:31 | the URL starts with the base, the scope and the schedule-request path, and ends with the printed request id |
| Elevate.RequestUrlInjective | src/elevate.rs:31 | different scopes or request ids give different URLs |
| Elevate.DurationTextRoundTrip | src/elevate.rs:40 | the `PT{n}M` duration reads back as `n` minutes |
| Elevate.RequestBodyFields | src/elevate.rs:32-45 | the body carries the principal, definition, SelfActivate, justification, duration text and AfterDuration at their paths |
| Elevate.ClassifyResponse | src/elevate.rs:54-69 | a 400 with a readable body passes only with an "already exists" code; other error statuses fail; otherwise success needs a readable body |
| Elevate.AgreesWithValidator | src/elevate.rs:56-69 | for success statuses and 400, elevation and the activation validator accept the same answers |
| Elevate.RedirectAcceptedHereOnly | src/elevate.rs:69 | a 302 passes here but fails the activation validator |
| Elevate.ElevateRequest | src/elevate.rs:22-52 | no matching role gives RoleNotFound; a missing user id is reported; otherwise the PUT is the self-activation request for the first matching entry |
| Elevate.ElevateRole | src/elevate.rs:22-75 | request errors come first, then a send failure, then the response classification |
| Elevate.RoleNotFoundWhateverTheAnswer | src/elevate.rs:23-26 | with no matching role, the outcome is RoleNotFound whatever the server would answer |
| Interactive.TabCycle | src/interactive.rs:320-328 | Tab and Shift-Tab are inverse, and Tab cycles through the three sections |
| Interactive.NextIndex | src/interactive.rs:95-108 | the next row wraps from the last row to the first and is always a valid row |
| Interactive.PreviousIndex | src/interactive.rs:110-123 | the previous row wraps from the first row to the last |
| Interactive.NextPreviousInverse | src/interactive.rs:95-123 | moving down then up, or up then down, returns to the same row |
| Interactive.DurationDown | src/interactive.rs:339-341 | Down lowers the duration by one, and gives 1 from 0 or 1 |
| Interactive.DurationUp | src/interactive.rs:342-344 | Up raises the duration by one, never above 480 |
| Interactive.DurationKeysInverse | src/interactive.rs:339-344 | inside the range, Up then Down and Down then Up are identities |
| Interactive.Warnings | src/interactive.rs:125-134 | "justification required" exactly for an empty justification, "selection required" exactly when nothing is ticked; no warnings exactly when neither holds |
| Interactive.EnabledValues | src/interactive.rs:350-355 | the selection holds exactly the ticked values |
| Interactive.EnabledValuesAppend | src/interactive.rs:350-355 | the selection keeps table order: it distributes over concatenation and takes a single row exactly when ticked |
| Interactive.Toggled | src/interactive.rs:87-93 | toggling flips the selected row and changes nothing else |
| Interactive.ToggleTwice | src/interactive.rs:87-93 | toggling twice restores the rows |
| Interactive.Widths | src/interactive.rs:395-406 | each width is the largest byte length of its column, attained by some row unless zero |
| Interactive.ColumnWidths | src/interactive.rs:395-412 | fails exactly when the role width or the wider of the two scope columns exceeds `u16`; otherwise every row fits |
| Interactive.EnabledNonEmpty | src/interactive.rs:130-133 | a selection with a ticked row is non-empty |
| Interactive.App.constructor | src/interactive.rs:64-84 | initial focus depends on the justification; the first row is selected; nothing is ticked; no warnings |
| Interactive.App.ToggleCurrent | src/interactive.rs:87-93 | the rows become the toggled rows |
| Interactive.App.Next | src/interactive.rs:95-108 | the selection moves to the next row and the scrollbar follows |
| Interactive.App.Previous | src/interactive.rs:110-123 | the selection moves to the previous row and the scrollbar follows |
| Interactive.App.Check | src/interactive.rs:125-134 | the warnings become exactly those of the current state |
| Interactive.App.HandleKey | src/interactive.rs:317-362 | each key in each section has exactly the effect in the dispatch table; Esc quits; Enter returns the ticked values only without warnings; the scroll position follows the cursor on Up and Down in the table and is otherwise kept; key releases do nothing |
| Interactive.App.Run | src/interactive.rs:312-368 | an accepted selection is non-empty, carries a non-empty justification when one is asked for, lists exactly the ticked rows and carries the chosen duration; a pressed Esc always ends the loop, and a cancelled run has seen a pressed Esc |
| Interactive.NewApp | src/interactive.rs:59-85 | fails exactly when the column widths overflow; otherwise a fresh app with those widths, the given duration and justification, one unticked row per assignment in order, and no warnings |
| Cli.ParseKeyVal | src/bin/az-pim.rs:219-231 | no `=` is an error; otherwise the text splits at the first `=`, and the pair is Ok exactly when both sides parse; a bad key gives InvalidKey, and a good key with a bad value gives InvalidValue |
| Cli.RoleScopeRoundTrip | src/bin/az-pim.rs:219-231 | `ROLE=SCOPE` reads back the role and scope when the role has no `=` |
| Cli.RoleScopeNeedsSlash | src/bin/az-pim.rs:219-231 | a scope without a leading `/` is rejected with the scope error |
| Cli.Lookup | src/bin/az-pim.rs:418-420 | a found assignment is one of the eligible ones |
| Cli.FoundBounds | src/bin/az-pim.rs:418-426 | at most one assignment per requested pair, each of them eligible |
| Cli.FoundMembers | src/bin/az-pim.rs:418-426 | an assignment is in the set exactly when some requested pair finds it |
| Cli.AllFoundMeans | src/bin/az-pim.rs:418-424 | checking pairs one by one is checking that every pair is found |
| Cli.FindAll | src/bin/az-pim.rs:418-426 | the loop succeeds exactly when every pair is found, returning the found set; otherwise it names the first pair not found |
| Cli.NotFoundStops | src/bin/az-pim.rs:418-424 | one pair not found fails the whole request |
| Cli.BuildSet | src/bin/az-pim.rs:398-427 | the command-line pairs followed by the configuration's all have to be found; the error names the first pair not found |
| Cli.ActivateSet | src/bin/az-pim.rs:429-468 | an empty set, or an unknown current user, fails before any attempt; otherwise every entry is attempted, and the call succeeds exactly when all did |
| Cli.GetLevel | src/bin/az-pim.rs:483-493 | quiet gives Error; otherwise 0, 1 and 2 or more `-v` give Info, Debug and Trace |
| Cli.GetLevelMonotone | src/bin/az-pim.rs:483-493 | more `-v` never lowers the level, and quiet is below every non-quiet level |
| Cleanup.SelectCandidates | examples/cleanup-orphaned-assignments.rs:29-54 | over eligible plus active, the admin roles at subscription scope not yet active are the candidates; their scopes are collected; activation is needed exactly when there are candidates |
| Cleanup.Visit | examples/cleanup-orphaned-assignments.rs:36-53 | one entry is added as a candidate when kept and inactive, and its scope when kept |
| Cleanup.CandidatesConsistent | examples/cleanup-orphaned-assignments.rs:29-54 | candidates are eligible and not active, each candidate's scope is collected, and every collected scope names a subscription |

## Left out

- I/O: the terminal, drawing the UI (`draw`), reading the configuration file, printing JSON, and logging output.
- The clock: `Instant::now()` becomes a parameter of the expiring-map operations.
- The `az` CLI: access tokens and the current user id are parameters of the calls that need them.
- HTTP execution: responses are supplied as a sequence of attempts or as a response function.
  - Request cloning is a boolean.
  - The back-off sleep between retries is not modelled.
- `tokio`/rayon parallelism and mutexes.
  - The parallel activation in `activate_set` is a sequential loop over the same entries with the same all-or-nothing report.
  - The graph cache's lock is not modelled.
- `src/latest.rs`, `src/logging.rs`, `src/lib.rs`, `src/models/definitions.rs`, `src/assignments.rs` and `src/bin/dump-roles.rs` are not part of this model; they are not core.
- The `clap` argument definitions and the commands that only forward to modelled operations are not part of this model.
- The cleanup example's calls to the service are left out. Activating the candidates, waiting for activation and the delete loop (lines 56-71) only forward the selected sets to endpoints outside this model.
- Text.Lower: folds only ASCII letters; Rust's `to_lowercase` also folds non-ASCII letters.
- Uuid.Format: modelled as the lowercase hyphenated form of 32 hex digits. `Uuid.Parse` reads the plain, hyphenated, braced and URN forms; the uuid crate's error messages are not modelled.
- Interactive.App.Next: the scroll position is an unbounded integer; `usize` arithmetic is not modelled.
- Interactive.NewApp: requires at least one assignment. On an empty list the source's `len() - 1` on a `usize` panics in debug builds and wraps in release builds, where the app opens an empty table on which Enter always warns and Esc exits. The model covers neither.
- Interactive.EnabledValues: its own contract states membership only; table order is stated by `Interactive.EnabledValuesAppend`.
- RoleModel.Filter: its own contract states membership only; sortedness is stated by `RoleModel.FilterSorted`.
- RoleModel.FindIn: its own contract states only that the result is an item; the search order is stated on `RoleModel.RoleAssignments.Find`.
- RequestBackend.RetryRequest: the response body is abstracted to unreadable, malformed or parsed JSON.
- Elevate.ElevateRole: the random request id is a parameter.
- Cli.ActivateSet: the per-entry activation call is a parameter; only its success or failure matters.
- Cli.BuildSet, Cli.Lookup and Cli.RoleScopeNeedsSlash: `src/bin/az-pim.rs` imports `Assignments`, `Role` and `Scope` from `azure_pim_cli::roles`, but `src/roles.rs` in this repository defines only `ScopeEntry` and `list`. The model binds `--role` scope parsing to `Scope::from_str` (`src/models/scope.rs:80-85`) and `available.find` to `RoleAssignments::find` (`src/models/roles.rs:34-45`). These results hold for that binding, not for the `roles` module the binary was written against, which is not part of this model.
- Scopes.Build: command-line argument conflicts that `clap` rejects are a precondition (`Accepted`) rather than an error result.
