# Verified model of the employee portal's D365 backend

The portal signs employees in with Entra ID, resolves the signed object ID to a D365 personnel number, and
reads leave balances from D365. This project models the parts of the Python backend on which that chain rests
and proves what they are for. `dafny verify dfyconfig.toml` checks everything.

**Identity mappings** (`Identity*.dfy`). `resolve_identity` looks a mapping up, otherwise asks D365, checks the
record, looks for conflicts and inserts a mapping with a history row; the loser of a unique-key race rolls back,
reads again and agrees or refuses. An operator's tool inserts rows as well. `Identity.Segment` is one step between
two suspension points of either writer. `IdentitySystem` interleaves any number of tasks, aborts them anywhere, and
lets an administrator change flags or, in `Replace`, do anything the table's constraints allow. `IdentityService`
holds the methods as they are written, proved to run those same segments, and `IdentityOutcomes` says from the rows
and inputs alone how each of them ends. The database enforces only the primary key and one row per object ID text.
From that the project proves, over all runs: canonical and distinct 128-bit IDs, one history row for each mapping, that a returned mapping was confirmed by D365 in that very call, that racing
calls return one row, that a disabled row is not superseded, and how many rows one employee can have.

**OData printing** (`Text.dfy`, `ODataQuery.dfy`, `ODataGrammar.dfy`,
`QueryParams.dfy`). Filters are printed by the code and read back
by a reader written from the grammar of OData Version 4.0 Part 2 (URL Conventions), sections 5.1.1.1 and 5.1.1.6.1.
Request parameters are read back into the query.

**Leave balances** (`Leave.dfy`). The filter that is sent and the check on every returned row are shown to be the
same condition: the text on the wire is read by that grammar and evaluated on rows, exactly and up to case.

**Retries and tokens** (`Client.dfy`, `ClientSystem.dfy`, `Tokens.dfy`, `TokenSystem.dfy`). The retry loop is proved equal to a
recursive form, and that form to a description by exchange and status, attempt by attempt, over an arbitrary
upstream. The token cache is proved for one call and for any interleaving of calls, and the loop uses that same
call. `ClientSystem` interleaves any number of retry loops over one shared token service, and shows that each of
them is the single loop.

**Signing keys, metadata, configuration** (`SigningKeys.dfy`, `KeySystem.dfy`, `Metadata.dfy`, `Ordering.dfy`,
`ApplyMapping.dfy`, `ApplyOutcomes.dfy`). The key cache under concurrent refresh; the two-pass `$metadata` index,
which is one definite stable sort; and the tool that validates a configuration against the index before it writes it
in one transaction.

Clocks, generated IDs, HTTP answers, the administrator and the other tasks are parameters: theorems hold for all of
them. `casefold`, `lower` and Decimal parsing are arbitrary functions passed in, so nothing depends on what they do.

## What the code does not do

Expectations that are false of the code, each with the exact condition under which it fails.

- A blocked mapping can be passed by a token with another spelling of the same object ID, because
  `find_verified` compares the token's raw text: `IdentityBlocked.OtherSpellingPasses`. In any run it happens exactly
  when the lookup meets that other spelling on an enabled, verified row (`BlockIsPassedIff`). The two writers never
  produce such a row (`WritersSpellOnce`).
- One employee can get two enabled mappings, because the personnel number and company are indexed but not unique:
  `IdentityPairs.OverlapDuplicates`. While no employee has two yet, some order of the pending commits does it exactly
  when two acceptable drafts name one employee, or one names an employee who has an enabled row by now
  (`SomeScheduleDuplicatesIff`). It is enough that checks and commits for one employee do not overlap, or that object
  IDs are a function of the employee.
- A valid configuration can fail at commit, because the session does not flush before a query, so that a repeated
  new key is inserted twice: `ApplyMapping.ValidConfigurationFails`. It happens exactly when two items share a key the
  table lacks (`KeysCollideIff`).
- A first 401 on the last allowed attempt is reported as "after bounded retries" and not as an authentication error
  (`Client.Only401IsExhausted`, and exactly when in `ExhaustedExactlyWhen`).
- A very large retry limit ends in an OverflowError: from attempt 1024 on the backoff factor no longer converts to a
  float (`Client.TimeoutsOverflow`, and exactly when in `OverflowExactlyWhen`).
- Two token acquisitions can run at once, because cancelling a caller releases the lock and leaves its thread
  running: `TokenSystem.CancelledAcquisitionIsOvertaken`, and exactly when in `OneRunsIffNoneOvertakes`.
- A leave number that is not mapped is read from a column with the empty name: `Leave.EmptyColumnIsRead`. It is
  absent exactly when that column is (`UnmappedNumberAbsentIff`).

## Model

| member | source | states |
|---|---|---|
| IdentityOutcomes.ResolveEndsExactly | backend/app/employees/router.py:22-51 | `resolve_identity` as a whole, from the rows and inputs it meets: which answer or refusal it gives, when it inserts, every column of the inserted mapping and history row, when it agrees with an existing row instead, and that the tables are otherwise left alone |
| IdentityOutcomes.InsertsExactlyWhen | backend/app/employees/provisioning_service.py:32-117 | a mapping is inserted if and only if nothing answers the lookup, D365 vouches under a complete configuration, no row has the object ID or employee at the read, and the commit meets no row with that ID |
| IdentityOutcomes.RunResolvesExactly | backend/app/employees/provisioning_service.py:32-117 | in every run a `resolve_identity` that was not aborted ends so, for the tables and inputs it met at its own steps |
| IdentityOutcomes.CreateEndsExactly | backend/app/tools/create_identity_mapping.py:14-68 | the manual tool as a whole: which arguments and rows make it fail and how, and every column of the mapping and history row it writes, the approver included |
| IdentitySafety.EveryRunIsSafe | backend/app/employees/provisioning_service.py:32-117 | in every interleaving of both writers from an empty table: row IDs are distinct, object IDs are canonical and denote distinct 128-bit numbers, history row i records mapping row i, and each mapping `provision` returned is an enabled verified row with the caller's canonical ID and the confirmed employee |
| IdentitySafety.ProvisionedIsConfirmed | backend/app/employees/provisioning_service.py:164-184 | every mapping `provision` ever returned rests on one D365 record received in that call with the caller's object ID and UPN, the same personnel number and, up to case, the same company; holds whatever is done to the table from outside |
| IdentitySafety.ClaimsComeFromD365 | backend/app/employees/provisioning_service.py:61-73 | no `resolve_identity` task in any run holds a claim that a D365 record did not confirm earlier in that run |
| IdentitySafety.ClaimsAreConfirmed | backend/app/employees/provisioning_service.py:61-73 | a reply leads to the conflict read if and only if it is a single record that carries the object ID and UPN asked for and fitting employee texts |
| IdentitySafety.OneRowPerWriter | backend/app/employees/provisioning_service.py:82-117 | conservation: mapping and history tables grow by exactly one row each per task that inserted, earlier rows and history stay, only flags change |
| IdentitySafety.SegmentEffect | backend/app/tools/create_identity_mapping.py:41-65 | every step of either writer leaves both tables alone or is the commit that adds its draft to both |
| IdentitySafety.RunKeepsTasks | backend/app/employees/provisioning_service.py:186-199 | whatever happens to the table, what a task remembers or answers is about its own object ID, verified and enabled |
| IdentitySafety.RunKeepsSafe | backend/app/database/models.py:33-49 | the invariant behind EveryRunIsSafe is kept by every run that starts in it |
| IdentityRace.RacersAgree | backend/app/employees/provisioning_service.py:74-117 | racing calls for one user and employee, however interleaved and spelled, insert at most one row; all that finish return that row, and a lookup by the canonical ID finds no other, while rows about others may change freely |
| IdentityRace.LaterCallsReturnTheRow | backend/app/employees/provisioning_service.py:74-80 | once that row is committed, it stays to the end of the run the only one about the user or employee, and every later call with the canonical ID is answered with that very row as soon as it runs, unless it is aborted |
| IdentityRace.ConflictsAreTheWinner | backend/app/employees/provisioning_service.py:135-147 | during such a race the conflict query finds the committed row and agrees with it, or finds nothing |
| IdentityBlocked.BlockedGetsNoAnswer | backend/app/employees/router.py:22-51 | while a disabled or unverified row for an object ID exists, no task for that ID in any spelling obtains a mapping, from any state of any run and whatever is done to the table from outside, as long as no row spells the ID in another way |
| IdentityBlocked.LateTasksAreRefused | backend/app/employees/router.py:22-51 | the same from an empty table, for a task that starts while the row is blocked and ends while it still is: it has no mapping to answer with |
| IdentityBlocked.WritersRespectBlock | backend/app/employees/router.py:22-51 | for the two writers alone the block needs no other condition: in any run from an empty table, a task that starts and ends while the row is disabled or unverified has no mapping to answer with, in any spelling |
| IdentityBlocked.BlockedGetsNoRow | backend/app/employees/provisioning_service.py:107-117 | at any moment of any run at which a row is blocked, no step of a writer inserts a row for that ID in any spelling, including when the blocked row appeared between check and commit |
| IdentityBlocked.BlockIsPassedIff | backend/app/employees/router.py:22-51 | the whole protocol in any run, whatever is done to the table: while the row of an ID is blocked, a task for it that has no answer yet comes to a mapping if and only if its own lookup found another spelling, equal to its token, on an enabled verified row |
| IdentityBlocked.SegmentPassesIff | backend/app/employees/router.py:22-51 | the same for one step of either writer in any phase |
| IdentityBlocked.LookupPassesBlockedRowIff | backend/app/employees/mapping_service.py:14-27 | the lookup passes a blocked row if and only if another spelling, equal to the token, has an enabled verified row |
| IdentityBlocked.OtherSpellingPasses | backend/app/employees/mapping_service.py:14-27 | a table and a token for which that happens |
| IdentityBlocked.WritersSpellOnce | backend/app/tools/create_identity_mapping.py:15-16 | the two writers never leave two spellings of one object ID |
| IdentityPairs.SomeScheduleDuplicatesIff | backend/app/database/models.py:36-37 | wherever no employee has two enabled rows yet, some order of the pending commits gives one two if and only if two pending tasks hold drafts for one employee that the database would both accept, or one holds an acceptable draft whose employee has an enabled row by now |
| IdentityPairs.NoOverlapOneEnabled | backend/app/tools/create_identity_mapping.py:27-40 | if check-then-commit sections for the same employee never overlap, however those of different employees do, no run gives one employee two enabled rows |
| IdentityPairs.OneOwnerOneRow | backend/app/employees/provisioning_service.py:135-147 | with arbitrary overlap, if claims follow one function from employees to object IDs, no two rows share an employee |
| IdentityPairs.OverlapDuplicates | backend/app/tools/create_identity_mapping.py:27-65 | two overlapping operators do produce two enabled rows for one employee |
| Identity.ConflictRowsExactly | backend/app/employees/provisioning_service.py:138-147 | the conflict query returns exactly the rows with the object ID or with the employee |
| Identity.VerifiedRowsExactly | backend/app/employees/mapping_service.py:15-20 | the lookup query returns exactly the enabled verified rows with that text |
| Identity.AtMostOneVerified | backend/app/employees/mapping_service.py:21-26 | under the unique constraint the lookup is never ambiguous |
| IdentityService.IdentityProvisioningService.InsertOrAgree | backend/app/employees/provisioning_service.py:74-117 | the read, insert, rollback and re-read code does to the tables and answers what the segments do |
| IdentityService.IdentityProvisioningService.ProvisionUser | backend/app/employees/provisioning_service.py:32-117 | `provision` as written refines the segments, with every early exit |
| IdentityService.IdentityProvisioningService.ResolveIdentity | backend/app/employees/router.py:22-51 | `resolve_identity` as written runs the segments to their end, against tables other tasks change at each suspension |
| IdentityService.CreateIdentityMapping | backend/app/tools/create_identity_mapping.py:14-68 | the manual tool as written runs its segments to their end |
| IdentityService.RunConcludes | backend/app/employees/router.py:22-51 | however tasks interleave, a task that runs to its end ends as these methods do for the very tables and inputs it met at its own steps in that run |
| IdentityService.IdentityTables.Insert | backend/app/employees/provisioning_service.py:107-110 | both rows are inserted exactly when the constraints admit the mapping, otherwise the tables are unchanged |
| Uuid.CanonicalText | backend/app/employees/provisioning_service.py:37 | two texts have one canonical form exactly when they denote one number, the canonical form is a fixed point and parses to the same number |
| Uuid.RoundTrip | backend/app/employees/provisioning_service.py:172 | printing a 128-bit number and parsing it gives it back |
| Uuid.PrintLayout | backend/app/employees/provisioning_service.py:37 | the canonical form is 32 lower-case digits in groups of 8, 4, 4, 4 and 12 with hyphens between them |
| Uuid.ParseDigits | backend/app/employees/provisioning_service.py:37 | 32 digits of either case, with hyphens anywhere between them, in braces or not, denote their value |
| Uuid.DigitsOfEitherCase | backend/app/employees/provisioning_service.py:37 | lower-case and upper-case digits read as their value |
| Uuid.UrnParses | backend/app/employees/provisioning_service.py:37 | the URN form spells the same ID |
| Uuid.OtherLengthsRejected | backend/app/employees/provisioning_service.py:37-39 | an undecorated text of any other length is refused |
| Uuid.Parse | backend/app/employees/provisioning_service.py:37 | an accepted text denotes a number below 2^128 |
| ODataGrammar.FilterReadsBack | backend/app/d365/query.py:59-67 | a filter is printed if and only if the list is not empty and all fields and values are admissible; the grammar reads the whole text back as exactly those equalities in order |
| ODataGrammar.FilterInjective | backend/app/d365/query.py:59-67 | different lists of equalities have different filter texts |
| ODataQuery.IdentifierExactly | backend/app/d365/query.py:7-13 | an identifier is a letter or underscore followed by letters, underscores, digits, dots and slashes |
| ODataGrammar.StringBodyReadsBack | backend/app/d365/query.py:16-20 | a quoted value reads back whatever apostrophes it has, and the reader stops at its closing quote |
| ODataGrammar.ComparisonReadsBack | backend/app/d365/query.py:59-61 | one equality reads back in front of any text that does not start with an apostrophe |
| ODataGrammar.ExpressionReadsBack | backend/app/d365/query.py:64-67 | a conjunction of parenthesised equalities is consumed completely and gives its conjuncts in order |
| QueryParams.ToParams | backend/app/d365/query.py:34-56 | accepts exactly the queries with identifiers as names, $top from 1 to 1000 and no negative $skip, reports the first complaint otherwise, puts every option on the wire under its name, and decodes to the query up to empty versus absent |
| QueryParams.ParamsReadBack | backend/app/d365/query.py:34-56 | decoding the parameters of an accepted query gives the query |
| QueryParams.PutNames | backend/app/d365/query.py:36-43 | the names are written exactly when all of them are identifiers |
| QueryParams.PutPaging | backend/app/d365/query.py:44-51 | $top and $skip are written exactly when in range, with the error of the first that is not |
| QueryParams.KeyTextsDiffer | backend/app/d365/query.py:37-55 | no two options share a name on the wire |
| QueryParams.FirstOccurrencesInOrder | backend/app/d365/leave_service.py:64 | deduplication keeps every name once, in the order of first occurrence |
| Text.SplitJoin | backend/app/d365/query.py:37 | splitting on commas inverts joining for names without a comma |
| Text.JoinConcat | backend/app/d365/query.py:37 | joining two lists of names puts one comma between them |
| Text.StripExactly | backend/app/employees/provisioning_service.py:33 | stripping takes away blanks at both ends and leaves none there |
| Text.ReadNatText | backend/app/d365/query.py:47 | the decimal text of a number reads back |
| Leave.FilterIsRecheck | backend/app/d365/leave_service.py:54-67 | the filter text sent reads as exactly the wanted equalities; the check passes every row in which that expression is true, and passes a row if and only if the expression is true up to case and the personnel number is exactly the one asked for |
| Leave.AcceptedIffFilterHonoured | backend/app/d365/leave_service.py:48-89 | a returned list is accepted if and only if every entry is a row that meets the filter text that was sent; then every row is kept in order, otherwise the conflict is raised |
| Leave.ExactUpstreamAccepted | backend/app/d365/leave_service.py:74-89 | an upstream that evaluates the filter exactly is never refused |
| Leave.FetchRecords | backend/app/d365/leave_service.py:48-89 | the loop returns what the all-rows specification says, for any upstream |
| Leave.SourceRowsHonourFilter | backend/app/d365/leave_service.py:23-31 | an answer comes from the primary, or from the fallback after an empty primary, and each row of that source, hidden ones too, honours the filter sent for it |
| Leave.GetBalances | backend/app/d365/leave_service.py:23-46 | the whole operation from the two configurations, the identity and what D365 answers: which requests are made and what they ask for, when the fallback is used, which rows are hidden, the text and numbers of each shown row from its own mapped column, and the error of the first row that is refused |
| Leave.RecordsExactly | backend/app/d365/leave_service.py:48-89 | when a request can be made and why not, what it asks for, and when its rows are accepted |
| Leave.RowExactly | backend/app/d365/leave_service.py:34-45 | a row is skipped if and only if "hidden" is mapped and its column reads yes; otherwise it is shown from its own columns or refused with the named error |
| Leave.PlanExactly | backend/app/d365/leave_service.py:53-60 | a request is made if and only if the configuration and identity are complete and well formed, and the error otherwise |
| Leave.Project | backend/app/d365/leave_service.py:33-46 | the projection loop gives that image, or the error of the first row that is refused |
| Leave.OnlyMappedColumnsMatter | backend/app/d365/leave_service.py:33-45 | nothing outside the allow-listed columns reaches the answer: rows that agree on the mapped columns are shown alike, skipped alike or refused alike, with the empty-named column the one exception |
| Leave.HiddenRowsAreNotRead | backend/app/d365/leave_service.py:35-36 | a hidden row is skipped whatever its other columns hold |
| Leave.EmptyColumnIsRead | backend/app/d365/leave_service.py:41-43 | a row whose empty-named column supplies the three numbers that are not mapped |
| Leave.UnmappedNumberAbsentIff | backend/app/d365/leave_service.py:41-43 | a number that is not mapped is absent from the answer if and only if that column is absent, null or empty |
| Leave.PlannedQueriesAccepted | backend/app/d365/leave_service.py:61-69 | every query the service plans is one `to_params` accepts |
| Client.GetByStatus | backend/app/d365/client.py:69-145 | `_get` by exchange and status alone: after which attempts it goes on, exactly how long it sleeps, when it invalidates the token, and what it returns or raises in the end |
| Client.GetMatches | backend/app/d365/client.py:69-128 | for every upstream: the number of attempts, each step and the result are those of a description without recursion, at most max(0, limit + 1) attempts |
| Client.D365Client.GetResponse | backend/app/d365/client.py:69-128 | the loop over its mutable state refines the recursive form, log and token cache included |
| Client.D365Client.TryOnce | backend/app/d365/client.py:79-127 | one turn of the loop, with its use of the token service |
| Client.OneRefresh | backend/app/d365/client.py:94-98 | at most one invalidation and one forced attempt; a forced attempt is exactly the one after the invalidation, acquires a token, and no sleep lies between |
| Client.OnlyFirstSuccessReturned | backend/app/d365/client.py:113-127 | only a 2xx response is returned, and it is the first one received |
| Client.ExhaustedExactlyWhen | backend/app/d365/client.py:89-128 | a condition on the upstream alone: "after bounded retries" is raised if and only if no attempt was allowed, or every attempt before the last allowed one continues and that one meets a timeout or the first 401 |
| Client.Only401IsExhausted | backend/app/d365/client.py:94-98 | a 401 on the only allowed attempt is such a case |
| Client.OverflowExactlyWhen | backend/app/d365/client.py:87-112 | a condition on the upstream alone: the delay overflows if and only if an attempt from 1024 on, not the last allowed, is reached and meets a timeout, a server error or a 429 without a readable Retry-After |
| Client.TimeoutsOverflow | backend/app/d365/client.py:87-92 | 1025 timeouts under a limit of 1025 are such a case |
| Client.SleepBounds | backend/app/d365/client.py:87-145 | total sleep is at most 30 seconds per retry, and without a 429 at most the closed form of the backoff; no sleep after the last attempt, each delay in [0, 30] |
| Client.BackoffSumClosed | backend/app/d365/client.py:91 | the backoff delays sum to 0.25 (2^m - 1) up to m = 4 and to 4 m - 12.25 from there on |
| Client.StepSleep | backend/app/d365/client.py:130-145 | each single delay is between 0 and 30 and, without a 429, at most its backoff; attempts at the limit do not sleep |
| TokenSystem.ServedTokensAreFresh | backend/app/d365/token_service.py:48-84 | in every interleaving a token served from the cache was granted with a lifetime, read from the provider's own answer, that still exceeded five minutes; a forced caller gets a token whose acquisition started after its call; at most one acquisition is awaited |
| TokenSystem.OneRunsIffNoneOvertakes | backend/app/d365/token_service.py:57-68 | acquisitions run in threads that a cancelled caller does not stop: at most one runs throughout a run if and only if none is started while one whose caller was cancelled still runs |
| TokenSystem.CancelledAcquisitionIsOvertaken | backend/app/d365/token_service.py:65-68 | a run of five actions in which two acquisitions run at once |
| ClientSystem.RequestsUseTokensSinceTheir401 | backend/app/d365/client.py:79-98 | in every interleaving of any number of calls, with other users of the token service: a request after the first 401 of its call carries a token whose acquisition started after that 401, forced or from the cache |
| ClientSystem.EndedCallsAreGet | backend/app/d365/client.py:69-128 | in every interleaving, a call that ends without being cancelled has the result, the number of attempts and the number of requests of the single loop over the very token calls and exchanges it met, so the results about the loop hold of interleaved calls |
| ClientSystem.CallMoves | backend/app/d365/client.py:80-111 | each step of an interleaved call: it asks for a token, sends one request with it, and takes one answer |
| TokenSystem.EveryCallFollows | backend/app/d365/token_service.py:48-84 | in every interleaving each token call that was not cancelled has the outcome of the call as written, for the clock and cache it met at its suspensions |
| Tokens.CallExactly | backend/app/d365/token_service.py:48-84 | one call, case by case: when it is served from the cache before or after the lock, and otherwise what each answer of the provider makes it return and store |
| TokenSystem.EntersServedIff | backend/app/d365/token_service.py:49-55 | a call that comes while the latest grant is cached is served at once if and only if it is not forced and the grant has more than five minutes left |
| TokenSystem.AnswerExactly | backend/app/d365/token_service.py:69-84 | a token with a readable lifetime is stored with its expiry and served; any other answer stores nothing and names its error |
| TokenSystem.CachedIsBeyondSkew | backend/app/d365/token_service.py:82-83 | the clamp to 60 seconds never makes a shorter-lived token servable |
| TokenSystem.WaiterAcquiresIffStale | backend/app/d365/token_service.py:57-68 | after a grant and without invalidation, a non-forced caller that gets the lock acquires if and only if the latest grant is within the skew, forced refreshes in between included |
| TokenSystem.OneAcquisitionServesAll | backend/app/d365/token_service.py:48-64 | one acquisition serves every non-forced caller until the skew is reached or the token is invalidated |
| TokenSystem.RunKeepsInv | backend/app/d365/token_service.py:48-87 | the invariant of lock, cache and grants is kept by every run |
| Tokens.D365TokenService.GetAccessToken | backend/app/d365/token_service.py:48-84 | one call as written, with the cache other tasks leave it at each suspension |
| Tokens.D365TokenService.Invalidate | backend/app/d365/token_service.py:86-87 | the cache is empty afterwards |
| TokenSystem.CallIsRun | backend/app/d365/token_service.py:48-84 | the interleaved segments of one call amount to that call, and a forced one always acquires |
| KeySystem.ReturnedKeysAreCurrent | backend/app/auth/service.py:94-137 | in every interleaving a returned key is the last RS256 signing key listed under its ID in the latest set fetched after a trusted discovery, unexpired when it was relied on, and one fetch at most is under way |
| KeySystem.OnlySuccessfulFetchChanges | backend/app/auth/service.py:107-137 | a failed refresh changes neither keys nor expiry and gives its caller an error, never an old key |
| KeySystem.OneFetchServesAll | backend/app/auth/service.py:103-106 | callers that wait only because the keys expired share one fetch |
| KeySystem.RunKeepsInv | backend/app/auth/service.py:94-137 | the cache is always the latest fetched set with its expiry |
| KeySystem.CallIsRun | backend/app/auth/service.py:94-137 | the interleaved segments of one lookup amount to the lookup as written |
| SigningKeys.RefreshExactly | backend/app/auth/service.py:107-129 | a refresh as a whole, from the two answers of the provider: when it succeeds, which listed keys count, and which error it gives otherwise |
| SigningKeys.CallExactly | backend/app/auth/service.py:94-137 | one lookup, case by case: hit, reuse after the lock, or fetch, with the answer and the cache it leaves |
| SigningKeys.SelectIsLastListed | backend/app/auth/service.py:120-127 | the dictionary of a refresh holds exactly the last signing key listed under each ID |
| SigningKeys.RefreshIsTrusted | backend/app/auth/service.py:107-129 | a refresh succeeds only after a discovery with the right issuer and trusted host, and gives at least one key |
| SigningKeys.EntraTokenValidator.FetchKeys | backend/app/auth/service.py:107-129 | the checks and the loop over the listed keys give that dictionary, or the error |
| SigningKeys.EntraTokenValidator.GetKey | backend/app/auth/service.py:94-101 | one lookup as written, with its refresh |
| SigningKeys.EntraTokenValidator.RefreshKeys | backend/app/auth/service.py:103-137 | when a refresh is skipped, stored or refused |
| Metadata.Parse | backend/app/d365/metadata.py:69-95 | the two passes give the stable sort of the document's named and typed entity sets, each joined to the last definition of its type |
| Metadata.ParseInOrder | backend/app/d365/metadata.py:85-95 | the result is ordered by lower-cased set name, and the sets are exactly the named and typed EntitySet elements of the document, in document order before sorting |
| Metadata.TypeExactly | backend/app/d365/metadata.py:70-83 | a set's properties are the names of the direct Property children of the last EntityType written under its type name, or nothing |
| Metadata.IterInOrder | backend/app/d365/metadata.py:70 | document order: an element before its children, and these one after the other with all they hold |
| Metadata.LocalExactly | backend/app/d365/metadata.py:71 | a tag has a local name if and only if it ends in it, after nothing or a namespace |
| Metadata.ParseIsDetermined | backend/app/d365/metadata.py:95 | that specification has one solution |
| Metadata.IndexSchema | backend/app/d365/metadata.py:70-83 | the dictionary of the first pass agrees with the definitions in document order |
| Metadata.MatchingExactly | backend/app/d365/metadata.py:102-108 | search keeps the order and exactly the matching descriptions, each as often as it occurs |
| Metadata.SearchFindsExactly | backend/app/d365/metadata.py:97-108 | a search over the index fails exactly for a blank term, and otherwise gives the stable sort of the matching entity sets of the document |
| Metadata.MatchesExactly | backend/app/d365/metadata.py:105-107 | a description matches if and only if the term occurs in its set name, its type name or one of its properties, up to case |
| Ordering.StableSortIsStable | backend/app/d365/metadata.py:95 | the sort orders by key and keeps the elements of each key in their order |
| Ordering.StableSortUnique | backend/app/d365/metadata.py:95 | a stable sort is unique |
| Ordering.LeqExactly | backend/app/d365/metadata.py:95 | the order of set names is by code at the first difference, a beginning before what continues it |
| ApplyOutcomes.OutcomeExactly | backend/app/tools/apply_d365_mapping.py:29-98 | the tool as a whole, from items, metadata and table: which items are valid, the exit code of every case in dry and real runs, when the write commits, and the table it leaves |
| ApplyOutcomes.ResultIsDetermined | backend/app/tools/apply_d365_mapping.py:69-92 | what the items ask of the table is one definite result: existing rows amended by the last item listing each attribute, with its time and the environment, and one row for each item with a new key |
| ApplyOutcomes.CheckExactly | backend/app/tools/apply_d365_mapping.py:48-59 | an item is valid if and only if it names a metadata entity and every field it configures, under any name ending in "_field" or in its field mapping, is a property of that entity |
| ApplyMapping.MappingTable.Run | backend/app/tools/apply_d365_mapping.py:29-98 | exit code and table for every outcome |
| ApplyMapping.ChangesOnlyWhenValid | backend/app/tools/apply_d365_mapping.py:29-98 | the table changes only when the run applies, every item is valid and the commit is accepted, and then it holds exactly what WriteEffect says |
| ApplyMapping.MappingTable.StageAll | backend/app/tools/apply_d365_mapping.py:69-91 | the write loop stages every item, or stops at one without a key |
| ApplyMapping.MappingTable.Validate | backend/app/tools/apply_d365_mapping.py:48-59 | the loop reports the first item that is not valid |
| ApplyMapping.ValidItemsUseMetadata | backend/app/tools/apply_d365_mapping.py:48-59 | a valid item names an entity of the metadata and configures only its properties |
| ApplyMapping.CheckAllValid | backend/app/tools/apply_d365_mapping.py:48-59 | the loop accepts if and only if every item is valid |
| ApplyMapping.KeysCollideIff | backend/app/tools/apply_d365_mapping.py:69-92 | the unique key holds at commit if and only if items that share a key share one the table already has |
| ApplyMapping.RepeatedNewKeyFails | backend/app/database/models.py:108-123 | two items for one new key, in an empty table, never commit |
| ApplyMapping.ValidConfigurationFails | backend/app/tools/apply_d365_mapping.py:48-92 | a configuration of two items that both pass validation and whose run crashes at commit with the table unchanged |
| ApplyMapping.WriteEffect | backend/app/tools/apply_d365_mapping.py:69-92 | after a commit keys are distinct, listed rows have everything listed on top of what they had, unlisted rows are untouched, and new rows belong to items |
| ApplyMapping.ItemsAreStored | backend/app/tools/apply_d365_mapping.py:77-89 | with distinct keys each item ends in exactly one row that agrees with all it lists |
| ApplyMapping.OverlayIsLastListed | backend/app/tools/apply_d365_mapping.py:77-89 | for a repeated key the last item that lists an attribute wins |
| ApplyMapping.SecondApplyChangesNothing | backend/app/tools/apply_d365_mapping.py:69-92 | a second apply adds no row and changes no key or attribute |

## Left out

- HTTP, TLS, Redis, SQLAlchemy, MSAL and structlog themselves; statements read the committed rows, as under READ COMMITTED.
- MSAL's own cache: a forced refresh bypasses the service's token only, so nothing says the token text differs.
- JWT signature and claim checks in `validate`, and JSON of an unexpected shape in a key refresh beyond unreadable keys; the scheme and host of the key URI come parsed.
- XML text parsing, `fetch_xml` and its size limit: the index starts from the element tree.
- HTTP-date and Decimal parsing, `casefold` and `lower`: parsed values or arbitrary functions.
- Non-ASCII digits that Python's `int` accepts inside UUID text.
- Database errors for over-long or NUL text, lost connections and cancellation: one generic abort at a suspension point.
- Row IDs: `uuid4` is an arbitrary number, and a repeated one is an IntegrityError; the race theorem assumes none repeats.
- The order in which the identity queries return rows, which no decision depends on.
- The audit table, `require_verified`, `profile_service.py`, `lookup_identity_candidate.py`, health, configuration, middleware and migrations: straight-line checks or plumbing.
- The apply tool's file loading, metadata fetch failures and concurrent runs of it; column limits are one predicate.
- Lock fairness and thread timing: a lock may go to any waiter, a thread may end at any time. A thread cancelled before it starts is one that ends at once.
- The validation error of the response model for a NaN or infinite number ends a leave request with an unhandled exception; the model has it as the error ModelRejected.
- Evaluating a leave filter: values are compared as `str()` gives them and an absent field reads as empty text.
- Client.SleepBounds: a Retry-After that is not a number is excluded from the totals, because Python's clamp lets NaN through.
- Client.BackoffSumClosed: delays are real numbers, not rounded floats, which is exact for these powers of two.
- TokenSystem.ServedTokensAreFresh: the wall clock is taken never to go back.
- IdentityRace.RacersAgree: assumes that D365 keeps its answer for the user and gives that employee to nobody else, as without it the calls must refuse.
- Frontend, translations, styles, containers and proxy configuration.
