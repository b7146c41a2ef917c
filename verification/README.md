# Verified models of the API scripts

These Dafny modules model the scripts under `api/scripts` that carry state, and prove what those
scripts promise.

- **Contract synchroniser and validator.** A document is the list of its paths, the list of each path
  item's keys, and a map from (path, key) to entry, so that every statement holds for every iteration
  order. The class `SpecFile` in `Synchroniser` runs the loops of the script on that document and is
  proved to compute the function `Synchronised`; the theorems are about that function. `Text`,
  `OperationIds`, `OpenApi`, `Enrichment`, `EnrichAll`, `AddEndpoints`, `Aliases` and `Validator` model
  the parts; `TextLaws`, `IdShapes`, `SummaryShapes`, `HandWritten` and `ReportLines` say what these
  compute in terms of the texts alone; `AssignedIds`, `VisitOrder`, `ReportPaths`, `Outcome`,
  `Acceptance`, `Idempotence`, `Coverage` and `Contents` hold the theorems, `SyncExamples` the
  documents on which promises fail. `Extractor` is the other script that removes aliases.
- **Key provisioning.** `Provisioning` is a step machine over committed rows, lock table and any
  number of runs, each with its own uncommitted rows; `ProvisioningSafety` and
  `ProvisioningProgress` prove its invariant and its progress; `ProvisioningMix` counts all rows for any
  mix of the four scripts; `ProvisioningScript` shows that the
  scripts' control flow and the runs of that machine make the same kind of walk: statements, on rows
  that others change in between, within limits that every behaviour keeps. The four scripts differ in
  nothing but the constants of `ServiceOf`.
- **Block scanner.** `Scanner` proves both loops against one declarative specification,
  `BlockPrinter` is the printer for the round trip.
- **Ontology seeding and backfill.** `Ontology` and `Backfill` run statement by statement with a
  budget of statements after which the process is gone; `BackfillOutcome` says what a complete run
  leaves, row by row.
- **Lint gate and scores.** `LintRatchet`, `Scores`.

Where the code does not keep a promise, the model keeps the code:

- Ids shared between two path items, or different in outer white space only, are not repaired, and
  the validator rejects the output. `Acceptance.AcceptedIff` is the exact condition, on every
  document: an operation keeps its id if it is not blank and no path item holds it twice among the
  operations from there on and the entries that are not operations; the output is rejected if and
  only if two surviving operations keep ids that are equal after trimming, or the id generated for
  one is the trimmed form of an id that another keeps. The second case cannot arise when the trimmed
  form of every id is in use itself, and then `Acceptance.SynchronisedAcceptedIffKept` reads the
  condition off the script's input.
- The synchroniser is not idempotent on every document: a path-item extension that holds an
  operation id can make the second run rename an operation (`SyncExamples.StrayIdBreaksIdempotence`).
  `Idempotence.SynchroniseTwiceIff` is the exact condition.
- Removing aliases loses operations the versioned twin lacks (`Coverage.LostExactly`), and with them
  endpoints reported and added in the same run: any line for a path whose versioned twin is there,
  with a method the twin lacks (`SyncExamples.AliasReportIsLost`), or a first report of `/` and `/v1`
  (`SyncExamples.RootReportIsLost`). `Coverage.OutputExactly` says of every entry, and
  `Coverage.ReportedReachesIff` of every reported endpoint, exactly when it is in the output.
- The add loop can create an alias pair, but no other than `/` and `/v1`, since the other form of `/`
  is computed as `/v1/` in one place and as `/v1` in another; `ReportPaths.AddCreatesPairIff` says
  when, from document and report.
- Alias removal depends on the iteration order if and only if `/`, `/v1` and `/v1/v1` are all present.
- Hiding before alias removal publishes the visible alias of a hidden versioned path, and can drop the
  root when `/v1/v1` is hidden (`Extractor.HidingFirstCompared`).
- The scanners do not see the end of a string literal that ends in an escaped backslash
  (`BlockPrinter.LiteralBlockClosesIff`), and a nested scan that starts inside a string literal can
  fail (`Scanner.NestedScanInStringCanFail`) or run past the outer block
  (`Scanner.NestedScanInStringCanOverrun`).
- Safety of the provisioning scripts rests on the twins naming the same lock
  (`ProvisioningProgress.DifferentLocksMintTwoKeys`).

## Model

| member | source | states |
|---|---|---|
| OperationIds.SearchProgress | api/scripts/sync-openapi-from-diff.ts:193-194 | each numbered variant found in use leaves strictly fewer used ids to run into, because numerals never repeat: the suffix search ends for every finite set |
| OperationIds.FirstFree | api/scripts/sync-openapi-from-diff.ts:193-195 | the search returns the variant with the least number, from the start number on, that is not in use |
| OperationIds.FreshIdIsClean | api/scripts/sync-openapi-from-diff.ts:176-198 | a generated id is made of letters and digits, is never blank and never needs trimming, whatever the path looks like |
| OperationIds.UsedIds.MakeOperationId | api/scripts/sync-openapi-from-diff.ts:176-198 | the loop ends, returns an id that was not in the set, and adds exactly that id to it |
| IdShapes.NumberedIfUsed | api/scripts/sync-openapi-from-diff.ts:189-197 | the id a path gets when none is in use, unless it is taken; then with the first number from two on that makes an unused one |
| IdShapes.VersionedFormIff | api/scripts/sync-openapi-from-diff.ts:76-79 | a path and its versioned form get the same id if and only if the path is not versioned itself |
| IdShapes.RootId | api/scripts/sync-openapi-from-diff.ts:188-188 | the root gets the method followed by `Root` |
| IdShapes.FirstSegmentId | api/scripts/sync-openapi-from-diff.ts:177-188 | one segment: its word with the first letter in upper case, after `By` if it is templated |
| IdShapes.SegmentExtendsId | api/scripts/sync-openapi-from-diff.ts:177-188 | one more plain segment is appended with its first letter in upper case |
| IdShapes.TemplateExtendsId | api/scripts/sync-openapi-from-diff.ts:181-184 | one more templated segment is appended as `By` and the capitalised name |
| IdShapes.PunctuationIsDropped | api/scripts/sync-openapi-from-diff.ts:185-186 | any other character of a segment plays no part |
| Text.DecimalInjective | api/scripts/sync-openapi-from-diff.ts:194-195 | different suffixes print differently |
| TextLaws.DecimalValue | api/scripts/sync-openapi-from-diff.ts:194-195 | a suffix is the decimal numeral of its number |
| TextLaws.TrimExactly | api/scripts/sync-openapi-from-diff.ts:519-519 | trimming takes JavaScript's white space off both ends, and all of it |
| TextLaws.SplitExactly | api/scripts/sync-openapi-from-diff.ts:177-178 | splitting cuts at every separator and nowhere else |
| OpenApi.VisitsExact | api/scripts/sync-openapi-from-diff.ts:489-491 | the two nested loops visit every operation of a document exactly once, in any iteration order |
| Enrichment.GeneratedSummaryIsSpecific | api/scripts/sync-openapi-from-diff.ts:140-160 | a generated summary is never taken for a generic one, for any method string and path |
| SummaryShapes.SummaryReads | api/scripts/sync-openapi-from-diff.ts:140-160 | a generated summary names the action by method and the segments of the path in words; the version prefix plays no part |
| SummaryShapes.RootSummary | api/scripts/sync-openapi-from-diff.ts:140-160 | the root, versioned or not, is summarised as the root resource |
| SummaryShapes.DescriptionReads | api/scripts/sync-openapi-from-diff.ts:162-174 | a generated description opens with the summary and names the path at one place, the same for all paths |
| HandWritten.GenericIff | api/scripts/sync-openapi-from-diff.ts:502-514 | which summaries and descriptions count as generic, character by character |
| Enrichment.SecurityIsClean | api/scripts/sync-openapi-from-diff.ts:335-352 | after normalisation no requirement names the legacy scheme and every entry is an object; clean lists are left alone |
| Enrichment.ParametersComplete | api/scripts/sync-openapi-from-diff.ts:360-378 | every templated part of the path is declared, declared parameters keep their places, and a second pass adds nothing |
| Enrichment.ResponsesComplete | api/scripts/sync-openapi-from-diff.ts:534-548 | a success response and the eight error references are present, and a second pass changes nothing |
| Enrichment.EnrichTwice | api/scripts/sync-openapi-from-diff.ts:495-548 | enriching an enriched operation under its own id changes no field of it |
| Contents.EnrichedContent | api/scripts/sync-openapi-from-diff.ts:495-548 | enrichment field by field: hand-written texts, tags, the block and declared responses stay, error codes refer to the shared ones, `200` is new only if no success was declared, no other code is new, other schemes and parameters stay |
| Contents.TemplateNames | api/scripts/sync-openapi-from-diff.ts:200-214 | the templated names of a path, from left to right |
| EnrichAll.IdAfter | api/scripts/sync-openapi-from-diff.ts:519-525 | after its turn, and for good, an operation has the id it had or one that was not in use at its turn |
| EnrichAll.EqualIdsAreKept | api/scripts/sync-openapi-from-diff.ts:519-525 | two operations end with the same id only if both had it before and neither was renamed |
| EnrichAll.DupIsClash | api/scripts/sync-openapi-from-diff.ts:521-521 | the duplicate test made in the middle of the loop answers a question about the document as it was before the loop |
| EnrichAll.KeptExactly | api/scripts/sync-openapi-from-diff.ts:519-525 | an operation keeps its id if and only if the id is not blank and no path item holds it twice among the entries not yet visited: the last holder of a duplicated id keeps it |
| EnrichAll.UniqueInItem | api/scripts/sync-openapi-from-diff.ts:519-525 | with no assumption on ids, no two operations of one path item end with the same id |
| EnrichAll.SharedExactly | api/scripts/sync-openapi-from-diff.ts:519-525 | exactly when two operations end with one and the same id |
| AssignedIds.AssignedExactly | api/scripts/sync-openapi-from-diff.ts:519-525 | every operation ends with the id computed from the document before the loop: its own if it is kept, else the first free variant over the ids in use at its turn |
| AssignedIds.GeneratedDiffers | api/scripts/sync-openapi-from-diff.ts:519-525 | a generated id is the id of no other operation |
| VisitOrder.VisitedBeforeIff | api/scripts/sync-openapi-from-diff.ts:489-491 | an operation is visited before another exactly if it stands before it, by path and then by key |
| VisitOrder.KeepsExtends | api/scripts/sync-openapi-from-diff.ts:434-485 | whether an operation keeps its id does not depend on operations added with other ids |
| Aliases.SweepIsSurvivors | api/scripts/sync-openapi-from-diff.ts:387-403 | for paths that start with a slash and without `/`, `/v1` and `/v1/v1` together, the deleting loop leaves, in any order, the key-set path, the versioned paths and the paths without a versioned twin |
| Aliases.SweepExactly | api/scripts/sync-openapi-from-diff.ts:387-403 | the deleting loop in closed form for every set of paths that start with a slash and every order; the root stays with `/v1` and `/v1/v1` there if and only if `/v1` comes first |
| Aliases.StaysPlainly | api/scripts/sync-openapi-from-diff.ts:391-400 | which paths these are, spelled out |
| Aliases.TwinSurvives | api/scripts/sync-openapi-from-diff.ts:391-400 | a removed path leaves its versioned twin behind in any order, except the root when `/`, `/v1` and `/v1/v1` are all present |
| Aliases.OrderIndependentIff | api/scripts/sync-openapi-from-diff.ts:387-403 | the result depends on the iteration order if and only if those three paths are all present |
| Aliases.SweepTwice | api/scripts/sync-openapi-from-diff.ts:387-403 | in every order, with or without those three paths, a second removal in any order finds nothing |
| Aliases.WithoutAliasesTwice | api/scripts/sync-openapi-from-diff.ts:387-403 | removing aliases from a document twice is the same as once |
| AddEndpoints.NormalizePath | api/scripts/sync-openapi-from-diff.ts:380-385 | the other form is returned exactly when only it is documented, the reported path otherwise |
| AddEndpoints.AddAllKeeps | api/scripts/sync-openapi-from-diff.ts:434-485 | the add loop changes nothing already documented; what it adds are operations with new, trimmed ids |
| AddEndpoints.AddedIdsDiffer | api/scripts/sync-openapi-from-diff.ts:434-485 | an added operation shares its id with no other operation |
| ReportPaths.ReportedAreDocumented | api/scripts/sync-openapi-from-diff.ts:434-485 | every reported endpoint the loop does not skip, by a guard on document and report line, is documented afterwards at its own path or the other form of it |
| ReportPaths.AddCreatesPairIff | api/scripts/sync-openapi-from-diff.ts:380-385 | for a document without alias pairs, the add loop creates one if and only if `/` and `/v1` are each there already or named by the report before their other form, which is not there |
| ReportPaths.NoRootNoPair | api/scripts/sync-openapi-from-diff.ts:434-485 | in particular none is created when neither document nor report mentions `/` |
| ReportPaths.PathsAfterExact | api/scripts/sync-openapi-from-diff.ts:445-483 | the paths after the loop, with their order, are a function of the paths before and the report |
| ReportPaths.PresentIff | api/scripts/sync-openapi-from-diff.ts:380-385 | of two public paths that are each other's other form, one is present afterwards exactly if it was, or if the other was not and the report names it first |
| ReportPaths.ActedOnIff | api/scripts/sync-openapi-from-diff.ts:435-449 | whenever its turn comes, a line is acted on if and only if it passes the guard on the document before the loop |
| ReportPaths.TargetIsDestination | api/scripts/sync-openapi-from-diff.ts:445-483 | a line acted on puts its endpoint under the path it names if that is there after the report, else under the other form, whenever its turn comes |
| ReportPaths.EntriesAfterExactly | api/scripts/sync-openapi-from-diff.ts:434-485 | the entries after the add loop are those before and the destinations of the lines that pass the guard, read off document and report |
| ReportLines.LineReads | api/scripts/sync-openapi-from-diff.ts:435-438 | a report line is a method in any case, a blank and a path to be trimmed |
| ReportLines.LineWithoutPath | api/scripts/sync-openapi-from-diff.ts:435-438 | a report line without a blank has the empty path |
| ReportPaths.OtherForm | api/scripts/sync-openapi-from-diff.ts:382-382 | the other form of a path, without the version prefix or with it |
| Contents.NothingPrivateEnters | api/scripts/sync-openapi-from-diff.ts:135-138 | no operation under `/internal/` or on one of the eight other private paths enters the output from a report |
| Contents.PublicIsReportable | api/scripts/sync-openapi-from-diff.ts:437-449 | every other line with a known method and a path is acted on |
| Synchroniser.SpecFile.CollectOperationIds | api/scripts/sync-openapi-from-diff.ts:422-429 | the collecting loop gathers exactly the string ids of the operations |
| Synchroniser.SpecFile.AddReported | api/scripts/sync-openapi-from-diff.ts:435-484 | one report line changes document and used ids as specified, and is counted exactly when it adds an endpoint |
| Synchroniser.SpecFile.AddMissing | api/scripts/sync-openapi-from-diff.ts:432-485 | the add loop computes the specified document and id set, and counts the new endpoints |
| Synchroniser.SpecFile.EnrichTexts | api/scripts/sync-openapi-from-diff.ts:495-517 | tags, summary and description as specified from the old ones |
| Synchroniser.SpecFile.ChooseId | api/scripts/sync-openapi-from-diff.ts:519-525 | the id of an operation and the growth of the used set |
| Synchroniser.SpecFile.EnrichOperation | api/scripts/sync-openapi-from-diff.ts:492-548 | one turn of the enrichment loop changes only its own entry, as specified |
| Synchroniser.SpecFile.EnrichOperations | api/scripts/sync-openapi-from-diff.ts:487-550 | the enrichment loops compute the specified document and count each operation once |
| Synchroniser.SpecFile.RemoveNonVersionedAliases | api/scripts/sync-openapi-from-diff.ts:387-403 | the loop that deletes while it iterates computes the specified document; the count is the number of paths lost |
| Synchroniser.SpecFile.Synchronise | api/scripts/sync-openapi-from-diff.ts:405-552 | the whole script computes the function all theorems below speak of |
| Synchroniser.SweepDeletes | api/scripts/sync-openapi-from-diff.ts:396-399 | deleting a path in the middle of the loop leaves the outcome of the loop unchanged |
| Validator.InspectSound | api/scripts/validate-collective-contract.ts:55-83 | one operation's turn keeps the four lists and the first-seen map exact |
| Validator.CleanIffContract | api/scripts/validate-collective-contract.ts:99-104 | the four lists are empty if and only if every operation has a non-blank id, tags and the block and no two trimmed ids are equal |
| Validator.Validate | api/scripts/validate-collective-contract.ts:48-104 | the pass accepts exactly the documents that meet the contract; each list names exactly the operations with that issue, each duplicate with the first holder of its id; every operation is counted once |
| Acceptance.SynchronisedIsAccepted | api/scripts/sync-openapi-from-diff.ts:405-552 | for every document whose ids are trimmed and not shared between path items, and every report, the validator accepts the output |
| Acceptance.AcceptedIff | api/scripts/sync-openapi-from-diff.ts:487-552 | for every document: the output of enrichment and alias removal is accepted if and only if no two surviving operations keep ids that are equal after trimming and no generated id is the trimmed form of a kept one |
| Acceptance.KeptAlikeRejected | api/scripts/validate-collective-contract.ts:63-70 | for every document: two surviving operations that keep ids equal after trimming make the validator reject the output |
| Acceptance.SynchronisedAcceptedIff | api/scripts/sync-openapi-from-diff.ts:405-552 | the same equivalence for the whole script, on every document and report, with the condition taken once the report's endpoints are in |
| Acceptance.SynchronisedAcceptedIffKept | api/scripts/sync-openapi-from-diff.ts:405-552 | read off the input: if the trimmed form of every id is in use itself, the output is accepted if and only if no two operations of the document, on paths that survive, keep ids equal after trimming |
| Outcome.OutputUniqueInItem | api/scripts/sync-openapi-from-diff.ts:519-525 | in the output every operation has an id, and those of one path item differ, with no assumption on the input's ids |
| Idempotence.RerunIff | api/scripts/sync-openapi-from-diff.ts:487-552 | a run on an enriched, alias-free document changes nothing if and only if no path item in it holds an operation's id twice |
| Idempotence.SynchroniseTwiceIff | api/scripts/sync-openapi-from-diff.ts:405-552 | a second run on the output changes nothing if and only if no generated id collides with stray entries, that is entries of path items that are not operations but hold an operation id |
| Idempotence.RepeatIff | api/scripts/sync-openapi-from-diff.ts:521-522 | the output repeats an operation's id within some path item exactly if a generated id collides with stray entries |
| Idempotence.SynchroniseTwice | api/scripts/sync-openapi-from-diff.ts:405-552 | a second run changes nothing, in any iteration order, if stray entries hold only ids that operations use as well or that have a character no generated id has |
| Coverage.ReportedReachOutput | api/scripts/sync-openapi-from-diff.ts:434-552 | without alias pairs, and unless document and report lead to both `/` and `/v1`, the output has all paths there are after the report, every old entry, and every reported endpoint that is not skipped |
| Coverage.RootlessReachOutput | api/scripts/sync-openapi-from-diff.ts:434-552 | the same for documents and reports that do not mention `/` |
| Coverage.LostExactly | api/scripts/sync-openapi-from-diff.ts:387-403 | in any order: an operation is lost exactly when its path is removed; its endpoint survives exactly when the twin had the method and is not removed itself, as happens to the root's twin only when `/`, `/v1` and `/v1/v1` are all there |
| Coverage.OutputExactly | api/scripts/sync-openapi-from-diff.ts:405-552 | on every document and report: the output has exactly the entries that were there or that the report brings in, on paths that survive; all of it read off the input |
| Coverage.OutputPaths | api/scripts/sync-openapi-from-diff.ts:405-552 | the output's paths are those paths |
| Coverage.LiveAfterClosed | api/scripts/sync-openapi-from-diff.ts:387-403 | the paths that survive, in closed form over document and report |
| Coverage.ReportedReachesIff | api/scripts/sync-openapi-from-diff.ts:434-552 | a reported endpoint that is not skipped is in the output if and only if the path it goes to survives, or its other form has the method and survives |
| Contents.OutputContent | api/scripts/sync-openapi-from-diff.ts:405-552 | every operation of the output, old or reported, says field by field what its old content requires |
| Contents.OutputOther | api/scripts/sync-openapi-from-diff.ts:489-491 | what is not an operation is in the output as it was |
| SyncExamples.PairKeeps | api/scripts/sync-openapi-from-diff.ts:521-521 | two operations on different paths keep their ids, equal or not, unless blank |
| SyncExamples.SharedOrUntrimmedRejected | api/scripts/validate-collective-contract.ts:63-70 | the smallest such documents: two operations, ids equal or equal after trimming, on two surviving paths; the validator rejects the output |
| SyncExamples.GeneratedMeetsUntrimmed | api/scripts/validate-collective-contract.ts:63-70 | an id kept with a space before it and a generated id that is its trimmed form: rejected as well |
| SyncExamples.AliasRemovalLosesOperation | api/scripts/sync-openapi-from-diff.ts:396-398 | a method the twin lacks is in neither form in the output |
| SyncExamples.StrayIdBreaksIdempotence | api/scripts/sync-openapi-from-diff.ts:521-522 | a path-item extension holding the id that will be generated makes the second run rename the operation |
| SyncExamples.RootReportIsLost | api/scripts/sync-openapi-from-diff.ts:387-403 | an empty document and a report of `GET /` and `POST /v1`: both are added, the first is removed again, and `GET` is in the output under none of `/`, `/v1/` and `/v1` |
| SyncExamples.AliasReportIsLost | api/scripts/sync-openapi-from-diff.ts:387-403 | on every document with a path and its versioned twin, a report line for the former with a method the twin lacks is added and removed again in the same run |
| SyncExamples.AliasReportExists | api/scripts/sync-openapi-from-diff.ts:387-403 | such documents and lines exist for every public path that can be removed |
| SyncExamples.PairExists | api/scripts/sync-openapi-from-diff.ts:489-492 | documents of two operations exist for every pair of paths, methods and ids, or no ids |
| SyncExamples.StrayExists | api/scripts/sync-openapi-from-diff.ts:489-492 | so do documents with a stray id |
| Extractor.Spec.HideExplicitlyHiddenOperations | api/scripts/extract-openapi-from-server.ts:108-128 | hiding removes exactly the paths with a hidden entry and reports the first hidden entry of each, in path order; values that are no objects are skipped |
| Extractor.ShownExactly | api/scripts/extract-openapi-from-server.ts:108-128 | hiding leaves exactly the paths under none of whose keys, method or not, stands an object that asks for it |
| Extractor.NothingHiddenPublished | api/scripts/extract-openapi-from-server.ts:419-421 | after hiding and alias removal no hidden operation is left, in any order |
| Extractor.PublishedPaths | api/scripts/extract-openapi-from-server.ts:90-128 | the published paths in closed form, for all paths that start with a slash and in every order |
| Extractor.OtherOrderPaths | api/scripts/extract-openapi-from-server.ts:419-421 | the paths that would be published if aliases were removed first, likewise |
| Extractor.HidingFirstCompared | api/scripts/extract-openapi-from-server.ts:419-421 | hiding first publishes in addition exactly the visible aliases of hidden paths, and does not publish the root if only a hidden `/v1/v1` would have saved it; the orders agree if and only if there is neither |
| Extractor.HiddenTwinExists | api/scripts/extract-openapi-from-server.ts:419-421 | documents on which the two orders differ exist for every removable path |
| Extractor.FallingRootExists | api/scripts/extract-openapi-from-server.ts:419-421 | so do documents on which hiding first publishes less |
| Provisioning.ScriptsCompatible | api/scripts/provision-chat-free-tier-key.runtime.js:38-44 | any mix of the four scripts meets the side condition of the safety theorem, whatever their lock names hash to |
| ProvisioningMix.TwinsAlike | api/scripts/provision-anonymous-guest-key.runtime.js:61-67 | a script and its runtime twin provision the same rows under the same lock |
| ProvisioningSafety.StatementKeepsRun | api/scripts/provision-anonymous-guest-key.ts:66-145 | each statement keeps what a run knows about the committed rows and its own writes |
| ProvisioningSafety.ForeignCommit | api/scripts/provision-anonymous-guest-key.ts:105-105 | a commit by the holder of another lock takes nothing away from what a run knows |
| ProvisioningSafety.CommitKeepsInv | api/scripts/provision-anonymous-guest-key.ts:160-171 | a commit keeps the invariant for all services and runs |
| ProvisioningSafety.WithdrawKeepsInv | api/scripts/provision-anonymous-guest-key.ts:112-116 | so does an operator who revokes or deletes a key meanwhile |
| ProvisioningSafety.ReachableInv | api/scripts/provision-anonymous-guest-key.ts:101-158 | the invariant holds in every reachable state |
| ProvisioningSafety.ProvisioningIsSafe | api/scripts/provision-anonymous-guest-key.ts:66-158 | in every interleaving of any number of runs with aborts anywhere: at most one organization, user and active key per service, the user's organization exists, every key minted carries its user's organization |
| ProvisioningSafety.CommittedRunHasProvisioned | api/scripts/provision-anonymous-guest-key.runtime.js:69-147 | after a committed run the service has exactly one user and that user exactly one active key |
| ProvisioningMix.MixIsSafe | api/scripts/provision-anonymous-guest-key.ts:51-158 | in every behaviour of any mix of the four scripts from an empty database: at most two organizations, two users and two active keys, at most one of each of either name, and nothing else |
| ProvisioningProgress.StatementEnabled | api/scripts/provision-anonymous-guest-key.ts:66-145 | between lock and commit a next statement is always possible: no constraint ever refuses an insert |
| ProvisioningProgress.SomeRunCanAdvance | api/scripts/provision-anonymous-guest-key.ts:101-171 | no deadlock: while a run is unfinished it, or the holder of its lock, can move towards its commit |
| ProvisioningProgress.StepLowersTotal | api/scripts/provision-anonymous-guest-key.ts:101-171 | every step of a run lowers the total of remaining steps |
| ProvisioningProgress.RunsTerminate | api/scripts/provision-anonymous-guest-key.ts:101-171 | however they interleave, runs together take at most eight steps each |
| ProvisioningProgress.RerunsChangeNothing | api/scripts/provision-anonymous-guest-key.ts:16-28 | when everything is provisioned, no interleaving of re-runs changes a row |
| ProvisioningProgress.DifferentLocksMintTwoKeys | api/scripts/provision-chat-free-tier-key.ts:156-163 | two scripts for the same rows with locks of different numbers can end with two active keys |
| ProvisioningScript.Transaction.EnsureOrgAndUser | api/scripts/provision-anonymous-guest-key.ts:66-99 | while other runs commit between its statements, the control flow makes steps of the machine and ends with a user of the service and its organization, creating only what was missing |
| ProvisioningScript.Transaction.Provision | api/scripts/provision-chat-free-tier-key.ts:95-154 | so does the whole body up to its commit; it mints at most one key, owned by the service user, and only if there was no active one when it looked |
| ProvisioningScript.Transaction.TransactionWalks | api/scripts/provision-anonymous-guest-key.ts:66-145 | what the control flow has done at any point is such a walk |
| ProvisioningScript.Transaction.EnsureKey | api/scripts/provision-anonymous-guest-key.ts:109-145 | the key is found or created, on the rows seen at that moment |
| ProvisioningScript.OthersKeepRely | api/scripts/provision-anonymous-guest-key.ts:105-105 | one step of another run or operator, in a reachable state: no organization, user or active key of the service is added, no organization or user removed |
| ProvisioningScript.BehaviourKeepsRely | api/scripts/provision-anonymous-guest-key.ts:101-158 | the same between any two moments of a run's transaction, in every behaviour, over any number of steps of the others |
| ProvisioningScript.RunWalks | api/scripts/provision-anonymous-guest-key.ts:101-158 | what a run does during its transaction in a behaviour is a walk of statements, on rows that change as above between them |
| Scanner.ExtractBalanced | api/scripts/check-documentation.ts:63-121 | the loop returns the text up to the first position where the code-level depth returns to zero, and nothing exactly when there is none |
| Scanner.ExtractBalancedContent | api/scripts/check-documentation.ts:252-299 | the second loop meets the same kind of specification, by first zero of the depth |
| Scanner.SameDelimiters | api/scripts/check-documentation.ts:104-114 | asked for one and the same character on both sides, the first scanner returns that character |
| Scanner.FirstCloseIsFirstZero | api/scripts/check-documentation.ts:103-115 | the two specifications stop at the same position |
| Scanner.ScannersAgree | api/scripts/check-documentation.ts:63-299 | on every text and every opening brace the two scanners return the same |
| Scanner.NestedScanStaysInside | api/scripts/check-documentation.ts:617-628 | a scan restarted at an inner brace read in code state closes strictly inside the outer block |
| Scanner.ExtractNested | api/scripts/check-documentation.ts:577-628 | the nested extraction: the schema found lies in the route's object, ends before it, and is a part of its text |
| Scanner.NestedScanInStringCanFail | api/scripts/check-documentation.ts:618-628 | a brace inside a string literal: the outer scan closes, the restarted one does not |
| Scanner.NestedScanInStringCanOverrun | api/scripts/check-documentation.ts:618-628 | or the restarted scan closes past the end of the outer block |
| BlockPrinter.LiteralScan | api/scripts/check-documentation.ts:93-101 | a printed literal is left in code state if and only if it does not end in an escaped backslash |
| BlockPrinter.PrintedBlockCloses | api/scripts/check-documentation.ts:63-121 | a scan from the opening brace of a printed block, in any context, closes at its last brace |
| BlockPrinter.RoundTrip | api/scripts/check-documentation.ts:63-121 | both scanners return exactly the printed body and the position just past the brace |
| BlockPrinter.LiteralBlockClosesIff | api/scripts/check-documentation.ts:96-96 | a block with one literal is seen to close if and only if the literal does not end in an escaped backslash |
| Ontology.SeededExactly | api/scripts/hcra-sprint1-bootstrap.ts:35-72 | seeded rows end with the seed's fields and edges, all others are unchanged, nothing else appears |
| Ontology.SeededBySlug | api/scripts/hcra-sprint1-bootstrap.ts:35-72 | entry by entry, for distinct slugs: the row under the entry's uri has its fields and edges, with the version and status it had or version 1 and active |
| Ontology.UnseededUntouched | api/scripts/hcra-sprint1-bootstrap.ts:35-72 | every other row is as it was, or absent as it was |
| Ontology.RunRows | api/scripts/hcra-sprint1-bootstrap.ts:36-69 | every row after any number of statements |
| Ontology.CrashThenRerun | api/scripts/hcra-sprint1-bootstrap.ts:35-72 | a run stopped after any statement and repeated in full ends like one never stopped |
| Ontology.SeedingConverges | api/scripts/hcra-reseed-ontology.ts:42-76 | after any series of stopped runs one complete run reaches the same table; completing twice changes nothing |
| Ontology.EdgesNeverEmptied | api/scripts/hcra-sprint1-bootstrap.ts:41-48 | at every intermediate step a row's edges are the old ones or a seed entry's |
| Ontology.OntologyTable.SeedOntology | api/scripts/hcra-reseed-ontology.ts:42-76 | the two loops, stopped after any number of statements, leave the specified table and count the edges |
| Backfill.PlanEffect | api/scripts/hcra-sprint1-bootstrap.ts:89-159 | what is in the database after the first models' statements |
| Backfill.CrashThenRerun | api/scripts/hcra-sprint1-bootstrap.ts:81-162 | a run stopped after any statement and then repeated in full leaves the same rows and projections as one run |
| Backfill.BackfillConverges | api/scripts/hcra-sprint1-bootstrap.ts:81-162 | the same after any series of stopped runs |
| BackfillOutcome.RowsExactly | api/scripts/hcra-sprint1-bootstrap.ts:89-135 | how often every row is there after a complete run: a row of this source and origin, with confidence 0.2 and 90 days, once for each element of its model's list that maps to its uri, any other row as often as before |
| BackfillOutcome.ProjectionExactly | api/scripts/hcra-sprint1-bootstrap.ts:137-151 | a model with a mapped slug ends with exactly its mapped uris, in list order, each with this source and confidence; others are unchanged |
| BackfillOutcome.UnmappedExactly | api/scripts/hcra-sprint1-bootstrap.ts:114-119 | each slug without a uri is counted once for each time it is listed |
| Backfill.ForeignRowsKept | api/scripts/hcra-sprint1-bootstrap.ts:89-93 | rows of other sources or origins, their order included, are the same after any prefix of a run |
| Backfill.StatsConserve | api/scripts/hcra-sprint1-bootstrap.ts:108-154 | processed and skipped add up to the models, assertions written and unmapped slugs to the legacy slugs, and the written count is the number of rows |
| Backfill.SeededUrisExist | api/src/capability/ontology/seed.ts:982-984 | after a complete seeding every inserted uri has its row in the ontology |
| BackfillOutcome.LegacyMappingExactly | api/src/capability/ontology/seed.ts:982-984 | the mapping takes exactly the seed's slugs, each to its uri |
| Backfill.Classify | api/scripts/hcra-sprint1-bootstrap.ts:105-121 | the filtering loop finds the string slugs, their uris and the unmapped ones |
| Backfill.BackfillModel | api/scripts/hcra-sprint1-bootstrap.ts:104-154 | one model's two statements, stopped between any two of them, and its statistics |
| Backfill.Backfill | api/scripts/hcra-sprint1-bootstrap.ts:81-162 | the paged loop visits every model once in the order of the query and ends; stopped anywhere it has done a prefix of the plan |
| LintRatchet.CalculateRuleCounts | api/scripts/lint-no-regression.ts:83-92 | a rule has a counter exactly when a message carries it, equal to the number of such messages |
| LintRatchet.KeysCounted | api/scripts/lint-no-regression.ts:83-92 | the count of a rule is the number of messages, over all results, that carry it, those without a rule under a name of their own |
| LintRatchet.FindRuleRegressions | api/scripts/lint-no-regression.ts:202-223 | exactly the rules that grew are reported, with both counts, largest growth first; the deltas add up to the total rise |
| LintRatchet.FindReductions | api/scripts/lint-no-regression.ts:225-238 | exactly the baseline rules that fell, largest fall first; the reductions add up to the total fall |
| LintRatchet.ReportsBalance | api/scripts/lint-no-regression.ts:202-238 | sum of current less sum of baseline is the sum of regressions less the sum of reductions |
| LintRatchet.SortedIsPermutation | api/scripts/lint-no-regression.ts:222-222 | sorting reorders and no more |
| LintRatchet.SortedIsStable | api/scripts/lint-no-regression.ts:222-222 | entries with equal figures stay in their order |
| LintRatchet.Gate | api/scripts/lint-no-regression.ts:258-357 | the exit code says exactly whether totals, strict files and every single rule are within the baseline; an update records the results |
| LintRatchet.ListStrictViolations | api/scripts/lint-no-regression.ts:171-190 | exactly the strict files with an error, a fatal error or a warning are listed |
| LintRatchet.RatchetHolds | api/scripts/lint-no-regression.ts:258-357 | along any sequence of passing gates and updates taken on the results that passed, no rule and no total ever exceeds the first baseline |
| LintRatchet.RatchetIff | api/scripts/lint-no-regression.ts:264-339 | with updates taken whenever one likes, no figure of the baseline ever rises if and only if every update was taken on results within the baseline it replaced |
| Scores.CalculateDocumentationScore | api/scripts/check-documentation.ts:467-505 | the score is the sum of what the conditions that hold are worth and of the share of described properties; it lies in 0 to 100 before the clamp and is 100 exactly for a fully documented endpoint |
| Scores.CalculateSecurityScore | api/scripts/check-documentation.ts:449-462 | the score is 100 less 20 for each kind of issue raised and 30 without security; it lies in 10 to 100 before the clamp, with both ends characterised |
| Scores.CheckSecurityIssues | api/scripts/check-documentation.ts:183-215 | each kind of issue is raised once or not at all, the first exactly if one of its patterns matches |
| Scores.AtMostThree | api/scripts/check-documentation.ts:183-215 | so at most three issues, and three only if every kind is raised |

## Left out

- Files, network, Postgres, Prisma, Fastify, ESLint, YAML and console output: the database is sets, sequences and maps, documents and lint results are parameters.
- The tag table and the document's list of valid tags: `tagFor` is an arbitrary function of the path.
- Component, server and top-level security constants the synchroniser writes: constant data outside `paths`.
- Descriptions after their first line, response bodies, parameter schemas and all but the contribution type of the collective block: fixed text, one value each in the model.
- JavaScript strings as UTF-16 code units beyond single characters, upper-casing of letters outside ASCII, and look-ups that reach `Object.prototype` (a slug or a method named `constructor`).
- Path items and operations that are `null` or, under a method key, no object: `Valid` asks for objects there, as section 4.7.9 of the OpenAPI Specification 3.0.3 does; the validator's own skipping of non-objects is modelled.
- Arrays of parameters and responses that are shared between operations by reference: parsed JSON shares nothing.
- The count of endpoints skipped as excluded.
- Acceptance.SynchronisedAcceptedIffKept: assumes that the trimmed form of every id is in use itself, without which the ids generated on the way matter; the condition for all documents is in `Acceptance.SynchronisedAcceptedIff`, on the document with the report's endpoints in it.
- Idempotence.SynchroniseTwice: asks for stray ids that are never generated, which is sufficient; the condition that is also necessary is in `Idempotence.SynchroniseTwiceIff`.
- Blocking of two inserts of the same unique e-mail, and case-insensitive comparison of e-mails: under the lock no two such inserts meet.
- Password hashes, key material, key prefixes and metadata of created rows; ids are fresh numbers.
- The 60 second timeout of a transaction: an abort, possible at any step.
- ProvisioningScript.Transaction.Provision: the rows other runs commit meanwhile are a parameter, restricted to what `BehaviourKeepsRely` shows of the machine.
- Time stamps, row ids and supersession links of assertions, and the JSON form of the projection columns.
- Backfill.Backfill: the models table does not change under the run except by the run itself, and the listing by uid is a parameter.
- The reading of `lineNumber` and the regular expressions of the documentation checker: `find` in `Scanner.ExtractNested` is any function that returns the position of an opening brace.
- Property counting in the documentation checker: a list of flags, one for each counted property, which keeps that described properties are among the counted ones.
- `analyzeSchemaQuality` and the missing-field issue list of the documentation checker: threshold look-ups on the scores.
- Rounding of the property ratio: real arithmetic.
- Reading a malformed or missing lint baseline, default strict lists, and the printed locations: `strict` is a flag of each result.
- The comparison sort of the lint reports is an insertion from the right end, which gives the same stable order.
- `hcra-close-coverage.ts`, `hcra-validate-e2e.ts`, `operability-smoke.ts`, `_provider-lifecycle-audit.ts`, `lint-architecture-boundaries.ts` and `generate-evidence-pack.ts`: calls into other modules or single-branch classifications.
