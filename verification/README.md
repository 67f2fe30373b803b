# Verified models of the app server, the schema exporter, apply-patch and the conformance gates

This Dafny project models the parts of the repository where many pieces have
to work together, and proves what they promise as a whole.

- **App server** (`AppServer*`, `RequestRouting`, `OutboundRouting`). The
  connection tasks, the processor task, the request handlers and the outbound
  router task run concurrently, linked by bounded FIFO channels and a shared
  route table. `AppServer` is a step relation over all their interleavings; the
  router's receipt of an answer (which takes its route away) and each single
  delivery are separate steps. History fields record what became of every
  request read and every answer given to a writer. All theorems are about every
  state of every run.
- **Approvals** (`Approvals`). Requests from the server to a client, their
  one-shot callbacks, and the handlers that submit a decision.
- **Schema export** (`Json`, `CanonicalJson`, `CanonicalOrder`, `FixtureText`,
  `TopLevelScan`, `TopLevelNesting`, `UnionArms`, `MethodPruning`,
  `TypePruning`, `PruningResults`, `TitleAnnotation`, `TitlePlaces`,
  `SchemaBundle`, `BundleTitles`, `BundleContents`): the canonical form of
  JSON, the TypeScript scanner, pruning, titles and references.
- **apply-patch** (`PatchParser`, `PatchPrinter`, `PatchGrammar`,
  `SeekSequence`): the parser, a printer for its language and the proof that
  each is exactly the other's inverse, and the fuzzy line search.
- **Configuration edits** (`Toml`, `ConfigService`, `ConfigOutcomes`).
- **Conformance gates** (`RegressionGate`, `RegressionGateLaws`,
  `RegressionReports`, `ReviewGate`, `ReviewReports`).

`Text`, `Trimming`, `Lines` and `Sorting` hold what several of them share.

Code that the source writes as loops and mutations is a method or a class here
and is proved equal to a function; the laws are lemmas about that function. The
modules named second in a group (`AppServerMessages`, `CanonicalOrder`,
`TopLevelNesting`, `TitlePlaces`, `BundleContents`, `PatchGrammar`,
`ConfigOutcomes`, the two `Reports`) say what the result is in terms of the
input alone, without the functions of the program.
`dafny verify dfyconfig.toml` checks the whole project. Some lemmas use `hide`
to keep their proof obligations small.

## Where the code and what is said about it differ

- `seek_sequence`'s comment says that with `eof` the search falls back to
  `start`, and that a result is at or after `start`. Only the end position can
  be returned (`SeekSequence.EofFindsIff`): `SeekSequence.EofMissesAnEarlierMatch`
  is an input where that loses a match, `SeekSequence.EofFindsBeforeTheStart`
  one where the result lies before `start`, and
  `SeekSequence.EofRespectsStartIff` says exactly when it does not.
- A configuration write that ends in an error does not always leave the file
  alone: a write that fails midway has already emptied it, and the path is
  resolved after the file was replaced
  (`ConfigService.AnErrorCanChangeTheFile`).
  `ConfigService.AnErrorKeepsTheFileIff` says exactly when it does.
- Merging TOML values does not keep every path missing in the incoming value:
  an incoming leaf replaces a whole table (`Toml.LeafReplacesWholeTable`).
  `Toml.MissingPathsAreKeptIff` says exactly which paths are kept.
- Pruning experimental methods in one pass is not complete for every JSON
  value: an `enum` that holds an experimental variant beside one experimental
  name turns its item into a variant (`MethodPruning.PruningCanCreateAVariant`).
  `MethodPruning.PruningIsCompleteIff` and `PruningIsIdempotentIff` say exactly
  when it is.
- A compact regression baseline does not always stand for its report:
  scenarios that were only skipped are not in it
  (`RegressionGateLaws.SkippedScenarioIsLostInCompact`). It does exactly when
  every transport has a check, and every required scenario one over HTTP, with a
  status other than SKIP (`RegressionGateLaws.CompactBaselineIsFaithfulIff`).

## Assumptions

- The router's biased `select!` is one atomic choice that prefers control
  events; polling the two channels one after the other is not modelled.
- The router reads the initialized and opt-out flags of all connections in one
  step (`RouterTargets`); the source loads them one by one while the processor
  may run.
- An answer is sent by a handler inside the processor task or by a task it
  spawned; both wait for the bounded outgoing channel. Only the first keeps the
  processor waiting.
- A handler may answer any number of times, also never, with any internal id
  the processor ever gave out. The code answers once; the theorems hold for the
  larger behaviour.
- The counters for request ordinals, connection ids and server request ids do
  not wrap (they are 64 bits wide).
- `to_string_pretty` and the TOML parser are inverse where a lemma says
  `Inverse`; the digest of a file, the scenario catalog, the reading of an
  approval's JSON and `to_pascal_case` are parameters about which nothing is
  assumed.

## Model

| member | source | states |
|---|---|---|
| RequestRouting.InternalIdInjective | code-rs/app-server/src/lib.rs:314-317 | The internal id determines connection and ordinal, for all values, and carries the reserved prefix |
| RequestRouting.RequestRoutes.Insert | code-rs/app-server/src/lib.rs:313-329 | The request is found under an id that determines its connection and ordinal; every other key reads as before, and with the ordinals the processor counts no registered request is overwritten |
| RequestRouting.AnswerFindsItsWayBack | code-rs/app-server/src/lib.rs:313-439 | An answer under the id given out goes to the requesting connection under the original id and leaves the table as it was before the request; answers to other requests are not affected by it |
| RequestRouting.RequestRoutes.RewriteResponseRouting | code-rs/app-server/src/lib.rs:378-439 | The loop-free rewriting equals the specification: route removed on first use, original id restored, unroutable internal ids dropped |
| RequestRouting.RequestRoutes.RemoveForConnection | code-rs/app-server/src/lib.rs:445-451 | A key stays exactly when its route is of another connection, with its value, whatever the order of the visit; nothing changes exactly when the connection had no route |
| RequestRouting.RequestRoutes.HasPendingRequests | code-rs/app-server/src/lib.rs:458-464 | The polled test finds a route of the connection exactly when there is one |
| RequestRouting.RemovedRoutesAreDropped | code-rs/app-server/src/lib.rs:378-451 | After the removal answers to the connection's requests reach nobody and all others go where they went; rewriting and removing leave the same table in either order |
| AppServerAnswers.StepKeeps | code-rs/app-server/src/lib.rs:150-356 | Every step of every task keeps the answer invariant: fresh ids, routes that belong to their requests, at most one answer per request |
| AppServerAnswers.RouterNeverBroadcastsAnswers | code-rs/app-server/src/lib.rs:378-439 | In every run an answer leaves the router for at most one connection; an answer without a route is never broadcast |
| AppServerOutcomes.AnswersSentAreRequestsAnswered | code-rs/app-server/src/lib.rs:307-343 | In every run, for every connection and id, the writer was given exactly as many answers with that id as requests with that id from that connection were answered, so never more than were read |
| AppServerArrival.RequestsComeAfterOpening | code-rs/app-server/src/lib.rs:304-311 | In every run a request is taken only after its connection was opened, so the unknown connection whose request is dropped is one removed since |
| AppServerOutcomes.EveryRequestIsAccountedFor | code-rs/app-server/src/lib.rs:303-344 | Conservation: every request ever read is queued, routed under its own id, held by the router, has exactly one answer in its connection's log under its own id, or has none and met one recorded end, each with what it implies: the connection is no longer served, no longer known, or the processor has exited |
| AppServerLifecycle.StepRegisters | code-rs/app-server/src/lib.rs:160-181 | Every step keeps the registration order of each connection: announced, opened, controlled, registered once, unregistered once |
| AppServerSessions.StepKeepsLifecycle | code-rs/app-server/src/lib.rs:231-356 | Every step of every task keeps the registration and session invariants together |
| AppServerSessions.TablesAgreeAtEventBoundaries | code-rs/app-server/src/lib.rs:237-302 | Whenever the processor is between events, every route and listener belongs to a known connection and session and outbound flags agree |
| AppServerSessions.RouterClosesOnce | code-rs/app-server/src/lib.rs:183-212 | The router queues at most one close per connection and never for one still in its map |
| AppServerSessions.SecondCloseChangesNothing | code-rs/app-server/src/lib.rs:268-302 | From taking a second ConnectionClosed until it is done, connections and listeners stay and no route of another connection is touched by it, under every interleaving |
| AppServerDrain.StdioIsDrainedBeforeClose | code-rs/app-server/src/lib.rs:268-291 | When the router reaches Closed for stdio and the writer still works, the reader has ended and every request it read was answered or refused, although control events overtake envelopes |
| AppServerOutcomes.StdioHasItsAnswersBeforeClose | code-rs/app-server/src/lib.rs:268-291 | At that moment the stdio writer has been given, for every id, as many answers as requests with that id were read, minus those refused without an overload error |
| AppServerProgress.RouterAlwaysMakesRoom | code-rs/app-server/src/lib.rs:154-212 | In every reachable WebSocket state the router alone can make room in the control and in the outgoing channel while the processor stays as it is |
| AppServerProgress.ProcessorIsReleased | code-rs/app-server/src/lib.rs:154-356 | No deadlock: from every reachable WebSocket state whose processor is in an event, also in the middle of a handler's send, the run goes on by finitely many router steps and then a step of the processor that brings it nearer to the end of the event |
| AppServerProgress.ProcessorReturnsToItsLoop | code-rs/app-server/src/lib.rs:231-356 | From every reachable WebSocket state the run can go on by steps of the router and the processor alone until the processor is between events |
| AppServerProgress.QueuesStayBounded | code-rs/app-server/src/transport.rs:42 | No channel and no writer queue ever exceeds its capacity |
| OutboundRouting.OutboundConnections.WriteFails | code-rs/app-server/src/transport.rs:530-553 | Fails exactly when the writer is closed, full without backpressure, or stops while it is waited for; the writer's log grows by the message exactly when it does not fail, and no queue exceeds its capacity |
| OutboundRouting.OutboundConnections.DeliverTo | code-rs/app-server/src/transport.rs:514-524 | Every target whose writer takes the message gets it once; exactly the others are forgotten and reported, each once |
| OutboundRouting.OutboundConnections.RouteOutgoingEnvelope | code-rs/app-server/src/transport.rs:477-528 | The same for the recipients of an envelope. A client gets it exactly if it is the one addressed or, for a broadcast, is initialized, did not opt out of the notification, and has a writer that takes it; who was meant and has none is forgotten, nobody else is affected, and an opt-out holds back nothing but notifications |
| OutboundRouting.StepsRouteTheEnvelope | code-rs/app-server/src/transport.rs:477-553 | In WebSocket mode the step relation's choice of targets and its delivery steps, uninterrupted, do with every rewritten envelope exactly what the method promises: who is meant and can be served gets it once, who is meant and cannot is forgotten and queued for closing once, nobody else is affected |
| OutboundRouting.StdioStepsRouteTheEnvelope | code-rs/app-server/src/transport.rs:530-553 | In stdio mode the router's step is not enabled exactly while the open writer is full, and whatever the writer then does the delivery has exactly the method's effect |
| AppServerMessages.EveryMessageHasItsSource | code-rs/app-server/src/transport.rs:460-528 | In every run whatever a writer was given is its own overload error, or was sent by a handler or a listener to that connection or to all; when it was routed the connection was addressed or published as initialized, and a notification was not among the names it had last opted out of |
| AppServerMessages.EveryTargetIsServed | code-rs/app-server/src/transport.rs:455-553 | In every run a registered connection an envelope is meant for is given the message once, at the end of its log, if its writer is open with fewer than 128 messages queued, and is unregistered if not; the router goes on to the next envelope only after that |
| AppServerMessages.FlagsAreTheClientsOwn | code-rs/app-server/src/transport.rs:455-475 | In every run the opt-outs and the initialized flag the router sees are those the connection's own handler published last |
| Approvals.OnlyTheOwnerResolves | code-rs/app-server/src/outgoing_message.rs:144-177 | An answer changes the table exactly when its id is pending and its sender may answer it |
| Approvals.OutgoingMessageSender.SendRequest | code-rs/app-server/src/outgoing_message.rs:94-137 | Registers a callback under a fresh id and sends; a failed send leaves no callback and a closed receiver |
| Approvals.OutgoingMessageSender.NotifyClientResponse | code-rs/app-server/src/outgoing_message.rs:144-181 | The value reaches the receiver once, only from a sender that may answer |
| Approvals.OutgoingMessageSender.NotifyClientError | code-rs/app-server/src/outgoing_message.rs:187-222 | An error drops the callback, under the same ownership test |
| Approvals.OutgoingMessageSender.ClearCallbacksForConnection | code-rs/app-server/src/outgoing_message.rs:224-231 | Exactly the callbacks owned by the connection are dropped, whatever the order of the visit |
| Approvals.PendingAnsweredOrCancelled | code-rs/app-server/src/outgoing_message.rs:94-231 | In every run each issued id is in exactly one of pending, answered and cancelled, and nothing else is pending |
| Approvals.FirstResolutionIsFinal | code-rs/app-server/src/outgoing_message.rs:144-231 | An answer or cancellation is never replaced |
| Approvals.WhatResolved | code-rs/app-server/src/outgoing_message.rs:150-231 | Behind every resolved request is one earlier step: the owner's answer with exactly that value, or a cancellation |
| Approvals.ApprovalNeedsOwnersApproval | code-rs/app-server/src/code_message_processor.rs:1671-1711 | An approving decision is submitted only if a sender that may answer, so the owner where there is one, answered that pending request with a readable answer of that very approval: one command for the amendment or a plain approval, the session only for a session approval; and it goes out under the request's own approval id |
| Approvals.FirstReadableAnswerOrDenied | code-rs/app-server/src/code_message_processor.rs:1834-1894 | The submitted decision, case by case from the resolving answer: approved, approved for the session, aborted and denied as the answer reads, and denied for an error, a disconnect, a failed send or an unreadable answer |
| Approvals.SubmissionFollowsTheAnswer | code-rs/app-server/src/code_message_processor.rs:1671-1711 | In every run each submission is the one its request asks for: a patch request gets a patch approval, an exec request an exec approval with its own turn, both under the request's approval id and with exactly the decision the resolving answer reads as |
| Approvals.DecidedOnceAndNeverForgotten | code-rs/app-server/src/code_message_processor.rs:1514-1553 | No request is decided twice; a resolved one is decided or its handler can run |
| Approvals.DisconnectCancelsExactlyItsOwn | code-rs/app-server/src/outgoing_message.rs:224-231 | A disconnect closes exactly the waiting requests of that connection |
| Json.SerializeInjective | code-rs/app-server-protocol/src/schema_fixtures.rs:133-140 | Different JSON values have different compact texts, so the text used for sorting identifies the item |
| Sorting.SortDecidesReordering | code-rs/app-server-protocol/src/schema_fixtures.rs:142-153 | Two sorted results are equal exactly when the inputs are reorderings of each other |
| CanonicalJson.CanonicalizeJson | code-rs/app-server-protocol/src/schema_fixtures.rs:110-166 | The recursion with its loops and sorts computes the canonical form |
| CanonicalJson.CanonicalizeArray | code-rs/app-server-protocol/src/schema_fixtures.rs:111-154 | The array case: the early return at an item without a key leaves the order alone |
| CanonicalJson.SortKeyIsStable | code-rs/app-server-protocol/src/schema_fixtures.rs:168-185 | Canonicalising an item does not change its sort key |
| CanonicalJson.CanonKeepsElements | code-rs/app-server-protocol/src/schema_fixtures.rs:110-166 | The multiset of canonical elements and entries is kept |
| CanonicalJson.CanonDecidesEquivalence | code-rs/app-server-protocol/src/schema_fixtures.rs:110-185 | Canonical forms are equal exactly when the values differ only by key order and by the order of arrays whose elements are all scalars or objects with a string under `$ref` or `title`, at any depth |
| CanonicalJson.EquivIsAnEquivalence | code-rs/app-server-protocol/src/schema_fixtures.rs:110-185 | That relation is reflexive, symmetric and transitive |
| CanonicalJson.CanonIsIdempotent | code-rs/app-server-protocol/src/schema_fixtures.rs:110-166 | Canonicalising twice changes nothing |
| CanonicalJson.SameTextIffEquivalent | code-rs/app-server-protocol/src/schema_fixtures.rs:72-82 | Two schema files have the same text after canonicalising exactly when they are equivalent in that sense |
| CanonicalOrder.CanonIsOrdered | code-rs/app-server-protocol/src/schema_fixtures.rs:110-185 | What order comes out: object keys ascend by code points; the items of an array that may be permuted ascend by kind and within a kind by the text of the scalar, the `$ref` or else the title, and equal ones by their text; any other array keeps its order |
| FixtureText.NormalizeGeneratedText | code-rs/app-server-protocol/src/schema_fixtures.rs:94-108 | The text built by the loop is the list of trimmed lines, each with a line feed, never empty |
| FixtureText.TrimmedLinesIff | code-rs/app-server-protocol/src/schema_fixtures.rs:94-108 | The lines compared are exactly those the text consists of, each written with some spaces and tabs and a line feed behind it, the last perhaps without; a blank text has one empty line |
| FixtureText.NormalizingIsIdempotent | code-rs/app-server-protocol/src/schema_fixtures.rs:94-108 | Normalising twice changes nothing |
| FixtureText.SameTextIffSameLines | code-rs/app-server-protocol/src/schema_fixtures.rs:94-108 | Two texts normalise to the same text exactly when their lines agree up to trailing blanks |
| TopLevelScan.Scanner.ObserveChar | code-rs/app-server-protocol/src/export.rs:820-855 | One character moves the scanner state as specified: strings, escapes and nesting depths |
| TopLevelScan.SplitTopLevelMulti | code-rs/app-server-protocol/src/export.rs:691-710 | The loop returns the trimmed non-empty pieces between top-level delimiters |
| TopLevelScan.SplitGivesParts | code-rs/app-server-protocol/src/export.rs:691-710 | Every part is trimmed and free of cuts, and all but the last leave the scanner at top level |
| TopLevelScan.SplitUndoesRejoin | code-rs/app-server-protocol/src/export.rs:687-710 | For any text, keeping any sublist of its parts, joining with a delimiter in any white space and splitting again gives exactly the kept parts |
| TopLevelScan.FindTopLevelBraceSpan | code-rs/app-server-protocol/src/export.rs:668-685 | Returns the first top-level close with a top-level open before it, and the last such open; none exactly when there is no such pair |
| TopLevelNesting.NestedTextIsCutAtTopLevel | code-rs/app-server-protocol/src/export.rs:687-710 | Of a text built from plain characters, quoted literals with escapes and balanced braces, brackets, parentheses and angle brackets, exactly the delimiters outside all of them are cut; the parts are the trimmed non-blank sections between |
| TopLevelNesting.EnclosedIsOnePart | code-rs/app-server-protocol/src/export.rs:814-860 | A quoted literal or any balanced content in brackets is one part, whatever delimiters it holds |
| TopLevelNesting.OuterBracesAreFound | code-rs/app-server-protocol/src/export.rs:668-685 | On a balanced text the span found is that of the first outermost braces, whatever is nested in them or stands in literals before |
| TopLevelNesting.NoBracesNoSpan | code-rs/app-server-protocol/src/export.rs:668-685 | A balanced text with no braces outside literals and other brackets has no span |
| UnionArms.SplitAfterReplacingBody | code-rs/app-server-protocol/src/export.rs:639-649 | After the body of a type alias is replaced by any text, splitting finds the same prefix and suffix and the new body |
| UnionArms.FilterClientRequest | code-rs/app-server-protocol/src/export.rs:223-249 | The filter computes the specified text |
| UnionArms.FilteringLeavesExactlyTheKeptArms | code-rs/app-server-protocol/src/export.rs:223-249 | For any test on arms: the arms of the result are exactly those the test takes, as often and in the order they stood, the text around them stays, and filtering again changes nothing |
| MethodPruning.PruneExperimentalMethods | code-rs/app-server-protocol/src/export.rs:421-436 | The in-place recursion computes the specified pruning |
| MethodPruning.VariantAfterPruning | code-rs/app-server-protocol/src/export.rs:438-461 | Pruning an item makes it an experimental variant exactly when it was one or was hidden |
| MethodPruning.PruningIsCompleteIff | code-rs/app-server-protocol/src/export.rs:421-461 | No array at any depth holds a variant afterwards exactly when no kept item was hidden |
| MethodPruning.PruningKeepsIff | code-rs/app-server-protocol/src/export.rs:421-461 | Pruning changes nothing exactly when there is no variant |
| MethodPruning.PruningIsIdempotentIff | code-rs/app-server-protocol/src/export.rs:421-461 | A second pass changes nothing exactly when nothing was hidden |
| MethodPruning.PruningIsCompleteOnScalarEnums | code-rs/app-server-protocol/src/export.rs:421-461 | With scalar `enum` arrays one pass is complete and idempotent |
| MethodPruning.PruningCanCreateAVariant | code-rs/app-server-protocol/src/export.rs:438-461 | A concrete value on which one pass is not complete |
| PruningResults.OnlyVariantsArePruned | code-rs/app-server-protocol/src/export.rs:421-461 | The result is the value with just the items taken out of its arrays whose `properties.method` allows only an experimental method, by `const` or else by an `enum` of one string; all else stays in place |
| TypePruning.RemoveTypeDefinitions | code-rs/app-server-protocol/src/export.rs:525-553 | The two loops compute the specified removal |
| TypePruning.RemovalIsComplete | code-rs/app-server-protocol/src/export.rs:525-553 | Afterwards no definition at top level or in a nested namespace map has a removed type's name |
| TypePruning.RemovalKeepsIff | code-rs/app-server-protocol/src/export.rs:525-553 | Removal changes nothing exactly when no name matches |
| TypePruning.RemovalIsIdempotent | code-rs/app-server-protocol/src/export.rs:525-553 | Removing twice changes nothing more |
| TypePruning.SurvivorsAreUnchanged | code-rs/app-server-protocol/src/export.rs:525-553 | A definition under another name stays, unchanged unless it is a namespace |
| PruningResults.OnlyTypesAreRemoved | code-rs/app-server-protocol/src/export.rs:525-553 | The result is the definitions without those named like a removed type, plain or behind a path, at top level and in namespaces; all other schemas stay as they are, in order |
| TypePruning.FilteredBundleIsClean | code-rs/app-server-protocol/src/export.rs:318-325 | Pruning methods and then removing types leaves neither: the second pass brings no variant back |
| TitleAnnotation.FindFreeName | code-rs/app-server-protocol/src/export.rs:1238-1243 | The candidate loop terminates, because each hit uses up a seen name, and returns the first free candidate |
| TitleAnnotation.AnnotateVariantList | code-rs/app-server-protocol/src/export.rs:1221-1259 | The loop gives each variant the specified title and annotates it |
| TitleAnnotation.NewTitlesAreUnique | code-rs/app-server-protocol/src/export.rs:1221-1259 | Every title given differs from every other title in the list, existing titles stay, and a variant that can be named is named |
| TitleAnnotation.GivenIsInserted | code-rs/app-server-protocol/src/export.rs:1246-1257 | Annotating with a given title is inserting the title and annotating |
| TitleAnnotation.NameStays | code-rs/app-server-protocol/src/export.rs:1102-1138 | The name derived for a variant does not depend on whether it was annotated |
| TitleAnnotation.AnnotatingTwice | code-rs/app-server-protocol/src/export.rs:1154-1276 | Annotating again with the same base changes nothing, at any depth |
| TitlePlaces.EverySchemaGetsItsTitle | code-rs/app-server-protocol/src/export.rs:1102-1285 | For the schema at any place: a variant without a title gets the name by its method (with Request, Notification or the union's name behind it), type, only property or only required key, the first of it and its numbered forms from 2 on that no variant has; a literal discriminator property gets its owner's title and its key; the name of the innermost definition is the base; everything else keeps its title |
| TitlePlaces.NothingElseChanges | code-rs/app-server-protocol/src/export.rs:1154-1285 | Nothing but titles changes at any place: scalars, lengths, keys and malformed containers stay |
| SchemaBundle.RewriteTwice | code-rs/app-server-protocol/src/export.rs:1042-1064 | Rewriting references is idempotent |
| SchemaBundle.RefsRewritten | code-rs/app-server-protocol/src/export.rs:1042-1064 | Every reference of a rewritten schema is the rewriting of one it had |
| SchemaBundle.RefsAnnotated | code-rs/app-server-protocol/src/export.rs:1154-1276 | Annotating brings no reference in |
| SchemaBundle.BuildSchemaBundle | code-rs/app-server-protocol/src/export.rs:876-950 | The nested loops build the specified bundle |
| SchemaBundle.BundleKeys | code-rs/app-server-protocol/src/export.rs:895-948 | The bundle holds exactly the schema names and the definitions that are neither ignored nor special, in their namespaces |
| BundleContents.EveryRefRewritten | code-rs/app-server-protocol/src/export.rs:1042-1064 | The rewritten schema differs only in strings under `$ref` that point to a definition: they have the namespace in front, once |
| BundleContents.EveryEntryIsItsSchemas | code-rs/app-server-protocol/src/export.rs:876-948 | Each entry of the bundle is what the last schema giving its name has: the schema itself, rewritten and without its definitions, or its definition of that name, rewritten and with every title described |
| SchemaBundle.EveryReferenceResolves | code-rs/app-server-protocol/src/export.rs:876-963 | If every local reference, read as a JSON pointer, names something its namespace provides, every local reference anywhere in the bundle resolves |
| SchemaBundle.SelfContainedSchemasResolve | code-rs/app-server-protocol/src/export.rs:876-963 | Bundling schemas whose local references name their own ordinary definitions leaves no dangling reference |
| BundleTitles.AnnotateCommutesWithRewrite | code-rs/app-server-protocol/src/export.rs:900-932 | Annotating a rewritten schema is rewriting the annotated one |
| BundleTitles.BundlingAnnotatesNothingNew | code-rs/app-server-protocol/src/export.rs:916 | The second annotation while bundling changes nothing in schemas annotated when they were generated |
| SeekSequence.LevelsAreNested | code-rs/apply-patch/src/seek_sequence.rs:35-107 | A match at one level is a match at every looser one |
| SeekSequence.MatchesIffAlike | code-rs/apply-patch/src/seek_sequence.rs:35-107 | Which blocks match at each level, line by line: equal; equal up to white space at the end; up to white space at both ends; and there up to characters that are the same kind of dash, single quote, double quote or space |
| SeekSequence.FirstMatch | code-rs/apply-patch/src/seek_sequence.rs:41-52 | One pass finds the first match of its level, or there is none |
| SeekSequence.SeekSequence | code-rs/apply-patch/src/seek_sequence.rs:12-110 | Some exactly when a normalised match exists from the search start; then the first match at the strictest level that has any; with eof only the end |
| SeekSequence.BestIsUnique | code-rs/apply-patch/src/seek_sequence.rs:35-107 | That description determines the result |
| SeekSequence.ExactBlockWins | code-rs/apply-patch/src/seek_sequence.rs:35-39 | An unmodified block is found exactly and never after its place |
| SeekSequence.EofFindsIff | code-rs/apply-patch/src/seek_sequence.rs:30-34 | With eof a match is found exactly when the last lines match, whatever the start |
| SeekSequence.EofMissesAnEarlierMatch | code-rs/apply-patch/src/seek_sequence.rs:5-34 | Concrete lines with a match at the start that a search with eof does not find |
| SeekSequence.EofRespectsStartIff | code-rs/apply-patch/src/seek_sequence.rs:1-34 | A result with eof is at or after the start exactly when the start is not beyond the last place the block fits |
| SeekSequence.EofFindsBeforeTheStart | code-rs/apply-patch/src/seek_sequence.rs:1-34 | Concrete lines where a search with eof finds a block before the start |
| PatchParser.ParseUpdateFileChunk | code-rs/apply-patch/src/parser.rs:340-431 | The loop over diff lines computes the specified chunk, length or error |
| PatchParser.ParseDiffLines | code-rs/apply-patch/src/parser.rs:378-430 | Old lines are context and removed, new lines context and added, in order, up to the first other line or the end-of-file marker |
| PatchParser.ParseOneHunk | code-rs/apply-patch/src/parser.rs:245-338 | The branches and loops compute the specified hunk, length or error |
| PatchParser.ParseChunkList | code-rs/apply-patch/src/parser.rs:292-318 | The chunk loop, with blank lines and the next header, computes the specified list |
| PatchParser.ParsePatchText | code-rs/apply-patch/src/parser.rs:154-183 | The main loop computes the specified parse of the trimmed text's lines |
| PatchParser.ParseHunk | code-rs/apply-patch/src/parser.rs:245-338 | A hunk takes between one and all lines; an error line is among them or right behind |
| PatchParser.ParseLines | code-rs/apply-patch/src/parser.rs:154-183 | The line of any hunk error lies between 2 and the number of lines |
| PatchParser.LenientIsStrict | code-rs/apply-patch/src/parser.rs:203-224 | Lenient equals strict without a heredoc or with right markers, and on a heredoc it is strict parsing of the inner lines |
| PatchParser.HunkFromItsLines | code-rs/apply-patch/src/parser.rs:245-338 | A hunk is determined by the lines it takes, wherever they stand |
| PatchParser.HunksPartitionTheBody | code-rs/apply-patch/src/parser.rs:168-176 | The hunks' spans partition the body exactly and each parses on its own to its hunk |
| PatchPrinter.ChunkRoundTrip | code-rs/apply-patch/src/parser.rs:340-431 | A printed chunk, with its `@@` line or as the first of its update without, parses to its meaning and length, whatever ends it |
| PatchPrinter.HunkRoundTrip | code-rs/apply-patch/src/parser.rs:245-338 | A printed hunk, with padded header, blank lines between chunks and a bare first chunk, parses to its meaning and length, whatever follows it |
| PatchPrinter.ParseUndoesPrint | code-rs/apply-patch/src/parser.rs:6-21 | Printing any patch of the format and parsing gives back exactly its hunks, in both modes |
| PatchPrinter.EveryExpressiblePatchRoundTrips | code-rs/apply-patch/src/parser.rs:6-21 | Every list of hunks with header paths, ended added files and non-empty chunks has a print that parses to it |
| PatchPrinter.ParseUndoesPrintAsText | code-rs/apply-patch/src/parser.rs:154-155 | The same for the text, with line feeds or carriage returns and line feeds and any white space around, through trimming and line splitting |
| PatchGrammar.ParsesExactlyPrints | code-rs/apply-patch/src/parser.rs:154-431 | The parser accepts exactly the texts that can be printed, in lenient mode also inside a heredoc, and yields exactly the hunks printed |
| PatchGrammar.ChunkFaultIff | code-rs/apply-patch/src/parser.rs:340-431 | A chunk is refused exactly for the faults described, with the error and line of each: a later one without `@@` line, nothing below the `@@` line, or a line that is no diff line |
| PatchGrammar.RefusesExactlyFaults | code-rs/apply-patch/src/parser.rs:154-431 | Any other text is refused exactly for a missing marker or for the first fault behind the hunks that can be read: no header, an update without chunks, or a faulty chunk, with the error and line number of each |
| PatchGrammar.ParsesExactlyTheExpressible | code-rs/apply-patch/src/parser.rs:6-21 | Exactly the lists of hunks with header paths, ended added files and chunks that change or show a line are parsed from some text |
| Toml.EditThenGet | code-rs/app-server/src/message_processor.rs:803-885 | After an edit its path holds the value set, or the merge with what was there |
| Toml.EditFrames | code-rs/app-server/src/message_processor.rs:803-885 | Every path incomparable with the edited one reads as before |
| Toml.EditAbove | code-rs/app-server/src/message_processor.rs:816-827 | A path above the edited one reads as its old value edited below |
| Toml.EditsCommute | code-rs/app-server/src/message_processor.rs:803-885 | Edits at incomparable paths commute, replacing or merging |
| Toml.LastReplacementWins | code-rs/app-server/src/message_processor.rs:803-840 | A replacement hides any earlier edit at its path |
| Toml.MergeIsIdempotent | code-rs/app-server/src/message_processor.rs:887-902 | Merging the same value again changes nothing |
| Toml.MergeOverlays | code-rs/app-server/src/message_processor.rs:887-902 | What a merge holds at every path, in terms of both values |
| Toml.MissingPathsAreKeptIff | code-rs/app-server/src/message_processor.rs:887-902 | A path missing in the incoming value is kept exactly when nothing was there or no incoming leaf cuts it short |
| Toml.LeafReplacesWholeTable | code-rs/app-server/src/message_processor.rs:898-900 | A concrete case in which a missing path is lost |
| Toml.SplitUndoesJoin | code-rs/app-server/src/message_processor.rs:804 | A path written with dots is read back |
| Toml.NoSegmentsIffOnlyDots | code-rs/app-server/src/message_processor.rs:805-810 | A key path is rejected as empty exactly when it has nothing but dots |
| ConfigService.EditIsPut | code-rs/app-server/src/message_processor.rs:812-838 | An edit below a cursor is the edit of the subtree it points at |
| ConfigService.Document.WalkToParent | code-rs/app-server/src/message_processor.rs:812-830 | Walking the cursor and making tables on the way does not change what the edit gives |
| ConfigService.Document.SetTomlPath | code-rs/app-server/src/message_processor.rs:803-840 | The cursor walk computes the specified edit, or reports an empty path and changes nothing |
| ConfigService.Document.UpsertTomlPath | code-rs/app-server/src/message_processor.rs:842-885 | The same for the merging edit |
| ConfigService.Document.MergeTomlValues | code-rs/app-server/src/message_processor.rs:887-902 | The recursive loop over the incoming keys, in any order, merges in place and touches nothing outside the cursor |
| ConfigService.ConfigFile.ApplyConfigEdits | code-rs/app-server/src/message_processor.rs:652-736 | The result and the file left, for every outcome of the write and the path step: nothing is written before the whole batch is applied and printed, and success stores exactly the edited tree's text |
| ConfigOutcomes.WritesExactlyWhen | code-rs/app-server/src/message_processor.rs:652-736 | A batch is written exactly when no version or that of the stored text is expected, the stored document with all edits in order prints to that text, and the disk takes all of it; then the file holds that text |
| ConfigOutcomes.FailsExactlyWhen | code-rs/app-server/src/message_processor.rs:652-736 | A version conflict is reported exactly when the file can be read and another version is expected; an empty key path exactly when that is not so, the document parses and some edit has one; a missing directory exactly when there was a text to write |
| ConfigOutcomes.FileAfter | code-rs/app-server/src/message_processor.rs:652-736 | The file changes only if there was a text to write and it could be opened, and then holds all of the text or the part the disk took |
| ConfigService.AnErrorCanChangeTheFile | code-rs/app-server/src/message_processor.rs:712-728 | Two concrete batches that end in an error and change the file: a full disk empties it, an unresolved path leaves it replaced |
| ConfigService.AnErrorKeepsTheFileIff | code-rs/app-server/src/message_processor.rs:652-736 | An error leaves the file as it was exactly when it came from reading, version, parsing, editing, printing, the directory or opening, or the file held just what the write put there |
| ConfigService.BatchFailsIffSomePathIsEmpty | code-rs/app-server/src/message_processor.rs:693-700 | A batch fails in its edits exactly when some key path is empty |
| ConfigService.ApplyInTwoSteps | code-rs/app-server/src/message_processor.rs:693-700 | A batch is its parts applied one after the other |
| ConfigService.TwoWritesAreOneBatch | code-rs/app-server/src/message_processor.rs:652-736 | After a successful write a second one that expects the returned version ends, on any disk, as the one batch of both does, and leaves the same file whenever the file is opened |
| RegressionGate.RepeatedObservationsAgree | scripts/mcp_conformance/run_codex_compliance.py:1443-1456 | All numbered observations of a check have one identity |
| RegressionGateLaws.RequiredRegressionChecks | scripts/mcp_conformance/run_codex_compliance.py:1459-1679 | The loops read both kinds of report as specified |
| RegressionGateLaws.EvaluateRegressionGate | scripts/mcp_conformance/run_codex_compliance.py:1744-1809 | The loops compute the specified verdict and lists |
| RegressionGateLaws.GateSucceedsIff | scripts/mcp_conformance/run_codex_compliance.py:1744-1809 | Success means: both reports clean, the same policy, no new failure, nothing that passed or failed before is gone |
| RegressionReports.CleanReportIsRead | scripts/mcp_conformance/run_codex_compliance.py:1443-1679 | Nothing is found wrong with exactly the reports described by their header, scenario lists, cases, checks or records and coverage, and then exactly the statuses are read that the report shows of each check |
| RegressionReports.GateSucceedsForReports | scripts/mcp_conformance/run_codex_compliance.py:1459-1809 | The gate succeeds for exactly two such reports with one recorded policy, no failure in the shipping mode, no new failure and no lost result |
| RegressionReports.GateListsForReports | scripts/mcp_conformance/run_codex_compliance.py:1744-1809 | Which checks of such reports are new failures, known failures, missing and fixed |
| RegressionReports.GateIssuesForReports | scripts/mcp_conformance/run_codex_compliance.py:1744-1809 | When the gate objects to the policies or to a shipping failure of such reports |
| RegressionGateLaws.GateIsReflexiveIff | scripts/mcp_conformance/run_codex_compliance.py:1744-1809 | A report passes against itself exactly when it is readable, records its policy and has no shipping failure |
| RegressionGateLaws.GateIsTransitive | scripts/mcp_conformance/run_codex_compliance.py:1744-1809 | Success composes across baselines |
| RegressionGateLaws.CompactBaselineReads | scripts/mcp_conformance/run_codex_compliance.py:1682-1726 | The compact form reads as the decided checks of its report, without errors exactly when they cover what is required |
| RegressionGateLaws.CompactBaselineIsFaithfulIff | scripts/mcp_conformance/run_codex_compliance.py:1682-1809 | Against the compact form the gate gives the same lists, and the same verdict and errors exactly under that coverage |
| RegressionGateLaws.CleanReadingObserves | scripts/mcp_conformance/run_codex_compliance.py:1459-1679 | A report that reads without issues observed over HTTP exactly the required scenarios of each mode, be it full or compact |
| RegressionGateLaws.SkippedScenarioIsLostInCompact | scripts/mcp_conformance/run_codex_compliance.py:1682-1809 | A concrete report that passes as its own baseline, but not against its compact form |
| RegressionGateLaws.CompactingTwice | scripts/mcp_conformance/run_codex_compliance.py:1682-1726 | Compacting again changes nothing |
| ReviewGate.EvaluateReviewRegressionGate | scripts/mcp_conformance/review_regressions.py:1070-1110 | The loops compute the specified verdict and lists |
| ReviewGate.ReadCaseLoop | scripts/mcp_conformance/review_regressions.py:939-993 | The loops over cases and checks read a full report as specified |
| ReviewGate.ReadRecordLoop | scripts/mcp_conformance/review_regressions.py:909-938 | The loop over one bucket of a compact baseline reads it as specified |
| ReviewGate.GateSucceedsIff | scripts/mcp_conformance/review_regressions.py:1070-1110 | Success means: both reports read without errors, every failure failed before, no check is gone |
| ReviewReports.CleanReportIsRead | scripts/mcp_conformance/review_regressions.py:859-1029 | Nothing is found wrong with exactly the reports described by their header, cases, checks or records, totals and success flags, and then exactly the results are read that the report shows of each check |
| ReviewReports.GateSucceedsForReports | scripts/mcp_conformance/review_regressions.py:859-1110 | The gate succeeds for exactly two such reports where every failing check failed before and no check is gone |
| ReviewReports.GateListsForReports | scripts/mcp_conformance/review_regressions.py:1070-1110 | Which checks of such reports are known failures, new failures, missing and fixed |
| ReviewGate.GateIsTransitive | scripts/mcp_conformance/review_regressions.py:1070-1110 | Success composes across baselines |
| ReviewGate.CompactBaselineRoundTrips | scripts/mcp_conformance/review_regressions.py:1032-1067 | The compact form of a clean report reads without errors to the same checks, cases and totals |
| ReviewGate.CompactingTwice | scripts/mcp_conformance/review_regressions.py:1032-1067 | Compacting again changes nothing |
| ReviewGate.CompactBaselineIsFaithful | scripts/mcp_conformance/review_regressions.py:1032-1110 | The gate cannot tell a clean report from its compact form, and the report passes against it |

## Left out

- Sockets, stdin and stdout, tokio, WebSocket frames, JSON and TOML text
  parsing, the file system and the digest: queues, parsed values and parameters
  stand for them.
- Broadcasts to several stdio writers: stdio has one connection.
- What request handlers do besides answering, emitting messages, adding and
  removing listeners and initializing their session; which requests the
  initialize gate rejects is an easy case table.
- Liveness under fairness: the progress theorems say that the run can go on to
  where they claim, not that a scheduler takes it there.
- A pending callback whose owner is already gone: a listener task in the middle
  of an event can register one after the connection was cleared, so no lemma
  claims a live owner.
- That the initialize response is the first message a client gets: a broadcast
  queued earlier may be routed after the flag is set.
- Approvals.OutgoingMessageSender.SendRequest: one atomic call; the step relation in the same module splits it at the send.
- UnionArms.FilterClientRequest: the arms of the union only; imports that become unused are pruned by text search afterwards.
- UnionArms.FilteringLeavesExactlyTheKeptArms: speaks of the arms, not of the imports pruned afterwards.
- TypePruning.FilteredBundleIsClean: speaks of the method variants and definitions, not of experimental fields removed from the definitions that stay.
- SchemaBundle.BuildSchemaBundle: schemas with a namespace; one without a namespace goes into the bundle's top level with forced references.
- SchemaBundle.BundleKeys: the keys that schemas with a namespace give.
- SchemaBundle.EveryReferenceResolves: references with percent escapes are not claimed to resolve.
- RegressionGateLaws.RequiredRegressionChecks: where a source, status or transport is a list or an object the script stops with a TypeError, since it looks the value up in a set; here it is a malformed record.
- RegressionGate.RepeatedObservationsAgree: numbers written with ASCII digits, the form the runner writes.
- The order of TOML tables and of the bundle's namespaces and definitions:
  they are maps.
- Update in place of TOML trees: a cursor is a path into a value, since the
  source's tree has one owner and no sharing.
- Bundles with schemas that have no namespace, and the forced namespace of
  their references.
- Which text of a union arm names its method, pruning of unused imports, and
  the field filter that uses the brace span; the arm filter is proved for every
  test on arms.
- Removal of experimental fields from schemas, file generation and index files.
- The wording of parse errors: each is a constructor with the text it quotes.
- Which of the gates' messages names what is wrong with a report that is not
  clean: the loops are proved equal to the reader, the laws say that a report is
  refused.
- The order of the gates' result lists (sorted in the scripts) and the wording
  and order of their errors: both are sets.
- Unicode decimal digits in the number of a repeated observation: ASCII digits
  only.
- The indentation of the written schema files: the compact text stands for the
  pretty one.
- Carriage returns inside a fixture's TypeScript text, which are replaced
  before the modelled function runs.
