# Verified model of the GLIP core

A Dafny model of the parts of GLIP in which a mistake is hard to see: the idempotent draft protocol, the
approval workflow, the document parser and slide planner, the image header reader, native login, sessions
and invitations, and the money and pricing code. Code that updates rows, buffers or counters is a class or
a method with the source's loops, proved against functions on values; what the source promises is proved
about those functions, over all inputs or over all runs. Run `dafny verify dfyconfig.toml`.

- **Draft protocol** (`Ledger`, `DraftProtocol`, `DraftInvariant`, `DraftTheorems`, `DraftAnswers`, `DraftTexts`,
  `DraftTiming`, `DraftForestalled`). Any number of workers and editors take small steps over one database: find, insert or
  recover, acquire, reread, mark, call, flush, finalize, commit. Steps interleave freely, every clock reading
  is an argument of its own step, and a crash may come anywhere. Safety rests on the owner token and the row
  locks, on no clock. The key is the concatenated text that the source builds; it names one request of one
  project because the project ids that the program makes hold no colon. `DraftTiming` adds the clock: who
  keeps within the lease settles the row. `DraftAnswers` says which answer each worker gets and when a replay is
  given, `DraftTexts` that every answer and version has the text of the reply or the edit it comes from.
- **Upstream client and lease length** (`OrkioClient`, `LeaseConfig`). The retry loop, the circuit breaker
  against its history, and the retry schedule against the lease that the configuration demands.
- **Approval workflow**. Versions, requests, decisions, approved versions, memory candidates and facts, twice:
  as calls that do not overlap (`Approval`, `ApprovalCustody`, `ApprovalTheorems`, `ApprovalContents`,
  `ApprovalStore`), and statement by statement with the calls interleaved (`ApprovalRaces`, `ApprovalRaceInvariant`,
  `ApprovalRaceSteps`, `ApprovalRaceTheorems`, `ApprovalRaceContents`, `ApprovalRaceRuns`), since the service takes no row lock between its reads and its
  commit. A call that nothing overlaps does the same in both. The two modules of contents tie every row to the
  arguments of the call that wrote it.
- **Documents and slides** (`Text`, `LineReader`, `DocumentSpec`, `DocumentParser`, `DocumentText`, `LineWriting`,
  `DocumentWriting`, `DocumentRoundTrip`, `DocumentWords`, `BulletChunks`, `SlidePlan`, `SlideTables`). The regular
  expressions are written out for ASCII text. The modules of writing say what each form of line looks like without
  the reader, and prove that the parser reads exactly that.
- **Image headers** (`Endian`, `ImageHeader`, `ImageFormats`). The JPEG marker walk against the format of ITU-T T.81, Annex B,
  and writing and reading of PNG (RFC 2083), VP8 (RFC 6386), VP8L and VP8X (RFC 9649) sizes:
  what is accepted is exactly what the formats write.
- **Accounts** (`NativeAuth`, `Sessions`, `SessionRuns`, `Invitations`, `InvitationTheorems`, `InvitationHistory`).
  Lockout, throttled session touch, revocation, invitations. `InvitationHistory` decides every request by a log of
  what happened alone, and the tables come to the same. Times are clock ticks of a microsecond.
- **Money and pricing** (`Money`, `Construction`, `PricingAuthority`, `PricingStore`, `PricingTheorems`,
  `PricingTotals`, `PricingHistory`).
  Decimal amounts are exact reals; only the roundings of the source round.
- **Areas** (`Polygon`). The shoelace sum over ideal reals.

## Where the code does not do what one would expect

Each of these is proved: a concrete case, and the exact condition under which the code behaves.

- A blank line does not always separate two texts for the parser. A list marker with two or more spaces and
  no item is an empty list item inside a text, but a paragraph at its very end, because the whole text is
  stripped first. `DocumentText.ContentsJoin` gives the condition, `DocumentText.ContentsDoNotAlwaysJoin` a case.
- The lease lower bound counts the backoff once per retry, while the client doubles it. With three attempts
  and a large backoff an accepted lease can end before the retries do: `LeaseConfig.LeaseCoversSchedule` and
  `LeaseConfig.BackoffCanOutlastLease`.
- A decision can meet an awaiting request on a version that is no longer current. It then answers "invalidated",
  but raises before the commit, so the request is left awaiting. This needs calls that overlap: it happens exactly if
  a version was committed after the request's call had read the draft and before the deciding call read it, or the
  version to decide was committed after that. `ApprovalRaceTheorems.StaleBranch`, reached from every state by
  `ApprovalRaceRuns.StaleBranchIsReached`; without overlap never, `ApprovalTheorems.SerialDecisionsAreFresh`.
- One request can be decided twice, by two calls that both read it before either commits, unless both approve:
  `ApprovalRaceTheorems.TwoDecisionsOverlap` and `ApprovalRaceRuns.TwoDecisionsAreReached`.
- A person can write version 1 of a draft while the upstream call runs. The worker then dies on the unique key, and
  the request never completes, whoever takes it over. The flush decides: `DraftForestalled.FlushDecides`,
  `DraftForestalled.NeverCompletes`, with the runs `DraftForestalled.FlushIsReached` and `PersonIsFaster`.
- A lossless WebP file of 25 to 29 bytes is refused, although its header is complete and the branch for it asks for
  25: the general test for 30 comes first. `ImageHeader.Vp8lRoundTrip` says exactly which are read.
- A second approval of a version fails on the unique key, but a second rejection turns the draft's status
  although the approved version stays: `ApprovalTheorems.SecondDecision`.
- A session whose visits are closer than its idle time can idle-expire, because the touch is throttled: the
  safe gap is exactly the idle time less the touch interval, `Sessions.GapCondition`.
- An owner's approval with an empty actor name makes the mapping count as not approved again:
  `PricingTheorems.EstimateRepeats` and `PricingTheorems.RepeatCanFail`. It needs a direct call of the service
  function: the one route passes the subject of the principal (src/glip/pricing/routes.py:128), which is never empty.
  For named actors every estimate repeats, `PricingTheorems.NamedEstimateRepeats`.

## Model

| member | source | states |
|---|---|---|
| Ledger.LedgerTable.CommitNewOrRecoverWinner | src/glip/integration_idempotency.py:72-100 | one row per key: only the first insert writes; a later one gets conflict, replay, failed or in progress from the winner's row |
| Ledger.LedgerTable.AcquireExecutionLease | src/glip/integration_idempotency.py:103-154 | the row changes exactly when the WHERE clause matches: new owner, new expiry, one attempt more; otherwise nothing changes and the row read back decides the answer |
| Ledger.LedgerTable.FinalizeExecutionIfOwner | src/glip/integration_idempotency.py:157-208 | only the holder of a live lease settles the row as completed, and only that row; anyone else changes nothing |
| Ledger.LedgerTable.FailExecutionIfOwner | src/glip/integration_idempotency.py:211-251 | the same for failed, keeping the other outcome columns |
| Ledger.DigestIsExact | src/glip/services.py:80-90 | two digests are equal iff tenant, project, request id and the hashed rest of the requests are |
| Ledger.KeyIsExact | src/glip/services.py:79 | two keys are equal iff the tenants are and the texts project:request id are |
| Ledger.KeyNamesRequest | src/glip/services.py:72-79 | for project ids of one length, or without a colon as `uuid4` makes them, two keys are equal iff tenant, project and request id are |
| DraftInvariant.ReachableInv | src/glip/services.py:71-332 | rows, drafts, versions, locks and the knowledge of every worker and editor stay consistent in every reachable state, for any interleaving, clocks and crashes |
| DraftTheorems.SettledForever | src/glip/integration_idempotency.py:114-135 | no field of a completed or failed row ever changes again |
| DraftTheorems.SettledAtMostOnce | src/glip/integration_idempotency.py:175-244 | in every run a row enters completed or failed exactly once or never |
| DraftTheorems.OnlyTheOwnerSettles | src/glip/integration_idempotency.py:175-201 | the settling step is the commit of a worker whose token is the row's, whose lease was live at its database reading, and no other worker has that token |
| DraftTheorems.VersionsMatchLedger | src/glip/services.py:250-332 | drafts and ledger rows correspond one to one; an AI version exists iff the row is completed; the versions are numbered 1 to current_version without gap |
| DraftTheorems.OnlySuccessLeavesAVersion | src/glip/services.py:250-305 | every AI version is version 1 with the content of a worker whose settling commit went through, whether it then answered or crashed: a stale owner, a loser, or a crash before that commit leaves none |
| DraftTheorems.SameKeySameAnswer | src/glip/services.py:99-223 | all successful answers under one key are equal and to requests alike in all that is hashed, and at most one of them is not a replay |
| DraftTheorems.SameRequestSameAnswer | src/glip/services.py:79-223 | two successful answers are about one draft iff tenant, project and request id are the same, and then they and the requests are equal and at most one is not a replay |
| DraftTheorems.OneDraftPerRequest | src/glip/services.py:79-203 | two ledger rows, and their drafts, are one iff tenant, project and request id are the same |
| DraftTheorems.DifferentDigestConflicts | src/glip/services.py:100-101 | a finished request whose digest differs from the row's was refused |
| DraftTheorems.FailedKeyNeverSucceeds | src/glip/services.py:106-107 | once a key has failed no worker ever succeeds on it |
| DraftTheorems.AttemptsCountLeases | src/glip/integration_idempotency.py:128-133 | attempt_count is the number of leases granted |
| DraftTheorems.LeaseHolds | src/glip/integration_idempotency.py:110-135 | from an acquisition on, the row is settled or leased until the acquirer's reading plus the lease time |
| DraftTheorems.LeasesAreDisjoint | src/glip/integration_idempotency.py:110-127 | the clock readings of successive acquisitions of a key are at least a lease apart |
| DraftAnswers.MeetsRow | src/glip/services.py:99-121 | a worker that meets a row is told of the conflict iff its digest differs; else a completed row is replayed, a failed one refused, and any other led to the lease |
| DraftAnswers.MeetsNothing | src/glip/services.py:122-156 | under a new key a request is inserted iff its upstream request can be built, and otherwise unprocessable |
| DraftAnswers.Inserts | src/glip/services.py:126-205 | an insert under a free key makes one draft and one unleased row with the request's digest; under a taken one nothing |
| DraftAnswers.Acquires | src/glip/integration_idempotency.py:103-135 | a lease is granted iff the row is unsettled and nobody holds it or the lease is over; exactly owner, expiry, status and attempts change |
| DraftAnswers.Rereads | src/glip/integration_idempotency.py:136-154 | the row read back decides: its owner goes on, anyone else replays, is refused, or is told that it runs or is lost |
| DraftAnswers.Settling | src/glip/integration_idempotency.py:175-244 | a settling UPDATE matches iff the row is calling, has the worker's token and a lease not over; otherwise ownership is lost |
| DraftAnswers.Completes | src/glip/services.py:250-305 | the completing commit writes row, version 1 and draft from the reply, and its answer is the response that the row keeps |
| DraftAnswers.Fails | src/glip/services.py:234-248 | the failing commit sets error, time and the draft's status, keeps the other columns and writes no version |
| DraftAnswers.ReplayIsGiven | src/glip/services.py:99-105 | in every run: once a worker answered Created(r), a worker with an equal request that finds, recovers or rereads the row is given Replayed(r) with its next step, in every later state |
| DraftAnswers.ReuseIsRefused | src/glip/services.py:100-101 | and one with the same key whose request differs in anything hashed is told of the reuse |
| DraftAnswers.UnprocessableIsUnacceptable | src/glip/services.py:140-156 | only a request whose upstream request cannot be built is answered unprocessable |
| DraftTexts.AnswerIsTheReply | src/glip/services.py:250-289 | a new draft is answered with the text and retry count of the reply its worker heard, and the request and correlation id it came with |
| DraftTexts.AgentVersionIsTheReply | src/glip/services.py:250-263 | every AI version has the text of the reply its worker heard |
| DraftTexts.HumanVersionIsTheEdit | src/glip/services.py:306-325 | every version of a person has the text, not blank, with which its editor came, for that draft |
| DraftTexts.EditsGoOn | src/glip/services.py:306-332 | an edit goes past its read iff the draft is the caller's and the text not blank, is stopped iff its number is taken, and stores its text as that version |
| DraftTiming.SettlesInTime | src/glip/services.py:205-332 | as long as the readings are before the end of the lease and its worker does not crash: nobody else acquires the row, and in six turns without waiting the worker settles it or finds version 1 written by a person |
| DraftTiming.AcceptedSettingsSuffice | src/glip/config.py:178-193 | the same for every accepted configuration, if the readings are within the retry schedule and an overhead below the slack of the settings |
| DraftForestalled.FlushDecides | src/glip/services.py:250-263 | a worker with a live lease that flushes is stopped iff version 1 of its draft is a person's at that step |
| DraftForestalled.NeverCompletes | src/glip/services.py:250-263 | once a person has written version 1 the row is never completed |
| DraftForestalled.FlushIsReached | src/glip/services.py:79-263 | every acceptable request has a run to the flush of its reply, with a live lease and no version yet |
| DraftForestalled.PersonIsFaster | src/glip/services.py:306-332 | from every such state an edit goes through and stops the worker at its flush |
| LeaseConfig.SlackIsLeast | src/glip/config.py:182-190 | the shortest accepted lease outlasts the schedule by the slack, which is positive iff the backoff fits |
| LeaseConfig.ScheduleClosed | src/glip/integrations/orkio/client.py:178-239 | the longest retry schedule is timeout * n + backoff * (2^(n-1) - 1) |
| LeaseConfig.LeaseCoversSchedule | src/glip/config.py:178-193 | every accepted lease outlasts the schedule iff n <= 2, or backoff plus the fraction of 3t+2b is below ten seconds, or no lease is accepted |
| LeaseConfig.NineSecondsFit | src/glip/config.py:182-190 | a backoff of at most nine seconds always satisfies that condition |
| LeaseConfig.BackoffCanOutlastLease | src/glip/config.py:182-190 | a concrete accepted configuration whose schedule is ten seconds longer than its lease |
| OrkioClient.Circuit.BeforeCall | src/glip/integrations/orkio/client.py:22-31 | a call is admitted iff fewer than threshold failures came since the last clearing, or the cooldown has passed since the latest; admission over the threshold clears |
| OrkioClient.Circuit.Success | src/glip/integrations/orkio/client.py:33-37 | the two fields again summarize the history, now cleared |
| OrkioClient.Circuit.Failure | src/glip/integrations/orkio/client.py:39-44 | one failure more in the history, at that time |
| OrkioClient.Post | src/glip/integrations/orkio/client.py:176-245 | the same request is posted once per retryable reply and once more, at most `attempts` times; at most one failure is recorded; the time spent is within the schedule |
| OrkioClient.Draft | src/glip/integrations/orkio/client.py:164-245 | a refused call posts and records nothing; an admitted one ends as Post says |
| OrkioClient.Close | src/glip/integrations/orkio/retry_policy.py:18-30 | auth and contract rejections are not recorded as failures, terminal upstream errors and unexpected ones are |
| OrkioClient.SucceedsOnFirstGood | src/glip/integrations/orkio/client.py:178-239 | a call succeeds with k retries iff reply k is good, within the attempts, and all before it are retryable |
| OrkioClient.FirstReplyDecides | src/glip/integrations/orkio/retry_policy.py:13-30 | for every status: the first reply that is not 408, 429, 502 to 504 or a transport error decides what the caller is told and whether a success, a failure or nothing is recorded; without one, a failure |
| OrkioClient.CooldownIsExact | src/glip/integrations/orkio/client.py:22-44 | after any clearing, calls are refused iff threshold failures came and the cooldown since the latest is not over, to the instant, and the first call after it clears |
| OrkioClient.OutageIsBounded | src/glip/integrations/orkio/client.py:22-44 | from any history, while every call that gets through records a failure, at most threshold of them get through, and threshold more per full cooldown |
| ApprovalStore.Store.AddVersion | src/glip/services.py:306-332 | the next version is added and every awaiting request of the draft invalidated, in one transaction; a taken number changes nothing |
| ApprovalStore.Store.RequestApproval | src/glip/services.py:334-353 | a request for the current version with its hash, or an error and no change |
| ApprovalStore.Store.FindNewest | src/glip/services.py:364-368 | the newest awaiting request of that version, or none if there is none |
| ApprovalStore.Store.Decide | src/glip/services.py:355-416 | the whole new state of a decision: request, draft, decision, and for an approval the approved version and its candidate |
| ApprovalStore.Store.ApproveMemoryCandidate | src/glip/services.py:418-443 | a pending candidate becomes promoted and its fact gets the next number of its key |
| ApprovalCustody.CustodyHolds | src/glip/services.py:306-443 | for calls that do not overlap, in every reachable state: awaiting requests target the current version with its hash, approved versions equal their draft versions and match request and decision, candidates and facts match their sources |
| ApprovalTheorems.FactProvenance | src/glip/services.py:386-443 | for calls that do not overlap: every fact traces through exactly one candidate to an approved version whose hash was requested, decided and promoted |
| ApprovalTheorems.FactsAreNumbered | src/glip/services.py:428-437 | for calls that do not overlap: the facts of a key are numbered 1 to n without gap |
| ApprovalTheorems.SerialDecisionsAreFresh | src/glip/services.py:371-373 | for calls that do not overlap: no decision answers approval_invalidated |
| ApprovalTheorems.SecondDecision | src/glip/services.py:375-396 | for calls that do not overlap: after an approval, a second one changes nothing and a rejection changes the draft's status but not the approved version |
| ApprovalTheorems.ApprovedVersionStays | src/glip/services.py:389-396 | for calls that do not overlap: approved versions are never changed or removed |
| ApprovalTheorems.VersionStays | src/glip/services.py:315-325 | for calls that do not overlap: draft versions are never changed or removed |
| ApprovalTheorems.FactStays | src/glip/services.py:433-443 | for calls that do not overlap: facts are never changed or removed |
| ApprovalTheorems.RequestsAreDecidedOnce | src/glip/services.py:375-384 | for calls that do not overlap: no request has two decisions |
| ApprovalContents.AddVersionStores | src/glip/services.py:306-332 | an edit succeeds iff the draft is the caller's, the text not blank and the number free; it stores the given text as the next version, invalidates exactly the awaiting requests of the draft, and changes no other row |
| ApprovalContents.RequestAsks | src/glip/services.py:334-353 | a request succeeds iff it is for the current version of the caller's draft; it holds that version's hash |
| ApprovalContents.DecideWrites | src/glip/services.py:355-416 | when a decision goes through, and every row it writes: it closes that request alone, an approval copies the version and leaves one candidate |
| ApprovalContents.DecidesTheNewest | src/glip/services.py:364-368 | a recorded decision closes an awaiting request for that very version, and none that awaits is newer |
| ApprovalContents.PromoteWrites | src/glip/services.py:418-443 | a promotion succeeds iff the candidate is pending and the caller's and key and value are not blank; the fact has both stripped, the actor and the next number |
| ApprovalContents.DraftHasItsScope | src/glip/services.py:126-129 | for calls that do not overlap: every draft has the tenant and project of the call that created it |
| ApprovalContents.VersionHasItsText | src/glip/services.py:317-319 | for calls that do not overlap: every version, and the approved version made of it, has the text of the call that added it |
| ApprovalContents.FactHasItsValue | src/glip/services.py:426-440 | for calls that do not overlap: every fact has the key, value and actor of the call that promoted it |
| ApprovalRaceSteps.ReachableRace | src/glip/services.py:306-443 | with all statements of all calls interleaved, in every reachable state: versions are numbered without gap; requests, decisions, approved versions, candidates and facts match in version, hash and content; and every call in flight and every row satisfies the order of reads and commits that the theorems below use |
| ApprovalRaceTheorems.FactCustody | src/glip/services.py:386-443 | under every interleaving a fact traces through a promoted candidate to an approved version whose hash was requested and decided |
| ApprovalRaceTheorems.FactsAreNumbered | src/glip/services.py:428-437 | under every interleaving the facts of a key are numbered 1 to n without gap |
| ApprovalRaceTheorems.RowsStay | src/glip/services.py:306-443 | under every interleaving versions, approved versions, decisions and facts are never changed or removed |
| ApprovalRaceTheorems.StaleRequest | src/glip/services.py:326-353 | an awaiting request is on an old version iff a version was committed after its call had read the draft, and the call of every such version had looked for awaiting requests before this one was committed |
| ApprovalRaceTheorems.StaleBranch | src/glip/services.py:355-373 | a decision that finds an awaiting request answers approval_invalidated, and writes nothing, iff a version was committed between the request's and the decision's reading of the draft, or the version to decide after the latter |
| ApprovalRaceTheorems.TwoDecisionsOverlap | src/glip/services.py:364-384 | of two decisions of one request each call had read it awaiting before the other's commit |
| ApprovalRaceTheorems.ApprovedOnce | src/glip/services.py:388-396 | every approving decision is that of the approved version, so a version is approved at most once |
| ApprovalRaceTheorems.AloneIsSerial | src/glip/services.py:306-443 | a call that nothing overlaps leaves the tables and the answer of the call as one transaction |
| ApprovalRaceContents.AnswersAreTrue | src/glip/services.py:306-443 | under every interleaving what a call has answered is true of the rows: the version it names has its text, the fact its key and value, the request and decision its version |
| ApprovalRaceContents.EditStoresItsText | src/glip/services.py:306-332 | under every interleaving a call begun with a text that answered with a version has this text there, for good |
| ApprovalRaceContents.PromotionStoresItsValue | src/glip/services.py:418-443 | the same for key, value and actor of a promotion |
| ApprovalRaceContents.VersionHasItsText | src/glip/services.py:317-319 | under every interleaving every version was committed by a call begun with its text, or by the completion of its draft |
| ApprovalRaceContents.FactHasItsValue | src/glip/services.py:426-440 | under every interleaving every fact was committed by a call begun with its key, value and actor |
| ApprovalRaceRuns.SerialRunsAreRuns | src/glip/services.py:306-443 | the tables of every run of whole calls are those of an interleaved run |
| ApprovalRaceRuns.StaleBranchIsReached | src/glip/services.py:334-373 | from every reachable state a request, an edit that commits before it and a decision reach approval_invalidated and leave the request awaiting |
| ApprovalRaceRuns.TwoDecisionsAreReached | src/glip/services.py:364-396 | two decisions that both read the request before either commits both record a decision, or the second approval dies on the unique key |
| LineReader.ReadIsWellRead | src/glip/artifacts/specs.py:45-58 | a blank line reads as empty; headings have level 1 to 6 and text; list items are empty or have text |
| LineWriting.HeadingIsExact | src/glip/artifacts/specs.py:46 | a line is a heading of level n iff it is n hashes, one to six, whitespace and a text, and then has that text cleaned |
| LineWriting.ItemIsExact | src/glip/artifacts/specs.py:47-48 | a line is a list item iff it is a bullet, or digits with a dot or bracket, then whitespace and a text; never of both kinds |
| LineWriting.BreakIsExact | src/glip/artifacts/specs.py:45 | a line is a page break iff it is one of three texts, in either case |
| LineWriting.SeparatorIsExact | src/glip/artifacts/specs.py:49 | a line is a separator iff it is two or more cells of at least three dashes with optional colons and spaces, between pipes, the outer ones optional |
| LineWriting.CellsAreRead | src/glip/artifacts/specs.py:54-55 | cells with pipes between and around them are read as these cells, cleaned |
| DocumentWriting.LineEndsAreOne | src/glip/artifacts/specs.py:61 | lines ended by a carriage return, with or without a newline, are the same content |
| DocumentWriting.ListEnds | src/glip/artifacts/specs.py:91-101 | a list goes exactly as far as the markers of its kind |
| DocumentWriting.ParagraphEnds | src/glip/artifacts/specs.py:102-113 | a paragraph goes exactly as far as its prose |
| DocumentWriting.TableEnds | src/glip/artifacts/specs.py:80-90 | a table goes exactly as far as its pipes |
| DocumentWriting.HeadingRoundTrip | src/glip/artifacts/specs.py:75-79 | n hashes, whitespace and a text are parsed as one heading of level n with that text |
| DocumentWriting.ListRoundTrip | src/glip/artifacts/specs.py:91-101 | written list items are parsed as one list of these items and this kind |
| DocumentWriting.ParagraphRoundTrip | src/glip/artifacts/specs.py:102-113 | lines of prose are parsed as one paragraph of their texts |
| DocumentWriting.TableRoundTrip | src/glip/artifacts/specs.py:80-90 | a written table is parsed as its cells, filled up with empty ones to the width of the widest row |
| DocumentWriting.OneLineIsExact | src/glip/artifacts/specs.py:69-113 | every content of one line is a heading, page break, list or paragraph iff it has that form, with the level, the kind and the text of it |
| DocumentRoundTrip.WriteThenParse | src/glip/artifacts/specs.py:60-114 | every document of writable blocks, written line by line, is parsed to these blocks |
| DocumentRoundTrip.TitleIsFirstText | src/glip/artifacts/specs.py:77-114 | the title is the first heading or paragraph, the latter cut to 120 characters and all to 160, and "Documento" without either |
| DocumentWords.SemanticTextKeepsWords | src/glip/artifacts/specs.py:79-114 | the semantic text has the words of all blocks in order, with bars between the cells of a row |
| DocumentParser.ParseTable | src/glip/artifacts/specs.py:80-88 | the rows of the table's span |
| DocumentParser.ParseList | src/glip/artifacts/specs.py:91-101 | the non-empty items of the list's span |
| DocumentParser.ParseParagraph | src/glip/artifacts/specs.py:102-113 | the cleaned text of the paragraph's span |
| DocumentParser.ParseDocumentSpec | src/glip/artifacts/specs.py:60-114 | blocks, title and semantic text are those of the whole content |
| DocumentSpec.EmptyLineSeparates | src/glip/artifacts/specs.py:69-113 | for all lines a and b: the blocks of a, an empty line, b are the blocks of a and then those of b |
| DocumentSpec.SpansTile | src/glip/artifacts/specs.py:69-113 | all lines of one span agree on where it starts and ends: every line is in exactly one |
| DocumentSpec.SpansAreUniform | src/glip/artifacts/specs.py:71-72 | an empty line is a span of its own and no other span contains one |
| DocumentSpec.ParserReachesSpan | src/glip/artifacts/specs.py:69-113 | the parser reaches every span and continues there with the remaining lines alone |
| DocumentSpec.BlocksOk | src/glip/artifacts/specs.py:75-113 | every block has text, list blocks have items, tables are rectangular |
| DocumentSpec.TablesAreRectangular | src/glip/artifacts/specs.py:86-88 | padding keeps the cells of every row and makes all rows as wide as the widest |
| DocumentText.ContentsJoin | src/glip/artifacts/specs.py:61-113 | for all contents: the blocks of a, blank line, b are those of a and then of b iff b is blank or a does not end in a list marker without item |
| DocumentText.ContentsDoNotAlwaysJoin | src/glip/artifacts/specs.py:61-98 | a concrete pair of contents that do not join |
| BulletChunks.WordsOfJoin | src/glip/artifacts/specs.py:123 | splitting words that were joined by spaces gives them back |
| BulletChunks.CleanJoinsWords | src/glip/artifacts/specs.py:51-52 | the cleaned text is its words joined by one space each, and has the same words |
| BulletChunks.ChunkText | src/glip/artifacts/specs.py:119-130 | the loop yields the greedy lines of the words |
| BulletChunks.ChunksRejoin | src/glip/artifacts/specs.py:119-130 | the chunks joined by spaces are the cleaned text, and a chunk over the limit is a single word |
| BulletChunks.FewestChunks | src/glip/artifacts/specs.py:119-130 | no in-order cutting of the words into lines that fit, or are one word, has fewer lines |
| SlidePlan.BuildSlidePlan | src/glip/artifacts/specs.py:132-161 | the plan of the document, or the error of a zero step |
| SlidePlan.SectionsKeepItems | src/glip/artifacts/specs.py:133-152 | sections drop and reorder no item |
| SlidePlan.SectionsSeparate | src/glip/artifacts/specs.py:139-151 | a heading of level 1 or 2 or a page break separates the sections before it from those after it |
| SlidePlan.SlidesCoverSection | src/glip/artifacts/specs.py:157-160 | a section's slides carry its items in order, all full but the last, the first with the section's title and the others marked as continued |
| SlidePlan.SlidesAreThePlannedItems | src/glip/artifacts/specs.py:155-161 | bullets in order are the planned items, 1 to max per slide, titles within 100 characters |
| SlidePlan.ContentSlides | src/glip/artifacts/specs.py:60-161 | for every parsed content with items: the bullets are exactly the items of its blocks |
| SlideTables.TableItemsAre | src/glip/artifacts/specs.py:146-150 | for every table and chunk size: one item per row with something to show, "header: cell" of exactly the columns where one of the two is not empty, in order, joined by bars, or its prefix |
| SlideTables.ItemsKeepWords | src/glip/artifacts/specs.py:138-151 | no word of a heading below level 2, a paragraph, a list or a table is lost or moved, for every chunk size that the table rows fit |
| SlideTables.ItemsAreShort | src/glip/artifacts/specs.py:139-150 | every item keeps the chunk size, is a single word, or is the text of a lower heading |
| SlideTables.ParagraphItemsAreFewest | src/glip/artifacts/specs.py:142-143 | a paragraph gets no more items than any cutting of its words needs |
| SlideTables.PlainBlocksAreOneSection | src/glip/artifacts/specs.py:138-152 | blocks without a high heading or page break are one section under the title before them |
| SlideTables.FallbackShowsText | src/glip/artifacts/specs.py:153-154 | a document without items shows its semantic text under "Resumo" |
| SlideTables.PlanEdges | src/glip/artifacts/specs.py:155-161 | the plan has the document's title; a step of zero is an error iff there is a section, a negative one gives no slides |
| SlideTables.BlanksAreDropped | src/glip/artifacts/specs.py:157 | a blank item is left out of the slides, any other is kept |
| Endian.BigRoundTrip | src/glip/visual_ai_routes.py:63-70 | reading n written in k bytes gives n |
| Endian.LittleRoundTrip | src/glip/visual_ai_routes.py:81-89 | the same for the other byte order |
| ImageHeader.JpegSize | src/glip/visual_ai_routes.py:46-73 | the loop answers what the walk from behind the start marker answers, all reads in bounds |
| ImageHeader.WalkFinds | src/glip/visual_ai_routes.py:48-73 | for all segments without a frame, any fill bytes, then a frame and any tail: that frame's size |
| ImageHeader.WalkIsExact | src/glip/visual_ai_routes.py:48-73 | on every byte string the walk answers a size iff the bytes are segments without a frame and then a frame of that size |
| ImageHeader.JpegRoundTrip | src/glip/visual_ai_routes.py:45-75 | a written JPEG file reads back as the size of its first frame |
| ImageHeader.JpegIsExact | src/glip/visual_ai_routes.py:45-98 | a file in the JPEG envelope is accepted with a size iff it has such a frame and the size is allowed |
| ImageHeader.ImageKind | src/glip/visual_ai_routes.py:38-98 | the format, its size and the limits, or the error of the first check that fails |
| ImageHeader.PngRoundTrip | src/glip/visual_ai_routes.py:40-44 | every written PNG size is read back |
| ImageHeader.PngIsWritten | src/glip/visual_ai_routes.py:40-44 | every file that reads as PNG is the one written with the size read |
| ImageHeader.Vp8xRoundTrip | src/glip/visual_ai_routes.py:76-82 | every written VP8X size is read back |
| ImageHeader.Vp8RoundTrip | src/glip/visual_ai_routes.py:83-85 | every written VP8 size is read back, whatever the scale bits |
| ImageHeader.Vp8lRoundTrip | src/glip/visual_ai_routes.py:77-89 | every written VP8L size is read back if five bytes follow the header, and the file is refused otherwise; for an allowed size it is accepted iff five bytes follow |
| ImageFormats.AcceptedIsWritten | src/glip/visual_ai_routes.py:38-98 | every byte string is accepted in a format with a size iff it is a file the format writes for that size, 64 to 8192 each way and at most 32 million pixels |
| ImageFormats.MarkersAreTheTables | src/glip/visual_ai_routes.py:57-66 | the frame markers and the markers without a length, one by one |
| NativeAuth.Credential.Authenticate | src/glip/native_auth.py:177-257 | a session iff not locked and all is right; counters, lock and session times of every branch |
| NativeAuth.AttemptsAreBounded | src/glip/native_auth.py:206-216 | from any state, without a success, at most max_failed_attempts plus one per full lockout period are evaluated |
| NativeAuth.BoundIsReached | src/glip/native_auth.py:206-216 | for every number of periods a run reaches that bound |
| NativeAuth.LockIsHistory | src/glip/native_auth.py:200-235 | after any logins on a new credential: the failures counted are those tried since the last success, and it is locked exactly for the lockout period after the latest of at least max_failed_attempts of them |
| NativeAuth.SuccessRestores | src/glip/native_auth.py:218-235 | after a success the first max_failed_attempts wrong passwords are all tried, and exactly with the last of them the credential is locked |
| NativeAuth.LockedIsDeaf | src/glip/native_auth.py:196-206 | while locked no login is tried and none, right or wrong, changes anything |
| Sessions.SessionTable.Authenticate | src/glip/native_auth.py:260-313 | which rows change and how, and when each answer is given |
| Sessions.SessionTable.Revoke | src/glip/native_auth.py:316-326 | the live session of the token is revoked, no other row changes |
| Sessions.SessionTable.RevokeAll | src/glip/native_auth.py:329-339 | every live session of the credential is revoked, no other row changes, and the answer counts the credential's live sessions |
| Sessions.ThrottledRefinesSimple | src/glip/native_auth.py:304-311 | whatever the throttled session accepts, the session touched by every visit accepts, in all ordered runs |
| Sessions.RevokedForever | src/glip/native_auth.py:268-274 | a revoked session stays as it is and accepts nothing |
| Sessions.GapCondition | src/glip/native_auth.py:276-311 | regular use with gaps up to g never idle-expires a session before it expires iff g is at most idle time less touch interval, or idle time and lifetime are the same |
| SessionRuns.SignOutRevokes | src/glip/native_auth.py:316-326 | every row of the token is revoked, at that time unless it was before; nothing else in it and no other row changes |
| SessionRuns.SignOutAllRevokes | src/glip/native_auth.py:329-339 | the same for all rows of a credential |
| SessionRuns.UseDoes | src/glip/native_auth.py:260-313 | what an access does to the row of its token in every case, and that no other row changes |
| SessionRuns.SignInOpens | src/glip/native_auth.py:237-257 | a login adds one session that lives, and may be idle, for the times of the settings |
| SessionRuns.SignOutIsFinal | src/glip/native_auth.py:268-274 | over all later logins, accesses and revocations no access with the token is accepted |
| SessionRuns.SignOutAllIsFinal | src/glip/native_auth.py:268-339 | nor with any token that the credential then had |
| SessionRuns.RefusalIsFinal | src/glip/native_auth.py:268-302 | a token refused once is refused for ever |
| SessionRuns.LiveIsCount | src/glip/native_auth.py:329-339 | the answered number is that of the sessions that were revoked |
| Invitations.Registry.CreateInvitation | src/glip/admin_routes.py:90-194 | the first failing check, or the issued row, the taken slot and the next token version |
| Invitations.Registry.TakeSlot | src/glip/admin_routes.py:137-157 | one slot of the tenant's hour, unless ten are taken |
| Invitations.Registry.RevokeInvitation | src/glip/admin_routes.py:197-223 | a pending invitation becomes revoked, anything else is refused |
| Invitations.Registry.AcceptInvitation | src/glip/invitation_routes.py:30-94 | the first failing check and no change, or account, membership and accepted row |
| InvitationTheorems.AcceptsLiveTokens | src/glip/invitation_routes.py:39-62 | in every reachable state a token is accepted iff the latest that happened to its invitation is its issuance less than 48 hours ago, no account has the key and the password is allowed |
| InvitationTheorems.AcceptedAtMostOnce | src/glip/invitation_routes.py:63-94 | two acceptances never share a token, an invitation or a membership |
| InvitationTheorems.AcceptedForever | src/glip/admin_routes.py:130-131 | an accepted invitation is never reissued, revoked or accepted again |
| InvitationTheorems.VersionIsIssues | src/glip/admin_routes.py:161-181 | token_version counts how often the invitation was issued |
| InvitationTheorems.AccountsAreCounted | src/glip/invitation_routes.py:63-79 | accounts and memberships are as many as acceptances and enrolments |
| InvitationTheorems.IssuanceIsLimited | src/glip/admin_routes.py:135-157 | at most ten issuances per tenant and UTC hour, at most twenty in any sixty minutes |
| InvitationHistory.LogIsHistory | src/glip/admin_routes.py:90-223 | in every run what happens is what the log alone allows: accounts, live invitations, ten per hour and 48 hours read off the log, without any table |
| InvitationHistory.AnswersAreHistory | src/glip/invitation_routes.py:30-94 | and issuance, revocation and activation answer in every reachable state as the log says |
| Money.QuotientKeepsCents | src/glip/pricing/service.py:447 | for every dividend and divisor up to 10000, rounding the quotient to at least six places first never changes the half-up cents |
| Money.DecimalMargin | src/glip/pricing/service.py:447 | so the price before tax is that of the exact quotient |
| Money.ProfessionalFee | src/glip/pricing/service.py:424-448 | a fee iff the inputs are accepted |
| Money.FeeIsMonotone | src/glip/pricing/service.py:445-448 | labor <= cost with overhead <= price before tax <= total, and all four are monotone in every input |
| Money.FeeIsNear | src/glip/pricing/service.py:445-448 | the total is within ((½(1+o)+½)/(1-m)+½)(1+t)+½ cents of the exact fee |
| Money.FeeInFull | src/glip/pricing/service.py:445-448 | the exact fee is x(1+o)/(1-m)(1+t) in the rates as given |
| PricingTotals.EstimateIsExact | src/glip/pricing/service.py:297-376 | an estimate is made iff the request is admitted and every mapping can be priced, and its total is that of quantity times price in the rows |
| PricingTotals.EstimateIsNear | src/glip/pricing/service.py:313-376 | the total of n mappings is within n*factor/20000 + ½ cents of the sum of quantity*price over mappings and items, times the factor |
| PricingTotals.OrderDoesNotMatter | src/glip/pricing/service.py:303-376 | two lists of the same mapping ids in any order both give an estimate or neither, with the same total |
| PricingTotals.PartsByACent | src/glip/pricing/service.py:303-376 | a list cut in two gives an estimate iff both parts do, and the totals differ by at most one cent |
| PricingStore.Store.CreatePriceSnapshot | src/glip/pricing/service.py:70-161 | the first failing check and no change, or an unverified snapshot with its items |
| PricingStore.Store.ApprovePriceSnapshot | src/glip/pricing/service.py:164-203 | only an owner, only a supplier quote with items; then it and all its items are approved |
| PricingStore.Store.CreateQuantityMapping | src/glip/pricing/service.py:205-261 | the first failing check and no change, or a proposed mapping |
| PricingStore.Store.ApproveQuantityMapping | src/glip/pricing/service.py:264-283 | only an owner; status and approver change, nothing else |
| PricingStore.Store.CollectLines | src/glip/pricing/service.py:313-374 | the lines of all mappings and the sum of their rounded subtotals, or the first error |
| PricingStore.Store.EstimateConstruction | src/glip/pricing/service.py:285-413 | the estimate of the mappings in the current state, or the first error and no change |
| PricingTheorems.EstimatesAreBacked | src/glip/pricing/service.py:315-374 | in every reachable state every estimate line comes from an owner-approved supplier quote with a positive price and an owner-approved mapping of the same unit, and the total is that of the lines |
| PricingTheorems.NamedEstimateRepeats | src/glip/pricing/service.py:285-376 | whatever calls come after a successful estimate, if every approval among them has a named actor, it repeats with the same lines and total |
| PricingTheorems.EstimateRepeats | src/glip/pricing/service.py:317-318 | in every later state a successful estimate repeats with the same lines and total iff the approvers of its mappings have names |
| PricingTheorems.NamesStay | src/glip/pricing/service.py:280-281 | as long as no approval has an empty actor, the approvers keep having names |
| PricingTheorems.RepeatCanFail | src/glip/pricing/service.py:317-318 | a concrete family of runs, with an empty actor that no route passes, in which the repeated estimate fails |
| PricingHistory.EstimateHasItsHistory | src/glip/pricing/service.py:70-413 | in every run each line of each estimate goes back to four earlier calls of its tenant: the submission with exactly its price, unit and role, the proposal with exactly its quantity, and an owner's approval of each |
| PricingHistory.ItemHasItsQuote | src/glip/pricing/service.py:70-161 | every item has the price, unit and role it was submitted with, and its snapshot the source and roles of that submission |
| PricingHistory.MappingHasItsRequest | src/glip/pricing/service.py:205-261 | every mapping has the item, quantity, unit and provenance it was proposed with |
| PricingHistory.SubmitLeaves | src/glip/pricing/service.py:70-161 | a submission is accepted iff its source, roles and items are good, and leaves exactly its unapproved snapshot and items |
| PricingHistory.ApproveSourceLeaves | src/glip/pricing/service.py:164-203 | a snapshot is approved iff an owner of its tenant asks and it is a supplier quote with items; it and exactly its items become approved |
| PricingHistory.MapLeaves | src/glip/pricing/service.py:205-261 | a mapping is proposed iff item, unit and provenance fit, and is left as asked for |
| PricingHistory.ApproveMapLeaves | src/glip/pricing/service.py:264-283 | a mapping is approved iff an owner asks within its tenant and project; only the approval changes |
| PricingHistory.PriceLeaves | src/glip/pricing/service.py:285-413 | in every run a successful estimate is kept under a new id, as it was answered, in every later state; a refused one changes nothing |
| PricingHistory.OwnersAre | src/glip/pricing/service.py:50-52 | an owner is a role that spells the word in any case with any whitespace around it |
| Polygon.AreaIsRingSum | src/glip/cad/dxf_semantics.py:46-52 | open or closed, the area is half the absolute sum around the ring |
| Polygon.RectangleArea | src/glip/cad/dxf_semantics.py:46-52 | a rectangle along the axes has the product of its sides as its area |
| Polygon.TriangleArea | src/glip/cad/dxf_semantics.py:46-52 | twice the area of a triangle is the magnitude of the cross product of two sides |
| Polygon.AreaMoves | src/glip/cad/dxf_semantics.py:46-52 | moving the ring keeps its area |
| Polygon.AreaReverses | src/glip/cad/dxf_semantics.py:46-52 | reversing the ring keeps its area |
| Polygon.AreaRotates | src/glip/cad/dxf_semantics.py:46-52 | starting at another point keeps the area |
| Polygon.AreaScales | src/glip/cad/dxf_semantics.py:167-169 | measuring and multiplying by the squared unit scale is scaling and measuring |
| Polygon.DiagonalCuts | src/glip/cad/dxf_semantics.py:46-52 | a diagonal cuts a ring into two whose sums add up |

## Left out

- ApprovalCustody.CustodyHolds: for calls that do not overlap, as all of `ApprovalTheorems` and `ApprovalStore`; what holds when they do is in `ApprovalRaceTheorems`.
- ApprovalRaceSteps.ReachableRace: every commit writes the columns that its call sets; the source leaves out of the UPDATE a status whose value the session had already read, so the draft's `status` may differ and nothing is stated about it.
- ApprovalRaceRuns.SerialRunsAreRuns: the completion of create_draft is one commit here; its own steps are in `DraftProtocol`.
- PricingStore.Store.CreatePriceSnapshot: the unique constraints uq_price_snapshot_evidence and uq_price_item_snapshot_code_unit_role (src/glip/models.py:724, 751) are not modelled, so a repeated evidence digest or item code is not refused; the checks on evidence, publisher and digest are one flag.
- DraftTheorems.OnlySuccessLeavesAVersion: commit and answer are one step, so a crash between them is not told from an answer.
- `draft.status`: the write at src/glip/services.py:227-229 is not guarded by ownership; the model makes it, and says of the field in the protocol only what each commit writes.
- `CognitiveExecution` rows, risk scan, cognitive profile, context building, source reference checks and the canonical upstream request: one flag says whether a request is acceptable.
- SHA-256 is injective on the hashed material; scrypt, tokens and ids are outcomes and fresh values. Unexpected integrity errors are not modelled.
- History kept in rows for the proofs and not in the source's tables: the key a draft was inserted with, who drew an owner token, the writer of a version, which candidate made a fact, the roles of approvers, the log of invitations.
- The database is atomic commits, the unique constraints of models.py and row locks; a step that would wait for a lock does nothing.
- DraftTheorems.LeasesAreDisjoint: says nothing about true time, only about the clock readings themselves.
- OrkioClient.Post: one duration stands for each HTTP attempt and is assumed to be within the timeout; headers, JSON decoding and contract validation are one outcome per post. `probe` and the mock mode are not modelled.
- OrkioClient.OutageIsBounded: for calls one after the other; calls in flight at the same time can each record a failure, and rejected calls record none.
- Negative backoffs, which config.py accepts and `sleep` refuses.
- Every line of a document is classified once, as a `Line`; the source matches the same expressions where it needs them. Unicode whitespace, digits and letter case are not modelled, `spreadsheet_rows` and `semantic_anchor_text` neither.
- SlideTables.ItemsKeepWords: for chunk sizes that the rows of the tables fit, since the source cuts a longer row; `SlideTables.TableItemsAre` says what is kept of it.
- DocumentRoundTrip.WriteThenParse: for blocks of cleaned texts of one line, paragraphs that have none of the other forms, and tables of two or more columns.
- SlidePlan.ContentSlides: for chunk sizes of at least one, since a truncation to nothing drops table items.
- NativeAuth.Credential.Authenticate: identities that are malformed or unknown change no row and are not modelled; password and membership checks are flags. Audit events are the returned event code.
- Times of invitations and sessions are integers; time zone conversion is not modelled.
- Invitation display names, inviters, the constant role `member` and audit events.
- Decimal overflow of products beyond 28 digits, and the rounding of quantities when they are stored; quantities are whole millionths, possibly zero.
- Money.FeeIsNear: `hours` is a real, not a decimal string.
- Provenance digests of estimates, ledger rows of costs, `add_realized_cost`, publishers, geography, competency and metadata of snapshots.
- Server-verified snapshots: no function of the service makes one.
- The rounding of areas and lengths to nine digits, floating point, circles, splines and polyline lengths.
- Routing, headers, cookies, storage backends, renderers, BIM and geometry workers, chat providers, dashboards and migrations.
