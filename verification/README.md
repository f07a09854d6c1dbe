# Provider operations: a verified model

This project models six parts of the provider back office and proves properties of them: the
bank-account verification protocol, the purge of legacy products along foreign keys, the splitter of
migration scripts, imported and exported calendars, the lifecycle of provider documents, and the
mapping of local entities to those of a channel manager.

`dafny verify dfyconfig.toml` checks everything.

## How it is built

Code that changes rows, maps or flags step by step is a class or a method with the same steps and the
same branches. Each such method is proved equal to a specification function, and the properties are
proved about those functions, over all inputs or over all runs. A method whose specification function
has the same branches is only the link between the two; what its command means is stated by the lemmas
named below.

| files | what they model |
|---|---|
| `SqlTokens`, `SqlTheory`, `SqlLaws`, `SqlSplitter` | the script's own token grammar, its theory, laws that do not mention it, and the flag-driven loop |
| `ForeignKeys`, `PurgeClosure`, `PurgeOrder`, `Purge` | rows and foreign keys, the worklist, the depth-first order, the delete loop |
| `PaymentAccounts`, `PaymentStore` | the transactions on account and profile rows, as functions and as the program runs them |
| `PaymentEvidence`, `PaymentWorld`, `PaymentSafety`, `PaymentChallenges`, `PaymentCommands`, `PaymentOutcomes`, `PaymentErrors`, `PaymentProfile`, `PaymentWalkthrough`, `PaymentRaces` | fingerprints, all interleavings, what every run keeps, what each command and its repetition do, when it succeeds and what it reports otherwise, what the profile becomes, a run from creation to verification, and a run that breaks one law |
| `Documents`, `DocumentOutcomes`, `DocumentRuns`, `DocumentRaces` | submission and review, when they succeed, all interleavings, and a run that breaks one law |
| `ChannelMapping`, `MappingChecks`, `MappingOrder` | the batch upsert, what its checks achieve, and in which order a batch can be written |
| `NameSimilarity`, `MappingWorkspace`, `WorkspaceLaws` | the score, the greedy matcher, its composition with the upsert, and what a row shows |
| `CalendarEvents`, `CalendarOverlay` | replacement and revocation of imported events, the per-day index |
| `IcalText`, `IcalLines`, `IcalExport`, `IcalLaws` | escaping, folding and the exported file, with a reader after RFC 5545 and the literal lines it gets |

Concurrency. `withPostgresTransaction` runs at isolation level "repeatable read"
(`src/shared/infrastructure/db/client.ts:80`). A run is therefore a list of events over a history of
committed states: each transaction is one atomic step that reads from some earlier state of the
history (its snapshot, or a read made before the transaction), writes to the current one, and fails
when a row that it locks or writes has changed since the snapshot. A command that crashes has no
further events, and a repeated request has its own. The bank, permissions, feature switches and clocks
are arguments of the events. The payout rail answers in any of the ways that `src/lib/payout-rail` can:
its live results all come from Stripe, and the command rejects the others.

## Findings

The proofs found four places where a law does not hold as one would state it. Each has a lemma with a
run or an input that shows it, and a lemma that gives the exact condition.

- At most one account per provider is under review. A creation checks this in its snapshot, which may
  be older than another creation and its rejection, and the unique index covers pending rows only:
  `PaymentRaces.StaleCreateLeavesTwoActive`. A creation whose snapshot shows an account waiting for a
  correction always keeps the law, and any other exactly when no account is under review at its commit:
  `PaymentSafety.CreateIsSafe`.
- At most one document that replaces the same predecessor is verified. If the predecessor is already
  superseded, approving a sibling does not change its row, so a concurrent approval neither conflicts
  nor sees the sibling: `DocumentRaces.StaleSiblingsBothVerified`. An approval whose snapshot shows the
  predecessor as verified always keeps the law, and any other exactly when no sibling is verified at its
  commit: `DocumentRuns.ApprovalIsSafe`.
- A batch of mappings keeps a partial bijection, but a batch that exchanges two external ids never
  succeeds, even when its listing is current: rows are written one by one under the unique index
  (`db/postgres/0001_initial_schema.sql:4426`), so the first write already collides with the row that
  the second one would free, and the batch is rolled back: `ChannelMapping.ExchangeRollsBack`. The exact
  condition for success is `ChannelMapping.UpsertSucceedsExactly`. A batch without a circle of external
  ids has an order that succeeds, and a batch with one has none: `MappingOrder.SomeOrderSucceeds`.
- Suggestions can be submitted as they are. The matcher avoids the external ids of active mappings only,
  while the upsert and the index look at inactive ones too, so a suggestion of an inactive mapping's
  external id can make the submission fail: `MappingWorkspace.InactiveMappingBlocks`. The exact condition
  is `MappingWorkspace.SuggestionsSucceedExactly`.

## Model

| member | source | states |
|---|---|---|
| SqlSplitter.SplitSqlStatements | scripts/db/apply-single-migration.ts:79-167 | the loop with its three flags returns exactly the trimmed non-blank segments between the top-level semicolons of the token grammar |
| SqlSplitter.LineEndIsIndexOf | scripts/db/apply-single-migration.ts:87-166 | skipping a line comment with indexOf is the same as reading it to its line feed or to the end of the text |
| SqlTheory.SegmentsRejoin | scripts/db/apply-single-migration.ts:87-166 | the segments joined with semicolons are the source text: no character is lost or reordered, and no segment contains a separator |
| SqlTheory.CutPrefix | scripts/db/apply-single-migration.ts:87-166 | where the first separator lies does not depend on the text after it |
| SqlTheory.StatementIsAtomic | scripts/db/apply-single-migration.ts:79-167 | every returned statement is non-empty and trimmed, and splitting it again returns just that statement |
| SqlTheory.ClosedMeansSeparable | scripts/db/apply-single-migration.ts:87-166 | a text is lexically closed exactly when a semicolon appended to it separates it, proved against an independent definition of closed tokens |
| SqlTheory.CutAfterClosed | scripts/db/apply-single-migration.ts:87-166 | the same before any following text |
| SqlTheory.RoundTrip | scripts/db/apply-single-migration.ts:79-167 | a list of non-empty trimmed statements printed with semicolons and line feeds is split back into that list if and only if all but the last are closed and the last has no separator |
| SqlTheory.ClosedListsRoundTrip | scripts/db/apply-single-migration.ts:79-167 | in particular every list of closed statements comes back |
| SqlLaws.TagAtStart | scripts/db/apply-single-migration.ts:121-130 | `$$`, and an identifier between two dollars, is a dollar tag, whatever follows |
| SqlLaws.OnlyTagNames | scripts/db/apply-single-migration.ts:121-130 | nothing else is a dollar tag |
| SqlLaws.QuotedTextContinues | scripts/db/apply-single-migration.ts:91-150 | text between two equal dollar tags, in quotation marks, in apostrophes with the inner ones doubled, or in a comment belongs to one segment with what follows, semicolons included, and what follows is read as if on its own |
| SqlLaws.PlainTextContinues | scripts/db/apply-single-migration.ts:161-162 | so does text without special characters |
| SqlLaws.SemicolonSeparates | scripts/db/apply-single-migration.ts:152-159 | a semicolon between them ends a segment |
| SqlLaws.QuotedTextStaysWhole | scripts/db/apply-single-migration.ts:79-167 | after any plain text and before anything, a quoted text is found whole in one returned statement |
| SqlLaws.BlankIsWhiteSpace | scripts/db/apply-single-migration.ts:153-165 | trimming removes exactly the white space and line terminators of ECMA-262 |
| SqlLaws.WhiteSpaceIsNoStatement | scripts/db/apply-single-migration.ts:153-165 | text of nothing but white space yields no statement |
| PurgeClosure.CollectClosure | scripts/db/purge-legacy-geography-products.ts:207-261 | the worklist terminates on any foreign-key graph; it returns the least set of rows that contains the products and every row that refers to a member, with an edge recorded for exactly the pairs of collected rows that refer to each other; it fails only on a relation that the walk must inspect and that is not safe to purge |
| PurgeClosure.ExtendKeepsWalking | scripts/db/purge-legacy-geography-products.ts:225-257 | adding the rows found through one foreign key keeps the collected set within every closed set around the products |
| PurgeClosure.FollowKeepsState | scripts/db/purge-legacy-geography-products.ts:232-257 | following one foreign key keeps every collected row either processed or queued |
| PurgeClosure.WalkDone | scripts/db/purge-legacy-geography-products.ts:207-261 | when every row has been processed the collected set is the closure and its edges match the rows |
| PurgeOrder.Walk.Visit | scripts/db/purge-legacy-geography-products.ts:266-278 | one visit of the depth-first search: it returns with the relation black and the finished list ordered children first, or has found a cycle of the graph |
| PurgeOrder.DeletionOrder | scripts/db/purge-legacy-geography-products.ts:263-281 | it fails if and only if the recorded graph has a cycle; otherwise it returns every relation with rows to delete exactly once, each child before its parents |
| PurgeOrder.OrderedIsAcyclic | scripts/db/purge-legacy-geography-products.ts:263-281 | a graph with such an order has no cycle |
| PurgeOrder.KeepChildrenFirst | scripts/db/purge-legacy-geography-products.ts:280-280 | leaving out relations without rows keeps children first |
| PurgeOrder.GreyMeansCycle | scripts/db/purge-legacy-geography-products.ts:267-269 | meeting a relation that is being visited gives a cycle |
| Purge.IntegrityDuringPurge | scripts/db/purge-legacy-geography-products.ts:325-332 | no reference dangles after any part of any delete statement along the order |
| Purge.CyclesMatchRows | scripts/db/purge-legacy-geography-products.ts:225-257 | the recorded graph has a cycle exactly when the collected rows refer to each other in a circle of relations |
| Purge.Database.Purge | scripts/db/purge-legacy-geography-products.ts:315-344 | the whole run removes exactly the closure rows (and the rows deleted by scope before), with integrity after every delete; on failure nothing changes, and the cause of the failure is one of the rows or relations of the closure |
| PaymentEvidence.EvidenceAccepted | src/lib/provider-payment-accounts.ts:1044-1056 | a descriptor code is taken whatever the amounts are, without one two amounts from 1 to 99 cents are taken in either order, everything else is refused, and every valid piece of evidence can be given |
| PaymentEvidence.DescriptorForm | src/lib/provider-payment-accounts.ts:1044-1044 | a descriptor code is the letters SM and four capitals or digits |
| PaymentEvidence.AmountsTaken | src/lib/provider-payment-accounts.ts:1045-1055 | without a descriptor code two amounts from 1 to 99 are taken, the smaller one first, and no others |
| PaymentEvidence.FingerprintInjective | src/lib/provider-payment-accounts.ts:1051-1055 | the hashed text is the same for two pieces of evidence if and only if the evidence is the same |
| PaymentEvidence.AmountsUnordered | src/lib/provider-payment-accounts.ts:1048-1053 | two pairs of amounts have the same hashed text exactly when they are the same pair up to order |
| PaymentEvidence.AmountsText | src/lib/provider-payment-accounts.ts:1051-1053 | the amounts are hashed as decimal numbers in the order of their texts, so 10 comes before 2 |
| PaymentStore.Store.CreateAccount | src/lib/provider-payment-accounts.ts:577-664 | creation refuses while the snapshot shows a pending account or the index holds a pending row, supersedes the accounts waiting for a correction, inserts the new one, and otherwise changes nothing |
| PaymentOutcomes.CreateSucceedsExactly | src/lib/provider-payment-accounts.ts:577-606 | a creation succeeds if and only if the identifier has four characters, the snapshot shows no pending account, no account waiting for a correction has changed since, and no row is pending at the commit |
| PaymentOutcomes.CreatedAsGiven | src/lib/provider-payment-accounts.ts:213-217 | the new account is pending, has the caller's terms, the last four characters of its number, and no challenge |
| PaymentErrors.CreateReports | src/lib/provider-payment-accounts.ts:577-664 | which error a creation reports: the identifier, a pending account, a changed row, the index, in this order |
| PaymentCommands.LockShowsEffectiveStatus | src/lib/provider-payment-accounts.ts:693-720 | a locked row is the stored row with its effective status, and locking it again changes nothing |
| PaymentErrors.LockReports | src/lib/provider-payment-accounts.ts:693-720 | an account that the snapshot does not show is not found, and one changed since makes the transaction retry |
| PaymentCommands.RunKeepsIndex | src/lib/provider-payment-accounts.ts:577-1183 | in every run at most one account has a pending row, also where a transaction writes such a row without asking for others |
| PaymentOutcomes.EffectiveStatus | src/lib/provider-payment-accounts.ts:370-389 | a verification counts unless it was made by the simulator or the retired hash check and neither a person nor Stripe stands behind it |
| PaymentStore.Store.SyncFinancialProfile | src/lib/provider-payment-accounts.ts:744-801 | the profile row is written from the selected account, or from the only verified account it refers to |
| PaymentStore.Store.RefreshReadiness | src/lib/provider-payment-accounts.ts:723-742 | readiness is refreshed from the primary or the only verified account, and withdrawn when there is none |
| PaymentSafety.FinishReviewEffect | src/lib/provider-payment-accounts.ts:803-820 | finishing a review keeps all account rows and leaves a profile that, if ready, agrees with a verified account |
| PaymentProfile.ReviewWritesProfile | src/lib/provider-payment-accounts.ts:744-801 | an approval makes its account the reference when there was none; otherwise the only effectively verified account that the reference names stays it with its own terms, and without such an account the profile is not ready; ready means that the tax profile seen is verified |
| PaymentProfile.ConfirmationWritesProfile | src/lib/provider-payment-accounts.ts:744-801 | the same for an account that the bank's answer verified |
| PaymentProfile.InitiationWritesProfile | src/lib/provider-payment-accounts.ts:744-801 | the same for an account that the rail verified at once |
| PaymentProfile.RefreshWritesProfile | src/lib/provider-payment-accounts.ts:723-742 | a refresh goes on with the primary account if it counts as verified, or else with the only verified one, and writes the profile in the same way; without such an account it withdraws readiness and changes nothing else |
| PaymentProfile.RejectionRefreshes | src/lib/provider-payment-accounts.ts:803-820 | a rejection has the effect of a refresh from the other accounts |
| PaymentProfile.RefreshMakesReady | src/lib/provider-payment-accounts.ts:723-801 | a provider whose only verified account is the reference, or that has no reference yet, is ready after a refresh exactly when its tax profile is verified |
| PaymentCommands.ReservedOnce | src/lib/provider-payment-accounts.ts:912-953 | a reservation changes the challenge of its account only; repeating the request before an answer is recorded gives the same key and time, whatever the new ones are |
| PaymentOutcomes.InitiationSucceedsExactly | src/lib/provider-payment-accounts.ts:912-930 | a reservation succeeds if and only if the row can be locked, the command is allowed and available, and the account is effectively pending without an initiated or failed challenge |
| PaymentErrors.InitiationReports | src/lib/provider-payment-accounts.ts:912-930 | which error a reservation reports, each if and only if its check is the first to fail |
| PaymentOutcomes.InitiationReserves | src/lib/provider-payment-accounts.ts:930-945 | it reuses the key of an initiation under way and takes the new key otherwise, and keeps the time of an earlier one |
| PaymentOutcomes.InitiationWrites | src/lib/provider-payment-accounts.ts:930-947 | it writes the status, the key and the time of the challenge, and nothing else of the row |
| PaymentCommands.AnswerRecordedOnce | src/lib/provider-payment-accounts.ts:966-1032 | an accepted answer is recorded for the reservation that the row holds, and once: further answers to it change nothing, answers to another reservation are refused, and the account counts as verified exactly when the rail verified it at once |
| PaymentOutcomes.RecordingSucceedsExactly | src/lib/provider-payment-accounts.ts:966-1029 | an answer is recorded if and only if it is a live deposit or verification with a reference, the row can be locked, is effectively pending and still holds the reservation, the command is allowed, and, when the profile is written, it has not changed |
| PaymentErrors.RecordingReports | src/lib/provider-payment-accounts.ts:966-980 | which error the recording of an answer reports; a result that is no live deposit is reported before the row is read |
| PaymentOutcomes.RecordingWrites | src/lib/provider-payment-accounts.ts:981-1012 | the row afterwards: the rail with its reference, the outcome, and the expiry seven days after the reservation; nothing changes for a challenge initiated before |
| PaymentOutcomes.StartedDepositCanBeConfirmed | src/lib/provider-payment-accounts.ts:981-1105 | a started deposit can be confirmed, under the reference of the rail, until seven days after its reservation and not later |
| PaymentChallenges.VerifiedByRail | src/lib/provider-payment-accounts.ts:966-1012 | of all results of the rail only live answers from Stripe get past the check, so what they verify counts as verified |
| PaymentCommands.ConfirmationWaits | src/lib/provider-payment-accounts.ts:1057-1105 | a reserved confirmation leaves one outstanding token with its evidence, before the expiry and below three attempts; a further request is refused for a minute, and then goes on only with the same evidence and under the same token |
| PaymentOutcomes.ConfirmationSucceedsExactly | src/lib/provider-payment-accounts.ts:1057-1105 | a confirmation is reserved if and only if the row can be locked, the command is allowed and available, the account is effectively pending with an initiated Stripe deposit that has not expired and fewer than three attempts, and an outstanding one is a minute old and has the same evidence |
| PaymentErrors.ConfirmationReports | src/lib/provider-payment-accounts.ts:1057-1086 | which error a confirmation reports, each if and only if its check is the first to fail |
| PaymentOutcomes.ConfirmationAsks | src/lib/provider-payment-accounts.ts:1083-1104 | it asks about the reference on the row, under the outstanding token or the new one |
| PaymentOutcomes.ConfirmationWrites | src/lib/provider-payment-accounts.ts:1087-1103 | it writes the time, the token and the evidence of the challenge, and nothing else of the row |
| PaymentCommands.AnswerCountedOnce | src/lib/provider-payment-accounts.ts:1118-1183 | a definitive answer is counted once and uses up its token, a match verifies, the third mismatch asks for attention, and a failed call leaves the row as it is |
| PaymentOutcomes.CountingSucceedsExactly | src/lib/provider-payment-accounts.ts:1118-1183 | an answer is counted if and only if the row can be locked, is effectively pending and still holds the token, the command is allowed, and the profile, where it is written, has not changed |
| PaymentErrors.CountingReports | src/lib/provider-payment-accounts.ts:1118-1130 | an answer to a token that is not outstanding is refused, and so is one that is not allowed |
| PaymentOutcomes.CountingWrites | src/lib/provider-payment-accounts.ts:1130-1160 | the row afterwards: the count, the status of the challenge and the account, and the review |
| PaymentCommands.ReviewedOnce | src/lib/provider-payment-accounts.ts:856-904 | an approval makes the account effectively verified and a rejection sends it back; no other account changes, and no second review of it succeeds |
| PaymentOutcomes.ReviewSucceedsExactly | src/lib/provider-payment-accounts.ts:856-904 | a review succeeds if and only if the row can be locked, is effectively pending, and the profile, where it is written, has not changed |
| PaymentErrors.ReviewReports | src/lib/provider-payment-accounts.ts:869-870 | a review of an account that is not effectively pending is refused as such |
| PaymentOutcomes.ReviewWrites | src/lib/provider-payment-accounts.ts:871-890 | it writes the decision and that a person made it, and nothing else of the row |
| PaymentCommands.SelectionIsStable | src/lib/provider-payment-accounts.ts:822-844 | a selected account is effectively verified and becomes the reference with its own terms, no account row changes, and selecting it again changes nothing while the tax status stays |
| PaymentOutcomes.SelectionSucceedsExactly | src/lib/provider-payment-accounts.ts:822-844 | a selection succeeds if and only if the row can be locked, is effectively verified, and the profile has not changed |
| PaymentErrors.SelectionReports | src/lib/provider-payment-accounts.ts:827-832 | which error a selection reports |
| PaymentSafety.OneAccountEffect | src/lib/provider-payment-accounts.ts:693-720 | a command about one account changes that row only, and only when it was effectively pending |
| PaymentSafety.CreateEffect | src/lib/provider-payment-accounts.ts:577-637 | a creation keeps settled accounts and the profile's agreement with a verified account |
| PaymentSafety.SettledForever | src/lib/provider-payment-accounts.ts:577-904 | in every run, on any snapshots, effectively verified and superseded accounts never change again |
| PaymentSafety.ReadyMeansVerified | src/lib/provider-payment-accounts.ts:723-801 | in every run a ready profile points to an effectively verified account of the provider, carries that account's currency and schedule, and records a verified tax status |
| PaymentSafety.OnlySelectionChangesReference | src/lib/provider-payment-accounts.ts:744-844 | once the profile refers to an account id, no other step than a selection changes the reference |
| PaymentSafety.ReferenceKeptBetweenSelections | src/lib/provider-payment-accounts.ts:744-844 | the same over any further run without selections |
| PaymentSafety.CreateKeepsOneActive | src/lib/provider-payment-accounts.ts:577-606 | a successful creation leaves at most one account under review if and only if its snapshot shows every account that is under review at its commit |
| PaymentSafety.CreateIsSafe | src/lib/provider-payment-accounts.ts:577-606 | with at most one account under review before it, a successful creation keeps the law if and only if its snapshot shows an account waiting for a correction or no account is under review at its commit |
| PaymentSafety.SerialCreateSeesActive | src/lib/provider-payment-accounts.ts:577-606 | the condition of CreateKeepsOneActive holds whenever nothing was committed since the snapshot |
| PaymentSafety.OtherStepsKeepOneActive | src/lib/provider-payment-accounts.ts:693-904 | no other step adds an account under review |
| PaymentSafety.OneActiveAccount | src/lib/provider-payment-accounts.ts:577-606 | runs whose creations meet the condition never have two accounts under review |
| PaymentRaces.StaleCreateLeavesTwoActive | src/lib/provider-payment-accounts.ts:577-606 | a run of two creations and a rejection that ends with two accounts under review |
| PaymentChallenges.FinishInitKept | src/lib/provider-payment-accounts.ts:973-1032 | recording an initiation keeps the row in agreement with everything reserved, sent and answered |
| PaymentChallenges.FinishConfirmKept | src/lib/provider-payment-accounts.ts:1118-1183 | recording an answer of the bank keeps that agreement |
| PaymentChallenges.StepProtocol | src/lib/provider-payment-accounts.ts:907-1186 | every step of every command keeps that agreement for every created account |
| PaymentChallenges.OneIdempotencyKey | src/lib/provider-payment-accounts.ts:912-983 | in every run all initiation calls for a created account carry one key, and it is initiated at most once |
| PaymentChallenges.AttemptsAreVerdicts | src/lib/provider-payment-accounts.ts:1118-1159 | in every run the attempts on the row are the definitive answers recorded, at most three, each for another token; the account asks for attention by this path exactly after three mismatches |
| PaymentChallenges.OneEvidencePerToken | src/lib/provider-payment-accounts.ts:1077-1104 | in every run all bank calls under one token carry the same evidence, and at most one token of an account has no answer |
| PaymentWalkthrough.StepLogsEvent | src/lib/provider-payment-accounts.ts:577-1183 | every creation, reservation, call, initiation and verdict is logged in the run, so the laws about the logs speak of all of them |
| PaymentWalkthrough.DepositVerifies | src/lib/provider-payment-accounts.ts:577-1183 | from an empty table, whatever the number, terms, keys and evidence are: creation, one deposit and one matching answer leave the account effectively verified and the profile pointing to it, ready exactly when the tax profile is verified |
| DocumentRuns.SubmitForm | src/lib/provider-documents.ts:1540-1676 | a submission adds one pending document and changes at most its predecessor, which belongs to the same provider and is verified or superseded afterwards |
| DocumentOutcomes.SubmitSucceedsExactly | src/lib/provider-documents.ts:1540-1657 | a submission succeeds if and only if its key is new, the lease is held, and the document to replace was read as one of the same provider, type and subject that is not superseded |
| DocumentOutcomes.InvalidReplacementExactly | src/lib/provider-documents.ts:1562-1572 | any other document to replace is an invalid replacement, and nothing else is |
| DocumentOutcomes.SubmitWrites | src/lib/provider-documents.ts:1647-1676 | the new document has the submitted data, and the replaced one is superseded unless it was read as verified |
| DocumentRuns.SubmittedOnce | src/lib/provider-documents.ts:1347-1404 | a submission is read back under its key and payload, another payload under the key is refused, and nothing else can be submitted under the key |
| DocumentRuns.ReviewForm | src/lib/provider-documents.ts:1783-1890 | a review decides one pending document and, on approval, leaves its predecessor superseded; nothing else changes |
| DocumentOutcomes.ReviewSucceedsExactly | src/lib/provider-documents.ts:1783-1879 | a review succeeds if and only if the document was read as a pending one of the provider and has not changed, and, for an approval, the gate is open, the predecessor has not changed and the snapshot shows no verified sibling |
| DocumentOutcomes.ReviewWrites | src/lib/provider-documents.ts:1867-1890 | it sets the status of that document and, on approval, supersedes a verified predecessor of the provider |
| DocumentRuns.ReviewedOnce | src/lib/provider-documents.ts:1783-1879 | no second review of a document succeeds, whatever earlier state it reads |
| DocumentRuns.SubmittedKeeps | src/lib/provider-documents.ts:1647-1676 | a submission keeps earlier documents, leaves its predecessor verified or superseded, and verifies nothing |
| DocumentRuns.ReviewedKeeps | src/lib/provider-documents.ts:1830-1890 | a review changes its document and at most its verified predecessor, which an approval leaves superseded |
| DocumentRuns.AcyclicKept | src/lib/provider-documents.ts:1540-1572 | a new document whose predecessor existed before closes no circle of replacements |
| DocumentRuns.RunSafe | src/lib/provider-documents.ts:1540-1890 | in every run, with any stale reads, documents only move forward, a document with a successor shares its provider and type and is verified or superseded, no document and its direct predecessor are both verified, and replacement is acyclic |
| DocumentRuns.ApprovalKeepsOneSuccessor | src/lib/provider-documents.ts:1847-1890 | a successful approval leaves at most one verified successor of each document if and only if its snapshot shows every sibling verified at its commit |
| DocumentRuns.VerifiedPredecessorSeesSiblings | src/lib/provider-documents.ts:1847-1866 | this condition holds whenever the predecessor was verified in the snapshot |
| DocumentRuns.ApprovalIsSafe | src/lib/provider-documents.ts:1847-1890 | with one verified successor at most before it, a successful approval keeps the law if and only if its snapshot shows the predecessor as verified or no sibling is verified at its commit |
| DocumentRuns.CurrentSnapshotSeesSiblings | src/lib/provider-documents.ts:1847-1866 | and whenever nothing was committed since the snapshot |
| DocumentRuns.OneVerifiedSuccessor | src/lib/provider-documents.ts:1830-1890 | runs whose approvals meet the condition never have two verified successors of one document |
| DocumentRuns.SubmittedExactlyOnce | src/lib/provider-documents.ts:1347-1404 | in every run each key inserts at most one row, and every successful answer, also one that reads the row back after a lost acknowledgement, refers to that row with the caller's own fingerprint |
| DocumentRuns.SameKeySameAnswer | src/lib/provider-documents.ts:1347-1368 | two successful answers under one key are about the same document and the same payload |
| DocumentRaces.StaleSiblingsBothVerified | src/lib/provider-documents.ts:1847-1866 | a run of two submissions and two approvals after which two documents that replace the same one are verified |
| ChannelMapping.MappingTable.CheckDuplicates | src/lib/provider-integration-operations.ts:300-309 | the loop over the inputs reports the first repeated local or external id, the local one first, and collects all of them otherwise |
| ChannelMapping.MappingTable.Upsert | src/lib/provider-integration-operations.ts:290-361 | the command either applies all its writes or changes nothing, and reports the error of the first check that fails |
| ChannelMapping.NoDuplicate | src/lib/provider-integration-operations.ts:300-309 | the loop reports nothing exactly when no two inputs share a local or an external id of one type |
| MappingChecks.ChecksMeanBijection | src/lib/provider-integration-operations.ts:300-321 | the checks before the transaction pass if and only if the batch together with the mappings that stay is a partial bijection for every mapping type |
| MappingChecks.WrittenIsBijective | src/lib/provider-integration-operations.ts:332-361 | writing a batch that passes the checks leaves a partial bijection, without any help from the unique index |
| MappingChecks.SuccessIsIntended | src/lib/provider-integration-operations.ts:290-361 | a successful batch leaves exactly the intended mappings, and they are a partial bijection |
| ChannelMapping.UpsertKeepsBijection | src/lib/provider-integration-operations.ts:332-361 | whatever stale listing it read, a successful batch keeps a partial bijection |
| MappingChecks.InputIsStored | src/lib/provider-integration-operations.ts:333-357 | every input of a successful batch is stored active with its own ids, in the row of its local id or in a new one |
| MappingChecks.FirstRepeatReported | src/lib/provider-integration-operations.ts:300-309 | of the repeated ids the first one is reported, the local one when both repeat at once |
| MappingChecks.UpsertReports | src/lib/provider-integration-operations.ts:296-331 | which error a batch reports: its size, a repeated id, an assigned external id, ownership, in this order |
| MappingChecks.RemovedRowIsSkipped | src/lib/provider-integration-operations.ts:334-353 | an input whose listed row is gone meanwhile is not written |
| MappingChecks.UnlistedRowIsRefused | src/lib/provider-integration-operations.ts:354-357 | an input that the listing does not show is refused exactly when its row, its external id or the new key exists meanwhile |
| ChannelMapping.UpsertSucceedsExactly | src/lib/provider-integration-operations.ts:290-361 | on a current listing a batch succeeds if and only if its size is allowed, its inputs are distinct and owned, no remaining mapping holds one of its external ids, and no input takes an external id that the row of a later input still holds |
| ChannelMapping.UpsertContents | src/lib/provider-integration-operations.ts:332-361 | afterwards the table holds exactly the mappings of the batch and those whose local id is not in it, and replaced mappings keep their rows |
| ChannelMapping.RefusedWhenHeld | src/lib/provider-integration-operations.ts:332-361 | one write of the batch hits the unique index exactly when a later input's row still holds the external id |
| ChannelMapping.ExchangeRollsBack | src/lib/provider-integration-operations.ts:311-361 | every batch that exchanges two external ids passes all checks, would end in a bijection, and fails |
| MappingOrder.SomeOrderSucceeds | src/lib/provider-integration-operations.ts:332-361 | a batch that passes the checks succeeds in some order of its inputs if and only if they do not pass external ids of stored rows around in a circle; with a circle of any length it fails in every order |
| NameSimilarity.TokensUnrepeated | src/lib/provider-integration-mapping-workspace.ts:92-101 | the tokens of a name are not empty and not repeated |
| NameSimilarity.SharedIsIntersection | src/lib/provider-integration-mapping-workspace.ts:111-111 | counting shared tokens by filter and includes gives the size of the intersection |
| NameSimilarity.SimilaritySymmetric | src/lib/provider-integration-mapping-workspace.ts:104-115 | the score does not depend on which name is the local one |
| NameSimilarity.JoinInjective | src/lib/provider-integration-mapping-workspace.ts:108-110 | tokens joined with blanks are the same text only for the same tokens |
| NameSimilarity.SimilarityRange | src/lib/provider-integration-mapping-workspace.ts:104-115 | the score lies between 0 and 0.99, and is 0.99 exactly for names with the same tokens in the same order |
| WorkspaceLaws.SilentWordsLeftOut | src/lib/provider-integration-mapping-workspace.ts:58-84 | the words for room, rate and plan are left out of a name |
| WorkspaceLaws.WordsForBestRate | src/lib/provider-integration-mapping-workspace.ts:58-84 | the words for the best available rate are one token |
| WorkspaceLaws.TranslatedWords | src/lib/provider-integration-mapping-workspace.ts:58-84 | so are the English and Spanish words for a double and a standard room |
| WorkspaceLaws.TokensOfWords | src/lib/provider-integration-mapping-workspace.ts:93-101 | every other word is a token of its own, and there are no others |
| WorkspaceLaws.SimilarityOf | src/lib/provider-integration-mapping-workspace.ts:104-115 | different names are scored by twice their shared tokens over all their tokens, at least 0.82 when one text occurs in the other, at most 0.98; a name without tokens scores 0 |
| WorkspaceLaws.ScoreOf | src/lib/provider-integration-mapping-workspace.ts:161-168 | belonging to the same room is worth 0.12, up to 0.99 in all |
| MappingWorkspace.BuildWorkspace | src/lib/provider-integration-mapping-workspace.ts:181-251 | the passes with their mutable sets compute the specified rows, rate plans after the rooms they belong to |
| WorkspaceLaws.CurrentMappingExactly | src/lib/provider-integration-mapping-workspace.ts:131-149 | the current mapping of an entity is the first stored active one of its type, and there is none only without such a row |
| WorkspaceLaws.AnyActiveIsFirst | src/lib/provider-integration-mapping-workspace.ts:131-149 | in a table that is a bijection any stored active mapping of the entity is it |
| WorkspaceLaws.WorkspaceRows | src/lib/provider-integration-mapping-workspace.ts:181-251 | every entity has its row; one with a stored active mapping shows it and gets no suggestion; any other gets the best free external entity, by score and then by name, if that scores 0.42, with the confidence of its score |
| WorkspaceLaws.ParentsOfRates | src/lib/provider-integration-mapping-workspace.ts:215-221 | the room of a rate plan stands for its current external id, or for one suggested with high confidence |
| MappingWorkspace.MatchPass | src/lib/provider-integration-mapping-workspace.ts:195-213 | one pass, with the set of used external ids growing row by row, computes the specified rows |
| MappingWorkspace.SuggestionIsBest | src/lib/provider-integration-mapping-workspace.ts:151-179 | a suggestion is an unused candidate of the highest score, at least 0.42, and there is none only when every unused candidate is weaker |
| MappingWorkspace.MatchInjective | src/lib/provider-integration-mapping-workspace.ts:186-251 | suggestions are pairwise distinct, avoid every actively mapped external id, and go to unmapped entities only |
| MappingWorkspace.NothingLeftToSuggest | src/lib/provider-integration-mapping-workspace.ts:186-251 | no external entity left over at the end is good enough for an entity left unmatched |
| MappingWorkspace.SuggestionsSucceedExactly | src/lib/provider-integration-mapping-workspace.ts:181-251 | submitting all suggestions succeeds, within the batch size, if and only if no inactive stored mapping holds a suggested external id and stays or is replaced too late |
| MappingWorkspace.AllActiveSuggestionsSucceed | src/lib/provider-integration-mapping-workspace.ts:181-251 | in particular it succeeds whenever all stored mappings are active |
| MappingWorkspace.InactiveMappingBlocks | src/lib/provider-integration-mapping-workspace.ts:186-194 | an inactive mapping whose external entity has the name of another local entity makes the submission fail |
| CalendarEvents.EventTable.Sync | src/lib/provider-external-calendars.ts:986-1049 | the transaction deactivates the calendar's events and upserts the parsed ones, and recomputes the range of the previous and the parsed events |
| CalendarEvents.SyncReplaces | src/lib/provider-external-calendars.ts:986-1028 | afterwards the calendar's active events are exactly the parsed ones, one for each key with its last dates, and other calendars are untouched |
| CalendarEvents.SyncActivatesEach | src/lib/provider-external-calendars.ts:991-1028 | with distinct keys every parsed event is active with its own dates |
| CalendarEvents.RecomputedContains | src/lib/provider-external-calendars.ts:809-836 | the recomputed range contains every date of every event, and exists if there is such a date |
| CalendarEvents.RecomputedExactly | src/lib/provider-external-calendars.ts:809-836 | something is recomputed exactly when some event starts before some event ends, and then every event lies between the ends of the range |
| CalendarEvents.RecomputedIsTight | src/lib/provider-external-calendars.ts:809-836 | both ends of the recomputed range are ends of events |
| CalendarEvents.SyncRecomputesChanges | src/lib/provider-external-calendars.ts:973-1049 | every date on which the set of active events changed lies in the recomputed range |
| CalendarEvents.RevokeRecomputesChanges | src/lib/provider-external-calendars.ts:1160-1188 | the same for revocation |
| CalendarEvents.RevokeDeactivates | src/lib/provider-external-calendars.ts:1172-1187 | after revocation the calendar has no active event, and other calendars are untouched |
| CalendarOverlay.Overlay | src/lib/provider-external-calendars.ts:1749-1852 | the loops return, in increasing order, exactly the days of the window that some event or open conflict contains, each with the per-day tallies of all of them |
| CalendarOverlay.TallyMeaning | src/lib/provider-external-calendars.ts:1799-1842 | the count of a day is the number of half-open ranges that contain it, and its names are the names of those ranges |
| CalendarOverlay.IndexEvent | src/lib/provider-external-calendars.ts:1820-1835 | visiting the days of one clipped event adds it to exactly the days of the window that it contains |
| CalendarOverlay.IndexConflict | src/lib/provider-external-calendars.ts:1836-1842 | the same for one conflict |
| CalendarOverlay.SelectedTallies | src/lib/provider-external-calendars.ts:1771-1796 | what the queries leave out changes no day of the window |
| CalendarOverlay.SelectedMeetsWindow | src/lib/provider-external-calendars.ts:1771-1796 | the queries select exactly the events and conflicts that meet the window |
| CalendarOverlay.SortedEntries | src/lib/provider-external-calendars.ts:1843-1844 | the entries are those of the index, in increasing order |
| IcalText.EscapeIsOnePass | src/lib/provider-external-calendars.ts:703-709 | the four replacement passes equal one pass with a table: no pass touches what an earlier one inserted |
| IcalText.UnescapeEscaped | src/lib/provider-external-calendars.ts:703-709 | TEXT unescaping after section 3.3.11 of RFC 5545 inverts the escaping of every text |
| IcalText.EscapedHasNoNewline | src/lib/provider-external-calendars.ts:703-709 | escaped text contains no line feed |
| IcalLaws.EscapedIsText | src/lib/provider-external-calendars.ts:703-709 | in escaped text there is no line feed, and every comma and semicolon follows a backslash |
| IcalLaws.FoldsAtLimit | src/lib/provider-external-calendars.ts:711-721 | a line of at most 72 code units is not folded; of a longer one every part but the last has exactly 72, and every later part starts with a space |
| IcalLines.FoldLine | src/lib/provider-external-calendars.ts:711-721 | the loop over the chunks computes the folded line |
| IcalLines.FoldLines | src/lib/provider-external-calendars.ts:1330-1335 | every kept line is folded, in order |
| IcalLines.PhysicalLinesShort | src/lib/provider-external-calendars.ts:711-721 | every physical line of a rendered file has at most 72 code units |
| IcalLines.UnfoldChunks | src/lib/provider-external-calendars.ts:711-721 | unfolding after section 3.1 of RFC 5545 puts a folded line of any length together again |
| IcalLines.ReadRendered | src/lib/provider-external-calendars.ts:1330-1335 | reading a rendered file gives back its non-empty lines, when none contains a line break or starts with a blank |
| IcalExport.RenderExport | src/lib/provider-external-calendars.ts:1291-1335 | the method that pushes, filters, folds and joins the lines writes the specified file |
| IcalExport.ExportReadBack | src/lib/provider-external-calendars.ts:1291-1335 | for every export, whatever its texts, the file has short physical lines only and reading it gives back exactly its content lines |
| IcalLaws.FileReadsAs | src/lib/provider-external-calendars.ts:1291-1335 | a reader of the file gets literally the calendar's lines, then for each booking in order its event with key, time stamp, first day, day of departure and references, each event and the calendar bracketed |
| IcalLaws.DateParts | src/lib/provider-external-calendars.ts:692-694 | a date is written as its year, month and day without hyphens |
| IcalExport.NameReadBack | src/lib/provider-external-calendars.ts:1298-1299 | a reader of the file gets the calendar's name as it is stored |
| IcalExport.BookingReadBack | src/lib/provider-external-calendars.ts:1303-1320 | a reader gets the id of every booking at the place of its event |

## Left out

- SqlTheory.RoundTrip: says nothing about PostgreSQL's own lexer, which nests block comments, has `E''` strings and reads overlapping dollar tags differently; the grammar is the script's own.
- PurgeClosure.CollectClosure: composite foreign keys are not followed, as in the source query; ids are compared as text.
- Purge.Database.Purge: the deletes by scope (`scripts/db/purge-legacy-geography-products.ts:159-205`) are an arbitrary set of rows removed before, and the object-store deletes are not modelled.
- The depth of relations (`depthByRelation`) only feeds the report and is not a longest path, so nothing is claimed about it.
- PaymentStore.Store.CreateAccount: the checks of the form's fields other than the length of the identifier, the method, holder and bank fields, and the removal of blanks from the identifier are not modelled.
- PaymentCommands.ReservedOnce: permission, compliance and feature checks are the two switches `allowed` and `available` of an event; the contents of the call to the bank beyond its key are not modelled, and of a result of the payout rail only what the command looks at.
- PaymentChallenges.OneIdempotencyKey: speaks about accounts created in the run; rows that existed before may carry any challenge.
- PaymentSafety.ReadyMeansVerified: the tax status is the one that the transaction saw; it may change later without the profile being written.
- PaymentSafety.SettledForever: starts from states whose account ids are non-empty and differ from masked references, as UUIDs do.
- PaymentEvidence.FingerprintInjective: is about the text that is hashed; SHA-256 is taken to be injective.
- Amounts that are not integers are rejected by the source and do not occur in the model, where amounts are integers.
- Audit records, compliance cases, caches and notifications are not modelled; their writes are in tables of their own.
- DocumentRuns.SubmitForm: upload, file checks, inspection jobs and scopes are not modelled; the idempotency lease (`provider-sync-job-queue` and `command-idempotency` are not part of this model) is an arbitrary grant or refusal, and retries after a certain rollback (`src/lib/documents/registration-retry.ts:14-25`) are further events.
- DocumentRuns.ReviewForm: expiry, preview, inspection and notes are the switch `gate`.
- DocumentRuns.SubmittedExactlyOnce: the id of an upload is the pair of provider and key; its digest, SHA-256 cut to 48 digits, is taken to be injective.
- DocumentRuns.RunSafe: does not claim that a whole lineage of documents has only one verified member; the source checks siblings and the direct predecessor only.
- ChannelMapping.MappingTable.Upsert: inputs are already normalized, keys are pairs of type and id instead of text joined with a colon (no type contains one), and the ownership checks of the program and of the trigger are the switch `owned`.
- NameSimilarity.SimilarityRange: Unicode normalisation and the split into words, which leaves no blank in a word, come before the model; a word that names a member of every JavaScript object (`constructor`) would get a different alias in the source.
- MappingWorkspace.BuildWorkspace: ties between names follow an order given with the remote entities, which stands for the Spanish collation; labels, reasons, rounded scores and the summary are not modelled.
- CalendarEvents.EventTable.Sync: fetching, parsing, time zones and recurrence come before the model, dates are day numbers, and two syncs of one calendar do not overlap, since the previous events are read before the transaction.
- CalendarOverlay.Overlay: names are sets, so the collation that sorts the names within one day is not modelled.
- IcalLines.PhysicalLinesShort: counts code units as the source does; the limit of 75 octets in RFC 5545 is not claimed for text outside ASCII. A `char` stands for one UTF-16 code unit; no operation looks at surrogates.
- IcalExport.ExportReadBack: keys, dates and the time stamp are written without escaping and are taken to contain no line feed.
- Conflict detection and reconciliation between calendars: reconciliation returns early without detections, so no completeness claim would hold.
- Encryption, object storage, HTTP feeds, DNS, e-mail, reports, navigation and static tables would only add easy members.
