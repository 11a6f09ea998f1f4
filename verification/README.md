# Attest: verified model of the core

Attest triages security alerts with a classifier and language-model agents, and keeps a signed,
hash-chained log of every decision. This project models the parts that the product's promises rest
on, in Dafny 4.11, and proves those promises for all inputs and all runs, or says exactly when they
hold. `dafny verify dfyconfig.toml` checks everything.

## What is modelled

- **The attestation log** (`crates/attest-attestation`). `CanonicalJson` is the sorted form that is
  signed and hashed. `Envelopes` has the rows, the chain hash and the signature; SHA-256, Ed25519 and
  serde are the functions of a `Crypto` value, and `Sound` lists what they are trusted for.
  `Verification` is the offline checker; `TamperEvidence` is what a passing check rules out.
  `ChainOrder` rebuilds append order by walking `prev_hash`. `ObjectKeys` and `DurableLog` are the log
  itself, a class over an object store and a local file, proved step by step against the pure state
  machine in `LogMachine`, in which an append can break off at every one of its writes. `LogRuns` and
  `LogHistory` hold the theorems over whole runs.
- **Hybrid triage** (`crates/attest-orchestrator`, `attest-shadow-check`, `attest-policy-engine`,
  `attest-mcp-gateway`). `LlmLoop` has the three bounded agent loops against an arbitrary model and an
  arbitrary gateway, `Guardrails` what they enforce, `LoopProperties` what every run keeps, and
  `LoopAnswers` why each message was sent and what the model's last word comes to.
  `Policy`, `ShadowCheck` and `AutoClose` are the gates before a case is closed without a human, and
  `Triage` is the engine that routes, attests, closes and investigates. `TriageProperties` carries the
  guarantees through all of them, `TriageLog` says what a series of runs leaves in the log, and
  `RetrievalGap` when one guardrail keeps its promise.
- **The warm-tier SQL guard** (`crates/attest-storage-clickhouse`). `SqlLexer` has the index-based
  loops and the reading they compute, `SqlPieces` a grammar of which it is proved to be the parser, `SqlText`
  shows that it composes and that printing inverts it, `SqlGuard` is the scan and the posted text.
- **Three smaller pieces**: the rate limiter (`WarmLimit`), the HELIQL condition compiler (`Heliql`), and
  the S3 key decoder (`S3Key`). The compiler's text is read by an independent reader (`SqlReading`) and
  evaluated from its words alone on an event and a table of events (`SqlEvaluation`); `HeliqlNames`,
  `HeliqlWords` and `HeliqlMeaning` prove that this is what the rule means.

`Text`, `Phrases` and `Wrappers` are shared helpers. Confidences, thresholds and scores are exact fractions.

## Where the code and its documentation part

The model follows the code. Each of these is a theorem:

- The auto-close row carries the action id of the triage row (`auto_close.rs:157`), and `verify_log`
  rejects repeated ids. The log of a series of triage runs, with or without an object store, verifies if
  and only if no run has both rows in it; when no write fails, if and only if nothing was closed
  automatically (`TriageLogVerifiesIff`, `FaultFreeLogVerifiesIff`). The checker does not move on over a
  repeat, so the first row of the next run is rejected as well (`RowAfterAutoCloseFails`).
- On a fork `order_by_chain` returns the newer row twice and loses the older (`ForkLosesOlder`). The
  result is a rearrangement of the input exactly when, for each `prev_hash`, the oldest and the newest
  row that carry it are the same (`RearrangesIff`).
- A verifying log whose last rows were cut off still verifies, and this is the only selection that
  does (`SelectionVerifiesIff`). `tip.json`, which could reveal it, is written and never read, and a
  failed put leaves it behind the log.
- Without an object store, an append that follows a write which lost only its newline is acknowledged,
  and neither row can be read again (`LocalAckReadableIff`); from then on every append fails
  (`CorruptFileStopsTheLog`).
- The retrieval guardrail is documented as asking for a call that was neither denied nor failed; the
  code asks for the logged decision `allow`, which the gateway also logs for unknown and failing tools
  (`AllowedWithoutResultIff`). No model is believed without a result if and only if there is no series of
  calls of which the gateway allows one and answers none (`NoVerdictWithoutResultIff`).
- The gate for Responder actions always reports zero recent actions, so the hourly limit of
  the policy never applies there (`HourlyLimitIsNotApplied`).
- `max_per_minute` holds of the limiter's own windows. A 60-second interval can see twice as many
  grants, for every budget (`RateBound`, `BoundIsReached`); `GrantedExactly` gives the number for every run
  and interval, and with it exactly which intervals keep to the budget.
- The percent decoder takes `%+5`, and every other `%+` with a digit, for an escape, because Rust's
  integer parser accepts a sign (`PercentPassesIff`, `PlusDigitIsTakenForAnEscape`).
- A HELIQL string is pasted between apostrophes as it is, and the grammar lets it contain one: the
  SQL literal means the string exactly when it does not (`LiteralKeptIff`).
- HELIQL names may contain hyphens, which SQL reads as minus, and may be reserved words such as `null`. A
  name becomes an SQL operand exactly when it is neither (`OperandIff`, `HyphenatedNameIsNoColumn`,
  `ReservedNameIsNoColumn`).
- `event.cloud_provider` becomes the literal `'aws'`. In a baseline that is printed after a table alias,
  which is not SQL; a baseline compiles exactly when neither of its fields is that one
  (`BaselinesAreComplementary`, `ProviderBaselineIsNotSql`).

## Model

| member | source | states |
|---|---|---|
| CanonicalJson.CanonicalIff | crates/attest-attestation/src/envelope.rs:279-298 | two JSON values have the same sorted form exactly when they are equal up to key order at every depth |
| CanonicalJson.SortKeepsMeaning | crates/attest-attestation/src/envelope.rs:282-298 | sorting preserves the value up to key order at every depth |
| CanonicalJson.SortForgetsOrder | crates/attest-attestation/src/envelope.rs:279-281 | values that differ only in key order have one sorted form |
| CanonicalJson.SortIdempotent | crates/attest-attestation/src/envelope.rs:282-298 | sorting a sorted value changes nothing |
| CanonicalJson.SortKeepsValid | crates/attest-attestation/src/envelope.rs:284-296 | no object of the sorted value has a key twice |
| Envelopes.ChainHashInjective | crates/attest-attestation/src/envelope.rs:235-241 | rows with one chain hash are one row, signature included |
| Envelopes.ProcessIndependent | crates/attest-attestation/src/envelope.rs:279-281 | processes that serialise maps in different orders agree on hash, signature and check |
| Verification.VerifyLog | crates/attest-attestation/src/verify.rs:35-92 | the report gives every row exactly the verdict that its repeats, its signature and the last row that was not a repeat determine, resynchronising after a failure |
| Verification.ReportVerdict | crates/attest-attestation/src/verify.rs:22-24 | `all_ok` holds exactly when every row passes |
| Verification.VerifiesIff | crates/attest-attestation/src/verify.rs:35-92 | a log passes iff ids are distinct, all signatures verify, and either no row has a `prev_hash` or the rows link from genesis |
| Verification.RowOkIff | crates/attest-attestation/src/verify.rs:41-89 | with distinct ids a row passes iff its own signature verifies and it points at its immediate predecessor (or nothing is chained) |
| Verification.ReportMeans | crates/attest-attestation/src/verify.rs:35-92 | for any log, repeated ids or not: a row is reported as a repeat, a wrong or malformed signature, a chain break or a pass exactly when it is one, the chain being judged by the hash of the last earlier row whose id was new, or the genesis hash at the first row |
| Verification.NewRowPassesIff | crates/attest-attestation/src/verify.rs:42-81 | in a chained log a genuine row with a new id passes iff its `prev_hash` is the chain hash of the greatest earlier row that is no repeat, or the genesis hash if there is none |
| TamperEvidence.TipDeterminesLog | crates/attest-attestation/src/envelope.rs:235-241 | two linked logs that end in the same chain hash are the same log |
| TamperEvidence.LinkedRowsDiffer | crates/attest-attestation/src/verify.rs:66-81 | a linked log never holds one row twice |
| TamperEvidence.SuccessorIsUnique | crates/attest-attestation/src/envelope.rs:217-220 | in a linked log only row n can follow the first n rows |
| TamperEvidence.SelectionIsPrefix | crates/attest-attestation/src/verify.rs:35-92 | rows of a linked log, selected, repeated or reordered at will, link from genesis only as a prefix |
| TamperEvidence.SelectionVerifiesIff | crates/attest-attestation/src/verify.rs:35-92 | of everything that can be put together from the rows of a verifying chained log exactly the prefixes verify |
| TamperEvidence.PermutationVerifiesIff | crates/attest-attestation/src/verify.rs:35-92 | a rearrangement of a verifying chained log verifies iff it is the log itself |
| TamperEvidence.PrefixVerifies | crates/attest-attestation/src/verify.rs:35-92 | every prefix of a verifying log verifies |
| TamperEvidence.ExcisionFailsOnce | crates/attest-attestation/src/verify.rs:66-89 | cutting out a block that is not the tail makes exactly one row fail, the one after the gap |
| TamperEvidence.AlterationFailsTwice | crates/attest-attestation/src/verify.rs:41-89 | a row whose signature no longer verifies makes exactly itself and its successor fail |
| TamperEvidence.RowAfterRepeatFails | crates/attest-attestation/src/verify.rs:42-81 | in a linked log a repeated row fails and so does a new row directly after it |
| ChainOrder.OrderByChain | crates/attest-attestation/src/log.rs:312-333 | the walk comes first, the unreached newest rows next in any order, the rows that repeat a `prev_hash` last; the length is kept |
| ChainOrder.FollowCursor | crates/attest-attestation/src/log.rs:324-329 | the walk ends and moves rows from the map to the output, losing and inventing none |
| ChainOrder.IntoValues | crates/attest-attestation/src/log.rs:330 | the rest of the map is appended, each row once, in an unspecified order |
| ChainOrder.OrderingKeepsLength | crates/attest-attestation/src/log.rs:312-333 | the number of rows is kept for every input |
| ChainOrder.OldestPlusExtra | crates/attest-attestation/src/log.rs:319-323 | the oldest row per `prev_hash` and the extra rows are together exactly the input |
| ChainOrder.RearrangesIff | crates/attest-attestation/src/log.rs:312-333 | the output is a rearrangement of the input iff oldest and newest row agree for every `prev_hash` |
| ChainOrder.DistinctPrevRearranges | crates/attest-attestation/src/log.rs:312-333 | pairwise distinct `prev_hash` values suffice for a rearrangement |
| ChainOrder.ForkLosesOlder | crates/attest-attestation/src/log.rs:319-322 | a two-row fork comes back as the newer row twice |
| ChainOrder.WalkFollowsChain | crates/attest-attestation/src/log.rs:325-329 | from any point of a linked chain that the map files, the walk yields the rest of the chain in order |
| ChainOrder.ChainIsRestored | crates/attest-attestation/src/log.rs:310-333 | however the rows of a linked chain are listed, they come back in append order |
| ChainOrder.OrderingMeans | crates/attest-attestation/src/log.rs:312-333 | for any rows the output begins with a chain linked from genesis, of rows that are the last with their `prev_hash`, which no unused such row continues; it ends with the rows that are not the first with theirs, in input order |
| ChainOrder.WalkIsMaximal | crates/attest-attestation/src/log.rs:325-329 | on any map the walk uses each row once, each carries the hash before it, and it stops only where no unused row goes on |
| ChainOrder.ExtraInOrder | crates/attest-attestation/src/log.rs:318-323 | the extra rows are exactly those with an earlier row of the same `prev_hash`, in input order |
| ObjectKeys.KeyOrder | crates/attest-attestation/src/log.rs:253-261 | object names sort in the order of their sequence numbers, for every `usize` and any ids |
| ObjectKeys.KeyPassesFilter | crates/attest-attestation/src/log.rs:287-290 | the listing filter keeps every envelope object and never `tip.json` |
| DurableLog.FilterFindsRows | crates/attest-attestation/src/log.rs:287-290 | of the stored objects exactly the envelopes pass the filter |
| DurableLog.SortedListing | crates/attest-attestation/src/log.rs:281-293 | in whatever order the store lists its objects, sorting by name gives the log in append order |
| DurableLog.PutKeepsStored | crates/attest-attestation/src/log.rs:255-267 | putting the next row keeps every other object and the numbering 0..n-1 |
| DurableLog.AttestationLog.constructor | crates/attest-attestation/src/log.rs:158-169 | an empty store and no local file satisfy the invariant |
| DurableLog.AttestationLog.Restart | crates/attest-attestation/src/log.rs:125-152 | a new process starts from exactly what the old one left on store and disk |
| DurableLog.AttestationLog.LoseLocalFile | crates/attest-attestation/src/log.rs:156-157 | losing the local file leaves the durable log untouched |
| DurableLog.AttestationLog.ListObjects | crates/attest-attestation/src/log.rs:283-292 | the listing holds exactly the objects that pass the filter, once each |
| DurableLog.AttestationLog.GetEach | crates/attest-attestation/src/log.rs:295-306 | the objects are fetched in the order of their names |
| DurableLog.AttestationLog.ReadObjects | crates/attest-attestation/src/log.rs:281-308 | listing, sorting, fetching and ordering return the durable rows in append order |
| DurableLog.AttestationLog.ReadAll | crates/attest-attestation/src/log.rs:158-169 | the object store is the source of truth unless absent or empty, then the local file |
| DurableLog.AttestationLog.HydrateUnlocked | crates/attest-attestation/src/log.rs:127-152 | rebuilds a missing local file from the durable rows, possibly only in part, and changes nothing else |
| DurableLog.AttestationLog.TipUnlocked | crates/attest-attestation/src/log.rs:183-190 | the hash and the number of the rows that `read_all` returns |
| DurableLog.AttestationLog.PutEnvelope | crates/attest-attestation/src/log.rs:255-279 | a failed tip put after a good envelope put still adds the row; only a lost envelope put adds none |
| DurableLog.AttestationLog.WriteLine | crates/attest-attestation/src/log.rs:194-220 | durable write first: if it fails no line is written, if the line fails the row stays durable |
| DurableLog.AttestationLog.SignAndAppend | crates/attest-attestation/src/log.rs:104-115 | the whole new state and the result of an append, under every fault, are those of the state machine, and the invariant is kept |
| LogRuns.RunKeepsInv | crates/attest-attestation/src/log.rs:104-220 | any run of appends, faults and file losses keeps the invariant |
| LogRuns.EveryRunReadsAChain | crates/attest-attestation/src/log.rs:104-333 | after any run from nothing `read_all` returns a signed chain linked from genesis, in append order; with a store it always answers |
| LogRuns.AcknowledgedRowsSurvive | crates/attest-attestation/src/log.rs:192-220 | durable history is only ever extended and no acknowledged row is lost or moved |
| LogRuns.ReplicaRelation | crates/attest-attestation/src/log.rs:127-220 | the local file is always a subsequence of the durable log, and equal to it while no append has failed |
| LogRuns.CleanAppendIsExact | crates/attest-attestation/src/log.rs:127-220 | an acknowledged append leaves an exact replica exact, also when it first rebuilds the file |
| LogRuns.StoreAppendKeepsInv | crates/attest-attestation/src/log.rs:104-115 | with a store an append adds exactly the linked, signed row or nothing, and is acknowledged only if it added it |
| LogRuns.LocalAppendKeepsInv | crates/attest-attestation/src/log.rs:104-115 | without a store the readable rows stay a chain under every fault |
| LogRuns.LocalAckReadableIff | crates/attest-attestation/src/log.rs:201-219 | without a store an acknowledged append can be read back iff the file ended in a newline before it |
| LogRuns.CorruptFileStopsTheLog | crates/attest-attestation/src/log.rs:335-349 | once a local line does not parse, every later append fails and changes nothing |
| LogRuns.WrittenLogVerifiesIff | crates/attest-attestation/src/log.rs:103-115 | a log written by `sign_and_append` verifies iff its action ids are distinct |
| DurableLog.AttestationLog.Append | crates/attest-attestation/src/log.rs:117-123 | the whole new state and the result of appending a row that the caller has linked and signed; the log's invariant is kept if that was done properly |
| LogHistory.RawAppendKeepsChainIff | crates/attest-attestation/src/log.rs:117-123 | with a store, `append` keeps the durable log a chain iff its row was lost to a fault or the caller had set `prev_hash` to the tip |
| LogHistory.ProperAppend | crates/attest-attestation/src/log.rs:117-123 | a row linked and signed by the caller is appended exactly as `sign_and_append` would, under every fault |
| LogHistory.AppendStoresIff | crates/attest-attestation/src/log.rs:104-220 | with or without a store an append leaves the given body, its `prev_hash` set to the hash of the last row and nothing else changed, under the signer's own signature, or it leaves nothing; which of the two is decided by the fault and by whether the file must be rebuilt first |
| LogHistory.AppendSucceedsIff | crates/attest-attestation/src/log.rs:104-220 | an append is acknowledged iff the log can be read and its fault is none that strikes in this state, so always without a fault; the acknowledged row has the given body but for `prev_hash`, and a failure names the step that failed |
| LogHistory.AcknowledgedIsStored | crates/attest-attestation/src/log.rs:192-220 | if the log can be read after an acknowledged append, it is the old one and exactly the acknowledged row |
| LogHistory.ReadsHistory | crates/attest-attestation/src/log.rs:158-169 | what `read_all` returns is a signed chain, and with a store it always returns |
| LogHistory.RunConcat | crates/attest-attestation/src/log.rs:104-220 | a run can be cut anywhere: states, acknowledgements and failures of the parts add up |
| LogHistory.ReplicaSinceRebuilt | crates/attest-attestation/src/log.rs:125-152 | whatever failed before, from the loss of the local file on the rebuilt one equals the durable log until an append fails |
| SqlLexer.Tokenize | crates/attest-storage-clickhouse/src/guard.rs:81-144 | the index-based loops compute the reading of the text, or fail where it is unterminated |
| SqlLexer.LexAt | crates/attest-storage-clickhouse/src/guard.rs:84-141 | each branch of the loop takes what stands at the front of the remaining text |
| SqlLexer.ScanLiteral | crates/attest-storage-clickhouse/src/guard.rs:98-125 | a literal is read up to its closing quote, with backslash escapes and doubled quotes |
| SqlLexer.FindCommentEnd | crates/attest-storage-clickhouse/src/guard.rs:91-97 | the first closing of a block comment is found, or none |
| SqlLexer.SkipLine | crates/attest-storage-clickhouse/src/guard.rs:89-92 | a line comment ends at the first newline, which stays, or at the end of the text |
| SqlLexer.ScanWord | crates/attest-storage-clickhouse/src/guard.rs:130-137 | a word extends as far as word characters do |
| SqlPieces.TokensIff | crates/attest-storage-clickhouse/src/guard.rs:81-144 | the lexer is the parser of a grammar given apart from it: a text has the tokens `ts` iff it can be written as blanks, comments, literals with escapes or doubled quotes, words and marks whose tokens are `ts`; so it fails on exactly the texts that cannot |
| SqlPieces.WrittenIsRead | crates/attest-storage-clickhouse/src/guard.rs:87-141 | every text of the grammar is read as it was written, comments and blanks as nothing |
| SqlPieces.ReadIsWritten | crates/attest-storage-clickhouse/src/guard.rs:81-144 | every text that has tokens is one of the grammar |
| SqlText.TokensCompose | crates/attest-storage-clickhouse/src/guard.rs:81-144 | if a text tokenises, whatever follows a newline after it is tokenised on its own |
| SqlText.PrintReadsBack | crates/attest-storage-clickhouse/src/guard.rs:98-142 | printed tokens tokenise to themselves, for every literal and identifier content |
| SqlText.LiteralReadsBack | crates/attest-storage-clickhouse/src/guard.rs:98-129 | any content, escaped and put between quotes of any of the three kinds, reads back as that string or lower-cased name |
| SqlText.PrintIsNormalForm | crates/attest-storage-clickhouse/src/guard.rs:81-144 | printing the tokens of a text gives a text with the same tokens |
| SqlText.TokensArePrintable | crates/attest-storage-clickhouse/src/guard.rs:126-142 | every token the lexer yields is one that printing covers |
| SqlGuard.CheckTokens | crates/attest-storage-clickhouse/src/guard.rs:152-181 | the query is refused at the first ground in text order, or no token gives one |
| SqlGuard.ValidateReadQuery | crates/attest-storage-clickhouse/src/guard.rs:148-182 | the verdict is that on the tokens of the stripped text, and the stripped text is what is accepted |
| SqlGuard.AcceptedIff | crates/attest-storage-clickhouse/src/guard.rs:152-181 | a token list is accepted iff it starts with select or with, has no semicolon, settings, outfile or system table, calls no forbidden function, and calls s3 only on a literal under the prefix |
| SqlGuard.RefusalMeans | crates/attest-storage-clickhouse/src/guard.rs:152-181 | a refusal names a token that is its ground, and no earlier token is one |
| SqlGuard.StrippedIs | crates/attest-storage-clickhouse/src/guard.rs:149 | stripping takes the blanks around the query and one run of semicolons at its end, and nothing else |
| SqlGuard.PostedBody | crates/attest-storage-clickhouse/src/lib.rs:97-107 | a body is posted only for an accepted query, and is that query, a newline and the FORMAT clause |
| SqlGuard.PostedBodyIsHarmless | crates/attest-storage-clickhouse/src/lib.rs:97-99 | the posted text reads as the checked query followed by the clause, and passes the guard as a whole |
| SqlGuard.SpellingIsIrrelevant | crates/attest-storage-clickhouse/src/guard.rs:148-182 | two texts have one printed form iff they have the same tokens, and then the guard says the same of both |
| WarmLimit.WarmTierLimiter.constructor | crates/attest-mcp-gateway/src/warm_limit.rs:17-29 | the first window opens empty when the limiter is made |
| WarmLimit.WarmTierLimiter.Acquire | crates/attest-mcp-gateway/src/warm_limit.rs:32-47 | the new window and count, and when a call is granted |
| WarmLimit.GrantedExactly | crates/attest-mcp-gateway/src/warm_limit.rs:32-47 | for every run and every 60-second interval the exact number of grants, from the window open when it begins, and when it is within the budget |
| WarmLimit.RateBound | crates/attest-mcp-gateway/src/warm_limit.rs:32-47 | no half-open 60-second interval sees more than twice the budget, in any run with a monotone clock |
| WarmLimit.BoundIsReached | crates/attest-mcp-gateway/src/warm_limit.rs:32-47 | for every budget some run reaches that bound |
| WarmLimit.CountIsExact | crates/attest-mcp-gateway/src/warm_limit.rs:32-47 | the counter is the number of grants in the open window and never exceeds the budget |
| WarmLimit.RefusedOnlyWhenSpent | crates/attest-mcp-gateway/src/warm_limit.rs:41-43 | a call is refused only when the whole budget was granted less than 60 seconds before |
| S3Key.DecodeS3EventKey | crates/attest-collector/src/s3.rs:72-102 | the loop computes the decoding, which is never longer than its input |
| S3Key.DecodeUndoesEncode | crates/attest-collector/src/s3.rs:72-102 | every byte sequence survives any standard encoder and the decoder |
| S3Key.PercentPassesIff | crates/attest-collector/src/s3.rs:82-94 | a percent sign passes and what follows decodes as if alone, iff it does not start two digits or a plus sign and a digit |
| S3Key.PlusDigitIsTakenForAnEscape | crates/attest-collector/src/s3.rs:82-88 | a percent sign, a plus sign and any hexadecimal digit decode to the one byte of that value, whatever follows |
| S3Key.HexValueIff | crates/attest-collector/src/s3.rs:84 | a byte is a digit of value v iff an encoder writes v so in one of the two cases |
| S3Key.PlainTextIsKept | crates/attest-collector/src/s3.rs:72-102 | text without `%` and `+` is unchanged |
| Guardrails.ExtractCitationIds | crates/attest-orchestrator/src/guardrails.rs:171-187 | the loop finds the trimmed, non-blank ids of the tags, left to right, up to an unclosed one |
| Guardrails.WrittenIdsAreRead | crates/attest-orchestrator/src/guardrails.rs:171-187 | the ids of a text are the trimmed, non-blank contents of its closed tags, in order, for any prose between them and an unclosed tag after them |
| Guardrails.TrimIs | crates/attest-orchestrator/src/guardrails.rs:177 | trimming takes the white space off both ends and nothing else |
| Guardrails.CitationsPassIff | crates/attest-orchestrator/src/guardrails.rs:195-262 | a verdict passes iff all declared and inline ids are real calls and it makes no claim without citing anything |
| Guardrails.OrphansAreNamed | crates/attest-orchestrator/src/guardrails.rs:202-225 | the report names exactly the cited ids that are no real call |
| Guardrails.ReportLists | crates/attest-orchestrator/src/guardrails.rs:202-262 | declared orphans come first in their order; claims are listed only where nothing is cited, the first five at most |
| LlmLoop.RunToolRound | crates/attest-orchestrator/src/llm_loop.rs:380-430 | every call of a round is executed and recorded, and its id kept iff it was logged as allowed |
| LlmLoop.RunLlmLoop | crates/attest-orchestrator/src/llm_loop.rs:277-625 | the triager loop reaches the outcome of the step-by-step reading, for every model and gateway |
| LlmLoop.RunInvestigatorLlmLoop | crates/attest-orchestrator/src/llm_loop.rs:636-911 | the same for the investigator loop |
| LlmLoop.RunSpecialistLlmLoop | crates/attest-orchestrator/src/llm_loop.rs:924-1054 | the same for the specialist loop, without retries |
| LoopProperties.EveryRequestIsWellFormed | crates/attest-orchestrator/src/llm_loop.rs:311-443 | every transcript sent to a model, in all three loops, answers each assistant message at once with one result a call, same ids, same order |
| LoopProperties.LoopKeepsInv | crates/attest-orchestrator/src/llm_loop.rs:311-624 | from any state of a loop on, the result accounts for its rounds, retries and beliefs |
| LoopProperties.EveryRun | crates/attest-orchestrator/src/llm_loop.rs:317-624 | on success iterations = rounds + retries + 1, within both caps; the triager has one belief an iteration, numbered from 0 |
| LoopProperties.AllowedIdsExactly | crates/attest-orchestrator/src/llm_loop.rs:380-430 | an id counts as real iff some allowed call of the run carries it |
| LoopAnswers.EveryRunIsExplained | crates/attest-orchestrator/src/llm_loop.rs:311-624 | for any model and gateway every message of the final transcript has its reason: an assistant message is what the model asked for, the k-th tool result is the gateway's result to the k-th call, else its error, else the denial, a prompt is the nudge after a retrieval or answers a verdict the guardrails refuse; and the outcome is what the model's last answer comes to |
| LoopAnswers.VerdictIsTheModels | crates/attest-orchestrator/src/llm_loop.rs:446-621 | a verdict that passes the guardrails is the one the model's word stands for in any case ("true_positive", "true positive", "false_positive", "false positive", "benign", all else needs investigation), with its citations; one that does not pass becomes `NeedsInvestigation` |
| LoopAnswers.ParseVerdictSays | crates/attest-orchestrator/src/llm_loop.rs:234-243 | the verdict of a word, by the spellings of each |
| LoopAnswers.AcceptedVerdictIsGrounded | crates/attest-orchestrator/src/llm_loop.rs:446-621 | guardrails on, any verdict but `NeedsInvestigation` is the model's word, has a record with decision "allow", and everything it cites is the id of an allowed call of the same run |
| LoopAnswers.SpecialistVerdict | crates/attest-orchestrator/src/llm_loop.rs:1012-1054 | a specialist that must retrieve has an allowed call behind every verdict but `NeedsInvestigation`; one that need not returns the model's own verdict |
| LoopAnswers.RecordsAreLogged | crates/attest-orchestrator/src/llm_loop.rs:380-430 | one record a call, in order: the gateway's own, or an error record with the two hashes when no reply came |
| LoopAnswers.RoundAdds | crates/attest-orchestrator/src/llm_loop.rs:349-443 | a tool round adds the request, one result a call and a belief, and the nudge iff at most two turns are left, some call of the run was allowed and the loop is not a specialist's |
| LoopAnswers.RetryAdds | crates/attest-orchestrator/src/llm_loop.rs:464-577 | a refused verdict below the cap costs one retry and adds the fitting prompt and belief, nothing else |
| RetrievalGap.BluffBehindVerdict | crates/attest-orchestrator/src/guardrails.rs:53-59 | behind a verdict accepted without a result stand calls of which policy allowed one and none succeeded |
| RetrievalGap.BluffIsBelieved | crates/attest-orchestrator/src/guardrails.rs:53-59 | any such series of calls lets a model be believed without a result, in two turns |
| RetrievalGap.NoVerdictWithoutResultIff | crates/attest-orchestrator/src/llm_loop.rs:464-515 | no model is believed without a result through a gateway iff it has no such series, or the loop allows one turn at most |
| Policy.AuthorizeIsMonotone | crates/attest-policy-engine/src/lib.rs:71-184 | for every role and tool, safer circumstances never turn an allowed call into a refused one |
| Policy.AllowIff | crates/attest-policy-engine/src/lib.rs:71-184 | for every role, tool and context exactly when a call is allowed |
| Policy.EscalateIff | crates/attest-policy-engine/src/lib.rs:71-184 | a call is referred to a human iff it is a Responder's, allowed but for its blast radius |
| Policy.InvokeMeans | crates/attest-mcp-gateway/src/server.rs:151-290 | the value comes back iff policy allows, the tool is known and returned it and nothing suspicious was found in it, otherwise an error; which decision is logged when |
| Policy.AllowedWithoutResultIff | crates/attest-mcp-gateway/src/server.rs:151-290 | a call is logged as allowed without a result iff policy let it through and the tool is unknown or failed |
| ShadowCheck.ShadowChecker.Check | crates/attest-shadow-check/src/lib.rs:83-145 | the decision and the policies evaluated up to the refusal |
| ShadowCheck.ShadowChecker.CheckResponder | crates/attest-shadow-check/src/lib.rs:148-203 | the same for a Responder action |
| ShadowCheck.ShadowChecker.AllowedIff | crates/attest-shadow-check/src/lib.rs:83-145 | allowed iff the principal is not protected, the class is listed, the tenant permits automation and confidence is at least 0.90 |
| ShadowCheck.ShadowChecker.ResponderAllowedIff | crates/attest-shadow-check/src/lib.rs:148-203 | allowed iff automation is on, the principal is not protected, and the tool is a read tool or one of three within its confidence and blast-radius limits |
| ShadowCheck.ShadowChecker.DecisionExplains | crates/attest-shadow-check/src/lib.rs:83-145 | which reason is given exactly when, and the policies listed are those up to the one that refused |
| ShadowCheck.ShadowChecker.ResponderDecisionExplains | crates/attest-shadow-check/src/lib.rs:148-203 | the same for a Responder action |
| ShadowCheck.HourlyLimitIsNotApplied | crates/attest-shadow-check/src/lib.rs:177-184 | the gate lets an action through against the policy iff only the hourly limit would have stopped it |
| ShadowCheck.ListedPrincipalsAreProtected | crates/attest-shadow-check/src/lib.rs:50-75 | a principal is protected iff some listed entry spells it, ignoring case and surrounding blanks |
| AutoClose.Extract | crates/attest-orchestrator/src/auto_close.rs:43-70 | the loop returns the first usable field in order of priority, or `unknown` |
| AutoClose.FirstNonEmptyMeans | crates/attest-orchestrator/src/auto_close.rs:41-70 | what is extracted is the value of the first non-empty key; it is `unknown` iff there is none or that value is itself `unknown` |
| AutoClose.TryAutoClose | crates/attest-orchestrator/src/auto_close.rs:81-189 | the case state, the decision and the signed row of an attempt |
| AutoClose.AttemptClosesIff | crates/attest-orchestrator/src/auto_close.rs:72-79 | a case closes iff verdict, threshold, 0.90, principal, action class and tenant all permit it; a row exists iff it closed |
| AutoClose.AttemptExplains | crates/attest-orchestrator/src/auto_close.rs:96-136 | which gate refused; past the first two the decision is the checker's on the extracted principal and action class |
| AutoClose.ClosedRow | crates/attest-orchestrator/src/auto_close.rs:138-188 | the row of a closed case repeats id and verdict and shows the threshold, principal, action class and decision it was closed on |
| Triage.TriageEngine.TryLlmEscalation | crates/attest-orchestrator/src/triage.rs:604-694 | the escalation's verdict and evidence, with the reviewer's downgrade |
| Triage.TriageEngine.Route | crates/attest-orchestrator/src/triage.rs:256-362 | the routing decision, for the classifier, the model and the fallback |
| Triage.TriageEngine.Append | crates/attest-orchestrator/src/triage.rs:386-392 | a failed append is ignored: the run goes on from whatever state it left |
| Triage.TriageEngine.CloseCase | crates/attest-orchestrator/src/triage.rs:415-475 | a second row is appended iff the attempt closed the case |
| Triage.TriageEngine.Investigate | crates/attest-orchestrator/src/triage.rs:477-576 | the investigation's summary and its row |
| Triage.TriageEngine.Conclude | crates/attest-orchestrator/src/triage.rs:367-600 | the appends happen in order: triage row, auto-close row, investigation row |
| Triage.TriageEngine.RunTriage | crates/attest-orchestrator/src/triage.rs:209-600 | the verdict returned and the log left behind are those of the decision and its appends, under every fault |
| TriageProperties.AutoClosesIff | crates/attest-orchestrator/src/triage.rs:256-475 | a case is closed automatically iff calibrated confidence is below its threshold or novelty above its own, a model is configured, its last word passed the guardrails and is "benign", "false_positive" or "false positive" in any case, and every gate is open |
| TriageProperties.RunReports | crates/attest-orchestrator/src/triage.rs:256-600 | the returned verdict: escalated iff calibrated is below or novelty above its threshold, with the reason that says which; if not, the classifier's path and a true positive iff calibrated is at least 0.5; if so, the model's verdict with all that its loop recorded, as amended by a review, or the stub; the case state, the decision and the investigation that go with it |
| TriageProperties.LoopsAreExplained | crates/attest-orchestrator/src/triage.rs:604-646 | both loops of a run have their own kind, prompts and cap, and are explained as every loop is |
| TriageProperties.ConfidentTruePositiveNeedsAgreement | crates/attest-orchestrator/src/triage.rs:647-691 | an escalated true positive carries a review iff enforcement is on and calibrated confidence is at least the review threshold; then it stands iff the reviewer agreed, and is investigated otherwise |
| TriageLog.RunAdds | crates/attest-orchestrator/src/triage.rs:367-576 | with or without a store, a run adds at most one triage, one auto-close and one investigation row, in that order, each saying what it should: the triage row has the verdict, path and case of the returned verdict and the evidence it was routed on, the auto-close row the same id and verdict and the gates' decision, the investigation row its own id and all that the investigator's loop recorded; both of the first two are there iff it closed the case and neither append met a fault that loses rows |
| TriageLog.AutoCloseIsGrounded | crates/attest-orchestrator/src/triage.rs:297-475 | guardrails on, the triage row of a closed case as it stands in the log has the returned verdict, which is the model's dismissal in so many words, holds a tool call recorded as allowed, and cites only ids of allowed calls |
| TriageLog.DistinctIff | crates/attest-orchestrator/src/triage.rs:430-453 | after any series of runs the ids in a readable log are distinct iff no run stored both its triage and its auto-close row |
| TriageLog.RowAfterAutoCloseFails | crates/attest-orchestrator/src/triage.rs:430-453 | after any series of runs, if one stores both rows and the next its triage row, the check rejects the auto-close row and the triage row of the next run |
| TriageLog.TriageLogVerifiesIff | crates/attest-orchestrator/src/auto_close.rs:155-173 | what `read_all` returns after any series of runs, with or without a store, verifies iff no run stored both rows |
| TriageLog.FaultFreeLogVerifiesIff | crates/attest-orchestrator/src/triage.rs:444-453 | when no write fails the log can be read, with or without a store, and verifies iff no case was closed automatically |
| Heliql.PushAll | crates/attest-heliql/src/compiler.rs:178-184 | the predicates pushed are those of the conditions, in order, after those already there |
| Heliql.CompileWhere | crates/attest-heliql/src/compiler.rs:172-190 | the loops assemble the WHERE text of the pre-filters followed by the conditions |
| SqlReading.SplitInterleaved | crates/attest-heliql/src/compiler.rs:151-157 | splitting joined lists at the keyword gives the lists back |
| SqlReading.JoinedConjunction | crates/attest-heliql/src/compiler.rs:146-152 | texts joined by AND read as their conjunction and stay inside their parenthesis |
| SqlReading.JoinedDisjunction | crates/attest-heliql/src/compiler.rs:153-159 | the same for OR |
| HeliqlWords.AtomReadsBack | crates/attest-heliql/src/compiler.rs:55-141 | an atom's text splits into its words at top level, subquery and value list each one word |
| HeliqlWords.DecimalReadsBack | crates/attest-heliql/src/compiler.rs:48 | printed integers read back as themselves |
| HeliqlWords.IntervalReads | crates/attest-heliql/src/compiler.rs:35-43 | a printed interval literal reads back as its length in seconds |
| HeliqlNames.OperandIff | crates/attest-heliql/src/compiler.rs:17-32 | a name of the grammar becomes one SQL operand iff it has no hyphen and its column is not reserved, and then it has the value of the column that its alias stands for, or of its own name with dots as underscores |
| HeliqlNames.ColumnIff | crates/attest-heliql/src/compiler.rs:17-32 | it becomes a column iff, besides, it is not `event.cloud_provider` |
| HeliqlNames.CompiledColumn | crates/attest-heliql/src/compiler.rs:17-32 | the compiled column of any ordinary field is, up to case, the column the field means |
| HeliqlNames.OwnNameIsColumn | crates/attest-heliql/src/compiler.rs:17-32 | a field that bears the name of a column of the events table denotes that column |
| HeliqlNames.HyphenatedNameIsNoColumn | crates/attest-heliql/src/grammar.pest:9 | the grammar accepts `user-name`, which is no operand in any dialect |
| HeliqlNames.ReservedNameIsNoColumn | crates/attest-heliql/src/grammar.pest:9 | the grammar accepts `null`, which is no operand in any dialect |
| HeliqlMeaning.AtomMeansItself | crates/attest-heliql/src/compiler.rs:55-141 | comparisons, lists, baselines and unique counts compile to an SQL predicate iff their names are columns or operands and the list is not empty; evaluated from its words on any event and table it has the value the rule's author means |
| HeliqlMeaning.RuleMeansItself | crates/attest-heliql/src/compiler.rs:143-190 | the WHERE text, read with AND tighter than OR and evaluated on any event and table, has the value of all pre-filters and all conditions together, in three-valued logic |
| HeliqlMeaning.BaselinesAreComplementary | crates/attest-heliql/src/compiler.rs:73-118 | IN over a baseline is true iff another event in the window has the same entity and value, NOT IN iff none has, whenever both fields are columns; otherwise neither is SQL |
| HeliqlMeaning.ProviderBaselineIsNotSql | crates/attest-heliql/src/compiler.rs:29-31 | a baseline of `event.cloud_provider` compiles to no SQL predicate |
| HeliqlNames.LiteralKeptIff | crates/attest-heliql/src/compiler.rs:45-47 | the printed SQL literal denotes the string iff it holds no apostrophe |

## Left out

- Cryptography and serialisation: SHA-256, Ed25519 and serde are the assumptions of `Envelopes.Sound` (no collisions, own signatures verify, a body can be recovered from its JSON).
- Floating point: scores are exact fractions and rounding and NaN, which fails every comparison, are not covered; the ordering tests are all the code does with them.
- Concurrency: the log's mutex makes each operation atomic, so its methods are sequential; several processes sharing one bucket are not covered.
- An object store switched on over an existing local file, listings or gets that fail half-way through an ordinary read, and object paths with a prefix.
- A local rewrite during hydration is torn line by line, not byte by byte.
- `export_ndjson`, `last_chain_hash`, `append_human_override`, replay and the command line.
- `OverrideEvidence` and the agent's model metadata are carried but never inspected.
- LlmLoop.RunToolRound: latencies and the texts of prompts, beliefs and summaries are functions of the occasion, and the parsers of model text (verdicts, tool calls in prose) are arbitrary functions, because they are heuristics.
- Guardrails.CitationsPassIff: the claim-sentence heuristics (word lists, sentence splitting, truncation) are one arbitrary function of the reasoning text.
- Policy.AllowedWithoutResultIff: the bulk-query check and the injection scan of tool results are inputs of the request.
- Triage.TriageEngine.RunTriage: feature extraction, inference, calibration, novelty and SHAP values arrive as the classifier's evidence; case classes, traces and telemetry are not modelled.
- SqlLexer.Tokenize: Rust's Unicode tables are parameters of which only the class of quotes and newline is assumed, and for SqlPieces that of the two characters that open comments; SqlGuard.PostedBodyIsHarmless also assumes that they read two ASCII words as such.
- SqlGuard.PostedBody: the HTTP request and the parsing of its answer.
- WarmLimit.WarmTierLimiter.Acquire: the clock is a parameter, in nanoseconds.
- S3Key.DecodeS3EventKey: the final lossy conversion of the bytes to UTF-8.
- HeliqlMeaning.RuleMeansItself: strings hold no apostrophe (`HeliqlNames.LiteralKeptIff` says why), names are operands in the sense of `HeliqlNames.OperandIff`, and AND and OR lists are not empty, which the grammar guarantees. Reserved words are a parameter of which `HeliqlNames.Dialect` lists what is assumed, since RisingWave's list is not part of this model; neither are SQL comments and implicit type conversions.
- HeliqlMeaning.AtomMeansItself: a float literal means the number its text denotes; printing floats is the library's.
- DurableLog.AttestationLog.Append: after a row that breaks the chain the class's invariant no longer holds, and nothing more is said about that log.
- The HELIQL parser, Sigma import, the SELECT list of the compiled view, and RisingWave itself.
- Collectors, Kafka, Iceberg, ClickHouse, the WebSocket gateway, the web application and the Python training code: input, output and numerics.
