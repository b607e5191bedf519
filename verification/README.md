# Verified model of the AI-GCM governance platform

AI-GCM puts a proxy in front of AI providers. Each request is checked against policy, forwarded or answered
from a cache, and leaves a usage event; consumers of those events keep a tamper-evident audit chain, feed
analytics, bill the request and keep budgets. This project models those parts in Dafny and proves what they
keep over whole runs. One module per component:

| module | component |
|---|---|
| `AuditChain`, `AuditVerifier`, `AuditWriter`, `AuditProtocol`, `AuditHistory`, `AuditService` | the hash chain: its text, the verifier, the writer, concurrent transactions and their life in the steps, the consumer and the verdict on any run |
| `PolicyEvaluator`, `ProxyCache`, `ProxyPipeline`, `ProxyHistory`, `ProxyHandler` | the request pipeline, one request as code and any number in flight as steps |
| `AnalyticsConsumer` | the batching consumer |
| `CostCalculator`, `BudgetChecker`, `BudgetLedger` | cost, thresholds, running spend |
| `RefreshSessions`, `RefreshInterleaved`, `KeyVault` | refresh cookies, rotations whose Redis commands interleave, encrypted provider keys |
| `Filters`, `CsvExport`, `AuditRoute`, `AuditPages` | WHERE clauses, the cursor export, the paged audit route, pages read by separate queries |
| `Tokenizer` | token estimates |
| `Text`, `Folds`, `Sets`, `Wrappers` | decimal printing and unique splits, folds, sizes of sets, `Option` and `Result` |

How the pieces fit together. Where a service changes fields or tables, a class or a method does the same and
is proved against a function of the old state; runs and interleavings are sequences of steps, and the
theorems speak of every such sequence. `AuditWriter.ChainOf`, `AuditHistory.Lived`, `AuditVerifier.RowsWithin`,
`ProxyPipeline.LastStore`, `ProxyHistory.Missed` and `Permitted`, `KeyVault.Story`, `Filters.Matching` and `Tokenizer.Runs` are references that know nothing of
the code they are compared with.

What is a parameter. SHA-256, HMAC, AES-GCM, JSON and JWT coding, Unicode classes, `ILIKE`, timestamps, the
policy engine, the DLP scanner, provider answers and database or Redis failures. Hash collisions are stated on
the texts actually hashed (`Collision`, `NoCollision`), never as injectivity of the hash on all strings. A
digest is assumed not empty and free of `|`.

Transactions. A transaction works on the committed tables of the moment it began, and its commit is refused if
a write of the same organisation committed since: both update the organisation's `audit_seq` row, so
serializable isolation lets only one through. Waiting for a lock is covered by the order of the steps.

## Where the code differs from its own description

- `writer.go:8-9` and the repository's `README.md:88` say that altering a row invalidates all later hashes. It
  does not: `AlteredRowReport` shows that exactly the altered row is reported, and `ResealedRowReport` that a
  row whose hash and signature are recomputed moves the one report to the link of the next row, or to nothing
  when it was the last. `README.md:88` also gives another formula than the code; the model follows the code.
- A date window or a chain with deleted rows is reported valid exactly when the rows form a prefix
  (`WindowValidIffPrefix`, `WindowVerdict`): a window that starts late is reported broken although nothing was
  touched, and rows cut off the end go unnoticed.
- The writer hashes the JSON text it inserts, the verifier the text that the JSONB column prints. A chain
  verifies exactly when each payload and organisation id reads back as it was hashed
  (`AnyRunVerifiesIffFaithful`). JSONB orders keys by length and prints spaces, so no row written by the usage
  consumer does (`ConsumedPayloadIsNotFaithful`, `ConsumedChainNeverVerifies`).
- `CheckThresholds` is described as returning newly crossed thresholds; it returns all reached ones. The
  description holds exactly when no listed threshold was reached before the request
  (`ReturnsNewlyCrossedIff`); `ReachedAgain` is an input where it fails. `Check` adds a cost that `process` has stored already; `AlertCountsTwice` says
  exactly when that shows.
- `Rotate` under another organisation succeeds and is logged without changing the key (`RotationTakesEffectIff`).
- The CSV export ends at 23:59:59 of its last day, the audit route at midnight (`ExportStopsASecondEarly`).
- `buildKey` is injective only because the model is read from the prompt (`KeyInjective`, `KeyAmbiguousInModel`).
  The key names neither the organisation nor the upstream path, so a hit is by provider and body alone and
  comes before scan and policy (`HitIsForAnyOrganisation`). A `Set` that Redis refuses leaves the older entry,
  so a hit serves the last store that Redis took.
- Rotation is described as a protection against replay. Run alone it is (`NeverRotatesAgain`), but it reads and
  deletes the session in separate commands: two rotations of one cookie that both read first both succeed
  (`BothChecksPass`). The number of sessions is preserved exactly when every rotation's own deletion found its
  session (`PreservedIff`).
- The calculator takes any discounts; with more than 1 in all a bill can be negative, exactly from half a unit
  on (`BillSign`, `DiscountsCanExceedOne`). No entry of the price table allows it.
- The audit route orders by time alone. Pages read one after the other give every row once, however ties are
  broken, exactly when no two rows of one time lie on both sides of a page boundary (`AlwaysCoverIff`).
- `checker.go:69` scans the integer array of thresholds into a plain slice, without the array wrapper that the
  PostgreSQL driver asks for. Which rows can be scanned is a parameter here; if none can, no budget is ever
  alerted on (`UnreadableIsSilent`).
- The word estimate is documented as about 1.33 tokens a word and 3.5 characters a token in places; the code
  computes 1.30 and 4.

## Model

| member | source | states |
|---|---|---|
| Text.PrintIntInjective | services/audit-service/internal/writer/writer.go:89 | `%d` of two different numbers differs, for all integers |
| Text.ParseInvertsDecimal | services/audit-service/internal/writer/writer.go:89 | reading the printed digits back gives the number |
| Text.PrintIntIs | services/audit-service/internal/writer/writer.go:89 | `%d` prints digits without a leading zero that read as the number, after a minus sign below zero |
| AuditChain.RawTextInjective | services/audit-service/internal/writer/writer.go:89-92 | the hashed text fixes all five fields when organisation, event type and previous hash have no separator, whatever the payload holds |
| AuditChain.RawTextIs | services/audit-service/internal/writer/writer.go:89-90 | the text is number, organisation, event type, payload and previous hash, in this order, with separators between |
| AuditChain.BarInEventIsAmbiguous | services/audit-service/internal/writer/writer.go:89-92 | every row whose event type has a separator shares its text with another row |
| AuditChain.HeadCommitsToHistory | services/audit-service/internal/verifier/verifier.go:104-174 | two clean row lists of any length that end in one entry hash are the same history, row by row, unless two of their hashed texts collide |
| AuditVerifier.Verifier.CheckRow | services/audit-service/internal/verifier/verifier.go:114-170 | one row adds exactly the violations of its gap, link, hash and signature, in that order, and `Valid` stays the emptiness of the list |
| AuditVerifier.Verifier.Turn | services/audit-service/internal/verifier/verifier.go:104-174 | one turn of the loop adds the row's violations and remembers its hash and number |
| AuditVerifier.Verifier.WalkRows | services/audit-service/internal/verifier/verifier.go:100-180 | the loop reports every row against the row read before it, counts all rows, and fails exactly when the cursor breaks |
| AuditVerifier.WalkIsReport | services/audit-service/internal/verifier/verifier.go:100-174 | the loop's running state, which knows only the last row, ends with the violations of each row against its predecessor |
| AuditVerifier.ShownGapIsUnique | services/audit-service/internal/verifier/verifier.go:122 | both numbers of a gap can be read off its text |
| AuditVerifier.Verifier.Verify | services/audit-service/internal/verifier/verifier.go:67-183 | valid iff no violations iff the selected rows are linked, numbered, hashed and signed; checked is the row count; both error cases |
| AuditVerifier.SelectIsWithin | services/audit-service/internal/verifier/verifier.go:68-84 | for every table the query returns exactly the organisation's rows from the start to the end of the window, both included, each as often, by rising number |
| AuditVerifier.ReportEmptyIffClean | services/audit-service/internal/verifier/verifier.go:92-174 | the whole report is empty exactly on clean rows |
| AuditVerifier.ReportOfOneRow | services/audit-service/internal/verifier/verifier.go:104-174 | when one row alone fails, its violations are the report |
| AuditVerifier.HashesDiffer | services/audit-service/internal/verifier/verifier.go:140-145 | no two rows of a full chain share a hash unless texts collide |
| AuditChain.SeqNumInText | services/audit-service/internal/writer/writer.go:89-92 | the hashed text always fixes the sequence number, with no condition on the other fields |
| AuditVerifier.SubsequenceReport | services/audit-service/internal/verifier/verifier.go:104-174 | rows kept from a full chain: a gap and a broken link where the predecessor was dropped, a broken link alone on the first kept row, nothing else |
| AuditVerifier.WindowValidIffPrefix | services/audit-service/internal/verifier/verifier.go:67-182 | kept rows verify exactly when they are a prefix of the chain |
| AuditVerifier.AlteredRowReport | services/audit-service/internal/verifier/verifier.go:126-156 | another event type or payload in one row gives exactly one violation, a hash mismatch there |
| AuditVerifier.ForgedSignatureReport | services/audit-service/internal/verifier/verifier.go:157-170 | another signature alone gives exactly one violation, an HMAC mismatch at that row |
| AuditVerifier.ResealedRowReport | services/audit-service/internal/verifier/verifier.go:126-173 | with hash and signature recomputed, exactly one broken link at the next row, or an empty report at the end |
| AuditWriter.Writer.Write | services/audit-service/internal/writer/writer.go:50-128 | on success the tables are those of the whole transaction, on any error they are as before, and which error for which failure |
| AuditWriter.Writer.WriteBatch | services/audit-service/internal/writer/writer.go:134-140 | one transaction per entry, an error for each that failed, later entries still written |
| AuditWriter.ErrorOf | services/audit-service/internal/writer/writer.go:51-125 | which statement a write fails at: no number below 2^63 - 1 left, payload that does not marshal, event type over 50 characters, or a fault, in statement order |
| AuditWriter.BatchAt | services/audit-service/internal/writer/writer.go:134-140 | as many outcomes as entries, each that of its own write on the tables the entries before it left |
| AuditWriter.WriteOneExtends | services/audit-service/internal/writer/writer.go:57-123 | on tables holding an organisation's chain a write succeeds iff its payload marshals, its event type fits and a number is left, and then extends the chain by one linked row |
| AuditWriter.WriteOneFrame | services/audit-service/internal/writer/writer.go:57-123 | a write leaves the chain and the next number of every other organisation |
| AuditWriter.TopRowIsLast | services/audit-service/internal/writer/writer.go:70-81 | the row with the highest number is the last one committed, and its hash is the chain's head, empty without rows |
| AuditWriter.SerialHolds | services/audit-service/internal/writer/writer.go:50-130 | after any writes each organisation's rows are the chain of its own accepted writes and next_seq is one more than their number |
| AuditWriter.ChainOfAt | services/audit-service/internal/writer/writer.go:83-97 | row i of the reference chain is the i-th write numbered i + 1, hashed over its predecessor's hash |
| AuditProtocol.OrgLogSkips | services/audit-service/internal/writer/writer.go:57-64 | commits of other organisations leave what this organisation's transaction reads |
| AuditProtocol.CommitIsSerial | services/audit-service/internal/writer/writer.go:51-123 | a transaction on an old snapshot that passes the conflict test commits exactly what it would compute now |
| AuditProtocol.ApplyKeepsInv | services/audit-service/internal/writer/writer.go:50-130 | every step of every transaction keeps the tables equal to the serial run and every phase in order |
| AuditProtocol.RunKeepsInv | services/audit-service/internal/writer/writer.go:50-130 | so does every interleaving |
| AuditProtocol.CommitsAreAccepted | services/audit-service/internal/writer/writer.go:123 | no committed write is missing from its organisation's chain |
| AuditProtocol.InterleavingsAreSerial | services/audit-service/internal/writer/writer.go:50-130 | for every interleaving: numbers 1..n without gaps for aborted writes, next_seq n + 1, each prev_hash its predecessor's hash, the tables those of the commits run one at a time in commit order |
| AuditProtocol.AloneIsWriteOne | services/audit-service/internal/writer/writer.go:50-130 | the five steps taken in a row do what the whole transaction does, in failure too |
| AuditHistory.LogIsLived | services/audit-service/internal/writer/writer.go:50-130 | in every interleaving each committed write has its own Begin, allocation, read, insert and Commit among the steps, in order, with no rollback between; log order is commit order and no Begin serves two commits |
| AuditHistory.NothingAfterAbort | services/audit-service/internal/writer/writer.go:55 | after a rollback no step of the transaction changes anything, whatever others do, until it begins again |
| AuditHistory.AbortUndoes | services/audit-service/internal/writer/writer.go:55 | a rollback leaves tables and log and ends the transaction |
| AuditHistory.CommitsIff | services/audit-service/internal/writer/writer.go:51-123 | an inserted row commits iff no write of its own organisation committed since its Begin, in every reachable state |
| AuditService.ConsumeClaim | services/audit-service/cmd/auditd/main.go:173-209 | every message marked once in order, whether decoded, skipped, written or refused; the tables are those of the handled messages |
| AuditService.HandledAsEvent | services/audit-service/cmd/auditd/main.go:174-207 | undecodable messages and those without organisation write nothing, any other its own event as an api_request |
| AuditService.PayloadShows | services/audit-service/cmd/auditd/main.go:193-199 | each payload key is followed by the value of its own field |
| AuditService.ConsumingIsWriting | services/audit-service/cmd/auditd/main.go:173-209 | consuming any messages, with any failures, is a serial run of exactly the writes that commit, one per such message, in message order, with its own row id |
| AuditService.ConsumingIsSerial | services/audit-service/cmd/auditd/main.go:173-209 | and it continues whatever writes came before |
| AuditService.ConsumedRows | services/audit-service/cmd/auditd/main.go:173-209 | what the verifier reads of a consumer's chain is the chain of its committed writes of the organisation |
| AuditService.SelectIsInWindow | services/audit-service/internal/verifier/verifier.go:68-86 | the ordered query over a written table returns the organisation's rows inside the window in commit order |
| AuditService.HashHoldsIffFaithful | services/audit-service/internal/verifier/verifier.go:140-145 | a written row's hash checks iff its organisation and payload read back as hashed |
| AuditService.WrittenChainReport | services/audit-service/internal/verifier/verifier.go:104-174 | the report on a written chain is exactly a hash mismatch at each row that does not read back |
| AuditService.WrittenChainIsClean | services/audit-service/internal/verifier/verifier.go:104-182 | a written chain is clean iff all its writes read back |
| AuditService.WritesVerifyIffFaithful | services/audit-service/internal/verifier/verifier.go:67-183 | the same for the query on the tables any writes leave |
| AuditService.AnyRunVerifiesIffFaithful | services/audit-service/internal/verifier/verifier.go:67-183 | the same for every interleaving of concurrent transactions |
| AuditService.WindowVerdict | services/audit-service/internal/verifier/verifier.go:67-183 | a date window on a faithful chain verifies iff it selects a prefix |
| AuditService.ConsumedPayloadIsNotFaithful | services/audit-service/cmd/auditd/main.go:193-199 | no consumed payload reads back from JSONB as it was hashed |
| AuditService.ConsumedChainNeverVerifies | services/audit-service/cmd/auditd/main.go:188-204 | whatever the consumer consumed and whatever failed, each row it wrote is reported with exactly one hash mismatch |
| PolicyEvaluator.Evaluate | services/proxy/internal/policy/evaluator.go:100-133 | allowed iff the engine failed or said true; approval iff it is not allowed and asked for; allowed iff the action is allow; which reasons the client gets in each case |
| PolicyEvaluator.ExtractReasons | services/proxy/internal/policy/evaluator.go:135-154 | the loops keep the text reasons in order, in both encodings of the set |
| PolicyEvaluator.InTexts | services/proxy/internal/policy/evaluator.go:135-154 | a reason is kept iff it is a text and, in the object form, not blank |
| ProxyCache.KeysEqualIff | services/proxy/internal/cache/semantic_cache.go:82-85 | two keys are equal iff the prompts and the joined providers and models are, digests having one length |
| ProxyCache.KeyInjective | services/proxy/internal/cache/semantic_cache.go:82-85 | equal keys mean equal provider and prompt when the model is read from the prompt and digests have one length |
| ProxyCache.KeyAmbiguousInModel | services/proxy/internal/cache/semantic_cache.go:82-85 | with a free model two requests can share a key |
| ProxyCache.SemanticCache.Get | services/proxy/internal/cache/semantic_cache.go:34-41 | a hit iff Redis answers and the entry of the key has not expired, with its body |
| ProxyCache.SemanticCache.Set | services/proxy/internal/cache/semantic_cache.go:45-52 | one entry with the default hour for ttl 0; a failed Set leaves the older entry |
| ProxyCache.SemanticCache.Invalidate | services/proxy/internal/cache/semantic_cache.go:55-58 | removes just that entry, or nothing when Redis fails |
| ProxyPipeline.LastByKeyIsLastStore | services/proxy/internal/cache/semantic_cache.go:82-85 | the last store under a key is the last store of the provider and body |
| ProxyPipeline.RunKeepsCacheInv | services/proxy/internal/interceptor/request.go:93-172 | over any steps each cache entry is the last taken store under its key with its hour, and is there unless evicted |
| ProxyPipeline.CacheRefinesLastStore | services/proxy/internal/interceptor/request.go:93-172 | after any steps a hit returns the last stored response of that provider and body within the hour; without evictions a lookup hits exactly then |
| ProxyPipeline.RunKeepsMeta | services/proxy/internal/interceptor/request.go:89-91 | each request in flight carries the model and stream flag of its own body |
| ProxyPipeline.ProviderIsFirstPart | services/proxy/internal/interceptor/request.go:181-195 | for every path under /proxy/v1/ the provider is the part up to the next slash or the end |
| ProxyPipeline.ProviderWithoutPrefix | services/proxy/internal/interceptor/request.go:181-195 | a path without that prefix gives its own text up to the first slash |
| ProxyPipeline.HitServesLastStore | services/proxy/internal/interceptor/request.go:94-103 | a request that the cache answers, among any others in flight, gets that response with status 200; with Redis up, no stream and no eviction it is answered iff something is remembered |
| ProxyPipeline.HitIsForAnyOrganisation | services/proxy/internal/interceptor/request.go:94-103 | a remembered response answers a request of any organisation, before scan and policy, and without a call or alert |
| ProxyPipeline.ApplyKeepsDecisionsOk | services/proxy/internal/interceptor/request.go:119-157 | a step lets only allowed requests past the policy and only those with a known provider past the router |
| ProxyPipeline.ApplyKeepsEventsCounted | services/proxy/internal/interceptor/request.go:93-176 | a step keeps one event per answered request, whose status, cache flag, action and provider tell its outcome exactly |
| ProxyPipeline.ApplyKeepsCallsCounted | services/proxy/internal/interceptor/request.go:140-157 | a step keeps one provider call per request that came to the point of calling, and none for any other |
| ProxyPipeline.ApplyKeepsStoresMatch | services/proxy/internal/interceptor/request.go:161-172 | a step keeps each store the response of a forwarded request that called its known provider and is no stream |
| ProxyPipeline.ApplyKeepsSummed | services/proxy/internal/interceptor/request.go:93-176 | a step keeps the number of events equal to hits + held + denied + unrouted + failed + forwarded |
| ProxyPipeline.RunIsAccounted | services/proxy/internal/interceptor/request.go:71-177 | all of these for every run of any number of requests in flight; the provider is called once for each event that is no hit, allowed and of a known provider, and not at all for any other event |
| ProxyHistory.RunTells | services/proxy/internal/interceptor/request.go:93-157 | in every run the phase of each request says whether a lookup missed for it and the policy permitted it, as read off the steps |
| ProxyHistory.CalledIffPermittedMiss | services/proxy/internal/interceptor/request.go:93-157 | in every run the provider of a request that ended with an event was called once iff its lookup missed, the policy permitted it and the provider is known; a hit iff the lookup did not miss; blocked or queued iff it missed without permission |
| ProxyHistory.CallsArePermittedMisses | services/proxy/internal/interceptor/request.go:119-157 | no call in any run, of a finished request or not, without a miss and a permission before it |
| ProxyHistory.StoresArePermittedMisses | services/proxy/internal/interceptor/request.go:161-172 | nothing is stored in any run but answers to such calls that are no streams |
| ProxyHandler.Handler.ServeHTTP | services/proxy/internal/interceptor/request.go:71-177 | what the request leaves in cache, events, alerts and calls, and its response, in every branch |
| ProxyHandler.Handler.Govern | services/proxy/internal/interceptor/request.go:105-138 | alerts, event and response of held and denied requests; allowed ones go on |
| ProxyHandler.Handler.Forward | services/proxy/internal/interceptor/request.go:140-177 | call, store, event and response of routed requests, with their failures |
| ProxyHandler.ServingIsARun | services/proxy/internal/interceptor/request.go:71-177 | the code run without interruption ends as its steps do on the machine, whatever else is in flight |
| ProxyHandler.ServeEffects | services/proxy/internal/interceptor/request.go:93-176 | the provider is called iff the request is allowed, missed and routable; the cache changes only for its whole answer; one event iff the body was read; which alerts |
| ProxyHandler.ServeOutcomes | services/proxy/internal/interceptor/request.go:93-176 | the event's status, each of the four iff its own case, its cache flag and the response agree with how the request ended |
| ProxyHandler.ServeCounts | services/proxy/internal/interceptor/request.go:93-176 | the event's organisation, provider and model; its estimate, 0 on a hit; the provider's token counts on success and 0 otherwise; its scan flag, that of the prompt exactly when the scan ran and no error followed |
| ProxyHandler.ServeRefusals | services/proxy/internal/interceptor/request.go:74-86 | a request is turned away iff it names no provider or its body cannot be read, with which answer, and leaves nothing; failed calls and unknown providers answer 502 |
| ProxyHandler.BodyIsCut | services/proxy/internal/interceptor/request.go:82 | the body read is the first 8 MB |
| AnalyticsConsumer.GroupHandler.Setup | services/analytics-processor/internal/consumer/consumer.go:90-93 | empties the buffer and changes nothing else |
| AnalyticsConsumer.GroupHandler.Cleanup | services/analytics-processor/internal/consumer/consumer.go:95-103 | hands over a non-empty buffer and leaves it empty |
| AnalyticsConsumer.GroupHandler.Flush | services/analytics-processor/internal/consumer/consumer.go:139-146 | hands over the buffer once, taken or refused |
| AnalyticsConsumer.GroupHandler.ConsumeClaim | services/analytics-processor/internal/consumer/consumer.go:105-137 | the loop is the run of its select arms |
| AnalyticsConsumer.NothingLostOrReordered | services/analytics-processor/internal/consumer/consumer.go:90-146 | in every interleaving of claims over sessions: batches handed over then the buffer are the decoded messages in order, batches have 1 to 1000 events, the buffer fewer, each message is marked once, nothing is left after Cleanup |
| AnalyticsConsumer.ClaimOrderKept | services/analytics-processor/internal/consumer/consumer.go:105-137 | the shared buffer keeps each claim's order |
| AnalyticsConsumer.FlushedOnTick | services/analytics-processor/internal/consumer/consumer.go:131-134 | after a tick or a Cleanup, in any run, the buffer is empty and the sink was given every decoded message so far |
| AnalyticsConsumer.HandedOverIff | services/analytics-processor/internal/consumer/consumer.go:95-146 | in any run a batch is handed over iff a message fills the buffer to 1000 or a tick or Cleanup finds it not empty; it is the whole buffer, and one of fewer than 1000 comes from a tick or Cleanup alone |
| AnalyticsConsumer.SetupDropsBuffer | services/analytics-processor/internal/consumer/consumer.go:90-93 | a Setup without the Cleanup before it loses exactly what was buffered |
| AnalyticsConsumer.TakenCount | services/analytics-processor/internal/consumer/consumer.go:139-146 | events handed over exceed those taken by at most 1000 per refusal |
| AnalyticsConsumer.LossBound | services/analytics-processor/internal/consumer/consumer.go:120-146 | the sink misses at most 1000 decoded events per refused batch, and the buffer |
| CostCalculator.MillionTokens | services/cost-engine/internal/calculator/calculator.go:26-31 | a million tokens of one kind cost the listed price, plus the premium when fine-tuned |
| CostCalculator.DiscountsScale | services/cost-engine/internal/calculator/calculator.go:33-38 | which discount each option takes off the undiscounted cost |
| CostCalculator.BreakdownAddsUp | services/cost-engine/internal/calculator/calculator.go:38-46 | input and output cost, premium and adjustments add up to the total within half a unit; the result has no field for the premium |
| CostCalculator.BillError | services/cost-engine/internal/calculator/calculator.go:38-39 | n requests are billed within n/2 units of 1e-8 USD of their exact cost |
| CostCalculator.RoundHalf | services/cost-engine/internal/calculator/calculator.go:39 | half a unit rounds away from zero on both sides |
| CostCalculator.SplitChangesOneUnit | services/cost-engine/internal/calculator/calculator.go:25-47 | splitting a request in two changes the bill by at most one unit |
| CostCalculator.MonotoneInTokens | services/cost-engine/internal/calculator/calculator.go:25-47 | more tokens never cost less |
| CostCalculator.AntitoneInDiscount | services/cost-engine/internal/calculator/calculator.go:33-39 | a larger discount never costs more |
| CostCalculator.ExactSign | services/cost-engine/internal/calculator/calculator.go:33-38 | the unrounded cost of a positive base is not negative iff the discounts sum to at most 1 |
| CostCalculator.BillSign | services/cost-engine/internal/calculator/calculator.go:33-39 | the bill is negative iff the discounted base is at most minus half a unit, which takes discounts above 1 |
| CostCalculator.DiscountsCanExceedOne | services/cost-engine/internal/calculator/calculator.go:33-39 | an entry with discounts of 1.25 bills two tokens below zero and one token at zero |
| CostCalculator.NonNegative | services/cost-engine/internal/calculator/calculator.go:25-47 | no negative bill under sane prices |
| CostCalculator.Get | services/cost-engine/internal/pricing/pricing_table.go:7-47 | every entry, the zero entry of unknown models included, has non-negative prices and discounts that sum to at most 1 |
| CostCalculator.EntryIsFound | services/cost-engine/internal/pricing/pricing_table.go:42-47 | every entry is found under its own provider and model |
| CostCalculator.TablePrices | services/cost-engine/internal/pricing/pricing_table.go:7-40 | what a million input, output, cached and batched tokens of each of the eight models are billed, in units |
| CostCalculator.UnlistedIsFree | services/cost-engine/cmd/costengine/main.go:154-158 | a pair that no entry carries gets the zero entry and is billed nothing |
| CostCalculator.BillNonNegative | services/cost-engine/cmd/costengine/main.go:154-163 | so what is billed is never negative |
| BudgetChecker.CheckThresholds | services/cost-engine/internal/budget/checker.go:101-109 | the reached thresholds, in order |
| BudgetChecker.InReached | services/cost-engine/internal/budget/checker.go:101-109 | a threshold is returned iff it is listed and reached, a zero limit included |
| BudgetChecker.ReachedIff | services/cost-engine/internal/budget/checker.go:79-109 | a threshold is returned iff the spend is that percentage of the limit or more; with no limit, iff anything is spent |
| BudgetChecker.StatusAddsUp | services/cost-engine/internal/budget/checker.go:77-83 | a status carries its row, the spend with the cost added, and what is left of the limit |
| BudgetChecker.InExceeded | services/cost-engine/internal/budget/checker.go:85-89 | the statuses returned are those of the readable rows with a threshold reached |
| BudgetChecker.Check | services/cost-engine/internal/budget/checker.go:36-98 | blocked iff some readable hard budget is used up; the statuses are those with a threshold reached; unreadable rows are skipped; a failed query allows |
| BudgetChecker.FiresOnce | services/proxy/internal/policy/rego/budget.rego:7-15 | over a run each threshold fires at exactly one request if the run crosses it and at none otherwise |
| BudgetChecker.ReachedIsAllCrossed | services/cost-engine/internal/budget/checker.go:100-109 | the checker's set is the one reached at the start together with every one the rule fired since |
| BudgetChecker.ReturnsNewlyCrossedIff | services/cost-engine/internal/budget/checker.go:100-109 | what is returned is what the request newly crossed iff no listed threshold was reached before it |
| BudgetChecker.ReachedAgain | services/cost-engine/internal/budget/checker.go:100-109 | a request from 60 to 61 of 100 returns the threshold 50 although it crossed none |
| BudgetLedger.CostHandler.Process | services/cost-engine/cmd/costengine/main.go:152-211 | tables and alerts after one event, under every failure, for any order of the budgets |
| BudgetLedger.CostHandler.Charge | services/cost-engine/cmd/costengine/main.go:165-211 | the same for any amount: usage row, spend, check, alerts |
| BudgetLedger.CostHandler.Record | services/cost-engine/cmd/costengine/main.go:165-200 | a failed insert changes nothing; a failed or overflowing update leaves the spend but keeps the usage row |
| BudgetLedger.CostHandler.PublishAlerts | services/cost-engine/cmd/costengine/main.go:208-210 | one alert per status, in order |
| BudgetLedger.CostHandler.ConsumeClaim | services/cost-engine/cmd/costengine/main.go:138-150 | tables and alerts after any messages, the decodable ones processed in order, every message marked |
| BudgetLedger.AlertedOnceIffDue | services/cost-engine/internal/budget/checker.go:37-98 | an event alerts on a budget exactly once iff it applies, its row can be read and one of its thresholds is reached, and never otherwise |
| BudgetLedger.DueIff | services/cost-engine/internal/budget/checker.go:37-89 | a budget is due iff it is an active monthly one of the organisation, or of the event's own team or user, readable, and its stored spend with the event added reaches a listed percentage |
| BudgetLedger.UnreadableIsSilent | services/cost-engine/internal/budget/checker.go:69-75 | if no row can be scanned nothing is alerted on, whatever was spent |
| BudgetLedger.ConsumingIsARun | services/cost-engine/cmd/costengine/main.go:138-150 | the tables a consumer leaves are those of a run of its decodable events |
| BudgetLedger.ProcessedSpend | services/cost-engine/cmd/costengine/main.go:185-200 | the spend of every budget and month after an event |
| BudgetLedger.ProcessedUsage | services/cost-engine/cmd/costengine/main.go:166-183 | one usage row at the billed price per inserted event; a failed insert changes nothing |
| BudgetLedger.UpdatesIff | database/postgres/migrations/0003_budgets.sql:27-32 | the spend update goes through iff the statement does not fail and every active organisation budget stays below 10^12 units |
| BudgetLedger.EventPrices | services/cost-engine/cmd/costengine/main.go:154-163 | input and output tokens and the batch flag of an event reach the right prices |
| BudgetLedger.SpendIsAppliedUsage | services/cost-engine/cmd/costengine/main.go:152-200 | over any run, other budgets administered meanwhile, an organisation budget grows by exactly the usage rows whose update went through |
| BudgetLedger.LedgerMatchesUsage | services/cost-engine/cmd/costengine/main.go:152-200 | the stored spend is the sum of the usage rows of the month when every update succeeded, and at most that sum otherwise |
| BudgetLedger.LedgerWithinUsage | services/cost-engine/cmd/costengine/main.go:152-200 | with the prices of the table and counted tokens, the stored spend never exceeds the usage rows, whatever fails |
| BudgetLedger.OthersUntouched | services/cost-engine/cmd/costengine/main.go:189-192 | no budget of another organisation, scope or month, and no inactive one, is touched |
| BudgetLedger.AlertCountsTwice | services/cost-engine/internal/budget/checker.go:77-79 | a status exceeds the stored spend by the event again, and is right iff the event was free or its update failed |
| RefreshSessions.SplitInvertsJoin | services/auth-service/src/session/refresh.ts:15-31 | splitting at the first dot gives back session id and token although tokens contain dots |
| RefreshSessions.DotlessIsMalformed | services/auth-service/src/session/refresh.ts:27-28 | a cookie without a dot is refused and changes nothing |
| RefreshSessions.RotationOf | services/auth-service/src/session/refresh.ts:27-52 | the four answers to any cookie and what each does to the store: a token that does not verify and a missing session change nothing, a mismatch removes the session, success replaces it for thirty days |
| RefreshSessions.RevocationOf | services/auth-service/src/session/refresh.ts:56-61 | logging out removes exactly the named session |
| RefreshSessions.SessionStore.CreateRefreshSession | services/auth-service/src/session/refresh.ts:9-16 | one new session for thirty days and its cookie |
| RefreshSessions.SessionStore.RotateRefreshSession | services/auth-service/src/session/refresh.ts:23-53 | the four failures, deletion on mismatch, and the new session and cookie on success |
| RefreshSessions.SessionStore.RevokeRefreshSession | services/auth-service/src/session/refresh.ts:56-61 | removes the named session alone; a malformed cookie changes nothing |
| RefreshSessions.DeadStaysDead | services/auth-service/src/session/refresh.ts:9-61 | a session that is gone never comes back in any run |
| RefreshSessions.NeverRotatesAgain | services/auth-service/src/session/refresh.ts:33-49 | a cookie once rotated, revoked or rejected for mismatch never rotates again, nor does any cookie of its session |
| RefreshSessions.RotationPreservesSessions | services/auth-service/src/session/refresh.ts:47-52 | a rotation replaces one live session by one of the same user and keeps the others |
| RefreshSessions.NewCookieRotates | services/auth-service/src/session/refresh.ts:9-53 | a new cookie rotates before its thirty days are over and not from then on, after any steps that do not name its session |
| RefreshSessions.OnlyIssuedRotates | services/auth-service/src/session/refresh.ts:33-45 | in every reachable state only a cookie that create or rotate returned rotates |
| RefreshInterleaved.AloneIsRotated | services/auth-service/src/session/refresh.ts:23-53 | the commands of one rotation in a row do what the whole rotation does |
| RefreshInterleaved.LoginAndLogout | services/auth-service/src/session/refresh.ts:9-61 | logging in and out are the serial operations |
| RefreshInterleaved.SessionsAreCounted | services/auth-service/src/session/refresh.ts:36-51 | over every interleaving the sessions and the rotations halfway are the logins, less the sessions ended, and one more for each rotation whose deletion found nothing |
| RefreshInterleaved.PreservedIff | services/auth-service/src/session/refresh.ts:36-51 | with none halfway, rotations preserved the number of sessions iff each deletion found its session |
| RefreshInterleaved.RunTakesOnce | services/auth-service/src/session/refresh.ts:47-48 | over every interleaving at most one rotation removes a given session |
| RefreshInterleaved.CheckAfterDeletionFails | services/auth-service/src/session/refresh.ts:37-38 | a check after the session was deleted, by whatever, never passes, in any run |
| RefreshInterleaved.BothChecksPass | services/auth-service/src/session/refresh.ts:36-52 | two rotations of one cookie that both check before either deletes both succeed, and there is one session more |
| KeyVault.DecryptInvertsEncrypt | services/key-vault/internal/vault/vault.go:37-81 | decrypting the nonce-prefixed ciphertext gives the plaintext back |
| KeyVault.DecryptIs | services/key-vault/internal/vault/vault.go:59-81 | the first 12 bytes are the nonce; shorter ciphertexts and those that do not open are refused, each with its error |
| KeyVault.Store.Create | services/key-vault/internal/vault/store.go:54-75 | one new active record, or nothing on error |
| KeyVault.Store.Rotate | services/key-vault/internal/vault/store.go:139-171 | both statements or neither; fails iff the database does or the key does not exist |
| KeyVault.Store.Deactivate | services/key-vault/internal/vault/store.go:174-180 | deactivates the organisation's own key and no other |
| KeyVault.Store.DecryptKey | services/key-vault/internal/vault/store.go:122-135 | the plaintext of an active key to its own organisation, otherwise not found |
| KeyVault.StoreFollowsStory | services/key-vault/internal/vault/store.go:54-180 | in every reachable state each key decrypts to what its own organisation stored last, carries that hash, and is active until that organisation deactivates it |
| KeyVault.RevealFollowsStory | services/key-vault/internal/vault/store.go:122-135 | decrypting answers exactly that plaintext to that organisation while active, and nothing otherwise |
| KeyVault.InactiveForever | services/key-vault/internal/vault/store.go:122-180 | an inactive key stays inactive and undecryptable in any further run |
| KeyVault.OtherOrgsUntouched | services/key-vault/internal/vault/store.go:54-180 | no operation changes another organisation's key |
| KeyVault.RotationTakesEffectIff | services/key-vault/internal/vault/store.go:152-165 | a rotation that is logged took effect iff it was made by the key's organisation |
| Filters.Pushed | services/api-gateway/src/routes/audit.ts:23-57 | pushing a condition with its parameter adds just that condition on every row |
| Filters.SelectIsMatching | services/report-service/src/renderer/csv.ts:65-75 | the selected rows are the matching rows of the table, each as often, in order of time |
| CsvExport.BuildFilter | services/report-service/src/renderer/csv.ts:45-63 | for every combination of options the clause with its numbered parameters selects exactly the wanted rows |
| CsvExport.PushOption | services/report-service/src/renderer/csv.ts:52-63 | one optional filter narrows by its own column when given and not otherwise |
| CsvExport.WriteRows | services/report-service/src/renderer/csv.ts:77-107 | the cursor loop terminates; it fails iff the failing FETCH is one that a result of that size takes, and has then written the whole batches before it; else it writes the result in order and counts it |
| CsvExport.StreamCsv | services/report-service/src/renderer/csv.ts:34-113 | the export is exactly the wanted rows of the table in order of time, with their number; when it fails, and that it wrote no others then |
| AuditRoute.PushGiven | services/api-gateway/src/routes/audit.ts:27-54 | one optional filter narrows by its own condition when given and keeps the next placeholder free |
| AuditRoute.BuildPeriodAndWho | services/api-gateway/src/routes/audit.ts:23-42 | organisation, period, user and team select as asked |
| AuditRoute.BuildFilter | services/api-gateway/src/routes/audit.ts:23-57 | for every combination of filters the clause selects exactly the wanted rows |
| AuditRoute.GetAudit | services/api-gateway/src/routes/audit.ts:19-87 | total is the number of wanted rows, rows the asked page of them, newest first, however the query breaks ties; the page parameters land on their placeholders |
| AuditRoute.ReverseIsOrder | services/api-gateway/src/routes/audit.ts:76 | the selected rows have such an order |
| AuditRoute.ReverseIsNewestFirst | services/api-gateway/src/routes/audit.ts:76 | the order of the pages is by falling time and keeps every row |
| AuditRoute.PagesCoverResult | services/api-gateway/src/routes/audit.ts:76-78 | reading page after page of one order gives every row once, in order |
| AuditRoute.PageAt | services/api-gateway/src/routes/audit.ts:76-78 | a page at any offset is the rows from there on, up to limit |
| AuditPages.PrefixesAgree | services/api-gateway/src/routes/audit.ts:76 | two orders of the same rows hold the same rows up to any position without a tie |
| AuditPages.PagesArePrefix | services/api-gateway/src/routes/audit.ts:76-78 | without ties at page boundaries the pages read so far, each from its own query, are the first rows, each once |
| AuditPages.TieLosesARow | services/api-gateway/src/routes/audit.ts:76-78 | with such a tie one query that breaks it the other way leaves a row on no page |
| AuditPages.AlwaysCoverIff | services/api-gateway/src/routes/audit.ts:76-78 | the pages give every row exactly once, however each query breaks ties, iff no tie straddles a page boundary |
| AuditRoute.ExportStopsASecondEarly | services/report-service/src/renderer/csv.ts:50 | for one day, export and route differ exactly on rows inside the last second |
| Tokenizer.CountWords | services/proxy/internal/tokenizer/estimator.go:78-90 | the flag loop counts the word starts |
| Tokenizer.WordsAreRuns | services/proxy/internal/tokenizer/estimator.go:78-90 | which are as many as the maximal runs of non-space runes |
| Tokenizer.WordsOfConcat | services/proxy/internal/tokenizer/estimator.go:78-90 | cutting a text adds one word iff it cuts one, and none otherwise |
| Tokenizer.CountPunctuation | services/proxy/internal/tokenizer/estimator.go:92-100 | the loop counts the punctuation runes |
| Tokenizer.PunctuationIsMarks | services/proxy/internal/tokenizer/estimator.go:92-100 | which is the number of positions that hold punctuation |
| Tokenizer.EstimateText | services/proxy/internal/tokenizer/estimator.go:17-44 | the branches compute the estimate of their family of providers |
| Tokenizer.EstimateMeaning | services/proxy/internal/tokenizer/estimator.go:17-44 | what an estimate is, by provider name, as bounds: 1.3 tokens a word for openai and azure; else one for four runes with at least one, for anthropic one more for two punctuation marks; each rounded down, 0 for no text |
| Tokenizer.EstimateMessages | services/proxy/internal/tokenizer/estimator.go:46-56 | the sum over the messages, 4 for each and 3 for the reply |
| Tokenizer.TotalOfOne | services/proxy/internal/tokenizer/estimator.go:46-56 | a message counts 4 and the estimate of its content if it has one |
| Tokenizer.TotalOfConcat | services/proxy/internal/tokenizer/estimator.go:46-56 | totals of lists add up, so this fixes every total |
| Tokenizer.EstimateOfConcat | services/proxy/internal/tokenizer/estimator.go:17-44 | how far the estimates of two halves can be from the whole, by family |
| Tokenizer.SplitMessage | services/proxy/internal/tokenizer/estimator.go:46-56 | splitting one message changes the total by 4 and that fixed range |

## Left out

- Floating point: costs, percentages and 1.30 are exact (reals, and 13 tenths); the one float edge kept is division by a zero limit.
- Parts of `Write`: actor and resource columns, a uuid or JSONB value that the database refuses (an insert fault), a connection lost after the commit, and who waits for which lock.
- Parts of `Verify`: the text of the window bounds (they are times already; a bad one is a failed query).
- Proxy: a Kafka send or marshal error that loses an event or alert after it was published (services/proxy/internal/events/publisher.go:94-114; the events here are those handed to the publisher), a handler without a cache or publisher, latency and timestamps of events, response headers and the header cost, error messages, `extractPromptText` and all JSON decoding, the DLP patterns, the other policy files, the bytes of a stream, users, teams and projects on events.
- Analytics: each select arm is one atomic step; the data race on the shared buffer and the reuse of its backing array are not modelled, nor what the sink stores.
- Cost consumer: columns that do not touch cost, alert severity, a Kafka error that loses an alert, and a cursor that breaks in the middle of `Check` (whole-query failures are modelled).
- Refresh sessions: new ids are fresh; verifying the token and reading the session count as one step, since only the read depends on the store.
- Key vault: `List`, `GetByID`, the columns that are only stored, and a failing read-back after a successful insert; nonces are parameters.
- CSV: the header row, the stream's own errors, and failures of BEGIN, DECLARE and COMMIT; the order of rows with equal times is that of the table.
- Audit route: parsing of the query string, and rows added between the count and the page.
- Token calibration (`Calibrate`, `NeedsRecalibration`), budget rules of the policy beyond thresholds, forecasting, reports, mail and the web application.
- Time: clocks are integers that only advance; Redis expiry is exact.
