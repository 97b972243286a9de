# Verified model of exactly-once money movement and sealed envelopes

This project models two parts of the platform and proves what they promise.

**Money movement.** The Ledger posts balanced journals inside transactions that first reserve an idempotency key,
then lock account rows in ascending order, then write absolute totals (`LedgerRun`, a machine whose transactions
interleave step by step). `Ledger` is the same service as a caller would like to see it, one call at a time, and the
concurrent machine is proved to behave like it. `Payments` is the protocol above it: intents, authorization, confirms
under an advisory lock, settles over a channel that may time out or lose a reply, and recovery; its steps interleave
freely and its runs start from an empty system. `LedgerStore` and `TransferStore` are the same services as classes that
update their tables statement by statement, each method proved equal to the specification or to the protocol steps it takes.

**Sealed envelopes (SABCL/1).** Encodings (`Bytes`, `Base64Url`, `Canonical`), headers and bounds (`Envelope`), padding
(`Padding`), sealing and opening (`Seal`), keys and rotation (`Keyring`), the replay claim (`Replay`), the recipient
(`Recipient`), the route table and the router (`RouteTable`, `Router`) are concrete. The cryptographic primitives are a
record of functions (`Seal.Suite`) known only by stated laws: X25519 agreement (section 6.1 of RFC 7748), decryption of
what was encrypted, verification of what was signed; HKDF (section 2 of RFC 5869) needs no law. Authenticity is proved
under `Authenticity.NoForgery`: a signature that has appeared on the wire verifies under a configured key only for a
message that the key's owner signed. Base64url is that of section 5 of RFC 4648, canonical in the sense of its section 3.5.

What is accepted and what is refused, and with which code, is said in the terms of the request, the wallets, the ledger, the keys and
the arrivals: `LedgerAnswers`, `SettleAnswers`, and the lemmas named `...As` and `...Iff` of the protocol modules.

**Text and paging.** `Decimal`, `MoneyText`, `Transactions`, `TransactionPaging` and `TransferList` (over `Paging`) model minor-unit text, human amounts,
running balances and the two cursor-paged listings.

Four things one might expect of the code are false of it. Each has a run that shows it and an exact condition:

- *FAILED means no journal.* The checks of a settle run before the idempotent replay, so a retry after a lost reply can be
  refused although the money moved (`LostReply.FailedDespiteJournal`); and a refused second settle can make the row FAILED while
  the first one's call, past its checks, is still to be posted (`LostReply.PaidAfterFailed`). `Outcomes.FailedMeansUnpaidIff`: it
  holds throughout a run exactly when no refusal is written while the journal exists and no journal is posted for a row already
  FAILED. `Outcomes.GuardedFailedIsUnpaid` gives a guard for the moment FAILED is written: no record under the key, no settle of
  the transfer owed, and none of its calls unanswered at the Ledger; `Outcomes.QuietIffNeverPaid`: without it a row that could be
  paid still can be. `Settlement.RetryReplaysIff` says when a retry gets the
  stored result.
- *Final statuses stay.* A settle writes its row by id, whatever its status; in the run of `LostReply.LateReplyBreaksLimit` a FAILED
  row becomes COMPLETED. `Outcomes.FinalIff`: a status other than PROCESSING
  stays to the end of a run exactly when no later answer that says something else is written over it.
- *The daily limit holds in every run.* A late reply can turn FAILED into COMPLETED after the allowance was spent again
  (`LostReply.LateReplyBreaksLimit`), or, outside the lock, between another confirm's aggregate and its insert, where its own
  amount still fits but not together with that confirm's (`LostReply.FittingReplyBreaksLimit`). `DailyLimit.LimitHoldsIff`: the
  limit holds in every state of a run, and after any insert that can come next, exactly when every such reply finds room for
  its own amount and for that of a confirm of the sender's day whose check is already behind it. When recovery claims a row,
  to retry it or to pass it to review, only while no settle of it is outstanding, no reply ever falls on a FAILED row.
- *Following the cursor of the transfer list shows every transfer.* Every page is a new query of at most 500 rows. Of 501 rows
  the oldest is never shown (`TransferList.OldestOf501Missed`), and of 500 it is missed if one newer row arrives between two
  pages (`TransferList.ArrivalHidesOldest`). `TransferList.ShowsAllIff`: a walk shows all that there was at its first call exactly
  when at each call what sorts after the cursor is among the newest 500 rows; `TransferList.CompleteIff` is the case in which
  nothing arrives.

Smaller ones: a posting that sorts before entries already shown changes their balances (`Transactions.ShownAgainIff`); a call
whose journal reference is taken can be told "in progress" (`LedgerTheorems.ToldInProgressIff`); "-0" is accepted but does not
print back (`Decimal.SerializeParse`); the plaintext ceiling is 65536 bytes, but padding succeeds only up to 65532
(`Padding.PadRoundTrip`).

## Model

| member | source | states |
|---|---|---|
| `Postings.PostingKeyInjective` | services/ledger/src/ledger/journal.service.ts:53-83 | the map key of a posting identifies its account and direction: no two different pairs share one |
| `Postings.NormalisePostings` | services/ledger/src/ledger/journal.service.ts:53-83 | the loop over the request yields one posting per (account, direction) in order of first appearance, carrying that pair's sum, or refuses when an amount does not parse |
| `Postings.CombinedKeepsTotals` | services/ledger/src/ledger/journal.service.ts:53-83 | combining preserves the total of every account on each side and leaves distinct (account, direction) pairs |
| `Postings.CombinedKeepsSums` | services/ledger/src/ledger/journal.service.ts:53-83 | combining preserves the overall debit and credit sums, so balance is judged the same before and after |
| `Postings.AssertBalanced` | services/ledger/src/ledger/journal.service.ts:85-103 | accepts exactly lists of at least two positive postings whose debits equal their credits, and answers that common total |
| `Postings.AccountOrderAscends` | services/ledger/src/ledger/journal.service.ts:105-110 | the lock order is strictly ascending and names exactly the accounts posted to |
| `Postings.PayloadIsCanonical` | services/ledger/src/ledger/journal.service.ts:127-157 | the hashed posting rows are equal if and only if the two lists have the same total for every (account, direction) |
| `Postings.PayloadIgnoresOrderAndSplits` | services/ledger/src/ledger/journal.service.ts:127-157 | any permutation of a request, and any splitting of one of its postings in two, hashes alike after combining |
| `Ledger.ProjectPostings` | services/ledger/src/ledger/journal.service.ts:170-183 | walking the postings over the locked rows gives every row its account's totals of the list, and fails exactly when a named row is missing |
| `Ledger.CheckPostable` | services/ledger/src/ledger/journal.service.ts:160-325 | the checks inside the transaction (rows found, currency, solvency) decide as the specification does and yield the projected rows |
| `LedgerStore.Store.Post` | services/ledger/src/ledger/journal.service.ts:127-262 | the statement-by-statement posting leaves the tables of the one-call specification, rollback of the reservation included, and tells the caller its answer, or "in progress" for a reference clash that the error does not name |
| `LedgerStore.Store.Transact` | services/ledger/src/idempotency/idempotency.service.ts:91-140 | reserving, running the work and completing the record is all or nothing: an error frees the key |
| `LedgerStore.Store.WriteBack` | services/ledger/src/ledger/journal.service.ts:237-246 | writing absolute projected totals row by row updates exactly the locked rows |
| `LedgerRun.WrittenIsCredited` | services/ledger/src/ledger/journal.service.ts:160-246 | no lost update at the step that could lose one: the absolute totals a commit writes are the committed ones plus its own postings, because its rows stayed locked |
| `LedgerRun.StepKeepsInv` | services/ledger/src/ledger/journal.service.ts:127-310 | every step of any interleaving keeps: one holder per key, row and reference, values read under lock still committed, and a log that explains the database |
| `LedgerTheorems.ConcurrentRunIsSequential` | services/ledger/src/idempotency/idempotency.service.ts:91-163 | in every reachable state the ledger equals the first accepted call per key run one after another, and every caller's answer is the sequential one, or "in progress" for a call whose reference another key's journal carries |
| `LedgerTheorems.InProgressMeansClash` | services/ledger/src/idempotency/idempotency.service.ts:43-66 | a caller is told "in progress" only if its own insert, earlier in the run, met a reference carried by another key's journal in an error that does not name the table |
| `LedgerTheorems.ToldInProgressIff` | services/ledger/src/idempotency/idempotency.service.ts:122-163 | a call whose insert error will not name the table is told "in progress" by the lookup that follows if and only if another key's journal carries its reference |
| `LedgerTheorems.ReachableLedgerSafe` | services/ledger/src/ledger/journal.service.ts:127-262 | in every reachable state of concurrent posting the ledger is safe and each currency's debits equal its credits |
| `LedgerTheorems.NoWaitCycle` | services/ledger/src/ledger/journal.service.ts:268-310 | the waits-for relation of any reachable state, reservations and row locks together, has no cycle |
| `LedgerTheorems.SomeoneAlwaysMoves` | services/ledger/src/ledger/journal.service.ts:268-310 | while a transaction is open some open transaction can step, and its step lowers the total remaining work |
| `LedgerSafety.EveryLedgerSafe` | services/ledger/src/reconciliation/reconciliation.service.ts:68-190 | after any history each journal balances, projections equal their postings, accounts without an overdraft allowance are not negative, and keys, records and journals correspond one to one with every record completed |
| `LedgerSafety.Conservation` | services/ledger/src/reconciliation/reconciliation.service.ts:68-190 | in a safe ledger the projected debits of each currency equal its projected credits |
| `LedgerSafety.OpenedSafe` | services/ledger/src/accounts/account.service.ts:165-207 | opening an account at zero keeps the ledger safe |
| `LedgerSafety.OnlyEffectiveMatters` | services/ledger/src/idempotency/idempotency.service.ts:91-163 | dropping replays, conflicts and refusals from any history leaves the same ledger |
| `LedgerSafety.FirstAcceptanceWins` | services/ledger/src/idempotency/idempotency.service.ts:142-163 | after an accepted call every later call with its key is answered with the stored result or a conflict, and changes nothing |
| `LedgerAnswers.ReplayedIff` | services/ledger/src/idempotency/idempotency.service.ts:142-163 | after an accepted call a later balanced call with its key is replayed if and only if entry type, currency, reference, description, effective date, metadata and every (account, direction) total agree, and is otherwise a conflict |
| `LedgerAnswers.FreshAnswerIff` | services/ledger/src/ledger/journal.service.ts:160-325 | a balanced call under a fresh key is posted if and only if its accounts exist, have its currency and stay above zero unless they may be overdrawn, and its reference is free; the first that fails is the answer |
| `LedgerAnswers.AccountingEquation` | services/ledger/src/money/money.ts:39-47 | in each currency of a safe ledger the balances of assets and expenses equal those of liabilities, equity and revenue |
| `Payments.TransferKeyInjective` | services/payments/src/transfers/transfers.service.ts:264-280 | two transfers share an idempotency key only if they are the same transfer |
| `ExactlyOnce.ResolveIsStable` | services/ledger/src/transfers/customer-transfer.service.ts:42-115 | whatever happened meanwhile, the Ledger resolves a settle to the row's own two wallets and so to the same call, or refuses it |
| `SettleAnswers.ResolvedAs` | services/ledger/src/transfers/customer-transfer.service.ts:42-115 | the Ledger goes on with a settle if and only if the sender owns the source, the reference names a wallet, both are active and distinct, the currencies agree and the source's credits cover the amount; each failing condition has its own code and status |
| `SettleAnswers.SettleGoesOnIff` | services/ledger/src/transfers/customer-transfer.service.ts:42-115 | in every reachable state the Ledger goes on with a settle if and only if both wallets are active and the sender's credits less debits cover the amount, and says which of the two failed |
| `SettleAnswers.PostedAs` | services/ledger/src/ledger/journal.service.ts:127-325 | in every reachable state a settle's call is answered with the stored result, or by the ledger's accounts and journals, each refusal with its code and status |
| `SettleAnswers.WrittenAs` | services/payments/src/transfers/transfers.service.ts:58-88 | what the client writes for each answer: the journal on success, nothing from 500 on, and below it FAILED with one of the known codes or with LEDGER_UNAVAILABLE |
| `SettleAnswers.TransferWithinPolicy` | services/payments/src/transfers/transfers.service.ts:164-208 | every transfer moves an amount within the policy, in rupees, from a wallet of its sender to a different one that its reference names |
| `ExactlyOnceRuns.StepKeepsInv` | services/payments/src/transfers/transfers.service.ts:164-638 | every protocol step keeps: wallets, intents, rows, confirms, records, settles and completed rows agree with one another |
| `ExactlyOnceRuns.SettleNeverConflicts` | services/payments/src/transfers/transfers.service.ts:264-336 | no settle in any state with that invariant is answered with an idempotency conflict: what the key holds was left by the same call |
| `Settlement.TransferPostsAtMostOnce` | services/payments/src/transfers/transfers.service.ts:264-336 | in every reachable state at most one journal carries a transfer's key, any that does debits the sender and credits the recipient by the row's amount, and COMPLETED implies one that the row points at |
| `Settlement.RetryReplaysIff` | services/ledger/src/transfers/customer-transfer.service.ts:106-150 | once the journal exists, a retry gets the stored result if and only if the precheck still passes, and is otherwise refused; the ledger never changes |
| `Settlement.FailedButPostedCalledTwice` | services/payments/src/transfers/transfers.service.ts:313-336 | a FAILED row whose journal exists has made at least two Ledger calls, so a row FAILED after a single call has none |
| `Outcomes.FailedButPaidIff` | services/payments/src/transfers/transfers.service.ts:264-336 | a step makes a row FAILED though its journal exists if and only if it writes a refusal while the journal is there, or posts the journal while the row is already FAILED |
| `Outcomes.FailedMeansUnpaidIff` | services/payments/src/transfers/transfers.service.ts:264-336 | FAILED means no journal in every state of a run if and only if no step of the run is of those two kinds |
| `Outcomes.GuardedFailedIsUnpaid` | services/payments/src/transfers/transfers.service.ts:313-336 | when FAILED is written only while the key has no record, no settle is owed and no call is unanswered at the Ledger, FAILED means no journal |
| `Outcomes.QuietIffNeverPaid` | services/payments/src/transfers/transfers.service.ts:264-336 | in any reachable state, a FAILED row whose transfer could be paid is FAILED and paid in no continuation at all if and only if that guard holds |
| `Outcomes.StatusChangesIff` | services/payments/src/transfers/transfers.service.ts:281-336 | in any state the status of a row that is not PROCESSING changes if and only if a different answer is written over it, and never back to PROCESSING |
| `Outcomes.FinalIff` | services/payments/src/transfers/transfers.service.ts:281-336 | a status other than PROCESSING stays to the end of a run if and only if no later answer of the run overwrites it |
| `Settlement.IntentUsedOnce` | services/payments/src/transfers/transfers.service.ts:396-468 | an intent is consumed if and only if a transfer uses it, and no two transfers use one intent |
| `Settlement.TransferHadLiveIntent` | services/payments/src/transfers/transfers.service.ts:410-415 | every transfer carries the terms of an intent that was authorized, and unexpired when checked |
| `Settlement.ConfirmAgain` | services/payments/src/transfers/transfers.service.ts:338-410 | confirming again with a used key gives the same transfer for the same intent and a conflict for any other, before and inside the transaction, and adds no row |
| `LostReply.FailedDespiteJournal` | services/ledger/src/transfers/customer-transfer.service.ts:106-120 | a reachable state with a FAILED row whose journal exists: the retry's balance check came before the replay |
| `LostReply.PaidAfterFailed` | services/ledger/src/transfers/customer-transfer.service.ts:42-115 | a reachable state with a FAILED row and no journal, from which the first settle's call, already past its checks, posts one |
| `LostReply.LateReplyBreaksLimit` | services/payments/src/transfers/transfers.service.ts:282-336 | a reachable state from which a late reply turns FAILED into COMPLETED and takes the day's sum over the limit |
| `LostReply.FittingReplyBreaksLimit` | services/payments/src/transfers/transfers.service.ts:282-336 | a reachable state in which the late reply's amount fits the day, and the insert of a confirm that had already summed it then breaks the limit |
| `DailyLimit.StepKeepsLimit` | services/payments/src/transfers/transfers.service.ts:396-468 | every step but a success written over FAILED keeps each sender within the limit on each day, and keeps room for every confirm past its check |
| `DailyLimit.ResurrectionKeepsLimitIff` | services/payments/src/transfers/transfers.service.ts:281-313 | a success written over FAILED keeps that invariant if and only if the row's amount fits the sender's day, alone and together with a confirm of that day past its check |
| `DailyLimit.LimitHoldsIff` | services/payments/src/transfers/transfers.service.ts:281-468 | for any number of concurrent confirms, settles and recoveries: the limit holds in every state of a run and after any next insert if and only if every success written over FAILED finds that room |
| `SettleAnswers.LiveWithinLimit` | services/payments/src/transfers/transfers.service.ts:416-432 | in such a run any PROCESSING, COMPLETED and REQUIRES_REVIEW transfers of one sender and one day sum to no more than the limit, in every state |
| `SettleAnswers.LimitRefusesIff` | services/payments/src/transfers/transfers.service.ts:416-432 | the check refuses if and only if the sender's PROCESSING, COMPLETED and REQUIRES_REVIEW transfers since the day and this amount exceed the limit |
| `DailyLimit.TerminalIsFinal` | services/payments/src/transfers/transfers.service.ts:576-638 | when no row is claimed, for retry or review, while a settle of it is outstanding, a row that is COMPLETED, FAILED or REQUIRES_REVIEW never changes again in any field |
| `DailyLimit.NoOverlapKeepsLimit` | services/payments/src/transfers/transfers.service.ts:396-432 | when no row is claimed, for retry or review, while a settle of it is outstanding, the daily limit holds in every state of the run |
| `Recovery.CallsNeverExceedAttempts` | services/payments/src/transfers/transfers.service.ts:576-638 | a transfer is claimed at most the configured number of times and makes at most that many Ledger calls |
| `Recovery.ClaimsRunOut` | services/payments/src/transfers/transfers.service.ts:594-636 | each claim strictly lowers the attempts left or ends in REQUIRES_REVIEW, and no step returns a row to PROCESSING |
| `TransferStore.TransferStore.ConfirmTransaction` | services/payments/src/transfers/transfers.service.ts:384-470 | the transaction's statements, lookups and aggregate included, end with the tables and the answer of the protocol's confirm steps taken alone |
| `TransferStore.TransferStore.Preflight` | services/payments/src/transfers/transfers.service.ts:342-372 | the statements before the transaction decide as the protocol's first confirm step: unauthorized, the same transfer, a conflict, or on to the risk gate |
| `TransferStore.TransferStore.Authorize` | services/payments/src/transfers/transfers.service.ts:239-262 | succeeds exactly for a live unconsumed intent, which it marks, or a consumed one whose transfer is the sender's, which it leaves |
| `TransferStore.TransferStore.Reserved` | services/payments/src/transfers/transfers.service.ts:416-432 | the aggregate loop computes the sum over the sender's counting rows of the day and later |
| `TransferStore.TransferStore.RecordAnswer` | services/payments/src/transfers/transfers.service.ts:281-336 | success completes the row with the journal, a refusal below 500 fails it with a safe code, anything else leaves it |
| `TransferStore.TransferStore.ClaimBatch` | services/payments/src/transfers/transfers.service.ts:576-636 | the claiming loop moves exactly the batch's rows, to review or to another attempt, as the protocol's recovery steps taken one after the other do, and answers those to settle again |
| `Base64Url.RoundTrip` | packages/sabcl/src/crypto/primitives.ts:28-50 | every non-empty byte string's encoding is canonical text of the expected length and decodes back to it |
| `Base64Url.EncodedByBits` | packages/sabcl/src/crypto/primitives.ts:28-29 | letter i of an encoding is the alphabet's letter at the number formed by bits 6i to 6i+5 of the bytes, most significant first, zero past the end |
| `Base64Url.AcceptedIffCanonical` | packages/sabcl/src/crypto/primitives.ts:38-50 | the accepted texts are exactly those over the alphabet, with no lone last character and no unused bit set, and each is the encoding of what it decodes to |
| `Base64Url.DecodeInjective` | packages/sabcl/src/crypto/primitives.ts:38-50 | no two accepted texts decode alike |
| `Bytes.Utf8Injective` | packages/sabcl/src/protocol/canonical.ts:17-27 | two texts with the same UTF-8 bytes are the same text |
| `Bytes.Utf8CharReads` | packages/sabcl/src/protocol/canonical.ts:17-27 | an encoded character's first byte announces its length, the others continue it, its payload bits spell its code point, and no shorter form would do |
| `Bytes.IntegersRead` | packages/sabcl/src/protocol/canonical.ts:20-37 | what the fixed-width writers write, read most significant byte first, is the number written |
| `Canonical.CanonicalEncode` | packages/sabcl/src/protocol/canonical.ts:17-27 | the loop's buffers concatenate to the length-prefixed encoding of all fields, or it fails on a field too long for its prefix |
| `Canonical.EncodedInjective` | packages/sabcl/src/protocol/canonical.ts:17-27 | field vectors of any counts encode alike if and only if they agree field by field |
| `Canonical.EncodedReads` | packages/sabcl/src/protocol/canonical.ts:17-27 | reading length prefix by length prefix gives the fields' bytes back in order |
| `Canonical.CanonicalUIntInjective` | packages/sabcl/src/protocol/canonical.ts:29-38 | different accepted integers have different eight-byte forms |
| `Envelope.RequestHeaderInjective` | packages/sabcl/src/protocol/envelope.ts:109-125 | the signed bytes of a request header determine every one of its eleven fields |
| `Envelope.ResponseHeaderInjective` | packages/sabcl/src/protocol/envelope.ts:128-138 | the signed bytes of a response header determine every field |
| `Envelope.HeadersApart` | packages/sabcl/src/protocol/envelope.ts:109-138 | no request header has the bytes of a response header |
| `Envelope.RequestHeaderReads` | packages/sabcl/src/protocol/envelope.ts:109-125 | a request's signed header reads back as version, message, route, sender, recipient, ephemeral key, issue, expiry, nonce, hops and padding, in that order |
| `Envelope.ResponseHeaderReads` | packages/sabcl/src/protocol/envelope.ts:128-138 | a response's signed header reads back as version, correlation, sender, nonce and padding, in that order |
| `Envelope.SigningInputReads` | packages/sabcl/src/protocol/seal.ts:153-156 | what is signed reads back as domain, header, ciphertext and tag |
| `Envelope.LeastBucket` | packages/sabcl/src/protocol/envelope.ts:147-153 | the bucket chosen is the least that holds the length, and there is one exactly up to 65536 bytes |
| `Padding.PadPayload` | packages/sabcl/src/protocol/padding.ts:17-32 | the buffer written in place is prefix, payload and zeros of the chosen bucket, or the error of the length |
| `Padding.UnpadPayload` | packages/sabcl/src/protocol/padding.ts:34-46 | reads the prefix and slices the payload, or refuses a prefix the buffer cannot hold |
| `Padding.PadRoundTrip` | packages/sabcl/src/protocol/padding.ts:17-46 | padding succeeds exactly up to 65532 bytes, in the least bucket, and unpads to the payload; 65533 to 65536 bytes fail in the bucket search |
| `Padding.UnpadInverts` | packages/sabcl/src/protocol/padding.ts:34-46 | a payload comes out exactly when the buffer begins with its length and its bytes, whatever fills the rest |
| `SealTheorems.SealSucceedsIff` | packages/sabcl/src/protocol/seal.ts:98-168 | sealing to a genuine key succeeds exactly for callers within the protocol's bounds, and then meets every field bound |
| `SealTheorems.SealThenOpen` | packages/sabcl/src/protocol/seal.ts:98-279 | a sealed request opens to its payload exactly from five seconds before issue until expiry, and is refused as expired outside |
| `SealTheorems.CiphertextLengthIsBucket` | packages/sabcl/src/protocol/seal.ts:122-168 | the ciphertext's length is a function of the bucket, the least one for the payload |
| `SealTheorems.SealRefusedAs` | packages/sabcl/src/protocol/seal.ts:98-124 | what sealing is refused with: lifetime and hops, revocation and expiry, size |
| `SealTheorems.AdmittedAs` | packages/sabcl/src/protocol/seal.ts:193-214 | the gate before any cryptography admits exactly this version, in its window, of a bounded life, for this key, from a live peer, each refusal with its code |
| `SealTheorems.BadSignatureRefused` | packages/sabcl/src/protocol/seal.ts:234-246 | a signature that does not verify over the request's own bytes is refused as such, before anything is decrypted |
| `SealTheorems.DecryptRefusedAs` | packages/sabcl/src/protocol/seal.ts:247-262 | past the signature, which failures read as malformed and which are the one indistinguishable decryption failure |
| `Authenticity.ReplySucceedsIff` | packages/sabcl/src/protocol/seal.ts:297-327 | sealing a reply succeeds exactly within the payload, correlation and key identifier bounds |
| `Authenticity.ReplyThenOpen` | packages/sabcl/src/protocol/seal.ts:297-390 | a sealed reply opens to its payload for the request it answers, and is refused for any other |
| `Authenticity.Exchange` | packages/sabcl/src/protocol/seal.ts:98-390 | a whole exchange returns both payloads: the request opens in its window and the reply sealed with what came out opens at the sender |
| `Authenticity.KeyInfosApart` | packages/sabcl/src/protocol/seal.ts:144-150 | a request's key and a response's are derived from different inputs whatever headers they are bound to |
| `Authenticity.RequestMessageBinds` | packages/sabcl/src/protocol/seal.ts:208-246 | the bytes a request signature covers determine the header, ciphertext and tag strings |
| `Authenticity.SignaturesApart` | packages/sabcl/src/protocol/seal.ts:154-157 | no response signature covers the bytes of a request |
| `Authenticity.RequestAuthentic` | packages/sabcl/src/protocol/seal.ts:187-279 | an accepted request was sealed by the named sender for this recipient's key with the same header, ciphertext and tag strings |
| `Authenticity.AuthenticPayload` | packages/sabcl/src/protocol/seal.ts:247-279 | what comes out of an accepted request is the payload and the secret that were sealed |
| `Authenticity.ResponseAuthentic` | packages/sabcl/src/protocol/seal.ts:339-390 | an accepted response was sealed by the expected responder for this request, and yields the sealed payload |
| `Authenticity.AssumptionsCanBeMet` | packages/sabcl/src/crypto/primitives.ts:76-168 | the laws and the unforgeability assumed of the primitives can hold together while a sealed request travels and is accepted |
| `Keyring.LoadPeers` | packages/sabcl/src/crypto/keyring.ts:160-173 | the constructor's loop accepts exactly lists of distinct key identifiers and then finds each by its identifier |
| `Keyring.ActivePeerIsHighestLive` | packages/sabcl/src/crypto/keyring.ts:196-213 | the key addressed is a live key of the service of the highest version, and there is one unless none is live |
| `Keyring.EveryLiveKeyAccepted` | packages/sabcl/src/crypto/keyring.ts:176-213 | every live configured key is accepted, the active one included, and no other |
| `Keyring.PeerCodes` | packages/sabcl/src/crypto/keyring.ts:176-188 | an unknown identifier and a key that is revoked or past its time are told apart, exactly |
| `Keyring.VersionReads` | packages/sabcl/src/crypto/keyring.ts:61-63 | the version of a key identifier is the number after its last version mark |
| `Keyring.RotationPartitions` | packages/sabcl/src/crypto/keyring.ts:221-255 | accepted and revoked keys of a service are sorted, disjoint and cover it; the active key is an accepted one and is absent exactly when none is accepted |
| `Replay.InMemoryReplayStore.Remember` | packages/sabcl/src/replay/replay-store.ts:34-43 | the sweep removes exactly the expired entries, and the claim is won exactly by an identifier not held |
| `Replay.WonOnce` | packages/sabcl/src/server/sabcl-recipient.ts:88-95 | on a clock that does not run backwards an identifier is claimed twice only by messages of strictly later expiry |
| `Recipient.SabclRecipient.Handle` | packages/sabcl/src/server/sabcl-recipient.ts:68-118 | the handler leaves the replay state and gives the outcome of the specification: open, claim, validate, check, dispatch with body and actor, reply |
| `Recipient.DispatchedAtMostOnce` | packages/sabcl/src/server/sabcl-recipient.ts:68-118 | over any run of redeliveries two dispatches under one identifier carry strictly increasing expiries, so no envelope is dispatched twice |
| `Recipient.DispatchHasAct` | packages/sabcl/src/server/sabcl-recipient.ts:78-105 | every dispatch goes back to a sealing by the named peer of that very header, ciphertext and tag |
| `Recipient.OneDispatchPerSealing` | packages/sabcl/src/server/sabcl-recipient.ts:78-105 | no act of sealing leads to two dispatches, even under different signature strings |
| `Recipient.SealedIsDispatched` | packages/sabcl/src/server/sabcl-recipient.ts:68-118 | a genuine request in its window, unseen and permitted, is dispatched as it was sealed |
| `Recipient.ReplyReachesSender` | packages/sabcl/src/server/sabcl-recipient.ts:78-118 | the reply to a genuine, permitted, unseen request opens at its sender, under that request's identifier and secret, to exactly what the service answered |
| `Recipient.RejectedAs` | packages/sabcl/src/server/sabcl-recipient.ts:68-122 | what a message that is not dispatched is told, in the order of the checks |
| `Recipient.LetThroughIff` | packages/sabcl/src/server/sabcl-recipient.ts:127-148 | a request is let through if and only if the first capability serving its operation permits its method and path and the decoded path holds neither two dots nor a backslash; every failure has one code |
| `Recipient.OnlyPermittedDispatched` | packages/sabcl/src/server/sabcl-recipient.ts:127-148 | only authenticated messages touch the replay state, and only requests that a capability serves, without path traversal, are dispatched |
| `RouteTable.SabclRouteTable.Load` | packages/sabcl/src/protocol/route-token.ts:84-106 | the constructor's loop accepts exactly non-empty lists of well-formed routes with distinct tokens and a long enough secret, and fills the table with them |
| `RouteTable.SabclRouteTable.Resolve` | packages/sabcl/src/protocol/route-token.ts:115-137 | the loop that always runs to completion over decoded tokens answers as a plain lookup of a live token |
| `Router.RouterService.Route` | services/sabcl-router/src/routing/router.service.ts:62-150 | the router leaves its rate and replay state and answers as the specification of its gates says |
| `Router.ForwardedAtMostOnce` | services/sabcl-router/src/routing/router.service.ts:100-115 | over any run of arrivals the router forwards no message twice, and what it forwards goes only to a live route of its table |
| `Router.RateRefusesIff` | services/sabcl-router/src/routing/router.service.ts:93-98 | over any run on a forward clock a message past the stateless gates is refused for rate if and only if more than the limit of its sender's such messages, itself included, have arrived in the current window of 60 seconds; beyond the limit neither route nor claim is touched |
| `Router.GateRefusesAs` | services/sabcl-router/src/routing/router.service.ts:69-92 | the stateless gates, in their order, with their codes |
| `Router.RelayedAs` | services/sabcl-router/src/routing/router.service.ts:152-189 | what comes back is the destination's own well-formed response, a protocol code it gave, or unavailability |
| `Router.SealedPassesGate` | services/sabcl-router/src/routing/router.service.ts:70-95 | what a known sender seals within the bounds passes the stateless gates exactly while a recipient would open it |
| `Decimal.ParseSerialize` | services/ledger/src/money/money.ts:12-21 | a printed amount parses back to itself exactly when it has at most 24 digits |
| `Decimal.SerializeParse` | services/ledger/src/money/money.ts:12-21 | every accepted text prints back to itself except "-0" |
| `Decimal.MinusZeroAccepted` | services/ledger/src/money/money.ts:12-18 | "-0" is accepted, as zero |
| `MoneyText.GroupsOfThree` | packages/contracts/src/accounts/v1.ts:453-469 | the replacement walk puts the commas so that groups after the first have three digits |
| `MoneyText.FormatRoundTrip` | packages/contracts/src/accounts/v1.ts:453-469 | a positive amount of any length, formatted and stripped of commas, converts back to the same minor units |
| `MoneyText.FormatMeans` | packages/contracts/src/accounts/v1.ts:453-469 | the text of n minor units is n divided by a hundred in groups of three, a point and the last two digits of n; a minus in front stays in front |
| `MoneyText.ConvertsExactly` | packages/contracts/src/payments/v1.ts:18-37 | an accepted amount converts to the canonical text of exactly a hundred times its value, and among well-formed amounts exactly those worth zero are refused |
| `Transactions.History` | services/ledger/src/transactions/transaction.service.ts:112-165 | the walk gives every entry the sum of all postings up to it as its balance |
| `Transactions.LastBalanceIsProjection` | services/ledger/src/transactions/transaction.service.ts:132-165 | in every safe ledger the last balance of a wallet's history is the balance its projection reports |
| `Transactions.ShownAs` | services/ledger/src/transactions/transaction.service.ts:132-165 | an entry shows its posting's amount, dates and direction, and as balance the credits less debits up to and with it |
| `Transactions.ShownAgainIff` | services/ledger/src/transactions/transaction.service.ts:112-165 | after one more posting is recorded, an entry already shown keeps its balance and all else if and only if the new posting sorts after it by creation time and identifier |
| `Transactions.SortedOrders` | services/ledger/src/transactions/transaction.service.ts:179-195 | the listing is the matching entries, each as often as it occurs, newest first |
| `Transactions.ListedIff` | services/ledger/src/transactions/transaction.service.ts:177-190 | an entry is listed if and only if its posting has the direction and category asked for and took effect within the dates, both inclusive |
| `Transactions.PagingVisitsAll` | services/ledger/src/transactions/transaction.service.ts:167-219 | following the cursor to null, with changing page sizes and newer postings arriving, shows the original list once, in order, and ends |
| `TransactionPaging.PagingSurvivesInserts` | services/ledger/src/transactions/transaction.service.ts:167-219 | with postings arriving anywhere in the order between the calls, no cursor is refused, the walk ends, and every entry of the original list is shown once and in order, its balance apart |
| `Transactions.CursorRefusedIff` | services/ledger/src/transactions/transaction.service.ts:196-206 | a cursor is refused exactly when the query changed or its entry is not listed |
| `TransferList.ShowsAllIff` | services/payments/src/transfers/transfers.service.ts:476-557 | over calls that each query again while rows arrive, a walk that ends shows every facing row of the first list, once and in order, if and only if at each call those that sort after the cursor are among that call's newest 500; nothing is shown twice or out of order |
| `TransferList.ShownEnds` | services/payments/src/transfers/transfers.service.ts:476-557 | a walk ends within as many calls as the last of them finds rows |
| `TransferList.PageFaces` | services/payments/src/transfers/transfers.service.ts:518-524 | a page holds rows its query read, of the direction asked for: sent by the customer, received, or either |
| `TransferList.WalkShowsTaken` | services/payments/src/transfers/transfers.service.ts:476-557 | when nothing arrives between the calls, the facing rows among the newest 500 are shown, once and in order |
| `TransferList.CompleteIff` | services/payments/src/transfers/transfers.service.ts:476-557 | when nothing arrives between the calls, a walk shows everything asked for if and only if no row past the newest 500 is asked for |
| `TransferList.OldestOf501Missed` | services/payments/src/transfers/transfers.service.ts:504-529 | of 501 facing rows, nothing arriving, the oldest is never shown, however the pages are sized |
| `TransferList.ArrivalHidesOldest` | services/payments/src/transfers/transfers.service.ts:504-529 | of 500 facing rows, a newer one arriving after the first page, the oldest is never shown and the walk still ends with a null cursor |

## Left out

- Hashes (`canonicalRequestHash`, `sha256`) are treated as collision-free: the model compares what is hashed.
- HTTP, Nest modules, Prisma, Redis plumbing, logging, audit counters and health checks are input and output only.
- The risk gate is a nondeterministic step that may refuse a confirm; scoring, controls and incidents are not modelled.
- Instants are integers that only grow; one confirm uses one UTC day, although the lock and the aggregate read the clock separately.
- The recovery query's batch, staleness and SKIP LOCKED are over-approximated: any PROCESSING row may be claimed at any time, row by row.
- Amounts are unbounded integers; the BIGINT width of the columns is not modelled.
- Posting identifiers, balances after a transfer, masked references and display data are not part of the transfer result.
- Default account provisioning is modelled only as opening a wallet with fresh identifiers at zero.
- `confirm`, `settle` and `recover` are protocol steps, because their interleaving is the point; `TransferStore` has their statements run alone.
- TransferStore.TransferStore.RecordAnswer: does not record posting identifiers and balances after, because the modelled journal result carries neither.
- A duplicate journal reference that the error names surfaces as an unhandled database error, with a status the model leaves open.
- A ledger account is not opened while a transaction that names it is taking row locks; accounts are opened at registration, before their identifier is known to callers.
- Other callers of the Ledger use keys that do not begin with "transfer:", as the source's other channels do.
- A settle's metadata and reference are carried in the hashed payload but have no further meaning in the model.
- The internals of the cryptographic primitives, key import and JSON are idealised: laws, and an abstract parse that undoes printing.
- Strings are sequences of Unicode scalar values; lone UTF-16 surrogates, which encode as a replacement character, are not modelled.
- Lenient decoding of base64 text passes over foreign characters; how Node treats padding signs inside it does not affect what is accepted.
- Key versions beyond 2^53 compare exactly in the model; in the source they are rounded numbers.
- `new URL` on a route's destination is modelled by its scheme prefix; a destination that is no URL at all is not distinguished.
- The router's clock is read once per message, and the window counter and replay claim are those of one store.
- Creating an intent does not check that the two wallets are active: a wallet may be frozen between the preview and the insert, so the model allows more.
- Instants and identifiers are ordered as numbers and by character, where the transaction sort compares their texts with `localeCompare`.
- A transfer whose status changes between two pages leaves a list filtered by status; the model of that list only lets rows arrive.
- The HTTP status that each protocol code is answered with (`statusForCode`) is not modelled.
- Paging cursors are values; their JSON and base64 text, and the check of its shape, are not modelled.
- Expiry, hop and rate bounds follow the code; `hl` is never decremented by the router, and the recipient selects a capability by operation, not by route token.
- The web application, identity, agent, QR and USSD channels, recovery drills and backups are outside the model.
