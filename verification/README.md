# SatsPay: a verified model of its hard parts

SatsPay is a custodial wallet and payment service. This project models, in Dafny 4.11, the parts of it in which
a mistake costs money, a session or a report, and proves what those parts are for:

* **Address and mnemonic codecs** of the master wallet script: bech32 with its BCH checksum, base58check and
  BIP-39 phrases, each with the decoder of its standard beside it.
* **The session protocol** of the web client: any number of concurrent `api()` calls and bootstraps share one
  token refresh. A state machine in which code is atomic between two awaits, and waiters resume before the next
  network event.
* **The custodial ledger** of the backend: deposits that a chain reorganisation may take away, withdrawals that
  several workers broadcast and may crash over, the queue of their jobs, one append-only table of entries. A database
  transaction is one step; a job is several.
* **The error reporter** of the client: throttle, queue, flush timer, breadcrumbs.
* **Amounts**: the decimal parser and the printers whose texts it reads back.
* **The OAuth popup**: a message listener and a polling timer race for one callback.
* **Ledger folds**: the merged activity rows, the treasury table, the analytics series.

`dafny verify dfyconfig.toml` checks everything. Every lemma carries `{:induction false}`: all induction is
written out.

## How the files depend on each other

| layer | files |
|---|---|
| arithmetic and folds | `Wrappers`, `Numerals`, `Sums`, `Grouping`, `Hashing` |
| codecs | `ShiftRegister` (a linear feedback register over GF(2), for any round function) → `Bech32Checksum` → `Regroup` → `Bech32` → `Bech32Reference` (polynomial division over GF(32)); `Base58`; `Mnemonic` |
| protocols | `Session`; `Custody` → `CustodyInvariant` → `CustodyRuns` → `CustodyQueue`, `CustodyDeposits` → `CustodyEndings`; `Reporter`; `Popup` |
| money | `Amounts` → `AmountPrinters`; `LedgerRows`; `Treasury`; `Analytics` |

## What turned out not to hold

Each has a lemma with a run or an input that shows it, and a lemma with the exact condition under which the code
does meet the property.

* `bootstrapSession` clears the stored identity when its refresh fails with a gateway or network error, although
  the refresh itself is written to keep the session then. Run: `Session.BootstrapClearsOnGatewayError`.
* So do the two identity probes of the layout: they force a new login on every 401, also on the one that `api()`
  throws when its refresh failed for such a reason. Run: `Session.ProbeClearsOnGatewayError`. Exactly when a step
  of this client takes an identity away: `Session.LossCauses`. Runs without bootstraps, rejected probes and logouts
  lose a session on definitive evidence only: `Session.LostOnlyOnEvidence`.
* A token can exist without an identity: a refresh gives both stores its token even if everybody has logged out
  meanwhile, a revocation of other sessions stores its new token in the same way, and the logout of one store leaves
  the other's token. Runs: `Session.LogoutUndoneExample`, `Session.TokenAloneExample`. Exactly these three steps lead
  there: `Session.NamelessCauses`.
* Not every withdrawal can come to an end. It can, exactly if it is not stuck (`CustodyEndings.CanEndIffNotStuck`).
  It is stuck at BROADCASTING when no worker is on it but one whose refund the wallet's hold refuses, and at
  BROADCASTED when no worker is on it and no job names it: jobs are made for queued and approved withdrawals only,
  and a job whose worker died is never taken again. Runs: a worker dies after its claim
  (`CustodyEndings.CrashedWorkerExample`) or after it stored the hash (`CustodyEndings.UnconfirmedExample`: the money
  has left and the withdrawal is never confirmed); a refund meets a hold (`CustodyEndings.RefundOnHoldExample`).
  The ledger refuses a refund exactly while its wallet is on hold (`CustodyInvariant.RefundEffect`).
* `reconcile_deposit`, the only function that puts a wallet on hold or takes a deposit back, is called by tests
  only: the deposit watcher just credits. With it, a deposit that was credited, lost in a reorganisation and
  confirmed again is never credited again, because the unique index refuses the second entry (run:
  `CustodyDeposits.ReturnedDepositExample`; always: `CustodyDeposits.ReturnedDepositStaysUncredited`). In the
  service as it is wired no wallet is ever on hold (`CustodyDeposits.WatchedIsCalm`), every refund takes effect
  (`CustodyDeposits.WatchedRefunds`), a withdrawal is stuck exactly if no worker is past its claim and it is at
  BROADCASTING, or at BROADCASTED with no job that names it (`CustodyEndings.WatchedCanEnd`), and a deposit that a
  reorganisation removes keeps its credit for good (`CustodyDeposits.WatchedCreditIsForGood`).
* An address is decodable only for programs of 20 or 32 bytes, a human-readable part without upper-case letters
  and at most 90 characters (`Bech32.AddressRoundTrip`). Input: any program of 21 bytes
  (`Bech32.UndecodableExample`).
* `parseHumanAmount` answers zero for amounts that overflow a double (`Amounts.ParseIsExactIffFinite`). Input: a one
  and 342 zeros (`AmountPrinters.OverflowExample` with `AmountPrinters.DoublesEnd`).
* `formatBnbWei` and `formatAmount` print texts that stand for their value exactly if it is not negative and fits a
  double (`AmountPrinters.BnbPrintParse`, `AmountPrinters.AmountPrintParse`). Inputs: minus one, and the first
  amount that overflows (`AmountPrinters.PrintersExample`). A negative amount may have its minus sign, or a second one,
  behind the point: `AmountPrinters.BnbOfNegative`, `AmountPrinters.AmountOfNegative`.
* A sign-in that succeeded is reported as abandoned if a poll tick sees the closed popup before the message is
  delivered. Schedule: `Popup.CloseBeatsSuccess`; exact condition: `Popup.SuccessIsReported`.
* Different errors can share one throttle if an endpoint contains a colon (`Reporter.SharedKeyExample`); without
  colons the key tells them apart (`Reporter.SameKeyIff`).
* A comment in `crates/api-http/src/admin.rs:504` says that enqueuing the same payload twice is harmless because it is
  deduplicated. The queue has no such rule; the model follows the code, and each announcement adds a job
  (`CustodyQueue.AnnouncedIsEnqueued`). What keeps a withdrawal from being sent twice is the claim
  (`CustodyRuns.SentIsNeverRefunded`).
* The merged activity list drops an entry exactly if it is not a merged fee itself and has the id of an earlier one
  (`LedgerRows.Merge`; list: `LedgerRows.ClashExample`), and its totals hide positive fees
  (`LedgerRows.TotalsAccount`; row: `LedgerRows.PositiveFeeExample`).
* Hiding treasury rows changes a total exactly if a hidden row is negative in it (`Treasury.HidingKeepsTotals`; row:
  `Treasury.NegativeRowExample`).

## Model

| member | source | states |
|---|---|---|
| ShiftRegister.RunLinear | scripts/generate_master_wallet.py:103-111 | Over value sequences of any length, the register of the XOR of two inputs is the XOR of the registers, if one round is linear. |
| ShiftRegister.RunInjective | scripts/generate_master_wallet.py:103-111 | Different registers stay different through any common continuation, if one round is injective. |
| ShiftRegister.RunFills | scripts/generate_master_wallet.py:103-111 | From the zero register up to six five-bit symbols are simply shifted in, so they can be read back. |
| ShiftRegister.BurstChangesRegister | scripts/generate_master_wallet.py:103-111 | Two inputs that differ only within at most six consecutive symbols end in different registers, whatever follows. |
| ShiftRegister.ChecksumReachesTarget | scripts/generate_master_wallet.py:116-117 | Appending the six pieces of (register after six zeros) XOR target drives the register exactly to the target. |
| Bech32Checksum.StepXor | scripts/generate_master_wallet.py:106-110 | One round of `bech32_polymod` is linear in register and symbol, for every generator table. |
| Bech32Checksum.GeneratorsIndependent | scripts/generate_master_wallet.py:104 | No non-empty XOR of the five BIP-173 generators has its lowest five bits zero. |
| Bech32Checksum.StepInjective | scripts/generate_master_wallet.py:106-110 | With such generators the round is injective in the register. |
| Bech32Checksum.FoldGenerators | scripts/generate_master_wallet.py:109-110 | The inner integer loop XORs exactly the generators whose bit is set, as the bit-vector feedback does. |
| Bech32Checksum.Polymod | scripts/generate_master_wallet.py:103-111 | The integer loop with shifts, masks and XOR refines the bit-vector register and stays below 2^30, for every value sequence. |
| Regroup.RegroupRoundTrip | scripts/generate_master_wallet.py:89-100 | The BIP-173 regrouping to bytes accepts the zero-padded symbols and gives back the bytes. |
| Regroup.RegroupUnique | scripts/generate_master_wallet.py:89-100 | No other symbol sequence regroups to the same bytes. |
| Regroup.Drain | scripts/generate_master_wallet.py:96-98 | The inner loop emits the next symbols of an accumulator that is never masked and leaves fewer than five bits. |
| Regroup.ConvertBits | scripts/generate_master_wallet.py:89-100 | The loop emits version 0 and exactly the big-endian regrouping into ceil(8n/5) symbols with zero padding, for every byte string. |
| Bech32.ChecksumVerifies | scripts/generate_master_wallet.py:102-118 | The BIP-173 verification accepts the data part with the script's checksum, for every human-readable part and data. |
| Bech32.BurstDetected | scripts/generate_master_wallet.py:103-117 | Changing symbols within any window of six consecutive ones makes verification fail, at any length. |
| Bech32.ChecksumUnique | scripts/generate_master_wallet.py:116-117 | The six checksum symbols are the only ones that verify. |
| Bech32.AddressRoundTrip | scripts/generate_master_wallet.py:86-118 | The BIP-173 segwit decoder returns (hrp, version 0, program) for exactly the acceptable inputs and rejects the script's output for all others. |
| Bech32.UndecodableExample | scripts/generate_master_wallet.py:86-118 | A program of 21 bytes is encoded, and the decoder rejects the result. |
| Bech32.AddressUnique | scripts/generate_master_wallet.py:86-118 | Every string that decodes to version 0 is the script's address of what it decodes to. |
| Bech32.CreateChecksum | scripts/generate_master_wallet.py:113-117 | The shifts and masks of the script yield the checksum symbols cut from the register. |
| Bech32.EncodeBech32 | scripts/generate_master_wallet.py:86-118 | The imperative encoder produces the specified address, to which the round trip and the checksum results apply. |
| Bech32.HrpReadsBack | scripts/generate_master_wallet.py:113-114 | In the expansion the high bits of every character come first, then a zero, then the low five bits, and every character can be read back. |
| Bech32.HrpInjective | scripts/generate_master_wallet.py:113-114 | Different human-readable parts have different expansions. |
| Bech32Reference.GeneratorsAreMultiples | scripts/generate_master_wallet.py:104 | The five constants of the script are the BCH generator of BIP-173 over GF(32), multiplied by 1, by the root, and so on: six coefficients each. |
| Bech32Reference.RoundIsReduction | scripts/generate_master_wallet.py:106-110 | One round is multiplication by x, addition of the value, and reduction by that generator. |
| Bech32Reference.VerifiesIffRemainderIsOne | scripts/generate_master_wallet.py:103-116 | A checksum verifies exactly if polynomial division over GF(32) of the expanded string by the generator leaves the remainder 1. |
| Bech32Reference.VectorValues | scripts/generate_master_wallet.py:113-118 | The valid string "a12uel5l" of BIP-173 has the nine values that the standard vector divides. |
| Bech32Reference.ScriptVector | scripts/generate_master_wallet.py:103-116 | With the constants of the script, that string verifies. |
| Base58.AlphabetSpelled | scripts/generate_master_wallet.py:68 | The digit characters are the script's alphabet, letter by letter. |
| Base58.RebaseRoundTrip | scripts/generate_master_wallet.py:73-84 | Changing the base of a digit string keeps leading zeros and is undone by changing it back, between any two bases. |
| Base58.DecodeIffEncoded | scripts/generate_master_wallet.py:67-84 | Base58check decoding accepts exactly the texts the script produces and returns what they were made from, including all-zero data. |
| Base58.EncodedInjective | scripts/generate_master_wallet.py:67-84 | With prefixes of one length, equal texts come from equal prefixes and payloads, for any hash function. |
| Base58.DivmodLoop | scripts/generate_master_wallet.py:73-77 | The divmod loop terminates and yields the base-58 numeral without leading zeros. |
| Base58.PrependOnes | scripts/generate_master_wallet.py:79-84 | One "1" is put in front for each leading zero byte and no more. |
| Base58.Base58Check | scripts/generate_master_wallet.py:67-84 | The imperative encoder produces the specified text. |
| Base58.TextEndsInDigest | scripts/generate_master_wallet.py:67-84 | Read back in base 256, the text is prefix and payload followed by the first four bytes of the digest of their digest. |
| Mnemonic.ExpandOfChunks | scripts/generate_master_wallet.py:24-30 | Cutting a bit string into numbers of any width and expanding them again gives the bit string. |
| Mnemonic.ChunksOfExpand | scripts/generate_master_wallet.py:24-30 | Expanding numbers to bits of any width and cutting again gives the numbers. |
| Mnemonic.IndicesBelow | scripts/generate_master_wallet.py:28-30 | All twelve word indices are below 2048. |
| Mnemonic.Generate | scripts/generate_master_wallet.py:16-32 | The loop over eleven-bit slices produces the specified phrase. |
| Mnemonic.PhraseIsValid | scripts/generate_master_wallet.py:16-32 | The BIP-39 validator accepts the phrase of every 16-byte entropy, with any hash, and returns the entropy. |
| Mnemonic.ValidIffGenerated | scripts/generate_master_wallet.py:16-32 | A phrase validates to an entropy exactly if it is the phrase generated from it. |
| Mnemonic.LastWordHasChecksum | scripts/generate_master_wallet.py:19-30 | The last four bits of the twelfth word index are the upper half of the first byte of the hash. |
| Mnemonic.PhraseHasEntropy | scripts/generate_master_wallet.py:24 | The first 128 bits of the phrase are the bytes of the entropy, in order. |
| Session.StepKeeps | client/src/lib/api.ts:196-330 | Every step of every actor keeps the protocol's invariant. |
| Session.OneRefreshAtATime | client/src/lib/api.ts:196-239 | In every run at most one refresh is outstanding, and `refreshInFlight` is set exactly while one is. |
| Session.JoinedCallersAgree | client/src/lib/api.ts:314-325 | All callers that joined a refresh act on its one result, and the denied flag they read describes the refresh they awaited. |
| Session.RetryUsesFreshToken | client/src/lib/api.ts:316-319 | A retry is sent with both stores holding the token of the awaited refresh. |
| Session.CallsAreBounded | client/src/lib/api.ts:314-330 | A call sends at most two requests, the second only after a refresh, and awaits at most one refresh. |
| Session.CallsTerminate | client/src/lib/api.ts:268-330 | No run contains more than five steps of one call, on a measure that each of its steps decreases. |
| Session.BootstrapOutcome | client/src/lib/api.ts:245-266 | `bootstrapSession` returns true only with a token in memory and false only when neither store holds an identity. |
| Session.CallReportsAnswer | client/src/lib/api.ts:268-350 | Over every run, a finished call reports the last answer it got: success exactly for 2xx, unreachable for a network error, a refused session for a 401 unless it skips authentication, and the status itself for every other answer. |
| Session.NoContentEndsCall | client/src/lib/api.ts:309 | A 204 ends a call with success before any body is read. |
| Session.ProbeActsIff | client/src/App.tsx:111-121 | Over every run, a probe forces a new login exactly if its last answer was a 401 or a 403. |
| Session.RefreshGivesToken | client/src/lib/api.ts:207-239 | Over every run, a settled refresh gives its callers the token that was read from its answer, and counts as refused exactly if the answer was a refusal. |
| Session.RefusalLogsOut | client/src/lib/api.ts:209-219 | A refresh answered 401 or 403 logs both stores out; any other answer leaves them alone. |
| Session.BootBegins | client/src/lib/api.ts:245-253 | A bootstrap answers at once with a token, or without an identity; otherwise it waits for the one refresh. |
| Session.BootEndsAs | client/src/lib/api.ts:253-265 | A bootstrap that waited answers true exactly if its refresh gave a token. |
| Session.TokenIsLatest | client/src/stores/auth.ts:29-40 | Over every run, each store holds the token issued to it last, unless a logout or the end of the session emptied it since. |
| Session.LossCauses | client/src/App.tsx:111-121 | A step takes an identity away exactly if there was one and it is a definitive answer, a bootstrap that gives up, a rejected probe, or the logout of that store by its user. |
| Session.SessionLossCauses | client/src/lib/api.ts:209-233 | So it is at every step of every run, and the first three leave no identity in either store. |
| Session.LostOnlyOnEvidence | client/src/lib/api.ts:314-330 | Over runs of `api()` calls without rejected probes, a session that disappeared was refused on refresh, or a request retried after a successful refresh was again answered 401. |
| Session.BootstrapClearsOnGatewayError | client/src/lib/api.ts:253-264 | A run in which one gateway error during bootstrap clears the identity without any refusal. |
| Session.ProbeClearsOnGatewayError | client/src/components/AppLayout.tsx:58-67 | A run in which one gateway error while a probe refreshes clears the identity without any refusal. |
| Session.NamelessCauses | client/src/stores/auth.ts:29-40 | A step leads to a token without an identity exactly if it is a refresh that lands after all logouts, a token stored on its own after all logouts, or the logout of the last identity while the other store keeps a token. |
| Session.NamelessHasCause | client/src/lib/api.ts:226-228 | In a run that starts without such a token, one of these three steps came before it. |
| Session.LogoutUndoneExample | client/src/lib/api.ts:245-253 | A run in which a logout during a refresh is undone, and the next bootstrap answers true without a user. |
| Session.TokenAloneExample | client/src/pages/SettingsPage.tsx:160-165 | A run in which a logout precedes the new token of a revocation, and the next bootstrap answers true without a user. |
| CustodyInvariant.RequestEffect | crates/db/src/withdrawals.rs:101-226 | A request either changes nothing or adds one row and its debits, and only with the balance to cover amount and fee. |
| CustodyInvariant.RequestSucceedsIff | crates/db/src/withdrawals.rs:101-226 | A request succeeds exactly if address and amount are in order, the key is new, the wallet is known and not on hold, and the balance covers amount and fee. |
| CustodyInvariant.RefundEffect | crates/db/src/ledger.rs:94-130 | A refund of a live withdrawal takes effect exactly if its wallet is not on hold. |
| CustodyInvariant.CreditEffect | crates/db/src/deposits.rs:99-190 | What crediting amounts to in every case: a deposit is credited at most once, at the threshold, and only if the wallet is not on hold. |
| CustodyDeposits.ReconcileSettles | crates/db/src/deposits.rs:197-280 | A credited output that is gone costs its owner exactly its amount if the balance covers it and puts the wallet on hold if not; no other wallet pays, and in every other case no money moves. |
| CustodyDeposits.ReconcileOnce | crates/db/src/deposits.rs:225-227 | Reconciling a loss again, with whatever confirmations, changes nothing. |
| CustodyInvariant.StepKeeps | crates/db/src/withdrawals.rs:232-368 | Every transaction, step of the queue, broadcast step, error and crash keeps the books, the exclusive claim of each worker and every balance. |
| CustodyRuns.BalanceIsAccountedFor | crates/db/src/ledger.rs:78-130 | In every run no wallet is overdrawn, and each balance is credits less reversals less live withdrawals. |
| CustodyRuns.PayoutsAreCovered | crates/db/src/withdrawals.rs:232-368 | What left the hot wallet for a user plus what the user can still spend never exceeds what was credited, over all crashes and races. |
| CustodyRuns.SentIsNeverRefunded | crates/db/src/withdrawals.rs:232-368 | A withdrawal is sent at most once, and once sent it is never refunded, then or later. |
| CustodyRuns.RefundedExactlyOnce | crates/db/src/admin.rs:1430-1462 | A failed or cancelled withdrawal was never sent and has exactly one refund, of amount and fee. |
| CustodyRuns.OnlyDocumentedTransitions | crates/db/src/withdrawals.rs:3-10 | No run leaves the documented state machine, although the worker's later updates do not check the status. |
| CustodyRuns.RequestIsIdempotent | crates/db/src/withdrawals.rs:101-226 | A repeated idempotency key returns the first withdrawal and changes nothing, at any later time. |
| CustodyQueue.RejectionSettles | crates/db/src/admin.rs:1430-1462 | A rejection cancels a withdrawal that awaits approval and gives amount and fee back to its wallet and to no other, unless the wallet is on hold; in every other case nothing changes. |
| CustodyQueue.ApprovalSettles | crates/api-http/src/admin.rs:501-507 | An approval moves no money, makes a withdrawal that awaited it eligible and announces one job for it; in every other case nothing changes. |
| CustodyQueue.RequestAnnounces | crates/api-http/src/withdrawals.rs:178-183 | A new withdrawal awaits approval from the threshold on; below it, it is queued and one job is announced. |
| CustodyQueue.AnnouncedIsEnqueued | crates/queue/src/lib.rs:34-41 | What is announced becomes exactly one more pending job, never tried before, whatever jobs there are, or is lost. |
| CustodyQueue.RetriedOrParked | crates/queue/src/lib.rs:47-120 | A job that is taken and fails is pending again with one attempt more while attempts remain, and otherwise gone. |
| CustodyQueue.AttemptsAreBounded | crates/queue/src/lib.rs:47-120 | Over every run with any number of workers, failures and crashes: each job added for a withdrawal is taken at most once per attempt, and never beyond the limit. |
| CustodyEndings.CanEndIffNotStuck | crates/worker/src/withdrawal_reconciler.rs:18-66 | In every run with a worker, a withdrawal can still be confirmed, failed or cancelled exactly if it is not stuck: at BROADCASTING with no worker but one that holds a refund for a wallet on hold, or at BROADCASTED with no worker on it and no job that names it. |
| CustodyEndings.StuckInRun | crates/queue/src/lib.rs:48-113 | What is stuck stays so at every later time of the run, whatever jobs are taken, fail, are parked or are added. |
| CustodyEndings.AbandonedStays | crates/db/src/withdrawals.rs:8-10 | A withdrawal at BROADCASTING with no worker past its claim stays so for ever. |
| CustodyEndings.CrashedWorkerExample | crates/db/src/withdrawals.rs:232-268 | A run in which a worker dies after its claim: all of a deposit is held, nothing was sent, and the withdrawal cannot end. |
| CustodyEndings.UnconfirmedExample | crates/db/src/withdrawals.rs:393-401 | A run in which a worker dies after it stored the hash: the money was sent, and the withdrawal is never confirmed. |
| CustodyEndings.RefundOnHoldExample | crates/db/src/withdrawals.rs:271-291 | A run in which a safely refused broadcast cannot be refunded because the wallet went on hold: nothing was sent, and the withdrawal cannot end. |
| CustodyEndings.WatchedCanEnd | crates/worker/src/deposit_watcher.rs:40-51 | Without reconciliations a withdrawal can end unless no worker is past its claim and it is at BROADCASTING, or at BROADCASTED with no job that names it. |
| CustodyRuns.RowsPersistInRun | crates/db/src/withdrawals.rs:101-226 | A withdrawal's wallet, amount, fee and key never change, and its sends never shrink. |
| CustodyDeposits.ReturnedDepositStaysUncredited | crates/db/src/deposits.rs:99-190 | Once an output was credited and lost, it is so at every later time, and the ledger holds exactly one credit for it: the first. |
| CustodyDeposits.ReturnedDepositExample | crates/db/migrations/0001_init.sql:126-133 | A run that ends so: credited, reversed, confirmed again, balance zero. |
| CustodyDeposits.PayoutsAreStanding | crates/db/src/deposits.rs:240-279 | What was paid out for a user plus what the user can spend is covered by deposits that stand; only a wallet on hold can be short, by its lost deposits that were not taken back and no more. |
| CustodyDeposits.WatchedIsCalm | crates/worker/src/deposit_watcher.rs:40-51 | Without reconciliations no wallet is on hold and no deposit is orphaned or reversed, in every run. |
| CustodyDeposits.WatchedRefunds | crates/worker/src/deposit_watcher.rs:40-51 | There every refund of a live withdrawal takes effect. |
| CustodyDeposits.WatchedCreditIsForGood | crates/worker/src/deposit_watcher.rs:40-51 | There a credited deposit keeps its row and its entry for ever and is never reversed, whatever becomes of the output. |
| Reporter.ReporterIsFaithful | client/src/lib/reportError.ts:218-264 | Over every run, posted batches and queue together are the accepted reports in order; the queue is below eight and never waits without a timer; breadcrumbs are the last forty. |
| Reporter.AcceptedAreSpaced | client/src/lib/reportError.ts:238-247 | Accepted reports with one key are at least 12000 ms apart, however the clock moves. |
| Reporter.ThrottledAreCounted | client/src/lib/reportError.ts:240-258 | For each key the throttled reports equal the suppressed counts delivered plus the pending counter. |
| Reporter.FirstReportAccepted | client/src/lib/reportError.ts:240-244 | The first report of a key is accepted exactly if the clock is at 12000 ms or later. |
| Reporter.SameKeyIff | client/src/lib/reportError.ts:157-161 | Reports without colons in their parts share a key exactly if kind, endpoint, status and the first hundred characters of the first line agree. |
| Reporter.FirstLineEnds | client/src/lib/reportError.ts:158 | The first line is what precedes the first line break. |
| Reporter.SharedKeyExample | client/src/lib/reportError.ts:160 | With a colon in an endpoint, two different reports share a key. |
| Reporter.EverythingIsPosted | client/src/lib/reportError.ts:218-230 | After any run, a page that hides and a timer that fires leave the queue empty and every accepted report posted, in order. |
| Reporter.ReportWaits | client/src/lib/reportError.ts:254-263 | A report waits until seven others do, and then all eight are posted as one batch. |
| Reporter.ReportLeavesTrail | client/src/lib/reportError.ts:249-252 | An accepted report leaves a breadcrumb with its kind and the first 120 characters of its message. |
| Reporter.ErrorReporter.ValidIsFaithful | client/src/lib/reportError.ts:218-264 | After any sequence of calls on the reporter, what it has posted, queued, counted and kept is what those calls ask for. |
| Reporter.ErrorReporter.ReportClientError | client/src/lib/reportError.ts:232-264 | A report is one more event of the run, and takes the module's state exactly one step further. |
| Reporter.ErrorReporter.FlushErrorQueue | client/src/lib/reportError.ts:226-230 | Posts the front of the queue as one batch and keeps the rest. |
| Reporter.ErrorReporter.PushBreadcrumb | client/src/lib/reportError.ts:29-44 | Appends the item and drops the oldest beyond forty. |
| Reporter.ErrorReporter.OnBreadcrumb | client/src/lib/reportError.ts:29-44 | A breadcrumb is one more event of the run. |
| Reporter.ErrorReporter.OnTimer | client/src/lib/reportError.ts:218-224 | A timer firing is one more event of the run: it disarms the timer and flushes. |
| Reporter.ErrorReporter.OnPageHide | client/src/lib/reportError.ts:349-352 | A hidden page is one more event of the run: it flushes. |
| Amounts.DigitwiseIsExact | client/src/lib/amountInput.ts:13-20 | Cutting and padding digits equals floor(value × 10^decimals), for every decimal text. |
| Amounts.ParseIsExactIffFinite | client/src/lib/amountInput.ts:7-21 | Every text of the grammar is parsed exactly, rounded down, if and only if it does not overflow a double. |
| Amounts.DoublesAreFine | client/src/lib/amountInput.ts:10-11 | For IEEE doubles and up to 321 decimals, a text that rounds to zero is exactly zero units. |
| Amounts.TrimIs | client/src/lib/amountInput.ts:8 | Trimming takes white space off both ends and nothing else. |
| Amounts.TrimUnique | client/src/lib/amountInput.ts:8 | There is only one way to do that. |
| Amounts.MatchIff | client/src/lib/amountInput.ts:9 | A text matches exactly if it is digits, or digits, a point and digits, and it is split at that point. |
| Amounts.OthersAreZero | client/src/lib/amountInput.ts:9 | Every text outside the grammar is answered with zero. |
| AmountPrinters.BnbPrintParse | client/src/pages/AdminStakePage.tsx:192-202 | Parsing the printed digits gives v − v mod 10^12 exactly for 0 ≤ v within the double range, and something else for every other v. |
| AmountPrinters.UsdIsCents | client/src/pages/AdminStakePage.tsx:136-145 | The text is the sign and exactly floor(abs(n)·100 / 10^decimals) cents, for every n and every decimals. |
| AmountPrinters.AmountPrintParse | client/src/shared/coins.ts:418-433 | Parsing the display text of an amount gives the amount exactly if it is not negative and fits a double. |
| AmountPrinters.OverflowExample | client/src/lib/amountInput.ts:10-11 | A one and k zeros, at or above the limit of a double, is parsed to zero although it denotes a positive amount. |
| AmountPrinters.DoublesEnd | client/src/lib/amountInput.ts:10-11 | For IEEE doubles, with limit 2^1024 - 2^970, 342 zeros are enough. |
| AmountPrinters.PrintersExample | client/src/pages/AdminStakePage.tsx:192-202 | Minus one and the first overflowing amount are printed as texts that do not stand for them. |
| AmountPrinters.BnbOfNegative | client/src/pages/AdminStakePage.tsx:192-202 | A negative amount of wei has a sign in front unless its whole part is zero, and one behind the point exactly if its remainder is 10^11 wei or more. |
| AmountPrinters.AmountOfNegative | client/src/shared/coins.ts:418-433 | A negative amount has a sign behind the point whenever it has a fraction, and one in front exactly if it is a whole unit or more. |
| Popup.SignIn.OnMessage | client/public/sdk/satspay-auth.js:189-213 | The listener's effect on flags and callbacks. |
| Popup.SignIn.OnPoll | client/public/sdk/satspay-auth.js:217-231 | The timer's effect on flags and callbacks, in all three cases of reading the popup. |
| Popup.SignIn.Deliver | client/public/sdk/satspay-auth.js:188-231 | An event reaches only a handler still registered; after any sequence of deliveries the object is where the schedule puts it, with at most one callback made. |
| Popup.OutcomeOfSchedule | client/public/sdk/satspay-auth.js:188-231 | Over every schedule the callbacks made are exactly the outcome of its first decisive event, hence at most one. |
| Popup.SettledForGood | client/public/sdk/satspay-auth.js:188-231 | After a callback no later event leads to another. |
| Popup.SuccessIsReported | client/public/sdk/satspay-auth.js:199-209 | A success message is reported, with the verifier, exactly if nothing decisive came before. |
| Popup.ErrorIsReported | client/public/sdk/satspay-auth.js:199-213 | An error message is reported with its body, exactly if nothing decisive came before. |
| Popup.OthersAreIgnored | client/public/sdk/satspay-auth.js:189-198 | Messages of another origin or kind change nothing. |
| Popup.CloseBeatsSuccess | client/public/sdk/satspay-auth.js:222-227 | A poll tick that sees the popup closed first turns a success into `popup_closed`. |
| Popup.SilentAfterThrow | client/public/sdk/satspay-auth.js:228-230 | After a tick that could not read the popup, closing it is never reported. |
| LedgerRows.Merge | client/src/pages/DashboardPage.tsx:318-336 | Flattening the rows gives exactly the entries that remain, in order: an entry is dropped if it is not a merged fee and has the id of an earlier one. All remain exactly if no entry clashes, in particular for distinct ids; fees stand with a withdrawal of their own coin; the rows are then tight, and with withdrawals negative and fees not positive their totals add up to the list. |
| LedgerRows.TightIsUnique | client/src/pages/DashboardPage.tsx:327-333 | There is only one tight grouping of a list: every mergeable pair is merged and nothing else. |
| LedgerRows.TotalsAccount | client/src/pages/DashboardPage.tsx:338-345 | For all rows, the totals shown are the amounts of all entries less what the rows hide. |
| LedgerRows.TightTotals | client/src/pages/DashboardPage.tsx:338-345 | For every list with withdrawals negative and fees not positive, the totals of its tight rows add up to its amounts. |
| LedgerRows.ClashExample | client/src/pages/DashboardPage.tsx:325-332 | Of a list of three entries, the third with the id of the merged fee, only the first two remain. |
| LedgerRows.PositiveFeeExample | client/src/pages/DashboardPage.tsx:338-345 | A row with a positive fee shows a total that is not the sum of its entries. |
| Treasury.AggregateTreasuryByCoin | client/src/lib/admin.ts:19-42 | One line per coin with sums, address count and first error of its rows, known coins first, then by first appearance. |
| Treasury.CoinOrderOnce | client/src/lib/admin.ts:30-31 | Every coin of the rows is listed exactly once. |
| Treasury.KnownCoinsFirst | client/src/lib/admin.ts:30-31 | Known coins precede all others and keep their own order; the others keep the order of their first row. |
| Treasury.ErrorIsFirst | client/src/lib/admin.ts:26 | The message of a coin is the first among its rows that is not empty. |
| Treasury.AggregationConserves | client/src/lib/admin.ts:19-42 | Both columns and the address counts add up to the rows. |
| Treasury.OrderIsIrrelevant | client/src/lib/admin.ts:19-42 | Permuting the rows changes no amount and no count. |
| Treasury.HidingKeepsTotals | client/src/lib/admin.ts:44-47 | Hiding rows keeps a total exactly if no hidden row is negative in it. |
| Treasury.NegativeRowExample | client/src/lib/admin.ts:44-47 | A coin with minus one on chain and nothing in the ledger is hidden, and the total grows. |
| Analytics.AggregateByType | client/src/lib/analyticsLedger.ts:69-88 | One line per bucket with count and max(0, signed sum), sorted descending, ties in order of first appearance. |
| Analytics.SortIsStable | client/src/lib/analyticsLedger.ts:87 | The sort orders, loses nothing and keeps ties in place. |
| Analytics.FilterKeepsAll | client/src/lib/analyticsLedger.ts:86 | The final filter never drops a line. |
| Analytics.CountsAddUp | client/src/lib/analyticsLedger.ts:69-78 | Counts over all buckets add up to the rows that are not adjustments. |
| Analytics.OrderIsIrrelevant | client/src/lib/analyticsLedger.ts:69-88 | No line depends on the order of the rows. |
| Analytics.OneDirection | client/src/lib/analyticsLedger.ts:90-102 | An entry flows in exactly one direction, unless it is an adjustment: then in none. |
| Analytics.SignMattersIff | client/src/lib/analyticsLedger.ts:90-102 | The sign of the amount decides exactly for the types that are on neither list and not skipped. |
| Analytics.SameBucketIff | client/src/lib/analyticsLedger.ts:36-52 | Two types share a bucket exactly if they are equal or of one family: deposits, withdrawals or swaps. |
| Analytics.BucketIsOwn | client/src/lib/analyticsLedger.ts:36-52 | A type of no family is its own bucket and adds to it; a family has one bucket. |
| Analytics.SignIsDirection | client/src/lib/analyticsLedger.ts:32-50 | A type that always flows one way adds to its bucket exactly if it flows the way of the bucket, and nets against it otherwise. |
| Analytics.DailySeries | client/src/pages/AnalyticsPage.tsx:257-276 | Each day of the window has the credits and debits of exactly its entries. |
| Analytics.Cumulative | client/src/pages/AnalyticsPage.tsx:279-285 | Each point is the running net of the days so far, and the last one is the total in less the total out. |
| Analytics.CurveIsNet | client/src/pages/AnalyticsPage.tsx:257-285 | After k days the curve stands at the net value of exactly the entries of those days. |
| Analytics.NetFlow | client/src/pages/AnalyticsPage.tsx:301-303 | Total in less total out is the net value of exactly the entries in the window. |

## Left out

* Key derivation (`mnemonic_to_seed`, `bip32_master_key`, `derive_child_priv`) and the hash functions: SHA-256 is an arbitrary function; no BIP-32 conformance is claimed.
* Where entropy and the word file come from: both are inputs; the list is taken to have 2048 different words without blanks.
- Bech32.AddressRoundTrip: the decoder covers strings without upper-case letters; an all-upper-case string, which BIP-173 decodes as its lower-case form, is outside the model.
- Session.LossCauses: a probe acts on its rejection once all who wait on a refresh have resumed; pages that read the stores and navigate away do not change them.
- Session.StepKeeps: a store is modelled as an identity flag and a token; request bodies, headers, response adaptation and navigation to the login page are left out, and `fetch` is taken not to throw before its first await.
* Session cookies and their rotation on the server.
- CustodyInvariant.StepKeeps: a transaction that fails rolls back as a whole, transactions that touch one wallet are serialised by its row lock, and an output has one owner and one value; amounts are whole units. State is a value here, since the source keeps it in database tables.
- CustodyRuns.PayoutsAreCovered: the chain client is taken at its word, that a hash means it sent and a safe failure means it did not; an unclear answer may mean either.
- CustodyEndings.CanEndIffNotStuck: that a withdrawal can end means that some continuation ends it, with jobs taken in any order and without waiting times; the requeue's limit of one hundred withdrawals a round is left out, and so is a transaction that commits although the database reports an error.
* Who calls `reconcile_deposit`, and with which confirmations: in the model any output may be reconciled at any time.
* Audit log, outbox events, privacy encryption and network-fee telemetry of deposits and withdrawals; swaps, stakes, loans, merchant invoices and transfers.
- Reporter.ReporterIsFaithful: the noise filters before the throttle are one arbitrary verdict, and what the transport does with a batch is left out.
- Amounts.ParseIsExactIffFinite: where a double overflows and where it rounds to zero are parameters; texts of more than twenty significant digits, which ECMAScript lets an engine round either way at those two limits, are rounded like all others.
* `netAfterWithdrawalFee`, `canWithdraw`, `isPlausibleAddress`: single comparisons.
- Popup.OutcomeOfSchedule: the callbacks are taken not to dispatch events themselves; blocked popups, redirects and URL building are left out.
- Analytics.DailySeries: the days of the window are an input, and dollar values are exact integers of one unit rather than floating-point numbers.
* The React user interface, routing, translations, themes and charts; the error catalogues and lookup tables; deployment scripts; the second copy of the sign-in script.
