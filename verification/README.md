# Verified models of the delivery protocols and security helpers

Vaysen CRM sends messages, prepares quotes and runs assistant requests over storage and channels that
give few guarantees: browser storage without compare-and-swap, a desktop program that may crash, HTTP
whose replies get lost. What keeps an action from being done twice, or lost, is a handful of small
durable protocols. This project models them in Dafny and proves what they promise, over all runs, and
with them the arithmetic, search and serialisation they stand on.

`dafny verify dfyconfig.toml` checks everything.

## The parts

- **Manual sends.** A persisted ledger maps the identity of a send to one idempotency key. `IntentLedger`
  has its records, their text and the strict re-parser; `IntentOperations` what each operation does to the
  records, and exactly when the result can be read again; `IntentMeaning` which record each operation touches
  and what it leaves in it; `IntentTracker` the tracker over storage;
  `SendRuns` whole runs of any number of windows and a server; `ReadableRuns` when in such runs the ledger
  can be read; `LedgerLock` the timed lock that makes a ledger mutation atomic, with the exact inequality
  it needs.
- **WhatsApp outbox.** `WhatsappOutbox` has the entries, backoff, batch, timer and the class that keeps
  them; `OutboxRuns` runs with captures at every await, crashes and restarts.
- **Quote preparation.** `QuoteHandles` is the desktop's table of prepared files; `QuoteProtocol` the
  confirm, prepare, complete, probe and release protocol over a channel that loses, delays and repeats;
  `QuoteClaims` which run's claim stands behind which file.
- **Assistant outbox.** `RequestIds` has the browser hashes, on 32-bit words, and the minted ids;
  `AssistantOutbox` the two storage items as text; `AssistantRuns` runs that crash after any write.
- **Permissions.** `CapabilityRegistry` is the capability table and the policy; `PermissionScope` the
  normalised scopes; `PermissionGrants` the two tables and one evaluation; `PermissionRuns` runs of
  concurrent evaluations.
- **Arithmetic, search, serialisation.** `Json` is a printer and a parser that inverts it;
  `CanonicalJson` the two canonical forms; `GraphSearch` the bounded searches of cyclic objects;
  `EgressAddresses` and `EgressFetcher` the outgoing requests; `RateLimiter` the fixed-window limiter.

Methods of classes state their new state by a function of the old one; the same functions make up the
steps of the run models, so what is proved of runs is proved of the methods. Lemmas named `...Meaning` say of
each of these functions, in the fields of records and without the functions, what it does.

## What is assumed

- The clock never goes back, and reads a positive safe integer with room for a lifetime. Fresh UUIDs and
  claim tokens are well formed and new.
- A step of `SendRuns` is one ledger mutation as a whole. That no other mutation runs at the same time is
  what `LedgerLock` proves under its inequality, about the lock alone: the two models are not composed, so
  runs on a machine too slow for the lock are not runs of `SendRuns`.
- The server of a manual send performs a key at most once. A response that definitely rejects, one of a status
  from 400 to 499 other than 408, 409, 425 and 429, or a 409 with the payload conflict's code or, without any
  code, its message, comes only for a key that was not and will not be performed; a success only for one that
  was performed. Every other failure, and the loss of the response, may come whatever the server did. The WhatsApp backend acknowledges only what it has stored. The quote server
  issues a token once, lets only the current claim's token complete or release it, claims again only what
  was released or has expired, and keeps a confirmation.
- A database transaction commits or rolls back as a whole; of isolation nothing more.
- SHA-256 digests stand for what they digest.

## What does not hold everywhere

Each has the exact condition under which the property does hold and, where that condition does not name
the failing inputs itself, a concrete input or run that fails.

- A send that succeeds long after its key was minted corrupts the ledger: `settle` extends the expiry past
  the maximal lifetime the parser accepts (`LateSettlementCorrupts`, `SettleAcceptedIff`). A run that does
  this can never read its ledger again (`LateSuccessLosesLedger`); every other run always can (`ReadableIff`).
- A claim by a clock behind the record, but within the parser's tolerance, does so too (`EarlyClaimCorrupts`,
  `ClaimAcceptedIff`).
- `canonicalJson` loses an own `__proto__` key (`CanonicalJsonCollision`, `CanonicalJsonFaithfulIff`), and
  `stableJson` depends on insertion order where keys collate equal, as the two spellings of an accented letter
  do (`EqualCollationShows`, `OrderIndependentIff`).
- A WhatsApp message whose company id has outer blanks is never delivered (`AckedIff`), and outbox ids can
  collide across accounts with colons (`AccountsCollideIff`).
- A quote run can succeed with a handle that a slower run has replaced (`SlowRunTakesHandle`,
  `SuccessKeepsHandleIff`), or a later one (`LaterRunTakesHandle`); the proposal still has exactly one handle
  (`ConfirmedKeepsHandle`), and a run that prepares alone and confirms by its own claim keeps its own
  (`OwnClaimKeepsHandle`).
- A permission denied at first is allowed when replayed (`DenialReplaysAsPermission`, `ReplayAgreesIff`),
  and a lost race is replayed only for a trimmed key (`BlankKeyLosesRace`, `RaceReplaysIff`).
- A pending assistant request minted from a turn without an id does not read back (`MintedReadsBackIff`).
- The limiter forgets running windows when 10,000 are running (`EvictionForgets`, `EvictsIff`).
- The ledger lock excludes only on machines quick enough (`SlowWriterBreaks`, `StaleReaderBreaks`, `ExclusiveIff`).

## Model

| member | source | states |
|---|---|---|
| `Json.PrintRoundTrip` | backend/src/modules/agent/agent-security.ts:48-57 | Parsing by the grammar of RFC 8259 gives back every printed value: the text form loses nothing |
| `CanonicalJson.SortSorted` | backend/src/modules/agent/agent-security.ts:51-52 | Sorting by a collation leaves no key after a greater one |
| `CanonicalJson.SortStable` | backend/src/modules/agent/agent-security.ts:51-52 | Keys the collation does not tell apart keep their order |
| `CanonicalJson.CanonicalMeaning` | backend/src/modules/agent/agent-security.ts:48-57 | Rewriting a value with sorted keys keeps what it means |
| `CanonicalJson.StableJsonDecides` | backend/src/modules/agent/agent-security.ts:48-57 | Two values have one stable text exactly when they are equal up to key order, if the collation tells their keys apart |
| `CanonicalJson.OrderIndependentIff` | backend/src/modules/agent/agent-security.ts:48-57 | The stable text is independent of insertion order exactly when no object has two keys that collate equal; `localeCompare` need not tell all keys apart |
| `CanonicalJson.EqualCollationShows` | backend/src/modules/agent/agent-security.ts:48-57 | One object with an accented letter spelled in two ways as keys: a collation that equates them gives it two texts |
| `CanonicalJson.JsWeightInjective` | frontend/src/lib/manual-send-intent.ts:110-116 | The enumeration order of the rebuilt objects, index keys first and then code units, tells all keys apart |
| `CanonicalJson.CanonicalJsonDecides` | frontend/src/lib/manual-send-intent.ts:107-124 | Canonical texts are equal exactly when the values without their `__proto__` keys are equal up to key order |
| `CanonicalJson.CanonicalJsonDecidesPlain` | frontend/src/lib/manual-send-intent.ts:107-124 | Without own `__proto__` keys, canonical texts are equal exactly for values equal up to key order |
| `CanonicalJson.CanonicalJsonFaithfulIff` | frontend/src/lib/manual-send-intent.ts:107-124 | Reading a canonical text back gives the value exactly when no object in it has an own `__proto__` key |
| `CanonicalJson.CanonicalJsonCollision` | frontend/src/lib/manual-send-intent.ts:107-124 | Two different payloads with one canonical text: the empty object, and one that only has `__proto__` |
| `IntentLedger.AcceptedLater` | frontend/src/lib/manual-send-intent.ts:204-279 | A ledger once accepted stays accepted as the clock advances |
| `IntentLedger.LedgerTextReads` | frontend/src/lib/manual-send-intent.ts:151-290 | A persisted text within the reader's limit spells out exactly the records it was made from |
| `IntentLedger.LedgerTextFits` | frontend/src/lib/manual-send-intent.ts:151-163 | 256 records of maximal fields serialise below the 512*1024 characters that only the reader checks |
| `IntentLedger.PersistedReads` | frontend/src/lib/manual-send-intent.ts:151-290 | What is persisted reads back, at any time, exactly when its records are acceptable then |
| `IntentMeaning.LedgerIff` | frontend/src/lib/manual-send-intent.ts:151-193 | A stored text is a ledger of given records exactly if it is no longer than 512*1024 and is an object of the version and those records alone |
| `IntentMeaning.ReadIff` | frontend/src/lib/manual-send-intent.ts:179-233 | A parsed value reads as a record exactly if it has the record's fields, each with its value and type, and no other |
| `IntentMeaning.RefusedIffFaulty` | frontend/src/lib/manual-send-intent.ts:172-279 | The parser accepts a record exactly if it has none of the faults listed: bad formats, times out of order, longer than two weeks or ahead of the clock by more than five minutes, an owner and lease that do not match, or a state that does not fit them or its completion |
| `IntentMeaning.KeyMeaning` | frontend/src/lib/manual-send-intent.ts:3 | A canonical key is of 8 to 200 letters, digits and the marks . _ : / -, and starts with no mark |
| `IntentMeaning.ScopeMeaning` | frontend/src/lib/manual-send-intent.ts:22 | A scope is of 3 to 64 small letters, digits and hyphens, and starts with no hyphen |
| `IntentOperations.NewKeyValid` | frontend/src/lib/manual-send-intent.ts:548-551 | A key made of a valid scope and a UUID is a canonical idempotency key |
| `IntentOperations.KeyForAccepted` | frontend/src/lib/manual-send-intent.ts:513-569 | Whatever `keyFor` persists is within capacity and accepted at every later time |
| `IntentOperations.ClaimAcceptedIff` | frontend/src/lib/manual-send-intent.ts:571-609 | Whatever `claim` persists is accepted at later times exactly if the clock was not behind the record's own times; the reader's five-minute tolerance is wider than that |
| `IntentOperations.RenewAcceptedIff` | frontend/src/lib/manual-send-intent.ts:628-669 | The same of a renewal |
| `IntentOperations.SettleAcceptedIff` | frontend/src/lib/manual-send-intent.ts:708-771 | Whatever `settle` persists is accepted at later times exactly if the clock was not behind and the new lifetime stays within the maximum |
| `IntentOperations.TimelySettlement` | frontend/src/lib/manual-send-intent.ts:708-771 | A settlement no later than the record's expiry always meets that condition |
| `IntentOperations.LateSettlementCorrupts` | frontend/src/lib/manual-send-intent.ts:735-752 | A success settled just after a week-long record expired is reported as settled and leaves a ledger the parser rejects |
| `IntentOperations.EarlyClaimCorrupts` | frontend/src/lib/manual-send-intent.ts:571-609 | A claim by a clock five minutes behind the one that minted the key succeeds on records and leaves a ledger the parser rejects |
| `IntentMeaning.KeyForExisting` | frontend/src/lib/manual-send-intent.ts:513-536 | An unexpired record of the identity gives its key, and a write only drops expired records |
| `IntentMeaning.KeyForNew` | frontend/src/lib/manual-send-intent.ts:537-566 | Without one, and with room, a record of the identity is added, ready, unowned and living exactly the given time; the unexpired ones stay |
| `IntentMeaning.KeyForRefused` | frontend/src/lib/manual-send-intent.ts:526-553 | A full ledger, a key that is not canonical and a key that is taken are refused without a write |
| `IntentMeaning.ClaimMeaning` | frontend/src/lib/manual-send-intent.ts:571-609 | A claim takes exactly an unexpired record without a running lease, for the lease time but no longer than the record lives, and changes nothing else of the ledger |
| `IntentMeaning.ClaimOfNone` | frontend/src/lib/manual-send-intent.ts:571-722 | Claim, renewal and settlement of a key without a record fail without a write |
| `IntentMeaning.RenewMeaning` | frontend/src/lib/manual-send-intent.ts:628-669 | Only the owner of a running lease on an unexpired record renews, and renews the lease alone, again no longer than the record lives |
| `IntentMeaning.OwnsMeaning` | frontend/src/lib/manual-send-intent.ts:613-627 | The ownership test is passed exactly by the owner in the key's record, under a lease that has not run out |
| `IntentMeaning.SettleMeaning` | frontend/src/lib/manual-send-intent.ts:708-771 | Only the owner settles: a success leaves a tombstone that lives exactly the given time, an unknown outcome a record to be sent again under its key, a rejection none; a tombstone is only released |
| `IntentTracker.ParseLedgerText` | frontend/src/lib/manual-send-intent.ts:151-279 | The re-parser's loop, with its sets of identities and keys seen, accepts exactly the well-formed ledgers with distinct identities and keys |
| `IntentTracker.PersistLedger` | frontend/src/lib/manual-send-intent.ts:281-290 | Writes the text of the records and reads it back; beyond 256 records, or where storage refuses the text, fails with nothing changed |
| `IntentTracker.CreateManualSendIntentTracker` | frontend/src/lib/manual-send-intent.ts:479-511 | A tracker for exactly the configurations the program accepts, with its defaults filled in |
| `IntentTracker.ConfigurationMeaning` | frontend/src/lib/manual-send-intent.ts:479-511 | Every option is absent or in its range, a lifetime of at most a week, a lease no longer than that, a wait no shorter than the settling; absent, the lease is two minutes or the lifetime, whichever is less |
| `IntentTracker.SendIntentTracker.KeyFor` | frontend/src/lib/manual-send-intent.ts:513-569 | Result and stored text are those of the operation on records, or storage refused and nothing changed; a corrupt ledger is left alone; a readable one stays readable at every later time |
| `IntentTracker.SendIntentTracker.Claim` | frontend/src/lib/manual-send-intent.ts:571-609 | The same for a claim; after a success the storage names the new owner under a running lease and is readable from then on |
| `IntentTracker.SendIntentTracker.AssertOwnership` | frontend/src/lib/manual-send-intent.ts:613-627 | Succeeds exactly for the owner of a running dispatch lease, and changes nothing |
| `IntentTracker.SendIntentTracker.RenewOwnership` | frontend/src/lib/manual-send-intent.ts:628-669 | Succeeds only by renewing the owner's running lease of an unexpired record, so that it runs on; every error reads as lost ownership and, unless what was written cannot be read, changes nothing |
| `IntentTracker.SendIntentTracker.Settle` | frontend/src/lib/manual-send-intent.ts:708-771 | Result and stored text are those of the settlement, or storage refused and nothing changed; what it writes is readable later exactly under the settlement's condition |
| `SendRuns.NextKeepsInv` | frontend/src/lib/manual-send-intent.ts:513-858 | Every step of any window, of the server and of the clock keeps the run invariant |
| `SendRuns.RunKeepsInv` | frontend/src/lib/manual-send-intent.ts:513-858 | So it holds in every state of every run |
| `SendRuns.RejectionIffDefinite` | frontend/src/lib/manual-send-intent.ts:805-830 | A failure is settled as a rejection exactly if the response says definitely that nothing was performed; a lost response, and the statuses 408, 425, 429 and 409 without the payload conflict, are unknown |
| `SendRuns.NoDuplicateSend` | frontend/src/lib/manual-send-intent.ts:826-858 | In every run, whatever failures come back for what was performed, two keys are performed for one identity only if the first key's record had expired when the second was minted |
| `SendRuns.OneOwner` | frontend/src/lib/manual-send-intent.ts:571-627 | At any moment at most one window would pass the ownership test for a key |
| `SendRuns.OnlyOwnerActs` | frontend/src/lib/manual-send-intent.ts:613-702 | In every run a window hands its key to the network, and takes its reply to settlement, only while the key's record names it under a running lease, which then names no other |
| `SendRuns.TakeoverIsFinal` | frontend/src/lib/manual-send-intent.ts:580-609 | A claim takes a record over only when the stored lease has run out; from then on the previous owner passes no ownership test and renews and settles nothing |
| `SendRuns.SupersededForever` | frontend/src/lib/manual-send-intent.ts:611-722 | No step ever hands a record back to an owner that lost it |
| `SendRuns.CompletedIsTerminal` | frontend/src/lib/manual-send-intent.ts:726-762 | A completed record keeps key, completion time and expiry through every step, until it expires |
| `ReadableRuns.RunStored` | frontend/src/lib/manual-send-intent.ts:513-771 | In every state of every run the ledger holds at most 256 records of valid formats, none stamped ahead of the clock, whether it can be read or not |
| `ReadableRuns.ReadableIff` | frontend/src/lib/manual-send-intent.ts:204-279 | In every run the ledger can be read exactly if every settlement so far met its condition; no later step or time mends one that did not |
| `ReadableRuns.LedgerStaysReadable` | frontend/src/lib/manual-send-intent.ts:513-771 | In every run that settles no record past its expiry, the text stored in any state parses to its records at every later time |
| `ReadableRuns.LateSuccessLosesLedger` | frontend/src/lib/manual-send-intent.ts:735-752 | A reachable state, after one send settled a week and a moment late, where the stored text is corrupt and `keyFor` of the unexpired record throws |
| `ReadableRuns.KeyIsStable` | frontend/src/lib/manual-send-intent.ts:513-569 | Until its record expires or the server definitely rejects it, `keyFor` on the stored text gives a minted key and no other for its identity if every settlement met its condition, and no key at all if one did not |
| `ReadableRuns.OtherFailureKeepsKey` | frontend/src/lib/manual-send-intent.ts:845-858 | After any other failure than a definite rejection is settled, `keyFor` on the stored text gives the same key, whatever the server did |
| `ReadableRuns.DefiniteRejectionFreesIdentity` | frontend/src/lib/manual-send-intent.ts:763-771 | After a definite rejection is settled by the owner, the record is gone and the next `keyFor` mints a new key |
| `ReadableRuns.ReachAnswered` | frontend/src/lib/manual-send-intent.ts:837-858 | For any send and any reply that is no definite rejection, a reachable state in which the key was performed and that reply is being settled: what is unknown really is |
| `ReadableRuns.CompletedWasPerformed` | frontend/src/lib/manual-send-intent.ts:735-752 | In every run a completed record stands for a send that the server performed |
| `LedgerLock.MutualExclusion` | frontend/src/lib/manual-send-intent.ts:339-446 | With writes quicker than the settling time and renewals that gap before expiry, no two windows ever hold the lock at once, and every holder's lease stays the stored one |
| `LedgerLock.ExclusiveIff` | frontend/src/lib/manual-send-intent.ts:339-446 | No two windows ever hold the lock at once exactly if gap < settle and hold + gap < ttl, and exactly then no holder ever loses its lease |
| `LedgerLock.SlowWriterBreaks` | frontend/src/lib/manual-send-intent.ts:355-366 | A writer as slow as the settling time overwrites a verified lease and then holds the lock beside its holder |
| `LedgerLock.StaleReaderBreaks` | frontend/src/lib/manual-send-intent.ts:355-396 | A reader that saw the lease before its renewal overwrites the renewed one and then holds the lock beside its holder |
| `LedgerLock.SettingsExclusiveIff` | frontend/src/lib/manual-send-intent.ts:398-417 | Under any settings mutual exclusion holds exactly if the first renewal and every heartbeat, however late the timers, come a turn before the lease ends |
| `LedgerLock.HeartbeatMeaning` | frontend/src/lib/manual-send-intent.ts:403-406 | A heartbeat comes three times in a lease, but no later than after a second |
| `LedgerLock.DefaultsExclusiveIff` | frontend/src/lib/manual-send-intent.ts:398-417 | What mutual exclusion under the default settings demands of the machine, in milliseconds, exactly |
| `LedgerLock.AssistantExclusiveIff` | frontend/src/lib/assistant-chat-outbox.ts:130-186 | What mutual exclusion by the assistant's lease of 30 s, with 40 ms settling and a 5 s heartbeat, demands, exactly |
| `WhatsappOutbox.RetryDelayLaw` | electron/src/main/ipc-handlers.ts:1526-1529 | The delay after n failures is min(300000, 2000*2^(n-1)), never shrinking; the cap on the exponent changes nothing |
| `WhatsappOutbox.FailedOnceMeaning` | electron/src/main/ipc-handlers.ts:1519-1539 | One more failure counts one more attempt, puts the next one min(300000, 2000*2^n) ahead, n the failures before, and keeps at most 500 characters of the error; nothing else of the entry changes |
| `WhatsappOutbox.EnqueueMeaning` | electron/src/main/ipc-handlers.ts:1489-1510 | A message of a new id becomes an entry due at once, one of a pending id changes no entry; the timer is then due by now |
| `WhatsappOutbox.ScheduleMeaning` | electron/src/main/ipc-handlers.ts:1541-1574 | The timer never moves back; when it is set, it is to the given delay or to the earliest attempt, and without a delay never past any attempt |
| `WhatsappOutbox.FlushMeaning` | electron/src/main/ipc-handlers.ts:1582-1622 | After a flush the entries are exactly those not in the batch as they were and those of it that failed, with one more attempt counted and the next put ahead; the delivered are gone |
| `WhatsappOutbox.DeliverableMeaning` | electron/src/main/ipc-handlers.ts:1387-1410 | The push takes a message exactly if it has a company whose id is there and carries no outer blanks |
| `WhatsappOutbox.AccountsCollideIff` | electron/src/main/ipc-handlers.ts:1475-1487 | Two accounts have messages of one outbox id exactly when the label of one continues that of the other |
| `WhatsappOutbox.IdsInjective` | electron/src/main/ipc-handlers.ts:1475-1487 | Without colons in company and account, the id tells company, account and message apart |
| `WhatsappOutbox.BatchIsOldestDue` | electron/src/main/ipc-handlers.ts:1587-1590 | A batch is the due entries by age, and of more than twenty the oldest twenty |
| `WhatsappOutbox.BatchDistinct` | electron/src/main/ipc-handlers.ts:1587-1590 | No entry is delivered twice in one batch |
| `WhatsappOutbox.WhatsappMessageOutbox.ScheduleFlush` | electron/src/main/ipc-handlers.ts:1541-1574 | One timer: kept if already due early enough, otherwise set to the override or the earliest attempt; none for an empty store |
| `WhatsappOutbox.WhatsappMessageOutbox.EnqueueMessage` | electron/src/main/ipc-handlers.ts:1489-1510 | A new id is appended, a pending one is not, and either way a flush is due at once |
| `WhatsappOutbox.WhatsappMessageOutbox.Resume` | electron/src/main/ipc-handlers.ts:1576-1580 | A start with anything pending arms the timer |
| `WhatsappOutbox.WhatsappMessageOutbox.Flush` | electron/src/main/ipc-handlers.ts:1582-1622 | The one-by-one deliveries of an uninterrupted flush leave every entry as its own delivery left it, and the timer is set anew; a second flush does nothing |
| `OutboxRuns.NextKeepsInv` | electron/src/main/ipc-handlers.ts:1489-1622 | Captures at any await, lost requests and replies, crashes and restarts keep the run invariant |
| `OutboxRuns.RunKeepsInv` | electron/src/main/ipc-handlers.ts:1489-1622 | So it holds in every state of every run |
| `OutboxRuns.NothingLost` | electron/src/main/ipc-handlers.ts:1489-1539 | A captured id is pending exactly once, or was acknowledged after its capture by a backend that stored a message of that id |
| `OutboxRuns.PushedUnderItsCompany` | electron/src/main/ipc-handlers.ts:1387-1418 | Every push carries a captured message under the company recorded at its capture |
| `OutboxRuns.AckedIsNotResent` | electron/src/main/ipc-handlers.ts:1592-1609 | After an acknowledgement an id is pushed again only if it was captured again |
| `OutboxRuns.PendingIsAttempted` | electron/src/main/ipc-handlers.ts:1541-1622 | While the program is up, what is pending has a flush under way or a timer due by the larger of now and its next attempt, at most five minutes ahead |
| `OutboxRuns.BackoffLaw` | electron/src/main/ipc-handlers.ts:1519-1622 | In every run an entry counts exactly its failures since its id was last acknowledged; new, it is due at once, and after n of them min(300000, 2000*2^(n-1)) after the last |
| `OutboxRuns.NotPushedEarly` | electron/src/main/ipc-handlers.ts:1587-1590 | No message is pushed before its next attempt is due |
| `OutboxRuns.RetriedWhenDue` | electron/src/main/ipc-handlers.ts:1519-1622 | A reachable state in which a message whose first push failed was pushed again two seconds later and acknowledged |
| `OutboxRuns.QuarantineIsForever` | electron/src/main/ipc-handlers.ts:1595-1603 | A message without a company, or with blanks around its id, stays pending in every later state |
| `OutboxRuns.AckedIff` | electron/src/main/ipc-handlers.ts:1393-1410 | A message can be acknowledged in some run exactly when it has a company whose id is there and carries no outer blanks: the push compares the trimmed id with the payload's |
| `QuoteHandles.PreparedQuoteFiles.Insert` | electron/src/main/ipc-handlers.ts:361-369 | In any order of visiting, the table loses its expired handles and every other handle of the proposal, and gains the new one |
| `QuoteHandles.PreparedQuoteFiles.Recover` | electron/src/main/ipc-handlers.ts:254-281 | A handle is recovered exactly if the time of the proposal runs and one handle alone is of its proposal, account, quote, reference, contact and expiry with its file on disk; handles whose time is over, or is no date, are dropped |
| `QuoteHandles.PreparedQuoteFiles.Remove` | electron/src/main/ipc-handlers.ts:1094-1110 | The handle is gone and nothing else changes |
| `QuoteHandles.InsertedWellKept` | electron/src/main/ipc-handlers.ts:361-369 | No proposal ever has two handles in the table |
| `QuoteHandles.InsertedMeaning` | electron/src/main/ipc-handlers.ts:361-369 | Of the other handles exactly those stay whose time is not over, or is no date, and which are of another proposal |
| `QuoteHandles.PrunedMeaning` | electron/src/main/ipc-handlers.ts:260-265 | Recovery keeps exactly the handles whose expiry is a date ahead of the clock |
| `QuoteProtocol.NextKeepsInv` | electron/src/main/ipc-handlers.ts:832-1119 | Every step of the server, of any run of the handler, of other devices and of the rest of the program keeps the protocol's invariant |
| `QuoteProtocol.RunKeepsInv` | electron/src/main/ipc-handlers.ts:832-1119 | So it holds in every state of every run |
| `QuoteProtocol.SuccessMeansConfirmed` | electron/src/main/ipc-handlers.ts:1030-1066 | A run reports success only when the server has confirmed the proposal, which then stays confirmed |
| `QuoteProtocol.DiscardedNeverConfirmed` | electron/src/main/ipc-handlers.ts:1092-1112 | A handle is discarded only after the server gave up its run's claim, which then never confirms the proposal |
| `QuoteProtocol.OneHandle` | electron/src/main/ipc-handlers.ts:361-369 | The table never holds two handles for the proposal |
| `QuoteProtocol.ConfirmedKeepsHandle` | electron/src/main/ipc-handlers.ts:923-951 | Once this desktop has confirmed the proposal, exactly one unexpired handle serves it unless a drag used it up, and asking again recovers it |
| `QuoteProtocol.RecoveryServes` | electron/src/main/ipc-handlers.ts:254-281 | In every run what is recovered is the one handle whose file was prepared for exactly what is asked and is still on disk, before its expiry; nothing is recovered only if there is no such handle or more than one |
| `QuoteProtocol.TableWellKept` | electron/src/main/ipc-handlers.ts:361-369 | In every run each file is kept under its own id and no proposal, this or another, has two |
| `QuoteProtocol.ConfirmedElsewhereHasNone` | electron/src/main/ipc-handlers.ts:923-951 | A reachable state in which another device confirmed the proposal and there is no handle for it here |
| `QuoteProtocol.FailedRunDiscards` | electron/src/main/ipc-handlers.ts:1066-1112 | A reachable state in which a run whose completion and probe got lost, and whose release was acknowledged, has discarded its handle and the proposal is free again |
| `QuoteProtocol.SuccessKeepsHandleIff` | electron/src/main/ipc-handlers.ts:1007-1042 | The handle a successful run prepared is in the table exactly if no other run prepared a file after it |
| `QuoteProtocol.SlowRunTakesHandle` | electron/src/main/ipc-handlers.ts:1007-1042 | A reachable state in which a run succeeds with a handle that a slower, expired run has already replaced |
| `QuoteClaims.RunKeepsClaims` | electron/src/main/ipc-handlers.ts:832-1119 | In every state of every run no token is granted twice, files are prepared and claims released under tokens granted to that run, and a grant not taken up holds the claim or has run out |
| `QuoteClaims.OwnClaimKeepsHandle` | electron/src/main/ipc-handlers.ts:1007-1066 | A run that inserts its file while no other run is between its claim and its file, and whose own claim confirms the proposal, keeps its handle until it expires or is dragged |
| `QuoteClaims.LaterRunTakesHandle` | electron/src/main/ipc-handlers.ts:1007-1066 | A reachable state in which a run succeeds without its handle because a later run's claim confirmed the proposal |
| `RequestIds.AssistantTextDigest` | frontend/src/lib/assistant-chat-outbox.ts:540-549 | The loop computes the two-word hash of the code units, sixteen lower-case hexadecimal digits |
| `RequestIds.OneUnitChangesDigest` | frontend/src/lib/assistant-chat-outbox.ts:540-549 | Changing one code unit always changes both halves of the digest |
| `RequestIds.UuidWord` | frontend/src/lib/assistant-chat-outbox.ts:553-560 | The inner loop computes one word of the id |
| `RequestIds.DeterministicRequestUuid` | frontend/src/lib/assistant-chat-outbox.ts:551-566 | The four words in the layout of a UUID |
| `RequestIds.RequestUuidFormat` | frontend/src/lib/assistant-chat-outbox.ts:561-565 | Every id has the version and variant of RFC 4122, section 4.1 |
| `RequestIds.OneUnitChangesId` | frontend/src/lib/assistant-chat-outbox.ts:551-566 | Changing one code unit always changes the first group of the id |
| `RequestIds.SortIdsSorts` | frontend/src/lib/assistant-chat-outbox.ts:528 | The turn ids are put in the order of their code units, none lost |
| `RequestIds.MintedIdIgnoresOrder` | frontend/src/lib/assistant-chat-outbox.ts:520-532 | A minted id does not depend on the order of the history turns |
| `RequestIds.BaselineDecides` | frontend/src/lib/assistant-chat-outbox.ts:526-531 | The hashed text is equal exactly for equal text, turns up to order, readiness and context |
| `RequestIds.ContextTextDecides` | frontend/src/lib/assistant-chat-outbox.ts:204-228 | The fingerprinted text is equal exactly for the same company, thread, phone digits, conversation, lead and kind of chat; names and routes do not count |
| `AssistantOutbox.PendingReadsBack` | frontend/src/lib/assistant-chat-outbox.ts:239-298 | A stored pending request reads back as written exactly while it is valid and live |
| `AssistantOutbox.PendingIff` | frontend/src/lib/assistant-chat-outbox.ts:239-265 | A parsed value reads as a pending request exactly if it has its six fields, each with its value and type, and no other |
| `AssistantOutbox.CompletedIff` | frontend/src/lib/assistant-chat-outbox.ts:267-285 | The same for a completion record and its four |
| `AssistantOutbox.CompletedReadsBack` | frontend/src/lib/assistant-chat-outbox.ts:267-285 | A completion record reads back as written exactly while it is valid and thirty seconds old at most |
| `AssistantOutbox.MintedReadsBackIff` | frontend/src/lib/assistant-chat-outbox.ts:503-538 | A new request reads back for its whole lifetime exactly if all turns have ids, the context is a fingerprint and the clock is past 1970 |
| `AssistantOutbox.StoredRequestIff` | frontend/src/lib/assistant-chat-outbox.ts:239-298 | A stored request reads back exactly if its text is not blank, its id a version 4 UUID, its known turns all have ids, its context is of 16 hexadecimal digits, and its start is after 1970, at most five minutes ahead and ten behind |
| `AssistantOutbox.StoredCompletionIff` | frontend/src/lib/assistant-chat-outbox.ts:267-285 | A stored record reads back exactly if its id is a version 4 UUID, its digests are of 16 hexadecimal digits, and it is at most thirty seconds old |
| `JsText.UuidMeaning` | frontend/src/lib/assistant-chat-outbox.ts:245 | The pattern accepts exactly five groups of 8, 4, 4, 4 and 12 hexadecimal digits with the version and variant of RFC 4122, section 4.1 |
| `JsText.TrimMeaning` | frontend/src/lib/assistant-chat-outbox.ts:244 | Trimming takes away blanks at both ends, and all of them |
| `AssistantOutbox.OnlyAnswersComplete` | frontend/src/lib/assistant-chat-outbox.ts:329-342 | A request started by a reservation, minted or recovered, stays pending as it was through any history whose turns were known then or are about another text; a new turn about its text completes it and writes its record |
| `AssistantOutbox.AssistantRequestOutbox.ReadPending` | frontend/src/lib/assistant-chat-outbox.ts:300-319 | Gives the live valid entry or removes what is there |
| `AssistantOutbox.AssistantRequestOutbox.ReadRecentlyCompleted` | frontend/src/lib/assistant-chat-outbox.ts:368-395 | Gives the live valid record or removes what is there |
| `AssistantOutbox.AssistantRequestOutbox.ReserveStoredRequest` | frontend/src/lib/assistant-chat-outbox.ts:463-497 | Result and storage are those of the reservation; where storage refuses the write, its last step is left out |
| `AssistantOutbox.AssistantRequestOutbox.ClearPendingRequest` | frontend/src/lib/assistant-chat-outbox.ts:354-366 | Removes the entry unless a live entry of another id is there |
| `AssistantOutbox.AssistantRequestOutbox.MarkCompleted` | frontend/src/lib/assistant-chat-outbox.ts:397-420 | Writes the record, then clears the entry; where the record cannot be written nothing changes |
| `AssistantOutbox.AssistantRequestOutbox.Reconcile` | frontend/src/lib/assistant-chat-outbox.ts:329-342 | Leaves the pending request that no turn of the history answers and completes an answered one, or, where storage refuses the record, leaves both items |
| `AssistantRuns.OpenIsKept` | frontend/src/lib/assistant-chat-outbox.ts:354-420 | Whatever crashes after any write, an open request keeps its entry until completed and its record afterwards |
| `AssistantRuns.SameIdWhileOpen` | frontend/src/lib/assistant-chat-outbox.ts:463-497 | While its entry, and after completion its record, is live, the same text in the same context gets the same request id or is refused |
| `AssistantRuns.PendingNeverReplaced` | frontend/src/lib/assistant-chat-outbox.ts:503-518 | A live pending request that is not completed stays as it is, is given again for its own text and context, and every other reservation is refused |
| `AssistantRuns.CompletedIsRecovered` | frontend/src/lib/assistant-chat-outbox.ts:473-487 | For thirty seconds after completion, with nothing else pending, repeating the text recovers the id |
| `CapabilityRegistry.TableSound` | backend/src/modules/agent/assistant-capability.registry.ts:27-57 | The risk alone tells what every preset decides and that exactly L3 is open to grants, but for drafting a message; so L4 is never allowed outright, F always denied, and presets widen in order |
| `CapabilityRegistry.ResolveMeaning` | backend/src/modules/agent/assistant-capability.registry.ts:65-85 | Unknown capabilities and risk F are denied; otherwise the override, or else the preset, decides, but that L4 is at most put up for approval and a grant stands in for an approval of L3 |
| `CapabilityRegistry.NeverAllowsCritical` | backend/src/modules/agent/assistant-capability.registry.ts:65-85 | No preset, override or grant allows a capability of risk L4 or F |
| `CapabilityRegistry.GrantEffect` | backend/src/modules/agent/assistant-capability.registry.ts:76-84 | A grant changes the decision exactly where approval is required of a capability open to grants, and then allows |
| `CapabilityRegistry.PresetsOrdered` | backend/src/modules/agent/assistant-capability.registry.ts:65-85 | A wider preset never decides more strictly |
| `CapabilityRegistry.NormalizedEntries` | backend/src/modules/agent/assistant-capability.registry.ts:87-105 | Stored overrides are those entered, each capped by its risk |
| `CapabilityRegistry.ValidateOverrides` | backend/src/modules/agent/assistant-capability.registry.ts:87-105 | All overrides capped, or the error of the first that is unknown or no decision |
| `CapabilityRegistry.CappingKeepsDecisions` | backend/src/modules/agent/assistant-capability.registry.ts:87-105 | Capping changes no decision of the profile |
| `PermissionScope.NormalizeScope` | backend/src/modules/agent/assistant-permission.service.ts:354-367 | The fields in key order exactly if there are some and all are valid; otherwise the error of the first bad one in that order |
| `PermissionScope.FieldMeaning` | backend/src/modules/agent/assistant-permission.service.ts:354-367 | A field is valid exactly if its key is of at most 64 letters, digits and underscores, a letter first, and its value no list or object; a bad key is reported before a bad value |
| `PermissionScope.ScopeTextDecides` | backend/src/modules/agent/assistant-permission.service.ts:203 | Two accepted scopes are digested from one text exactly when they have the same fields, in whatever order |
| `PermissionGrants.ConsumeKeepsInv` | backend/src/modules/agent/assistant-permission.service.ts:268-305 | Spending a use keeps the tables in agreement: uses counted by rows, limits, and keys used once |
| `PermissionGrants.AssistantPermissions.CreateTemporaryGrant` | backend/src/modules/agent/assistant-permission.service.ts:88-114 | A grant is created, active and with no use, exactly for a known capability of risk L3 |
| `PermissionGrants.AssistantPermissions.RevokeTemporaryGrant` | backend/src/modules/agent/assistant-permission.service.ts:129-138 | An active grant becomes revoked, any other stays as it is |
| `PermissionGrants.AssistantPermissions.FindGrant` | backend/src/modules/agent/assistant-permission.service.ts:251-265 | Finds a grant of the request's company, operator, capability and scope that is active, not expired and has a use left, and of these one that expires first; none only if there is none or the capability is not open to grants: the limit of ten rows hides nothing |
| `PermissionGrants.AssistantPermissions.Evaluate` | backend/src/modules/agent/assistant-permission.service.ts:198-324 | An evaluation that runs alone decides as planned and spends one use of the chosen grant or writes nothing |
| `PermissionGrants.InvalidRefused` | backend/src/modules/agent/assistant-permission.service.ts:200-207 | An unknown capability is denied, a scope or key that is invalid refused, and nothing is written |
| `PermissionGrants.ReplayAllowed` | backend/src/modules/agent/assistant-permission.service.ts:209-235 | A key spent before is allowed again under its row for the same capability and scope, and refused for any other, without a write |
| `PermissionGrants.DailyLimitDenies` | backend/src/modules/agent/assistant-permission.service.ts:237-249 | A valid request that is no replay is denied at the daily limit, without a write |
| `PermissionGrants.PolicyDecides` | backend/src/modules/agent/assistant-permission.service.ts:251-324 | Every other valid request is decided by the profile and a grant that serves it and expires first, if there is one, which a request that consumes is to spend under its key |
| `PermissionGrants.ConsumeMeaning` | backend/src/modules/agent/assistant-permission.service.ts:272-300 | Spending writes one more use, the last of which uses the grant up, and one row of the request; nothing else changes |
| `PermissionRuns.NextKeepsInv` | backend/src/modules/agent/assistant-permission.service.ts:140-324 | Every step of concurrent evaluations, retries, creations and revocations keeps the run invariant, rows and spent uses |
| `PermissionRuns.RunKeepsInv` | backend/src/modules/agent/assistant-permission.service.ts:140-324 | So it holds in every state of every run |
| `PermissionRuns.UsesAccounted` | backend/src/modules/agent/assistant-permission.service.ts:272-300 | In every run a grant's use count is the number of its consumption rows and never exceeds its limit |
| `PermissionRuns.KeyConsumesOnce` | backend/src/modules/agent/assistant-permission.service.ts:288-300 | One idempotency key of an operator consumes at most once |
| `PermissionRuns.CriticalNeverAllowed` | backend/src/modules/agent/assistant-permission.service.ts:140-324 | No evaluation, fresh or replayed, ever allows a capability of risk L4 or F |
| `PermissionRuns.InactiveNeverSpent` | backend/src/modules/agent/assistant-permission.service.ts:129-138 | A grant revoked or used up is never spent again, however revocation and evaluation interleave |
| `PermissionRuns.RowSpendsLiveGrant` | backend/src/modules/agent/assistant-permission.service.ts:272-300 | In every run a row is added only for a grant of its company, operator, capability and scope that at that moment is active, not expired and has a use left, and it spends one |
| `PermissionRuns.RevokedNeverSpent` | backend/src/modules/agent/assistant-permission.service.ts:129-138 | From its revocation on a grant gains no row, whatever evaluations had found it before |
| `PermissionRuns.StaleGrantNotSpent` | backend/src/modules/agent/assistant-permission.service.ts:272-311 | A grant that is no longer active, unexpired and of the use count the evaluation saw is not spent: the request is decided without it and nothing is written |
| `PermissionRuns.DailyLimitEndsDenied` | backend/src/modules/agent/assistant-permission.service.ts:237-249 | In runs too, a valid request at the daily limit that is no replay ends denied with nothing written |
| `PermissionRuns.ReplayAgreesIff` | backend/src/modules/agent/assistant-permission.service.ts:209-235 | A replay is of the one row of its key; it agrees with the first decision exactly if the profile then did not ask to deny |
| `PermissionRuns.DenialReplaysAsPermission` | backend/src/modules/agent/assistant-permission.service.ts:268-311 | A reachable state in which a denied request, repeated with its key, is allowed: the use is spent before the profile is asked |
| `PermissionRuns.RaceReplaysIff` | backend/src/modules/agent/assistant-permission.service.ts:168-194 | An evaluation that lost the race for its key finds the winner's row exactly if its key was given without outer blanks; otherwise the conflict is thrown |
| `PermissionRuns.BlankKeyLosesRace` | backend/src/modules/agent/assistant-permission.service.ts:168-194 | A reachable state in which a request with a blank before its key was decided by one evaluation and thrown back by the other, which lost the race |
| `GraphSearch.Search.Visit` | electron/src/preload/wa-logic.ts:124-170 | Expands every object at most once, reachable ones only and within the limit; what it finds answers the search, is reachable, and was read through a key that scores no worse than any holding an answer itself; what it passes over it passes over for a limit that is really met, otherwise all it leaves is expanded and holds no answer |
| `GraphSearch.WithinMeetsNone` | electron/src/preload/wa-logic.ts:136-150 | No limit is met where what is reachable is within the limits of depth, objects and keys, whatever else the graph holds |
| `GraphSearch.SmallWithin` | electron/src/preload/wa-logic.ts:136-150 | A graph with no more objects than may be nested is within the limits however it is linked |
| `GraphSearch.ClosedFindsNone` | electron/src/preload/wa-logic.ts:116-173 | A search that left no unexpanded object behind has missed no reachable answer |
| `GraphSearch.FindTrustedJid` | electron/src/preload/wa-logic.ts:116-173 | On any cyclic graph a trusted id that is reachable, or none; none only if none is reachable or a limit was really met: a path of distinct objects too long, a reachable object with too many keys, or as many objects expanded as may be with another reachable |
| `GraphSearch.FindPhoneJid` | electron/src/preload/wa-logic.ts:180-240 | The same for the phone id in a reachable record of exactly the selected identity; nothing for a malformed identity |
| `GraphSearch.PhoneJidMeaning` | electron/src/preload/wa-logic.ts:106 | A contact's id has 7 to 15 digits and one of the two hosts |
| `GraphSearch.LidMeaning` | electron/src/preload/wa-logic.ts:186 | A linked identity has digits only, any number of them |
| `GraphSearch.TrustedJidMeaning` | electron/src/preload/wa-logic.ts:106 | Trusted are these and groups of at least 10 digits, and nothing else |
| `GraphSearch.RecordMeaning` | electron/src/preload/wa-logic.ts:203-209 | A record is of an identity by the object or the string under `__x_id`, and by the object under `id` only where that is missing or falsy |
| `GraphSearch.FollowedFirst` | electron/src/preload/wa-logic.ts:150-157 | The first search follows first exactly the keys that hold chatId or jid or end in id, in any case |
| `GraphSearch.ByScoreSorts` | electron/src/preload/wa-logic.ts:150-157 | The keys are followed by score, those of one score in their own order, none lost or repeated |
| `EgressAddresses.CidrIsInterval` | backend/src/common/security/safe-egress-fetcher.ts:92-101 | A bit-mask test is membership in the interval from the block's first to its last address, for every address and prefix (RFC 4632, section 3.1) |
| `EgressAddresses.IsPublicIpv4` | backend/src/common/security/safe-egress-fetcher.ts:147-149 | The loop over the listed blocks finds an address public exactly if it is in none |
| `EgressAddresses.PublicIpv4Iff` | backend/src/common/security/safe-egress-fetcher.ts:103-122 | Which octets that means, for all addresses |
| `EgressAddresses.CompressedExpands` | backend/src/common/security/safe-egress-fetcher.ts:124-135 | Every compression and spelling of the same eight groups expands to the same number (RFC 4291, section 2.2) |
| `EgressAddresses.FullExpands` | backend/src/common/security/safe-egress-fetcher.ts:124-135 | So do uncompressed texts |
| `EgressAddresses.Cidr6IsInterval` | backend/src/common/security/safe-egress-fetcher.ts:137-142 | A shifted comparison is membership in the block's interval, for every address and prefix |
| `EgressAddresses.PublicIpv6Iff` | backend/src/common/security/safe-egress-fetcher.ts:150-161 | Of the texts of eight groups exactly 2000::/3 less 2001::/23, 2001:db8::/32 and 2002::/16 is public |
| `EgressFetcher.IsPublicEgressAddress` | backend/src/common/security/safe-egress-fetcher.ts:144-165 | The two halves together, closed for everything else |
| `EgressFetcher.WireLimitedBody` | backend/src/common/security/safe-egress-fetcher.ts:210-225 | Passes chunks on until their bytes exceed the limit, never more bytes than that, and all if they stay within it |
| `EgressFetcher.ReadBody` | backend/src/common/security/safe-egress-fetcher.ts:547-600 | A success exactly if the wire is whole within the wire limit, the decoded body whole within the response limit, and every clock reading and the end before the deadline, and then with all its bytes; otherwise a failure for the first chunk that does not pass: the deadline, the code of a broken chunk, or too many bytes |
| `EgressFetcher.ReadIffTimely` | backend/src/common/security/safe-egress-fetcher.ts:547-600 | Any outcome that ends a body so is a success exactly for a timely, whole body within its limits |
| `EgressFetcher.FailureMeans` | backend/src/common/security/safe-egress-fetcher.ts:553-600 | A timeout is only of a reading at or past the deadline or a chunk that carries it, a body too large only of received bytes beyond the limit or a chunk that carries it, and any other code that of the first broken chunk |
| `EgressFetcher.AllConsistent` | backend/src/common/security/safe-egress-fetcher.ts:167-173 | Passes exactly answers that are all of the family their text has |
| `EgressFetcher.AllPublic` | backend/src/common/security/safe-egress-fetcher.ts:468-472 | Passes exactly answers that are all public |
| `EgressFetcher.OneMoreCounted` | backend/src/common/security/safe-egress-fetcher.ts:634-637 | Counting an event raises the sum of all counters by one |
| `EgressFetcher.SafeEgressFetcher.Record` | backend/src/common/security/safe-egress-fetcher.ts:634-637 | The event's counter goes up by one, and with it the sum of all; no other changes |
| `EgressFetcher.SafeEgressFetcher.Fetch` | backend/src/common/security/safe-egress-fetcher.ts:413-615 | At most maxRedirects+1 transport calls, each to the first of that hop's own answers, all of them public, along accepted redirects only; it ends where the next hop or the last reply says or as reading the last body ends, so a timely body within its limits is a success with all its bytes; each way out counts its own outcome, and nothing else is counted |
| `RateLimiter.FixedWindowLimiter.Check` | backend/src/common/security/request-security.ts:13-45 | The pruning and eviction loops and the count compute the step on the list of windows |
| `RateLimiter.WindowsBounded` | backend/src/common/security/request-security.ts:21-31 | After any sequence of requests there are at most 10,000 windows |
| `RateLimiter.DecidesAsCounter` | backend/src/common/security/request-security.ts:13-45 | With a clock that does not go back, every decision is that of a counter that never forgets, as long as no running window is evicted |
| `RateLimiter.EvictsIff` | backend/src/common/security/request-security.ts:21-29 | A request evicts a running window exactly when 10,000 windows are running |
| `RateLimiter.EvictionForgets` | backend/src/common/security/request-security.ts:21-29 | Ten thousand clients and then the first again: the limiter accepts what the counter refuses |
| `RateLimiter.FewRunningDecideAlike` | backend/src/common/security/request-security.ts:13-45 | So with fewer windows running at every request the limiter is the counter |

## Left out

- IntentTracker.SendIntentTracker.KeyFor: does not model hashing; the two digests are arguments. Of storage errors only refused writes are modelled, not refused reads.
- SendRuns.NextKeepsInv: a tracker without `withClaimLease`, which the interface allows, is not modelled.
- LedgerLock.ExclusiveIff: heartbeats end after `lockWaitMs`; a longer task is a lease held beyond the bound `hold`.
- WhatsappOutbox.WhatsappMessageOutbox.Flush: speaks of an uninterrupted flush; captures at its awaits are steps of OutboxRuns.
- OutboxRuns.AckedIff: entries encrypted for another user or otherwise unreadable fail before the push, as one of the refusals.
- QuoteProtocol.ConfirmedKeepsHandle: the table is in memory, so it speaks of one lifetime of the desktop program; the account, the contact and the file on disk are conditions of recovery.
- RequestIds.OneUnitChangesDigest: collisions between texts that differ in more than one code unit are possible and not characterised.
- AssistantRuns.SameIdWhileOpen: speaks of requests whose entry is not cleared under their own id before completion and which no other completion follows, which the record of one completion cannot survive.
- PermissionRuns.NextKeepsInv: the two retries after a write conflict are any number of retries.
- GraphSearch.FindPhoneJid: reading the identity fields of a record does not throw, and a getter gives the same value each time.
- EgressAddresses.CompressedExpands: `isIP` is taken as given; texts it refuses, embedded IPv4 and zones are not public.
- EgressFetcher.SafeEgressFetcher.Fetch: URL parsing, DNS, sockets, decompression and header parsing are the world's answers; a metric callback that throws is not modelled.
- Numbers in JSON: tokens with a fraction or exponent read as non-integers where a record wants an integer; lone surrogates are not representable.
- Regular expressions applied to values that are not strings, which JavaScript would convert first.
- Web Locks, where the browser has them: the fallback lease is modelled, the native lock is mutual exclusion by definition.
- Thresholds of a permission profile other than the daily limit, and audit fields of grants and consumptions.
- Encryption of stored payloads, Electron windows and contact identity checks, PDF download and file handling.
- Redaction by regular expressions, prompt and intent classification, HTML sanitising, quote totals in floating point.
- User interface, NestJS wiring, queue workers, seeds, research tools and the Python image services.
