/**
 What each operation of the send intent tracker does to the records of a ledger: the value it returns
 or the error it throws, and the records it persists, if it persists any.
 */
module IntentOperations {
  import opened Wrappers
  import opened IntentLedger
  import opened JsText

  datatype Effect<T> = Effect(result: Result<T, LedgerError>, written: Option<seq<Intent>>)

  datatype SendOutcome = SendSuccess | BusinessRejection | SendUnknown

  function Find(intents: seq<Intent>, key: string): (n: nat)
    ensures n <= |intents|
    ensures n < |intents| ==> intents[n].key == key
    ensures forall i :: 0 <= i < n ==> intents[i].key != key
  {
    if intents == [] || intents[0].key == key then 0 else 1 + Find(intents[1..], key)
  }

  function FindIdentity(intents: seq<Intent>, id: Identity): (n: nat)
    ensures n <= |intents|
    ensures n < |intents| ==> IdentityOf(intents[n]) == id
    ensures forall i :: 0 <= i < n ==> IdentityOf(intents[i]) != id
  {
    if intents == [] || IdentityOf(intents[0]) == id then 0 else 1 + FindIdentity(intents[1..], id)
  }

  /** The records that have not expired. */
  function ActiveAt(intents: seq<Intent>, timestamp: int): (r: seq<Intent>)
    ensures |r| <= |intents|
    ensures forall i :: 0 <= i < |r| ==> r[i] in intents && r[i].expiresAt > timestamp
    ensures forall i :: i in intents && i.expiresAt > timestamp ==> i in r
  {
    if intents == [] then []
    else (if intents[0].expiresAt > timestamp then [intents[0]] else []) + ActiveAt(intents[1..], timestamp)
  }

  function Without(intents: seq<Intent>, key: string): (r: seq<Intent>)
    ensures |r| <= |intents|
    ensures forall i :: 0 <= i < |r| ==> r[i] in intents && r[i].key != key
    ensures forall i :: i in intents && i.key != key ==> i in r
  {
    if intents == [] then []
    else (if intents[0].key != key then [intents[0]] else []) + Without(intents[1..], key)
  }

  /** `persistLedger`, followed by a normal return. */
  function Persist<T>(intents: seq<Intent>, result: T): Effect<T> {
    if |intents| > MAX_LEDGER_RECORDS then Effect(Failure(CapacityExhausted), None)
    else Effect(Success(result), Some(intents))
  }

  function Refuse<T>(error: LedgerError): Effect<T> { Effect(Failure(error), None) }

  function Created(id: Identity, key: string, timestamp: int, ttl: int): Intent {
    Intent(id.scope, id.contextDigest, id.payloadDigest, key, Ready, timestamp, timestamp, timestamp + ttl, None, None, None)
  }

  function KeyFor(intents: seq<Intent>, id: Identity, timestamp: int, ttl: int, uuid: string): Effect<string> {
    var active := ActiveAt(intents, timestamp);
    var n := FindIdentity(active, id);
    var key := id.scope + ":" + uuid;
    if |active| > MAX_LEDGER_RECORDS then Refuse(CapacityExhausted)
    else if n < |active| then
      if |active| != |intents| then Persist(active, active[n].key) else Effect(Success(active[n].key), None)
    else if |active| == MAX_LEDGER_RECORDS then Refuse(CapacityExhausted)
    else if !IsIdempotencyKey(key) then Refuse(NotCanonicalKey)
    else if Find(active, key) < |active| then Refuse(DuplicateKey)
    else Persist(active + [Created(id, key, timestamp, ttl)], key)
  }

  function Min(a: int, b: int): int { if a <= b then a else b }

  /** A record held by `owner` from `timestamp` on. */
  function Leased(i: Intent, owner: string, timestamp: int, leaseMs: int): Intent {
    i.(dispatchOwner := Some(owner), updatedAt := timestamp,
       dispatchLeaseExpiresAt := Some(Min(timestamp + leaseMs, i.expiresAt)))
  }

  predicate LeaseRuns(i: Intent, timestamp: int) {
    i.dispatchOwner.Some? && i.dispatchLeaseExpiresAt.Some? && i.dispatchLeaseExpiresAt.value > timestamp
  }

  function Claim(intents: seq<Intent>, key: string, timestamp: int, leaseMs: int, owner: string): Effect<string> {
    var n := Find(intents, key);
    if n == |intents| || intents[n].expiresAt <= timestamp then Refuse(MissingIntent)
    else if LeaseRuns(intents[n], timestamp) then Refuse(Busy)
    else if Min(timestamp + leaseMs, intents[n].expiresAt) <= timestamp then Refuse(TooCloseToExpiry)
    else
      var i := if intents[n].state.Ready? then intents[n].(state := Inflight) else intents[n];
      Persist(intents[n := Leased(i, owner, timestamp, leaseMs)], owner)
  }

  /** Whether `owner` holds the key at a time: the test at the HTTP boundary. */
  predicate Owns(intents: seq<Intent>, key: string, owner: string, timestamp: int) {
    var n := Find(intents, key);
    n < |intents| && intents[n].dispatchOwner == Some(owner) && LeaseRuns(intents[n], timestamp)
  }

  function Renew(intents: seq<Intent>, key: string, owner: string, timestamp: int, leaseMs: int): Effect<()> {
    var n := Find(intents, key);
    if !Owns(intents, key, owner, timestamp) || intents[n].expiresAt <= timestamp then Refuse(OwnershipLost)
    else Persist(intents[n := Leased(intents[n], owner, timestamp, leaseMs)], ())
  }

  function Unleased(i: Intent): Intent { i.(dispatchOwner := None, dispatchLeaseExpiresAt := None) }

  /** A settled record; None when the mapping is removed. */
  function Settled(i: Intent, outcome: SendOutcome, timestamp: int, ttl: int): Option<Intent> {
    if i.state.Completed? && i.completedAt.Some? then Some(Unleased(i).(updatedAt := i.completedAt.value))
    else match outcome
      case SendUnknown => Some(Unleased(i).(state := Ready, updatedAt := Min(timestamp, i.expiresAt)))
      case SendSuccess =>
        Some(Unleased(i).(state := Completed, completedAt := Some(timestamp), updatedAt := timestamp, expiresAt := timestamp + ttl))
      case BusinessRejection => None
  }

  function Settle(intents: seq<Intent>, key: string, outcome: SendOutcome, owner: string, timestamp: int, ttl: int): Effect<()> {
    var n := Find(intents, key);
    if n == |intents| then Refuse(MissingIntent)
    else if intents[n].dispatchOwner != Some(owner) then Refuse(Busy)
    else match Settled(intents[n], outcome, timestamp, ttl)
      case Some(i) => Persist(intents[n := i], ())
      case None => Persist(Without(intents, key), ())
  }

  // ---------------------------------------------------------------- how a failed send is classified

  const PAYLOAD_CONFLICT_CODE := "EMAIL_IDEMPOTENCY_PAYLOAD_CONFLICT"

  /** What the tracker sees of a failed request: no status when no response arrived. */
  datatype SendFailure = SendFailure(status: Option<int>, code: Option<string>, hasConflictMessage: bool)

  function FailureOutcome(f: SendFailure): SendOutcome {
    if f.status == Some(409) && (f.code == Some(PAYLOAD_CONFLICT_CODE) || (f.code == None && f.hasConflictMessage)) then BusinessRejection
    else if f.status.Some? && 400 <= f.status.value < 500 && f.status.value !in {408, 409, 425, 429} then BusinessRejection
    else SendUnknown
  }

  // ---------------------------------------------------------------- what every operation keeps

  lemma {:induction false} ActiveDistinct(intents: seq<Intent>, timestamp: int)
    requires Distinct(intents)
    ensures Distinct(ActiveAt(intents, timestamp))
  {
    if intents != [] {
      ActiveDistinct(intents[1..], timestamp);
      var rest := ActiveAt(intents[1..], timestamp);
      forall i | 0 <= i < |rest|
        ensures IdentityOf(intents[0]) != IdentityOf(rest[i]) && intents[0].key != rest[i].key
      {
        var k :| 0 <= k < |intents[1..]| && intents[1..][k] == rest[i];
        assert intents[k + 1] == rest[i];
      }
    }
  }

  lemma {:induction false} WithoutDistinct(intents: seq<Intent>, key: string)
    requires Distinct(intents)
    ensures Distinct(Without(intents, key))
  {
    if intents != [] {
      WithoutDistinct(intents[1..], key);
      var rest := Without(intents[1..], key);
      forall i | 0 <= i < |rest|
        ensures IdentityOf(intents[0]) != IdentityOf(rest[i]) && intents[0].key != rest[i].key
      {
        var k :| 0 <= k < |intents[1..]| && intents[1..][k] == rest[i];
        assert intents[k + 1] == rest[i];
      }
    }
  }

  lemma SubsetWellFormed(a: seq<Intent>, b: seq<Intent>, timestamp: int)
    requires AllWellFormed(b, timestamp) && forall i :: 0 <= i < |a| ==> a[i] in b
    ensures AllWellFormed(a, timestamp)
  {
    forall i | 0 <= i < |a| ensures WellFormed(a[i], timestamp) {
      var k :| 0 <= k < |b| && b[k] == a[i];
    }
  }

  /** One record is replaced by another of the same identity and key. */
  lemma ReplacedAccepted(intents: seq<Intent>, n: nat, i: Intent, t: int, t': int)
    requires Accepted(intents, t) && t <= t' && n < |intents|
    requires IdentityOf(i) == IdentityOf(intents[n]) && i.key == intents[n].key
    ensures Accepted(intents[n := i], t') <==> WellFormed(i, t')
  {
    AcceptedLater(intents, t, t');
    var r := intents[n := i];
    assert r[n] == i;
    if WellFormed(i, t') {
      forall k | 0 <= k < |r| ensures WellFormed(r[k], t') { if k != n { assert r[k] == intents[k]; } }
    }
  }

  /** The clock readings the tracker is used with: a safe positive integer, with room for a lifetime. */
  predicate ClockInRange(timestamp: int, ttl: int) {
    0 < timestamp && 0 < ttl <= MAX_INTENT_TTL_MS && timestamp + ttl <= MAX_SAFE_INTEGER
  }

  lemma NewKeyValid(id: Identity, uuid: string)
    requires IsScope(id.scope) && IsUuid(uuid)
    ensures IsIdempotencyKey(id.scope + ":" + uuid)
  {
    var key := id.scope + ":" + uuid;
    forall i | 0 <= i < |key| ensures IsKeyChar(key[i]) {
      if i > |id.scope| {
        assert key[i] == uuid[i - |id.scope| - 1];
      }
    }
  }

  /** Whatever `keyFor` persists is accepted from then on. */
  lemma KeyForAccepted(intents: seq<Intent>, id: Identity, t: int, ttl: int, uuid: string, t': int)
    requires Accepted(intents, t) && t <= t' && ClockInRange(t, ttl)
    requires IsScope(id.scope) && IsDigest(id.contextDigest) && IsDigest(id.payloadDigest)
    ensures var e := KeyFor(intents, id, t, ttl, uuid);
      e.written.Some? ==> |e.written.value| <= MAX_LEDGER_RECORDS && Accepted(e.written.value, t')
  {
    var active := ActiveAt(intents, t);
    ActiveDistinct(intents, t);
    SubsetWellFormed(active, intents, t);
    AcceptedLater(active, t, t');
    var e := KeyFor(intents, id, t, ttl, uuid);
    if e.written.Some? && e.written.value != active {
      AppendedAccepted(active, id, id.scope + ":" + uuid, t, ttl, t');
    }
  }

  lemma AppendedAccepted(active: seq<Intent>, id: Identity, key: string, t: int, ttl: int, t': int)
    requires Accepted(active, t') && |active| < MAX_LEDGER_RECORDS && t <= t' && ClockInRange(t, ttl)
    requires IsScope(id.scope) && IsDigest(id.contextDigest) && IsDigest(id.payloadDigest)
    requires IsIdempotencyKey(key) && id.scope + ":" <= key
    requires Find(active, key) == |active| && FindIdentity(active, id) == |active|
    ensures Accepted(active + [Created(id, key, t, ttl)], t')
  {
    var created := Created(id, key, t, ttl);
    assert WellFormed(created, t');
    var r := active + [created];
    hide WellFormed;
    forall i | 0 <= i < |r| ensures WellFormed(r[i], t') { if i < |active| { assert r[i] == active[i]; } }
  }

  /** A record may be stamped with a clock reading that is not behind its own times. */
  predicate NotBehind(i: Intent, timestamp: int) {
    i.createdAt <= timestamp && (i.state.Completed? ==> i.completedAt.Some? && i.completedAt.value <= timestamp)
  }

  /**
   Whatever `claim` persists is accepted from then on exactly when the clock was not behind the record.
   A reader tolerates records up to five minutes ahead of its clock; a claim at such a time does not.
   */
  lemma ClaimAcceptedIff(intents: seq<Intent>, key: string, t: int, leaseMs: int, owner: string, t': int)
    requires Accepted(intents, t) && t <= t' && 0 < t && 0 < leaseMs && t + leaseMs <= MAX_SAFE_INTEGER && IsUuid(owner)
    requires Claim(intents, key, t, leaseMs, owner).written.Some?
    ensures Accepted(Claim(intents, key, t, leaseMs, owner).written.value, t') <==> NotBehind(intents[Find(intents, key)], t)
  {
    var n := Find(intents, key);
    assert WellFormed(intents[n], t);
    var i := if intents[n].state.Ready? then intents[n].(state := Inflight) else intents[n];
    var r := Leased(i, owner, t, leaseMs);
    ReplacedAccepted(intents, n, r, t, t');
    assert FieldsValid(r) && LeaseValid(r);
  }

  lemma RenewAcceptedIff(intents: seq<Intent>, key: string, owner: string, t: int, leaseMs: int, t': int)
    requires Accepted(intents, t) && t <= t' && 0 < t && 0 < leaseMs && t + leaseMs <= MAX_SAFE_INTEGER
    requires Renew(intents, key, owner, t, leaseMs).written.Some?
    ensures Accepted(Renew(intents, key, owner, t, leaseMs).written.value, t') <==> NotBehind(intents[Find(intents, key)], t)
  {
    var n := Find(intents, key);
    assert WellFormed(intents[n], t);
    var r := Leased(intents[n], owner, t, leaseMs);
    ReplacedAccepted(intents, n, r, t, t');
    assert FieldsValid(r) && LeaseValid(r);
  }

  /** When a settlement leaves a ledger that can be read again. */
  predicate Settleable(i: Intent, outcome: SendOutcome, timestamp: int, ttl: int) {
    if i.state.Completed? then true
    else match outcome
      case BusinessRejection => true
      case SendUnknown => i.createdAt <= timestamp
      case SendSuccess => i.createdAt <= timestamp && timestamp + ttl - i.createdAt <= MAX_RECORD_LIFETIME_MS
  }

  /**
   `settle` does not look at the expiry of the record it completes. What it persists is accepted from
   then on exactly when the clock was not behind the record and the new lifetime stays within the limit.
   */
  lemma SettleAcceptedIff(intents: seq<Intent>, key: string, outcome: SendOutcome, owner: string, t: int, ttl: int, t': int)
    requires Accepted(intents, t) && t <= t' && ClockInRange(t, ttl)
    requires Settle(intents, key, outcome, owner, t, ttl).written.Some?
    ensures Accepted(Settle(intents, key, outcome, owner, t, ttl).written.value, t')
       <==> Settleable(intents[Find(intents, key)], outcome, t, ttl)
  {
    var n := Find(intents, key);
    assert WellFormed(intents[n], t);
    match Settled(intents[n], outcome, t, ttl)
    case Some(r) =>
      ReplacedAccepted(intents, n, r, t, t');
      assert FieldsValid(r) && LeaseValid(r);
    case None =>
      WithoutDistinct(intents, key);
      SubsetWellFormed(Without(intents, key), intents, t);
      AcceptedLater(Without(intents, key), t, t');
  }

  /** A settlement no later than the record's expiry, by a clock that has not gone back, is always readable. */
  lemma TimelySettlement(i: Intent, outcome: SendOutcome, t: int, ttl: int)
    requires WellFormed(i, t) && i.createdAt <= t <= i.expiresAt && ClockInRange(t, ttl)
    ensures Settleable(i, outcome, t, ttl)
  {
  }

  function RepeatChar(c: char, n: nat): (s: string)
    ensures |s| == n && forall i :: 0 <= i < n ==> s[i] == c
  {
    if n == 0 then "" else [c] + RepeatChar(c, n - 1)
  }

  /** A send that succeeds a week and a moment after its key was minted corrupts the ledger. */
  lemma LateSettlementCorrupts(owner: string)
    requires IsUuid(owner)
    ensures var i, late := WeekOldIntent(owner), MAX_INTENT_TTL_MS + 2;
      var settled := Settle([i], i.key, SendSuccess, owner, late, MAX_INTENT_TTL_MS);
      && Accepted([i], late)
      && settled.result == Success(())
      && settled.written.Some?
      && ParseLedger(Some(LedgerText(settled.written.value)), late) == Failure(CorruptLedger)
  {
    var i, late := WeekOldIntent(owner), MAX_INTENT_TTL_MS + 2;
    assert WellFormed(i, late);
    assert Find([i], i.key) == 0;
    var settled := Settle([i], i.key, SendSuccess, owner, late, MAX_INTENT_TTL_MS);
    SettleAcceptedIff([i], i.key, SendSuccess, owner, late, MAX_INTENT_TTL_MS, late);
    PersistedReads(settled.written.value, late);
  }

  function WeekOldIntent(owner: string): Intent {
    var digest := RepeatChar('0', 64);
    Intent("mail", digest, digest, "mail:" + RepeatChar('0', 8), Inflight, 1, 1, 1 + MAX_INTENT_TTL_MS, None, Some(owner), Some(1 + MAX_INTENT_TTL_MS))
  }

  /** A claim by a window whose clock is five minutes behind the one that minted the key corrupts the ledger. */
  lemma EarlyClaimCorrupts(owner: string)
    requires IsUuid(owner)
    ensures var i := NewIntent(1 + MAX_FUTURE_CLOCK_SKEW_MS);
      var claimed := Claim([i], i.key, 1, 1000, owner);
      && Accepted([i], 1)
      && claimed.result == Success(owner)
      && claimed.written.Some?
      && ParseLedger(Some(LedgerText(claimed.written.value)), 1) == Failure(CorruptLedger)
  {
    var i := NewIntent(1 + MAX_FUTURE_CLOCK_SKEW_MS);
    assert WellFormed(i, 1);
    assert Find([i], i.key) == 0;
    ClaimAcceptedIff([i], i.key, 1, 1000, owner, 1);
    PersistedReads(Claim([i], i.key, 1, 1000, owner).written.value, 1);
  }

  function NewIntent(timestamp: int): Intent {
    var digest := RepeatChar('0', 64);
    Created(Identity("mail", digest, digest), "mail:" + RepeatChar('0', 8), timestamp, MAX_INTENT_TTL_MS)
  }
}
