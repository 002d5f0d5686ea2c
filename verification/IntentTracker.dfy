/**
 The send intent tracker over one storage item. Every method is one ledger mutation, run under the
 ledger lock: it re-parses the stored text, changes records, and persists them as text. The contracts
 tie the stored text to the operations on records of IntentOperations.
 */
module IntentTracker {
  import opened Wrappers
  import opened IntentLedger
  import opened JsText
  import opened IntentOperations

  /** The ledger's item of the browser storage. */
  class LedgerStorage {
    var ledger: Option<string>

    constructor ()
      ensures ledger == None
    {
      ledger := None;
    }

    /** `setItem` and the reading back: storage may refuse a text, and then keeps what it had. */
    method SetItem(text: string) returns (kept: bool)
      modifies this
      ensures ledger == if kept then Some(text) else old(ledger)
    {
      kept := *;
      if kept { ledger := Some(text); }
    }

    /** Whether the stored text is accepted at a time. */
    ghost predicate ReadableAt(timestamp: int)
      reads this
    {
      ParseLedger(ledger, timestamp).Success?
    }

    /** The records read at a time; none from a corrupt ledger. */
    ghost function Records(timestamp: int): seq<Intent>
      reads this
    {
      match ParseLedger(ledger, timestamp)
      case Success(l) => l
      case Failure(_) => []
    }
  }

  /** The strict re-parser, with its sets of identities and keys seen so far. */
  method ParseLedgerText(raw: Option<string>, timestamp: int) returns (r: Result<seq<Intent>, LedgerError>)
    ensures r == ParseLedger(raw, timestamp)
  {
    hide ReadLedger, WellFormed;
    var read := ReadLedger(raw);
    if read.None? { return Failure(CorruptLedger); }
    var intents := read.value;
    if |intents| > MAX_LEDGER_RECOVERY_RECORDS { return Failure(CorruptLedger); }
    var identities: set<Identity>, keys: set<string> := {}, {};
    for n := 0 to |intents|
      invariant identities == set i | 0 <= i < n :: IdentityOf(intents[i])
      invariant keys == set i | 0 <= i < n :: intents[i].key
      invariant forall i :: 0 <= i < n ==> WellFormed(intents[i], timestamp)
      invariant Distinct(intents[..n])
    {
      var intent := intents[n];
      if !WellFormed(intent, timestamp) { return Failure(CorruptLedger); }
      if IdentityOf(intent) in identities || intent.key in keys { return Failure(CorruptLedger); }
      assert intents[..n + 1] == intents[..n] + [intent];
      identities := identities + {IdentityOf(intent)};
      keys := keys + {intent.key};
    }
    assert intents[..|intents|] == intents;
    return Success(intents);
  }

  method PersistLedger(storage: LedgerStorage, intents: seq<Intent>) returns (r: Result<(), LedgerError>)
    modifies storage
    ensures |intents| > MAX_LEDGER_RECORDS ==> r == Failure(CapacityExhausted)
    ensures |intents| <= MAX_LEDGER_RECORDS ==> r == Success(()) || r == Failure(StorageFailed)
    ensures storage.ledger == if r.Success? then Some(LedgerText(intents)) else old(storage.ledger)
  {
    if |intents| > MAX_LEDGER_RECORDS { return Failure(CapacityExhausted); }
    var serialized := LedgerText(intents);
    var kept := storage.SetItem(serialized);
    if !kept || storage.ledger != Some(serialized) { return Failure(StorageFailed); }
    return Success(());
  }

  /** An operation is carried out in full; or storage refuses what it writes, and it fails with nothing changed. */
  ghost predicate Carried<T(!new)>(e: Effect<T>, before: Option<string>, after: Option<string>, r: Result<T, LedgerError>) {
    || (r == e.result && after == TextAfter(before, e.written))
    || (e.written.Some? && r == Failure(StorageFailed) && after == before)
  }

  /** The stored text after an operation that persisted `written`, or nothing. */
  ghost function TextAfter(before: Option<string>, written: Option<seq<Intent>>): Option<string> {
    match written case Some(l) => Some(LedgerText(l)) case None => before
  }

  class SendIntentTracker {
    const storage: LedgerStorage
    const scope: string
    const ttlMs: int
    const dispatchLeaseMs: int

    ghost predicate Valid() {
      IsScope(scope) && 0 < ttlMs <= MAX_INTENT_TTL_MS && 0 < dispatchLeaseMs <= ttlMs
    }

    constructor (storage: LedgerStorage, scope: string, ttlMs: int, dispatchLeaseMs: int)
      requires IsScope(scope) && 0 < ttlMs <= MAX_INTENT_TTL_MS && 0 < dispatchLeaseMs <= ttlMs
      ensures Valid() && this.storage == storage && this.scope == scope
      ensures this.ttlMs == ttlMs && this.dispatchLeaseMs == dispatchLeaseMs
    {
      this.storage := storage;
      this.scope := scope;
      this.ttlMs := ttlMs;
      this.dispatchLeaseMs := dispatchLeaseMs;
    }

    method KeyFor(contextDigest: string, payloadDigest: string, timestamp: int, uuid: string) returns (r: Result<string, LedgerError>)
      requires Valid() && ClockInRange(timestamp, ttlMs) && IsDigest(contextDigest) && IsDigest(payloadDigest)
      modifies storage
      ensures var parsed := old(ParseLedger(storage.ledger, timestamp));
        match parsed
        case Failure(e) => r == Failure(e) && storage.ledger == old(storage.ledger)
        case Success(l) =>
          var e := IntentOperations.KeyFor(l, Identity(scope, contextDigest, payloadDigest), timestamp, ttlMs, uuid);
          Carried(e, old(storage.ledger), storage.ledger, r)
      ensures old(storage.ReadableAt(timestamp)) ==> forall t :: timestamp <= t ==> storage.ReadableAt(t)
    {
      hide ParseLedger, WellFormed, Accepted, LedgerText, IsIdempotencyKey, ClockInRange, IsScope, IsDigest;
      ghost var before := storage.ledger;
      var parsed := ParseLedgerText(storage.ledger, timestamp);
      if parsed.Failure? { return Failure(parsed.error); }
      var id := Identity(scope, contextDigest, payloadDigest);
      ghost var effect := IntentOperations.KeyFor(parsed.value, id, timestamp, ttlMs, uuid);
      var active := ActiveAt(parsed.value, timestamp);
      var existing := FindIdentity(active, id);
      if |active| > MAX_LEDGER_RECORDS {
        r := Failure(CapacityExhausted);
      } else if existing < |active| {
        r := Success(active[existing].key);
        if |active| != |parsed.value| {
          var persisted := PersistLedger(storage, active);
          if persisted.Failure? { r := Failure(persisted.error); }
        }
      } else if |active| == MAX_LEDGER_RECORDS {
        r := Failure(CapacityExhausted);
      } else {
        var key := scope + ":" + uuid;
        if !IsIdempotencyKey(key) {
          r := Failure(NotCanonicalKey);
        } else if IntentOperations.Find(active, key) < |active| {
          r := Failure(DuplicateKey);
        } else {
          var created := Created(id, key, timestamp, ttlMs);
          var persisted := PersistLedger(storage, active + [created]);
          r := if persisted.Success? then Success(key) else Failure(persisted.error);
        }
      }
      assert Carried(effect, before, storage.ledger, r);
      KeyForReadable(before, parsed.value, id, timestamp, uuid);
    }

    lemma KeyForReadable(before: Option<string>, l: seq<Intent>, id: Identity, timestamp: int, uuid: string)
      requires ParseLedger(before, timestamp) == Success(l) && ClockInRange(timestamp, ttlMs)
      requires IsScope(id.scope) && IsDigest(id.contextDigest) && IsDigest(id.payloadDigest)
      ensures var e := IntentOperations.KeyFor(l, id, timestamp, ttlMs, uuid);
        forall t :: timestamp <= t ==> ParseLedger(before, t).Success? && ParseLedger(TextAfter(before, e.written), t).Success?
    {
      var e := IntentOperations.KeyFor(l, id, timestamp, ttlMs, uuid);
      forall t | timestamp <= t ensures ParseLedger(before, t).Success? && ParseLedger(TextAfter(before, e.written), t).Success? {
        KeyForAccepted(l, id, timestamp, ttlMs, uuid, t);
        if e.written.Some? { WellFormedSized(e.written.value, t); }
        ReadableAfter(before, l, timestamp, e.written, t);
      }
    }

    /** A text persisted by an operation, or left in place by one, is readable when its records are acceptable. */
    lemma ReadableAfter(before: Option<string>, l: seq<Intent>, timestamp: int, written: Option<seq<Intent>>, t: int)
      requires ParseLedger(before, timestamp) == Success(l) && timestamp <= t
      requires written.Some? ==> |written.value| <= MAX_LEDGER_RECORDS && AllSized(written.value)
      ensures ParseLedger(before, t) == Success(l)
      ensures written.Some? ==> (ParseLedger(TextAfter(before, written), t)
           == if Accepted(written.value, t) then Success(written.value) else Failure(CorruptLedger))
    {
      AcceptedLater(l, timestamp, t);
      if written.Some? { PersistedReads(written.value, t); }
    }

    method Claim(key: string, timestamp: int, owner: string) returns (r: Result<string, LedgerError>)
      requires Valid() && ClockInRange(timestamp, ttlMs) && IsUuid(owner)
      modifies storage
      ensures var parsed := old(ParseLedger(storage.ledger, timestamp));
        match parsed
        case Failure(e) => r == Failure(e) && storage.ledger == old(storage.ledger)
        case Success(l) =>
          var e := IntentOperations.Claim(l, key, timestamp, dispatchLeaseMs, owner);
          Carried(if e.written.Some? && !Accepted(e.written.value, timestamp) then e.(result := Failure(CorruptLedger)) else e,
                  old(storage.ledger), storage.ledger, r)
      ensures r.Success? ==> Owns(storage.Records(timestamp), key, owner, timestamp)
      ensures r.Success? ==> forall t :: timestamp <= t ==> storage.ReadableAt(t)
    {
      hide LedgerText, FieldsValid, TimesValid, StateValid, ReadLedger;
      ghost var before := storage.ledger;
      var parsed := ParseLedgerText(storage.ledger, timestamp);
      if parsed.Failure? { return Failure(parsed.error); }
      var intents := parsed.value;
      var n := IntentOperations.Find(intents, key);
      if n == |intents| || intents[n].expiresAt <= timestamp { return Failure(MissingIntent); }
      var intent := intents[n];
      if intent.dispatchOwner.Some? && intent.dispatchLeaseExpiresAt.Some? && intent.dispatchLeaseExpiresAt.value > timestamp {
        return Failure(Busy);
      }
      if intent.state.Ready? { intent := intent.(state := Inflight); }
      intent := intent.(dispatchOwner := Some(owner), updatedAt := timestamp);
      var leaseExpiry := Min(timestamp + dispatchLeaseMs, intent.expiresAt);
      intent := intent.(dispatchLeaseExpiresAt := Some(leaseExpiry));
      if leaseExpiry <= timestamp { return Failure(TooCloseToExpiry); }
      ghost var effect := IntentOperations.Claim(intents, key, timestamp, dispatchLeaseMs, owner);
      var persisted := PersistLedger(storage, intents[n := intent]);
      if persisted.Failure? { return Failure(persisted.error); }
      ClaimSized(intents, n, intent, timestamp);
      ReadableAfter(before, intents, timestamp, Some(intents[n := intent]), timestamp);
      var verified := ParseLedgerText(storage.ledger, timestamp);
      if verified.Failure? { return Failure(verified.error); }
      OwnsReplaced(intents, n, intent, key, owner, timestamp);
      forall t | timestamp <= t ensures storage.ReadableAt(t) {
        AcceptedLater(intents[n := intent], timestamp, t);
        PersistedReads(intents[n := intent], t);
      }
      return Success(owner);
    }

    lemma ClaimSized(l: seq<Intent>, n: nat, i: Intent, timestamp: int)
      requires AllWellFormed(l, timestamp) && n < |l| && 0 < timestamp <= MAX_SAFE_INTEGER
      requires exists owner, state, lease ::
        && IsUuid(owner) && 0 <= lease <= MAX_SAFE_INTEGER
        && i == l[n].(state := state, dispatchOwner := Some(owner), updatedAt := timestamp, dispatchLeaseExpiresAt := Some(lease))
      ensures AllSized(l[n := i])
    {
      WellFormedSized(l, timestamp);
      assert Sized(l[n]);
    }

    lemma OwnsReplaced(l: seq<Intent>, n: nat, i: Intent, key: string, owner: string, timestamp: int)
      requires n == IntentOperations.Find(l, key) < |l| && i.key == key && i.dispatchOwner == Some(owner) && LeaseRuns(i, timestamp)
      ensures Owns(l[n := i], key, owner, timestamp)
    {
      var l' := l[n := i];
      assert forall k :: 0 <= k < n ==> l'[k] == l[k];
      assert l'[n] == i;
      assert IntentOperations.Find(l', key) == n;
    }

    /** The ownership test at the HTTP boundary. */
    method AssertOwnership(key: string, owner: string, timestamp: int) returns (r: Result<(), LedgerError>)
      ensures match ParseLedger(storage.ledger, timestamp)
        case Failure(e) => r == Failure(e)
        case Success(l) => r == if Owns(l, key, owner, timestamp) then Success(()) else Failure(OwnershipLost)
    {
      var parsed := ParseLedgerText(storage.ledger, timestamp);
      if parsed.Failure? { return Failure(parsed.error); }
      return if Owns(parsed.value, key, owner, timestamp) then Success(()) else Failure(OwnershipLost);
    }

    /** One heartbeat; any error reads as lost ownership. */
    method RenewOwnership(key: string, owner: string, timestamp: int) returns (r: Result<(), LedgerError>)
      requires Valid() && ClockInRange(timestamp, ttlMs)
      modifies storage
      ensures r.Failure? ==> r.error == OwnershipLost
      ensures match old(ParseLedger(storage.ledger, timestamp))
        case Failure(e) => r.Failure? && storage.ledger == old(storage.ledger)
        case Success(l) =>
          var e := IntentOperations.Renew(l, key, owner, timestamp, dispatchLeaseMs);
          if r.Success? then e.result.Success? && storage.ledger == TextAfter(old(storage.ledger), e.written) && Accepted(e.written.value, timestamp)
          else storage.ledger == old(storage.ledger)
               || (e.written.Some? && storage.ledger == TextAfter(old(storage.ledger), e.written) && !Accepted(e.written.value, timestamp))
      ensures r.Success? ==> Owns(storage.Records(timestamp), key, owner, timestamp)
    {
      ghost var before := storage.ledger;
      var parsed := ParseLedgerText(storage.ledger, timestamp);
      if parsed.Failure? { return Failure(OwnershipLost); }
      var intents := parsed.value;
      var n := IntentOperations.Find(intents, key);
      if !Owns(intents, key, owner, timestamp) || intents[n].expiresAt <= timestamp { return Failure(OwnershipLost); }
      var intent := Leased(intents[n], owner, timestamp, dispatchLeaseMs);
      var persisted := PersistLedger(storage, intents[n := intent]);
      if persisted.Failure? { return Failure(OwnershipLost); }
      assert WellFormed(intents[n], timestamp);
      ClaimSized(intents, n, intent, timestamp);
      ReadableAfter(before, intents, timestamp, Some(intents[n := intent]), timestamp);
      var verified := ParseLedgerText(storage.ledger, timestamp);
      if verified.Failure? { return Failure(OwnershipLost); }
      OwnsReplaced(intents, n, intent, key, owner, timestamp);
      return Success(());
    }

    method Settle(key: string, outcome: SendOutcome, owner: string, timestamp: int) returns (r: Result<(), LedgerError>)
      requires Valid() && ClockInRange(timestamp, ttlMs)
      modifies storage
      ensures match old(ParseLedger(storage.ledger, timestamp))
        case Failure(e) => r == Failure(e) && storage.ledger == old(storage.ledger)
        case Success(l) =>
          var e := IntentOperations.Settle(l, key, outcome, owner, timestamp, ttlMs);
          && Carried(e, old(storage.ledger), storage.ledger, r)
          && (e.written.Some? && r.Success? ==> forall t :: timestamp <= t ==>
                (storage.ReadableAt(t) <==> Settleable(l[IntentOperations.Find(l, key)], outcome, timestamp, ttlMs)))
    {
      ghost var before := storage.ledger;
      var parsed := ParseLedgerText(storage.ledger, timestamp);
      if parsed.Failure? { return Failure(parsed.error); }
      var intents := parsed.value;
      var n := IntentOperations.Find(intents, key);
      if n == |intents| { return Failure(MissingIntent); }
      if intents[n].dispatchOwner != Some(owner) { return Failure(Busy); }
      var settled := Settled(intents[n], outcome, timestamp, ttlMs);
      var remaining := if settled.Some? then intents[n := settled.value] else Without(intents, key);
      r := PersistLedger(storage, remaining);
      if r.Success? {
        SettleSized(intents, n, outcome, timestamp, ttlMs, remaining);
        forall t | timestamp <= t
          ensures storage.ReadableAt(t) <==> Settleable(intents[n], outcome, timestamp, ttlMs)
        {
          SettleAcceptedIff(intents, key, outcome, owner, timestamp, ttlMs, t);
          PersistedReads(remaining, t);
        }
      }
    }

    lemma SettleSized(l: seq<Intent>, n: nat, outcome: SendOutcome, timestamp: int, ttl: int, remaining: seq<Intent>)
      requires AllWellFormed(l, timestamp) && n < |l| && ClockInRange(timestamp, ttl)
      requires remaining == match Settled(l[n], outcome, timestamp, ttl) case Some(i) => l[n := i] case None => Without(l, l[n].key)
      ensures AllSized(remaining)
    {
      WellFormedSized(l, timestamp);
      assert Sized(l[n]);
      forall k | 0 <= k < |remaining| ensures Sized(remaining[k]) {
        if Settled(l[n], outcome, timestamp, ttl).None? {
          assert remaining[k] in l;
        }
      }
    }
  }

  // ---------------------------------------------------------------- creating a tracker

  const DEFAULT_INTENT_TTL_MS := 24 * 60 * 60 * 1000
  const DEFAULT_LEDGER_LOCK_TTL_MS := 2000
  const DEFAULT_LEDGER_LOCK_WAIT_MS := 3000
  const DEFAULT_LEDGER_LOCK_SETTLE_MS := 25
  const DEFAULT_DISPATCH_LEASE_MS := 2 * 60 * 1000

  datatype Options = Options(
    ttlMs: Option<int>,
    lockTtlMs: Option<int>,
    lockWaitMs: Option<int>,
    lockSettleMs: Option<int>,
    dispatchLeaseMs: Option<int>
  )

  function OrElse(o: Option<int>, default: int): int { match o case Some(n) => n case None => default }

  function LeaseOf(o: Options): int {
    var ttl := OrElse(o.ttlMs, DEFAULT_INTENT_TTL_MS);
    OrElse(o.dispatchLeaseMs, if ttl < DEFAULT_DISPATCH_LEASE_MS then ttl else DEFAULT_DISPATCH_LEASE_MS)
  }

  predicate PositiveSafe(n: int) { 0 < n <= MAX_SAFE_INTEGER }

  /** A configuration the program does not refuse. */
  predicate ValidConfiguration(scope: string, o: Options) {
    var settle, wait := OrElse(o.lockSettleMs, DEFAULT_LEDGER_LOCK_SETTLE_MS), OrElse(o.lockWaitMs, DEFAULT_LEDGER_LOCK_WAIT_MS);
    && IsScope(scope)
    && 0 < LeaseOf(o) <= OrElse(o.ttlMs, DEFAULT_INTENT_TTL_MS) <= MAX_INTENT_TTL_MS
    && PositiveSafe(OrElse(o.lockTtlMs, DEFAULT_LEDGER_LOCK_TTL_MS)) && PositiveSafe(settle) && PositiveSafe(wait)
    && settle <= wait
  }

  /** Every option is absent or in its range: a lifetime of at most a week, a lease no longer than that, and a wait no shorter than the settling. */
  lemma ConfigurationMeaning(scope: string, o: Options)
    ensures var ttl := if o.ttlMs.Some? then o.ttlMs.value else 86400000;
      var settle, wait := if o.lockSettleMs.Some? then o.lockSettleMs.value else 25, if o.lockWaitMs.Some? then o.lockWaitMs.value else 3000;
      && (ValidConfiguration(scope, o)
          <==> && IsScope(scope) && 1 <= ttl <= 604800000
               && (o.dispatchLeaseMs.Some? ==> 1 <= o.dispatchLeaseMs.value <= ttl)
               && (o.lockTtlMs.Some? ==> 1 <= o.lockTtlMs.value <= 9007199254740991)
               && 1 <= settle <= wait <= 9007199254740991)
      && (o.dispatchLeaseMs.Some? ==> LeaseOf(o) == o.dispatchLeaseMs.value)
      && (o.dispatchLeaseMs.None? ==> LeaseOf(o) <= ttl && LeaseOf(o) <= 120000 && (LeaseOf(o) == ttl || LeaseOf(o) == 120000))
  {
    hide IsScope;
  }

  /** A tracker for exactly the valid configurations; None is the program's exception. */
  method CreateManualSendIntentTracker(storage: LedgerStorage, scope: string, options: Options) returns (tracker: Option<SendIntentTracker>)
    ensures tracker.Some? <==> ValidConfiguration(scope, options)
    ensures tracker.Some? ==> tracker.value.Valid() && tracker.value.storage == storage && tracker.value.scope == scope
    ensures tracker.Some? ==> tracker.value.ttlMs == OrElse(options.ttlMs, DEFAULT_INTENT_TTL_MS) && tracker.value.dispatchLeaseMs == LeaseOf(options)
  {
    var ttlMs := OrElse(options.ttlMs, DEFAULT_INTENT_TTL_MS);
    var dispatchLeaseMs := LeaseOf(options);
    var lockTtlMs := OrElse(options.lockTtlMs, DEFAULT_LEDGER_LOCK_TTL_MS);
    var lockWaitMs := OrElse(options.lockWaitMs, DEFAULT_LEDGER_LOCK_WAIT_MS);
    var lockSettleMs := OrElse(options.lockSettleMs, DEFAULT_LEDGER_LOCK_SETTLE_MS);
    if !IsScope(scope) || ttlMs <= 0 || ttlMs > MAX_INTENT_TTL_MS || dispatchLeaseMs <= 0 || dispatchLeaseMs > ttlMs
       || !PositiveSafe(lockTtlMs) || !PositiveSafe(lockWaitMs) || !PositiveSafe(lockSettleMs) || lockWaitMs < lockSettleMs {
      return None;
    }
    var created := new SendIntentTracker(storage, scope, ttlMs, dispatchLeaseMs);
    return Some(created);
  }
}
