/**
 Whether the ledger can be read, in whole runs of `runManualSendIntent`. Everything the operations
 persist is accepted by the re-parser at every later time, but for one settlement: a success so late that
 the record's lifetime passes the maximum. From then on the ledger can never be read again, and nothing
 is sent.
 */
module ReadableRuns {
  import opened Wrappers
  import opened IntentLedger
  import opened IntentOperations
  import opened JsText
  import opened SendRuns

  // ---------------------------------------------------------------- the clock is never behind a record

  predicate PastTimes(i: Intent, timestamp: int) {
    i.updatedAt <= timestamp && NotBehind(i, timestamp)
  }

  /** A record within its formats, stamped by clock readings of the past. */
  predicate Kept(i: Intent, timestamp: int) { Sized(i) && PastTimes(i, timestamp) }

  ghost predicate AllKept(l: seq<Intent>, timestamp: int) { forall i :: i in l ==> Kept(i, timestamp) }

  /** What can be said of every ledger ever persisted, readable or not. */
  ghost predicate Stored(l: seq<Intent>, timestamp: int) { |l| <= MAX_LEDGER_RECORDS && AllKept(l, timestamp) }

  lemma StoredLater(l: seq<Intent>, t: int, t': int)
    requires t <= t' && Stored(l, t)
    ensures Stored(l, t')
  {
    hide Sized;
    forall i | i in l ensures Kept(i, t') { assert Kept(i, t); }
  }

  lemma ReplacedStored(l: seq<Intent>, n: nat, i: Intent, t: int)
    requires Stored(l, t) && n < |l| && Kept(i, t)
    ensures Stored(l[n := i], t)
  {
    hide Kept;
    forall r | r in l[n := i] ensures Kept(r, t) {
      if r != i { assert r in l; }
    }
  }

  lemma LeasedKept(i: Intent, owner: string, t: int, leaseMs: int)
    requires Kept(i, t) && IsUuid(owner) && ClockInRange(t, leaseMs)
    ensures Kept(Leased(i, owner, t, leaseMs), t)
  {
    hide IsScope, IsDigest, IsIdempotencyKey, IsUuid;
  }

  lemma KeyForStored(l: seq<Intent>, id: Identity, t: int, ttl: int, uuid: string)
    requires Stored(l, t) && ClockInRange(t, ttl) && IsIdentity(id)
    ensures var e := KeyFor(l, id, t, ttl, uuid); e.written.Some? ==> Stored(e.written.value, t)
  {
    hide IsScope, IsDigest, IsIdempotencyKey;
    var active, key := ActiveAt(l, t), id.scope + ":" + uuid;
    assert AllKept(active, t) by { hide Kept; }
    if IsIdempotencyKey(key) { assert Kept(Created(id, key, t, ttl), t); }
  }

  lemma ClaimStored(l: seq<Intent>, key: string, t: int, leaseMs: int, owner: string)
    requires Stored(l, t) && ClockInRange(t, leaseMs) && IsUuid(owner)
    ensures var e := Claim(l, key, t, leaseMs, owner); e.written.Some? ==> Stored(e.written.value, t)
  {
    var n := Find(l, key);
    hide IsUuid;
    if n < |l| {
      assert l[n] in l;
      var i := if l[n].state.Ready? then l[n].(state := Inflight) else l[n];
      LeasedKept(i, owner, t, leaseMs);
      ReplacedStored(l, n, Leased(i, owner, t, leaseMs), t);
    }
  }

  lemma RenewStored(l: seq<Intent>, key: string, owner: string, t: int, leaseMs: int)
    requires Stored(l, t) && ClockInRange(t, leaseMs)
    ensures var e := Renew(l, key, owner, t, leaseMs); e.written.Some? ==> Stored(e.written.value, t)
  {
    var n := Find(l, key);
    if Owns(l, key, owner, t) {
      assert l[n] in l;
      assert IsUuid(owner);
      hide IsUuid;
      LeasedKept(l[n], owner, t, leaseMs);
      ReplacedStored(l, n, Leased(l[n], owner, t, leaseMs), t);
    }
  }

  lemma SettledKept(i: Intent, outcome: SendOutcome, t: int, ttl: int)
    requires Kept(i, t) && ClockInRange(t, ttl)
    ensures var settled := Settled(i, outcome, t, ttl); settled.Some? ==> Kept(settled.value, t)
  {
    hide IsScope, IsDigest, IsIdempotencyKey, IsUuid;
  }

  lemma SettleStored(l: seq<Intent>, key: string, outcome: SendOutcome, owner: string, t: int, ttl: int)
    requires Stored(l, t) && ClockInRange(t, ttl)
    ensures var e := Settle(l, key, outcome, owner, t, ttl); e.written.Some? ==> Stored(e.written.value, t)
  {
    var n := Find(l, key);
    if n < |l| {
      assert l[n] in l;
      SettledKept(l[n], outcome, t, ttl);
      hide Kept;
      match Settled(l[n], outcome, t, ttl)
      case Some(i) => ReplacedStored(l, n, i, t);
      case None =>
    }
  }

  lemma StepStored(s: State, s': State)
    requires Next(s, s') && Stored(s.ledger, s.now)
    ensures Stored(s'.ledger, s'.now) && s.now <= s'.now
  {
    hide Stored, Accepted, Owns, Kept;
    if w, id, ttl, uuid :| StepKeyFor(s, s', w, id, ttl, uuid) {
      hide IsIdentity, ClockInRange;
      KeyForStored(s.ledger, id, s.now, ttl, uuid);
    } else if w, leaseMs, owner :| StepClaim(s, s', w, leaseMs, owner) {
      hide Claim, ClockInRange, IsUuid;
      ClaimStored(s.ledger, s.windows[w].key, s.now, leaseMs, owner);
    } else if w, leaseMs :| StepHeartbeat(s, s', w, leaseMs) {
      hide Renew, ClockInRange;
      RenewStored(s.ledger, s.windows[w].key, s.windows[w].owner, s.now, leaseMs);
    } else if w, ttl :| StepSettle(s, s', w, ttl) {
      hide Settle, ClockInRange;
      var Settling(key, owner, reply) := s.windows[w];
      SettleStored(s.ledger, key, OutcomeOf(reply), owner, s.now, ttl);
    } else if ms :| StepTick(s, s', ms) {
      StoredLater(s.ledger, s.now, s'.now);
    }
  }

  lemma {:induction false} RunStored(run: seq<State>, n: nat)
    requires IsRun(run) && n < |run|
    ensures Stored(run[n].ledger, run[n].now)
  {
    hide Next;
    if n > 0 {
      RunStored(run, n - 1);
      StepStored(run[n - 1], run[n]);
    }
  }

  // ---------------------------------------------------------------- when a step leaves a readable ledger

  /** The clock alone makes no ledger readable: its skew tests pass already. */
  lemma ReadableAnyTime(l: seq<Intent>, t: int, t': int)
    requires AllKept(l, t) && t <= t'
    ensures Accepted(l, t) <==> Accepted(l, t')
  {
    if Accepted(l, t) { AcceptedLater(l, t, t'); }
    if Accepted(l, t') {
      forall i | 0 <= i < |l| ensures WellFormed(l[i], t) {
        assert l[i] in l && WellFormed(l[i], t');
        hide FieldsValid, LeaseValid, StateValid, Sized;
      }
    }
  }

  /** If this step is a settlement, what it writes can be read again. */
  ghost predicate SettlesWell(s: State, s': State) {
    forall w, ttl :: StepSettle(s, s', w, ttl) ==> SettlementReadable(s, w, ttl)
  }

  predicate SettlementReadable(s: State, w: nat, ttl: int)
    requires w in s.windows && s.windows[w].Settling?
  {
    var Settling(key, owner, reply) := s.windows[w];
    var outcome := OutcomeOf(reply);
    var n := Find(s.ledger, key);
    Settle(s.ledger, key, outcome, owner, s.now, ttl).written.Some? && n < |s.ledger| ==> Settleable(s.ledger[n], outcome, s.now, ttl)
  }

  lemma SettleReadableIff(s: State, s': State, w: nat, ttl: int)
    requires StepSettle(s, s', w, ttl)
    ensures Accepted(s'.ledger, s'.now) <==> SettlementReadable(s, w, ttl)
  {
    var Settling(key, owner, reply) := s.windows[w];
    var outcome := OutcomeOf(reply);
    hide Accepted, ClockInRange, Settleable;
    if Settle(s.ledger, key, outcome, owner, s.now, ttl).written.Some? {
      SettleAcceptedIff(s.ledger, key, outcome, owner, s.now, ttl, s.now);
    }
  }

  lemma OtherStepReadable(s: State, s': State)
    requires Next(s, s') && Stored(s.ledger, s.now) && !(exists w, ttl :: StepSettle(s, s', w, ttl))
    ensures Accepted(s'.ledger, s'.now) <==> Accepted(s.ledger, s.now)
  {
    hide Accepted, Owns, Kept, KeyFor, Claim, Renew, Settle, StepSettle, Definite, AllKept, ClockInRange, IsUuid;
    if w, id, ttl, uuid :| StepKeyFor(s, s', w, id, ttl, uuid) {
      KeyForAccepted(s.ledger, id, s.now, ttl, uuid, s.now);
    } else if w, leaseMs, owner :| StepClaim(s, s', w, leaseMs, owner) {
      ClaimReadable(s, w, leaseMs, owner);
    } else if w, leaseMs :| StepHeartbeat(s, s', w, leaseMs) {
      if Accepted(s.ledger, s.now) { HeartbeatReadable(s, w, leaseMs); }
    } else if ms :| StepTick(s, s', ms) {
      ReadableAnyTime(s.ledger, s.now, s'.now);
    }
  }

  lemma ClaimReadable(s: State, w: nat, leaseMs: int, owner: string)
    requires Stored(s.ledger, s.now) && Accepted(s.ledger, s.now) && ClockInRange(s.now, leaseMs) && IsUuid(owner)
    requires w in s.windows && s.windows[w].Minted?
    ensures var e := Claim(s.ledger, s.windows[w].key, s.now, leaseMs, owner); e.written.Some? ==> Accepted(e.written.value, s.now)
  {
    hide Accepted, IsUuid;
    var key := s.windows[w].key;
    var n := Find(s.ledger, key);
    if Claim(s.ledger, key, s.now, leaseMs, owner).written.Some? {
      assert s.ledger[n] in s.ledger;
      ClaimAcceptedIff(s.ledger, key, s.now, leaseMs, owner, s.now);
    }
  }

  lemma HeartbeatReadable(s: State, w: nat, leaseMs: int)
    requires Stored(s.ledger, s.now) && Accepted(s.ledger, s.now) && ClockInRange(s.now, leaseMs)
    requires w in s.windows && s.windows[w].Sending?
    ensures var e := Renew(s.ledger, s.windows[w].key, s.windows[w].owner, s.now, leaseMs); e.written.Some? ==> Accepted(e.written.value, s.now)
  {
    hide Accepted;
    var Sending(key, owner, _) := s.windows[w];
    var n := Find(s.ledger, key);
    if Renew(s.ledger, key, owner, s.now, leaseMs).written.Some? {
      assert s.ledger[n] in s.ledger;
      RenewAcceptedIff(s.ledger, key, owner, s.now, leaseMs, s.now);
    }
  }

  lemma StepReadableIff(s: State, s': State)
    requires Next(s, s') && Stored(s.ledger, s.now)
    ensures Accepted(s'.ledger, s'.now) <==> Accepted(s.ledger, s.now) && SettlesWell(s, s')
  {
    hide Next, Stored, SettlementReadable, Accepted;
    if w, ttl :| StepSettle(s, s', w, ttl) {
      assert Accepted(s.ledger, s.now);
      forall v, ttl' | StepSettle(s, s', v, ttl') ensures Accepted(s'.ledger, s'.now) <==> SettlementReadable(s, v, ttl') {
        SettleReadableIff(s, s', v, ttl');
      }
    } else {
      OtherStepReadable(s, s');
    }
  }

  // ---------------------------------------------------------------- when a run keeps its ledger readable

  ghost predicate AllSettleWell(run: seq<State>, n: nat)
    requires n < |run|
  {
    forall i :: 0 <= i < n ==> SettlesWell(run[i], run[i + 1])
  }

  /**
   In every run the ledger can be read exactly if every settlement so far met its condition: of the one
   that does not the ledger never recovers.
   */
  lemma {:induction false} ReadableIff(run: seq<State>, n: nat)
    requires IsRun(run) && n < |run|
    ensures Accepted(run[n].ledger, run[n].now) <==> AllSettleWell(run, n)
  {
    hide Next, SettlesWell, Stored;
    if n > 0 {
      ReadableIff(run, n - 1);
      RunStored(run, n - 1);
      StepReadableIff(run[n - 1], run[n]);
      assert run[n - 1 + 1] == run[n];
    }
  }

  /** If this step is a settlement, the record it settles has not passed its expiry. */
  ghost predicate SettlesInTime(s: State, s': State) {
    forall w, ttl :: StepSettle(s, s', w, ttl) ==>
      var n := Find(s.ledger, s.windows[w].key); n < |s.ledger| ==> s.now <= s.ledger[n].expiresAt
  }

  lemma InTimeSettlesWell(s: State, s': State)
    requires Stored(s.ledger, s.now) && SettlesInTime(s, s')
    ensures SettlesWell(s, s')
  {
    forall w, ttl | StepSettle(s, s', w, ttl) ensures SettlementReadable(s, w, ttl) {
      var n := Find(s.ledger, s.windows[w].key);
      if n < |s.ledger| {
        var i := s.ledger[n];
        assert i in s.ledger && WellFormed(i, s.now);
        hide Settle, WellFormed, Accepted;
        TimelySettlement(i, OutcomeOf(s.windows[w].reply), s.now, ttl);
      }
    }
  }

  /** Where no record is settled past its expiry, whatever is persisted is accepted at every later time. */
  lemma LedgerStaysReadable(run: seq<State>, n: nat)
    requires IsRun(run) && n < |run|
    requires forall i :: 0 <= i < n ==> SettlesInTime(run[i], run[i + 1])
    ensures forall t :: run[n].now <= t ==> ParseLedger(Some(LedgerText(run[n].ledger)), t) == Success(run[n].ledger)
  {
    hide Next, SettlesWell, SettlesInTime, Stored, Accepted, LedgerText, ParseLedger;
    forall i | 0 <= i < n ensures SettlesWell(run[i], run[i + 1]) {
      RunStored(run, i);
      InTimeSettlesWell(run[i], run[i + 1]);
    }
    ReadableIff(run, n);
    RunStored(run, n);
    forall t | run[n].now <= t ensures ParseLedger(Some(LedgerText(run[n].ledger)), t) == Success(run[n].ledger) {
      AcceptedLater(run[n].ledger, run[n].now, t);
      StoredReads(run[n].ledger, run[n].now, t);
    }
  }

  lemma StoredReads(l: seq<Intent>, t: int, t': int)
    requires Stored(l, t)
    ensures ParseLedger(Some(LedgerText(l)), t') == if Accepted(l, t') then Success(l) else Failure(CorruptLedger)
  {
    forall i | 0 <= i < |l| ensures Sized(l[i]) { assert l[i] in l; }
    hide Accepted, LedgerText, ParseLedger, Sized, Kept;
    PersistedReads(l, t');
  }

  // ---------------------------------------------------------------- one key per identity

  /** What `keyFor` of the tracker returns or throws, on the text that is stored. */
  ghost function TrackerKeyFor(s: State, id: Identity, ttl: int, uuid: string): Result<string, LedgerError> {
    match ParseLedger(Some(LedgerText(s.ledger)), s.now)
    case Failure(e) => Failure(e)
    case Success(l) => KeyFor(l, id, s.now, ttl, uuid).result
  }

  /**
   Once a key is minted, and until its record expires or the server definitely rejects it, `keyFor` gives
   exactly this key for its identity, as long as every settlement met its condition; and if one did not,
   it gives no key at all.
   */
  lemma KeyIsStable(run: seq<State>, n: nat, m: Mint, ttl: int, uuid: string)
    requires IsRun(run) && n < |run| && m in run[n].mints
    requires m.key !in run[n].rejected && m.key in run[n].lastExpiry && run[n].lastExpiry[m.key] > run[n].now
    ensures TrackerKeyFor(run[n], m.id, ttl, uuid) == if AllSettleWell(run, n) then Success(m.key) else Failure(CorruptLedger)
  {
    hide IsRun, AllSettleWell, Inv, Accepted, LedgerText, ParseLedger, KeyFor, AllKept;
    var s := run[n];
    ReadableIff(run, n);
    RunStored(run, n);
    RunKeepsInv(run, n);
    StoredReads(s.ledger, s.now, s.now);
    MintedKeyChosen(s, m, ttl, uuid);
  }

  // ---------------------------------------------------------------- what a settled failure leaves

  lemma WithoutFewer(l: seq<Intent>, r: Intent)
    requires r in l
    ensures |Without(l, r.key)| < |l|
  {
    if l[0] != r {
      assert l == [l[0]] + l[1..];
      WithoutFewer(l[1..], r);
    }
  }

  lemma UnknownKeepsRecord(l: seq<Intent>, r: Intent, owner: string, t: int, ttl: int) returns (l': seq<Intent>, r': Intent)
    requires Distinct(l) && r in l
    ensures var e := Settle(l, r.key, SendUnknown, owner, t, ttl);
      l' == (match e.written case Some(w) => w case None => l)
    ensures Distinct(l') && |l'| == |l| && r' in l' && r'.key == r.key && IdentityOf(r') == IdentityOf(r) && r'.expiresAt == r.expiresAt
  {
    MemberFound(l, r);
    var n := Find(l, r.key);
    r' := if r.dispatchOwner == Some(owner) && |l| <= MAX_LEDGER_RECORDS then Settled(r, SendUnknown, t, ttl).value else r;
    l' := l[n := r'];
    assert l[n := r] == l;
    assert l'[n] == r';
  }

  /**
   A failure that is not definite, the loss of the response or a status that tells nothing, leaves the
   identity its key: `keyFor` right after its settlement gives the same key, whatever the server did.
   */
  lemma OtherFailureKeepsKey(run: seq<State>, n: nat, w: nat, ttl: int, r: Intent, ttl': int, uuid: string)
    requires IsRun(run) && n + 1 < |run| && StepSettle(run[n], run[n + 1], w, ttl)
    requires run[n].windows[w].reply.Failed? && !Definite(run[n].windows[w].reply.failure)
    requires r in run[n].ledger && r.key == run[n].windows[w].key && r.expiresAt > run[n].now
    ensures TrackerKeyFor(run[n + 1], IdentityOf(r), ttl', uuid) == Success(r.key)
  {
    var s, s' := run[n], run[n + 1];
    var Settling(key, owner, reply) := s.windows[w];
    RejectionIffDefinite(reply.failure);
    RunStored(run, n);
    RunStored(run, n + 1);
    SettleReadableIff(s, s', w, ttl);
    UnknownReadable(s, w, ttl);
    var l', r' := UnknownKeepsRecord(s.ledger, r, owner, s.now, ttl);
    hide IsRun, FailureOutcome, Definite, KeyFor, ParseLedger, LedgerText, Settle, AllKept;
    StoredReads(s'.ledger, s'.now, s'.now);
    ActiveRecordChosen(l', r', s.now, ttl', uuid);
  }

  lemma UnknownReadable(s: State, w: nat, ttl: int)
    requires w in s.windows && s.windows[w].Settling? && OutcomeOf(s.windows[w].reply).SendUnknown? && Stored(s.ledger, s.now)
    ensures SettlementReadable(s, w, ttl)
  {
    var n := Find(s.ledger, s.windows[w].key);
    if n < |s.ledger| { assert s.ledger[n] in s.ledger; }
    hide Settle, Sized;
  }

  /** A definite rejection, settled by the window that holds the claim, frees the identity: the next `keyFor` mints a new key. */
  lemma DefiniteRejectionFreesIdentity(run: seq<State>, n: nat, w: nat, ttl: int, r: Intent, ttl': int, uuid: string)
    requires IsRun(run) && n + 1 < |run| && StepSettle(run[n], run[n + 1], w, ttl)
    requires run[n].windows[w].reply.Failed? && Definite(run[n].windows[w].reply.failure)
    requires r in run[n].ledger && r.key == run[n].windows[w].key && r.dispatchOwner == Some(run[n].windows[w].owner) && !r.state.Completed?
    requires IsUuid(uuid) && forall q :: q in run[n].ledger ==> q.key != r.scope + ":" + uuid
    ensures !InLedger(run[n + 1].ledger, r.key)
    ensures TrackerKeyFor(run[n + 1], IdentityOf(r), ttl', uuid) == Success(r.scope + ":" + uuid)
  {
    var s, s' := run[n], run[n + 1];
    var Settling(key, owner, reply) := s.windows[w];
    RejectionIffDefinite(reply.failure);
    RunStored(run, n);
    RunStored(run, n + 1);
    RejectedGone(s.ledger, r, owner, s.now, ttl);
    SettleReadableIff(s, s', w, ttl);
    hide IsRun, FailureOutcome, Definite, ParseLedger, LedgerText, AllKept;
    StoredReads(s'.ledger, s'.now, s'.now);
    assert IsScope(r.scope) by { MemberWellFormed(s.ledger, r, s.now); }
    NewKeyValid(IdentityOf(r), uuid);
    hide IsUuid, IsScope, IsIdempotencyKey, Accepted;
    FreedKey(Without(s.ledger, r.key), IdentityOf(r), s.now, ttl', uuid);
  }

  lemma MemberWellFormed(l: seq<Intent>, r: Intent, t: int)
    requires Accepted(l, t) && r in l
    ensures IsScope(r.scope)
  {
    var i :| 0 <= i < |l| && l[i] == r;
    assert WellFormed(l[i], t);
  }

  lemma RejectedGone(l: seq<Intent>, r: Intent, owner: string, t: int, ttl: int)
    requires Distinct(l) && r in l && |l| <= MAX_LEDGER_RECORDS && r.dispatchOwner == Some(owner) && !r.state.Completed?
    ensures Settle(l, r.key, BusinessRejection, owner, t, ttl) == Effect(Success(()), Some(Without(l, r.key)))
    ensures |Without(l, r.key)| < MAX_LEDGER_RECORDS && !InLedger(Without(l, r.key), r.key)
    ensures forall q :: q in Without(l, r.key) ==> q in l && IdentityOf(q) != IdentityOf(r)
    ensures Find(l, r.key) < |l| && l[Find(l, r.key)] == r
  {
    MemberFound(l, r);
    WithoutFewer(l, r);
    forall q | q in Without(l, r.key) ensures q in l && IdentityOf(q) != IdentityOf(r) {
      var i :| 0 <= i < |l| && l[i] == q;
      var j := Find(l, r.key);
      assert i != j;
    }
  }

  lemma FreedKey(l: seq<Intent>, id: Identity, t: int, ttl: int, uuid: string)
    requires |l| < MAX_LEDGER_RECORDS && IsIdempotencyKey(id.scope + ":" + uuid)
    requires forall q :: q in l ==> IdentityOf(q) != id && q.key != id.scope + ":" + uuid
    ensures KeyFor(l, id, t, ttl, uuid).result == Success(id.scope + ":" + uuid)
  {
    hide IsIdempotencyKey;
    var active := ActiveAt(l, t);
    assert forall i :: 0 <= i < |active| ==> active[i] in l;
  }

  // ---------------------------------------------------------------- a tombstone is of a performed key

  ghost predicate TombstonesReal(s: State) { forall r :: r in s.ledger && r.state.Completed? ==> r.key in s.performed }

  ghost predicate RepliesReal(s: State) {
    forall w :: w in s.windows && (s.windows[w].Answered? || s.windows[w].Settling?) && s.windows[w].reply.Delivered? ==> s.windows[w].key in s.performed
  }

  ghost predicate SuccessesReal(s: State) { TombstonesReal(s) && RepliesReal(s) }

  /** A record of `l'` that is completed was so in `l`. */
  ghost predicate NoneCompleted(l: seq<Intent>, l': seq<Intent>) {
    forall r' :: r' in l' && r'.state.Completed? ==> exists r :: r in l && r.state.Completed? && r.key == r'.key
  }

  lemma ReplacedCompletes(l: seq<Intent>, n: nat, i: Intent)
    requires n < |l| && i.key == l[n].key && (i.state.Completed? ==> l[n].state.Completed?)
    ensures NoneCompleted(l, l[n := i])
  {
    assert l[n] in l;
  }

  ghost function LedgerAfter<T>(l: seq<Intent>, e: Effect<T>): seq<Intent> { match e.written case Some(w) => w case None => l }

  lemma KeyForCompletes(l: seq<Intent>, id: Identity, t: int, ttl: int, uuid: string)
    ensures NoneCompleted(l, LedgerAfter(l, KeyFor(l, id, t, ttl, uuid)))
  {
    KeyForWritten(l, id, t, ttl, uuid);
    hide KeyFor;
  }

  lemma ClaimCompletes(l: seq<Intent>, key: string, t: int, ms: int, owner: string)
    ensures NoneCompleted(l, LedgerAfter(l, Claim(l, key, t, ms, owner)))
  {
    var n := Find(l, key);
    if n < |l| { ReplacedCompletes(l, n, Leased(if l[n].state.Ready? then l[n].(state := Inflight) else l[n], owner, t, ms)); }
  }

  lemma RenewCompletes(l: seq<Intent>, key: string, owner: string, t: int, ms: int)
    ensures NoneCompleted(l, LedgerAfter(l, Renew(l, key, owner, t, ms)))
  {
    var n := Find(l, key);
    if n < |l| { ReplacedCompletes(l, n, Leased(l[n], owner, t, ms)); }
  }

  lemma SettleCompletes(l: seq<Intent>, key: string, outcome: SendOutcome, owner: string, t: int, ttl: int)
    requires !outcome.SendSuccess?
    ensures NoneCompleted(l, LedgerAfter(l, Settle(l, key, outcome, owner, t, ttl)))
  {
    var n := Find(l, key);
    if n < |l| {
      match Settled(l[n], outcome, t, ttl)
      case Some(i) => ReplacedCompletes(l, n, i);
      case None =>
    }
  }

  /** Only the settlement of a success completes a record. */
  lemma StepCompletes(s: State, s': State)
    requires Next(s, s') && !(exists w, ttl :: StepSettle(s, s', w, ttl) && s.windows[w].reply.Delivered?)
    ensures NoneCompleted(s.ledger, s'.ledger)
  {
    hide Accepted, Owns, ClockInRange;
    if w, id, ttl, uuid :| StepKeyFor(s, s', w, id, ttl, uuid) {
      hide KeyFor;
      KeyForCompletes(s.ledger, id, s.now, ttl, uuid);
    } else if w, leaseMs, owner :| StepClaim(s, s', w, leaseMs, owner) {
      hide Claim;
      ClaimCompletes(s.ledger, s.windows[w].key, s.now, leaseMs, owner);
    } else if w, leaseMs :| StepHeartbeat(s, s', w, leaseMs) {
      hide Renew;
      RenewCompletes(s.ledger, s.windows[w].key, s.windows[w].owner, s.now, leaseMs);
    } else if w, ttl :| StepSettle(s, s', w, ttl) {
      hide Settle;
      SettleCompletes(s.ledger, s.windows[w].key, OutcomeOf(s.windows[w].reply), s.windows[w].owner, s.now, ttl);
    }
  }

  lemma SuccessSettled(s: State, s': State, w: nat, ttl: int)
    requires TombstonesReal(s) && RepliesReal(s) && StepSettle(s, s', w, ttl) && s.windows[w].reply.Delivered?
    ensures TombstonesReal(s')
  {
    var key := s.windows[w].key;
    var n := Find(s.ledger, key);
    hide Accepted, ClockInRange;
    forall r | r in s'.ledger && r.state.Completed? ensures r.key in s'.performed {
      if n < |s.ledger| {
        match Settled(s.ledger[n], SendSuccess, s.now, ttl)
        case Some(i) => assert r in s.ledger || r == i;
        case None =>
      }
    }
  }

  lemma RepliesRealStep(s: State, s': State)
    requires RepliesReal(s) && Next(s, s')
    ensures RepliesReal(s') && s.performed <= s'.performed
  {
    hide KeyFor, Claim, Renew, Settle, Accepted, ClockInRange, Owns, Definite, IsIdentity, IsUuid, Expiries, OutcomeOf;
    if w, id, ttl, uuid :| StepKeyFor(s, s', w, id, ttl, uuid) {
    } else if w, leaseMs, owner :| StepClaim(s, s', w, leaseMs, owner) {
    } else if w :| StepSend(s, s', w) || StepFinish(s, s', w) || StepAbandon(s, s', w) {
    } else if w, leaseMs :| StepHeartbeat(s, s', w, leaseMs) {
    } else if w, reply :| StepReply(s, s', w, reply) {
    } else if w, ttl :| StepSettle(s, s', w, ttl) {
    }
  }

  lemma SuccessesRealStep(s: State, s': State)
    requires SuccessesReal(s) && Next(s, s')
    ensures SuccessesReal(s')
  {
    hide RepliesReal, Next;
    RepliesRealStep(s, s');
    if w, ttl :| StepSettle(s, s', w, ttl) && s.windows[w].reply.Delivered? {
      hide StepSettle;
      SuccessSettled(s, s', w, ttl);
    } else {
      StepCompletes(s, s');
      hide StepSettle;
    }
  }

  /** A tombstone stands for a send that was performed. */
  lemma CompletedWasPerformed(run: seq<State>, n: nat, r: Intent)
    requires IsRun(run) && n < |run| && r in run[n].ledger && r.state.Completed?
    ensures r.key in run[n].performed
  {
    RunSuccesses(run, n);
  }

  lemma {:induction false} RunSuccesses(run: seq<State>, n: nat)
    requires IsRun(run) && n < |run|
    ensures SuccessesReal(run[n])
  {
    hide Next;
    if n > 0 {
      hide SuccessesReal;
      RunSuccesses(run, n - 1);
      SuccessesRealStep(run[n - 1], run[n]);
    }
  }

  // ---------------------------------------------------------------- a run that loses its ledger

  ghost predicate Reachable(s: State) { exists run :: IsRun(run) && run[|run| - 1] == s }

  lemma ReachNext(s: State, s': State)
    requires Reachable(s) && Next(s, s')
    ensures Reachable(s')
  {
    hide Next, Init;
    var run :| IsRun(run) && run[|run| - 1] == s;
    var longer := run + [s'];
    forall i | 0 <= i < |longer| - 1 ensures Next(longer[i], longer[i + 1]) {
      if i < |run| - 1 { assert Next(run[i], run[i + 1]); }
    }
    assert IsRun(longer) && longer[|longer| - 1] == s';
  }

  lemma ReachKeyFor(s: State, s': State, w: nat, id: Identity, ttl: int, uuid: string)
    requires Reachable(s) && StepKeyFor(s, s', w, id, ttl, uuid)
    ensures Reachable(s')
  {
    hide StepKeyFor, Reachable;
    ReachNext(s, s');
  }

  lemma ReachClaim(s: State, s': State, w: nat, leaseMs: int, owner: string)
    requires Reachable(s) && StepClaim(s, s', w, leaseMs, owner)
    ensures Reachable(s')
  {
    hide StepClaim, Reachable;
    ReachNext(s, s');
  }

  lemma ReachSend(s: State, s': State, w: nat)
    requires Reachable(s) && (StepSend(s, s', w) || StepFinish(s, s', w))
    ensures Reachable(s')
  {
    hide StepSend, StepFinish, Reachable;
    ReachNext(s, s');
  }

  lemma ReachReply(s: State, s': State, w: nat, reply: Reply)
    requires Reachable(s) && StepReply(s, s', w, reply)
    ensures Reachable(s')
  {
    hide StepReply, Reachable;
    ReachNext(s, s');
  }

  lemma ReachElse(s: State, s': State)
    requires Reachable(s) && ((exists key :: StepPerform(s, s', key)) || (exists ms :: StepTick(s, s', ms)) || (exists w, ttl :: StepSettle(s, s', w, ttl)))
    ensures Reachable(s')
  {
    hide StepPerform, StepTick, StepSettle, Reachable;
    ReachNext(s, s');
  }

  /** A send of this identity: its minted key, and the record that holds it. */
  function NewKey(id: Identity, uuid: string): string { id.scope + ":" + uuid }

  /** The record of a key minted at time 1 for the longest time there is. */
  function Fresh(id: Identity, uuid: string): Intent { Created(id, NewKey(id, uuid), 1, MAX_INTENT_TTL_MS) }

  function Dispatched(id: Identity, uuid: string, owner: string): Intent {
    Leased(Fresh(id, uuid).(state := Inflight), owner, 1, MAX_INTENT_TTL_MS)
  }

  /** One window, one record, one key. */
  function Alone(now: int, i: Intent, phase: Phase, owners: set<string>, wire: set<string>, performed: set<string>): State {
    State(now, [i], map[0 := phase], [Mint(IdentityOf(i), i.key, 1)], owners, map[i.key := i.expiresAt], wire, performed, {})
  }

  lemma SingleFound(i: Intent)
    ensures Find([i], i.key) == 0 && Distinct([i]) && Expiries([i]) == map[i.key := i.expiresAt]
  {
    assert [i][1..] == [];
    assert Expiries([]) == map[];
  }

  lemma DispatchedReadable(id: Identity, uuid: string, owner: string, t: int)
    requires IsIdentity(id) && IsUuid(uuid) && IsUuid(owner) && 1 <= t
    ensures Accepted([Fresh(id, uuid)], t) && Accepted([Dispatched(id, uuid, owner)], t)
  {
    NewKeyValid(id, uuid);
    hide IsUuid, IsIdempotencyKey, IsScope, IsDigest;
    assert WellFormed(Fresh(id, uuid), t) && WellFormed(Dispatched(id, uuid, owner), t);
  }

  lemma FirstKeyFor(id: Identity, uuid: string)
    requires IsIdentity(id) && IsUuid(uuid)
    ensures KeyFor([], id, 1, MAX_INTENT_TTL_MS, uuid) == Effect(Success(NewKey(id, uuid)), Some([Fresh(id, uuid)]))
  {
    NewKeyValid(id, uuid);
    hide IsUuid, IsIdempotencyKey;
    assert ActiveAt([], 1) == [];
    assert [] + [Fresh(id, uuid)] == [Fresh(id, uuid)];
  }

  function Start(): State { State(1, [], map[0 := Idle], [], {}, map[], {}, {}, {}) }

  lemma ReachStart()
    ensures Reachable(Start()) && Accepted([], 1)
  {
    assert Init(Start());
    hide Next, Init;
    assert IsRun([Start()]);
  }

  lemma FirstMint(id: Identity, uuid: string, i: Intent, key: string)
    requires IsIdentity(id) && key == id.scope + ":" + uuid && i.key == key && IdentityOf(i) == id
    requires KeyFor([], id, 1, MAX_INTENT_TTL_MS, uuid) == Effect(Success(key), Some([i])) && Expiries([i]) == map[key := i.expiresAt]
    ensures StepKeyFor(Start(), Alone(1, i, Minted(key), {}, {}, {}), 0, id, MAX_INTENT_TTL_MS, uuid)
  {
    assert Accepted([], 1) && ClockInRange(1, MAX_INTENT_TTL_MS);
    hide IsIdentity, KeyFor, Expiries, Accepted, ClockInRange, IdentityOf;
    assert map[] + map[key := i.expiresAt] == map[key := i.expiresAt];
  }

  lemma ReachMinted(id: Identity, uuid: string)
    requires IsIdentity(id) && IsUuid(uuid)
    ensures Reachable(Alone(1, Fresh(id, uuid), Minted(NewKey(id, uuid)), {}, {}, {}))
  {
    var i, key := Fresh(id, uuid), NewKey(id, uuid);
    ReachStart();
    FirstKeyFor(id, uuid);
    SingleFound(i);
    hide IsIdentity, IsUuid, KeyFor, Reachable, Expiries, Start, Alone, StepKeyFor;
    FirstMint(id, uuid, i, key);
    ReachKeyFor(Start(), Alone(1, i, Minted(key), {}, {}, {}), 0, id, MAX_INTENT_TTL_MS, uuid);
  }

  lemma FirstClaim(id: Identity, uuid: string, owner: string)
    ensures Claim([Fresh(id, uuid)], NewKey(id, uuid), 1, MAX_INTENT_TTL_MS, owner) == Effect(Success(owner), Some([Dispatched(id, uuid, owner)]))
  {
    SingleFound(Fresh(id, uuid));
    assert [Fresh(id, uuid)][0 := Dispatched(id, uuid, owner)] == [Dispatched(id, uuid, owner)];
  }

  lemma ReachClaimed(id: Identity, uuid: string, owner: string)
    requires IsIdentity(id) && IsUuid(uuid) && IsUuid(owner)
    ensures Reachable(Alone(1, Dispatched(id, uuid, owner), Claimed(NewKey(id, uuid), owner), {owner}, {}, {}))
  {
    var s := Alone(1, Fresh(id, uuid), Minted(NewKey(id, uuid)), {}, {}, {});
    var s' := Alone(1, Dispatched(id, uuid, owner), Claimed(NewKey(id, uuid), owner), {owner}, {}, {});
    ReachMinted(id, uuid);
    FirstClaim(id, uuid, owner);
    SingleFound(Dispatched(id, uuid, owner));
    DispatchedReadable(id, uuid, owner, 1);
    hide IsIdentity, IsUuid, Claim, Reachable, Expiries, Accepted;
    assert StepClaim(s, s', 0, MAX_INTENT_TTL_MS, owner);
    ReachClaim(s, s', 0, MAX_INTENT_TTL_MS, owner);
  }

  lemma ReachPerformed(id: Identity, uuid: string, owner: string)
    requires IsIdentity(id) && IsUuid(uuid) && IsUuid(owner)
    ensures var i, key := Dispatched(id, uuid, owner), NewKey(id, uuid);
      Reachable(Alone(1, i, Sending(key, owner, false), {owner}, {key}, {key}))
  {
    var i, key := Dispatched(id, uuid, owner), NewKey(id, uuid);
    ReachClaimed(id, uuid, owner);
    DispatchedReadable(id, uuid, owner, 1);
    assert Owns([i], key, owner, 1) && i.key == key;
    var claimed := Alone(1, i, Claimed(key, owner), {owner}, {}, {});
    var sending := Alone(1, i, Sending(key, owner, false), {owner}, {key}, {});
    var performed := Alone(1, i, Sending(key, owner, false), {owner}, {key}, {key});
    hide IsUuid, IsIdentity, Accepted, Owns, Reachable, Dispatched, NewKey, Expiries;
    assert StepSend(claimed, sending, 0);
    ReachSend(claimed, sending, 0);
    assert StepPerform(sending, performed, key);
    ReachElse(sending, performed);
  }

  /**
   Of any send: the request is sent and performed, and is answered with a success or with any failure that
   is no definite rejection.
   */
  lemma ReachAnswered(id: Identity, uuid: string, owner: string, reply: Reply)
    requires IsIdentity(id) && IsUuid(uuid) && IsUuid(owner) && (reply.Delivered? || !Definite(reply.failure))
    ensures var i, key := Dispatched(id, uuid, owner), NewKey(id, uuid);
      Reachable(Alone(1, i, Settling(key, owner, reply), {owner}, {key}, {key}))
  {
    var i, key := Dispatched(id, uuid, owner), NewKey(id, uuid);
    ReachPerformed(id, uuid, owner);
    DispatchedReadable(id, uuid, owner, 1);
    assert Owns([i], key, owner, 1) && i.key == key;
    var performed := Alone(1, i, Sending(key, owner, false), {owner}, {key}, {key});
    var answered := Alone(1, i, Answered(key, owner, false, reply), {owner}, {key}, {key});
    var settling := Alone(1, i, Settling(key, owner, reply), {owner}, {key}, {key});
    hide IsUuid, IsIdentity, Definite, Accepted, Owns, Reachable, Dispatched, NewKey, Expiries;
    assert StepReply(performed, answered, 0, reply);
    ReachReply(performed, answered, 0, reply);
    assert StepFinish(answered, settling, 0);
    ReachSend(answered, settling, 0);
  }

  /** The record of a success settled a week and a moment after its key was minted. */
  function Overdue(id: Identity, uuid: string, owner: string): Intent {
    Settled(Dispatched(id, uuid, owner), SendSuccess, MAX_INTENT_TTL_MS + 2, MAX_INTENT_TTL_MS).value
  }

  lemma LateSettlement(id: Identity, uuid: string, owner: string)
    ensures var i, o, key, late := Dispatched(id, uuid, owner), Overdue(id, uuid, owner), NewKey(id, uuid), MAX_INTENT_TTL_MS + 2;
      && Settle([i], key, SendSuccess, owner, late, MAX_INTENT_TTL_MS) == Effect(Success(()), Some([o]))
      && o.key == key == i.key && IdentityOf(o) == IdentityOf(i) && o.expiresAt > late && !Accepted([o], late)
  {
    var i, o := Dispatched(id, uuid, owner), Overdue(id, uuid, owner);
    SingleFound(i);
    assert [i][0 := o] == [o];
    assert !TimesValid(o, MAX_INTENT_TTL_MS + 2);
    hide FieldsValid, LeaseValid, StateValid;
    assert !WellFormed([o][0], MAX_INTENT_TTL_MS + 2);
  }

  lemma ReachSettledLate(i: Intent, o: Intent, owner: string, late: int)
    requires Reachable(Alone(1, i, Settling(i.key, owner, Delivered), {owner}, {i.key}, {i.key}))
    requires 1 < late && ClockInRange(late, MAX_INTENT_TTL_MS) && Accepted([i], late) && o.key == i.key && IdentityOf(o) == IdentityOf(i)
    requires Settle([i], i.key, SendSuccess, owner, late, MAX_INTENT_TTL_MS) == Effect(Success(()), Some([o]))
    ensures Reachable(Alone(late, o, Idle, {owner}, {o.key}, {o.key}))
  {
    var answered := Alone(1, i, Settling(i.key, owner, Delivered), {owner}, {i.key}, {i.key});
    var asleep := Alone(late, i, Settling(i.key, owner, Delivered), {owner}, {i.key}, {i.key});
    var s := Alone(late, o, Idle, {owner}, {o.key}, {o.key});
    SingleFound(o);
    hide Accepted, Settle, Reachable, Expiries, ClockInRange, IdentityOf;
    assert StepTick(answered, asleep, late - 1);
    ReachElse(answered, asleep);
    assert map[o.key := i.expiresAt] + map[o.key := o.expiresAt] == map[o.key := o.expiresAt];
    assert StepSettle(asleep, s, 0, MAX_INTENT_TTL_MS);
    ReachElse(asleep, s);
  }

  /**
   A reachable state whose ledger cannot be read: the window slept for a week and a moment before it
   settled its success. The tombstone has not expired, and `keyFor` of the same send throws.
   */
  lemma LateSuccessLosesLedger(id: Identity, uuid: string, owner: string)
    requires IsIdentity(id) && IsUuid(uuid) && IsUuid(owner)
    ensures var i, key, late := Overdue(id, uuid, owner), NewKey(id, uuid), MAX_INTENT_TTL_MS + 2;
      var s := Alone(late, i, Idle, {owner}, {key}, {key});
      && Reachable(s) && !Accepted(s.ledger, s.now) && i.key == key && i.expiresAt > late
      && TrackerKeyFor(s, id, MAX_INTENT_TTL_MS, uuid) == Failure(CorruptLedger)
  {
    var late := MAX_INTENT_TTL_MS + 2;
    ReachAnswered(id, uuid, owner, Delivered);
    DispatchedReadable(id, uuid, owner, late);
    LateSettlement(id, uuid, owner);
    LateStored(id, uuid, owner);
    hide IsUuid, IsIdentity, Accepted, Settle, Reachable, ParseLedger, LedgerText, Stored, Dispatched, Overdue, NewKey;
    ReachSettledLate(Dispatched(id, uuid, owner), Overdue(id, uuid, owner), owner, late);
    StoredReads([Overdue(id, uuid, owner)], late, late);
  }

  lemma LateStored(id: Identity, uuid: string, owner: string)
    requires IsIdentity(id) && IsUuid(uuid)
    ensures Stored([Overdue(id, uuid, owner)], MAX_INTENT_TTL_MS + 2)
  {
    NewKeyValid(id, uuid);
    hide IsUuid, IsIdempotencyKey, IsScope, IsDigest;
    assert Kept(Overdue(id, uuid, owner), MAX_INTENT_TTL_MS + 2);
  }
}
