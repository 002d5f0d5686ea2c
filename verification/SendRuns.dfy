/**
 Whole runs of `runManualSendIntent` in any number of windows that share one ledger and one server.

 A step is one uninterrupted action: a ledger mutation (the ledger lock makes these atomic, see
 LedgerLock), a hand-over to the network, a reply or the loss of one, an action of the server, a crash
 of a window, or the passing of time. Steps of different windows interleave freely.

 The clock never goes back and leaves room for a lifetime. Fresh UUIDs are UUIDs and new. Of the server it is assumed that it performs a key at
 most once, and that a definite rejection of a key means the key was not and will not be performed.
 */
module SendRuns {
  import opened Wrappers
  import opened IntentLedger
  import opened IntentOperations
  import opened JsText

  /** Where a window stands in its current call of `runManualSendIntent`. */
  datatype Phase =
    | Idle
    | Minted(key: string)
    | Claimed(key: string, owner: string)
    | Sending(key: string, owner: string, heartbeatFailed: bool)
    | Answered(key: string, owner: string, heartbeatFailed: bool, reply: Reply)
    | Settling(key: string, owner: string, reply: Reply)

  /** What `send` ends with: a response of success, or a failure, which may be the loss of the response. */
  datatype Reply = Delivered | Failed(failure: SendFailure)

  datatype Mint = Mint(id: Identity, key: string, time: int)

  datatype State = State(
    now: int,
    ledger: seq<Intent>,
    windows: map<nat, Phase>,
    mints: seq<Mint>,              // every key ever minted, in order
    owners: set<string>,           // every claim owner ever created
    lastExpiry: map<string, int>,  // the expiry of a key's record when it was last in the ledger
    wire: set<string>,             // keys handed to the network
    performed: set<string>,
    rejected: set<string>
  )

  ghost predicate Init(s: State) {
    s.ledger == [] && s.mints == [] && s.owners == {} && s.wire == {} && s.performed == {} && s.rejected == {}
    && s.lastExpiry == map[] && forall w :: w in s.windows ==> s.windows[w].Idle?
  }

  function Expiries(intents: seq<Intent>): map<string, int> {
    if intents == [] then map[] else map[intents[0].key := intents[0].expiresAt] + Expiries(intents[1..])
  }

  /** The ledger after an operation, and the record it leaves of expiries. */
  function Written<T>(s: State, e: Effect<T>): State {
    match e.written
    case Some(l) => s.(ledger := l, lastExpiry := s.lastExpiry + Expiries(l))
    case None => s
  }

  function To(s: State, w: nat, p: Phase): State { s.(windows := s.windows[w := p]) }

  // ---------------------------------------------------------------- steps of a window

  ghost predicate StepKeyFor(s: State, s': State, w: nat, id: Identity, ttl: int, uuid: string) {
    && w in s.windows && s.windows[w].Idle? && Accepted(s.ledger, s.now) && ClockInRange(s.now, ttl) && IsIdentity(id)
    && var newKey := id.scope + ":" + uuid;
    && (forall m :: m in s.mints ==> m.key != newKey)
    && var e := KeyFor(s.ledger, id, s.now, ttl, uuid);
    && s' == match e.result
         case Success(key) =>
           var t := To(Written(s, e), w, Minted(key));
           if key == newKey then t.(mints := s.mints + [Mint(id, key, s.now)]) else t
         case Failure(_) => s
  }

  ghost predicate StepClaim(s: State, s': State, w: nat, leaseMs: int, owner: string) {
    && w in s.windows && s.windows[w].Minted? && Accepted(s.ledger, s.now) && ClockInRange(s.now, leaseMs)
    && IsUuid(owner) && owner !in s.owners
    && var e := Claim(s.ledger, s.windows[w].key, s.now, leaseMs, owner);
    && s' == match e.result
         case Success(_) => To(Written(s, e), w, Claimed(s.windows[w].key, owner)).(owners := s.owners + {owner})
         case Failure(_) => To(s, w, Idle)
  }

  /** Ownership is confirmed once more before any external effect. */
  ghost predicate StepSend(s: State, s': State, w: nat) {
    && w in s.windows && s.windows[w].Claimed?
    && var Claimed(key, owner) := s.windows[w];
    && s' == if Accepted(s.ledger, s.now) && Owns(s.ledger, key, owner, s.now)
         then To(s, w, Sending(key, owner, false)).(wire := s.wire + {key})
         else To(s, w, Idle)
  }

  /** A heartbeat may always fail, of lock or storage; one that fails dooms the call, but does not stop the request. */
  ghost predicate StepHeartbeat(s: State, s': State, w: nat, leaseMs: int) {
    && w in s.windows && s.windows[w].Sending? && !s.windows[w].heartbeatFailed && ClockInRange(s.now, leaseMs)
    && var Sending(key, owner, _) := s.windows[w];
    && var e := Renew(s.ledger, key, owner, s.now, leaseMs);
    && ((Accepted(s.ledger, s.now) && e.result.Success? && s' == Written(s, e)) || s' == To(s, w, Sending(key, owner, true)))
  }

  /**
   The responses by which the server says that it has not performed a key and never will: any 4xx but the
   four that may be retried, and of the conflicts only the one over the payload.
   */
  predicate Definite(f: SendFailure) {
    match f.status
    case None => false
    case Some(status) =>
      || (400 <= status <= 499 && status != 408 && status != 409 && status != 425 && status != 429)
      || (status == 409 && (f.code == Some("EMAIL_IDEMPOTENCY_PAYLOAD_CONFLICT") || (f.code.None? && f.hasConflictMessage)))
  }

  /** What the settlement is told. */
  function OutcomeOf(reply: Reply): SendOutcome {
    match reply case Delivered => SendSuccess case Failed(f) => FailureOutcome(f)
  }

  /** Success is answered of a performed key only, a definite rejection of a rejected one; any other failure of any. */
  ghost predicate StepReply(s: State, s': State, w: nat, reply: Reply) {
    && w in s.windows && s.windows[w].Sending?
    && var Sending(key, owner, failed) := s.windows[w];
    && (reply.Delivered? ==> key in s.performed)
    && (reply.Failed? && Definite(reply.failure) ==> key in s.rejected)
    && s' == To(s, w, Answered(key, owner, failed, reply))
  }

  /** Without ownership to the end, neither the result nor the error gets out, and nothing is settled. */
  ghost predicate StepFinish(s: State, s': State, w: nat) {
    && w in s.windows && s.windows[w].Answered?
    && var Answered(key, owner, failed, reply) := s.windows[w];
    && s' == if !failed && Accepted(s.ledger, s.now) && Owns(s.ledger, key, owner, s.now)
         then To(s, w, Settling(key, owner, reply))
         else To(s, w, Idle)
  }

  ghost predicate StepSettle(s: State, s': State, w: nat, ttl: int) {
    && w in s.windows && s.windows[w].Settling? && Accepted(s.ledger, s.now) && ClockInRange(s.now, ttl)
    && var Settling(key, owner, reply) := s.windows[w];
    && s' == To(Written(s, Settle(s.ledger, key, OutcomeOf(reply), owner, s.now, ttl)), w, Idle)
  }

  /** A window closes, or an operation throws; what it sent stays sent. */
  ghost predicate StepAbandon(s: State, s': State, w: nat) {
    w in s.windows && s' == To(s, w, Idle)
  }

  // ---------------------------------------------------------------- steps of the server and of time

  ghost predicate StepPerform(s: State, s': State, key: string) {
    key in s.wire && key !in s.performed && key !in s.rejected && s' == s.(performed := s.performed + {key})
  }

  ghost predicate StepReject(s: State, s': State, key: string) {
    key in s.wire && key !in s.performed && s' == s.(rejected := s.rejected + {key})
  }

  ghost predicate StepTick(s: State, s': State, ms: int) {
    ms > 0 && s' == s.(now := s.now + ms)
  }

  ghost predicate Next(s: State, s': State) {
    || (exists w, id, ttl, uuid :: StepKeyFor(s, s', w, id, ttl, uuid))
    || (exists w, leaseMs, owner :: StepClaim(s, s', w, leaseMs, owner))
    || (exists w :: StepSend(s, s', w))
    || (exists w, leaseMs :: StepHeartbeat(s, s', w, leaseMs))
    || (exists w, reply :: StepReply(s, s', w, reply))
    || (exists w :: StepFinish(s, s', w))
    || (exists w, ttl :: StepSettle(s, s', w, ttl))
    || (exists w :: StepAbandon(s, s', w))
    || (exists key :: StepPerform(s, s', key))
    || (exists key :: StepReject(s, s', key))
    || (exists ms :: StepTick(s, s', ms))
  }

  ghost predicate IsRun(run: seq<State>) {
    && run != [] && Init(run[0])
    && forall i :: 0 <= i < |run| - 1 ==> Next(run[i], run[i + 1])
  }

  // ---------------------------------------------------------------- the invariant

  ghost predicate InLedger(intents: seq<Intent>, key: string) { exists r :: r in intents && r.key == key }

  ghost predicate KeysAccounted(s: State) {
    && (forall i, j :: 0 <= i < j < |s.mints| ==> s.mints[i].key != s.mints[j].key)
    && (forall r :: r in s.ledger ==> exists m :: m in s.mints && m.key == r.key && m.id == IdentityOf(r))
    && (forall m :: m in s.mints ==> m.key in s.lastExpiry)
    && (forall r :: r in s.ledger ==> r.key in s.lastExpiry && s.lastExpiry[r.key] == r.expiresAt)
  }

  /** A minted key whose record is gone was rejected or had expired. */
  ghost predicate GoneFor(s: State, key: string, time: int) {
    key in s.rejected || (key in s.lastExpiry && s.lastExpiry[key] <= time)
  }

  ghost predicate GoneReasons(s: State) {
    forall m :: m in s.mints ==> InLedger(s.ledger, m.key) || GoneFor(s, m.key, s.now)
  }

  /** When a second key was minted for an identity, the first was rejected or had expired. */
  ghost predicate Succession(s: State) {
    forall i, j :: 0 <= i < j < |s.mints| && s.mints[i].id == s.mints[j].id ==>
      !InLedger(s.ledger, s.mints[i].key) && GoneFor(s, s.mints[i].key, s.mints[j].time)
  }

  predicate Rejecting(p: Phase) {
    (p.Answered? || p.Settling?) && p.reply.Failed? && Definite(p.reply.failure)
  }

  ghost predicate RejectionsReal(s: State) {
    && s.performed !! s.rejected
    && forall w :: w in s.windows && Rejecting(s.windows[w]) ==> s.windows[w].key in s.rejected
  }

  /** A failure is settled as a rejection exactly if the response says definitely that nothing was performed. */
  lemma RejectionIffDefinite(f: SendFailure)
    ensures FailureOutcome(f) == if Definite(f) then BusinessRejection else SendUnknown
  {
    assert PAYLOAD_CONFLICT_CODE == "EMAIL_IDEMPOTENCY_PAYLOAD_CONFLICT";
  }

  predicate HasOwner(p: Phase) { p.Claimed? || p.Sending? || p.Answered? || p.Settling? }

  ghost predicate OwnersIn(l: seq<Intent>, owners: set<string>) {
    forall r :: r in l && r.dispatchOwner.Some? ==> r.dispatchOwner.value in owners
  }

  ghost predicate OneRecordPerOwner(l: seq<Intent>) {
    forall q, r :: q in l && r in l && q.dispatchOwner.Some? && q.dispatchOwner == r.dispatchOwner ==> q.key == r.key
  }

  ghost predicate OwnersUnique(s: State) {
    && OwnersIn(s.ledger, s.owners) && OneRecordPerOwner(s.ledger)
    && (forall w :: w in s.windows && HasOwner(s.windows[w]) ==> s.windows[w].owner in s.owners)
    && (forall v, w :: v in s.windows && w in s.windows && v != w && HasOwner(s.windows[v]) && HasOwner(s.windows[w]) ==>
          s.windows[v].owner != s.windows[w].owner)
  }

  /** The part of the invariant about keys and records. */
  ghost predicate KeyInv(s: State) { Distinct(s.ledger) && KeysAccounted(s) && GoneReasons(s) && Succession(s) }

  ghost predicate Inv(s: State) {
    KeyInv(s) && RejectionsReal(s) && OwnersUnique(s)
  }

  // ---------------------------------------------------------------- records and keys

  lemma MemberFound(intents: seq<Intent>, r: Intent)
    requires Distinct(intents) && r in intents
    ensures Find(intents, r.key) < |intents| && intents[Find(intents, r.key)] == r
  {
    var n := Find(intents, r.key);
    var k :| 0 <= k < |intents| && intents[k] == r;
    assert n == k;
  }

  lemma {:induction false} ExpiriesOf(intents: seq<Intent>)
    requires Distinct(intents)
    ensures forall r :: r in intents ==> r.key in Expiries(intents) && Expiries(intents)[r.key] == r.expiresAt
    ensures forall k :: k in Expiries(intents) ==> InLedger(intents, k)
  {
    if intents != [] {
      var tail := intents[1..];
      assert intents == [intents[0]] + tail;
      ExpiriesOf(tail);
      forall r | r in intents ensures r.key in Expiries(intents) && Expiries(intents)[r.key] == r.expiresAt {
        assert forall k :: 0 <= k < |tail| ==> tail[k] == intents[k + 1];
        assert r == intents[0] || r in tail;
      }
    }
  }

  /** Every record of `l` continues one of the ledger's; every record left out had expired or was rejected. */
  ghost predicate Explained(s: State, l: seq<Intent>) {
    && (forall r :: r in l ==> exists q :: q in s.ledger && q.key == r.key && IdentityOf(q) == IdentityOf(r))
    && (forall q :: q in s.ledger ==> InLedger(l, q.key) || q.expiresAt <= s.now || q.key in s.rejected)
  }

  ghost function Rewritten(s: State, l: seq<Intent>): State {
    s.(ledger := l, lastExpiry := s.lastExpiry + Expiries(l))
  }

  lemma StillGone(s: State, l: seq<Intent>, key: string, time: int)
    requires Distinct(l) && !InLedger(l, key) && GoneFor(s, key, time)
    ensures GoneFor(Rewritten(s, l), key, time)
  {
    ExpiriesOf(l);
  }

  lemma AbsentStaysAbsent(s: State, l: seq<Intent>, key: string)
    requires Explained(s, l) && Distinct(s.ledger) && !InLedger(s.ledger, key)
    ensures !InLedger(l, key)
  {
  }

  lemma ExplainedKeepsAccounts(s: State, l: seq<Intent>)
    requires KeyInv(s) && Distinct(l) && Explained(s, l)
    ensures KeysAccounted(Rewritten(s, l))
  {
    ExpiriesOf(l);
    var t := Rewritten(s, l);
    forall r | r in l ensures exists m :: m in t.mints && m.key == r.key && m.id == IdentityOf(r) {
      var q :| q in s.ledger && q.key == r.key && IdentityOf(q) == IdentityOf(r);
      var m :| m in s.mints && m.key == q.key && m.id == IdentityOf(q);
    }
  }

  lemma ExplainedKeepsReasons(s: State, l: seq<Intent>)
    requires KeyInv(s) && Distinct(l) && Explained(s, l)
    ensures GoneReasons(Rewritten(s, l)) && Succession(Rewritten(s, l))
  {
    var t := Rewritten(s, l);
    forall m | m in s.mints ensures InLedger(l, m.key) || GoneFor(t, m.key, t.now) {
      if !InLedger(l, m.key) {
        assert GoneFor(s, m.key, s.now);
        StillGone(s, l, m.key, s.now);
      }
    }
    forall i, j | 0 <= i < j < |s.mints| && s.mints[i].id == s.mints[j].id
      ensures !InLedger(l, s.mints[i].key) && GoneFor(t, s.mints[i].key, s.mints[j].time)
    {
      AbsentStaysAbsent(s, l, s.mints[i].key);
      StillGone(s, l, s.mints[i].key, s.mints[j].time);
    }
  }

  lemma ExplainedKeepsKeyInv(s: State, l: seq<Intent>)
    requires KeyInv(s) && Distinct(l) && Explained(s, l)
    ensures KeyInv(Rewritten(s, l))
  {
    ExplainedKeepsAccounts(s, l);
    ExplainedKeepsReasons(s, l);
  }

  /** A new key is minted into a ledger that has no record of its identity. */
  ghost function WithMint(s: State, r: Intent): State {
    Rewritten(s, s.ledger + [r]).(mints := s.mints + [Mint(IdentityOf(r), r.key, s.now)])
  }

  ghost predicate NewTo(r: Intent, s: State) {
    && (forall q :: q in s.ledger ==> q.key != r.key && IdentityOf(q) != IdentityOf(r))
    && (forall m :: m in s.mints ==> m.key != r.key)
  }

  lemma AppendedDistinct(l: seq<Intent>, r: Intent)
    requires Distinct(l) && forall q :: q in l ==> q.key != r.key && IdentityOf(q) != IdentityOf(r)
    ensures Distinct(l + [r])
    ensures forall k :: InLedger(l + [r], k) <==> InLedger(l, k) || k == r.key
  {
    forall i | 0 <= i < |l| ensures l[i].key != r.key && IdentityOf(l[i]) != IdentityOf(r) { assert l[i] in l; }
    forall k ensures InLedger(l + [r], k) <==> InLedger(l, k) || k == r.key {
      assert r in l + [r];
    }
  }

  lemma MintKeepsKeyInv(s: State, r: Intent)
    requires KeyInv(s) && NewTo(r, s)
    ensures KeyInv(WithMint(s, r))
  {
    AppendedDistinct(s.ledger, r);
    MintAccounts(s, r);
    MintReasons(s, r);
    MintSuccession(s, r);
  }

  lemma MintReasons(s: State, r: Intent)
    requires KeyInv(s) && NewTo(r, s)
    ensures GoneReasons(WithMint(s, r))
  {
    var t := WithMint(s, r);
    AppendedDistinct(s.ledger, r);
    hide Expiries, Distinct, KeysAccounted, Succession;
    forall m | m in t.mints ensures InLedger(t.ledger, m.key) || GoneFor(t, m.key, t.now) {
      if m.key != r.key && !InLedger(s.ledger, m.key) {
        assert m in s.mints;
        StillGone(s, t.ledger, m.key, s.now);
      }
    }
  }

  lemma MintSuccession(s: State, r: Intent)
    requires KeyInv(s) && NewTo(r, s)
    ensures Succession(WithMint(s, r))
  {
    var t := WithMint(s, r);
    AppendedDistinct(s.ledger, r);
    var n := |s.mints|;
    forall i, j | 0 <= i < j < |t.mints| && t.mints[i].id == t.mints[j].id
      ensures !InLedger(t.ledger, t.mints[i].key) && GoneFor(t, t.mints[i].key, t.mints[j].time)
    {
      assert t.mints[i] == s.mints[i] && s.mints[i] in s.mints;
      if j == n { NotInLedgerUnderOtherIdentity(s, i, r); } else { assert t.mints[j] == s.mints[j]; }
      StillGone(s, t.ledger, s.mints[i].key, t.mints[j].time);
    }
  }

  lemma MintAccounts(s: State, r: Intent)
    requires KeyInv(s) && NewTo(r, s)
    ensures KeysAccounted(WithMint(s, r))
  {
    var t := WithMint(s, r);
    var last := Mint(IdentityOf(r), r.key, s.now);
    AppendedDistinct(s.ledger, r);
    MintedKeysDistinct(s.mints, last);
    RecordsMinted(s.ledger, r, s.mints, last);
    ExpiriesExtended(s.lastExpiry, s.ledger, r);
    hide Expiries, Distinct, GoneReasons, Succession;
    assert forall m :: m in t.mints ==> m in s.mints || m == last;
  }

  lemma ExpiriesExtended(m: map<string, int>, l: seq<Intent>, r: Intent)
    requires Distinct(l + [r])
    ensures var m' := m + Expiries(l + [r]);
      m.Keys <= m'.Keys && r.key in m' && forall q :: q in l + [r] ==> q.key in m' && m'[q.key] == q.expiresAt
  {
    ExpiriesOf(l + [r]);
    assert r in l + [r];
  }

  lemma RecordsMinted(l: seq<Intent>, r: Intent, mints: seq<Mint>, last: Mint)
    requires forall q :: q in l ==> exists m :: m in mints && m.key == q.key && m.id == IdentityOf(q)
    requires last.key == r.key && last.id == IdentityOf(r)
    ensures forall q :: q in l + [r] ==> exists m :: m in mints + [last] && m.key == q.key && m.id == IdentityOf(q)
  {
    forall q | q in l + [r] ensures exists m :: m in mints + [last] && m.key == q.key && m.id == IdentityOf(q) {
      if q in l {
        var m :| m in mints && m.key == q.key && m.id == IdentityOf(q);
        assert m in mints + [last];
      } else {
        assert last in mints + [last];
      }
    }
  }

  lemma MintedKeysDistinct(mints: seq<Mint>, last: Mint)
    requires forall i, j :: 0 <= i < j < |mints| ==> mints[i].key != mints[j].key
    requires forall m :: m in mints ==> m.key != last.key
    ensures var all := mints + [last]; forall i, j :: 0 <= i < j < |all| ==> all[i].key != all[j].key
  {
    assert forall i :: 0 <= i < |mints| ==> mints[i] in mints;
  }

  lemma NotInLedgerUnderOtherIdentity(s: State, i: nat, r: Intent)
    requires KeyInv(s) && i < |s.mints| && s.mints[i].id == IdentityOf(r)
    requires forall q :: q in s.ledger ==> IdentityOf(q) != IdentityOf(r)
    ensures !InLedger(s.ledger, s.mints[i].key)
  {
    var key := s.mints[i].key;
    assert forall m :: m in s.mints && m.key == key ==> m == s.mints[i];
  }

  // ---------------------------------------------------------------- every step keeps the invariant

  /** Time passing and more rejections do not disturb the keys. */
  lemma KeyInvKept(s: State, t: State)
    requires KeyInv(s) && s.now <= t.now && s.rejected <= t.rejected
    requires t.ledger == s.ledger && t.mints == s.mints && t.lastExpiry == s.lastExpiry
    ensures KeyInv(t)
  {
    forall m | m in t.mints ensures InLedger(t.ledger, m.key) || GoneFor(t, m.key, t.now) {
      assert InLedger(s.ledger, m.key) || GoneFor(s, m.key, s.now);
    }
    forall i, j | 0 <= i < j < |t.mints| && t.mints[i].id == t.mints[j].id
      ensures !InLedger(t.ledger, t.mints[i].key) && GoneFor(t, t.mints[i].key, t.mints[j].time)
    {
      assert GoneFor(s, s.mints[i].key, s.mints[j].time);
    }
  }

  lemma ReplacedExplained(s: State, n: nat, i: Intent)
    requires Distinct(s.ledger) && n < |s.ledger|
    requires IdentityOf(i) == IdentityOf(s.ledger[n]) && i.key == s.ledger[n].key
    ensures Distinct(s.ledger[n := i]) && Explained(s, s.ledger[n := i])
  {
    var l := s.ledger[n := i];
    forall r | r in l ensures exists q :: q in s.ledger && q.key == r.key && IdentityOf(q) == IdentityOf(r) {
      var k :| 0 <= k < |l| && l[k] == r;
      assert s.ledger[k] in s.ledger && s.ledger[k].key == r.key;
    }
    forall q | q in s.ledger ensures InLedger(l, q.key) {
      var k :| 0 <= k < |s.ledger| && s.ledger[k] == q;
      assert l[k] in l && l[k].key == q.key;
    }
  }

  lemma ActiveExplained(s: State)
    requires Distinct(s.ledger)
    ensures Distinct(ActiveAt(s.ledger, s.now)) && Explained(s, ActiveAt(s.ledger, s.now))
  {
    ActiveDistinct(s.ledger, s.now);
    var l := ActiveAt(s.ledger, s.now);
    forall q | q in s.ledger ensures InLedger(l, q.key) || q.expiresAt <= s.now {
      if q.expiresAt > s.now { assert q in l; }
    }
  }

  lemma WithoutExplained(s: State, key: string)
    requires Distinct(s.ledger) && key in s.rejected
    ensures Distinct(Without(s.ledger, key)) && Explained(s, Without(s.ledger, key))
  {
    WithoutDistinct(s.ledger, key);
    var l := Without(s.ledger, key);
    forall q | q in s.ledger ensures InLedger(l, q.key) || q.key in s.rejected {
      if q.key != key { assert q in l; }
    }
  }

  lemma Absorbed(m: map<string, int>, a: map<string, int>, b: map<string, int>)
    requires a.Keys <= b.Keys
    ensures m + a + b == m + b
  {
  }

  lemma ExpiryKeys(l: seq<Intent>, r: Intent)
    requires Distinct(l) && Distinct(l + [r])
    ensures Expiries(l).Keys <= Expiries(l + [r]).Keys
  {
    ExpiriesOf(l);
    ExpiriesOf(l + [r]);
    forall k | k in Expiries(l) ensures k in Expiries(l + [r]) {
      var q :| q in l && q.key == k;
      assert q in l + [r];
    }
  }

  lemma ExpiriesAbsorbed(m: map<string, int>, l: seq<Intent>, r: Intent)
    requires Distinct(l) && Distinct(l + [r])
    ensures m + Expiries(l) + Expiries(l + [r]) == m + Expiries(l + [r])
  {
    hide Distinct, Expiries;
    ExpiryKeys(l, r);
    Absorbed(m, Expiries(l), Expiries(l + [r]));
  }

  lemma KeyForExistingKeepsKeyInv(s: State, id: Identity, newKey: string)
    requires KeyInv(s) && forall m :: m in s.mints ==> m.key != newKey
    ensures var active := ActiveAt(s.ledger, s.now);
      KeyInv(Rewritten(s, active)) && forall q :: q in active ==> q.key != newKey
  {
    ActiveExplained(s);
    ExplainedKeepsKeyInv(s, ActiveAt(s.ledger, s.now));
    forall q | q in ActiveAt(s.ledger, s.now) ensures q.key != newKey {
      assert q in s.ledger;
    }
  }

  lemma KeyForCreatedKeepsKeyInv(s: State, created: Intent)
    requires KeyInv(s) && forall m :: m in s.mints ==> m.key != created.key
    requires var active := ActiveAt(s.ledger, s.now); forall q :: q in active ==> q.key != created.key && IdentityOf(q) != IdentityOf(created)
    ensures var t := Rewritten(s, ActiveAt(s.ledger, s.now) + [created]);
      KeyInv(t.(mints := s.mints + [Mint(IdentityOf(created), created.key, s.now)]))
  {
    var active := ActiveAt(s.ledger, s.now);
    KeyForExistingKeepsKeyInv(s, IdentityOf(created), created.key);
    var t := Rewritten(s, active);
    hide KeyInv;
    MintKeepsKeyInv(t, created);
    AppendedActiveDistinct(s, created);
    ExpiriesAbsorbed(s.lastExpiry, active, created);
  }

  lemma AppendedActiveDistinct(s: State, created: Intent)
    requires KeyInv(s)
    requires var active := ActiveAt(s.ledger, s.now); forall q :: q in active ==> q.key != created.key && IdentityOf(q) != IdentityOf(created)
    ensures var active := ActiveAt(s.ledger, s.now); Distinct(active) && Distinct(active + [created])
  {
    ActiveDistinct(s.ledger, s.now);
    AppendedDistinct(ActiveAt(s.ledger, s.now), created);
  }

  /** What a successful `keyFor` returns, and the ledger it leaves. */
  lemma KeyForCases(l: seq<Intent>, id: Identity, t: int, ttl: int, uuid: string)
    requires KeyFor(l, id, t, ttl, uuid).result.Success?
    ensures var e := KeyFor(l, id, t, ttl, uuid);
      var active := ActiveAt(l, t);
      var newKey := id.scope + ":" + uuid;
      || (e.written == None && exists q :: q in active && q.key == e.result.value)
      || (e.written == Some(active) && exists q :: q in active && q.key == e.result.value)
      || (&& e.result.value == newKey && e.written == Some(active + [Created(id, newKey, t, ttl)])
          && forall q :: q in active ==> q.key != newKey && IdentityOf(q) != id)
  {
    var active := ActiveAt(l, t);
    var n := FindIdentity(active, id);
    if n < |active| { assert active[n] in active; }
  }

  lemma KeyForKeepsKeyInv(s: State, id: Identity, ttl: int, uuid: string)
    requires KeyInv(s) && KeyFor(s.ledger, id, s.now, ttl, uuid).result.Success?
    requires forall m :: m in s.mints ==> m.key != id.scope + ":" + uuid
    ensures var e := KeyFor(s.ledger, id, s.now, ttl, uuid);
      var newKey := id.scope + ":" + uuid;
      if e.result.value == newKey then KeyInv(Written(s, e).(mints := s.mints + [Mint(id, newKey, s.now)]))
      else KeyInv(Written(s, e))
  {
    var newKey := id.scope + ":" + uuid;
    KeyForCases(s.ledger, id, s.now, ttl, uuid);
    KeyForExistingKeepsKeyInv(s, id, newKey);
    var created := Created(id, newKey, s.now, ttl);
    assert IdentityOf(created) == id && created.key == newKey;
    var e := KeyFor(s.ledger, id, s.now, ttl, uuid);
    hide KeyInv, KeyFor, Created, Expiries, ActiveAt;
    if e.written == Some(ActiveAt(s.ledger, s.now) + [created]) && e.result.value == newKey {
      KeyForCreatedKeepsKeyInv(s, created);
    }
  }

  /** A claim, a renewal and a settlement touch one record; what they remove was rejected. */
  lemma LeaseOperationsKeepKeyInv(s: State, n: nat, i: Intent)
    requires KeyInv(s) && n < |s.ledger|
    requires IdentityOf(i) == IdentityOf(s.ledger[n]) && i.key == s.ledger[n].key
    ensures KeyInv(Rewritten(s, s.ledger[n := i]))
  {
    ReplacedExplained(s, n, i);
    ExplainedKeepsKeyInv(s, s.ledger[n := i]);
  }

  predicate SameMapping(i: Intent, j: Intent) { IdentityOf(i) == IdentityOf(j) && i.key == j.key }

  /** The record a settlement leaves, or None when it removes the mapping or fails. */
  lemma SettleCases(s: State, key: string, outcome: SendOutcome, owner: string, ttl: int)
    ensures var e := Settle(s.ledger, key, outcome, owner, s.now, ttl);
      var n := Find(s.ledger, key);
      || e.written == None
      || (e.written == Some(Without(s.ledger, key)) && outcome.BusinessRejection?)
      || (n < |s.ledger| && exists i :: e.written == Some(s.ledger[n := i]) && SameMapping(i, s.ledger[n]))
  {
    var n := Find(s.ledger, key);
    if n < |s.ledger| {
      match Settled(s.ledger[n], outcome, s.now, ttl)
      case Some(i) => assert SameMapping(i, s.ledger[n]);
      case None =>
    }
  }

  lemma SettleKeepsKeyInv(s: State, key: string, outcome: SendOutcome, owner: string, ttl: int)
    requires KeyInv(s) && (outcome.BusinessRejection? ==> key in s.rejected)
    ensures KeyInv(Written(s, Settle(s.ledger, key, outcome, owner, s.now, ttl)))
  {
    SettleCases(s, key, outcome, owner, ttl);
    var n := Find(s.ledger, key);
    var e := Settle(s.ledger, key, outcome, owner, s.now, ttl);
    hide Settle, Expiries, GoneReasons, Succession, KeysAccounted;
    if e.written == Some(Without(s.ledger, key)) && outcome.BusinessRejection? {
      WithoutExplained(s, key);
      ExplainedKeepsKeyInv(s, Without(s.ledger, key));
    } else if e.written.Some? {
      var i :| e.written == Some(s.ledger[n := i]) && SameMapping(i, s.ledger[n]);
      LeaseOperationsKeepKeyInv(s, n, i);
    }
  }

  // Owners: fresh ones are created by claims alone.

  /** A record is replaced by one with no owner, with its own, or with a fresh one. */
  lemma ReplacedOwners(l: seq<Intent>, n: nat, i: Intent, owners: set<string>, owners': set<string>)
    requires OwnersIn(l, owners) && OneRecordPerOwner(l) && owners <= owners' && n < |l| && i.key == l[n].key
    requires i.dispatchOwner.Some? ==> i.dispatchOwner.value in owners' && (i.dispatchOwner.value !in owners || i.dispatchOwner == l[n].dispatchOwner)
    ensures OwnersIn(l[n := i], owners') && OneRecordPerOwner(l[n := i])
  {
    var l' := l[n := i];
    assert l[n] in l;
    forall r | r in l' && r.dispatchOwner.Some? ensures r.dispatchOwner.value in owners' {
      if r != i { assert r in l; }
    }
    forall q, r | q in l' && r in l' && q.dispatchOwner.Some? && q.dispatchOwner == r.dispatchOwner
      ensures q.key == r.key
    {
      assert (q in l || q == i) && (r in l || r == i);
    }
  }

  lemma SettleKeepsOwners(s: State, key: string, outcome: SendOutcome, owner: string, ttl: int)
    requires OwnersIn(s.ledger, s.owners) && OneRecordPerOwner(s.ledger)
    ensures var l := Written(s, Settle(s.ledger, key, outcome, owner, s.now, ttl)).ledger;
      OwnersIn(l, s.owners) && OneRecordPerOwner(l)
  {
    var n := Find(s.ledger, key);
    if n < |s.ledger| {
      match Settled(s.ledger[n], outcome, s.now, ttl)
      case Some(i) => ReplacedOwners(s.ledger, n, i, s.owners, s.owners);
      case None =>
    }
  }

  lemma KeyForKeepsOwners(s: State, id: Identity, ttl: int, uuid: string)
    requires OwnersIn(s.ledger, s.owners) && OneRecordPerOwner(s.ledger)
    ensures var l := Written(s, KeyFor(s.ledger, id, s.now, ttl, uuid)).ledger;
      OwnersIn(l, s.owners) && OneRecordPerOwner(l)
  {
    var active := ActiveAt(s.ledger, s.now);
    assert OwnersIn(active, s.owners);
    hide IsIdempotencyKey, ActiveAt, FindIdentity;
  }

  /** A window moves to a phase with its own owner or a fresh one. */
  lemma PhaseKeeps(s: State, t: State, w: nat, p: Phase)
    requires RejectionsReal(s) && OwnersUnique(s) && w in s.windows
    requires t.windows == s.windows[w := p] && t.performed == s.performed && t.rejected == s.rejected
    requires s.owners <= t.owners && OwnersIn(t.ledger, t.owners) && OneRecordPerOwner(t.ledger)
    requires HasOwner(p) ==> p.owner in t.owners && (p.owner !in s.owners || (HasOwner(s.windows[w]) && p.owner == s.windows[w].owner))
    requires Rejecting(p) ==> p.key in s.rejected
    ensures RejectionsReal(t) && OwnersUnique(t)
  {
  }

  lemma KeyForStep(s: State, s': State, w: nat, id: Identity, ttl: int, uuid: string)
    requires Inv(s) && StepKeyFor(s, s', w, id, ttl, uuid)
    ensures Inv(s')
  {
    var e := KeyFor(s.ledger, id, s.now, ttl, uuid);
    if e.result.Success? {
      KeyForKeepsKeyInv(s, id, ttl, uuid);
      KeyForKeepsOwners(s, id, ttl, uuid);
      hide KeyFor, Expiries, KeyInv, RejectionsReal, OwnersUnique, OwnersIn, OneRecordPerOwner, Accepted, ClockInRange;
      var t := Written(s, e);
      var t' := if e.result.value == id.scope + ":" + uuid then t.(mints := s.mints + [Mint(id, e.result.value, s.now)]) else t;
      KeyInvKept(t', s');
      PhaseKeeps(s, s', w, Minted(e.result.value));
    }
  }

  lemma LedgerOwners(s: State)
    requires OwnersUnique(s)
    ensures OwnersIn(s.ledger, s.owners) && OneRecordPerOwner(s.ledger)
  {
  }

  lemma ClaimWrites(s: State, w: nat, leaseMs: int, owner: string) returns (n: nat, r: Intent)
    requires w in s.windows && s.windows[w].Minted?
    requires Claim(s.ledger, s.windows[w].key, s.now, leaseMs, owner).result.Success?
    ensures n == Find(s.ledger, s.windows[w].key) < |s.ledger| && IdentityOf(r) == IdentityOf(s.ledger[n]) && r.key == s.ledger[n].key && r.dispatchOwner == Some(owner)
    ensures Claim(s.ledger, s.windows[w].key, s.now, leaseMs, owner).written == Some(s.ledger[n := r])
  {
    n := Find(s.ledger, s.windows[w].key);
    var i := if s.ledger[n].state.Ready? then s.ledger[n].(state := Inflight) else s.ledger[n];
    r := Leased(i, owner, s.now, leaseMs);
  }

  lemma ClaimStep(s: State, s': State, w: nat, leaseMs: int, owner: string)
    requires Inv(s) && StepClaim(s, s', w, leaseMs, owner)
    ensures Inv(s')
  {
    var key := s.windows[w].key;
    var e := Claim(s.ledger, key, s.now, leaseMs, owner);
    if e.result.Success? {
      var n, r := ClaimWrites(s, w, leaseMs, owner);
      LeaseOperationsKeepKeyInv(s, n, r);
      ReplacedOwners(s.ledger, n, r, s.owners, s.owners + {owner});
      hide Claim, Expiries, KeyInv, RejectionsReal, OwnersUnique, OwnersIn, OneRecordPerOwner, Accepted;
      KeyInvKept(Rewritten(s, s.ledger[n := r]), s');
      PhaseKeeps(s, s', w, Claimed(key, owner));
    } else {
      KeyInvKept(s, s');
      PhaseKeeps(s, s', w, Idle);
    }
  }

  lemma HeartbeatStep(s: State, s': State, w: nat, leaseMs: int)
    requires Inv(s) && StepHeartbeat(s, s', w, leaseMs)
    ensures Inv(s')
  {
    var Sending(key, owner, _) := s.windows[w];
    var e := Renew(s.ledger, key, owner, s.now, leaseMs);
    if Accepted(s.ledger, s.now) && e.result.Success? && s' == Written(s, e) {
      var n := Find(s.ledger, key);
      var r := Leased(s.ledger[n], owner, s.now, leaseMs);
      LeaseOperationsKeepKeyInv(s, n, r);
      ReplacedOwners(s.ledger, n, r, s.owners, s.owners);
      KeyInvKept(Rewritten(s, s.ledger[n := r]), s');
    } else {
      KeyInvKept(s, s');
      PhaseKeeps(s, s', w, Sending(key, owner, true));
    }
  }

  lemma SettleStep(s: State, s': State, w: nat, ttl: int)
    requires Inv(s) && StepSettle(s, s', w, ttl)
    ensures Inv(s')
  {
    var Settling(key, owner, reply) := s.windows[w];
    var outcome := OutcomeOf(reply);
    if reply.Failed? { RejectionIffDefinite(reply.failure); }
    hide FailureOutcome, Definite;
    SettleKeepsKeyInv(s, key, outcome, owner, ttl);
    SettleKeepsOwners(s, key, outcome, owner, ttl);
    var t := Written(s, Settle(s.ledger, key, outcome, owner, s.now, ttl));
    hide Settle, KeyInv, RejectionsReal, OwnersUnique, OwnersIn, OneRecordPerOwner, Accepted;
    KeyInvKept(t, s');
    PhaseKeeps(s, s', w, Idle);
  }

  lemma ServerSteps(s: State, s': State)
    requires Inv(s)
    requires || (exists key :: StepPerform(s, s', key))
             || (exists key :: StepReject(s, s', key))
             || (exists ms :: StepTick(s, s', ms))
    ensures Inv(s')
  {
    KeyInvKept(s, s');
  }

  /** A window's phase changes and the ledger does not. */
  lemma PhaseStep(s: State, s': State, w: nat)
    requires Inv(s)
    requires StepSend(s, s', w) || (exists reply :: StepReply(s, s', w, reply)) || StepFinish(s, s', w) || StepAbandon(s, s', w)
    ensures Inv(s')
  {
    KeyInvKept(s, s');
    LedgerOwners(s);
    ReplyRejection(s, w);
    var p := s'.windows[w];
    assert s'.windows == s.windows[w := p];
    hide KeyInv, OwnersIn, OneRecordPerOwner, Owns, RejectionsReal, OwnersUnique, Accepted;
    PhaseKeeps(s, s', w, p);
  }

  lemma ReplyRejection(s: State, w: nat)
    requires RejectionsReal(s) && OwnersUnique(s)
    ensures w in s.windows && Rejecting(s.windows[w]) ==> s.windows[w].key in s.rejected
    ensures w in s.windows && HasOwner(s.windows[w]) ==> s.windows[w].owner in s.owners
  {
  }

  lemma NextKeepsInv(s: State, s': State)
    requires Inv(s) && Next(s, s')
    ensures Inv(s')
  {
    if w, id, ttl, uuid :| StepKeyFor(s, s', w, id, ttl, uuid) {
      KeyForStep(s, s', w, id, ttl, uuid);
    } else if w, leaseMs, owner :| StepClaim(s, s', w, leaseMs, owner) {
      ClaimStep(s, s', w, leaseMs, owner);
    } else if w, leaseMs :| StepHeartbeat(s, s', w, leaseMs) {
      HeartbeatStep(s, s', w, leaseMs);
    } else if w, ttl :| StepSettle(s, s', w, ttl) {
      SettleStep(s, s', w, ttl);
    } else if w :| StepSend(s, s', w) {
      PhaseStep(s, s', w);
    } else if w, reply :| StepReply(s, s', w, reply) {
      PhaseStep(s, s', w);
    } else if w :| StepFinish(s, s', w) {
      PhaseStep(s, s', w);
    } else if w :| StepAbandon(s, s', w) {
      PhaseStep(s, s', w);
    } else {
      ServerSteps(s, s');
    }
  }

  lemma {:induction false} RunKeepsInv(run: seq<State>, n: nat)
    requires IsRun(run) && n < |run|
    ensures Inv(run[n])
  {
    if n > 0 {
      RunKeepsInv(run, n - 1);
      NextKeepsInv(run[n - 1], run[n]);
    }
  }

  // ---------------------------------------------------------------- safety of whole runs

  /**
   Two different keys are performed for one identity only if the record of the first had expired when
   the second was minted.
   */
  lemma NoDuplicateSend(run: seq<State>, n: nat, i: nat, j: nat)
    requires IsRun(run) && n < |run|
    requires var s := run[n];
      i < j < |s.mints| && s.mints[i].id == s.mints[j].id && s.mints[i].key in s.performed && s.mints[j].key in s.performed
    ensures var s := run[n];
      && s.mints[i].key != s.mints[j].key
      && s.mints[i].key in s.lastExpiry
      && s.lastExpiry[s.mints[i].key] <= s.mints[j].time
  {
    RunKeepsInv(run, n);
    assert GoneFor(run[n], run[n].mints[i].key, run[n].mints[j].time);
  }

  /** At any moment at most one window would pass the ownership test for a key. */
  lemma OneOwner(run: seq<State>, n: nat, v: nat, w: nat)
    requires IsRun(run) && n < |run|
    requires var s := run[n];
      && v in s.windows && w in s.windows && HasOwner(s.windows[v]) && HasOwner(s.windows[w])
      && s.windows[v].key == s.windows[w].key
      && Owns(s.ledger, s.windows[v].key, s.windows[v].owner, s.now)
      && Owns(s.ledger, s.windows[w].key, s.windows[w].owner, s.now)
    ensures v == w
  {
    RunKeepsInv(run, n);
  }

  /**
   A window hands its key to the network, and takes its reply to settlement, only while the key's record
   names it under a running lease; no other window then has that record's owner.
   */
  lemma OnlyOwnerActs(run: seq<State>, n: nat, w: nat) returns (r: Intent)
    requires IsRun(run) && n + 1 < |run| && w in run[n].windows && w in run[n + 1].windows && HasOwner(run[n].windows[w])
    requires || (StepSend(run[n], run[n + 1], w) && run[n + 1].windows[w].Sending?)
             || (StepFinish(run[n], run[n + 1], w) && run[n + 1].windows[w].Settling?)
    ensures r in run[n].ledger && r.key == run[n].windows[w].key && r.dispatchOwner == Some(run[n].windows[w].owner)
    ensures r.dispatchLeaseExpiresAt.Some? && r.dispatchLeaseExpiresAt.value > run[n].now
    ensures forall v :: v in run[n].windows && v != w && HasOwner(run[n].windows[v]) ==> r.dispatchOwner != Some(run[n].windows[v].owner)
  {
    var s := run[n];
    RunKeepsInv(run, n);
    r := s.ledger[Find(s.ledger, s.windows[w].key)];
  }

  // ---------------------------------------------------------------- superseded owners

  /** `owner` is the dispatch owner of some record. */
  ghost predicate Holds(l: seq<Intent>, owner: string) { exists r :: r in l && r.dispatchOwner == Some(owner) }

  /** An owner that has been created and holds nothing. */
  ghost predicate Superseded(s: State, owner: string) { owner in s.owners && !Holds(s.ledger, owner) }

  lemma ReplacedHolds(l: seq<Intent>, n: nat, i: Intent, owner: string)
    requires n < |l| && !Holds(l, owner) && i.dispatchOwner != Some(owner)
    ensures !Holds(l[n := i], owner)
  {
    forall r | r in l[n := i] ensures r.dispatchOwner != Some(owner) {
      var k :| 0 <= k < |l| && l[n := i][k] == r;
      if k != n { assert l[k] in l; }
    }
  }

  /** No operation hands a record back to an owner that lost it. */
  lemma SupersededStep(s: State, s': State, owner: string)
    requires Next(s, s') && Superseded(s, owner)
    ensures Superseded(s', owner)
  {
    if w, id, ttl, uuid :| StepKeyFor(s, s', w, id, ttl, uuid) {
      KeyForNeverHolds(s, id, ttl, uuid, owner);
    } else if w, leaseMs, o :| StepClaim(s, s', w, leaseMs, o) {
      if Claim(s.ledger, s.windows[w].key, s.now, leaseMs, o).result.Success? {
        var n, r := ClaimWrites(s, w, leaseMs, o);
        ReplacedHolds(s.ledger, n, r, owner);
      }
    } else if w, leaseMs :| StepHeartbeat(s, s', w, leaseMs) {
      var Sending(key, o, _) := s.windows[w];
      RenewNeverHolds(s, key, o, leaseMs, owner);
    } else if w, ttl :| StepSettle(s, s', w, ttl) {
      var Settling(key, o, reply) := s.windows[w];
      SettleNeverHolds(s, key, OutcomeOf(reply), o, ttl, owner);
    }
  }

  lemma KeyForNeverHolds(s: State, id: Identity, ttl: int, uuid: string, owner: string)
    requires !Holds(s.ledger, owner)
    ensures !Holds(Written(s, KeyFor(s.ledger, id, s.now, ttl, uuid)).ledger, owner)
  {
    var active := ActiveAt(s.ledger, s.now);
    assert !Holds(active, owner);
  }

  lemma RenewNeverHolds(s: State, key: string, o: string, leaseMs: int, owner: string)
    requires !Holds(s.ledger, owner)
    ensures !Holds(Written(s, Renew(s.ledger, key, o, s.now, leaseMs)).ledger, owner)
  {
    var n := Find(s.ledger, key);
    if Owns(s.ledger, key, o, s.now) {
      assert s.ledger[n] in s.ledger;
      ReplacedHolds(s.ledger, n, Leased(s.ledger[n], o, s.now, leaseMs), owner);
    }
  }

  lemma SettleNeverHolds(s: State, key: string, outcome: SendOutcome, o: string, ttl: int, owner: string)
    requires !Holds(s.ledger, owner)
    ensures !Holds(Written(s, Settle(s.ledger, key, outcome, o, s.now, ttl)).ledger, owner)
  {
    var n := Find(s.ledger, key);
    if n < |s.ledger| {
      match Settled(s.ledger[n], outcome, s.now, ttl)
      case Some(i) => ReplacedHolds(s.ledger, n, i, owner);
      case None =>
    }
  }

  lemma {:induction false} SupersededForever(run: seq<State>, m: nat, n: nat, owner: string)
    requires IsRun(run) && m <= n < |run| && Superseded(run[m], owner)
    ensures Superseded(run[n], owner)
  {
    hide Next, Init, Superseded;
    if m < n {
      SupersededForever(run, m, n - 1, owner);
      SupersededStep(run[n - 1], run[n], owner);
    }
  }

  lemma OnlyHolderReplaced(l: seq<Intent>, n: nat, i: Intent, previous: string)
    requires Distinct(l) && OneRecordPerOwner(l) && n < |l|
    requires l[n].dispatchOwner == Some(previous) && i.dispatchOwner != Some(previous)
    ensures !Holds(l[n := i], previous)
  {
    assert l[n] in l;
    forall q | q in l[n := i] ensures q.dispatchOwner != Some(previous) {
      var x :| 0 <= x < |l| && l[n := i][x] == q;
      if x != n { assert l[x] in l && l[x].key != l[n].key; }
    }
  }

  lemma ClaimSupersedes(s: State, s': State, w: nat, leaseMs: int, owner: string, previous: string)
    requires Inv(s) && StepClaim(s, s', w, leaseMs, owner)
    requires var k := Find(s.ledger, s.windows[w].key);
      && Claim(s.ledger, s.windows[w].key, s.now, leaseMs, owner).result.Success?
      && s.ledger[k].dispatchOwner == Some(previous)
    ensures Superseded(s', previous)
  {
    var k, r := ClaimWrites(s, w, leaseMs, owner);
    assert s.ledger[k] in s.ledger && previous in s.owners && previous != owner;
    hide Claim, KeyInv;
    OnlyHolderReplaced(s.ledger, k, r, previous);
  }

  /**
   A claim succeeds only over a lease that has run out, and takes the record from its previous owner.
   From then on that owner passes no ownership test, so no send and no result, renews nothing and
   settles nothing, whatever key, time and outcome it tries with.
   */
  lemma TakeoverIsFinal(run: seq<State>, m: nat, n: nat, w: nat, leaseMs: int, owner: string, previous: string,
                        key: string, t: int, ms: int, outcome: SendOutcome, ttl: int)
    requires IsRun(run) && m < n < |run| && StepClaim(run[m], run[m + 1], w, leaseMs, owner)
    requires var s := run[m]; var k := Find(s.ledger, s.windows[w].key);
      && Claim(s.ledger, s.windows[w].key, s.now, leaseMs, owner).result.Success?
      && s.ledger[k].dispatchOwner == Some(previous)
    ensures !Owns(run[m].ledger, run[m].windows[w].key, previous, run[m].now)
    ensures !Owns(run[n].ledger, key, previous, t)
    ensures Renew(run[n].ledger, key, previous, t, ms) == Refuse(OwnershipLost)
    ensures Settle(run[n].ledger, key, outcome, previous, t, ttl).result.Failure?
    ensures Settle(run[n].ledger, key, outcome, previous, t, ttl).written == None
  {
    RunKeepsInv(run, m);
    ClaimSupersedes(run[m], run[m + 1], w, leaseMs, owner, previous);
    hide IsRun, Inv;
    SupersededForever(run, m + 1, n, previous);
    var l := run[n].ledger;
    var x := Find(l, key);
    if x < |l| { assert l[x] in l; }
  }

  // ---------------------------------------------------------------- one key per identity, and tombstones

  /** Until the record of a minted key expires or is rejected, `keyFor` on these records gives that key. */
  lemma MintedKeyChosen(s: State, m: Mint, ttl: int, uuid: string)
    requires Inv(s) && |s.ledger| <= MAX_LEDGER_RECORDS
    requires m in s.mints && m.key !in s.rejected && m.key in s.lastExpiry && s.lastExpiry[m.key] > s.now
    ensures KeyFor(s.ledger, m.id, s.now, ttl, uuid).result == Success(m.key)
  {
    hide KeysAccounted, GoneReasons, Succession, RejectionsReal, OwnersUnique;
    var r := RecordOfMint(s, m);
    ActiveRecordChosen(s.ledger, r, s.now, ttl, uuid);
  }

  lemma ActiveRecordChosen(l: seq<Intent>, r: Intent, t: int, ttl: int, uuid: string)
    requires Distinct(l) && r in l && r.expiresAt > t && |l| <= MAX_LEDGER_RECORDS
    ensures KeyFor(l, IdentityOf(r), t, ttl, uuid).result == Success(r.key)
  {
    var active := ActiveAt(l, t);
    ActiveDistinct(l, t);
    assert r in active;
    var x :| 0 <= x < |active| && active[x] == r;
    assert FindIdentity(active, IdentityOf(r)) == x;
  }

  lemma RecordOfMint(s: State, m: Mint) returns (r: Intent)
    requires KeyInv(s) && m in s.mints && m.key !in s.rejected && m.key in s.lastExpiry && s.lastExpiry[m.key] > s.now
    ensures r in s.ledger && r.key == m.key && IdentityOf(r) == m.id && r.expiresAt > s.now
  {
    r :| r in s.ledger && r.key == m.key;
    var o :| o in s.mints && o.key == r.key && o.id == IdentityOf(r);
    var x :| 0 <= x < |s.mints| && s.mints[x] == m;
    var y :| 0 <= y < |s.mints| && s.mints[y] == o;
    assert x == y;
  }

  /** The tombstone of a completed send. */
  datatype Tombstone = Tombstone(id: Identity, key: string, completedAt: int, expiresAt: int)

  predicate Marks(r: Intent, d: Tombstone) {
    r.state.Completed? && r.completedAt == Some(d.completedAt) && r.expiresAt == d.expiresAt && r.key == d.key && IdentityOf(r) == d.id
  }

  ghost predicate Stands(l: seq<Intent>, d: Tombstone) { exists r :: r in l && Marks(r, d) }

  lemma ReplacedStands(l: seq<Intent>, n: nat, i: Intent, d: Tombstone)
    requires Distinct(l) && n < |l| && Stands(l, d) && i.key == l[n].key && (Marks(l[n], d) ==> Marks(i, d))
    ensures Stands(l[n := i], d)
  {
    var r :| r in l && Marks(r, d);
    var k :| 0 <= k < |l| && l[k] == r;
    assert l[n := i][k] in l[n := i];
  }

  lemma SettleStands(s: State, key: string, outcome: SendOutcome, owner: string, ttl: int, d: Tombstone)
    requires Distinct(s.ledger) && Stands(s.ledger, d)
    ensures Stands(Written(s, Settle(s.ledger, key, outcome, owner, s.now, ttl)).ledger, d)
  {
    var n := Find(s.ledger, key);
    var r :| r in s.ledger && Marks(r, d);
    MemberFound(s.ledger, r);
    if n < |s.ledger| {
      match Settled(s.ledger[n], outcome, s.now, ttl)
      case Some(i) => ReplacedStands(s.ledger, n, i, d);
      case None => assert r in Without(s.ledger, key);
    }
  }

  lemma KeyForStands(s: State, id: Identity, ttl: int, uuid: string, d: Tombstone)
    requires Stands(s.ledger, d) && s.now < d.expiresAt
    ensures Stands(Written(s, KeyFor(s.ledger, id, s.now, ttl, uuid)).ledger, d)
  {
    var r :| r in s.ledger && Marks(r, d);
    var active := ActiveAt(s.ledger, s.now);
    assert r in active;
    assert r in active + [Created(id, id.scope + ":" + uuid, s.now, ttl)];
    KeyForWritten(s.ledger, id, s.now, ttl, uuid);
    hide KeyFor, Created, ActiveAt, Marks;
  }

  lemma KeyForWritten(l: seq<Intent>, id: Identity, t: int, ttl: int, uuid: string)
    ensures var written := KeyFor(l, id, t, ttl, uuid).written;
      written == None || written == Some(ActiveAt(l, t)) || written == Some(ActiveAt(l, t) + [Created(id, id.scope + ":" + uuid, t, ttl)])
  {
    hide IsIdempotencyKey, Created;
  }

  lemma RenewStands(s: State, key: string, owner: string, leaseMs: int, d: Tombstone)
    requires Distinct(s.ledger) && Stands(s.ledger, d)
    ensures Stands(Written(s, Renew(s.ledger, key, owner, s.now, leaseMs)).ledger, d)
  {
    var n := Find(s.ledger, key);
    if Owns(s.ledger, key, owner, s.now) {
      ReplacedStands(s.ledger, n, Leased(s.ledger[n], owner, s.now, leaseMs), d);
    }
  }

  lemma ClaimStands(s: State, key: string, owner: string, leaseMs: int, d: Tombstone)
    requires Distinct(s.ledger) && Stands(s.ledger, d)
    ensures Stands(Written(s, Claim(s.ledger, key, s.now, leaseMs, owner)).ledger, d)
  {
    var n := Find(s.ledger, key);
    if n < |s.ledger| {
      var i := if s.ledger[n].state.Ready? then s.ledger[n].(state := Inflight) else s.ledger[n];
      ReplacedStands(s.ledger, n, Leased(i, owner, s.now, leaseMs), d);
    }
  }

  lemma TombstoneStep(s: State, s': State, d: Tombstone)
    requires Distinct(s.ledger) && Next(s, s') && Stands(s.ledger, d)
    ensures s.now <= s'.now && (Stands(s'.ledger, d) || d.expiresAt <= s'.now)
  {
    if w, id, ttl, uuid :| StepKeyFor(s, s', w, id, ttl, uuid) {
      if s.now < d.expiresAt { KeyForStands(s, id, ttl, uuid, d); }
    } else if w, leaseMs, owner :| StepClaim(s, s', w, leaseMs, owner) {
      ClaimStands(s, s.windows[w].key, owner, leaseMs, d);
    } else if w, leaseMs :| StepHeartbeat(s, s', w, leaseMs) {
      RenewStands(s, s.windows[w].key, s.windows[w].owner, leaseMs, d);
    } else if w, ttl :| StepSettle(s, s', w, ttl) {
      var Settling(key, owner, reply) := s.windows[w];
      SettleStands(s, key, OutcomeOf(reply), owner, ttl, d);
    }
  }

  lemma ClockAdvances(s: State, s': State)
    requires Next(s, s')
    ensures s.now <= s'.now
  {
  }

  /**
   A completed record keeps its key, completion time and expiry through every claim, renewal and
   settlement, and stays in the ledger at least until it expires.
   */
  lemma {:induction false} CompletedIsTerminal(run: seq<State>, m: nat, n: nat, d: Tombstone)
    requires IsRun(run) && m <= n < |run| && Stands(run[m].ledger, d)
    ensures Stands(run[n].ledger, d) || d.expiresAt <= run[n].now
  {
    hide Next, Init, Stands;
    if m < n {
      CompletedIsTerminal(run, m, n - 1, d);
      RunKeepsInv(run, n - 1);
      ClockAdvances(run[n - 1], run[n]);
      if Stands(run[n - 1].ledger, d) { TombstoneStep(run[n - 1], run[n], d); }
    }
  }
}
