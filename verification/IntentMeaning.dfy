/**
 What the operations of the send intent tracker mean for the records: which record each one touches, what
 it leaves in it, and when it refuses, said of the records themselves.
 */
module IntentMeaning {
  import opened Wrappers
  import opened Json
  import opened JsText
  import opened CanonicalJson
  import opened IntentLedger
  import opened IntentOperations

  // ---------------------------------------------------------------- what the parser refuses

  /** A scope is of 3 to 64 small letters, digits and hyphens, and starts with none of these last. */
  lemma ScopeMeaning(s: string)
    ensures IsScope(s) <==> 3 <= |s| <= 64 && s[0] != '-' && forall c :: c in s ==> 'a' <= c <= 'z' || '0' <= c <= '9' || c == '-'
  {
    assert forall i :: 0 <= i < |s| ==> s[i] in s;
  }

  lemma DigestMeaning(s: string)
    ensures IsDigest(s) <==> |s| == 64 && forall c :: c in s ==> '0' <= c <= '9' || 'a' <= c <= 'f'
  {
    assert forall i :: 0 <= i < |s| ==> s[i] in s;
  }

  predicate IsMark(c: char) { c in {'.', '_', ':', '/', '-'} }

  /** A key is of 8 to 200 letters, digits and marks, and starts with no mark. */
  lemma KeyMeaning(s: string)
    ensures IsIdempotencyKey(s)
       <==> 8 <= |s| <= 200 && !IsMark(s[0]) && forall c :: c in s ==> 'a' <= c <= 'z' || 'A' <= c <= 'Z' || '0' <= c <= '9' || IsMark(c)
  {
    assert forall i :: 0 <= i < |s| ==> s[i] in s;
  }

  predicate BadNumber(n: int) { n < -9007199254740991 || n > 9007199254740991 }

  ghost predicate BadFormat(i: Intent) {
    || !IsScope(i.scope) || !IsDigest(i.contextDigest) || !IsDigest(i.payloadDigest)
    || !IsIdempotencyKey(i.key) || !(exists rest :: i.key == i.scope + ":" + rest)
    || BadNumber(i.createdAt) || BadNumber(i.updatedAt) || BadNumber(i.expiresAt)
  }

  /** Out of order, longer than two weeks, or ahead of the clock by more than five minutes. */
  predicate BadTimes(i: Intent, now: int) {
    || i.createdAt <= 0 || i.updatedAt < i.createdAt || i.expiresAt < i.updatedAt
    || i.expiresAt > i.createdAt + 14 * 86400000
    || i.createdAt > now + 300000 || i.updatedAt > now + 300000
  }

  /** An owner without a lease or a lease without an owner, no owner's id, or a lease outside the record's time. */
  predicate BadLease(i: Intent) {
    match (i.dispatchOwner, i.dispatchLeaseExpiresAt)
    case (None, None) => false
    case (Some(owner), Some(lease)) => !IsUuid(owner) || BadNumber(lease) || lease < i.updatedAt || lease > i.expiresAt
    case _ => true
  }

  /** Ready with an owner, in flight without one, either completed or longer than a week; or completed at no time or a wrong one. */
  predicate BadState(i: Intent) {
    match i.completedAt
    case None =>
      || i.state.Completed? || i.expiresAt > i.createdAt + 7 * 86400000
      || (i.state.Ready? && i.dispatchOwner.Some?) || (i.state.Inflight? && i.dispatchOwner.None?)
    case Some(done) =>
      || !i.state.Completed? || BadNumber(done) || done < i.createdAt || done > i.updatedAt
      || (i.dispatchOwner.None? && done < i.updatedAt) || i.expiresAt > done + 7 * 86400000
  }

  /** The parser refuses exactly the records with one of these faults. */
  lemma RefusedIffFaulty(i: Intent, now: int)
    ensures WellFormed(i, now) <==> !BadFormat(i) && !BadTimes(i, now) && !BadLease(i) && !BadState(i)
  {
    hide IsScope, IsDigest, IsIdempotencyKey, IsUuid;
    var prefix := i.scope + ":";
    if prefix <= i.key { assert i.key == prefix + i.key[|prefix|..]; }
    forall rest | i.key == i.scope + ":" + rest ensures prefix <= i.key {}
  }

  // ---------------------------------------------------------------- what the parser reads

  /** An optional field is there exactly if it has a value, and then with it. */
  predicate MaybeNumber(m: map<string, Value>, k: string, n: Option<int>) { if n.Some? then IsNumber(m, k, n.value) else k !in m }

  /** The object has the fields of the record, each with its value and type, and no other. */
  predicate Spells(v: Value, i: Intent) {
    && v.VObj? && v.fields.Keys <= INTENT_FIELDS
    && IsNumber(v.fields, "version", 1)
    && IsText(v.fields, "scope", i.scope) && IsText(v.fields, "contextDigest", i.contextDigest)
    && IsText(v.fields, "payloadDigest", i.payloadDigest) && IsText(v.fields, "key", i.key)
    && IsText(v.fields, "state", if i.state.Ready? then "ready" else if i.state.Inflight? then "inflight" else "completed")
    && IsNumber(v.fields, "createdAt", i.createdAt) && IsNumber(v.fields, "updatedAt", i.updatedAt) && IsNumber(v.fields, "expiresAt", i.expiresAt)
    && MaybeNumber(v.fields, "completedAt", i.completedAt)
    && (if i.dispatchOwner.Some? then IsText(v.fields, "dispatchOwner", i.dispatchOwner.value) else "dispatchOwner" !in v.fields)
    && MaybeNumber(v.fields, "dispatchLeaseExpiresAt", i.dispatchLeaseExpiresAt)
  }

  lemma StateMeaning(s: string, state: IntentState)
    ensures StateOf(s) == Some(state) <==> s == if state.Ready? then "ready" else if state.Inflight? then "inflight" else "completed"
  {
    StateRoundTrip(state);
  }

  /** A value reads as a record exactly if it spells it out. */
  lemma ReadIff(v: Value, i: Intent)
    ensures ReadIntent(v) == Some(i) <==> Spells(v, i)
  {
    hide TokenInt, StateOf;
    if v.VObj? && "state" in v.fields && v.fields["state"].VStr? {
      forall state ensures StateOf(v.fields["state"].s) == Some(state)
                      <==> v.fields["state"].s == if state.Ready? then "ready" else if state.Inflight? then "inflight" else "completed" {
        StateMeaning(v.fields["state"].s, state);
      }
    }
  }

  lemma {:induction false} AllReadIff(values: seq<Value>, l: seq<Intent>)
    ensures ReadIntents(values) == Some(l) <==> |values| == |l| && forall n :: 0 <= n < |l| ==> Spells(values[n], l[n])
  {
    hide ReadIntent, Spells;
    if values != [] && l != [] {
      ReadIff(values[0], l[0]);
      AllReadIff(values[1..], l[1..]);
      assert l == [l[0]] + l[1..];
      forall n | 0 < n < |l| && |values| == |l| ensures values[n] == values[1..][n - 1] && l[n] == l[1..][n - 1] {}
      forall n | 0 <= n < |l[1..]| && |values| == |l| ensures values[1..][n] == values[n + 1] && l[1..][n] == l[n + 1] {}
    }
  }

  /** A stored text is a ledger of these records exactly if it is no longer than 512*1024 and spells out them and the version. */
  lemma LedgerIff(text: string, l: seq<Intent>)
    requires text != ""
    ensures ReadLedger(Some(text)) == Some(l)
       <==> |text| <= 524288 && Reread(text).Some? && SpellsLedger(Reread(text).value, l)
  {
    hide Reread, ReadIntents, Spells, TokenInt;
    if |text| <= 524288 && Reread(text).Some? && Reread(text).value.VObj? {
      var m := Reread(text).value.fields;
      if "intents" in m && m["intents"].VArr? { AllReadIff(m["intents"].items, l); }
    }
  }

  predicate SpellsLedger(v: Value, l: seq<Intent>) {
    && v.VObj? && v.fields.Keys <= {"version", "intents"} && IsNumber(v.fields, "version", 1)
    && "intents" in v.fields && v.fields["intents"].VArr? && |v.fields["intents"].items| == |l|
    && forall n :: 0 <= n < |l| ==> Spells(v.fields["intents"].items[n], l[n])
  }

  // ---------------------------------------------------------------- records

  /** Everything of the record but what a lease sets. */
  predicate SameSend(i: Intent, j: Intent) {
    && i.scope == j.scope && i.contextDigest == j.contextDigest && i.payloadDigest == j.payloadDigest && i.key == j.key
    && i.createdAt == j.createdAt && i.expiresAt == j.expiresAt && i.completedAt == j.completedAt
  }

  /** Only this record of a ledger is another. */
  ghost predicate OnlyAt(l: seq<Intent>, l': seq<Intent>, n: nat) {
    |l'| == |l| && n < |l| && forall k :: 0 <= k < |l| && k != n ==> l'[k] == l[k]
  }

  /** How many records have not expired. */
  function Unexpired(l: seq<Intent>, t: int): nat {
    if l == [] then 0 else Unexpired(l[1..], t) + if l[0].expiresAt > t then 1 else 0
  }

  lemma FoundAt(l: seq<Intent>, n: nat)
    requires Distinct(l) && n < |l|
    ensures Find(l, l[n].key) == n && FindIdentity(l, IdentityOf(l[n])) == n
  {
  }

  lemma NotFound(l: seq<Intent>, key: string)
    requires forall i :: 0 <= i < |l| ==> l[i].key != key
    ensures Find(l, key) == |l|
  {
  }

  // ---------------------------------------------------------------- keyFor

  lemma {:induction false} ActiveCount(l: seq<Intent>, t: int)
    ensures |ActiveAt(l, t)| == Unexpired(l, t)
  {
    if l != [] { ActiveCount(l[1..], t); }
  }

  /** What is written keeps exactly the records that have not expired. */
  ghost predicate KeepsUnexpired(l: seq<Intent>, kept: seq<Intent>, t: int) {
    |kept| == Unexpired(l, t) && forall r :: r in kept <==> r in l && r.expiresAt > t
  }

  ghost predicate HasUnexpired(l: seq<Intent>, id: Identity, t: int) {
    exists r :: r in l && r.expiresAt > t && IdentityOf(r) == id
  }

  /** An unexpired record of the identity gives its key; the write, if any, only drops expired records. */
  lemma KeyForExisting(l: seq<Intent>, r: Intent, t: int, ttl: int, uuid: string)
    requires Distinct(l) && r in l && r.expiresAt > t && Unexpired(l, t) <= 256
    ensures var e := KeyFor(l, IdentityOf(r), t, ttl, uuid);
      && e.result == Success(r.key)
      && (e.written.None? ==> forall q :: q in l ==> q.expiresAt > t)
      && (e.written.Some? ==> KeepsUnexpired(l, e.written.value, t))
  {
    ActiveCount(l, t);
    ActiveDistinct(l, t);
    var active := ActiveAt(l, t);
    var n :| 0 <= n < |active| && active[n] == r;
    FoundAt(active, n);
    if |active| == |l| { AllActive(l, t); }
  }

  lemma {:induction false} AllActive(l: seq<Intent>, t: int)
    requires |ActiveAt(l, t)| == |l|
    ensures forall q :: q in l ==> q.expiresAt > t
  {
    if l != [] {
      AllActive(l[1..], t);
      assert l == [l[0]] + l[1..];
    }
  }

  /** Without one, and with room, a new record is added: fresh, ready, and of exactly the given lifetime. */
  lemma KeyForNew(l: seq<Intent>, id: Identity, t: int, ttl: int, uuid: string)
    requires !HasUnexpired(l, id, t) && Unexpired(l, t) < 256
    requires IsIdempotencyKey(id.scope + ":" + uuid) && forall r :: r in l && r.expiresAt > t ==> r.key != id.scope + ":" + uuid
    ensures var e := KeyFor(l, id, t, ttl, uuid);
      && e.result == Success(id.scope + ":" + uuid)
      && e.written.Some? && |e.written.value| > 0
      && var n := |e.written.value| - 1;
      && KeepsUnexpired(l, e.written.value[..n], t)
      && var r := e.written.value[n];
      && IdentityOf(r) == id && r.key == id.scope + ":" + uuid && r.state == Ready
      && r.createdAt == t && r.updatedAt == t && r.expiresAt == t + ttl
      && r.completedAt == None && r.dispatchOwner == None && r.dispatchLeaseExpiresAt == None
  {
    ActiveCount(l, t);
    hide IsIdempotencyKey;
    var active := ActiveAt(l, t);
    assert forall i :: 0 <= i < |active| ==> active[i] in l && active[i].expiresAt > t;
    NotFound(active, id.scope + ":" + uuid);
    assert FindIdentity(active, id) == |active|;
    var e := KeyFor(l, id, t, ttl, uuid);
    assert e.written.value[..|active|] == active;
  }

  /** What `keyFor` refuses, without a write: a full ledger, a key that is not canonical, or one that is taken. */
  lemma KeyForRefused(l: seq<Intent>, id: Identity, t: int, ttl: int, uuid: string)
    ensures var e := KeyFor(l, id, t, ttl, uuid);
      var taken := exists r :: r in l && r.expiresAt > t && r.key == id.scope + ":" + uuid;
      && (Unexpired(l, t) > 256 || (Unexpired(l, t) == 256 && !HasUnexpired(l, id, t)) ==> e == Effect(Failure(CapacityExhausted), None))
      && (Unexpired(l, t) < 256 && !HasUnexpired(l, id, t) && !IsIdempotencyKey(id.scope + ":" + uuid) ==> e == Effect(Failure(NotCanonicalKey), None))
      && (Unexpired(l, t) < 256 && !HasUnexpired(l, id, t) && IsIdempotencyKey(id.scope + ":" + uuid) && taken ==> e == Effect(Failure(DuplicateKey), None))
  {
    ActiveCount(l, t);
    hide IsIdempotencyKey;
    var active := ActiveAt(l, t);
    assert forall i :: 0 <= i < |active| ==> active[i] in l && active[i].expiresAt > t;
  }

  // ---------------------------------------------------------------- claim and renewal

  /** Under a lease of this owner from `t`, of at most the given length and no longer than the record lives. */
  predicate HeldBy(i: Intent, owner: string, t: int, leaseMs: int) {
    && i.dispatchOwner == Some(owner) && i.updatedAt == t
    && i.dispatchLeaseExpiresAt.Some?
    && i.dispatchLeaseExpiresAt.value <= t + leaseMs && i.dispatchLeaseExpiresAt.value <= i.expiresAt
    && (i.dispatchLeaseExpiresAt.value == t + leaseMs || i.dispatchLeaseExpiresAt.value == i.expiresAt)
  }

  /** A claim takes exactly an unexpired record without a running lease, and changes nothing else of the ledger. */
  lemma ClaimMeaning(l: seq<Intent>, n: nat, t: int, leaseMs: int, owner: string)
    requires Distinct(l) && n < |l| <= 256 && leaseMs > 0
    ensures var i := l[n]; var e := Claim(l, i.key, t, leaseMs, owner);
      if i.expiresAt <= t then e == Effect(Failure(MissingIntent), None)
      else if i.dispatchOwner.Some? && i.dispatchLeaseExpiresAt.Some? && i.dispatchLeaseExpiresAt.value > t then e == Effect(Failure(Busy), None)
      else
        && e.result == Success(owner) && e.written.Some? && OnlyAt(l, e.written.value, n)
        && var j := e.written.value[n];
           SameSend(i, j) && HeldBy(j, owner, t, leaseMs) && j.dispatchLeaseExpiresAt.value > t && j.state == if i.state.Ready? then Inflight else i.state
  {
    FoundAt(l, n);
  }

  lemma ClaimOfNone(l: seq<Intent>, key: string, t: int, leaseMs: int, owner: string)
    requires forall i :: 0 <= i < |l| ==> l[i].key != key
    ensures Claim(l, key, t, leaseMs, owner) == Effect(Failure(MissingIntent), None)
    ensures Renew(l, key, owner, t, leaseMs) == Effect(Failure(OwnershipLost), None)
    ensures forall outcome, ttl :: Settle(l, key, outcome, owner, t, ttl) == Effect(Failure(MissingIntent), None)
  {
    NotFound(l, key);
  }

  /** A renewal is the owner's, of a running lease on an unexpired record; it changes the lease alone. */
  lemma RenewMeaning(l: seq<Intent>, n: nat, owner: string, t: int, leaseMs: int)
    requires Distinct(l) && n < |l| <= 256
    ensures var i := l[n]; var e := Renew(l, i.key, owner, t, leaseMs);
      if i.dispatchOwner == Some(owner) && i.dispatchLeaseExpiresAt.Some? && i.dispatchLeaseExpiresAt.value > t && i.expiresAt > t then
        && e.result == Success(()) && e.written.Some? && OnlyAt(l, e.written.value, n)
        && SameSend(i, e.written.value[n]) && HeldBy(e.written.value[n], owner, t, leaseMs) && e.written.value[n].state == i.state
      else e == Effect(Failure(OwnershipLost), None)
  {
    FoundAt(l, n);
  }

  /** The ownership test is of the key's record: its owner, under a lease that has not run out. */
  lemma OwnsMeaning(l: seq<Intent>, key: string, owner: string, t: int)
    requires Distinct(l)
    ensures Owns(l, key, owner, t)
       <==> exists r :: r in l && r.key == key && r.dispatchOwner == Some(owner) && r.dispatchLeaseExpiresAt.Some? && r.dispatchLeaseExpiresAt.value > t
  {
    var n := Find(l, key);
    if n < |l| { assert l[n] in l; }
    forall r | r in l && r.key == key ensures n < |l| && l[n] == r {
      var k :| 0 <= k < |l| && l[k] == r;
      FoundAt(l, k);
    }
  }

  // ---------------------------------------------------------------- settlement

  predicate Released(i: Intent) { i.dispatchOwner == None && i.dispatchLeaseExpiresAt == None }

  /**
   Only the record's owner settles it. A tombstone is only released; otherwise a success leaves one that
   lives for exactly the given time, an unknown outcome a record ready to be sent again under its key and
   expiry, and a definite rejection no record at all.
   */
  lemma SettleMeaning(l: seq<Intent>, n: nat, outcome: SendOutcome, owner: string, t: int, ttl: int)
    requires Distinct(l) && n < |l| <= 256
    requires l[n].state.Completed? ==> l[n].completedAt.Some?
    ensures var i := l[n]; var e := Settle(l, i.key, outcome, owner, t, ttl);
      if i.dispatchOwner != Some(owner) then e == Effect(Failure(Busy), None)
      else if outcome.BusinessRejection? && !i.state.Completed? then
        e.result == Success(()) && e.written.Some? && forall r :: r in e.written.value <==> r in l && r != i
      else
        && e.result == Success(()) && e.written.Some? && OnlyAt(l, e.written.value, n)
        && var j := e.written.value[n];
        && Released(j) && IdentityOf(j) == IdentityOf(i) && j.key == i.key && j.createdAt == i.createdAt
        && (i.state.Completed? ==> j.state == Completed && j.completedAt == i.completedAt && Some(j.updatedAt) == i.completedAt && j.expiresAt == i.expiresAt)
        && (!i.state.Completed? && outcome.SendSuccess? ==>
              j.state == Completed && j.completedAt == Some(t) && j.updatedAt == t && j.expiresAt == t + ttl)
        && (!i.state.Completed? && outcome.SendUnknown? ==>
              j.state == Ready && j.completedAt == i.completedAt && j.expiresAt == i.expiresAt && j.updatedAt == if t < i.expiresAt then t else i.expiresAt)
  {
    FoundAt(l, n);
    forall r | r in Without(l, l[n].key) ensures r in l && r != l[n] { }
    forall r | r in l && r != l[n] ensures r in Without(l, l[n].key) {
      var k :| 0 <= k < |l| && l[k] == r;
      assert k != n;
    }
  }
}
