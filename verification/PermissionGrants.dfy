/**
 Temporary grants and their consumptions: two tables, and the evaluation of one permission request in one
 transaction. Whole runs of concurrent transactions are in PermissionRuns.

 Rows are numbered in the order they are inserted; a row's number stands for its id.
 */
module PermissionGrants {
  import opened Wrappers
  import opened JsText
  import opened IntentLedger
  import opened CapabilityRegistry

  datatype GrantStatus = Active | Consumed | Revoked

  datatype Grant = Grant(
    companyId: string,
    operatorUserId: string,
    capability: string,
    scopeDigest: string,
    expiresAt: int,
    maxUses: nat,
    useCount: nat,
    status: GrantStatus
  )

  datatype Consumption = Consumption(
    companyId: string,
    operatorUserId: string,
    grantId: nat,
    key: string,
    capability: string,
    scopeDigest: string
  )

  datatype Db = Db(grants: seq<Grant>, rows: seq<Consumption>)

  datatype Profile = Profile(preset: Preset, overrides: Overrides, maxDailyExternalSends: int)

  /** `scopeDigest` is None where the scope is refused; `key` is the idempotency key as the caller gave it. */
  datatype Request = Request(
    companyId: string,
    operatorUserId: string,
    capability: string,
    scopeDigest: Option<string>,
    key: string,
    consume: bool,
    dailySends: Option<int>
  )

  datatype Reason = UnknownCapabilityReason | Replay | DailyLimit | TemporaryGrant | ProfilePolicy | NeedsApproval | PolicyDenied

  datatype Refusal = InvalidScope | InvalidKey | KeyReused | KeyRequired | UniqueViolation

  datatype Outcome = Decided(decision: Decision, reason: Reason, grantId: Option<nat>, consumptionId: Option<nat>) | Refused(refusal: Refusal)

  // ---------------------------------------------------------------- creating grants

  function Grantable(capability: string): bool {
    match GetCapability(capability)
    case None => false
    case Some(c) => c.temporaryGrantAllowed && !c.risk.L4? && !c.risk.F?
  }

  // ---------------------------------------------------------------- one transaction

  predicate SameKey(r: Consumption, companyId: string, operatorUserId: string, key: string) {
    r.companyId == companyId && r.operatorUserId == operatorUserId && r.key == key
  }

  /** The row of the unique index on company, operator and key. */
  function FindRow(rows: seq<Consumption>, companyId: string, operatorUserId: string, key: string): (n: nat)
    ensures n <= |rows| && (n < |rows| ==> SameKey(rows[n], companyId, operatorUserId, key))
    ensures forall i :: 0 <= i < n ==> !SameKey(rows[i], companyId, operatorUserId, key)
  {
    if rows == [] then 0
    else if SameKey(rows[0], companyId, operatorUserId, key) then 0
    else 1 + FindRow(rows[1..], companyId, operatorUserId, key)
  }

  /** What `findMany` asks of a grant. */
  predicate Eligible(g: Grant, q: Request, now: int) {
    && g.companyId == q.companyId && g.operatorUserId == q.operatorUserId && g.capability == q.capability
    && Some(g.scopeDigest) == q.scopeDigest && g.status.Active? && g.expiresAt > now
  }

  predicate Usable(g: Grant, q: Request, now: int) { Eligible(g, q, now) && g.useCount < g.maxUses }

  function AllowsGrants(q: Request): bool { GetCapability(q.capability).Some? && GetCapability(q.capability).value.temporaryGrantAllowed }

  function Decide(p: Profile, q: Request, grant: Option<nat>, row: Option<nat>): Outcome {
    var decision := Resolve(p.preset, q.capability, p.overrides, grant.Some?);
    var reason := match decision
                  case Allow => if grant.Some? then TemporaryGrant else ProfilePolicy
                  case ApprovalRequired => NeedsApproval
                  case Deny => PolicyDenied;
    Decided(decision, reason, grant, row)
  }

  /** A grant that a request may use: it is for this request, active, with a use left, and not expired. */
  ghost predicate Serves(g: Grant, q: Request, now: int) {
    && g.companyId == q.companyId && g.operatorUserId == q.operatorUserId && g.capability == q.capability && q.scopeDigest == Some(g.scopeDigest)
    && g.status == Active && g.useCount < g.maxUses && now < g.expiresAt
  }

  ghost predicate OpenToGrants(capability: string) {
    GetCapability(capability).Some? && GetCapability(capability).value.risk.L3?
  }

  /** One of the grants that serve the request and expire first, if its capability is open to grants; none only if none serves. */
  ghost predicate Best(grants: seq<Grant>, q: Request, now: int, grant: Option<nat>) {
    match grant
    case Some(g) =>
      && OpenToGrants(q.capability) && g < |grants| && Serves(grants[g], q, now)
      && forall i :: 0 <= i < |grants| && Serves(grants[i], q, now) ==> grants[g].expiresAt <= grants[i].expiresAt
    case None => OpenToGrants(q.capability) ==> forall i :: 0 <= i < |grants| ==> !Serves(grants[i], q, now)
  }

  lemma ChosenIsBest(db: Db, q: Request, now: int, grant: Option<nat>)
    requires Chosen(db, q, now, grant)
    ensures Best(db.grants, q, now, grant)
  {
    UsableServes(db, q, now);
    hide Usable, Serves, AllowsGrants, OpenToGrants;
  }

  lemma GrantableIffOpen(capability: string)
    ensures Grantable(capability) <==> OpenToGrants(capability)
  {
    FoundSound(capability);
    hide GetCapability;
  }

  lemma UsableServes(db: Db, q: Request, now: int)
    ensures forall i :: 0 <= i < |db.grants| ==> (Usable(db.grants[i], q, now) <==> Serves(db.grants[i], q, now))
    ensures AllowsGrants(q) <==> OpenToGrants(q.capability)
  {
    FoundSound(q.capability);
    hide GetCapability;
  }

  /** What an evaluation reads and decides before it writes: an outcome, or a grant to be spent. */
  datatype Plan = Finished(outcome: Outcome) | Spend(grantId: nat, seen: nat)

  /** The part before any grant is looked for. */
  function Preliminary(db: Db, p: Profile, q: Request): Option<Outcome> {
    var key := Trim(q.key);
    if GetCapability(q.capability).None? then Some(Decided(Deny, UnknownCapabilityReason, None, None))
    else if q.scopeDigest.None? then Some(Refused(InvalidScope))
    else if key != "" && !IsIdempotencyKey(key) then Some(Refused(InvalidKey))
    else
      var n := FindRow(db.rows, q.companyId, q.operatorUserId, key);
      if key != "" && q.consume && n < |db.rows| then
        if db.rows[n].capability != q.capability || Some(db.rows[n].scopeDigest) != q.scopeDigest then Some(Refused(KeyReused))
        else Some(Decided(Allow, Replay, Some(db.rows[n].grantId), Some(n)))
      else if q.dailySends.Some? && q.dailySends.value >= p.maxDailyExternalSends then Some(Decided(Deny, DailyLimit, None, None))
      else None
  }

  function PlanWith(db: Db, p: Profile, q: Request, grant: Option<nat>): Plan
    requires grant.Some? ==> grant.value < |db.grants|
  {
    if grant.None? || !q.consume then Finished(Decide(p, q, grant, None))
    else if Trim(q.key) == "" then Finished(Refused(KeyRequired))
    else Spend(grant.value, db.grants[grant.value].useCount)
  }

  /** The grant chosen is usable and none that is expires earlier; without one, none is usable. */
  ghost predicate Chosen(db: Db, q: Request, now: int, grant: Option<nat>) {
    match grant
    case Some(g) => AllowsGrants(q) && g < |db.grants| && Usable(db.grants[g], q, now)
                    && forall i :: 0 <= i < |db.grants| && Usable(db.grants[i], q, now) ==> db.grants[g].expiresAt <= db.grants[i].expiresAt
    case None => !AllowsGrants(q) || forall i :: 0 <= i < |db.grants| ==> !Usable(db.grants[i], q, now)
  }

  ghost predicate Plans(db: Db, p: Profile, q: Request, now: int, plan: Plan) {
    match Preliminary(db, p, q)
    case Some(outcome) => plan == Finished(outcome)
    case None => exists grant :: Chosen(db, q, now, grant) && plan == PlanWith(db, p, q, grant)
  }

  /** The grant is still as it was seen. */
  predicate Claimable(db: Db, g: nat, seen: nat, now: int) {
    g < |db.grants| && db.grants[g].status.Active? && db.grants[g].useCount == seen && db.grants[g].expiresAt > now
  }

  function Spent(g: Grant): Grant {
    g.(useCount := g.useCount + 1, status := if g.useCount + 1 >= g.maxUses then Consumed else g.status)
  }

  function RowOf(q: Request, g: nat): Consumption
    requires q.scopeDigest.Some?
  {
    Consumption(q.companyId, q.operatorUserId, g, Trim(q.key), q.capability, q.scopeDigest.value)
  }

  /** Both writes of a consumption, which take effect together. */
  function Consume(db: Db, q: Request, g: nat): Db
    requires g < |db.grants| && q.scopeDigest.Some?
  {
    Db(db.grants[g := Spent(db.grants[g])], db.rows + [RowOf(q, g)])
  }

  predicate KeyTaken(db: Db, q: Request) { FindRow(db.rows, q.companyId, q.operatorUserId, Trim(q.key)) < |db.rows| }

  // ---------------------------------------------------------------- the tables' invariant

  function Uses(rows: seq<Consumption>, g: nat): nat {
    if rows == [] then 0 else Uses(rows[..|rows| - 1], g) + if rows[|rows| - 1].grantId == g then 1 else 0
  }

  ghost predicate UniqueKeys(rows: seq<Consumption>) {
    forall i, j :: 0 <= i < j < |rows| ==> !SameKey(rows[j], rows[i].companyId, rows[i].operatorUserId, rows[i].key)
  }

  ghost predicate RowFits(r: Consumption, grants: seq<Grant>) {
    && r.grantId < |grants|
    && var g := grants[r.grantId]; r.companyId == g.companyId && r.operatorUserId == g.operatorUserId && r.capability == g.capability && r.scopeDigest == g.scopeDigest
  }

  ghost predicate GrantFits(g: Grant, uses: nat) {
    && g.useCount == uses <= g.maxUses
    && (g.status.Active? ==> uses < g.maxUses)
    && (g.status.Consumed? ==> uses == g.maxUses)
    && Grantable(g.capability)
  }

  /** Every use is accounted for by exactly one row, no grant is overspent, and no key is used twice. */
  ghost predicate DbInv(db: Db) {
    && UniqueKeys(db.rows)
    && (forall i :: 0 <= i < |db.rows| ==> RowFits(db.rows[i], db.grants))
    && (forall g :: 0 <= g < |db.grants| ==> GrantFits(db.grants[g], Uses(db.rows, g)))
  }

  lemma ConsumeKeepsInv(db: Db, q: Request, g: nat)
    requires DbInv(db) && g < |db.grants| && q.scopeDigest.Some? && db.grants[g].status.Active? && !KeyTaken(db, q)
    requires db.grants[g].companyId == q.companyId && db.grants[g].operatorUserId == q.operatorUserId
             && db.grants[g].capability == q.capability && Some(db.grants[g].scopeDigest) == q.scopeDigest
    ensures DbInv(Consume(db, q, g))
  {
    hide Grantable;
    var db' := Consume(db, q, g);
    assert db'.rows[..|db'.rows| - 1] == db.rows;
    assert forall i :: 0 <= i < |db.rows| ==> db'.rows[i] == db.rows[i];
    assert forall h :: 0 <= h < |db.grants| ==> Uses(db'.rows, h) == Uses(db.rows, h) + if h == g then 1 else 0;
    hide Uses;
    assert UniqueKeys(db'.rows) by { NewKeyUnique(db.rows, RowOf(q, g)); }
    hide UniqueKeys, SameKey;
  }

  lemma NewKeyUnique(rows: seq<Consumption>, r: Consumption)
    requires UniqueKeys(rows) && FindRow(rows, r.companyId, r.operatorUserId, r.key) == |rows|
    ensures UniqueKeys(rows + [r])
  {
  }

  // ---------------------------------------------------------------- the service over its two tables

  /** The stable sort by expiry. */
  function InsertByExpiry(grants: seq<Grant>, g: nat, ids: seq<nat>): seq<nat>
    requires g < |grants| && forall k :: 0 <= k < |ids| ==> ids[k] < |grants|
  {
    if ids == [] || grants[g].expiresAt <= grants[ids[0]].expiresAt then [g] + ids else [ids[0]] + InsertByExpiry(grants, g, ids[1..])
  }

  ghost predicate ByExpiry(grants: seq<Grant>, ids: seq<nat>) {
    && (forall k :: 0 <= k < |ids| ==> ids[k] < |grants|)
    && forall i, j :: 0 <= i < j < |ids| ==> grants[ids[i]].expiresAt <= grants[ids[j]].expiresAt
  }

  lemma {:induction false} InsertKeepsExpiry(grants: seq<Grant>, g: nat, ids: seq<nat>)
    requires g < |grants| && ByExpiry(grants, ids)
    ensures ByExpiry(grants, InsertByExpiry(grants, g, ids))
    ensures forall i :: i in InsertByExpiry(grants, g, ids) <==> i == g || i in ids
  {
    if ids != [] && grants[g].expiresAt > grants[ids[0]].expiresAt {
      InsertKeepsExpiry(grants, g, ids[1..]);
      var rest := InsertByExpiry(grants, g, ids[1..]);
      assert forall i :: i in ids <==> i == ids[0] || i in ids[1..];
      forall k | 0 <= k < |rest| ensures rest[k] < |grants| && grants[ids[0]].expiresAt <= grants[rest[k]].expiresAt {
        assert rest[k] in rest;
        if rest[k] != g { var j :| 0 <= j < |ids[1..]| && ids[1..][j] == rest[k]; }
      }
    }
  }

  class AssistantPermissions {
    var grants: seq<Grant>
    var rows: seq<Consumption>

    constructor ()
      ensures State() == Db([], []) && DbInv(State())
    {
      grants, rows := [], [];
    }

    function State(): Db
      reads this
    {
      Db(grants, rows)
    }

    /** A grant that starts with no use; only capabilities open to grants get one. */
    method CreateTemporaryGrant(companyId: string, operatorUserId: string, capability: string, scopeDigest: string, expiresAt: int, maxUses: nat)
      returns (id: Option<nat>)
      requires DbInv(State()) && maxUses >= 1
      modifies `grants
      ensures DbInv(State())
      ensures if OpenToGrants(capability)
              then id == Some(|old(grants)|) && grants == old(grants) + [Grant(companyId, operatorUserId, capability, scopeDigest, expiresAt, maxUses, 0, Active)]
              else id == None && grants == old(grants)
    {
      GrantableIffOpen(capability);
      if !Grantable(capability) { return None; }
      hide Grantable;
      NoUsesYet(rows, |grants|);
      hide Uses, UniqueKeys;
      grants := grants + [Grant(companyId, operatorUserId, capability, scopeDigest, expiresAt, maxUses, 0, Active)];
      return Some(|grants| - 1);
    }

    method RevokeTemporaryGrant(id: nat)
      requires DbInv(State()) && id < |grants|
      modifies `grants
      ensures DbInv(State())
      ensures grants == old(grants)[id := old(grants)[id].(status := if old(grants)[id].status.Active? then Revoked else old(grants)[id].status)]
    {
      hide Uses, UniqueKeys, Grantable;
      if grants[id].status != Active { return; }
      grants := grants[id := grants[id].(status := Revoked)];
    }

    /**
     The query: eligible grants by expiry, the first ten, and of these the first with a use left. While the
     tables agree, the limit of ten never hides a usable grant.
     */
    method FindGrant(q: Request, now: int) returns (grant: Option<nat>)
      requires DbInv(State())
      ensures Chosen(State(), q, now, grant)
      ensures Best(grants, q, now, grant)
    {
      grant := FirstUsable(q, now);
      ChosenIsBest(State(), q, now, grant);
    }

    /** The query and the search through what it gives. */
    method FirstUsable(q: Request, now: int) returns (grant: Option<nat>)
      requires DbInv(State())
      ensures Chosen(State(), q, now, grant)
    {
      hide Uses, UniqueKeys, Grantable, RowFits;
      if !AllowsGrants(q) { return None; }
      hide AllowsGrants;
      var ids: seq<nat> := [];
      for n := 0 to |grants|
        invariant ByExpiry(grants, ids)
        invariant forall i :: i in ids <==> 0 <= i < n && Eligible(grants[i], q, now)
      {
        if Eligible(grants[n], q, now) {
          InsertKeepsExpiry(grants, n, ids);
          ids := InsertByExpiry(grants, n, ids);
        }
      }
      var first := if |ids| <= 10 then ids else ids[..10];
      for k := 0 to |first|
        invariant forall i :: 0 <= i < k ==> !Usable(grants[ids[i]], q, now)
      {
        assert first[k] in ids;
        if grants[first[k]].useCount < grants[first[k]].maxUses {
          EarliestIsFirst(State(), q, now, ids, k, first[k]);
          return Some(first[k]);
        }
      }
      NoneUsable(State(), q, now, ids, |first|);
      return None;
    }

    /** One evaluation that runs alone: read, decide, and consume if a grant is to be spent. */
    method Evaluate(p: Profile, q: Request, now: int) returns (outcome: Outcome)
      requires DbInv(State())
      modifies this
      ensures DbInv(State())
      ensures exists plan :: Plans(old(State()), p, q, now, plan) &&
                match plan
                case Finished(o) => outcome == o && State() == old(State())
                case Spend(g, _) => q.scopeDigest.Some? && g < |old(grants)| && State() == Consume(old(State()), q, g) && DecidedBy(p, q, Some(g), Some(|old(rows)|), outcome)
    {
      hide DbInv, Decide, DecidedBy, Chosen;
      var early := Preliminary(State(), p, q);
      if early.Some? {
        assert Plans(State(), p, q, now, Finished(early.value));
        return early.value;
      }
      var grant := FindGrant(q, now);
      ChosenIs(State(), q, now, grant);
      var plan := PlanWith(State(), p, q, grant);
      assert Plans(State(), p, q, now, plan);
      if plan.Finished? { return plan.outcome; }
      NothingTaken(State(), p, q);
      ConsumeKeepsInv(State(), q, grant.value);
      outcome := Decide(p, q, grant, Some(|rows|));
      DecideMeaning(p, q, grant, Some(|rows|));
      grants, rows := grants[grant.value := Spent(grants[grant.value])], rows + [RowOf(q, grant.value)];
    }
  }

  lemma {:induction false} NoUsesYet(rows: seq<Consumption>, g: nat)
    requires forall i :: 0 <= i < |rows| ==> rows[i].grantId < g
    ensures Uses(rows, g) == 0
  {
    if rows != [] { NoUsesYet(rows[..|rows| - 1], g); }
  }

  /** An active grant has a use left, so the first eligible one is usable. */
  lemma EligibleIsUsable(db: Db, q: Request, now: int)
    requires DbInv(db)
    ensures forall i :: 0 <= i < |db.grants| && Eligible(db.grants[i], q, now) ==> Usable(db.grants[i], q, now)
  {
    hide Uses, UniqueKeys, Grantable, RowFits;
  }

  lemma NoneUsable(db: Db, q: Request, now: int, ids: seq<nat>, tried: nat)
    requires DbInv(db) && tried <= |ids| && (ids != [] ==> tried > 0)
    requires forall i :: i in ids <==> 0 <= i < |db.grants| && Eligible(db.grants[i], q, now)
    requires forall k :: 0 <= k < tried ==> ids[k] < |db.grants| && !Usable(db.grants[ids[k]], q, now)
    ensures forall i :: 0 <= i < |db.grants| ==> !Usable(db.grants[i], q, now)
  {
    hide DbInv, Eligible, Usable;
    assert ids != [] ==> ids[0] in ids;
    UsableIsEligible(db, q, now);
    EligibleIsUsable(db, q, now);
  }

  lemma UsableIsEligible(db: Db, q: Request, now: int)
    ensures forall i :: 0 <= i < |db.grants| && Usable(db.grants[i], q, now) ==> Eligible(db.grants[i], q, now)
  {
  }

  lemma EarliestIsFirst(db: Db, q: Request, now: int, ids: seq<nat>, k: nat, g: nat)
    requires DbInv(db) && ByExpiry(db.grants, ids) && k < |ids| && ids[k] == g
    requires forall i :: i in ids <==> 0 <= i < |db.grants| && Eligible(db.grants[i], q, now)
    requires forall i :: 0 <= i < k ==> !Usable(db.grants[ids[i]], q, now)
    ensures forall i :: 0 <= i < |db.grants| && Usable(db.grants[i], q, now) ==> db.grants[g].expiresAt <= db.grants[i].expiresAt
  {
    hide Uses, UniqueKeys, Grantable, RowFits, DbInv;
    forall i | 0 <= i < |db.grants| && Usable(db.grants[i], q, now)
      ensures db.grants[g].expiresAt <= db.grants[i].expiresAt
    {
      assert i in ids;
      var j :| 0 <= j < |ids| && ids[j] == i;
    }
  }

  lemma ChosenIs(db: Db, q: Request, now: int, grant: Option<nat>)
    requires Chosen(db, q, now, grant)
    ensures grant.Some? ==> grant.value < |db.grants| && Usable(db.grants[grant.value], q, now)
  {
  }

  lemma NothingTaken(db: Db, p: Profile, q: Request)
    requires Preliminary(db, p, q).None? && Trim(q.key) != "" && q.consume
    ensures q.scopeDigest.Some? && !KeyTaken(db, q)
  {
  }

  // ---------------------------------------------------------------- what an evaluation means

  ghost predicate HasRow(db: Db, q: Request, key: string, n: nat) {
    n < |db.rows| && db.rows[n].companyId == q.companyId && db.rows[n].operatorUserId == q.operatorUserId && db.rows[n].key == key
  }

  /** A request that names a known capability and a scope, with a canonical key or none. */
  ghost predicate ValidRequest(q: Request) {
    GetCapability(q.capability).Some? && q.scopeDigest.Some? && (Trim(q.key) == "" || IsIdempotencyKey(Trim(q.key)))
  }

  /** A request that may spend a use under a key spent before. */
  ghost predicate Replays(db: Db, q: Request) { q.consume && Trim(q.key) != "" && exists n: nat :: HasRow(db, q, Trim(q.key), n) }

  ghost predicate OverDailyLimit(p: Profile, q: Request) { q.dailySends.Some? && q.dailySends.value >= p.maxDailyExternalSends }

  /** An invalid request is refused, an unknown capability denied, and neither writes. */
  lemma InvalidRefused(db: Db, p: Profile, q: Request, now: int, plan: Plan)
    requires Plans(db, p, q, now, plan) && !ValidRequest(q)
    ensures plan == Finished(if GetCapability(q.capability).None? then Decided(Deny, UnknownCapabilityReason, None, None)
                             else if q.scopeDigest.None? then Refused(InvalidScope) else Refused(InvalidKey))
  {
    hide GetCapability, IsIdempotencyKey, Trim, Chosen;
  }

  /** A key spent before is allowed again for the same capability and scope, without a write, and refused for any other. */
  lemma ReplayAllowed(db: Db, p: Profile, q: Request, now: int, plan: Plan, n: nat)
    requires DbInv(db) && Plans(db, p, q, now, plan) && ValidRequest(q) && q.consume && Trim(q.key) != "" && HasRow(db, q, Trim(q.key), n)
    ensures plan == Finished(if db.rows[n].capability == q.capability && q.scopeDigest == Some(db.rows[n].scopeDigest)
                             then Decided(Allow, Replay, Some(db.rows[n].grantId), Some(n)) else Refused(KeyReused))
  {
    var k := FindRow(db.rows, q.companyId, q.operatorUserId, Trim(q.key));
    assert k == n by { hide Uses, Grantable, RowFits, GrantFits; }
    hide GetCapability, IsIdempotencyKey, Trim, Chosen, DbInv;
  }

  /** At the daily limit a valid request that is no replay is denied without a write. */
  lemma DailyLimitDenies(db: Db, p: Profile, q: Request, now: int, plan: Plan)
    requires Plans(db, p, q, now, plan) && ValidRequest(q) && !Replays(db, q) && OverDailyLimit(p, q)
    ensures plan == Finished(Decided(Deny, DailyLimit, None, None))
  {
    if q.consume && Trim(q.key) != "" { NotReplayed(db, q); }
    hide GetCapability, IsIdempotencyKey, Trim, Chosen, FindRow, Replays;
  }

  lemma NotReplayed(db: Db, q: Request)
    requires !Replays(db, q) && q.consume && Trim(q.key) != ""
    ensures FindRow(db.rows, q.companyId, q.operatorUserId, Trim(q.key)) == |db.rows|
  {
    var k := FindRow(db.rows, q.companyId, q.operatorUserId, Trim(q.key));
    if k < |db.rows| { assert HasRow(db, q, Trim(q.key), k); }
  }

  /** The decision by policy, with a grant or without one. */
  ghost predicate DecidedBy(p: Profile, q: Request, grant: Option<nat>, row: Option<nat>, o: Outcome) {
    && o.Decided? && o.decision == Resolve(p.preset, q.capability, p.overrides, grant.Some?) && o.grantId == grant && o.consumptionId == row
    && o.reason == match o.decision
                   case Allow => if grant.Some? then TemporaryGrant else ProfilePolicy
                   case ApprovalRequired => NeedsApproval
                   case Deny => PolicyDenied
  }

  lemma DecideMeaning(p: Profile, q: Request, grant: Option<nat>, row: Option<nat>)
    ensures DecidedBy(p, q, grant, row, Decide(p, q, grant, row))
  {
    hide Resolve;
  }

  /**
   Every other valid request is decided by policy: without a grant, and without a write, if none serves it,
   and else by one of those that expire first, which a request that consumes spends, under its key.
   */
  lemma PolicyDecides(db: Db, p: Profile, q: Request, now: int, plan: Plan)
    requires Plans(db, p, q, now, plan) && ValidRequest(q) && !Replays(db, q) && !OverDailyLimit(p, q)
    ensures exists grant :: Best(db.grants, q, now, grant) && PlansBy(db, p, q, grant, plan)
  {
    if q.consume && Trim(q.key) != "" { NotReplayed(db, q); }
    hide GetCapability, IsIdempotencyKey, Trim, FindRow, Resolve, Chosen, Best, Replays;
    var grant :| Chosen(db, q, now, grant) && plan == PlanWith(db, p, q, grant);
    GrantFound(db, q, now, grant);
    assert PlansBy(db, p, q, grant, plan);
  }

  lemma GrantFound(db: Db, q: Request, now: int, grant: Option<nat>)
    requires Chosen(db, q, now, grant)
    ensures Best(db.grants, q, now, grant) && (grant.Some? ==> grant.value < |db.grants|)
  {
    ChosenIsBest(db, q, now, grant);
    hide Usable, AllowsGrants;
  }

  /** Without a grant, or for a request that does not consume, the decision; otherwise the grant is to be spent. */
  ghost predicate PlansBy(db: Db, p: Profile, q: Request, grant: Option<nat>, plan: Plan) {
    if grant.None? || !q.consume then plan.Finished? && DecidedBy(p, q, grant, None, plan.outcome)
    else if Trim(q.key) == "" then plan == Finished(Refused(KeyRequired))
    else grant.value < |db.grants| && plan == Spend(grant.value, db.grants[grant.value].useCount)
  }

  /** What spending writes: one more use of the grant, which at its limit is used up, and one row for it; nothing else. */
  lemma ConsumeMeaning(db: Db, q: Request, g: nat)
    requires g < |db.grants| && q.scopeDigest.Some?
    ensures var after := Consume(db, q, g);
      && |after.grants| == |db.grants| && (forall i :: 0 <= i < |db.grants| && i != g ==> after.grants[i] == db.grants[i])
      && var (old', new') := (db.grants[g], after.grants[g]);
      && new'.useCount == old'.useCount + 1
      && new'.status == (if old'.useCount + 1 < old'.maxUses then old'.status else Consumed)
      && new' == Grant(old'.companyId, old'.operatorUserId, old'.capability, old'.scopeDigest, old'.expiresAt, old'.maxUses, new'.useCount, new'.status)
      && |after.rows| == |db.rows| + 1 && after.rows[..|db.rows|] == db.rows
      && after.rows[|db.rows|] == Consumption(q.companyId, q.operatorUserId, g, Trim(q.key), q.capability, q.scopeDigest.value)
  {
    hide Trim;
  }
}
