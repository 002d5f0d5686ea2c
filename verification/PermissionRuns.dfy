/**
 Whole runs of permission requests: any number of evaluations, each a transaction that reads a snapshot and
 commits later or is rolled back and tried again, between creations, revocations and profile changes.

 A commit is atomic; of isolation nothing more is assumed: other transactions may commit between a
 transaction's reads and its writes. The clock never goes back.
 */
module PermissionRuns {
  import opened Wrappers
  import opened JsText
  import opened IntentLedger
  import opened CapabilityRegistry
  import opened PermissionGrants

  datatype Phase =
    | Planned(q: Request, profile: Profile, grantId: nat, seen: nat)  // has read, will spend a use
    | Raced(q: Request)                                               // rolled back: its key was taken
    | Ended(q: Request, outcome: Outcome)

  /** What the profile asked for when a use was spent, and what was decided. */
  datatype First = First(requested: Decision, decision: Decision)

  datatype State = State(now: int, db: Db, profiles: map<string, Profile>, evals: map<nat, Phase>, first: seq<First>)

  ghost predicate Init(s: State) {
    s.db == Db([], []) && s.evals == map[] && s.first == []
  }

  /** A company without a stored profile is advised only, fifty sends a day. */
  function ProfileOf(s: State, companyId: string): Profile {
    if companyId in s.profiles then s.profiles[companyId] else Profile(Advisory, map[], 50)
  }

  function To(s: State, e: nat, p: Phase): State { s.(evals := s.evals[e := p]) }

  // ---------------------------------------------------------------- steps

  ghost predicate StepBegin(s: State, s': State, e: nat, q: Request, plan: Plan) {
    && e !in s.evals && Plans(s.db, ProfileOf(s, q.companyId), q, s.now, plan)
    && s' == To(s, e, match plan
                      case Finished(outcome) => Ended(q, outcome)
                      case Spend(g, seen) => Planned(q, ProfileOf(s, q.companyId), g, seen))
  }

  function RequestedOf(p: Profile, q: Request): Decision {
    match GetCapability(q.capability)
    case Some(c) => Requested(c, p.preset, p.overrides)
    case None => Deny
  }

  /** The conditional update and the insertion, or neither: a taken key rolls both back. */
  ghost predicate StepCommit(s: State, s': State, e: nat) {
    && e in s.evals && s.evals[e].Planned?
    && var Planned(q, p, g, seen) := s.evals[e];
    && q.scopeDigest.Some?
    && if !Claimable(s.db, g, seen, s.now) then s' == To(s, e, Ended(q, Decide(p, q, None, None)))
       else if KeyTaken(s.db, q) then s' == To(s, e, Raced(q))
       else
         var outcome := Decide(p, q, Some(g), Some(|s.db.rows|));
         s' == To(s, e, Ended(q, outcome)).(db := Consume(s.db, q, g), first := s.first + [First(RequestedOf(p, q), outcome.decision)])
  }

  /** A write conflict or a crash; the caller may begin again. */
  ghost predicate StepAbort(s: State, s': State, e: nat) {
    && e in s.evals && s.evals[e].Planned?
    && s' == s.(evals := s.evals - {e})
  }

  /** After a lost race the row is looked up by the key as the caller gave it, untrimmed. */
  ghost predicate StepReplay(s: State, s': State, e: nat) {
    && e in s.evals && s.evals[e].Raced?
    && var q := s.evals[e].q;
    && s' == To(s, e, Ended(q, RaceOutcome(s.db, q)))
  }

  function RaceOutcome(db: Db, q: Request): Outcome {
    var n := FindRow(db.rows, q.companyId, q.operatorUserId, q.key);
    if q.key != "" && n < |db.rows| && db.rows[n].capability == q.capability && Some(db.rows[n].scopeDigest) == q.scopeDigest
    then Decided(Allow, Replay, Some(db.rows[n].grantId), Some(n))
    else Refused(UniqueViolation)
  }

  ghost predicate StepCreate(s: State, s': State, g: Grant) {
    && Grantable(g.capability) && g.useCount == 0 < g.maxUses && g.status.Active?
    && s' == s.(db := s.db.(grants := s.db.grants + [g]))
  }

  /** A revocation may come late: the grant may have been consumed since it was found active. */
  ghost predicate StepRevoke(s: State, s': State, g: nat) {
    && g < |s.db.grants|
    && s' == s.(db := s.db.(grants := s.db.grants[g := s.db.grants[g].(status := Revoked)]))
  }

  ghost predicate StepProfile(s: State, s': State, companyId: string, p: Profile) {
    s' == s.(profiles := s.profiles[companyId := p])
  }

  ghost predicate StepTick(s: State, s': State, ms: nat) { s' == s.(now := s.now + ms) }

  ghost predicate Next(s: State, s': State) {
    || (exists e, q, plan :: StepBegin(s, s', e, q, plan))
    || (exists e :: StepCommit(s, s', e))
    || (exists e :: StepAbort(s, s', e))
    || (exists e :: StepReplay(s, s', e))
    || (exists g :: StepCreate(s, s', g))
    || (exists g :: StepRevoke(s, s', g))
    || (exists c, p :: StepProfile(s, s', c, p))
    || (exists ms :: StepTick(s, s', ms))
  }

  ghost predicate IsRun(run: seq<State>) {
    && run != [] && Init(run[0])
    && forall i :: 0 <= i < |run| - 1 ==> Next(run[i], run[i + 1])
  }

  // ---------------------------------------------------------------- the invariant

  ghost predicate FitsGrant(q: Request, g: Grant) {
    q.companyId == g.companyId && q.operatorUserId == g.operatorUserId && q.capability == g.capability && q.scopeDigest == Some(g.scopeDigest)
  }

  ghost predicate FitsRow(q: Request, r: Consumption) {
    SameKey(r, q.companyId, q.operatorUserId, Trim(q.key)) && r.capability == q.capability && q.scopeDigest == Some(r.scopeDigest)
  }

  ghost predicate OutcomeInv(q: Request, o: Outcome, rows: seq<Consumption>, first: seq<First>) {
    o.Decided? ==>
      && (o.decision.Allow? ==> !Critical(q.capability))
      && (o.reason.Replay? ==> o.decision.Allow? && o.consumptionId.Some?)
      && (o.consumptionId.Some? ==>
            o.consumptionId.value < |rows| && FitsRow(q, rows[o.consumptionId.value]) && o.grantId == Some(rows[o.consumptionId.value].grantId)
            && (!o.reason.Replay? ==> o.consumptionId.value < |first| && o.decision == first[o.consumptionId.value].decision))
  }

  ghost predicate PhaseInv(p: Phase, db: Db, first: seq<First>) {
    match p
    case Planned(q, _, g, _) => g < |db.grants| && FitsGrant(q, db.grants[g]) && IsIdempotencyKey(Trim(q.key))
    case Raced(q) => IsIdempotencyKey(Trim(q.key))
    case Ended(q, o) => OutcomeInv(q, o, db.rows, first)
  }

  ghost predicate FirstInv(f: First) { f.decision.Allow? <==> !f.requested.Deny? }

  ghost predicate Inv(s: State) {
    && DbInv(s.db)
    && (forall i :: 0 <= i < |s.db.rows| ==> IsIdempotencyKey(s.db.rows[i].key))
    && |s.first| == |s.db.rows|
    && (forall i :: 0 <= i < |s.first| ==> FirstInv(s.first[i]) && (s.first[i].requested.Deny? ==> s.first[i].decision.Deny?))
    && (forall e :: e in s.evals ==> PhaseInv(s.evals[e], s.db, s.first))
  }

  /** Rows are never changed or deleted, grants only spent or revoked. */
  ghost predicate Grows(s: State, s': State) {
    && |s.db.grants| <= |s'.db.grants| && s.db.rows <= s'.db.rows && s.first <= s'.first && s.now <= s'.now
    && forall g :: 0 <= g < |s.db.grants| ==>
         && s'.db.grants[g].(status := s.db.grants[g].status, useCount := s.db.grants[g].useCount) == s.db.grants[g]
         && (!s.db.grants[g].status.Active? ==> !s'.db.grants[g].status.Active? && s'.db.grants[g].useCount == s.db.grants[g].useCount)
         && s.db.grants[g].useCount <= s'.db.grants[g].useCount
  }

  lemma PhaseKept(p: Phase, s: State, s': State)
    requires PhaseInv(p, s.db, s.first) && Grows(s, s')
    ensures PhaseInv(p, s'.db, s'.first)
  {
    hide IsIdempotencyKey, Critical, FitsRow;
  }

  lemma EvalsKept(s: State, s': State)
    requires Grows(s, s') && forall e :: e in s.evals ==> PhaseInv(s.evals[e], s.db, s.first)
    ensures forall e :: e in s.evals ==> PhaseInv(s.evals[e], s'.db, s'.first)
  {
    hide PhaseInv, Grows;
    forall e | e in s.evals ensures PhaseInv(s.evals[e], s'.db, s'.first) { PhaseKept(s.evals[e], s, s'); }
  }

  // ---------------------------------------------------------------- every step keeps the invariant

  /** A decision by policy allows nothing critical. */
  lemma DecideInv(p: Profile, q: Request, grant: Option<nat>, row: Option<nat>)
    ensures var o := Decide(p, q, grant, row); (o.decision.Allow? ==> !Critical(q.capability)) && !o.reason.Replay?
  {
    if Critical(q.capability) { NeverAllowsCritical(p.preset, q.capability, p.overrides, grant.Some?); }
    hide Critical, Resolve;
  }

  lemma GrantableNotCritical(capability: string)
    requires Grantable(capability)
    ensures !Critical(capability)
  {
    hide GetCapability;
  }

  /** A row in the tables: its capability is open to grants. */
  lemma RowNotCritical(db: Db, n: nat)
    requires DbInv(db) && n < |db.rows|
    ensures !Critical(db.rows[n].capability)
  {
    hide Grantable, Critical, Uses, UniqueKeys;
    assert RowFits(db.rows[n], db.grants);
    assert GrantFits(db.grants[db.rows[n].grantId], Uses(db.rows, db.rows[n].grantId));
    GrantableNotCritical(db.rows[n].capability);
  }

  lemma PlannedInv(db: Db, p: Profile, q: Request, now: int, plan: Plan, first: seq<First>)
    requires DbInv(db) && Plans(db, p, q, now, plan) && |first| == |db.rows|
    ensures match plan
            case Finished(outcome) => OutcomeInv(q, outcome, db.rows, first)
            case Spend(g, seen) => PhaseInv(Planned(q, p, g, seen), db, first)
  {
    var early := Preliminary(db, p, q);
    if early.Some? {
      var n := FindRow(db.rows, q.companyId, q.operatorUserId, Trim(q.key));
      if n < |db.rows| { RowNotCritical(db, n); }
      hide DbInv, Critical, IsIdempotencyKey, Chosen, GetCapability;
    } else {
      var grant :| Chosen(db, q, now, grant) && plan == PlanWith(db, p, q, grant);
      DecideInv(p, q, grant, None);
      ChosenIs(db, q, now, grant);
      hide DbInv, Critical, IsIdempotencyKey, Chosen, GetCapability, Decide, FindRow;
    }
  }

  lemma BeginStep(s: State, s': State, e: nat, q: Request, plan: Plan)
    requires Inv(s) && StepBegin(s, s', e, q, plan)
    ensures Inv(s') && Grows(s, s')
  {
    PlannedInv(s.db, ProfileOf(s, q.companyId), q, s.now, plan, s.first);
    hide Plans, PhaseInv, OutcomeInv, DbInv, IsIdempotencyKey, FirstInv, ProfileOf;
    assert PhaseInv(s'.evals[e], s.db, s.first) by { FinishedPhase(q, plan, ProfileOf(s, q.companyId), s.db, s.first); }
  }

  lemma FinishedPhase(q: Request, plan: Plan, p: Profile, db: Db, first: seq<First>)
    requires match plan
             case Finished(outcome) => OutcomeInv(q, outcome, db.rows, first)
             case Spend(g, seen) => PhaseInv(Planned(q, p, g, seen), db, first)
    ensures PhaseInv(match plan case Finished(outcome) => Ended(q, outcome) case Spend(g, seen) => Planned(q, p, g, seen), db, first)
  {
  }

  /** The decision recorded with a spent use follows what the profile asked for. */
  lemma SpentDecision(p: Profile, q: Request, g: nat, row: nat)
    requires Grantable(q.capability)
    ensures var f := First(RequestedOf(p, q), Decide(p, q, Some(g), Some(row)).decision);
      FirstInv(f) && (f.requested.Deny? ==> f.decision.Deny?)
  {
    FoundSound(q.capability);
    hide GetCapability;
  }

  lemma SpendStep(s: State, s': State, e: nat)
    requires Inv(s) && StepCommit(s, s', e)
    requires var Planned(q, p, g, seen) := s.evals[e]; Claimable(s.db, g, seen, s.now) && !KeyTaken(s.db, q)
    ensures Inv(s') && Grows(s, s')
  {
    var Planned(q, p, g, seen) := s.evals[e];
    var outcome := Decide(p, q, Some(g), Some(|s.db.rows|));
    var f := First(RequestedOf(p, q), outcome.decision);
    assert PhaseInv(s.evals[e], s.db, s.first);
    assert GrantFits(s.db.grants[g], Uses(s.db.rows, g));
    ConsumeKeepsInv(s.db, q, g);
    SpentDecision(p, q, g, |s.db.rows|);
    hide DbInv, Decide, IsIdempotencyKey, Critical, Grantable, RequestedOf, FirstInv, Resolve;
    ConsumeGrows(s, s', g, q, f);
    hide Grows, Spent, FitsGrant;
    EvalsKept(s, s');
    assert s'.db.rows[|s.db.rows|] == RowOf(q, g) && s'.first[|s.db.rows|] == f;
    DecideInv(p, q, Some(g), Some(|s.db.rows|));
    SpentOutcome(p, q, g, |s.db.rows|);
    assert OutcomeInv(q, outcome, s'.db.rows, s'.first);
    EndedPhase(q, outcome, s'.db, s'.first);
    hide PhaseInv, OutcomeInv;
  }

  lemma ConsumeGrows(s: State, s': State, g: nat, q: Request, f: First)
    requires DbInv(s.db) && g < |s.db.grants| && q.scopeDigest.Some? && s.db.grants[g].status.Active?
    requires s'.db == Consume(s.db, q, g) && s'.first == s.first + [f] && s'.now == s.now
    ensures Grows(s, s')
  {
    hide DbInv;
  }

  lemma SpentOutcome(p: Profile, q: Request, g: nat, row: nat)
    ensures var o := Decide(p, q, Some(g), Some(row)); o.Decided? && o.consumptionId == Some(row) && o.grantId == Some(g)
  {
  }

  lemma EndedPhase(q: Request, o: Outcome, db: Db, first: seq<First>)
    requires OutcomeInv(q, o, db.rows, first)
    ensures PhaseInv(Ended(q, o), db, first)
  {
  }

  /** A commit that finds the grant changed, or its key taken, writes nothing. */
  lemma NoSpendStep(s: State, s': State, e: nat)
    requires Inv(s) && StepCommit(s, s', e)
    requires var Planned(q, p, g, seen) := s.evals[e]; !Claimable(s.db, g, seen, s.now) || KeyTaken(s.db, q)
    ensures Inv(s') && Grows(s, s')
  {
    var Planned(q, p, g, seen) := s.evals[e];
    assert PhaseInv(s.evals[e], s.db, s.first);
    DecideInv(p, q, None, None);
    hide DbInv, IsIdempotencyKey, Critical, FirstInv, Resolve;
    assert PhaseInv(s'.evals[e], s.db, s.first);
    hide PhaseInv;
  }

  lemma CanonicalKeyTrimmed(key: string)
    requires IsIdempotencyKey(key)
    ensures Trim(key) == key && key != ""
  {
    assert key[|key| - 1] != ' ';
    assert forall i :: 0 <= i < |key| ==> IsKeyChar(key[i]);
    KeyCharNotSpace(key[0]);
    KeyCharNotSpace(key[|key| - 1]);
    hide IsSpace, IsKeyChar;
    TrimKeeps(key);
  }

  lemma KeyCharNotSpace(c: char)
    requires IsKeyChar(c)
    ensures !IsSpace(c)
  {
  }

  lemma ReplayStep(s: State, s': State, e: nat)
    requires Inv(s) && StepReplay(s, s', e)
    ensures Inv(s') && Grows(s, s')
  {
    var q := s.evals[e].q;
    var n := FindRow(s.db.rows, q.companyId, q.operatorUserId, q.key);
    if n < |s.db.rows| {
      RowNotCritical(s.db, n);
      CanonicalKeyTrimmed(q.key) by { assert s.db.rows[n].key == q.key; }
    }
    hide DbInv, IsIdempotencyKey, Critical, FirstInv;
    assert OutcomeInv(q, RaceOutcome(s.db, q), s.db.rows, s.first);
    assert PhaseInv(s'.evals[e], s.db, s.first);
    hide PhaseInv;
  }

  lemma CreateKeepsDb(db: Db, g: Grant)
    requires DbInv(db) && Grantable(g.capability) && g.useCount == 0 < g.maxUses && g.status.Active?
    ensures DbInv(db.(grants := db.grants + [g]))
  {
    hide Grantable, UniqueKeys;
    NoUsesYet(db.rows, |db.grants|) by { assert forall i :: 0 <= i < |db.rows| ==> RowFits(db.rows[i], db.grants); }
    hide Uses;
  }

  lemma RevokeKeepsDb(db: Db, g: nat)
    requires DbInv(db) && g < |db.grants|
    ensures DbInv(db.(grants := db.grants[g := db.grants[g].(status := Revoked)]))
  {
    hide Grantable, UniqueKeys, Uses;
  }

  lemma CreateStep(s: State, s': State, g: Grant)
    requires Inv(s) && StepCreate(s, s', g)
    ensures Inv(s') && Grows(s, s')
  {
    CreateKeepsDb(s.db, g);
    hide DbInv, IsIdempotencyKey, FirstInv, PhaseInv, Grantable;
    assert Grows(s, s');
    EvalsKept(s, s');
    hide Grows;
  }

  lemma RevokeStep(s: State, s': State, g: nat)
    requires Inv(s) && StepRevoke(s, s', g)
    ensures Inv(s') && Grows(s, s')
  {
    RevokeKeepsDb(s.db, g);
    hide DbInv, IsIdempotencyKey, FirstInv, PhaseInv;
    assert Grows(s, s');
    EvalsKept(s, s');
    hide Grows;
  }

  lemma OtherSteps(s: State, s': State)
    requires Inv(s)
    requires (exists c, p :: StepProfile(s, s', c, p)) || (exists ms :: StepTick(s, s', ms)) || (exists e :: StepAbort(s, s', e))
    ensures Inv(s') && Grows(s, s')
  {
    hide DbInv, IsIdempotencyKey, FirstInv, PhaseInv;
    assert s'.db == s.db && s'.first == s.first && s.now <= s'.now && forall e :: e in s'.evals ==> e in s.evals && s'.evals[e] == s.evals[e];
  }

  lemma NextKeepsInv(s: State, s': State)
    requires Inv(s) && Next(s, s')
    ensures Inv(s') && Grows(s, s')
  {
    hide Inv, Grows, StepBegin, StepAbort, StepReplay, StepCreate, StepRevoke, StepProfile, StepTick, Claimable, KeyTaken, Decide, Consume, RequestedOf, ProfileOf;
    if e, q, plan :| StepBegin(s, s', e, q, plan) {
      BeginStep(s, s', e, q, plan);
    } else if e :| StepCommit(s, s', e) {
      if Claimable(s.db, s.evals[e].grantId, s.evals[e].seen, s.now) && !KeyTaken(s.db, s.evals[e].q) { SpendStep(s, s', e); } else { NoSpendStep(s, s', e); }
    } else if e :| StepReplay(s, s', e) {
      ReplayStep(s, s', e);
    } else if g :| StepCreate(s, s', g) {
      CreateStep(s, s', g);
    } else if g :| StepRevoke(s, s', g) {
      RevokeStep(s, s', g);
    } else {
      OtherSteps(s, s');
    }
  }

  lemma {:induction false} RunKeepsInv(run: seq<State>, n: nat)
    requires IsRun(run) && n < |run|
    ensures Inv(run[n])
  {
    hide Next;
    if n > 0 {
      hide Inv;
      RunKeepsInv(run, n - 1);
      assert Next(run[n - 1], run[n - 1 + 1]);
      NextKeepsInv(run[n - 1], run[n]);
    }
  }

  lemma {:induction false} RunGrows(run: seq<State>, m: nat, n: nat)
    requires IsRun(run) && m <= n < |run|
    ensures Grows(run[m], run[n])
  {
    hide Next, Inv, Init;
    if m < n {
      RunGrows(run, m, n - 1);
      RunKeepsInv(run, n - 1);
      assert Next(run[n - 1], run[n - 1 + 1]);
      NextKeepsInv(run[n - 1], run[n]);
    }
  }

  // ---------------------------------------------------------------- the properties of whole runs

  /** Every grant's use count is the number of its consumption rows, and never more than its limit. */
  lemma UsesAccounted(run: seq<State>, n: nat, g: nat)
    requires IsRun(run) && n < |run| && g < |run[n].db.grants|
    ensures var db := run[n].db; db.grants[g].useCount == Uses(db.rows, g) <= db.grants[g].maxUses
  {
    RunKeepsInv(run, n);
    hide IsRun;
    assert GrantFits(run[n].db.grants[g], Uses(run[n].db.rows, g));
  }

  /** One idempotency key of an operator consumes at most once. */
  lemma KeyConsumesOnce(run: seq<State>, n: nat, i: nat, j: nat)
    requires IsRun(run) && n < |run| && i < |run[n].db.rows| && j < |run[n].db.rows|
    requires var a, b := run[n].db.rows[i], run[n].db.rows[j]; a.companyId == b.companyId && a.operatorUserId == b.operatorUserId && a.key == b.key
    ensures i == j
  {
    RunKeepsInv(run, n);
    hide IsRun;
    assert UniqueKeys(run[n].db.rows);
  }

  /** Neither a fresh nor a replayed evaluation ever allows a capability of risk L4 or F. */
  lemma CriticalNeverAllowed(run: seq<State>, n: nat, e: nat)
    requires IsRun(run) && n < |run| && e in run[n].evals && run[n].evals[e].Ended?
    requires Critical(run[n].evals[e].q.capability)
    ensures var o := run[n].evals[e].outcome; o.Decided? ==> !o.decision.Allow?
  {
    RunKeepsInv(run, n);
    hide IsRun, DbInv, Critical;
    assert PhaseInv(run[n].evals[e], run[n].db, run[n].first);
  }

  /** A grant revoked or used up is never spent again. */
  lemma InactiveNeverSpent(run: seq<State>, m: nat, n: nat, g: nat)
    requires IsRun(run) && m <= n < |run| && g < |run[m].db.grants| && !run[m].db.grants[g].status.Active?
    ensures g < |run[n].db.grants| && !run[n].db.grants[g].status.Active? && Uses(run[n].db.rows, g) == Uses(run[m].db.rows, g)
  {
    RunGrows(run, m, n);
    UsesAccounted(run, m, g);
    UsesAccounted(run, n, g);
    hide IsRun, Uses;
  }

  /** From its revocation on, whatever evaluations had found it before, a grant gains no row. */
  lemma RevokedNeverSpent(run: seq<State>, m: nat, n: nat, g: nat)
    requires IsRun(run) && m + 1 <= n < |run| && StepRevoke(run[m], run[m + 1], g)
    ensures g < |run[n].db.grants| && !run[n].db.grants[g].status.Active? && Uses(run[n].db.rows, g) == Uses(run[m].db.rows, g)
  {
    hide IsRun, Uses;
    InactiveNeverSpent(run, m + 1, n, g);
  }

  /** A grant that is no longer as the evaluation saw it is not spent: the request is decided without it. */
  lemma StaleGrantNotSpent(s: State, s': State, e: nat)
    requires StepCommit(s, s', e) && s.evals[e].grantId < |s.db.grants|
    requires var g := s.db.grants[s.evals[e].grantId]; g.status != Active || g.useCount != s.evals[e].seen || g.expiresAt <= s.now
    ensures s'.db == s.db && e in s'.evals && s'.evals[e].Ended?
    ensures DecidedBy(s.evals[e].profile, s.evals[e].q, None, None, s'.evals[e].outcome)
  {
    DecideMeaning(s.evals[e].profile, s.evals[e].q, None, None);
    hide Resolve, KeyTaken, Consume;
  }

  /**
   A replay is of the one row of its key, and always allows. It agrees with what was decided when the use
   was spent exactly if the profile then did not ask to deny.
   */
  lemma ReplayAgreesIff(run: seq<State>, n: nat, e: nat)
    requires IsRun(run) && n < |run| && e in run[n].evals && run[n].evals[e].Ended?
    requires run[n].evals[e].outcome.Decided? && run[n].evals[e].outcome.reason.Replay?
    ensures var s, q, o := run[n], run[n].evals[e].q, run[n].evals[e].outcome;
      && o.consumptionId.Some? && o.consumptionId.value < |s.db.rows| && FitsRow(q, s.db.rows[o.consumptionId.value])
      && o.consumptionId.value < |s.first|
      && (o.decision == s.first[o.consumptionId.value].decision <==> !s.first[o.consumptionId.value].requested.Deny?)
  {
    RunKeepsInv(run, n);
    hide IsRun, DbInv, Critical;
    var s, o := run[n], run[n].evals[e].outcome;
    assert PhaseInv(s.evals[e], s.db, s.first);
    assert FirstInv(s.first[o.consumptionId.value]);
  }

  /** An evaluation that lost the race for its key finds the winner's row exactly if its key was given trimmed. */
  lemma RaceReplaysIff(s: State, q: Request, n: nat)
    requires Inv(s) && n < |s.db.rows| && FitsRow(q, s.db.rows[n])
    ensures RaceOutcome(s.db, q) == Decided(Allow, Replay, Some(s.db.rows[n].grantId), Some(n)) <==> q.key == Trim(q.key)
    ensures q.key != Trim(q.key) ==> RaceOutcome(s.db, q) == Refused(UniqueViolation)
  {
    var k := FindRow(s.db.rows, q.companyId, q.operatorUserId, q.key);
    CanonicalKeyTrimmed(Trim(q.key)) by { assert s.db.rows[n].key == Trim(q.key); }
    if k < |s.db.rows| {
      CanonicalKeyTrimmed(q.key) by { assert s.db.rows[k].key == q.key; }
      SameRow(s.db.rows, k, n);
    }
  }

  lemma SameRow(rows: seq<Consumption>, i: nat, j: nat)
    requires UniqueKeys(rows) && i < |rows| && j < |rows| && SameKey(rows[i], rows[j].companyId, rows[j].operatorUserId, rows[j].key)
    ensures i == j
  {
  }

  /** A row is only ever added for a grant that at that moment is active, unexpired and has a use left, and it spends one. */
  lemma RowSpendsLiveGrant(run: seq<State>, n: nat)
    requires IsRun(run) && n + 1 < |run| && |run[n].db.rows| < |run[n + 1].db.rows|
    ensures var s, s' := run[n], run[n + 1];
      && |s'.db.rows| == |s.db.rows| + 1
      && var r := s'.db.rows[|s.db.rows|];
      && r.grantId < |s.db.grants| == |s'.db.grants|
      && var g := s.db.grants[r.grantId];
      && g.status == Active && s.now < g.expiresAt && g.useCount < g.maxUses && s'.db.grants[r.grantId].useCount == g.useCount + 1
      && g.companyId == r.companyId && g.operatorUserId == r.operatorUserId && g.capability == r.capability && g.scopeDigest == r.scopeDigest
  {
    var s, s' := run[n], run[n + 1];
    RunKeepsInv(run, n);
    RunKeepsInv(run, n + 1);
    assert Next(s, s');
    hide IsRun, Inv, StepBegin;
    if e :| StepCommit(s, s', e) { SpendIsLive(s, s', e); }
  }

  lemma SpendIsLive(s: State, s': State, e: nat)
    requires Inv(s) && StepCommit(s, s', e) && |s.db.rows| < |s'.db.rows|
    ensures |s'.db.rows| == |s.db.rows| + 1
    ensures var r := s'.db.rows[|s.db.rows|];
      && r.grantId < |s.db.grants| == |s'.db.grants|
      && var g := s.db.grants[r.grantId];
      && g.status == Active && s.now < g.expiresAt && g.useCount < g.maxUses && s'.db.grants[r.grantId].useCount == g.useCount + 1
      && g.companyId == r.companyId && g.operatorUserId == r.operatorUserId && g.capability == r.capability && g.scopeDigest == r.scopeDigest
  {
    var Planned(q, p, g, seen) := s.evals[e];
    assert PhaseInv(s.evals[e], s.db, s.first) && GrantFits(s.db.grants[g], Uses(s.db.rows, g));
    hide Inv, DbInv, Uses, Trim, IsIdempotencyKey, Grantable, Decide;
  }

  /** A request at the daily limit that is valid and no replay ends denied, and writes nothing. */
  lemma DailyLimitEndsDenied(s: State, s': State, e: nat, q: Request, plan: Plan)
    requires StepBegin(s, s', e, q, plan) && ValidRequest(q) && !Replays(s.db, q)
    requires q.dailySends.Some? && q.dailySends.value >= ProfileOf(s, q.companyId).maxDailyExternalSends
    ensures s'.db == s.db && e in s'.evals && s'.evals[e] == Ended(q, Decided(Deny, DailyLimit, None, None))
  {
    DailyLimitDenies(s.db, ProfileOf(s, q.companyId), q, s.now, plan);
    hide Plans, ValidRequest, Replays;
  }

  // ---------------------------------------------------------------- a denial that is replayed as permission

  ghost predicate Reachable(s: State) { exists run :: IsRun(run) && run[|run| - 1] == s }

  lemma OneStep(s: State, s': State)
    requires Reachable(s) && Next(s, s')
    ensures Reachable(s')
  {
    hide Next, Init;
    var run :| IsRun(run) && run[|run| - 1] == s;
    var longer := run + [s'];
    assert forall i :: 0 <= i < |run| ==> longer[i] == run[i];
    assert forall i :: 0 <= i < |longer| - 1 ==> Next(longer[i], longer[i + 1]);
    assert IsRun(longer);
  }

  /** A request for a capability open to grants, which the profile denies and one grant covers. */
  ghost predicate DeniedButGranted(p: Profile, q: Request, g: Grant) {
    && AllowsGrants(q) && Grantable(q.capability) && RequestedOf(p, q).Deny?
    && Usable(g, q, 0) && FitsGrant(q, g) && g.useCount == 0 && q.consume && q.dailySends.None? && IsIdempotencyKey(q.key)
  }

  lemma SpendsThough(s: State, s': State, p: Profile, q: Request, g: Grant)
    requires DeniedButGranted(p, q, g) && s == State(0, Db([g], []), map[q.companyId := p], map[], [])
    requires s' == To(s, 0, Planned(q, p, 0, 0))
    ensures StepBegin(s, s', 0, q, Spend(0, 0))
  {
    CanonicalKeyTrimmed(q.key);
    hide IsIdempotencyKey, Trim, GetCapability, RequestedOf;
    assert Preliminary(s.db, p, q).None?;
    assert Chosen(s.db, q, 0, Some(0));
    assert PlanWith(s.db, p, q, Some(0)) == Spend(0, 0);
  }

  lemma DeniesThough(s: State, s': State, p: Profile, q: Request, g: Grant)
    requires DeniedButGranted(p, q, g) && s == State(0, Db([g], []), map[q.companyId := p], map[0 := Planned(q, p, 0, 0)], [])
    requires s' == To(s, 0, Ended(q, Decided(Deny, PolicyDenied, Some(0), Some(0)))).(db := Consume(s.db, q, 0), first := [First(Deny, Deny)])
    ensures StepCommit(s, s', 0)
  {
    FoundSound(q.capability);
    hide IsIdempotencyKey, Trim, GetCapability, Consume;
    assert !KeyTaken(s.db, q);
    assert Decide(p, q, Some(0), Some(0)) == Decided(Deny, PolicyDenied, Some(0), Some(0));
  }

  lemma ReplaysThough(s: State, s': State, p: Profile, q: Request, g: Grant)
    requires DeniedButGranted(p, q, g) && s.db.rows == [RowOf(q, 0)] && 1 !in s.evals
    requires s' == To(s, 1, Ended(q, Decided(Allow, Replay, Some(0), Some(0))))
    ensures StepBegin(s, s', 1, q, Finished(Decided(Allow, Replay, Some(0), Some(0))))
  {
    CanonicalKeyTrimmed(q.key);
    hide IsIdempotencyKey, Trim, GetCapability;
    var n := FindRow(s.db.rows, q.companyId, q.operatorUserId, Trim(q.key));
    assert n == 0;
    assert Preliminary(s.db, ProfileOf(s, q.companyId), q) == Some(Decided(Allow, Replay, Some(0), Some(0)));
  }

  /** The use is spent before the profile is asked: a denied request, repeated with its key, is allowed. */
  lemma DenialReplaysAsPermission() returns (s: State)
    ensures Reachable(s) && 0 in s.evals && 1 in s.evals && s.evals[0].Ended? && s.evals[1].Ended? && s.evals[0].q == s.evals[1].q
    ensures s.evals[0].outcome == Decided(Deny, PolicyDenied, Some(0), Some(0))
    ensures s.evals[1].outcome == Decided(Allow, Replay, Some(0), Some(0))
  {
    var id := "crm.email.send";
    EmailSend();
    var p := Profile(Supervisor, map[id := Deny], 50);
    var g := Grant("c", "o", id, "d", 100, 2, 0, Active);
    var q := Request("c", "o", id, Some("d"), "key-0001", true, None);
    assert DeniedButGranted(p, q, g) by { assert IsIdempotencyKey(q.key); hide IsIdempotencyKey; }
    hide DeniedButGranted, IsIdempotencyKey, Trim, GetCapability, Consume, StepBegin, StepCommit, Reachable;
    s := DeniedThenAllowed(p, q, g);
  }

  lemma DeniedFacts(p: Profile, q: Request, g: Grant)
    requires DeniedButGranted(p, q, g)
    ensures q.scopeDigest.Some? && Grantable(g.capability) && g.useCount == 0 < g.maxUses && g.status.Active?
  {
    hide Grantable, IsIdempotencyKey, AllowsGrants, RequestedOf;
  }

  lemma DeniedThenAllowed(p: Profile, q: Request, g: Grant) returns (s: State)
    requires DeniedButGranted(p, q, g)
    ensures Reachable(s) && s.evals == map[0 := Ended(q, Decided(Deny, PolicyDenied, Some(0), Some(0))), 1 := Ended(q, Decided(Allow, Replay, Some(0), Some(0)))]
  {
    DeniedFacts(p, q, g);
    hide DeniedButGranted, Reachable, StepBegin, StepCommit, Spent, Grantable;
    var s0 := State(0, Db([], []), map[q.companyId := p], map[], []);
    var s1 := s0.(db := Db([g], []));
    var s2 := s1.(evals := map[0 := Planned(q, p, 0, 0)]);
    assert s2.evals == s1.evals[0 := Planned(q, p, 0, 0)];
    var s3 := State(0, Consume(s2.db, q, 0), s2.profiles, map[0 := Ended(q, Decided(Deny, PolicyDenied, Some(0), Some(0)))], [First(Deny, Deny)]);
    assert s3.evals == s2.evals[0 := Ended(q, Decided(Deny, PolicyDenied, Some(0), Some(0)))];
    s := To(s3, 1, Ended(q, Decided(Allow, Replay, Some(0), Some(0))));
    assert s3.db.rows == [RowOf(q, 0)];
    FirstStates(s0, s1, g) by { assert s1.db.grants == s0.db.grants + [g]; }
    hide Consume;
    SpendsThough(s1, s2, p, q, g);
    DeniesThough(s2, s3, p, q, g);
    ReplaysThough(s3, s, p, q, g);
    ThreeSteps(s1, s2, s3, s, q);
  }

  lemma ThreeSteps(s1: State, s2: State, s3: State, s4: State, q: Request)
    requires Reachable(s1) && StepBegin(s1, s2, 0, q, Spend(0, 0)) && StepCommit(s2, s3, 0)
    requires StepBegin(s3, s4, 1, q, Finished(Decided(Allow, Replay, Some(0), Some(0))))
    ensures Reachable(s4)
  {
    hide Reachable, StepBegin, StepCommit;
    assert Next(s1, s2) && Next(s2, s3) && Next(s3, s4);
    hide Next;
    OneStep(s1, s2);
    OneStep(s2, s3);
    OneStep(s3, s4);
  }

  lemma FirstStates(s0: State, s1: State, g: Grant)
    requires Init(s0) && StepCreate(s0, s1, g)
    ensures Reachable(s1)
  {
    assert IsRun([s0]) && [s0][|[s0]| - 1] == s0;
    assert Reachable(s0);
    hide StepCreate, Reachable, IsRun;
    assert Next(s0, s1);
    OneStep(s0, s1);
  }

  // ---------------------------------------------------------------- a lost race that is not replayed

  /** A request with blanks around its key, for a capability open to grants, which two grants cover. */
  ghost predicate RacedTwice(q: Request, g: Grant, h: Grant) {
    && AllowsGrants(q) && Grantable(q.capability) && q.consume && q.dailySends.None?
    && q.key != Trim(q.key) && IsIdempotencyKey(Trim(q.key))
    && Usable(g, q, 0) && FitsGrant(q, g) && g.useCount == 0
    && Usable(h, q, 0) && FitsGrant(q, h) && h.useCount == 0 && h.expiresAt < g.expiresAt
  }

  lemma RacerPlans(s: State, s': State, e: nat, q: Request, i: nat)
    requires AllowsGrants(q) && q.consume && q.dailySends.None? && IsIdempotencyKey(Trim(q.key)) && q.scopeDigest.Some?
    requires s.db.rows == [] && e !in s.evals && Chosen(s.db, q, s.now, Some(i)) && i < |s.db.grants|
    requires s' == To(s, e, Planned(q, ProfileOf(s, q.companyId), i, s.db.grants[i].useCount))
    ensures StepBegin(s, s', e, q, Spend(i, s.db.grants[i].useCount))
  {
    CanonicalKeyTrimmed(Trim(q.key));
    hide IsIdempotencyKey, Trim, GetCapability, Chosen;
    var p := ProfileOf(s, q.companyId);
    assert Preliminary(s.db, p, q).None?;
    assert PlanWith(s.db, p, q, Some(i)) == Spend(i, s.db.grants[i].useCount);
  }

  /** Both evaluations of one request have planned, each with a grant of its own. */
  function BothPlanned(q: Request, g: Grant, h: Grant): State {
    var p := Profile(Advisory, map[], 50);
    State(0, Db([g, h], []), map[], map[0 := Planned(q, p, 0, 0), 1 := Planned(q, p, 1, 0)], [])
  }

  lemma ReachBothPlanned(q: Request, g: Grant, h: Grant)
    requires RacedTwice(q, g, h)
    ensures Reachable(BothPlanned(q, g, h))
  {
    var p := Profile(Advisory, map[], 50);
    var s0 := State(0, Db([], []), map[], map[], []);
    var s1 := s0.(db := Db([g], []));
    var s2 := s1.(evals := map[0 := Planned(q, p, 0, 0)]);
    var s3 := s2.(db := Db([g, h], []));
    var s4 := BothPlanned(q, g, h);
    assert Chosen(s1.db, q, 0, Some(0)) && Chosen(s3.db, q, 0, Some(1)) by { hide AllowsGrants, Grantable, IsIdempotencyKey, Trim; }
    hide AllowsGrants, Grantable, IsIdempotencyKey, Trim, Chosen, Reachable, StepBegin;
    assert s1.db.grants == s0.db.grants + [g] && s3.db.grants == s2.db.grants + [h];
    FirstStates(s0, s1, g);
    assert s2.evals == s1.evals[0 := Planned(q, p, 0, 0)] && s4.evals == s3.evals[1 := Planned(q, p, 1, 0)];
    RacerPlans(s1, s2, 0, q, 0);
    OneStep(s1, s2);
    assert StepCreate(s2, s3, h);
    OneStep(s2, s3);
    RacerPlans(s3, s4, 1, q, 1);
    OneStep(s3, s4);
  }

  /** The one has spent the first grant and taken the key; the other is still to commit. */
  function FirstCommitted(q: Request, g: Grant, h: Grant): State
    requires q.scopeDigest.Some?
  {
    var p := Profile(Advisory, map[], 50);
    var outcome := Decide(p, q, Some(0), Some(0));
    State(0, Db([Spent(g), h], [RowOf(q, 0)]), map[], map[0 := Ended(q, outcome), 1 := Planned(q, p, 1, 0)], [First(RequestedOf(p, q), outcome.decision)])
  }

  lemma WinnerCommits(q: Request, g: Grant, h: Grant)
    requires RacedTwice(q, g, h)
    ensures q.scopeDigest.Some? && StepCommit(BothPlanned(q, g, h), FirstCommitted(q, g, h), 0)
  {
    hide Trim, IsIdempotencyKey, AllowsGrants, Grantable, Decide, RequestedOf, Spent;
    var s, s' := BothPlanned(q, g, h), FirstCommitted(q, g, h);
    assert s.db.grants[0 := Spent(g)] == s'.db.grants && s.db.rows + [RowOf(q, 0)] == s'.db.rows;
    assert s.evals[0 := s'.evals[0]] == s'.evals;
    assert s.first + [s'.first[0]] == s'.first;
  }

  lemma LoserRollsBack(q: Request, g: Grant, h: Grant, s: State, s': State)
    requires RacedTwice(q, g, h) && s == FirstCommitted(q, g, h) && s' == To(s, 1, Raced(q))
    ensures StepCommit(s, s', 1)
  {
    hide Trim, IsIdempotencyKey, AllowsGrants, Grantable, Decide, RequestedOf, Spent;
    assert s.db.grants[1] == h;
    assert SameKey(s.db.rows[0], q.companyId, q.operatorUserId, Trim(q.key));
  }

  lemma RaceLost(q: Request, g: Grant, h: Grant)
    requires RacedTwice(q, g, h)
    ensures q.scopeDigest.Some? && Reachable(To(FirstCommitted(q, g, h), 1, Raced(q)))
  {
    ReachBothPlanned(q, g, h);
    WinnerCommits(q, g, h);
    LoserRollsBack(q, g, h, FirstCommitted(q, g, h), To(FirstCommitted(q, g, h), 1, Raced(q)));
    hide RacedTwice, StepCommit, Reachable, BothPlanned, FirstCommitted;
    CommitReaches(BothPlanned(q, g, h), FirstCommitted(q, g, h), 0);
    CommitReaches(FirstCommitted(q, g, h), To(FirstCommitted(q, g, h), 1, Raced(q)), 1);
  }

  lemma LoserLooksUp(s: State, s': State, q: Request)
    requires q.scopeDigest.Some? && q.key != Trim(q.key) && s.db.rows == [RowOf(q, 0)] && 1 in s.evals && s.evals[1] == Raced(q)
    requires s' == To(s, 1, Ended(q, Refused(UniqueViolation)))
    ensures StepReplay(s, s', 1)
  {
    hide Trim;
    assert FindRow(s.db.rows, q.companyId, q.operatorUserId, q.key) == 1;
  }

  lemma ReplayReaches(s: State, s': State, e: nat)
    requires Reachable(s) && StepReplay(s, s', e)
    ensures Reachable(s')
  {
    hide Reachable, StepReplay, StepBegin, StepCommit, StepAbort, StepCreate, StepRevoke, StepProfile, StepTick;
    assert Next(s, s');
    OneStep(s, s');
  }

  lemma CommitReaches(s: State, s': State, e: nat)
    requires Reachable(s) && StepCommit(s, s', e)
    ensures Reachable(s')
  {
    hide Reachable, StepReplay, StepBegin, StepCommit, StepAbort, StepCreate, StepRevoke, StepProfile, StepTick;
    assert Next(s, s');
    OneStep(s, s');
  }

  lemma DecidesAlways(p: Profile, q: Request, g: Option<nat>, row: Option<nat>)
    ensures Decide(p, q, g, row).Decided? && Decide(p, q, g, row).consumptionId == row
  {
    hide Resolve;
  }

  lemma RacedFacts(q: Request, g: Grant, h: Grant)
    requires RacedTwice(q, g, h)
    ensures q.scopeDigest.Some? && q.key != Trim(q.key)
  {
    hide Trim, IsIdempotencyKey, AllowsGrants, Grantable;
  }

  lemma LoserThrows(q: Request, g: Grant, h: Grant)
    requires RacedTwice(q, g, h)
    ensures q.scopeDigest.Some? && Reachable(To(To(FirstCommitted(q, g, h), 1, Raced(q)), 1, Ended(q, Refused(UniqueViolation))))
  {
    RacedFacts(q, g, h);
    hide RacedTwice, Reachable, StepReplay, Decide, RequestedOf, Spent, RowOf, Trim;
    RaceLost(q, g, h);
    var t := To(FirstCommitted(q, g, h), 1, Raced(q));
    var s := To(t, 1, Ended(q, Refused(UniqueViolation)));
    LoserLooksUp(t, s, q);
    hide FirstCommitted;
    ReplayReaches(t, s, 1);
  }

  /**
   A reachable state in which a request with a blank before its key was decided once, and thrown back the
   second time: the lost race is looked up by the key with its blank, and stored rows have none.
   */
  lemma BlankKeyLosesRace(key: string) returns (s: State)
    requires IsIdempotencyKey(key)
    ensures Reachable(s) && s.evals.Keys == {0, 1} && s.evals[0].Ended? && s.evals[1].Ended?
    ensures s.evals[0].q == s.evals[1].q && s.evals[0].q.key == " " + key
    ensures s.evals[0].outcome.Decided? && s.evals[0].outcome.consumptionId == Some(0)
    ensures s.evals[1].outcome == Refused(UniqueViolation)
  {
    var id := "crm.email.send";
    EmailSend();
    var g := Grant("c", "o", id, "d", 100, 2, 0, Active);
    var h := Grant("c", "o", id, "d", 50, 2, 0, Active);
    var q := Request("c", "o", id, Some("d"), " " + key, true, None);
    BlankTrimmed(key);
    assert |q.key| == |key| + 1;
    assert RacedTwice(q, g, h) by { hide IsIdempotencyKey, Trim; }
    DecidesAlways(Profile(Advisory, map[], 50), q, Some(0), Some(0));
    hide RacedTwice, IsIdempotencyKey, Trim, GetCapability, Reachable, Decide, RequestedOf;
    LoserThrows(q, g, h);
    s := To(To(FirstCommitted(q, g, h), 1, Raced(q)), 1, Ended(q, Refused(UniqueViolation)));
  }

  lemma BlankTrimmed(key: string)
    requires IsIdempotencyKey(key)
    ensures Trim(" " + key) == key
  {
    CanonicalKeyTrimmed(key);
    hide IsIdempotencyKey;
    assert (" " + key)[1..] == key;
  }
}
