/**
 Who prepares a file under which claim. A run that inserts its file while no other run of this desktop is
 between its claim and its file keeps its handle, once its own claim confirms the proposal.
 */
module QuoteClaims {
  import opened Wrappers
  import opened QuoteHandles
  import opened QuoteProtocol

  /** The server granted this run the token, to its confirmation or to its probe. */
  ghost predicate GrantedTo(s: State, r: nat, token: string) {
    exists e: int :: (Confirm(r), Granted(token, e)) in s.answers || (Probe(r), Granted(token, e)) in s.answers
  }

  /** No token is granted twice. */
  ghost predicate TokensOnce(s: State) {
    forall a, b :: a in s.answers && b in s.answers && a.1.Granted? && b.1.Granted? && a.1.token == b.1.token ==> a == b
  }

  ghost predicate GrantsHeld(s: State) {
    && (forall r :: r in s.claims ==> GrantedTo(s, r, s.claims[r]))
    && (forall r :: r in s.runs && s.runs[r].Claimed? ==> GrantedTo(s, r, s.runs[r].token))
    && (forall q :: q in s.wire && q.Release? ==> GrantedTo(s, q.run, q.token))
  }

  /** A grant that a run has yet to take up holds the claim, or its lease has run out. */
  ghost predicate GrantsOpen(s: State) {
    forall a :: a in s.answers && a.0.Confirm? && a.1.Granted? && In(s, a.0.run, AwaitConfirm) ==>
      a.1.expiresAt <= s.now || s.server == InProgress(a.1.token, a.1.expiresAt)
  }

  ghost predicate ClaimsInv(s: State) {
    TokensOnce(s) && GrantsHeld(s) && GrantsOpen(s) && forall q :: q in s.wire ==> q.run in s.runs
  }

  lemma OneGrantee(s: State, r: nat, r': nat, token: string)
    requires TokensOnce(s) && GrantedTo(s, r, token) && GrantedTo(s, r', token)
    ensures r == r'
  {
  }

  lemma MoreGranted(s: State, s': State)
    requires s.answers <= s'.answers
    ensures forall r, token :: GrantedTo(s, r, token) ==> GrantedTo(s', r, token)
  {
    forall r, token | GrantedTo(s, r, token) ensures GrantedTo(s', r, token) {
      var e: int :| (Confirm(r), Granted(token, e)) in s.answers || (Probe(r), Granted(token, e)) in s.answers;
      assert (Confirm(r), Granted(token, e)) in s'.answers || (Probe(r), Granted(token, e)) in s'.answers;
    }
  }

  /** The run waits for a claim, and has been granted this one, which has not run out. */
  ghost predicate TakesUp(s: State, r: nat, token: string) {
    In(s, r, AwaitConfirm) && exists e: int :: s.now < e && (Confirm(r), Granted(token, e)) in s.answers
  }

  lemma TakenUpGranted(s: State, r: nat, token: string)
    requires TakesUp(s, r, token)
    ensures GrantedTo(s, r, token)
  {
  }

  lemma TakenUpCurrent(s: State, r: nat, token: string)
    requires GrantsOpen(s) && TakesUp(s, r, token)
    ensures Current(s, token)
  {
    var e: int :| s.now < e && (Confirm(r), Granted(token, e)) in s.answers;
    assert s.server == InProgress(token, e);
  }

  /** A run moves on and may send a request or insert its file; the server does nothing. */
  ghost predicate Moves(s: State, s': State, r: nat) {
    && s'.now == s.now && s'.server == s.server && s'.issued == s.issued && s'.answers == s.answers && r in s'.runs
    && s'.runs == s.runs[r := s'.runs[r]] && s.wire <= s'.wire
    && (forall q :: q in s'.wire && q !in s.wire ==> q.run == r && (q.Release? ==> GrantedTo(s, r, q.token)))
    && (s'.runs[r].AwaitConfirm? ==> r !in s.runs)
    && (s'.runs[r].Claimed? ==> TakesUp(s, r, s'.runs[r].token))
    && ((s'.last == s.last && s'.handles == s.handles) || (r in s.runs && s.runs[r].Claimed?))
    && (forall q :: q in s'.claims ==> (q in s.claims && s'.claims[q] == s.claims[q]) || (q == r && GrantedTo(s, r, s'.claims[r])))
  }

  lemma MoveKeeps(p: Proposal, s: State, s': State, r: nat)
    requires Inv(p, s) && ClaimsInv(s) && Moves(s, s', r)
    ensures ClaimsInv(s')
  {
    hide PhasesInv, DeadInv, KeptInv, TableInv, SuccessInv;
    assert forall a :: a in s.answers ==> a.0 in s.wire;
    hide TokensInv;
    MoreGranted(s, s');
    if s'.runs[r].Claimed? { TakenUpGranted(s, r, s'.runs[r].token); }
    hide GrantedTo, TakesUp;
    assert GrantsOpen(s') by {
      forall a | a in s'.answers && a.0.Confirm? && a.1.Granted? && In(s', a.0.run, AwaitConfirm)
        ensures a.1.expiresAt <= s'.now || s'.server == InProgress(a.1.token, a.1.expiresAt)
      {
        assert a.0.run in s.runs;
        assert In(s, a.0.run, AwaitConfirm);
      }
    }
    hide GrantsOpen;
  }

  lemma Plain(s: State, s': State, r: nat)
    requires || StepStart(s, s', r) || StepGiveUp(s, s', r)
             || (exists token :: StepCompletionFails(s, s', r, token))
             || (exists token :: StepReleaseFails(s, s', r, token))
    ensures Moves(s, s', r)
  {
    hide GrantedTo;
  }

  lemma RecoverMoves(p: Proposal, s: State, s': State, r: nat, q: Query, present: set<string>)
    requires StepRecover(p, s, s', r, q, present)
    ensures Moves(s, s', r)
  {
    hide GrantedTo, Pruned, MatchIds;
  }

  lemma EndMoves(p: Proposal, s: State, s': State, r: nat, token: string)
    requires StepSucceed(p, s, s', r, token) || StepDiscard(s, s', r, token)
    ensures Moves(s, s', r)
  {
    hide GrantedTo;
  }

  lemma ClaimMoves(p: Proposal, s: State, s': State, r: nat, token: string, expiresAt: int)
    requires StepClaim(p, s, s', r, token, expiresAt)
    ensures Moves(s, s', r)
  {
    assert GrantedTo(s, r, token);
    if s.now < expiresAt { assert TakesUp(s, r, token); }
    hide GrantedTo, TakesUp;
  }

  lemma AdoptMoves(p: Proposal, s: State, s': State, r: nat, token: string, probed: string, expiresAt: int)
    requires StepAdopt(p, s, s', r, token, probed, expiresAt)
    ensures Moves(s, s', r)
  {
    assert GrantedTo(s, r, probed);
    hide GrantedTo;
  }

  /** Until its claim ends, a run holds the token it was granted. */
  lemma HeldMoves(p: Proposal, s: State, s': State, r: nat, token: string)
    requires PhasesInv(s) && GrantsHeld(s) && (StepAbort(s, s', r, token) || StepProbeFails(s, s', r, token))
    ensures Moves(s, s', r)
  {
    assert s.runs[r].AwaitProbe? ==> r in s.claims && s.claims[r] == token;
    hide GrantedTo, PhasesInv;
  }

  lemma PrepareMoves(p: Proposal, s: State, s': State, r: nat, token: string, f: PreparedFile)
    requires GrantsHeld(s) && StepPrepare(p, s, s', r, token, f)
    ensures Moves(s, s', r)
  {
    hide GrantedTo, Inserted;
  }

  lemma RunStepMoves(p: Proposal, s: State, s': State, r: nat)
    requires Inv(p, s) && ClaimsInv(s) && RunStep(p, s, s', r)
    ensures Moves(s, s', r)
  {
    assert PhasesInv(s) && GrantsHeld(s);
    hide Inv, ClaimsInv, GrantsHeld, PhasesInv, Moves, StepStart, StepRecover, StepClaim, StepGiveUp, StepAbort, StepPrepare, StepSucceed, StepCompletionFails, StepAdopt, StepProbeFails, StepDiscard, StepReleaseFails;
    if token, expiresAt :| StepClaim(p, s, s', r, token, expiresAt) {
      ClaimMoves(p, s, s', r, token, expiresAt);
    } else if q, present :| StepRecover(p, s, s', r, q, present) {
      RecoverMoves(p, s, s', r, q, present);
    } else if token :| StepAbort(s, s', r, token) || StepProbeFails(s, s', r, token) {
      HeldMoves(p, s, s', r, token);
    } else if token, f :| StepPrepare(p, s, s', r, token, f) {
      PrepareMoves(p, s, s', r, token, f);
    } else if token, probed, expiresAt :| StepAdopt(p, s, s', r, token, probed, expiresAt) {
      AdoptMoves(p, s, s', r, token, probed, expiresAt);
    } else if token :| StepSucceed(p, s, s', r, token) || StepDiscard(s, s', r, token) {
      EndMoves(p, s, s', r, token);
    } else {
      Plain(s, s', r);
    }
  }

  lemma RunStepKeeps(p: Proposal, s: State, s': State, r: nat)
    requires Inv(p, s) && ClaimsInv(s) && RunStep(p, s, s', r)
    ensures ClaimsInv(s')
  {
    hide Inv, ClaimsInv, RunStep;
    RunStepMoves(p, s, s', r);
    MoveKeeps(p, s, s', r);
  }

  // ---------------------------------------------------------------- the server

  /** The server answers requests it has; it changes hands only where the claim is free, or by the run that holds it. */
  lemma AnswerKeeps(p: Proposal, s: State, s': State)
    requires Inv(p, s) && ClaimsInv(s) && TokensOnce(s') && GrantsOpen(s')
    requires s' == s.(server := s'.server, issued := s'.issued, foreign := s'.foreign, answers := s'.answers) && s.answers <= s'.answers
    ensures ClaimsInv(s')
  {
    MoreGranted(s, s');
    hide GrantedTo, TokensOnce, GrantsOpen, Inv;
  }

  lemma GrantOnce(s: State, s': State, q: Request, token: string, lease: nat)
    requires TokensOnce(s) && GrantsOpen(s) && StepGrant(s, s', q, token, lease)
    requires forall a :: a in s.answers && a.1.Granted? ==> a.1.token != token
    ensures TokensOnce(s') && GrantsOpen(s')
  {
  }

  lemma GrantKeeps(p: Proposal, s: State, s': State, q: Request, token: string, lease: nat)
    requires Inv(p, s) && ClaimsInv(s) && StepGrant(s, s', q, token, lease)
    ensures ClaimsInv(s')
  {
    assert forall a :: a in s.answers && a.1.Granted? ==> a.1.token != token;
    hide Inv, TokensOnce, GrantsHeld, GrantsOpen;
    GrantOnce(s, s', q, token, lease);
    AnswerKeeps(p, s, s');
  }

  /** Only the run that was granted the claim completes or releases it, and it is past its confirmation. */
  lemma EnderHolds(p: Proposal, s: State, s': State, q: Request)
    requires PhasesInv(s) && GrantsHeld(s) && (StepComplete(s, s', q) || StepRelease(s, s', q))
    ensures GrantedTo(s, q.run, s.server.token) && !In(s, q.run, AwaitConfirm)
  {
    hide GrantedTo;
    if q.Complete? { assert q.run in s.handles; }
  }

  lemma EndLeavesOpen(s: State, s': State, q: Request)
    requires TokensOnce(s) && GrantsOpen(s) && (StepComplete(s, s', q) || StepRelease(s, s', q))
    requires GrantedTo(s, q.run, s.server.token) && !In(s, q.run, AwaitConfirm)
    ensures GrantsOpen(s')
  {
    forall a | a in s.answers && a.0.Confirm? && a.1.Granted? && In(s, a.0.run, AwaitConfirm) ensures a.1.expiresAt <= s.now {
      assert GrantedTo(s, a.0.run, a.1.token);
      if a.1.token == s.server.token { OneGrantee(s, q.run, a.0.run, a.1.token); }
    }
    hide TokensOnce, GrantedTo;
  }

  lemma NoNewGrant(s: State, s': State)
    requires TokensOnce(s) && forall a :: a in s'.answers && a.1.Granted? ==> a in s.answers
    ensures TokensOnce(s')
  {
  }

  lemma EndKeeps(p: Proposal, s: State, s': State, q: Request)
    requires Inv(p, s) && ClaimsInv(s) && (StepComplete(s, s', q) || StepRelease(s, s', q))
    ensures ClaimsInv(s')
  {
    EnderHolds(p, s, s', q);
    hide Inv, TokensOnce, GrantsHeld, GrantsOpen;
    EndLeavesOpen(s, s', q);
    NoNewGrant(s, s');
    AnswerKeeps(p, s, s');
  }

  lemma ServerStepKeeps(p: Proposal, s: State, s': State)
    requires Inv(p, s) && ClaimsInv(s) && ServerStep(s, s')
    ensures ClaimsInv(s')
  {
    hide Inv, ClaimsInv, StepGrant, StepComplete, StepTell, StepRelease, StepForeign;
    if q, token, lease :| StepGrant(s, s', q, token, lease) {
      GrantKeeps(p, s, s', q, token, lease);
    } else if q :| StepComplete(s, s', q) || StepRelease(s, s', q) {
      EndKeeps(p, s, s', q);
    } else if q :| StepTell(s, s', q) {
      TellKeeps(p, s, s', q);
    } else {
      var token, lease :| StepForeign(s, s', token, lease);
      ForeignKeeps(p, s, s', token, lease);
    }
  }

  lemma TellKeeps(p: Proposal, s: State, s': State, q: Request)
    requires Inv(p, s) && ClaimsInv(s) && StepTell(s, s', q)
    ensures ClaimsInv(s')
  {
    hide Inv, GrantsHeld;
    AnswerKeeps(p, s, s');
  }

  lemma ForeignKeeps(p: Proposal, s: State, s': State, token: string, lease: nat)
    requires Inv(p, s) && ClaimsInv(s) && StepForeign(s, s', token, lease)
    ensures ClaimsInv(s')
  {
    ForeignLeavesOpen(p, s, s', token, lease);
    assert s' == s.(server := s'.server, issued := s'.issued, foreign := s'.foreign);
    hide Inv, TokensOnce, GrantsHeld, GrantsOpen, StepForeign;
    NoNewGrant(s, s');
    AnswerKeeps(p, s, s');
  }

  lemma ForeignLeavesOpen(p: Proposal, s: State, s': State, token: string, lease: nat)
    requires TokensInv(s) && GrantsOpen(s) && StepForeign(s, s', token, lease)
    ensures GrantsOpen(s')
  {
    assert forall a :: a in s.answers && a.1.Granted? ==> a.1.token !in s.foreign;
    hide TokensInv;
  }

  lemma OtherStepKeeps(p: Proposal, s: State, s': State)
    requires ClaimsInv(s) && OtherStep(p, s, s')
    ensures ClaimsInv(s')
  {
    OnlyTable(p, s, s');
    TimePasses(p, s, s');
    assert forall r, token :: GrantedTo(s, r, token) <==> GrantedTo(s', r, token);
    hide GrantedTo, OtherStep;
  }

  lemma TimePasses(p: Proposal, s: State, s': State)
    requires OtherStep(p, s, s')
    ensures s.now <= s'.now
  {
    hide Inserted, Pruned;
  }

  lemma {:induction false} RunKeepsClaims(p: Proposal, run: seq<State>, n: nat)
    requires IsRun(p, run) && n < |run|
    ensures ClaimsInv(run[n])
  {
    hide Inv, ClaimsInv, Next;
    if n == 0 {
      FirstClaims(run[0]);
    } else {
      RunKeepsClaims(p, run, n - 1);
      RunKeepsInv(p, run, n - 1);
      assert Next(p, run[n - 1], run[n - 1 + 1]);
      NextKeepsClaims(p, run[n - 1], run[n]);
    }
  }

  lemma FirstClaims(s: State)
    requires Init(s)
    ensures ClaimsInv(s)
  {
  }

  lemma NextKeepsClaims(p: Proposal, s: State, s': State)
    requires Inv(p, s) && ClaimsInv(s) && Next(p, s, s')
    ensures ClaimsInv(s')
  {
    hide Inv, ClaimsInv, ServerStep, RunStep, OtherStep;
    if ServerStep(s, s') {
      ServerStepKeeps(p, s, s');
    } else if r :| RunStep(p, s, s', r) {
      RunStepKeeps(p, s, s', r);
    } else {
      OtherStepKeeps(p, s, s');
    }
  }

  // ---------------------------------------------------------------- a run that keeps its handle

  /** The claim this run prepared its file under is current, and no run is about to prepare another file. */
  ghost predicate Alone(s: State, r: nat, handle: string) {
    && r in s.claims && Current(s, s.claims[r]) && s.last == Some(r) && r in s.handles && s.handles[r] == handle
    && forall q :: q in s.runs ==> !s.runs[q].Claimed?
  }

  /** While its claim is current nobody else takes one up. */
  lemma NobodyClaims(p: Proposal, s: State, r: nat, handle: string, q: nat, token: string)
    requires Inv(p, s) && ClaimsInv(s) && Alone(s, r, handle)
    ensures !TakesUp(s, q, token)
  {
    assert !In(s, r, AwaitConfirm) && GrantedTo(s, r, s.claims[r]);
    hide PhasesInv, TokensInv, DeadInv, KeptInv, TableInv, SuccessInv, GrantsHeld, TokensOnce, GrantsOpen, GrantedTo;
    if TakesUp(s, q, token) {
      TakenUpGranted(s, q, token);
      TakenUpCurrent(s, q, token);
      OneGrantee(s, q, r, token);
    }
  }

  lemma ServerLeavesRuns(s: State, s': State)
    requires ServerStep(s, s')
    ensures s'.runs == s.runs && s'.last == s.last && s'.handles == s.handles && s'.claims == s.claims && s.issued <= s'.issued
    ensures !s'.server.RequiresConfirmation? ==>
              s'.server.token !in s.issued || (!s.server.RequiresConfirmation? && s'.server.token == s.server.token)
  {
    if q, token, lease :| StepGrant(s, s', q, token, lease) {
      hide StepForeign, StepComplete, StepRelease, StepTell;
    } else if q :| StepComplete(s, s', q) {
      hide StepForeign, StepGrant, StepRelease, StepTell;
    } else if q :| StepRelease(s, s', q) {
      hide StepForeign, StepGrant, StepComplete, StepTell;
    } else if q :| StepTell(s, s', q) {
      hide StepForeign, StepGrant, StepComplete, StepRelease;
    } else {
      hide StepTell, StepGrant, StepComplete, StepRelease;
    }
  }

  lemma AloneStep(p: Proposal, s: State, s': State, r: nat, handle: string)
    requires Inv(p, s) && ClaimsInv(s) && Alone(s, r, handle) && Next(p, s, s')
    requires r in s'.claims && s'.claims[r] == s.claims[r] && Current(s', s.claims[r])
    ensures Alone(s', r, handle)
  {
    hide ServerStep, OtherStep, RunStep, Inv, ClaimsInv;
    if ServerStep(s, s') {
      ServerLeavesRuns(s, s');
    } else if q :| RunStep(p, s, s', q) {
      RunStepMoves(p, s, s', q);
      forall token ensures !TakesUp(s, q, token) { NobodyClaims(p, s, r, handle, q, token); }
      hide TakesUp, GrantedTo;
    } else {
      OnlyTable(p, s, s');
    }
  }

  /** A token that is current now, and was issued before, was current before. */
  lemma WasCurrent(p: Proposal, s: State, s': State, token: string)
    requires Inv(p, s) && ClaimsInv(s) && Next(p, s, s') && token in s.issued && Current(s', token)
    ensures Current(s, token)
  {
    hide ServerStep, OtherStep, RunStep, Inv, ClaimsInv;
    if ServerStep(s, s') {
      ServerLeavesRuns(s, s');
    } else if q :| RunStep(p, s, s', q) {
      RunStepMoves(p, s, s', q);
      hide TakesUp, GrantedTo;
    } else {
      OnlyTable(p, s, s');
    }
  }

  lemma {:induction false} AloneStays(p: Proposal, run: seq<State>, m: nat, n: nat, r: nat, handle: string)
    requires IsRun(p, run) && m <= n < |run| && Alone(run[m], r, handle)
    requires r in run[n].claims && Current(run[n], run[n].claims[r])
    ensures Alone(run[n], r, handle)
  {
    hide Next, Inv, ClaimsInv;
    if m < n {
      var s, s' := run[n - 1], run[n];
      RunKeepsHistory(p, run, m, n - 1);
      RunKeepsHistory(p, run, n - 1, n);
      RunKeepsInv(p, run, n - 1);
      RunKeepsClaims(p, run, n - 1);
      ClaimIssued(p, s, r);
      assert Next(p, s, run[n - 1 + 1]);
      hide Alone, Current, IsRun;
      WasCurrent(p, s, s', s.claims[r]);
      AloneStays(p, run, m, n - 1, r, handle);
      AloneStep(p, s, s', r, handle);
    }
  }

  lemma ClaimIssued(p: Proposal, s: State, r: nat)
    requires Inv(p, s) && r in s.claims
    ensures s.claims[r] in s.issued
  {
  }

  lemma AloneAfterFile(p: Proposal, s: State, s': State, r: nat, token: string, f: PreparedFile)
    requires StepPrepare(p, s, s', r, token, f) && Current(s, token)
    requires forall q :: q in s.runs && q != r ==> !s.runs[q].Claimed?
    ensures Alone(s', r, f.id) && s'.claims[r] == token
  {
    hide Inserted;
  }

  lemma AloneHandleThere(p: Proposal, s: State, r: nat, handle: string)
    requires Inv(p, s) && Alone(s, r, handle) && s.now < p.expiresAt && handle !in s.dragged
    ensures handle in s.table
  {
    assert Serving(s);
    hide PhasesInv, TokensInv, DeadInv, SuccessInv;
  }

  /**
   A run that inserts its file while no other run of this desktop is between its claim and its file, and
   whose own claim confirms the proposal, keeps its handle until it expires or is dragged.
   */
  lemma OwnClaimKeepsHandle(p: Proposal, run: seq<State>, m: nat, n: nat, r: nat, token: string, f: PreparedFile)
    requires IsRun(p, run) && m < n < |run| && StepPrepare(p, run[m], run[m + 1], r, token, f)
    requires forall q :: q in run[m].runs && q != r ==> !run[m].runs[q].Claimed?
    requires run[n].server == PreparationConfirmed(token) && run[n].now < p.expiresAt && f.id !in run[n].dragged
    ensures f.id in run[n].table
  {
    hide Inv, Next;
    RunKeepsHistory(p, run, m + 1, n);
    RunKeepsInv(p, run, n);
    StillCurrent(p, run, m, n, r, token, f);
    AloneAfterFile(p, run[m], run[m + 1], r, token, f);
    hide StepPrepare, IsRun, Alone;
    AloneStays(p, run, m + 1, n, r, f.id);
    AloneHandleThere(p, run[n], r, f.id);
  }

  lemma StillCurrent(p: Proposal, run: seq<State>, m: nat, n: nat, r: nat, token: string, f: PreparedFile)
    requires IsRun(p, run) && m < n < |run| && StepPrepare(p, run[m], run[m + 1], r, token, f) && Current(run[n], token)
    ensures Current(run[m], token)
  {
    RunKeepsInv(p, run, m);
    assert token in run[m].issued;
    hide Inv, Next, StepPrepare;
    CurrentBefore(p, run, m, n, token);
  }

  lemma {:induction false} CurrentBefore(p: Proposal, run: seq<State>, m: nat, n: nat, token: string)
    requires IsRun(p, run) && m <= n < |run| && token in run[m].issued && Current(run[n], token)
    ensures Current(run[m], token)
  {
    hide Next, Inv, ClaimsInv, Current;
    if m < n {
      RunKeepsInv(p, run, n - 1);
      RunKeepsClaims(p, run, n - 1);
      IssuedStays(p, run, m, n - 1);
      assert Next(p, run[n - 1], run[n - 1 + 1]);
      WasCurrent(p, run[n - 1], run[n], token);
      CurrentBefore(p, run, m, n - 1, token);
    }
  }

  lemma {:induction false} IssuedStays(p: Proposal, run: seq<State>, m: nat, n: nat)
    requires IsRun(p, run) && m <= n < |run|
    ensures run[m].issued <= run[n].issued
  {
    hide Next, Inv, ClaimsInv;
    if m < n {
      RunKeepsInv(p, run, n - 1);
      RunKeepsClaims(p, run, n - 1);
      IssuedStays(p, run, m, n - 1);
      assert Next(p, run[n - 1], run[n - 1 + 1]);
      IssuedGrows(p, run[n - 1], run[n]);
    }
  }

  lemma IssuedGrows(p: Proposal, s: State, s': State)
    requires Inv(p, s) && ClaimsInv(s) && Next(p, s, s')
    ensures s.issued <= s'.issued
  {
    hide ServerStep, OtherStep, RunStep, Inv, ClaimsInv;
    if ServerStep(s, s') {
      ServerLeavesRuns(s, s');
    } else if q :| RunStep(p, s, s', q) {
      RunStepMoves(p, s, s', q);
      hide TakesUp, GrantedTo;
    } else {
      OnlyTable(p, s, s');
    }
  }

  /**
   The run's own claim must be the one that confirms: here the first run inserts its file alone, its claim
   expires, a second run claims, prepares and completes, and the first, told so, succeeds without its handle.
   */
  lemma LaterRunTakesHandle(p: Proposal) returns (s: State)
    requires p.id != "" && p.expiresAt >= 20
    ensures Reachable(p, s) && In(s, 0, Ended(Some("h0"))) && "h0" !in s.table && s.dragged == {} && s.now < p.expiresAt
    ensures 0 in s.claims && s.server.PreparationConfirmed? && s.server.token != s.claims[0]
  {
    var s2 := FirstPrepares(p);
    hide Reachable, Inserted;
    var s3 := s2.(now := 10);
    assert StepTick(s2, s3, 10);
    TickReaches(p, s2, s3, 10);
    var s4 := TakesClaim(p, s3, 1, "b");
    var s5 := Prepares(p, s4, 1, "b", "h1");
    InsertedEntries(s4.table, FileOf(p, "h1"), s4.now);
    assert "h0" !in s5.table by { assert SameProposal(FileOf(p, "h1"), FileOf(p, "h0")); }
    s := LearnsLate(p, s5);
  }

  lemma TickReaches(p: Proposal, s: State, s': State, ms: nat)
    requires Reachable(p, s) && StepTick(s, s', ms)
    ensures Reachable(p, s')
  {
    hide Reachable, StepTick, ServerStep, RunStep;
    assert OtherStep(p, s, s');
    OneStep(p, s, s');
  }

  lemma FirstPrepares(p: Proposal) returns (s: State)
    requires p.id != "" && p.expiresAt >= 20
    ensures Reachable(p, s) && s.server == InProgress("a", 10) && s.issued == {"a"} && s.now == 0 && s.dragged == {}
    ensures s.runs == map[0 := AwaitComplete("a")] && s.handles == map[0 := "h0"] && s.claims == map[0 := "a"] && Complete(0, "a") in s.wire
    ensures forall id :: id in s.table ==> id == "h0" && s.table[id] == FileOf(p, "h0")
  {
    var s0 := State(0, RequiresConfirmation, {}, {}, {}, {}, map[], map[], map[], None, {}, {}, map[]);
    assert IsRun(p, [s0]);
    assert [s0][|[s0]| - 1] == s0;
    assert Reachable(p, s0);
    hide Reachable, IsRun, Inserted;
    var s1 := TakesClaim(p, s0, 0, "a");
    s := Prepares(p, s1, 0, "a", "h0");
    InsertedEntries(s1.table, FileOf(p, "h0"), s1.now);
  }

  /** The second run's request completes the proposal, the first run's request is told so. */
  lemma LearnsLate(p: Proposal, s: State) returns (s': State)
    requires Reachable(p, s) && s.server.InProgress? && s.server.token == "b" && Complete(1, "b") in s.wire && Complete(0, "a") in s.wire
    requires In(s, 0, AwaitComplete("a")) && 0 in s.handles && s.now < p.expiresAt
    ensures Reachable(p, s') && In(s', 0, Ended(Some(s.handles[0]))) && s'.server == PreparationConfirmed("b")
    ensures s'.table == s.table && s'.now == s.now && s'.dragged == s.dragged && s'.claims == s.claims
  {
    hide Reachable;
    var a := s.(server := PreparationConfirmed("b"), answers := s.answers + {(Complete(1, "b"), IsConfirmed)});
    assert StepComplete(s, a, Complete(1, "b"));
    ServerMoves(p, s, a);
    var b := a.(answers := a.answers + {(Complete(0, "a"), IsConfirmed)});
    assert StepTell(a, b, Complete(0, "a"));
    ServerMoves(p, a, b);
    s' := To(b, 0, Ended(Some(s.handles[0])));
    assert StepSucceed(p, b, s', 0, "a");
    RunMoves(p, b, s', 0);
  }
}
