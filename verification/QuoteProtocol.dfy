/**
 The claim protocol of one quote proposal: confirm, prepare the file, complete, and after a failure probe
 and release, over a channel that may lose, delay or repeat any request and lose any reply.

 Any number of runs of the handler and of other devices work on the proposal at the same time; every await
 is a point of interleaving. Of the server it is assumed that it issues each claim token once, that only the
 token of the current claim can complete or release it, that a claim is given again only once released or
 expired, and that a confirmed proposal stays confirmed.
 */
module QuoteProtocol {
  import opened Wrappers
  import opened QuoteHandles

  /** The proposal's id and its expiry, which every handle prepared for it carries. */
  datatype Proposal = Proposal(id: string, expiresAt: int)

  datatype Server = RequiresConfirmation | InProgress(token: string, expiresAt: int) | PreparationConfirmed(token: string)

  datatype Request = Confirm(run: nat) | Probe(run: nat) | Complete(run: nat, token: string) | Release(run: nat, token: string)

  datatype Reply = Granted(token: string, expiresAt: int) | IsConfirmed | IsReleased

  /** Where a run of the handler stands. A run that ended with a handle reported success with it. */
  datatype Phase =
    | AwaitConfirm
    | Claimed(token: string)
    | AwaitComplete(token: string)
    | AwaitProbe(token: string)
    | AwaitRelease(token: string)
    | Ended(handle: Option<string>)

  datatype State = State(
    now: int,
    server: Server,
    issued: set<string>,             // every claim token ever issued
    foreign: set<string>,            // those issued to other devices
    wire: set<Request>,              // every request ever sent; the server may act on one at any time, even twice
    answers: set<(Request, Reply)>,  // every reply ever sent
    runs: map<nat, Phase>,
    claims: map<nat, string>,        // the token under which a run prepared its file
    handles: map<nat, string>,       // the handle a run prepared
    last: Option<nat>,               // the last run to prepare a file
    discarded: set<nat>,             // the runs that discarded their handle
    dragged: set<string>,            // handles used up by a drag
    table: Table
  )

  ghost predicate Init(s: State) {
    && s.server == RequiresConfirmation && s.issued == {} && s.foreign == {} && s.wire == {} && s.answers == {}
    && s.runs == map[] && s.claims == map[] && s.handles == map[] && s.last == None && s.discarded == {} && s.dragged == {}
    && s.table == map[]
  }

  // ---------------------------------------------------------------- the server

  predicate Free(s: State) { s.server.RequiresConfirmation? || (s.server.InProgress? && s.server.expiresAt <= s.now) }

  ghost predicate StepGrant(s: State, s': State, q: Request, token: string, lease: nat) {
    && q in s.wire && (q.Confirm? || q.Probe?) && Free(s) && token !in s.issued
    && s' == s.(server := InProgress(token, s.now + lease), issued := s.issued + {token},
                answers := s.answers + {(q, Granted(token, s.now + lease))})
  }

  ghost predicate StepComplete(s: State, s': State, q: Request) {
    && q in s.wire && q.Complete? && s.server.InProgress? && s.server.token == q.token
    && s' == s.(server := PreparationConfirmed(q.token), answers := s.answers + {(q, IsConfirmed)})
  }

  /** Any request but a release may learn that the proposal is confirmed. */
  ghost predicate StepTell(s: State, s': State, q: Request) {
    && q in s.wire && !q.Release? && s.server.PreparationConfirmed?
    && s' == s.(answers := s.answers + {(q, IsConfirmed)})
  }

  ghost predicate StepRelease(s: State, s': State, q: Request) {
    && q in s.wire && q.Release? && s.server.InProgress? && s.server.token == q.token
    && s' == s.(server := RequiresConfirmation, answers := s.answers + {(q, IsReleased)})
  }

  /** Another device is granted a claim, completes it or releases it. */
  ghost predicate StepForeign(s: State, s': State, token: string, lease: nat) {
    || (Free(s) && token !in s.issued
        && s' == s.(server := InProgress(token, s.now + lease), issued := s.issued + {token}, foreign := s.foreign + {token}))
    || (s.server.InProgress? && s.server.token in s.foreign
        && (s' == s.(server := PreparationConfirmed(s.server.token)) || s' == s.(server := RequiresConfirmation)))
  }

  // ---------------------------------------------------------------- a run of the handler

  function To(s: State, r: nat, p: Phase): State { s.(runs := s.runs[r := p]) }

  function Send(s: State, q: Request): State { s.(wire := s.wire + {q}) }

  ghost predicate In(s: State, r: nat, p: Phase) { r in s.runs && s.runs[r] == p }

  ghost predicate StepStart(s: State, s': State, r: nat) {
    && r !in s.runs
    && s' == Send(To(s, r, AwaitConfirm), Confirm(r))
  }

  /** The proposal was confirmed before: only a unique live handle is recovered, never a second file prepared. */
  ghost predicate StepRecover(p: Proposal, s: State, s': State, r: nat, q: Query, present: set<string>) {
    && In(s, r, AwaitConfirm) && (Confirm(r), IsConfirmed) in s.answers && s.now < p.expiresAt && q.proposalId == p.id
    && exists recovered: Option<string> ::
         && (recovered.Some? ==> MatchIds(Pruned(s.table, s.now), q, present) == {recovered.value})
         && (recovered.None? ==> forall id :: MatchIds(Pruned(s.table, s.now), q, present) != {id})
         && s' == To(s, r, Ended(recovered)).(table := Pruned(s.table, s.now))
  }

  /** A valid claim is taken up; an invalid one is released at once. */
  ghost predicate StepClaim(p: Proposal, s: State, s': State, r: nat, token: string, expiresAt: int) {
    && In(s, r, AwaitConfirm) && (Confirm(r), Granted(token, expiresAt)) in s.answers
    && s' == if s.now < expiresAt <= p.expiresAt then To(s, r, Claimed(token))
             else Send(To(s, r, AwaitRelease(token)), Release(r, token))
  }

  /** The reply is lost, or refuses, or is not understood. */
  ghost predicate StepGiveUp(s: State, s': State, r: nat) {
    && In(s, r, AwaitConfirm)
    && s' == To(s, r, Ended(None))
  }

  /** The contact changed, or the file could not be prepared. */
  ghost predicate StepAbort(s: State, s': State, r: nat, token: string) {
    && In(s, r, Claimed(token))
    && s' == Send(To(s, r, AwaitRelease(token)), Release(r, token))
  }

  ghost predicate StepPrepare(p: Proposal, s: State, s': State, r: nat, token: string, f: PreparedFile) {
    && In(s, r, Claimed(token)) && f.id !in s.table && f.id !in s.handles.Values && f.id !in s.dragged
    && f.proposalId == Some(p.id) && f.expiresAt == Some(p.expiresAt)
    && s' == Send(To(s, r, AwaitComplete(token)), Complete(r, token)).(
               table := Inserted(s.table, f, s.now), handles := s.handles[r := f.id], claims := s.claims[r := token], last := Some(r))
  }

  ghost predicate StepSucceed(p: Proposal, s: State, s': State, r: nat, token: string) {
    && r in s.handles && s.now < p.expiresAt
    && ((In(s, r, AwaitComplete(token)) && (Complete(r, token), IsConfirmed) in s.answers)
        || (In(s, r, AwaitProbe(token)) && (Probe(r), IsConfirmed) in s.answers))
    && s' == To(s, r, Ended(Some(s.handles[r])))
  }

  ghost predicate StepCompletionFails(s: State, s': State, r: nat, token: string) {
    && In(s, r, AwaitComplete(token))
    && s' == Send(To(s, r, AwaitProbe(token)), Probe(r))
  }

  /** A probe that was granted a new claim adopts it, only to release it. */
  ghost predicate StepAdopt(p: Proposal, s: State, s': State, r: nat, token: string, probed: string, expiresAt: int) {
    && In(s, r, AwaitProbe(token)) && (Probe(r), Granted(probed, expiresAt)) in s.answers && s.now < expiresAt <= p.expiresAt
    && s' == Send(To(s, r, AwaitRelease(probed)), Release(r, probed))
  }

  ghost predicate StepProbeFails(s: State, s': State, r: nat, token: string) {
    && In(s, r, AwaitProbe(token))
    && s' == Send(To(s, r, AwaitRelease(token)), Release(r, token))
  }

  /** Only an acknowledged release discards the handle, if there is one. */
  ghost predicate StepDiscard(s: State, s': State, r: nat, token: string) {
    && In(s, r, AwaitRelease(token)) && (Release(r, token), IsReleased) in s.answers
    && s' == if r in s.handles then To(s, r, Ended(None)).(table := s.table - {s.handles[r]}, discarded := s.discarded + {r})
             else To(s, r, Ended(None))
  }

  ghost predicate StepReleaseFails(s: State, s': State, r: nat, token: string) {
    && In(s, r, AwaitRelease(token))
    && s' == To(s, r, Ended(None))
  }

  // ---------------------------------------------------------------- the rest of the program

  /** A file is prepared for no or another proposal. */
  ghost predicate StepOtherFile(p: Proposal, s: State, s': State, f: PreparedFile) {
    && f.id !in s.table && f.proposalId != Some(p.id) && f.id !in s.handles.Values
    && s' == s.(table := Inserted(s.table, f, s.now))
  }

  /** A recovery for another proposal drops what is not live. */
  ghost predicate StepPrune(s: State, s': State) { s' == s.(table := Pruned(s.table, s.now)) }

  ghost predicate StepDrag(s: State, s': State, id: string) { s' == s.(table := s.table - {id}, dragged := s.dragged + {id}) }

  ghost predicate StepTick(s: State, s': State, ms: nat) { s' == s.(now := s.now + ms) }

  ghost predicate OtherStep(p: Proposal, s: State, s': State) {
    || (exists f :: StepOtherFile(p, s, s', f))
    || StepPrune(s, s')
    || (exists id :: StepDrag(s, s', id))
    || (exists ms :: StepTick(s, s', ms))
  }

  ghost predicate ServerStep(s: State, s': State) {
    || (exists q, token, lease :: StepGrant(s, s', q, token, lease))
    || (exists q :: StepComplete(s, s', q))
    || (exists q :: StepTell(s, s', q))
    || (exists q :: StepRelease(s, s', q))
    || (exists token, lease :: StepForeign(s, s', token, lease))
  }

  ghost predicate RunStep(p: Proposal, s: State, s': State, r: nat) {
    || StepStart(s, s', r)
    || (exists q, present :: StepRecover(p, s, s', r, q, present))
    || (exists token, expiresAt :: StepClaim(p, s, s', r, token, expiresAt))
    || StepGiveUp(s, s', r)
    || (exists token :: StepAbort(s, s', r, token))
    || (exists token, f :: StepPrepare(p, s, s', r, token, f))
    || (exists token :: StepSucceed(p, s, s', r, token))
    || (exists token :: StepCompletionFails(s, s', r, token))
    || (exists token, probed, expiresAt :: StepAdopt(p, s, s', r, token, probed, expiresAt))
    || (exists token :: StepProbeFails(s, s', r, token))
    || (exists token :: StepDiscard(s, s', r, token))
    || (exists token :: StepReleaseFails(s, s', r, token))
  }

  ghost predicate Next(p: Proposal, s: State, s': State) {
    ServerStep(s, s') || (exists r :: RunStep(p, s, s', r)) || OtherStep(p, s, s')
  }

  ghost predicate IsRun(p: Proposal, run: seq<State>) {
    && p.id != "" && run != [] && Init(run[0])
    && forall i :: 0 <= i < |run| - 1 ==> Next(p, run[i], run[i + 1])
  }

  // ---------------------------------------------------------------- the invariant

  /** The token holds the claim, or completed the proposal. */
  ghost predicate Current(s: State, token: string) { !s.server.RequiresConfirmation? && s.server.token == token }

  /** A token that was issued and is not current never will be. */
  ghost predicate Dead(s: State, token: string) { token in s.issued && !Current(s, token) }

  /** Phases, requests and the files prepared agree. */
  ghost predicate PhasesInv(s: State) {
    && s.handles.Keys == s.claims.Keys
    && (forall r :: r in s.handles ==> r in s.runs && !s.runs[r].AwaitConfirm? && !s.runs[r].Claimed?)
    && (forall r :: r in s.runs && (s.runs[r].AwaitComplete? || s.runs[r].AwaitProbe?) ==> r in s.claims && s.claims[r] == s.runs[r].token)
    && (forall q :: q in s.wire && q.Complete? ==> q.run in s.claims && s.claims[q.run] == q.token)
    && (forall q :: q in s.wire && q.Probe? ==> q.run in s.claims)
    && (forall q :: q in s.wire && q.Release? ==> q.run in s.runs && (s.runs[q.run].AwaitRelease? || s.runs[q.run].Ended?))
    && (forall q :: q in s.wire && q.Release? && q.run in s.claims ==>
          q.token == s.claims[q.run] || exists e :: (Probe(q.run), Granted(q.token, e)) in s.answers)
  }

  /** Where tokens come from. */
  ghost predicate TokensInv(s: State) {
    && s.foreign <= s.issued
    && (!s.server.RequiresConfirmation? ==> s.server.token in s.issued)
    && (forall a :: a in s.answers ==> a.0 in s.wire)
    && (forall a :: a in s.answers && a.1.Granted? ==> a.1.token in s.issued && a.1.token !in s.foreign)
    && (forall r :: r in s.claims ==> s.claims[r] in s.issued && s.claims[r] !in s.foreign)
    && (forall r :: r in s.runs && s.runs[r].Claimed? ==> s.runs[r].token in s.issued && s.runs[r].token !in s.foreign)
    && (s.server.PreparationConfirmed? ==> s.server.token in s.foreign || exists r :: r in s.claims && s.claims[r] == s.server.token)
    && (forall a :: a in s.answers && a.1.IsConfirmed? ==> s.server.PreparationConfirmed?)
  }

  /** A new grant to a run's probe, or an acknowledged release, ends the claim its file was prepared under. */
  ghost predicate DeadInv(s: State) {
    && (forall a :: a in s.answers && a.0.Probe? && a.1.Granted? ==> a.0.run in s.claims && Dead(s, s.claims[a.0.run]))
    && (forall a :: a in s.answers && a.1.IsReleased? ==> a.0.Release? && (a.0.run in s.claims ==> Dead(s, s.claims[a.0.run])))
    && (forall r :: r in s.discarded ==> r in s.claims && In(s, r, Ended(None)) && Dead(s, s.claims[r]))
  }

  /** The current claim prepared a file. */
  ghost predicate Serving(s: State) { exists r :: r in s.claims && Current(s, s.claims[r]) }

  /** While a claim under which a file was prepared is current, the last file prepared is not given up. */
  ghost predicate KeptInv(s: State) {
    && (s.last.Some? <==> s.claims != map[])
    && (s.last.Some? ==> s.last.value in s.handles)
    && (forall a :: a in s.answers && a.1.IsReleased? && Serving(s) ==> s.last != Some(a.0.run))
    && (Serving(s) ==> s.last.value !in s.discarded)
  }

  ghost predicate DistinctHandles(s: State) { forall r, r' :: r in s.handles && r' in s.handles && s.handles[r] == s.handles[r'] ==> r == r' }

  /** The only handle of the proposal is the last one prepared. */
  ghost predicate OnlyLast(p: Proposal, s: State) {
    forall id :: id in s.table && s.table[id].proposalId == Some(p.id) ==>
      s.last.Some? && s.last.value in s.handles && id == s.handles[s.last.value] && s.table[id].expiresAt == Some(p.expiresAt)
  }

  ghost predicate OwnProposal(p: Proposal, s: State) {
    forall r :: r in s.handles && s.handles[r] in s.table ==> s.table[s.handles[r]].proposalId == Some(p.id)
  }

  /** The last handle is there until discarded, dragged or expired. */
  ghost predicate LastThere(p: Proposal, s: State) {
    s.last.Some? && s.last.value in s.handles && s.last.value !in s.discarded && s.now < p.expiresAt && s.handles[s.last.value] !in s.dragged ==>
      s.handles[s.last.value] in s.table
  }

  ghost predicate TableInv(p: Proposal, s: State) { DistinctHandles(s) && OnlyLast(p, s) && OwnProposal(p, s) && LastThere(p, s) }

  ghost predicate SuccessInv(s: State) {
    forall r :: r in s.runs && s.runs[r].Ended? && s.runs[r].handle.Some? ==> s.server.PreparationConfirmed?
  }

  ghost predicate Inv(p: Proposal, s: State) {
    PhasesInv(s) && TokensInv(s) && DeadInv(s) && KeptInv(s) && TableInv(p, s) && SuccessInv(s)
  }

  // ---------------------------------------------------------------- every step keeps the invariant

  /** What is never undone: a confirmation, a discarded handle, the token a file was prepared under. */
  ghost predicate History(s: State, s': State) {
    && (s.server.PreparationConfirmed? ==> s'.server == s.server)
    && s.discarded <= s'.discarded
    && forall r :: r in s.claims ==> r in s'.claims && s'.claims[r] == s.claims[r]
  }

  /** A run moves on and may send a request; nothing else changes. */
  lemma PhaseChange(p: Proposal, s: State, s': State, r: nat, phase: Phase)
    requires Inv(p, s) && PhasesInv(s')
    requires s' == s.(runs := s.runs[r := phase], wire := s'.wire) && s.wire <= s'.wire
    requires r in s.runs ==> !s.runs[r].Ended?
    requires phase.Claimed? ==> phase.token in s.issued && phase.token !in s.foreign
    requires phase.Ended? && phase.handle.Some? ==> s.server.PreparationConfirmed?
    ensures Inv(p, s')
  {
    hide PhasesInv;
    assert forall t :: Dead(s, t) ==> Dead(s', t);
    assert Serving(s') <==> Serving(s);
    assert TokensInv(s') && SuccessInv(s') && TableInv(p, s') && KeptInv(s');
  }

  /** What a run may send as it moves on. */
  ghost predicate MaySend(s: State, r: nat, phase: Phase, q: Request) {
    && q.run == r && !q.Complete?
    && (q.Probe? ==> r in s.claims)
    && (q.Release? ==> phase.AwaitRelease? && (r in s.claims ==> q.token == s.claims[r] || exists e :: (Probe(r), Granted(q.token, e)) in s.answers))
  }

  lemma PhasesChange(s: State, s': State, r: nat, phase: Phase, sent: Option<Request>)
    requires PhasesInv(s)
    requires s' == s.(runs := s.runs[r := phase], wire := s.wire + if sent.Some? then {sent.value} else {})
    requires sent.Some? ==> MaySend(s, r, phase, sent.value)
    requires phase.AwaitConfirm? || phase.Claimed? ==> r !in s.handles
    requires phase.AwaitComplete? || phase.AwaitProbe? ==> r in s.claims && s.claims[r] == phase.token
    requires r in s.runs && (s.runs[r].AwaitRelease? || s.runs[r].Ended?) ==> phase.Ended?
    ensures PhasesInv(s')
  {
  }

  lemma MovesOn(p: Proposal, s: State, s': State, r: nat, phase: Phase, sent: Option<Request>)
    requires Inv(p, s)
    requires s' == s.(runs := s.runs[r := phase], wire := s.wire + if sent.Some? then {sent.value} else {})
    requires sent.Some? ==> MaySend(s, r, phase, sent.value)
    requires r in s.runs ==> !s.runs[r].Ended? && (s.runs[r].AwaitRelease? ==> phase.Ended?)
    requires phase.AwaitConfirm? || phase.Claimed? ==> r !in s.handles
    requires phase.AwaitComplete? || phase.AwaitProbe? ==> r in s.claims && s.claims[r] == phase.token
    requires phase.Claimed? ==> phase.token in s.issued && phase.token !in s.foreign
    requires phase.Ended? && phase.handle.Some? ==> s.server.PreparationConfirmed?
    ensures Inv(p, s') && History(s, s')
  {
    PhasesChange(s, s', r, phase, sent);
    hide PhasesInv, TokensInv, DeadInv, KeptInv, TableInv, SuccessInv;
    PhaseChange(p, s, s', r, phase);
  }

  lemma EarlySteps(p: Proposal, s: State, s': State, r: nat)
    requires Inv(p, s)
    requires StepStart(s, s', r) || StepGiveUp(s, s', r) || (exists token :: StepAbort(s, s', r, token))
    ensures Inv(p, s') && History(s, s')
  {
    NoFileYet(p, s, r);
    hide PhasesInv, TokensInv, Inv, DeadInv, KeptInv, TableInv, SuccessInv;
    var phase := s'.runs[r];
    if StepGiveUp(s, s', r) {
      MovesOn(p, s, s', r, phase, None);
    } else {
      MovesOn(p, s, s', r, phase, Some(if phase.AwaitConfirm? then Confirm(r) else Release(r, phase.token)));
    }
  }

  lemma ClaimStep(p: Proposal, s: State, s': State, r: nat, token: string, expiresAt: int)
    requires Inv(p, s) && StepClaim(p, s, s', r, token, expiresAt)
    ensures Inv(p, s') && History(s, s')
  {
    NoFileYet(p, s, r);
    hide PhasesInv, TokensInv, Inv, DeadInv, KeptInv, TableInv, SuccessInv;
    if s.now < expiresAt <= p.expiresAt {
      MovesOn(p, s, s', r, Claimed(token), None);
    } else {
      MovesOn(p, s, s', r, AwaitRelease(token), Some(Release(r, token)));
    }
  }

  lemma NoFileYet(p: Proposal, s: State, r: nat)
    requires Inv(p, s)
    ensures r !in s.runs || s.runs[r].AwaitConfirm? || s.runs[r].Claimed? ==> r !in s.handles && r !in s.claims
    ensures forall token, e :: (Confirm(r), Granted(token, e)) in s.answers ==> token in s.issued && token !in s.foreign
  {
  }

  lemma LateSteps(p: Proposal, s: State, s': State, r: nat)
    requires Inv(p, s)
    requires || (exists token :: StepCompletionFails(s, s', r, token))
             || (exists token :: StepReleaseFails(s, s', r, token))
             || (exists token :: StepProbeFails(s, s', r, token))
             || (exists token, probed, expiresAt :: StepAdopt(p, s, s', r, token, probed, expiresAt))
             || (exists token :: StepSucceed(p, s, s', r, token))
    ensures Inv(p, s') && History(s, s')
  {
    hide DeadInv, KeptInv, TableInv, SuccessInv;
    assert s.runs[r].AwaitComplete? || s.runs[r].AwaitProbe? ==> r in s.claims && s.claims[r] == s.runs[r].token;
    assert forall q :: (q, IsConfirmed) in s.answers ==> s.server.PreparationConfirmed?;
    hide PhasesInv, TokensInv, Inv;
    var phase := s'.runs[r];
    if s'.wire == s.wire {
      MovesOn(p, s, s', r, phase, None);
    } else {
      MovesOn(p, s, s', r, phase, Some(if phase.AwaitProbe? then Probe(r) else Release(r, phase.token)));
    }
  }

  lemma InsertedEntries(files: Table, f: PreparedFile, now: int)
    ensures f.id in Inserted(files, f, now) && Inserted(files, f, now)[f.id] == f
    ensures forall id :: id in Inserted(files, f, now) && id != f.id ==> id in files && Inserted(files, f, now)[id] == files[id] && !SameProposal(f, files[id])
    ensures forall id :: id in files && !Expired(files[id], now) && !SameProposal(f, files[id]) ==> id in Inserted(files, f, now)
  {
  }

  /** The table changes under the runs: other files come, expired ones go, one is dragged, time passes. */
  lemma OtherSteps(p: Proposal, s: State, s': State)
    requires Inv(p, s) && p.id != "" && OtherStep(p, s, s')
    ensures Inv(p, s') && History(s, s')
  {
    hide PhasesInv, TokensInv, KeptInv, SuccessInv, DeadInv, TableInv, StepOtherFile, StepPrune, StepDrag, StepTick;
    if f :| StepOtherFile(p, s, s', f) {
      OtherFileKeepsTable(p, s, s', f);
      assert s' == s.(now := s'.now, table := s'.table, dragged := s'.dragged) by { assert StepOtherFile(p, s, s', f); OnlyTable(p, s, s'); }
    } else {
      QuietTable(p, s, s');
      OnlyTable(p, s, s');
    }
    SameButTable(p, s, s');
  }

  lemma OnlyTable(p: Proposal, s: State, s': State)
    requires OtherStep(p, s, s')
    ensures s' == s.(now := s'.now, table := s'.table, dragged := s'.dragged)
  {
    hide Inserted, Pruned;
  }

  lemma OtherFileKeepsTable(p: Proposal, s: State, s': State, f: PreparedFile)
    requires TableInv(p, s) && p.id != "" && StepOtherFile(p, s, s', f)
    ensures TableInv(p, s')
  {
    InsertedEntries(s.table, f, s.now);
    assert forall r :: r in s.handles ==> s.handles[r] in s.handles.Values;
    assert DistinctHandles(s');
    hide Inserted, DistinctHandles;
  }

  lemma QuietTable(p: Proposal, s: State, s': State)
    requires TableInv(p, s) && (StepPrune(s, s') || (exists id :: StepDrag(s, s', id)) || (exists ms :: StepTick(s, s', ms)))
    ensures TableInv(p, s')
  {
    assert DistinctHandles(s');
    hide DistinctHandles;
    if StepPrune(s, s') {
      hide StepDrag, StepTick;
    } else {
      hide StepPrune;
    }
  }

  lemma SameButTable(p: Proposal, s: State, s': State)
    requires Inv(p, s) && TableInv(p, s') && s' == s.(now := s'.now, table := s'.table, dragged := s'.dragged)
    ensures Inv(p, s') && History(s, s')
  {
    hide TableInv;
    assert forall t :: Dead(s, t) <==> Dead(s', t);
    assert Serving(s) <==> Serving(s');
    hide Dead, Serving;
    assert PhasesInv(s');
    hide PhasesInv;
    assert TokensInv(s');
    hide TokensInv;
    assert DeadInv(s');
  }

  lemma RecoverStep(p: Proposal, s: State, s': State, r: nat, q: Query, present: set<string>)
    requires Inv(p, s) && p.id != "" && StepRecover(p, s, s', r, q, present)
    ensures Inv(p, s') && History(s, s')
  {
    var t := s.(table := Pruned(s.table, s.now));
    assert s.server.PreparationConfirmed?;
    assert Inv(p, t) by {
      assert StepPrune(s, t);
      hide Inv;
      OtherSteps(p, s, t);
    }
    hide PhasesInv, TokensInv, KeptInv, SuccessInv, DeadInv, TableInv, Inv;
    MovesOn(p, t, s', r, s'.runs[r], None);
  }

  // ---------------------------------------------------------------- preparing and discarding

  lemma PrepareKeepsPhases(p: Proposal, s: State, s': State, r: nat, token: string, f: PreparedFile)
    requires PhasesInv(s) && StepPrepare(p, s, s', r, token, f)
    ensures PhasesInv(s') && r !in s.claims
  {
    hide Inserted;
  }

  lemma PrepareKeepsTable(p: Proposal, s: State, s': State, r: nat, token: string, f: PreparedFile)
    requires TableInv(p, s) && p.id != "" && StepPrepare(p, s, s', r, token, f) && r !in s.handles
    ensures TableInv(p, s')
  {
    InsertedEntries(s.table, f, s.now);
    assert forall x :: x in s.handles ==> s.handles[x] in s.handles.Values;
    assert DistinctHandles(s') by { hide OnlyLast, OwnProposal, LastThere, Inserted; }
    hide DistinctHandles, Inserted;
    assert OwnProposal(p, s');
  }

  lemma PrepareStep(p: Proposal, s: State, s': State, r: nat, token: string, f: PreparedFile)
    requires Inv(p, s) && p.id != "" && StepPrepare(p, s, s', r, token, f)
    ensures Inv(p, s') && History(s, s')
  {
    NotDiscarded(p, s, r);
    NoFileYet(p, s, r);
    PrepareKeepsPhases(p, s, s', r, token, f);
    PrepareKeepsTable(p, s, s', r, token, f);
    PrepareKeepsKept(p, s, s', r, token, f);
    PrepareKeepsTokens(p, s, s', r, token, f);
    hide PhasesInv, TableInv, KeptInv, TokensInv, DeadInv, Inserted;
  }

  lemma NotDiscarded(p: Proposal, s: State, r: nat)
    requires Inv(p, s) && r in s.runs && s.runs[r].Claimed?
    ensures r !in s.discarded
  {
  }

  lemma PrepareKeepsTokens(p: Proposal, s: State, s': State, r: nat, token: string, f: PreparedFile)
    requires Inv(p, s) && StepPrepare(p, s, s', r, token, f) && r !in s.claims
    ensures TokensInv(s') && DeadInv(s')
  {
    assert forall x :: x in s.claims ==> s'.claims[x] == s.claims[x];
    assert DeadInv(s') by { PrepareKeepsDead(p, s, s', r, token, f); }
    hide PhasesInv, TableInv, KeptInv, SuccessInv, DeadInv, Inserted;
    assert s'.claims[r] == token;
  }

  lemma PrepareKeepsDead(p: Proposal, s: State, s': State, r: nat, token: string, f: PreparedFile)
    requires Inv(p, s) && StepPrepare(p, s, s', r, token, f) && r !in s.claims
    ensures DeadInv(s')
  {
    AnswersOfOthers(s, r, token);
    NotDiscarded(p, s, r);
    hide PhasesInv, TableInv, KeptInv, SuccessInv, Inserted, TokensInv;
    assert forall t :: Dead(s, t) <==> Dead(s', t);
    hide Dead;
  }

  lemma AnswersOfOthers(s: State, r: nat, token: string)
    requires PhasesInv(s) && TokensInv(s) && DeadInv(s) && In(s, r, Claimed(token))
    ensures forall a :: a in s.answers && ((a.0.Probe? && a.1.Granted?) || a.1.IsReleased?) ==> a.0.run != r
  {
  }

  lemma PrepareKeepsKept(p: Proposal, s: State, s': State, r: nat, token: string, f: PreparedFile)
    requires Inv(p, s) && StepPrepare(p, s, s', r, token, f) && r !in s.discarded
    ensures KeptInv(s')
  {
    AnswersOfOthers(s, r, token);
    hide PhasesInv, TokensInv, DeadInv, TableInv, SuccessInv, Inserted;
  }

  lemma DiscardKeepsTable(p: Proposal, s: State, s': State, r: nat, token: string)
    requires TableInv(p, s) && StepDiscard(s, s', r, token) && r in s.handles
    ensures TableInv(p, s')
  {
  }

  lemma DiscardKeepsDead(p: Proposal, s: State, s': State, r: nat, token: string)
    requires Inv(p, s) && StepDiscard(s, s', r, token) && r in s.handles
    ensures DeadInv(s') && KeptInv(s')
  {
    assert (Release(r, token), IsReleased) in s.answers;
    assert forall t :: Dead(s, t) <==> Dead(s', t);
    assert Serving(s) <==> Serving(s');
    hide TableInv, TokensInv, SuccessInv, Dead, Serving;
    assert r in s.claims && Dead(s, s.claims[r]);
    hide PhasesInv;
  }

  lemma DiscardStep(p: Proposal, s: State, s': State, r: nat, token: string)
    requires Inv(p, s) && StepDiscard(s, s', r, token)
    ensures Inv(p, s') && History(s, s')
  {
    hide TokensInv, KeptInv, DeadInv, TableInv;
    if r in s.handles {
      DiscardKeepsTable(p, s, s', r, token);
      DiscardKeepsDead(p, s, s', r, token);
      var t := To(s, r, Ended(None));
      assert Inv(p, t) by {
        hide PhasesInv, SuccessInv, Inv;
        MovesOn(p, s, t, r, Ended(None), None);
      }
      assert TokensInv(s') by { TokensCarry(t, s'); }
    } else {
      hide PhasesInv, SuccessInv, Inv;
      MovesOn(p, s, s', r, Ended(None), None);
    }
  }

  lemma TokensCarry(s: State, s': State)
    requires TokensInv(s) && s' == s.(table := s'.table, discarded := s'.discarded)
    ensures TokensInv(s')
  {
  }

  // ---------------------------------------------------------------- the server's steps

  /** The server acts: old claims that ended stay ended, and what it newly answers is true. */
  lemma ServerActs(p: Proposal, s: State, s': State)
    requires Inv(p, s) && TokensInv(s') && s.answers <= s'.answers
    requires s' == s.(server := s'.server, issued := s'.issued, foreign := s'.foreign, answers := s'.answers)
    requires forall t :: Dead(s, t) ==> Dead(s', t)
    requires Serving(s') ==> Serving(s)
    requires s.server.PreparationConfirmed? ==> s'.server == s.server
    requires forall a :: a in s'.answers && a !in s.answers && a.0.Probe? && a.1.Granted? ==> a.0.run in s.claims && Dead(s', s.claims[a.0.run])
    requires forall a :: a in s'.answers && a !in s.answers && a.1.IsReleased? ==>
               a.0.Release? && !Serving(s') && (a.0.run in s.claims ==> Dead(s', s.claims[a.0.run]))
    ensures Inv(p, s') && History(s, s')
  {
    assert TableInv(p, s') by { hide PhasesInv, TokensInv, DeadInv, KeptInv, SuccessInv, Dead; }
    hide TableInv, TokensInv, Dead, Serving;
    assert PhasesInv(s') by { hide DeadInv, KeptInv, SuccessInv; }
    hide PhasesInv;
    assert DeadInv(s') by { hide KeptInv, SuccessInv; AnswersKeepDead(s, s'); }
    hide DeadInv;
  }

  lemma AnswersKeepDead(s: State, s': State)
    requires DeadInv(s) && s'.claims == s.claims && s'.runs == s.runs && s'.discarded == s.discarded
    requires forall t :: Dead(s, t) ==> Dead(s', t)
    requires forall a :: a in s'.answers && a !in s.answers && a.0.Probe? && a.1.Granted? ==> a.0.run in s.claims && Dead(s', s.claims[a.0.run])
    requires forall a :: a in s'.answers && a !in s.answers && a.1.IsReleased? ==> a.0.Release? && (a.0.run in s.claims ==> Dead(s', s.claims[a.0.run]))
    ensures DeadInv(s')
  {
    hide Dead;
  }

  lemma GrantStep(p: Proposal, s: State, s': State, q: Request, token: string, lease: nat)
    requires Inv(p, s) && StepGrant(s, s', q, token, lease)
    ensures Inv(p, s') && History(s, s')
  {
    hide TableInv, DeadInv, KeptInv, SuccessInv;
    assert forall x :: x in s.claims ==> Dead(s', s.claims[x]);
    assert q.Probe? ==> q.run in s.claims;
    hide PhasesInv;
    assert forall t :: Dead(s, t) ==> Dead(s', t);
    assert !Serving(s');
    assert TokensInv(s');
    hide TokensInv, Dead, Serving, Inv;
    ServerActs(p, s, s');
  }

  lemma CompleteStep(p: Proposal, s: State, s': State, q: Request)
    requires Inv(p, s) && (StepComplete(s, s', q) || StepTell(s, s', q))
    ensures Inv(p, s') && History(s, s')
  {
    hide TableInv, DeadInv, KeptInv, SuccessInv;
    assert q.Complete? ==> q.run in s.claims && s.claims[q.run] == q.token;
    hide PhasesInv;
    assert forall t :: Dead(s, t) ==> Dead(s', t);
    assert Serving(s') ==> Serving(s);
    assert TokensInv(s');
    hide TokensInv, Dead, Serving, Inv;
    ServerActs(p, s, s');
  }

  lemma ReleaseStep(p: Proposal, s: State, s': State, q: Request)
    requires Inv(p, s) && StepRelease(s, s', q)
    ensures Inv(p, s') && History(s, s')
  {
    hide TableInv, KeptInv, SuccessInv, PhasesInv, DeadInv;
    assert forall t :: t in s.issued ==> Dead(s', t);
    assert forall x :: x in s.claims ==> s.claims[x] in s.issued;
    assert !Serving(s');
    assert TokensInv(s');
    hide TokensInv, Serving, Inv;
    assert forall t :: Dead(s, t) ==> Dead(s', t);
    hide Dead;
    ServerActs(p, s, s');
  }

  lemma ForeignStep(p: Proposal, s: State, s': State, token: string, lease: nat)
    requires Inv(p, s) && StepForeign(s, s', token, lease)
    ensures Inv(p, s') && History(s, s')
  {
    hide TableInv, DeadInv, KeptInv, SuccessInv, PhasesInv;
    assert forall t :: Dead(s, t) ==> Dead(s', t);
    assert Serving(s') ==> Serving(s);
    assert TokensInv(s');
    hide TokensInv, Dead, Serving, Inv;
    ServerActs(p, s, s');
  }

  lemma NextKeepsInv(p: Proposal, s: State, s': State)
    requires p.id != "" && Inv(p, s) && Next(p, s, s')
    ensures Inv(p, s') && History(s, s')
  {
    hide Inv;
    if ServerStep(s, s') {
      ServerStepKeepsInv(p, s, s');
    } else if r :| RunStep(p, s, s', r) {
      hide ServerStep;
      RunStepKeepsInv(p, s, s', r);
    } else {
      hide ServerStep, RunStep, OtherStep;
      OtherSteps(p, s, s');
    }
  }

  lemma ServerStepKeepsInv(p: Proposal, s: State, s': State)
    requires Inv(p, s) && ServerStep(s, s')
    ensures Inv(p, s') && History(s, s')
  {
    hide Inv, StepGrant, StepComplete, StepTell, StepRelease, StepForeign;
    if q, token, lease :| StepGrant(s, s', q, token, lease) {
      GrantStep(p, s, s', q, token, lease);
    } else if q :| StepComplete(s, s', q) || StepTell(s, s', q) {
      CompleteStep(p, s, s', q);
    } else if q :| StepRelease(s, s', q) {
      ReleaseStep(p, s, s', q);
    } else {
      var token, lease :| StepForeign(s, s', token, lease);
      ForeignStep(p, s, s', token, lease);
    }
  }

  lemma RunStepKeepsInv(p: Proposal, s: State, s': State, r: nat)
    requires p.id != "" && Inv(p, s) && RunStep(p, s, s', r)
    ensures Inv(p, s') && History(s, s')
  {
    hide Inv, StepStart, StepRecover, StepClaim, StepGiveUp, StepAbort, StepPrepare, StepSucceed, StepCompletionFails, StepAdopt, StepProbeFails, StepDiscard, StepReleaseFails;
    if q, present :| StepRecover(p, s, s', r, q, present) {
      RecoverStep(p, s, s', r, q, present);
    } else if token, expiresAt :| StepClaim(p, s, s', r, token, expiresAt) {
      ClaimStep(p, s, s', r, token, expiresAt);
    } else if token, f :| StepPrepare(p, s, s', r, token, f) {
      PrepareStep(p, s, s', r, token, f);
    } else if token :| StepDiscard(s, s', r, token) {
      DiscardStep(p, s, s', r, token);
    } else if StepStart(s, s', r) || StepGiveUp(s, s', r) || exists token :: StepAbort(s, s', r, token) {
      EarlySteps(p, s, s', r);
    } else {
      LateSteps(p, s, s', r);
    }
  }

  lemma {:induction false} RunKeepsInv(p: Proposal, run: seq<State>, n: nat)
    requires IsRun(p, run) && n < |run|
    ensures Inv(p, run[n])
  {
    hide Next;
    if n > 0 {
      hide Inv;
      RunKeepsInv(p, run, n - 1);
      assert Next(p, run[n - 1], run[n - 1 + 1]);
      NextKeepsInv(p, run[n - 1], run[n]);
    }
  }

  // ---------------------------------------------------------------- the properties of whole runs

  lemma {:induction false} RunKeepsHistory(p: Proposal, run: seq<State>, m: nat, n: nat)
    requires IsRun(p, run) && m <= n < |run|
    ensures History(run[m], run[n])
  {
    hide Next, Inv;
    if m < n {
      RunKeepsHistory(p, run, m, n - 1);
      RunKeepsInv(p, run, n - 1);
      assert Next(p, run[n - 1], run[n - 1 + 1]);
      NextKeepsInv(p, run[n - 1], run[n]);
    }
  }

  /** A run that reported success: the server has confirmed the proposal, from then on and for good. */
  lemma SuccessMeansConfirmed(p: Proposal, run: seq<State>, m: nat, n: nat, r: nat, handle: string)
    requires IsRun(p, run) && m <= n < |run| && In(run[m], r, Ended(Some(handle)))
    ensures run[m].server.PreparationConfirmed? && run[n].server == run[m].server
  {
    RunKeepsInv(p, run, m);
    RunKeepsHistory(p, run, m, n);
  }

  /** A discarded handle was given up by the server first: its run's claim neither holds nor ever confirms the proposal. */
  lemma DiscardedNeverConfirmed(p: Proposal, run: seq<State>, m: nat, n: nat, r: nat)
    requires IsRun(p, run) && m <= n < |run| && r in run[m].discarded
    ensures r in run[n].claims && In(run[n], r, Ended(None))
    ensures run[n].server.RequiresConfirmation? || run[n].server.token != run[n].claims[r]
  {
    RunKeepsHistory(p, run, m, n);
    RunKeepsInv(p, run, n);
    hide IsRun, TableInv, KeptInv, PhasesInv, TokensInv;
  }

  /** The table never holds two handles for the proposal. */
  lemma OneHandle(p: Proposal, run: seq<State>, n: nat, a: string, b: string)
    requires IsRun(p, run) && n < |run| && a in run[n].table && b in run[n].table
    requires run[n].table[a].proposalId == Some(p.id) && run[n].table[b].proposalId == Some(p.id)
    ensures a == b
  {
    RunKeepsInv(p, run, n);
  }

  /**
     No confirmation without its file: once this desktop has confirmed the proposal, and until it expires,
     exactly one handle serves it, unless a drag used that handle up; and asking again recovers it.
   */
  lemma ConfirmedKeepsHandle(p: Proposal, run: seq<State>, n: nat) returns (handle: string)
    requires IsRun(p, run) && n < |run| && run[n].now < p.expiresAt
    requires run[n].server.PreparationConfirmed? && run[n].server.token !in run[n].foreign
    ensures var s := run[n];
      && (handle in s.dragged || (handle in s.table && s.table[handle].proposalId == Some(p.id)))
      && (forall id :: id in s.table && s.table[id].proposalId == Some(p.id) ==> id == handle)
      && (forall q: Query, present: set<string> :: handle in s.table && q.proposalId == p.id && Matches(s.table[handle], q, present) ==>
            MatchIds(Pruned(s.table, s.now), q, present) == {handle})
  {
    RunKeepsInv(p, run, n);
    hide IsRun;
    handle := ServingHandle(p, run[n]);
  }

  lemma ServingHandle(p: Proposal, s: State) returns (handle: string)
    requires Inv(p, s) && s.now < p.expiresAt && s.server.PreparationConfirmed? && s.server.token !in s.foreign
    ensures handle in s.dragged || (handle in s.table && s.table[handle].proposalId == Some(p.id))
    ensures forall id :: id in s.table && s.table[id].proposalId == Some(p.id) ==> id == handle
    ensures forall q: Query, present: set<string> :: handle in s.table && q.proposalId == p.id && Matches(s.table[handle], q, present) ==>
              MatchIds(Pruned(s.table, s.now), q, present) == {handle}
  {
    var r :| r in s.claims && s.claims[r] == s.server.token;
    assert Current(s, s.claims[r]);
    assert Serving(s) && r in s.claims;
    handle := s.handles[s.last.value];
    hide PhasesInv, TokensInv, DeadInv, KeptInv, SuccessInv;
    forall q: Query, present: set<string> | handle in s.table && q.proposalId == p.id && Matches(s.table[handle], q, present)
      ensures MatchIds(Pruned(s.table, s.now), q, present) == {handle}
    {
      var live := Pruned(s.table, s.now);
      assert handle in live && live[handle] == s.table[handle];
      assert forall id :: id in MatchIds(live, q, present) ==> id in s.table && s.table[id].proposalId == Some(p.id);
    }
  }

  /**
   What a run recovers is the one handle in the table whose file was prepared for exactly what it asks for
   and is still on disk; a run recovers nothing only if there is no such handle, or more than one.
   */
  lemma RecoveryServes(p: Proposal, run: seq<State>, n: nat, r: nat, q: Query, present: set<string>)
    requires IsRun(p, run) && n + 1 < |run| && StepRecover(p, run[n], run[n + 1], r, q, present)
    ensures r in run[n + 1].runs && run[n + 1].runs[r].Ended?
    ensures var s, handle := run[n], run[n + 1].runs[r].handle;
      && (handle.Some? ==> handle.value in run[n + 1].table && run[n + 1].table[handle.value] == s.table[handle.value]
                           && Answers(s.table, handle.value, q, present) && q.expiresAt > s.now)
      && (handle.Some? <==> q.expiresAt > s.now && OneAnswers(s.table, q, present))
  {
    TableWellKept(p, run, n);
    hide IsRun;
    RecoveredIff(p, run[n], run[n + 1], r, q, present);
  }

  lemma RunStepKeepsTable(p: Proposal, s: State, s': State, r: nat)
    requires RunStep(p, s, s', r) && WellKept(s.table)
    ensures WellKept(s'.table)
  {
    hide WellKept, Inserted;
    if token, f :| StepPrepare(p, s, s', r, token, f) {
      InsertedWellKept(s.table, f, s.now);
    } else if q, present :| StepRecover(p, s, s', r, q, present) {
      PrunedWellKept(s.table, s.now);
    } else if token :| StepDiscard(s, s', r, token) {
      if r in s.handles { RemovedWellKept(s.table, s.handles[r]); }
    }
  }

  lemma RemovedWellKept(table: Table, id: string)
    requires WellKept(table)
    ensures WellKept(table - {id})
  {
  }

  lemma OtherStepKeepsTable(p: Proposal, s: State, s': State)
    requires OtherStep(p, s, s') && WellKept(s.table)
    ensures WellKept(s'.table)
  {
    hide WellKept, Inserted;
    if f :| StepOtherFile(p, s, s', f) {
      InsertedWellKept(s.table, f, s.now);
    } else if StepPrune(s, s') {
      PrunedWellKept(s.table, s.now);
    } else if id :| StepDrag(s, s', id) {
      RemovedWellKept(s.table, id);
    }
  }

  lemma ServerKeepsTable(s: State, s': State)
    requires ServerStep(s, s')
    ensures s'.table == s.table
  {
    hide Free;
    if q, token, lease :| StepGrant(s, s', q, token, lease) {
    } else if q :| StepComplete(s, s', q) {
    } else if q :| StepTell(s, s', q) {
    } else if q :| StepRelease(s, s', q) {
    } else {
      var token, lease :| StepForeign(s, s', token, lease);
    }
  }

  lemma StepKeepsTable(p: Proposal, s: State, s': State)
    requires Next(p, s, s') && WellKept(s.table)
    ensures WellKept(s'.table)
  {
    hide WellKept, ServerStep, RunStep, OtherStep;
    if r :| RunStep(p, s, s', r) {
      RunStepKeepsTable(p, s, s', r);
    } else if OtherStep(p, s, s') {
      OtherStepKeepsTable(p, s, s');
    } else {
      ServerKeepsTable(s, s');
    }
  }

  /** In every run each file of the table is kept under its own id, and no proposal has two. */
  lemma {:induction false} TableWellKept(p: Proposal, run: seq<State>, n: nat)
    requires IsRun(p, run) && n < |run|
    ensures WellKept(run[n].table)
  {
    hide Next;
    if n > 0 {
      hide WellKept;
      TableWellKept(p, run, n - 1);
      StepKeepsTable(p, run[n - 1], run[n]);
    }
  }

  lemma RecoveredIff(p: Proposal, s: State, s': State, r: nat, q: Query, present: set<string>)
    requires StepRecover(p, s, s', r, q, present) && WellKept(s.table)
    ensures r in s'.runs && s'.runs[r].Ended?
    ensures var handle := s'.runs[r].handle;
      && (handle.Some? ==> handle.value in s'.table && s'.table[handle.value] == s.table[handle.value]
                           && Answers(s.table, handle.value, q, present) && q.expiresAt > s.now)
      && (handle.Some? <==> q.expiresAt > s.now && OneAnswers(s.table, q, present))
  {
    MatchMeaning(s.table, q, present, s.now);
    OneMatchIff(s.table, q, present, s.now);
    var handle := s'.runs[r].handle;
    hide WellKept, Answers, OneAnswers, Matches, Live;
    if handle.Some? { assert handle.value in MatchIds(Pruned(s.table, s.now), q, present); }
  }

  /** The handle a successful run prepared is in the table exactly if no other run prepared a file after it. */
  lemma SuccessKeepsHandleIff(p: Proposal, run: seq<State>, n: nat, r: nat)
    requires IsRun(p, run) && n < |run| && run[n].now < p.expiresAt
    requires r in run[n].handles && In(run[n], r, Ended(Some(run[n].handles[r]))) && run[n].handles[r] !in run[n].dragged
    ensures run[n].handles[r] in run[n].table <==> run[n].last == Some(r)
  {
    RunKeepsInv(p, run, n);
    var s := run[n];
    hide IsRun, PhasesInv, TokensInv, KeptInv, SuccessInv;
    assert r !in s.discarded;
  }

  // ---------------------------------------------------------------- a run whose handle is gone at success

  ghost predicate Reachable(p: Proposal, s: State) { exists run :: IsRun(p, run) && run[|run| - 1] == s }

  lemma OneStep(p: Proposal, s: State, s': State)
    requires Reachable(p, s) && Next(p, s, s')
    ensures Reachable(p, s')
  {
    hide Next;
    var run :| IsRun(p, run) && run[|run| - 1] == s;
    var longer := run + [s'];
    assert forall i :: 0 <= i < |longer| - 1 ==> Next(p, longer[i], longer[i + 1]) by {
      assert forall i :: 0 <= i < |run| ==> longer[i] == run[i];
    }
    assert IsRun(p, longer);
  }

  lemma ServerMoves(p: Proposal, s: State, s': State)
    requires Reachable(p, s) && ServerStep(s, s')
    ensures Reachable(p, s')
  {
    hide ServerStep, Reachable;
    OneStep(p, s, s');
  }

  lemma RunMoves(p: Proposal, s: State, s': State, r: nat)
    requires Reachable(p, s) && RunStep(p, s, s', r)
    ensures Reachable(p, s')
  {
    hide RunStep, Reachable;
    OneStep(p, s, s');
  }

  /** From any reachable state with a free claim, a new run is granted it and takes it up. */
  lemma TakesClaim(p: Proposal, s: State, r: nat, token: string) returns (s': State)
    requires Reachable(p, s) && Free(s) && r !in s.runs && token !in s.issued && s.now + 10 <= p.expiresAt
    ensures Reachable(p, s')
    ensures s' == s.(server := InProgress(token, s.now + 10), issued := s.issued + {token}, wire := s.wire + {Confirm(r)},
                     answers := s.answers + {(Confirm(r), Granted(token, s.now + 10))}, runs := s.runs[r := Claimed(token)])
  {
    hide Reachable;
    var a := Send(To(s, r, AwaitConfirm), Confirm(r));
    assert StepStart(s, a, r);
    RunMoves(p, s, a, r);
    var b := a.(server := InProgress(token, s.now + 10), issued := s.issued + {token}, answers := s.answers + {(Confirm(r), Granted(token, s.now + 10))});
    assert StepGrant(a, b, Confirm(r), token, 10);
    ServerMoves(p, a, b);
    s' := To(b, r, Claimed(token));
    assert StepClaim(p, b, s', r, token, s.now + 10);
    RunMoves(p, b, s', r);
    assert s'.runs == s.runs[r := Claimed(token)];
  }

  function FileOf(p: Proposal, id: string): PreparedFile { PreparedFile(id, "", "", "", None, Some(p.id), None, Some(p.expiresAt)) }

  lemma Prepares(p: Proposal, s: State, r: nat, token: string, id: string) returns (s': State)
    requires Reachable(p, s) && In(s, r, Claimed(token)) && id !in s.table && id !in s.handles.Values && id !in s.dragged
    ensures Reachable(p, s')
    ensures s' == s.(runs := s.runs[r := AwaitComplete(token)], wire := s.wire + {Complete(r, token)}, table := Inserted(s.table, FileOf(p, id), s.now),
                     handles := s.handles[r := id], claims := s.claims[r := token], last := Some(r))
  {
    hide Reachable, Inserted;
    s' := Send(To(s, r, AwaitComplete(token)), Complete(r, token)).(
            table := Inserted(s.table, FileOf(p, id), s.now), handles := s.handles[r := id], claims := s.claims[r := token], last := Some(r));
    assert StepPrepare(p, s, s', r, token, FileOf(p, id));
    RunMoves(p, s, s', r);
  }

  /**
     A slow first run, its claim long expired, prepares its file between the second run's file and the
     second run's success: the handle that success reports is in the table no more.
   */
  lemma SlowRunTakesHandle(p: Proposal) returns (s: State, handle: string)
    requires p.id != "" && p.expiresAt >= 20
    ensures Reachable(p, s) && In(s, 1, Ended(Some(handle)))
    ensures handle !in s.table && handle !in s.dragged && s.now < p.expiresAt
  {
    var s3 := BothClaim(p);
    hide Reachable, Inserted;
    var s4 := Prepares(p, s3, 1, "b", "h1");
    InsertedEntries(s3.table, FileOf(p, "h1"), s3.now);
    var s5 := Prepares(p, s4, 0, "a", "h0");
    InsertedEntries(s4.table, FileOf(p, "h0"), s4.now);
    assert "h1" !in s5.table by { assert SameProposal(FileOf(p, "h0"), FileOf(p, "h1")); }
    s := Completes(p, s5, 1, "b");
    handle := "h1";
  }

  /** The second run is granted a claim once the first run's has expired. */
  lemma BothClaim(p: Proposal) returns (s: State)
    requires p.id != "" && p.expiresAt >= 20
    ensures Reachable(p, s) && In(s, 0, Claimed("a")) && In(s, 1, Claimed("b"))
    ensures s.server == InProgress("b", 20) && s.now == 10 && s.handles == map[] && s.table == map[] && s.dragged == {}
  {
    var s0 := Begins(p);
    hide Reachable, IsRun;
    var s1 := TakesClaim(p, s0, 0, "a");
    var s2 := s1.(now := 10);
    assert StepTick(s1, s2, 10);
    assert Next(p, s1, s2);
    OneStep(p, s1, s2);
    s := TakesClaim(p, s2, 1, "b");
  }

  lemma Completes(p: Proposal, s: State, r: nat, token: string) returns (s': State)
    requires Reachable(p, s) && In(s, r, AwaitComplete(token)) && Complete(r, token) in s.wire && r in s.handles && s.now < p.expiresAt
    requires s.server.InProgress? && s.server.token == token
    ensures Reachable(p, s') && In(s', r, Ended(Some(s.handles[r]))) && s'.table == s.table && s'.now == s.now && s'.dragged == s.dragged
  {
    hide Reachable;
    var a := s.(server := PreparationConfirmed(token), answers := s.answers + {(Complete(r, token), IsConfirmed)});
    assert StepComplete(s, a, Complete(r, token));
    ServerMoves(p, s, a);
    s' := To(a, r, Ended(Some(s.handles[r])));
    assert StepSucceed(p, a, s', r, token);
    RunMoves(p, a, s', r);
  }

  // ---------------------------------------------------------------- what else is reached

  lemma Begins(p: Proposal) returns (s: State)
    requires p.id != ""
    ensures Reachable(p, s) && s == State(0, RequiresConfirmation, {}, {}, {}, {}, map[], map[], map[], None, {}, {}, map[])
  {
    s := State(0, RequiresConfirmation, {}, {}, {}, {}, map[], map[], map[], None, {}, {}, map[]);
    assert IsRun(p, [s]) && [s][|[s]| - 1] == s;
  }

  /** A proposal confirmed by another device has no handle here, so that it matters who confirmed it. */
  lemma ConfirmedElsewhereHasNone(p: Proposal) returns (s: State)
    requires p.id != ""
    ensures Reachable(p, s) && s.server == PreparationConfirmed("a") && "a" in s.foreign && s.table == map[]
  {
    var s0 := Begins(p);
    hide Reachable;
    var s1 := s0.(server := InProgress("a", 10), issued := {"a"}, foreign := {"a"});
    assert StepForeign(s0, s1, "a", 10) by { assert s0.issued + {"a"} == {"a"} && s0.foreign + {"a"} == {"a"}; }
    ServerMoves(p, s0, s1);
    s := s1.(server := PreparationConfirmed("a"));
    assert StepForeign(s1, s, "a", 10);
    ServerMoves(p, s1, s);
  }

  /** A run whose completion and probe got lost, and whose release was acknowledged, discards its handle, and the proposal is free again. */
  lemma FailedRunDiscards(p: Proposal) returns (s: State)
    requires p.id != "" && p.expiresAt >= 10
    ensures Reachable(p, s) && s.server == RequiresConfirmation && In(s, 0, Ended(None))
    ensures s.discarded == {0} && s.handles == map[0 := "h0"] && s.table == map[]
  {
    var s0 := Begins(p);
    hide Reachable, Inserted;
    var s1 := TakesClaim(p, s0, 0, "a");
    var s2 := Prepares(p, s1, 0, "a", "h0");
    assert s2.table - {"h0"} == map[] by { InsertedEntries(s1.table, FileOf(p, "h0"), s1.now); }
    s := Discards(p, s2, 0, "a");
  }

  /** A completion and a probe without an answer, and a release with one. */
  lemma Discards(p: Proposal, s: State, r: nat, token: string) returns (s': State)
    requires Reachable(p, s) && In(s, r, AwaitComplete(token)) && r in s.handles && s.server.InProgress? && s.server.token == token
    ensures Reachable(p, s') && s'.server == RequiresConfirmation && In(s', r, Ended(None))
    ensures s'.discarded == s.discarded + {r} && s'.handles == s.handles && s'.table == s.table - {s.handles[r]}
  {
    hide Reachable;
    var a := Send(To(s, r, AwaitProbe(token)), Probe(r));
    assert StepCompletionFails(s, a, r, token);
    RunMoves(p, s, a, r);
    var b := Send(To(a, r, AwaitRelease(token)), Release(r, token));
    assert StepProbeFails(a, b, r, token);
    RunMoves(p, a, b, r);
    var c := b.(server := RequiresConfirmation, answers := b.answers + {(Release(r, token), IsReleased)});
    assert StepRelease(b, c, Release(r, token));
    ServerMoves(p, b, c);
    s' := To(c, r, Ended(None)).(table := c.table - {c.handles[r]}, discarded := c.discarded + {r});
    assert StepDiscard(c, s', r, token);
    RunMoves(p, c, s', r);
  }
}
