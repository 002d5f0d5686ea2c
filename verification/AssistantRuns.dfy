/**
 Runs of the assistant's outbox: windows reserve, complete and reconcile requests in turn, and may crash
 after any write to storage. The clock never goes back.
 */
module AssistantRuns {
  import opened Wrappers
  import opened JsText
  import opened RequestIds
  import opened AssistantOutbox

  datatype State = State(now: int, store: Store)

  datatype Action =
    | ReserveRequest(text: string, turns: seq<Turn>, ready: bool, context: string)
    | CompleteRequest(request: Pending)
    | ReconcileHistory(turns: seq<Turn>)
    | ReadItem
    | ClearRequest(expected: string)
    | PassTime(ms: nat)

  /** The request an action writes a completion record for. */
  ghost function CompletedBy(s: State, a: Action): Option<Pending> {
    match a
    case CompleteRequest(request) => Some(request)
    case ReconcileHistory(turns) =>
      var active := ParsePending(s.store.pending, s.now);
      if active.Some? && Durable(turns, active.value) then active else None
    case _ => None
  }

  /** The storage after an action, or after the last write before the window crashed. */
  ghost predicate Step(s: State, a: Action, s': State) {
    match a
    case ReserveRequest(text, turns, ready, context) =>
      s'.now == s.now && s'.store in ReserveWrites(s.store, text, turns, ready, context, s.now)
    case CompleteRequest(request) =>
      IsUuid(request.requestId) && s'.now == s.now && s'.store in CompletionWrites(s.store, request, s.now, s.now)
    case ReconcileHistory(turns) =>
      var cleaned := CleanPending(s.store, s.now);
      && s'.now == s.now
      && ((s'.store == cleaned && CompletedBy(s, a) == None)
          || (CompletedBy(s, a).Some? && s'.store in CompletionWrites(cleaned, CompletedBy(s, a).value, s.now, s.now)))
    case ReadItem => s'.now == s.now && (s'.store == CleanPending(s.store, s.now) || s'.store == CleanCompleted(s.store, s.now))
    case ClearRequest(expected) => s'.now == s.now && s'.store == ClearPending(s.store, expected, s.now)
    case PassTime(ms) => s' == s.(now := s.now + ms)
  }

  ghost predicate IsRun(run: seq<State>, actions: seq<Action>) {
    |run| == |actions| + 1 && forall i :: 0 <= i < |actions| ==> Step(run[i], actions[i], run[i + 1])
  }

  /** Whether completing a request leaves the record that completing `p` leaves. */
  predicate SameRecord(r: Pending, p: Pending) { RecordOf(r, 0) == RecordOf(p, 0) }

  /** When `p` was last completed between two states of a run. */
  ghost function LastDone(run: seq<State>, actions: seq<Action>, i: nat, n: nat, p: Pending): Option<int>
    requires |run| == |actions| + 1 && i <= n < |run|
  {
    if n == i then None
    else match CompletedBy(run[n - 1], actions[n - 1])
      case Some(r) => if SameRecord(r, p) then Some(run[n - 1].now) else LastDone(run, actions, i, n - 1, p)
      case None => LastDone(run, actions, i, n - 1, p)
  }

  /** Until `p` is completed only requests of other ids are cleared; its record no clearing touches. */
  predicate Spares(a: Action, p: Pending, done: Option<int>) {
    a.ClearRequest? && done.None? ==> a.expected != "" && a.expected != p.requestId
  }

  /**
   From state i, where `p` is pending, to state n the outcome of `p` is open: its entry or, once completed,
   the record of its completion is live all the time; its entry is not cleared; and no other request is
   completed after it.
   */
  ghost predicate Open(run: seq<State>, actions: seq<Action>, i: nat, n: nat, p: Pending)
    requires |run| == |actions| + 1 && i <= n < |run|
  {
    if n == i then run[i].now > 0 && ParsePending(run[i].store.pending, run[i].now) == Some(p)
    else
      && Open(run, actions, i, n - 1, p)
      && Spares(actions[n - 1], p, LastDone(run, actions, i, n - 1, p))
      && (CompletedBy(run[n - 1], actions[n - 1]).Some? ==>
            var r := CompletedBy(run[n - 1], actions[n - 1]).value;
            SameRecord(r, p) || (r.requestId != p.requestId && LastDone(run, actions, i, n - 1, p).None?))
      && match LastDone(run, actions, i, n, p)
         case None => run[n].now <= p.createdAt + PENDING_REQUEST_TTL_MS
         case Some(t) => run[n].now <= t + RECENT_COMPLETION_TTL_MS
  }

  /** Until completed the entry is there as it was; from then on its record is. */
  ghost predicate Kept(s: State, p: Pending, done: Option<int>) {
    var active := ParsePending(s.store.pending, s.now);
    && s.now > 0 && IsPending(p)
    && (done.None? ==> active == Some(p))
    && (done.Some? ==> ParseCompleted(s.store.completed, s.now) == Some(RecordOf(p, done.value)))
    && (active.Some? && active.value.text == p.text && active.value.contextFingerprint == p.contextFingerprint ==>
          active.value.requestId == p.requestId)
    && NotEarly(s.store.pending, s.now)
  }

  /** The entry is not one of the future, which would become valid by waiting. */
  ghost predicate NotEarly(raw: Option<string>, now: int) {
    forall t :: ParsePending(raw, t).Some? ==> ParsePending(raw, t).value.createdAt <= now + CLOCK_SKEW_MS
  }

  lemma WrittenNotEarly(p: Pending, now: int)
    requires p.createdAt <= now + CLOCK_SKEW_MS
    ensures NotEarly(Some(PendingText(p)), now)
  {
    forall t ensures ParsePending(Some(PendingText(p)), t).Some? ==> ParsePending(Some(PendingText(p)), t).value == p {
      PendingReadsBack(p, t);
    }
  }

  lemma ParsedIsValid(raw: Option<string>, now: int)
    ensures ParsePending(raw, now).Some? ==> IsPending(ParsePending(raw, now).value) && PendingLive(ParsePending(raw, now).value.createdAt, now)
    ensures ParseCompleted(raw, now).Some? ==> now <= ParseCompleted(raw, now).value.completedAt + RECENT_COMPLETION_TTL_MS
  {
  }

  lemma CleanedReads(s: Store, now: int)
    ensures ParsePending(CleanPending(s, now).pending, now) == ParsePending(s.pending, now) && CleanPending(s, now).completed == s.completed
    ensures ParseCompleted(CleanCompleted(s, now).completed, now) == ParseCompleted(s.completed, now) && CleanCompleted(s, now).pending == s.pending
  {
  }

  lemma CleaningKeeps(s: State, s': State, p: Pending, done: Option<int>)
    requires Kept(s, p, done) && s'.now == s.now
    requires s'.store == CleanPending(s.store, s.now) || s'.store == CleanCompleted(s.store, s.now)
    ensures Kept(s', p, done)
  {
    CleanedReads(s.store, s.now);
    assert NotEarly(s'.store.pending, s'.now);
    hide NotEarly, ParsePending, ParseCompleted, CleanPending, CleanCompleted, IsPending, TextDigest;
  }

  /** A reservation gives the pending request, or else one made now, with the recovered id if the text's digest is on record. */
  lemma ReservedIs(s: State, text: string, turns: seq<Turn>, ready: bool, context: string, r: Pending)
    requires ReserveStored(s.store, text, turns, ready, context, s.now) == Success(r)
    ensures var active, recent := ParsePending(s.store.pending, s.now), ParseCompleted(s.store.completed, s.now);
      && (active.Some? ==> r == active.value)
      && (active.None? ==> r.createdAt == s.now && r.text == text && r.contextFingerprint == context)
      && (active.None? && recent.Some? && recent.value.textDigest == TextDigest(text) ==> r.requestId == recent.value.requestId)
  {
    hide ParsePending, ParseCompleted, TextDigest, MintedId, Trim;
  }

  lemma WriteKeeps(s: State, text: string, turns: seq<Turn>, ready: bool, context: string, r: Pending, p: Pending, done: Option<int>)
    requires Kept(s, p, done) && ReserveStored(s.store, text, turns, ready, context, s.now) == Success(r)
    ensures Kept(s.(store := WithPending(s.store, r)), p, done)
  {
    ReservedIs(s, text, turns, ready, context, r);
    ParsedIsValid(s.store.pending, s.now);
    PendingReadsBack(r, s.now);
    hide ReserveStored, NotEarly, ParsePending, ParseCompleted, PendingText, IsPending, TextDigest;
    WrittenNotEarly(r, s.now);
    var active := ParsePending(s.store.pending, s.now);
    if active.Some? {
      assert r == active.value;
    } else if r.text == p.text && r.contextFingerprint == p.contextFingerprint {
      assert r.requestId == p.requestId;
    }
  }

  lemma ReserveKeeps(s: State, a: Action, s': State, p: Pending, done: Option<int>)
    requires Kept(s, p, done) && a.ReserveRequest? && Step(s, a, s')
    ensures Kept(s', p, done)
  {
    var ReserveRequest(text, turns, ready, context) := a;
    var c := s.(store := CleanPending(s.store, s.now));
    var d := s.(store := CleanCompleted(c.store, s.now));
    CleaningKeeps(s, c, p, done);
    CleaningKeeps(c, d, p, done);
    CleanedReads(s.store, s.now);
    CleanedReads(c.store, s.now);
    var r := ReserveStored(s.store, text, turns, ready, context, s.now);
    hide Kept, ParsePending, ParseCompleted, CleanPending, CleanCompleted, WithPending, Reserve;
    assert ReserveStored(d.store, text, turns, ready, context, s.now) == r;
    if r.Success? { WriteKeeps(d, text, turns, ready, context, r.value, p, done); }
    assert s'.store == c.store || s'.store == d.store || (r.Success? && s'.store == WithPending(d.store, r.value));
  }

  lemma ClearReads(s: Store, expected: string, now: int)
    requires expected != ""
    ensures var active := ParsePending(s.pending, now);
      ParsePending(ClearPending(s, expected, now).pending, now) == if active.Some? && active.value.requestId != expected then active else None
    ensures ClearPending(s, expected, now).completed == s.completed
  {
  }

  lemma ClearKeeps(s: State, s': State, expected: string, p: Pending, done: Option<int>)
    requires Kept(s, p, done) && (done.None? ==> expected != "" && expected != p.requestId)
    requires s'.now == s.now && s'.store == ClearPending(s.store, expected, s.now)
    ensures Kept(s', p, done)
  {
    if expected != "" { ClearReads(s.store, expected, s.now); }
    assert s'.store.pending == s.store.pending || s'.store.pending == None;
    assert s'.store.completed == s.store.completed && NotEarly(None, s.now) && ParsePending(None, s.now) == None;
    hide NotEarly, ParsePending, ParseCompleted, ClearPending, IsPending, TextDigest;
  }

  /** A completion, cut off after either write. */
  lemma CompletionKeeps(s: State, s': State, store: Store, r: Pending, p: Pending, done: Option<int>)
    requires Kept(s, p, done) && IsUuid(r.requestId)
    requires store == s.store || store == CleanPending(s.store, s.now)
    requires s'.now == s.now && s'.store in CompletionWrites(store, r, s.now, s.now)
    requires SameRecord(r, p) || (r.requestId != p.requestId && done.None?)
    ensures Kept(s', p, if SameRecord(r, p) then Some(s.now) else done)
  {
    CleanedReads(s.store, s.now);
    ParsedIsValid(s'.store.pending, s.now);
    assert NotEarly(store.pending, s.now) && NotEarly(None, s.now);
    CompletedReadsBack(RecordOf(r, s.now), s.now);
    DigestIsFingerprint(p.text);
    var w := WithCompleted(store, r, s.now);
    assert r.requestId != "";
    ClearReads(w, r.requestId, s.now);
    assert RecordOf(p, s.now) == RecordOf(r, s.now) <==> SameRecord(r, p);
    assert IsCompleted(RecordOf(p, s.now)) by { hide IsUuid, IsFingerprint, Trim; }
    assert s'.store.pending == store.pending || s'.store.pending == None;
    hide NotEarly, ParsePending, ParseCompleted, CleanPending, ClearPending, CompletedText, IsPending, IsCompleted, TextDigest, PendingLive, IsUuid;
  }

  lemma OtherKeeps(s: State, a: Action, s': State, p: Pending, done: Option<int>)
    requires Kept(s, p, done) && Step(s, a, s') && (a.ReadItem? || a.PassTime? || a.ReconcileHistory?) && CompletedBy(s, a).None?
    requires if done.None? then s'.now <= p.createdAt + PENDING_REQUEST_TTL_MS else s'.now <= done.value + RECENT_COMPLETION_TTL_MS
    ensures Kept(s', p, done)
  {
    CleanedReads(s.store, s.now);
    if a.PassTime? {
      LaterParse(s.store.pending, s.now, s'.now);
      LaterParseCompleted(s.store.completed, s.now, s'.now);
    }
    ParsedIsValid(s'.store.pending, s'.now);
    ParsedIsValid(s.store.pending, s.now);
    assert NotEarly(s'.store.pending, s'.now);
    hide NotEarly, ParsePending, ParseCompleted, CleanPending, CleanCompleted, IsPending, TextDigest;
  }

  lemma LaterParse(raw: Option<string>, now: int, later: int)
    requires now <= later
    ensures ParsePending(raw, now).Some? ==>
              ParsePending(raw, later) == if later <= ParsePending(raw, now).value.createdAt + PENDING_REQUEST_TTL_MS then ParsePending(raw, now) else None
    ensures NotEarly(raw, now) && ParsePending(raw, later).Some? ==> ParsePending(raw, now) == ParsePending(raw, later)
  {
  }

  lemma LaterParseCompleted(raw: Option<string>, now: int, later: int)
    requires now <= later
    ensures ParseCompleted(raw, now).Some? ==>
              ParseCompleted(raw, later) == if later <= ParseCompleted(raw, now).value.completedAt + RECENT_COMPLETION_TTL_MS then ParseCompleted(raw, now) else None
  {
  }

  lemma {:induction false} OpenIsKept(run: seq<State>, actions: seq<Action>, i: nat, n: nat, p: Pending)
    requires IsRun(run, actions) && i <= n < |run| && Open(run, actions, i, n, p)
    ensures Kept(run[n], p, LastDone(run, actions, i, n, p))
  {
    hide ParsePending, ParseCompleted, Durable, CompletionWrites, ReserveWrites, CleanPending, CleanCompleted, ClearPending, Step;
    if n == i {
      FirstKept(run[n], p);
    } else {
      OpenIsKept(run, actions, i, n - 1, p);
      var s, a, s' := run[n - 1], actions[n - 1], run[n - 1 + 1];
      assert Step(s, a, s');
      StepKeeps(s, a, s', p, LastDone(run, actions, i, n - 1, p), LastDone(run, actions, i, n, p));
    }
  }

  lemma FirstKept(s: State, p: Pending)
    requires s.now > 0 && ParsePending(s.store.pending, s.now) == Some(p)
    ensures Kept(s, p, None)
  {
    ParsedIsValid(s.store.pending, s.now);
  }

  lemma StepKeeps(s: State, a: Action, s': State, p: Pending, done: Option<int>, done': Option<int>)
    requires Kept(s, p, done) && Step(s, a, s') && Spares(a, p, done)
    requires CompletedBy(s, a).Some? ==>
               var r := CompletedBy(s, a).value; SameRecord(r, p) || (r.requestId != p.requestId && done.None?)
    requires done' == if CompletedBy(s, a).Some? && SameRecord(CompletedBy(s, a).value, p) then Some(s.now) else done
    requires if done'.None? then s'.now <= p.createdAt + PENDING_REQUEST_TTL_MS else s'.now <= done'.value + RECENT_COMPLETION_TTL_MS
    ensures Kept(s', p, done')
  {
    ParsedIsValid(s.store.pending, s.now);
    hide Kept, ParsePending, ParseCompleted, Durable, CompletionWrites, ReserveWrites, CleanPending, CleanCompleted, ClearPending, SameRecord, IsUuid;
    match a {
      case ReserveRequest(_, _, _, _) => ReserveKeeps(s, a, s', p, done);
      case CompleteRequest(request) => CompletionKeeps(s, s', s.store, request, p, done);
      case ReconcileHistory(turns) =>
        if CompletedBy(s, a).Some? {
          CompletionKeeps(s, s', CleanPending(s.store, s.now), CompletedBy(s, a).value, p, done);
        } else {
          OtherKeeps(s, a, s', p, done);
        }
      case ReadItem => OtherKeeps(s, a, s', p, done);
      case ClearRequest(expected) => ClearKeeps(s, s', expected, p, done);
      case PassTime(_) => OtherKeeps(s, a, s', p, done);
    }
  }

  // ---------------------------------------------------------------- the properties of runs

  /**
   Whatever crashes in between, while the outcome of a pending request is open, reserving its text in its
   context again gives its request id, or is refused because another request is pending.
   */
  lemma SameIdWhileOpen(run: seq<State>, actions: seq<Action>, i: nat, n: nat, p: Pending, turns: seq<Turn>, ready: bool)
    requires IsRun(run, actions) && i <= n < |run| && Open(run, actions, i, n, p)
    ensures match ReserveStored(run[n].store, p.text, turns, ready, p.contextFingerprint, run[n].now)
            case Success(r) => r.requestId == p.requestId && r.text == p.text && r.contextFingerprint == p.contextFingerprint
            case Failure(e) => e == RequestConflict || e == ContextChanged
  {
    OpenIsKept(run, actions, i, n, p);
    hide IsRun, Open, NotEarly, ParsePending, ParseCompleted, TextDigest, MintedId;
  }

  /** Until it is completed a live pending request is never replaced: it stays as it is, and any other is refused. */
  lemma PendingNeverReplaced(run: seq<State>, actions: seq<Action>, i: nat, n: nat, p: Pending, text: string, turns: seq<Turn>, ready: bool, context: string)
    requires IsRun(run, actions) && i <= n < |run| && Open(run, actions, i, n, p) && LastDone(run, actions, i, n, p).None?
    ensures ParsePending(run[n].store.pending, run[n].now) == Some(p)
    ensures var r := ReserveStored(run[n].store, text, turns, ready, context, run[n].now);
      r.Success? <==> text == p.text && context == p.contextFingerprint
    ensures ReserveStored(run[n].store, p.text, turns, ready, p.contextFingerprint, run[n].now) == Success(p)
  {
    OpenIsKept(run, actions, i, n, p);
    hide IsRun, Open, NotEarly, ParsePending, ParseCompleted, TextDigest, MintedId;
  }

  /** After completion, for thirty seconds and if nothing else is pending, repeating the text recovers the id. */
  lemma CompletedIsRecovered(run: seq<State>, actions: seq<Action>, i: nat, n: nat, p: Pending, turns: seq<Turn>, ready: bool)
    requires IsRun(run, actions) && i <= n < |run| && Open(run, actions, i, n, p) && LastDone(run, actions, i, n, p).Some?
    requires ParsePending(run[n].store.pending, run[n].now).None?
    ensures var r := ReserveStored(run[n].store, p.text, turns, ready, p.contextFingerprint, run[n].now);
      r.Success? && r.value.requestId == p.requestId
  {
    OpenIsKept(run, actions, i, n, p);
    hide IsRun, Open, NotEarly, ParsePending, ParseCompleted, TextDigest, MintedId;
  }
}
