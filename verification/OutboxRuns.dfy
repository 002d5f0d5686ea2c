/**
 Whole runs of the WhatsApp outbox: captures arrive at every await of a flush, requests and replies get
 lost, the program crashes and starts again on the store it left.

 A step is what runs between two awaits. The clock never goes back, and a timer fires at or after its due
 time. Of the backend it is assumed that it acknowledges a message only once it has stored it.
 */
module OutboxRuns {
  import opened Wrappers
  import opened JsText
  import opened WhatsappOutbox
  import opened Powers

  /** What happened, in order. A push carries the company of its header. */
  datatype Event =
    | Captured(message: Message)
    | Pushed(id: string, company: string, message: Message)
    | Acked(id: string, message: Message)
    | FailedAt(id: string, time: int)

  /** The rest of a flush's batch; its first entry may be on the wire. */
  datatype Flight = Flight(remaining: seq<Entry>, inFlight: bool)

  datatype State = State(now: int, up: bool, outbox: Outbox, flight: Option<Flight>, events: seq<Event>, backend: set<Message>)

  /** The program comes up on the store of an earlier run that had nothing pending. */
  ghost predicate Init(s: State) {
    !s.up && s.outbox == Outbox([], None, false) && s.flight == None && s.events == [] && s.backend == {}
  }

  // ---------------------------------------------------------------- steps

  ghost predicate StepStart(s: State, s': State) {
    && !s.up
    && s' == s.(up := true, outbox := Schedule(s.outbox, None, s.now))
  }

  ghost predicate StepCrash(s: State, s': State) {
    s' == s.(up := false, outbox := Outbox(s.outbox.items, None, false), flight := None)
  }

  ghost predicate StepCapture(s: State, s': State, m: Message) {
    && s.up
    && s' == s.(outbox := Enqueue(s.outbox, m, s.now), events := s.events + [Captured(m)])
  }

  /** The timer's callback; a flush under way turns a second one away. */
  ghost predicate StepTimer(s: State, s': State) {
    && s.up && s.outbox.timer.Some? && s.outbox.timer.value <= s.now
    && s' == if s.outbox.flushing then s.(outbox := s.outbox.(timer := None))
             else s.(outbox := s.outbox.(timer := None, flushing := true), flight := Some(Flight(DueBatch(s.outbox.items, s.now), false)))
  }

  ghost predicate Next1(s: State) { s.flight.Some? && s.flight.value.remaining != [] && !s.flight.value.inFlight }

  ghost predicate OnWire(s: State) { s.flight.Some? && s.flight.value.remaining != [] && s.flight.value.inFlight }

  ghost function Head(s: State): Entry
    requires Next1(s) || OnWire(s)
  {
    s.flight.value.remaining[0]
  }

  ghost function Rest(s: State): Option<Flight>
    requires Next1(s) || OnWire(s)
  {
    Some(Flight(s.flight.value.remaining[1..], false))
  }

  ghost predicate StepPush(s: State, s': State) {
    && Next1(s) && Deliverable(Head(s).message)
    && s' == s.(flight := Some(s.flight.value.(inFlight := true)),
                events := s.events + [Pushed(Head(s).id, Trim(Head(s).message.company.value), Head(s).message)])
  }

  /** Before the request: no session, no company, another company than the payload's, or an unreadable payload. */
  ghost predicate StepRefuse(s: State, s': State, error: string) {
    && Next1(s)
    && s' == s.(outbox := s.outbox.(items := MarkFailure(s.outbox.items, Head(s).id, s.now, error)), flight := Rest(s),
                events := s.events + [FailedAt(Head(s).id, s.now)])
  }

  /** The backend stores a message some push carried, however late and whatever became of the push. */
  ghost predicate StepStore(s: State, s': State, i: nat) {
    && i < |s.events| && s.events[i].Pushed?
    && s' == s.(backend := s.backend + {s.events[i].message})
  }

  ghost predicate StepAck(s: State, s': State) {
    && OnWire(s) && Head(s).message in s.backend
    && s' == s.(outbox := s.outbox.(items := Without(s.outbox.items, Head(s).id)), flight := Rest(s),
                events := s.events + [Acked(Head(s).id, Head(s).message)])
  }

  /** An error reply, an error envelope, a timeout or a lost reply, stored by the backend or not. */
  ghost predicate StepFail(s: State, s': State, error: string) {
    && OnWire(s)
    && s' == s.(outbox := s.outbox.(items := MarkFailure(s.outbox.items, Head(s).id, s.now, error)), flight := Rest(s),
                events := s.events + [FailedAt(Head(s).id, s.now)])
  }

  ghost predicate StepEnd(s: State, s': State) {
    && s.flight.Some? && s.flight.value.remaining == []
    && s' == s.(outbox := Schedule(s.outbox.(flushing := false), None, s.now), flight := None)
  }

  ghost predicate StepTick(s: State, s': State, ms: nat) { s' == s.(now := s.now + ms) }

  ghost predicate Next(s: State, s': State) {
    || StepStart(s, s')
    || StepCrash(s, s')
    || (exists m :: StepCapture(s, s', m))
    || StepTimer(s, s')
    || StepPush(s, s')
    || (exists error :: StepRefuse(s, s', error))
    || (exists i :: StepStore(s, s', i))
    || StepAck(s, s')
    || (exists error :: StepFail(s, s', error))
    || StepEnd(s, s')
    || (exists ms :: StepTick(s, s', ms))
  }

  ghost predicate IsRun(run: seq<State>) {
    && run != [] && Init(run[0])
    && forall i :: 0 <= i < |run| - 1 ==> Next(run[i], run[i + 1])
  }

  // ---------------------------------------------------------------- the invariant

  ghost predicate IsAck(e: Event, id: string) { e.Acked? && e.id == id }

  ghost predicate IsCapture(e: Event, id: string) { e.Captured? && IdOf(e.message) == id }

  ghost predicate AckedFrom(events: seq<Event>, i: int, id: string) {
    exists k :: 0 <= k && i <= k < |events| && IsAck(events[k], id)
  }

  /** The message was captured, and its id not acknowledged since. */
  ghost predicate CapturedSince(events: seq<Event>, m: Message) {
    exists i :: 0 <= i < |events| && events[i] == Captured(m) && !AckedFrom(events, i, IdOf(m))
  }

  ghost predicate StoreInv(s: State) {
    && DistinctIds(s.outbox.items)
    && forall e :: e in s.outbox.items ==> e.id == IdOf(e.message) && e.nextAttemptAt <= s.now + RETRY_MAX_MS && CapturedSince(s.events, e.message)
  }

  /** Every captured id is pending or was acknowledged later. */
  ghost predicate Conserved(s: State) {
    forall i :: 0 <= i < |s.events| && s.events[i].Captured? ==>
      Pending(s.outbox.items, IdOf(s.events[i].message)) || AckedFrom(s.events, i, IdOf(s.events[i].message))
  }

  ghost predicate CapturedBefore(events: seq<Event>, n: int, m: Message) { exists i :: 0 <= i < n && i < |events| && events[i] == Captured(m) }

  /** A push goes out under the company its message was captured under. */
  ghost predicate PushesBound(s: State) {
    forall i :: 0 <= i < |s.events| && s.events[i].Pushed? ==>
      && Deliverable(s.events[i].message)
      && s.events[i].message.company == Some(s.events[i].company)
      && s.events[i].id == IdOf(s.events[i].message)
      && CapturedBefore(s.events, i, s.events[i].message)
  }

  ghost predicate AcksReal(s: State) {
    && (forall m :: m in s.backend ==> Deliverable(m))
    && forall i :: 0 <= i < |s.events| && s.events[i].Acked? ==> s.events[i].message in s.backend && s.events[i].id == IdOf(s.events[i].message)
  }

  ghost predicate RecapturedBetween(events: seq<Event>, i: int, k: int, id: string) {
    exists j :: i < j < k && 0 <= j < |events| && IsCapture(events[j], id)
  }

  /** After an acknowledgement an id is pushed again only if it was captured again. */
  ghost predicate NoResend(s: State) {
    forall i, k :: 0 <= i < k < |s.events| && s.events[i].Acked? && s.events[k].Pushed? && s.events[i].id == s.events[k].id ==>
      RecapturedBetween(s.events, i, k, s.events[i].id)
  }

  ghost predicate FlightInv(s: State) {
    && (s.outbox.flushing <==> s.flight.Some?)
    && (s.flight.Some? ==> s.up && DistinctIds(s.flight.value.remaining)
                           && (OnWire(s) ==> Deliverable(Head(s).message))
                           && forall e :: e in s.flight.value.remaining ==> e in s.outbox.items && e.nextAttemptAt <= s.now)
  }

  /** When an id failed since it was last acknowledged. */
  function FailuresOf(events: seq<Event>, id: string): seq<int> {
    if events == [] then []
    else
      var earlier, x := FailuresOf(events[..|events| - 1], id), events[|events| - 1];
      if x.FailedAt? && x.id == id then earlier + [x.time]
      else if x.Acked? && x.id == id then []
      else earlier
  }

  /** The attempts counted are the failures, and the next attempt is the backoff away from the last of them. */
  ghost predicate BackedOff(e: Entry, failures: seq<int>) {
    && e.attemptCount == |failures|
    && (failures == [] ==> e.nextAttemptAt == e.createdAt)
    && (failures != [] ==> e.nextAttemptAt == failures[|failures| - 1] + Min(300000, 2000 * Pow2(|failures| - 1)))
  }

  ghost predicate BackoffInv(s: State) {
    && (forall e :: e in s.outbox.items ==> BackedOff(e, FailuresOf(s.events, e.id)))
    && forall id :: !Pending(s.outbox.items, id) ==> FailuresOf(s.events, id) == []
  }

  ghost predicate Armed(s: State) {
    && (!s.up ==> s.outbox.timer == None)
    && (s.up && s.outbox.items != [] && s.flight.None? ==>
          s.outbox.timer.Some? && s.outbox.timer.value <= Max(s.now, Earliest(s.outbox.items)))
  }

  ghost predicate Inv(s: State) {
    StoreInv(s) && Conserved(s) && PushesBound(s) && AcksReal(s) && NoResend(s) && FlightInv(s) && Armed(s)
  }

  // ---------------------------------------------------------------- operations on the store

  lemma {:induction false} WithoutMembers(items: seq<Entry>, id: string)
    ensures forall e :: e in Without(items, id) <==> e in items && e.id != id
  {
    if items != [] { WithoutMembers(items[1..], id); }
  }

  lemma {:induction false} WithoutDistinct(items: seq<Entry>, id: string)
    requires DistinctIds(items)
    ensures DistinctIds(Without(items, id))
  {
    if items != [] {
      TailDistinct(items);
      WithoutDistinct(items[1..], id);
      WithoutMembers(items[1..], id);
      if items[0].id != id { FirstDistinct(items[0], Without(items[1..], id)); }
    }
  }

  lemma MarkMembers(items: seq<Entry>, id: string, now: int, error: string)
    ensures var marked := MarkFailure(items, id, now, error);
      && (DistinctIds(items) ==> DistinctIds(marked))
      && (forall e :: e in items && e.id != id ==> e in marked)
      && (forall id' :: Pending(items, id') ==> Pending(marked, id'))
      && (forall e :: e in marked ==> exists e0 :: e0 in items && e0.message == e.message && e0.id == e.id && (e == e0 || e.nextAttemptAt <= now + RETRY_MAX_MS))
  {
    var marked := MarkFailure(items, id, now, error);
    assert forall i :: 0 <= i < |items| ==> marked[i].id == items[i].id && marked[i].message == items[i].message;
    forall e | e in marked
      ensures exists e0 :: e0 in items && e0.message == e.message && e0.id == e.id && (e == e0 || e.nextAttemptAt <= now + RETRY_MAX_MS)
    {
      var i :| 0 <= i < |marked| && marked[i] == e;
      RetryDelayLaw(items[i].attemptCount + 1);
      assert items[i] in items;
    }
    forall e | e in items
      ensures (e.id != id ==> e in marked) && Pending(marked, e.id)
    {
      var i :| 0 <= i < |items| && items[i] == e;
      assert marked[i] in marked;
    }
  }

  // ---------------------------------------------------------------- the log grows

  lemma LogGrows(events: seq<Event>, e: Event)
    ensures forall i, id :: AckedFrom(events, i, id) ==> AckedFrom(events + [e], i, id)
    ensures forall i, id :: AckedFrom(events + [e], i, id) ==> AckedFrom(events, i, id) || IsAck(e, id)
    ensures forall m :: CapturedSince(events, m) && !IsAck(e, IdOf(m)) ==> CapturedSince(events + [e], m)
    ensures forall n, m :: CapturedBefore(events, n, m) ==> CapturedBefore(events + [e], n, m)
    ensures forall i, k, id :: RecapturedBetween(events, i, k, id) ==> RecapturedBetween(events + [e], i, k, id)
  {
    var log := events + [e];
    assert forall k :: 0 <= k < |events| ==> log[k] == events[k];
    forall i, id | AckedFrom(events, i, id) ensures AckedFrom(log, i, id) {
      var k :| 0 <= k && i <= k < |events| && IsAck(events[k], id);
      assert IsAck(log[k], id);
    }
    forall i, k, id | RecapturedBetween(events, i, k, id) ensures RecapturedBetween(log, i, k, id) {
      var j :| i < j < k && 0 <= j < |events| && IsCapture(events[j], id);
      assert IsCapture(log[j], id);
    }
  }

  // ---------------------------------------------------------------- every step keeps the invariant

  /** Steps that log nothing: the store keeps its ids and messages, the timer is armed where it has to be. */
  lemma QuietStep(s: State, s': State)
    requires Inv(s) && s'.events == s.events && s.backend <= s'.backend && s.now <= s'.now
    requires forall m :: m in s'.backend ==> Deliverable(m)
    requires DistinctIds(s'.outbox.items) && FlightInv(s') && Armed(s')
    requires forall id :: Pending(s.outbox.items, id) ==> Pending(s'.outbox.items, id)
    requires forall e :: e in s'.outbox.items ==>
               exists e0 :: e0 in s.outbox.items && e0.message == e.message && e0.id == e.id && (e == e0 || e.nextAttemptAt <= s'.now + RETRY_MAX_MS)
    ensures Inv(s')
  {
    hide IdOf, DistinctIds, Earliest, FlightInv, Armed, CapturedSince, AckedFrom, CapturedBefore, RecapturedBetween;
  }

  lemma SameStoreStep(s: State, s': State)
    requires Inv(s) && s'.events == s.events && s.backend <= s'.backend && s.now <= s'.now
    requires forall m :: m in s'.backend ==> Deliverable(m)
    requires s'.outbox.items == s.outbox.items && FlightInv(s') && Armed(s')
    ensures Inv(s')
  {
    hide IdOf, DistinctIds, Earliest, FlightInv, Armed;
    QuietStep(s, s');
  }

  lemma QuietSteps(s: State, s': State)
    requires Inv(s)
    requires || StepStart(s, s') || StepCrash(s, s') || StepTimer(s, s') || StepEnd(s, s')
             || (exists i :: StepStore(s, s', i)) || (exists ms :: StepTick(s, s', ms))
    ensures Inv(s')
  {
    if StepTimer(s, s') {
      BatchIsOldestDue(s.outbox.items, s.now);
      BatchDistinct(s.outbox.items, s.now);
    }
    hide IdOf, DistinctIds, Earliest, DueBatch, CapturedSince, AckedFrom, CapturedBefore, RecapturedBetween;
    SameStoreStep(s, s');
  }

  /** One more event: what the log says of pushes and acknowledgements stays true if it is true of the new event. */
  lemma LoggingStep(s: State, s': State, x: Event)
    requires PushesBound(s) && AcksReal(s) && NoResend(s)
    requires s'.events == s.events + [x] && s'.backend == s.backend
    requires x.Pushed? ==> Deliverable(x.message) && x.message.company == Some(x.company) && x.id == IdOf(x.message) && CapturedSince(s.events, x.message)
    requires x.Acked? ==> x.message in s.backend && x.id == IdOf(x.message)
    ensures PushesBound(s') && AcksReal(s') && NoResend(s')
  {
    assert s'.events[|s.events|] == x && forall i :: 0 <= i < |s.events| ==> s'.events[i] == s.events[i];
    PushesStayBound(s, s', x);
    NothingResent(s, s', x);
    hide PushesBound, NoResend, IdOf, Deliverable, CapturedSince;
  }

  lemma PushesStayBound(s: State, s': State, x: Event)
    requires PushesBound(s) && s'.events == s.events + [x]
    requires x.Pushed? ==> Deliverable(x.message) && x.message.company == Some(x.company) && x.id == IdOf(x.message) && CapturedSince(s.events, x.message)
    ensures PushesBound(s')
  {
    var n := |s.events|;
    assert s'.events[n] == x && forall i :: 0 <= i < n ==> s'.events[i] == s.events[i];
    hide IdOf, Deliverable, AckedFrom;
    if x.Pushed? {
      var j :| 0 <= j < n && s.events[j] == Captured(x.message) && !AckedFrom(s.events, j, IdOf(x.message));
      assert s'.events[j] == Captured(x.message);
    }
    forall i | 0 <= i < n && s.events[i].Pushed? ensures CapturedBefore(s'.events, i, s.events[i].message) {
      var j :| 0 <= j < i && s.events[j] == Captured(s.events[i].message);
      assert s'.events[j] == s.events[j];
    }
  }

  lemma NothingResent(s: State, s': State, x: Event)
    requires NoResend(s) && s'.events == s.events + [x]
    requires x.Pushed? ==> x.id == IdOf(x.message) && CapturedSince(s.events, x.message)
    ensures NoResend(s')
  {
    var n := |s.events|;
    assert s'.events[n] == x && forall i :: 0 <= i < n ==> s'.events[i] == s.events[i];
    hide IdOf;
    forall i, k | 0 <= i < k < |s'.events| && s'.events[i].Acked? && s'.events[k].Pushed? && s'.events[i].id == s'.events[k].id
      ensures RecapturedBetween(s'.events, i, k, s'.events[i].id)
    {
      var id := s'.events[i].id;
      if k < n {
        assert RecapturedBetween(s.events, i, k, id);
        var j :| i < j < k && 0 <= j < n && IsCapture(s.events[j], id);
        assert IsCapture(s'.events[j], id);
      } else {
        var j :| 0 <= j < n && s.events[j] == Captured(x.message) && !AckedFrom(s.events, j, IdOf(x.message));
        assert IsAck(s.events[i], id);
        assert IsCapture(s'.events[j], id);
      }
    }
  }

  /** What a failed attempt leaves: the same ids and messages, the next attempt at most five minutes away. */
  lemma FailKeepsStore(s: State, s': State, error: string)
    requires StoreInv(s) && Conserved(s) && (StepRefuse(s, s', error) || StepFail(s, s', error))
    ensures StoreInv(s') && Conserved(s')
  {
    var items, x := s.outbox.items, FailedAt(Head(s).id, s.now);
    MarkMembers(items, Head(s).id, s.now, error);
    LogGrows(s.events, x);
    assert forall i :: 0 <= i < |s.events| ==> s'.events[i] == s.events[i];
    hide IdOf, DistinctIds, Earliest, MarkFailure, CapturedSince, AckedFrom;
  }

  lemma FailKeepsFlight(s: State, s': State, error: string)
    requires DistinctIds(s.outbox.items) && FlightInv(s) && Armed(s) && (StepRefuse(s, s', error) || StepFail(s, s', error))
    ensures FlightInv(s') && Armed(s')
  {
    MarkMembers(s.outbox.items, Head(s).id, s.now, error);
    TailDistinct(s.flight.value.remaining);
    hide MarkFailure, Earliest, Deliverable;
  }

  lemma FailingSteps(s: State, s': State, error: string)
    requires Inv(s) && (StepRefuse(s, s', error) || StepFail(s, s', error))
    ensures Inv(s')
  {
    FailKeepsStore(s, s', error);
    FailKeepsFlight(s, s', error);
    LoggingStep(s, s', FailedAt(Head(s).id, s.now));
    hide IdOf, StoreInv, Conserved, FlightInv, Armed, PushesBound, AcksReal, NoResend;
  }

  lemma CaptureKeepsStore(s: State, s': State, m: Message)
    requires StoreInv(s) && Conserved(s) && StepCapture(s, s', m)
    ensures StoreInv(s') && Conserved(s')
    ensures forall e :: e in s.outbox.items ==> e in s'.outbox.items
  {
    LogGrows(s.events, Captured(m));
    var items := s.outbox.items;
    var n := |s.events|;
    assert s'.events[n] == Captured(m) && forall i :: 0 <= i < n ==> s'.events[i] == s.events[i];
    assert CapturedSince(s'.events, m) by { assert !AckedFrom(s'.events, n, IdOf(m)); }
    var e := Entry(IdOf(m), m, s.now, 0, s.now, None);
    if Pending(items, e.id) {
      assert s'.outbox.items == items;
    } else {
      assert s'.outbox.items == items + [e];
      assert forall i :: 0 <= i < |items| ==> items[i] in items;
      assert e in s'.outbox.items;
    }
    hide IdOf, CapturedSince, AckedFrom, Enqueue;
    assert Pending(s'.outbox.items, e.id);
  }

  lemma CaptureStep(s: State, s': State, m: Message)
    requires Inv(s) && StepCapture(s, s', m)
    ensures Inv(s')
  {
    CaptureKeepsStore(s, s', m);
    LoggingStep(s, s', Captured(m));
    hide IdOf, StoreInv, Conserved, PushesBound, AcksReal, NoResend, DistinctIds, Pending, Earliest;
  }

  lemma PushStep(s: State, s': State)
    requires Inv(s) && StepPush(s, s')
    ensures Inv(s')
  {
    var e, x := Head(s), s'.events[|s.events|];
    assert e in s.outbox.items;
    LoggingStep(s, s', x);
    LogGrows(s.events, x);
    assert forall i :: 0 <= i < |s.events| ==> s'.events[i] == s.events[i];
    hide IdOf, CapturedSince, AckedFrom, PushesBound, AcksReal, NoResend, DistinctIds, Pending, Earliest, Trim;
  }

  lemma AckKeepsStore(s: State, s': State)
    requires StoreInv(s) && Conserved(s) && FlightInv(s) && StepAck(s, s')
    ensures StoreInv(s') && Conserved(s') && FlightInv(s')
  {
    var e, items := Head(s), s.outbox.items;
    assert e in items;
    LogGrows(s.events, Acked(e.id, e.message));
    assert forall i :: 0 <= i < |s.events| ==> s'.events[i] == s.events[i];
    assert IsAck(s'.events[|s.events|], e.id);
    WithoutMembers(items, e.id);
    WithoutDistinct(items, e.id);
    TailDistinct(s.flight.value.remaining);
    hide IdOf, CapturedSince, DistinctIds, Without;
    forall i | 0 <= i < |s'.events| && s'.events[i].Captured?
      ensures Pending(s'.outbox.items, IdOf(s'.events[i].message)) || AckedFrom(s'.events, i, IdOf(s'.events[i].message))
    {
      var id := IdOf(s'.events[i].message);
      assert s'.events[i] == s.events[i];
      assert id == e.id ==> AckedFrom(s'.events, i, id);
      assert id != e.id && Pending(items, id) ==> Pending(s'.outbox.items, id);
    }
  }

  lemma AckStep(s: State, s': State)
    requires Inv(s) && StepAck(s, s')
    ensures Inv(s')
  {
    assert Head(s) in s.outbox.items;
    AckKeepsStore(s, s');
    LoggingStep(s, s', Acked(Head(s).id, Head(s).message));
    hide IdOf, StoreInv, Conserved, PushesBound, AcksReal, NoResend, DistinctIds, Pending, Earliest;
  }

  lemma NextKeepsInv(s: State, s': State)
    requires Inv(s) && Next(s, s')
    ensures Inv(s')
  {
    hide Inv, StepStart, StepCrash, StepCapture, StepTimer, StepPush, StepRefuse, StepStore, StepAck, StepFail, StepEnd, StepTick;
    if m :| StepCapture(s, s', m) {
      CaptureStep(s, s', m);
    } else if StepPush(s, s') {
      PushStep(s, s');
    } else if StepAck(s, s') {
      AckStep(s, s');
    } else if error :| StepRefuse(s, s', error) {
      FailingSteps(s, s', error);
    } else if error :| StepFail(s, s', error) {
      FailingSteps(s, s', error);
    } else {
      QuietSteps(s, s');
    }
  }

  lemma {:induction false} RunKeepsInv(run: seq<State>, n: nat)
    requires IsRun(run) && n < |run|
    ensures Inv(run[n])
  {
    if n > 0 {
      RunKeepsInv(run, n - 1);
      assert Next(run[n - 1], run[n - 1 + 1]);
      NextKeepsInv(run[n - 1], run[n]);
    }
  }

  // ---------------------------------------------------------------- the properties of whole runs

  ghost predicate PendingOnce(items: seq<Entry>, id: string) {
    exists a :: 0 <= a < |items| && items[a].id == id && forall b :: 0 <= b < |items| && b != a ==> items[b].id != id
  }

  /** After an event, an id was acknowledged by a backend that has stored a message of that id. */
  ghost predicate StoredAfter(s: State, i: int, id: string) {
    exists k :: i < k < |s.events| && 0 <= k && s.events[k].Acked? && s.events[k].id == id
                && s.events[k].message in s.backend && IdOf(s.events[k].message) == id
  }

  /** Conservation: a captured message id is pending exactly once, or was acknowledged after the capture. */
  lemma NothingLost(run: seq<State>, n: nat, i: nat)
    requires IsRun(run) && n < |run|
    requires i < |run[n].events| && run[n].events[i].Captured?
    ensures var id := IdOf(run[n].events[i].message);
      PendingOnce(run[n].outbox.items, id) || StoredAfter(run[n], i, id)
  {
    RunKeepsInv(run, n);
    hide IsRun;
    ConservedState(run[n], i);
  }

  lemma ConservedState(s: State, i: nat)
    requires Inv(s) && i < |s.events| && s.events[i].Captured?
    ensures var id := IdOf(s.events[i].message); PendingOnce(s.outbox.items, id) || StoredAfter(s, i, id)
  {
    var id := IdOf(s.events[i].message);
    hide IdOf, CapturedSince, NoResend, PushesBound, FlightInv, Armed;
    if Pending(s.outbox.items, id) {
      var e :| e in s.outbox.items && e.id == id;
      var a :| 0 <= a < |s.outbox.items| && s.outbox.items[a] == e;
      DistinctAt(s.outbox.items, a);
    } else {
      var k :| 0 <= k && i <= k < |s.events| && IsAck(s.events[k], id);
      assert i < k;
    }
  }

  lemma DistinctAt(items: seq<Entry>, a: nat)
    requires DistinctIds(items) && a < |items|
    ensures forall b :: 0 <= b < |items| && b != a ==> items[b].id != items[a].id
  {
  }

  /** Every push carries a captured message, under the company selected when it was captured. */
  lemma PushedUnderItsCompany(run: seq<State>, n: nat, i: nat)
    requires IsRun(run) && n < |run|
    requires i < |run[n].events| && run[n].events[i].Pushed?
    ensures var events := run[n].events;
      && events[i].message.company == Some(events[i].company)
      && exists j :: 0 <= j < i && events[j] == Captured(events[i].message)
  {
    RunKeepsInv(run, n);
  }

  /** An acknowledged id is pushed again only after it was captured again. */
  lemma AckedIsNotResent(run: seq<State>, n: nat, i: nat, k: nat)
    requires IsRun(run) && n < |run|
    requires i < k < |run[n].events| && run[n].events[i].Acked? && run[n].events[k].Pushed? && run[n].events[i].id == run[n].events[k].id
    ensures exists j :: i < j < k && run[n].events[j].Captured? && IdOf(run[n].events[j].message) == run[n].events[i].id
  {
    RunKeepsInv(run, n);
    hide IdOf;
    var s := run[n];
    assert RecapturedBetween(s.events, i, k, s.events[i].id);
    var j :| i < j < k && 0 <= j < |s.events| && IsCapture(s.events[j], s.events[i].id);
  }

  /**
     Liveness: while the program is up, anything pending has a flush under way or a timer armed no later
     than the larger of now and its next attempt, and no next attempt is more than five minutes away.
   */
  lemma PendingIsAttempted(run: seq<State>, n: nat, e: Entry)
    requires IsRun(run) && n < |run| && run[n].up && e in run[n].outbox.items
    ensures var s := run[n];
      && (s.outbox.flushing || (s.outbox.timer.Some? && s.outbox.timer.value <= Max(s.now, e.nextAttemptAt)))
      && e.nextAttemptAt <= s.now + RETRY_MAX_MS
  {
    RunKeepsInv(run, n);
    EarliestIsLeast(run[n].outbox.items);
  }

  // ---------------------------------------------------------------- backoff over whole runs

  lemma FailuresOn(events: seq<Event>, x: Event, id: string)
    ensures FailuresOf(events + [x], id) == if x.FailedAt? && x.id == id then FailuresOf(events, id) + [x.time]
                                            else if x.Acked? && x.id == id then [] else FailuresOf(events, id)
  {
    assert (events + [x])[..|events + [x]| - 1] == events;
  }

  lemma BackoffCapture(s: State, s': State, m: Message)
    requires BackoffInv(s) && StepCapture(s, s', m)
    ensures BackoffInv(s')
  {
    var items, id := s.outbox.items, IdOf(m);
    EnqueueMeaning(s.outbox, m, s.now);
    forall i ensures FailuresOf(s'.events, i) == FailuresOf(s.events, i) { FailuresOn(s.events, Captured(m), i); }
    hide IdOf, Enqueue, FailuresOf;
    var e := Entry(id, m, s.now, 0, s.now, None);
    assert s'.outbox.items == items || (s'.outbox.items == items + [e] && !Pending(items, id));
    forall i | Pending(items, i) ensures Pending(s'.outbox.items, i) {
      var x :| x in items && x.id == i;
      assert x in s'.outbox.items;
    }
  }

  lemma OneMoreFailure(e: Entry, now: int, error: string, failures: seq<int>)
    requires BackedOff(e, failures)
    ensures BackedOff(FailedOnce(e, now, error), failures + [now])
  {
    FailedOnceMeaning(e, now, error);
    hide FailedOnce;
  }

  lemma MarkedBackOff(items: seq<Entry>, events: seq<Event>, id: string, now: int, error: string)
    requires forall e :: e in items ==> BackedOff(e, FailuresOf(events, e.id))
    ensures forall e :: e in MarkFailure(items, id, now, error) ==> BackedOff(e, FailuresOf(events + [FailedAt(id, now)], e.id))
  {
    var items' := MarkFailure(items, id, now, error);
    hide FailuresOf, BackedOff;
    forall e | e in items' ensures BackedOff(e, FailuresOf(events + [FailedAt(id, now)], e.id)) {
      var k :| 0 <= k < |items| && items'[k] == e;
      assert items[k] in items;
      FailuresOn(events, FailedAt(id, now), e.id);
      OneMoreFailure(items[k], now, error, FailuresOf(events, items[k].id));
    }
  }

  lemma BackoffFail(s: State, s': State, error: string)
    requires BackoffInv(s) && FlightInv(s) && (StepRefuse(s, s', error) || StepFail(s, s', error))
    ensures BackoffInv(s')
  {
    var items, h := s.outbox.items, Head(s);
    var x := FailedAt(h.id, s.now);
    assert h in items && s'.outbox.items == MarkFailure(items, h.id, s.now, error) && s'.events == s.events + [x];
    MarkedBackOff(items, s.events, h.id, s.now, error);
    hide FailuresOf, BackedOff, FlightInv, StepRefuse, StepFail, MarkFailure;
    forall i | !Pending(s'.outbox.items, i) ensures FailuresOf(s'.events, i) == [] {
      StillPending(items, h.id, s.now, error, i);
      FailuresOn(s.events, x, i);
      assert Pending(items, h.id);
    }
  }

  lemma StillPending(items: seq<Entry>, id: string, now: int, error: string, i: string)
    ensures Pending(items, i) ==> Pending(MarkFailure(items, id, now, error), i)
  {
    MarkMembers(items, id, now, error);
  }

  lemma BackoffAck(s: State, s': State)
    requires BackoffInv(s) && StepAck(s, s')
    ensures BackoffInv(s')
  {
    var items, h := s.outbox.items, Head(s);
    forall i ensures FailuresOf(s'.events, i) == if i == h.id then [] else FailuresOf(s.events, i) {
      FailuresOn(s.events, Acked(h.id, h.message), i);
    }
    WithoutMembers(items, h.id);
    hide FailuresOf, Without, Deliverable, BackedOff;
    forall i | Pending(items, i) && i != h.id ensures Pending(s'.outbox.items, i) {
      var x :| x in items && x.id == i;
      assert x in s'.outbox.items;
    }
  }

  lemma BackoffStep(s: State, s': State)
    requires Inv(s) && BackoffInv(s) && Next(s, s')
    ensures BackoffInv(s')
  {
    assert DistinctIds(s.outbox.items) && FlightInv(s);
    hide Inv, FlightInv, BackoffInv, DistinctIds, StepStart, StepCrash, StepCapture, StepTimer, StepPush, StepRefuse, StepStore, StepAck, StepFail, StepEnd, StepTick;
    if m :| StepCapture(s, s', m) {
      BackoffCapture(s, s', m);
    } else if StepAck(s, s') {
      BackoffAck(s, s');
    } else if error :| StepRefuse(s, s', error) || StepFail(s, s', error) {
      BackoffFail(s, s', error);
    } else {
      BackoffQuiet(s, s');
    }
  }

  lemma BackoffQuiet(s: State, s': State)
    requires BackoffInv(s)
    requires || StepStart(s, s') || StepCrash(s, s') || StepTimer(s, s') || StepPush(s, s') || StepEnd(s, s')
             || (exists i :: StepStore(s, s', i)) || (exists ms :: StepTick(s, s', ms))
    ensures BackoffInv(s')
  {
    hide DueBatch, Earliest, Deliverable, BackedOff;
    assert s'.outbox.items == s.outbox.items;
    if StepPush(s, s') {
      var x := s'.events[|s.events|];
      assert s'.events == s.events + [x];
      forall i ensures FailuresOf(s'.events, i) == FailuresOf(s.events, i) { FailuresOn(s.events, x, i); }
    } else {
      assert s'.events == s.events;
    }
    hide FailuresOf;
  }

  lemma {:induction false} RunBacksOff(run: seq<State>, n: nat)
    requires IsRun(run) && n < |run|
    ensures BackoffInv(run[n])
  {
    hide Next, Inv;
    if n > 0 {
      hide BackoffInv;
      RunBacksOff(run, n - 1);
      RunKeepsInv(run, n - 1);
      assert Next(run[n - 1], run[n - 1 + 1]);
      BackoffStep(run[n - 1], run[n]);
    }
  }

  /**
   An entry counts exactly its failures since its id was last acknowledged; new, it is due at once, and
   after n failures it is due min(300000, 2000*2^(n-1)) after the last of them.
   */
  lemma BackoffLaw(run: seq<State>, n: nat, e: Entry)
    requires IsRun(run) && n < |run| && e in run[n].outbox.items
    ensures var failures := FailuresOf(run[n].events, e.id);
      && e.attemptCount == |failures|
      && (failures == [] ==> e.nextAttemptAt == e.createdAt)
      && (failures != [] ==> e.nextAttemptAt == failures[|failures| - 1] + Min(300000, 2000 * Pow2(|failures| - 1)))
  {
    RunBacksOff(run, n);
  }

  /** No message is pushed before its next attempt is due. */
  lemma NotPushedEarly(run: seq<State>, n: nat)
    requires IsRun(run) && n + 1 < |run| && StepPush(run[n], run[n + 1])
    ensures Head(run[n]) in run[n].outbox.items && Head(run[n]).nextAttemptAt <= run[n].now
  {
    RunKeepsInv(run, n);
  }

  ghost predicate PendingAs(items: seq<Entry>, id: string, m: Message) { exists e :: e in items && e.id == id && e.message == m }

  lemma MarkedKept(items: seq<Entry>, id: string, now: int, error: string, e: Entry)
    requires e in items
    ensures PendingAs(MarkFailure(items, id, now, error), e.id, e.message)
  {
    var i :| 0 <= i < |items| && items[i] == e;
    assert MarkFailure(items, id, now, error)[i] in MarkFailure(items, id, now, error);
  }

  lemma UndeliverableKept(s: State, s': State, e: Entry)
    requires StoreInv(s) && FlightInv(s) && Next(s, s') && e in s.outbox.items && !Deliverable(e.message)
    ensures PendingAs(s'.outbox.items, e.id, e.message)
  {
    if StepAck(s, s') {
      AckSparesUndeliverable(s, s', e);
    } else if error :| StepRefuse(s, s', error) || StepFail(s, s', error) {
      hide StoreInv, FlightInv, Deliverable, MarkFailure;
      MarkedKept(s.outbox.items, Head(s).id, s.now, error, e);
    } else {
      hide StoreInv, FlightInv, Deliverable, IdOf, DueBatch, Earliest, StepRefuse, StepFail, StepAck;
      assert e in s'.outbox.items;
    }
  }

  lemma AckSparesUndeliverable(s: State, s': State, e: Entry)
    requires StoreInv(s) && FlightInv(s) && StepAck(s, s') && e in s.outbox.items && !Deliverable(e.message)
    ensures PendingAs(s'.outbox.items, e.id, e.message)
  {
    hide Deliverable, CapturedSince, IdOf;
    WithoutMembers(s.outbox.items, Head(s).id);
    assert Head(s) in s.outbox.items && e.id != Head(s).id;
  }

  /** What was captured without a company, or under one with blanks around its id, stays pending for ever. */
  lemma {:induction false} QuarantineIsForever(run: seq<State>, i: nat, n: nat, e: Entry)
    requires IsRun(run) && i <= n < |run| && e in run[i].outbox.items && !Deliverable(e.message)
    ensures PendingAs(run[n].outbox.items, e.id, e.message)
  {
    hide Next, StoreInv, FlightInv, Inv, Deliverable, Init;
    if i < n {
      QuarantineIsForever(run, i, n - 1, e);
      var e' :| e' in run[n - 1].outbox.items && e'.id == e.id && e'.message == e.message;
      RunKeepsInv(run, n - 1);
      assert Next(run[n - 1], run[n - 1 + 1]);
      SomeInv(run[n - 1]);
      UndeliverableKept(run[n - 1], run[n], e');
    }
  }

  lemma SomeInv(s: State)
    requires Inv(s)
    ensures StoreInv(s) && FlightInv(s)
  {
  }

  ghost predicate AckedIn(run: seq<State>, m: Message) {
    IsRun(run) && Acked(IdOf(m), m) in run[|run| - 1].events
  }

  /** Some run gets a message acknowledged exactly when it has a company whose id carries no outer blanks. */
  lemma AckedIff(m: Message)
    ensures (exists run :: AckedIn(run, m))
       <==> match m.company
            case Some(c) => c != "" && !IsSpace(c[0]) && !IsSpace(c[|c| - 1])
            case None => false
  {
    DeliverableMeaning(m);
    hide IsSpace;
    forall run: seq<State> | AckedIn(run, m) ensures Deliverable(m) {
      var s := run[|run| - 1];
      RunKeepsInv(run, |run| - 1);
      var i :| 0 <= i < |s.events| && s.events[i] == Acked(IdOf(m), m);
    }
    if Deliverable(m) {
      var run := DeliveringRun(m);
      assert AckedIn(run, m);
    }
  }

  lemma DeliveringRun(m: Message) returns (run: seq<State>)
    requires Deliverable(m)
    ensures AckedIn(run, m)
  {
    var id := IdOf(m);
    var e := Entry(id, m, 0, 0, 0, None);
    var push := Pushed(id, m.company.value, m);
    var s0 := State(0, false, Outbox([], None, false), None, [], {});
    var s1 := s0.(up := true);
    var s2 := s1.(outbox := Outbox([e], Some(0), false), events := [Captured(m)]);
    var s3 := s2.(outbox := Outbox([e], None, true), flight := Some(Flight([e], false)));
    var s4 := s3.(flight := Some(Flight([e], true)), events := [Captured(m), push]);
    var s5 := s4.(backend := {m});
    var s6 := s5.(outbox := Outbox([], None, true), flight := Some(Flight([], false)), events := [Captured(m), push, Acked(id, m)]);
    run := [s0, s1, s2, s3, s4, s5, s6];
    hide IdOf, Trim, IsRun, Next;
    FirstSteps(s0, s1, s2, s3, m);
    assert StepPush(s3, s4) by { assert s4.events == s3.events + [push]; }
    assert StepStore(s4, s5, 1) by { assert s4.backend + {m} == {m}; }
    assert StepAck(s5, s6) by {
      assert Without([e], id) == [];
      assert s6.events == s5.events + [Acked(id, m)];
    }
    hide StepStart, StepCapture, StepTimer, StepPush, StepStore, StepAck, Deliverable;
    assert s6.events[2] == Acked(id, m);
    RunOfSeven(s0, s1, s2, s3, s4, s5, s6, m);
  }

  lemma FirstSteps(s0: State, s1: State, s2: State, s3: State, m: Message)
    requires s0 == State(0, false, Outbox([], None, false), None, [], {}) && s1 == s0.(up := true)
    requires var e := Entry(IdOf(m), m, 0, 0, 0, None);
      && s2 == s1.(outbox := Outbox([e], Some(0), false), events := [Captured(m)])
      && s3 == s2.(outbox := Outbox([e], None, true), flight := Some(Flight([e], false)))
    ensures Init(s0) && StepStart(s0, s1) && StepCapture(s1, s2, m) && StepTimer(s2, s3)
  {
    hide IdOf;
    var e := s2.outbox.items[0];
    assert Due([e], 0) == [e] && ByAge([e]) == [e];
  }

  lemma RunOfSeven(s0: State, s1: State, s2: State, s3: State, s4: State, s5: State, s6: State, m: Message)
    requires Init(s0) && StepStart(s0, s1) && StepCapture(s1, s2, m) && StepTimer(s2, s3) && StepPush(s3, s4) && StepStore(s4, s5, 1) && StepAck(s5, s6)
    ensures IsRun([s0, s1, s2, s3, s4, s5, s6])
  {
    hide Init, StepStart, StepCapture, StepTimer, StepPush, StepStore, StepAck;
    assert Next(s0, s1) && Next(s1, s2) && Next(s2, s3) && Next(s3, s4) && Next(s4, s5) && Next(s5, s6);
    hide Next;
  }

  // ---------------------------------------------------------------- a run that retries

  ghost predicate Reachable(s: State) { exists run :: IsRun(run) && run[|run| - 1] == s }

  lemma ReachOn(s: State, s': State)
    requires Reachable(s) && Next(s, s')
    ensures Reachable(s')
  {
    hide Next, Init;
    var run :| IsRun(run) && run[|run| - 1] == s;
    assert IsRun(run + [s']) && (run + [s'])[|run|] == s';
  }

  lemma ReachFirst(s: State)
    requires Init(s)
    ensures Reachable(s)
  {
    assert IsRun([s]) && [s][0] == s;
  }

  /** The first push of a message fails at once. */
  lemma ReachFailed(m: Message, error: string)
    requires Deliverable(m) && |error| <= 500
    ensures Reachable(State(0, true, Outbox([Entry(IdOf(m), m, 0, 1, 2000, Some(error))], Some(2000), false), None,
                            [Captured(m), Pushed(IdOf(m), m.company.value, m), FailedAt(IdOf(m), 0)], {}))
  {
    var id := IdOf(m);
    var e, failed := Entry(id, m, 0, 0, 0, None), Entry(id, m, 0, 1, 2000, Some(error));
    var push := Pushed(id, m.company.value, m);
    var s0 := State(0, false, Outbox([], None, false), None, [], {});
    var s1 := s0.(up := true);
    var s2 := s1.(outbox := Outbox([e], Some(0), false), events := [Captured(m)]);
    var s3 := s2.(outbox := Outbox([e], None, true), flight := Some(Flight([e], false)));
    var s4 := s3.(flight := Some(Flight([e], true)), events := [Captured(m), push]);
    var s5 := s4.(outbox := Outbox([failed], None, true), flight := Some(Flight([], false)), events := [Captured(m), push, FailedAt(id, 0)]);
    var s6 := s5.(outbox := Outbox([failed], Some(2000), false), flight := None);
    hide IdOf, Trim, IsRun, Next, Reachable;
    FirstSteps(s0, s1, s2, s3, m);
    assert StepPush(s3, s4) by { assert s4.events == s3.events + [push]; }
    assert StepFail(s4, s5, error) by {
      FailedOnceMeaning(e, 0, error);
      assert Pow2(0) == 1 && MarkFailure([e], id, 0, error) == [failed];
      assert s5.events == s4.events + [FailedAt(id, 0)] && [e][1..] == [];
    }
    assert StepEnd(s5, s6) by { assert Earliest([failed]) == 2000; }
    hide StepStart, StepCapture, StepTimer, StepPush, StepFail, StepEnd, Deliverable, Init;
    ReachFirst(s0);
    assert Next(s0, s1) && Next(s1, s2) && Next(s2, s3) && Next(s3, s4) && Next(s4, s5) && Next(s5, s6) by { NextsOf(s0, s1, s2, s3, s4, s5, s6, m, error); }
    ReachOn(s0, s1);
    ReachOn(s1, s2);
    ReachOn(s2, s3);
    ReachOn(s3, s4);
    ReachOn(s4, s5);
    ReachOn(s5, s6);
  }

  lemma NextsOf(s0: State, s1: State, s2: State, s3: State, s4: State, s5: State, s6: State, m: Message, error: string)
    requires StepStart(s0, s1) && StepCapture(s1, s2, m) && StepTimer(s2, s3) && StepPush(s3, s4) && StepFail(s4, s5, error) && StepEnd(s5, s6)
    ensures Next(s0, s1) && Next(s1, s2) && Next(s2, s3) && Next(s3, s4) && Next(s4, s5) && Next(s5, s6)
  {
    hide StepStart, StepCapture, StepTimer, StepPush, StepFail, StepEnd;
  }

  lemma RetrySteps(m: Message, error: string, t0: State, t1: State, t2: State, t3: State, t4: State, t5: State)
    requires Deliverable(m)
    requires var id := IdOf(m);
      var failed, push := Entry(id, m, 0, 1, 2000, Some(error)), Pushed(id, m.company.value, m);
      var events := [Captured(m), push, FailedAt(id, 0)];
      && t0 == State(0, true, Outbox([failed], Some(2000), false), None, events, {})
      && t1 == t0.(now := 2000)
      && t2 == t1.(outbox := Outbox([failed], None, true), flight := Some(Flight([failed], false)))
      && t3 == t2.(flight := Some(Flight([failed], true)), events := events + [push])
      && t4 == t3.(backend := {m})
      && t5 == t4.(outbox := Outbox([], None, true), flight := Some(Flight([], false)), events := events + [push, Acked(id, m)])
    ensures StepTick(t0, t1, 2000) && StepTimer(t1, t2) && StepPush(t2, t3) && StepStore(t3, t4, 3) && StepAck(t4, t5)
  {
    var id := IdOf(m);
    var failed, push := t0.outbox.items[0], Pushed(id, m.company.value, m);
    hide IdOf, Trim, DueBatch, MarkFailure, Schedule;
    assert StepTick(t0, t1, 2000);
    assert StepTimer(t1, t2) by { BatchOfOne(failed, 2000); }
    assert StepPush(t2, t3) by { assert t3.events == t2.events + [push]; }
    assert StepStore(t3, t4, 3) by {
      hide StepTick, StepTimer, StepPush;
      assert t3.events[3] == push && t3.backend + {m} == {m};
    }
    assert StepAck(t4, t5) by {
      hide StepTick, StepTimer, StepPush, StepStore;
      assert Without([failed], id) == [] && [failed][1..] == [];
      assert t5.events == t4.events + [Acked(id, m)];
    }
  }

  /** A message whose first push fails is pushed again two seconds later, and can then be acknowledged. */
  lemma RetriedWhenDue(m: Message, error: string) returns (s: State)
    requires Deliverable(m) && |error| <= 500
    ensures Reachable(s) && s.now == 2000 && s.outbox.items == []
    ensures var push := Pushed(IdOf(m), m.company.value, m);
      s.events == [Captured(m), push, FailedAt(IdOf(m), 0), push, Acked(IdOf(m), m)]
  {
    var id := IdOf(m);
    var failed, push := Entry(id, m, 0, 1, 2000, Some(error)), Pushed(id, m.company.value, m);
    var events := [Captured(m), push, FailedAt(id, 0)];
    var t0 := State(0, true, Outbox([failed], Some(2000), false), None, events, {});
    var t1 := t0.(now := 2000);
    var t2 := t1.(outbox := Outbox([failed], None, true), flight := Some(Flight([failed], false)));
    var t3 := t2.(flight := Some(Flight([failed], true)), events := events + [push]);
    var t4 := t3.(backend := {m});
    var t5 := t4.(outbox := Outbox([], None, true), flight := Some(Flight([], false)), events := events + [push, Acked(id, m)]);
    ReachFailed(m, error);
    hide IdOf, Trim, IsRun, Next, Reachable, DueBatch, MarkFailure, Schedule;
    RetrySteps(m, error, t0, t1, t2, t3, t4, t5);
    hide StepTick, StepTimer, StepPush, StepStore, StepAck, Deliverable;
    assert Next(t0, t1) && Next(t1, t2) && Next(t2, t3) && Next(t3, t4) && Next(t4, t5) by { LaterNextsOf(t0, t1, t2, t3, t4, t5); }
    ReachOn(t0, t1);
    ReachOn(t1, t2);
    ReachOn(t2, t3);
    ReachOn(t3, t4);
    ReachOn(t4, t5);
    s := t5;
  }

  lemma BatchOfOne(e: Entry, now: int)
    requires e.nextAttemptAt <= now
    ensures DueBatch([e], now) == [e]
  {
    assert Due([e], now) == [e] && ByAge([e]) == [e];
  }

  lemma LaterNextsOf(t0: State, t1: State, t2: State, t3: State, t4: State, t5: State)
    requires StepTick(t0, t1, 2000) && StepTimer(t1, t2) && StepPush(t2, t3) && StepStore(t3, t4, 3) && StepAck(t4, t5)
    ensures Next(t0, t1) && Next(t1, t2) && Next(t2, t3) && Next(t3, t4) && Next(t4, t5)
  {
    hide StepTick, StepTimer, StepPush, StepStore, StepAck;
  }
}
