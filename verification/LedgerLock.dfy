/**
 The fallback lock of the ledger: a timed lease in a storage item that has no compare-and-swap.

 An attempt reads the item, and when it is free writes its own lease, waits, and reads again; if its
 lease is still there it holds the lock. A holder rewrites its lease by heartbeat and removes it at
 the end. Reads and writes of different attempts interleave freely; all attempts read one clock.

 Two bounds describe the machine the lock runs on:
 - `gap`: from reading the item to the write that follows in the same turn;
 - `hold`: from the clock reading a holder's lease is stamped with to its rewriting or removal.
 What they must satisfy is the theorem `ExclusiveIff`.
 */
module LedgerLock {
  import opened Wrappers

  datatype Params = Params(ttl: int, settle: int, gap: int, hold: int)

  /** An attempt identifies itself by a fresh UUID; here, by a number. */
  datatype Lease = Lease(owner: nat, expiresAt: int)

  datatype Phase =
    | Outside
    | Looked(seen: Option<Lease>, at: int)   // has read the item, and may write
    | Waiting(wrote: int, stamp: int)        // has written a lease, and waits for it to settle
    | Verified(stamp: int)                   // has found its lease again
    | Inside(stamp: int)                     // runs its task under a lease of this stamp
    | Leaving(stamp: int)                    // has checked its lease a last time, and will remove it
    | Done

  datatype State = State(now: int, item: Option<Lease>, attempts: map<nat, Phase>)

  predicate Holder(p: Phase) { p.Verified? || p.Inside? || p.Leaving? }

  predicate Free(seen: Option<Lease>, time: int) { seen.None? || seen.value.expiresAt <= time }

  function To(s: State, p: nat, phase: Phase): State { s.(attempts := s.attempts[p := phase]) }

  ghost predicate Init(s: State) {
    s.item.None? && forall p :: p in s.attempts ==> s.attempts[p].Outside?
  }

  ghost predicate Look(s: State, s': State, p: nat) {
    && p in s.attempts && s.attempts[p].Outside?
    && s' == To(s, p, Looked(s.item, s.now))
  }

  ghost predicate Retry(s: State, s': State, p: nat) {
    && p in s.attempts && s.attempts[p].Looked? && !Free(s.attempts[p].seen, s.attempts[p].at)
    && s' == To(s, p, Outside)
  }

  /** `stamp` is the clock reading between the read and the write. */
  ghost predicate Write(c: Params, s: State, s': State, p: nat, stamp: int) {
    && p in s.attempts && s.attempts[p].Looked?
    && var Looked(seen, at) := s.attempts[p];
    && at <= stamp <= s.now <= at + c.gap && Free(seen, stamp)
    && s' == To(s, p, Waiting(s.now, stamp)).(item := Some(Lease(p, stamp + c.ttl)))
  }

  ghost predicate Verify(c: Params, s: State, s': State, p: nat) {
    && p in s.attempts && s.attempts[p].Waiting?
    && var Waiting(wrote, stamp) := s.attempts[p];
    && wrote + c.settle <= s.now
    && if s.item == Some(Lease(p, stamp + c.ttl)) then s.now <= stamp + c.hold && s' == To(s, p, Verified(stamp))
       else s' == To(s, p, Outside)
  }

  /** The renewal before the task starts, and every heartbeat. */
  ghost predicate Renew(c: Params, s: State, s': State, p: nat, stamp: int) {
    && p in s.attempts && (s.attempts[p].Verified? || s.attempts[p].Inside?)
    && s.item.Some? && s.item.value.owner == p
    && s.attempts[p].stamp <= stamp && s.now - c.gap <= stamp <= s.now <= stamp + c.hold
    && s' == To(s, p, Inside(stamp)).(item := Some(Lease(p, stamp + c.ttl)))
  }

  /** The task is over; the assistant's starts without a renewal. A holder that finds its lease taken or expired throws. */
  ghost predicate Finish(s: State, s': State, p: nat) {
    && p in s.attempts && (s.attempts[p].Inside? || s.attempts[p].Verified?)
    && if s.item.Some? && s.item.value.owner == p && s.item.value.expiresAt > s.now
       then s' == To(s, p, Leaving(s.attempts[p].stamp))
       else s' == To(s, p, Done)
  }

  ghost predicate Remove(s: State, s': State, p: nat) {
    && p in s.attempts && s.attempts[p].Leaving?
    && s' == To(s, p, Done).(item := None)
  }

  /** A closed window, a storage error, or a deadline: the lease stays behind. */
  ghost predicate Abandon(s: State, s': State, p: nat) {
    p in s.attempts && s' == To(s, p, Done)
  }

  /** Time does not pass beyond the moment a holder must have acted. */
  ghost predicate Tick(c: Params, s: State, s': State, ms: int) {
    && ms >= 0
    && (forall p :: p in s.attempts && Holder(s.attempts[p]) ==> s.now + ms <= s.attempts[p].stamp + c.hold)
    && s' == s.(now := s.now + ms)
  }

  ghost predicate Next(c: Params, s: State, s': State) {
    || (exists p :: Look(s, s', p))
    || (exists p :: Retry(s, s', p))
    || (exists p, stamp :: Write(c, s, s', p, stamp))
    || (exists p :: Verify(c, s, s', p))
    || (exists p, stamp :: Renew(c, s, s', p, stamp))
    || (exists p :: Finish(s, s', p))
    || (exists p :: Remove(s, s', p))
    || (exists p :: Abandon(s, s', p))
    || (exists ms :: Tick(c, s, s', ms))
  }

  ghost predicate IsRun(c: Params, run: seq<State>) {
    run != [] && Init(run[0]) && forall i :: 0 <= i < |run| - 1 ==> Next(c, run[i], run[i + 1])
  }

  /** Every holder's own lease is the one in storage. */
  ghost predicate LeasesKept(c: Params, s: State) {
    forall p :: p in s.attempts && Holder(s.attempts[p]) ==> s.item == Some(Lease(p, s.attempts[p].stamp + c.ttl))
  }

  ghost predicate Reachable(c: Params, s: State) {
    exists run :: IsRun(c, run) && run[|run| - 1] == s
  }

  /** In every run, no holder ever loses its lease. */
  ghost predicate Safe(c: Params) {
    forall s :: Reachable(c, s) ==> LeasesKept(c, s)
  }

  ghost predicate OneHolder(s: State) {
    forall p, q :: p in s.attempts && q in s.attempts && Holder(s.attempts[p]) && Holder(s.attempts[q]) ==> p == q
  }

  /** In every run, no two attempts hold the lock, so no two run a ledger mutation, at the same time. */
  ghost predicate Exclusive(c: Params) {
    forall s :: Reachable(c, s) ==> OneHolder(s)
  }

  // ---------------------------------------------------------------- the inequality suffices

  predicate Timely(c: Params) { 0 <= c.gap < c.settle && c.hold + c.gap < c.ttl }

  ghost predicate HoldersTimely(c: Params, s: State) {
    forall p :: p in s.attempts && Holder(s.attempts[p]) ==> s.now <= s.attempts[p].stamp + c.hold
  }

  /** While an attempt's lease settles undisturbed, later readers see it. */
  ghost predicate WaitersSeen(c: Params, s: State) {
    forall p, q :: p in s.attempts && q in s.attempts && s.attempts[p].Waiting? && s.attempts[q].Looked?
      && s.item == Some(Lease(p, s.attempts[p].stamp + c.ttl)) && s.attempts[q].at > s.attempts[p].wrote
      ==> s.attempts[q].seen == s.item
  }

  /** While the lock is held, nobody who may still write takes it for free. */
  ghost predicate NobodyElseWrites(c: Params, s: State) {
    forall p, q :: p in s.attempts && q in s.attempts && Holder(s.attempts[p]) && s.attempts[q].Looked?
      && s.now <= s.attempts[q].at + c.gap
      ==> s.attempts[q].seen.Some? && s.attempts[q].seen.value.expiresAt > s.attempts[q].at + c.gap
  }

  ghost predicate LooksPast(s: State) {
    forall p :: p in s.attempts ==> (s.attempts[p].Looked? ==> s.attempts[p].at <= s.now) && (s.attempts[p].Waiting? ==> s.attempts[p].wrote <= s.now)
  }

  ghost predicate Inv(c: Params, s: State) {
    LeasesKept(c, s) && HoldersTimely(c, s) && WaitersSeen(c, s) && NobodyElseWrites(c, s) && LooksPast(s)
  }

  lemma WriteKeepsInv(c: Params, s: State, s': State, p: nat, stamp: int)
    requires Timely(c) && Inv(c, s) && Write(c, s, s', p, stamp)
    ensures Inv(c, s')
  {
    assert forall q :: q in s.attempts ==> !Holder(s.attempts[q]);
  }

  /** An attempt's lease has settled: nobody else can still write over it. */
  lemma VerifiedKeepsInv(c: Params, s: State, p: nat)
    requires Timely(c) && Inv(c, s) && p in s.attempts && s.attempts[p].Waiting?
    requires var Waiting(wrote, stamp) := s.attempts[p];
      wrote + c.settle <= s.now <= stamp + c.hold && s.item == Some(Lease(p, stamp + c.ttl))
    ensures Inv(c, To(s, p, Verified(s.attempts[p].stamp)))
  {
    var Waiting(wrote, stamp) := s.attempts[p];
    var s' := To(s, p, Verified(stamp));
    assert forall q :: q in s.attempts ==> !Holder(s.attempts[q]);
    assert forall q :: q in s'.attempts && q != p ==> s'.attempts[q] == s.attempts[q];
    forall q | q in s.attempts && s.attempts[q].Looked? && s.now <= s.attempts[q].at + c.gap
      ensures s.attempts[q].seen == s.item && stamp + c.ttl > s.attempts[q].at + c.gap
    {
      assert s.attempts[q].at > wrote;
    }
    hide WaitersSeen;
    assert NobodyElseWrites(c, s') by { hide HoldersTimely, LeasesKept; }
    assert LeasesKept(c, s') && HoldersTimely(c, s') by { hide NobodyElseWrites; }
    NoMoreWaiting(c, s, s', p);
    assert LooksPast(s');
  }

  lemma NoMoreWaiting(c: Params, s: State, s': State, p: nat)
    requires WaitersSeen(c, s) && p in s.attempts && p in s'.attempts && s' == To(s, p, s'.attempts[p])
    requires !s'.attempts[p].Waiting? && !s'.attempts[p].Looked?
    ensures WaitersSeen(c, s')
  {
  }

  lemma VerifyKeepsInv(c: Params, s: State, s': State, p: nat)
    requires Timely(c) && Inv(c, s) && Verify(c, s, s', p)
    ensures Inv(c, s')
  {
    if s.item == Some(Lease(p, s.attempts[p].stamp + c.ttl)) {
      VerifiedKeepsInv(c, s, p);
    } else {
      BackKeepsInv(c, s, s', p);
    }
  }

  lemma RenewKeepsInv(c: Params, s: State, s': State, p: nat, stamp: int)
    requires Timely(c) && Inv(c, s) && Renew(c, s, s', p, stamp)
    ensures Inv(c, s')
  {
  }

  lemma LookKeepsInv(c: Params, s: State, s': State, p: nat)
    requires Timely(c) && Inv(c, s) && Look(s, s', p)
    ensures Inv(c, s')
  {
    assert forall q :: q in s.attempts && Holder(s.attempts[q]) ==> s.item.Some? && s.item.value.expiresAt > s.now + c.gap;
    assert LeasesKept(c, s') && HoldersTimely(c, s') by { hide WaitersSeen, NobodyElseWrites; }
    assert WaitersSeen(c, s') by { hide HoldersTimely, NobodyElseWrites, LeasesKept; }
    assert NobodyElseWrites(c, s') by { hide WaitersSeen, HoldersTimely, LeasesKept; }
    assert LooksPast(s');
  }

  /** An attempt steps back, or a holder moves on towards its end; only a holder clears the item. */
  lemma BackKeepsInv(c: Params, s: State, s': State, p: nat)
    requires Timely(c) && Inv(c, s) && p in s.attempts
    requires s'.now == s.now && s'.attempts.Keys == s.attempts.Keys
    requires forall q :: q in s.attempts && q != p ==> s'.attempts[q] == s.attempts[q]
    requires !s'.attempts[p].Looked? && !s'.attempts[p].Waiting?
    requires Holder(s'.attempts[p]) ==> Holder(s.attempts[p]) && s'.attempts[p].stamp == s.attempts[p].stamp
    requires s'.item == s.item || (s'.item == None && Holder(s.attempts[p]) && !Holder(s'.attempts[p]))
    ensures Inv(c, s')
  {
    if s'.item != s.item {
      assert forall q :: q in s.attempts && q != p ==> !Holder(s.attempts[q]);
    }
    assert LeasesKept(c, s') && HoldersTimely(c, s') by { hide WaitersSeen, NobodyElseWrites; }
    assert WaitersSeen(c, s') by { hide HoldersTimely, NobodyElseWrites, LeasesKept; }
    assert NobodyElseWrites(c, s') by { hide WaitersSeen, HoldersTimely, LeasesKept; }
    assert LooksPast(s');
  }

  lemma PhaseKeepsInv(c: Params, s: State, s': State, p: nat)
    requires Timely(c) && Inv(c, s) && (Retry(s, s', p) || Finish(s, s', p) || Remove(s, s', p) || Abandon(s, s', p))
    ensures Inv(c, s')
  {
    hide Inv;
    BackKeepsInv(c, s, s', p);
  }

  lemma TickKeepsInv(c: Params, s: State, s': State, ms: int)
    requires Timely(c) && Inv(c, s) && Tick(c, s, s', ms)
    ensures Inv(c, s')
  {
  }

  lemma NextKeepsInv(c: Params, s: State, s': State)
    requires Timely(c) && Inv(c, s) && Next(c, s, s')
    ensures Inv(c, s')
  {
    if p, stamp :| Write(c, s, s', p, stamp) {
      WriteKeepsInv(c, s, s', p, stamp);
    } else if p :| Verify(c, s, s', p) {
      VerifyKeepsInv(c, s, s', p);
    } else if p, stamp :| Renew(c, s, s', p, stamp) {
      RenewKeepsInv(c, s, s', p, stamp);
    } else if p :| Look(s, s', p) {
      LookKeepsInv(c, s, s', p);
    } else if ms :| Tick(c, s, s', ms) {
      TickKeepsInv(c, s, s', ms);
    } else {
      var p :| Retry(s, s', p) || Finish(s, s', p) || Remove(s, s', p) || Abandon(s, s', p);
      PhaseKeepsInv(c, s, s', p);
    }
  }

  lemma {:induction false} RunKeepsInv(c: Params, run: seq<State>, n: nat)
    requires Timely(c) && IsRun(c, run) && n < |run|
    ensures Inv(c, run[n])
  {
    if n > 0 {
      RunKeepsInv(c, run, n - 1);
      NextKeepsInv(c, run[n - 1], run[n]);
    }
  }

  lemma ReachableKept(c: Params, s: State)
    requires Timely(c) && Reachable(c, s)
    ensures LeasesKept(c, s)
  {
    var run :| IsRun(c, run) && run[|run| - 1] == s;
    RunKeepsInv(c, run, |run| - 1);
  }

  /** Mutual exclusion, and with it every holder keeps the lease it relies on. */
  lemma MutualExclusion(c: Params)
    requires Timely(c)
    ensures Exclusive(c) && Safe(c)
  {
    forall s | Reachable(c, s) ensures LeasesKept(c, s) && OneHolder(s) {
      ReachableKept(c, s);
    }
  }

  // ---------------------------------------------------------------- the inequality is needed

  lemma ReachInit(c: Params, s: State)
    requires Init(s)
    ensures Reachable(c, s)
  {
    assert IsRun(c, [s]);
  }

  lemma ReachNext(c: Params, s: State, s': State)
    requires Reachable(c, s) && Next(c, s, s')
    ensures Reachable(c, s')
  {
    var run :| IsRun(c, run) && run[|run| - 1] == s;
    var longer := run + [s'];
    hide Next, Init;
    forall i | 0 <= i < |longer| - 1 ensures Next(c, longer[i], longer[i + 1]) {
      if i < |run| - 1 { assert Next(c, run[i], run[i + 1]); }
    }
    assert longer[|longer| - 1] == s';
  }

  /** A state of two attempts, numbered 0 and 1. */
  function Two(now: int, item: Option<Lease>, a: Phase, b: Phase): State { State(now, item, map[0 := a, 1 := b]) }

  lemma TwoUpdated(now: int, item: Option<Lease>, a: Phase, b: Phase, phase: Phase)
    ensures To(Two(now, item, a, b), 0, phase) == Two(now, item, phase, b)
    ensures To(Two(now, item, a, b), 1, phase) == Two(now, item, a, phase)
  {
  }

  lemma TwoTick(c: Params, now: int, item: Option<Lease>, a: Phase, b: Phase, later: int)
    requires Reachable(c, Two(now, item, a, b)) && now <= later
    requires Holder(a) ==> later <= a.stamp + c.hold
    requires !Holder(b)
    ensures Reachable(c, Two(later, item, a, b))
  {
    assert Tick(c, Two(now, item, a, b), Two(later, item, a, b), later - now);
    ReachNext(c, Two(now, item, a, b), Two(later, item, a, b));
  }

  lemma FirstLooks(c: Params, now: int, item: Option<Lease>, b: Phase)
    requires Reachable(c, Two(now, item, Outside, b))
    ensures Reachable(c, Two(now, item, Looked(item, now), b))
  {
    TwoUpdated(now, item, Outside, b, Looked(item, now));
    assert Look(Two(now, item, Outside, b), Two(now, item, Looked(item, now), b), 0);
    ReachNext(c, Two(now, item, Outside, b), Two(now, item, Looked(item, now), b));
  }

  lemma SecondLooks(c: Params, now: int, item: Option<Lease>, a: Phase)
    requires Reachable(c, Two(now, item, a, Outside))
    ensures Reachable(c, Two(now, item, a, Looked(item, now)))
  {
    TwoUpdated(now, item, a, Outside, Looked(item, now));
    assert Look(Two(now, item, a, Outside), Two(now, item, a, Looked(item, now)), 1);
    ReachNext(c, Two(now, item, a, Outside), Two(now, item, a, Looked(item, now)));
  }

  lemma FirstWrites(c: Params, b: Phase)
    requires Reachable(c, Two(0, None, Looked(None, 0), b)) && 0 <= c.gap
    ensures Reachable(c, Two(0, Some(Lease(0, c.ttl)), Waiting(0, 0), b))
  {
    TwoUpdated(0, None, Looked(None, 0), b, Waiting(0, 0));
    assert Write(c, Two(0, None, Looked(None, 0), b), Two(0, Some(Lease(0, c.ttl)), Waiting(0, 0), b), 0, 0);
    ReachNext(c, Two(0, None, Looked(None, 0), b), Two(0, Some(Lease(0, c.ttl)), Waiting(0, 0), b));
  }

  lemma SecondWrites(c: Params, now: int, item: Option<Lease>, a: Phase, seen: Option<Lease>, at: int)
    requires Reachable(c, Two(now, item, a, Looked(seen, at))) && at <= now <= at + c.gap && Free(seen, now)
    ensures Reachable(c, Two(now, Some(Lease(1, now + c.ttl)), a, Waiting(now, now)))
  {
    var s, s' := Two(now, item, a, Looked(seen, at)), Two(now, Some(Lease(1, now + c.ttl)), a, Waiting(now, now));
    TwoUpdated(now, item, a, Looked(seen, at), Waiting(now, now));
    assert Write(c, s, s', 1, now);
    ReachNext(c, s, s');
  }

  lemma FirstVerifies(c: Params, b: Phase)
    requires c.settle <= c.hold && Reachable(c, Two(c.settle, Some(Lease(0, c.ttl)), Waiting(0, 0), b))
    ensures Reachable(c, Two(c.settle, Some(Lease(0, c.ttl)), Verified(0), b))
  {
    var item := Some(Lease(0, c.ttl));
    TwoUpdated(c.settle, item, Waiting(0, 0), b, Verified(0));
    assert Verify(c, Two(c.settle, item, Waiting(0, 0), b), Two(c.settle, item, Verified(0), b), 0);
    ReachNext(c, Two(c.settle, item, Waiting(0, 0), b), Two(c.settle, item, Verified(0), b));
  }

  lemma SecondVerifies(c: Params, wrote: int, a: Phase)
    requires c.settle <= c.hold && Reachable(c, Two(wrote + c.settle, Some(Lease(1, wrote + c.ttl)), a, Waiting(wrote, wrote)))
    ensures Reachable(c, Two(wrote + c.settle, Some(Lease(1, wrote + c.ttl)), a, Verified(wrote)))
  {
    var now, item := wrote + c.settle, Some(Lease(1, wrote + c.ttl));
    TwoUpdated(now, item, a, Waiting(wrote, wrote), Verified(wrote));
    assert Verify(c, Two(now, item, a, Waiting(wrote, wrote)), Two(now, item, a, Verified(wrote)), 1);
    ReachNext(c, Two(now, item, a, Waiting(wrote, wrote)), Two(now, item, a, Verified(wrote)));
  }

  lemma FirstRenews(c: Params, now: int, item: Option<Lease>, a: Phase, b: Phase)
    requires Reachable(c, Two(now, item, a, b)) && item.Some? && item.value.owner == 0
    requires (a.Verified? || a.Inside?) && a.stamp <= now && 0 <= c.gap && 0 <= c.hold
    ensures Reachable(c, Two(now, Some(Lease(0, now + c.ttl)), Inside(now), b))
  {
    TwoUpdated(now, item, a, b, Inside(now));
    assert Renew(c, Two(now, item, a, b), Two(now, Some(Lease(0, now + c.ttl)), Inside(now), b), 0, now);
    ReachNext(c, Two(now, item, a, b), Two(now, Some(Lease(0, now + c.ttl)), Inside(now), b));
  }

  /** Attempt 0 has written a lease of stamp 0 and verified it; attempt 1 is outside, or has looked at the start. */
  lemma ReachFirstVerified(c: Params, b: Phase)
    requires 0 < c.settle <= c.hold && 0 <= c.gap && (b == Outside || b == Looked(None, 0))
    ensures Reachable(c, Two(c.settle, Some(Lease(0, c.ttl)), Verified(0), b))
  {
    ReachInit(c, Two(0, None, Outside, Outside));
    if b != Outside { SecondLooks(c, 0, None, Outside); }
    FirstLooks(c, 0, None, b);
    FirstWrites(c, b);
    TwoTick(c, 0, Some(Lease(0, c.ttl)), Waiting(0, 0), b, c.settle);
    FirstVerifies(c, b);
  }

  /**
   Attempt 0 holds the lock under a fresh lease, and attempt 1 has just written over it: once its own
   lease has settled, attempt 1 verifies it, and both hold the lock.
   */
  lemma OverwrittenBreaks(c: Params, now: int)
    requires 0 < c.settle <= c.hold && Reachable(c, Two(now, Some(Lease(1, now + c.ttl)), Inside(now), Waiting(now, now)))
    ensures !Safe(c) && !Exclusive(c)
  {
    var item := Some(Lease(1, now + c.ttl));
    TwoTick(c, now, item, Inside(now), Waiting(now, now), now + c.settle);
    SecondVerifies(c, now, Inside(now));
    var s := Two(now + c.settle, item, Inside(now), Verified(now));
    assert 0 in s.attempts && 1 in s.attempts && Holder(s.attempts[0]) && Holder(s.attempts[1]);
    assert !LeasesKept(c, s) && !OneHolder(s);
  }

  /** A reader as slow as the settling time writes over a lease that has been verified. */
  lemma SlowWriterBreaks(c: Params)
    requires 0 < c.settle <= c.hold && c.settle <= c.gap
    ensures !Safe(c) && !Exclusive(c)
  {
    var b := Looked(None, 0);
    ReachFirstVerified(c, b);
    FirstRenews(c, c.settle, Some(Lease(0, c.ttl)), Verified(0), b);
    SecondWrites(c, c.settle, Some(Lease(0, c.settle + c.ttl)), Inside(c.settle), None, 0);
    OverwrittenBreaks(c, c.settle);
  }

  /** A reader who saw the lease just before its renewal finds it expired while it may still write. */
  lemma StaleReaderBreaks(c: Params)
    requires 0 < c.settle <= c.hold && 0 <= c.gap < c.settle && c.ttl <= c.hold + c.gap
    ensures !Safe(c) && !Exclusive(c)
  {
    var seen := Some(Lease(0, c.ttl));
    ReachFirstVerified(c, Outside);
    TwoTick(c, c.settle, seen, Verified(0), Outside, c.hold);
    SecondLooks(c, c.hold, seen, Verified(0));
    FirstRenews(c, c.hold, seen, Verified(0), Looked(seen, c.hold));
    var renewed := Some(Lease(0, c.hold + c.ttl));
    var late := if c.ttl > c.hold then c.ttl else c.hold;
    TwoTick(c, c.hold, renewed, Inside(c.hold), Looked(seen, c.hold), late);
    FirstRenews(c, late, renewed, Inside(c.hold), Looked(seen, c.hold));
    SecondWrites(c, late, Some(Lease(0, late + c.ttl)), Inside(late), seen, c.hold);
    OverwrittenBreaks(c, late);
  }

  /**
   The lock is exclusive exactly when a write follows its read by less than the settling time, and every
   lease is rewritten or removed at least that gap before it expires; and exactly then no holder ever
   loses its lease. (With `hold` below `settle` no attempt ever verifies its lease in time, and nothing
   is ever held.)
   */
  lemma ExclusiveIff(c: Params)
    requires 0 < c.settle <= c.hold && 0 < c.ttl && 0 <= c.gap
    ensures Exclusive(c) <==> c.gap < c.settle && c.hold + c.gap < c.ttl
    ensures Safe(c) <==> Exclusive(c)
  {
    if c.gap < c.settle && c.hold + c.gap < c.ttl {
      MutualExclusion(c);
    } else if c.settle <= c.gap {
      SlowWriterBreaks(c);
    } else {
      StaleReaderBreaks(c);
    }
  }

  // ---------------------------------------------------------------- the program's own settings

  function HeartbeatInterval(ttl: int): int {
    var third := ttl / 3;
    if third < 1 then 1 else if third > 1000 then 1000 else third
  }

  /**
   The oldest a lease gets when timers fire at most `late` after they are due and a turn takes at most
   `gap`: the first renewal follows two turns and the settling wait, a heartbeat its interval and a turn.
   */
  function HoldBound(ttl: int, settle: int, gap: int, late: int): int {
    var first := gap + settle + late + gap;
    var heartbeat := HeartbeatInterval(ttl) + late + gap;
    if first > heartbeat then first else heartbeat
  }

  /** A heartbeat every third of the lease, in whole milliseconds, but no longer than a second and no shorter than one. */
  lemma HeartbeatMeaning(ttl: int)
    requires ttl > 0
    ensures var h := HeartbeatInterval(ttl);
      1 <= h <= 1000 && (ttl >= 3 ==> 3 * h <= ttl) && (h < 1000 ==> ttl < 3 * (h + 1))
  {
  }

  /** Under any settings the lock excludes exactly if the first renewal and every heartbeat come a turn before the lease ends. */
  lemma SettingsExclusiveIff(ttl: int, settle: int, gap: int, late: int)
    requires 0 < settle && 0 < ttl && 0 <= gap && 0 <= late
    ensures Exclusive(Params(ttl, settle, gap, HoldBound(ttl, settle, gap, late)))
       <==> gap < settle && settle + late + 3 * gap < ttl && HeartbeatInterval(ttl) + late + 2 * gap < ttl
  {
    ExclusiveIff(Params(ttl, settle, gap, HoldBound(ttl, settle, gap, late)));
    hide Exclusive, HeartbeatInterval;
  }

  /** The default settings, 2000 ms and 25 ms, give mutual exclusion exactly on machines this quick. */
  lemma DefaultsExclusiveIff(gap: int, late: int)
    requires 0 <= gap && 0 <= late
    ensures Exclusive(Params(2000, 25, gap, HoldBound(2000, 25, gap, late))) <==> gap < 25 && late + 2 * gap < 1334
  {
    SettingsExclusiveIff(2000, 25, gap, late);
    hide Exclusive;
  }

  /**
   The assistant's lease, 30 s and 40 ms with a heartbeat every 5 s and none before the task, gives mutual
   exclusion exactly on machines this quick.
   */
  lemma AssistantExclusiveIff(gap: int, late: int)
    requires 0 <= gap && 0 <= late
    ensures Exclusive(Params(30000, 40, gap, gap + 40 + late + 5000 + late + gap)) <==> gap < 40 && 2 * late + 3 * gap < 24960
  {
    ExclusiveIff(Params(30000, 40, gap, gap + 40 + late + 5000 + late + gap));
  }
}
