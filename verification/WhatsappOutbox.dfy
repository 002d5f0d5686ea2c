/**
 The durable outbox of captured WhatsApp messages in the desktop program: its entries, the backoff, the
 choice of a batch, the one timer, and the class that keeps them. Whole runs are in OutboxRuns.
 */
module WhatsappOutbox {
  import opened Wrappers
  import opened JsText
  import opened Powers

  const RETRY_BASE_MS := 2000
  const RETRY_MAX_MS := 5 * 60000
  const BATCH_SIZE: nat := 20

  // ---------------------------------------------------------------- messages and their ids

  /** A captured message. `company` is the tenant selected at capture; `digest` is the SHA-256 of the JSON text. */
  datatype Message = Message(company: Option<string>, account: Option<string>, messageId: string, digest: string, body: string)

  /** What an account's message ids start with. */
  function Label(company: Option<string>, account: Option<string>): string {
    (if company.Some? then company.value else "unbound") + ":" + (if account.Some? then account.value else "default") + ":"
  }

  function IdOf(m: Message): string {
    var messageId := Trim(m.messageId);
    Label(m.company, m.account) + if messageId != "" then messageId else "sha256:" + m.digest
  }

  // ---------------------------------------------------------------- entries

  datatype Entry = Entry(
    id: string,
    message: Message,
    createdAt: int,
    attemptCount: nat,
    nextAttemptAt: int,
    lastError: Option<string>
  )

  predicate Pending(items: seq<Entry>, id: string) { exists e :: e in items && e.id == id }

  ghost predicate DistinctIds(items: seq<Entry>) { forall i, j :: 0 <= i < j < |items| ==> items[i].id != items[j].id }

  function Min(a: int, b: int): int { if a <= b then a else b }

  function Max(a: int, b: int): int { if a >= b then a else b }

  /** The delay after the given number of failures; the exponent is capped before the power is taken. */
  function RetryDelay(attemptCount: nat): int
    requires attemptCount >= 1
  {
    Min(RETRY_MAX_MS, RETRY_BASE_MS * Pow2(Min(attemptCount - 1, 16)))
  }

  function FailedOnce(e: Entry, now: int, error: string): Entry {
    e.(attemptCount := e.attemptCount + 1,
       nextAttemptAt := now + RetryDelay(e.attemptCount + 1),
       lastError := Some(error[..Min(|error|, 500)]))
  }

  function Without(items: seq<Entry>, id: string): seq<Entry> {
    if items == [] then []
    else (if items[0].id == id then [] else [items[0]]) + Without(items[1..], id)
  }

  function MarkFailure(items: seq<Entry>, id: string, now: int, error: string): seq<Entry> {
    seq(|items|, i requires 0 <= i < |items| => if items[i].id == id then FailedOnce(items[i], now, error) else items[i])
  }

  function Earliest(items: seq<Entry>): int
    requires items != []
  {
    if |items| == 1 then items[0].nextAttemptAt else Min(items[0].nextAttemptAt, Earliest(items[1..]))
  }

  // ---------------------------------------------------------------- the batch of one flush

  function Due(items: seq<Entry>, now: int): seq<Entry> {
    if items == [] then []
    else (if items[0].nextAttemptAt <= now then [items[0]] else []) + Due(items[1..], now)
  }

  function InsertByAge(e: Entry, sorted: seq<Entry>): seq<Entry> {
    if sorted == [] || e.createdAt <= sorted[0].createdAt then [e] + sorted
    else [sorted[0]] + InsertByAge(e, sorted[1..])
  }

  /** The stable sort by age. */
  function ByAge(items: seq<Entry>): seq<Entry> {
    if items == [] then [] else InsertByAge(items[0], ByAge(items[1..]))
  }

  function DueBatch(items: seq<Entry>, now: int): seq<Entry> {
    var due := ByAge(Due(items, now));
    due[..Min(|due|, BATCH_SIZE)]
  }

  // ---------------------------------------------------------------- the timer

  /** The store, the due time of the armed timer, and whether a flush is under way. */
  datatype Outbox = Outbox(items: seq<Entry>, timer: Option<int>, flushing: bool)

  function Schedule(o: Outbox, delay: Option<int>, now: int): Outbox {
    if o.items == [] then o.(timer := None)
    else
      var dueAt := if delay.None? then Earliest(o.items) else now + Max(0, delay.value);
      if o.timer.Some? && o.timer.value <= dueAt then o else o.(timer := Some(dueAt))
  }

  function Enqueue(o: Outbox, m: Message, now: int): Outbox {
    if Pending(o.items, IdOf(m)) then Schedule(o, Some(0), now)
    else Schedule(o.(items := o.items + [Entry(IdOf(m), m, now, 0, now, None)]), Some(0), now)
  }

  /** A message reaches the network only under the company it was captured under. */
  predicate Deliverable(m: Message) {
    && m.company.Some?
    && Trim(m.company.value) != ""
    && Trim(m.company.value) == m.company.value
  }

  /** A company whose id is there and has no outer blanks: the push is bound to the trimmed id, which the payload must equal. */
  lemma DeliverableMeaning(m: Message)
    ensures Deliverable(m)
       <==> match m.company
            case Some(c) => c != "" && !IsSpace(c[0]) && !IsSpace(c[|c| - 1])
            case None => false
  {
    if m.company.Some? {
      var c := m.company.value;
      var lo, hi := TrimMeaning(c);
      hide IsSpace, Trim;
      if Trim(c) == c {
        assert |c| == hi - lo;
      } else if c != "" && !IsSpace(c[0]) && !IsSpace(c[|c| - 1]) {
        TrimKeeps(c);
      }
    }
  }

  // ---------------------------------------------------------------- the class

  /** How one delivery ends: with an acknowledgement, or with an error. */
  datatype Attempt = Delivered | Failed(error: string)

  /** A flush's results on one entry of the store: gone, marked, or untouched. */
  function AfterFlush(e: Entry, batch: seq<Entry>, attempts: seq<Attempt>, times: seq<int>): seq<Entry>
    requires |batch| == |attempts| == |times|
  {
    if batch == [] then [e]
    else if batch[0].id != e.id then AfterFlush(e, batch[1..], attempts[1..], times[1..])
    else match attempts[0]
         case Delivered => []
         case Failed(error) => [FailedOnce(e, times[0], error)]
  }

  function AllAfterFlush(items: seq<Entry>, batch: seq<Entry>, attempts: seq<Attempt>, times: seq<int>): seq<Entry>
    requires |batch| == |attempts| == |times|
  {
    if items == [] then []
    else AfterFlush(items[0], batch, attempts, times) + AllAfterFlush(items[1..], batch, attempts, times)
  }

  // ---------------------------------------------------------------- the backoff

  /** Capping the exponent changes no delay; delays double from two seconds to five minutes and never shrink. */
  lemma RetryDelayLaw(attemptCount: nat)
    requires attemptCount >= 1
    ensures RetryDelay(attemptCount) == Min(RETRY_MAX_MS, RETRY_BASE_MS * Pow2(attemptCount - 1))
    ensures RETRY_BASE_MS <= RetryDelay(attemptCount) <= RetryDelay(attemptCount + 1) <= RETRY_MAX_MS
  {
    Pow2Grows(0, attemptCount - 1);
    assert Pow2(attemptCount) == 2 * Pow2(attemptCount - 1);
    assert Pow2(8) == 256 && Pow2(16) == 65536;
    if attemptCount > 16 { Pow2Grows(16, attemptCount - 1); }
  }

  /** The whole of an entry after one more failure: one more attempt counted, and the next one that delay away. */
  lemma FailedOnceMeaning(e: Entry, now: int, error: string)
    ensures var delay := 2000 * Pow2(e.attemptCount);
      FailedOnce(e, now, error) == Entry(e.id, e.message, e.createdAt, e.attemptCount + 1, now + (if delay < 300000 then delay else 300000),
                                         Some(if |error| <= 500 then error else error[..500]))
  {
    RetryDelayLaw(e.attemptCount + 1);
    if |error| <= 500 { assert error[..|error|] == error; }
  }

  /** A message of a new id becomes an entry that is due at once; one of a pending id changes no entry. */
  lemma EnqueueMeaning(o: Outbox, m: Message, now: int)
    ensures var items := Enqueue(o, m, now).items;
      if exists e :: e in o.items && e.id == IdOf(m) then items == o.items
      else items == o.items + [Entry(IdOf(m), m, now, 0, now, None)]
    ensures var after := Enqueue(o, m, now);
      after.flushing == o.flushing && after.timer.Some? && after.timer.value <= now && (o.timer.None? || after.timer.value <= o.timer.value)
      && (after.timer.value == now || after.timer == o.timer)
  {
    hide IdOf, Earliest;
  }

  /** The timer is armed for the first attempt that is due, or after the delay that is given, or left as it was if that is sooner. */
  lemma ScheduleMeaning(o: Outbox, delay: Option<int>, now: int)
    ensures var after := Schedule(o, delay, now);
      && after.items == o.items && after.flushing == o.flushing
      && (o.items == [] ==> after.timer == None)
      && (o.items != [] ==>
            && after.timer.Some? && (o.timer.Some? ==> after.timer.value <= o.timer.value)
            && var due := after.timer.value;
            && (delay.Some? ==> due <= now + (if delay.value > 0 then delay.value else 0))
            && (delay.None? ==> forall e :: e in o.items ==> due <= e.nextAttemptAt)
            && (after.timer != o.timer ==>
                  if delay.Some? then due == now + (if delay.value > 0 then delay.value else 0)
                  else exists e :: e in o.items && e.nextAttemptAt == due))
  {
    if o.items != [] { EarliestIsLeast(o.items); }
    hide Earliest;
  }

  lemma {:induction false} EarliestIsLeast(items: seq<Entry>)
    requires items != []
    ensures (exists e :: e in items && e.nextAttemptAt == Earliest(items)) && forall e :: e in items ==> Earliest(items) <= e.nextAttemptAt
  {
    assert items[0] in items;
    if |items| > 1 {
      EarliestIsLeast(items[1..]);
      assert items == [items[0]] + items[1..];
    }
  }

  // ---------------------------------------------------------------- when two accounts can share an id

  predicate Named(m: Message) { Trim(m.messageId) != "" }

  predicate Extends(longer: string, shorter: string) {
    shorter <= longer && (shorter == longer || !IsSpace(longer[|shorter|]))
  }

  /** Two accounts have messages of one id exactly when the label of one continues that of the other. */
  lemma AccountsCollideIff(company: Option<string>, account: Option<string>, company': Option<string>, account': Option<string>)
    ensures (exists m, m' :: Named(m) && Named(m') && m.company == company && m.account == account
                             && m'.company == company' && m'.account == account' && IdOf(m) == IdOf(m'))
        <==> Extends(Label(company, account), Label(company', account')) || Extends(Label(company', account'), Label(company, account))
  {
    var l, l' := Label(company, account), Label(company', account');
    forall m, m' | Named(m) && Named(m') && m.company == company && m.account == account
                   && m'.company == company' && m'.account == account' && IdOf(m) == IdOf(m')
      ensures Extends(l, l') || Extends(l', l)
    {
      SharedPrefix(l, Trim(m.messageId), l', Trim(m'.messageId));
      TrimmedStart(m.messageId);
      TrimmedStart(m'.messageId);
    }
    if Extends(l, l') { CollidingMessages(company, account, company', account'); }
    if Extends(l', l) { CollidingMessages(company', account', company, account); }
  }

  lemma SharedPrefix(a: string, x: string, b: string, y: string)
    requires a + x == b + y && x != "" && y != ""
    ensures a == b || (b < a && a[|b|] == y[0]) || (a < b && b[|a|] == x[0])
  {
    var whole := a + x;
    assert a == whole[..|a|] && b == whole[..|b|];
    assert forall i :: 0 <= i < |x| ==> whole[|a| + i] == x[i];
    assert forall i :: 0 <= i < |y| ==> whole[|b| + i] == y[i];
    if |b| < |a| { assert a[|b|] == whole[|b|]; }
    if |a| < |b| { assert b[|a|] == whole[|a|]; }
  }

  lemma CollidingMessages(company: Option<string>, account: Option<string>, company': Option<string>, account': Option<string>)
    requires Extends(Label(company, account), Label(company', account'))
    ensures exists m, m' :: Named(m) && Named(m') && m.company == company && m.account == account
                            && m'.company == company' && m'.account == account' && IdOf(m) == IdOf(m')
  {
    var l, l' := Label(company, account), Label(company', account');
    var m := Message(company, account, "m", "", "");
    var m' := Message(company', account', l[|l'|..] + "m", "", "");
    assert !IsSpace('m');
    hide IsSpace, Label;
    TrimKeeps(m.messageId);
    TrimKeeps(m'.messageId);
    assert IdOf(m') == l' + (l[|l'|..] + "m") == l + "m" == IdOf(m);
    assert Named(m) && Named(m');
  }

  lemma CutAtColon(a: string, x: string, b: string, y: string)
    requires a + ":" + x == b + ":" + y && ':' !in a && ':' !in b
    ensures a == b && x == y
  {
    var whole := a + ":" + x;
    assert whole[|a|] == ':' && whole[|b|] == ':';
    assert a == whole[..|a|] && b == whole[..|b|];
    assert (forall i :: 0 <= i < |a| ==> whole[i] == a[i] && a[i] in a) && (forall i :: 0 <= i < |b| ==> whole[i] == b[i] && b[i] in b);
    assert x == whole[|a| + 1..] && y == whole[|b| + 1..];
  }

  /** Without colons in company and account, the id tells tenant, account and message apart. */
  lemma IdsInjective(m: Message, m': Message)
    requires m.company.Some? && m.account.Some? && m'.company.Some? && m'.account.Some? && Named(m) && Named(m')
    requires ':' !in m.company.value && ':' !in m.account.value && ':' !in m'.company.value && ':' !in m'.account.value
    requires IdOf(m) == IdOf(m')
    ensures m.company == m'.company && m.account == m'.account && Trim(m.messageId) == Trim(m'.messageId)
  {
    var x, x' := m.account.value + ":" + Trim(m.messageId), m'.account.value + ":" + Trim(m'.messageId);
    assert IdOf(m) == m.company.value + ":" + x && IdOf(m') == m'.company.value + ":" + x';
    CutAtColon(m.company.value, x, m'.company.value, x');
    CutAtColon(m.account.value, Trim(m.messageId), m'.account.value, Trim(m'.messageId));
  }

  // ---------------------------------------------------------------- facts about batches

  lemma {:induction false} DueMembers(items: seq<Entry>, now: int)
    ensures forall e :: e in Due(items, now) <==> e in items && e.nextAttemptAt <= now
  {
    if items != [] { DueMembers(items[1..], now); }
  }

  lemma {:induction false} DueDistinct(items: seq<Entry>, now: int)
    requires DistinctIds(items)
    ensures DistinctIds(Due(items, now))
  {
    if items != [] {
      DueDistinct(items[1..], now);
      DueMembers(items[1..], now);
    }
  }

  ghost predicate SortedByAge(s: seq<Entry>) { forall i, j :: 0 <= i < j < |s| ==> s[i].createdAt <= s[j].createdAt }

  lemma {:induction false} InsertKeeps(e: Entry, s: seq<Entry>)
    requires SortedByAge(s)
    ensures SortedByAge(InsertByAge(e, s)) && multiset(InsertByAge(e, s)) == multiset(s) + multiset{e}
    ensures forall x :: x in InsertByAge(e, s) <==> x == e || x in s
  {
    if s != [] && e.createdAt > s[0].createdAt {
      InsertKeeps(e, s[1..]);
      var r := InsertByAge(e, s[1..]);
      assert s == [s[0]] + s[1..];
      assert forall x :: x in r ==> s[0].createdAt <= x.createdAt;
      assert InsertByAge(e, s) == [s[0]] + r;
    } else {
      assert InsertByAge(e, s) == [e] + s;
    }
  }

  lemma {:induction false} ByAgeSorts(s: seq<Entry>)
    ensures SortedByAge(ByAge(s)) && multiset(ByAge(s)) == multiset(s)
    ensures forall x :: x in ByAge(s) <==> x in s
  {
    if s != [] {
      ByAgeSorts(s[1..]);
      InsertKeeps(s[0], ByAge(s[1..]));
      assert s == [s[0]] + s[1..];
    }
  }

  lemma FirstDistinct(e: Entry, s: seq<Entry>)
    requires DistinctIds(s) && !Pending(s, e.id)
    ensures DistinctIds([e] + s)
  {
    assert forall i :: 0 <= i < |s| ==> s[i] in s;
  }

  lemma {:induction false} InsertDistinct(e: Entry, s: seq<Entry>)
    requires SortedByAge(s) && DistinctIds(s) && !Pending(s, e.id)
    ensures DistinctIds(InsertByAge(e, s))
  {
    if s != [] && e.createdAt > s[0].createdAt {
      assert !Pending(s[1..], e.id);
      InsertDistinct(e, s[1..]);
      InsertKeeps(e, s[1..]);
      hide DistinctIds;
      FirstDistinct(s[0], InsertByAge(e, s[1..])) by { TailDistinct(s); }
    } else {
      FirstDistinct(e, s);
    }
  }

  lemma TailDistinct(s: seq<Entry>)
    requires s != [] && DistinctIds(s)
    ensures DistinctIds(s[1..]) && !Pending(s[1..], s[0].id)
  {
  }

  lemma {:induction false} ByAgeDistinct(s: seq<Entry>)
    requires DistinctIds(s)
    ensures DistinctIds(ByAge(s))
  {
    if s != [] {
      ByAgeDistinct(s[1..]);
      ByAgeSorts(s[1..]);
      InsertDistinct(s[0], ByAge(s[1..]));
    }
  }

  /** A batch is the due entries, oldest first, and of more than twenty the oldest twenty. */
  lemma BatchIsOldestDue(items: seq<Entry>, now: int)
    ensures var batch := DueBatch(items, now);
      && |batch| == Min(|Due(items, now)|, BATCH_SIZE)
      && SortedByAge(batch)
      && (forall e :: e in batch ==> e in items && e.nextAttemptAt <= now)
      && (forall e, b :: e in items && e.nextAttemptAt <= now && e !in batch && b in batch ==> b.createdAt <= e.createdAt)
      && (|batch| < BATCH_SIZE ==> forall e :: e in items && e.nextAttemptAt <= now ==> e in batch)
  {
    var due := Due(items, now);
    DueMembers(items, now);
    ByAgeSorts(due);
    assert |multiset(ByAge(due))| == |multiset(due)|;
    FirstOfSorted(ByAge(due), |DueBatch(items, now)|);
    hide Due, ByAge;
    assert |DueBatch(items, now)| < BATCH_SIZE ==> DueBatch(items, now) == ByAge(due);
  }

  lemma FirstOfSorted(s: seq<Entry>, n: nat)
    requires SortedByAge(s) && n <= |s|
    ensures SortedByAge(s[..n]) && (forall e :: e in s[..n] ==> e in s)
    ensures forall e, b :: e in s && e !in s[..n] && b in s[..n] ==> b.createdAt <= e.createdAt
  {
  }

  lemma BatchDistinct(items: seq<Entry>, now: int)
    requires DistinctIds(items)
    ensures DistinctIds(DueBatch(items, now))
  {
    DueDistinct(items, now);
    ByAgeDistinct(Due(items, now));
  }

  // ---------------------------------------------------------------- a flush, entry by entry

  /** What the end of one delivery does to the store. */
  function AfterAttempt(items: seq<Entry>, id: string, attempt: Attempt, time: int): seq<Entry> {
    match attempt
    case Delivered => Without(items, id)
    case Failed(error) => MarkFailure(items, id, time, error)
  }

  lemma {:induction false} WithoutConcat(xs: seq<Entry>, ys: seq<Entry>, id: string)
    ensures Without(xs + ys, id) == Without(xs, id) + Without(ys, id)
  {
    if xs == [] {
      assert xs + ys == ys;
    } else {
      assert (xs + ys)[1..] == xs[1..] + ys && (xs + ys)[0] == xs[0];
      WithoutConcat(xs[1..], ys, id);
    }
  }

  lemma MarkConcat(xs: seq<Entry>, ys: seq<Entry>, id: string, now: int, error: string)
    ensures MarkFailure(xs + ys, id, now, error) == MarkFailure(xs, id, now, error) + MarkFailure(ys, id, now, error)
  {
    hide FailedOnce;
  }

  lemma AttemptConcat(xs: seq<Entry>, ys: seq<Entry>, id: string, attempt: Attempt, time: int)
    ensures AfterAttempt(xs + ys, id, attempt, time) == AfterAttempt(xs, id, attempt, time) + AfterAttempt(ys, id, attempt, time)
  {
    hide Without, MarkFailure;
    match attempt {
      case Delivered => WithoutConcat(xs, ys, id);
      case Failed(error) => MarkConcat(xs, ys, id, time, error);
    }
  }

  lemma {:induction false} EntryAttempt(e: Entry, batch: seq<Entry>, attempts: seq<Attempt>, times: seq<int>, b: Entry, attempt: Attempt, time: int)
    requires |batch| == |attempts| == |times| && DistinctIds(batch + [b])
    ensures AfterFlush(e, batch + [b], attempts + [attempt], times + [time]) == AfterAttempt(AfterFlush(e, batch, attempts, times), b.id, attempt, time)
  {
    if batch == [] {
      assert AfterFlush(e, [], [], []) == [e];
      assert Without([e], b.id) == if e.id == b.id then [] else [e];
    } else {
      assert (batch + [b])[1..] == batch[1..] + [b] && (attempts + [attempt])[1..] == attempts[1..] + [attempt] && (times + [time])[1..] == times[1..] + [time];
      assert (batch + [b])[0].id != (batch + [b])[|batch|].id;
      if batch[0].id != e.id {
        assert DistinctIds(batch[1..] + [b]) by {
          forall i, j | 0 <= i < j < |batch| ensures (batch[1..] + [b])[i].id != (batch[1..] + [b])[j].id {
            assert (batch + [b])[i + 1].id != (batch + [b])[j + 1].id;
          }
        }
        EntryAttempt(e, batch[1..], attempts[1..], times[1..], b, attempt, time);
      } else {
        var marked := FailedOnce(e, times[0], if attempts[0].Failed? then attempts[0].error else "");
        assert Without([marked], b.id) == [marked];
      }
    }
  }

  lemma {:induction false} AllAttempt(items: seq<Entry>, batch: seq<Entry>, attempts: seq<Attempt>, times: seq<int>, b: Entry, attempt: Attempt, time: int)
    requires |batch| == |attempts| == |times| && DistinctIds(batch + [b])
    ensures AllAfterFlush(items, batch + [b], attempts + [attempt], times + [time]) == AfterAttempt(AllAfterFlush(items, batch, attempts, times), b.id, attempt, time)
  {
    if items != [] {
      AllAttempt(items[1..], batch, attempts, times, b, attempt, time);
      EntryAttempt(items[0], batch, attempts, times, b, attempt, time);
      AttemptConcat(AfterFlush(items[0], batch, attempts, times), AllAfterFlush(items[1..], batch, attempts, times), b.id, attempt, time);
    }
  }

  lemma OneMoreAttempt(items: seq<Entry>, batch: seq<Entry>, attempts: seq<Attempt>, times: seq<int>, n: nat)
    requires n < |batch| == |attempts| == |times| && DistinctIds(batch)
    ensures AllAfterFlush(items, batch[..n + 1], attempts[..n + 1], times[..n + 1])
         == AfterAttempt(AllAfterFlush(items, batch[..n], attempts[..n], times[..n]), batch[n].id, attempts[n], times[n])
  {
    assert batch[..n + 1] == batch[..n] + [batch[n]] && attempts[..n + 1] == attempts[..n] + [attempts[n]] && times[..n + 1] == times[..n] + [times[n]];
    AllAttempt(items, batch[..n], attempts[..n], times[..n], batch[n], attempts[n], times[n]);
  }

  lemma {:induction false} NothingAttempted(items: seq<Entry>)
    ensures AllAfterFlush(items, [], [], []) == items
  {
    if items != [] { NothingAttempted(items[1..]); }
  }

  lemma {:induction false} FlushedEntry(e: Entry, batch: seq<Entry>, attempts: seq<Attempt>, times: seq<int>, k: nat)
    requires k < |batch| == |attempts| == |times| && DistinctIds(batch) && batch[k].id == e.id
    ensures AfterFlush(e, batch, attempts, times) == match attempts[k] case Delivered => [] case Failed(error) => [FailedOnce(e, times[k], error)]
  {
    hide FailedOnce;
    if k > 0 {
      assert batch[0].id != e.id;
      FlushedEntry(e, batch[1..], attempts[1..], times[1..], k - 1);
    }
  }

  lemma {:induction false} SparedEntry(e: Entry, batch: seq<Entry>, attempts: seq<Attempt>, times: seq<int>)
    requires |batch| == |attempts| == |times| && forall k :: 0 <= k < |batch| ==> batch[k].id != e.id
    ensures AfterFlush(e, batch, attempts, times) == [e]
  {
    if batch != [] { SparedEntry(e, batch[1..], attempts[1..], times[1..]); }
  }

  lemma {:induction false} FlushedMembers(items: seq<Entry>, batch: seq<Entry>, attempts: seq<Attempt>, times: seq<int>, r: Entry)
    requires |batch| == |attempts| == |times|
    ensures r in AllAfterFlush(items, batch, attempts, times) <==> exists e :: e in items && r in AfterFlush(e, batch, attempts, times)
  {
    if items != [] {
      FlushedMembers(items[1..], batch, attempts, times, r);
      hide AfterFlush;
      var first, rest := AfterFlush(items[0], batch, attempts, times), AllAfterFlush(items[1..], batch, attempts, times);
      assert AllAfterFlush(items, batch, attempts, times) == first + rest;
      hide AllAfterFlush;
      assert items[0] in items;
      if r in rest {
        var e :| e in items[1..] && r in AfterFlush(e, batch, attempts, times);
        assert e in items;
      }
      if e :| e in items && r in AfterFlush(e, batch, attempts, times) {
        assert e == items[0] || e in items[1..];
      }
    }
  }

  /** What one entry of the store has become, told by how the delivery of its id ended, if it was in the batch. */
  ghost predicate Became(e: Entry, r: Entry, batch: seq<Entry>, attempts: seq<Attempt>, times: seq<int>)
    requires |batch| == |attempts| == |times|
  {
    || (r == e && forall k :: 0 <= k < |batch| ==> batch[k].id != e.id)
    || exists k :: 0 <= k < |batch| && batch[k].id == e.id && attempts[k].Failed?
         && var delay := 2000 * Pow2(e.attemptCount);
            r == Entry(e.id, e.message, e.createdAt, e.attemptCount + 1, times[k] + (if delay < 300000 then delay else 300000),
                       Some(if |attempts[k].error| <= 500 then attempts[k].error else attempts[k].error[..500]))
  }

  /** A flush removes exactly the entries delivered, marks those that failed, and leaves the others. */
  lemma FlushMeaning(items: seq<Entry>, batch: seq<Entry>, attempts: seq<Attempt>, times: seq<int>, r: Entry)
    requires |batch| == |attempts| == |times| && DistinctIds(batch)
    ensures r in AllAfterFlush(items, batch, attempts, times) <==> exists e :: e in items && Became(e, r, batch, attempts, times)
  {
    FlushedMembers(items, batch, attempts, times, r);
    forall e | e in items ensures r in AfterFlush(e, batch, attempts, times) <==> Became(e, r, batch, attempts, times) {
      BecameIs(e, r, batch, attempts, times);
    }
    hide AllAfterFlush, AfterFlush, Became;
  }

  lemma BecameIs(e: Entry, r: Entry, batch: seq<Entry>, attempts: seq<Attempt>, times: seq<int>)
    requires |batch| == |attempts| == |times| && DistinctIds(batch)
    ensures r in AfterFlush(e, batch, attempts, times) <==> Became(e, r, batch, attempts, times)
  {
    if k :| 0 <= k < |batch| && batch[k].id == e.id {
      FlushedEntry(e, batch, attempts, times, k);
      if attempts[k].Failed? { FailedOnceMeaning(e, times[k], attempts[k].error); }
      assert forall j :: 0 <= j < |batch| && batch[j].id == e.id ==> j == k;
      hide AfterFlush, FailedOnce, DistinctIds;
    } else {
      SparedEntry(e, batch, attempts, times);
      hide AfterFlush;
    }
  }

  class WhatsappMessageOutbox {
    var items: seq<Entry>
    var timer: Option<int>
    var flushing: bool

    constructor (stored: seq<Entry>)
      ensures State() == Outbox(stored, None, false)
    {
      items, timer, flushing := stored, None, false;
    }

    function State(): Outbox
      reads this
    {
      Outbox(items, timer, flushing)
    }

    method ScheduleFlush(delayOverride: Option<int>, now: int)
      modifies `timer
      ensures State() == Schedule(old(State()), delayOverride, now)
    {
      if items == [] {
        timer := None;
        return;
      }
      var earliestDueAt := now;
      match delayOverride {
        case None =>
          earliestDueAt := items[0].nextAttemptAt;
          for n := 1 to |items|
            invariant Earliest(items) == if n == |items| then earliestDueAt else Min(earliestDueAt, Earliest(items[n..]))
          {
            assert items[n..][1..] == items[n + 1..];
            earliestDueAt := Min(earliestDueAt, items[n].nextAttemptAt);
          }
        case Some(delay) => earliestDueAt := now + Max(0, delay);
      }
      if timer.Some? && timer.value <= earliestDueAt { return; }
      timer := Some(earliestDueAt);
    }

    method EnqueueMessage(m: Message, now: int)
      modifies `items, `timer
      ensures State() == Enqueue(old(State()), m, now)
    {
      if Pending(items, IdOf(m)) {
        ScheduleFlush(Some(0), now);
        return;
      }
      items := items + [Entry(IdOf(m), m, now, 0, now, None)];
      ScheduleFlush(Some(0), now);
    }

    method Resume(now: int)
      modifies `timer
      ensures State() == Schedule(old(State()), None, now) || (old(items) == [] && State() == old(State()))
    {
      if |items| > 0 { ScheduleFlush(None, now); }
    }

    /**
     A whole flush that nothing interrupts, the deliveries ending as given at the given times: one after
     the other, they leave every entry as its own delivery left it.
     */
    method Flush(now: int, attempts: seq<Attempt>, times: seq<int>, end: int)
      requires |attempts| == |times| == |DueBatch(items, now)|
      requires DistinctIds(items)
      modifies this
      ensures old(flushing) ==> State() == old(State())
      ensures !old(flushing) ==> State() == Schedule(Outbox(old(AllAfterFlush(items, DueBatch(items, now), attempts, times)), old(timer), false), None, end)
    {
      if flushing { return; }
      flushing := true;
      var dueEntries := DueBatch(items, now);
      BatchDistinct(items, now);
      NothingAttempted(items);
      for n := 0 to |dueEntries|
        invariant flushing && timer == old(timer)
        invariant items == AllAfterFlush(old(items), dueEntries[..n], attempts[..n], times[..n])
      {
        OneMoreAttempt(old(items), dueEntries, attempts, times, n);
        var entry := dueEntries[n];
        match attempts[n] {
          case Delivered => items := Without(items, entry.id);
          case Failed(error) => items := MarkFailure(items, entry.id, times[n], error);
        }
      }
      assert dueEntries[..|dueEntries|] == dueEntries && attempts[..|dueEntries|] == attempts && times[..|dueEntries|] == times;
      flushing := false;
      ScheduleFlush(None, end);
    }
  }
}
