/**
 The assistant's outbox of one thread: two storage items, the pending request and the record of the last
 completion. Entries are kept as JSON text and validated whenever they are read.
 */
module AssistantOutbox {
  import opened Wrappers
  import opened Json
  import opened CanonicalJson
  import opened JsText
  import opened RequestIds
  import opened IntentLedger

  const RECENT_COMPLETION_TTL_MS := 30000
  const PENDING_REQUEST_TTL_MS := 10 * 60 * 1000
  const CLOCK_SKEW_MS := 5 * 60000

  datatype Pending = Pending(
    text: string,
    requestId: string,
    knownTurnIds: seq<string>,
    historyBaselineReady: bool,
    contextFingerprint: string,
    createdAt: int
  )

  datatype Completion = Completion(requestId: string, textDigest: string, contextFingerprint: string, completedAt: int)

  datatype Turn = Turn(id: string, input: string)

  datatype OutboxError = EmptyMessage | RequestConflict | ContextChanged | StorageUnavailable

  // ---------------------------------------------------------------- entries as text

  function PendingEntries(p: Pending): seq<Entry> {
    [Entry("text", Str(p.text)), Entry("requestId", Str(p.requestId)), Entry("knownTurnIds", Arr(StrItems(p.knownTurnIds))),
     Entry("historyBaselineReady", Bool(p.historyBaselineReady)), Entry("contextFingerprint", Str(p.contextFingerprint)),
     Entry("createdAt", IntNum(p.createdAt))]
  }

  function PendingText(p: Pending): string { Print(Obj(PendingEntries(p))) }

  function CompletedEntries(c: Completion): seq<Entry> {
    [Entry("requestId", Str(c.requestId)), Entry("textDigest", Str(c.textDigest)),
     Entry("contextFingerprint", Str(c.contextFingerprint)), Entry("completedAt", IntNum(c.completedAt))]
  }

  function CompletedText(c: Completion): string { Print(Obj(CompletedEntries(c))) }

  const PENDING_FIELDS := {"text", "requestId", "knownTurnIds", "historyBaselineReady", "contextFingerprint", "createdAt"}
  const COMPLETED_FIELDS := {"requestId", "textDigest", "contextFingerprint", "completedAt"}

  function BoolField(m: map<string, Value>, k: string): Option<bool> {
    if k in m && m[k].VBool? then Some(m[k].b) else None
  }

  function ReadStrings(values: seq<Value>): Option<seq<string>> {
    if values == [] then Some([])
    else match ReadStrings(values[1..])
      case Some(rest) => if values[0].VStr? then Some([values[0].s] + rest) else None
      case None => None
  }

  function TextsField(m: map<string, Value>, k: string): Option<seq<string>> {
    if k in m && m[k].VArr? then ReadStrings(m[k].items) else None
  }

  function PendingOf(v: Value): Option<Pending> {
    if !v.VObj? || !(v.fields.Keys <= PENDING_FIELDS) then None
    else
      var m := v.fields;
      match (TextField(m, "text"), TextField(m, "requestId"), TextsField(m, "knownTurnIds"))
      case (Some(text), Some(id), Some(turns)) =>
        (match (BoolField(m, "historyBaselineReady"), TextField(m, "contextFingerprint"), IntField(m, "createdAt"))
         case (Some(ready), Some(context), Some(createdAt)) => Some(Pending(text, id, turns, ready, context, createdAt))
         case _ => None)
      case _ => None
  }

  function CompletedOf(v: Value): Option<Completion> {
    if !v.VObj? || !(v.fields.Keys <= COMPLETED_FIELDS) then None
    else
      var m := v.fields;
      match (TextField(m, "requestId"), TextField(m, "textDigest"), TextField(m, "contextFingerprint"), IntField(m, "completedAt"))
      case (Some(id), Some(digest), Some(context), Some(completedAt)) => Some(Completion(id, digest, context, completedAt))
      case _ => None
  }

  predicate IsPending(p: Pending) {
    && Trim(p.text) != ""
    && IsUuid(p.requestId)
    && (forall id :: id in p.knownTurnIds ==> id != "")
    && IsFingerprint(p.contextFingerprint)
    && p.createdAt > 0
  }

  predicate IsCompleted(c: Completion) {
    IsUuid(c.requestId) && IsFingerprint(c.textDigest) && IsFingerprint(c.contextFingerprint) && c.completedAt > 0
  }

  predicate PendingLive(createdAt: int, now: int) { createdAt - CLOCK_SKEW_MS <= now <= createdAt + PENDING_REQUEST_TTL_MS }

  /** The entry a stored text holds at a time; a missing, malformed, invalid or expired one is none. */
  function ParsePending(raw: Option<string>, now: int): Option<Pending> {
    if raw.None? || raw.value == "" then None
    else match Reread(raw.value)
      case None => None
      case Some(v) =>
        (match PendingOf(v)
         case Some(p) => if IsPending(p) && PendingLive(p.createdAt, now) then Some(p) else None
         case None => None)
  }

  function ParseCompleted(raw: Option<string>, now: int): Option<Completion> {
    if raw.None? || raw.value == "" then None
    else match Reread(raw.value)
      case None => None
      case Some(v) =>
        (match CompletedOf(v)
         case Some(c) => if IsCompleted(c) && now <= c.completedAt + RECENT_COMPLETION_TTL_MS then Some(c) else None
         case None => None)
  }

  // ---------------------------------------------------------------- operations on the two items

  datatype Store = Store(pending: Option<string>, completed: Option<string>)

  /** What is there but does not read back is removed. */
  function Cleaned(raw: Option<string>, valid: bool): Option<string> {
    if raw.Some? && raw.value != "" && !valid then None else raw
  }

  function CleanPending(s: Store, now: int): Store { s.(pending := Cleaned(s.pending, ParsePending(s.pending, now).Some?)) }

  function CleanCompleted(s: Store, now: int): Store { s.(completed := Cleaned(s.completed, ParseCompleted(s.completed, now).Some?)) }

  function Ids(turns: seq<Turn>): seq<string> { seq(|turns|, i requires 0 <= i < |turns| => turns[i].id) }

  /** `reserveAssistantRequest`: the pending request itself, a refusal, or a new request. */
  function Reserve(text: string, turns: seq<Turn>, ready: bool, context: string, active: Option<Pending>, now: int): Result<Pending, OutboxError> {
    if Trim(text) == "" then Failure(EmptyMessage)
    else match active
      case Some(p) =>
        if p.text != text then Failure(RequestConflict)
        else if p.contextFingerprint != context then Failure(ContextChanged)
        else Success(p)
      case None => Success(Pending(text, MintedId(text, Ids(turns), ready, context), Ids(turns), ready, context, now))
  }

  function ReserveStored(s: Store, text: string, turns: seq<Turn>, ready: bool, context: string, now: int): Result<Pending, OutboxError> {
    var active, recent := ParsePending(s.pending, now), ParseCompleted(s.completed, now);
    if active.None? && recent.Some? && recent.value.textDigest == TextDigest(text) then
      if recent.value.contextFingerprint != context then Failure(ContextChanged)
      else Success(Pending(text, recent.value.requestId, Ids(turns), ready, context, now))
    else Reserve(text, turns, ready, context, active, now)
  }

  function WithPending(s: Store, p: Pending): Store { s.(pending := Some(PendingText(p))) }

  /** Every state of the storage during a reservation: each write is a point at which the window may crash. */
  function ReserveWrites(s: Store, text: string, turns: seq<Turn>, ready: bool, context: string, now: int): seq<Store> {
    var c := CleanPending(s, now);
    var d := CleanCompleted(c, now);
    [c, d] + match ReserveStored(s, text, turns, ready, context, now)
             case Success(p) => [WithPending(d, p)]
             case Failure(_) => []
  }

  function ClearPending(s: Store, expected: string, now: int): Store {
    if expected == "" then s.(pending := None)
    else
      var active := ParsePending(s.pending, now);
      if active.Some? && active.value.requestId != expected then s else s.(pending := None)
  }

  function RecordOf(p: Pending, completedAt: int): Completion {
    Completion(p.requestId, TextDigest(p.text), p.contextFingerprint, completedAt)
  }

  function WithCompleted(s: Store, p: Pending, completedAt: int): Store {
    s.(completed := Some(CompletedText(RecordOf(p, completedAt))))
  }

  /** Completion writes the record before it removes the pending entry. */
  function CompletionWrites(s: Store, p: Pending, completedAt: int, now: int): seq<Store> {
    var w := WithCompleted(s, p, completedAt);
    [w, ClearPending(w, p.requestId, now)]
  }

  /** A turn of the server's history that answers the pending request. */
  predicate Durable(turns: seq<Turn>, p: Pending) {
    exists t :: t in turns && t.id !in p.knownTurnIds && t.input == p.text
  }

  /** Reconciling with a history: the request it leaves pending, and the storage. */
  function Reconciled(s: Store, turns: seq<Turn>, now: int): (Option<Pending>, Store) {
    var active, cleaned := ParsePending(s.pending, now), CleanPending(s, now);
    if active.Some? && Durable(turns, active.value) then (None, CompletionWrites(cleaned, active.value, now, now)[1]) else (active, cleaned)
  }

  class AssistantRequestOutbox {
    var pending: Option<string>
    var completed: Option<string>

    constructor (stored: Store)
      ensures State() == stored
    {
      pending, completed := stored.pending, stored.completed;
    }

    function State(): Store
      reads this
    {
      Store(pending, completed)
    }

    method ReadPending(now: int) returns (active: Option<Pending>)
      modifies `pending
      ensures active == ParsePending(old(pending), now) && State() == CleanPending(old(State()), now)
    {
      if pending.None? || pending.value == "" { return None; }
      active := ParsePending(pending, now);
      if active.None? { pending := None; }
    }

    method ReadRecentlyCompleted(now: int) returns (recent: Option<Completion>)
      modifies `completed
      ensures recent == ParseCompleted(old(completed), now) && State() == CleanCompleted(old(State()), now)
    {
      if completed.None? || completed.value == "" { return None; }
      recent := ParseCompleted(completed, now);
      if recent.None? { completed := None; }
    }

    method ReserveStoredRequest(text: string, turns: seq<Turn>, ready: bool, context: string, now: int, writable: bool)
      returns (r: Result<Pending, OutboxError>)
      modifies this
      ensures var done := ReserveStored(old(State()), text, turns, ready, context, now);
        var writes := ReserveWrites(old(State()), text, turns, ready, context, now);
        if done.Success? && !writable then r == Failure(StorageUnavailable) && State() == writes[1]
        else r == done && State() == writes[|writes| - 1]
    {
      hide ParsePending, ParseCompleted, TextDigest, PendingText, MintedId;
      var active := ReadPending(now);
      var recent := ReadRecentlyCompleted(now);
      if active.None? && recent.Some? && recent.value.textDigest == TextDigest(text) {
        if recent.value.contextFingerprint != context { return Failure(ContextChanged); }
        var recovered := Pending(text, recent.value.requestId, Ids(turns), ready, context, now);
        if !writable { return Failure(StorageUnavailable); }
        pending := Some(PendingText(recovered));
        return Success(recovered);
      }
      r := Reserve(text, turns, ready, context, active, now);
      if r.Failure? { return; }
      if !writable { return Failure(StorageUnavailable); }
      pending := Some(PendingText(r.value));
    }

    method ClearPendingRequest(expected: string, now: int)
      modifies `pending
      ensures pending == ClearPending(old(State()), expected, now).pending
    {
      if expected != "" {
        var active := ReadPending(now);
        if active.Some? && active.value.requestId != expected { return; }
      }
      pending := None;
    }

    method MarkCompleted(request: Pending, completedAt: int, now: int, writable: bool) returns (r: Result<(), OutboxError>)
      modifies this
      ensures if writable then r == Success(()) && State() == CompletionWrites(old(State()), request, completedAt, now)[1]
              else r == Failure(StorageUnavailable) && State() == old(State())
    {
      if !writable { return Failure(StorageUnavailable); }
      completed := Some(CompletedText(RecordOf(request, completedAt)));
      ClearPendingRequest(request.requestId, now);
      return Success(());
    }

    /** The pending request that history does not yet answer; an answered one is completed. */
    method Reconcile(turns: seq<Turn>, now: int, writable: bool) returns (left: Option<Pending>, r: Result<(), OutboxError>)
      modifies this
      ensures var active, (unanswered, after) := ParsePending(old(pending), now), Reconciled(old(State()), turns, now);
        left == unanswered
        && if writable || left == active then r == Success(()) && State() == after
           else r == Failure(StorageUnavailable) && State() == CleanPending(old(State()), now)
    {
      r := Success(());
      left := ReadPending(now);
      if left.Some? && Durable(turns, left.value) {
        r := MarkCompleted(left.value, now, now, writable);
        left := None;
      }
    }
  }

  // ---------------------------------------------------------------- what is written reads back

  lemma PendingKeys(p: Pending)
    ensures KeysDistinct(PendingEntries(p)) && forall k :: 0 <= k < 6 ==> PendingEntries(p)[k].key in PENDING_FIELDS
  {
    var es := PendingEntries(p);
    hide IntNum, StrItems;
    assert NameCode("text") == 4101 && NameCode("requestId") == 9101 && NameCode("knownTurnIds") == 12110;
    assert NameCode("historyBaselineReady") == 20105 && NameCode("contextFingerprint") == 18111 && NameCode("createdAt") == 9114;
    forall a, b | 0 <= a < b < |es| ensures es[a].key != es[b].key {
      assert NameCode(es[a].key) != NameCode(es[b].key);
    }
  }

  lemma CompletedKeys(c: Completion)
    ensures KeysDistinct(CompletedEntries(c)) && forall k :: 0 <= k < 4 ==> CompletedEntries(c)[k].key in COMPLETED_FIELDS
  {
    var es := CompletedEntries(c);
    hide IntNum;
    assert NameCode("requestId") == 9101 && NameCode("textDigest") == 10101 && NameCode("contextFingerprint") == 18111 && NameCode("completedAt") == 11111;
    forall a, b | 0 <= a < b < |es| ensures es[a].key != es[b].key {
      assert NameCode(es[a].key) != NameCode(es[b].key);
    }
  }

  lemma FieldNames(es: seq<Entry>, names: set<string>)
    requires KeysDistinct(es) && forall k :: 0 <= k < |es| ==> es[k].key in names
    ensures Fields(es).Keys <= names
  {
    FieldsOf(es);
  }

  lemma {:induction false} StringsRead(ids: seq<string>)
    ensures ReadStrings(MeaningItems(StrItems(ids))) == Some(ids)
  {
    if ids != [] {
      assert StrItems(ids)[1..] == StrItems(ids[1..]) && StrItems(ids)[0] == Str(ids[0]);
      StringsRead(ids[1..]);
      assert ids == [ids[0]] + ids[1..];
    }
  }

  lemma PendingFields(p: Pending)
    ensures var m := Fields(PendingEntries(p));
      && m.Keys <= PENDING_FIELDS
      && TextField(m, "text") == Some(p.text) && TextField(m, "requestId") == Some(p.requestId)
      && TextsField(m, "knownTurnIds") == Some(p.knownTurnIds) && BoolField(m, "historyBaselineReady") == Some(p.historyBaselineReady)
      && TextField(m, "contextFingerprint") == Some(p.contextFingerprint) && IntField(m, "createdAt") == Some(p.createdAt)
  {
    var es := PendingEntries(p);
    PendingKeys(p);
    FieldNames(es, PENDING_FIELDS);
    StringsRead(p.knownTurnIds);
    IntTokenValue(p.createdAt);
    hide Fields, KeysDistinct, StrItems, MeaningItems, IntToken, TokenInt, ReadStrings;
    FieldAt(es, 0, "text");
    FieldAt(es, 1, "requestId");
    FieldAt(es, 2, "knownTurnIds");
    FieldAt(es, 3, "historyBaselineReady");
    FieldAt(es, 4, "contextFingerprint");
    FieldAt(es, 5, "createdAt");
  }

  lemma CompletedFields(c: Completion)
    ensures var m := Fields(CompletedEntries(c));
      && m.Keys <= COMPLETED_FIELDS
      && TextField(m, "requestId") == Some(c.requestId) && TextField(m, "textDigest") == Some(c.textDigest)
      && TextField(m, "contextFingerprint") == Some(c.contextFingerprint) && IntField(m, "completedAt") == Some(c.completedAt)
  {
    var es := CompletedEntries(c);
    CompletedKeys(c);
    FieldNames(es, COMPLETED_FIELDS);
    IntTokenValue(c.completedAt);
    hide Fields, KeysDistinct, IntToken, TokenInt;
    FieldAt(es, 0, "requestId");
    FieldAt(es, 1, "textDigest");
    FieldAt(es, 2, "contextFingerprint");
    FieldAt(es, 3, "completedAt");
  }

  lemma TextRereads(es: seq<Entry>)
    requires forall k :: 0 <= k < |es| ==> Printable(es[k].value)
    ensures Print(Obj(es)) != "" && Reread(Print(Obj(es))) == Some(VObj(Fields(es)))
  {
    PrintRoundTrip(Obj(es));
    PrintStart(Obj(es));
    hide Print, Parse, Fields;
  }

  /** A stored entry reads back as it was written exactly while it is valid and live. */
  lemma PendingReadsBack(p: Pending, now: int)
    ensures ParsePending(Some(PendingText(p)), now) == if IsPending(p) && PendingLive(p.createdAt, now) then Some(p) else None
  {
    var es := PendingEntries(p);
    IntNumPrintable(p.createdAt);
    assert forall k :: 0 <= k < |es| ==> Printable(es[k].value) by { hide IntNum; }
    TextRereads(es);
    PendingFields(p);
    hide Reread, Fields, PendingEntries, IsPending, PendingLive, TextField, TextsField, BoolField, IntField, Print;
  }

  lemma CompletedReadsBack(c: Completion, now: int)
    ensures ParseCompleted(Some(CompletedText(c)), now) == if IsCompleted(c) && now <= c.completedAt + RECENT_COMPLETION_TTL_MS then Some(c) else None
  {
    var es := CompletedEntries(c);
    IntNumPrintable(c.completedAt);
    assert forall k :: 0 <= k < |es| ==> Printable(es[k].value) by { hide IntNum; }
    TextRereads(es);
    CompletedFields(c);
    hide Reread, Fields, CompletedEntries, IsCompleted, TextField, IntField, Print;
  }

  lemma {:induction false} StringsIff(values: seq<Value>, ids: seq<string>)
    ensures ReadStrings(values) == Some(ids) <==> |values| == |ids| && forall n :: 0 <= n < |ids| ==> values[n] == VStr(ids[n])
  {
    if values != [] && ids != [] {
      StringsIff(values[1..], ids[1..]);
      assert ids == [ids[0]] + ids[1..];
      forall n | 0 < n < |ids| && |values| == |ids| ensures values[n] == values[1..][n - 1] && ids[n] == ids[1..][n - 1] {}
      forall n | 0 <= n < |ids[1..]| && |values| == |ids| ensures values[1..][n] == values[n + 1] && ids[1..][n] == ids[n + 1] {}
    }
  }

  /** A value reads as a pending request exactly if it has its fields, each with its value and type, and no other. */
  lemma PendingIff(v: Value, p: Pending)
    ensures PendingOf(v) == Some(p)
       <==> && v.VObj? && v.fields.Keys <= PENDING_FIELDS
            && IsText(v.fields, "text", p.text) && IsText(v.fields, "requestId", p.requestId)
            && "knownTurnIds" in v.fields && v.fields["knownTurnIds"].VArr? && |v.fields["knownTurnIds"].items| == |p.knownTurnIds|
            && (forall n :: 0 <= n < |p.knownTurnIds| ==> v.fields["knownTurnIds"].items[n] == VStr(p.knownTurnIds[n]))
            && "historyBaselineReady" in v.fields && v.fields["historyBaselineReady"] == VBool(p.historyBaselineReady)
            && IsText(v.fields, "contextFingerprint", p.contextFingerprint) && IsNumber(v.fields, "createdAt", p.createdAt)
  {
    hide TokenInt, ReadStrings;
    if v.VObj? && "knownTurnIds" in v.fields && v.fields["knownTurnIds"].VArr? {
      StringsIff(v.fields["knownTurnIds"].items, p.knownTurnIds);
    }
  }

  lemma CompletedIff(v: Value, c: Completion)
    ensures CompletedOf(v) == Some(c)
       <==> && v.VObj? && v.fields.Keys <= COMPLETED_FIELDS
            && IsText(v.fields, "requestId", c.requestId) && IsText(v.fields, "textDigest", c.textDigest)
            && IsText(v.fields, "contextFingerprint", c.contextFingerprint) && IsNumber(v.fields, "completedAt", c.completedAt)
  {
    hide TokenInt;
  }

  lemma FingerprintMeaning(s: string)
    ensures IsFingerprint(s) <==> |s| == 16 && forall c :: c in s ==> '0' <= c <= '9' || 'a' <= c <= 'f'
  {
    assert forall i :: 0 <= i < |s| ==> s[i] in s;
  }

  /**
   What a stored request must be to be read: a text that is not blank, a version 4 UUID, known turns that all
   have ids, a fingerprint of 16 hexadecimal digits, and a start after 1970, no more than five minutes ahead
   of the clock and no more than ten behind it.
   */
  lemma StoredRequestIff(p: Pending, now: int)
    ensures ParsePending(Some(PendingText(p)), now) == Some(p)
       <==> && !Blank(p.text) && IsUuid(p.requestId) && "" !in p.knownTurnIds
            && |p.contextFingerprint| == 16 && (forall c :: c in p.contextFingerprint ==> '0' <= c <= '9' || 'a' <= c <= 'f')
            && 0 < p.createdAt <= now + 300000 && now <= p.createdAt + 600000
  {
    PendingReadsBack(p, now);
    TrimEmptyIff(p.text);
    FingerprintMeaning(p.contextFingerprint);
    hide ParsePending, PendingText, Trim, Blank, IsUuid, IsFingerprint;
  }

  /** And what a completion record must be: its id a UUID, both digests fingerprints, no older than half a minute. */
  lemma StoredCompletionIff(c: Completion, now: int)
    ensures ParseCompleted(Some(CompletedText(c)), now) == Some(c)
       <==> && IsUuid(c.requestId)
            && |c.textDigest| == 16 && (forall ch :: ch in c.textDigest ==> '0' <= ch <= '9' || 'a' <= ch <= 'f')
            && |c.contextFingerprint| == 16 && (forall ch :: ch in c.contextFingerprint ==> '0' <= ch <= '9' || 'a' <= ch <= 'f')
            && 0 < c.completedAt && now <= c.completedAt + 30000
  {
    CompletedReadsBack(c, now);
    FingerprintMeaning(c.textDigest);
    FingerprintMeaning(c.contextFingerprint);
    hide ParseCompleted, CompletedText, IsUuid, IsFingerprint;
  }

  /**
   A new request reads back unchanged for its whole lifetime exactly when the turns it was minted from all
   have ids, the context is given by a fingerprint, and the clock is past 1970.
   */
  lemma MintedReadsBackIff(text: string, turns: seq<Turn>, ready: bool, context: string, now: int, later: int)
    requires Trim(text) != "" && now <= later <= now + PENDING_REQUEST_TTL_MS
    ensures var minted := Reserve(text, turns, ready, context, None, now);
      && minted.Success?
      && (ParsePending(Some(PendingText(minted.value)), later) == Some(minted.value)
          <==> (forall t :: t in turns ==> t.id != "") && IsFingerprint(context) && now > 0)
  {
    var minted := Reserve(text, turns, ready, context, None, now).value;
    RequestUuidFormat(Baseline(text, Ids(turns), ready, context));
    PendingReadsBack(minted, later);
    hide IsUuid, IsFingerprint, ParsePending, PendingText, MintedId, Trim;
    assert (forall id :: id in minted.knownTurnIds ==> id != "") <==> (forall t :: t in turns ==> t.id != "") by {
      assert forall i :: 0 <= i < |turns| ==> Ids(turns)[i] == turns[i].id && Ids(turns)[i] in Ids(turns) && turns[i] in turns;
    }
  }

  // ---------------------------------------------------------------- when a history answers a request

  /** A reservation that starts a request, minted or recovered, rather than giving the pending one. */
  ghost predicate Starts(s: Store, text: string, turns: seq<Turn>, ready: bool, context: string, now: int, p: Pending) {
    ParsePending(s.pending, now).None? && ReserveStored(s, text, turns, ready, context, now) == Success(p)
  }

  function AfterReserve(s: Store, text: string, turns: seq<Turn>, ready: bool, context: string, now: int): Store {
    var writes := ReserveWrites(s, text, turns, ready, context, now);
    writes[|writes| - 1]
  }

  /** The turn is new since the request was started, and is about its text. */
  ghost predicate Answers(t: Turn, turns: seq<Turn>, text: string) {
    t.input == text && forall u :: u in turns ==> u.id != t.id
  }

  lemma StartedKnowsTurns(s: Store, text: string, turns: seq<Turn>, ready: bool, context: string, now: int, p: Pending)
    requires Starts(s, text, turns, ready, context, now, p)
    ensures p.text == text && p.contextFingerprint == context && p.createdAt == now && p.historyBaselineReady == ready
    ensures AfterReserve(s, text, turns, ready, context, now).pending == Some(PendingText(p))
    ensures forall t: Turn :: t.id in p.knownTurnIds <==> exists u :: u in turns && u.id == t.id
  {
    hide ParsePending, ParseCompleted, PendingText, TextDigest, MintedId, Trim, CleanPending, CleanCompleted;
    assert p.knownTurnIds == Ids(turns);
    forall t: Turn ensures t.id in p.knownTurnIds <==> exists u :: u in turns && u.id == t.id { KnownIds(turns, t); }
  }

  lemma KnownIds(turns: seq<Turn>, t: Turn)
    ensures t.id in Ids(turns) <==> exists u :: u in turns && u.id == t.id
  {
    if t.id in Ids(turns) {
      var i :| 0 <= i < |turns| && Ids(turns)[i] == t.id;
      assert turns[i] in turns;
    }
    if u :| u in turns && u.id == t.id {
      var i :| 0 <= i < |turns| && turns[i] == u;
      assert Ids(turns)[i] == t.id;
    }
  }

  /**
   A started request, while it can be read, stays pending as it was through any history whose turns were
   all known when it started or are about another text, and is completed, its record written, by any
   history with a new turn about its text.
   */
  lemma OnlyAnswersComplete(s: Store, text: string, turns: seq<Turn>, ready: bool, context: string, now: int, p: Pending,
                            history: seq<Turn>, later: int)
    requires Starts(s, text, turns, ready, context, now, p)
    requires var after := AfterReserve(s, text, turns, ready, context, now); ParsePending(after.pending, later) == Some(p)
    ensures var after := AfterReserve(s, text, turns, ready, context, now);
      if exists t :: t in history && Answers(t, turns, text)
      then Reconciled(after, history, later) == (None, Store(None, Some(CompletedText(Completion(p.requestId, TextDigest(text), context, later)))))
      else Reconciled(after, history, later) == (Some(p), after)
  {
    DurableIffAnswered(s, text, turns, ready, context, now, p, history);
    StartedKnowsTurns(s, text, turns, ready, context, now, p);
    hide Starts, ReserveStored, ReserveWrites, AfterReserve, Answers;
    ReconciledAs(AfterReserve(s, text, turns, ready, context, now), p, history, later);
    hide *;
  }

  lemma DurableIffAnswered(s: Store, text: string, turns: seq<Turn>, ready: bool, context: string, now: int, p: Pending, history: seq<Turn>)
    requires Starts(s, text, turns, ready, context, now, p)
    ensures Durable(history, p) <==> exists t :: t in history && Answers(t, turns, text)
  {
    StartedKnowsTurns(s, text, turns, ready, context, now, p);
    hide ParsePending, ParseCompleted, PendingText, ReserveStored, ReserveWrites, Starts;
    if t :| t in history && t.id !in p.knownTurnIds && t.input == p.text { assert Answers(t, turns, text); }
    if t :| t in history && Answers(t, turns, text) { assert t.id !in p.knownTurnIds; }
  }

  lemma ReconciledAs(after: Store, p: Pending, history: seq<Turn>, later: int)
    requires after.pending.Some? && ParsePending(after.pending, later) == Some(p)
    ensures if Durable(history, p)
            then Reconciled(after, history, later)
                 == (None, Store(None, Some(CompletedText(Completion(p.requestId, TextDigest(p.text), p.contextFingerprint, later)))))
            else Reconciled(after, history, later) == (Some(p), after)
  {
    assert p.requestId != "" by { ReadIsValid(after.pending, later); }
    hide ParsePending, CompletedText, TextDigest, Durable;
  }

  /** Whatever text is stored, what is read of it would read back. */
  lemma ReadIsValid(raw: Option<string>, now: int)
    ensures ParsePending(raw, now).Some? ==> IsPending(ParsePending(raw, now).value)
  {
  }
}
