/**
 The persisted ledger of manual send intents: its records, the text it is stored as, and the strict
 re-parser that every operation runs first. Times are milliseconds.
 */
module IntentLedger {
  import opened Wrappers
  import opened Json
  import opened JsText
  import opened CanonicalJson

  const MAX_SAFE_INTEGER := 0x1F_FFFF_FFFF_FFFF
  const MAX_INTENT_TTL_MS := 7 * 24 * 60 * 60 * 1000
  const MAX_RECORD_LIFETIME_MS := 2 * MAX_INTENT_TTL_MS
  const MAX_LEDGER_RECORDS := 256
  const MAX_LEDGER_RECOVERY_RECORDS := 2 * MAX_LEDGER_RECORDS
  const MAX_LEDGER_SERIALIZED_CHARS := 512 * 1024
  const MAX_FUTURE_CLOCK_SKEW_MS := 5 * 60 * 1000

  datatype IntentState = Ready | Inflight | Completed

  datatype Intent = Intent(
    scope: string,
    contextDigest: string,
    payloadDigest: string,
    key: string,
    state: IntentState,
    createdAt: int,
    updatedAt: int,
    expiresAt: int,
    completedAt: Option<int>,
    dispatchOwner: Option<string>,
    dispatchLeaseExpiresAt: Option<int>
  )

  /** What one send is about. A scope has no colon and digests have one length, so joining them is injective. */
  datatype Identity = Identity(scope: string, contextDigest: string, payloadDigest: string)

  function IdentityOf(i: Intent): Identity { Identity(i.scope, i.contextDigest, i.payloadDigest) }

  predicate IsIdentity(id: Identity) { IsScope(id.scope) && IsDigest(id.contextDigest) && IsDigest(id.payloadDigest) }

  datatype LedgerError = CorruptLedger | CapacityExhausted | DuplicateKey | NotCanonicalKey | MissingIntent | TooCloseToExpiry | Busy | OwnershipLost | StorageFailed

  // ---------------------------------------------------------------- the formats of the text fields

  predicate IsLowerAlnum(c: char) { 'a' <= c <= 'z' || IsDigit(c) }

  predicate IsAlnum(c: char) { IsLowerAlnum(c) || 'A' <= c <= 'Z' }

  predicate IsScope(s: string) {
    3 <= |s| <= 64 && IsLowerAlnum(s[0]) && forall i :: 0 <= i < |s| ==> IsLowerAlnum(s[i]) || s[i] == '-'
  }

  predicate IsDigest(s: string) {
    |s| == 64 && forall i :: 0 <= i < |s| ==> IsDigit(s[i]) || 'a' <= s[i] <= 'f'
  }

  predicate IsKeyChar(c: char) { IsAlnum(c) || c == '.' || c == '_' || c == ':' || c == '/' || c == '-' }

  predicate IsIdempotencyKey(s: string) {
    8 <= |s| <= 200 && IsAlnum(s[0]) && forall i :: 0 <= i < |s| ==> IsKeyChar(s[i])
  }

  predicate IsSafe(n: int) { -MAX_SAFE_INTEGER <= n <= MAX_SAFE_INTEGER }

  // ---------------------------------------------------------------- what the parser accepts

  predicate FieldsValid(i: Intent) {
    && IsScope(i.scope) && IsDigest(i.contextDigest) && IsDigest(i.payloadDigest)
    && IsIdempotencyKey(i.key) && i.scope + ":" <= i.key
    && IsSafe(i.createdAt) && IsSafe(i.updatedAt) && IsSafe(i.expiresAt)
    && (i.completedAt.Some? ==> IsSafe(i.completedAt.value))
    && (i.dispatchOwner.Some? ==> IsUuid(i.dispatchOwner.value))
    && (i.dispatchLeaseExpiresAt.Some? ==> IsSafe(i.dispatchLeaseExpiresAt.value))
  }

  predicate TimesValid(i: Intent, timestamp: int) {
    && 0 < i.createdAt <= i.updatedAt <= i.expiresAt
    && i.expiresAt - i.createdAt <= MAX_RECORD_LIFETIME_MS
    && i.createdAt <= timestamp + MAX_FUTURE_CLOCK_SKEW_MS
    && i.updatedAt <= timestamp + MAX_FUTURE_CLOCK_SKEW_MS
  }

  predicate LeaseValid(i: Intent) {
    && i.dispatchOwner.Some? == i.dispatchLeaseExpiresAt.Some?
    && (i.dispatchLeaseExpiresAt.Some? ==> i.updatedAt <= i.dispatchLeaseExpiresAt.value <= i.expiresAt)
  }

  predicate StateValid(i: Intent) {
    match i.state
    case Ready =>
      i.dispatchOwner.None? && i.completedAt.None? && i.expiresAt - i.createdAt <= MAX_INTENT_TTL_MS
    case Inflight =>
      i.dispatchOwner.Some? && i.completedAt.None? && i.expiresAt - i.createdAt <= MAX_INTENT_TTL_MS
    case Completed =>
      && i.completedAt.Some?
      && i.createdAt <= i.completedAt.value <= i.updatedAt
      && (i.dispatchOwner.None? ==> i.completedAt.value == i.updatedAt)
      && i.expiresAt - i.completedAt.value <= MAX_INTENT_TTL_MS
  }

  predicate WellFormed(i: Intent, timestamp: int) {
    FieldsValid(i) && TimesValid(i, timestamp) && LeaseValid(i) && StateValid(i)
  }

  ghost predicate Distinct(intents: seq<Intent>) {
    forall i, j :: 0 <= i < j < |intents| ==>
      IdentityOf(intents[i]) != IdentityOf(intents[j]) && intents[i].key != intents[j].key
  }

  ghost predicate AllWellFormed(intents: seq<Intent>, timestamp: int) {
    forall i :: 0 <= i < |intents| ==> WellFormed(intents[i], timestamp)
  }

  /** The ledgers the re-parser accepts at a time. */
  ghost predicate Accepted(intents: seq<Intent>, timestamp: int) {
    |intents| <= MAX_LEDGER_RECOVERY_RECORDS && AllWellFormed(intents, timestamp) && Distinct(intents)
  }

  /** A ledger once accepted stays accepted as the clock advances. */
  lemma AcceptedLater(intents: seq<Intent>, t: int, t': int)
    requires t <= t' && Accepted(intents, t)
    ensures Accepted(intents, t')
  {
    forall i | 0 <= i < |intents| ensures WellFormed(intents[i], t') {
      assert WellFormed(intents[i], t);
    }
  }

  // ---------------------------------------------------------------- records as text

  function StateName(s: IntentState): string {
    match s case Ready => "ready" case Inflight => "inflight" case Completed => "completed"
  }

  function StateOf(s: string): Option<IntentState> {
    if s == "ready" then Some(Ready)
    else if s == "inflight" then Some(Inflight)
    else if s == "completed" then Some(Completed)
    else None
  }

  lemma StateRoundTrip(s: IntentState)
    ensures StateOf(StateName(s)) == Some(s)
  {
    assert |"ready"| == 5 && |"inflight"| == 8 && |"completed"| == 9;
  }

  function IntNum(n: int): Json { Num(IntToken(n)) }

  function FixedEntries(i: Intent): seq<Entry> {
    [Entry("version", IntNum(1)), Entry("scope", Str(i.scope)),
     Entry("contextDigest", Str(i.contextDigest)), Entry("payloadDigest", Str(i.payloadDigest)),
     Entry("key", Str(i.key)), Entry("state", Str(StateName(i.state))),
     Entry("createdAt", IntNum(i.createdAt)), Entry("updatedAt", IntNum(i.updatedAt)),
     Entry("expiresAt", IntNum(i.expiresAt))]
  }

  /** Fields that are deleted while they have no value. */
  function OptionalEntries(i: Intent): seq<Entry> {
    (if i.completedAt.Some? then [Entry("completedAt", IntNum(i.completedAt.value))] else [])
    + (if i.dispatchOwner.Some? then [Entry("dispatchOwner", Str(i.dispatchOwner.value))] else [])
    + (if i.dispatchLeaseExpiresAt.Some? then [Entry("dispatchLeaseExpiresAt", IntNum(i.dispatchLeaseExpiresAt.value))] else [])
  }

  /** In the order the program assigns the fields. */
  function IntentEntries(i: Intent): seq<Entry> { FixedEntries(i) + OptionalEntries(i) }

  function IntentJson(i: Intent): Json { Obj(IntentEntries(i)) }

  function IntentItems(intents: seq<Intent>): (r: seq<Json>)
    ensures |r| == |intents|
    ensures forall i :: 0 <= i < |r| ==> r[i] == IntentJson(intents[i])
  {
    if intents == [] then [] else [IntentJson(intents[0])] + IntentItems(intents[1..])
  }

  function LedgerJson(intents: seq<Intent>): Json {
    Obj([Entry("version", IntNum(1)), Entry("intents", Arr(IntentItems(intents)))])
  }

  /** What `persistLedger` writes. */
  function LedgerText(intents: seq<Intent>): string { Print(LedgerJson(intents)) }

  const INTENT_FIELDS := {
    "version", "scope", "contextDigest", "payloadDigest", "key", "state", "createdAt", "updatedAt",
    "expiresAt", "completedAt", "dispatchOwner", "dispatchLeaseExpiresAt"
  }

  function TextField(m: map<string, Value>, k: string): Option<string> {
    if k in m && m[k].VStr? then Some(m[k].s) else None
  }

  function IntField(m: map<string, Value>, k: string): Option<int> {
    if k in m && m[k].VNum? then TokenInt(m[k].token) else None
  }

  /** The field is there with this text, or this integer. */
  predicate IsText(m: map<string, Value>, k: string, text: string) { k in m && m[k] == VStr(text) }

  predicate IsNumber(m: map<string, Value>, k: string, n: int) { k in m && m[k].VNum? && TokenInt(m[k].token) == Some(n) }

  /** Whether an optional field is either absent or of its type. */
  predicate Typed<T>(m: map<string, Value>, k: string, read: Option<T>) { k in m ==> read.Some? }

  /** The record a parsed value spells out; None when a field is missing, of another type, or not allowed. */
  function ReadIntent(v: Value): Option<Intent> {
    if !v.VObj? || !(v.fields.Keys <= INTENT_FIELDS) then None
    else
      var m := v.fields;
      var completedAt := IntField(m, "completedAt");
      var owner := TextField(m, "dispatchOwner");
      var lease := IntField(m, "dispatchLeaseExpiresAt");
      if IntField(m, "version") != Some(1)
         || !Typed(m, "completedAt", completedAt) || !Typed(m, "dispatchOwner", owner) || !Typed(m, "dispatchLeaseExpiresAt", lease)
      then None
      else match (TextField(m, "scope"), TextField(m, "contextDigest"), TextField(m, "payloadDigest"), TextField(m, "key"))
        case (Some(scope), Some(contextDigest), Some(payloadDigest), Some(key)) =>
          (match (TextField(m, "state"), IntField(m, "createdAt"), IntField(m, "updatedAt"), IntField(m, "expiresAt"))
           case (Some(stateName), Some(createdAt), Some(updatedAt), Some(expiresAt)) =>
             (match StateOf(stateName)
              case Some(state) =>
                Some(Intent(scope, contextDigest, payloadDigest, key, state, createdAt, updatedAt, expiresAt, completedAt, owner, lease))
              case None => None)
           case _ => None)
        case _ => None
  }

  function ReadIntents(values: seq<Value>): (r: Option<seq<Intent>>)
    ensures r.Some? ==> |r.value| == |values|
  {
    if values == [] then Some([])
    else match (ReadIntent(values[0]), ReadIntents(values[1..]))
      case (Some(i), Some(rest)) => Some([i] + rest)
      case _ => None
  }

  /** The records of a stored text, before their contents are validated. */
  function ReadLedger(raw: Option<string>): Option<seq<Intent>> {
    if raw == None || raw.value == "" then Some([])
    else if |raw.value| > MAX_LEDGER_SERIALIZED_CHARS then None
    else match Reread(raw.value)
      case Some(VObj(m)) =>
        if IntField(m, "version") == Some(1) && "intents" in m && m["intents"].VArr? && m.Keys <= {"version", "intents"}
        then ReadIntents(m["intents"].items)
        else None
      case _ => None
  }

  /** `parseLedger`: the records of a stored text, or a corrupt ledger. */
  ghost function ParseLedger(raw: Option<string>, timestamp: int): Result<seq<Intent>, LedgerError> {
    match ReadLedger(raw)
    case Some(intents) => if Accepted(intents, timestamp) then Success(intents) else Failure(CorruptLedger)
    case None => Failure(CorruptLedger)
  }

  // ---------------------------------------------------------------- reading back what was written

  /** Tells the field names apart by their length and second letter. */
  function NameCode(s: string): int { if |s| > 1 then |s| * 1000 + s[1] as int else 0 }

  const FIXED_CODES := [7101, 5099, 13111, 13097, 3101, 5116, 9114, 9112, 9120]

  lemma FixedCodes(i: Intent)
    ensures forall k :: 0 <= k < 9 ==> NameCode(FixedEntries(i)[k].key) == FIXED_CODES[k]
  {
    assert "version"[1] == 'e';
    assert "scope"[1] == 'c';
    assert "contextDigest"[1] == 'o';
    assert "payloadDigest"[1] == 'a';
    assert "key"[1] == 'e';
    assert "state"[1] == 't';
    assert "createdAt"[1] == 'r';
    assert "updatedAt"[1] == 'p';
    assert "expiresAt"[1] == 'x';
  }

  lemma FixedKeysDistinct(i: Intent)
    ensures KeysDistinct(FixedEntries(i))
  {
    FixedCodes(i);
    assert |FixedEntries(i)| == 9;
    hide FixedEntries, NameCode;
    assert forall a, b :: 0 <= a < b < 9 ==> FIXED_CODES[a] != FIXED_CODES[b];
  }

  lemma OptionalCodes(i: Intent)
    ensures KeysDistinct(OptionalEntries(i))
    ensures forall k :: 0 <= k < |OptionalEntries(i)| ==> NameCode(OptionalEntries(i)[k].key) !in FIXED_CODES
  {
    hide IntNum;
    assert "completedAt"[1] == 'o' && NameCode("completedAt") == 11111;
    assert "dispatchOwner"[1] == 'i' && NameCode("dispatchOwner") == 13105;
    assert "dispatchLeaseExpiresAt"[1] == 'i' && NameCode("dispatchLeaseExpiresAt") == 22105;
  }

  lemma IntentKeysDistinct(i: Intent)
    ensures KeysDistinct(IntentEntries(i))
  {
    var fixed, optional := FixedEntries(i), OptionalEntries(i);
    FixedCodes(i);
    FixedKeysDistinct(i);
    OptionalCodes(i);
    assert |fixed| == 9;
    hide FixedEntries, OptionalEntries, NameCode;
    var es := fixed + optional;
    forall a, b | 0 <= a < b < |es| ensures es[a].key != es[b].key {
      if a < 9 <= b {
        assert NameCode(es[a].key) == FIXED_CODES[a] && es[b] == optional[b - 9];
      }
    }
  }

  // The field of a record stands for its value in the parsed object, and nothing else is there.

  lemma FieldAt(es: seq<Entry>, k: nat, name: string)
    requires KeysDistinct(es) && k < |es| && es[k].key == name
    ensures name in Fields(es) && Fields(es)[name] == Meaning(es[k].value)
  {
    FieldsOf(es);
  }

  lemma FixedFields(i: Intent)
    ensures var m := Fields(IntentEntries(i));
      && IntField(m, "version") == Some(1)
      && TextField(m, "scope") == Some(i.scope)
      && TextField(m, "contextDigest") == Some(i.contextDigest)
      && TextField(m, "payloadDigest") == Some(i.payloadDigest)
      && TextField(m, "key") == Some(i.key)
      && TextField(m, "state") == Some(StateName(i.state))
      && IntField(m, "createdAt") == Some(i.createdAt)
      && IntField(m, "updatedAt") == Some(i.updatedAt)
      && IntField(m, "expiresAt") == Some(i.expiresAt)
  {
    var es := IntentEntries(i);
    IntentKeysDistinct(i);
    IntTokenValue(1);
    IntTokenValue(i.createdAt);
    IntTokenValue(i.updatedAt);
    IntTokenValue(i.expiresAt);
    hide Fields, IntToken, TokenInt, StateName, KeysDistinct;
    assert forall k :: 0 <= k < 9 ==> es[k] == FixedEntries(i)[k];
    hide OptionalEntries, IntentEntries;
    FieldAt(es, 0, "version");
    FieldAt(es, 1, "scope");
    FieldAt(es, 2, "contextDigest");
    FieldAt(es, 3, "payloadDigest");
    FieldAt(es, 4, "key");
    FieldAt(es, 5, "state");
    FieldAt(es, 6, "createdAt");
    FieldAt(es, 7, "updatedAt");
    FieldAt(es, 8, "expiresAt");
  }

  lemma AbsentField(es: seq<Entry>, name: string)
    requires KeysDistinct(es) && forall k :: 0 <= k < |es| ==> NameCode(es[k].key) != NameCode(name)
    ensures name !in Fields(es)
  {
    FieldsOf(es);
  }

  /** Where the optional fields stand, and which codes occur at all. */
  lemma OptionalPositions(i: Intent) returns (owner: nat, lease: nat)
    ensures var es := IntentEntries(i);
      && owner == (if i.completedAt.Some? then 10 else 9)
      && lease == (if i.dispatchOwner.Some? then owner + 1 else owner)
      && |es| == (if i.dispatchLeaseExpiresAt.Some? then lease + 1 else lease)
      && (i.completedAt.Some? ==> es[9] == Entry("completedAt", IntNum(i.completedAt.value)))
      && (i.dispatchOwner.Some? ==> es[owner] == Entry("dispatchOwner", Str(i.dispatchOwner.value)))
      && (i.dispatchLeaseExpiresAt.Some? ==> es[lease] == Entry("dispatchLeaseExpiresAt", IntNum(i.dispatchLeaseExpiresAt.value)))
      && (forall k :: 0 <= k < 9 ==> NameCode(es[k].key) == FIXED_CODES[k])
  {
    owner := if i.completedAt.Some? then 10 else 9;
    lease := if i.dispatchOwner.Some? then owner + 1 else owner;
    FixedCodes(i);
    hide IntNum, NameCode;
    assert forall k :: 0 <= k < 9 ==> IntentEntries(i)[k] == FixedEntries(i)[k];
  }

  lemma OptionalNameCodes()
    ensures NameCode("completedAt") == 11111 && NameCode("dispatchOwner") == 13105 && NameCode("dispatchLeaseExpiresAt") == 22105
  {
    assert "completedAt"[1] == 'o' && "dispatchOwner"[1] == 'i' && "dispatchLeaseExpiresAt"[1] == 'i';
  }

  lemma OptionalFields(i: Intent)
    ensures var m := Fields(IntentEntries(i));
      && IntField(m, "completedAt") == i.completedAt && Typed(m, "completedAt", i.completedAt)
      && TextField(m, "dispatchOwner") == i.dispatchOwner && Typed(m, "dispatchOwner", i.dispatchOwner)
      && IntField(m, "dispatchLeaseExpiresAt") == i.dispatchLeaseExpiresAt
      && Typed(m, "dispatchLeaseExpiresAt", i.dispatchLeaseExpiresAt)
  {
    var es := IntentEntries(i);
    IntentKeysDistinct(i);
    var owner, lease := OptionalPositions(i);
    OptionalNameCodes();
    if i.completedAt.Some? { IntTokenValue(i.completedAt.value); }
    if i.dispatchLeaseExpiresAt.Some? { IntTokenValue(i.dispatchLeaseExpiresAt.value); }
    hide Fields, IntToken, TokenInt, KeysDistinct, IntentEntries, NameCode;
    if i.completedAt.Some? { FieldAt(es, 9, "completedAt"); } else { AbsentField(es, "completedAt"); }
    if i.dispatchOwner.Some? { FieldAt(es, owner, "dispatchOwner"); } else { AbsentField(es, "dispatchOwner"); }
    if i.dispatchLeaseExpiresAt.Some? { FieldAt(es, lease, "dispatchLeaseExpiresAt"); }
    else { AbsentField(es, "dispatchLeaseExpiresAt"); }
  }

  lemma EntryNames(i: Intent)
    ensures forall k :: 0 <= k < 9 ==> FixedEntries(i)[k].key in INTENT_FIELDS
    ensures forall k :: 0 <= k < |OptionalEntries(i)| ==> OptionalEntries(i)[k].key in INTENT_FIELDS
  {
    hide IntNum, StateName;
  }

  lemma IntentFieldNames(i: Intent)
    ensures Fields(IntentEntries(i)).Keys <= INTENT_FIELDS
  {
    var es := IntentEntries(i);
    IntentKeysDistinct(i);
    FieldsOf(es);
    EntryNames(i);
    assert |FixedEntries(i)| == 9;
    hide Fields, KeysDistinct, FixedEntries, OptionalEntries;
    forall k | k in Fields(es) ensures k in INTENT_FIELDS {
      var n :| 0 <= n < |es| && es[n].key == k;
      if n < 9 { assert es[n] == FixedEntries(i)[n]; } else { assert es[n] == OptionalEntries(i)[n - 9]; }
    }
  }

  lemma ReadIntentJson(i: Intent)
    ensures ReadIntent(Meaning(IntentJson(i))) == Some(i)
  {
    FixedFields(i);
    OptionalFields(i);
    IntentFieldNames(i);
    StateRoundTrip(i.state);
    assert Meaning(IntentJson(i)) == VObj(Fields(IntentEntries(i)));
    hide Fields, IntentEntries, IntField, TextField, StateOf, StateName;
  }

  lemma {:induction false} ReadIntentItems(intents: seq<Intent>)
    ensures ReadIntents(MeaningItems(IntentItems(intents))) == Some(intents)
  {
    if intents != [] {
      ReadIntentJson(intents[0]);
      ReadIntentItems(intents[1..]);
      hide Meaning, ReadIntent, IntentJson;
      assert IntentItems(intents)[1..] == IntentItems(intents[1..]);
      assert intents == [intents[0]] + intents[1..];
      assert MeaningItems(IntentItems(intents)) == [Meaning(IntentJson(intents[0]))] + MeaningItems(IntentItems(intents[1..]));
    }
  }

  lemma IntNumPrintable(n: int)
    ensures Printable(IntNum(n))
  {
    IntTokenIsNumber(n);
  }

  lemma FixedPrintable(i: Intent)
    ensures forall k :: 0 <= k < 9 ==> Printable(FixedEntries(i)[k].value)
  {
    IntNumPrintable(1);
    IntNumPrintable(i.createdAt);
    IntNumPrintable(i.updatedAt);
    IntNumPrintable(i.expiresAt);
    hide IntNum, StateName;
  }

  lemma OptionalPrintable(i: Intent)
    ensures forall k :: 0 <= k < |OptionalEntries(i)| ==> Printable(OptionalEntries(i)[k].value)
  {
    if i.completedAt.Some? { IntNumPrintable(i.completedAt.value); }
    if i.dispatchLeaseExpiresAt.Some? { IntNumPrintable(i.dispatchLeaseExpiresAt.value); }
    hide IntNum;
  }

  lemma IntentPrintable(i: Intent)
    ensures Printable(IntentJson(i))
  {
    FixedPrintable(i);
    OptionalPrintable(i);
    assert |FixedEntries(i)| == 9;
    hide FixedEntries, OptionalEntries;
    var es := IntentEntries(i);
    forall k | 0 <= k < |es| ensures Printable(es[k].value) {
      if k < 9 { assert es[k] == FixedEntries(i)[k]; } else { assert es[k] == OptionalEntries(i)[k - 9]; }
    }
  }

  lemma LedgerPrintable(intents: seq<Intent>)
    ensures Printable(LedgerJson(intents))
  {
    IntNumPrintable(1);
    forall i | 0 <= i < |intents| ensures Printable(IntentItems(intents)[i]) { IntentPrintable(intents[i]); }
    hide IntNum, IntentJson;
  }

  lemma SingleField(e: Entry)
    ensures Fields([e]) == map[e.key := Meaning(e.value)]
  {
    assert [e][1..] == [];
  }

  lemma TwoFields(e: Entry, f: Entry)
    requires e.key != f.key
    ensures Fields([e, f]) == map[e.key := Meaning(e.value), f.key := Meaning(f.value)]
  {
    assert [e, f][1..] == [f];
    SingleField(f);
  }

  lemma LedgerFields(intents: seq<Intent>)
    ensures Meaning(LedgerJson(intents))
         == VObj(map["version" := VNum(IntToken(1)), "intents" := VArr(MeaningItems(IntentItems(intents)))])
  {
    var e, f := Entry("version", IntNum(1)), Entry("intents", Arr(IntentItems(intents)));
    assert e.key[0] != f.key[0];
    TwoFields(e, f);
    assert LedgerJson(intents) == Obj([e, f]);
    hide IntToken, IntentItems, Fields;
  }

  lemma ReadLedgerValue(raw: string, values: seq<Value>, intents: seq<Intent>)
    requires raw != "" && |raw| <= MAX_LEDGER_SERIALIZED_CHARS
    requires Reread(raw) == Some(VObj(map["version" := VNum(IntToken(1)), "intents" := VArr(values)]))
    requires ReadIntents(values) == Some(intents)
    ensures ReadLedger(Some(raw)) == Some(intents)
  {
    IntTokenValue(1);
    hide Reread, ReadIntents, IntToken, TokenInt;
    assert "version"[0] != "intents"[0];
  }

  /** A persisted text short enough for the reader spells out exactly the records it was made from. */
  lemma LedgerTextReads(intents: seq<Intent>)
    requires |LedgerText(intents)| <= MAX_LEDGER_SERIALIZED_CHARS
    ensures ReadLedger(Some(LedgerText(intents))) == Some(intents)
  {
    LedgerPrintable(intents);
    PrintRoundTrip(LedgerJson(intents));
    PrintStart(LedgerJson(intents));
    ReadIntentItems(intents);
    LedgerFields(intents);
    hide Parse, Print, Meaning, ReadIntents, IntentItems, LedgerJson, ReadLedger;
    ReadLedgerValue(LedgerText(intents), MeaningItems(IntentItems(intents)), intents);
  }

  // ---------------------------------------------------------------- the size of a persisted text

  predicate IsPlain(s: string) { forall i :: 0 <= i < |s| ==> s[i] >= ' ' && s[i] != '"' && s[i] != '\\' }

  lemma {:induction false} PlainQuote(s: string)
    requires IsPlain(s)
    ensures EscapeChars(s) == s && |Quote(s)| == |s| + 2
  {
    if s != [] {
      PlainQuote(s[1..]);
      assert s == [s[0]] + s[1..];
    }
  }

  lemma IntNumLength(n: int)
    requires 0 <= n <= MAX_SAFE_INTEGER
    ensures |Print(IntNum(n))| <= 16
  {
    assert Pow10(4) == 10_000;
    assert Pow10(8) == 10_000 * Pow10(4);
    assert Pow10(12) == 10_000 * Pow10(8);
    assert Pow10(16) == 10_000 * Pow10(12);
    NatTokenLength(n, 16, Pow10(16));
  }

  lemma TextLength(s: string, bound: nat)
    requires IsPlain(s) && |s| <= bound
    ensures |Print(Str(s))| <= bound + 2
  {
    PlainQuote(s);
  }

  lemma NamePlain(k: string)
    requires k in INTENT_FIELDS || k == "intents"
    ensures IsPlain(k) && |k| <= 22
  {
  }

  lemma EntryLength(e: Entry, bound: nat)
    requires (e.key in INTENT_FIELDS || e.key == "intents") && |Print(e.value)| <= bound
    ensures |PrintEntry(e)| <= 25 + bound
  {
    NamePlain(e.key);
    PlainQuote(e.key);
    hide Print, IsPlain;
  }

  /** Fields of their formats and no negative time: what bounds the length of the text. */
  predicate Sized(i: Intent) {
    && FieldsValid(i) && i.createdAt >= 0 && i.updatedAt >= 0 && i.expiresAt >= 0
    && (i.completedAt.Some? ==> i.completedAt.value >= 0)
    && (i.dispatchLeaseExpiresAt.Some? ==> i.dispatchLeaseExpiresAt.value >= 0)
  }

  ghost predicate AllSized(intents: seq<Intent>) { forall i :: 0 <= i < |intents| ==> Sized(intents[i]) }

  lemma FixedTextsPlain(i: Intent)
    requires FieldsValid(i)
    ensures IsPlain(i.scope) && IsPlain(i.contextDigest) && IsPlain(i.payloadDigest) && IsPlain(i.key)
    ensures i.dispatchOwner.Some? ==> IsPlain(i.dispatchOwner.value) && |i.dispatchOwner.value| == 36
  {
  }

  lemma FixedEntryLengths(i: Intent)
    requires Sized(i)
    ensures forall k :: 0 <= k < 9 ==> |PrintEntry(FixedEntries(i)[k])| <= if k == 4 then 227 else 91
  {
    FixedTextsPlain(i);
    IntNumLength(1);
    IntNumLength(i.createdAt);
    IntNumLength(i.updatedAt);
    IntNumLength(i.expiresAt);
    TextLength(i.scope, 64);
    TextLength(i.contextDigest, 64);
    TextLength(i.payloadDigest, 64);
    TextLength(i.key, 200);
    TextLength(StateName(i.state), 9);
    EntryNames(i);
    var es := FixedEntries(i);
    hide IntNum, StateName, Print, PrintEntry, IsPlain;
    forall k | 0 <= k < 9 ensures |PrintEntry(es[k])| <= if k == 4 then 227 else 91 {
      EntryLength(es[k], if k == 4 then 202 else 66);
    }
  }

  lemma OptionalEntryLengths(i: Intent)
    requires Sized(i)
    ensures forall k :: 0 <= k < |OptionalEntries(i)| ==> |PrintEntry(OptionalEntries(i)[k])| <= 91
  {
    FixedTextsPlain(i);
    if i.completedAt.Some? { IntNumLength(i.completedAt.value); }
    if i.dispatchOwner.Some? { TextLength(i.dispatchOwner.value, 36); }
    if i.dispatchLeaseExpiresAt.Some? { IntNumLength(i.dispatchLeaseExpiresAt.value); }
    EntryNames(i);
    var es := OptionalEntries(i);
    hide IntNum, Print, PrintEntry, IsPlain;
    forall k | 0 <= k < |es| ensures |PrintEntry(es[k])| <= 91 {
      EntryLength(es[k], 66);
    }
  }

  /** All entries print to at most 91 characters, except the one at index `big`, if any, to at most 227. */
  lemma {:induction false} EntriesLength(es: seq<Entry>, big: int)
    requires forall k :: 0 <= k < |es| ==> |PrintEntry(es[k])| <= if k == big then 227 else 91
    ensures |PrintEntries(es)| <= 92 * |es| + if big >= 0 then 136 else 0
  {
    hide PrintEntry;
    if |es| > 1 {
      assert forall k :: 0 <= k < |es[1..]| ==> es[1..][k] == es[k + 1];
      EntriesLength(es[1..], big - 1);
    }
  }

  lemma IntentLength(i: Intent)
    requires Sized(i)
    ensures |Print(IntentJson(i))| <= 1242
  {
    FixedEntryLengths(i);
    OptionalEntryLengths(i);
    assert |FixedEntries(i)| == 9 && |OptionalEntries(i)| <= 3;
    var es := IntentEntries(i);
    PrintUnfold(IntentJson(i));
    hide FixedEntries, OptionalEntries, PrintEntry, PrintEntries, Print, Sized;
    forall k | 0 <= k < |es| ensures |PrintEntry(es[k])| <= if k == 4 then 227 else 91 {
      if k < 9 { assert es[k] == FixedEntries(i)[k]; } else { assert es[k] == OptionalEntries(i)[k - 9]; }
    }
    hide IntentEntries;
    EntriesLength(es, 4);
  }

  lemma {:induction false} ItemsLength(intents: seq<Intent>)
    requires AllSized(intents)
    ensures |PrintItems(IntentItems(intents))| <= 1243 * |intents|
  {
    if intents != [] {
      IntentLength(intents[0]);
      ItemsLength(intents[1..]);
      hide Print, IntentJson;
      assert IntentItems(intents)[1..] == IntentItems(intents[1..]);
    }
  }

  /** Any ledger within the record limit is written as a text within the reader's limit. */
  lemma LedgerTextFits(intents: seq<Intent>)
    requires AllSized(intents) && |intents| <= MAX_LEDGER_RECORDS
    ensures |LedgerText(intents)| <= MAX_LEDGER_SERIALIZED_CHARS
  {
    ItemsLength(intents);
    LedgerTextLength(IntentItems(intents));
  }

  lemma LedgerTextLength(items: seq<Json>)
    ensures |Print(Obj([Entry("version", IntNum(1)), Entry("intents", Arr(items))]))| <= |PrintItems(items)| + 100
  {
    IntNumLength(1);
    var e, f := Entry("version", IntNum(1)), Entry("intents", Arr(items));
    var j := Obj([e, f]);
    PrintUnfold(f.value);
    PrintUnfold(j);
    assert PrintEntries([e, f]) == PrintEntry(e) + "," + PrintEntry(f) by { assert [e, f][1..] == [f]; }
    hide Print, PrintItems, PrintEntry, PrintEntries, IntNum;
    EntryLength(e, 16);
    EntryLength(f, |PrintItems(items)| + 2);
  }

  lemma WellFormedSized(intents: seq<Intent>, timestamp: int)
    requires AllWellFormed(intents, timestamp)
    ensures AllSized(intents)
  {
    forall i | 0 <= i < |intents| ensures Sized(intents[i]) { assert WellFormed(intents[i], timestamp); }
  }

  /** What is written reads back, at any time, exactly when its records are acceptable then. */
  lemma PersistedReads(intents: seq<Intent>, t: int)
    requires AllSized(intents) && |intents| <= MAX_LEDGER_RECORDS
    ensures ParseLedger(Some(LedgerText(intents)), t) == if Accepted(intents, t) then Success(intents) else Failure(CorruptLedger)
  {
    LedgerTextFits(intents);
    LedgerTextReads(intents);
  }
}
