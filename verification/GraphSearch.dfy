/**
 The two bounded searches over the page's object graph: for any trusted WhatsApp id, and for the phone id
 of the one record that belongs to the selected contact. Objects may be cyclic, their keys may be too many,
 and enumerating or reading them may throw.
 */
module GraphSearch {
  import opened Wrappers
  import opened Json

  /** A JavaScript value: a string, an object by its identity, or anything else, truthy or not. */
  datatype Value = Text(s: string) | Ref(r: nat) | Prim(truthy: bool)

  /** `keys` is None where enumerating them throws; reading a key of `throwing` throws. */
  datatype Object = Object(keys: Option<seq<string>>, fields: map<string, Value>, throwing: set<string>)

  type Graph = seq<Object>

  function Field(o: Object, key: string): Value { if key in o.fields then o.fields[key] else Prim(false) }

  ghost predicate WellFormed(g: Graph) {
    forall i, k :: 0 <= i < |g| && k in g[i].fields && g[i].fields[k].Ref? ==> g[i].fields[k].r < |g|
  }

  // ---------------------------------------------------------------- what the searches look for

  /** Digits in number between `lo` and `hi`, then the suffix. */
  predicate DigitsThen(s: string, suffix: string, lo: nat, hi: nat) {
    && |s| >= |suffix|
    && var n := |s| - |suffix|;
      lo <= n <= hi && s[n..] == suffix && AllDigits(s[..n])
  }

  predicate IsPhoneJid(s: string) { DigitsThen(s, "@c.us", 7, 15) || DigitsThen(s, "@s.whatsapp.net", 7, 15) }

  predicate IsLid(s: string) { DigitsThen(s, "@lid", 1, |s|) }

  predicate IsTrustedJid(s: string) { IsPhoneJid(s) || IsLid(s) || DigitsThen(s, "@g.us", 10, |s|) }

  function Lower(s: string): string { seq(|s|, i requires 0 <= i < |s| => if 'A' <= s[i] <= 'Z' then (s[i] as int + 32) as char else s[i]) }

  predicate Contains(s: string, part: string)
    decreases |s|
  {
    part <= s || (s != "" && Contains(s[1..], part))
  }

  predicate EndsWith(s: string, end: string) { |s| >= |end| && s[|s| - |end|..] == end }

  datatype Mode = TrustedJid | PhoneOf(identity: string)

  /** How early a key is followed. */
  function Score(mode: Mode, key: string): nat {
    var k := Lower(key);
    match mode
    case TrustedJid =>
      if Contains(k, "historychatid") || Contains(k, "chatid") || Contains(k, "jid") || EndsWith(k, "id") then 0
      else if k in {"return", "statenode", "props", "memoizedprops", "pendingprops", "chat", "$proxystate$state"} then 1
      else 2
    case PhoneOf(_) =>
      if k in {"active", "list", "return", "statenode", "props", "memoizedprops", "pendingprops"} then 0
      else if k in {"children", "child"} then 1
      else 2
  }

  function KeyLimit(mode: Mode): nat { match mode case TrustedJid => 120 case PhoneOf(_) => 160 }

  /** A string found is the answer of the first search only. */
  predicate TextHit(mode: Mode, s: string) { mode.TrustedJid? && IsTrustedJid(s) }

  predicate Truthy(v: Value) { v.Ref? || (v.Text? && v.s != "") || (v.Prim? && v.truthy) }

  /** The identity a record carries: of its id object, or its id itself where that is a string. */
  function RecordIdentity(g: Graph, o: Object): Option<string>
    requires WellFormed(g) && o in g
  {
    var own := Field(o, "__x_id");
    var idObject := if Truthy(own) then own else Field(o, "id");
    assert idObject.Ref? ==> idObject.r < |g|;
    if idObject.Ref? && Field(g[idObject.r], "_serialized").Text? then Some(Field(g[idObject.r], "_serialized").s)
    else if own.Text? then Some(own.s)
    else None
  }

  /** The answer of the second search: the phone id in a record of exactly the selected identity. */
  function RecordHit(mode: Mode, g: Graph, o: Object): Option<string>
    requires WellFormed(g) && o in g
  {
    match mode
    case TrustedJid => None
    case PhoneOf(identity) =>
      var history := Field(o, "__x_historyChatId");
      if RecordIdentity(g, o) == Some(identity) && history.Text? && IsPhoneJid(history.s) then Some(history.s) else None
  }

  // ---------------------------------------------------------------- what the keys and answers are

  /** The part stands in the text from position `i`. */
  ghost predicate StandsAt(s: string, i: int, part: string) {
    0 <= i <= |s| - |part| && forall j :: 0 <= j < |part| ==> s[i + j] == part[j]
  }

  lemma StandsLater(s: string, i: int, part: string)
    requires s != "" && i > 0
    ensures StandsAt(s, i, part) <==> StandsAt(s[1..], i - 1, part)
  {
    if i <= |s| - |part| {
      forall j | 0 <= j < |part| ensures s[i + j] == part[j] <==> s[1..][i - 1 + j] == part[j] {
      }
    }
  }

  lemma {:induction false} ContainsIff(s: string, part: string)
    ensures Contains(s, part) <==> exists i :: StandsAt(s, i, part)
  {
    assert part <= s <==> StandsAt(s, 0, part);
    if s != "" {
      ContainsIff(s[1..], part);
      forall i | i > 0 ensures StandsAt(s, i, part) <==> StandsAt(s[1..], i - 1, part) {
        StandsLater(s, i, part);
      }
      forall i | StandsAt(s[1..], i, part) ensures StandsAt(s, i + 1, part) {}
    }
  }

  ghost predicate Small(letters: string) { forall i :: 0 <= i < |letters| ==> 'a' <= letters[i] <= 'z' }

  /** The text reads as these small letters from position `i`, whatever the case of its own. */
  ghost predicate Reads(s: string, i: int, letters: string) {
    0 <= i <= |s| - |letters| && forall j :: 0 <= j < |letters| ==> s[i + j] == letters[j] || s[i + j] as int + 32 == letters[j] as int
  }

  lemma ReadsLower(s: string, i: int, letters: string)
    requires Small(letters)
    ensures StandsAt(Lower(s), i, letters) <==> Reads(s, i, letters)
  {
    if 0 <= i <= |s| - |letters| {
      forall j | 0 <= j < |letters|
        ensures Lower(s)[i + j] == letters[j] <==> s[i + j] == letters[j] || s[i + j] as int + 32 == letters[j] as int
      {
      }
    }
  }

  lemma ReadsWithin(key: string, letters: string)
    requires Small(letters)
    ensures Contains(Lower(key), letters) <==> exists i :: Reads(key, i, letters)
  {
    ContainsIff(Lower(key), letters);
    forall i ensures StandsAt(Lower(key), i, letters) <==> Reads(key, i, letters) { ReadsLower(key, i, letters); }
  }

  lemma PartWithin(s: string, whole: string, n: nat)
    requires n <= |whole| && Contains(s, whole)
    ensures Contains(s, whole[n..])
  {
    ContainsIff(s, whole);
    ContainsIff(s, whole[n..]);
    var i :| StandsAt(s, i, whole);
    forall j | 0 <= j < |whole[n..]| ensures s[i + n + j] == whole[n..][j] {
      assert s[i + (n + j)] == whole[n + j];
    }
    assert StandsAt(s, i + n, whole[n..]);
  }

  /** The first search follows first the keys that hold `chatId` or `jid` or end in `id`, in any case. */
  lemma FollowedFirst(key: string)
    ensures Score(TrustedJid, key) == 0
       <==> (exists i :: Reads(key, i, "chatid")) || (exists i :: Reads(key, i, "jid")) || Reads(key, |key| - 2, "id")
  {
    var k := Lower(key);
    ReadsWithin(key, "chatid");
    ReadsWithin(key, "jid");
    if Contains(k, "historychatid") {
      PartWithin(k, "historychatid", 7);
      assert "historychatid"[7..] == "chatid";
    }
    ReadsLower(key, |key| - 2, "id");
    hide Lower, Contains, Reads;
    assert EndsWith(k, "id") <==> StandsAt(k, |k| - 2, "id");
  }

  /** A user of digits alone, then this host. */
  ghost predicate UserAt(s: string, user: string, host: string) {
    s == user + host && forall c :: c in user ==> '0' <= c <= '9'
  }

  lemma DigitsThenMeaning(s: string, suffix: string, lo: nat, hi: nat)
    ensures DigitsThen(s, suffix, lo, hi) <==> exists user :: UserAt(s, user, suffix) && lo <= |user| <= hi
  {
    var n := |s| - |suffix|;
    if DigitsThen(s, suffix, lo, hi) {
      assert s == s[..n] + s[n..];
      assert UserAt(s, s[..n], suffix);
    }
    forall user | UserAt(s, user, suffix)
      ensures lo <= |user| <= hi ==> DigitsThen(s, suffix, lo, hi)
    {
      assert s[..n] == user && s[n..] == suffix;
      assert forall i :: 0 <= i < |user| ==> user[i] in user;
    }
  }

  /** A contact's id has a user of 7 to 15 digits. */
  lemma PhoneJidMeaning(s: string)
    ensures IsPhoneJid(s) <==> exists user :: 7 <= |user| <= 15 && (UserAt(s, user, "@c.us") || UserAt(s, user, "@s.whatsapp.net"))
  {
    DigitsThenMeaning(s, "@c.us", 7, 15);
    DigitsThenMeaning(s, "@s.whatsapp.net", 7, 15);
    hide UserAt, DigitsThen;
  }

  /** A linked identity has any number of digits. */
  lemma LidMeaning(s: string)
    ensures IsLid(s) <==> exists user :: user != "" && UserAt(s, user, "@lid")
  {
    DigitsThenMeaning(s, "@lid", 1, |s|);
    assert forall user :: UserAt(s, user, "@lid") ==> |user| <= |s|;
    hide UserAt, DigitsThen;
  }

  /** A group has at least 10; nothing else is trusted. */
  lemma TrustedJidMeaning(s: string)
    ensures IsTrustedJid(s) <==> IsPhoneJid(s) || IsLid(s) || exists user :: |user| >= 10 && UserAt(s, user, "@g.us")
  {
    DigitsThenMeaning(s, "@g.us", 10, |s|);
    assert forall user :: UserAt(s, user, "@g.us") ==> |user| <= |s|;
    hide UserAt, DigitsThen, IsPhoneJid, IsLid;
  }

  /** The object under this key carries the identity. */
  ghost predicate IdObject(g: Graph, o: Object, key: string, identity: string)
    requires WellFormed(g) && o in g
  {
    && key in o.fields && o.fields[key].Ref?
    && assert o.fields[key].r < |g|;
      var fields := g[o.fields[key].r].fields;
      "_serialized" in fields && fields["_serialized"] == Text(identity)
  }

  /**
   A record belongs to an identity by the object or the string under `__x_id`, and by the object under `id`
   only where `__x_id` is missing or falsy.
   */
  lemma RecordMeaning(g: Graph, o: Object, identity: string)
    requires WellFormed(g) && o in g && identity != ""
    ensures RecordIdentity(g, o) == Some(identity)
       <==> || IdObject(g, o, "__x_id", identity)
            || ("__x_id" in o.fields && o.fields["__x_id"] == Text(identity))
            || (("__x_id" !in o.fields || o.fields["__x_id"] in {Text(""), Prim(false)}) && IdObject(g, o, "id", identity))
  {
  }

  // ---------------------------------------------------------------- reachability

  /** A value read from an enumerable key of an object. */
  ghost predicate Edge(g: Graph, r: nat, v: Value) {
    r < |g| && g[r].keys.Some? && exists k :: k in g[r].keys.value && k !in g[r].throwing && Field(g[r], k) == v
  }

  ghost predicate IsPath(g: Graph, path: seq<Value>) {
    path != [] && forall i :: 0 <= i < |path| - 1 ==> path[i].Ref? && Edge(g, path[i].r, path[i + 1])
  }

  ghost predicate Reaches(g: Graph, from: Value, to: Value) {
    exists path :: IsPath(g, path) && path[0] == from && path[|path| - 1] == to
  }

  /** The value answers the search with this string. */
  ghost predicate Hit(mode: Mode, g: Graph, v: Value, s: string)
    requires WellFormed(g)
  {
    match v
    case Text(t) => t == s && TextHit(mode, t)
    case Ref(r) => r < |g| && RecordHit(mode, g, g[r]) == Some(s)
    case Prim(_) => false
  }

  ghost predicate Found(mode: Mode, g: Graph, from: Value, s: string)
    requires WellFormed(g)
  {
    exists v :: Reaches(g, from, v) && Hit(mode, g, v, s)
  }

  lemma ReachesSelf(g: Graph, v: Value)
    ensures Reaches(g, v, v)
  {
    assert IsPath(g, [v]) && [v][0] == v && [v][|[v]| - 1] == v;
  }

  lemma LongerPath(g: Graph, r: nat, path: seq<Value>)
    requires IsPath(g, path) && Edge(g, r, path[0])
    ensures IsPath(g, [Ref(r)] + path)
  {
    hide Edge;
    var longer := [Ref(r)] + path;
    forall i | 0 <= i < |longer| - 1 ensures longer[i].Ref? && Edge(g, longer[i].r, longer[i + 1]) {
      if i > 0 { assert longer[i] == path[i - 1] && path[i - 1].Ref? && Edge(g, path[i - 1].r, path[i - 1 + 1]); }
    }
  }

  lemma ReachesThrough(g: Graph, r: nat, child: Value, to: Value)
    requires Edge(g, r, child) && Reaches(g, child, to)
    ensures Reaches(g, Ref(r), to)
  {
    var path: seq<Value> :| IsPath(g, path) && path[0] == child && path[|path| - 1] == to;
    hide Edge;
    LongerPath(g, r, path);
    hide IsPath;
    assert ([Ref(r)] + path)[0] == Ref(r) && ([Ref(r)] + path)[|path|] == to;
  }

  lemma FoundThrough(mode: Mode, g: Graph, r: nat, child: Value, s: string)
    requires WellFormed(g) && Edge(g, r, child) && Found(mode, g, child, s)
    ensures Found(mode, g, Ref(r), s)
  {
    hide Edge, Hit, Reaches;
    var v :| Reaches(g, child, v) && Hit(mode, g, v, s);
    ReachesThrough(g, r, child, v);
  }

  // ---------------------------------------------------------------- what has been searched

  /** No answer here, and an object has been expanded. */
  ghost predicate Done(mode: Mode, g: Graph, seen: set<nat>, v: Value) {
    match v case Text(s) => !TextHit(mode, s) case Ref(r) => r in seen case Prim(_) => true
  }

  ghost predicate Expanded(mode: Mode, g: Graph, seen: set<nat>, r: nat)
    requires WellFormed(g)
  {
    r < |g| && RecordHit(mode, g, g[r]).None? && forall v :: Edge(g, r, v) ==> Done(mode, g, seen, v)
  }

  /** All that was seen is expanded, but for the objects the search is inside of. */
  ghost predicate Closed(mode: Mode, g: Graph, seen: set<nat>, inside: set<nat>)
    requires WellFormed(g)
  {
    forall r :: r in seen && r !in inside ==> Expanded(mode, g, seen, r)
  }

  lemma {:induction false} ClosedReaches(mode: Mode, g: Graph, seen: set<nat>, path: seq<Value>, n: nat)
    requires WellFormed(g) && Closed(mode, g, seen, {}) && IsPath(g, path) && Done(mode, g, seen, path[0]) && n < |path|
    ensures Done(mode, g, seen, path[n])
  {
    hide Edge, RecordHit, TextHit, WellFormed;
    if n > 0 {
      ClosedReaches(mode, g, seen, path, n - 1);
      assert Edge(g, path[n - 1].r, path[n - 1 + 1]);
      assert Expanded(mode, g, seen, path[n - 1].r);
    }
  }

  lemma DoneNoHit(mode: Mode, g: Graph, seen: set<nat>, v: Value, s: string)
    requires WellFormed(g) && Closed(mode, g, seen, {}) && Done(mode, g, seen, v)
    ensures !Hit(mode, g, v, s)
  {
    assert v.Ref? ==> Expanded(mode, g, seen, v.r);
  }

  /** A finished search without an answer has left none behind. */
  lemma ClosedFindsNone(mode: Mode, g: Graph, seen: set<nat>, root: Value, s: string)
    requires WellFormed(g) && Closed(mode, g, seen, {}) && Done(mode, g, seen, root)
    ensures !Found(mode, g, root, s)
  {
    hide Edge, WellFormed, Hit;
    forall v | Reaches(g, root, v) ensures !Hit(mode, g, v, s) {
      var path :| IsPath(g, path) && path[0] == root && path[|path| - 1] == v;
      ClosedReaches(mode, g, seen, path, |path| - 1);
      DoneNoHit(mode, g, seen, v, s);
    }
  }

  // ---------------------------------------------------------------- the order of keys

  function InsertByScore(mode: Mode, k: string, keys: seq<string>): seq<string> {
    if keys == [] || Score(mode, k) <= Score(mode, keys[0]) then [k] + keys else [keys[0]] + InsertByScore(mode, k, keys[1..])
  }

  /** The stable sort of the first keys by their score. */
  function ByScore(mode: Mode, keys: seq<string>): seq<string> {
    if keys == [] then [] else InsertByScore(mode, keys[0], ByScore(mode, keys[1..]))
  }

  /** The keys of one score, in their order. */
  function Scored(mode: Mode, n: nat, keys: seq<string>): seq<string> {
    if keys == [] then [] else (if Score(mode, keys[0]) == n then [keys[0]] else []) + Scored(mode, n, keys[1..])
  }

  ghost predicate OrderedByScore(mode: Mode, keys: seq<string>) {
    forall i, j :: 0 <= i < j < |keys| ==> Score(mode, keys[i]) <= Score(mode, keys[j])
  }

  lemma {:induction false} InsertByScoreOrders(mode: Mode, k: string, keys: seq<string>)
    requires OrderedByScore(mode, keys)
    ensures OrderedByScore(mode, InsertByScore(mode, k, keys))
  {
    hide Score;
    if keys != [] && Score(mode, k) > Score(mode, keys[0]) {
      InsertByScoreOrders(mode, k, keys[1..]);
      InsertByScoreKeeps(mode, k, keys[1..]);
      var more := InsertByScore(mode, k, keys[1..]);
      forall i | 0 <= i < |more| ensures Score(mode, keys[0]) <= Score(mode, more[i]) { assert more[i] in more; }
    }
  }

  lemma {:induction false} InsertByScorePermutes(mode: Mode, k: string, keys: seq<string>)
    ensures multiset(InsertByScore(mode, k, keys)) == multiset(keys) + multiset{k}
  {
    hide Score;
    if keys != [] && Score(mode, k) > Score(mode, keys[0]) {
      InsertByScorePermutes(mode, k, keys[1..]);
      assert keys == [keys[0]] + keys[1..];
    }
  }

  lemma {:induction false} InsertByScoreStable(mode: Mode, k: string, keys: seq<string>, n: nat)
    ensures Scored(mode, n, InsertByScore(mode, k, keys)) == Scored(mode, n, [k] + keys)
  {
    hide Score;
    assert ([k] + keys)[1..] == keys;
    if keys != [] && Score(mode, k) > Score(mode, keys[0]) {
      InsertByScoreStable(mode, k, keys[1..], n);
      assert ([k] + keys[1..])[1..] == keys[1..];
    }
  }

  /** The keys are followed by score, those of one score in the order they have, none lost or repeated. */
  lemma {:induction false} ByScoreSorts(mode: Mode, keys: seq<string>, n: nat)
    ensures OrderedByScore(mode, ByScore(mode, keys)) && multiset(ByScore(mode, keys)) == multiset(keys)
    ensures Scored(mode, n, ByScore(mode, keys)) == Scored(mode, n, keys)
  {
    hide Score;
    if keys != [] {
      var rest := keys[1..];
      ByScoreSorts(mode, rest, n);
      InsertByScoreOrders(mode, keys[0], ByScore(mode, rest));
      InsertByScorePermutes(mode, keys[0], ByScore(mode, rest));
      InsertByScoreStable(mode, keys[0], ByScore(mode, rest), n);
      assert keys == [keys[0]] + rest && ([keys[0]] + ByScore(mode, rest))[1..] == ByScore(mode, rest);
    }
  }

  lemma {:induction false} InsertByScoreKeeps(mode: Mode, k: string, keys: seq<string>)
    ensures forall x :: x in InsertByScore(mode, k, keys) <==> x == k || x in keys
  {
    hide Score;
    if keys != [] { InsertByScoreKeeps(mode, k, keys[1..]); }
  }

  lemma {:induction false} ByScoreKeeps(mode: Mode, keys: seq<string>)
    ensures forall x :: x in ByScore(mode, keys) <==> x in keys
  {
    if keys != [] {
      ByScoreKeeps(mode, keys[1..]);
      InsertByScoreKeeps(mode, keys[0], ByScore(mode, keys[1..]));
    }
  }

  function FirstKeys(mode: Mode, keys: seq<string>): seq<string> {
    if |keys| <= KeyLimit(mode) then keys else keys[..KeyLimit(mode)]
  }

  // ---------------------------------------------------------------- the search

  /** Distinct objects, each but the first read from a key of the one before; the first is the root. */
  ghost predicate IsTrail(g: Graph, root: Value, trail: seq<nat>) {
    && (trail != [] ==> root == Ref(trail[0]))
    && (forall i :: 0 <= i < |trail| ==> trail[i] < |g|)
    && (forall i, j :: 0 <= i < j < |trail| ==> trail[i] != trail[j])
    && (forall i :: 0 <= i < |trail| - 1 ==> Edge(g, trail[i], Ref(trail[i + 1])))
  }

  /** The value comes next after a trail. */
  ghost predicate Follows(g: Graph, root: Value, trail: seq<nat>, v: Value) {
    if trail == [] then v == root else Edge(g, trail[|trail| - 1], v)
  }

  ghost predicate TooDeep(g: Graph, root: Value, maxDepth: int) {
    exists trail :: IsTrail(g, root, trail) && |trail| - 1 > maxDepth
  }

  ghost predicate TooManyKeys(mode: Mode, g: Graph, root: Value) {
    exists r: nat :: Reaches(g, root, Ref(r)) && r < |g| && g[r].keys.Some? && |g[r].keys.value| > KeyLimit(mode)
  }

  /** As many objects as may be are expanded, and another is reachable. */
  ghost predicate TooManyObjects(g: Graph, root: Value, maxNodes: int, expanded: set<nat>) {
    |expanded| >= maxNodes && exists r: nat :: r !in expanded && r < |g| && Reaches(g, root, Ref(r))
  }

  /** One of the three limits was really met. */
  ghost predicate LimitMet(mode: Mode, g: Graph, root: Value, maxDepth: int, maxNodes: int, expanded: set<nat>) {
    TooDeep(g, root, maxDepth) || TooManyKeys(mode, g, root) || TooManyObjects(g, root, maxNodes, expanded)
  }

  ghost function ReachableObjects(g: Graph, root: Value): set<nat> { set r: nat | r < |g| && Reaches(g, root, Ref(r)) }

  /** What is reachable from the root keeps within all limits, whatever else there is. */
  ghost predicate WithinLimits(mode: Mode, g: Graph, root: Value, maxDepth: int, maxNodes: int) {
    !TooDeep(g, root, maxDepth) && !TooManyKeys(mode, g, root) && |ReachableObjects(g, root)| <= maxNodes
  }

  lemma WithinMeetsNone(mode: Mode, g: Graph, root: Value, maxDepth: int, maxNodes: int, expanded: set<nat>)
    requires WithinLimits(mode, g, root, maxDepth, maxNodes) && expanded <= ReachableObjects(g, root)
    ensures !LimitMet(mode, g, root, maxDepth, maxNodes, expanded)
  {
    hide Reaches, TooDeep, TooManyKeys;
    if TooManyObjects(g, root, maxNodes, expanded) {
      var r: nat :| r !in expanded && r < |g| && Reaches(g, root, Ref(r));
      Grown(expanded + {r}, ReachableObjects(g, root));
    }
  }

  lemma {:induction false} SizeBounded(n: nat, seen: set<nat>)
    requires forall x :: x in seen ==> x < n
    ensures |seen| <= n
  {
    if n > 0 { SizeBounded(n - 1, seen - {n - 1}); }
    else { assert seen == {}; }
  }

  lemma {:induction false} DistinctMembers(trail: seq<nat>)
    requires forall i, j :: 0 <= i < j < |trail| ==> trail[i] != trail[j]
    ensures |Members(trail)| == |trail|
  {
    if trail != [] {
      var last := |trail| - 1;
      DistinctMembers(trail[..last]);
      assert trail == trail[..last] + [trail[last]];
      assert Members(trail) == Members(trail[..last]) + {trail[last]};
    }
  }

  /** A small enough graph keeps within all limits, however it is linked. */
  lemma SmallWithin(mode: Mode, g: Graph, root: Value, maxDepth: int, maxNodes: int)
    requires |g| <= maxNodes && |g| <= maxDepth + 1
    requires forall i :: 0 <= i < |g| && g[i].keys.Some? ==> |g[i].keys.value| <= KeyLimit(mode)
    ensures WithinLimits(mode, g, root, maxDepth, maxNodes)
  {
    hide Reaches, KeyLimit, Edge;
    SizeBounded(|g|, ReachableObjects(g, root));
    forall trail | IsTrail(g, root, trail) ensures |trail| <= |g| {
      DistinctMembers(trail);
      SizeBounded(|g|, Members(trail));
    }
  }

  /** The value itself answers the search. */
  predicate IsAnswer(mode: Mode, v: Value) { v.Text? && TextHit(mode, v.s) }

  /** The answer was read through a key that scores no worse than any key that holds an answer itself. */
  ghost predicate Preferred(mode: Mode, g: Graph, r: nat, s: string)
    requires WellFormed(g)
  {
    && r < |g| && g[r].keys.Some?
    && exists k :: k in g[r].keys.value && Found(mode, g, Field(g[r], k), s)
                   && (forall other :: other in FirstKeys(mode, g[r].keys.value) && other !in g[r].throwing && IsAnswer(mode, Field(g[r], other)) ==>
                         Score(mode, k) <= Score(mode, other))
  }

  /** The answer was read through the first of these keys that leads to any. */
  ghost predicate FirstFound(mode: Mode, g: Graph, r: nat, keys: seq<string>, s: string)
    requires WellFormed(g) && r < |g|
  {
    exists n :: 0 <= n < |keys| && Found(mode, g, Field(g[r], keys[n]), s)
                && forall i :: 0 <= i < n && keys[i] !in g[r].throwing ==> !IsAnswer(mode, Field(g[r], keys[i]))
  }

  lemma NotBefore(mode: Mode, keys: seq<string>, n: nat, other: string)
    requires OrderedByScore(mode, keys) && n < |keys| && other in keys && forall i :: 0 <= i < n ==> keys[i] != other
    ensures Score(mode, keys[n]) <= Score(mode, other)
  {
    hide Score;
    var i :| 0 <= i < |keys| && keys[i] == other;
    assert i >= n;
  }

  lemma PreferredFound(mode: Mode, g: Graph, r: nat, keys: seq<string>, s: string)
    requires WellFormed(g) && r < |g| && g[r].keys.Some? && keys == ByScore(mode, FirstKeys(mode, g[r].keys.value))
    requires FirstFound(mode, g, r, keys, s)
    ensures Preferred(mode, g, r, s)
  {
    var own := g[r].keys.value;
    ByScoreKeeps(mode, FirstKeys(mode, own));
    ByScoreSorts(mode, FirstKeys(mode, own), 0);
    hide Score, IsAnswer, Found, WellFormed, Field, ByScore, FirstKeys, OrderedByScore;
    var n :| 0 <= n < |keys| && Found(mode, g, Field(g[r], keys[n]), s)
             && forall i :: 0 <= i < n && keys[i] !in g[r].throwing ==> !IsAnswer(mode, Field(g[r], keys[i]));
    forall other | other in FirstKeys(mode, own) && other !in g[r].throwing && IsAnswer(mode, Field(g[r], other))
      ensures Score(mode, keys[n]) <= Score(mode, other)
    {
      NotBefore(mode, keys, n, other);
    }
    assert keys[n] in FirstKeys(mode, own);
  }

  function Members(trail: seq<nat>): set<nat> { set r | r in trail }

  class Search {
    const g: Graph
    const mode: Mode
    const root: Value
    const maxDepth: int
    const maxNodes: int
    var seen: set<nat>
    var visited: nat
    ghost var cut: bool  // an unseen object or a key was passed over for a limit

    constructor (g: Graph, mode: Mode, root: Value, maxDepth: int, maxNodes: int)
      ensures this.g == g && this.mode == mode && this.root == root && this.maxDepth == maxDepth && this.maxNodes == maxNodes
      ensures seen == {} && visited == 0 && !cut
    {
      this.g, this.mode, this.root, this.maxDepth, this.maxNodes := g, mode, root, maxDepth, maxNodes;
      seen, visited, cut := {}, 0, false;
    }

    /** Each object seen is reachable and was expanded once, and no more than the limit. */
    ghost predicate Valid()
      reads this
    {
      && WellFormed(g) && visited == |seen| && (visited == 0 || visited <= maxNodes)
      && forall r :: r in seen ==> r < |g| && Reaches(g, root, Ref(r))
    }

    /** What was passed over was passed over for a limit; if nothing was, what is left is expanded. */
    ghost predicate Accounted(inside: set<nat>)
      requires WellFormed(g)
      reads this
    {
      if cut then LimitMet(mode, g, root, maxDepth, maxNodes, seen) else Closed(mode, g, seen, inside)
    }

    /** `trail` are the objects the search is inside of, the last of which holds the value. */
    method Visit(value: Value, depth: nat, ghost trail: seq<nat>) returns (found: Option<string>)
      requires Valid() && (value.Ref? ==> value.r < |g|)
      requires depth == |trail| && IsTrail(g, root, trail) && Follows(g, root, trail, value) && Members(trail) <= seen
      requires Reaches(g, root, value) && Accounted(Members(trail))
      modifies this
      ensures Valid() && old(seen) <= seen && (old(cut) ==> cut)
      ensures old(visited) >= maxNodes ==> seen == old(seen)
      ensures found.Some? ==> Found(mode, g, value, found.value)
      ensures IsAnswer(mode, value) ==> found == Some(value.s)
      ensures found.Some? && value.Ref? ==> (mode.PhoneOf? && RecordHit(mode, g, g[value.r]) == found) || Preferred(mode, g, value.r, found.value)
      ensures cut ==> LimitMet(mode, g, root, maxDepth, maxNodes, seen)
      ensures found.None? && !cut ==> Closed(mode, g, seen, Members(trail)) && Done(mode, g, seen, value)
      decreases if depth > maxDepth then 0 else maxDepth - depth + 1, 0
    {
      hide Edge, RecordHit, TextHit, KeyLimit, Reaches, LimitMet, IsTrail, Follows, Closed, WellFormed, Preferred, Field, Found;
      if value.Text? {
        if TextHit(mode, value.s) {
          TextFound(mode, g, value.s);
          return Some(value.s);
        }
        return None;
      }
      if value.Prim? { return None; }
      if depth > maxDepth || visited >= maxNodes {
        if value.r !in seen { PassedOver(mode, g, root, maxDepth, maxNodes, trail, value.r, seen); }
        cut := cut || value.r !in seen;
        return None;
      }
      var r := value.r;
      if r in seen { return None; }
      ghost var before, longer := seen, trail + [r];
      LongerTrail(g, root, trail, r);
      if cut { StillMet(mode, g, root, maxDepth, maxNodes, seen, r); }
      seen := seen + {r};
      visited := visited + 1;
      GrownClosed(mode, g, before, seen, Members(trail), Members(longer), cut);
      found := RecordHit(mode, g, g[r]);
      if found.Some? {
        RecordFound(mode, g, r, found.value);
        return;
      }
      if g[r].keys.None? {
        NoEdges(mode, g, seen, r);
        ExpandedClosed(mode, g, seen, Members(trail), r, cut);
        return None;
      }
      var own := g[r].keys.value;
      var keys := ByScore(mode, FirstKeys(mode, own));
      if |own| > KeyLimit(mode) { KeysPassedOver(mode, g, root, maxDepth, maxNodes, r, seen); }
      cut := cut || |own| > KeyLimit(mode);
      ByScoreKeeps(mode, FirstKeys(mode, own));
      found := Follow(r, keys, depth + 1, longer);
      if found.Some? {
        PreferredFound(mode, g, r, keys, found.value);
        return;
      }
      if !cut { AllRead(mode, g, seen, r, keys); }
      ExpandedClosed(mode, g, seen, Members(trail), r, cut);
      return None;
    }

    /** The loop over an object's keys, as many as are followed. */
    method Follow(r: nat, keys: seq<string>, depth: nat, ghost trail: seq<nat>) returns (found: Option<string>)
      requires Valid() && r < |g| && Reaches(g, root, Ref(r)) && g[r].keys.Some? && forall k :: k in keys ==> k in g[r].keys.value
      requires depth == |trail| && IsTrail(g, root, trail) && trail != [] && trail[|trail| - 1] == r && Members(trail) <= seen
      requires Accounted(Members(trail))
      modifies this
      ensures Valid() && old(seen) <= seen && (old(cut) ==> cut)
      ensures found.Some? ==> Found(mode, g, Ref(r), found.value) && FirstFound(mode, g, r, keys, found.value)
      ensures cut ==> LimitMet(mode, g, root, maxDepth, maxNodes, seen)
      ensures found.None? && !cut ==> Closed(mode, g, seen, Members(trail))
      ensures found.None? && !cut ==> forall k :: k in keys && k !in g[r].throwing ==> Done(mode, g, seen, Field(g[r], k))
      decreases if depth > maxDepth then 0 else maxDepth - depth + 1, 1
    {
      hide Edge, RecordHit, TextHit, KeyLimit, Reaches, LimitMet, IsTrail, Follows, Closed, WellFormed, Preferred, Field, Found;
      ghost var before := seen;
      for n := 0 to |keys|
        invariant Valid() && before <= seen && (old(cut) ==> cut)
        invariant Accounted(Members(trail))
        invariant forall i :: 0 <= i < n && keys[i] !in g[r].throwing ==> !IsAnswer(mode, Field(g[r], keys[i]))
        invariant !cut ==> forall i :: 0 <= i < n && keys[i] !in g[r].throwing ==> Done(mode, g, seen, Field(g[r], keys[i]))
      {
        if keys[n] in g[r].throwing { continue; }
        var child := Field(g[r], keys[n]);
        ghost var earlier := seen;
        ReadChild(g, root, trail, keys[n]);
        found := Visit(child, depth, trail);
        if found.Some? {
          FoundThrough(mode, g, r, child, found.value);
          return;
        }
        StillDone(mode, g, earlier, seen);
      }
      return None;
    }
  }

  lemma ReachesOn(g: Graph, from: Value, r: nat, child: Value)
    requires Reaches(g, from, Ref(r)) && Edge(g, r, child)
    ensures Reaches(g, from, child)
  {
    hide Edge;
    var path: seq<Value> :| IsPath(g, path) && path[0] == from && path[|path| - 1] == Ref(r);
    var longer := path + [child];
    forall i | 0 <= i < |longer| - 1 ensures longer[i].Ref? && Edge(g, longer[i].r, longer[i + 1]) {
      if i < |path| - 1 { assert path[i].Ref? && Edge(g, path[i].r, path[i + 1]); }
    }
    assert IsPath(g, longer) && longer[0] == from && longer[|longer| - 1] == child;
  }

  lemma LongerTrail(g: Graph, root: Value, trail: seq<nat>, r: nat)
    requires IsTrail(g, root, trail) && Follows(g, root, trail, Ref(r)) && r < |g| && r !in trail
    ensures IsTrail(g, root, trail + [r]) && Members(trail + [r]) == Members(trail) + {r}
  {
    hide Edge;
    var longer := trail + [r];
    forall i | 0 <= i < |longer| - 1 ensures Edge(g, longer[i], Ref(longer[i + 1])) {
      if i < |trail| - 1 { assert Edge(g, trail[i], Ref(trail[i + 1])); }
    }
  }

  /** An object that is not followed is too deep, or one too many. */
  lemma PassedOver(mode: Mode, g: Graph, root: Value, maxDepth: int, maxNodes: int, trail: seq<nat>, r: nat, seen: set<nat>)
    requires IsTrail(g, root, trail) && Follows(g, root, trail, Ref(r)) && Reaches(g, root, Ref(r))
    requires r < |g| && r !in seen && Members(trail) <= seen && (|trail| > maxDepth || |seen| >= maxNodes)
    ensures LimitMet(mode, g, root, maxDepth, maxNodes, seen)
  {
    hide Edge, Reaches, IsTrail, Follows;
    assert r !in Members(trail);
    LongerTrail(g, root, trail, r);
  }

  lemma KeysPassedOver(mode: Mode, g: Graph, root: Value, maxDepth: int, maxNodes: int, r: nat, seen: set<nat>)
    requires r < |g| && Reaches(g, root, Ref(r)) && g[r].keys.Some? && |g[r].keys.value| > KeyLimit(mode)
    ensures LimitMet(mode, g, root, maxDepth, maxNodes, seen)
  {
    hide Reaches, KeyLimit;
  }

  /** Before the limit of objects is reached, another limit was met, and that stays so. */
  lemma StillMet(mode: Mode, g: Graph, root: Value, maxDepth: int, maxNodes: int, seen: set<nat>, r: nat)
    requires LimitMet(mode, g, root, maxDepth, maxNodes, seen) && |seen| < maxNodes
    ensures LimitMet(mode, g, root, maxDepth, maxNodes, seen + {r})
  {
    hide TooDeep, TooManyKeys;
  }

  lemma ReadChild(g: Graph, root: Value, trail: seq<nat>, k: string)
    requires trail != []
    requires var r := trail[|trail| - 1];
      WellFormed(g) && r < |g| && g[r].keys.Some? && k in g[r].keys.value && k !in g[r].throwing && Reaches(g, root, Ref(r))
    ensures var r := trail[|trail| - 1]; var child := Field(g[r], k);
      Edge(g, r, child) && Follows(g, root, trail, child) && Reaches(g, root, child) && (child.Ref? ==> child.r < |g|)
  {
    hide Reaches;
    ReachesOn(g, root, trail[|trail| - 1], Field(g[trail[|trail| - 1]], k));
  }

  lemma Grown(a: set<nat>, b: set<nat>)
    requires a <= b
    ensures |a| <= |b|
  {
    assert b == a + (b - a);
  }

  lemma TextFound(mode: Mode, g: Graph, s: string)
    requires WellFormed(g) && TextHit(mode, s)
    ensures Found(mode, g, Text(s), s)
  {
    ReachesSelf(g, Text(s));
  }

  lemma RecordFound(mode: Mode, g: Graph, r: nat, s: string)
    requires WellFormed(g) && r < |g| && RecordHit(mode, g, g[r]) == Some(s)
    ensures mode.PhoneOf? && Found(mode, g, Ref(r), s)
  {
    ReachesSelf(g, Ref(r));
    assert Hit(mode, g, Ref(r), s);
  }

  lemma StillDone(mode: Mode, g: Graph, seen: set<nat>, seen': set<nat>)
    requires seen <= seen'
    ensures forall v :: Done(mode, g, seen, v) ==> Done(mode, g, seen', v)
  {
  }

  lemma GrownClosed(mode: Mode, g: Graph, seen: set<nat>, seen': set<nat>, inside: set<nat>, inside': set<nat>, cut: bool)
    requires WellFormed(g) && seen <= seen' && inside <= inside' && seen' - seen <= inside' && (!cut ==> Closed(mode, g, seen, inside))
    ensures !cut ==> Closed(mode, g, seen', inside')
  {
    hide Edge, RecordHit, Done;
    StillDone(mode, g, seen, seen');
    if !cut {
      forall r | r in seen' && r !in inside' ensures Expanded(mode, g, seen', r) { assert Expanded(mode, g, seen, r); }
    }
  }

  lemma ExpandedClosed(mode: Mode, g: Graph, seen: set<nat>, inside: set<nat>, r: nat, cut: bool)
    requires WellFormed(g) && (!cut ==> Closed(mode, g, seen, inside + {r}) && Expanded(mode, g, seen, r))
    ensures !cut ==> Closed(mode, g, seen, inside)
  {
    hide Expanded;
  }

  lemma NoEdges(mode: Mode, g: Graph, seen: set<nat>, r: nat)
    requires WellFormed(g) && r < |g| && g[r].keys.None? && RecordHit(mode, g, g[r]).None?
    ensures Expanded(mode, g, seen, r)
  {
  }

  /** Every readable key was among those followed. */
  lemma AllRead(mode: Mode, g: Graph, seen: set<nat>, r: nat, keys: seq<string>)
    requires WellFormed(g) && r < |g| && g[r].keys.Some? && RecordHit(mode, g, g[r]).None?
    requires forall k :: k in g[r].keys.value ==> k in keys
    requires forall i :: 0 <= i < |keys| && keys[i] !in g[r].throwing ==> Done(mode, g, seen, Field(g[r], keys[i]))
    ensures Expanded(mode, g, seen, r)
  {
    hide RecordHit, Done;
    forall v | Edge(g, r, v) ensures Done(mode, g, seen, v) {
      var k :| k in g[r].keys.value && k !in g[r].throwing && Field(g[r], k) == v;
      var i :| 0 <= i < |keys| && keys[i] == k;
    }
  }

  /** A search that is over: none is found only where none is reachable or a limit was met. */
  lemma SearchedAll(mode: Mode, g: Graph, root: Value, maxDepth: int, maxNodes: int, seen: set<nat>, cut: bool, s: string)
    requires WellFormed(g) && (forall r :: r in seen ==> r < |g| && Reaches(g, root, Ref(r)))
    requires if cut then LimitMet(mode, g, root, maxDepth, maxNodes, seen) else Closed(mode, g, seen, {}) && Done(mode, g, seen, root)
    requires !LimitMet(mode, g, root, maxDepth, maxNodes, seen) || WithinLimits(mode, g, root, maxDepth, maxNodes)
    ensures !Found(mode, g, root, s)
  {
    hide WellFormed, Reaches, LimitMet, WithinLimits, Closed, Done;
    if LimitMet(mode, g, root, maxDepth, maxNodes, seen) { WithinMeetsNone(mode, g, root, maxDepth, maxNodes, seen); }
    ClosedFindsNone(mode, g, seen, root, s);
  }

  /** No trusted id is reachable. */
  ghost predicate NoTrusted(g: Graph, root: Value) { forall s :: IsTrustedJid(s) ==> !Reaches(g, root, Text(s)) }

  /** `findTrustedWhatsAppJidInObject` */
  method FindTrustedJid(g: Graph, root: Value, maxDepth: int, maxNodes: int) returns (jid: Option<string>, ghost expanded: set<nat>)
    requires WellFormed(g) && (root.Ref? ==> root.r < |g|)
    ensures jid.Some? ==> IsTrustedJid(jid.value) && Reaches(g, root, Text(jid.value))
    ensures jid.Some? && root.Ref? ==> Preferred(TrustedJid, g, root.r, jid.value)
    ensures jid.None? && !LimitMet(TrustedJid, g, root, maxDepth, maxNodes, expanded) ==> NoTrusted(g, root)
    ensures jid.None? && WithinLimits(TrustedJid, g, root, maxDepth, maxNodes) ==> NoTrusted(g, root)
    ensures expanded <= ReachableObjects(g, root) && (expanded == {} || |expanded| <= maxNodes)
  {
    hide Edge, RecordHit, IsTrustedJid, WellFormed, LimitMet, WithinLimits, Reaches, Closed, Done;
    var search := new Search(g, TrustedJid, root, maxDepth, maxNodes);
    StartSearch(TrustedJid, g, root);
    jid := search.Visit(root, 0, []);
    expanded := search.seen;
    if jid.Some? { FoundText(g, root, jid.value); }
    else if !LimitMet(TrustedJid, g, root, maxDepth, maxNodes, expanded) || WithinLimits(TrustedJid, g, root, maxDepth, maxNodes) {
      forall s | IsTrustedJid(s) ensures !Reaches(g, root, Text(s)) {
        SearchedAll(TrustedJid, g, root, maxDepth, maxNodes, expanded, search.cut, s);
        NotFoundText(g, root, s);
      }
    }
  }

  lemma StartSearch(mode: Mode, g: Graph, root: Value)
    requires WellFormed(g)
    ensures IsTrail(g, root, []) && Follows(g, root, [], root) && Reaches(g, root, root) && Members([]) == {}
    ensures Closed(mode, g, {}, {})
  {
    ReachesSelf(g, root);
  }

  lemma FoundText(g: Graph, root: Value, s: string)
    requires WellFormed(g) && Found(TrustedJid, g, root, s)
    ensures IsTrustedJid(s) && Reaches(g, root, Text(s))
  {
    hide IsTrustedJid, Reaches;
    var v :| Reaches(g, root, v) && Hit(TrustedJid, g, v, s);
  }

  lemma NotFoundText(g: Graph, root: Value, s: string)
    requires WellFormed(g) && !Found(TrustedJid, g, root, s) && IsTrustedJid(s)
    ensures !Reaches(g, root, Text(s))
  {
    hide IsTrustedJid, Reaches;
    assert Hit(TrustedJid, g, Text(s), s);
  }

  /** `findPhoneJidForWhatsAppIdentity` */
  method FindPhoneJid(g: Graph, root: Value, identity: string, maxDepth: int, maxNodes: int)
    returns (jid: Option<string>, ghost expanded: set<nat>)
    requires WellFormed(g) && (root.Ref? ==> root.r < |g|)
    ensures !IsLid(identity) ==> jid == None
    ensures jid.Some? ==> exists r :: 0 <= r < |g| && RecordOf(g, r, identity, jid.value) && Reaches(g, root, Ref(r))
    ensures jid.None? && IsLid(identity) && !LimitMet(PhoneOf(identity), g, root, maxDepth, maxNodes, expanded) ==> NoRecord(g, root, identity)
    ensures jid.None? && IsLid(identity) && WithinLimits(PhoneOf(identity), g, root, maxDepth, maxNodes) ==> NoRecord(g, root, identity)
    ensures expanded <= ReachableObjects(g, root) && (expanded == {} || |expanded| <= maxNodes)
  {
    hide Edge, RecordHit, WellFormed, IsLid, Reaches, RecordOf, LimitMet, WithinLimits, Closed, Done;
    expanded := {};
    if !IsLid(identity) { return None, {}; }
    var search := new Search(g, PhoneOf(identity), root, maxDepth, maxNodes);
    StartSearch(PhoneOf(identity), g, root);
    jid := search.Visit(root, 0, []);
    expanded := search.seen;
    if jid.Some? { FoundRecord(g, root, identity, jid.value); }
    else if !LimitMet(PhoneOf(identity), g, root, maxDepth, maxNodes, expanded) || WithinLimits(PhoneOf(identity), g, root, maxDepth, maxNodes) {
      forall r, s | 0 <= r < |g| && RecordOf(g, r, identity, s) ensures !Reaches(g, root, Ref(r)) {
        SearchedAll(PhoneOf(identity), g, root, maxDepth, maxNodes, expanded, search.cut, s);
        NotFoundRecord(g, root, identity, r, s);
      }
    }
  }

  /** No record of this identity with a phone id is reachable. */
  ghost predicate NoRecord(g: Graph, root: Value, identity: string)
    requires WellFormed(g)
  {
    forall r, s :: 0 <= r < |g| && RecordOf(g, r, identity, s) ==> !Reaches(g, root, Ref(r))
  }

  /** A record of exactly this identity that names this phone id. */
  ghost predicate RecordOf(g: Graph, r: nat, identity: string, s: string)
    requires WellFormed(g) && r < |g|
  {
    RecordIdentity(g, g[r]) == Some(identity) && Field(g[r], "__x_historyChatId") == Text(s) && IsPhoneJid(s)
  }

  lemma FoundRecord(g: Graph, root: Value, identity: string, s: string)
    requires WellFormed(g) && Found(PhoneOf(identity), g, root, s)
    ensures exists r :: 0 <= r < |g| && RecordOf(g, r, identity, s) && Reaches(g, root, Ref(r))
  {
    hide Reaches, RecordIdentity, IsPhoneJid;
    var v :| Reaches(g, root, v) && Hit(PhoneOf(identity), g, v, s);
    assert v.Ref? && RecordOf(g, v.r, identity, s);
  }

  lemma NotFoundRecord(g: Graph, root: Value, identity: string, r: nat, s: string)
    requires WellFormed(g) && !Found(PhoneOf(identity), g, root, s) && r < |g| && RecordOf(g, r, identity, s)
    ensures !Reaches(g, root, Ref(r))
  {
    hide Reaches, RecordIdentity, IsPhoneJid;
    assert Hit(PhoneOf(identity), g, Ref(r), s);
  }
}
