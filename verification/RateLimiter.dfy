/**
 The fixed-window rate limiter: windows in the order their keys first came, pruned every 128 requests and
 bounded in number; and the counter that never forgets, which it should be indistinguishable from.
 */
module RateLimiter {
  import opened Wrappers

  const MAX_WINDOWS: nat := 10000
  const PRUNE_EVERY: nat := 128

  datatype Window = Window(key: string, count: nat, resetAt: int)

  datatype Request = Request(scope: string, requestKey: string, limit: int, windowMs: int, now: int)

  function KeyOf(r: Request): string { r.scope + ":" + r.requestKey }

  datatype Limiter = Limiter(windows: seq<Window>, requestsSincePrune: nat)

  // ---------------------------------------------------------------- one request

  /** Where a key's window stands; the length if there is none. */
  function Find(windows: seq<Window>, key: string): (n: nat)
    ensures n <= |windows| && (n < |windows| ==> windows[n].key == key)
    ensures forall i :: 0 <= i < n ==> windows[i].key != key
  {
    if windows == [] then 0 else if windows[0].key == key then 0 else 1 + Find(windows[1..], key)
  }

  function Live(windows: seq<Window>, now: int): seq<Window> {
    if windows == [] then []
    else Live(windows[..|windows| - 1], now) + if windows[|windows| - 1].resetAt <= now then [] else [windows[|windows| - 1]]
  }

  /** The oldest go until there is room for one more. */
  function Evicted(windows: seq<Window>): seq<Window> {
    if |windows| >= MAX_WINDOWS then windows[|windows| - MAX_WINDOWS + 1..] else windows
  }

  predicate Prunes(s: Limiter) { s.requestsSincePrune + 1 >= PRUNE_EVERY || |s.windows| >= MAX_WINDOWS }

  function AfterPruning(s: Limiter, now: int): Limiter {
    if Prunes(s) then Limiter(Evicted(Live(s.windows, now)), 0) else Limiter(s.windows, s.requestsSincePrune + 1)
  }

  /** Whether a request drives out a window that is still running. */
  predicate Evicts(s: Limiter, r: Request) { Prunes(s) && |Live(s.windows, r.now)| >= MAX_WINDOWS }

  /** A key's window is opened or counted up; the request that opens it is always accepted. */
  function Counted(windows: seq<Window>, r: Request): (seq<Window>, bool) {
    var key := KeyOf(r);
    var n := Find(windows, key);
    var started := Window(key, 1, r.now + r.windowMs);
    if n == |windows| then (windows + [started], true)
    else if windows[n].resetAt <= r.now then (windows[n := started], true)
    else
      var counted := windows[n].(count := windows[n].count + 1);
      (windows[n := counted], counted.count <= r.limit)
  }

  function Step(s: Limiter, r: Request): (Limiter, bool) {
    var pruned := AfterPruning(s, r.now);
    var (windows, accepted) := Counted(pruned.windows, r);
    (pruned.(windows := windows), accepted)
  }

  lemma LiveOn(windows: seq<Window>, n: nat, now: int)
    requires n < |windows|
    ensures Live(windows[..n + 1], now) == Live(windows[..n], now) + if windows[n].resetAt <= now then [] else [windows[n]]
  {
    assert windows[..n + 1][..n] == windows[..n];
  }

  lemma NoneLive(now: int)
    ensures Live([], now) == []
  {
  }

  class FixedWindowLimiter {
    var windows: seq<Window>
    var requestsSincePrune: nat

    constructor ()
      ensures State() == Limiter([], 0)
    {
      windows, requestsSincePrune := [], 0;
    }

    function State(): Limiter
      reads this
    {
      Limiter(windows, requestsSincePrune)
    }

    /** `assertFixedWindowRateLimit`; not accepting is throwing. */
    method Check(r: Request) returns (accepted: bool)
      modifies this
      ensures (State(), accepted) == Step(old(State()), r)
    {
      hide Live, Find, KeyOf;
      requestsSincePrune := requestsSincePrune + 1;
      if requestsSincePrune >= PRUNE_EVERY || |windows| >= MAX_WINDOWS {
        ghost var before := windows;
        var kept: seq<Window> := [];
        assert windows[..0] == [] && Live([], r.now) == [] by { NoneLive(r.now); }
        for n := 0 to |windows|
          invariant windows == before && kept == Live(windows[..n], r.now)
        {
          LiveOn(windows, n, r.now);
          if windows[n].resetAt > r.now { kept := kept + [windows[n]]; }
        }
        assert before[..|before|] == before;
        windows := kept;
        while |windows| >= MAX_WINDOWS
          invariant |windows| <= |kept| && windows == kept[|kept| - |windows|..]
          invariant |windows| < |kept| ==> |windows| >= MAX_WINDOWS - 1
        {
          windows := windows[1..];
        }
        assert windows == Evicted(kept);
        requestsSincePrune := 0;
      }
      var key := KeyOf(r);
      var n := Find(windows, key);
      if n == |windows| {
        windows := windows + [Window(key, 1, r.now + r.windowMs)];
        return true;
      }
      if windows[n].resetAt <= r.now {
        windows := windows[n := Window(key, 1, r.now + r.windowMs)];
        return true;
      }
      windows := windows[n := windows[n].(count := windows[n].count + 1)];
      return windows[n].count <= r.limit;
    }
  }

  // ---------------------------------------------------------------- the counter that never forgets

  type Counter = map<string, Window>

  function CounterStep(c: Counter, r: Request): (Counter, bool) {
    var key := KeyOf(r);
    if key !in c || c[key].resetAt <= r.now then (c[key := Window(key, 1, r.now + r.windowMs)], true)
    else
      var counted := c[key].(count := c[key].count + 1);
      (c[key := counted], counted.count <= r.limit)
  }

  ghost predicate KeysOnce(windows: seq<Window>) { forall i, j :: 0 <= i < j < |windows| ==> windows[i].key != windows[j].key }

  /** The same windows are running in both. */
  ghost predicate Agrees(windows: seq<Window>, c: Counter, now: int) {
    && KeysOnce(windows)
    && (forall k :: k in c ==> c[k].key == k)
    && (forall w :: w in windows && w.resetAt > now ==> w.key in c && c[w.key] == w)
    && (forall k :: k in c && c[k].resetAt > now ==> c[k] in windows)
  }

  lemma {:induction false} LiveMembers(windows: seq<Window>, now: int)
    ensures forall w :: w in Live(windows, now) <==> w in windows && w.resetAt > now
  {
    if windows != [] {
      LiveMembers(windows[..|windows| - 1], now);
      assert windows == windows[..|windows| - 1] + [windows[|windows| - 1]];
    }
  }

  lemma {:induction false} LiveOnce(windows: seq<Window>, now: int)
    requires KeysOnce(windows)
    ensures KeysOnce(Live(windows, now))
  {
    if windows != [] {
      var front := windows[..|windows| - 1];
      LiveOnce(front, now);
      LiveMembers(front, now);
      forall i | 0 <= i < |Live(front, now)| ensures Live(front, now)[i].key != windows[|windows| - 1].key {
        assert Live(front, now)[i] in front;
      }
    }
  }

  /** As time passes, both lose the same windows. */
  lemma LaterAgrees(windows: seq<Window>, c: Counter, now: int, later: int)
    requires Agrees(windows, c, now) && now <= later
    ensures Agrees(windows, c, later)
  {
  }

  lemma PruningAgrees(s: Limiter, c: Counter, r: Request)
    requires Agrees(s.windows, c, r.now) && !Evicts(s, r)
    ensures Agrees(AfterPruning(s, r.now).windows, c, r.now)
  {
    LiveMembers(s.windows, r.now);
    LiveOnce(s.windows, r.now);
    hide Live, KeysOnce;
  }

  lemma FindsOnly(windows: seq<Window>, key: string)
    requires KeysOnce(windows)
    ensures var n := Find(windows, key);
      (n == |windows| ==> forall w :: w in windows ==> w.key != key) && (n < |windows| ==> forall w :: w in windows && w.key == key ==> w == windows[n])
  {
  }

  lemma ReplacedMembers(windows: seq<Window>, n: nat, x: Window)
    requires KeysOnce(windows) && n < |windows| && windows[n].key == x.key
    ensures KeysOnce(windows[n := x])
    ensures forall w :: w in windows[n := x] <==> w == x || (w in windows && w.key != x.key)
  {
    var next := windows[n := x];
    forall w | w in next ensures w == x || (w in windows && w.key != x.key) {
      var i :| 0 <= i < |next| && next[i] == w;
    }
    forall w | w == x || (w in windows && w.key != x.key) ensures w in next {
      if w != x {
        var i :| 0 <= i < |windows| && windows[i] == w;
        assert next[i] == w;
      } else {
        assert next[n] == x;
      }
    }
  }

  lemma AddedMembers(windows: seq<Window>, x: Window)
    requires KeysOnce(windows) && forall w :: w in windows ==> w.key != x.key
    ensures KeysOnce(windows + [x])
    ensures forall w :: w in windows + [x] <==> w == x || (w in windows && w.key != x.key)
  {
    assert forall i :: 0 <= i < |windows| ==> windows[i] in windows;
  }

  lemma SetAgrees(windows: seq<Window>, next: seq<Window>, c: Counter, x: Window, now: int)
    requires Agrees(windows, c, now) && KeysOnce(next)
    requires forall w :: w in next <==> w == x || (w in windows && w.key != x.key)
    ensures Agrees(next, c[x.key := x], now)
  {
    hide KeysOnce;
  }

  lemma CountingAgrees(windows: seq<Window>, c: Counter, r: Request)
    requires Agrees(windows, c, r.now)
    ensures Agrees(Counted(windows, r).0, CounterStep(c, r).0, r.now) && Counted(windows, r).1 == CounterStep(c, r).1
  {
    var key := KeyOf(r);
    var n := Find(windows, key);
    FindsOnly(windows, key);
    hide KeyOf, Find;
    var started := Window(key, 1, r.now + r.windowMs);
    if n == |windows| {
      AddedMembers(windows, started);
      SetAgrees(windows, windows + [started], c, started, r.now);
    } else {
      assert windows[n] in windows;
      var x := if windows[n].resetAt <= r.now then started else windows[n].(count := windows[n].count + 1);
      ReplacedMembers(windows, n, x);
      SetAgrees(windows, windows[n := x], c, x, r.now);
    }
    assert key in c && c[key].resetAt > r.now ==> n < |windows| && windows[n] == c[key];
    assert n < |windows| && windows[n].resetAt > r.now ==> key in c && c[key] == windows[n];
    hide Agrees;
  }

  // ---------------------------------------------------------------- sequences of requests

  ghost predicate ClockAdvances(rs: seq<Request>) { forall i, j :: 0 <= i < j < |rs| ==> rs[i].now <= rs[j].now }

  function Run(rs: seq<Request>): (Limiter, seq<bool>) {
    if rs == [] then (Limiter([], 0), [])
    else
      var (s, decisions) := Run(rs[..|rs| - 1]);
      var (s', accepted) := Step(s, rs[|rs| - 1]);
      (s', decisions + [accepted])
  }

  function CounterRun(rs: seq<Request>): (Counter, seq<bool>) {
    if rs == [] then (map[], [])
    else
      var (c, decisions) := CounterRun(rs[..|rs| - 1]);
      var (c', accepted) := CounterStep(c, rs[|rs| - 1]);
      (c', decisions + [accepted])
  }

  /** The map never holds more than ten thousand windows. */
  lemma {:induction false} WindowsBounded(rs: seq<Request>)
    ensures |Run(rs).0.windows| <= MAX_WINDOWS
  {
    if rs != [] {
      var s, r := Run(rs[..|rs| - 1]).0, rs[|rs| - 1];
      WindowsBounded(rs[..|rs| - 1]);
      hide Live, Find;
      assert |AfterPruning(s, r.now).windows| < MAX_WINDOWS;
    }
  }

  /** The windows running in the counter when a request comes. */
  ghost function Running(c: Counter, now: int): set<string> { set k | k in c && c[k].resetAt > now }

  ghost predicate FewRunning(rs: seq<Request>) {
    forall n :: 0 <= n < |rs| ==> |Running(CounterRun(rs[..n]).0, rs[n].now)| < MAX_WINDOWS
  }

  ghost predicate NoneEvicted(rs: seq<Request>) { forall n :: 0 <= n < |rs| ==> !Evicts(Run(rs[..n]).0, rs[n]) }

  lemma PrefixClock(rs: seq<Request>, n: nat)
    requires n <= |rs| && ClockAdvances(rs)
    ensures ClockAdvances(rs[..n])
  {
  }

  /**
   Refinement: on every sequence of requests with a clock that does not go back, and as long as no running
   window is evicted, the limiter decides as the counter does.
   */
  lemma {:induction false} DecidesAsCounter(rs: seq<Request>)
    requires ClockAdvances(rs) && NoneEvicted(rs)
    ensures Run(rs).1 == CounterRun(rs).1
    ensures forall now :: (rs == [] || rs[|rs| - 1].now <= now) ==> Agrees(Run(rs).0.windows, CounterRun(rs).0, now)
  {
    hide Agrees, Step, CounterStep, Evicts;
    if rs == [] {
      forall now ensures Agrees([], map[], now) { EmptyAgrees(now); }
    } else {
      var front, r := rs[..|rs| - 1], rs[|rs| - 1];
      assert NoneEvicted(front) by { assert forall n :: 0 <= n < |front| ==> front[..n] == rs[..n] && front[n] == rs[n]; }
      DecidesAsCounter(front);
      assert !Evicts(Run(front).0, r);
      StepAgrees(Run(front).0, CounterRun(front).0, r);
      forall now | r.now <= now ensures Agrees(Run(rs).0.windows, CounterRun(rs).0, now) {
        LaterAgrees(Run(rs).0.windows, CounterRun(rs).0, r.now, now);
      }
    }
  }

  lemma EmptyAgrees(now: int)
    ensures Agrees([], map[], now)
  {
  }

  lemma StepAgrees(s: Limiter, c: Counter, r: Request)
    requires Agrees(s.windows, c, r.now) && !Evicts(s, r)
    ensures Agrees(Step(s, r).0.windows, CounterStep(c, r).0, r.now) && Step(s, r).1 == CounterStep(c, r).1
  {
    PruningAgrees(s, c, r);
    CountingAgrees(AfterPruning(s, r.now).windows, c, r);
    hide Agrees, Counted, CounterStep, Evicts, AfterPruning;
  }

  // ---------------------------------------------------------------- when a running window is evicted

  ghost function Keys(windows: seq<Window>): set<string> { set w | w in windows :: w.key }

  lemma {:induction false} KeysCounted(windows: seq<Window>)
    requires KeysOnce(windows)
    ensures |Keys(windows)| == |windows|
  {
    if windows != [] {
      var front, last := windows[..|windows| - 1], windows[|windows| - 1];
      KeysCounted(front);
      assert windows == front + [last];
      assert Keys(windows) == Keys(front) + {last.key};
      assert last.key !in Keys(front);
    }
  }

  lemma RunningKeys(windows: seq<Window>, c: Counter, now: int)
    requires Agrees(windows, c, now)
    ensures |Live(windows, now)| == |Running(c, now)|
  {
    LiveMembers(windows, now);
    LiveOnce(windows, now);
    KeysCounted(Live(windows, now));
    hide Live, KeysOnce;
    assert Keys(Live(windows, now)) == Running(c, now) by {
      forall k | k in Running(c, now) ensures k in Keys(Live(windows, now)) { assert c[k] in Live(windows, now); }
    }
  }

  lemma {:induction false} LiveFewer(windows: seq<Window>, now: int)
    ensures |Live(windows, now)| <= |windows|
  {
    if windows != [] { LiveFewer(windows[..|windows| - 1], now); }
  }

  /** A running window is evicted exactly when ten thousand are running. */
  lemma EvictsIff(s: Limiter, c: Counter, r: Request)
    requires Agrees(s.windows, c, r.now)
    ensures Evicts(s, r) <==> |Running(c, r.now)| >= MAX_WINDOWS
  {
    RunningKeys(s.windows, c, r.now);
    LiveFewer(s.windows, r.now);
  }

  lemma {:induction false} NoneEvictedIff(rs: seq<Request>)
    requires ClockAdvances(rs)
    ensures NoneEvicted(rs) <==> FewRunning(rs)
  {
    if rs != [] {
      var front, r := rs[..|rs| - 1], rs[|rs| - 1];
      PrefixClock(rs, |rs| - 1);
      LastEvicted(rs);
      LastRunning(rs);
      assert front == [] || front[|front| - 1].now <= r.now;
      hide NoneEvicted, FewRunning, ClockAdvances, Agrees, Evicts, Running, Run, CounterRun;
      NoneEvictedIff(front);
      if NoneEvicted(front) {
        DecidesAsCounter(front);
        EvictsIff(Run(front).0, CounterRun(front).0, r);
      }
    }
  }

  lemma LastEvicted(rs: seq<Request>)
    requires rs != []
    ensures var n := |rs| - 1; NoneEvicted(rs) <==> NoneEvicted(rs[..n]) && !Evicts(Run(rs[..n]).0, rs[n])
  {
    hide Evicts, Run;
    var front := rs[..|rs| - 1];
    assert forall i :: 0 <= i < |front| ==> front[..i] == rs[..i] && front[i] == rs[i];
  }

  lemma LastRunning(rs: seq<Request>)
    requires rs != []
    ensures var n := |rs| - 1; FewRunning(rs) <==> FewRunning(rs[..n]) && |Running(CounterRun(rs[..n]).0, rs[n].now)| < MAX_WINDOWS
  {
    hide Running, CounterRun;
    var front := rs[..|rs| - 1];
    assert forall i :: 0 <= i < |front| ==> front[..i] == rs[..i] && front[i] == rs[i];
  }

  /** So with fewer than ten thousand windows running at every request, the limiter is the counter. */
  lemma FewRunningDecideAlike(rs: seq<Request>)
    requires ClockAdvances(rs)
    ensures NoneEvicted(rs) <==> FewRunning(rs)
    ensures FewRunning(rs) ==> Run(rs).1 == CounterRun(rs).1
  {
    NoneEvictedIff(rs);
    hide NoneEvicted, FewRunning;
    if NoneEvicted(rs) { DecidesAsCounter(rs); }
  }

  // ---------------------------------------------------------------- an evicted window is forgotten

  function Repeat(n: nat): (s: string)
    ensures |s| == n
  {
    if n == 0 then "" else Repeat(n - 1) + "a"
  }

  /** The n-th of a flood of clients, each of whom may come once in a time. */
  function Client(n: nat): Request { Request("ip", Repeat(n), 1, 1, 0) }

  function Flood(n: nat): (rs: seq<Request>)
    ensures |rs| == n && forall i :: 0 <= i < n ==> rs[i] == Client(i)
  {
    if n == 0 then [] else Flood(n - 1) + [Client(n - 1)]
  }

  function Opened(n: nat): (windows: seq<Window>)
    ensures |windows| == n && forall i :: 0 <= i < n ==> windows[i] == Window(KeyOf(Client(i)), 1, 1)
  {
    if n == 0 then [] else Opened(n - 1) + [Window(KeyOf(Client(n - 1)), 1, 1)]
  }

  lemma ClientsDiffer(i: nat, k: nat)
    requires i != k
    ensures KeyOf(Client(i)) != KeyOf(Client(k))
  {
    assert |KeyOf(Client(i))| == i + 3 && |KeyOf(Client(k))| == k + 3;
  }

  lemma {:induction false} AllLive(windows: seq<Window>, now: int)
    requires forall i :: 0 <= i < |windows| ==> windows[i].resetAt > now
    ensures Live(windows, now) == windows
  {
    if windows != [] {
      AllLive(windows[..|windows| - 1], now);
      assert windows == windows[..|windows| - 1] + [windows[|windows| - 1]];
    }
  }

  lemma FloodPrunes(s: Limiter)
    requires |s.windows| <= MAX_WINDOWS && s.windows == Opened(|s.windows|)
    ensures Live(s.windows, 0) == s.windows
    ensures |s.windows| < MAX_WINDOWS ==> !Evicts(s, Client(|s.windows|)) && AfterPruning(s, 0).windows == s.windows
    ensures |s.windows| == MAX_WINDOWS ==> AfterPruning(s, 0).windows == s.windows[1..]
  {
    AllLive(s.windows, 0);
    hide Live, Opened, KeyOf;
  }

  lemma NewClient(windows: seq<Window>, r: Request)
    requires forall i :: 0 <= i < |windows| ==> windows[i].key != KeyOf(r)
    ensures Counted(windows, r) == (windows + [Window(KeyOf(r), 1, r.now + r.windowMs)], true)
  {
    hide KeyOf;
  }

  lemma FloodStep(s: Limiter)
    requires |s.windows| < MAX_WINDOWS && s.windows == Opened(|s.windows|)
    ensures var n := |s.windows|; Step(s, Client(n)).0.windows == Opened(n + 1) && !Evicts(s, Client(n))
  {
    FloodPrunes(s);
    var n := |s.windows|;
    forall i | 0 <= i < n ensures s.windows[i].key != KeyOf(Client(n)) { ClientsDiffer(i, n); }
    hide KeyOf, AfterPruning, Evicts, Counted;
    NewClient(s.windows, Client(n));
  }

  /** Up to the limit the flood opens a window each. */
  lemma {:induction false} FloodOpens(n: nat)
    requires n <= MAX_WINDOWS
    ensures Run(Flood(n)).0.windows == Opened(n) && NoneEvicted(Flood(n))
  {
    if n > 0 {
      FloodOpens(n - 1);
      assert Flood(n)[..n - 1] == Flood(n - 1);
      FloodStep(Run(Flood(n - 1)).0);
      LastEvicted(Flood(n));
      hide Client, Step, Evicts, NoneEvicted;
    }
  }

  lemma LastDecision(rs: seq<Request>, r: Request)
    ensures var (d, c) := (Run(rs + [r]).1, CounterRun(rs + [r]).1);
      && |d| == |rs| + 1 && d[|rs|] == Step(Run(rs).0, r).1
      && |c| == |rs| + 1 && c[|rs|] == CounterStep(CounterRun(rs).0, r).1
  {
    DecisionsCounted(rs);
    assert (rs + [r])[..|rs + [r]| - 1] == rs;
    hide Step, CounterStep;
  }

  lemma {:induction false} DecisionsCounted(rs: seq<Request>)
    ensures |Run(rs).1| == |rs| && |CounterRun(rs).1| == |rs|
  {
    if rs != [] {
      DecisionsCounted(rs[..|rs| - 1]);
      hide Step, CounterStep;
    }
  }

  /**
   The limit of windows forgets: ten thousand clients come at once, then the first comes again within its
   time. The limiter has evicted its window and accepts it, the counter does not.
   */
  lemma EvictionForgets()
    ensures var rs := Flood(MAX_WINDOWS) + [Client(0)]; ClockAdvances(rs) && Run(rs).1 != CounterRun(rs).1
  {
    var flood := Flood(MAX_WINDOWS);
    var rs := flood + [Client(0)];
    assert ClockAdvances(flood) && ClockAdvances(rs);
    FloodOpens(MAX_WINDOWS);
    hide Client, Run, CounterRun, ClockAdvances, Agrees, Step, CounterStep, NoneEvicted;
    DecidesAsCounter(flood);
    assert Agrees(Run(flood).0.windows, CounterRun(flood).0, 0) by { FloodNow(MAX_WINDOWS); }
    ForgottenFirst(Run(flood).0, CounterRun(flood).0);
    LastDecision(flood, Client(0));
  }

  lemma FloodNow(n: nat)
    ensures Flood(n) == [] || Flood(n)[|Flood(n)| - 1].now <= 0
  {
  }

  lemma ForgottenFirst(s: Limiter, c: Counter)
    requires s.windows == Opened(MAX_WINDOWS) && Agrees(s.windows, c, 0)
    ensures Step(s, Client(0)).1 && !CounterStep(c, Client(0)).1
  {
    CounterRemembers(s.windows, c);
    hide CounterStep, Agrees;
    FloodPrunes(s);
    LaterClients(s.windows);
    hide KeyOf, AfterPruning, Counted, Opened, Client;
    NewClient(s.windows[1..], Client(0));
  }

  lemma LaterClients(windows: seq<Window>)
    requires windows == Opened(MAX_WINDOWS)
    ensures forall i :: 0 <= i < |windows[1..]| ==> windows[1..][i].key != KeyOf(Client(0))
  {
    hide KeyOf, Client;
    forall i | 0 <= i < |windows[1..]| ensures windows[1..][i].key != KeyOf(Client(0)) {
      ClientsDiffer(i + 1, 0);
      assert windows[1..][i] == Opened(MAX_WINDOWS)[i + 1];
    }
  }

  lemma CounterRemembers(windows: seq<Window>, c: Counter)
    requires windows == Opened(MAX_WINDOWS) && Agrees(windows, c, 0)
    ensures !CounterStep(c, Client(0)).1
  {
    var w := windows[0];
    assert w in windows && w == Window(KeyOf(Client(0)), 1, 1);
    hide KeyOf, Opened, KeysOnce;
  }
}
