/** The in-memory limits of internal/server/server.go: the sliding-window throttle and the dispatch slots. */
module Limits {
  import opened Prelude

  // ---------- throttle ----------

  const MINUTE := 60 * 1_000_000_000

  /** The entries of a log less than a minute old. */
  function Recent(log: seq<int>, now: int): seq<int> {
    if log == [] then []
    else (if now - log[0] < MINUTE then [log[0]] else []) + Recent(log[1..], now)
  }

  /** The rule the throttle promises, stated on the full history of admissions. */
  function Admit(history: seq<int>, now: int, limit: int): seq<int> {
    if |Recent(history, now)| >= limit then history else history + [now]
  }

  /** A call of the throttle for some key. */
  datatype Call = Call(at: int, limit: int)

  /** The admissions that a sequence of calls leads to. */
  function History(calls: seq<Call>): seq<int> {
    if calls == [] then []
    else Admit(History(calls[..|calls| - 1]), calls[|calls| - 1].at, calls[|calls| - 1].limit)
  }

  /** The admissions in the half-open minute that begins at `start`. */
  function Window(log: seq<int>, start: int): seq<int> {
    if log == [] then []
    else (if start <= log[0] < start + MINUTE then [log[0]] else []) + Window(log[1..], start)
  }

  predicate Ordered(calls: seq<Call>) {
    forall i, j | 0 <= i < j < |calls| :: calls[i].at <= calls[j].at
  }

  lemma {:induction false} WindowAppend(log: seq<int>, t: int, start: int)
    ensures Window(log + [t], start) == Window(log, start) + if start <= t < start + MINUTE then [t] else []
  {
    if log == [] {
      assert log + [t] == [t];
    } else {
      var first := if start <= log[0] < start + MINUTE then [log[0]] else [];
      WindowAppend(log[1..], t, start);
      assert (log + [t])[0] == log[0] && (log + [t])[1..] == log[1..] + [t];
      Associative(first, Window(log[1..], start), if start <= t < start + MINUTE then [t] else []);
    }
  }

  /** Every entry of a window that reaches `now` is recent at `now`. */
  lemma {:induction false} WindowIsRecent(log: seq<int>, start: int, now: int)
    requires now < start + MINUTE
    ensures |Window(log, start)| <= |Recent(log, now)|
  {
    if log != [] {
      WindowIsRecent(log[1..], start, now);
    }
  }

  /** No minute contains more admissions than the largest limit a call came with. */
  lemma {:induction false} WindowBounded(calls: seq<Call>, limit: nat, start: int)
    requires Ordered(calls) && forall c | c in calls :: c.limit <= limit
    ensures |Window(History(calls), start)| <= limit
  {
    if calls != [] {
      var before, last := calls[..|calls| - 1], calls[|calls| - 1];
      var h := History(before);
      WindowBounded(before, limit, start);
      WindowAppend(h, last.at, start);
      if start <= last.at < start + MINUTE {
        WindowIsRecent(h, start, last.at);
      }
    }
  }

  lemma {:induction false} RecentConcat(a: seq<int>, b: seq<int>, now: int)
    ensures Recent(a + b, now) == Recent(a, now) + Recent(b, now)
  {
    if a == [] {
      assert a + b == b;
    } else {
      var first := if now - a[0] < MINUTE then [a[0]] else [];
      RecentConcat(a[1..], b, now);
      assert (a + b)[0] == a[0] && (a + b)[1..] == a[1..] + b;
      Associative(first, Recent(a[1..], now), Recent(b, now));
    }
  }

  /** Dropping what was old at an earlier moment does not change what is recent now. */
  lemma {:induction false} RecentAgain(log: seq<int>, earlier: int, now: int)
    requires earlier <= now
    ensures Recent(Recent(log, earlier), now) == Recent(log, now)
  {
    if log != [] {
      RecentAgain(log[1..], earlier, now);
      RecentConcat(if earlier - log[0] < MINUTE then [log[0]] else [], Recent(log[1..], earlier), now);
    }
  }

  /** The loop that keeps the entries of the last minute. */
  method Prune(log: seq<int>, now: int) returns (live: seq<int>)
    ensures live == Recent(log, now)
  {
    live := [];
    for i := 0 to |log|
      invariant live == Recent(log[..i], now)
    {
      assert log[..i + 1] == log[..i] + [log[i]];
      RecentConcat(log[..i], [log[i]], now);
      if now - log[i] < MINUTE {
        live := live + [log[i]];
      }
    }
    assert log[..|log|] == log;
  }

  /** At `clock`, the pruned log of a key agrees about every moment from then on with the history that its calls
      have produced. */
  ghost predicate Agrees(log: seq<int>, calls: seq<Call>, clock: int) {
    Ordered(calls) && (forall c | c in calls :: c.at <= clock)
    && forall t | clock <= t :: Recent(log, t) == Recent(History(calls), t)
  }

  /** The log a call leaves behind. */
  function Stored(log: seq<int>, c: Call): seq<int> {
    if |Recent(log, c.at)| >= c.limit then log else Recent(log, c.at) + [c.at]
  }

  lemma AgreesLater(log: seq<int>, calls: seq<Call>, clock: int, now: int)
    requires Agrees(log, calls, clock) && clock <= now
    ensures Agrees(log, calls, now)
  {
  }

  lemma HistoryCall(calls: seq<Call>, c: Call)
    ensures History(calls + [c]) == Admit(History(calls), c.at, c.limit)
  {
    assert (calls + [c])[..|calls|] == calls;
  }

  lemma OrderedCall(calls: seq<Call>, clock: int, c: Call)
    requires Ordered(calls) && (forall d | d in calls :: d.at <= clock) && clock <= c.at
    ensures Ordered(calls + [c]) && forall d | d in calls + [c] :: d.at <= c.at
  {
    forall i | 0 <= i < |calls| ensures calls[i].at <= c.at { assert calls[i] in calls; }
  }

  /** Counting positions, one more at the end. */
  lemma CountAppend(before: set<int>, whole: set<int>, n: nat, last: bool)
    requires n !in before && whole == if last then before + {n} else before
    ensures |whole| == |before| + if last then 1 else 0
  {
  }

  lemma RecentOne(t: int, now: int)
    ensures Recent([t], now) == if now - 60_000_000_000 < t then [t] else []
    ensures Recent([], now) == []
  {
    assert [t][1..] == [];
  }

  lemma {:induction false} RecentCount(log: seq<int>, now: int)
    requires forall t | t in log :: t <= now
    ensures |Recent(log, now)| == |set i | 0 <= i < |log| && now - 60_000_000_000 < log[i] <= now|
    decreases |log|
  {
    hide Recent;
    RecentOne(if log == [] then 0 else log[|log| - 1], now);
    if log != [] {
      var n := |log| - 1;
      var init, t := log[..n], log[n];
      assert log == init + [t] && t in log;
      assert forall u | u in init :: u in log;
      RecentCount(init, now);
      RecentConcat(init, [t], now);
      var before := set i | 0 <= i < |init| && now - 60_000_000_000 < init[i] <= now;
      var whole := set i | 0 <= i < |log| && now - 60_000_000_000 < log[i] <= now;
      CountAppend(before, whole, n, now - 60_000_000_000 < t <= now);
    }
  }

  lemma {:induction false} HistoryPast(calls: seq<Call>, now: int)
    requires forall c | c in calls :: c.at <= now
    ensures forall t | t in History(calls) :: t <= now
  {
    if calls != [] {
      HistoryPast(calls[..|calls| - 1], now);
    }
  }

  /** What a call adds to the admissions of its key: itself, exactly when fewer than its limit of them lie in the
      minute of nanoseconds that ends with it. */
  lemma AdmissionExact(calls: seq<Call>, c: Call)
    requires forall d | d in calls :: d.at <= c.at
    ensures var h := History(calls);
            History(calls + [c])
            == if |set i | 0 <= i < |h| && c.at - 60_000_000_000 < h[i] <= c.at| < c.limit then h + [c.at] else h
  {
    hide History, Recent;
    HistoryPast(calls, c.at);
    HistoryCall(calls, c);
    RecentCount(History(calls), c.at);
  }

  lemma {:induction false} WindowCount(log: seq<int>, start: int)
    ensures |Window(log, start)| == |set i | 0 <= i < |log| && start <= log[i] < start + 60_000_000_000|
    decreases |log|
  {
    if log != [] {
      var n := |log| - 1;
      var init, t := log[..n], log[n];
      WindowCount(init, start);
      WindowAppend(init, t, start);
      assert log == init + [t];
      var before := set i | 0 <= i < |init| && start <= init[i] < start + 60_000_000_000;
      var whole := set i | 0 <= i < |log| && start <= log[i] < start + 60_000_000_000;
      CountAppend(before, whole, n, start <= t < start + 60_000_000_000);
    }
  }

  /** The bound, counted: no 60 seconds hold more admissions than the largest limit a call came with. */
  lemma AdmissionsBounded(calls: seq<Call>, limit: nat, start: int)
    requires Ordered(calls) && forall c | c in calls :: c.limit <= limit
    ensures var h := History(calls);
            |set i | 0 <= i < |h| && start <= h[i] < start + 60_000_000_000| <= limit
  {
    hide History, Window;
    WindowBounded(calls, limit, start);
    WindowCount(History(calls), start);
  }

  /** One call: the verdict on the pruned log is the verdict on the full history, and they agree again afterwards. */
  lemma AgreesCall(log: seq<int>, calls: seq<Call>, clock: int, c: Call)
    requires Agrees(log, calls, clock) && clock <= c.at
    ensures Recent(log, c.at) == Recent(History(calls), c.at)
    ensures History(calls + [c]) == Admit(History(calls), c.at, c.limit)
    ensures Agrees(Stored(log, c), calls + [c], c.at)
  {
    hide Recent, History, Ordered;
    HistoryCall(calls, c);
    OrderedCall(calls, clock, c);
    forall t | c.at <= t ensures Recent(Stored(log, c), t) == Recent(History(calls + [c]), t) {
      RecentConcat(Recent(log, c.at), [c.at], t);
      RecentConcat(History(calls), [c.at], t);
      RecentAgain(log, c.at, t);
    }
  }

  lemma AgreesPast(log: seq<int>, calls: seq<Call>, clock: int, now: int)
    requires Agrees(log, calls, clock) && clock <= now
    ensures forall t | t in History(calls) :: t <= now
  {
    HistoryPast(calls, now);
  }

  lemma NothingYet(clock: int)
    ensures Agrees([], [], clock)
  {
  }

  class Throttle {
    var throttles: map<string, seq<int>>
    ghost var calls: map<string, seq<Call>>  // every call for a key, refused ones included
    ghost var clock: int

    ghost predicate Valid()
      reads this
    {
      throttles.Keys <= calls.Keys && forall k | k in calls :: Agrees(Log(k), calls[k], clock)
    }

    function Log(key: string): seq<int>
      reads this
    {
      if key in throttles then throttles[key] else []
    }

    ghost function Calls(key: string): seq<Call>
      reads this
    {
      if key in calls then calls[key] else []
    }

    constructor ()
      ensures Valid() && calls == map[]
    {
      throttles, calls, clock := map[], map[], 0;
    }

    /** The verdict is that of the rule on the full history: refused only if it really has `limit` admissions
        in the last minute. */
    method Allow(key: string, limit: int, now: int) returns (ok: bool)
      requires Valid() && clock <= now
      modifies this
      ensures Valid() && clock == now
      ensures calls == old(calls)[key := old(Calls(key)) + [Call(now, limit)]]
      ensures ok <==> |Recent(History(old(Calls(key))), now)| < limit
      ensures var h := History(old(Calls(key)));
              ok <==> |set i | 0 <= i < |h| && now - 60_000_000_000 < h[i] <= now| < limit
      ensures History(Calls(key)) == Admit(History(old(Calls(key))), now, limit)
    {
      hide Agrees, Recent, History, Admit;
      var call := Call(now, limit);
      assert Agrees(Log(key), Calls(key), clock) by {
        if key !in calls { NothingYet(clock); }
      }
      AgreesCall(Log(key), Calls(key), clock, call);
      AgreesPast(Log(key), Calls(key), clock, now);
      RecentCount(History(Calls(key)), now);
      forall k | k in calls ensures Agrees(Log(k), calls[k], now) {
        AgreesLater(Log(k), calls[k], clock, now);
      }
      calls, clock := calls[key := Calls(key) + [call]], now;
      var live := Prune(Log(key), now);
      if |live| >= limit {
        return false;
      }
      throttles := throttles[key := live + [now]];
      return true;
    }

    /** At any time, no minute contains more admissions of a key than the largest limit it was called with. */
    lemma Bounded(key: string, limit: nat, start: int)
      requires Valid() && key in calls && forall c | c in calls[key] :: c.limit <= limit
      ensures |Window(History(calls[key]), start)| <= limit
    {
      assert Agrees(Log(key), calls[key], clock);
      WindowBounded(calls[key], limit, start);
    }
  }

  // ---------- acquire and release ----------

  const MAX_GLOBAL := 32
  const MAX_DEVICE := 4

  function Count(active: map<string, int>, device: string): int {
    if device in active then active[device] else 0
  }

  ghost function Total(active: map<string, int>): int {
    if active == map[] then 0
    else
      var d :| d in active;
      active[d] + Total(active - {d})
  }

  /** Per-device counters that mirror the holders add up to the number of holders. */
  lemma {:induction false} TotalIsHolders(active: map<string, int>, holders: multiset<string>)
    requires forall d :: d in active <==> d in holders
    requires forall d | d in active :: active[d] == holders[d]
    ensures Total(active) == |holders|
    decreases |active|
  {
    if active != map[] {
      var d :| d in active && Total(active) == active[d] + Total(active - {d});
      var rest := holders[d := 0];
      TotalIsHolders(active - {d}, rest);
      assert holders == rest[d := holders[d]];
    } else {
      assert holders == multiset{};
    }
  }

  class Slots {
    var global: int
    var active: map<string, int>
    ghost var holders: multiset<string>  // the devices of the goroutines now between acquire and release

    ghost predicate Valid()
      reads this
    {
      global == |holders| <= MAX_GLOBAL
      && (forall d :: d in active <==> d in holders)
      && (forall d | d in active :: active[d] == holders[d] <= MAX_DEVICE)
    }

    constructor ()
      ensures Valid() && holders == multiset{}
    {
      global, active, holders := 0, map[], multiset{};
    }

    method Acquire(device: string) returns (ok: bool)
      requires Valid()
      modifies this
      ensures Valid()
      ensures ok <==> |old(holders)| < 32 && old(holders)[device] < 4
      ensures holders == if ok then old(holders) + multiset{device} else old(holders)
    {
      if global >= MAX_GLOBAL || Count(active, device) >= MAX_DEVICE {
        return false;
      }
      global := global + 1;
      active := active[device := Count(active, device) + 1];
      holders := holders + multiset{device};
      return true;
    }

    method Release(device: string)
      requires Valid() && device in holders
      modifies this
      ensures Valid() && holders == old(holders) - multiset{device}
    {
      global := global - 1;
      active := active[device := Count(active, device) - 1];
      if active[device] == 0 {
        active := active - {device};
      }
      holders := holders - multiset{device};
    }

    /** The global counter is the sum of the per-device counters, and no counter is zero. */
    lemma Conserved()
      requires Valid()
      ensures Total(active) == global == |holders| <= 32
      ensures forall d | d in active :: 1 <= active[d] == holders[d] <= 4
    {
      TotalIsHolders(active, holders);
    }
  }
}
