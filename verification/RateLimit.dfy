/**
 The sliding-window limiter with block periods and garbage collection.

 `Gate` is one key of the same limiter with the garbage collection removed; times and durations are
 integers of one unit. `IpLimiter` is proved to answer like it, and what the limiter promises is proved
 of the gate.
 */
module RateLimit {
  import opened Options
  import opened Sequences

  datatype Limits = Limits(max: int, window: int, block: int)

  datatype Gate = Gate(attempts: seq<int>, until: Option<int>)

  datatype Call = Call(ip: string, at: int)

  const PRUNE_EVERY := 1000
  const OPEN := Gate([], None)

  /** The attempts still inside the window. */
  function Fresh(l: Limits, ts: seq<int>, now: int): (r: seq<int>)
    ensures |r| <= |ts|
    ensures forall t :: t in r ==> t in ts && now - t < l.window
  {
    if ts == [] then []
    else (if now - ts[0] < l.window then [ts[0]] else []) + Fresh(l, ts[1..], now)
  }

  /** What counts against the key: nothing once a block has been served. */
  function Counting(g: Gate): seq<int> {
    if g.until.Some? then [] else g.attempts
  }

  function AllowGate(l: Limits, g: Gate, now: int): (Gate, bool) {
    if g.until.Some? && now < g.until.value then (g, false)
    else
      var keep := Fresh(l, Counting(g), now) + [now];
      if |keep| > l.max then (Gate(keep, Some(now + l.block)), false) else (Gate(keep, None), true)
  }

  /** What the garbage collection does to one key. */
  function PruneGate(l: Limits, g: Gate, now: int): Gate {
    if g.until.Some? && now < g.until.value then g
    else if Fresh(l, g.attempts, now) == [] then OPEN
    else Gate(g.attempts, None)
  }

  function GateAfter(l: Limits, g: Gate, times: seq<int>): Gate
    decreases |times|
  {
    if times == [] then g else GateAfter(l, AllowGate(l, g, times[0]).0, times[1..])
  }

  function GateAnswers(l: Limits, g: Gate, times: seq<int>): (r: seq<bool>)
    ensures |r| == |times|
    decreases |times|
  {
    if times == [] then []
    else [AllowGate(l, g, times[0]).1] + GateAnswers(l, AllowGate(l, g, times[0]).0, times[1..])
  }

  // ---- windows ----------------------------------------------------------------------------

  lemma {:induction false} FreshConcat(l: Limits, a: seq<int>, b: seq<int>, now: int)
    ensures Fresh(l, a + b, now) == Fresh(l, a, now) + Fresh(l, b, now)
  {
    if a == [] {
      assert a + b == b;
    } else {
      assert (a + b)[1..] == a[1..] + b;
      FreshConcat(l, a[1..], b, now);
    }
  }

  /** What has left the window never comes back. */
  lemma {:induction false} FreshTwice(l: Limits, ts: seq<int>, now: int, later: int)
    requires now <= later
    ensures Fresh(l, Fresh(l, ts, now), later) == Fresh(l, ts, later)
  {
    if ts != [] {
      FreshTwice(l, ts[1..], now, later);
      if now - ts[0] < l.window {
        assert Fresh(l, ts, now)[1..] == Fresh(l, ts[1..], now);
      } else {
        assert Fresh(l, ts, now) == Fresh(l, ts[1..], now);
      }
    }
  }

  lemma {:induction false} AllStale(l: Limits, ts: seq<int>, now: int)
    ensures Fresh(l, ts, now) == [] <==> forall t :: t in ts ==> now - t >= l.window
  {
    if ts != [] {
      AllStale(l, ts[1..], now);
      assert forall t :: t in ts <==> t == ts[0] || t in ts[1..];
      if now - ts[0] < l.window {
        assert ts[0] in ts && ts[0] in Fresh(l, ts, now);
      }
    }
  }

  // ---- what one key is promised -----------------------------------------------------------

  function Cap(l: Limits): nat {
    if l.max < 0 then 0 else l.max
  }

  ghost predicate Monotone(times: seq<int>) {
    forall i, j :: 0 <= i < j < |times| ==> times[i] <= times[j]
  }

  /** The calls that were let through. */
  function Allowed(times: seq<int>, answers: seq<bool>): seq<int>
    requires |times| == |answers|
  {
    if times == [] then []
    else (if answers[0] then [times[0]] else []) + Allowed(times[1..], answers[1..])
  }

  /** How many of the times fall into [from, from + window). */
  function InWindow(l: Limits, ts: seq<int>, from: int): (n: nat) {
    if ts == [] then 0
    else (if from <= ts[0] < from + l.window then 1 else 0) + InWindow(l, ts[1..], from)
  }

  /**
   The gate after calls up to `last`, of which `past` were let through: an open gate counts exactly
   the recent ones, a closed one closed a whole block after all of them.
   */
  ghost predicate GateInv(l: Limits, g: Gate, past: seq<int>, last: int) {
    && (forall t :: t in past ==> t <= last)
    && (forall t :: t in g.attempts ==> t <= last)
    && (g.until.None? ==> Fresh(l, g.attempts, last) == Fresh(l, past, last))
    && (g.until.Some? ==>
          && g.until.value <= last + l.block
          && (forall t :: t in past || t in g.attempts ==> t <= g.until.value - l.block))
  }

  lemma AllowKeeps(l: Limits, g: Gate, past: seq<int>, last: int, now: int)
    requires 0 < l.window <= l.block && GateInv(l, g, past, last) && last <= now
    ensures var (g', ok) := AllowGate(l, g, now);
            var past' := if ok then past + [now] else past;
            GateInv(l, g', past', now) && (ok ==> |Fresh(l, past', now)| <= l.max)
  {
    if g.until.Some? && now < g.until.value {
      return;
    }
    if g.until.Some? {
      AllStale(l, past, now);
    } else {
      FreshTwice(l, g.attempts, last, now);
      FreshTwice(l, past, last, now);
    }
    var keep := Fresh(l, Counting(g), now) + [now];
    assert Fresh(l, Counting(g), now) == Fresh(l, past, now);
    FreshConcat(l, past, [now], now);
    FreshConcat(l, Fresh(l, past, now), [now], now);
    FreshTwice(l, past, now, now);
    assert Fresh(l, [now], now) == [now];
  }

  /** Every time in the window that ends with the last call let through is still fresh at that call. */
  lemma {:induction false} WindowIsFresh(l: Limits, ts: seq<int>, from: int, now: int)
    requires now < from + l.window
    ensures InWindow(l, ts, from) <= |Fresh(l, ts, now)|
  {
    if ts != [] {
      WindowIsFresh(l, ts[1..], from, now);
    }
  }

  lemma {:induction false} InWindowConcat(l: Limits, a: seq<int>, b: seq<int>, from: int)
    ensures InWindow(l, a + b, from) == InWindow(l, a, from) + InWindow(l, b, from)
  {
    if a == [] {
      assert a + b == b;
    } else {
      assert (a + b)[1..] == a[1..] + b;
      InWindowConcat(l, a[1..], b, from);
    }
  }

  /** One call more keeps every window within the limit. */
  lemma CallIsBounded(l: Limits, g: Gate, past: seq<int>, last: int, now: int, from: int)
    requires 0 < l.window <= l.block && GateInv(l, g, past, last) && last <= now
    requires InWindow(l, past, from) <= Cap(l)
    ensures var (g', ok) := AllowGate(l, g, now);
            InWindow(l, if ok then past + [now] else past, from) <= Cap(l)
  {
    AllowKeeps(l, g, past, last, now);
    InWindowConcat(l, past, [now], from);
    if now < from + l.window {
      WindowIsFresh(l, past + [now], from, now);
    }
  }

  lemma AllowedFirst(times: seq<int>, answers: seq<bool>, past: seq<int>)
    requires |times| == |answers| > 0
    ensures past + Allowed(times, answers) == (if answers[0] then past + [times[0]] else past) + Allowed(times[1..], answers[1..])
  {
  }

  lemma {:induction false} RunIsBounded(l: Limits, g: Gate, past: seq<int>, last: int, times: seq<int>, from: int)
    requires 0 < l.window <= l.block && GateInv(l, g, past, last)
    requires Monotone(times) && (times != [] ==> last <= times[0])
    requires InWindow(l, past, from) <= Cap(l)
    ensures InWindow(l, past + Allowed(times, GateAnswers(l, g, times)), from) <= Cap(l)
    decreases |times|
  {
    var answers := GateAnswers(l, g, times);
    if times == [] {
      assert past + Allowed(times, answers) == past;
    } else {
      var now, rest := times[0], times[1..];
      var (g', ok) := AllowGate(l, g, now);
      CallIsBounded(l, g, past, last, now, from);
      AllowKeeps(l, g, past, last, now);
      assert Monotone(rest) && (rest != [] ==> now <= rest[0]);
      RunIsBounded(l, g', if ok then past + [now] else past, now, rest, from);
      assert answers[0] == ok && answers[1..] == GateAnswers(l, g', rest);
      AllowedFirst(times, answers, past);
    }
  }

  /** With a monotone clock no window of that length holds more than `max` allowed calls. */
  lemma AtMostMaxPerWindow(l: Limits, times: seq<int>, from: int)
    requires 0 < l.window <= l.block && Monotone(times)
    ensures InWindow(l, Allowed(times, GateAnswers(l, OPEN, times)), from) <= Cap(l)
  {
    if times != [] {
      var allowed := Allowed(times, GateAnswers(l, OPEN, times));
      RunIsBounded(l, OPEN, [], times[0], times, from);
      assert [] + allowed == allowed;
    }
  }

  // ---- when a key is let through ------------------------------------------------------------

  lemma {:induction false} FreshIsAWindow(l: Limits, ts: seq<int>, now: int)
    requires forall t :: t in ts ==> t <= now
    ensures |Fresh(l, ts, now)| == InWindow(l, ts, now - l.window + 1)
  {
    if ts != [] {
      assert ts[0] in ts && forall t :: t in ts[1..] ==> t in ts;
      FreshIsAWindow(l, ts[1..], now);
      assert |Fresh(l, ts, now)| == (if now - ts[0] < l.window then 1 else 0) + |Fresh(l, ts[1..], now)|;
    }
  }

  ghost predicate NoRefusal(answers: seq<bool>) {
    false !in answers
  }

  /** No window of that length holds more than `max` of the times. */
  ghost predicate WindowsFit(l: Limits, ts: seq<int>) {
    forall from :: InWindow(l, ts, from) <= if l.max < 0 then 0 else l.max
  }

  /** An open gate that let everything through so far goes on if no window gets too full. */
  lemma {:induction false} GoesOn(l: Limits, g: Gate, past: seq<int>, last: int, times: seq<int>)
    requires 0 < l.window <= l.block && GateInv(l, g, past, last) && g.until.None?
    requires Monotone(times) && (times != [] ==> last <= times[0])
    requires WindowsFit(l, past + times)
    ensures NoRefusal(GateAnswers(l, g, times))
    decreases |times|
  {
    if times != [] {
      var now, rest := times[0], times[1..];
      OneMoreFits(l, g, past, last, times);
      AllowKeeps(l, g, past, last, now);
      assert Monotone(rest) && (rest != [] ==> now <= rest[0]);
      assert past + times == (past + [now]) + rest;
      GoesOn(l, AllowGate(l, g, now).0, past + [now], now, rest);
    }
  }

  lemma OneMoreFits(l: Limits, g: Gate, past: seq<int>, last: int, times: seq<int>)
    requires 0 < l.window <= l.block && GateInv(l, g, past, last) && g.until.None?
    requires times != [] && last <= times[0]
    requires WindowsFit(l, past + times)
    ensures AllowGate(l, g, times[0]).1 && AllowGate(l, g, times[0]).0.until.None?
  {
    hide InWindow;
    var now, rest := times[0], times[1..];
    var from := now - l.window + 1;
    StillCounts(l, g, past, last, now);
    FreshIsAWindow(l, past + [now], now);
    assert past + times == (past + [now]) + rest;
    InWindowConcat(l, past + [now], rest, from);
    assert InWindow(l, past + times, from) <= if l.max < 0 then 0 else l.max;
  }

  lemma StillCounts(l: Limits, g: Gate, past: seq<int>, last: int, now: int)
    requires 0 < l.window && GateInv(l, g, past, last) && g.until.None? && last <= now
    ensures Fresh(l, Counting(g), now) + [now] == Fresh(l, past + [now], now)
  {
    FreshTwice(l, g.attempts, last, now);
    FreshTwice(l, past, last, now);
    FreshConcat(l, past, [now], now);
    assert Fresh(l, [now], now) == [now];
  }

  lemma {:induction false} AllAllowed(times: seq<int>, answers: seq<bool>)
    requires |times| == |answers| && NoRefusal(answers)
    ensures Allowed(times, answers) == times
  {
    if times != [] {
      AllAllowed(times[1..], answers[1..]);
    }
  }

  /** A key is let through every time exactly if no window of that length holds more than `max` of its calls. */
  lemma AlwaysLetThroughIff(l: Limits, times: seq<int>)
    requires 0 < l.window <= l.block && Monotone(times)
    ensures NoRefusal(GateAnswers(l, OPEN, times)) <==> WindowsFit(l, times)
  {
    hide InWindow, AllowGate, Monotone;
    var answers := GateAnswers(l, OPEN, times);
    if NoRefusal(answers) {
      AllAllowed(times, answers);
      forall from
        ensures InWindow(l, times, from) <= if l.max < 0 then 0 else l.max
      {
        AtMostMaxPerWindow(l, times, from);
      }
    }
    if times != [] && WindowsFit(l, times) {
      assert [] + times == times;
      GoesOn(l, OPEN, [], times[0], times);
    }
  }

  /** After a block a key starts afresh. */
  lemma StartsAfresh(l: Limits, g: Gate, times: seq<int>)
    requires g.until.Some? && (times != [] ==> g.until.value <= times[0])
    ensures GateAnswers(l, g, times) == GateAnswers(l, OPEN, times)
  {
    if times != [] {
      assert AllowGate(l, g, times[0]) == AllowGate(l, OPEN, times[0]);
    }
  }

  /** A key that trips the limit is refused for the whole block. */
  lemma {:induction false} RefusedForTheBlock(l: Limits, g: Gate, times: seq<int>, until: int)
    requires g.until == Some(until) && forall i :: 0 <= i < |times| ==> times[i] < until
    ensures GateAfter(l, g, times) == g
    ensures forall i :: 0 <= i < |times| ==> !GateAnswers(l, g, times)[i]
    decreases |times|
  {
    if times != [] {
      RefusedForTheBlock(l, g, times[1..], until);
    }
  }

  lemma TrippedIsBlocked(l: Limits, g: Gate, now: int, times: seq<int>)
    requires !AllowGate(l, g, now).1 && (g.until.None? || g.until.value <= now)
    requires forall i :: 0 <= i < |times| ==> times[i] < now + l.block
    ensures forall i :: 0 <= i < |times| ==> !GateAnswers(l, AllowGate(l, g, now).0, times)[i]
  {
    RefusedForTheBlock(l, AllowGate(l, g, now).0, times, now + l.block);
  }

  // ---- when the garbage collection can be noticed -------------------------------------------

  /** The answer to the next call, with and without a collection right before it. */
  ghost predicate PruneIsInvisible(l: Limits, times: seq<int>, now: int) {
    var g := GateAfter(l, OPEN, times);
    AllowGate(l, PruneGate(l, g, now), now).1 == AllowGate(l, g, now).1
  }

  /** A closed gate holds no attempt younger than the block. */
  ghost predicate ClosedInv(l: Limits, g: Gate) {
    g.until.Some? ==> forall t :: t in g.attempts ==> t <= g.until.value - l.block
  }

  lemma {:induction false} ClosedAfter(l: Limits, g: Gate, last: int, times: seq<int>)
    requires ClosedInv(l, g) && (forall t :: t in g.attempts ==> t <= last)
    requires Monotone(times) && (times != [] ==> last <= times[0])
    ensures ClosedInv(l, GateAfter(l, g, times))
    decreases |times|
  {
    if times != [] {
      var now := times[0];
      var g' := AllowGate(l, g, now).0;
      assert forall t :: t in g'.attempts ==> t in g.attempts || t == now;
      ClosedAfter(l, g', now, times[1..]);
    }
  }

  lemma PruneKeepsTheAnswer(l: Limits, g: Gate, now: int)
    requires ClosedInv(l, g) && (l.window <= l.block || l.max <= 0)
    ensures AllowGate(l, PruneGate(l, g, now), now).1 == AllowGate(l, g, now).1
  {
    AllStale(l, g.attempts, now);
    if l.max > 0 && g.until.Some? && now >= g.until.value {
      assert Fresh(l, g.attempts, now) == [];
    }
  }

  function Zeros(n: nat): seq<int> {
    seq(n, _ => 0)
  }

  lemma {:induction false} ZerosFillTheGate(l: Limits, k: nat, n: nat)
    requires 0 < l.window && 1 <= l.max && k + n == l.max + 1 && k <= l.max
    ensures GateAfter(l, Gate(Zeros(k), None), Zeros(n)) == Gate(Zeros(l.max + 1), Some(l.block))
    decreases n
  {
    assert Zeros(n)[1..] == Zeros(n - 1);
    ZerosAreFresh(l, k, 0);
    assert Zeros(k) + [0] == Zeros(k + 1);
    if n > 1 {
      ZerosFillTheGate(l, k + 1, n - 1);
    } else {
      assert Zeros(0) == [];
    }
  }

  lemma {:induction false} ZerosAreFresh(l: Limits, k: nat, now: int)
    requires now < l.window
    ensures Fresh(l, Zeros(k), now) == Zeros(k)
  {
    if k > 0 {
      assert Zeros(k)[1..] == Zeros(k - 1);
      ZerosAreFresh(l, k - 1, now);
      assert [0] + Zeros(k - 1) == Zeros(k);
    }
  }

  /**
   For every limiter with a positive window and block, a collection changes no answer exactly when the
   block is at least as long as the window, or the limiter never lets anything through.
   */
  lemma PruneIsInvisibleIff(l: Limits)
    requires 0 < l.window && 0 < l.block
    ensures (forall times, now :: Monotone(times + [now]) ==> PruneIsInvisible(l, times, now)) <==>
              (l.window <= l.block || l.max <= 0)
  {
    if l.window <= l.block || l.max <= 0 {
      forall times: seq<int>, now | Monotone(times + [now]) ensures PruneIsInvisible(l, times, now) {
        if times != [] {
          forall i, j | 0 <= i < j < |times| ensures times[i] <= times[j] {
            assert (times + [now])[i] <= (times + [now])[j];
          }
          ClosedAfter(l, OPEN, times[0], times);
        }
        PruneKeepsTheAnswer(l, GateAfter(l, OPEN, times), now);
      }
    } else {
      var times := Zeros(l.max + 1);
      assert Gate(Zeros(0), None) == OPEN;
      ZerosFillTheGate(l, 0, l.max + 1);
      ZerosAreFresh(l, l.max + 1, l.block);
      assert !PruneIsInvisible(l, times, l.block);
      assert Monotone(times + [l.block]);
    }
  }

  // ---- many keys --------------------------------------------------------------------------

  function GateOf(gates: map<string, Gate>, ip: string): Gate {
    if ip in gates then gates[ip] else OPEN
  }

  /** The answers of the limiter that never collects garbage. */
  function Answers(l: Limits, gates: map<string, Gate>, calls: seq<Call>): (r: seq<bool>)
    ensures |r| == |calls|
    decreases |calls|
  {
    if calls == [] then []
    else
      var (g, ok) := AllowGate(l, GateOf(gates, calls[0].ip), calls[0].at);
      [ok] + Answers(l, gates[calls[0].ip := g], calls[1..])
  }

  lemma AnswersStep(l: Limits, gates: map<string, Gate>, calls: seq<Call>, i: nat)
    requires i < |calls|
    ensures var step := AllowGate(l, GateOf(gates, calls[i].ip), calls[i].at);
            Answers(l, gates, calls[i..]) == [step.1] + Answers(l, gates[calls[i].ip := step.0], calls[i + 1..])
  {
    assert calls[i..][1..] == calls[i + 1..];
  }

  function KeyTimes(calls: seq<Call>, ip: string): seq<int> {
    if calls == [] then []
    else (if calls[0].ip == ip then [calls[0].at] else []) + KeyTimes(calls[1..], ip)
  }

  function KeyAnswers(calls: seq<Call>, answers: seq<bool>, ip: string): seq<bool>
    requires |answers| == |calls|
  {
    if calls == [] then []
    else (if calls[0].ip == ip then [answers[0]] else []) + KeyAnswers(calls[1..], answers[1..], ip)
  }

  /** Keys do not disturb each other. */
  lemma {:induction false} KeysAreIndependent(l: Limits, gates: map<string, Gate>, calls: seq<Call>, ip: string)
    ensures KeyAnswers(calls, Answers(l, gates, calls), ip) == GateAnswers(l, GateOf(gates, ip), KeyTimes(calls, ip))
    decreases |calls|
  {
    if calls != [] {
      var (g, ok) := AllowGate(l, GateOf(gates, calls[0].ip), calls[0].at);
      var gates' := gates[calls[0].ip := g];
      KeysAreIndependent(l, gates', calls[1..], ip);
      var rest := KeyTimes(calls[1..], ip);
      assert Answers(l, gates, calls)[1..] == Answers(l, gates', calls[1..]);
      if calls[0].ip == ip {
        assert KeyTimes(calls, ip)[1..] == rest;
      } else {
        assert KeyTimes(calls, ip) == rest;
      }
    }
  }

  lemma {:induction false} KeyTimesMonotone(calls: seq<Call>, ip: string, low: int)
    requires forall i, j :: 0 <= i < j < |calls| ==> calls[i].at <= calls[j].at
    requires forall i :: 0 <= i < |calls| ==> low <= calls[i].at
    ensures Monotone(KeyTimes(calls, ip)) && forall i :: 0 <= i < |KeyTimes(calls, ip)| ==> low <= KeyTimes(calls, ip)[i]
    decreases |calls|
  {
    if calls != [] {
      KeyTimesMonotone(calls[1..], ip, calls[0].at);
    }
  }

  /** The promise of the whole limiter: per key and window, at most `max` calls are allowed. */
  lemma LimiterIsBounded(l: Limits, calls: seq<Call>, ip: string, from: int)
    requires 0 < l.window <= l.block
    requires forall i, j :: 0 <= i < j < |calls| ==> calls[i].at <= calls[j].at
    ensures |KeyTimes(calls, ip)| == |KeyAnswers(calls, Answers(l, map[], calls), ip)|
    ensures InWindow(l, Allowed(KeyTimes(calls, ip), KeyAnswers(calls, Answers(l, map[], calls), ip)), from)
              <= Cap(l)
  {
    KeysAreIndependent(l, map[], calls, ip);
    if calls != [] {
      KeyTimesMonotone(calls, ip, calls[0].at);
    }
    AtMostMaxPerWindow(l, KeyTimes(calls, ip), from);
  }

  // ---- the limiter ------------------------------------------------------------------------

  /** What an admitted or tripping call leaves behind stands for the gate after it. */
  lemma AdmittedStands(l: Limits, attempts: seq<int>, block: Option<int>, g: Gate, now: int)
    requires 0 < l.window <= l.block && StandsFor(l, attempts, block, g, now)
    requires block.Some? ==> block.value <= now
    ensures var keep := Fresh(l, if block.Some? then [] else attempts, now) + [now];
            && keep == Fresh(l, Counting(g), now) + [now] && (AllowGate(l, g, now).1 <==> |keep| <= l.max)
            && StandsFor(l, keep, if |keep| > l.max then Some(now + l.block) else None, AllowGate(l, g, now).0, now)
  {
  }

  /** A key that is shut out stands for a gate that is. */
  lemma ShutStands(l: Limits, attempts: seq<int>, block: Option<int>, g: Gate, now: int)
    requires StandsFor(l, attempts, block, g, now) && block.Some? && now < block.value
    ensures AllowGate(l, g, now) == (g, false) && g.until.Some?
  {
  }

  /** A key as it is stored stands for a gate: it will answer every call from `last` on like it. */
  ghost predicate StandsFor(l: Limits, attempts: seq<int>, block: Option<int>, g: Gate, last: int) {
    if block.Some? then
      && g.until == block
      && (forall t :: t in attempts ==> t <= block.value - l.block)
    else
      && (g.until.Some? ==> g.until.value <= last)
      && (forall t :: t in attempts ==> t <= last)
      && Fresh(l, attempts, last) == Fresh(l, Counting(g), last)
  }

  lemma StandsLater(l: Limits, attempts: seq<int>, block: Option<int>, g: Gate, last: int, now: int)
    requires StandsFor(l, attempts, block, g, last) && last <= now
    ensures StandsFor(l, attempts, block, g, now)
  {
    FreshTwice(l, attempts, last, now);
    FreshTwice(l, Counting(g), last, now);
  }

  /** An expired block can be dropped, and then attempts of which none is fresh. */
  lemma StandsPruned(l: Limits, attempts: seq<int>, block: Option<int>, g: Gate, now: int)
    requires 0 < l.window <= l.block && StandsFor(l, attempts, block, g, now)
    ensures block.Some? && block.value <= now ==> StandsFor(l, attempts, None, g, now)
    ensures (block.None? || block.value <= now) && Fresh(l, attempts, now) == [] ==> StandsFor(l, [], None, g, now)
  {
    AllStale(l, attempts, now);
  }

  /** A block has not expired, and a key that is listed without one has an attempt in the window. */
  ghost predicate Live(l: Limits, listed: bool, attempts: seq<int>, block: Option<int>, now: int) {
    if block.Some? then now < block.value else listed ==> exists t :: t in attempts && now - t < l.window
  }

  /** A key that was just asked for is live. */
  lemma AskedIsLive(l: Limits, attempts: seq<int>, block: Option<int>, now: int)
    requires 0 < l.window <= l.block && now in attempts && (block.Some? ==> block.value == now + l.block)
    ensures Live(l, true, attempts, block, now)
  {
  }

  class IpLimiter {
    const limits: Limits
    var attempts: map<string, seq<int>>
    var blocked: map<string, int>
    var calls: nat

    // The gates of the same limiter without garbage collection, and the time of its last call.
    ghost var plain: map<string, Gate>
    ghost var last: int

    function AttemptsOf(ip: string): seq<int>
      reads this`attempts
    {
      if ip in attempts then attempts[ip] else []
    }

    function BlockOf(ip: string): Option<int>
      reads this`blocked
    {
      if ip in blocked then Some(blocked[ip]) else None
    }

    ghost predicate Valid()
      reads this
    {
      0 < limits.window <= limits.block && forall ip :: StandsFor(limits, AttemptsOf(ip), BlockOf(ip), GateOf(plain, ip), last)
    }

    ghost predicate Swept(now: int)
      reads this`attempts, this`blocked
    {
      forall ip :: Live(limits, ip in attempts, AttemptsOf(ip), BlockOf(ip), now)
    }

    constructor (l: Limits, now: int)
      requires 0 < l.window <= l.block
      ensures Valid() && limits == l && plain == map[] && last == now
    {
      limits := l;
      attempts, blocked, calls := map[], map[], 0;
      plain, last := map[], now;
    }

    /** Drops every expired block. */
    method PruneBlocked(now: int)
      modifies this`blocked
      ensures blocked == map ip | ip in old(blocked) && now < old(blocked)[ip] :: old(blocked)[ip]
    {
      var todo := blocked.Keys;
      while todo != {}
        invariant todo <= old(blocked).Keys
        invariant blocked == map ip | ip in old(blocked) && (ip in todo || now < old(blocked)[ip]) :: old(blocked)[ip]
        decreases |todo|
      {
        var ip :| ip in todo;
        todo := todo - {ip};
        if now >= blocked[ip] {
          blocked := blocked - {ip};
        }
      }
    }

    /** Drops the attempts of every key that is not blocked and has none left in the window. */
    method PruneAttempts(now: int)
      modifies this`attempts
      ensures forall ip :: ip in attempts <==>
                ip in old(attempts) && (ip in blocked || exists t :: t in old(attempts)[ip] && now - t < limits.window)
      ensures forall ip :: ip in attempts ==> attempts[ip] == old(attempts)[ip]
    {
      var todo := attempts.Keys;
      while todo != {}
        invariant todo <= old(attempts).Keys
        invariant forall ip :: ip in attempts <==>
                    && ip in old(attempts)
                    && (ip in todo || ip in blocked || exists t :: t in old(attempts)[ip] && now - t < limits.window)
        invariant forall ip :: ip in attempts ==> attempts[ip] == old(attempts)[ip]
        decreases |todo|
      {
        var ip :| ip in todo;
        todo := todo - {ip};
        if ip !in blocked {
          var recent := AnyFresh(attempts[ip], now);
          if !recent {
            attempts := attempts - {ip};
          }
        }
      }
    }

    method AnyFresh(ts: seq<int>, now: int) returns (recent: bool)
      ensures recent <==> exists t :: t in ts && now - t < limits.window
    {
      for i := 0 to |ts|
        invariant forall k :: 0 <= k < i ==> now - ts[k] >= limits.window
      {
        if now - ts[i] < limits.window {
          assert ts[i] in ts;
          return true;
        }
      }
      return false;
    }

    /** The sweep: no key stops standing for its gate. */
    method Prune(now: int)
      requires Valid() && last <= now
      modifies this`attempts, this`blocked, this`last
      ensures Valid() && last == now && Swept(now)
      // Nothing else goes: a running block stays, and so do the attempts of a blocked key and those still in the window.
      ensures forall ip :: ip in blocked <==> ip in old(blocked) && now < old(blocked)[ip]
      ensures forall ip :: ip in attempts <==>
                ip in old(attempts) && (ip in blocked || exists t :: t in old(attempts)[ip] && now - t < limits.window)
      ensures (forall ip :: ip in blocked ==> blocked[ip] == old(blocked)[ip])
              && (forall ip :: ip in attempts ==> attempts[ip] == old(attempts)[ip])
    {
      forall ip ensures StandsFor(limits, AttemptsOf(ip), BlockOf(ip), GateOf(plain, ip), now) {
        StandsLater(limits, AttemptsOf(ip), BlockOf(ip), GateOf(plain, ip), last, now);
      }
      label before:
      PruneBlocked(now);
      PruneAttempts(now);
      last := now;
      forall ip ensures StandsFor(limits, AttemptsOf(ip), BlockOf(ip), GateOf(plain, ip), now) {
        StandsPruned(limits, old@before(AttemptsOf(ip)), old@before(BlockOf(ip)), GateOf(plain, ip), now);
        AllStale(limits, old@before(AttemptsOf(ip)), now);
      }
    }

    /** Whether a key is shut out; nothing is recorded. */
    method Blocked(ip: string, now: int) returns (shut: bool)
      requires Valid() && last <= now
      ensures shut <==> GateOf(plain, ip).until.Some? && now < GateOf(plain, ip).until.value
    {
      assert StandsFor(limits, AttemptsOf(ip), BlockOf(ip), GateOf(plain, ip), last);
      shut := ip in blocked && now < blocked[ip];
    }

    method Keep(ts: seq<int>, now: int) returns (keep: seq<int>)
      ensures keep == Fresh(limits, ts, now)
    {
      keep := [];
      for i := 0 to |ts|
        invariant keep == Fresh(limits, ts[..i], now)
      {
        assert ts[..i + 1] == ts[..i] + [ts[i]];
        FreshConcat(limits, ts[..i], [ts[i]], now);
        if now - ts[i] < limits.window {
          keep := keep + [ts[i]];
        }
      }
      assert ts[..|ts|] == ts;
    }

    /** Time passes without a call. */
    ghost method Pass(now: int)
      requires Valid() && last <= now
      modifies this`last
      ensures Valid() && last == now
    {
      forall ip ensures StandsFor(limits, AttemptsOf(ip), BlockOf(ip), GateOf(plain, ip), now) {
        StandsLater(limits, AttemptsOf(ip), BlockOf(ip), GateOf(plain, ip), last, now);
      }
      last := now;
    }

    /** The decision about one call, at the current time. */
    method Admit(ip: string, now: int) returns (ok: bool)
      requires Valid() && last == now
      modifies this`attempts, this`blocked, this`plain
      ensures Valid() && (old(Swept(now)) ==> Swept(now))
      ensures ok == AllowGate(limits, GateOf(old(plain), ip), now).1
      ensures plain == old(plain)[ip := AllowGate(limits, GateOf(old(plain), ip), now).0]
    {
      hide StandsFor, AllowGate, Live;
      ghost var g := GateOf(plain, ip);
      assert StandsFor(limits, AttemptsOf(ip), BlockOf(ip), g, now);
      if ip !in blocked || blocked[ip] <= now {
        AdmittedStands(limits, AttemptsOf(ip), BlockOf(ip), g, now);
      } else {
        ShutStands(limits, AttemptsOf(ip), BlockOf(ip), g, now);
      }
      if ip in blocked {
        if now < blocked[ip] {
          assert plain[ip := g] == plain;
          return false;
        }
        blocked := blocked - {ip};
        attempts := attempts - {ip};
      }
      var keep := Keep(AttemptsOf(ip), now);
      keep := keep + [now];
      assert now in keep;
      attempts := attempts[ip := keep];
      plain := plain[ip := AllowGate(limits, g, now).0];
      ok := true;
      if |keep| > limits.max {
        blocked := blocked[ip := now + limits.block];
        ok := false;
      }
      AskedIsLive(limits, keep, BlockOf(ip), now);
      forall k ensures StandsFor(limits, AttemptsOf(k), BlockOf(k), GateOf(plain, k), now)
               ensures old(Swept(now)) ==> Live(limits, k in attempts, AttemptsOf(k), BlockOf(k), now) {
        assert k != ip ==> StandsFor(limits, old(AttemptsOf(k)), old(BlockOf(k)), old(GateOf(plain, k)), now);
        assert k != ip && old(Swept(now)) ==> Live(limits, k in old(attempts), old(AttemptsOf(k)), old(BlockOf(k)), now);
      }
    }

    /** Records an attempt and answers like the gate of the limiter without garbage collection. */
    method Allow(ip: string, now: int) returns (ok: bool)
      requires Valid() && last <= now
      modifies this
      ensures Valid() && last == now
      // Every thousandth call sweeps.
      ensures calls == old(calls) + 1 && (calls % 1000 == 0 ==> Swept(now))
      ensures ok == AllowGate(limits, GateOf(old(plain), ip), now).1
      ensures plain == old(plain)[ip := AllowGate(limits, GateOf(old(plain), ip), now).0]
    {
      Pass(now);
      calls := calls + 1;
      if calls % PRUNE_EVERY == 0 {
        Prune(now);
      }
      ok := Admit(ip, now);
    }

    /** A whole run: every answer is the one without garbage collection. */
    method Serve(run: seq<Call>) returns (answers: seq<bool>)
      requires Valid() && plain == map[]
      requires forall i, j :: 0 <= i < j < |run| ==> run[i].at <= run[j].at
      requires forall i :: 0 <= i < |run| ==> last <= run[i].at
      modifies this
      ensures answers == Answers(limits, map[], run)
    {
      answers := [];
      for i := 0 to |run|
        invariant Valid() && (forall k :: i <= k < |run| ==> last <= run[k].at)
        invariant |answers| == i
        invariant answers + Answers(limits, plain, run[i..]) == Answers(limits, map[], run)
      {
        AnswersStep(limits, plain, run, i);
        var ok := Allow(run[i].ip, run[i].at);
        Regroup(answers, [ok], Answers(limits, plain, run[i + 1..]));
        answers := answers + [ok];
      }
    }
  }
}
