/**
 Automatic recovery: how often the agent restarts telemt or fails over on its own. An attempt is written to
 the reliability file before it is acted on, and the cooldown and the hourly cap are read back from there
 after a restart. The event list is cut to its last fifty entries, and the cap counts what is left of it.
 */
module Recovery {
  import opened Options

  const SECOND := 1_000_000_000
  const HOUR := 3600 * SECOND
  const KEPT := 50

  datatype Action = Attempt | Result | Other
  datatype Event = Event(at: int, action: Action)

  datatype Policy = Policy(
    restart: bool, maintenance: bool, failureThreshold: int, cooldownSeconds: int, maxActionsHour: int,
    egress: Egress, socksAddress: Option<string>, reserveSocksAddress: Option<string>, automaticFailover: bool)
  datatype Egress = Unmanaged | Direct | Socks5

  /** Where the engine's traffic goes as far as the agent knows: it starts out knowing nothing. */
  datatype Route = Unknown | ByHand | Straight | Via(address: string)

  const DEFAULT_POLICY := Policy(false, false, 3, 300, 2, Unmanaged, None, None, false)

  /** Policy.Validate, but for the form of the two addresses. */
  predicate ValidPolicy(p: Policy) {
    && 2 <= p.failureThreshold <= 20 && 60 <= p.cooldownSeconds <= 86400 && 1 <= p.maxActionsHour <= 6
    && (p.egress == Socks5 ==> p.socksAddress.Some?)
    && !(p.automaticFailover && p.egress == Socks5 && p.reserveSocksAddress == p.socksAddress)
    && !(p.automaticFailover && (p.egress == Unmanaged || p.reserveSocksAddress.None?))
  }

  // ---- histories ---------------------------------------------------------------------------

  /** An event with the limits in force when it was written. */
  datatype Entry = Entry(event: Event, cooldown: int, max: int) {
    predicate IsAttempt() {
      event.action == Attempt
    }
  }

  function Cut(events: seq<Event>): seq<Event> {
    if |events| > KEPT then events[|events| - KEPT..] else events
  }

  function Events(h: seq<Entry>): (events: seq<Event>)
  {
    seq(|h|, i requires 0 <= i < |h| => h[i].event)
  }

  /** The attempts of a list that are less than an hour old at `t`. */
  function CountRecent(events: seq<Event>, t: int): nat {
    if events == [] then 0
    else
      var e := events[|events| - 1];
      CountRecent(events[..|events| - 1], t) + (if e.action == Attempt && t - e.at < HOUR then 1 else 0)
  }

  function LastAttempt(h: seq<Entry>): Option<int> {
    if h == [] then None
    else if h[|h| - 1].IsAttempt() then Some(h[|h| - 1].event.at)
    else LastAttempt(h[..|h| - 1])
  }

  /** The guards the agent checks before it writes an attempt, on what it knows then. */
  predicate Allowed(before: seq<Entry>, e: Entry) {
    && CountRecent(Cut(Events(before)), e.event.at) < e.max
    && (LastAttempt(before).Some? ==> e.event.at - LastAttempt(before).value >= e.cooldown * SECOND)
    && e.cooldown > 0
  }

  /** Entry `j` may follow the entries before it. */
  predicate Follows(h: seq<Entry>, j: nat)
    requires j < |h|
  {
    && (j > 0 ==> h[j - 1].event.at <= h[j].event.at)
    && (h[j].event.action == Attempt ==> Allowed(h[..j], h[j]))
    && (h[j].event.action == Result ==> j > 0 && h[j - 1].event.action == Attempt)
  }

  /** The histories the agent can write. */
  ghost predicate Legal(h: seq<Entry>) {
    forall j :: 0 <= j < |h| ==> Follows(h, j)
  }

  lemma LegalPrefix(h: seq<Entry>, k: nat)
    requires Legal(h) && k <= |h|
    ensures Legal(h[..k])
  {
    forall j | 0 <= j < k
      ensures Follows(h[..k], j)
    {
      assert Follows(h, j) && h[..k][..j] == h[..j];
    }
  }

  lemma LegalMore(h: seq<Entry>, e: Entry)
    requires Legal(h) && Follows(h + [e], |h|)
    ensures Legal(h + [e])
  {
    forall j | 0 <= j < |h| + 1
      ensures Follows(h + [e], j)
    {
      if j < |h| {
        assert Follows(h, j) && (h + [e])[..j] == h[..j];
      }
    }
  }

  lemma {:induction false} Ordered(h: seq<Entry>, i: nat, j: nat)
    requires Legal(h) && i <= j < |h|
    ensures h[i].event.at <= h[j].event.at
    decreases j
  {
    if i < j {
      assert Follows(h, j);
      Ordered(h, i, j - 1);
    }
  }

  lemma {:induction false} LastAttemptIs(h: seq<Entry>, i: nat)
    requires Legal(h) && i < |h| && h[i].IsAttempt()
    ensures LastAttempt(h).Some? && h[i].event.at <= LastAttempt(h).value
  {
    var n := |h| - 1;
    if h[n].IsAttempt() {
      Ordered(h, i, n);
    } else {
      LegalPrefix(h, n);
      LastAttemptIs(h[..n], i);
    }
  }

  /** Any two attempts of a history are at least the cooldown of the later one apart. */
  lemma AttemptsAreSpaced(h: seq<Entry>, i: nat, j: nat)
    requires Legal(h) && i < j < |h| && h[i].IsAttempt() && h[j].IsAttempt()
    ensures h[j].event.at - h[i].event.at >= h[j].cooldown * SECOND
  {
    assert Follows(h, j);
    LegalPrefix(h, j);
    LastAttemptIs(h[..j], i);
  }

  // ---- the hourly cap ----------------------------------------------------------------------

  /** Entries of one kind from `lo` up to `hi`. */
  function Count(h: seq<Entry>, action: Action, lo: nat, hi: nat): nat
    requires lo <= hi <= |h|
  {
    if lo == hi then 0 else Count(h, action, lo, hi - 1) + (if h[hi - 1].event.action == action then 1 else 0)
  }

  /** Where the last hour before `t` starts among the first `j` entries. */
  function Since(h: seq<Entry>, j: nat, t: int): (s: nat)
    requires j <= |h|
    ensures s <= j && (s > 0 ==> t - h[s - 1].event.at >= HOUR)
    ensures forall i :: s <= i < j ==> t - h[i].event.at < HOUR
  {
    if j == 0 || t - h[j - 1].event.at >= HOUR then j else Since(h, j - 1, t)
  }

  ghost predicate WithinCap(h: seq<Entry>, j: nat)
    requires j < |h|
  {
    h[j].IsAttempt() ==> Count(h, Attempt, Since(h, j, h[j].event.at), j + 1) <= h[j].max
  }

  /** No attempt is one too many in the hour up to it. */
  ghost predicate Capped(h: seq<Entry>) {
    forall j :: 0 <= j < |h| ==> WithinCap(h, j)
  }

  ghost predicate FewOthers(h: seq<Entry>, j: nat, f: nat)
    requires j < |h|
  {
    h[j].IsAttempt() ==> Count(h, Other, Since(h, j, h[j].event.at), j) <= f
  }

  /** A history under caps of at most `m` with at most `f` other events in the hour before any attempt. */
  ghost predicate Within(h: seq<Entry>, m: nat, f: nat) {
    && Legal(h)
    && (forall j :: 0 <= j < |h| && h[j].IsAttempt() ==> h[j].max <= m)
    && (forall j :: 0 <= j < |h| ==> FewOthers(h, j, f))
  }

  lemma {:induction false} CountSplits(h: seq<Entry>, action: Action, lo: nat, mid: nat, hi: nat)
    requires lo <= mid <= hi <= |h|
    ensures Count(h, action, lo, hi) == Count(h, action, lo, mid) + Count(h, action, mid, hi)
    decreases hi
  {
    if mid < hi {
      CountSplits(h, action, lo, mid, hi - 1);
    }
  }

  /** The count over the kept events is the count over the kept part of the last hour. */
  lemma {:induction false} CountRecentIs(h: seq<Entry>, lo: nat, j: nat, t: int)
    requires Legal(h) && lo <= j <= |h|
    ensures var s := Since(h, j, t);
            CountRecent(Events(h)[lo..j], t) == Count(h, Attempt, if s < lo then lo else s, j)
    decreases j
  {
    if lo < j {
      CountRecentIs(h, lo, j - 1, t);
      RecentStep(h, lo, j, t);
      if t - h[j - 1].event.at >= HOUR {
        NoneRecent(h, j - 1, t);
      }
    }
  }

  lemma RecentStep(h: seq<Entry>, lo: nat, j: nat, t: int)
    requires lo < j <= |h|
    ensures CountRecent(Events(h)[lo..j], t)
         == CountRecent(Events(h)[lo..j - 1], t) + (if h[j - 1].IsAttempt() && t - h[j - 1].event.at < HOUR then 1 else 0)
  {
    var events := Events(h)[lo..j];
    assert events[..|events| - 1] == Events(h)[lo..j - 1];
    assert events[|events| - 1] == h[j - 1].event;
  }

  lemma NoneRecent(h: seq<Entry>, j: nat, t: int)
    requires Legal(h) && j < |h| && t - h[j].event.at >= HOUR
    ensures Since(h, j, t) == j
  {
    if j > 0 {
      Ordered(h, j - 1, j);
    }
  }

  /** Every result follows its attempt, so a stretch that starts with an attempt is at most half results. */
  lemma {:induction false} StretchLength(h: seq<Entry>, i: nat, j: nat)
    requires Legal(h) && i < j <= |h| && h[i].IsAttempt()
    ensures j - i <= 2 * Count(h, Attempt, i, j) + Count(h, Other, i, j)
    ensures h[j - 1].IsAttempt() ==> j - i <= 2 * Count(h, Attempt, i, j) + Count(h, Other, i, j) - 1
    decreases j
  {
    if i + 1 < j {
      StretchLength(h, i, j - 1);
      assert Follows(h, j - 1);
    } else {
      assert Count(h, Attempt, i, i) == 0;
    }
  }

  /** The last attempt among the first `j` entries. */
  lemma {:induction false} LatestAttempt(h: seq<Entry>, i: nat, j: nat) returns (k: nat)
    requires i < j <= |h| && h[i].IsAttempt()
    ensures i <= k < j && h[k].IsAttempt() && Count(h, Attempt, k + 1, j) == 0
    decreases j
  {
    if h[j - 1].IsAttempt() {
      k := j - 1;
    } else {
      k := LatestAttempt(h, i, j - 1);
    }
  }

  lemma {:induction false} FirstAttempt(h: seq<Entry>, s: nat, j: nat) returns (i: nat)
    requires s <= j <= |h| && Count(h, Attempt, s, j) > 0
    ensures s <= i < j && h[i].IsAttempt() && Count(h, Attempt, s, i) == 0
    decreases j
  {
    if Count(h, Attempt, s, j - 1) > 0 {
      i := FirstAttempt(h, s, j - 1);
    } else {
      i := j - 1;
    }
  }

  lemma SinceIsBefore(h: seq<Entry>, i: nat, k: nat, t: int)
    requires Legal(h) && i <= k <= |h| && i < |h| && t - h[i].event.at < HOUR
    ensures Since(h, k, t) <= i
  {
    var s := Since(h, k, t);
    if i < s {
      Ordered(h, i, s - 1);
    }
  }

  /** Nothing of the last hour is lost from the kept events. */
  lemma HourIsKept(h: seq<Entry>, m: nat, f: nat, j: nat)
    requires Within(h, m, f) && f + 2 * m <= KEPT && j < |h| && h[j].IsAttempt()
    requires forall k :: 0 <= k < j ==> WithinCap(h, k)
    ensures var s := Since(h, j, h[j].event.at); var lo := if j > KEPT then j - KEPT else 0;
            s < lo ==> Count(h, Attempt, s, lo) == 0
  {
    var t := h[j].event.at;
    var s := Since(h, j, t);
    var lo := if j > KEPT then j - KEPT else 0;
    if s < lo && Count(h, Attempt, s, lo) > 0 {
      var i := FirstAttempt(h, s, lo);
      StretchIsShort(h, m, f, i, j);
    }
  }

  /** From an attempt of the last hour on there are at most `2 * m + f` entries. */
  lemma StretchIsShort(h: seq<Entry>, m: nat, f: nat, i: nat, j: nat)
    requires Within(h, m, f) && i < j < |h| && h[i].IsAttempt() && h[j].IsAttempt()
    requires h[j].event.at - h[i].event.at < HOUR
    requires forall k :: 0 <= k < j ==> WithinCap(h, k)
    ensures j - i <= 2 * m + f
  {
    AttemptsUpTo(h, m, f, i, j);
    assert FewOthers(h, j, f);
    SinceIsBefore(h, i, j, h[j].event.at);
    CountSplits(h, Other, Since(h, j, h[j].event.at), i, j);
    StretchLength(h, i, j);
  }

  lemma AttemptsUpTo(h: seq<Entry>, m: nat, f: nat, i: nat, j: nat)
    requires Within(h, m, f) && i < j < |h| && h[i].IsAttempt()
    requires h[j].event.at - h[i].event.at < HOUR
    requires forall k :: 0 <= k < j ==> WithinCap(h, k)
    ensures Count(h, Attempt, i, j) <= m
  {
    var k := LatestAttempt(h, i, j);
    assert WithinCap(h, k);
    Ordered(h, k, j);
    SinceIsBefore(h, i, k, h[k].event.at);
    CountSplits(h, Attempt, Since(h, k, h[k].event.at), i, k + 1);
    CountSplits(h, Attempt, i, k + 1, j);
  }

  lemma {:induction false} CapHolds(h: seq<Entry>, m: nat, f: nat, j: nat)
    requires Within(h, m, f) && f + 2 * m <= KEPT && j <= |h|
    ensures forall k :: 0 <= k < j ==> WithinCap(h, k)
    decreases j
  {
    if j > 0 {
      CapHolds(h, m, f, j - 1);
      var n := j - 1;
      if h[n].IsAttempt() {
        CapAt(h, m, f, n);
      }
    }
  }

  lemma CutOfPrefix(h: seq<Entry>, n: nat)
    requires n <= |h|
    ensures Cut(Events(h[..n])) == Events(h)[(if n > KEPT then n - KEPT else 0)..n]
  {
  }

  lemma CapAt(h: seq<Entry>, m: nat, f: nat, n: nat)
    requires Within(h, m, f) && f + 2 * m <= KEPT && n < |h| && h[n].IsAttempt()
    requires forall k :: 0 <= k < n ==> WithinCap(h, k)
    ensures WithinCap(h, n)
  {
    HourIsKept(h, m, f, n);
    var t := h[n].event.at;
    var s := Since(h, n, t);
    var lo := if n > KEPT then n - KEPT else 0;
    assert Follows(h, n);
    CutOfPrefix(h, n);
    CountRecentIs(h, lo, n, t);
    if s < lo {
      CountSplits(h, Attempt, s, lo, n);
    }
  }

  // ---- where the cap fails -----------------------------------------------------------------

  /** `k` attempts a minute apart under a cap of `m`, each with its result. */
  function Burst(m: nat, k: nat): (h: seq<Entry>)
    ensures |h| == 2 * k
  {
    if k == 0 then []
    else
      var t := 60 * SECOND * (k - 1);
      Burst(m, k - 1) + [Entry(Event(t, Attempt), 60, m), Entry(Event(t, Result), 60, m)]
  }

  function Others(t: int, m: nat, n: nat): (h: seq<Entry>)
    ensures |h| == n && forall i :: 0 <= i < n ==> h[i] == Entry(Event(t, Other), 60, m)
  {
    seq(n, _ => Entry(Event(t, Other), 60, m))
  }

  /** The cap worth of attempts, just enough other events to push the first one out, and one attempt more. */
  function Overrun(m: nat): seq<Entry>
    requires m <= 6
  {
    var t := 60 * SECOND * m;
    Burst(m, m) + Others(t, m, 51 - 2 * m) + [Entry(Event(t, Attempt), 60, m)]
  }

  lemma {:induction false} CountInPrefix(h: seq<Entry>, more: seq<Entry>, action: Action, lo: nat, hi: nat)
    requires lo <= hi <= |h|
    ensures Count(h + more, action, lo, hi) == Count(h, action, lo, hi)
    decreases hi
  {
    if lo < hi {
      CountInPrefix(h, more, action, lo, hi - 1);
    }
  }

  lemma {:induction false} CountOfOthers(h: seq<Entry>, lo: nat, hi: nat)
    requires lo <= hi <= |h| && forall i :: lo <= i < hi ==> h[i].event.action == Other
    ensures Count(h, Attempt, lo, hi) == 0 && Count(h, Other, lo, hi) == hi - lo
    decreases hi
  {
    if lo < hi {
      CountOfOthers(h, lo, hi - 1);
    }
  }

  ghost predicate Early(h: seq<Entry>, m: nat, t: int) {
    forall i :: 0 <= i < |h| ==> h[i].max == m && h[i].cooldown == 60 && 0 <= h[i].event.at <= t
  }

  lemma EarlyIsRecent(h: seq<Entry>, m: nat, t: int, j: nat)
    requires Early(h, m, t) && t < HOUR && j <= |h|
    ensures Since(h, j, t) == 0
  {
  }

  /** An attempt may follow when the kept events hold fewer than the cap and the last attempt is a minute old. */
  lemma AttemptMayFollow(h: seq<Entry>, m: nat, t: int)
    requires Legal(h) && Early(h, m, t) && t < HOUR
    requires Count(h, Attempt, if |h| > KEPT then |h| - KEPT else 0, |h|) < m
    requires LastAttempt(h).Some? ==> t - LastAttempt(h).value >= 60 * SECOND
    ensures Legal(h + [Entry(Event(t, Attempt), 60, m)])
  {
    var lo := if |h| > KEPT then |h| - KEPT else 0;
    var e := Entry(Event(t, Attempt), 60, m);
    EarlyIsRecent(h, m, t, |h|);
    CountRecentIs(h, lo, |h|, t);
    assert Cut(Events(h)) == Events(h)[lo..|h|];
    assert (h + [e])[..|h|] == h;
    LegalMore(h, e);
  }

  lemma {:induction false} BurstIsLegal(m: nat, k: nat)
    requires k <= m <= 6
    ensures Legal(Burst(m, k)) && Early(Burst(m, k), m, if k == 0 then 0 else 60 * SECOND * (k - 1))
    ensures Count(Burst(m, k), Attempt, 0, 2 * k) == k && Count(Burst(m, k), Other, 0, 2 * k) == 0
    ensures LastAttempt(Burst(m, k)) == if k == 0 then None else Some(60 * SECOND * (k - 1))
    ensures k > 0 ==> Burst(m, k)[0].IsAttempt()
  {
    if k > 0 {
      BurstIsLegal(m, k - 1);
      BurstStep(Burst(m, k - 1), m, 60 * SECOND * (k - 1));
    }
  }

  lemma BurstStep(h: seq<Entry>, m: nat, t: int)
    requires Legal(h) && Early(h, m, t) && 0 <= t < HOUR && |h| <= KEPT && Count(h, Attempt, 0, |h|) < m
    requires LastAttempt(h).Some? ==> t - LastAttempt(h).value >= 60 * SECOND
    ensures var attempt, result := Entry(Event(t, Attempt), 60, m), Entry(Event(t, Result), 60, m);
            var g := h + [attempt, result];
            && Legal(g) && Early(g, m, t) && LastAttempt(g) == Some(t)
            && Count(g, Attempt, 0, |h| + 2) == Count(h, Attempt, 0, |h|) + 1
            && Count(g, Other, 0, |h| + 2) == Count(h, Other, 0, |h|)
  {
    var attempt, result := Entry(Event(t, Attempt), 60, m), Entry(Event(t, Result), 60, m);
    AttemptMayFollow(h, m, t);
    LegalMore(h + [attempt], result);
    assert h + [attempt, result] == h + [attempt] + [result];
    BurstCounts(h, attempt, result);
  }

  lemma BurstCounts(h: seq<Entry>, attempt: Entry, result: Entry)
    requires attempt.event.action == Attempt && result.event.action == Result
    ensures var g := h + [attempt] + [result];
            && Count(g, Attempt, 0, |h| + 2) == Count(h, Attempt, 0, |h|) + 1
            && Count(g, Other, 0, |h| + 2) == Count(h, Other, 0, |h|)
            && LastAttempt(g) == Some(attempt.event.at)
  {
    var g := h + [attempt] + [result];
    assert g == h + [attempt, result];
    CountInPrefix(h, [attempt, result], Attempt, 0, |h|);
    CountInPrefix(h, [attempt, result], Other, 0, |h|);
    assert g[|h|] == attempt && g[|h| + 1] == result;
    assert Count(g, Attempt, 0, |h| + 1) == Count(h, Attempt, 0, |h|) + 1;
    assert g[..|h| + 1] == h + [attempt];
  }

  lemma {:induction false} OthersFollow(h: seq<Entry>, m: nat, t: int, n: nat)
    requires Legal(h) && Early(h, m, t) && t >= 0
    ensures Legal(h + Others(t, m, n)) && LastAttempt(h + Others(t, m, n)) == LastAttempt(h)
  {
    if n == 0 {
      assert h + Others(t, m, 0) == h;
    } else {
      OthersFollow(h, m, t, n - 1);
      var e := Entry(Event(t, Other), 60, m);
      var g := h + Others(t, m, n - 1);
      assert h + Others(t, m, n) == g + [e];
      assert (g + [e])[..|g|] == g;
      LegalMore(g, e);
    }
  }

  /** The overrun is a history the agent can write, one attempt over its cap. */
  lemma OverrunBreaksTheCap(m: nat)
    requires 1 <= m <= 6
    ensures Within(Overrun(m), m, 51 - 2 * m) && !Capped(Overrun(m))
  {
    var t := 60 * SECOND * m;
    var burst, others := Burst(m, m), Others(t, m, 51 - 2 * m);
    var h := burst + others;
    BurstIsLegal(m, m);
    OthersFollow(burst, m, t, 51 - 2 * m);
    CountsWithOthers(burst, others);
    CountSplits(h, Attempt, 0, 1, 51);
    assert Count(h, Attempt, 0, 1) == 1;
    AttemptMayFollow(h, m, t);
    OverrunCounts(h, m, t);
  }

  lemma CountsWithOthers(h: seq<Entry>, others: seq<Entry>)
    requires forall i :: 0 <= i < |others| ==> others[i].event.action == Other
    ensures var g := h + others;
            && Count(g, Attempt, 0, |g|) == Count(h, Attempt, 0, |h|)
            && Count(g, Other, 0, |g|) == Count(h, Other, 0, |h|) + |others|
  {
    var g := h + others;
    CountInPrefix(h, others, Attempt, 0, |h|);
    CountInPrefix(h, others, Other, 0, |h|);
    CountOfOthers(g, |h|, |g|);
    CountSplits(g, Attempt, 0, |h|, |g|);
    CountSplits(g, Other, 0, |h|, |g|);
  }

  lemma OverrunCounts(h: seq<Entry>, m: nat, t: int)
    requires Early(h, m, t) && t < HOUR && Count(h, Attempt, 0, |h|) == m && Count(h, Other, 0, |h|) == 51 - 2 * m
    requires m <= 6 && Legal(h + [Entry(Event(t, Attempt), 60, m)])
    ensures var g := h + [Entry(Event(t, Attempt), 60, m)]; Within(g, m, 51 - 2 * m) && !Capped(g)
  {
    var e := Entry(Event(t, Attempt), 60, m);
    var g := h + [e];
    CountInPrefix(h, [e], Attempt, 0, |h|);
    CountInPrefix(h, [e], Other, 0, |h|);
    assert Early(g, m, t);
    EarlyIsRecent(g, m, t, |h|);
    assert !WithinCap(g, |h|);
    var f: nat := 51 - 2 * m;
    forall j | 0 <= j < |g|
      ensures FewOthers(g, j, f)
    {
      var s := Since(g, j, g[j].event.at);
      CountSplits(g, Other, 0, j, |h| + 1);
      CountSplits(g, Other, 0, s, j);
    }
  }

  /**
   The hourly cap holds in every history exactly when the other events of an hour leave room for the
   attempts and their results: with a cap of `m` at most 50 - 2 * m of them.
   */
  lemma CapIff(m: nat, f: nat)
    requires 1 <= m <= 6
    ensures (forall h :: Within(h, m, f) ==> Capped(h)) <==> f + 2 * m <= 50
  {
    if f + 2 * m <= KEPT {
      forall h | Within(h, m, f)
        ensures Capped(h)
      {
        CapHolds(h, m, f, |h|);
      }
    } else {
      OverrunBreaksTheCap(m);
      var h := Overrun(m);
      forall j | 0 <= j < |h|
        ensures FewOthers(h, j, f)
      {
        assert FewOthers(h, j, 51 - 2 * m);
      }
      assert Within(h, m, f);
    }
  }

  /** Any stretch of less than an hour holds at most `m` attempts. */
  lemma AnyHourIsCapped(h: seq<Entry>, m: nat, f: nat, lo: nat, hi: nat)
    requires Within(h, m, f) && f + 2 * m <= 50
    requires lo < hi <= |h| && h[hi - 1].event.at - h[lo].event.at < 3600 * SECOND
    ensures Count(h, Attempt, lo, hi) <= m
  {
    if Count(h, Attempt, lo, hi) > 0 {
      var i := FirstAttempt(h, lo, hi);
      var k := LatestAttempt(h, i, hi);
      CapHolds(h, m, f, |h|);
      assert WithinCap(h, k);
      Ordered(h, lo, i);
      Ordered(h, k, hi - 1);
      SinceIsBefore(h, i, k, h[k].event.at);
      CountSplits(h, Attempt, Since(h, k, h[k].event.at), i, k + 1);
      CountSplits(h, Attempt, i, k + 1, hi);
      CountSplits(h, Attempt, lo, i, hi);
    }
  }

  lemma {:induction false} FewerLater(events: seq<Event>, t: int, u: int)
    requires t <= u
    ensures CountRecent(events, u) <= CountRecent(events, t)
  {
    if events != [] {
      FewerLater(events[..|events| - 1], t, u);
    }
  }

  /** Cutting a list that was cut before loses nothing more. */
  lemma CutMore(h: seq<Entry>, e: Entry)
    ensures Cut(Cut(Events(h)) + [e.event]) == Cut(Events(h + [e]))
  {
    assert Events(h + [e]) == Events(h) + [e.event];
  }

  // ---- what a tick sees --------------------------------------------------------------------

  datatype Ready = Answer(ready: bool, reason: string) | ApiError(status: int) | Unreachable
  datatype Upstream = Upstream(healthy: bool, ageSecs: int)

  /**
   `lifecycle` is the operator lifecycle of a WEB status that could be read: whether admission is open.
   `upstreams` are the statistics if they could be read and are enabled.
   */
  datatype Observation = Observation(
    journalOpen: bool, unitActive: bool, lifecycle: Option<bool>, cancelled: bool, ready: Ready,
    upstreams: Option<seq<Upstream>>)

  /** There are upstreams, and every one of them was found unhealthy within the last two minutes. */
  ghost predicate AllDown(upstreams: seq<Upstream>) {
    upstreams != [] && forall u :: u in upstreams ==> !u.healthy && u.ageSecs <= 120
  }

  // ---- the agent ---------------------------------------------------------------------------

  /** The reliability file. */
  datatype State = State(policy: Policy, active: Route, events: seq<Event>, last: Option<int>)

  datatype Memory = Memory(events: seq<Event>, last: Option<int>)

  /** What the agent holds after writing these entries one by one, cutting the list each time. */
  function MemoryOf(h: seq<Entry>): Memory {
    if h == [] then Memory([], None)
    else
      var m, e := MemoryOf(h[..|h| - 1]), h[|h| - 1].event;
      Memory(Cut(m.events + [e]), if e.action == Attempt then Some(e.at) else m.last)
  }

  /** It is the last fifty of all events, and the time of the last attempt. */
  lemma {:induction false} MemoryIs(h: seq<Entry>)
    ensures MemoryOf(h) == Memory(Cut(Events(h)), LastAttempt(h))
  {
    if h == [] {
      assert Events(h) == [];
    } else {
      MemoryIs(h[..|h| - 1]);
      CutMore(h[..|h| - 1], h[|h| - 1]);
      assert h == h[..|h| - 1] + [h[|h| - 1]];
    }
  }

  ghost predicate Mirrors(h: seq<Entry>, events: seq<Event>, last: Option<int>) {
    MemoryOf(h) == Memory(events, last)
  }

  /** An attempt the guards let through, seen from what the history left in memory. */
  lemma AttemptFollows(h: seq<Entry>, events: seq<Event>, last: Option<int>, e: Entry)
    requires Mirrors(h, events, last) && e.IsAttempt() && e.cooldown > 0
    requires h != [] ==> h[|h| - 1].event.at <= e.event.at
    requires CountRecent(events, e.event.at) < e.max
    requires last.Some? ==> e.event.at - last.value >= e.cooldown * SECOND
    ensures Follows(h + [e], |h|)
  {
    MemoryIs(h);
    assert (h + [e])[..|h|] == h;
  }

  /** One more failure is enough, and at time `t` neither the cooldown nor the cap is in the way. */
  predicate Due(p: Policy, failures: nat, events: seq<Event>, last: Option<int>, t: int) {
    && failures + 1 >= p.failureThreshold && CountRecent(events, t) < p.maxActionsHour
    && (last.Some? ==> t - last.value >= p.cooldownSeconds * SECOND)
  }

  /** Every act has its attempt in the history. */
  ghost predicate Announced(h: seq<Entry>, acted: set<nat>) {
    forall k :: k in acted ==> k < |h| && h[k].IsAttempt()
  }

  lemma {:induction false} ActsAreAttempts(h: seq<Entry>, acted: set<nat>, lo: nat, hi: nat)
    requires lo <= hi <= |h| && Announced(h, acted)
    ensures |set k | k in acted && lo <= k < hi| <= Count(h, Attempt, lo, hi)
  {
    var acts := set k | k in acted && lo <= k < hi;
    if lo == hi {
      assert acts == {};
    } else {
      ActsAreAttempts(h, acted, lo, hi - 1);
      var before := set k | k in acted && lo <= k < hi - 1;
      assert acts == before + (if hi - 1 in acted then {hi - 1} else {});
    }
  }

  ghost predicate Past(h: seq<Entry>, clock: int) {
    h != [] ==> h[|h| - 1].event.at <= clock
  }

  datatype Act = Restart | Failover

  /**
   How a tick ends: cut short before it acts, because the attempt could not be saved or the agent died, or by its
   death right after the act, or in order, whether or not what it did worked.
   */
  datatype End = CutShort | Died | Ended(worked: bool)

  class Agent {
    var policy: Policy
    var active: Route
    var events: seq<Event>
    var last: Option<int>
    var failures: nat
    var clock: int
    // On disk.
    var file: Option<State>
    // Every entry memory accounts for, those the file accounts for, and those of the latter that were acted on.
    ghost var hist: seq<Entry>
    ghost var saved: seq<Entry>
    ghost var acted: set<nat>
    // The last start could not read the file, and nothing was written to it since: memory began a new history. The
    // one of the file ends when something is.
    ghost var forgotten: bool
    // The route the engine was last told to take.
    ghost var engine: Route

    /** What memory and the file hold is what their histories left there. */
    ghost predicate Valid()
      reads this
    {
      && ValidPolicy(policy) && (file.Some? ==> ValidPolicy(file.value.policy))
      && Legal(hist) && Past(hist, clock) && Mirrors(hist, events, last)
      && Legal(saved) && Past(saved, clock)
      && (if file.Some? then Mirrors(saved, file.value.events, file.value.last) else saved == [])
      && Announced(saved, acted) && (!forgotten ==> saved <= hist)
    }

    /** The acts of the history on file, which goes on unless a file that could not be read is written over. */
    ghost predicate GoesOn(saved0: seq<Entry>, forgotten0: bool)
      reads this`saved, this`forgotten
    {
      (saved0 <= saved || forgotten0) && (forgotten ==> forgotten0 && saved == saved0)
    }

    /** The acts there were, as far as they are in the history on file now. */
    ghost function Standing(acted0: set<nat>, forgotten0: bool): set<nat>
      reads this`forgotten
    {
      if forgotten0 && !forgotten then {} else acted0
    }

    constructor ()
      ensures Valid() && file == None && hist == [] && acted == {} && !forgotten
    {
      policy, active, events, last, failures := DEFAULT_POLICY, Unknown, [], None, 0;
      file, hist, saved, acted, forgotten, engine := None, [], [], {}, false, Unknown;
    }

    /** Tells the engine to take a route; one that fails is taken back, which may fail too. */
    method ApplyEgress(route: Route) returns (ok: bool)
      modifies this`engine
      ensures ok ==> engine == route
    {
      ok := *;
      engine := *;
      if ok {
        engine := route;
      }
    }

    method Now() returns (t: int)
      modifies this`clock
      ensures old(clock) <= t == clock
    {
      var d: int := *;
      clock := if d > 0 then clock + d else clock;
      t := clock;
    }

    /** Writes the file. A failed write may have taken effect all the same. */
    method SaveRecoveryLocked() returns (ok: bool)
      requires Valid()
      modifies this`file, this`saved, this`acted, this`forgotten
      ensures Valid() && (ok ==> saved == hist && !forgotten && file == Some(State(policy, active, events, last)))
      ensures GoesOn(old(saved), old(forgotten)) && acted == Standing(old(acted), old(forgotten))
      ensures !ok ==> file == old(file) || file == Some(State(policy, active, events, last))
    {
      ok := *;
      var landed: bool := *;
      if ok || landed {
        file := Some(State(policy, active, events, last));
        saved := hist;
        if forgotten {
          acted, forgotten := {}, false;
        }
      }
    }

    /** An event with the limits in force. */
    ghost function Limited(e: Event): Entry
      reads this`policy
    {
      Entry(e, policy.cooldownSeconds, policy.maxActionsHour)
    }

    /** Adds an event to the list and cuts it. */
    method Append(e: Event)
      requires Valid() && e.at <= clock && Follows(hist + [Limited(e)], |hist|)
      modifies this`events, this`last, this`hist
      ensures Valid() && hist == old(hist) + [Limited(e)]
      ensures events == Cut(old(events) + [e]) && last == if e.action == Attempt then Some(e.at) else old(last)
    {
      ghost var entry := Limited(e);
      LegalMore(hist, entry);
      hist := hist + [entry];
      assert hist[..|hist| - 1] == old(hist);
      events := Cut(events + [e]);
      if e.action == Attempt {
        last := Some(e.at);
      }
    }

    /** An event other than an attempt; that it could not be saved is only logged. */
    method RecoveryEvent(action: Action)
      requires Valid() && action != Attempt
      requires action == Result ==> hist != [] && hist[|hist| - 1].IsAttempt()
      modifies this`clock, this`events, this`last, this`hist, this`file, this`saved, this`acted, this`forgotten
      ensures Valid() && |hist| == |old(hist)| + 1 && old(hist) <= hist && hist[|old(hist)|].event.action == action
      ensures last == old(last) && GoesOn(old(saved), old(forgotten)) && acted == Standing(old(acted), old(forgotten))
    {
      var t := Now();
      Append(Event(t, action));
      var ok := SaveRecoveryLocked();
    }

    /**
     A start of the agent, after a stop or a crash at any point: memory is what the file says, and the
     default policy, which acts on nothing, if there is none or it cannot be read.
     */
    method Start() returns (read: bool)
      requires Valid()
      modifies this`policy, this`active, this`events, this`last, this`failures, this`hist, this`forgotten
      ensures Valid() && failures == 0 && forgotten == !read && (file.None? ==> read)
      ensures hist == if read then saved else []
      ensures read && file.Some? ==> State(policy, active, events, last) == file.value
      ensures !read || file.None? ==> policy == DEFAULT_POLICY && events == [] && last == None
    {
      policy, active, events, last, failures := DEFAULT_POLICY, Unknown, [], None, 0;
      read := *;
      if file.None? {
        read := true;
      }
      hist, forgotten := if read then saved else [], !read;
      if read && file.Some? {
        policy, active, events, last := file.value.policy, file.value.active, file.value.events, file.value.last;
      }
    }

    method RecentAttempts() returns (actions: nat)
      modifies this`clock
      ensures old(clock) <= clock && CountRecent(events, clock) <= actions <= CountRecent(events, old(clock))
    {
      actions := 0;
      for i := 0 to |events|
        invariant old(clock) <= clock && CountRecent(events[..i], clock) <= actions <= CountRecent(events[..i], old(clock))
      {
        ghost var before := clock;
        var t := Now();
        FewerLater(events[..i], before, t);
        assert events[..i + 1][..i] == events[..i];
        if events[i].action == Attempt && t - events[i].at < HOUR {
          actions := actions + 1;
        }
      }
      assert events[..|events|] == events;
    }

    /** Counts a failed tick, and tells whether the limits let the agent act on it. */
    method MayAct() returns (may: bool)
      modifies this`clock, this`failures
      ensures old(clock) <= clock && failures == old(failures) + 1 && (old(Valid()) ==> Valid())
      ensures may ==>
                && failures >= policy.failureThreshold && CountRecent(events, clock) < policy.maxActionsHour
                && (last.Some? ==> clock - last.value >= policy.cooldownSeconds * SECOND)
      ensures old(Due(policy, failures, events, last, clock)) ==> may
    {
      hide CountRecent, Legal, Mirrors, Announced, ValidPolicy;
      failures := failures + 1;
      var actions := RecentAttempts();
      ghost var counted := clock;
      var now := Now();
      FewerLater(events, counted, now);
      may := failures >= policy.failureThreshold && (last.None? || now - last.value >= policy.cooldownSeconds * SECOND)
             && actions < policy.maxActionsHour;
    }

    /** Writes an attempt ahead of the action. */
    method Announce() returns (ok: bool)
      requires Valid() && CountRecent(events, clock) < policy.maxActionsHour
      requires last.Some? ==> clock - last.value >= policy.cooldownSeconds * SECOND
      modifies this`clock, this`events, this`last, this`hist, this`file, this`saved, this`acted, this`forgotten
      ensures Valid() && last.Some? && hist == old(hist) + [Limited(Event(last.value, Attempt))]
      ensures ok ==> saved == hist && !forgotten && file == Some(State(policy, active, events, last))
      ensures GoesOn(old(saved), old(forgotten)) && acted == Standing(old(acted), old(forgotten))
    {
      hide CountRecent;
      ghost var before := clock;
      var t := Now();
      FewerLater(events, before, t);
      AttemptFollows(hist, events, last, Limited(Event(t, Attempt)));
      Append(Event(t, Attempt));
      ok := SaveRecoveryLocked();
    }

    /** Does what the tick is for, the attempt being saved, and writes down that it did. */
    method Intervene(badService: bool, routeBad: bool) returns (act: Option<Act>, ghost end: End)
      requires Valid() && !forgotten && saved == hist != [] && hist[|hist| - 1].IsAttempt()
      requires routeBad ==> policy.automaticFailover
      modifies this`active, this`engine, this`clock, this`events, this`last
      modifies this`hist, this`file, this`saved, this`acted, this`forgotten
      ensures Valid() && !forgotten && old(hist) <= hist && old(saved) <= saved && !end.CutShort?
      ensures acted == old(acted) + (if act.Some? then {|old(hist)| - 1} else {})
      ensures act == Some(Failover) <==> routeBad && old(active) != Via(policy.reserveSocksAddress.value)
      ensures act == Some(Restart) <==> badService && policy.restart && act != Some(Failover)
      ensures act.Some? && end.Ended? ==> |hist| == |old(hist)| + 1 && hist[|old(hist)|].event.action == Result
      ensures act != Some(Failover) ==> active == old(active) && engine == old(engine)
      ensures act == Some(Failover) ==> FailedOver(end, old(active))
    {
      end := Ended(true);
      if routeBad && active != Via(policy.reserveSocksAddress.value) {
        act := Some(Failover);
        var done := ApplyEgress(Via(policy.reserveSocksAddress.value));
        if done {
          active := Via(policy.reserveSocksAddress.value);
        }
        end := Ended(done);
      } else if badService && policy.restart {
        act := Some(Restart);
      } else {
        return None, Ended(true);
      }
      acted := acted + {|hist| - 1};
      var crash: bool := *;
      if crash {
        end := Died;
      } else {
        RecoveryEvent(Result);
      }
    }

    /** A failover that works has the engine on the reserve, and the agent knows; else the agent takes the route to be the old one. */
    ghost predicate FailedOver(end: End, active0: Route)
      reads this`policy, this`active, this`engine
    {
      && policy.reserveSocksAddress.Some? && (active == active0 || active == engine == Via(policy.reserveSocksAddress.value))
      && (end.Ended? ==> if end.worked then active == engine == Via(policy.reserveSocksAddress.value) else active == active0)
    }

    /** Counts a failure and, if the limits let it, announces an attempt and makes it. */
    method Respond(badService: bool, routeBad: bool) returns (act: Option<Act>, ghost end: End)
      requires Valid() && (badService || routeBad) && (routeBad ==> policy.automaticFailover)
      modifies this`active, this`engine, this`clock, this`events, this`last, this`failures
      modifies this`hist, this`file, this`saved, this`acted, this`forgotten
      ensures Valid() && old(hist) <= hist && failures == old(failures) + 1
      ensures act.Some? ==>
                && |old(hist)| < |hist| && hist[|old(hist)|].IsAttempt() && hist[..|old(hist)| + 1] <= saved
                && failures >= policy.failureThreshold
                && (end.Ended? ==> |hist| == |old(hist)| + 2 && hist[|old(hist)| + 1].event.action == Result)
      ensures acted == Standing(old(acted), old(forgotten)) + (if act.Some? then {|old(hist)|} else {})
      ensures act == Some(Failover) ==>
                routeBad && old(active) != Via(policy.reserveSocksAddress.value) && FailedOver(end, old(active))
      ensures act == Some(Restart) ==>
                badService && policy.restart && !(routeBad && old(active) != Via(policy.reserveSocksAddress.value))
      ensures act != Some(Failover) ==> active == old(active) && engine == old(engine)
      ensures old(Due(policy, failures, events, last, clock)) && (policy.restart || routeBad) ==>
                && |old(hist)| < |hist| && hist[|old(hist)|].IsAttempt()
                && (!end.CutShort? && ((badService && policy.restart) || (routeBad && old(active) != Via(policy.reserveSocksAddress.value))) ==>
                      act.Some?)
      ensures !(policy.restart || routeBad) ==> hist == old(hist) && file == old(file) && forgotten == old(forgotten)
    {
      hide Valid, Due, CountRecent, FailedOver;
      act, end := None, Ended(true);
      var may := MayAct();
      if !may || (!policy.restart && !routeBad) {
        return;
      }
      ghost var n := |hist|;
      var ok := Announce();
      ghost var announced := hist;
      assert announced[n].IsAttempt() && announced[..n] == old(hist);
      var crash: bool := *;
      if !ok || crash {
        end := CutShort;
        return;
      }
      act, end := Intervene(badService, routeBad);
      assert announced <= hist && announced <= saved && hist[..n + 1] == announced;
    }

    /** What the statistics say of the route: it is down if every upstream is. */
    method RouteDown(upstreams: Option<seq<Upstream>>) returns (down: bool)
      ensures down <==> upstreams.Some? && AllDown(upstreams.value)
    {
      if upstreams.None? {
        return false;
      }
      down := upstreams.value != [];
      for i := 0 to |upstreams.value|
        invariant down <==> upstreams.value != [] && forall u :: u in upstreams.value[..i] ==> !u.healthy && u.ageSecs <= 120
      {
        var u := upstreams.value[i];
        if u.ageSecs > 120 {
          down := false;
        }
        if u.healthy && u.ageSecs <= 120 {
          down := false;
        }
      }
    }

    /**
     One tick. `act` is what was done to the node; a crash may follow any step, so the tick may also end
     right after the attempt was saved or right after the act.
     */
    method RecoveryTick(o: Observation) returns (act: Option<Act>, ghost end: End)
      requires Valid()
      modifies this`active, this`engine, this`clock, this`events, this`last, this`failures
      modifies this`hist, this`file, this`saved, this`acted, this`forgotten
      ensures Valid() && old(hist) <= hist
      // An act has its own attempt, which was on disk before it.
      ensures act.Some? ==>
                && |old(hist)| < |hist| && hist[|old(hist)|].IsAttempt() && hist[..|old(hist)| + 1] <= saved
                && failures == old(failures) + 1 >= policy.failureThreshold
                && (end.Ended? ==> |hist| == |old(hist)| + 2 && hist[|old(hist)| + 1].event.action == Result)
      ensures acted == Standing(old(acted), old(forgotten)) + (if act.Some? then {|old(hist)|} else {})
      // Only a running service that nobody maintains, updates or paused is acted on.
      ensures act.Some? ==>
                && !policy.maintenance && !o.journalOpen && o.unitActive && o.lifecycle != Some(false) && !o.cancelled
                && o.ready != Answer(false, "admission_closed")
      // A restart is for a control API that does not answer, or fails by its own fault.
      ensures act == Some(Restart) ==>
                policy.restart && (o.ready == Unreachable || (o.ready.ApiError? && o.ready.status >= 500))
      // A failover is for a route with every upstream found unhealthy within two minutes.
      ensures act == Some(Failover) ==>
                policy.automaticFailover && o.upstreams.Some? && AllDown(o.upstreams.value) && old(active) != Via(policy.reserveSocksAddress.value)
      // Where both are called for, it is the failover.
      ensures act == Some(Restart) ==>
                !(policy.automaticFailover && o.upstreams.Some? && AllDown(o.upstreams.value) && old(active) != Via(policy.reserveSocksAddress.value))
      // One that works has the engine on the reserve; nothing else touches the route.
      ensures if act == Some(Failover) then FailedOver(end, old(active)) else active == old(active) && engine == old(engine)
      // The failure after which the limits let it act has its attempt announced, and is acted on unless cut short.
      ensures old(failures) + 1 >= policy.failureThreshold && old(CountRecent(events, clock)) < policy.maxActionsHour
              && (old(last).Some? ==> old(clock) - old(last).value >= policy.cooldownSeconds * SECOND)
              && !policy.maintenance && !o.journalOpen && o.unitActive && o.lifecycle != Some(false) && !o.cancelled
              && o.ready != Answer(false, "admission_closed")
              && (|| (policy.restart && (o.ready == Unreachable || (o.ready.ApiError? && o.ready.status >= 500)))
                  || (policy.automaticFailover && o.upstreams.Some? && AllDown(o.upstreams.value)
                      && old(active) != Via(policy.reserveSocksAddress.value))) ==>
                |old(hist)| < |hist| && hist[|old(hist)|].IsAttempt() && (!end.CutShort? ==> act.Some?)
      // A tick that must not act changes nothing, one that finds nothing wrong forgets the failures, any other counts one.
      ensures policy.maintenance || o.journalOpen || !o.unitActive || o.lifecycle == Some(false) || o.cancelled
              || o.ready == Answer(false, "admission_closed") ==>
                failures == old(failures) && hist == old(hist) && file == old(file) && forgotten == old(forgotten)
      ensures !policy.maintenance && !o.journalOpen && o.unitActive && o.lifecycle != Some(false) && !o.cancelled
              && o.ready != Answer(false, "admission_closed") ==>
                failures == if || o.ready == Unreachable || (o.ready.ApiError? && o.ready.status >= 500)
                               || (policy.automaticFailover && o.upstreams.Some? && AllDown(o.upstreams.value))
                            then old(failures) + 1 else 0
      // Without a new failure, or one that the policy is about, nothing is written.
      ensures failures == old(failures) || failures == 0
              || !(policy.restart || (policy.automaticFailover && o.upstreams.Some? && AllDown(o.upstreams.value))) ==>
                hist == old(hist) && file == old(file) && forgotten == old(forgotten)
    {
      act, end := None, Ended(true);
      if policy.maintenance || o.journalOpen {
        return;
      }
      if !o.unitActive || o.lifecycle == Some(false) {
        return;
      }
      if o.cancelled || (o.ready.Answer? && !o.ready.ready && o.ready.reason == "admission_closed") {
        return;
      }
      var badService := !o.ready.Answer?;
      if o.ready.ApiError? && o.ready.status < 500 {
        badService := false;
      }
      var routeBad := false;
      if policy.automaticFailover {
        routeBad := RouteDown(o.upstreams);
      }
      if !badService && !routeBad {
        failures := 0;
        return;
      }
      act, end := Respond(badService, routeBad);
    }

    function RouteOf(p: Policy): Route
      requires ValidPolicy(p)
    {
      match p.egress
      case Unmanaged => ByHand
      case Direct => Straight
      case Socks5 => Via(p.socksAddress.value)
    }

    /**
     The operator's policy. The history is not touched, and a policy that is refused changes nothing; `faulted` tells
     that the route could not be changed or the file not written.
     */
    method ConfigureReliability(p: Policy, restorePrimary: bool, journalOpen: bool) returns (ok: bool, ghost faulted: bool)
      requires Valid()
      modifies this`policy, this`active, this`engine, this`file, this`saved, this`acted, this`forgotten
      ensures Valid() && GoesOn(old(saved), old(forgotten)) && acted == Standing(old(acted), old(forgotten))
      ensures ok ==> policy == p && file == Some(State(policy, active, events, last))
      ensures !ok ==> policy == old(policy) && active == old(active)
      // What is taken: a policy within the bounds, whose addresses its route and its failover need are there and
      // differ, while no update is open; routing goes back to the operator only from the direct route.
      ensures ok ==>
                && !journalOpen && 2 <= p.failureThreshold <= 20 && 60 <= p.cooldownSeconds <= 86400 && 1 <= p.maxActionsHour <= 6
                && (p.egress == Socks5 ==> p.socksAddress.Some?)
                && (p.automaticFailover ==> p.egress != Unmanaged && p.reserveSocksAddress.Some?)
                && (p.automaticFailover && p.egress == Socks5 ==> p.reserveSocksAddress != p.socksAddress)
                && (p.egress == Unmanaged ==> old(policy).egress == Unmanaged || old(active) == Straight)
      ensures !faulted && !ok ==>
                || journalOpen || !(2 <= p.failureThreshold <= 20 && 60 <= p.cooldownSeconds <= 86400 && 1 <= p.maxActionsHour <= 6)
                || (p.egress == Socks5 && p.socksAddress.None?)
                || (p.automaticFailover && (p.egress == Unmanaged || p.reserveSocksAddress.None?))
                || (p.automaticFailover && p.egress == Socks5 && p.reserveSocksAddress == p.socksAddress)
                || (p.egress == Unmanaged && old(policy).egress != Unmanaged && old(active) != Straight)
      // The route is the one of the policy if that names another than the last one or the primary is to be restored.
      ensures ok && p.egress == Unmanaged ==> active == ByHand
      ensures ok && p.egress != Unmanaged ==>
                active == if p.egress == old(policy).egress && p.socksAddress == old(policy).socksAddress && !restorePrimary then old(active)
                          else if p.egress == Direct then Straight else Via(p.socksAddress.value)
      // The engine was told, unless the route stays.
      ensures ok && active != old(active) && p.egress != Unmanaged ==> engine == active
      ensures ok && p.egress != Unmanaged && (p.egress != old(policy).egress || p.socksAddress != old(policy).socksAddress) ==>
                engine == active
    {
      faulted := false;
      if journalOpen || !ValidPolicy(p) {
        return false, false;
      }
      var changeRoute := p.egress != Unmanaged
        && (p.egress != policy.egress || p.socksAddress != policy.socksAddress || (restorePrimary && active != RouteOf(p)));
      if p.egress == Unmanaged && policy.egress != Unmanaged && active != Straight {
        return false, false;
      }
      if changeRoute {
        var applied := ApplyEgress(RouteOf(p));
        if !applied {
          return false, true;
        }
      }
      ok := Adopt(p, if changeRoute || p.egress == Unmanaged then RouteOf(p) else active);
      faulted := !ok;
    }

    /** Saves a policy and the route it runs on, and goes back to the old ones if that fails. */
    method Adopt(p: Policy, route: Route) returns (ok: bool)
      requires Valid() && ValidPolicy(p)
      modifies this`policy, this`active, this`file, this`saved, this`acted, this`forgotten
      ensures Valid() && GoesOn(old(saved), old(forgotten)) && acted == Standing(old(acted), old(forgotten))
      ensures if ok then policy == p && active == route && file == Some(State(policy, active, events, last))
              else policy == old(policy) && active == old(active)
    {
      var previous, oldActive := policy, active;
      policy, active := p, route;
      ok := SaveRecoveryLocked();
      if !ok {
        policy, active := previous, oldActive;
      }
    }

    /**
     After a start that found no file or could not read it, and until a policy is configured, the agent does
     nothing whatever it sees, and writes nothing.
     */
    method TicksByDefault(observations: seq<Observation>)
      requires Valid() && policy == DEFAULT_POLICY
      modifies this`active, this`engine, this`clock, this`events, this`last, this`failures
      modifies this`hist, this`file, this`saved, this`acted, this`forgotten
      ensures Valid() && hist == old(hist) && file == old(file) && forgotten == old(forgotten)
      ensures acted == old(acted) && active == old(active) && engine == old(engine)
    {
      for i := 0 to |observations|
        invariant Valid() && hist == old(hist) && file == old(file) && forgotten == old(forgotten)
        invariant acted == old(acted) && active == old(active) && engine == old(engine)
      {
        var act, end := RecoveryTick(observations[i]);
      }
    }

    /**
     In every state the agent reaches, every act of the history on file had its attempt on disk, and any two
     attempts acted on are the cooldown of the later one apart.
     */
    lemma ActsKeepTheCooldown(i: nat, j: nat)
      requires Valid() && i in acted && j in acted && i < j
      ensures j < |saved| && saved[i].IsAttempt() && saved[j].IsAttempt()
      ensures saved[j].event.at - saved[i].event.at >= saved[j].cooldown * SECOND
    {
      AttemptsAreSpaced(saved, i, j);
    }

    /**
     In every state the agent reaches, no stretch of less than an hour of the history on file holds more than `m`
     acts, if no cap was higher and few enough other events fell into an hour.
     */
    lemma ActsKeepTheCap(m: nat, f: nat, lo: nat, hi: nat)
      requires Valid() && lo < hi <= |saved| && saved[hi - 1].event.at - saved[lo].event.at < 3600 * SECOND
      requires forall j :: 0 <= j < |saved| && saved[j].IsAttempt() ==> saved[j].max <= m
      requires (forall j :: 0 <= j < |saved| ==> FewOthers(saved, j, f)) && f + 2 * m <= 50
      ensures |set k | k in acted && lo <= k < hi| <= m
    {
      AnyHourIsCapped(saved, m, f, lo, hi);
      ActsAreAttempts(saved, acted, lo, hi);
    }
  }
}
