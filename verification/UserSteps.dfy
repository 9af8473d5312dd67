/**
 The steps by which an apply gives the desired users their goals and clears away the others, on the values
 the node and the fingerprint file have in between.
 */
module UserSteps {
  import opened Options
  import opened TelemtUsers
  import opened NodeState
  import Quotas

  /** The users differ at one name at most, and are no fewer. */
  ghost predicate OnlyAt(before: map<Name, User>, after: map<Name, User>, n: Name) {
    after == before || (n in after && after == before[n := after[n]])
  }

  /** What is sent for a user reaches its goal exactly if the file fits it. */
  ghost predicate Reaches(st: State, before: map<Name, User>, after: map<Name, User>, d: Desired) {
    d.name in after && (after[d.name] == Goal(d) <==> Fits(st, before, d))
  }

  /** The user is as it was, or what was sent for it has arrived. */
  ghost predicate Stepped(st: State, before: map<Name, User>, after: map<Name, User>, d: Desired) {
    SameAt(before, after, d.name) || Reaches(st, before, after, d)
  }

  ghost predicate AllStepped(st: State, before: map<Name, User>, after: map<Name, User>, ds: seq<Desired>) {
    forall j :: 0 <= j < |ds| ==> Stepped(st, before, after, ds[j])
  }

  /** The first `k` users were given what was due, the others are as they were. */
  ghost predicate Progress(ds: seq<Desired>, k: nat, st: State, before: map<Name, User>, after: map<Name, User>)
    requires k <= |ds|
  {
    && (forall j :: 0 <= j < k ==> Reaches(st, before, after, ds[j]))
    && (forall j :: k <= j < |ds| ==> SameAt(before, after, ds[j].name))
  }

  ghost predicate SameAt(before: map<Name, User>, after: map<Name, User>, n: Name) {
    (n in after <==> n in before) && (n in after ==> after[n] == before[n])
  }

  ghost predicate OthersSame(ds: seq<Desired>, before: map<Name, User>, after: map<Name, User>) {
    forall n :: SameAt(before, after, n) || Named(ds, n)
  }

  lemma GivenKeepsIntegral(n: Node, users: map<Name, User>, d: Desired)
    requires OnlyAt(n.users, users, d.name)
    ensures Integral(n) ==> Integral(n.(users := users))
  {
    MoreUsersKeepIntegral(n, users);
  }

  lemma StepKeeps(ds: seq<Desired>, k: nat, st0: State, st: State, before: map<Name, User>, mid: map<Name, User>, after: map<Name, User>)
    requires Proper(ds) && k < |ds| && (st.secrets, st.limits) == (st0.secrets, st0.limits)
    requires OthersSame(ds, before, mid) && Progress(ds, k, st0, before, mid)
    requires OnlyAt(mid, after, ds[k].name) && Stepped(st, mid, after, ds[k])
    ensures OthersSame(ds, before, after) && AllStepped(st0, before, after, ds)
    ensures Reaches(st, mid, after, ds[k]) ==> Progress(ds, k + 1, st0, before, after)
  {
    forall n
      ensures SameAt(before, after, n) || Named(ds, n)
    {
      assert SameAt(before, mid, n) || Named(ds, n);
      assert ds[k].name != n ==> SameAt(mid, after, n);
    }
    assert SameAt(before, mid, ds[k].name);
    assert Fits(st, mid, ds[k]) <==> Fits(st0, before, ds[k]);
    forall j | 0 <= j < |ds| && j != k
      ensures SameAt(mid, after, ds[j].name)
    {
      assert ds[j].name != ds[k].name;
    }
    assert forall j :: 0 <= j < k ==> Reaches(st0, before, after, ds[j]);
    assert forall j :: k < j < |ds| ==> SameAt(before, after, ds[j].name);
  }

  /** Once everything was sent the goals are reached exactly if the file fitted them. */
  lemma GivenIff(ds: seq<Desired>, st: State, before: map<Name, User>, after: map<Name, User>)
    requires Progress(ds, |ds|, st, before, after)
    ensures AllThere(ds, after) && (Given(ds, after) <==> FitsAll(st, before, ds))
  {
    if Given(ds, after) {
      forall k | 0 <= k < |ds|
        ensures Fits(st, before, ds[k])
      {
        assert Reaches(st, before, after, ds[k]);
      }
    }
    if FitsAll(st, before, ds) {
      forall k | 0 <= k < |ds|
        ensures ds[k].name in after && after[ds[k].name] == Goal(ds[k])
      {
        assert Fits(st, before, ds[k]) && Reaches(st, before, after, ds[k]);
      }
    }
  }

  /** Wherever the sending stops, a file that fitted still does. */
  lemma SteppedFits(ds: seq<Desired>, file0: State, st: State, file: State, before: map<Name, User>, after: map<Name, User>)
    requires st == file0 || st == NOTHING
    requires AllStepped(st, before, after, ds) && (file.secrets, file.limits) == (file0.secrets, file0.limits)
    ensures FitStays(ds, file0, before, file, after)
  {
    if FitsAll(file0, before, ds) {
      forall k | 0 <= k < |ds|
        ensures Fits(file, after, ds[k])
      {
        assert Fits(file0, before, ds[k]) && Stepped(st, before, after, ds[k]);
      }
    }
  }

  /** A file that fitted before still does. */
  ghost predicate FitStays(ds: seq<Desired>, file0: State, users0: map<Name, User>, file: State, users: map<Name, User>) {
    FitsAll(file0, users0, ds) ==> FitsAll(file, users, ds)
  }

  /** Users that have their goals fit whatever the file says. */
  lemma GivenFits(ds: seq<Desired>, file0: State, users0: map<Name, User>, st: State, file: State, users: map<Name, User>)
    requires st == file0 || st == NOTHING
    requires FitsAll(st, users0, ds) ==> Given(ds, users)
    ensures FitStays(ds, file0, users0, file, users)
  {
  }

  /** Every name is one of a desired user. */
  ghost predicate AllNamed(ds: seq<Desired>, names: seq<Name>) {
    forall n :: n in names ==> Named(ds, n)
  }

  lemma OneMoreNamed(ds: seq<Desired>, names: seq<Name>, k: nat)
    requires AllNamed(ds, names) && k < |ds|
    ensures AllNamed(ds, names + [ds[k].name])
  {
  }

  ghost predicate IdleUpTo(st: State, users: map<Name, User>, ds: seq<Desired>, k: nat)
    requires k <= |ds|
  {
    forall j :: 0 <= j < k ==> Idle(st, users, ds[j])
  }

  lemma OneMoreIdle(st: State, users: map<Name, User>, ds: seq<Desired>, k: nat)
    requires k < |ds|
    ensures IdleUpTo(st, users, ds, k + 1) <==> IdleUpTo(st, users, ds, k) && Idle(st, users, ds[k])
  {
  }

  /** Of no users all are idle, and all of them are if as many are as there are. */
  lemma IdleEnds(st: State, users: map<Name, User>, ds: seq<Desired>)
    ensures IdleUpTo(st, users, ds, 0) && (IdleUpTo(st, users, ds, |ds|) <==> AllIdle(st, users, ds))
  {
  }

  lemma NotIdle(st: State, users: map<Name, User>, ds: seq<Desired>, k: nat)
    requires k <= |ds| && !IdleUpTo(st, users, ds, k)
    ensures !AllIdle(st, users, ds)
  {
  }

  /** No period asked for is before the last one asked for that user. */
  ghost predicate AllMoveOn(ds: seq<Desired>, latest: map<Name, nat>) {
    forall k :: 0 <= k < |ds| ==> Quotas.MovesOn(latest, ds[k])
  }

  lemma AllMoveOnAfter(ds: seq<Desired>, latest: map<Name, nat>, k: nat)
    requires Proper(ds) && k < |ds| && AllMoveOn(ds, latest)
    ensures Quotas.MovesOn(latest, ds[k]) && AllMoveOn(ds, Quotas.Latest(latest, ds[k]))
  {
    forall j | 0 <= j < |ds|
      ensures Quotas.MovesOn(Quotas.Latest(latest, ds[k]), ds[j])
    {
      assert Quotas.MovesOn(latest, ds[k]) && Quotas.MovesOn(latest, ds[j]);
      assert j != k ==> ds[j].name != ds[k].name;
      Quotas.AskedMovesOn(latest, ds[k], ds[j]);
    }
  }

  /**
   What the periods of a desired state do to the latest ones: no step back if none is asked for, and no other
   latest period.
   */
  ghost predicate Advances(ds: seq<Desired>, latest0: map<Name, nat>, back0: nat, latest: map<Name, nat>, back: nat) {
    && (AllMoveOn(ds, latest0) ==> AllMoveOn(ds, latest) && back == back0)
    && (forall n :: n in latest ==> LatestFrom(ds, latest0, n, latest[n]))
  }

  ghost predicate LatestFrom(ds: seq<Desired>, latest0: map<Name, nat>, n: Name, period: nat) {
    (n in latest0 && latest0[n] == period) || Asks(ds, n, period)
  }

  lemma AskedAdvances(ds: seq<Desired>, latest0: map<Name, nat>, back0: nat, latest: map<Name, nat>, back: nat, k: nat)
    requires Proper(ds) && k < |ds| && Advances(ds, latest0, back0, latest, back)
    ensures Advances(ds, latest0, back0, Quotas.Latest(latest, ds[k]), if Quotas.MovesOn(latest, ds[k]) then back else back + 1)
  {
    if AllMoveOn(ds, latest) {
      AllMoveOnAfter(ds, latest, k);
    }
    var after := Quotas.Latest(latest, ds[k]);
    forall n | n in after
      ensures LatestFrom(ds, latest0, n, after[n])
    {
      if n == ds[k].name && ds[k].quotaReset > 0 {
        assert Asks(ds, n, after[n]);
      } else {
        assert LatestFrom(ds, latest0, n, latest[n]);
      }
    }
  }

  /** The periods of the later desired state are none, or no earlier than those of the first. */
  ghost predicate NoEarlier(ds: seq<Desired>, es: seq<Desired>) {
    forall j, k :: 0 <= j < |ds| && 0 <= k < |es| && ds[j].name == es[k].name && es[k].quotaReset > 0 ==>
      ds[j].quotaReset <= es[k].quotaReset
  }

  lemma LaterMovesOn(ds: seq<Desired>, es: seq<Desired>, latest0: map<Name, nat>, back0: nat, latest: map<Name, nat>, back: nat)
    requires Advances(ds, latest0, back0, latest, back) && AllMoveOn(es, latest0) && NoEarlier(ds, es)
    ensures AllMoveOn(es, latest)
  {
    forall k | 0 <= k < |es|
      ensures Quotas.MovesOn(latest, es[k])
    {
      var n := es[k].name;
      assert Quotas.MovesOn(latest0, es[k]);
      if es[k].quotaReset > 0 && n in latest {
        assert LatestFrom(ds, latest0, n, latest[n]);
      }
    }
  }

  /** The resets so far, and the file. */
  datatype Book = Book(log: Quotas.Log, st: State)

  const NO_RESETS := Book(Quotas.Log([], map[], map[]), NOTHING)

  /** What an apply does about the period of one user; `kept` tells whether what it writes reaches the file. */
  function Visit(b: Book, d: Desired, kept: bool): Book {
    var log := Quotas.Asked(b.log, d);
    Book(if QuotaDue(b.st, d) then log.(resets := log.resets + [(d.name, d.quotaReset)]) else log,
         if kept then Note(b.st, d) else b.st)
  }

  /**
   When a user is reset twice for one period: if the checkpoint of the first reset did not reach the file, and if
   an earlier period was applied and recorded in between; not if the period is just applied again.
   */
  lemma WhenResetsRepeat(early: Desired, late: Desired)
    requires early.name == late.name && 0 < early.quotaReset < late.quotaReset
    ensures var b, reset := Visit(NO_RESETS, early, true), (late.name, late.quotaReset);
            && Visit(Visit(b, late, true), late, true).log.resets == [reset]
            && Visit(Visit(b, late, false), late, true).log.resets == [reset, reset]
            && Visit(Visit(Visit(b, late, true), early, true), late, true).log.resets == [reset, reset]
  {
  }

  /** The period the file remembers, 0 for none. */
  function PeriodOf(st: State, n: Name): nat {
    if n in st.quotas then st.quotas[n] else 0
  }

  /** The file remembers the periods of the first `k` users. */
  ghost predicate PeriodsKept(st: State, ds: seq<Desired>, k: nat)
    requires k <= |ds|
  {
    forall j :: 0 <= j < k ==> PeriodOf(st, ds[j].name) == ds[j].quotaReset
  }

  lemma OneMorePeriod(st: State, ds: seq<Desired>, k: nat)
    requires k < |ds|
    ensures PeriodsKept(st, ds, k + 1) <==> PeriodsKept(st, ds, k) && PeriodOf(st, ds[k].name) == ds[k].quotaReset
  {
  }

  /** What the file says once the first `k` users have their goals. */
  ghost predicate Records(st: State, ds: seq<Desired>, k: nat, latest: map<Name, nat>)
    requires k <= |ds|
  {
    && (forall j :: 0 <= j < k ==> Recorded(st, ds[j])) && PeriodsKept(st, ds, k)
    && (forall n :: n in st.quotas ==> n in latest && st.quotas[n] == latest[n] && Asks(ds, n, st.quotas[n]))
  }

  ghost predicate Recorded(st: State, d: Desired) {
    !SecretChanged(st, d) && d.name in st.limits && st.limits[d.name] == Print(d.policy)
  }

  ghost predicate Asks(ds: seq<Desired>, n: Name, period: nat) {
    exists j :: 0 <= j < |ds| && ds[j].name == n && ds[j].quotaReset == period
  }

  function Note(st: State, d: Desired): State {
    State(st.secrets[d.name := Print(d.secret)], st.limits[d.name := Print(d.policy)],
          if d.quotaReset > 0 then st.quotas[d.name := d.quotaReset] else st.quotas)
  }

  lemma NoteRecords(st: State, ds: seq<Desired>, k: nat, latest: map<Name, nat>)
    requires Proper(ds) && k < |ds| && Records(st, ds, k, latest)
    ensures Records(Note(st, ds[k]), ds, k + 1, Quotas.Latest(latest, ds[k]))
  {
    var next, after := Note(st, ds[k]), Quotas.Latest(latest, ds[k]);
    forall j | 0 <= j < k + 1
      ensures Recorded(next, ds[j])
    {
      assert j < k ==> Recorded(st, ds[j]) && ds[j].name != ds[k].name;
    }
    forall j | 0 <= j < k + 1
      ensures PeriodOf(next, ds[j].name) == ds[j].quotaReset
    {
      assert j < k ==> ds[j].name != ds[k].name && PeriodOf(st, ds[j].name) == ds[j].quotaReset;
      assert ds[k].name in st.quotas ==> Asks(ds, ds[k].name, st.quotas[ds[k].name]);
    }
    forall n | n in next.quotas
      ensures n in after && next.quotas[n] == after[n] && Asks(ds, n, next.quotas[n])
    {
      if n in st.quotas {
        assert Asks(ds, n, st.quotas[n]);
      }
    }
  }

  /** Before the first user nothing has moved. */
  lemma NothingYet(ds: seq<Desired>, st: State, users: map<Name, User>, latest: map<Name, nat>, back: nat)
    ensures Advances(ds, latest, back, latest, back) && Records(NOTHING, ds, 0, latest)
    ensures Progress(ds, 0, st, users, users) && OthersSame(ds, users, users) && AllNamed(ds, [])
    ensures FitStays(ds, st, users, st, users) && PeriodsKept(st, ds, 0)
  {
  }

  lemma ProgressIsStepped(ds: seq<Desired>, k: nat, st: State, before: map<Name, User>, after: map<Name, User>)
    requires k <= |ds| && Progress(ds, k, st, before, after)
    ensures AllStepped(st, before, after, ds)
  {
  }

  /** The names the deletion spares: the desired ones and those the other vhosts of a managed node refer to. */
  function WantedNames(vhosts: seq<Vhost>, i: nat, managed: Option<string>, ds: seq<Desired>): set<Name> {
    (set k | 0 <= k < |ds| :: ds[k].name)
    + (if managed.None? then {}
       else set j, k | 0 <= j < |vhosts| && j != i && 0 <= k < |vhosts[j].profiles| :: vhosts[j].profiles[k].user)
  }

  lemma WantedIff(vhosts: seq<Vhost>, i: nat, managed: Option<string>, ds: seq<Desired>, n: Name)
    ensures n in WantedNames(vhosts, i, managed, ds) <==> Named(ds, n) || Spared(vhosts, i, managed, n)
  {
    if Spared(vhosts, i, managed, n) {
      var j :| 0 <= j < |vhosts| && j != i && Refers(vhosts[j], n);
      var k :| 0 <= k < |vhosts[j].profiles| && vhosts[j].profiles[k].user == n;
    }
  }

  /** Every profile left names a wanted user, if the neighbours are spared or name desired users only. */
  lemma ProfilesAreWanted(vhosts: seq<Vhost>, i: nat, managed: Option<string>, ds: seq<Desired>)
    requires i < |vhosts| && vhosts[i].profiles == ProfilesOf(ds)
    requires managed.Some? || OthersCovered(vhosts, i, ds)
    ensures AllWanted(vhosts, WantedNames(vhosts, i, managed, ds))
  {
    forall j | 0 <= j < |vhosts|
      ensures ProfilesWanted(vhosts[j], WantedNames(vhosts, i, managed, ds))
    {
      forall k | 0 <= k < |vhosts[j].profiles|
        ensures vhosts[j].profiles[k].user in WantedNames(vhosts, i, managed, ds)
      {
        var n := vhosts[j].profiles[k].user;
        WantedIff(vhosts, i, managed, ds, n);
        if j == i {
          assert ds[k].name == n;
        } else {
          assert Refers(vhosts[j], n);
          assert managed.None? ==> NamesOnly(vhosts[j], ds);
        }
      }
    }
  }

  lemma FewerUsersFit(st: State, mid: map<Name, User>, after: map<Name, User>, ds: seq<Desired>)
    requires forall n :: n in after ==> n in mid && after[n] == mid[n]
    ensures FitStays(ds, st, mid, st, after)
  {
    if FitsAll(st, mid, ds) {
      forall k | 0 <= k < |ds|
        ensures Fits(st, after, ds[k])
      {
        assert Fits(st, mid, ds[k]);
      }
    }
  }

  lemma CoveredStill(vhosts: seq<Vhost>, i: nat, ds: seq<Desired>)
    requires i < |vhosts|
    ensures OthersCovered(vhosts, i, ds) ==> OthersCovered(WithProfiles(vhosts, i, ds), i, ds)
  {
    if OthersCovered(vhosts, i, ds) {
      forall j | 0 <= j < |vhosts| && j != i
        ensures NamesOnly(WithProfiles(vhosts, i, ds)[j], ds)
      {
        assert NamesOnly(vhosts[j], ds);
      }
    }
  }

  lemma WantedStill(vhosts: seq<Vhost>, i: nat, managed: Option<string>, ds: seq<Desired>)
    requires i < |vhosts|
    ensures WantedNames(WithProfiles(vhosts, i, ds), i, managed, ds) == WantedNames(vhosts, i, managed, ds)
  {
    var after := WithProfiles(vhosts, i, ds);
    assert forall j :: 0 <= j < |vhosts| && j != i ==> after[j] == vhosts[j];
    forall n
      ensures n in WantedNames(after, i, managed, ds) <==> n in WantedNames(vhosts, i, managed, ds)
    {
      WantedIff(after, i, managed, ds, n);
      WantedIff(vhosts, i, managed, ds, n);
      assert forall j :: 0 <= j < |vhosts| && j != i ==> (Refers(after[j], n) <==> Refers(vhosts[j], n));
    }
  }

  lemma NobodyUnwanted(n: Node, ds: seq<Desired>, managed: Option<string>, i: nat)
    requires i < |n.vhosts|
    ensures Settled(n, ds, managed, i) ==> forall u :: u in n.users ==> u in WantedNames(n.vhosts, i, managed, ds)
  {
    forall u
      ensures u in WantedNames(n.vhosts, i, managed, ds) <==> Named(ds, u) || Spared(n.vhosts, i, managed, u)
    {
      WantedIff(n.vhosts, i, managed, ds, u);
    }
  }

  lemma NeighboursAreWanted(vhosts: seq<Vhost>, i: nat, managed: Option<string>, ds: seq<Desired>)
    requires i < |vhosts|
    ensures managed.Some? || OthersCovered(vhosts, i, ds) ==>
              AllWanted(WithProfiles(vhosts, i, ds), WantedNames(vhosts, i, managed, ds))
  {
    if managed.Some? || OthersCovered(vhosts, i, ds) {
      CoveredStill(vhosts, i, ds);
      ProfilesAreWanted(WithProfiles(vhosts, i, ds), i, managed, ds);
      WantedStill(vhosts, i, managed, ds);
    }
  }

  /** The users after the deletions: those of `mid` without the unwanted ones there were before. */
  ghost predicate Pruned(before: map<Name, User>, mid: map<Name, User>, after: map<Name, User>, wanted: set<Name>) {
    && (forall n :: n in after ==> n in mid && after[n] == mid[n])
    && (forall n :: n in mid && n !in after ==> n in before && n !in wanted)
    && (forall n :: n in before && n !in wanted ==> n !in after)
  }

  lemma IsArranged(before: Node, mid: map<Name, User>, after: Node, ds: seq<Desired>, managed: Option<string>, i: nat)
    requires Proper(ds) && VhostIndex(before.vhosts, managed) == Some(i)
    requires AllThere(ds, mid) && OthersSame(ds, before.users, mid)
    requires Pruned(before.users, mid, after.users, WantedNames(before.vhosts, i, managed, ds))
    requires after.vhosts == WithProfiles(before.vhosts, i, ds)
    ensures Arranged(after, before, ds, managed) && (Given(ds, after.users) <==> Given(ds, mid))
  {
    forall k | 0 <= k < |ds|
      ensures ds[k].name in after.users && after.users[ds[k].name] == mid[ds[k].name]
    {
      WantedIff(before.vhosts, i, managed, ds, ds[k].name);
      assert Named(ds, ds[k].name);
    }
    forall u
      ensures u in after.users ==> Named(ds, u) || (u in before.users && after.users[u] == before.users[u])
      ensures u in before.users && !Named(ds, u) ==> (u in after.users <==> Spared(before.vhosts, i, managed, u))
    {
      WantedIff(before.vhosts, i, managed, ds, u);
      assert SameAt(before.users, mid, u) || Named(ds, u);
    }
  }

  /** Deleting nobody who is wanted keeps the protected users. */
  lemma PrunedKeeps(before: Node, mid: map<Name, User>, after: map<Name, User>, ds: seq<Desired>, managed: Option<string>, i: nat)
    requires VhostIndex(before.vhosts, managed) == Some(i) && OthersSame(ds, before.users, mid)
    requires forall n :: n in after ==> n in mid && after[n] == mid[n]
    requires forall n :: n in mid && n !in after ==> n !in WantedNames(before.vhosts, i, managed, ds)
    ensures KeepsProtected(before, after, ds, managed)
  {
    ManagedIff(before.vhosts, managed, i);
    forall u | u in before.users && !Named(ds, u) && Protected(before.vhosts, managed, u)
      ensures u in after && after[u] == before.users[u]
    {
      assert SameAt(before.users, mid, u) || Named(ds, u);
      WantedIff(before.vhosts, i, managed, ds, u);
    }
  }

  /** What the deletions come to, finished or not. */
  lemma AfterDeletions(before: Node, mid: map<Name, User>, after: Node, ds: seq<Desired>, managed: Option<string>, i: nat,
                       finished: bool, file: State)
    requires Proper(ds) && VhostIndex(before.vhosts, managed) == Some(i) && OthersSame(ds, before.users, mid)
    requires forall n :: n in after.users ==> n in mid && after.users[n] == mid[n]
    requires var wanted := WantedNames(before.vhosts, i, managed, ds);
             && (forall n :: n in mid && n !in after.users ==> n !in wanted)
             && (finished ==> AllThere(ds, mid) && Pruned(before.users, mid, after.users, wanted) && after.vhosts == WithProfiles(before.vhosts, i, ds))
    ensures FitStays(ds, file, mid, file, after.users) && KeepsProtected(before, after.users, ds, managed)
    ensures finished ==> Arranged(after, before, ds, managed) && (Given(ds, after.users) <==> Given(ds, mid))
  {
    PrunedKeeps(before, mid, after.users, ds, managed, i);
    FewerUsersFit(file, mid, after.users, ds);
    if finished {
      IsArranged(before, mid, after, ds, managed, i);
    }
  }

  /** With its state on file, what was arranged needs nothing more. */
  lemma IsQuiet(st: State, n: Node, before: Node, ds: seq<Desired>, managed: Option<string>)
    requires Proper(ds) && Arranged(n, before, ds, managed)
    requires AllIdle(st, n.users, ds)
    ensures Quiet(st, n, ds, managed)
  {
    ArrangedIsOrderly(n, before, ds, managed);
  }

  lemma RecordsAreIdle(st: State, latest: map<Name, nat>, users: map<Name, User>, ds: seq<Desired>)
    requires Proper(ds) && AllThere(ds, users) && Records(st, ds, |ds|, latest)
    ensures AllIdle(st, users, ds)
  {
    forall k | 0 <= k < |ds|
      ensures Idle(st, users, ds[k])
    {
      var d := ds[k];
      assert Recorded(st, d);
      if d.name in st.quotas {
        assert Asks(ds, d.name, st.quotas[d.name]);
        var j :| 0 <= j < |ds| && ds[j].name == d.name && ds[j].quotaReset == st.quotas[d.name];
        assert j == k;
      }
    }
  }

  /** Whether every profile still has its user afterwards is decided by the vhosts the panel does not manage. */
  lemma IntegralAfterIff(before: Node, after: Node, ds: seq<Desired>, managed: Option<string>)
    requires Arranged(after, before, ds, managed) && Integral(before)
    ensures Integral(after) <==> managed.Some? || OthersCovered(before.vhosts, VhostIndex(before.vhosts, managed).value, ds)
  {
    var i := VhostIndex(before.vhosts, managed).value;
    if managed.Some? || OthersCovered(before.vhosts, i, ds) {
      forall j | 0 <= j < |after.vhosts|
        ensures Backed(after.vhosts[j], after.users)
      {
        forall k | 0 <= k < |after.vhosts[j].profiles|
          ensures after.vhosts[j].profiles[k].user in after.users
        {
          var n := after.vhosts[j].profiles[k].user;
          if j == i {
            assert ds[k].name == n;
          } else {
            assert Backed(before.vhosts[j], before.users) && Refers(before.vhosts[j], n);
            assert managed.None? ==> NamesOnly(before.vhosts[j], ds);
          }
        }
      }
    } else {
      var j :| 0 <= j < |before.vhosts| && j != i && !NamesOnly(before.vhosts[j], ds);
      var k :| 0 <= k < |before.vhosts[j].profiles| && !Named(ds, before.vhosts[j].profiles[k].user);
      assert Backed(before.vhosts[j], before.users);
      assert after.vhosts[j] == before.vhosts[j];
      assert !Backed(after.vhosts[j], after.users);
    }
  }

  /** A file that says nothing fits any goal, and leaves something to do. */
  lemma NothingFits(users: map<Name, User>, ds: seq<Desired>)
    requires ds != []
    ensures FitsAll(NOTHING, users, ds) && !AllIdle(NOTHING, users, ds)
  {
    assert !Idle(NOTHING, users, ds[0]);
  }

  lemma ArrangedIsOrderly(n: Node, before: Node, ds: seq<Desired>, managed: Option<string>)
    requires Arranged(n, before, ds, managed)
    ensures Orderly(n, ds, managed)
  {
    var i := VhostIndex(before.vhosts, managed).value;
    IndexKept(before.vhosts, managed, i, n.vhosts[i]);
    ManagedIff(n.vhosts, managed, i);
    forall u | u in n.users
      ensures Named(ds, u) || Spared(n.vhosts, i, managed, u)
    {
      if !Named(ds, u) {
        var j :| 0 <= j < |before.vhosts| && j != i && Refers(before.vhosts[j], u);
        assert n.vhosts[j] == before.vhosts[j] && Refers(n.vhosts[j], u);
      }
    }
  }

  /** With a truthful file any desired state can be applied. */
  lemma TruthfulFitsAll(st: State, users: map<Name, User>, ds: seq<Desired>)
    requires Truthful(st, users)
    ensures FitsAll(st, users, ds)
  {
    forall k | 0 <= k < |ds|
      ensures Fits(st, users, ds[k])
    {
      TruthfulFits(st, users, ds[k]);
    }
  }
}
