/**
 A telemt node as its control API shows it, and what the desired state of its users asks of it. Calls are
 sparse patches of this state.
 */
module NodeState {
  import opened Options
  import opened TelemtUsers
  import WebPolicy

  datatype Profile = Profile(user: Name, plain: bool, limits: Limits)
  datatype Decoy = NoDecoy | Static | Upstream(origin: string, resolve: Option<string>) | Unknown(mode: string)
  datatype Vhost = Vhost(host: string, profiles: seq<Profile>, publicAddr: string, decoy: Decoy, basePath: string)

  datatype Listener = Listener(fakeTls: bool, port: nat)
  /** The Fake-TLS side: its domains, the listeners, and the port in the links if there is one. */
  datatype Listening = Listening(domain: string, extra: seq<string>, listeners: seq<Listener>, linkPort: Option<nat>)

  datatype Node = Node(
    users: map<Name, User>, vhosts: seq<Vhost>, listening: Listening, middleProxy: bool,
    web: WebPolicy.Table, ceilings: Limits)

  // ---- virtual hosts -----------------------------------------------------------------------

  function HostAt(vhosts: seq<Vhost>, host: string, from: nat): (k: nat)
    requires from <= |vhosts|
    ensures from <= k <= |vhosts| && (k < |vhosts| ==> vhosts[k].host == host)
    ensures forall j :: from <= j < k ==> vhosts[j].host != host
    decreases |vhosts| - from
  {
    if from == |vhosts| || vhosts[from].host == host then from else HostAt(vhosts, host, from + 1)
  }

  /** The vhost the panel manages: the only one of that name, or the first when none is named. */
  function VhostIndex(vhosts: seq<Vhost>, managed: Option<string>): (i: Option<nat>)
    ensures i.Some? ==> i.value < |vhosts|
  {
    if managed.None? then (if vhosts == [] then None else Some(0))
    else
      var k := HostAt(vhosts, managed.value, 0);
      if k < |vhosts| && HostAt(vhosts, managed.value, k + 1) == |vhosts| then Some(k) else None
  }

  /** The vhost is the one the panel manages: the first if no host is named, else the only one of that host. */
  ghost predicate IsManaged(vhosts: seq<Vhost>, managed: Option<string>, i: nat) {
    && i < |vhosts|
    && match managed
       case None => i == 0
       case Some(host) => vhosts[i].host == host && forall j :: 0 <= j < |vhosts| && j != i ==> vhosts[j].host != host
  }

  /** The index is that of the managed vhost, and there is none exactly if no vhost is. */
  lemma ManagedIff(vhosts: seq<Vhost>, managed: Option<string>, i: nat)
    ensures VhostIndex(vhosts, managed) == Some(i) <==> IsManaged(vhosts, managed, i)
  {
    if managed.Some? {
      var k := HostAt(vhosts, managed.value, 0);
      if k < |vhosts| {
        var l := HostAt(vhosts, managed.value, k + 1);
      }
    }
  }

  ghost predicate HasManaged(vhosts: seq<Vhost>, managed: Option<string>) {
    exists i: nat :: IsManaged(vhosts, managed, i)
  }

  lemma HasManagedIff(vhosts: seq<Vhost>, managed: Option<string>)
    ensures VhostIndex(vhosts, managed).Some? <==> HasManaged(vhosts, managed)
  {
    if VhostIndex(vhosts, managed).Some? {
      ManagedIff(vhosts, managed, VhostIndex(vhosts, managed).value);
    }
    if i: nat :| IsManaged(vhosts, managed, i) {
      ManagedIff(vhosts, managed, i);
    }
  }

  ghost predicate Refers(v: Vhost, n: Name) {
    exists k :: 0 <= k < |v.profiles| && v.profiles[k].user == n
  }

  /** Every profile of the vhost names a user. */
  ghost predicate Backed(v: Vhost, users: map<Name, User>) {
    forall k :: 0 <= k < |v.profiles| ==> v.profiles[k].user in users
  }

  /** Every profile of every vhost names a user. */
  ghost predicate Integral(n: Node) {
    forall i :: 0 <= i < |n.vhosts| ==> Backed(n.vhosts[i], n.users)
  }

  // ---- desired users -----------------------------------------------------------------------

  ghost predicate Named(ds: seq<Desired>, n: Name) {
    exists k :: 0 <= k < |ds| && ds[k].name == n
  }

  /** What telemtDesiredFrom lets through: at least one user, no name twice. */
  ghost predicate Proper(ds: seq<Desired>) {
    && ds != [] && (forall k :: 0 <= k < |ds| ==> Wellformed(ds[k].policy))
    && (forall j, k :: 0 <= j < k < |ds| ==> ds[j].name != ds[k].name)
  }

  function ProfilesOf(ds: seq<Desired>): (ps: seq<Profile>)
    ensures |ps| == |ds| && forall k :: 0 <= k < |ds| ==> ps[k] == Profile(ds[k].name, true, ds[k].limits)
  {
    seq(|ds|, k requires 0 <= k < |ds| => Profile(ds[k].name, true, ds[k].limits))
  }

  predicate WithinCeiling(v: nat, ceiling: nat) {
    v == 0 || ceiling == 0 || v <= ceiling
  }

  predicate LimitsFit(l: Limits, g: Limits) {
    WithinCeiling(l.sessions, g.sessions) && WithinCeiling(l.streams, g.streams) && WithinCeiling(l.perSession, g.perSession)
  }

  /** No limit is over a ceiling of the node that is one; 0 is none. */
  ghost predicate UnderCeilings(ds: seq<Desired>, g: Limits) {
    forall k :: 0 <= k < |ds| ==>
      && (ds[k].limits.sessions <= g.sessions || g.sessions == 0)
      && (ds[k].limits.streams <= g.streams || g.streams == 0)
      && (ds[k].limits.perSession <= g.perSession || g.perSession == 0)
  }

  /** Another vhost refers to the user, and there is a managed host whose neighbours are spared. */
  ghost predicate Spared(vhosts: seq<Vhost>, i: nat, managed: Option<string>, n: Name) {
    managed.Some? && exists j :: 0 <= j < |vhosts| && j != i && Refers(vhosts[j], n)
  }

  /** The other vhosts refer to desired users only. */
  ghost predicate OthersCovered(vhosts: seq<Vhost>, i: nat, ds: seq<Desired>) {
    forall j :: 0 <= j < |vhosts| && j != i ==> NamesOnly(vhosts[j], ds)
  }

  ghost predicate NamesOnly(v: Vhost, ds: seq<Desired>) {
    forall k :: 0 <= k < |v.profiles| ==> Named(ds, v.profiles[k].user)
  }

  ghost predicate Given(ds: seq<Desired>, users: map<Name, User>) {
    forall k :: 0 <= k < |ds| ==> ds[k].name in users && users[ds[k].name] == Goal(ds[k])
  }

  ghost predicate AllThere(ds: seq<Desired>, users: map<Name, User>) {
    forall k :: 0 <= k < |ds| ==> ds[k].name in users
  }

  /** The file fits every goal. */
  ghost predicate FitsAll(st: State, users: map<Name, User>, ds: seq<Desired>) {
    forall k :: 0 <= k < |ds| ==> Fits(st, users, ds[k])
  }

  function WithProfiles(vhosts: seq<Vhost>, i: nat, ds: seq<Desired>): seq<Vhost>
    requires i < |vhosts|
  {
    vhosts[i := vhosts[i].(profiles := ProfilesOf(ds))]
  }

  /** The desired users are there with their profiles, and no other user but the spared. */
  ghost predicate Arranged(n: Node, before: Node, ds: seq<Desired>, managed: Option<string>) {
    var i := VhostIndex(before.vhosts, managed);
    && i.Some? && AllThere(ds, n.users)
    && n.vhosts == WithProfiles(before.vhosts, i.value, ds)
    && (forall u :: u in n.users ==> Named(ds, u) || (u in before.users && n.users[u] == before.users[u]))
    && (forall u :: u in before.users && !Named(ds, u) ==> (u in n.users <==> Spared(before.vhosts, i.value, managed, u)))
  }

  /** What was asked for is there: the same, and every desired user has its goal. */
  ghost predicate Reconciled(n: Node, before: Node, ds: seq<Desired>, managed: Option<string>) {
    Arranged(n, before, ds, managed) && Given(ds, n.users)
  }

  /** The next period asked for is past the one the file remembers. */
  predicate QuotaDue(st: State, d: Desired) {
    d.name in st.quotas && d.quotaReset > st.quotas[d.name]
  }

  /** Nothing is to be done for the user. */
  predicate Idle(st: State, users: map<Name, User>, d: Desired) {
    SendFor(st, users, d) == Nothing && !QuotaDue(st, d)
  }

  ghost predicate AllIdle(st: State, users: map<Name, User>, ds: seq<Desired>) {
    forall k :: 0 <= k < |ds| ==> Idle(st, users, ds[k])
  }

  /** An apply of this desired state would send nothing. */
  ghost predicate Quiet(st: State, n: Node, ds: seq<Desired>, managed: Option<string>) {
    && AllIdle(st, n.users, ds)
    && var i := VhostIndex(n.vhosts, managed);
       i.Some? ==> Settled(n, ds, managed, i.value)
  }

  /** The vhost has its profiles and no user is unwanted. */
  ghost predicate Settled(n: Node, ds: seq<Desired>, managed: Option<string>, i: nat)
    requires i < |n.vhosts|
  {
    && n.vhosts[i].profiles == ProfilesOf(ds)
    && forall u :: u in n.users ==> Named(ds, u) || Spared(n.vhosts, i, managed, u)
  }

  /** Changing the profiles of one vhost leaves the index of the managed one. */
  lemma IndexKept(vhosts: seq<Vhost>, managed: Option<string>, i: nat, v: Vhost)
    requires VhostIndex(vhosts, managed) == Some(i) && v.host == vhosts[i].host
    ensures VhostIndex(vhosts[i := v], managed) == Some(i)
  {
    if managed.Some? {
      HostKept(vhosts, managed.value, 0, i, v);
      HostKept(vhosts, managed.value, i + 1, i, v);
    }
  }

  lemma {:induction false} HostKept(vhosts: seq<Vhost>, host: string, from: nat, i: nat, v: Vhost)
    requires from <= |vhosts| && i < |vhosts| && v.host == vhosts[i].host
    ensures HostAt(vhosts[i := v], host, from) == HostAt(vhosts, host, from)
    decreases |vhosts| - from
  {
    if from < |vhosts| {
      HostKept(vhosts, host, from + 1, i, v);
    }
  }

  // ---- integrity ---------------------------------------------------------------------------

  ghost predicate AllWanted(vhosts: seq<Vhost>, wanted: set<Name>) {
    forall i :: 0 <= i < |vhosts| ==> ProfilesWanted(vhosts[i], wanted)
  }

  ghost predicate ProfilesWanted(v: Vhost, wanted: set<Name>) {
    forall k :: 0 <= k < |v.profiles| ==> v.profiles[k].user in wanted
  }

  lemma MoreUsersKeepIntegral(n: Node, users: map<Name, User>)
    requires n.users.Keys <= users.Keys
    ensures Integral(n) ==> Integral(n.(users := users))
  {
    if Integral(n) {
      forall i | 0 <= i < |n.vhosts|
        ensures Backed(n.vhosts[i], users)
      {
        assert Backed(n.vhosts[i], n.users);
      }
    }
  }

  lemma ProfilesKeepIntegral(n: Node, i: nat, ds: seq<Desired>)
    requires i < |n.vhosts| && AllThere(ds, n.users)
    ensures Integral(n) ==> Integral(n.(vhosts := WithProfiles(n.vhosts, i, ds)))
  {
    if Integral(n) {
      var after := WithProfiles(n.vhosts, i, ds);
      forall j | 0 <= j < |after|
        ensures Backed(after[j], n.users)
      {
        assert Backed(n.vhosts[j], n.users);
      }
    }
  }

  lemma DeletionKeepsIntegral(n: Node, wanted: set<Name>, name: Name)
    requires name !in wanted
    ensures Integral(n) && AllWanted(n.vhosts, wanted) ==> Integral(n.(users := n.users - {name}))
  {
    if Integral(n) && AllWanted(n.vhosts, wanted) {
      forall j | 0 <= j < |n.vhosts|
        ensures Backed(n.vhosts[j], n.users - {name})
      {
        assert Backed(n.vhosts[j], n.users) && ProfilesWanted(n.vhosts[j], wanted);
      }
    }
  }

  // ---- changes that leave the profiles alone -----------------------------------------------

  /** The same vhosts with the same profiles, whatever else changed about them. */
  ghost predicate SameProfiles(vs: seq<Vhost>, ws: seq<Vhost>) {
    |vs| == |ws| && forall i :: 0 <= i < |vs| ==> vs[i].host == ws[i].host && vs[i].profiles == ws[i].profiles
  }

  /** What a decoy serves, whether or not it resolves its origin. */
  function Origin(d: Decoy): Decoy {
    if d.Upstream? then d.(resolve := None) else d
  }

  ghost predicate SameAddrs(vs: seq<Vhost>, ws: seq<Vhost>) {
    |vs| == |ws| && forall i :: 0 <= i < |vs| ==> vs[i].publicAddr == ws[i].publicAddr
  }

  ghost predicate SameOrigins(vs: seq<Vhost>, ws: seq<Vhost>) {
    |vs| == |ws| && forall i :: 0 <= i < |vs| ==> Origin(vs[i].decoy) == Origin(ws[i].decoy)
  }

  /** The desired users and their profiles are served, and no user but the desired and the spared. */
  ghost predicate Orderly(n: Node, ds: seq<Desired>, managed: Option<string>) {
    && AllThere(ds, n.users)
    && exists i: nat :: IsManaged(n.vhosts, managed, i) && Settled(n, ds, managed, i)
  }

  /** Exactly what was asked for is served: the same, and every desired user with its goal. */
  ghost predicate Served(n: Node, ds: seq<Desired>, managed: Option<string>) {
    Orderly(n, ds, managed) && Given(ds, n.users)
  }

  lemma {:induction false} SameHosts(vs: seq<Vhost>, ws: seq<Vhost>, host: string, from: nat)
    requires SameProfiles(vs, ws) && from <= |vs|
    ensures HostAt(vs, host, from) == HostAt(ws, host, from)
    decreases |vs| - from
  {
    if from < |vs| {
      SameHosts(vs, ws, host, from + 1);
    }
  }

  /** The managed vhost is where it was. */
  lemma SameIndex(vs: seq<Vhost>, ws: seq<Vhost>, managed: Option<string>)
    requires SameProfiles(vs, ws)
    ensures VhostIndex(vs, managed) == VhostIndex(ws, managed)
  {
    if managed.Some? {
      var k := HostAt(vs, managed.value, 0);
      SameHosts(vs, ws, managed.value, 0);
      if k < |vs| {
        SameHosts(vs, ws, managed.value, k + 1);
      }
    }
  }

  lemma SameManaged(vs: seq<Vhost>, ws: seq<Vhost>, managed: Option<string>)
    requires SameProfiles(vs, ws)
    ensures HasManaged(vs, managed) <==> HasManaged(ws, managed)
  {
    SameIndex(vs, ws, managed);
    HasManagedIff(vs, managed);
    HasManagedIff(ws, managed);
  }

  lemma OrderlyStays(n: Node, m: Node, ds: seq<Desired>, managed: Option<string>)
    requires Orderly(n, ds, managed) && m.users == n.users && SameProfiles(n.vhosts, m.vhosts)
    ensures Orderly(m, ds, managed)
  {
    var i: nat :| IsManaged(n.vhosts, managed, i) && Settled(n, ds, managed, i);
    assert IsManaged(m.vhosts, managed, i);
    forall u | u in m.users
      ensures Named(ds, u) || Spared(m.vhosts, i, managed, u)
    {
      if !Named(ds, u) {
        var j :| 0 <= j < |n.vhosts| && j != i && Refers(n.vhosts[j], u);
        var k :| 0 <= k < |n.vhosts[j].profiles| && n.vhosts[j].profiles[k].user == u;
        assert m.vhosts[j].profiles[k].user == u;
        assert Refers(m.vhosts[j], u);
      }
    }
  }

  /** What is not about the users and the profiles does not make anything due. */
  lemma QuietStays(st: State, n: Node, m: Node, ds: seq<Desired>, managed: Option<string>)
    requires Quiet(st, n, ds, managed) && m.users == n.users && SameProfiles(n.vhosts, m.vhosts)
    ensures Quiet(st, m, ds, managed)
  {
    SameIndex(n.vhosts, m.vhosts, managed);
    var index := VhostIndex(n.vhosts, managed);
    if index.Some? {
      forall u | u in m.users
        ensures Named(ds, u) || Spared(m.vhosts, index.value, managed, u)
      {
        if !Named(ds, u) {
          var j :| 0 <= j < |n.vhosts| && j != index.value && Refers(n.vhosts[j], u);
          var k :| 0 <= k < |n.vhosts[j].profiles| && n.vhosts[j].profiles[k].user == u;
          assert m.vhosts[j].profiles[k].user == u;
          assert Refers(m.vhosts[j], u);
        }
      }
    }
  }

  // ---- what an apply leaves alone ----------------------------------------------------------

  /** The same vhosts, except for what the managed one is like under its name. */
  ghost predicate Near(vs: seq<Vhost>, ws: seq<Vhost>, managed: Option<string>) {
    && |vs| == |ws|
    && forall j :: 0 <= j < |vs| ==> vs[j].host == ws[j].host && (IsManaged(vs, managed, j) || vs[j] == ws[j])
  }

  /** Nothing but the managed vhost is different, and of it nothing but what is said to be. */
  ghost predicate Moved(vs: seq<Vhost>, ws: seq<Vhost>, managed: Option<string>, decoy: bool, addr: bool, path: bool) {
    && |vs| == |ws|
    && forall j :: 0 <= j < |vs| ==>
         && vs[j].host == ws[j].host && vs[j].profiles == ws[j].profiles && (IsManaged(vs, managed, j) || vs[j] == ws[j])
         && (vs[j].decoy == ws[j].decoy || decoy) && (vs[j].publicAddr == ws[j].publicAddr || addr)
         && (vs[j].basePath == ws[j].basePath || path)
  }

  lemma MovedAt(vs: seq<Vhost>, managed: Option<string>, i: nat, v: Vhost, decoy: bool, addr: bool, path: bool)
    requires VhostIndex(vs, managed) == Some(i) && v.host == vs[i].host && v.profiles == vs[i].profiles
    requires (v.decoy == vs[i].decoy || decoy) && (v.publicAddr == vs[i].publicAddr || addr) && (v.basePath == vs[i].basePath || path)
    ensures Moved(vs, vs[i := v], managed, decoy, addr, path)
  {
    ManagedIff(vs, managed, i);
  }

  lemma MovedTwice(vs: seq<Vhost>, ws: seq<Vhost>, xs: seq<Vhost>, managed: Option<string>,
                   decoy: bool, addr: bool, path: bool, decoy': bool, addr': bool, path': bool)
    requires Moved(vs, ws, managed, decoy, addr, path) && Moved(ws, xs, managed, decoy', addr', path')
    ensures Moved(vs, xs, managed, decoy || decoy', addr || addr', path || path')
  {
    forall j | 0 <= j < |vs|
      ensures IsManaged(vs, managed, j) || vs[j] == xs[j]
    {
      assert IsManaged(vs, managed, j) <==> IsManaged(ws, managed, j);
    }
  }

  lemma MovedIsSame(vs: seq<Vhost>, ws: seq<Vhost>, managed: Option<string>, decoy: bool, addr: bool, path: bool)
    requires Moved(vs, ws, managed, decoy, addr, path)
    ensures SameProfiles(vs, ws) && Near(vs, ws, managed) && (!addr ==> SameAddrs(vs, ws)) && (!decoy ==> SameOrigins(vs, ws))
  {
  }

  /** Nothing but the profiles of one vhost is different. */
  predicate ProfilesAt(vs: seq<Vhost>, ws: seq<Vhost>, i: nat) {
    i < |vs| == |ws| && ws == vs[i := vs[i].(profiles := ws[i].profiles)]
  }

  /** Nothing but the profiles of the managed vhost is different. */
  predicate ProfilesOnly(vs: seq<Vhost>, ws: seq<Vhost>, managed: Option<string>) {
    VhostIndex(vs, managed).Some? && ProfilesAt(vs, ws, VhostIndex(vs, managed).value)
  }

  /** No apply may delete the user: there is no managed vhost, or another one refers to the user. */
  ghost predicate Protected(vhosts: seq<Vhost>, managed: Option<string>, n: Name) {
    forall i: nat :: IsManaged(vhosts, managed, i) ==> Spared(vhosts, i, managed, n)
  }

  /** The protected users nobody asked for are as they were. */
  ghost predicate KeepsProtected(before: Node, users: map<Name, User>, ds: seq<Desired>, managed: Option<string>) {
    forall u :: u in before.users && !Named(ds, u) && Protected(before.vhosts, managed, u) ==>
      u in users && users[u] == before.users[u]
  }

  /** The same vhost is managed, and the same users are protected. */
  lemma NearProtects(vs: seq<Vhost>, ws: seq<Vhost>, managed: Option<string>, n: Name)
    requires Near(vs, ws, managed)
    ensures forall i: nat :: IsManaged(vs, managed, i) <==> IsManaged(ws, managed, i)
    ensures Protected(vs, managed, n) <==> Protected(ws, managed, n)
  {
    forall i: nat
      ensures IsManaged(vs, managed, i) <==> IsManaged(ws, managed, i)
      ensures IsManaged(vs, managed, i) ==> (Spared(vs, i, managed, n) <==> Spared(ws, i, managed, n))
    {
      if IsManaged(vs, managed, i) {
        forall j | 0 <= j < |vs| && j != i
          ensures Refers(vs[j], n) <==> Refers(ws[j], n)
        {
          assert !IsManaged(vs, managed, j);
        }
      }
    }
  }

  lemma SameProfilesSelf(vs: seq<Vhost>, managed: Option<string>)
    ensures SameProfiles(vs, vs) && Near(vs, vs, managed)
  {
  }

  lemma ProfilesOnlyIsNear(vs: seq<Vhost>, ws: seq<Vhost>, xs: seq<Vhost>, managed: Option<string>)
    requires (ws == vs || ProfilesOnly(vs, ws, managed)) && Near(ws, xs, managed)
    ensures Near(vs, xs, managed)
  {
    if ProfilesOnly(vs, ws, managed) {
      ManagedIff(vs, managed, VhostIndex(vs, managed).value);
    }
    forall j | 0 <= j < |vs|
      ensures IsManaged(vs, managed, j) <==> IsManaged(ws, managed, j)
    {
      assert forall k :: 0 <= k < |vs| ==> vs[k].host == ws[k].host;
    }
  }

  lemma KeepsItself(n: Node, ds: seq<Desired>, managed: Option<string>)
    ensures KeepsProtected(n, n.users, ds, managed)
  {
  }

  /** Deleting desired users leaves the others alone. */
  lemma FewerKeep(before: Node, mid: map<Name, User>, after: map<Name, User>, ds: seq<Desired>, managed: Option<string>)
    requires KeepsProtected(before, mid, ds, managed)
    requires forall n :: n in after ==> n in mid && after[n] == mid[n]
    requires forall n :: n in mid && n !in after ==> Named(ds, n)
    ensures KeepsProtected(before, after, ds, managed)
  {
  }

  /** Two applies in a row leave alone what each of them does. */
  lemma StillProtected(a: Node, b: Node, c: Node, ds: seq<Desired>, managed: Option<string>)
    requires Near(a.vhosts, b.vhosts, managed) && KeepsProtected(a, b.users, ds, managed)
    requires Near(b.vhosts, c.vhosts, managed) && KeepsProtected(b, c.users, ds, managed)
    ensures Near(a.vhosts, c.vhosts, managed) && KeepsProtected(a, c.users, ds, managed)
  {
    NearProtects(a.vhosts, b.vhosts, managed, "");
    forall u | u in a.users && !Named(ds, u) && Protected(a.vhosts, managed, u)
      ensures u in c.users && c.users[u] == a.users[u]
    {
      NearProtects(a.vhosts, b.vhosts, managed, u);
    }
  }
}
