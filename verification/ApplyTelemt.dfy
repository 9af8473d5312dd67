/**
 Applying a desired state to a telemt node: its users and their profiles, the decoy site, the listeners, the
 public address, the middle proxy and the carrier policy, and the rollback of an apply that fails. Every call
 may fail, and a call that fails may have taken effect all the same; `late` is the last one of an apply that did.

 An agent that dies in the middle of an apply leaves what an apply leaves that fails there and whose rollback
 fails in every call without effect, so the outcome RolledBack(false) covers it, and so does what is said of the
 file, the users and the resets whatever the outcome.
 */
module ApplyTelemt {
  import opened Options
  import opened TelemtUsers
  import opened NodeState
  import opened Undo
  import opened UserSteps
  import Quotas
  import WebPolicy

  datatype SitePlan = NoSite | StaticSite(files: Site) | HttpOrigin(origin: string, resolve: Option<string>)

  /** The decoy a plan asks for; an origin keeps how the current one is resolved unless told otherwise. */
  function DecoyFor(plan: SitePlan, cur: Decoy): Decoy
    requires plan != NoSite
  {
    match plan
    case StaticSite(_) => Static
    case HttpOrigin(origin, resolve) =>
      Decoy.Upstream(origin, if resolve.Some? then resolve else if cur.Upstream? then cur.resolve else None)
  }

  /** The decoy is the one the plan names, resolved as it says or else as the current one was. */
  predicate DecoyAsAsked(plan: SitePlan, cur: Decoy, d: Decoy) {
    match plan
    case NoSite => d == cur
    case StaticSite(_) => d.Static?
    case HttpOrigin(origin, Some(how)) => d.Upstream? && d.origin == origin && d.resolve == Some(how)
    case HttpOrigin(origin, None) =>
      d.Upstream? && d.origin == origin && d.resolve == (match cur case Upstream(_, how) => how case _ => None)
  }

  /** What the panel wants of the Fake-TLS side; the extra domains come valid, in lower case and without repeats. */
  datatype ListenPlan = ListenPlan(domain: Option<string>, extra: seq<string>, port: Option<nat>)

  /** The carrier policy, and the two options it puts on the managed vhost. */
  datatype PanelPolicy = PanelPolicy(carriers: WebPolicy.Policy, basePath: Option<string>, decoyResolve: Option<string>)

  function FakeTlsAt(listeners: seq<Listener>, from: nat): (k: nat)
    requires from <= |listeners|
    ensures from <= k <= |listeners| && (k < |listeners| ==> listeners[k].fakeTls)
    ensures forall j :: from <= j < k ==> !listeners[j].fakeTls
    decreases |listeners| - from
  {
    if from == |listeners| || listeners[from].fakeTls then from else FakeTlsAt(listeners, from + 1)
  }

  /** The port of the Fake-TLS listener, 0 without one. */
  function PortOf(l: Listening): nat {
    var k := FakeTlsAt(l.listeners, 0);
    if k < |l.listeners| then l.listeners[k].port else 0
  }

  /** The first Fake-TLS listener. */
  ghost predicate IsFakeTls(listeners: seq<Listener>, k: nat) {
    k < |listeners| && listeners[k].fakeTls && forall j :: 0 <= j < k ==> !listeners[j].fakeTls
  }

  /** The first Fake-TLS listener has the port; where there is none it is 0. */
  ghost predicate HasPort(listeners: seq<Listener>, port: nat) {
    if exists k: nat :: IsFakeTls(listeners, k) then exists k: nat :: IsFakeTls(listeners, k) && listeners[k].port == port
    else port == 0
  }

  lemma PortIff(l: Listening, port: nat)
    ensures PortOf(l) == port <==> HasPort(l.listeners, port)
  {
    var k := FakeTlsAt(l.listeners, 0);
    if k < |l.listeners| {
      assert IsFakeTls(l.listeners, k);
    }
    forall j: nat | IsFakeTls(l.listeners, j)
      ensures j == k
    {
    }
  }

  /** Nothing of the Fake-TLS side is different but what the plan speaks of: domains, the port of the listener, the link port. */
  ghost predicate ListeningMoved(plan: ListenPlan, l: Listening, m: Listening) {
    && (plan.domain.None? ==> m.domain == l.domain && m.extra == l.extra)
    && (plan.port.None? ==> m.listeners == l.listeners && m.linkPort == l.linkPort)
    && |m.listeners| == |l.listeners| && (m.linkPort.Some? <==> l.linkPort.Some?)
    && (forall k :: 0 <= k < |l.listeners| ==>
          m.listeners[k].fakeTls == l.listeners[k].fakeTls && (m.listeners[k] == l.listeners[k] || IsFakeTls(l.listeners, k)))
  }

  /** A port in the links follows a listener that gets another one. */
  ghost predicate LinkFollows(plan: ListenPlan, l: Listening, m: Listening) {
    m.linkPort == if plan.port.Some? && !HasPort(l.listeners, plan.port.value) && l.linkPort.Some? then plan.port else l.linkPort
  }

  lemma {:induction false} PortMoves(listeners: seq<Listener>, k: nat, port: nat, from: nat)
    requires k < |listeners| && from <= |listeners|
    ensures FakeTlsAt(listeners[k := listeners[k].(port := port)], from) == FakeTlsAt(listeners, from)
    decreases |listeners| - from
  {
    if from < |listeners| {
      PortMoves(listeners, k, port, from + 1);
    }
  }

  /** The vhost has the options the policy speaks of. */
  predicate OptionsHold(v: Vhost, p: PanelPolicy) {
    && (p.basePath.Some? ==> v.basePath == p.basePath.value)
    && (p.decoyResolve.Some? && v.decoy.Upstream? ==> Or(v.decoy.resolve, "never") == p.decoyResolve.value)
  }

  predicate HasOptions(p: PanelPolicy) {
    p.basePath.Some? || p.decoyResolve.Some?
  }

  /** The managed vhost with the options of the policy; an upstream decoy without a resolve option never resolves. */
  function WithOptions(v: Vhost, p: PanelPolicy): (w: Vhost)
    ensures w.profiles == v.profiles && w.host == v.host && w.publicAddr == v.publicAddr && Origin(w.decoy) == Origin(v.decoy)
    ensures OptionsHold(w, p) && (p.basePath.None? ==> w.basePath == v.basePath)
    ensures p.decoyResolve.None? || !v.decoy.Upstream? || Or(v.decoy.resolve, "never") == p.decoyResolve.value ==> w.decoy == v.decoy
  {
    var w := if p.basePath.Some? then v.(basePath := p.basePath.value) else v;
    if p.decoyResolve.Some? && w.decoy.Upstream? && Or(w.decoy.resolve, "never") != p.decoyResolve.value
    then w.(decoy := w.decoy.(resolve := p.decoyResolve))
    else w
  }

  /** The vhosts with the options of the policy on the managed one. */
  function GiveOptions(vhosts: seq<Vhost>, managed: Option<string>, p: PanelPolicy): seq<Vhost>
    requires HasOptions(p) ==> VhostIndex(vhosts, managed).Some?
  {
    if !HasOptions(p) then vhosts
    else var i := VhostIndex(vhosts, managed).value; vhosts[i := WithOptions(vhosts[i], p)]
  }

  lemma OptionsMoved(vhosts: seq<Vhost>, managed: Option<string>, p: PanelPolicy)
    requires HasOptions(p) ==> VhostIndex(vhosts, managed).Some?
    ensures var ws := GiveOptions(vhosts, managed, p);
            && Moved(vhosts, ws, managed, p.decoyResolve.Some?, false, p.basePath.Some?)
            && SameOrigins(vhosts, ws) && OptionsGiven(Some(p), managed, ws)
            && (OptionsGiven(Some(p), managed, vhosts) ==> ws == vhosts)
  {
    if HasOptions(p) {
      var i := VhostIndex(vhosts, managed).value;
      MovedAt(vhosts, managed, i, WithOptions(vhosts[i], p), p.decoyResolve.Some?, false, p.basePath.Some?);
      ManagedIff(vhosts, managed, i);
      assert forall j: nat :: IsManaged(GiveOptions(vhosts, managed, p), managed, j) ==> j == i;
    }
  }

  /** Where nothing was done nothing has moved. */
  lemma NothingMoved(vhosts: seq<Vhost>, managed: Option<string>, policy: Option<PanelPolicy>, web: WebPolicy.Table, decoy: bool, path: bool)
    ensures forall addr :: Moved(vhosts, vhosts, managed, decoy, addr, path)
    ensures SameOrigins(vhosts, vhosts) && WebRestSame(policy, web, web)
    ensures policy.None? ==> OptionsGiven(policy, managed, vhosts)
  {
  }

  /** The domains the plan asks for; extra domains that read the same stay as they are. */
  function WithDomains(plan: ListenPlan, l: Listening): Listening {
    if plan.domain.None? then l
    else l.(domain := plan.domain.value, extra := if plan.extra != LowerAll(l.extra) then plan.extra else l.extra)
  }

  lemma DomainsThere(plan: ListenPlan, l: Listening)
    requires plan.domain.Some?
    ensures WithDomains(plan, l).domain == plan.domain.value && LowerAll(WithDomains(plan, l).extra) == LowerAll(plan.extra)
  {
    LowerAllTwice(l.extra);
  }

  function UndoOf(plan: ListenPlan, l: Listening, portChanged: bool): ListenUndo {
    ListenUndo(
      if plan.domain.Some? && plan.domain.value != l.domain then Some(l.domain) else None,
      if plan.domain.Some? && plan.extra != LowerAll(l.extra) then Some(LowerAll(l.extra)) else None,
      if portChanged then Some(l.listeners) else None, if portChanged then l.linkPort else None)
  }

  lemma UndoReadsBack(l: Listening, now: Listening, undo: ListenUndo)
    requires undo.domain == None ==> now.domain == l.domain
    requires undo.domain.Some? ==> undo.domain.value == l.domain
    requires if undo.extra.Some? then undo.extra.value == LowerAll(l.extra) else now.extra == l.extra
    requires if undo.listeners.Some? then undo.listeners.value == l.listeners else now.listeners == l.listeners
    requires if undo.linkPort.Some? then undo.linkPort == l.linkPort else now.linkPort == l.linkPort
    ensures SameListening(Restored(undo, now), l)
  {
    LowerAllTwice(l.extra);
  }

  datatype Request = Request(
    profiles: Option<seq<Desired>>, managed: Option<string>, site: SitePlan, listen: ListenPlan,
    publicAddr: Option<string>, adTag: bool, policy: Option<PanelPolicy>)

  /** The request says something of the managed vhost. */
  predicate AsksVhost(req: Request) {
    || !req.site.NoSite? || req.publicAddr.Some?
    || (req.policy.Some? && (req.policy.value.basePath.Some? || req.policy.value.decoyResolve.Some?))
  }

  /** The users asked for can be served: there is a managed vhost, and no limit is over a ceiling of the node. */
  ghost predicate UsersFeasible(req: Request, n: Node) {
    req.profiles.Some? ==> HasManaged(n.vhosts, req.managed) && UnderCeilings(req.profiles.value, n.ceilings)
  }

  /** A port asks for a Fake-TLS listener to have it. */
  ghost predicate CanListen(plan: ListenPlan, l: Listening) {
    plan.port.Some? && plan.port.value != 0 ==> exists k :: 0 <= k < |l.listeners| && l.listeners[k].fakeTls
  }

  /** The rest asked for can be there: a managed vhost if it is about one, and a listener to give the port. */
  ghost predicate RestFeasible(req: Request, n: Node) {
    (AsksVhost(req) ==> HasManaged(n.vhosts, req.managed)) && CanListen(req.listen, n.listening)
  }

  /** The work on the users leaves it possible or not. */
  lemma RestFeasibleStill(req: Request, n: Node, m: Node)
    requires m.listening == n.listening && (m.vhosts == n.vhosts || ProfilesOnly(n.vhosts, m.vhosts, req.managed))
    ensures RestFeasible(req, n) <==> RestFeasible(req, m)
  {
    ProfilesOnlyIsNear(n.vhosts, m.vhosts, m.vhosts, req.managed);
    NearProtects(n.vhosts, m.vhosts, req.managed, "");
  }

  /** The vhost has what the request says of it. */
  ghost predicate AsAsked(req: Request, v: Vhost) {
    && (req.site.StaticSite? ==> v.decoy.Static?)
    && (req.site.HttpOrigin? ==> v.decoy.Upstream? && v.decoy.origin == req.site.origin)
    && (req.publicAddr.Some? ==> v.publicAddr == req.publicAddr.value)
    && (req.policy.Some? ==> OptionsHold(v, req.policy.value))
  }

  /** The managed vhost has the decoy of the plan, resolved as it says or else as before. */
  ghost predicate DecoyGiven(plan: SitePlan, managed: Option<string>, vs: seq<Vhost>, ws: seq<Vhost>) {
    |vs| == |ws| && forall i: nat :: IsManaged(ws, managed, i) ==> DecoyAsAsked(plan, vs[i].decoy, ws[i].decoy)
  }

  ghost predicate AddrGiven(want: Option<string>, managed: Option<string>, vhosts: seq<Vhost>) {
    want.Some? ==> forall i: nat :: IsManaged(vhosts, managed, i) ==> vhosts[i].publicAddr == want.value
  }

  ghost predicate OptionsGiven(policy: Option<PanelPolicy>, managed: Option<string>, vhosts: seq<Vhost>) {
    policy.Some? ==> forall i: nat :: IsManaged(vhosts, managed, i) ==> OptionsHold(vhosts[i], policy.value)
  }

  /** Another address leaves the decoy. */
  lemma DecoyStays(plan: SitePlan, managed: Option<string>, vs: seq<Vhost>, ws: seq<Vhost>, xs: seq<Vhost>, addr: bool)
    requires DecoyGiven(plan, managed, vs, ws) && Moved(ws, xs, managed, false, addr, false)
    ensures DecoyGiven(plan, managed, vs, xs)
  {
    forall i: nat | IsManaged(xs, managed, i)
      ensures DecoyAsAsked(plan, vs[i].decoy, xs[i].decoy)
    {
      assert IsManaged(ws, managed, i);
    }
  }

  /** Decoy and address, and then the options, leave the managed vhost as the request says. */
  lemma GivenDelivers(req: Request, vs: seq<Vhost>, ws: seq<Vhost>, xs: seq<Vhost>)
    requires SameProfiles(vs, ws) && DecoyGiven(req.site, req.managed, vs, ws) && AddrGiven(req.publicAddr, req.managed, ws)
    requires SameProfiles(ws, xs) && SameOrigins(ws, xs) && SameAddrs(ws, xs) && OptionsGiven(req.policy, req.managed, xs)
    requires AsksVhost(req) ==> HasManaged(vs, req.managed)
    ensures VhostDelivers(req, xs)
  {
    if AsksVhost(req) {
      var i: nat :| IsManaged(vs, req.managed, i);
      assert IsManaged(ws, req.managed, i) && IsManaged(xs, req.managed, i);
      assert Origin(ws[i].decoy) == Origin(xs[i].decoy);
      assert AsAsked(req, xs[i]);
    }
  }

  /** If the request says something of the managed vhost, there is one, and it has that. */
  ghost predicate VhostDelivers(req: Request, vhosts: seq<Vhost>) {
    AsksVhost(req) ==> exists i: nat :: IsManaged(vhosts, req.managed, i) && AsAsked(req, vhosts[i])
  }

  ghost predicate ListensAs(plan: ListenPlan, l: Listening) {
    && (plan.domain.Some? ==> l.domain == plan.domain.value && LowerAll(l.extra) == LowerAll(plan.extra))
    && (plan.port.Some? ==> HasPort(l.listeners, plan.port.value))
  }

  /** No quota was reset, unless one is among what cannot be undone or a reset is not known to be written down. */
  ghost predicate NoReset(irreversible: seq<Loss>, unchecked: nat, log: Quotas.Log, unchecked0: nat, log0: Quotas.Log) {
    unchecked0 <= unchecked && (irreversible == [] && unchecked == unchecked0 ==> log.resets == log0.resets)
  }

  lemma NoResetYet(irreversible: seq<Loss>, unchecked: nat, log: Quotas.Log)
    ensures NoReset(irreversible, unchecked, log, unchecked, log)
  {
  }

  lemma NoResetTwice(irreversible: seq<Loss>, unchecked: nat, log: Quotas.Log, irreversible': seq<Loss>, unchecked': nat, log': Quotas.Log,
                     unchecked0: nat, log0: Quotas.Log)
    requires NoReset(irreversible, unchecked, log, unchecked0, log0) && irreversible <= irreversible'
    requires unchecked <= unchecked' && (irreversible' == [] && unchecked' == unchecked ==> log'.resets == log.resets)
    ensures NoReset(irreversible', unchecked', log', unchecked0, log0)
  {
  }

  /** Everything but the users is as the request says. */
  ghost predicate Delivers(req: Request, n: Node, site: Site) {
    && (req.site.StaticSite? ==> site == req.site.files)
    && VhostDelivers(req, n.vhosts) && ListensAs(req.listen, n.listening) && n.middleProxy == req.adTag
    && (req.policy.Some? ==> WebPolicy.Meets(n.web, req.policy.value.carriers))
  }

  /** Of [web] the keys of the policy may be different, those it always speaks of and those it says something of. */
  ghost predicate WebRestSame(policy: Option<PanelPolicy>, a: WebPolicy.Table, b: WebPolicy.Table) {
    match policy
    case None => a == b
    case Some(p) =>
      && (forall name :: WebPolicy.Get(a, WebPolicy.Other(name)) == WebPolicy.Get(b, WebPolicy.Other(name)))
      && (forall name :: WebPolicy.Get(WebPolicy.TimeoutsOf(a), WebPolicy.Other(name))
                      == WebPolicy.Get(WebPolicy.TimeoutsOf(b), WebPolicy.Other(name)))
      && (p.carriers.carrierMethod.None? ==> WebPolicy.Get(a, WebPolicy.CarrierMethod) == WebPolicy.Get(b, WebPolicy.CarrierMethod))
      && (p.carriers.conveyor.None? ==> WebPolicy.Get(a, WebPolicy.Conveyor) == WebPolicy.Get(b, WebPolicy.Conveyor))
  }

  /** What the source makes of a request: the site is resolved as the policy says, and the domains are in lower case. */
  ghost predicate Coherent(req: Request) {
    && (req.site.HttpOrigin? && req.policy.Some? ==> req.site.resolve == req.policy.value.decoyResolve)
    && LowerAll(req.listen.extra) == req.listen.extra
  }

  /** The managed vhost has everything that is asked of it. */
  ghost predicate PlacesHold(req: Request, vhosts: seq<Vhost>) {
    DecoyGiven(req.site, req.managed, vhosts, vhosts) && AddrGiven(req.publicAddr, req.managed, vhosts)
    && OptionsGiven(req.policy, req.managed, vhosts)
  }

  /** Everything asked for is there already, and the file says so of the users. */
  ghost predicate InPlace(req: Request, n: Node, site: Site, file: State) {
    && (req.profiles.Some? ==> Quiet(file, n, req.profiles.value, req.managed))
    && RestInPlace(req, n, site)
  }

  ghost predicate RestInPlace(req: Request, n: Node, site: Site) {
    && (req.site.StaticSite? ==> site == req.site.files)
    && PlacesHold(req, n.vhosts) && ListensAs(req.listen, n.listening) && n.middleProxy == req.adTag
    && (req.policy.Some? ==> WebPolicy.Meets(n.web, req.policy.value.carriers))
  }

  /** Options given after the decoy and the address leave them as they are asked for. */
  lemma PlacesHoldAfter(req: Request, vs: seq<Vhost>, ws: seq<Vhost>)
    requires Coherent(req) && DecoyGiven(req.site, req.managed, vs, ws) && AddrGiven(req.publicAddr, req.managed, ws)
    requires req.policy.Some? && HasOptions(req.policy.value) ==> VhostIndex(ws, req.managed).Some?
    ensures PlacesHold(req, if req.policy.Some? then GiveOptions(ws, req.managed, req.policy.value) else ws)
  {
    var xs := if req.policy.Some? then GiveOptions(ws, req.managed, req.policy.value) else ws;
    if req.policy.Some? {
      OptionsMoved(ws, req.managed, req.policy.value);
    }
    forall i: nat | IsManaged(xs, req.managed, i)
      ensures DecoyAsAsked(req.site, xs[i].decoy, xs[i].decoy)
      ensures req.publicAddr.Some? ==> xs[i].publicAddr == req.publicAddr.value
    {
      assert IsManaged(ws, req.managed, i);
      assert DecoyAsAsked(req.site, vs[i].decoy, ws[i].decoy);
      ManagedIff(ws, req.managed, i);
    }
  }

  /** What the request does not speak of is as it was, but for the users and the profiles. */
  ghost predicate RestSame(req: Request, n: Node, site: Site, m: Node, site': Site) {
    && (!req.site.StaticSite? ==> site' == site) && m.ceilings == n.ceilings
    && VhostsMoved(req, n.vhosts, m.vhosts)
    && ListeningMoved(req.listen, n.listening, m.listening) && LinkFollows(req.listen, n.listening, m.listening)
    && WebRestSame(req.policy, n.web, m.web)
  }

  /** Nothing but the managed vhost is different, and of it nothing the request does not speak of. */
  ghost predicate VhostsMoved(req: Request, vs: seq<Vhost>, ws: seq<Vhost>) {
    && |vs| == |ws|
    && forall j :: 0 <= j < |vs| ==>
         && vs[j].host == ws[j].host && (IsManaged(vs, req.managed, j) || vs[j] == ws[j])
         && (req.profiles.None? ==> vs[j].profiles == ws[j].profiles)
         && (req.site.NoSite? && (req.policy.None? || req.policy.value.decoyResolve.None?) ==> vs[j].decoy == ws[j].decoy)
         && (req.publicAddr.None? ==> vs[j].publicAddr == ws[j].publicAddr)
         && (req.policy.None? || req.policy.value.basePath.None? ==> vs[j].basePath == ws[j].basePath)
  }

  /** The work on the users changes the profiles of the managed vhost at most. */
  lemma RestSameAfterUsers(req: Request, n: Node, mid: Node, site: Site, m: Node, site': Site)
    requires mid == n.(users := mid.users, vhosts := mid.vhosts) && (req.profiles.None? ==> mid == n)
    requires mid.vhosts == n.vhosts || ProfilesOnly(n.vhosts, mid.vhosts, req.managed)
    requires RestSame(req.(profiles := None), mid, site, m, site')
    ensures RestSame(req, n, site, m, site')
  {
    ProfilesOnlyIsNear(n.vhosts, mid.vhosts, mid.vhosts, req.managed);
    NearProtects(n.vhosts, mid.vhosts, req.managed, "");
  }

  datatype Result = Applied | Refused | RolledBack(restored: bool)

  function Profiles(req: Request): seq<Desired> {
    if req.profiles.Some? then req.profiles.value else []
  }

  /** What there is at one time; `late` is the last call of an apply that was told to have failed and took effect. */
  datatype Moment = Moment(node: Node, site: Site, file: State, late: Option<Late>, misread: nat)

  /** The result of an apply is true. */
  ghost predicate Honest(req: Request, result: Result, before: Moment, after: Moment) {
    var ds := Profiles(req);
    && before.misread <= after.misread
    // A refused apply changed nothing.
    && (result == Refused ==> after == before)
    && (result == RolledBack(true) ==> Reverted(before, after))
    // One that says that it was applied delivers what was asked for; the desired users have their goals exactly if the
    // fingerprint file fitted them or could not be read.
    && (result == Applied ==> Delivers(req, after.node, after.site) && RestSame(req, before.node, before.site, after.node, after.site))
    && (result == Applied && req.profiles.None? ==> after.node.users == before.node.users)
    && (result == Applied && req.profiles.Some? ==>
          && Orderly(after.node, ds, req.managed)
          && (Served(after.node, ds, req.managed) <==> FitsAll(before.file, before.node.users, ds) || after.misread > before.misread))
    // A file that fitted the request still does, and users that others refer to are left alone.
    && (FitsAll(before.file, before.node.users, ds) ==> FitsAll(after.file, after.node.users, ds))
    && Near(before.node.vhosts, after.node.vhosts, req.managed) && KeepsProtected(before.node, after.node.users, ds, req.managed)
  }

  /**
   What it means that an apply says that it was undone: the node is as it was exactly if no call that was told to
   have failed left something behind. The site and the listeners are in any case, and the vhosts but for a late
   patch of the profiles.
   */
  ghost predicate Reverted(before: Moment, after: Moment) {
    && (SameNode(after.node, before.node) <==> Harmless(after.late))
    && after.site == before.site && SameListening(after.node.listening, before.node.listening)
    && (after.node.vhosts == before.node.vhosts || AtProfiles(after.late, before.node.vhosts, after.node.vhosts))
  }

  lemma RefusedIsHonest(req: Request, m: Moment)
    ensures Honest(req, Refused, m, m)
  {
  }

  lemma AppliedIsHonest(req: Request, before: Moment, after: Moment)
    requires before.misread <= after.misread
    requires Delivers(req, after.node, after.site) && RestSame(req, before.node, before.site, after.node, after.site)
    requires req.profiles.None? ==> after.node.users == before.node.users
    requires req.profiles.Some? ==>
               && Orderly(after.node, Profiles(req), req.managed)
               && (Given(Profiles(req), after.node.users) <==>
                     FitsAll(before.file, before.node.users, Profiles(req)) || after.misread > before.misread)
    requires FitStays(Profiles(req), before.file, before.node.users, after.file, after.node.users)
    requires Near(before.node.vhosts, after.node.vhosts, req.managed)
    requires KeepsProtected(before.node, after.node.users, Profiles(req), req.managed)
    ensures Honest(req, Applied, before, after)
  {
  }

  /** The apply says that it was undone, and left nothing behind. */
  ghost predicate Undone(result: Result, after: Moment) {
    result == Refused || (result == RolledBack(true) && Harmless(after.late))
  }

  /** Every result of a run is true of the node it was given for. */
  ghost predicate AllHonest(reqs: seq<Request>, results: seq<Result>, trace: seq<Moment>) {
    && |results| <= |reqs| && |trace| == |results| + 1
    && forall k :: 0 <= k < |results| ==> Honest(reqs[k], results[k], trace[k], trace[k + 1])
  }

  lemma OneMoreHonest(reqs: seq<Request>, results: seq<Result>, trace: seq<Moment>, result: Result, now: Moment)
    requires AllHonest(reqs, results, trace) && |results| < |reqs|
    requires Honest(reqs[|results|], result, trace[|results|], now)
    ensures AllHonest(reqs, results + [result], trace + [now])
  {
    var rs, ts := results + [result], trace + [now];
    forall k | 0 <= k < |rs|
      ensures Honest(reqs[k], rs[k], ts[k], ts[k + 1])
    {
      assert ts[k] == trace[k] && (k < |results| ==> rs[k] == results[k] && ts[k + 1] == trace[k + 1]);
    }
  }

  /** A run of applies that were refused or undone without a late effect left nothing behind. */
  lemma {:induction false} UndoneRun(reqs: seq<Request>, results: seq<Result>, trace: seq<Moment>, n: nat)
    requires AllHonest(reqs, results, trace) && n <= |results| && forall k :: 0 <= k < n ==> Undone(results[k], trace[k + 1])
    ensures trace[n].site == trace[0].site && SameNode(trace[n].node, trace[0].node)
  {
    if n == 0 {
      SameNodeSelf(trace[0].node);
    } else {
      UndoneRun(reqs, results, trace, n - 1);
      assert Honest(reqs[n - 1], results[n - 1], trace[n - 1], trace[n]) && Undone(results[n - 1], trace[n]);
      SameNodeSelf(trace[n].node);
      SameNodeTwice(trace[n].node, trace[n - 1].node, trace[0].node);
    }
  }

  ghost predicate CanMoveOn(reqs: seq<Request>, from: nat, latest: map<Name, nat>) {
    forall k :: from <= k < |reqs| ==> AllMoveOn(Profiles(reqs[k]), latest)
  }

  /** No request asks a user for an earlier period than one before it. */
  ghost predicate NeverBack(reqs: seq<Request>) {
    forall a, b :: 0 <= a < b < |reqs| ==> NoEarlier(Profiles(reqs[a]), Profiles(reqs[b]))
  }

  lemma RestCanMoveOn(reqs: seq<Request>, n: nat, latest0: map<Name, nat>, back0: nat, latest: map<Name, nat>, back: nat)
    requires n < |reqs| && Advances(Profiles(reqs[n]), latest0, back0, latest, back)
    ensures NeverBack(reqs) && CanMoveOn(reqs, n, latest0) ==> CanMoveOn(reqs, n + 1, latest) && back == back0
  {
    if NeverBack(reqs) && CanMoveOn(reqs, n, latest0) {
      forall k | n + 1 <= k < |reqs|
        ensures AllMoveOn(Profiles(reqs[k]), latest)
      {
        LaterMovesOn(Profiles(reqs[n]), Profiles(reqs[k]), latest0, back0, latest, back);
      }
    }
  }

  class Agent {
    // The node, as its control API shows it, and the decoy site.
    var node: Node
    var site: Site
    // The fingerprint file.
    var file: State
    var rb: Rollback
    // The last call of this apply that was told to have failed and took effect.
    ghost var late: Option<Late>
    // Files that could not be read, resets whose checkpoint is not known to be written, and periods that were asked
    // for after a later one.
    ghost var misread: nat
    ghost var unchecked: nat
    ghost var stepsBack: nat
    // A forward step left a profile without its user.
    ghost var dangling: bool
    ghost var quotas: Quotas.Log
    // What went wrong: calls that failed, answers that could not be read, and checks that are not part of this model
    // and turned a step down.
    ghost var faults: nat
    // Requests that change something, sent to telemt or made on the site.
    ghost var sent: nat

    constructor (found: Node, decoy: Site)
      ensures node == found && site == decoy && file == NOTHING && Valid() && !dangling && unchecked == 0 && stepsBack == 0
      ensures quotas == Quotas.Log([], map[], map[])
    {
      node, site, file, rb, late := found, decoy, NOTHING, UNTOUCHED, None;
      misread, unchecked, stepsBack, dangling, faults, sent := 0, 0, 0, false, 0, 0;
      quotas := Quotas.Log([], map[], map[]);
    }

    /**
     In every state an agent comes to the resets follow the periods, as long as every checkpoint is known to be
     written and no period was asked for after a later one.
     */
    ghost predicate Valid()
      reads this`unchecked, this`stepsBack, this`quotas, this`file
    {
      unchecked == 0 && stepsBack == 0 ==> Quotas.Sound(quotas, file.quotas)
    }

    // ---- calls -------------------------------------------------------------------------------

    /** A mutating call: `after` is the node it makes. */
    method Call(ghost step: Step, after: Node) returns (ok: bool)
      modifies this`node, this`late, this`dangling, this`faults, this`sent
      ensures faults >= old(faults) && (ok <==> faults == old(faults))
      ensures ok ==> node == after && late == old(late)
      ensures !ok ==>
                (node == old(node) && late == old(late)) || (node == after && late == Some(Late(step, old(node), after)))
      ensures dangling ==> old(dangling) || !Integral(node)
      ensures old(dangling) ==> dangling
      ensures sent == old(sent) + 1
    {
      sent := sent + 1;
      ok := *;
      if !ok {
        faults := faults + 1;
      }
      var took: bool := *;
      if ok || took {
        if !ok {
          late := Some(Late(step, node, after));
        }
        node := after;
        dangling := dangling || !Integral(node);
      }
    }

    /** Resets the traffic counter of a user, which is not part of the configuration. */
    method ResetQuota(d: Desired) returns (ok: bool)
      modifies this`quotas, this`unchecked, this`faults, this`sent
      ensures faults >= old(faults) && (ok <==> faults == old(faults))
      ensures ok ==>
                quotas == old(quotas).(resets := old(quotas).resets + [(d.name, d.quotaReset)]) && unchecked == old(unchecked)
      ensures !ok ==> || (quotas == old(quotas) && unchecked == old(unchecked))
                      || (quotas == old(quotas).(resets := old(quotas).resets + [(d.name, d.quotaReset)]) && unchecked == old(unchecked) + 1)
      ensures sent == old(sent) + 1
    {
      sent := sent + 1;
      ok := *;
      if !ok {
        faults := faults + 1;
      }
      var took: bool := *;
      if ok || took {
        quotas := quotas.(resets := quotas.resets + [(d.name, d.quotaReset)]);
        if !ok {
          unchecked := unchecked + 1;
        }
      }
    }

    method ReadState() returns (st: State)
      modifies this`misread
      ensures (st == file && misread == old(misread)) || (st == NOTHING && misread == old(misread) + 1)
    {
      var readable: bool := *;
      if readable {
        st := file;
      } else {
        st := NOTHING;
        misread := misread + 1;
      }
    }

    method WriteState(st: State) returns (ok: bool)
      modifies this`file, this`faults
      ensures faults >= old(faults) && (ok <==> faults == old(faults))
      ensures file == st || (!ok && file == old(file))
    {
      ok := *;
      if !ok {
        faults := faults + 1;
      }
      var took: bool := *;
      if ok || took {
        file := st;
      }
    }

    // ---- users -------------------------------------------------------------------------------

    /** Writes a completed reset into the file, keeping the old fingerprints. */
    method Checkpoint(d: Desired, st0: State) returns (ok: bool, st: State)
      requires st0 == file && QuotaDue(st0, d)
      requires unchecked == 0 && stepsBack == 0 ==>
                 exists before: Quotas.Log ::
                   && Quotas.Sound(before, file.quotas) && d.name in before.latest && before.latest[d.name] == d.quotaReset
                   && quotas == before.(resets := before.resets + [(d.name, d.quotaReset)])
      modifies this`file, this`unchecked, this`faults
      ensures faults >= old(faults) && (ok <==> faults == old(faults))
      ensures Valid() && unchecked >= old(unchecked)
      ensures st == st0.(quotas := st0.quotas[d.name := d.quotaReset])
      ensures if ok then file == st else file == st || file == old(file)
    {
      st := st0.(quotas := st0.quotas[d.name := d.quotaReset]);
      if unchecked == 0 && stepsBack == 0 {
        ghost var before: Quotas.Log :|
          && Quotas.Sound(before, file.quotas) && d.name in before.latest && before.latest[d.name] == d.quotaReset
          && quotas == before.(resets := before.resets + [(d.name, d.quotaReset)]);
        Quotas.ResetIsSound(before, file.quotas, d.name, d.quotaReset);
      }
      ok := WriteState(st);
      if !ok {
        unchecked := unchecked + 1;
      }
    }

    /** The user's quota period, if a new one has come. */
    method ResetIfDue(d: Desired, st0: State, ghost start: Node) returns (ok: bool, st: State, changed: bool)
      requires Valid() && (st0 == file || st0 == NOTHING) && Reverts(rb, node, None, start)
      requires d.quotaReset > 0 ==> d.name in quotas.latest && quotas.latest[d.name] == d.quotaReset
      modifies this`file, this`unchecked, this`quotas, this`rb, this`faults, this`sent
      ensures faults >= old(faults) && (ok <==> faults == old(faults))
      ensures Valid() && unchecked >= old(unchecked) && Reverts(rb, node, None, start)
      ensures quotas == old(quotas) || quotas == old(quotas).(resets := old(quotas).resets + [(d.name, d.quotaReset)])
      ensures ok && QuotaDue(st0, d) ==> quotas.resets == old(quotas).resets + [(d.name, d.quotaReset)]
                                         && st == file == st0.(quotas := st0.quotas[d.name := d.quotaReset])
      ensures (st.secrets, st.limits) == (st0.secrets, st0.limits)
      ensures (file.secrets, file.limits) == (old(file.secrets), old(file.limits))
      ensures !QuotaDue(st0, d) ==>
                ok && !changed && st == st0 && file == old(file) && rb == old(rb) && quotas == old(quotas)
      ensures QuotaDue(st0, d) && ok ==> changed
      ensures rb == old(rb) || rb == old(rb).(irreversible := old(rb.irreversible) + [QuotaReset(d.name)])
      ensures sent >= old(sent) && (ok && !changed ==> sent == old(sent)) && (changed ==> sent > old(sent))
      ensures NoReset(rb.irreversible, unchecked, quotas, old(unchecked), old(quotas))
      ensures old(rb.irreversible) <= rb.irreversible
    {
      ok, st, changed := true, st0, false;
      if QuotaDue(st0, d) {
        ghost var before := quotas;
        ok := ResetQuota(d);
        if !ok {
          return;
        }
        ResetReverts(rb, node, start, d.name);
        rb := rb.(irreversible := rb.irreversible + [QuotaReset(d.name)]);
        changed := true;
        assert unchecked == 0 && stepsBack == 0 ==> Quotas.Sound(before, file.quotas);
        ok, st := Checkpoint(d, st0);
      }
    }

    /**
     What the loop over the desired users does for one of them. Success brings the user to its goal exactly if
     the file fitted it.
     */
    method GiveUser(d: Desired, st0: State, ghost start: Node) returns (ok: bool, st: State, changed: bool)
      requires Wellformed(d.policy) && Valid() && (st0 == file || st0 == NOTHING)
      requires d.quotaReset > 0 ==> d.name in quotas.latest && quotas.latest[d.name] == d.quotaReset
      requires late == None && Reverts(rb, node, None, start) && (d.name in node.users ==> d.name in start.users)
      modifies this`node, this`file, this`late, this`unchecked, this`quotas
      modifies this`rb, this`dangling, this`faults, this`sent
      ensures faults >= old(faults) && (ok <==> faults == old(faults))
      ensures Valid() && unchecked >= old(unchecked)
      ensures quotas.latest == old(quotas.latest) && quotas.first == old(quotas.first)
      ensures (st.secrets, st.limits) == (st0.secrets, st0.limits)
      ensures (file.secrets, file.limits) == (old(file.secrets), old(file.limits))
      ensures ok ==> st == file || (st0 == NOTHING == st && file == old(file))
      ensures node == old(node).(users := node.users) && OnlyAt(old(node.users), node.users, d.name)
      ensures Stepped(st0, old(node.users), node.users, d) && (ok ==> Reaches(st0, old(node.users), node.users, d))
      ensures !changed && ok <==> old(SendFor(st0, node.users, d)) == Nothing && !QuotaDue(st0, d)
      ensures !changed && ok ==> node == old(node) && file == old(file) && rb == old(rb)
      ensures Reverts(rb, node, late, start) && (ok ==> late == None)
      ensures rb == old(rb).(created := rb.created, irreversible := rb.irreversible)
      ensures rb.created == old(rb.created) || rb.created == old(rb.created) + [d.name]
      ensures dangling ==> old(dangling) || !Integral(node)
      ensures sent >= old(sent) && (ok && !changed ==> sent == old(sent)) && (changed ==> sent > old(sent))
      ensures NoReset(rb.irreversible, unchecked, quotas, old(unchecked), old(quotas))
      ensures old(rb.irreversible) <= rb.irreversible
    {
      hide Reverts;
      ok, st, changed := true, st0, false;
      if d.name !in node.users {
        ok := CreateUser(d, start);
        changed := ok;
        return;
      }
      ok, st, changed := ResetIfDue(d, st0, start);
      if !ok {
        return;
      }
      var moved;
      ok, moved := PatchUser(d, st, start);
      changed := changed || moved;
    }

    /** Sends an existing user what the file or the node says that it lacks. */
    method PatchUser(d: Desired, st: State, ghost start: Node) returns (ok: bool, changed: bool)
      requires Wellformed(d.policy) && d.name in node.users && d.name in start.users
      requires late == None && Reverts(rb, node, None, start)
      modifies this`node, this`late, this`rb, this`dangling, this`faults, this`sent
      ensures faults >= old(faults) && (ok <==> faults == old(faults))
      ensures node == old(node).(users := node.users) && OnlyAt(old(node.users), node.users, d.name)
      ensures Stepped(st, old(node.users), node.users, d) && (ok ==> Reaches(st, old(node.users), node.users, d))
      ensures !changed && ok <==> old(SendFor(st, node.users, d)) == Nothing
      ensures !changed && ok ==> node == old(node) && rb == old(rb)
      ensures Reverts(rb, node, late, start) && (ok ==> late == None)
      ensures rb == old(rb).(irreversible := rb.irreversible)
      ensures dangling ==> old(dangling) || !Integral(node)
      ensures sent >= old(sent) && (ok && !changed ==> sent == old(sent)) && (changed ==> sent > old(sent))
      ensures old(rb.irreversible) <= rb.irreversible
    {
      hide Reverts;
      SentReachesIff(st, node.users, d);
      var secretChanged, policyChanged := SecretChanged(st, d), PolicyChanged(st, node.users[d.name], d);
      if !secretChanged && !policyChanged {
        return true, false;
      }
      var user := Patched(node.users[d.name], PatchRequest(d.policy, if secretChanged then Some(d.secret) else None));
      PatchReverts(rb, node, start, d.name, user);
      ok := Call(Patching(d.name), node.(users := node.users[d.name := user]));
      changed := ok;
      if ok {
        rb := rb.(irreversible := rb.irreversible + [UserPatched(d.name)]);
      }
    }

    method CreateUser(d: Desired, ghost start: Node) returns (ok: bool)
      requires Wellformed(d.policy) && d.name !in node.users
      requires late == None && Reverts(rb, node, None, start)
      modifies this`node, this`late, this`rb, this`dangling, this`faults, this`sent
      ensures faults >= old(faults) && (ok <==> faults == old(faults))
      ensures node == old(node).(users := node.users)
      ensures node.users == old(node.users) || node.users == old(node.users)[d.name := Goal(d)]
      ensures ok ==> node.users == old(node.users)[d.name := Goal(d)]
      ensures Reverts(rb, node, late, start) && (ok ==> late == None)
      ensures rb == old(rb).(created := rb.created) && rb.created == if ok then old(rb.created) + [d.name] else old(rb.created)
      ensures dangling ==> old(dangling) || !Integral(node)
      ensures sent > old(sent)
    {
      hide Reverts;
      CreateGivesPolicy(d.policy, d.secret);
      CreationReverts(rb, node, start, d.name, Goal(d));
      ok := Call(Creating(d.name), node.(users := node.users[d.name := Created(CreateRequest(d.policy, d.secret))]));
      if ok {
        rb := rb.(created := rb.created + [d.name]);
      }
    }

    /** The periods of the first `k` users were asked for, and `next` notes what they are given. */
    ghost predicate AskedUpTo(ds: seq<Desired>, k: nat, next: State, latest0: map<Name, nat>, back0: nat)
      requires k <= |ds|
      reads this`unchecked, this`stepsBack, this`quotas, this`file
    {
      Valid() && Advances(ds, latest0, back0, quotas.latest, stepsBack) && Records(next, ds, k, quotas.latest)
    }

    /** Notes a user's fingerprints and quota period for the file. */
    method Noted(next0: State, d: Desired, ghost ds: seq<Desired>, ghost k: nat, ghost latest0: map<Name, nat>, ghost back0: nat)
      returns (next: State)
      requires Proper(ds) && k < |ds| && d == ds[k] && AskedUpTo(ds, k, next0, latest0, back0)
      modifies this`quotas, this`stepsBack
      ensures AskedUpTo(ds, k + 1, next, latest0, back0) && quotas == Quotas.Asked(old(quotas), d)
      ensures d.quotaReset > 0 ==> d.name in quotas.latest && quotas.latest[d.name] == d.quotaReset
    {
      AskedAdvances(ds, latest0, back0, quotas.latest, stepsBack, k);
      if !Quotas.MovesOn(quotas.latest, d) {
        stepsBack := stepsBack + 1;
      } else if unchecked == 0 && stepsBack == 0 {
        Quotas.AskedIsSound(quotas, file.quotas, d);
      }
      NoteRecords(next0, ds, k, quotas.latest);
      quotas := Quotas.Asked(quotas, d);
      next := Note(next0, d);
    }

    /**
     The first `k` users have been given what they are due; `node0` and `file0` are from before, `st0` is what was
     read of the file.
     */
    ghost predicate GivenUpTo(ds: seq<Desired>, k: nat, st0: State, st: State, node0: Node, file0: State)
      requires k <= |ds|
      reads this`node, this`file, this`late, this`rb
    {
      && (st == file || (st0 == NOTHING == st && file == file0)) && (st.secrets, st.limits) == (st0.secrets, st0.limits)
      && (file.secrets, file.limits) == (file0.secrets, file0.limits)
      && node == node0.(users := node.users) && OthersSame(ds, node0.users, node.users)
      && Progress(ds, k, st0, node0.users, node.users)
      && late == None && Reverts(rb, node, None, node0) && AllNamed(ds, rb.created)
    }

    /** What the loop over the users may have done wherever it stops. */
    ghost predicate GivenSome(ds: seq<Desired>, st0: State, node0: Node, file0: State)
      reads this`node, this`file, this`late, this`rb
    {
      && (file.secrets, file.limits) == (file0.secrets, file0.limits)
      && node == node0.(users := node.users) && OthersSame(ds, node0.users, node.users)
      && AllStepped(st0, node0.users, node.users, ds)
      && Reverts(rb, node, late, node0) && AllNamed(ds, rb.created)
    }

    /** One round of the loop over the desired users. */
    method GiveNext(ds: seq<Desired>, k: nat, ghost st0: State, st: State, ghost node0: Node, ghost file0: State)
      returns (ok: bool, st': State, changed: bool)
      requires Proper(ds) && k < |ds| && Valid() && GivenUpTo(ds, k, st0, st, node0, file0)
      requires ds[k].quotaReset > 0 ==> ds[k].name in quotas.latest && quotas.latest[ds[k].name] == ds[k].quotaReset
      modifies this`node, this`file, this`late, this`unchecked, this`quotas
      modifies this`rb, this`dangling, this`faults, this`sent
      ensures faults >= old(faults) && (ok <==> faults == old(faults))
      ensures Valid() && quotas.latest == old(quotas.latest)
      ensures GivenSome(ds, st0, node0, file0) && (ok ==> GivenUpTo(ds, k + 1, st0, st', node0, file0))
      ensures !changed && ok <==> old(Idle(st, node.users, ds[k]))
      ensures !changed && ok ==> node == old(node) && file == old(file) && rb == old(rb) && st' == st
      ensures rb == old(rb).(created := rb.created, irreversible := rb.irreversible)
      ensures old(Integral(node)) ==> Integral(node) && (dangling ==> old(dangling))
      ensures sent >= old(sent) && (ok && !changed ==> sent == old(sent)) && (changed ==> sent > old(sent))
      ensures unchecked >= old(unchecked) && (rb.irreversible == [] && unchecked == old(unchecked) ==> quotas.resets == old(quotas.resets))
      ensures old(rb.irreversible) <= rb.irreversible
    {
      hide Reverts, Valid, OthersSame, AllStepped;
      ghost var mid := node.users;
      assert SameAt(node0.users, mid, ds[k].name);
      ok, st', changed := GiveUser(ds[k], st, node0);
      StepKeeps(ds, k, st0, st, node0.users, mid, node.users);
      OneMoreNamed(ds, old(rb.created), k);
      GivenKeepsIntegral(old(node), node.users, ds[k]);
    }

    /** The loop over the desired users. */
    method GiveUsers(ds: seq<Desired>, st0: State) returns (ok: bool, next: State, changed: bool, stateMoved: bool)
      requires Proper(ds) && (st0 == file || st0 == NOTHING) && rb == UNTOUCHED && late == None && Valid()
      modifies this`node, this`file, this`late, this`unchecked, this`stepsBack
      modifies this`quotas, this`rb, this`dangling, this`faults, this`sent
      ensures faults >= old(faults) && (ok <==> faults == old(faults))
      ensures Valid() && Advances(ds, old(quotas.latest), old(stepsBack), quotas.latest, stepsBack)
      ensures GivenSome(ds, st0, old(node), old(file))
      ensures ok ==>
                Progress(ds, |ds|, st0, old(node.users), node.users) && Records(next, ds, |ds|, quotas.latest) && late == None
      ensures ok && !changed <==> AllIdle(st0, old(node.users), ds)
      ensures ok && !changed ==> node == old(node) && file == old(file) && rb == old(rb)
      ensures rb == UNTOUCHED.(created := rb.created, irreversible := rb.irreversible)
      ensures old(Integral(node)) ==> Integral(node) && (dangling ==> old(dangling))
      ensures sent >= old(sent) && (ok && !changed ==> sent == old(sent)) && (changed ==> sent > old(sent))
      ensures NoReset(rb.irreversible, unchecked, quotas, old(unchecked), old(quotas))
      ensures ok && !changed ==> (stateMoved <==> !PeriodsKept(st0, ds, |ds|))
    {
      hide Reverts, Valid, Advances, Records, Progress, AllStepped, OthersSame, Integral, SendFor, AllNamed, Idle,
        PeriodsKept, NoReset, PeriodOf, IdleUpTo, AllIdle;
      var st := st0;
      ok, next, changed, stateMoved := true, NOTHING, false, false;
      UntouchedReverts(node);
      IdleEnds(st0, node.users, ds);
      NoResetYet(rb.irreversible, unchecked, quotas);
      NothingYet(ds, st0, node.users, quotas.latest, stepsBack);
      for k := 0 to |ds|
        invariant AskedUpTo(ds, k, next, old(quotas.latest), old(stepsBack))
        invariant GivenUpTo(ds, k, st0, st, old(node), old(file))
        invariant !changed ==> node == old(node) && file == old(file) && rb == old(rb) && st == st0
        invariant !changed <==> IdleUpTo(st0, old(node.users), ds, k)
        invariant rb == UNTOUCHED.(created := rb.created, irreversible := rb.irreversible) && faults == old(faults)
        invariant sent >= old(sent) && (changed <==> sent > old(sent))
        invariant NoReset(rb.irreversible, unchecked, quotas, old(unchecked), old(quotas))
        invariant !changed ==> (stateMoved <==> !PeriodsKept(st0, ds, k))
        invariant old(Integral(node)) ==> Integral(node) && (dangling ==> old(dangling))
      {
        stateMoved := stateMoved || PeriodOf(st, ds[k].name) != ds[k].quotaReset;
        OneMorePeriod(st0, ds, k);
        OneMoreIdle(st0, old(node.users), ds, k);
        ghost var irreversible, unchecked', log := rb.irreversible, unchecked, quotas;
        var moved;
        next := Noted(next, ds[k], ds, k, old(quotas.latest), old(stepsBack));
        ok, st, moved := GiveNext(ds, k, st0, st, old(node), old(file));
        changed := changed || moved;
        NoResetTwice(irreversible, unchecked', log, rb.irreversible, unchecked, quotas, old(unchecked), old(quotas));
        if !ok {
          NotIdle(st0, old(node.users), ds, k + 1);
          return;
        }
      }
      ProgressIsStepped(ds, |ds|, st0, old(node.users), node.users);
    }

    /** The loop, and what it comes to: goals reached exactly if the file fitted, and a file that fitted still does. */
    method GiveAll(ds: seq<Desired>, st0: State) returns (ok: bool, next: State, changed: bool, stateMoved: bool)
      requires Proper(ds) && (st0 == file || st0 == NOTHING) && rb == UNTOUCHED && late == None && Valid()
      modifies this`node, this`file, this`late, this`unchecked, this`stepsBack
      modifies this`quotas, this`rb, this`dangling, this`faults, this`sent
      ensures faults >= old(faults) && (ok <==> faults == old(faults))
      ensures Valid() && Advances(ds, old(quotas.latest), old(stepsBack), quotas.latest, stepsBack) && AllNamed(ds, rb.created)
      ensures node == old(node).(users := node.users) && OthersSame(ds, old(node.users), node.users)
      ensures FitStays(ds, old(file), old(node.users), file, node.users)
      ensures ok ==> AllThere(ds, node.users) && Records(next, ds, |ds|, quotas.latest) && late == None
      ensures ok ==> (Given(ds, node.users) <==> FitsAll(st0, old(node.users), ds))
      ensures ok && !changed <==> AllIdle(st0, old(node.users), ds)
      ensures ok && !changed ==> node == old(node) && file == old(file) && rb == old(rb)
      ensures Reverts(rb, node, late, old(node)) && rb == UNTOUCHED.(created := rb.created, irreversible := rb.irreversible)
      ensures old(Integral(node)) ==> Integral(node) && (dangling ==> old(dangling))
      ensures sent >= old(sent) && (ok && !changed ==> sent == old(sent)) && (changed ==> sent > old(sent))
      ensures NoReset(rb.irreversible, unchecked, quotas, old(unchecked), old(quotas))
      ensures ok && !changed ==> (stateMoved <==> !PeriodsKept(st0, ds, |ds|))
    {
      hide Reverts, Valid;
      ok, next, changed, stateMoved := GiveUsers(ds, st0);
      SteppedFits(ds, old(file), st0, file, old(node.users), node.users);
      if ok {
        GivenIff(ds, st0, old(node.users), node.users);
      }
    }

    /** The profiles of the managed vhost. */
    method PutProfiles(ds: seq<Desired>, i: nat, ghost start: Node) returns (ok: bool, changed: bool)
      requires i < |node.vhosts| && AllThere(ds, node.users)
      requires late == None && Reverts(rb, node, None, start) && rb.prevVhosts == None
      modifies this`node, this`late, this`rb, this`dangling, this`faults, this`sent
      ensures faults >= old(faults) && (ok <==> faults == old(faults))
      ensures Reverts(rb, node, late, start) && (ok ==> late == None)
      ensures node == old(node) || node == old(node).(vhosts := WithProfiles(old(node.vhosts), i, ds))
      ensures ok ==> node.vhosts == WithProfiles(old(node.vhosts), i, ds)
      ensures rb == if changed then old(rb).(prevVhosts := Some(old(node.vhosts))) else old(rb)
      ensures ok ==> (changed <==> old(node.vhosts)[i].profiles != ProfilesOf(ds))
      ensures !ok ==> !changed && old(node.vhosts)[i].profiles != ProfilesOf(ds)
      ensures !changed && late == old(late) ==> node == old(node)
      ensures old(Integral(node)) ==> Integral(node) && (dangling ==> old(dangling))
      ensures sent >= old(sent) && (ok && !changed ==> sent == old(sent)) && (changed ==> sent > old(sent))
    {
      hide Reverts;
      var vhosts := WithProfiles(node.vhosts, i, ds);
      if node.vhosts[i].profiles == ProfilesOf(ds) {
        assert vhosts == node.vhosts;
        return true, false;
      }
      assert vhosts[i] != node.vhosts[i];
      ProfilesRevert(rb, node, start, vhosts, i);
      ProfilesKeepIntegral(node, i, ds);
      var prev := node.vhosts;
      ok := Call(SettingProfiles(i), node.(vhosts := vhosts));
      changed := ok;
      if ok {
        rb := rb.(prevVhosts := Some(prev));
      }
    }

    method ListUsers() returns (names: seq<Name>)
      ensures forall n :: n in names <==> n in node.users
    {
      names := [];
      var rest := node.users.Keys;
      while rest != {}
        invariant rest <= node.users.Keys && forall n :: n in names <==> n in node.users.Keys - rest
        decreases |rest|
      {
        var n :| n in rest;
        names, rest := names + [n], rest - {n};
      }
    }

    /** Deletes the users nobody wants any more. */
    method DeleteUnwanted(listed: seq<Name>, wanted: set<Name>, ghost start: Node) returns (ok: bool, changed: bool)
      requires late == None && Reverts(rb, node, None, start) && forall n :: n in listed ==> n in start.users
      modifies this`node, this`late, this`rb, this`dangling, this`faults, this`sent
      ensures faults >= old(faults) && (ok <==> faults == old(faults))
      ensures Reverts(rb, node, late, start) && (ok ==> late == None) && rb == old(rb).(irreversible := rb.irreversible)
      ensures node == old(node).(users := node.users)
      ensures forall n :: n in node.users ==> n in old(node.users) && node.users[n] == old(node.users)[n]
      ensures forall n :: n in old(node.users) && n !in node.users ==> n in listed && n !in wanted
      ensures ok ==> forall n :: n in listed && n !in wanted ==> n !in node.users
      ensures ok && !changed ==> node == old(node) && rb == old(rb)
      ensures (forall n :: n in listed ==> n in wanted) ==> ok && !changed
      ensures old(Integral(node)) && AllWanted(node.vhosts, wanted) ==> Integral(node) && (dangling ==> old(dangling))
      ensures sent >= old(sent) && (ok && !changed ==> sent == old(sent)) && (changed ==> sent > old(sent))
      ensures old(rb.irreversible) <= rb.irreversible
    {
      hide Reverts;
      ok, changed := true, false;
      for k := 0 to |listed|
        invariant late == None && Reverts(rb, node, None, start) && rb == old(rb).(irreversible := rb.irreversible)
        invariant node == old(node).(users := node.users)
        invariant forall n :: n in node.users ==> n in old(node.users) && node.users[n] == old(node.users)[n]
        invariant forall n :: n in old(node.users) && n !in node.users ==> n in listed[..k] && n !in wanted
        invariant forall j :: 0 <= j < k && listed[j] !in wanted ==> listed[j] !in node.users
        invariant !changed ==> node == old(node) && rb == old(rb)
        invariant changed ==> exists n :: n in listed && n !in wanted
        invariant faults == old(faults) && sent >= old(sent) && (changed <==> sent > old(sent)) && old(rb.irreversible) <= rb.irreversible
        invariant old(Integral(node)) && AllWanted(node.vhosts, wanted) ==> Integral(node) && (dangling ==> old(dangling))
      {
        if listed[k] !in wanted {
          DeletionReverts(rb, node, start, listed[k]);
          DeletionKeepsIntegral(node, wanted, listed[k]);
          ok := Call(Deleting(listed[k]), node.(users := node.users - {listed[k]}));
          if !ok {
            return;
          }
          changed := true;
          rb := rb.(irreversible := rb.irreversible + [UserDeleted(listed[k])]);
        }
      }
    }

    /** Profiles and deletions, once every user was given what was due. */
    method Rearrange(ds: seq<Desired>, managed: Option<string>, i: nat, listed: seq<Name>, ghost before: Node)
      returns (ok: bool, changed: bool)
      requires Proper(ds) && VhostIndex(before.vhosts, managed) == Some(i) && node == before.(users := node.users)
      requires AllThere(ds, node.users) && OthersSame(ds, before.users, node.users)
      requires forall n :: n in listed <==> n in before.users
      requires late == None && Reverts(rb, node, None, before) && rb.prevVhosts == None
      modifies this`node, this`late, this`rb, this`dangling, this`faults, this`sent
      ensures faults >= old(faults) && (ok <==> faults == old(faults))
      ensures node == before.(users := node.users, vhosts := node.vhosts)
      ensures node.vhosts == before.vhosts || node.vhosts == WithProfiles(before.vhosts, i, ds)
      ensures Reverts(rb, node, late, before) && (ok ==> late == None)
      ensures rb == old(rb).(prevVhosts := rb.prevVhosts, irreversible := rb.irreversible)
      ensures FitStays(ds, file, old(node.users), file, node.users) && KeepsProtected(before, node.users, ds, managed)
      ensures ok ==> Arranged(node, before, ds, managed) && (Given(ds, node.users) <==> Given(ds, old(node.users)))
      ensures ok && !changed ==> node == old(node) && rb == old(rb)
      ensures Settled(before, ds, managed, i) ==> ok && !changed
      ensures old(Integral(node)) && (managed.Some? || OthersCovered(before.vhosts, i, ds)) ==>
                Integral(node) && (dangling ==> old(dangling))
      ensures sent >= old(sent) && (ok && !changed ==> sent == old(sent)) && (changed ==> sent > old(sent))
      ensures old(rb.irreversible) <= rb.irreversible
    {
      hide Reverts, Given, Arranged, KeepsProtected, FitStays, OthersSame, AllWanted, OthersCovered, Integral,
        AllThere, ProfilesOf;
      ghost var mid := node.users;
      var wanted := WantedNames(node.vhosts, i, managed, ds);
      NobodyUnwanted(before, ds, managed, i);
      ok, changed := PutProfiles(ds, i, before);
      if ok {
        NeighboursAreWanted(before.vhosts, i, managed, ds);
        var moved;
        ok, moved := DeleteUnwanted(listed, wanted, before);
        changed := changed || moved;
      }
      AfterDeletions(before, mid, node, ds, managed, i, ok, file);
    }

    /**
     What the work on the users may have done wherever it stops, and what a rollback needs: `node0`, `latest0` and
     `back0` are from before. Users and vhosts are all that changed on the node; users that others refer to are
     left alone.
     */
    ghost predicate UsersMoved(ds: seq<Desired>, managed: Option<string>, node0: Node, latest0: map<Name, nat>, back0: nat)
      reads this
    {
      && Valid() && Advances(ds, latest0, back0, quotas.latest, stepsBack) && AllNamed(ds, rb.created)
      && node == node0.(users := node.users, vhosts := node.vhosts)
      && (node.vhosts == node0.vhosts || ProfilesOnly(node0.vhosts, node.vhosts, managed))
      && KeepsProtected(node0, node.users, ds, managed) && Reverts(rb, node, late, node0)
      && rb == UNTOUCHED.(created := rb.created, irreversible := rb.irreversible, prevVhosts := rb.prevVhosts)
    }

    /** The users, then the profiles, then the deletions. */
    method Converge(ds: seq<Desired>, managed: Option<string>, i: nat, listed: seq<Name>, st: State)
      returns (ok: bool, next: State, changed: bool, stateMoved: bool)
      requires Proper(ds) && (st == file || st == NOTHING) && rb == UNTOUCHED && late == None && Valid()
      requires VhostIndex(node.vhosts, managed) == Some(i) && forall n :: n in listed <==> n in node.users
      modifies this`node, this`file, this`late, this`unchecked, this`stepsBack
      modifies this`quotas, this`rb, this`dangling, this`faults, this`sent
      ensures faults >= old(faults) && (ok <==> faults == old(faults))
      ensures UsersMoved(ds, managed, old(node), old(quotas.latest), old(stepsBack)) && (ok ==> late == None)
      ensures FitStays(ds, old(file), old(node.users), file, node.users)
      ensures ok ==> Arranged(node, old(node), ds, managed) && Records(next, ds, |ds|, quotas.latest)
      ensures ok ==> (Given(ds, node.users) <==> FitsAll(st, old(node.users), ds))
      ensures ok && !changed ==> node == old(node) && file == old(file) && AllIdle(st, node.users, ds)
      ensures AllIdle(st, old(node.users), ds) && Settled(old(node), ds, managed, i) ==> ok && !changed
      ensures ok && !changed ==> rb == old(rb)
      ensures old(Integral(node)) && (managed.Some? || OthersCovered(old(node.vhosts), i, ds)) ==>
                Integral(node) && (dangling ==> old(dangling))
      ensures sent >= old(sent) && (ok && !changed ==> sent == old(sent)) && (changed ==> sent > old(sent))
      ensures NoReset(rb.irreversible, unchecked, quotas, old(unchecked), old(quotas))
      ensures ok && !changed ==> (stateMoved <==> !PeriodsKept(st, ds, |ds|))
    {
      hide Reverts, Valid, Advances, Records, Settled, AllIdle, Given, Arranged, FitsAll, PeriodsKept;
      ok, next, changed, stateMoved := GiveAll(ds, st);
      if ok {
        var moved;
        ok, moved := Rearrange(ds, managed, i, listed, old(node));
        changed := changed || moved;
      } else {
        PrunedKeeps(old(node), node.users, node.users, ds, managed, i);
      }
    }

    /** Writes down what the users were given. */
    method Record(next: State, ghost ds: seq<Desired>) returns (ok: bool)
      requires Proper(ds) && AllThere(ds, node.users) && Records(next, ds, |ds|, quotas.latest) && Valid()
      modifies this`file, this`faults
      ensures faults >= old(faults) && (ok <==> faults == old(faults))
      ensures Valid() && (file == old(file) || file == next)
      ensures ok ==> AllIdle(file, node.users, ds)
      ensures ok ==> file == next && PeriodsKept(file, ds, |ds|)
    {
      RecordsAreIdle(next, quotas.latest, node.users, ds);
      if unchecked == 0 && stepsBack == 0 {
        Quotas.LatestIsSound(quotas, file.quotas, next.quotas);
      }
      ok := WriteState(next);
    }

    /** Brings the users to the desired state on what was read of the file, and records it. */
    method ConvergeAndRecord(ds: seq<Desired>, managed: Option<string>, i: nat, listed: seq<Name>, st: State)
      returns (ok: bool, changed: bool, recorded: bool)
      requires Proper(ds) && (st == file || st == NOTHING) && rb == UNTOUCHED && late == None && Valid()
      requires VhostIndex(node.vhosts, managed) == Some(i) && forall n :: n in listed <==> n in node.users
      modifies this`node, this`file, this`late, this`unchecked, this`stepsBack
      modifies this`quotas, this`rb, this`dangling, this`faults, this`sent
      ensures faults >= old(faults) && (ok && recorded <==> faults == old(faults))
      ensures UsersMoved(ds, managed, old(node), old(quotas.latest), old(stepsBack)) && (ok ==> late == None)
      ensures FitStays(ds, old(file), old(node.users), file, node.users)
      ensures ok ==>
                Arranged(node, old(node), ds, managed) && (Given(ds, node.users) <==> FitsAll(st, old(node.users), ds))
      ensures ok && recorded ==> Quiet(file, node, ds, managed)
      ensures AllIdle(st, old(node.users), ds) && Settled(old(node), ds, managed, i) ==>
                !changed && node == old(node) && rb == old(rb) && sent == old(sent)
      ensures old(Integral(node)) && (managed.Some? || OthersCovered(old(node.vhosts), i, ds)) ==>
                Integral(node) && (dangling ==> old(dangling))
      ensures sent >= old(sent) && (ok && !changed ==> sent == old(sent)) && (changed ==> sent > old(sent))
      ensures NoReset(rb.irreversible, unchecked, quotas, old(unchecked), old(quotas))
      ensures ok && recorded && st == old(file) ==> PeriodsKept(file, ds, |ds|)
      ensures AllIdle(st, old(node.users), ds) && Settled(old(node), ds, managed, i) && PeriodsKept(st, ds, |ds|) ==>
                file == old(file)
    {
      hide Reverts, Valid, Advances, Records, FitsAll, FitStays, Settled, Integral, OthersCovered, KeepsProtected,
        Given, PeriodsKept, NoReset;
      recorded := false;
      NothingFits(node.users, ds);
      var next, stateMoved;
      ok, next, changed, stateMoved := Converge(ds, managed, i, listed, st);
      if !ok {
        return;
      }
      GivenFits(ds, old(file), old(node.users), st, next, node.users);
      if changed || stateMoved {
        recorded := Record(next, ds);
      } else {
        recorded := true;
      }
      if recorded {
        IsQuiet(file, node, old(node), ds, managed);
      }
    }

    /**
     Brings the users and their profiles to the desired state. `recorded` tells that the file says so too, or
     that there was nothing to write.
     */
    method ReconcileUsers(ds: seq<Desired>, managed: Option<string>) returns (ok: bool, changed: bool, recorded: bool)
      requires Proper(ds) && Valid() && rb == UNTOUCHED && late == None
      modifies this`node, this`file, this`late, this`misread, this`unchecked, this`stepsBack
      modifies this`quotas, this`rb, this`dangling, this`faults, this`sent
      // Without a fault it succeeds exactly if there is a managed vhost and no limit is over a ceiling of the node.
      ensures faults >= old(faults) && (ok && recorded ==> faults == old(faults))
      ensures faults == old(faults) ==>
                (ok <==> recorded) && (ok <==> HasManaged(old(node.vhosts), managed) && UnderCeilings(ds, old(node.ceilings)))
      ensures UsersMoved(ds, managed, old(node), old(quotas.latest), old(stepsBack)) && misread >= old(misread)
      // Success leaves exactly the desired users and the spared ones. It is convergence exactly if the file fitted
      // the goals or could not be read, and once it is on file the next apply has nothing to send.
      ensures ok ==> Arranged(node, old(node), ds, managed) && late == None
      ensures ok ==>
                (Reconciled(node, old(node), ds, managed) <==> old(FitsAll(file, node.users, ds)) || misread > old(misread))
      ensures ok && recorded ==> Quiet(file, node, ds, managed)
      ensures old(Quiet(file, node, ds, managed)) && misread == old(misread) ==>
                !changed && node == old(node) && rb == old(rb) && sent == old(sent)
      // Wherever it stops, a file that fitted still does, so that the same desired state can be applied again.
      ensures FitStays(ds, old(file), old(node.users), file, node.users)
      // No step leaves a profile without its user, unless the panel does not manage the vhost it is in.
      ensures old(Integral(node)) && VhostIndex(old(node.vhosts), managed).Some?
              && (managed.Some? || OthersCovered(old(node.vhosts), VhostIndex(old(node.vhosts), managed).value, ds)) ==>
                Integral(node) && (dangling ==> old(dangling))
      ensures sent >= old(sent) && (ok && !changed ==> sent == old(sent)) && (changed ==> sent > old(sent))
      ensures NoReset(rb.irreversible, unchecked, quotas, old(unchecked), old(quotas))
      // The file then remembers the periods asked for, and is not written where it already does and nothing is to be sent.
      ensures ok && recorded && misread == old(misread) ==> PeriodsKept(file, ds, |ds|)
      ensures old(Quiet(file, node, ds, managed) && PeriodsKept(file, ds, |ds|)) && misread == old(misread) ==>
                file == old(file)
    {
      hide Reverts, Valid, Advances, Arranged, Given, FitsAll, Integral, OthersCovered, Settled, AllIdle, HasManaged,
        Records, PeriodsKept, KeepsProtected, FitStays;
      ok, changed, recorded := false, false, false;
      KeepsItself(node, ds, managed);
      UntouchedReverts(node);
      NothingYet(ds, file, node.users, quotas.latest, stepsBack);
      var readable: bool := *;
      var index := VhostIndex(node.vhosts, managed);
      if !readable {
        faults := faults + 1;
        return;
      }
      HasManagedIff(node.vhosts, managed);
      if index.None? || !forall k :: 0 <= k < |ds| ==> LimitsFit(ds[k].limits, node.ceilings) {
        return;
      }
      var listed := ListUsers();
      var st := ReadState();
      NothingFits(node.users, ds);
      ok, changed, recorded := ConvergeAndRecord(ds, managed, index.value, listed, st);
    }

    // ---- the other steps ---------------------------------------------------------------------

    /** Deploys a static site. */
    method DeploySite(files: Site, ghost startSite: Site) returns (ok: bool)
      requires SiteKept(rb.siteBackup, site, startSite) && rb.siteBackup == None
      modifies this`site, this`rb, this`faults, this`sent
      ensures faults >= old(faults) && (ok <==> faults == old(faults))
      ensures SiteKept(rb.siteBackup, site, startSite) && rb == old(rb).(siteBackup := rb.siteBackup)
      ensures ok ==> site == files
      ensures sent >= old(sent) && (old(site) == files ==> ok && sent == old(sent) && rb == old(rb))
    {
      ok := true;
      if site == files {
        return;
      }
      var backup := site;
      // Neither the copy nor the atomic exchange leaves anything behind when it fails.
      sent := sent + 1;
      ok := *;
      if ok {
        site := files;
        rb := rb.(siteBackup := Some(backup));
      } else {
        faults := faults + 1;
      }
    }

    /** Puts one changed vhost on the node, after a snapshot of the vhosts if there is none yet. */
    method PutVhost(i: nat, v: Vhost, ghost start: Node) returns (ok: bool)
      requires late == None && Reverts(rb, node, None, start) && i < |node.vhosts|
      requires v.profiles == node.vhosts[i].profiles && v.host == node.vhosts[i].host
      modifies this`node, this`late, this`rb, this`dangling, this`faults, this`sent
      ensures faults >= old(faults) && (ok <==> faults == old(faults))
      ensures Reverts(rb, node, late, start) && (ok ==> late == None)
      ensures rb == old(rb).(prevVhosts := rb.prevVhosts) && node == old(node).(vhosts := node.vhosts)
      ensures node.vhosts == old(node.vhosts) || node.vhosts == old(node.vhosts)[i := v]
      ensures (ok ==> node.vhosts == old(node.vhosts)[i := v]) && SameProfiles(old(node.vhosts), node.vhosts)
      ensures sent == old(sent) + 1
    {
      hide Reverts;
      var vhosts := node.vhosts[i := v];
      VhostReverts(rb, node, start, vhosts);
      rb := WithSnapshot(rb, node.vhosts);
      ok := Call(SettingVhost, node.(vhosts := vhosts));
    }

    /** The decoy of the managed vhost. */
    method ReconcileDecoy(plan: SitePlan, managed: Option<string>, ghost start: Node)
      returns (ok: bool, changed: bool)
      requires late == None && Reverts(rb, node, None, start)
      modifies this`node, this`late, this`rb, this`dangling, this`faults, this`sent
      ensures faults >= old(faults) && (ok <==> faults == old(faults) && (plan == NoSite || HasManaged(old(node.vhosts), managed)))
      ensures Reverts(rb, node, late, start) && (ok ==> late == None)
      ensures rb == old(rb).(prevVhosts := rb.prevVhosts) && node == old(node).(vhosts := node.vhosts)
      ensures Moved(old(node.vhosts), node.vhosts, managed, !plan.NoSite?, false, false)
      ensures ok ==> DecoyGiven(plan, managed, old(node.vhosts), node.vhosts)
      ensures sent >= old(sent) && (ok ==> (changed <==> sent > old(sent)))
      ensures old(DecoyGiven(plan, managed, node.vhosts, node.vhosts)) ==>
                sent == old(sent) && node == old(node) && rb == old(rb)
    {
      hide Reverts;
      ok, changed := true, false;
      if plan == NoSite {
        return;
      }
      var readable: bool := *;
      var index := VhostIndex(node.vhosts, managed);
      if !readable {
        faults := faults + 1;
        return false, false;
      }
      HasManagedIff(node.vhosts, managed);
      if index.None? {
        return false, false;
      }
      var v := node.vhosts[index.value];
      var decoy := DecoyFor(plan, v.decoy);
      MovedAt(node.vhosts, managed, index.value, v.(decoy := decoy), true, false, false);
      if v.decoy != decoy {
        ok := PutVhost(index.value, v.(decoy := decoy), start);
        changed := ok;
      }
    }

    /** The public address of the managed vhost. */
    method ReconcilePublicAddr(want: Option<string>, managed: Option<string>, ghost start: Node)
      returns (ok: bool, changed: bool)
      requires late == None && Reverts(rb, node, None, start)
      modifies this`node, this`late, this`rb, this`dangling, this`faults, this`sent
      ensures faults >= old(faults) && (ok <==> faults == old(faults) && (want.None? || HasManaged(old(node.vhosts), managed)))
      ensures Reverts(rb, node, late, start) && (ok ==> late == None)
      ensures rb == old(rb).(prevVhosts := rb.prevVhosts, publicAddrChanged := rb.publicAddrChanged)
      ensures node == old(node).(vhosts := node.vhosts) && Moved(old(node.vhosts), node.vhosts, managed, false, want.Some?, false)
      ensures ok ==> AddrGiven(want, managed, node.vhosts)
      ensures sent >= old(sent) && (ok ==> (changed <==> sent > old(sent)))
      ensures old(AddrGiven(want, managed, node.vhosts)) ==> sent == old(sent) && node == old(node) && rb == old(rb)
      ensures sent > old(sent) ==> rb.publicAddrChanged
    {
      hide Reverts;
      ok, changed := true, false;
      if want.None? {
        return;
      }
      var readable: bool := *;
      var index := VhostIndex(node.vhosts, managed);
      if !readable {
        faults := faults + 1;
        return false, false;
      }
      HasManagedIff(node.vhosts, managed);
      if index.None? {
        return false, false;
      }
      var v := node.vhosts[index.value];
      MovedAt(node.vhosts, managed, index.value, v.(publicAddr := want.value), false, true, false);
      if v.publicAddr != want.value {
        RevertsAlso(rb, node, start, rb.(publicAddrChanged := true));
        rb := rb.(publicAddrChanged := true);
        ok := PutVhost(index.value, v.(publicAddr := want.value), start);
        changed := true;
      }
    }

    /** The middle proxy is on exactly when there is a sponsor tag. */
    method ReconcileMiddleProxy(want: bool, ghost start: Node) returns (ok: bool)
      requires late == None && Reverts(rb, node, None, start) && rb.prevMiddleProxy == None
      modifies this`node, this`late, this`rb, this`dangling, this`faults, this`sent
      ensures faults >= old(faults) && (ok <==> faults == old(faults))
      ensures Reverts(rb, node, late, start) && (ok ==> late == None)
      ensures rb == old(rb).(prevMiddleProxy := rb.prevMiddleProxy) && node == old(node).(middleProxy := node.middleProxy)
      ensures ok ==> node.middleProxy == want
      ensures sent >= old(sent) && (old(node.middleProxy) == want ==> sent == old(sent) && node == old(node) && rb == old(rb))
    {
      hide Reverts;
      // A conflict with the managed egress, or the config could not be read.
      var refused: bool := *;
      if refused {
        faults := faults + 1;
        return false;
      }
      if node.middleProxy == want {
        return true;
      }
      var cur := node.middleProxy;
      MiddleProxyReverts(rb, node, start, want);
      ok := Call(SettingMiddleProxy, node.(middleProxy := want));
      if ok {
        rb := rb.(prevMiddleProxy := Some(cur));
      }
    }

    /** One patch of the Fake-TLS side, on whose way back the undo record is already there. */
    method PutListening(l: Listening, ghost undo: ListenUndo, ghost start: Node) returns (ok: bool)
      requires late == None && Reverts(rb, node, None, start) && rb.prevListeners == Some(undo)
      requires SameListening(Restored(undo, l), start.listening)
      modifies this`node, this`late, this`dangling, this`faults, this`sent
      ensures faults >= old(faults) && (ok <==> faults == old(faults))
      ensures Reverts(rb, node, late, start) && (ok ==> late == None)
      ensures node == old(node) || node == old(node).(listening := l)
      ensures ok ==> node == old(node).(listening := l)
      ensures sent == old(sent) + 1
    {
      hide Reverts;
      ListenersRevert(rb, node, start, undo, l);
      ok := Call(SettingListeners, node.(listening := l));
    }

    /** The domains and the port of the Fake-TLS listener. */
    method ReconcileListeners(plan: ListenPlan, ghost start: Node)
      returns (ok: bool, changed: bool)
      requires late == None && Reverts(rb, node, None, start) && rb.prevListeners == None
      modifies this`node, this`late, this`rb, this`dangling, this`faults, this`sent
      ensures faults >= old(faults) && (ok <==> faults == old(faults) && CanListen(plan, old(node.listening)))
      ensures Reverts(rb, node, late, start) && (ok ==> late == None)
      ensures rb == old(rb).(prevListeners := rb.prevListeners) && node == old(node).(listening := node.listening)
      ensures ListeningMoved(plan, old(node.listening), node.listening)
      ensures ok ==> ListensAs(plan, node.listening) && LinkFollows(plan, old(node.listening), node.listening)
      ensures sent >= old(sent) && (ok ==> (changed <==> sent > old(sent)))
      ensures old(ListensAs(plan, node.listening)) && LowerAll(plan.extra) == plan.extra ==>
                sent == old(sent) && node == old(node) && rb == old(rb)
    {
      ok, changed := true, false;
      if plan.domain.None? && plan.port.None? {
        return;
      }
      // An invalid name or port, or the config could not be read.
      var refused: bool := *;
      if refused {
        faults := faults + 1;
        return false, false;
      }
      var l := node.listening;
      var k := FakeTlsAt(l.listeners, 0);
      var portChanged := plan.port.Some? && plan.port.value != PortOf(l);
      if plan.port.Some? {
        PortIff(l, plan.port.value);
      }
      var next := WithDomains(plan, l);
      if next == l && !portChanged {
        if plan.domain.Some? {
          DomainsThere(plan, l);
        }
        return;
      }
      if portChanged && k == |l.listeners| {
        return false, false;
      }
      rb := rb.(prevListeners := Some(UndoOf(plan, l, portChanged)));
      UndoReadsBack(l, l, UndoOf(plan, l, portChanged));
      assert Reverts(rb, node, None, start);
      changed := true;
      ok := PatchListening(plan, l, k, portChanged, start);
    }

    /** The domains, then the port. */
    method PatchListening(plan: ListenPlan, l: Listening, k: nat, portChanged: bool, ghost start: Node)
      returns (ok: bool)
      requires late == None && Reverts(rb, node, None, start) && node.listening == l == start.listening
      requires rb.prevListeners == Some(UndoOf(plan, l, portChanged))
      requires k == FakeTlsAt(l.listeners, 0) && (portChanged ==> k < |l.listeners| && plan.port.Some?)
      requires plan.port.Some? ==> (portChanged <==> !HasPort(l.listeners, plan.port.value))
      requires portChanged || WithDomains(plan, l) != l
      modifies this`node, this`late, this`dangling, this`faults, this`sent
      ensures faults >= old(faults) && (ok <==> faults == old(faults))
      ensures Reverts(rb, node, late, start) && (ok ==> late == None) && node == old(node).(listening := node.listening)
      ensures ListeningMoved(plan, l, node.listening)
      ensures ok ==> ListensAs(plan, node.listening) && LinkFollows(plan, l, node.listening)
      ensures sent > old(sent)
    {
      hide Reverts, HasPort;
      ok := true;
      var next := WithDomains(plan, l);
      ghost var undo := UndoOf(plan, l, portChanged);
      if plan.domain.Some? {
        DomainsThere(plan, l);
      }
      UndoReadsBack(l, next, undo);
      if next != l {
        ok := PutListening(next, undo, start);
      }
      if ok && portChanged {
        ok := MovePort(k, plan.port.value, undo, start);
      }
    }

    /** The port of the Fake-TLS listener, and the port in the links if there is one. */
    method MovePort(k: nat, port: nat, ghost undo: ListenUndo, ghost start: Node)
      returns (ok: bool)
      requires late == None && Reverts(rb, node, None, start) && rb.prevListeners == Some(undo) && k < |node.listening.listeners|
      requires k == FakeTlsAt(node.listening.listeners, 0)
      requires undo.listeners == Some(start.listening.listeners) && undo.linkPort == start.listening.linkPort == node.listening.linkPort
      requires SameListening(Restored(undo, node.listening), start.listening)
      modifies this`node, this`late, this`dangling, this`faults, this`sent
      ensures faults >= old(faults) && (ok <==> faults == old(faults))
      ensures Reverts(rb, node, late, start) && (ok ==> late == None) && node == old(node).(listening := node.listening)
      ensures node.listening.domain == old(node.listening.domain) && node.listening.extra == old(node.listening.extra)
      ensures ListeningMoved(ListenPlan(None, [], Some(port)), old(node.listening), node.listening)
      ensures ok ==> HasPort(node.listening.listeners, port)
                     && node.listening.linkPort == if old(node.listening.linkPort).Some? then Some(port) else None
      ensures sent > old(sent)
    {
      hide Reverts, HasPort;
      var l := node.listening;
      PortMoves(l.listeners, k, port, 0);
      PortIff(l.(listeners := l.listeners[k := l.listeners[k].(port := port)]), port);
      assert IsFakeTls(l.listeners, k);
      ok := PutListening(l.(listeners := l.listeners[k := l.listeners[k].(port := port)]), undo, start);
      if ok && l.linkPort.Some? {
        ok := PutListening(node.listening.(linkPort := Some(port)), undo, start);
      }
    }

    /** The carrier policy as the [web] table it makes, and the undo of it. */
    static method PatchWeb(web: WebPolicy.Table, policy: PanelPolicy)
      returns (nothing: bool, next: WebPolicy.Table, undo: WebPolicy.Table)
      ensures WebPolicy.Meets(next, policy.carriers) && SameWeb(WebPolicy.MergeTable(next, undo), web)
      ensures nothing <==> WebPolicy.Meets(web, policy.carriers)
      ensures WebRestSame(Some(policy), web, next)
    {
      var p := policy.carriers;
      forall name {
        WebPolicy.PatchLeavesTheRest(web, p, name);
      }
      WebPolicy.PatchLeavesTheRest(web, p, "");
      var patch := WebPolicy.TelemtWebPolicyPatch(web, p);
      nothing, next, undo := patch == map[], WebPolicy.MergeTable(web, patch), WebPolicy.Undo(web, patch);
      WebComesBack(web, p);
    }

    /** One patch of the [web] table and the vhosts, after a snapshot of the vhosts if they change and there is none. */
    method PutWeb(web: WebPolicy.Table, undo: WebPolicy.Table, vhosts: seq<Vhost>, ghost start: Node)
      returns (ok: bool)
      requires late == None && Reverts(rb, node, None, start) && rb.prevWebPolicy == None && SameWeb(WebPolicy.MergeTable(web, undo), node.web)
      modifies this`node, this`late, this`rb, this`dangling, this`faults, this`sent
      ensures faults >= old(faults) && (ok <==> faults == old(faults))
      ensures Reverts(rb, node, late, start) && (ok ==> late == None)
      ensures rb == old(rb).(prevWebPolicy := rb.prevWebPolicy, prevVhosts := rb.prevVhosts)
      ensures node == old(node) || node == old(node).(web := web, vhosts := vhosts)
      ensures ok ==> node == old(node).(web := web, vhosts := vhosts)
      ensures sent == old(sent) + 1
    {
      hide Reverts;
      WebReverts(rb, node, start, web, undo, vhosts);
      if vhosts != node.vhosts {
        rb := WithSnapshot(rb, node.vhosts);
      }
      ok := Call(SettingWeb, node.(web := web, vhosts := vhosts));
      if ok {
        rb := rb.(prevWebPolicy := Some(undo));
      }
    }

    /** The carrier policy and the options it has on the managed vhost, in one patch. */
    method ReconcileWebPolicy(policy: Option<PanelPolicy>, managed: Option<string>, ghost start: Node)
      returns (ok: bool, changed: bool)
      requires late == None && Reverts(rb, node, None, start) && rb.prevWebPolicy == None
      modifies this`node, this`late, this`rb, this`dangling, this`faults, this`sent
      ensures faults >= old(faults)
      ensures ok <==> && faults == old(faults)
                      && (policy.Some? && (policy.value.basePath.Some? || policy.value.decoyResolve.Some?) ==>
                            HasManaged(old(node.vhosts), managed))
      ensures Reverts(rb, node, late, start) && (ok ==> late == None)
      ensures rb == old(rb).(prevWebPolicy := rb.prevWebPolicy, prevVhosts := rb.prevVhosts)
      ensures node == old(node).(web := node.web, vhosts := node.vhosts)
      ensures Moved(old(node.vhosts), node.vhosts, managed, policy.Some? && policy.value.decoyResolve.Some?, false,
                    policy.Some? && policy.value.basePath.Some?)
      ensures SameOrigins(old(node.vhosts), node.vhosts) && WebRestSame(policy, old(node.web), node.web)
      ensures ok && policy.Some? ==> WebPolicy.Meets(node.web, policy.value.carriers)
      ensures ok ==> OptionsGiven(policy, managed, node.vhosts)
      ensures sent >= old(sent) && (ok ==> (changed <==> sent > old(sent)))
      ensures old((policy.Some? ==> WebPolicy.Meets(node.web, policy.value.carriers)) && OptionsGiven(policy, managed, node.vhosts)) ==>
                sent == old(sent) && node == old(node) && rb == old(rb)
      ensures ok ==>
                && (policy.Some? && HasOptions(policy.value) ==> VhostIndex(old(node.vhosts), managed).Some?)
                && node.vhosts == if policy.Some? then GiveOptions(old(node.vhosts), managed, policy.value) else old(node.vhosts)
    {
      hide Reverts, Moved, SameOrigins, OptionsGiven, WebRestSame, HasManaged, GiveOptions, VhostIndex,
        WebPolicy.Meets, SameWeb, WithSnapshot;
      ok, changed := true, false;
      NothingMoved(node.vhosts, managed, policy, node.web, policy.Some? && policy.value.decoyResolve.Some?,
                   policy.Some? && policy.value.basePath.Some?);
      if policy.None? {
        return;
      }
      var readable: bool := *;
      var p := policy.value;
      var options := HasOptions(p);
      var index := VhostIndex(node.vhosts, managed);
      if !readable {
        faults := faults + 1;
        return false, false;
      }
      HasManagedIff(node.vhosts, managed);
      if options && index.None? {
        return false, false;
      }
      OptionsMoved(node.vhosts, managed, p);
      var nothing, web, undo := PatchWeb(node.web, p);
      var vhosts := GiveOptions(node.vhosts, managed, p);
      if nothing && vhosts == node.vhosts {
        return;
      }
      ok := PutWeb(web, undo, vhosts, start);
      if ok {
        changed := true;
        // A vhost change that telemt put off until a restart fails the apply.
        var putOff: bool := *;
        ok := !(options && putOff);
        if !ok {
          faults := faults + 1;
        }
      }
    }

    // ---- rollback ----------------------------------------------------------------------------

    /** Restores the vhosts, the middle proxy and the carrier policy. */
    method RestoreConfig() returns (ok: bool)
      modifies this`node, this`late, this`dangling, this`faults, this`sent
      ensures faults >= old(faults) && (ok <==> faults == old(faults))
      ensures node == old(node).(vhosts := node.vhosts, middleProxy := node.middleProxy, web := node.web)
      ensures node.vhosts == old(node.vhosts) || rb.prevVhosts == Some(node.vhosts)
      ensures ok ==> late == old(late) && node.vhosts == Or(rb.prevVhosts, old(node.vhosts))
                     && node.middleProxy == Or(rb.prevMiddleProxy, old(node.middleProxy)) && node.web == WebAfter(rb.prevWebPolicy, old(node.web))
      ensures sent >= old(sent)
      ensures rb.prevVhosts.None? && rb.prevMiddleProxy.None? && rb.prevWebPolicy.None? ==>
                sent == old(sent) && node == old(node)
    {
      ok := true;
      if rb.prevVhosts.Some? {
        ok := Call(Restoring, node.(vhosts := rb.prevVhosts.value));
      }
      if rb.prevMiddleProxy.Some? {
        var step := Call(Restoring, node.(middleProxy := rb.prevMiddleProxy.value));
        ok := ok && step;
      }
      if rb.prevWebPolicy.Some? {
        var step := Call(Restoring, node.(web := WebPolicy.MergeTable(node.web, rb.prevWebPolicy.value)));
        ok := ok && step;
      }
    }

    /** Deletes the users this apply created; telemt refuses to delete the last user there is. */
    method DeleteCreated() returns (ok: bool)
      modifies this`node, this`late, this`dangling, this`faults, this`sent
      ensures faults >= old(faults) && (ok <==> faults == old(faults))
      ensures node == old(node).(users := node.users)
      ensures forall n :: n in node.users ==> n in old(node.users) && node.users[n] == old(node.users)[n]
      ensures forall n :: n in old(node.users) && n !in node.users ==> n in rb.created
      ensures ok ==> late == old(late) && node.users == old(node.users) - NameSet(rb.created)
      ensures sent >= old(sent)
      ensures rb.created == [] ==> sent == old(sent) && node == old(node)
    {
      ok := true;
      for k := 0 to |rb.created|
        invariant node == old(node).(users := node.users)
        invariant forall n :: n in node.users ==> n in old(node.users) && node.users[n] == old(node.users)[n]
        invariant forall n :: n in old(node.users) && n !in node.users ==> n in rb.created
        invariant faults >= old(faults) && (ok <==> faults == old(faults)) && sent >= old(sent)
        invariant rb.created == [] ==> sent == old(sent) && node == old(node)
        invariant ok ==> late == old(late) && node.users == old(node.users) - NameSet(rb.created[..k])
      {
        var step := Call(Restoring, node.(users := node.users - {rb.created[k]}));
        assert NameSet(rb.created[..k + 1]) == NameSet(rb.created[..k]) + {rb.created[k]};
        ok := ok && step;
      }
      assert rb.created[..|rb.created|] == rb.created;
    }

    method RestoreSite() returns (ok: bool)
      modifies this`site, this`faults
      ensures faults >= old(faults) && (ok <==> faults == old(faults))
      ensures ok ==> site == Or(rb.siteBackup, old(site))
      ensures rb.siteBackup.None? ==> site == old(site)
    {
      ok := true;
      if rb.siteBackup.Some? {
        ok := *;
        if ok {
          site := rb.siteBackup.value;
        }
        // The reload that follows may fail.
        var reloaded: bool := *;
        ok := ok && reloaded;
        if !ok {
          faults := faults + 1;
        }
      }
    }

    method RestoreListeners() returns (ok: bool)
      modifies this`node, this`late, this`dangling, this`faults, this`sent
      ensures faults >= old(faults) && (ok <==> faults == old(faults))
      ensures node == old(node).(listening := node.listening)
      ensures ok ==> late == old(late)
                     && node.listening == if rb.prevListeners.Some? then Restored(rb.prevListeners.value, old(node.listening)) else old(node.listening)
      ensures sent >= old(sent)
      ensures rb.prevListeners.None? ==> sent == old(sent) && node == old(node)
    {
      ok := true;
      if rb.prevListeners.Some? {
        ok := Call(Restoring, node.(listening := Restored(rb.prevListeners.value, node.listening)));
      }
    }

    /**
     Undoes a failed apply as far as it can, and says whether all of it was undone. What it says is right exactly if
     no call that was told to have failed left something behind: a late effect on the vhosts or the listeners is
     undone with the rest, one on the users, the profiles, the middle proxy or the WEB table is not.
     */
    method RollBack(ghost start: Node, ghost startSite: Site) returns (restored: bool)
      requires Reverts(rb, node, late, start) && SiteKept(rb.siteBackup, site, startSite)
      modifies this`node, this`late, this`dangling, this`site, this`faults, this`sent
      // Without a fault everything recorded is undone, and it says so exactly if nothing irreversible was done.
      ensures faults >= old(faults) && (faults == old(faults) ==> (restored <==> rb.irreversible == []))
      ensures faults == old(faults) ==> node == AfterRollback(rb, old(node)) && site == Or(rb.siteBackup, old(site))
      ensures restored ==> rb.irreversible == [] && late == old(late) && (SameNode(node, start) <==> Harmless(late))
      ensures restored ==> site == startSite && SameListening(node.listening, start.listening)
      ensures restored ==> node == AfterRollback(rb, old(node))
                           && (node.vhosts == start.vhosts || AtProfiles(late, start.vhosts, node.vhosts))
      ensures node.vhosts == old(node.vhosts) || node.vhosts == start.vhosts
      ensures forall n :: n in node.users ==> n in old(node.users) && node.users[n] == old(node.users)[n]
      ensures forall n :: n in old(node.users) && n !in node.users ==> n in rb.created
      ensures sent >= old(sent)
      ensures rb == UNTOUCHED ==> sent == old(sent) && node == old(node) && site == old(site)
    {
      hide Reverts;
      SnapshotIsStart(rb, node, late, start);
      restored := rb.irreversible == [];
      if restored {
        RollbackIff(rb, node, late, start);
      }
      var config := RestoreConfig();
      var deleted := DeleteCreated();
      var back := RestoreSite();
      var listeners := RestoreListeners();
      // The restart or reload that puts the restored configuration into service.
      var running: bool := *;
      if !running {
        faults := faults + 1;
      }
      restored := restored && config && deleted && back && listeners && running;
    }

    // ---- an apply ----------------------------------------------------------------------------

    /** The users, if the request speaks of them. */
    method ApplyUsers(req: Request) returns (ok: bool)
      requires req.profiles.Some? ==> Proper(Profiles(req))
      requires rb == UNTOUCHED && late == None && Valid()
      modifies this`node, this`file, this`late, this`misread, this`unchecked, this`stepsBack
      modifies this`quotas, this`rb, this`dangling, this`faults, this`sent
      ensures faults >= old(faults)
      ensures faults == old(faults) ==> (ok <==> UsersFeasible(req, old(node)))
      ensures UsersMoved(Profiles(req), req.managed, old(node), old(quotas.latest), old(stepsBack)) && misread >= old(misread)
      ensures req.profiles.None? ==> node == old(node)
      ensures FitStays(Profiles(req), old(file), old(node.users), file, node.users) && (ok ==> late == None)
      ensures ok && req.profiles.Some? ==> Orderly(node, Profiles(req), req.managed)
      ensures ok && req.profiles.Some? ==>
                (Given(Profiles(req), node.users) <==> old(FitsAll(file, node.users, Profiles(req))) || misread > old(misread))
      ensures sent >= old(sent)
      ensures ok && faults == old(faults) && req.profiles.Some? ==> Quiet(file, node, Profiles(req), req.managed)
      ensures (req.profiles.Some? ==> old(Quiet(file, node, Profiles(req), req.managed)) && misread == old(misread)) ==>
                sent == old(sent) && node == old(node) && rb == old(rb)
      ensures NoReset(rb.irreversible, unchecked, quotas, old(unchecked), old(quotas))
    {
      hide Reverts, Valid;
      ok := true;
      UntouchedReverts(node);
      if req.profiles.Some? {
        var changed, recorded;
        ok, changed, recorded := ReconcileUsers(Profiles(req), req.managed);
        if ok {
          ArrangedIsOrderly(node, old(node), Profiles(req), req.managed);
        }
      }
    }

    /** Everything after the users. */
    method ApplyRest(req: Request, ghost start: Node, ghost startSite: Site) returns (ok: bool)
      requires late == None && Reverts(rb, node, None, start) && SiteKept(rb.siteBackup, site, startSite)
      requires rb == UNTOUCHED.(created := rb.created, irreversible := rb.irreversible, prevVhosts := rb.prevVhosts)
      modifies this`node, this`site, this`late, this`rb, this`dangling, this`faults, this`sent
      ensures faults >= old(faults) && (ok <==> faults == old(faults) && RestFeasible(req, old(node)))
      ensures Reverts(rb, node, late, start) && SiteKept(rb.siteBackup, site, startSite) && rb.created == old(rb.created)
      ensures node.users == old(node.users) && SameProfiles(old(node.vhosts), node.vhosts) && Near(old(node.vhosts), node.vhosts, req.managed)
      ensures ok ==> Delivers(req, node, site) && RestSame(req.(profiles := None), old(node), old(site), node, site)
      ensures sent >= old(sent)
      ensures ok && Coherent(req) ==> RestInPlace(req, node, site)
      ensures Coherent(req) && old(RestInPlace(req, node, site)) ==>
                sent == old(sent) && node == old(node) && rb == old(rb) && site == old(site)
      ensures rb.irreversible == old(rb.irreversible)
    {
      hide Reverts;
      ok := true;
      if req.site.StaticSite? {
        ok := DeploySite(req.site.files, startSite);
        RevertsAlso(old(rb), node, start, rb);
      }
      if !ok {
        return;
      }
      ok := ApplyVhost(req, start);
    }

    /** The decoy, the listeners, the address, the middle proxy and the policy. */
    method ApplyVhost(req: Request, ghost start: Node) returns (ok: bool)
      requires late == None && Reverts(rb, node, None, start)
      requires rb.prevListeners == None && rb.prevMiddleProxy == None && rb.prevWebPolicy == None
      modifies this`node, this`late, this`rb, this`dangling, this`faults, this`sent
      ensures faults >= old(faults) && (ok <==> faults == old(faults) && RestFeasible(req, old(node)))
      ensures Reverts(rb, node, late, start) && rb.created == old(rb.created) && rb.siteBackup == old(rb.siteBackup)
      ensures node.users == old(node.users) && node.ceilings == old(node.ceilings)
      ensures Moved(old(node.vhosts), node.vhosts, req.managed, !req.site.NoSite? || (req.policy.Some? && req.policy.value.decoyResolve.Some?),
                    req.publicAddr.Some?, req.policy.Some? && req.policy.value.basePath.Some?)
      ensures WebRestSame(req.policy, old(node.web), node.web)
      ensures ok ==>
                ListeningMoved(req.listen, old(node.listening), node.listening) && LinkFollows(req.listen, old(node.listening), node.listening)
      ensures ok ==>
                VhostDelivers(req, node.vhosts) && ListensAs(req.listen, node.listening) && node.middleProxy == req.adTag
      ensures ok && req.policy.Some? ==> WebPolicy.Meets(node.web, req.policy.value.carriers)
      ensures sent >= old(sent)
      ensures ok && Coherent(req) ==> PlacesHold(req, node.vhosts)
      ensures Coherent(req) && old(RestInPlace(req, node, if req.site.StaticSite? then req.site.files else site)) ==>
                sent == old(sent) && node == old(node) && rb == old(rb)
      ensures rb.irreversible == old(rb.irreversible)
    {
      hide Reverts, DecoyGiven, AddrGiven, OptionsGiven, HasManaged, CanListen, ListensAs, VhostDelivers, Moved,
        ListeningMoved, LinkFollows,
        SameProfiles, SameOrigins, SameAddrs, Near, WebRestSame, WebPolicy.Meets, Coherent, GiveOptions, VhostIndex, OptionsHold;
      ghost var vs, web := node.vhosts, node.web;
      ghost var resolve, path := req.policy.Some? && req.policy.value.decoyResolve.Some?, req.policy.Some? && req.policy.value.basePath.Some?;
      ok := ApplyPlaces(req, start);
      ghost var ws := node.vhosts;
      MovedIsSame(vs, ws, req.managed, !req.site.NoSite?, req.publicAddr.Some?, false);
      SameManaged(vs, ws, req.managed);
      NothingMoved(ws, req.managed, req.policy, web, resolve, path);
      if ok {
        ok := ApplyModes(req, start);
      }
      MovedTwice(vs, ws, node.vhosts, req.managed, !req.site.NoSite?, req.publicAddr.Some?, false, resolve, false, path);
      if ok {
        MovedIsSame(ws, node.vhosts, req.managed, resolve, false, path);
        GivenDelivers(req, vs, ws, node.vhosts);
        if Coherent(req) {
          PlacesHoldAfter(req, vs, ws);
        }
      }
    }

    /** The middle proxy and the policy. */
    method ApplyModes(req: Request, ghost start: Node) returns (ok: bool)
      requires late == None && Reverts(rb, node, None, start) && rb.prevMiddleProxy == None && rb.prevWebPolicy == None
      modifies this`node, this`late, this`rb, this`dangling, this`faults, this`sent
      ensures faults >= old(faults) && sent >= old(sent)
      ensures ok <==> && faults == old(faults)
                      && (req.policy.Some? && (req.policy.value.basePath.Some? || req.policy.value.decoyResolve.Some?) ==>
                            HasManaged(old(node.vhosts), req.managed))
      ensures Reverts(rb, node, late, start) && (ok ==> late == None)
      ensures rb == old(rb).(prevMiddleProxy := rb.prevMiddleProxy, prevWebPolicy := rb.prevWebPolicy, prevVhosts := rb.prevVhosts)
      ensures node == old(node).(middleProxy := node.middleProxy, web := node.web, vhosts := node.vhosts)
      ensures Moved(old(node.vhosts), node.vhosts, req.managed, req.policy.Some? && req.policy.value.decoyResolve.Some?, false,
                    req.policy.Some? && req.policy.value.basePath.Some?)
      ensures SameOrigins(old(node.vhosts), node.vhosts) && WebRestSame(req.policy, old(node.web), node.web)
      ensures ok ==> node.middleProxy == req.adTag && OptionsGiven(req.policy, req.managed, node.vhosts)
      ensures ok && req.policy.Some? ==> WebPolicy.Meets(node.web, req.policy.value.carriers)
      ensures ok ==>
                && (req.policy.Some? && HasOptions(req.policy.value) ==> VhostIndex(old(node.vhosts), req.managed).Some?)
                && node.vhosts == if req.policy.Some? then GiveOptions(old(node.vhosts), req.managed, req.policy.value) else old(node.vhosts)
      ensures old(node.middleProxy == req.adTag && OptionsGiven(req.policy, req.managed, node.vhosts)
                  && (req.policy.Some? ==> WebPolicy.Meets(node.web, req.policy.value.carriers))) ==>
                sent == old(sent) && node == old(node) && rb == old(rb)
    {
      hide Reverts, OptionsGiven, HasManaged, Moved, SameOrigins, WebRestSame, WebPolicy.Meets, GiveOptions, VhostIndex;
      NothingMoved(node.vhosts, req.managed, req.policy, node.web, req.policy.Some? && req.policy.value.decoyResolve.Some?,
                   req.policy.Some? && req.policy.value.basePath.Some?);
      ok := ReconcileMiddleProxy(req.adTag, start);
      if ok {
        var changed;
        ok, changed := ReconcileWebPolicy(req.policy, req.managed, start);
      }
    }

    /** The decoy, the listeners and the address. */
    method ApplyPlaces(req: Request, ghost start: Node) returns (ok: bool)
      requires late == None && Reverts(rb, node, None, start) && rb.prevListeners == None
      modifies this`node, this`late, this`rb, this`dangling, this`faults, this`sent
      ensures faults >= old(faults)
      ensures ok <==> && faults == old(faults) && CanListen(req.listen, old(node.listening))
                      && (!req.site.NoSite? || req.publicAddr.Some? ==> HasManaged(old(node.vhosts), req.managed))
      ensures Reverts(rb, node, late, start) && (ok ==> late == None)
      ensures rb == old(rb).(prevVhosts := rb.prevVhosts, prevListeners := rb.prevListeners, publicAddrChanged := rb.publicAddrChanged)
      ensures node == old(node).(vhosts := node.vhosts, listening := node.listening)
      ensures Moved(old(node.vhosts), node.vhosts, req.managed, !req.site.NoSite?, req.publicAddr.Some?, false)
      ensures ok ==>
                DecoyGiven(req.site, req.managed, old(node.vhosts), node.vhosts) && AddrGiven(req.publicAddr, req.managed, node.vhosts)
      ensures ok ==> && ListensAs(req.listen, node.listening)
                     && ListeningMoved(req.listen, old(node.listening), node.listening) && LinkFollows(req.listen, old(node.listening), node.listening)
      ensures sent >= old(sent)
      ensures old(PlacesHold(req, node.vhosts) && ListensAs(req.listen, node.listening)) && Coherent(req) ==>
                sent == old(sent) && node == old(node) && rb == old(rb)
    {
      hide Reverts, DecoyGiven, AddrGiven, HasManaged, CanListen, ListensAs, Moved, ListeningMoved, LinkFollows,
        SameProfiles, Near, WebRestSame;
      var changed;
      ghost var vs := node.vhosts;
      ok, changed := ReconcileDecoy(req.site, req.managed, start);
      ghost var ws := node.vhosts;
      MovedIsSame(vs, ws, req.managed, !req.site.NoSite?, false, false);
      SameManaged(vs, ws, req.managed);
      NothingMoved(ws, req.managed, None, map[], false, false);
      if ok {
        ok, changed := ReconcileListeners(req.listen, start);
      }
      if !ok {
        MovedTwice(vs, ws, ws, req.managed, !req.site.NoSite?, false, false, false, req.publicAddr.Some?, false);
        return;
      }
      ok, changed := ReconcilePublicAddr(req.publicAddr, req.managed, start);
      MovedTwice(vs, ws, node.vhosts, req.managed, !req.site.NoSite?, false, false, false, req.publicAddr.Some?, false);
      DecoyStays(req.site, req.managed, vs, ws, node.vhosts, req.publicAddr.Some?);
    }

    ghost function Now(): Moment
      reads this
    {
      Moment(node, site, file, late, misread)
    }

    /** What is kept of an apply wherever it stops, so that it can be undone. */
    ghost predicate CanAbort(req: Request, before: Moment)
      reads this
    {
      && Reverts(rb, node, late, before.node) && SiteKept(rb.siteBackup, site, before.site) && before.misread <= misread
      && AllNamed(Profiles(req), rb.created) && Near(before.node.vhosts, node.vhosts, req.managed)
      && KeepsProtected(before.node, node.users, Profiles(req), req.managed)
      && FitStays(Profiles(req), before.file, before.node.users, file, node.users)
    }

    /** The rollback of an apply that failed. */
    method Abort(ghost req: Request, ghost before: Moment) returns (result: Result)
      requires CanAbort(req, before)
      modifies this`node, this`late, this`dangling, this`site, this`faults, this`sent
      ensures faults >= old(faults) && (faults == old(faults) ==> result == RolledBack(rb.irreversible == []))
      ensures result.RolledBack? && Honest(req, result, before, Now())
      ensures result == RolledBack(true) ==> rb.irreversible == []
      ensures sent >= old(sent)
      ensures rb == UNTOUCHED ==> sent == old(sent) && node == old(node) && site == old(site)
    {
      hide Reverts;
      ghost var users := node.users;
      var restored := RollBack(before.node, before.site);
      FewerUsersFit(file, users, node.users, Profiles(req));
      FewerKeep(before.node, users, node.users, Profiles(req), req.managed);
      return RolledBack(restored);
    }

    /** The steps, and the restart or reload and the checks that put them into service. */
    method CarryOut(req: Request, ghost before: Moment) returns (ok: bool)
      requires Valid() && (req.profiles.Some? ==> Proper(Profiles(req))) && rb == UNTOUCHED && late == None
      requires before == Moment(node, site, file, before.late, misread)
      modifies this
      ensures Valid() && Advances(Profiles(req), old(quotas.latest), old(stepsBack), quotas.latest, stepsBack)
      ensures CanAbort(req, before) && (ok ==> Honest(req, Applied, before, Now()))
      ensures faults >= old(faults) && sent >= old(sent)
      ensures faults == old(faults) ==> (ok <==> UsersFeasible(req, old(node)) && RestFeasible(req, old(node)))
      ensures ok && faults == old(faults) && Coherent(req) ==> InPlace(req, node, site, file)
      ensures old(InPlace(req, node, site, file)) && Coherent(req) && misread == old(misread) ==>
                sent == old(sent) && node == old(node) && site == old(site) && rb == old(rb)
      ensures NoReset(rb.irreversible, unchecked, quotas, old(unchecked), old(quotas))
    {
      hide Reverts, Valid, RestSame, UsersFeasible, RestFeasible, Orderly, Delivers, KeepsProtected, Near, FitsAll,
        Given, SameProfiles, AllNamed,
        RestInPlace, Quiet, Coherent, ProfilesOnly, LowerAll, Advances, FitStays, Honest, NoReset;
      ok := ApplyUsers(req);
      ghost var mid := node;
      RestFeasibleStill(req, old(node), mid);
      if !ok {
        SameProfilesSelf(mid.vhosts, req.managed);
        ProfilesOnlyIsNear(old(node.vhosts), mid.vhosts, mid.vhosts, req.managed);
        return;
      }
      ok := ApplyRest(req, old(node), old(site));
      ProfilesOnlyIsNear(old(node.vhosts), mid.vhosts, node.vhosts, req.managed);
      if req.profiles.Some? {
        OrderlyStays(mid, node, Profiles(req), req.managed);
        if faults == old(faults) {
          QuietStays(file, mid, node, Profiles(req), req.managed);
        }
      }
      if !ok {
        return;
      }
      RestSameAfterUsers(req, old(node), mid, old(site), node, site);
      ok := *;
      if ok {
        AppliedIsHonest(req, before, Now());
      } else {
        faults := faults + 1;
      }
    }

    /** An apply: carried out, or rolled back. */
    method Apply(req: Request) returns (result: Result)
      requires Valid() && (req.profiles.Some? ==> Proper(Profiles(req)))
      modifies this
      ensures Valid() && Advances(Profiles(req), old(quotas.latest), old(stepsBack), quotas.latest, stepsBack)
      ensures Honest(req, result, old(Now()), Now())
      ensures result == RolledBack(true) ==> rb.irreversible == []
      // Without a fault an apply is done exactly if it can be, and undone otherwise.
      ensures faults >= old(faults) && sent >= old(sent)
      ensures faults == old(faults) ==>
                result == if UsersFeasible(req, old(node)) && RestFeasible(req, old(node)) then Applied else RolledBack(rb.irreversible == [])
      // Once it is done nothing is left to send, and where nothing is to be sent nothing is.
      ensures result == Applied && faults == old(faults) && Coherent(req) ==> InPlace(req, node, site, file)
      ensures old(InPlace(req, node, site, file)) && Coherent(req) && misread == old(misread) ==>
                sent == old(sent) && node == old(node) && site == old(site)
      // One that was undone reset no quota, unless a reset is not known to be written down.
      ensures result == RolledBack(true) && unchecked == old(unchecked) ==> quotas.resets == old(quotas.resets)
    {
      hide Reverts, Valid, UsersFeasible, RestFeasible, Advances, Honest, InPlace, Coherent, CanAbort;
      var refused: bool := *;
      if refused {
        RefusedIsHonest(req, Now());
        NothingYet(Profiles(req), file, node.users, quotas.latest, stepsBack);
        faults := faults + 1;
        return Refused;
      }
      rb, late := UNTOUCHED, None;
      var ok := CarryOut(req, old(Now()));
      if ok {
        return Applied;
      }
      result := Abort(req, old(Now()));
    }

    /**
     The same desired state applied until it succeeds. Whatever the failures and rollbacks before, success serves
     what was asked for, every user with its goal if the file fitted at the start; and no try, done or not,
     touches a user that other vhosts refer to.
     */
    method ApplyUntilDone(req: Request, tries: nat) returns (done: bool)
      requires Valid() && req.profiles.Some? && Proper(Profiles(req))
      modifies this
      ensures Valid()
      ensures done ==> Orderly(node, Profiles(req), req.managed) && Delivers(req, node, site)
      ensures done && old(FitsAll(file, node.users, Profiles(req))) ==> Served(node, Profiles(req), req.managed)
      ensures Near(old(node.vhosts), node.vhosts, req.managed) && KeepsProtected(old(node), node.users, Profiles(req), req.managed)
      ensures tries > 0 && faults == old(faults) && old(UsersFeasible(req, node) && RestFeasible(req, node)) ==> done
    {
      hide UsersFeasible, RestFeasible;
      done := false;
      for n := 0 to tries
        invariant Valid()
        invariant old(FitsAll(file, node.users, Profiles(req))) ==> FitsAll(file, node.users, Profiles(req))
        invariant Near(old(node.vhosts), node.vhosts, req.managed) && KeepsProtected(old(node), node.users, Profiles(req), req.managed)
        invariant faults >= old(faults) && (n == 0 ==> node == old(node))
        invariant n > 0 ==> faults > old(faults) || !old(UsersFeasible(req, node) && RestFeasible(req, node))
      {
        ghost var before := node;
        var result := Apply(req);
        StillProtected(old(node), before, node, Profiles(req), req.managed);
        if result == Applied {
          return true;
        }
      }
    }

    /**
     Any requests, one after the other, whatever becomes of each: every result is true of the node it was given
     for, applies that were all undone without a late effect left nothing behind, and the resets of the whole run
     follow the periods.
     */
    method ApplyAll(reqs: seq<Request>) returns (results: seq<Result>, ghost trace: seq<Moment>)
      requires Valid() && forall k :: 0 <= k < |reqs| && reqs[k].profiles.Some? ==> Proper(Profiles(reqs[k]))
      modifies this
      ensures Valid() && |results| == |reqs|
      ensures AllHonest(reqs, results, trace) && trace[0] == old(Now()) && trace[|reqs|] == Now()
      ensures (forall k :: 0 <= k < |reqs| ==> Undone(results[k], trace[k + 1])) ==>
                SameNode(node, old(node)) && site == old(site)
      ensures unchecked == 0 && stepsBack == 0 ==> Quotas.OncePerPeriod(quotas)
      ensures old(CanMoveOn(reqs, 0, quotas.latest)) && NeverBack(reqs) ==> stepsBack == old(stepsBack)
    {
      results, trace := [], [Now()];
      for n := 0 to |reqs|
        invariant Valid() && |results| == n && AllHonest(reqs, results, trace) && trace[0] == old(Now()) && trace[n] == Now()
        invariant old(CanMoveOn(reqs, 0, quotas.latest)) && NeverBack(reqs) ==>
                  CanMoveOn(reqs, n, quotas.latest) && stepsBack == old(stepsBack)
      {
        ghost var latest, back := quotas.latest, stepsBack;
        var result := Apply(reqs[n]);
        RestCanMoveOn(reqs, n, latest, back, quotas.latest, stepsBack);
        OneMoreHonest(reqs, results, trace, result, Now());
        results, trace := results + [result], trace + [Now()];
      }
      if forall k :: 0 <= k < |reqs| ==> Undone(results[k], trace[k + 1]) {
        UndoneRun(reqs, results, trace, |reqs|);
      }
      if unchecked == 0 && stepsBack == 0 {
        Quotas.SoundIsOnce(quotas, file.quotas);
      }
    }
  }
}
