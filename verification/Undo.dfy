/**
 What an apply keeps to undo itself, and what it takes for such a record to bring the node back to where the
 apply found it.
 */
module Undo {
  import opened Characters
  import opened Options
  import opened TelemtUsers
  import opened NodeState
  import WebPolicy

  type Site = map<string, string>

  datatype Loss = QuotaReset(name: Name) | UserPatched(name: Name) | UserDeleted(name: Name)

  /** What the listeners step restores; a part it does not touch is None. */
  datatype ListenUndo = ListenUndo(
    domain: Option<string>, extra: Option<seq<string>>, listeners: Option<seq<Listener>>, linkPort: Option<nat>)

  /** What an apply changed so that a failure can undo as much as possible. */
  datatype Rollback = Rollback(
    created: seq<Name>, prevVhosts: Option<seq<Vhost>>, siteBackup: Option<Site>, prevListeners: Option<ListenUndo>,
    publicAddrChanged: bool, prevMiddleProxy: Option<bool>, prevWebPolicy: Option<WebPolicy.Table>, irreversible: seq<Loss>)

  const UNTOUCHED := Rollback([], None, None, None, false, None, None, [])

  // ---- what an undo record is good for -----------------------------------------------------

  /** Without the users this apply created the users are those it found. */
  ghost predicate UsersUndoable(created: seq<Name>, irreversible: seq<Loss>, users: map<Name, User>, start: map<Name, User>) {
    irreversible == [] ==> CreatedOnTop(created, users, start)
  }

  /** Taking the created users off again, the last one first, leaves the users of the start. */
  ghost predicate CreatedOnTop(created: seq<Name>, users: map<Name, User>, start: map<Name, User>) {
    if created == [] then users == start
    else
      var last := created[|created| - 1];
      last in users && last !in start && CreatedOnTop(created[..|created| - 1], users - {last}, start)
  }

  lemma {:induction false} CreatedOnTopMeans(created: seq<Name>, users: map<Name, User>, start: map<Name, User>)
    requires CreatedOnTop(created, users, start)
    ensures forall n :: n in created ==> n in users && n !in start
    ensures forall n :: n in start ==> n in users && users[n] == start[n]
    ensures forall n :: n in users && n !in created ==> n in start
  {
    if created != [] {
      var last := created[|created| - 1];
      CreatedOnTopMeans(created[..|created| - 1], users - {last}, start);
      assert forall n :: n in created ==> n == last || n in created[..|created| - 1];
    }
  }

  lemma OneMoreCreated(created: seq<Name>, users: map<Name, User>, start: map<Name, User>, n: Name, u: User)
    requires CreatedOnTop(created, users, start) && n !in users
    ensures CreatedOnTop(created + [n], users[n := u], start)
  {
    CreatedOnTopMeans(created, users, start);
    assert (created + [n])[..|created|] == created;
    assert users[n := u] - {n} == users;
  }

  // ---- listeners ---------------------------------------------------------------------------

  function Lower(s: string): string {
    seq(|s|, i requires 0 <= i < |s| => LowerChar(s[i]))
  }

  /** The extra domains as the agent reads them. */
  function LowerAll(ss: seq<string>): seq<string> {
    seq(|ss|, i requires 0 <= i < |ss| => Lower(ss[i]))
  }

  lemma LowerAllTwice(ss: seq<string>)
    ensures LowerAll(LowerAll(ss)) == LowerAll(ss)
  {
    forall i | 0 <= i < |ss|
      ensures Lower(Lower(ss[i])) == Lower(ss[i])
    {
    }
  }

  /** Two lists of domains read the same exactly if they are, one by one, but for the case of letters. */
  lemma LowerAllIff(ss: seq<string>, ts: seq<string>)
    ensures LowerAll(ss) == LowerAll(ts) <==> |ss| == |ts| && forall i :: 0 <= i < |ss| ==> SameText(ss[i], ts[i])
  {
    if |ss| == |ts| {
      forall i | 0 <= i < |ss|
        ensures LowerAll(ss)[i] == LowerAll(ts)[i] <==> SameText(ss[i], ts[i])
      {
        LowerIff(ss[i], ts[i]);
      }
    }
    assert |ss| == |ts| ==> (LowerAll(ss) == LowerAll(ts) <==> forall i :: 0 <= i < |ss| ==> LowerAll(ss)[i] == LowerAll(ts)[i]);
  }

  lemma LowerIff(s: string, t: string)
    ensures Lower(s) == Lower(t) <==> SameText(s, t)
  {
    if Lower(s) == Lower(t) {
      forall i | 0 <= i < |s|
        ensures SameLetter(s[i], t[i])
      {
        assert Lower(s)[i] == LowerChar(s[i]) && Lower(t)[i] == LowerChar(t[i]);
      }
    }
  }

  function Or<T>(o: Option<T>, d: T): T {
    if o.Some? then o.value else d
  }

  function Restored(u: ListenUndo, l: Listening): Listening {
    Listening(Or(u.domain, l.domain), Or(u.extra, l.extra), Or(u.listeners, l.listeners),
              if u.linkPort.Some? then u.linkPort else l.linkPort)
  }

  /** The two read the same to the agent. */
  predicate SameListening(a: Listening, b: Listening) {
    a.domain == b.domain && LowerAll(a.extra) == LowerAll(b.extra) && a.listeners == b.listeners && a.linkPort == b.linkPort
  }

  // ---- the carrier policy ------------------------------------------------------------------

  ghost predicate SameWebAt(a: WebPolicy.Table, b: WebPolicy.Table, k: WebPolicy.Key) {
    && (k != WebPolicy.Timeouts ==> WebPolicy.Clean(WebPolicy.Get(a, k)) == WebPolicy.Clean(WebPolicy.Get(b, k)))
    && WebPolicy.Clean(WebPolicy.Get(WebPolicy.TimeoutsOf(a), k)) == WebPolicy.Clean(WebPolicy.Get(WebPolicy.TimeoutsOf(b), k))
  }

  /** Every key of [web] and of [web.timeouts] reads the same, null standing for absent. */
  ghost predicate SameWeb(a: WebPolicy.Table, b: WebPolicy.Table) {
    forall k :: SameWebAt(a, b, k)
  }

  /** The [web] table once the kept undo, if there is one, is merged into it. */
  function WebAfter(undo: Option<WebPolicy.Table>, web: WebPolicy.Table): WebPolicy.Table {
    if undo.Some? then WebPolicy.MergeTable(web, undo.value) else web
  }

  /** Merging the undo of a patch brings back what was patched. */
  lemma WebComesBack(start: WebPolicy.Table, p: WebPolicy.Policy)
    ensures var patch := WebPolicy.Patch(start, p);
            SameWeb(WebPolicy.MergeTable(WebPolicy.MergeTable(start, patch), WebPolicy.Undo(start, patch)), start)
  {
    var patch := WebPolicy.Patch(start, p);
    var now := WebPolicy.MergeTable(start, patch);
    forall k
      ensures SameWebAt(WebPolicy.MergeTable(now, WebPolicy.Undo(start, patch)), start, k)
    {
      WebPolicy.UndoRestores(start, p, now, k);
    }
  }

  // ---- the whole record --------------------------------------------------------------------

  /** What the snapshot of the vhosts promises: None that they were not touched. */
  predicate VhostsKept(prev: Option<seq<Vhost>>, now: seq<Vhost>, start: seq<Vhost>) {
    if prev.Some? then prev.value == start else now == start
  }

  predicate SiteKept(backup: Option<Site>, now: Site, start: Site) {
    if backup.Some? then backup.value == start else now == start
  }

  predicate MiddleKept(prev: Option<bool>, now: bool, start: bool) {
    if prev.Some? then prev.value == start else now == start
  }

  predicate ListeningKept(undo: Option<ListenUndo>, now: Listening, start: Listening) {
    if undo.Some? then SameListening(Restored(undo.value, now), start) else now == start
  }

  ghost predicate WebKept(undo: Option<WebPolicy.Table>, now: WebPolicy.Table, start: WebPolicy.Table) {
    if undo.Some? then SameWeb(WebPolicy.MergeTable(now, undo.value), start) else now == start
  }

  /** Everything but the users. */
  ghost predicate ConfigKept(rb: Rollback, now: Node, start: Node) {
    && VhostsKept(rb.prevVhosts, now.vhosts, start.vhosts) && MiddleKept(rb.prevMiddleProxy, now.middleProxy, start.middleProxy)
    && ListeningKept(rb.prevListeners, now.listening, start.listening) && WebKept(rb.prevWebPolicy, now.web, start.web)
    && now.ceilings == start.ceilings
  }

  /** The node is as it was, as far as the agent can read it. */
  ghost predicate SameNode(a: Node, b: Node) {
    && a.users == b.users && a.vhosts == b.vhosts && a.middleProxy == b.middleProxy
    && SameListening(a.listening, b.listening) && SameWeb(a.web, b.web) && a.ceilings == b.ceilings
  }

  lemma SameWebSelf(a: WebPolicy.Table)
    ensures SameWeb(a, a)
  {
  }

  lemma SameNodeSelf(a: Node)
    ensures SameNode(a, a)
  {
  }

  lemma SameNodeTwice(a: Node, b: Node, c: Node)
    requires SameNode(a, b) && SameNode(b, c)
    ensures SameNode(a, c)
  {
    forall k
      ensures SameWebAt(a.web, c.web, k)
    {
      assert SameWebAt(a.web, b.web, k) && SameWebAt(b.web, c.web, k);
    }
  }

  function NameSet(names: seq<Name>): set<Name> {
    set n | n in names
  }

  lemma CreatedGoAway(created: seq<Name>, users: map<Name, User>, start: map<Name, User>)
    requires CreatedOnTop(created, users, start)
    ensures users - NameSet(created) == start
  {
    CreatedOnTopMeans(created, users, start);
  }

  // ---- calls that were told to have failed and took effect -----------------------------------

  datatype Step =
    | Creating(name: Name) | Patching(name: Name) | Deleting(name: Name)
    | SettingProfiles(at: nat) | SettingVhost | SettingListeners | SettingMiddleProxy | SettingWeb
    | Restoring

  /** A call of a step that was reported as failed and took effect all the same, with the node before and after it. */
  datatype Late = Late(step: Step, from: Node, to: Node)

  /** The node as far as the agent knows. */
  function Known(n: Node, late: Option<Late>): Node {
    if late.Some? then late.value.from else n
  }

  /** What a call of each step changes, and what the record holds when it is made. */
  ghost predicate Made(l: Late, rb: Rollback, start: Node) {
    match l.step
    case Creating(n) => n !in l.from.users && n in l.to.users && l.to == l.from.(users := l.to.users)
    case Patching(n) => n in start.users && n in l.to.users && l.to == l.from.(users := l.from.users[n := l.to.users[n]])
    case Deleting(n) => n in start.users && l.to == l.from.(users := l.from.users - {n})
    case SettingProfiles(i) =>
      rb.prevVhosts.None? && l.to.vhosts != l.from.vhosts && ProfilesAt(l.from.vhosts, l.to.vhosts, i) && l.to == l.from.(vhosts := l.to.vhosts)
    case SettingVhost => rb.prevVhosts.Some? && l.to == l.from.(vhosts := l.to.vhosts)
    case SettingListeners =>
      rb.prevListeners.Some? && ListeningKept(rb.prevListeners, l.to.listening, start.listening) && l.to == l.from.(listening := l.to.listening)
    case SettingMiddleProxy => rb.prevMiddleProxy.None? && l.to == l.from.(middleProxy := !l.from.middleProxy)
    case SettingWeb =>
      && rb.prevWebPolicy.None? && (l.to.vhosts == l.from.vhosts || rb.prevVhosts.Some?)
      && l.to == l.from.(web := l.to.web, vhosts := l.to.vhosts)
    case Restoring => false
  }

  /**
   The record brings the node back to the start, as far as the agent knows the node. Only the last call of an
   apply can have been told to have failed.
   */
  ghost predicate Reverts(rb: Rollback, n: Node, late: Option<Late>, start: Node) {
    && UsersUndoable(rb.created, rb.irreversible, Known(n, late).users, start.users) && ConfigKept(rb, Known(n, late), start)
    && (late.Some? ==> n == late.value.to && Made(late.value, rb, start))
  }

  lemma WebBack(undo: Option<WebPolicy.Table>, web: WebPolicy.Table, start: WebPolicy.Table)
    requires WebKept(undo, web, start)
    ensures SameWeb(WebAfter(undo, web), start)
  {
    if undo.None? {
      SameWebSelf(start);
    }
  }

  /** The node a rollback makes when all of its calls succeed. */
  function AfterRollback(rb: Rollback, n: Node): Node {
    n.(users := n.users - NameSet(rb.created),
       vhosts := Or(rb.prevVhosts, n.vhosts),
       middleProxy := Or(rb.prevMiddleProxy, n.middleProxy),
       web := WebAfter(rb.prevWebPolicy, n.web),
       listening := if rb.prevListeners.Some? then Restored(rb.prevListeners.value, n.listening) else n.listening)
  }

  /**
   The late effects that leave nothing behind: those on the vhosts and the listeners, which are recorded before
   they are touched, and requests that made no difference.
   */
  ghost predicate Harmless(late: Option<Late>) {
    late.Some? ==>
      match late.value.step
      case SettingVhost => true
      case SettingListeners => true
      case Patching(_) => late.value.to.users == late.value.from.users
      case SettingWeb => SameWeb(late.value.to.web, late.value.from.web)
      case _ => false
  }

  /** A late patch of the profiles of one vhost is all that is different. */
  predicate AtProfiles(late: Option<Late>, vs: seq<Vhost>, ws: seq<Vhost>) {
    late.Some? && late.value.step.SettingProfiles? && ProfilesAt(vs, ws, late.value.step.at)
  }

  /** Without a late effect a rollback brings everything back. */
  lemma RollbackRestores(rb: Rollback, n: Node, start: Node)
    requires rb.irreversible == [] && Reverts(rb, n, None, start)
    ensures SameNode(AfterRollback(rb, n), start) && AfterRollback(rb, n).vhosts == start.vhosts
  {
    CreatedGoAway(rb.created, n.users, start.users);
    WebBack(rb.prevWebPolicy, n.web, start.web);
  }

  /** A late effect on the users stays exactly if it made a difference. */
  lemma LateUsers(rb: Rollback, l: Late, start: Node)
    requires rb.irreversible == [] && Reverts(rb, l.to, Some(l), start)
    requires l.step.Creating? || l.step.Patching? || l.step.Deleting?
    ensures AfterRollback(rb, l.to).users == start.users <==> Harmless(Some(l))
  {
    CreatedOnTopMeans(rb.created, l.from.users, start.users);
    CreatedGoAway(rb.created, l.from.users, start.users);
    var after := l.to.users - NameSet(rb.created);
    var n := l.step.name;
    assert n !in rb.created;
    match l.step
    case Creating(_) => assert n in after && n !in start.users;
    case Deleting(_) => assert n !in after && n in start.users;
    case Patching(_) =>
      assert n in after && after[n] == l.to.users[n] && n in l.from.users && start.users[n] == l.from.users[n];
      assert l.to.users[n] == l.from.users[n] ==> l.to.users == l.from.users;
  }

  /** The parts of the node that a late effect of the step cannot have changed are back. */
  lemma LateElsewhere(rb: Rollback, l: Late, start: Node)
    requires rb.irreversible == [] && Reverts(rb, l.to, Some(l), start)
    ensures var after := AfterRollback(rb, l.to);
            && (!(l.step.Creating? || l.step.Patching? || l.step.Deleting?) ==> after.users == start.users)
            && (!l.step.SettingProfiles? ==> after.vhosts == start.vhosts)
            && (!l.step.SettingMiddleProxy? ==> after.middleProxy == start.middleProxy)
            && SameListening(after.listening, start.listening) && after.ceilings == start.ceilings
  {
    RollbackRestores(rb, l.from, start);
  }

  lemma LateLeavesWeb(rb: Rollback, l: Late, start: Node)
    requires Made(l, rb, start) && !l.step.SettingWeb?
    ensures l.to.web == l.from.web
  {
  }

  /** The WEB table is back exactly if a late patch of it made no difference. */
  lemma LateWeb(rb: Rollback, l: Late, start: Node)
    requires WebKept(rb.prevWebPolicy, l.from.web, start.web) && Made(l, rb, start)
    ensures SameWeb(AfterRollback(rb, l.to).web, start.web) <==> (l.step.SettingWeb? ==> SameWeb(l.to.web, l.from.web))
  {
    if l.step.SettingWeb? {
      assert AfterRollback(rb, l.to).web == l.to.web && l.from.web == start.web;
    } else {
      LateLeavesWeb(rb, l, start);
      WebBack(rb.prevWebPolicy, l.to.web, start.web);
    }
  }

  /**
   When a rollback that says that it restored everything is right, whatever a call that was told to have failed
   did: exactly if that call was one on the vhosts or the listeners or changed nothing. The listeners are back in
   any case, and the vhosts but for a patch of the profiles.
   */
  lemma RollbackIff(rb: Rollback, n: Node, late: Option<Late>, start: Node)
    requires rb.irreversible == [] && Reverts(rb, n, late, start)
    ensures SameNode(AfterRollback(rb, n), start) <==> Harmless(late)
    ensures SameListening(AfterRollback(rb, n).listening, start.listening) && AfterRollback(rb, n).ceilings == start.ceilings
    ensures AfterRollback(rb, n).vhosts == start.vhosts || AtProfiles(late, start.vhosts, AfterRollback(rb, n).vhosts)
  {
    if late.None? {
      RollbackRestores(rb, n, start);
    } else {
      var l := late.value;
      LateElsewhere(rb, l, start);
      LateWeb(rb, l, start);
      if l.step.Creating? || l.step.Patching? || l.step.Deleting? {
        LateUsers(rb, l, start);
      } else if l.step.SettingProfiles? {
        assert AfterRollback(rb, n).vhosts != start.vhosts;
      } else if l.step.SettingMiddleProxy? {
        assert AfterRollback(rb, n).middleProxy != start.middleProxy;
      }
    }
  }

  /** A user whose creation was told to have failed, and took effect, stays after a rollback that restored everything. */
  lemma LateCreationStays(start: Node, n: Name, u: User)
    requires n !in start.users
    ensures var l := Late(Creating(n), start, start.(users := start.users[n := u]));
            Reverts(UNTOUCHED, l.to, Some(l), start) && n in AfterRollback(UNTOUCHED, l.to).users
  {
  }

  // ---- the record after each step --------------------------------------------------------------

  lemma UntouchedReverts(n: Node)
    ensures Reverts(UNTOUCHED, n, None, n)
  {
  }

  /** The backup of the site and the note about the address are not about the node. */
  lemma RevertsAlso(rb: Rollback, n: Node, start: Node, more: Rollback)
    requires Reverts(rb, n, None, start)
    requires more == rb.(siteBackup := more.siteBackup, publicAddrChanged := more.publicAddrChanged)
    ensures Reverts(more, n, None, start)
  {
  }

  lemma SnapshotIsStart(rb: Rollback, n: Node, late: Option<Late>, start: Node)
    requires Reverts(rb, n, late, start)
    ensures rb.prevVhosts.Some? ==> rb.prevVhosts.value == start.vhosts
  {
  }

  lemma CreationReverts(rb: Rollback, n: Node, start: Node, name: Name, u: User)
    requires Reverts(rb, n, None, start) && name !in n.users
    ensures var to := n.(users := n.users[name := u]);
            && Reverts(rb.(created := rb.created + [name]), to, None, start)
            && Reverts(rb, to, Some(Late(Creating(name), n, to)), start)
  {
    if rb.irreversible == [] {
      OneMoreCreated(rb.created, n.users, start.users, name, u);
    }
  }

  lemma PatchReverts(rb: Rollback, n: Node, start: Node, name: Name, u: User)
    requires Reverts(rb, n, None, start) && name in start.users
    ensures var to := n.(users := n.users[name := u]);
            && Reverts(rb.(irreversible := rb.irreversible + [UserPatched(name)]), to, None, start)
            && Reverts(rb, to, Some(Late(Patching(name), n, to)), start)
  {
  }

  lemma DeletionReverts(rb: Rollback, n: Node, start: Node, name: Name)
    requires Reverts(rb, n, None, start) && name in start.users
    ensures var to := n.(users := n.users - {name});
            && Reverts(rb.(irreversible := rb.irreversible + [UserDeleted(name)]), to, None, start)
            && Reverts(rb, to, Some(Late(Deleting(name), n, to)), start)
  {
  }

  lemma ResetReverts(rb: Rollback, n: Node, start: Node, name: Name)
    requires Reverts(rb, n, None, start)
    ensures Reverts(rb.(irreversible := rb.irreversible + [QuotaReset(name)]), n, None, start)
  {
  }

  lemma ProfilesRevert(rb: Rollback, n: Node, start: Node, vhosts: seq<Vhost>, i: nat)
    requires Reverts(rb, n, None, start) && rb.prevVhosts.None? && vhosts != n.vhosts && ProfilesAt(n.vhosts, vhosts, i)
    ensures var to := n.(vhosts := vhosts);
            && Reverts(rb.(prevVhosts := Some(n.vhosts)), to, None, start)
            && Reverts(rb, to, Some(Late(SettingProfiles(i), n, to)), start)
  {
  }

  /** A snapshot of the vhosts is taken before the first change of one. */
  function WithSnapshot(rb: Rollback, vhosts: seq<Vhost>): Rollback {
    if rb.prevVhosts.None? then rb.(prevVhosts := Some(vhosts)) else rb
  }

  lemma VhostReverts(rb: Rollback, n: Node, start: Node, vhosts: seq<Vhost>)
    requires Reverts(rb, n, None, start)
    ensures var to, kept := n.(vhosts := vhosts), WithSnapshot(rb, n.vhosts);
            Reverts(kept, n, None, start) && Reverts(kept, to, None, start) && Reverts(kept, to, Some(Late(SettingVhost, n, to)), start)
  {
  }

  lemma ListenersRevert(rb: Rollback, n: Node, start: Node, undo: ListenUndo, l: Listening)
    requires Reverts(rb, n, None, start) && rb.prevListeners == Some(undo) && SameListening(Restored(undo, l), start.listening)
    ensures var to := n.(listening := l);
            Reverts(rb, to, None, start) && Reverts(rb, to, Some(Late(SettingListeners, n, to)), start)
  {
  }

  lemma MiddleProxyReverts(rb: Rollback, n: Node, start: Node, want: bool)
    requires Reverts(rb, n, None, start) && rb.prevMiddleProxy.None? && want != n.middleProxy
    ensures var to := n.(middleProxy := want);
            && Reverts(rb.(prevMiddleProxy := Some(n.middleProxy)), to, None, start)
            && Reverts(rb, to, Some(Late(SettingMiddleProxy, n, to)), start)
  {
  }

  lemma WebReverts(rb: Rollback, n: Node, start: Node, web: WebPolicy.Table, undo: WebPolicy.Table, vhosts: seq<Vhost>)
    requires Reverts(rb, n, None, start) && rb.prevWebPolicy.None? && SameWeb(WebPolicy.MergeTable(web, undo), n.web)
    ensures var to, kept := n.(web := web, vhosts := vhosts), if vhosts == n.vhosts then rb else WithSnapshot(rb, n.vhosts);
            && Reverts(kept, n, None, start) && Reverts(kept.(prevWebPolicy := Some(undo)), to, None, start)
            && Reverts(kept, to, Some(Late(SettingWeb, n, to)), start)
  {
  }
}
