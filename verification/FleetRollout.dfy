/**
 One fleet rollout, driven by any number of panels against one durable row.

 A tick takes a session advisory lock and writes the row over the connection that holds it, so losing
 the connection loses the lock and every later write of that tick, but not the tick itself: a panel
 that committed a dispatch can still call Start. The operator may stop the rollout at any moment
 without the lock, jobs of other origin come and go, and a panel may die anywhere.

 `Do` is one atomic step, `Run` any interleaving of steps; an action that is not enabled changes
 nothing. What the nodes report and how they answer a health call is the world's doing; `history` keeps
 what it ever was. `intents`, `starts`, `cleared` and `passed` record what the rollout did and on what grounds.
 */
module FleetRollout {
  import opened Options
  import Versions

  datatype Status = Running | Stopped | Failed | Complete

  datatype Row = Row(status: Status, cursor: nat, dispatchAt: Option<int>, job: Option<nat>)

  datatype JobStatus = InProgress | Succeeded | Ended

  datatype Job = Job(node: nat, startedAt: int, status: JobStatus, finishedAt: Option<int>)

  /** A node's answer to a health call: up and ready, in maintenance mode, with a failed finding. */
  datatype Reading = Reading(up: bool, maintenance: bool, failing: bool)

  /** On what grounds a node was dispatched: the version it was known by, and a reading. */
  datatype Clearance = Clearance(version: string, readAt: int, reading: Reading)

  /** Where a panel is in its tick; `v` is the row as the tick knows it. */
  datatype Pc =
    | Idle
    | Locked
    | Loaded(v: Row)
    | Known(v: Row, version: string)
    | Ready(v: Row, c: Clearance)
    | Dispatching(v: Row)
    | StartRefused(v: Row)
    | Recording(v: Row, id: nat)
    | Watching(v: Row, id: nat)
    | JobOk(v: Row, id: nat, finishedAt: int)
    | Healthy(v: Row, id: nat, finishedAt: int, healthAt: int, reading: Reading)
    | Leaving

  datatype Panel = Panel(pc: Pc, connected: bool)

  /** Why the rollout moved past a node. */
  datatype Evidence =
    | Pinned(version: string)
    | Updated(dispatchedAt: int, job: nat, finishedAt: int, healthAt: int, reading: Reading, checkedAt: int)

  /** Every ok a job ended with, every version a node was known by, every answer it would have given. */
  datatype History = History(oks: set<(nat, int)>, versions: set<(nat, string)>, readings: set<(nat, int, Reading)>)

  datatype Fleet = Fleet(
    nodes: seq<nat>,
    wanted: string,
    row: Row,
    jobs: map<nat, Job>,
    panels: map<nat, Panel>,
    holder: Option<nat>,
    clock: int,
    versions: map<nat, string>,
    health: map<nat, Reading>,
    intents: seq<nat>,
    starts: seq<nat>,
    cleared: map<nat, Clearance>,
    passed: seq<Evidence>,
    history: History)

  /** What happens around the ticks. */
  datatype Event =
    | Tick(seconds: nat)
    | Stop
    | ForeignJob(id: nat, node: nat)
    | JobReport(id: nat, ok: bool)
    | NodeReport(node: nat, version: string)
    | NodeRemoved(node: nat)
    | HealthBecomes(node: nat, reading: Reading)
    | NodeSilent(node: nat)
    | Die(q: nat)
    | LoseConnection(q: nat)

  /** The steps of a tick: around the lock, before a dispatch, handing over, and watching a job. */
  datatype DoorStep = Lock | Load | GiveUp | Unlock
  datatype GateStep = Finish | ReadNode(found: bool) | Skip | CheckHealth(answered: bool) | CommitIntent
  datatype HandStep = CallStart(id: nat, created: bool, ok: bool) | FailStart | RecordJob
  datatype WatchStep = FindJob(id: nat) | FindNoJob | Resume | ReadJob | Observe(answered: bool) | Advance

  datatype Action =
    | World(event: Event)
    | Door(p: nat, door: DoorStep)
    | Gate(p: nat, gate: GateStep)
    | Hand(p: nat, hand: HandStep)
    | Watch(p: nat, watch: WatchStep)

  const OBSERVATION := 60

  function Start(nodes: seq<nat>, wanted: string): Fleet {
    Fleet(nodes, wanted, Row(Running, 0, None, None), map[], map[], None, 0, map[], map[], [], [], map[], [], History({}, {}, {}))
  }

  predicate FitForUpdate(r: Reading) {
    r.up && !r.maintenance
  }

  predicate Recovered(r: Reading) {
    r.up && !r.failing
  }

  /** The node already reports the version the rollout installs. */
  predicate AtTarget(s: Fleet, version: string) {
    Versions.SameTelemtVersion(version, s.wanted)
  }

  // ---- reading and writing the state ----------------------------------------------------

  function PcOf(s: Fleet, p: nat): Pc {
    if p in s.panels then s.panels[p].pc else Idle
  }

  predicate Connected(s: Fleet, p: nat) {
    p in s.panels && s.panels[p].connected
  }

  function Goto(s: Fleet, p: nat, pc: Pc): Fleet {
    s.(panels := s.panels[p := Panel(pc, Connected(s, p))])
  }

  /** `UPDATE ... WHERE id=$1 AND status='running'`. */
  function Guarded(s: Fleet, row: Row): Fleet {
    if s.row.status == Running then s.(row := row) else s
  }

  /** Fails the rollout if it still runs. */
  function Fail(s: Fleet): Fleet {
    Guarded(s, s.row.(status := Failed))
  }

  /** Moves a running rollout past the node under the cursor. */
  function Pass(s: Fleet, row: Row, why: Evidence): Fleet {
    if s.row.status == Running then s.(row := row, passed := s.passed + [why]) else s
  }

  /** The node a tick works on. */
  predicate OnNode(s: Fleet, v: Row) {
    v.cursor < |s.nodes|
  }

  /** The answer to a health call, if there is one. */
  function Answer(s: Fleet, v: Row, answered: bool): Option<Reading>
    requires OnNode(s, v)
  {
    var n := s.nodes[v.cursor];
    if answered && n in s.health then Some(s.health[n]) else None
  }

  function LetGo(s: Fleet, p: nat, pc: Pc): Fleet {
    s.(panels := s.panels[p := Panel(pc, false)], holder := if s.holder == Some(p) then None else s.holder)
  }

  /** One step; the state itself when the step is not enabled. */
  function Do(s: Fleet, a: Action): Fleet {
    match a
    case World(event) => DoEvent(s, event)
    case Door(p, door) => DoDoor(s, p, PcOf(s, p), door)
    case Gate(p, gate) => DoGate(s, p, PcOf(s, p), gate)
    case Hand(p, hand) => DoHand(s, p, PcOf(s, p), hand)
    case Watch(p, watch) => DoWatch(s, p, PcOf(s, p), watch)
  }

  function DoEvent(s: Fleet, event: Event): Fleet {
    match event
    case Tick(seconds) =>
      var now := s.clock + seconds;
      s.(clock := now, history := s.history.(readings := s.history.readings + set n | n in s.health :: (n, now, s.health[n])))
    case Stop => Guarded(s, s.row.(status := Stopped))
    case ForeignJob(id, node) =>
      if id in s.jobs then s else s.(jobs := s.jobs[id := Job(node, s.clock, InProgress, None)])
    case JobReport(id, ok) =>
      if id !in s.jobs then s else
        s.(jobs := s.jobs[id := s.jobs[id].(status := if ok then Succeeded else Ended, finishedAt := Some(s.clock))],
           history := if ok then s.history.(oks := s.history.oks + {(id, s.clock)}) else s.history)
    case NodeReport(n, version) =>
      s.(versions := s.versions[n := version], history := s.history.(versions := s.history.versions + {(n, version)}))
    case NodeRemoved(n) => s.(versions := s.versions - {n})
    case HealthBecomes(n, reading) =>
      s.(health := s.health[n := reading], history := s.history.(readings := s.history.readings + {(n, s.clock, reading)}))
    case NodeSilent(n) => s.(health := s.health - {n})
    case Die(q) => if q in s.panels then LetGo(s, q, Idle) else s
    case LoseConnection(q) => if q in s.panels then LetGo(s, q, s.panels[q].pc) else s
  }

  /** Taking the lock, reading the running row, leaving early, and letting the lock go. */
  function DoDoor(s: Fleet, p: nat, pc: Pc, step: DoorStep): Fleet {
    match step
    case Lock =>
      if pc != Idle || s.holder.Some? then s else
        s.(panels := s.panels[p := Panel(Locked, true)], holder := Some(p))
    case Load =>
      if pc != Locked then s else
        Goto(s, p, if Connected(s, p) && s.row.status == Running then Loaded(s.row) else Leaving)
    case GiveUp => if pc.Idle? || pc.Dispatching? then s else Goto(s, p, Leaving)
    case Unlock => if pc != Leaving then s else LetGo(s, p, Idle)
  }

  /** Before a dispatch: completion, a missing node, the skip, the health gate and the intent. */
  function DoGate(s: Fleet, p: nat, pc: Pc, step: GateStep): Fleet {
    match step
    case Finish =>
      if !pc.Loaded? || OnNode(s, pc.v) then s else
        Goto(if Connected(s, p) then Guarded(s, s.row.(status := Complete)) else s, p, Leaving)
    case ReadNode(found) =>
      if !(pc.Loaded? && OnNode(s, pc.v)) then s else
      if found && s.nodes[pc.v.cursor] in s.versions then Goto(s, p, Known(pc.v, s.versions[s.nodes[pc.v.cursor]]))
      else Goto(if Connected(s, p) then Fail(s) else s, p, Leaving)
    case Skip =>
      if !(pc.Known? && pc.v.dispatchAt.None? && AtTarget(s, pc.version)) then s else
        Goto(if Connected(s, p) then Pass(s, s.row.(cursor := s.row.cursor + 1), Pinned(pc.version)) else s, p, Leaving)
    case CheckHealth(answered) =>
      if !(pc.Known? && OnNode(s, pc.v) && pc.v.dispatchAt.None? && !AtTarget(s, pc.version)) then s else
        var r := Answer(s, pc.v, answered);
        if r.Some? && FitForUpdate(r.value) then Goto(s, p, Ready(pc.v, Clearance(pc.version, s.clock, r.value)))
        else Goto(if Connected(s, p) then Fail(s) else s, p, Leaving)
    case CommitIntent =>
      if !pc.Ready? then s
      else if Connected(s, p) && s.row.status == Running then
        Goto(s.(row := s.row.(dispatchAt := Some(s.clock)), intents := s.intents + [s.row.cursor],
                cleared := s.cleared[s.row.cursor := pc.c]),
             p, Dispatching(pc.v.(dispatchAt := Some(s.clock))))
      else Goto(s, p, Leaving)
  }

  /** The dispatch itself. Start does not go over the connection; recording its job does. */
  function DoHand(s: Fleet, p: nat, pc: Pc, step: HandStep): Fleet {
    match step
    case CallStart(id, created, ok) =>
      if !(pc.Dispatching? && OnNode(s, pc.v) && (created ==> id !in s.jobs) && (ok ==> created)) then s else
        var jobs := if created then s.jobs[id := Job(s.nodes[pc.v.cursor], s.clock, InProgress, None)] else s.jobs;
        Goto(s.(starts := s.starts + [pc.v.cursor], jobs := jobs), p, if ok then Recording(pc.v, id) else StartRefused(pc.v))
    case FailStart =>
      if !pc.StartRefused? then s else Goto(if Connected(s, p) then Fail(s) else s, p, Leaving)
    case RecordJob =>
      if !pc.Recording? then s else
        Goto(if Connected(s, p) then s.(row := s.row.(job := Some(pc.id))) else s, p, Leaving)
  }

  /** After a dispatch: finding its job, following it, observing the node, moving on. */
  function DoWatch(s: Fleet, p: nat, pc: Pc, step: WatchStep): Fleet {
    match step
    case FindJob(id) =>
      if !(pc.Known? && OnNode(s, pc.v) && pc.v.dispatchAt.Some? && pc.v.job.None?) then s else
      if id !in s.jobs || s.jobs[id].node != s.nodes[pc.v.cursor] || s.jobs[id].startedAt < pc.v.dispatchAt.value then s else
      if Connected(s, p) then Goto(s.(row := s.row.(job := Some(id))), p, Watching(pc.v.(job := Some(id)), id))
      else Goto(s, p, Leaving)
    case FindNoJob =>
      if !(pc.Known? && OnNode(s, pc.v) && pc.v.dispatchAt.Some? && pc.v.job.None?) then s else
        Goto(if Connected(s, p) then Fail(s) else s, p, Leaving)
    case Resume =>
      if !(pc.Known? && OnNode(s, pc.v) && pc.v.dispatchAt.Some? && pc.v.job.Some?) then s else
        Goto(s, p, Watching(pc.v, pc.v.job.value))
    case ReadJob =>
      if !(pc.Watching? && pc.id in s.jobs) then s else
        var job := s.jobs[pc.id];
        if !Connected(s, p) || job.status == InProgress then Goto(s, p, Leaving)
        else if job.status == Ended then Goto(Fail(s), p, Leaving)
        else if job.finishedAt.None? then Goto(s, p, Leaving)
        else Goto(s, p, JobOk(pc.v, pc.id, job.finishedAt.value))
    case Observe(answered) =>
      if !(pc.JobOk? && OnNode(s, pc.v)) then s else
        var r := Answer(s, pc.v, answered);
        if r.Some? && Recovered(r.value) then Goto(s, p, Healthy(pc.v, pc.id, pc.finishedAt, s.clock, r.value))
        else Goto(if Connected(s, p) then Fail(s) else s, p, Leaving)
    case Advance =>
      if !(pc.Healthy? && pc.v.dispatchAt.Some?) then s else
      if s.clock - pc.finishedAt < OBSERVATION || !Connected(s, p) then Goto(s, p, Leaving) else
        Goto(Pass(s, s.row.(cursor := s.row.cursor + 1, dispatchAt := None, job := None),
                  Updated(pc.v.dispatchAt.value, pc.id, pc.finishedAt, pc.healthAt, pc.reading, s.clock)),
             p, Leaving)
  }

  function Run(s: Fleet, actions: seq<Action>): Fleet
    decreases |actions|
  {
    if actions == [] then s else Run(Do(s, actions[0]), actions[1..])
  }

  // ---- what holds in every state --------------------------------------------------------

  /** A connected panel in a tick is the lock holder, so there is at most one. */
  ghost predicate LockInv(s: Fleet) {
    && (forall p :: p in s.panels && s.panels[p].connected ==> s.holder == Some(p))
    && (forall p :: p in s.panels && s.panels[p].pc == Idle ==> !s.panels[p].connected)
    && (s.holder.Some? ==> s.holder.value in s.panels && s.panels[s.holder.value].connected)
  }

  /** What a tick remembers agrees with the row, except for a stop it has not seen. */
  ghost predicate Fresh(s: Fleet, v: Row) {
    v.cursor == s.row.cursor && v.dispatchAt == s.row.dispatchAt && v.job == s.row.job
  }

  /** `id` is a job of the node under `v`'s cursor, begun no earlier than the dispatch. */
  ghost predicate JobFor(s: Fleet, id: nat, v: Row) {
    && OnNode(s, v) && v.dispatchAt.Some? && id in s.jobs
    && s.jobs[id].node == s.nodes[v.cursor] && v.dispatchAt.value <= s.jobs[id].startedAt
  }

  /** The node was known by another version and would have answered as fit at the time of the reading. */
  ghost predicate Grounded(s: Fleet, n: nat, c: Clearance) {
    && (n, c.version) in s.history.versions && !AtTarget(s, c.version)
    && (n, c.readAt, c.reading) in s.history.readings && FitForUpdate(c.reading)
  }

  ghost predicate PanelInv(s: Fleet, q: Panel) {
    match q.pc
    case Idle => true
    case Locked => true
    case Leaving => true
    case StartRefused(v) => true
    case Loaded(v) => (q.connected ==> Fresh(s, v)) && (v.job.Some? ==> JobFor(s, v.job.value, v))
    case Known(v, version) =>
      && (q.connected ==> Fresh(s, v)) && (v.job.Some? ==> JobFor(s, v.job.value, v))
      && OnNode(s, v) && (s.nodes[v.cursor], version) in s.history.versions
    case Ready(v, c) => (q.connected ==> Fresh(s, v)) && v.dispatchAt.None? && OnNode(s, v) && Grounded(s, s.nodes[v.cursor], c)
    case Dispatching(v) =>
      && (q.connected ==> Fresh(s, v)) && OnNode(s, v)
      && v.dispatchAt.Some? && v.dispatchAt.value <= s.clock
      && v.cursor in s.intents && v.cursor !in s.starts
    case Recording(v, id) => (q.connected ==> Fresh(s, v)) && JobFor(s, id, v)
    case Watching(v, id) => (q.connected ==> Fresh(s, v)) && JobFor(s, id, v)
    case JobOk(v, id, finishedAt) =>
      && (q.connected ==> Fresh(s, v)) && JobFor(s, id, v) && s.jobs[id].startedAt <= finishedAt <= s.clock
      && (id, finishedAt) in s.history.oks
    case Healthy(v, id, finishedAt, healthAt, reading) =>
      && (q.connected ==> Fresh(s, v)) && JobFor(s, id, v) && s.jobs[id].startedAt <= finishedAt <= healthAt <= s.clock
      && (id, finishedAt) in s.history.oks && (s.nodes[v.cursor], healthAt, reading) in s.history.readings && Recovered(reading)
  }

  ghost predicate PanelsInv(s: Fleet) {
    && (forall p :: p in s.panels ==> PanelInv(s, s.panels[p]))
    && (forall p, q :: p in s.panels && q in s.panels && p != q && s.panels[p].pc.Dispatching? && s.panels[q].pc.Dispatching?
          ==> s.panels[p].pc.v.cursor != s.panels[q].pc.v.cursor)
  }

  ghost predicate NoRepeats(xs: seq<nat>) {
    forall i, j :: 0 <= i < j < |xs| ==> xs[i] != xs[j]
  }

  ghost predicate RowInv(s: Fleet) {
    && s.row.cursor <= |s.nodes|
    && (s.row.dispatchAt.Some? ==> OnNode(s, s.row) && s.row.dispatchAt.value <= s.clock)
    && (s.row.job.Some? ==> JobFor(s, s.row.job.value, s.row))
    && (s.row.status == Complete ==> s.row.cursor == |s.nodes|)
    && (forall id :: id in s.jobs ==> s.jobs[id].startedAt <= s.clock)
    && (forall id :: id in s.jobs && s.jobs[id].finishedAt.Some? ==>
          s.jobs[id].startedAt <= s.jobs[id].finishedAt.value <= s.clock)
  }

  /** Every dispatch is for a node up to the cursor, at most once each, and no Start comes without one. */
  ghost predicate DispatchInv(s: Fleet) {
    && NoRepeats(s.intents) && NoRepeats(s.starts)
    && (forall i :: i in s.intents ==> i <= s.row.cursor && i < |s.nodes|)
    && (s.row.cursor in s.intents <==> s.row.dispatchAt.Some?)
    && (forall i :: i in s.starts ==> i in s.intents)
    && (forall i :: i in s.intents ==> i in s.cleared && Grounded(s, s.nodes[i], s.cleared[i]))
  }

  /** The history has what is there now. */
  ghost predicate HistoryInv(s: Fleet) {
    && (forall n :: n in s.versions ==> (n, s.versions[n]) in s.history.versions)
    && (forall n :: n in s.health ==> (n, s.clock, s.health[n]) in s.history.readings)
    && (forall id :: id in s.jobs && s.jobs[id].status == Succeeded && s.jobs[id].finishedAt.Some? ==>
          (id, s.jobs[id].finishedAt.value) in s.history.oks)
  }

  /**
   What the rollout had seen of a node when it moved on to the next: that the node reported the wanted
   version and was never dispatched, or that it was dispatched and a job of its own, begun after that,
   ended ok, that its answer to a health call after the end was good, and that a minute went by.
   */
  ghost predicate Justified(s: Fleet, i: nat, why: Evidence)
    requires i < |s.nodes|
  {
    match why
    case Pinned(version) => i !in s.intents && (s.nodes[i], version) in s.history.versions && AtTarget(s, version)
    case Updated(dispatchedAt, job, finishedAt, healthAt, reading, checkedAt) =>
      && i in s.intents
      && job in s.jobs && s.jobs[job].node == s.nodes[i] && (job, finishedAt) in s.history.oks
      && (s.nodes[i], healthAt, reading) in s.history.readings && Recovered(reading)
      && dispatchedAt <= s.jobs[job].startedAt <= finishedAt <= healthAt <= checkedAt
      && checkedAt - finishedAt >= OBSERVATION
  }

  ghost predicate OrderInv(s: Fleet) {
    && |s.passed| == s.row.cursor <= |s.nodes|
    && (forall i :: 0 <= i < |s.passed| ==> Justified(s, i, s.passed[i]))
  }

  /** The part that does not speak of the panels. */
  ghost predicate BookInv(s: Fleet) {
    RowInv(s) && DispatchInv(s) && OrderInv(s) && HistoryInv(s)
  }

  ghost predicate Inv(s: Fleet) {
    LockInv(s) && PanelsInv(s) && BookInv(s)
  }

  // ---- the kinds of steps ---------------------------------------------------------------

  /** Jobs keep their node and start, and the history only grows. */
  ghost predicate Grows(s: Fleet, s': Fleet) {
    && s'.nodes == s.nodes && s'.wanted == s.wanted && s.clock <= s'.clock
    && s.history.oks <= s'.history.oks && s.history.versions <= s'.history.versions && s.history.readings <= s'.history.readings
    && (forall id :: id in s.jobs ==>
          id in s'.jobs && s'.jobs[id].node == s.jobs[id].node && s'.jobs[id].startedAt == s.jobs[id].startedAt)
  }

  /** The evidence stays good while no earlier intent changes. */
  lemma OrderKeeps(s: Fleet, s': Fleet)
    requires OrderInv(s) && Grows(s, s') && s'.passed == s.passed && s'.row.cursor == s.row.cursor
    requires forall i :: 0 <= i < s.row.cursor ==> (i in s'.intents <==> i in s.intents)
    ensures OrderInv(s')
  {
    forall i | 0 <= i < |s'.passed| ensures Justified(s', i, s'.passed[i]) {
      assert Justified(s, i, s.passed[i]);
    }
  }

  /** A panel that did not move still fits a state in which the row, seen by a connected tick, is the same. */
  lemma PanelKeeps(s: Fleet, s': Fleet, q: Panel)
    requires PanelInv(s, q) && Grows(s, s')
    requires q.connected ==> Fresh(s', s.row)
    requires forall i :: i in s.intents ==> i in s'.intents
    requires q.pc.Dispatching? && q.pc.v.cursor !in s.starts ==> q.pc.v.cursor !in s'.starts
    ensures PanelInv(s', q)
  {
  }

  /** Every panel but `p` stays where it is, and keeps its connection or loses it. */
  ghost predicate OthersStay(s: Fleet, s': Fleet, p: nat) {
    forall q :: q in s'.panels && q != p ==>
      q in s.panels && s'.panels[q].pc == s.panels[q].pc && (s'.panels[q].connected ==> s.panels[q].connected && Fresh(s', s.row))
  }

  /** The panels after a step of `p`, once `p` itself fits. */
  lemma PanelsKeep(s: Fleet, s': Fleet, p: nat)
    requires PanelsInv(s) && Grows(s, s') && OthersStay(s, s', p)
    requires forall i :: i in s.intents ==> i in s'.intents
    requires forall i :: i in s'.starts ==> i in s.starts || (PcOf(s, p).Dispatching? && PcOf(s, p).v.cursor == i)
    requires p in s'.panels ==> PanelInv(s', s'.panels[p])
    requires PcOf(s', p).Dispatching? ==>
               PcOf(s, p) == PcOf(s', p) || (forall q :: q in s.panels && s.panels[q].pc.Dispatching? ==> s.panels[q].pc.v.cursor != PcOf(s', p).v.cursor)
    ensures PanelsInv(s')
  {
    forall q | q in s'.panels && q != p ensures PanelInv(s', s'.panels[q]) {
      assert PanelInv(s, s.panels[q]);
      PanelKeeps(s, s', s'.panels[q]);
    }
  }

  /** No panel moved. */
  lemma AllPanelsKeep(s: Fleet, s': Fleet)
    requires PanelsInv(s) && Grows(s, s') && s'.panels == s.panels && Fresh(s', s.row)
    requires s'.intents == s.intents && s'.starts == s.starts
    ensures PanelsInv(s')
  {
    forall q | q in s'.panels ensures PanelInv(s', s'.panels[q]) {
      PanelKeeps(s, s', s'.panels[q]);
    }
  }

  lemma BookStays(s: Fleet, s': Fleet)
    requires BookInv(s) && s' == s.(panels := s'.panels, holder := s'.holder)
    ensures BookInv(s')
  {
    OrderKeeps(s, s');
  }

  lemma GotoLock(s: Fleet, p: nat, pc: Pc)
    requires LockInv(s) && p in s.panels && (s.panels[p].connected ==> pc != Idle)
    ensures LockInv(Goto(s, p, pc))
  {
  }

  /** Moving one panel on, to a place that fits the state. */
  lemma GotoKeeps(s: Fleet, p: nat, pc: Pc)
    requires Inv(s) && p in s.panels && pc != Idle && !pc.Dispatching?
    requires PanelInv(s, Panel(pc, Connected(s, p)))
    ensures Inv(Goto(s, p, pc))
  {
    var s' := Goto(s, p, pc);
    PanelsKeep(s, s', p);
    BookStays(s, s');
    GotoLock(s, p, pc);
  }

  lemma StatusKeeps(s: Fleet, status: Status)
    requires Inv(s) && (status == Complete ==> s.row.cursor == |s.nodes|)
    ensures Inv(s.(row := s.row.(status := status)))
  {
    var s' := s.(row := s.row.(status := status));
    AllPanelsKeep(s, s');
    OrderKeeps(s, s');
  }

  /** The guarded failure over a live connection, followed by leaving the tick. */
  lemma FailKeeps(s: Fleet, p: nat)
    requires Inv(s) && p in s.panels
    ensures Inv(Goto(if Connected(s, p) then Fail(s) else s, p, Leaving))
  {
    StatusKeeps(s, Failed);
    GotoKeeps(if Connected(s, p) then Fail(s) else s, p, Leaving);
  }

  /** The world moves on; nothing a panel, the row or the evidence relies on is lost. */
  lemma WorldKeeps(s: Fleet, s': Fleet)
    requires Inv(s) && Grows(s, s') && HistoryInv(s')
    requires s' == s.(clock := s'.clock, jobs := s'.jobs, versions := s'.versions, health := s'.health, history := s'.history)
    requires forall id :: id in s'.jobs ==> s'.jobs[id].startedAt <= s'.clock
    requires forall id :: id in s'.jobs && s'.jobs[id].finishedAt.Some? ==>
               s'.jobs[id].startedAt <= s'.jobs[id].finishedAt.value <= s'.clock
    ensures Inv(s')
  {
    AllPanelsKeep(s, s');
    OrderKeeps(s, s');
    assert forall i :: i in s.intents ==> Grounded(s, s.nodes[i], s.cleared[i]);
  }

  /** A panel loses its connection, and with it the lock, or leaves the tick altogether. */
  lemma LetGoKeeps(s: Fleet, p: nat, pc: Pc)
    requires Inv(s) && p in s.panels && pc in {Idle, s.panels[p].pc}
    ensures Inv(LetGo(s, p, pc))
  {
    hide BookInv;
    var s' := LetGo(s, p, pc);
    assert PanelInv(s, s.panels[p]);
    PanelsKeep(s, s', p);
    BookStays(s, s');
    LetGoLock(s, p, pc);
  }

  lemma LetGoLock(s: Fleet, p: nat, pc: Pc)
    requires LockInv(s) && p in s.panels
    ensures LockInv(LetGo(s, p, pc))
  {
  }

  lemma LockKeeps(s: Fleet, p: nat)
    requires Inv(s) && PcOf(s, p) == Idle && s.holder.None?
    ensures Inv(DoDoor(s, p, Idle, Lock))
  {
    hide BookInv;
    var s' := DoDoor(s, p, Idle, Lock);
    PanelsKeep(s, s', p);
    BookStays(s, s');
  }

  lemma PassBook(s: Fleet, why: Evidence)
    requires BookInv(s) && OnNode(s, s.row) && s.row.status == Running && Justified(s, s.row.cursor, why)
    ensures BookInv(Pass(s, s.row.(cursor := s.row.cursor + 1, dispatchAt := None, job := None), why))
  {
    var s' := Pass(s, s.row.(cursor := s.row.cursor + 1, dispatchAt := None, job := None), why);
    forall i | 0 <= i < |s'.passed| ensures Justified(s', i, s'.passed[i]) {
      if i < |s.passed| {
        assert Justified(s, i, s.passed[i]);
      }
    }
    assert forall i :: i in s.intents ==> Grounded(s, s.nodes[i], s.cleared[i]);
  }

  lemma PassKeeps(s: Fleet, p: nat, why: Evidence)
    requires Inv(s) && Connected(s, p) && s.panels[p].pc != Idle && OnNode(s, s.row) && s.row.status == Running
    requires Justified(s, s.row.cursor, why)
    ensures Inv(Goto(Pass(s, s.row.(cursor := s.row.cursor + 1, dispatchAt := None, job := None), why), p, Leaving))
  {
    hide BookInv;
    var moved := Pass(s, s.row.(cursor := s.row.cursor + 1, dispatchAt := None, job := None), why);
    var s' := Goto(moved, p, Leaving);
    PanelsKeep(s, s', p);  // no other panel is connected
    PassBook(s, why);
    BookStays(moved, s');
    GotoLock(s, p, Leaving);
  }

  /** Committing the intent: the only place where a dispatch comes into being. */
  lemma CommitKeeps(s: Fleet, p: nat)
    requires Inv(s) && PcOf(s, p).Ready? && Connected(s, p) && s.row.status == Running
    ensures Inv(DoGate(s, p, PcOf(s, p), CommitIntent))
  {
    hide AtTarget, OrderInv, HistoryInv;
    var s' := DoGate(s, p, PcOf(s, p), CommitIntent);
    assert PanelInv(s, s.panels[p]);
    var c := s.panels[p].pc.c;
    forall q | q in s.panels && s.panels[q].pc.Dispatching? ensures s.panels[q].pc.v.cursor != s.row.cursor {
      assert PanelInv(s, s.panels[q]);
    }
    PanelsKeep(s, s', p);  // no other panel is connected
    CommitBook(s, c);
    BookStays(Committed(s, c), s');
    GotoLock(s, p, Dispatching(s.panels[p].pc.v.(dispatchAt := Some(s.clock))));
  }

  function Committed(s: Fleet, c: Clearance): Fleet {
    s.(row := s.row.(dispatchAt := Some(s.clock)), intents := s.intents + [s.row.cursor], cleared := s.cleared[s.row.cursor := c])
  }

  lemma CommitBook(s: Fleet, c: Clearance)
    requires BookInv(s) && OnNode(s, s.row) && s.row.dispatchAt.None? && Grounded(s, s.nodes[s.row.cursor], c)
    ensures BookInv(Committed(s, c))
  {
    var s' := Committed(s, c);
    assert s.row.cursor !in s.intents;
    OrderKeeps(s, s');
    assert forall i :: i in s.intents ==> Grounded(s, s.nodes[i], s.cleared[i]);
  }

  /** Calling Start uses the intent up. */
  lemma StartKeeps(s: Fleet, p: nat, id: nat, created: bool, ok: bool)
    requires Inv(s) && PcOf(s, p).Dispatching? && (created ==> id !in s.jobs) && (ok ==> created)
    ensures Inv(DoHand(s, p, PcOf(s, p), CallStart(id, created, ok)))
  {
    hide AtTarget, OrderInv, HistoryInv, RowInv;
    assert PanelInv(s, s.panels[p]);
    var s' := DoHand(s, p, PcOf(s, p), CallStart(id, created, ok));
    var i := s.panels[p].pc.v.cursor;
    StartPanels(s, p, id, created, ok);
    StartBook(s, i, s'.jobs);
    BookStays(s.(starts := s.starts + [i], jobs := s'.jobs), s');
    GotoLock(s, p, s'.panels[p].pc);
  }

  lemma StartPanels(s: Fleet, p: nat, id: nat, created: bool, ok: bool)
    requires Inv(s) && PcOf(s, p).Dispatching? && OnNode(s, PcOf(s, p).v) && (created ==> id !in s.jobs) && (ok ==> created)
    ensures PanelsInv(DoHand(s, p, PcOf(s, p), CallStart(id, created, ok)))
  {
    hide AtTarget, BookInv;
    assert PanelInv(s, s.panels[p]);
    PanelsKeep(s, DoHand(s, p, PcOf(s, p), CallStart(id, created, ok)), p);
  }

  lemma StartBook(s: Fleet, i: nat, jobs: map<nat, Job>)
    requires BookInv(s) && i in s.intents && i !in s.starts
    requires forall id :: id in s.jobs ==> id in jobs && jobs[id] == s.jobs[id]
    requires forall id :: id in jobs && id !in s.jobs ==> jobs[id].startedAt == s.clock && jobs[id].status == InProgress && jobs[id].finishedAt.None?
    ensures BookInv(s.(starts := s.starts + [i], jobs := jobs))
  {
    var s' := s.(starts := s.starts + [i], jobs := jobs);
    OrderKeeps(s, s');
    assert forall i :: i in s.intents ==> Grounded(s, s.nodes[i], s.cleared[i]);
  }

  /** Writing the job of the current dispatch into the row. */
  lemma JobBook(s: Fleet, id: nat)
    requires BookInv(s) && JobFor(s, id, s.row)
    ensures BookInv(s.(row := s.row.(job := Some(id))))
  {
    OrderKeeps(s, s.(row := s.row.(job := Some(id))));
    assert forall i :: i in s.intents ==> Grounded(s, s.nodes[i], s.cleared[i]);
  }

  lemma JobKeeps(s: Fleet, p: nat, id: nat, pc: Pc)
    requires Inv(s) && Connected(s, p) && s.panels[p].pc != Idle && JobFor(s, id, s.row)
    requires pc == Leaving || (pc.Watching? && pc.id == id && Fresh(s, pc.v.(job := s.row.job)) && pc.v.job == Some(id))
    ensures Inv(Goto(s.(row := s.row.(job := Some(id))), p, pc))
  {
    var found := s.(row := s.row.(job := Some(id)));
    var s' := Goto(found, p, pc);
    PanelsKeep(s, s', p);  // no other panel is connected
    JobBook(s, id);
    BookStays(found, s');
    GotoLock(s, p, pc);
  }

  lemma TickKeeps(s: Fleet, seconds: nat)
    requires Inv(s)
    ensures Inv(DoEvent(s, Tick(seconds)))
  {
    WorldKeeps(s, DoEvent(s, Tick(seconds)));
  }

  lemma ForeignJobKeeps(s: Fleet, id: nat, n: nat)
    requires Inv(s)
    ensures Inv(DoEvent(s, ForeignJob(id, n)))
  {
    var s' := DoEvent(s, ForeignJob(id, n));
    if id !in s.jobs {
      ForeignInHistory(s, id, n);
      assert Grows(s, s');
      WorldKeeps(s, s');
    }
  }

  lemma ForeignInHistory(s: Fleet, id: nat, n: nat)
    requires HistoryInv(s) && id !in s.jobs
    ensures HistoryInv(DoEvent(s, ForeignJob(id, n)))
  {
    var s' := DoEvent(s, ForeignJob(id, n));
    forall j | j in s'.jobs && s'.jobs[j].status == Succeeded && s'.jobs[j].finishedAt.Some?
      ensures (j, s'.jobs[j].finishedAt.value) in s'.history.oks
    {
      assert j != id && s'.jobs[j] == s.jobs[j];
    }
  }

  lemma JobReportKeeps(s: Fleet, id: nat, ok: bool)
    requires Inv(s) && id in s.jobs
    ensures Inv(DoEvent(s, JobReport(id, ok)))
  {
    var s' := DoEvent(s, JobReport(id, ok));
    ReportInHistory(s, id, ok);
    assert Grows(s, s');
    WorldKeeps(s, s');
  }

  lemma ReportInHistory(s: Fleet, id: nat, ok: bool)
    requires HistoryInv(s) && id in s.jobs
    ensures HistoryInv(DoEvent(s, JobReport(id, ok)))
  {
    var s' := DoEvent(s, JobReport(id, ok));
    forall j | j in s'.jobs && s'.jobs[j].status == Succeeded && s'.jobs[j].finishedAt.Some?
      ensures (j, s'.jobs[j].finishedAt.value) in s'.history.oks
    {
      if j != id {
        assert s'.jobs[j] == s.jobs[j];
      }
    }
  }

  lemma NodeEventKeeps(s: Fleet, event: Event)
    requires Inv(s) && (event.NodeReport? || event.NodeRemoved? || event.HealthBecomes? || event.NodeSilent?)
    ensures Inv(DoEvent(s, event))
  {
    WorldKeeps(s, DoEvent(s, event));
  }

  lemma EventKeeps(s: Fleet, event: Event)
    requires Inv(s)
    ensures Inv(DoEvent(s, event))
  {
    match event
    case Stop => StatusKeeps(s, Stopped);
    case Die(q) => if q in s.panels { LetGoKeeps(s, q, Idle); }
    case LoseConnection(q) => if q in s.panels { LetGoKeeps(s, q, s.panels[q].pc); }
    case Tick(seconds) => TickKeeps(s, seconds);
    case ForeignJob(id, n) => ForeignJobKeeps(s, id, n);
    case JobReport(id, ok) => if id in s.jobs { JobReportKeeps(s, id, ok); }
    case _ => NodeEventKeeps(s, event);
  }

  lemma DoorKeeps(s: Fleet, p: nat, step: DoorStep)
    requires Inv(s)
    ensures Inv(DoDoor(s, p, PcOf(s, p), step))
  {
    var pc := PcOf(s, p);
    match step
    case Lock => if pc == Idle && s.holder.None? { LockKeeps(s, p); }
    case Load => if pc == Locked {
      GotoKeeps(s, p, if Connected(s, p) && s.row.status == Running then Loaded(s.row) else Leaving);
    }
    case GiveUp => if !pc.Idle? && !pc.Dispatching? { GotoKeeps(s, p, Leaving); }
    case Unlock => if pc == Leaving { LetGoKeeps(s, p, Idle); }
  }

  lemma GateKeeps(s: Fleet, p: nat, step: GateStep)
    requires Inv(s)
    ensures Inv(DoGate(s, p, PcOf(s, p), step))
  {
    hide LockInv, AtTarget, OrderInv, DispatchInv;
    var pc := PcOf(s, p);
    if DoGate(s, p, pc, step) == s {
      return;
    }
    assert PanelInv(s, s.panels[p]);
    match step
    case Finish => FinishKeeps(s, p);
    case ReadNode(found) =>
      if found && s.nodes[pc.v.cursor] in s.versions {
        GotoKeeps(s, p, Known(pc.v, s.versions[s.nodes[pc.v.cursor]]));
      } else {
        FailKeeps(s, p);
      }
    case Skip => SkipKeeps(s, p);
    case CheckHealth(answered) =>
      var r := Answer(s, pc.v, answered);
      if r.Some? && FitForUpdate(r.value) {
        GotoKeeps(s, p, Ready(pc.v, Clearance(pc.version, s.clock, r.value)));
      } else {
        FailKeeps(s, p);
      }
    case CommitIntent =>
      if Connected(s, p) && s.row.status == Running {
        CommitKeeps(s, p);
      } else {
        GotoKeeps(s, p, Leaving);
      }
  }

  lemma FinishKeeps(s: Fleet, p: nat)
    requires Inv(s) && PcOf(s, p).Loaded? && !OnNode(s, PcOf(s, p).v)
    ensures Inv(Goto(if Connected(s, p) then Guarded(s, s.row.(status := Complete)) else s, p, Leaving))
  {
    assert PanelInv(s, s.panels[p]);
    if Connected(s, p) {
      StatusKeeps(s, Complete);
    }
    GotoKeeps(if Connected(s, p) then Guarded(s, s.row.(status := Complete)) else s, p, Leaving);
  }

  lemma SkipKeeps(s: Fleet, p: nat)
    requires Inv(s) && PcOf(s, p).Known? && PcOf(s, p).v.dispatchAt.None? && AtTarget(s, PcOf(s, p).version)
    ensures Inv(DoGate(s, p, PcOf(s, p), Skip))
  {
    var pc := PcOf(s, p);
    assert PanelInv(s, s.panels[p]);
    if Connected(s, p) && s.row.status == Running {
      PassKeeps(s, p, Pinned(pc.version));
    } else {
      GotoKeeps(s, p, Leaving);
    }
  }

  lemma RecordKeeps(s: Fleet, p: nat)
    requires Inv(s) && PcOf(s, p).Recording?
    ensures Inv(DoHand(s, p, PcOf(s, p), RecordJob))
  {
    assert PanelInv(s, s.panels[p]);
    if Connected(s, p) {
      JobKeeps(s, p, PcOf(s, p).id, Leaving);
    } else {
      GotoKeeps(s, p, Leaving);
    }
  }

  lemma HandKeeps(s: Fleet, p: nat, step: HandStep)
    requires Inv(s)
    ensures Inv(DoHand(s, p, PcOf(s, p), step))
  {
    var pc := PcOf(s, p);
    if DoHand(s, p, pc, step) == s {
      return;
    }
    match step
    case CallStart(id, created, ok) => StartKeeps(s, p, id, created, ok);
    case FailStart => FailKeeps(s, p);
    case RecordJob => RecordKeeps(s, p);
  }

  lemma WatchKeeps(s: Fleet, p: nat, step: WatchStep)
    requires Inv(s)
    ensures Inv(DoWatch(s, p, PcOf(s, p), step))
  {
    hide BookInv, LockInv;
    var pc := PcOf(s, p);
    if DoWatch(s, p, pc, step) == s {
      return;
    }
    assert PanelInv(s, s.panels[p]);
    match step
    case FindJob(id) =>
      if Connected(s, p) {
        JobKeeps(s, p, id, Watching(pc.v.(job := Some(id)), id));
      } else {
        GotoKeeps(s, p, Leaving);
      }
    case FindNoJob => FailKeeps(s, p);
    case Resume => GotoKeeps(s, p, Watching(pc.v, pc.v.job.value));
    case ReadJob => ReadJobKeeps(s, p);
    case Observe(answered) => ObserveKeeps(s, p, answered);
    case Advance => AdvanceKeeps(s, p);
  }

  lemma ObserveKeeps(s: Fleet, p: nat, answered: bool)
    requires Inv(s) && PcOf(s, p).JobOk?
    ensures Inv(DoWatch(s, p, PcOf(s, p), Observe(answered)))
  {
    var pc := PcOf(s, p);
    assert PanelInv(s, s.panels[p]);
    var r := Answer(s, pc.v, answered);
    if r.Some? && Recovered(r.value) {
      GotoKeeps(s, p, Healthy(pc.v, pc.id, pc.finishedAt, s.clock, r.value));
    } else {
      FailKeeps(s, p);
    }
  }

  lemma ReadJobKeeps(s: Fleet, p: nat)
    requires Inv(s) && PcOf(s, p).Watching?
    ensures Inv(DoWatch(s, p, PcOf(s, p), ReadJob))
  {
    hide BookInv, LockInv;
    var pc := s.panels[p].pc;
    assert PanelInv(s, s.panels[p]);
    var job := s.jobs[pc.id];
    if !Connected(s, p) || job.status == InProgress {
      GotoKeeps(s, p, Leaving);
    } else if job.status == Ended {
      FailKeeps(s, p);
    } else if job.finishedAt.None? {
      GotoKeeps(s, p, Leaving);
    } else {
      JobOkKeeps(s, p, pc.v, pc.id, job);
    }
  }

  lemma JobOkKeeps(s: Fleet, p: nat, v: Row, id: nat, job: Job)
    requires Inv(s) && p in s.panels && PanelInv(s, s.panels[p]) && s.panels[p].pc == Watching(v, id)
    requires id in s.jobs && s.jobs[id] == job && job.status == Succeeded && job.finishedAt.Some?
    ensures Inv(Goto(s, p, JobOk(v, id, job.finishedAt.value)))
  {
    GotoKeeps(s, p, JobOk(v, id, job.finishedAt.value));
  }

  lemma AdvanceKeeps(s: Fleet, p: nat)
    requires Inv(s) && PcOf(s, p).Healthy?
    ensures Inv(DoWatch(s, p, PcOf(s, p), Advance))
  {
    hide LockInv, OrderInv;
    var pc := s.panels[p].pc;
    assert PanelInv(s, s.panels[p]);
    if s.clock - pc.finishedAt >= OBSERVATION && Connected(s, p) && s.row.status == Running {
      PassKeeps(s, p, Updated(pc.v.dispatchAt.value, pc.id, pc.finishedAt, pc.healthAt, pc.reading, s.clock));
    } else {
      GotoKeeps(s, p, Leaving);
    }
  }

  /** Every step keeps the invariant. */
  lemma StepKeeps(s: Fleet, a: Action)
    requires Inv(s)
    ensures Inv(Do(s, a))
  {
    match a
    case World(event) => EventKeeps(s, event);
    case Door(p, door) => DoorKeeps(s, p, door);
    case Gate(p, gate) => GateKeeps(s, p, gate);
    case Hand(p, hand) => HandKeeps(s, p, hand);
    case Watch(p, watch) => WatchKeeps(s, p, watch);
  }

  lemma {:induction false} RunKeeps(s: Fleet, actions: seq<Action>)
    requires Inv(s)
    ensures Inv(Run(s, actions))
    decreases |actions|
  {
    if actions != [] {
      StepKeeps(s, actions[0]);
      RunKeeps(Do(s, actions[0]), actions[1..]);
    }
  }

  // ---- the rollout ------------------------------------------------------------------------

  lemma StartHolds(nodes: seq<nat>, wanted: string)
    ensures Inv(Start(nodes, wanted))
  {
  }

  /** What no step changes, and what no step changes once the rollout has ended. */
  ghost predicate StepFrame(s: Fleet, s': Fleet) {
    && s'.nodes == s.nodes && s'.wanted == s.wanted
    && (s.row.status != Running ==>
          && s'.row.status == s.row.status && s'.row.cursor == s.row.cursor
          && s'.intents == s.intents && s'.cleared == s.cleared && s'.passed == s.passed)
  }

  lemma EventFrame(s: Fleet, event: Event)
    ensures StepFrame(s, DoEvent(s, event))
  {
  }

  lemma DoorFrame(s: Fleet, p: nat, pc: Pc, step: DoorStep)
    ensures StepFrame(s, DoDoor(s, p, pc, step))
  {
  }

  lemma ClearanceFrame(s: Fleet, p: nat, pc: Pc, answered: bool)
    ensures StepFrame(s, DoGate(s, p, pc, CheckHealth(answered)))
  {
    hide AtTarget, FitForUpdate;
  }

  lemma GateFrame(s: Fleet, p: nat, pc: Pc, step: GateStep)
    ensures StepFrame(s, DoGate(s, p, pc, step))
  {
    hide AtTarget, FitForUpdate, OnNode;
    if step.CheckHealth? {
      ClearanceFrame(s, p, pc, step.answered);
    }
  }

  lemma HandFrame(s: Fleet, p: nat, pc: Pc, step: HandStep)
    ensures StepFrame(s, DoHand(s, p, pc, step))
  {
  }

  lemma FollowFrame(s: Fleet, p: nat, pc: Pc, step: WatchStep)
    requires step.FindNoJob? || step.Resume? || step.ReadJob? || step.Observe?
    ensures StepFrame(s, DoWatch(s, p, pc, step))
  {
    hide Recovered, OnNode;
  }

  lemma WatchFrame(s: Fleet, p: nat, pc: Pc, step: WatchStep)
    ensures StepFrame(s, DoWatch(s, p, pc, step))
  {
    hide Recovered, OnNode;
    if !step.FindJob? && !step.Advance? {
      FollowFrame(s, p, pc, step);
    }
  }

  lemma DoFrame(s: Fleet, a: Action)
    ensures StepFrame(s, Do(s, a))
  {
    match a
    case World(event) => EventFrame(s, event);
    case Door(p, door) => DoorFrame(s, p, PcOf(s, p), door);
    case Gate(p, gate) => GateFrame(s, p, PcOf(s, p), gate);
    case Hand(p, hand) => HandFrame(s, p, PcOf(s, p), hand);
    case Watch(p, watch) => WatchFrame(s, p, PcOf(s, p), watch);
  }

  lemma {:induction false} RunFrame(s: Fleet, actions: seq<Action>)
    ensures StepFrame(s, Run(s, actions))
    decreases |actions|
  {
    if actions != [] {
      DoFrame(s, actions[0]);
      RunFrame(Do(s, actions[0]), actions[1..]);
    }
  }

  /** The node each Start was called for, in order. */
  function Started(s: Fleet): seq<nat>
    requires forall i :: i in s.starts ==> i < |s.nodes|
  {
    seq(|s.starts|, k requires 0 <= k < |s.starts| => assert s.starts[k] in s.starts; s.nodes[s.starts[k]])
  }

  /** Whatever panels, operator and crashes do, Start is called at most once per node. */
  lemma StartedAtMostOnce(nodes: seq<nat>, wanted: string, actions: seq<Action>)
    requires NoRepeats(nodes)
    ensures var s := Run(Start(nodes, wanted), actions);
            (forall i :: i in s.starts ==> i < |s.nodes|) && NoRepeats(Started(s))
  {
    var s := Run(Start(nodes, wanted), actions);
    StartHolds(nodes, wanted);
    RunKeeps(Start(nodes, wanted), actions);
    RunFrame(Start(nodes, wanted), actions);
    assert forall i :: i in s.starts ==> i in s.intents;
    var started := Started(s);
    forall i, j | 0 <= i < j < |started| ensures started[i] != started[j] {
      var x, y := s.starts[i], s.starts[j];
      assert x in s.starts && y in s.starts && x != y;
      assert x < y ==> nodes[x] != nodes[y];
      assert y < x ==> nodes[y] != nodes[x];
    }
  }

  /** What the history holds of an answer the node would have given at the time. */
  ghost predicate Answered(s: Fleet, n: nat, at: int, r: Reading) {
    (n, at, r) in s.history.readings
  }

  /**
   The order of a rollout. A node is dispatched only after it was known by a version other than the wanted one
   and answered as up and not in maintenance mode; the rollout moves past a node only if it was known by the wanted
   version and never dispatched, or if after its dispatch a job of its own ended ok, it then answered as up and
   without a failed finding, and a minute went by. No node beyond the cursor was dispatched, and a complete rollout
   has passed every node.
   */
  lemma RolloutOrder(nodes: seq<nat>, wanted: string, actions: seq<Action>)
    ensures var s := Run(Start(nodes, wanted), actions);
            && s.nodes == nodes && s.wanted == wanted && |s.passed| == s.row.cursor <= |nodes|
            && (forall i :: i in s.intents || i in s.starts ==> i <= s.row.cursor && i < |nodes|)
            && (forall i :: i in s.intents ==> Dispatched(s, i))
            && (forall i :: 0 <= i < s.row.cursor ==> if s.passed[i].Pinned? then PassedPinned(s, i) else PassedUpdated(s, i))
            && (s.row.status == Complete ==> s.row.cursor == |nodes|)
  {
    StartHolds(nodes, wanted);
    RunKeeps(Start(nodes, wanted), actions);
    RunFrame(Start(nodes, wanted), actions);
    var s := Run(Start(nodes, wanted), actions);
    forall i | 0 <= i < s.row.cursor
      ensures if s.passed[i].Pinned? then PassedPinned(s, i) else PassedUpdated(s, i)
    {
      assert Justified(s, i, s.passed[i]);
    }
  }

  ghost predicate Dispatched(s: Fleet, i: nat)
    requires i < |s.nodes|
  {
    && i in s.cleared && (s.nodes[i], s.cleared[i].version) in s.history.versions
    && !Versions.SameTelemtVersion(s.cleared[i].version, s.wanted)
    && Answered(s, s.nodes[i], s.cleared[i].readAt, s.cleared[i].reading)
    && s.cleared[i].reading.up && !s.cleared[i].reading.maintenance
  }

  ghost predicate PassedPinned(s: Fleet, i: nat)
    requires i < |s.nodes| && i < |s.passed| && s.passed[i].Pinned?
  {
    && i !in s.intents && (s.nodes[i], s.passed[i].version) in s.history.versions
    && Versions.SameTelemtVersion(s.passed[i].version, s.wanted)
  }

  ghost predicate PassedUpdated(s: Fleet, i: nat)
    requires i < |s.nodes| && i < |s.passed| && s.passed[i].Updated?
  {
    var why := s.passed[i];
    && i in s.intents
    && why.job in s.jobs && s.jobs[why.job].node == s.nodes[i] && (why.job, why.finishedAt) in s.history.oks
    && Answered(s, s.nodes[i], why.healthAt, why.reading) && why.reading.up && !why.reading.failing
    && why.dispatchedAt <= s.jobs[why.job].startedAt <= why.finishedAt <= why.healthAt <= why.checkedAt
    && why.checkedAt - why.finishedAt >= 60
  }

  // ---- what moves the row ---------------------------------------------------------------------

  /** The node under the tick answers, and is up and not in maintenance mode. */
  predicate AnswersFit(s: Fleet, v: Row, answered: bool) {
    v.cursor < |s.nodes| && answered && s.nodes[v.cursor] in s.health && s.health[s.nodes[v.cursor]].up && !s.health[s.nodes[v.cursor]].maintenance
  }

  /** The node under the tick answers, and is up and without a failed finding. */
  predicate AnswersWell(s: Fleet, v: Row, answered: bool) {
    v.cursor < |s.nodes| && answered && s.nodes[v.cursor] in s.health && s.health[s.nodes[v.cursor]].up && !s.health[s.nodes[v.cursor]].failing
  }

  /** The node has another version than the wanted one and was not dispatched yet. */
  predicate Undispatched(s: Fleet, pc: Pc) {
    pc.Known? && pc.v.dispatchAt.None? && !Versions.SameTelemtVersion(pc.version, s.wanted)
  }

  /**
   What fails a rollout: the node is gone; before the dispatch it does not answer, is down or in maintenance mode;
   Start refused; no job is found for a dispatch; the job ended other than ok; after it the node does not answer, is
   down or has a failed finding.
   */
  predicate FailureSeen(s: Fleet, pc: Pc, a: Action) {
    match a
    case Gate(_, ReadNode(found)) => pc.Loaded? && pc.v.cursor < |s.nodes| && !(found && s.nodes[pc.v.cursor] in s.versions)
    case Gate(_, CheckHealth(answered)) => Undispatched(s, pc) && !AnswersFit(s, pc.v, answered)
    case Hand(_, FailStart) => pc.StartRefused?
    case Watch(_, FindNoJob) => pc.Known? && pc.v.dispatchAt.Some? && pc.v.job.None?
    case Watch(_, ReadJob) => pc.Watching? && pc.id in s.jobs && s.jobs[pc.id].status == Ended
    case Watch(_, Observe(answered)) => pc.JobOk? && !AnswersWell(s, pc.v, answered)
    case _ => false
  }

  /** What moves a rollout past a node: it has the wanted version, or its update was observed for a minute. */
  predicate PassSeen(s: Fleet, pc: Pc, a: Action) {
    match a
    case Gate(_, Skip) => pc.Known? && pc.v.dispatchAt.None? && Versions.SameTelemtVersion(pc.version, s.wanted)
    case Watch(_, Advance) => pc.Healthy? && s.clock - pc.finishedAt >= 60
    case _ => false
  }

  predicate EndSeen(s: Fleet, pc: Pc, a: Action) {
    a.Gate? && a.gate.Finish? && pc.Loaded? && pc.v.cursor >= |s.nodes|
  }

  predicate DispatchSeen(pc: Pc, a: Action) {
    a.Gate? && a.gate.CommitIntent? && pc.Ready?
  }

  /** The job a tick learns for its dispatch: the one Start answered with, or a job of that node since. */
  function JobSeen(s: Fleet, pc: Pc, a: Action): Option<nat> {
    match a
    case Hand(_, RecordJob) => if pc.Recording? then Some(pc.id) else None
    case Watch(_, FindJob(id)) =>
      if && pc.Known? && pc.v.cursor < |s.nodes| && pc.v.dispatchAt.Some? && pc.v.job.None?
         && id in s.jobs && s.jobs[id].node == s.nodes[pc.v.cursor] && s.jobs[id].startedAt >= pc.v.dispatchAt.value
      then Some(id) else None
    case _ => None
  }

  /** The row of a running rollout moves for exactly these reasons. */
  ghost predicate RowMoves(s: Fleet, s': Fleet, p: nat, pc: Pc, a: Action) {
    && (s'.row.status == Failed <==> Connected(s, p) && FailureSeen(s, pc, a))
    && (s'.row.status == Complete <==> Connected(s, p) && EndSeen(s, pc, a))
    && s'.row.status != Stopped
    && s'.row.cursor == s.row.cursor + (if Connected(s, p) && PassSeen(s, pc, a) then 1 else 0)
    && s'.intents == s.intents + (if Connected(s, p) && DispatchSeen(pc, a) then [s.row.cursor] else [])
    && s'.row.dispatchAt == (if Connected(s, p) && DispatchSeen(pc, a) then Some(s.clock)
                             else if Connected(s, p) && PassSeen(s, pc, a) then None else s.row.dispatchAt)
    && s'.row.job == (if Connected(s, p) && JobSeen(s, pc, a).Some? then JobSeen(s, pc, a)
                      else if Connected(s, p) && PassSeen(s, pc, a) then None else s.row.job)
  }

  lemma ReadMoves(s: Fleet, p: nat, step: GateStep)
    requires Inv(s) && s.row.status == Running && (step.Finish? || step.ReadNode?)
    ensures RowMoves(s, Do(s, Gate(p, step)), p, PcOf(s, p), Gate(p, step))
  {
    hide Versions.SameTelemtVersion, BookInv, LockInv;
    if p in s.panels {
      assert PanelInv(s, s.panels[p]);
    }
  }

  lemma ClearanceMoves(s: Fleet, p: nat, step: GateStep)
    requires Inv(s) && s.row.status == Running && (step.CheckHealth?)
    ensures RowMoves(s, Do(s, Gate(p, step)), p, PcOf(s, p), Gate(p, step))
  {
    hide Versions.SameTelemtVersion, BookInv, LockInv;
    if p in s.panels {
      assert PanelInv(s, s.panels[p]);
    }
  }

  lemma LeaveMoves(s: Fleet, p: nat, step: GateStep)
    requires Inv(s) && s.row.status == Running && (step.Skip? || step.CommitIntent?)
    ensures RowMoves(s, Do(s, Gate(p, step)), p, PcOf(s, p), Gate(p, step))
  {
    hide Versions.SameTelemtVersion, BookInv, LockInv;
    if p in s.panels {
      assert PanelInv(s, s.panels[p]);
    }
  }

  lemma GateMoves(s: Fleet, p: nat, step: GateStep)
    requires Inv(s) && s.row.status == Running
    ensures RowMoves(s, Do(s, Gate(p, step)), p, PcOf(s, p), Gate(p, step))
  {
    hide RowMoves, Do, Inv;
    match step
    case CheckHealth(_) => ClearanceMoves(s, p, step);
    case Skip => LeaveMoves(s, p, step);
    case CommitIntent => LeaveMoves(s, p, step);
    case _ => ReadMoves(s, p, step);
  }

  lemma HandMoves(s: Fleet, p: nat, step: HandStep)
    requires Inv(s) && s.row.status == Running
    ensures RowMoves(s, Do(s, Hand(p, step)), p, PcOf(s, p), Hand(p, step))
  {
    hide Versions.SameTelemtVersion, BookInv, LockInv;
  }

  lemma FindMoves(s: Fleet, p: nat, step: WatchStep)
    requires Inv(s) && s.row.status == Running && (step.FindJob? || step.FindNoJob? || step.Resume?)
    ensures RowMoves(s, Do(s, Watch(p, step)), p, PcOf(s, p), Watch(p, step))
  {
    hide Versions.SameTelemtVersion, BookInv, LockInv;
    if p in s.panels {
      assert PanelInv(s, s.panels[p]);
    }
  }

  lemma FollowMoves(s: Fleet, p: nat, step: WatchStep)
    requires Inv(s) && s.row.status == Running && (step.ReadJob? || step.Observe? || step.Advance?)
    ensures RowMoves(s, Do(s, Watch(p, step)), p, PcOf(s, p), Watch(p, step))
  {
    hide Versions.SameTelemtVersion, BookInv, LockInv;
    if p in s.panels {
      assert PanelInv(s, s.panels[p]);
    }
  }

  lemma DoorMoves(s: Fleet, p: nat, step: DoorStep)
    requires s.row.status == Running
    ensures RowMoves(s, Do(s, Door(p, step)), p, PcOf(s, p), Door(p, step))
  {
  }

  lemma EventMoves(s: Fleet, event: Event)
    requires s.row.status == Running
    ensures Do(s, World(event)).row == s.row.(status := if event.Stop? then Stopped else Running)
  {
  }

  /**
   A running rollout fails, completes, moves on or commits a dispatch in a step of a panel exactly when the panel is
   connected and saw the reason for it; around the panels only a stop changes its row.
   */
  lemma RowMovesIff(s: Fleet, a: Action)
    requires Inv(s) && s.row.status == Running
    ensures if a.World? then Do(s, a).row == s.row.(status := if a.event.Stop? then Stopped else Running)
            else RowMoves(s, Do(s, a), a.p, PcOf(s, a.p), a)
  {
    hide RowMoves, Do, Inv;
    match a
    case World(event) => EventMoves(s, event);
    case Door(p, step) => DoorMoves(s, p, step);
    case Gate(p, step) => GateMoves(s, p, step);
    case Hand(p, step) => HandMoves(s, p, step);
    case Watch(p, step) =>
      if step.FindJob? || step.FindNoJob? || step.Resume? {
        FindMoves(s, p, step);
      } else {
        FollowMoves(s, p, step);
      }
  }

  /** A tick goes on with a node, towards its dispatch or past it, exactly when what it reads is good. */
  lemma GoesOnIff(s: Fleet, p: nat, answered: bool)
    requires Inv(s) && p in s.panels
    ensures var pc := PcOf(s, p);
            && (Undispatched(s, pc) ==>
                  (PcOf(Do(s, Gate(p, CheckHealth(answered))), p).Ready? <==> AnswersFit(s, pc.v, answered)))
            && (pc.Watching? ==>
                  (PcOf(Do(s, Watch(p, ReadJob)), p).JobOk? <==>
                     Connected(s, p) && s.jobs[pc.id].status == Succeeded && s.jobs[pc.id].finishedAt.Some?))
            && (pc.JobOk? ==>
                  (PcOf(Do(s, Watch(p, Observe(answered))), p).Healthy? <==> AnswersWell(s, pc.v, answered)))
  {
    hide Versions.SameTelemtVersion, BookInv, LockInv;
    assert PanelInv(s, s.panels[p]);
  }

  /**
   Once a rollout is stopped, failed or complete it stays so: the cursor, the evidence and the set of
   committed dispatches are final, and any Start still to come belongs to one of them.
   */
  lemma EndIsDecisive(s: Fleet, actions: seq<Action>)
    requires Inv(s) && s.row.status != Running
    ensures var s' := Run(s, actions);
            && s'.row.status == s.row.status && s'.row.cursor == s.row.cursor
            && s'.intents == s.intents && s'.passed == s.passed
            && (forall i :: i in s'.starts ==> i in s.intents)
  {
    RunFrame(s, actions);
    RunKeeps(s, actions);
  }

  /** Dispatches still to be called after the end are told apart by their panels; only one panel can be connected. */
  lemma PendingDispatches(s: Fleet, p: nat, q: nat)
    requires Inv(s) && PcOf(s, p).Dispatching? && PcOf(s, q).Dispatching? && p != q
    ensures PcOf(s, p).v.cursor != PcOf(s, q).v.cursor
    ensures !(Connected(s, p) && Connected(s, q))
  {
    assert p in s.panels && q in s.panels;
    assert Connected(s, p) ==> s.holder == Some(p);
    assert Connected(s, q) ==> s.holder == Some(q);
  }

  // ---- how many Starts can follow the end ---------------------------------------------------

  /** The panels that committed a dispatch and have not called Start yet. */
  function Pending(s: Fleet): set<nat> {
    set p | p in s.panels && s.panels[p].pc.Dispatching?
  }

  /** Before the commit nothing is pending, and a Start uses its panel up; only a commit adds one. */
  ghost predicate Spent(s: Fleet, s': Fleet) {
    |s'.starts| + |Pending(s')| <= |s.starts| + |Pending(s)|
  }

  lemma StartSpends(s: Fleet, p: nat, id: nat, created: bool, ok: bool)
    requires PcOf(s, p).Dispatching? && OnNode(s, PcOf(s, p).v) && (created ==> id !in s.jobs) && (ok ==> created)
    ensures var s' := Do(s, Hand(p, CallStart(id, created, ok)));
            p in Pending(s) && Pending(s') == Pending(s) - {p} && |s'.starts| == |s.starts| + 1
  {
  }

  /** A step that is no Start and commits nothing only empties the set. */
  lemma NothingPends(s: Fleet, s': Fleet)
    requires s'.starts == s.starts && Pending(s') <= Pending(s)
    ensures Spent(s, s')
  {
    Smaller(Pending(s'), Pending(s));
  }

  lemma {:induction false} Smaller(a: set<nat>, b: set<nat>)
    requires a <= b
    ensures |a| <= |b|
  {
    if a != {} {
      var x :| x in a;
      Smaller(a - {x}, b - {x});
    }
  }

  /** A step of `p` that is no Start and commits no dispatch. */
  ghost predicate Quiet(s: Fleet, s': Fleet, p: nat) {
    && s'.starts == s.starts
    && (forall q :: q in s'.panels && q != p ==> q in s.panels && s'.panels[q] == s.panels[q])
    && (p in s'.panels && s'.panels[p].pc.Dispatching? ==> p in s.panels && s'.panels[p] == s.panels[p])
  }

  lemma DoorQuiet(s: Fleet, p: nat, pc: Pc, step: DoorStep)
    requires pc == PcOf(s, p)
    ensures Quiet(s, DoDoor(s, p, pc, step), p)
  {
  }

  lemma GateQuiet(s: Fleet, p: nat, pc: Pc, step: GateStep)
    requires pc == PcOf(s, p) && !(step.CommitIntent? && s.row.status == Running)
    ensures Quiet(s, DoGate(s, p, pc, step), p)
  {
    hide AtTarget, FitForUpdate;
  }

  lemma HandQuiet(s: Fleet, p: nat, pc: Pc, step: HandStep)
    requires pc == PcOf(s, p) && !step.CallStart?
    ensures Quiet(s, DoHand(s, p, pc, step), p)
  {
  }

  lemma FindJobQuiet(s: Fleet, p: nat, pc: Pc, id: nat)
    requires pc == PcOf(s, p)
    ensures Quiet(s, DoWatch(s, p, pc, FindJob(id)), p)
  {
    hide Recovered;
  }

  lemma FollowQuiet(s: Fleet, p: nat, pc: Pc, step: WatchStep)
    requires pc == PcOf(s, p) && (step.FindNoJob? || step.Resume? || step.ReadJob?)
    ensures Quiet(s, DoWatch(s, p, pc, step), p)
  {
  }

  lemma ObserveQuiet(s: Fleet, p: nat, pc: Pc, answered: bool)
    requires pc == PcOf(s, p)
    ensures Quiet(s, DoWatch(s, p, pc, Observe(answered)), p)
  {
  }

  lemma AdvanceQuiet(s: Fleet, p: nat, pc: Pc)
    requires pc == PcOf(s, p)
    ensures Quiet(s, DoWatch(s, p, pc, Advance), p)
  {
  }

  lemma WatchQuiet(s: Fleet, p: nat, pc: Pc, step: WatchStep)
    requires pc == PcOf(s, p)
    ensures Quiet(s, DoWatch(s, p, pc, step), p)
  {
    hide Quiet, DoWatch;
    match step
    case FindJob(id) => FindJobQuiet(s, p, pc, id);
    case Observe(answered) => ObserveQuiet(s, p, pc, answered);
    case Advance => AdvanceQuiet(s, p, pc);
    case _ => FollowQuiet(s, p, pc, step);
  }

  lemma EventQuiet(s: Fleet, event: Event)
    ensures DoEvent(s, event).starts == s.starts && Pending(DoEvent(s, event)) <= Pending(s)
  {
    var s' := DoEvent(s, event);
    forall q | q in Pending(s') ensures q in Pending(s) {
      assert q in s.panels && s.panels[q].pc == s'.panels[q].pc;
    }
  }

  lemma QuietSpends(s: Fleet, s': Fleet, p: nat)
    requires Quiet(s, s', p)
    ensures Spent(s, s')
  {
    assert Pending(s') <= Pending(s);
    NothingPends(s, s');
  }

  lemma StepSpends(s: Fleet, a: Action)
    requires s.row.status != Running
    ensures Spent(s, Do(s, a))
  {
    match a
    case World(event) => EventQuiet(s, event); NothingPends(s, Do(s, a));
    case Door(p, door) => DoorQuiet(s, p, PcOf(s, p), door); QuietSpends(s, Do(s, a), p);
    case Gate(p, gate) => GateQuiet(s, p, PcOf(s, p), gate); QuietSpends(s, Do(s, a), p);
    case Watch(p, watch) => WatchQuiet(s, p, PcOf(s, p), watch); QuietSpends(s, Do(s, a), p);
    case Hand(p, hand) =>
      if !hand.CallStart? {
        HandQuiet(s, p, PcOf(s, p), hand);
        QuietSpends(s, Do(s, a), p);
      } else if Do(s, a) != s {
        StartSpends(s, p, hand.id, hand.created, hand.ok);
      }
  }

  lemma {:induction false} RunSpends(s: Fleet, actions: seq<Action>)
    requires s.row.status != Running
    ensures Spent(s, Run(s, actions))
    decreases |actions|
  {
    if actions != [] {
      StepSpends(s, actions[0]);
      DoFrame(s, actions[0]);
      RunSpends(Do(s, actions[0]), actions[1..]);
    }
  }

  /** Every pending panel can still call Start, one after the other. */
  lemma {:induction false} AllCanStart(s: Fleet, pending: set<nat>) returns (actions: seq<Action>)
    requires pending <= Pending(s) && forall p :: p in pending ==> OnNode(s, s.panels[p].pc.v)
    ensures |Run(s, actions).starts| == |s.starts| + |pending|
    decreases |pending|
  {
    if pending == {} {
      actions := [];
    } else {
      var p :| p in pending;
      var a := Hand(p, CallStart(0, false, false));
      StartSpends(s, p, 0, false, false);
      var s' := Do(s, a);
      forall q | q in pending - {p} ensures q in Pending(s') && OnNode(s', s'.panels[q].pc.v) {
        assert s'.panels[q] == s.panels[q];
      }
      var rest := AllCanStart(s', pending - {p});
      actions := [a] + rest;
      assert actions[0] == a && actions[1..] == rest;
    }
  }

  /**
   After the end of a rollout at most `k` more Starts follow, whatever happens, exactly when at most `k`
   panels have a dispatch pending.
   */
  lemma StartsAfterEndIff(s: Fleet, k: nat)
    requires Inv(s) && s.row.status != Running
    ensures (forall actions :: |Run(s, actions).starts| <= |s.starts| + k) <==> |Pending(s)| <= k
  {
    forall actions
      ensures |Run(s, actions).starts| <= |s.starts| + |Pending(s)|
    {
      RunSpends(s, actions);
    }
    forall p | p in Pending(s) ensures OnNode(s, s.panels[p].pc.v) {
      assert PanelInv(s, s.panels[p]);
    }
    var actions := AllCanStart(s, Pending(s));
    assert |Run(s, actions).starts| == |s.starts| + |Pending(s)|;
  }

  /** The single dispatch: at most one Start follows exactly when no two panels have one pending. */
  lemma SingleStartIff(s: Fleet)
    requires Inv(s) && s.row.status != Running
    ensures (forall actions :: |Run(s, actions).starts| <= |s.starts| + 1)
            <==> forall p, q :: p in Pending(s) && q in Pending(s) ==> p == q
  {
    StartsAfterEndIff(s, 1);
    AtMostOne(Pending(s));
  }

  lemma AtMostOne(a: set<nat>)
    ensures |a| <= 1 <==> forall p, q :: p in a && q in a ==> p == q
  {
    if a != {} {
      var x :| x in a;
      assert a == (a - {x}) + {x};
      if forall p, q :: p in a && q in a ==> p == q {
        assert a - {x} == {};
      } else {
        var p, q :| p in a && q in a && p != q;
        Smaller({p, q}, a);
      }
    }
  }

  /** No panel loses its connection between committing a dispatch and calling Start; it may still die. */
  ghost predicate Steady(s: Fleet, actions: seq<Action>)
    decreases |actions|
  {
    actions != [] ==>
      && !(actions[0].World? && actions[0].event.LoseConnection? && actions[0].event.q in Pending(s))
      && Steady(Do(s, actions[0]), actions[1..])
  }

  ghost predicate PendingConnected(s: Fleet) {
    forall p :: p in Pending(s) ==> Connected(s, p)
  }

  lemma EventSteady(s: Fleet, event: Event)
    requires PendingConnected(s) && !(event.LoseConnection? && event.q in Pending(s))
    ensures PendingConnected(DoEvent(s, event))
  {
    var s' := DoEvent(s, event);
    if event.Die? || event.LoseConnection? {
      forall q | q in Pending(s') ensures Connected(s', q) {
        assert q in Pending(s);
      }
    } else {
      assert s'.panels == s.panels && Pending(s') == Pending(s);
    }
  }

  lemma QuietSteady(s: Fleet, s': Fleet, p: nat)
    requires PendingConnected(s) && Quiet(s, s', p)
    ensures PendingConnected(s')
  {
    forall q | q in Pending(s') ensures Connected(s', q) {
      assert q in Pending(s);
    }
  }

  lemma CommitSteady(s: Fleet, p: nat, pc: Pc)
    requires PendingConnected(s) && pc == PcOf(s, p)
    ensures PendingConnected(DoGate(s, p, pc, CommitIntent))
  {
    var s' := DoGate(s, p, pc, CommitIntent);
    forall q | q in Pending(s') ensures Connected(s', q) {
      if q != p {
        assert q in Pending(s);
      }
    }
  }

  lemma StartSteady(s: Fleet, p: nat, step: HandStep)
    requires PendingConnected(s) && step.CallStart?
    ensures PendingConnected(Do(s, Hand(p, step)))
  {
    var s' := Do(s, Hand(p, step));
    forall q | s' != s && q in Pending(s') ensures Connected(s', q) {
      StartSpends(s, p, step.id, step.created, step.ok);
      assert q in Pending(s);
    }
  }

  lemma StepSteady(s: Fleet, a: Action)
    requires PendingConnected(s) && !(a.World? && a.event.LoseConnection? && a.event.q in Pending(s))
    ensures PendingConnected(Do(s, a))
  {
    match a
    case World(event) => EventSteady(s, event);
    case Door(p, door) => DoorQuiet(s, p, PcOf(s, p), door); QuietSteady(s, Do(s, a), p);
    case Watch(p, watch) => WatchQuiet(s, p, PcOf(s, p), watch); QuietSteady(s, Do(s, a), p);
    case Gate(p, gate) =>
      if gate.CommitIntent? {
        CommitSteady(s, p, PcOf(s, p));
      } else {
        GateQuiet(s, p, PcOf(s, p), gate);
        QuietSteady(s, Do(s, a), p);
      }
    case Hand(p, hand) =>
      if hand.CallStart? {
        StartSteady(s, p, hand);
      } else {
        HandQuiet(s, p, PcOf(s, p), hand);
        QuietSteady(s, Do(s, a), p);
      }
  }

  lemma {:induction false} RunSteady(s: Fleet, actions: seq<Action>)
    requires PendingConnected(s) && Steady(s, actions)
    ensures PendingConnected(Run(s, actions))
    decreases |actions|
  {
    if actions != [] {
      StepSteady(s, actions[0]);
      RunSteady(Do(s, actions[0]), actions[1..]);
    }
  }

  /**
   In a run in which no panel loses its connection with a dispatch pending, at most one Start follows the
   end of the rollout, whatever happens afterwards.
   */
  lemma SteadyRunsStartOnce(nodes: seq<nat>, wanted: string, before: seq<Action>, after: seq<Action>)
    requires Steady(Start(nodes, wanted), before) && Run(Start(nodes, wanted), before).row.status != Running
    ensures var s := Run(Start(nodes, wanted), before); |Run(s, after).starts| <= |s.starts| + 1
  {
    var s := Run(Start(nodes, wanted), before);
    StartHolds(nodes, wanted);
    RunKeeps(Start(nodes, wanted), before);
    RunSteady(Start(nodes, wanted), before);
    forall p, q | p in Pending(s) && q in Pending(s) ensures p == q {
      assert Connected(s, p) && Connected(s, q);
    }
    SingleStartIff(s);
  }

  // ---- how old the last reading is -----------------------------------------------------------

  /**
   The minute is measured after the health reading, so the reading itself can be earlier: whenever a
   tick is about to take it, a slow answer lets the node pass on it.
   */
  lemma HealthMayBeReadEarly(s: Fleet, p: nat)
    requires Inv(s) && PcOf(s, p).JobOk? && Connected(s, p) && s.row.status == Running
    requires var n := s.nodes[PcOf(s, p).v.cursor]; n in s.health && Recovered(s.health[n])
    requires s.clock - PcOf(s, p).finishedAt < OBSERVATION
    ensures var s' := Do(Do(Do(s, Watch(p, Observe(true))), World(Tick(OBSERVATION))), Watch(p, Advance));
            && |s'.passed| == |s.passed| + 1
            && s'.passed[|s.passed|].Updated?
            && s'.passed[|s.passed|].healthAt - s'.passed[|s.passed|].finishedAt < OBSERVATION
  {
    hide AtTarget, OrderInv, DispatchInv, HistoryInv;
    assert PanelInv(s, s.panels[p]);
  }

  /** No step moves on with a reading taken more than `d` ago. */
  predicate PromptStep(s: Fleet, a: Action, d: nat) {
    a.Watch? && a.watch.Advance? && PcOf(s, a.p).Healthy? ==> s.clock - PcOf(s, a.p).healthAt <= d
  }

  predicate Prompt(s: Fleet, actions: seq<Action>, d: nat)
    decreases |actions|
  {
    actions != [] ==> PromptStep(s, actions[0], d) && Prompt(Do(s, actions[0]), actions[1..], d)
  }

  /** Every node moved past after an update was read at least `m` after its job had ended. */
  ghost predicate ReadAfter(s: Fleet, m: nat) {
    forall i :: 0 <= i < |s.passed| && s.passed[i].Updated? ==> s.passed[i].healthAt - s.passed[i].finishedAt >= m
  }

  /** What a step adds to the evidence of updates took its minute. */
  ghost predicate Records(s: Fleet, s': Fleet, d: nat) {
    s'.passed != s.passed ==>
      && |s'.passed| == |s.passed| + 1 && s'.passed[..|s.passed|] == s.passed
      && var why := s'.passed[|s.passed|];
         why.Updated? ==> why.checkedAt - why.healthAt <= d && why.checkedAt - why.finishedAt >= OBSERVATION
  }

  lemma GateRecords(s: Fleet, p: nat, pc: Pc, step: GateStep, d: nat)
    ensures Records(s, DoGate(s, p, pc, step), d)
  {
  }

  lemma WatchRecords(s: Fleet, p: nat, pc: Pc, step: WatchStep, d: nat)
    requires step.Advance? && pc.Healthy? ==> s.clock - pc.healthAt <= d
    ensures Records(s, DoWatch(s, p, pc, step), d)
  {
  }

  lemma StepRecords(s: Fleet, a: Action, d: nat)
    requires PromptStep(s, a, d)
    ensures Records(s, Do(s, a), d)
  {
    match a
    case Gate(p, gate) => GateRecords(s, p, PcOf(s, p), gate, d);
    case Watch(p, watch) => WatchRecords(s, p, PcOf(s, p), watch, d);
    case _ =>
  }

  lemma RecordsKeep(s: Fleet, s': Fleet, d: nat, m: nat)
    requires Records(s, s', d) && ReadAfter(s, m) && m + d <= OBSERVATION
    ensures ReadAfter(s', m)
  {
    forall i | 0 <= i < |s'.passed| && s'.passed[i].Updated?
      ensures s'.passed[i].healthAt - s'.passed[i].finishedAt >= m
    {
      if i < |s.passed| {
        assert s'.passed == s.passed || s'.passed[..|s.passed|][i] == s'.passed[i];
      }
    }
  }

  lemma {:induction false} PromptRun(s: Fleet, actions: seq<Action>, d: nat, m: nat)
    requires Prompt(s, actions, d) && ReadAfter(s, m) && m + d <= OBSERVATION
    ensures ReadAfter(Run(s, actions), m)
    decreases |actions|
  {
    if actions != [] {
      StepRecords(s, actions[0], d);
      RecordsKeep(s, Do(s, actions[0]), d, m);
      PromptRun(Do(s, actions[0]), actions[1..], d, m);
    }
  }

  // ---- runs in pieces -------------------------------------------------------------------------

  lemma {:induction false} RunConcat(s: Fleet, a: seq<Action>, b: seq<Action>, d: nat)
    ensures Run(s, a + b) == Run(Run(s, a), b)
    ensures Prompt(s, a, d) && Prompt(Run(s, a), b, d) ==> Prompt(s, a + b, d)
    decreases |a|
  {
    if a == [] {
      assert a + b == b;
    } else {
      assert (a + b)[0] == a[0] && (a + b)[1..] == a[1..] + b;
      RunConcat(Do(s, a[0]), a[1..], b, d);
    }
  }

  lemma {:induction false} PromptWithoutAdvance(s: Fleet, actions: seq<Action>, d: nat)
    requires forall i :: 0 <= i < |actions| ==> !(actions[i].Watch? && actions[i].watch.Advance?)
    ensures Prompt(s, actions, d)
    decreases |actions|
  {
    if actions != [] {
      PromptWithoutAdvance(Do(s, actions[0]), actions[1..], d);
    }
  }

  lemma RunTwo(s: Fleet, a: Action, b: Action)
    ensures Run(s, [a, b]) == Do(Do(s, a), b)
  {
    assert [a, b][1..] == [b] && [b][1..] == [];
    assert Run(Do(s, a), [b]) == Do(Do(s, a), b);
  }

  lemma RunThree(s: Fleet, a: Action, b: Action, c: Action)
    ensures Run(s, [a, b, c]) == Do(Do(Do(s, a), b), c)
  {
    assert [a, b, c][1..] == [b, c];
    RunTwo(Do(s, a), b, c);
  }

  /** An idle panel takes the free lock and reads the row and its node. */
  lemma Enters(s: Fleet, p: nat, d: nat) returns (steps: seq<Action>)
    requires PcOf(s, p) == Idle && s.holder.None? && s.row.status == Running && OnNode(s, s.row)
    requires s.nodes[s.row.cursor] in s.versions
    ensures var version := s.versions[s.nodes[s.row.cursor]];
            Run(s, steps) == s.(panels := s.panels[p := Panel(Known(s.row, version), true)], holder := Some(p))
    ensures Prompt(s, steps, d)
  {
    steps := [Door(p, Lock), Door(p, Load), Gate(p, ReadNode(true))];
    PromptWithoutAdvance(s, steps, d);
    RunThree(s, Door(p, Lock), Door(p, Load), Gate(p, ReadNode(true)));
    var t := Do(s, Door(p, Lock));
    var u := Do(t, Door(p, Load));
    assert u.panels == s.panels[p := Panel(Loaded(s.row), true)];
  }

  /** A panel that knows the node finds it fit and commits its dispatch. */
  lemma Dispatches(s: Fleet, p: nat, version: string, d: nat) returns (steps: seq<Action>)
    requires PcOf(s, p) == Known(s.row, version) && Connected(s, p) && !AtTarget(s, version)
    requires s.row.status == Running && s.row.dispatchAt.None? && OnNode(s, s.row)
    requires var n := s.nodes[s.row.cursor]; n in s.health && FitForUpdate(s.health[n])
    ensures var row := s.row.(dispatchAt := Some(s.clock));
            Run(s, steps) ==
              s.(row := row, intents := s.intents + [row.cursor], panels := s.panels[p := Panel(Dispatching(row), true)],
                 cleared := s.cleared[row.cursor := Clearance(version, s.clock, s.health[s.nodes[row.cursor]])])
    ensures Prompt(s, steps, d)
  {
    steps := [Gate(p, CheckHealth(true)), Gate(p, CommitIntent)];
    PromptWithoutAdvance(s, steps, d);
    RunTwo(s, Gate(p, CheckHealth(true)), Gate(p, CommitIntent));
    var t := Do(s, Gate(p, CheckHealth(true)));
    assert t == s.(panels := s.panels[p := Panel(Ready(s.row, Clearance(version, s.clock, s.health[s.nodes[s.row.cursor]])), true)]);
  }

  /** A panel finds the job of an earlier dispatch, and that it ended ok. */
  lemma Adopts(s: Fleet, p: nat, version: string, id: nat, d: nat) returns (steps: seq<Action>)
    requires PcOf(s, p) == Known(s.row, version) && Connected(s, p) && OnNode(s, s.row)
    requires s.row.dispatchAt.Some? && s.row.job.None? && JobFor(s, id, s.row)
    requires s.jobs[id].status == Succeeded && s.jobs[id].finishedAt.Some?
    ensures var row := s.row.(job := Some(id));
            Run(s, steps) == s.(row := row, panels := s.panels[p := Panel(JobOk(row, id, s.jobs[id].finishedAt.value), true)])
    ensures Prompt(s, steps, d)
  {
    steps := [Watch(p, FindJob(id)), Watch(p, ReadJob)];
    PromptWithoutAdvance(s, steps, d);
    RunTwo(s, Watch(p, FindJob(id)), Watch(p, ReadJob));
    var row := s.row.(job := Some(id));
    var t := Do(s, Watch(p, FindJob(id)));
    assert t == s.(row := row, panels := s.panels[p := Panel(Watching(row, id), true)]);
  }

  /** A panel reads the health of the node some time after its job, and takes its time. */
  lemma Observes(s: Fleet, p: nat, before: nat, after: nat, d: nat) returns (steps: seq<Action>)
    requires PcOf(s, p).JobOk? && Connected(s, p) && OnNode(s, PcOf(s, p).v)
    requires var n := s.nodes[PcOf(s, p).v.cursor]; n in s.health && Recovered(s.health[n])
    ensures var s' := Run(s, steps);
            var pc := PcOf(s, p);
            s' == s.(clock := s.clock + before + after, history := s'.history,
                     panels := s.panels[p := Panel(Healthy(pc.v, pc.id, pc.finishedAt, s.clock + before, s.health[s.nodes[pc.v.cursor]]), true)])
    ensures Prompt(s, steps, d)
  {
    steps := [World(Tick(before)), Watch(p, Observe(true)), World(Tick(after))];
    PromptWithoutAdvance(s, steps, d);
    RunThree(s, World(Tick(before)), Watch(p, Observe(true)), World(Tick(after)));
    var t := Do(s, World(Tick(before)));
    assert t.panels == s.panels && t.clock == s.clock + before;
  }

  /** A panel moves on once the minute is over, and lets the lock go. */
  lemma MovesOn(s: Fleet, p: nat, d: nat) returns (steps: seq<Action>)
    requires PcOf(s, p).Healthy? && PcOf(s, p).v.dispatchAt.Some? && Connected(s, p) && s.holder == Some(p)
    requires s.row.status == Running && s.clock - PcOf(s, p).finishedAt >= OBSERVATION && s.clock - PcOf(s, p).healthAt <= d
    ensures var pc := PcOf(s, p);
            var why := Updated(pc.v.dispatchAt.value, pc.id, pc.finishedAt, pc.healthAt, pc.reading, s.clock);
            Run(s, steps) ==
              s.(row := s.row.(cursor := s.row.cursor + 1, dispatchAt := None, job := None), passed := s.passed + [why],
                 panels := s.panels[p := Panel(Idle, false)], holder := None)
    ensures Prompt(s, steps, d)
  {
    steps := [Watch(p, Advance), Door(p, Unlock)];
    RunTwo(s, Watch(p, Advance), Door(p, Unlock));
    var t := Do(s, Watch(p, Advance));
    assert t.panels == s.panels[p := Panel(Leaving, true)];
    assert steps[1..] == [Door(p, Unlock)];
    PromptWithoutAdvance(t, [Door(p, Unlock)], d);
  }

  // ---- one run: a panel stalls, a second one overtakes it ---------------------------------------

  const GOOD := Reading(true, false, false)
  const NEW := Row(Running, 0, None, None)
  const FIRST := NEW.(dispatchAt := Some(0))
  const NEXT := Row(Running, 1, None, None)
  const SECOND := NEXT.(dispatchAt := Some(60))
  const ADOPTED := map[0 := Job(7, 0, Succeeded, Some(0))]

  /** Two nodes that are well and have another version, and no Start yet. */
  ghost predicate Site(s: Fleet) {
    && s.nodes == [7, 8] && s.starts == []
    && (forall n :: n in [7, 8] ==> n in s.versions && !AtTarget(s, s.versions[n]) && n in s.health && s.health[n] == GOOD)
  }

  /** Between ticks: where the rollout is, and where the first panel is. */
  ghost predicate Between(s: Fleet, row: Row, one: Pc, clock: int) {
    Site(s) && s.row == row && s.clock == clock && s.holder.None? && PcOf(s, 1) == one && !Connected(s, 1) && PcOf(s, 2) == Idle
  }

  lemma SetUp(s: Fleet, d: nat) returns (steps: seq<Action>)
    requires s == Start([7, 8], "")
    ensures var s' := Run(s, steps); Between(s', NEW, Idle, 0) && s'.jobs == map[] && s'.passed == []
    ensures Prompt(s, steps, d)
  {
    assert !AtTarget(s, "");
    var a, b := [World(NodeReport(7, "")), World(NodeReport(8, ""))], [World(HealthBecomes(7, GOOD)), World(HealthBecomes(8, GOOD))];
    steps := a + b;
    PromptWithoutAdvance(s, steps, d);
    RunConcat(s, a, b, d);
    RunTwo(s, a[0], a[1]);
    RunTwo(Run(s, a), b[0], b[1]);
  }

  /** A panel commits the dispatch of the next node. */
  lemma Commits(s: Fleet, p: nat, row: Row, d: nat) returns (steps: seq<Action>)
    requires Site(s) && s.row == row && row.status == Running && row.dispatchAt.None? && row.cursor < 2
    requires s.holder.None? && PcOf(s, p) == Idle
    ensures var s' := Run(s, steps);
            && Site(s') && s'.row == row.(dispatchAt := Some(s.clock)) && s'.clock == s.clock && s'.holder == Some(p)
            && s'.panels == s.panels[p := Panel(Dispatching(s'.row), true)] && s'.jobs == s.jobs && s'.passed == s.passed
    ensures Prompt(s, steps, d)
  {
    var enter := Enters(s, p, d);
    var t := Run(s, enter);
    var dispatch := Dispatches(t, p, s.versions[s.nodes[row.cursor]], d);
    RunConcat(s, enter, dispatch, d);
    steps := enter + dispatch;
  }

  lemma StallsAfter(s: Fleet, d: nat) returns (steps: seq<Action>)
    requires Site(s) && s.row == FIRST && s.clock == 0 && s.holder == Some(1) && s.jobs == map[]
    requires PcOf(s, 1) == Dispatching(FIRST) && PcOf(s, 2) == Idle
    ensures var s' := Run(s, steps); Between(s', FIRST, Dispatching(FIRST), 0) && s'.jobs == ADOPTED && s'.passed == s.passed
    ensures Prompt(s, steps, d)
  {
    steps := [World(LoseConnection(1)), World(ForeignJob(0, 7)), World(JobReport(0, true))];
    PromptWithoutAdvance(s, steps, d);
    RunThree(s, steps[0], steps[1], steps[2]);
  }

  /** Panel 1 commits the dispatch of node 7 and loses its connection; an operator's job on node 7 ends ok. */
  lemma Stalls(s: Fleet, d: nat) returns (steps: seq<Action>)
    requires Between(s, NEW, Idle, 0) && s.jobs == map[]
    ensures var s' := Run(s, steps); Between(s', FIRST, Dispatching(FIRST), 0) && s'.jobs == ADOPTED && s'.passed == s.passed
    ensures Prompt(s, steps, d)
  {
    var commit := Commits(s, 1, NEW, d);
    var t := Run(s, commit);
    var stall := StallsAfter(t, d);
    RunConcat(s, commit, stall, d);
    steps := commit + stall;
  }

  /** Panel 2 finds that job as the one of the dispatch. */
  lemma Follows(s: Fleet, d: nat) returns (steps: seq<Action>)
    requires Between(s, FIRST, Dispatching(FIRST), 0) && s.jobs == ADOPTED
    ensures var s' := Run(s, steps);
            var row := FIRST.(job := Some(0));
            && Site(s') && s' == s.(row := row, panels := s.panels[2 := Panel(JobOk(row, 0, 0), true)], holder := Some(2))
    ensures Prompt(s, steps, d)
  {
    var enter := Enters(s, 2, d);
    var t := Run(s, enter);
    var adopt := Adopts(t, 2, s.versions[7], 0, d);
    RunConcat(s, enter, adopt, d);
    steps := enter + adopt;
  }

  /** It reads the health of the node at `x`, and moves on a minute after the job. */
  lemma Overtakes(s: Fleet, x: nat, y: nat) returns (steps: seq<Action>)
    requires Between(s, FIRST, Dispatching(FIRST), 0) && s.jobs == ADOPTED && x + y == OBSERVATION
    ensures var s' := Run(s, steps);
            && Between(s', NEXT, Dispatching(FIRST), OBSERVATION) && s'.jobs == ADOPTED
            && s'.passed == s.passed + [Updated(0, 0, 0, x, GOOD, OBSERVATION)]
    ensures Prompt(s, steps, y)
  {
    var follow := Follows(s, y);
    var u := Run(s, follow);
    var watch := Observes(u, 2, x, y, y);
    RunConcat(s, follow, watch, y);
    var v := Run(u, watch);
    var move := MovesOn(v, 2, y);
    RunConcat(s, follow + watch, move, y);
    steps := (follow + watch) + move;
  }

  lemma StallsAndOvertakes(s: Fleet, x: nat, y: nat) returns (steps: seq<Action>)
    requires s == Start([7, 8], "") && x + y == OBSERVATION
    ensures var s' := Run(s, steps);
            && Between(s', NEXT, Dispatching(FIRST), OBSERVATION) && s'.jobs == ADOPTED
            && s'.passed == [Updated(0, 0, 0, x, GOOD, OBSERVATION)]
    ensures Prompt(s, steps, y)
  {
    var a := SetUp(s, y);
    var b := Stalls(Run(s, a), y);
    RunConcat(s, a, b, y);
    var c := Overtakes(Run(s, a + b), x, y);
    RunConcat(s, a + b, c, y);
    steps := (a + b) + c;
  }

  /**
   How old the last reading is when the rollout moves on, over all runs: if no tick takes longer than `d`
   from the reading to the check, every node was well at least `m` after its job had ended, exactly when
   `m` and `d` fit into the minute together (or `m` is nothing).
   */
  lemma ReadingAgeIff(m: nat, d: nat)
    ensures (forall nodes, wanted, actions :: Prompt(Start(nodes, wanted), actions, d) ==> ReadAfter(Run(Start(nodes, wanted), actions), m))
            <==> m == 0 || m + d <= OBSERVATION
  {
    if m == 0 || m + d <= OBSERVATION {
      forall nodes, wanted, actions | Prompt(Start(nodes, wanted), actions, d)
        ensures ReadAfter(Run(Start(nodes, wanted), actions), m)
      {
        if m == 0 {
          NeverBeforeTheEnd(nodes, wanted, actions);
        } else {
          PromptRun(Start(nodes, wanted), actions, d, m);
        }
      }
    } else {
      var y: nat := if d < OBSERVATION then d else OBSERVATION;
      var s := Start([7, 8], "");
      var steps := StallsAndOvertakes(s, OBSERVATION - y, y);
      MorePrompt(s, steps, y, d);
      TooEarly(Run(s, steps), OBSERVATION - y, m);
    }
  }

  lemma NeverBeforeTheEnd(nodes: seq<nat>, wanted: string, actions: seq<Action>)
    ensures ReadAfter(Run(Start(nodes, wanted), actions), 0)
  {
    RolloutOrder(nodes, wanted, actions);
    var s := Run(Start(nodes, wanted), actions);
    forall i | 0 <= i < |s.passed| && s.passed[i].Updated? ensures s.passed[i].healthAt - s.passed[i].finishedAt >= 0 {
      assert Justified(s, i, s.passed[i]);
    }
  }

  lemma TooEarly(s: Fleet, x: nat, m: nat)
    requires s.passed == [Updated(0, 0, 0, x, GOOD, OBSERVATION)] && x < m
    ensures !ReadAfter(s, m)
  {
    assert s.passed[0].healthAt - s.passed[0].finishedAt < m;
  }

  lemma {:induction false} MorePrompt(s: Fleet, actions: seq<Action>, d: nat, more: nat)
    requires Prompt(s, actions, d) && d <= more
    ensures Prompt(s, actions, more)
    decreases |actions|
  {
    if actions != [] {
      MorePrompt(Do(s, actions[0]), actions[1..], d, more);
    }
  }

  ghost predicate StoppedUnstarted(s: Fleet) {
    s.row.status == Stopped && s.starts == []
  }

  /** Panel 2 commits the dispatch of node 8, and the operator stops the rollout. */
  lemma CommitsAndStops(s: Fleet) returns (steps: seq<Action>)
    requires Between(s, NEXT, Dispatching(FIRST), OBSERVATION) && s.jobs == ADOPTED
    ensures var s' := Run(s, steps);
            && s'.nodes == [7, 8] && s'.jobs == ADOPTED && StoppedUnstarted(s')
            && PcOf(s', 1) == Dispatching(FIRST) && PcOf(s', 2) == Dispatching(SECOND)
  {
    var commit := Commits(s, 2, NEXT, 0);
    var t := Run(s, commit);
    RunConcat(s, commit, [World(Stop)], 0);
    assert [World(Stop)][1..] == [];
    assert Run(t, [World(Stop)]) == Do(t, World(Stop));
    steps := commit + [World(Stop)];
  }

  lemma BothStart(s: Fleet)
    requires s.nodes == [7, 8] && s.jobs == ADOPTED && StoppedUnstarted(s)
    requires PcOf(s, 1) == Dispatching(FIRST) && PcOf(s, 2) == Dispatching(SECOND)
    ensures Do(Do(s, Hand(1, CallStart(1, true, true))), Hand(2, CallStart(2, true, true))).starts == [0, 1]
  {
    var t := Do(s, Hand(1, CallStart(1, true, true)));
    assert t.starts == [0] && PcOf(t, 2) == PcOf(s, 2) && 2 !in t.jobs;
  }

  /**
   Two Starts can follow a stop. A panel commits the dispatch of the first node and stalls after losing
   its connection; another panel adopts a job an operator began for that node, moves on and commits the
   dispatch of the second; then the operator stops the rollout, and both panels call Start.
   */
  lemma TwoStartsAfterStop()
    ensures exists actions :: var s := Run(Start([7, 8], ""), actions);
              && StoppedUnstarted(s)
              && Do(Do(s, Hand(1, CallStart(1, true, true))), Hand(2, CallStart(2, true, true))).starts == [0, 1]
  {
    var s0 := Start([7, 8], "");
    var steps := StallsAndOvertakes(s0, OBSERVATION, 0);
    var last := CommitsAndStops(Run(s0, steps));
    RunConcat(s0, steps, last, 0);
    BothStart(Run(s0, steps + last));
  }
}
