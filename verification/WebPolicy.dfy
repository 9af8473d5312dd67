/**
 The carrier policy of the panel as a sparse patch of telemt's [web] table. telemt merges a patch into its
 config member by member and removes a member the patch sets to null; it may report the carriers with the
 fallback carrier appended.
 */
module WebPolicy {
  import opened Options

  datatype Key =
    | CarrierMethod | Conveyor | Carrier | Carriers | CarrierLearning | Aggressiveness | CapacityAction | Timeouts
    | Deadlines | CarrierHealth | CarrierLearningSecs | BridgeRequest | BridgeRetry | ProbeCoalesce
    | Other(name: string)

  datatype Json =
    | Null | Bool(b: bool) | Num(v: real) | Str(s: string) | Arr(items: seq<Json>) | Obj(members: Table)

  type Table = map<Key, Json>

  datatype Policy = Policy(
    carrierMethod: Option<string>, conveyor: Option<bool>, carrier: string,
    carriers: Option<seq<string>>, carrierLearning: bool, aggressiveness: string, capacityAction: string,
    deadlines: seq<int>, carrierHealth: int, carrierLearningSecs: int, bridgeRequest: int, bridgeRetry: int, probeCoalesce: int)

  // ---- telemt's merge ----------------------------------------------------------------------

  function Merge(target: Json, patch: Json): Json
    decreases patch
  {
    if !patch.Obj? then patch
    else
      var base := if target.Obj? then target.members else map[];
      Obj(map k | k in base.Keys + patch.members.Keys && (k in patch.members ==> patch.members[k] != Null)
            :: if k in patch.members then Merge(if k in base then base[k] else Null, patch.members[k]) else base[k])
  }

  function MergeTable(base: Table, patch: Table): Table {
    Merge(Obj(base), Obj(patch)).members
  }

  function Get(t: Table, k: Key): Json {
    if k in t then t[k] else Null
  }

  /** The value without its null members, which telemt treats as absent. */
  function Clean(j: Json): Json {
    if j.Obj? then Obj(map k | k in j.members && j.members[k] != Null :: Clean(j.members[k])) else j
  }

  // ---- the policy as a patch ---------------------------------------------------------------

  function Strings(ss: seq<string>): Json {
    Arr(seq(|ss|, i requires 0 <= i < |ss| => Str(ss[i])))
  }

  function Ints(ns: seq<int>): Json {
    Arr(seq(|ns|, i requires 0 <= i < |ns| => Num(ns[i] as real)))
  }

  /** The list of strings a value is, if it is one. */
  function AnyStrings(j: Json): Option<seq<string>> {
    if j.Arr? && forall i :: 0 <= i < |j.items| ==> j.items[i].Str?
    then Some(seq(|j.items|, i requires 0 <= i < |j.items| => j.items[i].s))
    else None
  }

  function JsonInt(j: Json): Option<int> {
    if j.Num? && j.v.Floor as real == j.v then Some(j.v.Floor) else None
  }

  function AnyInts(j: Json): Option<seq<int>> {
    if j.Arr? && forall i :: 0 <= i < |j.items| ==> JsonInt(j.items[i]).Some?
    then Some(seq(|j.items|, i requires 0 <= i < |j.items| => JsonInt(j.items[i]).value))
    else None
  }

  function StringOr(j: Json): string {
    if j.Str? then j.s else ""
  }

  predicate CarriersSatisfied(cur: seq<string>, want: seq<string>, fallback: string) {
    cur == want || (fallback !in want && cur == want + [fallback])
  }

  function TimeoutSecs(p: Policy, k: Key): Option<int> {
    match k
    case CarrierHealth => Some(p.carrierHealth)
    case CarrierLearningSecs => Some(p.carrierLearningSecs)
    case BridgeRequest => Some(p.bridgeRequest)
    case BridgeRetry => Some(p.bridgeRetry)
    case ProbeCoalesce => Some(p.probeCoalesce)
    case _ => None
  }

  /** The value the policy puts at a key of [web.timeouts]. */
  function WantedTimeout(p: Policy, k: Key): Option<Json> {
    if k == Deadlines then Some(Ints(p.deadlines))
    else match TimeoutSecs(p, k)
      case Some(n) => Some(Num(n as real))
      case None => None
  }

  /** The value the policy puts at a key of [web], None where it has no opinion. */
  function Wanted(p: Policy, k: Key): Option<Json> {
    match k
    case CarrierMethod => if p.carrierMethod.Some? then Some(Str(p.carrierMethod.value)) else None
    case Conveyor => if p.conveyor.Some? then Some(Bool(p.conveyor.value)) else None
    case Carrier => Some(Str(p.carrier))
    case Carriers => Some(if p.carriers.Some? then Strings(p.carriers.value) else Bool(false))
    case CarrierLearning => Some(Bool(p.carrierLearning))
    case Aggressiveness => Some(Str(p.aggressiveness))
    case CapacityAction => Some(Str(p.capacityAction))
    case _ => None
  }

  /** The value at a key of [web] already says what the policy wants. */
  predicate Holds(p: Policy, k: Key, cur: Json)
    requires Wanted(p, k).Some?
  {
    match k
    case Carrier => StringOr(cur) == p.carrier
    case Aggressiveness => StringOr(cur) == p.aggressiveness
    case CapacityAction => StringOr(cur) == p.capacityAction
    case Carriers =>
      if p.carriers.None? then cur == Bool(false)
      else AnyStrings(cur).Some? && CarriersSatisfied(AnyStrings(cur).value, p.carriers.value, p.carrier)
    case _ => cur == Wanted(p, k).value
  }

  predicate HoldsTimeout(p: Policy, k: Key, cur: Json)
    requires WantedTimeout(p, k).Some?
  {
    if k == Deadlines then AnyInts(cur) == Some(p.deadlines) else JsonInt(cur) == TimeoutSecs(p, k)
  }

  function TimeoutsOf(web: Table): Table {
    if Get(web, Timeouts).Obj? then web[Timeouts].members else map[]
  }

  const WEB_KEYS: set<Key> := {CarrierMethod, Conveyor, Carrier, Carriers, CarrierLearning, Aggressiveness, CapacityAction}
  const TIMEOUT_KEYS: set<Key> := {Deadlines, CarrierHealth, CarrierLearningSecs, BridgeRequest, BridgeRetry, ProbeCoalesce}

  function TimeoutPatch(web: Table, p: Policy): Table {
    map k | k in TIMEOUT_KEYS && !AgreesTimeout(p, k, Get(TimeoutsOf(web), k)) :: WantedTimeout(p, k).value
  }

  /** The sparse patch: every key the policy speaks of and the config does not satisfy. */
  function Patch(web: Table, p: Policy): Table {
    var top := map k | k in WEB_KEYS && !Agrees(p, k, Get(web, k)) :: Wanted(p, k).value;
    if TimeoutPatch(web, p) == map[] then top else top[Timeouts := Obj(TimeoutPatch(web, p))]
  }

  predicate Agrees(p: Policy, k: Key, cur: Json) {
    Wanted(p, k).Some? ==> Holds(p, k, cur)
  }

  predicate AgreesTimeout(p: Policy, k: Key, cur: Json) {
    WantedTimeout(p, k).Some? ==> HoldsTimeout(p, k, cur)
  }

  // ---- what it means that a node carries the policy -----------------------------------------

  ghost predicate Reads(t: Table, k: Key, v: Json) {
    k in t && t[k] == v
  }

  /** The string at the key; a value that is no string reads as the empty one. */
  ghost predicate ReadsString(t: Table, k: Key, s: string) {
    Reads(t, k, Str(s)) || (s == "" && !(k in t && t[k].Str?))
  }

  ghost predicate ReadsStrings(t: Table, k: Key, ss: seq<string>) {
    k in t && t[k].Arr? && |t[k].items| == |ss| && forall i :: 0 <= i < |ss| ==> t[k].items[i] == Str(ss[i])
  }

  ghost predicate ReadsInts(t: Table, k: Key, ns: seq<int>) {
    k in t && t[k].Arr? && |t[k].items| == |ns| && forall i :: 0 <= i < |ns| ==> t[k].items[i] == Num(ns[i] as real)
  }

  /** The carriers are the wanted ones, with the fallback appended perhaps, or off. */
  ghost predicate CarriersRead(web: Table, p: Policy) {
    match p.carriers
    case None => Reads(web, Carriers, Bool(false))
    case Some(want) =>
      ReadsStrings(web, Carriers, want) || (p.carrier !in want && ReadsStrings(web, Carriers, want + [p.carrier]))
  }

  /** The node carries the policy: every key reads as the field it is for. */
  ghost predicate Meets(web: Table, p: Policy) {
    && (p.carrierMethod.Some? ==> Reads(web, CarrierMethod, Str(p.carrierMethod.value)))
    && (p.conveyor.Some? ==> Reads(web, Conveyor, Bool(p.conveyor.value)))
    && ReadsString(web, Carrier, p.carrier) && CarriersRead(web, p)
    && Reads(web, CarrierLearning, Bool(p.carrierLearning))
    && ReadsString(web, Aggressiveness, p.aggressiveness) && ReadsString(web, CapacityAction, p.capacityAction)
    && Timeouts in web && web[Timeouts].Obj? && MeetsTimeouts(web[Timeouts].members, p)
  }

  ghost predicate MeetsTimeouts(timeouts: Table, p: Policy) {
    && ReadsInts(timeouts, Deadlines, p.deadlines)
    && Reads(timeouts, CarrierHealth, Num(p.carrierHealth as real))
    && Reads(timeouts, CarrierLearningSecs, Num(p.carrierLearningSecs as real))
    && Reads(timeouts, BridgeRequest, Num(p.bridgeRequest as real))
    && Reads(timeouts, BridgeRetry, Num(p.bridgeRetry as real))
    && Reads(timeouts, ProbeCoalesce, Num(p.probeCoalesce as real))
  }

  /** No key differs from the policy, as the agent compares them. */
  ghost predicate AllAgree(web: Table, p: Policy) {
    (forall k :: k in WEB_KEYS ==> Agrees(p, k, Get(web, k))) && AllTimeoutsAgree(TimeoutsOf(web), p)
  }

  ghost predicate AllTimeoutsAgree(timeouts: Table, p: Policy) {
    forall k :: k in TIMEOUT_KEYS ==> AgreesTimeout(p, k, Get(timeouts, k))
  }

  lemma IntsRead(t: Table, k: Key, ns: seq<int>)
    ensures ReadsInts(t, k, ns) <==> AnyInts(Get(t, k)) == Some(ns)
  {
    if ReadsInts(t, k, ns) {
      assert forall i :: 0 <= i < |ns| ==> JsonInt(t[k].items[i]) == Some(ns[i]);
      assert AnyInts(t[k]).value == ns;
    }
    if AnyInts(Get(t, k)) == Some(ns) {
      forall i | 0 <= i < |ns|
        ensures t[k].items[i] == Num(ns[i] as real)
      {
        assert JsonInt(t[k].items[i]) == Some(ns[i]);
      }
    }
  }

  lemma StringsRead(t: Table, k: Key, ss: seq<string>)
    ensures ReadsStrings(t, k, ss) <==> AnyStrings(Get(t, k)) == Some(ss)
  {
    if ReadsStrings(t, k, ss) {
      assert AnyStrings(t[k]).value == ss;
    }
    if AnyStrings(Get(t, k)) == Some(ss) {
      assert forall i :: 0 <= i < |ss| ==> t[k].items[i] == Str(ss[i]);
    }
  }

  lemma CarriersAgree(web: Table, p: Policy)
    ensures CarriersRead(web, p) <==> Agrees(p, Carriers, Get(web, Carriers))
  {
    if p.carriers.Some? {
      StringsRead(web, Carriers, p.carriers.value);
      StringsRead(web, Carriers, p.carriers.value + [p.carrier]);
    }
  }

  lemma TimeoutsAgree(timeouts: Table, p: Policy)
    ensures MeetsTimeouts(timeouts, p) <==> AllTimeoutsAgree(timeouts, p)
  {
    IntsRead(timeouts, Deadlines, p.deadlines);
    assert AllTimeoutsAgree(timeouts, p) <==>
      && AgreesTimeout(p, Deadlines, Get(timeouts, Deadlines))
      && AgreesTimeout(p, CarrierHealth, Get(timeouts, CarrierHealth))
      && AgreesTimeout(p, CarrierLearningSecs, Get(timeouts, CarrierLearningSecs))
      && AgreesTimeout(p, BridgeRequest, Get(timeouts, BridgeRequest))
      && AgreesTimeout(p, BridgeRetry, Get(timeouts, BridgeRetry))
      && AgreesTimeout(p, ProbeCoalesce, Get(timeouts, ProbeCoalesce));
  }

  /** What the agent compares of the keys that are no tables. */
  lemma KeysAgree(web: Table, p: Policy)
    ensures (forall k :: k in WEB_KEYS ==> Agrees(p, k, Get(web, k))) <==>
              && (p.carrierMethod.Some? ==> Reads(web, CarrierMethod, Str(p.carrierMethod.value)))
              && (p.conveyor.Some? ==> Reads(web, Conveyor, Bool(p.conveyor.value)))
              && ReadsString(web, Carrier, p.carrier) && CarriersRead(web, p)
              && Reads(web, CarrierLearning, Bool(p.carrierLearning))
              && ReadsString(web, Aggressiveness, p.aggressiveness) && ReadsString(web, CapacityAction, p.capacityAction)
  {
    hide CarriersRead, CarriersSatisfied, AnyStrings, Strings;
    CarriersAgree(web, p);
    assert (forall k :: k in WEB_KEYS ==> Agrees(p, k, Get(web, k))) <==>
      && Agrees(p, CarrierMethod, Get(web, CarrierMethod)) && Agrees(p, Conveyor, Get(web, Conveyor))
      && Agrees(p, Carrier, Get(web, Carrier)) && Agrees(p, Carriers, Get(web, Carriers))
      && Agrees(p, CarrierLearning, Get(web, CarrierLearning))
      && Agrees(p, Aggressiveness, Get(web, Aggressiveness)) && Agrees(p, CapacityAction, Get(web, CapacityAction));
  }

  /** The agent finds no difference exactly when every key reads as its field. */
  lemma MeetsIff(web: Table, p: Policy)
    ensures Meets(web, p) <==> AllAgree(web, p)
  {
    hide Agrees, AllTimeoutsAgree;
    KeysAgree(web, p);
    TimeoutsAgree(TimeoutsOf(web), p);
  }

  lemma WantedHolds(p: Policy, k: Key)
    requires Wanted(p, k).Some?
    ensures Holds(p, k, Wanted(p, k).value) && !Wanted(p, k).value.Obj? && Wanted(p, k).value != Null
  {
    if k == Carriers && p.carriers.Some? {
      assert AnyStrings(Strings(p.carriers.value)).value == p.carriers.value;
    }
  }

  lemma WantedTimeoutHolds(p: Policy, k: Key)
    requires WantedTimeout(p, k).Some?
    ensures HoldsTimeout(p, k, WantedTimeout(p, k).value)
    ensures !WantedTimeout(p, k).value.Obj? && WantedTimeout(p, k).value != Null
  {
    if k == Deadlines {
      assert forall i :: 0 <= i < |p.deadlines| ==> JsonInt(Num(p.deadlines[i] as real)) == Some(p.deadlines[i]);
      assert AnyInts(Ints(p.deadlines)).value == p.deadlines;
    }
  }

  /** There is nothing to patch exactly when the node carries the policy. */
  lemma PatchIsEmptyIff(web: Table, p: Policy)
    ensures Patch(web, p) == map[] <==> Meets(web, p)
  {
    MeetsIff(web, p);
    var top := map k | k in WEB_KEYS && !Agrees(p, k, Get(web, k)) :: Wanted(p, k).value;
    if Patch(web, p) == map[] {
      assert TimeoutPatch(web, p) != map[] ==> Timeouts in Patch(web, p);
      assert top == map[] && TimeoutPatch(web, p) == map[];
      assert forall k :: k in WEB_KEYS ==> k !in top;
      assert forall k :: k in TIMEOUT_KEYS ==> k !in TimeoutPatch(web, p);
    }
    if AllAgree(web, p) {
      assert TimeoutPatch(web, p) == map[];
      assert top == map[];
    }
  }

  /** telemt's own addition to the carriers: the fallback, where it is not among them. */
  predicate Reported(web: Table, seen: Table, fallback: string) {
    || seen == web
    || (Carriers in web && AnyStrings(web[Carriers]).Some? && fallback !in AnyStrings(web[Carriers]).value
        && seen == web[Carriers := Strings(AnyStrings(web[Carriers]).value + [fallback])])
  }

  /** What the merge leaves under each key. */
  lemma MergedAt(base: Table, patch: Table, k: Key)
    ensures Get(MergeTable(base, patch), k)
         == if k in patch then (if patch[k] == Null then Null else Merge(Get(base, k), patch[k])) else Get(base, k)
  {
  }

  lemma PatchAt(web: Table, p: Policy, k: Key)
    ensures k in Patch(web, p) <==>
              || (k in WEB_KEYS && !Agrees(p, k, Get(web, k)))
              || (k == Timeouts && TimeoutPatch(web, p) != map[])
    ensures k in Patch(web, p) ==>
              Patch(web, p)[k] == if k == Timeouts then Obj(TimeoutPatch(web, p)) else Wanted(p, k).value
  {
  }

  function TableOf(j: Json): Table {
    if j.Obj? then j.members else map[]
  }

  lemma NestedAt(base: Table, patch: Table, k: Key)
    requires k in patch && patch[k].Obj?
    ensures Get(MergeTable(base, patch), k) == Obj(MergeTable(TableOf(Get(base, k)), patch[k].members))
  {
    MergedAt(base, patch, k);
  }

  /** The timeouts after the patch are the old ones with the timeout patch merged in. */
  lemma TimeoutsAfter(web: Table, p: Policy)
    ensures TimeoutsOf(MergeTable(web, Patch(web, p))) == MergeTable(TimeoutsOf(web), TimeoutPatch(web, p))
  {
    PatchAt(web, p, Timeouts);
    if TimeoutPatch(web, p) != map[] {
      NestedAt(web, Patch(web, p), Timeouts);
    } else {
      MergedAt(web, Patch(web, p), Timeouts);
      assert MergeTable(TimeoutsOf(web), map[]) == TimeoutsOf(web);
    }
  }

  lemma PatchedTimeouts(timeouts: Table, web: Table, p: Policy)
    requires timeouts == TimeoutsOf(web)
    ensures AllTimeoutsAgree(MergeTable(timeouts, TimeoutPatch(web, p)), p)
  {
    var next := TimeoutPatch(web, p);
    forall k | k in TIMEOUT_KEYS
      ensures AgreesTimeout(p, k, Get(MergeTable(timeouts, next), k))
    {
      MergedAt(timeouts, next, k);
      if k in next {
        WantedTimeoutHolds(p, k);
      }
    }
  }

  lemma PatchedKey(web: Table, p: Policy, k: Key)
    requires k in WEB_KEYS
    ensures Agrees(p, k, Get(MergeTable(web, Patch(web, p)), k))
  {
    MergedAt(web, Patch(web, p), k);
    PatchAt(web, p, k);
    if Wanted(p, k).Some? {
      WantedHolds(p, k);
    }
  }

  /** Merging the patch makes the node carry the policy; carriers that are patched are the wanted ones alone. */
  lemma PatchReaches(web: Table, p: Policy)
    ensures Meets(MergeTable(web, Patch(web, p)), p)
    ensures Carriers in Patch(web, p) && p.carriers.Some? ==>
              ReadsStrings(MergeTable(web, Patch(web, p)), Carriers, p.carriers.value)
  {
    if Carriers in Patch(web, p) && p.carriers.Some? {
      MergedAt(web, Patch(web, p), Carriers);
      WantedHolds(p, Carriers);
    }
    forall k | k in WEB_KEYS
      ensures Agrees(p, k, Get(MergeTable(web, Patch(web, p)), k))
    {
      PatchedKey(web, p, k);
    }
    TimeoutsAfter(web, p);
    PatchedTimeouts(TimeoutsOf(web), web, p);
    MeetsIff(MergeTable(web, Patch(web, p)), p);
  }

  /** What the policy does not speak of stays as it is. */
  lemma PatchLeavesTheRest(web: Table, p: Policy, name: string)
    ensures var after := MergeTable(web, Patch(web, p));
            && Get(after, Other(name)) == Get(web, Other(name))
            && Get(TimeoutsOf(after), Other(name)) == Get(TimeoutsOf(web), Other(name))
            && (p.carrierMethod.None? ==> Get(after, CarrierMethod) == Get(web, CarrierMethod))
            && (p.conveyor.None? ==> Get(after, Conveyor) == Get(web, Conveyor))
  {
    hide Patch, Merge;
    var patch := Patch(web, p);
    MergedAt(web, patch, Other(name));
    MergedAt(web, patch, CarrierMethod);
    MergedAt(web, patch, Conveyor);
    PatchAt(web, p, Other(name));
    PatchAt(web, p, CarrierMethod);
    PatchAt(web, p, Conveyor);
    TimeoutsAfter(web, p);
    MergedAt(TimeoutsOf(web), TimeoutPatch(web, p), Other(name));
  }

  /** The patch is sparse: with any key of it left out the node would not carry the policy. */
  lemma PatchIsSparse(web: Table, p: Policy, k: Key)
    ensures k in Patch(web, p) ==> !Meets(MergeTable(web, Patch(web, p) - {k}), p)
    ensures k in TimeoutPatch(web, p) ==>
              !Meets(MergeTable(web, Patch(web, p)[Timeouts := Obj(TimeoutPatch(web, p) - {k})]), p)
  {
    PatchAt(web, p, k);
    if k in Patch(web, p) {
      var after := MergeTable(web, Patch(web, p) - {k});
      MergedAt(web, Patch(web, p) - {k}, k);
      MeetsIff(after, p);
      if k == Timeouts {
        var name :| name in TimeoutPatch(web, p);
        assert TimeoutsOf(after) == TimeoutsOf(web) && name in TIMEOUT_KEYS && !AgreesTimeout(p, name, Get(TimeoutsOf(after), name));
      }
    }
    if k in TimeoutPatch(web, p) {
      var patch := Patch(web, p)[Timeouts := Obj(TimeoutPatch(web, p) - {k})];
      var after := MergeTable(web, patch);
      NestedAt(web, patch, Timeouts);
      MergedAt(TimeoutsOf(web), TimeoutPatch(web, p) - {k}, k);
      MeetsIff(after, p);
      assert k in TIMEOUT_KEYS && !AgreesTimeout(p, k, Get(TimeoutsOf(after), k));
    }
  }

  /** A config that meets the policy still does with the fallback carrier appended. */
  lemma ReportedStillMeets(web: Table, seen: Table, p: Policy)
    requires Meets(web, p) && Reported(web, seen, p.carrier)
    ensures Meets(seen, p)
  {
    if seen != web {
      var cur := AnyStrings(web[Carriers]).value;
      assert forall i :: 0 <= i < |cur| ==> web[Carriers].items[i] == Str(cur[i]);
      assert p.carriers.Some? && ReadsStrings(seen, Carriers, cur + [p.carrier]);
      StringsRead(web, Carriers, p.carriers.value);
      StringsRead(web, Carriers, p.carriers.value + [p.carrier]);
      assert p.carrier in p.carriers.value + [p.carrier];
      assert CarriersRead(seen, p);
    }
  }

  /** The fixpoint: with the patch merged a second look finds nothing to patch, whatever telemt appended. */
  lemma PatchIsFixpoint(web: Table, seen: Table, p: Policy)
    requires Reported(MergeTable(web, Patch(web, p)), seen, p.carrier)
    ensures Patch(seen, p) == map[]
  {
    PatchReaches(web, p);
    ReportedStillMeets(MergeTable(web, Patch(web, p)), seen, p);
    PatchIsEmptyIff(seen, p);
  }

  // ---- the undo ----------------------------------------------------------------------------

  /** What reconcileTelemtWebPolicy keeps of the config to undo a patch. */
  function Undo(web: Table, patch: Table): Table {
    map k | k in patch
      :: if k == Timeouts && patch[k].Obj?
         then Obj(map name | name in patch[k].members :: Get(TimeoutsOf(web), name))
         else Get(web, k)
  }

  lemma {:induction false} MergeOverScalar(target: Json, patch: Json)
    requires !target.Obj?
    ensures Merge(target, patch) == Clean(patch)
    decreases patch
  {
    if patch.Obj? {
      forall k | k in patch.members && patch.members[k] != Null
        ensures Merge(Null, patch.members[k]) == Clean(patch.members[k])
      {
        MergeOverScalar(Null, patch.members[k]);
      }
    }
  }

  lemma {:induction false} CleanTwice(j: Json)
    ensures Clean(Clean(j)) == Clean(j) && (Clean(j) == Null <==> j == Null)
  {
    if j.Obj? {
      forall k | k in j.members && j.members[k] != Null
        ensures Clean(Clean(j.members[k])) == Clean(j.members[k]) && Clean(j.members[k]) != Null
      {
        CleanTwice(j.members[k]);
      }
    }
  }

  /** Where a scalar was patched in, the old value comes back, its null members taken as absent. */
  lemma UndoneAt(base: Table, patched: Table, undo: Table, k: Key)
    requires k in undo && undo[k] == Get(base, k) && !Get(patched, k).Obj?
    ensures Clean(Get(MergeTable(patched, undo), k)) == Clean(Get(base, k))
  {
    MergedAt(patched, undo, k);
    MergeOverScalar(Get(patched, k), undo[k]);
    CleanTwice(undo[k]);
  }

  /**
   The undo puts every key the patch touched back to what it was, and leaves every other alone; the timeouts come
   back name by name, and as a whole exactly when they were a table before or untouched. A fallback carrier that
   telemt appends to a patched list is undone with it; the only thing that does not come back is a list that was
   not patched and got one.
   */
  lemma UndoRestores(web: Table, p: Policy, seen: Table, k: Key)
    requires Reported(MergeTable(web, Patch(web, p)), seen, p.carrier)
    ensures var back := MergeTable(seen, Undo(web, Patch(web, p)));
            && (k != Timeouts ==>
                  (Clean(Get(back, k)) == Clean(Get(web, k))
                   <==> k != Carriers || Carriers in Patch(web, p) || seen == MergeTable(web, Patch(web, p))))
            && Clean(Get(TimeoutsOf(back), k)) == Clean(Get(TimeoutsOf(web), k))
  {
    var patch := Patch(web, p);
    var undo := Undo(web, patch);
    MergedAt(web, patch, k);
    PatchAt(web, p, k);
    MergedAt(seen, undo, k);
    if k != Timeouts && k in patch {
      WantedHolds(p, k);
      UndoneAt(web, seen, undo, k);
    }
    TimeoutBack(web, p, seen, k);
  }

  lemma TimeoutBack(web: Table, p: Policy, seen: Table, k: Key)
    requires Get(seen, Timeouts) == Get(MergeTable(web, Patch(web, p)), Timeouts)
    ensures var back := MergeTable(seen, Undo(web, Patch(web, p)));
            Clean(Get(TimeoutsOf(back), k)) == Clean(Get(TimeoutsOf(web), k))
  {
    hide Merge, TimeoutPatch, Wanted;
    TimeoutsAfter(web, p);
    if TimeoutPatch(web, p) != map[] {
      TimeoutsUndone(web, p, seen);
      NameBack(web, p, k);
    } else {
      PatchAt(web, p, Timeouts);
      MergedAt(seen, Undo(web, Patch(web, p)), Timeouts);
      MergedAt(TimeoutsOf(web), map[], k);
    }
  }

  function TimeoutUndo(web: Table, p: Policy): Table {
    map name | name in TimeoutPatch(web, p) :: Get(TimeoutsOf(web), name)
  }

  lemma TimeoutsUndone(web: Table, p: Policy, seen: Table)
    requires TimeoutPatch(web, p) != map[]
    requires TimeoutsOf(seen) == MergeTable(TimeoutsOf(web), TimeoutPatch(web, p))
    ensures TimeoutsOf(MergeTable(seen, Undo(web, Patch(web, p)))) == MergeTable(TimeoutsOf(seen), TimeoutUndo(web, p))
  {
    var undo := Undo(web, Patch(web, p));
    PatchAt(web, p, Timeouts);
    assert undo[Timeouts] == Obj(TimeoutUndo(web, p));
    NestedAt(seen, undo, Timeouts);
  }

  lemma NameBack(web: Table, p: Policy, k: Key)
    ensures var patched := MergeTable(TimeoutsOf(web), TimeoutPatch(web, p));
            Clean(Get(MergeTable(patched, TimeoutUndo(web, p)), k)) == Clean(Get(TimeoutsOf(web), k))
  {
    var base, next := TimeoutsOf(web), TimeoutPatch(web, p);
    var sub := TimeoutUndo(web, p);
    var patched := MergeTable(base, next);
    MergedAt(base, next, k);
    if k in next {
      WantedTimeoutHolds(p, k);
      UndoneAt(base, patched, sub, k);
    } else {
      MergedAt(patched, sub, k);
    }
  }

  /** The table of timeouts as a whole comes back exactly when it was one before, or nothing in it was patched. */
  lemma TimeoutsTableBackIff(web: Table, p: Policy)
    ensures var back := MergeTable(MergeTable(web, Patch(web, p)), Undo(web, Patch(web, p)));
            Clean(Get(back, Timeouts)) == Clean(Get(web, Timeouts))
            <==> Get(web, Timeouts).Obj? || TimeoutPatch(web, p) == map[]
  {
    hide Merge, Wanted, Agrees;
    var seen := MergeTable(web, Patch(web, p));
    var undo := Undo(web, Patch(web, p));
    PatchAt(web, p, Timeouts);
    if TimeoutPatch(web, p) == map[] {
      MergedAt(web, Patch(web, p), Timeouts);
      MergedAt(seen, undo, Timeouts);
    } else {
      NestedAt(seen, undo, Timeouts);
      if Get(web, Timeouts).Obj? {
        NamesBack(web, p);
      }
    }
  }

  lemma NamesBack(web: Table, p: Policy)
    ensures var back := MergeTable(MergeTable(web, Patch(web, p)), Undo(web, Patch(web, p)));
            Clean(Obj(TimeoutsOf(back))) == Clean(Obj(TimeoutsOf(web)))
  {
    var seen := MergeTable(web, Patch(web, p));
    var back := TimeoutsOf(MergeTable(seen, Undo(web, Patch(web, p))));
    forall k
      ensures Clean(Get(back, k)) == Clean(Get(TimeoutsOf(web), k))
    {
      TimeoutBack(web, p, seen, k);
    }
    SameMembers(back, TimeoutsOf(web));
  }

  lemma SameMembers(s: Table, t: Table)
    requires forall k :: Clean(Get(s, k)) == Clean(Get(t, k))
    ensures Clean(Obj(s)) == Clean(Obj(t))
  {
    forall k
      ensures k in s && s[k] != Null <==> k in t && t[k] != Null
    {
      CleanTwice(Get(s, k));
      CleanTwice(Get(t, k));
      assert Clean(Get(s, k)) == Clean(Get(t, k));
    }
    var cs, ct := Clean(Obj(s)).members, Clean(Obj(t)).members;
    forall k
      ensures k in cs <==> k in ct
      ensures k in cs ==> cs[k] == ct[k]
    {
      assert Clean(Get(s, k)) == Clean(Get(t, k));
    }
    assert cs == ct;
  }

  // ---- the patch step by step --------------------------------------------------------------

  /** The part of the patch that concerns some keys of [web]. */
  function Partial(web: Table, p: Policy, keys: set<Key>): Table {
    map k | k in keys && !Agrees(p, k, Get(web, k)) :: Wanted(p, k).value
  }

  /** Takes one key into the patch if its value differs from the policy's. */
  method Move(web: Table, p: Policy, patch: Table, ghost keys: set<Key>, k: Key, differs: bool, value: Json)
    returns (next: Table)
    requires patch == Partial(web, p, keys) && differs == !Agrees(p, k, Get(web, k))
    requires differs ==> value == Wanted(p, k).value
    ensures next == Partial(web, p, keys + {k})
  {
    next := if differs then patch[k := value] else patch;
  }

  method WebPatch(web: Table, p: Policy) returns (patch: Table)
    ensures patch == Partial(web, p, WEB_KEYS)
  {
    patch := OptionalPatch(web, p);
    patch := Move(web, p, patch, {CarrierMethod, Conveyor}, Carrier, StringOr(Get(web, Carrier)) != p.carrier, Str(p.carrier));
    patch := MoveCarriers(web, p, patch, {CarrierMethod, Conveyor, Carrier});
    patch := LaterPatch(web, p, patch, {CarrierMethod, Conveyor, Carrier, Carriers});
    assert {CarrierMethod, Conveyor, Carrier, Carriers} + {CarrierLearning, Aggressiveness, CapacityAction} == WEB_KEYS;
  }

  method LaterPatch(web: Table, p: Policy, patch: Table, ghost keys: set<Key>) returns (next: Table)
    requires patch == Partial(web, p, keys)
    ensures next == Partial(web, p, keys + {CarrierLearning, Aggressiveness, CapacityAction})
  {
    var learning := Get(web, CarrierLearning);
    var differs := !learning.Bool? || learning.b != p.carrierLearning;
    next := Move(web, p, patch, keys, CarrierLearning, differs, Bool(p.carrierLearning));
    differs := StringOr(Get(web, Aggressiveness)) != p.aggressiveness;
    next := Move(web, p, next, keys + {CarrierLearning}, Aggressiveness, differs, Str(p.aggressiveness));
    differs := StringOr(Get(web, CapacityAction)) != p.capacityAction;
    next := Move(web, p, next, keys + {CarrierLearning} + {Aggressiveness}, CapacityAction, differs, Str(p.capacityAction));
    assert keys + {CarrierLearning} + {Aggressiveness} + {CapacityAction} == keys + {CarrierLearning, Aggressiveness, CapacityAction};
  }

  method OptionalPatch(web: Table, p: Policy) returns (patch: Table)
    ensures patch == Partial(web, p, {CarrierMethod, Conveyor})
  {
    var differs := p.carrierMethod.Some? && Get(web, CarrierMethod) != Str(p.carrierMethod.value);
    patch := Move(web, p, map[], {}, CarrierMethod, differs, Str(if differs then p.carrierMethod.value else ""));
    differs := p.conveyor.Some? && Get(web, Conveyor) != Bool(p.conveyor.value);
    patch := Move(web, p, patch, {CarrierMethod}, Conveyor, differs, Bool(differs && p.conveyor.value));
    assert {} + {CarrierMethod} + {Conveyor} == {CarrierMethod, Conveyor};
  }

  method MoveCarriers(web: Table, p: Policy, patch: Table, ghost keys: set<Key>) returns (next: Table)
    requires patch == Partial(web, p, keys)
    ensures next == Partial(web, p, keys + {Carriers})
  {
    var cur := AnyStrings(Get(web, Carriers));
    if p.carriers.None? {
      var differs := !Get(web, Carriers).Bool? || Get(web, Carriers).b;
      next := Move(web, p, patch, keys, Carriers, differs, Bool(false));
    } else {
      var differs := cur.None? || !CarriersSatisfied(cur.value, p.carriers.value, p.carrier);
      next := Move(web, p, patch, keys, Carriers, differs, Strings(p.carriers.value));
    }
  }

  function PartialTimeouts(timeouts: Table, p: Policy, keys: set<Key>): Table {
    map k | k in keys && !AgreesTimeout(p, k, Get(timeouts, k)) :: WantedTimeout(p, k).value
  }

  method MoveTimeout(timeouts: Table, p: Policy, patch: Table, ghost keys: set<Key>, k: Key, differs: bool, value: Json)
    returns (next: Table)
    requires patch == PartialTimeouts(timeouts, p, keys) && differs == !AgreesTimeout(p, k, Get(timeouts, k))
    requires differs ==> value == WantedTimeout(p, k).value
    ensures next == PartialTimeouts(timeouts, p, keys + {k})
  {
    next := if differs then patch[k := value] else patch;
  }

  function Fields(p: Policy): seq<(Key, int)> {
    [(CarrierHealth, p.carrierHealth), (CarrierLearningSecs, p.carrierLearningSecs), (BridgeRequest, p.bridgeRequest),
     (BridgeRetry, p.bridgeRetry), (ProbeCoalesce, p.probeCoalesce)]
  }

  lemma FieldsAreTheTimeouts(p: Policy, i: nat)
    ensures i < 5 ==> TimeoutSecs(p, Fields(p)[i].0) == Some(Fields(p)[i].1) && Fields(p)[i].0 != Deadlines
    ensures {Deadlines, Fields(p)[0].0, Fields(p)[1].0, Fields(p)[2].0, Fields(p)[3].0, Fields(p)[4].0} == TIMEOUT_KEYS
  {
  }

  /** Deadlines and the first `i` plain fields. */
  ghost function FieldKeys(p: Policy, i: nat): set<Key>
    requires i <= 5
  {
    if i == 0 then {Deadlines} else FieldKeys(p, i - 1) + {Fields(p)[i - 1].0}
  }

  method TimeoutsPatch(timeouts: Table, p: Policy) returns (next: Table)
    ensures next == PartialTimeouts(timeouts, p, TIMEOUT_KEYS)
  {
    next := MoveTimeout(timeouts, p, map[], {}, Deadlines, AnyInts(Get(timeouts, Deadlines)) != Some(p.deadlines), Ints(p.deadlines));
    for i := 0 to 5
      invariant next == PartialTimeouts(timeouts, p, FieldKeys(p, i))
    {
      FieldsAreTheTimeouts(p, i);
      var (k, want) := Fields(p)[i];
      next := MoveTimeout(timeouts, p, next, FieldKeys(p, i), k, JsonInt(Get(timeouts, k)) != Some(want), Num(want as real));
    }
    FieldsAreTheTimeouts(p, 5);
    assert FieldKeys(p, 2) == FieldKeys(p, 1) + {Fields(p)[1].0};
    assert FieldKeys(p, 4) == FieldKeys(p, 3) + {Fields(p)[3].0};
    assert FieldKeys(p, 5) == TIMEOUT_KEYS;
  }

  method TelemtWebPolicyPatch(web: Table, p: Policy) returns (patch: Table)
    ensures patch == Patch(web, p)
    ensures Meets(MergeTable(web, patch), p) && (patch == map[] <==> Meets(web, p))
  {
    PatchReaches(web, p);
    PatchIsEmptyIff(web, p);
    patch := WebPatch(web, p);
    var next := TimeoutsPatch(TimeoutsOf(web), p);
    assert next == TimeoutPatch(web, p);
    if next != map[] {
      patch := patch[Timeouts := Obj(next)];
    }
  }
}
