/** The container store of the Python predecessor of the collector (trans/discover.py): the
    nested dict `systems` (pod-level name -> key -> reserved text or container entry), the
    discovery seeding loop of `main`, and the per-series loops that fill it from kube state
    metrics. A Python exception (KeyError, IndexError, TypeError) ends the program; every loop
    step is modelled as an `Option`, None standing for the exception. */
module Discover {
  import opened Labels

  /** `args.collection`: which labels name a container. */
  datatype Collection = Kubernetes | Swarm

  /** `args.mode`: `current` asks one instant query; every other mode asks the history. */
  datatype Mode = Current | History

  /** `dc_settings[collection]['name1']`: the label naming the pod-level entry. */
  function Name1(c: Collection): string
  {
    match c
    case Kubernetes => "created_by_name"
    case Swarm => "name"
  }

  /** `dc_settings[collection]['name2']`: the label naming the container inside it. */
  function Name2(c: Collection): string
  {
    match c
    case Kubernetes => "container_name"
    case Swarm => "instance"
  }

  /** One entry of a query's `result`: its `metric` labels, its `value` pair (instant queries)
      and its `values` pairs (range queries); a pair is (timestamp, sample text). */
  datatype Record = Record(metric: LabelSet, value: Option<(int, string)>, values: seq<(int, string)>)

  /** The sample a loop stores: `i['value'][1]` in current mode, `i['values'][len-1][1]`
      otherwise; None when that raises (no `value`, or an empty `values`). */
  function Pick(mode: Mode, it: Record): Option<string>
  {
    match mode
    case Current => if it.value.Some? then Some(it.value.value.1) else None
    case History => if |it.values| > 0 then Some(it.values[|it.values| - 1].1) else None
  }

  /** Only the last pair of a range result is ever stored; earlier pairs never matter, and an
      empty range raises. */
  lemma PickLast(metric: LabelSet, v: Option<(int, string)>, earlier: seq<(int, string)>, other: seq<(int, string)>, last: (int, string))
    ensures Pick(History, Record(metric, v, earlier + [last])) == Pick(History, Record(metric, None, other + [last])) == Some(last.1)
    ensures Pick(History, Record(metric, v, [])) == None
  {
  }

  /** `state`: the integer seeding stores (1) or the swarm loop stores (0), or the sample text
      the kube state loop stores. */
  datatype State = Flag(n: int) | Reported(text: string)

  /** A container entry `systems[name1][name2]`, with the keys seeding creates. */
  datatype Container = Container(
    namespace: string, memory: string, attr: string, conInstance: string, conInfo: string,
    cpuLimit: string, cpuRequest: string, memLimit: string, memRequest: string, podName: string,
    state: State)

  /** What a key of a pod-level dict holds: the text of a reserved pod field, or a container. */
  datatype Slot = Text(text: string) | Entry(c: Container)

  type Pod = map<string, Slot>

  /** The dict `systems`. */
  type Systems = map<string, Pod>

  /** The five reserved pod-level keys seeding creates beside the containers. */
  predicate PodField(k: string)
  {
    k == "pod_info" || k == "pod_labels" || k == "created_by_kind" || k == "created_by_name" || k == "current_size"
  }

  /** The pod-level dict seeding creates the first time a name is seen. */
  function NewPod(): (p: Pod)
    ensures forall k :: k in p <==> PodField(k)
    ensures forall k :: k in p ==> p[k] == Text("")
  {
    map["pod_info" := Text(""), "pod_labels" := Text(""), "created_by_kind" := Text(""),
        "created_by_name" := Text(""), "current_size" := Text("")]
  }

  /** The container entry seeding builds: every text field empty and `state` the integer 1. */
  function NewContainer(namespace: string, memory: string): Container
  {
    Container(namespace, memory, "", "", "", "", "", "", "", "", Flag(1))
  }

  predicate Has(sys: Systems, p: string, k: string)
  {
    p in sys && k in sys[p]
  }

  /** `systems[p][k] = entry`. */
  function SetEntry(sys: Systems, p: string, k: string, c: Container): (r: Systems)
    requires p in sys
    ensures Has(r, p, k) && r[p][k] == Entry(c)
  {
    sys[p := sys[p][k := Entry(c)]]
  }

  /** Every pod-level dict holds the five reserved keys, and reserved text is found only under
      a reserved key (a container may take a reserved key's place, never the reverse). */
  ghost predicate WellFormed(sys: Systems)
  {
    forall p :: p in sys ==> WellFormedPod(sys[p])
  }

  ghost predicate WellFormedPod(pod: Pod)
  {
    && "pod_info" in pod && "pod_labels" in pod && "created_by_kind" in pod
    && "created_by_name" in pod && "current_size" in pod
    && (forall k :: k in pod && pod[k].Text? ==> PodField(k))
  }

  /** The same pod-level names, the same keys under each, and text where there was text. */
  ghost predicate SameShape(a: Systems, b: Systems)
  {
    && a.Keys == b.Keys
    && (forall p :: p in a ==> a[p].Keys == b[p].Keys)
    && (forall p, k :: p in a && k in a[p] ==> (a[p][k].Text? <==> b[p][k].Text?))
  }

  /** In a well-formed store a key that is not reserved always holds a container. */
  lemma WellFormedEntry(sys: Systems, p: string, k: string)
    requires WellFormed(sys) && Has(sys, p, k) && !PodField(k)
    ensures sys[p][k].Entry?
  {
    assert WellFormedPod(sys[p]);
  }

  // ---------------------------------------------------------------------------------------
  // The loops over a query result

  /** The four container fields `getkubestatemetrics` is called for. */
  datatype LimitField = CpuLimit | CpuRequest | MemLimit | MemRequest

  /** The loop bodies that walk a query result and change `systems`:
      Seed: discovery seeding in `main`;
      Limit: `getkubestatemetrics(systems, query, field)`;
      TerminatedState: the kube state loop over `kube_pod_container_status_terminated`;
      SwarmState: the swarm loop that marks listed containers running;
      ReplicaCount: the loops that store a controller's replica count under `current_size`,
      keyed by its `owner` label (`replicaset`, `replicationcontroller`, `daemonset`). */
  datatype Op =
    | Seed(coll: Collection, mode: Mode)
    | Limit(limitMode: Mode, field: LimitField)
    | TerminatedState
    | SwarmState
    | ReplicaCount(countMode: Mode, owner: string)

  /** The namespace seeding stores for an item: the `namespace` label under Kubernetes (None
      when it is missing: KeyError), `Default` under swarm. */
  function NamespaceOf(coll: Collection, it: Record): Option<string>
  {
    if coll == Kubernetes then Get(it.metric, "namespace") else Some("Default")
  }

  /** One series of discovery seeding: the pod-level entry is created on first sight with the
      five reserved keys empty; the container entry is built anew from this series. */
  function SeedStep(coll: Collection, mode: Mode, sys: Systems, it: Record): Option<Systems>
  {
    match Get(it.metric, Name1(coll))
    case None => Some(sys)
    case Some(p) =>
      var pod := if p in sys then sys[p] else NewPod();
      match Get(it.metric, Name2(coll))
      case None => Some(sys[p := pod])
      case Some(k) =>
        var ns := NamespaceOf(coll, it);
        var memory := Pick(mode, it);
        if ns.None? || memory.None? then None
        else Some(sys[p := pod[k := Entry(NewContainer(ns.value, memory.value))]])
  }

  /** Which container a loop that writes one container field addresses. */
  datatype Address = Skip | Raise | At(p: string, k: string)

  /** The ops that write one field of one existing container. */
  predicate EntryOp(op: Op)
  {
    op.Limit? || op.TerminatedState? || op.SwarmState?
  }

  /** The lookup of the kube state loops: `i['metric']['created_by_name'] in systems`, then
      `i['metric']['container'] in systems[...]`; a missing label raises KeyError, an unknown
      name skips the series. The swarm loop instead skips a series without both labels and
      indexes the store directly, so an unknown name raises. */
  function AddressOf(op: Op, sys: Systems, it: Record): (a: Address)
    requires EntryOp(op)
    ensures a.At? ==> Has(sys, a.p, a.k)
  {
    if op.SwarmState? then
      match (Get(it.metric, Name1(Swarm)), Get(it.metric, Name2(Swarm)))
      case (Some(p), Some(k)) => if Has(sys, p, k) then At(p, k) else Raise
      case _ => Skip
    else
      match Get(it.metric, "created_by_name")
      case None => Raise
      case Some(p) =>
        if p !in sys then Skip
        else match Get(it.metric, "container")
          case None => Raise
          case Some(k) => if k in sys[p] then At(p, k) else Skip
  }

  /** The value an entry op stores: the picked sample (`i['value'][1]` for the state loop,
      which always asks an instant query); the swarm loop reads none. */
  function Reading(op: Op, it: Record): Option<string>
    requires EntryOp(op)
  {
    match op
    case Limit(mode, _) => Pick(mode, it)
    case TerminatedState => Pick(Current, it)
    case SwarmState => Some("")
  }

  /** The field an entry op writes. */
  function Update(op: Op, c: Container, v: string): Container
    requires EntryOp(op)
  {
    match op
    case Limit(_, f) =>
      (match f
       case CpuLimit => c.(cpuLimit := v)
       case CpuRequest => c.(cpuRequest := v)
       case MemLimit => c.(memLimit := v)
       case MemRequest => c.(memRequest := v))
    case TerminatedState => c.(state := Reported(v))
    case SwarmState => c.(state := Flag(0))
  }

  /** One series of an entry op: a known container gets the field; writing into reserved text
      raises TypeError. */
  function EntryStep(op: Op, sys: Systems, it: Record): Option<Systems>
    requires EntryOp(op)
  {
    match AddressOf(op, sys, it)
    case Skip => Some(sys)
    case Raise => None
    case At(p, k) =>
      match Reading(op, it)
      case None => None
      case Some(v) =>
        match sys[p][k]
        case Text(_) => None
        case Entry(c) => Some(SetEntry(sys, p, k, Update(op, c, v)))
  }

  /** One series of a replica-count loop: `i['metric'][owner]` (KeyError when missing) names a
      known pod-level entry, whose `current_size` becomes the picked sample. */
  function ReplicaStep(mode: Mode, owner: string, sys: Systems, it: Record): Option<Systems>
  {
    match Get(it.metric, owner)
    case None => None
    case Some(p) =>
      if p !in sys then Some(sys)
      else match Pick(mode, it)
        case None => None
        case Some(v) => Some(sys[p := sys[p]["current_size" := Text(v)]])
  }

  function Step(op: Op, sys: Systems, it: Record): Option<Systems>
  {
    match op
    case Seed(coll, mode) => SeedStep(coll, mode, sys, it)
    case ReplicaCount(mode, owner) => ReplicaStep(mode, owner, sys, it)
    case _ => EntryStep(op, sys, it)
  }

  /** A whole loop `for i in data2:`, series by series; None once a step raises. */
  function Run(op: Op, sys: Systems, data: seq<Record>): Option<Systems>
    decreases |data|
  {
    if data == [] then Some(sys)
    else match Step(op, sys, data[0])
      case None => None
      case Some(s) => Run(op, s, data[1..])
  }

  // ---------------------------------------------------------------------------------------
  // Every loop keeps the store well formed

  lemma SeedWellFormed(coll: Collection, mode: Mode, sys: Systems, it: Record)
    requires WellFormed(sys) && SeedStep(coll, mode, sys, it).Some?
    ensures WellFormed(SeedStep(coll, mode, sys, it).value)
  {
    var r := SeedStep(coll, mode, sys, it).value;
    forall p | p in r ensures WellFormedPod(r[p]) {
      if p in sys {
        assert WellFormedPod(sys[p]);
      }
    }
  }

  lemma EntryWellFormed(op: Op, sys: Systems, it: Record)
    requires EntryOp(op) && WellFormed(sys) && EntryStep(op, sys, it).Some?
    ensures WellFormed(EntryStep(op, sys, it).value)
  {
    var r := EntryStep(op, sys, it).value;
    forall p | p in r ensures WellFormedPod(r[p]) {
      assert WellFormedPod(sys[p]);
    }
  }

  lemma ReplicaWellFormed(mode: Mode, owner: string, sys: Systems, it: Record)
    requires WellFormed(sys) && ReplicaStep(mode, owner, sys, it).Some?
    ensures WellFormed(ReplicaStep(mode, owner, sys, it).value)
  {
    var r := ReplicaStep(mode, owner, sys, it).value;
    forall p | p in r ensures WellFormedPod(r[p]) {
      assert WellFormedPod(sys[p]);
    }
  }

  lemma StepWellFormed(op: Op, sys: Systems, it: Record)
    requires WellFormed(sys) && Step(op, sys, it).Some?
    ensures WellFormed(Step(op, sys, it).value)
  {
    match op
    case Seed(coll, mode) => SeedWellFormed(coll, mode, sys, it);
    case ReplicaCount(mode, owner) => ReplicaWellFormed(mode, owner, sys, it);
    case _ => EntryWellFormed(op, sys, it);
  }

  /** Seeding, the kube state loops and the replica loops never leave a pod-level entry
      without its reserved keys, and never put reserved text under a container's key. */
  lemma {:induction false} RunWellFormed(op: Op, sys: Systems, data: seq<Record>)
    requires WellFormed(sys) && Run(op, sys, data).Some?
    ensures WellFormed(Run(op, sys, data).value)
    decreases |data|
  {
    if data != [] {
      StepWellFormed(op, sys, data[0]);
      RunWellFormed(op, Step(op, sys, data[0]).value, data[1..]);
    }
  }

  // ---------------------------------------------------------------------------------------
  // Discovery seeding

  /** The item names container `k` of pod-level entry `p`. */
  predicate Names(coll: Collection, it: Record, p: string, k: string)
  {
    Get(it.metric, Name1(coll)) == Some(p) && Get(it.metric, Name2(coll)) == Some(k)
  }

  /** One seeding step, slot by slot: a series that names a new pod-level entry creates it
      with the reserved keys empty; the container it names is rebuilt with `state` 1 and
      `memory` the picked sample, whatever was there before; every other key keeps its slot.
      The step raises exactly when it names a container and the namespace label (Kubernetes)
      or the sample is missing. */
  lemma SeedSlot(coll: Collection, mode: Mode, sys: Systems, it: Record, p: string, k: string)
    ensures SeedStep(coll, mode, sys, it).None? <==>
              Name1(coll) in Keys(it.metric) && Name2(coll) in Keys(it.metric) &&
              (NamespaceOf(coll, it).None? || Pick(mode, it).None?)
    ensures SeedStep(coll, mode, sys, it).Some? ==>
              var r := SeedStep(coll, mode, sys, it).value;
              && (p in r <==> p in sys || Get(it.metric, Name1(coll)) == Some(p))
              && (Names(coll, it, p, k) ==>
                    Has(r, p, k) && r[p][k] == Entry(NewContainer(NamespaceOf(coll, it).value, Pick(mode, it).value)))
              && (!Names(coll, it, p, k) && p in sys ==> (k in r[p] <==> k in sys[p]) && (k in sys[p] ==> r[p][k] == sys[p][k]))
              && (!Names(coll, it, p, k) && p !in sys && p in r ==> (k in r[p] <==> PodField(k)) && (k in r[p] ==> r[p][k] == Text("")))
  {
  }

  /** A container no series names keeps its slot through the whole seeding loop. */
  lemma {:induction false} SeededKeeps(coll: Collection, mode: Mode, sys: Systems, data: seq<Record>, p: string, k: string)
    requires Run(Seed(coll, mode), sys, data).Some? && Has(sys, p, k)
    requires forall i :: 0 <= i < |data| ==> !Names(coll, data[i], p, k)
    ensures Has(Run(Seed(coll, mode), sys, data).value, p, k)
    ensures Run(Seed(coll, mode), sys, data).value[p][k] == sys[p][k]
    decreases |data|
  {
    if data != [] {
      SeedSlot(coll, mode, sys, data[0], p, k);
      var s := SeedStep(coll, mode, sys, data[0]).value;
      assert forall i :: 0 <= i < |data[1..]| ==> data[1..][i] == data[i + 1];
      SeededKeeps(coll, mode, s, data[1..], p, k);
    }
  }

  /** Discovery seeding rebuilds a container on every series that names it: after the loop it
      is the entry built from the LAST such series, with `state` 1 and `memory` that series'
      picked sample; earlier series leave no trace. */
  lemma {:induction false} SeededLastWins(coll: Collection, mode: Mode, sys: Systems, data: seq<Record>, i: int, p: string, k: string)
    requires Run(Seed(coll, mode), sys, data).Some?
    requires 0 <= i < |data| && Names(coll, data[i], p, k)
    requires forall j :: i < j < |data| ==> !Names(coll, data[j], p, k)
    ensures NamespaceOf(coll, data[i]).Some? && Pick(mode, data[i]).Some?
    ensures Has(Run(Seed(coll, mode), sys, data).value, p, k)
    ensures Run(Seed(coll, mode), sys, data).value[p][k] ==
              Entry(NewContainer(NamespaceOf(coll, data[i]).value, Pick(mode, data[i]).value))
    decreases |data|
  {
    SeedSlot(coll, mode, sys, data[0], p, k);
    var s := SeedStep(coll, mode, sys, data[0]).value;
    assert forall j :: 0 <= j < |data[1..]| ==> data[1..][j] == data[j + 1];
    if i == 0 {
      SeededKeeps(coll, mode, s, data[1..], p, k);
    } else {
      SeededLastWins(coll, mode, s, data[1..], i - 1, p, k);
    }
  }

  /** The pod-level entry is created once: a name first seen during seeding ends with its five
      reserved keys empty, however many series name it, unless a container takes that key. */
  lemma {:induction false} SeededPodFields(coll: Collection, mode: Mode, sys: Systems, data: seq<Record>, p: string, k: string)
    requires Run(Seed(coll, mode), sys, data).Some? && p !in sys && PodField(k)
    requires forall i :: 0 <= i < |data| ==> !Names(coll, data[i], p, k)
    ensures p in Run(Seed(coll, mode), sys, data).value ==>
              Has(Run(Seed(coll, mode), sys, data).value, p, k) && Run(Seed(coll, mode), sys, data).value[p][k] == Text("")
    decreases |data|
  {
    if data != [] {
      SeedSlot(coll, mode, sys, data[0], p, k);
      var s := SeedStep(coll, mode, sys, data[0]).value;
      assert forall i :: 0 <= i < |data[1..]| ==> data[1..][i] == data[i + 1];
      if p in s {
        SeededKeeps(coll, mode, s, data[1..], p, k);
      } else {
        SeededPodFields(coll, mode, s, data[1..], p, k);
      }
    }
  }

  // ---------------------------------------------------------------------------------------
  // The loops that write one container field

  /** The labels of a series name container `k` of entry `p` for an entry op: through
      `created_by_name`/`container` for the kube state loops, through the swarm names otherwise. */
  predicate Addresses(op: Op, it: Record, p: string, k: string)
  {
    if op.SwarmState? then Names(Swarm, it, p, k)
    else Get(it.metric, "created_by_name") == Some(p) && Get(it.metric, "container") == Some(k)
  }

  /** For a container of the store, an entry op addresses it exactly when the labels name it. */
  lemma AddressIff(op: Op, sys: Systems, it: Record, p: string, k: string)
    requires EntryOp(op) && Has(sys, p, k)
    ensures AddressOf(op, sys, it) == At(p, k) <==> Addresses(op, it, p, k)
  {
  }

  /** An entry op's step changes only the addressed container, and only by its one field. */
  lemma EntrySlot(op: Op, sys: Systems, it: Record, p: string, k: string)
    requires EntryOp(op) && EntryStep(op, sys, it).Some? && Has(sys, p, k)
    ensures Addresses(op, it, p, k) ==> sys[p][k].Entry? && Reading(op, it).Some?
    ensures Has(EntryStep(op, sys, it).value, p, k)
    ensures EntryStep(op, sys, it).value[p][k] ==
              if Addresses(op, it, p, k) then Entry(Update(op, sys[p][k].c, Reading(op, it).value)) else sys[p][k]
  {
    AddressIff(op, sys, it, p, k);
  }

  /** In a well-formed store a known pair raises only when its series lacks the sample or the
      container label names a reserved pod key. */
  lemma KnownPairWrites(op: Op, sys: Systems, it: Record)
    requires EntryOp(op) && WellFormed(sys)
    requires AddressOf(op, sys, it).At? && !PodField(AddressOf(op, sys, it).k) && Reading(op, it).Some?
    ensures EntryStep(op, sys, it).Some?
  {
    WellFormedEntry(sys, AddressOf(op, sys, it).p, AddressOf(op, sys, it).k);
  }

  lemma EntryStepShape(op: Op, sys: Systems, it: Record)
    requires EntryOp(op) && EntryStep(op, sys, it).Some?
    ensures SameShape(sys, EntryStep(op, sys, it).value)
  {
  }

  /** The kube state loops and the swarm loop create and remove nothing. */
  lemma {:induction false} EntryRunShape(op: Op, sys: Systems, data: seq<Record>)
    requires EntryOp(op) && Run(op, sys, data).Some?
    ensures SameShape(sys, Run(op, sys, data).value)
    decreases |data|
  {
    if data != [] {
      EntryStepShape(op, sys, data[0]);
      EntryRunShape(op, EntryStep(op, sys, data[0]).value, data[1..]);
    }
  }

  /** A container no series addresses keeps its slot through an entry op's loop. */
  lemma {:induction false} EntryKeeps(op: Op, sys: Systems, data: seq<Record>, p: string, k: string)
    requires EntryOp(op) && Run(op, sys, data).Some? && Has(sys, p, k)
    requires forall i :: 0 <= i < |data| ==> !Addresses(op, data[i], p, k)
    ensures Has(Run(op, sys, data).value, p, k) && Run(op, sys, data).value[p][k] == sys[p][k]
    decreases |data|
  {
    if data != [] {
      EntrySlot(op, sys, data[0], p, k);
      assert forall i :: 0 <= i < |data[1..]| ==> data[1..][i] == data[i + 1];
      EntryKeeps(op, EntryStep(op, sys, data[0]).value, data[1..], p, k);
    }
  }

  /** `getkubestatemetrics`, the kube state loop and the swarm loop write only containers of a
      known (name, container) pair, and the field ends holding the value of the LAST series
      that names the container; every other field of it is the one it had before. */
  lemma {:induction false} EntryLastWins(op: Op, sys: Systems, data: seq<Record>, i: int, p: string, k: string)
    requires EntryOp(op) && Run(op, sys, data).Some? && Has(sys, p, k)
    requires 0 <= i < |data| && Addresses(op, data[i], p, k)
    requires forall j :: i < j < |data| ==> !Addresses(op, data[j], p, k)
    ensures sys[p][k].Entry? && Reading(op, data[i]).Some?
    ensures Has(Run(op, sys, data).value, p, k)
    ensures Run(op, sys, data).value[p][k] == Entry(Update(op, sys[p][k].c, Reading(op, data[i]).value))
    decreases |data|
  {
    EntrySlot(op, sys, data[0], p, k);
    var s := EntryStep(op, sys, data[0]).value;
    assert forall j :: 0 <= j < |data[1..]| ==> data[1..][j] == data[j + 1];
    if i == 0 {
      EntryKeeps(op, s, data[1..], p, k);
    } else {
      EntryLastWins(op, s, data[1..], i - 1, p, k);
      if Addresses(op, data[0], p, k) {
        UpdateOverwrites(op, sys[p][k].c, Reading(op, data[0]).value, Reading(op, data[i]).value);
      }
    }
  }

  /** A later write of an entry op's field replaces an earlier one. */
  lemma UpdateOverwrites(op: Op, c: Container, v1: string, v2: string)
    requires EntryOp(op)
    ensures Update(op, Update(op, c, v1), v2) == Update(op, c, v2)
  {
  }

  // ---------------------------------------------------------------------------------------
  // The replica-count loops

  /** A replica-count step changes at most `current_size` of the named entry. */
  lemma ReplicaSlot(mode: Mode, owner: string, sys: Systems, it: Record, p: string, k: string)
    requires ReplicaStep(mode, owner, sys, it).Some?
    ensures ReplicaStep(mode, owner, sys, it).value.Keys == sys.Keys
    ensures p in sys && k != "current_size" ==>
              var r := ReplicaStep(mode, owner, sys, it).value;
              (k in r[p] <==> k in sys[p]) && (k in sys[p] ==> r[p][k] == sys[p][k])
    ensures p in sys && Get(it.metric, owner) == Some(p) ==>
              Pick(mode, it).Some? && ReplicaStep(mode, owner, sys, it).value[p]["current_size"] == Text(Pick(mode, it).value)
    ensures p in sys && Get(it.metric, owner) != Some(p) ==>
              ReplicaStep(mode, owner, sys, it).value[p] == sys[p]
  {
  }

  /** The replica-count loops add no pod-level entry, and touch no key but `current_size`. */
  lemma {:induction false} ReplicaFrame(mode: Mode, owner: string, sys: Systems, data: seq<Record>, p: string, k: string)
    requires Run(ReplicaCount(mode, owner), sys, data).Some?
    ensures Run(ReplicaCount(mode, owner), sys, data).value.Keys == sys.Keys
    ensures p in sys && k != "current_size" ==>
              var r := Run(ReplicaCount(mode, owner), sys, data).value;
              (k in r[p] <==> k in sys[p]) && (k in sys[p] ==> r[p][k] == sys[p][k])
    decreases |data|
  {
    if data != [] {
      ReplicaSlot(mode, owner, sys, data[0], p, k);
      ReplicaFrame(mode, owner, ReplicaStep(mode, owner, sys, data[0]).value, data[1..], p, k);
    }
  }

  /** A pod-level entry that no series names keeps all of its keys. */
  lemma {:induction false} ReplicaKeeps(mode: Mode, owner: string, sys: Systems, data: seq<Record>, p: string)
    requires Run(ReplicaCount(mode, owner), sys, data).Some? && p in sys
    requires forall i :: 0 <= i < |data| ==> Get(data[i].metric, owner) != Some(p)
    ensures p in Run(ReplicaCount(mode, owner), sys, data).value
    ensures Run(ReplicaCount(mode, owner), sys, data).value[p] == sys[p]
    decreases |data|
  {
    if data != [] {
      ReplicaSlot(mode, owner, sys, data[0], p, "");
      assert forall i :: 0 <= i < |data[1..]| ==> data[1..][i] == data[i + 1];
      ReplicaKeeps(mode, owner, ReplicaStep(mode, owner, sys, data[0]).value, data[1..], p);
    }
  }

  /** `current_size` ends holding the picked sample of the LAST series naming the entry. */
  lemma {:induction false} ReplicaLastWins(mode: Mode, owner: string, sys: Systems, data: seq<Record>, i: int, p: string)
    requires Run(ReplicaCount(mode, owner), sys, data).Some? && p in sys
    requires 0 <= i < |data| && Get(data[i].metric, owner) == Some(p)
    requires forall j :: i < j < |data| ==> Get(data[j].metric, owner) != Some(p)
    ensures Pick(mode, data[i]).Some?
    ensures Has(Run(ReplicaCount(mode, owner), sys, data).value, p, "current_size")
    ensures Run(ReplicaCount(mode, owner), sys, data).value[p]["current_size"] == Text(Pick(mode, data[i]).value)
    decreases |data|
  {
    ReplicaSlot(mode, owner, sys, data[0], p, "");
    var s := ReplicaStep(mode, owner, sys, data[0]).value;
    assert forall j :: 0 <= j < |data[1..]| ==> data[1..][j] == data[j + 1];
    if i == 0 {
      ReplicaKeeps(mode, owner, s, data[1..], p);
    } else {
      ReplicaLastWins(mode, owner, s, data[1..], i - 1, p);
    }
  }
}
