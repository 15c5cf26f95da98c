/** The node-level driver `Metrics` (internal/node/node.go): discovery of the nodes with `-1`
    sentinels, the label, network-speed, capacity and allocatable ingestion with its fallback
    to the older per-resource queries, the config and attribute output, and the Node Exporter
    gate in front of the workload collection. */
module NodeMetrics {
  import opened Labels
  import opened Rendering
  import opened NodeCollection
  import opened NodeIngest

  /** The attribute queries of `Metrics`, by purpose. */
  datatype NodeQueryKind =
    | NodeInfo | NodeLabelSet | NetworkSpeed
    | Capacity | CapacityCpu | CapacityMem | CapacityPods
    | Allocatable | AllocatableCpu | AllocatableMem | AllocatablePods

  /** What `Metrics` does, in order: the attribute queries it issues, the config and
      attribute output, the missing-Node-Exporter message, and the workload collections (each
      a discarded query followed by a `getWorkload` call, named by file and aggregator). */
  datatype MetricsEvent =
    | Issue(q: NodeQueryKind)
    | WriteConfig
    | WriteAttributes
    | NoNodeExporterLogged
    | Workload(file: string, aggregator: string)

  /** The node discovery creates from one series of `max(kube_node_labels)`: its identity and
      label fields from the series (empty when absent), an empty `nodeLabel`, every numeric
      field the record declares at the sentinel -1, and the four request/limit fields the
      record does not declare at Go's zero value. */
  function Seed(labels: LabelSet): Node
  {
    Node(node := GetOr(labels, "node"), nodeLabel := "",
         arch := GetOr(labels, "label_beta_kubernetes_io_arch"), os := GetOr(labels, "label_beta_kubernetes_io_os"),
         hostname := GetOr(labels, "label_kubernetes_io_hostname"),
         netSpeedBytes := -1,
         cpuCapacity := -1, memCapacity := -1, ephemeralStorageCapacity := -1, podsCapacity := -1, hugepages2MiCapacity := -1,
         cpuAllocatable := -1, memAllocatable := -1, ephemeralStorageAllocatable := -1, podsAllocatable := -1,
         hugepages2MiAllocatable := -1,
         cpuLimit := 0, cpuRequest := 0, memLimit := 0, memRequest := 0)
  }

  /** The eleven fields discovery seeds with -1. */
  const SentinelFields: set<NodeField> := {
    NetSpeedBytes, CpuCapacity, MemCapacity, EphemeralStorageCapacity, PodsCapacity, Hugepages2MiCapacity,
    CpuAllocatable, MemAllocatable, EphemeralStorageAllocatable, PodsAllocatable, Hugepages2MiAllocatable}

  /** A seeded node: every sentinel field reads -1, every other numeric field 0, the label is
      empty and the identity is the series' `node` label. */
  lemma SeedFields(labels: LabelSet, f: NodeField)
    ensures NodeFieldValue(Seed(labels), f) == if f in SentinelFields then -1 else 0
    ensures Seed(labels).nodeLabel == "" && Seed(labels).node == GetOr(labels, "node")
  {
  }

  /** The discovery loop over the first series of a result: `nodes[node] = &node{...}`. */
  function Discovered(nodes: Nodes, result: seq<Series>): Nodes
    decreases |result|
  {
    if result == [] then nodes
    else
      var s := result[|result| - 1];
      Discovered(nodes, result[..|result| - 1])[GetOr(s.labels, "node") := Seed(s.labels)]
  }

  /** The labels of the last series whose `node` label is `n`, if any. */
  function LastSeed(result: seq<Series>, n: string): Option<LabelSet>
    decreases |result|
  {
    if result == [] then None
    else if GetOr(result[|result| - 1].labels, "node") == n then Some(result[|result| - 1].labels)
    else LastSeed(result[..|result| - 1], n)
  }

  /** There is a last series with label `n` iff some series has that `node` label. */
  lemma {:induction false} LastSeedNone(result: seq<Series>, n: string)
    ensures LastSeed(result, n).None? <==> forall i :: 0 <= i < |result| ==> GetOr(result[i].labels, "node") != n
    decreases |result|
  {
    if result != [] {
      var front := result[..|result| - 1];
      LastSeedNone(front, n);
      assert forall i :: 0 <= i < |front| ==> result[i] == front[i];
    }
  }

  /** `LastSeed` is the last series with that `node` label: a series carrying `n` that no
      later series carries is the one it returns. */
  lemma {:induction false} LastSeedIsLast(result: seq<Series>, n: string, i: int)
    requires 0 <= i < |result| && GetOr(result[i].labels, "node") == n
    requires forall j :: i < j < |result| ==> GetOr(result[j].labels, "node") != n
    ensures LastSeed(result, n) == Some(result[i].labels)
    decreases |result|
  {
    var front := result[..|result| - 1];
    if i < |result| - 1 {
      assert front[i] == result[i];
      assert forall j :: i < j < |front| ==> front[j] == result[j];
      LastSeedIsLast(front, n, i);
    }
  }

  /** Discovery creates exactly one node per distinct `node` label, keeps every node it
      already had, and each created node is seeded from the last series carrying its label:
      a repeated label replaces the earlier record. */
  lemma {:induction false} DiscoveredAt(nodes: Nodes, result: seq<Series>, n: string)
    ensures n in Discovered(nodes, result) <==> n in nodes || LastSeed(result, n).Some?
    ensures LastSeed(result, n).Some? ==> Discovered(nodes, result)[n] == Seed(LastSeed(result, n).value)
    ensures LastSeed(result, n).None? && n in nodes ==> Discovered(nodes, result)[n] == nodes[n]
    decreases |result|
  {
    if result != [] {
      DiscoveredAt(nodes, result[..|result| - 1], n);
    }
  }

  /** The capacity step: the combined `kube_node_status_capacity` result when it has series,
      otherwise the older cpu, memory and pods queries one after the other. */
  function CapacityStage(nodes: Nodes, backend: NodeQueryKind -> seq<Series>): Nodes
  {
    if |backend(Capacity)| == 0 then
      NodeMetric(NodeMetric(NodeMetric(nodes, "node", "capacity_cpu", backend(CapacityCpu)),
                            "node", "capacity_mem", backend(CapacityMem)),
                 "node", "capacity_pod", backend(CapacityPods))
    else NodeMetric(nodes, "node", "capacity", backend(Capacity))
  }

  /** The allocatable step, with the same fallback. */
  function AllocatableStage(nodes: Nodes, backend: NodeQueryKind -> seq<Series>): Nodes
  {
    if |backend(Allocatable)| == 0 then
      NodeMetric(NodeMetric(NodeMetric(nodes, "node", "allocatable_cpu", backend(AllocatableCpu)),
                            "node", "allocatable_mem", backend(AllocatableMem)),
                 "node", "allocatable_pod", backend(AllocatablePods))
    else NodeMetric(nodes, "node", "allocatable", backend(Allocatable))
  }

  /** The store after the attribute phase of `Metrics`, for the results `backend` returns. */
  function Ingested(nodes: Nodes, backend: NodeQueryKind -> seq<Series>): Nodes
  {
    var discovered := Discovered(nodes, backend(NodeInfo));
    var labelled := NodeLabels(discovered, "node", "nodeLabel", backend(NodeLabelSet));
    var withSpeed := NodeMetric(labelled, "node", "netSpeedBytes", backend(NetworkSpeed));
    AllocatableStage(CapacityStage(withSpeed, backend), backend)
  }

  /** The capacity queries: the older per-resource ones only when the combined one came back
      empty. */
  function CapacityQueries(backend: NodeQueryKind -> seq<Series>): seq<MetricsEvent>
  {
    [Issue(Capacity)] + if |backend(Capacity)| == 0 then [Issue(CapacityCpu), Issue(CapacityMem), Issue(CapacityPods)] else []
  }

  function AllocatableQueries(backend: NodeQueryKind -> seq<Series>): seq<MetricsEvent>
  {
    [Issue(Allocatable)] + if |backend(Allocatable)| == 0 then [Issue(AllocatableCpu), Issue(AllocatableMem), Issue(AllocatablePods)] else []
  }

  /** Every attribute query `Metrics` issues, in order. */
  function AttributeQueries(backend: NodeQueryKind -> seq<Series>): seq<MetricsEvent>
  {
    [Issue(NodeInfo), Issue(NodeLabelSet), Issue(NetworkSpeed)] + CapacityQueries(backend) + AllocatableQueries(backend)
  }

  /** The thirteen workload files, in the order `Metrics` collects them. */
  const WorkloadFiles: seq<string> := [
    "disk_write_bytes", "disk_read_bytes", "disk_read_ops", "disk_write_ops",
    "memory_total_bytes", "memory_active_bytes", "memory_raw_bytes", "memory_actual_workload",
    "net_received_bytes", "net_received_packets", "net_sent_bytes", "net_sent_packets",
    "cpu_utilization"]

  /** The workload collections for `files`: each file with `max`, then with `avg`. */
  function WorkloadCalls(files: seq<string>): seq<MetricsEvent>
    decreases |files|
  {
    if files == [] then []
    else WorkloadCalls(files[..|files| - 1]) + [Workload(files[|files| - 1], "max"), Workload(files[|files| - 1], "avg")]
  }

  /** Every workload file is collected twice in a row, first with `max` and then with `avg`,
      in the order of the list, and nothing else is collected. */
  lemma {:induction false} WorkloadCallsAt(files: seq<string>, i: int)
    requires 0 <= i < |files|
    ensures |WorkloadCalls(files)| == 2 * |files|
    ensures WorkloadCalls(files)[2 * i] == Workload(files[i], "max")
    ensures WorkloadCalls(files)[2 * i + 1] == Workload(files[i], "avg")
    decreases |files|
  {
    var front := files[..|files| - 1];
    WorkloadCallsLength(front);
    if i < |front| {
      WorkloadCallsAt(front, i);
    }
  }

  lemma {:induction false} WorkloadCallsLength(files: seq<string>)
    ensures |WorkloadCalls(files)| == 2 * |files|
    decreases |files|
  {
    if files != [] {
      WorkloadCallsLength(files[..|files| - 1]);
    }
  }

  /** Each event of a workload list is a workload collection. */
  lemma WorkloadCallsOnly(files: seq<string>, k: int)
    requires 0 <= k < |WorkloadCalls(files)|
    ensures WorkloadCalls(files)[k].Workload?
  {
    WorkloadCallsLength(files);
    WorkloadCallsAt(files, k / 2);
  }

  /** The whole run of `Metrics`: the attribute queries, the config and attribute output, and
      then either the 26 workload collections or, without Node Exporter, the message alone. */
  function MetricsTrace(backend: NodeQueryKind -> seq<Series>, files: seq<string>): seq<MetricsEvent>
  {
    AttributeQueries(backend) + [WriteConfig, WriteAttributes]
    + if |backend(NetworkSpeed)| > 0 then WorkloadCalls(files) else [NoNodeExporterLogged]
  }

  /** The discovery loop of `Metrics`. */
  method DiscoverNodes(store: NodeStore, result: seq<Series>)
    modifies store
    ensures store.nodes == Discovered(old(store.nodes), result)
  {
    for i := 0 to |result|
      invariant store.nodes == Discovered(old(store.nodes), result[..i])
    {
      assert result[..i + 1][..i] == result[..i];
      var labels := result[i].labels;
      store.nodes := store.nodes[GetOr(labels, "node") := Seed(labels)];
    }
    assert result[..|result|] == result;
  }

  /** The capacity block of `Metrics`. */
  method CollectCapacity(store: NodeStore, backend: NodeQueryKind -> seq<Series>) returns (events: seq<MetricsEvent>)
    modifies store
    ensures store.nodes == CapacityStage(old(store.nodes), backend)
    ensures events == CapacityQueries(backend)
  {
    events := [Issue(Capacity)];
    var result := backend(Capacity);
    if |result| == 0 {
      events := events + [Issue(CapacityCpu)];
      store.GetNodeMetric(backend(CapacityCpu), "node", "capacity_cpu");
      events := events + [Issue(CapacityMem)];
      store.GetNodeMetric(backend(CapacityMem), "node", "capacity_mem");
      events := events + [Issue(CapacityPods)];
      store.GetNodeMetric(backend(CapacityPods), "node", "capacity_pod");
    } else {
      store.GetNodeMetric(result, "node", "capacity");
    }
  }

  /** The allocatable block of `Metrics`. */
  method CollectAllocatable(store: NodeStore, backend: NodeQueryKind -> seq<Series>) returns (events: seq<MetricsEvent>)
    modifies store
    ensures store.nodes == AllocatableStage(old(store.nodes), backend)
    ensures events == AllocatableQueries(backend)
  {
    events := [Issue(Allocatable)];
    var result := backend(Allocatable);
    if |result| == 0 {
      events := events + [Issue(AllocatableCpu)];
      store.GetNodeMetric(backend(AllocatableCpu), "node", "allocatable_cpu");
      events := events + [Issue(AllocatableMem)];
      store.GetNodeMetric(backend(AllocatableMem), "node", "allocatable_mem");
      events := events + [Issue(AllocatablePods)];
      store.GetNodeMetric(backend(AllocatablePods), "node", "allocatable_pod");
    } else {
      store.GetNodeMetric(result, "node", "allocatable");
    }
  }

  /** `Metrics(...)`: each query's result is what `backend` returns for it. */
  method Metrics(store: NodeStore, backend: NodeQueryKind -> seq<Series>) returns (trace: seq<MetricsEvent>)
    modifies store
    ensures store.nodes == Ingested(old(store.nodes), backend)
    ensures trace == MetricsTrace(backend, WorkloadFiles)
  {
    var haveNodeExport := true;
    DiscoverNodes(store, backend(NodeInfo));
    store.GetNodeMetricString(backend(NodeLabelSet), "node", "nodeLabel");
    var result := backend(NetworkSpeed);
    store.GetNodeMetric(result, "node", "netSpeedBytes");
    if |result| == 0 {
      haveNodeExport := false;
    }
    var capacity := CollectCapacity(store, backend);
    var allocatable := CollectAllocatable(store, backend);
    trace := [Issue(NodeInfo), Issue(NodeLabelSet), Issue(NetworkSpeed)] + capacity + allocatable;
    trace := trace + [WriteConfig, WriteAttributes];
    if !haveNodeExport {
      trace := trace + [NoNodeExporterLogged];
      return;
    }
    trace := trace + WorkloadCalls(WorkloadFiles);
  }

  // ---------------------------------------------------------------------------------------
  // Properties of a run

  /** After discovery no stage of the attribute phase creates or removes a node. */
  lemma IngestedKeys(nodes: Nodes, backend: NodeQueryKind -> seq<Series>)
    ensures Ingested(nodes, backend).Keys == Discovered(nodes, backend(NodeInfo)).Keys
  {
    var d := Discovered(nodes, backend(NodeInfo));
    var l := NodeLabels(d, "node", "nodeLabel", backend(NodeLabelSet));
    var w := NodeMetric(l, "node", "netSpeedBytes", backend(NetworkSpeed));
    NodeMetricKeys(l, "node", "netSpeedBytes", backend(NetworkSpeed));
    var c := CapacityStage(w, backend);
    if |backend(Capacity)| == 0 {
      var a := NodeMetric(w, "node", "capacity_cpu", backend(CapacityCpu));
      NodeMetricKeys(w, "node", "capacity_cpu", backend(CapacityCpu));
      var b := NodeMetric(a, "node", "capacity_mem", backend(CapacityMem));
      NodeMetricKeys(a, "node", "capacity_mem", backend(CapacityMem));
      NodeMetricKeys(b, "node", "capacity_pod", backend(CapacityPods));
    } else {
      NodeMetricKeys(w, "node", "capacity", backend(Capacity));
    }
    if |backend(Allocatable)| == 0 {
      var a := NodeMetric(c, "node", "allocatable_cpu", backend(AllocatableCpu));
      NodeMetricKeys(c, "node", "allocatable_cpu", backend(AllocatableCpu));
      var b := NodeMetric(a, "node", "allocatable_mem", backend(AllocatableMem));
      NodeMetricKeys(a, "node", "allocatable_mem", backend(AllocatableMem));
      NodeMetricKeys(b, "node", "allocatable_pod", backend(AllocatablePods));
    } else {
      NodeMetricKeys(c, "node", "allocatable", backend(Allocatable));
    }
  }

  /** The only queries of a run are its attribute queries. */
  lemma IssuedAreAttributeQueries(backend: NodeQueryKind -> seq<Series>, files: seq<string>, q: NodeQueryKind)
    ensures Issue(q) in MetricsTrace(backend, files) <==> Issue(q) in AttributeQueries(backend)
  {
    var tail := if |backend(NetworkSpeed)| > 0 then WorkloadCalls(files) else [NoNodeExporterLogged];
    forall k | 0 <= k < |tail| ensures tail[k] != Issue(q) {
      if |backend(NetworkSpeed)| > 0 {
        WorkloadCallsOnly(files, k);
      }
    }
    assert MetricsTrace(backend, files) == AttributeQueries(backend) + ([WriteConfig, WriteAttributes] + tail);
  }

  /** The older per-resource capacity queries are issued iff the combined query returned no
      series. */
  lemma CapacityFallbackIssuedIff(backend: NodeQueryKind -> seq<Series>, files: seq<string>)
    ensures Issue(CapacityCpu) in MetricsTrace(backend, files) <==> |backend(Capacity)| == 0
    ensures Issue(CapacityMem) in MetricsTrace(backend, files) <==> |backend(Capacity)| == 0
    ensures Issue(CapacityPods) in MetricsTrace(backend, files) <==> |backend(Capacity)| == 0
  {
    IssuedAreAttributeQueries(backend, files, CapacityCpu);
    IssuedAreAttributeQueries(backend, files, CapacityMem);
    IssuedAreAttributeQueries(backend, files, CapacityPods);
    CapacityQueriesIssued(backend, CapacityCpu);
    CapacityQueriesIssued(backend, CapacityMem);
    CapacityQueriesIssued(backend, CapacityPods);
  }

  /** An older per-resource capacity query is among the attribute queries iff the combined
      one returned no series. */
  lemma CapacityQueriesIssued(backend: NodeQueryKind -> seq<Series>, q: NodeQueryKind)
    requires q.CapacityCpu? || q.CapacityMem? || q.CapacityPods?
    ensures Issue(q) in AttributeQueries(backend) <==> |backend(Capacity)| == 0
  {
    var head := [Issue(NodeInfo), Issue(NodeLabelSet), Issue(NetworkSpeed)];
    assert AttributeQueries(backend) == head + CapacityQueries(backend) + AllocatableQueries(backend);
    assert Issue(q) !in head && Issue(q) !in AllocatableQueries(backend);
  }

  /** The same for allocatable. */
  lemma AllocatableFallbackIssuedIff(backend: NodeQueryKind -> seq<Series>, files: seq<string>)
    ensures Issue(AllocatableCpu) in MetricsTrace(backend, files) <==> |backend(Allocatable)| == 0
    ensures Issue(AllocatableMem) in MetricsTrace(backend, files) <==> |backend(Allocatable)| == 0
    ensures Issue(AllocatablePods) in MetricsTrace(backend, files) <==> |backend(Allocatable)| == 0
  {
    IssuedAreAttributeQueries(backend, files, AllocatableCpu);
    IssuedAreAttributeQueries(backend, files, AllocatableMem);
    IssuedAreAttributeQueries(backend, files, AllocatablePods);
    AllocatableQueriesIssued(backend, AllocatableCpu);
    AllocatableQueriesIssued(backend, AllocatableMem);
    AllocatableQueriesIssued(backend, AllocatablePods);
  }

  /** The same for allocatable. */
  lemma AllocatableQueriesIssued(backend: NodeQueryKind -> seq<Series>, q: NodeQueryKind)
    requires q.AllocatableCpu? || q.AllocatableMem? || q.AllocatablePods?
    ensures Issue(q) in AttributeQueries(backend) <==> |backend(Allocatable)| == 0
  {
    var head := [Issue(NodeInfo), Issue(NodeLabelSet), Issue(NetworkSpeed)] + CapacityQueries(backend);
    assert AttributeQueries(backend) == head + AllocatableQueries(backend);
    assert Issue(q) !in head;
  }

  /** When the combined capacity and allocatable queries returned series, the results of the
      older per-resource queries have no effect on the store. */
  lemma FallbackIgnored(nodes: Nodes, backend: NodeQueryKind -> seq<Series>, other: NodeQueryKind -> seq<Series>)
    requires forall q :: Primary(q) ==> backend(q) == other(q)
    requires |backend(Capacity)| > 0 && |backend(Allocatable)| > 0
    ensures Ingested(nodes, backend) == Ingested(nodes, other)
  {
    assert backend(NodeInfo) == other(NodeInfo);
    assert backend(NodeLabelSet) == other(NodeLabelSet);
    assert backend(NetworkSpeed) == other(NetworkSpeed);
    assert backend(Capacity) == other(Capacity);
    assert backend(Allocatable) == other(Allocatable);
  }

  /** The queries that are not the older per-resource fallbacks. */
  predicate Primary(q: NodeQueryKind)
  {
    q.NodeInfo? || q.NodeLabelSet? || q.NetworkSpeed? || q.Capacity? || q.Allocatable?
  }

  /** The fields only the combined capacity query can write. */
  predicate CapacityOnly(g: NodeField)
  {
    g == EphemeralStorageCapacity || g == Hugepages2MiCapacity
  }

  /** The fields only the combined allocatable query can write. */
  predicate AllocatableOnly(g: NodeField)
  {
    g == EphemeralStorageAllocatable || g == Hugepages2MiAllocatable
  }

  /** A field only the combined query can write keeps a discovered node's sentinel through
      the whole attribute phase when the combined query came back empty. */
  lemma SentinelSurvives(nodes: Nodes, backend: NodeQueryKind -> seq<Series>, n: string, g: NodeField)
    requires LastSeed(backend(NodeInfo), n).Some?
    requires (CapacityOnly(g) && |backend(Capacity)| == 0) || (AllocatableOnly(g) && |backend(Allocatable)| == 0)
    ensures n in Ingested(nodes, backend)
    ensures NodeFieldValue(Ingested(nodes, backend)[n], g) == -1
  {
    var w := NodeMetric(NodeLabels(Discovered(nodes, backend(NodeInfo)), "node", "nodeLabel", backend(NodeLabelSet)),
                        "node", "netSpeedBytes", backend(NetworkSpeed));
    SentinelBeforeCapacity(nodes, backend, n, g);
    var c := CapacityStage(w, backend);
    CapacityStageKeeps(w, backend, n, g);
    AllocatableStageKeeps(c, backend, n, g);
  }

  /** Up to the capacity step, a discovered node keeps the sentinel in such a field: the label
      aggregator writes only `nodeLabel` and the network-speed binder only `netSpeedBytes`. */
  lemma SentinelBeforeCapacity(nodes: Nodes, backend: NodeQueryKind -> seq<Series>, n: string, g: NodeField)
    requires LastSeed(backend(NodeInfo), n).Some? && (CapacityOnly(g) || AllocatableOnly(g))
    ensures var w := NodeMetric(NodeLabels(Discovered(nodes, backend(NodeInfo)), "node", "nodeLabel", backend(NodeLabelSet)),
                                "node", "netSpeedBytes", backend(NetworkSpeed));
            n in w && NodeFieldValue(w[n], g) == -1
  {
    var d := Discovered(nodes, backend(NodeInfo));
    DiscoveredSentinel(nodes, backend(NodeInfo), n, g);
    var l := NodeLabels(d, "node", "nodeLabel", backend(NodeLabelSet));
    LabelsKeepField(d, backend(NodeLabelSet), n, g);
    NeverSelects(l, "netSpeedBytes", backend(NetworkSpeed), n, g);
  }

  /** A node discovered in this run holds the sentinel in every field discovery seeds with -1. */
  lemma DiscoveredSentinel(nodes: Nodes, result: seq<Series>, n: string, g: NodeField)
    requires LastSeed(result, n).Some? && g in SentinelFields
    ensures n in Discovered(nodes, result) && NodeFieldValue(Discovered(nodes, result)[n], g) == -1
  {
    DiscoveredAt(nodes, result, n);
    SeedFields(LastSeed(result, n).value, g);
  }

  /** The label aggregator of `Metrics` writes no numeric field. */
  lemma LabelsKeepField(nodes: Nodes, result: seq<Series>, n: string, g: NodeField)
    requires n in nodes
    ensures n in NodeLabels(nodes, "node", "nodeLabel", result)
    ensures NodeFieldValue(NodeLabels(nodes, "node", "nodeLabel", result)[n], g) == NodeFieldValue(nodes[n], g)
  {
    NodeLabelsAt(nodes, "node", "nodeLabel", result, n);
  }

  /** A binder under a flat metric name never writes a field only the combined queries
      write. */
  lemma NeverSelects(nodes: Nodes, metric: string, result: seq<Series>, n: string, g: NodeField)
    requires n in nodes && metric != "capacity" && metric != "allocatable"
    requires CapacityOnly(g) || AllocatableOnly(g)
    ensures n in NodeMetric(nodes, "node", metric, result)
    ensures NodeFieldValue(NodeMetric(nodes, "node", metric, result)[n], g) == NodeFieldValue(nodes[n], g)
  {
    NodeMetricUntouched(nodes, "node", metric, result, n, g);
  }

  /** The capacity step keeps such a field when it falls back, and never touches the
      allocatable-only fields. */
  lemma CapacityStageKeeps(nodes: Nodes, backend: NodeQueryKind -> seq<Series>, n: string, g: NodeField)
    requires n in nodes && (CapacityOnly(g) || AllocatableOnly(g))
    ensures n in CapacityStage(nodes, backend)
    ensures |backend(Capacity)| == 0 || AllocatableOnly(g) ==>
              NodeFieldValue(CapacityStage(nodes, backend)[n], g) == NodeFieldValue(nodes[n], g)
  {
    if |backend(Capacity)| == 0 {
      var a := NodeMetric(nodes, "node", "capacity_cpu", backend(CapacityCpu));
      NeverSelects(nodes, "capacity_cpu", backend(CapacityCpu), n, g);
      var b := NodeMetric(a, "node", "capacity_mem", backend(CapacityMem));
      NeverSelects(a, "capacity_mem", backend(CapacityMem), n, g);
      NeverSelects(b, "capacity_pod", backend(CapacityPods), n, g);
    } else {
      NodeMetricKeys(nodes, "node", "capacity", backend(Capacity));
      if AllocatableOnly(g) {
        NodeMetricUntouched(nodes, "node", "capacity", backend(Capacity), n, g);
      }
    }
  }

  /** The allocatable step keeps such a field when it falls back, and never touches the
      capacity-only fields. */
  lemma AllocatableStageKeeps(nodes: Nodes, backend: NodeQueryKind -> seq<Series>, n: string, g: NodeField)
    requires n in nodes && (CapacityOnly(g) || AllocatableOnly(g))
    ensures n in AllocatableStage(nodes, backend)
    ensures |backend(Allocatable)| == 0 || CapacityOnly(g) ==>
              NodeFieldValue(AllocatableStage(nodes, backend)[n], g) == NodeFieldValue(nodes[n], g)
  {
    if |backend(Allocatable)| == 0 {
      var a := NodeMetric(nodes, "node", "allocatable_cpu", backend(AllocatableCpu));
      NeverSelects(nodes, "allocatable_cpu", backend(AllocatableCpu), n, g);
      var b := NodeMetric(a, "node", "allocatable_mem", backend(AllocatableMem));
      NeverSelects(a, "allocatable_mem", backend(AllocatableMem), n, g);
      NeverSelects(b, "allocatable_pod", backend(AllocatablePods), n, g);
    } else {
      NodeMetricKeys(nodes, "node", "allocatable", backend(Allocatable));
      if CapacityOnly(g) {
        NodeMetricUntouched(nodes, "node", "allocatable", backend(Allocatable), n, g);
      }
    }
  }

  /** Node Exporter is taken to be present iff the network-speed query returned a series:
      the workloads are collected iff it is, and otherwise the run ends with the message. */
  lemma WorkloadsIffNodeExporter(backend: NodeQueryKind -> seq<Series>, files: seq<string>)
    requires files != []
    ensures (exists i :: 0 <= i < |MetricsTrace(backend, files)| && MetricsTrace(backend, files)[i].Workload?) <==> |backend(NetworkSpeed)| > 0
    ensures |backend(NetworkSpeed)| == 0 ==> MetricsTrace(backend, files)[|MetricsTrace(backend, files)| - 1] == NoNodeExporterLogged
  {
    var t := MetricsTrace(backend, files);
    var a := AttributeQueries(backend);
    assert forall i :: 0 <= i < |a| ==> t[i] == a[i] && a[i].Issue?;
    if |backend(NetworkSpeed)| > 0 {
      WorkloadCallsAt(files, 0);
      assert t[|a| + 2] == WorkloadCalls(files)[0];
    } else {
      assert forall i :: 0 <= i < |t| ==> !t[i].Workload?;
    }
  }

  /** The config and attribute files are written after every attribute query and before any
      workload collection, whether or not Node Exporter is present. */
  lemma OutputBetweenIngestionAndWorkloads(backend: NodeQueryKind -> seq<Series>, files: seq<string>)
    ensures var t := MetricsTrace(backend, files);
            var c := |AttributeQueries(backend)|;
            && c + 2 <= |t| && t[c] == WriteConfig && t[c + 1] == WriteAttributes
            && (forall i :: 0 <= i < c ==> t[i].Issue?)
            && (forall i :: c + 2 <= i < |t| ==> !t[i].Issue? && t[i] != WriteConfig && t[i] != WriteAttributes)
  {
    var t := MetricsTrace(backend, files);
    var a := AttributeQueries(backend);
    assert forall i :: 0 <= i < |a| ==> t[i] == a[i] && a[i].Issue?;
    if |backend(NetworkSpeed)| > 0 {
      var w := WorkloadCalls(files);
      WorkloadCallsLength(files);
      forall i | |a| + 2 <= i < |t| ensures t[i].Workload? {
        assert t[i] == w[i - |a| - 2];
        WorkloadCallsOnly(files, i - |a| - 2);
      }
    }
  }
}
