# Densify Kubernetes collector: the ingestion engine

This project is a Dafny model of the ingestion engine of the Densify Kubernetes data forwarder.
The engine takes Prometheus query results, which are sequences of series, each a label set and
a list of samples. It folds them into an in-memory entity store keyed by identity labels. The
model covers four source files.

- **internal/container/collection.go**: the namespace -> pod -> container store (`systems`).
  - The metric binders `getContainerMetric`, `getPodMetric` and `getNamespacelimits`.
  - The label aggregators `getContainerMetricString`, `getPodMetricString` and `getNamespaceMetricString`.
  - The history-window loop of `getWorkload`.
- **internal/node/collection.go**: the flat node store (`nodes`).
  - The binder `getNodeMetric`, with its flat names and its `resource` sub-dispatch.
  - The aggregator `getNodeMetricString`.
  - `getWorkload`, with its cluster-name choice.
- **internal/node/node.go**: the driver `Metrics`.
  - Node discovery with `-1` sentinels.
  - The capacity and allocatable fallback to the older per-resource queries.
  - The config and attribute output, then the Node Exporter gate in front of the 26 workload collections.
- **trans/discover.py**, the Python predecessor.
  - Discovery seeding in `main`, `getkubestatemetrics`, the kube state and swarm state loops, and the replica-count loops.
  - The aggregators `getattributes` and `getattributespod`.
  - The rows of `writeConfig`, `writeAttributes` and `writeWorkload`.
  - The window order of `multiDayCollect` and of the workload loop.

Shared modules:

- `labels.dfy` (`Labels`): series, label lookup and the string primitives.
- `merge.dfy` (`Merge`): the first aggregator phase. Labels are merged into a temporary per-entity map. One `Gate` value stands for the Go rule and another for the Python rule.
- `render.dfy` (`Rendering`): the second phase. A map becomes `key : value|` segments under a length budget: Go, Python `getattributes`, or none for `getattributespod`.

Each source file is modelled by a pure layer and an imperative layer.

- **The pure layer** (`container.dfy`, `node_collection.dfy`, `node_metrics.dfy`, `discover.dfy`, `discover_labels.dfy`, `discover_rows.dfy`) states what each operation does to the store. Its lemmas prove the properties.
- **The imperative layer** (`container_store.dfy`, `node_store.dfy`, `discover_store.dfy`) runs the operations as the source does:
  - a class holding the mutable store;
  - loops over the series;
  - `tempAttr +=` accumulation;
  - one method per loop body.

  Each method is proved equal to its pure counterpart.

Go and Python disagree on when a repeated label value is appended:

- **Go** appends when the accumulated string already *contains* the value (`strings.Contains(...)` with no negation). This contradicts the comment beside the code and the Python version.
- **Python** appends when the value is *not* contained (`not in`).

The model follows each code base as written: `AppendIfContained` for Go, `AppendIfAbsent` for Python. `Merge.GatesDisagree` exhibits inputs on which the two gates give different results.

Go map iteration order is random. Each temporary map keeps its keys in first-seen order. The lemmas about rendered strings hold for every key order (`Rendering.SegmentsOfKeys`, `Rendering.RenderEnds`). The side effects of the render loops are proved independent of key order (`ContainerCollection.LabelEffectsExact`, `DiscoverLabels.PodEffectsExact`).

A Python exception (KeyError, IndexError or TypeError) ends the program. Each Python loop step is an `Option`, where `None` stands for the exception. The model states exactly when each step raises.

## Model

| member | source | states |
|---|---|---|
| Labels.Get | internal/container/collection.go:22-29 | `Metric[key]` with its `ok`: None iff the label is absent, otherwise the value of that label |
| Labels.GetOr | internal/node/node.go:57-60 | a label read as a value: the empty string when absent, otherwise the label's value |
| Labels.LastSampleWins | internal/container/collection.go:31-36 | only the last sample is ever bound, whatever precedes it; an empty series binds 0 |
| Labels.Replace | internal/container/collection.go:89 | `strings.Replace` of one character: same length, every occurrence of `from` becomes `to`, every other character kept, no `from` left |
| Labels.DropLast | internal/container/collection.go:128 | `tempAttr[:len-1]` removes exactly the last character (callers prove the string non-empty) |
| Labels.PyDropLast | trans/discover.py:183 | `attr[:-1]` removes the last character and leaves the empty string empty |
| Merge.Sanitize | internal/container/collection.go:89 | a stored label value has every `,` turned into `;`, so it holds no comma and keeps its length |
| Merge.EmptyAcc | internal/container/collection.go:83-85 | the map created on an entity's first sight is empty and comma-free |
| Merge.Step | internal/container/collection.go:87-94 | merging one label changes only that key's value, to the first-seen sanitized value or the gated `;`-append |
| Merge.MergedShape | internal/container/collection.go:88-93 | a merged value is comma-free when the one it extends is, and it always extends the previous value |
| Merge.MergeLabelsKeys | internal/container/collection.go:87-95 | merging a series adds exactly its label keys to the entity's map |
| Merge.MergeLabelsGrows | internal/container/collection.go:90-93 | merging never shortens an accumulated value: each old value is a prefix of the new one |
| Merge.MergeLabelsCommaFree | internal/container/collection.go:87-94 | accumulated values never contain `,`, the separator the writers split on |
| Merge.CollectAllIds | internal/container/collection.go:66-102 | the temporary structure holds an entity iff some series resolved to it |
| Merge.CollectAllKeys | internal/container/collection.go:87-95 | an entity's map holds every label key of every series that resolved to it |
| Merge.MergeInto | internal/container/collection.go:87-95 | the label loop over one series equals `MergeLabels` |
| Merge.Collect | internal/container/collection.go:66-102 | the collection loop (create the entity's map on first sight, merge its labels) equals `CollectAll` |
| Merge.AbsentMergedContains | trans/discover.py:160-165 | under the Python gate the sanitized value always ends up inside its key's accumulated value |
| Merge.AbsentGateKeepsValue | trans/discover.py:160-165 | Python gate: after a series is merged, each of its sanitized values occurs in its key's value |
| Merge.GatesDisagree | internal/container/collection.go:91-92 | with "n1" accumulated, Go drops "n2" and appends a second "n1"; Python appends "n2" and drops the repeated "n1" |
| Rendering.Segment | internal/container/collection.go:110-116 | a segment is None iff the key is skipped (budgeted and 250 long or more); uncut it is exactly `key : value`; cut it is exactly 256 long with the value's prefix |
| Rendering.RenderStep | internal/container/collection.go:108-118 | rendering one more key appends exactly that key's piece |
| Rendering.RenderIsJoinedSegments | internal/container/collection.go:107-118 | the attribute string is the emitted segments, each followed by the bar separator |
| Rendering.GoSegmentBound | internal/container/collection.go:110-116 | Go: the cut index is positive and within the value, and every emitted segment is at most 256 long |
| Rendering.GoCutIff | internal/container/collection.go:111-116 | Go: a value is cut iff `len(value)+3+len(key) >= 256`, and then to its first `256-3-len(key)` characters; otherwise it is kept whole, so a segment is 256 long exactly when it was cut |
| Rendering.PyCutSegment | trans/discover.py:171-177 | Python: a value is cut iff `len(value) >= 259+len(key)`, the cut segment is exactly 256 long, and otherwise the value is kept whole |
| Rendering.PySegmentUnbounded | trans/discover.py:173-174 | Python: an uncut segment can exceed 256 characters (key "a" with a 258-character value gives 262) |
| Rendering.SegmentsOfKeys | internal/container/collection.go:108-118 | for any key order a string is an emitted segment iff it is the segment of some key that is not skipped |
| Rendering.SegmentsOfShortKeys | internal/container/collection.go:108-118 | under the Go and Python budgets every emitted segment is the segment of some key shorter than 250 characters |
| Rendering.LongKeyOmitted | internal/container/collection.go:110 | a label name of 250 characters or more starts no segment of the Go or Python attribute |
| Rendering.RenderEnds | internal/container/collection.go:107-128 | the attribute string is empty iff every key is skipped; otherwise its last character is the bar separator that gets stripped |
| Rendering.GoRenderUnbounded | internal/container/collection.go:108-118 | the whole attribute string is not bounded: two short keys with 250-character values exceed 256 |
| Rendering.RenderAttr | internal/container/collection.go:107-118 | the `tempAttr +=` loop equals `Render` |
| Rendering.ShortKeyRenders | internal/container/collection.go:110-112 | a map holding a key shorter than the limit renders to a non-empty string |
| Rendering.TempRenderable | internal/container/collection.go:66-128 | when every resolved series carries a short identity label, every entity renders non-empty, so the strip at line 128 cannot fail |
| ContainerCollection.PutContainerFrame | internal/container/collection.go:39-49 | assigning one container's field leaves every other container as it was |
| ContainerCollection.PutContainerShape | internal/container/collection.go:39-49 | assigning one container creates and removes nothing, and leaves every pod and namespace field as it was |
| ContainerCollection.PutPodShape | internal/container/collection.go:160-164 | assigning one pod's fields creates and removes nothing, and changes no container and no namespace field |
| ContainerCollection.ResolveContainer | internal/container/collection.go:22-29 | a series names a container iff its namespace, pod and container labels are all present and each resolves to an existing entry |
| ContainerCollection.ResolvePod | internal/container/collection.go:147-151 | a series names a pod iff its namespace and pod labels are present and resolve |
| ContainerCollection.ResolveNamespace | internal/container/collection.go:244-245 | a series names a namespace iff its namespace label is present and known |
| ContainerCollection.ResolveSameShape | internal/container/collection.go:22-29 | resolution depends only on which entities exist, so it is unchanged by binders and aggregators |
| ContainerCollection.ContainerFieldOf | internal/container/collection.go:38-50 | the six container metric names select their six fields one-to-one; every other name selects none |
| ContainerCollection.WithField | internal/container/collection.go:38-50 | one assignment: the selected field reads the value, every other numeric and label field is unchanged |
| ContainerCollection.ContainerMetricShape | internal/container/collection.go:16-59 | `getContainerMetric` creates and removes no entity and touches no pod or namespace field |
| ContainerCollection.ReboundTwice | internal/container/collection.go:20-50 | a later assignment to the same field overrides an earlier one |
| ContainerCollection.BindContainerAt | internal/container/collection.go:22-50 | one series rebinds a container iff it names it, and leaves it unchanged otherwise |
| ContainerCollection.ContainerMetricLastWins | internal/container/collection.go:20-57 | after the loop, a container holds the last sample of the last series naming it in the selected field; an unnamed container or an unknown metric leaves it as before |
| ContainerCollection.ContainerMetricField | internal/container/collection.go:31-50 | field by field: the selected field reads the last value, every other field is as before |
| ContainerCollection.ContainerMetricUnknown | internal/container/collection.go:38-50 | an unknown metric name leaves the whole store unchanged |
| ContainerCollection.PodFieldOf | internal/container/collection.go:160-164 | `currentSize` and `creationTime` select their fields; every other name selects none |
| ContainerCollection.BindPodShape | internal/container/collection.go:147-164 | one series of `getPodMetric` keeps the store's shape and every container |
| ContainerCollection.BindPodAt | internal/container/collection.go:147-164 | one series rebinds a pod iff it names it |
| ContainerCollection.PodMetricShape | internal/container/collection.go:141-171 | `getPodMetric` creates and removes nothing and changes no container |
| ContainerCollection.PodMetricLastWins | internal/container/collection.go:145-164 | the selected pod field holds the last sample of the last series naming the pod; every other field and pod is as before, and an unknown metric changes nothing |
| ContainerCollection.NamespaceFieldOf | internal/container/collection.go:255-267 | defaultRequest with cpu/memory selects cpuRequest/memRequest, default with cpu/memory selects cpuLimit/memLimit, and any other pair selects none |
| ContainerCollection.BindLimitEffect | internal/container/collection.go:244-267 | one series changes at most the namespace field its constraint/resource pair selects, to the last sample |
| ContainerCollection.NamespaceLimitsShape | internal/container/collection.go:238-272 | `getNamespacelimits` keeps the store's shape and every pod and container |
| ContainerCollection.BindLimitAt | internal/container/collection.go:244-267 | one series sets field `f` of namespace `n` to its last sample iff it names `n` and its constraint/resource pair selects `f`; the label and the pods are kept |
| ContainerCollection.NamespaceLimitsField | internal/container/collection.go:242-270 | after the loop a namespace field holds the last sample of the last series selecting it, or its old value when none does; the label and the pods are kept |
| ContainerCollection.NamespaceLimitsLastWins | internal/container/collection.go:242-270 | after the loop each of cpuRequest, memRequest, cpuLimit and memLimit holds the last sample of the last series naming the namespace and selecting that field, and is as before when no series does |
| ContainerCollection.NamespaceLimitsUnselected | internal/container/collection.go:242-270 | a result in which no series both names a known namespace and selects a field leaves the store unchanged |
| ContainerCollection.LabelEffectsExact | internal/container/collection.go:119-125 | for any key order, `conLabel` appends the `instance` value (semicolons turned into bars, then a trailing bar) to currentNodes once; `conInfo` sets podName from `pod`; both fire whatever the key length, and nothing else changes |
| ContainerCollection.RenderLoopWrites | internal/container/collection.go:107-133 | the render loop with its side effects, then the strip and store, equals `WriteContainerLabels`, which writes only conInfo/conLabel |
| ContainerCollection.ContainerTempReady | internal/container/collection.go:66-102 | every entity of the temporary structure is an existing container and renders non-empty |
| ContainerCollection.ContainerTemp | internal/container/collection.go:64-102 | the temporary structure is the Go-gate merge of the resolved series, and each of its entities exists |
| ContainerCollection.ApplyContainerLabels | internal/container/collection.go:104-136 | the render phase never creates or removes an entity |
| ContainerCollection.ApplyContainerLabelsAt | internal/container/collection.go:104-136 | a rendered container holds its aggregated labels; every other container is as before |
| ContainerCollection.ApplyContainerLabelsStep | internal/container/collection.go:106-134 | the k-th write touches only the container it renders |
| ContainerCollection.ContainerLabelsAt | internal/container/collection.go:62-138 | `getContainerMetricString` creates nothing; a container some series resolved to holds `WriteContainerLabels` of its merged map, and every other container is unchanged |
| ContainerCollection.ContainerLabelsOther | internal/container/collection.go:129-133 | a metric other than conInfo/conLabel leaves the store unchanged |
| ContainerCollection.WritePodLabels | internal/container/collection.go:224-231 | the stripped string goes to podInfo, podLabel or controllerLabel as the metric says, and nothing else changes |
| ContainerCollection.ApplyPodLabels | internal/container/collection.go:209-233 | the pod render phase never creates or removes an entity |
| ContainerCollection.PodTemp | internal/container/collection.go:175-207 | the pod temporary structure is the Go-gate merge, and each of its pods exists and renders non-empty |
| ContainerCollection.ApplyPodLabelsAt | internal/container/collection.go:209-233 | a rendered pod holds its labels; every other pod and every container is as before |
| ContainerCollection.ApplyPodLabelsStep | internal/container/collection.go:210-232 | the k-th pod write touches only its pod |
| ContainerCollection.PodLabelsAt | internal/container/collection.go:174-235 | `getPodMetricString` creates nothing; a resolved pod holds the stripped string in the one field its metric names, everything else is as before, and any other metric writes nothing |
| ContainerCollection.WriteNamespaceLabel | internal/container/collection.go:317-320 | only `namespaceLabel` is written, and only for that metric name |
| ContainerCollection.ApplyNamespaceLabels | internal/container/collection.go:303-321 | the namespace render phase keeps every key of the store |
| ContainerCollection.NamespaceTemp | internal/container/collection.go:276-301 | the namespace temporary structure is the Go-gate merge, each namespace known and rendering non-empty |
| ContainerCollection.NamespaceLabels | internal/container/collection.go:275-323 | `getNamespaceMetricString` keeps the set of namespaces |
| ContainerCollection.ApplyNamespaceLabelsAt | internal/container/collection.go:303-321 | a rendered namespace holds its label; every other namespace is as before |
| ContainerCollection.NamespaceLabelsAt | internal/container/collection.go:275-323 | for namespaceLabel a resolved namespace holds the stripped string and is otherwise unchanged; every other namespace, and every namespace under other metrics, is unchanged |
| ContainerCollection.ContainerTempIds | internal/container/collection.go:67-102 | a container is rendered iff some series resolves to it |
| ContainerCollection.PodTempIds | internal/container/collection.go:179-207 | a pod is rendered iff some series resolves to it |
| ContainerCollection.NamespaceTempIds | internal/container/collection.go:280-301 | a namespace is rendered iff some series resolves to it |
| ContainerIngest.RenderContainer | internal/container/collection.go:107-133 | the per-container render loop with its side effects and the strip equals `WriteContainerLabels` |
| ContainerIngest.RenderPod | internal/container/collection.go:211-231 | the per-pod render loop equals `WritePodLabels` |
| ContainerIngest.RenderNamespace | internal/container/collection.go:304-320 | the per-namespace render loop equals `WriteNamespaceLabel` |
| ContainerIngest.ContainerStore.BindContainerSeries | internal/container/collection.go:22-50 | one iteration of the binder loop updates the store as `BindContainer` |
| ContainerIngest.ContainerStore.GetContainerMetric | internal/container/collection.go:16-59 | the store after `getContainerMetric` is `ContainerMetric` of the old store |
| ContainerIngest.ContainerStore.BindPodSeries | internal/container/collection.go:147-164 | one iteration of the pod binder updates the store as `BindPod` |
| ContainerIngest.ContainerStore.GetPodMetric | internal/container/collection.go:141-171 | the store after `getPodMetric` is `PodMetric` of the old store |
| ContainerIngest.ContainerStore.BindLimitSeries | internal/container/collection.go:244-267 | one iteration of the limits loop updates the store as `BindLimit` |
| ContainerIngest.ContainerStore.GetNamespaceLimits | internal/container/collection.go:238-272 | the store after `getNamespacelimits` is `NamespaceLimits` of the old store |
| ContainerIngest.ContainerStore.GetContainerMetricString | internal/container/collection.go:62-138 | merge phase then render phase, in place; the store ends as `ContainerLabels` of the old one |
| ContainerIngest.ContainerStore.GetPodMetricString | internal/container/collection.go:174-235 | the store ends as `PodLabels` of the old one |
| ContainerIngest.ContainerStore.GetNamespaceMetricString | internal/container/collection.go:275-323 | the store ends as `NamespaceLabels` of the old one |
| ContainerIngest.ContainerRenderPhase | internal/container/collection.go:104-136 | the loop over the temporary structure equals `ApplyContainerLabels` over all its entities |
| ContainerIngest.WriteContainerAt | internal/container/collection.go:106-134 | one iteration advances the render phase by one container |
| ContainerIngest.PodRenderPhase | internal/container/collection.go:209-233 | the pod render loop equals `ApplyPodLabels` over all pods |
| ContainerIngest.WritePodAt | internal/container/collection.go:210-232 | one iteration advances the pod render phase by one pod |
| ContainerIngest.NamespaceRenderPhase | internal/container/collection.go:303-321 | the namespace render loop equals `ApplyNamespaceLabels` over all namespaces |
| ContainerIngest.WriteNamespaceAt | internal/container/collection.go:304-320 | one iteration advances the namespace render phase by one namespace |
| ContainerIngest.WindowsAt | internal/container/collection.go:341-350 | exactly four events per window; event 4i+j belongs to offset i, and the owned query and write come before the unowned ones, with offsets increasing |
| ContainerIngest.WindowsLength | internal/container/collection.go:341-350 | n windows give exactly 4n events |
| ContainerIngest.ContainerWorkload | internal/container/collection.go:325-353 | a failed create is only logged; then the header, `max(history,0)` windows with offsets 0.. in order, and the close |
| NodeCollection.ResolveNode | internal/node/collection.go:30-36 | a series names a node iff its node label is present and the node is known |
| NodeCollection.NodeFieldOf | internal/node/collection.go:44-98 | the full dispatch: capacity/allocatable select through `resource`, each flat name selects one field, every other name or resource selects none |
| NodeCollection.WithNodeField | internal/node/collection.go:48-96 | one assignment changes only the selected field and no label field |
| NodeCollection.BindNodeEffect | internal/node/collection.go:30-98 | one series changes at most the selected field of the node it names, to its last sample (0 when it has none); otherwise it changes nothing |
| NodeCollection.BindNodeAt | internal/node/collection.go:30-98 | one series, seen from one field of one node |
| NodeCollection.NodeMetricKeys | internal/node/collection.go:23-100 | `getNodeMetric` creates and removes no node |
| NodeCollection.NodeMetricLastWins | internal/node/collection.go:29-99 | each node field holds the last sample of the last series naming the node and selecting the field, and is otherwise as before; label fields never change |
| NodeCollection.NodeMetricUntouched | internal/node/collection.go:43-98 | a field no series can select keeps its value on every node |
| NodeCollection.NodeMetricUnknown | internal/node/collection.go:72-98 | an unknown metric name leaves every node unchanged |
| NodeCollection.EmptySeriesBindsZero | internal/node/collection.go:38-41 | a matched series without samples binds 0 and so overwrites a -1 sentinel |
| NodeCollection.NodeTemp | internal/node/collection.go:148-173 | the node temporary structure is the Go-gate merge; each node is known and renders non-empty |
| NodeCollection.ApplyNodeLabels | internal/node/collection.go:175-195 | the node render phase keeps the set of nodes |
| NodeCollection.ApplyNodeLabelsAt | internal/node/collection.go:175-195 | a rendered node holds its label; every other node is as before |
| NodeCollection.NodeLabelsAt | internal/node/collection.go:147-196 | for nodeLabel a resolved node holds the stripped string and is otherwise unchanged; every other node, and any other metric, writes nothing |
| NodeCollection.NodeTempIds | internal/node/collection.go:154-173 | a node is rendered iff some series resolves to it |
| NodeIngest.RenderNode | internal/node/collection.go:176-194 | the per-node render loop (with `continue` for long keys) and the strip equal `WriteNodeLabel` |
| NodeIngest.NodeStore.BindNodeSeries | internal/node/collection.go:30-98 | one iteration of the binder loop updates the map as `BindNode` |
| NodeIngest.NodeStore.GetNodeMetric | internal/node/collection.go:23-100 | the map after `getNodeMetric` is `NodeMetric` of the old map |
| NodeIngest.NodeStore.GetNodeMetricString | internal/node/collection.go:147-196 | the map after `getNodeMetricString` is `NodeLabels` of the old map |
| NodeIngest.NodeRenderPhase | internal/node/collection.go:175-195 | the render loop equals `ApplyNodeLabels` over all nodes |
| NodeIngest.WriteNodeAt | internal/node/collection.go:176-194 | one iteration advances the render phase by one node |
| NodeIngest.NodeWindowsAt | internal/node/collection.go:126-140 | one query per offset, each followed by its write, with offsets 0..n-1 increasing |
| NodeIngest.NodeWindowsLength | internal/node/collection.go:126-140 | n windows give exactly 2n events |
| NodeIngest.NodeWorkload | internal/node/collection.go:102-144 | fails iff the create fails, and then issues nothing; otherwise header, `max(History,0)` windows, close; the cluster is PromAddress when ClusterName is empty |
| NodeMetrics.SeedFields | internal/node/node.go:54-68 | a discovered node has the eleven sentinel fields at -1, every other numeric field 0, an empty nodeLabel and its `node` label as identity |
| NodeMetrics.LastSeedNone | internal/node/node.go:53-69 | there is a last series for a name iff some series carries that node label |
| NodeMetrics.LastSeedIsLast | internal/node/node.go:53-54 | the seed for a name is the last series carrying it |
| NodeMetrics.DiscoveredAt | internal/node/node.go:52-70 | discovery creates exactly one node per distinct node label, keeps the existing ones, and seeds each from the last series with its label: a repeat replaces |
| NodeMetrics.WorkloadCallsAt | internal/node/node.go:162-360 | each workload file is collected with max and then avg, in list order |
| NodeMetrics.WorkloadCallsLength | internal/node/node.go:162-360 | two collections per workload file |
| NodeMetrics.WorkloadCallsOnly | internal/node/node.go:162-360 | the workload part holds only workload collections |
| NodeMetrics.DiscoverNodes | internal/node/node.go:52-70 | the discovery loop leaves the map as `Discovered` |
| NodeMetrics.CollectCapacity | internal/node/node.go:86-117 | the capacity block binds as `CapacityStage` and issues `CapacityQueries` |
| NodeMetrics.CollectAllocatable | internal/node/node.go:119-147 | the allocatable block binds as `AllocatableStage` and issues `AllocatableQueries` |
| NodeMetrics.Metrics | internal/node/node.go:31-360 | the driver leaves the map as `Ingested` and its trace is `MetricsTrace` for the 13 workload files |
| NodeMetrics.IngestedKeys | internal/node/node.go:44-147 | after discovery no stage creates or removes a node |
| NodeMetrics.IssuedAreAttributeQueries | internal/node/node.go:44-157 | a query is issued in a run iff it is one of its attribute queries |
| NodeMetrics.CapacityFallbackIssuedIff | internal/node/node.go:99-117 | the per-resource cpu, memory and pods capacity queries are issued iff the combined query returned no series |
| NodeMetrics.CapacityQueriesIssued | internal/node/node.go:99-117 | the same, among the attribute queries |
| NodeMetrics.AllocatableFallbackIssuedIff | internal/node/node.go:132-147 | the per-resource allocatable queries are issued iff the combined one returned no series |
| NodeMetrics.AllocatableQueriesIssued | internal/node/node.go:132-147 | the same, among the attribute queries |
| NodeMetrics.FallbackIgnored | internal/node/node.go:99-147 | when both combined queries returned series, the fallback queries' results have no effect on the store |
| NodeMetrics.SentinelSurvives | internal/node/node.go:64-147 | in the fallback path an ephemeral-storage or hugepages field of a discovered node stays -1 through the whole attribute phase |
| NodeMetrics.SentinelBeforeCapacity | internal/node/node.go:64-84 | up to the capacity step a discovered node keeps those sentinels |
| NodeMetrics.DiscoveredSentinel | internal/node/node.go:64-68 | a node discovered in this run holds -1 in every sentinel field |
| NodeMetrics.LabelsKeepField | internal/node/node.go:73-75 | the label aggregator writes no numeric field |
| NodeMetrics.NeverSelects | internal/node/node.go:99-113 | the flat fallback names never write a field that only the combined queries write |
| NodeMetrics.CapacityStageKeeps | internal/node/node.go:99-117 | the capacity step keeps such a field when it falls back, and never touches allocatable-only fields |
| NodeMetrics.AllocatableStageKeeps | internal/node/node.go:132-147 | the allocatable step keeps such a field when it falls back, and never touches capacity-only fields |
| NodeMetrics.WorkloadsIffNodeExporter | internal/node/node.go:82-157 | workloads are collected iff the network-speed query returned a series; otherwise the run ends with the Node Exporter message |
| NodeMetrics.OutputBetweenIngestionAndWorkloads | internal/node/node.go:72-157 | config and attribute output come after every attribute query and before any workload collection |
| Discover.PickLast | trans/discover.py:144-147 | a range result stores only its last pair's sample; an empty range raises |
| Discover.NewPod | trans/discover.py:269-275 | a new pod-level dict holds exactly the five reserved keys, each empty text |
| Discover.AddressOf | trans/discover.py:141-143 | an addressed pair is always an existing (name, container) pair |
| Discover.SeedWellFormed | trans/discover.py:267-294 | a seeding step keeps the store well formed |
| Discover.EntryWellFormed | trans/discover.py:141-147 | a kube state step keeps the store well formed |
| Discover.ReplicaWellFormed | trans/discover.py:354-359 | a replica-count step keeps the store well formed |
| Discover.RunWellFormed | trans/discover.py:267-377 | seeding and the state and replica loops never drop a reserved key and never put reserved text under a container key |
| Discover.SeedSlot | trans/discover.py:267-294 | seeding slot by slot: a new name gets the empty reserved keys, the named container is rebuilt with state 1 and the picked memory, everything else is kept; the step raises iff the namespace or the sample is missing |
| Discover.SeededKeeps | trans/discover.py:267-294 | a container no series names keeps its slot through seeding |
| Discover.SeededLastWins | trans/discover.py:276-294 | after seeding, a container is the entry built from the last series naming it |
| Discover.SeededPodFields | trans/discover.py:269-275 | a pod-level entry is created once: a name first seen in seeding ends with its reserved keys empty unless a container takes that key |
| Discover.AddressIff | trans/discover.py:141-143 | for a known container, an entry op addresses it iff the labels name it |
| Discover.EntrySlot | trans/discover.py:141-147 | an entry op's step changes only the addressed container, by its one field |
| Discover.KnownPairWrites | trans/discover.py:141-147 | in a well-formed store a known pair with a sample and a non-reserved key never raises |
| Discover.EntryStepShape | trans/discover.py:141-147 | one kube state step creates and removes nothing |
| Discover.EntryRunShape | trans/discover.py:141-147 | the kube state, state and swarm loops create and remove nothing |
| Discover.EntryKeeps | trans/discover.py:141-147 | a container no series addresses keeps its slot |
| Discover.EntryLastWins | trans/discover.py:141-147 | `getkubestatemetrics` writes only known pairs; the field ends with the last addressing series' value and the other fields are kept |
| Discover.UpdateOverwrites | trans/discover.py:145-147 | a later write of the field replaces an earlier one |
| Discover.ReplicaSlot | trans/discover.py:354-359 | a replica step changes at most `current_size` of the named entry |
| Discover.ReplicaFrame | trans/discover.py:352-377 | the replica loops add no entry and touch no key but `current_size` |
| Discover.ReplicaKeeps | trans/discover.py:352-377 | an entry no series names keeps all of its keys |
| Discover.ReplicaLastWins | trans/discover.py:352-377 | `current_size` ends with the picked sample of the last series naming the entry |
| DiscoverLabels.AttrId | trans/discover.py:152-159 | a resolved container is an existing pair |
| DiscoverLabels.AttrTempIds | trans/discover.py:150-165 | every container of the temporary structure exists in the store |
| DiscoverLabels.AttrTemp | trans/discover.py:150-165 | `tempsystems` is the Python-gate merge of the resolved series, every entity an existing pair |
| DiscoverLabels.AttrTempHolds | trans/discover.py:151-165 | a container is in `tempsystems` iff some series names it through name1 and name2 |
| DiscoverLabels.AttrEffectsStep | trans/discover.py:170-182 | the side effects of j+1 keys are those of j keys followed by key j |
| DiscoverLabels.AttrEffectsInstance | trans/discover.py:178-180 | over distinct keys, `con_instance` grows by the converted instance value once, and only for `attr` |
| DiscoverLabels.AttrEffectsPod | trans/discover.py:181-182 | `pod_name` becomes the `pod` value when present, otherwise is kept |
| DiscoverLabels.AttrEffectsRest | trans/discover.py:170-182 | the render loop changes no field besides `con_instance` and `pod_name` |
| DiscoverLabels.AttrLoopWrites | trans/discover.py:169-184 | the loop with its side effects and the store of the stripped string equals `WriteAttr` |
| DiscoverLabels.PutAttrFacts | trans/discover.py:184 | a write raises iff the slot is reserved text, keeps the shape and changes only its own container |
| DiscoverLabels.ApplyAttrsNext | trans/discover.py:167-184 | one more write of the render phase, from the store the earlier ones left |
| DiscoverLabels.ApplyAttrsRaised | trans/discover.py:167-184 | once a write has raised, the phase stays raised |
| DiscoverLabels.ApplyAttrsShape | trans/discover.py:167-184 | the render phase raises iff a reached container is reserved text, and otherwise keeps the shape |
| DiscoverLabels.ApplyAttrsAt | trans/discover.py:167-184 | a rendered container holds its write applied to its old self; every other one is unchanged |
| DiscoverLabels.AttributesAt | trans/discover.py:149-184 | `getattributes` raises iff a named container is reserved text; otherwise it creates nothing, named containers hold `WriteAttr`, and the rest are unchanged |
| DiscoverLabels.AttributesWellFormed | trans/discover.py:149-184 | in a well-formed store with no series naming a reserved key, `getattributes` does not raise and keeps it well formed |
| DiscoverLabels.PodId | trans/discover.py:189-192 | a resolved pod-level entry exists |
| DiscoverLabels.PodTempIds | trans/discover.py:187-198 | every entry of the pod temporary structure exists |
| DiscoverLabels.PodTemp | trans/discover.py:187-198 | the pod temporary structure is the Python-gate merge, every entry existing |
| DiscoverLabels.PodEffectsStep | trans/discover.py:202-207 | the copies of j+1 keys are those of j keys followed by key j |
| DiscoverLabels.PodEffectsExact | trans/discover.py:202-207 | for any key order the side effects are exactly the copies of `created_by_kind` and `created_by_name` |
| DiscoverLabels.PodLoopWrites | trans/discover.py:200-209 | the loop with its copies and the store of the stripped, unlimited string equals `WritePodAttr` |
| DiscoverLabels.WritePodAttrWellFormed | trans/discover.py:209 | stored under a reserved key, the write keeps a pod-level entry well formed |
| DiscoverLabels.ApplyPodAttrs | trans/discover.py:200-209 | the pod render phase keeps the set of entries |
| DiscoverLabels.ApplyPodAttrsNext | trans/discover.py:200-209 | one more entry of the phase, from the store the earlier ones left |
| DiscoverLabels.ApplyPodAttrsAt | trans/discover.py:200-209 | a rendered entry holds `WritePodAttr` of its old self; every other one is unchanged |
| DiscoverLabels.PodAttributesAt | trans/discover.py:186-209 | `getattributespod` never raises or creates; named entries hold `WritePodAttr`, the rest are unchanged |
| DiscoverLabels.PodAttributesWellFormed | trans/discover.py:186-209 | stored under a reserved key, `getattributespod` keeps the store well formed |
| DiscoverRows.EmptyNameRows | trans/discover.py:113-126 | the writers disagree on empty names: the empty pod-level name gives a config row but no attribute row, and the empty key the reverse |
| DiscoverRows.HostSplit | trans/discover.py:114-117 | the host name is the name with `;`->`.`, then `__`, then the key with `:`->`.` |
| DiscoverRows.RowName | trans/discover.py:114-116 | a row shows its name, or the container's `pod_name` under `<none>`; reserved text there raises |
| DiscoverRows.ConfigRow | trans/discover.py:111-117 | a config row is omitted iff the key is empty or reserved |
| DiscoverRows.StateShown | trans/discover.py:127-130 | `Terminated` iff the state is still the integer 1; every other state, the text "1" included, shows `Running` |
| DiscoverRows.AttributeRow | trans/discover.py:124-134 | an attribute row is omitted iff the name is empty or the key is reserved |
| DiscoverRows.ConfigRowWellFormed | trans/discover.py:111-117 | in a well-formed store a config row never raises and carries the host name of its pair |
| DiscoverRows.AttributeRowWellFormed | trans/discover.py:124-134 | an attribute row raises iff it is emitted and a pod-level field holds a container; it shows the key as container name and `con_instance[:-1]` |
| DiscoverRows.LinesSome | trans/discover.py:111-117 | a file is written through iff no pair raises, with at most one row per pair |
| DiscoverRows.ConfigFileWellFormed | trans/discover.py:107-118 | `writeConfig` always completes on a well-formed store |
| DiscoverRows.AttributeFileWellFormed | trans/discover.py:120-135 | `writeAttributes` completes iff every emitted pair's pod-level fields hold text |
| DiscoverRows.WorkloadRowsExact | trans/discover.py:73-83 | a series gives no row unless both labels are present, the key is non-empty and the pair known; otherwise one row per sample in order under its host name |
| DiscoverRows.WorkloadFileSome | trans/discover.py:70-84 | a workload file is written through iff no series raises |
| DiscoverRows.WorkloadRowsWellFormed | trans/discover.py:73-83 | in a well-formed store only `<none>` over reserved text raises |
| DiscoverRows.DaysDownAt | trans/discover.py:62-67 | the history windows are days+1 range queries, the i-th one days-i days back |
| DiscoverRows.DaysDownLength | trans/discover.py:62-67 | count+1 windows, none for a negative count |
| DiscoverRows.GatheredNext | trans/discover.py:66 | one more window's results are appended after the others |
| DiscoverRows.DaysDownNext | trans/discover.py:62-67 | one loop iteration moves the window for `count` from the pending days to the asked ones |
| DiscoverRows.GatheredSplit | trans/discover.py:57-68 | each window's results come whole and in window order |
| DiscoverRows.DayEvents | trans/discover.py:388-434 | one day of the workload loop writes ten files, all for that day's count |
| DiscoverRows.DaysUpAt | trans/discover.py:386-436 | ten files per day, the days with count 0, 1, .. n-1 in that order |
| DiscoverRows.DaysUpLength | trans/discover.py:386-436 | n days give exactly 10n writes |
| DiscoverRows.WindowOrders | trans/discover.py:386-436 | `multiDayCollect` asks the oldest day first, while the workload loop writes the newest first |
| DiscoverIngest.ContainerAttrLoop | trans/discover.py:169-182 | the `attr +=` loop gives the Python-budget rendering and the side effects `AttrEffects` |
| DiscoverIngest.RenderContainerAttr | trans/discover.py:168-184 | one container: loop, strip and store equal `WriteAttr` |
| DiscoverIngest.PodAttrLoop | trans/discover.py:201-207 | the pod `attr +=` loop gives the unlimited rendering and the copies `PodEffects` |
| DiscoverIngest.RenderPodAttr | trans/discover.py:200-209 | one pod-level entry: loop, strip and store equal `WritePodAttr` |
| DiscoverIngest.MultiDayCollect | trans/discover.py:57-68 | the windows asked are `CollectWindows(mode, days)` and the data is their results concatenated in order |
| DiscoverIngest.Workload | trans/discover.py:386-436 | the `while count <= days` loop writes `DaysUp(days+1)`, or nothing for a negative count |
| DiscoverIngest.SeedRecord | trans/discover.py:267-294 | one seeding iteration equals `SeedStep`, with the raise as `ok = false` |
| DiscoverIngest.Discovery.SeedSeries | trans/discover.py:267-294 | one seeding iteration in place: it succeeds iff `SeedStep` does, and the store becomes its result |
| DiscoverIngest.Discovery.EntrySeries | trans/discover.py:141-147 | one kube state iteration in place, as `EntryStep` |
| DiscoverIngest.Discovery.ReplicaSeries | trans/discover.py:354-359 | one replica iteration in place, as `ReplicaStep` |
| DiscoverIngest.Discovery.Ingest | trans/discover.py:141-147 | a whole `for i in data2` loop in place, as `Run` |
| DiscoverIngest.Discovery.GetKubeStateMetrics | trans/discover.py:137-147 | `getkubestatemetrics`: gather the windows, then run the loop; the store is `Run` of the gathered data |
| DiscoverIngest.Discovery.GetAttributes | trans/discover.py:149-184 | `getattributes` in place: it succeeds iff `Attributes` does, and the store becomes its result |
| DiscoverIngest.Discovery.GetAttributesPod | trans/discover.py:186-209 | `getattributespod` in place: the store becomes `PodAttributes` |
| DiscoverIngest.AttrMergePhase | trans/discover.py:150-165 | the merge loop builds `AttrTemp` |
| DiscoverIngest.AttrRenderPhase | trans/discover.py:167-184 | the render loop equals `ApplyAttrs` over every container of `tempsystems` |
| DiscoverIngest.AttrRenderStep | trans/discover.py:168-184 | one iteration advances the phase, or the whole phase raises |
| DiscoverIngest.AttributesLoop | trans/discover.py:149-184 | merge then render equals `Attributes` |
| DiscoverIngest.PodMergePhase | trans/discover.py:187-198 | the pod merge loop builds `PodTemp` |
| DiscoverIngest.PodRenderPhase | trans/discover.py:200-209 | the pod render loop equals `ApplyPodAttrs` over every entry |
| DiscoverIngest.PodRenderStep | trans/discover.py:200-209 | one iteration advances the pod phase by one entry |
| DiscoverIngest.PodAttributesLoop | trans/discover.py:186-209 | merge then render equals `PodAttributes` |

## Left out

- Prometheus calls (`prometheus.MetricCollect`, `metricCollect`, `requests.get`): their code is not part of this model. Query results are inputs: a sequence of series (Go) or records (Python). `NodeMetrics.Metrics` takes them from a `backend` function of the query kind, and `multiDayCollect` takes them from an `answer` function of the window.
- `prometheus.TimeRange` and the PromQL query text: a window is named by its offset (Go) or its day count (Python).
- File and CSV I/O, and logging: files, headers, writes and log lines become trace events or row values. The CSV text itself is not modelled.
- The Go `writeWorkload`, `writeConfig` and `writeAttributes` of the node and container packages: their code is not part of this model, so a write is one trace event.
- The Python `writeWorkloadNetwork` and the float sums of the network totals: each is represented by a single trace event.
- Floating point: samples are integers, already truncated from `float64`. Python sample values are kept as the text the backend returned.
- Fixed-width integers: Go `int`/`int64` are unbounded `int`.
- Date formatting (`strftime`, `fromtimestamp`): a workload row keeps its raw timestamp.
- Command-line and configuration parsing (argparse, the config file, internal/common/common.go): these values are parameters of the modelled operations.
- Go map iteration order: it is random. Each temporary map keeps its keys in first-seen order, and facts that depend on the order are proved for any order. The writers' iteration over the pairs of the store is passed in as a sequence of pairs.
- Byte-versus-rune length: strings are sequences of characters and `len` is their length, which is exact for ASCII labels.
- A nil query result is modelled as an empty result. The type-assertion panic before the nil check at internal/node/node.go:49 is not reproduced.
- The revision mismatch between internal/node/node.go and internal/node/collection.go. node.go calls `getNodeMetric` with a namespace argument and calls `getWorkload` with another signature. The model follows collection.go's signatures. The node record carries the `cpuLimit`..`memRequest` fields that collection.go writes; discovery leaves them at zero.
- ContainerIngest.ContainerStore.GetContainerMetricString: requires the namespace label name to be shorter than 250 characters. Without that key the Go strip `tempAttr[:len(tempAttr)-1]` could meet an empty string and panic; the panic itself is not modelled. The same requirement applies to GetPodMetricString, GetNamespaceMetricString and NodeIngest.NodeStore.GetNodeMetricString. Every caller passes a short constant label name.
- Python exceptions end the program: a raising step is `None`, and the partial state it leaves is not specified.
- The rest of the Python `main` and the Go entry points that call the collectors: only the loops and calls named above are modelled.
- NodeMetrics.MetricsTrace: stated over any list of workload files. `NodeMetrics.Metrics` instantiates it with the thirteen files the source collects, but the query text and metric names of the 26 collections are not modelled.
