/** The flat node store of the node collector and the functions that fill it from query results:
    the binder `getNodeMetric`, with its flat metric names and its `resource` sub-dispatch, and
    the label aggregator `getNodeMetricString` (internal/node/collection.go). */
module NodeCollection {
  import opened Labels
  import opened Merge
  import opened Rendering

  /** A node record: its identity and label fields, and every numeric field a binder writes
      (`cpuLimit` .. `memRequest` are the fields internal/node/collection.go assigns). */
  datatype Node = Node(
    node: string, nodeLabel: string, arch: string, os: string, hostname: string,
    netSpeedBytes: int,
    cpuCapacity: int, memCapacity: int, ephemeralStorageCapacity: int, podsCapacity: int, hugepages2MiCapacity: int,
    cpuAllocatable: int, memAllocatable: int, ephemeralStorageAllocatable: int, podsAllocatable: int,
    hugepages2MiAllocatable: int,
    cpuLimit: int, cpuRequest: int, memLimit: int, memRequest: int)

  /** The package-level `nodes` map. */
  type Nodes = map<string, Node>

  /** The node a series names through its node label, when the label is present and the node
      is known. */
  function ResolveNode(nodes: Nodes, labels: LabelSet, nodeL: string): (r: Option<string>)
    ensures r.Some? <==> Get(labels, nodeL).Some? && Get(labels, nodeL).value in nodes
    ensures r.Some? ==> r == Get(labels, nodeL)
  {
    match Get(labels, nodeL)
    case None => None
    case Some(n) => if n in nodes then Some(n) else None
  }

  /** The numeric node fields a binder can write. */
  datatype NodeField =
    | NetSpeedBytes
    | CpuCapacity | MemCapacity | EphemeralStorageCapacity | PodsCapacity | Hugepages2MiCapacity
    | CpuAllocatable | MemAllocatable | EphemeralStorageAllocatable | PodsAllocatable | Hugepages2MiAllocatable
    | CpuLimit | CpuRequest | MemLimit | MemRequest

  /** Every metric name `getNodeMetric` knows. */
  const NodeMetricNames: set<string> := {
    "capacity", "allocatable", "capacity_cpu", "capacity_mem", "capacity_pod", "allocatable_cpu",
    "allocatable_mem", "allocatable_pod", "netSpeedBytes", "cpuLimit", "cpuRequest", "memLimit", "memRequest"}

  /** The `switch capacityType` of the `capacity` and `allocatable` branches. */
  function ResourceField(capacity: bool, resource: string): Option<NodeField>
  {
    if resource == "cpu" then Some(if capacity then CpuCapacity else CpuAllocatable)
    else if resource == "memory" then Some(if capacity then MemCapacity else MemAllocatable)
    else if resource == "pods" then Some(if capacity then PodsCapacity else PodsAllocatable)
    else if resource == "ephemeral_storage" then Some(if capacity then EphemeralStorageCapacity else EphemeralStorageAllocatable)
    else if resource == "hugepages_2Mi" then Some(if capacity then Hugepages2MiCapacity else Hugepages2MiAllocatable)
    else None
  }

  /** The dispatch of `getNodeMetric`: `capacity` and `allocatable` select a field by the
      series' `resource` label, the eleven flat names select one field each, and every other
      name, or an unknown resource, selects none. */
  function NodeFieldOf(metric: string, resource: string): (r: Option<NodeField>)
    ensures r.Some? ==> metric in NodeMetricNames
    ensures r == Some(NetSpeedBytes) <==> metric == "netSpeedBytes"
    ensures r == Some(CpuCapacity) <==> (metric == "capacity" && resource == "cpu") || metric == "capacity_cpu"
    ensures r == Some(MemCapacity) <==> (metric == "capacity" && resource == "memory") || metric == "capacity_mem"
    ensures r == Some(PodsCapacity) <==> (metric == "capacity" && resource == "pods") || metric == "capacity_pod"
    ensures r == Some(EphemeralStorageCapacity) <==> metric == "capacity" && resource == "ephemeral_storage"
    ensures r == Some(Hugepages2MiCapacity) <==> metric == "capacity" && resource == "hugepages_2Mi"
    ensures r == Some(CpuAllocatable) <==> (metric == "allocatable" && resource == "cpu") || metric == "allocatable_cpu"
    ensures r == Some(MemAllocatable) <==> (metric == "allocatable" && resource == "memory") || metric == "allocatable_mem"
    ensures r == Some(PodsAllocatable) <==> (metric == "allocatable" && resource == "pods") || metric == "allocatable_pod"
    ensures r == Some(EphemeralStorageAllocatable) <==> metric == "allocatable" && resource == "ephemeral_storage"
    ensures r == Some(Hugepages2MiAllocatable) <==> metric == "allocatable" && resource == "hugepages_2Mi"
    ensures r == Some(CpuLimit) <==> metric == "cpuLimit"
    ensures r == Some(CpuRequest) <==> metric == "cpuRequest"
    ensures r == Some(MemLimit) <==> metric == "memLimit"
    ensures r == Some(MemRequest) <==> metric == "memRequest"
  {
    if metric == "capacity" then ResourceField(true, resource)
    else if metric == "allocatable" then ResourceField(false, resource)
    else if metric == "capacity_cpu" then Some(CpuCapacity)
    else if metric == "capacity_mem" then Some(MemCapacity)
    else if metric == "capacity_pod" then Some(PodsCapacity)
    else if metric == "allocatable_cpu" then Some(CpuAllocatable)
    else if metric == "allocatable_mem" then Some(MemAllocatable)
    else if metric == "allocatable_pod" then Some(PodsAllocatable)
    else if metric == "netSpeedBytes" then Some(NetSpeedBytes)
    else if metric == "cpuLimit" then Some(CpuLimit)
    else if metric == "cpuRequest" then Some(CpuRequest)
    else if metric == "memLimit" then Some(MemLimit)
    else if metric == "memRequest" then Some(MemRequest)
    else None
  }

  function NodeFieldValue(n: Node, f: NodeField): int
  {
    match f
    case NetSpeedBytes => n.netSpeedBytes
    case CpuCapacity => n.cpuCapacity
    case MemCapacity => n.memCapacity
    case EphemeralStorageCapacity => n.ephemeralStorageCapacity
    case PodsCapacity => n.podsCapacity
    case Hugepages2MiCapacity => n.hugepages2MiCapacity
    case CpuAllocatable => n.cpuAllocatable
    case MemAllocatable => n.memAllocatable
    case EphemeralStorageAllocatable => n.ephemeralStorageAllocatable
    case PodsAllocatable => n.podsAllocatable
    case Hugepages2MiAllocatable => n.hugepages2MiAllocatable
    case CpuLimit => n.cpuLimit
    case CpuRequest => n.cpuRequest
    case MemLimit => n.memLimit
    case MemRequest => n.memRequest
  }

  /** The label-derived fields of a node, untouched by the binder. */
  function NodeStrings(n: Node): (string, string, string, string, string)
  {
    (n.node, n.nodeLabel, n.arch, n.os, n.hostname)
  }

  /** One assignment `nodes[n].<field> = value`: that field reads `v`, every other field is as
      before. */
  function WithNodeField(n: Node, f: NodeField, v: int): (r: Node)
    ensures forall g :: NodeFieldValue(r, g) == if g == f then v else NodeFieldValue(n, g)
    ensures NodeStrings(r) == NodeStrings(n)
  {
    match f
    case NetSpeedBytes => n.(netSpeedBytes := v)
    case CpuCapacity => n.(cpuCapacity := v)
    case MemCapacity => n.(memCapacity := v)
    case EphemeralStorageCapacity => n.(ephemeralStorageCapacity := v)
    case PodsCapacity => n.(podsCapacity := v)
    case Hugepages2MiCapacity => n.(hugepages2MiCapacity := v)
    case CpuAllocatable => n.(cpuAllocatable := v)
    case MemAllocatable => n.(memAllocatable := v)
    case EphemeralStorageAllocatable => n.(ephemeralStorageAllocatable := v)
    case PodsAllocatable => n.(podsAllocatable := v)
    case Hugepages2MiAllocatable => n.(hugepages2MiAllocatable := v)
    case CpuLimit => n.(cpuLimit := v)
    case CpuRequest => n.(cpuRequest := v)
    case MemLimit => n.(memLimit := v)
    case MemRequest => n.(memRequest := v)
  }

  /** The field one series of `getNodeMetric` writes, if any. */
  function SeriesField(metric: string, s: Series): Option<NodeField>
  {
    NodeFieldOf(metric, GetOr(s.labels, "resource"))
  }

  // ---------------------------------------------------------------------------------------
  // Metric binder

  /** One series of `getNodeMetric`. */
  function BindNode(nodes: Nodes, nodeL: string, metric: string, s: Series): Nodes
  {
    match ResolveNode(nodes, s.labels, nodeL)
    case None => nodes
    case Some(n) =>
      match SeriesField(metric, s)
      case None => nodes
      case Some(f) => nodes[n := WithNodeField(nodes[n], f, LastSample(s.samples))]
  }

  /** `getNodeMetric` over a whole result, series by series. */
  function NodeMetric(nodes: Nodes, nodeL: string, metric: string, result: seq<Series>): Nodes
    decreases |result|
  {
    if result == [] then nodes
    else BindNode(NodeMetric(nodes, nodeL, metric, result[..|result| - 1]), nodeL, metric, result[|result| - 1])
  }

  /** The value of the last series that names node `n` and selects field `g`, if any does. */
  function LastForField(nodes: Nodes, nodeL: string, metric: string, result: seq<Series>, n: string, g: NodeField): Option<int>
    decreases |result|
  {
    if result == [] then None
    else
      var s := result[|result| - 1];
      if ResolveNode(nodes, s.labels, nodeL) == Some(n) && SeriesField(metric, s) == Some(g) then Some(LastSample(s.samples))
      else LastForField(nodes, nodeL, metric, result[..|result| - 1], n, g)
  }

  /** One series changes at most the field its metric and resource select, of the node it
      names, to its last sample (0 when it has none); a series with no node label, naming an
      unknown node, or selecting no field changes nothing. */
  lemma BindNodeEffect(nodes: Nodes, nodeL: string, metric: string, s: Series)
    ensures var r := BindNode(nodes, nodeL, metric, s);
            var n := ResolveNode(nodes, s.labels, nodeL);
            var f := SeriesField(metric, s);
            && r.Keys == nodes.Keys
            && (n.None? || f.None? ==> r == nodes)
            && (n.Some? && f.Some? ==> r == nodes[n.value := WithNodeField(nodes[n.value], f.value, LastSample(s.samples))])
  {
  }

  /** One series of `getNodeMetric`, seen from one field of one node. */
  lemma BindNodeAt(nodes: Nodes, nodeL: string, metric: string, s: Series, n: string, g: NodeField)
    requires n in nodes
    ensures var r := BindNode(nodes, nodeL, metric, s);
            && r.Keys == nodes.Keys
            && NodeStrings(r[n]) == NodeStrings(nodes[n])
            && NodeFieldValue(r[n], g) ==
                 if ResolveNode(nodes, s.labels, nodeL) == Some(n) && SeriesField(metric, s) == Some(g)
                 then LastSample(s.samples) else NodeFieldValue(nodes[n], g)
  {
  }

  /** `getNodeMetric` never creates or removes a node. */
  lemma {:induction false} NodeMetricKeys(nodes: Nodes, nodeL: string, metric: string, result: seq<Series>)
    ensures NodeMetric(nodes, nodeL, metric, result).Keys == nodes.Keys
    decreases |result|
  {
    if result != [] {
      NodeMetricKeys(nodes, nodeL, metric, result[..|result| - 1]);
    }
  }

  /** After `getNodeMetric`, each field of a node holds the last sample (0 for an empty series)
      of the last series that names the node and selects that field, and is otherwise as
      before; the label fields never change. */
  lemma {:induction false} NodeMetricLastWins(nodes: Nodes, nodeL: string, metric: string, result: seq<Series>, n: string, g: NodeField)
    requires n in nodes
    ensures var r := NodeMetric(nodes, nodeL, metric, result);
            var last := LastForField(nodes, nodeL, metric, result, n, g);
            && n in r
            && NodeStrings(r[n]) == NodeStrings(nodes[n])
            && NodeFieldValue(r[n], g) == if last.Some? then last.value else NodeFieldValue(nodes[n], g)
    decreases |result|
  {
    if result != [] {
      var front := result[..|result| - 1];
      var s := result[|result| - 1];
      NodeMetricLastWins(nodes, nodeL, metric, front, n, g);
      NodeMetricKeys(nodes, nodeL, metric, front);
      var m := NodeMetric(nodes, nodeL, metric, front);
      assert ResolveNode(m, s.labels, nodeL) == ResolveNode(nodes, s.labels, nodeL);
      BindNodeAt(m, nodeL, metric, s, n, g);
    }
  }

  /** A field no series of the result can select keeps its value on every node. */
  lemma {:induction false} NodeMetricUntouched(nodes: Nodes, nodeL: string, metric: string, result: seq<Series>, n: string, g: NodeField)
    requires n in nodes
    requires forall i :: 0 <= i < |result| ==> SeriesField(metric, result[i]) != Some(g)
    ensures n in NodeMetric(nodes, nodeL, metric, result)
    ensures NodeFieldValue(NodeMetric(nodes, nodeL, metric, result)[n], g) == NodeFieldValue(nodes[n], g)
  {
    NodeMetricLastWins(nodes, nodeL, metric, result, n, g);
    LastForFieldNone(nodes, nodeL, metric, result, n, g);
  }

  lemma {:induction false} LastForFieldNone(nodes: Nodes, nodeL: string, metric: string, result: seq<Series>, n: string, g: NodeField)
    requires forall i :: 0 <= i < |result| ==> SeriesField(metric, result[i]) != Some(g)
    ensures LastForField(nodes, nodeL, metric, result, n, g).None?
    decreases |result|
  {
    if result != [] {
      LastForFieldNone(nodes, nodeL, metric, result[..|result| - 1], n, g);
    }
  }

  /** A metric name `getNodeMetric` does not know leaves every node unchanged. */
  lemma {:induction false} NodeMetricUnknown(nodes: Nodes, nodeL: string, metric: string, result: seq<Series>)
    requires metric !in NodeMetricNames
    ensures NodeMetric(nodes, nodeL, metric, result) == nodes
    decreases |result|
  {
    if result != [] {
      NodeMetricUnknown(nodes, nodeL, metric, result[..|result| - 1]);
    }
  }

  /** A matched series without samples binds 0: it overwrites whatever the field held, the -1
      sentinel of discovery included. */
  lemma EmptySeriesBindsZero(nodes: Nodes, nodeL: string, metric: string, s: Series, n: string, f: NodeField)
    requires n in nodes && Get(s.labels, nodeL) == Some(n) && s.samples == []
    requires SeriesField(metric, s) == Some(f)
    ensures NodeFieldValue(BindNode(nodes, nodeL, metric, s)[n], f) == 0
  {
    assert LastSample(s.samples) == 0;
  }

  // ---------------------------------------------------------------------------------------
  // Label aggregator

  /** The series of a result, each paired with the node it resolves to. */
  function NodeItems(nodes: Nodes, nodeL: string, result: seq<Series>): seq<Item<string>>
  {
    seq(|result|, i requires 0 <= i < |result| => (ResolveNode(nodes, result[i].labels, nodeL), result[i].labels))
  }

  /** The temporary structure `getNodeMetricString` builds (Go gate), with the facts its render
      phase needs: each node is known and renders to a non-empty string (the node label,
      shorter than 250, is always among its keys). */
  function NodeTemp(nodes: Nodes, nodeL: string, result: seq<Series>): (t: Temp<string>)
    requires |nodeL| < KeyLimit
    ensures t == CollectAll(AppendIfContained, NodeItems(nodes, nodeL, result))
    ensures t.Valid() && Renderable(GoBudget, t)
    ensures forall i :: 0 <= i < |t.ids| ==> t.ids[i] in t.accs && t.ids[i] in nodes
  {
    TempRenderable(AppendIfContained, GoBudget, NodeItems(nodes, nodeL, result), nodeL);
    CollectAll(AppendIfContained, NodeItems(nodes, nodeL, result))
  }

  /** One node after the render loop: the rendered string without its final `|` becomes
      `nodeLabel` when the metric is `nodeLabel`; any other metric name writes nothing. */
  function WriteNodeLabel(n: Node, metric: string, acc: Acc): Node
    requires acc.Valid() && Render(GoBudget, acc.order, acc.vals) != ""
  {
    if metric == "nodeLabel" then n.(nodeLabel := DropLast(Render(GoBudget, acc.order, acc.vals))) else n
  }

  /** `t` is a well-formed temporary structure whose every entity renders to a non-empty
      string and names a node of `nodes`. */
  ghost predicate NodeTempFits(nodes: Nodes, t: Temp<string>)
  {
    && t.Valid() && Renderable(GoBudget, t)
    && forall i :: 0 <= i < |t.ids| ==> t.ids[i] in t.accs && t.ids[i] in nodes
  }

  /** The render phase of `getNodeMetricString` over the first `k` nodes of `t`. */
  function ApplyNodeLabels(nodes: Nodes, metric: string, t: Temp<string>, k: nat): (r: Nodes)
    requires NodeTempFits(nodes, t)
    requires k <= |t.ids|
    ensures r.Keys == nodes.Keys
  {
    if k == 0 then nodes
    else
      var m := ApplyNodeLabels(nodes, metric, t, k - 1);
      var id := t.ids[k - 1];
      m[id := WriteNodeLabel(m[id], metric, t.accs[id])]
  }

  /** `getNodeMetricString`: merge the labels of the series (Go gate), then render each node's
      map and apply its write. */
  function NodeLabels(nodes: Nodes, nodeL: string, metric: string, result: seq<Series>): Nodes
    requires |nodeL| < KeyLimit
  {
    var t := NodeTemp(nodes, nodeL, result);
    ApplyNodeLabels(nodes, metric, t, |t.ids|)
  }

  /** The render phase, seen from one node. */
  lemma {:induction false} ApplyNodeLabelsAt(nodes: Nodes, metric: string, t: Temp<string>, k: nat, n: string)
    requires NodeTempFits(nodes, t)
    requires k <= |t.ids| && n in nodes
    ensures n in ApplyNodeLabels(nodes, metric, t, k)
    ensures ApplyNodeLabels(nodes, metric, t, k)[n] ==
              if n in t.ids[..k] then WriteNodeLabel(nodes[n], metric, t.accs[n]) else nodes[n]
  {
    if k > 0 {
      ApplyNodeLabelsAt(nodes, metric, t, k - 1, n);
      PrefixStep(t.ids, k, n);
    }
  }

  /** `getNodeMetricString` creates and removes nothing; for `nodeLabel`, a node some series
      resolved to has the rendered string minus its final `|` as its label and is otherwise
      unchanged; every other node, and every node under any other metric name, is unchanged. */
  lemma NodeLabelsAt(nodes: Nodes, nodeL: string, metric: string, result: seq<Series>, n: string)
    requires |nodeL| < KeyLimit && n in nodes
    ensures var t := NodeTemp(nodes, nodeL, result);
            var r := NodeLabels(nodes, nodeL, metric, result);
            && r.Keys == nodes.Keys
            && r[n] == if n in t.accs && metric == "nodeLabel"
                       then nodes[n].(nodeLabel := DropLast(Render(GoBudget, t.accs[n].order, t.accs[n].vals)))
                       else nodes[n]
  {
    var t := NodeTemp(nodes, nodeL, result);
    ApplyNodeLabelsAt(nodes, metric, t, |t.ids|, n);
    assert t.ids[..|t.ids|] == t.ids;
  }

  /** The nodes `getNodeMetricString` renders are exactly those some series resolves to. */
  lemma NodeTempIds(nodes: Nodes, nodeL: string, result: seq<Series>, n: string)
    requires |nodeL| < KeyLimit
    ensures n in NodeTemp(nodes, nodeL, result).accs <==> exists i :: 0 <= i < |result| && ResolveNode(nodes, result[i].labels, nodeL) == Some(n)
  {
    var items := NodeItems(nodes, nodeL, result);
    CollectAllIds(AppendIfContained, items, n);
    if n in NodeTemp(nodes, nodeL, result).accs {
      var i :| 0 <= i < |items| && items[i].0 == Some(n);
      assert ResolveNode(nodes, result[i].labels, nodeL) == Some(n);
    } else {
      forall i | 0 <= i < |result| ensures ResolveNode(nodes, result[i].labels, nodeL) != Some(n) {
        assert items[i].0 != Some(n);
      }
    }
  }

}
