/** The node collector as the Go code runs it: the package-level `nodes` map updated in place by
    `getNodeMetric` and `getNodeMetricString`, and the history-window loop of `getWorkload`
    (internal/node/collection.go). */
module NodeIngest {
  import opened Labels
  import opened Merge
  import opened Rendering
  import opened NodeCollection

  /** The render loop of `getNodeMetricString` for one node. */
  method RenderNode(n0: Node, metric: string, acc: Acc) returns (n: Node)
    requires acc.Valid() && Render(GoBudget, acc.order, acc.vals) != ""
    ensures n == WriteNodeLabel(n0, metric, acc)
  {
    var tempAttr := RenderAttr(GoBudget, acc.order, acc.vals);
    tempAttr := DropLast(tempAttr);
    n := n0;
    if metric == "nodeLabel" {
      n := n.(nodeLabel := tempAttr);
    }
  }

  /** The node store of the node collector. */
  class NodeStore {
    var nodes: Nodes

    /** The store before discovery: the package-level map starts empty. */
    constructor()
      ensures nodes == map[]
    {
      nodes := map[];
    }

    /** One series of `getNodeMetric`: skip it without a node label or for an unknown node,
        otherwise set the one field the metric (and, for `capacity`/`allocatable`, the
        `resource` label) selects. */
    method BindNodeSeries(s: Series, nodeL: string, metric: string)
      modifies this
      ensures nodes == BindNode(old(nodes), nodeL, metric, s)
    {
      var nodeValue := Get(s.labels, nodeL);
      if nodeValue.None? || nodeValue.value !in nodes {
        return;
      }
      var value := 0;
      if |s.samples| != 0 {
        value := s.samples[|s.samples| - 1];
      }
      var n := nodeValue.value;
      assert ResolveNode(nodes, s.labels, nodeL) == Some(n);
      match NodeFieldOf(metric, GetOr(s.labels, "resource"))
      case Some(f) =>
        nodes := nodes[n := WithNodeField(nodes[n], f, value)];
      case None =>
    }

    /** `getNodeMetric(result, node, metric)`. */
    method GetNodeMetric(result: seq<Series>, nodeL: string, metric: string)
      modifies this
      ensures nodes == NodeMetric(old(nodes), nodeL, metric, result)
    {
      for i := 0 to |result|
        invariant nodes == NodeMetric(old(nodes), nodeL, metric, result[..i])
      {
        assert result[..i + 1][..i] == result[..i];
        BindNodeSeries(result[i], nodeL, metric);
      }
      assert result[..|result|] == result;
    }

    /** `getNodeMetricString(result, node, metric)`; the node label name must be shorter than
        250 characters, or the final `tempAttr[:len-1]` could meet an empty string. */
    method GetNodeMetricString(result: seq<Series>, nodeL: string, metric: string)
      requires |nodeL| < KeyLimit
      modifies this
      ensures nodes == NodeLabels(old(nodes), nodeL, metric, result)
    {
      var temp := Collect(AppendIfContained, NodeItems(nodes, nodeL, result));
      assert temp == NodeTemp(nodes, nodeL, result);
      nodes := NodeRenderPhase(nodes, metric, temp);
    }
  }

  /** The render phase of `getNodeMetricString`: one render and write per node of `temp`. */
  method NodeRenderPhase(nodes0: Nodes, metric: string, temp: Temp<string>) returns (nodes: Nodes)
    requires NodeTempFits(nodes0, temp)
    ensures nodes == ApplyNodeLabels(nodes0, metric, temp, |temp.ids|)
  {
    nodes := nodes0;
    for k := 0 to |temp.ids|
      invariant nodes == ApplyNodeLabels(nodes0, metric, temp, k)
    {
      nodes := WriteNodeAt(nodes0, metric, temp, k, nodes);
    }
  }

  /** One iteration of the node render phase: the `k`-th node of `temp`. */
  method WriteNodeAt(nodes0: Nodes, metric: string, temp: Temp<string>, k: nat, nodes: Nodes) returns (r: Nodes)
    requires NodeTempFits(nodes0, temp) && k < |temp.ids|
    requires nodes == ApplyNodeLabels(nodes0, metric, temp, k)
    ensures r == ApplyNodeLabels(nodes0, metric, temp, k + 1)
  {
    var kn := temp.ids[k];
    var n := RenderNode(nodes[kn], metric, temp.accs[kn]);
    r := nodes[kn := n];
  }

  // ---------------------------------------------------------------------------------------
  // History windows

  /** What the node `getWorkload` does, in order. The query text and the rows written are not
      modelled; each window is named by its offset, and each write by the Prometheus address
      and cluster name `writeWorkload` receives. */
  datatype NodeWorkloadEvent =
    | NodeHeader
    | NodeQuery(offset: int)
    | NodeWriteRows(offset: int, promAddress: string, cluster: string)
    | NodeClose

  /** The windows with offsets 0 .. n-1, in that order: one query and one write each. */
  function NodeWindows(n: nat, promAddress: string, cluster: string): seq<NodeWorkloadEvent>
  {
    if n == 0 then [] else NodeWindows(n - 1, promAddress, cluster) + [NodeQuery(n - 1), NodeWriteRows(n - 1, promAddress, cluster)]
  }

  /** The window loop issues exactly one query per offset, each followed by its write, with
      offsets 0, 1, .. n-1 in increasing order. */
  lemma {:induction false} NodeWindowsAt(n: nat, promAddress: string, cluster: string, i: int)
    requires 0 <= i < n
    ensures |NodeWindows(n, promAddress, cluster)| == 2 * n
    ensures NodeWindows(n, promAddress, cluster)[2 * i] == NodeQuery(i)
    ensures NodeWindows(n, promAddress, cluster)[2 * i + 1] == NodeWriteRows(i, promAddress, cluster)
  {
    NodeWindowsLength(n - 1, promAddress, cluster);
    if i < n - 1 {
      NodeWindowsAt(n - 1, promAddress, cluster, i);
    }
  }

  lemma {:induction false} NodeWindowsLength(n: nat, promAddress: string, cluster: string)
    ensures |NodeWindows(n, promAddress, cluster)| == 2 * n
  {
    if n > 0 {
      NodeWindowsLength(n - 1, promAddress, cluster);
    }
  }

  /** `getWorkload` of the node collector: the cluster is the configured cluster name, or the
      Prometheus address when that is empty; a file that cannot be created ends the call with
      the logged error before any query; otherwise the header, one query and write per
      window for `history` windows, and the close. */
  method NodeWorkload(clusterName: string, promAddress: string, history: int, createOk: bool)
    returns (trace: seq<NodeWorkloadEvent>, failed: bool)
    ensures failed <==> !createOk
    ensures !createOk ==> trace == []
    ensures createOk ==>
              trace == [NodeHeader] + NodeWindows(if history > 0 then history else 0, promAddress,
                                                  if clusterName == "" then promAddress else clusterName) + [NodeClose]
  {
    var cluster: string;
    if clusterName == "" {
      cluster := promAddress;
    } else {
      cluster := clusterName;
    }
    trace := [];
    if !createOk {
      failed := true;
      return;
    }
    failed := false;
    trace := trace + [NodeHeader];
    var historyInterval := 0;
    while historyInterval < history
      invariant 0 <= historyInterval <= (if history > 0 then history else 0)
      invariant trace == [NodeHeader] + NodeWindows(historyInterval, promAddress, cluster)
    {
      trace := trace + [NodeQuery(historyInterval)];
      trace := trace + [NodeWriteRows(historyInterval, promAddress, cluster)];
      historyInterval := historyInterval + 1;
    }
    trace := trace + [NodeClose];
  }
}
