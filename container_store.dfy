/** The container collector as the Go code runs it: the package-level `systems` store updated in
    place by the binders and aggregators, and the history-window loop of `getWorkload`
    (internal/container/collection.go). */
module ContainerIngest {
  import opened Labels
  import opened Merge
  import opened Rendering
  import opened ContainerCollection

  /** The render loop of `getContainerMetricString` for one container: `tempAttr +=` the
      segment of every key, with the `instance`/`pod` side effects, then the trailing `|`
      stripped and the result stored as the metric says. */
  method RenderContainer(c0: Container, metric: string, acc: Acc) returns (c: Container)
    requires acc.Valid() && Render(GoBudget, acc.order, acc.vals) != ""
    ensures c == WriteContainerLabels(c0, metric, acc)
  {
    c := c0;
    var tempAttr := "";
    var keys := acc.order;
    for j := 0 to |keys|
      invariant tempAttr == Render(GoBudget, keys[..j], acc.vals)
      invariant c == ContainerLabelEffects(c0, metric, keys[..j], acc.vals)
    {
      assert keys[..j + 1][..j] == keys[..j];
      var key := keys[j];
      var value := acc.vals[key];
      tempAttr := tempAttr + Piece(GoBudget, key, value);
      if metric == "conLabel" && key == "instance" {
        c := c.(currentNodes := c.currentNodes + Replace(value, ';', '|') + "|");
      } else if metric == "conInfo" && key == "pod" {
        c := c.(podName := value);
      }
    }
    assert keys[..|keys|] == keys;
    RenderLoopWrites(c0, metric, acc);
    tempAttr := DropLast(tempAttr);
    if metric == "conInfo" {
      c := c.(conInfo := tempAttr);
    } else if metric == "conLabel" {
      c := c.(conLabel := tempAttr);
    }
  }

  /** The render loop of `getPodMetricString` for one pod, the trailing `|` stripped and the
      result stored as the metric says. */
  method RenderPod(p0: Pod, metric: string, acc: Acc) returns (p: Pod)
    requires acc.Valid() && Render(GoBudget, acc.order, acc.vals) != ""
    ensures p == WritePodLabels(p0, metric, acc)
  {
    var tempAttr := RenderAttr(GoBudget, acc.order, acc.vals);
    tempAttr := DropLast(tempAttr);
    p := p0;
    if metric == "podInfo" {
      p := p.(podInfo := tempAttr);
    } else if metric == "podLabel" {
      p := p.(podLabel := tempAttr);
    } else if metric == "controllerLabel" {
      p := p.(controllerLabel := tempAttr);
    }
  }

  /** The render loop of `getNamespaceMetricString` for one namespace. */
  method RenderNamespace(ns0: Namespace, metric: string, acc: Acc) returns (ns: Namespace)
    requires acc.Valid() && Render(GoBudget, acc.order, acc.vals) != ""
    ensures ns == WriteNamespaceLabel(ns0, metric, acc)
  {
    var tempAttr := RenderAttr(GoBudget, acc.order, acc.vals);
    tempAttr := DropLast(tempAttr);
    ns := ns0;
    if metric == "namespaceLabel" {
      ns := ns.(namespaceLabel := tempAttr);
    }
  }

  /** The entity store of the container collector. */
  class ContainerStore {
    var systems: Systems

    /** The store as discovery left it. */
    constructor(discovered: Systems)
      ensures systems == discovered
    {
      systems := discovered;
    }

    /** One series of `getContainerMetric`: the nested `if` chain that finds the namespace, the
        pod and the container, and the `metric` dispatch that sets one field. */
    method BindContainerSeries(s: Series, nsL: string, podL: string, conL: string, metric: string)
      modifies this
      ensures systems == BindContainer(old(systems), nsL, podL, conL, metric, s)
    {
      var nsv := Get(s.labels, nsL);
      if nsv.Some? && nsv.value in systems {
        var podv := Get(s.labels, podL);
        if podv.Some? && podv.value in systems[nsv.value].pods {
          var conv := Get(s.labels, conL);
          if conv.Some? && conv.value in systems[nsv.value].pods[podv.value].containers {
            var value := if |s.samples| == 0 then 0 else s.samples[|s.samples| - 1];
            var c := ContainerPath(nsv.value, podv.value, conv.value);
            assert ResolveContainer(systems, s.labels, nsL, podL, conL) == Some(c);
            match ContainerFieldOf(metric)
            case Some(f) =>
              systems := PutContainer(systems, c, WithField(ContainerAt(systems, c), f, value));
            case None =>
          }
        }
      }
    }

    /** `getContainerMetric(result, namespace, pod, container, metric)`. */
    method GetContainerMetric(result: seq<Series>, nsL: string, podL: string, conL: string, metric: string)
      modifies this
      ensures systems == ContainerMetric(old(systems), nsL, podL, conL, metric, result)
    {
      for i := 0 to |result|
        invariant systems == ContainerMetric(old(systems), nsL, podL, conL, metric, result[..i])
      {
        assert result[..i + 1][..i] == result[..i];
        BindContainerSeries(result[i], nsL, podL, conL, metric);
      }
      assert result[..|result|] == result;
    }

    /** One series of `getPodMetric`. */
    method BindPodSeries(s: Series, nsL: string, podL: string, metric: string)
      modifies this
      ensures systems == BindPod(old(systems), nsL, podL, metric, s)
    {
      var nsv := Get(s.labels, nsL);
      if nsv.Some? && nsv.value in systems {
        var podv := Get(s.labels, podL);
        if podv.Some? && podv.value in systems[nsv.value].pods {
          var value := if |s.samples| == 0 then 0 else s.samples[|s.samples| - 1];
          var p := PodPath(nsv.value, podv.value);
          var x := PodAt(systems, p);
          if metric == "currentSize" {
            systems := PutPod(systems, p, x.(currentSize := value));
          } else if metric == "creationTime" {
            systems := PutPod(systems, p, x.(creationTime := value));
          }
        }
      }
    }

    /** `getPodMetric(result, namespace, pod, metric)`. */
    method GetPodMetric(result: seq<Series>, nsL: string, podL: string, metric: string)
      modifies this
      ensures systems == PodMetric(old(systems), nsL, podL, metric, result)
    {
      for i := 0 to |result|
        invariant systems == PodMetric(old(systems), nsL, podL, metric, result[..i])
      {
        assert result[..i + 1][..i] == result[..i];
        BindPodSeries(result[i], nsL, podL, metric);
      }
      assert result[..|result|] == result;
    }

    /** One series of `getNamespacelimits`: the `constraint` and `resource` labels choose the
        field. */
    method BindLimitSeries(s: Series, nsL: string)
      modifies this
      ensures systems == BindLimit(old(systems), nsL, s)
    {
      var nsv := Get(s.labels, nsL);
      if nsv.Some? && nsv.value in systems {
        var value := if |s.samples| == 0 then 0 else s.samples[|s.samples| - 1];
        var n := nsv.value;
        var ns := systems[n];
        assert ResolveNamespace(systems, s.labels, nsL) == Some(n);
        match NamespaceFieldOf(GetOr(s.labels, "constraint"), GetOr(s.labels, "resource"))
        case Some(f) =>
          systems := PutNamespace(systems, n, WithNamespaceField(ns, f, value));
        case None =>
      }
    }

    /** `getNamespacelimits(result, namespace)`. */
    method GetNamespaceLimits(result: seq<Series>, nsL: string)
      modifies this
      ensures systems == NamespaceLimits(old(systems), nsL, result)
    {
      for i := 0 to |result|
        invariant systems == NamespaceLimits(old(systems), nsL, result[..i])
      {
        assert result[..i + 1][..i] == result[..i];
        BindLimitSeries(result[i], nsL);
      }
      assert result[..|result|] == result;
    }

    /** `getContainerMetricString(result, namespace, pod, container, metric)`; the namespace
        label name must be shorter than 250 characters, or the final `tempAttr[:len-1]` could
        meet an empty string. */
    method GetContainerMetricString(result: seq<Series>, nsL: string, podL: string, conL: string, metric: string)
      requires |nsL| < KeyLimit
      modifies this
      ensures systems == ContainerLabels(old(systems), nsL, podL, conL, metric, result)
    {
      var temp := Collect(AppendIfContained, ContainerItems(systems, nsL, podL, conL, result));
      assert temp == ContainerTemp(systems, nsL, podL, conL, result);
      systems := ContainerRenderPhase(systems, metric, temp);
    }

    /** `getPodMetricString(result, namespace, pod, metric)`. */
    method GetPodMetricString(result: seq<Series>, nsL: string, podL: string, metric: string)
      requires |nsL| < KeyLimit
      modifies this
      ensures systems == PodLabels(old(systems), nsL, podL, metric, result)
    {
      var temp := Collect(AppendIfContained, PodItems(systems, nsL, podL, result));
      assert temp == PodTemp(systems, nsL, podL, result);
      systems := PodRenderPhase(systems, metric, temp);
    }

    /** `getNamespaceMetricString(result, namespace, metric)`. */
    method GetNamespaceMetricString(result: seq<Series>, nsL: string, metric: string)
      requires |nsL| < KeyLimit
      modifies this
      ensures systems == NamespaceLabels(old(systems), nsL, metric, result)
    {
      var temp := Collect(AppendIfContained, NamespaceItems(systems, nsL, result));
      assert temp == NamespaceTemp(systems, nsL, result);
      systems := NamespaceRenderPhase(systems, metric, temp);
    }
  }

  /** The render phase of `getContainerMetricString`: one render and write per container of
      `temp`, in first-seen order. */
  method ContainerRenderPhase(sys0: Systems, metric: string, temp: Temp<ContainerPath>) returns (sys: Systems)
    requires ContainerTempFits(sys0, temp)
    ensures sys == ApplyContainerLabels(sys0, metric, temp, |temp.ids|)
  {
    sys := sys0;
    for k := 0 to |temp.ids|
      invariant sys == ApplyContainerLabels(sys0, metric, temp, k)
    {
      sys := WriteContainerAt(sys0, metric, temp, k, sys);
    }
  }

  /** One iteration of the container render phase: the `k`-th container of `temp`. */
  method WriteContainerAt(sys0: Systems, metric: string, temp: Temp<ContainerPath>, k: nat, sys: Systems) returns (r: Systems)
    requires ContainerTempFits(sys0, temp) && k < |temp.ids|
    requires sys == ApplyContainerLabels(sys0, metric, temp, k)
    ensures r == ApplyContainerLabels(sys0, metric, temp, k + 1)
  {
    var id := temp.ids[k];
    ShapeHas(sys0, sys, id);
    var c := RenderContainer(ContainerAt(sys, id), metric, temp.accs[id]);
    r := PutContainer(sys, id, c);
  }

  /** The render phase of `getPodMetricString`: one render and write per pod of `temp`. */
  method PodRenderPhase(sys0: Systems, metric: string, temp: Temp<PodPath>) returns (sys: Systems)
    requires PodTempFits(sys0, temp)
    ensures sys == ApplyPodLabels(sys0, metric, temp, |temp.ids|)
  {
    sys := sys0;
    for k := 0 to |temp.ids|
      invariant sys == ApplyPodLabels(sys0, metric, temp, k)
    {
      sys := WritePodAt(sys0, metric, temp, k, sys);
    }
  }

  /** One iteration of the pod render phase: the `k`-th pod of `temp`. */
  method WritePodAt(sys0: Systems, metric: string, temp: Temp<PodPath>, k: nat, sys: Systems) returns (r: Systems)
    requires PodTempFits(sys0, temp) && k < |temp.ids|
    requires sys == ApplyPodLabels(sys0, metric, temp, k)
    ensures r == ApplyPodLabels(sys0, metric, temp, k + 1)
  {
    var id := temp.ids[k];
    ShapeHasPod(sys0, sys, id);
    var p := RenderPod(PodAt(sys, id), metric, temp.accs[id]);
    r := PutPod(sys, id, p);
  }

  /** The render phase of `getNamespaceMetricString`: one render and write per namespace of
      `temp`. */
  method NamespaceRenderPhase(sys0: Systems, metric: string, temp: Temp<string>) returns (sys: Systems)
    requires NamespaceTempFits(sys0, temp)
    ensures sys == ApplyNamespaceLabels(sys0, metric, temp, |temp.ids|)
  {
    sys := sys0;
    for k := 0 to |temp.ids|
      invariant sys == ApplyNamespaceLabels(sys0, metric, temp, k)
    {
      sys := WriteNamespaceAt(sys0, metric, temp, k, sys);
    }
  }

  /** One iteration of the namespace render phase: the `k`-th namespace of `temp`. */
  method WriteNamespaceAt(sys0: Systems, metric: string, temp: Temp<string>, k: nat, sys: Systems) returns (r: Systems)
    requires NamespaceTempFits(sys0, temp) && k < |temp.ids|
    requires sys == ApplyNamespaceLabels(sys0, metric, temp, k)
    ensures r == ApplyNamespaceLabels(sys0, metric, temp, k + 1)
  {
    var id := temp.ids[k];
    var ns := RenderNamespace(sys[id], metric, temp.accs[id]);
    r := PutNamespace(sys, id, ns);
  }

  // ---------------------------------------------------------------------------------------
  // History windows

  /** The two owner groups of a container workload query: series whose pod has an owner
      (`owner_kind!="<none>"`, grouped by owner) and series whose pod has none (grouped by pod). */
  datatype Owner = Owned | Unowned

  /** What `getWorkload` does, in order. The query text and the rows written are not modelled;
      each window is named by its offset, the argument `prometheus.TimeRange` receives. */
  datatype WorkloadEvent =
    | CreateFailedLogged
    | Header
    | Query(offset: int, owner: Owner)
    | WriteRows(offset: int, owner: Owner)
    | Close

  /** The four events of one history window. */
  function Window(offset: int): seq<WorkloadEvent>
  {
    [Query(offset, Owned), WriteRows(offset, Owned), Query(offset, Unowned), WriteRows(offset, Unowned)]
  }

  /** The windows with offsets 0 .. n-1, in that order. */
  function Windows(n: nat): seq<WorkloadEvent>
  {
    if n == 0 then [] else Windows(n - 1) + Window(n - 1)
  }

  /** The window loop issues exactly four events per offset: event 4i + j belongs to offset i,
      the owned query and its write come before the unowned ones, and offsets increase. */
  lemma {:induction false} WindowsAt(n: nat, k: int)
    requires 0 <= k < 4 * n
    ensures |Windows(n)| == 4 * n
    ensures Windows(n)[k] == Window(k / 4)[k % 4]
  {
    if n > 0 {
      WindowsLength(n - 1);
      if k < 4 * (n - 1) {
        WindowsAt(n - 1, k);
      }
    }
  }

  lemma {:induction false} WindowsLength(n: nat)
    ensures |Windows(n)| == 4 * n
  {
    if n > 0 {
      WindowsLength(n - 1);
    }
  }

  /** `getWorkload`: create the file (a failure is only logged and the loop still runs), write
      the header, query and write once per owner group for each of the `history` windows, and
      close the file. */
  method ContainerWorkload(history: int, createOk: bool) returns (trace: seq<WorkloadEvent>)
    ensures trace == (if createOk then [] else [CreateFailedLogged]) + [Header] + Windows(if history > 0 then history else 0) + [Close]
  {
    trace := [];
    if !createOk {
      trace := trace + [CreateFailedLogged];
    }
    trace := trace + [Header];
    ghost var start := trace;
    var historyInterval := 0;
    while historyInterval < history
      invariant 0 <= historyInterval <= (if history > 0 then history else 0)
      invariant trace == start + Windows(historyInterval)
    {
      trace := trace + [Query(historyInterval, Owned)];
      trace := trace + [WriteRows(historyInterval, Owned)];
      trace := trace + [Query(historyInterval, Unowned)];
      trace := trace + [WriteRows(historyInterval, Unowned)];
      historyInterval := historyInterval + 1;
    }
    trace := trace + [Close];
  }
}
