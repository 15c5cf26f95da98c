/** The namespace -> pod -> container store of the container collector and the functions that
    fill it from query results: the metric binders `getContainerMetric`, `getPodMetric`,
    `getNamespacelimits`, the label aggregators `getContainerMetricString`,
    `getPodMetricString`, `getNamespaceMetricString`, and the history-window loop of
    `getWorkload` (internal/container/collection.go). */
module ContainerCollection {
  import opened Labels
  import opened Merge
  import opened Rendering

  datatype Container = Container(
    cpuLimit: int, cpuRequest: int, memLimit: int, memRequest: int, restarts: int, powerState: int,
    conInfo: string, conLabel: string, currentNodes: string, podName: string)

  datatype Pod = Pod(
    currentSize: int, creationTime: int, podInfo: string, podLabel: string, controllerLabel: string,
    containers: map<string, Container>)

  datatype Namespace = Namespace(
    cpuLimit: int, cpuRequest: int, memLimit: int, memRequest: int, namespaceLabel: string,
    pods: map<string, Pod>)

  /** The package-level `systems` map. */
  type Systems = map<string, Namespace>

  datatype PodPath = PodPath(ns: string, pod: string)
  datatype ContainerPath = ContainerPath(ns: string, pod: string, con: string)

  predicate HasPod(sys: Systems, p: PodPath)
  {
    p.ns in sys && p.pod in sys[p.ns].pods
  }

  predicate HasContainer(sys: Systems, c: ContainerPath)
  {
    c.ns in sys && c.pod in sys[c.ns].pods && c.con in sys[c.ns].pods[c.pod].containers
  }

  function ContainerAt(sys: Systems, c: ContainerPath): Container
    requires HasContainer(sys, c)
  {
    sys[c.ns].pods[c.pod].containers[c.con]
  }

  function PodAt(sys: Systems, p: PodPath): Pod
    requires HasPod(sys, p)
  {
    sys[p.ns].pods[p.pod]
  }

  /** The same namespaces, pods and containers: nothing created, nothing removed. */
  ghost predicate SameShape(a: Systems, b: Systems)
  {
    && a.Keys == b.Keys
    && (forall n :: n in a ==> a[n].pods.Keys == b[n].pods.Keys)
    && (forall n, p :: n in a && p in a[n].pods ==> a[n].pods[p].containers.Keys == b[n].pods[p].containers.Keys)
  }

  /** Replaces one container, in place of `systems[ns].pods[pod].containers[con]`. */
  function PutContainer(sys: Systems, c: ContainerPath, x: Container): (r: Systems)
    requires HasContainer(sys, c)
    ensures HasContainer(r, c) && ContainerAt(r, c) == x
  {
    var ns := sys[c.ns];
    var pod := ns.pods[c.pod];
    sys[c.ns := ns.(pods := ns.pods[c.pod := pod.(containers := pod.containers[c.con := x])])]
  }

  /** Replacing one container leaves every other container as it was. */
  lemma PutContainerFrame(sys: Systems, c: ContainerPath, x: Container, d: ContainerPath)
    requires HasContainer(sys, c) && HasContainer(sys, d)
    ensures HasContainer(PutContainer(sys, c, x), d)
    ensures d != c ==> ContainerAt(PutContainer(sys, c, x), d) == ContainerAt(sys, d)
  {
  }

  /** Replacing one container creates and removes nothing. */
  lemma PutContainerSame(sys: Systems, c: ContainerPath, x: Container)
    requires HasContainer(sys, c)
    ensures SameShape(sys, PutContainer(sys, c, x))
  {
  }

  /** Replacing one container creates and removes nothing and leaves every pod and namespace
      field as it was. */
  lemma PutContainerShape(sys: Systems, c: ContainerPath, x: Container)
    requires HasContainer(sys, c)
    ensures SameShape(sys, PutContainer(sys, c, x))
    ensures forall p :: HasPod(sys, p) ==> PodAt(PutContainer(sys, c, x), p).(containers := map[]) == PodAt(sys, p).(containers := map[])
    ensures forall n :: n in sys ==> PutContainer(sys, c, x)[n].(pods := map[]) == sys[n].(pods := map[])
  {
    PutContainerSame(sys, c, x);
    var r := PutContainer(sys, c, x);
    forall p | HasPod(sys, p) ensures PodAt(r, p).(containers := map[]) == PodAt(sys, p).(containers := map[]) {
      if p.ns == c.ns && p.pod == c.pod {
        assert PodAt(r, p) == PodAt(sys, p).(containers := PodAt(sys, p).containers[c.con := x]);
      }
    }
  }

  /** Replaces the scalar fields of one pod, keeping its containers. */
  function PutPod(sys: Systems, p: PodPath, x: Pod): (r: Systems)
    requires HasPod(sys, p) && x.containers == PodAt(sys, p).containers
    ensures HasPod(r, p) && PodAt(r, p) == x
  {
    var ns := sys[p.ns];
    sys[p.ns := ns.(pods := ns.pods[p.pod := x])]
  }

  /** Replacing one pod's fields leaves every other pod, and every container, as it was. */
  lemma PutPodFrame(sys: Systems, p: PodPath, x: Pod, q: PodPath)
    requires HasPod(sys, p) && x.containers == PodAt(sys, p).containers && HasPod(sys, q)
    ensures HasPod(PutPod(sys, p, x), q)
    ensures q != p ==> PodAt(PutPod(sys, p, x), q) == PodAt(sys, q)
    ensures PodAt(PutPod(sys, p, x), q).containers == PodAt(sys, q).containers
  {
  }

  /** Replacing one pod's fields creates and removes nothing. */
  lemma PutPodSame(sys: Systems, p: PodPath, x: Pod)
    requires HasPod(sys, p) && x.containers == PodAt(sys, p).containers
    ensures SameShape(sys, PutPod(sys, p, x))
  {
  }

  /** Replacing one pod's fields creates and removes nothing, and changes no container and no
      namespace field. */
  lemma PutPodShape(sys: Systems, p: PodPath, x: Pod)
    requires HasPod(sys, p) && x.containers == PodAt(sys, p).containers
    ensures SameShape(sys, PutPod(sys, p, x))
    ensures forall d :: HasContainer(sys, d) ==> ContainerAt(PutPod(sys, p, x), d) == ContainerAt(sys, d)
    ensures forall n :: n in sys ==> PutPod(sys, p, x)[n].(pods := map[]) == sys[n].(pods := map[])
  {
  }

  /** Replaces the scalar fields of one namespace, keeping its pods. */
  function PutNamespace(sys: Systems, n: string, x: Namespace): (r: Systems)
    requires n in sys && x.pods == sys[n].pods
    ensures SameShape(sys, r) && r[n] == x
    ensures forall m :: m in sys && m != n ==> r[m] == sys[m]
  {
    sys[n := x]
  }

  // ---------------------------------------------------------------------------------------
  // Metric binders

  /** The container a series names through its namespace, pod and container labels, when all
      three are present and each resolves to an existing entry. */
  function ResolveContainer(sys: Systems, labels: LabelSet, nsL: string, podL: string, conL: string): (r: Option<ContainerPath>)
    ensures r.Some? <==>
              Get(labels, nsL).Some? && Get(labels, podL).Some? && Get(labels, conL).Some? &&
              HasContainer(sys, ContainerPath(Get(labels, nsL).value, Get(labels, podL).value, Get(labels, conL).value))
    ensures r.Some? ==> r.value == ContainerPath(Get(labels, nsL).value, Get(labels, podL).value, Get(labels, conL).value)
  {
    match Get(labels, nsL)
    case None => None
    case Some(n) =>
      if n !in sys then None
      else match Get(labels, podL)
        case None => None
        case Some(p) =>
          if p !in sys[n].pods then None
          else match Get(labels, conL)
            case None => None
            case Some(c) =>
              if c !in sys[n].pods[p].containers then None else Some(ContainerPath(n, p, c))
  }

  /** The pod a series names through its namespace and pod labels. */
  function ResolvePod(sys: Systems, labels: LabelSet, nsL: string, podL: string): (r: Option<PodPath>)
    ensures r.Some? <==>
              Get(labels, nsL).Some? && Get(labels, podL).Some? &&
              HasPod(sys, PodPath(Get(labels, nsL).value, Get(labels, podL).value))
    ensures r.Some? ==> r.value == PodPath(Get(labels, nsL).value, Get(labels, podL).value)
  {
    match Get(labels, nsL)
    case None => None
    case Some(n) =>
      if n !in sys then None
      else match Get(labels, podL)
        case None => None
        case Some(p) => if p !in sys[n].pods then None else Some(PodPath(n, p))
  }

  /** The namespace a series names through its namespace label. */
  function ResolveNamespace(sys: Systems, labels: LabelSet, nsL: string): (r: Option<string>)
    ensures r.Some? <==> Get(labels, nsL).Some? && Get(labels, nsL).value in sys
    ensures r.Some? ==> r == Get(labels, nsL)
  {
    match Get(labels, nsL)
    case None => None
    case Some(n) => if n in sys then Some(n) else None
  }

  /** Resolution only looks at the shape of the store. */
  lemma ResolveSameShape(a: Systems, b: Systems, labels: LabelSet, nsL: string, podL: string, conL: string)
    requires SameShape(a, b)
    ensures ResolveContainer(a, labels, nsL, podL, conL) == ResolveContainer(b, labels, nsL, podL, conL)
    ensures ResolvePod(a, labels, nsL, podL) == ResolvePod(b, labels, nsL, podL)
    ensures ResolveNamespace(a, labels, nsL) == ResolveNamespace(b, labels, nsL)
  {
  }

  /** The container fields a metric binder can write. */
  datatype ContainerField = CpuLimit | CpuRequest | MemLimit | MemRequest | Restarts | PowerState

  /** The metric name that selects each container field. */
  function ContainerMetricName(f: ContainerField): string
  {
    match f
    case CpuLimit => "cpuLimit"
    case CpuRequest => "cpuRequest"
    case MemLimit => "memLimit"
    case MemRequest => "memRequest"
    case Restarts => "restarts"
    case PowerState => "powerState"
  }

  /** The `if metric == ... else if ...` chain of `getContainerMetric`: the six container metric
      names select their six fields one-to-one, and every other name selects none. */
  function ContainerFieldOf(metric: string): (r: Option<ContainerField>)
    ensures r.Some? ==> ContainerMetricName(r.value) == metric
    ensures r.None? ==> forall f :: ContainerMetricName(f) != metric
  {
    if metric == "cpuLimit" then Some(CpuLimit)
    else if metric == "cpuRequest" then Some(CpuRequest)
    else if metric == "memLimit" then Some(MemLimit)
    else if metric == "memRequest" then Some(MemRequest)
    else if metric == "restarts" then Some(Restarts)
    else if metric == "powerState" then Some(PowerState)
    else None
  }

  function FieldValue(c: Container, f: ContainerField): int
  {
    match f
    case CpuLimit => c.cpuLimit
    case CpuRequest => c.cpuRequest
    case MemLimit => c.memLimit
    case MemRequest => c.memRequest
    case Restarts => c.restarts
    case PowerState => c.powerState
  }

  /** The label-derived fields of a container, untouched by the metric binders. */
  function ContainerStrings(c: Container): (string, string, string, string)
  {
    (c.conInfo, c.conLabel, c.currentNodes, c.podName)
  }

  /** One assignment `container.<field> = value`: that field reads `v`, every other field is
      as before. */
  function WithField(c: Container, f: ContainerField, v: int): (r: Container)
    ensures forall g :: FieldValue(r, g) == if g == f then v else FieldValue(c, g)
    ensures ContainerStrings(r) == ContainerStrings(c)
  {
    match f
    case CpuLimit => c.(cpuLimit := v)
    case CpuRequest => c.(cpuRequest := v)
    case MemLimit => c.(memLimit := v)
    case MemRequest => c.(memRequest := v)
    case Restarts => c.(restarts := v)
    case PowerState => c.(powerState := v)
  }

  /** One series of `getContainerMetric`. */
  function BindContainer(sys: Systems, nsL: string, podL: string, conL: string, metric: string, s: Series): Systems
  {
    match ResolveContainer(sys, s.labels, nsL, podL, conL)
    case None => sys
    case Some(c) =>
      match ContainerFieldOf(metric)
      case None => sys
      case Some(f) => PutContainer(sys, c, WithField(ContainerAt(sys, c), f, LastSample(s.samples)))
  }

  /** `getContainerMetric` over a whole result, series by series. */
  function ContainerMetric(sys: Systems, nsL: string, podL: string, conL: string, metric: string, result: seq<Series>): Systems
    decreases |result|
  {
    if result == [] then sys
    else BindContainer(ContainerMetric(sys, nsL, podL, conL, metric, result[..|result| - 1]), nsL, podL, conL, metric, result[|result| - 1])
  }

  /** The value the last series naming container `c` carries, if any series names it. */
  function LastFor(sys: Systems, nsL: string, podL: string, conL: string, result: seq<Series>, c: ContainerPath): Option<int>
    decreases |result|
  {
    if result == [] then None
    else if ResolveContainer(sys, result[|result| - 1].labels, nsL, podL, conL) == Some(c) then Some(LastSample(result[|result| - 1].samples))
    else LastFor(sys, nsL, podL, conL, result[..|result| - 1], c)
  }

  /** `getContainerMetric` never creates or removes an entity and touches no pod or namespace
      field. */
  lemma {:induction false} ContainerMetricShape(sys: Systems, nsL: string, podL: string, conL: string, metric: string, result: seq<Series>)
    ensures SameShape(sys, ContainerMetric(sys, nsL, podL, conL, metric, result))
    ensures forall p :: HasPod(sys, p) ==>
              PodAt(ContainerMetric(sys, nsL, podL, conL, metric, result), p).(containers := map[]) == PodAt(sys, p).(containers := map[])
    ensures forall n :: n in sys ==> ContainerMetric(sys, nsL, podL, conL, metric, result)[n].(pods := map[]) == sys[n].(pods := map[])
    decreases |result|
  {
    if result != [] {
      var front := result[..|result| - 1];
      var s := result[|result| - 1];
      ContainerMetricShape(sys, nsL, podL, conL, metric, front);
      var m := ContainerMetric(sys, nsL, podL, conL, metric, front);
      match ResolveContainer(m, s.labels, nsL, podL, conL) {
        case None =>
        case Some(d) =>
          match ContainerFieldOf(metric) {
            case None =>
            case Some(f) => PutContainerShape(m, d, WithField(ContainerAt(m, d), f, LastSample(s.samples)));
          }
      }
    }
  }

  /** A container with the field `metric` selects set to `last`, when there is such a field and
      such a value. */
  function Rebound(c: Container, metric: string, last: Option<int>): Container
  {
    match (ContainerFieldOf(metric), last)
    case (Some(f), Some(v)) => WithField(c, f, v)
    case _ => c
  }

  /** A second assignment to the same field overrides the first. */
  lemma ReboundTwice(c: Container, metric: string, last: Option<int>, v: int)
    ensures Rebound(Rebound(c, metric, last), metric, Some(v)) == Rebound(c, metric, Some(v))
  {
    match ContainerFieldOf(metric) {
      case None =>
      case Some(f) =>
        var once := Rebound(c, metric, Some(v));
        var twice := Rebound(Rebound(c, metric, last), metric, Some(v));
        assert forall g :: FieldValue(once, g) == FieldValue(twice, g);
        assert FieldValue(once, CpuLimit) == FieldValue(twice, CpuLimit);
        assert FieldValue(once, CpuRequest) == FieldValue(twice, CpuRequest);
        assert FieldValue(once, MemLimit) == FieldValue(twice, MemLimit);
        assert FieldValue(once, MemRequest) == FieldValue(twice, MemRequest);
        assert FieldValue(once, Restarts) == FieldValue(twice, Restarts);
        assert FieldValue(once, PowerState) == FieldValue(twice, PowerState);
    }
  }

  /** One series of `getContainerMetric`, seen from one container `c`: it is rebound when the
      series names it, and unchanged otherwise. */
  lemma BindContainerAt(sys: Systems, nsL: string, podL: string, conL: string, metric: string, s: Series, c: ContainerPath)
    requires HasContainer(sys, c)
    ensures HasContainer(BindContainer(sys, nsL, podL, conL, metric, s), c)
    ensures ContainerAt(BindContainer(sys, nsL, podL, conL, metric, s), c) ==
              if ResolveContainer(sys, s.labels, nsL, podL, conL) == Some(c)
              then Rebound(ContainerAt(sys, c), metric, Some(LastSample(s.samples)))
              else ContainerAt(sys, c)
  {
    match ResolveContainer(sys, s.labels, nsL, podL, conL) {
      case None =>
      case Some(d) =>
        match ContainerFieldOf(metric) {
          case None =>
          case Some(f) => PutContainerFrame(sys, d, WithField(ContainerAt(sys, d), f, LastSample(s.samples)), c);
        }
    }
  }

  /** After `getContainerMetric`, a container holds in the field the metric selects the last
      sample (0 for an empty series) of the last series naming it, and is otherwise as before;
      a container no series names, or an unknown metric, leaves it unchanged. */
  lemma {:induction false} ContainerMetricLastWins(sys: Systems, nsL: string, podL: string, conL: string, metric: string,
                                                   result: seq<Series>, c: ContainerPath)
    requires HasContainer(sys, c)
    ensures HasContainer(ContainerMetric(sys, nsL, podL, conL, metric, result), c)
    ensures ContainerAt(ContainerMetric(sys, nsL, podL, conL, metric, result), c) ==
              Rebound(ContainerAt(sys, c), metric, LastFor(sys, nsL, podL, conL, result, c))
    decreases |result|
  {
    if result != [] {
      var front := result[..|result| - 1];
      var s := result[|result| - 1];
      ContainerMetricLastWins(sys, nsL, podL, conL, metric, front, c);
      var m := ContainerMetric(sys, nsL, podL, conL, metric, front);
      ContainerMetricShape(sys, nsL, podL, conL, metric, front);
      ResolveSameShape(sys, m, s.labels, nsL, podL, conL);
      BindContainerAt(m, nsL, podL, conL, metric, s, c);
      if ResolveContainer(sys, s.labels, nsL, podL, conL) == Some(c) {
        ReboundTwice(ContainerAt(sys, c), metric, LastFor(sys, nsL, podL, conL, front, c), LastSample(s.samples));
      }
    }
  }

  /** Field by field: the selected field reads the last value, every other numeric field and
      every label-derived field is as before. */
  lemma ContainerMetricField(sys: Systems, nsL: string, podL: string, conL: string, metric: string,
                             result: seq<Series>, c: ContainerPath, g: ContainerField)
    requires HasContainer(sys, c)
    ensures HasContainer(ContainerMetric(sys, nsL, podL, conL, metric, result), c)
    ensures FieldValue(ContainerAt(ContainerMetric(sys, nsL, podL, conL, metric, result), c), g) ==
              if ContainerFieldOf(metric) == Some(g) && LastFor(sys, nsL, podL, conL, result, c).Some?
              then LastFor(sys, nsL, podL, conL, result, c).value
              else FieldValue(ContainerAt(sys, c), g)
    ensures ContainerStrings(ContainerAt(ContainerMetric(sys, nsL, podL, conL, metric, result), c)) == ContainerStrings(ContainerAt(sys, c))
  {
    ContainerMetricLastWins(sys, nsL, podL, conL, metric, result, c);
  }

  /** An unknown metric name leaves the whole store unchanged. */
  lemma {:induction false} ContainerMetricUnknown(sys: Systems, nsL: string, podL: string, conL: string, metric: string, result: seq<Series>)
    requires ContainerFieldOf(metric).None?
    ensures ContainerMetric(sys, nsL, podL, conL, metric, result) == sys
    decreases |result|
  {
    if result != [] {
      ContainerMetricUnknown(sys, nsL, podL, conL, metric, result[..|result| - 1]);
    }
  }

  /** The pod fields a metric binder can write. */
  datatype PodField = CurrentSize | CreationTime

  /** `if metric == "currentSize" ... else if metric == "creationTime"`: the two pod metric
      names select their fields, and every other name selects none. */
  function PodFieldOf(metric: string): (r: Option<PodField>)
    ensures r == Some(CurrentSize) <==> metric == "currentSize"
    ensures r == Some(CreationTime) <==> metric == "creationTime"
  {
    if metric == "currentSize" then Some(CurrentSize)
    else if metric == "creationTime" then Some(CreationTime)
    else None
  }

  /** One series of `getPodMetric`. */
  function BindPod(sys: Systems, nsL: string, podL: string, metric: string, s: Series): Systems
  {
    match ResolvePod(sys, s.labels, nsL, podL)
    case None => sys
    case Some(p) =>
      var v := LastSample(s.samples);
      match PodFieldOf(metric)
      case None => sys
      case Some(CurrentSize) => PutPod(sys, p, PodAt(sys, p).(currentSize := v))
      case Some(CreationTime) => PutPod(sys, p, PodAt(sys, p).(creationTime := v))
  }

  /** `getPodMetric` over a whole result, series by series. */
  function PodMetric(sys: Systems, nsL: string, podL: string, metric: string, result: seq<Series>): Systems
    decreases |result|
  {
    if result == [] then sys
    else BindPod(PodMetric(sys, nsL, podL, metric, result[..|result| - 1]), nsL, podL, metric, result[|result| - 1])
  }

  /** The value the last series naming pod `p` carries, if any series names it. */
  function LastForPod(sys: Systems, nsL: string, podL: string, result: seq<Series>, p: PodPath): Option<int>
    decreases |result|
  {
    if result == [] then None
    else if ResolvePod(sys, result[|result| - 1].labels, nsL, podL) == Some(p) then Some(LastSample(result[|result| - 1].samples))
    else LastForPod(sys, nsL, podL, result[..|result| - 1], p)
  }

  /** A pod with the field `metric` selects set to `last`, when there is such a field and such
      a value. */
  function PodRebound(p: Pod, metric: string, last: Option<int>): Pod
  {
    match (PodFieldOf(metric), last)
    case (Some(CurrentSize), Some(v)) => p.(currentSize := v)
    case (Some(CreationTime), Some(v)) => p.(creationTime := v)
    case _ => p
  }

  /** One series of `getPodMetric` keeps the shape of the store and every container. */
  lemma BindPodShape(sys: Systems, nsL: string, podL: string, metric: string, s: Series)
    ensures SameShape(sys, BindPod(sys, nsL, podL, metric, s))
    ensures forall d :: HasContainer(sys, d) ==> ContainerAt(BindPod(sys, nsL, podL, metric, s), d) == ContainerAt(sys, d)
  {
    match ResolvePod(sys, s.labels, nsL, podL) {
      case None =>
      case Some(q) =>
        var v := LastSample(s.samples);
        match PodFieldOf(metric) {
          case None =>
          case Some(CurrentSize) => PutPodShape(sys, q, PodAt(sys, q).(currentSize := v));
          case Some(CreationTime) => PutPodShape(sys, q, PodAt(sys, q).(creationTime := v));
        }
    }
  }

  /** One series of `getPodMetric`, seen from one pod `p`. */
  lemma BindPodAt(sys: Systems, nsL: string, podL: string, metric: string, s: Series, p: PodPath)
    requires HasPod(sys, p)
    ensures HasPod(BindPod(sys, nsL, podL, metric, s), p)
    ensures PodAt(BindPod(sys, nsL, podL, metric, s), p) ==
              if ResolvePod(sys, s.labels, nsL, podL) == Some(p)
              then PodRebound(PodAt(sys, p), metric, Some(LastSample(s.samples)))
              else PodAt(sys, p)
  {
    match ResolvePod(sys, s.labels, nsL, podL) {
      case None =>
      case Some(q) =>
        var v := LastSample(s.samples);
        match PodFieldOf(metric) {
          case None =>
          case Some(CurrentSize) => PutPodFrame(sys, q, PodAt(sys, q).(currentSize := v), p);
          case Some(CreationTime) => PutPodFrame(sys, q, PodAt(sys, q).(creationTime := v), p);
        }
    }
  }

  /** `getPodMetric` creates and removes nothing and changes no container. */
  lemma {:induction false} PodMetricShape(sys: Systems, nsL: string, podL: string, metric: string, result: seq<Series>)
    ensures SameShape(sys, PodMetric(sys, nsL, podL, metric, result))
    ensures forall d :: HasContainer(sys, d) ==> ContainerAt(PodMetric(sys, nsL, podL, metric, result), d) == ContainerAt(sys, d)
    decreases |result|
  {
    if result != [] {
      var front := result[..|result| - 1];
      PodMetricShape(sys, nsL, podL, metric, front);
      BindPodShape(PodMetric(sys, nsL, podL, metric, front), nsL, podL, metric, result[|result| - 1]);
    }
  }

  /** After `getPodMetric`, the pod field the metric selects holds the last sample of the last
      series naming that pod; every other pod field, and every pod no series names, is as
      before, and an unknown metric changes nothing. */
  lemma {:induction false} PodMetricLastWins(sys: Systems, nsL: string, podL: string, metric: string, result: seq<Series>, p: PodPath)
    requires HasPod(sys, p)
    ensures HasPod(PodMetric(sys, nsL, podL, metric, result), p)
    ensures PodAt(PodMetric(sys, nsL, podL, metric, result), p) == PodRebound(PodAt(sys, p), metric, LastForPod(sys, nsL, podL, result, p))
    decreases |result|
  {
    if result != [] {
      var front := result[..|result| - 1];
      var s := result[|result| - 1];
      PodMetricLastWins(sys, nsL, podL, metric, front, p);
      var m := PodMetric(sys, nsL, podL, metric, front);
      PodMetricShape(sys, nsL, podL, metric, front);
      ResolveSameShape(sys, m, s.labels, nsL, podL, "");
      BindPodAt(m, nsL, podL, metric, s, p);
    }
  }

  /** The namespace fields `getNamespacelimits` can write. */
  datatype NamespaceField = NsCpuRequest | NsMemRequest | NsCpuLimit | NsMemLimit

  /** The two-level dispatch of `getNamespacelimits` on the `constraint` and `resource` labels
      (a missing label reads as ""). */
  function NamespaceFieldOf(constraint: string, resource: string): (r: Option<NamespaceField>)
    ensures r == Some(NsCpuRequest) <==> constraint == "defaultRequest" && resource == "cpu"
    ensures r == Some(NsMemRequest) <==> constraint == "defaultRequest" && resource == "memory"
    ensures r == Some(NsCpuLimit) <==> constraint == "default" && resource == "cpu"
    ensures r == Some(NsMemLimit) <==> constraint == "default" && resource == "memory"
  {
    if constraint == "defaultRequest" then
      if resource == "cpu" then Some(NsCpuRequest) else if resource == "memory" then Some(NsMemRequest) else None
    else if constraint == "default" then
      if resource == "cpu" then Some(NsCpuLimit) else if resource == "memory" then Some(NsMemLimit) else None
    else None
  }

  function WithNamespaceField(ns: Namespace, f: NamespaceField, v: int): Namespace
  {
    match f
    case NsCpuRequest => ns.(cpuRequest := v)
    case NsMemRequest => ns.(memRequest := v)
    case NsCpuLimit => ns.(cpuLimit := v)
    case NsMemLimit => ns.(memLimit := v)
  }

  /** One series of `getNamespacelimits`. */
  function BindLimit(sys: Systems, nsL: string, s: Series): Systems
  {
    match ResolveNamespace(sys, s.labels, nsL)
    case None => sys
    case Some(n) =>
      match NamespaceFieldOf(GetOr(s.labels, "constraint"), GetOr(s.labels, "resource"))
      case None => sys
      case Some(f) => PutNamespace(sys, n, WithNamespaceField(sys[n], f, LastSample(s.samples)))
  }

  /** `getNamespacelimits` over a whole result, series by series. */
  function NamespaceLimits(sys: Systems, nsL: string, result: seq<Series>): Systems
    decreases |result|
  {
    if result == [] then sys
    else BindLimit(NamespaceLimits(sys, nsL, result[..|result| - 1]), nsL, result[|result| - 1])
  }

  /** One series of `getNamespacelimits` changes at most the one namespace field its
      constraint/resource pair selects, to the series' last sample, and nothing else. */
  lemma BindLimitEffect(sys: Systems, nsL: string, s: Series)
    ensures var r := BindLimit(sys, nsL, s);
            var f := NamespaceFieldOf(GetOr(s.labels, "constraint"), GetOr(s.labels, "resource"));
            var n := ResolveNamespace(sys, s.labels, nsL);
            && SameShape(sys, r)
            && (n.None? || f.None? ==> r == sys)
            && (n.Some? && f.Some? ==> r == sys[n.value := WithNamespaceField(sys[n.value], f.value, LastSample(s.samples))])
  {
  }

  /** `getNamespacelimits` keeps the shape of the store and every pod and container. */
  lemma {:induction false} NamespaceLimitsShape(sys: Systems, nsL: string, result: seq<Series>)
    ensures SameShape(sys, NamespaceLimits(sys, nsL, result))
    ensures forall n :: n in sys ==> NamespaceLimits(sys, nsL, result)[n].pods == sys[n].pods
    decreases |result|
  {
    if result != [] {
      NamespaceLimitsShape(sys, nsL, result[..|result| - 1]);
    }
  }

  function NamespaceFieldValue(ns: Namespace, f: NamespaceField): int
  {
    match f
    case NsCpuRequest => ns.cpuRequest
    case NsMemRequest => ns.memRequest
    case NsCpuLimit => ns.cpuLimit
    case NsMemLimit => ns.memLimit
  }

  /** Series `s` of `getNamespacelimits` writes field `f` of namespace `n`. */
  predicate LimitSelects(sys: Systems, nsL: string, s: Series, n: string, f: NamespaceField)
  {
    && ResolveNamespace(sys, s.labels, nsL) == Some(n)
    && NamespaceFieldOf(GetOr(s.labels, "constraint"), GetOr(s.labels, "resource")) == Some(f)
  }

  /** The last sample of the last series `sel` accepts, if any. */
  function LastSelected(result: seq<Series>, sel: Series -> bool): Option<int>
    decreases |result|
  {
    if result == [] then None
    else if sel(result[|result| - 1]) then Some(LastSample(result[|result| - 1].samples))
    else LastSelected(result[..|result| - 1], sel)
  }

  /** No `LastSelected` iff `sel` accepts no series. */
  lemma {:induction false} LastSelectedNone(result: seq<Series>, sel: Series -> bool)
    ensures LastSelected(result, sel).None? <==> forall i :: 0 <= i < |result| ==> !sel(result[i])
    decreases |result|
  {
    if result != [] {
      var front := result[..|result| - 1];
      LastSelectedNone(front, sel);
      assert forall i :: 0 <= i < |front| ==> front[i] == result[i];
    }
  }

  /** `LastSelected` by index: the last sample of the last series `sel` accepts. */
  lemma {:induction false} LastSelectedAt(result: seq<Series>, sel: Series -> bool, i: int)
    requires 0 <= i < |result| && sel(result[i])
    requires forall j :: i < j < |result| ==> !sel(result[j])
    ensures LastSelected(result, sel) == Some(LastSample(result[i].samples))
    decreases |result|
  {
    var front := result[..|result| - 1];
    if i < |front| {
      assert !sel(result[|front|]);
      assert forall j :: 0 <= j < |front| ==> front[j] == result[j];
      LastSelectedAt(front, sel, i);
    }
  }

  /** The last sample of the last series that writes field `f` of namespace `n`, if any. */
  function LastLimit(sys: Systems, nsL: string, result: seq<Series>, n: string, f: NamespaceField): Option<int>
  {
    LastSelected(result, s => LimitSelects(sys, nsL, s, n, f))
  }

  /** After `getNamespacelimits`, field `f` of a namespace holds `LastLimit` when some series
      selects it and is as before otherwise; the namespace label and the pods are kept. */
  lemma {:induction false} NamespaceLimitsField(sys: Systems, nsL: string, result: seq<Series>, n: string, f: NamespaceField)
    requires n in sys
    ensures n in NamespaceLimits(sys, nsL, result)
    ensures NamespaceLimits(sys, nsL, result)[n].namespaceLabel == sys[n].namespaceLabel
    ensures NamespaceLimits(sys, nsL, result)[n].pods == sys[n].pods
    ensures NamespaceFieldValue(NamespaceLimits(sys, nsL, result)[n], f) ==
              match LastLimit(sys, nsL, result, n, f)
              case Some(v) => v
              case None => NamespaceFieldValue(sys[n], f)
    decreases |result|
  {
    if result != [] {
      var front := result[..|result| - 1];
      var s := result[|result| - 1];
      NamespaceLimitsField(sys, nsL, front, n, f);
      NamespaceLimitsShape(sys, nsL, front);
      var m := NamespaceLimits(sys, nsL, front);
      assert LimitSelects(m, nsL, s, n, f) == LimitSelects(sys, nsL, s, n, f);
      BindLimitAt(m, nsL, s, n, f);
    }
  }

  /** After `getNamespacelimits`, field `f` of a namespace holds the last sample of the last
      series that names the namespace and selects `f`; when no series does, the field is as
      before. The namespace label and the pods are never touched. */
  lemma NamespaceLimitsLastWins(sys: Systems, nsL: string, result: seq<Series>, n: string, f: NamespaceField)
    requires n in sys
    ensures n in NamespaceLimits(sys, nsL, result)
    ensures NamespaceLimits(sys, nsL, result)[n].namespaceLabel == sys[n].namespaceLabel
    ensures NamespaceLimits(sys, nsL, result)[n].pods == sys[n].pods
    ensures (forall i :: 0 <= i < |result| ==> !LimitSelects(sys, nsL, result[i], n, f)) ==>
              NamespaceFieldValue(NamespaceLimits(sys, nsL, result)[n], f) == NamespaceFieldValue(sys[n], f)
    ensures forall i :: 0 <= i < |result| && LimitSelects(sys, nsL, result[i], n, f) &&
                        (forall j :: i < j < |result| ==> !LimitSelects(sys, nsL, result[j], n, f)) ==>
              NamespaceFieldValue(NamespaceLimits(sys, nsL, result)[n], f) == LastSample(result[i].samples)
  {
    NamespaceLimitsField(sys, nsL, result, n, f);
    var sel := s => LimitSelects(sys, nsL, s, n, f);
    LastSelectedNone(result, sel);
    forall i | 0 <= i < |result| && LimitSelects(sys, nsL, result[i], n, f) &&
               (forall j :: i < j < |result| ==> !LimitSelects(sys, nsL, result[j], n, f))
      ensures NamespaceFieldValue(NamespaceLimits(sys, nsL, result)[n], f) == LastSample(result[i].samples)
    {
      LastSelectedAt(result, sel, i);
    }
  }

  /** One series of `getNamespacelimits`, seen from field `f` of namespace `n`. */
  lemma BindLimitAt(sys: Systems, nsL: string, s: Series, n: string, f: NamespaceField)
    requires n in sys
    ensures n in BindLimit(sys, nsL, s)
    ensures BindLimit(sys, nsL, s)[n].namespaceLabel == sys[n].namespaceLabel
    ensures BindLimit(sys, nsL, s)[n].pods == sys[n].pods
    ensures NamespaceFieldValue(BindLimit(sys, nsL, s)[n], f) ==
              if LimitSelects(sys, nsL, s, n, f) then LastSample(s.samples) else NamespaceFieldValue(sys[n], f)
  {
  }

  /** A result in which no series both names a known namespace and selects a field leaves the
      store unchanged. */
  lemma {:induction false} NamespaceLimitsUnselected(sys: Systems, nsL: string, result: seq<Series>)
    requires forall i :: 0 <= i < |result| ==>
               ResolveNamespace(sys, result[i].labels, nsL).None? ||
               NamespaceFieldOf(GetOr(result[i].labels, "constraint"), GetOr(result[i].labels, "resource")).None?
    ensures NamespaceLimits(sys, nsL, result) == sys
    decreases |result|
  {
    if result != [] {
      var front := result[..|result| - 1];
      assert forall i :: 0 <= i < |front| ==> front[i] == result[i];
      NamespaceLimitsUnselected(sys, nsL, front);
    }
  }

  // ---------------------------------------------------------------------------------------
  // Label aggregators

  /** The series of a result, each paired with the container it resolves to. */
  function ContainerItems(sys: Systems, nsL: string, podL: string, conL: string, result: seq<Series>): seq<Item<ContainerPath>>
  {
    seq(|result|, i requires 0 <= i < |result| => (ResolveContainer(sys, result[i].labels, nsL, podL, conL), result[i].labels))
  }

  /** The same for pods and namespaces. */
  function PodItems(sys: Systems, nsL: string, podL: string, result: seq<Series>): seq<Item<PodPath>>
  {
    seq(|result|, i requires 0 <= i < |result| => (ResolvePod(sys, result[i].labels, nsL, podL), result[i].labels))
  }

  function NamespaceItems(sys: Systems, nsL: string, result: seq<Series>): seq<Item<string>>
  {
    seq(|result|, i requires 0 <= i < |result| => (ResolveNamespace(sys, result[i].labels, nsL), result[i].labels))
  }

  /** The side effects of the render loop of `getContainerMetricString` on one container:
      for `conLabel`, the `instance` value, with ';' turned into '|' and a trailing '|', is
      appended to `currentNodes`; for `conInfo`, the `pod` value becomes `podName`. These fire
      whatever the key length. */
  function ContainerLabelEffects(c: Container, metric: string, keys: seq<string>, vals: map<string, string>): Container
    requires forall i :: 0 <= i < |keys| ==> keys[i] in vals
    decreases |keys|
  {
    if keys == [] then c
    else
      var c1 := ContainerLabelEffects(c, metric, keys[..|keys| - 1], vals);
      var k := keys[|keys| - 1];
      if metric == "conLabel" && k == "instance" then c1.(currentNodes := c1.currentNodes + Replace(vals[k], ';', '|') + "|")
      else if metric == "conInfo" && k == "pod" then c1.(podName := vals[k])
      else c1
  }

  /** One container after `getContainerMetricString`, as the Go code promises it: for `conInfo`,
      `conInfo` holds the rendered string without its final `|` and `podName` the `pod` value
      (when there is one); for `conLabel`, `conLabel` holds the rendered string and
      `currentNodes` grows by the `instance` value with ';' turned into '|' and a trailing '|'
      (when there is one); any other metric name changes nothing. */
  function WriteContainerLabels(c: Container, metric: string, acc: Acc): Container
    requires acc.Valid() && Render(GoBudget, acc.order, acc.vals) != ""
  {
    var attr := DropLast(Render(GoBudget, acc.order, acc.vals));
    if metric == "conInfo" then
      c.(conInfo := attr, podName := if "pod" in acc.vals then acc.vals["pod"] else c.podName)
    else if metric == "conLabel" then
      c.(conLabel := attr, currentNodes := c.currentNodes + if "instance" in acc.vals then Replace(acc.vals["instance"], ';', '|') + "|" else "")
    else c
  }

  /** The side effects over distinct keys: `currentNodes` grows by exactly the converted
      `instance` value when the metric is `conLabel` and the key is present, `podName` becomes
      the `pod` value when the metric is `conInfo` and the key is present, and nothing else
      changes. */
  lemma {:induction false} LabelEffectsExact(c: Container, metric: string, keys: seq<string>, vals: map<string, string>)
    requires forall i :: 0 <= i < |keys| ==> keys[i] in vals
    requires forall i, j :: 0 <= i < j < |keys| ==> keys[i] != keys[j]
    ensures ContainerLabelEffects(c, metric, keys, vals).currentNodes ==
              c.currentNodes + if metric == "conLabel" && "instance" in keys then Replace(vals["instance"], ';', '|') + "|" else ""
    ensures ContainerLabelEffects(c, metric, keys, vals).podName ==
              if metric == "conInfo" && "pod" in keys then vals["pod"] else c.podName
    ensures ContainerLabelEffects(c, metric, keys, vals).(currentNodes := "", podName := "") == c.(currentNodes := "", podName := "")
    decreases |keys|
  {
    if keys != [] {
      var front := keys[..|keys| - 1];
      var k := keys[|keys| - 1];
      LabelEffectsExact(c, metric, front, vals);
      assert forall x :: x in keys <==> x in front || x == k by {
        assert keys == front + [k];
      }
      assert k !in front by {
        forall i | 0 <= i < |front| ensures front[i] != k {
          assert keys[i] != keys[|keys| - 1];
        }
      }
    }
  }

  /** The render loop over an accumulator's keys, with its side effects, followed by the write
      of the trimmed string, is exactly `WriteContainerLabels`: the order of the keys does not
      matter because each key occurs once. */
  lemma RenderLoopWrites(c: Container, metric: string, acc: Acc)
    requires acc.Valid() && Render(GoBudget, acc.order, acc.vals) != ""
    ensures var c1 := ContainerLabelEffects(c, metric, acc.order, acc.vals);
            var attr := DropLast(Render(GoBudget, acc.order, acc.vals));
            WriteContainerLabels(c, metric, acc) ==
              if metric == "conInfo" then c1.(conInfo := attr)
              else if metric == "conLabel" then c1.(conLabel := attr)
              else c1
  {
    LabelEffectsExact(c, metric, acc.order, acc.vals);
  }

  /** Same shape is carried over: a container of one store is a container of the other. */
  lemma ShapeHas(a: Systems, b: Systems, c: ContainerPath)
    requires SameShape(a, b) && HasContainer(a, c)
    ensures HasContainer(b, c)
  {
  }

  lemma ShapeHasPod(a: Systems, b: Systems, p: PodPath)
    requires SameShape(a, b) && HasPod(a, p)
    ensures HasPod(b, p)
  {
  }

  lemma ShapeTrans(a: Systems, b: Systems, c: Systems)
    requires SameShape(a, b) && SameShape(b, c)
    ensures SameShape(a, c)
  {
  }

  /** `t` is a well-formed temporary structure whose every entity renders to a non-empty
      string and names a container of `sys`. */
  ghost predicate ContainerTempFits(sys: Systems, t: Temp<ContainerPath>)
  {
    && t.Valid() && Renderable(GoBudget, t)
    && forall i :: 0 <= i < |t.ids| ==> t.ids[i] in t.accs && HasContainer(sys, t.ids[i])
  }

  /** The render phase of `getContainerMetricString` over the first `k` entities of `t`. */
  function ApplyContainerLabels(sys: Systems, metric: string, t: Temp<ContainerPath>, k: nat): (r: Systems)
    requires ContainerTempFits(sys, t)
    requires k <= |t.ids|
    ensures SameShape(sys, r)
  {
    if k == 0 then sys
    else
      var m := ApplyContainerLabels(sys, metric, t, k - 1);
      var id := t.ids[k - 1];
      ShapeHas(sys, m, id);
      var x := WriteContainerLabels(ContainerAt(m, id), metric, t.accs[id]);
      PutContainerSame(m, id, x);
      ShapeTrans(sys, m, PutContainer(m, id, x));
      PutContainer(m, id, x)
  }

  /** The temporary structure of `getContainerMetricString`, with the facts its render phase
      needs: each entity exists in the store and renders to a non-empty string (the namespace
      label, shorter than 250, is always among its keys). */
  lemma ContainerTempReady(sys: Systems, nsL: string, podL: string, conL: string, result: seq<Series>)
    requires |nsL| < KeyLimit
    ensures var t := CollectAll(AppendIfContained, ContainerItems(sys, nsL, podL, conL, result));
            && t.Valid() && Renderable(GoBudget, t)
            && (forall i :: 0 <= i < |t.ids| ==> t.ids[i] in t.accs && HasContainer(sys, t.ids[i]))
  {
    var items := ContainerItems(sys, nsL, podL, conL, result);
    TempRenderable(AppendIfContained, GoBudget, items, nsL);
  }

  /** The temporary structure `getContainerMetricString` builds (Go gate). */
  function ContainerTemp(sys: Systems, nsL: string, podL: string, conL: string, result: seq<Series>): (t: Temp<ContainerPath>)
    requires |nsL| < KeyLimit
    ensures t == CollectAll(AppendIfContained, ContainerItems(sys, nsL, podL, conL, result))
    ensures t.Valid() && Renderable(GoBudget, t)
    ensures forall i :: 0 <= i < |t.ids| ==> t.ids[i] in t.accs && HasContainer(sys, t.ids[i])
  {
    ContainerTempReady(sys, nsL, podL, conL, result);
    CollectAll(AppendIfContained, ContainerItems(sys, nsL, podL, conL, result))
  }

  /** `getContainerMetricString`: merge the labels of the series (Go gate), then render each
      container's map and apply its writes. */
  function ContainerLabels(sys: Systems, nsL: string, podL: string, conL: string, metric: string, result: seq<Series>): Systems
    requires |nsL| < KeyLimit
  {
    var t := ContainerTemp(sys, nsL, podL, conL, result);
    ApplyContainerLabels(sys, metric, t, |t.ids|)
  }

  /** The render phase, seen from one container: a container of the temporary structure holds
      its aggregated labels, every other container is as before. */
  lemma {:induction false} ApplyContainerLabelsAt(sys: Systems, metric: string, t: Temp<ContainerPath>, k: nat, c: ContainerPath)
    requires ContainerTempFits(sys, t)
    requires k <= |t.ids| && HasContainer(sys, c)
    ensures HasContainer(ApplyContainerLabels(sys, metric, t, k), c)
    ensures ContainerAt(ApplyContainerLabels(sys, metric, t, k), c) ==
              if c in t.ids[..k] then WriteContainerLabels(ContainerAt(sys, c), metric, t.accs[c]) else ContainerAt(sys, c)
  {
    if k > 0 {
      ApplyContainerLabelsAt(sys, metric, t, k - 1, c);
      PrefixStep(t.ids, k, c);
      ApplyContainerLabelsStep(sys, metric, t, k, c);
    }
  }

  /** The `k`-th write of the container render phase touches only the container it renders. */
  lemma ApplyContainerLabelsStep(sys: Systems, metric: string, t: Temp<ContainerPath>, k: nat, c: ContainerPath)
    requires ContainerTempFits(sys, t)
    requires 0 < k <= |t.ids| && HasContainer(sys, c)
    ensures HasContainer(ApplyContainerLabels(sys, metric, t, k - 1), c) && HasContainer(ApplyContainerLabels(sys, metric, t, k), c)
    ensures ContainerAt(ApplyContainerLabels(sys, metric, t, k), c) ==
              if c == t.ids[k - 1] then WriteContainerLabels(ContainerAt(ApplyContainerLabels(sys, metric, t, k - 1), c), metric, t.accs[c])
              else ContainerAt(ApplyContainerLabels(sys, metric, t, k - 1), c)
  {
    var m := ApplyContainerLabels(sys, metric, t, k - 1);
    var id := t.ids[k - 1];
    ShapeHas(sys, m, id);
    ShapeHas(sys, m, c);
    PutContainerFrame(m, id, WriteContainerLabels(ContainerAt(m, id), metric, t.accs[id]), c);
  }

  /** `getContainerMetricString` creates and removes nothing; every container some series
      resolved to holds its aggregated labels (as `WriteContainerLabels` states them), and every
      other container is unchanged. */
  lemma ContainerLabelsAt(sys: Systems, nsL: string, podL: string, conL: string, metric: string, result: seq<Series>, c: ContainerPath)
    requires |nsL| < KeyLimit && HasContainer(sys, c)
    ensures var t := ContainerTemp(sys, nsL, podL, conL, result);
            var r := ContainerLabels(sys, nsL, podL, conL, metric, result);
            && SameShape(sys, r) && HasContainer(r, c)
            && ContainerAt(r, c) == if c in t.accs then WriteContainerLabels(ContainerAt(sys, c), metric, t.accs[c]) else ContainerAt(sys, c)
  {
    var t := ContainerTemp(sys, nsL, podL, conL, result);
    ApplyContainerLabelsAt(sys, metric, t, |t.ids|, c);
    assert t.ids[..|t.ids|] == t.ids;
  }

  /** `getContainerMetricString` with a metric name other than `conInfo` and `conLabel`
      leaves the store unchanged. */
  lemma ContainerLabelsOther(sys: Systems, nsL: string, podL: string, conL: string, metric: string, result: seq<Series>)
    requires |nsL| < KeyLimit && metric != "conInfo" && metric != "conLabel"
    ensures ContainerLabels(sys, nsL, podL, conL, metric, result) == sys
  {
    var t := ContainerTemp(sys, nsL, podL, conL, result);
    ApplyContainerLabelsOther(sys, metric, t, |t.ids|);
  }

  lemma {:induction false} ApplyContainerLabelsOther(sys: Systems, metric: string, t: Temp<ContainerPath>, k: nat)
    requires ContainerTempFits(sys, t)
    requires k <= |t.ids| && metric != "conInfo" && metric != "conLabel"
    ensures ApplyContainerLabels(sys, metric, t, k) == sys
  {
    if k > 0 {
      ApplyContainerLabelsOther(sys, metric, t, k - 1);
      PutContainerSelf(sys, t.ids[k - 1]);
    }
  }

  /** Writing a container back unchanged leaves the store as it was. */
  lemma PutContainerSelf(sys: Systems, c: ContainerPath)
    requires HasContainer(sys, c)
    ensures PutContainer(sys, c, ContainerAt(sys, c)) == sys
  {
    var ns := sys[c.ns];
    var pod := ns.pods[c.pod];
    assert pod.containers[c.con := pod.containers[c.con]] == pod.containers;
    assert ns.pods[c.pod := pod] == ns.pods;
    assert sys[c.ns := ns] == sys;
  }

  /** One pod after the render loop of `getPodMetricString`: the rendered string without its
      final `|` stored in `podInfo`, `podLabel` or `controllerLabel` as the metric says. */
  function WritePodLabels(p: Pod, metric: string, acc: Acc): (r: Pod)
    requires acc.Valid() && Render(GoBudget, acc.order, acc.vals) != ""
    ensures r.containers == p.containers
  {
    var attr := DropLast(Render(GoBudget, acc.order, acc.vals));
    if metric == "podInfo" then p.(podInfo := attr)
    else if metric == "podLabel" then p.(podLabel := attr)
    else if metric == "controllerLabel" then p.(controllerLabel := attr)
    else p
  }

  /** `t` is a well-formed temporary structure whose every entity renders to a non-empty
      string and names a pod of `sys`. */
  ghost predicate PodTempFits(sys: Systems, t: Temp<PodPath>)
  {
    && t.Valid() && Renderable(GoBudget, t)
    && forall i :: 0 <= i < |t.ids| ==> t.ids[i] in t.accs && HasPod(sys, t.ids[i])
  }

  /** The render phase of `getPodMetricString` over the pods `ids`. */
  function ApplyPodLabels(sys: Systems, metric: string, t: Temp<PodPath>, k: nat): (r: Systems)
    requires PodTempFits(sys, t)
    requires k <= |t.ids|
    ensures SameShape(sys, r)
  {
    if k == 0 then sys
    else
      var m := ApplyPodLabels(sys, metric, t, k - 1);
      var id := t.ids[k - 1];
      ShapeHasPod(sys, m, id);
      var x := WritePodLabels(PodAt(m, id), metric, t.accs[id]);
      PutPodSame(m, id, x);
      ShapeTrans(sys, m, PutPod(m, id, x));
      PutPod(m, id, x)
  }

  /** The temporary structure `getPodMetricString` builds (Go gate). */
  function PodTemp(sys: Systems, nsL: string, podL: string, result: seq<Series>): (t: Temp<PodPath>)
    requires |nsL| < KeyLimit
    ensures t == CollectAll(AppendIfContained, PodItems(sys, nsL, podL, result))
    ensures t.Valid() && Renderable(GoBudget, t)
    ensures forall i :: 0 <= i < |t.ids| ==> t.ids[i] in t.accs && HasPod(sys, t.ids[i])
  {
    TempRenderable(AppendIfContained, GoBudget, PodItems(sys, nsL, podL, result), nsL);
    CollectAll(AppendIfContained, PodItems(sys, nsL, podL, result))
  }

  /** `getPodMetricString`: merge, render, and apply the writes pod by pod. */
  function PodLabels(sys: Systems, nsL: string, podL: string, metric: string, result: seq<Series>): Systems
    requires |nsL| < KeyLimit
  {
    var t := PodTemp(sys, nsL, podL, result);
    ApplyPodLabels(sys, metric, t, |t.ids|)
  }

  /** The render phase of `getPodMetricString`, seen from one pod. */
  lemma {:induction false} ApplyPodLabelsAt(sys: Systems, metric: string, t: Temp<PodPath>, k: nat, p: PodPath)
    requires PodTempFits(sys, t)
    requires k <= |t.ids| && HasPod(sys, p)
    ensures HasPod(ApplyPodLabels(sys, metric, t, k), p)
    ensures PodAt(ApplyPodLabels(sys, metric, t, k), p) ==
              if p in t.ids[..k] then WritePodLabels(PodAt(sys, p), metric, t.accs[p]) else PodAt(sys, p)
  {
    if k > 0 {
      ApplyPodLabelsAt(sys, metric, t, k - 1, p);
      PrefixStep(t.ids, k, p);
      ApplyPodLabelsStep(sys, metric, t, k, p);
    }
  }

  /** The `k`-th write of the pod render phase touches only the pod it renders. */
  lemma ApplyPodLabelsStep(sys: Systems, metric: string, t: Temp<PodPath>, k: nat, p: PodPath)
    requires PodTempFits(sys, t)
    requires 0 < k <= |t.ids| && HasPod(sys, p)
    ensures HasPod(ApplyPodLabels(sys, metric, t, k - 1), p) && HasPod(ApplyPodLabels(sys, metric, t, k), p)
    ensures PodAt(ApplyPodLabels(sys, metric, t, k), p) ==
              if p == t.ids[k - 1] then WritePodLabels(PodAt(ApplyPodLabels(sys, metric, t, k - 1), p), metric, t.accs[p])
              else PodAt(ApplyPodLabels(sys, metric, t, k - 1), p)
  {
    var m := ApplyPodLabels(sys, metric, t, k - 1);
    var id := t.ids[k - 1];
    ShapeHasPod(sys, m, id);
    ShapeHasPod(sys, m, p);
    PutPodFrame(m, id, WritePodLabels(PodAt(m, id), metric, t.accs[id]), p);
  }

  /** `getPodMetricString` creates and removes nothing; a pod some series resolved to has the
      rendered string minus its final `|` in the one field its metric names (`podInfo`,
      `podLabel` or `controllerLabel`), and every other pod field, every other pod, and every
      container is as before; any other metric name writes nothing. */
  lemma PodLabelsAt(sys: Systems, nsL: string, podL: string, metric: string, result: seq<Series>, p: PodPath)
    requires |nsL| < KeyLimit && HasPod(sys, p)
    ensures var t := PodTemp(sys, nsL, podL, result);
            var r := PodLabels(sys, nsL, podL, metric, result);
            && SameShape(sys, r) && HasPod(r, p)
            && PodAt(r, p).containers == PodAt(sys, p).containers
            && (p in t.accs ==>
                  var attr := DropLast(Render(GoBudget, t.accs[p].order, t.accs[p].vals));
                  PodAt(r, p) ==
                    if metric == "podInfo" then PodAt(sys, p).(podInfo := attr)
                    else if metric == "podLabel" then PodAt(sys, p).(podLabel := attr)
                    else if metric == "controllerLabel" then PodAt(sys, p).(controllerLabel := attr)
                    else PodAt(sys, p))
            && (p !in t.accs ==> PodAt(r, p) == PodAt(sys, p))
  {
    var t := PodTemp(sys, nsL, podL, result);
    ApplyPodLabelsAt(sys, metric, t, |t.ids|, p);
    assert t.ids[..|t.ids|] == t.ids;
  }

  /** One namespace after the render loop of `getNamespaceMetricString`. */
  function WriteNamespaceLabel(ns: Namespace, metric: string, acc: Acc): (r: Namespace)
    requires acc.Valid() && Render(GoBudget, acc.order, acc.vals) != ""
    ensures r.pods == ns.pods
  {
    if metric == "namespaceLabel" then ns.(namespaceLabel := DropLast(Render(GoBudget, acc.order, acc.vals))) else ns
  }

  /** `t` is a well-formed temporary structure whose every entity renders to a non-empty
      string and names a namespace of `sys`. */
  ghost predicate NamespaceTempFits(sys: Systems, t: Temp<string>)
  {
    && t.Valid() && Renderable(GoBudget, t)
    && forall i :: 0 <= i < |t.ids| ==> t.ids[i] in t.accs && t.ids[i] in sys
  }

  /** The render phase of `getNamespaceMetricString` over the namespaces `ids`. */
  function ApplyNamespaceLabels(sys: Systems, metric: string, t: Temp<string>, k: nat): (r: Systems)
    requires NamespaceTempFits(sys, t)
    requires k <= |t.ids|
    ensures SameShape(sys, r)
  {
    if k == 0 then sys
    else
      var m := ApplyNamespaceLabels(sys, metric, t, k - 1);
      var id := t.ids[k - 1];
      var x := WriteNamespaceLabel(m[id], metric, t.accs[id]);
      ShapeTrans(sys, m, PutNamespace(m, id, x));
      PutNamespace(m, id, x)
  }

  /** The temporary structure `getNamespaceMetricString` builds (Go gate). */
  function NamespaceTemp(sys: Systems, nsL: string, result: seq<Series>): (t: Temp<string>)
    requires |nsL| < KeyLimit
    ensures t == CollectAll(AppendIfContained, NamespaceItems(sys, nsL, result))
    ensures t.Valid() && Renderable(GoBudget, t)
    ensures forall i :: 0 <= i < |t.ids| ==> t.ids[i] in t.accs && t.ids[i] in sys
  {
    TempRenderable(AppendIfContained, GoBudget, NamespaceItems(sys, nsL, result), nsL);
    CollectAll(AppendIfContained, NamespaceItems(sys, nsL, result))
  }

  /** `getNamespaceMetricString`: merge, render, and apply the writes namespace by namespace. */
  function NamespaceLabels(sys: Systems, nsL: string, metric: string, result: seq<Series>): (r: Systems)
    requires |nsL| < KeyLimit
    ensures r.Keys == sys.Keys
  {
    var t := NamespaceTemp(sys, nsL, result);
    ApplyNamespaceLabels(sys, metric, t, |t.ids|)
  }

  /** The render phase of `getNamespaceMetricString`, seen from one namespace. */
  lemma {:induction false} ApplyNamespaceLabelsAt(sys: Systems, metric: string, t: Temp<string>, k: nat, n: string)
    requires NamespaceTempFits(sys, t)
    requires k <= |t.ids| && n in sys
    ensures n in ApplyNamespaceLabels(sys, metric, t, k)
    ensures ApplyNamespaceLabels(sys, metric, t, k)[n] ==
              if n in t.ids[..k] then WriteNamespaceLabel(sys[n], metric, t.accs[n]) else sys[n]
  {
    if k > 0 {
      ApplyNamespaceLabelsAt(sys, metric, t, k - 1, n);
      PrefixStep(t.ids, k, n);
    }
  }

  /** `getNamespaceMetricString` creates and removes nothing; for `namespaceLabel`, a namespace
      some series resolved to has the rendered string minus its final `|` as its label and is
      otherwise unchanged; every other namespace, and every namespace under any other metric
      name, is unchanged. */
  lemma NamespaceLabelsAt(sys: Systems, nsL: string, metric: string, result: seq<Series>, n: string)
    requires |nsL| < KeyLimit && n in sys
    ensures var t := NamespaceTemp(sys, nsL, result);
            var r := NamespaceLabels(sys, nsL, metric, result);
            && SameShape(sys, r) && n in r
            && r[n] == if n in t.accs && metric == "namespaceLabel"
                       then sys[n].(namespaceLabel := DropLast(RenderAcc(GoBudget, t.accs[n])))
                       else sys[n]
  {
    var t := NamespaceTemp(sys, nsL, result);
    ApplyNamespaceLabelsAt(sys, metric, t, |t.ids|, n);
    assert t.ids[..|t.ids|] == t.ids;
  }

  /** The entities a container aggregator renders are exactly those some series resolves to. */
  lemma ContainerTempIds(sys: Systems, nsL: string, podL: string, conL: string, result: seq<Series>, c: ContainerPath)
    requires |nsL| < KeyLimit
    ensures c in ContainerTemp(sys, nsL, podL, conL, result).accs <==> exists i :: 0 <= i < |result| && ResolveContainer(sys, result[i].labels, nsL, podL, conL) == Some(c)
  {
    var items := ContainerItems(sys, nsL, podL, conL, result);
    CollectAllIds(AppendIfContained, items, c);
    if c in ContainerTemp(sys, nsL, podL, conL, result).accs {
      var i :| 0 <= i < |items| && items[i].0 == Some(c);
      assert ResolveContainer(sys, result[i].labels, nsL, podL, conL) == Some(c);
    } else {
      forall i | 0 <= i < |result| ensures ResolveContainer(sys, result[i].labels, nsL, podL, conL) != Some(c) {
        assert items[i].0 != Some(c);
      }
    }
  }

  /** The entities a pod aggregator renders are exactly those some series resolves to. */
  lemma PodTempIds(sys: Systems, nsL: string, podL: string, result: seq<Series>, p: PodPath)
    requires |nsL| < KeyLimit
    ensures p in PodTemp(sys, nsL, podL, result).accs <==> exists i :: 0 <= i < |result| && ResolvePod(sys, result[i].labels, nsL, podL) == Some(p)
  {
    var items := PodItems(sys, nsL, podL, result);
    CollectAllIds(AppendIfContained, items, p);
    if p in PodTemp(sys, nsL, podL, result).accs {
      var i :| 0 <= i < |items| && items[i].0 == Some(p);
      assert ResolvePod(sys, result[i].labels, nsL, podL) == Some(p);
    } else {
      forall i | 0 <= i < |result| ensures ResolvePod(sys, result[i].labels, nsL, podL) != Some(p) {
        assert items[i].0 != Some(p);
      }
    }
  }

  /** The entities a namespace aggregator renders are exactly those some series resolves to. */
  lemma NamespaceTempIds(sys: Systems, nsL: string, result: seq<Series>, n: string)
    requires |nsL| < KeyLimit
    ensures n in NamespaceTemp(sys, nsL, result).accs <==> exists i :: 0 <= i < |result| && ResolveNamespace(sys, result[i].labels, nsL) == Some(n)
  {
    var items := NamespaceItems(sys, nsL, result);
    CollectAllIds(AppendIfContained, items, n);
    if n in NamespaceTemp(sys, nsL, result).accs {
      var i :| 0 <= i < |items| && items[i].0 == Some(n);
      assert ResolveNamespace(sys, result[i].labels, nsL) == Some(n);
    } else {
      forall i | 0 <= i < |result| ensures ResolveNamespace(sys, result[i].labels, nsL) != Some(n) {
        assert items[i].0 != Some(n);
      }
    }
  }
}
