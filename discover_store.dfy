/** The Python predecessor as it runs (trans/discover.py): the dict `systems` updated in place
    by the loops of `main` and by `getkubestatemetrics`, `getattributes` and
    `getattributespod`, and the two day loops of `multiDayCollect` and the workload
    collection. A method that meets a Python exception returns `false`; what the store then
    holds is not specified, since the program ends there. */
module DiscoverIngest {
  import opened Labels
  import opened Merge
  import opened Rendering
  import opened Discover
  import opened DiscoverLabels
  import opened DiscoverRows

  /** The render loop of `getattributes` for one container: `attr +=` the segment of every
      key, with the `instance` and `pod` side effects. */
  method ContainerAttrLoop(c0: Container, target: Target, acc: Acc) returns (attr: string, c: Container)
    requires forall i :: 0 <= i < |acc.order| ==> acc.order[i] in acc.vals
    ensures attr == Render(PyBudget, acc.order, acc.vals)
    ensures c == AttrEffects(c0, target, acc.order, acc.vals)
  {
    c := c0;
    attr := "";
    var keys := acc.order;
    for j := 0 to |keys|
      invariant attr == Render(PyBudget, keys[..j], acc.vals)
      invariant c == AttrEffects(c0, target, keys[..j], acc.vals)
    {
      RenderStep(PyBudget, keys, acc.vals, j);
      AttrEffectsStep(c0, target, keys, acc.vals, j);
      ghost var before := c;
      var k := keys[j];
      var value := acc.vals[k];
      attr := attr + Piece(PyBudget, k, value);
      if k == "instance" {
        if target == Attr {
          c := c.(conInstance := c.conInstance + Replace(value, ';', '|') + "|");
        }
      } else if k == "pod" {
        c := c.(podName := value);
      }
      assert c == KeyEffect(before, target, k, value);
    }
    assert keys[..|keys|] == keys;
  }

  /** One container of `getattributes`: the render loop, then the final `|` trimmed and the
      result stored under the target. */
  method RenderContainerAttr(c0: Container, target: Target, acc: Acc) returns (c: Container)
    requires acc.Valid()
    ensures c == WriteAttr(c0, target, acc)
  {
    var attr;
    attr, c := ContainerAttrLoop(c0, target, acc);
    AttrLoopWrites(c0, target, acc);
    attr := PyDropLast(attr);
    match target
    case Attr => c := c.(attr := attr);
    case ConInfo => c := c.(conInfo := attr);
  }

  /** The render loop of `getattributespod` for one pod-level entry: every key rendered whole,
      the controller keys copied. */
  method PodAttrLoop(pod0: Pod, acc: Acc) returns (attr: string, pod: Pod)
    requires forall i :: 0 <= i < |acc.order| ==> acc.order[i] in acc.vals
    ensures attr == Render(NoBudget, acc.order, acc.vals)
    ensures pod == PodEffects(pod0, acc.order, acc.vals)
  {
    pod := pod0;
    attr := "";
    var keys := acc.order;
    var j := 0;
    while j < |keys|
      invariant 0 <= j <= |keys|
      invariant attr == Render(NoBudget, keys[..j], acc.vals)
      invariant pod == PodEffects(pod0, keys[..j], acc.vals)
    {
      RenderStep(NoBudget, keys, acc.vals, j);
      PodEffectsStep(pod0, keys, acc.vals, j);
      ghost var before := pod;
      var k := keys[j];
      var value := acc.vals[k];
      attr := attr + Piece(NoBudget, k, value);
      if k == "created_by_kind" {
        pod := pod["created_by_kind" := Text(value)];
      } else if k == "created_by_name" {
        pod := pod["created_by_name" := Text(value)];
      }
      assert pod == KeyCopy(before, k, value);
      j := j + 1;
    }
    assert keys[..j] == keys;
  }

  /** One pod-level entry of `getattributespod`: the render loop, then the final `|` trimmed
      and the result stored under `attribute`. */
  method RenderPodAttr(pod0: Pod, attribute: string, acc: Acc) returns (pod: Pod)
    requires acc.Valid()
    ensures pod == WritePodAttr(pod0, attribute, acc)
  {
    var attr;
    attr, pod := PodAttrLoop(pod0, acc);
    PodLoopWrites(pod0, attribute, acc);
    pod := pod[attribute := Text(PyDropLast(attr))];
  }

  /** `multiDayCollect(query, 'result')`: one instant query in current mode; otherwise one
      range query per day for count = days down to 0, the results concatenated. `answer`
      stands for the Prometheus call and gives the records each window returns. */
  method MultiDayCollect(mode: Mode, days: int, answer: Window -> seq<Record>) returns (data: seq<Record>, windows: seq<Window>)
    ensures windows == CollectWindows(mode, days)
    ensures data == Gathered(windows, answer)
  {
    data := [];
    windows := [];
    if mode == Current {
      windows := [Instant];
      data := data + answer(Instant);
      assert windows[..0] == [];
    } else {
      var count := days;
      while count > -1
        invariant count <= days
        invariant windows + DaysDown(count) == DaysDown(days)
        invariant data == Gathered(windows, answer)
        decreases count
      {
        DaysDownNext(windows, count);
        GatheredNext(windows, Day(count), answer);
        windows := windows + [Day(count)];
        data := data + answer(Day(count));
        count := count - 1;
      }
    }
  }

  /** The workload loop of `main`: for count = 0 .. days, the day's ten files in order. */
  method Workload(days: int) returns (trace: seq<WorkloadEvent>)
    ensures trace == DaysUp(if days >= 0 then days + 1 else 0)
  {
    trace := [];
    var count := 0;
    while count <= days
      invariant 0 <= count <= if days >= 0 then days + 1 else 0
      invariant trace == DaysUp(count)
      decreases days - count
    {
      ghost var before := trace;
      trace := trace + [RangeWrite("cpu_mCores_workload", count)];
      trace := trace + [RangeWrite("mem_workload", count)];
      trace := trace + [RangeWrite("rss_workload", count)];
      trace := trace + [RangeWrite("disk_workload", count)];
      trace := trace + [RangeWrite("net_bytes_s_workload", count)];
      trace := trace + [RangeWrite("net_bytes_r_workload", count)];
      trace := trace + [TotalWrite("net_bytes_workload", count)];
      trace := trace + [RangeWrite("net_pkts_s_workload", count)];
      trace := trace + [RangeWrite("net_pkts_r_workload", count)];
      trace := trace + [TotalWrite("net_pkts_workload", count)];
      assert trace == before + DayEvents(count);
      count := count + 1;
    }
  }

  /** One series of the seeding loop over the store `sys0`: the pod-level dict created on
      first sight of its name, then the container entry created with its namespace and memory
      figure, or the exception raised when either is missing. */
  method SeedRecord(coll: Collection, mode: Mode, sys0: Systems, it: Record) returns (ok: bool, sys: Systems)
    ensures Outcome(ok, sys) == SeedStep(coll, mode, sys0, it)
  {
    ok, sys := true, sys0;
    var n1 := Get(it.metric, Name1(coll));
    if n1.None? {
      return;
    }
    var p := n1.value;
    if p !in sys {
      sys := sys[p := NewPod()];
    }
    assert sys == sys0[p := if p in sys0 then sys0[p] else NewPod()];
    var n2 := Get(it.metric, Name2(coll));
    if n2.None? {
      return;
    }
    var ns := NamespaceOf(coll, it);
    var memory := Pick(mode, it);
    if ns.None? || memory.None? {
      ok := false;
      return;
    }
    ghost var pod := if p in sys0 then sys0[p] else NewPod();
    sys := sys[p := sys[p][n2.value := Entry(NewContainer(ns.value, memory.value))]];
    assert sys == sys0[p := pod[n2.value := Entry(NewContainer(ns.value, memory.value))]];
  }

  /** The dict `systems` of `main`. */
  class Discovery {
    var systems: Systems

    /** `systems={}`. */
    constructor()
      ensures systems == map[]
    {
      systems := map[];
    }

    /** One series of the seeding loop. */
    method SeedSeries(coll: Collection, mode: Mode, it: Record) returns (ok: bool)
      modifies this
      ensures ok <==> SeedStep(coll, mode, old(systems), it).Some?
      ensures ok ==> systems == SeedStep(coll, mode, old(systems), it).value
    {
      ok, systems := SeedRecord(coll, mode, systems, it);
    }

    /** One series of a loop that writes one field of one container (the limit loops of
        `getkubestatemetrics`, the terminated-state loop, the swarm state loop). */
    method EntrySeries(op: Op, it: Record) returns (ok: bool)
      requires EntryOp(op)
      modifies this
      ensures ok <==> EntryStep(op, old(systems), it).Some?
      ensures ok ==> systems == EntryStep(op, old(systems), it).value
    {
      var a := AddressOf(op, systems, it);
      if a.Skip? {
        return true;
      }
      if a.Raise? {
        return false;
      }
      var v := Reading(op, it);
      if v.None? || systems[a.p][a.k].Text? {
        return false;
      }
      systems := systems[a.p := systems[a.p][a.k := Entry(Update(op, systems[a.p][a.k].c, v.value))]];
      ok := true;
    }

    /** One series of a replica-count loop. */
    method ReplicaSeries(mode: Mode, owner: string, it: Record) returns (ok: bool)
      modifies this
      ensures ok <==> ReplicaStep(mode, owner, old(systems), it).Some?
      ensures ok ==> systems == ReplicaStep(mode, owner, old(systems), it).value
    {
      var p := Get(it.metric, owner);
      if p.None? {
        return false;
      }
      if p.value !in systems {
        return true;
      }
      var v := Pick(mode, it);
      if v.None? {
        return false;
      }
      systems := systems[p.value := systems[p.value]["current_size" := Text(v.value)]];
      ok := true;
    }

    /** One series of any of the loops. */
    method StepSeries(op: Op, it: Record) returns (ok: bool)
      modifies this
      ensures ok <==> Discover.Step(op, old(systems), it).Some?
      ensures ok ==> systems == Discover.Step(op, old(systems), it).value
    {
      match op
      case Seed(coll, mode) =>
        ok := SeedSeries(coll, mode, it);
      case ReplicaCount(mode, owner) =>
        ok := ReplicaSeries(mode, owner, it);
      case _ =>
        ok := EntrySeries(op, it);
    }

    /** A loop of `main` over `data2`, series by series, ending at the first exception. */
    method Ingest(op: Op, data: seq<Record>) returns (ok: bool)
      modifies this
      ensures ok <==> Run(op, old(systems), data).Some?
      ensures ok ==> systems == Run(op, old(systems), data).value
    {
      for i := 0 to |data|
        invariant Run(op, old(systems), data) == Run(op, systems, data[i..])
      {
        assert data[i..][1..] == data[i + 1..];
        var stepped := StepSeries(op, data[i]);
        if !stepped {
          return false;
        }
      }
      ok := true;
    }

    /** `getkubestatemetrics(systems, query, field)`: the history windows of the query, then
        the limit loop over their results. */
    method GetKubeStateMetrics(mode: Mode, days: int, field: LimitField, answer: Window -> seq<Record>) returns (ok: bool)
      modifies this
      ensures ok <==> Run(Limit(mode, field), old(systems), Gathered(CollectWindows(mode, days), answer)).Some?
      ensures ok ==> systems == Run(Limit(mode, field), old(systems), Gathered(CollectWindows(mode, days), answer)).value
    {
      var data, windows := MultiDayCollect(mode, days, answer);
      ok := Ingest(Limit(mode, field), data);
    }

    /** `getattributes(systems, data2, name1, name2, attribute)`. */
    method GetAttributes(data: seq<Record>, n1: string, n2: string, target: Target) returns (ok: bool)
      modifies this
      ensures ok <==> Attributes(old(systems), n1, n2, target, data).Some?
      ensures ok ==> systems == Attributes(old(systems), n1, n2, target, data).value
    {
      ok, systems := AttributesLoop(systems, data, n1, n2, target);
    }

    /** `getattributespod(systems, data2, name1, attribute)`. */
    method GetAttributesPod(data: seq<Record>, n1: string, attribute: string)
      modifies this
      ensures systems == PodAttributes(old(systems), n1, attribute, data)
    {
      systems := PodAttributesLoop(systems, data, n1, attribute);
    }
  }

  /** The merge phase of `getattributes`: the temporary structure `tempsystems`. */
  method AttrMergePhase(sys: Systems, data: seq<Record>, n1: string, n2: string) returns (temp: Temp<(string, string)>)
    ensures temp == AttrTemp(sys, n1, n2, data)
  {
    temp := Collect(AppendIfAbsent, AttrItems(sys, n1, n2, data));
  }

  /** The render phase of `getattributes`: one render and write per container of `temp`,
      ending at the first exception (`sys` is then the partial store). `ws` names the writes
      the containers' accumulators make. */
  method AttrRenderPhase(sys0: Systems, temp: Temp<(string, string)>, target: Target, ghost ws: map<(string, string), Write>) returns (ok: bool, sys: Systems)
    requires WritesFor(temp, ws)
    ensures Outcome(ok, sys) == ApplyAttrs(sys0, target, temp.ids, ws, |temp.ids|)
  {
    sys := sys0;
    for k := 0 to |temp.ids|
      invariant ApplyAttrs(sys0, target, temp.ids, ws, k) == Some(sys)
    {
      var next;
      ok, next := AttrRenderStep(sys0, temp, target, ws, k, sys);
      if !ok {
        return;
      }
      sys := next;
    }
    ok := true;
  }

  /** One iteration of the container render loop: the container `temp.ids[k]` rendered and
      written, or the exception raised when the store has no such entry or a text there. */
  method AttrRenderStep(sys0: Systems, temp: Temp<(string, string)>, target: Target, ghost ws: map<(string, string), Write>, k: nat, sys: Systems)
    returns (ok: bool, r: Systems)
    requires WritesFor(temp, ws) && k < |temp.ids|
    requires ApplyAttrs(sys0, target, temp.ids, ws, k) == Some(sys)
    ensures ok ==> ApplyAttrs(sys0, target, temp.ids, ws, k + 1) == Some(r)
    ensures !ok ==> ApplyAttrs(sys0, target, temp.ids, ws, |temp.ids|).None?
  {
    var id := temp.ids[k];
    ApplyAttrsNext(sys0, target, temp.ids, ws, k, sys);
    if !Has(sys, id.0, id.1) || sys[id.0][id.1].Text? {
      ApplyAttrsRaised(sys0, target, temp.ids, ws, k + 1, |temp.ids|);
      return false, sys;
    }
    var c := RenderContainerAttr(sys[id.0][id.1].c, target, temp.accs[id]);
    ok, r := true, sys[id.0 := sys[id.0][id.1 := Entry(c)]];
  }

  /** `getattributes` over the store `sys0`: the merge phase, then the render phase. */
  method AttributesLoop(sys0: Systems, data: seq<Record>, n1: string, n2: string, target: Target) returns (ok: bool, sys: Systems)
    ensures Outcome(ok, sys) == Attributes(sys0, n1, n2, target, data)
  {
    var temp := AttrMergePhase(sys0, data, n1, n2);
    WritesOfFor(temp);
    ok, sys := AttrRenderPhase(sys0, temp, target, WritesOf(temp));
  }

  /** The merge phase of `getattributespod`. */
  method PodMergePhase(sys: Systems, data: seq<Record>, n1: string) returns (temp: Temp<string>)
    ensures temp == PodTemp(sys, n1, data)
  {
    temp := Collect(AppendIfAbsent, PodItems(sys, n1, data));
  }

  /** The render phase of `getattributespod`: one render and write per pod-level entry of
      `temp`. */
  method PodRenderPhase(sys0: Systems, temp: Temp<string>, attribute: string) returns (sys: Systems)
    requires PodReady(sys0, temp)
    ensures sys == ApplyPodAttrs(sys0, attribute, temp, |temp.ids|)
  {
    sys := sys0;
    for k := 0 to |temp.ids|
      invariant sys == ApplyPodAttrs(sys0, attribute, temp, k)
    {
      sys := PodRenderStep(sys0, temp, attribute, k, sys);
    }
  }

  /** One iteration of the pod render loop: the entry `temp.ids[k]` rendered and written. */
  method PodRenderStep(sys0: Systems, temp: Temp<string>, attribute: string, k: nat, sys: Systems) returns (r: Systems)
    requires PodReady(sys0, temp) && k < |temp.ids|
    requires sys == ApplyPodAttrs(sys0, attribute, temp, k)
    ensures r == ApplyPodAttrs(sys0, attribute, temp, k + 1)
  {
    var p := temp.ids[k];
    ApplyPodAttrsNext(sys0, attribute, temp, k);
    var pod := RenderPodAttr(sys[p], attribute, temp.accs[p]);
    r := sys[p := pod];
  }

  /** `getattributespod` over the store `sys0`: the merge phase, then the render phase. */
  method PodAttributesLoop(sys0: Systems, data: seq<Record>, n1: string, attribute: string) returns (sys: Systems)
    ensures sys == PodAttributes(sys0, n1, attribute, data)
  {
    var temp := PodMergePhase(sys0, data, n1);
    sys := PodRenderPhase(sys0, temp, attribute);
  }
}
