/** The output side of the Python predecessor (trans/discover.py): the rows `writeConfig`,
    `writeAttributes` and `writeWorkload` emit for the store, and the window order of
    `multiDayCollect` and of the workload loop of `main`. Rows are values; the CSV text, the
    date formatting and the files themselves are not modelled. */
module DiscoverRows {
  import opened Labels
  import opened Discover

  // ---------------------------------------------------------------------------------------
  // Host names and reserved keys

  /** The keys both writers skip: the five pod-level fields and `pod_name`. */
  predicate Reserved(k: string)
  {
    PodField(k) || k == "pod_name"
  }

  /** `writeConfig` emits the pair (i, j) when the key j is non-empty and not reserved. */
  predicate ConfigEmits(p: string, k: string)
  {
    k != "" && !Reserved(k)
  }

  /** `writeAttributes` emits the pair (i, j) when the pod-level name i is non-empty and the
      key j is not reserved: its emptiness test is on i, where `writeConfig` tests j. */
  predicate AttributeEmits(p: string, k: string)
  {
    p != "" && !Reserved(k)
  }

  /** The two writers disagree on the empty names: a container under the empty pod-level name
      is a config row and not an attribute row, and a container with the empty key the
      reverse. */
  lemma EmptyNameRows()
    ensures ConfigEmits("", "c") && !AttributeEmits("", "c")
    ensures !ConfigEmits("p", "") && AttributeEmits("p", "")
  {
  }

  /** The host name of a pod-level name and key. */
  function HostOf(x: string, k: string): string
  {
    Replace(x, ';', '.') + "__" + Replace(k, ':', '.')
  }

  /** The host name splits at the ends of its two parts: the pod-level name with every ';'
      turned into '.', the separator `__`, and the key with every ':' turned into '.'. */
  lemma HostSplit(x: string, k: string)
    ensures var h := HostOf(x, k);
            && |h| == |x| + 2 + |k|
            && h[..|x|] == Replace(x, ';', '.') && ';' !in h[..|x|]
            && h[|x|..|x| + 2] == "__"
            && h[|x| + 2..] == Replace(k, ':', '.') && ':' !in h[|x| + 2..]
  {
    var h := HostOf(x, k);
    assert h == Replace(x, ';', '.') + ("__" + Replace(k, ':', '.'));
    assert h[|x|..] == "__" + Replace(k, ':', '.');
  }

  /** The name a row shows for pair (p, k): `p` itself, or the `pod_name` of the container
      when `p` is `<none>`; None when that container is reserved text (TypeError). */
  function RowName(sys: Systems, p: string, k: string): (r: Option<string>)
    requires Has(sys, p, k)
    ensures p != "<none>" ==> r == Some(p)
    ensures p == "<none>" ==> (r.Some? <==> sys[p][k].Entry?)
    ensures p == "<none>" && r.Some? ==> r.value == sys[p][k].c.podName
  {
    if p != "<none>" then Some(p)
    else match sys[p][k]
      case Text(_) => None
      case Entry(c) => Some(c.podName)
  }

  /** The host name of the row for pair (p, k). */
  function HostName(sys: Systems, p: string, k: string): Option<string>
    requires Has(sys, p, k)
  {
    match RowName(sys, p, k)
    case None => None
    case Some(x) => Some(HostOf(x, k))
  }

  // ---------------------------------------------------------------------------------------
  // Rows of one pair

  /** What one pair of the store contributes to a file: nothing, an exception that ends the
      program, or a row. */
  datatype Emit<T> = Omitted | Raised | Line(line: T)

  /** A row of `config.csv`: host, memory, kind and namespace (the namespace fills two
      columns; `OS Name` is always `Linux`). */
  datatype ConfigLine = ConfigLine(host: string, memory: string, kind: string, namespace: string)

  /** The row `writeConfig(systems, kind)` writes for pair (p, k). */
  function ConfigRow(sys: Systems, p: string, k: string, kind: string): (r: Emit<ConfigLine>)
    requires Has(sys, p, k)
    ensures r.Omitted? <==> !ConfigEmits(p, k)
  {
    if !ConfigEmits(p, k) then Omitted
    else match (HostName(sys, p, k), sys[p][k])
      case (None, _) => Raised
      case (_, Text(_)) => Raised
      case (Some(h), Entry(c)) => Line(ConfigLine(h, c.memory, kind, c.namespace))
  }

  /** The power state a row shows: `Terminated` only while the state is still the integer 1
      seeding stores, `Running` for every other state, including the sample text "1". */
  function StateText(s: State): string
  {
    if s == Flag(1) then "Terminated" else "Running"
  }

  lemma StateShown(s: State)
    ensures StateText(s) == "Terminated" <==> s == Flag(1)
    ensures StateText(s) != "Terminated" ==> StateText(s) == "Running"
    ensures StateText(Reported("1")) == "Running" && StateText(Flag(0)) == "Running"
  {
  }

  /** A row of `attributes.csv`, column by column (the constant `Containers` column left
      out). */
  datatype AttributeLine = AttributeLine(
    host: string, domain: string, namespace: string, cluster: string, attr: string,
    conInfo: string, podInfo: string, podLabels: string, cpuLimit: string, cpuRequest: string,
    memLimit: string, memRequest: string, name: string, currentNodes: string, power: string,
    createdByKind: string, createdByName: string, currentSize: string)

  /** The five pod-level fields of a dict all hold text. */
  predicate PodTexts(pod: Pod)
  {
    && "pod_info" in pod && pod["pod_info"].Text?
    && "pod_labels" in pod && pod["pod_labels"].Text?
    && "created_by_kind" in pod && pod["created_by_kind"].Text?
    && "created_by_name" in pod && pod["created_by_name"].Text?
    && "current_size" in pod && pod["current_size"].Text?
  }

  /** The row `writeAttributes(systems, 'container')` writes for pair (p, k), with the
      Prometheus address `promAddr` as its domain; a pod-level field that is missing
      (KeyError) or holds a container (TypeError on the concatenation) raises. */
  function AttributeRow(sys: Systems, p: string, k: string, promAddr: string): (r: Emit<AttributeLine>)
    requires Has(sys, p, k)
    ensures r.Omitted? <==> !AttributeEmits(p, k)
  {
    if !AttributeEmits(p, k) then Omitted
    else match (RowName(sys, p, k), sys[p][k])
      case (None, _) => Raised
      case (_, Text(_)) => Raised
      case (Some(x), Entry(c)) =>
        var pod := sys[p];
        if !PodTexts(pod) then Raised
        else Line(AttributeLine(
          HostOf(x, k), promAddr, c.namespace, x, c.attr, c.conInfo,
          pod["pod_info"].text, pod["pod_labels"].text, c.cpuLimit, c.cpuRequest, c.memLimit, c.memRequest,
          k, PyDropLast(c.conInstance), StateText(c.state),
          pod["created_by_kind"].text, pod["created_by_name"].text, pod["current_size"].text))
  }

  /** In a well-formed store a config row never raises: it is a row exactly for a non-empty,
      non-reserved key, with the host name of its pair. */
  lemma ConfigRowWellFormed(sys: Systems, p: string, k: string, kind: string)
    requires WellFormed(sys) && Has(sys, p, k)
    ensures !ConfigRow(sys, p, k, kind).Raised?
    ensures ConfigRow(sys, p, k, kind).Line? <==> ConfigEmits(p, k)
    ensures ConfigRow(sys, p, k, kind).Line? ==> Some(ConfigRow(sys, p, k, kind).line.host) == HostName(sys, p, k)
  {
    if ConfigEmits(p, k) {
      WellFormedEntry(sys, p, k);
    }
  }

  /** In a well-formed store an attribute row raises exactly when it is emitted and one of its
      pod-level fields holds a container instead of text; a row shows its key as the container
      name and `con_instance` minus its last character as the current nodes. */
  lemma AttributeRowWellFormed(sys: Systems, p: string, k: string, promAddr: string)
    requires WellFormed(sys) && Has(sys, p, k)
    ensures AttributeRow(sys, p, k, promAddr).Raised? <==> AttributeEmits(p, k) && !PodTexts(sys[p])
    ensures AttributeRow(sys, p, k, promAddr).Line? ==>
              var l := AttributeRow(sys, p, k, promAddr).line;
              && Some(l.host) == HostName(sys, p, k)
              && l.name == k
              && l.currentNodes == PyDropLast(sys[p][k].c.conInstance)
              && (l.power == "Terminated" <==> sys[p][k].c.state == Flag(1))
  {
    if AttributeEmits(p, k) {
      WellFormedEntry(sys, p, k);
    }
  }

  // ---------------------------------------------------------------------------------------
  // Whole files

  /** The rows of a file in order, or None once a pair raises. */
  function Lines<T>(rows: seq<Emit<T>>): Option<seq<T>>
    decreases |rows|
  {
    if rows == [] then Some([])
    else match Lines(rows[..|rows| - 1])
      case None => None
      case Some(ls) =>
        match rows[|rows| - 1]
        case Omitted => Some(ls)
        case Raised => None
        case Line(l) => Some(ls + [l])
  }

  /** A file is written through exactly when no pair raises, and has at most one row per
      pair. */
  lemma {:induction false} LinesSome<T>(rows: seq<Emit<T>>)
    ensures Lines(rows).Some? <==> forall i :: 0 <= i < |rows| ==> !rows[i].Raised?
    ensures Lines(rows).Some? ==> |Lines(rows).value| <= |rows|
    decreases |rows|
  {
    if rows != [] {
      var front := rows[..|rows| - 1];
      LinesSome(front);
      assert forall i :: 0 <= i < |front| ==> front[i] == rows[i];
    }
  }

  /** `writeConfig(systems, kind)` over the pairs of the store in iteration order. */
  function ConfigFile(sys: Systems, pairs: seq<(string, string)>, kind: string): Option<seq<ConfigLine>>
    requires forall i :: 0 <= i < |pairs| ==> Has(sys, pairs[i].0, pairs[i].1)
  {
    Lines(seq(|pairs|, i requires 0 <= i < |pairs| && Has(sys, pairs[i].0, pairs[i].1) => ConfigRow(sys, pairs[i].0, pairs[i].1, kind)))
  }

  /** `writeAttributes(systems, 'container')` over the pairs of the store in iteration order. */
  function AttributeFile(sys: Systems, pairs: seq<(string, string)>, promAddr: string): Option<seq<AttributeLine>>
    requires forall i :: 0 <= i < |pairs| ==> Has(sys, pairs[i].0, pairs[i].1)
  {
    Lines(seq(|pairs|, i requires 0 <= i < |pairs| && Has(sys, pairs[i].0, pairs[i].1) => AttributeRow(sys, pairs[i].0, pairs[i].1, promAddr)))
  }

  /** `writeConfig` always completes on a well-formed store. */
  lemma ConfigFileWellFormed(sys: Systems, pairs: seq<(string, string)>, kind: string)
    requires WellFormed(sys)
    requires forall i :: 0 <= i < |pairs| ==> Has(sys, pairs[i].0, pairs[i].1)
    ensures ConfigFile(sys, pairs, kind).Some?
  {
    var rows := seq(|pairs|, i requires 0 <= i < |pairs| && Has(sys, pairs[i].0, pairs[i].1) => ConfigRow(sys, pairs[i].0, pairs[i].1, kind));
    forall i | 0 <= i < |rows| ensures !rows[i].Raised? {
      ConfigRowWellFormed(sys, pairs[i].0, pairs[i].1, kind);
    }
    LinesSome(rows);
  }

  /** `writeAttributes` completes on a well-formed store exactly when every emitted pair's
      pod-level fields hold text. */
  lemma AttributeFileWellFormed(sys: Systems, pairs: seq<(string, string)>, promAddr: string)
    requires WellFormed(sys)
    requires forall i :: 0 <= i < |pairs| ==> Has(sys, pairs[i].0, pairs[i].1)
    ensures AttributeFile(sys, pairs, promAddr).Some? <==>
              forall i :: 0 <= i < |pairs| && AttributeEmits(pairs[i].0, pairs[i].1) ==> PodTexts(sys[pairs[i].0])
  {
    var rows := seq(|pairs|, i requires 0 <= i < |pairs| && Has(sys, pairs[i].0, pairs[i].1) => AttributeRow(sys, pairs[i].0, pairs[i].1, promAddr));
    forall i | 0 <= i < |rows|
      ensures rows[i].Raised? <==> AttributeEmits(pairs[i].0, pairs[i].1) && !PodTexts(sys[pairs[i].0])
    {
      AttributeRowWellFormed(sys, pairs[i].0, pairs[i].1, promAddr);
    }
    LinesSome(rows);
  }

  // ---------------------------------------------------------------------------------------
  // writeWorkload

  /** A row of a workload file: host name, timestamp (the date text left out) and sample. */
  datatype WorkloadLine = WorkloadLine(host: string, time: int, value: string)

  /** The rows `writeWorkload` writes for one series: none unless both labels are present,
      the container label is non-empty and the pair is in the store; otherwise one row per
      sample, in order. The host name is computed inside the sample loop, so only a series
      with samples can raise. Reserved keys are not filtered here. */
  function WorkloadRows(sys: Systems, n1: string, n2: string, it: Record): Option<seq<WorkloadLine>>
  {
    match (Get(it.metric, n1), Get(it.metric, n2))
    case (Some(p), Some(k)) =>
      if k == "" || !Has(sys, p, k) || it.values == [] then Some([])
      else (match HostName(sys, p, k)
        case None => None
        case Some(h) => Some(seq(|it.values|, i requires 0 <= i < |it.values| => WorkloadLine(h, it.values[i].0, it.values[i].1))))
    case _ => Some([])
  }

  /** One series's rows: none for a series the filter drops; otherwise every sample in order
      under the host name of its pair, and a raise only for `<none>` over reserved text. */
  lemma WorkloadRowsExact(sys: Systems, n1: string, n2: string, it: Record)
    ensures var r := WorkloadRows(sys, n1, n2, it);
            && (r.None? <==>
                  && Get(it.metric, n1) == Some("<none>") && Get(it.metric, n2).Some?
                  && Get(it.metric, n2).value != "" && Has(sys, "<none>", Get(it.metric, n2).value)
                  && it.values != [] && sys["<none>"][Get(it.metric, n2).value].Text?)
            && (r.Some? && r.value != [] ==>
                  && Get(it.metric, n1).Some? && Get(it.metric, n2).Some?
                  && var p := Get(it.metric, n1).value;
                     var k := Get(it.metric, n2).value;
                     && k != "" && Has(sys, p, k)
                     && |r.value| == |it.values|
                     && forall i :: 0 <= i < |it.values| ==>
                          Some(r.value[i].host) == HostName(sys, p, k) && r.value[i].time == it.values[i].0 && r.value[i].value == it.values[i].1)
  {
  }

  /** `writeWorkload(data2, systems, file, property, name1, name2)`: the rows of the series in
      order, or None once one raises. */
  function WorkloadFile(sys: Systems, n1: string, n2: string, data: seq<Record>): Option<seq<WorkloadLine>>
    decreases |data|
  {
    if data == [] then Some([])
    else match (WorkloadFile(sys, n1, n2, data[..|data| - 1]), WorkloadRows(sys, n1, n2, data[|data| - 1]))
      case (Some(a), Some(b)) => Some(a + b)
      case _ => None
  }

  /** A workload file is written through exactly when no series raises; a well-formed store
      raises only for a series that names a reserved key under `<none>`. */
  lemma {:induction false} WorkloadFileSome(sys: Systems, n1: string, n2: string, data: seq<Record>)
    ensures WorkloadFile(sys, n1, n2, data).Some? <==> forall i :: 0 <= i < |data| ==> WorkloadRows(sys, n1, n2, data[i]).Some?
    decreases |data|
  {
    if data != [] {
      var front := data[..|data| - 1];
      WorkloadFileSome(sys, n1, n2, front);
      assert forall i :: 0 <= i < |front| ==> front[i] == data[i];
    }
  }

  lemma WorkloadRowsWellFormed(sys: Systems, n1: string, n2: string, it: Record)
    requires WellFormed(sys) && !PodField(GetOr(it.metric, n2))
    ensures WorkloadRows(sys, n1, n2, it).Some?
  {
    WorkloadRowsExact(sys, n1, n2, it);
    if WorkloadRows(sys, n1, n2, it).None? {
      WellFormedEntry(sys, "<none>", Get(it.metric, n2).value);
    }
  }

  // ---------------------------------------------------------------------------------------
  // Windows

  /** A query of `multiDayCollect`: the instant query, or the range query over the whole day
      `offset` days before today. */
  datatype Window = Instant | Day(offset: int)

  /** The range windows for count = `count` down to 0: the oldest day first. */
  function DaysDown(count: int): seq<Window>
    decreases count + 1
  {
    if count < 0 then [] else [Day(count)] + DaysDown(count - 1)
  }

  /** The windows `multiDayCollect` asks for: one instant query in current mode, otherwise
      one range query per day for count = days down to 0. */
  function CollectWindows(mode: Mode, days: int): seq<Window>
  {
    match mode
    case Current => [Instant]
    case History => DaysDown(days)
  }

  /** The history windows: days + 1 of them (none for a negative count), the i-th one `days - i`
      days back, so the offsets strictly decrease. */
  lemma {:induction false} DaysDownAt(count: int, i: int)
    requires 0 <= i <= count
    ensures |DaysDown(count)| == count + 1
    ensures DaysDown(count)[i] == Day(count - i)
    decreases count + 1
  {
    DaysDownLength(count - 1);
    if i > 0 {
      DaysDownAt(count - 1, i - 1);
    }
  }

  lemma {:induction false} DaysDownLength(count: int)
    ensures |DaysDown(count)| == if count < 0 then 0 else count + 1
    decreases count + 1
  {
    if count >= 0 {
      DaysDownLength(count - 1);
    }
  }

  /** The result of `multiDayCollect`: the results of its windows concatenated in order;
      `answer` gives the result each window's query returns. */
  function Gathered(ws: seq<Window>, answer: Window -> seq<Record>): seq<Record>
    decreases |ws|
  {
    if ws == [] then [] else Gathered(ws[..|ws| - 1], answer) + answer(ws[|ws| - 1])
  }

  /** One more window gathers its results after the others. */
  lemma GatheredNext(ws: seq<Window>, w: Window, answer: Window -> seq<Record>)
    ensures Gathered(ws + [w], answer) == Gathered(ws, answer) + answer(w)
  {
    assert (ws + [w])[..|ws|] == ws;
  }

  /** Taking the window for `count` moves it from the pending days to the windows asked for. */
  lemma DaysDownNext(ws: seq<Window>, count: int)
    requires count >= 0
    ensures (ws + [Day(count)]) + DaysDown(count - 1) == ws + DaysDown(count)
  {
    assert DaysDown(count) == [Day(count)] + DaysDown(count - 1);
  }

  /** Each window's results come whole and in window order: after the windows before it and
      before the windows after it. */
  lemma {:induction false} GatheredSplit(ws: seq<Window>, k: nat, answer: Window -> seq<Record>)
    requires k <= |ws|
    ensures Gathered(ws, answer) == Gathered(ws[..k], answer) + Gathered(ws[k..], answer)
    decreases |ws|
  {
    if k < |ws| {
      var front := ws[..|ws| - 1];
      GatheredSplit(front, k, answer);
      assert front[..k] == ws[..k];
      assert ws[k..][..|ws[k..]| - 1] == front[k..];
    } else {
      assert ws[..k] == ws;
    }
  }

  /** What one day of the workload loop writes, in order: six range files, the bytes total,
      two more range files and the packets total; each `RangeWrite` stands for its range query
      and the file it writes. */
  datatype WorkloadEvent = RangeWrite(file: string, count: int) | TotalWrite(file: string, count: int)

  function DayEvents(count: int): (r: seq<WorkloadEvent>)
    ensures |r| == 10
    ensures forall e :: 0 <= e < 10 ==> r[e].count == count
  {
    [RangeWrite("cpu_mCores_workload", count), RangeWrite("mem_workload", count),
     RangeWrite("rss_workload", count), RangeWrite("disk_workload", count),
     RangeWrite("net_bytes_s_workload", count), RangeWrite("net_bytes_r_workload", count),
     TotalWrite("net_bytes_workload", count),
     RangeWrite("net_pkts_s_workload", count), RangeWrite("net_pkts_r_workload", count),
     TotalWrite("net_pkts_workload", count)]
  }

  /** The workload loop's events for count = 0 .. n-1, day by day from count 0. */
  function DaysUp(n: nat): seq<WorkloadEvent>
  {
    if n == 0 then [] else DaysUp(n - 1) + DayEvents(n - 1)
  }

  /** The workload loop writes ten files per day, the days with count 0, 1, .. n-1 in that
      order. */
  lemma {:induction false} DaysUpAt(n: nat, c: int, e: int)
    requires 0 <= c < n && 0 <= e < 10
    ensures |DaysUp(n)| == 10 * n
    ensures DaysUp(n)[10 * c + e] == DayEvents(c)[e]
  {
    DaysUpLength(n - 1);
    if c < n - 1 {
      DaysUpAt(n - 1, c, e);
    }
  }

  lemma {:induction false} DaysUpLength(n: nat)
    ensures |DaysUp(n)| == 10 * n
  {
    if n > 0 {
      DaysUpLength(n - 1);
    }
  }

  /** The two drivers walk the days in opposite orders: `multiDayCollect` asks the oldest day
      first, the workload loop writes the newest first. */
  lemma WindowOrders(days: int, i: int)
    requires 0 <= i <= days
    ensures |CollectWindows(History, days)| == days + 1 && |DaysUp(days + 1)| == 10 * (days + 1)
    ensures CollectWindows(History, days)[i] == Day(days - i)
    ensures DaysUp(days + 1)[10 * i].count == i
  {
    DaysDownAt(days, i);
    DaysUpAt(days + 1, i, 0);
  }
}
