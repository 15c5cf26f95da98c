/** The label aggregators of the Python predecessor (trans/discover.py): `getattributes`, which
    gathers the labels of the series naming each container into one attribute string, and
    `getattributespod`, which does the same for a pod-level entry. Both merge repeated values
    under the Python gate (append when NOT already contained). */
module DiscoverLabels {
  import opened Labels
  import opened Merge
  import opened Rendering
  import opened Discover

  /** The container key `getattributes` stores its string under: `attr` or `con_info` (the
      two names `main` passes). */
  datatype Target = Attr | ConInfo

  // ---------------------------------------------------------------------------------------
  // getattributes

  /** The container a series of `getattributes` resolves to: its `name1` label names a
      pod-level entry and its `name2` label one of that entry's keys. */
  function AttrId(sys: Systems, n1: string, n2: string, labels: LabelSet): (r: Option<(string, string)>)
    ensures r.Some? ==> Has(sys, r.value.0, r.value.1)
  {
    match Get(labels, n1)
    case None => None
    case Some(p) =>
      if p !in sys then None
      else match Get(labels, n2)
        case None => None
        case Some(k) => if k in sys[p] then Some((p, k)) else None
  }

  function AttrItems(sys: Systems, n1: string, n2: string, data: seq<Record>): seq<Item<(string, string)>>
  {
    seq(|data|, i requires 0 <= i < |data| => (AttrId(sys, n1, n2, data[i].metric), data[i].metric))
  }

  lemma AttrTempIds(sys: Systems, n1: string, n2: string, data: seq<Record>)
    ensures var t := CollectAll(AppendIfAbsent, AttrItems(sys, n1, n2, data));
            forall i :: 0 <= i < |t.ids| ==> t.ids[i] in t.accs && Has(sys, t.ids[i].0, t.ids[i].1)
  {
    var items := AttrItems(sys, n1, n2, data);
    var t := CollectAll(AppendIfAbsent, items);
    forall i | 0 <= i < |t.ids| ensures Has(sys, t.ids[i].0, t.ids[i].1) {
      CollectAllIds(AppendIfAbsent, items, t.ids[i]);
      var j :| 0 <= j < |items| && items[j].0 == Some(t.ids[i]);
      assert AttrId(sys, n1, n2, data[j].metric) == Some(t.ids[i]);
    }
  }

  /** The temporary structure `tempsystems` of `getattributes` (Python gate), with every
      container it holds one of the store. */
  function AttrTemp(sys: Systems, n1: string, n2: string, data: seq<Record>): (t: Temp<(string, string)>)
    ensures t == CollectAll(AppendIfAbsent, AttrItems(sys, n1, n2, data))
    ensures forall i :: 0 <= i < |t.ids| ==> t.ids[i] in t.accs && Has(sys, t.ids[i].0, t.ids[i].1)
  {
    AttrTempIds(sys, n1, n2, data);
    CollectAll(AppendIfAbsent, AttrItems(sys, n1, n2, data))
  }

  /** A container is in the temporary structure exactly when some series names it through
      `name1` and `name2`. */
  lemma AttrTempHolds(sys: Systems, n1: string, n2: string, data: seq<Record>, p: string, k: string)
    requires Has(sys, p, k)
    ensures (p, k) in AttrTemp(sys, n1, n2, data).accs <==>
              exists i :: 0 <= i < |data| && Get(data[i].metric, n1) == Some(p) && Get(data[i].metric, n2) == Some(k)
  {
    var items := AttrItems(sys, n1, n2, data);
    CollectAllIds(AppendIfAbsent, items, (p, k));
    forall i | 0 <= i < |data|
      ensures items[i].0 == Some((p, k)) <==> Get(data[i].metric, n1) == Some(p) && Get(data[i].metric, n2) == Some(k)
    {
    }
  }


  /** The side effects of the render loop over the keys of one container's map: an `instance`
      key appends its value, ';' turned into '|', and a '|' to `con_instance` when the target
      is `attr`; a `pod` key sets `pod_name` whatever the target. Neither depends on the key
      passing the length test. */
  function AttrEffects(c: Container, target: Target, keys: seq<string>, vals: map<string, string>): Container
    requires forall i :: 0 <= i < |keys| ==> keys[i] in vals
    decreases |keys|
  {
    if keys == [] then c
    else KeyEffect(AttrEffects(c, target, keys[..|keys| - 1], vals), target, keys[|keys| - 1], vals[keys[|keys| - 1]])
  }

  /** The side effect of one key with value `v`. */
  function KeyEffect(c: Container, target: Target, k: string, v: string): Container
  {
    if k == "instance" then
      if target == Attr then c.(conInstance := c.conInstance + Replace(v, ';', '|') + "|") else c
    else if k == "pod" then c.(podName := v)
    else c
  }

  /** The side effects of the first `j + 1` keys are those of the first `j`, then key `j`. */
  lemma AttrEffectsStep(c: Container, target: Target, keys: seq<string>, vals: map<string, string>, j: nat)
    requires j < |keys| && forall i :: 0 <= i < |keys| ==> keys[i] in vals
    ensures AttrEffects(c, target, keys[..j + 1], vals) == KeyEffect(AttrEffects(c, target, keys[..j], vals), target, keys[j], vals[keys[j]])
  {
    assert keys[..j + 1][..j] == keys[..j];
  }


  /** The stored attribute string: the rendered segments (Python budget) minus the final `|`,
      the empty string when no key was emitted. */
  function AttrString(acc: Acc): string
    requires acc.Valid()
  {
    PyDropLast(Render(PyBudget, acc.order, acc.vals))
  }

  /** What the render loop of `getattributes` writes into one container: the attribute
      string and the `instance` and `pod` values it met, if any. */
  datatype Write = Write(text: string, instance: Option<string>, pod: Option<string>)

  function WriteOf(acc: Acc): Write
    requires acc.Valid()
  {
    Write(AttrString(acc),
          if "instance" in acc.vals then Some(acc.vals["instance"]) else None,
          if "pod" in acc.vals then Some(acc.vals["pod"]) else None)
  }

  /** A container after the write `w`: the target key holds the text; `con_instance` grows by
      the converted `instance` value only for `attr`; `pod_name` becomes the `pod` value when
      there is one; nothing else changes. */
  function ApplyWrite(c: Container, target: Target, w: Write): Container
  {
    var c1 := c.(conInstance := c.conInstance + if target == Attr && w.instance.Some? then Replace(w.instance.value, ';', '|') + "|" else "",
                 podName := if w.pod.Some? then w.pod.value else c.podName);
    match target
    case Attr => c1.(attr := w.text)
    case ConInfo => c1.(conInfo := w.text)
  }

  /** One container after `getattributes`, as the Python code promises it. */
  function WriteAttr(c: Container, target: Target, acc: Acc): Container
    requires acc.Valid()
  {
    ApplyWrite(c, target, WriteOf(acc))
  }

  /** Over distinct keys the render loop appends the transformed `instance` value to
      `con_instance` once, and only for the `attr` target. */
  lemma {:induction false} AttrEffectsInstance(c: Container, target: Target, keys: seq<string>, vals: map<string, string>)
    requires forall i :: 0 <= i < |keys| ==> keys[i] in vals
    requires forall i, j :: 0 <= i < j < |keys| ==> keys[i] != keys[j]
    ensures AttrEffects(c, target, keys, vals).conInstance ==
              c.conInstance + if target == Attr && "instance" in keys then Replace(vals["instance"], ';', '|') + "|" else ""
    decreases |keys|
  {
    if keys != [] {
      var front := keys[..|keys| - 1];
      var k := keys[|keys| - 1];
      AttrEffectsInstance(c, target, front, vals);
      assert forall x :: x in keys <==> x in front || x == k by {
        assert keys == front + [k];
      }
      assert k !in front by {
        forall i | 0 <= i < |front| ensures front[i] != k {
          assert keys[i] != keys[|keys| - 1];
        }
      }
    }
  }

  /** The render loop sets `pod_name` to the `pod` value when the keys hold one. */
  lemma {:induction false} AttrEffectsPod(c: Container, target: Target, keys: seq<string>, vals: map<string, string>)
    requires forall i :: 0 <= i < |keys| ==> keys[i] in vals
    ensures AttrEffects(c, target, keys, vals).podName == if "pod" in keys then vals["pod"] else c.podName
    decreases |keys|
  {
    if keys != [] {
      var front := keys[..|keys| - 1];
      AttrEffectsPod(c, target, front, vals);
      assert forall x :: x in keys <==> x in front || x == keys[|keys| - 1] by {
        assert keys == front + [keys[|keys| - 1]];
      }
    }
  }

  /** The render loop changes no field besides `con_instance` and `pod_name`. */
  lemma {:induction false} AttrEffectsRest(c: Container, target: Target, keys: seq<string>, vals: map<string, string>)
    requires forall i :: 0 <= i < |keys| ==> keys[i] in vals
    ensures AttrEffects(c, target, keys, vals).(conInstance := "", podName := "") == c.(conInstance := "", podName := "")
    decreases |keys|
  {
    if keys != [] {
      AttrEffectsRest(c, target, keys[..|keys| - 1], vals);
    }
  }

  /** The loop with its side effects, followed by the store of the trimmed string under the
      target, is `WriteAttr`. */
  lemma AttrLoopWrites(c: Container, target: Target, acc: Acc)
    requires acc.Valid()
    ensures var c1 := AttrEffects(c, target, acc.order, acc.vals);
            WriteAttr(c, target, acc) ==
              match target
              case Attr => c1.(attr := AttrString(acc))
              case ConInfo => c1.(conInfo := AttrString(acc))
  {
    AttrEffectsInstance(c, target, acc.order, acc.vals);
    AttrEffectsPod(c, target, acc.order, acc.vals);
    AttrEffectsRest(c, target, acc.order, acc.vals);
  }

  /** The write of one container's attribute string: None when the key is missing (KeyError)
      or holds reserved text (TypeError on the item assignment). */
  function PutAttr(m: Systems, target: Target, id: (string, string), w: Write): Option<Systems>
  {
    if !Has(m, id.0, id.1) then None
    else match m[id.0][id.1]
      case Text(_) => None
      case Entry(c) => Some(SetEntry(m, id.0, id.1, ApplyWrite(c, target, w)))
  }

  /** One slot after a write to it: a container gets the write applied; reserved text is never
      written, because the write raises first. */
  function WriteSlot(s: Slot, target: Target, w: Write): Slot
  {
    match s
    case Text(_) => s
    case Entry(c) => Entry(ApplyWrite(c, target, w))
  }

  /** One write changes only its own container and keeps the shape of the store. */
  lemma PutAttrFacts(m: Systems, target: Target, id: (string, string), w: Write, p: string, j: string)
    requires Has(m, id.0, id.1)
    ensures PutAttr(m, target, id, w).Some? <==> m[id.0][id.1].Entry?
    ensures PutAttr(m, target, id, w).Some? ==> SameShape(m, PutAttr(m, target, id, w).value)
    ensures PutAttr(m, target, id, w).Some? && Has(m, p, j) ==>
              Has(PutAttr(m, target, id, w).value, p, j) &&
              PutAttr(m, target, id, w).value[p][j] == if (p, j) == id then WriteSlot(m[p][j], target, w) else m[p][j]
  {
  }

  lemma ShapeSlot(a: Systems, b: Systems, p: string, j: string)
    requires SameShape(a, b) && Has(a, p, j)
    ensures Has(b, p, j) && (a[p][j].Entry? <==> b[p][j].Entry?)
  {
  }

  lemma ShapeTrans(a: Systems, b: Systems, c: Systems)
    requires SameShape(a, b) && SameShape(b, c)
    ensures SameShape(a, c)
  {
  }

  /** The write each container of the temporary structure receives. */
  function WritesOf(t: Temp<(string, string)>): (ws: map<(string, string), Write>)
    requires t.Valid()
    ensures forall id :: id in ws <==> id in t.accs
  {
    map id | id in t.accs :: WriteOf(t.accs[id])
  }

  /** The render phase of `getattributes` over the first `k` containers of `ids`, each given
      its write from `ws`; None once a write raises. */
  function ApplyAttrs(sys: Systems, target: Target, ids: seq<(string, string)>, ws: map<(string, string), Write>, k: nat): Option<Systems>
    requires k <= |ids| && forall i :: 0 <= i < |ids| ==> ids[i] in ws
  {
    if k == 0 then Some(sys)
    else match ApplyAttrs(sys, target, ids, ws, k - 1)
      case None => None
      case Some(m) => PutAttr(m, target, ids[k - 1], ws[ids[k - 1]])
  }

  /** One more write, from the store the first `k` left. */
  lemma ApplyAttrsNext(sys: Systems, target: Target, ids: seq<(string, string)>, ws: map<(string, string), Write>, k: nat, m: Systems)
    requires k < |ids| && forall i :: 0 <= i < |ids| ==> ids[i] in ws
    requires ApplyAttrs(sys, target, ids, ws, k) == Some(m)
    ensures var id := ids[k];
            ApplyAttrs(sys, target, ids, ws, k + 1) ==
              if Has(m, id.0, id.1) && m[id.0][id.1].Entry?
              then Some(m[id.0 := m[id.0][id.1 := Entry(ApplyWrite(m[id.0][id.1].c, target, ws[id]))]])
              else None
  {
  }

  /** Once a write has raised, the phase stays raised. */
  lemma {:induction false} ApplyAttrsRaised(sys: Systems, target: Target, ids: seq<(string, string)>, ws: map<(string, string), Write>, k: nat, n: nat)
    requires k <= n <= |ids| && forall i :: 0 <= i < |ids| ==> ids[i] in ws
    requires ApplyAttrs(sys, target, ids, ws, k).None?
    ensures ApplyAttrs(sys, target, ids, ws, n).None?
    decreases n
  {
    if n > k {
      ApplyAttrsRaised(sys, target, ids, ws, k, n - 1);
    }
  }

  /** `getattributes(systems, data2, name1, name2, attribute)`. */
  function Attributes(sys: Systems, n1: string, n2: string, target: Target, data: seq<Record>): Option<Systems>
  {
    var t := AttrTemp(sys, n1, n2, data);
    ApplyAttrs(sys, target, t.ids, WritesOf(t), |t.ids|)
  }

  /** The store a phase leaves, when it did not raise. */
  function Outcome(ok: bool, sys: Systems): (r: Option<Systems>)
    ensures r.Some? <==> ok
  {
    if ok then Some(sys) else None
  }

  /** `ws` holds, for every container of the well-formed `t`, the write its accumulator
      makes. */
  ghost predicate WritesFor(t: Temp<(string, string)>, ws: map<(string, string), Write>)
  {
    && (forall i :: 0 <= i < |t.ids| ==> t.ids[i] in ws && t.ids[i] in t.accs && t.accs[t.ids[i]].Valid())
    && forall id {:trigger WriteOf(t.accs[id])} :: id in t.accs && t.accs[id].Valid() ==> id in ws && ws[id] == WriteOf(t.accs[id])
  }

  /** `WritesOf` gives each container of `t` its write. */
  lemma WritesOfFor(t: Temp<(string, string)>)
    requires t.Valid()
    ensures WritesFor(t, WritesOf(t))
  {
    forall i | 0 <= i < |t.ids| ensures t.ids[i] in t.accs {
      assert t.ids[i] in t.ids;
    }
  }

  /** The first `k` containers of `ids` exist in the store and hold container entries. */
  ghost predicate AllEntries(sys: Systems, ids: seq<(string, string)>, k: nat)
    requires k <= |ids|
  {
    forall i :: 0 <= i < k ==> Has(sys, ids[i].0, ids[i].1) && sys[ids[i].0][ids[i].1].Entry?
  }

  lemma AllEntriesStep(sys: Systems, ids: seq<(string, string)>, k: nat)
    requires 0 < k <= |ids|
    ensures AllEntries(sys, ids, k) <==>
              AllEntries(sys, ids, k - 1) && Has(sys, ids[k - 1].0, ids[k - 1].1) && sys[ids[k - 1].0][ids[k - 1].1].Entry?
  {
  }

  /** One write, seen from the store before the whole phase: it raises exactly on reserved
      text, and keeps the shape. */
  lemma PutAttrShape(sys: Systems, m: Systems, target: Target, id: (string, string), w: Write)
    requires SameShape(sys, m) && Has(sys, id.0, id.1)
    ensures PutAttr(m, target, id, w).Some? <==> sys[id.0][id.1].Entry?
    ensures PutAttr(m, target, id, w).Some? ==> SameShape(sys, PutAttr(m, target, id, w).value)
  {
    ShapeSlot(sys, m, id.0, id.1);
    PutAttrFacts(m, target, id, w, id.0, id.1);
    if PutAttr(m, target, id, w).Some? {
      ShapeTrans(sys, m, PutAttr(m, target, id, w).value);
    }
  }

  /** The render phase raises exactly when one of the containers it reaches is reserved text,
      and otherwise keeps the shape of the store. */
  lemma {:induction false} ApplyAttrsShape(sys: Systems, target: Target, ids: seq<(string, string)>, ws: map<(string, string), Write>, k: nat)
    requires k <= |ids| && forall i :: 0 <= i < |ids| ==> ids[i] in ws && Has(sys, ids[i].0, ids[i].1)
    ensures ApplyAttrs(sys, target, ids, ws, k).Some? <==> AllEntries(sys, ids, k)
    ensures ApplyAttrs(sys, target, ids, ws, k).Some? ==> SameShape(sys, ApplyAttrs(sys, target, ids, ws, k).value)
  {
    if k > 0 {
      ApplyAttrsShape(sys, target, ids, ws, k - 1);
      AllEntriesStep(sys, ids, k);
      var id := ids[k - 1];
      if ApplyAttrs(sys, target, ids, ws, k - 1).Some? {
        PutAttrShape(sys, ApplyAttrs(sys, target, ids, ws, k - 1).value, target, id, ws[id]);
      }
    }
  }

  /** The render phase, seen from one container: it holds its write applied to its old self
      when it is among the first `k`, and is unchanged otherwise. */
  lemma {:induction false} ApplyAttrsAt(sys: Systems, target: Target, ids: seq<(string, string)>, ws: map<(string, string), Write>, k: nat, p: string, j: string)
    requires k <= |ids| && forall i :: 0 <= i < |ids| ==> ids[i] in ws
    requires forall a, b :: 0 <= a < b < |ids| ==> ids[a] != ids[b]
    requires Has(sys, p, j) && ApplyAttrs(sys, target, ids, ws, k).Some?
    ensures Has(ApplyAttrs(sys, target, ids, ws, k).value, p, j)
    ensures ApplyAttrs(sys, target, ids, ws, k).value[p][j] ==
              if (p, j) in ids[..k] then WriteSlot(sys[p][j], target, ws[(p, j)]) else sys[p][j]
    ensures (p, j) in ids[..k] ==> sys[p][j].Entry?
  {
    if k > 0 {
      var id := ids[k - 1];
      var m := ApplyAttrs(sys, target, ids, ws, k - 1).value;
      ApplyAttrsAt(sys, target, ids, ws, k - 1, p, j);
      PrefixStep(ids, k, (p, j));
      PutAttrFacts(m, target, id, ws[id], p, j);
    }
  }

  /** `getattributes` raises exactly when a series names a container key that holds reserved
      text; otherwise it creates and removes nothing, every container some series names holds
      `WriteAttr` of its old self with the merged labels of those series, and every other
      container is unchanged. */
  lemma AttributesAt(sys: Systems, n1: string, n2: string, target: Target, data: seq<Record>, p: string, j: string)
    requires Has(sys, p, j)
    ensures var t := AttrTemp(sys, n1, n2, data);
            && (Attributes(sys, n1, n2, target, data).Some? <==> AllEntries(sys, t.ids, |t.ids|))
            && (Attributes(sys, n1, n2, target, data).Some? ==>
                  var r := Attributes(sys, n1, n2, target, data).value;
                  && SameShape(sys, r)
                  && if (p, j) in t.accs
                     then sys[p][j].Entry? && r[p][j] == Entry(WriteAttr(sys[p][j].c, target, t.accs[(p, j)]))
                     else r[p][j] == sys[p][j])
  {
    var t := AttrTemp(sys, n1, n2, data);
    var ws := WritesOf(t);
    ApplyAttrsShape(sys, target, t.ids, ws, |t.ids|);
    if Attributes(sys, n1, n2, target, data).Some? {
      ApplyAttrsAt(sys, target, t.ids, ws, |t.ids|, p, j);
      assert t.ids[..|t.ids|] == t.ids;
    }
  }

  /** In a well-formed store `getattributes` raises only when a series names a reserved key as
      its container, and it keeps the store well formed. */
  lemma AttributesWellFormed(sys: Systems, n1: string, n2: string, target: Target, data: seq<Record>)
    requires WellFormed(sys)
    requires forall i :: 0 <= i < |data| ==> !PodField(GetOr(data[i].metric, n2))
    ensures Attributes(sys, n1, n2, target, data).Some?
    ensures WellFormed(Attributes(sys, n1, n2, target, data).value)
  {
    var t := AttrTemp(sys, n1, n2, data);
    var items := AttrItems(sys, n1, n2, data);
    forall i | 0 <= i < |t.ids| ensures Has(sys, t.ids[i].0, t.ids[i].1) && sys[t.ids[i].0][t.ids[i].1].Entry? {
      var id := t.ids[i];
      CollectAllIds(AppendIfAbsent, items, id);
      var x :| 0 <= x < |items| && items[x].0 == Some(id);
      assert GetOr(data[x].metric, n2) == id.1;
      WellFormedEntry(sys, id.0, id.1);
    }
    assert AllEntries(sys, t.ids, |t.ids|);
    ApplyAttrsShape(sys, target, t.ids, WritesOf(t), |t.ids|);
    var r := Attributes(sys, n1, n2, target, data).value;
    forall q | q in r ensures WellFormedPod(r[q]) {
      assert WellFormedPod(sys[q]);
      forall k | k in r[q] && r[q][k].Text? ensures PodField(k) {
        assert sys[q][k].Text?;
      }
    }
  }

  // ---------------------------------------------------------------------------------------
  // getattributespod

  function PodId(sys: Systems, n1: string, labels: LabelSet): (r: Option<string>)
    ensures r.Some? ==> r.value in sys
  {
    match Get(labels, n1)
    case None => None
    case Some(p) => if p in sys then Some(p) else None
  }

  function PodItems(sys: Systems, n1: string, data: seq<Record>): seq<Item<string>>
  {
    seq(|data|, i requires 0 <= i < |data| => (PodId(sys, n1, data[i].metric), data[i].metric))
  }

  lemma PodTempIds(sys: Systems, n1: string, data: seq<Record>)
    ensures var t := CollectAll(AppendIfAbsent, PodItems(sys, n1, data));
            forall i :: 0 <= i < |t.ids| ==> t.ids[i] in t.accs && t.ids[i] in sys
  {
    var items := PodItems(sys, n1, data);
    var t := CollectAll(AppendIfAbsent, items);
    forall i | 0 <= i < |t.ids| ensures t.ids[i] in sys {
      CollectAllIds(AppendIfAbsent, items, t.ids[i]);
      var j :| 0 <= j < |items| && items[j].0 == Some(t.ids[i]);
      assert PodId(sys, n1, data[j].metric) == Some(t.ids[i]);
    }
  }

  /** The temporary structure of `getattributespod` (Python gate). */
  function PodTemp(sys: Systems, n1: string, data: seq<Record>): (t: Temp<string>)
    ensures t == CollectAll(AppendIfAbsent, PodItems(sys, n1, data))
    ensures forall i :: 0 <= i < |t.ids| ==> t.ids[i] in t.accs && t.ids[i] in sys
  {
    PodTempIds(sys, n1, data);
    CollectAll(AppendIfAbsent, PodItems(sys, n1, data))
  }

  /** The side effects of the pod render loop: `created_by_kind` and `created_by_name` keys
      are copied into the pod-level entry as text. */
  function PodEffects(pod: Pod, keys: seq<string>, vals: map<string, string>): Pod
    requires forall i :: 0 <= i < |keys| ==> keys[i] in vals
    decreases |keys|
  {
    if keys == [] then pod
    else KeyCopy(PodEffects(pod, keys[..|keys| - 1], vals), keys[|keys| - 1], vals[keys[|keys| - 1]])
  }

  /** The side effect of one key with value `v`. */
  function KeyCopy(pod: Pod, k: string, v: string): Pod
  {
    if k == "created_by_kind" || k == "created_by_name" then pod[k := Text(v)] else pod
  }

  /** The side effects of the first `j + 1` keys are those of the first `j`, then key `j`. */
  lemma PodEffectsStep(pod: Pod, keys: seq<string>, vals: map<string, string>, j: nat)
    requires j < |keys| && forall i :: 0 <= i < |keys| ==> keys[i] in vals
    ensures PodEffects(pod, keys[..j + 1], vals) == KeyCopy(PodEffects(pod, keys[..j], vals), keys[j], vals[keys[j]])
  {
    assert keys[..j + 1][..j] == keys[..j];
  }


  /** The two controller keys copied into the pod-level entry when the keys hold them. */
  function PodCopies(pod: Pod, keys: seq<string>, vals: map<string, string>): Pod
    requires forall i :: 0 <= i < |keys| ==> keys[i] in vals
  {
    var p1 := if "created_by_kind" in keys then pod["created_by_kind" := Text(vals["created_by_kind"])] else pod;
    if "created_by_name" in keys then p1["created_by_name" := Text(vals["created_by_name"])] else p1
  }

  /** One pod-level entry after `getattributespod`: every key and value rendered whole (no
      length rule) and trimmed of its final `|` under `attribute`; `created_by_kind` and
      `created_by_name` copied when present; every other key unchanged. */
  function WritePodAttr(pod: Pod, attribute: string, acc: Acc): Pod
    requires acc.Valid()
  {
    PodCopies(pod, acc.order, acc.vals)[attribute := Text(PyDropLast(Render(NoBudget, acc.order, acc.vals)))]
  }

  /** The pod render loop's side effects are the two copies, in whatever order the keys come. */
  lemma {:induction false} PodEffectsExact(pod: Pod, keys: seq<string>, vals: map<string, string>)
    requires forall i :: 0 <= i < |keys| ==> keys[i] in vals
    ensures PodEffects(pod, keys, vals) == PodCopies(pod, keys, vals)
    decreases |keys|
  {
    if keys != [] {
      var front := keys[..|keys| - 1];
      var k := keys[|keys| - 1];
      PodEffectsExact(pod, front, vals);
      assert forall x :: x in keys <==> x in front || x == k by {
        assert keys == front + [k];
      }
      if k == "created_by_kind" && "created_by_name" in front {
        var p0 := if "created_by_kind" in front then pod["created_by_kind" := Text(vals["created_by_kind"])] else pod;
        assert p0["created_by_name" := Text(vals["created_by_name"])]["created_by_kind" := Text(vals[k])] ==
               pod["created_by_kind" := Text(vals[k])]["created_by_name" := Text(vals["created_by_name"])];
      }
    }
  }

  /** The loop with its side effects, followed by the store of the trimmed string, is
      `WritePodAttr`. */
  lemma PodLoopWrites(pod: Pod, attribute: string, acc: Acc)
    requires acc.Valid()
    ensures PodEffects(pod, acc.order, acc.vals)[attribute := Text(PyDropLast(Render(NoBudget, acc.order, acc.vals)))] ==
              WritePodAttr(pod, attribute, acc)
  {
    PodEffectsExact(pod, acc.order, acc.vals);
  }

  /** Stored under a reserved key, the write keeps a pod-level entry well formed. */
  lemma WritePodAttrWellFormed(pod: Pod, attribute: string, acc: Acc)
    requires acc.Valid() && WellFormedPod(pod) && PodField(attribute)
    ensures WellFormedPod(WritePodAttr(pod, attribute, acc))
  {
  }

  /** `t` is a well-formed temporary structure each of whose pod-level entries is in `sys`. */
  ghost predicate PodReady(sys: Systems, t: Temp<string>)
  {
    && t.Valid()
    && forall i :: 0 <= i < |t.ids| ==> t.ids[i] in t.accs && t.ids[i] in sys
  }

  /** The render phase of `getattributespod` over the first `k` entries of `t`. */
  function ApplyPodAttrs(sys: Systems, attribute: string, t: Temp<string>, k: nat): (r: Systems)
    requires PodReady(sys, t) && k <= |t.ids|
    ensures r.Keys == sys.Keys
  {
    if k == 0 then sys
    else
      var m := ApplyPodAttrs(sys, attribute, t, k - 1);
      var id := t.ids[k - 1];
      m[id := WritePodAttr(m[id], attribute, t.accs[id])]
  }

  /** One more entry of the phase, from the store the first `k` left. */
  lemma ApplyPodAttrsNext(sys: Systems, attribute: string, t: Temp<string>, k: nat)
    requires PodReady(sys, t) && k < |t.ids|
    ensures var m := ApplyPodAttrs(sys, attribute, t, k);
            var id := t.ids[k];
            && id in m && id in t.accs && t.accs[id].Valid()
            && ApplyPodAttrs(sys, attribute, t, k + 1) == m[id := WritePodAttr(m[id], attribute, t.accs[id])]
  {
  }

  /** `getattributespod(systems, data2, name1, attribute)`; it never raises. */
  function PodAttributes(sys: Systems, n1: string, attribute: string, data: seq<Record>): Systems
  {
    var t := PodTemp(sys, n1, data);
    ApplyPodAttrs(sys, attribute, t, |t.ids|)
  }

  lemma {:induction false} ApplyPodAttrsAt(sys: Systems, attribute: string, t: Temp<string>, k: nat, p: string)
    requires PodReady(sys, t) && k <= |t.ids|
    requires p in sys
    ensures ApplyPodAttrs(sys, attribute, t, k)[p] == if p in t.ids[..k] then WritePodAttr(sys[p], attribute, t.accs[p]) else sys[p]
  {
    if k > 0 {
      ApplyPodAttrsAt(sys, attribute, t, k - 1, p);
      PrefixStep(t.ids, k, p);
    }
  }

  /** `getattributespod` creates and removes no pod-level entry; every entry some series names
      through `name1` holds `WritePodAttr` of its old self, and every other entry is unchanged. */
  lemma PodAttributesAt(sys: Systems, n1: string, attribute: string, data: seq<Record>, p: string)
    requires p in sys
    ensures PodAttributes(sys, n1, attribute, data).Keys == sys.Keys
    ensures var t := PodTemp(sys, n1, data);
            PodAttributes(sys, n1, attribute, data)[p] == if p in t.accs then WritePodAttr(sys[p], attribute, t.accs[p]) else sys[p]
  {
    var t := PodTemp(sys, n1, data);
    ApplyPodAttrsAt(sys, attribute, t, |t.ids|, p);
    assert t.ids[..|t.ids|] == t.ids;
  }

  /** Stored under a reserved key, `getattributespod` keeps the store well formed. */
  lemma PodAttributesWellFormed(sys: Systems, n1: string, attribute: string, data: seq<Record>)
    requires WellFormed(sys) && PodField(attribute)
    ensures WellFormed(PodAttributes(sys, n1, attribute, data))
  {
    var r := PodAttributes(sys, n1, attribute, data);
    var t := PodTemp(sys, n1, data);
    forall q | q in r ensures WellFormedPod(r[q]) {
      PodAttributesAt(sys, n1, attribute, data, q);
      assert WellFormedPod(sys[q]);
      if q in t.accs {
        WritePodAttrWellFormed(sys[q], attribute, t.accs[q]);
      }
    }
  }
}
