/** The first phase of every label aggregator: all label key/value pairs of the series that
    resolve to one entity are merged into that entity's temporary map (`tempSystems` in the
    Go collectors, `tempsystems` in the Python predecessor). */
module Merge {
  import opened Labels

  /** When a repeated key's new value is appended to the accumulated one.
      The Go collectors append when the accumulated string already CONTAINS the value
      (`strings.Contains(...)` with no negation); the Python predecessor appends when it
      does NOT (`... not in ...`). */
  datatype Gate = AppendIfContained | AppendIfAbsent

  /** The form a label value is stored in: every ',' replaced by ';'. */
  function Sanitize(v: string): (r: string)
    ensures |r| == |v| && ',' !in r
  {
    Replace(v, ',', ';')
  }

  predicate Appends(gate: Gate, acc: string, v: string)
  {
    match gate
    case AppendIfContained => Contains(acc, v)
    case AppendIfAbsent => !Contains(acc, v)
  }

  /** One entity's temporary map: label key -> accumulated value, with its keys in the order
      they were first seen. */
  datatype Acc = Acc(order: seq<string>, vals: map<string, string>)
  {
    ghost predicate Valid()
    {
      && (forall i, j :: 0 <= i < j < |order| ==> order[i] != order[j])
      && (forall k :: k in vals <==> k in order)
    }
  }

  ghost predicate CommaFree(acc: Acc)
  {
    forall k :: k in acc.vals ==> ',' !in acc.vals[k]
  }

  /** Each accumulated value of `a` is a prefix of the one in `b`, and `b` drops no key. */
  ghost predicate Grows(a: Acc, b: Acc)
  {
    forall k :: k in a.vals ==> k in b.vals && a.vals[k] <= b.vals[k]
  }

  /** The empty map built for an entity the first time one of its series is seen. */
  function EmptyAcc(): (r: Acc)
    ensures r.Valid() && CommaFree(r) && r.vals == map[]
  {
    Acc([], map[])
  }

  /** The value key `k` holds once (k, v) is merged into `vals`: the sanitized value for a new
      key; for a repeated key, ";" + the sanitized value appended exactly when the gate says so. */
  function Merged(gate: Gate, vals: map<string, string>, k: string, v: string): string
  {
    if k !in vals then Sanitize(v)
    else if Appends(gate, vals[k], Sanitize(v)) then vals[k] + ";" + Sanitize(v)
    else vals[k]
  }

  /** One label merged into an entity's map; no other key changes. */
  function Step(gate: Gate, acc: Acc, k: string, v: string): (r: Acc)
    requires acc.Valid()
    ensures r.Valid()
    ensures r.vals == acc.vals[k := Merged(gate, acc.vals, k, v)]
  {
    var w := Merged(gate, acc.vals, k, v);
    if k !in acc.vals then Acc(acc.order + [k], acc.vals[k := w])
    else Acc(acc.order, acc.vals[k := w])
  }

  /** A merged value is comma-free whenever the value it extends is, and it always extends
      the value that was there before. */
  lemma MergedShape(gate: Gate, vals: map<string, string>, k: string, v: string)
    ensures ',' !in Merged(gate, vals, k, v) <== (k in vals ==> ',' !in vals[k])
    ensures k in vals ==> vals[k] <= Merged(gate, vals, k, v)
  {
    if k in vals && Appends(gate, vals[k], Sanitize(v)) {
      assert Merged(gate, vals, k, v) == vals[k] + ";" + Sanitize(v);
    }
  }

  /** All labels of one series merged, in the order the series lists them. */
  function MergeLabels(gate: Gate, acc: Acc, labels: LabelSet): (r: Acc)
    requires acc.Valid()
    ensures r.Valid()
    decreases |labels|
  {
    if labels == [] then acc
    else Step(gate, MergeLabels(gate, acc, labels[..|labels| - 1]), labels[|labels| - 1].0, labels[|labels| - 1].1)
  }

  /** Merging a series adds exactly its keys. */
  lemma {:induction false} MergeLabelsKeys(gate: Gate, acc: Acc, labels: LabelSet)
    requires acc.Valid()
    ensures MergeLabels(gate, acc, labels).vals.Keys == acc.vals.Keys + Keys(labels)
    decreases |labels|
  {
    if labels != [] {
      var front := labels[..|labels| - 1];
      assert Keys(labels) == Keys(front) + {labels[|labels| - 1].0} by {
        assert forall i :: 0 <= i < |front| ==> front[i] == labels[i];
      }
      MergeLabelsKeys(gate, acc, front);
    }
  }

  /** Merging a series keeps every accumulated value as a prefix of the new one. */
  lemma {:induction false} MergeLabelsGrows(gate: Gate, acc: Acc, labels: LabelSet)
    requires acc.Valid()
    ensures Grows(acc, MergeLabels(gate, acc, labels))
    decreases |labels|
  {
    if labels != [] {
      var front := labels[..|labels| - 1];
      var last := labels[|labels| - 1];
      MergeLabelsGrows(gate, acc, front);
      MergedShape(gate, MergeLabels(gate, acc, front).vals, last.0, last.1);
    }
  }

  /** Merging a series into a comma-free map leaves it comma-free: the separator the
      collectors later split on never appears inside a value. */
  lemma {:induction false} MergeLabelsCommaFree(gate: Gate, acc: Acc, labels: LabelSet)
    requires acc.Valid() && CommaFree(acc)
    ensures CommaFree(MergeLabels(gate, acc, labels))
    decreases |labels|
  {
    if labels != [] {
      var front := labels[..|labels| - 1];
      var last := labels[|labels| - 1];
      MergeLabelsCommaFree(gate, acc, front);
      MergedShape(gate, MergeLabels(gate, acc, front).vals, last.0, last.1);
    }
  }

  /** A resolved series: the entity it belongs to (None when a lookup failed) and its labels. */
  type Item<Id(!new)> = (Option<Id>, LabelSet)

  /** The whole temporary structure: one accumulator per entity, and the entities in the order
      they were first seen. */
  datatype Temp<Id(!new)> = Temp(accs: map<Id, Acc>, ids: seq<Id>)
  {
    ghost predicate Valid()
    {
      && (forall i, j :: 0 <= i < j < |ids| ==> ids[i] != ids[j])
      && (forall id :: id in accs <==> id in ids)
      && (forall id :: id in accs ==> accs[id].Valid() && CommaFree(accs[id]))
    }
  }

  /** One series of the first phase: a resolved series is merged into its entity's
      accumulator, which is created empty on first sight; an unresolved one changes nothing. */
  function CollectStep<Id(!new)>(gate: Gate, t: Temp<Id>, item: Item<Id>): (r: Temp<Id>)
    requires t.Valid()
    ensures r.Valid()
  {
    match item.0
    case None => t
    case Some(id) =>
      var acc := if id in t.accs then t.accs[id] else EmptyAcc();
      MergeLabelsCommaFree(gate, acc, item.1);
      Temp(t.accs[id := MergeLabels(gate, acc, item.1)], if id in t.accs then t.ids else t.ids + [id])
  }

  /** The first phase over a whole result, series by series. */
  function CollectAll<Id(!new)>(gate: Gate, items: seq<Item<Id>>): (r: Temp<Id>)
    ensures r.Valid()
    decreases |items|
  {
    if items == [] then Temp(map[], [])
    else CollectStep(gate, CollectAll(gate, items[..|items| - 1]), items[|items| - 1])
  }

  /** The entities of the temporary structure are exactly those some series resolved to. */
  lemma {:induction false} CollectAllIds<Id(!new)>(gate: Gate, items: seq<Item<Id>>, id: Id)
    ensures id in CollectAll(gate, items).accs <==> exists i :: 0 <= i < |items| && items[i].0 == Some(id)
    decreases |items|
  {
    if items != [] {
      var front := items[..|items| - 1];
      CollectAllIds(gate, front, id);
      assert forall i :: 0 <= i < |front| ==> front[i] == items[i];
      if items[|items| - 1].0 == Some(id) {
        assert items[|items| - 1].0 == Some(id);
      }
    }
  }

  /** An entity's map holds every label key of every series that resolved to it. */
  lemma {:induction false} CollectAllKeys<Id(!new)>(gate: Gate, items: seq<Item<Id>>, i: int)
    requires 0 <= i < |items| && items[i].0.Some?
    ensures items[i].0.value in CollectAll(gate, items).accs
    ensures Keys(items[i].1) <= CollectAll(gate, items).accs[items[i].0.value].vals.Keys
    decreases |items|
  {
    var front := items[..|items| - 1];
    var last := items[|items| - 1];
    var t := CollectAll(gate, front);
    if i == |items| - 1 {
      var id := last.0.value;
      var acc := if id in t.accs then t.accs[id] else EmptyAcc();
      MergeLabelsKeys(gate, acc, last.1);
    } else {
      assert front[i] == items[i];
      CollectAllKeys(gate, front, i);
      if last.0.Some? && last.0.value == items[i].0.value {
        MergeLabelsKeys(gate, t.accs[last.0.value], last.1);
      }
    }
  }

  /** The inner loop of a label aggregator: one series' labels merged one by one into its
      entity's map, in the order the series lists them. */
  method MergeInto(gate: Gate, acc0: Acc, labels: LabelSet) returns (acc: Acc)
    requires acc0.Valid()
    ensures acc == MergeLabels(gate, acc0, labels)
  {
    acc := acc0;
    for j := 0 to |labels|
      invariant acc == MergeLabels(gate, acc0, labels[..j])
    {
      assert labels[..j + 1][..j] == labels[..j];
      acc := Step(gate, acc, labels[j].0, labels[j].1);
    }
    assert labels[..|labels|] == labels;
  }

  /** The first phase of a label aggregator, run as the collectors run it: loop over the
      series, create the entity's map on first sight, and merge its labels. */
  method Collect<Id(!new)>(gate: Gate, items: seq<Item<Id>>) returns (temp: Temp<Id>)
    ensures temp == CollectAll(gate, items)
  {
    temp := Temp(map[], []);
    for i := 0 to |items|
      invariant temp == CollectAll(gate, items[..i])
    {
      assert items[..i + 1][..i] == items[..i];
      var (entity, labels) := items[i];
      if entity.Some? {
        var id := entity.value;
        var acc := if id in temp.accs then temp.accs[id] else EmptyAcc();
        var ids := if id in temp.accs then temp.ids else temp.ids + [id];
        acc := MergeInto(gate, acc, labels);
        temp := Temp(temp.accs[id := acc], ids);
      }
    }
    assert items[..|items|] == items;
  }

  /** Merging the pair (k, v) under the Python gate always leaves the sanitized `v` inside
      the value of `k`: either it was already there or it has just been appended. */
  lemma AbsentMergedContains(vals: map<string, string>, k: string, v: string)
    ensures Contains(Merged(AppendIfAbsent, vals, k, v), Sanitize(v))
  {
    var w := Sanitize(v);
    if k !in vals {
      ContainsSuffix([], w);
      assert [] + w == w;
    } else if !Contains(vals[k], w) {
      ContainsSuffix(vals[k] + ";", w);
      assert vals[k] + ";" + w == (vals[k] + ";") + w;
    }
  }

  /** An occurrence survives growth of the string it occurs in. */
  lemma ContainsGrows(s: string, t: string, sub: string)
    requires s <= t && Contains(s, sub)
    ensures Contains(t, sub)
  {
    assert t == s + t[|s|..];
    ContainsExtend(s, t[|s|..], sub);
  }

  /** Python gate: once a series has been merged, each of its (sanitized) values occurs in the
      accumulated value of its key, and stays there whatever is merged later. */
  lemma {:induction false} AbsentGateKeepsValue(acc: Acc, labels: LabelSet, i: int)
    requires acc.Valid() && 0 <= i < |labels|
    ensures labels[i].0 in MergeLabels(AppendIfAbsent, acc, labels).vals
    ensures Contains(MergeLabels(AppendIfAbsent, acc, labels).vals[labels[i].0], Sanitize(labels[i].1))
    decreases |labels|
  {
    var front := labels[..|labels| - 1];
    var last := labels[|labels| - 1];
    var m := MergeLabels(AppendIfAbsent, acc, front);
    if i == |labels| - 1 {
      AbsentMergedContains(m.vals, last.0, last.1);
    } else {
      assert front[i] == labels[i];
      AbsentGateKeepsValue(acc, front, i);
      var k := labels[i].0;
      if k == last.0 {
        MergedShape(AppendIfAbsent, m.vals, k, last.1);
        ContainsGrows(m.vals[k], Merged(AppendIfAbsent, m.vals, k, last.1), Sanitize(labels[i].1));
      }
    }
  }

  /** The two gates disagree on both kinds of repeat: with "n1" accumulated, a different value
      "n2" is dropped by the Go gate and appended by the Python one, and the same value "n1" is
      appended a second time by the Go gate and dropped by the Python one. */
  lemma GatesDisagree()
    ensures Merged(AppendIfContained, map["instance" := "n1"], "instance", "n2") == "n1"
    ensures Merged(AppendIfAbsent, map["instance" := "n1"], "instance", "n2") == "n1;n2"
    ensures Merged(AppendIfContained, map["instance" := "n1"], "instance", "n1") == "n1;n1"
    ensures Merged(AppendIfAbsent, map["instance" := "n1"], "instance", "n1") == "n1"
  {
    assert Sanitize("n1") == "n1";
    assert Sanitize("n2") == "n2";
    assert OccursAt("n1", "n1", 0);
    assert !Contains("n1", "n2") by {
      forall i | 0 <= i <= |"n1"| - |"n2"| ensures !OccursAt("n1", "n2", i) {
        assert "n1"[0..2] == "n1";
      }
    }
  }

  /** In a sequence without repetitions, an element is in the sequence iff it is in its front
      or is its last element, and the last element is not in the front. */
  lemma PrefixStep<T>(ids: seq<T>, k: nat, c: T)
    requires 0 < k <= |ids|
    requires forall i, j :: 0 <= i < j < |ids| ==> ids[i] != ids[j]
    ensures c in ids[..k] <==> c in ids[..k - 1] || c == ids[k - 1]
    ensures ids[k - 1] !in ids[..k - 1]
  {
    var front := ids[..k - 1];
    assert ids[..k] == front + [ids[k - 1]];
    forall i | 0 <= i < |front| ensures front[i] != ids[k - 1] {
      assert ids[i] != ids[k - 1];
    }
  }
}
