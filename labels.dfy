/** Query results as the ingestion engine receives them, and the string operations
    (strings.Replace, strings.Contains, slicing) that the binders and aggregators apply to them. */
module Labels {

  datatype Option<T> = None | Some(value: T)

  /** A label set, in the order the model iterates it; the backend never repeats a key. */
  type LabelSet = seq<(string, string)>

  /** One series of a range-query matrix: its label set and its samples, each sample already
      truncated to an integer. */
  datatype Series = Series(labels: LabelSet, samples: seq<int>)

  /** The keys of a label set. */
  ghost function Keys(labels: LabelSet): set<string>
  {
    set i | 0 <= i < |labels| :: labels[i].0
  }

  /** `value, ok := Metric[key]`: the value of the first label named `key`. */
  function Get(labels: LabelSet, key: string): (r: Option<string>)
    ensures r.None? <==> key !in Keys(labels)
    ensures r.Some? ==> exists i :: 0 <= i < |labels| && labels[i] == (key, r.value)
  {
    if labels == [] then None
    else if labels[0].0 == key then Some(labels[0].1)
    else
      var r := Get(labels[1..], key);
      assert Keys(labels) == {labels[0].0} + Keys(labels[1..]) by {
        forall k | k in Keys(labels) ensures k in {labels[0].0} + Keys(labels[1..]) {
          var i :| 0 <= i < |labels| && labels[i].0 == k;
          if i > 0 { assert labels[1..][i - 1].0 == k; }
        }
      }
      assert r.Some? ==> exists i :: 0 <= i < |labels| && labels[i] == (key, r.value) by {
        if r.Some? {
          var i :| 0 <= i < |labels[1..]| && labels[1..][i] == (key, r.value);
          assert labels[i + 1] == (key, r.value);
        }
      }
      r
  }

  /** `Metric[key]` used as a value: the empty string when the label is absent. */
  function GetOr(labels: LabelSet, key: string): (v: string)
    ensures key !in Keys(labels) ==> v == ""
    ensures key in Keys(labels) ==> Some(v) == Get(labels, key)
  {
    match Get(labels, key)
    case Some(v) => v
    case None => ""
  }

  /** The value a binder takes from a series: the last sample, or 0 when there is none. */
  function LastSample(samples: seq<int>): int
  {
    if |samples| == 0 then 0 else samples[|samples| - 1]
  }

  /** Only the last sample matters, and an empty series binds 0. */
  lemma LastSampleWins(earlier: seq<int>, other: seq<int>, last: int)
    ensures LastSample(earlier + [last]) == LastSample(other + [last]) == last
    ensures LastSample([]) == 0
  {
  }

  /** `strings.Replace(s, from, to, -1)` / `s.replace(from, to)` for one-character patterns. */
  function Replace(s: string, from: char, to: char): (r: string)
    ensures |r| == |s|
    ensures from != to ==> from !in r
    ensures forall i :: 0 <= i < |s| && s[i] != from ==> r[i] == s[i]
    ensures forall i :: 0 <= i < |s| && s[i] == from ==> r[i] == to
  {
    seq(|s|, i requires 0 <= i < |s| => if s[i] == from then to else s[i])
  }

  /** `strings.Contains(s, sub)` / Python's `sub in s`: `sub` occurs in `s` at some offset. */
  predicate Contains(s: string, sub: string)
  {
    exists i | 0 <= i <= |s| - |sub| :: OccursAt(s, sub, i)
  }

  /** `sub` occurs in `s` starting at offset `i`. */
  predicate OccursAt(s: string, sub: string, i: int)
  {
    0 <= i <= |s| - |sub| && s[i..i + |sub|] == sub
  }

  /** An occurrence survives any extension of the string on the right. */
  lemma ContainsExtend(s: string, t: string, sub: string)
    requires Contains(s, sub)
    ensures Contains(s + t, sub)
  {
    var i :| 0 <= i <= |s| - |sub| && OccursAt(s, sub, i);
    assert (s + t)[i..i + |sub|] == sub;
    assert OccursAt(s + t, sub, i);
  }

  /** A string occurs at its own end. */
  lemma ContainsSuffix(s: string, sub: string)
    ensures Contains(s + sub, sub)
  {
    assert (s + sub)[|s|..|s| + |sub|] == sub;
    assert OccursAt(s + sub, sub, |s|);
  }

  /** `s[:len(s)-1]` in Go: removes the trailing separator; Go panics on the empty string. */
  function DropLast(s: string): (r: string)
    requires |s| > 0
    ensures r + [s[|s| - 1]] == s
  {
    s[..|s| - 1]
  }

  /** `s[:-1]` in Python: as DropLast, but the empty string stays empty. */
  function PyDropLast(s: string): (r: string)
    ensures |s| == 0 ==> r == s
    ensures |s| > 0 ==> r + [s[|s| - 1]] == s
  {
    if |s| == 0 then s else s[..|s| - 1]
  }
}
