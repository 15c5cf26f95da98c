/** The second phase of every label aggregator: one entity's accumulated map turned into a
    single attribute string of `key : value|` segments. */
module Rendering {
  import opened Labels
  import opened Merge

  /** The per-segment length rule an aggregator applies.
      GoBudget: the Go collectors skip keys of 250 characters or more and cut a value to
      256 - 3 - len(key) characters when len(value) + 3 + len(key) >= 256.
      PyBudget: `getattributes` skips the same keys but tests len(value) - 3 - len(key) < 256.
      NoBudget: `getattributespod` emits every key and value whole. */
  datatype Budget = GoBudget | PyBudget | NoBudget

  /** Longest key that is emitted under a budget. */
  const KeyLimit: int := 250
  /** Length a cut segment `key : value` is brought to. */
  const SegmentLimit: int := 256

  /** Whether a value is cut under the budget. */
  predicate Cuts(b: Budget, k: string, v: string)
  {
    match b
    case GoBudget => |v| + 3 + |k| >= SegmentLimit
    case PyBudget => |v| - 3 - |k| >= SegmentLimit
    case NoBudget => false
  }

  /** The segment `key : value` emitted for one entry (without its `|`), or None when the key
      is skipped. */
  function Segment(b: Budget, k: string, v: string): (r: Option<string>)
    ensures r.None? <==> b != NoBudget && |k| >= KeyLimit
    ensures r.Some? && !Cuts(b, k, v) ==> r.value == k + " : " + v
    ensures r.Some? && Cuts(b, k, v) ==> |r.value| == SegmentLimit && r.value == k + " : " + v[..SegmentLimit - 3 - |k|]
  {
    if b != NoBudget && |k| >= KeyLimit then None
    else if Cuts(b, k, v) then Some(k + " : " + v[..SegmentLimit - 3 - |k|])
    else Some(k + " : " + v)
  }

  /** What one entry adds to the attribute string: its segment and a trailing `|`. */
  function Piece(b: Budget, k: string, v: string): string
  {
    match Segment(b, k, v)
    case None => ""
    case Some(s) => s + "|"
  }

  /** The segments emitted for `keys`, in that order. */
  function Segments(b: Budget, keys: seq<string>, vals: map<string, string>): seq<string>
    requires forall i :: 0 <= i < |keys| ==> keys[i] in vals
    decreases |keys|
  {
    if keys == [] then []
    else
      var last := keys[|keys| - 1];
      Segments(b, keys[..|keys| - 1], vals) + match Segment(b, last, vals[last]) case None => [] case Some(s) => [s]
  }

  /** The attribute string before its final `|` is stripped: every segment followed by `|`. */
  function Render(b: Budget, keys: seq<string>, vals: map<string, string>): string
    requires forall i :: 0 <= i < |keys| ==> keys[i] in vals
    decreases |keys|
  {
    if keys == [] then ""
    else
      var last := keys[|keys| - 1];
      Render(b, keys[..|keys| - 1], vals) + Piece(b, last, vals[last])
  }

  /** Rendering one more key appends that key's segment. */
  lemma RenderStep(b: Budget, keys: seq<string>, vals: map<string, string>, j: nat)
    requires j < |keys| && forall i :: 0 <= i < |keys| ==> keys[i] in vals
    ensures Render(b, keys[..j + 1], vals) == Render(b, keys[..j], vals) + Piece(b, keys[j], vals[keys[j]])
  {
    assert keys[..j + 1][..j] == keys[..j];
  }

  /** Joins segments with a `|` after each one. */
  function Joined(segs: seq<string>): string
    decreases |segs|
  {
    if segs == [] then "" else Joined(segs[..|segs| - 1]) + segs[|segs| - 1] + "|"
  }

  /** The attribute string is the emitted segments, each followed by `|`. */
  lemma {:induction false} RenderIsJoinedSegments(b: Budget, keys: seq<string>, vals: map<string, string>)
    requires forall i :: 0 <= i < |keys| ==> keys[i] in vals
    ensures Render(b, keys, vals) == Joined(Segments(b, keys, vals))
    decreases |keys|
  {
    if keys != [] {
      var front := keys[..|keys| - 1];
      var last := keys[|keys| - 1];
      RenderIsJoinedSegments(b, front, vals);
      var segs := Segments(b, front, vals);
      match Segment(b, last, vals[last]) {
        case None =>
          assert Segments(b, keys, vals) == segs + [] == segs;
        case Some(s) =>
          var all := segs + [s];
          assert Segments(b, keys, vals) == all;
          assert all[..|all| - 1] == segs;
      }
    }
  }

  /** Go budget: a `cut` is always within the value, and every emitted segment is at most
      256 characters long. */
  lemma GoSegmentBound(k: string, v: string)
    requires Segment(GoBudget, k, v).Some?
    ensures Cuts(GoBudget, k, v) ==> 0 < SegmentLimit - 3 - |k| <= |v|
    ensures |Segment(GoBudget, k, v).value| <= SegmentLimit
  {
  }

  /** Go budget: the value is cut iff len(value) + 3 + len(key) >= 256, and then to its first
      256 - 3 - len(key) characters; otherwise it is kept whole. So a segment is 256 long
      exactly when it was cut. */
  lemma GoCutIff(k: string, v: string)
    requires |k| < KeyLimit
    ensures Cuts(GoBudget, k, v) <==> |v| + 3 + |k| >= SegmentLimit
    ensures Cuts(GoBudget, k, v) ==> Segment(GoBudget, k, v).value == k + " : " + v[..SegmentLimit - 3 - |k|]
    ensures !Cuts(GoBudget, k, v) ==> Segment(GoBudget, k, v).value == k + " : " + v
    ensures |Segment(GoBudget, k, v).value| == SegmentLimit <==> Cuts(GoBudget, k, v)
  {
  }

  /** Python budget: a value is cut only when len(value) >= 259 + len(key), and a cut segment is
      then exactly 256 long. */
  lemma PyCutSegment(k: string, v: string)
    requires |k| < KeyLimit
    ensures Cuts(PyBudget, k, v) <==> |v| >= SegmentLimit + 3 + |k|
    ensures Cuts(PyBudget, k, v) ==> |Segment(PyBudget, k, v).value| == SegmentLimit
    ensures !Cuts(PyBudget, k, v) ==> Segment(PyBudget, k, v).value == k + " : " + v
  {
  }

  /** Python budget: an uncut segment can exceed 256 characters (key "a", a 258-character value). */
  lemma PySegmentUnbounded()
    ensures var v := seq(258, _ => 'x'); |Segment(PyBudget, "a", v).value| == 262
  {
    var v := seq(258, _ => 'x');
    assert !Cuts(PyBudget, "a", v);
  }

  /** Under every budget, the emitted segments are exactly those of the emitted keys: each
      segment belongs to a key of `keys` that is not skipped, and each such key's segment is
      emitted. */
  lemma {:induction false} SegmentsOfKeys(b: Budget, keys: seq<string>, vals: map<string, string>, s: string)
    requires forall i :: 0 <= i < |keys| ==> keys[i] in vals
    ensures s in Segments(b, keys, vals) <==>
              exists i :: 0 <= i < |keys| && Segment(b, keys[i], vals[keys[i]]) == Some(s)
    decreases |keys|
  {
    if keys != [] {
      var front := keys[..|keys| - 1];
      var last := keys[|keys| - 1];
      SegmentsOfKeys(b, front, vals, s);
      assert forall i :: 0 <= i < |front| ==> front[i] == keys[i];
      if Segment(b, last, vals[last]) == Some(s) {
        assert Segment(b, keys[|keys| - 1], vals[keys[|keys| - 1]]) == Some(s);
      }
    }
  }

  /** Under the Go and Python budgets every emitted segment is the segment of a key shorter
      than 250 characters: a key of 250 characters or more never reaches the attribute. */
  lemma SegmentsOfShortKeys(b: Budget, keys: seq<string>, vals: map<string, string>)
    requires forall i :: 0 <= i < |keys| ==> keys[i] in vals
    requires b != NoBudget
    ensures forall s :: s in Segments(b, keys, vals) ==>
              exists i :: 0 <= i < |keys| && |keys[i]| < KeyLimit && Segment(b, keys[i], vals[keys[i]]) == Some(s)
  {
    forall s | s in Segments(b, keys, vals)
      ensures exists i :: 0 <= i < |keys| && |keys[i]| < KeyLimit && Segment(b, keys[i], vals[keys[i]]) == Some(s)
    {
      SegmentsOfKeys(b, keys, vals, s);
    }
  }

  /** The same, read on the text: a label name (which never holds a space) of 250 characters
      or more contributes nothing to the Go or Python attribute, as no segment starts with it. */
  lemma LongKeyOmitted(b: Budget, keys: seq<string>, vals: map<string, string>, k: string)
    requires forall i :: 0 <= i < |keys| ==> keys[i] in vals
    requires b != NoBudget && |k| >= KeyLimit && ' ' !in k
    ensures forall s :: s in Segments(b, keys, vals) ==> !(k + " : " <= s)
  {
    SegmentsOfShortKeys(b, keys, vals);
    forall s | s in Segments(b, keys, vals) ensures !(k + " : " <= s) {
      var i :| 0 <= i < |keys| && |keys[i]| < KeyLimit && Segment(b, keys[i], vals[keys[i]]) == Some(s);
      if k + " : " <= s {
        SegmentKeyPrefix(b, keys[i], vals[keys[i]], k);
      }
    }
  }

  /** An emitted segment starts with its own key, shorter than 250, and then " : "; so when it
      also starts with a key of 250 characters or more, that longer key holds a space. */
  lemma SegmentKeyPrefix(b: Budget, key: string, v: string, k: string)
    requires Segment(b, key, v).Some? && b != NoBudget && |k| >= KeyLimit
    requires k + " : " <= Segment(b, key, v).value
    ensures ' ' in k
  {
    var s := Segment(b, key, v).value;
    assert s[|key|] == ' ';
    assert |key| < |k|;
    assert k[|key|] == s[|key|];
  }

  /** The attribute string is empty exactly when every key is skipped; otherwise it ends with
      the `|` that the collectors strip. */
  lemma {:induction false} RenderEnds(b: Budget, keys: seq<string>, vals: map<string, string>)
    requires forall i :: 0 <= i < |keys| ==> keys[i] in vals
    ensures |Render(b, keys, vals)| == 0 <==> forall i :: 0 <= i < |keys| ==> Segment(b, keys[i], vals[keys[i]]).None?
    ensures |Render(b, keys, vals)| > 0 ==> Render(b, keys, vals)[|Render(b, keys, vals)| - 1] == '|'
    decreases |keys|
  {
    if keys != [] {
      var front := keys[..|keys| - 1];
      RenderEnds(b, front, vals);
      assert forall i :: 0 <= i < |front| ==> front[i] == keys[i];
    }
  }

  /** The total is not bounded: two short keys with 250-character values already give a Go
      attribute string longer than 256. */
  lemma GoRenderUnbounded()
    ensures var v := seq(250, _ => 'x');
            |Render(GoBudget, ["a", "b"], map["a" := v, "b" := v])| > SegmentLimit
  {
    var v := seq(250, _ => 'x');
    var vals := map["a" := v, "b" := v];
    assert ["a", "b"][..1] == ["a"];
    assert ["a"][..0] == [];
    assert |Piece(GoBudget, "a", v)| == 255;
    assert |Piece(GoBudget, "b", v)| == 255;
  }

  /** `tempAttr += key + " : " + value + "|"` over the keys of one entity's map. */
  method RenderAttr(b: Budget, keys: seq<string>, vals: map<string, string>) returns (attr: string)
    requires forall i :: 0 <= i < |keys| ==> keys[i] in vals
    ensures attr == Render(b, keys, vals)
  {
    attr := "";
    for i := 0 to |keys|
      invariant attr == Render(b, keys[..i], vals)
    {
      RenderStep(b, keys, vals, i);
      attr := attr + Piece(b, keys[i], vals[keys[i]]);
    }
    assert keys[..|keys|] == keys;
  }

  /** The string one entity's temporary map renders to. */
  function RenderAcc(b: Budget, acc: Acc): string
    requires acc.Valid()
  {
    assert forall i :: 0 <= i < |acc.order| ==> acc.order[i] in acc.order;
    Render(b, acc.order, acc.vals)
  }

  /** Every entity of a temporary structure renders to a non-empty string under the budget, so
      stripping its final `|` cannot fail. */
  ghost predicate Renderable<Id(!new)>(b: Budget, t: Temp<Id>)
    requires t.Valid()
  {
    forall id :: id in t.accs ==> Render(b, t.accs[id].order, t.accs[id].vals) != ""
  }

  /** An accumulator holding a key that is not skipped renders to a non-empty string. */
  lemma ShortKeyRenders(b: Budget, acc: Acc, k: string)
    requires acc.Valid() && k in acc.vals && (b == NoBudget || |k| < KeyLimit)
    ensures Render(b, acc.order, acc.vals) != ""
  {
    assert k in acc.order;
    var i :| 0 <= i < |acc.order| && acc.order[i] == k;
    RenderEnds(b, acc.order, acc.vals);
  }

  /** When every resolved series carries the identity label `key`, and `key` is not skipped,
      every entity of the first phase renders to a non-empty string and comes from a series
      that resolved to it. */
  lemma TempRenderable<Id(!new)>(gate: Gate, b: Budget, items: seq<Item<Id>>, key: string)
    requires b == NoBudget || |key| < KeyLimit
    requires forall i :: 0 <= i < |items| && items[i].0.Some? ==> key in Keys(items[i].1)
    ensures CollectAll(gate, items).Valid() && Renderable(b, CollectAll(gate, items))
    ensures forall id :: id in CollectAll(gate, items).accs ==> exists i :: 0 <= i < |items| && items[i].0 == Some(id)
  {
    var t := CollectAll(gate, items);
    forall id | id in t.accs
      ensures Render(b, t.accs[id].order, t.accs[id].vals) != ""
      ensures exists i :: 0 <= i < |items| && items[i].0 == Some(id)
    {
      CollectAllIds(gate, items, id);
      var i :| 0 <= i < |items| && items[i].0 == Some(id);
      CollectAllKeys(gate, items, i);
      ShortKeyRenders(b, t.accs[id], key);
    }
  }
}
