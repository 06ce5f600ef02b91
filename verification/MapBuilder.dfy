/** The builder's options that fill the label and annotation maps of an object in place. */
module MapBuilder {
  import opened DeepCopies

  // ---------------------------------------------------------------- the specification

  /** An odd list gets an empty value for its last key. */
  function Padded(vals: seq<string>): (r: seq<string>)
    ensures |r| % 2 == 0
  {
    if |vals| % 2 != 0 then vals + [""] else vals
  }

  /** The pairs of the list written one after the other. */
  function Written(m: map<string, string>, vals: seq<string>): map<string, string>
    requires |vals| % 2 == 0
    decreases |vals|
  {
    if vals == [] then m else Written(m[vals[0] := vals[1]], vals[2..])
  }

  /** The pair at `i` is the last one for its key. */
  predicate LastPair(vals: seq<string>, i: nat)
    requires |vals| % 2 == 0
  {
    i % 2 == 0 && i < |vals| && forall j :: i < j < |vals| && j % 2 == 0 ==> vals[j] != vals[i]
  }

  /** The last pair for a key wins. */
  lemma {:induction false} LastWins(m: map<string, string>, vals: seq<string>, i: nat)
    requires |vals| % 2 == 0 && LastPair(vals, i)
    ensures vals[i] in Written(m, vals) && Written(m, vals)[vals[i]] == vals[i + 1]
    decreases |vals|
  {
    if i == 0 {
      forall j | 0 <= j < |vals[2..]| && j % 2 == 0 ensures vals[2..][j] != vals[0] {
        assert vals[2..][j] == vals[j + 2];
      }
      UnmentionedStays(m[vals[0] := vals[1]], vals[2..], vals[0]);
    } else {
      forall j | i - 2 < j < |vals[2..]| && j % 2 == 0 ensures vals[2..][j] != vals[2..][i - 2] {
        assert vals[2..][j] == vals[j + 2];
      }
      LastWins(m[vals[0] := vals[1]], vals[2..], i - 2);
    }
  }

  /** Keys that the list does not mention keep their value, or stay absent. */
  lemma {:induction false} UnmentionedStays(m: map<string, string>, vals: seq<string>, k: string)
    requires |vals| % 2 == 0 && forall j :: 0 <= j < |vals| && j % 2 == 0 ==> vals[j] != k
    ensures k in Written(m, vals) <==> k in m
    ensures k in m ==> Written(m, vals)[k] == m[k]
    decreases |vals|
  {
    if vals != [] {
      forall j | 0 <= j < |vals[2..]| && j % 2 == 0 ensures vals[2..][j] != k {
        assert vals[2..][j] == vals[j + 2];
      }
      UnmentionedStays(m[vals[0] := vals[1]], vals[2..], k);
    }
  }

  lemma {:induction false} WrittenConcat(m: map<string, string>, a: seq<string>, b: seq<string>)
    requires |a| % 2 == 0 && |b| % 2 == 0
    ensures Written(Written(m, a), b) == Written(m, a + b)
    decreases |a|
  {
    if a == [] {
      assert a + b == b;
    } else {
      assert (a + b)[2..] == a[2..] + b;
      WrittenConcat(m[a[0] := a[1]], a[2..], b);
    }
  }

  /** Two applications in a row are one with the lists joined, the first one padded: an odd first list stands for
      itself with an empty value appended. */
  lemma ApplyTwice(m: map<string, string>, a: seq<string>, b: seq<string>)
    ensures Written(Written(m, Padded(a)), Padded(b)) == Written(m, Padded(Padded(a) + b))
    ensures |a| % 2 == 0 ==> Written(Written(m, Padded(a)), Padded(b)) == Written(m, Padded(a + b))
  {
    WrittenConcat(m, Padded(a), Padded(b));
    assert Padded(a) + Padded(b) == Padded(Padded(a) + b);
  }

  /** Without the padding the joined list means something else. */
  lemma OddListsDoNotJoin(k: string, v: string)
    requires v != "" && k != v
    ensures Written(Written(map[], Padded([k])), Padded([v])) == map[k := "", v := ""]
    ensures Written(map[], Padded([k] + [v])) == map[k := v]
  {
    assert Padded([k]) == [k, ""] && Padded([v]) == [v, ""] && [k] + [v] == [k, v];
    assert [k, ""][2..] == [] && [v, ""][2..] == [] && [k, v][2..] == [];
  }

  // ---------------------------------------------------------------- the code

  function Entries(m: StringMap?): map<string, string>
    reads m
  {
    if m == null then map[] else m.entries
  }

  method SetMapEntries(m: StringMap?, vals: seq<string>) returns (r: StringMap)
    modifies m
    ensures r.entries == Written(old(Entries(m)), Padded(vals))
    ensures if m == null then fresh(r) else r == m
  {
    if m == null {
      r := new StringMap();
    } else {
      r := m;
    }
    var padded := vals;
    if |vals| % 2 != 0 {
      padded := vals + [""];
    }
    var i := 0;
    while i < |padded|
      invariant 0 <= i <= |padded| && i % 2 == 0
      invariant Written(r.entries, padded[i..]) == Written(old(Entries(m)), padded)
    {
      var key, val := padded[i], padded[i + 1];
      assert padded[i..][2..] == padded[i + 2..];
      r.entries := r.entries[key := val];
      i := i + 2;
    }
  }

  /** The label and annotation maps of an object's metadata. */
  class ObjectMeta {
    var labels: StringMap?
    var annotations: StringMap?

    method WithLabels(vals: seq<string>)
      modifies this`labels, labels
      ensures labels != null && labels.entries == Written(old(Entries(labels)), Padded(vals))
      ensures if old(labels) == null then fresh(labels) else labels == old(labels)
    {
      var updated := SetMapEntries(labels, vals);
      labels := updated;
    }

    method WithAnnotations(vals: seq<string>)
      modifies this`annotations, annotations
      ensures annotations != null && annotations.entries == Written(old(Entries(annotations)), Padded(vals))
      ensures if old(annotations) == null then fresh(annotations) else annotations == old(annotations)
    {
      var updated := SetMapEntries(annotations, vals);
      annotations := updated;
    }

    /** The given entries replace those of the object, also when both are the same map. */
    method WithLabelsMap(given: StringMap?)
      modifies this`labels, labels
      ensures labels != null && labels.entries == old(Entries(labels) + Entries(given))
      ensures if old(labels) == null then fresh(labels) else labels == old(labels)
    {
      var objLabels := labels;
      if objLabels == null {
        objLabels := new StringMap();
      }
      if given != null {
        var keys := given.entries.Keys;
        while keys != {}
          invariant keys <= old(Entries(given)).Keys && given.entries == old(Entries(given))
          invariant objLabels.entries.Keys == old(Entries(labels)).Keys + (old(Entries(given)).Keys - keys)
          invariant forall k :: k in objLabels.entries && k in old(Entries(given)) && k !in keys ==>
                      objLabels.entries[k] == old(Entries(given))[k]
          invariant forall k :: k in objLabels.entries && (k !in old(Entries(given)) || k in keys) ==>
                      objLabels.entries[k] == old(Entries(labels))[k]
        {
          var k :| k in keys;
          objLabels.entries := objLabels.entries[k := given.entries[k]];
          keys := keys - {k};
        }
      }
      labels := objLabels;
    }
  }
}
