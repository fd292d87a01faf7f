/**
 * `classifier/PhraseClassifier.kt`: `mostLikely` asks whether a class is the
 * top prediction. The prediction map is modelled as the sequence of its
 * entries in iteration order, which is the order `Stream.max` reduces them in.
 */
module PhraseClassifier {

  datatype Entry = Entry(key: string, value: real)

  /** The entries of a map: no key occurs twice. */
  predicate DistinctKeys(entries: seq<Entry>)
  {
    forall i, j :: 0 <= i < j < |entries| ==> entries[i].key != entries[j].key
  }

  /** `BinaryOperator.maxBy`: the left operand wins unless the right one compares greater. */
  function MaxBy(a: Entry, b: Entry): Entry
  {
    if a.value >= b.value then a else b
  }

  /** `Stream.max` as the left reduction of `MaxBy`, starting from `acc`. */
  function MaxFrom(acc: Entry, rest: seq<Entry>): Entry
    decreases |rest|
  {
    if |rest| == 0 then acc else MaxFrom(MaxBy(acc, rest[0]), rest[1..])
  }

  /** The reduction yields the accumulator or an entry of `rest`, and nothing it passes over is greater. */
  lemma {:induction false} MaxFromBounds(acc: Entry, rest: seq<Entry>)
    ensures MaxFrom(acc, rest) == acc || MaxFrom(acc, rest) in rest
    ensures acc.value <= MaxFrom(acc, rest).value
    ensures forall j :: 0 <= j < |rest| ==> rest[j].value <= MaxFrom(acc, rest).value
    decreases |rest|
  {
    if |rest| > 0 {
      MaxFromBounds(MaxBy(acc, rest[0]), rest[1..]);
      forall j | 1 <= j < |rest| ensures rest[j] == rest[1..][j - 1] { }
    }
  }

  /** `predictions.entries.stream().max { ... }.get()`; an empty map has no maximum. */
  function Maximum(entries: seq<Entry>): (r: Entry)
    requires |entries| > 0
    ensures r in entries
    ensures forall j :: 0 <= j < |entries| ==> entries[j].value <= r.value
  {
    MaxFromBounds(entries[0], entries[1..]);
    assert entries == [entries[0]] + entries[1..];
    MaxFrom(entries[0], entries[1..])
  }

  /** Index `i` holds the first entry of greatest value. */
  predicate FirstMaximum(entries: seq<Entry>, i: int)
  {
    0 <= i < |entries| &&
    (forall j :: 0 <= j < |entries| ==> entries[j].value <= entries[i].value) &&
    (forall j :: 0 <= j < i ==> entries[j].value < entries[i].value)
  }

  /**
   * The reduction from `acc` over `rest` yields `acc` when nothing in `rest`
   * is greater, and otherwise the first entry of `rest` with the greatest
   * value, provided that value exceeds `acc`'s.
   */
  lemma {:induction false} MaxFromIsFirstMaximum(acc: Entry, rest: seq<Entry>)
    ensures (forall j :: 0 <= j < |rest| ==> rest[j].value <= acc.value) ==> MaxFrom(acc, rest) == acc
    ensures (exists j :: 0 <= j < |rest| && rest[j].value > acc.value) ==>
      exists i :: FirstMaximum(rest, i) && rest[i] == MaxFrom(acc, rest) && rest[i].value > acc.value
    decreases |rest|
  {
    if |rest| > 0 {
      var next := MaxBy(acc, rest[0]);
      MaxFromIsFirstMaximum(next, rest[1..]);
      forall j | 0 <= j < |rest[1..]| ensures rest[1..][j] == rest[j + 1] { }
      if exists j :: 0 <= j < |rest| && rest[j].value > acc.value {
        if exists j :: 0 <= j < |rest[1..]| && rest[1..][j].value > next.value {
          var i :| FirstMaximum(rest[1..], i) && rest[1..][i] == MaxFrom(next, rest[1..]) && rest[1..][i].value > next.value;
          assert FirstMaximum(rest, i + 1);
        } else {
          assert next == rest[0];
          assert FirstMaximum(rest, 0);
        }
      }
    }
  }

  /** `Stream.max` returns the first entry of greatest value. */
  lemma MaximumIsFirstMaximum(entries: seq<Entry>)
    requires |entries| > 0
    ensures exists i :: FirstMaximum(entries, i) && entries[i] == Maximum(entries)
  {
    var rest := entries[1..];
    MaxFromIsFirstMaximum(entries[0], rest);
    forall j | 0 <= j < |rest| ensures rest[j] == entries[j + 1] { }
    if exists j :: 0 <= j < |rest| && rest[j].value > entries[0].value {
      var i :| FirstMaximum(rest, i) && rest[i] == Maximum(entries) && rest[i].value > entries[0].value;
      assert FirstMaximum(entries, i + 1);
    } else {
      assert FirstMaximum(entries, 0);
    }
  }

  /** There is exactly one first maximum. */
  lemma FirstMaximumUnique(entries: seq<Entry>, i: int, k: int)
    requires FirstMaximum(entries, i) && FirstMaximum(entries, k)
    ensures i == k
  {
    var vi, vk := entries[i].value, entries[k].value;
    assert vk <= vi && vi <= vk;
  }

  /** `mostLikely`: the class is the key of the maximum. */
  predicate MostLikely(entries: seq<Entry>, clazz: string)
    requires |entries| > 0
  {
    Maximum(entries).key == clazz
  }

  /**
   * In a map, `mostLikely` holds exactly when the class's entry is the first
   * of greatest value in iteration order.
   */
  lemma MostLikelyIff(entries: seq<Entry>, clazz: string)
    requires |entries| > 0 && DistinctKeys(entries)
    ensures MostLikely(entries, clazz) <==>
      exists i :: FirstMaximum(entries, i) && entries[i].key == clazz
  {
    MaximumIsFirstMaximum(entries);
    var m :| FirstMaximum(entries, m) && entries[m] == Maximum(entries);
    if exists i :: FirstMaximum(entries, i) && entries[i].key == clazz {
      var i :| FirstMaximum(entries, i) && entries[i].key == clazz;
      FirstMaximumUnique(entries, i, m);
    }
  }

  /** A class that is no key of the predictions is never the most likely one. */
  lemma NotAKey(entries: seq<Entry>, clazz: string)
    requires |entries| > 0
    requires forall i :: 0 <= i < |entries| ==> entries[i].key != clazz
    ensures !MostLikely(entries, clazz)
  {
    MaximumIsFirstMaximum(entries);
  }

  /** A class whose value is strictly greater than every other is the most likely one. */
  lemma StrictMaximum(entries: seq<Entry>, clazz: string, i: int)
    requires 0 <= i < |entries| && DistinctKeys(entries) && entries[i].key == clazz
    requires forall j :: 0 <= j < |entries| && j != i ==> entries[j].value < entries[i].value
    ensures MostLikely(entries, clazz)
  {
    assert FirstMaximum(entries, i);
    MostLikelyIff(entries, clazz);
  }

  /** Among tied maxima the entry met first wins, so the later one is not the most likely. */
  lemma TieGoesToFirst(entries: seq<Entry>)
    requires entries == [Entry("question", 0.25), Entry("statement", 0.5), Entry("command", 0.5)]
    ensures MostLikely(entries, "statement") && !MostLikely(entries, "command")
  {
    assert FirstMaximum(entries, 1);
    MostLikelyIff(entries, "statement");
    MostLikelyIff(entries, "command");
  }
}
