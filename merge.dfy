/**
 * Merging each group of near-duplicate plates into one report entry (the
 * `grouped_plates` loop at the end of `analyze_video` in utils.py). A group of
 * one plate keeps its record; a larger group is reported under its most
 * frequent plate, with the summed frequency, the frame of the group's first
 * plate and the image of the most frequent one.
 */
module Merge {
  import opened Seqs
  import opened Aggregation

  /** The recorded plates, as the `plates` dictionary holds them. */
  type Records = map<string, PlateRecord>

  /** Every plate of `group` has a record. */
  predicate Recorded(plates: Records, group: seq<string>) {
    forall p :: p in group ==> p in plates
  }

  /** Every group is non-empty and recorded. */
  predicate WellFormed(plates: Records, groups: seq<seq<string>>) {
    forall gi :: 0 <= gi < |groups| ==> groups[gi] != [] && Recorded(plates, groups[gi])
  }

  /** The position that `max(grupo, key=frequency)` picks: a member of highest
      frequency, and the first one among equals, since `max` only replaces its
      candidate on a strictly greater key. */
  function WinnerIndex(plates: Records, group: seq<string>): (w: nat)
    requires group != [] && Recorded(plates, group)
    ensures w < |group|
    ensures forall j :: 0 <= j < |group| ==> plates[group[j]].frequency <= plates[group[w]].frequency
    ensures forall j :: 0 <= j < w ==> plates[group[j]].frequency < plates[group[w]].frequency
  {
    if |group| == 1 then 0
    else
      var w := WinnerIndex(plates, group[..|group| - 1]);
      assert group[..|group| - 1][w] == group[w];
      if plates[group[|group| - 1]].frequency > plates[group[w]].frequency then |group| - 1 else w
  }

  /** `max_plate`. */
  function Winner(plates: Records, group: seq<string>): string
    requires group != [] && Recorded(plates, group)
  {
    group[WinnerIndex(plates, group)]
  }

  /** `sum(plates[p]['frequency'] for p in grupo)`. */
  function SumFreq(plates: Records, group: seq<string>): nat
    requires Recorded(plates, group)
  {
    if group == [] then 0 else plates[group[0]].frequency + SumFreq(plates, group[1..])
  }

  /** The entry a group contributes to `grouped_plates`. */
  function GroupRecord(plates: Records, group: seq<string>): PlateRecord
    requires group != [] && Recorded(plates, group)
  {
    if |group| == 1 then plates[group[0]]
    else PlateRecord(SumFreq(plates, group), plates[group[0]].frame, plates[Winner(plates, group)].image)
  }

  /** `grouped_plates` after the first groups. */
  function Merged(plates: Records, groups: seq<seq<string>>): (m: Records)
    requires WellFormed(plates, groups)
    ensures forall p :: p in m <==> p in Winners(plates, groups)
  {
    if groups == [] then map[]
    else
      var last := groups[|groups| - 1];
      Merged(plates, groups[..|groups| - 1])[Winner(plates, last) := GroupRecord(plates, last)]
  }

  /** The keys of `grouped_plates` in insertion order: one winner per group. */
  function Winners(plates: Records, groups: seq<seq<string>>): (ws: seq<string>)
    requires WellFormed(plates, groups)
    ensures |ws| == |groups|
    ensures forall gi :: 0 <= gi < |groups| ==> ws[gi] == Winner(plates, groups[gi])
  {
    if groups == [] then []
    else Winners(plates, groups[..|groups| - 1]) + [Winner(plates, groups[|groups| - 1])]
  }

  /** The loop that fills `grouped_plates`, group by group. */
  method MergeGroups(plates: Records, groups: seq<seq<string>>) returns (merged: Records, order: seq<string>)
    requires WellFormed(plates, groups)
    ensures merged == Merged(plates, groups)
    ensures order == Winners(plates, groups)
  {
    merged := map[];
    order := [];
    for k := 0 to |groups|
      invariant WellFormed(plates, groups[..k])
      invariant merged == Merged(plates, groups[..k])
      invariant order == Winners(plates, groups[..k])
    {
      assert groups[..k + 1][..k] == groups[..k];
      var group := groups[k];
      var maxPlate: string;
      var entry: PlateRecord;
      if |group| == 1 {
        maxPlate := group[0];
        entry := plates[maxPlate];
      } else {
        maxPlate := Winner(plates, group);
        entry := PlateRecord(SumFreq(plates, group), plates[group[0]].frame, plates[maxPlate].image);
      }
      merged := merged[maxPlate := entry];
      order := order + [maxPlate];
    }
    assert groups[..|groups|] == groups;
  }

  // ---------------------------------------------------------------------------
  // Properties

  /** The winner is a member of its group. */
  lemma WinnerInGroup(plates: Records, group: seq<string>)
    requires group != [] && Recorded(plates, group)
    ensures Winner(plates, group) in group
  {
  }

  /** The single-plate branch agrees with the general formula: a group of one
      is its own winner and its sum is its own frequency. */
  lemma SingletonAgrees(plates: Records, p: string)
    requires p in plates
    ensures GroupRecord(plates, [p]) == plates[p]
    ensures Winner(plates, [p]) == p && SumFreq(plates, [p]) == plates[p].frequency
  {
    assert [p][1..] == [];
  }

  /** The sum of frequencies over a concatenation. */
  lemma {:induction false} SumFreqAppend(plates: Records, a: seq<string>, b: seq<string>)
    requires Recorded(plates, a) && Recorded(plates, b)
    ensures SumFreq(plates, a + b) == SumFreq(plates, a) + SumFreq(plates, b)
  {
    if a == [] {
      assert a + b == b;
    } else {
      assert (a + b)[1..] == a[1..] + b;
      SumFreqAppend(plates, a[1..], b);
    }
  }

  /** Taking one plate out of a sequence takes its frequency out of the sum. */
  lemma SumFreqRemove(plates: Records, b: seq<string>, i: nat)
    requires Recorded(plates, b) && i < |b|
    ensures Recorded(plates, b[..i] + b[i + 1..])
    ensures SumFreq(plates, b) == plates[b[i]].frequency + SumFreq(plates, b[..i] + b[i + 1..])
  {
    assert b == b[..i] + ([b[i]] + b[i + 1..]);
    SumFreqAppend(plates, b[..i], [b[i]] + b[i + 1..]);
    SumFreqAppend(plates, b[..i], b[i + 1..]);
    assert ([b[i]] + b[i + 1..])[1..] == b[i + 1..];
  }

  lemma MultisetRemove(b: seq<string>, i: nat)
    requires i < |b|
    ensures multiset(b[..i] + b[i + 1..]) == multiset(b) - multiset{b[i]}
  {
    assert b == b[..i] + [b[i]] + b[i + 1..];
  }

  lemma RecordedPermutation(plates: Records, a: seq<string>, b: seq<string>)
    requires Recorded(plates, a) && multiset(a) == multiset(b)
    ensures Recorded(plates, b)
  {
    forall p | p in b ensures p in plates {
      assert p in multiset(b);
    }
  }

  /** Where the first plate of `a` sits in its permutation `b`; the rests are
      again permutations of each other. */
  lemma MatchFirst(a: seq<string>, b: seq<string>) returns (i: nat)
    requires a != [] && multiset(a) == multiset(b)
    ensures i < |b| && b[i] == a[0]
    ensures multiset(a[1..]) == multiset(b[..i] + b[i + 1..])
  {
    assert a[0] in multiset(b);
    i :| 0 <= i < |b| && b[i] == a[0];
    MultisetRemove(b, i);
    assert a == [a[0]] + a[1..];
  }

  /** The sum of frequencies does not depend on the order of the plates. */
  lemma {:induction false} SumFreqPermutation(plates: Records, a: seq<string>, b: seq<string>)
    requires Recorded(plates, a) && multiset(a) == multiset(b)
    ensures Recorded(plates, b)
    ensures SumFreq(plates, a) == SumFreq(plates, b)
    decreases |a|
  {
    RecordedPermutation(plates, a, b);
    if a != [] {
      var i := MatchFirst(a, b);
      SumFreqPermutation(plates, a[1..], b[..i] + b[i + 1..]);
      SumFreqRemove(plates, b, i);
    } else {
      assert multiset(b) == multiset{} && |multiset(b)| == |b|;
    }
  }

  /** A group's entry carries the whole group's frequency. */
  lemma GroupFrequency(plates: Records, group: seq<string>)
    requires group != [] && Recorded(plates, group)
    ensures GroupRecord(plates, group).frequency == SumFreq(plates, group)
  {
    if |group| == 1 {
      SingletonAgrees(plates, group[0]);
      assert group == [group[0]];
    }
  }

  /** Dropping the last group keeps the winners distinct. */
  lemma WinnersInit(plates: Records, groups: seq<seq<string>>)
    requires groups != [] && WellFormed(plates, groups)
    requires NoDuplicates(Winners(plates, groups))
    ensures WellFormed(plates, groups[..|groups| - 1])
    ensures NoDuplicates(Winners(plates, groups[..|groups| - 1]))
  {
    var init := groups[..|groups| - 1];
    var ws, ws' := Winners(plates, groups), Winners(plates, init);
    forall a, b | 0 <= a < b < |ws'| ensures Differ(ws', a, b) {
      assert init[a] == groups[a] && init[b] == groups[b];
      assert Differ(ws, a, b);
    }
  }

  /** Each group's winner holds that group's entry when the winners are
      distinct, so that no entry is overwritten. */
  lemma {:induction false} MergedMeaning(plates: Records, groups: seq<seq<string>>)
    requires WellFormed(plates, groups)
    requires NoDuplicates(Winners(plates, groups))
    ensures forall gi :: 0 <= gi < |groups| ==>
      Merged(plates, groups)[Winner(plates, groups[gi])] == GroupRecord(plates, groups[gi])
  {
    if groups != [] {
      var n := |groups| - 1;
      var init := groups[..n];
      var ws := Winners(plates, groups);
      WinnersInit(plates, groups);
      MergedMeaning(plates, init);
      forall gi | 0 <= gi < |groups|
        ensures Merged(plates, groups)[Winner(plates, groups[gi])] == GroupRecord(plates, groups[gi])
      {
        if gi < n {
          assert init[gi] == groups[gi];
          assert Differ(ws, gi, n);
        }
      }
    }
  }

  /** The winners of disjoint groups are distinct: the report has one entry per
      group. */
  lemma WinnersDistinct(plates: Records, groups: seq<seq<string>>)
    requires WellFormed(plates, groups)
    requires forall gi, gj, v :: 0 <= gi < gj < |groups| && v in groups[gi] ==> v !in groups[gj]
    ensures NoDuplicates(Winners(plates, groups))
  {
    var ws := Winners(plates, groups);
    forall a, b | 0 <= a < b < |ws| ensures Differ(ws, a, b) {
      WinnerInGroup(plates, groups[a]);
      WinnerInGroup(plates, groups[b]);
    }
  }

  /** The frequencies of the report's entries sum to those of all grouped
      plates. */
  lemma {:induction false} TotalPreserved(plates: Records, groups: seq<seq<string>>)
    requires WellFormed(plates, groups)
    requires NoDuplicates(Winners(plates, groups))
    ensures Recorded(plates, Flatten(groups))
    ensures ReportTotal(Merged(plates, groups), Winners(plates, groups)) == SumFreq(plates, Flatten(groups))
  {
    if groups != [] {
      var n := |groups| - 1;
      var init := groups[..n];
      WinnersInit(plates, groups);
      TotalPreserved(plates, init);
      SumFreqAppend(plates, Flatten(init), groups[n]);
      TotalStep(plates, groups);
      GroupFrequency(plates, groups[n]);
    }
  }

  /** The last group adds its own entry's frequency to the report's total. */
  lemma TotalStep(plates: Records, groups: seq<seq<string>>)
    requires groups != [] && WellFormed(plates, groups)
    requires NoDuplicates(Winners(plates, groups))
    ensures WellFormed(plates, groups[..|groups| - 1])
    ensures ReportTotal(Merged(plates, groups), Winners(plates, groups)) ==
      ReportTotal(Merged(plates, groups[..|groups| - 1]), Winners(plates, groups[..|groups| - 1])) +
      GroupRecord(plates, groups[|groups| - 1]).frequency
  {
    var n := |groups| - 1;
    var init := groups[..n];
    assert WellFormed(plates, init);
    var ws, ws' := Winners(plates, groups), Winners(plates, init);
    var before, after := Merged(plates, init), Merged(plates, groups);
    var w := ws[n];
    assert ws == ws' + [w];
    forall q | q in ws' ensures q in before && q in after && q != w && after[q] == before[q] {
      var a :| 0 <= a < |ws'| && ws'[a] == q;
      assert ws[a] == q;
      assert Differ(ws, a, n);
    }
    ReportTotalUnchanged(before, after, ws', w);
    ReportTotalSnoc(after, ws', w);
  }

  /** The plates of all groups, group after group. */
  function Flatten(groups: seq<seq<string>>): seq<string> {
    if groups == [] then [] else Flatten(groups[..|groups| - 1]) + groups[|groups| - 1]
  }

  /** Sum of the frequencies of the entries listed in `order`. */
  function ReportTotal(report: Records, order: seq<string>): nat
    requires forall p :: p in order ==> p in report
  {
    if order == [] then 0
    else ReportTotal(report, order[..|order| - 1]) + report[order[|order| - 1]].frequency
  }

  lemma ReportTotalSnoc(report: Records, order: seq<string>, p: string)
    requires forall q :: q in order + [p] ==> q in report
    ensures ReportTotal(report, order + [p]) == ReportTotal(report, order) + report[p].frequency
  {
    assert (order + [p])[..|order|] == order;
  }

  /** Adding an entry not listed in `order` leaves its total unchanged. */
  lemma {:induction false} ReportTotalUnchanged(before: Records, after: Records, order: seq<string>, p: string)
    requires forall q :: q in order ==> q in before && q in after && q != p && after[q] == before[q]
    ensures ReportTotal(after, order) == ReportTotal(before, order)
  {
    if order != [] {
      var init := order[..|order| - 1];
      forall q | q in init ensures q in before && q in after && q != p && after[q] == before[q] {
        var i :| 0 <= i < |init| && init[i] == q;
        assert order[i] == q;
      }
      ReportTotalUnchanged(before, after, init, p);
    }
  }

  // ---------------------------------------------------------------------------
  // Worked examples

  /** Seven readings of ABC1234 and two of ABC1235 merge into one entry of
      frequency 9 under ABC1234. */
  lemma ExampleMergeTwo()
    ensures Merged(map["ABC1234" := PlateRecord(7, 3, "a"), "ABC1235" := PlateRecord(2, 9, "b")],
                   [["ABC1234", "ABC1235"]]) ==
            map["ABC1234" := PlateRecord(9, 3, "a")]
  {
    var plates := map["ABC1234" := PlateRecord(7, 3, "a"), "ABC1235" := PlateRecord(2, 9, "b")];
    var group := ["ABC1234", "ABC1235"];
    assert WinnerIndex(plates, group[..1]) == 0;
    assert Winner(plates, group) == "ABC1234";
    assert |group[1..][1..]| == 0;
    assert SumFreq(plates, group) == 9;
    var groups: seq<seq<string>> := [group];
    assert groups[..0] == [];
  }

  /** When the most frequent plate is not the group's first, the entry takes
      the frame of the first plate and the image of the most frequent one. */
  lemma ExampleFrameFromFirst()
    ensures Merged(map["ABC1235" := PlateRecord(2, 5, "b"), "ABC1234" := PlateRecord(7, 8, "a")],
                   [["ABC1235", "ABC1234"]]) ==
            map["ABC1234" := PlateRecord(9, 5, "a")]
  {
    var plates := map["ABC1235" := PlateRecord(2, 5, "b"), "ABC1234" := PlateRecord(7, 8, "a")];
    var group := ["ABC1235", "ABC1234"];
    assert WinnerIndex(plates, group[..1]) == 0;
    assert Winner(plates, group) == "ABC1234";
    assert |group[1..][1..]| == 0;
    assert SumFreq(plates, group) == 9;
    var groups: seq<seq<string>> := [group];
    assert groups[..0] == [];
  }

  /** Among equally frequent plates `max` keeps the first. */
  lemma ExampleTie()
    ensures Winner(map["ABC1234" := PlateRecord(3, 1, "a"), "ABC1235" := PlateRecord(3, 2, "b")],
                   ["ABC1235", "ABC1234"]) == "ABC1235"
  {
    var plates := map["ABC1234" := PlateRecord(3, 1, "a"), "ABC1235" := PlateRecord(3, 2, "b")];
    var group := ["ABC1235", "ABC1234"];
    assert WinnerIndex(plates, group[..1]) == 0;
  }

  /** The winner of a tie depends on the order of the group: with C and D
      equally frequent, the depth-first order A, B, D, C picks D, where the
      order A, B, C, D would pick C. */
  lemma ExampleTieFollowsOrder()
    ensures var plates := map["A" := PlateRecord(1, 1, "a"), "B" := PlateRecord(1, 2, "b"),
                              "C" := PlateRecord(5, 3, "c"), "D" := PlateRecord(5, 4, "d")];
      Winner(plates, ["A", "B", "D", "C"]) == "D" && Winner(plates, ["A", "B", "C", "D"]) == "C"
  {
    var plates := map["A" := PlateRecord(1, 1, "a"), "B" := PlateRecord(1, 2, "b"),
                      "C" := PlateRecord(5, 3, "c"), "D" := PlateRecord(5, 4, "d")];
    var dfs, bfs := ["A", "B", "D", "C"], ["A", "B", "C", "D"];
    var w, w' := WinnerIndex(plates, dfs), WinnerIndex(plates, bfs);
    assert plates[dfs[w]].frequency == 5 && plates[bfs[w']].frequency == 5 by {
      assert plates[dfs[w]].frequency >= plates[dfs[2]].frequency;
      assert plates[bfs[w']].frequency >= plates[bfs[2]].frequency;
    }
    assert w == 2 && w' == 2;
  }
}
