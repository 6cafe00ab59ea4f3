/**
 * The text side of `analyze_video` in utils.py, end to end: every detected crop
 * of a sampled frame is read (`extract_plate_from_image`), the accepted plates
 * are tallied, the tallied plates are grouped by Hamming distance at most 1,
 * and each group is merged into one report entry. The detector, the OCR engine
 * and the blue-strip test are outside the model: each crop arrives with the
 * texts the OCR engine returned for it and the blue-strip verdict.
 */
module Pipeline {
  import opened Wrappers
  import opened Seqs
  import opened Corrector
  import opened Fragments
  import opened Aggregation
  import opened Hamming
  import opened Clustering
  import opened Merge

  /** `max_dist=1` in the call of the grouping. */
  const MaxDist: int := 1

  /** One crop handed to `extract_plate_from_image`: the frame number, the
      OCR texts in reading order, the blue-strip verdict and the encoded image. */
  datatype Crop = Crop(frame: int, texts: seq<string>, blueStrip: bool, image: Image)

  /** The plate read from one crop. */
  function ReadPlate(c: Crop): Option<string> {
    Select(c.texts, c.blueStrip)
  }

  /** The sightings the aggregation records, crop by crop: a crop whose
      reading yields a non-empty plate contributes one. */
  function Accepted(crops: seq<Crop>): (log: seq<Observation>)
    ensures |log| <= |crops|
  {
    if crops == [] then []
    else
      var prev := Accepted(crops[..|crops| - 1]);
      var c := crops[|crops| - 1];
      var plate := ReadPlate(c);
      if plate.Some? && plate.value != "" then prev + [Observation(plate.value, c.frame, c.image)] else prev
  }

  /** What one crop contributes: its reading, exactly when it yields a
      non-empty plate. */
  function Sighting(c: Crop): seq<Observation> {
    var plate := ReadPlate(c);
    if plate.Some? && plate.value != "" then [Observation(plate.value, c.frame, c.image)] else []
  }

  /** A single crop contributes its sighting. */
  lemma AcceptedOne(c: Crop)
    ensures Accepted([c]) == Sighting(c)
  {
    assert [c][..0] == [];
  }

  /** The crops are handled one by one and in order: the sightings of two
      runs of crops are those of the first followed by those of the second. */
  lemma {:induction false} AcceptedAppend(a: seq<Crop>, b: seq<Crop>)
    ensures Accepted(a + b) == Accepted(a) + Accepted(b)
  {
    if b == [] {
      assert a + b == a;
    } else {
      var init := b[..|b| - 1];
      assert (a + b)[..|a + b| - 1] == a + init;
      assert (a + b)[|a + b| - 1] == b[|b| - 1];
      AcceptedAppend(a, init);
    }
  }

  lemma AcceptedStep(crops: seq<Crop>, k: nat)
    requires k < |crops|
    ensures Accepted(crops[..k + 1]) ==
      var plate := ReadPlate(crops[k]);
      if plate.Some? && plate.value != "" then Accepted(crops[..k]) + [Observation(plate.value, crops[k].frame, crops[k].image)]
      else Accepted(crops[..k])
  {
    assert crops[..k + 1][..k] == crops[..k];
  }

  // ---------------------------------------------------------------------------
  // Every accepted plate is a seven-character plate, so the grouping never raises

  lemma {:induction false} AcceptedArePlates(crops: seq<Crop>)
    ensures forall k :: 0 <= k < |Accepted(crops)| ==>
      |Accepted(crops)[k].plate| == PlateLength && IsPlate(Accepted(crops)[k].plate)
  {
    if crops != [] {
      var c := crops[|crops| - 1];
      AcceptedArePlates(crops[..|crops| - 1]);
      SelectIsPlate(c.texts, c.blueStrip);
    }
  }

  /** All tallied plates have the same length, so `hamming_distance` never
      raises inside `analyze_video`. */
  lemma NeverRaises(crops: seq<Crop>)
    ensures !HasLengthMismatch(KeyOrder(Accepted(crops)))
    ensures forall p :: p in KeyOrder(Accepted(crops)) ==> |p| == PlateLength && IsPlate(p)
  {
    var log := Accepted(crops);
    AcceptedArePlates(crops);
    KeyOrderMeaning(log);
    forall p | p in KeyOrder(log) ensures |p| == PlateLength && IsPlate(p) {
      TallyMeaning(log, p);
    }
  }

  /** Every plate of the dictionary is a seven-character plate. */
  lemma TalliedArePlates(crops: seq<Crop>, p: string)
    requires p in Tally(Accepted(crops))
    ensures |p| == PlateLength && IsPlate(p)
  {
    NeverRaises(crops);
    KeyOrderMeaning(Accepted(crops));
  }

  // ---------------------------------------------------------------------------
  // Frequencies are conserved

  /** Raising one listed plate's frequency by one raises the sum by one. */
  lemma {:induction false} SumFreqBump(plates: Records, ks: seq<string>, p: string)
    requires Recorded(plates, ks) && NoDuplicates(ks) && p in ks
    ensures Recorded(plates[p := plates[p].(frequency := plates[p].frequency + 1)], ks)
    ensures SumFreq(plates[p := plates[p].(frequency := plates[p].frequency + 1)], ks) == SumFreq(plates, ks) + 1
  {
    var bumped := plates[p := plates[p].(frequency := plates[p].frequency + 1)];
    var t := ks[1..];
    forall i, j | 0 <= i < j < |t| ensures Differ(t, i, j) {
      assert Differ(ks, i + 1, j + 1);
    }
    if ks[0] == p {
      forall j | 0 <= j < |t| ensures t[j] != p {
        assert Differ(ks, 0, j + 1);
      }
      SumFreqUnlisted(plates, t, p, bumped[p]);
    } else {
      assert p in t;
      SumFreqBump(plates, t, p);
    }
  }

  /** Changing the record of a plate that is not listed leaves the sum alone. */
  lemma {:induction false} SumFreqUnlisted(plates: Records, ks: seq<string>, p: string, r: PlateRecord)
    requires Recorded(plates, ks) && p !in ks
    ensures Recorded(plates[p := r], ks)
    ensures SumFreq(plates[p := r], ks) == SumFreq(plates, ks)
  {
    if ks != [] {
      SumFreqUnlisted(plates, ks[1..], p, r);
    }
  }

  /** The tallied frequencies add up to the number of sightings. */
  lemma {:induction false} TallyTotal(log: seq<Observation>)
    ensures Recorded(Tally(log), KeyOrder(log))
    ensures SumFreq(Tally(log), KeyOrder(log)) == |log|
  {
    KeyOrderMeaning(log);
    if log != [] {
      var init, o := log[..|log| - 1], log[|log| - 1];
      TallyTotal(init);
      KeyOrderMeaning(init);
      var m, ks := Tally(init), KeyOrder(init);
      if o.plate in ks {
        SumFreqBump(m, ks, o.plate);
      } else {
        SumFreqUnlisted(m, ks, o.plate, PlateRecord(1, o.frame, o.image));
        SumFreqAppend(m[o.plate := PlateRecord(1, o.frame, o.image)], ks, [o.plate]);
        assert [o.plate][1..] == [];
      }
    }
  }

  /** The plates of all groups, group after group, are the members of the
      groups. */
  lemma {:induction false} FlattenMembers(groups: seq<seq<string>>, x: string)
    ensures x in Flatten(groups) <==> InSome(groups, x)
  {
    if groups != [] {
      var init := groups[..|groups| - 1];
      FlattenMembers(init, x);
      assert groups == init + [groups[|groups| - 1]];
      InSomeAppend(init, groups[|groups| - 1], x);
    }
  }

  /** Disjoint repeat-free groups flatten to a repeat-free sequence. */
  lemma {:induction false} FlattenDistinct(groups: seq<seq<string>>)
    requires forall gi :: 0 <= gi < |groups| ==> NoDuplicates(groups[gi])
    requires Disjoint(groups)
    ensures NoDuplicates(Flatten(groups))
  {
    if groups != [] {
      var n := |groups| - 1;
      var init := groups[..n];
      assert forall gi :: 0 <= gi < n ==> init[gi] == groups[gi];
      FlattenDistinct(init);
      forall x | x in Flatten(init) ensures x !in groups[n] {
        FlattenMembers(init, x);
        var gi :| 0 <= gi < n && x in init[gi];
        assert x in groups[gi];
      }
      NoDuplicatesAppend(Flatten(init), groups[n]);
    }
  }

  /** The groups of a partition, flattened, are a permutation of the plates. */
  lemma PartitionPermutes(ps: seq<string>, groups: seq<seq<string>>)
    requires NoDuplicates(ps) && IsPartition(ps, groups)
    ensures multiset(Flatten(groups)) == multiset(ps)
  {
    FlattenDistinct(groups);
    forall x ensures x in Flatten(groups) <==> x in ps {
      FlattenMembers(groups, x);
    }
    DistinctSameElements(Flatten(groups), ps);
  }

  /** The groups of a partition of the recorded plates are fit for merging. */
  lemma PartitionRecorded(plates: Records, ps: seq<string>, groups: seq<seq<string>>)
    requires forall p :: p in ps <==> p in plates
    requires IsPartition(ps, groups)
    ensures WellFormed(plates, groups)
  {
    forall gi | 0 <= gi < |groups| ensures Recorded(plates, groups[gi]) {
      forall p | p in groups[gi] ensures p in plates {
        assert InSome(groups, p);
      }
    }
  }

  // ---------------------------------------------------------------------------
  // The pipeline

  /** The merged report has one entry per group, under a tallied plate, and
      its frequencies add up to the number of sightings. */
  lemma ReportFacts(log: seq<Observation>, groups: seq<seq<string>>)
    requires IsPartition(KeyOrder(log), groups)
    requires WellFormed(Tally(log), groups)
    ensures NoDuplicates(Winners(Tally(log), groups))
    ensures forall p :: p in Merged(Tally(log), groups) ==> p in Tally(log)
    ensures ReportTotal(Merged(Tally(log), groups), Winners(Tally(log), groups)) == |log|
  {
    var plates, placas := Tally(log), KeyOrder(log);
    KeyOrderMeaning(log);
    WinnersDistinct(plates, groups);
    ReportKeys(plates, groups);
    ReportTotalIsCount(log, groups);
  }

  lemma ReportKeys(plates: Records, groups: seq<seq<string>>)
    requires WellFormed(plates, groups)
    ensures forall p :: p in Merged(plates, groups) ==> p in plates
  {
    var order := Winners(plates, groups);
    forall p | p in Merged(plates, groups) ensures p in plates {
      var gi :| 0 <= gi < |groups| && order[gi] == p;
      WinnerInGroup(plates, groups[gi]);
    }
  }

  lemma ReportTotalIsCount(log: seq<Observation>, groups: seq<seq<string>>)
    requires IsPartition(KeyOrder(log), groups)
    requires WellFormed(Tally(log), groups)
    requires NoDuplicates(Winners(Tally(log), groups))
    ensures ReportTotal(Merged(Tally(log), groups), Winners(Tally(log), groups)) == |log|
  {
    var plates, placas := Tally(log), KeyOrder(log);
    KeyOrderMeaning(log);
    TotalPreserved(plates, groups);
    PartitionPermutes(placas, groups);
    SumFreqPermutation(plates, Flatten(groups), placas);
    TallyTotal(log);
  }

  /** The groups of the tallied plates, in the order the grouping lists them. */
  ghost function Groups(log: seq<Observation>): seq<seq<string>> {
    KeyOrderMeaning(log);
    Grouping(KeyOrder(log), MaxDist)
  }

  /** The report `analyze_video` returns for the sightings `log`: the
      dictionary with one merged entry per group, and its keys in insertion
      order. */
  ghost function Report(log: seq<Observation>): (Records, seq<string>) {
    KeyOrderMeaning(log);
    GroupingMeaning(KeyOrder(log), MaxDist);
    PartitionRecorded(Tally(log), KeyOrder(log), Groups(log));
    (Merged(Tally(log), Groups(log)), Winners(Tally(log), Groups(log)))
  }

  /** The groups are the connected components of the tallied plates under
      Hamming distance at most 1, and the report merges exactly them: one entry
      per group, under the group's winner, holding the group's record. */
  lemma ReportMeaning(log: seq<Observation>)
    ensures IsPartition(KeyOrder(log), Groups(log))
    ensures KeepsCloseTogether(KeyOrder(log), Groups(log), MaxDist)
    ensures Chained(Groups(log), MaxDist)
    ensures InInputOrder(KeyOrder(log), Groups(log))
    ensures WellFormed(Tally(log), Groups(log))
    ensures Report(log).1 == Winners(Tally(log), Groups(log))
    ensures forall gi :: 0 <= gi < |Groups(log)| ==>
      Report(log).0[Report(log).1[gi]] == GroupRecord(Tally(log), Groups(log)[gi])
    ensures NoDuplicates(Report(log).1) && forall p :: p in Report(log).0 ==> p in Tally(log)
    ensures ReportTotal(Report(log).0, Report(log).1) == |log|
  {
    KeyOrderMeaning(log);
    GroupingMeaning(KeyOrder(log), MaxDist);
    PartitionRecorded(Tally(log), KeyOrder(log), Groups(log));
    WinnersDistinct(Tally(log), Groups(log));
    MergedMeaning(Tally(log), Groups(log));
    ReportFacts(log, Groups(log));
  }

  /** Two plates whose readings differ in at most one position, say
      `ABC1234` seen seven times and `ABC1235` seen twice, end up as one
      entry: the group is the two plates in order of their first sighting,
      and the entry's frequency counts every sighting. */
  lemma TwoCloseTalliedMerge(log: seq<Observation>, a: string, b: string)
    requires KeyOrder(log) == [a, b] && Close(a, b, MaxDist)
    ensures a in Tally(log) && b in Tally(log)
    ensures Groups(log) == [[a, b]]
    ensures |Report(log).1| == 1 && Report(log).1[0] == Winner(Tally(log), [a, b])
    ensures Report(log).0[Report(log).1[0]].frequency == |log|
    ensures Report(log).0[Report(log).1[0]].frame == Tally(log)[a].frame
  {
    ReportMeaning(log);
    assert Differ(KeyOrder(log), 0, 1);
    OneGroup([a, b], Groups(log), a, b, MaxDist);
    var order := Report(log).1;
    assert ReportTotal(Report(log).0, order) == Report(log).0[order[0]].frequency by {
      assert order[..|order| - 1] == [];
    }
  }

  /** A partition of two close plates that keeps close plates together has a
      single group, the two plates in input order. */
  lemma OneGroup(ps: seq<string>, gs: seq<seq<string>>, a: string, b: string, maxDist: int)
    requires ps == [a, b] && a != b && Close(a, b, maxDist)
    requires IsPartition(ps, gs) && KeepsCloseTogether(ps, gs, maxDist) && InInputOrder(ps, gs)
    ensures gs == [[a, b]]
  {
    assert a in ps && b in ps;
    var gi :| 0 <= gi < |gs| && a in gs[gi];
    assert b in gs[gi];
    if |gs| > 1 {
      var gj := if gi == 0 then 1 else 0;
      var x := gs[gj][0];
      assert x in gs[gj] && InSome(gs, x);
      assert false;
    }
    var grp := gs[0];
    assert forall x :: x in grp <==> x in [a, b] by {
      assert forall x :: x in grp ==> InSome(gs, x);
    }
    assert grp[0] in grp;
    if grp[0] != a {
      assert false;
    }
    PairOfTwo(grp, a, b);
    assert gs == [grp];
  }

  /** A repeat-free sequence with the elements `a` and `b` only, starting
      with `a`, is `[a, b]`. */
  lemma PairOfTwo(s: seq<string>, a: string, b: string)
    requires a != b && NoDuplicates(s) && s != [] && s[0] == a
    requires forall x :: x in s <==> x in [a, b]
    ensures s == [a, b]
  {
    assert Differ([a, b], 0, 1);
    DistinctSameElements(s, [a, b]);
    assert |s| == |multiset(s)| == 2;
    assert Differ(s, 0, 1) && s[1] in s;
  }

  /** The frame loop of `analyze_video`: every crop is read and the reading,
      if any, is recorded. */
  method Aggregate(crops: seq<Crop>) returns (agg: Aggregator)
    ensures fresh(agg) && agg.Valid() && agg.log == Accepted(crops)
  {
    agg := new Aggregator();
    for k := 0 to |crops|
      invariant agg.Valid() && agg.log == Accepted(crops[..k])
    {
      AcceptedStep(crops, k);
      var plate := SelectPlate(crops[k].texts, crops[k].blueStrip);
      agg.Observe(plate, crops[k].frame, crops[k].image);
    }
    assert crops[..|crops|] == crops;
  }

  /** The post-OCR part of `analyze_video`: read every crop, tally the accepted
      plates, group them and merge each group. The report lists one entry per
      group, and its frequencies add up to the number of accepted readings. */
  method Analyze(crops: seq<Crop>) returns (r: Result<(Records, seq<string>), string>)
    ensures r.Err? <==> HasLengthMismatch(KeyOrder(Accepted(crops)))
    ensures r.Ok? ==> r.value == Report(Accepted(crops))
    ensures r.Ok? ==> NoDuplicates(r.value.1)
    ensures r.Ok? ==> forall p :: p in r.value.0 <==> p in r.value.1
    ensures r.Ok? ==> forall p :: p in r.value.0 ==> p in Tally(Accepted(crops))
    ensures r.Ok? ==> forall p :: p in r.value.0 ==> |p| == PlateLength && IsPlate(p)
    ensures r.Ok? ==> ReportTotal(r.value.0, r.value.1) == |Accepted(crops)|
  {
    var agg := Aggregate(crops);
    var placas := agg.Keys();
    var grouped := GroupPlates(placas, MaxDist);
    if grouped.Err? {
      return Err(grouped.error);
    }
    var groups := grouped.value;
    PartitionRecorded(agg.plates, placas, groups);
    var merged, order := MergeGroups(agg.plates, groups);
    ReportFacts(agg.log, groups);
    forall p | p in merged ensures |p| == PlateLength && IsPlate(p) {
      TalliedArePlates(crops, p);
    }
    return Ok((merged, order));
  }
}
