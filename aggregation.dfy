/**
 * Streaming aggregation of accepted plates over one video (the `plates`
 * dictionary of `analyze_video` in utils.py). A new plate gets a record with
 * frequency 1 and the frame and image of its first sighting; a repeated plate
 * only has its frequency incremented. Python dictionaries keep insertion
 * order, and that order later drives the grouping, so it is kept as well.
 */
module Aggregation {
  import opened Wrappers
  import opened Seqs

  /** The encoded crop, carried through untouched. */
  type Image = string

  /** One entry of the dictionary: `{'frequency', 'frame', 'image'}`. */
  datatype PlateRecord = PlateRecord(frequency: nat, frame: int, image: Image)

  /** One accepted sighting of a plate. */
  datatype Observation = Observation(plate: string, frame: int, image: Image)

  /** The dictionary after one more sighting. */
  function Step(m: map<string, PlateRecord>, o: Observation): map<string, PlateRecord> {
    if o.plate in m then m[o.plate := m[o.plate].(frequency := m[o.plate].frequency + 1)]
    else m[o.plate := PlateRecord(1, o.frame, o.image)]
  }

  /** The dictionary after a sequence of sightings, in order. */
  function Tally(log: seq<Observation>): map<string, PlateRecord> {
    if log == [] then map[] else Step(Tally(log[..|log| - 1]), log[|log| - 1])
  }

  /** The dictionary's keys in insertion order. */
  function KeyOrder(log: seq<Observation>): seq<string> {
    if log == [] then []
    else
      var prev := KeyOrder(log[..|log| - 1]);
      var p := log[|log| - 1].plate;
      if p in prev then prev else prev + [p]
  }

  /** Number of sightings of plate `p`. */
  function Count(log: seq<Observation>, p: string): nat {
    if log == [] then 0 else (if log[0].plate == p then 1 else 0) + Count(log[1..], p)
  }

  /** `i` is the first sighting of plate `p`. */
  predicate IsFirstSighting(log: seq<Observation>, p: string, i: int) {
    0 <= i < |log| && log[i].plate == p && forall j :: 0 <= j < i ==> log[j].plate != p
  }

  lemma {:induction false} CountSnoc(log: seq<Observation>, o: Observation, p: string)
    ensures Count(log + [o], p) == Count(log, p) + (if o.plate == p then 1 else 0)
  {
    if log == [] {
      assert (log + [o])[1..] == [];
    } else {
      assert (log + [o])[1..] == log[1..] + [o];
      CountSnoc(log[1..], o, p);
    }
  }

  /** A plate has a record exactly when it was sighted; its frequency is the
      number of its sightings, and its frame and image are those of its first
      sighting, whatever came after. */
  lemma TallyMeaning(log: seq<Observation>, p: string)
    ensures p in Tally(log) <==> exists i :: 0 <= i < |log| && log[i].plate == p
    ensures p in Tally(log) ==> Tally(log)[p].frequency == Count(log, p) >= 1
    ensures p !in Tally(log) ==> Count(log, p) == 0
    ensures p in Tally(log) ==>
      exists i :: IsFirstSighting(log, p, i) &&
        Tally(log)[p].frame == log[i].frame && Tally(log)[p].image == log[i].image
  {
    TallyKeys(log, p);
    TallyCount(log, p);
    TallyFirst(log, p);
  }

  lemma {:induction false} TallyKeys(log: seq<Observation>, p: string)
    ensures p in Tally(log) <==> exists i :: 0 <= i < |log| && log[i].plate == p
  {
    if log != [] {
      var init := log[..|log| - 1];
      TallyKeys(init, p);
      assert forall i :: 0 <= i < |init| ==> init[i] == log[i];
    }
  }

  lemma {:induction false} TallyCount(log: seq<Observation>, p: string)
    ensures p in Tally(log) ==> Tally(log)[p].frequency == Count(log, p) >= 1
    ensures p !in Tally(log) ==> Count(log, p) == 0
  {
    if log != [] {
      var init, o := log[..|log| - 1], log[|log| - 1];
      assert log == init + [o];
      TallyCount(init, p);
      CountSnoc(init, o, p);
    }
  }

  lemma {:induction false} TallyFirst(log: seq<Observation>, p: string)
    ensures p in Tally(log) ==>
      exists i :: IsFirstSighting(log, p, i) &&
        Tally(log)[p].frame == log[i].frame && Tally(log)[p].image == log[i].image
  {
    if log != [] {
      var init, o := log[..|log| - 1], log[|log| - 1];
      TallyFirst(init, p);
      TallyKeys(init, p);
      if p in Tally(init) {
        var i :| IsFirstSighting(init, p, i) &&
          Tally(init)[p].frame == init[i].frame && Tally(init)[p].image == init[i].image;
        assert IsFirstSighting(log, p, i);
      } else if o.plate == p {
        assert forall j :: 0 <= j < |init| ==> log[j] == init[j];
        assert IsFirstSighting(log, p, |log| - 1);
      }
    }
  }

  /** The key order lists every recorded plate once, in the order of first
      sightings. */
  lemma KeyOrderMeaning(log: seq<Observation>)
    ensures NoDuplicates(KeyOrder(log))
    ensures forall p :: p in KeyOrder(log) <==> p in Tally(log)
    ensures forall a, b, i, j ::
      (0 <= a < b < |KeyOrder(log)| &&
       IsFirstSighting(log, KeyOrder(log)[a], i) && IsFirstSighting(log, KeyOrder(log)[b], j)) ==> i < j
  {
    KeyOrderKeys(log);
    KeyOrderDistinct(log);
    KeyOrderFirst(log);
  }

  lemma {:induction false} KeyOrderKeys(log: seq<Observation>)
    ensures forall p :: p in KeyOrder(log) <==> p in Tally(log)
  {
    if log != [] {
      KeyOrderKeys(log[..|log| - 1]);
    }
  }

  lemma {:induction false} KeyOrderDistinct(log: seq<Observation>)
    ensures NoDuplicates(KeyOrder(log))
  {
    if log != [] {
      var prev := KeyOrder(log[..|log| - 1]);
      KeyOrderDistinct(log[..|log| - 1]);
      forall a, b | 0 <= a < b < |KeyOrder(log)| ensures Differ(KeyOrder(log), a, b) {
        if b < |prev| {
          assert Differ(prev, a, b);
        }
      }
    }
  }

  lemma {:induction false} KeyOrderFirst(log: seq<Observation>)
    ensures forall a, b, i, j ::
      (0 <= a < b < |KeyOrder(log)| &&
       IsFirstSighting(log, KeyOrder(log)[a], i) && IsFirstSighting(log, KeyOrder(log)[b], j)) ==> i < j
  {
    if log != [] {
      var init, o := log[..|log| - 1], log[|log| - 1];
      KeyOrderFirst(init);
      KeyOrderKeys(init);
      var prev := KeyOrder(init);
      forall a, b, i, j | 0 <= a < b < |KeyOrder(log)| &&
          IsFirstSighting(log, KeyOrder(log)[a], i) && IsFirstSighting(log, KeyOrder(log)[b], j)
        ensures i < j
      {
        var ks := KeyOrder(log);
        TallyFirst(init, ks[a]);
        assert ks[a] in prev;
        var i' :| IsFirstSighting(init, ks[a], i');
        assert IsFirstSighting(log, ks[a], i');
        FirstSightingUnique(log, ks[a], i, i');
        if b < |prev| {
          TallyFirst(init, ks[b]);
          var j' :| IsFirstSighting(init, ks[b], j');
          assert IsFirstSighting(log, ks[b], j');
          FirstSightingUnique(log, ks[b], j, j');
          assert IsFirstSighting(init, ks[a], i) && IsFirstSighting(init, ks[b], j);
        } else {
          assert ks[b] == o.plate && ks[b] !in prev;
          TallyKeys(init, ks[b]);
          assert forall k :: 0 <= k < |init| ==> log[k] == init[k];
        }
      }
    }
  }

  lemma FirstSightingUnique(log: seq<Observation>, p: string, i: int, j: int)
    requires IsFirstSighting(log, p, i) && IsFirstSighting(log, p, j)
    ensures i == j
  {
  }

  /** Recording the same plate N times gives frequency N and keeps the frame
      and image of the first recording. */
  lemma RepeatedPlate(log: seq<Observation>, p: string)
    requires |log| > 0
    requires forall i :: 0 <= i < |log| ==> log[i].plate == p
    ensures Tally(log).Keys == {p}
    ensures Tally(log)[p] == PlateRecord(|log|, log[0].frame, log[0].image)
  {
    TallyMeaning(log, p);
    assert IsFirstSighting(log, p, 0);
    var i :| IsFirstSighting(log, p, i) &&
      Tally(log)[p].frame == log[i].frame && Tally(log)[p].image == log[i].image;
    FirstSightingUnique(log, p, i, 0);
    CountAll(log, p);
    forall q | q in Tally(log) ensures q == p {
      TallyMeaning(log, q);
    }
  }

  lemma {:induction false} CountAll(log: seq<Observation>, p: string)
    requires forall i :: 0 <= i < |log| ==> log[i].plate == p
    ensures Count(log, p) == |log|
  {
    if log != [] {
      CountAll(log[1..], p);
    }
  }

  /** The dictionary of `analyze_video`, with its keys in insertion order. */
  class Aggregator {
    var plates: map<string, PlateRecord>
    var order: seq<string>
    /** The sightings accepted so far. */
    ghost var log: seq<Observation>

    ghost predicate Valid()
      reads this
    {
      plates == Tally(log) && order == KeyOrder(log)
    }

    /** `plates = {}`. */
    constructor ()
      ensures Valid() && log == [] && plates == map[] && order == []
    {
      plates := map[];
      order := [];
      log := [];
    }

    /** One extracted plate, or None, with the frame number and the encoded
        crop. Only a plate that is present and non-empty is recorded. */
    method Observe(plate: Option<string>, frame: int, image: Image)
      requires Valid()
      modifies this
      ensures Valid()
      ensures plate.Some? && plate.value != "" ==>
        log == old(log) + [Observation(plate.value, frame, image)]
      ensures plate.None? || plate.value == "" ==> log == old(log) && plates == old(plates) && order == old(order)
      ensures plate.Some? && plate.value != "" && plate.value !in old(plates) ==>
        plates == old(plates)[plate.value := PlateRecord(1, frame, image)] &&
        order == old(order) + [plate.value]
      ensures plate.Some? && plate.value != "" && plate.value in old(plates) ==>
        plates == old(plates)[plate.value := old(plates)[plate.value].(frequency := old(plates)[plate.value].frequency + 1)] &&
        order == old(order)
    {
      if plate.Some? && plate.value != "" {
        var p := plate.value;
        ghost var o := Observation(p, frame, image);
        assert (log + [o])[..|log|] == log;
        KeyOrderMeaning(log);
        if p !in plates {
          plates := plates[p := PlateRecord(1, frame, image)];
          order := order + [p];
        } else {
          plates := plates[p := plates[p].(frequency := plates[p].frequency + 1)];
        }
        log := log + [o];
      }
    }

    /** `list(plates.keys())`. */
    method Keys() returns (ks: seq<string>)
      requires Valid()
      ensures ks == order
      ensures NoDuplicates(ks)
      ensures forall p :: p in ks <==> p in plates
    {
      KeyOrderMeaning(log);
      ks := order;
    }
  }
}
