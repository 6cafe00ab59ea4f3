/**
 * Near-duplicate grouping of the plates of one video
 * (`agrupar_placas_por_hamming_completo` in utils.py): an undirected graph
 * joins every pair of plates within `maxDist` differing positions, and its
 * connected components are collected by depth-first search, starting from the
 * plates in input order.
 */
module Clustering {
  import opened Wrappers
  import opened Seqs
  import opened Hamming

  /** `grafo`: adjacency lists keyed by plate. */
  type Graph = map<string, seq<string>>

  /** `grafo[placa]` on the `defaultdict(list)`: a plate without entry has no neighbour. */
  function Neighbours(g: Graph, p: string): seq<string> {
    if p in g then g[p] else []
  }

  /** The neighbours that the two loops give plate `ps[k]` from the plates
      `ps[m]` with m < bound, in increasing order of m. */
  function Partners(ps: seq<string>, k: nat, bound: nat, maxDist: int): seq<string>
    requires k < |ps| && bound <= |ps|
  {
    if bound == 0 then []
    else
      Partners(ps, k, bound - 1, maxDist) +
      (if bound - 1 != k && Close(ps[bound - 1], ps[k], maxDist) then [ps[bound - 1]] else [])
  }

  lemma {:induction false} PartnersMeaning(ps: seq<string>, k: nat, bound: nat, maxDist: int, v: string)
    requires k < |ps| && bound <= |ps|
    ensures v in Partners(ps, k, bound, maxDist) <==>
      exists m :: 0 <= m < bound && m != k && ps[m] == v && Close(ps[m], ps[k], maxDist)
  {
    if bound > 0 {
      PartnersMeaning(ps, k, bound - 1, maxDist, v);
    }
  }

  /** Some two plates have different lengths: `hamming_distance` raises on them. */
  predicate HasLengthMismatch(ps: seq<string>) {
    exists i, j :: 0 <= i < j < |ps| && |ps[i]| != |ps[j]|
  }

  /** How many of the plates `ps[m]` have been compared with `ps[k]` once the
      loops stand at pair (i, j): all of them for a row already finished, those
      below j for row i, and those up to row i for the later plates. */
  function Compared(n: nat, k: nat, i: nat, j: nat): nat {
    if k < i then n else if k == i then j else if k < j then i + 1 else i
  }

  /** The adjacency lists once the loops stand at pair (i, j). */
  predicate GraphAt(g: Graph, ps: seq<string>, maxDist: int, i: nat, j: nat)
    requires i < j <= |ps|
  {
    (forall k {:trigger Neighbours(g, ps[k])} :: 0 <= k < |ps| ==>
      Neighbours(g, ps[k]) == Partners(ps, k, Compared(|ps|, k, i, j), maxDist)) &&
    (forall p :: p in g ==> p in ps)
  }

  /** The pair (i, j) adds `ps[j]` to the list of `ps[i]` and `ps[i]` to the
      list of `ps[j]` when they are close. */
  function AddPair(g: Graph, ps: seq<string>, maxDist: int, i: nat, j: nat): Graph
    requires i < j < |ps|
  {
    if Close(ps[i], ps[j], maxDist) then Link(g, ps[i], ps[j]) else g
  }

  /** `grafo[a].append(b)` followed by `grafo[b].append(a)`. */
  function Link(g: Graph, a: string, b: string): (g': Graph)
    ensures g'.Keys == g.Keys + {a, b}
  {
    var g1 := g[a := Neighbours(g, a) + [b]];
    g1[b := Neighbours(g1, b) + [a]]
  }

  /** Pair (i, j - 1) moves the loops from (i, j - 1) to (i, j). */
  lemma AddPairStep(g: Graph, h: Graph, ps: seq<string>, maxDist: int, i: nat, j: nat)
    requires NoDuplicates(ps) && i + 1 < j <= |ps|
    requires GraphAt(g, ps, maxDist, i, j - 1) && h == AddPair(g, ps, maxDist, i, j - 1)
    ensures GraphAt(h, ps, maxDist, i, j)
  {
    forall k | 0 <= k < |ps|
      ensures Neighbours(h, ps[k]) == Partners(ps, k, Compared(|ps|, k, i, j), maxDist)
    {
      AddPairPlate(g, h, ps, maxDist, i, j, k);
    }
    AddPairWithin(g, h, ps, maxDist, i, j);
  }

  lemma AddPairWithin(g: Graph, h: Graph, ps: seq<string>, maxDist: int, i: nat, j: nat)
    requires i + 1 < j <= |ps|
    requires GraphAt(g, ps, maxDist, i, j - 1) && h == AddPair(g, ps, maxDist, i, j - 1)
    ensures forall p :: p in h ==> p in ps
  {
  }

  /** The list of one plate `ps[k]` across pair (i, j - 1). */
  lemma AddPairPlate(g: Graph, h: Graph, ps: seq<string>, maxDist: int, i: nat, j: nat, k: nat)
    requires NoDuplicates(ps) && i + 1 < j <= |ps| && k < |ps|
    requires GraphAt(g, ps, maxDist, i, j - 1) && h == AddPair(g, ps, maxDist, i, j - 1)
    ensures Neighbours(h, ps[k]) == Partners(ps, k, Compared(|ps|, k, i, j), maxDist)
  {
    var b := j - 1;
    if |ps[i]| == |ps[b]| {
      MismatchesSymmetric(ps[i], ps[b]);
    }
    DistinctAt(ps, i, b);
    var close := Close(ps[i], ps[b], maxDist);
    assert Close(ps[b], ps[i], maxDist) == close;
    if close {
      LinkNeighbours(g, ps[i], ps[b], ps[k]);
    }
    if k == i {
      assert Partners(ps, i, j, maxDist) ==
        Partners(ps, i, b, maxDist) + (if close then [ps[b]] else []);
    } else if k == b {
      assert Partners(ps, b, i + 1, maxDist) ==
        Partners(ps, b, i, maxDist) + (if close then [ps[i]] else []);
    } else {
      assert Compared(|ps|, k, i, j) == Compared(|ps|, k, i, b);
      DistinctAt(ps, k, i);
      DistinctAt(ps, k, b);
    }
  }

  lemma LinkNeighbours(g: Graph, a: string, b: string, p: string)
    requires a != b
    ensures Neighbours(Link(g, a, b), p) ==
      if p == a then Neighbours(g, a) + [b]
      else if p == b then Neighbours(g, b) + [a]
      else Neighbours(g, p)
  {
  }

  lemma RowStart(g: Graph, ps: seq<string>, maxDist: int, i: nat)
    requires i + 1 <= |ps|
    requires RowsInv(g, ps, maxDist, i)
    ensures GraphAt(g, ps, maxDist, i, i + 1)
  {
    forall k | 0 <= k < |ps|
      ensures Neighbours(g, ps[k]) == Partners(ps, k, Compared(|ps|, k, i, i + 1), maxDist)
    {
      if k == i {
        assert Partners(ps, i, i + 1, maxDist) == Partners(ps, i, i, maxDist);
      }
    }
  }

  lemma RowEnd(g: Graph, ps: seq<string>, maxDist: int, i: nat)
    requires i < |ps|
    requires GraphAt(g, ps, maxDist, i, |ps|)
    ensures RowsInv(g, ps, maxDist, i + 1)
  {
  }

  /** The adjacency lists once the loops have finished rows 0, ..., i - 1. */
  function RowsDone(ps: seq<string>, maxDist: int, i: nat): Graph
    requires i <= |ps|
    decreases i, 0, 0
  {
    if i == 0 then map[] else RowPart(ps, maxDist, i - 1, |ps|)
  }

  /** The adjacency lists once row i has handled the pairs (i, i + 1), ...,
      (i, j - 1). */
  function RowPart(ps: seq<string>, maxDist: int, i: nat, j: nat): Graph
    requires i < j <= |ps|
    decreases i, 1, j
  {
    if j == i + 1 then RowsDone(ps, maxDist, i)
    else AddPair(RowPart(ps, maxDist, i, j - 1), ps, maxDist, i, j - 1)
  }

  /** What the graph holds after the first i rows. */
  predicate RowsInv(g: Graph, ps: seq<string>, maxDist: int, i: nat) {
    (forall k {:trigger Neighbours(g, ps[k])} :: 0 <= k < |ps| ==>
      Neighbours(g, ps[k]) == Partners(ps, k, if k < i then |ps| else i, maxDist)) &&
    (forall p :: p in g ==> p in ps)
  }

  lemma {:induction false} RowsDoneMeaning(ps: seq<string>, maxDist: int, i: nat)
    requires NoDuplicates(ps) && i <= |ps|
    ensures RowsInv(RowsDone(ps, maxDist, i), ps, maxDist, i)
    decreases i, 0, 0
  {
    if i > 0 {
      RowPartMeaning(ps, maxDist, i - 1, |ps|);
      RowEnd(RowsDone(ps, maxDist, i), ps, maxDist, i - 1);
    }
  }

  lemma {:induction false} RowPartMeaning(ps: seq<string>, maxDist: int, i: nat, j: nat)
    requires NoDuplicates(ps) && i < j <= |ps|
    ensures GraphAt(RowPart(ps, maxDist, i, j), ps, maxDist, i, j)
    decreases i, 1, j
  {
    if j == i + 1 {
      RowsDoneMeaning(ps, maxDist, i);
      RowPartFirst(ps, maxDist, i);
    } else {
      RowPartMeaning(ps, maxDist, i, j - 1);
      RowPartNext(ps, maxDist, i, j);
    }
  }

  lemma RowPartFirst(ps: seq<string>, maxDist: int, i: nat)
    requires i < |ps| && RowsInv(RowsDone(ps, maxDist, i), ps, maxDist, i)
    ensures GraphAt(RowPart(ps, maxDist, i, i + 1), ps, maxDist, i, i + 1)
  {
    var g := RowsDone(ps, maxDist, i);
    assert RowPart(ps, maxDist, i, i + 1) == g;
    RowStart(g, ps, maxDist, i);
  }

  lemma RowPartNext(ps: seq<string>, maxDist: int, i: nat, j: nat)
    requires NoDuplicates(ps) && i + 1 < j <= |ps|
    requires GraphAt(RowPart(ps, maxDist, i, j - 1), ps, maxDist, i, j - 1)
    ensures GraphAt(RowPart(ps, maxDist, i, j), ps, maxDist, i, j)
  {
    RowPartUnfold(ps, maxDist, i, j);
    AddPairStep(RowPart(ps, maxDist, i, j - 1), RowPart(ps, maxDist, i, j), ps, maxDist, i, j);
  }

  lemma RowPartUnfold(ps: seq<string>, maxDist: int, i: nat, j: nat)
    requires i + 1 < j <= |ps|
    ensures RowPart(ps, maxDist, i, j) == AddPair(RowPart(ps, maxDist, i, j - 1), ps, maxDist, i, j - 1)
  {
  }

  /** The graph after all rows is the graph of the plates. */
  lemma BuiltIsGraph(ps: seq<string>, maxDist: int)
    requires NoDuplicates(ps)
    ensures IsGraphOf(RowsDone(ps, maxDist, |ps|), ps, maxDist)
  {
    RowsDoneMeaning(ps, maxDist, |ps|);
  }

  /** The inner loop of the graph construction: row i compares `ps[i]` with
      every later plate. */
  method LinkRow(g0: Graph, ps: seq<string>, maxDist: int, i: nat) returns (r: Result<Graph, string>)
    requires i < |ps| && g0 == RowsDone(ps, maxDist, i)
    ensures r.Err? <==> exists b :: i < b < |ps| && |ps[i]| != |ps[b]|
    ensures r.Err? ==> r.error == LengthError
    ensures r.Ok? ==> r.value == RowsDone(ps, maxDist, i + 1)
  {
    var g := g0;
    for j := i + 1 to |ps|
      invariant forall b :: i < b < j ==> |ps[i]| == |ps[b]|
      invariant g == RowPart(ps, maxDist, i, j)
    {
      var d := HammingDistance(ps[i], ps[j]);
      if d.Err? {
        return Err(d.error);
      }
      DistanceWithin(ps[i], ps[j], maxDist);
      if d.value <= maxDist {
        g := Link(g, ps[i], ps[j]);
      }
    }
    return Ok(g);
  }

  /** The Python loops that fill `grafo`; the first pair of unequal lengths
      raises. */
  method BuildGraph(ps: seq<string>, maxDist: int) returns (r: Result<Graph, string>)
    requires NoDuplicates(ps)
    ensures r.Err? <==> HasLengthMismatch(ps)
    ensures r.Err? ==> r.error == LengthError
    ensures r.Ok? ==> r.value == RowsDone(ps, maxDist, |ps|) && IsGraphOf(r.value, ps, maxDist)
  {
    var g: Graph := map[];
    for i := 0 to |ps|
      invariant forall a, b :: 0 <= a < i && a < b < |ps| ==> |ps[a]| == |ps[b]|
      invariant g == RowsDone(ps, maxDist, i)
    {
      var row := LinkRow(g, ps, maxDist, i);
      if row.Err? {
        return row;
      }
      g := row.value;
    }
    BuiltIsGraph(ps, maxDist);
    return Ok(g);
  }

  /** Every plate of `group` after the first is a neighbour of an earlier one:
      the order in which a depth-first search reaches them. */
  predicate Reached(g: Graph, group: seq<string>) {
    forall k :: 0 < k < |group| ==> ReachedAt(g, group, k)
  }

  /** `group[k]` is a neighbour of a plate before it in the group. */
  predicate ReachedAt(g: Graph, group: seq<string>, k: int)
    requires 0 <= k < |group|
  {
    exists m :: 0 <= m < k && group[k] in Neighbours(g, group[m])
  }

  /** Appending a plate that is not yet visited keeps the group free of
      repeats. */
  lemma StartVisitDistinct(group: seq<string>, p: string, visited: set<string>)
    requires p !in visited && forall v :: v in group ==> v in visited
    requires NoDuplicates(group)
    ensures NoDuplicates(group + [p])
  {
    var group' := group + [p];
    forall a, b | 0 <= a < b < |group'| ensures Differ(group', a, b) {
      if b < |group| {
        assert Differ(group, a, b);
      } else {
        assert group'[a] == group[a] && group[a] in visited;
      }
    }
  }

  /** Appending a neighbour of a plate already in the group keeps it in search
      order. */
  lemma StartVisitReached(g: Graph, group: seq<string>, p: string)
    requires Reached(g, group)
    requires group != [] ==> exists m :: 0 <= m < |group| && p in Neighbours(g, group[m])
    ensures Reached(g, group + [p])
  {
    var group' := group + [p];
    forall k | 0 < k < |group'|
      ensures ReachedAt(g, group', k)
    {
      if k < |group| {
        assert ReachedAt(g, group, k);
        var m :| 0 <= m < k && group[k] in Neighbours(g, group[m]);
        assert group'[m] == group[m] && group'[k] == group[k];
      } else {
        var m :| 0 <= m < |group| && p in Neighbours(g, group[m]);
        assert group'[m] == group[m] && group'[k] == p;
      }
    }
  }

  /** The plates a search added after position n: a later search that extends
      the same group adds its plates to them. */
  lemma SuffixGrows(n: nat, before: seq<string>, after: seq<string>)
    requires n <= |before| <= |after| && after[..|before|] == before
    ensures after[..n] == before[..n]
    ensures forall w :: w in after[n..] <==> w in before[n..] || w in after[|before|..]
  {
    assert after[..n] == after[..|before|][..n];
    forall w ensures w in after[n..] <==> w in before[n..] || w in after[|before|..] {
      if w in after[n..] {
        var i :| 0 <= i < |after| - n && after[n..][i] == w;
        if i < |before| - n {
          assert before[n..][i] == w;
        } else {
          assert after[|before|..][i - (|before| - n)] == w;
        }
      }
      if w in before[n..] {
        var i :| 0 <= i < |before| - n && before[n..][i] == w;
        assert after[n..][i] == w;
      }
      if w in after[|before|..] {
        var i :| 0 <= i < |after| - |before| && after[|before|..][i] == w;
        assert after[n..][i + |before| - n] == w;
      }
    }
  }

  /** A search from `p` that found `visited` and `group` ended with
      `visited'` and `group'`: `group'` is `group` followed by `p` and further
      plates, all of them new and in `universe`, and exactly those were
      marked. */
  ghost predicate Visits(universe: set<string>, group: seq<string>, p: string, visited: set<string>,
                         group': seq<string>, visited': set<string>)
  {
    |group| < |group'| && group'[..|group|] == group && group'[|group|] == p &&
    (forall v :: v in visited' <==> v in visited || v in group'[|group|..]) &&
    (forall v :: v in group'[|group|..] ==> v !in visited && v in universe)
  }

  /** Every neighbour of the plates `us` is marked. */
  ghost predicate Marked(g: Graph, us: seq<string>, visited: set<string>) {
    forall u, w :: u in us && w in Neighbours(g, u) ==> w in visited
  }

  /** Every plate an adjacency list names lies in `universe`. */
  ghost predicate InUniverse(g: Graph, universe: set<string>) {
    forall u, v :: u in g && v in g[u] ==> v in universe
  }

  /** `dfs(p, grupo)` as a function of the marks and the group so far: mark
      `p`, append it, then search from each neighbour in list order. The
      result is the new marks and the extended group; it fixes the order in
      which the plates of a group are listed. */
  ghost function Search(g: Graph, universe: set<string>, p: string, visited: set<string>, group: seq<string>)
    : (r: (set<string>, seq<string>))
    requires p in universe && p !in visited && InUniverse(g, universe)
    ensures visited + {p} <= r.0
    decreases universe - visited, 0, 0
  {
    SearchFrom(g, universe, Neighbours(g, p), 0, visited + {p}, group + [p])
  }

  /** The `for vizinho in grafo[placa]` loop from position `k` of the list on. */
  ghost function SearchFrom(g: Graph, universe: set<string>, nbrs: seq<string>, k: nat,
                            visited: set<string>, group: seq<string>)
    : (r: (set<string>, seq<string>))
    requires k <= |nbrs| && InUniverse(g, universe) && forall w :: w in nbrs ==> w in universe
    ensures visited <= r.0
    decreases universe - visited, 1, |nbrs| - k
  {
    if k == |nbrs| then (visited, group)
    else if nbrs[k] in visited then SearchFrom(g, universe, nbrs, k + 1, visited, group)
    else
      var s := Search(g, universe, nbrs[k], visited, group);
      SearchFrom(g, universe, nbrs, k + 1, s.0, s.1)
  }

  /** The search lists the plates depth first, in neighbour-list order: on
      the graph A-B, A-C, B-D it lists D, found through B, before C. */
  lemma ExampleSearchOrder()
    ensures var g := map["A" := ["B", "C"], "B" := ["A", "D"], "C" := ["A"], "D" := ["B"]];
      InUniverse(g, {"A", "B", "C", "D"}) &&
      Search(g, {"A", "B", "C", "D"}, "A", {}, []) == ({"A", "B", "C", "D"}, ["A", "B", "D", "C"])
  {
    var g := map["A" := ["B", "C"], "B" := ["A", "D"], "C" := ["A"], "D" := ["B"]];
    var u := {"A", "B", "C", "D"};
    assert InUniverse(g, u);
    var abd, abdc := ["A", "B", "D"], ["A", "B", "D", "C"];
    // D: its only neighbour B is marked already.
    assert Neighbours(g, "D") == ["B"];
    assert SearchFrom(g, u, ["B"], 1, {"A", "B", "D"}, abd) == ({"A", "B", "D"}, abd);
    assert {"A", "B"} + {"D"} == {"A", "B", "D"} && ["A", "B"] + ["D"] == abd;
    assert Search(g, u, "D", {"A", "B"}, ["A", "B"]) == ({"A", "B", "D"}, abd);
    // B: A is marked, D is searched.
    assert Neighbours(g, "B") == ["A", "D"];
    assert SearchFrom(g, u, ["A", "D"], 2, {"A", "B", "D"}, abd) == ({"A", "B", "D"}, abd);
    assert SearchFrom(g, u, ["A", "D"], 1, {"A", "B"}, ["A", "B"]) == ({"A", "B", "D"}, abd);
    assert {"A"} + {"B"} == {"A", "B"} && ["A"] + ["B"] == ["A", "B"];
    assert Search(g, u, "B", {"A"}, ["A"]) == ({"A", "B", "D"}, abd);
    // C: its only neighbour A is marked.
    assert Neighbours(g, "C") == ["A"];
    assert SearchFrom(g, u, ["A"], 1, {"A", "B", "C", "D"}, abdc) == ({"A", "B", "C", "D"}, abdc);
    assert {"A", "B", "D"} + {"C"} == {"A", "B", "C", "D"} && abd + ["C"] == abdc;
    assert Search(g, u, "C", {"A", "B", "D"}, abd) == ({"A", "B", "C", "D"}, abdc);
    // A: B is searched, then C.
    assert Neighbours(g, "A") == ["B", "C"];
    assert SearchFrom(g, u, ["B", "C"], 2, {"A", "B", "C", "D"}, abdc) == ({"A", "B", "C", "D"}, abdc);
    assert SearchFrom(g, u, ["B", "C"], 1, {"A", "B", "D"}, abd) == ({"A", "B", "C", "D"}, abdc);
    assert SearchFrom(g, u, ["B", "C"], 0, {"A"}, ["A"]) == ({"A", "B", "C", "D"}, abdc);
    assert {} + {"A"} == {"A"} && [] + ["A"] == ["A"];
  }

  /** The inner `dfs(placa, grupo)`: marks `p` visited, appends it to the
      group, and recurses into each neighbour not yet visited, in list order.
      Its marks and its group are those of `Search`. */
  method Dfs(g: Graph, ghost universe: set<string>, p: string, visited: set<string>, group: seq<string>)
    returns (visited': set<string>, group': seq<string>)
    requires p in universe && p !in visited && InUniverse(g, universe)
    ensures (visited', group') == Search(g, universe, p, visited, group)
    decreases universe - visited
  {
    visited' := visited + {p};
    group' := group + [p];
    var nbrs := Neighbours(g, p);
    assert forall w :: w in nbrs ==> w in universe;
    for k := 0 to |nbrs|
      invariant visited + {p} <= visited'
      invariant SearchFrom(g, universe, nbrs, k, visited', group') == Search(g, universe, p, visited, group)
    {
      var v := nbrs[k];
      if v !in visited' {
        visited', group' := Dfs(g, universe, v, visited', group');
      }
    }
  }

  /** A search from `p` that starts on a group whose plates are marked, are
      distinct and were each reached from an earlier one: the plates it adds
      come after the group, start with `p`, are new, and are exactly the ones
      it marks; the extended group is still distinct and reached plate by
      plate, and every neighbour of an added plate ends up marked. */
  lemma {:induction false} SearchMeaning(g: Graph, universe: set<string>, p: string, visited: set<string>,
                                         group: seq<string>)
    requires p in universe && p !in visited && InUniverse(g, universe)
    requires forall v :: v in group ==> v in visited
    requires NoDuplicates(group) && Reached(g, group)
    requires group != [] ==> exists m :: 0 <= m < |group| && p in Neighbours(g, group[m])
    ensures var r := Search(g, universe, p, visited, group);
      Visits(universe, group, p, visited, r.1, r.0) && NoDuplicates(r.1) && Reached(g, r.1) &&
      Marked(g, r.1[|group|..], r.0)
    decreases universe - visited, 0, 0
  {
    StartVisitDistinct(group, p, visited);
    StartVisitReached(g, group, p);
    var group' := group + [p];
    assert group'[|group|..] == [p];
    assert group'[|group| + 1..] == [];
    SearchFromMeaning(g, universe, group, p, visited, 0, visited + {p}, group');
  }

  /** The neighbour loop of a search from `p`, from position `k` on, keeps
      what `SearchMeaning` promises. */
  lemma {:induction false} SearchFromMeaning(g: Graph, universe: set<string>, group: seq<string>, p: string,
                                             visited: set<string>, k: nat, visited': set<string>,
                                             group': seq<string>)
    requires InUniverse(g, universe) && k <= |Neighbours(g, p)|
    requires forall v :: v in group ==> v in visited
    requires Visits(universe, group, p, visited, group', visited')
    requires NoDuplicates(group') && Reached(g, group')
    requires Marked(g, group'[|group| + 1..], visited')
    requires forall w :: w in Neighbours(g, p)[..k] ==> w in visited'
    ensures var r := SearchFrom(g, universe, Neighbours(g, p), k, visited', group');
      Visits(universe, group, p, visited, r.1, r.0) && NoDuplicates(r.1) && Reached(g, r.1) &&
      Marked(g, r.1[|group|..], r.0)
    decreases universe - visited', 1, |Neighbours(g, p)| - k
  {
    var nbrs := Neighbours(g, p);
    if k == |nbrs| {
      assert nbrs[..k] == nbrs;
      MarkedCons(g, group'[|group|..], visited');
    } else {
      var v := nbrs[k];
      assert nbrs[..k + 1] == nbrs[..k] + [v];
      if v in visited' {
        SearchFromMeaning(g, universe, group, p, visited, k + 1, visited', group');
      } else {
        SearchChild(g, universe, group, p, visited, k, visited', group');
      }
    }
  }

  /** The step of the neighbour loop that searches from an unmarked
      neighbour. */
  lemma {:induction false} SearchChild(g: Graph, universe: set<string>, group: seq<string>, p: string,
                                       visited: set<string>, k: nat, visited': set<string>,
                                       group': seq<string>)
    requires InUniverse(g, universe) && k < |Neighbours(g, p)| && Neighbours(g, p)[k] !in visited'
    requires forall v :: v in group ==> v in visited
    requires Visits(universe, group, p, visited, group', visited')
    requires NoDuplicates(group') && Reached(g, group')
    requires Marked(g, group'[|group| + 1..], visited')
    requires forall w :: w in Neighbours(g, p)[..k + 1] ==> w in visited' || w == Neighbours(g, p)[k]
    ensures var r := SearchFrom(g, universe, Neighbours(g, p), k, visited', group');
      Visits(universe, group, p, visited, r.1, r.0) && NoDuplicates(r.1) && Reached(g, r.1) &&
      Marked(g, r.1[|group|..], r.0)
    decreases universe - visited', 0, 1
  {
    var nbrs := Neighbours(g, p);
    var v := nbrs[k];
    assert p in g && v in universe;
    VisitsCovers(universe, group, p, visited, group', visited');
    assert group'[|group|] in group' && exists m :: 0 <= m < |group'| && v in Neighbours(g, group'[m]);
    SearchMeaning(g, universe, v, visited', group');
    var s := Search(g, universe, v, visited', group');
    ChildVisited(g, universe, group, p, visited, group', visited', v, s.0, s.1);
    SearchFromMeaning(g, universe, group, p, visited, k + 1, s.0, s.1);
  }

  /** During the search every plate of the group is marked. */
  lemma VisitsCovers(universe: set<string>, group: seq<string>, p: string, visited: set<string>,
                     group': seq<string>, visited': set<string>)
    requires forall v :: v in group ==> v in visited
    requires Visits(universe, group, p, visited, group', visited')
    ensures forall v :: v in group' ==> v in visited'
  {
    forall v | v in group' ensures v in visited' {
      var i :| 0 <= i < |group'| && group'[i] == v;
      if i < |group| {
        assert group'[..|group|][i] == v;
      } else {
        assert group'[|group|..][i - |group|] == v;
      }
    }
  }

  /** The neighbours of the first plate and of the rest are marked. */
  lemma MarkedCons(g: Graph, us: seq<string>, visited: set<string>)
    requires |us| > 0 && Marked(g, us[1..], visited)
    requires forall w :: w in Neighbours(g, us[0]) ==> w in visited
    ensures Marked(g, us, visited)
  {
    forall u, w | u in us && w in Neighbours(g, u) ensures w in visited {
      if u != us[0] {
        var i :| 0 <= i < |us| && us[i] == u;
        assert us[1..][i - 1] == u;
      }
    }
  }

  /** After the recursive search from neighbour `v`, the plates the outer
      search has added still are exactly the ones it has marked. */
  lemma ChildVisited(g: Graph, universe: set<string>, group: seq<string>, p: string, visited: set<string>,
                     before: seq<string>, visitedBefore: set<string>, v: string,
                     visited': set<string>, group': seq<string>)
    requires Visits(universe, group, p, visited, before, visitedBefore)
    requires Marked(g, before[|group| + 1..], visitedBefore)
    requires Visits(universe, before, v, visitedBefore, group', visited')
    requires Marked(g, group'[|before|..], visited')
    ensures Visits(universe, group, p, visited, group', visited')
    ensures Marked(g, group'[|group| + 1..], visited')
    ensures visitedBefore <= visited' && v in visited'
  {
    SuffixGrows(|group|, before, group');
    SuffixGrows(|group| + 1, before, group');
    assert group'[|group|] == before[|group|];
    assert visitedBefore <= visited';
    assert v in group'[|before|..];
  }

  /** The graph the loops build: the adjacency list of every plate holds the
      plates close to it in input order, and no other plate has an entry. */
  predicate IsGraphOf(g: Graph, ps: seq<string>, maxDist: int) {
    (forall k {:trigger Neighbours(g, ps[k])} :: 0 <= k < |ps| ==>
      Neighbours(g, ps[k]) == Partners(ps, k, |ps|, maxDist)) &&
    (forall p :: p in g ==> p in ps)
  }

  /** Two plates are neighbours exactly when they are distinct input plates
      within the distance bound; in particular the graph is undirected. */
  lemma NeighbourMeaning(g: Graph, ps: seq<string>, maxDist: int, u: string, v: string)
    requires NoDuplicates(ps) && IsGraphOf(g, ps, maxDist)
    ensures v in Neighbours(g, u) <==> u in ps && v in ps && u != v && Close(u, v, maxDist)
  {
    if u in ps {
      var k :| 0 <= k < |ps| && ps[k] == u;
      assert Neighbours(g, ps[k]) == Partners(ps, k, |ps|, maxDist);
      PartnersMeaning(ps, k, |ps|, maxDist, v);
      if v in Neighbours(g, u) {
        var m :| 0 <= m < |ps| && m != k && ps[m] == v && Close(ps[m], ps[k], maxDist);
        DistinctAt(ps, m, k);
        MismatchesSymmetric(u, v);
      }
      if v in ps && u != v && Close(u, v, maxDist) {
        var m :| 0 <= m < |ps| && ps[m] == v;
        MismatchesSymmetric(u, v);
        assert m != k && Close(ps[m], ps[k], maxDist);
      }
    }
  }

  // ---------------------------------------------------------------------------
  // The outer loop over the plates

  /** Plate `v` belongs to one of the groups. */
  predicate InSome(groups: seq<seq<string>>, v: string) {
    exists gi :: 0 <= gi < |groups| && v in groups[gi]
  }

  /** No plate belongs to two groups. */
  predicate Disjoint(groups: seq<seq<string>>) {
    forall gi, gj, v :: 0 <= gi < gj < |groups| && v in groups[gi] ==> v !in groups[gj]
  }

  /** Every neighbour of a member of a group is in that group. */
  predicate Closed(g: Graph, groups: seq<seq<string>>) {
    forall gi, u, v :: 0 <= gi < |groups| && u in groups[gi] && v in Neighbours(g, u) ==> v in groups[gi]
  }

  /** Group `gi` was started from `ps[starts[gi]]`, the earliest of its
      members, and the groups were started in input order. */
  predicate StartedInOrder(ps: seq<string>, groups: seq<seq<string>>, starts: seq<nat>, i: nat) {
    |starts| == |groups| &&
    (forall gi :: 0 <= gi < |groups| ==>
      starts[gi] < i && starts[gi] < |ps| && groups[gi] != [] && groups[gi][0] == ps[starts[gi]]) &&
    (forall gi, m :: 0 <= gi < |groups| && 0 <= m < starts[gi] ==> ps[m] !in groups[gi]) &&
    (forall gi, gj :: 0 <= gi < gj < |groups| ==> starts[gi] < starts[gj])
  }

  /** What holds after the outer loop has looked at `ps[..i]`. */
  ghost predicate Searched(g: Graph, ps: seq<string>, groups: seq<seq<string>>, starts: seq<nat>,
                     visited: set<string>, i: nat) {
    i <= |ps| &&
    (forall v :: v in visited <==> InSome(groups, v)) &&
    (forall m :: 0 <= m < i ==> ps[m] in visited) &&
    (forall gi :: 0 <= gi < |groups| ==> NoDuplicates(groups[gi]) && Reached(g, groups[gi])) &&
    Disjoint(groups) && Closed(g, groups) && StartedInOrder(ps, groups, starts, i)
  }

  /** A plate already visited is skipped. */
  lemma SkipVisited(g: Graph, ps: seq<string>, groups: seq<seq<string>>, starts: seq<nat>,
                    visited: set<string>, j: nat, i: nat)
    requires i == j + 1 && j < |ps| && ps[j] in visited
    requires Searched(g, ps, groups, starts, visited, j)
    ensures Searched(g, ps, groups, starts, visited, i)
  {
  }

  lemma InSomeAppend(groups: seq<seq<string>>, group: seq<string>, v: string)
    ensures InSome(groups + [group], v) <==> InSome(groups, v) || v in group
  {
    var gs := groups + [group];
    if InSome(groups, v) {
      var gi :| 0 <= gi < |groups| && v in groups[gi];
      assert gs[gi] == groups[gi];
    }
    if v in group {
      assert gs[|groups|] == group;
    }
    if InSome(gs, v) {
      var gi :| 0 <= gi < |gs| && v in gs[gi];
      if gi < |groups| {
        assert gs[gi] == groups[gi];
      }
    }
  }

  /** A search from an unvisited plate adds a new group that keeps everything
      the outer loop maintains. */
  lemma AddSearched(g: Graph, ps: seq<string>, maxDist: int, groups: seq<seq<string>>, starts: seq<nat>,
                    visited: set<string>, i: nat, group: seq<string>, visited': set<string>)
    requires NoDuplicates(ps) && IsGraphOf(g, ps, maxDist)
    requires i < |ps| && ps[i] !in visited
    requires Searched(g, ps, groups, starts, visited, i)
    requires Visits(Plates(ps), [], ps[i], visited, group, visited')
    requires NoDuplicates(group) && Reached(g, group)
    requires Marked(g, group[0..], visited')
    ensures Searched(g, ps, groups + [group], starts + [i], visited', i + 1)
  {
    assert group[0..] == group;
    AddGroup(g, ps, maxDist, groups, starts, visited, i, group, visited');
  }

  lemma AddGroup(g: Graph, ps: seq<string>, maxDist: int, groups: seq<seq<string>>, starts: seq<nat>,
                 visited: set<string>, i: nat, group: seq<string>, visited': set<string>)
    requires NoDuplicates(ps) && IsGraphOf(g, ps, maxDist)
    requires i < |ps| && ps[i] !in visited
    requires Searched(g, ps, groups, starts, visited, i)
    requires |group| > 0 && group[0] == ps[i]
    requires forall v :: v in visited' <==> v in visited || v in group
    requires forall v :: v in group ==> v !in visited
    requires NoDuplicates(group) && Reached(g, group)
    requires forall u, v :: u in group && v in Neighbours(g, u) ==> v in visited'
    ensures Searched(g, ps, groups + [group], starts + [i], visited', i + 1)
  {
    var gs := groups + [group];
    forall v ensures v in visited' <==> InSome(gs, v) {
      InSomeAppend(groups, group, v);
    }
    forall gi | 0 <= gi < |gs| ensures NoDuplicates(gs[gi]) && Reached(g, gs[gi]) {
      if gi < |groups| {
        assert gs[gi] == groups[gi];
      }
    }
    AddGroupDisjoint(groups, group, visited);
    AddGroupClosed(g, ps, maxDist, groups, visited, group, visited');
    AddGroupStarted(ps, groups, starts, visited, i, group);
  }

  lemma AddGroupDisjoint(groups: seq<seq<string>>, group: seq<string>, visited: set<string>)
    requires Disjoint(groups)
    requires forall v :: InSome(groups, v) ==> v in visited
    requires forall v :: v in group ==> v !in visited
    ensures Disjoint(groups + [group])
  {
    var gs := groups + [group];
    forall gi, gj, v | 0 <= gi < gj < |gs| && v in gs[gi] ensures v !in gs[gj] {
      if gj < |groups| {
        assert gs[gi] == groups[gi] && gs[gj] == groups[gj];
      } else {
        assert gs[gi] == groups[gi] && InSome(groups, v);
      }
    }
  }

  lemma AddGroupClosed(g: Graph, ps: seq<string>, maxDist: int, groups: seq<seq<string>>,
                       visited: set<string>, group: seq<string>, visited': set<string>)
    requires NoDuplicates(ps) && IsGraphOf(g, ps, maxDist)
    requires Closed(g, groups)
    requires forall v :: v in visited <==> InSome(groups, v)
    requires forall v :: v in visited' <==> v in visited || v in group
    requires forall v :: v in group ==> v !in visited
    requires forall u, v :: u in group && v in Neighbours(g, u) ==> v in visited'
    ensures Closed(g, groups + [group])
  {
    var gs := groups + [group];
    forall gi, u, v | 0 <= gi < |gs| && u in gs[gi] && v in Neighbours(g, u) ensures v in gs[gi] {
      if gi < |groups| {
        assert gs[gi] == groups[gi];
      } else {
        assert u in group && u !in visited;
        NeighbourMeaning(g, ps, maxDist, u, v);
        NeighbourMeaning(g, ps, maxDist, v, u);
        MismatchesSymmetric(u, v);
        assert u in Neighbours(g, v);
        ClosedNeighbour(g, groups, v, u);
      }
    }
  }

  /** A neighbour of a grouped plate is grouped too. */
  lemma ClosedNeighbour(g: Graph, groups: seq<seq<string>>, u: string, v: string)
    requires Closed(g, groups) && v in Neighbours(g, u)
    ensures InSome(groups, u) ==> InSome(groups, v)
  {
    if InSome(groups, u) {
      var gi :| 0 <= gi < |groups| && u in groups[gi];
      assert v in groups[gi];
    }
  }

  lemma AddGroupStarted(ps: seq<string>, groups: seq<seq<string>>, starts: seq<nat>,
                        visited: set<string>, i: nat, group: seq<string>)
    requires i < |ps| && StartedInOrder(ps, groups, starts, i)
    requires forall m :: 0 <= m < i ==> ps[m] in visited
    requires forall v :: v in group ==> v !in visited
    requires |group| > 0 && group[0] == ps[i]
    ensures StartedInOrder(ps, groups + [group], starts + [i], i + 1)
  {
    var gs, ss := groups + [group], starts + [i];
    forall gi | 0 <= gi < |gs|
      ensures ss[gi] < i + 1 && ss[gi] < |ps| && gs[gi] != [] && gs[gi][0] == ps[ss[gi]]
    {
      if gi < |groups| {
        assert gs[gi] == groups[gi] && ss[gi] == starts[gi];
      }
    }
    forall gi, m | 0 <= gi < |gs| && 0 <= m < ss[gi] ensures ps[m] !in gs[gi] {
      if gi < |groups| {
        assert gs[gi] == groups[gi] && ss[gi] == starts[gi];
      } else {
        assert ps[m] in visited;
      }
    }
    forall gi, gj | 0 <= gi < gj < |gs| ensures ss[gi] < ss[gj] {
      if gj < |groups| {
        assert ss[gi] == starts[gi] && ss[gj] == starts[gj];
      } else {
        assert ss[gi] == starts[gi];
      }
    }
  }

  // ---------------------------------------------------------------------------
  // What the grouping promises

  /** Every input plate is in exactly one group, no group is empty and no
      group repeats a plate. */
  ghost predicate IsPartition(ps: seq<string>, groups: seq<seq<string>>) {
    (forall gi :: 0 <= gi < |groups| ==> groups[gi] != [] && NoDuplicates(groups[gi])) &&
    (forall v :: v in ps <==> InSome(groups, v)) &&
    Disjoint(groups)
  }

  /** Two input plates within the distance bound always share a group. */
  predicate KeepsCloseTogether(ps: seq<string>, groups: seq<seq<string>>, maxDist: int) {
    forall gi, u, v :: 0 <= gi < |groups| && u in groups[gi] && v in ps && u != v && Close(u, v, maxDist) ==>
      v in groups[gi]
  }

  /** `group[k]` is within the distance bound of a plate before it. */
  predicate CloseToEarlier(group: seq<string>, k: int, maxDist: int)
    requires 0 <= k < |group|
  {
    exists m :: 0 <= m < k && Close(group[m], group[k], maxDist)
  }

  /** Each member of a group after the first is close to an earlier member:
      every group is connected by close pairs. */
  predicate Chained(groups: seq<seq<string>>, maxDist: int) {
    forall gi, k :: 0 <= gi < |groups| && 0 < k < |groups[gi]| ==> CloseToEarlier(groups[gi], k, maxDist)
  }

  /** Each group opens with its earliest plate in the input, and the groups
      come in the input order of their first plates. */
  predicate InInputOrder(ps: seq<string>, groups: seq<seq<string>>) {
    (forall gi, a, b ::
      (0 <= gi < |groups| && 0 <= a < |ps| && 0 <= b < |ps| &&
       groups[gi] != [] && groups[gi][0] == ps[a] && ps[b] in groups[gi]) ==> a <= b) &&
    (forall gi, gj, a, b ::
      (0 <= gi < gj < |groups| && 0 <= a < |ps| && 0 <= b < |ps| &&
       groups[gi] != [] && groups[gj] != [] && groups[gi][0] == ps[a] && groups[gj][0] == ps[b]) ==> a < b)
  }

  lemma FinishPartition(g: Graph, ps: seq<string>, groups: seq<seq<string>>, starts: seq<nat>,
                        visited: set<string>)
    requires Searched(g, ps, groups, starts, visited, |ps|)
    requires forall v :: v in visited ==> v in ps
    ensures IsPartition(ps, groups)
  {
    forall v ensures v in ps <==> InSome(groups, v) {
      if v in ps {
        var m :| 0 <= m < |ps| && ps[m] == v;
        assert ps[m] in visited;
      }
    }
  }

  lemma FinishClose(g: Graph, ps: seq<string>, maxDist: int, groups: seq<seq<string>>)
    requires NoDuplicates(ps) && IsGraphOf(g, ps, maxDist)
    requires Closed(g, groups)
    requires forall gi, v :: 0 <= gi < |groups| && v in groups[gi] ==> v in ps
    ensures KeepsCloseTogether(ps, groups, maxDist)
  {
    forall gi, u, v | 0 <= gi < |groups| && u in groups[gi] && v in ps && u != v && Close(u, v, maxDist)
      ensures v in groups[gi]
    {
      NeighbourMeaning(g, ps, maxDist, u, v);
    }
  }

  lemma FinishChained(g: Graph, ps: seq<string>, maxDist: int, groups: seq<seq<string>>)
    requires NoDuplicates(ps) && IsGraphOf(g, ps, maxDist)
    requires forall gi :: 0 <= gi < |groups| ==> Reached(g, groups[gi])
    ensures Chained(groups, maxDist)
  {
    forall gi, k | 0 <= gi < |groups| && 0 < k < |groups[gi]| ensures CloseToEarlier(groups[gi], k, maxDist) {
      var group := groups[gi];
      assert ReachedAt(g, group, k);
      var m :| 0 <= m < k && group[k] in Neighbours(g, group[m]);
      NeighbourMeaning(g, ps, maxDist, group[m], group[k]);
    }
  }

  lemma FinishOrder(ps: seq<string>, groups: seq<seq<string>>, starts: seq<nat>)
    requires NoDuplicates(ps) && StartedInOrder(ps, groups, starts, |ps|)
    ensures InInputOrder(ps, groups)
  {
    forall gi, a, b | 0 <= gi < |groups| && 0 <= a < |ps| && 0 <= b < |ps| &&
        groups[gi] != [] && groups[gi][0] == ps[a] && ps[b] in groups[gi]
      ensures a <= b
    {
      if a != starts[gi] {
        DistinctAt(ps, a, starts[gi]);
      }
    }
    forall gi, gj, a, b | 0 <= gi < gj < |groups| && 0 <= a < |ps| && 0 <= b < |ps| &&
        groups[gi] != [] && groups[gj] != [] && groups[gi][0] == ps[a] && groups[gj][0] == ps[b]
      ensures a < b
    {
      if a != starts[gi] {
        DistinctAt(ps, a, starts[gi]);
      }
      if b != starts[gj] {
        DistinctAt(ps, b, starts[gj]);
      }
    }
  }

  /** The set of the plates. */
  function Plates(ps: seq<string>): set<string> {
    set v | v in ps
  }

  /** The outer loop as a function: starting from the marks and the groups
      found so far, look at the plates `ps[i..]` in order, each unmarked one
      opening a new group with `Search`; the result is the final marks and
      groups. */
  ghost function GroupedFrom(g: Graph, ps: seq<string>, i: nat, visited: set<string>, groups: seq<seq<string>>)
    : (set<string>, seq<seq<string>>)
    requires i <= |ps| && InUniverse(g, Plates(ps))
    decreases |ps| - i
  {
    if i == |ps| then (visited, groups)
    else if ps[i] in visited then GroupedFrom(g, ps, i + 1, visited, groups)
    else
      var s := Search(g, Plates(ps), ps[i], visited, []);
      GroupedFrom(g, ps, i + 1, s.0, groups + [s.1])
  }

  /** Looking at the remaining plates keeps what the outer loop maintains, so
      the final groups satisfy it for all plates. */
  lemma {:induction false} GroupedFromMeaning(g: Graph, ps: seq<string>, maxDist: int, i: nat,
                                              visited: set<string>, groups: seq<seq<string>>,
                                              starts: seq<nat>)
    returns (starts': seq<nat>)
    requires NoDuplicates(ps) && IsGraphOf(g, ps, maxDist) && InUniverse(g, Plates(ps)) && i <= |ps|
    requires Searched(g, ps, groups, starts, visited, i)
    requires forall v :: v in visited ==> v in ps
    ensures var r := GroupedFrom(g, ps, i, visited, groups);
      Searched(g, ps, r.1, starts', r.0, |ps|) && forall v :: v in r.0 ==> v in ps
    decreases |ps| - i, 1
  {
    if i == |ps| {
      starts' := starts;
    } else if ps[i] in visited {
      starts' := GroupedFromSkip(g, ps, maxDist, i, visited, groups, starts);
    } else {
      starts' := GroupedFromSearch(g, ps, maxDist, i, visited, groups, starts);
    }
  }

  /** The outer loop skips a marked plate. */
  lemma {:induction false} GroupedFromSkip(g: Graph, ps: seq<string>, maxDist: int, i: nat,
                                           visited: set<string>, groups: seq<seq<string>>,
                                           starts: seq<nat>)
    returns (starts': seq<nat>)
    requires NoDuplicates(ps) && IsGraphOf(g, ps, maxDist) && InUniverse(g, Plates(ps))
    requires i < |ps| && ps[i] in visited
    requires Searched(g, ps, groups, starts, visited, i)
    requires forall v :: v in visited ==> v in ps
    ensures var r := GroupedFrom(g, ps, i, visited, groups);
      Searched(g, ps, r.1, starts', r.0, |ps|) && forall v :: v in r.0 ==> v in ps
    decreases |ps| - i, 0
  {
    SkipVisited(g, ps, groups, starts, visited, i, i + 1);
    starts' := GroupedFromMeaning(g, ps, maxDist, i + 1, visited, groups, starts);
  }

  /** The outer loop opens a new group at an unmarked plate. */
  lemma {:induction false} GroupedFromSearch(g: Graph, ps: seq<string>, maxDist: int, i: nat,
                                             visited: set<string>, groups: seq<seq<string>>,
                                             starts: seq<nat>)
    returns (starts': seq<nat>)
    requires NoDuplicates(ps) && IsGraphOf(g, ps, maxDist) && InUniverse(g, Plates(ps))
    requires i < |ps| && ps[i] !in visited
    requires Searched(g, ps, groups, starts, visited, i)
    requires forall v :: v in visited ==> v in ps
    ensures var r := GroupedFrom(g, ps, i, visited, groups);
      Searched(g, ps, r.1, starts', r.0, |ps|) && forall v :: v in r.0 ==> v in ps
    decreases |ps| - i, 0
  {
    var s := Search(g, Plates(ps), ps[i], visited, []);
    OuterSearched(g, ps, maxDist, groups, starts, visited, i, i + 1, s.1, s.0);
    starts' := GroupedFromMeaning(g, ps, maxDist, i + 1, s.0, groups + [s.1], starts + [i]);
  }

  /** Before the outer loop nothing is marked and there are no groups. */
  lemma SearchedStart(g: Graph, ps: seq<string>)
    ensures Searched(g, ps, [], [], {}, 0)
  {
  }

  /** A round of the outer loop that searches from `ps[i]` keeps the loop's
      invariant. */
  lemma OuterSearched(g: Graph, ps: seq<string>, maxDist: int, groups: seq<seq<string>>, starts: seq<nat>,
                      visited: set<string>, j: nat, i: nat, group: seq<string>, visited': set<string>)
    requires NoDuplicates(ps) && IsGraphOf(g, ps, maxDist) && InUniverse(g, Plates(ps))
    requires i == j + 1 && j < |ps| && ps[j] !in visited
    requires Searched(g, ps, groups, starts, visited, j)
    requires forall v :: v in visited ==> v in ps
    requires (visited', group) == Search(g, Plates(ps), ps[j], visited, [])
    ensures Searched(g, ps, groups + [group], starts + [j], visited', i)
    ensures forall v :: v in visited' ==> v in ps
  {
    SearchMeaning(g, Plates(ps), ps[j], visited, []);
    AddSearched(g, ps, maxDist, groups, starts, visited, j, group, visited');
  }

  /** The groups `agrupar_placas_por_hamming_completo` returns for `ps`, in
      the order its loops list them, when no comparison raises. */
  ghost function Grouping(ps: seq<string>, maxDist: int): seq<seq<string>>
    requires NoDuplicates(ps)
  {
    BuiltIsGraph(ps, maxDist);
    GraphWithin(RowsDone(ps, maxDist, |ps|), ps, maxDist);
    GroupedFrom(RowsDone(ps, maxDist, |ps|), ps, 0, {}, []).1
  }

  /** The groups are a partition of the plates into connected components of
      the closeness graph: close plates share a group, each group is chained
      by close pairs, and groups and members come in input order. */
  lemma GroupingMeaning(ps: seq<string>, maxDist: int)
    requires NoDuplicates(ps)
    ensures IsPartition(ps, Grouping(ps, maxDist))
    ensures KeepsCloseTogether(ps, Grouping(ps, maxDist), maxDist)
    ensures Chained(Grouping(ps, maxDist), maxDist)
    ensures InInputOrder(ps, Grouping(ps, maxDist))
  {
    var g := RowsDone(ps, maxDist, |ps|);
    BuiltIsGraph(ps, maxDist);
    GroupedOfGraph(g, ps, maxDist);
  }

  /** The groups the outer loop finds on the closeness graph. */
  lemma GroupedOfGraph(g: Graph, ps: seq<string>, maxDist: int)
    requires NoDuplicates(ps) && IsGraphOf(g, ps, maxDist)
    ensures InUniverse(g, Plates(ps))
    ensures IsPartition(ps, GroupedFrom(g, ps, 0, {}, []).1)
    ensures KeepsCloseTogether(ps, GroupedFrom(g, ps, 0, {}, []).1, maxDist)
    ensures Chained(GroupedFrom(g, ps, 0, {}, []).1, maxDist)
    ensures InInputOrder(ps, GroupedFrom(g, ps, 0, {}, []).1)
  {
    GraphWithin(g, ps, maxDist);
    SearchedStart(g, ps);
    var starts := GroupedFromMeaning(g, ps, maxDist, 0, {}, [], []);
    var r := GroupedFrom(g, ps, 0, {}, []);
    Finish(g, ps, maxDist, r.1, starts, r.0);
  }

  /** The outer `for placa in placas` loop: a new group is searched from every
      plate not yet visited. It computes `GroupedFrom` from the start. */
  method Components(g: Graph, ps: seq<string>, maxDist: int) returns (groups: seq<seq<string>>)
    requires NoDuplicates(ps) && IsGraphOf(g, ps, maxDist)
    ensures InUniverse(g, Plates(ps)) && groups == GroupedFrom(g, ps, 0, {}, []).1
  {
    ghost var universe := Plates(ps);
    GraphWithin(g, ps, maxDist);
    var visited: set<string> := {};
    groups := [];
    for i := 0 to |ps|
      invariant GroupedFrom(g, ps, i, visited, groups) == GroupedFrom(g, ps, 0, {}, [])
    {
      if ps[i] !in visited {
        var visited', group := Dfs(g, universe, ps[i], visited, []);
        visited, groups := visited', groups + [group];
      }
    }
  }

  /** Once every plate is handled, the groups are what the search promises. */
  lemma Finish(g: Graph, ps: seq<string>, maxDist: int, groups: seq<seq<string>>, starts: seq<nat>,
               visited: set<string>)
    requires NoDuplicates(ps) && IsGraphOf(g, ps, maxDist)
    requires Searched(g, ps, groups, starts, visited, |ps|)
    requires forall v :: v in visited ==> v in ps
    ensures IsPartition(ps, groups)
    ensures KeepsCloseTogether(ps, groups, maxDist)
    ensures Chained(groups, maxDist)
    ensures InInputOrder(ps, groups)
  {
    FinishPartition(g, ps, groups, starts, visited);
    FinishClose(g, ps, maxDist, groups);
    FinishChained(g, ps, maxDist, groups);
    FinishOrder(ps, groups, starts);
  }

  /** Every neighbour in the graph is one of the plates. */
  lemma GraphWithin(g: Graph, ps: seq<string>, maxDist: int)
    requires NoDuplicates(ps) && IsGraphOf(g, ps, maxDist)
    ensures InUniverse(g, Plates(ps))
  {
    forall u, v | u in g && v in g[u] ensures v in Plates(ps) {
      NeighbourMeaning(g, ps, maxDist, u, v);
    }
  }

  /** `agrupar_placas_por_hamming_completo`: the connected components of the
      closeness graph, each searched depth first from its earliest plate; a
      pair of plates of different lengths raises. */
  method GroupPlates(ps: seq<string>, maxDist: int) returns (r: Result<seq<seq<string>>, string>)
    requires NoDuplicates(ps)
    ensures r.Err? <==> HasLengthMismatch(ps)
    ensures r.Err? ==> r.error == LengthError
    ensures r.Ok? ==> r.value == Grouping(ps, maxDist)
    ensures r.Ok? ==> IsPartition(ps, r.value)
    ensures r.Ok? ==> KeepsCloseTogether(ps, r.value, maxDist)
    ensures r.Ok? ==> Chained(r.value, maxDist)
    ensures r.Ok? ==> InInputOrder(ps, r.value)
  {
    var built := BuildGraph(ps, maxDist);
    if built.Err? {
      return Err(built.error);
    }
    var groups := Components(built.value, ps, maxDist);
    GroupingMeaning(ps, maxDist);
    return Ok(groups);
  }
}
