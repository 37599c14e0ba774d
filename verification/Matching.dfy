/** Greedy one-to-one assignment by descending weight, as the app's tracker uses
    it (RaspberryPiClient.kt): claim the best pair whose sides are both free. */
module Matching {

  /** A candidate: a track, a detection, and their overlap. */
  datatype Pair = Pair(track: nat, det: nat, weight: real)

  function Side(p: Pair, byTrack: bool): nat {
    if byTrack then p.track else p.det
  }

  predicate Share(p: Pair, q: Pair) {
    p.track == q.track || p.det == q.det
  }

  const WEIGHT: Pair -> real := (p: Pair) => p.weight

  /** Best first. */
  ghost predicate Best(s: seq<Pair>) {
    forall i, j :: 0 <= i < j < |s| ==> s[i].weight >= s[j].weight
  }

  // ---------------------------------------------------------------- greedy

  /** Claim the candidates in turn, skipping those with a claimed side. */
  function Greedy(cands: seq<Pair>, tracks: set<nat>, dets: set<nat>): seq<Pair> {
    if cands == [] then []
    else
      var p := cands[0];
      if p.track in tracks || p.det in dets then Greedy(cands[1..], tracks, dets)
      else [p] + Greedy(cands[1..], tracks + {p.track}, dets + {p.det})
  }

  /** No track and no detection occurs twice. */
  ghost predicate OneToOne(s: seq<Pair>) {
    forall i, j :: 0 <= i < j < |s| ==> !Share(s[i], s[j])
  }

  ghost predicate Free(s: seq<Pair>, tracks: set<nat>, dets: set<nat>) {
    forall k :: 0 <= k < |s| ==> s[k].track !in tracks && s[k].det !in dets
  }

  /** The choice is one-to-one, among the candidates, and off the claimed sides. */
  lemma {:induction false} GreedyOneToOne(cands: seq<Pair>, tracks: set<nat>, dets: set<nat>)
    ensures var g := Greedy(cands, tracks, dets);
      OneToOne(g) && Free(g, tracks, dets) && forall k :: 0 <= k < |g| ==> g[k] in cands
  {
    if cands != [] {
      var p := cands[0];
      if p.track in tracks || p.det in dets {
        GreedyOneToOne(cands[1..], tracks, dets);
      } else {
        GreedyOneToOne(cands[1..], tracks + {p.track}, dets + {p.det});
      }
    }
  }

  /** Why a candidate is not chosen: a side was claimed before, or a chosen pair of
      no smaller weight took one. */
  ghost predicate Blocked(p: Pair, g: seq<Pair>, tracks: set<nat>, dets: set<nat>) {
    || p in g || p.track in tracks || p.det in dets
    || exists k :: 0 <= k < |g| && Share(g[k], p) && g[k].weight >= p.weight
  }

  lemma {:induction false} GreedyBlocks(cands: seq<Pair>, tracks: set<nat>, dets: set<nat>, i: nat)
    requires Best(cands) && i < |cands|
    ensures Blocked(cands[i], Greedy(cands, tracks, dets), tracks, dets)
  {
    var p := cands[0];
    var g := Greedy(cands, tracks, dets);
    if p.track in tracks || p.det in dets {
      if i > 0 {
        GreedyBlocks(cands[1..], tracks, dets, i - 1);
      }
    } else {
      assert g[0] == p;
      if i > 0 {
        GreedyBlocks(cands[1..], tracks + {p.track}, dets + {p.det}, i - 1);
        assert g[1..] == Greedy(cands[1..], tracks + {p.track}, dets + {p.det});
        if Share(p, cands[i]) {
          assert g[0].weight >= cands[i].weight;
        } else if cands[i] !in g[1..] && cands[i].track !in tracks && cands[i].det !in dets {
          var k :| 0 <= k < |g[1..]| && Share(g[1..][k], cands[i]) && g[1..][k].weight >= cands[i].weight;
          assert g[k + 1] == g[1..][k];
        }
      }
    }
  }

  /** Every unchosen candidate shares its track or its detection with a chosen pair
      of no smaller weight. */
  lemma NoBlockingPair(cands: seq<Pair>, i: nat)
    requires Best(cands) && i < |cands|
    ensures var g := Greedy(cands, {}, {});
      cands[i] in g || exists k :: 0 <= k < |g| && Share(g[k], cands[i]) && g[k].weight >= cands[i].weight
  {
    GreedyBlocks(cands, {}, {}, i);
  }

  // ------------------------------------------------------- half of optimal

  function Sum(s: seq<Pair>): real {
    if s == [] then 0.0 else s[0].weight + Sum(s[1..])
  }

  function Without(s: seq<Pair>, byTrack: bool, key: nat): seq<Pair> {
    if s == [] then []
    else (if Side(s[0], byTrack) == key then [] else [s[0]]) + Without(s[1..], byTrack, key)
  }

  lemma {:induction false} WithoutKeeps(s: seq<Pair>, byTrack: bool, key: nat)
    requires OneToOne(s)
    ensures var r := Without(s, byTrack, key);
      && OneToOne(r)
      && (forall p :: p in r <==> p in s && Side(p, byTrack) != key)
  {
    if s != [] {
      WithoutKeeps(s[1..], byTrack, key);
      assert forall p :: p in s <==> p == s[0] || p in s[1..];
      var r := Without(s[1..], byTrack, key);
      assert forall j :: 0 <= j < |r| ==> r[j] in s[1..];
      assert forall p :: p in s[1..] ==> !Share(s[0], p);
    }
  }

  /** A one-to-one choice loses at most one pair with a given side. */
  lemma {:induction false} WithoutCosts(s: seq<Pair>, byTrack: bool, key: nat, w: real)
    requires OneToOne(s) && w >= 0.0 && forall k :: 0 <= k < |s| ==> s[k].weight <= w
    ensures Sum(Without(s, byTrack, key)) >= Sum(s) - w
  {
    if s != [] {
      var rest := s[1..];
      if Side(s[0], byTrack) == key {
        assert forall k :: 0 <= k < |rest| ==> !Share(s[0], rest[k]);
        WithoutAll(rest, byTrack, key);
        assert [] + rest == rest;
      } else {
        WithoutCosts(rest, byTrack, key, w);
        assert ([s[0]] + Without(rest, byTrack, key))[1..] == Without(rest, byTrack, key);
      }
    }
  }

  lemma {:induction false} WithoutAll(s: seq<Pair>, byTrack: bool, key: nat)
    requires forall k :: 0 <= k < |s| ==> Side(s[k], byTrack) != key
    ensures Without(s, byTrack, key) == s
  {
    if s != [] {
      WithoutAll(s[1..], byTrack, key);
    }
  }

  /** A rival choice: any one-to-one choice of candidates off the claimed sides. */
  ghost predicate Rival(m: seq<Pair>, cands: seq<Pair>, tracks: set<nat>, dets: set<nat>) {
    OneToOne(m) && Free(m, tracks, dets) && forall k :: 0 <= k < |m| ==> m[k] in cands
  }

  /** What is left of a choice without either side of a pair. */
  function Apart(m: seq<Pair>, p: Pair): seq<Pair> {
    Without(Without(m, true, p.track), false, p.det)
  }

  lemma ApartKeeps(m: seq<Pair>, p: Pair)
    requires OneToOne(m)
    ensures OneToOne(Apart(m, p))
    ensures forall q :: q in Apart(m, p) <==> q in m && !Share(p, q)
  {
    WithoutKeeps(m, true, p.track);
    WithoutKeeps(Without(m, true, p.track), false, p.det);
  }

  lemma ApartCosts(m: seq<Pair>, p: Pair)
    requires OneToOne(m) && p.weight >= 0.0 && forall q :: q in m ==> q.weight <= p.weight
    ensures Sum(Apart(m, p)) >= Sum(m) - 2.0 * p.weight
  {
    var once := Without(m, true, p.track);
    WithoutKeeps(m, true, p.track);
    assert forall k :: 0 <= k < |m| ==> m[k] in m;
    assert forall k :: 0 <= k < |once| ==> once[k] in once;
    WithoutCosts(m, true, p.track, p.weight);
    WithoutCosts(once, false, p.det, p.weight);
  }

  /** Pulling a claimed pair's sides out of a rival leaves a rival of the rest. */
  lemma RivalOfRest(m: seq<Pair>, cands: seq<Pair>, tracks: set<nat>, dets: set<nat>)
    requires cands != [] && Best(cands) && cands[0].weight >= 0.0 && Rival(m, cands, tracks, dets)
    ensures var p := cands[0];
      && Rival(Apart(m, p), cands[1..], tracks + {p.track}, dets + {p.det})
      && Sum(Apart(m, p)) >= Sum(m) - 2.0 * p.weight
  {
    var p := cands[0];
    var rest := Apart(m, p);
    ApartKeeps(m, p);
    Lightest(m, cands);
    ApartCosts(m, p);
    forall k | 0 <= k < |rest|
      ensures rest[k].track !in tracks + {p.track} && rest[k].det !in dets + {p.det} && rest[k] in cands[1..]
    {
      assert rest[k] in rest;
      assert cands == [p] + cands[1..];
    }
  }

  lemma Lightest(m: seq<Pair>, cands: seq<Pair>)
    requires cands != [] && Best(cands) && forall k :: 0 <= k < |m| ==> m[k] in cands
    ensures forall k :: 0 <= k < |m| ==> m[k].weight <= cands[0].weight
  {
    forall k | 0 <= k < |m|
      ensures m[k].weight <= cands[0].weight
    {
      var j :| 0 <= j < |cands| && cands[j] == m[k];
      assert j == 0 || cands[0].weight >= cands[j].weight;
    }
  }

  lemma {:induction false} HalfOptimalFrom(m: seq<Pair>, cands: seq<Pair>, tracks: set<nat>, dets: set<nat>)
    requires Best(cands) && Rival(m, cands, tracks, dets)
    requires forall k :: 0 <= k < |cands| ==> cands[k].weight >= 0.0
    ensures Sum(m) <= 2.0 * Sum(Greedy(cands, tracks, dets))
    decreases |cands|
  {
    if cands == [] {
      assert m == [];
    } else {
      var p := cands[0];
      if p.track in tracks || p.det in dets {
        assert cands == [p] + cands[1..];
        HalfOptimalFrom(m, cands[1..], tracks, dets);
      } else {
        RivalOfRest(m, cands, tracks, dets);
        HalfOptimalFrom(Apart(m, p), cands[1..], tracks + {p.track}, dets + {p.det});
        assert Greedy(cands, tracks, dets)[1..] == Greedy(cands[1..], tracks + {p.track}, dets + {p.det});
      }
    }
  }

  /** The total weight chosen is at least half that of any one-to-one choice. */
  lemma HalfOptimal(m: seq<Pair>, cands: seq<Pair>)
    requires Best(cands) && OneToOne(m) && forall k :: 0 <= k < |m| ==> m[k] in cands
    requires forall k :: 0 <= k < |cands| ==> cands[k].weight >= 0.0
    ensures Sum(m) <= 2.0 * Sum(Greedy(cands, {}, {}))
  {
    HalfOptimalFrom(m, cands, {}, {});
  }

  /** And no better factor holds: among equal candidates the first can cost two. */
  lemma {:induction false} HalfIsTight()
    ensures var cands, m := [Pair(0, 0, 1.0), Pair(0, 1, 1.0), Pair(1, 0, 1.0)], [Pair(0, 1, 1.0), Pair(1, 0, 1.0)];
      && Best(cands) && OneToOne(m) && (forall k :: 0 <= k < |m| ==> m[k] in cands)
      && Sum(m) == 2.0 * Sum(Greedy(cands, {}, {}))
  {
    var cands := [Pair(0, 0, 1.0), Pair(0, 1, 1.0), Pair(1, 0, 1.0)];
    assert cands[1..] == [Pair(0, 1, 1.0), Pair(1, 0, 1.0)] && cands[1..][1..] == [Pair(1, 0, 1.0)];
    assert {} + {0} == {0};
    assert Greedy(cands[1..][1..], {0}, {0}) == [];
    assert Greedy(cands[1..], {0}, {0}) == [];
    assert Greedy(cands, {}, {}) == [cands[0]] + Greedy(cands[1..], {0}, {0}) == [cands[0]];
    assert Sum(cands[1..][1..]) == 1.0 && Sum(cands[1..]) == 2.0;
  }
}
