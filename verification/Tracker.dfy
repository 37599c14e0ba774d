/** The app's tracker (RaspberryPiClient.kt): each batch of detections is matched
    against the tracked targets, which are smoothed, created or expired. */
module Tracker {
  import opened Options
  import opened Boxes
  import opened Matching
  import Sorting

  const TRACKED_TARGET_TIMEOUT_MS := 600

  datatype Detection = Detection(bbox: Box, confidence: real, kind: string)

  /** A tracked target; its visual id is "T" followed by `id`. */
  datatype Track = Track(id: nat, bbox: Box, confidence: real, kind: string, lastSeen: int)

  /** The tracks in insertion order, and the next id. */
  datatype State = State(tracks: seq<Track>, next: nat)

  const RESET := State([], 1)

  // ----------------------------------------------------------- one batch

  /** The candidates of one track among the first `n` detections. */
  function Row(t: Track, incoming: seq<Detection>, n: nat): seq<Pair>
    requires n <= |incoming|
  {
    if n == 0 then []
    else
      var iou := IoU(t.bbox, incoming[n - 1].bbox);
      Row(t, incoming, n - 1) + (if iou >= IOU_MATCH_THRESHOLD then [Pair(t.id, n - 1, iou)] else [])
  }

  /** The candidates of the first `n` tracks. */
  function Candidates(tracks: seq<Track>, incoming: seq<Detection>, n: nat): seq<Pair>
    requires n <= |tracks|
  {
    if n == 0 then [] else Candidates(tracks, incoming, n - 1) + Row(tracks[n - 1], incoming, |incoming|)
  }

  function Chosen(tracks: seq<Track>, incoming: seq<Detection>): seq<Pair> {
    Greedy(Sorting.SortByDescending(Candidates(tracks, incoming, |tracks|), WEIGHT), {}, {})
  }

  function Smooth(t: Track, d: Detection, now: int): Track {
    Track(t.id, SmoothBox(t.bbox, d.bbox), 0.7 * d.confidence + 0.3 * t.confidence, d.kind, now)
  }

  /** What was chosen for a track, or for a detection. */
  function Partner(chosen: seq<Pair>, byTrack: bool, key: nat): Option<nat> {
    if chosen == [] then None
    else
      var last := chosen[|chosen| - 1];
      if Side(last, byTrack) == key then Some(Side(last, !byTrack)) else Partner(chosen[..|chosen| - 1], byTrack, key)
  }

  function Refresh(t: Track, chosen: seq<Pair>, incoming: seq<Detection>, now: int): Track {
    match Partner(chosen, true, t.id)
    case Some(d) => if d < |incoming| then Smooth(t, incoming[d], now) else t
    case None => t
  }

  function Refreshed(tracks: seq<Track>, chosen: seq<Pair>, incoming: seq<Detection>, now: int): (r: seq<Track>)
    ensures |r| == |tracks| && forall k :: 0 <= k < |r| ==> r[k].id == tracks[k].id
  {
    seq(|tracks|, k requires 0 <= k < |tracks| => Refresh(tracks[k], chosen, incoming, now))
  }

  function Dets(chosen: seq<Pair>): set<nat> {
    set p | p in chosen :: p.det
  }

  function Tracks(chosen: seq<Pair>): set<nat> {
    set p | p in chosen :: p.track
  }

  function Fresh(d: Detection, id: nat, now: int): Track {
    Track(id, d.bbox, d.confidence, d.kind, now)
  }

  /** New tracks for the unmatched ones among the first `n` detections. */
  function NewTracks(incoming: seq<Detection>, matched: set<nat>, next: nat, now: int, n: nat): seq<Track>
    requires n <= |incoming|
  {
    if n == 0 then []
    else
      var before := NewTracks(incoming, matched, next, now, n - 1);
      if n - 1 in matched then before else before + [Fresh(incoming[n - 1], next + |before|, now)]
  }

  predicate Expired(t: Track, now: int) {
    now - t.lastSeen > TRACKED_TARGET_TIMEOUT_MS
  }

  function Kept(tracks: seq<Track>, now: int): seq<Track> {
    if tracks == [] then []
    else
      var n := |tracks| - 1;
      Kept(tracks[..n], now) + (if Expired(tracks[n], now) then [] else [tracks[n]])
  }

  /** One batch, before expiry. */
  function Merged(s: State, now: int, incoming: seq<Detection>): seq<Track> {
    var chosen := Chosen(s.tracks, incoming);
    Refreshed(s.tracks, chosen, incoming, now) + NewTracks(incoming, Dets(chosen), s.next, now, |incoming|)
  }

  function Batch(s: State, now: int, incoming: seq<Detection>): State {
    State(Kept(Merged(s, now, incoming), now),
          s.next + |NewTracks(incoming, Dets(Chosen(s.tracks, incoming)), s.next, now, |incoming|)|)
  }

  // ------------------------------------------------------- the candidates

  ghost predicate Fits(p: Pair, t: Track, incoming: seq<Detection>) {
    && p.track == t.id && p.det < |incoming|
    && p.weight == IoU(t.bbox, incoming[p.det].bbox) >= IOU_MATCH_THRESHOLD
  }

  /** A pair of one of the tracks and a detection that overlap enough. */
  ghost predicate IsCandidate(p: Pair, tracks: seq<Track>, incoming: seq<Detection>) {
    exists k :: 0 <= k < |tracks| && Fits(p, tracks[k], incoming)
  }

  lemma {:induction false} RowIff(t: Track, incoming: seq<Detection>, n: nat, p: Pair)
    requires n <= |incoming|
    ensures p in Row(t, incoming, n) <==> p.det < n && Fits(p, t, incoming)
  {
    if n > 0 {
      RowIff(t, incoming, n - 1, p);
    }
  }

  lemma {:induction false} CandidatesIff(tracks: seq<Track>, incoming: seq<Detection>, n: nat, p: Pair)
    requires n <= |tracks|
    ensures p in Candidates(tracks, incoming, n) <==> exists k :: 0 <= k < n && Fits(p, tracks[k], incoming)
  {
    if n > 0 {
      var earlier, row := Candidates(tracks, incoming, n - 1), Row(tracks[n - 1], incoming, |incoming|);
      CandidatesIff(tracks, incoming, n - 1, p);
      RowIff(tracks[n - 1], incoming, |incoming|, p);
      assert p in earlier + row <==> p in earlier || p in row;
      if p in earlier {
        var k :| 0 <= k < n - 1 && Fits(p, tracks[k], incoming);
      } else if p in row {
        assert Fits(p, tracks[n - 1], incoming);
      } else {
        forall k | 0 <= k < n
          ensures !Fits(p, tracks[k], incoming)
        {
          assert k < n - 1 || k == n - 1;
        }
      }
    }
  }

  /** The candidates, sorted: exactly the pairs that overlap enough, best first. */
  lemma SortedCandidates(tracks: seq<Track>, incoming: seq<Detection>) returns (cands: seq<Pair>)
    ensures cands == Sorting.SortByDescending(Candidates(tracks, incoming, |tracks|), WEIGHT) && Best(cands)
    ensures forall p :: p in cands <==> IsCandidate(p, tracks, incoming)
    ensures Chosen(tracks, incoming) == Greedy(cands, {}, {})
  {
    var unsorted := Candidates(tracks, incoming, |tracks|);
    cands := Sorting.SortByDescending(unsorted, WEIGHT);
    Sorting.SortIsStable(unsorted, WEIGHT, 0.0);
    Sorting.SameMembers(unsorted, WEIGHT);
    assert forall i, j :: 0 <= i < j < |cands| ==> WEIGHT(cands[i]) >= WEIGHT(cands[j]);
    forall p
      ensures p in cands <==> IsCandidate(p, tracks, incoming)
    {
      CandidatesIff(tracks, incoming, |tracks|, p);
    }
  }

  /** The pairs chosen are one-to-one, and each overlaps by at least the threshold
      as the boxes were before any was smoothed. */
  lemma ChosenOneToOne(tracks: seq<Track>, incoming: seq<Detection>)
    ensures OneToOne(Chosen(tracks, incoming))
    ensures forall p :: p in Chosen(tracks, incoming) ==> IsCandidate(p, tracks, incoming)
  {
    var cands := SortedCandidates(tracks, incoming);
    GreedyOneToOne(cands, {}, {});
    var g := Chosen(tracks, incoming);
    forall p | p in g
      ensures IsCandidate(p, tracks, incoming)
    {
      var k :| 0 <= k < |g| && g[k] == p;
      assert g[k] in cands;
    }
  }

  /** A pair that overlaps enough and was not chosen lost its track or its detection
      to a chosen pair that overlaps no less. */
  lemma UnchosenIsBlocked(tracks: seq<Track>, incoming: seq<Detection>, p: Pair)
    requires IsCandidate(p, tracks, incoming) && p !in Chosen(tracks, incoming)
    ensures exists q :: q in Chosen(tracks, incoming) && Share(q, p) && q.weight >= p.weight
  {
    var cands := SortedCandidates(tracks, incoming);
    var i :| 0 <= i < |cands| && cands[i] == p;
    NoBlockingPair(cands, i);
  }

  /** The overlap chosen is at least half that of any one-to-one matching. */
  lemma MatchingIsHalfOptimal(tracks: seq<Track>, incoming: seq<Detection>, m: seq<Pair>)
    requires OneToOne(m) && forall k :: 0 <= k < |m| ==> IsCandidate(m[k], tracks, incoming)
    ensures Sum(m) <= 2.0 * Sum(Chosen(tracks, incoming))
  {
    var cands := SortedCandidates(tracks, incoming);
    forall k | 0 <= k < |cands|
      ensures cands[k].weight >= 0.0
    {
      assert cands[k] in cands;
    }
    HalfOptimal(m, cands);
  }

  // ------------------------------------------------- what a batch preserves

  /** Ids grow along the list, and every id is one given out already. */
  ghost predicate Ordered(s: State) {
    && (forall i, j :: 0 <= i < j < |s.tracks| ==> s.tracks[i].id < s.tracks[j].id)
    && (forall k :: 0 <= k < |s.tracks| ==> 1 <= s.tracks[k].id < s.next)
    && 1 <= s.next
  }

  lemma {:induction false} PartnerIff(chosen: seq<Pair>, byTrack: bool, key: nat)
    ensures Partner(chosen, byTrack, key) == None ==> forall k :: 0 <= k < |chosen| ==> Side(chosen[k], byTrack) != key
    ensures Partner(chosen, byTrack, key).Some? ==>
      exists k :: 0 <= k < |chosen| && Side(chosen[k], byTrack) == key
        && Side(chosen[k], !byTrack) == Partner(chosen, byTrack, key).value
  {
    if chosen != [] {
      PartnerIff(chosen[..|chosen| - 1], byTrack, key);
    }
  }

  /** A chosen pair makes its sides each other's partner. */
  lemma PartnerOfChosen(chosen: seq<Pair>, p: Pair, byTrack: bool)
    requires OneToOne(chosen) && p in chosen
    ensures Partner(chosen, byTrack, Side(p, byTrack)) == Some(Side(p, !byTrack))
  {
    var i :| 0 <= i < |chosen| && chosen[i] == p;
    PartnerIff(chosen, byTrack, Side(p, byTrack));
    var k :| 0 <= k < |chosen| && Side(chosen[k], byTrack) == Side(p, byTrack)
          && Side(chosen[k], !byTrack) == Partner(chosen, byTrack, Side(p, byTrack)).value;
    var lo, hi := Min(i, k), Max(i, k);
    assert lo < hi ==> !Share(chosen[lo], chosen[hi]);
  }

  /** Detections among the first `n` that have no partner. */
  function Unmatched(matched: set<nat>, n: nat): nat {
    if n == 0 then 0 else Unmatched(matched, n - 1) + (if n - 1 in matched then 0 else 1)
  }

  /** The new tracks have consecutive ids, one for each unmatched detection. */
  lemma {:induction false} NewTracksIds(incoming: seq<Detection>, matched: set<nat>, next: nat, now: int, n: nat)
    requires n <= |incoming|
    ensures var added := NewTracks(incoming, matched, next, now, n);
      && |added| == Unmatched(matched, n)
      && forall k :: 0 <= k < |added| ==> added[k].id == next + k && added[k].lastSeen == now
  {
    if n > 0 {
      NewTracksIds(incoming, matched, next, now, n - 1);
    }
  }

  /** An unmatched detection is held, as it came, by the track made for it. */
  lemma {:induction false} NewTrackOf(incoming: seq<Detection>, matched: set<nat>, next: nat, now: int, n: nat, d: nat)
    requires d < n <= |incoming| && d !in matched
    ensures var added, k := NewTracks(incoming, matched, next, now, n), Unmatched(matched, d);
      k < |added| && added[k] == Fresh(incoming[d], next + k, now)
  {
    NewTracksIds(incoming, matched, next, now, n - 1);
    if d < n - 1 {
      NewTrackOf(incoming, matched, next, now, n - 1, d);
    }
  }

  lemma {:induction false} KeptIff(tracks: seq<Track>, now: int)
    ensures forall t :: t in Kept(tracks, now) <==> t in tracks && !Expired(t, now)
  {
    if tracks != [] {
      var n := |tracks| - 1;
      KeptIff(tracks[..n], now);
      assert tracks == tracks[..n] + [tracks[n]];
    }
  }

  ghost predicate Ascending(tracks: seq<Track>) {
    forall i, j :: 0 <= i < j < |tracks| ==> tracks[i].id < tracks[j].id
  }

  lemma {:induction false} KeptAscending(tracks: seq<Track>, now: int)
    requires Ascending(tracks)
    ensures Ascending(Kept(tracks, now))
  {
    if tracks != [] {
      var n := |tracks| - 1;
      KeptAscending(tracks[..n], now);
      KeptIff(tracks[..n], now);
      var kept := Kept(tracks[..n], now);
      forall i | 0 <= i < |kept|
        ensures kept[i].id < tracks[n].id
      {
        assert kept[i] in tracks[..n];
      }
    }
  }

  /** The merged tracks: the old ones in place, then the new ones. */
  lemma MergedAt(s: State, now: int, incoming: seq<Detection>)
    requires Ordered(s)
    ensures var all := Merged(s, now, incoming);
      && |all| == |s.tracks| + Unmatched(Dets(Chosen(s.tracks, incoming)), |incoming|)
      && (forall k :: 0 <= k < |s.tracks| ==>
        all[k] == Refresh(s.tracks[k], Chosen(s.tracks, incoming), incoming, now) && all[k].id == s.tracks[k].id)
      && (forall k :: |s.tracks| <= k < |all| ==> all[k].id == s.next + k - |s.tracks| && all[k].lastSeen == now)
      && Ascending(all)
  {
    NewTracksIds(incoming, Dets(Chosen(s.tracks, incoming)), s.next, now, |incoming|);
  }

  ghost predicate HasId(s: State, id: nat) {
    exists t :: t in s.tracks && t.id == id
  }

  lemma MergedIds(s: State, now: int, incoming: seq<Detection>, k: nat)
    requires Ordered(s) && k < |Merged(s, now, incoming)|
    ensures var id := Merged(s, now, incoming)[k].id;
      1 <= id < Batch(s, now, incoming).next && (s.next <= id || HasId(s, id))
  {
    MergedAt(s, now, incoming);
    NewTracksIds(incoming, Dets(Chosen(s.tracks, incoming)), s.next, now, |incoming|);
    if k < |s.tracks| {
      assert s.tracks[k] in s.tracks;
    }
  }

  /** A batch keeps ids unique and ordered; each id it ends with was tracked before
      or is new. */
  lemma BatchKeepsIds(s: State, now: int, incoming: seq<Detection>)
    requires Ordered(s)
    ensures Ordered(Batch(s, now, incoming)) && s.next <= Batch(s, now, incoming).next
    ensures forall id :: HasId(Batch(s, now, incoming), id) ==> s.next <= id || HasId(s, id)
  {
    var all := Merged(s, now, incoming);
    var kept := Kept(all, now);
    MergedAt(s, now, incoming);
    KeptAscending(all, now);
    KeptIff(all, now);
    forall t | t in kept
      ensures 1 <= t.id < Batch(s, now, incoming).next && (s.next <= t.id || HasId(s, t.id))
    {
      var k :| 0 <= k < |all| && all[k] == t;
      MergedIds(s, now, incoming, k);
    }
    assert forall k :: 0 <= k < |kept| ==> kept[k] in kept;
  }

  /** The id of the track that holds a detection after a batch. */
  function Holder(s: State, incoming: seq<Detection>, d: nat): nat {
    var chosen := Chosen(s.tracks, incoming);
    match Partner(chosen, false, d)
    case Some(id) => id
    case None => s.next + Unmatched(Dets(chosen), d)
  }

  /** What it is for a track to hold a detection: smoothed toward it from the track
      matched to it, or else exactly as it came. */
  ghost predicate Holds(t: Track, s: State, now: int, incoming: seq<Detection>, d: nat)
    requires d < |incoming|
  {
    && t.id == Holder(s, incoming, d) && t.lastSeen == now
    && (t == Fresh(incoming[d], t.id, now) || exists u :: u in s.tracks && t == Smooth(u, incoming[d], now))
  }

  lemma DetsIff(chosen: seq<Pair>, d: nat)
    ensures d in Dets(chosen) <==> Partner(chosen, false, d).Some?
  {
    PartnerIff(chosen, false, d);
    if d in Dets(chosen) {
      var p :| p in chosen && p.det == d;
      var k :| 0 <= k < |chosen| && chosen[k] == p;
      assert Side(chosen[k], false) == d;
    }
  }

  /** A matched detection: its track, refreshed, is in place. */
  lemma MatchedHolds(s: State, now: int, incoming: seq<Detection>, d: nat) returns (k: nat)
    requires Ordered(s) && d < |incoming| && Partner(Chosen(s.tracks, incoming), false, d).Some?
    ensures k < |s.tracks| && Merged(s, now, incoming)[k] == Smooth(s.tracks[k], incoming[d], now)
    ensures s.tracks[k].id == Holder(s, incoming, d)
  {
    var chosen := Chosen(s.tracks, incoming);
    ChosenOneToOne(s.tracks, incoming);
    PartnerIff(chosen, false, d);
    var i :| 0 <= i < |chosen| && chosen[i].det == d && chosen[i].track == Partner(chosen, false, d).value;
    assert IsCandidate(chosen[i], s.tracks, incoming);
    k :| 0 <= k < |s.tracks| && Fits(chosen[i], s.tracks[k], incoming);
    PartnerOfChosen(chosen, chosen[i], true);
    MergedAt(s, now, incoming);
  }

  lemma NewHolds(s: State, now: int, incoming: seq<Detection>, d: nat) returns (k: nat)
    requires Ordered(s) && d < |incoming| && Partner(Chosen(s.tracks, incoming), false, d) == None
    ensures var all := Merged(s, now, incoming);
      k < |all| && all[k] == Fresh(incoming[d], Holder(s, incoming, d), now)
  {
    var matched := Dets(Chosen(s.tracks, incoming));
    DetsIff(Chosen(s.tracks, incoming), d);
    NewTrackOf(incoming, matched, s.next, now, |incoming|, d);
    k := |s.tracks| + Unmatched(matched, d);
  }

  lemma HeldInMerged(s: State, now: int, incoming: seq<Detection>, d: nat) returns (t: Track)
    requires Ordered(s) && d < |incoming|
    ensures t in Merged(s, now, incoming) && Holds(t, s, now, incoming, d)
  {
    var k;
    if Partner(Chosen(s.tracks, incoming), false, d).Some? {
      k := MatchedHolds(s, now, incoming, d);
      assert s.tracks[k] in s.tracks;
    } else {
      k := NewHolds(s, now, incoming, d);
    }
    t := Merged(s, now, incoming)[k];
  }

  /** Each incoming detection is held, after the batch, by exactly one track, which
      is stamped now. */
  lemma EachDetectionIsHeld(s: State, now: int, incoming: seq<Detection>, d: nat) returns (k: nat)
    requires Ordered(s) && d < |incoming|
    ensures var after := Batch(s, now, incoming).tracks;
      && k < |after| && Holds(after[k], s, now, incoming, d)
      && forall j :: 0 <= j < |after| && j != k ==> after[j].id != Holder(s, incoming, d)
  {
    var t := HeldInMerged(s, now, incoming, d);
    KeptIff(Merged(s, now, incoming), now);
    BatchKeepsIds(s, now, incoming);
    var after := Batch(s, now, incoming).tracks;
    assert t in after;
    k :| 0 <= k < |after| && after[k] == t;
  }

  lemma {:induction false} UnmatchedGrows(matched: set<nat>, c: nat, d: nat)
    requires c < d && c !in matched
    ensures Unmatched(matched, c) < Unmatched(matched, d)
  {
    if c < d - 1 {
      UnmatchedGrows(matched, c, d - 1);
    }
  }

  /** Different detections are held by different tracks. */
  lemma HoldersDiffer(s: State, incoming: seq<Detection>, c: nat, d: nat)
    requires Ordered(s) && c < d < |incoming|
    ensures Holder(s, incoming, c) != Holder(s, incoming, d)
  {
    var chosen := Chosen(s.tracks, incoming);
    ChosenOneToOne(s.tracks, incoming);
    DetsIff(chosen, c);
    DetsIff(chosen, d);
    if c !in Dets(chosen) && d !in Dets(chosen) {
      UnmatchedGrows(Dets(chosen), c, d);
    }
    if c in Dets(chosen) {
      var k := MatchedHolds(s, 0, incoming, c);
    }
    if d in Dets(chosen) {
      var k := MatchedHolds(s, 0, incoming, d);
    }
    if c in Dets(chosen) && d in Dets(chosen) {
      PartnersDiffer(chosen, c, d);
    }
  }

  lemma PartnersDiffer(chosen: seq<Pair>, c: nat, d: nat)
    requires OneToOne(chosen) && c in Dets(chosen) && d in Dets(chosen) && c != d
    ensures Partner(chosen, false, c).Some? && Partner(chosen, false, d).Some?
    ensures Partner(chosen, false, c) != Partner(chosen, false, d)
  {
    DetsIff(chosen, c);
    DetsIff(chosen, d);
    PartnerIff(chosen, false, c);
    PartnerIff(chosen, false, d);
    var i :| 0 <= i < |chosen| && chosen[i].det == c && Some(chosen[i].track) == Partner(chosen, false, c);
    var j :| 0 <= j < |chosen| && chosen[j].det == d && Some(chosen[j].track) == Partner(chosen, false, d);
    assert !Share(chosen[Min(i, j)], chosen[Max(i, j)]);
  }

  /** Every track a batch ends with either holds one of its detections or is an old
      one, unchanged and seen within the timeout. */
  lemma NothingElse(s: State, now: int, incoming: seq<Detection>, t: Track)
    requires Ordered(s) && t in Batch(s, now, incoming).tracks
    ensures (exists d :: 0 <= d < |incoming| && t.id == Holder(s, incoming, d)) || t in s.tracks
    ensures now - t.lastSeen <= TRACKED_TARGET_TIMEOUT_MS
  {
    var chosen := Chosen(s.tracks, incoming);
    var all := Merged(s, now, incoming);
    KeptIff(all, now);
    MergedAt(s, now, incoming);
    var k :| 0 <= k < |all| && all[k] == t;
    if k < |s.tracks| {
      if Partner(chosen, true, t.id).Some? {
        ChosenOneToOne(s.tracks, incoming);
        PartnerIff(chosen, true, t.id);
        var i :| 0 <= i < |chosen| && Side(chosen[i], true) == t.id;
        PartnerOfChosen(chosen, chosen[i], false);
        assert t.id == Holder(s, incoming, chosen[i].det);
      } else {
        assert t == s.tracks[k];
      }
    } else {
      var d := NthUnmatched(Dets(chosen), |incoming|, k - |s.tracks|);
      DetsIff(chosen, d);
      assert t.id == Holder(s, incoming, d);
    }
  }

  /** The unmatched detection of a given rank. */
  lemma {:induction false} NthUnmatched(matched: set<nat>, n: nat, rank: nat) returns (d: nat)
    requires rank < Unmatched(matched, n)
    ensures d < n && d !in matched && Unmatched(matched, d) == rank
  {
    if rank < Unmatched(matched, n - 1) {
      d := NthUnmatched(matched, n - 1, rank);
    } else {
      d := n - 1;
    }
  }

  // ------------------------------------------------------------ conservation

  lemma {:induction false} OneDetectionEach(chosen: seq<Pair>)
    requires OneToOne(chosen)
    ensures |Dets(chosen)| == |chosen|
  {
    if chosen != [] {
      var n := |chosen| - 1;
      OneDetectionEach(chosen[..n]);
      assert chosen == chosen[..n] + [chosen[n]];
      assert Dets(chosen) == Dets(chosen[..n]) + {chosen[n].det};
    }
  }

  lemma {:induction false} UnmatchedCount(matched: set<nat>, n: nat)
    ensures Unmatched(matched, n) + |set d | d in matched && d < n| == n
  {
    if n > 0 {
      UnmatchedCount(matched, n - 1);
      var below, upTo := set d | d in matched && d < n - 1, set d | d in matched && d < n;
      assert upTo == if n - 1 in matched then below + {n - 1} else below;
    }
  }

  /** Old tracks among the first `n` that no detection refreshed in time. */
  function Lapsed(tracks: seq<Track>, chosen: seq<Pair>, now: int, n: nat): nat
    requires n <= |tracks|
  {
    if n == 0 then 0
    else
      var t := tracks[n - 1];
      Lapsed(tracks, chosen, now, n - 1) + (if Partner(chosen, true, t.id) == None && Expired(t, now) then 1 else 0)
  }

  function Expiring(all: seq<Track>, now: int, n: nat): nat
    requires n <= |all|
  {
    if n == 0 then 0 else Expiring(all, now, n - 1) + (if Expired(all[n - 1], now) then 1 else 0)
  }

  lemma {:induction false} KeptSize(all: seq<Track>, now: int, n: nat)
    requires n <= |all|
    ensures |Kept(all[..n], now)| + Expiring(all, now, n) == n
  {
    if n > 0 {
      KeptSize(all, now, n - 1);
      assert all[..n][..n - 1] == all[..n - 1];
    }
  }

  /** Only an old track that was not refreshed can have expired. */
  lemma ExpiredAt(s: State, now: int, incoming: seq<Detection>, k: nat)
    requires Ordered(s) && k < |Merged(s, now, incoming)|
    ensures Expired(Merged(s, now, incoming)[k], now) <==> LapsedAt(s.tracks, Chosen(s.tracks, incoming), now, k)
  {
    var chosen := Chosen(s.tracks, incoming);
    MergedAt(s, now, incoming);
    ChosenOneToOne(s.tracks, incoming);
    if k < |s.tracks| && Partner(chosen, true, s.tracks[k].id).Some? {
      var t := s.tracks[k];
      PartnerIff(chosen, true, t.id);
      var i :| 0 <= i < |chosen| && chosen[i].track == t.id && chosen[i].det == Partner(chosen, true, t.id).value;
      assert IsCandidate(chosen[i], s.tracks, incoming);
    }
  }

  predicate LapsedAt(tracks: seq<Track>, chosen: seq<Pair>, now: int, k: nat) {
    k < |tracks| && Partner(chosen, true, tracks[k].id) == None && Expired(tracks[k], now)
  }

  lemma {:induction false} OnlyLapsedExpire(all: seq<Track>, tracks: seq<Track>, chosen: seq<Pair>, now: int, n: nat)
    requires |tracks| <= |all| && n <= |all|
    requires forall k :: 0 <= k < |all| ==> (Expired(all[k], now) <==> LapsedAt(tracks, chosen, now, k))
    ensures Expiring(all, now, n) == Lapsed(tracks, chosen, now, Min(n, |tracks|))
  {
    if n > 0 {
      OnlyLapsedExpire(all, tracks, chosen, now, n - 1);
      assert Expired(all[n - 1], now) <==> LapsedAt(tracks, chosen, now, n - 1);
    }
  }

  /** A batch ends with the old tracks and the incoming detections, less the pairs
      matched and the tracks that lapsed. */
  lemma BatchSize(s: State, now: int, incoming: seq<Detection>)
    requires Ordered(s)
    ensures var chosen := Chosen(s.tracks, incoming);
      |Batch(s, now, incoming).tracks| + |chosen| + Lapsed(s.tracks, chosen, now, |s.tracks|) == |s.tracks| + |incoming|
  {
    var all, chosen := Merged(s, now, incoming), Chosen(s.tracks, incoming);
    MergedAt(s, now, incoming);
    KeptSize(all, now, |all|);
    forall k: nat | k < |all|
      ensures Expired(all[k], now) <==> LapsedAt(s.tracks, chosen, now, k)
    {
      ExpiredAt(s, now, incoming, k);
    }
    OnlyLapsedExpire(all, s.tracks, chosen, now, |all|);
    assert all[..|all|] == all;
    ChosenOneToOne(s.tracks, incoming);
    OneDetectionEach(chosen);
    UnmatchedCount(Dets(chosen), |incoming|);
    forall d | d in Dets(chosen)
      ensures d < |incoming|
    {
      var p :| p in chosen && p.det == d;
      assert IsCandidate(p, s.tracks, incoming);
    }
    assert (set d | d in Dets(chosen) && d < |incoming|) == Dets(chosen);
  }

  // ---------------------------------------------------------------- over runs

  datatype Arrival = Arrival(now: int, incoming: seq<Detection>)

  /** The tracker after some more batches, at whatever times. */
  function Run(s: State, batches: seq<Arrival>): (after: State)
    requires Ordered(s)
    ensures Ordered(after)
    decreases |batches|
  {
    if batches == [] then s
    else
      BatchKeepsIds(s, batches[0].now, batches[0].incoming);
      Run(Batch(s, batches[0].now, batches[0].incoming), batches[1..])
  }

  /** Between resets a visual id is never given out twice: one that has been given
      out and is not tracked will not be tracked again. */
  lemma {:induction false} NeverReused(s: State, batches: seq<Arrival>, id: nat)
    requires Ordered(s) && id < s.next && !HasId(s, id)
    ensures !HasId(Run(s, batches), id)
    decreases |batches|
  {
    if batches != [] {
      BatchKeepsIds(s, batches[0].now, batches[0].incoming);
      NeverReused(Batch(s, batches[0].now, batches[0].incoming), batches[1..], id);
    }
  }

  ghost predicate AllInFrame(s: State) {
    forall t :: t in s.tracks ==> InFrame(t.bbox, 1920, 1080)
  }

  lemma BatchInFrame(s: State, now: int, incoming: seq<Detection>)
    requires Ordered(s) && AllInFrame(s)
    requires forall d :: d in incoming ==> InFrame(d.bbox, 1920, 1080)
    ensures AllInFrame(Batch(s, now, incoming))
  {
    var all := Merged(s, now, incoming);
    KeptIff(all, now);
    forall t | t in Batch(s, now, incoming).tracks
      ensures InFrame(t.bbox, 1920, 1080)
    {
      NewInFrame(incoming, Dets(Chosen(s.tracks, incoming)), s.next, now, |incoming|);
      var k :| 0 <= k < |all| && all[k] == t;
      if k < |s.tracks| {
        RefreshInFrame(s.tracks[k], Chosen(s.tracks, incoming), incoming, now);
      }
    }
  }

  lemma RefreshInFrame(t: Track, chosen: seq<Pair>, incoming: seq<Detection>, now: int)
    requires InFrame(t.bbox, 1920, 1080) && forall d :: d in incoming ==> InFrame(d.bbox, 1920, 1080)
    ensures InFrame(Refresh(t, chosen, incoming, now).bbox, 1920, 1080)
  {
    var partner := Partner(chosen, true, t.id);
    if partner.Some? && partner.value < |incoming| {
      SmoothInFrame(t.bbox, incoming[partner.value].bbox, 1920, 1080);
    }
  }

  lemma {:induction false} NewInFrame(incoming: seq<Detection>, matched: set<nat>, next: nat, now: int, n: nat)
    requires n <= |incoming| && forall d :: d in incoming ==> InFrame(d.bbox, 1920, 1080)
    ensures forall t :: t in NewTracks(incoming, matched, next, now, n) ==> InFrame(t.bbox, 1920, 1080)
  {
    if n > 0 {
      NewInFrame(incoming, matched, next, now, n - 1);
    }
  }

  /** Fed only boxes inside the 1920x1080 video, the tracker keeps its tracks inside
      it, so no overlap it ever computes leaves 32 bits. */
  lemma {:induction false} RunInFrame(s: State, batches: seq<Arrival>)
    requires Ordered(s) && AllInFrame(s)
    requires forall k, d :: 0 <= k < |batches| && d in batches[k].incoming ==> InFrame(d.bbox, 1920, 1080)
    ensures AllInFrame(Run(s, batches))
    decreases |batches|
  {
    if batches != [] {
      var first := batches[0];
      BatchKeepsIds(s, first.now, first.incoming);
      BatchInFrame(s, first.now, first.incoming);
      RunInFrame(Batch(s, first.now, first.incoming), batches[1..]);
    }
  }

  /** A refreshed track keeps its id and takes the detection's kind; each coordinate
      of its box lies between the tracked and the detected one, and its confidence
      divides the way to the detected one seven to three. */
  lemma SmoothedBetween(u: Track, d: Detection, now: int)
    ensures var b := Smooth(u, d, now).bbox;
      && Between(u.bbox.x, b.x, d.bbox.x) && Between(u.bbox.y, b.y, d.bbox.y)
      && Between(u.bbox.width, b.width, d.bbox.width) && Between(u.bbox.height, b.height, d.bbox.height)
    ensures var t := Smooth(u, d, now);
      && t.id == u.id && t.kind == d.kind && t.lastSeen == now
      && 3.0 * (t.confidence - u.confidence) == 7.0 * (d.confidence - t.confidence)
  {
    EmaBetween(u.bbox.x, d.bbox.x);
    EmaBetween(u.bbox.y, d.bbox.y);
    EmaBetween(u.bbox.width, d.bbox.width);
    EmaBetween(u.bbox.height, d.bbox.height);
  }

  // ------------------------------------------------------ the tracker itself

  lemma GreedyStep(chosen: seq<Pair>, cands: seq<Pair>, i: nat, tracks: set<nat>, dets: set<nat>)
    requires i < |cands|
    ensures var p := cands[i];
      chosen + Greedy(cands[i..], tracks, dets) ==
        if p.track in tracks || p.det in dets then chosen + Greedy(cands[i + 1..], tracks, dets)
        else chosen + [p] + Greedy(cands[i + 1..], tracks + {p.track}, dets + {p.det})
  {
    assert cands[i..][0] == cands[i] && cands[i..][1..] == cands[i + 1..];
  }

  lemma ClaimOne(chosen: seq<Pair>, p: Pair)
    ensures Tracks(chosen + [p]) == Tracks(chosen) + {p.track} && Dets(chosen + [p]) == Dets(chosen) + {p.det}
  {
    assert forall q :: q in chosen + [p] <==> q in chosen || q == p;
  }

  /** Claiming one more pair changes one track, which was untouched before. */
  lemma RefreshOne(tracks: seq<Track>, chosen: seq<Pair>, incoming: seq<Detection>, now: int, p: Pair, at: nat)
    requires Ascending(tracks) && at < |tracks| && tracks[at].id == p.track
    requires p.track !in Tracks(chosen) && p.det < |incoming|
    ensures var r := Refreshed(tracks, chosen, incoming, now);
      && r[at] == tracks[at]
      && Refreshed(tracks, chosen + [p], incoming, now) == r[at := Smooth(r[at], incoming[p.det], now)]
  {
    assert (chosen + [p])[..|chosen|] == chosen;
    PartnerIff(chosen, true, p.track);
    assert forall k :: 0 <= k < |chosen| ==> chosen[k].track in Tracks(chosen);
    assert forall k :: 0 <= k < |tracks| && k != at ==> tracks[k].id != p.track;
  }

  class TargetTracker {
    var trackedTargets: seq<Track>
    var nextVisualIdCounter: nat

    ghost function Abs(): State
      reads this
    {
      State(trackedTargets, nextVisualIdCounter)
    }

    constructor ()
      ensures Abs() == RESET
    {
      trackedTargets, nextVisualIdCounter := [], 1;
    }

    /** `disconnect` starts the next session afresh. */
    method Reset()
      modifies this
      ensures Abs() == RESET
    {
      trackedTargets, nextVisualIdCounter := [], 1;
    }

    /** Every pair of a track and a detection that overlap enough. */
    method CollectCandidates(incoming: seq<Detection>) returns (candidates: seq<Pair>)
      ensures candidates == Candidates(trackedTargets, incoming, |trackedTargets|)
    {
      candidates := [];
      for t := 0 to |trackedTargets|
        invariant candidates == Candidates(trackedTargets, incoming, t)
      {
        ghost var before := candidates;
        for idx := 0 to |incoming|
          invariant candidates == before + Row(trackedTargets[t], incoming, idx)
        {
          var iou := IoU(trackedTargets[t].bbox, incoming[idx].bbox);
          if iou >= IOU_MATCH_THRESHOLD {
            candidates := candidates + [Pair(trackedTargets[t].id, idx, iou)];
          }
        }
      }
    }

    /** The place of the track with an id. */
    method Find(id: nat) returns (at: Option<nat>)
      ensures at.Some? ==> at.value < |trackedTargets| && trackedTargets[at.value].id == id
      ensures at.None? ==> forall k :: 0 <= k < |trackedTargets| ==> trackedTargets[k].id != id
    {
      for k := 0 to |trackedTargets|
        invariant forall j :: 0 <= j < k ==> trackedTargets[j].id != id
      {
        if trackedTargets[k].id == id {
          return Some(k);
        }
      }
      at := None;
    }

    /** `trackedTargets[id] = track`: replaces a track with that id, else appends. */
    method Put(t: Track)
      modifies this`trackedTargets
      ensures (forall k :: 0 <= k < |old(trackedTargets)| ==> old(trackedTargets)[k].id != t.id) ==>
        trackedTargets == old(trackedTargets) + [t]
      ensures (exists k :: 0 <= k < |old(trackedTargets)| && old(trackedTargets)[k].id == t.id) ==>
        exists k :: 0 <= k < |old(trackedTargets)| && old(trackedTargets)[k].id == t.id
          && trackedTargets == old(trackedTargets)[k := t]
    {
      var at := Find(t.id);
      if at.Some? {
        trackedTargets := trackedTargets[at.value := t];
      } else {
        trackedTargets := trackedTargets + [t];
      }
    }

    /** Smooth the track of a candidate just claimed. */
    method Claim(p: Pair, incoming: seq<Detection>, now: int, ghost before: seq<Track>, ghost chosen: seq<Pair>)
      requires Ascending(before) && trackedTargets == Refreshed(before, chosen, incoming, now)
      requires IsCandidate(p, before, incoming) && p.track !in Tracks(chosen)
      modifies this`trackedTargets
      ensures trackedTargets == Refreshed(before, chosen + [p], incoming, now)
    {
      var at := Find(p.track);
      assert at.Some?;  // a candidate's track is there
      RefreshOne(before, chosen, incoming, now, p, at.value);
      trackedTargets := trackedTargets[at.value := Smooth(trackedTargets[at.value], incoming[p.det], now)];
    }

    /** Claim candidates best first, smoothing each claimed track in place. */
    method Assign(candidates: seq<Pair>, incoming: seq<Detection>, now: int) returns (claimedDets: set<nat>)
      requires Ascending(trackedTargets)
      requires forall p :: p in candidates ==> IsCandidate(p, trackedTargets, incoming)
      modifies this`trackedTargets
      ensures var chosen := Greedy(candidates, {}, {});
        trackedTargets == Refreshed(old(trackedTargets), chosen, incoming, now) && claimedDets == Dets(chosen)
    {
      var claimedTracks: set<nat> := {};
      claimedDets := {};
      ghost var chosen: seq<Pair> := [];
      ghost var before := trackedTargets;
      assert trackedTargets == Refreshed(before, chosen, incoming, now);
      assert candidates[0..] == candidates;
      for i := 0 to |candidates|
        invariant chosen + Greedy(candidates[i..], claimedTracks, claimedDets) == Greedy(candidates, {}, {})
        invariant claimedTracks == Tracks(chosen) && claimedDets == Dets(chosen)
        invariant trackedTargets == Refreshed(before, chosen, incoming, now)
      {
        var p := candidates[i];
        GreedyStep(chosen, candidates, i, claimedTracks, claimedDets);
        if p.track !in claimedTracks && p.det !in claimedDets {
          Claim(p, incoming, now, before, chosen);
          claimedTracks := claimedTracks + {p.track};
          claimedDets := claimedDets + {p.det};
          ClaimOne(chosen, p);
          chosen := chosen + [p];
        }
      }
      assert candidates[|candidates|..] == [];
      assert chosen + [] == chosen;
    }

    /** Unmatched detections become new tracks. */
    method AddUnmatched(incoming: seq<Detection>, claimedDets: set<nat>, now: int)
      requires Ordered(Abs())
      modifies this
      ensures var added := NewTracks(incoming, claimedDets, old(nextVisualIdCounter), now, |incoming|);
        trackedTargets == old(trackedTargets) + added && nextVisualIdCounter == old(nextVisualIdCounter) + |added|
    {
      ghost var before, next := trackedTargets, nextVisualIdCounter;
      for idx := 0 to |incoming|
        invariant trackedTargets == before + NewTracks(incoming, claimedDets, next, now, idx)
        invariant nextVisualIdCounter == next + |NewTracks(incoming, claimedDets, next, now, idx)|
      {
        NewTracksIds(incoming, claimedDets, next, now, idx);
        if idx !in claimedDets {
          var id := nextVisualIdCounter;
          nextVisualIdCounter := nextVisualIdCounter + 1;
          Put(Fresh(incoming[idx], id, now));
        }
      }
    }

    method DropExpired(now: int)
      modifies this`trackedTargets
      ensures trackedTargets == Kept(old(trackedTargets), now)
    {
      var kept := [];
      for k := 0 to |trackedTargets|
        invariant trackedTargets == old(trackedTargets)
        invariant kept == Kept(trackedTargets[..k], now)
      {
        assert trackedTargets[..k + 1][..k] == trackedTargets[..k];
        if !Expired(trackedTargets[k], now) {
          kept := kept + [trackedTargets[k]];
        }
      }
      assert trackedTargets[..|trackedTargets|] == trackedTargets;
      trackedTargets := kept;
    }

    /** `matchAndSmooth`, with the snapshot it returns. */
    method MatchAndSmooth(incoming: seq<Detection>, now: int) returns (snapshot: seq<Track>)
      requires Ordered(Abs())
      modifies this
      ensures Abs() == Batch(old(Abs()), now, incoming) && Ordered(Abs())
      ensures snapshot == trackedTargets
    {
      ghost var was := Abs();
      BatchKeepsIds(was, now, incoming);
      ghost var sorted := SortedCandidates(trackedTargets, incoming);
      var candidates := CollectCandidates(incoming);
      candidates := Sorting.SortByDescending(candidates, WEIGHT);
      assert candidates == sorted;
      var claimedDets := Assign(candidates, incoming, now);
      assert trackedTargets == Refreshed(was.tracks, Chosen(was.tracks, incoming), incoming, now);
      AddUnmatched(incoming, claimedDets, now);
      assert trackedTargets == Merged(was, now, incoming);
      DropExpired(now);
      assert Abs() == Batch(was, now, incoming);
      snapshot := trackedTargets;
    }
  }

  /** The pacer's drain: of a burst, only the batch that came last is tracked. */
  method DrainLatest(first: seq<Detection>, queued: seq<seq<Detection>>) returns (latest: seq<Detection>, dropped: nat)
    ensures latest == ([first] + queued)[|queued|] && dropped == |queued|
  {
    latest, dropped := first, 0;
    var rest := queued;
    while rest != []
      invariant dropped + |rest| == |queued| && rest == queued[dropped..]
      invariant latest == ([first] + queued)[dropped]
    {
      latest, rest := rest[0], rest[1..];
      dropped := dropped + 1;
    }
  }
}
