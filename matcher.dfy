/** simple_rssi_matching: score every room by how close the scanned RSSIs
    are to the room's recorded mean RSSI per access point, and keep the
    first room with the best mean score. */
module Matcher {
  import opened Wrappers
  import opened Frame
  import opened Zones

  // ---------------------------------------------------------------------
  // The scan as a dictionary

  /** The scanned MACs, lower-cased, each with its RSSI; a MAC scanned twice
      keeps its last RSSI. */
  function Detected(aps: seq<Observation>): map<string, int>
  {
    if |aps| == 0 then map[]
    else Detected(aps[..|aps| - 1])[Lower(aps[|aps| - 1].mac) := aps[|aps| - 1].rssi]
  }

  /** A MAC is detected exactly when some scanned MAC lower-cases to it. */
  lemma {:induction false} DetectedKeys(aps: seq<Observation>, m: string)
    ensures m in Detected(aps) <==> exists j :: 0 <= j < |aps| && Lower(aps[j].mac) == m
  {
    if |aps| > 0 {
      var p := aps[..|aps| - 1];
      DetectedKeys(p, m);
      if m in Detected(p) {
        var j :| 0 <= j < |p| && Lower(p[j].mac) == m;
        assert aps[j] == p[j];
      }
      if exists j :: 0 <= j < |aps| && Lower(aps[j].mac) == m {
        var j :| 0 <= j < |aps| && Lower(aps[j].mac) == m;
        if j < |p| {
          assert p[j] == aps[j];
        }
      }
    }
  }

  /** A detected MAC carries the RSSI of the last scan entry that
      lower-cases to it. */
  lemma {:induction false} DetectedLast(aps: seq<Observation>, m: string)
    requires m in Detected(aps)
    ensures exists j :: (0 <= j < |aps| && Lower(aps[j].mac) == m
      && Detected(aps)[m] == aps[j].rssi
      && forall j' :: j < j' < |aps| ==> Lower(aps[j'].mac) != m)
  {
    var n := |aps| - 1;
    var p := aps[..n];
    if Lower(aps[n].mac) != m {
      DetectedLast(p, m);
      var j :| 0 <= j < |p| && Lower(p[j].mac) == m && Detected(p)[m] == p[j].rssi
               && forall j' :: j < j' < |p| ==> Lower(p[j'].mac) != m;
      assert aps[j] == p[j];
      forall j' | j < j' < |aps| ensures Lower(aps[j'].mac) != m {
        if j' < n {
          assert aps[j'] == p[j'];
        }
      }
    }
  }

  /** Both halves of the scan dictionary's meaning: its keys are the
      lower-cased scanned MACs, and each carries its last RSSI. */
  lemma DetectedSpec(aps: seq<Observation>, m: string)
    ensures m in Detected(aps) <==> exists j :: 0 <= j < |aps| && Lower(aps[j].mac) == m
    ensures m in Detected(aps) ==> exists j :: (0 <= j < |aps| && Lower(aps[j].mac) == m
      && Detected(aps)[m] == aps[j].rssi
      && forall j' :: j < j' < |aps| ==> Lower(aps[j'].mac) != m)
  {
    DetectedKeys(aps, m);
    if m in Detected(aps) {
      DetectedLast(aps, m);
    }
  }

  // ---------------------------------------------------------------------
  // Scoring one room

  function Abs(x: real): real
  {
    if x < 0.0 then -x else x
  }

  function Min(x: real, y: real): real
  {
    if x <= y then x else y
  }

  /** The score one access point contributes: 100 less the distance between
      the scanned RSSI and the room's mean recorded RSSI for it. */
  function Term(scanned: int, recorded: seq<int>): (t: real)
    requires |recorded| > 0
    ensures t <= 100.0
    ensures t == 100.0 <==> scanned as real == MeanInt(recorded)
  {
    100.0 - Abs(scanned as real - MeanInt(recorded))
  }

  /** Every MAC listed for a zone has a non-empty RSSI list. */
  predicate Scorable(z: Zone)
  {
    forall i :: 0 <= i < |z.macs| ==> z.macs[i] in z.rssiByMac && |z.rssiByMac[z.macs[i]]| > 0
  }

  /** The running score and match count of a room. */
  datatype Tally = Tally(total: real, matches: nat)

  /** The tally over the zone's first n MACs. */
  function ZoneTally(z: Zone, det: map<string, int>, n: nat): Tally
    requires Scorable(z) && n <= |z.macs|
  {
    if n == 0 then Tally(0.0, 0)
    else
      var t := ZoneTally(z, det, n - 1);
      var m := z.macs[n - 1];
      if m in det then Tally(t.total + Term(det[m], z.rssiByMac[m]), t.matches + 1) else t
  }

  /** The indices of the zone's first n MACs that were scanned. */
  function ScannedIndices(z: Zone, det: map<string, int>, n: nat): set<nat>
  {
    set i: nat | i < n && i < |z.macs| && z.macs[i] in det
  }

  /** A room's match count is the number of its MACs that were scanned, and
      its total is at most 100 per match. */
  lemma {:induction false} ZoneTallySpec(z: Zone, det: map<string, int>, n: nat)
    requires Scorable(z) && n <= |z.macs|
    ensures ZoneTally(z, det, n).matches == |ScannedIndices(z, det, n)|
    ensures ZoneTally(z, det, n).total <= 100.0 * ZoneTally(z, det, n).matches as real
  {
    if n > 0 {
      ZoneTallySpec(z, det, n - 1);
      var s, s' := ScannedIndices(z, det, n - 1), ScannedIndices(z, det, n);
      if z.macs[n - 1] in det {
        assert s' == s + {n - 1};
        assert n - 1 !in s;
      } else {
        assert s' == s;
      }
    }
  }

  /** A room matches at all exactly when one of its MACs was scanned. */
  lemma {:induction false} ZoneTallyMatches(z: Zone, det: map<string, int>, n: nat)
    requires Scorable(z) && n <= |z.macs|
    ensures ZoneTally(z, det, n).matches > 0 <==> exists i :: 0 <= i < n && z.macs[i] in det
  {
    if n > 0 {
      ZoneTallyMatches(z, det, n - 1);
    }
  }

  /** A scan no farther from a room's recorded means on any of the room's
      MACs, with the same MACs scanned, never lowers that room's total and
      keeps its match count. */
  lemma {:induction false} ZoneTallyMonotone(z: Zone, det: map<string, int>, det': map<string, int>, n: nat)
    requires Scorable(z) && n <= |z.macs|
    requires det'.Keys == det.Keys
    requires forall i :: 0 <= i < |z.macs| && z.macs[i] in det ==>
      Abs(det'[z.macs[i]] as real - MeanInt(z.rssiByMac[z.macs[i]]))
      <= Abs(det[z.macs[i]] as real - MeanInt(z.rssiByMac[z.macs[i]]))
    ensures ZoneTally(z, det', n).matches == ZoneTally(z, det, n).matches
    ensures ZoneTally(z, det', n).total >= ZoneTally(z, det, n).total
  {
    if n > 0 {
      ZoneTallyMonotone(z, det, det', n - 1);
    }
  }

  /** The same for the room's mean score: bringing the scanned RSSIs of the
      room's MACs closer to its recorded means never lowers its score. */
  lemma ScoreMonotone(z: Zone, det: map<string, int>, det': map<string, int>)
    requires Scorable(z)
    requires det'.Keys == det.Keys
    requires forall i :: 0 <= i < |z.macs| && z.macs[i] in det ==>
      Abs(det'[z.macs[i]] as real - MeanInt(z.rssiByMac[z.macs[i]]))
      <= Abs(det[z.macs[i]] as real - MeanInt(z.rssiByMac[z.macs[i]]))
    requires ZoneTally(z, det, |z.macs|).matches > 0
    ensures ZoneTally(z, det', |z.macs|).matches == ZoneTally(z, det, |z.macs|).matches
    ensures Average(ZoneTally(z, det', |z.macs|)) >= Average(ZoneTally(z, det, |z.macs|))
  {
    var t, t' := ZoneTally(z, det, |z.macs|), ZoneTally(z, det', |z.macs|);
    ZoneTallyMonotone(z, det, det', |z.macs|);
    DivideMonotone(t.total, t'.total, t.matches as real);
  }

  lemma DivideMonotone(x: real, y: real, d: real)
    requires d > 0.0 && x <= y
    ensures x / d <= y / d
  {
  }

  /** The mean score of a room that matched. */
  function Average(t: Tally): real
    requires t.matches > 0
  {
    t.total / t.matches as real
  }

  // ---------------------------------------------------------------------
  // Choosing the room

  /** What simple_rssi_matching returns for the winning room. */
  datatype RoomMatch = RoomMatch(room: string, floor: string, lat: real, lon: real,
                                 location: string, confidence: real, matchedAps: nat)

  /** The best room so far with its mean score. */
  datatype Candidate = Candidate(score: real, best: RoomMatch)

  /** Every listed room has a scorable zone with at least one position. */
  predicate Ranked(g: Grouping)
  {
    forall p :: 0 <= p < |g.order| ==>
      g.order[p] in g.zones && Scorable(g.zones[g.order[p]])
      && |g.zones[g.order[p]].lats| > 0 && |g.zones[g.order[p]].lons| > 0
  }

  lemma GroupingRanked(g: Grouping)
    requires GroupingOk(g)
    ensures Ranked(g)
  {
    forall p | 0 <= p < |g.order|
      ensures g.order[p] in g.zones && ZoneOk(g.zones[g.order[p]])
    {
      assert g.order[p] in g.order;
    }
  }

  /** The tally of room p of the grouping. */
  function RoomTally(g: Grouping, det: map<string, int>, p: nat): Tally
    requires Ranked(g) && p < |g.order|
  {
    var z := g.zones[g.order[p]];
    ZoneTally(z, det, |z.macs|)
  }

  /** The candidate room p of the grouping makes when it matched. */
  function CandidateAt(g: Grouping, det: map<string, int>, p: nat): Candidate
    requires Ranked(g) && p < |g.order| && RoomTally(g, det, p).matches > 0
  {
    var k := g.order[p];
    var z := g.zones[k];
    var t := RoomTally(g, det, p);
    var score := Average(t);
    Candidate(score, RoomMatch(k.room, k.floor, Mean(z.lats), Mean(z.lons), z.location,
                               Min(score / 100.0, 1.0), t.matches))
  }

  /** The leader after the first n rooms; None while no room matched
      (the best score is still minus infinity). A room replaces the leader
      only with a strictly greater mean score. */
  function Leader(g: Grouping, det: map<string, int>, n: nat): Option<Candidate>
    requires Ranked(g) && n <= |g.order|
  {
    if n == 0 then None
    else
      var prev := Leader(g, det, n - 1);
      var t := RoomTally(g, det, n - 1);
      if t.matches > 0 && (prev.None? || Average(t) > prev.value.score)
      then Some(CandidateAt(g, det, n - 1))
      else prev
  }

  /** simple_rssi_matching over the loaded samples and a scan. */
  function Matching(fps: seq<Sample>, aps: seq<Observation>): Option<RoomMatch>
  {
    GroupOk(fps);
    GroupingRanked(Group(fps));
    var g := Group(fps);
    var leader := Leader(g, Detected(aps), |g.order|);
    if leader.None? then None else Some(leader.value.best)
  }

  /** simple_rssi_matching: group the samples by room, build the scan
      dictionary, then pick the room. */
  method SimpleRssiMatching(fps: seq<Sample>, aps: seq<Observation>) returns (bestMatch: Option<RoomMatch>)
    ensures bestMatch == Matching(fps, aps)
  {
    var g := GroupSamples(fps);
    GroupingRanked(g);
    var det := DetectMacs(aps);
    bestMatch := PickRoom(g, det);
  }

  /** The room loop: keep the first room with the best mean score. */
  method PickRoom(g: Grouping, det: map<string, int>) returns (bestMatch: Option<RoomMatch>)
    requires Ranked(g)
    ensures Leader(g, det, |g.order|).None? ==> bestMatch.None?
    ensures Leader(g, det, |g.order|).Some? ==> bestMatch == Some(Leader(g, det, |g.order|).value.best)
  {
    bestMatch := None;
    var bestScore: Option<real> := None;
    var r := 0;
    while r < |g.order|
      invariant 0 <= r <= |g.order|
      invariant Tracks(Leader(g, det, r), bestMatch, bestScore)
    {
      var k := g.order[r];
      var z := g.zones[k];
      var score, matches := ScoreRoom(z, det);
      LeaderStep(g, det, r, score, matches);
      if matches > 0 {
        score := score / matches as real;
        if bestScore.None? || score > bestScore.value {
          bestScore := Some(score);
          bestMatch := Some(RoomMatch(k.room, k.floor, Mean(z.lats), Mean(z.lons), z.location,
                                      Min(score / 100.0, 1.0), matches));
        }
      }
      r := r + 1;
    }
  }

  /** One step of the room loop, given the room's tally. */
  lemma LeaderStep(g: Grouping, det: map<string, int>, r: nat, total: real, matches: nat)
    requires Ranked(g) && r < |g.order|
    requires Tally(total, matches) == RoomTally(g, det, r)
    ensures matches == 0 ==> Leader(g, det, r + 1) == Leader(g, det, r)
    ensures matches > 0 ==>
      var k, z, score := g.order[r], g.zones[g.order[r]], total / matches as real;
      var c := Candidate(score, RoomMatch(k.room, k.floor, Mean(z.lats), Mean(z.lons), z.location,
                                          Min(score / 100.0, 1.0), matches));
      if Leader(g, det, r).None? || score > Leader(g, det, r).value.score
      then Leader(g, det, r + 1) == Some(c)
      else Leader(g, det, r + 1) == Leader(g, det, r)
  {
  }

  /** The two variables best_match and best_score hold the leader, or None
      and minus infinity before any room matched. */
  predicate Tracks(leader: Option<Candidate>, bestMatch: Option<RoomMatch>, bestScore: Option<real>)
  {
    match leader
    case None => bestMatch.None? && bestScore.None?
    case Some(c) => bestMatch == Some(c.best) && bestScore == Some(c.score)
  }

  /** The comprehension building the scan dictionary. */
  method DetectMacs(aps: seq<Observation>) returns (det: map<string, int>)
    ensures det == Detected(aps)
  {
    det := map[];
    var i := 0;
    while i < |aps|
      invariant 0 <= i <= |aps|
      invariant det == Detected(aps[..i])
    {
      assert aps[..i + 1][..i] == aps[..i];
      det := det[Lower(aps[i].mac) := aps[i].rssi];
      i := i + 1;
    }
    assert aps[..|aps|] == aps;
  }

  /** The inner loop: the total score and match count of one room. */
  method ScoreRoom(z: Zone, det: map<string, int>) returns (score: real, matches: nat)
    requires Scorable(z)
    ensures Tally(score, matches) == ZoneTally(z, det, |z.macs|)
  {
    score, matches := 0.0, 0;
    var j := 0;
    while j < |z.macs|
      invariant 0 <= j <= |z.macs|
      invariant Tally(score, matches) == ZoneTally(z, det, j)
    {
      var mac := z.macs[j];
      if mac in det {
        var rssiList := z.rssiByMac[mac];
        var avgRssi := SumInt(rssiList) as real / |rssiList| as real;
        var diff := Abs(det[mac] as real - avgRssi);
        score := score + (100.0 - diff);
        matches := matches + 1;
      }
      j := j + 1;
    }
  }

  // ---------------------------------------------------------------------
  // What the choice guarantees

  /** The mean score of room p, which matched. */
  function ScoreAt(g: Grouping, det: map<string, int>, p: nat): real
    requires Ranked(g) && p < |g.order| && RoomTally(g, det, p).matches > 0
  {
    Average(RoomTally(g, det, p))
  }

  /** Room p matched, beats every earlier matching room strictly and is not
      beaten by any later one among the first n. */
  predicate FirstBest(g: Grouping, det: map<string, int>, n: nat, p: nat)
    requires Ranked(g) && n <= |g.order|
  {
    && p < n && RoomTally(g, det, p).matches > 0
    && (forall q :: 0 <= q < p && RoomTally(g, det, q).matches > 0 ==>
          ScoreAt(g, det, q) < ScoreAt(g, det, p))
    && (forall q :: p < q < n && RoomTally(g, det, q).matches > 0 ==>
          ScoreAt(g, det, q) <= ScoreAt(g, det, p))
  }

  /** The leader after n rooms is None exactly when none of them matched. */
  lemma {:induction false} LeaderNone(g: Grouping, det: map<string, int>, n: nat)
    requires Ranked(g) && n <= |g.order|
    ensures Leader(g, det, n).None? <==> forall q :: 0 <= q < n ==> RoomTally(g, det, q).matches == 0
  {
    if n > 0 {
      LeaderNone(g, det, n - 1);
    }
  }

  /** A room that beats the first best of the earlier rooms is the first
      best once it is included. */
  lemma FirstBestOvertaken(g: Grouping, det: map<string, int>, n: nat, p: nat)
    requires Ranked(g) && 0 < n <= |g.order| && FirstBest(g, det, n - 1, p)
    requires RoomTally(g, det, n - 1).matches > 0 && ScoreAt(g, det, n - 1) > ScoreAt(g, det, p)
    ensures FirstBest(g, det, n, n - 1)
  {
  }

  /** A room that does not beat the first best leaves it in place. */
  lemma FirstBestKept(g: Grouping, det: map<string, int>, n: nat, p: nat)
    requires Ranked(g) && 0 < n <= |g.order| && FirstBest(g, det, n - 1, p)
    requires RoomTally(g, det, n - 1).matches > 0 ==> ScoreAt(g, det, n - 1) <= ScoreAt(g, det, p)
    ensures FirstBest(g, det, n, p)
  {
  }

  /** A leader is the candidate of the first best room. */
  lemma {:induction false} LeaderIsFirstBest(g: Grouping, det: map<string, int>, n: nat)
    requires Ranked(g) && n <= |g.order|
    requires Leader(g, det, n).Some?
    ensures exists p: nat :: FirstBest(g, det, n, p) && Leader(g, det, n) == Some(CandidateAt(g, det, p))
  {
    var prev := Leader(g, det, n - 1);
    var t := RoomTally(g, det, n - 1);
    if prev.None? {
      LeaderNone(g, det, n - 1);
      assert FirstBest(g, det, n, n - 1);
    } else {
      LeaderIsFirstBest(g, det, n - 1);
      var p: nat :| FirstBest(g, det, n - 1, p) && prev == Some(CandidateAt(g, det, p));
      assert prev.value.score == ScoreAt(g, det, p);
      if t.matches > 0 && ScoreAt(g, det, n - 1) > ScoreAt(g, det, p) {
        FirstBestOvertaken(g, det, n, p);
      } else {
        FirstBestKept(g, det, n, p);
      }
    }
  }

  /** A matching room's candidate: confidence is its mean score over 100,
      never above 1, and its match count is the number of its MACs that
      were scanned, at least one. */
  lemma CandidateConfidence(g: Grouping, det: map<string, int>, p: nat)
    requires Ranked(g) && p < |g.order| && RoomTally(g, det, p).matches > 0
    ensures var c := CandidateAt(g, det, p);
      && c.best.matchedAps >= 1
      && c.best.confidence == c.score / 100.0 <= 1.0
      && c.best.matchedAps == |ScannedIndices(g.zones[g.order[p]], det, |g.zones[g.order[p]].macs|)|
  {
    var z := g.zones[g.order[p]];
    var t := RoomTally(g, det, p);
    ZoneTallySpec(z, det, |z.macs|);
    assert t.total / t.matches as real <= 100.0;
  }

  /** The leader's confidence is its mean score over 100, never above 1, and
      it reports how many of its MACs were scanned, at least one. */
  lemma LeaderConfidence(g: Grouping, det: map<string, int>, n: nat)
    requires Ranked(g) && n <= |g.order|
    requires Leader(g, det, n).Some?
    ensures var c := Leader(g, det, n).value;
      && c.best.matchedAps >= 1
      && c.best.confidence == c.score / 100.0 <= 1.0
      && exists p: nat :: (FirstBest(g, det, n, p) && c.best.matchedAps ==
           |ScannedIndices(g.zones[g.order[p]], det, |g.zones[g.order[p]].macs|)|)
  {
    LeaderIsFirstBest(g, det, n);
    var p: nat :| FirstBest(g, det, n, p) && Leader(g, det, n) == Some(CandidateAt(g, det, p));
    CandidateConfidence(g, det, p);
  }

  /** The matcher finds no room exactly when no scanned MAC (lower-cased)
      is the MAC of any loaded sample. */
  lemma MatchingNoneIff(fps: seq<Sample>, aps: seq<Observation>)
    ensures Matching(fps, aps).None? <==>
      forall i, j :: 0 <= i < |fps| && 0 <= j < |aps| ==> fps[i].mac != Lower(aps[j].mac)
  {
    GroupOk(fps);
    var g := Group(fps);
    GroupingRanked(g);
    var det := Detected(aps);
    LeaderNone(g, det, |g.order|);
    if exists i, j :: 0 <= i < |fps| && 0 <= j < |aps| && fps[i].mac == Lower(aps[j].mac) {
      var i, j :| 0 <= i < |fps| && 0 <= j < |aps| && fps[i].mac == Lower(aps[j].mac);
      var k := KeyOf(fps[i]);
      GroupRooms(fps, k);
      GroupMacs(fps, k, fps[i].mac);
      assert k in g.order;
      var p :| 0 <= p < |g.order| && g.order[p] == k;
      var z := g.zones[k];
      assert ZoneOk(z);
      var x :| 0 <= x < |z.macs| && z.macs[x] == fps[i].mac;
      DetectedSpec(aps, fps[i].mac);
      ZoneTallyMatches(z, det, |z.macs|);
      assert RoomTally(g, det, p).matches > 0;
    } else {
      forall q | 0 <= q < |g.order| ensures RoomTally(g, det, q).matches == 0 {
        var k := g.order[q];
        var z := g.zones[k];
        forall x | 0 <= x < |z.macs| ensures z.macs[x] !in det {
          GroupMacs(fps, k, z.macs[x]);
          DetectedSpec(aps, z.macs[x]);
        }
        ZoneTallyMatches(z, det, |z.macs|);
      }
    }
  }

  /** The matcher's result reports at least one matched access point and a
      confidence of at most 1. */
  lemma MatchingConfidence(fps: seq<Sample>, aps: seq<Observation>)
    requires Matching(fps, aps).Some?
    ensures Matching(fps, aps).value.matchedAps >= 1
    ensures Matching(fps, aps).value.confidence <= 1.0
  {
    GroupOk(fps);
    GroupingRanked(Group(fps));
    LeaderConfidence(Group(fps), Detected(aps), |Group(fps).order|);
  }

  // ---------------------------------------------------------------------
  // The worked example of the matcher's documentation

  const Scan201: seq<Observation> := [Observation("aa:bb:cc", -65), Observation("dd:ee:ff", -70)]

  /** Room 201 recorded aa:bb:cc at -63 and dd:ee:ff at -68; room 203
      recorded aa:bb:cc at -72. */
  const Samples201: seq<Sample> := [
    Sample("201", "2", "Salle 201", 1.0, 2.0, "aa:bb:cc", "Unknown", -63, "t"),
    Sample("201", "2", "Salle 201", 1.0, 2.0, "dd:ee:ff", "Unknown", -68, "t"),
    Sample("203", "2", "Salle 203", 3.0, 4.0, "aa:bb:cc", "Unknown", -72, "t")]

  const Room201 := RoomKey("201", "2")
  const Room203 := RoomKey("203", "2")
  const Zone201 := Zone(["aa:bb:cc", "dd:ee:ff"], map["aa:bb:cc" := [-63], "dd:ee:ff" := [-68]],
                        [1.0, 1.0], [2.0, 2.0], "Salle 201")
  const Zone203 := Zone(["aa:bb:cc"], map["aa:bb:cc" := [-72]], [3.0], [4.0], "Salle 203")
  const Grouping201 := Grouping([Room201, Room203], map[Room201 := Zone201, Room203 := Zone203])

  lemma ExampleScan()
    ensures Detected(Scan201) == map["aa:bb:cc" := -65, "dd:ee:ff" := -70]
  {
    assert Lower("aa:bb:cc") == "aa:bb:cc";
    assert Lower("dd:ee:ff") == "dd:ee:ff";
    assert Scan201[..1][..0] == [];
    assert Scan201[..1] == [Scan201[0]];
  }

  /** After the first sample: room 201 with aa:bb:cc at -63. */
  lemma ExampleGroupFirst()
    ensures Group(Samples201[..1])
         == Grouping([Room201], map[Room201 := Zone(["aa:bb:cc"], map["aa:bb:cc" := [-63]],
                                                    [1.0], [2.0], "Salle 201")])
  {
    var s := Samples201;
    assert s[..1][..0] == [];
    assert Group(s[..1]) == AddSample(Grouping([], map[]), s[0]);
    assert [] + ["aa:bb:cc"] == ["aa:bb:cc"] && [] + [-63] == [-63];
    assert [] + [1.0] == [1.0] && [] + [2.0] == [2.0] && [] + [Room201] == [Room201];
  }

  /** After the second sample: room 201 complete. */
  lemma ExampleGroupSecond()
    ensures Group(Samples201[..2]) == Grouping([Room201], map[Room201 := Zone201])
  {
    var s := Samples201;
    assert "aa:bb:cc" != "dd:ee:ff" by { assert "aa:bb:cc"[0] != "dd:ee:ff"[0]; }
    ExampleGroupFirst();
    assert s[..2][..1] == s[..1];
    assert Group(s[..2]) == AddSample(Group(s[..1]), s[1]);
    assert ["aa:bb:cc"] + ["dd:ee:ff"] == ["aa:bb:cc", "dd:ee:ff"] && [] + [-68] == [-68];
    assert [1.0] + [1.0] == [1.0, 1.0] && [2.0] + [2.0] == [2.0, 2.0];
  }

  /** The samples group into room 201 (first seen) and room 203. */
  lemma ExampleGrouping()
    ensures Group(Samples201) == Grouping201
  {
    var s := Samples201;
    assert Room201 != Room203 by { assert "201"[2] != "203"[2]; }
    ExampleGroupSecond();
    assert s[..3][..2] == s[..2];
    assert s[..3] == s;
    assert Group(s) == AddSample(Group(s[..2]), s[2]);
    assert [Room201] + [Room203] == [Room201, Room203] && [] + [-72] == [-72];
    assert [] + [3.0] == [3.0] && [] + [4.0] == [4.0] && [] + ["aa:bb:cc"] == ["aa:bb:cc"];
  }

  const Det201 := map["aa:bb:cc" := -65, "dd:ee:ff" := -70]

  lemma MeanIntSingle(x: int)
    ensures MeanInt([x]) == x as real
  {
    assert [x][..0] == [];
    assert SumInt([x]) == x;
    assert |[x]| as real == 1.0;
  }

  lemma MeanPair(x: real)
    ensures Mean([x, x]) == x
  {
    assert [x, x][..1] == [x] && [x][..0] == [];
    assert Sum([x]) == x;
    assert Sum([x, x]) == x + x;
    assert |[x, x]| as real == 2.0;
  }

  lemma ExampleRanked()
    ensures Ranked(Grouping201)
  {
    assert "aa:bb:cc" != "dd:ee:ff" by { assert "aa:bb:cc"[0] != "dd:ee:ff"[0]; }
    assert Room201 != Room203 by { assert "201"[2] != "203"[2]; }
  }

  lemma ExampleTerms()
    ensures Term(-65, [-63]) == 98.0 && Term(-70, [-68]) == 98.0 && Term(-65, [-72]) == 93.0
  {
    MeanIntSingle(-63);
    MeanIntSingle(-68);
    MeanIntSingle(-72);
  }

  lemma ExampleZoneTallies()
    ensures Scorable(Zone201) && Scorable(Zone203)
    ensures ZoneTally(Zone201, Det201, 2) == Tally(196.0, 2)
    ensures ZoneTally(Zone203, Det201, 1) == Tally(93.0, 1)
  {
    assert "aa:bb:cc" != "dd:ee:ff" by { assert "aa:bb:cc"[0] != "dd:ee:ff"[0]; }
    ExampleTerms();
    assert Det201["aa:bb:cc"] == -65 && Det201["dd:ee:ff"] == -70;
    assert Zone203.macs[0] == "aa:bb:cc" && Zone203.rssiByMac["aa:bb:cc"] == [-72];
    assert ZoneTally(Zone203, Det201, 0) == Tally(0.0, 0);
    assert Zone201.macs[0] == "aa:bb:cc" && Zone201.rssiByMac["aa:bb:cc"] == [-63];
    assert Zone201.macs[1] == "dd:ee:ff" && Zone201.rssiByMac["dd:ee:ff"] == [-68];
    assert ZoneTally(Zone201, Det201, 0) == Tally(0.0, 0);
    assert ZoneTally(Zone201, Det201, 1) == Tally(98.0, 1);
  }

  lemma ExampleZones()
    ensures Grouping201.order[0] == Room201 && Grouping201.order[1] == Room203
    ensures Grouping201.zones[Room201] == Zone201 && Grouping201.zones[Room203] == Zone203
  {
    assert Room201 != Room203 by { assert Room201.room[2] != Room203.room[2]; }
  }

  lemma ExampleTallies()
    ensures Ranked(Grouping201)
    ensures RoomTally(Grouping201, Det201, 0) == Tally(196.0, 2)
    ensures RoomTally(Grouping201, Det201, 1) == Tally(93.0, 1)
  {
    ExampleRanked();
    ExampleZoneTallies();
    ExampleZones();
    assert |Zone201.macs| == 2 && |Zone203.macs| == 1;
    assert RoomTally(Grouping201, Det201, 0) == ZoneTally(Zone201, Det201, 2);
    assert RoomTally(Grouping201, Det201, 1) == ZoneTally(Zone203, Det201, 1);
  }

  lemma ExampleAverages()
    ensures Average(Tally(196.0, 2)) == 98.0 && Average(Tally(93.0, 1)) == 93.0
  {
  }

  /** Room 201 is the first candidate: mean score 98 over two access
      points, at the mean of its recorded positions. */
  lemma ExampleCandidate()
    ensures Ranked(Grouping201)
    ensures Leader(Grouping201, Det201, 1)
         == Some(Candidate(98.0, RoomMatch("201", "2", 1.0, 2.0, "Salle 201", 0.98, 2)))
  {
    var g := Grouping201;
    ExampleTallies();
    ExampleZones();
    MeanPair(1.0);
    MeanPair(2.0);
    assert Zone201.lats == [1.0, 1.0] && Zone201.lons == [2.0, 2.0];
    ExampleAverages();
    assert Min(98.0 / 100.0, 1.0) == 0.98;
    assert CandidateAt(g, Det201, 0)
        == Candidate(98.0, RoomMatch("201", "2", 1.0, 2.0, "Salle 201", 0.98, 2));
    assert Leader(g, Det201, 1) == Some(CandidateAt(g, Det201, 0));
  }

  /** Room 203's mean score of 93 does not overtake room 201's 98. */
  lemma ExampleLeader()
    ensures Ranked(Grouping201)
    ensures Leader(Grouping201, Det201, 2)
         == Some(Candidate(98.0, RoomMatch("201", "2", 1.0, 2.0, "Salle 201", 0.98, 2)))
  {
    ExampleTallies();
    ExampleCandidate();
    ExampleAverages();
  }

  /** Room 201 wins with a mean score of 98 over two access points, ahead
      of room 203's 93 over one. */
  lemma WorkedExample()
    ensures Matching(Samples201, Scan201)
         == Some(RoomMatch("201", "2", 1.0, 2.0, "Salle 201", 0.98, 2))
  {
    ExampleScan();
    ExampleGrouping();
    ExampleLeader();
  }
}
