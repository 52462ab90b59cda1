/** locate_position: run the matcher and both fallbacks over one scan and
    pick the answer: the matcher when its confidence is above 0.3, else the
    weighted centroid with the strongest access point's room, else an
    error. */
module Arbiter {
  import opened Wrappers
  import opened Frame
  import opened Zones
  import opened Store
  import opened Matcher
  import opened Fallback

  /** The details attached to a position: the first five scanned access
      points for the matcher, the known access points for the centroid. */
  datatype Details = ScanDetails(scanned: seq<Observation>) | MatchedDetails(matched: seq<Detail>)

  /** What locate_position answers. confidence is the percentage before it
      is rendered as text; timestamp is the time of the answer. */
  datatype Position =
    | Located(lat: real, lon: real, room: string, floor: string, location: string,
              strategy: string, confidence: real, matchedAps: nat, details: Details,
              timestamp: string)
    | Failed(error: string, timestamp: string)

  /** The matcher's confidence a position needs to be answered by it. */
  const MatcherThreshold := 0.3

  /** The scan entries shown with a matcher answer. */
  function FirstFive(aps: seq<Observation>): (s: seq<Observation>)
    ensures |s| <= 5 && s <= aps
    ensures |aps| >= 5 ==> |s| == 5
    ensures |aps| < 5 ==> s == aps
  {
    if |aps| <= 5 then aps else aps[..5]
  }

  /** locate_position over the loaded samples, the directory, a scan, the
      weight of the centroid and the time of the call. */
  function LocatePosition(fps: seq<Sample>, dir: map<string, ApEntry>, aps: seq<Observation>,
                          w: int -> real, timestamp: string): (p: Position)
    ensures p.timestamp == timestamp
    ensures p == Failed("No APs detected", timestamp) <==> |aps| == 0
    ensures p.Failed? ==> p.error == "No APs detected" || p.error == "Insufficient data"
    ensures p.Located? ==> p.strategy == "RSSI Matching" || p.strategy == "Triangulation"
    ensures p.Located? && p.strategy == "RSSI Matching" ==>
      Matching(fps, aps).Some? && Matching(fps, aps).value.confidence > MatcherThreshold
    ensures p.Located? && p.strategy == "Triangulation" ==> Triangulation(dir, aps, w).Some?
  {
    if |aps| == 0 then Failed("No APs detected", timestamp)
    else
      var rssiResult := Matching(fps, aps);
      var centroidResult := Triangulation(dir, aps, w);
      var roomResult := RoomGuessOf(dir, aps);
      if rssiResult.Some? && rssiResult.value.confidence > MatcherThreshold then
        var m := rssiResult.value;
        Located(m.lat, m.lon, m.room, m.floor, m.location, "RSSI Matching",
                m.confidence * 100.0, m.matchedAps, ScanDetails(FirstFive(aps)), timestamp)
      else if centroidResult.Some? then
        var c := centroidResult.value;
        Located(c.lat, c.lon, roomResult.room, roomResult.floor, roomResult.location,
                "Triangulation", Min(c.matchedAps as real / 3.0 * 100.0, 100.0),
                c.matchedAps, MatchedDetails(c.details), timestamp)
      else Failed("Insufficient data", timestamp)
  }

  /** With a directory that covers the samples, locate_position succeeds
      exactly when some scanned access point is in the directory; an empty
      scan fails with "No APs detected" and any other failure is
      "Insufficient data". */
  lemma LocateSucceedsIff(fps: seq<Sample>, dir: map<string, ApEntry>, aps: seq<Observation>,
                          w: int -> real, timestamp: string)
    requires PositiveWeight(w) && Covers(fps, dir)
    ensures LocatePosition(fps, dir, aps, w, timestamp).Located? <==>
      exists j :: 0 <= j < |aps| && Lower(aps[j].mac) in dir
    ensures |aps| == 0 ==> LocatePosition(fps, dir, aps, w, timestamp) == Failed("No APs detected", timestamp)
    ensures |aps| > 0 && LocatePosition(fps, dir, aps, w, timestamp).Failed? ==>
      LocatePosition(fps, dir, aps, w, timestamp) == Failed("Insufficient data", timestamp)
  {
    TriangulationNoneIff(dir, aps, w);
    MatchingNoneIff(fps, aps);
    if Matching(fps, aps).Some? {
      var i, j :| 0 <= i < |fps| && 0 <= j < |aps| && fps[i].mac == Lower(aps[j].mac);
      assert Lower(aps[j].mac) in dir;
    }
  }

  /** A matcher answer carries the matched room's fields, a confidence above
      30 and at most 100 percent, at least one matched access point and at
      most the first five scan entries. */
  lemma MatcherAnswer(fps: seq<Sample>, dir: map<string, ApEntry>, aps: seq<Observation>,
                      w: int -> real, timestamp: string)
    requires LocatePosition(fps, dir, aps, w, timestamp).Located?
    requires LocatePosition(fps, dir, aps, w, timestamp).strategy == "RSSI Matching"
    ensures var p := LocatePosition(fps, dir, aps, w, timestamp);
      && Matching(fps, aps).Some?
      && var m := Matching(fps, aps).value;
      && (p.lat, p.lon, p.room, p.floor, p.location) == (m.lat, m.lon, m.room, m.floor, m.location)
      && 30.0 < p.confidence <= 100.0
      && p.matchedAps == m.matchedAps >= 1
      && p.details.ScanDetails? && |p.details.scanned| <= 5 && p.details.scanned <= aps
  {
    assert "Triangulation" != "RSSI Matching";
    MatchingConfidence(fps, aps);
  }

  /** A centroid answer is given only when the matcher found nothing or was
      not confident enough; its position is the centroid's, its room that
      of the strongest known access point, and its confidence a third of
      100 per matched access point, capped at 100. */
  lemma CentroidAnswer(fps: seq<Sample>, dir: map<string, ApEntry>, aps: seq<Observation>,
                       w: int -> real, timestamp: string)
    requires PositiveWeight(w)
    requires LocatePosition(fps, dir, aps, w, timestamp).Located?
    requires LocatePosition(fps, dir, aps, w, timestamp).strategy == "Triangulation"
    ensures var p := LocatePosition(fps, dir, aps, w, timestamp);
      && (Matching(fps, aps).None? || Matching(fps, aps).value.confidence <= MatcherThreshold)
      && Triangulation(dir, aps, w).Some?
      && var c := Triangulation(dir, aps, w).value;
      && (p.lat, p.lon) == (c.lat, c.lon)
      && var g := RoomGuessOf(dir, aps);
      && (p.room, p.floor, p.location) == (g.room, g.floor, g.location)
      && p.matchedAps == c.matchedAps >= 1
      && 0.0 < p.confidence <= 100.0
      && (p.confidence == 100.0 <==> p.matchedAps >= 3)
  {
    assert "Triangulation" != "RSSI Matching";
    TriangulationNoneIff(dir, aps, w);
    AccumulateSpec(dir, aps, w);
  }
}
