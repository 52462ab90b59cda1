/** The two fallbacks of the backend, both over the access-point directory:
    triangulate, a weighted centroid of the scanned access points the
    directory knows, and locate_room, the room of the strongest known
    access point. */
module Fallback {
  import opened Wrappers
  import opened Frame
  import opened Store

  // ---------------------------------------------------------------------
  // triangulate

  /** The weight of a scanned access point as a function of its RSSI. The
      source derives it from an estimated distance; every weight it can
      produce is positive. */
  ghost predicate PositiveWeight(w: int -> real)
  {
    forall rssi :: w(rssi) > 0.0
  }

  /** One entry of the details list: the scanned MAC as it was received,
      the directory's SSID for it, and the scanned RSSI. */
  datatype Detail = Detail(mac: string, ssid: string, rssi: int)

  /** A successful triangulation. */
  datatype Centroid = Centroid(lat: real, lon: real, matchedAps: nat, details: seq<Detail>)

  /** The accumulators: the weighted coordinate sums, the weight sum, the
      match count and the details. */
  datatype Sums = Sums(x: real, y: real, den: real, matched: nat, details: seq<Detail>)

  function Known(dir: map<string, ApEntry>, ap: Observation): bool
  {
    Lower(ap.mac) in dir
  }

  /** The accumulators after the scan aps. */
  function Accumulate(dir: map<string, ApEntry>, aps: seq<Observation>, w: int -> real): Sums
  {
    if |aps| == 0 then Sums(0.0, 0.0, 0.0, 0, [])
    else
      var s := Accumulate(dir, aps[..|aps| - 1], w);
      var ap := aps[|aps| - 1];
      if Known(dir, ap) then
        var e := dir[Lower(ap.mac)];
        var weight := w(ap.rssi);
        Sums(s.x + e.lat * weight, s.y + e.lon * weight, s.den + weight, s.matched + 1,
             s.details + [Detail(ap.mac, e.ssid, ap.rssi)])
      else s
  }

  /** triangulate: None unless the weight sum is positive. */
  function Triangulation(dir: map<string, ApEntry>, aps: seq<Observation>, w: int -> real): Option<Centroid>
  {
    var s := Accumulate(dir, aps, w);
    if s.den > 0.0 then Some(Centroid(s.x / s.den, s.y / s.den, s.matched, s.details)) else None
  }

  /** The accumulating loop of triangulate. */
  method Triangulate(dir: map<string, ApEntry>, aps: seq<Observation>, w: int -> real)
    returns (result: Option<Centroid>)
    ensures result == Triangulation(dir, aps, w)
  {
    var numeratorX, numeratorY, denominator := 0.0, 0.0, 0.0;
    var matched := 0;
    var details: seq<Detail> := [];
    var i := 0;
    while i < |aps|
      invariant 0 <= i <= |aps|
      invariant Sums(numeratorX, numeratorY, denominator, matched, details) == Accumulate(dir, aps[..i], w)
    {
      assert aps[..i + 1][..i] == aps[..i];
      var ap := aps[i];
      var macLower := Lower(ap.mac);
      if macLower in dir {
        var known := dir[macLower];
        var weight := w(ap.rssi);
        numeratorX := numeratorX + known.lat * weight;
        numeratorY := numeratorY + known.lon * weight;
        denominator := denominator + weight;
        matched := matched + 1;
        details := details + [Detail(ap.mac, known.ssid, ap.rssi)];
      }
      assert aps[..i + 1][i] == ap;
      i := i + 1;
    }
    assert aps[..|aps|] == aps;
    if denominator > 0.0 {
      result := Some(Centroid(numeratorX / denominator, numeratorY / denominator, matched, details));
    } else {
      result := None;
    }
  }

  /** The indices of the scanned access points the directory knows. */
  function KnownIndices(dir: map<string, ApEntry>, aps: seq<Observation>): set<nat>
  {
    set j: nat | j < |aps| && Known(dir, aps[j])
  }

  /** The accumulators count and list exactly the known access points, in
      scan order; with positive weights the weight sum is positive exactly
      when one of them is known. */
  lemma {:induction false} AccumulateSpec(dir: map<string, ApEntry>, aps: seq<Observation>, w: int -> real)
    requires PositiveWeight(w)
    ensures var s := Accumulate(dir, aps, w);
      && s.matched == |KnownIndices(dir, aps)| == |s.details|
      && (s.den > 0.0 <==> s.matched > 0)
      && s.den >= 0.0
  {
    if |aps| > 0 {
      var p := aps[..|aps| - 1];
      AccumulateSpec(dir, p, w);
      var n := |aps| - 1;
      if Known(dir, aps[n]) {
        assert KnownIndices(dir, aps) == KnownIndices(dir, p) + {n};
        assert n !in KnownIndices(dir, p);
      } else {
        assert KnownIndices(dir, aps) == KnownIndices(dir, p);
      }
    }
  }

  /** Detail k is the k-th known access point of the scan. */
  lemma {:induction false} AccumulateDetails(dir: map<string, ApEntry>, aps: seq<Observation>, w: int -> real, j: nat)
    requires j < |aps| && Known(dir, aps[j])
    ensures var s := Accumulate(dir, aps, w); var k := |Accumulate(dir, aps[..j], w).details|;
      && k < |s.details|
      && s.details[k] == Detail(aps[j].mac, dir[Lower(aps[j].mac)].ssid, aps[j].rssi)
  {
    var p := aps[..|aps| - 1];
    if j == |aps| - 1 {
      assert aps[..j] == p;
    } else {
      AccumulateDetails(dir, p, w, j);
      assert p[..j] == aps[..j];
    }
  }

  /** A known access point's directory latitude lies between latLo and
      latHi, and its longitude between lonLo and lonHi. */
  predicate InBox(dir: map<string, ApEntry>, ap: Observation, latLo: real, latHi: real, lonLo: real, lonHi: real)
  {
    Known(dir, ap) ==>
      latLo <= dir[Lower(ap.mac)].lat <= latHi && lonLo <= dir[Lower(ap.mac)].lon <= lonHi
  }

  /** The weighted latitude sum lies between latLo and latHi times the
      weight sum, and the longitude sum between lonLo and lonHi times it,
      when every known access point's coordinates lie in those ranges. */
  lemma {:induction false} AccumulateBounds(dir: map<string, ApEntry>, aps: seq<Observation>, w: int -> real,
                                            latLo: real, latHi: real, lonLo: real, lonHi: real)
    requires PositiveWeight(w)
    requires forall j :: 0 <= j < |aps| ==> InBox(dir, aps[j], latLo, latHi, lonLo, lonHi)
    ensures var s := Accumulate(dir, aps, w);
      latLo * s.den <= s.x <= latHi * s.den && lonLo * s.den <= s.y <= lonHi * s.den
  {
    if |aps| == 0 {
      assert latLo * 0.0 == 0.0 && latHi * 0.0 == 0.0 && lonLo * 0.0 == 0.0 && lonHi * 0.0 == 0.0;
    } else {
      var p := aps[..|aps| - 1];
      var ap := aps[|aps| - 1];
      assert forall j :: 0 <= j < |p| ==> p[j] == aps[j];
      AccumulateBounds(dir, p, w, latLo, latHi, lonLo, lonHi);
      var s' := Accumulate(dir, p, w);
      if Known(dir, ap) {
        var e := dir[Lower(ap.mac)];
        var weight := w(ap.rssi);
        assert InBox(dir, ap, latLo, latHi, lonLo, lonHi);
        assert weight > 0.0 && latLo <= e.lat <= latHi && lonLo <= e.lon <= lonHi;
        assert latLo * s'.den <= s'.x <= latHi * s'.den && lonLo * s'.den <= s'.y <= lonHi * s'.den;
        assert Accumulate(dir, aps, w).x == s'.x + e.lat * weight;
        assert Accumulate(dir, aps, w).y == s'.y + e.lon * weight;
        assert Accumulate(dir, aps, w).den == s'.den + weight;
        BoundsStep(s'.x, s'.den, e.lat, weight, latLo, latHi);
        BoundsStep(s'.y, s'.den, e.lon, weight, lonLo, lonHi);
      } else {
        assert Accumulate(dir, aps, w) == s';
      }
    }
  }

  /** Adding a positive weight times a coordinate between lo and hi keeps a
      weighted sum between lo and hi times the weight sum. */
  lemma BoundsStep(x: real, den: real, c: real, weight: real, lo: real, hi: real)
    requires weight > 0.0 && lo <= c <= hi
    requires lo * den <= x <= hi * den
    ensures lo * (den + weight) <= x + c * weight <= hi * (den + weight)
  {
    ScaleBounds(c, weight, lo, hi);
    assert lo * (den + weight) == lo * den + lo * weight;
    assert hi * (den + weight) == hi * den + hi * weight;
  }

  /** triangulate fails exactly when no scanned access point is in the
      directory; otherwise it counts and details the known ones. */
  lemma TriangulationNoneIff(dir: map<string, ApEntry>, aps: seq<Observation>, w: int -> real)
    requires PositiveWeight(w)
    ensures Triangulation(dir, aps, w).None? <==> forall j :: 0 <= j < |aps| ==> Lower(aps[j].mac) !in dir
    ensures Triangulation(dir, aps, w).Some? ==>
      Triangulation(dir, aps, w).value.matchedAps == |KnownIndices(dir, aps)|
      == |Triangulation(dir, aps, w).value.details|
  {
    AccumulateSpec(dir, aps, w);
    if exists j :: 0 <= j < |aps| && Lower(aps[j].mac) in dir {
      var j :| 0 <= j < |aps| && Lower(aps[j].mac) in dir;
      assert (j as nat) in KnownIndices(dir, aps);
    } else {
      assert KnownIndices(dir, aps) == {};
    }
  }

  /** A triangulated latitude lies between the least and the greatest
      latitude of the known access points, and its longitude between the
      least and the greatest of their longitudes. */
  lemma TriangulationWithinBounds(dir: map<string, ApEntry>, aps: seq<Observation>, w: int -> real,
                                  latLo: real, latHi: real, lonLo: real, lonHi: real)
    requires PositiveWeight(w)
    requires forall j :: 0 <= j < |aps| && Lower(aps[j].mac) in dir ==>
      latLo <= dir[Lower(aps[j].mac)].lat <= latHi
    requires forall j :: 0 <= j < |aps| && Lower(aps[j].mac) in dir ==>
      lonLo <= dir[Lower(aps[j].mac)].lon <= lonHi
    requires Triangulation(dir, aps, w).Some?
    ensures latLo <= Triangulation(dir, aps, w).value.lat <= latHi
    ensures lonLo <= Triangulation(dir, aps, w).value.lon <= lonHi
  {
    var s := Accumulate(dir, aps, w);
    assert forall j :: 0 <= j < |aps| ==> InBox(dir, aps[j], latLo, latHi, lonLo, lonHi);
    AccumulateBounds(dir, aps, w, latLo, latHi, lonLo, lonHi);
    DivideBounds(s.x, s.den, latLo, latHi);
    DivideBounds(s.y, s.den, lonLo, lonHi);
  }

  lemma ScaleBounds(x: real, weight: real, lo: real, hi: real)
    requires weight > 0.0 && lo <= x <= hi
    ensures lo * weight <= x * weight <= hi * weight
  {
  }

  lemma DivideBounds(x: real, d: real, lo: real, hi: real)
    requires d > 0.0 && lo * d <= x <= hi * d
    ensures lo <= x / d <= hi
  {
    assert (lo * d) / d == lo && (hi * d) / d == hi;
  }

  // ---------------------------------------------------------------------
  // locate_room

  /** The worst RSSI locate_room starts from; only stronger signals count. */
  const FloorRssi := -100

  /** What locate_room returns. */
  datatype RoomGuess = RoomGuess(room: string, floor: string, location: string,
                                 rssi: int, confidence: string)

  const NoRoom := RoomGuess("Unknown", "?", "Position non détectée", 0, "Aucune")

  /** The strongest RSSI so far and its directory entry; a later access
      point replaces it only with a strictly stronger signal. */
  datatype Strongest = Strongest(rssi: int, entry: Option<ApEntry>)

  function StrongestOf(dir: map<string, ApEntry>, aps: seq<Observation>): Strongest
  {
    if |aps| == 0 then Strongest(FloorRssi, None)
    else
      var s := StrongestOf(dir, aps[..|aps| - 1]);
      var ap := aps[|aps| - 1];
      if Known(dir, ap) && ap.rssi > s.rssi then Strongest(ap.rssi, Some(dir[Lower(ap.mac)])) else s
  }

  /** The confidence label of a signal strength. */
  function Label(rssi: int): string
  {
    if rssi > -50 then "Haute" else if rssi > -70 then "Moyenne" else "Faible"
  }

  function RoomGuessOf(dir: map<string, ApEntry>, aps: seq<Observation>): RoomGuess
  {
    var s := StrongestOf(dir, aps);
    match s.entry
    case None => NoRoom
    case Some(e) => RoomGuess(e.room, e.floor, e.location, s.rssi, Label(s.rssi))
  }

  /** The loop of locate_room. */
  method LocateRoom(dir: map<string, ApEntry>, aps: seq<Observation>) returns (guess: RoomGuess)
    ensures guess == RoomGuessOf(dir, aps)
  {
    var bestMatch: Option<ApEntry> := None;
    var bestRssi := FloorRssi;
    var i := 0;
    while i < |aps|
      invariant 0 <= i <= |aps|
      invariant Strongest(bestRssi, bestMatch) == StrongestOf(dir, aps[..i])
    {
      assert aps[..i + 1][..i] == aps[..i];
      var ap := aps[i];
      var macLower := Lower(ap.mac);
      if macLower in dir && ap.rssi > bestRssi {
        bestRssi := ap.rssi;
        bestMatch := Some(dir[macLower]);
      }
      i := i + 1;
    }
    assert aps[..|aps|] == aps;
    if bestMatch.Some? {
      var confidence := if bestRssi > -50 then "Haute" else if bestRssi > -70 then "Moyenne" else "Faible";
      guess := RoomGuess(bestMatch.value.room, bestMatch.value.floor, bestMatch.value.location,
                         bestRssi, confidence);
    } else {
      guess := NoRoom;
    }
  }

  /** Access point j is known, above -100 dBm, strictly stronger than every
      earlier known one and at least as strong as every later one. */
  predicate FirstStrongest(dir: map<string, ApEntry>, aps: seq<Observation>, j: nat)
  {
    && j < |aps| && Known(dir, aps[j]) && aps[j].rssi > FloorRssi
    && (forall i :: 0 <= i < j && Known(dir, aps[i]) ==> aps[i].rssi < aps[j].rssi)
    && (forall i :: j < i < |aps| && Known(dir, aps[i]) ==> aps[i].rssi <= aps[j].rssi)
  }

  /** No access point is chosen exactly when no known one is stronger than
      -100 dBm, and the strongest RSSI then stays at -100. */
  lemma {:induction false} StrongestNone(dir: map<string, ApEntry>, aps: seq<Observation>)
    ensures StrongestOf(dir, aps).entry.None? <==>
      forall j :: 0 <= j < |aps| && Known(dir, aps[j]) ==> aps[j].rssi <= FloorRssi
    ensures StrongestOf(dir, aps).entry.None? ==> StrongestOf(dir, aps).rssi == FloorRssi
    ensures StrongestOf(dir, aps).rssi >= FloorRssi
  {
    if |aps| > 0 {
      var p := aps[..|aps| - 1];
      StrongestNone(dir, p);
      assert forall i :: 0 <= i < |p| ==> aps[i] == p[i];
    }
  }

  /** The last access point becomes the first strongest when it is known
      and beats every earlier known one and -100 dBm. */
  lemma FirstStrongestLast(dir: map<string, ApEntry>, aps: seq<Observation>, bound: int)
    requires |aps| > 0 && Known(dir, aps[|aps| - 1])
    requires bound >= FloorRssi && aps[|aps| - 1].rssi > bound
    requires forall i :: 0 <= i < |aps| - 1 && Known(dir, aps[i]) ==> aps[i].rssi <= bound
    ensures FirstStrongest(dir, aps, |aps| - 1)
  {
  }

  /** The first strongest of a prefix stays the first strongest when the
      next access point is not strictly stronger. */
  lemma FirstStrongestKept(dir: map<string, ApEntry>, aps: seq<Observation>, j: nat)
    requires |aps| > 0 && FirstStrongest(dir, aps[..|aps| - 1], j)
    requires Known(dir, aps[|aps| - 1]) ==> aps[|aps| - 1].rssi <= aps[j].rssi
    ensures FirstStrongest(dir, aps, j)
  {
    var p := aps[..|aps| - 1];
    assert forall i :: 0 <= i < |p| ==> aps[i] == p[i];
  }

  /** A chosen access point is the first strongest known one. */
  lemma {:induction false} StrongestIsFirst(dir: map<string, ApEntry>, aps: seq<Observation>)
    requires StrongestOf(dir, aps).entry.Some?
    ensures exists j: nat :: (FirstStrongest(dir, aps, j)
      && StrongestOf(dir, aps) == Strongest(aps[j].rssi, Some(dir[Lower(aps[j].mac)])))
  {
    var p := aps[..|aps| - 1];
    var n := |aps| - 1;
    var s := StrongestOf(dir, p);
    if Known(dir, aps[n]) && aps[n].rssi > s.rssi {
      StrongestNone(dir, p);
      if s.entry.Some? {
        StrongestIsFirst(dir, p);
        var j: nat :| FirstStrongest(dir, p, j) && s == Strongest(p[j].rssi, Some(dir[Lower(p[j].mac)]));
        assert forall i :: 0 <= i < n ==> aps[i] == p[i];
      } else {
        assert forall i :: 0 <= i < n ==> aps[i] == p[i];
      }
      FirstStrongestLast(dir, aps, s.rssi);
    } else {
      StrongestIsFirst(dir, p);
      var j: nat :| FirstStrongest(dir, p, j) && s == Strongest(p[j].rssi, Some(dir[Lower(p[j].mac)]));
      assert aps[j] == p[j];
      FirstStrongestKept(dir, aps, j);
    }
  }

  /** locate_room answers the Unknown room with confidence Aucune when no
      known access point is above -100 dBm; otherwise the room, floor and
      location of the first strongest known access point, with its RSSI,
      labelled Haute above -50 dBm, Moyenne above -70 dBm and Faible
      otherwise. */
  lemma RoomGuessSpec(dir: map<string, ApEntry>, aps: seq<Observation>)
    ensures (forall j :: 0 <= j < |aps| && Known(dir, aps[j]) ==> aps[j].rssi <= FloorRssi) ==>
      RoomGuessOf(dir, aps) == NoRoom
    ensures (exists j :: 0 <= j < |aps| && Known(dir, aps[j]) && aps[j].rssi > FloorRssi) ==>
      exists j: nat :: FirstStrongest(dir, aps, j) &&
        var e := dir[Lower(aps[j].mac)];
        RoomGuessOf(dir, aps) == RoomGuess(e.room, e.floor, e.location, aps[j].rssi, Label(aps[j].rssi))
  {
    StrongestNone(dir, aps);
    if StrongestOf(dir, aps).entry.Some? {
      StrongestIsFirst(dir, aps);
    }
  }

  /** The label bands: Haute exactly above -50 dBm, Faible exactly at or
      below -70 dBm. */
  lemma LabelBands(rssi: int)
    ensures Label(rssi) == "Haute" <==> rssi > -50
    ensures Label(rssi) == "Faible" <==> rssi <= -70
    ensures Label(rssi) == "Haute" || Label(rssi) == "Moyenne" || Label(rssi) == "Faible"
  {
    assert "Haute" != "Faible" && "Moyenne" != "Faible" && "Haute" != "Moyenne";
  }
}
