/** Grouping of fingerprint samples by room, as both load_database and
    simple_rssi_matching build it: one entry per room key in order of the
    key's first appearance, each holding the RSSI lists per MAC (MACs in
    order of first appearance), every sample's coordinates, and the
    location label of the room's last sample. */
module Zones {
  import opened Wrappers

  /** One fingerprint sample as the backend keeps it (MAC lower-cased). */
  datatype Sample = Sample(room: string, floor: string, location: string,
                           lat: real, lon: real, mac: string, ssid: string,
                           rssi: int, timestamp: string)

  /** A room key: the room and the floor it is on. */
  datatype RoomKey = RoomKey(room: string, floor: string)

  function KeyOf(fp: Sample): RoomKey
  {
    RoomKey(fp.room, fp.floor)
  }

  datatype Zone = Zone(macs: seq<string>, rssiByMac: map<string, seq<int>>,
                       lats: seq<real>, lons: seq<real>, location: string)

  datatype Grouping = Grouping(order: seq<RoomKey>, zones: map<RoomKey, Zone>)

  /** What a room's default entry starts as. */
  const EmptyZone := Zone([], map[], [], [], "")

  // ---------------------------------------------------------------------
  // The room key as a string, and splitting it back

  /** The source's key string f"{room}_{floor}". */
  function JoinKey(k: RoomKey): string
  {
    k.room + "_" + k.floor
  }

  /** str.split with one separator character: the pieces between separators,
      empty pieces included. */
  function Split(s: string, sep: char): (parts: seq<string>)
    ensures |parts| >= 1
  {
    if |s| == 0 then [""]
    else
      var rest := Split(s[1..], sep);
      if s[0] == sep then [""] + rest else [[s[0]] + rest[0]] + rest[1..]
  }

  function Count(s: string, c: char): nat
  {
    if |s| == 0 then 0 else (if s[0] == c then 1 else 0) + Count(s[1..], c)
  }

  /** Splitting yields one more piece than there are separators. */
  lemma {:induction false} SplitCount(s: string, sep: char)
    ensures |Split(s, sep)| == Count(s, sep) + 1
  {
    if |s| > 0 {
      SplitCount(s[1..], sep);
    }
  }

  /** Splitting a string free of the separator, joined to another piece by
      the separator, gives back the first piece then the split of the rest. */
  lemma {:induction false} SplitJoined(a: string, b: string, sep: char)
    requires Count(a, sep) == 0
    ensures Split(a + [sep] + b, sep) == [a] + Split(b, sep)
  {
    if |a| > 0 {
      assert (a + [sep] + b)[1..] == a[1..] + [sep] + b;
      SplitJoined(a[1..], b, sep);
      assert [a[0]] + a[1..] == a;
    } else {
      assert a + [sep] + b == [sep] + b;
    }
  }

  /** A string free of the separator splits into itself. */
  lemma {:induction false} SplitNoSeparator(s: string, sep: char)
    requires Count(s, sep) == 0
    ensures Split(s, sep) == [s]
  {
    if |s| > 0 {
      SplitNoSeparator(s[1..], sep);
      assert [s[0]] + s[1..] == s;
    }
  }

  /** room, floor = key.split('_'): None where the tuple unpacking raises
      because the key does not split into exactly two pieces, which is
      whenever it does not hold exactly one '_'. */
  function SplitKey(key: string): (r: Option<RoomKey>)
    ensures r.Some? <==> Count(key, '_') == 1
  {
    SplitCount(key, '_');
    var parts := Split(key, '_');
    if |parts| == 2 then Some(RoomKey(parts[0], parts[1])) else None
  }

  /** Joining and splitting round-trips exactly when neither the room nor
      the floor contains '_'; otherwise the split raises. */
  lemma SplitJoinKey(k: RoomKey)
    ensures SplitKey(JoinKey(k)) == Some(k) <==> Count(k.room, '_') == 0 && Count(k.floor, '_') == 0
    ensures SplitKey(JoinKey(k)).None? <==> !(Count(k.room, '_') == 0 && Count(k.floor, '_') == 0)
  {
    var key := JoinKey(k);
    SplitCount(key, '_');
    CountAppend(k.room + "_", k.floor, '_');
    CountAppend(k.room, "_", '_');
    assert Count("_", '_') == 1;
    if Count(k.room, '_') == 0 && Count(k.floor, '_') == 0 {
      SplitJoined(k.room, k.floor, '_');
      SplitNoSeparator(k.floor, '_');
    }
  }

  lemma {:induction false} CountAppend(a: string, b: string, c: char)
    ensures Count(a + b, c) == Count(a, c) + Count(b, c)
  {
    if |a| > 0 {
      assert (a + b)[1..] == a[1..] + b;
      CountAppend(a[1..], b, c);
    } else {
      assert a + b == b;
    }
  }

  /** As written, a room named "A_1" on floor "2" gives the key "A_1_2",
      whose split has three pieces: the unpacking raises ValueError. */
  lemma SplitKeyRejectsUnderscore()
    ensures SplitKey(JoinKey(RoomKey("A_1", "2"))).None?
  {
    SplitJoinKey(RoomKey("A_1", "2"));
    assert Count("A_1", '_') == 1 by {
      assert "A_1"[1..] == "_1";
      assert "_1"[1..] == "1";
      assert "1"[1..] == "";
    }
  }

  // ---------------------------------------------------------------------
  // Means

  function Sum(xs: seq<real>): real
  {
    if |xs| == 0 then 0.0 else Sum(xs[..|xs| - 1]) + xs[|xs| - 1]
  }

  function SumInt(xs: seq<int>): int
  {
    if |xs| == 0 then 0 else SumInt(xs[..|xs| - 1]) + xs[|xs| - 1]
  }

  /** sum(xs) / len(xs). */
  function Mean(xs: seq<real>): real
    requires |xs| > 0
  {
    Sum(xs) / |xs| as real
  }

  /** sum(xs) / len(xs) over integer RSSIs. */
  function MeanInt(xs: seq<int>): real
    requires |xs| > 0
  {
    SumInt(xs) as real / |xs| as real
  }

  /** The mean lies between the least and the greatest value. */
  lemma {:induction false} SumBounds(xs: seq<real>, lo: real, hi: real)
    requires forall i :: 0 <= i < |xs| ==> lo <= xs[i] <= hi
    ensures |xs| as real * lo <= Sum(xs) <= |xs| as real * hi
  {
    if |xs| > 0 {
      SumBounds(xs[..|xs| - 1], lo, hi);
    }
  }

  lemma MeanBounds(xs: seq<real>, lo: real, hi: real)
    requires |xs| > 0
    requires forall i :: 0 <= i < |xs| ==> lo <= xs[i] <= hi
    ensures lo <= Mean(xs) <= hi
  {
    SumBounds(xs, lo, hi);
    var n := |xs| as real;
    assert n * lo <= Sum(xs) <= n * hi;
    assert lo == (n * lo) / n && hi == (n * hi) / n;
  }

  // ---------------------------------------------------------------------
  // The grouping

  /** The effect of one sample on the grouping (the defaultdict updates). */
  function AddSample(g: Grouping, fp: Sample): Grouping
  {
    var k := KeyOf(fp);
    var z := if k in g.zones then g.zones[k] else EmptyZone;
    var known := fp.mac in z.rssiByMac;
    var rssis := if known then z.rssiByMac[fp.mac] else [];
    var z' := Zone(if known then z.macs else z.macs + [fp.mac],
                   z.rssiByMac[fp.mac := rssis + [fp.rssi]],
                   z.lats + [fp.lat], z.lons + [fp.lon], fp.location);
    Grouping(if k in g.zones then g.order else g.order + [k], g.zones[k := z'])
  }

  /** The grouping of a sequence of samples. */
  function Group(s: seq<Sample>): Grouping
  {
    if |s| == 0 then Grouping([], map[]) else AddSample(Group(s[..|s| - 1]), s[|s| - 1])
  }

  /** The grouping loop: one pass over the samples. */
  method GroupSamples(s: seq<Sample>) returns (g: Grouping)
    ensures g == Group(s)
    ensures GroupingOk(g)
  {
    var order: seq<RoomKey> := [];
    var zones: map<RoomKey, Zone> := map[];
    var i := 0;
    while i < |s|
      invariant 0 <= i <= |s|
      invariant Grouping(order, zones) == Group(s[..i])
    {
      var fp := s[i];
      var k := KeyOf(fp);
      assert s[..i + 1][..i] == s[..i];
      assert Group(s[..i + 1]) == AddSample(Group(s[..i]), fp);
      var z := if k in zones then zones[k] else EmptyZone;
      if k !in zones {
        order := order + [k];
      }
      var known := fp.mac in z.rssiByMac;
      var rssis := if known then z.rssiByMac[fp.mac] else [];
      var macs := if known then z.macs else z.macs + [fp.mac];
      zones := zones[k := Zone(macs, z.rssiByMac[fp.mac := rssis + [fp.rssi]],
                               z.lats + [fp.lat], z.lons + [fp.lon], fp.location)];
      i := i + 1;
    }
    assert s[..|s|] == s;
    g := Grouping(order, zones);
    GroupOk(s);
  }

  ghost predicate ZoneOk(z: Zone)
  {
    && (forall a, b :: 0 <= a < b < |z.macs| ==> z.macs[a] != z.macs[b])
    && (forall m :: m in z.rssiByMac <==> m in z.macs)
    && (forall m :: m in z.rssiByMac ==> |z.rssiByMac[m]| > 0)
    && |z.lats| == |z.lons| > 0
  }

  /** Room keys are distinct and exactly those with a zone; each zone has
      distinct MACs, one non-empty RSSI list per MAC and at least one
      coordinate pair. */
  ghost predicate GroupingOk(g: Grouping)
  {
    && (forall a, b :: 0 <= a < b < |g.order| ==> g.order[a] != g.order[b])
    && (forall k :: k in g.zones <==> k in g.order)
    && (forall k :: k in g.zones ==> ZoneOk(g.zones[k]))
  }

  lemma AddSampleOk(g: Grouping, fp: Sample)
    requires GroupingOk(g)
    ensures GroupingOk(AddSample(g, fp))
  {
    var k := KeyOf(fp);
    var g' := AddSample(g, fp);
    var z := if k in g.zones then g.zones[k] else EmptyZone;
    var z' := g'.zones[k];
    assert ZoneOk(z') by {
      if fp.mac !in z.rssiByMac {
        assert fp.mac !in z.macs;
      }
    }
  }

  lemma {:induction false} GroupOk(s: seq<Sample>)
    ensures GroupingOk(Group(s))
  {
    if |s| > 0 {
      GroupOk(s[..|s| - 1]);
      AddSampleOk(Group(s[..|s| - 1]), s[|s| - 1]);
    }
  }

  /** A room has a zone exactly when some sample carries its key. */
  lemma {:induction false} GroupRooms(s: seq<Sample>, k: RoomKey)
    ensures k in Group(s).zones <==> exists i :: 0 <= i < |s| && KeyOf(s[i]) == k
  {
    if |s| > 0 {
      var p := s[..|s| - 1];
      GroupRooms(p, k);
      if k in Group(p).zones {
        var i :| 0 <= i < |p| && KeyOf(p[i]) == k;
        assert s[i] == p[i];
      }
      if exists i :: 0 <= i < |s| && KeyOf(s[i]) == k {
        var i :| 0 <= i < |s| && KeyOf(s[i]) == k;
        if i < |p| {
          assert p[i] == s[i];
        }
      }
    }
  }

  /** The latitudes of the samples of room k, in sample order. */
  function LatsOf(s: seq<Sample>, k: RoomKey): seq<real>
  {
    if |s| == 0 then []
    else LatsOf(s[..|s| - 1], k) + (if KeyOf(s[|s| - 1]) == k then [s[|s| - 1].lat] else [])
  }

  /** The longitudes of the samples of room k, in sample order. */
  function LonsOf(s: seq<Sample>, k: RoomKey): seq<real>
  {
    if |s| == 0 then []
    else LonsOf(s[..|s| - 1], k) + (if KeyOf(s[|s| - 1]) == k then [s[|s| - 1].lon] else [])
  }

  /** The RSSIs recorded for MAC mac in room k, in sample order. */
  function RssisOf(s: seq<Sample>, k: RoomKey, mac: string): seq<int>
  {
    if |s| == 0 then []
    else
      RssisOf(s[..|s| - 1], k, mac)
      + (if KeyOf(s[|s| - 1]) == k && s[|s| - 1].mac == mac then [s[|s| - 1].rssi] else [])
  }

  /** A room's coordinate lists are exactly its samples' coordinates. */
  lemma {:induction false} GroupCoordinates(s: seq<Sample>, k: RoomKey)
    requires k in Group(s).zones
    ensures Group(s).zones[k].lats == LatsOf(s, k)
    ensures Group(s).zones[k].lons == LonsOf(s, k)
  {
    var p := s[..|s| - 1];
    if k in Group(p).zones {
      GroupCoordinates(p, k);
    } else {
      GroupRooms(p, k);
      LatsOfAbsent(p, k);
    }
  }

  lemma {:induction false} LatsOfAbsent(s: seq<Sample>, k: RoomKey)
    requires forall i :: 0 <= i < |s| ==> KeyOf(s[i]) != k
    ensures LatsOf(s, k) == [] && LonsOf(s, k) == []
  {
    if |s| > 0 {
      LatsOfAbsent(s[..|s| - 1], k);
    }
  }

  /** A room records a MAC exactly when one of its samples has it. */
  lemma {:induction false} GroupMacs(s: seq<Sample>, k: RoomKey, mac: string)
    requires k in Group(s).zones
    ensures mac in Group(s).zones[k].rssiByMac <==>
      exists i :: 0 <= i < |s| && KeyOf(s[i]) == k && s[i].mac == mac
  {
    var p := s[..|s| - 1];
    if k in Group(p).zones {
      GroupMacs(p, k, mac);
    }
    if exists i :: 0 <= i < |p| && KeyOf(p[i]) == k && p[i].mac == mac {
      var i :| 0 <= i < |p| && KeyOf(p[i]) == k && p[i].mac == mac;
      assert s[i] == p[i];
      GroupRooms(p, k);
    }
    if exists i :: 0 <= i < |s| && KeyOf(s[i]) == k && s[i].mac == mac {
      var i :| 0 <= i < |s| && KeyOf(s[i]) == k && s[i].mac == mac;
      if i < |p| {
        assert p[i] == s[i];
        GroupRooms(p, k);
      }
    }
  }

  /** A recorded MAC's RSSI list is every RSSI recorded for it in that room,
      in sample order. */
  lemma {:induction false} GroupRssis(s: seq<Sample>, k: RoomKey, mac: string)
    requires k in Group(s).zones && mac in Group(s).zones[k].rssiByMac
    ensures Group(s).zones[k].rssiByMac[mac] == RssisOf(s, k, mac)
  {
    var p := s[..|s| - 1];
    if k in Group(p).zones && mac in Group(p).zones[k].rssiByMac {
      GroupRssis(p, k, mac);
    } else {
      if k in Group(p).zones {
        GroupMacs(p, k, mac);
      } else {
        GroupRooms(p, k);
      }
      RssisOfAbsent(p, k, mac);
    }
  }

  lemma {:induction false} RssisOfAbsent(s: seq<Sample>, k: RoomKey, mac: string)
    requires forall i :: 0 <= i < |s| ==> !(KeyOf(s[i]) == k && s[i].mac == mac)
    ensures RssisOf(s, k, mac) == []
  {
    if |s| > 0 {
      RssisOfAbsent(s[..|s| - 1], k, mac);
    }
  }

  /** A room's location label is that of its last sample. */
  lemma {:induction false} GroupLocation(s: seq<Sample>, k: RoomKey)
    requires k in Group(s).zones
    ensures exists i :: (0 <= i < |s| && KeyOf(s[i]) == k
      && Group(s).zones[k].location == s[i].location
      && forall j :: i < j < |s| ==> KeyOf(s[j]) != k)
  {
    var p := s[..|s| - 1];
    if KeyOf(s[|s| - 1]) != k {
      GroupLocation(p, k);
      var i :| 0 <= i < |p| && KeyOf(p[i]) == k
        && Group(p).zones[k].location == p[i].location
        && forall j :: i < j < |p| ==> KeyOf(p[j]) != k;
      assert s[i] == p[i];
      assert forall j :: i < j < |s| ==> KeyOf(s[j]) != k by {
        forall j | i < j < |s| ensures KeyOf(s[j]) != k {
          if j < |p| {
            assert s[j] == p[j];
          }
        }
      }
    }
  }

  /** Rooms are listed in order of first appearance: a room listed before
      another has a sample that comes before every sample of the other. */
  lemma {:induction false} GroupOrderFirstSeen(s: seq<Sample>, a: nat, b: nat)
    requires a < b < |Group(s).order|
    ensures exists i :: (0 <= i < |s| && KeyOf(s[i]) == Group(s).order[a]
      && forall j :: 0 <= j <= i ==> KeyOf(s[j]) != Group(s).order[b])
  {
    var p := s[..|s| - 1];
    var g, gp := Group(s), Group(p);
    GroupOk(p);
    if b < |gp.order| {
      GroupOrderFirstSeen(p, a, b);
      var i :| 0 <= i < |p| && KeyOf(p[i]) == gp.order[a]
        && forall j :: 0 <= j <= i ==> KeyOf(p[j]) != gp.order[b];
      assert s[i] == p[i];
      forall j | 0 <= j <= i ensures KeyOf(s[j]) != g.order[b] {
        assert s[j] == p[j];
      }
    } else {
      var newKey := g.order[b];
      assert newKey !in gp.zones;
      GroupRooms(p, newKey);
      GroupRooms(p, gp.order[a]);
      var i :| 0 <= i < |p| && KeyOf(p[i]) == gp.order[a];
      assert s[i] == p[i];
      forall j | 0 <= j <= i ensures KeyOf(s[j]) != newKey {
        assert s[j] == p[j];
      }
    }
  }
}
