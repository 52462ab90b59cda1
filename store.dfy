/** load_database: the backend's two global tables, the list of every
    fingerprint sample ever loaded and the access-point directory that maps
    a MAC to the averaged position of the first room that recorded it. */
module Store {
  import opened Wrappers
  import opened Frame
  import opened Zones

  /** A row of the fingerprints table, in column order. */
  datatype TableRow = TableRow(id: int, room: string, floor: string, location: string,
                               lat: real, lon: real, mac: string, ssid: string,
                               rssi: int, timestamp: string)

  /** An access-point directory entry. */
  datatype ApEntry = ApEntry(ssid: string, lat: real, lon: real,
                             location: string, floor: string, room: string)

  /** The sample kept for a row: the same columns, the MAC lower-cased. */
  function Normalize(row: TableRow): Sample
  {
    Sample(row.room, row.floor, row.location, row.lat, row.lon,
           Lower(row.mac), row.ssid, row.rssi, row.timestamp)
  }

  function NormalizeAll(rows: seq<TableRow>): (s: seq<Sample>)
    ensures |s| == |rows|
  {
    if |rows| == 0 then [] else NormalizeAll(rows[..|rows| - 1]) + [Normalize(rows[|rows| - 1])]
  }

  /** Row i becomes sample i. */
  lemma {:induction false} NormalizeAllAt(rows: seq<TableRow>, i: nat)
    requires i < |rows|
    ensures NormalizeAll(rows)[i] == Normalize(rows[i])
  {
    if i < |rows| - 1 {
      NormalizeAllAt(rows[..|rows| - 1], i);
    }
  }

  /** The directory entry a room gives each of its MACs: its mean position. */
  function RoomEntry(k: RoomKey, z: Zone): ApEntry
    requires |z.lats| > 0 && |z.lons| > 0
  {
    ApEntry("Unknown", Mean(z.lats), Mean(z.lons), z.location, k.floor, k.room)
  }

  /** The directory after offering entry e to every MAC of macs: a MAC that
      already has an entry keeps it. */
  function FillRoom(dir: map<string, ApEntry>, macs: seq<string>, e: ApEntry): map<string, ApEntry>
  {
    if |macs| == 0 then dir
    else
      var d := FillRoom(dir, macs[..|macs| - 1], e);
      var m := macs[|macs| - 1];
      if m in d then d else d[m := e]
  }

  /** Every listed room has a zone with at least one position. */
  predicate RoomsPositioned(g: Grouping)
  {
    forall i :: 0 <= i < |g.order| ==>
      g.order[i] in g.zones && |g.zones[g.order[i]].lats| > 0 && |g.zones[g.order[i]].lons| > 0
  }

  lemma GroupingPositioned(g: Grouping)
    requires GroupingOk(g)
    ensures RoomsPositioned(g)
  {
    forall i | 0 <= i < |g.order| ensures g.order[i] in g.zones && ZoneOk(g.zones[g.order[i]]) {
      assert g.order[i] in g.order;
    }
  }

  /** The directory after the first n rooms of the grouping. */
  function FillRooms(dir: map<string, ApEntry>, g: Grouping, n: nat): map<string, ApEntry>
    requires RoomsPositioned(g) && n <= |g.order|
  {
    if n == 0 then dir
    else
      var k := g.order[n - 1];
      FillRoom(FillRooms(dir, g, n - 1), g.zones[k].macs, RoomEntry(k, g.zones[k]))
  }

  /** The directory load_database leaves, starting from dir, once the
      samples are fps. */
  function Directory(dir: map<string, ApEntry>, fps: seq<Sample>): map<string, ApEntry>
  {
    GroupOk(fps);
    GroupingPositioned(Group(fps));
    var g := Group(fps);
    FillRooms(dir, g, |g.order|)
  }

  /** Every loaded sample's MAC has a directory entry (what a load leaves). */
  ghost predicate Covers(fps: seq<Sample>, dir: map<string, ApEntry>)
  {
    forall i :: 0 <= i < |fps| ==> fps[i].mac in dir
  }

  /** The backend's global tables: fingerprint_data and ap_database. */
  class ReferenceData {
    var fingerprints: seq<Sample>
    var apDirectory: map<string, ApEntry>

    /** Every loaded sample's MAC has a directory entry. */
    ghost predicate Valid()
      reads this
    {
      Covers(fingerprints, apDirectory)
    }

    constructor ()
      ensures fingerprints == [] && apDirectory == map[]
      ensures Valid()
    {
      fingerprints := [];
      apDirectory := map[];
    }

    /** load_database. table is what the fingerprints table reads as, or
        None when reading it fails (the error is caught and nothing
        changes). */
    method LoadDatabase(table: Option<seq<TableRow>>)
      modifies this
      ensures table.None? ==> fingerprints == old(fingerprints) && apDirectory == old(apDirectory)
      ensures table.Some? ==> fingerprints == old(fingerprints) + NormalizeAll(table.value)
      ensures table.Some? ==> apDirectory == Directory(old(apDirectory), fingerprints)
      ensures table.Some? || old(Valid()) ==> Valid()
    {
      if table.None? {
        return;
      }
      ghost var dir0 := apDirectory;
      AppendRows(table.value);
      var g := GroupSamples(fingerprints);
      GroupingPositioned(g);
      FillDirectory(g);
      DirectoryCovers(dir0, fingerprints);
    }

    /** The row loop of a load: the new rows are appended to the samples
        already loaded, never replacing them. */
    method AppendRows(rows: seq<TableRow>)
      modifies this
      ensures fingerprints == old(fingerprints) + NormalizeAll(rows)
      ensures apDirectory == old(apDirectory)
    {
      var i := 0;
      while i < |rows|
        invariant 0 <= i <= |rows|
        invariant fingerprints == old(fingerprints) + NormalizeAll(rows[..i])
        invariant apDirectory == old(apDirectory)
      {
        assert rows[..i + 1][..i] == rows[..i];
        fingerprints := fingerprints + [Normalize(rows[i])];
        i := i + 1;
      }
      assert rows[..|rows|] == rows;
    }

    /** The room loop of a load, over the rooms in order of first appearance. */
    method FillDirectory(g: Grouping)
      requires RoomsPositioned(g)
      modifies this
      ensures fingerprints == old(fingerprints)
      ensures apDirectory == FillRooms(old(apDirectory), g, |g.order|)
    {
      ghost var d0 := apDirectory;
      var r := 0;
      while r < |g.order|
        invariant 0 <= r <= |g.order|
        invariant fingerprints == old(fingerprints)
        invariant apDirectory == FillRooms(d0, g, r)
      {
        var k := g.order[r];
        OfferRoom(k, g.zones[k]);
        r := r + 1;
      }
    }

    /** One room of the directory fill: every MAC of the room that has no
        entry yet gets the room's mean position. */
    method OfferRoom(k: RoomKey, z: Zone)
      requires |z.lats| > 0 && |z.lons| > 0
      modifies this
      ensures fingerprints == old(fingerprints)
      ensures apDirectory == FillRoom(old(apDirectory), z.macs, RoomEntry(k, z))
    {
      var avgLat := Sum(z.lats) / |z.lats| as real;
      var avgLon := Sum(z.lons) / |z.lons| as real;
      var j := 0;
      while j < |z.macs|
        invariant 0 <= j <= |z.macs|
        invariant fingerprints == old(fingerprints)
        invariant apDirectory == FillRoom(old(apDirectory), z.macs[..j], RoomEntry(k, z))
      {
        assert z.macs[..j + 1][..j] == z.macs[..j];
        var mac := z.macs[j];
        if mac !in apDirectory {
          apDirectory := apDirectory[mac := ApEntry("Unknown", avgLat, avgLon, z.location, k.floor, k.room)];
        }
        j := j + 1;
      }
      assert z.macs[..|z.macs|] == z.macs;
    }
  }

  // ---------------------------------------------------------------------
  // Properties of the directory fill

  /** Offering an entry never overwrites; every offered MAC ends up present. */
  lemma {:induction false} FillRoomSpec(dir: map<string, ApEntry>, macs: seq<string>, e: ApEntry)
    ensures FillRoom(dir, macs, e).Keys == dir.Keys + set m | m in macs
    ensures forall m :: m in dir ==> FillRoom(dir, macs, e)[m] == dir[m]
    ensures forall m :: m in macs && m !in dir ==> FillRoom(dir, macs, e)[m] == e
  {
    if |macs| > 0 {
      var p := macs[..|macs| - 1];
      FillRoomSpec(dir, p, e);
      assert forall m :: m in macs <==> m in p || m == macs[|macs| - 1];
    }
  }

  /** An existing entry is never overwritten by the fill of the first n rooms. */
  lemma {:induction false} FillRoomsKeeps(dir: map<string, ApEntry>, g: Grouping, n: nat, m: string)
    requires GroupingOk(g) && n <= |g.order|
    requires m in dir
    ensures m in FillRooms(dir, g, n) && FillRooms(dir, g, n)[m] == dir[m]
  {
    if n > 0 {
      FillRoomsKeeps(dir, g, n - 1, m);
      var k := g.order[n - 1];
      FillRoomSpec(FillRooms(dir, g, n - 1), g.zones[k].macs, RoomEntry(k, g.zones[k]));
    }
  }

  /** A new MAC that none of the first n rooms recorded gets no entry. */
  lemma {:induction false} FillRoomsAbsent(dir: map<string, ApEntry>, g: Grouping, n: nat, m: string)
    requires GroupingOk(g) && n <= |g.order|
    requires m !in dir
    requires forall q :: 0 <= q < n ==> m !in g.zones[g.order[q]].rssiByMac
    ensures m !in FillRooms(dir, g, n)
  {
    if n > 0 {
      FillRoomsAbsent(dir, g, n - 1, m);
      var k := g.order[n - 1];
      FillRoomSpec(FillRooms(dir, g, n - 1), g.zones[k].macs, RoomEntry(k, g.zones[k]));
      assert ZoneOk(g.zones[k]);
    }
  }

  /** A new MAC gets the entry of the first room (among the first n) that
      recorded it. */
  lemma {:induction false} FillRoomsFirst(dir: map<string, ApEntry>, g: Grouping, n: nat, m: string, p: nat)
    requires GroupingOk(g) && p < n <= |g.order|
    requires m !in dir
    requires m in g.zones[g.order[p]].rssiByMac
    requires forall q :: 0 <= q < p ==> m !in g.zones[g.order[q]].rssiByMac
    ensures m in FillRooms(dir, g, n)
    ensures FillRooms(dir, g, n)[m] == RoomEntry(g.order[p], g.zones[g.order[p]])
  {
    var k := g.order[n - 1];
    var before := FillRooms(dir, g, n - 1);
    FillRoomSpec(before, g.zones[k].macs, RoomEntry(k, g.zones[k]));
    if p == n - 1 {
      FillRoomsAbsent(dir, g, n - 1, m);
      assert ZoneOk(g.zones[k]);
    } else {
      FillRoomsFirst(dir, g, n - 1, m, p);
    }
  }

  /** After a load, every loaded sample's MAC has a directory entry. */
  lemma DirectoryCovers(dir: map<string, ApEntry>, fps: seq<Sample>)
    ensures forall i :: 0 <= i < |fps| ==> fps[i].mac in Directory(dir, fps)
  {
    GroupOk(fps);
    var g := Group(fps);
    forall i | 0 <= i < |fps| ensures fps[i].mac in Directory(dir, fps) {
      var m := fps[i].mac;
      if m in dir {
        FillRoomsKeeps(dir, g, |g.order|, m);
      } else {
        var k := KeyOf(fps[i]);
        GroupRooms(fps, k);
        GroupMacs(fps, k, m);
        var p := FirstRoomWith(g, m, |g.order|);
        FillRoomsFirst(dir, g, |g.order|, m, p);
      }
    }
  }

  /** The index of the first of the first n rooms that recorded m. */
  function FirstRoomWith(g: Grouping, m: string, n: nat): (p: nat)
    requires GroupingOk(g) && n <= |g.order|
    requires exists q :: 0 <= q < n && m in g.zones[g.order[q]].rssiByMac
    ensures p < n && m in g.zones[g.order[p]].rssiByMac
    ensures forall q :: 0 <= q < p ==> m !in g.zones[g.order[q]].rssiByMac
  {
    if m in g.zones[g.order[n - 1]].rssiByMac
       && forall q :: 0 <= q < n - 1 ==> m !in g.zones[g.order[q]].rssiByMac
    then n - 1
    else FirstRoomWith(g, m, n - 1)
  }

  /** An entry already in the directory is never overwritten by a load. */
  lemma DirectoryKeeps(dir: map<string, ApEntry>, fps: seq<Sample>, m: string)
    requires m in dir
    ensures m in Directory(dir, fps) && Directory(dir, fps)[m] == dir[m]
  {
    GroupOk(fps);
    FillRoomsKeeps(dir, Group(fps), |Group(fps).order|, m);
  }

  /** A load adds entries only for the MACs of the samples. */
  lemma DirectoryAddsOnlySampleMacs(dir: map<string, ApEntry>, fps: seq<Sample>, m: string)
    requires m !in dir
    requires forall i :: 0 <= i < |fps| ==> fps[i].mac != m
    ensures m !in Directory(dir, fps)
  {
    GroupOk(fps);
    var g := Group(fps);
    forall q | 0 <= q < |g.order| ensures m !in g.zones[g.order[q]].rssiByMac {
      GroupMacs(fps, g.order[q], m);
    }
    FillRoomsAbsent(dir, g, |g.order|, m);
  }

  /** A MAC new to the directory is pinned to the first room (rooms taken in
      order of first appearance) whose samples contain it, with that room's
      mean sample latitude and longitude, its floor and its number. */
  lemma DirectoryPinsFirstRoom(dir: map<string, ApEntry>, fps: seq<Sample>, m: string, p: nat)
    requires m !in dir
    requires p < |Group(fps).order|
    requires exists i :: 0 <= i < |fps| && KeyOf(fps[i]) == Group(fps).order[p] && fps[i].mac == m
    requires forall q, i :: 0 <= q < p && 0 <= i < |fps| && KeyOf(fps[i]) == Group(fps).order[q]
               ==> fps[i].mac != m
    ensures m in Directory(dir, fps)
    ensures var k := Group(fps).order[p];
      && |LatsOf(fps, k)| > 0 && |LonsOf(fps, k)| > 0
      && Directory(dir, fps)[m].lat == Mean(LatsOf(fps, k))
      && Directory(dir, fps)[m].lon == Mean(LonsOf(fps, k))
      && Directory(dir, fps)[m].room == k.room
      && Directory(dir, fps)[m].floor == k.floor
  {
    GroupOk(fps);
    var g := Group(fps);
    var k := g.order[p];
    GroupMacs(fps, k, m);
    forall q | 0 <= q < p ensures m !in g.zones[g.order[q]].rssiByMac {
      GroupMacs(fps, g.order[q], m);
    }
    FillRoomsFirst(dir, g, |g.order|, m, p);
    GroupCoordinates(fps, k);
  }
}
