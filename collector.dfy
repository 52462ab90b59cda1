/** The collection tool: it decodes the scans the device sends while an
    operator stands in a known room and appends one table row per scanned
    access point, tagged with the room and coordinates the operator set. */
module Collector {
  import opened Wrappers
  import opened Frame
  import BackendDecode

  // ---------------------------------------------------------------------
  // decode_payload of the collector

  /** The access points the collector reads from a frame: every whole
      block, trailing bytes past the last one ignored. */
  function FrameAps(buf: seq<Byte>): seq<Observation>
  {
    WholeBlocks(|buf|);
    Blocks(buf, |buf| / 7)
  }

  /** decode_payload of the collector. */
  method DecodePayload(buf: seq<Byte>) returns (aps: seq<Observation>)
    ensures aps == FrameAps(buf)
  {
    var numAps := |buf| / 7;
    WholeBlocks(|buf|);
    aps := DecodeBlocks(buf, numAps);
  }

  /** The collector's decoder reads a buffer as the backend reads its whole
      blocks: on a whole number of blocks the two agree, and otherwise the
      collector decodes what the backend would decode once the trailing
      bytes are dropped (the backend refuses the buffer as it is). */
  lemma TruncatedAgreesWithBackend(buf: seq<Byte>)
    ensures |buf| % 7 == 0 ==> FrameAps(buf) == BackendDecode.Decoded(Some(buf))
    ensures 7 * (|buf| / 7) <= |buf|
    ensures FrameAps(buf) == BackendDecode.Decoded(Some(buf[..7 * (|buf| / 7)]))
    ensures |buf| % 7 != 0 ==> BackendDecode.Decoded(Some(buf)) == []
  {
    var m := 7 * (|buf| / 7);
    WholeBlocks(|buf|);
    BlocksPrefix(buf, |buf| / 7, m);
    assert |buf[..m]| / 7 == |buf| / 7;
  }

  // ---------------------------------------------------------------------
  // The table and the collector's state

  /** A row of the fingerprints table as the collector writes it; the
      position columns hold whatever the current position is, possibly
      unset. */
  datatype Row = Row(room: Option<string>, floor: Option<string>, location: Option<string>,
                     lat: Option<real>, lon: Option<real>, mac: string, ssid: string,
                     rssi: int, timestamp: string)

  /** The rows one scan adds: one per access point, in scan order, all with
      the same position and timestamp and the SSID "Unknown". */
  function RowsFor(room: Option<string>, floor: Option<string>, location: Option<string>,
                   lat: Option<real>, lon: Option<real>, aps: seq<Observation>,
                   timestamp: string): seq<Row>
  {
    if |aps| == 0 then []
    else
      RowsFor(room, floor, location, lat, lon, aps[..|aps| - 1], timestamp)
      + [Row(room, floor, location, lat, lon, aps[|aps| - 1].mac, "Unknown", aps[|aps| - 1].rssi, timestamp)]
  }

  /** A scan adds exactly one row per access point, row k carrying access
      point k's MAC and RSSI with the shared position and timestamp. */
  lemma {:induction false} RowsForSpec(room: Option<string>, floor: Option<string>, location: Option<string>,
                                       lat: Option<real>, lon: Option<real>, aps: seq<Observation>,
                                       timestamp: string)
    ensures |RowsFor(room, floor, location, lat, lon, aps, timestamp)| == |aps|
    ensures forall k :: 0 <= k < |aps| ==>
      RowsFor(room, floor, location, lat, lon, aps, timestamp)[k]
      == Row(room, floor, location, lat, lon, aps[k].mac, "Unknown", aps[k].rssi, timestamp)
  {
    if |aps| > 0 {
      RowsForSpec(room, floor, location, lat, lon, aps[..|aps| - 1], timestamp);
    }
  }

  /** A message from the network server: unreadable JSON, a message that is
      not an uplink, or an uplink whose payload decodes to the given bytes
      (None when the payload is missing or is not Base64). */
  datatype Message = Unreadable | NoUplink | Uplink(frame: Option<seq<Byte>>)

  /** The collector's globals: the current position, the number of scans
      saved for it, and the fingerprints table it writes. */
  class Collector {
    var currentRoom: Option<string>
    var currentFloor: Option<string>
    var currentLocation: Option<string>
    var currentLat: Option<real>
    var currentLon: Option<real>
    var sampleCount: nat
    var table: seq<Row>

    /** The state at start-up: no position set and an existing table. */
    constructor (table0: seq<Row>)
      ensures currentRoom.None? && currentFloor.None? && currentLocation.None?
      ensures currentLat.None? && currentLon.None?
      ensures sampleCount == 0 && table == table0
    {
      currentRoom, currentFloor, currentLocation := None, None, None;
      currentLat, currentLon := None, None;
      sampleCount := 0;
      table := table0;
    }

    /** save_fingerprints: one row per access point with the current
        position, then one more scan counted. */
    method SaveFingerprints(aps: seq<Observation>, timestamp: string)
      modifies this
      ensures table == old(table) + RowsFor(currentRoom, currentFloor, currentLocation,
                                            currentLat, currentLon, aps, timestamp)
      ensures sampleCount == old(sampleCount) + 1
      ensures currentRoom == old(currentRoom) && currentFloor == old(currentFloor)
      ensures currentLocation == old(currentLocation)
      ensures currentLat == old(currentLat) && currentLon == old(currentLon)
    {
      var i := 0;
      while i < |aps|
        invariant 0 <= i <= |aps|
        invariant table == old(table) + RowsFor(currentRoom, currentFloor, currentLocation,
                                                currentLat, currentLon, aps[..i], timestamp)
        invariant sampleCount == old(sampleCount)
        invariant currentRoom == old(currentRoom) && currentFloor == old(currentFloor)
        invariant currentLocation == old(currentLocation)
        invariant currentLat == old(currentLat) && currentLon == old(currentLon)
      {
        assert aps[..i + 1][..i] == aps[..i];
        var ap := aps[i];
        table := table + [Row(currentRoom, currentFloor, currentLocation, currentLat, currentLon,
                              ap.mac, "Unknown", ap.rssi, timestamp)];
        i := i + 1;
      }
      assert aps[..|aps|] == aps;
      sampleCount := sampleCount + 1;
    }

    /** on_message: with a position set, an uplink whose payload decodes to
        at least one access point is saved; everything else changes
        nothing. */
    method OnMessage(msg: Message, timestamp: string)
      modifies this
      ensures currentRoom == old(currentRoom) && currentFloor == old(currentFloor)
      ensures currentLocation == old(currentLocation)
      ensures currentLat == old(currentLat) && currentLon == old(currentLon)
      ensures old(currentRoom).None? || !msg.Uplink? || msg.frame.None?
              || |FrameAps(msg.frame.value)| == 0 ==>
        table == old(table) && sampleCount == old(sampleCount)
      ensures old(currentRoom).Some? && msg.Uplink? && msg.frame.Some?
              && |FrameAps(msg.frame.value)| > 0 ==>
        table == old(table) + RowsFor(currentRoom, currentFloor, currentLocation, currentLat,
                                      currentLon, FrameAps(msg.frame.value), timestamp)
        && sampleCount == old(sampleCount) + 1
    {
      if currentRoom.None? {
        return;
      }
      if !msg.Uplink? || msg.frame.None? {
        return;
      }
      var aps := DecodePayload(msg.frame.value);
      if |aps| > 0 {
        SaveFingerprints(aps, timestamp);
      }
    }

    /** set_location with the operator's answers: the room and floor, and
        the latitude and longitude as parsed (None when the text is not a
        number). The room, floor and location are set first; a latitude
        that does not parse fails before anything else changes, a
        longitude that does not parse fails after the latitude is set, and
        only when both parse is the scan count reset. */
    method SetLocation(room: string, floor: string, lat: Option<real>, lon: Option<real>)
      returns (ok: bool)
      modifies this
      ensures currentRoom == Some(room) && currentFloor == Some(floor)
      ensures currentLocation == Some("Salle " + room)
      ensures table == old(table)
      ensures ok <==> lat.Some? && lon.Some?
      ensures currentLat == (if lat.Some? then lat else old(currentLat))
      ensures currentLon == (if lat.Some? && lon.Some? then lon else old(currentLon))
      ensures sampleCount == (if ok then 0 else old(sampleCount))
    {
      currentRoom := Some(room);
      currentFloor := Some(floor);
      currentLocation := Some("Salle " + room);
      if lat.None? {
        return false;
      }
      currentLat := lat;
      if lon.None? {
        return false;
      }
      currentLon := lon;
      sampleCount := 0;
      return true;
    }
  }
}
