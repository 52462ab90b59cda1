# WiFi fingerprint positioning, modelled in Dafny

The system locates a device indoors from WiFi scans. A device reports each scan as a binary frame. Each frame is made of 7-byte blocks: 6 MAC bytes, then one signed RSSI byte.

There are two programs:

- The backend (`backend/main.py`) keeps a table of fingerprint samples. Each sample records a room, a floor, coordinates, a MAC and an RSSI. From that table it builds a directory of access points. It then answers a scan with a position, in this order of preference:
  1. the best-matching room (RSSI matching), when its confidence is above 0.3;
  2. otherwise a weighted centroid of the known access points, labelled with the room of the strongest one;
  3. otherwise an error.
- The collector (`tools/auto_collect_TTN.py`) fills the fingerprint table. An operator stands in a room and enters its number, floor and coordinates. Every scan that arrives is then appended as one row per access point.

Modules:

- `Frame` (frame.dfy): the frame format both decoders share.
  - The two's-complement RSSI byte.
  - The MAC rendered as lowercase hex pairs joined by `:`.
  - ASCII lower-casing.
  - The block loop, `DecodeBlocks`, proved against the block specification `Blocks`.
- `BackendDecode` (backend_decode.dfy): the backend's `decode_payload`. It refuses a length that is not a multiple of 7, and any failure gives the empty list.
- `Zones` (zones.dfy): groups samples by room.
  - This is the grouping that both `load_database` and `simple_rssi_matching` build.
  - Rooms keep the order in which they first appear, and so do each room's MACs.
  - Each room holds the RSSI lists per MAC and every sample's coordinates.
  - It also contains the room-key string `room_floor` and the split that reads it back.
- `Store` (store.dfy): the backend's globals `fingerprint_data` and `ap_database`, as class `ReferenceData`. Its method `LoadDatabase` appends the normalised rows and fills the directory. The directory fill is first-seen-wins.
- `Matcher` (matcher.dfy): `simple_rssi_matching`.
  - A room's score is the mean over its scanned MACs of `100 - |scanned - mean recorded RSSI|`.
  - The first room with the strictly best score wins.
  - The docstring's worked example is proved: room 201 beats room 203.
- `Fallback` (fallback.dfy): `triangulate`, a weighted centroid with an abstract positive weight, and `locate_room`, the strongest known access point.
- `Arbiter` (arbiter.dfy): `locate_position`.
- `Collector` (collector.dfy): the collector's decoder, which truncates instead of refusing. The collector's globals form class `Collector`, with `SaveFingerprints`, `OnMessage` and `SetLocation`.

Values are exact:

- Coordinates, means and scores are `real`.
- RSSIs are `int`.
- Bytes are integers in 0..255.
- The fingerprint table is a `seq` of rows.

## Model

| member | source | states |
|---|---|---|
| Frame.Signed | backend/main.py:215 | the RSSI byte read as two's complement: result in [-128, 127], congruent to the byte mod 256, negative exactly when the byte is at least 128 |
| Frame.Encode | tools/auto_collect_TTN.py:161-165 | every RSSI in [-128, 127] has a byte that `Signed` reads back as that RSSI (0xBF is -65) |
| Frame.Hex2Injective | backend/main.py:218 | two different bytes never render as the same two-digit hex pair |
| Frame.HexJoinInjective | backend/main.py:218 | address strings of the same length come from equal byte sequences exactly when the strings are equal: formatting loses nothing |
| Frame.HexJoinAlphabet | tools/auto_collect_TTN.py:167-169 | a rendered address holds only lowercase hex digits and ':' |
| Frame.PaddingIffAllZero | backend/main.py:220-222 | the string test against "00:00:00:00:00:00" holds exactly for six zero address bytes |
| Frame.LowerIdempotent | backend/main.py:86 | lower-casing a lower-cased MAC changes nothing |
| Frame.LowerOfMac | backend/main.py:376-377 | a decoded address is already lower case, so the lookups that lower-case it use it unchanged |
| Frame.DecodeBlocks | backend/main.py:205-222 | the block loop returns exactly `Blocks(buf, n)`: one entry per non-padding block, in buffer order |
| Frame.BlocksShape | backend/main.py:201-224 | at most one entry per block, each with a 17-character address other than the padding address and an RSSI in [-128, 127] |
| Frame.BlockReported | backend/main.py:215-222 | a block whose address bytes are not all zero yields such a reported entry |
| Frame.BlocksSound | backend/main.py:205-222 | every entry returned is the address and RSSI of some non-padding block |
| Frame.BlocksComplete | backend/main.py:205-222 | every non-padding block's entry is returned |
| Frame.BlocksWithoutPadding | backend/main.py:205-222 | with no padding blocks, entry k is exactly block k |
| Frame.BlocksPrefix | tools/auto_collect_TTN.py:148-152 | decoding n blocks reads only the first 7n bytes, so trailing bytes do not matter |
| BackendDecode.DecodePayload | backend/main.py:169-228 | a failed decode and a length that is not a multiple of 7 give []; otherwise the result is the decode of all blocks |
| BackendDecode.DecodedShape | backend/main.py:195-224 | at most len/7 entries, each a 17-character non-padding address with an RSSI in [-128, 127] |
| BackendDecode.DecodeRejectsPartialBlocks | backend/main.py:198-199 | any length that is not a multiple of 7 yields [] whatever the bytes |
| BackendDecode.MacExample | backend/main.py:173-177 | bytes 1E 92 9B E8 5C D9 render as 1e:92:9b:e8:5c:d9 |
| BackendDecode.DecodeOneBlockExample | backend/main.py:177-179 | the block 1E 92 9B E8 5C D9 BF decodes to (1e:92:9b:e8:5c:d9, -65) |
| BackendDecode.DecodeZeroBlockExample | backend/main.py:220-222 | a block of seven zero bytes is padding and yields nothing |
| Zones.SplitKey | backend/main.py:113 | the as-written unpacking of `room_key.split('_')` succeeds exactly when the key holds exactly one '_' |
| Zones.SplitJoinKey | backend/main.py:113 | the key `room_floor` splits back into (room, floor) exactly when neither contains '_'; otherwise the unpacking fails |
| Zones.SplitKeyRejectsUnderscore | backend/main.py:113 | as written, room "A_1" on floor "2" gives a key whose split has three pieces |
| Zones.SplitCount | backend/main.py:113 | splitting on '_' gives one more piece than the number of '_' |
| Zones.MeanBounds | backend/main.py:116-117 | a mean of coordinates lies between any lower and upper bound of them |
| Zones.GroupSamples | backend/main.py:295-301 | the grouping loop returns `Group(s)`, in which room keys are distinct and each has a zone, each zone's MACs are distinct with non-empty RSSI lists, and each zone has coordinates |
| Zones.GroupOk | backend/main.py:103-109 | the grouping of any samples satisfies those invariants |
| Zones.AddSampleOk | backend/main.py:104-109 | one sample's update preserves those invariants |
| Zones.GroupRooms | backend/main.py:104 | a room has a zone exactly when some sample carries its (room, floor) key |
| Zones.GroupCoordinates | backend/main.py:106-107 | a room's coordinate lists are its samples' latitudes and longitudes in sample order |
| Zones.GroupMacs | backend/main.py:296-297 | a MAC is listed for a room exactly when some sample of that room carries it |
| Zones.GroupRssis | backend/main.py:297 | a room's RSSI list for a MAC is the RSSIs of that room's samples with that MAC, in order |
| Zones.GroupLocation | backend/main.py:108 | a room's location label is that of its last sample |
| Zones.GroupOrderFirstSeen | backend/main.py:103-104 | rooms are listed in the order of their first sample |
| Store.NormalizeAllAt | backend/main.py:79-90 | loaded sample i is row i with its MAC lower-cased and every other column kept |
| Store.ReferenceData.constructor | backend/main.py:47-48 | start-up: no samples and an empty directory |
| Store.ReferenceData.LoadDatabase | backend/main.py:56-135 | a failed read changes nothing; otherwise every row is appended normalised after the samples already loaded, the directory becomes the first-seen-wins fill over all samples, and every loaded MAC has an entry |
| Store.ReferenceData.AppendRows | backend/main.py:79-90 | the samples grow by exactly the normalised rows, in order |
| Store.ReferenceData.FillDirectory | backend/main.py:112-129 | the room loop leaves the directory equal to `FillRooms` over all rooms |
| Store.ReferenceData.OfferRoom | backend/main.py:120-129 | one room's MACs are added with that room's entry, existing entries untouched |
| Store.FillRoomSpec | backend/main.py:120-121 | one room's fill adds exactly its MACs, never overwrites an entry, and gives every new MAC the room's entry |
| Store.FillRoomsKeeps | backend/main.py:121 | an entry present before the fill is still there, unchanged |
| Store.FillRoomsAbsent | backend/main.py:112-129 | a new MAC recorded by none of the rooms gets no entry |
| Store.FillRoomsFirst | backend/main.py:112-129 | a new MAC gets the entry of the first room that recorded it |
| Store.FirstRoomWith | backend/main.py:112-121 | the index it returns is a room that recorded the MAC, and no earlier room recorded it |
| Store.DirectoryCovers | backend/main.py:103-129 | after a load every loaded sample's MAC has an entry |
| Store.DirectoryKeeps | backend/main.py:121 | a load never overwrites an existing entry |
| Store.DirectoryAddsOnlySampleMacs | backend/main.py:120-129 | a load adds entries only for MACs of the samples |
| Store.DirectoryPinsFirstRoom | backend/main.py:103-129 | a new MAC's entry is that of the first room containing it: the mean of all that room's sample latitudes and longitudes, its room and its floor |
| Matcher.DetectedKeys | backend/main.py:305 | a MAC is in the scan dictionary exactly when some scanned MAC lower-cases to it |
| Matcher.DetectedLast | backend/main.py:305 | a MAC scanned twice keeps the RSSI of its last scan entry |
| Matcher.DetectedSpec | backend/main.py:305 | both of the above together |
| Matcher.DetectMacs | backend/main.py:305 | the comprehension returns the scan dictionary `Detected(aps)` |
| Matcher.Term | backend/main.py:316-322 | a MAC's term is at most 100, and equals 100 exactly when the scanned RSSI equals the room's mean |
| Matcher.ScoreRoom | backend/main.py:309-323 | the MAC loop's score and match count are the room's tally |
| Matcher.ZoneTallySpec | backend/main.py:313-323 | a room's match count is the number of its MACs present in the scan, and its total is at most 100 per match |
| Matcher.ZoneTallyMatches | backend/main.py:314 | a room matches at all exactly when one of its MACs was scanned |
| Matcher.ZoneTallyMonotone | backend/main.py:313-323 | moving scanned RSSIs no farther from the room's means keeps the match count and never lowers the total |
| Matcher.ScoreMonotone | backend/main.py:326-327 | moving scanned RSSIs no farther from the room's means never lowers the room's mean score |
| Matcher.PickRoom | backend/main.py:308-342 | the room loop returns the leader's match, or None when no room matched |
| Matcher.SimpleRssiMatching | backend/main.py:234-344 | the whole matcher returns `Matching(fps, aps)` |
| Matcher.LeaderNone | backend/main.py:326-344 | there is no leader exactly when no room has a match |
| Matcher.LeaderIsFirstBest | backend/main.py:330 | the leader is a matched room whose score is at least every matched room's and strictly above every earlier matched room's, so ties keep the first |
| Matcher.CandidateConfidence | backend/main.py:333-341 | a candidate's confidence is min(score/100, 1), equal to score/100, and at most 1, with at least one matched MAC |
| Matcher.LeaderConfidence | backend/main.py:340-341 | the same holds for the leader |
| Matcher.MatchingNoneIff | backend/main.py:305-344 | the matcher returns None exactly when no sample's MAC is among the lower-cased scanned MACs |
| Matcher.MatchingConfidence | backend/main.py:340-341 | a returned match has at least one matched MAC and a confidence of at most 1 |
| Matcher.WorkedExample | backend/main.py:255-279 | scanning aa:bb:cc at -65 and dd:ee:ff at -70 against rooms 201 and 203 returns room 201 with confidence 0.98 over 2 MACs |
| Fallback.Triangulate | backend/main.py:350-411 | the accumulation loop returns `Triangulation(dir, aps, w)` |
| Fallback.AccumulateSpec | backend/main.py:375-391 | the match count and the details count the scanned MACs found in the directory; with positive weights the weight sum is positive exactly when one was found |
| Fallback.AccumulateDetails | backend/main.py:394-399 | the details list the known scanned entries in scan order, with each entry's MAC as received, its directory SSID and its RSSI |
| Fallback.AccumulateBounds | backend/main.py:388-390 | per coordinate: the weighted latitude sum lies between latLo and latHi times the weight sum when every known latitude lies between them, and likewise the longitude sum with lonLo and lonHi |
| Fallback.TriangulationNoneIff | backend/main.py:402-411 | triangulate returns None exactly when no scanned MAC is in the directory; otherwise it reports how many were |
| Fallback.TriangulationWithinBounds | backend/main.py:402-406 | the centroid's latitude lies between the smallest and largest latitude of the known scanned access points, and its longitude between their smallest and largest longitude |
| Fallback.LocateRoom | backend/main.py:417-458 | the strongest-signal loop returns `RoomGuessOf(dir, aps)` |
| Fallback.StrongestNone | backend/main.py:428-438 | nothing is picked exactly when no known access point is stronger than -100, and then the best RSSI stays -100 |
| Fallback.StrongestIsFirst | backend/main.py:432-438 | the pick is the first known access point with the strictly greatest RSSI above -100 |
| Fallback.RoomGuessSpec | backend/main.py:440-458 | with no qualifying access point the answer is room "Unknown" with confidence "Aucune"; otherwise it is the room, floor and location of the pick, with its RSSI and label |
| Fallback.LabelBands | backend/main.py:442 | the label is "Haute" above -50, "Moyenne" above -70 and "Faible" otherwise |
| Arbiter.LocatePosition | backend/main.py:464-550 | the answer carries the call's timestamp; it is "No APs detected" exactly for an empty scan, any other failure is "Insufficient data"; a position comes from "RSSI Matching" only when the matcher succeeded with confidence above 0.3, and from "Triangulation" only when triangulate succeeded |
| Arbiter.FirstFive | backend/main.py:522 | the details are the scan's first five entries, or the whole scan when shorter |
| Arbiter.LocateSucceedsIff | backend/main.py:498-550 | an empty scan fails with "No APs detected"; with a directory covering the samples, a position is given exactly when some scanned MAC is known, and every other failure is "Insufficient data" |
| Arbiter.MatcherAnswer | backend/main.py:511-524 | a matcher answer carries the matched room's fields, a confidence above 30 and at most 100 percent, at least one match, and at most the first five scan entries |
| Arbiter.CentroidAnswer | backend/main.py:527-540 | a centroid answer comes only when the matcher failed or was at most 0.3 confident; its position is the centroid's, its room that of the strongest known access point, and its confidence is min(matched/3*100, 100), which is 100 exactly from 3 matches |
| Collector.DecodePayload | tools/auto_collect_TTN.py:111-175 | decodes the len/7 whole blocks and ignores the bytes after them |
| Collector.TruncatedAgreesWithBackend | tools/auto_collect_TTN.py:145-175 | on a multiple of 7 bytes it returns what the backend decoder returns; otherwise it returns the backend's decode of the whole blocks, where the backend returns [] |
| Collector.RowsForSpec | tools/auto_collect_TTN.py:222-234 | one scan adds exactly one row per access point. Row k carries the current position, entry k's MAC and RSSI, SSID "Unknown" and the shared timestamp |
| Collector.Collector.constructor | tools/auto_collect_TTN.py:47-53 | start-up: no position set, a count of 0, and the existing table |
| Collector.Collector.SaveFingerprints | tools/auto_collect_TTN.py:181-240 | the table grows by exactly those rows, the count grows by 1, and the position is unchanged |
| Collector.Collector.OnMessage | tools/auto_collect_TTN.py:252-305 | without a position, or for a non-uplink, an unreadable payload or an empty decode, nothing changes; otherwise the decoded scan is saved |
| Collector.Collector.SetLocation | tools/auto_collect_TTN.py:338-416 | room, floor and "Salle <room>" are always set. A bad latitude fails with the coordinates untouched; a bad longitude fails after the latitude is set. Only when both parse is the count reset to 0 and true returned |

## Left out

- Base64 decoding (RFC 4648, section 4) is a library call. The decoders start from bytes: `Option<seq<Byte>>` in the backend, where None is a failed decode, and `Message.Uplink(frame)` in the collector.
- SQLite is not modelled. The table read becomes `Option<seq<TableRow>>`, where None is a failed read, and the collector's table is a `seq<Row>` that only grows.
  - The autoincrement id and NULL columns are not modelled.
  - A database error in the middle of `save_fingerprints` is not modelled, so no rows are ever left half-inserted.
- FastAPI routes, WebSockets, the MQTT client and its JSON parsing are not modelled. The message's JSON is reduced to the `Message` datatype: unreadable, not an uplink, or an uplink whose payload decoded or did not.
- `rssi_to_distance` and `2 / distance**0.65` use floating-point `pow`. They are replaced by a weight function `w` that must be strictly positive (`PositiveWeight`).
  - Fallback.Triangulate: the centroid's value depends on `w`, but the proved properties use only that every weight is positive. How the weight depends on RSSI (a stronger signal gives a larger weight, backend/main.py:381-385) is not modelled.
  - The details' `distance` string is left out for the same reason.
- Floating point is not modelled: coordinates, means and scores are exact reals, so Python's rounding in sums and divisions is not reproduced.
- Timestamps (`datetime.now()`) are parameters. `print` output is left out, including the collector's progress messages and `target_samples`.
- `input()`, `strip()` and `float()` in the collector are not modelled. `SetLocation` receives the room and floor text and the coordinates already parsed, with None where `float()` raises.
- Lower-casing is modelled for ASCII letters only, which covers hex MAC strings.
- Store.ReferenceData.LoadDatabase: groups samples by the (room, floor) pair, so it fills the directory over all rooms. As written, a room or floor containing '_' makes the split at backend/main.py:113 raise ValueError, and the except at backend/main.py:134-135 leaves the directory filled only for earlier rooms. That behaviour is not modelled; see the Findings row.
- Matcher.SimpleRssiMatching: also groups by the (room, floor) pair. As written, the split at backend/main.py:332 raises ValueError when a room whose name or floor contains '_' becomes the leader. That behaviour is not modelled; see the Findings row.
- Arbiter.LocatePosition keeps the confidence as a real percentage instead of the `.0f` text. Its Failed answers have no `success` field, because the constructor already says it.
- Python `set` iteration order in `load_database` is replaced by the order in which MACs first appear. Every MAC of a room receives the same entry, so the result is the same.
- Concurrency is not modelled. The MQTT thread can run `on_message` while `set_location` is half done. It could then save rows that carry the new room with old coordinates; this interleaving is not modelled.
- The interactive main loop of the collector, `init_db`, `on_connect`, and the reporting scripts under tools/ are not part of this model.

## Findings

| source | as written | input that shows it | evidently intended | confidence | as-written member | corrected member |
|---|---|---|---|---|---|---|
| backend/main.py:104-113 | rooms are keyed by the string `f"{room}_{floor}"`, and the key is read back with `room, floor = room_key.split('_')` | room "A_1" on floor "2": the key "A_1_2" splits into three pieces and the unpacking raises. In `load_database` this abandons the directory fill part-way; in `simple_rssi_matching` it raises out of the matcher. Rooms ("A_1", "2") and ("A", "1_2") also share one key and are merged | group by the (room, floor) pair, so any room and floor name works and distinct rooms stay distinct | not executed | Zones.SplitKeyRejectsUnderscore | Zones.GroupRooms |
