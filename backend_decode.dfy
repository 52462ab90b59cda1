/** The backend's frame decoder: it refuses any buffer whose length is not
    a whole number of 7-byte blocks, and turns every failure into "no
    access points" instead of raising. */
module BackendDecode {
  import opened Wrappers
  import opened Frame

  /** The list the backend's decoder yields for the result of Base64
      decoding; None stands for a payload Base64 decoding rejected. */
  function Decoded(payload: Option<seq<Byte>>): seq<Observation>
  {
    match payload
    case None => []
    case Some(buf) => if |buf| % 7 != 0 then [] else Blocks(buf, |buf| / 7)
  }

  /** decode_payload: refuses a partial block, then decodes every block. */
  method DecodePayload(payload: Option<seq<Byte>>) returns (aps: seq<Observation>)
    ensures payload.None? ==> aps == []
    ensures payload.Some? && |payload.value| % 7 != 0 ==> aps == []
    ensures payload.Some? && |payload.value| % 7 == 0 ==>
      aps == Blocks(payload.value, |payload.value| / 7)
    ensures aps == Decoded(payload)
  {
    if payload.None? {
      return [];
    }
    var buf := payload.value;
    if |buf| % 7 != 0 {
      return [];
    }
    var numAps := |buf| / 7;
    WholeBlocks(|buf|);
    aps := DecodeBlocks(buf, numAps);
  }

  /** The decoder's output: at most one entry per block, real addresses
      only, each RSSI within the signed-byte range. */
  lemma DecodedShape(payload: Option<seq<Byte>>)
    ensures payload.Some? ==> |Decoded(payload)| <= |payload.value| / 7
    ensures forall k :: 0 <= k < |Decoded(payload)| ==> Reported(Decoded(payload)[k])
  {
    if payload.Some? && |payload.value| % 7 == 0 {
      BlocksShape(payload.value, |payload.value| / 7);
    }
  }

  lemma HexPairsExample()
    ensures Hex2(0x1E) == "1e" && Hex2(0x92) == "92" && Hex2(0x9B) == "9b"
    ensures Hex2(0xE8) == "e8" && Hex2(0x5C) == "5c" && Hex2(0xD9) == "d9"
  {
    assert Hex2(0x1E) == "1e";
    assert Hex2(0x92) == "92";
    assert Hex2(0x9B) == "9b";
    assert Hex2(0xE8) == "e8";
    assert Hex2(0x5C) == "5c";
  }

  /** The last four address bytes 9B E8 5C D9 render as 9b:e8:5c:d9. */
  lemma MacTailExample()
    ensures HexJoin([0x9B, 0xE8, 0x5C, 0xD9]) == "9b:e8:5c:d9"
  {
    var m: seq<Byte> := [0x9B, 0xE8, 0x5C, 0xD9];
    HexPairsExample();
    assert HexJoin(m[3..]) == "d9";
    assert HexJoin(m[2..]) == "5c:d9";
    assert HexJoin(m[1..]) == "e8:5c:d9";
  }

  /** The last five address bytes 92 9B E8 5C D9 render as 92:9b:e8:5c:d9. */
  lemma MacFiveExample()
    ensures HexJoin([0x92, 0x9B, 0xE8, 0x5C, 0xD9]) == "92:9b:e8:5c:d9"
  {
    var m: seq<Byte> := [0x92, 0x9B, 0xE8, 0x5C, 0xD9];
    HexPairsExample();
    MacTailExample();
    assert m[1..] == [0x9B, 0xE8, 0x5C, 0xD9];
  }

  /** The address bytes 1E 92 9B E8 5C D9 render as 1e:92:9b:e8:5c:d9. */
  lemma MacExample()
    ensures HexJoin([0x1E, 0x92, 0x9B, 0xE8, 0x5C, 0xD9]) == "1e:92:9b:e8:5c:d9"
  {
    var m: seq<Byte> := [0x1E, 0x92, 0x9B, 0xE8, 0x5C, 0xD9];
    HexPairsExample();
    MacFiveExample();
    assert m[1..] == [0x92, 0x9B, 0xE8, 0x5C, 0xD9];
  }

  /** The single block 1E 92 9B E8 5C D9 BF is access point
      1e:92:9b:e8:5c:d9 heard at -65 dBm. */
  lemma DecodeOneBlockExample()
    ensures Decoded(Some([0x1E, 0x92, 0x9B, 0xE8, 0x5C, 0xD9, 0xBF]))
         == [Observation("1e:92:9b:e8:5c:d9", -65)]
  {
    var buf: seq<Byte> := [0x1E, 0x92, 0x9B, 0xE8, 0x5C, 0xD9, 0xBF];
    assert buf[0..6] == [0x1E, 0x92, 0x9B, 0xE8, 0x5C, 0xD9];
    MacExample();
    BlocksStep(buf, 0);
  }

  /** A block of seven zero bytes is padding and yields nothing. */
  lemma DecodeZeroBlockExample()
    ensures Decoded(Some([0, 0, 0, 0, 0, 0, 0])) == []
  {
    var buf: seq<Byte> := [0, 0, 0, 0, 0, 0, 0];
    assert BlockIsPadding(buf, 0);
  }

  /** Any length that is not a multiple of 7 yields nothing, whatever the bytes. */
  lemma DecodeRejectsPartialBlocks(buf: seq<Byte>)
    requires |buf| % 7 != 0
    ensures Decoded(Some(buf)) == []
  {
  }
}
