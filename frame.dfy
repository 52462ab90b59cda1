/** Binary scan frame shared by the backend and the collector: one access
    point per 7-byte block (6 address bytes, then 1 two's-complement RSSI
    byte), addresses rendered as lowercase hex pairs joined by ':'. */
module Frame {

  type Byte = b: int | 0 <= b < 256

  /** One decoded access point: its formatted address and its RSSI in dBm. */
  datatype Observation = Observation(mac: string, rssi: int)

  /** The formatted all-zero address, which marks padding. */
  const ZeroMac: string := "00:00:00:00:00:00"

  // ---------------------------------------------------------------------
  // RSSI byte

  /** Two's-complement reading of the RSSI byte. */
  function Signed(b: Byte): (r: int)
    ensures -128 <= r <= 127
    ensures r % 256 == b
    ensures (r < 0) == (b >= 128)
  {
    if b < 128 then b else b - 256
  }

  /** The byte a device sends for an 8-bit signed RSSI. */
  function Encode(r: int): (b: Byte)
    requires -128 <= r <= 127
    ensures Signed(b) == r
  {
    r % 256
  }

  // ---------------------------------------------------------------------
  // Address formatting

  /** One lowercase hex digit. */
  function HexDigit(d: int): (c: char)
    requires 0 <= d < 16
    ensures '0' <= c <= '9' || 'a' <= c <= 'f'
  {
    if d < 10 then ('0' as int + d) as char else ('a' as int + d - 10) as char
  }

  predicate IsHexOrColon(c: char)
  {
    '0' <= c <= '9' || 'a' <= c <= 'f' || c == ':'
  }

  /** Two lowercase hex digits, as the source's two-digit hex format gives. */
  function Hex2(b: Byte): (s: string)
    ensures |s| == 2
    ensures IsHexOrColon(s[0]) && IsHexOrColon(s[1]) && s[0] != ':' && s[1] != ':'
  {
    [HexDigit(b / 16), HexDigit(b % 16)]
  }

  lemma Hex2Injective(a: Byte, b: Byte)
    requires Hex2(a) == Hex2(b)
    ensures a == b
  {
    assert HexDigit(a / 16) == Hex2(a)[0] == Hex2(b)[0] == HexDigit(b / 16);
    assert HexDigit(a % 16) == Hex2(a)[1] == Hex2(b)[1] == HexDigit(b % 16);
    assert a / 16 == b / 16 && a % 16 == b % 16;
  }

  /** The address bytes as hex pairs joined by ':'. */
  function HexJoin(bs: seq<Byte>): (s: string)
    ensures |bs| > 0 ==> |s| == 3 * |bs| - 1
    ensures |bs| == 0 ==> s == []
  {
    if |bs| == 0 then []
    else if |bs| == 1 then Hex2(bs[0])
    else Hex2(bs[0]) + ":" + HexJoin(bs[1..])
  }

  /** Formatting keeps the address: equal renderings come from equal bytes. */
  lemma {:induction false} HexJoinInjective(a: seq<Byte>, b: seq<Byte>)
    requires |a| == |b|
    requires HexJoin(a) == HexJoin(b)
    ensures a == b
  {
    if |a| == 0 {
    } else if |a| == 1 {
      assert Hex2(a[0]) == HexJoin(a) == HexJoin(b) == Hex2(b[0]);
      Hex2Injective(a[0], b[0]);
    } else {
      var sa, sb := HexJoin(a), HexJoin(b);
      assert Hex2(a[0]) == sa[..2] == sb[..2] == Hex2(b[0]);
      Hex2Injective(a[0], b[0]);
      assert HexJoin(a[1..]) == sa[3..] == sb[3..] == HexJoin(b[1..]);
      HexJoinInjective(a[1..], b[1..]);
      assert a == [a[0]] + a[1..];
      assert b == [b[0]] + b[1..];
    }
  }

  /** A rendered address consists only of lowercase hex digits and ':'. */
  lemma {:induction false} HexJoinAlphabet(bs: seq<Byte>)
    ensures forall i :: 0 <= i < |HexJoin(bs)| ==> IsHexOrColon(HexJoin(bs)[i])
  {
    if |bs| > 1 {
      HexJoinAlphabet(bs[1..]);
      var s := HexJoin(bs);
      forall i | 0 <= i < |s| ensures IsHexOrColon(s[i]) {
        if i >= 3 {
          assert s[i] == HexJoin(bs[1..])[i - 3];
        }
      }
    }
  }

  /** The six address bytes of a padding block. */
  const ZeroBytes: seq<Byte> := [0, 0, 0, 0, 0, 0]

  /** The string comparison the source uses to spot padding recognises
      exactly the all-zero address bytes. */
  lemma PaddingIffAllZero(macBytes: seq<Byte>)
    requires |macBytes| == 6
    ensures HexJoin(macBytes) == ZeroMac <==> macBytes == ZeroBytes
  {
    var zero := ZeroBytes;
    assert HexJoin(zero[5..]) == "00";
    assert HexJoin(zero[4..]) == "00:00";
    assert HexJoin(zero[3..]) == "00:00:00";
    assert HexJoin(zero[2..]) == "00:00:00:00";
    assert HexJoin(zero[1..]) == "00:00:00:00:00";
    assert HexJoin(zero) == ZeroMac;
    if HexJoin(macBytes) == ZeroMac {
      HexJoinInjective(macBytes, zero);
    }
  }

  // ---------------------------------------------------------------------
  // ASCII lower-casing used for MAC lookups

  function LowerChar(c: char): char
  {
    if 'A' <= c <= 'Z' then (c as int + 32) as char else c
  }

  /** Lower-case every ASCII letter of a string. */
  function Lower(s: string): (r: string)
    ensures |r| == |s|
    ensures forall i :: 0 <= i < |s| ==> r[i] == LowerChar(s[i])
  {
    seq(|s|, i requires 0 <= i < |s| => LowerChar(s[i]))
  }

  /** Lower-casing twice changes nothing more. */
  lemma LowerIdempotent(s: string)
    ensures Lower(Lower(s)) == Lower(s)
  {
  }

  /** A rendered address is already lower case, so the lookups that
      lower-case it find it unchanged. */
  lemma LowerOfMac(bs: seq<Byte>)
    ensures Lower(HexJoin(bs)) == HexJoin(bs)
  {
    HexJoinAlphabet(bs);
    var s := HexJoin(bs);
    forall i | 0 <= i < |s| ensures LowerChar(s[i]) == s[i] {
      assert IsHexOrColon(s[i]);
    }
  }

  // ---------------------------------------------------------------------
  // Blocks

  /** Address bytes of block i. */
  function MacBytes(buf: seq<Byte>, i: nat): (m: seq<Byte>)
    requires 7 * i + 7 <= |buf|
    ensures |m| == 6
  {
    buf[7 * i .. 7 * i + 6]
  }

  /** The observation block i carries (padding or not). */
  function BlockObservation(buf: seq<Byte>, i: nat): (o: Observation)
    requires 7 * i + 7 <= |buf|
    ensures |o.mac| == 17 && -128 <= o.rssi <= 127
  {
    Observation(HexJoin(MacBytes(buf, i)), Signed(buf[7 * i + 6]))
  }

  /** Block i is padding: its six address bytes are all zero. */
  predicate BlockIsPadding(buf: seq<Byte>, i: nat)
    requires 7 * i + 7 <= |buf|
  {
    buf[7 * i] == 0 && buf[7 * i + 1] == 0 && buf[7 * i + 2] == 0
    && buf[7 * i + 3] == 0 && buf[7 * i + 4] == 0 && buf[7 * i + 5] == 0
  }

  /** The observations of the first n blocks, in buffer order, padding dropped. */
  function Blocks(buf: seq<Byte>, n: nat): seq<Observation>
    requires 7 * n <= |buf|
  {
    if n == 0 then []
    else
      Blocks(buf, n - 1)
      + (if BlockIsPadding(buf, n - 1) then [] else [BlockObservation(buf, n - 1)])
  }

  /** Whole blocks in a buffer of length len: 7 * (len / 7) bytes, all of
      them when len is a multiple of 7. */
  lemma WholeBlocks(len: nat)
    ensures 7 * (len / 7) <= len
    ensures len % 7 == 0 ==> 7 * (len / 7) == len
  {
  }

  /** Decoding one more block appends that block's observation unless its
      rendered address is the padding address. */
  lemma BlocksStep(buf: seq<Byte>, i: nat)
    requires 7 * i + 7 <= |buf|
    ensures HexJoin(MacBytes(buf, i)) == ZeroMac ==> Blocks(buf, i + 1) == Blocks(buf, i)
    ensures HexJoin(MacBytes(buf, i)) != ZeroMac ==>
      Blocks(buf, i + 1) == Blocks(buf, i) + [Observation(HexJoin(MacBytes(buf, i)), Signed(buf[7 * i + 6]))]
  {
    var m := MacBytes(buf, i);
    PaddingIffAllZero(m);
    assert m == ZeroBytes <==> BlockIsPadding(buf, i) by {
      assert m[0] == buf[7 * i] && m[1] == buf[7 * i + 1] && m[2] == buf[7 * i + 2];
      assert m[3] == buf[7 * i + 3] && m[4] == buf[7 * i + 4] && m[5] == buf[7 * i + 5];
      if BlockIsPadding(buf, i) {
        assert m == ZeroBytes;
      }
    }
  }

  /** The block loop both decoders run: for each of the first numAps blocks,
      read the address bytes and the RSSI byte, format the address, and keep
      the entry unless the address is the padding address. */
  method DecodeBlocks(buf: seq<Byte>, numAps: nat) returns (aps: seq<Observation>)
    requires 7 * numAps <= |buf|
    ensures aps == Blocks(buf, numAps)
  {
    aps := [];
    var i := 0;
    while i < numAps
      invariant 0 <= i <= numAps
      invariant aps == Blocks(buf, i)
    {
      var offset := i * 7;
      var macBytes := buf[offset..offset + 6];
      var rssiByte: int := buf[offset + 6];
      var rssi: int := if rssiByte < 128 then rssiByte else rssiByte - 256;
      var mac := HexJoin(macBytes);
      BlocksStep(buf, i);
      assert offset == 7 * i && rssi == Signed(buf[7 * i + 6]);
      assert macBytes == MacBytes(buf, i);
      if mac != ZeroMac {
        aps := aps + [Observation(mac, rssi)];
      }
      i := i + 1;
    }
  }

  /** What a reported access point looks like: a 17-character address that
      is not the padding address and an RSSI in [-128, 127]. */
  predicate Reported(o: Observation)
  {
    |o.mac| == 17 && o.mac != ZeroMac && -128 <= o.rssi <= 127
  }

  /** At most one observation per block, each of them a reported access
      point. */
  lemma {:induction false} BlocksShape(buf: seq<Byte>, n: nat)
    requires 7 * n <= |buf|
    ensures |Blocks(buf, n)| <= n
    ensures forall k :: 0 <= k < |Blocks(buf, n)| ==> Reported(Blocks(buf, n)[k])
  {
    if n > 0 {
      BlocksShape(buf, n - 1);
      if !BlockIsPadding(buf, n - 1) {
        BlockReported(buf, n - 1);
      }
    }
  }

  /** A block that is not padding decodes to a reported access point. */
  lemma BlockReported(buf: seq<Byte>, i: nat)
    requires 7 * i + 7 <= |buf|
    requires !BlockIsPadding(buf, i)
    ensures Reported(BlockObservation(buf, i))
  {
    var m := MacBytes(buf, i);
    PaddingIffAllZero(m);
    assert m != ZeroBytes by {
      assert m[0] == buf[7 * i] && m[1] == buf[7 * i + 1] && m[2] == buf[7 * i + 2];
      assert m[3] == buf[7 * i + 3] && m[4] == buf[7 * i + 4] && m[5] == buf[7 * i + 5];
    }
  }

  /** Every decoded observation is the observation of some non-padding block. */
  lemma {:induction false} BlocksSound(buf: seq<Byte>, n: nat, o: Observation)
    requires 7 * n <= |buf|
    requires o in Blocks(buf, n)
    ensures exists i :: 0 <= i < n && !BlockIsPadding(buf, i) && o == BlockObservation(buf, i)
  {
    if o in Blocks(buf, n - 1) {
      BlocksSound(buf, n - 1, o);
      var i :| 0 <= i < n - 1 && !BlockIsPadding(buf, i) && o == BlockObservation(buf, i);
    } else {
      assert !BlockIsPadding(buf, n - 1) && o == BlockObservation(buf, n - 1);
    }
  }

  /** Every non-padding block among the first n is decoded. */
  lemma {:induction false} BlocksComplete(buf: seq<Byte>, n: nat, i: nat)
    requires 7 * n <= |buf|
    requires i < n && !BlockIsPadding(buf, i)
    ensures BlockObservation(buf, i) in Blocks(buf, n)
  {
    var tail := if BlockIsPadding(buf, n - 1) then [] else [BlockObservation(buf, n - 1)];
    assert Blocks(buf, n) == Blocks(buf, n - 1) + tail;
    if i < n - 1 {
      BlocksComplete(buf, n - 1, i);
    } else {
      assert tail == [BlockObservation(buf, i)];
    }
  }

  /** Without padding, block k decodes to the k-th observation exactly. */
  lemma {:induction false} BlocksWithoutPadding(buf: seq<Byte>, n: nat)
    requires 7 * n <= |buf|
    requires forall i :: 0 <= i < n ==> !BlockIsPadding(buf, i)
    ensures |Blocks(buf, n)| == n
    ensures forall k :: 0 <= k < n ==> Blocks(buf, n)[k] == BlockObservation(buf, k)
  {
    if n > 0 {
      BlocksWithoutPadding(buf, n - 1);
    }
  }

  /** Decoding n blocks reads only the first 7n bytes. */
  lemma {:induction false} BlocksPrefix(buf: seq<Byte>, n: nat, m: nat)
    requires 7 * n <= m <= |buf|
    ensures Blocks(buf[..m], n) == Blocks(buf, n)
  {
    if n > 0 {
      BlocksPrefix(buf, n - 1, m);
      assert MacBytes(buf[..m], n - 1) == MacBytes(buf, n - 1);
      assert buf[..m][7 * (n - 1) + 6] == buf[7 * (n - 1) + 6];
    }
  }
}
