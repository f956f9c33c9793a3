/**
 * The client-side laserbeacon proxy (client_libs/c++/laserbeaconproxy.cc):
 * decoding a beacon list sent in network byte order into a fixed array,
 * and reading and writing the beacon detector's configuration.
 *
 * The structure layouts and codes live in player.h, which is not part of
 * this model.  The layouts below are packed: a beacon is id (1 byte),
 * range, bearing and orient (2 bytes each); the data message is a 2-byte
 * count and PLAYER_MAX_LASERBEACONS beacons; the configuration is
 * subtype and bit_count (1 byte each) then bit_size, zero_thresh and
 * one_thresh (2 bytes each).  The server side (client->Request) is the
 * class PlayerClient, which records each request and hands back the
 * result it is given.
 */
module Laserbeacon {
  import opened Wire

  const PLAYER_LASERBEACON_CODE: u16 := 13
  const PLAYER_LASERBEACON_SET_CONFIG: byte := 1
  const PLAYER_LASERBEACON_GET_CONFIG: byte := 2
  const PLAYER_MAX_LASERBEACONS: nat := 32

  const ITEM_SIZE: nat := 7
  /** sizeof(player_laserbeacon_data_t) */
  const DATA_SIZE: nat := 2 + ITEM_SIZE * PLAYER_MAX_LASERBEACONS
  /** sizeof(player_laserbeacon_config_t) */
  const CONFIG_SIZE: nat := 8

  /** One decoded beacon, in host form. */
  datatype Beacon = Beacon(id: byte, range: u16, bearing: i16, orient: i16)

  /** What bzero leaves in a beacon slot. */
  const NO_BEACON := Beacon(0, 0, 0, 0)

  // ------------------------------------------------------------ beacon list codec

  /** A beacon as the server puts it on the wire. */
  function EncodeItem(b: Beacon): (raw: seq<byte>)
    ensures |raw| == ITEM_SIZE
  {
    [b.id] + Htons(b.range) + Htons(AsUShort(b.bearing)) + Htons(AsUShort(b.orient))
  }

  /** One FillData iteration's reading of a wire beacon: id raw, range by
      ntohs, bearing and orient by ntohs then a (short) cast. */
  function DecodeItem(raw: seq<byte>): Beacon
    requires |raw| == ITEM_SIZE
  {
    Beacon(raw[0], Ntohs(raw[1..3]), AsShort(Ntohs(raw[3..5])), AsShort(Ntohs(raw[5..7])))
  }

  lemma ItemRoundTrip(b: Beacon)
    ensures DecodeItem(EncodeItem(b)) == b
  {
    var raw := EncodeItem(b);
    assert raw[1..3] == Htons(b.range);
    assert raw[3..5] == Htons(AsUShort(b.bearing));
    assert raw[5..7] == Htons(AsUShort(b.orient));
    NtohsHtons(b.range);
    NtohsHtons(AsUShort(b.bearing));
    NtohsHtons(AsUShort(b.orient));
    ShortRoundTrip(b.bearing);
    ShortRoundTrip(b.orient);
  }

  function EncodeItems(items: seq<Beacon>): (raw: seq<byte>)
    ensures |raw| == ITEM_SIZE * |items|
  {
    if items == [] then [] else EncodeItem(items[0]) + EncodeItems(items[1..])
  }

  lemma {:induction false} EncodeItemsAt(items: seq<Beacon>, i: nat)
    requires i < |items|
    ensures EncodeItems(items)[ITEM_SIZE * i..ITEM_SIZE * i + ITEM_SIZE] == EncodeItem(items[i])
  {
    if i > 0 {
      EncodeItemsAt(items[1..], i - 1);
      var rest := EncodeItems(items[1..]);
      assert EncodeItems(items)[ITEM_SIZE * i..ITEM_SIZE * i + ITEM_SIZE]
          == rest[ITEM_SIZE * (i - 1)..ITEM_SIZE * (i - 1) + ITEM_SIZE];
    }
  }

  /** A data message holding `count` and the given beacon slots. */
  function EncodeData(count: u16, items: seq<Beacon>): (raw: seq<byte>)
    requires |items| == PLAYER_MAX_LASERBEACONS
    ensures |raw| == DATA_SIZE
  {
    Htons(count) + EncodeItems(items)
  }

  /** The count field of a data message. */
  function WireCount(buffer: seq<byte>): u16
    requires |buffer| >= DATA_SIZE
  {
    Ntohs(buffer[0..2])
  }

  /** Beacon `i` of a data message, as FillData reads it. */
  function ItemAt(buffer: seq<byte>, i: nat): Beacon
    requires |buffer| >= DATA_SIZE && i < PLAYER_MAX_LASERBEACONS
  {
    DecodeItem(buffer[2 + ITEM_SIZE * i..2 + ITEM_SIZE * i + ITEM_SIZE])
  }

  /** ItemAt, field by field at the beacon's offset. */
  lemma ItemAtFields(buffer: seq<byte>, i: nat)
    requires |buffer| >= DATA_SIZE && i < PLAYER_MAX_LASERBEACONS
    ensures var off := 2 + ITEM_SIZE * i;
      ItemAt(buffer, i) == Beacon(buffer[off], Ntohs(buffer[off + 1..off + 3]),
                                  AsShort(Ntohs(buffer[off + 3..off + 5])), AsShort(Ntohs(buffer[off + 5..off + 7])))
  {
    var off := 2 + ITEM_SIZE * i;
    var raw := buffer[off..off + ITEM_SIZE];
    assert forall k :: 0 <= k < ITEM_SIZE ==> raw[k] == buffer[off + k];
    assert raw[1..3] == buffer[off + 1..off + 3];
    assert raw[3..5] == buffer[off + 3..off + 5];
    assert raw[5..7] == buffer[off + 5..off + 7];
  }

  /** Slot `i` after FillData: the wire beacon below the count (and the
      array size), an all-zero beacon otherwise. */
  function SlotAfterFill(buffer: seq<byte>, i: nat): Beacon
    requires |buffer| >= DATA_SIZE && i < PLAYER_MAX_LASERBEACONS
  {
    if i < WireCount(buffer) then ItemAt(buffer, i) else NO_BEACON
  }

  /** Decoding an encoded message gives back the count, and the beacons
      below it; the slots past it come out zero. */
  lemma DataRoundTrip(count: u16, items: seq<Beacon>)
    requires |items| == PLAYER_MAX_LASERBEACONS
    ensures WireCount(EncodeData(count, items)) == count
    ensures forall i :: 0 <= i < PLAYER_MAX_LASERBEACONS ==>
      SlotAfterFill(EncodeData(count, items), i) == if i < count then items[i] else NO_BEACON
  {
    var buffer := EncodeData(count, items);
    assert buffer[0..2] == Htons(count);
    NtohsHtons(count);
    forall i | 0 <= i < PLAYER_MAX_LASERBEACONS
      ensures ItemAt(buffer, i) == items[i]
    {
      EncodeItemsAt(items, i);
      assert buffer[2 + ITEM_SIZE * i..2 + ITEM_SIZE * i + ITEM_SIZE]
          == EncodeItems(items)[ITEM_SIZE * i..ITEM_SIZE * i + ITEM_SIZE];
      ItemRoundTrip(items[i]);
    }
  }

  // ------------------------------------------------------------ configuration codec

  /** The four configuration fields the proxy keeps. */
  datatype Config = Config(bitCount: byte, bitSize: u16, zeroThresh: u16, oneThresh: u16)

  /** A player_laserbeacon_config_t with the 16-bit fields in htons form. */
  function EncodeConfig(subtype: byte, c: Config): (raw: seq<byte>)
    ensures |raw| == CONFIG_SIZE && raw[0] == subtype
  {
    [subtype, c.bitCount] + Htons(c.bitSize) + Htons(c.zeroThresh) + Htons(c.oneThresh)
  }

  /** What GetConfig reads out of a reply: bit_count raw, the rest by ntohs. */
  function DecodeConfig(raw: seq<byte>): Config
    requires |raw| == CONFIG_SIZE
  {
    Config(raw[1], Ntohs(raw[2..4]), Ntohs(raw[4..6]), Ntohs(raw[6..8]))
  }

  lemma ConfigRoundTrip(subtype: byte, c: Config)
    ensures DecodeConfig(EncodeConfig(subtype, c)) == c
  {
    var raw := EncodeConfig(subtype, c);
    assert raw[2..4] == Htons(c.bitSize);
    assert raw[4..6] == Htons(c.zeroThresh);
    assert raw[6..8] == Htons(c.oneThresh);
    NtohsHtons(c.bitSize);
    NtohsHtons(c.zeroThresh);
    NtohsHtons(c.oneThresh);
  }

  /** The other direction: a reply is determined by its subtype and the
      fields decoded from it. */
  lemma ConfigBytesRoundTrip(raw: seq<byte>)
    requires |raw| == CONFIG_SIZE
    ensures EncodeConfig(raw[0], DecodeConfig(raw)) == raw
  {
    HtonsNtohs(raw[2..4]);
    HtonsNtohs(raw[4..6]);
    HtonsNtohs(raw[6..8]);
    assert raw == [raw[0], raw[1]] + raw[2..4] + raw[4..6] + raw[6..8];
  }

  // ------------------------------------------------------------ the client connection

  /** One request the proxy sent: device code, index and payload. */
  datatype Request = Request(device: u16, index: u16, payload: seq<byte>)

  class PlayerClient {
    var requests: seq<Request>

    constructor ()
      ensures requests == []
    {
      requests := [];
    }

    /** client->Request: sends the payload; `result` is what the server's
        answer makes it return. */
    method Send(device: u16, index: u16, payload: seq<byte>, result: int) returns (r: int)
      modifies this
      ensures r == result && requests == old(requests) + [Request(device, index, payload)]
    {
      requests := requests + [Request(device, index, payload)];
      r := result;
    }
  }

  /** The request GetConfig sends: just the GET_CONFIG subtype byte. */
  function GetConfigRequest(index: u16): Request
  {
    Request(PLAYER_LASERBEACON_CODE, index, [PLAYER_LASERBEACON_GET_CONFIG])
  }

  /** The request SetBits and SetThresh send. */
  function SetConfigRequest(index: u16, c: Config): Request
  {
    Request(PLAYER_LASERBEACON_CODE, index, EncodeConfig(PLAYER_LASERBEACON_SET_CONFIG, c))
  }

  // ------------------------------------------------------------ the proxy

  class LaserbeaconProxy {
    const client: PlayerClient?
    const index: u16
    var count: u16
    const beacons: array<Beacon>
    var bitCount: byte
    var bitSize: u16
    var zeroThresh: u16
    var oneThresh: u16
    /** How often FillData warned about a size mismatch. */
    ghost var sizeWarnings: nat

    ghost predicate Valid()
      reads this
    {
      beacons.Length == PLAYER_MAX_LASERBEACONS
    }

    function CurrentConfig(): Config
      reads this
    {
      Config(bitCount, bitSize, zeroThresh, oneThresh)
    }

    constructor (client: PlayerClient?, index: u16)
      ensures Valid() && fresh(beacons)
      ensures this.client == client && this.index == index && count == 0 && sizeWarnings == 0
      ensures forall i :: 0 <= i < beacons.Length ==> beacons[i] == NO_BEACON
    {
      this.client := client;
      this.index := index;
      count := 0;
      beacons := new Beacon[PLAYER_MAX_LASERBEACONS](_ => NO_BEACON);
      sizeWarnings := 0;
    }

    /** FillData: the count comes from the wire; every slot is cleared,
        then the slots below the count (and the array size) are decoded.
        A header size other than sizeof the data only warns. */
    method FillData(hdrSize: u32, buffer: seq<byte>)
      requires Valid() && |buffer| >= DATA_SIZE
      modifies this`count, this`sizeWarnings, beacons
      ensures count == WireCount(buffer)
      ensures forall i :: 0 <= i < PLAYER_MAX_LASERBEACONS ==> beacons[i] == SlotAfterFill(buffer, i)
      ensures sizeWarnings == old(sizeWarnings) + (if hdrSize != DATA_SIZE then 1 else 0)
    {
      if hdrSize != DATA_SIZE {
        sizeWarnings := sizeWarnings + 1;
      }
      count := Ntohs(buffer[0..2]);
      ClearBeacons();
      DecodeBeacons(buffer);
    }

    /** bzero(beacons, sizeof(beacons)) */
    method ClearBeacons()
      requires Valid()
      modifies beacons
      ensures forall j :: 0 <= j < PLAYER_MAX_LASERBEACONS ==> beacons[j] == NO_BEACON
    {
      for i := 0 to PLAYER_MAX_LASERBEACONS
        invariant forall j :: 0 <= j < i ==> beacons[j] == NO_BEACON
      {
        beacons[i] := NO_BEACON;
      }
    }

    /** FillData's decoding loop, run over cleared slots. */
    method DecodeBeacons(buffer: seq<byte>)
      requires Valid() && |buffer| >= DATA_SIZE && count == WireCount(buffer)
      requires forall j :: 0 <= j < PLAYER_MAX_LASERBEACONS ==> beacons[j] == NO_BEACON
      modifies beacons
      ensures forall i :: 0 <= i < PLAYER_MAX_LASERBEACONS ==> beacons[i] == SlotAfterFill(buffer, i)
    {
      var i := 0;
      while i < count && i < PLAYER_MAX_LASERBEACONS
        invariant 0 <= i <= PLAYER_MAX_LASERBEACONS
        invariant i <= count
        invariant forall j :: 0 <= j < i ==> beacons[j] == ItemAt(buffer, j)
        invariant forall j :: i <= j < PLAYER_MAX_LASERBEACONS ==> beacons[j] == NO_BEACON
        decreases PLAYER_MAX_LASERBEACONS - i
      {
        var off := 2 + ITEM_SIZE * i;
        ItemAtFields(buffer, i);
        beacons[i] := Beacon(buffer[off], Ntohs(buffer[off + 1..off + 3]),
                             AsShort(Ntohs(buffer[off + 3..off + 5])), AsShort(Ntohs(buffer[off + 5..off + 7])));
        i := i + 1;
      }
    }

    /** GetConfig: asks for the configuration; on failure (a negative
        result) leaves the fields alone, otherwise decodes the reply. */
    method GetConfig(result: int, reply: seq<byte>) returns (r: int)
      requires client != null && |reply| == CONFIG_SIZE
      modifies this`bitCount, this`bitSize, this`zeroThresh, this`oneThresh, client
      ensures client.requests == old(client.requests) + [GetConfigRequest(index)]
      ensures result < 0 ==> r == -1 && CurrentConfig() == old(CurrentConfig())
      ensures result >= 0 ==> r == 0 && CurrentConfig() == DecodeConfig(reply)
    {
      var sent := client.Send(PLAYER_LASERBEACON_CODE, index, [PLAYER_LASERBEACON_GET_CONFIG], result);
      if sent < 0 {
        return -1;
      }
      bitCount := reply[1];
      bitSize := Ntohs(reply[2..4]);
      zeroThresh := Ntohs(reply[4..6]);
      oneThresh := Ntohs(reply[6..8]);
      return 0;
    }

    /** SetBits: with no client, or when reading the configuration fails,
        -1 and nothing sent; otherwise the new bit fields go out with the
        thresholds just read, and the answer to that request is returned. */
    method SetBits(tmpBitCount: byte, tmpBitSize: u16, getResult: int, getReply: seq<byte>, setResult: int)
      returns (r: int)
      requires |getReply| == CONFIG_SIZE
      modifies this`bitCount, this`bitSize, this`zeroThresh, this`oneThresh, client
      ensures client == null ==> r == -1 && CurrentConfig() == old(CurrentConfig())
      ensures client != null && getResult < 0 ==>
        r == -1 && CurrentConfig() == old(CurrentConfig()) &&
        client.requests == old(client.requests) + [GetConfigRequest(index)]
      ensures client != null && getResult >= 0 ==>
        var read := DecodeConfig(getReply);
        r == setResult && CurrentConfig() == read &&
        client.requests == old(client.requests) +
          [GetConfigRequest(index), SetConfigRequest(index, read.(bitCount := tmpBitCount, bitSize := tmpBitSize))]
    {
      if client == null {
        return -1;
      }
      var got := GetConfig(getResult, getReply);
      if got < 0 {
        return -1;
      }
      var config := [PLAYER_LASERBEACON_SET_CONFIG, tmpBitCount] + Htons(tmpBitSize) + Htons(zeroThresh) + Htons(oneThresh);
      r := client.Send(PLAYER_LASERBEACON_CODE, index, config, setResult);
    }

    /** SetThresh: the same, sending the new thresholds with the bit
        fields just read. */
    method SetThresh(tmpZeroThresh: u16, tmpOneThresh: u16, getResult: int, getReply: seq<byte>, setResult: int)
      returns (r: int)
      requires |getReply| == CONFIG_SIZE
      modifies this`bitCount, this`bitSize, this`zeroThresh, this`oneThresh, client
      ensures client == null ==> r == -1 && CurrentConfig() == old(CurrentConfig())
      ensures client != null && getResult < 0 ==>
        r == -1 && CurrentConfig() == old(CurrentConfig()) &&
        client.requests == old(client.requests) + [GetConfigRequest(index)]
      ensures client != null && getResult >= 0 ==>
        var read := DecodeConfig(getReply);
        r == setResult && CurrentConfig() == read &&
        client.requests == old(client.requests) +
          [GetConfigRequest(index), SetConfigRequest(index, read.(zeroThresh := tmpZeroThresh, oneThresh := tmpOneThresh))]
    {
      if client == null {
        return -1;
      }
      var got := GetConfig(getResult, getReply);
      if got < 0 {
        return -1;
      }
      var config := [PLAYER_LASERBEACON_SET_CONFIG, bitCount] + Htons(bitSize) + Htons(tmpZeroThresh) + Htons(tmpOneThresh);
      r := client.Send(PLAYER_LASERBEACON_CODE, index, config, setResult);
    }
  }

  /** What SetBits sends decodes, on the server side, to exactly the new
      bit fields and the thresholds that were read. */
  lemma SetBitsSendsWhatItMeans(index: u16, read: Config, tmpBitCount: byte, tmpBitSize: u16)
    ensures var c := DecodeConfig(SetConfigRequest(index, read.(bitCount := tmpBitCount, bitSize := tmpBitSize)).payload);
      c.bitCount == tmpBitCount && c.bitSize == tmpBitSize &&
      c.zeroThresh == read.zeroThresh && c.oneThresh == read.oneThresh
  {
    ConfigRoundTrip(PLAYER_LASERBEACON_SET_CONFIG, read.(bitCount := tmpBitCount, bitSize := tmpBitSize));
  }
}
