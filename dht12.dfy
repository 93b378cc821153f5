/**
 * The DHT12 temperature and humidity reader: one combined transfer (a
 * two-byte write selecting register 0, then a five-byte read), accepted
 * only when the bridge reports success and the fifth byte is the low byte
 * of the sum of the first four.
 */
module Dht12 {
  import opened Wrappers
  import opened Bus

  /** The sensor's 7-bit I2C address. */
  const SensorAddress := 0x5C

  /** Bytes read back: humidity (integral, tenths), temperature (integral, tenths), checksum. */
  const ReadLength := 5

  /** write_buffer: the address byte for a write, then register 0. */
  function Request(): (f: seq<bv8>)
    ensures |f| == 2 && f[1] == 0x00
  {
    [AddressByte(SensorAddress), 0x00]
  }

  /** `0x5C << 1` is 0xB8 on the wire: address 0x5C, R/W bit 0. */
  lemma RequestBytes()
    ensures Request()[0] as int == 0xB8
    ensures Request()[0] as int / 2 == SensorAddress && Request()[0] as int % 2 == 0
  {
    assert AddressValue(SensorAddress) == 0xB8;
    ToByteSmall(0xB8);
  }

  /** A value a `c_ubyte` cell can hold. */
  predicate IsByte(v: int)
  {
    0 <= v < 256
  }

  /** The read buffer as Python sees it: five `c_ubyte` cells, read out as ints. */
  predicate IsBuffer(data: seq<int>)
  {
    |data| == ReadLength && forall i :: 0 <= i < |data| ==> IsByte(data[i])
  }

  /** The four fields read_dht12 hands back: hum1, hum2, temp1, temp2. */
  datatype Reading = Reading(hum1: int, hum2: int, temp1: int, temp2: int)

  predicate ValidReading(r: Reading)
  {
    IsByte(r.hum1) && IsByte(r.hum2) && IsByte(r.temp1) && IsByte(r.temp2)
  }

  /**
   * `(b0 + b1 + b2 + b3) & 0xFF`: the sum is a non-negative Python int, so
   * masking with 0xFF keeps its remainder modulo 256.
   */
  function Checksum(b0: int, b1: int, b2: int, b3: int): (c: int)
    ensures IsByte(c)
    ensures 0 <= b0 + b1 + b2 + b3 < 256 ==> c == b0 + b1 + b2 + b3
  {
    (b0 + b1 + b2 + b3) % 256
  }

  /**
   * read_dht12's verdict on the transfer: the four data bytes when the
   * bridge reported success and the checksum matches, nothing otherwise
   * (never some fields without the others).
   */
  function Decode(result: bool, data: seq<int>): (r: Option<Reading>)
    requires |data| == ReadLength
    ensures r.Some? <==> result && Checksum(data[0], data[1], data[2], data[3]) == data[4]
    ensures r.Some? ==> r.value == Reading(data[0], data[1], data[2], data[3])
  {
    if !result then None
    else if Checksum(data[0], data[1], data[2], data[3]) == data[4] then
      Some(Reading(data[0], data[1], data[2], data[3]))
    else None
  }

  /** The five bytes a sensor sends for a reading: the four fields and their checksum. */
  function Encode(r: Reading): (data: seq<int>)
    ensures |data| == ReadLength && data[..4] == [r.hum1, r.hum2, r.temp1, r.temp2]
    ensures ValidReading(r) ==> IsBuffer(data)
  {
    [r.hum1, r.hum2, r.temp1, r.temp2, Checksum(r.hum1, r.hum2, r.temp1, r.temp2)]
  }

  /** What a well-behaved sensor sends over a successful transfer is read back unchanged. */
  lemma DecodeEncoded(r: Reading)
    ensures Decode(true, Encode(r)) == Some(r)
  {
    var data := Encode(r);
    assert data[0] == r.hum1 && data[1] == r.hum2 && data[2] == r.temp1 && data[3] == r.temp2;
  }

  /** Every accepted transfer is the encoding of the reading it yields, and that reading is bytes. */
  lemma AcceptedIsEncoded(data: seq<int>)
    requires IsBuffer(data) && Decode(true, data).Some?
    ensures Encode(Decode(true, data).value) == data
    ensures ValidReading(Decode(true, data).value)
  {
    assert IsByte(data[0]) && IsByte(data[1]) && IsByte(data[2]) && IsByte(data[3]);
  }

  /** A failed transfer yields nothing, whatever the buffer holds. */
  lemma FailureYieldsNothing(data: seq<int>)
    requires |data| == ReadLength
    ensures Decode(false, data) == None
  {
  }

  /** Moving a sum by a non-zero amount smaller than 256 moves its remainder. */
  lemma ShiftedSum(s: int, t: int)
    requires 0 < t - s < 256 || 0 < s - t < 256
    ensures s % 256 != t % 256
  {
    assert t == 256 * (t / 256) + t % 256 && s == 256 * (s / 256) + s % 256;
    if s % 256 == t % 256 {
      assert false;
    }
  }

  /**
   * The checksum catches every single corrupted byte: a valid frame with
   * exactly one byte replaced by another byte value is rejected.
   */
  lemma OneByteCaught(r: Reading, i: int, b: int)
    requires ValidReading(r) && IsByte(b)
    requires 0 <= i < ReadLength && b != Encode(r)[i]
    ensures Decode(true, Encode(r)[i := b]) == None
  {
    var good := Encode(r);
    var bad := good[i := b];
    var s := good[0] + good[1] + good[2] + good[3];
    var t := bad[0] + bad[1] + bad[2] + bad[3];
    if i < 4 {
      assert t - s == b - good[i];
      ShiftedSum(s, t);
      assert bad[4] == s % 256;
    } else {
      assert bad[4] != Checksum(bad[0], bad[1], bad[2], bad[3]);
    }
  }

  /** USBI2C: the bridge handle and the transfers made through it. */
  class Usb {
    /** CH347OpenDevice's result; -1 means the bridge could not be opened. */
    var handle: int
    /** How many times CH347CloseDevice has been called. */
    var closes: nat
    const devIndex: int
    const bus: I2CBus

    /** The object exists only for an opened bridge: __init__ raises otherwise. */
    predicate Valid()
      reads this
    {
      handle != -1
    }

    /** __init__ with open_device, for a handle CH347OpenDevice did not refuse. */
    constructor (devIndex: int, handle: int, bus: I2CBus)
      requires handle != -1
      ensures Valid() && this.devIndex == devIndex && this.handle == handle && this.bus == bus
      ensures closes == 0
    {
      this.devIndex := devIndex;
      this.handle := handle;
      this.bus := bus;
      closes := 0;
    }

    /** close_device: the bridge is closed only when it was opened. */
    method CloseDevice()
      modifies this
      ensures handle == old(handle)
      ensures closes == old(closes) + (if old(handle) != -1 then 1 else 0)
    {
      if handle != -1 {
        closes := closes + 1;
      }
    }

    /**
     * read_dht12: one combined transfer (the request, then five bytes
     * back), judged by Decode on the bridge's verdict and the buffer.
     */
    method ReadDht12() returns (result: bool, data: seq<int>, r: Option<Reading>)
      modifies bus
      ensures bus.trace == old(bus.trace) + [Request()]
      ensures IsBuffer(data) && r == Decode(result, data)
      ensures r.Some? ==> ValidReading(r.value)
    {
      var raw: seq<bv8>;
      result, raw := bus.Read(Request(), ReadLength);
      data := [raw[0] as int, raw[1] as int, raw[2] as int, raw[3] as int, raw[4] as int];
      r := Decode(result, data);
    }
  }

  /** open_device: None when CH347OpenDevice returns -1 (the constructor raises). */
  method Open(devIndex: int, handle: int, bus: I2CBus) returns (dev: Option<Usb>)
    ensures dev.None? <==> handle == -1
    ensures dev.Some? ==> fresh(dev.value) && dev.value.Valid() && dev.value.bus == bus && dev.value.closes == 0
  {
    if handle == -1 {
      return None;
    }
    var u := new Usb(devIndex, handle, bus);
    return Some(u);
  }

  /** The request frames of n reads. */
  function Requests(n: nat): (f: seq<seq<bv8>>)
    ensures |f| == n && forall i :: 0 <= i < n ==> f[i] == Request()
  {
    if n == 0 then [] else Requests(n - 1) + [Request()]
  }

  /**
   * main, for at most `rounds` passes of its loop: read, keep the reading,
   * and stop at the first failed one; then close the bridge once.
   */
  method Monitor(dev: Usb, rounds: nat) returns (readings: seq<Reading>, failed: bool)
    requires dev.Valid()
    modifies dev, dev.bus
    ensures dev.bus.trace == old(dev.bus.trace) + Requests(|readings| + (if failed then 1 else 0))
    ensures |readings| + (if failed then 1 else 0) <= rounds
    ensures !failed ==> |readings| == rounds
    ensures forall k :: 0 <= k < |readings| ==> ValidReading(readings[k])
    ensures dev.closes == old(dev.closes) + 1
  {
    ghost var t0 := dev.bus.trace;
    readings := [];
    failed := false;
    var i := 0;
    while i < rounds
      invariant i == |readings| <= rounds
      invariant forall k :: 0 <= k < |readings| ==> ValidReading(readings[k])
      invariant dev.Valid() && dev.closes == old(dev.closes)
      invariant dev.bus.trace == t0 + Requests(i)
    {
      var result, data, r := dev.ReadDht12();
      if r.None? {
        failed := true;
        break;
      }
      readings := readings + [r.value];
      i := i + 1;
    }
    dev.CloseDevice();
  }
}
