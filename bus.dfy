/**
 * The I2C transport as the drivers see it. Every transfer the CH347 bridge
 * is asked to make becomes a frame appended to a trace; whether the bridge
 * reports success is outside the model and is chosen freely.
 *
 * A frame starts with the address byte of section 3.1.10 of the I2C-bus
 * specification (UM10204): the 7-bit target address followed by the R/W
 * bit, 0 for a write. The SSD1306 then expects a control byte, 0x00 for
 * commands and 0x40 for display data.
 */
module Bus {

  /**
   * Storing an integer into a ctypes `c_byte` or `c_ubyte` cell keeps its
   * low 8 bits; both types put the same bit pattern on the wire.
   */
  function ToByte(v: int): bv8
  {
    (v % 256) as bv8
  }

  /** A value that already fits a byte is stored unchanged. */
  lemma ToByteSmall(v: int)
    requires 0 <= v < 256
    ensures ToByte(v) as int == v
  {
    assert v % 256 == v;
    var b := v as bv8;
    assert b as int == v;
  }

  /** A byte stored into a byte cell is itself. */
  lemma ToByteOfByte(b: bv8)
    ensures ToByte(b as int) == b
  {
    var v := b as int;
    assert 0 <= v < 256;
    assert v % 256 == v;
  }

  /**
   * `addr << 1` as it lands in the first byte of a frame. For a 7-bit
   * address the R/W bit (bit 0) is 0, a write, and the address sits in
   * bits 7..1.
   */
  function AddressValue(addr: int): (v: int)
    ensures 0 <= v < 256
    ensures 0 <= addr < 128 ==> v % 2 == 0 && v / 2 == addr
  {
    (addr * 2) % 256
  }

  function AddressByte(addr: int): bv8
  {
    ToByte(AddressValue(addr))
  }

  const CommandMode: bv8 := 0x00
  const DataMode: bv8 := 0x40

  /** write_command: address byte, control byte 0x00, the command. */
  function CommandFrame(addr: int, cmd: bv8): (f: seq<bv8>)
    ensures |f| == 3 && f[1] == CommandMode && f[2] == cmd
  {
    [AddressByte(addr), CommandMode, cmd]
  }

  /** write_data: address byte, control byte 0x40, the payload. */
  function DataFrame(addr: int, data: seq<bv8>): (f: seq<bv8>)
    ensures |f| == |data| + 2 && f[1] == DataMode && f[2..] == data
  {
    [AddressByte(addr), DataMode] + data
  }

  /** A register write `[addr << 1, register, value]` through `c_ubyte` cells. */
  function RegisterWrite(addr: int, register: int, value: int): (f: seq<bv8>)
    ensures |f| == 3 && f[1] == ToByte(register) && f[2] == ToByte(value)
  {
    [AddressByte(addr), ToByte(register), ToByte(value)]
  }

  /** The control byte tells a command frame from a data frame. */
  lemma FramesDistinct(addr: int, cmd: bv8, data: seq<bv8>)
    ensures CommandFrame(addr, cmd) != DataFrame(addr, data)
  {
    assert CommandFrame(addr, cmd)[1] != DataFrame(addr, data)[1];
  }

  /**
   * What a run of writes leaves on the bus when the first failing write
   * raises and ends it: the frames sent are a prefix of `frames`, all of
   * them when the run succeeded, and at least one (the failing one) when
   * it did not.
   */
  ghost predicate Sent(before: seq<seq<bv8>>, after: seq<seq<bv8>>, frames: seq<seq<bv8>>, ok: bool)
  {
    before <= after && after <= before + frames &&
    (ok ==> after == before + frames) &&
    (!ok ==> |after| > |before|)
  }

  /** A run that fails after sending the first k frames of `part`, where `done + part` leads `all`. */
  lemma FailsInside(before: seq<seq<bv8>>, done: seq<seq<bv8>>, part: seq<seq<bv8>>, k: nat, all: seq<seq<bv8>>)
    requires done + part <= all && 0 < k <= |part|
    ensures Sent(before, before + done + part[..k], all, false)
  {
    var after := before + done + part[..k];
    assert (done + part)[..|done| + k] == done + part[..k];
    assert all[..|done| + k] == done + part[..k];
    assert (before + all)[..|after|] == after;
  }

  /** One more frame of `all` went out: the trace is one frame longer, and stopping there is a failed run of `all`. */
  lemma PrefixStep(before: seq<seq<bv8>>, all: seq<seq<bv8>>, i: nat)
    requires i < |all|
    ensures before + all[..i] + [all[i]] == before + all[..i + 1]
    ensures Sent(before, before + all[..i + 1], all, false)
  {
    assert all[..i + 1] == all[..i] + [all[i]];
    FailsInside(before, [], all, i + 1, all);
  }

  /** A run that failed inside `part`, after `done` went through, failed inside any `all` they lead. */
  lemma SentStops(before: seq<seq<bv8>>, done: seq<seq<bv8>>, part: seq<seq<bv8>>, after: seq<seq<bv8>>, all: seq<seq<bv8>>)
    requires done + part <= all
    requires Sent(before + done, after, part, false)
    ensures Sent(before, after, all, false)
  {
    var k := |after| - |before + done|;
    assert after == before + done + part[..k];
    FailsInside(before, done, part, k, all);
  }

  /** A run of `first` that failed is a failed run of anything `first` leads. */
  lemma SentFailsEarly(before: seq<seq<bv8>>, after: seq<seq<bv8>>, first: seq<seq<bv8>>, second: seq<seq<bv8>>)
    requires Sent(before, after, first, false)
    ensures Sent(before, after, first + second, false)
  {
    SentStops(before, [], first, after, first + second);
  }

  /** A run of `first` that went through, followed by a run of `second`, is a run of `first + second`. */
  lemma SentThen(before: seq<seq<bv8>>, mid: seq<seq<bv8>>, after: seq<seq<bv8>>,
                 first: seq<seq<bv8>>, second: seq<seq<bv8>>, ok: bool)
    requires mid == before + first && Sent(mid, after, second, ok)
    ensures Sent(before, after, first + second, ok)
  {
    assert before + first + second == before + (first + second);
  }

  /**
   * The CH347 bridge. `trace` lists every write frame (and every read
   * request) handed to it, in order, whether or not the transfer succeeded.
   */
  class I2CBus {
    var trace: seq<seq<bv8>>

    constructor ()
      ensures trace == []
    {
      trace := [];
    }

    /** CH347StreamI2C with nothing to read: the frame is sent, the outcome is the bridge's. */
    method Write(frame: seq<bv8>) returns (ok: bool)
      modifies this
      ensures trace == old(trace) + [frame]
    {
      trace := trace + [frame];
      ok := *;
    }

    /** A loop of writes, one per frame in order, that ends at the first one the bridge refuses. */
    method WriteFrames(frames: seq<seq<bv8>>) returns (ok: bool)
      modifies this
      ensures Sent(old(trace), trace, frames, ok)
    {
      ghost var t0 := trace;
      var i := 0;
      ok := true;
      while i < |frames|
        invariant 0 <= i <= |frames|
        invariant trace == t0 + frames[..i]
      {
        ok := Write(frames[i]);
        PrefixStep(t0, frames, i);
        if !ok {
          return;
        }
        i := i + 1;
      }
      assert frames[..i] == frames;
    }

    /**
     * One write of a planned run: `frame` is frame n of `all`, the first n
     * having gone out since `before`. A refusal ends the run there.
     */
    method WriteNext(ghost before: seq<seq<bv8>>, ghost all: seq<seq<bv8>>, ghost n: nat, frame: seq<bv8>) returns (ok: bool)
      requires n < |all| && all[n] == frame && trace == before + all[..n]
      modifies this
      ensures trace == before + all[..n + 1]
      ensures !ok ==> Sent(before, trace, all, false)
    {
      ok := Write(frame);
      PrefixStep(before, all, n);
    }

    /**
     * CH347StreamI2C with a read phase: the request frame is sent and
     * `length` bytes come back; their values are the device's.
     */
    method Read(request: seq<bv8>, length: nat) returns (ok: bool, data: seq<bv8>)
      modifies this
      ensures trace == old(trace) + [request]
      ensures |data| == length
    {
      trace := trace + [request];
      ok := *;
      assert |seq(length, _ => 0 as bv8)| == length;
      data :| |data| == length;
    }
  }
}
