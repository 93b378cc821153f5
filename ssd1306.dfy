/**
 * The SSD1306 command stream the 128x64 drivers emit: the power-up table,
 * and the page-by-page flush of the framebuffer (page address 0xB0+p, then
 * lower and higher column start 0x00 and 0x10, then one page of display
 * data), as in the command table of section 9 of the SSD1306 datasheet.
 */
module Ssd1306 {
  import opened Bus
  import opened Pixels

  /** initialize_display's table for the 128x64 panel (multiplex 0x3F, COM pins 0x12). */
  const InitTable: seq<bv8> := [
    0xAE, 0xD5, 0x80, 0xA8, 0x3F, 0xD3, 0x00, 0x40, 0x8D, 0x14, 0x20, 0x00, 0xA1,
    0xC8, 0xDA, 0x12, 0x81, 0xCF, 0xD9, 0xF1, 0xDB, 0x40, 0xA4, 0xA6, 0xAF]

  /** Set page start address for page p (0..7). */
  function PageAddress(p: nat): (c: bv8)
    requires p < 8
    ensures c & 0xF8 == 0xB0 && c & 0x07 == PageLow(p)
  {
    match p
    case 0 => 0xB0
    case 1 => 0xB1
    case 2 => 0xB2
    case 3 => 0xB3
    case 4 => 0xB4
    case 5 => 0xB5
    case 6 => 0xB6
    case _ => 0xB7
  }

  /** The page number in the low three bits of a byte. */
  function PageLow(p: nat): bv8
    requires p < 8
  {
    match p
    case 0 => 0
    case 1 => 1
    case 2 => 2
    case 3 => 3
    case 4 => 4
    case 5 => 5
    case 6 => 6
    case _ => 7
  }

  const LowColumnZero: bv8 := 0x00
  const HighColumnZero: bv8 := 0x10

  /** The command frames of one table, in order. */
  function CommandFrames(addr: int, cmds: seq<bv8>): (fs: seq<seq<bv8>>)
    ensures |fs| == |cmds|
    ensures forall i :: 0 <= i < |cmds| ==> fs[i] == CommandFrame(addr, cmds[i])
  {
    if cmds == [] then [] else [CommandFrame(addr, cmds[0])] + CommandFrames(addr, cmds[1..])
  }

  /** The bytes of page p of a framebuffer: columns 0..127 of that page. */
  function PageData(buf: seq<bv8>, p: nat): (d: seq<bv8>)
    requires |buf| == BufferSize && p < Pages
    ensures |d| == Width
    ensures forall x :: 0 <= x < Width ==> d[x] == buf[Index(Point(x, 8 * p))]
  {
    buf[p * Width .. (p + 1) * Width]
  }

  /** What update_display sends for page p. */
  function PageFrames(addr: int, buf: seq<bv8>, p: nat): seq<seq<bv8>>
    requires |buf| == BufferSize && p < Pages
  {
    [CommandFrame(addr, PageAddress(p)), CommandFrame(addr, LowColumnZero),
     CommandFrame(addr, HighColumnZero), DataFrame(addr, PageData(buf, p))]
  }

  /** The frames of pages 0..n-1, in page order. */
  function FlushPages(addr: int, buf: seq<bv8>, n: nat): (fs: seq<seq<bv8>>)
    requires |buf| == BufferSize && n <= Pages
    ensures |fs| == 4 * n
  {
    if n == 0 then [] else FlushPages(addr, buf, n - 1) + PageFrames(addr, buf, n - 1)
  }

  /** update_display's whole transfer. */
  function FlushFrames(addr: int, buf: seq<bv8>): seq<seq<bv8>>
    requires |buf| == BufferSize
  {
    FlushPages(addr, buf, Pages)
  }

  /** Fewer pages make a prefix of the transfer. */
  lemma {:induction false} FlushPagesPrefix(addr: int, buf: seq<bv8>, m: nat, n: nat)
    requires |buf| == BufferSize && m <= n <= Pages
    ensures FlushPages(addr, buf, m) <= FlushPages(addr, buf, n)
  {
    if m < n {
      FlushPagesPrefix(addr, buf, m, n - 1);
    }
  }

  /**
   * The flush is 32 frames: for page p, frames 4p..4p+2 are the commands
   * 0xB0+p, 0x00, 0x10 and frame 4p+3 carries exactly page p of the buffer.
   */
  lemma {:induction false} FlushLayout(addr: int, buf: seq<bv8>, n: nat, p: nat)
    requires |buf| == BufferSize && n <= Pages && p < n
    ensures FlushPages(addr, buf, n)[4 * p] == CommandFrame(addr, PageAddress(p))
    ensures FlushPages(addr, buf, n)[4 * p + 1] == CommandFrame(addr, 0x00)
    ensures FlushPages(addr, buf, n)[4 * p + 2] == CommandFrame(addr, 0x10)
    ensures FlushPages(addr, buf, n)[4 * p + 3] == DataFrame(addr, buf[128 * p .. 128 * p + 128])
  {
    if p < n - 1 {
      FlushLayout(addr, buf, n - 1, p);
    }
  }

  /** The payloads of the data frames of a frame sequence, concatenated. */
  function DataPayload(fs: seq<seq<bv8>>): seq<bv8>
  {
    if fs == [] then []
    else (if |fs[0]| >= 2 && fs[0][1] == DataMode then fs[0][2..] else []) + DataPayload(fs[1..])
  }

  lemma {:induction false} DataPayloadAppend(a: seq<seq<bv8>>, b: seq<seq<bv8>>)
    ensures DataPayload(a + b) == DataPayload(a) + DataPayload(b)
  {
    if a == [] {
      assert a + b == b;
    } else {
      assert (a + b)[0] == a[0];
      assert (a + b)[1..] == a[1..] + b;
      DataPayloadAppend(a[1..], b);
    }
  }

  lemma CommandCarriesNoData(addr: int, cmd: bv8, rest: seq<seq<bv8>>)
    ensures DataPayload([CommandFrame(addr, cmd)] + rest) == DataPayload(rest)
  {
    assert ([CommandFrame(addr, cmd)] + rest)[1..] == rest;
  }

  /** Of one page's four frames only the last carries data: page p of the buffer. */
  lemma PagePayload(addr: int, buf: seq<bv8>, p: nat)
    requires |buf| == BufferSize && p < Pages
    ensures DataPayload(PageFrames(addr, buf, p)) == PageData(buf, p)
  {
    var d := DataFrame(addr, PageData(buf, p));
    var c3 := CommandFrame(addr, HighColumnZero);
    var c2 := CommandFrame(addr, LowColumnZero);
    var c1 := CommandFrame(addr, PageAddress(p));
    assert PageFrames(addr, buf, p) == [c1] + ([c2] + ([c3] + [d]));
    assert DataPayload([d]) == PageData(buf, p) by {
      assert [d][1..] == [];
    }
    CommandCarriesNoData(addr, HighColumnZero, [d]);
    CommandCarriesNoData(addr, LowColumnZero, [c3] + [d]);
    CommandCarriesNoData(addr, PageAddress(p), [c2] + ([c3] + [d]));
  }

  /**
   * The display data of a flush, read back in order, is the framebuffer
   * itself: the command frames carry no data and page p carries bytes
   * 128p..128p+127.
   */
  lemma {:induction false} FlushCarriesBuffer(addr: int, buf: seq<bv8>, n: nat)
    requires |buf| == BufferSize && n <= Pages
    ensures DataPayload(FlushPages(addr, buf, n)) == buf[.. n * Width]
  {
    if n > 0 {
      var p := n - 1;
      FlushCarriesBuffer(addr, buf, p);
      var fs := PageFrames(addr, buf, p);
      DataPayloadAppend(FlushPages(addr, buf, p), fs);
      PagePayload(addr, buf, p);
      assert buf[.. p * Width] + buf[p * Width .. n * Width] == buf[.. n * Width];
    }
  }

  /** The 8-page transfer of a buffer of zeros (clear_display). */
  function ClearFrames(addr: int): seq<seq<bv8>>
  {
    FlushFrames(addr, Zeros())
  }

  /** Every page of the zero buffer is 128 zero bytes, `[0x00] * 128`. */
  lemma ZeroPages(p: nat)
    requires p < Pages
    ensures PageData(Zeros(), p) == seq(Width, _ => 0)
  {
  }

  /** The all-zero framebuffer `[0x00] * (width * pages)`. */
  function Zeros(): (z: seq<bv8>)
    ensures |z| == BufferSize
    ensures Lit(z) == iset{}
  {
    var z := seq(BufferSize, _ => 0);
    BlankBuffer(z);
    z
  }
}
