/**
 * The glyph tables of the drivers. Each glyph is a list of column bytes,
 * bit 0 at the top; a table is a Python dict, so a lookup either finds a
 * glyph or finds nothing.
 */
module Fonts {
  import opened Wrappers

  /** The 6x8 font of the Space Invaders drivers (upper-case letters, digits, space); 'I' is three columns wide. */
  function InvaderFont(c: char): Option<seq<bv8>>
  {
    match c
    case ' ' => Some([0x00, 0x00, 0x00, 0x00, 0x00])
    case 'A' => Some([0x7C, 0x12, 0x11, 0x12, 0x7C])
    case 'B' => Some([0x7F, 0x49, 0x49, 0x49, 0x36])
    case 'C' => Some([0x3E, 0x41, 0x41, 0x41, 0x22])
    case 'D' => Some([0x7F, 0x41, 0x41, 0x22, 0x1C])
    case 'E' => Some([0x7F, 0x49, 0x49, 0x49, 0x41])
    case 'F' => Some([0x7F, 0x09, 0x09, 0x09, 0x01])
    case 'G' => Some([0x3E, 0x41, 0x49, 0x49, 0x7A])
    case 'H' => Some([0x7F, 0x08, 0x08, 0x08, 0x7F])
    case 'I' => Some([0x41, 0x7F, 0x41])
    case 'J' => Some([0x20, 0x40, 0x41, 0x3F, 0x01])
    case 'K' => Some([0x7F, 0x08, 0x14, 0x22, 0x41])
    case 'L' => Some([0x7F, 0x40, 0x40, 0x40, 0x40])
    case 'M' => Some([0x7F, 0x02, 0x0C, 0x02, 0x7F])
    case 'N' => Some([0x7F, 0x04, 0x08, 0x10, 0x7F])
    case 'O' => Some([0x3E, 0x41, 0x41, 0x41, 0x3E])
    case 'P' => Some([0x7F, 0x09, 0x09, 0x09, 0x06])
    case 'Q' => Some([0x3E, 0x41, 0x51, 0x21, 0x5E])
    case 'R' => Some([0x7F, 0x09, 0x19, 0x29, 0x46])
    case 'S' => Some([0x46, 0x49, 0x49, 0x49, 0x31])
    case 'T' => Some([0x01, 0x01, 0x7F, 0x01, 0x01])
    case 'U' => Some([0x3F, 0x40, 0x40, 0x40, 0x3F])
    case 'V' => Some([0x1F, 0x20, 0x40, 0x20, 0x1F])
    case 'W' => Some([0x3F, 0x40, 0x30, 0x40, 0x3F])
    case 'X' => Some([0x63, 0x14, 0x08, 0x14, 0x63])
    case 'Y' => Some([0x03, 0x04, 0x78, 0x04, 0x03])
    case 'Z' => Some([0x61, 0x51, 0x49, 0x45, 0x43])
    case '0' => Some([0x3E, 0x51, 0x49, 0x45, 0x3E])
    case '1' => Some([0x00, 0x42, 0x7F, 0x40, 0x00])
    case '2' => Some([0x42, 0x61, 0x51, 0x49, 0x46])
    case '3' => Some([0x21, 0x41, 0x45, 0x4B, 0x31])
    case '4' => Some([0x18, 0x14, 0x12, 0x7F, 0x10])
    case '5' => Some([0x27, 0x45, 0x45, 0x45, 0x39])
    case '6' => Some([0x3C, 0x4A, 0x49, 0x49, 0x30])
    case '7' => Some([0x01, 0x71, 0x09, 0x05, 0x03])
    case '8' => Some([0x36, 0x49, 0x49, 0x49, 0x36])
    case '9' => Some([0x06, 0x49, 0x49, 0x29, 0x1E])
    case _ => None
  }

  /** The font of the clock driver: digits, ':', '-', '/', space and upper-case letters, every glyph five columns. */
  function ClockFont(c: char): (g: Option<seq<bv8>>)
    ensures g.Some? ==> |g.value| == 5
  {
    match c
    case '0' => Some([0x3E, 0x51, 0x49, 0x45, 0x3E])
    case '1' => Some([0x00, 0x42, 0x7F, 0x40, 0x00])
    case '2' => Some([0x42, 0x61, 0x51, 0x49, 0x46])
    case '3' => Some([0x21, 0x41, 0x45, 0x4B, 0x31])
    case '4' => Some([0x18, 0x14, 0x12, 0x7F, 0x10])
    case '5' => Some([0x27, 0x45, 0x45, 0x45, 0x39])
    case '6' => Some([0x3C, 0x4A, 0x49, 0x49, 0x30])
    case '7' => Some([0x01, 0x71, 0x09, 0x05, 0x03])
    case '8' => Some([0x36, 0x49, 0x49, 0x49, 0x36])
    case '9' => Some([0x06, 0x49, 0x49, 0x29, 0x1E])
    case ':' => Some([0x00, 0x36, 0x36, 0x00, 0x00])
    case '-' => Some([0x08, 0x08, 0x08, 0x08, 0x08])
    case '/' => Some([0x20, 0x10, 0x08, 0x04, 0x02])
    case ' ' => Some([0x00, 0x00, 0x00, 0x00, 0x00])
    case 'A' => Some([0x7C, 0x12, 0x11, 0x12, 0x7C])
    case 'B' => Some([0x7F, 0x49, 0x49, 0x49, 0x36])
    case 'C' => Some([0x3E, 0x41, 0x41, 0x41, 0x22])
    case 'D' => Some([0x7F, 0x41, 0x41, 0x22, 0x1C])
    case 'E' => Some([0x7F, 0x49, 0x49, 0x49, 0x41])
    case 'F' => Some([0x7F, 0x09, 0x09, 0x09, 0x01])
    case 'G' => Some([0x3E, 0x41, 0x49, 0x49, 0x7A])
    case 'H' => Some([0x7F, 0x08, 0x08, 0x08, 0x7F])
    case 'I' => Some([0x00, 0x41, 0x7F, 0x41, 0x00])
    case 'J' => Some([0x20, 0x40, 0x41, 0x3F, 0x01])
    case 'K' => Some([0x7F, 0x08, 0x14, 0x22, 0x41])
    case 'L' => Some([0x7F, 0x40, 0x40, 0x40, 0x40])
    case 'M' => Some([0x7F, 0x02, 0x04, 0x02, 0x7F])
    case 'N' => Some([0x7F, 0x04, 0x08, 0x10, 0x7F])
    case 'O' => Some([0x3E, 0x41, 0x41, 0x41, 0x3E])
    case 'P' => Some([0x7F, 0x09, 0x09, 0x09, 0x06])
    case 'Q' => Some([0x3E, 0x41, 0x51, 0x21, 0x5E])
    case 'R' => Some([0x7F, 0x09, 0x19, 0x29, 0x46])
    case 'S' => Some([0x46, 0x49, 0x49, 0x49, 0x31])
    case 'T' => Some([0x01, 0x01, 0x7F, 0x01, 0x01])
    case 'U' => Some([0x3F, 0x40, 0x40, 0x40, 0x3F])
    case 'V' => Some([0x1F, 0x20, 0x40, 0x20, 0x1F])
    case 'W' => Some([0x3F, 0x40, 0x3C, 0x40, 0x3F])
    case 'X' => Some([0x63, 0x14, 0x08, 0x14, 0x63])
    case 'Y' => Some([0x07, 0x08, 0x70, 0x08, 0x07])
    case 'Z' => Some([0x61, 0x51, 0x49, 0x45, 0x43])
    case _ => None
  }

  /** The font of the prime counter: digits and space. */
  function DigitFont(c: char): Option<seq<bv8>>
  {
    match c
    case '0' => Some([0x3E, 0x51, 0x49, 0x45, 0x3E])
    case '1' => Some([0x00, 0x42, 0x7F, 0x40, 0x00])
    case '2' => Some([0x42, 0x61, 0x51, 0x49, 0x46])
    case '3' => Some([0x21, 0x41, 0x45, 0x4B, 0x31])
    case '4' => Some([0x18, 0x14, 0x12, 0x7F, 0x10])
    case '5' => Some([0x27, 0x45, 0x45, 0x45, 0x39])
    case '6' => Some([0x3C, 0x4A, 0x49, 0x49, 0x30])
    case '7' => Some([0x01, 0x71, 0x09, 0x05, 0x03])
    case '8' => Some([0x36, 0x49, 0x49, 0x49, 0x36])
    case '9' => Some([0x06, 0x49, 0x49, 0x29, 0x1E])
    case ' ' => Some([0x00, 0x00, 0x00, 0x00, 0x00])
    case _ => None
  }

  /** The font of the 128x32 clock: digits, space, ':', '/', 'M', 'D', 'Y'. */
  function RtcFont(c: char): Option<seq<bv8>>
  {
    match c
    case ' ' => Some([0x00, 0x00, 0x00, 0x00, 0x00])
    case '0' => Some([0x3E, 0x51, 0x49, 0x45, 0x3E])
    case '1' => Some([0x00, 0x42, 0x7F, 0x40, 0x00])
    case '2' => Some([0x62, 0x51, 0x49, 0x49, 0x46])
    case '3' => Some([0x22, 0x41, 0x49, 0x49, 0x36])
    case '4' => Some([0x0F, 0x08, 0x08, 0x7F, 0x08])
    case '5' => Some([0x4F, 0x49, 0x49, 0x49, 0x31])
    case '6' => Some([0x3E, 0x49, 0x49, 0x49, 0x32])
    case '7' => Some([0x01, 0x01, 0x71, 0x0D, 0x03])
    case '8' => Some([0x36, 0x49, 0x49, 0x49, 0x36])
    case '9' => Some([0x26, 0x49, 0x49, 0x49, 0x3E])
    case ':' => Some([0x00, 0x36, 0x36, 0x00, 0x00])
    case '/' => Some([0x40, 0x30, 0x08, 0x06, 0x01])
    case 'M' => Some([0x7F, 0x02, 0x04, 0x02, 0x7F])
    case 'D' => Some([0x7F, 0x41, 0x41, 0x22, 0x1C])
    case 'Y' => Some([0x07, 0x08, 0x78, 0x08, 0x07])
    case _ => None
  }

  /**
   * `str.upper()` on one character, restricted to what the font can tell:
   * ASCII letters, and the two non-ASCII characters whose upper case is a
   * font key (dotless i and long s). Any other character's upper case is
   * either itself or not a key of the font.
   */
  function Upper(c: char): char
  {
    if 'a' <= c <= 'z' then (c as int - 32) as char
    else if c == '\U{131}' then 'I'
    else if c == '\U{17F}' then 'S'
    else c
  }

  const BlankGlyph: seq<bv8> := [0x00, 0x00, 0x00, 0x00, 0x00]

  /**
   * get_char_data: the glyph of the upper-cased character, or five blank
   * columns for a character the font does not have. Glyphs are at most five
   * columns wide, so the 6-pixel advance always leaves a gap.
   */
  function GetCharData(c: char): (g: seq<bv8>)
    ensures 3 <= |g| <= 5
    ensures InvaderFont(Upper(c)).None? ==> g == BlankGlyph
  {
    match InvaderFont(Upper(c))
    case Some(glyph) => glyph
    case None => BlankGlyph
  }

  /** Lower-case letters are drawn with the upper-case glyphs. */
  lemma CaseInsensitive(c: char)
    requires 'a' <= c <= 'z'
    ensures GetCharData(c) == GetCharData((c as int - 32) as char)
    ensures GetCharData(c) != BlankGlyph
  {
  }

  /** The prime counter's digits are the Space Invaders digits. */
  lemma DigitFontShared(c: char)
    ensures DigitFont(c).Some? ==> DigitFont(c) == InvaderFont(c)
  {
  }
}
