# SSD1306 OLED demos over a CH347 USB-to-I2C bridge, modelled in Dafny

The repository holds a set of Python programs for the Waveshare CH347 USB-to-I2C
bridge. Most of them carry their own copy of one small SSD1306 OLED driver:
- a 1024-byte framebuffer of eight 128-column pages;
- `draw_pixel`, and on top of it rectangles, text, a filled disc and Bresenham lines;
- `update_display`, which streams the buffer page by page as I2C command and data frames.

Each copy has a different demo attached:
- two self-playing Space Invaders games;
- Pong;
- a bouncing ball;
- Conway's Game of Life;
- a rotating wire-frame cube;
- a prime counter;
- a large-digit clock.

The rest are sensor programs:
- two DS3231 real-time-clock programs, one of which drives a 128x32 panel command by command;
- a DHT12 temperature and humidity reader.

This project models that core and proves its properties. Its parts:

- **Bus** (`bus.dfy`) replaces the bridge DLL by an `I2CBus` object that records every frame it is given. Whether a transfer succeeds is the bridge's choice. A write the bridge refuses raises in the source, which ends the operation under way. So every sending method returns `ok`, and its contract states with `Sent` exactly which frames reached the bus, whether the run completed or stopped at its first refused frame.
- **Pixels, Ssd1306, Driver** hold the framebuffer and the driver class:
  - the page layout and the single-bit update of `draw_pixel`;
  - the picture a buffer shows (`Lit`, a set of points);
  - the exact frame sequence of `write_command`, `write_data`, the 25-byte power-up table and `update_display`.

  `Driver.Display` has the buffer as an `array<bv8>`; its drawing methods are loops proved against the picture they leave.
- **Fonts, Glyphs, Shapes, Bresenham** cover the rasterisers:
  - the fonts and their fallback rules;
  - 6-pixel text cells and the scaled, case-sensitive clock text;
  - the disc test `i*i + j*j <= r*r`;
  - the integer Bresenham loop, with the exact point sequence it plots.
- **Sprites, Invaders, Animation, Pong, Ball, Life, Cube, Clock, Primes** are the demos. Each game class keeps the source's fields, and each of its methods is specified by a pure step on a `World` value. Lemmas then prove what the steps keep. Examples: the player stays on screen, at most three bullets fly, the paddles stay in the court, the ball keeps full speed, the Life step is Conway's rule, and the clock's partial redraw leaves exactly the new reading.
- **Rtc, Oled32** cover the DS3231 programs:
  - the BCD codec and its round trip;
  - register masking and the `datetime` validity check;
  - the weekday conventions and `strftime`;
  - the drift-based resynchronisation;
  - the bus-level 128x32 driver of `i2c_OLED-ds3231-1.py`.
- **Dht12** covers the DHT12 read: the request frame, the checksum acceptance, the `close_device` guard and the monitoring loop.

Time, randomness and the bridge's verdicts enter as parameters. `now` stands for `time.time()`. `flip` stands for `random.random() < 0.05`. `pick` and `up` stand for the outcome of `random.choice`. The real-time clock's reading is the bytes a read returns.

## Model

| member | source | states |
|---|---|---|
| `Pixels.Index` | i2c_OLED-SInvader-new.py:119-121 | an on-screen pixel's byte `x + (y // 8) * 128` lies inside the 1024-byte buffer |
| `Pixels.MaskIsShift` | i2c_OLED-SInvader-new.py:126-128 | the mask used for row y is `1 << (y % 8)` |
| `Pixels.SetPixel` | i2c_OLED-SInvader-new.py:115-128 | draw_pixel on a buffer value: an off-screen pixel leaves every byte as it was; an on-screen one changes no byte but its own; the length stays 1024 |
| `Pixels.SetPixelByte` | i2c_OLED-SInvader-new.py:124-128 | the pixel's byte becomes `byte \| (1 << bit)` for a truthy colour and `byte & ~(1 << bit)` otherwise, and nothing else changes |
| `Pixels.IndexInjective` | i2c_OLED-SInvader-new.py:119-121 | two on-screen pixels with the same byte and bit are the same pixel |
| `Pixels.SetBitOthers` | i2c_OLED-SInvader-new.py:125-128 | setting or clearing bit k leaves every other bit of the byte unchanged |
| `Pixels.SetBitSelf` | i2c_OLED-SInvader-new.py:125-128 | after `\|=` the bit is set; after `&= ~` it is clear |
| `Pixels.SetPixelAt` | i2c_OLED-SInvader-new.py:115-128 | after draw_pixel, pixel p is lit exactly when the colour is truthy, and every other pixel is lit as before |
| `Pixels.SetPixelLit` | i2c_OLED-SInvader-new.py:115-128 | draw_pixel redraws exactly the one pixel in its colour: the picture is unchanged elsewhere and entirely unchanged off screen |
| `Pixels.LitDeterminesBuffer` | i2c_OLED-SInvader-new.py:119-121 | the page layout is a bijection: two buffers that show the same picture are byte for byte equal |
| `Pixels.BlankBuffer` | i2c_OLED-SInvader-new.py:113 | a buffer shows nothing exactly when all its bytes are zero |
| `Bus.ToByteSmall` | i2c_OLED-SInvader-new.py:60-65 | a value below 256 stored in a byte cell is unchanged |
| `Bus.AddressValue` | i2c_OLED-SInvader-new.py:49 | `addr << 1` for a 7-bit address is an even byte whose upper seven bits are the address (R/W bit 0, a write) |
| `Bus.CommandFrame` | i2c_OLED-SInvader-new.py:46-56 | a command frame is three bytes: the address byte, control byte 0x00, the command |
| `Bus.DataFrame` | i2c_OLED-SInvader-new.py:58-70 | a data frame is the address byte, control byte 0x40, then exactly the payload |
| `Bus.RegisterWrite` | i2c_OLED-ds3230.py:30-37 | a register write is `[addr << 1, register, value]`, register and value truncated to bytes |
| `Bus.FramesDistinct` | i2c_OLED-SInvader-new.py:46-70 | no command frame equals a data frame: the control byte tells them apart |
| `Bus.I2CBus.Write` | i2c_OLED-SInvader-new.py:54-56 | a write appends its frame to the bus trace whatever the bridge answers |
| `Bus.I2CBus.WriteFrames` | i2c_OLED-SInvader-new.py:102-103 | a loop of writes sends the frames in order and stops at the first refused one |
| `Bus.I2CBus.Read` | i2c_DHT12_module_temperature_humidity.py:58 | a combined transfer sends its request frame and returns exactly `length` bytes |
| `Ssd1306.PageAddress` | i2c_OLED-SInvader-new.py:188 | the page command is `0xB0 + p`: high bits 0xB0, page number in the low three bits |
| `Ssd1306.CommandFrames` | i2c_OLED-SInvader-new.py:102-103 | a table becomes one command frame per entry, in table order |
| `Ssd1306.PageData` | i2c_OLED-SInvader-new.py:191-192 | `buffer[start:start + width]` is the 128 bytes of page p, column by column |
| `Ssd1306.FlushPages` | i2c_OLED-SInvader-new.py:187-192 | n pages of update_display are 4n frames |
| `Ssd1306.FlushLayout` | i2c_OLED-SInvader-new.py:185-192 | frames 4p..4p+3 of the flush are the commands 0xB0+p, 0x00, 0x10 and one data frame carrying `buffer[128p:128p+128]` |
| `Ssd1306.PagePayload` | i2c_OLED-SInvader-new.py:188-192 | of one page's four frames only the data frame carries display data, and that data is page p |
| `Ssd1306.FlushCarriesBuffer` | i2c_OLED-SInvader-new.py:185-192 | the display data of a flush, read back in order, is the framebuffer itself |
| `Ssd1306.ZeroPages` | i2c_OLED-TimeDate.py:103-111 | every page of the cleared buffer is 128 zero bytes |
| `Ssd1306.Zeros` | i2c_OLED-SInvader-new.py:113 | the cleared buffer has 1024 bytes and shows nothing |
| `Fonts.ClockFont` | i2c_OLED-TimeDate.py:126-167 | every glyph of the clock font is five columns wide |
| `Fonts.GetCharData` | i2c_OLED-SInvader-new.py:142-183 | the glyph of the upper-cased character, 3 to 5 columns wide, or five blank columns for a character the font lacks |
| `Fonts.CaseInsensitive` | i2c_OLED-SInvader-new.py:183 | a lower-case letter draws the glyph of its capital, which is never the blank |
| `Fonts.DigitFontShared` | i2c_OLED-Good.py:99-111 | the prime counter's digit glyphs are those of the Space Invaders font |
| `Glyphs.ShiftedBit` | i2c_OLED-SInvader-new.py:140 | `(byte >> bit) & 1` is non-zero exactly when that bit of the byte is set |
| `Glyphs.ShiftBit` | i2c_OLED-SInvader-new.py:140 | the colour draw_text passes is truthy exactly when the glyph bit is set |
| `Glyphs.TextGlyphs` | i2c_OLED-SInvader-new.py:136-137 | draw_text looks up one glyph per character, in order |
| `Glyphs.CellsDoneBit` | i2c_OLED-SInvader-new.py:138-140 | the pass for bit b of column j of glyph i adds exactly pixel (x + 6i + j, y + b), lit exactly when that bit is set |
| `Glyphs.TextPixel` | i2c_OLED-SInvader-new.py:135-140 | after draw_text, pixel (x + 6i + j, y + b) is lit exactly when bit b of column j of character i's glyph is set; clear bits erase |
| `Glyphs.TextOutside` | i2c_OLED-SInvader-new.py:135-140 | draw_text leaves every pixel outside its glyph columns as it was |
| `Glyphs.TextGap` | i2c_OLED-SInvader-new.py:136-140 | the sixth column of every 6-pixel cell is never drawn, since no glyph is wider than five |
| `Glyphs.Known` | i2c_OLED-TimeDate.py:169-179 | the count of characters the clock font knows is at most the text's length |
| `Glyphs.GlyphPartStep` | i2c_OLED-TimeDate.py:172-178 | the pass for bit j of column i adds the size x size block at (x + i*size, y + j*size) exactly when the bit is set |
| `Glyphs.GlyphBit` | i2c_OLED-TimeDate.py:173-178 | a set bit paints its block, a clear bit paints nothing |
| `Glyphs.NoSize` | i2c_OLED-TimeDate.py:176-177 | a size of 0 or less paints nothing, since `range(size)` is empty |
| `Glyphs.ScaledTextSnoc` | i2c_OLED-TimeDate.py:169-179 | one more character adds its glyph at x + 6*size*(known characters before it), and advances only when the font knows it |
| `Glyphs.KnownOnly` | i2c_OLED-TimeDate.py:170 | the characters the font knows, in order, and only those |
| `Glyphs.UnknownSkipped` | i2c_OLED-TimeDate.py:169-179 | scaled text draws exactly what its known characters alone draw: an unknown character neither draws nor advances x |
| `Glyphs.ClockCharactersKnown` | i2c_OLED-TimeDate.py:126-167 | digits, ':' and '/' are all in the clock font |
| `Shapes.DiscStep` | i2c_OLED-BALL.py:126-129 | offset (i, j) adds its pixel exactly when `i**2 + j**2 <= size**2` |
| `Shapes.DiscAll` | i2c_OLED-BALL.py:124-129 | after the loops the whole disc is drawn; a negative size draws nothing |
| `Shapes.DiscIsCircle` | i2c_OLED-BALL.py:128 | the disc is exactly the points within distance r of the centre; the box bound `-r..r` follows from the circle test |
| `Shapes.EraseDisc` | i2c_OLED-BALL.py:146-159 | drawing the disc in colour 0 where colour 1 drew it clears exactly the disc and restores everything else |
| `Bresenham.StepCursor` | i2c_OLED-Cube.py:138-144 | the second half of the loop body computes the `Step` of the cursor (x0, y0, err) |
| `Bresenham.StepKeepsInv` | i2c_OLED-Cube.py:134-144 | a pass that is not the last keeps the error invariant and brings the end point exactly one step closer |
| `Bresenham.Trace` | i2c_OLED-Cube.py:134-144 | from a cursor, the loop plots distance-plus-one points, from the cursor to (x1, y1) |
| `Bresenham.CursorsTrace` | i2c_OLED-Cube.py:134-144 | pass i plots point i; it is the last pass exactly when its cursor is at the end point |
| `Bresenham.StartInv` | i2c_OLED-Cube.py:128-132 | the setup `dx, dy, sx, sy, err = dx - dy` satisfies the loop invariant |
| `Bresenham.LinePoints` | i2c_OLED-Cube.py:126-144 | draw_line plots `max(\|x1-x0\|, \|y1-y0\|) + 1` points, starting at (x0, y0) and ending at (x1, y1) |
| `Bresenham.TraceSteps` | i2c_OLED-Cube.py:138-144 | the distance to the end drops by one per point; each move is 0 or sx in x and 0 or sy in y, never both 0 |
| `Bresenham.LineDistinct` | i2c_OLED-Cube.py:134-144 | no point is plotted twice |
| `Bresenham.LineMoves` | i2c_OLED-Cube.py:138-144 | consecutive points differ by 0 or sx in x and 0 or sy in y, and are never equal |
| `Bresenham.DegenerateLine` | i2c_OLED-Cube.py:134-137 | a line from a point to itself plots exactly that point |
| `Driver.Link.constructor` | i2c_OLED-SInvader-new.py:25-27 | the driver talks to the given bus and 7-bit address |
| `Driver.Link.WriteCommand` | i2c_OLED-SInvader-new.py:46-56 | write_command sends exactly one command frame |
| `Driver.Link.WriteData` | i2c_OLED-SInvader-new.py:58-70 | write_data sends exactly one data frame carrying the payload |
| `Driver.Link.SendInitTable` | i2c_OLED-SInvader-new.py:102-103 | the power-up table goes out one command per entry, in order, up to the first refused write |
| `Driver.Link.SendCommands` | i2c_OLED-SInvader-new.py:188-190 | commands go out one frame each, in order, up to the first refused write |
| `Driver.Link.Flush` | i2c_OLED-SInvader-new.py:185-192 | update_display sends exactly the 32-frame flush of the buffer, or a prefix of it that ends at the refused frame |
| `Driver.Link.SendPage` | i2c_OLED-SInvader-new.py:188-192 | one page goes out as its three commands and its data frame |
| `Driver.Display.constructor` | i2c_OLED-SInvader-new.py:33 | a new driver holds a fresh all-zero 1024-byte buffer that shows nothing |
| `Driver.Display.ClearDisplay` | i2c_OLED-TimeDate.py:99-111 | clear_display leaves a fresh all-zero buffer; the flushing copies send the 8-page zero flush, the others send nothing |
| `Driver.Display.InitializeDisplay` | i2c_OLED-SInvader-new.py:72-109 | the power-up table, then clear_display, up to the first refused write; on success the buffer is zero |
| `Driver.Display.UpdateDisplay` | i2c_OLED-SInvader-new.py:185-192 | update_display sends the flush of the current buffer |
| `Driver.Display.DrawPixel` | i2c_OLED-SInvader-new.py:115-128 | the buffer becomes `SetPixel` of the old one, and the picture is the old one with that pixel repainted |
| `Driver.Display.SetBit` | i2c_OLED-SInvader-new.py:124-128 | the in-place `\|=` or `&=` on the pixel's byte is `SetPixel` |
| `Driver.Display.DrawRect` | i2c_OLED-SInvader-new.py:130-133 | draw_rect repaints exactly the on-screen pixels of `[x, x+w) x [y, y+h)` in the colour; nothing for w <= 0 or h <= 0 |
| `Driver.Display.DrawColumn` | i2c_OLED-SInvader-new.py:132-133 | the inner loop repaints exactly column x+i, rows y..y+h-1 |
| `Driver.Display.DrawText` | i2c_OLED-SInvader-new.py:135-140 | draw_text redraws its glyph columns: each pixel lit as its glyph bit says, everything else untouched |
| `Driver.Display.DrawTextChar` | i2c_OLED-SInvader-new.py:137-140 | the column loop of one character draws all its glyph's columns |
| `Driver.Display.DrawTextBits` | i2c_OLED-SInvader-new.py:139-140 | the bit loop draws all eight rows of one glyph column |
| `Driver.Display.DrawTextBit` | i2c_OLED-SInvader-new.py:140 | one pass draws one more pixel of the glyph |
| `Driver.Display.DrawTextScaled` | i2c_OLED-TimeDate.py:124-179 | the clock's draw_text paints exactly the scaled blocks of its known characters' set bits in the colour |
| `Driver.Display.DrawGlyph` | i2c_OLED-TimeDate.py:172-178 | the column, bit and block loops of one glyph add exactly its scaled shape |
| `Driver.Display.DrawBall` | i2c_OLED-BALL.py:124-129 | draw_ball repaints exactly the on-screen pixels of the disc in the colour |
| `Driver.Display.DrawDiscRow` | i2c_OLED-BALL.py:127-129 | the inner loop adds the disc's points of column i |
| `Driver.Display.DrawDiscPoint` | i2c_OLED-BALL.py:128-129 | one pass adds offset (i, j) exactly when it passes the circle test |
| `Driver.Display.PlotNext` | i2c_OLED-Cube.py:135 | one pass plots the next point of the line |
| `Driver.Display.DrawLine` | i2c_OLED-Cube.py:126-144 | draw_line repaints exactly the points of `LinePoints` that lie on screen |
| `Cube.WireframePoints` | i2c_OLED-Cube.py:196-200 | the wireframe is exactly the on-screen points of the edges' Bresenham lines |
| `Cube.WireframeSnoc` | i2c_OLED-Cube.py:196-200 | drawing one more edge adds its line to the picture |
| `Cube.PlotInBuffer` | i2c_OLED-Cube.py:216-223 | the inline write adds the next point of the line |
| `Cube.WriteBit` | i2c_OLED-Cube.py:217-223 | bit y % 8 of byte x + (y // 8) * 128 is set or cleared, which is `SetPixel` |
| `Cube.DrawLineInBuffer` | i2c_OLED-Cube.py:207-232 | the same points as draw_line, written only when on the 128x64 screen |
| `Cube.DrawCube` | i2c_OLED-Cube.py:184-205 | the new buffer shows exactly the wireframe; it replaces the display's buffer and is flushed only when it differs, otherwise nothing changes and nothing is sent |
| `Sprites.Clamp` | i2c_OLED-SInvader-new.py:227 | `max(lo, min(v, hi))` is within [lo, hi]; it equals v inside and the nearer bound outside |
| `Sprites.Rise` | i2c_OLED-SInvader-new.py:238 | moving the player's bullets never adds one |
| `Sprites.Fall` | i2c_OLED-SInvader-new.py:272 | moving the enemy bullets never adds one |
| `Sprites.RiseMembers` | i2c_OLED-SInvader-new.py:238 | a bullet survives exactly when `y > 0`, and it moves up by the speed |
| `Sprites.FallMembers` | i2c_OLED-SInvader-new.py:272 | a bullet survives exactly when `y < 64`, and it moves down by the speed |
| `Sprites.FirstHit` | i2c_OLED-SInvader-new.py:291-298 | the scan stops at the first invader whose inclusive box `[ex, ex+w] x [ey, ey+h]` holds the bullet, or finds none |
| `Sprites.RemoveValue` | i2c_OLED-SInvader-new.py:296 | `list.remove` drops one occurrence of the value: one element fewer, the same multiset less that value |
| `Sprites.RemoveFirst` | i2c_OLED-SInvader-new.py:296 | removing by value the element with no equal before it removes that very element |
| `Sprites.Formation` | i2c_OLED-SInvader-new.py:204-208 | the formation has rows x columns invaders |
| `Sprites.FormationAt` | i2c_OLED-SInvader-new.py:204-208 | row y, column x of the formation is entry `y * cols + x`, at (x * dx, y * dy) |
| `Sprites.Target` | i2c_OLED-SInvader-new.py:220 | `min` by key: the invader nearest the player's column, the lowest among equals, the first in list order among equal keys |
| `Sprites.Chase` | i2c_OLED-SInvader-new.py:216-227 | move_player stays within [0, hi]; it moves at most one step, towards the target, and stands still with no invaders |
| `Sprites.March` | i2c_OLED-SInvader-new.py:244-247 | every invader shifts by d along x, nothing else changes |
| `Sprites.MarchAt` | i2c_OLED-SInvader-new.py:244-247 | rewriting `enemies[i]` in place advances the march by one invader |
| `Sprites.Drop` | i2c_OLED-SInvader-new.py:256 | every invader moves down by d |
| `Sprites.Volley` | i2c_OLED-SInvader-new.py:288-301 | kept bullets are a subsequence of the bullets in order; the invaders left number exactly one fewer per bullet not kept, and each of them is an invader of the input |
| `Sprites.VolleyLeft` | i2c_OLED-SInvader-new.py:288-301 | the invaders left are a sub-multiset of the input, so with `Volley`'s count they are the input less exactly one invader per hitting bullet |
| `Sprites.VolleyLast` | i2c_OLED-SInvader-new.py:289-300 | one more bullet either removes the first remaining invader in its box or is kept |
| `Sprites.VolleyMisses` | i2c_OLED-SInvader-new.py:289-301 | no kept bullet lies in the box of a remaining invader |
| `Sprites.VolleySpares` | i2c_OLED-SInvader-new.py:289-301 | a bullet in no invader's box is kept |
| `Sprites.VolleyByValue` | i2c_OLED-Animation.py:278-285 | removing each hitting bullet by value from the live list ends in the same bullets and invaders as keeping the misses |
| `Sprites.DrawBoxes` | i2c_OLED-SInvader-new.py:322-323 | the loop of draw_rect calls adds every invader's rectangle to the picture |
| `Sprites.DrawDots` | i2c_OLED-SInvader-new.py:326-327 | the loop of draw_pixel calls adds every bullet to the picture |
| `Invaders.AtEdgeSnoc` | i2c_OLED-SInvader-new.py:250-251 | the edge flag after i+1 invaders is the flag after i, or'ed with the new invader's edge test |
| `Invaders.MarchRigid` | i2c_OLED-SInvader-new.py:240-260 | move_enemies shifts every invader alike, drops all of them on an edge hit, and reverses once per edge hit and once per random flip |
| `Invaders.InitialGood` | i2c_OLED-SInvader-new.py:199-213 | reset_game starts a game that satisfies the frame invariant, with ten invaders |
| `Invaders.FireCap` | i2c_OLED-SInvader-new.py:229-234 | fire_bullet adds at most one bullet, exactly when fewer than 3 fly and the fire interval has passed, so never more than 3 |
| `Invaders.TickGood` | i2c_OLED-SInvader-new.py:353-360 | a frame keeps the player on screen and on its row, at most 3 bullets and a unit direction, and never adds an invader |
| `Invaders.Game.constructor` | i2c_OLED-SInvader-new.py:195-197 | a new game is the reset game |
| `Invaders.Game.ResetGame` | i2c_OLED-SInvader-new.py:199-214 | reset_game sets every field to the initial world |
| `Invaders.Game.MovePlayer` | i2c_OLED-SInvader-new.py:216-227 | the fields become the `PlayerMoved` step of the old ones |
| `Invaders.Game.FireBullet` | i2c_OLED-SInvader-new.py:229-234 | the fields become the `Fired` step of the old ones |
| `Invaders.Game.MoveBullets` | i2c_OLED-SInvader-new.py:236-238 | the fields become the `BulletsMoved` step of the old ones |
| `Invaders.Game.MarchInPlace` | i2c_OLED-SInvader-new.py:244-251 | the index loop marches every invader and reports whether one touches an edge |
| `Invaders.Game.MoveEnemies` | i2c_OLED-SInvader-new.py:240-260 | the fields become the `EnemiesMoved` step of the old ones |
| `Invaders.Game.EnemyFireBullet` | i2c_OLED-SInvader-new.py:262-268 | the fields become the `EnemyFired` step of the old ones |
| `Invaders.Game.MoveEnemyBullets` | i2c_OLED-SInvader-new.py:270-272 | the fields become the `EnemyBulletsMoved` step of the old ones |
| `Invaders.Game.Strike` | i2c_OLED-SInvader-new.py:291-298 | the first invader whose box holds the bullet is removed and the bullet is reported hit; otherwise nothing changes |
| `Invaders.Game.SweepBullets` | i2c_OLED-SInvader-new.py:288-301 | the bullet loop leaves the bullets and invaders of `Volley` |
| `Invaders.Game.HitPlayer` | i2c_OLED-SInvader-new.py:304-307 | the game is over when an enemy bullet is in the player's inclusive box |
| `Invaders.Game.CheckLanding` | i2c_OLED-SInvader-new.py:310-313 | the game is over when an invader's bottom reaches the player's row |
| `Invaders.Game.CheckCollisions` | i2c_OLED-SInvader-new.py:286-313 | the fields become the `Collided` step of the old ones |
| `Invaders.Game.Draw` | i2c_OLED-SInvader-new.py:315-333 | the screen shows exactly the player, the invaders and both kinds of bullet, and that buffer is flushed |
| `Invaders.Game.DisplayMessage` | i2c_OLED-SInvader-new.py:335-339 | the screen shows exactly the message at (0, 28), and that buffer is flushed |
| `Invaders.Game.Update` | i2c_OLED-SInvader-new.py:341-362 | update reports an end exactly when the game was lost or no invader was left, showing the matching message; otherwise it plays one frame and shows it |
| `Invaders.Game.Won` | i2c_OLED-SInvader-new.py:347-351 | with no invaders left, victory is set and "Player Wins!" shown |
| `Invaders.Game.Frame` | i2c_OLED-SInvader-new.py:353-361 | the moves in source order, the collision check and the redraw: the fields become `Tick` of the old ones |
| `Animation.FutureX` | i2c_OLED-Animation.py:256-257 | the predicted column is clamped to [0, 128 - player_width], and is the raw prediction when that is already inside |
| `Animation.Aligned` | i2c_OLED-Animation.py:259 | no more aligned invaders than invaders, and each one kept is an invader that covers the predicted column |
| `Animation.AlignedMembers` | i2c_OLED-Animation.py:259 | an invader is aligned exactly when its inclusive column range covers the predicted column |
| `Animation.BottomY` | i2c_OLED-Animation.py:264 | `max(e[1] ...)` is the y of some invader and no invader is lower |
| `Animation.RowAt` | i2c_OLED-Animation.py:265 | no more than the invaders, and each one kept is an invader on row y |
| `Animation.RowAtMembers` | i2c_OLED-Animation.py:265 | an invader is in the row exactly when its y is the row's |
| `Animation.BottomRowHasOne` | i2c_OLED-Animation.py:264-266 | the bottom row is never empty, so `random.choice` always has a candidate |
| `Animation.Shooters` | i2c_OLED-Animation.py:259-266 | fire_enemy_bullet always has a shooter to choose from |
| `Animation.ShooterChoice` | i2c_OLED-Animation.py:259-266 | the shooter is an invader; it covers the predicted column when any invader does, and otherwise it is in the bottom row |
| `Animation.FirstInBox` | i2c_OLED-Animation.py:288-293 | the scan stops at the first enemy bullet in the player's inclusive box, or finds none |
| `Animation.InitialGood` | i2c_OLED-Animation.py:192-207 | a new game satisfies the frame invariant, with twelve invaders and the player at (63, 60) |
| `Animation.CollidedGood` | i2c_OLED-Animation.py:276-297 | the collision check keeps the invariant and never adds an invader |
| `Animation.FrameGood` | i2c_OLED-Animation.py:329-339 | a pass of the game loop keeps the invariant and never adds an invader |
| `Animation.LostFrame` | i2c_OLED-Animation.py:288-293 | a round is lost exactly when, after the moves, an enemy bullet is in the player's box |
| `Animation.Game.constructor` | i2c_OLED-Animation.py:192-207 | a new game is the initial world |
| `Animation.Game.MovePlayer` | i2c_OLED-Animation.py:209-220 | the fields become the `PlayerMoved` step of the old ones |
| `Animation.Game.FireBullet` | i2c_OLED-Animation.py:222-227 | the fields become the `Fired` step of the old ones |
| `Animation.Game.MoveBullets` | i2c_OLED-Animation.py:229-231 | the fields become the `BulletsMoved` step of the old ones |
| `Animation.Game.MarchInPlace` | i2c_OLED-Animation.py:235-238 | the index loop marches every invader by `enemy_direction * enemy_speed` |
| `Animation.Game.MoveEnemies` | i2c_OLED-Animation.py:233-249 | the fields become the `EnemiesMoved` step of the old ones |
| `Animation.Game.ChooseShooter` | i2c_OLED-Animation.py:256-266 | the shooter is entry `pick` (modulo the pool size) of `Shooters`: the aligned invaders, or the bottom row when none is aligned |
| `Animation.Game.FireEnemyBullet` | i2c_OLED-Animation.py:251-270 | the fields become the `EnemyFired` step of the old ones |
| `Animation.Game.MoveEnemyBullets` | i2c_OLED-Animation.py:272-274 | the fields become the `EnemyBulletsMoved` step of the old ones |
| `Animation.Game.Shoot` | i2c_OLED-Animation.py:280-285 | on the first invader holding the bullet, that bullet and that invader are both removed by value; otherwise nothing changes |
| `Animation.Game.ShootNext` | i2c_OLED-Animation.py:278-285 | one pass of the bullet loop over the copy keeps the lists equal to `Volley` over the bullets seen, followed by the rest |
| `Animation.Game.SweepBullets` | i2c_OLED-Animation.py:278-285 | the bullet loop leaves the bullets and invaders of `Volley` |
| `Animation.Game.Judge` | i2c_OLED-Animation.py:288-297 | the first enemy bullet in the player's box is removed and the game lost, returning early; otherwise victory is set when no invader is left |
| `Animation.Game.PlayerShot` | i2c_OLED-Animation.py:290-293 | `enemy_bullets.remove` drops that bullet, and the game is over |
| `Animation.Game.CheckCollisions` | i2c_OLED-Animation.py:276-297 | the fields become the `Collided` step of the old ones |
| `Animation.Game.Draw` | i2c_OLED-Animation.py:299-324 | the screen shows the win message, the loss message or the scene, and that buffer is flushed |
| `Animation.Game.DrawPicture` | i2c_OLED-Animation.py:303-321 | on the cleared screen, "YOU WIN!" at (40, 28) after a win, "YOU LOST!" at (32, 28) after a loss, the scene otherwise |
| `Animation.Game.DrawScene` | i2c_OLED-Animation.py:308-321 | on the cleared screen, exactly the player, both kinds of bullet and the invaders |
| `Animation.Game.Step` | i2c_OLED-Animation.py:329-341 | one pass of the game loop: the fields become `Frame` of the old ones and the screen shows the result |
| `Pong.Sign` | i2c_OLED-PONG.py:144 | `random.choice([-1, 1])` is -1 or 1 |
| `Pong.Follow` | i2c_OLED-PONG.py:176-186 | paddle_ai returns a value in [0, 52]; it moves at most paddle_speed towards the ball from the paddle's middle, and not at all when level with it |
| `Pong.KickoffGood` | i2c_OLED-PONG.py:137-144 | a new game satisfies the invariant, with paddle 1 at 26 and the ball at (64, 32) |
| `Pong.PlayGood` | i2c_OLED-PONG.py:146-174 | update keeps both paddles in court and `\|ball_dx\| = \|ball_dy\| = 5`; only the paddle the ball heads for moves; the ball moved by its velocity or restarted at the centre |
| `Pong.OneSideOnly` | i2c_OLED-PONG.py:156-168 | a ball handled at the left edge is either reset or turned, and is not handled again at the right |
| `Pong.ReturnedBall` | i2c_OLED-PONG.py:156-168 | a paddle that meets the ball at its column turns it back horizontally, and the ball is not reset |
| `Pong.Game.constructor` | i2c_OLED-PONG.py:137-144 | the fields are the kickoff world |
| `Pong.Game.ResetBall` | i2c_OLED-PONG.py:188-192 | the ball is back at (64, 32) with both velocity components ±5 |
| `Pong.Game.Update` | i2c_OLED-PONG.py:146-174 | the fields become the `Play` step of the old ones |
| `Pong.Game.MoveBall` | i2c_OLED-PONG.py:148-153 | the ball moves by its velocity, and dy turns at the top and bottom edges |
| `Pong.Game.CheckLeft` | i2c_OLED-PONG.py:156-161 | at the left paddle's column the ball is turned when the paddle meets it, reset otherwise |
| `Pong.Game.CheckRight` | i2c_OLED-PONG.py:163-168 | at the right paddle's column the ball is turned when the paddle meets it, reset otherwise |
| `Pong.Game.ChasePaddle` | i2c_OLED-PONG.py:170-174 | the left paddle follows when `ball_dx < 0`, the right one otherwise |
| `Pong.Game.Draw` | i2c_OLED-PONG.py:194-204 | the screen shows exactly both paddles and the ball, and that buffer is flushed |
| `Pong.Game.Step` | i2c_OLED-PONG.py:208-210 | one pass of main: update, then draw |
| `Ball.Reflection` | i2c_OLED-BALL.py:149-156 | each component turns exactly when the moved centre is at its edges, and the ball keeps full speed |
| `Ball.BounceGood` | i2c_OLED-BALL.py:149-156 | a frame keeps the ball's centre in columns 1..124 and rows 2..62 |
| `Ball.RunGood` | i2c_OLED-BALL.py:141-156 | after any number of frames the centre is on screen and `\|dx\| = \|dy\| = ball_step` |
| `Ball.BounceBall` | i2c_OLED-BALL.py:140-162 | after each frame the screen shows the ball's disc alone, at its current centre |
| `Life.ZeroGrid` | i2c_OLED-LIFE.py:155 | `[[0 ...] ...]` has the requested shape and only dead cells |
| `Life.NeighborSumBounds` | i2c_OLED-LIFE.py:144-151 | over a 0/1 grid, k neighbours add up to between 0 and k |
| `Life.NeighborsBounds` | i2c_OLED-LIFE.py:144-151 | a cell of a 0/1 grid has between 0 and 8 live neighbours |
| `Life.NeighborSumDead` | i2c_OLED-LIFE.py:148-150 | on an all-dead grid every neighbour count is 0 |
| `Life.CountNeighbors` | i2c_OLED-LIFE.py:144-151 | the loop adds up the eight neighbours with wrap-around indices |
| `Life.Rule` | i2c_OLED-LIFE.py:159-168 | a cell's next state is 0 or 1 |
| `Life.Next` | i2c_OLED-LIFE.py:153-169 | the next generation has the grid's shape and only 0/1 cells |
| `Life.NextCell` | i2c_OLED-LIFE.py:159-168 | a cell lives next exactly when it is alive with 2 or 3 neighbours or dead with exactly 3 |
| `Life.DeadCell` | i2c_OLED-LIFE.py:166-168 | no cell of an all-dead grid is born |
| `Life.DeadStaysDead` | i2c_OLED-LIFE.py:153-169 | an all-dead grid maps to an all-dead grid |
| `Life.Evolve` | i2c_OLED-LIFE.py:187-193 | every generation keeps the grid's shape |
| `Life.UpdateGrid` | i2c_OLED-LIFE.py:153-169 | update_grid returns the next generation, every cell computed from the unchanged input grid |
| `Life.UpdateRow` | i2c_OLED-LIFE.py:157-168 | the inner loop fills row y of the next generation |
| `Life.BlockCell` | i2c_OLED-LIFE.py:177 | a pixel of cell (x, y)'s block belongs to that cell and no other |
| `Life.CellBlock` | i2c_OLED-LIFE.py:177 | every pixel lies in the block of its cell |
| `Life.ChangedStep` | i2c_OLED-LIFE.py:173-177 | cell (x, y) adds its block to the redrawn region exactly when it differs from the previous grid |
| `Life.BlockInk` | i2c_OLED-LIFE.py:175-177 | within a cell's block the live cells light everything or nothing, as the cell is alive or dead |
| `Life.CellRedrawn` | i2c_OLED-LIFE.py:175-177 | drawing a cell in its own colour redraws its block as the grid shows it |
| `Life.RedrawShows` | i2c_OLED-LIFE.py:171-180 | redrawing only the changed cells over the previous grid's picture shows exactly the current grid |
| `Life.Unchanged` | i2c_OLED-LIFE.py:171-177 | outside the changed blocks both grids light the same pixels |
| `Life.DeadUnlit` | i2c_OLED-LIFE.py:185 | the all-dead grid lights nothing |
| `Life.DrawCell` | i2c_OLED-LIFE.py:126-129 | draw_cell repaints exactly the on-screen pixels of `[x, x+size) x [y, y+size)` |
| `Life.DisplayRow` | i2c_OLED-LIFE.py:174-177 | one row of display_grid redraws that row's changed cells |
| `Life.DisplayGrid` | i2c_OLED-LIFE.py:171-180 | display_grid redraws exactly the changed cells in their current colours, then flushes the buffer |
| `Life.GameOfLife` | i2c_OLED-LIFE.py:182-193 | after every displayed generation the screen shows exactly that generation |
| `Clock.Layout` | i2c_OLED-TimeDate.py:192-195 | for text size 2, the time is at x 16, y 16 and the date at x 4, y 34 |
| `Clock.ClockTextKnown` | i2c_OLED-TimeDate.py:126-167 | a string of digits, ':' and '/' is drawn in full |
| `Clock.StrftimeIsClockText` | i2c_OLED-TimeDate.py:203-204 | the two strftime strings of a valid time are such strings |
| `Clock.CellColumns` | i2c_OLED-TimeDate.py:211 | character i's cell is the 6*size columns from `x + i * 6 * size` |
| `Clock.GlyphInCell` | i2c_OLED-TimeDate.py:172-179 | a five-column glyph stays inside its 6*size by 8*size cell |
| `Clock.Glyph` | i2c_OLED-TimeDate.py:171 | a known character's five glyph columns |
| `Clock.CharGlyph` | i2c_OLED-TimeDate.py:170-178 | a known character draws its glyph's shape |
| `Clock.LineGlyphs` | i2c_OLED-TimeDate.py:169-179 | a line of known characters lights its glyphs, character i in cell i |
| `Clock.LineAt` | i2c_OLED-TimeDate.py:169-179 | a pixel of a line belongs to the glyph of the cell it falls in |
| `Clock.ErasedAt` | i2c_OLED-TimeDate.py:209-214 | a pixel is cleared exactly when it lies in the cell of a position that is past the new string's end or differs from it |
| `Clock.LineRows` | i2c_OLED-TimeDate.py:172-178 | a line stays within rows y..y+8*size-1 |
| `Clock.CellWithin` | i2c_OLED-TimeDate.py:211-214 | the cleared cells lie within the line's first n cells |
| `Clock.KeptGlyph` | i2c_OLED-TimeDate.py:209-216 | a glyph pixel that is not cleared belongs to the new line when unchanged positions keep their glyphs |
| `Clock.Kept` | i2c_OLED-TimeDate.py:209-216 | a pixel of the previous line that is not cleared is a pixel of the new line |
| `Clock.LineRedrawn` | i2c_OLED-TimeDate.py:207-216 | clearing the stale cells and drawing the new text leaves exactly the new line, and rows outside the line untouched |
| `Clock.TickShows` | i2c_OLED-TimeDate.py:207-227 | redrawing only the changed characters turns the previous reading's face into the new reading's face |
| `Clock.BlankFace` | i2c_OLED-TimeDate.py:197-198 | the empty start strings show nothing |
| `Clock.ClearCell` | i2c_OLED-TimeDate.py:212-214 | the j and k loops clear exactly the 6*size by 8*size cell |
| `Clock.ClearRow` | i2c_OLED-TimeDate.py:213-214 | the k loop clears one row of the cell |
| `Clock.EraseStale` | i2c_OLED-TimeDate.py:209-214 | the clearing loop clears exactly the cells of the stale positions |
| `Clock.RedrawLine` | i2c_OLED-TimeDate.py:207-216 | a changed line is cleared where stale and drawn again; an unchanged one is left alone |
| `Clock.Refresh` | i2c_OLED-TimeDate.py:207-230 | one pass redraws both lines, then flushes the buffer |
| `Clock.DisplayTimeAndDate` | i2c_OLED-TimeDate.py:190-236 | after every reading the screen shows exactly that reading's time and date |
| `Clock.ShowReading` | i2c_OLED-TimeDate.py:200-234 | one pass turns the previous reading's face into the new one's |
| `Primes.ISqrt` | i2c_OLED-Good.py:131 | `int(num ** 0.5)` taken exactly: the largest r with `r * r <= n` |
| `Primes.RootBelow` | i2c_OLED-Good.py:131 | every trial divisor is a proper divisor |
| `Primes.RootSuffices` | i2c_OLED-Good.py:131-134 | no divisor in 2..isqrt(n) means n is prime |
| `Primes.IsPrime` | i2c_OLED-Good.py:128-134 | is_prime is true exactly for the primes, so false for every n <= 1 |
| `Primes.Decimal` | i2c_OLED-Good.py:114 | `str(n)` is a non-empty string of digits without a leading zero |
| `Primes.DecimalValue` | i2c_OLED-Good.py:114 | the digits of `str(n)` read back as n |
| `Primes.NumberData` | i2c_OLED-Good.py:115-118 | the layout has six columns per known character |
| `Primes.DigitColumns` | i2c_OLED-Good.py:116-118 | digit k of `str(n)` contributes its five glyph columns then one 0x00 column, at columns 6k..6k+5 |
| `Primes.DigitsData` | i2c_OLED-Good.py:116-118 | for a string of known characters, character k fills columns 6k..6k+5 |
| `Primes.Cut` | i2c_OLED-Good.py:126 | `data[:128]` is the first min(128, len) bytes |
| `Primes.CutOnlyLongNumbers` | i2c_OLED-Good.py:126 | a number is shown whole exactly when it has at most 21 digits |
| `Primes.PrimesBelowAre` | i2c_OLED-Good.py:136-142 | the list `PrimesBelow(n)` holds exactly the primes below n |
| `Primes.PrimesBelowIncrease` | i2c_OLED-Good.py:136-142 | that list is strictly increasing |
| `Primes.ShownArePrimes` | i2c_OLED-Good.py:136-142 | the frames the loop sends below n are display_number's frames for each entry of `PrimesBelow(n)` in turn, so the numbers shown are exactly the primes below n, in increasing order |
| `Primes.ShownStep` | i2c_OLED-Good.py:138-142 | each pass adds the frames of num exactly when num is prime |
| `Primes.ShownStops` | i2c_OLED-Good.py:138-142 | a refused write while showing num ends a failed run of the whole sequence |
| `Primes.ShownGoesOn` | i2c_OLED-Good.py:138-142 | a pass that went through extends the frames shown by those of num |
| `Primes.ShownPrefix` | i2c_OLED-Good.py:136-142 | the frames up to a smaller bound lead those up to a larger one |
| `Primes.Counter.constructor` | i2c_OLED-Good.py:8-10 | the counter talks to the given bus and address |
| `Primes.Counter.ClearDisplay` | i2c_OLED-Good.py:89-95 | eight pages, each three commands and 128 zero bytes, up to the first refused write |
| `Primes.Counter.InitializeDisplay` | i2c_OLED-Good.py:49-87 | the power-up table, then the clear, up to the first refused write |
| `Primes.Counter.DisplayNumber` | i2c_OLED-Good.py:97-126 | 0xB0, 0x00, 0x10, then one data frame with the first 128 bytes of the number's layout |
| `Primes.Counter.ShowIfPrime` | i2c_OLED-Good.py:139-142 | one pass shows num exactly when it is prime |
| `Primes.Counter.GeneratePrimes` | i2c_OLED-Good.py:136-142 | the trace is display_number's frames for each entry of `PrimesBelow(limit)`, in order, up to the first refused write |
| `Rtc.DecodeEncoded` | i2c_OLED-ds3230.py:82-88 | `bcd_to_dec(dec_to_bcd(d)) = d` for 0 <= d <= 99, through a valid BCD byte |
| `Rtc.EncodeDecoded` | i2c_OLED-ds3230.py:82-88 | a valid BCD byte decodes to 0..99 and encodes back to itself |
| `Rtc.DecodeRange` | i2c_OLED-ds3230.py:83-84 | any register byte decodes to 0..165, since nibbles above 9 are not rejected |
| `Rtc.BcdOrder` | i2c_OLED-ds3230.py:83-84 | valid BCD bytes compare as the numbers they encode |
| `Rtc.DaysInMonth` | i2c_OLED-ds3230.py:73 | months have 28 to 31 days, 29 exactly for February of a leap year |
| `Rtc.DaysBeforeMonth` | i2c_OLED-ds3230.py:73 | the days before month m are at most 31 per month |
| `Rtc.IsoWeekday` | i2c_OLED-ds3230.py:73 | isoweekday is 1..7 |
| `Rtc.NextDay` | i2c_OLED-ds3230.py:73 | the next day of a month falls on the next day of the week |
| `Rtc.RtcWeekday` | i2c_OLED-ds3230.py:73 | `isoweekday() % 7 + 1` sends Monday..Saturday to 2..7 and Sunday to 1 |
| `Rtc.DayOfWeekStr` | i2c_OLED-ds3230.py:90-92 | every integer names a day, with 1 "Sunday" and 7 "Saturday" |
| `Rtc.DayNamesRepeat` | i2c_OLED-ds3230.py:90-92 | the names repeat every seven days |
| `Rtc.WeekdayNamed` | i2c_OLED-ds3230.py:110 | the weekday set_time writes is named after the weekday of the date |
| `Rtc.ShortDayStr` | i2c_OLED-ds3231-1.py:160 | the short-name index succeeds exactly for weekdays -6..7, since Python indexes from the end for negative values |
| `Rtc.ShortNames` | i2c_OLED-ds3231-1.py:160 | for weekdays 1..7 the short name is the full name's first three letters |
| `Rtc.Fields` | i2c_OLED-ds3230.py:57-66 | the masked fields: year 2000..2165, seconds at most 85, hours at most 45, month at most 25 |
| `Rtc.DecodeTime` | i2c_OLED-ds3230.py:57-66 | read_time yields a reading exactly when the masked fields form a valid date and time |
| `Rtc.FlagsIgnored` | i2c_OLED-ds3230.py:59-64 | the bits removed by the masks 0x7F, 0x3F and 0x1F do not change the reading |
| `Rtc.TimeRegisters` | i2c_OLED-ds3230.py:69-77 | set_time writes seven values |
| `Rtc.RegisterFrames` | i2c_OLED-ds3230.py:78-79 | value i is written to register i, in order |
| `Rtc.Stored` | i2c_OLED-ds3230.py:30-36 | the registers hold seven bytes after set_time |
| `Rtc.StoredIsWritten` | i2c_OLED-ds3230.py:30-37 | frame i of set_time is `[addr << 1, i, byte]` with the byte the register then holds |
| `Rtc.StoredDigits` | i2c_OLED-ds3230.py:70-77 | the BCD value of a two-digit field fits a byte unchanged |
| `Rtc.FieldBack` | i2c_OLED-ds3230.py:58-65 | a two-digit field's BCD value reads back as the field, also under each mask that keeps its digits |
| `Rtc.Written` | i2c_OLED-ds3230.py:70-77 | the byte written for a field reads back as that field under the read mask |
| `Rtc.ReadBack` | i2c_OLED-ds3230.py:57-79 | set_time then read_time returns the same date and time, for years 2000..2099, and the DS3231 weekday |
| `Rtc.Padded` | i2c_OLED-ds3230.py:96-97 | a zero-padded field has exactly w digits |
| `Rtc.PaddedValue` | i2c_OLED-ds3230.py:96-97 | its digits read back as the number |
| `Rtc.TimeString` | i2c_OLED-ds3230.py:96 | `strftime('%H:%M:%S')` is 8 characters with ':' at 2 and 5 |
| `Rtc.DateString` | i2c_OLED-ds3230.py:97 | `strftime('%m/%d/%Y')` is 10 characters with '/' at 2 and 5 |
| `Rtc.StringsAreDigits` | i2c_OLED-ds3230.py:96-97 | both strings hold only digits and their separators |
| `Rtc.TimeStringFields` | i2c_OLED-ds3230.py:96 | the time string reads back as hour, minute and second |
| `Rtc.DateStringFields` | i2c_OLED-ds3230.py:97 | the date string reads back as month, day and year |
| `Rtc.Lines` | i2c_OLED-ds3230.py:99 | the label is the three strings on three lines, each readable back from its place |
| `Rtc.SyncSettles` | i2c_OLED-ds3230.py:113-116 | right after a resync the clock reads back in range and on the right weekday, so no second resync follows |
| `Rtc.ReadRequest` | i2c_OLED-ds3230.py:41-47 | the read request is `[addr << 1, 0x00]` |
| `Rtc.Ds3231.constructor` | i2c_OLED-ds3230.py:53-55 | the clock talks to the given bus and address |
| `Rtc.Ds3231.ReadTime` | i2c_OLED-ds3230.py:57-66 | read_time sends one request for 7 bytes; the reading is `DecodeTime` of them exactly when the bridge reports success, and nothing otherwise |
| `Rtc.Ds3231.SetTime` | i2c_OLED-ds3230.py:68-79 | registers 0..6 are written in order, up to the first refused write |
| `Rtc.Synchronise` | i2c_OLED-ds3230.py:107-116 | the reading is `DecodeTime` of the registers read when the read succeeds; the clock is rewritten exactly when the drift exceeds 15 s or the weekday differs; a failed read ends the program after its one request |
| `Rtc.UpdateDisplay` | i2c_OLED-ds3230.py:94-99 | one read; the label is the three-line text of `DecodeTime` of the registers read exactly when the read succeeds with a valid date, and there is none otherwise |
| `Oled32.TablesDiffer` | i2c_OLED-ds3231-1.py:83-100 | the 128x32 table differs from the 128x64 one only in multiplex 0x1F, COM pins 0x02 and contrast 0x8F |
| `Oled32.SameFrames` | i2c_OLED-ds3231-1.py:29-38 | a register write with register 0x00 or 0x40 is the same frame as a command or one-byte data frame |
| `Oled32.DataWrites` | i2c_OLED-ds3231-1.py:143-144 | one data write per byte, in order |
| `Oled32.InitFrames` | i2c_OLED-ds3231-1.py:101-102 | initialize_display sends one command per table entry, in order |
| `Oled32.PageClear` | i2c_OLED-ds3231-1.py:110-114 | one page of clear_display is 3 commands then 128 zero data writes |
| `Oled32.ClearPages` | i2c_OLED-ds3231-1.py:109-114 | n pages are 131n writes |
| `Oled32.ClearCarriesZeros` | i2c_OLED-ds3231-1.py:107-114 | the display data of clear_display is 128 zeros per page and nothing else |
| `Oled32.PageZeros` | i2c_OLED-ds3231-1.py:113-114 | one page's display data is 128 zeros |
| `Oled32.PositionCarriesNothing` | i2c_OLED-ds3231-1.py:118-120 | the positioning commands carry no display data |
| `Oled32.Glyph` | i2c_OLED-ds3231-1.py:142 | a character outside the font falls back to the space glyph |
| `Oled32.Columns` | i2c_OLED-ds3231-1.py:141-144 | draw_text sends five columns per character |
| `Oled32.ColumnsAt` | i2c_OLED-ds3231-1.py:141-144 | column j of character i is column j of its glyph |
| `Oled32.TextFrames` | i2c_OLED-ds3231-1.py:116-144 | draw_text is 3 positioning commands and 5 data writes per character |
| `Oled32.TextFrameAt` | i2c_OLED-ds3231-1.py:141-144 | write 3 + 5i + j carries column j of character i's glyph |
| `Oled32.ColumnAddressed` | i2c_OLED-ds3231-1.py:118-120 | the nibble commands are 0x00..0x0F and 0x10..0x1F, and recombine to x for every column 0..127 |
| `Oled32.TextCarriesGlyphs` | i2c_OLED-ds3231-1.py:116-144 | the display data of draw_text is exactly its text's glyph columns |
| `Oled32.ClockCharsInFont` | i2c_OLED-ds3231-1.py:158-159 | every character of the time and date strings is in the font |
| `Oled32.DayNamesBlank` | i2c_OLED-ds3231-1.py:160-168 | the short day names mostly fall back to blanks: Monday shows an M and two blanks, every other day three blanks |
| `Oled32.RowsOf` | i2c_OLED-ds3231-1.py:157-160 | a reading yields rows exactly when its weekday indexes the day list |
| `Oled32.RefreshIdle` | i2c_OLED-ds3231-1.py:163-173 | nothing is sent when no row changed |
| `Oled32.FirstRefresh` | i2c_OLED-ds3231-1.py:152-173 | the first pass draws all three rows, in order, on pages 0, 1 and 2 |
| `Oled32.Display.constructor` | i2c_OLED-ds3231-1.py:76-78 | the panel talks to the given bus and address |
| `Oled32.Display.InitializeDisplay` | i2c_OLED-ds3231-1.py:81-102 | the table goes out one write each, up to the first refused write |
| `Oled32.Display.ClearPage` | i2c_OLED-ds3231-1.py:110-114 | one page of clear_display, up to the first refused write |
| `Oled32.Display.ClearDisplay` | i2c_OLED-ds3231-1.py:107-114 | four pages of 128 zero bytes, up to the first refused write |
| `Oled32.Display.DrawText` | i2c_OLED-ds3231-1.py:116-144 | the positioning commands then five data writes per character, up to the first refused write |
| `Oled32.Display.SendGlyph` | i2c_OLED-ds3231-1.py:143-144 | the five columns of one character |
| `Oled32.Display.DrawRow` | i2c_OLED-ds3231-1.py:163-165 | a row is drawn at column 0 of its page exactly when it changed |
| `Oled32.Display.Refresh` | i2c_OLED-ds3231-1.py:163-173 | the rows that changed are redrawn, in order |
| `Oled32.NewDisplay` | i2c_OLED-ds3231-1.py:76-79 | constructing the panel runs initialize_display |
| `Oled32.Tick` | i2c_OLED-ds3231-1.py:156-173 | one pass reads the clock; the rows are `RowsOf` the registers read exactly when the read succeeds with a valid date, and the changed rows are redrawn; a failed read, an invalid date or a bad weekday ends it with the read request as the only frame sent |
| `Dht12.Request` | i2c_DHT12_module_temperature_humidity.py:53-54 | the request is two bytes, register 0 second |
| `Dht12.RequestBytes` | i2c_DHT12_module_temperature_humidity.py:54 | the first request byte is 0xB8: address 0x5C with the write bit |
| `Dht12.Checksum` | i2c_DHT12_module_temperature_humidity.py:62 | the checksum is a byte, the sum itself when that is below 256 |
| `Dht12.Decode` | i2c_DHT12_module_temperature_humidity.py:60-65 | four fields exactly when the bridge reported success and the checksum matches, and then bytes 0..3 unchanged; otherwise nothing, never a partial result |
| `Dht12.Encode` | i2c_DHT12_module_temperature_humidity.py:62-63 | a sensor frame is the four fields followed by their checksum |
| `Dht12.DecodeEncoded` | i2c_DHT12_module_temperature_humidity.py:60-65 | a sensor frame sent over a successful transfer reads back as its reading |
| `Dht12.AcceptedIsEncoded` | i2c_DHT12_module_temperature_humidity.py:62-63 | every accepted buffer is the frame of the reading it yields |
| `Dht12.FailureYieldsNothing` | i2c_DHT12_module_temperature_humidity.py:60-61 | a failed transfer yields nothing, whatever the buffer holds |
| `Dht12.OneByteCaught` | i2c_DHT12_module_temperature_humidity.py:62-65 | a valid frame with any single byte changed is rejected |
| `Dht12.Usb.constructor` | i2c_DHT12_module_temperature_humidity.py:36-45 | an opened bridge, nothing closed yet |
| `Dht12.Usb.CloseDevice` | i2c_DHT12_module_temperature_humidity.py:47-50 | the bridge is closed exactly when the handle is not -1 |
| `Dht12.Usb.ReadDht12` | i2c_DHT12_module_temperature_humidity.py:52-65 | one request goes out, five bytes come back, and the result is `Decode` of them; any reading is four bytes |
| `Dht12.Open` | i2c_DHT12_module_temperature_humidity.py:40-45 | opening fails exactly when the bridge returns handle -1 |
| `Dht12.Monitor` | i2c_DHT12_module_temperature_humidity.py:68-84 | one request per pass, stopping at the first failed reading, then one close; all readings kept are bytes |

## Left out

- Every CH347 DLL call is left out. These are the device open, `CH347StreamI2C`, `CH347StreamI2C_RetACK`, `CH347I2C_Set` and `CH347CloseDevice`. The model keeps only the frame each transfer carries and a success flag chosen by the bridge.
- `close_device` of the OLED drivers is left out: it only calls the DLL and prints.
- `i2c_Scanner.py` is not part of this model. It probes addresses 0x03..0x77 on the bus and prints a table.
- Console output is left out: `print`, `os.system('cls')`, the exception messages and the score lines of the Space Invaders `main`.
- The Tkinter window of `i2c_OLED-ds3230.py` is left out. `Rtc.UpdateDisplay` keeps only the reading and the label text; `label.after` and `root.mainloop` are not modelled.
- Floating point is left out in four places:
  - The cube's `rotate_point` and `project_point`. `Cube.DrawCube` takes the projected integer vertices as given.
  - The growing rotation angles.
  - `update_game_difficulty` in `i2c_OLED-SInvader-new.py`. After ten seconds it makes the speeds fractional.
  - The win percentage of that program's `main`.
- Invaders.Game.Update: the difficulty ramp is not modelled. The speeds and fire rates stay at their initial values, so only the first ten seconds of a game are modelled faithfully.
- Primes.IsPrime: the bound `int(num ** 0.5)` is taken as the exact integer square root. For numbers beyond the precision of a double, the float result may differ by one.
- Rtc.Synchronise: the drift `(system_time - current_time).total_seconds()` is a real number of seconds. Microseconds are a parameter.
- `time.time()`, `datetime.now()`, `time.sleep` and `random` become parameters (`now`, `system`, `flip`, `pick`, `up`). Delays are dropped.
- The endless top-level loops are bounded. `Ball.BounceBall`, `Life.GameOfLife`, `Clock.DisplayTimeAndDate`, `Primes.Counter.GeneratePrimes` and `Dht12.Monitor` run for a given number of passes or readings. `Oled32.Tick`, `Invaders.Game.Update`, `Animation.Game.Step` and `Pong.Game.Step` model one pass.
- The Space Invaders programs' restart and score loops are left out. They are sequences of the modelled steps.
- Exceptions are modelled as results:
  - A refused write ends the operation under way, with `ok` false and `Sent` stating what reached the bus.
  - `initialize_display` prints the error and carries on; the model's `ok` reports it.
  - `datetime.datetime` rejects an invalid date, which becomes `None`.
  - An out-of-range list index becomes `None`.
- PONG's `finally` names `oled.close_device` without calling it (`i2c_OLED-PONG.py:220`), so the bridge is never closed there. The model has no cleanup step, and so does not reproduce this.
- `Life.GameOfLife`: `initialize_grid` draws its cells with `random.choice`. The model takes the starting grid as a parameter of the right shape.
- Fonts.GetCharData: the model does not state that no glyph byte of this font has bit 7 set.
- Dht12.Checksum: `(sum) & 0xFF` is written as `sum % 256`. The two are equal for the non-negative sums of byte values.
- Dht12.Monitor: the `except` branch of `main` also breaks out of the loop, but only a DLL fault could raise there. The model treats a read as either a result or a failed transfer.
- The code is followed wherever it disagrees with a summary of it:
  - The clock's `draw_text` is case-sensitive and skips unknown characters without advancing.
  - The 128x32 panel's font has no lower-case letters, so the short day names mostly draw as blanks (`Oled32.DayNamesBlank`).
  - A weekday register of 0 shows "Sat", because Python indexes from the end of the list (`Rtc.ShortDayStr`).
