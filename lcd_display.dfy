/** The character display driver (sources/lcd_display.py): an HD44780
    display behind an I2C port expander, driven in 4-bit mode. Every byte
    the driver writes to the port is kept, in order, in a log; the delays
    between writes are not modelled. */
module LcdDisplays {
  import opened Wrappers
  import opened PyBuiltins

  /** Bit 2 of every port byte is the enable line. */
  const EN: bv8 := 0x04

  const FunctionSet: bv8 := 0x20
  const FourBitMode: bv8 := 0x00
  const TwoLines: bv8 := 0x08
  const OneLine: bv8 := 0x00
  const Dots5x8: bv8 := 0x00
  const DisplaySet: bv8 := 0x08
  const DisplayOn: bv8 := 0x04
  const CursorOnBit: bv8 := 0x02
  const CursorOffBits: bv8 := 0x00
  const BlinkOnBit: bv8 := 0x01
  const BlinkOffBits: bv8 := 0x00
  const EntryModeSet: bv8 := 0x04
  const EntryLeft: bv8 := 0x02
  const ShiftDecrement: bv8 := 0x00

  const CmdMode: bv8 := 0
  const DataMode: bv8 := 1

  const BacklightOnBit: bv8 := 0x08
  const BacklightOffBits: bv8 := 0x00

  const ClearCmd: bv8 := 0x01
  const HomeCmd: bv8 := 0x02
  const NextLineCmd: bv8 := 0xC0

  /** The DDRAM address at which each display line starts (`rows`). */
  const Rows: seq<bv8> := [0x00, 0x40, 0x14, 0x54]

  /** The low eight bits of an integer, in two's complement: all that
      `_send` keeps of its argument. */
  function LowByte(x: int): bv8
  {
    (x % 256) as bv8
  }

  /** `_data(ord(c))`: the code point, of which `_send` keeps the low byte. */
  function CharCode(ch: char): bv8
  {
    LowByte(ch as int)
  }

  // ---------------------------------------------------------------------
  // Port encoding
  // ---------------------------------------------------------------------

  /** `_write`: `_write_bytes(v)` and then `_pulse_enable(v)`, each byte
      OR'd with the backlight bit. */
  function WriteSeq(v: bv8, backlight: bv8): seq<bv8>
  {
    [v | backlight] + PulseSeq(v, backlight)
  }

  /** `_pulse_enable`: the value with the enable bit set, then cleared. */
  function PulseSeq(v: bv8, backlight: bv8): seq<bv8>
  {
    [(v | EN) | backlight] + [(v & !EN) | backlight]
  }

  /** `_send`: the high nibble, then the low nibble, each moved to bits
      4-7 with the register-select `mode` in bit 0. */
  function SendSeq(data: bv8, mode: bv8, backlight: bv8): seq<bv8>
  {
    WriteSeq(HighNibble(data, mode), backlight) + WriteSeq(LowNibble(data, mode), backlight)
  }

  function HighNibble(data: bv8, mode: bv8): bv8
  {
    (data & 0xF0) | mode
  }

  function LowNibble(data: bv8, mode: bv8): bv8
  {
    ((data << 4) & 0xF0) | mode
  }

  /** Each `_write` raises the enable line and then lowers it, and the
      other seven bits are those of the value with the backlight bit. */
  lemma EnablePulse(v: bv8, backlight: bv8)
    requires backlight == BacklightOnBit || backlight == BacklightOffBits
    ensures var w := WriteSeq(v, backlight);
      && |w| == 3
      && w[1] & EN == EN && w[2] & EN == 0
      && forall k :: 0 <= k < 3 ==> w[k] & !EN == (v | backlight) & !EN
  {
  }

  /** `_send` writes six bytes. The first and the fourth carry the byte in
      their top nibbles; every byte carries `mode` in bit 0 and the
      backlight in bit 3. */
  lemma SendCarriesByte(data: bv8, mode: bv8, backlight: bv8)
    requires mode == CmdMode || mode == DataMode
    requires backlight == BacklightOnBit || backlight == BacklightOffBits
    ensures var s := SendSeq(data, mode, backlight);
      && |s| == 6
      && (s[0] & 0xF0) | ((s[3] & 0xF0) >> 4) == data
      && (forall k :: 0 <= k < 6 ==> s[k] & 0x01 == mode && s[k] & 0x08 == backlight)
      && s[1] & EN == EN && s[2] & EN == 0 && s[4] & EN == EN && s[5] & EN == 0
  {
    SendPulses(data, mode, backlight);
    SendModeBits(data, mode, backlight);
    SendJoins(data, mode, backlight);
  }

  lemma SendPulses(data: bv8, mode: bv8, backlight: bv8)
    requires backlight == BacklightOnBit || backlight == BacklightOffBits
    ensures var s := SendSeq(data, mode, backlight);
      |s| == 6 && s[1] & EN == EN && s[2] & EN == 0 && s[4] & EN == EN && s[5] & EN == 0
  {
    var h, l := HighNibble(data, mode), LowNibble(data, mode);
    assert SendSeq(data, mode, backlight) == WriteSeq(h, backlight) + WriteSeq(l, backlight);
    EnablePulse(h, backlight);
    EnablePulse(l, backlight);
  }

  lemma SendModeBits(data: bv8, mode: bv8, backlight: bv8)
    requires mode == CmdMode || mode == DataMode
    requires backlight == BacklightOnBit || backlight == BacklightOffBits
    ensures var s := SendSeq(data, mode, backlight);
      |s| == 6 && forall k :: 0 <= k < 6 ==> s[k] & 0x01 == mode && s[k] & 0x08 == backlight
  {
    var h, l := HighNibble(data, mode), LowNibble(data, mode);
    var s := SendSeq(data, mode, backlight);
    var wh, wl := WriteSeq(h, backlight), WriteSeq(l, backlight);
    assert s == wh + wl;
    NibbleBits(data, mode);
    WriteKeepsBits(h, backlight);
    WriteKeepsBits(l, backlight);
    forall k | 0 <= k < 6
      ensures s[k] & 0x01 == mode && s[k] & 0x08 == backlight
    {
      if k < 3 {
        assert s[k] == wh[k];
        MaskedBit0(s[k], h);
      } else {
        assert s[k] == wl[k - 3];
        MaskedBit0(s[k], l);
      }
    }
  }

  lemma SendJoins(data: bv8, mode: bv8, backlight: bv8)
    requires mode == CmdMode || mode == DataMode
    requires backlight == BacklightOnBit || backlight == BacklightOffBits
    ensures var s := SendSeq(data, mode, backlight);
      |s| == 6 && (s[0] & 0xF0) | ((s[3] & 0xF0) >> 4) == data
  {
    var h, l := HighNibble(data, mode), LowNibble(data, mode);
    var s := SendSeq(data, mode, backlight);
    assert s == WriteSeq(h, backlight) + WriteSeq(l, backlight);
    NibbleBits(data, mode);
    WriteKeepsBits(h, backlight);
    WriteKeepsBits(l, backlight);
    MaskedHigh(s[0], h);
    MaskedHigh(s[3], l);
  }

  /** The two nibbles `_send` builds hold the byte in their top halves and
      `mode` in bit 0, with bits 1-3 clear. */
  lemma NibbleBits(data: bv8, mode: bv8)
    requires mode == CmdMode || mode == DataMode
    ensures HighNibble(data, mode) & 0x0E == 0 && LowNibble(data, mode) & 0x0E == 0
    ensures HighNibble(data, mode) & 0x01 == mode && LowNibble(data, mode) & 0x01 == mode
    ensures (HighNibble(data, mode) & 0xF0) | ((LowNibble(data, mode) & 0xF0) >> 4) == data
  {
  }

  /** `_write` keeps the top nibble and bit 0 of its value, and sets bit 3
      to the backlight. */
  lemma WriteKeepsBits(v: bv8, backlight: bv8)
    requires backlight == BacklightOnBit || backlight == BacklightOffBits
    requires v & 0x0E == 0
    ensures var w := WriteSeq(v, backlight);
      forall k :: 0 <= k < 3 ==> w[k] & 0xF1 == v && w[k] & 0x08 == backlight
  {
  }

  lemma MaskedBit0(x: bv8, v: bv8)
    requires x & 0xF1 == v
    ensures x & 0x01 == v & 0x01
  {
  }

  lemma MaskedHigh(x: bv8, v: bv8)
    requires x & 0xF1 == v
    ensures x & 0xF0 == v & 0xF0
  {
  }

  // ---------------------------------------------------------------------
  // Cursor movement and printing
  // ---------------------------------------------------------------------

  /** What `print_char` does at cursor `c`: whether `_next` moved to the
      second line first, whether the character is written, and where the
      cursor ends. */
  datatype CharOutcome = CharOutcome(wrapped: bool, printed: bool, cursor: int)

  function NextChar(numLines: int, width: int, c: int): CharOutcome
  {
    if numLines == 2 && c == width * 2 then CharOutcome(false, false, c)
    else if c == width then
      if numLines == 2 then CharOutcome(true, true, 18) else CharOutcome(false, false, c)
    else CharOutcome(false, true, c + 1)
  }

  /** The state reached by printing a string: the cursor, the bytes sent,
      and how many of its characters were written. */
  datatype Printed = Printed(cursor: int, bytes: seq<bv8>, count: nat)

  /** The bytes of one `print_char`: the `next_line` command if `_next`
      wraps, then the character code if there is room. */
  function CharBytes(o: CharOutcome, ch: char, backlight: bv8): seq<bv8>
  {
    (if o.wrapped then SendSeq(NextLineCmd, CmdMode, backlight) else [])
    + (if o.printed then SendSeq(CharCode(ch), DataMode, backlight) else [])
  }

  /** `print_str`: `print_char` on each character in turn. */
  function PrintSeq(numLines: int, width: int, c: int, s: string, backlight: bv8): (p: Printed)
    ensures p.count <= |s|
  {
    if s == [] then Printed(c, [], 0)
    else
      var prev := PrintSeq(numLines, width, c, s[..|s| - 1], backlight);
      var o := NextChar(numLines, width, prev.cursor);
      Printed(o.cursor, prev.bytes + CharBytes(o, s[|s| - 1], backlight),
              prev.count + if o.printed then 1 else 0)
  }

  function Min(a: int, b: int): int { if a <= b then a else b }

  /** How many characters fit from cursor `c` on a 16x2 display: the rest
      of the first line and then the second line from position 17, so 31
      after `clear` or `home`. */
  function Room16x2(c: int): int
  {
    if c <= 16 then 31 - c else 32 - c
  }

  /** Where the cursor is after `k` characters from `c` on a 16x2 display:
      crossing position 16 costs the extra jump to 17. */
  function Advanced16x2(c: int, k: int): int
  {
    if c <= 16 && c + k > 16 then c + k + 1 else c + k
  }

  /** On a 16x2 display one `print_str` writes as many characters as fit,
      and never more: the rest of a long string is dropped. */
  lemma {:induction false} PrintCount16x2(c: int, s: string, backlight: bv8)
    requires 0 <= c <= 32
    ensures PrintSeq(2, 16, c, s, backlight).count == Min(|s|, Room16x2(c))
    ensures PrintSeq(2, 16, c, s, backlight).cursor == Advanced16x2(c, Min(|s|, Room16x2(c)))
  {
    if s != [] {
      PrintCount16x2(c, s[..|s| - 1], backlight);
    }
  }

  /** On a one-line display of width `w` one `print_str` from cursor `c`
      writes at most `w - c` characters and stops at the end of the line. */
  lemma {:induction false} PrintCountOneLine(w: int, c: int, s: string, backlight: bv8)
    requires 0 <= c <= w
    ensures PrintSeq(1, w, c, s, backlight).count == Min(|s|, w - c)
    ensures PrintSeq(1, w, c, s, backlight).cursor == c + Min(|s|, w - c)
  {
    if s != [] {
      PrintCountOneLine(w, c, s[..|s| - 1], backlight);
    }
  }

  /** `cursor_pos`: `None` when the position is past the last cell, else
      the set-address command. A position past the first line moves to
      line 2, and a line the display does not have becomes its last line. */
  function CursorCommand(width: int, numLines: int, pos: int, line: int): Option<bv8>
    requires numLines == 1 || numLines == 2
  {
    if pos > width * numLines then None
    else
      var moved := pos > width;
      var pos' := if moved then pos - width else pos;
      var line' := if moved then 2 else line;
      var line'' := if line' > numLines || line' < 1 then numLines else line';
      Some(0x80 | LowByte(pos' + Rows[line'' - 1] as int))
  }

  /** The cell addresses `cursor_pos` reaches: position `p` of line 1 is
      address `p`, and on two lines a position past the first line is
      address 0x40 plus its offset in line 2. */
  lemma CursorCommandAddresses(width: int, numLines: int, pos: int, line: int)
    requires numLines == 1 || numLines == 2
    requires width >= 0
    ensures pos > width * numLines <==> CursorCommand(width, numLines, pos, line).None?
    ensures pos <= width && line == 1 ==> CursorCommand(width, numLines, pos, line) == Some(0x80 | LowByte(pos))
    ensures numLines == 2 && width < pos <= 2 * width ==>
      CursorCommand(width, numLines, pos, line) == Some(0x80 | LowByte(0x40 + pos - width))
  {
    assert width * numLines == (if numLines == 1 then width else 2 * width);
    assert Rows[0] as int == 0 && Rows[1] as int == 0x40;
  }

  /** The `line` argument of `cursor_pos`: line 2 asked for directly starts
      at address 0x40, and a line the display does not have is read as its
      last line. */
  lemma CursorCommandLines(width: int, numLines: int, pos: int, line: int)
    requires numLines == 1 || numLines == 2
    requires width >= 0
    ensures numLines == 2 && line == 2 && pos <= width ==>
      CursorCommand(width, numLines, pos, line) == Some(0x80 | LowByte(0x40 + pos))
    ensures line < 1 || line > numLines ==>
      CursorCommand(width, numLines, pos, line) == CursorCommand(width, numLines, pos, numLines)
  {
    assert width * numLines == (if numLines == 1 then width else 2 * width);
    assert Rows[1] as int == 0x40;
  }

  /** One more character of `print_str`. */
  lemma PrintSeqStep(numLines: int, width: int, c: int, s: string, i: nat, backlight: bv8)
    requires i < |s|
    ensures var p := PrintSeq(numLines, width, c, s[..i], backlight);
      var o := NextChar(numLines, width, p.cursor);
      var q := PrintSeq(numLines, width, c, s[..i + 1], backlight);
      q.cursor == o.cursor && q.bytes == p.bytes + CharBytes(o, s[i], backlight)
  {
    assert s[..i + 1][..i] == s[..i];
  }

  // ---------------------------------------------------------------------
  // The LcdDisplay object
  // ---------------------------------------------------------------------

  class LcdDisplay {
    var numLines: int
    var width: int
    var cursor: int
    var backlight: bv8
    var displayControl: bv8
    var functionControl: bv8
    /** Every byte written to the I2C port, oldest first. */
    var port: seq<bv8>

    /** Displays on which the cursor stays within a fixed bound: one line,
        or two lines at least nine cells wide (the jump to 17 lands inside
        the second line). */
    predicate Bounded()
      reads this
    {
      numLines == 1 || width >= 9
    }

    function Bound(): int
      reads this
    {
      if numLines == 1 || width >= 18 then width else 2 * width
    }

    predicate Valid()
      reads this
    {
      && (numLines == 1 || numLines == 2) && width >= 0
      && (backlight == BacklightOnBit || backlight == BacklightOffBits)
      && 0 <= cursor && (Bounded() ==> cursor <= Bound())
    }

    /** The constructor: backlight off, 4-bit mode, function set, display
        on with cursor and blink off, clear, left-to-right entry, backlight
        on. */
    constructor (width: nat := 16, twoLines: bool := true)
      ensures Valid() && this.width == width && numLines == (if twoLines then 2 else 1)
      ensures cursor == 0 && backlight == BacklightOnBit
      ensures displayControl == DisplayOn && functionControl == (if twoLines then TwoLines else OneLine)
      ensures port == InitBytes(twoLines)
    {
      this.numLines := if twoLines then 2 else 1;
      this.width := width;
      cursor := 0;
      backlight := BacklightOffBits;
      displayControl := 0;
      functionControl := 0;
      port := [];
      new;
      BacklightOff();
      SetFourBitMode();
      assert port == [BacklightOffBits] + FourBitBytes(BacklightOffBits);
      var lines := if numLines == 2 then TwoLines else OneLine;
      functionControl := FourBitMode | lines | Dots5x8;
      Command(FunctionSet | functionControl);
      displayControl := DisplayOn | CursorOffBits | BlinkOffBits;
      Command(DisplaySet | displayControl);
      ghost var configured := port;
      Clear();
      Command(EntryModeSet | EntryLeft | ShiftDecrement);
      assert port == configured + SendSeq(ClearCmd, CmdMode, BacklightOffBits) + SendSeq(HomeCmd, CmdMode, BacklightOffBits)
        + SendSeq(EntryModeSet | EntryLeft, CmdMode, BacklightOffBits);
      BacklightOn();
    }

    /** `_write_bytes`. */
    method WriteBytes(v: bv8)
      modifies this
      ensures port == old(port) + [v | backlight]
      ensures Same() && backlight == old(backlight) && cursor == old(cursor)
    {
      port := port + [v | backlight];
    }

    /** The fields that only the constructor and the toggles set. */
    twostate predicate Same()
      reads this
    {
      numLines == old(numLines) && width == old(width)
      && displayControl == old(displayControl) && functionControl == old(functionControl)
    }

    /** `_pulse_enable`. */
    method PulseEnable(v: bv8)
      modifies this
      ensures port == old(port) + PulseSeq(v, backlight)
      ensures Same() && backlight == old(backlight) && cursor == old(cursor)
    {
      ghost var p0 := port;
      WriteBytes(v | EN);
      WriteBytes(v & !EN);
      ConcatAssoc(p0, [(v | EN) | backlight], [(v & !EN) | backlight]);
    }

    /** `_write`. */
    method Write(v: bv8)
      modifies this
      ensures port == old(port) + WriteSeq(v, backlight)
      ensures Same() && backlight == old(backlight) && cursor == old(cursor)
    {
      ghost var p0 := port;
      WriteBytes(v);
      PulseEnable(v);
      ConcatAssoc(p0, [v | backlight], PulseSeq(v, backlight));
    }

    /** `_send`. */
    method Send(data: bv8, mode: bv8)
      modifies this
      ensures port == old(port) + SendSeq(data, mode, backlight)
      ensures Same() && backlight == old(backlight) && cursor == old(cursor)
    {
      ghost var p0 := port;
      Write(HighNibble(data, mode));
      Write(LowNibble(data, mode));
      ConcatAssoc(p0, WriteSeq(HighNibble(data, mode), backlight), WriteSeq(LowNibble(data, mode), backlight));
    }

    /** `_command`. */
    method Command(value: bv8)
      modifies this
      ensures port == old(port) + SendSeq(value, CmdMode, backlight)
      ensures Same() && backlight == old(backlight) && cursor == old(cursor)
    {
      Send(value, CmdMode);
    }

    /** `_data`. */
    method Data(value: bv8)
      modifies this
      ensures port == old(port) + SendSeq(value, DataMode, backlight)
      ensures Same() && backlight == old(backlight) && cursor == old(cursor)
    {
      Send(value, DataMode);
    }

    /** `_4bit_mode`: three 0x30 writes, then 0x20. */
    method SetFourBitMode()
      modifies this
      ensures port == old(port) + FourBitBytes(backlight)
      ensures Same() && backlight == old(backlight) && cursor == old(cursor)
    {
      ghost var p0 := port;
      ghost var w, w2 := WriteSeq(0x30, backlight), WriteSeq(0x20, backlight);
      assert 0x03 << 4 == 0x30 as bv8 && 0x02 << 4 == 0x20 as bv8;
      Write(0x03 << 4);
      Write(0x03 << 4);
      ConcatAssoc(p0, w, w);
      Write(0x03 << 4);
      ConcatAssoc(p0, w + w, w);
      Write(0x02 << 4);
      ConcatAssoc(p0, w + w + w, w2);
    }

    /** `home`. */
    method Home()
      modifies this
      ensures cursor == 0 && port == old(port) + SendSeq(HomeCmd, CmdMode, backlight)
      ensures Same() && backlight == old(backlight)
    {
      cursor := 0;
      Command(HomeCmd);
    }

    /** `clear`. */
    method Clear()
      modifies this
      ensures cursor == 0
      ensures port == old(port) + SendSeq(ClearCmd, CmdMode, backlight) + SendSeq(HomeCmd, CmdMode, backlight)
      ensures Same() && backlight == old(backlight)
    {
      Command(ClearCmd);
      Home();
    }

    /** `next_line`: nothing on a one-line display; otherwise the 0xC0
        command and the cursor at 17. */
    method NextLine()
      requires Valid()
      modifies this
      ensures Valid() && Same() && backlight == old(backlight)
      ensures numLines == 1 ==> cursor == old(cursor) && port == old(port)
      ensures numLines == 2 ==> cursor == 17 && port == old(port) + SendSeq(NextLineCmd, CmdMode, backlight)
    {
      if numLines == 1 {
        return;
      }
      Command(NextLineCmd);
      cursor := 17;
    }

    /** `_next`. */
    method Next() returns (go: bool)
      requires Valid()
      modifies this
      ensures Valid() && Same() && backlight == old(backlight)
      ensures var o := NextChar(numLines, width, old(cursor));
        && go == o.printed
        && cursor == (if o.wrapped then 17 else old(cursor))
        && port == old(port) + (if o.wrapped then SendSeq(NextLineCmd, CmdMode, backlight) else [])
    {
      if numLines == 2 && cursor == width * 2 {
        return false;
      }
      if cursor == width {
        if numLines == 2 {
          NextLine();
        } else {
          return false;
        }
      }
      return true;
    }

    /** `print_char`. */
    method PrintChar(ch: char)
      requires Valid()
      modifies this
      ensures Valid() && Same() && backlight == old(backlight)
      ensures var o := NextChar(numLines, width, old(cursor));
        cursor == o.cursor && port == old(port) + CharBytes(o, ch, backlight)
    {
      ghost var p0 := port;
      ghost var o := NextChar(numLines, width, cursor);
      ghost var wrap := if o.wrapped then SendSeq(NextLineCmd, CmdMode, backlight) else [];
      ghost var data := if o.printed then SendSeq(CharCode(ch), DataMode, backlight) else [];
      var go := Next();
      if go {
        Data(CharCode(ch));
        cursor := cursor + 1;
      } else {
        ConcatNil(p0 + wrap);
      }
      ConcatAssoc(p0, wrap, data);
    }

    /** `print_str`. */
    method PrintStr(s: string)
      requires Valid()
      modifies this
      ensures Valid() && Same() && backlight == old(backlight)
      ensures var p := PrintSeq(numLines, width, old(cursor), s, backlight);
        cursor == p.cursor && port == old(port) + p.bytes
    {
      ghost var c0, p0 := cursor, port;
      var i := 0;
      while i < |s|
        invariant 0 <= i <= |s| && Valid() && Same() && backlight == old(backlight)
        invariant cursor == PrintSeq(numLines, width, c0, s[..i], backlight).cursor
        invariant port == p0 + PrintSeq(numLines, width, c0, s[..i], backlight).bytes
      {
        ghost var p := PrintSeq(numLines, width, c0, s[..i], backlight);
        ghost var o := NextChar(numLines, width, cursor);
        PrintSeqStep(numLines, width, c0, s, i, backlight);
        PrintChar(s[i]);
        ConcatAssoc(p0, p.bytes, CharBytes(o, s[i], backlight));
        i := i + 1;
      }
      assert s[..i] == s;
    }

    /** `show`: clear, the first item, and if there is a second one,
        `next_line` and the second item. An empty list raises after the
        clear (`ok` is false). */
    method Show(data: seq<string>) returns (ok: bool)
      requires Valid()
      modifies this
      ensures Valid() && Same() && backlight == old(backlight)
      ensures ok <==> |data| >= 1
      ensures var cleared := old(port) + SendSeq(ClearCmd, CmdMode, backlight) + SendSeq(HomeCmd, CmdMode, backlight);
        && (!ok ==> cursor == 0 && port == cleared)
        && (ok ==> var first := PrintSeq(numLines, width, 0, data[0], backlight);
              && (|data| == 1 ==> cursor == first.cursor && port == cleared + first.bytes)
              && (|data| >= 2 ==>
                    var start := if numLines == 2 then 17 else first.cursor;
                    var wrap := if numLines == 2 then SendSeq(NextLineCmd, CmdMode, backlight) else [];
                    var second := PrintSeq(numLines, width, start, data[1], backlight);
                    cursor == second.cursor && port == cleared + first.bytes + wrap + second.bytes))
    {
      Clear();
      if |data| == 0 {
        return false;
      }
      PrintStr(data[0]);
      if |data| > 1 {
        ghost var afterFirst := port;
        NextLine();
        if numLines == 1 {
          ConcatNil(afterFirst);
        }
        PrintStr(data[1]);
      }
      return true;
    }

    /** `cursor_pos`. The driver's `_cursor` is not updated. */
    method CursorPos(pos: int, line: int := 1)
      requires Valid()
      modifies this
      ensures Valid() && Same() && backlight == old(backlight) && cursor == old(cursor)
      ensures match CursorCommand(width, numLines, pos, line)
        case None => port == old(port)
        case Some(cmd) => port == old(port) + SendSeq(cmd, CmdMode, backlight)
    {
      assert width * numLines == (if numLines == 1 then width else 2 * width);
      if pos > width * numLines {
        return;
      }
      var p, l := pos, line;
      if p > width {
        l := 2;
        p := p - width;
      }
      if l > numLines || l < 1 {
        l := numLines;
      }
      Command(0x80 | LowByte(p + Rows[l - 1] as int));
    }

    /** `backlight_on`: set the bit and write 0 with it. */
    method BacklightOn()
      modifies this
      ensures backlight == BacklightOnBit && port == old(port) + [BacklightOnBit]
      ensures Same() && cursor == old(cursor)
    {
      backlight := BacklightOnBit;
      WriteBytes(0);
    }

    /** `backlight_off`: clear the bit and write 0 without it. */
    method BacklightOff()
      modifies this
      ensures backlight == BacklightOffBits && port == old(port) + [BacklightOffBits]
      ensures Same() && cursor == old(cursor)
    {
      backlight := BacklightOffBits;
      WriteBytes(0);
    }

    /** `cursor_on` / `cursor_off` / `blink_on` / `blink_off`: set or clear
        one bit of the display control and send it with the display-set
        command. */
    method SetControl(bit: bv8, on: bool)
      requires bit == CursorOnBit || bit == BlinkOnBit
      modifies this
      ensures displayControl == (if on then old(displayControl) | bit else old(displayControl) & !bit)
      ensures port == old(port) + SendSeq(DisplaySet | displayControl, CmdMode, backlight)
      ensures numLines == old(numLines) && width == old(width) && functionControl == old(functionControl)
      ensures backlight == old(backlight) && cursor == old(cursor)
    {
      if on {
        displayControl := displayControl | bit;
      } else {
        displayControl := displayControl & !bit;
      }
      Command(DisplaySet | displayControl);
    }
  }

  /** The bytes of `_4bit_mode`. */
  function FourBitBytes(backlight: bv8): seq<bv8>
  {
    WriteSeq(0x30, backlight) + WriteSeq(0x30, backlight) + WriteSeq(0x30, backlight) + WriteSeq(0x20, backlight)
  }

  /** Everything the constructor sends. */
  function InitBytes(twoLines: bool): seq<bv8>
  {
    [BacklightOffBits]
    + FourBitBytes(BacklightOffBits)
    + SendSeq(FunctionSet | (if twoLines then TwoLines else OneLine), CmdMode, BacklightOffBits)
    + SendSeq(DisplaySet | DisplayOn, CmdMode, BacklightOffBits)
    + SendSeq(ClearCmd, CmdMode, BacklightOffBits) + SendSeq(HomeCmd, CmdMode, BacklightOffBits)
    + SendSeq(EntryModeSet | EntryLeft, CmdMode, BacklightOffBits)
    + [BacklightOnBit]
  }

  /** The toggles touch only their own bit and leave the others alone. */
  lemma ControlBits(control: bv8, bit: bv8)
    requires bit == CursorOnBit || bit == BlinkOnBit
    ensures (control | bit) & bit == bit && (control & !bit) & bit == 0
    ensures (control | bit) & !bit == control & !bit && (control & !bit) & !bit == control & !bit
  {
  }
}
