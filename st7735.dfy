/**
 * The ST7735 LCD panel driver (esp_lcd_panel_st7735.c).
 *
 * Construction checks its arguments and the colour settings, the panel
 * object keeps the gaps, the pixel width and the MADCTL/COLMOD register
 * values, and every panel operation becomes the list of GPIO, delay and
 * panel-IO calls it makes.  The command codes are named, not numbered;
 * the MADCTL bits are those of ESP-IDF's `esp_lcd_panel_commands.h`
 * (MV = bit 5, MX = bit 6, MY = bit 7), which is not part of this model.
 */
module St7735 {
  import opened Base

  /** The MIPI DCS and ST7735 commands the driver sends. */
  datatype Cmd =
    | Nop | Swreset | Slpout | Noron | Invoff | Invon | Dispoff | Dispon
    | Caset | Raset | Ramwr | Madctl | Colmod
    | Frmctr1 | Frmctr2 | Frmctr3 | Invctr
    | Pwctr1 | Pwctr2 | Pwctr3 | Pwctr4 | Pwctr5 | Vmctr1 | Gmctrp1 | Gmctrn1

  /** The calls a driver operation makes. */
  datatype LcdAction =
    | GpioConfig(pin: int)                   // gpio_config for the reset line
    | GpioResetPin(pin: int)                 // gpio_reset_pin
    | GpioSetLevel(pin: int, high: bool)     // gpio_set_level
    | Free                                   // free(st7735)
    | Delay(ms: nat)                         // vTaskDelay(pdMS_TO_TICKS(ms))
    | TxParam(cmd: Cmd, params: Bytes)       // esp_lcd_panel_io_tx_param
    | TxColor(cmd: Cmd, len: nat)            // esp_lcd_panel_io_tx_color

  datatype ColorSpace = Rgb | Bgr | Monochrome

  /** The parts of `esp_lcd_panel_dev_config_t` the driver reads. */
  datatype DevConfig = DevConfig(resetGpio: int, colorSpace: ColorSpace, bitsPerPixel: nat, resetActiveHigh: bool)

  /** The fields of a constructed `st7735_panel_t`. */
  datatype PanelFields = PanelFields(resetGpio: int, resetLevel: bool, xGap: int, yGap: int,
                                     bitsPerPixel: nat, madctl: bv8, colmod: bv8)

  /** The result of construction: the code returned, the panel if any, and the calls made. */
  datatype Created = Created(ret: EspErr, panel: Option<PanelFields>, actions: seq<LcdAction>)

  const MvBit: bv8 := 0x20
  const MxBit: bv8 := 0x40
  const MyBit: bv8 := 0x80
  /** MADCTL for BGR order (MY, MX and BGR set). */
  const MadctlBgr: bv8 := 0xC8
  /** COLMOD for 16 bits per pixel. */
  const Colmod16: bv8 := 0x05
  const ResetPulseMs := 50
  const SleepOutMs := 100
  const InitEntryDelayMs := 500
  const TableEnd: uint8 := 0xFF

  /**
   * `esp_lcd_new_panel_st7735`.  `io`, `cfg` and `retPtr` say which
   * pointer arguments are non-null, `allocOk` whether `calloc` succeeds and
   * `gpioRet` what `gpio_config` returns.
   */
  function NewPanel(io: bool, cfg: Option<DevConfig>, retPtr: bool, allocOk: bool, gpioRet: EspErr): (r: Created)
    ensures r.ret == Ok <==> r.panel.Some?
    ensures !io || cfg.None? || !retPtr ==> r.ret == InvalidArg && r.actions == []
    ensures io && cfg.Some? && retPtr && !allocOk ==> r.ret == NoMem && r.actions == []
    ensures r.ret == Ok ==> && cfg.Some? && cfg.value.colorSpace == Bgr && cfg.value.bitsPerPixel == 16
                            && r.panel.value == PanelFields(cfg.value.resetGpio, cfg.value.resetActiveHigh, 0, 0, 16, MadctlBgr, Colmod16)
    ensures io && cfg.Some? && retPtr && allocOk && (cfg.value.resetGpio < 0 || gpioRet == Ok) ==>
              (r.ret == Ok <==> cfg.value.colorSpace == Bgr && cfg.value.bitsPerPixel == 16)
              && (r.ret != Ok ==> r.ret == NotSupported)
    ensures io && cfg.Some? && retPtr && allocOk && r.ret != Ok ==>
              && r.actions != [] && r.actions[|r.actions| - 1] == Free
              && (GpioResetPin(cfg.value.resetGpio) in r.actions <==> cfg.value.resetGpio >= 0)
    ensures Free in r.actions ==> r.ret != Ok
  {
    if !io || cfg.None? || !retPtr then Created(InvalidArg, None, [])
    else if !allocOk then Created(NoMem, None, [])
    else
      var c := cfg.value;
      var setup := if c.resetGpio >= 0 then [GpioConfig(c.resetGpio)] else [];
      var cleanup := (if c.resetGpio >= 0 then [GpioResetPin(c.resetGpio)] else []) + [Free];
      if c.resetGpio >= 0 && gpioRet != Ok then Created(gpioRet, None, setup + cleanup)
      else if c.colorSpace != Bgr || c.bitsPerPixel != 16 then Created(NotSupported, None, setup + cleanup)
      else Created(Ok, Some(PanelFields(c.resetGpio, c.resetActiveHigh, 0, 0, c.bitsPerPixel, MadctlBgr, Colmod16)), setup)
  }

  // ---------------------------------------------------------------------
  // MADCTL bits
  // ---------------------------------------------------------------------

  /** A register value as the parameter byte sent for it. */
  function ToByte(b: bv8): uint8
  {
    b as uint8
  }

  function SetBit(m: bv8, bit: bv8, on: bool): bv8
  {
    if on then m | bit else m & !bit
  }

  /** `mirror`: MX and MY follow the arguments and no other bit changes. */
  function MirrorBits(m: bv8, mirrorX: bool, mirrorY: bool): (r: bv8)
    ensures (r & MxBit != 0) == mirrorX && (r & MyBit != 0) == mirrorY
    ensures r & !(MxBit | MyBit) == m & !(MxBit | MyBit)
  {
    SetBit(SetBit(m, MxBit, mirrorX), MyBit, mirrorY)
  }

  /** `swap_xy`: MV follows the argument and no other bit changes. */
  function SwapBits(m: bv8, swap: bool): (r: bv8)
    ensures (r & MvBit != 0) == swap
    ensures r & !MvBit == m & !MvBit
  {
    SetBit(m, MvBit, swap)
  }

  /** Mirroring and swapping touch disjoint bits, so their order does not matter. */
  lemma MirrorSwapCommute(m: bv8, mx: bool, my: bool, sw: bool)
    ensures SwapBits(MirrorBits(m, mx, my), sw) == MirrorBits(SwapBits(m, sw), mx, my)
  {
  }

  /** Mirroring again with the same arguments changes nothing. */
  lemma MirrorIdempotent(m: bv8, mx: bool, my: bool)
    ensures MirrorBits(MirrorBits(m, mx, my), mx, my) == MirrorBits(m, mx, my)
  {
  }

  // ---------------------------------------------------------------------
  // The init table
  // ---------------------------------------------------------------------

  /** One `lcd_init_cmd_t`: the command, its 16-byte parameter array and its length byte. */
  datatype InitEntry = InitEntry(cmd: Cmd, data: Bytes, dataBytes: uint8)

  function Pad16(d: Bytes): (r: Bytes)
    requires |d| <= 16
    ensures |r| == 16 && r[..|d|] == d
  {
    d + seq(16 - |d|, _ => 0)
  }

  /** The parameter count the driver passes: the low five bits of `data_bytes`. */
  function ParamLen(e: InitEntry): nat
  {
    e.dataBytes as nat % 32
  }

  /** The parameters sent for an entry.  A count above 16 would read past the array; the model stops at its end. */
  function Params(e: InitEntry): Bytes
  {
    e.data[..Min(ParamLen(e), |e.data|)]
  }

  const VendorInit := [
    InitEntry(Swreset, Pad16([]), 0),
    InitEntry(Slpout, Pad16([]), 0),
    InitEntry(Frmctr1, Pad16([0x01, 0x2C, 0x2D]), 3),
    InitEntry(Frmctr2, Pad16([0x01, 0x2C, 0x2D]), 3),
    InitEntry(Frmctr3, Pad16([0x01, 0x2C, 0x2D, 0x01, 0x2C, 0x2D]), 6),
    InitEntry(Invctr, Pad16([0x07]), 1),
    InitEntry(Pwctr1, Pad16([0xA2, 0x02, 0x84]), 3),
    InitEntry(Pwctr2, Pad16([0xC5]), 1),
    InitEntry(Pwctr3, Pad16([0x0A, 0x00]), 2),
    InitEntry(Pwctr4, Pad16([0x8A, 0x2A]), 2),
    InitEntry(Pwctr5, Pad16([0x8A, 0xEE]), 2),
    InitEntry(Vmctr1, Pad16([0x0E]), 1),
    InitEntry(Caset, Pad16([0x00, 0x00, 0x00, 0x4F]), 4),
    InitEntry(Raset, Pad16([0x00, 0x00, 0x00, 0x9F]), 4),
    InitEntry(Gmctrp1, [0x02, 0x1c, 0x07, 0x12, 0x37, 0x32, 0x29, 0x2d,
                        0x29, 0x25, 0x2B, 0x39, 0x00, 0x01, 0x03, 0x10], 16),
    InitEntry(Gmctrn1, [0x03, 0x1d, 0x07, 0x06, 0x2E, 0x2C, 0x29, 0x2D,
                        0x2E, 0x2E, 0x37, 0x3F, 0x00, 0x00, 0x02, 0x10], 16),
    InitEntry(Noron, Pad16([]), 0),
    InitEntry(Nop, Pad16([]), TableEnd)
  ]

  /** The entries before the first end marker: the ones sent. */
  function Commands(t: seq<InitEntry>): (r: seq<InitEntry>)
    ensures r <= t && forall i :: 0 <= i < |r| ==> r[i].dataBytes != TableEnd
    ensures |r| < |t| ==> t[|r|].dataBytes == TableEnd
  {
    if t == [] || t[0].dataBytes == TableEnd then [] else [t[0]] + Commands(t[1..])
  }

  /** The calls for entry number `i`: its parameters, then 500 ms for the first two. */
  function EntryCalls(e: InitEntry, i: nat): seq<LcdAction>
  {
    [TxParam(e.cmd, Params(e))] + if i < 2 then [Delay(InitEntryDelayMs)] else []
  }

  /** The calls for the entries `es`, numbered from 0. */
  function TableCalls(es: seq<InitEntry>): seq<LcdAction>
  {
    if es == [] then [] else TableCalls(es[..|es| - 1]) + EntryCalls(es[|es| - 1], |es| - 1)
  }

  /** `panel_st7735_init`: sleep out, the table, then MADCTL, COLMOD and display on. */
  function InitCalls(madctl: bv8, colmod: bv8): seq<LcdAction>
  {
    [TxParam(Slpout, []), Delay(SleepOutMs)] + TableCalls(Commands(VendorInit))
      + [TxParam(Madctl, [ToByte(madctl)]), TxParam(Colmod, [ToByte(colmod)]), TxParam(Dispon, [])]
  }

  function Delays(acts: seq<LcdAction>): nat
  {
    if acts == [] then 0 else (if acts[0].Delay? then acts[0].ms else 0) + Delays(acts[1..])
  }

  lemma {:induction false} DelaysAppend(a: seq<LcdAction>, b: seq<LcdAction>)
    ensures Delays(a + b) == Delays(a) + Delays(b)
  {
    if a != [] {
      assert (a + b)[1..] == a[1..] + b;
      DelaysAppend(a[1..], b);
    } else {
      assert a + b == b;
    }
  }

  /** Every table walk waits 500 ms after each of its first two entries and nowhere else. */
  lemma {:induction false} TableDelays(es: seq<InitEntry>)
    ensures Delays(TableCalls(es)) == InitEntryDelayMs * Min(|es|, 2)
    decreases |es|
  {
    if es != [] {
      var n := |es| - 1;
      TableDelays(es[..n]);
      DelaysAppend(TableCalls(es[..n]), EntryCalls(es[n], n));
      var c := EntryCalls(es[n], n);
      assert TableCalls(es) == TableCalls(es[..n]) + c;
      if n < 2 {
        assert c == [TxParam(es[n].cmd, Params(es[n])), Delay(InitEntryDelayMs)];
        assert c[1..] == [Delay(InitEntryDelayMs)] && c[1..][1..] == [];
        assert Delays(c[1..][1..]) == 0;
        assert Delays(c[1..]) == InitEntryDelayMs;
      } else {
        assert c == [TxParam(es[n].cmd, Params(es[n]))] && c[1..] == [];
        assert Delays(c) == 0;
      }
    }
  }

  /**
   * The vendor table sends 17 commands, each with exactly its listed
   * parameters, and ends with its only end marker.
   */
  predicate EndsOnce(t: seq<InitEntry>)
  {
    t != [] && t[|t| - 1].dataBytes == TableEnd && forall i :: 0 <= i < |t| - 1 ==> t[i].dataBytes != TableEnd
  }

  /** A table whose only end marker is its last entry is sent whole but for the marker. */
  lemma {:induction false} SendsAllButEnd(t: seq<InitEntry>)
    requires EndsOnce(t)
    ensures Commands(t) == t[..|t| - 1]
  {
    var r := Commands(t);
    if |r| < |t| - 1 {
      assert false;
    }
  }

  /**
   * The vendor table sends 17 commands, each with exactly its listed
   * parameters, and ends with its only end marker.
   */
  lemma VendorTable()
    ensures |VendorInit| == 18 && EndsOnce(VendorInit)
    ensures Commands(VendorInit) == VendorInit[..17]
    ensures forall i :: 0 <= i < 17 ==> ParamLen(VendorInit[i]) <= 16 == |VendorInit[i].data|
    ensures forall i :: 0 <= i < 17 ==> |Params(VendorInit[i])| == VendorInit[i].dataBytes as int
  {
    SendsAllButEnd(VendorInit);
    forall i | 0 <= i < 17
      ensures ParamLen(VendorInit[i]) <= 16 == |VendorInit[i].data|
      ensures |Params(VendorInit[i])| == VendorInit[i].dataBytes as int
    {
      assert Sized(VendorInit[i]);
      SizedParams(VendorInit[i]);
    }
  }

  /** An entry with a full parameter array and at most 16 parameters. */
  predicate Sized(e: InitEntry)
  {
    |e.data| == 16 && e.dataBytes <= 16
  }

  /** A length byte of at most 16 is its own low five bits, so exactly that many parameters go out. */
  lemma SizedParams(e: InitEntry)
    requires Sized(e)
    ensures ParamLen(e) == e.dataBytes as int <= 16
    ensures |Params(e)| == e.dataBytes as int
  {
  }

  /** Initialisation waits 1.1 s: 100 ms after sleep-out and 500 ms after each of the first two entries. */
  lemma InitDelay(madctl: bv8, colmod: bv8)
    ensures Delays(InitCalls(madctl, colmod)) == 1100
    ensures var a := InitCalls(madctl, colmod); |a| == 24 && a[|a| - 3..] == [TxParam(Madctl, [ToByte(madctl)]), TxParam(Colmod, [ToByte(colmod)]), TxParam(Dispon, [])]
  {
    VendorTable();
    var es := Commands(VendorInit);
    assert |es| == 17;
    WalkShape(es, madctl, colmod);
  }

  /** The delays and the length of sleep-out, a walk over `es` and the closing commands. */
  lemma WalkShape(es: seq<InitEntry>, madctl: bv8, colmod: bv8)
    ensures var a := [TxParam(Slpout, []), Delay(SleepOutMs)] + TableCalls(es)
                     + [TxParam(Madctl, [ToByte(madctl)]), TxParam(Colmod, [ToByte(colmod)]), TxParam(Dispon, [])];
      && Delays(a) == SleepOutMs + InitEntryDelayMs * Min(|es|, 2)
      && |a| == 5 + |es| + Min(|es|, 2)
      && a[|a| - 3..] == [TxParam(Madctl, [ToByte(madctl)]), TxParam(Colmod, [ToByte(colmod)]), TxParam(Dispon, [])]
  {
    var head := [TxParam(Slpout, []), Delay(SleepOutMs)];
    var mid := TableCalls(es);
    var tail := [TxParam(Madctl, [ToByte(madctl)]), TxParam(Colmod, [ToByte(colmod)]), TxParam(Dispon, [])];
    TableDelays(es);
    DelaysAppend(head, mid);
    DelaysAppend(head + mid, tail);
    assert Delays(head) == SleepOutMs by {
      assert head[1..] == [Delay(SleepOutMs)] && head[1..][1..] == [];
    }
    assert Delays(tail) == 0 by {
      assert tail[1..][1..][1..] == [];
      assert Delays(tail[1..][1..]) == 0;
      assert Delays(tail[1..]) == 0;
    }
    TableLength(es);
  }

  /** One more entry of the walk. */
  lemma TableStep(t: seq<InitEntry>, n: nat)
    requires n < |t|
    ensures TableCalls(t[..n + 1]) == TableCalls(t[..n]) + EntryCalls(t[n], n)
  {
    assert t[..n + 1][..n] == t[..n];
  }

  lemma {:induction false} TableLength(es: seq<InitEntry>)
    ensures |TableCalls(es)| == |es| + Min(|es|, 2)
    decreases |es|
  {
    if es != [] {
      TableLength(es[..|es| - 1]);
    }
  }

  // ---------------------------------------------------------------------
  // Drawing
  // ---------------------------------------------------------------------

  function LowByte(v: int): uint8
  {
    (v % 256) as uint8
  }

  /** `(v >> 8) & 0xFF, v & 0xFF` on a C int: an arithmetic shift is a floor division. */
  function Be16(v: int): (r: Bytes)
    ensures |r| == 2
  {
    [LowByte(v / 256), LowByte(v)]
  }

  function Be16Value(b: Bytes): int
    requires |b| == 2
  {
    b[0] as int * 256 + b[1] as int
  }

  /** The two bytes are the value modulo 2^16, big-endian. */
  lemma Be16RoundTrip(v: int)
    ensures Be16Value(Be16(v)) == v % 65536
    ensures 0 <= v < 65536 ==> Be16Value(Be16(v)) == v
  {
    var q := v / 256;
    assert Be16Value(Be16(v)) == 256 * (q % 256) + v % 256;
    SplitMod(v);
  }

  /** Euclidean division by 2^16 in two steps of 2^8. */
  lemma SplitMod(v: int)
    ensures v % 65536 == 256 * ((v / 256) % 256) + v % 256
  {
    var q, r := v / 256, v % 256;
    var q2, r2 := q / 256, q % 256;
    assert v == 256 * q + r && 0 <= r < 256;
    assert q == 256 * q2 + r2 && 0 <= r2 < 256;
    assert v == 65536 * q2 + (256 * r2 + r);
    assert 0 <= 256 * r2 + r < 65536;
  }

  /** The transfer length: width times height times bits per pixel, in 32-bit unsigned arithmetic, over 8. */
  function TransferLen(xStart: int, yStart: int, xEnd: int, yEnd: int, bpp: nat): nat
  {
    (((xEnd - xStart) * (yEnd - yStart) * bpp) % 0x1_0000_0000) / 8
  }

  /** `panel_st7735_draw_bitmap`: the column and row windows, then the pixels. */
  function DrawCalls(xStart: int, yStart: int, xEnd: int, yEnd: int, xGap: int, yGap: int, bpp: nat): seq<LcdAction>
    requires xStart < xEnd && yStart < yEnd
  {
    [ TxParam(Caset, Be16(xStart + xGap) + Be16(xEnd - 1 + xGap)),
      TxParam(Raset, Be16(yStart + yGap) + Be16(yEnd - 1 + yGap)),
      TxColor(Ramwr, TransferLen(xStart + xGap, yStart + yGap, xEnd + xGap, yEnd + yGap, bpp)) ]
  }

  /**
   * Drawing with gaps is drawing the shifted rectangle without them; the
   * windows address the first and the last column and row, and the length
   * is unaffected by the gaps.
   */
  lemma DrawShiftsByGap(xStart: int, yStart: int, xEnd: int, yEnd: int, xGap: int, yGap: int, bpp: nat)
    requires xStart < xEnd && yStart < yEnd
    ensures DrawCalls(xStart, yStart, xEnd, yEnd, xGap, yGap, bpp)
         == DrawCalls(xStart + xGap, yStart + yGap, xEnd + xGap, yEnd + yGap, 0, 0, bpp)
    ensures DrawCalls(xStart, yStart, xEnd, yEnd, xGap, yGap, bpp)[2]
         == TxColor(Ramwr, TransferLen(xStart, yStart, xEnd, yEnd, bpp))
    ensures var p := DrawCalls(xStart, yStart, xEnd, yEnd, xGap, yGap, bpp)[0].params;
      0 <= xStart + xGap && xEnd + xGap <= 65536 ==>
        Be16Value(p[..2]) == xStart + xGap && Be16Value(p[2..]) == xEnd - 1 + xGap
  {
    var p := DrawCalls(xStart, yStart, xEnd, yEnd, xGap, yGap, bpp)[0].params;
    assert p[..2] == Be16(xStart + xGap) && p[2..] == Be16(xEnd - 1 + xGap);
    Be16RoundTrip(xStart + xGap);
    Be16RoundTrip(xEnd - 1 + xGap);
  }

  /** At 16 bits per pixel a frame that fits the 32-bit product sends two bytes per pixel. */
  lemma TwoBytesPerPixel(xStart: int, yStart: int, xEnd: int, yEnd: int)
    requires xStart < xEnd && yStart < yEnd
    requires (xEnd - xStart) * (yEnd - yStart) * 16 < 0x1_0000_0000
    ensures TransferLen(xStart, yStart, xEnd, yEnd, 16) == 2 * (xEnd - xStart) * (yEnd - yStart)
  {
    var n := (xEnd - xStart) * (yEnd - yStart);
    assert n > 0;
    assert n * 16 == 8 * (2 * n);
  }

  /** `invert_color`: INVON exactly when inverting. */
  function InvertCommand(invert: bool): (c: Cmd)
    ensures c in {Invon, Invoff} && (c == Invon <==> invert)
  {
    if invert then Invon else Invoff
  }

  /** `disp_off`: DISPOFF exactly when turning the display off. */
  function DisplayCommand(off: bool): (c: Cmd)
    ensures c in {Dispoff, Dispon} && (c == Dispoff <==> off)
  {
    if off then Dispoff else Dispon
  }

  // ---------------------------------------------------------------------
  // The panel object
  // ---------------------------------------------------------------------

  /** An `st7735_panel_t`. */
  class Panel {
    var resetGpio: int
    var resetLevel: bool
    var xGap: int
    var yGap: int
    var bitsPerPixel: nat
    var madctl: bv8
    var colmod: bv8

    function Fields(): PanelFields
      reads this
    {
      PanelFields(resetGpio, resetLevel, xGap, yGap, bitsPerPixel, madctl, colmod)
    }

    constructor (f: PanelFields)
      ensures Fields() == f
    {
      resetGpio, resetLevel, xGap, yGap := f.resetGpio, f.resetLevel, f.xGap, f.yGap;
      bitsPerPixel, madctl, colmod := f.bitsPerPixel, f.madctl, f.colmod;
    }

    /** `panel_st7735_del`. */
    method Delete() returns (ret: EspErr, acts: seq<LcdAction>)
      ensures ret == Ok && acts != [] && acts[|acts| - 1] == Free
      ensures GpioResetPin(resetGpio) in acts <==> resetGpio >= 0
    {
      acts := [];
      if resetGpio >= 0 {
        acts := [GpioResetPin(resetGpio)];
      }
      acts := acts + [Free];
      ret := Ok;
    }

    /**
     * `panel_st7735_reset`: a pulse on the reset line, 50 ms at the active
     * level and 50 ms back, or a software reset when there is no line.
     */
    method Reset() returns (ret: EspErr, acts: seq<LcdAction>)
      ensures ret == Ok
      ensures resetGpio >= 0 ==> acts == [GpioSetLevel(resetGpio, resetLevel), Delay(ResetPulseMs),
                                          GpioSetLevel(resetGpio, !resetLevel), Delay(ResetPulseMs)]
      ensures resetGpio < 0 ==> acts == [TxParam(Swreset, []), Delay(ResetPulseMs)]
    {
      if resetGpio >= 0 {
        acts := [GpioSetLevel(resetGpio, resetLevel), Delay(ResetPulseMs)];
        acts := acts + [GpioSetLevel(resetGpio, !resetLevel), Delay(ResetPulseMs)];
      } else {
        acts := [TxParam(Swreset, []), Delay(ResetPulseMs)];
      }
      ret := Ok;
    }

    /** `panel_st7735_init`: sleep out, the vendor table, then MADCTL, COLMOD and display on. */
    method Init() returns (ret: EspErr, acts: seq<LcdAction>)
      ensures ret == Ok && acts == InitCalls(madctl, colmod)
    {
      VendorTable();
      acts := [TxParam(Slpout, []), Delay(SleepOutMs)];
      var walk := SendTable(VendorInit);
      acts := acts + walk + [TxParam(Madctl, [ToByte(madctl)]), TxParam(Colmod, [ToByte(colmod)]), TxParam(Dispon, [])];
      ret := Ok;
    }

    /** `panel_st7735_draw_bitmap`. */
    method DrawBitmap(xStart: int, yStart: int, xEnd: int, yEnd: int) returns (ret: EspErr, acts: seq<LcdAction>)
      requires xStart < xEnd && yStart < yEnd
      ensures ret == Ok && acts == DrawCalls(xStart, yStart, xEnd, yEnd, xGap, yGap, bitsPerPixel)
    {
      var xs, xe, ys, ye := xStart + xGap, xEnd + xGap, yStart + yGap, yEnd + yGap;
      acts := [TxParam(Caset, Be16(xs) + Be16(xe - 1))];
      acts := acts + [TxParam(Raset, Be16(ys) + Be16(ye - 1))];
      var len := TransferLen(xs, ys, xe, ye, bitsPerPixel);
      acts := acts + [TxColor(Ramwr, len)];
      ret := Ok;
    }

    /** `panel_st7735_invert_color`. */
    method InvertColor(invert: bool) returns (ret: EspErr, acts: seq<LcdAction>)
      ensures ret == Ok && acts == [TxParam(InvertCommand(invert), [])]
    {
      var command := Invoff;
      if invert {
        command := Invon;
      }
      acts := [TxParam(command, [])];
      ret := Ok;
    }

    /** `panel_st7735_mirror`: updates MX and MY and sends the new MADCTL. */
    method Mirror(mirrorX: bool, mirrorY: bool) returns (ret: EspErr, acts: seq<LcdAction>)
      modifies this`madctl
      ensures madctl == MirrorBits(old(madctl), mirrorX, mirrorY)
      ensures ret == Ok && acts == [TxParam(Madctl, [ToByte(madctl)])]
    {
      ghost var m0 := madctl;
      if mirrorX {
        madctl := madctl | MxBit;
      } else {
        madctl := madctl & !MxBit;
      }
      assert madctl == SetBit(m0, MxBit, mirrorX);
      ghost var m1 := madctl;
      if mirrorY {
        madctl := madctl | MyBit;
      } else {
        madctl := madctl & !MyBit;
      }
      assert madctl == SetBit(m1, MyBit, mirrorY);
      acts := [TxParam(Madctl, [ToByte(madctl)])];
      ret := Ok;
    }

    /** `panel_st7735_swap_xy`: updates MV and sends the new MADCTL. */
    method SwapXy(swap: bool) returns (ret: EspErr, acts: seq<LcdAction>)
      modifies this`madctl
      ensures madctl == SwapBits(old(madctl), swap)
      ensures ret == Ok && acts == [TxParam(Madctl, [ToByte(madctl)])]
    {
      if swap {
        madctl := madctl | MvBit;
      } else {
        madctl := madctl & !MvBit;
      }
      acts := [TxParam(Madctl, [ToByte(madctl)])];
      ret := Ok;
    }

    /** `panel_st7735_set_gap`: only the gaps change, and nothing is sent. */
    method SetGap(x: int, y: int) returns (ret: EspErr)
      modifies this`xGap, this`yGap
      ensures ret == Ok && xGap == x && yGap == y
    {
      xGap, yGap := x, y;
      ret := Ok;
    }

    /** `panel_st7735_disp_off`. */
    method DispOff(off: bool) returns (ret: EspErr, acts: seq<LcdAction>)
      ensures ret == Ok && acts == [TxParam(DisplayCommand(off), [])]
    {
      var command := Dispon;
      if off {
        command := Dispoff;
      }
      acts := [TxParam(command, [])];
      ret := Ok;
    }
  }

  /** A table whose only end marker is last and whose lengths stay within the parameter arrays. */
  predicate TableFits(t: seq<InitEntry>)
  {
    EndsOnce(t) && forall i :: 0 <= i < |t| - 1 ==> ParamLen(t[i]) <= |t[i].data|
  }

  /** The counter loop of `panel_st7735_init` over an init table. */
  method SendTable(t: seq<InitEntry>) returns (acts: seq<LcdAction>)
    requires TableFits(t)
    ensures acts == TableCalls(Commands(t))
  {
    SendsAllButEnd(t);
    acts := [];
    var cmd := 0;
    while t[cmd].dataBytes != TableEnd
      invariant 0 <= cmd < |t|
      invariant acts == TableCalls(t[..cmd])
      decreases |t| - cmd
    {
      var e := t[cmd];
      var len := e.dataBytes as int % 32;
      var calls := [TxParam(e.cmd, e.data[..len])];
      if cmd < 2 {
        calls := calls + [Delay(InitEntryDelayMs)];
      }
      TableStep(t, cmd);
      acts := acts + calls;
      cmd := cmd + 1;
    }
  }

  /** Construction: the checks of `NewPanel` and, on success, a fresh panel object. */
  method Create(io: bool, cfg: Option<DevConfig>, retPtr: bool, allocOk: bool, gpioRet: EspErr)
    returns (ret: EspErr, panel: Panel?, acts: seq<LcdAction>)
    ensures ret == NewPanel(io, cfg, retPtr, allocOk, gpioRet).ret
    ensures acts == NewPanel(io, cfg, retPtr, allocOk, gpioRet).actions
    ensures panel != null <==> ret == Ok
    ensures panel != null ==> fresh(panel) && panel.Fields() == NewPanel(io, cfg, retPtr, allocOk, gpioRet).panel.value
  {
    var r := NewPanel(io, cfg, retPtr, allocOk, gpioRet);
    ret, acts := r.ret, r.actions;
    panel := null;
    if r.panel.Some? {
      panel := new Panel(r.panel.value);
    }
  }
}
