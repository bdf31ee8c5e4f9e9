/** The frame codec: the extension-byte obfuscation, the button word, the
    outbound command frames, the decoding of input reports (what a parsed
    report does to the controller record) and the decoding of the three
    replies the initialisation handshake reads.  Each decoder has a builder
    beside it, and the round-trip lemmas say that decoding a built frame
    gives back what was put in. */
module Codec {
  import opened Protocol
  import opened Records

  // ---------------------------------------------------------------------------
  // Extension-byte obfuscation

  /** The inverse of the extension-byte transform. */
  function WiiEncrypt(d: Byte): Byte
  {
    (d - 0x17) ^ 0x17
  }

  /** Extension payload bytes arrive obfuscated: XOR with 0x17, then add 0x17
      modulo 256.  The transform is undone exactly by WiiEncrypt. */
  function WiiDecrypt(c: Byte): (d: Byte)
    ensures WiiEncrypt(d) == c
  {
    (c ^ 0x17) + 0x17
  }

  /** The transform in integer terms: the addition wraps at 256. */
  lemma DecryptArithmetic(c: Byte)
    ensures WiiDecrypt(c) as int == ((c ^ 0x17) as int + 0x17) % 256
  {
  }

  /** Decryption undoes encryption, one byte at a time. */
  lemma DecryptUndoesEncrypt(d: Byte)
    ensures WiiDecrypt(WiiEncrypt(d)) == d
  {
  }

  /** WiiDecrypt is a bijection on bytes. */
  lemma DecryptBijective()
    ensures forall c1: Byte, c2: Byte :: WiiDecrypt(c1) == WiiDecrypt(c2) ==> c1 == c2
    ensures forall d: Byte :: WiiDecrypt(WiiEncrypt(d)) == d
  {
  }

  /** Known input/output pairs, including the two fixed points 0x17 and 0x37. */
  lemma DecryptKnownValues()
    ensures WiiDecrypt(0x00) == 0x2E
    ensures WiiDecrypt(0x17) == 0x17
    ensures WiiDecrypt(0x37) == 0x37
    ensures WiiDecrypt(0x01) == 0x2D
    ensures WiiDecrypt(0x10) == 0x1E
    ensures WiiDecrypt(0x2E) == 0x50
    ensures WiiDecrypt(0x7F) == 0x7F
    ensures WiiDecrypt(0x80) == 0xAE
    ensures WiiDecrypt(0xE8) == 0x16
    ensures WiiDecrypt(0xFF) == 0xFF
  {
  }

  // ---------------------------------------------------------------------------
  // The button word

  function HighByte(w: Word): Byte { (w >> 8) as Byte }
  function LowByte(w: Word): Byte { (w & 0xFF) as Byte }

  /** Bytes 1 and 2 of a button report, combined big-endian: byte 1 is the
      word's high byte and byte 2 its low byte. */
  function ButtonWord(hi: Byte, lo: Byte): (w: Word)
    ensures HighByte(w) == hi && LowByte(w) == lo
  {
    (hi as Word << 8) | lo as Word
  }

  lemma ButtonWordSplit(w: Word)
    ensures ButtonWord(HighByte(w), LowByte(w)) == w
  {
  }

  /** The dpad directions a button word reports. */
  function DecodeDpad(w: Word): Dpad
  {
    Dpad(w & ButLeft != 0, w & ButRight != 0, w & ButUp != 0, w & ButDown != 0)
  }

  /** The seven buttons a button word reports. */
  function DecodeButtons(w: Word): MoteButtons
  {
    MoteButtons(w & ButA != 0, w & ButB != 0, w & ButOne != 0, w & ButTwo != 0,
                w & ButPlus != 0, w & ButMinus != 0, w & ButHome != 0)
  }

  /** The button word that reports exactly the given dpad and buttons. */
  function EncodeButtons(d: Dpad, b: MoteButtons): Word
  {
    (if d.left then ButLeft else 0) | (if d.right then ButRight else 0)
    | (if d.up then ButUp else 0) | (if d.down then ButDown else 0)
    | (if b.a then ButA else 0) | (if b.b then ButB else 0)
    | (if b.one then ButOne else 0) | (if b.two then ButTwo else 0)
    | (if b.plus then ButPlus else 0) | (if b.minus then ButMinus else 0)
    | (if b.home then ButHome else 0)
  }

  lemma ButtonsRoundTrip(d: Dpad, b: MoteButtons)
    ensures DecodeDpad(EncodeButtons(d, b)) == d
    ensures DecodeButtons(EncodeButtons(d, b)) == b
  {
  }

  /** Decoding keeps exactly the eleven named bits of the word. */
  lemma ButtonsDecodeNamedBits(w: Word)
    ensures EncodeButtons(DecodeDpad(w), DecodeButtons(w)) == w & ButtonBits
  {
  }

  /** The unknown and accelerometer-LSB bits affect no button or dpad flag. */
  lemma SpareBitsIgnored(w: Word, spare: Word)
    requires spare & ButtonBits == 0
    ensures DecodeDpad(w | spare) == DecodeDpad(w)
    ensures DecodeButtons(w | spare) == DecodeButtons(w)
    ensures DecodeDpad(w & !spare) == DecodeDpad(w)
    ensures DecodeButtons(w & !spare) == DecodeButtons(w)
  {
  }

  /** The nunchuk buttons a decrypted button byte reports: a clear bit means pressed. */
  function DecodeChukButtons(raw: Byte): ChukButtons
  {
    ChukButtons(raw & ChukButC == 0, raw & ChukButZ == 0)
  }

  /** The decrypted button byte that reports the given nunchuk buttons. */
  function EncodeChukButtons(cb: ChukButtons): Byte
  {
    (if cb.c then 0 else ChukButC) | (if cb.z then 0 else ChukButZ)
  }

  lemma ChukButtonsRoundTrip(cb: ChukButtons)
    ensures DecodeChukButtons(EncodeChukButtons(cb)) == cb
  {
  }

  // ---------------------------------------------------------------------------
  // Outbound command frames

  /** A command frame: the given leading bytes, then zeros up to the frame size. */
  function Command(prefix: seq<Byte>): (p: Packet)
    requires |prefix| <= PacketSize
    ensures p[..|prefix|] == prefix
    ensures forall i :: |prefix| <= i < PacketSize ==> p[i] == 0
  {
    prefix + seq(PacketSize - |prefix|, _ => 0)
  }

  /** Byte i of a command frame is byte i of its prefix. */
  lemma CommandAt(prefix: seq<Byte>, i: nat)
    requires i < |prefix| <= PacketSize
    ensures Command(prefix)[i] == prefix[i]
  {
  }

  /** Set the reporting mode, continuous or on change. */
  function ModeFrame(mode: Byte, continuous: Byte): Packet
  {
    Command([OutReportType, continuous, mode])
  }

  /** Set the LEDs, carrying the rumble bit forward. */
  function LedFrame(mask: Byte, rumbling: bool): Packet
  {
    Command([OutLedFf, if rumbling then mask | OutRumble else mask])
  }

  /** Switch rumble on or off. */
  function RumbleFrame(on: bool): Packet
  {
    Command([OutIrSense2, if on then OutRumble else 0x00])
  }

  /** Request a status report. */
  function StatusRequestFrame(): Packet
  {
    Command([OutCtrlStat, 0x00])
  }

  /** Read the 7-byte controller calibration block at EEPROM offset 0x16. */
  function MoteCalibrationRequestFrame(): Packet
  {
    Command([OutReadData, 0x00, 0x00, 0x00, 0x16, 0x00, 0x07])
  }

  /** Write the single byte 0x00 at register 0x04A40040, which enables the nunchuk. */
  function ChukEnableFrame(): Packet
  {
    Command([OutWriteData, 0x04, 0xA4, 0x00, 0x40, 0x01, 0x00])
  }

  /** Read the 14-byte nunchuk calibration block at register 0x04A40020. */
  function ChukCalibrationRequestFrame(): Packet
  {
    Command([OutReadData, 0x04, 0xA4, 0x00, 0x20, 0x00, 0x0E])
  }

  lemma ModeFrameLayout(mode: Byte, continuous: Byte)
    ensures ModeFrame(mode, continuous)[0] == OutReportType
    ensures ModeFrame(mode, continuous)[1] == continuous
    ensures ModeFrame(mode, continuous)[2] == mode
    ensures forall i :: 3 <= i < PacketSize ==> ModeFrame(mode, continuous)[i] == 0
  {
  }

  lemma RumbleFrameLayout(on: bool)
    ensures RumbleFrame(on)[0] == OutIrSense2
    ensures RumbleFrame(on)[1] == if on then 0x01 else 0x00
    ensures forall i :: 2 <= i < PacketSize ==> RumbleFrame(on)[i] == 0
  {
  }

  /** An LED frame selects exactly the requested LEDs and reports rumble in bit 0. */
  lemma LedFrameLayout(mask: Byte, rumbling: bool)
    ensures LedFrame(mask, rumbling)[0] == OutLedFf
    ensures LedFrame(mask, rumbling)[1] == mask | (if rumbling then 0x01 else 0x00)
    ensures forall i :: 2 <= i < PacketSize ==> LedFrame(mask, rumbling)[i] == 0
    ensures mask & OutRumble == 0 ==>
              LedFrame(mask, rumbling)[1] & !OutRumble == mask &&
              (LedFrame(mask, rumbling)[1] & OutRumble != 0 <==> rumbling)
  {
  }

  // ---------------------------------------------------------------------------
  // Input reports: what one parsed report does to the controller record

  /** Bytes 1 and 2 decoded into the dpad and button flags. */
  function WithButtons(m: Mote, buf: Packet): Mote
  {
    var w := ButtonWord(buf[1], buf[2]);
    m.(dpad := DecodeDpad(w), button := DecodeButtons(w))
  }

  /** Bytes 3 to 5 copied, undecrypted, into the raw axes. */
  function WithAxis(m: Mote, buf: Packet): Mote
  {
    m.(axis := Byte3(buf[3], buf[4], buf[5]))
  }

  /** Bytes 6 to 11 decrypted into the nunchuk stick, axes and buttons. */
  function WithChukData(m: Mote, buf: Packet): Mote
  {
    m.(chuk := m.chuk.(
      stickAxis := Byte2(WiiDecrypt(buf[6]), WiiDecrypt(buf[7])),
      axis := Byte3(WiiDecrypt(buf[8]), WiiDecrypt(buf[9]), WiiDecrypt(buf[10])),
      button := DecodeChukButtons(WiiDecrypt(buf[11]))))
  }

  /** Tilt and force recomputed from the current bytes; the nunchuk's only when
      it is connected. */
  function WithMotion(m: Mote): Mote
  {
    m.(motion := ComputedFrom(AxisBasis(m.axis, m.zero, m.scale)),
       chuk := if m.chuk.connected
               then m.chuk.(motion := ComputedFrom(AxisBasis(m.chuk.axis, m.chuk.zero, m.chuk.scale)))
               else m.chuk)
  }

  /** The nunchuk stick position recomputed from its current bytes. */
  function WithStick(m: Mote): Mote
  {
    m.(chuk := m.chuk.(stick := ComputedFrom(StickBasis(m.chuk.stickAxis, m.chuk.stickMin,
                                                        m.chuk.stickMax, m.chuk.stickCenter))))
  }

  /** Motion is recomputed only once calibration has been gathered, which the
      driver detects by a non-zero X zero point. */
  predicate Calibrated(m: Mote)
  {
    m.zero.x != 0
  }

  /** The record after one report has been read: `ok` says whether the read
      succeeded, `buf` is the read buffer.  Only the button-bearing reports
      0x30, 0x31 and 0x35 are interpreted, and no input report touches the
      connection, rumble, battery, extension presence or any calibration. */
  function ApplyReport(m: Mote, ok: bool, buf: Packet): (r: Mote)
    ensures r.connected == m.connected && r.rumbling == m.rumbling && r.battery == m.battery
    ensures r.zero == m.zero && r.scale == m.scale
    ensures r.chuk.connected == m.chuk.connected && r.chuk.zero == m.chuk.zero && r.chuk.scale == m.chuk.scale
    ensures r.chuk.stickMin == m.chuk.stickMin && r.chuk.stickMax == m.chuk.stickMax
    ensures r.chuk.stickCenter == m.chuk.stickCenter
  {
    if !ok then m
    else if buf[0] == ModeDefault then
      WithButtons(m, buf)
    else if buf[0] == ModeAcc then
      var m1 := WithAxis(WithButtons(m, buf), buf);
      if Calibrated(m1) then WithMotion(m1) else m1
    else if buf[0] == ModeAccExt then
      var m1 := WithChukData(WithAxis(WithButtons(m, buf), buf), buf);
      if Calibrated(m1) then WithStick(WithMotion(m1)) else m1
    else m
  }

  /** A failed read, or any report other than 0x30, 0x31 and 0x35, changes nothing. */
  lemma ReportInert(m: Mote, ok: bool, buf: Packet)
    requires !ok || (buf[0] != ModeDefault && buf[0] != ModeAcc && buf[0] != ModeAccExt)
    ensures ApplyReport(m, ok, buf) == m
  {
  }

  /** A 0x30 report changes the buttons and nothing else; each flag is its
      mask's bit of the big-endian word in bytes 1 and 2. */
  lemma ButtonReportChangesButtonsOnly(m: Mote, buf: Packet)
    requires buf[0] == ModeDefault
    ensures var r := ApplyReport(m, true, buf);
            && r == m.(dpad := r.dpad, button := r.button)
            && r.dpad == DecodeDpad(ButtonWord(buf[1], buf[2]))
            && r.button == DecodeButtons(ButtonWord(buf[1], buf[2]))
  {
  }

  /** A 0x31 report also copies the raw axes; it recomputes motion exactly when
      calibrated, and leaves calibration, presence and nunchuk data alone. */
  lemma AccReportEffect(m: Mote, buf: Packet)
    requires buf[0] == ModeAcc
    ensures var r := ApplyReport(m, true, buf);
            && r.dpad == DecodeDpad(ButtonWord(buf[1], buf[2]))
            && r.button == DecodeButtons(ButtonWord(buf[1], buf[2]))
            && r.axis == Byte3(buf[3], buf[4], buf[5])
            && r.zero == m.zero && r.scale == m.scale
            && r.connected == m.connected && r.rumbling == m.rumbling && r.battery == m.battery
            && r.motion == (if m.zero.x != 0 then ComputedFrom(AxisBasis(r.axis, m.zero, m.scale)) else m.motion)
            && r.chuk == m.chuk.(motion := r.chuk.motion)
            && r.chuk.motion == (if m.zero.x != 0 && m.chuk.connected
                                 then ComputedFrom(AxisBasis(m.chuk.axis, m.chuk.zero, m.chuk.scale))
                                 else m.chuk.motion)
  {
  }

  /** A 0x35 report also sets the nunchuk stick and axes to the decrypted bytes
      6 to 10; C (Z) is pressed exactly when bit 0x02 (0x01) of decrypted byte
      11 is clear.  Once calibrated, motion and the stick position are
      recomputed from the new bytes.  Calibration is never touched. */
  lemma AccExtReportEffect(m: Mote, buf: Packet)
    requires buf[0] == ModeAccExt
    ensures var r := ApplyReport(m, true, buf);
            var chukButtons := WiiDecrypt(buf[11]);
            && r.dpad == DecodeDpad(ButtonWord(buf[1], buf[2]))
            && r.button == DecodeButtons(ButtonWord(buf[1], buf[2]))
            && r.axis == Byte3(buf[3], buf[4], buf[5])
            && r.chuk.stickAxis == Byte2(WiiDecrypt(buf[6]), WiiDecrypt(buf[7]))
            && r.chuk.axis == Byte3(WiiDecrypt(buf[8]), WiiDecrypt(buf[9]), WiiDecrypt(buf[10]))
            && (r.chuk.button.c <==> chukButtons & 0x02 == 0)
            && (r.chuk.button.z <==> chukButtons & 0x01 == 0)
            && r.zero == m.zero && r.scale == m.scale && r.chuk.zero == m.chuk.zero && r.chuk.scale == m.chuk.scale
            && r.chuk.stickMin == m.chuk.stickMin && r.chuk.stickMax == m.chuk.stickMax
            && r.chuk.stickCenter == m.chuk.stickCenter && r.chuk.connected == m.chuk.connected
            && r.connected == m.connected && r.rumbling == m.rumbling && r.battery == m.battery
            && (m.zero.x == 0 ==> r.motion == m.motion && r.chuk.motion == m.chuk.motion && r.chuk.stick == m.chuk.stick)
            && (m.zero.x != 0 ==> r.chuk.stick == ComputedFrom(StickBasis(r.chuk.stickAxis, m.chuk.stickMin,
                                                                          m.chuk.stickMax, m.chuk.stickCenter)))
            && (m.zero.x != 0 ==> r.motion == ComputedFrom(AxisBasis(r.axis, m.zero, m.scale)))
            && (m.zero.x != 0 ==> r.chuk.motion == (if m.chuk.connected
                                                    then ComputedFrom(AxisBasis(r.chuk.axis, m.chuk.zero, m.chuk.scale))
                                                    else m.chuk.motion))
  {
  }

  /** A 0x30 report as the controller sends it. */
  function ButtonReport(d: Dpad, b: MoteButtons): Packet
  {
    var w := EncodeButtons(d, b);
    Command([ModeDefault, HighByte(w), LowByte(w)])
  }

  /** A 0x31 report as the controller sends it. */
  function AccReport(d: Dpad, b: MoteButtons, axis: Byte3): Packet
  {
    var w := EncodeButtons(d, b);
    Command([ModeAcc, HighByte(w), LowByte(w), axis.x, axis.y, axis.z])
  }

  /** A 0x35 report as the controller sends it, extension bytes obfuscated. */
  function AccExtReport(d: Dpad, b: MoteButtons, axis: Byte3, stick: Byte2, chukAxis: Byte3, cb: ChukButtons): Packet
  {
    var w := EncodeButtons(d, b);
    Command([ModeAccExt, HighByte(w), LowByte(w), axis.x, axis.y, axis.z,
             WiiEncrypt(stick.x), WiiEncrypt(stick.y),
             WiiEncrypt(chukAxis.x), WiiEncrypt(chukAxis.y), WiiEncrypt(chukAxis.z),
             WiiEncrypt(EncodeChukButtons(cb))])
  }

  lemma {:induction false} ButtonReportRoundTrip(m: Mote, d: Dpad, b: MoteButtons)
    ensures ApplyReport(m, true, ButtonReport(d, b)) == m.(dpad := d, button := b)
  {
    var w := EncodeButtons(d, b);
    var p := ButtonReport(d, b);
    assert p[1] == HighByte(w) && p[2] == LowByte(w);
    ButtonWordSplit(w);
    ButtonsRoundTrip(d, b);
  }

  lemma {:induction false} AccReportRoundTrip(m: Mote, d: Dpad, b: MoteButtons, axis: Byte3)
    ensures var r := ApplyReport(m, true, AccReport(d, b, axis));
            r.dpad == d && r.button == b && r.axis == axis
  {
    var w := EncodeButtons(d, b);
    var p := AccReport(d, b, axis);
    assert p[1] == HighByte(w) && p[2] == LowByte(w);
    assert p[3] == axis.x && p[4] == axis.y && p[5] == axis.z;
    ButtonWordSplit(w);
    ButtonsRoundTrip(d, b);
  }

  lemma {:induction false} AccExtReportRoundTrip(m: Mote, d: Dpad, b: MoteButtons, axis: Byte3,
                                                  stick: Byte2, chukAxis: Byte3, cb: ChukButtons)
    ensures var r := ApplyReport(m, true, AccExtReport(d, b, axis, stick, chukAxis, cb));
            && r.dpad == d && r.button == b && r.axis == axis
            && r.chuk.stickAxis == stick && r.chuk.axis == chukAxis && r.chuk.button == cb
  {
    var w := EncodeButtons(d, b);
    var p := AccExtReport(d, b, axis, stick, chukAxis, cb);
    assert p[1] == HighByte(w) && p[2] == LowByte(w);
    assert p[3] == axis.x && p[4] == axis.y && p[5] == axis.z;
    assert p[6] == WiiEncrypt(stick.x) && p[7] == WiiEncrypt(stick.y);
    assert p[8] == WiiEncrypt(chukAxis.x) && p[9] == WiiEncrypt(chukAxis.y) && p[10] == WiiEncrypt(chukAxis.z);
    assert p[11] == WiiEncrypt(EncodeChukButtons(cb));
    ButtonWordSplit(w);
    ButtonsRoundTrip(d, b);
    DecryptUndoesEncrypt(stick.x); DecryptUndoesEncrypt(stick.y);
    DecryptUndoesEncrypt(chukAxis.x); DecryptUndoesEncrypt(chukAxis.y); DecryptUndoesEncrypt(chukAxis.z);
    DecryptUndoesEncrypt(EncodeChukButtons(cb));
    ChukButtonsRoundTrip(cb);
  }

  // ---------------------------------------------------------------------------
  // Handshake replies

  /** A status reply (0x20) sets extension presence from bit 0x02 of byte 3 and
      the battery percentage from half of byte 6; anything else is ignored. */
  function StatusUpdate(m: Mote, buf: Packet): (r: Mote)
    ensures r == m.(chuk := m.chuk.(connected := r.chuk.connected), battery := r.battery)
    ensures r.battery == m.battery || 0 <= r.battery <= 127
  {
    if buf[0] == ModeExpPort then
      m.(chuk := m.chuk.(connected := buf[3] & 0x02 != 0), battery := buf[6] as int / 2)
    else m
  }

  /** A read-data reply (0x21) from offset 0x16 carries the controller's zero
      points in bytes 6 to 8 and its +1g points in bytes 10 to 12; anything
      else leaves the calibration as it was. */
  function MoteCalibrationUpdate(m: Mote, buf: Packet): (r: Mote)
    ensures r == m.(zero := r.zero, scale := r.scale)
  {
    if buf[0] == ModeReadData && buf[5] == 0x16 then
      m.(zero := Byte3(buf[6], buf[7], buf[8]), scale := Byte3(buf[10], buf[11], buf[12]))
    else m
  }

  /** A read-data reply (0x21) from address 0x0020 whose byte 3 says 14 bytes
      and no error carries the nunchuk calibration, obfuscated, in bytes 6 to 19;
      anything else leaves the calibration as it was. */
  function ChukCalibrationUpdate(m: Mote, buf: Packet): (r: Mote)
    ensures r == m.(chuk := m.chuk.(zero := r.chuk.zero, scale := r.chuk.scale, stickMax := r.chuk.stickMax,
                               stickMin := r.chuk.stickMin, stickCenter := r.chuk.stickCenter))
  {
    if buf[0] == ModeReadData && buf[4] == 0x00 && buf[5] == 0x20 && buf[3] == 0xD0 then
      m.(chuk := m.chuk.(
        zero := Byte3(WiiDecrypt(buf[6]), WiiDecrypt(buf[7]), WiiDecrypt(buf[8])),
        scale := Byte3(WiiDecrypt(buf[10]), WiiDecrypt(buf[11]), WiiDecrypt(buf[12])),
        stickMax := Byte2(WiiDecrypt(buf[14]), WiiDecrypt(buf[17])),
        stickMin := Byte2(WiiDecrypt(buf[15]), WiiDecrypt(buf[18])),
        stickCenter := Byte2(WiiDecrypt(buf[16]), WiiDecrypt(buf[19]))))
    else m
  }

  lemma StatusUpdateEffect(m: Mote, buf: Packet)
    ensures var r := StatusUpdate(m, buf);
            && (buf[0] != ModeExpPort ==> r == m)
            && (buf[0] == ModeExpPort ==>
                  && (r.chuk.connected <==> buf[3] & 0x02 != 0)
                  && r.battery == buf[6] as int / 2
                  && 0 <= r.battery <= 127
                  && r == m.(chuk := m.chuk.(connected := r.chuk.connected), battery := r.battery))
  {
  }

  lemma MoteCalibrationUpdateEffect(m: Mote, buf: Packet)
    ensures var r := MoteCalibrationUpdate(m, buf);
            && (buf[0] != ModeReadData || buf[5] != 0x16 ==> r == m)
            && (buf[0] == ModeReadData && buf[5] == 0x16 ==>
                  && r.zero == Byte3(buf[6], buf[7], buf[8])
                  && r.scale == Byte3(buf[10], buf[11], buf[12])
                  && r == m.(zero := r.zero, scale := r.scale))
  {
  }

  lemma ChukCalibrationUpdateEffect(m: Mote, buf: Packet)
    ensures var r := ChukCalibrationUpdate(m, buf);
            var accepted := buf[0] == ModeReadData && buf[4] == 0x00 && buf[5] == 0x20 && buf[3] == 0xD0;
            && (!accepted ==> r == m)
            && (accepted ==>
                  && r.chuk.zero == Byte3(WiiDecrypt(buf[6]), WiiDecrypt(buf[7]), WiiDecrypt(buf[8]))
                  && r.chuk.scale == Byte3(WiiDecrypt(buf[10]), WiiDecrypt(buf[11]), WiiDecrypt(buf[12]))
                  && r.chuk.stickMax == Byte2(WiiDecrypt(buf[14]), WiiDecrypt(buf[17]))
                  && r.chuk.stickMin == Byte2(WiiDecrypt(buf[15]), WiiDecrypt(buf[18]))
                  && r.chuk.stickCenter == Byte2(WiiDecrypt(buf[16]), WiiDecrypt(buf[19]))
                  && r == m.(chuk := m.chuk.(zero := r.chuk.zero, scale := r.chuk.scale, stickMax := r.chuk.stickMax,
                                             stickMin := r.chuk.stickMin, stickCenter := r.chuk.stickCenter)))
  {
  }

  /** A status reply as the controller sends it. */
  function StatusReply(extension: bool, rawBattery: Byte): Packet
  {
    Command([ModeExpPort, 0x00, 0x00, if extension then 0x02 else 0x00, 0x00, 0x00, rawBattery])
  }

  /** The controller calibration reply: 7 bytes (size nibble 6) from offset 0x16. */
  function MoteCalibrationReply(zero: Byte3, scale: Byte3): Packet
  {
    Command([ModeReadData, 0x00, 0x00, 0x60, 0x00, 0x16, zero.x, zero.y, zero.z, 0x00, scale.x, scale.y, scale.z])
  }

  /** The nunchuk calibration reply: 14 bytes (size nibble 0xD) from 0x0020, obfuscated. */
  function ChukCalibrationReply(zero: Byte3, scale: Byte3, max: Byte2, min: Byte2, center: Byte2): Packet
  {
    Command([ModeReadData, 0x00, 0x00, 0xD0, 0x00, 0x20,
             WiiEncrypt(zero.x), WiiEncrypt(zero.y), WiiEncrypt(zero.z), 0x00,
             WiiEncrypt(scale.x), WiiEncrypt(scale.y), WiiEncrypt(scale.z), 0x00,
             WiiEncrypt(max.x), WiiEncrypt(min.x), WiiEncrypt(center.x),
             WiiEncrypt(max.y), WiiEncrypt(min.y), WiiEncrypt(center.y)])
  }

  /** A status reply with byte 3 = 0x02 and byte 6 = 176 reports an extension and 88% battery. */
  lemma StatusExample(m: Mote)
    ensures StatusUpdate(m, StatusReply(true, 176)).chuk.connected
    ensures StatusUpdate(m, StatusReply(true, 176)).battery == 88
  {
  }

  lemma {:induction false} StatusRoundTrip(m: Mote, extension: bool, rawBattery: Byte)
    ensures StatusUpdate(m, StatusReply(extension, rawBattery)).chuk.connected == extension
    ensures StatusUpdate(m, StatusReply(extension, rawBattery)).battery == rawBattery as int / 2
  {
    var p := StatusReply(extension, rawBattery);
    assert p[0] == ModeExpPort && p[3] == (if extension then 0x02 else 0x00) && p[6] == rawBattery;
  }

  lemma {:induction false} MoteCalibrationRoundTrip(m: Mote, zero: Byte3, scale: Byte3)
    ensures MoteCalibrationUpdate(m, MoteCalibrationReply(zero, scale)) == m.(zero := zero, scale := scale)
  {
    var p := MoteCalibrationReply(zero, scale);
    assert p[0] == ModeReadData && p[5] == 0x16;
    assert p[6] == zero.x && p[7] == zero.y && p[8] == zero.z;
    assert p[10] == scale.x && p[11] == scale.y && p[12] == scale.z;
  }

  /** Where the nunchuk calibration reply puts each obfuscated byte. */
  lemma ChukCalibrationReplyBytes(zero: Byte3, scale: Byte3, max: Byte2, min: Byte2, center: Byte2)
    ensures var p := ChukCalibrationReply(zero, scale, max, min, center);
            && p[0] == ModeReadData && p[3] == 0xD0 && p[4] == 0x00 && p[5] == 0x20
            && p[6] == WiiEncrypt(zero.x) && p[7] == WiiEncrypt(zero.y) && p[8] == WiiEncrypt(zero.z)
            && p[10] == WiiEncrypt(scale.x) && p[11] == WiiEncrypt(scale.y) && p[12] == WiiEncrypt(scale.z)
            && p[14] == WiiEncrypt(max.x) && p[15] == WiiEncrypt(min.x) && p[16] == WiiEncrypt(center.x)
            && p[17] == WiiEncrypt(max.y) && p[18] == WiiEncrypt(min.y) && p[19] == WiiEncrypt(center.y)
  {
    var pre := [ModeReadData, 0x00, 0x00, 0xD0, 0x00, 0x20,
                WiiEncrypt(zero.x), WiiEncrypt(zero.y), WiiEncrypt(zero.z), 0x00,
                WiiEncrypt(scale.x), WiiEncrypt(scale.y), WiiEncrypt(scale.z), 0x00,
                WiiEncrypt(max.x), WiiEncrypt(min.x), WiiEncrypt(center.x),
                WiiEncrypt(max.y), WiiEncrypt(min.y), WiiEncrypt(center.y)];
    assert ChukCalibrationReply(zero, scale, max, min, center) == Command(pre);
    CommandAt(pre, 0); CommandAt(pre, 3); CommandAt(pre, 4); CommandAt(pre, 5);
    CommandAt(pre, 6); CommandAt(pre, 7); CommandAt(pre, 8);
    CommandAt(pre, 10); CommandAt(pre, 11); CommandAt(pre, 12);
    CommandAt(pre, 14); CommandAt(pre, 15); CommandAt(pre, 16);
    CommandAt(pre, 17); CommandAt(pre, 18); CommandAt(pre, 19);
  }

  lemma {:induction false} ChukCalibrationRoundTrip(m: Mote, zero: Byte3, scale: Byte3, max: Byte2, min: Byte2, center: Byte2)
    ensures ChukCalibrationUpdate(m, ChukCalibrationReply(zero, scale, max, min, center))
         == m.(chuk := m.chuk.(zero := zero, scale := scale, stickMax := max, stickMin := min, stickCenter := center))
  {
    var p := ChukCalibrationReply(zero, scale, max, min, center);
    ChukCalibrationReplyBytes(zero, scale, max, min, center);
    DecryptUndoesEncrypt(zero.x); DecryptUndoesEncrypt(zero.y); DecryptUndoesEncrypt(zero.z);
    DecryptUndoesEncrypt(scale.x); DecryptUndoesEncrypt(scale.y); DecryptUndoesEncrypt(scale.z);
    DecryptUndoesEncrypt(max.x); DecryptUndoesEncrypt(min.x); DecryptUndoesEncrypt(center.x);
    DecryptUndoesEncrypt(max.y); DecryptUndoesEncrypt(min.y); DecryptUndoesEncrypt(center.y);
    ChukCalibrationUpdateEffect(m, p);
  }


}
