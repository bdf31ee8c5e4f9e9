/** Wire-level vocabulary of the Wiimote HID protocol: byte and word types, the
    fixed frame size, report and command identifiers, and the button, LED and
    rumble masks.  The lemmas at the end state the facts about these constants
    that the decoder and the frame builders rely on. */
module Protocol {

  type Byte = bv8
  type Word = bv16

  /** Every inbound report and every outbound command is this many bytes. */
  const PacketSize: nat := 22

  /** One transport frame; byte 0 is the report or command identifier. */
  type Packet = s: seq<Byte> | |s| == PacketSize witness seq(22, _ => 0)

  /** The contents of a buffer right after it has been cleared. */
  function Zeros(): Packet
  {
    seq(PacketSize, _ => 0)
  }

  // Control profiles, rotated with Minus and Plus.
  const MyMax: int := 0x02
  const MyMouse: int := 0x00
  const MyEmu: int := 0x01
  const MyFps: int := 0x02

  // Input report identifiers (device to host).
  const ModeExpPort: Byte := 0x20
  const ModeReadData: Byte := 0x21
  const ModeWriteData: Byte := 0x22
  const ModeDefault: Byte := 0x30
  const ModeAcc: Byte := 0x31
  const ModeIr: Byte := 0x32
  const ModeAccIr: Byte := 0x33
  const ModeExt: Byte := 0x34
  const ModeAccExt: Byte := 0x35
  const ModeIrExt: Byte := 0x36
  const ModeAccIrExt: Byte := 0x37
  const ModeFull1: Byte := 0x3e
  const ModeFull2: Byte := 0x3f

  // Continuous or on-change reporting, byte 1 of a report-type command.
  const ModeNonCont: Byte := 0x00
  const ModeCont: Byte := 0x04

  // Output report identifiers (host to device).
  const OutLedFf: Byte := 0x11
  const OutReportType: Byte := 0x12
  const OutIrSense: Byte := 0x13
  const OutSpkrEnable: Byte := 0x14
  const OutCtrlStat: Byte := 0x15
  const OutWriteData: Byte := 0x16
  const OutReadData: Byte := 0x17
  const OutSpkrData: Byte := 0x18
  const OutSpkrMute: Byte := 0x19
  const OutIrSense2: Byte := 0x1a

  /** The rumble bit, carried in byte 1 of several output reports. */
  const OutRumble: Byte := 0x01

  // Masks over the 16-bit button word (bytes 1 and 2 of a button report).
  const ButTwo: Word := 0x0001
  const ButOne: Word := 0x0002
  const ButB: Word := 0x0004
  const ButA: Word := 0x0008
  const ButMinus: Word := 0x0010
  const Unknown0: Word := 0x0020
  const XAccLsb: Word := 0x0040
  const ButHome: Word := 0x0080
  const ButLeft: Word := 0x0100
  const ButRight: Word := 0x0200
  const ButDown: Word := 0x0400
  const ButUp: Word := 0x0800
  const ButPlus: Word := 0x1000
  const YAccLsb: Word := 0x2000
  const ZAccLsb: Word := 0x4000
  const Unknown1: Word := 0x8000

  // Masks over the (decrypted) nunchuk button byte; a clear bit means pressed.
  const ChukButZ: Byte := 0x01
  const ChukButC: Byte := 0x02

  // LED masks, byte 1 of an LED command.
  const LedNone: Byte := 0x00
  const LedOne: Byte := 0x10
  const LedTwo: Byte := 0x20
  const LedThree: Byte := 0x40
  const LedFour: Byte := 0x80

  /** The sixteen button-word masks, least significant first. */
  function ButtonMasks(): seq<Word>
  {
    [ButTwo, ButOne, ButB, ButA, ButMinus, Unknown0, XAccLsb, ButHome,
     ButLeft, ButRight, ButDown, ButUp, ButPlus, YAccLsb, ZAccLsb, Unknown1]
  }

  /** The eleven masks that name a button or a dpad direction. */
  const ButtonBits: Word := 0x1F9F

  /** The five masks that name no button: two unknown bits and three accelerometer LSBs. */
  const SpareBits: Word := 0xE060

  function InputReportIds(): seq<Byte>
  {
    [ModeExpPort, ModeReadData, ModeWriteData, ModeDefault, ModeAcc, ModeIr, ModeAccIr,
     ModeExt, ModeAccExt, ModeIrExt, ModeAccIrExt, ModeFull1, ModeFull2]
  }

  function OutputReportIds(): seq<Byte>
  {
    [OutLedFf, OutReportType, OutIrSense, OutSpkrEnable, OutCtrlStat, OutWriteData,
     OutReadData, OutSpkrData, OutSpkrMute, OutIrSense2]
  }

  function LedMasks(): seq<Byte>
  {
    [LedOne, LedTwo, LedThree, LedFour]
  }

  /** A word with exactly one bit set. */
  predicate SingleBit(w: Word)
  {
    w != 0 && w & (w - 1) == 0
  }

  /** Mask number i of the button word is bit i, so the sixteen masks are
      pairwise distinct single bits and every button flag reads one bit. */
  lemma ButtonMasksAreTheSixteenBits()
    ensures |ButtonMasks()| == 16
    ensures forall i :: 0 <= i < 16 ==> ButtonMasks()[i] == (1 as Word) << i
    ensures forall i :: 0 <= i < 16 ==> SingleBit(ButtonMasks()[i])
    ensures forall i, j :: 0 <= i < j < 16 ==> ButtonMasks()[i] & ButtonMasks()[j] == 0
  {
  }

  /** The named and the spare masks split the word between them. */
  lemma ButtonBitsPartitionTheWord()
    ensures ButtonBits == ButTwo | ButOne | ButB | ButA | ButMinus | ButHome
                          | ButLeft | ButRight | ButDown | ButUp | ButPlus
    ensures SpareBits == Unknown0 | XAccLsb | YAccLsb | ZAccLsb | Unknown1
    ensures ButtonBits & SpareBits == 0 && ButtonBits | SpareBits == 0xFFFF
  {
  }

  /** The profile identifiers are 0, 1, 2 and the rotation bound is the largest. */
  lemma ProfilesAreConsecutive()
    ensures MyMouse == 0 && MyEmu == MyMouse + 1 && MyFps == MyEmu + 1
    ensures MyMax == MyFps
  {
  }

  /** The LED masks are distinct single bits, disjoint from the rumble bit, so
      OR-ing rumble into an LED byte never changes which LED it selects. */
  lemma LedMasksAvoidRumble()
    ensures forall i, j :: 0 <= i < j < |LedMasks()| ==> LedMasks()[i] & LedMasks()[j] == 0
    ensures forall i :: 0 <= i < |LedMasks()| ==> LedMasks()[i] & OutRumble == 0
    ensures forall i :: 0 <= i < |LedMasks()| ==> (LedMasks()[i] | OutRumble) & 0xF0 == LedMasks()[i]
  {
  }

  /** The two nunchuk button masks are distinct single bits. */
  lemma ChukMasksAreDistinctBits()
    ensures ChukButZ == 1 && ChukButC == 2 && ChukButZ & ChukButC == 0
  {
  }

  /** No input report identifier is also an output report identifier. */
  lemma ReportIdsDisjoint()
    ensures forall i :: 0 <= i < |InputReportIds()| ==> 0x20 <= InputReportIds()[i] <= 0x3f
    ensures forall j :: 0 <= j < |OutputReportIds()| ==> 0x11 <= OutputReportIds()[j] <= 0x1a
    ensures forall i, j :: 0 <= i < |InputReportIds()| && 0 <= j < |OutputReportIds()| ==>
              InputReportIds()[i] != OutputReportIds()[j]
  {
  }
}
