/** The state the driver keeps about the controller and its nunchuk
    extension: buttons, raw axes, calibration bytes and presence flags.

    The source also keeps floating-point tilt, force and stick values.  They
    are not modelled as numbers; instead each is recorded as the raw bytes it
    was last computed from (a `Derived` value), which is exactly what decides
    it, since every such value is a fixed function of those bytes. */
module Records {
  import opened Protocol

  datatype Byte2 = Byte2(x: Byte, y: Byte)
  datatype Byte3 = Byte3(x: Byte, y: Byte, z: Byte)

  datatype Dpad = Dpad(left: bool, right: bool, up: bool, down: bool)
  datatype MoteButtons = MoteButtons(a: bool, b: bool, one: bool, two: bool, plus: bool, minus: bool, home: bool)
  datatype ChukButtons = ChukButtons(c: bool, z: bool)

  /** The bytes a tilt and force computation reads: current axis, 0g and +1g points. */
  datatype AxisBasis = AxisBasis(axis: Byte3, zero: Byte3, scale: Byte3)

  /** The bytes a stick computation reads: current position and its calibration. */
  datatype StickBasis = StickBasis(axis: Byte2, min: Byte2, max: Byte2, center: Byte2)

  /** A floating-point quantity that keeps its start-up value until it is first
      computed, and afterwards is determined by the bytes of its last computation. */
  datatype Derived<T> = Initial | ComputedFrom(basis: T)

  /** The nunchuk record.  `motion` stands for its tilt and force, `stick` for
      the normalised stick position. */
  datatype Chuk = Chuk(
    stickAxis: Byte2, stickMin: Byte2, stickMax: Byte2, stickCenter: Byte2,
    stick: Derived<StickBasis>,
    button: ChukButtons,
    axis: Byte3, scale: Byte3, zero: Byte3,
    motion: Derived<AxisBasis>,
    connected: bool)

  /** The controller record.  `motion` stands for its tilt and force. */
  datatype Mote = Mote(
    connected: bool, rumbling: bool, battery: int,
    chuk: Chuk,
    dpad: Dpad, button: MoteButtons,
    axis: Byte3, scale: Byte3, zero: Byte3,
    motion: Derived<AxisBasis>)

  const NoBytes3: Byte3 := Byte3(0, 0, 0)
  const NoBytes2: Byte2 := Byte2(0, 0)

  /** The record as the object's constructor leaves it: nothing pressed, no
      calibration, not connected, not rumbling, battery 0. */
  function InitialMote(): Mote
  {
    Mote(false, false, 0,
         Chuk(NoBytes2, NoBytes2, NoBytes2, NoBytes2, Initial, ChukButtons(false, false),
              NoBytes3, NoBytes3, NoBytes3, Initial, false),
         Dpad(false, false, false, false),
         MoteButtons(false, false, false, false, false, false, false),
         NoBytes3, NoBytes3, NoBytes3, Initial)
  }
}
