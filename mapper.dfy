/** The control mapper: what one pass of the polling loop does with the
    decoded controller record.  Each of the three profiles (Mouse, Emulator,
    FPS) turns buttons and motion into synthesized keyboard and mouse events,
    edge-triggered against the previous pass; Minus and Plus rotate the
    profile and an LED frame shows the new one.

    Quantities the source derives from floating-point tilt, force and stick
    values arrive as a `Readings` record: the truncated mouse moves and the
    outcomes of the threshold tests. */
module Mapper {
  import opened Protocol
  import opened Records
  import opened Codec

  /** A 32-bit unsigned value, the type of the loop's mouse-move variables. */
  type Dword = x: int | 0 <= x < 0x1_0000_0000

  /** Conversion of a signed value to a 32-bit unsigned one (wraps modulo 2^32). */
  function AsDword(v: int): (d: Dword)
    ensures (d - v) % 0x1_0000_0000 == 0
  {
    v % 0x1_0000_0000
  }

  datatype MouseButton = LeftButton | RightButton

  /** One synthesized input event, in the order the source sends them. */
  datatype InputEvent =
    | Key(code: Byte, up: bool)              // key down, or key up when `up`
    | MouseMove(dx: Dword, dy: Dword)        // relative move
    | Wheel(delta: int)                      // wheel step
    | MouseClick(button: MouseButton, down: bool)

  // Virtual-key codes used by the profiles.
  const VkShift: Byte := 0x10
  const VkSpace: Byte := 0x20
  const VkLeft: Byte := 0x25
  const VkUp: Byte := 0x26
  const VkRight: Byte := 0x27
  const VkDown: Byte := 0x28
  const KeyOne: Byte := 0x31     // '1'
  const KeyTwo: Byte := 0x32     // '2'
  const KeyA: Byte := 0x41
  const KeyB: Byte := 0x42
  const KeyC: Byte := 0x43
  const KeyD: Byte := 0x44
  const KeyE: Byte := 0x45
  const KeyF: Byte := 0x46
  const KeyG: Byte := 0x47
  const KeyQ: Byte := 0x51
  const KeyR: Byte := 0x52
  const KeyS: Byte := 0x53
  const KeyW: Byte := 0x57

  /** One wheel notch. */
  const WheelDelta: int := 120

  /** The per-pass results of the floating-point motion math. */
  datatype Readings = Readings(
    tiltMoveX: int, tiltMoveY: int,    // controller tilt X / 4 and tilt Y / 2, truncated
    stickMoveX: int, stickMoveY: int,  // nunchuk stick times 18, truncated
    strafeLeft: bool,                  // nunchuk tilt X strictly between -90 and -20 degrees
    strafeRight: bool,                 // nunchuk tilt X strictly between 20 and 90 degrees
    forward: bool,                     // nunchuk tilt Y strictly between 20 and 60 degrees
    backward: bool,                    // nunchuk tilt Y strictly between -60 and -20 degrees
    jump: bool,                        // nunchuk Z force below -2g
    throw: bool)                       // controller Z force below -2g

  /** The previous-pass levels of the controller's edge-triggered buttons. */
  datatype MoteSnapshot = MoteSnapshot(
    a: bool, b: bool, one: bool, two: bool,
    up: bool, down: bool, right: bool, left: bool)

  /** The previous-pass levels of the FPS profile's nunchuk controls. */
  datatype ChukSnapshot = ChukSnapshot(
    moveLeft: bool, moveRight: bool, moveForward: bool, moveBackward: bool,
    running: bool, anchor: bool, jumping: bool)

  /** The polling loop's own variables: the profile, the mouse-move values,
      the two mouse-button latches and the previous-pass snapshots. */
  datatype LoopState = LoopState(
    mode: int,
    mouseX: Dword, mouseY: Dword,
    lmbDown: bool, rmbDown: bool,
    last: MoteSnapshot,
    lastChuk: ChukSnapshot,
    lastThrow: bool)

  /** This pass's levels of the controller's edge-triggered buttons. */
  function SnapshotOf(m: Mote): MoteSnapshot
  {
    MoteSnapshot(m.button.a, m.button.b, m.button.one, m.button.two,
                 m.dpad.up, m.dpad.down, m.dpad.right, m.dpad.left)
  }

  /** This pass's levels of the nunchuk controls. */
  function ChukSnapshotOf(m: Mote, r: Readings): ChukSnapshot
  {
    ChukSnapshot(r.strafeLeft, r.strafeRight, r.forward, r.backward,
                 m.chuk.button.z, m.chuk.button.c, r.jump)
  }

  /** Mouse profile, no motion, nothing latched, every snapshot false. */
  function InitialLoopState(): LoopState
  {
    LoopState(MyMouse, 0, 0, false, false,
              MoteSnapshot(false, false, false, false, false, false, false, false),
              ChukSnapshot(false, false, false, false, false, false, false),
              false)
  }

  // ---------------------------------------------------------------------------
  // Edge detection against a previous-pass snapshot

  /** The key events for a control whose level was `last` and is now `now`:
      a key down on a rising edge, a key up on a falling edge, nothing otherwise. */
  function Edge(now: bool, last: bool, key: Byte): (evs: seq<InputEvent>)
    ensures evs == if now == last then [] else [Key(key, last)]
  {
    (if now && !last then [Key(key, false)] else []) + (if !now && last then [Key(key, true)] else [])
  }

  /** The key events for a control observed at `levels` on successive passes,
      the snapshot taking each pass's level for the next. */
  function EdgeRun(levels: seq<bool>, last: bool, key: Byte): seq<InputEvent>
  {
    if levels == [] then [] else Edge(levels[0], last, key) + EdgeRun(levels[1..], levels[0], key)
  }

  /** A control that keeps its snapshot's level produces nothing, however long. */
  lemma {:induction false} SteadyIsSilent(n: nat, level: bool, key: Byte)
    ensures EdgeRun(seq(n, _ => level), level, key) == []
  {
    if n > 0 {
      assert seq(n, _ => level)[1..] == seq(n - 1, _ => level);
      SteadyIsSilent(n - 1, level, key);
    }
  }

  /** A control held down for n >= 1 passes and then released produces exactly
      one key down and one key up. */
  lemma {:induction false} HoldThenReleaseEmitsOnePair(n: nat, key: Byte)
    requires n >= 1
    ensures EdgeRun(seq(n, _ => true) + [false], false, key) == [Key(key, false), Key(key, true)]
  {
    var s := seq(n, _ => true) + [false];
    assert s[0] == true;
    assert s[1..] == seq(n - 1, _ => true) + [false];
    ReleaseAfterHold(n - 1, key);
  }

  lemma {:induction false} ReleaseAfterHold(k: nat, key: Byte)
    ensures EdgeRun(seq(k, _ => true) + [false], true, key) == [Key(key, true)]
  {
    var s := seq(k, _ => true) + [false];
    if k == 0 {
      assert s == [false];
    } else {
      assert s[0] == true;
      assert s[1..] == seq(k - 1, _ => true) + [false];
      ReleaseAfterHold(k - 1, key);
    }
  }

  // ---------------------------------------------------------------------------
  // The mouse-button latches

  /** A latched mouse button: press it when pressed and not latched, release it
      when released and latched.  The latch afterwards equals the button. */
  function Latch(pressed: bool, latched: bool, button: MouseButton): (r: (bool, seq<InputEvent>))
    ensures r.0 == pressed
    ensures r.1 == if pressed == latched then [] else [MouseClick(button, pressed)]
  {
    if pressed && !latched then (true, [MouseClick(button, true)])
    else if !pressed && latched then (false, [MouseClick(button, false)])
    else (latched, [])
  }

  function LatchRun(levels: seq<bool>, latched: bool, button: MouseButton): seq<InputEvent>
  {
    if levels == [] then []
    else var l := Latch(levels[0], latched, button); l.1 + LatchRun(levels[1..], l.0, button)
  }

  lemma {:induction false} LatchRunSteady(n: nat, level: bool, button: MouseButton)
    ensures LatchRun(seq(n, _ => level), level, button) == []
  {
    if n > 0 {
      assert seq(n, _ => level)[1..] == seq(n - 1, _ => level);
      LatchRunSteady(n - 1, level, button);
    }
  }

  /** A mouse button held for n >= 1 passes and then released is pressed once
      and released once. */
  lemma {:induction false} LatchHoldThenRelease(n: nat, button: MouseButton)
    requires n >= 1
    ensures LatchRun(seq(n, _ => true) + [false], false, button)
         == [MouseClick(button, true), MouseClick(button, false)]
  {
    var s := seq(n, _ => true) + [false];
    assert s[0] == true;
    assert s[1..] == seq(n - 1, _ => true) + [false];
    LatchReleaseAfter(n - 1, button);
  }

  lemma {:induction false} LatchReleaseAfter(k: nat, button: MouseButton)
    ensures LatchRun(seq(k, _ => true) + [false], true, button) == [MouseClick(button, false)]
  {
    var s := seq(k, _ => true) + [false];
    if k == 0 {
      assert s == [false];
    } else {
      assert s[0] == true;
      assert s[1..] == seq(k - 1, _ => true) + [false];
      LatchReleaseAfter(k - 1, button);
    }
  }

  // ---------------------------------------------------------------------------
  // The three profiles

  datatype Step = Step(state: LoopState, events: seq<InputEvent>)

  /** The wheel event: dpad down scrolls down, otherwise dpad up scrolls up. */
  function WheelEvents(d: Dpad): seq<InputEvent>
  {
    if d.down then [Wheel(-WheelDelta)] else if d.up then [Wheel(WheelDelta)] else []
  }

  /** Mouse profile: move by tilt, wheel by dpad, A and B as the left and right
      buttons through the latches.  The previous-pass snapshots are not touched. */
  function MouseStep(s: LoopState, m: Mote, r: Readings): (st: Step)
    ensures st.state == s.(mouseX := AsDword(r.tiltMoveX), mouseY := AsDword(r.tiltMoveY),
                           lmbDown := m.button.a, rmbDown := m.button.b)
    ensures |st.events| >= 1 && st.events[0] == MouseMove(AsDword(r.tiltMoveX), AsDword(r.tiltMoveY))
  {
    var mx := AsDword(r.tiltMoveX);
    var my := AsDword(r.tiltMoveY);
    var left := Latch(m.button.a, s.lmbDown, LeftButton);
    var right := Latch(m.button.b, s.rmbDown, RightButton);
    Step(s.(mouseX := mx, mouseY := my, lmbDown := left.0, rmbDown := right.0),
         [MouseMove(mx, my)] + WheelEvents(m.dpad) + left.1 + right.1)
  }

  /** Emulator profile (controller held sideways): A, B, 1, 2 as keys, the dpad
      rotated onto the arrow keys; then the snapshot takes this pass's levels. */
  function EmuStep(s: LoopState, m: Mote): (st: Step)
    ensures st.state == s.(last := SnapshotOf(m))
  {
    var l := s.last;
    Step(s.(last := SnapshotOf(m)),
         Edge(m.button.a, l.a, KeyA) + Edge(m.button.b, l.b, KeyB)
         + Edge(m.button.one, l.one, KeyOne) + Edge(m.button.two, l.two, KeyTwo)
         + Edge(m.dpad.down, l.down, VkRight) + Edge(m.dpad.up, l.up, VkLeft)
         + Edge(m.dpad.left, l.left, VkDown) + Edge(m.dpad.right, l.right, VkUp))
  }

  /** The FPS dead zone, applied to the 32-bit unsigned move value. */
  function DeadZone(v: Dword): (r: Dword)
    ensures r == v || r == 0
    ensures r == 0 <==> v <= 1
  {
    if v < 2 then 0 else v
  }

  /** The nunchuk part of the FPS profile: tilt strafes with WASD, Z runs, C
      crouches, a downward jolt jumps. */
  function FpsChukEvents(c: ChukSnapshot, m: Mote, r: Readings): seq<InputEvent>
  {
    Edge(r.strafeLeft, c.moveLeft, KeyA) + Edge(r.strafeRight, c.moveRight, KeyD)
    + Edge(r.forward, c.moveForward, KeyW) + Edge(r.backward, c.moveBackward, KeyS)
    + Edge(m.chuk.button.z, c.running, VkShift) + Edge(m.chuk.button.c, c.anchor, KeyC)
    + Edge(r.jump, c.jumping, VkSpace)
  }

  /** The controller part of the FPS profile; both dpad left and dpad right press Q. */
  function FpsMoteEvents(l: MoteSnapshot, lastThrow: bool, m: Mote, r: Readings): seq<InputEvent>
  {
    Edge(m.button.one, l.one, KeyR) + Edge(m.button.two, l.two, KeyF)
    + Edge(m.dpad.down, l.down, KeyG) + Edge(m.dpad.up, l.up, KeyE)
    + Edge(m.dpad.left, l.left, KeyQ) + Edge(m.dpad.right, l.right, KeyQ)
    + Edge(r.throw, lastThrow, KeyG)
  }

  /** The FPS mouse move: the dead-zoned nunchuk stick, or the previous move
      repeated when no nunchuk is connected. */
  function FpsMove(s: LoopState, m: Mote, r: Readings): (Dword, Dword)
  {
    if m.chuk.connected then (DeadZone(AsDword(r.stickMoveX)), DeadZone(AsDword(r.stickMoveY)))
    else (s.mouseX, s.mouseY)
  }

  /** FPS profile: the move, A on the right button and B on the left one
      through the same latches as the Mouse profile, then the nunchuk keys
      (only with a nunchuk) and the controller keys; then the snapshots. */
  function FpsStep(s: LoopState, m: Mote, r: Readings): (st: Step)
    ensures st.state.mode == s.mode && st.state.last == SnapshotOf(m) && st.state.lastThrow == r.throw
    ensures st.state.lmbDown == m.button.b && st.state.rmbDown == m.button.a
    ensures m.chuk.connected ==> st.state.lastChuk == ChukSnapshotOf(m, r)
    ensures !m.chuk.connected ==> st.state.lastChuk == s.lastChuk
                                  && (st.state.mouseX, st.state.mouseY) == (s.mouseX, s.mouseY)
    ensures |st.events| >= 1 && st.events[0] == MouseMove(st.state.mouseX, st.state.mouseY)
  {
    var mv := FpsMove(s, m, r);
    var right := Latch(m.button.a, s.rmbDown, RightButton);
    var left := Latch(m.button.b, s.lmbDown, LeftButton);
    Step(LoopState(s.mode, mv.0, mv.1, left.0, right.0, SnapshotOf(m),
                   if m.chuk.connected then ChukSnapshotOf(m, r) else s.lastChuk,
                   r.throw),
         [MouseMove(mv.0, mv.1)] + right.1 + left.1
         + (if m.chuk.connected then FpsChukEvents(s.lastChuk, m, r) else [])
         + FpsMoteEvents(s.last, s.lastThrow, m, r))
  }

  /** The active profile's pass; an index outside the profiles does nothing. */
  function ProfileStep(s: LoopState, m: Mote, r: Readings): (st: Step)
    ensures st.state.mode == s.mode
    ensures !(s.mode == MyMouse || s.mode == MyEmu || s.mode == MyFps) ==> st == Step(s, [])
  {
    if s.mode == MyMouse then MouseStep(s, m, r)
    else if s.mode == MyEmu then EmuStep(s, m)
    else if s.mode == MyFps then FpsStep(s, m, r)
    else Step(s, [])
  }

  // ---------------------------------------------------------------------------
  // One control across passes: the per-pass events of a profile, filtered

  /** The events of `key` among `evs`, in order. */
  function KeyEvents(evs: seq<InputEvent>, key: Byte): seq<InputEvent>
  {
    if evs == [] then []
    else (if evs[0].Key? && evs[0].code == key then [evs[0]] else []) + KeyEvents(evs[1..], key)
  }

  /** The clicks of `button` among `evs`, in order. */
  function Clicks(evs: seq<InputEvent>, button: MouseButton): seq<InputEvent>
  {
    if evs == [] then []
    else (if evs[0].MouseClick? && evs[0].button == button then [evs[0]] else []) + Clicks(evs[1..], button)
  }

  lemma {:induction false} KeyEventsAppend(a: seq<InputEvent>, b: seq<InputEvent>, key: Byte)
    ensures KeyEvents(a + b, key) == KeyEvents(a, key) + KeyEvents(b, key)
  {
    if a != [] {
      assert (a + b)[0] == a[0] && (a + b)[1..] == a[1..] + b;
      KeyEventsAppend(a[1..], b, key);
    } else {
      assert a + b == b;
    }
  }

  lemma {:induction false} ClicksAppend(a: seq<InputEvent>, b: seq<InputEvent>, button: MouseButton)
    ensures Clicks(a + b, button) == Clicks(a, button) + Clicks(b, button)
  {
    if a != [] {
      assert (a + b)[0] == a[0] && (a + b)[1..] == a[1..] + b;
      ClicksAppend(a[1..], b, button);
    } else {
      assert a + b == b;
    }
  }

  /** The key events of one edge test, seen through the filter for `key`. */
  lemma KeyEventsOfEdge(now: bool, last: bool, k: Byte, key: Byte)
    ensures KeyEvents(Edge(now, last, k), key) == if k == key then Edge(now, last, k) else []
  {
    var e := Edge(now, last, k);
    if e != [] {
      assert e[1..] == [];
    }
  }

  /** The level a control was last seen at: the last of `levels`, or `init`. */
  function Last(levels: seq<bool>, init: bool): bool
  {
    if levels == [] then init else levels[|levels| - 1]
  }

  lemma AppendAssoc(a: seq<InputEvent>, b: seq<InputEvent>, c: seq<InputEvent>)
    ensures a + (b + c) == a + b + c
  {
  }

  /** The inductive step of `EdgeRunSnoc`, on a non-empty run. */
  lemma EdgeRunSnocStep(levels: seq<bool>, x: bool, last: bool, key: Byte)
    requires levels != []
    requires EdgeRun(levels[1..] + [x], levels[0], key)
          == EdgeRun(levels[1..], levels[0], key) + Edge(x, Last(levels[1..], levels[0]), key)
    ensures EdgeRun(levels + [x], last, key) == EdgeRun(levels, last, key) + Edge(x, Last(levels, last), key)
  {
    assert (levels + [x])[0] == levels[0] && (levels + [x])[1..] == levels[1..] + [x];
    AppendAssoc(Edge(levels[0], last, key), EdgeRun(levels[1..], levels[0], key), Edge(x, Last(levels, last), key));
  }

  /** A run extended by one more pass adds that pass's edge against the level
      the run ended at. */
  lemma {:induction false} EdgeRunSnoc(levels: seq<bool>, x: bool, last: bool, key: Byte)
    ensures EdgeRun(levels + [x], last, key) == EdgeRun(levels, last, key) + Edge(x, Last(levels, last), key)
  {
    if levels == [] {
      assert [] + [x] == [x] && [x][1..] == [];
    } else {
      EdgeRunSnoc(levels[1..], x, levels[0], key);
      EdgeRunSnocStep(levels, x, last, key);
    }
  }

  /** One pass of a latch run: the latch after it is that pass's level. */
  lemma LatchRunCons(levels: seq<bool>, latched: bool, button: MouseButton)
    requires levels != []
    ensures LatchRun(levels, latched, button)
         == Latch(levels[0], latched, button).1 + LatchRun(levels[1..], levels[0], button)
  {
  }

  /** The inductive step of `LatchRunSnoc`, on a non-empty run. */
  lemma LatchRunSnocStep(levels: seq<bool>, x: bool, latched: bool, button: MouseButton)
    requires levels != []
    requires LatchRun(levels[1..] + [x], levels[0], button)
          == LatchRun(levels[1..], levels[0], button) + Latch(x, Last(levels[1..], levels[0]), button).1
    ensures LatchRun(levels + [x], latched, button)
         == LatchRun(levels, latched, button) + Latch(x, Last(levels, latched), button).1
  {
    assert (levels + [x])[0] == levels[0] && (levels + [x])[1..] == levels[1..] + [x];
    LatchRunCons(levels + [x], latched, button);
    LatchRunCons(levels, latched, button);
    AppendAssoc(Latch(levels[0], latched, button).1, LatchRun(levels[1..], levels[0], button),
                Latch(x, Last(levels, latched), button).1);
  }

  /** The same for a latched mouse button: the latch is the last level. */
  lemma {:induction false} LatchRunSnoc(levels: seq<bool>, x: bool, latched: bool, button: MouseButton)
    ensures LatchRun(levels + [x], latched, button)
         == LatchRun(levels, latched, button) + Latch(x, Last(levels, latched), button).1
  {
    if levels == [] {
      assert [] + [x] == [x] && [x][1..] == [];
      LatchRunCons([x], latched, button);
    } else {
      LatchRunSnoc(levels[1..], x, levels[0], button);
      LatchRunSnocStep(levels, x, latched, button);
    }
  }

  /** Pieces that hold no events of `key` add none to a concatenation. */
  lemma KeyEventsOfPieces(e1: seq<InputEvent>, e2: seq<InputEvent>, e3: seq<InputEvent>, e4: seq<InputEvent>,
                          e5: seq<InputEvent>, e6: seq<InputEvent>, e7: seq<InputEvent>, e8: seq<InputEvent>, key: Byte)
    requires KeyEvents(e2, key) == [] && KeyEvents(e3, key) == [] && KeyEvents(e4, key) == []
    requires KeyEvents(e5, key) == [] && KeyEvents(e6, key) == [] && KeyEvents(e7, key) == []
    requires KeyEvents(e8, key) == []
    ensures KeyEvents(e1 + e2 + e3 + e4 + e5 + e6 + e7 + e8, key) == KeyEvents(e1, key)
  {
    KeyEventsAppend(e1 + e2 + e3 + e4 + e5 + e6 + e7, e8, key);
    KeyEventsAppend(e1 + e2 + e3 + e4 + e5 + e6, e7, key);
    KeyEventsAppend(e1 + e2 + e3 + e4 + e5, e6, key);
    KeyEventsAppend(e1 + e2 + e3 + e4, e5, key);
    KeyEventsAppend(e1 + e2 + e3, e4, key);
    KeyEventsAppend(e1 + e2, e3, key);
    KeyEventsAppend(e1, e2, key);
  }

  /** In the Emulator profile the 'A' key events of a pass are exactly the edge
      of the A button against its snapshot: no other control sends 'A'. */
  lemma EmuStepKeyA(s: LoopState, m: Mote)
    ensures KeyEvents(EmuStep(s, m).events, KeyA) == Edge(m.button.a, s.last.a, KeyA)
    ensures EmuStep(s, m).state.last.a == m.button.a
  {
    var l := s.last;
    KeyEventsOfEdge(m.button.a, l.a, KeyA, KeyA);
    EmuOtherEdgesSendNoA(l, m);
    KeyEventsOfPieces(Edge(m.button.a, l.a, KeyA), Edge(m.button.b, l.b, KeyB),
                      Edge(m.button.one, l.one, KeyOne), Edge(m.button.two, l.two, KeyTwo),
                      Edge(m.dpad.down, l.down, VkRight), Edge(m.dpad.up, l.up, VkLeft),
                      Edge(m.dpad.left, l.left, VkDown), Edge(m.dpad.right, l.right, VkUp), KeyA);
  }

  /** B, 1, 2 and the arrow keys are all other keys than 'A'. */
  lemma EmuOtherEdgesSendNoA(l: MoteSnapshot, m: Mote)
    ensures KeyEvents(Edge(m.button.b, l.b, KeyB), KeyA) == []
    ensures KeyEvents(Edge(m.button.one, l.one, KeyOne), KeyA) == []
    ensures KeyEvents(Edge(m.button.two, l.two, KeyTwo), KeyA) == []
    ensures KeyEvents(Edge(m.dpad.down, l.down, VkRight), KeyA) == []
    ensures KeyEvents(Edge(m.dpad.up, l.up, VkLeft), KeyA) == []
    ensures KeyEvents(Edge(m.dpad.left, l.left, VkDown), KeyA) == []
    ensures KeyEvents(Edge(m.dpad.right, l.right, VkUp), KeyA) == []
  {
    KeyEventsOfEdge(m.button.b, l.b, KeyB, KeyA);
    KeyEventsOfEdge(m.button.one, l.one, KeyOne, KeyA);
    KeyEventsOfEdge(m.button.two, l.two, KeyTwo, KeyA);
    KeyEventsOfEdge(m.dpad.down, l.down, VkRight, KeyA);
    KeyEventsOfEdge(m.dpad.up, l.up, VkLeft, KeyA);
    KeyEventsOfEdge(m.dpad.left, l.left, VkDown, KeyA);
    KeyEventsOfEdge(m.dpad.right, l.right, VkUp, KeyA);
  }

  /** The clicks of one latch, seen through the filter for `button`. */
  lemma ClicksOfLatch(pressed: bool, latched: bool, b: MouseButton, button: MouseButton)
    ensures Clicks(Latch(pressed, latched, b).1, button) == if b == button then Latch(pressed, latched, b).1 else []
  {
    var e := Latch(pressed, latched, b).1;
    if e != [] {
      assert e[1..] == [];
    }
  }

  /** Neither the move nor the wheel clicks a button. */
  lemma ClicksOfMoveAndWheel(mx: Dword, my: Dword, d: Dpad, button: MouseButton)
    ensures Clicks([MouseMove(mx, my)] + WheelEvents(d), button) == []
  {
    var mv: seq<InputEvent> := [MouseMove(mx, my)];
    var w := WheelEvents(d);
    ClicksAppend(mv, w, button);
    assert mv[1..] == [];
    if w != [] {
      assert w[1..] == [];
    }
  }

  /** In the Mouse profile the left-button clicks of a pass are exactly the
      latch of the A button: no other control clicks the left button. */
  lemma MouseStepLeftClicks(s: LoopState, m: Mote, r: Readings)
    ensures Clicks(MouseStep(s, m, r).events, LeftButton) == Latch(m.button.a, s.lmbDown, LeftButton).1
    ensures MouseStep(s, m, r).state.lmbDown == m.button.a
  {
    var mx := AsDword(r.tiltMoveX);
    var my := AsDword(r.tiltMoveY);
    var e1 := [MouseMove(mx, my)] + WheelEvents(m.dpad);
    var left := Latch(m.button.a, s.lmbDown, LeftButton).1;
    var right := Latch(m.button.b, s.rmbDown, RightButton).1;
    assert MouseStep(s, m, r).events == e1 + left + right;
    ClicksAppend(e1 + left, right, LeftButton);
    ClicksAppend(e1, left, LeftButton);
    ClicksOfMoveAndWheel(mx, my, m.dpad, LeftButton);
    ClicksOfLatch(m.button.a, s.lmbDown, LeftButton, LeftButton);
    ClicksOfLatch(m.button.b, s.rmbDown, RightButton, LeftButton);
  }

  // ---------------------------------------------------------------------------
  // Profile rotation and its LED

  /** Minus steps back (0 wraps to the last profile), then Plus steps forward
      (the last wraps to 0).  On a valid profile this is counting modulo the
      number of profiles, and the result is a valid profile. */
  function Rotate(mode: int, minus: bool, plus: bool): (r: int)
    ensures 0 <= mode <= MyMax ==> 0 <= r <= MyMax
    ensures 0 <= mode <= MyMax ==>
              r == (mode - (if minus then 1 else 0) + (if plus then 1 else 0)) % (MyMax + 1)
    ensures !minus && !plus ==> r == mode
  {
    var m1 := if minus then (if mode > 0 then mode - 1 else MyMax) else mode;
    if plus then (if m1 == MyMax then 0 else m1 + 1) else m1
  }

  /** Rotation from either end wraps to the other. */
  lemma RotateWraps()
    ensures Rotate(MyMouse, true, false) == MyFps
    ensures Rotate(MyFps, false, true) == MyMouse
    ensures Rotate(MyEmu, true, false) == MyMouse && Rotate(MyEmu, false, true) == MyFps
  {
  }

  /** The LED that shows a profile: a single bit clear of the rumble bit, taken
      from the profile/LED table below. */
  function LedFor(mode: int): (led: Byte)
    ensures 0 <= mode <= MyMax ==> SingleBit(led as Word) && led & OutRumble == 0
    // the profile/LED table
    ensures 0 <= mode <= MyMax ==> led == [LedOne, LedTwo, LedThree][mode]
  {
    if mode == MyMouse then LedOne
    else if mode == MyEmu then LedTwo
    else if mode == MyFps then LedThree
    else LedNone
  }

  /** The frames a pass sends for rotation: one LED frame for the resulting
      profile when Minus or Plus is down, none otherwise. */
  function RotationFrames(mode: int, minus: bool, plus: bool, rumbling: bool): (fs: seq<Packet>)
    ensures |fs| == if minus || plus then 1 else 0
    ensures minus || plus ==> fs[0][0] == OutLedFf
    ensures minus || plus ==> 0 <= mode <= MyMax ==>
              fs[0][1] & 0xF0 == [LedOne, LedTwo, LedThree][Rotate(mode, minus, plus)]
  {
    if minus || plus then [LedFrame(LedFor(Rotate(mode, minus, plus)), rumbling)] else []
  }

  // ---------------------------------------------------------------------------
  // Properties of the profiles

  /** The Mouse profile moves, scrolls and drives the latches; its latches end
      equal to A and B, and it leaves every previous-pass snapshot alone. */
  lemma MouseStepEffect(s: LoopState, m: Mote, r: Readings)
    ensures var st := MouseStep(s, m, r);
            && st.state == s.(mouseX := AsDword(r.tiltMoveX), mouseY := AsDword(r.tiltMoveY),
                              lmbDown := m.button.a, rmbDown := m.button.b)
            && st.events == [MouseMove(AsDword(r.tiltMoveX), AsDword(r.tiltMoveY))] + WheelEvents(m.dpad)
                            + (if m.button.a == s.lmbDown then [] else [MouseClick(LeftButton, m.button.a)])
                            + (if m.button.b == s.rmbDown then [] else [MouseClick(RightButton, m.button.b)])
  {
  }

  /** After an Emulator pass the snapshot holds this pass's levels, and a pass
      in which no control changed sends nothing. */
  lemma EmuStepEffect(s: LoopState, m: Mote)
    ensures EmuStep(s, m).state == s.(last := SnapshotOf(m))
    ensures s.last == SnapshotOf(m) ==> EmuStep(s, m).events == []
  {
  }

  /** The FPS profile drives the same latches with the roles of A and B
      swapped and snapshots the controller's buttons and the throw test.  With
      a nunchuk the stick move is dead-zoned to 0 or at least 2 (as an unsigned
      value) and the nunchuk snapshot is taken; without one the previous move
      repeats and that snapshot stays. */
  lemma FpsStepState(s: LoopState, m: Mote, r: Readings)
    ensures var st := FpsStep(s, m, r).state;
            && st.rmbDown == m.button.a && st.lmbDown == m.button.b
            && st.last == SnapshotOf(m) && st.lastThrow == r.throw && st.mode == s.mode
            && (m.chuk.connected ==> (st.mouseX == 0 || st.mouseX >= 2) && (st.mouseY == 0 || st.mouseY >= 2))
            && (m.chuk.connected ==> st.lastChuk == ChukSnapshotOf(m, r))
            && (!m.chuk.connected ==> st.mouseX == s.mouseX && st.mouseY == s.mouseY && st.lastChuk == s.lastChuk)
  {
  }

  /** Every FPS pass starts by sending the move it stores. */
  lemma FpsStepMovesFirst(s: LoopState, m: Mote, r: Readings)
    ensures FpsStep(s, m, r).events[0] == MouseMove(FpsStep(s, m, r).state.mouseX, FpsStep(s, m, r).state.mouseY)
  {
  }

  /** The latches are shared: a left button latched in the Mouse profile by A
      is released in the FPS profile when B is up, although A may still be held. */
  lemma SharedLatchAcrossProfiles(s: LoopState, m: Mote, r: Readings)
    requires s.mode == MyFps && s.lmbDown && !m.button.b
    ensures MouseClick(LeftButton, false) in ProfileStep(s, m, r).events
    ensures !ProfileStep(s, m, r).state.lmbDown
  {
    var right := Latch(m.button.a, s.rmbDown, RightButton).1;
    var evs := FpsStep(s, m, r).events;
    assert evs[1 + |right|] == MouseClick(LeftButton, false);
  }

  /** The dead zone compares the unsigned value, so a stick move of -1 escapes it
      while a move of +1 is snapped to zero. */
  lemma DeadZoneIsOneSided()
    ensures DeadZone(AsDword(1)) == 0
    ensures DeadZone(AsDword(-1)) == 0xFFFF_FFFF
  {
  }

  /** A 0x31 report with button bytes (0x00, 0x08) presses A; in the Mouse
      profile with no left button latched this sends exactly one left-button
      press and latches it. */
  lemma AButtonPressesLeftMouse(m: Mote, r: Readings, buf: Packet)
    requires buf[0] == ModeAcc && buf[1] == 0x00 && buf[2] == 0x08
    ensures var m' := ApplyReport(m, true, buf);
            var st := MouseStep(InitialLoopState(), m', r);
            && m'.button.a
            && multiset(st.events)[MouseClick(LeftButton, true)] == 1
            && st.state.lmbDown
  {
    var m' := ApplyReport(m, true, buf);
    assert ButtonWord(0x00, 0x08) == 0x0008;
    assert m'.button.a && !m'.button.b;
    var st := MouseStep(InitialLoopState(), m', r);
    assert st.events == [MouseMove(AsDword(r.tiltMoveX), AsDword(r.tiltMoveY))] + WheelEvents(m'.dpad)
                        + [MouseClick(LeftButton, true)];
  }
}
