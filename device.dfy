/** The driver object: the controller record, the read and write buffers, the
    transport and the polling loop.

    The transport is a script of readings, consumed one per read (`pending`),
    a log of every frame written (`sent`) and a fixed answer to every write
    (`writable`).  Synthesized keyboard and mouse input is appended to
    `events`.  The start-up exchange is defined by the pure function
    `Handshake`; `Initialize` is proved to perform it. */
module Device {
  import opened Protocol
  import opened Records
  import opened Codec
  import opened Transport
  import opened Mapper

  // ---------------------------------------------------------------------------
  // The start-up handshake, as a function of the reply script

  /** What the handshake did: its verdict, the record it leaves, the frames it
      wrote in order, how many reads it made and the last buffer it read. */
  datatype HandshakeResult = HandshakeResult(ok: bool, mote: Mote, writes: seq<Packet>, readCount: nat, last: Packet)

  /** The requests that follow a confirmed mode change: the status request and
      the controller calibration request. */
  function RequestWrites(): seq<Packet>
  {
    [StatusRequestFrame(), MoteCalibrationRequestFrame()]
  }

  /** The frames written before the nunchuk is considered: report mode 0x30 and
      the two requests. */
  function BaseWrites(): seq<Packet>
  {
    [ModeFrame(ModeDefault, ModeNonCont)] + RequestWrites()
  }

  /** The frames written for a connected extension: the enable write and its
      calibration request. */
  function ExtensionWrites(): seq<Packet>
  {
    [ChukEnableFrame(), ChukCalibrationRequestFrame()]
  }

  /** The exchanges after the controller confirmed the mode, over the script
      that follows the confirmation: status, controller calibration and, with
      an extension, the enable ack and the nunchuk calibration. */
  function Configuration(m: Mote, q: seq<Reading>): (c: HandshakeResult)
    ensures c.readCount == |c.writes| && c.readCount >= 2 && c.last == Contents(ReadAt(q, c.readCount - 1))
  {
    var m1 := StatusUpdate(m, Contents(ReadAt(q, 0)));
    var m2 := MoteCalibrationUpdate(m1, Contents(ReadAt(q, 1)));
    if m2.chuk.connected then
      HandshakeResult(true, ChukCalibrationUpdate(m2, Contents(ReadAt(q, 3))),
                      RequestWrites() + ExtensionWrites(), 4, Contents(ReadAt(q, 3)))
    else
      HandshakeResult(true, m2, RequestWrites(), 2, Contents(ReadAt(q, 1)))
  }

  /** Each write is followed by one read: the mode change is confirmed by a
      button report, then the configuration runs on the rest of the script. */
  function Handshake(m: Mote, q: seq<Reading>): (h: HandshakeResult)
    ensures h.ok <==> Contents(ReadAt(q, 0))[0] == ModeDefault
    ensures h.readCount == |h.writes| && h.readCount >= 1 && h.last == Contents(ReadAt(q, h.readCount - 1))
    ensures h.writes[0] == ModeFrame(ModeDefault, ModeNonCont)
    ensures !h.ok ==> h.writes == [ModeFrame(ModeDefault, ModeNonCont)] && h.mote == m
  {
    var confirm := Contents(ReadAt(q, 0));
    if confirm[0] != ModeDefault then
      HandshakeResult(false, m, [ModeFrame(ModeDefault, ModeNonCont)], 1, confirm)
    else
      var c := Configuration(m, DropN(q, 1));
      ReadStep(q, 1, c.readCount - 1);
      HandshakeResult(true, c.mote, [ModeFrame(ModeDefault, ModeNonCont)] + c.writes, 1 + c.readCount, c.last)
  }

  /** After a confirmed mode change the status and controller calibration are
      always requested; the two extension exchanges happen exactly when the
      status reply reported an extension. */
  lemma HandshakeExtensionExchanges(m: Mote, q: seq<Reading>)
    requires Contents(ReadAt(q, 0))[0] == ModeDefault
    ensures var h := Handshake(m, q);
            var ext := StatusUpdate(m, Contents(ReadAt(q, 1))).chuk.connected;
            && h.writes[..3] == BaseWrites()
            && (ext ==> h.writes == BaseWrites() + ExtensionWrites())
            && (!ext ==> h.writes == BaseWrites())
            && h.mote.chuk.connected == ext
  {
    ReadStep(q, 1, 0);
    assert [ModeFrame(ModeDefault, ModeNonCont)] + RequestWrites() == BaseWrites();
    assert [ModeFrame(ModeDefault, ModeNonCont)] + (RequestWrites() + ExtensionWrites()) == BaseWrites() + ExtensionWrites();
    assert (BaseWrites() + ExtensionWrites())[..3] == BaseWrites();
  }

  /** The handshake touches only presence, battery and calibration: the live
      input (buttons, dpad, raw axes, derived motion), the connection and
      rumble flags are as before. */
  lemma HandshakeKeepsLiveState(m: Mote, q: seq<Reading>)
    ensures var r := Handshake(m, q).mote;
            && r.connected == m.connected && r.rumbling == m.rumbling
            && r.button == m.button && r.dpad == m.dpad && r.axis == m.axis && r.motion == m.motion
            && r.chuk.button == m.chuk.button && r.chuk.stickAxis == m.chuk.stickAxis
            && r.chuk.axis == m.chuk.axis && r.chuk.motion == m.chuk.motion && r.chuk.stick == m.chuk.stick
  {
    if Contents(ReadAt(q, 0))[0] == ModeDefault {
      var q1 := DropN(q, 1);
      var m1 := StatusUpdate(m, Contents(ReadAt(q1, 0)));
      StatusUpdateEffect(m, Contents(ReadAt(q1, 0)));
      var m2 := MoteCalibrationUpdate(m1, Contents(ReadAt(q1, 1)));
      MoteCalibrationUpdateEffect(m1, Contents(ReadAt(q1, 1)));
      ChukCalibrationUpdateEffect(m2, Contents(ReadAt(q1, 3)));
    }
  }

  /** A controller that confirms the mode and answers every request as the
      protocol prescribes ends up with the reported presence and battery and
      with both calibration blocks stored. */
  lemma {:induction false} HandshakeWithExtension(m: Mote, d: Dpad, b: MoteButtons, rawBattery: Byte, ack: Packet,
                                                  zero: Byte3, scale: Byte3,
                                                  chukZero: Byte3, chukScale: Byte3, max: Byte2, min: Byte2, center: Byte2)
    ensures var q := [Received(ButtonReport(d, b)), Received(StatusReply(true, rawBattery)),
                      Received(MoteCalibrationReply(zero, scale)), Received(ack),
                      Received(ChukCalibrationReply(chukZero, chukScale, max, min, center))];
            var h := Handshake(m, q);
            && h.ok && h.readCount == 5
            && h.writes == BaseWrites() + ExtensionWrites()
            && h.mote.chuk.connected && h.mote.battery == rawBattery as int / 2
            && h.mote.zero == zero && h.mote.scale == scale
            && h.mote.chuk.zero == chukZero && h.mote.chuk.scale == chukScale
            && h.mote.chuk.stickMax == max && h.mote.chuk.stickMin == min && h.mote.chuk.stickCenter == center
  {
    var q := [Received(ButtonReport(d, b)), Received(StatusReply(true, rawBattery)),
              Received(MoteCalibrationReply(zero, scale)), Received(ack),
              Received(ChukCalibrationReply(chukZero, chukScale, max, min, center))];
    assert ButtonReport(d, b)[0] == ModeDefault;
    var q1 := DropN(q, 1);
    assert Contents(ReadAt(q1, 0)) == StatusReply(true, rawBattery);
    assert Contents(ReadAt(q1, 1)) == MoteCalibrationReply(zero, scale);
    assert Contents(ReadAt(q1, 3)) == ChukCalibrationReply(chukZero, chukScale, max, min, center);
    var m1 := StatusUpdate(m, StatusReply(true, rawBattery));
    StatusRoundTrip(m, true, rawBattery);
    MoteCalibrationRoundTrip(m1, zero, scale);
    var m2 := m1.(zero := zero, scale := scale);
    ChukCalibrationRoundTrip(m2, chukZero, chukScale, max, min, center);
    assert [ModeFrame(ModeDefault, ModeNonCont)] + (RequestWrites() + ExtensionWrites()) == BaseWrites() + ExtensionWrites();
  }

  /** Without an extension the handshake stops after the controller calibration. */
  lemma {:induction false} HandshakeWithoutExtension(m: Mote, d: Dpad, b: MoteButtons, rawBattery: Byte,
                                                     zero: Byte3, scale: Byte3, rest: seq<Reading>)
    ensures var q := [Received(ButtonReport(d, b)), Received(StatusReply(false, rawBattery)),
                      Received(MoteCalibrationReply(zero, scale))] + rest;
            var h := Handshake(m, q);
            && h.ok && h.readCount == 3 && h.writes == BaseWrites()
            && !h.mote.chuk.connected && h.mote.battery == rawBattery as int / 2
            && h.mote.zero == zero && h.mote.scale == scale
            && h.mote.chuk == m.chuk.(connected := false)
  {
    var q := [Received(ButtonReport(d, b)), Received(StatusReply(false, rawBattery)),
              Received(MoteCalibrationReply(zero, scale))] + rest;
    assert ButtonReport(d, b)[0] == ModeDefault;
    var q1 := DropN(q, 1);
    assert Contents(ReadAt(q1, 0)) == StatusReply(false, rawBattery);
    assert Contents(ReadAt(q1, 1)) == MoteCalibrationReply(zero, scale);
    var m1 := StatusUpdate(m, StatusReply(false, rawBattery));
    StatusRoundTrip(m, false, rawBattery);
    MoteCalibrationRoundTrip(m1, zero, scale);
    assert [ModeFrame(ModeDefault, ModeNonCont)] + RequestWrites() == BaseWrites();
  }

  /** A controller that never answers fails the handshake after the first read. */
  lemma SilentControllerFails(m: Mote)
    ensures Handshake(m, []) == HandshakeResult(false, m, [ModeFrame(ModeDefault, ModeNonCont)], 1, Zeros())
  {
  }

  // ---------------------------------------------------------------------------
  // The polling loop, as a function of its inputs

  /** What the polling loop acts on: its own variables, the controller record,
      the input log, the frame log, the readings still to come, the number of
      passes run and whether Home has ended the loop. */
  datatype Progress = Progress(state: LoopState, mote: Mote, events: seq<InputEvent>, frames: seq<Packet>,
                               pending: seq<Reading>, ran: nat, stopped: bool)

  /** One pass: parse the next report, run the active profile, rotate on Minus
      and Plus (sending one LED frame if either is down), stop on Home. */
  function Pass(p: Progress, r: Readings): (q: Progress)
    ensures q.ran == p.ran + 1 && q.pending == DropN(p.pending, 1)
    ensures q.stopped <==> p.stopped || q.mote.button.home
  {
    var rd := ReadAt(p.pending, 0);
    var m := ApplyReport(p.mote, rd.Received?, Contents(rd));
    var st := ProfileStep(p.state, m, r);
    Progress(st.state.(mode := Rotate(p.state.mode, m.button.minus, m.button.plus)), m,
             p.events + st.events,
             p.frames + RotationFrames(p.state.mode, m.button.minus, m.button.plus, m.rumbling),
             DropN(p.pending, 1), p.ran + 1, p.stopped || m.button.home)
  }

  /** The loop over a horizon of per-pass readings `ticks`: pass k takes
      `ticks[k]`; no pass runs once the loop has stopped. */
  function Passes(p0: Progress, ticks: seq<Readings>): (p: Progress)
    ensures p0.ran <= p.ran <= p0.ran + |ticks|
    decreases |ticks|
  {
    if |ticks| == 0 then p0
    else
      var p := Passes(p0, ticks[..|ticks| - 1]);
      if p.stopped then p else Pass(p, ticks[|ticks| - 1])
  }

  /** A loop that has not stopped runs its next pass on the next readings. */
  lemma PassesStep(p0: Progress, ticks: seq<Readings>, i: nat)
    requires i < |ticks| && !Passes(p0, ticks[..i]).stopped
    ensures Passes(p0, ticks[..i + 1]) == Pass(Passes(p0, ticks[..i]), ticks[i])
  {
    assert ticks[..i + 1][..i] == ticks[..i];
  }

  /** The loop either ran one pass per entry of the horizon or stopped, and it
      stops only on a pass that saw Home; each pass consumed one reading; when
      it starts stopped it runs no pass at all. */
  lemma {:induction false} PassesCount(p0: Progress, ticks: seq<Readings>)
    ensures var p := Passes(p0, ticks);
            && (p.stopped || p.ran == p0.ran + |ticks|)
            && p.pending == DropN(p0.pending, p.ran - p0.ran)
            && (p0.stopped ==> p == p0)
            && (p.stopped && !p0.stopped ==> p.mote.button.home && p.ran > p0.ran)
  {
    if |ticks| > 0 {
      var p := Passes(p0, ticks[..|ticks| - 1]);
      PassesCount(p0, ticks[..|ticks| - 1]);
      if !p.stopped {
        var q := Pass(p, ticks[|ticks| - 1]);
        ReadStep(p0.pending, p.ran - p0.ran, 1);
        assert q.pending == DropN(p0.pending, q.ran - p0.ran);
      }
    }
  }

  /** Once stopped, more readings change nothing. */
  lemma {:induction false} StoppedIsFinal(p0: Progress, ticks: seq<Readings>, more: seq<Readings>)
    requires Passes(p0, ticks).stopped
    ensures Passes(p0, ticks + more) == Passes(p0, ticks)
    decreases |more|
  {
    if |more| > 0 {
      var init := more[..|more| - 1];
      assert (ticks + more)[..|ticks + more| - 1] == ticks + init;
      StoppedIsFinal(p0, ticks, init);
    } else {
      assert ticks + more == ticks;
    }
  }

  /** The profile index stays a valid profile through every pass. */
  lemma {:induction false} PassesKeepProfile(p0: Progress, ticks: seq<Readings>)
    requires 0 <= p0.state.mode <= MyMax
    ensures 0 <= Passes(p0, ticks).state.mode <= MyMax
  {
    if |ticks| > 0 {
      PassesKeepProfile(p0, ticks[..|ticks| - 1]);
    }
  }

  /** The logs only grow: each pass appends to the input and frame logs. */
  lemma {:induction false} PassesExtendLogs(p0: Progress, ticks: seq<Readings>)
    ensures var p := Passes(p0, ticks);
            && |p0.events| <= |p.events| && p.events[..|p0.events|] == p0.events
            && |p0.frames| <= |p.frames| && p.frames[..|p0.frames|] == p0.frames
  {
    if |ticks| > 0 {
      PassesExtendLogs(p0, ticks[..|ticks| - 1]);
    }
  }

  /** The loop stops on the very pass that sees Home, and on no other pass. */
  lemma HomeStopsLoop(p0: Progress, ticks: seq<Readings>, i: nat)
    requires i < |ticks| && !Passes(p0, ticks[..i]).stopped
    ensures var p := Passes(p0, ticks[..i]);
            var rd := ReadAt(p.pending, 0);
            Passes(p0, ticks[..i + 1]).stopped <==> ApplyReport(p.mote, rd.Received?, Contents(rd)).button.home
  {
    PassesStep(p0, ticks, i);
  }

  // ---------------------------------------------------------------------------
  // One control over the whole loop

  /** The loop is in profile `mode` before every pass of the horizon and after the last. */
  ghost predicate StaysIn(p0: Progress, ticks: seq<Readings>, mode: int)
  {
    forall i :: 0 <= i <= |ticks| ==> Passes(p0, ticks[..i]).state.mode == mode
  }

  lemma StaysInPrefix(p0: Progress, ticks: seq<Readings>, mode: int)
    requires |ticks| > 0 && StaysIn(p0, ticks, mode)
    ensures StaysIn(p0, ticks[..|ticks| - 1], mode)
    ensures Passes(p0, ticks[..|ticks| - 1]).state.mode == mode
  {
    var init := ticks[..|ticks| - 1];
    forall i | 0 <= i <= |init|
      ensures Passes(p0, init[..i]).state.mode == mode
    {
      assert init[..i] == ticks[..i];
    }
    assert ticks[..|init|] == init;
  }

  /** The A button as decoded on each pass the loop ran, in order: one level per pass. */
  function ALevels(p0: Progress, ticks: seq<Readings>): (levels: seq<bool>)
    ensures |levels| == Passes(p0, ticks).ran - p0.ran
    decreases |ticks|
  {
    if |ticks| == 0 then []
    else
      var p := Passes(p0, ticks[..|ticks| - 1]);
      var before := ALevels(p0, ticks[..|ticks| - 1]);
      if p.stopped then before else before + [Pass(p, ticks[|ticks| - 1]).mote.button.a]
  }

  /** A pass in the Emulator profile appends that profile's events. */
  lemma PassInEmu(p: Progress, r: Readings)
    requires p.state.mode == MyEmu
    ensures var q := Pass(p, r);
            q.events == p.events + EmuStep(p.state, q.mote).events
            && q.state.last == EmuStep(p.state, q.mote).state.last
  {
  }

  /** A pass in the Mouse profile appends that profile's events. */
  lemma PassInMouse(p: Progress, r: Readings)
    requires p.state.mode == MyMouse
    ensures var q := Pass(p, r);
            q.events == p.events + MouseStep(p.state, q.mote, r).events
            && q.state.lmbDown == MouseStep(p.state, q.mote, r).state.lmbDown
  {
  }

  /** One Emulator pass extends the 'A' edge run by that pass's A level. */
  lemma EmuPassKeyA(p: Progress, r: Readings, evs0: seq<InputEvent>, levels: seq<bool>, last0: bool)
    requires p.state.mode == MyEmu
    requires KeyEvents(p.events, KeyA) == KeyEvents(evs0, KeyA) + EdgeRun(levels, last0, KeyA)
    requires p.state.last.a == Last(levels, last0)
    ensures var q := Pass(p, r);
            && KeyEvents(q.events, KeyA) == KeyEvents(evs0, KeyA) + EdgeRun(levels + [q.mote.button.a], last0, KeyA)
            && q.state.last.a == Last(levels + [q.mote.button.a], last0)
  {
    var q := Pass(p, r);
    PassInEmu(p, r);
    EmuStepKeyA(p.state, q.mote);
    KeyEventsAppend(p.events, EmuStep(p.state, q.mote).events, KeyA);
    EdgeRunSnoc(levels, q.mote.button.a, last0, KeyA);
    AppendAssoc(KeyEvents(evs0, KeyA), EdgeRun(levels, last0, KeyA), Edge(q.mote.button.a, p.state.last.a, KeyA));
  }

  /** In the Emulator profile, the 'A' key events the loop sends are the edge
      run of the A button over the passes, starting from the snapshot. */
  lemma {:induction false} EmuKeyARun(p0: Progress, ticks: seq<Readings>)
    requires StaysIn(p0, ticks, MyEmu)
    ensures KeyEvents(Passes(p0, ticks).events, KeyA)
         == KeyEvents(p0.events, KeyA) + EdgeRun(ALevels(p0, ticks), p0.state.last.a, KeyA)
    ensures Passes(p0, ticks).state.last.a == Last(ALevels(p0, ticks), p0.state.last.a)
    decreases |ticks|
  {
    if |ticks| > 0 {
      var init := ticks[..|ticks| - 1];
      StaysInPrefix(p0, ticks, MyEmu);
      EmuKeyARun(p0, init);
      if !Passes(p0, init).stopped {
        EmuPassKeyA(Passes(p0, init), ticks[|ticks| - 1], p0.events, ALevels(p0, init), p0.state.last.a);
      }
    }
  }

  /** One Mouse pass extends the left-button latch run by that pass's A level. */
  lemma MousePassLeft(p: Progress, r: Readings, evs0: seq<InputEvent>, levels: seq<bool>, latched0: bool)
    requires p.state.mode == MyMouse
    requires Clicks(p.events, LeftButton) == Clicks(evs0, LeftButton) + LatchRun(levels, latched0, LeftButton)
    requires p.state.lmbDown == Last(levels, latched0)
    ensures var q := Pass(p, r);
            && Clicks(q.events, LeftButton)
               == Clicks(evs0, LeftButton) + LatchRun(levels + [q.mote.button.a], latched0, LeftButton)
            && q.state.lmbDown == Last(levels + [q.mote.button.a], latched0)
  {
    var q := Pass(p, r);
    PassInMouse(p, r);
    MouseStepLeftClicks(p.state, q.mote, r);
    ClicksAppend(p.events, MouseStep(p.state, q.mote, r).events, LeftButton);
    LatchRunSnoc(levels, q.mote.button.a, latched0, LeftButton);
    AppendAssoc(Clicks(evs0, LeftButton), LatchRun(levels, latched0, LeftButton),
                Latch(q.mote.button.a, p.state.lmbDown, LeftButton).1);
  }

  /** In the Mouse profile, the left-button clicks the loop sends are the latch
      run of the A button over the passes, starting from the latch. */
  lemma {:induction false} MouseLeftRun(p0: Progress, ticks: seq<Readings>)
    requires StaysIn(p0, ticks, MyMouse)
    ensures Clicks(Passes(p0, ticks).events, LeftButton)
         == Clicks(p0.events, LeftButton) + LatchRun(ALevels(p0, ticks), p0.state.lmbDown, LeftButton)
    ensures Passes(p0, ticks).state.lmbDown == Last(ALevels(p0, ticks), p0.state.lmbDown)
    decreases |ticks|
  {
    if |ticks| > 0 {
      var init := ticks[..|ticks| - 1];
      StaysInPrefix(p0, ticks, MyMouse);
      MouseLeftRun(p0, init);
      if !Passes(p0, init).stopped {
        MousePassLeft(Passes(p0, init), ticks[|ticks| - 1], p0.events, ALevels(p0, init), p0.state.lmbDown);
      }
    }
  }

  /** Emulator profile: A held on n >= 1 passes, then released, from a released
      snapshot, sends exactly one 'A' down and one 'A' up. */
  lemma EmuHoldThenRelease(p0: Progress, ticks: seq<Readings>, n: nat)
    requires StaysIn(p0, ticks, MyEmu) && !p0.state.last.a
    requires n >= 1 && ALevels(p0, ticks) == seq(n, _ => true) + [false]
    ensures KeyEvents(Passes(p0, ticks).events, KeyA)
         == KeyEvents(p0.events, KeyA) + [Key(KeyA, false), Key(KeyA, true)]
  {
    EmuKeyARun(p0, ticks);
    HoldThenReleaseEmitsOnePair(n, KeyA);
  }

  /** Emulator profile: A kept at its snapshot's level sends no 'A' at all. */
  lemma EmuSteadyIsSilent(p0: Progress, ticks: seq<Readings>)
    requires StaysIn(p0, ticks, MyEmu)
    requires forall k :: 0 <= k < |ALevels(p0, ticks)| ==> ALevels(p0, ticks)[k] == p0.state.last.a
    ensures KeyEvents(Passes(p0, ticks).events, KeyA) == KeyEvents(p0.events, KeyA)
  {
    var levels := ALevels(p0, ticks);
    assert levels == seq(|levels|, _ => p0.state.last.a);
    EmuKeyARun(p0, ticks);
    SteadyIsSilent(|levels|, p0.state.last.a, KeyA);
  }

  /** Mouse profile: A held on n >= 1 passes, then released, from a released
      latch, presses and releases the left button exactly once. */
  lemma MouseHoldThenRelease(p0: Progress, ticks: seq<Readings>, n: nat)
    requires StaysIn(p0, ticks, MyMouse) && !p0.state.lmbDown
    requires n >= 1 && ALevels(p0, ticks) == seq(n, _ => true) + [false]
    ensures Clicks(Passes(p0, ticks).events, LeftButton)
         == Clicks(p0.events, LeftButton) + [MouseClick(LeftButton, true), MouseClick(LeftButton, false)]
  {
    MouseLeftRun(p0, ticks);
    LatchHoldThenRelease(n, LeftButton);
  }

  /** Mouse profile: A kept at the latch's level never clicks the left button. */
  lemma MouseSteadyIsSilent(p0: Progress, ticks: seq<Readings>)
    requires StaysIn(p0, ticks, MyMouse)
    requires forall k :: 0 <= k < |ALevels(p0, ticks)| ==> ALevels(p0, ticks)[k] == p0.state.lmbDown
    ensures Clicks(Passes(p0, ticks).events, LeftButton) == Clicks(p0.events, LeftButton)
  {
    var levels := ALevels(p0, ticks);
    assert levels == seq(|levels|, _ => p0.state.lmbDown);
    MouseLeftRun(p0, ticks);
    LatchRunSteady(|levels|, p0.state.lmbDown, LeftButton);
  }

  // ---------------------------------------------------------------------------
  // The driver object

  class Wiimote {
    /** The read buffer and the write buffer. */
    const rdPkt: array<Byte>
    const wrPkt: array<Byte>
    /** Whether the last read and the last write succeeded. */
    var rdOk: bool
    var wrOk: bool

    var mote: Mote
    /** Set by Home; ends the polling loop. */
    var disconnect: bool

    /** The transport: readings still to be delivered, frames written so far,
        and whether the device accepts writes. */
    var pending: seq<Reading>
    var sent: seq<Packet>
    const writable: bool
    /** Keyboard and mouse input synthesized so far. */
    var events: seq<InputEvent>

    ghost predicate Valid()
      reads this
    {
      rdPkt.Length == PacketSize && wrPkt.Length == PacketSize && rdPkt != wrPkt
    }

    /** A fresh object with the record cleared; when a device was found, the
        handshake runs and its verdict becomes the connection flag. */
    constructor (script: seq<Reading>, accepts: bool, deviceFound: bool)
      ensures Valid() && fresh(rdPkt) && fresh(wrPkt)
      ensures writable == accepts && events == [] && !disconnect
      ensures var h := Handshake(InitialMote(), script);
              if deviceFound then
                && mote == h.mote.(connected := h.ok)
                && sent == h.writes && pending == DropN(script, h.readCount)
              else
                && mote == InitialMote() && sent == [] && pending == script
                && rdPkt[..] == Zeros() && wrPkt[..] == Zeros() && !rdOk && !wrOk
    {
      rdPkt := new Byte[PacketSize];
      wrPkt := new Byte[PacketSize];
      writable := accepts;
      mote := InitialMote();
      disconnect := false;
      pending, sent, events := script, [], [];
      new;
      ClearPackets();
      if deviceFound {
        var ok := Initialize();
        mote := mote.(connected := ok);
      }
    }

    /** Both buffers zeroed and both results cleared. */
    method ClearPackets()
      requires Valid()
      modifies this`rdOk, this`wrOk, rdPkt, wrPkt
      ensures rdPkt[..] == Zeros() && wrPkt[..] == Zeros()
      ensures !rdOk && !wrOk
    {
      rdOk, wrOk := false, false;
      for i := 0 to PacketSize
        modifies rdPkt, wrPkt
        invariant forall k :: 0 <= k < i ==> rdPkt[k] == 0 && wrPkt[k] == 0
      {
        rdPkt[i] := 0;
        wrPkt[i] := 0;
      }
    }

    /** One read: the next reading of the script lands in the read buffer; a
        failed read leaves the buffer as it was. */
    method ReadPacket()
      requires Valid()
      modifies this`rdOk, this`pending, rdPkt
      ensures var r := ReadAt(old(pending), 0);
              && rdOk == r.Received?
              && rdPkt[..] == (if r.Received? then r.frame else old(rdPkt[..]))
              && pending == DropN(old(pending), 1)
    {
      var r := ReadAt(pending, 0);
      pending := DropN(pending, 1);
      if r.Received? {
        for i := 0 to PacketSize
          modifies rdPkt
          invariant forall k :: 0 <= k < i ==> rdPkt[k] == r.frame[k]
        {
          rdPkt[i] := r.frame[i];
        }
        assert rdPkt[..] == r.frame;
      }
      rdOk := r.Received?;
    }

    /** One write: the write buffer is appended to the log. */
    method WritePacket()
      requires Valid()
      modifies this`wrOk, this`sent
      ensures sent == old(sent) + [wrPkt[..]]
      ensures wrOk == writable
    {
      sent := sent + [wrPkt[..]];
      wrOk := writable;
    }

    /** Clear both buffers, then read one frame. */
    method Receive()
      requires Valid()
      modifies this`rdOk, this`wrOk, this`pending, rdPkt, wrPkt
      ensures var r := ReadAt(old(pending), 0);
              && rdOk == r.Received? && !wrOk
              && rdPkt[..] == Contents(r) && wrPkt[..] == Zeros()
              && pending == DropN(old(pending), 1)
    {
      ClearPackets();
      ReadPacket();
    }

    /** Clear both buffers, fill the leading bytes of the write buffer, write it. */
    method Transmit(prefix: seq<Byte>)
      requires Valid() && |prefix| <= PacketSize
      modifies this`rdOk, this`wrOk, this`sent, rdPkt, wrPkt
      ensures wrPkt[..] == Command(prefix) && rdPkt[..] == Zeros()
      ensures sent == old(sent) + [Command(prefix)]
      ensures !rdOk && wrOk == writable
    {
      ClearPackets();
      for i := 0 to |prefix|
        modifies wrPkt
        invariant forall k :: 0 <= k < i ==> wrPkt[k] == prefix[k]
        invariant forall k :: i <= k < PacketSize ==> wrPkt[k] == 0
      {
        wrPkt[i] := prefix[i];
      }
      assert wrPkt[..] == Command(prefix);
      WritePacket();
    }

    /** The eleven button and dpad flags, each from its bit of the word. */
    method UpdateButtonStates(buttons: Word)
      modifies this`mote
      ensures mote == old(mote).(dpad := DecodeDpad(buttons), button := DecodeButtons(buttons))
    {
      mote := mote.(dpad := mote.dpad.(up := buttons & ButUp != 0, down := buttons & ButDown != 0,
                                       left := buttons & ButLeft != 0, right := buttons & ButRight != 0));
      mote := mote.(button := mote.button.(minus := buttons & ButMinus != 0, plus := buttons & ButPlus != 0,
                                           home := buttons & ButHome != 0, a := buttons & ButA != 0));
      mote := mote.(button := mote.button.(b := buttons & ButB != 0, one := buttons & ButOne != 0,
                                           two := buttons & ButTwo != 0));
    }

    /** Dispatch on the report type in the read buffer: buttons (0x30),
        buttons and motion (0x31), buttons, motion and extension (0x35). */
    method DecodeReport()
      requires Valid()
      modifies this`mote
      ensures mote == ApplyReport(old(mote), rdOk, rdPkt[..])
    {
      ghost var buf := rdPkt[..];
      ghost var m := mote;
      if rdOk {
        var reportType := rdPkt[0];
        if reportType == ModeDefault {
          UpdateButtonStates(ButtonWord(rdPkt[1], rdPkt[2]));
          assert mote == WithButtons(m, buf);
        }
        if reportType == ModeAcc {
          UpdateButtonStates(ButtonWord(rdPkt[1], rdPkt[2]));
          mote := mote.(axis := Byte3(rdPkt[3], rdPkt[4], rdPkt[5]));
          assert mote == WithAxis(WithButtons(m, buf), buf);
          if mote.zero.x != 0 {
            mote := WithMotion(mote);
          }
        }
        if reportType == ModeAccExt {
          UpdateButtonStates(ButtonWord(rdPkt[1], rdPkt[2]));
          mote := mote.(axis := Byte3(rdPkt[3], rdPkt[4], rdPkt[5]));
          ghost var m1 := mote;
          assert m1 == WithAxis(WithButtons(m, buf), buf);
          mote := mote.(chuk := mote.chuk.(stickAxis := Byte2(WiiDecrypt(rdPkt[6]), WiiDecrypt(rdPkt[7])),
                                           axis := Byte3(WiiDecrypt(rdPkt[8]), WiiDecrypt(rdPkt[9]), WiiDecrypt(rdPkt[10]))));
          var chukButtons := WiiDecrypt(rdPkt[11]);
          mote := mote.(chuk := mote.chuk.(button := ChukButtons(chukButtons & ChukButC == 0, chukButtons & ChukButZ == 0)));
          assert mote == WithChukData(m1, buf);
          if mote.zero.x != 0 {
            mote := WithStick(WithMotion(mote));
          }
        }
      }
    }

    /** Read one report and apply it to the record. */
    method ParseReport()
      requires Valid()
      modifies this`rdOk, this`wrOk, this`pending, this`mote, rdPkt, wrPkt
      ensures var r := ReadAt(old(pending), 0);
              && mote == ApplyReport(old(mote), r.Received?, Contents(r))
              && rdOk == r.Received? && !wrOk
              && rdPkt[..] == Contents(r) && wrPkt[..] == Zeros()
              && pending == DropN(old(pending), 1)
    {
      Receive();
      DecodeReport();
    }

    /** Select the reporting mode; the result is whether the write succeeded. */
    method SetReportMode(mode: Byte, continuous: Byte) returns (ok: bool)
      requires Valid()
      modifies this`rdOk, this`wrOk, this`sent, rdPkt, wrPkt
      ensures wrPkt[..] == ModeFrame(mode, continuous) && rdPkt[..] == Zeros()
      ensures sent == old(sent) + [ModeFrame(mode, continuous)]
      ensures ok == writable && !rdOk
    {
      ClearPackets();
      wrPkt[0] := OutReportType;
      wrPkt[1] := continuous;
      wrPkt[2] := mode;
      assert wrPkt[..] == ModeFrame(mode, continuous);
      WritePacket();
      ok := wrOk;
    }

    /** Switch rumble on or off and remember it for later LED frames. */
    method Rumble(on: bool) returns (ok: bool)
      requires Valid()
      modifies this`rdOk, this`wrOk, this`sent, this`mote, rdPkt, wrPkt
      ensures mote == old(mote).(rumbling := on)
      ensures wrPkt[..] == RumbleFrame(on) && rdPkt[..] == Zeros()
      ensures sent == old(sent) + [RumbleFrame(on)]
      ensures ok == writable && !rdOk
    {
      ClearPackets();
      wrPkt[0] := OutIrSense2;
      if on {
        mote := mote.(rumbling := true);
        wrPkt[1] := OutRumble;
      } else {
        mote := mote.(rumbling := false);
        wrPkt[1] := 0x00;
      }
      assert wrPkt[..] == RumbleFrame(on);
      WritePacket();
      ok := wrOk;
    }

    /** Light the LEDs in the mask, keeping the rumble bit as it is. */
    method EnableLED(mask: Byte) returns (ok: bool)
      requires Valid()
      modifies this`rdOk, this`wrOk, this`sent, rdPkt, wrPkt
      ensures wrPkt[..] == LedFrame(mask, mote.rumbling) && rdPkt[..] == Zeros()
      ensures sent == old(sent) + [LedFrame(mask, mote.rumbling)]
      ensures ok == writable && !rdOk
    {
      ClearPackets();
      wrPkt[0] := OutLedFf;
      wrPkt[1] := mask;
      if mote.rumbling {
        wrPkt[1] := wrPkt[1] | OutRumble;
      }
      assert wrPkt[..] == LedFrame(mask, mote.rumbling);
      WritePacket();
      ok := wrOk;
    }

    /** Request the controller status and take presence and battery from a 0x20 reply. */
    method RequestStatus()
      requires Valid()
      modifies this`rdOk, this`wrOk, this`pending, this`sent, this`mote, rdPkt, wrPkt
      ensures var r := ReadAt(old(pending), 0);
              && mote == StatusUpdate(old(mote), Contents(r))
              && sent == old(sent) + [StatusRequestFrame()]
              && rdOk == r.Received? && !wrOk
              && rdPkt[..] == Contents(r) && wrPkt[..] == Zeros()
              && pending == DropN(old(pending), 1)
    {
      Transmit([OutCtrlStat, 0x00]);
      Receive();
      if rdPkt[0] == ModeExpPort {
        mote := mote.(chuk := mote.chuk.(connected := rdPkt[3] & 0x02 != 0));
        mote := mote.(battery := rdPkt[6] as int / 2);
      }
    }

    /** Read the controller calibration block and store it when the reply is a
        0x21 from offset 0x16. */
    method CalibrateMote()
      requires Valid()
      modifies this`rdOk, this`wrOk, this`pending, this`sent, this`mote, rdPkt, wrPkt
      ensures var r := ReadAt(old(pending), 0);
              && mote == MoteCalibrationUpdate(old(mote), Contents(r))
              && sent == old(sent) + [MoteCalibrationRequestFrame()]
              && rdOk == r.Received? && !wrOk
              && rdPkt[..] == Contents(r) && wrPkt[..] == Zeros()
              && pending == DropN(old(pending), 1)
    {
      Transmit([OutReadData, 0x00, 0x00, 0x00, 0x16, 0x00, 0x07]);
      Receive();
      if rdPkt[0] == ModeReadData {
        if rdPkt[5] == 0x16 {
          mote := mote.(zero := Byte3(rdPkt[6], rdPkt[7], rdPkt[8]));
          mote := mote.(scale := Byte3(rdPkt[10], rdPkt[11], rdPkt[12]));
        }
      }
    }

    /** Take the nunchuk calibration from the read buffer when it holds the
        expected read-data reply. */
    method StoreChukCalibration()
      requires Valid()
      modifies this`mote
      ensures mote == ChukCalibrationUpdate(old(mote), rdPkt[..])
    {
      if rdPkt[0] == ModeReadData {
        if rdPkt[4] == 0x00 && rdPkt[5] == 0x20 {
          if rdPkt[3] == 0xD0 {
            mote := mote.(chuk := mote.chuk.(
              zero := Byte3(WiiDecrypt(rdPkt[6]), WiiDecrypt(rdPkt[7]), WiiDecrypt(rdPkt[8])),
              scale := Byte3(WiiDecrypt(rdPkt[10]), WiiDecrypt(rdPkt[11]), WiiDecrypt(rdPkt[12]))));
            mote := mote.(chuk := mote.chuk.(
              stickMax := Byte2(WiiDecrypt(rdPkt[14]), WiiDecrypt(rdPkt[17])),
              stickMin := Byte2(WiiDecrypt(rdPkt[15]), WiiDecrypt(rdPkt[18])),
              stickCenter := Byte2(WiiDecrypt(rdPkt[16]), WiiDecrypt(rdPkt[19]))));
          }
        }
      }
    }

    /** Enable the nunchuk (ignoring the acknowledgement), then read its
        calibration block and store it, decrypted, when the reply is a 0x21
        from address 0x0020 with 14 bytes and no error. */
    method CalibrateChuk()
      requires Valid()
      modifies this`rdOk, this`wrOk, this`pending, this`sent, this`mote, rdPkt, wrPkt
      ensures var r := ReadAt(old(pending), 1);
              && mote == ChukCalibrationUpdate(old(mote), Contents(r))
              && sent == old(sent) + ExtensionWrites()
              && rdOk == r.Received? && !wrOk
              && rdPkt[..] == Contents(r) && wrPkt[..] == Zeros()
              && pending == DropN(old(pending), 2)
    {
      ghost var q := pending;
      Transmit([OutWriteData, 0x04, 0xA4, 0x00, 0x40, 0x01, 0x00]);
      Receive();
      Transmit([OutReadData, 0x04, 0xA4, 0x00, 0x20, 0x00, 0x0E]);
      Receive();
      ReadStep(q, 1, 1);
      StoreChukCalibration();
    }

    /** The exchanges after a confirmed mode change: status, controller
        calibration and, when the status reported one, the extension. */
    method Configure()
      requires Valid()
      modifies this`rdOk, this`wrOk, this`pending, this`sent, this`mote, rdPkt, wrPkt
      ensures var c := Configuration(old(mote), old(pending));
              && mote == c.mote && sent == old(sent) + c.writes
              && pending == DropN(old(pending), c.readCount)
              && rdPkt[..] == c.last && wrPkt[..] == Zeros()
              && rdOk == ReadAt(old(pending), c.readCount - 1).Received? && !wrOk
    {
      ghost var q := pending;
      RequestBasics();
      ghost var c := Configuration(old(mote), q);
      if mote.chuk.connected {
        ReadStep(q, 2, 1);
        ReadStep(q, 2, 2);
        CalibrateChuk();
        assert mote == c.mote;
      }
    }

    /** The status and the controller calibration exchanges, in that order. */
    method RequestBasics()
      requires Valid()
      modifies this`rdOk, this`wrOk, this`pending, this`sent, this`mote, rdPkt, wrPkt
      ensures var r := ReadAt(old(pending), 1);
              && mote == MoteCalibrationUpdate(StatusUpdate(old(mote), Contents(ReadAt(old(pending), 0))), Contents(r))
              && sent == old(sent) + RequestWrites()
              && rdOk == r.Received? && !wrOk
              && rdPkt[..] == Contents(r) && wrPkt[..] == Zeros()
              && pending == DropN(old(pending), 2)
    {
      ghost var q := pending;
      RequestStatus();
      ReadStep(q, 1, 0);
      CalibrateMote();
      ReadStep(q, 1, 1);
    }

    /** The start-up exchange; false only when the controller did not confirm
        the button-only reporting mode. */
    method Initialize() returns (ok: bool)
      requires Valid()
      modifies this`rdOk, this`wrOk, this`pending, this`sent, this`mote, rdPkt, wrPkt
      ensures var h := Handshake(old(mote), old(pending));
              && ok == h.ok && mote == h.mote
              && sent == old(sent) + h.writes
              && pending == DropN(old(pending), h.readCount)
              && rdPkt[..] == h.last && wrPkt[..] == Zeros()
              && rdOk == ReadAt(old(pending), h.readCount - 1).Received? && !wrOk
    {
      ghost var q := pending;
      ghost var m := mote;
      var _ := SetReportMode(ModeDefault, ModeNonCont);
      Receive();
      if rdPkt[0] != ModeDefault {
        return false;
      }
      ghost var q1 := pending;
      Configure();
      ghost var c := Configuration(m, q1);
      ReadStep(q, 1, c.readCount);
      ReadStep(q, 1, c.readCount - 1);
      return true;
    }

    /** The LED that shows a profile, as the loop selects it. */
    method ShowProfile(myMode: int) returns (ok: bool)
      requires Valid()
      modifies this`rdOk, this`wrOk, this`sent, rdPkt, wrPkt
      ensures sent == old(sent) + [LedFrame(LedFor(myMode), mote.rumbling)]
      ensures ok == writable
      ensures mote == old(mote) && pending == old(pending) && events == old(events)
    {
      if myMode == MyMouse {
        ok := EnableLED(LedOne);
      } else if myMode == MyEmu {
        ok := EnableLED(LedTwo);
      } else if myMode == MyFps {
        ok := EnableLED(LedThree);
      } else {
        ok := EnableLED(LedNone);
      }
    }

    /** Minus and Plus rotate the profile; when either is down the LEDs show
        the new one. */
    method RotateProfile(mode: int) returns (myMode: int)
      requires Valid()
      modifies this`rdOk, this`wrOk, this`sent, rdPkt, wrPkt
      ensures myMode == Rotate(mode, mote.button.minus, mote.button.plus)
      ensures sent == old(sent) + RotationFrames(mode, mote.button.minus, mote.button.plus, mote.rumbling)
      ensures mote == old(mote) && pending == old(pending) && events == old(events)
    {
      myMode := mode;
      var myModeChanged := false;
      if mote.button.minus {
        if myMode > 0 {
          myMode := myMode - 1;
        } else {
          myMode := MyMax;
        }
        myModeChanged := true;
      }
      if mote.button.plus {
        if myMode == MyMax {
          myMode := 0;
        } else {
          myMode := myMode + 1;
        }
        myModeChanged := true;
      }
      if myModeChanged {
        var _ := ShowProfile(myMode);
      }
    }

    /** One pass of the polling loop over the loop variables `s`, with the
        per-pass motion readings `r`; `ran` counts the passes before it. */
    method Tick(s: LoopState, r: Readings, ghost ran: nat) returns (s': LoopState)
      requires Valid()
      modifies this`rdOk, this`wrOk, this`pending, this`sent, this`mote, this`events, this`disconnect, rdPkt, wrPkt
      ensures Pass(Progress(s, old(mote), old(events), old(sent), old(pending), ran, old(disconnect)), r)
           == Progress(s', mote, events, sent, pending, ran + 1, disconnect)
    {
      ParseReport();
      var step := ProfileStep(s, mote, r);
      events := events + step.events;
      var myMode := RotateProfile(s.mode);
      if mote.button.home {
        disconnect := true;
      }
      s' := step.state.(mode := myMode);
    }

    /** The passes of the polling loop over a horizon of per-pass readings,
        from the initial loop variables, until Home or until the readings run
        out. */
    method RunPasses(ticks: seq<Readings>) returns (ran: nat, last: LoopState)
      requires Valid()
      modifies this`rdOk, this`wrOk, this`pending, this`sent, this`mote, this`events, this`disconnect, rdPkt, wrPkt
      ensures Passes(Progress(InitialLoopState(), old(mote), old(events), old(sent), old(pending), 0, old(disconnect)), ticks)
           == Progress(last, mote, events, sent, pending, ran, disconnect)
    {
      var s := InitialLoopState();
      ghost var p0 := Progress(s, mote, events, sent, pending, 0, disconnect);
      var i := 0;
      while !disconnect && i < |ticks|
        invariant Valid()
        invariant 0 <= i <= |ticks|
        invariant Passes(p0, ticks[..i]) == Progress(s, mote, events, sent, pending, i, disconnect)
      {
        PassesStep(p0, ticks, i);
        s := Tick(s, ticks[i], i);
        i := i + 1;
      }
      if disconnect {
        StoppedIsFinal(p0, ticks[..i], ticks[i..]);
        assert ticks[..i] + ticks[i..] == ticks;
      } else {
        assert ticks[..i] == ticks;
      }
      return i, s;
    }

    /** The polling loop over a horizon of per-pass readings: reporting with
        motion (and the extension when one is present), the first LED, then
        passes until Home or until the readings run out; after Home, the
        button-only reporting mode again. */
    method DebugLoop(ticks: seq<Readings>) returns (code: int, ran: nat, last: LoopState)
      requires Valid()
      modifies this`rdOk, this`wrOk, this`pending, this`sent, this`mote, this`events, this`disconnect, rdPkt, wrPkt
      ensures var p := Passes(Progress(InitialLoopState(), old(mote), old(events),
                                       old(sent) + [ModeFrame(if old(mote).chuk.connected then ModeAccExt else ModeAcc, ModeCont),
                                                    LedFrame(LedOne, old(mote).rumbling)],
                                       old(pending), 0, old(disconnect)), ticks);
              && code == 0 && ran == p.ran && last == p.state
              && mote == p.mote && disconnect == p.stopped
              && events == p.events && pending == p.pending
              && sent == p.frames + (if p.stopped then [ModeFrame(ModeDefault, ModeNonCont)] else [])
    {
      if mote.chuk.connected {
        var _ := SetReportMode(ModeAccExt, ModeCont);
      } else {
        var _ := SetReportMode(ModeAcc, ModeCont);
      }
      var _ := EnableLED(LedOne);
      assert sent == old(sent) + [ModeFrame(if mote.chuk.connected then ModeAccExt else ModeAcc, ModeCont),
                                  LedFrame(LedOne, mote.rumbling)];
      ran, last := RunPasses(ticks);
      if disconnect {
        var _ := SetReportMode(ModeDefault, ModeNonCont);
      }
      code := 0;
    }
  }
}
