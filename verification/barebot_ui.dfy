/** The barebot remote's UI task (barebot_ui.c): the screen-state
    machine driven by the keypad, and the dispatch of UI messages.
    Reads and writes of the robot's characteristics, display output and
    frees are the actions a key press emits, in call order; what a read
    returns is not modelled. */
module BarebotUI {
  import opened Types

  /** Screen states (barebot_ui.h); `screenState` is a static without
      initialiser, so it starts at 0, which is neither. */
  const BUI_STATE_CONTROL: byte := 1
  const BUI_STATE_THOUGHTS: byte := 2
  const InitialScreen: byte := 0

  /** UI message types (barebot_ui.h). */
  const BUI_EVT_KEY_PRESSED: byte := 1
  const BUI_EVT_CENTRAL_STATE_CHANGED: byte := 2
  const BUI_EVT_SPEED_CHANGED: byte := 3
  const BUI_EVT_TURN_CHANGED: byte := 4

  /** Characteristic IDs as the client knows them
      (barebot_server_constants.h). */
  const BAREBOTPROFILE_THOUGHTS: byte := 0
  const BAREBOTPROFILE_SPEED: byte := 1
  const BAREBOTPROFILE_TURN: byte := 2
  const BAREBOTPROFILE_SPEEDUPDATE: byte := 3
  const BAREBOTPROFILE_TURNUPDATE: byte := 4

  /** Central states the UI names (barebot_central_intf.h). */
  const BC_STATE_IDLE: byte := 0
  const BC_STATE_INITIALIZING: byte := 1
  const BC_STATE_SCANNING: byte := 2
  const BC_STATE_CONNECTING: byte := 3
  const BC_STATE_DISC_CHARS: byte := 4
  const BC_STATE_ERROR: byte := 5
  const BC_STATE_READY: byte := 10

  datatype UiAction =
    | ClearDisplay
    /** Display(row, col, text, len) */
    | Display(row: nat, col: nat, text: string, len: int)
    /** Display_printf(row, col, width, "%d", value) */
    | PrintNumber(row: nat, col: nat, width: nat, value: int)
    /** Display_printf(row, col, width, format, rsp.pValue[0]) of the
        response to the read of characteristic `id` */
    | PrintReadByte(row: nat, col: nat, width: nat, format: string, id: byte)
    /** Display(row, col, rsp.pValue, len) of the response to the read
        of characteristic `id` */
    | DisplayReadText(row: nat, col: nat, len: int, id: byte)
    /** BarebotUI_read(id) */
    | Read(id: byte)
    /** BarebotUI_write(id, &update) */
    | Write(id: byte, update: int16)
    /** ICall_free of the response to the read of characteristic `id` */
    | FreeReadResponse(id: byte)

  datatype UiStep = UiStep(screen: byte, actions: seq<UiAction>)

  /** The characteristics a run of actions reads, in order. */
  function Reads(acts: seq<UiAction>): (ids: seq<byte>)
    ensures |ids| <= |acts|
    decreases |acts|
  {
    if acts == [] then []
    else (if acts[0].Read? then [acts[0].id] else []) + Reads(acts[1..])
  }

  /** The writes a run of actions issues, in order. */
  function Writes(acts: seq<UiAction>): (ws: seq<(byte, int16)>)
    ensures |ws| <= |acts|
    decreases |acts|
  {
    if acts == [] then []
    else (if acts[0].Write? then [(acts[0].id, acts[0].update)] else []) + Writes(acts[1..])
  }

  lemma {:induction false} ReadsWritesConcat(a: seq<UiAction>, b: seq<UiAction>)
    ensures Reads(a + b) == Reads(a) + Reads(b)
    ensures Writes(a + b) == Writes(a) + Writes(b)
  {
    ReadsConcat(a, b);
    WritesConcat(a, b);
  }

  lemma {:induction false} ReadsConcat(a: seq<UiAction>, b: seq<UiAction>)
    ensures Reads(a + b) == Reads(a) + Reads(b)
    decreases |a|
  {
    if a == [] {
      assert a + b == b;
    } else {
      assert (a + b)[0] == a[0];
      assert (a + b)[1..] == a[1..] + b;
      ReadsConcat(a[1..], b);
    }
  }

  lemma {:induction false} WritesConcat(a: seq<UiAction>, b: seq<UiAction>)
    ensures Writes(a + b) == Writes(a) + Writes(b)
    decreases |a|
  {
    if a == [] {
      assert a + b == b;
    } else {
      assert (a + b)[0] == a[0];
      assert (a + b)[1..] == a[1..] + b;
      WritesConcat(a[1..], b);
    }
  }

  /** Display output and frees contribute nothing to reads or writes. */
  lemma {:induction false} NoReadsNoWrites(acts: seq<UiAction>)
    requires forall k :: 0 <= k < |acts| ==> !acts[k].Read? && !acts[k].Write?
    ensures Reads(acts) == [] && Writes(acts) == []
    decreases |acts|
  {
    if acts != [] {
      NoReadsNoWrites(acts[1..]);
    }
  }

  /** `Writes` lists every write action and nothing else. */
  lemma {:induction false} WritesAreWriteActions(acts: seq<UiAction>)
    ensures forall id: byte, u: int16 :: (id, u) in Writes(acts) <==> Write(id, u) in acts
    ensures Writes(acts) == [] <==> forall k :: 0 <= k < |acts| ==> !acts[k].Write?
    decreases |acts|
  {
    if acts != [] {
      WritesAreWriteActions(acts[1..]);
      assert acts == [acts[0]] + acts[1..];
      assert forall k :: 0 < k < |acts| ==> acts[k] == acts[1..][k - 1];
    }
  }

  /** The write the CONTROL screen issues for a non-menu key. */
  function ControlWrite(row: byte, col: byte): (w: seq<UiAction>)
  {
    if row == 0 && col == 2 then [Write(BAREBOTPROFILE_TURNUPDATE, -1)]        // left
    else if row == 0 && col == 1 then [Write(BAREBOTPROFILE_SPEEDUPDATE, -1)]  // down
    else if row == 0 && col == 0 then [Write(BAREBOTPROFILE_TURNUPDATE, 1)]    // right
    else if row == 1 && col == 1 then [Write(BAREBOTPROFILE_SPEEDUPDATE, 1)]   // up
    else []
  }

  /** `BarebotUI_handleKey(row, col)` with the screen state passed in
      and returned. */
  function HandleKey(screen: byte, row: byte, col: byte): (r: UiStep)
    ensures row == 3 ==> |r.actions| > 0 && r.actions[0] == ClearDisplay
    ensures row != 3 ==> ClearDisplay !in r.actions
    ensures r.screen != screen ==> row == 3 && (col == 3 || col == 2)
    ensures row == 3 && col == 3 ==> r.screen == BUI_STATE_CONTROL
    ensures row == 3 && col == 2 ==> r.screen == BUI_STATE_THOUGHTS
  {
    if row == 3 && col == 3 then
      UiStep(BUI_STATE_CONTROL,
             [ClearDisplay, Display(0, 0, "CONTROL", 16),
              Read(BAREBOTPROFILE_SPEED), Read(BAREBOTPROFILE_TURN),
              PrintReadByte(1, 0, 12, "Speed:  %d", BAREBOTPROFILE_SPEED),
              PrintReadByte(2, 0, 12, "Turn:   %d", BAREBOTPROFILE_TURN),
              FreeReadResponse(BAREBOTPROFILE_SPEED), FreeReadResponse(BAREBOTPROFILE_TURN)])
    else if row == 3 && col == 2 then
      UiStep(BUI_STATE_THOUGHTS,
             [ClearDisplay, Display(0, 0, "THOUGHTS", 16),
              Read(BAREBOTPROFILE_THOUGHTS),
              DisplayReadText(1, 0, 16, BAREBOTPROFILE_THOUGHTS),
              FreeReadResponse(BAREBOTPROFILE_THOUGHTS)])
    else
      var clear := if row == 3 then [ClearDisplay] else [];
      var writes := if screen == BUI_STATE_CONTROL then ControlWrite(row, col) else [];
      UiStep(screen, clear + writes)
  }

  /** The two menu keys: (3,3) opens CONTROL and reads speed then turn;
      (3,2) opens THOUGHTS and reads thoughts once; neither writes. */
  lemma MenuKeys(screen: byte)
    ensures var r := HandleKey(screen, 3, 3);
      r.screen == BUI_STATE_CONTROL
      && Reads(r.actions) == [BAREBOTPROFILE_SPEED, BAREBOTPROFILE_TURN]
      && Writes(r.actions) == []
      && r.actions[1] == Display(0, 0, "CONTROL", 16)
    ensures var r := HandleKey(screen, 3, 2);
      r.screen == BUI_STATE_THOUGHTS
      && Reads(r.actions) == [BAREBOTPROFILE_THOUGHTS]
      && Writes(r.actions) == []
      && r.actions[1] == Display(0, 0, "THOUGHTS", 16)
  {
    var a := HandleKey(screen, 3, 3).actions;
    var a0 := [ClearDisplay, Display(0, 0, "CONTROL", 16)];
    var a1 := [Read(BAREBOTPROFILE_SPEED), Read(BAREBOTPROFILE_TURN)];
    var a2 := [PrintReadByte(1, 0, 12, "Speed:  %d", BAREBOTPROFILE_SPEED),
               PrintReadByte(2, 0, 12, "Turn:   %d", BAREBOTPROFILE_TURN),
               FreeReadResponse(BAREBOTPROFILE_SPEED), FreeReadResponse(BAREBOTPROFILE_TURN)];
    assert a == a0 + a1 + a2;
    ReadsWritesConcat(a0, a1);
    ReadsWritesConcat(a0 + a1, a2);
    NoReadsNoWrites(a0);
    NoReadsNoWrites(a2);
    var b := HandleKey(screen, 3, 2).actions;
    var b0 := [ClearDisplay, Display(0, 0, "THOUGHTS", 16)];
    var b1 := [Read(BAREBOTPROFILE_THOUGHTS)];
    var b2 := [DisplayReadText(1, 0, 16, BAREBOTPROFILE_THOUGHTS),
               FreeReadResponse(BAREBOTPROFILE_THOUGHTS)];
    assert b == b0 + b1 + b2;
    ReadsWritesConcat(b0, b1);
    ReadsWritesConcat(b0 + b1, b2);
    NoReadsNoWrites(b0);
    NoReadsNoWrites(b2);
  }

  /** Any other key on the menu row only clears the display. */
  lemma OtherMenuRowKeysOnlyClear(screen: byte, col: byte)
    requires col != 3 && col != 2
    ensures HandleKey(screen, 3, col) == UiStep(screen, [ClearDisplay])
  {
  }

  /** The arrow keys on the CONTROL screen, as the pad is labelled. */
  datatype Arrow = Left | Down | Right | Up

  /** Where each arrow sits on the keypad. */
  function ArrowKey(a: Arrow): (rc: (byte, byte))
  {
    match a
    case Left => (0, 2)
    case Down => (0, 1)
    case Right => (0, 0)
    case Up => (1, 1)
  }

  /** Left/right steer (turn update), down/up drive (speed update); left
      and down lower the value, right and up raise it. */
  function ArrowWrite(a: Arrow): (w: (byte, int16))
    ensures w.0 == BAREBOTPROFILE_TURNUPDATE <==> a == Left || a == Right
    ensures w.1 == -1 <==> a == Left || a == Down
  {
    match a
    case Left => (BAREBOTPROFILE_TURNUPDATE, -1)
    case Down => (BAREBOTPROFILE_SPEEDUPDATE, -1)
    case Right => (BAREBOTPROFILE_TURNUPDATE, 1)
    case Up => (BAREBOTPROFILE_SPEEDUPDATE, 1)
  }

  /** On the CONTROL screen a key writes exactly when it is an arrow,
      and then it issues that arrow's write and nothing else. */
  lemma ControlArrows(row: byte, col: byte)
    ensures (exists a :: ArrowKey(a) == (row, col)) <==>
            Writes(HandleKey(BUI_STATE_CONTROL, row, col).actions) != []
    ensures forall a :: ArrowKey(a) == (row, col) ==>
            HandleKey(BUI_STATE_CONTROL, row, col).actions == [Write(ArrowWrite(a).0, ArrowWrite(a).1)]
  {
    if (row, col) == (0, 2) {
      assert ArrowKey(Left) == (row, col);
    } else if (row, col) == (0, 1) {
      assert ArrowKey(Down) == (row, col);
    } else if (row, col) == (0, 0) {
      assert ArrowKey(Right) == (row, col);
    } else if (row, col) == (1, 1) {
      assert ArrowKey(Up) == (row, col);
    } else {
      assert forall a :: ArrowKey(a) != (row, col);
      var acts := HandleKey(BUI_STATE_CONTROL, row, col).actions;
      if row == 3 && (col == 3 || col == 2) {
        MenuKeys(BUI_STATE_CONTROL);
      } else {
        assert acts == (if row == 3 then [ClearDisplay] else []);
      }
    }
  }

  /** Outside CONTROL (THOUGHTS, or the initial state 0) no key writes. */
  lemma NoWritesOutsideControl(screen: byte, row: byte, col: byte)
    requires screen != BUI_STATE_CONTROL
    ensures Writes(HandleKey(screen, row, col).actions) == []
  {
    var r := HandleKey(screen, row, col);
    if !(row == 3 && (col == 3 || col == 2)) {
      assert r.actions == (if row == 3 then [ClearDisplay] else []);
    }
    MenuKeys(screen);
  }

  /** A key press issues at most one write, of +1 or -1. */
  lemma AtMostOneUnitWrite(screen: byte, row: byte, col: byte)
    ensures var ws := Writes(HandleKey(screen, row, col).actions);
      |ws| <= 1 && forall k :: 0 <= k < |ws| ==> ws[k].1 == 1 || ws[k].1 == -1
  {
    MenuKeys(screen);
    var r := HandleKey(screen, row, col);
    if !(row == 3 && (col == 3 || col == 2)) {
      var clear: seq<UiAction> := if row == 3 then [ClearDisplay] else [];
      var writes := if screen == BUI_STATE_CONTROL then ControlWrite(row, col) else [];
      assert r.actions == clear + writes;
      ReadsWritesConcat(clear, writes);
    }
  }

  /** A UI message: its event type and the 32-bit union of its data, of
      which the byte and half-word members are the low bits. */
  datatype UiMsg = UiMsg(event: byte, word: uint32)

  /** `KeyPressed(keyEvt)`: the message it queues. */
  function KeyPressed(keyEvt: uint32): (m: UiMsg)
    ensures m.event == BUI_EVT_KEY_PRESSED
    ensures m.word == keyEvt
    ensures DecodeKey(m.word) == DecodeKey(keyEvt)
  {
    UiMsg(BUI_EVT_KEY_PRESSED, keyEvt)
  }

  /** The name shown for a central state, if it has one. */
  function CentralStateName(state: byte): (name: Option<string>)
    ensures name.Some? <==> state in {BC_STATE_IDLE, BC_STATE_INITIALIZING, BC_STATE_SCANNING,
                                     BC_STATE_CONNECTING, BC_STATE_DISC_CHARS, BC_STATE_READY}
  {
    if state == BC_STATE_IDLE then Some("Idle")
    else if state == BC_STATE_INITIALIZING then Some("Initializing")
    else if state == BC_STATE_SCANNING then Some("Scanning")
    else if state == BC_STATE_CONNECTING then Some("Connecting")
    else if state == BC_STATE_DISC_CHARS then Some("Disc chars")
    else if state == BC_STATE_READY then Some("Ready")
    else None
  }

  datatype UiMsgResult = UiMsgResult(step: UiStep, free: FreeDecision)

  /** `BarebotUI_processUIMsg`.  Only the default branch sets `dealloc`;
      on the others it is read uninitialised whenever the data, viewed as
      a pointer, is not NULL. */
  function ProcessUIMsg(screen: byte, m: UiMsg): (r: UiMsgResult)
    ensures r.step.screen != screen ==> m.event == BUI_EVT_KEY_PRESSED
    ensures m.event == BUI_EVT_KEY_PRESSED ==>
              r.step == HandleKey(screen, DecodeKey(m.word).0, DecodeKey(m.word).1)
    ensures (m.event == BUI_EVT_SPEED_CHANGED || m.event == BUI_EVT_TURN_CHANGED) ==>
              (r.step.actions != [] <==> screen == BUI_STATE_CONTROL)
    ensures m.event == BUI_EVT_CENTRAL_STATE_CHANGED ==>
              && |r.step.actions| >= 1
              && r.step.actions[0] == ClearDisplay
              && (|r.step.actions| == 2 <==> CentralStateName(m.word % 0x100).Some?)
    ensures r.free != Freed
    ensures r.free == Undefined <==>
              m.word != 0 && 1 <= m.event <= 4
  {
    var known := m.event in {BUI_EVT_KEY_PRESSED, BUI_EVT_SPEED_CHANGED,
                             BUI_EVT_TURN_CHANGED, BUI_EVT_CENTRAL_STATE_CHANGED};
    var free := if m.word != 0 && known then Undefined else Kept;
    var step :=
      if m.event == BUI_EVT_KEY_PRESSED then
        var rc := DecodeKey(m.word);
        HandleKey(screen, rc.0, rc.1)
      else if m.event == BUI_EVT_SPEED_CHANGED || m.event == BUI_EVT_TURN_CHANGED then
        var row := if m.event == BUI_EVT_SPEED_CHANGED then 1 else 2;
        if screen == BUI_STATE_CONTROL
        then UiStep(screen, [PrintNumber(row, 8, 4, AsInt16(m.word % 0x1_0000))])
        else UiStep(screen, [])
      else if m.event == BUI_EVT_CENTRAL_STATE_CHANGED then
        match CentralStateName(m.word % 0x100)
        case Some(name) => UiStep(screen, [ClearDisplay, Display(0, 0, name, 16)])
        case None => UiStep(screen, [ClearDisplay])
      else UiStep(screen, []);
    UiMsgResult(step, free)
  }

  /** A key press queued by `KeyPressed` for a (row, col) key reaches
      `BarebotUI_handleKey` as that same key; upper bits of the key word
      are dropped on the way. */
  lemma KeyPressReachesHandleKey(screen: byte, row: byte, col: byte, upper: nat)
    requires KeyWord(row, col) + upper * 0x1_0000 < 0x1_0000_0000
    ensures ProcessUIMsg(screen, KeyPressed(KeyWord(row, col) + upper * 0x1_0000)).step
            == HandleKey(screen, row, col)
  {
    DecodeKeyDropsUpperBits(row, col, upper);
  }

  /** The screen state changes only through the two menu keys: for any
      run of messages, the final screen is the start screen or the one
      the last menu key selected. */
  function RunUI(screen: byte, ms: seq<UiMsg>): (s: byte)
    decreases |ms|
  {
    if ms == [] then screen else RunUI(ProcessUIMsg(screen, ms[0]).step.screen, ms[1..])
  }

  lemma {:induction false} RunUIScreens(screen: byte, ms: seq<UiMsg>)
    ensures var s := RunUI(screen, ms);
      s == screen || s == BUI_STATE_CONTROL || s == BUI_STATE_THOUGHTS
    ensures (forall k :: 0 <= k < |ms| ==> ms[k].event != BUI_EVT_KEY_PRESSED) ==>
              RunUI(screen, ms) == screen
    decreases |ms|
  {
    if ms != [] {
      var s' := ProcessUIMsg(screen, ms[0]).step.screen;
      RunUIScreens(s', ms[1..]);
      if s' != screen {
        var rc := DecodeKey(ms[0].word);
        assert rc.0 == 3 && (rc.1 == 3 || rc.1 == 2);
      }
      if forall k :: 0 <= k < |ms| ==> ms[k].event != BUI_EVT_KEY_PRESSED {
        assert forall k :: 0 <= k < |ms[1..]| ==> ms[1..][k] == ms[k + 1];
      }
    }
  }
}
