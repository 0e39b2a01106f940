/** The two peripheral tasks, blinker_peripheral.c and
    barebot_peripheral.c, whose GAP handling is the same code: two
    advertising sets (legacy and long range) that run while there is no
    connection, one remembered connection handle, the system ID built
    from the device address, the advertising callback and the
    "free the payload iff the handler says so" rule of the message loop.
    The two tasks differ in the initial connection handle and in their
    characteristic-change handlers. */
module Peripheral {
  import opened Types
  import opened MsgQueue
  import opened BleEvents

  /** Advertising event for which the stack passes no buffer
      (GAP_EVT_INSUFFICIENT_MEMORY). */
  const GAP_EVT_INSUFFICIENT_MEMORY: bv32 := 1 << 31

  /** Notification handle the blinker hard-codes for the green toggle. */
  const GREEN_TOGGLE_HANDLE: uint16 := 37

  datatype AdvSet = Legacy | LongRange

  datatype PeripheralAction =
    | SetSystemId(id: seq<byte>)
    | AdvCreate(advSet: AdvSet)
    | AdvLoadData(advSet: AdvSet)
    | AdvLoadScanRsp(advSet: AdvSet)
    | AdvSetEventMask(advSet: AdvSet)
    | AdvEnable(advSet: AdvSet)
    | AdvDisable(advSet: AdvSet)
    /** GATT_bm_free of a GATT message's payload */
    | FreeGattPayload
    /** ICall_free of the stack's buffer of an advertising event */
    | FreeAdvBuffer
    /** GATT_Notification(curr_conn_handle, {handle, ...}) */
    | Notify(connHandle: uint16, attrHandle: uint16)
    /** GetParameter of a characteristic, then the LED set to its value */
    | SetRedLed(value: byte)
    | SetGreenLed(value: byte)
    /** SetParameter(SPEED, 1, &newValue) */
    | SetSpeed(value: byte)

  datatype PeripheralState = PeripheralState(connHandle: uint16)

  /** blinker_peripheral.c initialises the handle to "no connection". */
  const BlinkerInitial: PeripheralState := PeripheralState(LINKDB_CONNHANDLE_INVALID)
  /** barebot_peripheral.c leaves it without initialiser: 0. */
  const BarebotInitial: PeripheralState := PeripheralState(0)

  datatype Step = Step(state: PeripheralState, actions: seq<PeripheralAction>)

  // ---------------------------------------------------------------------
  // System ID

  /** The 8-byte system ID of the Device Information Service built from
      the device address: address bytes 0-2, two zero bytes, address
      bytes 3-5. */
  function SystemId(addr: DevAddr): (id: seq<byte>)
    ensures |id| == 8
  {
    addr[..3] + [0, 0] + addr[3..]
  }

  /** The address a system ID of this shape was built from. */
  function AddrOfSystemId(id: seq<byte>): (addr: DevAddr)
    requires |id| == 8
  {
    id[..3] + id[5..]
  }

  lemma SystemIdLayout(addr: DevAddr)
    ensures var id := SystemId(addr);
      && (forall k :: 0 <= k < 3 ==> id[k] == addr[k])
      && id[3] == 0 && id[4] == 0
      && (forall k :: 5 <= k < 8 ==> id[k] == addr[k - 2])
  {
  }

  /** The system ID loses nothing of the address, and every 8-byte
      value with zeros in bytes 3 and 4 is the system ID of exactly one
      address. */
  lemma SystemIdRoundTrip(addr: DevAddr, id: seq<byte>)
    ensures AddrOfSystemId(SystemId(addr)) == addr
    ensures |id| == 8 && id[3] == 0 && id[4] == 0 ==> SystemId(AddrOfSystemId(id)) == id
  {
    assert SystemId(addr)[..3] == addr[..3];
    assert SystemId(addr)[5..] == addr[3..];
    assert addr == addr[..3] + addr[3..];
    if |id| == 8 && id[3] == 0 && id[4] == 0 {
      var a := AddrOfSystemId(id);
      assert a[..3] == id[..3] && a[3..] == id[5..];
      assert id == id[..3] + [id[3], id[4]] + id[5..];
    }
  }

  // ---------------------------------------------------------------------
  // GAP messages

  /** Creating an advertising set, loading its data (and, for the
      legacy set, its scan response) and setting its event mask. */
  function ConfigureSet(a: AdvSet, scanRsp: bool): (acts: seq<PeripheralAction>)
    ensures forall k :: 0 <= k < |acts| ==> !acts[k].AdvEnable? && !acts[k].AdvDisable?
  {
    [AdvCreate(a), AdvLoadData(a)] + (if scanRsp then [AdvLoadScanRsp(a)] else []) + [AdvSetEventMask(a)]
  }

  /** The calls made once GAP initialisation succeeded (every BP_VERIFY
      call succeeding): the system ID, then the legacy set configured and
      enabled, then the long-range set. */
  function StartAdvertising(addr: DevAddr): (acts: seq<PeripheralAction>)
  {
    [SetSystemId(SystemId(addr))]
    + ConfigureSet(Legacy, true) + [AdvEnable(Legacy)]
    + ConfigureSet(LongRange, false) + [AdvEnable(LongRange)]
  }

  /** `processGapMessage` of either peripheral. */
  function ProcessGapMessage(s: PeripheralState, e: GapEvent): (r: Step)
    ensures r.state.connHandle == TrackLink(s.connHandle, e)
    ensures e.InitDone? ==> r.state == s
    ensures e.InitDone? && e.status == SUCCESS ==> r.actions == StartAdvertising(e.devAddr)
    ensures e.LinkEstablished? ==>
              r.actions == (if e.status == SUCCESS then [AdvDisable(LongRange), AdvDisable(Legacy)] else [])
    ensures e.LinkTerminated? ==>
              r.actions == (if e.connHandle == s.connHandle then [AdvEnable(Legacy), AdvEnable(LongRange)] else [])
    ensures (e.InitDone? && e.status != SUCCESS) || e.OtherGap? ==> r == Step(s, [])
  {
    match e
    case InitDone(status, addr) =>
      if status == SUCCESS then Step(s, StartAdvertising(addr)) else Step(s, [])
    case LinkEstablished(status, c) =>
      if status == SUCCESS then Step(PeripheralState(c), [AdvDisable(LongRange), AdvDisable(Legacy)])
      else Step(s, [])
    case LinkTerminated(c) =>
      if s.connHandle == c then
        Step(PeripheralState(LINKDB_CONNHANDLE_INVALID), [AdvEnable(Legacy), AdvEnable(LongRange)])
      else Step(s, [])
    case OtherGap => Step(s, [])
  }

  /** The advertising sets enabled after a run of actions. */
  function Enabled(on: set<AdvSet>, acts: seq<PeripheralAction>): (r: set<AdvSet>)
    decreases |acts|
  {
    if acts == [] then on
    else
      var on' := match acts[0]
        case AdvEnable(a) => on + {a}
        case AdvDisable(a) => on - {a}
        case _ => on;
      Enabled(on', acts[1..])
  }

  /** The peripheral advertises exactly while it has no connection. */
  predicate AdvertisesIffIdle(s: PeripheralState, on: set<AdvSet>)
  {
    if Connected(s.connHandle) then on == {} else on == {Legacy, LongRange}
  }

  /** The stack reports real connection handles only. */
  predicate StackEvent(e: GapEvent)
  {
    (e.LinkEstablished? ==> e.connHandle != LINKDB_CONNHANDLE_INVALID) && !e.InitDone?
  }

  /** After the advertising start-up, every link event keeps both
      advertising sets running exactly while there is no connection. */
  lemma LinkEventsKeepAdvertisingIffIdle(s: PeripheralState, on: set<AdvSet>, e: GapEvent)
    requires AdvertisesIffIdle(s, on) && StackEvent(e)
    ensures var r := ProcessGapMessage(s, e);
      AdvertisesIffIdle(r.state, Enabled(on, r.actions))
  {
    var r := ProcessGapMessage(s, e);
    if r.actions != [] {
      assert r.actions[1..][1..] == [];
    }
  }

  lemma {:induction false} EnabledConcat(on: set<AdvSet>, a: seq<PeripheralAction>, b: seq<PeripheralAction>)
    ensures Enabled(on, a + b) == Enabled(Enabled(on, a), b)
    decreases |a|
  {
    if a == [] {
      assert a + b == b;
    } else {
      assert (a + b)[0] == a[0];
      assert (a + b)[1..] == a[1..] + b;
      var on' := match a[0]
        case AdvEnable(x) => on + {x}
        case AdvDisable(x) => on - {x}
        case _ => on;
      EnabledConcat(on', a[1..], b);
    }
  }

  /** Actions other than enable and disable leave the enabled sets alone. */
  lemma {:induction false} EnabledIgnoresOtherActions(on: set<AdvSet>, acts: seq<PeripheralAction>)
    requires forall k :: 0 <= k < |acts| ==> !acts[k].AdvEnable? && !acts[k].AdvDisable?
    ensures Enabled(on, acts) == on
    decreases |acts|
  {
    if acts != [] {
      EnabledIgnoresOtherActions(on, acts[1..]);
    }
  }

  /** The start-up enables both advertising sets. */
  lemma StartAdvertisingEnablesBoth(on: set<AdvSet>, addr: DevAddr)
    ensures Enabled(on, StartAdvertising(addr)) == on + {Legacy, LongRange}
  {
    var p0: seq<PeripheralAction> := [SetSystemId(SystemId(addr))];
    var p1 := ConfigureSet(Legacy, true);
    var p2: seq<PeripheralAction> := [AdvEnable(Legacy)];
    var p3 := ConfigureSet(LongRange, false);
    var p4: seq<PeripheralAction> := [AdvEnable(LongRange)];
    EnabledIgnoresOtherActions(on, p0);
    EnabledIgnoresOtherActions(on, p1);
    EnabledIgnoresOtherActions(on + {Legacy}, p3);
    EnabledConcat(on, p0, p1);
    EnabledConcat(on, p0 + p1, p2);
    EnabledConcat(on, p0 + p1 + p2, p3);
    EnabledConcat(on, p0 + p1 + p2 + p3, p4);
  }

  /** The blinker starts without a connection, and the start-up enables
      both sets: from there on it advertises exactly while idle. */
  lemma BlinkerStartsAdvertisingIdle(addr: DevAddr)
    ensures var r := ProcessGapMessage(BlinkerInitial, InitDone(SUCCESS, addr));
      AdvertisesIffIdle(r.state, Enabled({}, r.actions))
  {
    StartAdvertisingEnablesBoth({}, addr);
  }

  /** The barebot's handle starts at 0, so before any link a
      termination report for handle 0 is taken for its own link and
      enables both sets again although they already run; the blinker,
      starting from "no connection", ignores the same report. */
  lemma BarebotTerminationOfHandleZeroMatches()
    ensures ProcessGapMessage(BarebotInitial, LinkTerminated(0)) ==
            Step(PeripheralState(LINKDB_CONNHANDLE_INVALID), [AdvEnable(Legacy), AdvEnable(LongRange)])
    ensures ProcessGapMessage(BlinkerInitial, LinkTerminated(0)) == Step(BlinkerInitial, [])
  {
  }

  // ---------------------------------------------------------------------
  // Stack messages

  datatype StackOutcome = Returned(step: Step, safeToDealloc: bool) | Spins

  /** `processStackMsg` of either peripheral: GATT messages only have
      their payload freed. */
  function ProcessStackMsg(s: PeripheralState, m: StackMsg): (r: StackOutcome)
    ensures r.Spins? <==> m.HciGapEvent? && m.status == HCI_BLE_HARDWARE_ERROR_EVENT_CODE
    ensures r.Returned? ==> r.safeToDealloc
    ensures m.GattMsg? ==> r == Returned(Step(s, [FreeGattPayload]), true)
    ensures m.GapMsg? ==> r == Returned(ProcessGapMessage(s, m.gap), true)
    ensures r.Returned? && !m.GapMsg? ==> r.step.state == s
  {
    match m
    case GapMsg(e) => Returned(ProcessGapMessage(s, e), true)
    case GattMsg => Returned(Step(s, [FreeGattPayload]), true)
    case HciGapEvent(status) =>
      if status == HCI_BLE_HARDWARE_ERROR_EVENT_CODE then Spins else Returned(Step(s, []), true)
    case OtherStackMsg => Returned(Step(s, []), true)
  }

  /** The task's connection handle and enabled advertising sets. */
  datatype Running = Running(state: PeripheralState, on: set<AdvSet>)

  /** The task after a run of stack messages, each freed after dispatch,
      or None once one of them makes the task spin. */
  function RunStack(s: PeripheralState, on: set<AdvSet>, ms: seq<StackMsg>): (r: Option<Running>)
    decreases |ms|
  {
    if ms == [] then Some(Running(s, on))
    else match ProcessStackMsg(s, ms[0])
      case Spins => None
      case Returned(step, _) => RunStack(step.state, Enabled(on, step.actions), ms[1..])
  }

  /** After the start-up, over any run of stack messages the task keeps
      running iff no hardware error arrives; it then advertises exactly
      while it has no connection, and its handle is the shared link
      bookkeeping's handle over the GAP events of the run. */
  lemma {:induction false} RunStackKeepsAdvertisingIffIdle(s: PeripheralState, on: set<AdvSet>, ms: seq<StackMsg>)
    requires AdvertisesIffIdle(s, on)
    requires forall i :: 0 <= i < |ms| && ms[i].GapMsg? ==> StackEvent(ms[i].gap)
    ensures RunStack(s, on, ms).Some? <==> forall i :: 0 <= i < |ms| ==> !IsHardwareError(ms[i])
    ensures RunStack(s, on, ms).Some? ==>
              && AdvertisesIffIdle(RunStack(s, on, ms).value.state, RunStack(s, on, ms).value.on)
              && RunStack(s, on, ms).value.state.connHandle == TrackLinks(s.connHandle, GapEvents(ms))
    decreases |ms|
  {
    if ms != [] {
      match ProcessStackMsg(s, ms[0])
      case Spins =>
        assert IsHardwareError(ms[0]);
      case Returned(step, _) =>
        assert forall i :: 1 <= i < |ms| ==> ms[i] == ms[1..][i - 1];
        if ms[0].GapMsg? {
          LinkEventsKeepAdvertisingIffIdle(s, on, ms[0].gap);
          var es := [ms[0].gap] + GapEvents(ms[1..]);
          assert es[1..] == GapEvents(ms[1..]);
          assert GapEvents(ms) == es;
          assert TrackLinks(s.connHandle, es) == TrackLinks(step.state.connHandle, es[1..]);
        } else {
          EnabledIgnoresOtherActions(on, step.actions);
          assert GapEvents(ms) == GapEvents(ms[1..]);
        }
        RunStackKeepsAdvertisingIffIdle(step.state, Enabled(on, step.actions), ms[1..]);
    }
  }

  // ---------------------------------------------------------------------
  // updateGreen

  /** `BlinkerPeripheral_updateGreen`: queues a green-toggle message
      (event `greenToggle`, byte data 0) only while connected.
      BP_GREEN_TOGGLE's value is not part of this model, so it is a
      parameter; `allocOk` and `accepted` are the environment's answers
      inside `enqueueMsg`. */
  function UpdateGreen(s: PeripheralState, q: seq<Msg<byte>>, greenToggle: byte,
                       allocOk: bool, accepted: bool): (r: seq<Msg<byte>>)
    ensures !Connected(s.connHandle) ==> r == q
    ensures Connected(s.connHandle) && allocOk && accepted ==> r == q + [Msg(greenToggle, 0)]
    ensures r == q || r == q + [Msg(greenToggle, 0)]
  {
    if s.connHandle == LINKDB_CONNHANDLE_INVALID then q
    else Enqueue(q, greenToggle, 0, allocOk, accepted).queue
  }

  /** A green toggle can be queued only while a link is recorded; after
      the link ends, no further toggle is queued. */
  lemma NoGreenToggleAfterDisconnect(s: PeripheralState, c: uint16, q: seq<Msg<byte>>,
                                     greenToggle: byte, allocOk: bool, accepted: bool)
    requires s.connHandle == c
    ensures var s' := ProcessGapMessage(s, LinkTerminated(c)).state;
      UpdateGreen(s', q, greenToggle, allocOk, accepted) == q
  {
  }

  // ---------------------------------------------------------------------
  // Message data ownership

  /** After dispatch, the message loop frees the data iff its pointer is
      non-NULL and the handler returned TRUE; `dealloc == None` is a
      handler path that leaves the flag uninitialised. */
  function FreeAfterDispatch(dataNonNull: bool, dealloc: Option<bool>): (f: FreeDecision)
    ensures f == Freed <==> dataNonNull && dealloc == Some(true)
    ensures f == Undefined <==> dataNonNull && dealloc == None
  {
    if !dataNonNull then Kept
    else match dealloc
      case None => Undefined
      case Some(d) => if d then Freed else Kept
  }

  /** `processAdvEvent`: frees the stack's buffer unless the event is
      an insufficient-memory event, and always returns TRUE. */
  function ProcessAdvEvent(event: bv32): (r: (seq<PeripheralAction>, bool))
    ensures r.1
    ensures r.0 == [FreeAdvBuffer] <==> event != GAP_EVT_INSUFFICIENT_MEMORY
    ensures r.0 == [] <==> event == GAP_EVT_INSUFFICIENT_MEMORY
  {
    if event != GAP_EVT_INSUFFICIENT_MEMORY then ([FreeAdvBuffer], true) else ([], true)
  }

  /** The data of a queued advertising event: the event code and the
      stack's buffer. */
  datatype AdvEventData<B> = AdvEventData(event: bv32, pBuf: B)

  datatype AdvCbResult<B> = AdvCbResult(queue: seq<Msg<AdvEventData<B>>>, dataAllocated: bool, freed: bool)

  /** `advCallback(event, pBuf, arg)`: allocate the event data
      (`dataAllocOk`), and queue it as `advEvt`; the data is freed again
      if `enqueueMsg` does not return SUCCESS. */
  function AdvCallback<B>(event: bv32, pBuf: B, q: seq<Msg<AdvEventData<B>>>, advEvt: byte,
                          dataAllocOk: bool, msgAllocOk: bool, accepted: bool): (r: AdvCbResult<B>)
    ensures r.dataAllocated == dataAllocOk
    ensures !dataAllocOk ==> r == AdvCbResult(q, false, false)
    ensures dataAllocOk ==>
              r.queue == Enqueue(q, advEvt, AdvEventData(event, pBuf), msgAllocOk, accepted).queue
    ensures r.freed <==> dataAllocOk && !(msgAllocOk && accepted)
    ensures r.freed ==> r.queue == q
  {
    if !dataAllocOk then AdvCbResult(q, false, false)
    else
      var e := Enqueue(q, advEvt, AdvEventData(event, pBuf), msgAllocOk, accepted);
      AdvCbResult(e.queue, true, e.status != SUCCESS)
  }

  /** No leak on the callback's path: event data it allocated is either
      queued (exactly once, at the tail) or freed, never both. */
  lemma AdvCallbackNoLeak<B>(event: bv32, pBuf: B, q: seq<Msg<AdvEventData<B>>>, advEvt: byte,
                             dataAllocOk: bool, msgAllocOk: bool, accepted: bool)
    requires dataAllocOk
    ensures var r := AdvCallback(event, pBuf, q, advEvt, dataAllocOk, msgAllocOk, accepted);
      (r.queue == q + [Msg(advEvt, AdvEventData(event, pBuf))]) != r.freed
  {
    var r := AdvCallback(event, pBuf, q, advEvt, dataAllocOk, msgAllocOk, accepted);
    if r.freed {
      assert |r.queue| == |q|;
    }
  }

  /** An advertising event that made it into the queue is released
      completely once the loop has dispatched it: the stack's buffer is
      freed unless there is none, and the event data is freed. */
  lemma QueuedAdvEventIsReleased(event: bv32)
    ensures var (acts, dealloc) := ProcessAdvEvent(event);
      FreeAfterDispatch(true, Some(dealloc)) == Freed
      && (FreeAdvBuffer in acts <==> event != GAP_EVT_INSUFFICIENT_MEMORY)
  {
  }

  // ---------------------------------------------------------------------
  // Blinker application messages

  /** The blinker's application messages.  Their event codes
      (BP_CHAR_CHANGE_EVT, BP_ADV_EVT, BP_GREEN_TOGGLE) and the LED
      characteristic IDs are not part of this model, so messages are
      given by kind. */
  datatype BlinkerMsg =
    | CharChange(charId: byte)
    | AdvEvt(event: bv32)
    | GreenToggle
    | OtherAppMsg

  datatype AppResult = AppResult(actions: seq<PeripheralAction>, free: FreeDecision)

  /** `BlinkerPeripheral_processCharValueChangeEvt`: sets the LED whose
      characteristic changed to its new value (`value`, what
      GetParameter yields) and returns FALSE. */
  function BlinkerCharChange(charId: byte, redId: byte, greenId: byte, value: byte): (r: (seq<PeripheralAction>, bool))
    requires redId != greenId
    ensures !r.1
    ensures charId == redId ==> r.0 == [SetRedLed(value)]
    ensures charId == greenId ==> r.0 == [SetGreenLed(value)]
    ensures charId != redId && charId != greenId ==> r.0 == []
  {
    if charId == redId then ([SetRedLed(value)], false)
    else if charId == greenId then ([SetGreenLed(value)], false)
    else ([], false)
  }

  /** The two LEDs of the blinker board. */
  datatype Leds = Leds(red: byte, green: byte)

  /** The LEDs after a run of actions: only the LED-setting actions
      change them. */
  function ApplyLeds(l: Leds, acts: seq<PeripheralAction>): (r: Leds)
    decreases |acts|
  {
    if acts == [] then l
    else
      var l' := match acts[0]
        case SetRedLed(v) => l.(red := v)
        case SetGreenLed(v) => l.(green := v)
        case _ => l;
      ApplyLeds(l', acts[1..])
  }

  /** A characteristic change lights the LED of that characteristic with
      the new value and leaves the other LED alone; a change of any
      other characteristic leaves both alone. */
  lemma BlinkerCharChangeSetsItsLed(l: Leds, charId: byte, redId: byte, greenId: byte, value: byte)
    requires redId != greenId
    ensures var l' := ApplyLeds(l, BlinkerCharChange(charId, redId, greenId, value).0);
      && l'.red == (if charId == redId then value else l.red)
      && l'.green == (if charId == greenId then value else l.green)
  {
  }

  /** The value most recently written to characteristic `id` in a run
      of (characteristic, value) changes, or `d` if there is none. */
  function LastValue(cs: seq<(byte, byte)>, id: byte, d: byte): (v: byte)
    decreases |cs|
  {
    if cs == [] then d
    else if cs[|cs| - 1].0 == id then cs[|cs| - 1].1
    else LastValue(cs[..|cs| - 1], id, d)
  }

  /** The LEDs after the handler has processed a run of characteristic
      changes in order. */
  function RunCharChanges(l: Leds, cs: seq<(byte, byte)>, redId: byte, greenId: byte): (r: Leds)
    requires redId != greenId
    decreases |cs|
  {
    if cs == [] then l
    else
      var last := cs[|cs| - 1];
      ApplyLeds(RunCharChanges(l, cs[..|cs| - 1], redId, greenId),
                BlinkerCharChange(last.0, redId, greenId, last.1).0)
  }

  /** Each LED mirrors its characteristic: after any run of changes it
      shows the value last written to that characteristic, or what it
      showed before if the characteristic was not written. */
  lemma {:induction false} LedsMirrorCharacteristics(l: Leds, cs: seq<(byte, byte)>, redId: byte, greenId: byte)
    requires redId != greenId
    ensures var r := RunCharChanges(l, cs, redId, greenId);
      r.red == LastValue(cs, redId, l.red) && r.green == LastValue(cs, greenId, l.green)
    decreases |cs|
  {
    if cs != [] {
      var last := cs[|cs| - 1];
      LedsMirrorCharacteristics(l, cs[..|cs| - 1], redId, greenId);
      BlinkerCharChangeSetsItsLed(RunCharChanges(l, cs[..|cs| - 1], redId, greenId), last.0, redId, greenId, last.1);
    }
  }

  /** `BlinkerPeripheral_processAppMsg`.  An advertising event's data
      is dereferenced before the NULL test, so it must be non-NULL;
      `advCallback` queues only allocated data. */
  function BlinkerProcessAppMsg(s: PeripheralState, m: BlinkerMsg, dataNonNull: bool,
                                redId: byte, greenId: byte, value: byte): (r: AppResult)
    requires redId != greenId
    requires m.AdvEvt? ==> dataNonNull
    ensures m.CharChange? ==> r.free == Kept
    ensures m.AdvEvt? || m.OtherAppMsg? ==> (r.free == Freed <==> dataNonNull)
    ensures m.GreenToggle? ==>
              r.actions == [Notify(s.connHandle, GREEN_TOGGLE_HANDLE)]
              && (r.free == Undefined <==> dataNonNull)
    ensures r.free != Undefined <==> !m.GreenToggle? || !dataNonNull
  {
    match m
    case CharChange(id) =>
      var (acts, d) := BlinkerCharChange(id, redId, greenId, value);
      AppResult(acts, FreeAfterDispatch(dataNonNull, Some(d)))
    case AdvEvt(ev) =>
      var (acts, d) := ProcessAdvEvent(ev);
      AppResult(acts, FreeAfterDispatch(dataNonNull, Some(d)))
    case GreenToggle =>
      AppResult([Notify(s.connHandle, GREEN_TOGGLE_HANDLE)], FreeAfterDispatch(dataNonNull, None))
    case OtherAppMsg =>
      AppResult([], FreeAfterDispatch(dataNonNull, Some(true)))
  }

  // ---------------------------------------------------------------------
  // Barebot application messages

  /** Application event codes of the barebot server
      (barebot_peripheral.h). */
  const BS_BUTTON_PRESSED: byte := 1
  const BS_CHAR_CHANGE_EVT: byte := 2
  const BS_ADV_EVT: byte := 3

  /** Adds `delta` to a speed byte read as int8_t, wrapping like the
      target's int8_t arithmetic, and gives back the byte written. */
  function StepSpeed(speed: byte, delta: int): (b: byte)
    ensures AsInt8(b) == WrapInt8(AsInt8(speed) + delta)
    ensures (b - speed - delta) % 0x100 == 0
  {
    Int8Bits(WrapInt8(AsInt8(speed) + delta))
  }

  /** `BarebotPeripheral_processCharValueChangeEvt`: for SPEED_UP or
      SPEED_DOWN it reads the speed as int8_t (`speed`, the byte
      GetParameter yields), adds or subtracts one and writes one byte
      back; it always returns FALSE.  The two IDs are not part of this
      model, so they are parameters. */
  function BarebotCharChange(charId: byte, speedUpId: byte, speedDownId: byte, speed: byte): (r: (seq<PeripheralAction>, bool))
    requires speedUpId != speedDownId
    ensures !r.1
    ensures charId == speedUpId ==> r.0 == [SetSpeed(StepSpeed(speed, 1))]
    ensures charId == speedDownId ==> r.0 == [SetSpeed(StepSpeed(speed, -1))]
    ensures charId != speedUpId && charId != speedDownId ==> r.0 == []
  {
    if charId == speedUpId then ([SetSpeed(StepSpeed(speed, 1))], false)
    else if charId == speedDownId then ([SetSpeed(StepSpeed(speed, -1))], false)
    else ([], false)
  }

  /** Speed up and speed down undo each other on every speed byte,
      including across the int8_t wrap-around. */
  lemma SpeedUpDownInverse(speed: byte)
    ensures StepSpeed(StepSpeed(speed, 1), -1) == speed
    ensures StepSpeed(StepSpeed(speed, -1), 1) == speed
  {
    var v := AsInt8(speed);
    Int8RoundTrip(speed, v);
    if v == 127 {
      assert StepSpeed(speed, 1) == 0x80;
      assert WrapInt8(-129) == 127;
    } else {
      assert WrapInt8(v + 1) == v + 1;
      Int8RoundTrip(0, v + 1);
    }
    if v == -128 {
      assert StepSpeed(speed, -1) == 0x7F;
      assert WrapInt8(128) == -128;
    } else {
      assert WrapInt8(v - 1) == v - 1;
      Int8RoundTrip(0, v - 1);
    }
  }

  /** One step up from the largest int8_t speed wraps to the smallest. */
  lemma SpeedUpWraps()
    ensures StepSpeed(0x7F, 1) == 0x80
    ensures AsInt8(StepSpeed(0x7F, 1)) == -128
  {
  }

  /** `BarebotPeripheral_processAppMsg`.  An advertising event's data
      is dereferenced before the NULL test, so it must be non-NULL;
      `advCallback` queues only allocated data. */
  function BarebotProcessAppMsg(event: byte, charId: byte, advEvent: bv32, dataNonNull: bool,
                                speedUpId: byte, speedDownId: byte, speed: byte): (r: AppResult)
    requires speedUpId != speedDownId
    requires event == BS_ADV_EVT ==> dataNonNull
    ensures r.free != Undefined
    ensures r.free == Freed <==> dataNonNull && event != BS_CHAR_CHANGE_EVT
    ensures event == BS_ADV_EVT ==> r.actions == ProcessAdvEvent(advEvent).0
    ensures event != BS_ADV_EVT && event != BS_CHAR_CHANGE_EVT ==> r.actions == []
  {
    if event == BS_CHAR_CHANGE_EVT then
      var (acts, d) := BarebotCharChange(charId, speedUpId, speedDownId, speed);
      AppResult(acts, FreeAfterDispatch(dataNonNull, Some(d)))
    else if event == BS_ADV_EVT then
      var (acts, d) := ProcessAdvEvent(advEvent);
      AppResult(acts, FreeAfterDispatch(dataNonNull, Some(d)))
    else AppResult([], FreeAfterDispatch(dataNonNull, Some(true)))
  }
}
