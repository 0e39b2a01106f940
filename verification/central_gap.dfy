/** The barebot remote's central task (barebot_central.c): GAP message
    handling with its single connection handle, the scanner callback and
    the dispatch of stack messages.  Calls into the stack and the display
    are the actions the handlers emit, in call order. */
module CentralGap {
  import opened Types
  import opened MsgQueue
  import opened BleEvents

  /** Scanner event bit for advertising reports (GAP_EVT_ADV_REPORT). */
  const GAP_EVT_ADV_REPORT: bv32 := 1 << 22
  /** The application event the scan callback queues (barebot_central.h). */
  const BC_EVT_ADV_REPORT: byte := 1

  datatype CentralAction =
    | RegisterScanCb
    | SetScanEventMask(mask: bv32)
    /** GapScan_setPhyParams, the four GapScan_setParam calls and the two
        GapInit_setPhyParam calls, whose arguments are build settings. */
    | ConfigureScanAndInit
    | ScanEnable
    | ScanDisable
    | Display(row: nat, col: nat, text: string)

  /** The task's state: the handle of its one connection. */
  datatype CentralState = CentralState(connHandle: uint16)

  /** `curr_conn_handle` is a static without initialiser, so it starts
      at 0, which is not LINKDB_CONNHANDLE_INVALID. */
  const Initial: CentralState := CentralState(0)

  datatype Step = Step(state: CentralState, actions: seq<CentralAction>)

  /** `BarebotCentral_processGapMessage`. */
  function ProcessGapMessage(s: CentralState, e: GapEvent): (r: Step)
    ensures r.state.connHandle == TrackLink(s.connHandle, e)
    ensures e.InitDone? && e.status != SUCCESS ==> r == Step(s, [])
    ensures e.InitDone? && e.status == SUCCESS ==>
              && r.state == s
              && |r.actions| >= 4
              && r.actions[0] == RegisterScanCb
              && r.actions[1] == SetScanEventMask(GAP_EVT_ADV_REPORT)
              && r.actions[|r.actions| - 2..] == [ScanEnable, Display(0, 0, "Scanning...")]
    ensures e.LinkEstablished? ==>
              r.actions == (if e.status == SUCCESS then [ScanDisable, Display(1, 0, "stop scan")] else [])
    ensures e.LinkTerminated? ==>
              r.actions == (if e.connHandle == s.connHandle then [ScanEnable] else [])
    ensures e.OtherGap? ==> r == Step(s, [])
  {
    match e
    case InitDone(status, _) =>
      if status != SUCCESS then Step(s, [])
      else Step(s, [RegisterScanCb, SetScanEventMask(GAP_EVT_ADV_REPORT), ConfigureScanAndInit,
                    ScanEnable, Display(0, 0, "Scanning...")])
    case LinkEstablished(status, c) =>
      if status == SUCCESS then Step(CentralState(c), [ScanDisable, Display(1, 0, "stop scan")])
      else Step(s, [])
    case LinkTerminated(c) =>
      if s.connHandle == c then Step(CentralState(LINKDB_CONNHANDLE_INVALID), [ScanEnable])
      else Step(s, [])
    case OtherGap => Step(s, [])
  }

  /** Scanning is stopped exactly when a connection is recorded and
      restarted exactly when that connection goes away: the handler
      disables scanning iff the handle becomes a link's handle, and
      enables it after a link iff the handle becomes "no connection". */
  lemma ScanFollowsConnection(s: CentralState, e: GapEvent)
    requires !e.InitDone?
    ensures var r := ProcessGapMessage(s, e);
      (ScanDisable in r.actions <==> e.LinkEstablished? && r.state.connHandle == e.connHandle && e.status == SUCCESS)
      && (ScanEnable in r.actions <==> e.LinkTerminated? && s.connHandle == e.connHandle)
      && (ScanEnable in r.actions ==> r.state.connHandle == LINKDB_CONNHANDLE_INVALID)
  {
  }

  /** Before any link exists the stored handle is 0, so a termination
      report for handle 0 is taken for the task's own link: it restarts
      scanning although no link was made. */
  lemma TerminationOfHandleZeroMatchesInitially()
    ensures ProcessGapMessage(Initial, LinkTerminated(0)) ==
            Step(CentralState(LINKDB_CONNHANDLE_INVALID), [ScanEnable])
  {
  }

  /** The task's handle after a run of GAP messages. */
  function RunGap(s: CentralState, es: seq<GapEvent>): (r: CentralState)
    decreases |es|
  {
    if es == [] then s else RunGap(ProcessGapMessage(s, es[0]).state, es[1..])
  }

  /** Running the handler over a sequence of messages keeps the handle
      the shared link bookkeeping keeps, so the provenance lemma of that
      bookkeeping applies to the central. */
  lemma {:induction false} RunGapTracksLinks(s: CentralState, es: seq<GapEvent>)
    ensures RunGap(s, es).connHandle == TrackLinks(s.connHandle, es)
    ensures var h := RunGap(s, es).connHandle;
      h == s.connHandle || h == LINKDB_CONNHANDLE_INVALID || EstablishedIn(es, h)
    decreases |es|
  {
    if es != [] {
      RunGapTracksLinks(ProcessGapMessage(s, es[0]).state, es[1..]);
    }
    TrackLinksProvenance(s.connHandle, es);
  }

  datatype ScanCbResult<D> = ScanCbResult(queue: seq<Msg<D>>, freed: bool)

  /** `BarebotCentral_scanCb(evt, pMsg, arg)`: `q` is the task's queue,
      `allocOk` and `accepted` the environment's answers inside
      `BarebotCentral_enqueueMsg`; `freed` says whether the report was
      handed back with ICall_free. */
  function ScanCb<D>(evt: bv32, report: D, q: seq<Msg<D>>, allocOk: bool, accepted: bool): (r: ScanCbResult<D>)
    ensures evt & GAP_EVT_ADV_REPORT == 0 ==> r == ScanCbResult(q, false)
    ensures evt & GAP_EVT_ADV_REPORT != 0 ==>
              r.queue == Enqueue(q, BC_EVT_ADV_REPORT, report, allocOk, accepted).queue
    ensures r.freed <==> evt & GAP_EVT_ADV_REPORT != 0 && !(allocOk && accepted)
  {
    if evt & GAP_EVT_ADV_REPORT != 0 then
      var e := Enqueue(q, BC_EVT_ADV_REPORT, report, allocOk, accepted);
      ScanCbResult(e.queue, e.status != SUCCESS)
    else ScanCbResult(q, false)
  }

  /** The report structure handed to the callback ends up in exactly one
      place: queued as BC_EVT_ADV_REPORT for the task, or freed.  Only the
      structure itself is freed on failure; its advertising-data buffer,
      which the task frees after processing a queued report, is then
      lost, and this lemma says nothing about it. */
  lemma ScanCbNoLeak<D>(evt: bv32, report: D, q: seq<Msg<D>>, allocOk: bool, accepted: bool)
    requires evt & GAP_EVT_ADV_REPORT != 0
    ensures var r := ScanCb(evt, report, q, allocOk, accepted);
      (r.queue == q + [Msg(BC_EVT_ADV_REPORT, report)]) != r.freed
      && (r.freed ==> r.queue == q)
  {
    var r := ScanCb(evt, report, q, allocOk, accepted);
    if r.freed {
      assert |r.queue| == |q|;
    }
  }

  /** The outcome of `BarebotCentral_processStackMsg`: either it returns
      (always TRUE, so the caller frees the message) or it spins for
      ever on an HCI hardware error. */
  datatype StackOutcome = Returned(step: Step, safeToDealloc: bool) | Spins

  /** `BarebotCentral_processStackMsg`; GATT messages go to
      `BarebotCentral_processGattMessage`, which does nothing. */
  function ProcessStackMsg(s: CentralState, m: StackMsg): (r: StackOutcome)
    ensures r.Spins? <==> m.HciGapEvent? && m.status == HCI_BLE_HARDWARE_ERROR_EVENT_CODE
    ensures r.Returned? ==> r.safeToDealloc
    ensures r.Returned? && !m.GapMsg? ==> r.step == Step(s, [])
    ensures m.GapMsg? ==> r == Returned(ProcessGapMessage(s, m.gap), true)
  {
    match m
    case GapMsg(e) => Returned(ProcessGapMessage(s, e), true)
    case GattMsg => Returned(Step(s, []), true)
    case HciGapEvent(status) =>
      if status == HCI_BLE_HARDWARE_ERROR_EVENT_CODE then Spins else Returned(Step(s, []), true)
    case OtherStackMsg => Returned(Step(s, []), true)
  }

  /** The task's state after a run of stack messages, each freed after
      dispatch, or None once one of them makes the task spin. */
  function RunStack(s: CentralState, ms: seq<StackMsg>): (r: Option<CentralState>)
    decreases |ms|
  {
    if ms == [] then Some(s)
    else match ProcessStackMsg(s, ms[0])
      case Spins => None
      case Returned(step, _) => RunStack(step.state, ms[1..])
  }

  /** Over any run of stack messages the task keeps running iff no
      hardware error arrives, and its handle is then the shared link
      bookkeeping's handle over the GAP events of the run; GATT and
      other messages never touch it. */
  lemma {:induction false} RunStackTracksLinks(s: CentralState, ms: seq<StackMsg>)
    ensures RunStack(s, ms).Some? <==> forall i :: 0 <= i < |ms| ==> !IsHardwareError(ms[i])
    ensures RunStack(s, ms).Some? ==>
              RunStack(s, ms).value.connHandle == TrackLinks(s.connHandle, GapEvents(ms))
    decreases |ms|
  {
    if ms != [] {
      match ProcessStackMsg(s, ms[0])
      case Spins =>
        assert IsHardwareError(ms[0]);
      case Returned(step, _) =>
        RunStackTracksLinks(step.state, ms[1..]);
        assert forall i :: 1 <= i < |ms| ==> ms[i] == ms[1..][i - 1];
        if ms[0].GapMsg? {
          var es := [ms[0].gap] + GapEvents(ms[1..]);
          assert es[1..] == GapEvents(ms[1..]);
          assert GapEvents(ms) == es;
          assert TrackLinks(s.connHandle, es) == TrackLinks(step.state.connHandle, es[1..]);
        } else {
          assert GapEvents(ms) == GapEvents(ms[1..]);
        }
    }
  }
}
