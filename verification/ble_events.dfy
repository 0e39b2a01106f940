/** The BLE stack messages the three GAP tasks receive, and the
    single-connection bookkeeping all three repeat: the handle of the one
    allowed connection is remembered when a link is established and
    forgotten when that same link terminates. */
module BleEvents {
  import opened Types

  /** A 6-byte Bluetooth device address (B_ADDR_LEN). */
  type DevAddr = s: seq<byte> | |s| == 6 witness [0, 0, 0, 0, 0, 0]

  /** GAP messages, by opcode, with the fields the tasks look at. */
  datatype GapEvent =
    | InitDone(status: byte, devAddr: DevAddr)
    | LinkEstablished(status: byte, connHandle: uint16)
    | LinkTerminated(connHandle: uint16)
    | OtherGap

  /** ICall stack messages, by event type. */
  datatype StackMsg =
    | GapMsg(gap: GapEvent)
    | GattMsg
    | HciGapEvent(status: byte)
    | OtherStackMsg

  /** The one stack message the tasks do not return from: an HCI event
      reporting a hardware error makes them spin for ever. */
  predicate IsHardwareError(m: StackMsg)
  {
    m.HciGapEvent? && m.status == HCI_BLE_HARDWARE_ERROR_EVENT_CODE
  }

  /** The GAP events among a run of stack messages, in arrival order. */
  function GapEvents(ms: seq<StackMsg>): (es: seq<GapEvent>)
    decreases |ms|
  {
    if ms == [] then []
    else (if ms[0].GapMsg? then [ms[0].gap] else []) + GapEvents(ms[1..])
  }

  predicate Connected(h: uint16)
  {
    h != LINKDB_CONNHANDLE_INVALID
  }

  /** The stored connection handle after one GAP event. */
  function TrackLink(h: uint16, e: GapEvent): (r: uint16)
    ensures e.LinkEstablished? && e.status == SUCCESS ==> r == e.connHandle
    ensures e.LinkTerminated? && e.connHandle == h ==> r == LINKDB_CONNHANDLE_INVALID
    ensures !(e.LinkEstablished? && e.status == SUCCESS) && !(e.LinkTerminated? && e.connHandle == h)
            ==> r == h
  {
    match e
    case LinkEstablished(status, c) => if status == SUCCESS then c else h
    case LinkTerminated(c) => if c == h then LINKDB_CONNHANDLE_INVALID else h
    case _ => h
  }

  /** The stored handle after a run of GAP events. */
  function TrackLinks(h: uint16, es: seq<GapEvent>): (r: uint16)
    decreases |es|
  {
    if es == [] then h else TrackLinks(TrackLink(h, es[0]), es[1..])
  }

  predicate EstablishedIn(es: seq<GapEvent>, c: uint16)
  {
    exists i :: 0 <= i < |es| && es[i] == LinkEstablished(SUCCESS, c)
  }

  /** The task only ever remembers a handle the stack reported for a
      successful link: after any run of events the stored handle is the
      one it started with, "no connection", or the handle of some
      successful link-established event of the run. */
  lemma {:induction false} TrackLinksProvenance(h: uint16, es: seq<GapEvent>)
    ensures var r := TrackLinks(h, es);
      r == h || r == LINKDB_CONNHANDLE_INVALID || EstablishedIn(es, r)
    decreases |es|
  {
    if es != [] {
      var h' := TrackLink(h, es[0]);
      TrackLinksProvenance(h', es[1..]);
      var r := TrackLinks(h, es);
      if EstablishedIn(es[1..], r) {
        var i :| 0 <= i < |es[1..]| && es[1..][i] == LinkEstablished(SUCCESS, r);
        assert es[i + 1] == LinkEstablished(SUCCESS, r);
      } else if r == h' && h' != h && h' != LINKDB_CONNHANDLE_INVALID {
        assert es[0] == LinkEstablished(SUCCESS, r);
      }
    }
  }

  /** The last successful link-established event decides the handle
      unless a termination of that link follows it. */
  lemma {:induction false} TrackLinksAppend(h: uint16, es: seq<GapEvent>, e: GapEvent)
    ensures TrackLinks(h, es + [e]) == TrackLink(TrackLinks(h, es), e)
    decreases |es|
  {
    if es != [] {
      assert (es + [e])[1..] == es[1..] + [e];
      TrackLinksAppend(TrackLink(h, es[0]), es[1..], e);
    }
  }

  /** A link that is established and then terminated leaves the task
      with no connection, whatever it remembered before. */
  lemma EstablishThenTerminate(h: uint16, c: uint16)
    ensures TrackLinks(h, [LinkEstablished(SUCCESS, c), LinkTerminated(c)]) == LINKDB_CONNHANDLE_INVALID
  {
    assert [LinkEstablished(SUCCESS, c), LinkTerminated(c)][1..] == [LinkTerminated(c)];
    assert TrackLinks(c, [LinkTerminated(c)]) == TrackLinks(LINKDB_CONNHANDLE_INVALID, []);
  }

  /** A termination of some other link, or a failed connection attempt,
      leaves the stored handle alone. */
  lemma ForeignEventsKeepHandle(h: uint16, e: GapEvent)
    requires e.LinkTerminated? ==> e.connHandle != h
    requires e.LinkEstablished? ==> e.status != SUCCESS
    ensures TrackLink(h, e) == h
  {
  }
}
