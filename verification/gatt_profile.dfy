/** The barebot GATT profile of the server: the characteristic table of the
    profile header and the two attribute callbacks, `barebot_ReadAttrCB`
    and `barebot_WriteAttrCB`.  The stack's client-configuration handler
    is an opaque status handed in by the caller; the application's
    change callback is reported as the change ID it is invoked with. */
module GattProfile {
  import opened Types

  /** ID passed around when no attribute changed. */
  const NO_CHANGE: byte := 0xFF

  const SERV_UUID: uint16 := 0xFFF0

  /** Length of the thoughts characteristic on the server; the client's
      copy of the constants says 100. */
  const THOUGHTS_LEN: nat := 32
  const SPEED_LEN: nat := 2
  const TURN_LEN: nat := 2
  const SPEEDUPDATE_LEN: nat := 2
  const TURNUPDATE_LEN: nat := 2

  /** Length of a 16-bit UUID in an attribute type (ATT_BT_UUID_SIZE). */
  const ATT_BT_UUID_SIZE: byte := 2

  /** UUID of the Client Characteristic Configuration descriptor. */
  const GATT_CLIENT_CHAR_CFG_UUID: uint16 := 0x2902

  /** ATT error codes, Bluetooth Core Specification, Vol 3, Part F,
      section 3.4.1.1. */
  const ATT_ERR_INVALID_HANDLE: byte := 0x01
  const ATT_ERR_ATTR_NOT_FOUND: byte := 0x0A
  const ATT_ERR_ATTR_NOT_LONG: byte := 0x0B
  const ATT_ERR_INVALID_VALUE_SIZE: byte := 0x0D

  /** The five characteristics of the profile. */
  datatype Characteristic = Thoughts | Speed | Turn | SpeedUpdate | TurnUpdate

  /** Parameter ID of each characteristic. */
  function Id(c: Characteristic): byte
  {
    match c
    case Thoughts => 0
    case Speed => 1
    case Turn => 2
    case SpeedUpdate => 3
    case TurnUpdate => 4
  }

  /** 16-bit UUID of each characteristic. */
  function Uuid(c: Characteristic): uint16
  {
    match c
    case Thoughts => 0xFFF1
    case Speed => 0xFFF2
    case Turn => 0xFFF3
    case SpeedUpdate => 0xFFF4
    case TurnUpdate => 0xFFF5
  }

  /** Declared value length of each characteristic. */
  function Len(c: Characteristic): nat
  {
    match c
    case Thoughts => THOUGHTS_LEN
    case Speed => SPEED_LEN
    case Turn => TURN_LEN
    case SpeedUpdate => SPEEDUPDATE_LEN
    case TurnUpdate => TURNUPDATE_LEN
  }

  /** The characteristic a UUID names, if any. */
  function CharOfUuid(u: uint16): (r: Option<Characteristic>)
    ensures r.Some? ==> Uuid(r.value) == u
    ensures r.None? ==> forall c: Characteristic :: Uuid(c) != u
  {
    if u == 0xFFF1 then Some(Thoughts)
    else if u == 0xFFF2 then Some(Speed)
    else if u == 0xFFF3 then Some(Turn)
    else if u == 0xFFF4 then Some(SpeedUpdate)
    else if u == 0xFFF5 then Some(TurnUpdate)
    else None
  }

  /** The characteristic a parameter ID names, if any. */
  function CharOfId(id: byte): (r: Option<Characteristic>)
    ensures r.Some? ==> Id(r.value) == id
    ensures r.None? ==> forall c: Characteristic :: Id(c) != id
  {
    if id == 0 then Some(Thoughts)
    else if id == 1 then Some(Speed)
    else if id == 2 then Some(Turn)
    else if id == 3 then Some(SpeedUpdate)
    else if id == 4 then Some(TurnUpdate)
    else None
  }

  /** IDs 0-4 and UUIDs 0xFFF1-0xFFF5 are in one-to-one correspondence;
      NO_CHANGE is no characteristic's ID and the service UUID is no
      characteristic's UUID. */
  lemma TableIsOneToOne(c: Characteristic, d: Characteristic)
    ensures CharOfId(Id(c)) == Some(c) && CharOfUuid(Uuid(c)) == Some(c)
    ensures Id(c) == Id(d) <==> c == d
    ensures Uuid(c) == Uuid(d) <==> c == d
    ensures Id(c) != NO_CHANGE
    ensures Uuid(c) != SERV_UUID
    ensures Uuid(c) == SERV_UUID + 1 + Id(c)
  {
  }

  /** The profile's storage: thoughts, speed and turn are arrays sized by
      their length constants, the two update values single bytes. */
  datatype Store = Store(thoughts: seq<byte>, speed: seq<byte>, turn: seq<byte>,
                         speedUpdate: byte, turnUpdate: byte)

  predicate WellSized(s: Store)
  {
    |s.thoughts| == THOUGHTS_LEN && |s.speed| == SPEED_LEN && |s.turn| == TURN_LEN
  }

  /** The bytes behind a characteristic's attribute.  The update values
      are one stored byte although their characteristics declare two. */
  function Value(s: Store, c: Characteristic): (v: seq<byte>)
    requires WellSized(s)
    ensures c !in {SpeedUpdate, TurnUpdate} ==> |v| == Len(c)
    ensures c in {SpeedUpdate, TurnUpdate} ==> |v| == 1 < Len(c)
  {
    match c
    case Thoughts => s.thoughts
    case Speed => s.speed
    case Turn => s.turn
    case SpeedUpdate => [s.speedUpdate]
    case TurnUpdate => [s.turnUpdate]
  }

  /** The type of an attribute as the stack hands it to the callbacks:
      the UUID length and, when that length is 2, the UUID built from its
      two bytes. */
  datatype AttrType = AttrType(len: byte, uuid: uint16)

  /** Result of a read: status and the returned bytes (their count is
      the length reported through pLen). */
  datatype ReadResult = ReadResult(status: byte, data: seq<byte>)

  /** `barebot_ReadAttrCB`.  `attrValue` is the attribute's value buffer
      (pAttr->pValue).  `errorUuid` stands for BAREBOTPROFILE_ERROR_UUID,
      a case label the profile header does not define; it differs from
      the other labels of the switch, as C requires. */
  function ReadAttr(t: AttrType, attrValue: seq<byte>, offset: uint16, errorUuid: uint16): (r: ReadResult)
    requires |attrValue| > 0
    requires errorUuid !in {Uuid(Speed), Uuid(Turn), Uuid(Thoughts)}
    ensures offset != 0 ==> r == ReadResult(ATT_ERR_ATTR_NOT_LONG, [])
    ensures offset == 0 && t.len != ATT_BT_UUID_SIZE ==> r == ReadResult(ATT_ERR_INVALID_HANDLE, [])
    ensures r.status == SUCCESS <==>
      offset == 0 && t.len == ATT_BT_UUID_SIZE
      && t.uuid in {Uuid(Speed), Uuid(Turn), Uuid(Thoughts), errorUuid}
    ensures r.status == SUCCESS ==> r.data == [attrValue[0]]
    ensures r.status != SUCCESS ==> r.data == []
    ensures offset == 0 && t.len == ATT_BT_UUID_SIZE && r.status != SUCCESS ==>
      r.status == ATT_ERR_ATTR_NOT_FOUND
  {
    if offset == 0 then
      if t.len == ATT_BT_UUID_SIZE then
        if t.uuid == Uuid(Speed) || t.uuid == Uuid(Turn) || t.uuid == Uuid(Thoughts) || t.uuid == errorUuid then
          ReadResult(SUCCESS, [attrValue[0]])
        else
          ReadResult(ATT_ERR_ATTR_NOT_FOUND, [])
      else
        ReadResult(ATT_ERR_INVALID_HANDLE, [])
    else
      ReadResult(ATT_ERR_ATTR_NOT_LONG, [])
  }

  /** The application callbacks registered with the profile:
      BarebotProfile_AppCBs may be NULL, and so may its change function. */
  datatype AppCallbacks = Unregistered | Registered(hasChangeFn: bool)

  /** Result of a write: status, the profile storage afterwards, and the
      change ID the application's change function was invoked with (None
      when it was not invoked). */
  datatype WriteResult = WriteResult(status: byte, store: Store, notified: Option<byte>)

  /** The characteristics whose value a write may replace. */
  predicate IsValueChar(c: Characteristic)
  {
    c in {Speed, Turn, Thoughts}
  }

  /** Replaces the first stored byte of a value characteristic. */
  function SetFirstByte(s: Store, c: Characteristic, b: byte): (s': Store)
    requires WellSized(s) && IsValueChar(c)
    ensures WellSized(s')
    ensures Value(s', c) == Value(s, c)[0 := b]
    ensures forall d :: d != c ==> Value(s', d) == Value(s, d)
  {
    match c
    case Speed => s.(speed := s.speed[0 := b])
    case Turn => s.(turn := s.turn[0 := b])
    case Thoughts => s.(thoughts := s.thoughts[0 := b])
  }

  /** A 16-bit attribute type naming one of speed, turn or thoughts. */
  predicate IsValueWrite(t: AttrType)
  {
    t.len == ATT_BT_UUID_SIZE && CharOfUuid(t.uuid).Some? && IsValueChar(CharOfUuid(t.uuid).value)
  }

  /** `barebot_WriteAttrCB`.  `value` holds the `len` bytes written;
      `cccStatus` is what GATTServApp_ProcessCCCWriteReq returns for a
      client-configuration write; `cbs` is the registered callback table. */
  function WriteAttr(s: Store, t: AttrType, value: seq<byte>, offset: uint16,
                     cccStatus: byte, cbs: AppCallbacks): (r: WriteResult)
    requires WellSized(s) && |value| < 0x1_0000
    ensures WellSized(r.store)
    // speed, turn, thoughts: the offset is checked first, then the length
    ensures IsValueWrite(t) && offset != 0 ==>
      r == WriteResult(ATT_ERR_ATTR_NOT_LONG, s, None)
    ensures IsValueWrite(t) && offset == 0 && |value| != 1 ==>
      r == WriteResult(ATT_ERR_INVALID_VALUE_SIZE, s, None)
    ensures IsValueWrite(t) && offset == 0 && |value| == 1 ==>
      var c := CharOfUuid(t.uuid).value;
      && r.status == SUCCESS
      && Value(r.store, c) == Value(s, c)[0 := value[0]]
      && (forall d :: d != c ==> Value(r.store, d) == Value(s, d))
    // client configuration goes to the stack and never fires the callback
    ensures t.len == ATT_BT_UUID_SIZE && t.uuid == GATT_CLIENT_CHAR_CFG_UUID ==>
      r == WriteResult(cccStatus, s, None)
    // every other 16-bit UUID, the two update UUIDs included
    ensures t.len == ATT_BT_UUID_SIZE && !IsValueWrite(t) && t.uuid != GATT_CLIENT_CHAR_CFG_UUID ==>
      r == WriteResult(ATT_ERR_ATTR_NOT_FOUND, s, None)
    ensures t.len != ATT_BT_UUID_SIZE ==> r == WriteResult(ATT_ERR_INVALID_HANDLE, s, None)
    // the change callback fires exactly for a successful value write
    // with a registered change function, and with that value's ID
    ensures r.notified.Some? <==>
      IsValueWrite(t) && offset == 0 && |value| == 1 && cbs.Registered? && cbs.hasChangeFn
    ensures r.notified.Some? ==>
      r.notified.value != NO_CHANGE && r.notified.value == Id(CharOfUuid(t.uuid).value)
    ensures r.store != s ==> r.status == SUCCESS && IsValueWrite(t)
  {
    var changeId: byte :=
      if IsValueWrite(t) && offset == 0 && |value| == 1 then Id(CharOfUuid(t.uuid).value) else NO_CHANGE;
    var status: byte :=
      if t.len != ATT_BT_UUID_SIZE then ATT_ERR_INVALID_HANDLE
      else if IsValueWrite(t) then
        (if offset != 0 then ATT_ERR_ATTR_NOT_LONG
         else if |value| != 1 then ATT_ERR_INVALID_VALUE_SIZE
         else SUCCESS)
      else if t.uuid == GATT_CLIENT_CHAR_CFG_UUID then cccStatus
      else ATT_ERR_ATTR_NOT_FOUND;
    var s' := if changeId != NO_CHANGE then SetFirstByte(s, CharOfUuid(t.uuid).value, value[0]) else s;
    var notified :=
      if changeId != NO_CHANGE && cbs.Registered? && cbs.hasChangeFn then Some(changeId) else None;
    WriteResult(status, s', notified)
  }

  /** A read of speed, turn or thoughts at offset 0 returns the first
      stored byte of that characteristic. */
  lemma ReadReturnsStoredByte(s: Store, c: Characteristic, errorUuid: uint16)
    requires WellSized(s) && IsValueChar(c)
    requires errorUuid !in {Uuid(Speed), Uuid(Turn), Uuid(Thoughts)}
    ensures ReadAttr(AttrType(ATT_BT_UUID_SIZE, Uuid(c)), Value(s, c), 0, errorUuid)
            == ReadResult(SUCCESS, [Value(s, c)[0]])
  {
  }

  /** A successful one-byte write to speed, turn or thoughts is what the
      next read of that characteristic returns, and the change ID it
      reports names the characteristic written. */
  lemma WriteThenRead(s: Store, c: Characteristic, b: byte, cccStatus: byte,
                      cbs: AppCallbacks, errorUuid: uint16)
    requires WellSized(s) && IsValueChar(c)
    requires errorUuid !in {Uuid(Speed), Uuid(Turn), Uuid(Thoughts)}
    ensures var w := WriteAttr(s, AttrType(ATT_BT_UUID_SIZE, Uuid(c)), [b], 0, cccStatus, cbs);
      && w.status == SUCCESS
      && ReadAttr(AttrType(ATT_BT_UUID_SIZE, Uuid(c)), Value(w.store, c), 0, errorUuid)
         == ReadResult(SUCCESS, [b])
      && (w.notified.Some? ==> CharOfId(w.notified.value) == Some(c))
  {
    assert CharOfUuid(Uuid(c)) == Some(c);
  }
}
