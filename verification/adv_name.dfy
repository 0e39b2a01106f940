/** `BarebotCentral_findDeviceName`: the central's search for a local name
    in advertising data, which is a run of AD structures, each a length
    octet followed by that many octets of type and data (Bluetooth Core
    Specification, Vol 3, Part C, section 11).  The function is modelled
    as written, over the report's bytes, next to a parser that follows
    the standard; lemmas show where the two differ. */
module AdvName {
  import opened Types

  /** AD types of the Shortened and Complete Local Name (Core
      Specification Supplement, Part A, section 1.2). */
  const GAP_ADTYPE_LOCAL_NAME_SHORT: byte := 0x08
  const GAP_ADTYPE_LOCAL_NAME_COMPLETE: byte := 0x09

  predicate IsNameType(t: byte)
  {
    t == GAP_ADTYPE_LOCAL_NAME_SHORT || t == GAP_ADTYPE_LOCAL_NAME_COMPLETE
  }

  /** What the function as written leaves behind: the `maxNameLength`
      bytes of the output buffer and the boolean it returns.  After the
      walk ends without a name the function falls off its end, so its
      return value is unspecified; a copy that runs beyond the report
      reads memory that is not part of it. */
  datatype NameScan =
    | Found(buffer: seq<byte>)
    | NoReturnValue(buffer: seq<byte>)
    | ReadPastEnd

  /** The name copy as written: the loop runs `adLen` times and stores a
      byte only while the index is below `maxLen`, starting at `start`,
      the byte after the type. */
  function CopyAsWritten(data: seq<byte>, start: nat, adLen: byte, maxLen: byte): (r: NameScan)
    ensures r.Found? <==> start + Min(adLen, maxLen) <= |data|
    ensures !r.NoReturnValue?
    ensures r.Found? ==>
              && |r.buffer| == maxLen
              && r.buffer[..Min(adLen, maxLen)] == data[start..start + Min(adLen, maxLen)]
              && (forall k :: Min(adLen, maxLen) <= k < maxLen ==> r.buffer[k] == 0)
  {
    var n := Min(adLen, maxLen);
    if start + n <= |data| then Found(data[start..start + n] + Zeros(maxLen - n))
    else ReadPastEnd
  }

  /** The walk as written, from cursor `p`: it runs while the cursor is
      before the last byte; a zero length byte is consumed alone; a
      name structure is copied; any other structure is skipped by
      `adLen` bytes counted from after its type byte. */
  function ScanAsWritten(data: seq<byte>, p: nat, maxLen: byte): (r: NameScan)
    decreases |data| - p
  {
    if p + 1 >= |data| then NoReturnValue(Zeros(maxLen))
    else if data[p] == 0 then ScanAsWritten(data, p + 1, maxLen)
    else if IsNameType(data[p + 1]) then CopyAsWritten(data, p + 2, data[p], maxLen)
    else ScanAsWritten(data, p + 2 + data[p], maxLen)
  }

  /** The output buffer is zeroed first: whenever the function returns
      without over-reading, the buffer holds `maxLen` bytes and every
      byte not copied from a name is zero; without a name it is all
      zero. */
  lemma {:induction false} ScanAsWrittenBuffer(data: seq<byte>, p: nat, maxLen: byte)
    ensures var r := ScanAsWritten(data, p, maxLen);
      (r.Found? || r.NoReturnValue?) ==> |r.buffer| == maxLen
    ensures var r := ScanAsWritten(data, p, maxLen);
      r.NoReturnValue? ==> r.buffer == Zeros(maxLen)
    decreases |data| - p
  {
    if p + 1 >= |data| {
    } else if data[p] == 0 {
      ScanAsWrittenBuffer(data, p + 1, maxLen);
    } else if IsNameType(data[p + 1]) {
    } else {
      ScanAsWrittenBuffer(data, p + 2 + data[p], maxLen);
    }
  }

  /** `BarebotCentral_findDeviceName(pData, dataLen, deviceName,
      maxNameLength)` with its three loops as written; `data` holds the
      `dataLen` bytes of the report. */
  method FindDeviceName(data: seq<byte>, maxLen: byte) returns (r: NameScan)
    requires |data| < 0x1_0000
    ensures r == ScanAsWritten(data, 0, maxLen)
    ensures r.Found? || r.NoReturnValue? ==> |r.buffer| == maxLen
  {
    // erase the output buffer
    var buf: seq<byte> := [];
    var i := 0;
    while i < maxLen
      invariant 0 <= i <= maxLen
      invariant buf == Zeros(i)
    {
      buf := buf + [0];
      i := i + 1;
    }
    if |data| > 0 {
      var p := 0;
      var end := |data| - 1;
      while p < end
        invariant ScanAsWritten(data, p, maxLen) == ScanAsWritten(data, 0, maxLen)
        decreases |data| - p
      {
        var adLen := data[p];
        p := p + 1;
        if adLen > 0 {
          var adType := data[p];
          p := p + 1;
          if adType == GAP_ADTYPE_LOCAL_NAME_SHORT || adType == GAP_ADTYPE_LOCAL_NAME_COMPLETE {
            // the copy loop runs adLen times
            var start := p;
            var j := 0;
            while j <= adLen - 1
              invariant 0 <= j <= adLen
              invariant p == start + Min(j, maxLen) <= |data|
              invariant |buf| == maxLen
              invariant forall k :: 0 <= k < Min(j, maxLen) ==> buf[k] == data[start + k]
              invariant forall k :: Min(j, maxLen) <= k < maxLen ==> buf[k] == 0
            {
              if j < maxLen {
                if p >= |data| {
                  assert start + Min(adLen, maxLen) > |data|;
                  return ReadPastEnd;
                }
                buf := buf[j := data[p]];
                p := p + 1;
              }
              j := j + 1;
            }
            var n := Min(adLen, maxLen);
            assert buf == data[start..start + n] + Zeros(maxLen - n);
            return Found(buf);
          } else {
            p := p + adLen;
          }
        }
      }
      ScanAsWrittenBuffer(data, 0, maxLen);
    }
    assert buf == Zeros(maxLen);
    r := NoReturnValue(buf);
  }

  // ---------------------------------------------------------------------
  // The reference parser: AD structures as the Core Specification
  // defines them.

  /** The data field of the first local-name structure at or after `p`.
      A structure of length L > 0 spans L + 1 octets: its length, its
      type and L - 1 data octets.  A zero length ends the significant
      part; a structure running past the end is malformed. */
  function NameField(data: seq<byte>, p: nat): (r: Option<seq<byte>>)
    decreases |data| - p
  {
    if p >= |data| || data[p] == 0 || p + 1 + data[p] > |data| then None
    else if IsNameType(data[p + 1]) then Some(data[p + 2 .. p + 1 + data[p]])
    else NameField(data, p + 1 + data[p])
  }

  /** The standard's search as the central means it: the name, cut to
      `maxLen` bytes and zero-padded, and whether one was found. */
  function FindNameStandard(data: seq<byte>, maxLen: byte): (r: (bool, seq<byte>))
    ensures |r.1| == maxLen
    ensures !r.0 ==> r.1 == Zeros(maxLen)
  {
    match NameField(data, 0)
    case None => (false, Zeros(maxLen))
    case Some(name) =>
      var n := Min(|name|, maxLen);
      (true, name[..n] + Zeros(maxLen - n))
  }

  /** Well-formed AD structures from position `p` on: each has a
      non-zero length and lies inside the data. */
  ghost predicate StructureAt(data: seq<byte>, q: nat)
  {
    q + 1 < |data| && data[q] > 0 && q + 1 + data[q] <= |data|
  }

  /** `q` is reached from `p` by hopping over whole structures that are
      well formed and not local names: each hop moves from a length
      octet to the octet after the structure's last data octet. */
  ghost predicate Hops(data: seq<byte>, p: nat, q: nat)
    decreases |data| - p
  {
    p == q || (StructureAt(data, p) && !IsNameType(data[p + 1]) && Hops(data, p + 1 + data[p], q))
  }

  /** A name the reference parser returns is the data field of a
      well-formed local-name structure, reached from `p` by hopping over
      whole structures, none of which is a name. */
  lemma {:induction false} NameFieldIsNameStructure(data: seq<byte>, p: nat)
    requires NameField(data, p).Some?
    ensures exists q: nat :: (Hops(data, p, q) && StructureAt(data, q) && IsNameType(data[q + 1])
                         && NameField(data, p).value == data[q + 2 .. q + 1 + data[q]])
    decreases |data| - p
  {
    if IsNameType(data[p + 1]) {
      assert Hops(data, p, p);
      assert StructureAt(data, p);
    } else {
      var p' := p + 1 + data[p];
      NameFieldIsNameStructure(data, p');
      var q: nat :| Hops(data, p', q) && StructureAt(data, q) && IsNameType(data[q + 1])
               && NameField(data, p').value == data[q + 2 .. q + 1 + data[q]];
      assert StructureAt(data, p);
      assert Hops(data, p, q);
    }
  }

  /** Conversely, a local-name structure reached by hops is the one the
      reference parser returns. */
  lemma {:induction false} NameStructureIsNameField(data: seq<byte>, p: nat, q: nat)
    requires Hops(data, p, q) && StructureAt(data, q) && IsNameType(data[q + 1])
    ensures NameField(data, p) == Some(data[q + 2 .. q + 1 + data[q]])
    decreases |data| - p
  {
    if p != q {
      NameStructureIsNameField(data, p + 1 + data[p], q);
    }
  }

  /** The name search with the three slips of the function as written
      corrected, keeping its loop: the copy takes `adLen - 1` bytes, the
      skip moves `adLen - 1` bytes past the type byte, and the search
      returns FALSE when it finds no name.  Two further changes follow
      the structure layout of the standard: a zero length or a structure
      running past the data ends the search. */
  method FindDeviceNameCorrected(data: seq<byte>, maxLen: byte) returns (found: bool, buf: seq<byte>)
    requires |data| < 0x1_0000
    ensures (found, buf) == FindNameStandard(data, maxLen)
  {
    buf := [];
    var i := 0;
    while i < maxLen
      invariant 0 <= i <= maxLen
      invariant buf == Zeros(i)
    {
      buf := buf + [0];
      i := i + 1;
    }
    var p := 0;
    while p + 1 < |data|
      invariant NameField(data, p) == NameField(data, 0)
      decreases |data| - p
    {
      var adLen := data[p];
      if adLen == 0 || p + 1 + adLen > |data| {
        return false, buf;
      }
      var adType := data[p + 1];
      if IsNameType(adType) {
        var start := p + 2;
        var n := Min(adLen - 1, maxLen);
        var j := 0;
        while j < n
          invariant 0 <= j <= n
          invariant |buf| == maxLen
          invariant forall k :: 0 <= k < j ==> buf[k] == data[start + k]
          invariant forall k :: j <= k < maxLen ==> buf[k] == 0
        {
          buf := buf[j := data[start + j]];
          j := j + 1;
        }
        ghost var name := data[start .. p + 1 + adLen];
        assert NameField(data, p) == Some(name);
        assert buf == name[..n] + Zeros(maxLen - n);
        return true, buf;
      }
      p := p + 1 + adLen;
    }
    if p < |data| {
      assert NameField(data, p) == None;
    }
    return false, buf;
  }

  // ---------------------------------------------------------------------
  // Where the function as written departs from the standard.

  /** The copy loop runs `adLen` times although a structure holds only
      `adLen - 1` name bytes: when the name is the last structure and
      fits the buffer, the copy reads one byte past the report, while
      the standard finds the name. */
  lemma NameAtEndOverReads(name: seq<byte>, t: byte, maxLen: byte)
    requires IsNameType(t) && 0 < |name| + 1 < 0x100
    requires |name| + 1 <= maxLen
    ensures ScanAsWritten([|name| + 1, t] + name, 0, maxLen) == ReadPastEnd
    ensures FindNameStandard([|name| + 1, t] + name, maxLen) == (true, name + Zeros(maxLen - |name|))
  {
    var data := [|name| + 1, t] + name;
    assert data[2..2 + |name|] == name;
    assert NameField(data, 0) == Some(name);
    assert name[..|name|] == name;
  }

  /** When another structure follows the name, the extra byte the copy
      loop takes is that structure's length octet: the buffer holds it
      right after the name, where the standard leaves a zero. */
  lemma CopyTakesNextLengthByte(name: seq<byte>, t: byte, rest: seq<byte>, maxLen: byte)
    requires IsNameType(t) && 0 < |name| + 1 < 0x100
    requires |name| + 1 <= maxLen && |rest| > 0
    ensures var data := [|name| + 1, t] + name + rest;
      && ScanAsWritten(data, 0, maxLen).Found?
      && ScanAsWritten(data, 0, maxLen).buffer[|name|] == rest[0]
      && FindNameStandard(data, maxLen).0
      && FindNameStandard(data, maxLen).1[|name|] == 0
  {
    var data := [|name| + 1, t] + name + rest;
    assert data[2..2 + |name|] == name;
    assert data[2 + |name|] == rest[0];
  }

  /** Concrete instance: the name "BP" followed by a Flags structure
      comes out as "BP" plus the Flags length byte 0x02. */
  lemma BPFollowedByFlags()
    ensures ScanAsWritten([3, 0x09, 0x42, 0x50, 2, 0x01, 0x06], 0, 16)
            == Found([0x42, 0x50, 0x02] + Zeros(13))
    ensures FindNameStandard([3, 0x09, 0x42, 0x50, 2, 0x01, 0x06], 16)
            == (true, [0x42, 0x50] + Zeros(14))
  {
    var data: seq<byte> := [3, 0x09, 0x42, 0x50, 2, 0x01, 0x06];
    assert data[2..4] == [0x42, 0x50];
    var name: seq<byte> := [0x42, 0x50];
    assert NameField(data, 0) == Some(name);
    assert name[..Min(|name|, 16)] == name;
    assert data[2..5] == [0x42, 0x50, 0x02];
  }

  /** Skipping a structure that is not a name moves the cursor `adLen`
      bytes past the type byte, one byte beyond the next length octet;
      the standard moves to that length octet. */
  lemma SkipMisaligns(data: seq<byte>, maxLen: byte)
    requires StructureAt(data, 0) && !IsNameType(data[1])
    ensures ScanAsWritten(data, 0, maxLen) == ScanAsWritten(data, data[0] as int + 2, maxLen)
    ensures NameField(data, 0) == NameField(data, data[0] as int + 1)
  {
  }

  /** Concrete instance: Flags then the name "BP".  The skip as written
      lands on the name's type byte 0x09, which is read as a length, with
      'B' as the type; the next skip jumps past the end, so the name is
      never found.  The standard finds it. */
  lemma FlagsThenBPMissed()
    ensures ScanAsWritten([2, 0x01, 0x06, 3, 0x09, 0x42, 0x50], 0, 16) == NoReturnValue(Zeros(16))
    ensures FindNameStandard([2, 0x01, 0x06, 3, 0x09, 0x42, 0x50], 16) == (true, [0x42, 0x50] + Zeros(14))
  {
    var data: seq<byte> := [2, 0x01, 0x06, 3, 0x09, 0x42, 0x50];
    assert data[5..7] == [0x42, 0x50];
    assert NameField(data, 3) == Some([0x42, 0x50]);
    assert NameField(data, 0) == NameField(data, 3);
    var name: seq<byte> := [0x42, 0x50];
    assert name[..Min(|name|, 16)] == name;
  }

  /** Falling off the end: on empty data (or data without a name) the
      function as written reaches its end without a return statement, so
      a caller that used the result would read an indeterminate value;
      the standard says "not found". */
  lemma EmptyDataHasNoReturnValue(maxLen: byte)
    ensures ScanAsWritten([], 0, maxLen) == NoReturnValue(Zeros(maxLen))
    ensures FindNameStandard([], maxLen) == (false, Zeros(maxLen))
  {
  }

  /** Where the two agree: a name structure first in the data whose
      name is at least as long as the buffer fills the buffer with the
      same bytes under both. */
  lemma LongFirstNameAgrees(data: seq<byte>, maxLen: byte)
    requires StructureAt(data, 0) && IsNameType(data[1])
    requires maxLen <= data[0] - 1
    ensures ScanAsWritten(data, 0, maxLen) == Found(FindNameStandard(data, maxLen).1)
  {
    assert data[2..1 + data[0]][..maxLen] == data[2..2 + maxLen];
  }
}
