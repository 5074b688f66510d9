/**
 The version-inline value format (codec.go) and its second reader (get_with_meta.go):
 flag, previous flag, previous beginTS, previous length, previous value, beginTS, value.
 Lengths and positions are 16-bit where the code's are.
 */
module Codec {
  import opened Bytes
  import opened BigEndian

  const HEADER_SIZE := 12

  /** A reference to a value kept outside the tree: first overflow page or file ID, and length. */
  datatype LobRef = LobRef(id: nat, totalLen: nat)

  datatype MVCCValue = MVCCValue(flag: byte, beginTS: nat, realVal: Value, prevFlag: byte, prevBeginTS: nat,
                                 prevVal: Value, lob: Option<LobRef>, lobFile: Option<LobRef>)

  /** `Panic` is a slice expression out of range. */
  datatype Result<+T> = Ok(value: T) | InvalidFlag | ZeroTimestamp | TooShort | Panic

  predicate IsValidFlag(flag: byte) {
    flag <= 5
  }

  function LobOf(flag: byte, realVal: Value): Option<LobRef> {
    if (flag == 2 || flag == 3) && |realVal| >= 10 then Some(LobRef(Get(realVal[2..6]), Get(realVal[6..10]))) else None
  }

  function LobFileOf(flag: byte, realVal: Value): Option<LobRef> {
    if (flag == 4 || flag == 5) && |realVal| >= 18 then Some(LobRef(Get(realVal[2..10]), Get(realVal[10..18])))
      else None
  }

  /** The layout; only the low 16 bits of the previous length are kept. */
  ghost function Layout(flag: byte, beginTS: nat, realVal: Value, prevFlag: byte, prevBeginTS: nat,
                        prevVal: Value): (r: seq<byte>) {
    var n := |prevVal| % U16;
    [flag, prevFlag] + Put(prevBeginTS, 8) + Put(n, 2) + prevVal[..n] + Put(beginTS, 8) + realVal
  }

  method WriteHeader(result: array<byte>, flag: byte, prevFlag: byte, prevBeginTS: nat, prevValLen: nat)
    requires result.Length >= HEADER_SIZE
    modifies result
    ensures result[..HEADER_SIZE] == [flag, prevFlag] + Put(prevBeginTS, 8) + Put(prevValLen, 2)
  {
    hide Put;
    WriteAt(result, 0, [flag, prevFlag]);
    assert result[..2] == [flag, prevFlag];
    WriteAt(result, 2, Put(prevBeginTS, 8));
    WriteAt(result, 10, Put(prevValLen, 2));
  }

  /** `BuildMVCC`: the previous value is copied in full and its tail overwritten by what follows. */
  method BuildMVCC(flag: byte, beginTS: nat, realVal: Value, prevFlag: byte, prevBeginTS: nat, prevVal: Value)
    returns (r: Result<seq<byte>>)
    ensures r == if flag > 5 then InvalidFlag else if beginTS == 0 then ZeroTimestamp
                 else Ok(Layout(flag, beginTS, realVal, prevFlag, prevBeginTS, prevVal))
  {
    if !IsValidFlag(flag) {
      return InvalidFlag;
    }
    if beginTS == 0 {
      return ZeroTimestamp;
    }
    hide Put;
    var prevValLen := |prevVal| % U16;
    var totalSize := HEADER_SIZE + prevValLen + 8 + |realVal|;
    var result := new byte[totalSize](_ => 0);
    WriteHeader(result, flag, prevFlag, prevBeginTS, prevValLen);
    var pos := 12;
    ghost var header := result[..12];
    if prevValLen > 0 {
      var n := if |prevVal| <= totalSize - 12 then |prevVal| else totalSize - 12;
      WriteAt(result, pos, prevVal[..n]);
      assert result[..12 + prevValLen] == result[..12 + n][..12 + prevValLen];
      pos := pos + prevValLen;
    }
    assert result[..pos] == header + prevVal[..prevValLen];
    WriteAt(result, pos, Put(beginTS, 8));
    pos := pos + 8;
    WriteAt(result, pos, realVal);
    assert result[..] == result[..totalSize] == header + prevVal[..prevValLen] + Put(beginTS, 8) + realVal;
    return Ok(result[..]);
  }

  /** `ParseMVCC`, with its 16-bit position. */
  function ParseMVCC(val: seq<byte>): Result<MVCCValue> {
    if |val| < HEADER_SIZE then TooShort
    else if !IsValidFlag(val[0]) then InvalidFlag
    else
      var prevBeginTS, prevValLen := Get(val[2..10]), Get(val[10..12]);
      if prevBeginTS == 0 || prevValLen == 0 then ParseCurrent(val, prevBeginTS, [], 12)
      else
        var end := (12 + prevValLen) % U16;
        if end > |val| then TooShort
        else if end < 12 then Panic
        else ParseCurrent(val, prevBeginTS, val[12..end], end)
  }

  function ParseCurrent(val: seq<byte>, prevBeginTS: nat, prevVal: Value, pos: nat): Result<MVCCValue>
    requires |val| >= HEADER_SIZE && IsValidFlag(val[0]) && pos < U16
  {
    var end := (pos + 8) % U16;
    if end > |val| then TooShort
    else if end < pos then Panic
    else Ok(MVCCValue(val[0], Get(val[pos..end]), val[end..], val[1], prevBeginTS, prevVal, LobOf(val[0], val[end..]),
                      LobFileOf(val[0], val[end..])))
  }

  /** `GetWithMeta` on the stored bytes; the offset is 16-bit as well, and the previous beginTS is not looked at. */
  function GetWithMeta(raw: seq<byte>): Result<nat> {
    if |raw| < HEADER_SIZE + 8 then TooShort
    else
      var start := (12 + Get(raw[10..12])) % U16;
      var end := (start + 8) % U16;
      if end < start || end > |raw| then Panic else Ok(Get(raw[start..end]))
  }

  lemma LayoutParts(flag: byte, beginTS: nat, realVal: Value, prevFlag: byte, prevBeginTS: nat, prevVal: Value)
    requires beginTS < U64 && prevBeginTS < U64
    ensures var r, n := Layout(flag, beginTS, realVal, prevFlag, prevBeginTS, prevVal), |prevVal| % U16;
            && |r| == 20 + n + |realVal| && r[0] == flag && r[1] == prevFlag
            && Get(r[2..10]) == prevBeginTS && Get(r[10..12]) == n && r[12..12 + n] == prevVal[..n]
            && Get(r[12 + n..20 + n]) == beginTS && r[20 + n..] == realVal
  {
    hide Put, Get;
    var r, n := Layout(flag, beginTS, realVal, prevFlag, prevBeginTS, prevVal), |prevVal| % U16;
    Widths();
    PutGet(prevBeginTS, 8);
    PutGet(n, 2);
    PutGet(beginTS, 8);
    assert r[2..10] == Put(prevBeginTS, 8);
    assert r[10..12] == Put(n, 2);
    assert r[12 + n..20 + n] == Put(beginTS, 8);
  }

  /**
   `ParseMVCC` undoes `BuildMVCC` exactly when the previous value has at most 65515 bytes, and none
   when there is no previous version.
   */
  lemma RoundTrip(flag: byte, beginTS: nat, realVal: Value, prevFlag: byte, prevBeginTS: nat, prevVal: Value)
    requires flag <= 5 && 0 < beginTS < U64 && prevBeginTS < U64
    ensures ParseMVCC(Layout(flag, beginTS, realVal, prevFlag, prevBeginTS, prevVal))
            == Ok(MVCCValue(flag, beginTS, realVal, prevFlag, prevBeginTS, prevVal, LobOf(flag, realVal),
                            LobFileOf(flag, realVal)))
            <==> |prevVal| <= 65515 && (prevBeginTS == 0 ==> prevVal == [])
  {
    hide Get, Put, Layout;
    LayoutParts(flag, beginTS, realVal, prevFlag, prevBeginTS, prevVal);
    var r, n := Layout(flag, beginTS, realVal, prevFlag, prevBeginTS, prevVal), |prevVal| % U16;
    if |prevVal| <= 65515 && (prevBeginTS == 0 ==> prevVal == []) {
      assert prevVal[..n] == prevVal && r[12..12 + n] == prevVal;
    } else if prevBeginTS != 0 && n > 0 && n <= 65515 {
      assert |r[12..12 + n]| != |prevVal|;
    }
  }

  /**
   What `GetWithMeta` returns for anything `BuildMVCC` wrote: the commit timestamp as long as the
   16-bit offset does not overflow, and otherwise a panic or bytes of the header.
   */
  lemma MetaOfBuilt(flag: byte, beginTS: nat, realVal: Value, prevFlag: byte, prevBeginTS: nat, prevVal: Value)
    requires beginTS < U64 && prevBeginTS < U64
    ensures var r, n := Layout(flag, beginTS, realVal, prevFlag, prevBeginTS, prevVal), |prevVal| % U16;
            GetWithMeta(r) == if n <= 65515 then Ok(beginTS) else if n < 65524 then Panic
              else Ok(Get(r[n - 65524..n - 65516]))
  {
    hide Get, Put, Layout;
    LayoutParts(flag, beginTS, realVal, prevFlag, prevBeginTS, prevVal);
  }

  /** The two readers agree on any bytes that parse, unless a previous length is given without a previous version. */
  lemma ReadersAgree(raw: seq<byte>)
    requires ParseMVCC(raw).Ok? && (Get(raw[2..10]) != 0 || Get(raw[10..12]) == 0)
    ensures GetWithMeta(raw) == Ok(ParseMVCC(raw).value.beginTS)
  {
    hide Get;
  }

  // ---------------------------------------------------------------- flags and references

  /** Bytes whose flag is none of the six are refused, whatever follows. */
  lemma OtherFlags(val: seq<byte>)
    requires |val| >= HEADER_SIZE && val[0] > 5
    ensures ParseMVCC(val) == InvalidFlag
  {
  }

  /**
   The reference to a large object survives: with flag 2 or 3 the four bytes of its first overflow page and
   of its length, with flag 4 or 5 the eight bytes of its file ID and length. A value with flag 0 or 1 has none.
   */
  lemma ReferenceRoundTrip(flag: byte, beginTS: nat, prefix: seq<byte>, id: nat, len: nat, value: Value, prevFlag: byte,
                           prevBeginTS: nat, prevVal: Value)
    requires flag <= 5 && 0 < beginTS < U64 && prevBeginTS < U64
    requires |prevVal| <= 65515 && (prevBeginTS == 0 ==> prevVal == [])
    requires |prefix| == 2 && (if flag == 2 || flag == 3 then id < U32 && len < U32 else id < U64 && len < U64)
    requires flag >= 4 ==> value == prefix + Put(id, 8) + Put(len, 8)
    requires flag == 2 || flag == 3 ==> value == prefix + Put(id, 4) + Put(len, 4)
    ensures var r := ParseMVCC(Layout(flag, beginTS, value, prevFlag, prevBeginTS, prevVal));
            && r.Ok?
            && r.value.lob == (if flag == 2 || flag == 3 then Some(LobRef(id, len)) else None)
            && r.value.lobFile == (if flag >= 4 then Some(LobRef(id, len)) else None)
  {
    hide Put, Get, Layout;
    RoundTrip(flag, beginTS, value, prevFlag, prevBeginTS, prevVal);
    Widths();
    var w := if flag >= 4 then 8 else 4;
    if flag >= 2 {
      PutGet(id, w);
      PutGet(len, w);
      assert value[2..2 + w] == Put(id, w) && value[2 + w..2 + 2 * w] == Put(len, w);
    }
  }
}
