/** The prepare record of a transaction in the write-ahead log (wal_integration.go). */
module TxPrepare {
  import opened Bytes
  import opened BigEndian

  /** A buffered write as it is logged. */
  datatype Entry = Entry(op: byte, oldFlag: byte, oldBeginTS: nat, oldValue: Value, value: Value)

  datatype Parsed = Parsed(key: Key, op: byte, oldFlag: byte, oldBeginTS: nat, oldValue: Value, newFlag: byte,
                           newValue: Value)

  const OP_DELETE: byte := 2

  /** `Truncated` stands for the corruption errors, `Panic` for a read beyond the buffer that is not guarded. */
  datatype Result<+T> = Ok(value: T) | Truncated | Panic

  function ParsedOf(key: Key, e: Entry): Parsed {
    Parsed(key, e.op, e.oldFlag, e.oldBeginTS, e.oldValue, if e.op == OP_DELETE then 1 else 0, e.value)
  }

  // ---------------------------------------------------------------- layout

  ghost function LayoutOld(e: Entry): seq<byte> {
    [e.op, e.oldFlag] + Put(e.oldBeginTS, 8) + Put(|e.oldValue|, 4) + e.oldValue
  }

  ghost function LayoutNew(e: Entry): seq<byte> {
    [if e.op == OP_DELETE then 1 else 0] + Put(|e.value|, 4) + e.value
  }

  ghost function LayoutEntry(key: Key, e: Entry): seq<byte> {
    Put(|key|, 4) + key + LayoutOld(e) + LayoutNew(e)
  }

  /** The live entries in key order; a cancelled key is skipped. */
  ghost function LayoutEntries(keys: seq<Key>, entries: map<Key, Entry>): seq<byte> {
    if keys == [] then []
    else LayoutEntries(keys[..|keys| - 1], entries) +
         if keys[|keys| - 1] in entries then LayoutEntry(keys[|keys| - 1], entries[keys[|keys| - 1]]) else []
  }

  /** The value of the log entry: the count covers the cancelled keys too. */
  ghost function Layout(keys: seq<Key>, entries: map<Key, Entry>): seq<byte> {
    Put(|keys|, 4) + LayoutEntries(keys, entries)
  }

  function SizeOf(key: Key, e: Entry): nat {
    4 + |key| + 1 + 1 + 8 + 4 + |e.oldValue| + 1 + 4 + |e.value|
  }

  /** `TxPrepareEntry` after sorting the keys: size first, then fill the buffer. */
  method TxPrepareEntry(keys: seq<Key>, entries: map<Key, Entry>) returns (r: seq<byte>)
    ensures r == Layout(keys, entries)
  {
    hide Put, LayoutEntry;
    var totalSize := 4;
    for i := 0 to |keys|
      invariant totalSize == 4 + |LayoutEntries(keys[..i], entries)|
    {
      assert keys[..i + 1][..i] == keys[..i];
      if keys[i] in entries {
        LayoutSize(keys[i], entries[keys[i]]);
        totalSize := totalSize + SizeOf(keys[i], entries[keys[i]]);
      }
    }
    assert keys[..|keys|] == keys;
    var buf := new byte[totalSize](_ => 0);
    WriteAt(buf, 0, Put(|keys|, 4));
    var offset := 4;
    for i := 0 to |keys|
      invariant offset == 4 + |LayoutEntries(keys[..i], entries)|
      invariant totalSize == 4 + |LayoutEntries(keys, entries)| && buf.Length == totalSize && offset <= totalSize
      invariant buf[..offset] == Put(|keys|, 4) + LayoutEntries(keys[..i], entries)
    {
      assert keys[..i + 1][..i] == keys[..i];
      LayoutPrefix(keys, entries, i + 1);
      if keys[i] in entries {
        LayoutSize(keys[i], entries[keys[i]]);
        WriteEntry(buf, offset, keys[i], entries[keys[i]]);
        offset := offset + SizeOf(keys[i], entries[keys[i]]);
      }
    }
    assert keys[..|keys|] == keys;
    assert buf[..] == buf[..offset];
    return buf[..];
  }

  method WriteEntry(buf: array<byte>, offset: nat, key: Key, e: Entry)
    requires offset + SizeOf(key, e) <= buf.Length
    modifies buf
    ensures buf[..offset + SizeOf(key, e)] == old(buf[..offset]) + LayoutEntry(key, e)
  {
    hide Put, LayoutOld, LayoutNew;
    WriteAt(buf, offset, Put(|key|, 4));
    WriteAt(buf, offset + 4, key);
    WriteOld(buf, offset + 4 + |key|, e);
    WriteNew(buf, offset + 4 + |key| + 14 + |e.oldValue|, e);
  }

  method WriteOld(buf: array<byte>, offset: nat, e: Entry)
    requires offset + 14 + |e.oldValue| <= buf.Length
    modifies buf
    ensures buf[..offset + 14 + |e.oldValue|] == old(buf[..offset]) + LayoutOld(e)
  {
    hide Put;
    WriteAt(buf, offset, [e.op, e.oldFlag]);
    WriteAt(buf, offset + 2, Put(e.oldBeginTS, 8));
    WriteAt(buf, offset + 10, Put(|e.oldValue|, 4));
    WriteAt(buf, offset + 14, e.oldValue);
  }

  method WriteNew(buf: array<byte>, offset: nat, e: Entry)
    requires offset + 5 + |e.value| <= buf.Length
    modifies buf
    ensures buf[..offset + 5 + |e.value|] == old(buf[..offset]) + LayoutNew(e)
  {
    hide Put;
    WriteAt(buf, offset, [if e.op == OP_DELETE then 1 else 0]);
    WriteAt(buf, offset + 1, Put(|e.value|, 4));
    WriteAt(buf, offset + 5, e.value);
  }

  lemma LayoutSize(key: Key, e: Entry)
    ensures |LayoutEntry(key, e)| == SizeOf(key, e)
  {
  }

  lemma {:induction false} LayoutPrefix(keys: seq<Key>, entries: map<Key, Entry>, i: nat)
    requires i <= |keys|
    ensures |LayoutEntries(keys[..i], entries)| <= |LayoutEntries(keys, entries)|
    decreases |keys| - i
  {
    if i < |keys| {
      assert keys[..i + 1][..i] == keys[..i];
      LayoutPrefix(keys, entries, i + 1);
    } else {
      assert keys[..i] == keys;
    }
  }

  // ---------------------------------------------------------------- parsing

  datatype Cursor = Cursor(entry: Parsed, offset: nat)

  /** One turn of the loop of `ParseTxPrepareEntry`. The fixed part is guarded for 12 bytes and 14 are read. */
  function ParseOne(buf: seq<byte>, offset: nat): (r: Result<Cursor>)
    requires offset <= |buf|
    ensures r.Ok? ==> offset < r.value.offset <= |buf|
  {
    if offset + 4 > |buf| then Truncated
    else
      var keyLen := Get(buf[offset..offset + 4]);
      var a := offset + 4 + keyLen;
      if a > |buf| then Truncated
      else if a + 12 > |buf| then Truncated
      else if a + 14 > |buf| then Panic
      else
        var oldValLen := Get(buf[a + 10..a + 14]);
        var b := a + 14 + oldValLen;
        if b > |buf| then Truncated
        else if b + 5 > |buf| then Truncated
        else
          var newValLen := Get(buf[b + 1..b + 5]);
          var c := b + 5 + newValLen;
          if c > |buf| then Truncated
          else Ok(Cursor(Parsed(buf[offset + 4..a], buf[a], buf[a + 1], Get(buf[a + 2..a + 10]), buf[a + 14..b], buf[b],
                                buf[b + 5..c]), c))
  }

  ghost function ParseFrom(buf: seq<byte>, offset: nat, count: nat): Result<seq<Parsed>>
    requires offset <= |buf|
    decreases count
  {
    if count == 0 then Ok([])
    else
      var one := ParseOne(buf, offset);
      if one.Truncated? then Truncated
      else if one.Panic? then Panic
      else
        var rest := ParseFrom(buf, one.value.offset, count - 1);
        if rest.Ok? then Ok([one.value.entry] + rest.value) else rest
  }

  ghost function Parse(buf: seq<byte>): Result<seq<Parsed>> {
    if |buf| < 4 then Truncated else ParseFrom(buf, 4, Get(buf[..4]))
  }

  /** Where the first `n` entries from `offset` on end, if they all parse. */
  ghost function OffsetAfter(buf: seq<byte>, offset: nat, n: nat): (r: Option<nat>)
    requires offset <= |buf|
    ensures r.Some? ==> offset <= r.value <= |buf|
    decreases n
  {
    if n == 0 then Some(offset)
    else if ParseOne(buf, offset).Ok? then OffsetAfter(buf, ParseOne(buf, offset).value.offset, n - 1)
    else None
  }

  /** An entry whose key ends 12 or 13 bytes before the end: the guard passes and the read of 14 bytes does not. */
  ghost predicate Unguarded(buf: seq<byte>, offset: nat) {
    && offset + 4 <= |buf|
    && var a := offset + 4 + Get(buf[offset..offset + 4]);
    a + 12 <= |buf| < a + 14
  }

  /** An entry that is cut off where the parser looks: in a length, a key, the fixed part or a value. */
  ghost predicate CutShort(buf: seq<byte>, offset: nat) {
    || offset + 4 > |buf|
    || var a := offset + 4 + Get(buf[offset..offset + 4]);
       || a + 12 > |buf|
       || (a + 14 <= |buf| &&
           var b := a + 14 + Get(buf[a + 10..a + 14]);
           b + 5 > |buf| || b + 5 + Get(buf[b + 1..b + 5]) > |buf|)
  }

  ghost predicate PanicsAt(buf: seq<byte>, offset: nat, n: nat)
    requires offset <= |buf|
  {
    OffsetAfter(buf, offset, n).Some? && Unguarded(buf, OffsetAfter(buf, offset, n).value)
  }

  ghost predicate CutAt(buf: seq<byte>, offset: nat, n: nat)
    requires offset <= |buf|
  {
    OffsetAfter(buf, offset, n).Some? && CutShort(buf, OffsetAfter(buf, offset, n).value)
  }

  lemma OneOutcome(buf: seq<byte>, offset: nat)
    requires offset <= |buf|
    ensures ParseOne(buf, offset).Panic? <==> Unguarded(buf, offset)
    ensures ParseOne(buf, offset).Truncated? <==> CutShort(buf, offset)
  {
    hide Get;
  }

  /**
   On every buffer: the parser panics if and only if some entry it reaches ends its key 12 or 13 bytes
   before the end, fails if and only if some entry it reaches is cut short, and succeeds otherwise.
   */
  lemma {:induction false} ParseOutcome(buf: seq<byte>, offset: nat, count: nat)
    requires offset <= |buf|
    ensures ParseFrom(buf, offset, count).Panic? <==> exists n: nat :: n < count && PanicsAt(buf, offset, n)
    ensures ParseFrom(buf, offset, count).Truncated? <==> exists n: nat :: n < count && CutAt(buf, offset, n)
    ensures ParseFrom(buf, offset, count).Ok? <==> OffsetAfter(buf, offset, count).Some?
    decreases count
  {
    hide ParseOne, Unguarded, CutShort;
    if count > 0 {
      OneOutcome(buf, offset);
      var one := ParseOne(buf, offset);
      if one.Ok? {
        var next := one.value.offset;
        ParseOutcome(buf, next, count - 1);
        forall n: nat {:trigger OffsetAfter(buf, offset, n)} | n > 0
          ensures PanicsAt(buf, offset, n) <==> PanicsAt(buf, next, n - 1)
          ensures CutAt(buf, offset, n) <==> CutAt(buf, next, n - 1)
        {}
        if ParseFrom(buf, next, count - 1).Panic? {
          var n: nat :| n < count - 1 && PanicsAt(buf, next, n);
          assert PanicsAt(buf, offset, n + 1);
        }
        if ParseFrom(buf, next, count - 1).Truncated? {
          var n: nat :| n < count - 1 && CutAt(buf, next, n);
          assert CutAt(buf, offset, n + 1);
        }
        assert !PanicsAt(buf, offset, 0) && !CutAt(buf, offset, 0);
      } else {
        assert PanicsAt(buf, offset, 0) || CutAt(buf, offset, 0);
        forall n: nat | n > 0 ensures OffsetAfter(buf, offset, n).None? {}
      }
    }
  }

  /** A record of one entry with an empty key and 12 bytes behind it makes the parser read out of range. */
  lemma PanicWitness() returns (buf: seq<byte>)
    ensures |buf| == 20 && Parse(buf).Panic?
  {
    buf := Put(1, 4) + Put(0, 4) + seq(12, _ => 0);
    Widths();
    PutGet(1, 4);
    PutGet(0, 4);
    assert buf[..4] == Put(1, 4) && buf[4..8] == Put(0, 4);
    OneOutcome(buf, 4);
    assert ParseFrom(buf, 4, 1) == Panic;
  }

  method ParseTxPrepareEntry(buf: seq<byte>) returns (r: Result<seq<Parsed>>)
    ensures r == Parse(buf)
    ensures r.Panic? <==> |buf| >= 4 && exists n: nat :: n < Get(buf[..4]) && PanicsAt(buf, 4, n)
    ensures r.Ok? <==> |buf| >= 4 && OffsetAfter(buf, 4, Get(buf[..4])).Some?
  {
    hide ParseOne, Get, PanicsAt, OffsetAfter;
    if |buf| >= 4 {
      ParseOutcome(buf, 4, Get(buf[..4]));
    }
    if |buf| < 4 {
      return Truncated;
    }
    var keyCount, offset: nat, entries: seq<Parsed> := Get(buf[..4]), 4, [];
    ghost var all := ParseFrom(buf, 4, keyCount);
    assert all.Ok? ==> [] + all.value == all.value;
    for i := 0 to keyCount
      invariant offset <= |buf|
      invariant var rest := ParseFrom(buf, offset, keyCount - i);
                Parse(buf) == if rest.Ok? then Ok(entries + rest.value) else rest
    {
      var one := ParseOne(buf, offset);
      match one
      case Truncated => return Truncated;
      case Panic => return Panic;
      case Ok(c) =>
        ghost var rest := ParseFrom(buf, c.offset, keyCount - i - 1);
        assert rest.Ok? ==> entries + ([c.entry] + rest.value) == entries + [c.entry] + rest.value;
        entries := entries + [c.entry];
        offset := c.offset;
    }
    assert entries + [] == entries;
    return Ok(entries);
  }

  // ---------------------------------------------------------------- round trip

  ghost predicate FitsEntry(key: Key, e: Entry) {
    |key| < U32 && |e.oldValue| < U32 && |e.value| < U32 && e.oldBeginTS < U64
  }

  ghost predicate Fits(keys: seq<Key>, entries: map<Key, Entry>) {
    |keys| < U32 && forall k :: k in keys && k in entries ==> FitsEntry(k, entries[k])
  }

  /** The records of the live keys, in order. */
  ghost function Live(keys: seq<Key>, entries: map<Key, Entry>): seq<Parsed> {
    if keys == [] then []
    else (if keys[0] in entries then [ParsedOf(keys[0], entries[keys[0]])] else []) + Live(keys[1..], entries)
  }

  /** Parsing where an encoded entry lies gives the entry back and moves behind it. */
  lemma ParseEncoded(pre: seq<byte>, key: Key, e: Entry, post: seq<byte>)
    requires FitsEntry(key, e)
    ensures ParseOne(pre + LayoutEntry(key, e) + post, |pre|) == Ok(Cursor(ParsedOf(key, e), |pre| + SizeOf(key, e)))
  {
    hide Put, Get;
    var buf, o := pre + LayoutEntry(key, e) + post, |pre|;
    Widths();
    PutGet(|key|, 4);
    PutGet(e.oldBeginTS, 8);
    PutGet(|e.oldValue|, 4);
    PutGet(|e.value|, 4);
    var a := o + 4 + |key|;
    var b := a + 14 + |e.oldValue|;
    assert buf[o..o + 4] == Put(|key|, 4);
    assert buf[o + 4..a] == key;
    assert buf[a + 2..a + 10] == Put(e.oldBeginTS, 8);
    assert buf[a + 10..a + 14] == Put(|e.oldValue|, 4);
    assert buf[a + 14..b] == e.oldValue;
    assert buf[b + 1..b + 5] == Put(|e.value|, 4);
    assert buf[b + 5..b + 5 + |e.value|] == e.value;
  }

  lemma {:induction false} LayoutAppend(a: seq<Key>, b: seq<Key>, entries: map<Key, Entry>)
    ensures LayoutEntries(a + b, entries) == LayoutEntries(a, entries) + LayoutEntries(b, entries)
  {
    hide LayoutEntry;
    if b == [] {
      assert a + b == a;
    } else {
      LayoutAppend(a, b[..|b| - 1], entries);
      assert (a + b)[..|a + b| - 1] == a + b[..|b| - 1];
    }
  }

  lemma LayoutFirst(keys: seq<Key>, entries: map<Key, Entry>)
    requires keys != []
    ensures LayoutEntries(keys, entries)
            == (if keys[0] in entries then LayoutEntry(keys[0], entries[keys[0]]) else [])
              + LayoutEntries(keys[1..], entries)
  {
    hide LayoutEntry;
    assert keys == [keys[0]] + keys[1..];
    LayoutAppend([keys[0]], keys[1..], entries);
    var first: seq<Key> := [keys[0]];
    assert first[..0] == [];
    assert LayoutEntries(first[..0], entries) == [];
  }

  /** Asking for `n` entries of an encoded buffer gives the first `n` live ones, or fails when there are fewer. */
  lemma {:induction false} ParseAll(pre: seq<byte>, keys: seq<Key>, entries: map<Key, Entry>, n: nat)
    requires forall k :: k in keys && k in entries ==> FitsEntry(k, entries[k])
    ensures ParseFrom(pre + LayoutEntries(keys, entries), |pre|, n)
            == if n <= |Live(keys, entries)| then Ok(Live(keys, entries)[..n]) else Truncated
    decreases |keys|
  {
    hide LayoutEntry, ParseOne;
    var buf := pre + LayoutEntries(keys, entries);
    if keys == [] {
      assert buf == pre;
      EndOfBuffer(buf);
    } else {
      LayoutFirst(keys, entries);
      var rest := LayoutEntries(keys[1..], entries);
      if keys[0] !in entries {
        assert buf == pre + rest && Live(keys, entries) == Live(keys[1..], entries);
        ParseAll(pre, keys[1..], entries, n);
      } else if n > 0 {
        var e := entries[keys[0]];
        var pre' := pre + LayoutEntry(keys[0], e);
        ParseEncoded(pre, keys[0], e, rest);
        LayoutSize(keys[0], e);
        assert buf == pre' + rest;
        assert buf == pre + LayoutEntry(keys[0], e) + rest;
        ParseAll(pre', keys[1..], entries, n - 1);
        var live := Live(keys[1..], entries);
        assert Live(keys, entries) == [ParsedOf(keys[0], e)] + live;
        assert n - 1 <= |live| ==> Live(keys, entries)[..n] == [ParsedOf(keys[0], e)] + live[..n - 1];
      }
    }
  }

  lemma EndOfBuffer(buf: seq<byte>)
    ensures ParseOne(buf, |buf|) == Truncated
  {
  }

  lemma {:induction false} LiveCount(keys: seq<Key>, entries: map<Key, Entry>)
    ensures |Live(keys, entries)| <= |keys|
    ensures |Live(keys, entries)| == |keys| <==> forall k :: k in keys ==> k in entries
  {
    if keys != [] {
      LiveCount(keys[1..], entries);
      assert keys == [keys[0]] + keys[1..];
    }
  }

  /**
   `ParseTxPrepareEntry` undoes `TxPrepareEntry` exactly when every ordered key is still in the
   buffer; otherwise the count is too large and the record reads as truncated.
   */
  lemma RoundTrip(keys: seq<Key>, entries: map<Key, Entry>)
    requires Fits(keys, entries)
    ensures var r := Parse(Layout(keys, entries));
            && (r.Ok? <==> forall k :: k in keys ==> k in entries)
            && (r.Ok? ==> r.value == Live(keys, entries) && |r.value| == |keys|)
            && (!r.Ok? ==> r.Truncated?)
  {
    hide ParseFrom, LayoutEntries, Put, Get;
    Widths();
    PutGet(|keys|, 4);
    var buf := Layout(keys, entries);
    assert buf[..4] == Put(|keys|, 4);
    ParseAll(Put(|keys|, 4), keys, entries, |keys|);
    LiveCount(keys, entries);
  }

  /** Each ordered key that is live is parsed back, at its own position, with everything that was logged for it. */
  lemma {:induction false} LiveAt(keys: seq<Key>, entries: map<Key, Entry>, i: nat)
    requires i < |keys| && forall k :: k in keys ==> k in entries
    ensures |Live(keys, entries)| == |keys| && Live(keys, entries)[i] == ParsedOf(keys[i], entries[keys[i]])
  {
    LiveCount(keys, entries);
    assert keys[0] in entries;
    if i > 0 {
      LiveAt(keys[1..], entries, i - 1);
    }
  }
}
