/**
 The prepare record of a write buffer (wal_integration.go, write_buffer.go): what recovery reads back is the
 buffer, with the version to restore for every key.
 */
module PrepareLog {
  import opened Bytes
  import opened BigEndian
  import opened Versions
  import W = WriteBuffer
  import T = TxPrepare

  /** The byte of an operation. */
  function OpByte(op: W.WriteOp): byte {
    match op
    case OpInsert => 0
    case OpUpdate => 1
    case OpDelete => 2
  }

  /** A buffered write as it is logged; an insert has no old version and logs zeros. */
  function Logged(e: W.Entry): T.Entry {
    match e.before
    case None => T.Entry(OpByte(e.op), 0, 0, [], e.value)
    case Some(v) => T.Entry(OpByte(e.op), if v.deleted then 1 else 0, v.ts, v.value, e.value)
  }

  function LoggedAll(entries: map<Key, W.Entry>): (r: map<Key, T.Entry>)
    ensures r.Keys == entries.Keys
  {
    map k | k in entries :: Logged(entries[k])
  }

  /** What recovery makes of a parsed entry; the new flag alone says whether it deletes. */
  function Recovered(p: T.Parsed): W.Entry {
    var before := if p.oldBeginTS == 0 then None else Some(Prev(p.oldFlag == 1, p.oldBeginTS, p.oldValue));
    W.Entry(if p.newFlag == 1 then W.OpDelete else if before.None? then W.OpInsert else W.OpUpdate, p.newValue, before)
  }

  /** Old versions have a timestamp of 64 bits that is not zero; lengths are below 4 GiB. */
  ghost predicate Loggable(b: W.Buffer) {
    && |b.ordered| < U32
    && forall k :: k in b.entries ==>
         && |k| < U32 && |b.entries[k].value| < U32
         && (b.entries[k].before.Some? ==>
               0 < b.entries[k].before.value.ts < U64 && |b.entries[k].before.value.value| < U32)
  }

  /**
   Recovery reads every buffered write back at its own place: the operation, the new value and the version to
   restore. A tombstone is logged if and only if the write is a delete.
   */
  lemma RecoversBuffer(b: W.Buffer, keys: seq<Key>, i: nat)
    requires W.BufferOK(b) && Loggable(b) && |keys| == |b.ordered| && multiset(keys) == multiset(b.ordered)
    requires i < |keys| && forall k :: k in b.ordered ==> k in b.entries
    ensures var r := T.Parse(T.Layout(keys, LoggedAll(b.entries)));
            && r.Ok? && |r.value| == |keys| && r.value[i].key == keys[i] && keys[i] in b.entries
            && Recovered(r.value[i]) == b.entries[keys[i]]
            && (r.value[i].newFlag == 1 <==> b.entries[keys[i]].op == W.OpDelete)
            && (r.value[i].newFlag == 0 <==> b.entries[keys[i]].op != W.OpDelete)
  {
    hide T.Parse, T.Layout, T.Live;
    forall k | k in keys ensures k in b.entries {
      assert k in multiset(keys);
    }
    T.RoundTrip(keys, LoggedAll(b.entries));
    T.LiveAt(keys, LoggedAll(b.entries), i);
  }
}
