/** The write buffer of a transaction: at most one folded entry per key (write_buffer.go). */
module WriteBuffer {
  import opened Bytes
  import opened Versions

  datatype WriteOp = OpInsert | OpUpdate | OpDelete

  /** A folded write; `before` is the visible version in the storage at the first write, if any. */
  datatype Entry = Entry(op: WriteOp, value: Value, before: Option<Prev>)

  datatype Buffer = Buffer(entries: map<Key, Entry>, ordered: seq<Key>)

  const EMPTY := Buffer(map[], [])

  function BufferPut(b: Buffer, key: Key, value: Value, before: Option<Prev>): Buffer {
    if key !in b.entries then
      Buffer(b.entries[key := Entry(if before.None? then OpInsert else OpUpdate, value, before)], b.ordered + [key])
    else
      var e := b.entries[key];
      var op := if e.op == OpDelete then (if e.before.None? then OpInsert else OpUpdate) else e.op;
      b.(entries := b.entries[key := e.(op := op, value := value)])
  }

  /** `Delete`: a cancelled insert leaves the entries but stays in the order; a key found nowhere is refused. */
  function BufferDelete(b: Buffer, key: Key, before: Option<Prev>): (r: Option<Buffer>) {
    if key !in b.entries then
      if before.None? then None
      else Some(Buffer(b.entries[key := Entry(OpDelete, [], before)], b.ordered + [key]))
    else if b.entries[key].op == OpInsert then Some(b.(entries := b.entries - {key}))
    else Some(b.(entries := b.entries[key := b.entries[key].(op := OpDelete, value := [])]))
  }

  /** What the transaction sees for a key whose latest committed value is `committed`. */
  function Effective(b: Buffer, key: Key, committed: Option<Value>): Option<Value> {
    if key !in b.entries then committed
    else if b.entries[key].op == OpDelete then None
    else Some(b.entries[key].value)
  }

  /** Every entry is in the order; an insert is what has no old version. */
  ghost predicate BufferOK(b: Buffer) {
    forall k :: k in b.entries ==> k in b.ordered && (b.entries[k].op == OpInsert <==> b.entries[k].before.None?)
  }

  // ---------------------------------------------------------------- folding

  /** One operation of a transaction. */
  datatype TxOp = Put(key: Key, value: Value) | Delete(key: Key)

  /** One operation at a time: what key `k` holds after `ops` when it held `v` before. */
  ghost function Fold(ops: seq<TxOp>, k: Key, v: Option<Value>): Option<Value> {
    if ops == [] then v
    else
      var op := ops[|ops| - 1];
      if op.key != k then Fold(ops[..|ops| - 1], k, v)
      else if op.Put? then Some(op.value)
      else None
  }

  /** `before` is the visible version behind the latest committed value. */
  ghost predicate OldOf(before: Option<Prev>, committed: Option<Value>) {
    before.Some? <==> committed.Some?
  }

  /** A put folds: the key now reads as the value, other keys as before. */
  lemma PutFolds(b: Buffer, key: Key, value: Value, before: Option<Prev>, k: Key, committed: Option<Value>)
    ensures Effective(BufferPut(b, key, value, before), k, committed) == if k == key then Some(value)
            else Effective(b, k, committed)
    ensures BufferOK(b) ==> BufferOK(BufferPut(b, key, value, before))
  {
    assert key in b.ordered + [key];
  }

  /** A delete folds: the key now reads as absent whether or not the delete was refused, other keys as before. */
  lemma DeleteFolds(b: Buffer, key: Key, before: Option<Prev>, k: Key, committed: Option<Value>)
    requires BufferOK(b) && (k == key ==> OldOf(before, committed))
    requires k == key && key in b.entries ==> OldOf(b.entries[key].before, committed)
    ensures var r := BufferDelete(b, key, before);
            var b' := if r.Some? then r.value else b;
            && Effective(b', k, committed) == (if k == key then None else Effective(b, k, committed))
            && BufferOK(b')
  {
    assert key in b.ordered + [key];
  }

  class WriteBuffer {
    var entries: map<Key, Entry>
    var ordered: seq<Key>

    ghost predicate Valid()
      reads this
    {
      BufferOK(Buffer(entries, ordered))
    }

    ghost function Value(): Buffer
      reads this
    {
      Buffer(entries, ordered)
    }

    constructor ()
      ensures Valid() && Value() == EMPTY
    {
      entries, ordered := map[], [];
    }

    method Put(key: Key, value: Bytes.Value, before: Option<Prev>)
      requires Valid()
      modifies this
      ensures Valid() && Value() == BufferPut(old(Value()), key, value, before)
      ensures forall k, committed :: Effective(Value(), k, committed)
                == if k == key then Some(value) else Effective(old(Value()), k, committed)
    {
      if key !in entries {
        if before.None? {
          entries := entries[key := Entry(OpInsert, value, None)];
        } else {
          entries := entries[key := Entry(OpUpdate, value, before)];
        }
        ordered := ordered + [key];
      } else {
        var existing := entries[key];
        existing := existing.(value := value);
        if existing.op == OpDelete {
          if existing.before.None? {
            existing := existing.(op := OpInsert);
          } else {
            existing := existing.(op := OpUpdate);
          }
        }
        entries := entries[key := existing];
      }
    }

    method Delete(key: Key, before: Option<Prev>) returns (ok: bool)
      requires Valid()
      modifies this
      ensures Valid() && ok == BufferDelete(old(Value()), key, before).Some?
      ensures Value() == if ok then BufferDelete(old(Value()), key, before).value else old(Value())
      ensures !ok <==> key !in old(entries) && before.None?
    {
      if key !in entries {
        if before.None? {
          return false;
        }
        entries := entries[key := Entry(OpDelete, [], before)];
        ordered := ordered + [key];
      } else {
        var existing := entries[key];
        if existing.op == OpInsert {
          entries := entries - {key};
          return true;
        }
        entries := entries[key := existing.(op := OpDelete, value := [])];
      }
      return true;
    }

    method Get(key: Key) returns (r: Option<Entry>)
      ensures r.Some? <==> key in entries
      ensures r.Some? ==> r.value == entries[key]
    {
      return if key in entries then Some(entries[key]) else None;
    }
  }
}
