/**
 Transactions as a machine (transaction.go): per-key locks held from the first write to the end,
 folded write buffers, commits that take a timestamp and write all their keys in one step, failed
 commits with undo, and compaction of deletes below the watermark. The storage is the map of the
 `StorageBackend` contract.
 */
module Transactions {
  import opened Bytes
  import opened Versions
  import opened WriteBuffer

  type TxId = nat
  type Store = map<Key, Record>

  /** An active transaction; `ops` is history: its puts and deletes in order. */
  datatype Tx = Tx(snapshot: TS, buffer: Buffer, ops: seq<TxOp>)

  datatype State = State(
    clock: TS,
    store: Store,
    locks: map<Key, TxId>,
    txs: map<TxId, Tx>,                   // the registry of active transactions
    mark: TS,                             // the watermark compaction has read last
    histories: map<Key, seq<Version>>,    // history: all commits of each key
    lost: set<Key>)                       // history: records rewritten by an undo since their last commit

  datatype Action =
    | Begin(tx: TxId) | PutKey(tx: TxId, key: Key, value: Value) | DeleteKey(tx: TxId, key: Key)
    | Commit(tx: TxId) | FailCommit(tx: TxId, fault: Fault) | Rollback(tx: TxId)
    | ReadMark(mark: TS) | Compact(keys: set<Key>)

  function RecordOf(store: Store, k: Key): Option<Record> {
    if k in store then Some(store[k]) else None
  }

  function HistoryOf(s: State, k: Key): seq<Version> {
    if k in s.histories then s.histories[k] else []
  }

  /** The visible version in the storage, as the write path captures it. */
  function VisibleVersion(store: Store, k: Key): Option<Prev> {
    if k in store && !store[k].deleted then Some(Prev(false, store[k].ts, store[k].value)) else None
  }

  /** `SnapshotTx.Get`: own writes first, then the snapshot read. */
  function Get(s: State, t: TxId, k: Key): Option<Value>
    requires t in s.txs
  {
    var b := s.txs[t].buffer;
    if k in b.entries then Effective(b, k, None) else ReadRecord(RecordOf(s.store, k), s.txs[t].snapshot)
  }

  predicate CanLock(s: State, t: TxId, k: Key) {
    k !in s.locks || s.locks[k] == t
  }

  /** `commitKey`: the record a folded entry becomes. */
  function Encode(e: Entry, commitTS: TS): Record {
    if e.op == OpDelete then Record(true, commitTS, [], e.before) else Record(false, commitTS, e.value, e.before)
  }

  /** `SetBatch` on the keys in `keys`. */
  function Write(store: Store, entries: map<Key, Entry>, keys: set<Key>, commitTS: TS): (r: Store)
    ensures r.Keys == store.Keys + (entries.Keys * keys)
    ensures forall k :: k in r ==> r[k] == if k in entries && k in keys then Encode(entries[k], commitTS) else store[k]
  {
    map k | k in store.Keys + (entries.Keys * keys) :: if k in entries && k in keys then Encode(entries[k], commitTS)
      else store[k]
  }

  function Release(locks: map<Key, TxId>, t: TxId): (r: map<Key, TxId>)
    ensures forall k :: k in r <==> k in locks && locks[k] != t
    ensures forall k :: k in r ==> r[k] == locks[k]
  {
    map k | k in locks && locks[k] != t :: locks[k]
  }

  /** The version a folded entry adds to the history of its key. */
  function Committed(entries: map<Key, Entry>, k: Key, commitTS: TS): seq<Version> {
    if k !in entries then []
    else [Version(commitTS, if entries[k].op == OpDelete then None else Some(entries[k].value))]
  }

  function Recorded(s: State, entries: map<Key, Entry>, commitTS: TS): (r: map<Key, seq<Version>>)
    ensures forall k :: k in r <==> k in s.histories || k in entries
    ensures forall k :: k in r ==> r[k] == HistoryOf(s, k) + Committed(entries, k, commitTS)
  {
    map k | k in s.histories.Keys + entries.Keys :: HistoryOf(s, k) + Committed(entries, k, commitTS)
  }

  // ---------------------------------------------------------------- undo

  /** What `commitKey` keeps for undoing a key: the version to restore, none for an insert. */
  datatype UndoEntry = UndoEntry(key: Key, before: Option<Prev>, commitTS: TS)

  /**
   How a commit failed: the keys that were written before the failure, the keys whose undo fails because
   the storage cannot be read or written, and the sorted keys of the buffer.
   */
  datatype Fault = Fault(applied: set<Key>, stuck: set<Key>, order: seq<Key>)

  /** `rollbackOneKey`: only our own write is undone; an insert becomes a tombstone. */
  function UndoOne(store: Store, u: UndoEntry): Store {
    if u.key !in store || store[u.key].ts != u.commitTS then store
    else if u.before.None? then store[u.key := Record(true, u.commitTS, [], None)]
    else store[u.key := Record(u.before.value.deleted, u.before.value.ts, u.before.value.value, None)]
  }

  /** `rollbackApplied`: the entries are undone from the last to the first; a failure does not stop it. */
  function UndoAll(store: Store, undo: seq<UndoEntry>, stuck: set<Key>): Store {
    if undo == [] then store
    else
      var u := undo[|undo| - 1];
      UndoAll(if u.key in stuck then store else UndoOne(store, u), undo[..|undo| - 1], stuck)
  }

  function UndoOf(k: Key, e: Entry, commitTS: TS): UndoEntry {
    UndoEntry(k, if e.op == OpInsert then None else e.before, commitTS)
  }

  /** The undo buffer: one entry per live key of the order. */
  function UndoBuffer(keys: seq<Key>, entries: map<Key, Entry>, commitTS: TS): seq<UndoEntry> {
    if keys == [] then []
    else UndoBuffer(keys[..|keys| - 1], entries, commitTS) +
         if keys[|keys| - 1] in entries then [UndoOf(keys[|keys| - 1], entries[keys[|keys| - 1]], commitTS)] else []
  }

  // ---------------------------------------------------------------- steps

  /** The effective watermark: the smallest active snapshot, or the current time when none is active. */
  predicate IsWatermark(s: State, w: TS) {
    if s.txs == map[] then w == s.clock
    else (exists t :: t in s.txs && s.txs[t].snapshot == w) && forall t :: t in s.txs ==> w <= s.txs[t].snapshot
  }

  function Finish(s: State, t: TxId): State {
    s.(locks := Release(s.locks, t), txs := s.txs - {t})
  }

  function DoCommit(s: State, t: TxId): State
    requires t in s.txs
  {
    var entries, c := s.txs[t].buffer.entries, s.clock + 1;
    Finish(s.(clock := c, store := Write(s.store, entries, entries.Keys, c), histories := Recorded(s, entries, c),
              lost := s.lost - entries.Keys), t)
  }

  /** The writes of a failed commit that stay because they could not be undone. */
  function Remaining(entries: map<Key, Entry>, x: Fault): map<Key, Entry> {
    map k | k in entries && k in x.applied && k in x.stuck :: entries[k]
  }

  /** A commit that failed and was undone as far as possible; what could not be undone stands as committed. */
  function DoFail(s: State, t: TxId, x: Fault): State
    requires t in s.txs
  {
    var b, c := s.txs[t].buffer, s.clock + 1;
    var rest := Remaining(b.entries, x);
    Finish(s.(clock := c,
              store := UndoAll(Write(s.store, b.entries, x.applied, c), UndoBuffer(x.order, b.entries, c), x.stuck),
              histories := Recorded(s, rest, c),
              lost := s.lost - rest.Keys + (b.entries.Keys * x.applied - x.stuck)), t)
  }

  function Do(s: State, a: Action): State {
    match a
    case Begin(t) =>
      if t in s.txs then s
      else s.(clock := s.clock + 1, txs := s.txs[t := Tx(s.clock + 1, EMPTY, [])])
    case PutKey(t, k, v) =>
      if t !in s.txs || k == [] || !CanLock(s, t, k) then s
      else
        var tx := s.txs[t];
        s.(locks := s.locks[k := t],
           txs := s.txs[t := tx.(buffer := BufferPut(tx.buffer, k, v, VisibleVersion(s.store, k)),
                                 ops := tx.ops + [Put(k, v)])])
    case DeleteKey(t, k) =>
      if t !in s.txs || k == [] || !CanLock(s, t, k) then s
      else
        var tx := s.txs[t];
        var r := BufferDelete(tx.buffer, k, VisibleVersion(s.store, k));
        s.(locks := s.locks[k := t],
           txs := s.txs[t := tx.(buffer := if r.Some? then r.value else tx.buffer, ops := tx.ops + [Delete(k)])])
    case Commit(t) => if t in s.txs then DoCommit(s, t) else s
    case FailCommit(t, x) =>
      if t in s.txs && multiset(x.order) == multiset(s.txs[t].buffer.ordered) then DoFail(s, t, x) else s
    case Rollback(t) => if t in s.txs then Finish(s, t) else s
    case ReadMark(w) => if IsWatermark(s, w) then s.(mark := w) else s
    case Compact(keys) =>
      s.(store := map k | k in s.store && !(k in keys && s.store[k].deleted && s.store[k].ts < s.mark) :: s.store[k])
  }

  const START := State(0, map[], map[], map[], 0, map[], {})

  function Run(actions: seq<Action>): State {
    if actions == [] then START else Do(Run(actions[..|actions| - 1]), actions[|actions| - 1])
  }
}
