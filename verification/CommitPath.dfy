/**
 The loops of the commit path (transaction.go), the registry of active transactions
 (active_tx_registry.go, gc.go) and the compaction filter (compaction.go), each proved against the
 functions of the transaction machine.
 */
module CommitPath {
  import opened Bytes
  import opened Versions
  import opened WriteBuffer
  import opened Transactions

  datatype Pair = Pair(key: Key, value: Record)

  ghost function Elements(keys: seq<Key>): set<Key> {
    set k | k in keys
  }

  /** What `SetBatch` leaves after writing the pairs in order. */
  function SetPairs(store: Store, pairs: seq<Pair>): Store {
    if pairs == [] then store
    else SetPairs(store, pairs[..|pairs| - 1])[pairs[|pairs| - 1].key := pairs[|pairs| - 1].value]
  }

  /** The pairs `applyWriteBuffer` hands to `SetBatch`: keys may repeat, and cancelled keys are skipped. */
  ghost function PairsOf(keys: seq<Key>, entries: map<Key, Entry>, commitTS: TS): seq<Pair> {
    if keys == [] then []
    else PairsOf(keys[..|keys| - 1], entries, commitTS) +
         if keys[|keys| - 1] in entries then [Pair(keys[|keys| - 1], Encode(entries[keys[|keys| - 1]], commitTS))]
           else []
  }

  /** Writing the pairs one by one writes exactly the live entries, whatever the order and the repetitions. */
  lemma {:induction false} PairsWrite(store: Store, keys: seq<Key>, entries: map<Key, Entry>, commitTS: TS)
    ensures SetPairs(store, PairsOf(keys, entries, commitTS)) == Write(store, entries, Elements(keys), commitTS)
  {
    hide Encode;
    if keys == [] {
      assert Write(store, entries, Elements(keys), commitTS) == store;
    } else {
      var front, key := keys[..|keys| - 1], keys[|keys| - 1];
      PairsWrite(store, front, entries, commitTS);
      assert keys == front + [key];
      var pairs, was := PairsOf(keys, entries, commitTS), PairsOf(front, entries, commitTS);
      if key in entries {
        assert pairs[..|was|] == was;
        WriteOne(store, entries, front, key, commitTS);
      } else {
        assert pairs == was;
        WriteSkip(store, entries, front, key, commitTS);
      }
    }
  }

  /** `applyWriteBuffer` up to `SetBatch`. */
  method ApplyWriteBuffer(keys: seq<Key>, entries: map<Key, Entry>, commitTS: TS)
    returns (pairs: seq<Pair>, undo: seq<UndoEntry>)
    requires forall k :: k in entries ==> k in keys
    ensures undo == UndoBuffer(keys, entries, commitTS)
    ensures forall store: Store :: SetPairs(store, pairs) == Write(store, entries, entries.Keys, commitTS)
  {
    hide Encode, UndoOf, SetPairs;
    pairs, undo := [], [];
    for i := 0 to |keys|
      invariant undo == UndoBuffer(keys[..i], entries, commitTS)
      invariant pairs == PairsOf(keys[..i], entries, commitTS)
    {
      assert keys[..i + 1][..i] == keys[..i];
      if keys[i] in entries {
        pairs := pairs + [Pair(keys[i], Encode(entries[keys[i]], commitTS))];
        undo := undo + [UndoOf(keys[i], entries[keys[i]], commitTS)];
      }
    }
    assert keys[..|keys|] == keys;
    forall store: Store ensures SetPairs(store, pairs) == Write(store, entries, entries.Keys, commitTS) {
      PairsWrite(store, keys, entries, commitTS);
      assert Write(store, entries, Elements(keys), commitTS) == Write(store, entries, entries.Keys, commitTS);
    }
  }

  lemma WriteOne(store: Store, entries: map<Key, Entry>, done: seq<Key>, key: Key, commitTS: TS)
    requires key in entries
    ensures Write(store, entries, Elements(done), commitTS)[key := Encode(entries[key], commitTS)]
            == Write(store, entries, Elements(done + [key]), commitTS)
  {
    hide Encode;
  }

  lemma WriteSkip(store: Store, entries: map<Key, Entry>, done: seq<Key>, key: Key, commitTS: TS)
    requires key !in entries
    ensures Write(store, entries, Elements(done), commitTS) == Write(store, entries, Elements(done + [key]), commitTS)
  {
    hide Encode;
  }

  /** `rollbackApplied`: from the last entry to the first; the undo of a key in `stuck` fails, the others go on. */
  method RollbackApplied(store: Store, undo: seq<UndoEntry>, stuck: set<Key>) returns (r: Store, failed: bool)
    ensures r == UndoAll(store, undo, stuck)
    ensures failed <==> exists i :: 0 <= i < |undo| && undo[i].key in stuck
  {
    hide UndoOne;
    r, failed := store, false;
    var i := |undo|;
    assert undo[..i] == undo;
    while i > 0
      invariant 0 <= i <= |undo| && UndoAll(r, undo[..i], stuck) == UndoAll(store, undo, stuck)
      invariant failed <==> exists j :: i <= j < |undo| && undo[j].key in stuck
    {
      i := i - 1;
      assert undo[..i + 1][..i] == undo[..i];
      if undo[i].key in stuck {
        failed := true;
      } else {
        r := UndoOne(r, undo[i]);
      }
    }
  }

  // ---------------------------------------------------------------- active transactions

  const MAX_UINT64 := 0xFFFF_FFFF_FFFF_FFFF
  type Uint64 = n: nat | n <= MAX_UINT64

  class ActiveTxRegistry {
    var txs: map<TxId, Uint64>

    constructor ()
      ensures txs == map[]
    {
      txs := map[];
    }

    method Register(tx: TxId, snapshot: Uint64)
      modifies this
      ensures txs == old(txs)[tx := snapshot]
    {
      txs := txs[tx := snapshot];
    }

    method Unregister(tx: TxId)
      modifies this
      ensures txs == old(txs) - {tx}
    {
      txs := txs - {tx};
    }

    /** The smallest active snapshot, 0 when there is none. */
    method Watermark() returns (w: Uint64)
      ensures txs == map[] ==> w == 0
      ensures txs != map[] ==> (exists t :: t in txs && txs[t] == w) && forall t :: t in txs ==> w <= txs[t]
    {
      if |txs| == 0 {
        return 0;
      }
      w := MAX_UINT64;
      var rest := txs.Keys;
      while rest != {}
        invariant rest <= txs.Keys
        invariant forall t :: t in txs && t !in rest ==> w <= txs[t]
        invariant (exists t :: t in txs && t !in rest && txs[t] == w) || (w == MAX_UINT64 && rest == txs.Keys)
                  || (w == MAX_UINT64 && forall t :: t in txs && t !in rest ==> txs[t] == MAX_UINT64)
        decreases |rest|
      {
        var t :| t in rest;
        if txs[t] < w {
          w := txs[t];
        }
        rest := rest - {t};
      }
      assert exists t :: t in txs by {
        assert |txs.Keys| > 0;
        var t :| t in txs.Keys;
      }
    }

    /** The watermark of a GC cycle: in every state with these active snapshots it is the effective watermark. */
    method GCWatermark(clock: Uint64) returns (w: Uint64)
      requires forall t :: t in txs ==> 1 <= txs[t]
      ensures forall s: State {:trigger IsWatermark(s, w)} ::
                s.clock == clock && s.txs.Keys == txs.Keys && (forall t :: t in txs ==> s.txs[t].snapshot == txs[t]) ==>
                  IsWatermark(s, w)
    {
      w := Watermark();
      if w == 0 {
        w := clock;
      }
      forall s: State | s.clock == clock && s.txs.Keys == txs.Keys
        && (forall t :: t in txs ==> s.txs[t].snapshot == txs[t])
        ensures IsWatermark(s, w)
      {
        if s.txs != map[] {
          assert txs != map[];
          var t :| t in txs && txs[t] == w;
          assert s.txs[t].snapshot == w;
        } else {
          assert txs.Keys == {};
        }
      }
    }
  }

  // ---------------------------------------------------------------- compaction filter

  /** A leaf entry as `scanLeafEntries` sees it; no record means that the value does not parse. */
  datatype LeafEntry = LeafEntry(key: Key, record: Option<Record>)

  predicate Drops(e: LeafEntry, watermark: TS) {
    e.record.Some? && e.record.value.deleted && e.record.value.ts < watermark
  }

  function Kept(es: seq<LeafEntry>, watermark: TS): seq<LeafEntry> {
    if es == [] then []
    else Kept(es[..|es| - 1], watermark) + if Drops(es[|es| - 1], watermark) then [] else [es[|es| - 1]]
  }

  method ScanLeafEntries(es: seq<LeafEntry>, watermark: TS) returns (keep: seq<LeafEntry>)
    ensures keep == Kept(es, watermark)
    ensures forall e :: e in keep <==> e in es && !Drops(e, watermark)
  {
    keep := [];
    for i := 0 to |es|
      invariant keep == Kept(es[..i], watermark)
      invariant forall e :: e in keep <==> e in es[..i] && !Drops(e, watermark)
    {
      assert es[..i + 1][..i] == es[..i];
      if !Drops(es[i], watermark) {
        keep := keep + [es[i]];
      }
    }
    assert es[..|es|] == es;
  }

  lemma {:induction false} KeptMembers(es: seq<LeafEntry>, watermark: TS)
    ensures forall e :: e in Kept(es, watermark) <==> e in es && !Drops(e, watermark)
  {
    if es != [] {
      KeptMembers(es[..|es| - 1], watermark);
      assert es == es[..|es| - 1] + [es[|es| - 1]];
    }
  }

  /** Replacing a leaf by its kept entries is the compaction step of the machine on the keys of the leaf. */
  lemma ScanIsCompact(s: State, es: seq<LeafEntry>, k: Key)
    requires forall e :: e in es ==> e.record == RecordOf(s.store, e.key) && e.key in s.store
    ensures k in Do(s, Compact(set e | e in es :: e.key)).store
            <==> k in s.store && ((exists e :: e in es && e.key == k) ==>
                                  exists e :: e in Kept(es, s.mark) && e.key == k)
  {
    KeptMembers(es, s.mark);
  }
}
