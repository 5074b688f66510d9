/**
 Multi-version records with one inlined previous version, and the commit histories they stand for
 (transaction.go). Values are inline: flags are normal or tombstone.
 */
module Versions {
  import opened Bytes

  type TS = nat

  /** One committed version of a key in its full history; no value means a delete. */
  datatype Version = Version(ts: TS, value: Option<Value>)

  /** A previous version inlined in a record. */
  datatype Prev = Prev(deleted: bool, ts: TS, value: Value)

  /** A stored record: flag, beginTS, value, and the inlined previous version (none when prevBeginTS is 0). */
  datatype Record = Record(deleted: bool, ts: TS, value: Value, prev: Option<Prev>)

  /** `snapshotGet` on what the storage holds for the key. */
  function ReadRecord(rec: Option<Record>, snapshot: TS): Option<Value> {
    if rec.None? then None
    else if rec.value.ts <= snapshot then
      if rec.value.deleted then None else Some(rec.value.value)
    else if rec.value.prev.Some? && rec.value.prev.value.ts <= snapshot then
      if rec.value.prev.value.deleted then None else Some(rec.value.prev.value.value)
    else None
  }

  /** The latest committed value as the write path sees it. */
  function Visible(rec: Option<Record>): Option<Value> {
    if rec.Some? && !rec.value.deleted then Some(rec.value.value) else None
  }

  /** What the history says a snapshot should see. */
  ghost function At(h: seq<Version>, snapshot: TS): Option<Value> {
    if h == [] then None
    else if h[|h| - 1].ts <= snapshot then h[|h| - 1].value
    else At(h[..|h| - 1], snapshot)
  }

  /** How many commits are newer than a snapshot. */
  ghost function Newer(h: seq<Version>, snapshot: TS): nat {
    if h == [] || h[|h| - 1].ts <= snapshot then 0 else 1 + Newer(h[..|h| - 1], snapshot)
  }

  ghost predicate Increasing(h: seq<Version>) {
    forall i, j :: 0 <= i < j < |h| ==> h[i].ts < h[j].ts
  }

  /** The version before the last one, unless that was a delete. */
  ghost function Preceding(h: seq<Version>): Option<Prev>
    requires h != []
  {
    if |h| >= 2 && h[|h| - 2].value.Some? then Some(Prev(false, h[|h| - 2].ts, h[|h| - 2].value.value)) else None
  }

  /**
   A record stands for a history: it is the last commit, with the immediately preceding commit
   inlined. `lost` says that an undo rewrote the record and dropped the inlined version; `floor`
   bounds the deletes that compaction has removed.
   */
  ghost predicate StandsFor(rec: Option<Record>, h: seq<Version>, lost: bool, floor: TS) {
    && Increasing(h)
    && match rec
       case None => h == [] || (h[|h| - 1].value.None? && h[|h| - 1].ts < floor)
       case Some(r) =>
         if lost then
           && r.prev.None?
           && if r.deleted then h == [] || (h[|h| - 1].value.None? && h[|h| - 1].ts <= r.ts)
              else h != [] && h[|h| - 1] == Version(r.ts, Some(r.value))
         else
           && h != [] && h[|h| - 1] == Version(r.ts, if r.deleted then None else Some(r.value))
           && r.prev == Preceding(h)
  }

  lemma {:induction false} AllNewer(h: seq<Version>, snapshot: TS)
    requires Increasing(h)
    ensures Newer(h, snapshot) <= |h|
    ensures At(h, snapshot) == if Newer(h, snapshot) == |h| then None else h[|h| - 1 - Newer(h, snapshot)].value
    ensures forall i :: 0 <= i < |h| ==> (h[i].ts > snapshot <==> i >= |h| - Newer(h, snapshot))
  {
    if h != [] && h[|h| - 1].ts > snapshot {
      var g := h[..|h| - 1];
      assert Increasing(g);
      AllNewer(g, snapshot);
      forall i | 0 <= i < |h| ensures h[i].ts > snapshot <==> i >= |h| - Newer(h, snapshot) {
        assert i < |g| ==> h[i] == g[i];
      }
    }
  }

  /**
   A snapshot read is exact - it returns what the full history held at the snapshot - if and only
   if at most one commit is newer than the snapshot (none, when an undo dropped the inlined
   version), or there was nothing to see.
   */
  lemma ReadExact(rec: Option<Record>, h: seq<Version>, lost: bool, floor: TS, snapshot: TS)
    requires StandsFor(rec, h, lost, floor) && floor <= snapshot
    ensures ReadRecord(rec, snapshot) == At(h, snapshot)
            <==> At(h, snapshot).None? || Newer(h, snapshot) == 0 || (Newer(h, snapshot) == 1 && !lost)
  {
    AllNewer(h, snapshot);
    var n := Newer(h, snapshot);
    assert |h| >= 2 ==> (h[|h| - 2].ts > snapshot <==> n >= 2);
    assert |h| >= 1 ==> (h[|h| - 1].ts > snapshot <==> n >= 1);
  }

  /** Committing on top of a record that stands for its history gives one that stands for the longer history. */
  lemma CommitStandsFor(rec: Option<Record>, h: seq<Version>, lost: bool, floor: TS, next: Record, ts: TS)
    requires StandsFor(rec, h, lost, floor) && next.ts == ts
    requires (rec.Some? ==> rec.value.ts < ts) && floor <= ts
    requires next.prev == if Visible(rec).Some? then Some(Prev(false, rec.value.ts, rec.value.value)) else None
    ensures StandsFor(Some(next), h + [Version(ts, if next.deleted then None else Some(next.value))], false, floor)
  {
    var v := Version(ts, if next.deleted then None else Some(next.value));
    var h' := h + [v];
    assert h != [] ==> h'[|h'| - 2] == h[|h| - 1];
    forall i, j | 0 <= i < j < |h'| ensures h'[i].ts < h'[j].ts {
      assert h'[i] == h[i];
      assert i <= |h| - 1;
      assert h[i].ts <= h[|h| - 1].ts;
    }
  }
}
