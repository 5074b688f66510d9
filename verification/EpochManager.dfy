/** The epoch manager's own operations, one call at a time (epoch.go). */
module EpochManager {
  import opened Bytes
  import opened EpochRing

  const MAX_READER_SLOTS := 64

  /** The smallest published epoch among the first `n` reader slots; 0 means that the slot is not reading. */
  ghost function MinActive(readers: seq<Epoch>): (m: Option<Epoch>)
    ensures m.None? <==> forall i :: 0 <= i < |readers| ==> readers[i] == 0
    ensures m.Some? ==> m.value in readers && m.value != 0
    ensures m.Some? ==> forall i :: 0 <= i < |readers| && readers[i] != 0 ==> m.value <= readers[i]
  {
    if readers == [] then None
    else
      var m := MinActive(readers[..|readers| - 1]);
      var e := readers[|readers| - 1];
      if e != 0 && (m.None? || e < m.value) then Some(e) else m
  }

  /** What a pass that starts at epoch `now` may free below. */
  ghost function SafeEpoch(readers: seq<Epoch>, now: Epoch): Epoch {
    var m := MinActive(readers);
    if m.Some? then m.value else now + 1
  }

  ghost function Concat(parts: seq<seq<PageID>>): seq<PageID> {
    if parts == [] then [] else Concat(parts[..|parts| - 1]) + parts[|parts| - 1]
  }

  /** In each slot, pages retired are pages freed, in order, followed by the pages that wait. */
  ghost predicate Accounted(retired: seq<seq<PageID>>, drained: seq<seq<PageID>>, pendings: seq<seq<Retired>>,
                            now: Epoch) {
    && |retired| == |drained| == |pendings|
    && forall i :: 0 <= i < |retired| ==> SlotAccounted(retired[i], drained[i], pendings[i], now)
  }

  ghost predicate SlotAccounted(retired: seq<PageID>, drained: seq<PageID>, pending: seq<Retired>, now: Epoch) {
    retired == drained + PagesOf(pending) && forall j :: 0 <= j < |pending| ==> 1 <= pending[j].epoch <= now
  }

  class EpochManager {
    var globalEpoch: Epoch
    const readers: array<Epoch>
    const slots: seq<EpochRing>
    var freed: seq<PageID>                 // arguments of the calls to freeFn so far
    ghost var retired: seq<seq<PageID>>    // history: pages handed to Retire, per slot
    ghost var drained: seq<seq<PageID>>    // history: pages taken out of each ring

    ghost predicate RingsValid()
      reads slots
    {
      && |slots| == MAX_READER_SLOTS
      && (forall i, j :: 0 <= i < j < |slots| ==> slots[i] != slots[j] && slots[i].buf != slots[j].buf)
      && (forall i :: 0 <= i < |slots| ==> slots[i].Valid())
    }

    /** The contents of all rings. */
    ghost function Pendings(): (ps: seq<seq<Retired>>)
      requires RingsValid()
      reads slots, set s | s in slots :: s.buf
      ensures |ps| == |slots| && forall i :: 0 <= i < |slots| ==> ps[i] == slots[i].Pending()
    {
      seq(|slots|, i requires 0 <= i < |slots|
          && RingsValid() reads slots, set s | s in slots :: s.buf => slots[i].Pending())
    }

    ghost predicate Valid()
      reads this, readers, slots, set s | s in slots :: s.buf
    {
      && RingsValid() && 1 <= globalEpoch && readers.Length == MAX_READER_SLOTS == |drained| == |retired|
      && (forall i :: 0 <= i < readers.Length ==> readers[i] <= globalEpoch)
      && Accounted(retired, drained, Pendings(), globalEpoch)
    }

    constructor ()
      ensures Valid() && globalEpoch == 1 && freed == [] && MinActive(readers[..]).None?
      ensures forall i :: 0 <= i < |slots| ==> Pendings()[i] == [] && retired[i] == []
    {
      hide Window;
      var rings: seq<EpochRing> := [];
      while |rings| < MAX_READER_SLOTS
        invariant |rings| <= MAX_READER_SLOTS
        invariant forall i :: 0 <= i < |rings| ==>
                  fresh(rings[i]) && fresh(rings[i].buf) && rings[i].Valid() && rings[i].Pending() == []
        invariant forall i, j :: 0 <= i < j < |rings| ==> rings[i] != rings[j] && rings[i].buf != rings[j].buf
      {
        var ring := new EpochRing();
        rings := rings + [ring];
      }
      slots := rings;
      readers := new Epoch[MAX_READER_SLOTS](_ => 0);
      globalEpoch, freed := 1, [];
      retired, drained := seq(MAX_READER_SLOTS, _ => []), seq(MAX_READER_SLOTS, _ => []);
    }

    method Push(k: nat, page: PageID) returns (ok: bool)
      requires RingsValid() && k < |slots|
      modifies slots[k], slots[k].buf
      ensures RingsValid()
      ensures ok <==> |old(Pendings())[k]| < RING_SIZE
      ensures Pendings() == if ok then old(Pendings())[k := old(Pendings())[k] + [Retired(page, globalEpoch)]]
              else old(Pendings())
    {
      hide Window, PagesOf;
      ghost var was := Pendings();
      ok := slots[k].Retire(page, globalEpoch);
      forall i | 0 <= i < |slots| && i != k ensures slots[i].Pending() == was[i] {}
    }

    /** One attempt of `Retire`: no entry that waits is overwritten. */
    method Retire(slot: nat, page: PageID) returns (ok: bool)
      requires Valid() && slot < MAX_READER_SLOTS
      modifies this`retired, slots[slot], slots[slot].buf
      ensures Valid() && globalEpoch == old(globalEpoch)
      ensures ok <==> |old(Pendings())[slot]| < RING_SIZE
      ensures Pendings() == if ok then old(Pendings())[slot := old(Pendings())[slot] + [Retired(page, globalEpoch)]]
              else old(Pendings())
      ensures retired == if ok then old(retired)[slot := old(retired)[slot] + [page]] else old(retired)
    {
      hide Window, PagesOf;
      ghost var was := Pendings();
      ok := Push(slot, page);
      if ok {
        retired := retired[slot := retired[slot] + [page]];
        RetireAccounted(old(retired)[slot], drained[slot], was[slot], page, globalEpoch);
      }
    }

    /** The scan of `tryReclaim` over the reader slots. */
    method Scan() returns (minActive: Option<Epoch>)
      ensures minActive == MinActive(readers[..])
    {
      minActive := None;
      var i := 0;
      while i < readers.Length
        invariant i <= readers.Length && minActive == MinActive(readers[..i])
      {
        var e := readers[i];
        assert readers[..i + 1][..i] == readers[..i];
        if e != 0 && (minActive.None? || e < minActive.value) {
          minActive := Some(e);
        }
        i := i + 1;
      }
      assert readers[..i] == readers[..];
    }

    /** Draining one ring leaves the others alone. */
    method DrainSlot(k: nat, safe: Epoch) returns (pages: seq<PageID>)
      requires RingsValid() && k < |slots|
      modifies slots[k]
      ensures RingsValid()
      ensures var n := SafePrefix(old(Pendings()[k]), safe);
              pages == PagesOf(old(Pendings()[k])[..n]) && Pendings() == old(Pendings())[k := old(Pendings()[k])[n..]]
    {
      hide Window, PagesOf;
      ghost var was := Pendings();
      pages := slots[k].Drain(safe);
      forall i | 0 <= i < |slots| && i != k ensures slots[i].Pending() == was[i] {}
    }

    method DrainAll(safe: Epoch) returns (toFree: seq<PageID>, ghost parts: seq<seq<PageID>>)
      requires RingsValid()
      modifies slots
      ensures RingsValid() && toFree == Concat(parts) && |parts| == |slots|
      ensures AllTaken(old(Pendings()), Pendings(), parts, safe)
    {
      hide Window, PagesOf, SafePrefix;
      toFree, parts := [], [];
      ghost var was := Pendings();
      var k := 0;
      while k < |slots|
        invariant k <= |slots| && |parts| == k && toFree == Concat(parts) && RingsValid()
        invariant forall i :: k <= i < |slots| ==> Pendings()[i] == was[i]
        invariant forall i :: 0 <= i < k ==> Taken(was[i], Pendings()[i], parts[i], safe)
      {
        var pages := DrainSlot(k, safe);
        assert (parts + [pages])[..k] == parts;
        parts := parts + [pages];
        toFree := toFree + pages;
        k := k + 1;
      }
    }

    /**
     `tryReclaim`: every ring loses its longest safe prefix, and exactly those pages are freed, in
     order. With no reader inside, every ring is empty afterwards.
     */
    method TryReclaim() returns (ghost parts: seq<seq<PageID>>)
      requires Valid()
      modifies this`globalEpoch, this`freed, this`drained, slots
      ensures Valid() && globalEpoch == old(globalEpoch) + 1 && retired == old(retired)
      ensures AllTaken(old(Pendings()), Pendings(), parts, SafeEpoch(readers[..], old(globalEpoch)))
      ensures freed == old(freed) + Concat(parts) && |parts| == |old(drained)|
              && drained == AppendEach(old(drained), parts)
      ensures MinActive(readers[..]).None? ==> forall i :: 0 <= i < |slots| ==> Pendings()[i] == []
    {
      hide Window, Accounted, AllTaken, MinActive, Concat, AppendEach;
      ghost var was := Pendings();
      globalEpoch := globalEpoch + 1;
      var minActive := Scan();
      var safe := if minActive.Some? then minActive.value else globalEpoch;
      var toFree;
      toFree, parts := DrainAll(safe);
      ghost var now := Pendings();
      AllAccounted(retired, drained, was, now, parts, safe, old(globalEpoch));
      drained := AppendEach(drained, parts);
      freed := freed + toFree;
      assert Pendings() == now;
    }
  }

  ghost function AppendEach(a: seq<seq<PageID>>, b: seq<seq<PageID>>): (c: seq<seq<PageID>>)
    requires |a| == |b|
    ensures |c| == |a| && forall i :: 0 <= i < |a| ==> c[i] == a[i] + b[i]
  {
    seq(|a|, i requires 0 <= i < |a| => a[i] + b[i])
  }

  lemma AllAccounted(retired: seq<seq<PageID>>, drained: seq<seq<PageID>>, was: seq<seq<Retired>>,
                     now: seq<seq<Retired>>, parts: seq<seq<PageID>>, safe: Epoch, epoch: Epoch)
    requires Accounted(retired, drained, was, epoch) && AllTaken(was, now, parts, safe)
    ensures Accounted(retired, AppendEach(drained, parts), now, epoch + 1)
    ensures safe > epoch ==> forall i :: 0 <= i < |now| ==> now[i] == []
  {
    hide PagesOf, SafePrefix, Taken;
    forall i | 0 <= i < |was| ensures SlotAccounted(retired[i], drained[i] + parts[i], now[i], epoch + 1)
      && (safe > epoch ==> now[i] == []) {
      TakenAccounted(retired[i], drained[i], was[i], now[i], parts[i], safe, epoch);
    }
  }

  /** `now` is what is left of `was` after its safe prefix `part` was taken. */
  ghost predicate Taken(was: seq<Retired>, now: seq<Retired>, part: seq<PageID>, safe: Epoch) {
    var n := SafePrefix(was, safe);
    part == PagesOf(was[..n]) && now == was[n..]
  }

  ghost predicate AllTaken(was: seq<seq<Retired>>, now: seq<seq<Retired>>, parts: seq<seq<PageID>>, safe: Epoch) {
    |now| == |was| == |parts| && forall i :: 0 <= i < |was| ==> Taken(was[i], now[i], parts[i], safe)
  }

  lemma TakenAccounted(retired: seq<PageID>, drained: seq<PageID>, was: seq<Retired>, now: seq<Retired>,
                       part: seq<PageID>, safe: Epoch, epoch: Epoch)
    requires SlotAccounted(retired, drained, was, epoch) && Taken(was, now, part, safe)
    ensures SlotAccounted(retired, drained + part, now, epoch + 1)
    ensures safe > epoch ==> now == []
  {
    assert PagesOf(was) == part + PagesOf(now);
  }

  lemma RetireAccounted(retired: seq<PageID>, drained: seq<PageID>, pending: seq<Retired>, page: PageID, epoch: Epoch)
    requires SlotAccounted(retired, drained, pending, epoch) && 1 <= epoch
    ensures SlotAccounted(retired + [page], drained, pending + [Retired(page, epoch)], epoch)
  {
    assert PagesOf(pending + [Retired(page, epoch)]) == PagesOf(pending) + [page];
  }
}
