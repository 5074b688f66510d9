/** Epoch safety and accounting over every interleaving in which no scan overtakes the epoch of its pass. */
module EpochProof {
  import opened Bytes
  import opened Finite
  import opened EpochRing
  import opened EpochMachine
  import EpochManager

  // ---------------------------------------------------------------- readers

  ghost predicate ReaderOK(p: ReaderSlot, global: Epoch) {
    && p.published <= global
    && (p.published == 0 <==> p.reader.Out? || p.reader.Loaded?)
    && (p.reader.Loaded? || p.reader.Stored? || p.reader.Reloaded? ==> 1 <= p.reader.epoch <= global)
    && (p.reader.Stored? ==> p.published == p.reader.epoch)
    && (p.reader.Active? ==> 1 <= p.published <= p.entered <= global)
  }

  ghost predicate ReadersOK(s: State) {
    1 <= s.global && forall i: Slot {:trigger SlotAt(s, i)} :: ReaderOK(SlotAt(s, i), s.global)
  }

  // ---------------------------------------------------------------- passes

  /** What a pass may free below if the remaining slots are not reading. */
  ghost function Floor(p: Pass): Epoch
    requires !p.Resting?
  {
    if p.Draining? then p.safe
    else if p.minActive.Some? && p.minActive.value < p.started then p.minActive.value
    else p.started
  }

  /** Every active reader a pass has looked at, or that entered afterwards, is protected from it. */
  ghost predicate PassOK(s: State, p: Pass) {
    !p.Resting? ==>
      && Floor(p) <= s.global && (p.Scanning? ==> p.started <= s.global)
      && forall i: Slot {:trigger SlotAt(s, i)} ::
           SlotAt(s, i).reader.Active? && (p.Scanning? ==> i < p.next) ==> Floor(p) <= SlotAt(s, i).entered
  }

  ghost predicate PassesOK(s: State) {
    forall r {:trigger PassAt(s, r)} :: PassOK(s, PassAt(s, r))
  }

  // ---------------------------------------------------------------- where every unlinked page is

  datatype Holder = AtWriter(writer: Thread) | AtRing(slot: Slot) | AtPass(pass: Thread) | Freed

  ghost function Has(s: State, h: Holder): seq<PageID> {
    match h
    case AtWriter(w) => WriterAt(s, w).pages
    case AtRing(i) => PagesOf(RingAt(s, i))
    case AtPass(r) => if PassAt(s, r).Draining? then PassAt(s, r).toFree else []
    case Freed => s.freed
  }

  /** Every page that was unlinked is in exactly one place, once. */
  ghost predicate Partition(s: State) {
    && (forall h {:trigger Has(s, h)} :: Distinct(Has(s, h)) && forall p :: p in Has(s, h) ==> p in s.gone)
    && (forall h, g, p {:trigger p in Has(s, h), p in Has(s, g)} :: p in Has(s, h) && p in Has(s, g) ==> h == g)
    && (forall p :: p in s.gone ==> exists h :: p in Has(s, h))
  }

  // ---------------------------------------------------------------- stamps

  ghost predicate StampsOK(s: State) {
    && (forall p :: p in s.stamps ==> p in s.gone)
    && (forall w {:trigger WriterAt(s, w)} :: WriterOK(s, WriterAt(s, w)))
    && (forall i: Slot {:trigger RingAt(s, i)} :: RingOK(s, RingAt(s, i)))
    && (forall i: Slot, p {:trigger p in SlotAt(s, i).since} ::
          SlotAt(s, i).reader.Active? && p in SlotAt(s, i).since && p in s.stamps ==>
            SlotAt(s, i).entered <= s.stamps[p])
    && (forall r, p {:trigger p in Has(s, AtPass(r))} :: p in Has(s, AtPass(r)) ==> p in s.stamps)
    && (forall p :: p in s.freed ==> p in s.stamps)
  }

  ghost predicate WriterOK(s: State, w: Writer) {
    if w.Unlinking? then forall p :: p in w.pages ==> p !in s.stamps
    else 1 <= w.epoch <= s.global && forall p :: p in w.pages ==> p in s.stamps && s.stamps[p] == w.epoch
  }

  ghost predicate RingOK(s: State, es: seq<Retired>) {
    forall e :: e in es ==> e.page in s.stamps && s.stamps[e.page] == e.epoch && 1 <= e.epoch <= s.global
  }

  /** Nothing a pass is about to free was unlinked under an active reader. */
  ghost predicate Protected(s: State) {
    forall i: Slot, r, p {:trigger p in SlotAt(s, i).since, p in Has(s, AtPass(r))} ::
      SlotAt(s, i).reader.Active? && p in SlotAt(s, i).since ==> p !in Has(s, AtPass(r))
  }

  ghost predicate Inv(s: State) {
    ReadersOK(s) && PassesOK(s) && Partition(s) && StampsOK(s) && Protected(s) && Safe(s)
  }

  // ---------------------------------------------------------------- moving pages

  /** The first `n` pages of one holder go to the end of another. */
  ghost predicate Moved(s: State, s': State, h: Holder, g: Holder, n: nat) {
    && h != g && n <= |Has(s, h)|
    && Has(s', h) == Has(s, h)[n..] && Has(s', g) == Has(s, g) + Has(s, h)[..n]
    && (forall x {:trigger Has(s', x)} :: x != h && x != g ==> Has(s', x) == Has(s, x))
    && s'.gone == s.gone
  }

  lemma MovedPartition(s: State, s': State, h: Holder, g: Holder, n: nat)
    requires Partition(s) && Moved(s, s', h, g, n)
    ensures Partition(s')
  {
    hide Has, Distinct, Moved, Partition;
    forall x ensures Distinct(Has(s', x)) && forall p :: p in Has(s', x) ==> p in s'.gone {
      MovedOnce(s, s', h, g, n, x);
    }
    forall x, y, p | p in Has(s', x) && p in Has(s', y) ensures x == y {
      MovedApart(s, s', h, g, n, x, y, p);
    }
    forall p | p in s'.gone ensures exists x :: p in Has(s', x) {
      MovedSomewhere(s, s', h, g, n, p);
    }
    PartitionOf(s');
  }

  lemma PartitionOf(s: State)
    requires forall h {:trigger Has(s, h)} :: Distinct(Has(s, h)) && forall p :: p in Has(s, h) ==> p in s.gone
    requires forall h, g, p {:trigger p in Has(s, h), p in Has(s, g)} :: p in Has(s, h) && p in Has(s, g) ==> h == g
    requires forall p :: p in s.gone ==> exists h :: p in Has(s, h)
    ensures Partition(s)
  {
    hide Has, Distinct;
  }

  lemma MovedOnce(s: State, s': State, h: Holder, g: Holder, n: nat, x: Holder)
    requires Partition(s) && Moved(s, s', h, g, n)
    ensures Distinct(Has(s', x)) && forall p :: p in Has(s', x) ==> p in s'.gone
  {
    hide Has;
    assert Distinct(Has(s, x)) && Distinct(Has(s, h)) && Distinct(Has(s, g));
    if x == g {
      assert forall p :: p in Has(s, h)[..n] ==> p in Has(s, h);
      AppendDistinct(Has(s, g), Has(s, h)[..n]);
    } else if x != h {
      assert Has(s', x) == Has(s, x);
    }
  }

  lemma MovedApart(s: State, s': State, h: Holder, g: Holder, n: nat, x: Holder, y: Holder, p: PageID)
    requires Partition(s) && Moved(s, s', h, g, n) && p in Has(s', x) && p in Has(s', y)
    ensures x == y
  {
    hide Has, Distinct;
    MovedWhere(s, s', h, g, n, x, p);
    MovedWhere(s, s', h, g, n, y, p);
  }

  lemma MovedSomewhere(s: State, s': State, h: Holder, g: Holder, n: nat, p: PageID)
    requires Partition(s) && Moved(s, s', h, g, n) && p in s'.gone
    ensures exists x :: p in Has(s', x)
  {
    hide Has, Distinct;
    var x :| p in Has(s, x);
    assert x != h && x != g ==> Has(s', x) == Has(s, x);
    assert Has(s, h) == Has(s, h)[..n] + Has(s, h)[n..];
    assert p in Has(s', x) || p in Has(s', g);
  }

  lemma AppendDistinct(a: seq<PageID>, b: seq<PageID>)
    requires Distinct(a) && Distinct(b) && forall p :: p in a ==> p !in b
    ensures Distinct(a + b)
  {
    var c := a + b;
    forall i, j | 0 <= i < j < |c| ensures c[i] != c[j] {
      assert c[i] == if i < |a| then a[i] else b[i - |a|];
      assert c[j] == if j < |a| then a[j] else b[j - |a|];
      assert i < |a| <= j ==> a[i] in a && b[j - |a|] in b;
    }
  }

  lemma MovedWhere(s: State, s': State, h: Holder, g: Holder, n: nat, x: Holder, p: PageID)
    requires Partition(s) && Moved(s, s', h, g, n) && p in Has(s', x)
    ensures if p in Has(s, h)[..n] then x == g else p in Has(s, x)
  {
    hide Has;
    var a := Has(s, h);
    assert p in a[..n] ==> p in a;
    if x == h {
      var i :| 0 <= i < |a[n..]| && a[n..][i] == p;
      assert a[n + i] == p && p in a;
    } else if x != g {
      assert p in Has(s, x);
    }
  }

  // ---------------------------------------------------------------- readers' steps

  lemma ReadSlot(p: ReaderSlot, a: Action, global: Epoch)
    requires 1 <= global && (a.LoadEpoch? || a.StoreEpoch? || a.Recheck? || a.LoadAgain? || a.StoreAgain?
                             || a.ExitRead?)
    requires ReaderOK(p, global)
    ensures var q := ReadStep(p, a, global);
            ReaderOK(q, global) && (q.reader.Active? ==> q == p || (q.since == {} && q.entered == global))
  {
  }

  lemma ReaderStep(s: State, a: Action)
    requires Inv(s) && (a.LoadEpoch? || a.StoreEpoch? || a.Recheck? || a.LoadAgain? || a.StoreAgain? || a.ExitRead?)
    ensures Inv(DoRead(s, a))
  {
    hide Distinct, Partition, ReadStep;
    var s', k := DoRead(s, a), a.slot;
    assert ReaderOK(SlotAt(s, k), s.global);
    ReadSlot(SlotAt(s, k), a, s.global);
    forall i: Slot ensures ReaderOK(SlotAt(s', i), s.global) && (i != k ==> SlotAt(s', i) == SlotAt(s, i)) {
      assert ReaderOK(SlotAt(s, i), s.global);
    }
    forall h ensures Has(s', h) == Has(s, h) {}
    SamePartition(s, s');
    forall r ensures PassAt(s', r) == PassAt(s, r) && PassOK(s', PassAt(s', r)) {
      assert PassOK(s, PassAt(s, r));
    }
    forall w ensures WriterAt(s', w) == WriterAt(s, w) && WriterOK(s', WriterAt(s', w)) {
      assert WriterOK(s, WriterAt(s, w));
    }
    forall i: Slot ensures RingAt(s', i) == RingAt(s, i) && RingOK(s', RingAt(s', i)) {
      assert RingOK(s, RingAt(s, i));
    }
  }

  lemma SamePartition(s: State, s': State)
    requires Partition(s) && s'.gone == s.gone && forall h {:trigger Has(s', h)} :: Has(s', h) == Has(s, h)
    ensures Partition(s')
  {
    hide Has, Distinct;
    forall h ensures Distinct(Has(s', h)) && forall p :: p in Has(s', h) ==> p in s'.gone {
      assert Has(s', h) == Has(s, h);
    }
    forall p | p in s'.gone ensures exists h :: p in Has(s', h) {
      var h :| p in Has(s, h);
      assert p in Has(s', h);
    }
  }

  // ---------------------------------------------------------------- writers' steps

  /** Readers and passes do not notice what writers do. */
  lemma WriterFrame(s: State, s': State)
    requires ReadersOK(s) && PassesOK(s)
    requires s'.global == s.global && s'.passes == s.passes
    requires forall i: Slot {:trigger SlotAt(s', i)} :: SlotAt(s', i).(since := {}) == SlotAt(s, i).(since := {})
    ensures ReadersOK(s') && PassesOK(s')
  {
    forall i: Slot ensures ReaderOK(SlotAt(s', i), s.global) {
      assert ReaderOK(SlotAt(s, i), s.global) && SlotAt(s', i) == SlotAt(s', i);
    }
    forall r ensures PassAt(s', r) == PassAt(s, r) && PassOK(s', PassAt(s', r)) {
      assert PassOK(s, PassAt(s, r));
    }
  }

  lemma UnlinkStep(s: State, t: Thread, page: PageID)
    requires Inv(s) && WriterAt(s, t).Unlinking? && page !in s.gone
    ensures Inv(DoWrite(s, Unlink(t, page)))
  {
    hide Distinct, ReadersOK, PassesOK, Partition;
    var s' := DoWrite(s, Unlink(t, page));
    forall i: Slot ensures SlotAt(s', i) == SlotAt(s, i).(since := SlotAt(s, i).since + {page}) {}
    WriterFrame(s, s');
    forall h ensures Has(s', h) == Has(s, h) + if h == AtWriter(t) then [page] else [] {}
    UnlinkPartition(s, s', AtWriter(t), page);
    UnlinkStamps(s, s', t, page);
  }

  lemma UnlinkStamps(s: State, s': State, t: Thread, page: PageID)
    requires StampsOK(s) && Protected(s) && Safe(s) && Partition(s) && WriterAt(s, t).Unlinking? && page !in s.gone
    requires s' == DoWrite(s, Unlink(t, page))
    requires forall i: Slot {:trigger SlotAt(s', i)} ::
             SlotAt(s', i) == SlotAt(s, i).(since := SlotAt(s, i).since + {page})
    requires forall h {:trigger Has(s', h)} :: Has(s', h) == Has(s, h) + if h == AtWriter(t) then [page] else []
    ensures StampsOK(s') && Protected(s') && Safe(s')
  {
    hide Distinct, Has;
    assert page !in s.stamps;
    forall w ensures WriterOK(s', WriterAt(s', w)) {
      assert WriterOK(s, WriterAt(s, w));
    }
    forall i: Slot ensures RingAt(s', i) == RingAt(s, i) && RingOK(s', RingAt(s', i)) {
      assert RingOK(s, RingAt(s, i));
    }
  }

  lemma UnlinkPartition(s: State, s': State, h: Holder, page: PageID)
    requires Partition(s) && page !in s.gone && s'.gone == s.gone + {page}
    requires forall x {:trigger Has(s', x)} :: Has(s', x) == Has(s, x) + if x == h then [page] else []
    ensures Partition(s')
  {
    hide Has;
    forall x ensures Distinct(Has(s', x)) && forall p :: p in Has(s', x) ==> p in s'.gone {
      assert Distinct(Has(s, x));
      AppendDistinct(Has(s, x), if x == h then [page] else []);
    }
    forall x, y, p | p in Has(s', x) && p in Has(s', y) ensures x == y {
      assert p != page ==> p in Has(s, x) && p in Has(s, y);
      assert p == page ==> p !in Has(s, x) && p !in Has(s, y);
    }
    forall p | p in s'.gone ensures exists x :: p in Has(s', x) {
      if p == page {
        assert p in Has(s', h);
      } else {
        var x :| p in Has(s, x);
        assert p in Has(s', x);
      }
    }
  }

  lemma StampStep(s: State, t: Thread)
    requires Inv(s) && WriterAt(s, t).Unlinking? && WriterAt(s, t).pages != []
    ensures Inv(DoWrite(s, Stamp(t)))
  {
    hide Distinct, ReadersOK, PassesOK, Partition, StampsOK;
    var s' := DoWrite(s, Stamp(t));
    WriterFrame(s, s');
    forall h ensures Has(s', h) == Has(s, h) {}
    SamePartition(s, s');
    StampStamps(s, s', t);
    forall i: Slot ensures SlotAt(s', i) == SlotAt(s, i) {}
  }

  lemma StampStamps(s: State, s': State, t: Thread)
    requires StampsOK(s) && ReadersOK(s) && Partition(s) && WriterAt(s, t).Unlinking? && WriterAt(s, t).pages != []
    requires s' == DoWrite(s, Stamp(t)) && forall h {:trigger Has(s', h)} :: Has(s', h) == Has(s, h)
    ensures StampsOK(s')
  {
    hide Distinct, Partition;
    var mine := WriterAt(s, t).pages;
    assert Has(s, AtWriter(t)) == mine;
    HolderGone(s, AtWriter(t));
    assert forall p :: p in mine ==> p in s'.stamps && s'.stamps[p] == s.global;
    assert forall p :: p in mine ==> p !in s.stamps by { assert WriterOK(s, WriterAt(s, t)); }
    assert forall p :: p in s'.stamps ==> p in mine || (p in s.stamps && s'.stamps[p] == s.stamps[p]);
    assert forall p :: p in s.stamps ==> p in s'.stamps && s'.stamps[p] == s.stamps[p];
    forall w ensures WriterOK(s', WriterAt(s', w)) {
      assert WriterOK(s, WriterAt(s, w));
      if w != t {
        HoldersApart(s, AtWriter(w), AtWriter(t));
        assert Has(s, AtWriter(w)) == WriterAt(s, w).pages;
      }
    }
    forall i: Slot ensures RingAt(s', i) == RingAt(s, i) && RingOK(s', RingAt(s', i)) {
      assert RingOK(s, RingAt(s, i));
    }
    forall i: Slot ensures SlotAt(s', i) == SlotAt(s, i) {
      assert ReaderOK(SlotAt(s, i), s.global);
    }
  }

  lemma HolderGone(s: State, h: Holder)
    requires Partition(s)
    ensures forall p :: p in Has(s, h) ==> p in s.gone
  {
  }

  lemma HoldersApart(s: State, h: Holder, g: Holder)
    requires Partition(s) && h != g
    ensures forall p :: p in Has(s, h) ==> p !in Has(s, g)
  {
  }

  lemma PushStep(s: State, t: Thread, k: Slot)
    requires Inv(s) && WriterAt(s, t).Stamped? && WriterAt(s, t).pages != [] && |RingAt(s, k)| < RING_SIZE
    ensures Inv(DoWrite(s, Push(t, k)))
  {
    hide Distinct, ReadersOK, PassesOK, Partition, StampsOK;
    var s', w := DoWrite(s, Push(t, k)), WriterAt(s, t);
    WriterFrame(s, s');
    assert Has(s', AtWriter(t)) == Has(s, AtWriter(t))[1..];
    assert PagesOf(RingAt(s', k)) == PagesOf(RingAt(s, k)) + [w.pages[0]];
    forall h | h != AtWriter(t) && h != AtRing(k) ensures Has(s', h) == Has(s, h) {}
    assert w.pages[..1] == [w.pages[0]];
    MovedPartition(s, s', AtWriter(t), AtRing(k), 1);
    PushStamps(s, s', t, k);
    forall i: Slot ensures SlotAt(s', i) == SlotAt(s, i) {}
    forall r ensures Has(s', AtPass(r)) == Has(s, AtPass(r)) {}
  }

  lemma PushStamps(s: State, s': State, t: Thread, k: Slot)
    requires StampsOK(s) && WriterAt(s, t).Stamped? && WriterAt(s, t).pages != [] && |RingAt(s, k)| < RING_SIZE
    requires s' == DoWrite(s, Push(t, k))
    ensures StampsOK(s')
  {
    var w := WriterAt(s, t);
    assert WriterOK(s, w) && w.pages[0] in w.pages;
    forall v ensures WriterOK(s', WriterAt(s', v)) {
      assert WriterOK(s, WriterAt(s, v));
    }
    forall i: Slot ensures RingOK(s', RingAt(s', i)) {
      assert RingOK(s, RingAt(s, i));
    }
    forall r ensures Has(s', AtPass(r)) == Has(s, AtPass(r)) {}
    forall i: Slot ensures SlotAt(s', i) == SlotAt(s, i) {}
  }

  // ---------------------------------------------------------------- reclaim steps

  /** A pass changes only itself, the global epoch, one ring and the freed pages. */
  ghost predicate PassMoved(s: State, s': State, r: Thread) {
    && s'.slots == s.slots
    && s'.writers == s.writers && s'.stamps == s.stamps && s'.gone == s.gone && s.global <= s'.global
    && forall q {:trigger PassAt(s', q)} :: q != r ==> PassAt(s', q) == PassAt(s, q)
  }

  lemma PassReaders(s: State, s': State, r: Thread)
    requires ReadersOK(s) && PassMoved(s, s', r)
    ensures ReadersOK(s')
  {
    forall i: Slot ensures ReaderOK(SlotAt(s', i), s'.global) {
      assert ReaderOK(SlotAt(s, i), s.global);
    }
  }

  lemma AdvanceStep(s: State, r: Thread)
    requires Inv(s) && PassAt(s, r).Resting?
    ensures Inv(DoPass(s, Advance(r)))
  {
    hide Distinct, ReadersOK, Partition;
    var s' := DoPass(s, Advance(r));
    PassReaders(s, s', r);
    forall h ensures Has(s', h) == Has(s, h) {}
    SamePartition(s, s');
    forall w ensures WriterAt(s', w) == WriterAt(s, w) && WriterOK(s', WriterAt(s', w)) {
      assert WriterOK(s, WriterAt(s, w));
    }
    forall i: Slot ensures RingAt(s', i) == RingAt(s, i) && RingOK(s', RingAt(s', i)) {
      assert RingOK(s, RingAt(s, i));
    }
    forall i: Slot ensures SlotAt(s', i) == SlotAt(s, i) {}
    forall q ensures PassOK(s', PassAt(s', q)) {
      assert PassOK(s, PassAt(s, q)) && (q != r ==> PassAt(s', q) == PassAt(s, q));
    }
  }

  /** A step that only changes passes and holds no page keeps the stamps. */
  lemma StampsFrame(s: State, s': State)
    requires StampsOK(s) && s'.slots == s.slots && s'.writers == s.writers && s'.rings == s.rings
             && s'.stamps == s.stamps && s'.gone == s.gone
    requires s.global <= s'.global
    requires forall r, p {:trigger p in Has(s', AtPass(r))} :: p in Has(s', AtPass(r)) ==> p in s.stamps
    requires forall p :: p in s'.freed ==> p in s.stamps
    ensures StampsOK(s')
  {
    hide Has;
    forall w ensures WriterAt(s', w) == WriterAt(s, w) && WriterOK(s', WriterAt(s', w)) {
      assert WriterOK(s, WriterAt(s, w));
    }
    forall i: Slot ensures RingAt(s', i) == RingAt(s, i) && RingOK(s', RingAt(s', i)) {
      assert RingOK(s, RingAt(s, i));
    }
    forall i: Slot ensures SlotAt(s', i) == SlotAt(s, i) {}
  }

  /** A step of pass `r` leaves the other passes as they are. */
  lemma PassesFrame(s: State, s': State, r: Thread)
    requires PassesOK(s) && PassMoved(s, s', r) && PassOK(s', PassAt(s', r))
    ensures PassesOK(s')
  {
    hide SlotAt;
    forall q ensures PassOK(s', PassAt(s', q)) {
      assert PassOK(s, PassAt(s, q));
      if q != r {
        assert PassAt(s', q) == PassAt(s, q);
        PassKept(s, s', PassAt(s, q));
      }
    }
  }

  lemma PassKept(s: State, s': State, p: Pass)
    requires PassOK(s, p) && s'.slots == s.slots && s.global <= s'.global
    ensures PassOK(s', p)
  {
    forall i: Slot ensures SlotAt(s', i) == SlotAt(s, i) {}
  }

  /** Looking at a slot, or ending the scan, keeps every reader looked at protected. */
  lemma ScanPasses(s: State, s': State, r: Thread)
    requires ReadersOK(s) && PassesOK(s) && PassAt(s, r).Scanning? && Bounded(s, ScanSlot(r))
             && s' == DoPass(s, ScanSlot(r))
    ensures PassesOK(s')
  {
    hide PassesOK, PassOK, ReadersOK;
    PassIsOK(s, r);
    if PassAt(s, r).next >= EpochManager.MAX_READER_SLOTS {
      ScanEnded(s, PassAt(s, r), PassAt(s', r));
    } else {
      ScannedOne(s, PassAt(s, r), PassAt(s', r));
    }
    PassKept(s, s', PassAt(s', r));
    PassesFrame(s, s', r);
  }

  lemma ScanEnded(s: State, p: Pass, q: Pass)
    requires PassOK(s, p) && p.Scanning? && p.next >= EpochManager.MAX_READER_SLOTS
    requires p.minActive.None? || p.minActive.value <= p.started
    requires q == Draining(if p.minActive.Some? then p.minActive.value else p.started, 0, [])
    ensures PassOK(s, q)
  {
  }

  lemma ScannedOne(s: State, p: Pass, q: Pass)
    requires ReadersOK(s) && PassOK(s, p) && p.Scanning? && p.next < EpochManager.MAX_READER_SLOTS
    requires var e := SlotAt(s, p.next).published;
             q == Scanning(p.started, p.next + 1,
                           if e != 0 && (p.minActive.None? || e < p.minActive.value) then Some(e) else p.minActive)
    ensures PassOK(s, q)
  {
    assert ReaderOK(SlotAt(s, p.next), s.global);
  }

  lemma PassIsOK(s: State, r: Thread)
    requires PassesOK(s)
    ensures PassOK(s, PassAt(s, r))
  {
  }

  lemma ScanStep(s: State, r: Thread)
    requires Inv(s) && PassAt(s, r).Scanning? && Bounded(s, ScanSlot(r))
    ensures Inv(DoPass(s, ScanSlot(r)))
  {
    hide Distinct, Partition, ReadersOK, PassesOK, StampsOK;
    var s' := DoPass(s, ScanSlot(r));
    PassReaders(s, s', r);
    ScanPasses(s, s', r);
    forall h ensures Has(s', h) == Has(s, h) {}
    SamePartition(s, s');
    KnownStamps(s);
    StampsFrame(s, s');
    forall i: Slot ensures SlotAt(s', i) == SlotAt(s, i) {}
  }

  lemma KnownStamps(s: State)
    requires StampsOK(s)
    ensures forall r, p {:trigger p in Has(s, AtPass(r))} :: p in Has(s, AtPass(r)) ==> p in s.stamps
    ensures forall p :: p in s.freed ==> p in s.stamps
  {
  }

  /** A drained page was stamped before the epoch of every active reader that could still see it. */
  lemma DrainStep(s: State, r: Thread)
    requires Inv(s) && PassAt(s, r).Draining? && PassAt(s, r).next < EpochManager.MAX_READER_SLOTS
    ensures Inv(DoPass(s, DrainSlot(r)))
  {
    hide Distinct, ReadersOK, Partition, StampsOK, PassesOK;
    var s', p := DoPass(s, DrainSlot(r)), PassAt(s, r);
    var k: Slot := p.next;
    var es := RingAt(s, k);
    var n := SafePrefix(es, p.safe);
    PassReaders(s, s', r);
    DrainStamps(s, s', r);
    assert PagesOf(es)[n..] == PagesOf(es[n..]) && PagesOf(es)[..n] == PagesOf(es[..n]);
    forall h | h != AtRing(k) && h != AtPass(r) ensures Has(s', h) == Has(s, h) {}
    MovedPartition(s, s', AtRing(k), AtPass(r), n);
    DrainPasses(s, s', r);
    DrainProtected(s, s', r);
    forall i: Slot ensures SlotAt(s', i) == SlotAt(s, i) {}
  }

  lemma DrainPasses(s: State, s': State, r: Thread)
    requires PassesOK(s) && PassAt(s, r).Draining? && s' == DoPass(s, DrainSlot(r))
    ensures PassesOK(s')
  {
    hide PassesOK;
    PassIsOK(s, r);
    PassKept(s, s', PassAt(s, r));
    PassesFrame(s, s', r);
  }

  lemma DrainStamps(s: State, s': State, r: Thread)
    requires StampsOK(s) && PassAt(s, r).Draining? && PassAt(s, r).next < EpochManager.MAX_READER_SLOTS
    requires s' == DoPass(s, DrainSlot(r))
    ensures StampsOK(s')
  {
    var p := PassAt(s, r);
    var es := RingAt(s, p.next);
    var n := SafePrefix(es, p.safe);
    assert RingOK(s, es);
    forall w ensures WriterAt(s', w) == WriterAt(s, w) && WriterOK(s', WriterAt(s', w)) {
      assert WriterOK(s, WriterAt(s, w));
    }
    forall i: Slot ensures RingOK(s', RingAt(s', i)) {
      assert RingOK(s, RingAt(s, i));
    }
    forall q ensures forall x :: x in Has(s', AtPass(q)) ==> x in s'.stamps {
      assert forall x :: x in PagesOf(es[..n]) ==> x in s.stamps;
      assert forall x :: x in Has(s, AtPass(q)) ==> x in s.stamps;
    }
    forall i: Slot ensures SlotAt(s', i) == SlotAt(s, i) {}
  }

  lemma DrainProtected(s: State, s': State, r: Thread)
    requires StampsOK(s) && PassesOK(s) && Protected(s) && PassAt(s, r).Draining?
             && PassAt(s, r).next < EpochManager.MAX_READER_SLOTS
    requires s' == DoPass(s, DrainSlot(r))
    ensures Protected(s')
  {
    var p := PassAt(s, r);
    var es := RingAt(s, p.next);
    var n := SafePrefix(es, p.safe);
    assert RingOK(s, es) && PassOK(s, p);
    assert forall j :: 0 <= j < n ==> es[j] in es;
    forall i: Slot, q, x | SlotAt(s', i).reader.Active? && x in SlotAt(s', i).since ensures x !in Has(s', AtPass(q)) {
      assert SlotAt(s, i).reader.Active? && x in SlotAt(s, i).since && x !in Has(s, AtPass(q));
    }
  }

  lemma FreeStep(s: State, r: Thread)
    requires Inv(s) && PassAt(s, r).Draining? && PassAt(s, r).next >= EpochManager.MAX_READER_SLOTS
    ensures Inv(DoPass(s, FreePage(r)))
  {
    hide ReadersOK, Partition, PassesOK, StampsOK;
    var s' := DoPass(s, FreePage(r));
    PassReaders(s, s', r);
    FreePasses(s, s', r);
    FreeHolders(s, s', r);
    KnownStamps(s);
    StampsFrame(s, s');
    forall i: Slot ensures SlotAt(s', i) == SlotAt(s, i) {}
  }

  /** A freed page goes from the pass to the freed ones, and nothing else moves. */
  lemma FreeHolders(s: State, s': State, r: Thread)
    requires Partition(s) && PassAt(s, r).Draining? && PassAt(s, r).next >= EpochManager.MAX_READER_SLOTS
             && s' == DoPass(s, FreePage(r))
    ensures Partition(s') && forall q, x {:trigger x in Has(s', AtPass(q))} :: x in Has(s', AtPass(q)) ==>
            x in Has(s, AtPass(q))
    ensures forall x :: x in s'.freed ==> x in s.freed || x in Has(s, AtPass(r))
  {
    hide Distinct, Partition;
    var p := PassAt(s, r);
    forall h | h != AtPass(r) && h != Freed ensures Has(s', h) == Has(s, h) {}
    if p.toFree == [] {
      SamePartition(s, s');
    } else {
      assert p.toFree[..1] == [p.toFree[0]] && p.toFree[0] in Has(s, AtPass(r));
      MovedPartition(s, s', AtPass(r), Freed, 1);
    }
  }

  lemma FreePasses(s: State, s': State, r: Thread)
    requires PassesOK(s) && PassAt(s, r).Draining? && s' == DoPass(s, FreePage(r))
    ensures PassesOK(s')
  {
    hide PassesOK;
    PassIsOK(s, r);
    PassKept(s, s', PassAt(s, r));
    PassesFrame(s, s', r);
  }

  // ---------------------------------------------------------------- runs

  lemma StepInv(s: State, a: Action)
    requires Inv(s) && Bounded(s, a)
    ensures Inv(Do(s, a))
  {
    hide Inv, Bounded;
    match a
    case Unlink(t, page) => if WriterAt(s, t).Unlinking? && page !in s.gone { UnlinkStep(s, t, page); }
    case Stamp(t) => if WriterAt(s, t).Unlinking? && WriterAt(s, t).pages != [] { StampStep(s, t); }
    case Push(t, k) =>
      if WriterAt(s, t).Stamped? && WriterAt(s, t).pages != [] && |RingAt(s, k)| < RING_SIZE {
        PushStep(s, t, k);
      }
    case Advance(r) => if PassAt(s, r).Resting? { AdvanceStep(s, r); }
    case ScanSlot(r) => if PassAt(s, r).Scanning? { ScanStep(s, r); }
    case DrainSlot(r) =>
      if PassAt(s, r).Draining? && PassAt(s, r).next < EpochManager.MAX_READER_SLOTS {
        DrainStep(s, r);
      }
    case FreePage(r) =>
      if PassAt(s, r).Draining? && PassAt(s, r).next >= EpochManager.MAX_READER_SLOTS {
        FreeStep(s, r);
      }
    case LoadEpoch(_) => ReaderStep(s, a);
    case StoreEpoch(_) => ReaderStep(s, a);
    case Recheck(_) => ReaderStep(s, a);
    case LoadAgain(_) => ReaderStep(s, a);
    case StoreAgain(_) => ReaderStep(s, a);
    case ExitRead(_) => ReaderStep(s, a);
  }

  /**
   Over every interleaving, also of overlapping passes, in which no scan ends with a reader epoch above
   the epoch of its pass: no page is freed under a reader that entered before its unlink, and every
   unlinked page is with a writer, in a ring, with a pass or freed - in exactly one of these, and once.
   */
  lemma {:induction false} RunSafe(actions: seq<Action>)
    requires BoundedRun(actions)
    ensures Safe(Run(actions)) && Partition(Run(actions)) && Inv(Run(actions))
  {
    hide ReadersOK, PassesOK, Partition, StampsOK, Protected, Safe, Do, Bounded;
    if actions == [] {
      StartInv();
    } else {
      var n := |actions| - 1;
      BoundedFront(actions);
      RunSafe(actions[..n]);
      StepInv(Run(actions[..n]), actions[n]);
    }
  }

  lemma BoundedFront(actions: seq<Action>)
    requires actions != [] && BoundedRun(actions)
    ensures BoundedRun(actions[..|actions| - 1])
  {
    hide Bounded;
    var front := actions[..|actions| - 1];
    forall m | 0 <= m < |front| ensures Bounded(Run(front[..m]), front[m]) {
      assert front[..m] == actions[..m];
    }
  }

  // ---------------------------------------------------------------- one pass at a time

  /** With one pass under way, its epoch is the current one and no reader has published a later one. */
  ghost predicate SerialOK(s: State) {
    && (forall r, q {:trigger PassAt(s, r), PassAt(s, q)} :: !PassAt(s, r).Resting? && !PassAt(s, q).Resting? ==>
        r == q)
    && forall r {:trigger PassAt(s, r)} :: OnTime(PassAt(s, r), s.global)
  }

  /** What `SerialOK` says of one pass. */
  ghost predicate OnTime(p: Pass, global: Epoch) {
    p.Scanning? ==> p.started == global && (p.minActive.Some? ==> p.minActive.value <= p.started)
  }

  lemma SerialFrame(s: State, s': State)
    requires SerialOK(s) && s'.passes == s.passes && s'.global == s.global
    ensures SerialOK(s')
  {
    forall r ensures PassAt(s', r) == PassAt(s, r) {}
  }

  lemma SerialPass(s: State, a: Action)
    requires ReadersOK(s) && SerialOK(s) && Serial(s, a) && (a.Advance? || a.ScanSlot? || a.DrainSlot? || a.FreePage?)
    ensures SerialOK(DoPass(s, a))
  {
    var s', p := DoPass(s, a), PassAt(s, a.pass);
    forall r ensures r != a.pass ==> PassAt(s', r) == PassAt(s, r) {}
    if a.ScanSlot? && p.Scanning? && p.next < EpochManager.MAX_READER_SLOTS {
      assert ReaderOK(SlotAt(s, p.next), s.global);
    }
    assert OnTime(p, s.global);
    assert OnTime(PassAt(s', a.pass), s'.global);
    forall r ensures OnTime(PassAt(s', r), s'.global) {
      assert OnTime(PassAt(s, r), s.global);
    }
  }

  lemma SerialStep(s: State, a: Action)
    requires ReadersOK(s) && SerialOK(s) && Serial(s, a)
    ensures SerialOK(Do(s, a)) && Bounded(s, a)
  {
    hide SerialOK, ReadersOK, Serial;
    if a.Advance? || a.ScanSlot? || a.DrainSlot? || a.FreePage? {
      SerialPass(s, a);
      SerialAt(s, a.pass);
    } else {
      SerialFrame(s, Do(s, a));
    }
  }

  lemma SerialAt(s: State, r: Thread)
    requires SerialOK(s)
    ensures OnTime(PassAt(s, r), s.global)
  {
  }

  /** Passes that do not overlap never overtake their epoch. */
  lemma {:induction false} SerialIsBounded(actions: seq<Action>)
    requires SerialRun(actions)
    ensures BoundedRun(actions) && SerialOK(Run(actions))
  {
    hide Do, Bounded, Serial, ReadersOK, PassesOK, Partition, StampsOK, Protected, Safe;
    if actions == [] {
      forall r ensures PassAt(START, r).Resting? {}
    } else {
      var n := |actions| - 1;
      var front := actions[..n];
      forall m | 0 <= m < n ensures Serial(Run(front[..m]), front[m]) {
        assert front[..m] == actions[..m];
      }
      SerialIsBounded(front);
      RunSafe(front);
      SerialStep(Run(front), actions[n]);
      forall m | 0 <= m < |actions| ensures Bounded(Run(actions[..m]), actions[m]) {
        if m < n {
          assert front[..m] == actions[..m] && front[m] == actions[m];
        }
      }
    }
  }

  /** With at most one pass under way at any time, a pass starts only while all others rest. */
  lemma AtMostOneIsSerial(actions: seq<Action>)
    requires AtMost(actions, 1)
    ensures SerialRun(actions)
  {
    forall n | 0 <= n < |actions| ensures Serial(Run(actions[..n]), actions[n]) {
      var s, a, s' := Run(actions[..n]), actions[n], Run(actions[..n + 1]);
      assert actions[..n + 1][..n] == actions[..n];
      assert |Running(s')| <= 1;
      if a.Advance? && PassAt(s, a.pass).Resting? {
        forall r ensures PassAt(s, r).Resting? {
          if !PassAt(s, r).Resting? {
            assert r in Running(s') && a.pass in Running(s');
            TwoMembers(Running(s'), r, a.pass);
          }
        }
      }
    }
  }

  lemma TwoMembers(s: set<Thread>, a: Thread, b: Thread)
    requires a in s && b in s && a != b
    ensures |s| >= 2
  {
    assert {a, b} <= s;
    assert s == {a, b} + (s - {a, b});
  }

  /** One pass at a time is safe. */
  lemma OnePassSafe(actions: seq<Action>)
    requires AtMost(actions, 1)
    ensures Safe(Run(actions)) && Partition(Run(actions))
  {
    AtMostOneIsSerial(actions);
    SerialIsBounded(actions);
    RunSafe(actions);
  }

  lemma StartInv()
    ensures Inv(START)
  {
    forall h ensures Has(START, h) == [] {}
    forall i: Slot ensures SlotAt(START, i) == ReaderSlot(Out, 0, 0, {}) && RingAt(START, i) == [] {}
    forall r ensures PassAt(START, r).Resting? {}
    forall w ensures WriterAt(START, w) == Unlinking([]) {}
  }
}
