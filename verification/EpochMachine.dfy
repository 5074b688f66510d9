/**
 Readers, writers and reclaim passes of the epoch manager as a machine of atomic loads and stores
 (epoch.go). A page stands for one life of a page ID: it is unlinked at most once. A reader slot is
 held by one reader at a time. Retire's claim and publication of a ring cell are one step.
 */
module EpochMachine {
  import opened Bytes
  import opened EpochRing
  import EpochManager

  type Slot = s: nat | s < EpochManager.MAX_READER_SLOTS
  type Thread = nat

  datatype Reader =
    | Out
    | Loaded(epoch: Epoch)       // EnterRead has loaded the global epoch
    | Stored(epoch: Epoch)       // and published it
    | Stale                      // the global epoch has moved on: about to load it again
    | Reloaded(epoch: Epoch)     // and to publish it again
    | Active                     // EnterRead has returned

  /**
   A reader slot; `entered` and `since` are history: the global epoch when EnterRead returned, and
   the pages unlinked since then.
   */
  datatype ReaderSlot = ReaderSlot(reader: Reader, published: Epoch, entered: Epoch, since: set<PageID>)

  datatype Writer =
    | Unlinking(pages: seq<PageID>)                // pages taken out of the tree and not yet stamped
    | Stamped(pages: seq<PageID>, epoch: Epoch)    // Retire or RetireBatch has loaded the global epoch

  datatype Pass =
    | Resting
    | Scanning(started: Epoch, next: nat, minActive: Option<Epoch>)
    | Draining(safe: Epoch, next: nat, toFree: seq<PageID>)

  datatype State = State(
    global: Epoch,
    slots: map<Slot, ReaderSlot>,
    writers: map<Thread, Writer>,
    rings: map<Slot, seq<Retired>>,
    passes: map<Thread, Pass>,
    freed: seq<PageID>,                  // arguments of freeFn
    stamps: map<PageID, Epoch>,          // history: epoch each page was retired with
    gone: set<PageID>)                   // history: pages ever unlinked

  datatype Action =
    | LoadEpoch(slot: Slot) | StoreEpoch(slot: Slot) | Recheck(slot: Slot)
    | LoadAgain(slot: Slot) | StoreAgain(slot: Slot)
    | ExitRead(slot: Slot)
    | Unlink(writer: Thread, page: PageID) | Stamp(writer: Thread) | Push(writer: Thread, slot: Slot)
    | Advance(pass: Thread) | ScanSlot(pass: Thread) | DrainSlot(pass: Thread) | FreePage(pass: Thread)

  function SlotAt(s: State, i: Slot): ReaderSlot {
    if i in s.slots then s.slots[i] else ReaderSlot(Out, 0, 0, {})
  }

  function WriterAt(s: State, w: Thread): Writer {
    if w in s.writers then s.writers[w] else Unlinking([])
  }

  function RingAt(s: State, i: Slot): seq<Retired> {
    if i in s.rings then s.rings[i] else []
  }

  function PassAt(s: State, r: Thread): Pass {
    if r in s.passes then s.passes[r] else Resting
  }

  /** EnterRead returns: from here on the reader may follow references it finds in the tree. */
  function Enter(p: ReaderSlot, global: Epoch): ReaderSlot {
    p.(reader := Active, entered := global, since := {})
  }

  /** The next step of one reader slot. */
  function ReadStep(p: ReaderSlot, a: Action, global: Epoch): ReaderSlot
    requires a.LoadEpoch? || a.StoreEpoch? || a.Recheck? || a.LoadAgain? || a.StoreAgain? || a.ExitRead?
  {
    match a
    case LoadEpoch(_) => if p.reader.Out? then p.(reader := Loaded(global)) else p
    case StoreEpoch(_) => if p.reader.Loaded? then p.(reader := Stored(p.reader.epoch), published := p.reader.epoch)
      else p
    case Recheck(_) =>
      if !p.reader.Stored? then p
      else if global == p.reader.epoch then Enter(p, global)
      else p.(reader := Stale)
    case LoadAgain(_) => if p.reader.Stale? then p.(reader := Reloaded(global)) else p
    case StoreAgain(_) => if p.reader.Reloaded? then Enter(p.(published := p.reader.epoch), global) else p
    case ExitRead(_) => if p.reader.Active? then p.(reader := Out, published := 0) else p
  }

  function DoRead(s: State, a: Action): State
    requires a.LoadEpoch? || a.StoreEpoch? || a.Recheck? || a.LoadAgain? || a.StoreAgain? || a.ExitRead?
  {
    s.(slots := s.slots[a.slot := ReadStep(SlotAt(s, a.slot), a, s.global)])
  }

  function DoWrite(s: State, a: Action): State
    requires a.Unlink? || a.Stamp? || a.Push?
  {
    var w := WriterAt(s, a.writer);
    match a
    case Unlink(t, page) =>
      if w.Unlinking? && page !in s.gone then
        s.(writers := s.writers[t := Unlinking(w.pages + [page])], gone := s.gone + {page},
           slots := map i: Slot | 0 <= i < EpochManager.MAX_READER_SLOTS ::
             SlotAt(s, i).(since := SlotAt(s, i).since + {page}))
      else s
    case Stamp(t) =>
      if w.Unlinking? && w.pages != [] then
        s.(writers := s.writers[t := Stamped(w.pages, s.global)],
           stamps := map p | p in s.stamps.Keys + (set q | q in w.pages) :: if p in w.pages then s.global
             else s.stamps[p])
      else s
    case Push(t, i) =>
      if w.Stamped? && w.pages != [] && |RingAt(s, i)| < RING_SIZE then
        s.(rings := s.rings[i := RingAt(s, i) + [Retired(w.pages[0], w.epoch)]],
           writers := s.writers[t := if |w.pages| == 1 then Unlinking([]) else Stamped(w.pages[1..], w.epoch)])
      else s
  }

  function DoPass(s: State, a: Action): State
    requires a.Advance? || a.ScanSlot? || a.DrainSlot? || a.FreePage?
  {
    var r := a.pass;
    var p := PassAt(s, r);
    match a
    case Advance(_) =>
      if p.Resting? then s.(global := s.global + 1, passes := s.passes[r := Scanning(s.global + 1, 0, None)]) else s
    case ScanSlot(_) =>
      if !p.Scanning? then s
      else if p.next >= EpochManager.MAX_READER_SLOTS then
        s.(passes := s.passes[r := Draining(if p.minActive.Some? then p.minActive.value else p.started, 0, [])])
      else
        var e := SlotAt(s, p.next).published;
        s.(passes := s.passes[r := Scanning(p.started, p.next + 1,
             if e != 0 && (p.minActive.None? || e < p.minActive.value) then Some(e) else p.minActive)])
    case DrainSlot(_) =>
      if !p.Draining? || p.next >= EpochManager.MAX_READER_SLOTS then s
      else
        var es := RingAt(s, p.next);
        var n := SafePrefix(es, p.safe);
        s.(rings := s.rings[p.next := es[n..]],
           passes := s.passes[r := Draining(p.safe, p.next + 1, p.toFree + PagesOf(es[..n]))])
    case FreePage(_) =>
      if !p.Draining? || p.next < EpochManager.MAX_READER_SLOTS then s
      else if p.toFree == [] then s.(passes := s.passes[r := Resting])
      else s.(freed := s.freed + [p.toFree[0]], passes := s.passes[r := Draining(p.safe, p.next, p.toFree[1..])])
  }

  function Do(s: State, a: Action): State {
    if a.Unlink? || a.Stamp? || a.Push? then DoWrite(s, a)
    else if a.Advance? || a.ScanSlot? || a.DrainSlot? || a.FreePage? then DoPass(s, a)
    else DoRead(s, a)
  }

  const START := State(1, map[], map[], map[], map[], [], map[], {})

  function Run(actions: seq<Action>): State {
    if actions == [] then START else Do(Run(actions[..|actions| - 1]), actions[|actions| - 1])
  }

  /**
   No scan ends with a smallest reader epoch above the epoch its pass started at. This is the guard that
   `tryReclaim` leaves out when it takes `minActive` for `safeEpoch` without looking at `newEpoch`.
   */
  ghost predicate Bounded(s: State, a: Action) {
    a.ScanSlot? && PassAt(s, a.pass).Scanning? && PassAt(s, a.pass).next >= EpochManager.MAX_READER_SLOTS ==>
      PassAt(s, a.pass).minActive.None? || PassAt(s, a.pass).minActive.value <= PassAt(s, a.pass).started
  }

  ghost predicate BoundedRun(actions: seq<Action>) {
    forall n :: 0 <= n < |actions| ==> Bounded(Run(actions[..n]), actions[n])
  }

  /** Only one pass at a time: a pass starts only while every other one rests. */
  ghost predicate Serial(s: State, a: Action) {
    a.Advance? && PassAt(s, a.pass).Resting? ==> forall r {:trigger PassAt(s, r)} :: PassAt(s, r).Resting?
  }

  ghost predicate SerialRun(actions: seq<Action>) {
    forall n :: 0 <= n < |actions| ==> Serial(Run(actions[..n]), actions[n])
  }

  /** The passes under way. */
  ghost function Running(s: State): set<Thread> {
    set r | r in s.passes && !s.passes[r].Resting?
  }

  /** At no time are more than `n` passes under way. */
  ghost predicate AtMost(actions: seq<Action>, n: nat) {
    forall m :: 0 <= m <= |actions| ==> |Running(Run(actions[..m]))| <= n
  }

  /** No page is freed while a reader that entered before its unlink is still active. */
  ghost predicate Safe(s: State) {
    forall i: Slot, p {:trigger p in SlotAt(s, i).since} :: SlotAt(s, i).reader.Active? && p in SlotAt(s, i).since ==>
      p !in s.freed
  }
}
