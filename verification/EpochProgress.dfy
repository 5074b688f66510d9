/** Readers come in and leave no trace, and a reclaim pass frees what no reader can reach any more (epoch.go). */
module EpochProgress {
  import opened Bytes
  import opened EpochRing
  import opened EpochMachine
  import opened EpochProof
  import EpochManager

  // ---------------------------------------------------------------- readers

  /** Over every run, whatever the passes do: a slot publishes an epoch exactly while a reader is entering or inside. */
  lemma {:induction false} RunReaders(actions: seq<Action>)
    ensures ReadersOK(Run(actions))
    ensures forall i: Slot :: SlotAt(Run(actions), i).published == 0
                              <==> SlotAt(Run(actions), i).reader.Out? || SlotAt(Run(actions), i).reader.Loaded?
  {
    hide Do;
    if actions == [] {
      StartInv();
    } else {
      var n := |actions| - 1;
      RunReaders(actions[..n]);
      StepReaders(Run(actions[..n]), actions[n]);
    }
    ReadersPublish(Run(actions));
  }

  lemma ReadersPublish(s: State)
    requires ReadersOK(s)
    ensures forall i: Slot :: SlotAt(s, i).published == 0 <==> SlotAt(s, i).reader.Out? || SlotAt(s, i).reader.Loaded?
  {
    forall i: Slot
      ensures SlotAt(s, i).published == 0 <==> SlotAt(s, i).reader.Out? || SlotAt(s, i).reader.Loaded?
    {
      assert ReaderOK(SlotAt(s, i), s.global);
    }
  }

  lemma StepReaders(s: State, a: Action)
    requires ReadersOK(s)
    ensures ReadersOK(Do(s, a))
  {
    var s' := Do(s, a);
    forall i: Slot ensures ReaderOK(SlotAt(s', i), s'.global) {
      assert ReaderOK(SlotAt(s, i), s.global);
    }
  }

  /** A reader that is not disturbed comes in with the current epoch published, also when it found the epoch stale. */
  lemma EnterReturns(s: State, i: Slot)
    requires SlotAt(s, i).reader.Out? || SlotAt(s, i).reader.Stale?
    ensures var s' := if SlotAt(s, i).reader.Out? then Do(Do(Do(s, LoadEpoch(i)), StoreEpoch(i)), Recheck(i))
                      else Do(Do(s, LoadAgain(i)), StoreAgain(i));
            && SlotAt(s', i) == ReaderSlot(Active, s.global, s.global, {})
            && s' == s.(slots := s.slots[i := SlotAt(s', i)])
  {
  }

  /** A reader that leaves leaves its slot as if nobody had been there. */
  lemma ExitClears(s: State, i: Slot)
    requires SlotAt(s, i).reader.Active?
    ensures var q := SlotAt(Do(s, ExitRead(i)), i); q.reader.Out? && q.published == 0
  {
  }

  // ---------------------------------------------------------------- writers

  /**
   Retiring a page alone puts it at the end of a ring, stamped with the epoch after its unlink, and every
   slot knows that it was unlinked.
   */
  lemma RetireAlone(s: State, t: Thread, page: PageID, i: Slot)
    requires WriterAt(s, t) == Unlinking([]) && page !in s.gone && |RingAt(s, i)| < RING_SIZE
    ensures var s' := Do(Do(Do(s, Unlink(t, page)), Stamp(t)), Push(t, i));
            && RingAt(s', i) == RingAt(s, i) + [Retired(page, s.global)]
            && (forall j: Slot :: j != i ==> RingAt(s', j) == RingAt(s, j))
            && WriterAt(s', t) == Unlinking([]) && s'.freed == s.freed && s'.global == s.global
            && (forall j: Slot :: page in SlotAt(s', j).since && SlotAt(s', j).reader == SlotAt(s, j).reader)
  {
    assert [] + [page] == [page];
  }

  // ---------------------------------------------------------------- what a pass owes

  /** The pages of ring `i` that a pass with limit `safe` takes. */
  ghost function ReadyAt(s: State, i: Slot, safe: Epoch): seq<PageID> {
    PagesOf(RingAt(s, i)[..SafePrefix(RingAt(s, i), safe)])
  }

  ghost predicate InRings(s: State, x: PageID) {
    exists i: Slot :: x in PagesOf(RingAt(s, i))
  }

  ghost predicate ReadyFrom(s: State, next: nat, safe: Epoch, x: PageID) {
    exists i: Slot :: next <= i && x in ReadyAt(s, i, safe)
  }

  /** Pass `r`, which started at epoch `started` and has met no reader, has still to free `x`, or has freed it. */
  ghost predicate Owes(s: State, r: Thread, started: Epoch, x: PageID) {
    match PassAt(s, r)
    case Scanning(_, _, _) => ReadyFrom(s, 0, started, x)
    case Draining(_, next, toFree) => ReadyFrom(s, next, started, x) || x in toFree || x in s.freed
    case Resting => x in s.freed
  }

  /** Pass `r` is the only one under way, and it has met no reader. */
  ghost predicate Undisturbed(s: State, r: Thread, started: Epoch) {
    && (forall q {:trigger PassAt(s, q)} :: q != r ==> PassAt(s, q).Resting?)
    && match PassAt(s, r)
       case Scanning(st, _, min) => st == started && min.None?
       case Draining(safe, _, _) => safe == started
       case Resting => true
  }

  /** If the step looks at a slot for pass `r`, no reader is inside or entering there. */
  ghost predicate NobodyThere(s: State, r: Thread, a: Action) {
    a == ScanSlot(r) && PassAt(s, r).Scanning? && PassAt(s, r).next < EpochManager.MAX_READER_SLOTS ==>
      var p := SlotAt(s, PassAt(s, r).next).reader;
      p.Out? || p.Loaded?
  }

  lemma {:induction false} SafeGrows(es: seq<Retired>, e: Retired, safe: Epoch)
    ensures SafePrefix(es + [e], safe) >= SafePrefix(es, safe)
  {
    if es != [] {
      SafeGrows(es[1..], e, safe);
      assert (es + [e])[1..] == es[1..] + [e];
    }
  }

  lemma {:induction false} AllSafe(es: seq<Retired>, safe: Epoch)
    requires forall e :: e in es ==> 0 < e.epoch < safe
    ensures SafePrefix(es, safe) == |es|
  {
    if es != [] {
      AllSafe(es[1..], safe);
    }
  }

  lemma ReadyStays(s: State, s': State, next: nat, safe: Epoch, x: PageID)
    requires ReadyFrom(s, next, safe, x)
    requires forall i: Slot {:trigger RingAt(s', i)} :: next <= i ==>
               RingAt(s', i) == RingAt(s, i) || exists e :: RingAt(s', i) == RingAt(s, i) + [e]
    ensures ReadyFrom(s', next, safe, x)
  {
    var i: Slot :| next <= i && x in ReadyAt(s, i, safe);
    var es, es' := RingAt(s, i), RingAt(s', i);
    if es' != es {
      var e :| es' == es + [e];
      SafeGrows(es, e, safe);
      var n, n' := SafePrefix(es, safe), SafePrefix(es', safe);
      assert es'[..n'][..n] == es[..n];
      assert PagesOf(es'[..n'])[..n] == PagesOf(es[..n]);
    }
    assert x in ReadyAt(s', i, safe);
  }

  /** Steps of readers and writers take no page out of the rings. */
  lemma OwesOther(s: State, a: Action, r: Thread, started: Epoch, x: PageID)
    requires Undisturbed(s, r, started) && Owes(s, r, started, x)
    requires !a.Advance? && !a.ScanSlot? && !a.DrainSlot? && !a.FreePage?
    ensures var s' := Do(s, a); Undisturbed(s', r, started) && Owes(s', r, started, x)
  {
    hide ReadyFrom;
    var s' := Do(s, a);
    assert s'.passes == s.passes && s'.freed == s.freed;
    forall i: Slot
      ensures RingAt(s', i) == RingAt(s, i) || exists e :: RingAt(s', i) == RingAt(s, i) + [e]
    {}
    forall q ensures PassAt(s', q) == PassAt(s, q) {}
    var p := PassAt(s, r);
    var next := if p.Draining? then p.next else 0;
    if ReadyFrom(s, next, started, x) {
      ReadyStays(s, s', next, started, x);
    }
  }

  lemma OwesPass(s: State, a: Action, r: Thread, started: Epoch, x: PageID)
    requires ReadersOK(s) && Undisturbed(s, r, started) && Owes(s, r, started, x) && NobodyThere(s, r, a)
    requires a.ScanSlot? || a.DrainSlot? || a.FreePage?
    ensures var s' := Do(s, a); Undisturbed(s', r, started) && Owes(s', r, started, x)
  {
    hide ReadersOK;
    var s' := Do(s, a);
    if a.pass != r {
      assert PassAt(s, a.pass).Resting?;
      assert s' == s;
    } else if a.DrainSlot? && PassAt(s, r).Draining? && PassAt(s, r).next < EpochManager.MAX_READER_SLOTS {
      OwesDrain(s, r, started, x);
    } else if a.ScanSlot? {
      OwesScan(s, r, started, x);
    } else if a.FreePage? {
      OwesFree(s, r, started, x);
    }
  }

  lemma OthersRest(s: State, a: Action, r: Thread, started: Epoch)
    requires Undisturbed(s, r, started) && (a.ScanSlot? || a.DrainSlot? || a.FreePage?) && a.pass == r
    ensures forall q {:trigger PassAt(Do(s, a), q)} :: q != r ==> PassAt(Do(s, a), q).Resting?
  {
    forall q | q != r ensures PassAt(Do(s, a), q).Resting? {
      assert PassAt(Do(s, a), q) == PassAt(s, q);
    }
  }

  lemma OwesScan(s: State, r: Thread, started: Epoch, x: PageID)
    requires ReadersOK(s) && Undisturbed(s, r, started) && Owes(s, r, started, x) && NobodyThere(s, r, ScanSlot(r))
    ensures var s' := Do(s, ScanSlot(r)); Undisturbed(s', r, started) && Owes(s', r, started, x)
  {
    var p, s' := PassAt(s, r), Do(s, ScanSlot(r));
    OthersRest(s, ScanSlot(r), r, started);
    if p.Scanning? {
      if p.next < EpochManager.MAX_READER_SLOTS {
        assert ReaderOK(SlotAt(s, p.next), s.global);
      }
      assert forall i: Slot :: ReadyAt(s', i, started) == ReadyAt(s, i, started);
    }
  }

  lemma OwesDrain(s: State, r: Thread, started: Epoch, x: PageID)
    requires Undisturbed(s, r, started) && Owes(s, r, started, x)
    requires PassAt(s, r).Draining? && PassAt(s, r).next < EpochManager.MAX_READER_SLOTS
    ensures var s' := Do(s, DrainSlot(r)); Undisturbed(s', r, started) && Owes(s', r, started, x)
  {
    var p, s' := PassAt(s, r), Do(s, DrainSlot(r));
    OthersRest(s, DrainSlot(r), r, started);
    if ReadyFrom(s, p.next, started, x) {
      var i: Slot :| p.next <= i && x in ReadyAt(s, i, started);
      if i == p.next {
        assert x in PassAt(s', r).toFree;
      } else {
        assert ReadyAt(s', i, started) == ReadyAt(s, i, started);
        assert ReadyFrom(s', p.next + 1, started, x);
      }
    }
  }

  lemma OwesFree(s: State, r: Thread, started: Epoch, x: PageID)
    requires Undisturbed(s, r, started) && Owes(s, r, started, x)
    ensures var s' := Do(s, FreePage(r)); Undisturbed(s', r, started) && Owes(s', r, started, x)
  {
    var p, s' := PassAt(s, r), Do(s, FreePage(r));
    OthersRest(s, FreePage(r), r, started);
    if p.Draining? && p.next >= EpochManager.MAX_READER_SLOTS {
      assert !ReadyFrom(s, p.next, started, x);
      if p.toFree != [] {
        assert p.toFree == [p.toFree[0]] + p.toFree[1..];
      }
    }
  }

  // ---------------------------------------------------------------- a whole pass

  /** After `actions`, pass `r` starts, and no other pass starts while `rest` runs. */
  ghost predicate OnlyPass(actions: seq<Action>, r: Thread, rest: seq<Action>) {
    && (forall q {:trigger PassAt(Run(actions), q)} :: PassAt(Run(actions), q).Resting?)
    && forall n :: 0 <= n < |rest| ==> !rest[n].Advance?
  }

  ghost function Through(actions: seq<Action>, r: Thread, rest: seq<Action>): State {
    Run(actions + [Advance(r)] + rest)
  }

  /** Whenever the pass looks at a slot, no reader is inside or entering there. */
  ghost predicate MeetsNobody(actions: seq<Action>, r: Thread, rest: seq<Action>) {
    forall n :: 0 <= n < |rest| ==> NobodyThere(Through(actions, r, rest[..n]), r, rest[n])
  }

  lemma ThroughStep(actions: seq<Action>, r: Thread, rest: seq<Action>)
    requires rest != []
    ensures var n := |rest| - 1; Through(actions, r, rest) == Do(Through(actions, r, rest[..n]), rest[n])
  {
    hide Do;
    var whole := actions + [Advance(r)] + rest;
    assert whole[..|whole| - 1] == actions + [Advance(r)] + rest[..|rest| - 1];
  }

  lemma ThroughStart(actions: seq<Action>, r: Thread)
    ensures Through(actions, r, []) == Do(Run(actions), Advance(r))
  {
    hide Do;
    var whole := actions + [Advance(r)];
    assert whole + [] == whole && whole[..|whole| - 1] == actions;
  }

  lemma RingEpochs(actions: seq<Action>)
    requires SerialRun(actions)
    ensures forall i: Slot, e :: e in RingAt(Run(actions), i) ==> 0 < e.epoch < Run(actions).global + 1
  {
    hide ReadersOK, PassesOK, Partition, Protected, Safe, Bounded, Serial, Do;
    SerialIsBounded(actions);
    RunSafe(actions);
    forall i: Slot, e | e in RingAt(Run(actions), i) ensures 0 < e.epoch < Run(actions).global + 1 {
      assert RingOK(Run(actions), RingAt(Run(actions), i));
    }
  }

  /** When a pass starts, it owes every page in the rings. */
  lemma StartOwes(s: State, r: Thread, x: PageID)
    requires forall q {:trigger PassAt(s, q)} :: PassAt(s, q).Resting?
    requires forall i: Slot, e :: e in RingAt(s, i) ==> 0 < e.epoch < s.global + 1
    requires InRings(s, x)
    ensures var s' := Do(s, Advance(r)); Undisturbed(s', r, s.global + 1) && Owes(s', r, s.global + 1, x)
  {
    var s' := Do(s, Advance(r));
    var i: Slot :| x in PagesOf(RingAt(s, i));
    assert PassAt(s, r).Resting?;
    forall q | q != r ensures PassAt(s', q).Resting? {
      assert PassAt(s', q) == PassAt(s, q);
    }
    var es := RingAt(s, i);
    AllSafe(es, s.global + 1);
    assert es[..|es|] == es;
    assert x in ReadyAt(s', i, s.global + 1);
  }

  lemma {:induction false} StillOwes(actions: seq<Action>, r: Thread, rest: seq<Action>, x: PageID)
    requires SerialRun(actions) && OnlyPass(actions, r, rest) && MeetsNobody(actions, r, rest)
    requires InRings(Run(actions), x)
    ensures var s, started := Through(actions, r, rest), Run(actions).global + 1;
            Undisturbed(s, r, started) && Owes(s, r, started, x)
  {
    hide Do, Undisturbed, Owes, NobodyThere, ReadersOK, SerialRun, Through, InRings;
    var started := Run(actions).global + 1;
    if rest == [] {
      ThroughStart(actions, r);
      RingEpochs(actions);
      StartOwes(Run(actions), r, x);
    } else {
      var n := |rest| - 1;
      forall m | 0 <= m < n ensures NobodyThere(Through(actions, r, rest[..n][..m]), r, rest[..n][m]) {
        assert rest[..n][..m] == rest[..m];
      }
      StillOwes(actions, r, rest[..n], x);
      ThroughStep(actions, r, rest);
      ThroughReaders(actions, r, rest[..n]);
      var s, a := Through(actions, r, rest[..n]), rest[n];
      if a.ScanSlot? || a.DrainSlot? || a.FreePage? {
        OwesPass(s, a, r, started, x);
      } else {
        OwesOther(s, a, r, started, x);
      }
    }
  }

  lemma ThroughReaders(actions: seq<Action>, r: Thread, rest: seq<Action>)
    ensures ReadersOK(Through(actions, r, rest))
  {
    hide ReadersOK;
    RunReaders(actions + [Advance(r)] + rest);
  }

  /**
   A pass that meets no reader frees every page that was in a ring when it started, whatever readers and
   writers do meanwhile; if nothing is retired meanwhile it frees nothing else.
   */
  lemma PassFrees(actions: seq<Action>, r: Thread, rest: seq<Action>)
    requires SerialRun(actions) && OnlyPass(actions, r, rest) && MeetsNobody(actions, r, rest)
    requires PassAt(Through(actions, r, rest), r).Resting?
    ensures var s, s' := Run(actions), Through(actions, r, rest);
            && (forall x :: x in s.freed || InRings(s, x) ==> x in s'.freed)
            && ((forall n :: 0 <= n < |rest| ==> !rest[n].Push?) ==>
                  forall x :: x in s'.freed ==> x in s.freed || InRings(s, x))
  {
    hide SerialRun, Through, Run, InRings, MeetsNobody;
    var s, s' := Run(actions), Through(actions, r, rest);
    forall x | x in s.freed || InRings(s, x) ensures x in s'.freed {
      if InRings(s, x) {
        StillOwes(actions, r, rest, x);
      } else {
        StaysFreed(actions, r, rest, x);
      }
    }
    if forall n :: 0 <= n < |rest| ==> !rest[n].Push? {
      forall x | x in s'.freed ensures x in s.freed || InRings(s, x) {
        CameFrom(actions, r, rest, x);
      }
    }
  }

  lemma {:induction false} StaysFreed(actions: seq<Action>, r: Thread, rest: seq<Action>, x: PageID)
    requires x in Run(actions).freed
    ensures x in Through(actions, r, rest).freed
  {
    hide Through, Run;
    if rest == [] {
      ThroughStart(actions, r);
    } else {
      StaysFreed(actions, r, rest[..|rest| - 1], x);
      ThroughStep(actions, r, rest);
    }
  }

  /** A page in a ring, with a pass or freed. */
  ghost predicate Retiring(s: State, x: PageID) {
    InRings(s, x) || x in s.freed || exists q :: x in Has(s, AtPass(q))
  }

  /** Unless something is retired, only pages that were on their way are freed. */
  lemma {:induction false} CameFrom(actions: seq<Action>, r: Thread, rest: seq<Action>, x: PageID)
    requires OnlyPass(actions, r, rest) && forall n :: 0 <= n < |rest| ==> !rest[n].Push?
    requires Retiring(Through(actions, r, rest), x)
    ensures x in Run(actions).freed || InRings(Run(actions), x)
  {
    hide Through, Run, Retiring;
    if rest == [] {
      ThroughStart(actions, r);
      RetiringStep(Run(actions), Advance(r), x);
      RetiringAtRest(Run(actions), x);
    } else {
      var n := |rest| - 1;
      ThroughStep(actions, r, rest);
      RetiringStep(Through(actions, r, rest[..n]), rest[n], x);
      CameFrom(actions, r, rest[..n], x);
    }
  }

  lemma RetiringAtRest(s: State, x: PageID)
    requires Retiring(s, x) && forall q {:trigger PassAt(s, q)} :: PassAt(s, q).Resting?
    ensures x in s.freed || InRings(s, x)
  {
    if q :| x in Has(s, AtPass(q)) {
      assert PassAt(s, q).Resting?;
    }
  }

  lemma RetiringStep(s: State, a: Action, x: PageID)
    requires !a.Push? && Retiring(Do(s, a), x)
    ensures Retiring(s, x)
  {
    var s' := Do(s, a);
    if x in s'.freed {
      RetiringFreed(s, a, x);
    } else if i: Slot :| x in PagesOf(RingAt(s', i)) {
      RetiringRing(s, a, i, x);
    } else {
      var q :| x in Has(s', AtPass(q));
      RetiringPass(s, a, q, x);
    }
  }

  lemma RetiringFreed(s: State, a: Action, x: PageID)
    requires x in Do(s, a).freed
    ensures Retiring(s, x)
  {
    if x !in s.freed {
      assert x in Has(s, AtPass(a.pass));
    }
  }

  lemma RetiringRing(s: State, a: Action, i: Slot, x: PageID)
    requires !a.Push? && x in PagesOf(RingAt(Do(s, a), i))
    ensures Retiring(s, x)
  {
    var es := RingAt(Do(s, a), i);
    var k :| 0 <= k < |es| && PagesOf(es)[k] == x;
    assert es[k] in RingAt(s, i);
    assert x in PagesOf(RingAt(s, i)) by {
      var m :| 0 <= m < |RingAt(s, i)| && RingAt(s, i)[m] == es[k];
      assert PagesOf(RingAt(s, i))[m] == x;
    }
  }

  lemma RetiringPass(s: State, a: Action, q: Thread, x: PageID)
    requires x in Has(Do(s, a), AtPass(q))
    ensures Retiring(s, x)
  {
    hide Retiring, InRings;
    if x !in Has(s, AtPass(q)) {
      PassGains(s, a, q, x);
      assert InRings(s, x) by { RingGives(s, PassAt(s, q).next, PassAt(s, q).safe, x); }
    }
    RetiringIs(s, q, x);
  }

  lemma RetiringIs(s: State, q: Thread, x: PageID)
    ensures InRings(s, x) || x in Has(s, AtPass(q)) ==> Retiring(s, x)
  {
  }

  lemma PassGains(s: State, a: Action, q: Thread, x: PageID)
    requires x in Has(Do(s, a), AtPass(q)) && x !in Has(s, AtPass(q))
    ensures PassAt(s, q).Draining? && PassAt(s, q).next < EpochManager.MAX_READER_SLOTS
    ensures x in ReadyAt(s, PassAt(s, q).next, PassAt(s, q).safe)
  {
  }

  lemma RingGives(s: State, i: Slot, safe: Epoch, x: PageID)
    requires x in ReadyAt(s, i, safe)
    ensures InRings(s, x)
  {
    var es := RingAt(s, i);
    var n := SafePrefix(es, safe);
    var k :| 0 <= k < n && PagesOf(es[..n])[k] == x;
    assert PagesOf(es)[k] == x;
  }

  // ---------------------------------------------------------------- a pass comes to an end

  ghost predicate PassStep(a: Action, r: Thread) {
    a == ScanSlot(r) || a == DrainSlot(r) || a == FreePage(r)
  }

  ghost predicate PassSteps(actions: seq<Action>, r: Thread) {
    forall n :: 0 <= n < |actions| ==> PassStep(actions[n], r)
  }

  /** How far a pass is from its end: its stage, the slots it has still to visit, the pages it has still to free. */
  ghost function Stage(p: Pass): nat {
    if p.Scanning? then 2 else if p.Draining? then 1 else 0
  }

  ghost function SlotsLeft(p: Pass): nat {
    if p.Resting? || p.next > EpochManager.MAX_READER_SLOTS then 0 else EpochManager.MAX_READER_SLOTS + 1 - p.next
  }

  ghost function PagesLeft(p: Pass): nat {
    if p.Draining? then |p.toFree| + 1 else 0
  }

  function NextStep(p: Pass, r: Thread): Action {
    if p.Scanning? then ScanSlot(r)
    else if p.Draining? && p.next < EpochManager.MAX_READER_SLOTS then DrainSlot(r)
    else FreePage(r)
  }

  /** A pass that has started ends after finitely many of its own steps. */
  lemma {:induction false} PassEnds(actions: seq<Action>, r: Thread) returns (more: seq<Action>)
    ensures PassSteps(more, r) && PassAt(Run(actions + more), r).Resting?
    decreases Stage(PassAt(Run(actions), r)), SlotsLeft(PassAt(Run(actions), r)), PagesLeft(PassAt(Run(actions), r))
  {
    var p := PassAt(Run(actions), r);
    if p.Resting? {
      assert actions + [] == actions;
      return [];
    }
    var a := NextStep(p, r);
    assert (actions + [a])[..|actions|] == actions;
    assert Run(actions + [a]) == Do(Run(actions), a);
    Nearer(Run(actions), r);
    var rest := PassEnds(actions + [a], r);
    assert actions + [a] + rest == actions + ([a] + rest);
    return [a] + rest;
  }

  lemma Nearer(s: State, r: Thread)
    requires !PassAt(s, r).Resting?
    ensures var p, q := PassAt(s, r), PassAt(Do(s, NextStep(PassAt(s, r), r)), r);
            || Stage(q) < Stage(p)
            || (Stage(q) == Stage(p) && SlotsLeft(q) < SlotsLeft(p))
            || (Stage(q) == Stage(p) && SlotsLeft(q) == SlotsLeft(p) && PagesLeft(q) < PagesLeft(p))
  {
  }

  lemma {:induction false} SlotsStay(actions: seq<Action>, r: Thread, rest: seq<Action>)
    requires PassSteps(rest, r)
    ensures Through(actions, r, rest).slots == Run(actions).slots
  {
    hide Through, Run;
    if rest == [] {
      ThroughStart(actions, r);
    } else {
      SlotsStay(actions, r, rest[..|rest| - 1]);
      ThroughStep(actions, r, rest);
    }
  }

  /**
   From every state of a run with one pass at a time: if no reader is inside or entering, the next pass ends
   after finitely many steps and has then freed exactly the pages that were in the rings.
   */
  lemma QuietPass(actions: seq<Action>, r: Thread) returns (rest: seq<Action>)
    requires SerialRun(actions) && OnlyPass(actions, r, [])
    requires forall i: Slot :: SlotAt(Run(actions), i).reader.Out? || SlotAt(Run(actions), i).reader.Loaded?
    ensures PassSteps(rest, r) && PassAt(Through(actions, r, rest), r).Resting?
    ensures forall x :: x in Through(actions, r, rest).freed <==> x in Run(actions).freed || InRings(Run(actions), x)
  {
    hide SerialRun, Run, InRings;
    rest := PassEnds(actions + [Advance(r)], r);
    forall n | 0 <= n < |rest| ensures NobodyThere(Through(actions, r, rest[..n]), r, rest[n]) {
      SlotsStay(actions, r, rest[..n]);
      var s, m := Run(actions), Through(actions, r, rest[..n]);
      if PassAt(m, r).Scanning? && PassAt(m, r).next < EpochManager.MAX_READER_SLOTS {
        assert SlotAt(m, PassAt(m, r).next) == SlotAt(s, PassAt(m, r).next);
      }
    }
    PassFrees(actions, r, rest);
  }
}
