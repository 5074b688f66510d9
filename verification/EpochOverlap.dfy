/**
 How many reclaim passes may be under way at a time: `RetireLobChain` may call `tryReclaim` beside the
 background pass, and two passes at once can free a page under a reader.
 */
module EpochOverlap {
  import opened Bytes
  import opened Finite
  import opened EpochRing
  import opened EpochMachine
  import opened EpochProof
  import EpochManager

  const SLOTS := EpochManager.MAX_READER_SLOTS

  /** Only passes 1 and 2 take part. */
  ghost predicate TwoPasses(actions: seq<Action>) {
    forall i :: 0 <= i < |actions| ==> ByOneOrTwo(actions[i])
  }

  ghost predicate ByOneOrTwo(a: Action) {
    a.Advance? || a.ScanSlot? || a.DrainSlot? || a.FreePage? ==> a.pass == 1 || a.pass == 2
  }

  lemma Extend(actions: seq<Action>, a: Action)
    ensures Run(actions + [a]) == Do(Run(actions), a)
    ensures TwoPasses(actions) && ByOneOrTwo(a) ==> TwoPasses(actions + [a])
  {
    assert (actions + [a])[..|actions|] == actions;
  }

  lemma {:induction false} TwoPassesOnly(actions: seq<Action>)
    requires TwoPasses(actions)
    ensures Run(actions).passes.Keys <= {1, 2}
  {
    if actions != [] {
      var n := |actions| - 1;
      TwoPassesOnly(actions[..n]);
      assert ByOneOrTwo(actions[n]);
    }
  }

  lemma TwoPassesAtMost(actions: seq<Action>)
    requires TwoPasses(actions)
    ensures AtMost(actions, 2)
  {
    forall m | 0 <= m <= |actions| ensures |Running(Run(actions[..m]))| <= 2 {
      TwoPassesOnly(actions[..m]);
      assert Running(Run(actions[..m])) <= {1, 2};
      SubsetSize(Running(Run(actions[..m])), {1, 2});
    }
  }

  /** A pass scans slots that nobody reads in without changing its minimum. */
  lemma {:induction false} ScanRest(actions: seq<Action>, r: Thread, k: nat) returns (more: seq<Action>)
    requires k <= SLOTS && TwoPasses(actions) && (r == 1 || r == 2) && PassAt(Run(actions), r).Scanning?
             && PassAt(Run(actions), r).next == k
    requires forall i: Slot :: k <= i ==> SlotAt(Run(actions), i).published == 0
    ensures TwoPasses(more)
    ensures var s, p := Run(actions), PassAt(Run(actions), r);
            Run(more) == s.(passes := s.passes[r := Scanning(p.started, SLOTS, p.minActive)])
    decreases SLOTS - k
  {
    var s, p := Run(actions), PassAt(Run(actions), r);
    if k == SLOTS {
      more := actions;
      assert s.passes[r := p] == s.passes;
    } else {
      Extend(actions, ScanSlot(r));
      var s' := Run(actions + [ScanSlot(r)]);
      assert s' == s.(passes := s.passes[r := Scanning(p.started, k + 1, p.minActive)]);
      forall i: Slot ensures SlotAt(s', i) == SlotAt(s, i) {}
      more := ScanRest(actions + [ScanSlot(r)], r, k + 1);
      assert s.passes[r := Scanning(p.started, k + 1, p.minActive)][r := Scanning(p.started, SLOTS, p.minActive)]
             == s.passes[r := Scanning(p.started, SLOTS, p.minActive)];
    }
  }

  /** A pass drains empty rings without effect. */
  lemma {:induction false} DrainRest(actions: seq<Action>, r: Thread, k: nat) returns (more: seq<Action>)
    requires k <= SLOTS && TwoPasses(actions) && (r == 1 || r == 2) && PassAt(Run(actions), r).Draining?
             && PassAt(Run(actions), r).next == k
    requires forall i: Slot :: k <= i ==> RingAt(Run(actions), i) == []
    ensures TwoPasses(more)
    ensures PassAt(Run(more), r) == Draining(PassAt(Run(actions), r).safe, SLOTS, PassAt(Run(actions), r).toFree)
    ensures Run(more).slots == Run(actions).slots && Run(more).freed == Run(actions).freed
    decreases SLOTS - k
  {
    if k == SLOTS {
      more := actions;
    } else {
      Extend(actions, DrainSlot(r));
      var s' := Run(actions + [DrainSlot(r)]);
      assert PagesOf([]) == [];
      forall i: Slot | k + 1 <= i ensures RingAt(s', i) == [] {
        assert RingAt(s', i) == RingAt(Run(actions), i);
      }
      more := DrainRest(actions + [DrainSlot(r)], r, k + 1);
    }
  }

  /** Pass 1 has looked at slot 0, whose reader then enters. */
  lemma FirstReader() returns (actions: seq<Action>)
    ensures TwoPasses(actions)
    ensures Run(actions) == START.(global := 2, passes := map[1 := Scanning(2, 1, None)],
                                   slots := map[0 := ReaderSlot(Active, 2, 2, {})])
  {
    var s0 := START;
    var s1, a1 := Do(s0, Advance(1)), [Advance(1)];
    assert Run([]) == s0;
    Extend([], Advance(1));
    assert [] + [Advance(1)] == a1;
    var s2, a2 := Do(s1, ScanSlot(1)), a1 + [ScanSlot(1)];
    Extend(a1, ScanSlot(1));
    assert s2 == s0.(global := 2, passes := map[1 := Scanning(2, 1, None)]);
    var s3, a3 := Do(s2, LoadEpoch(0)), a2 + [LoadEpoch(0)];
    Extend(a2, LoadEpoch(0));
    var s4, a4 := Do(s3, StoreEpoch(0)), a3 + [StoreEpoch(0)];
    Extend(a3, StoreEpoch(0));
    Extend(a4, Recheck(0));
    actions := a4 + [Recheck(0)];
  }

  /** Pass 1 has passed slot 0, whose reader is inside, and page 5 has been unlinked under it. */
  ghost predicate Halfway(s: State) {
    && s.freed == [] && PassAt(s, 1) == Scanning(2, 1, None) && PassAt(s, 2).Resting?
    && SlotAt(s, 0) == ReaderSlot(Active, 2, 2, {5})
    && forall i: Slot :: i != 0 ==> SlotAt(s, i).reader.Out? && SlotAt(s, i).published == 0
  }

  lemma Unlinked() returns (actions: seq<Action>)
    ensures TwoPasses(actions)
    ensures var s := Run(actions);
            Halfway(s) && s.global == 2 && s.rings == map[] && WriterAt(s, 7) == Stamped([5], 2)
  {
    hide Run;
    actions := FirstReader();
    var s5 := Run(actions);
    assert WriterAt(s5, 7) == Unlinking([]) && [] + [5] == [5];
    Extend(actions, Unlink(7, 5));
    actions := actions + [Unlink(7, 5)];
    var s6 := Run(actions);
    assert WriterAt(s6, 7) == Unlinking([5]) && s6.rings == map[] && s6.global == 2;
    Extend(actions, Stamp(7));
    actions := actions + [Stamp(7)];
  }

  /** The page is retired. */
  lemma FirstHalf() returns (actions: seq<Action>)
    ensures TwoPasses(actions)
    ensures var s := Run(actions); Halfway(s) && s.global == 2 && s.rings == map[0 := [Retired(5, 2)]]
  {
    hide Run;
    actions := Unlinked();
    var s7 := Run(actions);
    assert RingAt(s7, 0) == [] && [] + [Retired(5, 2)] == [Retired(5, 2)];
    Extend(actions, Push(7, 0));
    actions := actions + [Push(7, 0)];
    assert s7.slots == Run(actions).slots && RingAt(Run(actions), 0) == [Retired(5, 2)]
           && Run(actions).rings.Keys == {0};
    forall i: Slot ensures SlotAt(Run(actions), i) == SlotAt(s7, i) {}
  }

  /** Pass 2 advances the epoch and a second reader enters. */
  lemma SecondReader(actions: seq<Action>) returns (more: seq<Action>)
    requires TwoPasses(actions) && Halfway(Run(actions)) && Run(actions).global == 2
             && Run(actions).rings == map[0 := [Retired(5, 2)]]
    ensures TwoPasses(more)
    ensures var s := Run(more);
            && PassAt(s, 1) == Scanning(2, 1, None) && s.rings == map[0 := [Retired(5, 2)]] && s.freed == []
            && SlotAt(s, 0) == ReaderSlot(Active, 2, 2, {5}) && SlotAt(s, 1).published == 3
            && forall i: Slot :: i > 1 ==> SlotAt(s, i).published == 0
  {
    hide Run;
    var s := Run(actions);
    var was := SlotAt(s, 1);
    Extend(actions, Advance(2));
    more := actions + [Advance(2)];
    var s1 := Run(more);
    assert s1.slots == s.slots && s1.global == 3 && PassAt(s1, 1) == Scanning(2, 1, None);
    Extend(more, LoadEpoch(1));
    more := more + [LoadEpoch(1)];
    Extend(more, StoreEpoch(1));
    more := more + [StoreEpoch(1)];
    var s3 := Run(more);
    assert SlotAt(s3, 1) == was.(reader := Stored(3), published := 3) && s3.passes == s1.passes;
    forall i: Slot | i != 1 ensures SlotAt(s3, i) == SlotAt(s, i) {}
  }

  /** Pass 1 takes that reader's epoch for the minimum. */
  lemma SecondHalf(actions: seq<Action>) returns (more: seq<Action>)
    requires TwoPasses(actions) && Halfway(Run(actions)) && Run(actions).global == 2
             && Run(actions).rings == map[0 := [Retired(5, 2)]]
    ensures TwoPasses(more)
    ensures var s := Run(more);
            && PassAt(s, 1) == Scanning(2, 2, Some(3)) && s.rings == map[0 := [Retired(5, 2)]] && s.freed == []
            && SlotAt(s, 0) == ReaderSlot(Active, 2, 2, {5})
            && forall i: Slot :: i > 1 ==> SlotAt(s, i).published == 0
  {
    hide Run;
    more := SecondReader(actions);
    var s := Run(more);
    Extend(more, ScanSlot(1));
    more := more + [ScanSlot(1)];
    forall i: Slot ensures SlotAt(Run(more), i) == SlotAt(s, i) {}
  }

  /** Two overlapping passes reach a state in which a page is freed under a reader that entered before its unlink. */
  lemma OverlapUnsafe() returns (actions: seq<Action>)
    ensures !Safe(Run(actions)) && AtMost(actions, 2)
  {
    hide Run;
    actions := FirstHalf();
    actions := SecondHalf(actions);
    actions := ScanRest(actions, 1, 2);
    var s := Run(actions);
    Extend(actions, ScanSlot(1));
    actions := actions + [ScanSlot(1)];
    var s1 := Run(actions);
    assert PassAt(s1, 1) == Draining(3, 0, []);
    Extend(actions, DrainSlot(1));
    actions := actions + [DrainSlot(1)];
    var s2 := Run(actions);
    assert SafePrefix([Retired(5, 2)], 3) == 1;
    assert [Retired(5, 2)][..1] == [Retired(5, 2)];
    assert PagesOf([Retired(5, 2)]) == [5];
    assert PassAt(s2, 1) == Draining(3, 1, [5]);
    forall i: Slot | i >= 1 ensures RingAt(s2, i) == [] {}
    actions := DrainRest(actions, 1, 1);
    Extend(actions, FreePage(1));
    actions := actions + [FreePage(1)];
    assert 5 in Run(actions).freed && 5 in SlotAt(Run(actions), 0).since;
    TwoPassesAtMost(actions);
  }

  /** All runs with at most `n` passes under way at a time are safe if and only if `n` is at most one. */
  lemma PassLimit(n: nat)
    ensures (forall actions :: AtMost(actions, n) ==> Safe(Run(actions))) <==> n <= 1
  {
    hide Run, Safe;
    if n <= 1 {
      forall actions | AtMost(actions, n) ensures Safe(Run(actions)) {
        OnePassSafe(actions);
      }
    } else {
      var actions := OverlapUnsafe();
      assert AtMost(actions, n);
    }
  }
}
