/**
 The children and separators of a cache in which some splits are still to be published: what the
 physical parent page looks like while splits are between the page and the cache.
 */
module PendingSplits {
  import opened Bytes
  import opened Finite
  import opened ChildrenCache
  import opened ConcurrentTree

  type Pending = map<RefId, Pair>

  ghost function ChildrenAt(x: RefId, pending: Pending): seq<RefId> {
    if x in pending then [pending[x].left, pending[x].right] else [x]
  }

  ghost function KeysAt(x: RefId, pending: Pending): seq<Key> {
    if x in pending then [pending[x].h.splitKey] else []
  }

  ghost function ExpandChildren(cs: seq<RefId>, pending: Pending): seq<RefId> {
    if cs == [] then [] else ExpandChildren(cs[..|cs| - 1], pending) + ChildrenAt(cs[|cs| - 1], pending)
  }

  /** Keys up to and including the separator behind the last child. */
  ghost function KeysBefore(cs: seq<RefId>, ks: seq<Key>, pending: Pending): seq<Key>
    requires |cs| == |ks|
  {
    if cs == [] then []
    else KeysBefore(cs[..|cs| - 1], ks[..|ks| - 1], pending) + KeysAt(cs[|cs| - 1], pending) + [ks[|ks| - 1]]
  }

  /** Keys from the separator in front of the first child on. */
  ghost function KeysAfter(cs: seq<RefId>, ks: seq<Key>, pending: Pending): seq<Key>
    requires |cs| == |ks|
  {
    if cs == [] then [] else [ks[0]] + KeysAt(cs[0], pending) + KeysAfter(cs[1..], ks[1..], pending)
  }

  ghost function ExpandKeys(cs: seq<RefId>, ks: seq<Key>, pending: Pending): seq<Key>
    requires |cs| == |ks| + 1
  {
    KeysAt(cs[0], pending) + KeysAfter(cs[1..], ks, pending)
  }

  lemma {:induction false} ExpandAppend(a: seq<RefId>, b: seq<RefId>, pending: Pending)
    ensures ExpandChildren(a + b, pending) == ExpandChildren(a, pending) + ExpandChildren(b, pending)
  {
    hide ChildrenAt;
    if b == [] {
      assert a + b == a;
    } else {
      ExpandAppend(a, b[..|b| - 1], pending);
      assert (a + b)[..|a + b| - 1] == a + b[..|b| - 1];
    }
  }

  lemma ChildrenCut(cs: seq<RefId>, pending: Pending, i: nat)
    requires i < |cs|
    ensures ExpandChildren(cs, pending)
            == ExpandChildren(cs[..i], pending) + ChildrenAt(cs[i], pending) + ExpandChildren(cs[i + 1..], pending)
  {
    hide ChildrenAt;
    assert cs == cs[..i] + ([cs[i]] + cs[i + 1..]);
    ExpandAppend(cs[..i], [cs[i]] + cs[i + 1..], pending);
    ExpandAppend([cs[i]], cs[i + 1..], pending);
    assert [cs[i]][..0] == [];
    assert ExpandChildren([cs[i]], pending) == ChildrenAt(cs[i], pending);
  }

  lemma {:induction false} KeysCut(cs: seq<RefId>, ks: seq<Key>, pending: Pending, i: nat)
    requires |cs| == |ks| + 1 && i < |cs|
    ensures ExpandKeys(cs, ks, pending)
            == KeysBefore(cs[..i], ks[..i], pending) + KeysAt(cs[i], pending) + KeysAfter(cs[i + 1..], ks[i..], pending)
  {
    hide KeysAt, KeysAfter, ExpandKeys;
    if i > 0 {
      KeysCut(cs, ks, pending, i - 1);
      assert cs[..i][..i - 1] == cs[..i - 1] && ks[..i][..i - 1] == ks[..i - 1];
      assert cs[i - 1 + 1..] == [cs[i]] + cs[i + 1..] && ks[i - 1..] == [ks[i - 1]] + ks[i..];
      AfterCons(cs[i], cs[i + 1..], ks[i - 1], ks[i..], pending);
    } else {
      assert ks[0..] == ks;
      assert ExpandKeys(cs, ks, pending) == KeysAt(cs[0], pending) + KeysAfter(cs[1..], ks, pending)
             by { FirstCut(cs, ks, pending); }
    }
  }

  lemma FirstCut(cs: seq<RefId>, ks: seq<Key>, pending: Pending)
    requires |cs| == |ks| + 1
    ensures ExpandKeys(cs, ks, pending) == KeysAt(cs[0], pending) + KeysAfter(cs[1..], ks, pending)
  {
  }

  lemma {:induction false} SameLength(cs: seq<RefId>, ks: seq<Key>, pending: Pending)
    requires |cs| == |ks|
    ensures |KeysBefore(cs, ks, pending)| == |ExpandChildren(cs, pending)|
  {
    if cs != [] {
      SameLength(cs[..|cs| - 1], ks[..|ks| - 1], pending);
    }
  }

  ghost predicate Agree(cs: seq<RefId>, p: Pending, q: Pending) {
    forall x :: x in cs ==> (x in p <==> x in q) && (x in p ==> p[x] == q[x])
  }

  lemma {:induction false} AgreeBefore(cs: seq<RefId>, ks: seq<Key>, p: Pending, q: Pending)
    requires |cs| == |ks| && Agree(cs, p, q)
    ensures KeysBefore(cs, ks, p) == KeysBefore(cs, ks, q) && ExpandChildren(cs, p) == ExpandChildren(cs, q)
  {
    if cs != [] {
      assert cs[|cs| - 1] in cs;
      AgreeBefore(cs[..|cs| - 1], ks[..|ks| - 1], p, q);
    }
  }

  lemma {:induction false} AgreeAfter(cs: seq<RefId>, ks: seq<Key>, p: Pending, q: Pending)
    requires |cs| == |ks| && Agree(cs, p, q)
    ensures KeysAfter(cs, ks, p) == KeysAfter(cs, ks, q)
  {
    if cs != [] {
      assert cs[0] in cs;
      AgreeAfter(cs[1..], ks[1..], p, q);
    }
  }

  /** A child with no pending split is in the page at the place its left siblings leave for it. */
  lemma {:induction false} NotExpanded(cs: seq<RefId>, pending: Pending, leaf: RefId)
    requires leaf !in cs
    requires forall x :: x in pending ==> pending[x].left != leaf && pending[x].right != leaf
    ensures leaf !in ExpandChildren(cs, pending)
  {
    if cs != [] {
      NotExpanded(cs[..|cs| - 1], pending, leaf);
    }
  }

  lemma CutAgrees(cs: seq<RefId>, i: nat, p: Pending, q: Pending)
    requires Distinct(cs) && i < |cs|
    requires forall x :: x != cs[i] ==> (x in p <==> x in q) && (x in p ==> p[x] == q[x])
    ensures Agree(cs[..i], p, q) && Agree(cs[i + 1..], p, q)
  {
    forall x | x in cs[..i] || x in cs[i + 1..] ensures x != cs[i] {}
  }

  lemma AgreeExpand(cs: seq<RefId>, p: Pending, q: Pending)
    requires Agree(cs, p, q)
    ensures ExpandChildren(cs, p) == ExpandChildren(cs, q)
  {
    AgreeBefore(cs, seq(|cs|, i => []), p, q);
  }

  /** Putting a split of child `i` into the page makes it pending. */
  lemma InsertExpands(cs: seq<RefId>, ks: seq<Key>, p: Pending, i: nat, pair: Pair)
    requires |cs| == |ks| + 1 && i < |cs| && Distinct(cs) && cs[i] !in p
    ensures var j := |ExpandChildren(cs[..i], p)|;
            var q := p[cs[i] := pair];
            var ec, ek := ExpandChildren(cs, p), ExpandKeys(cs, ks, p);
            && |ec| == |ek| + 1 && j < |ec| && ec[j] == cs[i]
            && ExpandChildren(cs, q) == ec[..j] + [pair.left, pair.right] + ec[j + 1..]
            && ExpandKeys(cs, ks, q) == ek[..j] + [pair.h.splitKey] + ek[j..]
  {
    hide ExpandChildren, ExpandKeys, KeysBefore, KeysAfter;
    var q := p[cs[i] := pair];
    CutAgrees(cs, i, p, q);
    ChildrenCut(cs, p, i);
    ChildrenCut(cs, q, i);
    KeysCut(cs, ks, p, i);
    KeysCut(cs, ks, q, i);
    AgreeBefore(cs[..i], ks[..i], p, q);
    AgreeAfter(cs[i + 1..], ks[i..], p, q);
    AgreeExpand(cs[i + 1..], p, q);
    SameLength(cs[..i], ks[..i], p);
    ExpandLength(cs, ks, p);
  }

  lemma ExpandLength(cs: seq<RefId>, ks: seq<Key>, p: Pending)
    requires |cs| == |ks| + 1
    ensures |ExpandChildren(cs, p)| == |ExpandKeys(cs, ks, p)| + 1
  {
    var n := |ks|;
    KeysCut(cs, ks, p, n);
    ChildrenCut(cs, p, n);
    SameLength(cs[..n], ks[..n], p);
  }

  /** Publishing a pending split in the cache leaves the page as it is. */
  lemma PublishExpands(c: Cache, p: Pending, i: nat)
    requires |c.children| == |c.separators| + 1 && i < |c.children| && Distinct(c.children)
    requires c.children[i] in p && p[c.children[i]].left !in p && p[c.children[i]].right !in p
    ensures var pair, q := p[c.children[i]], p - {c.children[i]};
            var c' := Splice(c, i, pair.left, pair.right, pair.h.splitKey);
            && ExpandChildren(c'.children, q) == ExpandChildren(c.children, p)
            && ExpandKeys(c'.children, c'.separators, q) == ExpandKeys(c.children, c.separators, p)
  {
    hide ExpandChildren, ExpandKeys;
    var pair, q := p[c.children[i]], p - {c.children[i]};
    CutAgrees(c.children, i, p, q);
    PublishChildren(c.children, p, q, i);
    PublishKeys(c.children, c.separators, p, q, i);
  }

  lemma PublishChildren(cs: seq<RefId>, p: Pending, q: Pending, i: nat)
    requires i < |cs| && cs[i] in p && p[cs[i]].left !in q && p[cs[i]].right !in q
    requires Agree(cs[..i], p, q) && Agree(cs[i + 1..], p, q)
    ensures ExpandChildren(cs[..i] + [p[cs[i]].left, p[cs[i]].right] + cs[i + 1..], q) == ExpandChildren(cs, p)
  {
    hide ExpandChildren;
    var halves := [p[cs[i]].left, p[cs[i]].right];
    ChildrenCut(cs, p, i);
    AgreeExpand(cs[..i], p, q);
    AgreeExpand(cs[i + 1..], p, q);
    ExpandAppend(cs[..i] + halves, cs[i + 1..], q);
    ExpandAppend(cs[..i], halves, q);
    ChildrenCut(halves, q, 0);
    ChildrenCut(halves[1..], q, 0);
    EmptyExpands(halves[..0], q);
    EmptyExpands(halves[1..][..0], q);
    EmptyExpands(halves[1..][1..], q);
  }

  lemma PublishKeys(cs: seq<RefId>, ks: seq<Key>, p: Pending, q: Pending, i: nat)
    requires |cs| == |ks| + 1 && i < |cs| && cs[i] in p && p[cs[i]].left !in q && p[cs[i]].right !in q
    requires Agree(cs[..i], p, q) && Agree(cs[i + 1..], p, q)
    ensures ExpandKeys(cs[..i] + [p[cs[i]].left, p[cs[i]].right] + cs[i + 1..],
                       ks[..i] + [p[cs[i]].h.splitKey] + ks[i..], q)
            == ExpandKeys(cs, ks, p)
  {
    hide ExpandKeys, KeysBefore, KeysAfter;
    var l, r, k := p[cs[i]].left, p[cs[i]].right, p[cs[i]].h.splitKey;
    var cs', ks' := cs[..i] + [l, r] + cs[i + 1..], ks[..i] + [k] + ks[i..];
    KeysCut(cs, ks, p, i);
    AgreeBefore(cs[..i], ks[..i], p, q);
    AgreeAfter(cs[i + 1..], ks[i..], p, q);
    KeysCut(cs', ks', q, i);
    assert cs'[..i] == cs[..i] && cs'[i] == l && cs'[i + 1..] == [r] + cs[i + 1..];
    assert ks'[..i] == ks[..i] && ks'[i..] == [k] + ks[i..];
    AfterCons(r, cs[i + 1..], k, ks[i..], q);
  }

  lemma AfterCons(r: RefId, cs: seq<RefId>, k: Key, ks: seq<Key>, q: Pending)
    requires |cs| == |ks|
    ensures KeysAfter([r] + cs, [k] + ks, q) == [k] + KeysAt(r, q) + KeysAfter(cs, ks, q)
  {
    assert ([r] + cs)[1..] == cs && ([k] + ks)[1..] == ks;
  }

  lemma EmptyExpands(cs: seq<RefId>, p: Pending)
    requires cs == []
    ensures ExpandChildren(cs, p) == []
  {
  }
}
