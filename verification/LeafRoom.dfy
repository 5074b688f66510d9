/** What the fullness tests of leaf and index pages mean for the writes that follow (leaf_page.go, node_page.go). */
module LeafRoom {
  import opened Bytes
  import opened Pages
  import opened SplitTheorems

  /** The largest value that a leaf takes in every case while it is not reported full. */
  const SURE_VALUE := 205

  /** The largest separator that an index page takes in every case while it is not reported full. */
  const SURE_KEY := 410

  /** A leaf is reported full if and only if a new entry with a value of 205 bytes does not fit any more. */
  lemma LeafFullExact(p: LeafPage, index: nat, key: Key, value: Value)
    requires index <= |p.entries| && |value| == SURE_VALUE
    ensures LeafIsFull(p, |key|, 0) <==> LeafInsertEntry(p, index, Entry(key, value)).Err?
  {
  }

  /** An index page is reported full if and only if it has 126 keys or a separator of 410 bytes does not fit. */
  lemma NodeFullExact(p: NodePage, index: nat, key: Key, left: PageID, right: PageID)
    requires index <= |p.entries| && |key| == SURE_KEY && left != 0
    ensures NodeIsFull(p, 0) <==> |p.entries| >= 126 || InsertChild(p, index, key, left, right).Err?
  {
    InsertChildSplices(p, index, key, left, right);
  }

  /** A write that has room for one more entry succeeds, also when it replaces a value. */
  lemma SetFits(p: LeafPage, key: Key, value: Value)
    requires LeafFits(p) && LeafUsed(p) + ENTRY_SIZE + |key| + |value| <= PAGE_SIZE
    ensures LeafSet(p, key, value).Ok?
  {
    hide EntryBytes, LeafBuild, LeafPosition;
    var es, i := p.entries, LeafPosition(p.entries, key);
    if i < |es| && es[i].key == key && |value| > |es[i].value| {
      var e := Entry(es[i].key, value);
      LeafBuildFits(es[..i] + [e] + es[i + 1..]);
      assert es == es[..i] + [es[i]] + es[i + 1..];
      EntryBytesSplit(es[..i] + [es[i]], es[i + 1..]);
      EntryBytesSplit(es[..i], [es[i]]);
      EntryBytesSplit(es[..i] + [e], es[i + 1..]);
      EntryBytesSplit(es[..i], [e]);
      EntryBytesOne(e);
      EntryBytesOne(es[i]);
    }
  }

  /** A leaf that is not reported full takes every value of up to 205 bytes, new or in place of another. */
  lemma NotFullTakes(p: LeafPage, key: Key, value: Value)
    requires LeafFits(p) && !LeafIsFull(p, |key|, 0) && |value| <= SURE_VALUE
    ensures LeafSet(p, key, value).Ok?
  {
    SetFits(p, key, value);
  }

  // ---------------------------------------------------------------- splitting a full leaf

  /** A small entry takes at most 240 bytes with its slot. */
  predicate Small(e: Entry) {
    ENTRY_SIZE + |e.key| + |e.value| <= 240
  }

  predicate AllSmall(es: seq<Entry>) {
    forall i :: 0 <= i < |es| ==> Small(es[i])
  }

  /** The bytes of some entries with their slots. */
  function Size(es: seq<Entry>): nat {
    |es| * ENTRY_SIZE + EntryBytes(es)
  }

  lemma {:induction false} SizeBounds(es: seq<Entry>)
    requires AllSmall(es)
    ensures 16 * |es| <= Size(es) <= 240 * |es|
  {
    if es != [] {
      SizeBounds(es[..|es| - 1]);
    }
  }

  lemma HalfFits(p: LeafPage, x: seq<Entry>, y: seq<Entry>, e: Entry)
    requires LeafFits(p) && AllSmall(x) && AllSmall(y) && Small(e) && |x| <= |y| + 1
    requires Size(x) + Size(y) == Size(p.entries)
    ensures LeafBuild(x).Ok? && LeafSet(LeafBuild(x).value, e.key, e.value).Ok?
  {
    hide LeafSet, LeafBuild, EntryBytes, AllSmall;
    SizeBounds(x);
    SizeBounds(y);
    assert Size(x) + 240 <= PAGE_SIZE - HEADER_SIZE by {
      assert |x| <= 15 ==> Size(x) <= 3600;
      assert |x| > 15 ==> Size(y) >= 240;
    }
    LeafBuildFits(x);
    NoBytes();
    SetFits(LeafBuild(x).value, e.key, e.value);
  }

  lemma NoBytes()
    ensures EntryBytes([]) == 0
  {
  }

  /**
   Where all entries are small, a full leaf takes the next one after its split if and only if it has two
   entries to split, and the split key is the middle one.
   */
  lemma SmallSplits(p: LeafPage, key: Key, value: Value)
    requires LeafFits(p) && AllSmall(p.entries) && Small(Entry(key, value))
    ensures var h := SplitAndSet(p, key, value);
            && (h.Ok? <==> |p.entries| >= 2)
            && (h.Ok? ==> h.value.splitKey == p.entries[|p.entries| / 2].key)
  {
    hide LeafSet, LeafBuild, EntryBytes, Less;
    var es := p.entries;
    if |es| >= 2 {
      var mid := |es| / 2;
      var l, r := es[..mid], es[mid..];
      assert es == l + r;
      EntryBytesSplit(l, r);
      HalfFits(p, l, r, Entry(key, value));
      HalfFits(p, r, l, Entry(key, value));
    }
  }

  /** A leaf with a single entry cannot be split: once it is reported full it refuses every further write. */
  lemma LoneEntryRefused(p: LeafPage, key: Key, value: Value)
    requires |p.entries| < 2
    ensures SplitAndSet(p, key, value).Err?
  {
  }

  /** Such a leaf: one entry with a value of 3900 bytes, written into an empty leaf. */
  lemma LoneEntryFull(key: Key) returns (p: LeafPage)
    requires |key| <= 100
    ensures exists value :: LeafSet(EMPTY_LEAF, key, value) == Ok(p)
    ensures LeafFits(p) && |p.entries| == 1 && forall keyLen :: LeafIsFull(p, keyLen, 0)
  {
    var value: Value := seq(3900, _ => 0);
    var r := LeafSet(EMPTY_LEAF, key, value);
    p := LeafPage([Entry(key, value)], |key| + 3900);
    assert EMPTY_LEAF.entries[..0] + [Entry(key, value)] + EMPTY_LEAF.entries[0..] == [Entry(key, value)];
    EntryBytesOne(Entry(key, value));
    assert r == Ok(p);
  }
}
