/**
 The logical content of leaf and index pages and the copy-on-write operations on them
 (leaf_page.go, node_page.go). A page is a value: every operation returns a new page.
 `dataEnd` is the number of bytes the key/value area occupies at the end of the page,
 which depends on the page's past and not on its entries alone.
 */
module Pages {
  import opened Bytes

  const PAGE_SIZE := 4096
  const HEADER_SIZE := 56
  const ENTRY_SIZE := 16
  const MAX_INTERNAL_KEYS := 126

  type PageID = nat

  datatype Error = PageFull | DuplicateKey | TooFewKeys | InvalidRange | ZeroChild | SelfLoop | BadIndex | OutOfMemory
  datatype Result<+T> = Ok(value: T) | Err(error: Error)

  // ---------------------------------------------------------------- leaf pages

  datatype Entry = Entry(key: Key, value: Value)
  datatype LeafPage = LeafPage(entries: seq<Entry>, dataEnd: nat)

  const EMPTY_LEAF := LeafPage([], 0)

  function Keys(es: seq<Entry>): (ks: seq<Key>)
    ensures |ks| == |es| && forall i :: 0 <= i < |es| ==> ks[i] == es[i].key
  {
    seq(|es|, i requires 0 <= i < |es| => es[i].key)
  }

  function EntryBytes(es: seq<Entry>): nat {
    if es == [] then 0 else EntryBytes(es[..|es| - 1]) + |es[|es| - 1].key| + |es[|es| - 1].value|
  }

  function LeafUsed(p: LeafPage): nat {
    HEADER_SIZE + |p.entries| * ENTRY_SIZE + p.dataEnd
  }

  /** The area accounted for by `dataEnd` holds at least the live entries, and all of it fits. */
  ghost predicate LeafFits(p: LeafPage) {
    EntryBytes(p.entries) <= p.dataEnd && LeafUsed(p) <= PAGE_SIZE && (p.entries == [] ==> p.dataEnd == 0)
  }

  ghost predicate SortedEntries(es: seq<Entry>) {
    forall i, j :: 0 <= i < j < |es| ==> Less(es[i].key, es[j].key)
  }

  ghost predicate EntriesWithin(es: seq<Entry>, lo: Option<Key>, hi: Option<Key>) {
    forall i :: 0 <= i < |es| ==> InRange(es[i].key, lo, hi)
  }

  /** The map a leaf stands for. */
  ghost function LeafGet(es: seq<Entry>, key: Key): (r: Option<Value>)
    ensures r.None? <==> forall i :: 0 <= i < |es| ==> es[i].key != key
    ensures r.Some? ==> exists i :: 0 <= i < |es| && es[i] == Entry(key, r.value)
  {
    if es == [] then None
    else if es[|es| - 1].key == key then Some(es[|es| - 1].value)
    else LeafGet(es[..|es| - 1], key)
  }

  /** In a sorted leaf an entry is what its key maps to. */
  lemma LeafGetAt(es: seq<Entry>, i: nat)
    requires SortedEntries(es) && i < |es|
    ensures LeafGet(es, es[i].key) == Some(es[i].value)
  {
    var r := LeafGet(es, es[i].key);
    var j :| 0 <= j < |es| && es[j] == Entry(es[i].key, r.value);
    LessIrreflexive(es[i].key);
  }

  /** The insertion point of `key`: the number of entries with a smaller key. */
  function LeafPosition(es: seq<Entry>, key: Key): (i: nat)
    ensures i <= |es|
    ensures i < |es| ==> !Less(es[i].key, key)
    ensures forall j :: 0 <= j < i ==> Less(es[j].key, key)
  {
    if es == [] then 0
    else if !Less(es[0].key, key) then 0
    else 1 + LeafPosition(es[1..], key)
  }

  /** `IsFull`: would the page be more than 95% used after one more entry? */
  predicate LeafIsFull(p: LeafPage, keyLen: nat, valueLen: nat) {
    (LeafUsed(p) + ENTRY_SIZE + keyLen + valueLen) * 100 > 95 * PAGE_SIZE
  }

  /** `InsertLeafEntry`: shift the entries from `index` on and store the new one. */
  function LeafInsertEntry(p: LeafPage, index: nat, e: Entry): (r: Result<LeafPage>)
    requires index <= |p.entries|
  {
    if LeafUsed(p) + ENTRY_SIZE + |e.key| + |e.value| > PAGE_SIZE then Err(PageFull)
    else Ok(LeafPage(p.entries[..index] + [e] + p.entries[index..], p.dataEnd + |e.key| + |e.value|))
  }

  /** A fresh page filled by appending entries one at a time. */
  function LeafBuild(es: seq<Entry>): (r: Result<LeafPage>) {
    if es == [] then Ok(EMPTY_LEAF)
    else
      var front := LeafBuild(es[..|es| - 1]);
      if front.Err? then front
      else LeafInsertEntry(front.value, |front.value.entries|, es[|es| - 1])
  }

  function LeafInsert(p: LeafPage, key: Key, value: Value): (r: Result<LeafPage>) {
    var i := LeafPosition(p.entries, key);
    if i < |p.entries| && p.entries[i].key == key then Err(DuplicateKey)
    else LeafInsertEntry(p, i, Entry(key, value))
  }

  /** `Update`: overwrite in the old slot when the value fits there, otherwise rebuild the page. */
  function LeafUpdate(p: LeafPage, index: nat, value: Value): (r: Result<LeafPage>)
    requires index < |p.entries|
  {
    var e := Entry(p.entries[index].key, value);
    if |value| <= |p.entries[index].value| then Ok(p.(entries := p.entries[index := e]))
    else LeafBuild(p.entries[..index] + [e] + p.entries[index + 1..])
  }

  /** The mutation `btreeStorageAdapter.Set` hands to the write path. */
  function LeafSet(p: LeafPage, key: Key, value: Value): (r: Result<LeafPage>) {
    var i := LeafPosition(p.entries, key);
    if i < |p.entries| && p.entries[i].key == key then LeafUpdate(p, i, value)
    else LeafInsert(p, key, value)
  }

  datatype LeafHalves = LeafHalves(left: LeafPage, right: LeafPage, splitKey: Key)

  function LeafSplit(p: LeafPage): (r: Result<LeafHalves>) {
    if |p.entries| < 2 then Err(TooFewKeys)
    else
      var mid := |p.entries| / 2;
      var left := LeafBuild(p.entries[..mid]);
      var right := LeafBuild(p.entries[mid..]);
      if left.Err? then Err(left.error)
      else if right.Err? then Err(right.error)
      else Ok(LeafHalves(left.value, right.value, p.entries[mid].key))
  }

  // ---------------------------------------------------------------- lemmas about leaf pages

  lemma {:induction false} EntryBytesSplit(a: seq<Entry>, b: seq<Entry>)
    ensures EntryBytes(a + b) == EntryBytes(a) + EntryBytes(b)
  {
    if b == [] {
      assert a + b == a;
    } else {
      EntryBytesSplit(a, b[..|b| - 1]);
      assert (a + b)[..|a + b| - 1] == a + b[..|b| - 1];
    }
  }

  lemma EntryBytesOne(e: Entry)
    ensures EntryBytes([e]) == |e.key| + |e.value|
  {
    var es := [e];
    assert es[..0] == [];
    assert EntryBytes(es[..0]) == 0;
  }

  /** Building succeeds exactly when the entries fit on one page, and keeps them as they are. */
  lemma {:induction false} LeafBuildFits(es: seq<Entry>)
    ensures LeafBuild(es).Ok? <==> HEADER_SIZE + |es| * ENTRY_SIZE + EntryBytes(es) <= PAGE_SIZE
    ensures LeafBuild(es).Ok? ==> LeafBuild(es).value == LeafPage(es, EntryBytes(es))
  {
    if es != [] {
      var front := es[..|es| - 1];
      LeafBuildFits(front);
      if LeafBuild(front).Ok? {
        assert es == front + [es[|es| - 1]];
      }
    }
  }

  /** Splicing an entry in at its position keeps the order. */
  lemma SpliceSorted(es: seq<Entry>, key: Key, value: Value)
    requires SortedEntries(es)
    requires var i := LeafPosition(es, key); i < |es| ==> es[i].key != key
    ensures var i := LeafPosition(es, key); SortedEntries(es[..i] + [Entry(key, value)] + es[i..])
  {
    hide Less, LeafPosition;
    var i := LeafPosition(es, key);
    var fs := es[..i] + [Entry(key, value)] + es[i..];
    forall j | i <= j < |es| ensures Less(key, es[j].key) {
      LessTotal(key, es[i].key);
      if i < j {
        LessTransitive(key, es[i].key, es[j].key);
      }
    }
    forall a, b | 0 <= a < b < |fs| ensures Less(fs[a].key, fs[b].key) {
      assert a < i ==> fs[a] == es[a];
      assert i < b ==> fs[b] == es[b - 1];
      assert i < a ==> fs[a] == es[a - 1];
      assert b < i ==> fs[b] == es[b];
    }
  }

  /** What a sorted leaf maps a key to only depends on which entries it holds for it. */
  lemma LeafGetAgree(es: seq<Entry>, fs: seq<Entry>, k: Key)
    requires SortedEntries(es) && SortedEntries(fs)
    requires forall x: Entry :: x.key == k ==> (x in es <==> x in fs)
    ensures LeafGet(es, k) == LeafGet(fs, k)
  {
    if LeafGet(es, k).Some? {
      var i :| 0 <= i < |es| && es[i] == Entry(k, LeafGet(es, k).value);
      assert es[i] in es;
      var j :| 0 <= j < |fs| && fs[j] == es[i];
      LeafGetAt(fs, j);
    } else {
      forall j | 0 <= j < |fs| ensures fs[j].key != k {
        assert fs[j] in fs;
      }
    }
  }

  /** Leaves that hold the same entries for all keys but one map all keys but one the same way. */
  lemma LeafOthersAgree(es: seq<Entry>, fs: seq<Entry>, key: Key)
    requires SortedEntries(es) && SortedEntries(fs)
    requires forall x: Entry :: x.key != key ==> (x in es <==> x in fs)
    ensures forall k :: k != key ==> LeafGet(es, k) == LeafGet(fs, k)
  {
    forall k | k != key ensures LeafGet(es, k) == LeafGet(fs, k) {
      LeafGetAgree(es, fs, k);
    }
  }

  /** `q` is `p` with `key` mapped to `value`, and again a well-formed leaf for the range. */
  ghost predicate LeafUpdated(p: LeafPage, q: LeafPage, key: Key, value: Value, lo: Option<Key>, hi: Option<Key>) {
    && SortedEntries(q.entries) && LeafFits(q) && EntriesWithin(q.entries, lo, hi)
    && LeafGet(q.entries, key) == Some(value)
    && forall k :: k != key ==> LeafGet(q.entries, k) == LeafGet(p.entries, k)
  }

  lemma LeafUpdateIsUpdate(p: LeafPage, i: nat, value: Value, lo: Option<Key>, hi: Option<Key>)
    requires SortedEntries(p.entries) && LeafFits(p) && EntriesWithin(p.entries, lo, hi)
    requires i < |p.entries| && LeafUpdate(p, i, value).Ok?
    ensures LeafUpdated(p, LeafUpdate(p, i, value).value, p.entries[i].key, value, lo, hi)
  {
    var es := p.entries;
    var key := es[i].key;
    var fs := es[i := Entry(key, value)];
    LeafUpdateEntries(p, i, value);
    assert SortedEntries(fs);
    LeafGetAt(fs, i);
    forall x: Entry | x.key != key ensures x in es <==> x in fs {
      assert forall j :: 0 <= j < |es| && j != i ==> es[j] == fs[j];
    }
    LeafOthersAgree(es, fs, key);
  }

  lemma SpliceBytes(es: seq<Entry>, i: nat, e: Entry)
    requires i <= |es|
    ensures EntryBytes(es[..i] + [e] + es[i..]) == EntryBytes(es) + |e.key| + |e.value|
  {
    assert es == es[..i] + es[i..];
    EntryBytesSplit(es[..i], es[i..]);
    EntryBytesSplit(es[..i], [e]);
    EntryBytesSplit(es[..i] + [e], es[i..]);
  }

  lemma LeafInsertIsUpdate(p: LeafPage, key: Key, value: Value, lo: Option<Key>, hi: Option<Key>)
    requires SortedEntries(p.entries) && LeafFits(p)
    requires EntriesWithin(p.entries, lo, hi) && InRange(key, lo, hi)
    requires LeafInsert(p, key, value).Ok?
    ensures LeafUpdated(p, LeafInsert(p, key, value).value, key, value, lo, hi)
  {
    hide EntryBytes, LeafGet, Less, InRange, LeafPosition, SortedEntries;
    var es, e := p.entries, Entry(key, value);
    var i := LeafPosition(es, key);
    SpliceSorted(es, key, value);
    SpliceBytes(es, i, e);
    SpliceMaps(es, i, e);
    SpliceWithin(es, i, e, lo, hi);
  }

  lemma SpliceWithin(es: seq<Entry>, i: nat, e: Entry, lo: Option<Key>, hi: Option<Key>)
    requires i <= |es| && EntriesWithin(es, lo, hi) && InRange(e.key, lo, hi)
    ensures EntriesWithin(es[..i] + [e] + es[i..], lo, hi)
  {
    hide InRange;
    var fs := es[..i] + [e] + es[i..];
    forall j | 0 <= j < |fs| ensures InRange(fs[j].key, lo, hi) {
      assert fs[j] == if j < i then es[j] else if j == i then e else es[j - 1];
    }
  }

  lemma SpliceMaps(es: seq<Entry>, i: nat, e: Entry)
    requires i <= |es| && SortedEntries(es) && SortedEntries(es[..i] + [e] + es[i..])
    ensures var fs := es[..i] + [e] + es[i..];
            LeafGet(fs, e.key) == Some(e.value) && forall k :: k != e.key ==> LeafGet(fs, k) == LeafGet(es, k)
  {
    hide LeafGet, SortedEntries;
    var fs := es[..i] + [e] + es[i..];
    assert fs[i] == e;
    LeafGetAt(fs, i);
    forall x: Entry | x.key != e.key ensures x in es <==> x in fs {
      SpliceHas(es, i, e, x);
    }
    LeafOthersAgree(es, fs, e.key);
  }

  lemma SpliceHas(es: seq<Entry>, i: nat, e: Entry, x: Entry)
    requires i <= |es|
    ensures x in es[..i] + [e] + es[i..] <==> x == e || x in es
  {
    assert es == es[..i] + es[i..];
  }

  /**
   `Set` on a leaf is a map update: whenever it succeeds, the key maps to the value, every other
   key is unchanged, and the page is again sorted, inside any range that held the old page and the key.
   */
  lemma LeafSetIsUpdate(p: LeafPage, key: Key, value: Value, lo: Option<Key>, hi: Option<Key>)
    requires SortedEntries(p.entries) && LeafFits(p)
    requires EntriesWithin(p.entries, lo, hi) && InRange(key, lo, hi)
    requires LeafSet(p, key, value).Ok?
    ensures LeafUpdated(p, LeafSet(p, key, value).value, key, value, lo, hi)
  {
    var i := LeafPosition(p.entries, key);
    if i < |p.entries| && p.entries[i].key == key {
      LeafUpdateIsUpdate(p, i, value, lo, hi);
    } else {
      LeafInsertIsUpdate(p, key, value, lo, hi);
    }
  }

  /** Both branches of `Update` put the value at the index and leave the other entries alone. */
  lemma LeafUpdateEntries(p: LeafPage, index: nat, value: Value)
    requires index < |p.entries| && LeafFits(p)
    requires LeafUpdate(p, index, value).Ok?
    ensures var q := LeafUpdate(p, index, value).value;
            && q.entries == p.entries[index := Entry(p.entries[index].key, value)]
            && LeafFits(q)
  {
    var es := p.entries;
    var e := Entry(es[index].key, value);
    var fs := es[..index] + [e] + es[index + 1..];
    assert fs == es[index := e];
    LeafBuildFits(fs);
    assert es == es[..index] + [es[index]] + es[index + 1..];
    EntryBytesSplit(es[..index] + [es[index]], es[index + 1..]);
    EntryBytesSplit(es[..index], [es[index]]);
    EntryBytesSplit(es[..index] + [e], es[index + 1..]);
    EntryBytesSplit(es[..index], [e]);
  }

  /** What the halves of a split guarantee about the page they came from. */
  ghost predicate LeafCut(p: LeafPage, h: LeafHalves, lo: Option<Key>, hi: Option<Key>) {
    && h.left.entries + h.right.entries == p.entries
    && h.left.entries != [] && h.right.entries != [] && h.right.entries[0].key == h.splitKey
    && |h.left.entries| <= |h.right.entries| <= |h.left.entries| + 1
    && LeafFits(h.left) && LeafFits(h.right)
    && SortedEntries(h.left.entries) && SortedEntries(h.right.entries)
    && EntriesWithin(h.left.entries, lo, Some(h.splitKey))
    && EntriesWithin(h.right.entries, Some(h.splitKey), hi)
    && InRange(h.splitKey, lo, hi) && (lo.Some? ==> Less(lo.value, h.splitKey))
  }

  /** Splitting a sorted leaf succeeds exactly on two or more entries and cuts it in the middle, at the split key. */
  lemma LeafSplitCuts(p: LeafPage, lo: Option<Key>, hi: Option<Key>)
    requires SortedEntries(p.entries) && LeafFits(p) && EntriesWithin(p.entries, lo, hi)
    ensures LeafSplit(p).Ok? <==> |p.entries| >= 2
    ensures LeafSplit(p).Ok? ==> LeafCut(p, LeafSplit(p).value, lo, hi)
  {
    hide Less, LeafBuild, EntryBytes;
    var es := p.entries;
    if |es| >= 2 {
      var mid := |es| / 2;
      var l, r, s := es[..mid], es[mid..], es[mid].key;
      assert es == l + r;
      EntryBytesSplit(l, r);
      LeafBuildFits(l);
      LeafBuildFits(r);
      forall i | 0 <= i < |r| ensures !Less(r[i].key, s) {
        LessIrreflexive(s);
        if i > 0 {
          LessAsymmetric(s, es[mid + i].key);
        }
      }
      assert l[0] == es[0];
      if lo.Some? {
        LeqThenLess(lo.value, es[0].key, s);
      }
    }
  }

  /** The two halves of a cut leaf together map every key as the whole did. */
  lemma LeafCutMapsSame(p: LeafPage, h: LeafHalves, lo: Option<Key>, hi: Option<Key>, k: Key)
    requires SortedEntries(p.entries) && LeafCut(p, h, lo, hi)
    ensures LeafGet(p.entries, k) == LeafGet(if Less(k, h.splitKey) then h.left.entries else h.right.entries, k)
  {
    var l, r := h.left.entries, h.right.entries;
    LeafGetAgree(p.entries, if Less(k, h.splitKey) then l else r, k);
  }

  // ---------------------------------------------------------------- index pages

  datatype IndexEntry = IndexEntry(key: Key, child: PageID)

  /** Entry `i` holds a separator and the child to its left; the last child sits in the header. */
  datatype NodePage = NodePage(entries: seq<IndexEntry>, extraChild: PageID, dataEnd: nat)

  const EMPTY_NODE := NodePage([], 0, 0)

  function NodeKeys(p: NodePage): (ks: seq<Key>)
    ensures |ks| == |p.entries| && forall i :: 0 <= i < |ks| ==> ks[i] == p.entries[i].key
  {
    seq(|p.entries|, i requires 0 <= i < |p.entries| => p.entries[i].key)
  }

  /** `GetChild` for every index in order. */
  function NodeChildren(p: NodePage): (cs: seq<PageID>)
    ensures |cs| == |p.entries| + 1
    ensures forall i :: 0 <= i < |p.entries| ==> cs[i] == p.entries[i].child
    ensures cs[|p.entries|] == p.extraChild
  {
    seq(|p.entries|, i requires 0 <= i < |p.entries| => p.entries[i].child) + [p.extraChild]
  }

  function NodeUsed(p: NodePage): nat {
    HEADER_SIZE + |p.entries| * ENTRY_SIZE + p.dataEnd
  }

  predicate NodeIsFull(p: NodePage, keyLen: nat) {
    |p.entries| >= MAX_INTERNAL_KEYS || (NodeUsed(p) + ENTRY_SIZE + keyLen) * 100 > 90 * PAGE_SIZE
  }

  function SetChild(p: NodePage, index: nat, child: PageID): (r: NodePage)
    requires index <= |p.entries|
  {
    if index == |p.entries| then p.(extraChild := child)
    else p.(entries := p.entries[index := p.entries[index].(child := child)])
  }

  function InsertIndexEntry(p: NodePage, index: nat, key: Key, child: PageID): (r: Result<NodePage>)
    requires index <= |p.entries|
  {
    if child == 0 then Err(ZeroChild)
    else if NodeUsed(p) + ENTRY_SIZE + |key| > PAGE_SIZE then Err(PageFull)
    else Ok(NodePage(p.entries[..index] + [IndexEntry(key, child)] + p.entries[index..],
                     p.extraChild, p.dataEnd + |key|))
  }

  /** `InsertChild`: child `index` is replaced by `left` and `right`, separated by `splitKey`. */
  function InsertChild(p: NodePage, index: int, splitKey: Key, left: PageID, right: PageID): (r: Result<NodePage>) {
    if index < 0 || index > |p.entries| then Err(BadIndex)
    else if index < |p.entries| then
      InsertIndexEntry(SetChild(p, index, right), index, splitKey, left)
    else
      var q := InsertIndexEntry(p, |p.entries|, splitKey, left);
      if q.Err? then q else Ok(SetChild(q.value, |p.entries| + 1, right))
  }

  /** Both branches of `InsertChild` splice the same way, which is how the children cache is spliced. */
  lemma InsertChildSplices(p: NodePage, index: nat, splitKey: Key, left: PageID, right: PageID)
    requires index <= |p.entries|
    ensures var r := InsertChild(p, index, splitKey, left, right);
            && (r.Ok? <==> left != 0 && NodeUsed(p) + ENTRY_SIZE + |splitKey| <= PAGE_SIZE)
            && (r.Ok? ==>
                  && NodeKeys(r.value) == NodeKeys(p)[..index] + [splitKey] + NodeKeys(p)[index..]
                  && NodeChildren(r.value) == NodeChildren(p)[..index] + [left, right] + NodeChildren(p)[index + 1..])
  {
    var r := InsertChild(p, index, splitKey, left, right);
    if r.Ok? {
      var ks := NodeKeys(p)[..index] + [splitKey] + NodeKeys(p)[index..];
      var cs := NodeChildren(p)[..index] + [left, right] + NodeChildren(p)[index + 1..];
      forall i | 0 <= i < |ks| ensures NodeKeys(r.value)[i] == ks[i] {}
      forall i | 0 <= i < |cs| ensures NodeChildren(r.value)[i] == cs[i] {}
      assert NodeKeys(r.value) == ks && NodeChildren(r.value) == cs;
    }
  }

  datatype NodeHalves = NodeHalves(left: NodePage, right: NodePage, splitKey: Key)

  /** `BulkInitIndexFromSource`: copy entries `[start, end)` of page `srcID`, refusing empty ranges and self loops. */
  function BulkIndex(srcID: PageID, es: seq<IndexEntry>, extraChild: PageID): (r: Result<NodePage>) {
    if es == [] then Err(InvalidRange)
    else
      var r := BulkEntries(srcID, es);
      if r.Err? then r
      else if extraChild == srcID then Err(SelfLoop)
      else Ok(r.value.(extraChild := extraChild))
  }

  function BulkEntries(srcID: PageID, es: seq<IndexEntry>): (r: Result<NodePage>) {
    if es == [] then Ok(EMPTY_NODE)
    else
      var front := BulkEntries(srcID, es[..|es| - 1]);
      var e := es[|es| - 1];
      if front.Err? then front
      else if e.child == srcID || e.child == 0 then Err(SelfLoop)
      else InsertIndexEntry(front.value, |front.value.entries|, e.key, e.child)
  }

  lemma {:induction false} BulkEntriesKeeps(srcID: PageID, es: seq<IndexEntry>)
    ensures BulkEntries(srcID, es).Ok? ==> BulkEntries(srcID, es).value.entries == es
  {
    if es != [] {
      BulkEntriesKeeps(srcID, es[..|es| - 1]);
      assert es == es[..|es| - 1] + [es[|es| - 1]];
    }
  }

  /** Node `Split`: the middle key moves up and belongs to neither half. */
  function NodeSplit(id: PageID, p: NodePage): (r: Result<NodeHalves>) {
    if |p.entries| < 2 then Err(TooFewKeys)
    else
      var mid := |p.entries| / 2;
      var left := BulkIndex(id, p.entries[..mid], p.entries[mid].child);
      var right := BulkIndex(id, p.entries[mid + 1..], p.extraChild);
      if left.Err? then Err(left.error)
      else if right.Err? then Err(right.error)
      else Ok(NodeHalves(left.value, right.value, p.entries[mid].key))
  }

  /** A successful split had at least three keys and cuts keys and children around the middle key. */
  lemma NodeSplitCuts(id: PageID, p: NodePage)
    requires NodeSplit(id, p).Ok?
    ensures var h := NodeSplit(id, p).value; var mid := |p.entries| / 2;
            && |p.entries| >= 3
            && NodeKeys(h.left) == NodeKeys(p)[..mid] && NodeKeys(h.right) == NodeKeys(p)[mid + 1..]
            && h.splitKey == NodeKeys(p)[mid]
            && NodeChildren(h.left) == NodeChildren(p)[..mid + 1]
            && NodeChildren(h.right) == NodeChildren(p)[mid + 1..]
  {
    hide BulkEntries;
    var mid := |p.entries| / 2;
    var h := NodeSplit(id, p).value;
    BulkEntriesKeeps(id, p.entries[..mid]);
    BulkEntriesKeeps(id, p.entries[mid + 1..]);
    IndexCut(p, h.left, h.right, mid);
  }

  lemma IndexCut(p: NodePage, l: NodePage, r: NodePage, mid: nat)
    requires mid < |p.entries|
    requires l.entries == p.entries[..mid] && l.extraChild == p.entries[mid].child
    requires r.entries == p.entries[mid + 1..] && r.extraChild == p.extraChild
    ensures NodeKeys(l) == NodeKeys(p)[..mid] && NodeKeys(r) == NodeKeys(p)[mid + 1..]
    ensures NodeChildren(l) == NodeChildren(p)[..mid + 1] && NodeChildren(r) == NodeChildren(p)[mid + 1..]
  {
    hide NodeKeys, NodeChildren;
  }

  // ---------------------------------------------------------------- when a node split succeeds

  function KeyBytes(es: seq<IndexEntry>): nat {
    if es == [] then 0 else KeyBytes(es[..|es| - 1]) + |es[|es| - 1].key|
  }

  /** The keys lie in the area that `dataEnd` accounts for, and all of it is on the page. */
  ghost predicate NodeFits(p: NodePage) {
    KeyBytes(p.entries) <= p.dataEnd && NodeUsed(p) <= PAGE_SIZE
  }

  lemma {:induction false} KeyBytesSplit(a: seq<IndexEntry>, b: seq<IndexEntry>)
    ensures KeyBytes(a + b) == KeyBytes(a) + KeyBytes(b)
  {
    if b == [] {
      assert a + b == a;
    } else {
      KeyBytesSplit(a, b[..|b| - 1]);
      assert (a + b)[..|a + b| - 1] == a + b[..|b| - 1];
    }
  }

  /** No child is missing and none is the page itself. */
  predicate NoLoop(id: PageID, es: seq<IndexEntry>) {
    forall i :: 0 <= i < |es| ==> es[i].child != 0 && es[i].child != id
  }

  /** Copying entries succeeds exactly when they fit and no child is zero or the source page. */
  lemma {:induction false} BulkEntriesFits(srcID: PageID, es: seq<IndexEntry>)
    ensures BulkEntries(srcID, es).Ok? <==>
              NoLoop(srcID, es) && (es != [] ==> HEADER_SIZE + |es| * ENTRY_SIZE + KeyBytes(es) <= PAGE_SIZE)
    ensures BulkEntries(srcID, es).Ok? ==> BulkEntries(srcID, es).value == NodePage(es, 0, KeyBytes(es))
  {
    if es != [] {
      var front, e := es[..|es| - 1], es[|es| - 1];
      BulkEntriesFits(srcID, front);
      assert es == front + [e];
      assert NoLoop(srcID, es) <==> NoLoop(srcID, front) && e.child != 0 && e.child != srcID by {
        assert forall i :: 0 <= i < |front| ==> front[i] == es[i];
        assert es[|front|] == e;
      }
    }
  }

  /** The guards of a node split: three keys, no self loop, and no missing child but the one in the middle. */
  predicate SplitsNode(id: PageID, p: NodePage) {
    var mid := |p.entries| / 2;
    && |p.entries| >= 3 && p.extraChild != id && p.entries[mid].child != id
    && NoLoop(id, p.entries[..mid]) && NoLoop(id, p.entries[mid + 1..])
  }

  /** A node on a page splits if and only if these guards hold. */
  lemma NodeSplitExact(id: PageID, p: NodePage)
    requires NodeFits(p)
    ensures NodeSplit(id, p).Ok? <==> SplitsNode(id, p)
  {
    hide BulkEntries, KeyBytes, NoLoop;
    if |p.entries| >= 2 {
      var mid := |p.entries| / 2;
      var l, m, r := p.entries[..mid], p.entries[mid..mid + 1], p.entries[mid + 1..];
      assert p.entries == l + (m + r);
      KeyBytesSplit(l, m + r);
      KeyBytesSplit(m, r);
      BulkEntriesFits(id, l);
      BulkEntriesFits(id, r);
    }
  }

  /** A page with two keys is always refused, although the guard of `Split` lets it through. */
  lemma TwoKeysRefused(id: PageID, p: NodePage)
    requires |p.entries| == 2
    ensures NodeSplit(id, p).Err?
  {
  }

  /** Such a page can be full: two keys of 1800 bytes. */
  lemma FullWithTwoKeys(id: PageID) returns (p: NodePage)
    ensures |p.entries| == 2 && NodeFits(p) && NodeIsFull(p, 0) && NodeSplit(id, p).Err?
  {
    var key: Key := seq(1800, _ => 0);
    var es := [IndexEntry(key, 1), IndexEntry(key + [0], 2)];
    p := NodePage(es, 3, 3601);
    assert es[..1][..0] == [];
    assert KeyBytes(es[..1][..0]) == 0;
    assert KeyBytes(es[..1]) == 1800;
    assert KeyBytes(es) == 3601;
    TwoKeysRefused(id, p);
  }

  /** Inserting a child keeps a node on its page. */
  lemma InsertChildFits(p: NodePage, index: nat, splitKey: Key, left: PageID, right: PageID)
    requires NodeFits(p) && index <= |p.entries| && InsertChild(p, index, splitKey, left, right).Ok?
    ensures NodeFits(InsertChild(p, index, splitKey, left, right).value)
  {
    hide KeyBytes;
    var es, e := p.entries, IndexEntry(splitKey, left);
    var fs := if index < |es| then es[index := es[index].(child := right)] else es;
    var q := InsertChild(p, index, splitKey, left, right).value;
    assert q.entries == fs[..index] + [e] + fs[index..];
    SameKeyBytes(es, fs);
    assert fs == fs[..index] + fs[index..];
    KeyBytesSplit(fs[..index], fs[index..]);
    KeyBytesSplit(fs[..index] + [e], fs[index..]);
    KeyBytesSplit(fs[..index], [e]);
    KeyBytesOne(e);
  }

  lemma {:induction false} SameKeyBytes(es: seq<IndexEntry>, fs: seq<IndexEntry>)
    requires |es| == |fs| && forall i :: 0 <= i < |es| ==> es[i].key == fs[i].key
    ensures KeyBytes(es) == KeyBytes(fs)
  {
    if es != [] {
      SameKeyBytes(es[..|es| - 1], fs[..|fs| - 1]);
    }
  }

  lemma KeyBytesOne(e: IndexEntry)
    ensures KeyBytes([e]) == |e.key|
  {
    var es := [e];
    assert es[..0] == [];
    assert KeyBytes(es[..0]) == 0;
  }

  /** Both halves of a node split are on their pages. */
  lemma NodeSplitFits(id: PageID, p: NodePage)
    requires NodeSplit(id, p).Ok?
    ensures NodeFits(NodeSplit(id, p).value.left) && NodeFits(NodeSplit(id, p).value.right)
  {
    hide BulkEntries, KeyBytes;
    var mid := |p.entries| / 2;
    BulkEntriesFits(id, p.entries[..mid]);
    BulkEntriesFits(id, p.entries[mid + 1..]);
  }
}
