/** Merging and borrowing between siblings (merge.go), against the splits they undo. */
module Merge {
  import opened Bytes
  import opened Pages

  // ---------------------------------------------------------------- leaves

  /** One of the insert loops of `MergeLeaves`: `more` goes behind the entries in `before` the page was built from. */
  method AppendEntries(page: LeafPage, ghost before: seq<Entry>, more: seq<Entry>) returns (r: Result<LeafPage>)
    requires LeafBuild(before) == Ok(page) && |page.entries| == |before|
    ensures r == LeafBuild(before + more)
    ensures r.Ok? ==> |r.value.entries| == |before + more|
  {
    hide LeafInsertEntry, LeafBuild;
    var q := page;
    ghost var es := before + more;
    var n := |page.entries|;
    assert es[..n] == before;
    for i := 0 to |more|
      invariant LeafBuild(es[..n + i]) == Ok(q) && |q.entries| == n + i
    {
      BuildNext(es, n + i);
      var next := LeafInsertEntry(q, n + i, more[i]);
      if next.Err? {
        BuildStops(es, n + i + 1);
        return next;
      }
      q := next.value;
    }
    assert es[..|es|] == es;
    return Ok(q);
  }

  /** `MergeLeaves` on a fresh page: all entries of the left page, then all of the right one. */
  method MergeLeaves(left: LeafPage, right: LeafPage) returns (r: Result<LeafPage>)
    ensures r == LeafBuild(left.entries + right.entries)
  {
    r := AppendEntries(EMPTY_LEAF, [], left.entries);
    assert [] + left.entries == left.entries;
    if r.Err? {
      ghost var es := left.entries + right.entries;
      assert es[..|left.entries|] == left.entries;
      BuildStops(es, |left.entries|);
      return;
    }
    r := AppendEntries(r.value, left.entries, right.entries);
  }

  lemma BuildNext(es: seq<Entry>, i: nat)
    requires i < |es| && LeafBuild(es[..i]).Ok?
    ensures LeafBuild(es[..i + 1])
            == LeafInsertEntry(LeafBuild(es[..i]).value, |LeafBuild(es[..i]).value.entries|, es[i])
    ensures LeafBuild(es[..i + 1]).Ok? ==>
            |LeafBuild(es[..i + 1]).value.entries| == |LeafBuild(es[..i]).value.entries| + 1
  {
    assert es[..i + 1][..i] == es[..i];
  }

  /** A page that does not fit does not fit with more entries either. */
  lemma {:induction false} BuildStops(es: seq<Entry>, i: nat)
    requires i <= |es| && LeafBuild(es[..i]).Err?
    ensures LeafBuild(es) == LeafBuild(es[..i])
    decreases |es| - i
  {
    hide LeafInsertEntry;
    if i == |es| {
      assert es[..i] == es;
    } else {
      assert es[..i + 1][..i] == es[..i];
      BuildStops(es, i + 1);
    }
  }

  /** Splitting a leaf and merging the halves gives back its entries. */
  lemma SplitMergeLeaf(p: LeafPage)
    requires LeafFits(p) && LeafSplit(p).Ok?
    ensures var h := LeafSplit(p).value;
            LeafBuild(h.left.entries + h.right.entries) == Ok(LeafPage(p.entries, EntryBytes(p.entries)))
  {
    hide LeafBuild, EntryBytes;
    var es, mid := p.entries, |p.entries| / 2;
    LeafBuildFits(es[..mid]);
    LeafBuildFits(es[mid..]);
    assert es == es[..mid] + es[mid..];
    LeafBuildFits(es);
  }

  /** Two leaves that use at most half of a page each always merge, and the merged page maps as both did. */
  lemma HalfFullMerges(left: LeafPage, right: LeafPage)
    requires LeafFits(left) && LeafFits(right) && 2 * LeafUsed(left) <= PAGE_SIZE && 2 * LeafUsed(right) <= PAGE_SIZE
    ensures LeafBuild(left.entries + right.entries).Ok?
    ensures LeafBuild(left.entries + right.entries).value.entries == left.entries + right.entries
  {
    EntryBytesSplit(left.entries, right.entries);
    LeafBuildFits(left.entries + right.entries);
  }

  datatype Borrowed = Borrowed(self: LeafPage, sibling: LeafPage)

  /** `BorrowFromLeftLeaf`: the last entry of the sibling becomes the first of the page. */
  function BorrowFromLeft(self: LeafPage, sibling: LeafPage): Result<Borrowed> {
    var n := |sibling.entries|;
    if n == 0 then Err(InvalidRange)
    else
      var a := LeafInsertEntry(self, 0, sibling.entries[n - 1]);
      if a.Err? then Err(a.error)
      else
        var b := LeafBuild(sibling.entries[..n - 1]);
        if b.Err? then Err(b.error) else Ok(Borrowed(a.value, b.value))
  }

  /** `BorrowFromRightLeaf`: the first entry of the sibling becomes the last of the page. */
  function BorrowFromRight(self: LeafPage, sibling: LeafPage): Result<Borrowed> {
    if sibling.entries == [] then Err(InvalidRange)
    else
      var a := LeafInsertEntry(self, |self.entries|, sibling.entries[0]);
      if a.Err? then Err(a.error)
      else
        var b := LeafBuild(sibling.entries[1..]);
        if b.Err? then Err(b.error) else Ok(Borrowed(a.value, b.value))
  }

  predicate HasRoom(p: LeafPage, e: Entry) {
    LeafUsed(p) + ENTRY_SIZE + |e.key| + |e.value| <= PAGE_SIZE
  }

  /**
   Borrowing moves one entry and keeps the entries of both pages, in order; it fails only when the
   page has no room.
   */
  lemma BorrowLeftKeeps(self: LeafPage, sibling: LeafPage)
    requires LeafFits(self) && LeafFits(sibling)
    ensures var r := BorrowFromLeft(self, sibling);
            && (r.Ok? <==> sibling.entries != [] && HasRoom(self, sibling.entries[|sibling.entries| - 1]))
            && (r.Ok? ==> r.value.sibling.entries + r.value.self.entries == sibling.entries + self.entries
                          && |r.value.self.entries| == |self.entries| + 1
                          && LeafFits(r.value.self) && LeafFits(r.value.sibling))
  {
    hide LeafBuild, EntryBytes;
    var n := |sibling.entries|;
    if n > 0 {
      var e := sibling.entries[n - 1];
      assert sibling.entries == sibling.entries[..n - 1] + [e];
      EntryBytesSplit(sibling.entries[..n - 1], [e]);
      EntryBytesOne(e);
      LeafBuildFits(sibling.entries[..n - 1]);
      EntryBytesNone(sibling.entries[..n - 1]);
      SpliceBytes(self.entries, 0, e);
    }
  }

  lemma BorrowRightKeeps(self: LeafPage, sibling: LeafPage)
    requires LeafFits(self) && LeafFits(sibling)
    ensures var r := BorrowFromRight(self, sibling);
            && (r.Ok? <==> sibling.entries != [] && HasRoom(self, sibling.entries[0]))
            && (r.Ok? ==> r.value.self.entries + r.value.sibling.entries == self.entries + sibling.entries
                          && |r.value.self.entries| == |self.entries| + 1
                          && LeafFits(r.value.self) && LeafFits(r.value.sibling))
  {
    hide LeafBuild, EntryBytes;
    if sibling.entries != [] {
      var e := sibling.entries[0];
      assert sibling.entries == [e] + sibling.entries[1..];
      EntryBytesSplit([e], sibling.entries[1..]);
      EntryBytesOne(e);
      LeafBuildFits(sibling.entries[1..]);
      EntryBytesNone(sibling.entries[1..]);
      SpliceBytes(self.entries, |self.entries|, e);
    }
  }

  lemma EntryBytesNone(es: seq<Entry>)
    ensures es == [] ==> EntryBytes(es) == 0
  {
  }

  // ---------------------------------------------------------------- index pages

  /** Append index entries to a fresh page; a zero child is refused. */
  function NodeBuild(es: seq<IndexEntry>): Result<NodePage> {
    if es == [] then Ok(EMPTY_NODE)
    else
      var front := NodeBuild(es[..|es| - 1]);
      if front.Err? then front
      else InsertIndexEntry(front.value, |front.value.entries|, es[|es| - 1].key, es[|es| - 1].child)
  }

  /** The entries of a merged node: the separator comes between the pages with the last child of the left one. */
  function MergedEntries(left: NodePage, right: NodePage, separator: Key): seq<IndexEntry> {
    left.entries + [IndexEntry(separator, left.extraChild)] + right.entries
  }

  function MergeNodes(left: NodePage, right: NodePage, separator: Key): Result<NodePage> {
    var r := NodeBuild(MergedEntries(left, right, separator));
    if r.Err? then r else Ok(SetChild(r.value, |r.value.entries|, right.extraChild))
  }

  /** The loops of `MergeNodes`: left entries, the separator with the last left child, right entries. */
  method MergeNodePages(left: NodePage, right: NodePage, separator: Key) returns (r: Result<NodePage>)
    ensures r == MergeNodes(left, right, separator)
  {
    hide InsertIndexEntry;
    var page := EMPTY_NODE;
    ghost var es := MergedEntries(left, right, separator);
    var n := |left.entries|;
    for i := 0 to n
      invariant NodeBuild(es[..i]) == Ok(page) && |page.entries| == i
    {
      NodeBuildNext(es, i);
      var q := InsertIndexEntry(page, i, left.entries[i].key, left.entries[i].child);
      if q.Err? {
        NodeBuildStops(es, i + 1);
        return q;
      }
      page := q.value;
    }
    NodeBuildNext(es, n);
    var q := InsertIndexEntry(page, n, separator, left.extraChild);
    if q.Err? {
      NodeBuildStops(es, n + 1);
      return q;
    }
    page := q.value;
    for i := 0 to |right.entries|
      invariant NodeBuild(es[..n + 1 + i]) == Ok(page) && |page.entries| == n + 1 + i
    {
      NodeBuildNext(es, n + 1 + i);
      var q := InsertIndexEntry(page, n + 1 + i, right.entries[i].key, right.entries[i].child);
      if q.Err? {
        NodeBuildStops(es, n + 1 + i + 1);
        return q;
      }
      page := q.value;
    }
    assert es[..|es|] == es;
    return Ok(SetChild(page, n + 1 + |right.entries|, right.extraChild));
  }

  lemma NodeBuildNext(es: seq<IndexEntry>, i: nat)
    requires i < |es| && NodeBuild(es[..i]).Ok?
    ensures NodeBuild(es[..i + 1])
            == InsertIndexEntry(NodeBuild(es[..i]).value, |NodeBuild(es[..i]).value.entries|, es[i].key, es[i].child)
    ensures NodeBuild(es[..i + 1]).Ok? ==>
            |NodeBuild(es[..i + 1]).value.entries| == |NodeBuild(es[..i]).value.entries| + 1
  {
    assert es[..i + 1][..i] == es[..i];
  }

  lemma {:induction false} NodeBuildStops(es: seq<IndexEntry>, i: nat)
    requires i <= |es| && NodeBuild(es[..i]).Err?
    ensures NodeBuild(es) == NodeBuild(es[..i])
    decreases |es| - i
  {
    hide InsertIndexEntry;
    if i == |es| {
      assert es[..i] == es;
    } else {
      assert es[..i + 1][..i] == es[..i];
      NodeBuildStops(es, i + 1);
    }
  }

  ghost predicate NoZeroChild(es: seq<IndexEntry>) {
    forall i :: 0 <= i < |es| ==> es[i].child != 0
  }

  /** Building an index page succeeds exactly when the entries fit and no child is zero, and keeps them. */
  lemma {:induction false} NodeBuildFits(es: seq<IndexEntry>)
    ensures NodeBuild(es).Ok? <==> NoZeroChild(es)
                                   && (es != [] ==> HEADER_SIZE + |es| * ENTRY_SIZE + KeyBytes(es) <= PAGE_SIZE)
    ensures NodeBuild(es).Ok? ==> NodeBuild(es).value == NodePage(es, 0, KeyBytes(es))
  {
    if es != [] {
      var front, e := es[..|es| - 1], es[|es| - 1];
      NodeBuildFits(front);
      assert es == front + [e];
      assert NoZeroChild(es) <==> NoZeroChild(front) && e.child != 0 by {
        assert forall i :: 0 <= i < |front| ==> front[i] == es[i];
        assert es[|front|] == e;
      }
    }
  }

  /**
   Splitting a node and merging the halves with the split key gives back its keys and children,
   exactly when the child that moved into the left header is not zero.
   */
  lemma SplitMergeNode(id: PageID, p: NodePage)
    requires NodeFits(p) && NodeSplit(id, p).Ok?
    ensures var h := NodeSplit(id, p).value;
            var r := MergeNodes(h.left, h.right, h.splitKey);
            && (r.Ok? <==> p.entries[|p.entries| / 2].child != 0)
            && (r.Ok? ==> r.value.entries == p.entries && r.value.extraChild == p.extraChild
                          && NodeKeys(r.value) == NodeKeys(p) && NodeChildren(r.value) == NodeChildren(p))
  {
    hide BulkEntries, NodeBuild, KeyBytes;
    var mid := |p.entries| / 2;
    var h := NodeSplit(id, p).value;
    BulkEntriesKeeps(id, p.entries[..mid]);
    BulkEntriesKeeps(id, p.entries[mid + 1..]);
    BulkEntriesFits(id, p.entries[..mid]);
    BulkEntriesFits(id, p.entries[mid + 1..]);
    assert MergedEntries(h.left, h.right, h.splitKey) == p.entries;
    NodeBuildFits(p.entries);
    forall i | 0 <= i < |p.entries| && i != mid ensures p.entries[i].child != 0 {
      assert i < mid ==> p.entries[..mid][i] == p.entries[i];
      assert i > mid ==> p.entries[mid + 1..][i - mid - 1] == p.entries[i];
    }
    var r := MergeNodes(h.left, h.right, h.splitKey);
    if r.Ok? {
      assert r.value.entries == p.entries && r.value.extraChild == p.extraChild;
    }
  }
}
