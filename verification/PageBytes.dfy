/**
 The bytes of a slotted leaf page (page_layout.go): a table of 16-byte entries growing up behind the
 header, and key/value bytes growing down from the end of the page.
 */
module PageBytes {
  import opened Bytes
  import opened BigEndian
  import opened Pages

  type PageData = p: seq<byte> | |p| == PAGE_SIZE witness seq(PAGE_SIZE, _ => 0)

  /** A table entry: where key and value lie. */
  datatype Slot = Slot(keyOff: nat, keyLen: nat, valOff: nat, valLen: nat)

  function SlotBytes(s: Slot): (r: seq<byte>)
    ensures |r| == ENTRY_SIZE
  {
    Put(s.keyOff, 4) + Put(s.keyLen, 4) + Put(s.valOff, 4) + Put(s.valLen, 4)
  }

  function TableAt(i: nat): nat {
    HEADER_SIZE + i * ENTRY_SIZE
  }

  function SlotOf(r: seq<byte>): Slot
    requires |r| == ENTRY_SIZE
  {
    Slot(Get(r[0..4]), Get(r[4..8]), Get(r[8..12]), Get(r[12..16]))
  }

  function SlotAt(p: PageData, i: nat): Slot
    requires TableAt(i + 1) <= PAGE_SIZE
  {
    SlotOf(p[TableAt(i)..TableAt(i + 1)])
  }

  lemma SlotRoundTrip(s: Slot)
    requires s.keyOff <= PAGE_SIZE && s.keyLen <= PAGE_SIZE && s.valOff <= PAGE_SIZE && s.valLen <= PAGE_SIZE
    ensures SlotOf(SlotBytes(s)) == s
  {
    hide Put, Get;
    Widths();
    PutGet(s.keyOff, 4);
    PutGet(s.keyLen, 4);
    PutGet(s.valOff, 4);
    PutGet(s.valLen, 4);
    var r := SlotBytes(s);
    assert r[0..4] == Put(s.keyOff, 4) && r[4..8] == Put(s.keyLen, 4) && r[8..12] == Put(s.valOff, 4)
           && r[12..16] == Put(s.valLen, 4);
  }

  // ---------------------------------------------------------------- overwriting bytes

  function Patch(p: PageData, off: nat, src: seq<byte>): (r: PageData)
    requires off + |src| <= PAGE_SIZE
  {
    p[..off] + src + p[off + |src|..]
  }

  /** Bytes outside the patch stay, bytes inside are the source. */
  lemma PatchSlice(p: PageData, off: nat, src: seq<byte>, a: nat, b: nat)
    requires off + |src| <= PAGE_SIZE && a <= b <= PAGE_SIZE
    ensures (b <= off || off + |src| <= a) ==> Patch(p, off, src)[a..b] == p[a..b]
    ensures off <= a && b <= off + |src| ==> Patch(p, off, src)[a..b] == src[a - off..b - off]
  {
    var r := Patch(p, off, src);
    if b <= off {
      assert forall i :: a <= i < b ==> r[i] == p[i];
    } else if off + |src| <= a {
      assert forall i :: a <= i < b ==> r[i] == p[i];
    }
    if off <= a && b <= off + |src| {
      forall i | 0 <= i < b - a ensures r[a..b][i] == src[a - off..b - off][i] {
        assert r[a + i] == src[a + i - off];
      }
    }
  }

  // ---------------------------------------------------------------- entries

  /** A slot keeps its key and value inside the data area that starts at `low`. */
  ghost predicate SlotOK(s: Slot, low: nat) {
    low <= s.keyOff && s.keyOff + s.keyLen == s.valOff && s.valOff + s.valLen <= PAGE_SIZE
  }

  /** Two slots whose extents do not overlap. */
  ghost predicate Disjoint(s: Slot, t: Slot) {
    s.valOff + s.valLen <= t.keyOff || t.valOff + t.valLen <= s.keyOff
  }

  ghost predicate SlotsOK(p: PageData, count: nat, low: nat) {
    && TableAt(count) <= low <= PAGE_SIZE
    && (forall i :: 0 <= i < count ==> SlotOK(SlotAt(p, i), low))
    && (forall i, j :: 0 <= i < j < count ==> Disjoint(SlotAt(p, i), SlotAt(p, j)))
  }

  ghost function Extent(p: PageData, s: Slot): Entry
    requires s.keyOff + s.keyLen == s.valOff && s.valOff + s.valLen <= PAGE_SIZE
  {
    Entry(p[s.keyOff..s.valOff], p[s.valOff..s.valOff + s.valLen])
  }

  /** What a page decodes to. */
  ghost function Decode(p: PageData, count: nat, low: nat): (es: seq<Entry>)
    requires SlotsOK(p, count, low)
    ensures |es| == count && forall i :: 0 <= i < count ==> es[i] == Extent(p, SlotAt(p, i))
  {
    seq(count, i requires 0 <= i < count => Extent(p, SlotAt(p, i)))
  }

  /** The lowest key offset, `PAGE_SIZE` when there is no entry. */
  ghost function MinKeyOff(p: PageData, count: nat): (m: nat)
    requires TableAt(count) <= PAGE_SIZE
    ensures m <= PAGE_SIZE
    ensures forall i :: 0 <= i < count ==> m <= SlotAt(p, i).keyOff
    ensures m == PAGE_SIZE || exists i :: 0 <= i < count && SlotAt(p, i).keyOff == m
  {
    if count == 0 then PAGE_SIZE
    else
      var m := MinKeyOff(p, count - 1);
      var k := SlotAt(p, count - 1).keyOff;
      if k < m then k else m
  }

  // ---------------------------------------------------------------- insert

  /** `InsertLeafEntry` after its space check: move the table, write value, key and slot. */
  function Insert(p: PageData, count: nat, dataEnd: nat, index: nat, key: Key, value: Value): (r: PageData)
    requires index <= count && TableAt(count) + dataEnd + ENTRY_SIZE + |key| + |value| <= PAGE_SIZE
  {
    var valOff := PAGE_SIZE - dataEnd - |value|;
    var keyOff := valOff - |key|;
    var p1 := Patch(p, TableAt(index + 1), p[TableAt(index)..TableAt(count)]);
    var p2 := Patch(p1, valOff, value);
    var p3 := Patch(p2, keyOff, key);
    Patch(p3, TableAt(index), SlotBytes(Slot(keyOff, |key|, valOff, |value|)))
  }

  function NewSlot(dataEnd: nat, key: Key, value: Value): Slot
    requires dataEnd + |key| + |value| <= PAGE_SIZE
  {
    Slot(PAGE_SIZE - dataEnd - |value| - |key|, |key|, PAGE_SIZE - dataEnd - |value|, |value|)
  }

  /** The table after an insert: the slots from `index` on have moved up by one. */
  lemma InsertSlot(p: PageData, count: nat, dataEnd: nat, index: nat, key: Key, value: Value, j: nat)
    requires index <= count && TableAt(count) + dataEnd + ENTRY_SIZE + |key| + |value| <= PAGE_SIZE && j <= count
    ensures SlotAt(Insert(p, count, dataEnd, index, key, value), j)
            == if j < index then SlotAt(p, j) else if j == index then NewSlot(dataEnd, key, value) else SlotAt(p, j - 1)
  {
    hide SlotOf, SlotBytes, Patch;
    var valOff := PAGE_SIZE - dataEnd - |value|;
    var keyOff := valOff - |key|;
    var moved := p[TableAt(index)..TableAt(count)];
    var p1 := Patch(p, TableAt(index + 1), moved);
    var p2 := Patch(p1, valOff, value);
    var p3 := Patch(p2, keyOff, key);
    var slot := SlotBytes(Slot(keyOff, |key|, valOff, |value|));
    var a, b := TableAt(j), TableAt(j + 1);
    PatchSlice(p3, TableAt(index), slot, a, b);
    PatchSlice(p2, keyOff, key, a, b);
    PatchSlice(p1, valOff, value, a, b);
    PatchSlice(p, TableAt(index + 1), moved, a, b);
    if j == index {
      assert slot[0..16] == slot;
      SlotRoundTrip(Slot(keyOff, |key|, valOff, |value|));
    } else if j > index {
      assert moved[a - TableAt(index + 1)..b - TableAt(index + 1)] == p[TableAt(j - 1)..TableAt(j)];
    }
  }

  /** The data area after an insert: old bytes are where they were, key and value in front of them. */
  lemma InsertData(p: PageData, count: nat, dataEnd: nat, index: nat, key: Key, value: Value, a: nat, b: nat)
    requires index <= count && TableAt(count) + dataEnd + ENTRY_SIZE + |key| + |value| <= PAGE_SIZE
    ensures PAGE_SIZE - dataEnd <= a <= b <= PAGE_SIZE ==> Insert(p, count, dataEnd, index, key, value)[a..b] == p[a..b]
    ensures Extent(Insert(p, count, dataEnd, index, key, value), NewSlot(dataEnd, key, value)) == Entry(key, value)
  {
    hide SlotBytes, Patch;
    var valOff := PAGE_SIZE - dataEnd - |value|;
    var keyOff := valOff - |key|;
    var moved := p[TableAt(index)..TableAt(count)];
    var p1 := Patch(p, TableAt(index + 1), moved);
    var slot := SlotBytes(Slot(keyOff, |key|, valOff, |value|));
    if PAGE_SIZE - dataEnd <= a <= b <= PAGE_SIZE {
      DataPatched(p1, valOff, value, keyOff, key, TableAt(index), slot, a, b);
      PatchSlice(p, TableAt(index + 1), moved, a, b);
    }
    DataPatched(p1, valOff, value, keyOff, key, TableAt(index), slot, valOff + |value|, valOff + |value|);
  }

  /** Writing value, key and slot, each below the one before. */
  lemma DataPatched(p1: PageData, valOff: nat, value: Value, keyOff: nat, key: Key, table: nat, slot: seq<byte>, a: nat,
                    b: nat)
    requires table + |slot| <= keyOff && keyOff + |key| == valOff && valOff + |value| <= a <= b <= PAGE_SIZE
    ensures var r := Patch(Patch(Patch(p1, valOff, value), keyOff, key), table, slot);
            r[a..b] == p1[a..b] && r[keyOff..valOff] == key && r[valOff..valOff + |value|] == value
  {
    hide Patch;
    var p2 := Patch(p1, valOff, value);
    var p3 := Patch(p2, keyOff, key);
    PatchSlice(p3, table, slot, a, b);
    PatchSlice(p2, keyOff, key, a, b);
    PatchSlice(p1, valOff, value, a, b);
    PatchSlice(p3, table, slot, keyOff, valOff);
    PatchSlice(p2, keyOff, key, keyOff, valOff);
    PatchSlice(p3, table, slot, valOff, valOff + |value|);
    PatchSlice(p2, keyOff, key, valOff, valOff + |value|);
    PatchSlice(p1, valOff, value, valOff, valOff + |value|);
    assert key[0..|key|] == key && value[0..|value|] == value;
  }

  /** The area of the page that holds key and value bytes. */
  ghost function DataEnd(p: PageData, count: nat): nat
    requires TableAt(count) <= PAGE_SIZE
  {
    PAGE_SIZE - MinKeyOff(p, count)
  }

  /** A page whose slots lie in the data area, which starts at the lowest key. */
  ghost predicate PageOK(p: PageData, count: nat) {
    TableAt(count) <= PAGE_SIZE && SlotsOK(p, count, MinKeyOff(p, count))
  }

  /** The value the page stands for. */
  ghost function Abstract(p: PageData, count: nat): (r: LeafPage)
    requires PageOK(p, count)
    ensures |r.entries| == count && r.dataEnd == DataEnd(p, count)
  {
    LeafPage(Decode(p, count, MinKeyOff(p, count)), DataEnd(p, count))
  }

  /** An inserted slot lies below all others and does not overlap them. */
  lemma InsertSlotsOK(p: PageData, count: nat, index: nat, key: Key, value: Value)
    requires PageOK(p, count) && index <= count
    requires TableAt(count) + DataEnd(p, count) + ENTRY_SIZE + |key| + |value| <= PAGE_SIZE
    ensures var d := DataEnd(p, count);
            var p', low := Insert(p, count, d, index, key, value), PAGE_SIZE - d - |key| - |value|;
            SlotsOK(p', count + 1, low) && MinKeyOff(p', count + 1) == low
  {
    hide Insert, SlotAt, MinKeyOff;
    var d := DataEnd(p, count);
    var p', low, s := Insert(p, count, d, index, key, value), PAGE_SIZE - d - |key| - |value|, NewSlot(d, key, value);
    forall j {:trigger SlotAt(p', j)} | 0 <= j <= count
      ensures SlotAt(p', j) == if j < index then SlotAt(p, j) else if j == index then s else SlotAt(p, j - 1)
    {
      InsertSlot(p, count, d, index, key, value, j);
    }
    assert SlotAt(p', index) == s;
    assert s.keyOff == low;
    forall i, j | 0 <= i < j < count + 1 ensures Disjoint(SlotAt(p', i), SlotAt(p', j)) {
      var a, b := if i < index then i else i - 1, if j < index then j else j - 1;
      assert i != index && j != index ==> Disjoint(SlotAt(p, a), SlotAt(p, b));
      assert i == index ==> SlotOK(SlotAt(p, b), PAGE_SIZE - d);
      assert j == index ==> SlotOK(SlotAt(p, a), PAGE_SIZE - d);
    }
    assert SlotAt(p', index).keyOff == low;
  }

  /** The value of a page, if its bytes are well-formed. */
  ghost function View(p: PageData, count: nat): Option<LeafPage> {
    if PageOK(p, count) then Some(Abstract(p, count)) else None
  }

  /** `p'` decodes to `p` with one more entry. */
  ghost predicate Inserted(p: PageData, p': PageData, count: nat, index: nat, e: Entry) {
    var was, now := View(p, count), View(p', count + 1);
    was.Some? && now.Some? && index <= |was.value.entries| && Ok(now.value) == LeafInsertEntry(was.value, index, e)
  }

  /**
   Inserting into the bytes is inserting into the page value: the decoded entries are the old ones
   with the new one at its index, and the data area has grown by exactly key and value.
   */
  lemma InsertRefines(p: PageData, count: nat, index: nat, key: Key, value: Value)
    requires PageOK(p, count) && index <= count
    requires TableAt(count) + DataEnd(p, count) + ENTRY_SIZE + |key| + |value| <= PAGE_SIZE
    ensures Inserted(p, Insert(p, count, DataEnd(p, count), index, key, value), count, index, Entry(key, value))
  {
    hide Insert, SlotAt, MinKeyOff, SlotsOK;
    var d := DataEnd(p, count);
    var p' := Insert(p, count, d, index, key, value);
    InsertSlotsOK(p, count, index, key, value);
    var es, es' := Abstract(p, count).entries, Abstract(p', count + 1).entries;
    var fs := es[..index] + [Entry(key, value)] + es[index..];
    forall j | 0 <= j < count + 1 ensures es'[j] == fs[j] {
      InsertEntry(p, p', count, index, key, value, j);
    }
    assert es' == fs;
  }

  lemma InsertEntry(p: PageData, p': PageData, count: nat, index: nat, key: Key, value: Value, j: nat)
    requires PageOK(p, count) && index <= count && j <= count
    requires TableAt(count) + DataEnd(p, count) + ENTRY_SIZE + |key| + |value| <= PAGE_SIZE
    requires p' == Insert(p, count, DataEnd(p, count), index, key, value) && PageOK(p', count + 1)
    ensures SlotOK(SlotAt(p', j), 0)
    ensures Extent(p', SlotAt(p', j)) == if j == index then Entry(key, value)
                                         else Abstract(p, count).entries[if j < index then j else j - 1]
  {
    hide Insert, SlotAt, MinKeyOff;
    var d := DataEnd(p, count);
    InsertSlot(p, count, d, index, key, value, j);
    if j == index {
      InsertData(p, count, d, index, key, value, PAGE_SIZE, PAGE_SIZE);
    } else {
      var i := if j < index then j else j - 1;
      var s := SlotAt(p, i);
      SlotIn(p, count, i);
      InsertData(p, count, d, index, key, value, s.keyOff, s.valOff);
      InsertData(p, count, d, index, key, value, s.valOff, s.valOff + s.valLen);
    }
  }

  lemma SlotIn(p: PageData, count: nat, i: nat)
    requires PageOK(p, count) && i < count
    ensures SlotOK(SlotAt(p, i), PAGE_SIZE - DataEnd(p, count))
  {
  }

  // ---------------------------------------------------------------- overwrite

  /** `OverwriteLeafValue`: the value bytes and the length in the slot. */
  function Overwrite(p: PageData, count: nat, index: nat, value: Value): (r: PageData)
    requires index < count && TableAt(count) <= PAGE_SIZE
    requires SlotAt(p, index).valOff + |value| <= PAGE_SIZE
  {
    Patch(Patch(p, SlotAt(p, index).valOff, value), TableAt(index), SlotBytes(SlotAt(p, index).(valLen := |value|)))
  }

  lemma OverwriteSlot(p: PageData, count: nat, index: nat, value: Value, j: nat)
    requires PageOK(p, count) && index < count && j < count && |value| <= SlotAt(p, index).valLen
    requires SlotAt(p, index).valOff + |value| <= PAGE_SIZE
    ensures SlotAt(Overwrite(p, count, index, value), j)
            == if j == index then SlotAt(p, index).(valLen := |value|) else SlotAt(p, j)
  {
    hide SlotOf, SlotBytes, Patch, MinKeyOff;
    var s := SlotAt(p, index);
    SlotIn(p, count, index);
    var p1, slot := Patch(p, s.valOff, value), SlotBytes(s.(valLen := |value|));
    PatchSlice(p1, TableAt(index), slot, TableAt(j), TableAt(j + 1));
    PatchSlice(p, s.valOff, value, TableAt(j), TableAt(j + 1));
    if j == index {
      assert slot[0..16] == slot;
      SlotRoundTrip(s.(valLen := |value|));
    }
  }

  lemma OverwriteData(p: PageData, count: nat, index: nat, value: Value, a: nat, b: nat)
    requires PageOK(p, count) && index < count && |value| <= SlotAt(p, index).valLen
    requires SlotAt(p, index).valOff + |value| <= PAGE_SIZE && TableAt(count) <= a <= b <= PAGE_SIZE
    ensures var s := SlotAt(p, index);
            && (b <= s.valOff || s.valOff + |value| <= a ==> Overwrite(p, count, index, value)[a..b] == p[a..b])
            && (a == s.valOff && b == s.valOff + |value| ==> Overwrite(p, count, index, value)[a..b] == value)
  {
    hide SlotOf, SlotBytes, Patch, MinKeyOff;
    var s := SlotAt(p, index);
    PatchSlice(Patch(p, s.valOff, value), TableAt(index), SlotBytes(s.(valLen := |value|)), a, b);
    PatchSlice(p, s.valOff, value, a, b);
    assert value[0..|value|] == value;
  }

  lemma OverwriteSlotsOK(p: PageData, count: nat, index: nat, value: Value)
    requires PageOK(p, count) && index < count && |value| <= SlotAt(p, index).valLen
    requires SlotAt(p, index).valOff + |value| <= PAGE_SIZE
    ensures var p' := Overwrite(p, count, index, value);
            PageOK(p', count) && MinKeyOff(p', count) == MinKeyOff(p, count)
  {
    hide Overwrite, SlotAt, MinKeyOff;
    var p', low := Overwrite(p, count, index, value), MinKeyOff(p, count);
    forall j {:trigger SlotAt(p', j)} | 0 <= j < count
      ensures SlotAt(p', j) == if j == index then SlotAt(p, index).(valLen := |value|) else SlotAt(p, j)
    {
      OverwriteSlot(p, count, index, value, j);
    }
    forall i, j | 0 <= i < j < count ensures Disjoint(SlotAt(p', i), SlotAt(p', j)) {
      assert Disjoint(SlotAt(p, i), SlotAt(p, j));
    }
    var m := MinKeyOff(p', count);
    if m < PAGE_SIZE {
      var i :| 0 <= i < count && SlotAt(p', i).keyOff == m;
      assert SlotAt(p, i).keyOff == m;
    }
    if low < PAGE_SIZE {
      var i :| 0 <= i < count && SlotAt(p, i).keyOff == low;
      assert SlotAt(p', i).keyOff == low;
    }
  }

  /** Overwriting in the bytes replaces one value and leaves every other entry, and the data area, alone. */
  lemma OverwriteRefines(p: PageData, count: nat, index: nat, value: Value)
    requires PageOK(p, count) && index < count && |value| <= SlotAt(p, index).valLen
    requires SlotAt(p, index).valOff + |value| <= PAGE_SIZE
    ensures var p' := Overwrite(p, count, index, value);
            PageOK(p', count) && Ok(Abstract(p', count)) == LeafUpdate(Abstract(p, count), index, value)
  {
    hide Overwrite, SlotAt, MinKeyOff, SlotsOK, LeafBuild;
    var p' := Overwrite(p, count, index, value);
    OverwriteSlotsOK(p, count, index, value);
    var es, es' := Abstract(p, count).entries, Abstract(p', count).entries;
    SlotIn(p, count, index);
    forall j | 0 <= j < count ensures es'[j] == es[index := Entry(es[index].key, value)][j] {
      OverwriteEntry(p, p', count, index, value, j);
    }
    assert es' == es[index := Entry(es[index].key, value)];
    assert |es[index].value| == SlotAt(p, index).valLen;
  }

  lemma OverwriteEntry(p: PageData, p': PageData, count: nat, index: nat, value: Value, j: nat)
    requires PageOK(p, count) && PageOK(p', count) && index < count && j < count && |value| <= SlotAt(p, index).valLen
    requires SlotAt(p, index).valOff + |value| <= PAGE_SIZE && p' == Overwrite(p, count, index, value)
    ensures SlotOK(SlotAt(p', j), 0)
    ensures Extent(p', SlotAt(p', j)) == if j == index then Entry(Extent(p, SlotAt(p, index)).key, value)
            else Extent(p, SlotAt(p, j))
  {
    hide Overwrite, SlotAt, MinKeyOff;
    OverwriteSlot(p, count, index, value, j);
    SlotIn(p, count, j);
    SlotIn(p, count, index);
    var s, t := SlotAt(p, index), SlotAt(p, j);
    assert j < index ==> Disjoint(t, s);
    assert index < j ==> Disjoint(s, t);
    OverwriteData(p, count, index, value, t.keyOff, t.valOff);
    OverwriteData(p, count, index, value, t.valOff, if j == index then t.valOff + |value| else t.valOff + t.valLen);
  }
}
