/** A leaf page updated in place (page_layout.go), proved against the page values of the tree. */
module SlottedPage {
  import opened Bytes
  import opened BigEndian
  import opened Pages
  import opened PageBytes

  class SlottedPage {
    const data: array<byte>
    var count: nat

    ghost predicate Valid()
      reads this, data
    {
      data.Length == PAGE_SIZE && PageOK(data[..], count)
    }

    /** The leaf page these bytes stand for. */
    ghost function Value(): LeafPage
      requires Valid()
      reads this, data
    {
      Abstract(data[..], count)
    }

    constructor InitLeafPage()
      ensures Valid() && Value() == EMPTY_LEAF && fresh(data)
    {
      data := new byte[PAGE_SIZE](_ => 0);
      count := 0;
      new;
      assert MinKeyOff(data[..], 0) == PAGE_SIZE;
    }

    method Overwriting(off: nat, src: seq<byte>)
      requires data.Length == PAGE_SIZE && off + |src| <= PAGE_SIZE
      modifies data
      ensures data[..] == Patch(old(data[..]), off, src)
    {
      WriteAt(data, off, src);
      assert data[..] == data[..off + |src|] + data[off + |src|..];
      assert old(data[..])[..off] == old(data[..off]) && old(data[..])[off + |src|..] == old(data[off + |src|..]);
    }

    method ReadSlot(i: nat) returns (slot: Slot)
      requires data.Length == PAGE_SIZE && TableAt(i + 1) <= PAGE_SIZE
      ensures slot == SlotAt(data[..], i)
    {
      hide SlotOf;
      assert data[TableAt(i)..TableAt(i + 1)] == data[..][TableAt(i)..TableAt(i + 1)];
      return SlotOf(data[TableAt(i)..TableAt(i + 1)]);
    }

    /**
     `InsertLeafEntry`: fails exactly when the entry does not fit. Otherwise the page decodes to the
     old entries with the new one at its index, and the returned data end is the one `GetDataEnd`
     would compute from the table.
     */
    method InsertLeafEntry(index: nat, key: Key, value: Bytes.Value, dataEnd: nat) returns (ok: bool, dataEnd': nat)
      requires Valid() && index <= count && dataEnd == Value().dataEnd
      modifies this, data
      ensures Valid() && dataEnd' == Value().dataEnd
      ensures ok == LeafInsertEntry(old(Value()), index, Entry(key, value)).Ok?
      ensures if ok then Ok(Value()) == LeafInsertEntry(old(Value()), index, Entry(key, value))
              else Value() == old(Value()) && data[..] == old(data[..])
    {
      hide Insert, Abstract, PageOK, DataEnd, MinKeyOff;
      PageLimits(data[..], count);
      var requiredSpace := ENTRY_SIZE + |key| + |value|;
      var usedSpace := HEADER_SIZE + count * ENTRY_SIZE + dataEnd;
      if usedSpace + requiredSpace > PAGE_SIZE {
        return false, dataEnd;
      }
      InsertRefines(data[..], count, index, key, value);
      WriteEntry(index, key, value, dataEnd);
      count := count + 1;
      return true, dataEnd + |value| + |key|;
    }

    method WriteEntry(index: nat, key: Key, value: Bytes.Value, dataEnd: nat)
      requires data.Length == PAGE_SIZE && index <= count
               && TableAt(count) + dataEnd + ENTRY_SIZE + |key| + |value| <= PAGE_SIZE
      modifies data
      ensures data[..] == Insert(old(data[..]), count, dataEnd, index, key, value)
    {
      hide Patch, SlotBytes;
      ghost var was := data[..];
      if index < count {
        Overwriting(TableAt(index + 1), data[TableAt(index)..TableAt(count)]);
      } else {
        PatchNothing(was, TableAt(index + 1));
      }
      var valOff := PAGE_SIZE - dataEnd - |value|;
      Overwriting(valOff, value);
      var keyOff := valOff - |key|;
      Overwriting(keyOff, key);
      Overwriting(TableAt(index), SlotBytes(Slot(keyOff, |key|, valOff, |value|)));
    }

    /** `OverwriteLeafValue`: succeeds exactly for a value no longer than the old one, and changes nothing else. */
    method OverwriteLeafValue(idx: int, value: Bytes.Value) returns (ok: bool)
      requires Valid()
      modifies data
      ensures Valid() && count == old(count)
      ensures ok <==> 0 <= idx < count && |value| <= |old(Value()).entries[idx].value|
      ensures if ok then Ok(Value()) == LeafUpdate(old(Value()), idx, value) else data[..] == old(data[..])
    {
      hide Patch, PageOK, SlotBytes, LeafUpdate, SlotAt, Abstract, MinKeyOff;
      if idx < 0 || idx >= count {
        return false;
      }
      PageLimits(data[..], count);
      ghost var was := data[..];
      var slot := ReadSlot(idx);
      SlotIn(was, count, idx);
      ValueLength(was, count, idx);
      if |value| > slot.valLen {
        return false;
      }
      Overwriting(slot.valOff, value);
      Overwriting(TableAt(idx), SlotBytes(slot.(valLen := |value|)));
      OverwriteRefines(was, count, idx, value);
      return true;
    }

    /** `GetDataEnd` recomputes the extent of the data area from the table. */
    method GetDataEnd() returns (d: nat)
      requires Valid()
      ensures d == Value().dataEnd
    {
      hide PageOK, SlotAt, Abstract;
      PageLimits(data[..], count);
      ghost var p := data[..];
      if count == 0 {
        return 0;
      }
      var minKeyOff := PAGE_SIZE;
      for i := 0 to count
        invariant minKeyOff == MinKeyOff(p, i)
      {
        var slot := ReadSlot(i);
        if slot.keyOff < minKeyOff {
          minKeyOff := slot.keyOff;
        }
      }
      return PAGE_SIZE - minKeyOff;
    }
  }

  lemma PageLimits(p: PageData, count: nat)
    requires PageOK(p, count)
    ensures TableAt(count) + DataEnd(p, count) <= PAGE_SIZE && Abstract(p, count).dataEnd == DataEnd(p, count)
            && |Abstract(p, count).entries| == count
    ensures count == 0 ==> DataEnd(p, count) == 0
  {
  }

  lemma ValueLength(p: PageData, count: nat, i: nat)
    requires PageOK(p, count) && i < count
    ensures |Abstract(p, count).entries[i].value| == SlotAt(p, i).valLen
  {
  }

  lemma PatchNothing(p: PageData, off: nat)
    requires off <= PAGE_SIZE
    ensures Patch(p, off, []) == p
  {
    assert p[..off] + [] + p[off..] == p;
  }
}
