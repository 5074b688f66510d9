/** The binary searches of page_layout.go, node_page.go, leaf_page.go and children_cache.go. */
module Search {
  import opened Bytes

  /** `SearchKey`: the index of `key`, or the place where it would go. */
  method SearchKey(keys: seq<Key>, key: Key) returns (index: nat, found: bool)
    requires Sorted(keys)
    ensures found <==> key in keys
    ensures found ==> index < |keys| && keys[index] == key
    ensures index <= |keys|
    ensures forall j :: 0 <= j < index ==> Less(keys[j], key)
    ensures !found ==> forall j :: index <= j < |keys| ==> Less(key, keys[j])
  {
    var left, right := 0, |keys| - 1;
    index := 0;
    while left <= right
      invariant 0 <= left <= right + 1 <= |keys|
      invariant index == left
      invariant forall j :: 0 <= j < left ==> Less(keys[j], key)
      invariant forall j :: right < j < |keys| ==> Less(key, keys[j])
    {
      var mid := left + (right - left) / 2;
      LessTotal(key, keys[mid]);
      if key == keys[mid] {
        return mid, true;
      } else if Less(key, keys[mid]) {
        forall j | mid <= j < |keys| ensures Less(key, keys[j]) {
          if mid < j {
            LessTransitive(key, keys[mid], keys[j]);
          }
        }
        right := mid - 1;
      } else {
        forall j | 0 <= j <= mid ensures Less(keys[j], key) {
          if j < mid {
            LessTransitive(keys[j], keys[mid], key);
          }
        }
        left := mid + 1;
        index := left;
      }
    }
    found := false;
    LessIrreflexive(key);
  }

  /** `nodePageHandle.Search`: an exact match descends to the right of the separator. */
  method NodeSearch(keys: seq<Key>, key: Key) returns (index: nat, found: bool)
    requires Sorted(keys)
    ensures index == CountLeq(keys, key)
    ensures found <==> key in keys
  {
    var i;
    i, found := SearchKey(keys, key);
    forall j | 0 <= j < |keys| && Less(keys[j], key) ensures !Less(key, keys[j]) {
      LessAsymmetric(keys[j], key);
    }
    LessIrreflexive(key);
    index := if found then i + 1 else i;
    CutIsCount(keys, key, index);
  }

  /** `ChildrenCache.Search` over the separators of a cache with `childCount` children. */
  method CacheSearch(childCount: nat, separators: seq<Key>, key: Key) returns (index: nat)
    requires Sorted(separators)
    ensures childCount == |separators| + 1 ==> index == CountLeq(separators, key)
    ensures index <= |separators|
  {
    if childCount == 0 || |separators| == 0 {
      return 0;
    }
    var lo, hi := 0, |separators|;
    while lo < hi
      invariant 0 <= lo <= hi <= |separators|
      invariant forall j :: 0 <= j < lo ==> !Less(key, separators[j])
      invariant forall j :: hi <= j < |separators| ==> Less(key, separators[j])
    {
      var mid := lo + (hi - lo) / 2;
      if Less(key, separators[mid]) {
        forall j | mid <= j < |separators| ensures Less(key, separators[j]) {
          if mid < j {
            LessTransitive(key, separators[mid], separators[j]);
          }
        }
        hi := mid;
      } else {
        forall j | 0 <= j <= mid ensures !Less(key, separators[j]) {
          if Less(key, separators[j]) && j < mid {
            LessTransitive(key, separators[j], separators[mid]);
          }
        }
        lo := mid + 1;
      }
    }
    CutIsCount(separators, key, lo);
    return lo;
  }

  /** The scan for a page ID that the parent and cache updates share: the first match, if any. */
  method FindPage(ids: seq<nat>, id: nat) returns (index: Option<nat>)
    ensures index.None? <==> id !in ids
    ensures index.Some? ==> index.value < |ids| && ids[index.value] == id && id !in ids[..index.value]
  {
    for i := 0 to |ids|
      invariant id !in ids[..i]
    {
      if ids[i] == id {
        return Some(i);
      }
    }
    return None;
  }
}
