/**
 The page allocator (page_manager.go): freed pages are reused in FIFO order, and new page IDs come
 from a 32-bit counter that failed allocations advance too.
 */
module PageManager {
  import opened Bytes
  import opened Finite
  import opened PageSupply

  const MAX_UINT32 := 0xFFFF_FFFF
  type Uint32 = n: nat | n <= MAX_UINT32

  ghost function Range(lo: nat, hi: nat): (r: set<nat>)
    ensures forall i :: i in r <==> lo <= i < hi
    ensures |r| == if lo <= hi then hi - lo else 0
    decreases hi
  {
    if lo >= hi then {} else Range(lo, hi - 1) + {hi - 1}
  }

  /** A page of the range is held, free or never handed out, and exactly one of these; other IDs are none. */
  ghost predicate OnePlace(total: nat, held: set<nat>, free: seq<nat>, next: nat, p: nat) {
    if p >= total then p !in held && p !in free
    else if p in held then p !in free && p < next
    else if p in free then p < next
    else p >= next
  }

  /** Held pages, the free list and the IDs never handed out partition the page range. */
  ghost predicate Partition(total: nat, held: set<nat>, free: seq<nat>, next: nat) {
    Distinct(free) && forall p {:trigger OnePlace(total, held, free, next, p)} :: OnePlace(total, held, free, next, p)
  }

  class PageManager {
    const total: Uint32
    var used: Uint32
    var nextPageID: Uint32
    var freeList: seq<nat>
    ghost var held: set<nat>     // pages handed out and not freed

    ghost predicate Valid()
      reads this
    {
      Partition(total, held, freeList, nextPageID) && used == |held|
    }

    /** The page IDs left, as the tree sees them. */
    ghost function AsSupply(): Supply
      reads this
    {
      Supply(freeList, nextPageID, total)
    }

    constructor (pages: Uint32)
      ensures Valid() && total == pages && held == {} && nextPageID == 0
    {
      total, used, nextPageID, freeList, held := pages, 0, 0, [], {};
    }

    /**
     No page is handed to two holders. The invariant is lost exactly when the counter wraps around:
     the free list is empty, the counter is at its maximum and there are pages at all.
     */
    method Alloc() returns (r: Option<nat>)
      requires Valid()
      modifies this
      ensures r.None? <==> old(freeList) == [] && old(nextPageID) >= total
      ensures r.Some? ==> r.value < total && r.value !in old(held) && held == old(held) + {r.value}
                          && used == old(used) + 1
      ensures r.Some? && old(freeList) != [] ==>
                r.value == old(freeList)[0] && freeList == old(freeList)[1..] && nextPageID == old(nextPageID)
      ensures r.Some? && old(freeList) == [] ==>
                r.value == old(nextPageID) && freeList == [] && nextPageID == old(nextPageID) + 1
      ensures r.Some? ==> Take(old(AsSupply())) == Some(Draw(r.value, AsSupply()))
      ensures r.None? ==> Take(old(AsSupply())) == None && held == old(held) && used == old(used) && freeList == []
      ensures Valid() <==> !(old(freeList) == [] && old(nextPageID) == MAX_UINT32 && total > 0)
    {
      hide OnePlace, Partition;
      if freeList != [] {
        var pageID := freeList[0];
        TakeFirst(total, held, freeList, nextPageID);
        freeList := freeList[1..];
        held := held + {pageID};
        HeldFits(total, held, freeList, nextPageID);
        used := used + 1;
        return Some(pageID);
      }
      var newVal := (nextPageID + 1) % (MAX_UINT32 + 1);
      var pageID := (newVal + MAX_UINT32) % (MAX_UINT32 + 1);
      if pageID >= total {
        SkipNew(total, held, freeList, nextPageID, newVal);
        nextPageID := newVal;
        return None;
      }
      TakeNew(total, held, freeList, nextPageID);
      nextPageID := newVal;
      held := held + {pageID};
      HeldFits(total, held, freeList, nextPageID);
      used := used + 1;
      return Some(pageID);
    }

    /** Freeing keeps the invariant exactly when the caller holds the page. */
    method Free(pageID: Uint32) returns (ok: bool)
      requires Valid()
      modifies this
      ensures ok <==> pageID < total
      ensures nextPageID == old(nextPageID) && held == if ok then old(held) - {pageID} else old(held)
      ensures AsSupply() == if ok then Give(old(AsSupply()), pageID) else old(AsSupply())
      ensures used == if ok then (old(used) + MAX_UINT32) % (MAX_UINT32 + 1) else old(used)
      ensures Valid() <==> (ok ==> pageID in old(held))
    {
      hide OnePlace, Partition;
      if pageID >= total {
        return false;
      }
      PutBack(total, held, freeList, nextPageID, pageID);
      held := held - {pageID};
      freeList := freeList + [pageID];
      used := (used + MAX_UINT32) % (MAX_UINT32 + 1);
      return true;
    }
  }

  lemma TakeFirst(total: nat, held: set<nat>, free: seq<nat>, next: nat)
    requires Partition(total, held, free, next) && free != []
    ensures Partition(total, held + {free[0]}, free[1..], next) && free[0] !in held && free[0] < total
  {
    assert free == [free[0]] + free[1..];
    assert OnePlace(total, held, free, next, free[0]);
    forall p ensures OnePlace(total, held + {free[0]}, free[1..], next, p) {
      assert OnePlace(total, held, free, next, p);
    }
  }

  lemma TakeNew(total: nat, held: set<nat>, free: seq<nat>, next: nat)
    requires Partition(total, held, free, next) && next < total
    ensures Partition(total, held + {next}, free, next + 1) && next !in held
  {
    assert OnePlace(total, held, free, next, next);
    var held', next' := held + {next}, next + 1;
    forall p ensures OnePlace(total, held', free, next', p) {
      assert OnePlace(total, held, free, next, p);
    }
  }

  /** Past the last page the counter may move on freely. */
  lemma SkipNew(total: nat, held: set<nat>, free: seq<nat>, next: nat, next': nat)
    requires Partition(total, held, free, next) && next >= total
    ensures Partition(total, held, free, next') <==> next' >= total
  {
    if next' >= total {
      forall p ensures OnePlace(total, held, free, next', p) {
        assert OnePlace(total, held, free, next, p);
      }
    } else {
      assert OnePlace(total, held, free, next, next') && !OnePlace(total, held, free, next', next');
    }
  }

  lemma HeldFits(total: nat, held: set<nat>, free: seq<nat>, next: nat)
    requires Partition(total, held, free, next)
    ensures |held| <= total
  {
    forall p | p in held ensures p in Range(0, total) {
      assert OnePlace(total, held, free, next, p);
    }
    SubsetSize(held, Range(0, total));
  }

  lemma PutBack(total: nat, held: set<nat>, free: seq<nat>, next: nat, page: nat)
    requires Partition(total, held, free, next) && page < total
    ensures Partition(total, held - {page}, free + [page], next) <==> page in held
  {
    var free' := free + [page];
    assert OnePlace(total, held, free, next, page);
    if page in held {
      forall i, j | 0 <= i < j < |free'| ensures free'[i] != free'[j] {
        assert free'[i] == free[i] && free[i] in free;
      }
      forall p ensures OnePlace(total, held - {page}, free', next, p) {
        assert OnePlace(total, held, free, next, p);
      }
    } else if page in free {
      var i :| 0 <= i < |free| && free[i] == page;
      assert free'[i] == free'[|free|];
    } else {
      assert page in free' && !OnePlace(total, held - {page}, free', next, page);
    }
  }
}
