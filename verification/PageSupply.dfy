/**
 The page IDs an allocator can still hand out (page_manager.go): freed pages first, oldest first, then
 IDs that were never handed out.
 */
module PageSupply {
  import opened Bytes
  import opened Finite
  import opened Pages

  datatype Supply = Supply(free: seq<PageID>, next: PageID, total: nat)

  /** How many pages are left. */
  function Left(a: Supply): nat {
    |a.free| + if a.next < a.total then a.total - a.next else 0
  }

  datatype Draw = Draw(id: PageID, rest: Supply)

  /** `Alloc`. */
  function Take(a: Supply): Option<Draw> {
    if a.free != [] then Some(Draw(a.free[0], a.(free := a.free[1..])))
    else if a.next < a.total then Some(Draw(a.next, a.(next := a.next + 1)))
    else None
  }

  /** `Free`. */
  function Give(a: Supply, id: PageID): Supply {
    a.(free := a.free + [id])
  }

  /** `id` may be handed out at some time. */
  ghost predicate InSupply(a: Supply, id: PageID) {
    id in a.free || a.next <= id
  }

  ghost predicate SupplyOK(a: Supply) {
    && 0 < a.next && (forall id :: id in a.free ==> 0 < id < a.next)
    && Distinct(a.free)
  }

  /** `b` is `a` without the pages in `ids`. */
  ghost predicate Drew(a: Supply, b: Supply, ids: set<PageID>) {
    && SupplyOK(b) && b.total == a.total && a.next <= b.next && Left(b) == Left(a) - |ids|
    && (forall x {:trigger InSupply(b, x)} :: InSupply(b, x) <==> InSupply(a, x) && x !in ids)
    && (forall x :: x in ids ==> InSupply(a, x) && 0 < x < b.next)
  }

  /** `b` is `a` with the page `id` put back. */
  ghost predicate Returned(a: Supply, b: Supply, id: PageID) {
    && SupplyOK(b) && b.total == a.total && b.next == a.next && Left(b) == Left(a) + 1
    && forall x {:trigger InSupply(b, x)} :: InSupply(b, x) <==> InSupply(a, x) || x == id
  }

  lemma DrewNone(a: Supply)
    requires SupplyOK(a)
    ensures Drew(a, a, {})
  {
  }

  /** A page is handed out exactly when one is left, and it leaves the supply. */
  lemma TakeDraws(a: Supply)
    requires SupplyOK(a)
    ensures Take(a).Some? <==> Left(a) > 0
    ensures Take(a).Some? ==> Drew(a, Take(a).value.rest, {Take(a).value.id})
  {
    if a.free != [] {
      var first, rest := a.free[0], a.free[1..];
      assert a.free == [first] + rest;
      assert forall x :: x in a.free <==> x == first || x in rest;
      assert first !in rest;
      assert first in a.free;
    }
  }

  lemma GiveReturns(a: Supply, id: PageID)
    requires SupplyOK(a) && 0 < id < a.next && !InSupply(a, id)
    ensures Returned(a, Give(a, id), id)
  {
  }

  lemma DrewMore(a: Supply, b: Supply, c: Supply, ids: set<PageID>, id: PageID)
    requires Drew(a, b, ids) && Drew(b, c, {id})
    ensures id !in ids && Drew(a, c, ids + {id})
  {
    assert InSupply(b, id);
    forall x ensures InSupply(c, x) <==> InSupply(a, x) && x !in ids + {id} {
      assert InSupply(b, x) <==> InSupply(a, x) && x !in ids;
    }
    assert |ids + {id}| == |ids| + 1;
  }

  lemma DrewLess(a: Supply, b: Supply, c: Supply, ids: set<PageID>, id: PageID)
    requires Drew(a, b, ids) && id in ids && Returned(b, c, id)
    ensures Drew(a, c, ids - {id})
  {
    forall x ensures InSupply(c, x) <==> InSupply(a, x) && x !in ids - {id} {
      assert InSupply(b, x) <==> InSupply(a, x) && x !in ids;
    }
    assert |ids - {id}| == |ids| - 1;
  }

  /** `x` was in the supply `a` and is not in `b` any more. */
  ghost predicate Drawn(a: Supply, b: Supply, x: PageID) {
    InSupply(a, x) && !InSupply(b, x)
  }

  ghost predicate Within(b: Supply, a: Supply) {
    SupplyOK(b) && forall x {:trigger InSupply(b, x)} :: InSupply(b, x) ==> InSupply(a, x)
  }

  lemma DrewIsDrawn(a: Supply, b: Supply, ids: set<PageID>)
    requires Drew(a, b, ids)
    ensures Within(b, a) && forall x :: x in ids ==> Drawn(a, b, x)
  {
  }

  /** What was drawn was there. */
  lemma DrewEnough(a: Supply, b: Supply, ids: set<PageID>)
    requires Drew(a, b, ids)
    ensures Left(a) >= |ids|
  {
  }
}
