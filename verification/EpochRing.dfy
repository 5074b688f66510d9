/** Retired pages wait for their readers in one bounded ring buffer per slot (epoch.go). */
module EpochRing {
  import Pages

  type PageID = Pages.PageID
  type Epoch = nat

  const RING_SIZE := 16384

  datatype Retired = Retired(page: PageID, epoch: Epoch)

  /** The length of the longest prefix whose entries are all committed and older than `safe`. */
  function SafePrefix(es: seq<Retired>, safe: Epoch): (n: nat)
    ensures n <= |es|
    ensures forall i :: 0 <= i < n ==> 0 < es[i].epoch < safe
    ensures n < |es| ==> es[n].epoch == 0 || es[n].epoch >= safe
  {
    if es == [] || es[0].epoch == 0 || es[0].epoch >= safe then 0 else 1 + SafePrefix(es[1..], safe)
  }

  function PagesOf(es: seq<Retired>): (ps: seq<PageID>)
    ensures |ps| == |es| && forall i :: 0 <= i < |es| ==> ps[i] == es[i].page
  {
    seq(|es|, i requires 0 <= i < |es| => es[i].page)
  }

  /** Within one lap of the ring no two positions share a buffer cell. */
  lemma OneLap(a: nat, b: nat)
    requires a < b < a + RING_SIZE
    ensures a % RING_SIZE != b % RING_SIZE
  {
  }

  /** The `n` cells of the buffer from position `head` on, around the end. */
  ghost function Window(b: seq<Retired>, head: nat, n: nat): (es: seq<Retired>)
    requires |b| == RING_SIZE
    ensures |es| == n && forall i :: 0 <= i < n ==> es[i] == Cell(b, head + i)
  {
    seq(n, i requires 0 <= i < n => Cell(b, head + i))
  }

  ghost function Cell(b: seq<Retired>, i: nat): Retired
    requires |b| == RING_SIZE
  {
    b[i % RING_SIZE]
  }

  class EpochRing {
    const buf: array<Retired>
    var head: nat
    var tail: nat

    ghost predicate Valid()
      reads this
    {
      buf.Length == RING_SIZE && head <= tail <= head + RING_SIZE
    }

    /** The entries that wait to be freed, oldest first. */
    ghost function Pending(): (es: seq<Retired>)
      requires Valid()
      reads this, buf
    {
      Window(buf[..], head, tail - head)
    }

    constructor ()
      ensures Valid() && Pending() == [] && fresh(buf)
    {
      buf := new Retired[RING_SIZE](_ => Retired(0, 0));
      head, tail := 0, 0;
    }

    /** One attempt of `Retire`; it fails, and the caller spins, only when the ring is full. */
    method Retire(page: PageID, epoch: Epoch) returns (ok: bool)
      requires Valid()
      modifies this`tail, buf
      ensures Valid() && head == old(head)
      ensures ok <==> |old(Pending())| < RING_SIZE
      ensures Pending() == if ok then old(Pending()) + [Retired(page, epoch)] else old(Pending())
    {
      if tail - head >= RING_SIZE {
        return false;
      }
      ghost var was := buf[..];
      buf[tail % RING_SIZE] := Retired(page, epoch);
      forall i | head <= i < tail ensures Cell(buf[..], i) == Cell(was, i) {
        OneLap(i, tail);
      }
      tail := tail + 1;
      return true;
    }

    /** The drain loop of `tryReclaim` for one slot: a prefix leaves, in order. */
    method Drain(safe: Epoch) returns (toFree: seq<PageID>)
      requires Valid()
      modifies this`head
      ensures Valid() && tail == old(tail)
      ensures var was := old(Pending());
              var n := SafePrefix(was, safe);
              toFree == PagesOf(was[..n]) && Pending() == was[n..]
    {
      hide PagesOf, SafePrefix;
      toFree := [];
      ghost var was := Pending();
      var maxHead := head;
      while maxHead < tail
        invariant head <= maxHead <= tail && |toFree| == maxHead - head
        invariant toFree == PagesOf(was[..maxHead - head])
        invariant forall i :: 0 <= i < maxHead - head ==> 0 < was[i].epoch < safe
      {
        var e := buf[maxHead % RING_SIZE];
        assert e == was[maxHead - head];
        if e.epoch == 0 || e.epoch >= safe {
          break;
        }
        assert was[..maxHead + 1 - head] == was[..maxHead - head] + [e];
        toFree := toFree + [e.page];
        maxHead := maxHead + 1;
      }
      head := maxHead;
    }
  }
}
