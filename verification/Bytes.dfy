/** Byte strings with the order of Go's `bytes.Compare`, and strictly sorted key lists. */
module Bytes {
  type byte = b: int | 0 <= b < 256
  type Key = seq<byte>
  type Value = seq<byte>

  datatype Option<+T> = None | Some(value: T)

  /** `bytes.Compare(a, b) < 0`. */
  predicate Less(a: Key, b: Key) {
    b != [] && (a == [] || a[0] < b[0] || (a[0] == b[0] && Less(a[1..], b[1..])))
  }

  lemma {:induction false} LessIrreflexive(a: Key)
    ensures !Less(a, a)
  {
    if a != [] {
      LessIrreflexive(a[1..]);
    }
  }

  lemma {:induction false} LessTransitive(a: Key, b: Key, c: Key)
    requires Less(a, b) && Less(b, c)
    ensures Less(a, c)
  {
    if a != [] && a[0] == b[0] && b[0] == c[0] {
      LessTransitive(a[1..], b[1..], c[1..]);
    }
  }

  lemma {:induction false} LessTotal(a: Key, b: Key)
    ensures Less(a, b) || a == b || Less(b, a)
  {
    if a != [] && b != [] && a[0] == b[0] {
      LessTotal(a[1..], b[1..]);
      assert a == [a[0]] + a[1..] && b == [b[0]] + b[1..];
    }
  }

  lemma LessAsymmetric(a: Key, b: Key)
    requires Less(a, b)
    ensures !Less(b, a) && a != b
  {
    LessIrreflexive(a);
    if Less(b, a) {
      LessTransitive(a, b, a);
    }
  }

  /** `a <= b < c` gives `a < c`. */
  lemma LeqThenLess(a: Key, b: Key, c: Key)
    requires !Less(b, a) && Less(b, c)
    ensures Less(a, c)
  {
    LessTotal(a, b);
    if Less(a, b) {
      LessTransitive(a, b, c);
    }
  }

  ghost predicate Sorted(keys: seq<Key>) {
    forall i, j :: 0 <= i < j < |keys| ==> Less(keys[i], keys[j])
  }

  /** Half-open key interval; an absent bound is unbounded on that side. */
  predicate InRange(k: Key, lo: Option<Key>, hi: Option<Key>) {
    (lo.Some? ==> !Less(k, lo.value)) && (hi.Some? ==> Less(k, hi.value))
  }

  /** The number of keys at most `key`, counted one by one. */
  function CountLeq(keys: seq<Key>, key: Key): (n: nat)
    ensures n <= |keys|
  {
    if keys == [] then 0
    else CountLeq(keys[..|keys| - 1], key) + (if Less(key, keys[|keys| - 1]) then 0 else 1)
  }

  /** In a sorted list the keys at most `key` are exactly the first `CountLeq` ones. */
  lemma {:induction false} CountLeqCuts(keys: seq<Key>, key: Key)
    requires Sorted(keys)
    ensures forall j :: 0 <= j < CountLeq(keys, key) ==> !Less(key, keys[j])
    ensures forall j :: CountLeq(keys, key) <= j < |keys| ==> Less(key, keys[j])
  {
    if keys != [] {
      var front, last := keys[..|keys| - 1], keys[|keys| - 1];
      CountLeqCuts(front, key);
      if !Less(key, last) {
        forall j | 0 <= j < |front|
          ensures !Less(key, front[j])
        {
          if Less(key, front[j]) {
            LessTransitive(key, front[j], last);
          }
        }
        assert CountLeq(front, key) == |front|;
      }
      forall j | 0 <= j < |front| ensures keys[j] == front[j] {}
    }
  }

  /** A position that cuts a list at `key` is its count: the cut is unique. */
  lemma CutIsCount(keys: seq<Key>, key: Key, i: nat)
    requires Sorted(keys) && i <= |keys|
    requires forall j :: 0 <= j < i ==> !Less(key, keys[j])
    requires forall j :: i <= j < |keys| ==> Less(key, keys[j])
    ensures i == CountLeq(keys, key)
  {
    CountLeqCuts(keys, key);
    var n := CountLeq(keys, key);
    assert i < |keys| ==> Less(key, keys[i]);
    assert n < |keys| ==> Less(key, keys[n]);
  }
}
