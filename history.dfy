/**
 * The snapshot history of the forward pass: a plain list, or a double-ended
 * queue bounded to `truncate_iter + 1` entries that evicts its oldest entry
 * when an append finds it full.
 */
module History {

  /** How many snapshots the history keeps. */
  datatype Capacity = Unbounded | Bounded(maxLen: nat)

  function Min(a: int, b: int): int {
    if a <= b then a else b
  }

  /** The capacity chosen from `truncate_iter`: bounded to truncate_iter + 1 when it is non-negative. */
  function CapacityOf(truncateIter: int): (c: Capacity)
    ensures truncateIter < 0 <==> c.Unbounded?
    ensures c.Bounded? ==> c.maxLen == truncateIter + 1 && c.maxLen >= 1
  {
    if truncateIter >= 0 then Bounded(truncateIter + 1) else Unbounded
  }

  /** A capacity the constructor can produce: a bounded one always holds at least one snapshot. */
  predicate WellFormed(cap: Capacity) {
    cap.Bounded? ==> cap.maxLen >= 1
  }

  /** A history of n snapshots respects the capacity. */
  predicate Fits(n: nat, cap: Capacity) {
    cap.Bounded? ==> n <= cap.maxLen
  }

  /** The number of snapshots kept when n were appended in order. */
  function Retention(cap: Capacity, n: nat): nat {
    match cap
    case Unbounded => n
    case Bounded(m) => Min(n, m)
  }

  /** What a history of capacity `cap` holds once the snapshots `s` were appended in order: the newest ones. */
  function Window<S>(s: seq<S>, cap: Capacity): (r: seq<S>)
    ensures |r| == Retention(cap, |s|)
    ensures forall i :: 0 <= i < |r| ==> r[i] == s[|s| - |r| + i]
  {
    match cap
    case Unbounded => s
    case Bounded(m) => if |s| <= m then s else s[|s| - m..]
  }

  /** `_save_history`: append a snapshot to a history that respects its capacity. */
  function Push<S>(items: seq<S>, cap: Capacity, x: S): (r: seq<S>)
    requires Fits(|items|, cap)
    ensures |r| == Retention(cap, |items| + 1)
    ensures Fits(|r|, cap)
    ensures Fits(|items| + 1, cap) ==> r == items + [x]
    ensures cap.Bounded? && |items| == cap.maxLen >= 1 ==> r == items[1..] + [x]
  {
    Window(items + [x], cap)
  }

  /** Dropping older entries that a window would evict anyway does not change the window. */
  lemma WindowOfSuffix<S>(t: seq<S>, d: nat, cap: Capacity)
    requires d <= |t| && Retention(cap, |t|) <= |t| - d
    ensures Window(t[d..], cap) == Window(t, cap)
  {
    match cap
    case Unbounded =>
      assert t[d..] == t;
    case Bounded(m) =>
      if |t| - d > m {
        assert t[d..][|t| - d - m..] == t[|t| - m..];
      } else if |t| <= m {
        assert t[d..] == t;
      }
  }

  /** Pushing rest after a window is the window of everything: eviction never keeps an older entry. */
  lemma WindowAppend<S>(s: seq<S>, rest: seq<S>, cap: Capacity)
    ensures Window(Window(s, cap) + rest, cap) == Window(s + rest, cap)
  {
    var w := Window(s, cap);
    var d := |s| - |w|;
    assert w + rest == (s + rest)[d..];
    WindowOfSuffix(s + rest, d, cap);
  }

  /** The buffer filled by pushing xs one at a time. */
  function PushAll<S>(items: seq<S>, cap: Capacity, xs: seq<S>): seq<S>
    requires Fits(|items|, cap)
    decreases |xs|
  {
    if |xs| == 0 then items else PushAll(Push(items, cap, xs[0]), cap, xs[1..])
  }

  /** Appending one snapshot at a time keeps exactly the newest Retention(cap, ...) of them, oldest first. */
  lemma {:induction false} PushAllKeepsNewest<S>(items: seq<S>, cap: Capacity, xs: seq<S>)
    requires Fits(|items|, cap)
    ensures PushAll(items, cap, xs) == Window(items + xs, cap)
    decreases |xs|
  {
    if |xs| == 0 {
      assert items + xs == items;
    } else {
      var x, rest := xs[0], xs[1..];
      assert xs == [x] + rest;
      var p := Window(items + [x], cap);
      assert PushAll(items, cap, xs) == PushAll(p, cap, rest);
      PushAllKeepsNewest(p, cap, rest);
      PushThenWindow(items, x, rest, cap);
    }
  }

  lemma PushThenWindow<S>(items: seq<S>, x: S, rest: seq<S>, cap: Capacity)
    ensures Window(Window(items + [x], cap) + rest, cap) == Window(items + ([x] + rest), cap)
  {
    WindowAppend(items + [x], rest, cap);
    assert items + [x] + rest == items + ([x] + rest);
  }
}
