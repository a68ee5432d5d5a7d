/** The circular buffers of metrics and alerts, and the newest-first walk over them. */
module Ring {

  /** The last `n` entries of a log, newest first. */
  function Newest<T>(log: seq<T>, n: nat): seq<T>
    requires n <= |log|
  {
    seq(n, j requires 0 <= j < n => log[|log| - 1 - j])
  }

  function Min(a: nat, b: nat): nat {
    if a < b then a else b
  }

  lemma AtLeastFactor(cap: nat, d: int)
    requires d >= 1
    ensures cap * d >= cap
  {
    assert cap * d == cap * (d - 1) + cap;
  }

  lemma DivisionUnique(q1: int, r1: nat, q2: int, r2: nat, cap: nat)
    requires r1 < cap && r2 < cap && cap * q1 + r1 == cap * q2 + r2
    ensures r1 == r2
  {
    assert cap * (q1 - q2) == cap * q1 - cap * q2 && cap * (q2 - q1) == cap * q2 - cap * q1;
    if q1 != q2 {
      AtLeastFactor(cap, if q1 > q2 then q1 - q2 else q2 - q1);
    }
  }

  lemma ModUnique(a: int, b: int, k: int, cap: nat)
    requires cap > 0 && a == b + cap * k
    ensures a % cap == b % cap
  {
    var q := b / cap;
    assert cap * q + cap * k == cap * (q + k);
    DivisionUnique(a / cap, a % cap, q + k, b % cap, cap);
  }

  lemma ModDistinct(a: nat, b: nat, cap: nat)
    requires cap > 0 && a < b < a + cap
    ensures a % cap != b % cap
  {
    var p, q := a / cap, b / cap;
    assert b - a == cap * (q - p) + b % cap - a % cap;
    if q - p >= 1 {
      AtLeastFactor(cap, q - p);
    } else {
      NonPositive(cap, q - p);
    }
  }

  lemma NonPositive(cap: nat, d: int)
    requires d <= 0
    ensures cap * d <= 0
  {
  }

  lemma ModNext(a: nat, cap: nat)
    requires cap > 0
    ensures (a + 1) % cap == (a % cap + 1) % cap
  {
    ModShift(a, 1, cap);
  }

  lemma ModShift(a: int, d: int, cap: nat)
    requires cap > 0
    ensures (a + d) % cap == (a % cap + d) % cap
  {
    ModUnique(a + d, a % cap + d, a / cap, cap);
  }

  /** The index the walk reads at step `j`, given the write index `next`. */
  function BackIndex(next: nat, j: nat, cap: nat): (i: nat)
    requires next < cap && j < cap
    ensures i < cap
  {
    (next - 1 - j + cap) % cap
  }

  lemma BackIndexIs(total: nat, j: nat, cap: nat)
    requires cap > 0 && j < Min(total, cap)
    ensures BackIndex(total % cap, j, cap) == (total - 1 - j) % cap
  {
    ModShift(total, cap - 1 - j, cap);
    ModUnique(total + (cap - 1 - j), total - 1 - j, 1, cap);
  }

  /** The walk never reads the same slot twice. */
  lemma WalkIsInjective(total: nat, j: nat, k: nat, cap: nat)
    requires cap > 0 && j < k < Min(total, cap)
    ensures BackIndex(total % cap, j, cap) != BackIndex(total % cap, k, cap)
  {
    BackIndexIs(total, j, cap);
    BackIndexIs(total, k, cap);
    ModDistinct(total - 1 - k, total - 1 - j, cap);
  }

  /** A circular buffer holds the end of a log: entry `k` is in slot `k` modulo the capacity. */
  ghost predicate Image<T>(slots: seq<T>, next: int, count: int, log: seq<T>) {
    && |slots| > 0
    && next == |log| % |slots|
    && count == Min(|log|, |slots|)
    && forall k :: |log| - count <= k < |log| ==> slots[k % |slots|] == log[k]
  }

  lemma ImagePush<T>(slots: seq<T>, next: int, count: int, log: seq<T>, x: T)
    requires Image(slots, next, count, log)
    ensures Image(slots[next := x], (next + 1) % |slots|, if count < |slots| then count + 1 else count, log + [x])
  {
    var cap, slots', log' := |slots|, slots[next := x], log + [x];
    ModNext(|log|, cap);
    var count' := if count < cap then count + 1 else count;
    forall k | |log'| - count' <= k < |log'| ensures slots'[k % cap] == log'[k] {
      if k < |log| {
        ModDistinct(k, |log|, cap);
        assert slots[k % cap] == log[k];
      }
    }
  }

  lemma ImageBack<T>(slots: seq<T>, next: int, count: int, log: seq<T>, j: nat)
    requires Image(slots, next, count, log) && j < count
    ensures slots[BackIndex(next, j, |slots|)] == log[|log| - 1 - j]
  {
    BackIndexIs(|log|, j, |slots|);
    assert slots[(|log| - 1 - j) % |slots|] == log[|log| - 1 - j];
  }

  class Buffer<T> {
    const slots: array<T>
    var next: nat
    var count: nat
    ghost var log: seq<T>   // everything ever pushed

    ghost predicate Valid()
      reads this, slots
    {
      Image(slots[..], next, count, log)
    }

    constructor (capacity: nat, zero: T)
      requires capacity > 0
      ensures Valid() && fresh(slots) && slots.Length == capacity && log == []
    {
      slots := new T[capacity](_ => zero);
      next, count, log := 0, 0, [];
    }

    method Push(x: T)
      requires Valid()
      modifies this`next, this`count, this`log, slots
      ensures Valid() && log == old(log) + [x]
    {
      ImagePush(slots[..], next, count, log, x);
      slots[next] := x;
      assert slots[..] == old(slots[..])[next := x];
      next := (next + 1) % slots.Length;
      if count < slots.Length {
        count := count + 1;
      }
      log := log + [x];
    }

    /** The entry the walk reads at step `j`. */
    method Back(j: nat) returns (x: T)
      requires Valid() && j < count
      ensures x == log[|log| - 1 - j]
    {
      ImageBack(slots[..], next, count, log, j);
      var i := (next - 1 - j + slots.Length) % slots.Length;
      x := slots[i];
    }

    /** The locked read loop of the metrics and alerts pages, without the page. */
    method ReadNewestFirst() returns (out: seq<T>)
      requires Valid()
      ensures out == Newest(log, Min(|log|, slots.Length))
    {
      out := [];
      for j := 0 to count
        invariant |out| == j
        invariant forall k :: 0 <= k < j ==> out[k] == log[|log| - 1 - k]
      {
        var x := Back(j);
        out := out + [x];
      }
    }
  }
}
