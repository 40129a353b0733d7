/** The fixed-capacity buffer behind the audit trail and the log stream. */
module RingBuffers {

  /** The last `n` elements, or all of them when there are fewer. */
  function Last<T>(s: seq<T>, n: nat): (r: seq<T>)
    ensures |r| == (if |s| <= n then |s| else n)
  {
    if |s| <= n then s else s[|s| - n..]
  }

  lemma LastOfLast<T>(s: seq<T>, n: nat, m: nat)
    requires m <= n
    ensures Last(Last(s, n), m) == Last(s, m)
  {
  }

  /** Adding laps of `c` does not change a position. */
  lemma {:induction false} Laps(x: nat, q: nat, c: nat)
    requires c > 0
    ensures (x + q * c) % c == x % c
  {
    if q > 0 {
      Laps(x, q - 1, c);
      var y := x + (q - 1) * c;
      assert x + q * c == y + c;
      OneLap(y, c);
    }
  }

  lemma OneLap(x: nat, c: nat)
    requires c > 0
    ensures (x + c) % c == x % c
  {
    var q, r := x / c, x % c;
    assert x + c == c * (q + 1) + r;
    Remainder(x + c, q + 1, r, c);
  }

  lemma {:induction false} Multiples(c: nat, p: nat, q: nat)
    requires p < q
    ensures c * p + c <= c * q
    decreases q
  {
    if p + 1 < q {
      Multiples(c, p, q - 1);
      OneMore(c, q - 1);
    } else {
      OneMore(c, p);
    }
  }

  lemma OneMore(c: nat, n: nat)
    ensures c * (n + 1) == c * n + c
  {
  }

  /** Quotient and remainder are unique. */
  lemma Remainder(x: nat, q: nat, r: nat, c: nat)
    requires c > 0 && r < c && x == c * q + r
    ensures x % c == r
  {
    var p := x / c;
    Division(x, c);
    if p < q {
      Multiples(c, p, q);
    } else if p > q {
      Multiples(c, q, p);
    }
  }

  lemma Division(x: nat, c: nat)
    requires c > 0
    ensures x == c * (x / c) + x % c && 0 <= x % c < c && x / c >= 0
  {
  }

  /** Positions less than a lap apart differ. */
  lemma Apart(i: nat, n: nat, c: nat)
    requires c > 0 && i < n < i + c
    ensures i % c != n % c
  {
    var p, q := i / c, n / c;
    Division(i, c);
    Division(n, c);
    if p < q {
      Multiples(c, p, q);
    } else if q < p {
      Multiples(c, q, p);
    }
  }

  /** Walking `i` steps from the position of `n`. */
  lemma Walk(n: nat, i: nat, c: nat)
    requires c > 0
    ensures (n % c + i) % c == (n + i) % c
  {
    var q := n / c;
    assert n + i == (n % c + i) + q * c;
    Laps(n % c + i, q, c);
  }

  class RingBuffer<T(0)> {
    var entries: array<T>
    var pos: nat
    var full: bool
    const cap: nat
    /** Everything the buffer was seeded with and has been given since. */
    ghost var log: seq<T>

    ghost predicate Valid()
      reads this, entries
    {
      && cap > 0 && entries.Length == cap
      && pos == |log| % cap
      && full == (|log| >= cap)
      && forall i :: 0 <= i < |log| && |log| - cap <= i ==> entries[i % cap] == log[i]
    }

    constructor (capacity: int)
      ensures Valid() && fresh(entries)
      ensures cap == (if capacity <= 0 then 1 else capacity)
      ensures log == []
    {
      var c: nat := if capacity <= 0 then 1 else capacity;
      cap := c;
      entries := new T[c];
      pos, full, log := 0, false, [];
    }

    method Append(e: T)
      requires Valid()
      modifies this, entries
      ensures Valid() && entries == old(entries)
      ensures log == old(log) + [e]
    {
      ghost var n := |log|;
      forall i | 0 <= i < n && n + 1 - cap <= i ensures i % cap != n % cap {
        Apart(i, n, cap);
      }
      Walk(n, 1, cap);
      entries[pos] := e;
      pos := (pos + 1) % cap;
      FullAtZero(n + 1, cap, full, n >= cap);
      if pos == 0 {
        full := true;
      }
      log := log + [e];
    }

    /** The retained entries, oldest first. */
    method Snapshot() returns (out: seq<T>)
      requires Valid()
      ensures out == Last(log, cap)
    {
      var count := if full then cap else pos;
      var start := if full then pos else 0;
      Unfilled(|log|, cap);
      out := [];
      ghost var first := |log| - count;
      var i := 0;
      while i < count
        invariant 0 <= i <= count == |Last(log, cap)|
        invariant out == log[first..first + i]
      {
        StartOf(|log|, cap, i, full);
        out := out + [entries[(start + i) % cap]];
        i := i + 1;
      }
    }

    /** Replaces the contents by the last `cap` elements of `tail`. */
    method Seed(tail: seq<T>)
      requires Valid()
      modifies this, entries
      ensures Valid() && entries == old(entries)
      ensures log == Last(tail, cap)
    {
      var kept := if |tail| > cap then tail[|tail| - cap..] else tail;
      var zero: T := *;
      var i := 0;
      while i < entries.Length
        invariant 0 <= i <= entries.Length == cap && entries == old(entries)
      {
        entries[i] := zero;
        i := i + 1;
      }
      i := 0;
      while i < |kept|
        invariant 0 <= i <= |kept| <= entries.Length == cap && entries == old(entries)
        invariant forall k :: 0 <= k < i ==> entries[k] == kept[k]
      {
        entries[i] := kept[i];
        i := i + 1;
      }
      log := kept;
      if |kept| >= cap {
        full := true;
        pos := 0;
        Remainder(|kept|, 1, 0, cap);
      } else {
        full := false;
        pos := |kept|;
        Remainder(|kept|, 0, |kept|, cap);
      }
      forall k | 0 <= k < |kept| ensures k % cap == k {
        Remainder(k, 0, k, cap);
      }
    }

    method PosAndEntries() returns (position: nat, snapshot: seq<T>)
      requires Valid()
      ensures position == |log| % cap
      ensures snapshot == Last(log, cap)
    {
      position := pos;
      var count := if full then cap else pos;
      var start := if full then pos else 0;
      Unfilled(|log|, cap);
      snapshot := [];
      ghost var first := |log| - count;
      var i := 0;
      while i < count
        invariant 0 <= i <= count == |Last(log, cap)|
        invariant snapshot == log[first..first + i]
      {
        StartOf(|log|, cap, i, full);
        snapshot := snapshot + [entries[(start + i) % cap]];
        i := i + 1;
      }
    }

    /**
     * What came after position `from`: if `from` was the position `k` appends
     * ago, exactly the last `k` modulo capacity entries. Whole laps are lost.
     */
    method Since(from: int) returns (position: nat, out: seq<T>)
      requires Valid()
      ensures position == |log| % cap
      ensures !(0 <= from < cap) ==> out == []
      ensures forall k: nat :: k <= |log| && from == (|log| - k) % cap ==> out == Last(log, k % cap)
    {
      position := pos;
      if from < 0 || from >= cap || from == pos {
        forall k: nat | k <= |log| && from == (|log| - k) % cap ensures k % cap == 0 {
          Behind(|log|, k, cap);
        }
        return position, [];
      }
      var n := (pos - from + cap) % cap;
      out := [];
      var i := 0;
      while i < n
        invariant 0 <= i <= n && |out| == i
        invariant forall j :: 0 <= j < i ==> out[j] == entries[(from + j) % cap]
      {
        out := out + [entries[(from + i) % cap]];
        i := i + 1;
      }
      forall k: nat | k <= |log| && from == (|log| - k) % cap ensures out == Last(log, k % cap) {
        Behind(|log|, k, cap);
        var first := |log| - n;
        forall j | 0 <= j < n ensures out[j] == log[first + j] {
          Walk(first, j, cap);
        }
      }
    }
  }

  /** The write position is 0 after an append exactly when a lap is complete. */
  lemma FullAtZero(n: nat, c: nat, full: bool, was: bool)
    requires c > 0 && n > 0 && full == was == (n - 1 >= c)
    ensures (full || n % c == 0) <==> n >= c
  {
    if n < c {
      Remainder(n, 0, n, c);
    } else if n == c {
      Remainder(n, 1, 0, c);
    }
  }

  lemma Unfilled(n: nat, c: nat)
    requires c > 0
    ensures n < c ==> n % c == n
  {
    if n < c {
      Remainder(n, 0, n, c);
    }
  }

  /** Where the `i`-th oldest retained entry sits. */
  lemma StartOf(n: nat, c: nat, i: nat, full: bool)
    requires c > 0 && full == (n >= c) && i < (if full then c else n % c)
    ensures full ==> (n % c + i) % c == (n - c + i) % c
    ensures !full ==> (0 + i) % c == i % c
  {
    Walk(n, i, c);
    if full {
      OneLap(n - c + i, c);
    }
  }

  /** The distance read off two positions is the number of appends modulo the capacity. */
  lemma Behind(n: nat, k: nat, c: nat)
    requires c > 0 && k <= n
    ensures (n % c - (n - k) % c + c) % c == k % c
    ensures n % c == (n - k) % c ==> k % c == 0
    ensures k % c <= n && (n - k % c) % c == (n - k) % c
  {
    var a, b := (n - k) % c, k % c;
    Walk(n - k, k, c);
    Walk(k, a, c);
    Gap(a, b, c);
    Division(k, c);
    var q := k / c;
    assert n - b == (n - k) + q * c;
    Laps(n - k, q, c);
  }

  lemma Gap(a: nat, b: nat, c: nat)
    requires a < c && b < c
    ensures ((a + b) % c - a + c) % c == b
    ensures (a + b) % c == a ==> b == 0
  {
    Remainder(b, 0, b, c);
    if a + b < c {
      Remainder(a + b, 0, a + b, c);
      Remainder(b + c, 1, b, c);
    } else {
      Remainder(a + b, 1, a + b - c, c);
    }
  }
}
