/** Values shared by every source, and the queue that a byte ring stands for. */
module Common {
  type byte = x: int | 0 <= x < 256

  datatype Option<+T> = None | Some(value: T)

  /** The last `n` elements of `s`, or all of it when it is shorter. */
  function KeepLast<T>(n: nat, s: seq<T>): seq<T> {
    if |s| <= n then s else s[|s| - n..]
  }
}

/** A queue that may forget its oldest elements.

    `written` is everything ever stored, `rd` the absolute position of the oldest element that is
    still readable, and `taken` the absolute positions handed to the reader, in order. */
module LossyQueue {
  import opened Common

  datatype Queue<T> = Queue(written: seq<T>, rd: nat, taken: seq<nat>)

  function Empty<T>(): Queue<T> {
    Queue([], 0, [])
  }

  ghost predicate IncreasingBelow(s: seq<nat>, bound: nat) {
    && (forall i, j :: 0 <= i < j < |s| ==> s[i] < s[j])
    && (forall i :: 0 <= i < |s| ==> s[i] < bound)
  }

  ghost predicate Sound<T>(q: Queue<T>) {
    q.rd <= |q.written| && IncreasingBelow(q.taken, q.rd)
  }

  function Contents<T>(q: Queue<T>): seq<T>
    requires q.rd <= |q.written|
  {
    q.written[q.rd..]
  }

  /** What the reader got: the stored bytes at the positions it took. */
  ghost function Delivered<T>(q: Queue<T>): seq<T>
    requires Sound(q)
  {
    seq(|q.taken|, k requires 0 <= k < |q.taken| => q.written[q.taken[k]])
  }

  /** How many stored bytes were forgotten before the reader saw them. */
  ghost function Lost<T>(q: Queue<T>): int {
    q.rd - |q.taken|
  }

  /** Store `chunk` and forget the `drop` oldest readable bytes. */
  function Store<T>(q: Queue<T>, chunk: seq<T>, drop: nat): Queue<T> {
    Queue(q.written + chunk, q.rd + drop, q.taken)
  }

  function Take<T>(q: Queue<T>): Queue<T> {
    Queue(q.written, q.rd + 1, q.taken + [q.rd])
  }

  /** The number of bytes a queue of capacity `cap` has to forget to admit `n` more. */
  function Overflow(cap: nat, held: nat, n: nat): nat {
    if held + n <= cap then 0 else held + n - cap
  }

  /** Forgetting exactly the overflow is the same as keeping the last `cap` bytes. */
  lemma StoreKeepsLast<T>(q: Queue<T>, chunk: seq<T>, cap: nat)
    requires Sound(q)
    ensures var q' := Store(q, chunk, Overflow(cap, |Contents(q)|, |chunk|));
            && Sound(q')
            && Contents(q') == KeepLast(cap, Contents(q) + chunk)
            && Delivered(q') == Delivered(q)
            && Lost(q') == Lost(q) + Overflow(cap, |Contents(q)|, |chunk|)
  {
    var drop := Overflow(cap, |Contents(q)|, |chunk|);
    var q' := Store(q, chunk, drop);
    assert Contents(q) + chunk == q'.written[q.rd..];
    assert Contents(q') == q'.written[q.rd..][drop..];
  }

  lemma StoreSound<T>(q: Queue<T>, chunk: seq<T>, drop: nat)
    requires Sound(q) && drop <= |Contents(q)| + |chunk|
    ensures Sound(Store(q, chunk, drop))
    ensures Delivered(Store(q, chunk, drop)) == Delivered(q)
    ensures Contents(Store(q, chunk, drop)) == (Contents(q) + chunk)[drop..]
  {
    assert Contents(q) + chunk == Store(q, chunk, drop).written[q.rd..];
  }

  lemma TakeOldest<T>(q: Queue<T>)
    requires Sound(q) && Contents(q) != []
    ensures var q' := Take(q);
            && Sound(q')
            && Contents(q') == Contents(q)[1..]
            && Delivered(q') == Delivered(q) + [Contents(q)[0]]
            && Lost(q') == Lost(q)
  {
  }

  /** Keeping the last `n` after each of two writes is keeping the last `n` after both. */
  lemma KeepLastTwice<T>(n: nat, s: seq<T>, t: seq<T>)
    ensures KeepLast(n, KeepLast(n, s) + t) == KeepLast(n, s + t)
  {
    if |s| > n {
      assert KeepLast(n, s) + t == (s + t)[|s| - n..];
    }
  }

  /** The reader never runs ahead: conservation of bytes. */
  lemma Conservation<T>(q: Queue<T>)
    requires Sound(q)
    ensures |q.taken| <= q.rd
    ensures |Delivered(q)| + Lost(q) + |Contents(q)| == |q.written|
    ensures Lost(q) >= 0
  {
    TakenBound(q.taken, q.rd);
  }

  lemma {:induction false} TakenBound(s: seq<nat>, bound: nat)
    requires IncreasingBelow(s, bound)
    ensures |s| <= bound
  {
    if |s| > 0 {
      TakenBound(s[..|s| - 1], s[|s| - 1]);
    }
  }
}
