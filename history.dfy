/**
 * The bounded histories of `SquatApp`: `collections.deque(maxlen=100)` of the
 * knee angles and of the handle positions, fed one sample at a time.
 */
module History {
  /** The last `n` elements of `s`, or all of `s` when it is shorter. */
  function LastN<T>(s: seq<T>, n: nat): (r: seq<T>)
    ensures |r| == if |s| <= n then |s| else n
    ensures r == s[|s| - |r|..]
  {
    if |s| <= n then s else s[|s| - n..]
  }

  /** Keeping the last `n` of a suffix is keeping the last `n` of the whole. */
  lemma LastNOfExtendedSuffix<T>(s: seq<T>, t: seq<T>, n: nat)
    ensures LastN(LastN(s, n) + t, n) == LastN(s + t, n)
  {
    var k := |LastN(s, n)|;
    assert LastN(s, n) + t == (s + t)[|s| - k..];
  }

  /** The contents of a deque of capacity `n` after appending `xs` one at a time. */
  function AppendAll<T>(items: seq<T>, xs: seq<T>, n: nat): seq<T>
    decreases |xs|
  {
    if xs == [] then items else AppendAll(LastN(items + [xs[0]], n), xs[1..], n)
  }

  /**
   * A deque of capacity `n` holds the last `n` samples ever appended to it,
   * oldest first.
   */
  lemma {:induction false} AppendAllKeepsLast<T>(items: seq<T>, xs: seq<T>, n: nat)
    requires |items| <= n
    ensures AppendAll(items, xs, n) == LastN(items + xs, n)
    decreases |xs|
  {
    if xs == [] {
      assert items + xs == items;
    } else {
      var next := LastN(items + [xs[0]], n);
      AppendAllKeepsLast(next, xs[1..], n);
      LastNOfExtendedSuffix(items + [xs[0]], xs[1..], n);
      SplitFirst(items, xs);
    }
  }

  lemma SplitFirst<T>(items: seq<T>, xs: seq<T>)
    requires xs != []
    ensures items + [xs[0]] + xs[1..] == items + xs
  {
    assert xs == [xs[0]] + xs[1..];
  }

  /** After `m` appends to an empty deque it holds the last min(m, n) of them. */
  lemma AppendAllFromEmpty<T>(xs: seq<T>, n: nat)
    ensures |AppendAll([], xs, n)| == if |xs| <= n then |xs| else n
    ensures AppendAll([], xs, n) == xs[|xs| - |AppendAll([], xs, n)|..]
  {
    AppendAllKeepsLast([], xs, n);
    assert [] + xs == xs;
  }

  /** After 150 samples, a deque of capacity 100 holds samples 51 to 150 in order. */
  lemma HundredFiftySamples<T>(xs: seq<T>)
    requires |xs| == 150
    ensures AppendAll([], xs, 100) == xs[50..]
  {
    AppendAllFromEmpty(xs, 100);
  }

  /** A `deque` with a fixed `maxlen`, holding real samples. */
  class BoundedDeque {
    const maxlen: nat
    var items: seq<real>

    ghost predicate Valid()
      reads this
    {
      |items| <= maxlen
    }

    constructor (maxlen: nat)
      ensures Valid() && this.maxlen == maxlen && items == []
    {
      this.maxlen := maxlen;
      items := [];
    }

    /** `append(x)`: adds `x` at the right end, dropping the leftmost sample when full. */
    method Append(x: real)
      requires Valid()
      modifies this
      ensures Valid()
      ensures items == LastN(old(items) + [x], maxlen)
    {
      if |items| < maxlen {
        items := items + [x];
      } else if maxlen > 0 {
        items := items[1..] + [x];
      }
    }
  }
}
